/** Text handling shared by the policy rules: white-space splitting, folding for search, and
    substring tests. What Unicode does to single characters stays uninterpreted. */
module Text {
  import opened Domain

  /** How a text is read as an integer, if it is one. */
  type Reading = string -> Option<int>

  /** Character and keyword tables, left open. `fold` is compatibility decomposition without
      accents followed by case folding, `lower` is lower-casing, `space` and `word` are the
      white-space and word classes, `leaks` is the internal-reasoning keyword test and
      `triage` the list of risk signals of a (folded) customer text. `number` is what `int` makes of
      a text: a sign, blanks around it, underscores and any decimal digits may be read too. */
  datatype Lexicon = Lexicon(
    fold: char -> string,
    lower: char -> string,
    space: char -> bool,
    word: char -> bool,
    leaks: string -> bool,
    triage: string -> seq<string>,
    number: Reading)

  predicate IsDigit(c: char) {
    '0' <= c <= '9'
  }

  predicate IsSeparator(c: char) {
    c == '.' || c == ','
  }

  predicate NumberChar(c: char) {
    IsDigit(c) || IsSeparator(c)
  }

  /** What is assumed of the tables on ASCII digits, the two separators and the blank. */
  ghost predicate Sane(lex: Lexicon) {
    && lex.space(' ') && !lex.word(' ')
    && lex.fold(' ') == " " && lex.lower(' ') == " "
    && (forall c: char {:trigger lex.fold(c)} {:trigger lex.lower(c)} {:trigger lex.space(c)} ::
          NumberChar(c) ==> lex.fold(c) == [c] && lex.lower(c) == [c] && !lex.space(c))
    && (forall c: char {:trigger lex.word(c)} :: IsDigit(c) ==> lex.word(c))
    && (forall c: char {:trigger lex.word(c)} :: IsSeparator(c) ==> !lex.word(c))
  }

  // ---- Numbers and order -----------------------------------------------------------------------

  predicate Numeric(s: string) {
    s != "" && forall i :: 0 <= i < |s| ==> IsDigit(s[i])
  }

  function DigitValue(c: char): (n: nat)
    requires IsDigit(c)
    ensures n < 10
  {
    c as int - '0' as int
  }

  /** The number a text of digits denotes. */
  function NumericValue(s: string): nat
    requires forall i :: 0 <= i < |s| ==> IsDigit(s[i])
  {
    if s == "" then 0 else 10 * NumericValue(s[..|s| - 1]) + DigitValue(s[|s| - 1])
  }

  /** Code-point order on texts. */
  predicate TextAfter(a: string, b: string) {
    if a == "" then false
    else if b == "" then true
    else if a[0] == b[0] then TextAfter(a[1..], b[1..])
    else a[0] > b[0]
  }

  /** One text comes after another when, past what they share, it alone goes on or goes on with a
      greater character. */
  lemma {:induction false} TextAfterIff(a: string, b: string)
    ensures TextAfter(a, b) <==> exists k :: 0 <= k <= |b| && k < |a| && a[..k] == b[..k] && (k == |b| || a[k] > b[k])
  {
    if a != "" && b != "" && a[0] == b[0] {
      TextAfterIff(a[1..], b[1..]);
      if k :| 0 <= k <= |b[1..]| && k < |a[1..]| && a[1..][..k] == b[1..][..k] && (k == |b[1..]| || a[1..][k] > b[1..][k]) {
        assert a[..k + 1] == [a[0]] + a[1..][..k] && b[..k + 1] == [b[0]] + b[1..][..k];
      }
      if k :| 0 <= k <= |b| && k < |a| && a[..k] == b[..k] && (k == |b| || a[k] > b[k]) {
        assert a[1..][..k - 1] == a[..k][1..] && b[1..][..k - 1] == b[..k][1..];
      }
    } else if a != "" {
      assert a[..0] == b[..0];
      assert forall k :: 0 < k <= |b| && k < |a| && a[..k] == b[..k] ==> a[..k][0] == a[0] && b[..k][0] == b[0];
    }
  }

  /** The texts of the list in order, each once. */
  function SortedDistinct(texts: seq<string>): seq<string> {
    if texts == [] then [] else InsertSorted(texts[0], SortedDistinct(texts[1..]))
  }

  function InsertSorted(text: string, sorted: seq<string>): seq<string> {
    if sorted == [] then [text]
    else if text == sorted[0] then sorted
    else if TextAfter(sorted[0], text) then [text] + sorted
    else [sorted[0]] + InsertSorted(text, sorted[1..])
  }

  predicate Ascending(texts: seq<string>) {
    forall i, j :: 0 <= i < j < |texts| ==> TextAfter(texts[j], texts[i])
  }

  lemma {:induction false} TextOrder(a: string, b: string, c: string)
    ensures !TextAfter(a, a)
    ensures TextAfter(a, b) && TextAfter(b, c) ==> TextAfter(a, c)
    ensures a != b ==> (TextAfter(a, b) <==> !TextAfter(b, a))
  {
    if a != "" && b != "" && c != "" {
      TextOrder(a[1..], b[1..], c[1..]);
    } else if a != "" && b != "" {
      TextOrder(a[1..], b[1..], "");
    } else if a != "" {
      TextOrder(a[1..], "", "");
    }
    if a != "" && b != "" && a[0] == b[0] {
      assert a[1..] == b[1..] ==> a == [a[0]] + a[1..] == [b[0]] + b[1..] == b;
    }
  }

  lemma {:induction false} InsertsSorted(text: string, sorted: seq<string>)
    requires Ascending(sorted)
    ensures Ascending(InsertSorted(text, sorted))
    ensures forall x :: x in InsertSorted(text, sorted) <==> x == text || x in sorted
  {
    hide TextAfter;
    if sorted != [] {
      var head, rest := sorted[0], sorted[1..];
      assert sorted == [head] + rest;
      TextOrder(head, text, "");
      if text != head && TextAfter(head, text) {
        forall j | 0 <= j < |sorted| ensures TextAfter(sorted[j], text) {
          TextOrder(sorted[j], head, text);
        }
      } else if text != head {
        InsertsSorted(text, rest);
        var inserted := InsertSorted(text, rest);
        forall j | 0 <= j < |inserted| ensures TextAfter(inserted[j], head) {
          assert inserted[j] in inserted;
        }
      }
    }
  }

  /** It is in ascending order, so without repeats, and has exactly the texts of the list. */
  lemma {:induction false} SortedDistinctIs(texts: seq<string>)
    ensures Ascending(SortedDistinct(texts))
    ensures forall x :: x in SortedDistinct(texts) <==> x in texts
  {
    if texts != [] {
      SortedDistinctIs(texts[1..]);
      InsertsSorted(texts[0], SortedDistinct(texts[1..]));
      assert texts == [texts[0]] + texts[1..];
    }
  }

  // ---- Words -----------------------------------------------------------------------------------

  /** True when stripping the text leaves nothing. */
  predicate Blank(lex: Lexicon, s: string) {
    forall i :: 0 <= i < |s| ==> lex.space(s[i])
  }

  predicate Contains(s: string, part: string) {
    exists i, j :: 0 <= i <= j <= |s| && s[i..j] == part
  }

  predicate StartsWith(s: string, prefix: string) {
    prefix <= s
  }

  function MapChars(f: char -> string, s: string): string {
    if s == "" then "" else f(s[0]) + MapChars(f, s[1..])
  }

  /** The maximal runs of non-blank characters, in order. */
  function Words(space: char -> bool, s: string): (ws: seq<string>)
    ensures s != "" && !space(s[0]) ==> ws != []
  {
    if s == "" then []
    else if space(s[0]) then Words(space, s[1..])
    else if |s| == 1 || space(s[1]) then [[s[0]]] + Words(space, s[1..])
    else
      var rest := Words(space, s[1..]);
      [[s[0]] + rest[0]] + rest[1..]
  }

  /** The words put back together with single blanks. */
  function Join(ws: seq<string>): string {
    if ws == [] then ""
    else if |ws| == 1 then ws[0]
    else ws[0] + " " + Join(ws[1..])
  }

  /** Lower-case, accent-free text with single blanks, used for keyword and price matching. */
  function Searchable(lex: Lexicon, s: string): string {
    Join(Words(lex.space, MapChars(lex.fold, s)))
  }

  /** Lower-case text with single blanks, used to compare quoted prices. */
  function NormalizePrice(lex: Lexicon, s: string): string {
    Join(Words(lex.space, MapChars(lex.lower, s)))
  }

  lemma Associate(a: string, b: string, c: string)
    ensures (a + b) + c == a + (b + c)
  {
  }

  lemma {:induction false} MapCharsConcat(f: char -> string, a: string, b: string)
    ensures MapChars(f, a + b) == MapChars(f, a) + MapChars(f, b)
  {
    if a == "" {
      assert a + b == b;
    } else {
      MapCharsConcat(f, a[1..], b);
      assert (a + b)[0] == a[0] && (a + b)[1..] == a[1..] + b;
      Associate(f(a[0]), MapChars(f, a[1..]), MapChars(f, b));
    }
  }

  lemma MapCharsOne(f: char -> string, c: char)
    ensures MapChars(f, [c]) == f(c) && MapChars(f, "") == ""
  {
    assert [c][1..] == "";
    assert f(c) + "" == f(c);
  }

  lemma {:induction false} MapCharsFixed(f: char -> string, s: string)
    requires forall i :: 0 <= i < |s| ==> f(s[i]) == [s[i]]
    ensures MapChars(f, s) == s
  {
    if s != "" {
      MapCharsFixed(f, s[1..]);
      assert s == [s[0]] + s[1..];
    }
  }

  /** The words of a text from those of its tail. */
  function Prepend(space: char -> bool, c: char, tail: string): seq<string> {
    var rest := Words(space, tail);
    if space(c) then rest
    else if tail == "" || space(tail[0]) then [[c]] + rest
    else [[c] + rest[0]] + rest[1..]
  }

  lemma WordsOfNothing(space: char -> bool)
    ensures Words(space, "") == []
  {
  }

  lemma WordsPrepend(space: char -> bool, s: string)
    requires s != ""
    ensures Words(space, s) == Prepend(space, s[0], s[1..])
  {
    assert |s| > 1 ==> s[1..][0] == s[1];
  }

  /** Any blank separates: the words around it are the words of the two sides. With the words of
      a text without blanks this says what the words of every text are. */
  lemma {:induction false} WordsSplit(space: char -> bool, a: string, c: char, b: string)
    requires space(c)
    ensures Words(space, a + [c] + b) == Words(space, a) + Words(space, b)
  {
    hide Words;
    var s := a + [c] + b;
    WordsPrepend(space, s);
    if a == "" {
      assert s[0] == c && s[1..] == b;
      WordsOfNothing(space);
    } else {
      WordsSplit(space, a[1..], c, b);
      WordsPrepend(space, a);
      assert s[0] == a[0] && s[1..] == a[1..] + [c] + b;
      var left, right := Words(space, a[1..]), Words(space, b);
      if a[1..] != "" && !space(a[0]) && !space(a[1]) {
        assert s[1..][0] == a[1] && (left + right)[0] == left[0] && (left + right)[1..] == left[1..] + right;
      }
    }
  }

  lemma WordsAcrossBlank(space: char -> bool, a: string, b: string)
    requires space(' ')
    ensures Words(space, a + " " + b) == Words(space, a) + Words(space, b)
  {
    WordsSplit(space, a, ' ', b);
  }

  lemma FirstWord(space: char -> bool, s: string)
    requires s != "" && !space(s[0])
    ensures Words(space, s) != [] && Words(space, s)[0] != "" && Words(space, s)[0][0] == s[0]
  {
  }

  /** Characters without blanks put before a text become, or lengthen, its first word. */
  lemma {:induction false} WordsOfSolid(space: char -> bool, solid: string, t: string)
    requires solid != "" && forall i :: 0 <= i < |solid| ==> !space(solid[i])
    ensures Words(space, solid + t) == if t == "" || space(t[0]) then [solid] + Words(space, t)
                                       else [solid + Words(space, t)[0]] + Words(space, t)[1..]
  {
    hide Words;
    var s := solid + t;
    WordsPrepend(space, s);
    assert s[0] == solid[0] && s[1..] == solid[1..] + t;
    if |solid| == 1 {
      assert solid[1..] + t == t && solid == [solid[0]];
    } else {
      WordsOfSolid(space, solid[1..], t);
      assert s[1..][0] == solid[1];
      assert [solid[0]] + solid[1..] == solid;
      assert t != "" && !space(t[0]) ==> [solid[0]] + (solid[1..] + Words(space, t)[0]) == solid + Words(space, t)[0];
    }
  }

  /** In joined text a middle word stands between blanks or the ends. */
  lemma {:induction false} JoinAround(left: seq<string>, w: string, right: seq<string>)
    returns (before: string, after: string)
    ensures Join(left + [w] + right) == before + w + after
    ensures before == "" || before[|before| - 1] == ' '
    ensures after == "" || after[0] == ' '
  {
    var all := left + [w] + right;
    if left == [] {
      assert all == [w] + right;
      before := "";
      after := if right == [] then "" else " " + Join(right);
      assert right != [] ==> all[1..] == right;
    } else {
      var b, a := JoinAround(left[1..], w, right);
      assert all[1..] == left[1..] + [w] + right;
      before, after := left[0] + " " + b, a;
      assert Join(all) == left[0] + " " + (b + w + a);
    }
  }

  lemma MapQuoted(f: char -> string, a: string, number: string, b: string)
    requires f(' ') == " " && forall i :: 0 <= i < |number| ==> f(number[i]) == [number[i]]
    ensures MapChars(f, a + " " + number + b) == MapChars(f, a) + " " + (number + MapChars(f, b))
  {
    hide MapChars;
    MapCharsConcat(f, a + " " + number, b);
    MapCharsConcat(f, a + " ", number);
    MapCharsConcat(f, a, " ");
    MapCharsFixed(f, number);
    MapCharsFixed(f, " ");
    Associate(MapChars(f, a) + " ", number, MapChars(f, b));
  }

  /** A number quoted after a blank stays whole after a character map that leaves it alone and
      white-space collapsing, and what follows it still does, if the map leaves that alone. */
  lemma QuotedSurvives(f: char -> string, space: char -> bool, a: string, number: string, b: string)
    returns (before: string, after: string)
    requires space(' ') && f(' ') == " "
    requires number != "" && forall i :: 0 <= i < |number| ==> f(number[i]) == [number[i]] && !space(number[i])
    requires b != "" ==> f(b[0]) == [b[0]]
    ensures Join(Words(space, MapChars(f, a + " " + number + b))) == before + number + after
    ensures before == "" || before[|before| - 1] == ' '
    ensures after == "" || after[0] == ' ' || (b != "" && after[0] == b[0])
  {
    var fa, fb := MapChars(f, a), MapChars(f, b);
    assert fb == "" || fb[0] == b[0];
    hide Words, Join, MapChars;
    MapQuoted(f, a, number, b);
    WordsAcrossBlank(space, fa, number + fb);
    var left, words := Words(space, fa), Words(space, number + fb);
    var x := FirstWordAround(space, number, fb);
    assert left + words == left + [words[0]] + words[1..];
    var rest: string;
    before, rest := JoinAround(left, words[0], words[1..]);
    after := x + rest;
    Associate(before, number, x);
    Associate(before + number, x, rest);
  }

  lemma FirstWordAround(space: char -> bool, solid: string, t: string) returns (x: string)
    requires solid != "" && forall i :: 0 <= i < |solid| ==> !space(solid[i])
    ensures Words(space, solid + t) != [] && Words(space, solid + t)[0] == solid + x
    ensures x == "" || (t != "" && x[0] == t[0])
  {
    hide Words;
    WordsOfSolid(space, solid, t);
    if t == "" || space(t[0]) {
      x := "";
    } else {
      FirstWord(space, t);
      x := Words(space, t)[0];
    }
  }

  // ---- Parts of a text -------------------------------------------------------------------------

  predicate EndsWith(s: string, end: string) {
    |end| <= |s| && s[|s| - |end|..] == end
  }

  lemma PrependKeepsEnd(space: char -> bool, c: char, t: string)
    ensures EndsWith(Join(Words(space, [c] + t)), Join(Words(space, t)))
  {
    hide Words;
    WordsPrepend(space, [c] + t);
    assert ([c] + t)[1..] == t;
    var rest := Words(space, t);
    if !space(c) && t != "" && !space(t[0]) {
      FirstWord(space, t);
      JoinLengthened([c], rest);
    }
  }

  lemma JoinLengthened(x: string, ws: seq<string>)
    requires ws != []
    ensures Join([x + ws[0]] + ws[1..]) == x + Join(ws)
  {
    var longer := [x + ws[0]] + ws[1..];
    assert longer[1..] == ws[1..];
    if |ws| > 1 {
      hide Join;
      JoinStep(longer);
      JoinStep(ws);
    }
  }

  lemma JoinStep(ws: seq<string>)
    requires |ws| > 1
    ensures Join(ws) == ws[0] + (" " + Join(ws[1..]))
  {
  }

  /** Text put before keeps the collapsed text as its end. */
  lemma {:induction false} PrefixKeepsEnd(space: char -> bool, a: string, t: string)
    ensures EndsWith(Join(Words(space, a + t)), Join(Words(space, t)))
  {
    hide Words, Join;
    if a == "" {
      assert a + t == t;
    } else {
      PrefixKeepsEnd(space, a[1..], t);
      PrependKeepsEnd(space, a[0], a[1..] + t);
      assert [a[0]] + (a[1..] + t) == a + t;
      EndsChain(Join(Words(space, a + t)), Join(Words(space, a[1..] + t)), Join(Words(space, t)));
    }
  }

  lemma EndsChain(a: string, b: string, c: string)
    requires EndsWith(a, b) && EndsWith(b, c)
    ensures EndsWith(a, c)
  {
    assert a[|a| - |c|..] == b[|b| - |c|..];
  }

  /** The same words, of which the last may go on, and perhaps more. */
  predicate Extends(ws: seq<string>, more: seq<string>) {
    ws != [] ==>
      var n := |ws| - 1;
      n < |more| && ws[..n] == more[..n] && ws[n] <= more[n]
  }

  lemma {:induction false} SuffixExtendsWords(space: char -> bool, s: string, b: string)
    ensures Extends(Words(space, s), Words(space, s + b))
  {
    hide Words;
    if s == "" {
      WordsOfNothing(space);
    } else {
      SuffixExtendsWords(space, s[1..], b);
      WordsPrepend(space, s);
      WordsPrepend(space, s + b);
      assert (s + b)[1..] == s[1..] + b && (s + b)[0] == s[0];
      if s[1..] == "" {
        WordsOfNothing(space);
      } else {
        assert (s[1..] + b)[0] == s[1];
        if !space(s[0]) && !space(s[1]) {
          FirstWord(space, s[1..]);
        }
      }
    }
  }

  lemma {:induction false} JoinExtends(ws: seq<string>, more: seq<string>)
    requires Extends(ws, more)
    ensures Join(ws) <= Join(more)
  {
    if |ws| > 1 {
      var n := |ws| - 1;
      assert ws[..n][0] == more[..n][0];
      assert ws[1..][..n - 1] == ws[..n][1..] && more[1..][..n - 1] == more[..n][1..];
      JoinExtends(ws[1..], more[1..]);
    } else if |ws| == 1 && |more| > 1 {
      assert ws[0] <= more[0];
    }
  }

  /** Whatever stands around it, the collapsed form of a part is found in that of the whole. */
  lemma PartIsContained(space: char -> bool, a: string, part: string, b: string)
    ensures Contains(Join(Words(space, a + part + b)), Join(Words(space, part)))
  {
    hide Words, Join;
    assert a + part + b == a + (part + b);
    var whole, mid, inner := Join(Words(space, a + part + b)), Join(Words(space, part + b)), Join(Words(space, part));
    PrefixKeepsEnd(space, a, part + b);
    SuffixExtendsWords(space, part, b);
    JoinExtends(Words(space, part), Words(space, part + b));
    var i := |whole| - |mid|;
    assert whole[i..i + |inner|] == mid[..|inner|] == inner;
  }
}
