/** The price printer of `Money.display`, the exact-price recogniser of the policy, and the
    rule that only prices in the catalog snapshot may be quoted. */
module Pricing {
  import opened Domain
  import opened Text

  // ---- The recogniser -------------------------------------------------------------------

  predicate AllDigits(s: string) {
    forall i :: 0 <= i < |s| ==> IsDigit(s[i])
  }

  /** `\d{1,3}(?:[.,]\d{3})*`, read from the right. */
  predicate GroupedShape(s: string) {
    || (1 <= |s| <= 3 && AllDigits(s))
    || (|s| > 4 && IsSeparator(s[|s| - 4]) && AllDigits(s[|s| - 3..]) && GroupedShape(s[..|s| - 4]))
  }

  /** The exact-price pattern without its word boundaries. */
  predicate PriceShape(s: string) {
    |s| > 3 && IsSeparator(s[|s| - 3]) && AllDigits(s[|s| - 2..]) && GroupedShape(s[..|s| - 3])
  }

  predicate WordAt(lex: Lexicon, s: string, i: int) {
    0 <= i < |s| && lex.word(s[i])
  }

  /** A word boundary at position `i`. */
  predicate Boundary(lex: Lexicon, s: string, i: int) {
    WordAt(lex, s, i - 1) != WordAt(lex, s, i)
  }

  predicate MatchAt(lex: Lexicon, s: string, i: int, j: int) {
    0 <= i <= j <= |s| && PriceShape(s[i..j]) && Boundary(lex, s, i) && Boundary(lex, s, j)
  }

  predicate HasPriceMatch(lex: Lexicon, s: string) {
    exists i, j :: 0 <= i <= j <= |s| && MatchAt(lex, s, i, j)
  }

  const PRICE_MARKERS: set<string> := {"r$", "$", "brl", "usd", "eur", "free", "grátis", "gratis"}

  predicate MentionsExactPrice(lex: Lexicon, text: string) {
    var folded := Searchable(lex, text);
    || (exists marker :: marker in PRICE_MARKERS && Contains(folded, marker))
    || HasPriceMatch(lex, folded)
  }

  /** A product whose price may be said aloud. */
  predicate Mentionable(product: Product) {
    && product.price.canMention
    && Truthy(product.price.displayText)
    && !product.price.hidden
    && !product.price.quoteRequired
    && !product.price.stale
    && product.available != Some(false)
  }

  predicate QuotesProduct(lex: Lexicon, text: string, product: Product) {
    && Mentionable(product)
    && var price := NormalizePrice(lex, product.price.displayText.value);
       price != "" && Contains(NormalizePrice(lex, text), price)
  }

  function PublicPriceRule(lex: Lexicon, text: string, catalog: Catalog): Option<PolicyRule> {
    if !MentionsExactPrice(lex, text) then None
    else if exists product :: product in catalog.products && QuotesProduct(lex, text, product) then None
    else Some(PublicPriceRequiresSnapshot)
  }

  // ---- The printer ----------------------------------------------------------------------

  /** `n` divided by ten to the `k`. */
  function Scaled(n: nat, k: nat): nat {
    if k == 0 then n else Scaled(n / 10, k - 1)
  }

  function Digit(n: nat): (c: char)
    requires n < 10
    ensures IsDigit(c)
  {
    '0' + n as char
  }

  /** The last `k` digits of `n`, with leading zeros. */
  function Padded(n: nat, k: nat): (s: string)
    ensures |s| == k && AllDigits(s)
  {
    if k == 0 then "" else Padded(n / 10, k - 1) + [Digit(n % 10)]
  }

  /** Decimal digits with a comma before every group of three. */
  function Grouped(n: nat): string {
    if n < 10 then Padded(n, 1)
    else if n < 100 then Padded(n, 2)
    else if n < 1000 then Padded(n, 3)
    else Grouped(n / 1000) + "," + Padded(n, 3)
  }

  function Number(units: nat, minorUnit: nat): string {
    Grouped(Scaled(units, minorUnit))
      + if minorUnit == 0 then "" else "." + Padded(units, minorUnit)
  }

  /** `Money.display` for an amount that is not negative; `currency` is the symbol, or the
      currency when there is none. */
  function Display(currency: string, units: nat, minorUnit: nat): string {
    currency + " " + Number(units, minorUnit)
  }

  // ---- The printer meets the recogniser ---------------------------------------------------

  lemma {:induction false} GroupedIsGrouped(n: nat)
    ensures GroupedShape(Grouped(n))
  {
    if n >= 1000 {
      GroupedIsGrouped(n / 1000);
      var s := Grouped(n);
      assert s[..|s| - 4] == Grouped(n / 1000);
      assert s[|s| - 3..] == Padded(n, 3);
    }
  }

  lemma TwoDecimalsArePriced(units: nat)
    ensures PriceShape(Number(units, 2))
  {
    var s := Number(units, 2);
    var major := Scaled(units, 2);
    GroupedIsGrouped(major);
    assert s[..|s| - 3] == Grouped(major);
    assert s[|s| - 2..] == Padded(units, 2);
  }

  lemma NumberChars(units: nat, minorUnit: nat)
    ensures Number(units, minorUnit) != ""
    ensures forall i :: 0 <= i < |Number(units, minorUnit)| ==> NumberChar(Number(units, minorUnit)[i])
  {
    var major := Grouped(Scaled(units, minorUnit));
    GroupedChars(Scaled(units, minorUnit));
    GroupedIsGrouped(Scaled(units, minorUnit));
    ShapeStartsWithDigit(major);
    assert minorUnit > 0 ==> forall i :: |major| < i < |Number(units, minorUnit)| ==>
             Number(units, minorUnit)[i] == Padded(units, minorUnit)[i - |major| - 1];
  }

  lemma {:induction false} GroupedChars(n: nat)
    ensures forall i :: 0 <= i < |Grouped(n)| ==> NumberChar(Grouped(n)[i])
  {
    if n >= 1000 {
      GroupedChars(n / 1000);
    }
  }

  /** Every comma of a grouped number is followed by three digits. */
  lemma {:induction false} CommaRuns(n: nat, p: nat)
    requires p < |Grouped(n)| && IsSeparator(Grouped(n)[p])
    ensures p + 3 < |Grouped(n)| && IsDigit(Grouped(n)[p + 3])
  {
    if n >= 1000 && p < |Grouped(n / 1000)| {
      CommaRuns(n / 1000, p);
    }
  }

  lemma {:induction false} ShapeStartsWithDigit(s: string)
    requires GroupedShape(s)
    ensures s != "" && IsDigit(s[0])
  {
    if !(1 <= |s| <= 3 && AllDigits(s)) {
      ShapeStartsWithDigit(s[..|s| - 4]);
    }
  }

  /** Every character of a price-shaped text is a digit or a separator. */
  lemma {:induction false} GroupedShapeChars(s: string)
    requires GroupedShape(s)
    ensures forall i :: 0 <= i < |s| ==> NumberChar(s[i])
  {
    if !(1 <= |s| <= 3 && AllDigits(s)) {
      var n := |s| - 4;
      GroupedShapeChars(s[..n]);
      forall i | 0 <= i < |s| ensures NumberChar(s[i]) {
        if i < n {
          assert s[..n][i] == s[i];
        } else if i > n {
          assert s[n + 1..][i - n - 1] == s[i];
        }
      }
    }
  }

  lemma PriceShapeChars(s: string)
    requires PriceShape(s)
    ensures forall i :: 0 <= i < |s| ==> NumberChar(s[i])
  {
    var n := |s| - 3;
    GroupedShapeChars(s[..n]);
    forall i | 0 <= i < |s| ensures NumberChar(s[i]) {
      if i < n {
        assert s[..n][i] == s[i];
      } else if i > n {
        assert s[n + 1..][i - n - 1] == s[i];
      }
    }
  }

  // ---- What the pattern accepts -------------------------------------------------------------------

  /** A group of three digits with what stands before it. */
  datatype Group = Group(mark: char, digits: string)

  /** A written price: one to three digits, any groups of three after them, and two decimals. */
  datatype PriceParts = PriceParts(lead: string, groups: seq<Group>, point: char, cents: string)

  predicate PointOrComma(c: char) {
    c == '.' || c == ','
  }

  predicate DigitsOf(s: string, min: nat, max: nat) {
    min <= |s| <= max && forall i :: 0 <= i < |s| ==> '0' <= s[i] <= '9'
  }

  predicate IsGroup(g: Group) {
    PointOrComma(g.mark) && DigitsOf(g.digits, 3, 3)
  }

  function GroupText(groups: seq<Group>): string {
    if groups == [] then ""
    else
      var n := |groups| - 1;
      GroupText(groups[..n]) + [groups[n].mark] + groups[n].digits
  }

  /** The text is the price with these parts, with a point or a comma at every place that asks for
      one. */
  predicate IsPrice(s: string, parts: PriceParts) {
    && DigitsOf(parts.lead, 1, 3) && (forall i :: 0 <= i < |parts.groups| ==> IsGroup(parts.groups[i]))
    && PointOrComma(parts.point) && DigitsOf(parts.cents, 2, 2)
    && s == parts.lead + GroupText(parts.groups) + [parts.point] + parts.cents
  }

  lemma {:induction false} GroupsAreShape(lead: string, groups: seq<Group>)
    requires DigitsOf(lead, 1, 3) && forall i :: 0 <= i < |groups| ==> IsGroup(groups[i])
    ensures GroupedShape(lead + GroupText(groups))
  {
    var s := lead + GroupText(groups);
    if groups == [] {
      assert s == lead;
    } else {
      var n := |groups| - 1;
      GroupsAreShape(lead, groups[..n]);
      assert s == (lead + GroupText(groups[..n])) + [groups[n].mark] + groups[n].digits;
      assert IsGroup(groups[n]);
      assert s[..|s| - 4] == lead + GroupText(groups[..n]) && s[|s| - 3..] == groups[n].digits;
    }
  }

  lemma GroupTextGrows(groups: seq<Group>, g: Group)
    ensures GroupText(groups + [g]) == GroupText(groups) + ([g.mark] + g.digits)
  {
    assert (groups + [g])[..|groups|] == groups;
  }

  lemma {:induction false} ShapeIsGroups(s: string) returns (lead: string, groups: seq<Group>)
    requires GroupedShape(s)
    ensures DigitsOf(lead, 1, 3) && (forall i :: 0 <= i < |groups| ==> IsGroup(groups[i]))
    ensures s == lead + GroupText(groups)
  {
    if 1 <= |s| <= 3 && AllDigits(s) {
      lead, groups := s, [];
    } else {
      var n := |s| - 4;
      var init;
      lead, init := ShapeIsGroups(s[..n]);
      var g := Group(s[n], s[n + 1..]);
      groups := init + [g];
      assert IsGroup(g);
      hide GroupText, GroupedShape, IsGroup;
      GroupTextGrows(init, g);
      assert s == s[..n] + ([s[n]] + s[n + 1..]);
      Associate(lead, GroupText(init), [g.mark] + g.digits);
    }
  }

  lemma PriceIsShape(s: string, parts: PriceParts)
    requires IsPrice(s, parts)
    ensures PriceShape(s)
  {
    GroupsAreShape(parts.lead, parts.groups);
    assert s[..|s| - 3] == parts.lead + GroupText(parts.groups) && s[|s| - 2..] == parts.cents;
  }

  lemma ShapeIsPrice(s: string) returns (parts: PriceParts)
    requires PriceShape(s)
    ensures IsPrice(s, parts)
  {
    var n := |s| - 3;
    var lead, groups := ShapeIsGroups(s[..n]);
    parts := PriceParts(lead, groups, s[n], s[n + 1..]);
    assert s == s[..n] + [s[n]] + s[n + 1..];
  }

  /** The folded text is `a`, the price with these parts, and `b`, and no word character touches
      the price. */
  predicate StandsAlone(lex: Lexicon, folded: string, a: string, price: string, parts: PriceParts, b: string) {
    && folded == a + price + b && IsPrice(price, parts)
    && (a == "" || !lex.word(a[|a| - 1])) && (b == "" || !lex.word(b[0]))
  }

  lemma AloneIsMatch(lex: Lexicon, folded: string, a: string, price: string, parts: PriceParts, b: string)
    requires Sane(lex) && StandsAlone(lex, folded, a, price, parts, b)
    ensures HasPriceMatch(lex, folded)
  {
    PriceIsShape(price, parts);
    ShapeStartsWithDigit(price[..|price| - 3]);
    var i, j := |a|, |a| + |price|;
    assert folded[i..j] == price;
    assert folded[i] == price[0] && folded[j - 1] == price[|price| - 1] == price[|price| - 2..][1];
    assert lex.word(folded[i]) && lex.word(folded[j - 1]);
    assert i > 0 ==> folded[i - 1] == a[|a| - 1];
    assert j < |folded| ==> folded[j] == b[0];
    assert MatchAt(lex, folded, i, j);
  }

  lemma MatchEdges(lex: Lexicon, folded: string, i: nat, j: nat)
    requires Sane(lex) && MatchAt(lex, folded, i, j)
    ensures i < j <= |folded| && (i == 0 || !lex.word(folded[i - 1])) && (j == |folded| || !lex.word(folded[j]))
  {
    var price := folded[i..j];
    ShapeStartsWithDigit(price[..|price| - 3]);
    assert folded[i] == price[0] && folded[j - 1] == price[|price| - 1] == price[|price| - 2..][1];
    assert lex.word(folded[i]) && lex.word(folded[j - 1]);
  }

  lemma MatchIsAlone(lex: Lexicon, folded: string) returns (a: string, price: string, parts: PriceParts, b: string)
    requires Sane(lex) && HasPriceMatch(lex, folded)
    ensures StandsAlone(lex, folded, a, price, parts, b)
  {
    var i, j :| 0 <= i <= j <= |folded| && MatchAt(lex, folded, i, j);
    MatchEdges(lex, folded, i, j);
    a, price, b := folded[..i], folded[i..j], folded[j..];
    parts := ShapeIsPrice(price);
    hide IsPrice, PriceShape, Boundary, Sane;
    assert folded == a + price + b;
  }

  /** A text is a price claim if and only if, folded, it contains one of eight markers or a price
      that no word character touches. */
  lemma ClaimIff(lex: Lexicon, text: string)
    requires Sane(lex)
    ensures MentionsExactPrice(lex, text) <==>
              var folded := Searchable(lex, text);
              || Contains(folded, "r$") || Contains(folded, "$") || Contains(folded, "brl") || Contains(folded, "usd")
              || Contains(folded, "eur") || Contains(folded, "free") || Contains(folded, "grátis") || Contains(folded, "gratis")
              || exists a, price, parts, b :: StandsAlone(lex, folded, a, price, parts, b)
  {
    hide Contains, StandsAlone, Searchable;
    var folded := Searchable(lex, text);
    if HasPriceMatch(lex, folded) {
      var a, price, parts, b := MatchIsAlone(lex, folded);
    }
    if a, price, parts, b :| StandsAlone(lex, folded, a, price, parts, b) {
      AloneIsMatch(lex, folded, a, price, parts, b);
    }
  }

  /** A price claim passes exactly when the text quotes, as it is displayed but for case and white
      space, the price of a product that may be mentioned: known, visible, current, not on
      request and not known to be unavailable. */
  lemma PriceRuleIff(lex: Lexicon, text: string, catalog: Catalog)
    ensures PublicPriceRule(lex, text, catalog) in {None, Some(PublicPriceRequiresSnapshot)}
    ensures PublicPriceRule(lex, text, catalog) == None <==>
              || !MentionsExactPrice(lex, text)
              || exists product :: product in catalog.products
                   && product.price.canMention && product.price.displayText.Some?
                   && !product.price.hidden && !product.price.quoteRequired && !product.price.stale
                   && product.available != Some(false)
                   && NormalizePrice(lex, product.price.displayText.value) != ""
                   && Contains(NormalizePrice(lex, text), NormalizePrice(lex, product.price.displayText.value))
  {
    hide MentionsExactPrice, NormalizePrice, Contains, QuotesProduct;
    forall product: Product {
      QuotesIff(lex, text, product);
    }
  }

  lemma QuotesIff(lex: Lexicon, text: string, product: Product)
    ensures QuotesProduct(lex, text, product) <==>
              && product.price.canMention && product.price.displayText.Some?
              && !product.price.hidden && !product.price.quoteRequired && !product.price.stale
              && product.available != Some(false)
              && NormalizePrice(lex, product.price.displayText.value) != ""
              && Contains(NormalizePrice(lex, text), NormalizePrice(lex, product.price.displayText.value))
  {
    hide Contains;
    assert MapChars(lex.lower, "") == "" && Words(lex.space, "") == [];
    assert NormalizePrice(lex, "") == "";
  }

  /** A price-shaped piece is a match when it starts the text or follows a blank, and ends it or
      is followed by something that is no word character. */
  lemma SetOffPriceMatches(lex: Lexicon, before: string, price: string, after: string)
    requires Sane(lex) && PriceShape(price)
    requires before == "" || before[|before| - 1] == ' '
    requires after == "" || !lex.word(after[0])
    ensures HasPriceMatch(lex, before + price + after)
  {
    var s, i, j := before + price + after, |before|, |before| + |price|;
    assert s[i..j] == price;
    ShapeStartsWithDigit(price[..|price| - 3]);
    assert s[i] == price[0] && s[j - 1] == price[|price| - 1] == price[|price| - 2..][1];
    assert lex.word(s[i]) && lex.word(s[j - 1]);
    assert i > 0 ==> s[i - 1] == before[|before| - 1];
    assert j < |s| ==> s[j] == after[0];
    assert MatchAt(lex, s, i, j);
  }

  /** A character that ends a number: no word character, and left alone by the fold. The blank
      and ordinary punctuation are such. */
  predicate EndsNumber(lex: Lexicon, c: char) {
    lex.fold(c) == [c] && !lex.word(c)
  }

  /** Any text in which a price, however it is written, follows a blank and is not followed at
      once by a word character is treated as a price claim, whatever the words around it. */
  lemma WrittenPriceIsAClaim(lex: Lexicon, a: string, price: string, parts: PriceParts, b: string)
    requires Sane(lex) && IsPrice(price, parts)
    requires b == "" || EndsNumber(lex, b[0])
    ensures MentionsExactPrice(lex, a + " " + price + b)
  {
    hide MapChars, Words, Join, Contains;
    PriceIsShape(price, parts);
    PriceShapeChars(price);
    var before, after := QuotedSurvives(lex.fold, lex.space, a, price, b);
    SetOffPriceMatches(lex, before, price, after);
  }

  /** So is any text that quotes a printed two-decimal price, for every amount and currency. */
  lemma PrintedPriceIsAClaim(lex: Lexicon, a: string, currency: string, units: nat, b: string)
    requires Sane(lex)
    requires b == "" || EndsNumber(lex, b[0])
    ensures MentionsExactPrice(lex, a + Display(currency, units, 2) + b)
  {
    hide MapChars, Words, Join, Contains, PriceShape, Number, MentionsExactPrice;
    TwoDecimalsArePriced(units);
    var parts := ShapeIsPrice(Number(units, 2));
    assert a + Display(currency, units, 2) + b == (a + currency) + " " + Number(units, 2) + b;
    WrittenPriceIsAClaim(lex, a + currency, Number(units, 2), parts, b);
  }

  /** Whatever else a text says, it passes when it contains, as it stands, the display text of a
      mentionable product of the snapshot, if that is not blank. */
  lemma QuotedTextPasses(lex: Lexicon, a: string, shown: string, b: string, catalog: Catalog, product: Product)
    requires product in catalog.products && Mentionable(product) && product.price.displayText == Some(shown)
    requires NormalizePrice(lex, shown) != ""
    ensures PublicPriceRule(lex, a + shown + b, catalog) == None
  {
    hide MapChars, Words, Join, Contains, MentionsExactPrice;
    var fa, fs, fb := MapChars(lex.lower, a), MapChars(lex.lower, shown), MapChars(lex.lower, b);
    MapCharsConcat(lex.lower, a + shown, b);
    MapCharsConcat(lex.lower, a, shown);
    PartIsContained(lex.space, fa, fs, fb);
    assert QuotesProduct(lex, a + shown + b, product);
  }

  /** So a printed price of a mentionable product passes in any text, for every currency, amount
      and number of decimals. */
  lemma QuotedSnapshotPricePasses(lex: Lexicon, a: string, currency: string, units: nat, minorUnit: nat, b: string,
                                  catalog: Catalog, product: Product)
    requires Sane(lex)
    requires product in catalog.products && Mentionable(product)
    requires product.price.displayText == Some(Display(currency, units, minorUnit))
    ensures PublicPriceRule(lex, a + Display(currency, units, minorUnit) + b, catalog) == None
  {
    hide MapChars, Words, Join, Contains, PublicPriceRule;
    FoldedDisplay(lex.lower, lex.space, currency, units, minorUnit);
    NumberChars(units, minorUnit);
    QuotedTextPasses(lex, a, Display(currency, units, minorUnit), b, catalog, product);
  }

  // ---- The printer prints the amount --------------------------------------------------------------

  /** The digits of a text, in order. */
  function DigitsIn(s: string): (d: string)
    ensures AllDigits(d)
  {
    if s == "" then ""
    else DigitsIn(s[..|s| - 1]) + if IsDigit(s[|s| - 1]) then [s[|s| - 1]] else ""
  }

  lemma {:induction false} DigitsInConcat(a: string, b: string)
    ensures DigitsIn(a + b) == DigitsIn(a) + DigitsIn(b)
  {
    if b == "" {
      assert a + b == a;
    } else {
      DigitsInConcat(a, b[..|b| - 1]);
      assert (a + b)[..|a + b| - 1] == a + b[..|b| - 1];
    }
  }

  lemma {:induction false} DigitsInDigits(s: string)
    requires AllDigits(s)
    ensures DigitsIn(s) == s
  {
    if s != "" {
      DigitsInDigits(s[..|s| - 1]);
      assert s == s[..|s| - 1] + [s[|s| - 1]];
    }
  }

  /** Appending the last `k` digits of `n` to the number in front of them gives `n`. */
  lemma {:induction false} PaddedValue(front: string, n: nat, k: nat)
    requires AllDigits(front) && NumericValue(front) == Scaled(n, k)
    ensures AllDigits(front + Padded(n, k)) && NumericValue(front + Padded(n, k)) == n
  {
    if k == 0 {
      assert front + "" == front;
    } else {
      PaddedValue(front, n / 10, k - 1);
      var s := front + Padded(n, k);
      assert s[..|s| - 1] == front + Padded(n / 10, k - 1) && s[|s| - 1] == Digit(n % 10);
    }
  }

  lemma ThreePlaces(n: nat)
    ensures Scaled(n, 3) == n / 1000
  {
    assert Scaled(n, 3) == Scaled(n / 10, 2) == Scaled(n / 10 / 10, 1) == n / 10 / 10 / 10;
  }

  lemma DigitsOfGrouped(n: nat)
    requires n >= 1000
    ensures DigitsIn(Grouped(n)) == DigitsIn(Grouped(n / 1000)) + Padded(n, 3)
  {
    var front, tail := Grouped(n / 1000), Padded(n, 3);
    assert Grouped(n) == front + "," + tail;
    hide Grouped, Padded;
    DigitsInConcat(front + ",", tail);
    DigitsInConcat(front, ",");
    DigitsInDigits(tail);
    assert DigitsIn(",") == "" by {
      assert ","[..0] == "";
    }
    assert DigitsIn(front) + "" == DigitsIn(front);
  }

  lemma {:induction false} GroupedValue(n: nat)
    ensures NumericValue(DigitsIn(Grouped(n))) == n
    ensures Grouped(n) != "" && (Grouped(n)[0] == '0' ==> Grouped(n) == "0")
    ensures forall i :: 0 <= i < |Grouped(n)| ==> IsDigit(Grouped(n)[i]) || Grouped(n)[i] == ','
  {
    hide NumericValue, DigitsIn, Scaled;
    if n >= 1000 {
      GroupedValue(n / 1000);
      GroupedStart(n);
      DigitsOfGrouped(n);
      ThreePlaces(n);
      PaddedValue(DigitsIn(Grouped(n / 1000)), n, 3);
    } else {
      SmallValue(n);
    }
  }

  lemma GroupedStart(n: nat)
    requires n >= 1000 && Grouped(n / 1000) != ""
    requires Grouped(n / 1000)[0] == '0' ==> Grouped(n / 1000) == "0"
    requires NumericValue(DigitsIn(Grouped(n / 1000))) == n / 1000
    requires forall i :: 0 <= i < |Grouped(n / 1000)| ==> IsDigit(Grouped(n / 1000)[i]) || Grouped(n / 1000)[i] == ','
    ensures Grouped(n) != "" && Grouped(n)[0] != '0'
    ensures forall i :: 0 <= i < |Grouped(n)| ==> IsDigit(Grouped(n)[i]) || Grouped(n)[i] == ','
  {
    var front, tail := Grouped(n / 1000), Padded(n, 3);
    assert Grouped(n) == front + "," + tail;
    assert front != "0" by {
      assert NumericValue(DigitsIn("0")) == 0 by {
        assert "0"[..0] == "";
      }
    }
  }

  function Places(n: nat): nat {
    if n < 10 then 1 else if n < 100 then 2 else 3
  }

  lemma SmallIsPadded(n: nat)
    requires n < 1000
    ensures Grouped(n) == Padded(n, Places(n)) && Scaled(n, Places(n)) == 0
    ensures Scaled(n, Places(n) - 1) < 10 && (Scaled(n, Places(n) - 1) == 0 ==> n == 0)
  {
    assert Scaled(n, 1) == Scaled(n / 10, 0) && Scaled(n, 2) == Scaled(n / 10, 1) == Scaled(n / 10 / 10, 0);
    ThreePlaces(n);
  }

  lemma SmallValue(n: nat)
    requires n < 1000
    ensures NumericValue(DigitsIn(Grouped(n))) == n && Grouped(n) != ""
    ensures Grouped(n)[0] == '0' ==> Grouped(n) == "0"
    ensures AllDigits(Grouped(n))
  {
    var k := Places(n);
    SmallIsPadded(n);
    hide Grouped, Scaled, DigitsIn, Digit;
    assert NumericValue("") == 0 && "" + Padded(n, k) == Padded(n, k);
    PaddedValue("", n, k);
    DigitsInDigits(Padded(n, k));
    FirstDigit(n, k);
    DigitIsZero(Scaled(n, k - 1));
    DigitIsZero(0);
    assert n == 0 ==> Padded(n, 1) == [Digit(0)];
  }

  lemma DigitIsZero(d: nat)
    requires d < 10
    ensures Digit(d) == '0' <==> d == 0
  {
  }

  lemma {:induction false} FirstDigit(n: nat, k: nat)
    requires k > 0
    ensures Padded(n, k)[0] == Digit(Scaled(n, k - 1) % 10)
  {
    if k > 1 {
      FirstDigit(n / 10, k - 1);
    }
  }

  /** Printing loses nothing: the printed amount is a whole part without leading zeros, grouped in
      threes by commas, and, if there are minor digits, a point and exactly that many of them;
      and all its digits together are the number of minor units. */
  lemma PrintedAmountReadsBack(currency: string, units: nat, minorUnit: nat) returns (whole: string, fraction: string)
    ensures Display(currency, units, minorUnit) == currency + " " + whole + (if minorUnit == 0 then "" else "." + fraction)
    ensures GroupedShape(whole) && (forall i :: 0 <= i < |whole| ==> '0' <= whole[i] <= '9' || whole[i] == ',')
    ensures whole != "" && (whole[0] == '0' ==> whole == "0")
    ensures |fraction| == minorUnit && AllDigits(fraction)
    ensures NumericValue(DigitsIn(whole) + fraction) == units
  {
    whole, fraction := Grouped(Scaled(units, minorUnit)), Padded(units, minorUnit);
    GroupedValue(Scaled(units, minorUnit));
    GroupedIsGrouped(Scaled(units, minorUnit));
    PaddedValue(DigitsIn(whole), units, minorUnit);
    hide Grouped, Padded, Scaled, NumericValue, GroupedShape, DigitsIn;
    Associate(currency + " ", whole, if minorUnit == 0 then "" else "." + fraction);
  }

  // ---- Exactly when a printed amount is a claim ---------------------------------------------------

  /** The folded currency, and a blank if there is one. */
  function Lead(folded: string): string {
    if folded == "" then "" else folded + " "
  }

  lemma {:induction false} JoinLast(ws: seq<string>, w: string)
    requires forall i :: 0 <= i < |ws| ==> ws[i] != ""
    ensures Join(ws + [w]) == Lead(Join(ws)) + w
  {
    if ws == [] {
      assert ws + [w] == [w];
    } else {
      JoinLast(ws[1..], w);
      assert (ws + [w])[1..] == ws[1..] + [w];
    }
  }

  lemma {:induction false} WordsAreNotEmpty(space: char -> bool, s: string)
    ensures forall i :: 0 <= i < |Words(space, s)| ==> Words(space, s)[i] != ""
  {
    if s != "" {
      WordsAreNotEmpty(space, s[1..]);
    }
  }

  /** Folding and collapsing keep the number of a printed amount as it is, after the folded
      currency. */
  lemma FoldedDisplay(f: char -> string, space: char -> bool, currency: string, units: nat, minorUnit: nat)
    requires space(' ') && f(' ') == " "
    requires forall c: char :: NumberChar(c) ==> f(c) == [c] && !space(c)
    ensures Join(Words(space, MapChars(f, Display(currency, units, minorUnit))))
            == Lead(Join(Words(space, MapChars(f, currency)))) + Number(units, minorUnit)
  {
    hide Words, Join, Number;
    var number := Number(units, minorUnit);
    NumberChars(units, minorUnit);
    MapCharsConcat(f, currency + " ", number);
    MapCharsConcat(f, currency, " ");
    MapCharsFixed(f, " ");
    MapCharsFixed(f, number);
    var folded := MapChars(f, currency);
    WordsAcrossBlank(space, folded, number);
    WordsOfSolid(space, number, "");
    WordsOfNothing(space);
    assert number + "" == number && [number] + [] == [number];
    assert MapChars(f, Display(currency, units, minorUnit)) == folded + " " + number;
    WordsAreNotEmpty(space, folded);
    JoinLast(Words(space, folded), number);
  }

  /** In a printed number two characters after a separator are followed by another word
      character, unless they end a two-decimal amount. */
  lemma SeparatorRuns(lex: Lexicon, lead: string, units: nat, minorUnit: nat, p: nat)
    requires Sane(lex)
    requires |lead| <= p && p + 2 < |lead + Number(units, minorUnit)|
    requires IsSeparator((lead + Number(units, minorUnit))[p])
    ensures WordAt(lex, lead + Number(units, minorUnit), p + 3) || minorUnit == 2
  {
    var s, major := lead + Number(units, minorUnit), Grouped(Scaled(units, minorUnit));
    var tail := Padded(units, minorUnit);
    if p < |lead| + |major| {
      assert s[p] == major[p - |lead|];
      CommaRuns(Scaled(units, minorUnit), p - |lead|);
      assert s[p + 3] == major[p - |lead| + 3];
    } else {
      assert s == lead + major + "." + tail;
      assert forall k :: 0 <= k < minorUnit ==> s[|lead| + |major| + 1 + k] == tail[k];
    }
  }

  /** A match after a folded currency lies in the currency or is a two-decimal amount. */
  lemma MatchSplits(lex: Lexicon, folded: string, units: nat, minorUnit: nat, i: nat, j: nat)
    requires Sane(lex)
    requires i <= j <= |Lead(folded) + Number(units, minorUnit)|
    requires MatchAt(lex, Lead(folded) + Number(units, minorUnit), i, j)
    ensures HasPriceMatch(lex, folded) || minorUnit == 2
  {
    hide Number;
    var s, lead := Lead(folded) + Number(units, minorUnit), Lead(folded);
    PriceShapeChars(s[i..j]);
    if lead != "" && i <= |folded| {
      assert forall k :: i <= k < j ==> s[k] == s[i..j][k - i];
      assert s[|folded|] == ' ';
      assert s[i..j] == folded[i..j];
      assert MatchAt(lex, folded, i, j);
    } else {
      assert s[i..j][j - i - 3] == s[j - 3];
      assert s[i..j][j - i - 2..][1] == s[j - 1];
      SeparatorRuns(lex, lead, units, minorUnit, j - 3);
    }
  }

  lemma MatchCarries(lex: Lexicon, folded: string, number: string)
    requires Sane(lex) && HasPriceMatch(lex, folded)
    ensures HasPriceMatch(lex, Lead(folded) + number)
  {
    var i, j :| 0 <= i <= j <= |folded| && MatchAt(lex, folded, i, j);
    assert (Lead(folded) + number)[i..j] == folded[i..j];
    assert MatchAt(lex, Lead(folded) + number, i, j);
  }

  lemma MarkerChars(marker: string)
    requires marker in PRICE_MARKERS
    ensures marker != "" && forall i :: 0 <= i < |marker| ==> marker[i] != ' ' && !NumberChar(marker[i])
  {
  }

  /** A marker is found after a folded currency exactly when it is found in it. */
  lemma MarkerSplits(folded: string, units: nat, minorUnit: nat, marker: string)
    requires marker in PRICE_MARKERS
    ensures Contains(Lead(folded) + Number(units, minorUnit), marker) <==> Contains(folded, marker)
  {
    hide Number;
    MarkerChars(marker);
    NumberChars(units, minorUnit);
    var s := Lead(folded) + Number(units, minorUnit);
    if Contains(folded, marker) {
      var i, j :| 0 <= i <= j <= |folded| && folded[i..j] == marker;
      assert s[i..j] == marker;
    }
    if Contains(s, marker) {
      var i, j :| 0 <= i <= j <= |s| && s[i..j] == marker;
      assert s[i..j][j - i - 1] == s[j - 1];
      assert j <= |folded|;
      assert folded[i..j] == marker;
    }
  }

  /** A printed amount is treated as a price claim exactly when it shows two decimals or the
      currency alone already is one, for every amount, currency and number of decimals. */
  lemma PrintedAmountIsAClaimIff(lex: Lexicon, currency: string, units: nat, minorUnit: nat)
    requires Sane(lex)
    ensures MentionsExactPrice(lex, Display(currency, units, minorUnit)) <==> minorUnit == 2 || MentionsExactPrice(lex, currency)
  {
    hide MapChars, Words, Join, Contains, Number, PriceShape;
    FoldedDisplay(lex.fold, lex.space, currency, units, minorUnit);
    var folded := Searchable(lex, currency);
    var s := Lead(folded) + Number(units, minorUnit);
    forall marker | marker in PRICE_MARKERS ensures Contains(s, marker) <==> Contains(folded, marker) {
      MarkerSplits(folded, units, minorUnit, marker);
    }
    if minorUnit == 2 {
      TwoDecimalsArePriced(units);
      SetOffPriceMatches(lex, Lead(folded), Number(units, 2), "");
      assert s + "" == s;
    } else if HasPriceMatch(lex, s) {
      var i, j :| 0 <= i <= j <= |s| && MatchAt(lex, s, i, j);
      MatchSplits(lex, folded, units, minorUnit, i, j);
    } else if HasPriceMatch(lex, folded) {
      MatchCarries(lex, folded, Number(units, minorUnit));
    }
  }

  lemma NotFound(s: string, part: string)
    requires part != "" && part[0] !in s
    ensures !Contains(s, part)
  {
    assert forall i, j :: 0 <= i <= j <= |s| && s[i..j] == part ==> s[i] == part[0];
  }

  lemma MarkerStart(marker: string)
    requires marker in PRICE_MARKERS
    ensures marker != "" && marker[0] in {'r', '$', 'b', 'u', 'e', 'f', 'g'}
  {
  }

  lemma DinarFolded(lex: Lexicon)
    requires Sane(lex) && lex.fold('K') == "k" && lex.fold('W') == "w" && lex.fold('D') == "d"
    requires !lex.space('k') && !lex.space('w') && !lex.space('d')
    ensures Searchable(lex, "KWD") == "kwd"
  {
    assert MapChars(lex.fold, "KWD") == "kwd" by {
      assert "KWD"[1..] == "WD" && "WD"[1..] == "D" && "D"[1..] == "";
    }
    WordsOfSolid(lex.space, "kwd", "");
    WordsOfNothing(lex.space);
    assert "kwd" + "" == "kwd" && ["kwd"] + [] == ["kwd"];
  }

  lemma ShortTextHasNoMatch(lex: Lexicon, s: string)
    requires |s| <= 3
    ensures !HasPriceMatch(lex, s)
  {
  }

  /** So a price in a currency of three minor digits is no claim: it passes although no product
      of the snapshot has it. */
  lemma DinarPriceIsNoClaim(lex: Lexicon, units: nat)
    requires Sane(lex) && lex.fold('K') == "k" && lex.fold('W') == "w" && lex.fold('D') == "d"
    requires !lex.space('k') && !lex.space('w') && !lex.space('d')
    ensures PublicPriceRule(lex, Display("KWD", units, 3), Catalog([])) == None
  {
    hide Contains, HasPriceMatch, Searchable, Display;
    DinarFolded(lex);
    forall marker | marker in PRICE_MARKERS ensures !Contains("kwd", marker) {
      MarkerStart(marker);
      NotFound("kwd", marker);
    }
    ShortTextHasNoMatch(lex, "kwd");
    PrintedAmountIsAClaimIff(lex, "KWD", units, 3);
  }
}
