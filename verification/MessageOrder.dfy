/** The supersession check: has a newer public customer message arrived in the conversation
    since the message an action answers? Message ids break ties between equal timestamps. */
module MessageOrder {
  import opened Domain
  import opened Text

  // ---- Message ids ------------------------------------------------------------------------

  /** `_message_id_is_after`: texts that both read as numbers compare as numbers; one that does
      not makes the comparison fall back to text. */
  predicate IdIsAfter(number: Reading, candidate: string, source: string) {
    if number(candidate).Some? && number(source).Some?
    then number(candidate).value > number(source).value
    else TextAfter(candidate, source)
  }

  // ---- The two-query check -------------------------------------------------------------------

  /** The row of the source message, if it is stored. */
  function SourceMessage(messages: seq<Message>, where: ConversationKey, id: string): (r: Option<Message>)
    ensures r.Some? ==> r.value in messages && ConversationOf(r.value) == where && r.value.id == id
    ensures r.None? ==> forall m :: m in messages ==> !(ConversationOf(m) == where && m.id == id)
  {
    if messages == [] then None
    else if ConversationOf(messages[0]) == where && messages[0].id == id then Some(messages[0])
    else SourceMessage(messages[1..], where, id)
  }

  predicate CustomerTurnIn(m: Message, where: ConversationKey) {
    ConversationOf(m) == where && IsCustomerTurn(m)
  }

  /** `has_newer_customer_public_message`: first by timestamp, then by id at the same timestamp. */
  predicate HasNewerCustomerMessage(number: Reading, messages: seq<Message>, where: ConversationKey, id: string) {
    match SourceMessage(messages, where, id)
    case None => false
    case Some(source) =>
      if exists m :: m in messages && CustomerTurnIn(m, where) && m.createdAt > source.createdAt then true
      else exists m :: m in messages && CustomerTurnIn(m, where) && m.createdAt == source.createdAt
                       && m.id != source.id && IdIsAfter(number, m.id, source.id)
  }

  lemma {:induction false} SourceSurvives(messages: seq<Message>, more: seq<Message>, where: ConversationKey, id: string)
    requires SourceMessage(messages, where, id).Some?
    ensures SourceMessage(messages + more, where, id) == SourceMessage(messages, where, id)
  {
    if !(ConversationOf(messages[0]) == where && messages[0].id == id) {
      SourceSurvives(messages[1..], more, where, id);
      assert (messages + more)[1..] == messages[1..] + more;
    }
  }

  /** Messages stored later do not undo a supersession. */
  lemma NewerForGood(number: Reading, messages: seq<Message>, more: seq<Message>, where: ConversationKey, id: string)
    requires HasNewerCustomerMessage(number, messages, where, id)
    ensures HasNewerCustomerMessage(number, messages + more, where, id)
  {
    SourceSurvives(messages, more, where, id);
    assert forall m :: m in messages ==> m in messages + more;
  }

  // ---- The order it refines ------------------------------------------------------------------

  /** A number written without leading zeros. */
  predicate Canonical(s: string) {
    Numeric(s) && (|s| == 1 || s[0] != '0')
  }

  /** (timestamp, numeric id) in lexicographic order. */
  predicate Later(a: Message, b: Message)
    requires Numeric(a.id) && Numeric(b.id)
  {
    a.createdAt > b.createdAt || (a.createdAt == b.createdAt && NumericValue(a.id) > NumericValue(b.id))
  }

  /** No id is stored twice in the conversation. */
  ghost predicate DistinctIds(messages: seq<Message>, where: ConversationKey) {
    forall a, b | a in messages && b in messages && a.id == b.id ::
      ConversationOf(a) == where && ConversationOf(b) == where ==> a == b
  }

  /** The messages of one conversation have canonical ids, read as the numbers they denote, and
      no id is stored twice there. */
  ghost predicate WellNumbered(number: Reading, messages: seq<Message>, where: ConversationKey) {
    && (forall m :: m in messages && ConversationOf(m) == where ==>
          Canonical(m.id) && number(m.id) == Some(NumericValue(m.id)))
    && DistinctIds(messages, where)
  }

  lemma {:induction false} LeadingDigitCounts(s: string)
    requires Numeric(s) && s[0] != '0'
    ensures NumericValue(s) >= 1
  {
    if |s| == 1 {
      assert s[..0] == "";
    } else {
      LeadingDigitCounts(s[..|s| - 1]);
    }
  }

  /** Canonical ids are equal when their numbers are. */
  lemma {:induction false} CanonicalIsInjective(a: string, b: string)
    requires Canonical(a) && Canonical(b) && NumericValue(a) == NumericValue(b)
    ensures a == b
  {
    var a', b' := a[..|a| - 1], b[..|b| - 1];
    assert a == a' + [a[|a| - 1]] && b == b' + [b[|b| - 1]];
    if |a| == 1 && |b| > 1 {
      LeadingDigitCounts(b');
    } else if |b| == 1 && |a| > 1 {
      LeadingDigitCounts(a');
    } else if |a| > 1 {
      CanonicalIsInjective(a', b');
    }
  }

  /** The two-query check is exactly "some public customer message is later". */
  lemma CheckRefinesOrder(number: Reading, messages: seq<Message>, where: ConversationKey, source: Message)
    requires WellNumbered(number, messages, where)
    requires source in messages && ConversationOf(source) == where
    ensures HasNewerCustomerMessage(number, messages, where, source.id)
            <==> exists m :: m in messages && CustomerTurnIn(m, where) && Later(m, source)
  {
    assert SourceMessage(messages, where, source.id) == Some(source);
    if m :| m in messages && CustomerTurnIn(m, where) && Later(m, source) {
      assert IdIsAfter(number, m.id, source.id) || m.createdAt > source.createdAt;
    }
  }

  /** On a conversation's messages the order is strict and total. */
  lemma OrderIsStrictTotal(number: Reading, messages: seq<Message>, where: ConversationKey,
                           a: Message, b: Message, c: Message)
    requires WellNumbered(number, messages, where)
    requires a in messages && b in messages && c in messages
    requires ConversationOf(a) == ConversationOf(b) == ConversationOf(c) == where
    ensures !Later(a, a)
    ensures Later(a, b) && Later(b, c) ==> Later(a, c)
    ensures a != b ==> (Later(a, b) <==> !Later(b, a))
  {
    if a != b && NumericValue(a.id) == NumericValue(b.id) {
      CanonicalIsInjective(a.id, b.id);
    }
  }

  ghost predicate Newest(messages: seq<Message>, where: ConversationKey, m: Message) {
    && m in messages && CustomerTurnIn(m, where) && Numeric(m.id)
    && (forall o :: o in messages && CustomerTurnIn(o, where) && Numeric(o.id) ==> !Later(o, m))
  }

  lemma {:induction false} NewestExists(messages: seq<Message>, where: ConversationKey)
    returns (newest: Message)
    requires forall m :: m in messages && ConversationOf(m) == where ==> Numeric(m.id)
    requires exists m :: m in messages && CustomerTurnIn(m, where)
    ensures Newest(messages, where, newest)
  {
    var last, init := messages[|messages| - 1], messages[..|messages| - 1];
    assert messages == init + [last];
    if exists m :: m in init && CustomerTurnIn(m, where) {
      newest := NewestExists(init, where);
      if CustomerTurnIn(last, where) && Later(last, newest) {
        newest := last;
      }
    } else {
      newest := last;
    }
  }

  /** This customer message of the conversation is not superseded. */
  ghost predicate Stands(number: Reading, messages: seq<Message>, where: ConversationKey, m: Message) {
    m in messages && CustomerTurnIn(m, where) && !HasNewerCustomerMessage(number, messages, where, m.id)
  }

  /** This one, and no other. */
  ghost predicate OnlyStanding(number: Reading, messages: seq<Message>, where: ConversationKey, m: Message) {
    Stands(number, messages, where, m) && forall o :: Stands(number, messages, where, o) ==> o == m
  }

  /** In a conversation with customer messages, exactly one of them is not superseded: the
      newest. So at most one public action survives the check, and the answer to the newest
      message always does. */
  lemma OnlyNewestSurvives(number: Reading, messages: seq<Message>, where: ConversationKey) returns (newest: Message)
    requires WellNumbered(number, messages, where)
    requires exists m :: m in messages && CustomerTurnIn(m, where)
    ensures Newest(messages, where, newest) && OnlyStanding(number, messages, where, newest)
  {
    newest := NewestExists(messages, where);
    forall m | m in messages && CustomerTurnIn(m, where)
      ensures !HasNewerCustomerMessage(number, messages, where, m.id) <==> m == newest
    {
      CheckRefinesOrder(number, messages, where, m);
      OrderIsStrictTotal(number, messages, where, m, newest, newest);
    }
  }

  // ---- Mixed ids ---------------------------------------------------------------------------

  /** One of the conversation's customer messages with the latest timestamp. */
  predicate Latest(messages: seq<Message>, where: ConversationKey, m: Message) {
    && m in messages && CustomerTurnIn(m, where)
    && forall o :: o in messages && CustomerTurnIn(o, where) ==> o.createdAt <= m.createdAt
  }

  /** Among the latest, an id that is no number and comes, as text, after all the others. */
  ghost predicate LastAsText(number: Reading, messages: seq<Message>, where: ConversationKey, m: Message) {
    && Latest(messages, where, m) && number(m.id).None?
    && forall o :: Latest(messages, where, o) && o != m ==> TextAfter(m.id, o.id)
  }

  /** Among the latest, a number no other exceeds, that comes, as text, after all non-numbers. */
  ghost predicate LastAsNumber(number: Reading, messages: seq<Message>, where: ConversationKey, m: Message) {
    && Latest(messages, where, m) && number(m.id).Some?
    && forall o :: Latest(messages, where, o) ==>
         if number(o.id).Some? then number(o.id).value <= number(m.id).value else TextAfter(m.id, o.id)
  }

  ghost predicate IsLast(number: Reading, messages: seq<Message>, where: ConversationKey, m: Message) {
    LastAsText(number, messages, where, m) || LastAsNumber(number, messages, where, m)
  }

  lemma OutrunIsNotAfter(number: Reading, a: Message, b: Message)
    requires a.id != b.id
    ensures !IdIsAfter(number, b.id, a.id) <==>
              if number(a.id).Some? && number(b.id).Some? then number(b.id).value <= number(a.id).value
              else TextAfter(a.id, b.id)
  {
    TextOrder(a.id, b.id, "");
  }

  /** Whatever the ids look like, a message is not superseded exactly when it is last among the
      latest, as a text or as a number. */
  lemma StandsIffLast(number: Reading, messages: seq<Message>, where: ConversationKey, m: Message)
    requires DistinctIds(messages, where) && m in messages && CustomerTurnIn(m, where)
    ensures Stands(number, messages, where, m) <==> IsLast(number, messages, where, m)
  {
    assert SourceMessage(messages, where, m.id) == Some(m);
    if Latest(messages, where, m) {
      forall o | Latest(messages, where, o) && o != m
        ensures o.id != m.id
        ensures !IdIsAfter(number, o.id, m.id) <==>
                  if number(m.id).Some? && number(o.id).Some? then number(o.id).value <= number(m.id).value
                  else TextAfter(m.id, o.id)
      {
        OutrunIsNotAfter(number, m, o);
      }
      assert forall o :: o in messages && CustomerTurnIn(o, where) && o.createdAt == m.createdAt ==> Latest(messages, where, o);
      assert forall o :: Latest(messages, where, o) ==> o.createdAt == m.createdAt;
    }
  }

  lemma LastAsTextIsAlone(number: Reading, messages: seq<Message>, where: ConversationKey, a: Message, b: Message)
    requires LastAsText(number, messages, where, a) && IsLast(number, messages, where, b)
    ensures a == b
  {
    TextOrder(a.id, b.id, a.id);
  }

  lemma LastTextsAreAlone(number: Reading, messages: seq<Message>, where: ConversationKey)
    ensures forall a, b :: LastAsText(number, messages, where, a) && LastAsText(number, messages, where, b) ==> a == b
    ensures forall a, b :: LastAsText(number, messages, where, a) && LastAsNumber(number, messages, where, b) ==> a == b
  {
    hide LastAsText, LastAsNumber;
    forall a, b | LastAsText(number, messages, where, a) && IsLast(number, messages, where, b) ensures a == b {
      LastAsTextIsAlone(number, messages, where, a, b);
    }
    assert forall b :: LastAsText(number, messages, where, b) ==> IsLast(number, messages, where, b);
    assert forall b :: LastAsNumber(number, messages, where, b) ==> IsLast(number, messages, where, b);
  }

  lemma StandingAreLast(number: Reading, messages: seq<Message>, where: ConversationKey)
    requires DistinctIds(messages, where)
    ensures forall m :: Stands(number, messages, where, m) <==> IsLast(number, messages, where, m)
    ensures forall m :: LastAsText(number, messages, where, m) ==> Stands(number, messages, where, m)
    ensures forall m :: LastAsNumber(number, messages, where, m) ==> Stands(number, messages, where, m)
  {
    forall m ensures Stands(number, messages, where, m) <==> IsLast(number, messages, where, m) {
      if m in messages && CustomerTurnIn(m, where) {
        StandsIffLast(number, messages, where, m);
      }
    }
  }

  /** A message is the only one of its conversation that stands if and only if it is no number
      and last as text, or the one number that is last: so exactly one stands when there is such
      a message, and only then. */
  lemma OneStandsIff(number: Reading, messages: seq<Message>, where: ConversationKey, m: Message)
    requires DistinctIds(messages, where)
    ensures OnlyStanding(number, messages, where, m) <==>
              || LastAsText(number, messages, where, m)
              || (LastAsNumber(number, messages, where, m) && forall o :: LastAsNumber(number, messages, where, o) ==> o == m)
  {
    hide LastAsText, LastAsNumber, Stands, DistinctIds;
    StandingAreLast(number, messages, where);
    LastTextsAreAlone(number, messages, where);
  }

  /** None stands when no id is last either way; several stand when several numbers are last:
      equal in value, written differently. */
  lemma NoneOrSeveralStandIff(number: Reading, messages: seq<Message>, where: ConversationKey)
    requires DistinctIds(messages, where)
    ensures (forall m :: !Stands(number, messages, where, m)) <==>
              forall m :: !IsLast(number, messages, where, m)
    ensures (exists a, b :: a != b && Stands(number, messages, where, a) && Stands(number, messages, where, b)) <==>
              exists a, b :: a != b && LastAsNumber(number, messages, where, a) && LastAsNumber(number, messages, where, b)
    ensures forall a, b :: LastAsNumber(number, messages, where, a) && LastAsNumber(number, messages, where, b) ==>
              number(a.id) == number(b.id)
  {
    hide LastAsText, LastAsNumber, Stands, DistinctIds;
    StandingAreLast(number, messages, where);
    LastTextsAreAlone(number, messages, where);
    forall a, b | LastAsNumber(number, messages, where, a) && LastAsNumber(number, messages, where, b)
      ensures number(a.id) == number(b.id)
    {
      LastNumbersAreEqual(number, messages, where, a, b);
    }
  }

  lemma LastNumbersAreEqual(number: Reading, messages: seq<Message>, where: ConversationKey, a: Message, b: Message)
    requires LastAsNumber(number, messages, where, a) && LastAsNumber(number, messages, where, b)
    ensures number(a.id) == number(b.id)
  {
  }

  /** With ids "10", "9" and "1a" at one timestamp every one of the three customer messages
      counts as superseded by another, so no public action of that instant survives. */
  lemma MixedIdsSupersedeEachOther(number: Reading, messages: seq<Message>, where: ConversationKey,
                                   a: Message, b: Message, c: Message)
    requires number("10") == Some(10) && number("9") == Some(9) && number("1a") == None
    requires messages == [a, b, c] && a.createdAt == b.createdAt == c.createdAt
    requires CustomerTurnIn(a, where) && CustomerTurnIn(b, where) && CustomerTurnIn(c, where)
    requires a.id == "10" && b.id == "9" && c.id == "1a"
    ensures forall m :: !Stands(number, messages, where, m)
  {
    assert TextAfter("1a", "10") by {
      assert "1a"[1..] == "a" && "10"[1..] == "0";
    }
    assert IdIsAfter(number, a.id, b.id) && IdIsAfter(number, b.id, c.id) && IdIsAfter(number, c.id, a.id);
    assert messages[0] == a && messages[1] == b && messages[2] == c;
    assert a in messages && b in messages && c in messages;
    SourceById(messages, where, a);
    SourceById(messages, where, b);
    SourceById(messages, where, c);
  }

  /** Ids "1", "01" and "+1" at one timestamp are the same number: no message supersedes another,
      so three public actions stand. */
  lemma EqualNumbersAllStand(number: Reading, messages: seq<Message>, where: ConversationKey,
                             a: Message, b: Message, c: Message)
    requires number("1") == Some(1) && number("01") == Some(1) && number("+1") == Some(1)
    requires messages == [a, b, c] && a.createdAt == b.createdAt == c.createdAt
    requires CustomerTurnIn(a, where) && CustomerTurnIn(b, where) && CustomerTurnIn(c, where)
    requires a.id == "1" && b.id == "01" && c.id == "+1"
    ensures forall m :: m in messages ==> Stands(number, messages, where, m)
  {
    SourceById(messages, where, a);
    SourceById(messages, where, b);
    SourceById(messages, where, c);
  }

  lemma SourceById(messages: seq<Message>, where: ConversationKey, m: Message)
    requires m in messages && ConversationOf(m) == where
    requires forall o :: o in messages && o.id == m.id ==> o == m
    ensures SourceMessage(messages, where, m.id) == Some(m)
  {
  }
}
