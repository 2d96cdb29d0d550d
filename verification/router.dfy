/**
 The callback router: callback data is a colon-separated token such as
 `admin:st:7:accepted`. The router tests the token against a fixed list of
 exact strings and prefixes, in order, and hands it to the first handler
 that matches; each handler then reads its argument from the last segment
 (or, for a status change, from exactly four segments).
 */
module Router {
  import opened Base
  import opened PyStr

  /** The handler a token is routed to. */
  datatype Target =
    | AddStart
    | AddPickCategory
    | AdminShowCategory
    | AdminToggle
    | AdminOrders
    | AdminSetStatus
    | CustPickCategory
    | CustOpenItem
    | CustQty
    | CustSchedule
    | Unrouted

  datatype Pattern = Exactly(text: string) | Prefix(text: string)

  predicate Matches(p: Pattern, data: string) {
    match p
    case Exactly(t) => data == t
    case Prefix(t) => StartsWith(data, t)
  }

  datatype Rule = Rule(pattern: Pattern, target: Target)

  /** The tests of `callback_router`, in the order it makes them. */
  const Rules: seq<Rule> := [
    Rule(Exactly("admin:add:start"), AddStart),
    Rule(Prefix("admin:add:cat:"), AddPickCategory),
    Rule(Prefix("admin:cat:"), AdminShowCategory),
    Rule(Prefix("admin:toggle:"), AdminToggle),
    Rule(Exactly("admin:orders"), AdminOrders),
    Rule(Prefix("admin:st:"), AdminSetStatus),
    Rule(Prefix("cust:cat:"), CustPickCategory),
    Rule(Prefix("cust:item:"), CustOpenItem),
    Rule(Prefix("cust:qty:"), CustQty),
    Rule(Prefix("cust:sched:"), CustSchedule)
  ]

  /** The index of the first rule that matches, `|rules|` when none does. */
  function FirstIndex(rules: seq<Rule>, data: string): (n: nat)
    ensures n <= |rules|
    ensures forall j :: 0 <= j < n ==> !Matches(rules[j].pattern, data)
    ensures n < |rules| ==> Matches(rules[n].pattern, data)
    decreases |rules|
  {
    if |rules| == 0 then 0
    else if Matches(rules[0].pattern, data) then 0
    else
      var n := FirstIndex(rules[1..], data);
      assert forall j :: 1 <= j < |rules| ==> rules[j] == rules[1..][j - 1];
      1 + n
  }

  lemma MatchedCharacters(p: Pattern, data: string)
    requires Matches(p, data)
    ensures |p.text| <= |data| && forall k :: 0 <= k < |p.text| ==> data[k] == p.text[k]
  {
    if p.Prefix? {
      assert forall k :: 0 <= k < |p.text| ==> data[..|p.text|][k] == data[k];
    }
  }

  /** The index of the only rule a token can match, read off the characters
      at positions 0, 5, 6 and 10 where the rules' texts differ. */
  ghost function RuleIndex(data: string): int {
    if |data| < 9 then -1
    else if data[0] == 'a' then
      if data[6] == 'a' then (if |data| > 10 && data[10] == 's' then 0 else 1)
      else if data[6] == 'c' then 2
      else if data[6] == 't' then 3
      else if data[6] == 'o' then 4
      else 5
    else if data[5] == 'c' then 6
    else if data[5] == 'i' then 7
    else if data[5] == 'q' then 8
    else 9
  }

  lemma MatchDeterminesRule(data: string, i: int)
    requires 0 <= i < |Rules| && Matches(Rules[i].pattern, data)
    ensures RuleIndex(data) == i
  {
    MatchedCharacters(Rules[i].pattern, data);
    if i == 0 {} else if i == 1 {} else if i == 2 {} else if i == 3 {} else if i == 4 {}
    else if i == 5 {} else if i == 6 {} else if i == 7 {} else if i == 8 {} else {}
  }

  /** No token matches two rules, so the order of the tests never decides
      where a token goes. */
  lemma RulesDisjoint(data: string, i: int, j: int)
    requires 0 <= i < j < |Rules|
    ensures !(Matches(Rules[i].pattern, data) && Matches(Rules[j].pattern, data))
  {
    if Matches(Rules[i].pattern, data) && Matches(Rules[j].pattern, data) {
      MatchDeterminesRule(data, i);
      MatchDeterminesRule(data, j);
    }
  }

  /** `callback_router`'s choice of handler: a token matching a rule goes to
      that rule's handler, and a token matching none is unrouted. */
  function Route(data: string): (t: Target)
    ensures (forall i :: 0 <= i < |Rules| ==> !Matches(Rules[i].pattern, data)) <==> t == Unrouted
    ensures forall i :: 0 <= i < |Rules| && Matches(Rules[i].pattern, data) ==> t == Rules[i].target
  {
    var n := FirstIndex(Rules, data);
    FirstIndexIsTheMatch(data);
    RulesRouted();
    if n < |Rules| then Rules[n].target else Unrouted
  }

  /** Every rule names a handler. */
  lemma RulesRouted()
    ensures forall i :: 0 <= i < |Rules| ==> Rules[i].target != Unrouted
  {
  }

  /** Since the rules are disjoint, the first matching rule is the only one. */
  lemma FirstIndexIsTheMatch(data: string)
    ensures forall i :: 0 <= i < |Rules| && Matches(Rules[i].pattern, data) ==> FirstIndex(Rules, data) == i
  {
    forall i | 0 <= i < |Rules| && Matches(Rules[i].pattern, data)
      ensures FirstIndex(Rules, data) == i
    {
      var n := FirstIndex(Rules, data);
      if n < i {
        RulesDisjoint(data, n, i);
      }
    }
  }

  /** A routed token with its argument read as the handler reads it. */
  datatype Action =
    | StartAdd
    | PickAddCategory(category: string)
    | ShowCategory(category: string)
    | ToggleItem(itemId: int)
    | ListOrders
    | SetStatus(orderId: int, status: string)
    | BrowseCategory(category: string)
    | OpenItem(itemId: int)
    | ChooseQty(choice: string)
    | PickSchedule(kind: string)

  function TargetOf(a: Action): Target {
    match a
    case StartAdd => AddStart
    case PickAddCategory(_) => AddPickCategory
    case ShowCategory(_) => AdminShowCategory
    case ToggleItem(_) => AdminToggle
    case ListOrders => AdminOrders
    case SetStatus(_, _) => AdminSetStatus
    case BrowseCategory(_) => CustPickCategory
    case OpenItem(_) => CustOpenItem
    case ChooseQty(_) => CustQty
    case PickSchedule(_) => CustSchedule
  }

  /** The outcome of routing a token: a handler with its argument, a
      handler that raises while reading its argument (`int()` or the
      four-way unpacking fails), or no handler at all. */
  datatype Decoded = Act(action: Action) | Malformed(target: Target) | NotRouted

  /** What `callback_router` and the handler it picks make of a token. */
  function Decode(data: string): (r: Decoded)
    ensures r.NotRouted? <==> Route(data) == Unrouted
  {
    ReadArgument(Route(data), data)
  }

  /** How the handler `t` reads its argument out of the token. */
  function ReadArgument(t: Target, data: string): (r: Decoded)
    ensures r.NotRouted? <==> t == Unrouted
  {
    match t
    case AddStart => Act(StartAdd)
    case AddPickCategory => Act(PickAddCategory(LastSegment(data, ':')))
    case AdminShowCategory => Act(ShowCategory(LastSegment(data, ':')))
    case AdminToggle =>
      (match ParseInt(LastSegment(data, ':'))
       case Some(id) => Act(ToggleItem(id))
       case None => Malformed(AdminToggle))
    case AdminOrders => Act(ListOrders)
    case AdminSetStatus =>
      var parts := Split(data, ':');
      if |parts| != 4 then Malformed(AdminSetStatus)
      else
        (match ParseInt(parts[2])
         case Some(id) => Act(SetStatus(id, parts[3]))
         case None => Malformed(AdminSetStatus))
    case CustPickCategory => Act(BrowseCategory(LastSegment(data, ':')))
    case CustOpenItem =>
      (match ParseInt(LastSegment(data, ':'))
       case Some(id) => Act(OpenItem(id))
       case None => Malformed(CustOpenItem))
    case CustQty => Act(ChooseQty(LastSegment(data, ':')))
    case CustSchedule => Act(PickSchedule(LastSegment(data, ':')))
    case Unrouted => NotRouted
  }

  /** Only the three handlers that call `int()` can fail to read their
      argument: on an id that is not an integer, or (setting a status) on a
      token that is not four segments. The ids and the status they read are
      those of the token. */
  lemma ReadArgumentFails(t: Target, data: string)
    ensures var r := ReadArgument(t, data);
      && (r.Malformed? ==> r.target == t)
      && (r.Malformed? <==>
            || ((t == AdminToggle || t == CustOpenItem) && ParseInt(LastSegment(data, ':')).None?)
            || (t == AdminSetStatus && (|Split(data, ':')| != 4 || ParseInt(Split(data, ':')[2]).None?)))
      && (r.Act? && (r.action.ToggleItem? || r.action.OpenItem?) ==>
            ParseInt(LastSegment(data, ':')) == Some(r.action.itemId))
      && (r.Act? && r.action.SetStatus? ==>
            && |Split(data, ':')| == 4 && ParseInt(Split(data, ':')[2]) == Some(r.action.orderId)
            && r.action.status == Split(data, ':')[3])
  {
  }

  /** The token a button carries for an action, as the keyboards and
      handlers format it. */
  function Encode(a: Action): string {
    match a
    case StartAdd => "admin:add:start"
    case PickAddCategory(c) => "admin:add:cat:" + c
    case ShowCategory(c) => "admin:cat:" + c
    case ToggleItem(id) => "admin:toggle:" + IntToString(id)
    case ListOrders => "admin:orders"
    case SetStatus(id, st) => "admin:st:" + IntToString(id) + ":" + st
    case BrowseCategory(c) => "cust:cat:" + c
    case OpenItem(id) => "cust:item:" + IntToString(id)
    case ChooseQty(x) => "cust:qty:" + x
    case PickSchedule(k) => "cust:sched:" + k
  }

  /** An action whose text argument could survive the trip through a
      colon-separated token. */
  predicate WellFormed(a: Action) {
    match a
    case PickAddCategory(c) => ':' !in c
    case ShowCategory(c) => ':' !in c
    case SetStatus(_, st) => ':' !in st
    case BrowseCategory(c) => ':' !in c
    case ChooseQty(x) => ':' !in x
    case PickSchedule(k) => ':' !in k
    case _ => true
  }

  lemma {:induction false} SplitAfterSep(x: string, sep: char, c: string)
    requires sep !in c
    ensures |Split(x + [sep] + c, sep)| >= 2
    ensures LastSegment(x + [sep] + c, sep) == c
    decreases |x|
  {
    if |x| == 0 {
      assert x + [sep] + c == [] + [sep] + c;
      SplitAtFirstSep(x, sep, c);
      SplitWithoutSep(c, sep);
    } else {
      var s := x + [sep] + c;
      assert s[1..] == x[1..] + [sep] + c;
      SplitAfterSep(x[1..], sep, c);
      var rest := Split(s[1..], sep);
      var r := Split(s, sep);
      assert r == if s[0] == sep then [""] + rest else [[s[0]] + rest[0]] + rest[1..];
      assert r[|r| - 1] == rest[|rest| - 1];
    }
  }

  lemma LastSegmentAfterPrefix(p: string, c: string)
    requires |p| > 0 && p[|p| - 1] == ':' && ':' !in c
    ensures LastSegment(p + c, ':') == c
  {
    var x := p[..|p| - 1];
    assert p + c == x + [':'] + c;
    SplitAfterSep(x, ':', c);
  }

  /** A token that starts with the prefix of rule `i` reaches rule `i`'s
      handler. */
  lemma RouteOfPrefixed(i: int, arg: string)
    requires 0 <= i < |Rules| && Rules[i].pattern.Prefix?
    ensures Route(Rules[i].pattern.text + arg) == Rules[i].target
  {
    var p := Rules[i].pattern.text;
    assert (p + arg)[..|p|] == p;
    assert Matches(Rules[i].pattern, p + arg);
  }

  lemma SplitStatusToken(s: string, st: string)
    requires ':' !in s && ':' !in st
    ensures Split("admin:st:" + s + ":" + st, ':') == ["admin", "st", s, st]
  {
    var data := "admin:st:" + s + ":" + st;
    assert data == "admin" + [':'] + ("st" + [':'] + (s + [':'] + st));
    SplitAtFirstSep("admin", ':', "st" + [':'] + (s + [':'] + st));
    SplitAtFirstSep("st", ':', s + [':'] + st);
    SplitAtFirstSep(s, ':', st);
    SplitWithoutSep(st, ':');
  }

  lemma StatusTokenRoundTrip(id: int, st: string)
    requires ':' !in st
    ensures Decode(Encode(SetStatus(id, st))) == Act(SetStatus(id, st))
  {
    var s := IntToString(id);
    IntToStringChars(id);
    assert Encode(SetStatus(id, st)) == "admin:st:" + (s + ":" + st);
    RouteOfPrefixed(5, s + ":" + st);
    StatusArgument(id, st);
    DecodeVia(Encode(SetStatus(id, st)), AdminSetStatus, Act(SetStatus(id, st)));
  }

  /** The status handler reads the order id and the status back. */
  lemma StatusArgument(id: int, st: string)
    requires ':' !in st
    ensures ReadArgument(AdminSetStatus, Encode(SetStatus(id, st))) == Act(SetStatus(id, st))
  {
    var s := IntToString(id);
    IntToStringChars(id);
    IntToStringRoundTrip(id);
    var data := Encode(SetStatus(id, st));
    assert data == "admin:st:" + s + ":" + st;
    SplitStatusToken(s, st);
    StatusOfParts(AdminSetStatus, data, id, st);
  }

  lemma StatusOfParts(t: Target, data: string, id: int, st: string)
    requires t == AdminSetStatus
    requires |Split(data, ':')| == 4 && ParseInt(Split(data, ':')[2]) == Some(id) && Split(data, ':')[3] == st
    ensures ReadArgument(t, data) == Act(SetStatus(id, st))
  {
  }

  lemma TextTokenRoundTrip(a: Action, i: int, prefix: string, arg: string)
    requires 0 <= i < |Rules| && Rules[i].pattern == Prefix(prefix) && Rules[i].target == TargetOf(a)
    requires |prefix| > 0 && prefix[|prefix| - 1] == ':' && ':' !in arg
    requires Encode(a) == prefix + arg
    ensures Route(Encode(a)) == TargetOf(a)
    ensures LastSegment(Encode(a), ':') == arg
  {
    RouteOfPrefixed(i, arg);
    LastSegmentAfterPrefix(prefix, arg);
  }

  lemma IdTokenRoundTrip(a: Action, i: int, prefix: string, id: int)
    requires 0 <= i < |Rules| && Rules[i].pattern == Prefix(prefix) && Rules[i].target == TargetOf(a)
    requires |prefix| > 0 && prefix[|prefix| - 1] == ':'
    requires Encode(a) == prefix + IntToString(id)
    ensures Route(Encode(a)) == TargetOf(a)
    ensures ParseInt(LastSegment(Encode(a), ':')) == Some(id)
  {
    IntToStringChars(id);
    TextTokenRoundTrip(a, i, prefix, IntToString(id));
    IntToStringRoundTrip(id);
  }

  /** Every well-formed action survives encoding: the router sends its
      token to the action's handler, which reads back the same argument. */
  lemma DecodeEncode(a: Action)
    requires WellFormed(a)
    ensures Decode(Encode(a)) == Act(a)
  {
    match a
    case StartAdd => ExactTokenRoundTrip(a, Encode(a), 0);
    case PickAddCategory(_) => PickAddCategoryRoundTrip(a);
    case ShowCategory(_) => ShowCategoryRoundTrip(a);
    case ToggleItem(_) => ToggleItemRoundTrip(a);
    case ListOrders => ExactTokenRoundTrip(a, Encode(a), 4);
    case SetStatus(id, st) => StatusTokenRoundTrip(id, st);
    case BrowseCategory(_) => BrowseCategoryRoundTrip(a);
    case OpenItem(_) => OpenItemRoundTrip(a);
    case ChooseQty(_) => ChooseQtyRoundTrip(a);
    case PickSchedule(_) => PickScheduleRoundTrip(a);
  }

  /** A token the router sends to `t`, read by `t` as `r`, decodes to `r`. */
  lemma DecodeVia(data: string, t: Target, r: Decoded)
    requires Route(data) == t && ReadArgument(t, data) == r
    ensures Decode(data) == r
  {
  }

  /** The handlers that take their argument verbatim from the last segment. */
  lemma TextArgReadsBack(a: Action, data: string)
    requires a.PickAddCategory? || a.ShowCategory? || a.BrowseCategory? || a.ChooseQty? || a.PickSchedule?
    requires LastSegment(data, ':') == (match a
      case ChooseQty(x) => x
      case PickSchedule(k) => k
      case _ => a.category)
    ensures ReadArgument(TargetOf(a), data) == Act(a)
  {
  }

  /** The handlers that read an id from the last segment. */
  lemma IdArgReadsBack(a: Action, data: string)
    requires a.ToggleItem? || a.OpenItem?
    requires ParseInt(LastSegment(data, ':')) == Some(a.itemId)
    ensures ReadArgument(TargetOf(a), data) == Act(a)
  {
  }

  /** An action without an argument, whose token is matched by an exact rule. */
  lemma ExactTokenRoundTrip(a: Action, data: string, i: int)
    requires 0 <= i < |Rules| && Rules[i].pattern == Exactly(data) && Rules[i].target == TargetOf(a)
    requires ReadArgument(TargetOf(a), data) == Act(a)
    ensures Decode(data) == Act(a)
  {
    assert Matches(Rules[i].pattern, data);
    DecodeVia(data, TargetOf(a), Act(a));
  }

  lemma PickAddCategoryRoundTrip(a: Action)
    requires a.PickAddCategory? && ':' !in a.category
    ensures Decode(Encode(a)) == Act(a)
  {
    TextTokenRoundTrip(a, 1, "admin:add:cat:", a.category);
    TextArgReadsBack(a, Encode(a));
    DecodeVia(Encode(a), TargetOf(a), Act(a));
  }

  lemma ShowCategoryRoundTrip(a: Action)
    requires a.ShowCategory? && ':' !in a.category
    ensures Decode(Encode(a)) == Act(a)
  {
    TextTokenRoundTrip(a, 2, "admin:cat:", a.category);
    TextArgReadsBack(a, Encode(a));
    DecodeVia(Encode(a), TargetOf(a), Act(a));
  }

  lemma ToggleItemRoundTrip(a: Action)
    requires a.ToggleItem?
    ensures Decode(Encode(a)) == Act(a)
  {
    IdTokenRoundTrip(a, 3, "admin:toggle:", a.itemId);
    IdArgReadsBack(a, Encode(a));
    DecodeVia(Encode(a), TargetOf(a), Act(a));
  }

  lemma BrowseCategoryRoundTrip(a: Action)
    requires a.BrowseCategory? && ':' !in a.category
    ensures Decode(Encode(a)) == Act(a)
  {
    TextTokenRoundTrip(a, 6, "cust:cat:", a.category);
    TextArgReadsBack(a, Encode(a));
    DecodeVia(Encode(a), TargetOf(a), Act(a));
  }

  lemma OpenItemRoundTrip(a: Action)
    requires a.OpenItem?
    ensures Decode(Encode(a)) == Act(a)
  {
    IdTokenRoundTrip(a, 7, "cust:item:", a.itemId);
    IdArgReadsBack(a, Encode(a));
    DecodeVia(Encode(a), TargetOf(a), Act(a));
  }

  lemma ChooseQtyRoundTrip(a: Action)
    requires a.ChooseQty? && ':' !in a.choice
    ensures Decode(Encode(a)) == Act(a)
  {
    TextTokenRoundTrip(a, 8, "cust:qty:", a.choice);
    TextArgReadsBack(a, Encode(a));
    DecodeVia(Encode(a), TargetOf(a), Act(a));
  }

  lemma PickScheduleRoundTrip(a: Action)
    requires a.PickSchedule? && ':' !in a.kind
    ensures Decode(Encode(a)) == Act(a)
  {
    TextTokenRoundTrip(a, 9, "cust:sched:", a.kind);
    TextArgReadsBack(a, Encode(a));
    DecodeVia(Encode(a), TargetOf(a), Act(a));
  }
}
