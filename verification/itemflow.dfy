/**
 The administrator's add-item dialogue: category, title, description,
 price, quantity bounds and two photos, then one INSERT into `items`.
 Every step writes into the draft `user_data["add_item"]`; a step that
 finds no draft raises (KeyError) and the conversation keeps its state.
 */
module ItemFlow {
  import opened Base
  import opened PyStr
  import opened Model
  import opened Store
  import opened Keyboards

  /** The draft `admin_add_start` creates. */
  const FreshDraft: ItemDraft := ItemDraft(None, None, "", Finite(0.0), 1, 10, None, None)

  /** `admin_add_start`: a fresh draft (replacing any earlier one) and the
      category question. */
  function AddStart(s: Session, db: Db): (t: Turn)
    ensures t.next == GoTo(AdminAddTitle) && t.addItem == Some(FreshDraft)
    ensures t.order == s.order && t.db == db
  {
    Turn(GoTo(AdminAddTitle), Some(FreshDraft), s.order, db, [Say(ThisChat, AskCategory, AddCategoryKeyboard())])
  }

  /** Applies `f` to the draft, or raises when there is none. Either way
      the tables and the order draft are left alone, and a raising step
      changes nothing at all. */
  function WithDraft(s: Session, db: Db, f: ItemDraft -> ItemDraft, next: State, m: Msg): (t: Turn)
    ensures AllRoute(t.effects)
    ensures t.db == db && t.order == s.order
    ensures t.next == Raised <==> s.addItem.None?
    ensures t.next == Raised ==> t.addItem == s.addItem && t.effects == []
    ensures t.next != Raised ==> t.next == GoTo(next) && t.addItem == Some(f(s.addItem.value))
  {
    match s.addItem
    case None => Keep(s, db, Raised, [])
    case Some(d) => Turn(GoTo(next), Some(f(d)), s.order, db, [Reply(m)])
  }

  /** `admin_add_pick_cat`: records the category from the button. */
  function PickCategory(s: Session, db: Db, category: string): (t: Turn)
    ensures t.db == db && t.order == s.order
    ensures s.addItem.None? ==> t.next == Raised && t.addItem.None?
    ensures s.addItem.Some? ==>
      t.next == GoTo(AdminAddTitle) && t.addItem == Some(s.addItem.value.(category := Some(category)))
  {
    WithDraft(s, db, (d: ItemDraft) => d.(category := Some(category)), AdminAddTitle, AskTitle)
  }

  /** `admin_add_title`: the stripped text becomes the title, whatever it
      is (the empty string included). */
  function Title(s: Session, db: Db, text: string): (t: Turn)
    ensures t.db == db && t.order == s.order
    ensures s.addItem.None? ==> t.next == Raised && t.addItem.None?
    ensures s.addItem.Some? ==>
      t.next == GoTo(AdminAddDesc) && t.addItem == Some(s.addItem.value.(title := Some(Strip(text))))
  {
    WithDraft(s, db, (d: ItemDraft) => d.(title := Some(Strip(text))), AdminAddDesc, AskDescription)
  }

  /** `admin_add_title` as evidently intended: while no category has been
      picked the title is not taken and the category question is repeated,
      so a saved draft always has a category. */
  function TitleFixed(s: Session, db: Db, text: string): (t: Turn)
    ensures AllRoute(t.effects)
    ensures t.db == db && t.order == s.order
    ensures t.next == GoTo(AdminAddDesc) <==> s.addItem.Some? && s.addItem.value.category.Some?
    ensures t.next == GoTo(AdminAddDesc) ==>
      && t.addItem.Some? && t.addItem.value.category == s.addItem.value.category
      && t.addItem.value.title == Some(Strip(text))
    ensures t.next != GoTo(AdminAddDesc) ==> t.addItem == s.addItem
  {
    if s.addItem.Some? && s.addItem.value.category.None? then
      Keep(s, db, GoTo(AdminAddTitle), [Say(ThisChat, AskCategory, AddCategoryKeyboard())])
    else Title(s, db, text)
  }

  /** The description a stripped reply stands for: "-" means none. */
  function DescriptionOf(text: string): string {
    var txt := Strip(text);
    if txt == "-" then "" else txt
  }

  /** The description is empty exactly for a blank reply or "-"; otherwise
      it is the reply without its edge whitespace, and stripping it again
      changes nothing. */
  lemma DescriptionOfReply(text: string)
    ensures var r := DescriptionOf(text);
      && (r == "" <==> Strip(text) == "" || Strip(text) == "-")
      && (r != "" ==> r == Strip(text))
      && Strip(r) == r
  {
    StripOfTrimmed(Strip(text));
  }

  /** `admin_add_desc` */
  function Description(s: Session, db: Db, text: string): (t: Turn)
    ensures t.db == db && t.order == s.order
    ensures s.addItem.None? ==> t.next == Raised && t.addItem.None?
    ensures s.addItem.Some? ==>
      t.next == GoTo(AdminAddPrice) && t.addItem == Some(s.addItem.value.(description := DescriptionOf(text)))
  {
    WithDraft(s, db, (d: ItemDraft) => d.(description := DescriptionOf(text)), AdminAddPrice, AskPrice)
  }

  /** The price `float(text.strip())` reads, unless it is unreadable or
      negative (NaN is neither, so it is accepted). */
  function ReadPrice(env: Env, text: string): (r: Option<Float>)
    ensures r.Some? ==> !r.value.IsNegative() && env.parseFloat(Strip(text)) == Some(r.value)
  {
    match env.parseFloat(Strip(text))
    case None => None
    case Some(p) => if p.IsNegative() then None else Some(p)
  }

  /** A reply that reads as NaN is accepted as the price: NaN is not below
      zero. */
  lemma NaNPriceAccepted(env: Env, text: string)
    requires env.parseFloat(Strip(text)) == Some(NaN)
    ensures ReadPrice(env, text) == Some(NaN)
  {
  }

  /** Every readable price that is not negative is accepted as read, and a
      negative or unreadable one is refused. */
  lemma ReadPriceAcceptsExactly(env: Env, text: string)
    ensures ReadPrice(env, text).Some? <==>
      env.parseFloat(Strip(text)).Some? && !env.parseFloat(Strip(text)).value.IsNegative()
  {
  }

  /** `admin_add_price`: a rejected price is asked again; the check comes
      before the draft is touched. */
  function Price(env: Env, s: Session, db: Db, text: string): (t: Turn)
    ensures AllRoute(t.effects)
    ensures ReadPrice(env, text).None? ==> t == Keep(s, db, GoTo(AdminAddPrice), [Reply(BadPrice)])
    ensures ReadPrice(env, text).Some? && s.addItem.Some? ==>
      t.next == GoTo(AdminAddMinMax) && t.addItem == Some(s.addItem.value.(price := ReadPrice(env, text).value))
  {
    match ReadPrice(env, text)
    case None => Keep(s, db, GoTo(AdminAddPrice), [Reply(BadPrice)])
    case Some(p) => WithDraft(s, db, (d: ItemDraft) => d.(price := p), AdminAddMinMax, AskMinMax)
  }

  /** The bounds `min max` read from the first two words of the reply;
      further words are ignored. */
  function ReadMinMax(text: string): (r: Option<(int, int)>)
    ensures r.Some? ==> 1 <= r.value.0 <= r.value.1
  {
    var parts := SplitWhitespace(Strip(text));
    if |parts| < 1 then None
    else match ParseInt(parts[0])
      case None => None
      case Some(mn) =>
        if |parts| < 2 then None
        else match ParseInt(parts[1])
          case None => None
          case Some(mx) => if mn < 1 || mx < mn then None else Some((mn, mx))
  }

  /** Two words joined by a space split back into those two words. */
  lemma SplitTwoWords(a: string, b: string)
    requires a != [] && forall c <- a :: !IsSpace(c)
    requires b != [] && forall c <- b :: !IsSpace(c)
    ensures SplitWhitespace(Strip(a + " " + b)) == [a, b]
  {
    var text := a + " " + b;
    assert text[0] == a[0] && text[|text| - 1] == b[|b| - 1];
    StripOfTrimmed(text);
    assert text == a + [' '] + b;
    SplitWhitespaceWord(a, ' ', b);
    SplitWhitespaceOneWord(b);
  }

  /** A reply of a single word is refused: `parts[1]` raises IndexError. */
  lemma OneWordRejected(w: string)
    requires w != [] && forall c <- w :: !IsSpace(c)
    ensures ReadMinMax(w) == None
  {
    StripOfTrimmed(w);
    SplitWhitespaceOneWord(w);
  }

  lemma SpaceJoin(a: string, b: string, rest: string)
    ensures a + " " + b + " " + rest == a + [' '] + (b + [' '] + rest)
  {
    assert " " == [' '];
  }

  /** Three words joined by spaces split back into the first two words
      followed by the words of the rest. */
  lemma SplitThreeParts(a: string, b: string, rest: string)
    requires a != [] && forall c <- a :: !IsSpace(c)
    requires b != [] && forall c <- b :: !IsSpace(c)
    requires rest != [] && !IsSpace(rest[|rest| - 1])
    ensures SplitWhitespace(Strip(a + " " + b + " " + rest)) == [a, b] + SplitWhitespace(rest)
  {
    var tail := b + [' '] + rest;
    var text := a + [' '] + tail;
    SpaceJoin(a, b, rest);
    assert text[0] == a[0];
    assert text[|text| - 1] == tail[|tail| - 1] == rest[|rest| - 1];
    StripOfTrimmed(text);
    assert Strip(a + " " + b + " " + rest) == text;
    SplitWhitespaceWord(b, ' ', rest);
    SplitWhitespaceWord(a, ' ', tail);
    PrependTwo(a, b, SplitWhitespace(rest));
  }

  lemma PrependTwo<T>(x: T, y: T, w: seq<T>)
    ensures [x] + ([y] + w) == [x, y] + w
  {
  }

  /** Whatever follows the second word is ignored. */
  lemma ExtraWordsIgnored(mn: int, mx: int, rest: string)
    requires rest != [] && !IsSpace(rest[|rest| - 1])
    ensures ReadMinMax(IntToString(mn) + " " + IntToString(mx) + " " + rest)
         == ReadMinMax(IntToString(mn) + " " + IntToString(mx))
  {
    var a, b := IntToString(mn), IntToString(mx);
    IntToStringChars(mn);
    IntToStringChars(mx);
    SplitThreeParts(a, b, rest);
    SplitTwoWords(a, b);
    var words := [a, b] + SplitWhitespace(rest);
    assert |words| >= 2 && words[0] == a && words[1] == b;
  }

  /** Exactly the pairs with 1 <= min <= max are accepted when written as
      "min max". */
  lemma ReadMinMaxOfPair(mn: int, mx: int)
    ensures ReadMinMax(IntToString(mn) + " " + IntToString(mx)) == if 1 <= mn <= mx then Some((mn, mx)) else None
  {
    IntToStringChars(mn);
    IntToStringChars(mx);
    IntToStringRoundTrip(mn);
    IntToStringRoundTrip(mx);
    SplitTwoWords(IntToString(mn), IntToString(mx));
  }

  /** `admin_add_minmax`: a rejected reply is asked again; otherwise both
      bounds go into the draft. */
  function MinMax(s: Session, db: Db, text: string): (t: Turn)
    ensures AllRoute(t.effects)
    ensures ReadMinMax(text).None? ==> t == Keep(s, db, GoTo(AdminAddMinMax), [Reply(BadMinMax)])
    ensures ReadMinMax(text).Some? && s.addItem.Some? ==>
      t.next == GoTo(AdminAddPhoto1) &&
      t.addItem == Some(s.addItem.value.(minQty := ReadMinMax(text).value.0, maxQty := ReadMinMax(text).value.1))
  {
    match ReadMinMax(text)
    case None => Keep(s, db, GoTo(AdminAddMinMax), [Reply(BadMinMax)])
    case Some(b) => WithDraft(s, db, (d: ItemDraft) => d.(minQty := b.0, maxQty := b.1), AdminAddPhoto1, AskPhoto1)
  }

  /** `admin_add_minmax` as evidently intended: bounds SQLite cannot store
      are refused like any other bad reply, so a draft that reaches the
      photos can be saved. */
  function MinMaxFixed(s: Session, db: Db, text: string): (t: Turn)
    ensures AllRoute(t.effects)
    ensures t.db == db && t.order == s.order
    ensures t.next == GoTo(AdminAddPhoto1) ==>
      && ReadMinMax(text).Some? && FitsInt64(ReadMinMax(text).value.1)
      && s.addItem.Some? && t.addItem.Some?
      && t.addItem.value == s.addItem.value.(minQty := ReadMinMax(text).value.0, maxQty := ReadMinMax(text).value.1)
    ensures ReadMinMax(text).Some? && !FitsInt64(ReadMinMax(text).value.1) ==>
      t == Keep(s, db, GoTo(AdminAddMinMax), [Reply(BadMinMax)])
    ensures ReadMinMax(text).Some? && FitsInt64(ReadMinMax(text).value.1) && s.addItem.Some? ==>
      t.next == GoTo(AdminAddPhoto1)
  {
    match ReadMinMax(text)
    case Some(b) => if FitsInt64(b.1) then MinMax(s, db, text) else Keep(s, db, GoTo(AdminAddMinMax), [Reply(BadMinMax)])
    case None => MinMax(s, db, text)
  }

  /** `admin_add_photo1` (the state only accepts photos). */
  function Photo1(s: Session, db: Db, fileId: string): (t: Turn)
    ensures t.db == db && t.order == s.order
    ensures s.addItem.None? ==> t.next == Raised && t.addItem.None?
    ensures s.addItem.Some? ==>
      t.next == GoTo(AdminAddPhoto2) && t.addItem == Some(s.addItem.value.(photo1 := Some(fileId)))
  {
    WithDraft(s, db, (d: ItemDraft) => d.(photo1 := Some(fileId)), AdminAddPhoto2, AskPhoto2)
  }

  /** The row a complete draft is saved as: active, created now. */
  function ItemOf(d: ItemDraft, now: string): Item
    requires d.category.Some? && d.title.Some? && d.photo1.Some? && d.photo2.Some?
  {
    Item(d.category.value, d.title.value, d.description, d.price, d.minQty, d.maxQty,
         d.photo1.value, d.photo2.value, true, now)
  }

  /** A draft the `items` table accepts: no NULL in a NOT NULL column, and
      bounds SQLite can bind. */
  predicate Complete(d: ItemDraft) {
    && d.category.Some? && d.title.Some? && d.photo1.Some? && d.photo2.Some?
    && FitsInt64(d.minQty) && FitsInt64(d.maxQty)
  }

  /** `admin_add_photo2`: records the second photo, then inserts the item.
      A draft still missing its category, title or first photo violates a
      NOT NULL column, and bounds outside 64 bits cannot be bound: the
      insert raises, the tables stay as they were and the draft keeps the
      new photo. The draft is not cleared on success. */
  function Photo2(env: Env, s: Session, db: Db, fileId: string): (t: Turn)
    ensures AllRoute(t.effects)
    ensures t.next == GoTo(AdminMenu) <==> s.addItem.Some? && Complete(s.addItem.value.(photo2 := Some(fileId)))
    ensures s.addItem.Some? ==> t.addItem == Some(s.addItem.value.(photo2 := Some(fileId)))
    ensures t.next != GoTo(AdminMenu) ==> t.next == Raised && t.db == db
    ensures t.next == GoTo(AdminMenu) ==>
      && t.db.orders == db.orders
      && (Valid(db.items) ==> AddsRow(db.items, t.db.items, ItemOf(t.addItem.value, env.now)))
  {
    match s.addItem
    case None => Keep(s, db, Raised, [])
    case Some(d0) =>
      var d := d0.(photo2 := Some(fileId));
      if !Complete(d) then Turn(Raised, Some(d), s.order, db, [])
      else
        var ins := Insert(db.items, ItemOf(d, env.now));
        Turn(GoTo(AdminMenu), Some(d), s.order, db.(items := ins.table), [Say(ThisChat, ItemSaved, AdminMainKeyboard())])
  }
}
