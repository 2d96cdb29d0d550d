/**
 Four defects of the dialogue as written, each shown on the as-written
 build, with the property the corrected build has instead.

 1. Pressing "now" places the order on behalf of the author of the message
    the button is attached to, which is the bot, not the customer.
 2. The scheduling buttons are honoured in every state that takes buttons,
    so a draft abandoned before its contact was given can still be placed:
    the order is stored without any contact.
 3. A title typed before a category is picked is accepted; the draft then
    reaches the second photo without a category, every insert attempted
    there violates the NOT NULL constraint on the category, and the item
    can never be saved.
 4. Quantity bounds are read with Python's unbounded `int()`; bounds too
    large for SQLite's 64-bit INTEGER are accepted, and the insert at the
    second photo then raises every time.

 The last section shows, for both builds, an order stored with the data
 of both delivery kinds and of both contact kinds: no handler clears the
 other kind's fields when it records its own.
 */
module Findings {
  import opened Base
  import opened PyStr
  import opened Model
  import opened Store
  import opened Router
  import opened Conversation
  import opened Invariants
  import ItemFlow
  import OrderFlow

  /** Pressing a scheduling button of kind `k`. */
  function Press(k: string): Event {
    Callback(Encode(PickSchedule(k)))
  }

  /** A scheduling button pressed in a state that takes buttons reaches
      the router. */
  lemma PressReachesRouter(b: Build, env: Env, user: User, s: Session, db: Db, k: string)
    requires s.conv.Some? && TakesCallbacks(s.conv.value)
    ensures Step(b, env, user, s, db, Press(k)) == Finish(s, OnCallback(b, env, user, s, db, Encode(PickSchedule(k))))
  {
  }

  /** The router hands a scheduling button to the scheduling handler. */
  lemma RouterPicksSchedule(b: Build, env: Env, user: User, s: Session, db: Db, k: string)
    requires ':' !in k
    ensures OnCallback(b, env, user, s, db, Encode(PickSchedule(k))) == Perform(b, env, user, s, db, PickSchedule(k))
  {
    DecodeEncode(PickSchedule(k));
  }

  // -----------------------------------------------------------------------
  // 1. The bot is recorded as the customer

  /** As written: a customer at the schedule question who presses "now"
      gets an order stored under the bot's id, username and name. */
  lemma NowOrderRecordsBot(env: Env, user: User, s: Session, db: Db)
    requires s.conv == Some(CustomerSchedule) && s.order.Some?
    requires OrderFlow.Placeable(s.order.value.(scheduleType := Some("now")), db) && Valid(db.orders)
    ensures var r := Step(AsWritten, env, user, s, db, Press("now"));
      && AddsRow(db.orders, r.db.orders, OrderFlow.OrderOf(env.bot, s.order.value.(scheduleType := Some("now"), scheduledTimeText := None), env.now))
      && r.db.orders.rows[r.db.orders.lastId].userId == env.bot.id
  {
    PressReachesRouter(AsWritten, env, user, s, db, "now");
    NowPlacesDraft(env, user, s, db, "now");
  }

  /** The session after "now" was recorded in the order draft. */
  function NowPicked(s: Session): Session
    requires s.order.Some?
  {
    s.(order := Some(s.order.value.(scheduleType := Some("now"), scheduledTimeText := None)))
  }

  /** Corrected: with delivery and contact chosen, "now" at the schedule
      question finalises the order on behalf of the customer. */
  lemma FixedNowFinalizes(env: Env, user: User, s: Session, db: Db)
    requires s.conv == Some(CustomerSchedule) && s.order.Some?
    requires s.order.value.deliveryType.Some? && s.order.value.contactType.Some?
    ensures Step(Fixed, env, user, s, db, Press("now")) == Finish(s, OrderFlow.Finalize(env, user, NowPicked(s), db))
  {
    PressReachesRouter(Fixed, env, user, s, db, "now");
    FixedNowPlacesDraft(env, user, s, db, "now");
  }

  lemma FixedNowPlacesDraft(env: Env, user: User, s: Session, db: Db, k: string)
    requires s.order.Some? && s.order.value.deliveryType.Some? && s.order.value.contactType.Some? && k == "now"
    ensures OnCallback(Fixed, env, user, s, db, Encode(PickSchedule(k))) == OrderFlow.Finalize(env, user, NowPicked(s), db)
  {
    RouterPicksSchedule(Fixed, env, user, s, db, k);
    PerformsSchedule(Fixed, env, user, s, db, k);
    FixedPickNow(env, user, s, db, k);
  }

  lemma FixedPickNow(env: Env, user: User, s: Session, db: Db, k: string)
    requires s.order.Some? && s.order.value.deliveryType.Some? && s.order.value.contactType.Some? && k == "now"
    ensures OrderFlow.SchedulePickFixed(env, user, s, db, k) == OrderFlow.Finalize(env, user, NowPicked(s), db)
  {
  }

  /** Corrected: "now" stores the order under the customer who pressed it. */
  lemma FixedNowOrderRecordsCustomer(env: Env, user: User, s: Session, db: Db)
    requires s.conv == Some(CustomerSchedule) && s.order.Some? && s.order.value.contactType.Some?
    requires OrderFlow.Placeable(NowPicked(s).order.value, db) && Valid(db.orders)
    ensures var r := Step(Fixed, env, user, s, db, Press("now"));
      && AddsRow(db.orders, r.db.orders, OrderFlow.OrderOf(user, NowPicked(s).order.value, env.now))
      && r.db.orders.rows[r.db.orders.lastId].userId == user.id
  {
    FixedNowFinalizes(env, user, s, db);
  }

  // -----------------------------------------------------------------------
  // 2. An order without a contact

  /** The draft after a location was shared: delivery chosen, no contact. */
  function Located(d: OrderDraft, lat: real, lng: real): OrderDraft {
    d.(deliveryType := Some(ByLocation), lat := Some(lat), lng := Some(lng))
  }

  /** Sharing a location at the delivery question records it and asks for
      the contact. */
  lemma LocationStep(b: Build, env: Env, user: User, d: OrderDraft, db: Db, lat: real, lng: real)
    ensures var r := Step(b, env, user, Session(Some(CustomerDelivery), None, Some(d)), db, Location(lat, lng));
      r.session == Session(Some(CustomerContact), None, Some(Located(d, lat, lng))) && r.db == db
  {
    assert Handle(b, env, user, Session(Some(CustomerDelivery), None, Some(d)), db, CustomerDelivery, Location(lat, lng))
      == Some(OrderFlow.Delivery(Session(Some(CustomerDelivery), None, Some(d)), db, Some((lat, lng)), None));
  }

  lemma PerformsSchedule(b: Build, env: Env, user: User, s: Session, db: Db, k: string)
    ensures Perform(b, env, user, s, db, PickSchedule(k))
      == if b.AsWritten? then OrderFlow.SchedulePick(env, s, db, k) else OrderFlow.SchedulePickFixed(env, user, s, db, k)
  {
  }

  /** As written: "now" places whatever draft the session holds, on
      behalf of the bot. */
  lemma NowPlacesDraft(env: Env, user: User, s: Session, db: Db, k: string)
    requires s.order.Some? && k == "now"
    ensures OnCallback(AsWritten, env, user, s, db, Encode(PickSchedule(k))) == OrderFlow.Finalize(env, env.bot, NowPicked(s), db)
  {
    RouterPicksSchedule(AsWritten, env, user, s, db, k);
    PerformsSchedule(AsWritten, env, user, s, db, k);
    PickNow(env, s, db, k);
  }

  lemma PickNow(env: Env, s: Session, db: Db, k: string)
    requires s.order.Some? && k == "now"
    ensures OrderFlow.SchedulePick(env, s, db, k) == OrderFlow.Finalize(env, env.bot, NowPicked(s), db)
  {
  }

  /** As written: a customer who gave a location, then typed /start,
      still has the draft; pressing the "now" button of an earlier
      schedule question stores an order that has no contact at all. */
  lemma StaleDraftOrderLacksContact(env: Env, user: User, d: OrderDraft, db: Db, lat: real, lng: real)
    requires d.contactType.None? && d.itemId in db.items.rows && Valid(db.orders)
    ensures
      var r1 := Step(AsWritten, env, user, Session(Some(CustomerDelivery), None, Some(d)), db, Location(lat, lng));
      var r2 := Step(AsWritten, env, user, r1.session, r1.db, Command("start"));
      var r3 := Step(AsWritten, env, user, r2.session, r2.db, Press("now"));
      && r3.db.orders.lastId in r3.db.orders.rows
      && r3.db.orders.lastId !in db.orders.rows
      && r3.db.orders.rows[r3.db.orders.lastId].contactType.None?
  {
    LocationStep(AsWritten, env, user, d, db, lat, lng);
    var r1 := Step(AsWritten, env, user, Session(Some(CustomerDelivery), None, Some(d)), db, Location(lat, lng));
    var r2 := Step(AsWritten, env, user, r1.session, r1.db, Command("start"));
    assert r2.session.order == Some(Located(d, lat, lng)) && r2.db == db;
    PressReachesRouter(AsWritten, env, user, r2.session, r2.db, "now");
    NowPlacesDraft(env, user, r2.session, r2.db, "now");
    var d2 := NowPicked(r2.session).order.value;
    assert OrderFlow.Placeable(d2, db);
    assert OrderFlow.OrderOf(env.bot, d2, env.now).contactType.None?;
  }

  /** Corrected: every stored order has a contact, from any configuration
      satisfying the invariant and whatever the updates. */
  lemma FixedOrdersHaveContact(env: Env, user: User, s: Session, db: Db, events: seq<Event>)
    requires Inv(Fixed, s, db)
    ensures var r := Run(Fixed, env, user, s, db, events);
      forall id :: id in r.db.orders.rows ==> r.db.orders.rows[id].contactType.Some?
  {
    RunPreservesInv(Fixed, env, user, s, db, events);
  }

  // -----------------------------------------------------------------------
  // 3. An item that can never be saved

  /** As written: a title typed before the category is taken, and the
      draft moves on without a category. */
  lemma TitleBeforeCategory(env: Env, user: User, o: Option<OrderDraft>, db: Db, title: string)
    ensures var r := Step(AsWritten, env, user, Session(Some(AdminAddTitle), Some(ItemFlow.FreshDraft), o), db, Text(title));
      r.session.conv == Some(AdminAddDesc) && r.session.addItem.Some? && r.session.addItem.value.category.None?
  {
  }

  /** As written: once at the second photo without a category, no update
      other than /start saves the item or leaves the state. */
  lemma UncategorisedItemStuck(env: Env, user: User, s: Session, db: Db, e: Event)
    requires s.conv == Some(AdminAddPhoto2) && s.addItem.Some? && s.addItem.value.category.None?
    requires e != Command("start")
    ensures var r := Step(AsWritten, env, user, s, db, e);
      r.session.conv == Some(AdminAddPhoto2) && r.db == db
      && r.session.addItem.Some? && r.session.addItem.value.category.None?
  {
  }

  /** Corrected: the title waits for the category, so at the second photo
      the item is always saved. */
  lemma FixedPhoto2Saves(env: Env, user: User, s: Session, db: Db, f: string)
    requires Inv(Fixed, s, db) && s.conv == Some(AdminAddPhoto2)
    ensures var r := Step(Fixed, env, user, s, db, Photo(f));
      && r.session.conv == Some(AdminMenu)
      && AddsRow(db.items, r.db.items, ItemFlow.ItemOf(s.addItem.value.(photo2 := Some(f)), env.now))
  {
  }

  // -----------------------------------------------------------------------
  // 4. Bounds SQLite cannot store

  /** The reply "min max". */
  function BoundsReply(mn: int, mx: int): string {
    IntToString(mn) + " " + IntToString(mx)
  }

  /** A reply at the bounds question reaches the bounds handler. */
  lemma MinMaxStep(b: Build, env: Env, user: User, s: Session, db: Db, text: string)
    requires s.conv == Some(AdminAddMinMax)
    ensures Step(b, env, user, s, db, Text(text)) == Finish(s, BoundsStep(b, s, db, text))
  {
    var state := s.conv.value;
    BoundsText(b, env, user, s, db, state, text);
    assert Handle(b, env, user, s, db, state, Text(text)) == OnText(b, env, user, s, db, state, text);
  }

  lemma BoundsText(b: Build, env: Env, user: User, s: Session, db: Db, state: State, text: string)
    requires state == AdminAddMinMax
    ensures OnText(b, env, user, s, db, state, text) == Some(BoundsStep(b, s, db, text))
  {
  }

  /** As written: a maximum beyond 64 bits is accepted at the bounds
      question and stored in the draft. */
  lemma OversizedBoundsAccepted(env: Env, user: User, s: Session, db: Db, mn: int, mx: int)
    requires s.conv == Some(AdminAddMinMax) && s.addItem.Some?
    requires 1 <= mn <= mx && !FitsInt64(mx)
    ensures var r := Step(AsWritten, env, user, s, db, Text(BoundsReply(mn, mx)));
      r.session.conv == Some(AdminAddPhoto1) && r.session.addItem.Some? && r.session.addItem.value.maxQty == mx
  {
    var text := BoundsReply(mn, mx);
    ItemFlow.ReadMinMaxOfPair(mn, mx);
    assert ItemFlow.ReadMinMax(text) == Some((mn, mx));
    MinMaxStep(AsWritten, env, user, s, db, text);
    assert BoundsStep(AsWritten, s, db, text) == ItemFlow.MinMax(s, db, text);
  }

  /** As written: once at the second photo with such a maximum, no update
      other than /start saves the item or leaves the state. */
  lemma OversizedItemStuck(env: Env, user: User, s: Session, db: Db, e: Event)
    requires s.conv == Some(AdminAddPhoto2) && s.addItem.Some? && !FitsInt64(s.addItem.value.maxQty)
    requires e != Command("start")
    ensures var r := Step(AsWritten, env, user, s, db, e);
      r.session.conv == Some(AdminAddPhoto2) && r.db == db
      && r.session.addItem.Some? && r.session.addItem.value.maxQty == s.addItem.value.maxQty
  {
  }

  /** Corrected: such bounds are refused like any other bad reply, and the
      question is asked again; with the title fix, `FixedPhoto2Saves` then
      holds for every draft that reaches the second photo. */
  lemma FixedRefusesOversizedBounds(env: Env, user: User, s: Session, db: Db, mn: int, mx: int)
    requires s.conv == Some(AdminAddMinMax)
    requires 1 <= mn <= mx && !FitsInt64(mx)
    ensures Step(Fixed, env, user, s, db, Text(BoundsReply(mn, mx))) == Reaction(s, db, [Reply(BadMinMax)])
  {
    var text := BoundsReply(mn, mx);
    ItemFlow.ReadMinMaxOfPair(mn, mx);
    assert ItemFlow.ReadMinMax(text) == Some((mn, mx));
    MinMaxStep(Fixed, env, user, s, db, text);
    assert BoundsStep(Fixed, s, db, text) == ItemFlow.MinMaxFixed(s, db, text);
  }

  // -----------------------------------------------------------------------
  // Data of both kinds in one order

  /** A draft as it stands at the schedule question after a location and a
      handle were given. */
  predicate LocatedWithHandle(d: OrderDraft) {
    && d.deliveryType == Some(ByLocation) && d.lat.Some? && d.lng.Some?
    && d.contactType == Some(ByUsername) && d.tgUsername.Some?
  }

  /** A stored order holding an address and coordinates, and a phone and a
      handle. */
  predicate HoldsBothKinds(o: Order) {
    && o.addressText.Some? && o.latitude.Some? && o.longitude.Some?
    && o.phone.Some? && o.tgUsername.Some?
  }

  /** The "next" button of an earlier quantity keyboard, pressed at the
      schedule question, goes back to the delivery question and keeps the
      draft as it is. */
  lemma QtyNextAtSchedule(b: Build, env: Env, user: User, s: Session, db: Db)
    requires s.conv == Some(CustomerSchedule) && s.order.Some?
    ensures var r := Step(b, env, user, s, db, Callback(Encode(ChooseQty("next"))));
      r.session == s.(conv := Some(CustomerDelivery)) && r.db == db
  {
    DecodeEncode(ChooseQty("next"));
    assert OnCallback(b, env, user, s, db, Encode(ChooseQty("next"))) == OrderFlow.Qty(s, db, "next");
  }

  /** A typed address at the delivery question is recorded over whatever
      delivery the draft held; the coordinates stay. */
  lemma AddressAtDelivery(b: Build, env: Env, user: User, s: Session, db: Db, a: string)
    requires s.conv == Some(CustomerDelivery) && s.order.Some?
    requires Strip(a) != "" && Strip(a) != Keyboards.AddressKey
    ensures var r := Step(b, env, user, s, db, Text(a));
      && r.session == s.(conv := Some(CustomerContact),
                          order := Some(s.order.value.(deliveryType := Some(ByAddress), addressText := Some(Strip(a)))))
      && r.db == db
  {
    DeliveryStep(b, env, user, s, db, a);
    var t := OrderFlow.Delivery(s, db, None, Some(a));
    assert t.next == GoTo(CustomerContact);
  }

  /** A text at the delivery question reaches the delivery handler. */
  lemma DeliveryStep(b: Build, env: Env, user: User, s: Session, db: Db, text: string)
    requires s.conv == Some(CustomerDelivery)
    ensures Step(b, env, user, s, db, Text(text)) == Finish(s, OrderFlow.Delivery(s, db, None, Some(text)))
  {
    var state := s.conv.value;
    DeliveryText(b, env, user, s, db, state, text);
    assert Handle(b, env, user, s, db, state, Text(text)) == OnText(b, env, user, s, db, state, text);
  }

  lemma DeliveryText(b: Build, env: Env, user: User, s: Session, db: Db, state: State, text: string)
    requires state == CustomerDelivery
    ensures OnText(b, env, user, s, db, state, text) == Some(OrderFlow.Delivery(s, db, None, Some(text)))
  {
  }

  /** A shared phone number at the contact question is recorded over
      whatever contact the draft held; the handle stays. */
  lemma PhoneAtContact(b: Build, env: Env, user: User, s: Session, db: Db, p: string)
    requires s.conv == Some(CustomerContact) && s.order.Some? && p != ""
    ensures var r := Step(b, env, user, s, db, Contact(p));
      && r.session == s.(conv := Some(CustomerSchedule),
                          order := Some(s.order.value.(contactType := Some(ByPhone), phone := Some(p))))
      && r.db == db
  {
  }

  /** "now" at the schedule question stores the draft, on behalf of the
      bot as written and of the customer when corrected. */
  lemma NowStoresDraft(b: Build, env: Env, user: User, s: Session, db: Db)
    requires s.conv == Some(CustomerSchedule) && s.order.Some?
    requires s.order.value.deliveryType.Some? && s.order.value.contactType.Some?
    requires OrderFlow.Placeable(NowPicked(s).order.value, db) && Valid(db.orders)
    ensures var r := Step(b, env, user, s, db, Press("now"));
      AddsRow(db.orders, r.db.orders,
              OrderFlow.OrderOf(if b.AsWritten? then env.bot else user, NowPicked(s).order.value, env.now))
  {
    if b.AsWritten? {
      PressReachesRouter(AsWritten, env, user, s, db, "now");
      NowPlacesDraft(env, user, s, db, "now");
    } else {
      FixedNowFinalizes(env, user, s, db);
    }
  }

  /** In either build: after a location and a handle, pressing the old
      "next" button, typing an address, sharing a phone and pressing "now"
      stores one order that holds an address and coordinates, and a phone
      and a handle. */
  lemma BothKindsStored(b: Build, env: Env, user: User, s: Session, db: Db, a: string, p: string)
    requires s.conv == Some(CustomerSchedule) && s.order.Some? && LocatedWithHandle(s.order.value)
    requires Strip(a) != "" && Strip(a) != Keyboards.AddressKey && p != ""
    requires s.order.value.itemId in db.items.rows && Valid(db.orders)
    ensures
      var r1 := Step(b, env, user, s, db, Callback(Encode(ChooseQty("next"))));
      var r2 := Step(b, env, user, r1.session, r1.db, Text(a));
      var r3 := Step(b, env, user, r2.session, r2.db, Contact(p));
      var r4 := Step(b, env, user, r3.session, r3.db, Press("now"));
      && r4.db.orders.lastId !in db.orders.rows
      && r4.db.orders.lastId in r4.db.orders.rows
      && HoldsBothKinds(r4.db.orders.rows[r4.db.orders.lastId])
  {
    QtyNextAtSchedule(b, env, user, s, db);
    var r1 := Step(b, env, user, s, db, Callback(Encode(ChooseQty("next"))));
    AddressAtDelivery(b, env, user, r1.session, r1.db, a);
    var r2 := Step(b, env, user, r1.session, r1.db, Text(a));
    PhoneAtContact(b, env, user, r2.session, r2.db, p);
    var r3 := Step(b, env, user, r2.session, r2.db, Contact(p));
    var d := NowPicked(r3.session).order.value;
    assert OrderFlow.Placeable(d, db);
    NowStoresDraft(b, env, user, r3.session, r3.db);
    var o := OrderFlow.OrderOf(if b.AsWritten? then env.bot else user, d, env.now);
    assert HoldsBothKinds(o);
  }
}
