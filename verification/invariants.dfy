/**
 What every reachable configuration of the bot satisfies, and the proof
 that each update preserves it: the tables keep valid ids; every item has
 bounds 1 <= min <= max and a price that is not negative; every order names
 an existing item, orders a quantity within that item's bounds, and has the
 details its delivery and contact kinds name; the drafts obey the same
 rules; and each conversation state has the draft fields the earlier steps
 of its dialogue filled in.
 */
module Invariants {
  import opened Base
  import opened PyStr
  import opened Model
  import opened Store
  import opened Router
  import opened Conversation
  import ItemFlow
  import OrderFlow
  import Admin

  predicate BoundsOk(minQty: int, maxQty: int) {
    1 <= minQty <= maxQty
  }

  predicate ItemOk(it: Item) {
    BoundsOk(it.minQty, it.maxQty) && FitsInt64(it.maxQty) && !it.price.IsNegative()
  }

  predicate ItemDraftOk(d: ItemDraft) {
    BoundsOk(d.minQty, d.maxQty) && !d.price.IsNegative()
  }

  /** A delivery kind comes with what it names. */
  predicate DeliveryOk(kind: Option<DeliveryKind>, addressText: Option<string>, lat: Option<real>, lng: Option<real>) {
    && (kind == Some(ByLocation) ==> lat.Some? && lng.Some?)
    && (kind == Some(ByAddress) ==> addressText.Some?)
  }

  /** A contact kind comes with a non-empty phone or an "@" handle. */
  predicate ContactOk(kind: Option<ContactKind>, phone: Option<string>, tgUsername: Option<string>) {
    && (kind == Some(ByPhone) ==> phone.Some? && phone.value != "")
    && (kind == Some(ByUsername) ==> tgUsername.Some? && StartsWith(tgUsername.value, "@"))
  }

  /** The quantity lies within the bounds of an item that exists. */
  predicate QtyOk(itemId: int, qty: int, items: Table<Item>) {
    itemId in items.rows && items.rows[itemId].minQty <= qty <= items.rows[itemId].maxQty
  }

  predicate OrderOk(o: Order, items: Table<Item>) {
    && QtyOk(o.itemId, o.qty, items)
    && DeliveryOk(Some(o.deliveryType), o.addressText, o.latitude, o.longitude)
    && ContactOk(o.contactType, o.phone, o.tgUsername)
  }

  /** The draft copies the bounds of an item that exists. */
  predicate OrderDraftOk(d: OrderDraft, items: Table<Item>) {
    && QtyOk(d.itemId, d.qty, items)
    && d.minQty == items.rows[d.itemId].minQty && d.maxQty == items.rows[d.itemId].maxQty
    && DeliveryOk(d.deliveryType, d.addressText, d.lat, d.lng)
    && ContactOk(d.contactType, d.phone, d.tgUsername)
  }

  ghost predicate DbOk(b: Build, db: Db) {
    && Valid(db.items) && Valid(db.orders)
    && (forall id :: id in db.items.rows ==> ItemOk(db.items.rows[id]))
    && (forall id :: id in db.orders.rows ==> OrderOk(db.orders.rows[id], db.items))
    && (b.Fixed? ==> forall id :: id in db.orders.rows ==> db.orders.rows[id].contactType.Some?)
  }

  predicate DraftsOk(s: Session, items: Table<Item>) {
    && (s.addItem.Some? ==> ItemDraftOk(s.addItem.value))
    && (s.order.Some? ==> OrderDraftOk(s.order.value, items))
  }

  predicate InAddItem(c: Option<State>) {
    c == Some(AdminAddTitle) || AfterTitle(c)
  }

  predicate AfterTitle(c: Option<State>) {
    c == Some(AdminAddDesc) || c == Some(AdminAddPrice) || c == Some(AdminAddMinMax)
    || c == Some(AdminAddPhoto1) || c == Some(AdminAddPhoto2)
  }

  predicate InOrder(c: Option<State>) {
    c == Some(CustomerPickQty) || c == Some(CustomerDelivery) || c == Some(CustomerAddressText) || AfterDelivery(c)
    || c == Some(CustomerScheduleTime)
  }

  predicate AfterDelivery(c: Option<State>) {
    c == Some(CustomerContact) || c == Some(CustomerPhone) || c == Some(CustomerSchedule)
  }

  /** What each state knows about the drafts. The time question can be
      reached from any state that takes buttons, so only the corrected
      build knows that its draft has a delivery place and a contact. */
  predicate StateOk(b: Build, s: Session) {
    && (InAddItem(s.conv) ==> s.addItem.Some?)
    && (AfterTitle(s.conv) ==> s.addItem.value.title.Some?)
    && (AfterTitle(s.conv) && b.Fixed? ==> s.addItem.value.category.Some?)
    && (s.conv == Some(AdminAddPhoto2) ==> s.addItem.value.photo1.Some?)
    && ((s.conv == Some(AdminAddPhoto1) || s.conv == Some(AdminAddPhoto2)) && b.Fixed? ==>
          FitsInt64(s.addItem.value.maxQty))
    && (InOrder(s.conv) ==> s.order.Some?)
    && (AfterDelivery(s.conv) ==> s.order.value.deliveryType.Some?)
    && (s.conv == Some(CustomerSchedule) ==> s.order.value.contactType.Some?)
    && (s.conv == Some(CustomerScheduleTime) ==> s.order.value.scheduleType.Some?)
    && (s.conv == Some(CustomerScheduleTime) && b.Fixed? ==>
          s.order.value.deliveryType.Some? && s.order.value.contactType.Some?)
  }

  ghost predicate Inv(b: Build, s: Session, db: Db) {
    DbOk(b, db) && DraftsOk(s, db.items) && StateOk(b, s)
  }

  /** The configuration before the first update: no conversation, no
      drafts, empty tables. */
  lemma InitialInv(b: Build)
    ensures Inv(b, Session(None, None, None), Db(EmptyTable(), EmptyTable()))
  {
  }

  /** A turn that, applied to the session it came from, keeps the invariant. */
  ghost predicate TurnOk(b: Build, s: Session, t: Turn) {
    var r := Finish(s, t);
    Inv(b, r.session, r.db)
  }

  // -----------------------------------------------------------------------
  // The catalogue only grows, and bounds never change

  /** Every item of `before` is still in `after`, with the same bounds. */
  ghost predicate SameBounds(before: Table<Item>, after: Table<Item>) {
    forall id :: id in before.rows ==>
      id in after.rows && after.rows[id].minQty == before.rows[id].minQty && after.rows[id].maxQty == before.rows[id].maxQty
  }

  lemma {:induction false} OrdersKeepItems(orders: Table<Order>, before: Table<Item>, after: Table<Item>)
    requires SameBounds(before, after)
    requires forall id :: id in orders.rows ==> OrderOk(orders.rows[id], before)
    ensures forall id :: id in orders.rows ==> OrderOk(orders.rows[id], after)
  {
    forall id | id in orders.rows
      ensures OrderOk(orders.rows[id], after)
    {
      assert QtyOk(orders.rows[id].itemId, orders.rows[id].qty, before);
    }
  }

  lemma DraftsKeepItems(s: Session, before: Table<Item>, after: Table<Item>)
    requires SameBounds(before, after) && DraftsOk(s, before)
    ensures DraftsOk(s, after)
  {
    if s.order.Some? {
      assert s.order.value.itemId in before.rows;
    }
  }

  // -----------------------------------------------------------------------
  // The add-item dialogue

  lemma AddStartOk(b: Build, s: Session, db: Db)
    requires Inv(b, s, db)
    ensures TurnOk(b, s, ItemFlow.AddStart(s, db))
  {
  }

  lemma ItemPickCategoryOk(b: Build, s: Session, db: Db, c: string)
    requires Inv(b, s, db)
    ensures TurnOk(b, s, ItemFlow.PickCategory(s, db, c))
  {
  }

  lemma TitleOk(b: Build, s: Session, db: Db, text: string)
    requires Inv(b, s, db) && s.conv == Some(AdminAddTitle)
    ensures TurnOk(b, s, TitleStep(b, s, db, text))
  {
  }

  lemma DescriptionOk(b: Build, s: Session, db: Db, text: string)
    requires Inv(b, s, db) && s.conv == Some(AdminAddDesc)
    ensures TurnOk(b, s, ItemFlow.Description(s, db, text))
  {
  }

  lemma PriceOk(b: Build, env: Env, s: Session, db: Db, text: string)
    requires Inv(b, s, db) && s.conv == Some(AdminAddPrice)
    ensures TurnOk(b, s, ItemFlow.Price(env, s, db, text))
  {
  }

  lemma MinMaxOk(b: Build, s: Session, db: Db, text: string)
    requires Inv(b, s, db) && s.conv == Some(AdminAddMinMax)
    ensures TurnOk(b, s, BoundsStep(b, s, db, text))
  {
    match ItemFlow.ReadMinMax(text)
    case None =>
    case Some(bounds) =>
      var d := s.addItem.value.(minQty := bounds.0, maxQty := bounds.1);
      assert ItemFlow.MinMax(s, db, text) == Turn(GoTo(AdminAddPhoto1), Some(d), s.order, db, [Reply(AskPhoto1)]);
      if b.AsWritten? || FitsInt64(bounds.1) {
        NewBoundsOk(b, s, db, d);
      }
  }

  lemma NewBoundsOk(b: Build, s: Session, db: Db, d: ItemDraft)
    requires Inv(b, s, db) && s.conv == Some(AdminAddMinMax) && BoundsOk(d.minQty, d.maxQty)
    requires b.Fixed? ==> FitsInt64(d.maxQty)
    requires s.addItem == Some(d.(minQty := s.addItem.value.minQty, maxQty := s.addItem.value.maxQty))
    ensures TurnOk(b, s, Turn(GoTo(AdminAddPhoto1), Some(d), s.order, db, [Reply(AskPhoto1)]))
  {
  }

  lemma Photo1Ok(b: Build, s: Session, db: Db, f: string)
    requires Inv(b, s, db) && s.conv == Some(AdminAddPhoto1)
    ensures TurnOk(b, s, ItemFlow.Photo1(s, db, f))
  {
  }

  lemma Photo2Ok(b: Build, env: Env, s: Session, db: Db, f: string)
    requires Inv(b, s, db) && s.conv == Some(AdminAddPhoto2)
    ensures TurnOk(b, s, ItemFlow.Photo2(env, s, db, f))
  {
    var t := ItemFlow.Photo2(env, s, db, f);
    if t.next == GoTo(AdminMenu) {
      var items := t.db.items;
      assert AddsRow(db.items, items, ItemFlow.ItemOf(t.addItem.value, env.now));
      assert SameBounds(db.items, items);
      OrdersKeepItems(db.orders, db.items, items);
      DraftsKeepItems(s, db.items, items);
      forall id | id in items.rows
        ensures ItemOk(items.rows[id])
      {
        if id !in db.items.rows {
          assert id == items.lastId;
        }
      }
    }
  }

  // -----------------------------------------------------------------------
  // The administrator's views

  lemma ShowCategoryOk(b: Build, s: Session, db: Db, c: string)
    requires Inv(b, s, db)
    ensures TurnOk(b, s, Admin.ShowCategory(s, db, c))
  {
  }

  lemma ListOrdersOk(b: Build, s: Session, db: Db)
    requires Inv(b, s, db)
    ensures TurnOk(b, s, Admin.ListOrders(s, db))
  {
  }

  lemma ToggleOk(b: Build, s: Session, db: Db, id: int)
    requires Inv(b, s, db)
    ensures TurnOk(b, s, Admin.Toggle(s, db, id))
  {
    var t := Admin.Toggle(s, db, id);
    if id in db.items.rows {
      assert SameBounds(db.items, t.db.items);
      OrdersKeepItems(db.orders, db.items, t.db.items);
      DraftsKeepItems(s, db.items, t.db.items);
    }
  }

  lemma SetStatusOk(b: Build, env: Env, s: Session, db: Db, id: int, st: string)
    requires Inv(b, s, db)
    ensures TurnOk(b, s, Admin.SetStatus(env, s, db, id, st))
  {
  }

  // -----------------------------------------------------------------------
  // The customer's dialogue

  lemma BrowseOk(b: Build, s: Session, db: Db, c: string)
    requires Inv(b, s, db)
    ensures TurnOk(b, s, OrderFlow.PickCategory(s, db, c))
  {
  }

  lemma OpenItemOk(b: Build, s: Session, db: Db, id: int)
    requires Inv(b, s, db)
    ensures TurnOk(b, s, OrderFlow.OpenItem(s, db, id))
  {
    if id in db.items.rows && db.items.rows[id].isActive {
      assert ItemOk(db.items.rows[id]);
    }
  }

  lemma ChooseQtyOk(b: Build, s: Session, db: Db, x: string)
    requires Inv(b, s, db)
    ensures TurnOk(b, s, OrderFlow.Qty(s, db, x))
  {
    if s.order.Some? && x != "next" {
      var t := OrderFlow.Qty(s, db, x);
      assert t == Turn(GoTo(CustomerPickQty), s.addItem, t.order, db, t.effects);
      NewQtyOk(b, s, db, t.order.value, t.effects);
    }
  }

  lemma NewQtyOk(b: Build, s: Session, db: Db, d: OrderDraft, es: seq<Effect>)
    requires Inv(b, s, db) && s.order.Some? && s.order == Some(d.(qty := s.order.value.qty)) && d.minQty <= d.qty <= d.maxQty
    ensures TurnOk(b, s, Turn(GoTo(CustomerPickQty), s.addItem, Some(d), db, es))
  {
  }

  lemma DeliveryStepOk(b: Build, s: Session, db: Db, location: Option<(real, real)>, text: Option<string>)
    requires Inv(b, s, db) && s.conv == Some(CustomerDelivery)
    ensures TurnOk(b, s, OrderFlow.Delivery(s, db, location, text))
  {
  }

  lemma AddressTextOk(b: Build, s: Session, db: Db, text: string)
    requires Inv(b, s, db) && s.conv == Some(CustomerAddressText)
    ensures TurnOk(b, s, OrderFlow.AddressText(s, db, text))
  {
  }

  lemma ContactStepOk(b: Build, s: Session, db: Db, shared: Option<string>, text: Option<string>)
    requires Inv(b, s, db) && s.conv == Some(CustomerContact)
    ensures TurnOk(b, s, OrderFlow.Contact(s, db, shared, text))
  {
    if shared.Some? && shared.value != "" {
      SharedContactOk(b, s, db, shared, text);
    } else {
      TypedContactOk(b, s, db, shared, text);
    }
  }

  /** A shared phone number is recorded as the contact. */
  lemma SharedContactOk(b: Build, s: Session, db: Db, shared: Option<string>, text: Option<string>)
    requires Inv(b, s, db) && s.conv == Some(CustomerContact)
    requires shared.Some? && shared.value != ""
    ensures TurnOk(b, s, OrderFlow.Contact(s, db, shared, text))
  {
    var d' := s.order.value.(contactType := Some(ByPhone), phone := shared);
    assert OrderFlow.Contact(s, db, shared, text) == OrderFlow.AskForSchedule(s, db, d');
    ScheduleAskedOk(b, s, db, d');
  }

  /** Typed text is either the handle button, a handle, or asked again. */
  lemma TypedContactOk(b: Build, s: Session, db: Db, shared: Option<string>, text: Option<string>)
    requires Inv(b, s, db) && s.conv == Some(CustomerContact)
    requires !(shared.Some? && shared.value != "")
    ensures TurnOk(b, s, OrderFlow.Contact(s, db, shared, text))
  {
    var txt := Strip(text.GetOr(""));
    if txt != Keyboards.HandleKey && StartsWith(txt, "@") {
      var d' := s.order.value.(contactType := Some(ByUsername), tgUsername := Some(txt));
      assert OrderFlow.Contact(s, db, shared, text) == OrderFlow.AskForSchedule(s, db, d');
      ScheduleAskedOk(b, s, db, d');
    }
  }

  /** Moving on to the schedule question with a draft that has gained a
      valid contact keeps the invariant. */
  lemma ScheduleAskedOk(b: Build, s: Session, db: Db, d: OrderDraft)
    requires Inv(b, s, db) && s.order.Some? && s.order.value.deliveryType.Some?
    requires d == s.order.value.(contactType := d.contactType, phone := d.phone, tgUsername := d.tgUsername)
    requires d.contactType.Some? && ContactOk(d.contactType, d.phone, d.tgUsername)
    ensures TurnOk(b, s, OrderFlow.AskForSchedule(s, db, d))
  {
  }

  lemma HandleOk(b: Build, s: Session, db: Db, text: string)
    requires Inv(b, s, db) && s.conv == Some(CustomerPhone)
    ensures TurnOk(b, s, OrderFlow.Handle(s, db, text))
  {
    var txt := Strip(text);
    if StartsWith(txt, "@") {
      var d' := s.order.value.(contactType := Some(ByUsername), tgUsername := Some(txt));
      assert OrderFlow.Handle(s, db, text) == OrderFlow.AskForSchedule(s, db, d');
      ScheduleAskedOk(b, s, db, d');
    }
  }

  /** Placing an order keeps the invariant whatever state it happens in,
      provided (in the corrected build) the draft names a contact. */
  lemma FinalizeOk(b: Build, env: Env, orderer: User, s: Session, db: Db)
    requires DbOk(b, db) && DraftsOk(s, db.items) && StateOk(b, s)
    requires b.Fixed? && s.order.Some? ==> s.order.value.contactType.Some?
    ensures TurnOk(b, s, OrderFlow.Finalize(env, orderer, s, db))
  {
    if s.order.Some? && OrderFlow.Placeable(s.order.value, db) {
      NewOrderOk(b, env, orderer, s, db);
    }
  }

  lemma NewOrderOk(b: Build, env: Env, orderer: User, s: Session, db: Db)
    requires DbOk(b, db) && DraftsOk(s, db.items) && StateOk(b, s)
    requires s.order.Some? && OrderFlow.Placeable(s.order.value, db)
    requires b.Fixed? ==> s.order.value.contactType.Some?
    ensures TurnOk(b, s, OrderFlow.Finalize(env, orderer, s, db))
  {
    var t := OrderFlow.Finalize(env, orderer, s, db);
    var o := OrderFlow.OrderOf(orderer, s.order.value, env.now);
    assert OrderOk(o, db.items);
    assert Valid(t.db.orders) && AddsRow(db.orders, t.db.orders, o);
    NewRowOk(b, db, t.db.orders, o);
    assert t.db == db.(orders := t.db.orders);
  }

  lemma NewRowOk(b: Build, db: Db, orders: Table<Order>, o: Order)
    requires DbOk(b, db) && Valid(orders) && AddsRow(db.orders, orders, o) && OrderOk(o, db.items)
    requires b.Fixed? ==> o.contactType.Some?
    ensures DbOk(b, db.(orders := orders))
  {
    forall id | id in orders.rows
      ensures OrderOk(orders.rows[id], db.items)
      ensures b.Fixed? ==> orders.rows[id].contactType.Some?
    {
      if id !in db.orders.rows {
        assert id == orders.lastId;
      }
    }
  }

  lemma SchedulePickOk(env: Env, s: Session, db: Db, k: string)
    requires Inv(AsWritten, s, db)
    ensures TurnOk(AsWritten, s, OrderFlow.SchedulePick(env, s, db, k))
  {
    if s.order.Some? && k == "now" {
      var s' := s.(order := Some(s.order.value.(scheduleType := Some(k), scheduledTimeText := None)));
      FinalizeOk(AsWritten, env, env.bot, s', db);
    }
  }

  lemma SchedulePickFixedOk(env: Env, user: User, s: Session, db: Db, k: string)
    requires Inv(Fixed, s, db)
    ensures TurnOk(Fixed, s, OrderFlow.SchedulePickFixed(env, user, s, db, k))
  {
    if s.order.Some? && s.order.value.deliveryType.Some? && s.order.value.contactType.Some? && k == "now" {
      var s' := s.(order := Some(s.order.value.(scheduleType := Some(k), scheduledTimeText := None)));
      FinalizeOk(Fixed, env, user, s', db);
    }
  }

  lemma ScheduleTimeOk(b: Build, env: Env, user: User, s: Session, db: Db, text: string)
    requires Inv(b, s, db) && s.conv == Some(CustomerScheduleTime)
    ensures TurnOk(b, s, OrderFlow.ScheduleTime(env, user, s, db, text))
  {
    var s' := s.(order := Some(s.order.value.(scheduledTimeText := Some(Strip(text)))));
    FinalizeOk(b, env, user, s', db);
  }

  // -----------------------------------------------------------------------
  // Dispatch

  lemma PerformOk(b: Build, env: Env, user: User, s: Session, db: Db, a: Action)
    requires Inv(b, s, db)
    ensures TurnOk(b, s, Perform(b, env, user, s, db, a))
  {
    match a
    case StartAdd => AddStartOk(b, s, db);
    case PickAddCategory(c) => ItemPickCategoryOk(b, s, db, c);
    case ShowCategory(c) => ShowCategoryOk(b, s, db, c);
    case ToggleItem(id) => ToggleOk(b, s, db, id);
    case ListOrders => ListOrdersOk(b, s, db);
    case SetStatus(id, st) => SetStatusOk(b, env, s, db, id, st);
    case BrowseCategory(c) => BrowseOk(b, s, db, c);
    case OpenItem(id) => OpenItemOk(b, s, db, id);
    case ChooseQty(x) => ChooseQtyOk(b, s, db, x);
    case PickSchedule(k) =>
      if b.AsWritten? {
        SchedulePickOk(env, s, db, k);
      } else {
        SchedulePickFixedOk(env, user, s, db, k);
      }
  }

  lemma AdminTextOk(b: Build, env: Env, s: Session, db: Db, text: string)
    requires Inv(b, s, db) && s.conv.Some?
    requires s.conv.value.AdminAddTitle? || s.conv.value.AdminAddDesc? || s.conv.value.AdminAddPrice? || s.conv.value.AdminAddMinMax?
    ensures TurnOk(b, s, OnText(b, env, env.bot, s, db, s.conv.value, text).value)
  {
    match s.conv.value
    case AdminAddTitle => TitleOk(b, s, db, text);
    case AdminAddDesc => DescriptionOk(b, s, db, text);
    case AdminAddPrice => PriceOk(b, env, s, db, text);
    case AdminAddMinMax => MinMaxOk(b, s, db, text);
  }

  lemma CustomerTextOk(b: Build, env: Env, user: User, s: Session, db: Db, text: string)
    requires Inv(b, s, db) && s.conv.Some? && OnText(b, env, user, s, db, s.conv.value, text).Some?
    requires !(s.conv.value.AdminAddTitle? || s.conv.value.AdminAddDesc? || s.conv.value.AdminAddPrice? || s.conv.value.AdminAddMinMax?)
    ensures TurnOk(b, s, OnText(b, env, user, s, db, s.conv.value, text).value)
  {
    match s.conv.value
    case CustomerBrowse => BrowseTextOk(b, env, user, s, db, text);
    case CustomerDelivery => DeliveryStepOk(b, s, db, None, Some(text));
    case CustomerAddressText => AddressTextOk(b, s, db, text);
    case CustomerContact => ContactStepOk(b, s, db, None, Some(text));
    case CustomerPhone => HandleOk(b, s, db, text);
    case CustomerScheduleTime => ScheduleTimeOk(b, env, user, s, db, text);
  }

  /** The menu texts on the browsing screen start over. */
  lemma BrowseTextOk(b: Build, env: Env, user: User, s: Session, db: Db, text: string)
    requires Inv(b, s, db) && s.conv == Some(CustomerBrowse) && IsHomeText(text)
    ensures TurnOk(b, s, OnText(b, env, user, s, db, CustomerBrowse, text).value)
  {
    var t := Start(env, user, s, db);
    assert OnText(b, env, user, s, db, CustomerBrowse, text) == Some(t);
    var home := if IsAdmin(env, user) then AdminMenu else CustomerBrowse;
    assert Finish(s, t).session == s.(conv := Some(home)) && Finish(s, t).db == db;
    HomeOk(b, s, db, home);
  }

  /** Staying in the same state, or ending the conversation, with the
      session and tables unchanged keeps the invariant. */
  lemma KeepOk(b: Build, s: Session, db: Db, next: Next)
    requires Inv(b, s, db) && (next.Raised? || next.End?)
    ensures TurnOk(b, s, Keep(s, db, next, []))
  {
  }

  lemma OnCallbackPerforms(b: Build, env: Env, user: User, s: Session, db: Db, data: string, a: Action)
    requires Decode(data) == Act(a)
    ensures OnCallback(b, env, user, s, db, data) == Perform(b, env, user, s, db, a)
  {
  }

  lemma CallbackOk(b: Build, env: Env, user: User, s: Session, db: Db, data: string)
    requires Inv(b, s, db)
    ensures TurnOk(b, s, OnCallback(b, env, user, s, db, data))
  {
    match Decode(data)
    case Act(a) =>
      PerformOk(b, env, user, s, db, a);
      OnCallbackPerforms(b, env, user, s, db, data, a);
    case Malformed(_) =>
      KeepOk(b, s, db, Raised);
      assert OnCallback(b, env, user, s, db, data) == Keep(s, db, Raised, []);
    case NotRouted =>
      KeepOk(b, s, db, End);
      assert OnCallback(b, env, user, s, db, data) == Keep(s, db, End, []);
  }

  lemma HandleTurnOk(b: Build, env: Env, user: User, s: Session, db: Db, e: Event)
    requires Inv(b, s, db) && s.conv.Some? && Handle(b, env, user, s, db, s.conv.value, e).Some?
    ensures TurnOk(b, s, Handle(b, env, user, s, db, s.conv.value, e).value)
  {
    var state := s.conv.value;
    match e
    case Callback(data) => CallbackOk(b, env, user, s, db, data);
    case Text(text) =>
      if state.AdminAddTitle? || state.AdminAddDesc? || state.AdminAddPrice? || state.AdminAddMinMax? {
        AdminTextOk(b, env, s, db, text);
        assert OnText(b, env, user, s, db, state, text) == OnText(b, env, env.bot, s, db, state, text);
      } else {
        CustomerTextOk(b, env, user, s, db, text);
      }
    case Photo(f) =>
      if state.AdminAddPhoto1? {
        Photo1Ok(b, s, db, f);
      } else {
        Photo2Ok(b, env, s, db, f);
      }
    case Location(la, lo) => DeliveryStepOk(b, s, db, Some((la, lo)), None);
    case Contact(p) => ContactStepOk(b, s, db, Some(p), None);
  }

  /** Every update keeps the invariant. */
  lemma StepPreservesInv(b: Build, env: Env, user: User, s: Session, db: Db, e: Event)
    requires Inv(b, s, db)
    ensures Inv(b, Step(b, env, user, s, db, e).session, Step(b, env, user, s, db, e).db)
  {
    if e == Command("start") {
      StartOk(b, env, user, s, db);
    } else if s.conv.Some? && Handle(b, env, user, s, db, s.conv.value, e).Some? {
      HandledOk(b, env, user, s, db, e);
    } else {
      assert Step(b, env, user, s, db, e) == Reaction(s, db, []);
    }
  }

  lemma StartOk(b: Build, env: Env, user: User, s: Session, db: Db)
    requires Inv(b, s, db)
    ensures var r := Step(b, env, user, s, db, Command("start")); Inv(b, r.session, r.db)
  {
    var r := Step(b, env, user, s, db, Command("start"));
    var home := if IsAdmin(env, user) then AdminMenu else CustomerBrowse;
    assert r.session == s.(conv := Some(home)) && r.db == db;
    HomeOk(b, s, db, home);
  }

  /** Going back to a menu keeps the drafts, and the invariant. */
  lemma HomeOk(b: Build, s: Session, db: Db, home: State)
    requires Inv(b, s, db) && (home == AdminMenu || home == CustomerBrowse)
    ensures Inv(b, s.(conv := Some(home)), db)
  {
  }

  lemma HandledOk(b: Build, env: Env, user: User, s: Session, db: Db, e: Event)
    requires Inv(b, s, db) && e != Command("start") && s.conv.Some? && Handle(b, env, user, s, db, s.conv.value, e).Some?
    ensures var r := Step(b, env, user, s, db, e); Inv(b, r.session, r.db)
  {
    HandleTurnOk(b, env, user, s, db, e);
    assert Step(b, env, user, s, db, e) == Finish(s, Handle(b, env, user, s, db, s.conv.value, e).value);
  }

  /** Every sequence of updates keeps the invariant. */
  lemma {:induction false} RunPreservesInv(b: Build, env: Env, user: User, s: Session, db: Db, events: seq<Event>)
    requires Inv(b, s, db)
    ensures Inv(b, Run(b, env, user, s, db, events).session, Run(b, env, user, s, db, events).db)
    decreases |events|
  {
    if events != [] {
      var r := Step(b, env, user, s, db, events[0]);
      StepPreservesInv(b, env, user, s, db, events[0]);
      RunPreservesInv(b, env, user, r.session, r.db, events[1..]);
    }
  }
}
