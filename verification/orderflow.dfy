/**
 The customer's dialogue: browse a category, open an item, pick a
 quantity, give a delivery place and a contact, choose a time, and the
 order is written to `orders` and announced to the administrator. The
 steps keep their progress in the draft `user_data["order"]`.
 */
module OrderFlow {
  import opened Base
  import opened PyStr
  import opened Model
  import opened Store
  import opened Keyboards

  /** How many items the customer's listing shows at most. */
  const BrowseLimit: nat := 25

  /** The outcome when the order draft is missing: the customer is sent
      back to browsing. */
  function Missing(s: Session, db: Db): Turn {
    Keep(s, db, GoTo(CustomerBrowse), [Reply(SessionMissing)])
  }

  // -----------------------------------------------------------------------
  // cust_pick_cat

  predicate OnSale(category: string, it: Item) {
    it.category == category && it.isActive
  }

  /** The items listed for `category`: active ones, newest first, at most
      `BrowseLimit` of them. */
  function Offers(db: Db, category: string): seq<int> {
    NewestFirst(db.items, (it: Item) => OnSale(category, it), BrowseLimit)
  }

  function OfferCards(ids: seq<int>): (es: seq<Effect>)
    ensures |es| == |ids|
    ensures forall i :: 0 <= i < |ids| ==> es[i] == Say(ThisChat, ItemOffer(ids[i]), OrderItemKeyboard(ids[i]))
  {
    seq(|ids|, i requires 0 <= i < |ids| => Say(ThisChat, ItemOffer(ids[i]), OrderItemKeyboard(ids[i])))
  }

  /** `cust_pick_cat`: one card with an order button per listed item, or a
      note that the category is empty. Nothing else changes. */
  function PickCategory(s: Session, db: Db, category: string): (t: Turn)
    ensures t.next == GoTo(CustomerBrowse) && t.db == db && t.addItem == s.addItem && t.order == s.order
    ensures |t.effects| <= BrowseLimit || t.effects == [Reply(CategoryEmpty)]
    ensures forall e <- t.effects :: e.Say? && e.msg.ItemOffer? ==>
      e.msg.itemId in db.items.rows && OnSale(category, db.items.rows[e.msg.itemId])
  {
    var ids := Offers(db, category);
    Keep(s, db, GoTo(CustomerBrowse), if ids == [] then [Reply(CategoryEmpty)] else OfferCards(ids))
  }

  /** Every item on sale in the category is offered, unless the listing is
      full of newer ones; the category is reported empty exactly when
      nothing in it is on sale. */
  lemma BrowseIsComplete(s: Session, db: Db, category: string, id: int)
    requires Valid(db.items)
    requires id in db.items.rows && OnSale(category, db.items.rows[id])
    ensures var t := PickCategory(s, db, category);
      Say(ThisChat, ItemOffer(id), OrderItemKeyboard(id)) in t.effects || |t.effects| == BrowseLimit
  {
    var ids := Offers(db, category);
    assert ListedOrCutOff(ids, BrowseLimit, id);
    if id in ids {
      var k :| 0 <= k < |ids| && ids[k] == id;
      assert OfferCards(ids)[k] == Say(ThisChat, ItemOffer(id), OrderItemKeyboard(id));
    }
  }

  // -----------------------------------------------------------------------
  // cust_open_item

  /** The draft an opened item starts: its bounds, the smallest quantity,
      nothing else chosen. */
  function DraftFor(itemId: int, it: Item): (d: OrderDraft)
    ensures d.itemId == itemId && d.qty == it.minQty && d.minQty == it.minQty && d.maxQty == it.maxQty
    ensures d.deliveryType.None? && d.contactType.None? && d.scheduleType.None?
  {
    OrderDraft(itemId, it.minQty, it.minQty, it.maxQty, None, None, None, None, None, None, None, None, None)
  }

  /** `cust_open_item`: an active item replaces any earlier order draft and
      is shown with its two photos and the quantity keyboard; any other id
      SQLite can bind goes back to browsing, and one it cannot raises. */
  function OpenItem(s: Session, db: Db, itemId: int): (t: Turn)
    ensures t.db == db && t.addItem == s.addItem
    ensures t.next == Raised <==> !FitsInt64(itemId)
    ensures t.next == Raised ==> t == Keep(s, db, Raised, [])
    ensures t.next == GoTo(CustomerPickQty) <==> FitsInt64(itemId) && itemId in db.items.rows && db.items.rows[itemId].isActive
    ensures t.next == GoTo(CustomerPickQty) ==> t.order == Some(DraftFor(itemId, db.items.rows[itemId]))
    ensures FitsInt64(itemId) && t.next != GoTo(CustomerPickQty) ==>
      t == Keep(s, db, GoTo(CustomerBrowse), [Reply(ItemUnavailable)])
  {
    if !FitsInt64(itemId) then Keep(s, db, Raised, [])
    else if itemId !in db.items.rows || !db.items.rows[itemId].isActive then
      Keep(s, db, GoTo(CustomerBrowse), [Reply(ItemUnavailable)])
    else
      var it := db.items.rows[itemId];
      Turn(GoTo(CustomerPickQty), s.addItem, Some(DraftFor(itemId, it)), db,
           [SendAlbum(it.photo1, it.photo2, ItemCaption(itemId)),
            Say(ThisChat, ChooseQuantity, QtyKeyboard(it.minQty, it.maxQty, it.minQty))])
  }

  // -----------------------------------------------------------------------
  // cust_qty

  /** `cust_qty`: "next" moves on to delivery; a quantity within the
      draft's bounds is recorded and ticked on the keyboard; one outside is
      refused; an unreadable one is ignored without a reply. */
  function Qty(s: Session, db: Db, choice: string): (t: Turn)
    ensures t.db == db && t.addItem == s.addItem
    ensures s.order.None? ==> t == Missing(s, db)
    ensures s.order.Some? && choice == "next" ==>
      t == Keep(s, db, GoTo(CustomerDelivery), [Say(ThisChat, AskDelivery, DeliveryKeyboard())])
    ensures s.order.Some? && choice != "next" ==>
      && t.next == GoTo(CustomerPickQty)
      && t.order.Some? && t.order.value == s.order.value.(qty := t.order.value.qty)
      && (t.order.value.qty == s.order.value.qty
          || (ParseInt(choice) == Some(t.order.value.qty)
              && s.order.value.minQty <= t.order.value.qty <= s.order.value.maxQty))
  {
    match s.order
    case None => Missing(s, db)
    case Some(d) =>
      if choice == "next" then Keep(s, db, GoTo(CustomerDelivery), [Say(ThisChat, AskDelivery, DeliveryKeyboard())])
      else match ParseInt(choice)
        case None => Keep(s, db, GoTo(CustomerPickQty), [])
        case Some(q) =>
          if q < d.minQty || q > d.maxQty then Keep(s, db, GoTo(CustomerPickQty), [Reply(QtyOutOfRange)])
          else Turn(GoTo(CustomerPickQty), s.addItem, Some(d.(qty := q)), db,
                    [EditKeyboard(QtyKeyboard(d.minQty, d.maxQty, q))])
  }

  /** Pressing a quantity button of the keyboard records that quantity and
      re-draws the keyboard with it ticked. */
  lemma QtyButtonSetsQty(s: Session, db: Db, q: int, current: int)
    requires s.order.Some? && s.order.value.minQty <= q <= s.order.value.maxQty
    ensures var t := Qty(s, db, IntToString(q));
      t.order == Some(s.order.value.(qty := q))
      && t.effects == [EditKeyboard(QtyKeyboard(s.order.value.minQty, s.order.value.maxQty, q))]
  {
    IntToStringRoundTrip(q);
    IntToStringChars(q);
  }

  // -----------------------------------------------------------------------
  // cust_delivery, cust_address_text

  /** `cust_delivery`, given the message's location and text: a location
      is recorded as such; the address key asks for the address; any other
      non-blank text is taken as the address; blank text is asked again. */
  function Delivery(s: Session, db: Db, location: Option<(real, real)>, text: Option<string>): (t: Turn)
    ensures AllRoute(t.effects)
    ensures t.db == db && t.addItem == s.addItem
    ensures s.order.None? ==> t == Missing(s, db)
    ensures s.order.Some? && location.Some? ==>
      && t.next == GoTo(CustomerContact)
      && t.order == Some(s.order.value.(deliveryType := Some(ByLocation), lat := Some(location.value.0), lng := Some(location.value.1)))
    ensures s.order.Some? && location.None? ==>
      var txt := Strip(text.GetOr(""));
      && (txt == AddressKey ==> t == Keep(s, db, GoTo(CustomerAddressText), [Reply(AskAddress)]))
      && (txt != AddressKey && txt != "" ==>
            t.next == GoTo(CustomerContact) && t.order == Some(s.order.value.(deliveryType := Some(ByAddress), addressText := Some(txt))))
      && (txt == "" ==> t == Keep(s, db, GoTo(CustomerDelivery), [Reply(DeliveryRetry)]))
  {
    match s.order
    case None => Missing(s, db)
    case Some(d) =>
      match location
      case Some(ll) =>
        Turn(GoTo(CustomerContact), s.addItem,
             Some(d.(deliveryType := Some(ByLocation), lat := Some(ll.0), lng := Some(ll.1))), db,
             [Say(ThisChat, AskContact, ContactKeyboard())])
      case None =>
        var txt := Strip(text.GetOr(""));
        if txt == AddressKey then Keep(s, db, GoTo(CustomerAddressText), [Reply(AskAddress)])
        else if txt != "" then
          Turn(GoTo(CustomerContact), s.addItem, Some(d.(deliveryType := Some(ByAddress), addressText := Some(txt))), db,
               [Say(ThisChat, AskContact, ContactKeyboard())])
        else Keep(s, db, GoTo(CustomerDelivery), [Reply(DeliveryRetry)])
  }

  /** `cust_address_text`: the stripped text is the address, even when it
      is empty. */
  function AddressText(s: Session, db: Db, text: string): (t: Turn)
    ensures AllRoute(t.effects)
    ensures t.db == db && t.addItem == s.addItem
    ensures s.order.None? ==> t == Missing(s, db)
    ensures s.order.Some? ==>
      t.next == GoTo(CustomerContact) && t.order == Some(s.order.value.(deliveryType := Some(ByAddress), addressText := Some(Strip(text))))
  {
    match s.order
    case None => Missing(s, db)
    case Some(d) =>
      Turn(GoTo(CustomerContact), s.addItem, Some(d.(deliveryType := Some(ByAddress), addressText := Some(Strip(text)))), db,
           [Say(ThisChat, AskContact, ContactKeyboard())])
  }

  // -----------------------------------------------------------------------
  // cust_contact, cust_username_text

  /** The step after a contact is chosen: the schedule question. */
  function AskForSchedule(s: Session, db: Db, d: OrderDraft): Turn {
    Turn(GoTo(CustomerSchedule), s.addItem, Some(d), db, [Say(ThisChat, AskSchedule, ScheduleKeyboard())])
  }

  /** `cust_contact`, given the shared phone number (if any) and the text:
      a non-empty shared number is the contact; otherwise the handle key
      asks for a handle, text starting with "@" is the handle, and anything
      else is asked again. */
  function Contact(s: Session, db: Db, shared: Option<string>, text: Option<string>): (t: Turn)
    ensures AllRoute(t.effects)
    ensures t.db == db && t.addItem == s.addItem
    ensures s.order.None? ==> t == Missing(s, db)
    ensures s.order.Some? && shared.Some? && shared.value != "" ==>
      t.next == GoTo(CustomerSchedule) && t.order == Some(s.order.value.(contactType := Some(ByPhone), phone := shared))
    ensures s.order.Some? && !(shared.Some? && shared.value != "") ==>
      var txt := Strip(text.GetOr(""));
      && (txt == HandleKey ==> t == Keep(s, db, GoTo(CustomerPhone), [Reply(AskHandle)]))
      && (txt != HandleKey && StartsWith(txt, "@") ==>
            t.next == GoTo(CustomerSchedule) && t.order == Some(s.order.value.(contactType := Some(ByUsername), tgUsername := Some(txt))))
      && (txt != HandleKey && !StartsWith(txt, "@") ==> t == Keep(s, db, GoTo(CustomerContact), [Reply(ContactRetry)]))
  {
    match s.order
    case None => Missing(s, db)
    case Some(d) =>
      if shared.Some? && shared.value != "" then
        AskForSchedule(s, db, d.(contactType := Some(ByPhone), phone := shared))
      else
        var txt := Strip(text.GetOr(""));
        if txt == HandleKey then Keep(s, db, GoTo(CustomerPhone), [Reply(AskHandle)])
        else if StartsWith(txt, "@") then AskForSchedule(s, db, d.(contactType := Some(ByUsername), tgUsername := Some(txt)))
        else Keep(s, db, GoTo(CustomerContact), [Reply(ContactRetry)])
  }

  /** `cust_username_text`: text not starting with "@" is asked again. The
      draft is not checked first: with no draft, a handle raises. */
  function Handle(s: Session, db: Db, text: string): (t: Turn)
    ensures AllRoute(t.effects)
    ensures t.db == db && t.addItem == s.addItem
    ensures !StartsWith(Strip(text), "@") ==> t == Keep(s, db, GoTo(CustomerPhone), [Reply(HandleRetry)])
    ensures StartsWith(Strip(text), "@") && s.order.None? ==> t == Keep(s, db, Raised, [])
    ensures StartsWith(Strip(text), "@") && s.order.Some? ==>
      t.next == GoTo(CustomerSchedule) && t.order == Some(s.order.value.(contactType := Some(ByUsername), tgUsername := Some(Strip(text))))
  {
    var txt := Strip(text);
    if !StartsWith(txt, "@") then Keep(s, db, GoTo(CustomerPhone), [Reply(HandleRetry)])
    else match s.order
      case None => Keep(s, db, Raised, [])
      case Some(d) => AskForSchedule(s, db, d.(contactType := Some(ByUsername), tgUsername := Some(txt)))
  }

  // -----------------------------------------------------------------------
  // finalize_order

  /** `f"{first_name or ''} {last_name or ''}".strip()` */
  function FullName(u: User): string {
    Strip(u.firstName.GetOr("") + " " + u.lastName.GetOr(""))
  }

  /** A draft the NOT NULL columns of `orders` accept, for an item that
      still exists. */
  predicate Placeable(d: OrderDraft, db: Db) {
    d.itemId in db.items.rows && d.deliveryType.Some? && d.scheduleType.Some?
  }

  /** The row a draft is saved as, on behalf of `u`: status "new", created
      and updated now. */
  function OrderOf(u: User, d: OrderDraft, now: string): Order
    requires d.deliveryType.Some? && d.scheduleType.Some?
  {
    Order(u.id, u.username, FullName(u), d.itemId, d.qty, d.deliveryType.value, d.addressText, d.lat, d.lng,
          d.contactType, d.phone, d.tgUsername, d.scheduleType.value, d.scheduledTimeText, "new", now, now)
  }

  /** What the administrator receives about a new order: the summary with
      the status keyboard, then the location when delivery is by location. */
  function AdminNotice(env: Env, id: int, d: OrderDraft): seq<Effect> {
    [Say(Chat(env.adminId), NewOrderSummary(id, d.itemId, d.qty), OrderStatusKeyboard(id))]
      + (if d.deliveryType == Some(ByLocation) then [SendLocation(Chat(env.adminId), d.lat, d.lng)] else [])
  }

  /** `finalize_order(message)`, where `orderer` is `message.from_user`.
      An item deleted meanwhile sends the customer back to browsing with
      the draft kept; a draft missing a NOT NULL column raises before
      anything is written; otherwise one order row is added, the
      administrator is notified, the customer is thanked and the draft is
      dropped. The item need not be active any more. */
  function Finalize(env: Env, orderer: User, s: Session, db: Db): (t: Turn)
    ensures AllRoute(t.effects)
    ensures t.addItem == s.addItem && t.db.items == db.items
    ensures s.order.None? ==> t == Missing(s, db)
    ensures s.order.Some? && s.order.value.itemId !in db.items.rows ==>
      t == Keep(s, db, GoTo(CustomerBrowse), [Reply(ItemGone)])
    ensures s.order.Some? && s.order.value.itemId in db.items.rows && !Placeable(s.order.value, db) ==>
      t == Keep(s, db, Raised, [])
    ensures s.order.Some? && Placeable(s.order.value, db) ==>
      && t.next == GoTo(CustomerBrowse)
      && t.order.None?
      && (Valid(db.orders) ==> AddsRow(db.orders, t.db.orders, OrderOf(orderer, s.order.value, env.now)))
      && t.effects == AdminNotice(env, t.db.orders.lastId, s.order.value)
                      + [Say(ThisChat, OrderReceived(t.db.orders.lastId), HomeKeyboard()),
                         Say(ThisChat, ChooseAgain, CategoriesKeyboard())]
  {
    match s.order
    case None => Missing(s, db)
    case Some(d) =>
      if d.itemId !in db.items.rows then Keep(s, db, GoTo(CustomerBrowse), [Reply(ItemGone)])
      else if !Placeable(d, db) then Keep(s, db, Raised, [])
      else
        var ins := Insert(db.orders, OrderOf(orderer, d, env.now));
        Turn(GoTo(CustomerBrowse), s.addItem, None, db.(orders := ins.table),
             AdminNotice(env, ins.id, d)
             + [Say(ThisChat, OrderReceived(ins.id), HomeKeyboard()),
                Say(ThisChat, ChooseAgain, CategoriesKeyboard())])
  }

  /** A placed order is one new row, in status "new", created and updated
      at the same moment, for the drafted item and quantity. */
  lemma PlacedOrderIsNew(env: Env, orderer: User, s: Session, db: Db)
    requires s.order.Some? && Placeable(s.order.value, db) && Valid(db.orders)
    ensures var t := Finalize(env, orderer, s, db);
      var o := t.db.orders.rows[t.db.orders.lastId];
      && t.db.orders.lastId !in db.orders.rows
      && |t.db.orders.rows| == |db.orders.rows| + 1
      && o.status == "new" && o.createdAt == o.updatedAt == env.now
      && o.itemId == s.order.value.itemId && o.qty == s.order.value.qty && o.userId == orderer.id
  {
    var t := Finalize(env, orderer, s, db);
    assert t.db.orders.rows.Keys == db.orders.rows.Keys + {t.db.orders.lastId};
  }

  /** The administrator gets a location pin exactly when the delivery is by
      location. */
  lemma PinIffLocation(env: Env, orderer: User, s: Session, db: Db)
    requires s.order.Some? && Placeable(s.order.value, db)
    ensures (exists e <- Finalize(env, orderer, s, db).effects :: e.SendLocation?)
      <==> s.order.value.deliveryType == Some(ByLocation)
  {
    var t := Finalize(env, orderer, s, db);
    var notice := AdminNotice(env, t.db.orders.lastId, s.order.value);
    var tail := [Say(ThisChat, OrderReceived(t.db.orders.lastId), HomeKeyboard()), Say(ThisChat, ChooseAgain, CategoriesKeyboard())];
    assert t.effects == notice + tail;
    NoticePin(env, t.db.orders.lastId, s.order.value);
    assert forall e <- tail :: !e.SendLocation?;
  }

  lemma NoticePin(env: Env, id: int, d: OrderDraft)
    ensures (exists e <- AdminNotice(env, id, d) :: e.SendLocation?) <==> d.deliveryType == Some(ByLocation)
  {
    if d.deliveryType == Some(ByLocation) {
      assert AdminNotice(env, id, d)[1].SendLocation?;
    }
  }

  // -----------------------------------------------------------------------
  // cust_schedule_pick, cust_schedule_time

  /** `cust_schedule_pick`: records the kind; "now" clears the time and
      places the order at once, on behalf of the author of the message the
      button is attached to, which is the bot itself; any other kind asks
      for the time. */
  function SchedulePick(env: Env, s: Session, db: Db, kind: string): (t: Turn)
    ensures AllRoute(t.effects)
    ensures s.order.None? ==> t == Missing(s, db)
    ensures s.order.Some? && kind == "now" ==>
      t == Finalize(env, env.bot, s.(order := Some(s.order.value.(scheduleType := Some(kind), scheduledTimeText := None))), db)
    ensures s.order.Some? && kind != "now" ==>
      t == Turn(GoTo(CustomerScheduleTime), s.addItem, Some(s.order.value.(scheduleType := Some(kind))), db, [Reply(AskTime)])
  {
    match s.order
    case None => Missing(s, db)
    case Some(d0) =>
      var d := d0.(scheduleType := Some(kind));
      if kind == "now" then Finalize(env, env.bot, s.(order := Some(d.(scheduledTimeText := None))), db)
      else Turn(GoTo(CustomerScheduleTime), s.addItem, Some(d), db, [Reply(AskTime)])
  }

  /** `cust_schedule_pick` as evidently intended: the order is placed on
      behalf of the customer who pressed the button, and only for a draft
      whose delivery and contact have been given; a draft left over from an
      abandoned dialogue is treated as missing. */
  function SchedulePickFixed(env: Env, user: User, s: Session, db: Db, kind: string): (t: Turn)
    ensures AllRoute(t.effects)
    ensures s.order.None? || s.order.value.deliveryType.None? || s.order.value.contactType.None? ==> t == Missing(s, db)
    ensures s.order.Some? && s.order.value.deliveryType.Some? && s.order.value.contactType.Some? && kind == "now" ==>
      t == Finalize(env, user, s.(order := Some(s.order.value.(scheduleType := Some(kind), scheduledTimeText := None))), db)
    ensures s.order.Some? && s.order.value.deliveryType.Some? && s.order.value.contactType.Some? && kind != "now" ==>
      t == Turn(GoTo(CustomerScheduleTime), s.addItem, Some(s.order.value.(scheduleType := Some(kind))), db, [Reply(AskTime)])
  {
    match s.order
    case None => Missing(s, db)
    case Some(d0) =>
      if d0.deliveryType.None? || d0.contactType.None? then Missing(s, db)
      else
        var d := d0.(scheduleType := Some(kind));
        if kind == "now" then Finalize(env, user, s.(order := Some(d.(scheduledTimeText := None))), db)
        else Turn(GoTo(CustomerScheduleTime), s.addItem, Some(d), db, [Reply(AskTime)])
  }

  /** `cust_schedule_time`: the stripped text is the time, and the order
      is placed on behalf of the customer who wrote it. */
  function ScheduleTime(env: Env, user: User, s: Session, db: Db, text: string): (t: Turn)
    ensures AllRoute(t.effects)
    ensures s.order.None? ==> t == Missing(s, db)
    ensures s.order.Some? ==>
      t == Finalize(env, user, s.(order := Some(s.order.value.(scheduledTimeText := Some(Strip(text))))), db)
  {
    match s.order
    case None => Missing(s, db)
    case Some(d) => Finalize(env, user, s.(order := Some(d.(scheduledTimeText := Some(Strip(text))))), db)
  }
}
