/**
 The administrator's catalogue and order views: list a category, toggle
 an item's availability, list the latest orders, and move an order to a
 new status while telling its customer.
 */
module Admin {
  import opened Base
  import opened Model
  import opened Store
  import opened Keyboards

  /** How many rows the administrator's listings show at most. */
  const AdminListLimit: nat := 20

  /** The items of `category`, active or not, newest first. */
  function CategoryListing(db: Db, category: string): seq<int> {
    NewestFirst(db.items, (it: Item) => it.category == category, AdminListLimit)
  }

  function ItemCards(ids: seq<int>): (es: seq<Effect>)
    ensures |es| == |ids|
    ensures forall i :: 0 <= i < |ids| ==> es[i] == Say(ThisChat, AdminItemCard(ids[i]), ToggleKeyboard(ids[i]))
  {
    seq(|ids|, i requires 0 <= i < |ids| => Say(ThisChat, AdminItemCard(ids[i]), ToggleKeyboard(ids[i])))
  }

  /** `admin_show_cat`: a card with a toggle button for each of the newest
      items of the category, inactive ones included. */
  function ShowCategory(s: Session, db: Db, category: string): (t: Turn)
    ensures t.next == GoTo(AdminMenu) && t.db == db && t.addItem == s.addItem && t.order == s.order
    ensures |t.effects| <= AdminListLimit || t.effects == [Reply(NoItemsInCategory(category))]
    ensures forall e <- t.effects :: e.Say? && e.msg.AdminItemCard? ==>
      e.msg.itemId in db.items.rows && db.items.rows[e.msg.itemId].category == category
  {
    var ids := CategoryListing(db, category);
    Keep(s, db, GoTo(AdminMenu), if ids == [] then [Reply(NoItemsInCategory(category))] else ItemCards(ids))
  }

  /** Every item of the category, active or not, gets a card unless the
      listing is full of newer ones. */
  lemma ShowCategoryIsComplete(s: Session, db: Db, category: string, id: int)
    requires Valid(db.items)
    requires id in db.items.rows && db.items.rows[id].category == category
    ensures var t := ShowCategory(s, db, category);
      Say(ThisChat, AdminItemCard(id), ToggleKeyboard(id)) in t.effects || |t.effects| == AdminListLimit
  {
    var ids := CategoryListing(db, category);
    assert ListedOrCutOff(ids, AdminListLimit, id);
    if id in ids {
      var k :| 0 <= k < |ids| && ids[k] == id;
      assert ItemCards(ids)[k] == Say(ThisChat, AdminItemCard(id), ToggleKeyboard(id));
    }
  }

  /** The item with its availability flipped. */
  function Toggled(it: Item): (r: Item)
    ensures r.isActive == !it.isActive
    ensures r.(isActive := it.isActive) == it
  {
    it.(isActive := !it.isActive)
  }

  /** `admin_toggle_item`: flips one item's availability; an unknown id is
      reported and nothing changes; an id SQLite cannot bind raises. */
  function Toggle(s: Session, db: Db, itemId: int): (t: Turn)
    ensures t.addItem == s.addItem && t.order == s.order && t.db.orders == db.orders
    ensures t.next == Raised <==> !FitsInt64(itemId)
    ensures t.next == Raised ==> t == Keep(s, db, Raised, [])
    ensures t.next != Raised ==> t.next == GoTo(AdminMenu)
    ensures FitsInt64(itemId) && itemId !in db.items.rows ==> t == Keep(s, db, GoTo(AdminMenu), [Reply(ItemNotFound)])
    ensures FitsInt64(itemId) && itemId in db.items.rows ==>
      && t.db.items.rows.Keys == db.items.rows.Keys
      && t.db.items.rows[itemId] == Toggled(db.items.rows[itemId])
      && (forall k :: k in db.items.rows && k != itemId ==> t.db.items.rows[k] == db.items.rows[k])
      && t.effects == [Reply(ItemToggled(itemId))]
  {
    if !FitsInt64(itemId) then Keep(s, db, Raised, [])
    else if itemId !in db.items.rows then Keep(s, db, GoTo(AdminMenu), [Reply(ItemNotFound)])
    else Keep(s, db.(items := Update(db.items, itemId, Toggled(db.items.rows[itemId]))), GoTo(AdminMenu),
              [Reply(ItemToggled(itemId))])
  }

  /** Toggling the same item twice restores the catalogue. */
  lemma ToggleTwice(s: Session, db: Db, itemId: int)
    ensures Toggle(s, Toggle(s, db, itemId).db, itemId).db == db
  {
    if itemId in db.items.rows {
      var once := Toggle(s, db, itemId).db;
      var twice := Toggle(s, once, itemId).db;
      assert twice.items.rows == db.items.rows;
    }
  }

  /** The latest orders, newest first. */
  function OrderListing(db: Db): seq<int> {
    NewestFirst(db.orders, (o: Order) => true, AdminListLimit)
  }

  function OrderCards(ids: seq<int>): (es: seq<Effect>)
    ensures |es| == |ids|
    ensures forall i :: 0 <= i < |ids| ==> es[i] == Say(ThisChat, AdminOrderCard(ids[i]), OrderStatusKeyboard(ids[i]))
  {
    seq(|ids|, i requires 0 <= i < |ids| => Say(ThisChat, AdminOrderCard(ids[i]), OrderStatusKeyboard(ids[i])))
  }

  /** `admin_orders`: a card with the status keyboard for each of the
      twenty newest orders; "no orders" exactly when there are none. */
  function ListOrders(s: Session, db: Db): (t: Turn)
    ensures t.next == GoTo(AdminMenu) && t.db == db && t.addItem == s.addItem && t.order == s.order
    ensures |t.effects| <= AdminListLimit
    ensures forall e <- t.effects :: e.Say? && e.msg.AdminOrderCard? ==> e.msg.orderId in db.orders.rows
  {
    var ids := OrderListing(db);
    Keep(s, db, GoTo(AdminMenu), if ids == [] then [Reply(NoOrders)] else OrderCards(ids))
  }

  /** "No orders" is reported exactly when the table is empty. */
  lemma NoOrdersIffEmpty(s: Session, db: Db)
    requires Valid(db.orders)
    ensures ListOrders(s, db).effects == [Reply(NoOrders)] <==> db.orders.rows == map[]
  {
    var ids := OrderListing(db);
    forall id | id in db.orders.rows
      ensures ids != []
    {
      assert ListedOrCutOff(ids, AdminListLimit, id);
    }
    if ids != [] {
      assert OrderCards(ids)[0].msg.AdminOrderCard?;
    }
  }

  /** The customer notice of a status change, or a logged warning when the
      customer cannot be reached. */
  function Notify(env: Env, o: Order, orderId: int, st: string): Effect {
    if env.customerReachable then Say(Chat(o.userId), StatusChanged(orderId, StatusLabel(st)), NoKeyboard)
    else LogWarning
  }

  /** `admin_set_status`: writes the status and the update time, tells the
      customer (a failure to do so is only logged) and confirms to the
      administrator; an unknown order is reported and nothing changes; an
      id SQLite cannot bind raises before anything is written. */
  function SetStatus(env: Env, s: Session, db: Db, orderId: int, st: string): (t: Turn)
    ensures t.addItem == s.addItem && t.order == s.order && t.db.items == db.items
    ensures t.next == Raised <==> !FitsInt64(orderId)
    ensures t.next == Raised ==> t == Keep(s, db, Raised, [])
    ensures t.next != Raised ==> t.next == GoTo(AdminMenu)
    ensures FitsInt64(orderId) && orderId !in db.orders.rows ==> t == Keep(s, db, GoTo(AdminMenu), [Reply(OrderNotFound)])
    ensures FitsInt64(orderId) && orderId in db.orders.rows ==>
      && t.db.orders.rows.Keys == db.orders.rows.Keys
      && t.db.orders.rows[orderId] == db.orders.rows[orderId].(status := st, updatedAt := env.now)
      && (forall k :: k in db.orders.rows && k != orderId ==> t.db.orders.rows[k] == db.orders.rows[k])
      && |t.effects| == 2
      && t.effects[0] == (if env.customerReachable
                          then Say(Chat(db.orders.rows[orderId].userId), StatusChanged(orderId, StatusLabel(st)), NoKeyboard)
                          else LogWarning)
      && t.effects[1] == Reply(StatusSet(orderId, StatusLabel(st)))
  {
    if !FitsInt64(orderId) then Keep(s, db, Raised, [])
    else if orderId !in db.orders.rows then Keep(s, db, GoTo(AdminMenu), [Reply(OrderNotFound)])
    else
      var o := db.orders.rows[orderId];
      Keep(s, db.(orders := Update(db.orders, orderId, o.(status := st, updatedAt := env.now))), GoTo(AdminMenu),
           [Notify(env, o, orderId, st), Reply(StatusSet(orderId, StatusLabel(st)))])
  }
}
