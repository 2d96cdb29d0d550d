/**
 The data the conversation works on: the fifteen conversation states, the
 inbound events, the two tables, the per-user drafts and the outbound
 effects. Field names follow the columns and dictionary keys of the bot.
 */
module Model {
  import opened Base
  import Router

  /** The conversation states, numbered 0..14 in declaration order. */
  datatype State =
    | AdminMenu
    | AdminAddTitle
    | AdminAddDesc
    | AdminAddPrice
    | AdminAddMinMax
    | AdminAddPhoto1
    | AdminAddPhoto2
    | CustomerBrowse
    | CustomerPickQty
    | CustomerDelivery
    | CustomerAddressText
    | CustomerContact
    | CustomerPhone
    | CustomerSchedule
    | CustomerScheduleTime

  /** The sender of an update, as the chat transport describes it. */
  datatype User = User(id: int, username: Option<string>, firstName: Option<string>, lastName: Option<string>)

  /** One inbound update, decoded by kind: a command (`/name`), an inline
      button press carrying its callback data, plain (non-command) text, a
      photo (the file id of its largest size), a location or a shared
      contact. */
  datatype Event =
    | Command(name: string)
    | Callback(data: string)
    | Text(text: string)
    | Photo(fileId: string)
    | Location(latitude: real, longitude: real)
    | Contact(phoneNumber: string)

  /** A Python float as far as the price check can tell them apart. */
  datatype Float = Finite(value: real) | NaN | PosInf | NegInf {
    /** `x < 0` on a Python float: false for NaN. */
    predicate IsNegative() {
      match this
      case Finite(v) => v < 0.0
      case NegInf => true
      case _ => false
    }
  }

  /** `delivery_type`: "location" or "address". */
  datatype DeliveryKind = ByLocation | ByAddress

  /** `contact_type`: "phone" or "username". */
  datatype ContactKind = ByPhone | ByUsername

  /** A row of the `items` table. */
  datatype Item = Item(
    category: string,
    title: string,
    description: string,
    price: Float,
    minQty: int,
    maxQty: int,
    photo1: string,
    photo2: string,
    isActive: bool,
    createdAt: string)

  /** A row of the `orders` table; the columns declared NOT NULL are not
      optional here. */
  datatype Order = Order(
    userId: int,
    username: Option<string>,
    fullName: string,
    itemId: int,
    qty: int,
    deliveryType: DeliveryKind,
    addressText: Option<string>,
    latitude: Option<real>,
    longitude: Option<real>,
    contactType: Option<ContactKind>,
    phone: Option<string>,
    tgUsername: Option<string>,
    scheduleType: string,
    scheduledTimeText: Option<string>,
    status: string,
    createdAt: string,
    updatedAt: string)

  /** `user_data["add_item"]`: the item being created. */
  datatype ItemDraft = ItemDraft(
    category: Option<string>,
    title: Option<string>,
    description: string,
    price: Float,
    minQty: int,
    maxQty: int,
    photo1: Option<string>,
    photo2: Option<string>)

  /** `user_data["order"]`: the order being placed. */
  datatype OrderDraft = OrderDraft(
    itemId: int,
    qty: int,
    minQty: int,
    maxQty: int,
    deliveryType: Option<DeliveryKind>,
    addressText: Option<string>,
    lat: Option<real>,
    lng: Option<real>,
    contactType: Option<ContactKind>,
    phone: Option<string>,
    tgUsername: Option<string>,
    scheduleType: Option<string>,
    scheduledTimeText: Option<string>)

  /** A table with an AUTOINCREMENT key: its rows and the largest id ever
      handed out. */
  datatype Table<T> = Table(rows: map<int, T>, lastId: int)

  datatype Db = Db(items: Table<Item>, orders: Table<Order>)

  /** What the bot keeps per user: the conversation state (`None` when no
      conversation is active) and the two drafts in `user_data`. */
  datatype Session = Session(conv: Option<State>, addItem: Option<ItemDraft>, order: Option<OrderDraft>)

  /** An inline button: its text and the action whose token
      (`Router.Encode`) is its callback data. */
  datatype Button = Button(text: string, action: Router.Action) {
    function Data(): string {
      Router.Encode(action)
    }
  }

  datatype Keyboard =
    | NoKeyboard
    | Inline(rows: seq<seq<Button>>)
    | ReplyKeys(keys: seq<seq<string>>)

  datatype Recipient = ThisChat | Chat(id: int)

  /** The messages the bot sends, by meaning rather than wording. */
  datatype Msg =
    | AdminPanel
    | Welcome
    | AskCategory
    | AskTitle
    | AskDescription
    | AskPrice
    | BadPrice
    | AskMinMax
    | BadMinMax
    | AskPhoto1
    | AskPhoto2
    | ItemSaved
    | NoItemsInCategory(category: string)
    | AdminItemCard(itemId: int)
    | ItemNotFound
    | ItemToggled(itemId: int)
    | CategoryEmpty
    | ItemOffer(itemId: int)
    | ItemUnavailable
    | ItemCaption(itemId: int)
    | ChooseQuantity
    | SessionMissing
    | QtyOutOfRange
    | AskDelivery
    | AskAddress
    | DeliveryRetry
    | AskContact
    | AskHandle
    | ContactRetry
    | HandleRetry
    | AskSchedule
    | AskTime
    | ItemGone
    | NewOrderSummary(orderId: int, itemId: int, qty: int)
    | OrderReceived(orderId: int)
    | ChooseAgain
    | NoOrders
    | AdminOrderCard(orderId: int)
    | OrderNotFound
    | StatusChanged(orderId: int, statusText: string)
    | StatusSet(orderId: int, statusText: string)

  /** Outbound effects, in the order the bot performs them. */
  datatype Effect =
    | Say(to: Recipient, msg: Msg, keyboard: Keyboard)
    | EditKeyboard(keyboard: Keyboard)
    | SendAlbum(photo1: string, photo2: string, caption: Msg)
    | SendLocation(to: Recipient, latitude: Option<real>, longitude: Option<real>)
    | LogWarning

  /** What a step depends on besides the session and the tables: the
      administrator's id, the bot's own account, the value `now_iso()`
      returns, Python's `float()` and whether the customer's chat accepts
      messages. */
  datatype Env = Env(
    adminId: int,
    bot: User,
    now: string,
    parseFloat: string -> Option<Float>,
    customerReachable: bool)

  /** What a handler returns: the next state, `ConversationHandler.END`, or
      an exception (the conversation then keeps its state). */
  datatype Next = GoTo(state: State) | End | Raised

  /** A handler's outcome: its result, the drafts and tables as the handler
      left them, and what it sent. */
  datatype Turn = Turn(
    next: Next,
    addItem: Option<ItemDraft>,
    order: Option<OrderDraft>,
    db: Db,
    effects: seq<Effect>)

  /** A handler outcome that leaves both drafts and the tables as they
      were. */
  function Keep(s: Session, db: Db, next: Next, effects: seq<Effect>): Turn {
    Turn(next, s.addItem, s.order, db, effects)
  }

  /** A plain reply in the current chat. */
  function Reply(m: Msg): Effect {
    Say(ThisChat, m, NoKeyboard)
  }
}
