/**
 The conversation as a whole: which handler an update reaches in each
 state, and what the conversation remembers afterwards. `/start` is an
 entry point that is honoured in every state (re-entry is allowed); in a
 state, an update no handler accepts is ignored; a handler's result becomes
 the new state, ends the conversation, or (when it raises) leaves the state
 as it was while keeping whatever the handler wrote into the drafts.
 */
module Conversation {
  import opened Base
  import opened PyStr
  import opened Model
  import opened Router
  import opened Keyboards
  import ItemFlow
  import OrderFlow
  import Admin

  /** Which variant of the handlers with known defects runs: the title
      step, the bounds step, and the scheduling button (on whose behalf, and
      for which drafts). */
  datatype Build = AsWritten | Fixed

  /** `is_admin` */
  predicate IsAdmin(env: Env, user: User) {
    user.id == env.adminId
  }

  /** `start`: the administrator's panel or the customer's categories; the
      drafts are left as they are. */
  function Start(env: Env, user: User, s: Session, db: Db): (t: Turn)
    ensures t.db == db && t.addItem == s.addItem && t.order == s.order
    ensures t.next == GoTo(if IsAdmin(env, user) then AdminMenu else CustomerBrowse)
    ensures AllRoute(t.effects)
  {
    if IsAdmin(env, user) then Keep(s, db, GoTo(AdminMenu), [Say(ThisChat, AdminPanel, AdminMainKeyboard())])
    else Keep(s, db, GoTo(CustomerBrowse), [Say(ThisChat, Welcome, CategoriesKeyboard())])
  }

  /** The text the home key's pattern `^...$` matches: the key itself, or
      the key followed by one line break. */
  predicate IsHomeText(text: string) {
    text == HomeKey || text == HomeKey + "\n"
  }

  /** The states whose handlers include the callback router. */
  predicate TakesCallbacks(state: State) {
    state.AdminMenu? || state.AdminAddTitle? || state.CustomerBrowse? || state.CustomerPickQty? || state.CustomerSchedule?
  }

  /** The handler table: which updates each state has a handler for. */
  predicate Accepts(state: State, e: Event) {
    match e
    case Command(_) => false
    case Callback(_) => TakesCallbacks(state)
    case Text(text) =>
      || state.AdminAddTitle? || state.AdminAddDesc? || state.AdminAddPrice? || state.AdminAddMinMax?
      || (state.CustomerBrowse? && IsHomeText(text))
      || state.CustomerDelivery? || state.CustomerAddressText? || state.CustomerContact?
      || state.CustomerPhone? || state.CustomerScheduleTime?
    case Photo(_) => state.AdminAddPhoto1? || state.AdminAddPhoto2?
    case Location(_, _) => state.CustomerDelivery?
    case Contact(_) => state.CustomerContact?
  }

  /** `callback_router` followed by the handler it picks. Data no rule
      matches ends the conversation; a matched rule whose argument cannot
      be read raises. */
  function OnCallback(b: Build, env: Env, user: User, s: Session, db: Db, data: string): (t: Turn)
    ensures Decode(data).NotRouted? ==> t == Keep(s, db, End, [])
    ensures Decode(data).Malformed? ==> t == Keep(s, db, Raised, [])
  {
    match Decode(data)
    case NotRouted => Keep(s, db, End, [])
    case Malformed(_) => Keep(s, db, Raised, [])
    case Act(a) => Perform(b, env, user, s, db, a)
  }

  /** The handler for one decoded button action. */
  function Perform(b: Build, env: Env, user: User, s: Session, db: Db, a: Action): Turn {
    match a
    case StartAdd => ItemFlow.AddStart(s, db)
    case PickAddCategory(c) => ItemFlow.PickCategory(s, db, c)
    case ShowCategory(c) => Admin.ShowCategory(s, db, c)
    case ToggleItem(id) => Admin.Toggle(s, db, id)
    case ListOrders => Admin.ListOrders(s, db)
    case SetStatus(id, st) => Admin.SetStatus(env, s, db, id, st)
    case BrowseCategory(c) => OrderFlow.PickCategory(s, db, c)
    case OpenItem(id) => OrderFlow.OpenItem(s, db, id)
    case ChooseQty(x) => OrderFlow.Qty(s, db, x)
    case PickSchedule(k) =>
      if b.AsWritten? then OrderFlow.SchedulePick(env, s, db, k)
      else OrderFlow.SchedulePickFixed(env, user, s, db, k)
  }

  /** The handler the state has for the update, if any. */
  function Handle(b: Build, env: Env, user: User, s: Session, db: Db, state: State, e: Event): Option<Turn> {
    match e
    case Command(_) => None
    case Callback(data) => if TakesCallbacks(state) then Some(OnCallback(b, env, user, s, db, data)) else None
    case Text(text) => OnText(b, env, user, s, db, state, text)
    case Photo(f) => OnPhoto(env, s, db, state, f)
    case Location(la, lo) => if state.CustomerDelivery? then Some(OrderFlow.Delivery(s, db, Some((la, lo)), None)) else None
    case Contact(p) => if state.CustomerContact? then Some(OrderFlow.Contact(s, db, Some(p), None)) else None
  }

  /** The text handler of each state that has one. */
  function OnText(b: Build, env: Env, user: User, s: Session, db: Db, state: State, text: string): Option<Turn> {
    match state
    case AdminAddTitle => Some(TitleStep(b, s, db, text))
    case AdminAddDesc => Some(ItemFlow.Description(s, db, text))
    case AdminAddPrice => Some(ItemFlow.Price(env, s, db, text))
    case AdminAddMinMax => Some(BoundsStep(b, s, db, text))
    case CustomerBrowse => if IsHomeText(text) then Some(Start(env, user, s, db)) else None
    case CustomerDelivery => Some(OrderFlow.Delivery(s, db, None, Some(text)))
    case CustomerAddressText => Some(OrderFlow.AddressText(s, db, text))
    case CustomerContact => Some(OrderFlow.Contact(s, db, None, Some(text)))
    case CustomerPhone => Some(OrderFlow.Handle(s, db, text))
    case CustomerScheduleTime => Some(OrderFlow.ScheduleTime(env, user, s, db, text))
    case _ => None
  }

  /** The title handler of the build. */
  function TitleStep(b: Build, s: Session, db: Db, text: string): Turn {
    if b.AsWritten? then ItemFlow.Title(s, db, text) else ItemFlow.TitleFixed(s, db, text)
  }

  /** The bounds handler of the build. */
  function BoundsStep(b: Build, s: Session, db: Db, text: string): Turn {
    if b.AsWritten? then ItemFlow.MinMax(s, db, text) else ItemFlow.MinMaxFixed(s, db, text)
  }

  /** The photo handler of each state that has one. */
  function OnPhoto(env: Env, s: Session, db: Db, state: State, f: string): Option<Turn> {
    match state
    case AdminAddPhoto1 => Some(ItemFlow.Photo1(s, db, f))
    case AdminAddPhoto2 => Some(ItemFlow.Photo2(env, s, db, f))
    case _ => None
  }

  /** The dispatcher reaches a handler exactly for the updates the handler
      table lists. */
  lemma HandledIffAccepted(b: Build, env: Env, user: User, s: Session, db: Db, state: State, e: Event)
    ensures Handle(b, env, user, s, db, state, e).Some? <==> Accepts(state, e)
  {
    match e
    case Text(text) => TextHandledIffAccepted(b, env, user, s, db, state, text);
    case Photo(f) => PhotoHandledIffAccepted(env, s, db, state, f);
    case _ =>
  }

  lemma PhotoHandledIffAccepted(env: Env, s: Session, db: Db, state: State, f: string)
    ensures OnPhoto(env, s, db, state, f).Some? <==> Accepts(state, Photo(f))
  {
  }

  lemma TextHandledIffAccepted(b: Build, env: Env, user: User, s: Session, db: Db, state: State, text: string)
    ensures OnText(b, env, user, s, db, state, text).Some? <==> Accepts(state, Text(text))
  {
    match state
    case CustomerBrowse =>
    case _ =>
  }

  /** What the bot holds after an update, and what it sent. */
  datatype Reaction = Reaction(session: Session, db: Db, effects: seq<Effect>)

  /** The conversation state after a handler returned `next`. */
  function NextConv(conv: Option<State>, next: Next): (r: Option<State>)
    ensures next.GoTo? ==> r == Some(next.state)
    ensures next.End? ==> r.None?
    ensures next.Raised? ==> r == conv
  {
    match next
    case GoTo(st) => Some(st)
    case End => None
    case Raised => conv
  }

  function Finish(s: Session, t: Turn): Reaction {
    Reaction(Session(NextConv(s.conv, t.next), t.addItem, t.order), t.db, t.effects)
  }

  /** One update from `user`. */
  function Step(b: Build, env: Env, user: User, s: Session, db: Db, e: Event): (r: Reaction)
    ensures e == Command("start") ==>
      r.db == db && r.session == s.(conv := Some(if IsAdmin(env, user) then AdminMenu else CustomerBrowse))
    ensures e != Command("start") && (s.conv.None? || !Accepts(s.conv.value, e)) ==> r == Reaction(s, db, [])
  {
    if e == Command("start") then Finish(s, Start(env, user, s, db))
    else if s.conv.None? then Reaction(s, db, [])
    else match Handle(b, env, user, s, db, s.conv.value, e)
      case None => Reaction(s, db, [])
      case Some(t) => Finish(s, t)
  }

  /** An update the state accepts reaches its handler, whose result
      decides the rest: the drafts, tables and messages are the handler's,
      and the conversation moves to the state it names, ends, or (when it
      raises) stays where it was. */
  lemma StepFollowsHandler(b: Build, env: Env, user: User, s: Session, db: Db, e: Event)
    requires e != Command("start") && s.conv.Some? && Accepts(s.conv.value, e)
    ensures Handle(b, env, user, s, db, s.conv.value, e).Some?
    ensures var t := Handle(b, env, user, s, db, s.conv.value, e).value;
      var r := Step(b, env, user, s, db, e);
      && r.db == t.db && r.session.addItem == t.addItem && r.session.order == t.order && r.effects == t.effects
      && (t.next == End ==> r.session.conv.None?)
      && (t.next == Raised ==> r.session.conv == s.conv)
      && (t.next.GoTo? ==> r.session.conv == Some(t.next.state))
  {
    HandledIffAccepted(b, env, user, s, db, s.conv.value, e);
  }

  /** A sequence of updates from the same user. */
  function Run(b: Build, env: Env, user: User, s: Session, db: Db, events: seq<Event>): Reaction
    decreases |events|
  {
    if events == [] then Reaction(s, db, [])
    else
      var r := Step(b, env, user, s, db, events[0]);
      var rest := Run(b, env, user, r.session, r.db, events[1..]);
      Reaction(rest.session, rest.db, r.effects + rest.effects)
  }

  // -----------------------------------------------------------------------
  // Buttons

  lemma QtyTurnRoutes(s: Session, db: Db, x: string)
    ensures forall ef <- OrderFlow.Qty(s, db, x).effects :: EffectRoutes(ef)
  {
    if s.order.Some? {
      var d := s.order.value;
      match ParseInt(x)
      case None =>
      case Some(q) => QtyKeyboardLayout(d.minQty, d.maxQty, q);
    }
  }

  lemma PerformRoutes(b: Build, env: Env, user: User, s: Session, db: Db, a: Action)
    ensures forall ef <- Perform(b, env, user, s, db, a).effects :: EffectRoutes(ef)
  {
    match a
    case ChooseQty(x) => QtyTurnRoutes(s, db, x);
    case OpenItem(id) => OpenItemRoutes(s, db, id);
    case _ =>
  }

  lemma OpenItemRoutes(s: Session, db: Db, id: int)
    ensures forall ef <- OrderFlow.OpenItem(s, db, id).effects :: EffectRoutes(ef)
  {
    if id in db.items.rows {
      var it := db.items.rows[id];
      QtyKeyboardLayout(it.minQty, it.maxQty, it.minQty);
    }
  }

  lemma AdminTextRoutes(b: Build, env: Env, s: Session, db: Db, state: State, text: string)
    requires state.AdminAddTitle? || state.AdminAddDesc? || state.AdminAddPrice? || state.AdminAddMinMax?
    ensures forall ef <- OnText(b, env, env.bot, s, db, state, text).value.effects :: EffectRoutes(ef)
  {
    var t := OnText(b, env, env.bot, s, db, state, text).value;
    match state
    case AdminAddTitle => assert t == TitleStep(b, s, db, text);
    case AdminAddDesc => assert t == ItemFlow.Description(s, db, text);
    case AdminAddPrice => assert t == ItemFlow.Price(env, s, db, text);
    case AdminAddMinMax => assert t == BoundsStep(b, s, db, text);
  }

  lemma CustomerTextRoutes(b: Build, env: Env, user: User, s: Session, db: Db, state: State, text: string)
    requires OnText(b, env, user, s, db, state, text).Some?
    requires !(state.AdminAddTitle? || state.AdminAddDesc? || state.AdminAddPrice? || state.AdminAddMinMax?)
    ensures forall ef <- OnText(b, env, user, s, db, state, text).value.effects :: EffectRoutes(ef)
  {
    var t := OnText(b, env, user, s, db, state, text).value;
    match state
    case CustomerBrowse => assert t == Start(env, user, s, db);
    case CustomerDelivery => assert t == OrderFlow.Delivery(s, db, None, Some(text));
    case CustomerAddressText => assert t == OrderFlow.AddressText(s, db, text);
    case CustomerContact => assert t == OrderFlow.Contact(s, db, None, Some(text));
    case CustomerPhone => assert t == OrderFlow.Handle(s, db, text);
    case CustomerScheduleTime => assert t == OrderFlow.ScheduleTime(env, user, s, db, text);
  }

  lemma HandleRoutes(b: Build, env: Env, user: User, s: Session, db: Db, state: State, e: Event)
    requires Handle(b, env, user, s, db, state, e).Some?
    ensures forall ef <- Handle(b, env, user, s, db, state, e).value.effects :: EffectRoutes(ef)
  {
    match e
    case Callback(data) =>
      if Decode(data).Act? {
        PerformRoutes(b, env, user, s, db, Decode(data).action);
      }
    case Text(text) =>
      if state.AdminAddTitle? || state.AdminAddDesc? || state.AdminAddPrice? || state.AdminAddMinMax? {
        AdminTextRoutes(b, env, s, db, state, text);
        assert OnText(b, env, user, s, db, state, text) == OnText(b, env, env.bot, s, db, state, text);
      } else {
        CustomerTextRoutes(b, env, user, s, db, state, text);
      }
    case _ =>
  }

  /** Every inline button the bot sends carries a well-formed action, so
      pressing it reaches the handler meant for it (`PressRoutes`). */
  lemma StepButtonsRoute(b: Build, env: Env, user: User, s: Session, db: Db, e: Event)
    ensures forall ef <- Step(b, env, user, s, db, e).effects :: EffectRoutes(ef)
  {
    if e != Command("start") && s.conv.Some? && Handle(b, env, user, s, db, s.conv.value, e).Some? {
      HandleRoutes(b, env, user, s, db, s.conv.value, e);
    }
  }
}
