# Food-ordering chat bot: a Dafny model of its conversation

The bot sells the dishes of a small kitchen through a chat. The administrator
builds a catalogue of items: a category, a title, a description, a price,
quantity bounds and two photos. The administrator can also switch items on and
off, list the latest orders and move each order through its statuses.

A customer picks a category and opens an item. Then the customer:
- picks a quantity with a button keyboard;
- gives a delivery place (a location, or an address);
- gives a contact (a shared phone number, or a handle starting with "@");
- chooses "now" or a time.

The order is then stored, and the administrator gets a summary with a status
keyboard.

The whole program is one conversation with fifteen states. An update is a
command, a button press (a callback token such as `admin:st:7:accepted`), a
text, a photo, a location or a shared contact. In each state a fixed table
says which kinds of update are handled. `/start` re-enters from any state.
An unhandled update is ignored. A handler returns the next state, or ends the
conversation, or raises. When it raises, the state stays as it was, but
whatever the handler already wrote into the drafts is kept.

The model is one pure function, `Conversation.Step`, over immutable data:
- the session: the conversation state and the two drafts;
- the two tables;
- the update.

It returns the new session, the new tables and the messages sent, as abstract
effects. `Conversation.Run` folds `Step` over a sequence of updates.

The modules follow the program's structure:

| module | what it holds |
|---|---|
| `Base` | `Option` |
| `PyStr` | the Python string built-ins the handlers rely on: `str.strip`, `str.split(":")`, `str.split()`, `int()`, `str(int)` |
| `Model` | states, updates, rows, drafts, effects |
| `Store` | the two AUTOINCREMENT tables and their newest-first listings |
| `Router` | `callback_router` and the token format |
| `Keyboards` | the inline and reply keyboards, and `status_label` |
| `ItemFlow` | the add-item dialogue |
| `OrderFlow` | the order dialogue and `finalize_order` |
| `Admin` | the listings, the toggle and the status change |
| `Conversation` | the handler table and `Step` |
| `Invariants` | what every reachable configuration satisfies |
| `Findings` | four defects and their corrections, and an order holding both kinds of delivery and contact data |

Three handlers have evident defects, and a fourth defect follows from how
SQLite stores integers (see "## Findings"). `Conversation.Build` selects the
title, bounds and scheduling handlers as written (`AsWritten`) or corrected
(`Fixed`). Every other handler is shared by both. The invariant is proved for
both builds. The corrected build keeps four more facts:
- a draft past the title step has a category;
- a draft at the time question has a delivery and a contact;
- every stored order has a contact;
- a draft at a photo step has a maximum that fits 64 bits.

The system's specification asks for more than the code does in several
places. In each case the model follows the code:
- **Status changes.** Any status can be set from any status; there is no
  transition guard (`Admin.SetStatus`).
- **`/start` keeps the drafts.** Only opening the add-item dialogue replaces
  its draft. Opening an item replaces the order draft.
- **Empty titles and addresses are accepted.** A title or an address that is
  empty after `strip()` is taken as it is.
- **NaN prices are accepted.** A price of `nan` passes the "not negative"
  test.
- **Unrouted buttons end the conversation.** A token no rule matches ends it
  (`ConversationHandler.END`) rather than leaving it unchanged.
- **A handle with no draft raises.** A handle typed with no order draft
  raises, instead of reporting the missing session.
- **Orders without a contact can be stored.** See "## Findings".
- **An order can hold the data of both delivery kinds and of both contact
  kinds.** The design says a location order has no address, and a phone
  order no handle. The handlers record their own kind's fields but never
  clear the other kind's. The old "next" button of the quantity keyboard is
  still routed at the schedule question. So a customer can give a location
  and a handle, go back, then give an address and a phone; the stored order
  holds all four (`Findings.BothKindsStored`, in both builds).

## Model

| member | source | states |
|---|---|---|
| `PyStr.Strip` | bot.py:211 | `strip()` yields a string with no whitespace at either end |
| `PyStr.StripRemovesEdgeSpace` | bot.py:216 | `strip()` removes only whitespace, and only before and after the kept slice |
| `PyStr.StripOfTrimmed` | bot.py:462 | a text with no whitespace at either end is left unchanged by `strip()` |
| `PyStr.Split` | bot.py:205 | `split(":")` always yields at least one piece |
| `PyStr.SplitPiecesLackSep` | bot.py:684 | no piece of `split(":")` contains a colon |
| `PyStr.SplitJoin` | bot.py:684 | splitting a colon-joined list of colon-free pieces gives back the pieces |
| `PyStr.JoinSplit` | bot.py:684 | joining the pieces of a split gives back the text |
| `PyStr.LastSegmentOfJoin` | bot.py:313 | `split(":")[-1]` of a joined token is its last piece |
| `PyStr.SplitWhitespace` | bot.py:236 | `split()` yields non-empty words free of whitespace |
| `PyStr.SplitWhitespaceWord` | bot.py:236 | a word, a space and more text split into that word followed by the split of the rest |
| `PyStr.NatToStringValue` | bot.py:142 | the decimal digits of `str(n)` have value `n` |
| `PyStr.IntToStringRoundTrip` | bot.py:313 | `int(str(n)) == n` for every integer, negative ones included |
| `PyStr.NegativeParses` | bot.py:685 | `int("-" + str(m)) == -m` |
| `PyStr.IntToStringChars` | bot.py:142 | `str(n)` is non-empty and holds no colon and no whitespace |
| `Store.EmptyTable` | bot.py:42-83 | a new table is valid and empty |
| `Store.Insert` | bot.py:596-619 | INSERT adds exactly one row under a fresh id above every existing id; that id is `lastrowid`; other rows are unchanged |
| `Store.Update` | bot.py:322 | UPDATE replaces one existing row and no other; the ids stay the same |
| `Store.ScanOrdered` | bot.py:288 | the newest-first scan yields strictly decreasing ids |
| `Store.ScanComplete` | bot.py:333 | every matching row is listed, unless the listing is full of newer rows |
| `Store.NewestFirst` | bot.py:664 | `ORDER BY id DESC LIMIT n`: at most n matching rows, newest first, and none missing unless the limit cut it off |
| `Router.FirstIndex` | bot.py:716-741 | the router's first matching test; every earlier test fails |
| `Router.RulesDisjoint` | bot.py:716-738 | no token passes two of the router's tests, so their order never matters |
| `Router.Route` | bot.py:712-741 | a token goes to the handler of the test it passes; a token passing none is unrouted |
| `Router.Decode` | bot.py:740-741 | a token is unrouted exactly when it passes none of the tests |
| `Router.ReadArgument` | bot.py:684-685 | the token is reported unrouted exactly when the target it is read for is `Unrouted`; `Route` gives that target exactly when the token passes none of the tests |
| `Router.ReadArgumentFails` | bot.py:684-685 | reading fails exactly for a toggle or open-item token whose last segment `int()` rejects (bot.py lines 313 and 355), or a status token without exactly four segments or whose id `int()` rejects; a successful read returns the id `int()` gives and, for a status, the fourth segment |
| `Router.StatusTokenRoundTrip` | bot.py:139-150 | a status button's token is read back as the same order id and status |
| `Router.DecodeEncode` | bot.py:712-741 | every well-formed action's token reaches that action's handler, which reads back the same argument |
| `Keyboards.PressRoutes` | bot.py:712-741 | pressing a button with a well-formed action hands exactly that action to its handler |
| `Keyboards.AdminMainKeyboard` | bot.py:125-131 | every button of the admin panel is routable |
| `Keyboards.CategoriesKeyboard` | bot.py:133-137 | every category button is routable |
| `Keyboards.AddCategoryKeyboard` | bot.py:196-199 | both category buttons of the add-item dialogue are routable |
| `Keyboards.OrderStatusKeyboard` | bot.py:139-150 | every status button is routable |
| `Keyboards.StatusRow` | bot.py:141-149 | a row offers the statuses in the listed order, each for the given order |
| `Keyboards.StatusButton` | bot.py:142 | a status button shows that status's label, and for a status without a colon its token decodes back to setting that status on that order |
| `Keyboards.ToggleKeyboard` | bot.py:304-306 | the toggle button is routable |
| `Keyboards.OrderItemKeyboard` | bot.py:342-344 | the order button is routable |
| `Keyboards.ScheduleKeyboard` | bot.py:528-531 | both scheduling buttons are routable |
| `Keyboards.QtyButtons` | bot.py:155-157 | one quantity button per value from min to max, in increasing order |
| `Keyboards.Rows` | bot.py:158-162 | rows hold one to five buttons each |
| `Keyboards.RowsKeepButtons` | bot.py:153-162 | laying buttons out five to a row keeps all of them, in order |
| `Keyboards.QtyKeyboardLayout` | bot.py:152-164 | `kb_qty` offers min..max in order, at most five to a row, then "next", and every button is routable |
| `Keyboards.QtyButtonReadsBack` | bot.py:157 | pressing quantity q hands the quantity step a choice whose `int()` is q |
| `Keyboards.QtyButtonTicked` | bot.py:156 | a quantity button is ticked exactly when it is the current pick |
| `Keyboards.StatusLabelsDistinct` | bot.py:92-100 | the six known statuses have six different labels; any other status is shown as it is |
| `Keyboards.SentinelsSurviveStrip` | bot.py:463 | the address and handle keys are still recognised after `strip()` |
| `Keyboards.SentinelsAreNotHandles` | bot.py:515-520 | the handle key is not itself taken for a handle, and the two keys differ |
| `ItemFlow.AddStart` | bot.py:183-200 | the add-item dialogue starts with a fresh draft, replacing any earlier one, and waits for the category |
| `ItemFlow.WithDraft` | bot.py:206 | a step raises exactly when there is no add-item draft, and then changes nothing; the tables and the order draft are never touched |
| `ItemFlow.PickCategory` | bot.py:202-208 | with a draft, the pressed category is recorded, nothing else in the draft changes and the title is asked for; with none, it raises; the tables and the order draft are untouched |
| `ItemFlow.Title` | bot.py:210-213 | as written: with a draft, the stripped text becomes the title whether or not a category was picked, and the description is asked for; with none, it raises |
| `ItemFlow.TitleFixed` | bot.py:210-213 | corrected title step: it moves on to the description exactly when a draft with a category exists, storing the stripped title and keeping the category; otherwise the draft is untouched |
| `ItemFlow.Description` | bot.py:215-219 | with a draft, the description the reply stands for is recorded and the price is asked for; with none, it raises |
| `ItemFlow.DescriptionOfReply` | bot.py:215-217 | the description is empty exactly when the stripped reply is empty or a lone "-"; otherwise it is the stripped reply, which `strip()` leaves unchanged |
| `ItemFlow.ReadPrice` | bot.py:222-228 | an accepted price is what `float()` reads from the stripped text, and it is not negative |
| `ItemFlow.ReadPriceAcceptsExactly` | bot.py:222-228 | a price is accepted exactly when `float()` reads it and the value is not below zero |
| `ItemFlow.NaNPriceAccepted` | bot.py:223-225 | a text `float()` reads as NaN is accepted, since `nan < 0` is false |
| `ItemFlow.Price` | bot.py:221-232 | a rejected price re-asks and leaves the draft untouched; an accepted one is stored and the bounds are asked for |
| `ItemFlow.ReadMinMax` | bot.py:235-239 | accepted bounds always satisfy 1 <= min <= max |
| `ItemFlow.ReadMinMaxOfPair` | bot.py:234-247 | "min max" written out is accepted exactly when 1 <= min <= max, and reads back the same pair |
| `ItemFlow.OneWordRejected` | bot.py:236-237 | a reply of one word is rejected, because `parts[1]` raises |
| `ItemFlow.ExtraWordsIgnored` | bot.py:236-237 | words after the first two are ignored: "min max rest" reads as "min max" alone, for any rest not ending in whitespace |
| `ItemFlow.MinMax` | bot.py:234-247 | rejected bounds re-ask and leave the draft untouched; accepted bounds are stored and the first photo is asked for |
| `ItemFlow.MinMaxFixed` | bot.py:234-247 | corrected bounds step: accepted bounds whose maximum does not fit 64 bits are refused like a bad format; only storable bounds reach the first photo |
| `ItemFlow.Photo1` | bot.py:249-256 | with a draft, the photo's file id is recorded as the first photo and the second is asked for; with none, it raises |
| `ItemFlow.Photo2` | bot.py:258-279 | the second photo saves the item and returns to the menu exactly when the draft is complete, with a category and bounds SQLite can bind; otherwise the insert raises and the tables stay as they were |
| `OrderFlow.PickCategory` | bot.py:328-350 | the listing shows only active items of the category, at most 25 of them, or reports the category empty; nothing else changes |
| `OrderFlow.BrowseIsComplete` | bot.py:333-349 | every active item of the category is offered, unless 25 newer ones fill the listing |
| `OrderFlow.DraftFor` | bot.py:365-379 | an opened item starts a draft at its minimum quantity, with its bounds and nothing else chosen |
| `OrderFlow.OpenItem` | bot.py:352-403 | an id outside 64 bits raises at the query and changes nothing; otherwise only an existing, active item is opened, and anything else sends the customer back to browsing |
| `OrderFlow.Qty` | bot.py:405-438 | "next" moves on to delivery; otherwise only the quantity may change, and only to a value within the draft's bounds |
| `OrderFlow.QtyButtonSetsQty` | bot.py:427-437 | choosing an in-range quantity records it and redraws the keyboard with it ticked |
| `OrderFlow.Delivery` | bot.py:440-483 | a location is recorded with its coordinates; the address key asks for the address; other non-blank text is the address; blank text re-asks |
| `OrderFlow.AddressText` | bot.py:485-502 | the stripped text becomes the address and the contact is asked for |
| `OrderFlow.Contact` | bot.py:504-533 | a shared number is the contact; the handle key asks for a handle; "@" text is the handle; anything else re-asks |
| `OrderFlow.Handle` | bot.py:535-549 | text not starting with "@" re-asks; a handle is recorded, or raises when there is no draft |
| `OrderFlow.Finalize` | bot.py:578-657 | a missing item keeps the draft; an incomplete draft raises before writing; otherwise one order row is added, the admin is notified, the customer is thanked and the draft dropped |
| `OrderFlow.PlacedOrderIsNew` | bot.py:596-619 | a placed order is exactly one new row with status "new", created at the same moment it was last updated, for the drafted item and quantity |
| `OrderFlow.PinIffLocation` | bot.py:644-645 | the administrator gets a location pin exactly when the delivery is by location |
| `OrderFlow.SchedulePick` | bot.py:551-567 | "now" clears the time and places the order on behalf of the bot; any other kind asks for the time |
| `OrderFlow.SchedulePickFixed` | bot.py:551-567 | corrected: "now" places the order on behalf of the customer, and only a draft with delivery and contact is placed |
| `OrderFlow.ScheduleTime` | bot.py:569-576 | the stripped text is the time, and the order is placed on behalf of its author |
| `Admin.ShowCategory` | bot.py:282-308 | the administrator sees at most 20 items of the category, inactive ones included, or an empty note; nothing changes |
| `Admin.ShowCategoryIsComplete` | bot.py:288-307 | every item of the category, active or not, gets a card with its toggle button, unless 20 newer ones fill the listing |
| `Admin.Toggled` | bot.py:321 | toggling flips the active flag and nothing else |
| `Admin.Toggle` | bot.py:310-325 | an id outside 64 bits raises at the query and changes nothing; an existing item's flag is flipped and no other item changes; an unknown id changes nothing |
| `Admin.ToggleTwice` | bot.py:310-325 | toggling the same item twice restores the catalogue |
| `Admin.ListOrders` | bot.py:660-679 | at most 20 order cards, each for an existing order; nothing changes |
| `Admin.NoOrdersIffEmpty` | bot.py:667-669 | "no orders" is reported exactly when the table is empty |
| `Admin.SetStatus` | bot.py:681-709 | an id outside 64 bits raises at the query and changes nothing; otherwise any status is written, with the update time, to an existing order only; exactly one customer notice is attempted, a failed one is only logged and reverts nothing |
| `Conversation.Start` | bot.py:167-180 | `/start` opens the admin panel for the administrator and the categories for anyone else, keeping the drafts |
| `Conversation.OnCallback` | bot.py:740-741 | an unrouted token ends the conversation; an unreadable argument raises; neither changes anything |
| `Conversation.HandledIffAccepted` | bot.py:748-773 | a state reaches a handler for exactly the kinds of update its row of the table lists |
| `Conversation.Step` | bot.py:748-776 | `/start` is honoured in every state and keeps the drafts; with no conversation, or an update the state does not handle, nothing changes |
| `Conversation.StepFollowsHandler` | bot.py:748-776 | a handled update takes the tables, drafts and messages from its handler; a returned state is entered, END leaves the conversation, and an exception keeps the state |
| `Conversation.StepButtonsRoute` | bot.py:125-164 | every inline button the bot sends is routable, so pressing it reaches the handler meant for it |
| `Invariants.InitialInv` | bot.py:42-83 | empty tables with no conversation satisfy the invariant |
| `Invariants.MinMaxOk` | bot.py:234-247 | the bounds step keeps 1 <= min <= max in the draft |
| `Invariants.Photo2Ok` | bot.py:258-279 | saving an item keeps every table valid and every item's bounds and price sound |
| `Invariants.ToggleOk` | bot.py:310-325 | toggling keeps the invariant; orders still fit their items' bounds |
| `Invariants.SetStatusOk` | bot.py:681-709 | a status change keeps the invariant |
| `Invariants.OpenItemOk` | bot.py:352-403 | an opened item's draft quantity lies within the item's bounds |
| `Invariants.ChooseQtyOk` | bot.py:405-438 | the draft quantity stays within the item's bounds through the quantity step |
| `Invariants.DeliveryStepOk` | bot.py:440-483 | the delivery step records a delivery kind together with what it names |
| `Invariants.ContactStepOk` | bot.py:504-533 | the contact step records a non-empty phone or an "@" handle, and reaches the schedule question only with delivery and contact chosen |
| `Invariants.HandleOk` | bot.py:535-549 | the handle step records only a handle starting with "@" |
| `Invariants.FinalizeOk` | bot.py:578-657 | every stored order names an existing item, a quantity within its bounds and the details its delivery and contact kinds name |
| `Invariants.SchedulePickOk` | bot.py:551-567 | the scheduling button keeps the invariant in the as-written build |
| `Invariants.SchedulePickFixedOk` | bot.py:551-567 | the corrected scheduling button keeps the invariant, including "every order has a contact" |
| `Invariants.ScheduleTimeOk` | bot.py:569-576 | the time step keeps the invariant |
| `Invariants.PerformOk` | bot.py:712-741 | every routed button action keeps the invariant |
| `Invariants.CallbackOk` | bot.py:712-741 | every callback token, routed or not, keeps the invariant |
| `Invariants.StepPreservesInv` | bot.py:748-776 | every update keeps the invariant |
| `Invariants.RunPreservesInv` | bot.py:748-776 | from any configuration satisfying the invariant, every sequence of updates keeps it |
| `Findings.NowOrderRecordsBot` | bot.py:562-564 | as written, "now" stores the order under the bot's id |
| `Findings.FixedNowOrderRecordsCustomer` | bot.py:585 | corrected, "now" stores the order under the customer who pressed it |
| `Findings.StaleDraftOrderLacksContact` | bot.py:737-738 | as written, a location, then `/start`, then an old "now" button stores an order with no contact |
| `Findings.FixedOrdersHaveContact` | bot.py:610-612 | corrected, every stored order has a contact, whatever the updates |
| `Findings.TitleBeforeCategory` | bot.py:752-755 | as written, a title typed before the category is taken, and the draft moves on without a category |
| `Findings.UncategorisedItemStuck` | bot.py:258-279 | as written, at the second photo without a category no update but `/start` saves the item or leaves the state |
| `Findings.FixedPhoto2Saves` | bot.py:258-279 | corrected, the second photo always saves the item and returns to the menu |
| `Findings.OversizedBoundsAccepted` | bot.py:236-247 | as written, bounds with a maximum beyond 64 bits are accepted and the dialogue moves on to the photos |
| `Findings.OversizedItemStuck` | bot.py:268-274 | as written, at the second photo with such a maximum no update but `/start` saves the item or leaves the state |
| `Findings.QtyNextAtSchedule` | bot.py:414-425 | the "next" button of an old quantity keyboard, pressed at the schedule question, returns to the delivery question with the draft unchanged |
| `Findings.AddressAtDelivery` | bot.py:465-470 | a typed address replaces the delivery kind and the address but leaves any earlier coordinates in the draft |
| `Findings.PhoneAtContact` | bot.py:510-512 | a shared phone replaces the contact kind and the phone but leaves any earlier handle in the draft |
| `Findings.BothKindsStored` | bot.py:405-533 | in either build, a location and a handle, then the old "next", an address, a phone and "now", store one order with an address and coordinates, and a phone and a handle |
| `Findings.FixedRefusesOversizedBounds` | bot.py:238-242 | corrected, such bounds are refused with the format notice and nothing changes |

## Left out

- SQLite itself (`db`, `init_db`, the SQL text) is left out. The tables are maps from id to row, with AUTOINCREMENT ids and `ORDER BY id DESC` listings.
- The transport (`reply_text`, `send_media_group`, `send_location`, `send_message`, `answer`, Markdown) is left out. Outbound messages are abstract effects named by meaning. Only the customer notice of a status change may fail, via `Env.customerReachable`; every other send is assumed to succeed.
- Message wording and the formatting of item and order cards are left out, as is the emoji text of keyboard labels other than the sentinels and `status_label`.
- Python's `float()` is a parameter (`Env.parseFloat`). Its result is finite, NaN or an infinity, with no further arithmetic.
- `now_iso()` is a parameter (`Env.now`) and the clock is not modelled.
- Logging is reduced to one `LogWarning` effect.
- The event loop and concurrency are left out. One user's updates are a sequence; different users share only the tables, and `Run` follows a single user.
- `main`, configuration and polling are left out, except the handler table, which is modelled as `Conversation.Accepts`.
- The re-prompt branches of the photo steps (bot.py:250-252, 259-261) are left out, because those states only receive updates that hold a photo.
- Text updates are assumed non-command. Commands other than `/start`, and `/start@botname` forms, are treated as unhandled.
- `int()` is modelled for ASCII digits only; other Unicode decimal digits are not accepted.
- A NaN price is stored as itself; SQLite would store NULL.
- `ItemFlow.ExtraWordsIgnored` is stated only for a trailing text that does not end in whitespace; `strip()` removes such whitespace before the split, but the lemma does not cover that case.
- AUTOINCREMENT ids are unbounded; a table reaching 2^63 rows is not modelled.
- `OrderFlow.Finalize` binds the quantity and the chat ids without a 64-bit check: the quantity lies within an item's bounds, and Telegram ids are assumed to fit.
- The router checks no identity, and neither does the model: any user's button reaches admin handlers.
- `Router.Route` gives no ordering property beyond disjointness, because the ten tests are pairwise exclusive (`Router.RulesDisjoint`).
- `OrderFlow.PickCategory` states only which items may be listed and how many; `OrderFlow.BrowseIsComplete` adds completeness. The card text is not modelled.
- `Admin.ListOrders` states the bound and that each card names an existing order; `Admin.NoOrdersIffEmpty` adds the empty case. Completeness of the listing follows from `Store.NewestFirst` but is not restated.
- `Invariants.ScheduleTimeOk` does not establish, for the as-written build, that a draft at the time question has a delivery and a contact. A stale "scheduled" button can reach that state without them; placing the order then raises and the state does not change.

## Findings

| source | as written | input that shows it | evidently intended | confidence | as-written member | corrected member |
|---|---|---|---|---|---|---|
| bot.py:562-564 | `finalize_order(q.message, ...)` records `message.from_user`, the author of the bot's own message that carries the button | a customer at the schedule question presses "now" | the order is recorded under the customer who pressed the button | not executed | `Findings.NowOrderRecordsBot` | `Findings.FixedNowOrderRecordsCustomer` |
| bot.py:737-738 | scheduling tokens are routed in every state that takes buttons, and "now" places whatever draft remains | share a location, send `/start`, then press "now" on an earlier schedule question | only a draft whose delivery and contact were given can be placed; every order has a contact | not executed | `Findings.StaleDraftOrderLacksContact` | `Findings.FixedOrdersHaveContact` |
| bot.py:210-213 | the title is accepted while the category is still `None`, and the insert after the second photo then violates `category NOT NULL` on every attempt | "Add item", then type "Palov" without pressing a category | the title waits for the category, so the second photo always saves the item | not executed | `Findings.UncategorisedItemStuck` | `Findings.FixedPhoto2Saves` |
| bot.py:236-239, 268-274 | the bounds are read with Python's unbounded `int()`, and the insert after the second photo cannot bind a maximum beyond 64 bits, raising `OverflowError` on every attempt | reply "1 99999999999999999999" to the bounds question, then send both photos | bounds SQLite cannot store are refused like a bad format | not executed | `Findings.OversizedItemStuck` | `Findings.FixedRefusesOversizedBounds` |
