/**
 The keyboards the bot attaches to its messages and the status labels.
 Inline buttons carry router tokens built with `Router.Encode`; reply
 keyboards carry the fixed texts some steps compare the user's text with.
 */
module Keyboards {
  import opened Base
  import opened PyStr
  import opened Model
  import opened Router

  /** Reply-keyboard texts. The address and handle keys are also the
      sentinels the delivery and contact steps look for. */
  const LocationKey: string := "\U{1F4CD} Lokatsiya yuborish"
  const AddressKey: string := "\U{270D}\U{FE0F} Manzilni yozaman"
  const PhoneKey: string := "\U{1F4DE} Telefon raqam yuborish"
  const HandleKey: string := "\U{1F464} Telegram nik qoldiraman"
  const HomeKey: string := "\U{1F3E0} Bosh menu"

  /** The statuses the order keyboard offers, in button order. */
  const StatusChoices: seq<string> := ["accepted", "canceled", "preparing", "onway", "delivered"]

  /** Every status the bot itself ever writes or offers. */
  const KnownStatuses: seq<string> := ["new"] + StatusChoices

  /** `status_label`: the display text of a status; an unknown status is
      shown as it is. */
  function StatusLabel(st: string): string {
    if st == "new" then "\U{1F195} Yangi"
    else if st == "accepted" then "\U{2705} Qabul qilindi"
    else if st == "canceled" then "\U{274C} Bekor qilindi"
    else if st == "preparing" then "\U{1F468}\U{200D}\U{1F373} Tayyorlanyapti"
    else if st == "onway" then "\U{1F697} Yo\U{2018}lda"
    else if st == "delivered" then "\U{1F4E6} Yetkazildi"
    else st
  }

  /** Every inline button of `rows` carries a token that the router sends
      to a handler and whose argument that handler can read. */
  predicate RowsRoutable(rows: seq<seq<Button>>) {
    forall i, j :: 0 <= i < |rows| && 0 <= j < |rows[i]| ==> WellFormed(rows[i][j].action)
  }

  predicate Routable(kb: Keyboard) {
    kb.Inline? ==> RowsRoutable(kb.rows)
  }

  /** Every inline keyboard an effect carries is routable. */
  predicate EffectRoutes(e: Effect) {
    (e.Say? || e.EditKeyboard?) ==> Routable(e.keyboard)
  }

  /** Every inline keyboard in `es` is routable. */
  predicate AllRoute(es: seq<Effect>) {
    forall ef <- es :: EffectRoutes(ef)
  }

  /** Pressing a button whose action is well formed hands that very
      action to its handler. */
  lemma PressRoutes(b: Button)
    requires WellFormed(b.action)
    ensures Decode(b.Data()) == Act(b.action)
  {
    DecodeEncode(b.action);
  }

  function Btn(text: string, a: Action): Button {
    Button(text, a)
  }

  /** `kb_admin_main` */
  function AdminMainKeyboard(): (kb: Keyboard)
    ensures Routable(kb)
  {
    Inline([
      [Btn("\U{1F372} Ovqatlar", ShowCategory("food")), Btn("\U{1F370} Shirinliklar", ShowCategory("dessert"))],
      [Btn("\U{2795} Mahsulot qo\U{2018}shish", StartAdd)],
      [Btn("\U{1F4E6} Buyurtmalar", ListOrders)]
    ])
  }

  /** `kb_categories` */
  function CategoriesKeyboard(): (kb: Keyboard)
    ensures Routable(kb)
  {
    Inline([[Btn("\U{1F372} Ovqatlar", BrowseCategory("food")), Btn("\U{1F370} Shirinliklar", BrowseCategory("dessert"))]])
  }

  /** The category choice of `admin_add_start`. */
  function AddCategoryKeyboard(): (kb: Keyboard)
    ensures Routable(kb)
  {
    Inline([[Btn("\U{1F372} Ovqat", PickAddCategory("food")), Btn("\U{1F370} Shirinlik", PickAddCategory("dessert"))]])
  }

  /** `kb_order_status`: one button per offered status, in the order of
      `StatusChoices`, two to a row, labelled with the status's own label. */
  function OrderStatusKeyboard(orderId: int): (kb: Keyboard)
    ensures Routable(kb)
  {
    StatusChoicesPlain();
    Inline([StatusRow(orderId, 0, 2), StatusRow(orderId, 2, 4), StatusRow(orderId, 4, 5)])
  }

  /** The buttons for the offered statuses `from` up to `to`. */
  function StatusRow(orderId: int, from: nat, to: nat): (row: seq<Button>)
    requires from <= to <= |StatusChoices|
    ensures |row| == to - from
    ensures forall k :: 0 <= k < |row| ==> row[k].action == SetStatus(orderId, StatusChoices[from + k])
  {
    var row := seq(to - from, k requires 0 <= k < to - from => StatusButton(orderId, StatusChoices[from + k]));
    assert forall k :: 0 <= k < |row| ==> row[k] == StatusButton(orderId, StatusChoices[from + k]);
    row
  }

  lemma StatusChoicesPlain()
    ensures forall i :: 0 <= i < |StatusChoices| ==> ':' !in StatusChoices[i]
  {
  }

  /** The button that sets status `st`, labelled with that status: pressing
      it hands the status handler this order and this status. */
  function StatusButton(orderId: int, st: string): (b: Button)
    ensures b.text == StatusLabel(st)
    ensures ':' !in st ==> Decode(b.Data()) == Act(SetStatus(orderId, st))
  {
    var b := Btn(StatusLabel(st), SetStatus(orderId, st));
    assert ':' !in st ==> Decode(b.Data()) == Act(b.action) by {
      if ':' !in st {
        PressRoutes(b);
      }
    }
    b
  }

  /** The toggle button under each item in the administrator's listing. */
  function ToggleKeyboard(itemId: int): (kb: Keyboard)
    ensures Routable(kb)
  {
    Inline([[Btn("\U{1F7E2}/\U{1F534} Aktivni almashtirish", ToggleItem(itemId))]])
  }

  /** The order button under each item in the customer's listing. */
  function OrderItemKeyboard(itemId: int): (kb: Keyboard)
    ensures Routable(kb)
  {
    Inline([[Btn("\U{1F6D2} Buyurtma", OpenItem(itemId))]])
  }

  /** The "now" / "scheduled" choice. */
  function ScheduleKeyboard(): (kb: Keyboard)
    ensures Routable(kb)
  {
    Inline([[Btn("\U{1F7E2} Hozir", PickSchedule("now")), Btn("\U{1F552} Belgilangan vaqtda", PickSchedule("scheduled"))]])
  }

  function DeliveryKeyboard(): Keyboard {
    ReplyKeys([[LocationKey], [AddressKey]])
  }

  function ContactKeyboard(): Keyboard {
    ReplyKeys([[PhoneKey], [HandleKey]])
  }

  function HomeKeyboard(): Keyboard {
    ReplyKeys([[HomeKey]])
  }

  // -----------------------------------------------------------------------
  // kb_qty

  /** The button for quantity `q`, ticked when it is the current pick. */
  function QtyButton(q: int, current: int): Button {
    Btn(if q == current then "\U{2705} " + IntToString(q) else IntToString(q), ChooseQty(IntToString(q)))
  }

  function NextButton(): Button {
    Btn("\U{27A1}\U{FE0F} Keyingi", ChooseQty("next"))
  }

  /** One button per quantity from `lo` to `hi`, in increasing order. */
  function QtyButtons(lo: int, hi: int, current: int): (bs: seq<Button>)
    ensures |bs| == if lo <= hi then hi - lo + 1 else 0
    ensures forall i :: 0 <= i < |bs| ==> bs[i] == QtyButton(lo + i, current)
    decreases hi - lo
  {
    if lo > hi then [] else [QtyButton(lo, current)] + QtyButtons(lo + 1, hi, current)
  }

  /** Concatenation of the rows of a keyboard. */
  function Flatten(rows: seq<seq<Button>>): seq<Button> {
    if |rows| == 0 then [] else rows[0] + Flatten(rows[1..])
  }

  /** Buttons laid out `width` to a row, the last row possibly shorter. */
  function Rows(bs: seq<Button>, width: nat): (rows: seq<seq<Button>>)
    requires width > 0
    ensures forall i :: 0 <= i < |rows| ==> 1 <= |rows[i]| <= width
    decreases |bs|
  {
    if |bs| == 0 then []
    else if |bs| <= width then [bs]
    else [bs[..width]] + Rows(bs[width..], width)
  }

  /** Laying buttons out in rows keeps them all, in order. */
  lemma {:induction false} RowsKeepButtons(bs: seq<Button>, width: nat)
    requires width > 0
    ensures Flatten(Rows(bs, width)) == bs
    decreases |bs|
  {
    if |bs| > width {
      RowsKeepButtons(bs[width..], width);
      var rows := Rows(bs, width);
      assert rows[1..] == Rows(bs[width..], width);
      assert bs[..width] + bs[width..] == bs;
    } else if |bs| > 0 {
      assert Flatten([bs]) == bs + Flatten([]);
    }
  }

  lemma {:induction false} FlattenAppend(rows: seq<seq<Button>>, last: seq<Button>)
    ensures Flatten(rows + [last]) == Flatten(rows) + last
    decreases |rows|
  {
    if |rows| == 0 {
      assert rows + [last] == [last];
    } else {
      assert (rows + [last])[1..] == rows[1..] + [last];
      FlattenAppend(rows[1..], last);
    }
  }

  /** `kb_qty(min_q, max_q, current)` */
  function QtyKeyboard(lo: int, hi: int, current: int): Keyboard {
    Inline(Rows(QtyButtons(lo, hi, current), 5) + [[NextButton()]])
  }

  /** The quantity keyboard offers every quantity from `lo` to `hi` in
      order, five to a row, then "next"; only the current pick is ticked,
      and every button is routable. */
  lemma QtyKeyboardLayout(lo: int, hi: int, current: int)
    ensures Flatten(QtyKeyboard(lo, hi, current).rows) == QtyButtons(lo, hi, current) + [NextButton()]
    ensures forall i :: 0 <= i < |QtyKeyboard(lo, hi, current).rows| ==> 1 <= |QtyKeyboard(lo, hi, current).rows[i]| <= 5
    ensures Routable(QtyKeyboard(lo, hi, current))
  {
    var bs := QtyButtons(lo, hi, current);
    var rows := Rows(bs, 5);
    RowsKeepButtons(bs, 5);
    FlattenAppend(rows, [NextButton()]);
    QtyKeyboardRoutable(lo, hi, current);
  }

  lemma QtyKeyboardRoutable(lo: int, hi: int, current: int)
    ensures Routable(QtyKeyboard(lo, hi, current))
  {
    var bs := QtyButtons(lo, hi, current);
    var rows := Rows(bs, 5);
    RowsKeepButtons(bs, 5);
    QtyButtonsRoutable(lo, hi, current);
    var all: seq<seq<Button>> := rows + [[NextButton()]];
    forall i, j | 0 <= i < |all| && 0 <= j < |all[i]|
      ensures WellFormed(all[i][j].action)
    {
      if i < |rows| {
        FlattenMember(rows, i, j);
      }
    }
  }

  /** Every quantity button carries a well-formed action. */
  lemma QtyButtonsRoutable(lo: int, hi: int, current: int)
    ensures forall b <- QtyButtons(lo, hi, current) :: WellFormed(b.action)
  {
    var bs := QtyButtons(lo, hi, current);
    forall b | b in bs
      ensures WellFormed(b.action)
    {
      var k :| 0 <= k < |bs| && bs[k] == b;
      IntToStringChars(lo + k);
    }
  }

  lemma {:induction false} FlattenMember(rows: seq<seq<Button>>, i: int, j: int)
    requires 0 <= i < |rows| && 0 <= j < |rows[i]|
    ensures rows[i][j] in Flatten(rows)
    decreases |rows|
  {
    if i > 0 {
      FlattenMember(rows[1..], i - 1, j);
    }
  }

  /** Pressing the button for `q` hands the quantity step exactly `q`. */
  lemma QtyButtonReadsBack(q: int, current: int)
    ensures Decode(QtyButton(q, current).Data()) == Act(ChooseQty(IntToString(q)))
    ensures ParseInt(IntToString(q)) == Some(q)
  {
    IntToStringRoundTrip(q);
    IntToStringChars(q);
    PressRoutes(QtyButton(q, current));
  }

  /** Only the button of the current pick is ticked. */
  lemma QtyButtonTicked(q: int, current: int)
    ensures StartsWith(QtyButton(q, current).text, "\U{2705} ") <==> q == current
  {
    var s := IntToString(q);
    if q != current {
      IntToStringChars(q);
      if |s| >= 2 {
        assert !IsSpace(s[1]);
      }
    }
  }

  /** The six statuses get six different labels, and any other status is
      displayed verbatim. */
  lemma StatusLabelsDistinct(a: string, b: string)
    ensures a in KnownStatuses && b in KnownStatuses && a != b ==> StatusLabel(a) != StatusLabel(b)
    ensures a !in KnownStatuses ==> StatusLabel(a) == a
  {
    if a in KnownStatuses && b in KnownStatuses && a != b {
      LabelMarks();
      MarksDistinct(a, b);
    }
  }

  lemma MarksDistinct(a: string, b: string)
    requires a in KnownStatuses && b in KnownStatuses && a != b
    ensures LabelMark(a) != LabelMark(b)
  {
  }

  /** The emoji a known status's label starts with. */
  function LabelMark(st: string): char {
    if st == "new" then '\U{1F195}'
    else if st == "accepted" then '\U{2705}'
    else if st == "canceled" then '\U{274C}'
    else if st == "preparing" then '\U{1F468}'
    else if st == "onway" then '\U{1F697}'
    else '\U{1F4E6}'
  }

  lemma LabelMarks()
    ensures forall st :: st in KnownStatuses ==> |StatusLabel(st)| > 0 && StatusLabel(st)[0] == LabelMark(st)
  {
  }

  /** The sentinels are recognised after `strip()`. */
  lemma SentinelsSurviveStrip(k: string)
    requires k == AddressKey || k == HandleKey
    ensures Strip(k) == k
  {
    assert !IsSpace(k[0]) && !IsSpace(k[|k| - 1]);
    StripOfTrimmed(k);
  }

  /** The handle sentinel is not itself taken for a handle, and the two
      sentinels differ. */
  lemma SentinelsAreNotHandles()
    ensures !StartsWith(HandleKey, "@") && !StartsWith(AddressKey, "@")
    ensures AddressKey != HandleKey
  {
    assert HandleKey[..1][0] != '@' && AddressKey[..1][0] != '@';
  }
}
