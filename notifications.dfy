/** The notification window: four message templates with placeholders, filled with fixed
    values per event type, and a result area that each send appends to. */
module Notifications {
  import opened JavaText

  const PaymentSucceeded: string := "支付成功"
  const FlightDelayed: string := "航班延误"
  const RescheduleSucceeded: string := "改签成功"
  const RefundSucceeded: string := "退票成功"

  const OrderIdPlaceholder: string := "{orderId}"
  const AmountPlaceholder: string := "{amount}"
  const FlightNoPlaceholder: string := "{flightNo}"
  const TimePlaceholder: string := "{time}"

  /** The template library, keyed by event type. Each template is written as its plain
      pieces around the two placeholders it holds. */
  const Templates: map<string, string> := map[
    PaymentSucceeded := "尊敬的客户，您的订单" + OrderIdPlaceholder + "已支付成功，金额：" + AmountPlaceholder + "元。",
    FlightDelayed := "尊敬的旅客，您预订的航班" + FlightNoPlaceholder + "将延误至" + TimePlaceholder + "，请合理安排行程。",
    RescheduleSucceeded := "您的航班改签已完成，新航班号：" + FlightNoPlaceholder + "，起飞时间：" + TimePlaceholder + "。",
    RefundSucceeded := "您的订单" + OrderIdPlaceholder + "退票已完成，退款" + AmountPlaceholder + "元将在3-5个工作日内到账。"
  ]

  /** The message for an event: the event's placeholders replaced, every occurrence, by the
      fixed sample values; any other event type leaves the template as it is. */
  function FillTemplate(template: string, eventType: string): (message: string)
    ensures eventType !in Templates ==> message == template
    ensures '{' !in template ==> message == template
  {
    if eventType == PaymentSucceeded then
      FillTwo(template, OrderIdPlaceholder, "ORD20230615001", AmountPlaceholder, "1280.00")
    else if eventType == FlightDelayed then
      FillTwo(template, FlightNoPlaceholder, "MU5112", TimePlaceholder, "2023-06-16 14:30")
    else if eventType == RescheduleSucceeded then
      FillTwo(template, FlightNoPlaceholder, "MU5113", TimePlaceholder, "2023-06-16 08:00")
    else if eventType == RefundSucceeded then
      FillTwo(template, OrderIdPlaceholder, "ORD20230615002", AmountPlaceholder, "960.00")
    else
      template
  }

  /** Two chained `replace` calls; text without a `{` passes through both unchanged. */
  function FillTwo(template: string, first: string, firstValue: string, second: string, secondValue: string): (message: string)
    requires first != [] && second != [] && first[0] == '{' && second[0] == '{'
    ensures '{' !in template ==> message == template
  {
    if '{' !in template then
      PlainTextUnchanged(template, first, firstValue);
      PlainTextUnchanged(template, second, secondValue);
      ReplaceAll(ReplaceAll(template, first, firstValue), second, secondValue)
    else
      ReplaceAll(ReplaceAll(template, first, firstValue), second, secondValue)
  }

  /** A placeholder that differs from the target in its second character is copied as it
      is, and the scan goes on after it. */
  lemma ReplaceAllSkipsOtherPlaceholder(other: string, rest: string, target: string, replacement: string)
    requires |target| >= 2 && |other| >= 2 && other[0] == target[0] && other[1] != target[1]
    requires target[0] !in other[1..]
    ensures ReplaceAll(other + rest, target, replacement) == other + ReplaceAll(rest, target, replacement)
  {
    var s := other + rest;
    if |s| < |target| {
      ReplaceAllShortIsIdentity(s, target, replacement);
      ReplaceAllShortIsIdentity(rest, target, replacement);
    } else {
      assert s[..|target|] != target by { assert s[1] == other[1]; }
      assert s[1..] == other[1..] + rest;
      ReplaceAllSkipsPlainPrefix(other[1..], rest, target, replacement);
      assert [other[0]] + other[1..] == other;
    }
  }

  /** The first `replace` of a template `p0 {a} p1 {b} p2`: only `{a}` changes. */
  lemma ReplaceFirstPlaceholder(p0: string, a: string, p1: string, b: string, p2: string, va: string)
    requires |a| >= 2 && |b| >= 2 && a[0] == '{' && b[0] == '{' && a[1] != b[1] && '{' !in b[1..]
    requires '{' !in p0 && '{' !in p1 && '{' !in p2
    ensures ReplaceAll(p0 + a + p1 + b + p2, a, va) == p0 + va + p1 + b + p2
  {
    var rest1 := p1 + (b + p2);
    assert ReplaceAll(b + p2, a, va) == b + p2 by {
      ReplaceAllSkipsOtherPlaceholder(b, p2, a, va);
      PlainTextUnchanged(p2, a, va);
    }
    assert ReplaceAll(rest1, a, va) == rest1 by {
      ReplaceAllSkipsPlainPrefix(p1, b + p2, a, va);
    }
    assert ReplaceAll(a + rest1, a, va) == va + rest1 by {
      ReplaceAllAtFront(rest1, a, va);
    }
    assert ReplaceAll(p0 + (a + rest1), a, va) == p0 + (va + rest1) by {
      ReplaceAllSkipsPlainPrefix(p0, a + rest1, a, va);
    }
    assert p0 + a + p1 + b + p2 == p0 + (a + rest1);
    assert p0 + (va + rest1) == p0 + va + p1 + b + p2;
  }

  /** The second `replace`: `{b}` is the only place its first character occurs. */
  lemma ReplaceSecondPlaceholder(q: string, b: string, p2: string, vb: string)
    requires b != [] && b[0] !in q && b[0] !in p2
    ensures ReplaceAll(q + b + p2, b, vb) == q + vb + p2
  {
    assert q + b + p2 == q + (b + p2);
    ReplaceAllSkipsPlainPrefix(q, b + p2, b, vb);
    ReplaceAllAtFront(p2, b, vb);
    PlainTextUnchanged(p2, b, vb);
    assert q + (vb + p2) == q + vb + p2;
  }

  /** Filling a template of the shape `p0 {a} p1 {b} p2` whose plain pieces and values hold
      no `{`: each placeholder is replaced by its value and the plain text is kept. */
  lemma FillTwoPlaceholders(t: string, p0: string, a: string, p1: string, b: string, p2: string, va: string, vb: string)
    requires t == p0 + a + p1 + b + p2
    requires |a| >= 2 && |b| >= 2 && a[0] == '{' && b[0] == '{' && a[1] != b[1] && '{' !in b[1..]
    requires '{' !in p0 && '{' !in p1 && '{' !in p2 && '{' !in va && '{' !in vb
    ensures FillTwo(t, a, va, b, vb) == p0 + va + p1 + vb + p2
    ensures '{' !in p0 + va + p1 + vb + p2
  {
    ReplaceFirstPlaceholder(p0, a, p1, b, p2, va);
    var q := p0 + va + p1;
    assert p0 + va + p1 + b + p2 == q + b + p2;
    ReplaceSecondPlaceholder(q, b, p2, vb);
  }

  /** Filling a template whose plain pieces and sample values hold no `{`. */
  lemma FilledFrom(e: string, t: string, p0: string, a: string, p1: string, b: string, p2: string, va: string, vb: string)
    requires t == p0 + a + p1 + b + p2
    requires |a| >= 2 && |b| >= 2 && a[0] == '{' && b[0] == '{' && a[1] != b[1] && '{' !in b[1..]
    requires FillTemplate(t, e) == FillTwo(t, a, va, b, vb)
    requires '{' !in p0 && '{' !in p1 && '{' !in p2 && '{' !in va && '{' !in vb
    ensures FillTemplate(t, e) == p0 + va + p1 + vb + p2 && '{' !in FillTemplate(t, e)
  {
    FillTwoPlaceholders(t, p0, a, p1, b, p2, va, vb);
  }

  /** The message each event type sends, with no placeholder left in it. */
  lemma FilledMessages()
    ensures FillTemplate(Templates[PaymentSucceeded], PaymentSucceeded)
      == "尊敬的客户，您的订单" + "ORD20230615001" + "已支付成功，金额：" + "1280.00" + "元。"
    ensures FillTemplate(Templates[FlightDelayed], FlightDelayed)
      == "尊敬的旅客，您预订的航班" + "MU5112" + "将延误至" + "2023-06-16 14:30" + "，请合理安排行程。"
    ensures FillTemplate(Templates[RescheduleSucceeded], RescheduleSucceeded)
      == "您的航班改签已完成，新航班号：" + "MU5113" + "，起飞时间：" + "2023-06-16 08:00" + "。"
    ensures FillTemplate(Templates[RefundSucceeded], RefundSucceeded)
      == "您的订单" + "ORD20230615002" + "退票已完成，退款" + "960.00" + "元将在3-5个工作日内到账。"
    ensures forall e :: e in Templates ==> '{' !in FillTemplate(Templates[e], e)
  {
    PaymentMessage();
    DelayMessage();
    RescheduleMessage();
    RefundMessage();
  }

  lemma PaymentMessage()
    ensures FillTemplate(Templates[PaymentSucceeded], PaymentSucceeded)
      == "尊敬的客户，您的订单" + "ORD20230615001" + "已支付成功，金额：" + "1280.00" + "元。"
    ensures '{' !in FillTemplate(Templates[PaymentSucceeded], PaymentSucceeded)
  {
    FilledFrom(PaymentSucceeded, Templates[PaymentSucceeded],
      "尊敬的客户，您的订单", OrderIdPlaceholder, "已支付成功，金额：", AmountPlaceholder, "元。",
      "ORD20230615001", "1280.00");
  }

  lemma DelayMessage()
    ensures FillTemplate(Templates[FlightDelayed], FlightDelayed)
      == "尊敬的旅客，您预订的航班" + "MU5112" + "将延误至" + "2023-06-16 14:30" + "，请合理安排行程。"
    ensures '{' !in FillTemplate(Templates[FlightDelayed], FlightDelayed)
  {
    FilledFrom(FlightDelayed, Templates[FlightDelayed],
      "尊敬的旅客，您预订的航班", FlightNoPlaceholder, "将延误至", TimePlaceholder, "，请合理安排行程。",
      "MU5112", "2023-06-16 14:30");
  }

  lemma RescheduleMessage()
    ensures FillTemplate(Templates[RescheduleSucceeded], RescheduleSucceeded)
      == "您的航班改签已完成，新航班号：" + "MU5113" + "，起飞时间：" + "2023-06-16 08:00" + "。"
    ensures '{' !in FillTemplate(Templates[RescheduleSucceeded], RescheduleSucceeded)
  {
    FilledFrom(RescheduleSucceeded, Templates[RescheduleSucceeded],
      "您的航班改签已完成，新航班号：", FlightNoPlaceholder, "，起飞时间：", TimePlaceholder, "。",
      "MU5113", "2023-06-16 08:00");
  }

  lemma RefundMessage()
    ensures FillTemplate(Templates[RefundSucceeded], RefundSucceeded)
      == "您的订单" + "ORD20230615002" + "退票已完成，退款" + "960.00" + "元将在3-5个工作日内到账。"
    ensures '{' !in FillTemplate(Templates[RefundSucceeded], RefundSucceeded)
  {
    FilledFrom(RefundSucceeded, Templates[RefundSucceeded],
      "您的订单", OrderIdPlaceholder, "退票已完成，退款", AmountPlaceholder, "元将在3-5个工作日内到账。",
      "ORD20230615002", "960.00");
  }

  /** What a press of the send button ends in: one of the two error dialogs, or a send
      attempt with the filled message that the send oracle accepted or refused. */
  datatype SendOutcome = MissingContact | NoTemplate | Sent(message: string) | SendFailed(message: string)

  const MissingContactMessage: string := "请输入联系方式"
  const NoTemplateMessage: string := "未找到匹配的消息模板"
  const FailureEntry: string := "通知发送失败，请重试!\n\n"

  /** The three lines a successful send appends to the result area. */
  function SuccessEntry(contact: string, message: string): string {
    "通知发送成功:\n" + "联系方式: " + contact + "\n" + "通知内容: " + message + "\n\n"
  }

  /** The notification window's state: the text of its result area. */
  class NotificationScreen {
    var resultArea: string

    constructor ()
      ensures resultArea == []
    {
      resultArea := [];
    }

    /** The send handler. `contactText` is the contact field as typed and `sendOk` is the
        outcome of the simulated send. A contact that is blank after trimming, and an event
        type without a template, end in an error dialog with the result area untouched;
        otherwise the filled message is sent and one entry is appended. */
    method SendNotification(eventType: string, contactText: string, sendOk: bool) returns (outcome: SendOutcome)
      modifies this`resultArea
      ensures old(resultArea) <= resultArea
      ensures Trim(contactText) == [] ==> outcome == MissingContact && resultArea == old(resultArea)
      ensures Trim(contactText) != [] && eventType !in Templates ==>
        outcome == NoTemplate && resultArea == old(resultArea)
      ensures Trim(contactText) != [] && eventType in Templates && sendOk ==>
        outcome == Sent(FillTemplate(Templates[eventType], eventType))
        && resultArea == old(resultArea) + SuccessEntry(Trim(contactText), outcome.message)
      ensures Trim(contactText) != [] && eventType in Templates && !sendOk ==>
        outcome == SendFailed(FillTemplate(Templates[eventType], eventType))
        && resultArea == old(resultArea) + FailureEntry
    {
      var contact := Trim(contactText);
      if contact == [] {
        return MissingContact;
      }
      if eventType !in Templates {
        return NoTemplate;
      }
      var template := Templates[eventType];
      var message := FillTemplate(template, eventType);
      if sendOk {
        resultArea := resultArea + SuccessEntry(contact, message);
        outcome := Sent(message);
      } else {
        resultArea := resultArea + FailureEntry;
        outcome := SendFailed(message);
      }
    }
  }

  /** A successful send of any listed event logs a message with every placeholder filled. */
  method SendListedEvent(screen: NotificationScreen, eventType: string, contactText: string) returns (outcome: SendOutcome)
    requires eventType in Templates && Trim(contactText) != []
    modifies screen
    ensures outcome.Sent? && '{' !in outcome.message
  {
    outcome := screen.SendNotification(eventType, contactText, true);
    FilledMessages();
  }
}
