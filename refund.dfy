/** The refund screen: a fixed price table, whole hours to departure, three refund tiers,
    and the screen state that remembers the refundable amount until the refund is confirmed. */
module Refund {
  import opened JavaText
  import opened BookedFlights

  const MsPerHour: int := 60 * 60 * 1000

  /** Java's `long` division, which truncates toward zero (Dafny's `/` is Euclidean). */
  function TruncDiv(a: int, b: int): (q: int)
    requires b > 0
    ensures 0 <= a ==> 0 <= q && q * b <= a < q * b + b
    ensures a < 0 ==> q <= 0 && q * b - b < a <= q * b
  {
    if a >= 0 then
      EuclideanBounds(a, b);
      a / b
    else
      var m := (-a) / b;
      EuclideanBounds(-a, b);
      assert (-m) * b == -(m * b);
      -m
  }

  /** For a non-negative dividend Euclidean and truncating division agree, and the quotient
      is the number of whole divisors it holds. */
  lemma EuclideanBounds(n: nat, b: int)
    requires b > 0
    ensures 0 <= n / b && (n / b) * b <= n < (n / b) * b + b
  {
    var q, r := n / b, n % b;
    assert n == b * q + r && 0 <= r < b;
    assert b * q == q * b;
  }

  /** Truncated whole units exceed `k` exactly when at least `k + 1` whole units have elapsed;
      a negative difference never exceeds a non-negative bound. */
  lemma TruncDivExceeds(a: int, b: int, k: nat)
    requires b > 0
    ensures TruncDiv(a, b) > k <==> a >= (k + 1) * b
  {
    var q := TruncDiv(a, b);
    assert (k + 1) * b >= 0 by { MulMonotone(0, k + 1, b); }
    if a >= 0 {
      assert q * b <= a < q * b + b;
      if q > k {
        assert q * b >= (k + 1) * b by { MulMonotone(k + 1, q, b); }
      } else {
        assert (q + 1) * b <= (k + 1) * b by { MulMonotone(q + 1, k + 1, b); }
        assert q * b + b == (q + 1) * b;
      }
    }
  }

  lemma MulMonotone(x: int, y: int, b: int)
    requires 0 <= x <= y && b > 0
    ensures x * b <= y * b
  {
  }

  /** The ticket price of a flight label: the first flight number it contains wins. */
  function TicketPrice(flightInfo: string): (price: real)
    ensures price >= 900.0
  {
    if Contains(flightInfo, "MU5112") then 1200.0
    else if Contains(flightInfo, "CA1833") then 1500.0
    else if Contains(flightInfo, "CZ3108") then 900.0
    else 1000.0
  }

  /** The prices the table gives the three booked flights the screen offers. */
  lemma PricesOfBookedFlights()
    ensures TicketPrice(Labels[0]) == 1200.0
    ensures TicketPrice(Labels[1]) == 1500.0
    ensures TicketPrice(Labels[2]) == 900.0
  {
    FirstBookedFlight();
    SecondBookedFlight();
    ThirdBookedFlight();
  }

  /** When a label names several flights, the first entry of the table decides. */
  lemma FirstMatchWins(flightInfo: string)
    requires Contains(flightInfo, "MU5112")
    ensures TicketPrice(flightInfo) == 1200.0
  {
  }

  /** A label naming CA1833 but not MU5112 costs the second entry's price. */
  lemma SecondEntryWithoutFirst(flightInfo: string)
    requires Contains(flightInfo, "CA1833") && !Contains(flightInfo, "MU5112")
    ensures TicketPrice(flightInfo) == 1500.0
  {
  }

  /** A label naming CZ3108 but neither earlier number costs the third entry's price. */
  lemma ThirdEntryWithoutEarlier(flightInfo: string)
    requires Contains(flightInfo, "CZ3108")
    requires !Contains(flightInfo, "MU5112") && !Contains(flightInfo, "CA1833")
    ensures TicketPrice(flightInfo) == 900.0
  {
  }

  /** A label naming none of the three numbers keeps the default price. */
  lemma DefaultPriceWhenUnlisted(flightInfo: string)
    requires !Contains(flightInfo, "MU5112") && !Contains(flightInfo, "CA1833")
    requires !Contains(flightInfo, "CZ3108")
    ensures TicketPrice(flightInfo) == 1000.0
  {
  }

  /** The outcome record of a policy check. Fields Java leaves unset keep their defaults:
      0.0 for the amounts and null (here `None`) for the departure time. */
  datatype RefundResult = RefundResult(
    isRefundable: bool,
    amount: real,
    fee: real,
    departureTime: Option<string>,
    message: string)

  const FullRefundMessage: string := "起飞前24小时以上可全额退款"
  const PartialRefundMessage: string := "起飞前2-24小时收取20%手续费"
  const TooLateMessage: string := "起飞前2小时内不可退票"
  const BadFlightMessage: string := "航班信息异常"

  /** The tier chosen from whole hours to departure. */
  function Tier(ticketPrice: real, diffHours: int, flightDate: string): RefundResult {
    if diffHours > 24 then
      RefundResult(true, ticketPrice, 0.0, Some(flightDate + " 14:00"), FullRefundMessage)
    else if diffHours > 2 then
      RefundResult(true, ticketPrice * 0.8, ticketPrice * 0.2, Some(flightDate + " 14:00"), PartialRefundMessage)
    else
      RefundResult(false, 0.0, 0.0, None, TooLateMessage)
  }

  /** The policy check for one flight label. The date is the label's last ten characters;
      `departureMs` is what the date parser makes of them (`None` when it throws) and `nowMs`
      is the clock. Whole hours are the millisecond difference divided by 3,600,000,
      truncated toward zero. */
  function CheckPolicy(flightInfo: string, nowMs: int, departureMs: Option<int>): (r: RefundResult)
    requires |flightInfo| >= 10
    ensures departureMs.None? ==> !r.isRefundable && r.message == BadFlightMessage
    ensures departureMs.Some? && departureMs.value - nowMs >= 25 * MsPerHour ==>
      r.isRefundable && r.amount == TicketPrice(flightInfo) && r.fee == 0.0 && r.message == FullRefundMessage
    ensures departureMs.Some? && 3 * MsPerHour <= departureMs.value - nowMs < 25 * MsPerHour ==>
      r.isRefundable && r.amount == TicketPrice(flightInfo) * 0.8 && r.fee == TicketPrice(flightInfo) * 0.2
      && r.message == PartialRefundMessage
    ensures departureMs.Some? && departureMs.value - nowMs < 3 * MsPerHour ==>
      !r.isRefundable && r.amount == 0.0 && r.message == TooLateMessage
    ensures r.isRefundable ==>
      r.amount + r.fee == TicketPrice(flightInfo) && 0.0 <= r.fee < r.amount
      && r.departureTime == Some(flightInfo[|flightInfo| - 10..] + " 14:00")
    ensures !r.isRefundable ==> r.amount == 0.0 && r.departureTime.None?
  {
    var flightDate := flightInfo[|flightInfo| - 10..];
    match departureMs
    case None => RefundResult(false, 0.0, 0.0, None, BadFlightMessage)
    case Some(departure) =>
      var diffHours := TruncDiv(departure - nowMs, MsPerHour);
      TruncDivExceeds(departure - nowMs, MsPerHour, 24);
      TruncDivExceeds(departure - nowMs, MsPerHour, 2);
      Tier(TicketPrice(flightInfo), diffHours, flightDate)
  }

  /** Exactly 24 hours before departure is already in the 20% tier, and exactly 2 hours is refused. */
  lemma {:induction false} BoundariesFallIntoTheLowerTier(flightInfo: string, departureMs: int)
    requires |flightInfo| >= 10
    ensures CheckPolicy(flightInfo, departureMs - 24 * MsPerHour, Some(departureMs)).message == PartialRefundMessage
    ensures CheckPolicy(flightInfo, departureMs - 2 * MsPerHour, Some(departureMs)).message == TooLateMessage
    ensures !CheckPolicy(flightInfo, departureMs + 1, Some(departureMs)).isRefundable
  {
  }

  /** The warning shown when the check is pressed with no flight selected. */
  const SelectFlightMessage: string := "请选择要退票的航班"

  /** The refund screen's own state. `shown` is the last result the result label displays. */
  class RefundScreen {
    const orderId: string
    var refundAmount: real
    var confirmEnabled: bool
    var shown: Option<RefundResult>
    var disposed: bool

    /** Confirm is only ever enabled right after a refundable check, and the remembered
        amount is the one that check displayed. */
    ghost predicate Valid()
      reads this
    {
      && refundAmount >= 0.0
      && (confirmEnabled ==> shown.Some? && shown.value.isRefundable && refundAmount == shown.value.amount)
    }

    constructor (orderId: string)
      ensures Valid() && this.orderId == orderId
      ensures refundAmount == 0.0 && !confirmEnabled && shown.None? && !disposed
    {
      this.orderId := orderId;
      refundAmount := 0.0;
      confirmEnabled := false;
      shown := None;
      disposed := false;
    }

    /** The "check refund rules" handler. `selectedFlight` is the combo box selection; without
        one the handler shows the `warning` dialog. A label shorter than ten characters makes
        `substring` throw before the policy runs, which ends the handler with nothing changed
        and no dialog. */
    method CheckRefundPolicy(selectedFlight: Option<string>, nowMs: int, departureMs: Option<int>)
      returns (checked: Option<RefundResult>, warning: Option<string>)
      requires Valid()
      modifies this`refundAmount, this`confirmEnabled, this`shown
      ensures Valid()
      ensures warning.Some? <==> selectedFlight.None? || selectedFlight.value == []
      ensures warning.Some? ==> warning.value == SelectFlightMessage
      ensures checked.Some? <==> selectedFlight.Some? && |selectedFlight.value| >= 10
      ensures checked.None? ==> unchanged(this)
      ensures checked.Some? ==>
        selectedFlight.Some? && |selectedFlight.value| >= 10
        && checked.value == CheckPolicy(selectedFlight.value, nowMs, departureMs)
        && shown == checked
        && confirmEnabled == checked.value.isRefundable
        && refundAmount == (if checked.value.isRefundable then checked.value.amount else old(refundAmount))
    {
      if selectedFlight.None? || selectedFlight.value == [] {
        return None, Some(SelectFlightMessage);
      }
      warning := None;
      var flight := selectedFlight.value;
      if |flight| < 10 {
        return None, None;
      }
      var result := CheckPolicy(flight, nowMs, departureMs);
      if result.isRefundable {
        refundAmount := result.amount;
        confirmEnabled := true;
      } else {
        confirmEnabled := false;
      }
      shown := Some(result);
      checked := Some(result);
    }

    /** The "confirm refund" handler. `userConfirms` is the answer to the confirmation dialog;
        the simulated refund always succeeds and closes the window. The amount paid out is
        the stored `refundAmount`. */
    method ProcessRefund(userConfirms: bool) returns (paidOut: Option<real>)
      requires Valid()
      modifies this`disposed
      ensures Valid()
      ensures paidOut == (if userConfirms then Some(refundAmount) else None)
      ensures disposed == (old(disposed) || userConfirms)
    {
      if userConfirms {
        paidOut := Some(refundAmount);
        disposed := true;
      } else {
        paidOut := None;
      }
    }
  }

  /** Confirming right after a refundable check pays out exactly the amount that check displayed. */
  method CheckThenConfirm(flight: string, nowMs: int, departureMs: int) returns (paidOut: Option<real>)
    requires |flight| >= 10
    requires departureMs - nowMs >= 3 * MsPerHour
    ensures paidOut == Some(CheckPolicy(flight, nowMs, Some(departureMs)).amount)
    ensures paidOut.value == TicketPrice(flight) || paidOut.value == TicketPrice(flight) * 0.8
  {
    var screen := new RefundScreen("ORD1001");
    var checked, _ := screen.CheckRefundPolicy(Some(flight), nowMs, Some(departureMs));
    assert screen.confirmEnabled;
    paidOut := screen.ProcessRefund(true);
  }
}
