/** The reschedule/upgrade screen: the simulated price difference between the booked flight
    and the target flight and cabin, and the screen state that carries that difference from
    the availability check to the confirmation. */
module Reschedule {
  import opened JavaText
  import opened BookedFlights

  const Economy: string := "经济舱"
  const Business: string := "商务舱"
  const First: string := "头等舱"

  /** The target flights and cabins the screen offers. */
  const TargetFlights: seq<string> := [
    "MU5113 北京-上海 2023-06-16",
    "MU5115 北京-上海 2023-06-17",
    "CA1835 北京-上海 2023-06-18"
  ]
  const Cabins: seq<string> := [Economy, Business, First]

  /** A cabin with a fixed fare of its own; any other cabin keeps the booked fare. */
  predicate IsUpgrade(cabin: string) {
    cabin == Business || cabin == First
  }

  /** The booked fare, looked up from the booked flight's label. */
  function OriginalPrice(originalFlight: string): (price: real)
    ensures price == 900.0 || price == 1200.0 || price == 1500.0
    ensures price == 1500.0 <==> Contains(originalFlight, "CA1833")
    ensures !Contains(originalFlight, "CA1833") && Contains(originalFlight, "CZ3108") ==> price == 900.0
    ensures !Contains(originalFlight, "CA1833") && !Contains(originalFlight, "CZ3108") ==> price == 1200.0
  {
    if Contains(originalFlight, "CA1833") then 1500.0
    else if Contains(originalFlight, "CZ3108") then 900.0
    else 1200.0
  }

  /** The fare of the chosen cabin before the target flight's adjustment. */
  function CabinPrice(cabin: string, originalPrice: real): (price: real)
    ensures !IsUpgrade(cabin) ==> price == originalPrice
    ensures IsUpgrade(cabin) ==> price >= 2800.0
    ensures cabin == Business ==> price == 2800.0
    ensures cabin == First ==> price == 3800.0
  {
    if cabin == Business then 2800.0
    else if cabin == First then 3800.0
    else originalPrice
  }

  /** The target flight's adjustment: ten percent dearer, ten percent cheaper, or none. */
  function FlightFactor(targetFlight: string): (factor: real)
    ensures factor == 1.1 || factor == 0.9 || factor == 1.0
    ensures factor == 1.0 <==> !Contains(targetFlight, "MU5113") && !Contains(targetFlight, "CA1835")
    ensures Contains(targetFlight, "MU5113") ==> factor == 1.1
    ensures !Contains(targetFlight, "MU5113") && Contains(targetFlight, "CA1835") ==> factor == 0.9
  {
    if Contains(targetFlight, "MU5113") then 1.1
    else if Contains(targetFlight, "CA1835") then 0.9
    else 1.0
  }

  /** The price difference of a change: target fare minus booked fare. An upgrade always costs
      extra; staying in the booked cabin costs or returns exactly the flight's adjustment on
      the booked fare, and is free exactly when the target flight has no adjustment. */
  function PriceDifference(originalFlight: string, targetFlight: string, cabin: string): (d: real)
    ensures -150.0 <= d <= 3280.0
    ensures IsUpgrade(cabin) ==> d >= 1020.0
    ensures cabin == Business ==> d == 2800.0 * FlightFactor(targetFlight) - OriginalPrice(originalFlight)
    ensures cabin == First ==> d == 3800.0 * FlightFactor(targetFlight) - OriginalPrice(originalFlight)
    ensures !IsUpgrade(cabin) ==> d == OriginalPrice(originalFlight) * (FlightFactor(targetFlight) - 1.0)
    ensures d == 0.0 <==> !IsUpgrade(cabin) && FlightFactor(targetFlight) == 1.0
    ensures d < 0.0 <==> !IsUpgrade(cabin) && FlightFactor(targetFlight) == 0.9
  {
    var originalPrice := OriginalPrice(originalFlight);
    CabinPrice(cabin, originalPrice) * FlightFactor(targetFlight) - originalPrice
  }

  /** What the simulated availability check reports. */
  datatype AvailabilityResult = AvailabilityResult(isAvailable: bool, remainingSeats: int, priceDifference: real)

  /** The simulated availability check. `seatRoll` is `(int)(Math.random() * 10)`, a number
      from 0 to 9; the flight is always available with one to ten seats left. */
  function SimulateCheckAvailability(originalFlight: string, targetFlight: string, cabin: string, seatRoll: nat)
    : (r: AvailabilityResult)
    requires seatRoll < 10
    ensures r.isAvailable && 1 <= r.remainingSeats <= 10
    ensures r.priceDifference == PriceDifference(originalFlight, targetFlight, cabin)
  {
    AvailabilityResult(true, seatRoll + 1, PriceDifference(originalFlight, targetFlight, cabin))
  }

  /** Which flight number each offered target label contains. */
  lemma TargetFlightFactors()
    ensures FlightFactor(TargetFlights[0]) == 1.1
    ensures FlightFactor(TargetFlights[1]) == 1.0
    ensures FlightFactor(TargetFlights[2]) == 0.9
  {
    DearerTarget(TargetFlights[0]);
    UnadjustedTarget(TargetFlights[1]);
    CheaperTarget(TargetFlights[2]);
  }

  lemma DearerTarget(f: string)
    requires f == "MU5113 北京-上海 2023-06-16"
    ensures Contains(f, "MU5113")
  {
    assert OccursAt(f, "MU5113", 0);
  }

  lemma UnadjustedTarget(f: string)
    requires f == "MU5115 北京-上海 2023-06-17"
    ensures !Contains(f, "MU5113") && !Contains(f, "CA1835")
  {
    assert f[..6] != "MU5113" by { assert f[5] == '5'; }
    assert 'M' !in f[1..];
    NotContainsUnlessAtFront(f, "MU5113");
    NotContainsWithoutFirstChar(f, "CA1835");
  }

  lemma CheaperTarget(f: string)
    requires f == "CA1835 北京-上海 2023-06-18"
    ensures !Contains(f, "MU5113") && Contains(f, "CA1835")
  {
    NotContainsWithoutFirstChar(f, "MU5113");
    assert OccursAt(f, "CA1835", 0);
  }

  /** The booked fares of the three booked flights. */
  lemma BookedFares()
    ensures OriginalPrice(Labels[0]) == 1200.0
    ensures OriginalPrice(Labels[1]) == 1500.0
    ensures OriginalPrice(Labels[2]) == 900.0
  {
    FirstBookedFlight();
    SecondBookedFlight();
    ThirdBookedFlight();
  }

  /** Staying in economy from MU5112: the dearer target costs 120, the unadjusted one nothing,
      the cheaper one returns 120. */
  lemma EconomyChangesFromFirstBooking()
    ensures PriceDifference(Labels[0], TargetFlights[0], Economy) == 120.0
    ensures PriceDifference(Labels[0], TargetFlights[1], Economy) == 0.0
    ensures PriceDifference(Labels[0], TargetFlights[2], Economy) == -120.0
  {
    BookedFares();
    TargetFlightFactors();
  }

  /** Upgrades price the target cabin's own fare: business on the unadjusted flight from
      MU5112 costs 1600 more, first class on the dearer flight from CA1833 costs 2680 more. */
  lemma UpgradesFromBookedFlights()
    ensures PriceDifference(Labels[0], TargetFlights[1], Business) == 1600.0
    ensures PriceDifference(Labels[1], TargetFlights[0], First) == 2680.0
  {
    BookedFares();
    TargetFlightFactors();
  }

  /** The confirmation the screen shows once a change is completed. `processedAt` is the
      clock as "yyyy-MM-dd HH:mm" formats it. */
  datatype Confirmation = Confirmation(
    originalFlight: string,
    targetFlight: string,
    cabin: string,
    processedAt: string,
    priceDifference: real)

  /** What one press of the confirm button does: the amount charged, if any, and the
      confirmation, if the change was completed. */
  datatype RescheduleOutcome = RescheduleOutcome(charged: Option<real>, confirmation: Option<Confirmation>)

  const ConfirmLabel: string := "确认改签"
  const PayAndConfirmLabel: string := "支付并改签"

  /** The confirm button's caption for a price difference (a zero difference already reads "pay"). */
  function ConfirmCaption(priceDifference: real): (caption: string)
    ensures caption == PayAndConfirmLabel <==> priceDifference >= 0.0
  {
    if priceDifference >= 0.0 then PayAndConfirmLabel else ConfirmLabel
  }

  class RescheduleScreen {
    const orderId: string
    var priceDifference: real
    var confirmEnabled: bool
    var confirmCaption: string
    var shown: Option<AvailabilityResult>
    var disposed: bool

    /** Confirm is enabled only after an available check, and then the remembered difference
        and the button's caption are the ones that check produced. */
    ghost predicate Valid()
      reads this
    {
      confirmEnabled ==>
        && shown.Some? && shown.value.isAvailable
        && priceDifference == shown.value.priceDifference
        && confirmCaption == ConfirmCaption(priceDifference)
    }

    constructor (orderId: string)
      ensures Valid() && this.orderId == orderId
      ensures priceDifference == 0.0 && !confirmEnabled && confirmCaption == ConfirmLabel
      ensures shown.None? && !disposed
    {
      this.orderId := orderId;
      priceDifference := 0.0;
      confirmEnabled := false;
      confirmCaption := ConfirmLabel;
      shown := None;
      disposed := false;
    }

    /** The "check availability" handler. Choosing the booked flight as its own target only
        raises a warning. */
    method CheckAvailability(originalFlight: string, targetFlight: string, cabin: string, seatRoll: nat)
      returns (warned: bool)
      requires Valid() && seatRoll < 10
      modifies this`priceDifference, this`confirmEnabled, this`confirmCaption, this`shown
      ensures Valid()
      ensures warned <==> originalFlight == targetFlight
      ensures warned ==> unchanged(this)
      ensures !warned ==>
        && shown == Some(SimulateCheckAvailability(originalFlight, targetFlight, cabin, seatRoll))
        && confirmEnabled
        && priceDifference == PriceDifference(originalFlight, targetFlight, cabin)
        && confirmCaption == ConfirmCaption(priceDifference)
    {
      if originalFlight == targetFlight {
        return true;
      }
      warned := false;
      var result := SimulateCheckAvailability(originalFlight, targetFlight, cabin, seatRoll);
      shown := Some(result);
      // The simulated check always reports availability, so the "no seats left" branch never runs.
      priceDifference := result.priceDifference;
      confirmEnabled := true;
      confirmCaption := ConfirmCaption(result.priceDifference);
    }

    /** The "confirm" handler. The current selections are read again, but the difference is
        the one remembered from the last check. A positive difference is charged only when
        the payment dialog is answered yes; the simulated payment and change always succeed
        and close the window. A negative difference is never paid back. `nowText` is the
        formatted clock the confirmation shows. */
    method ProcessReschedule(originalFlight: string, targetFlight: string, cabin: string, confirmPayment: bool,
      nowText: string)
      returns (outcome: RescheduleOutcome)
      requires Valid()
      modifies this`disposed
      ensures Valid()
      ensures outcome.charged.Some? <==> priceDifference > 0.0 && confirmPayment
      ensures outcome.charged.Some? ==> outcome.charged.value == priceDifference
      ensures outcome.confirmation.Some? <==> priceDifference <= 0.0 || confirmPayment
      ensures outcome.confirmation.Some? ==>
        outcome.confirmation.value == Confirmation(originalFlight, targetFlight, cabin, nowText, priceDifference)
      ensures disposed == (old(disposed) || outcome.confirmation.Some?)
    {
      if priceDifference > 0.0 {
        if confirmPayment {
          var paid := SimulatePayment(priceDifference);
          if paid {
            var confirmation := CompleteReschedule(originalFlight, targetFlight, cabin, nowText);
            outcome := RescheduleOutcome(Some(priceDifference), confirmation);
          } else {
            outcome := RescheduleOutcome(None, None);
          }
        } else {
          outcome := RescheduleOutcome(None, None);
        }
      } else {
        var confirmation := CompleteReschedule(originalFlight, targetFlight, cabin, nowText);
        outcome := RescheduleOutcome(None, confirmation);
      }
    }

    /** The simulated change always succeeds, produces the confirmation and closes the window. */
    method CompleteReschedule(originalFlight: string, targetFlight: string, cabin: string, nowText: string)
      returns (confirmation: Option<Confirmation>)
      modifies this`disposed
      ensures confirmation == Some(Confirmation(originalFlight, targetFlight, cabin, nowText, priceDifference))
      ensures disposed
    {
      confirmation := Some(Confirmation(originalFlight, targetFlight, cabin, nowText, priceDifference));
      disposed := true;
    }
  }

  /** The simulated payment always succeeds. */
  method SimulatePayment(amount: real) returns (success: bool)
    ensures success
  {
    success := true;
  }

  /** Checking a change and then agreeing to every dialog completes it: a positive difference
      is charged exactly once, and a zero or negative one is neither charged nor paid back. */
  method CheckThenConfirm(originalFlight: string, targetFlight: string, cabin: string, seatRoll: nat,
    nowText: string)
    returns (outcome: RescheduleOutcome)
    requires seatRoll < 10 && originalFlight != targetFlight
    ensures var d := PriceDifference(originalFlight, targetFlight, cabin);
      outcome.charged == (if d > 0.0 then Some(d) else None)
    ensures outcome.confirmation.Some? && outcome.confirmation.value.processedAt == nowText
    ensures IsUpgrade(cabin) ==> outcome.charged.Some?
  {
    var screen := new RescheduleScreen("ORD1001");
    var warned := screen.CheckAvailability(originalFlight, targetFlight, cabin, seatRoll);
    outcome := screen.ProcessReschedule(originalFlight, targetFlight, cabin, true, nowText);
  }
}
