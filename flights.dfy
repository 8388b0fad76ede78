/** Flight entry: validation of the flight form, extraction of airport codes and the aircraft
    id from the combo box items, and the insert into the flights table. */
module Flights {
  import opened JavaText

  /** Separator between a code and its description in the combo box items. */
  const Separator: string := " - "

  /** The airport code of a combo box item such as "PEK - 北京首都国际机场": the text before
      the first separator, or the whole item when it has none. */
  function AirportCode(item: string): (code: string)
    ensures Contains(item, Separator) ==>
      |code| + |Separator| <= |item| && item[..|code| + |Separator|] == code + Separator
      && !Contains(code, Separator)
    ensures !Contains(item, Separator) ==> code == item
  {
    PrefixBefore(item, Separator)
  }

  /** The aircraft id of an aircraft item: element 0 of `split(" - ")`. An item made only of
      separators splits into an empty array, and indexing it throws. */
  function AircraftId(item: string): (id: Option<string>)
    ensures PrefixBefore(item, Separator) != [] ==> id == Some(PrefixBefore(item, Separator))
    ensures id.None? <==> Split(item, Separator) == []
    ensures id.Some? ==> Split(item, Separator) != [] && id.value == Split(item, Separator)[0]
  {
    var parts := Split(item, Separator);
    if PrefixBefore(item, Separator) != [] then
      SplitHeadIsPrefix(item, Separator);
      Some(parts[0])
    else if parts == [] then None
    else Some(parts[0])
  }

  /** The airport code of a catalogue entry. */
  lemma AirportCodeOfCatalogueEntry(airport: string)
    requires airport == "PEK - 北京首都国际机场"
    ensures AirportCode(airport) == "PEK"
  {
    assert OccursAt(airport, Separator, 3);
    NotOccursAtMismatch(airport, Separator, 0);
    NotOccursAtMismatch(airport, Separator, 1);
    NotOccursAtMismatch(airport, Separator, 2);
    IndexOfFindsFirst(airport, Separator, 3);
  }

  /** The aircraft id of a catalogue entry. */
  lemma AircraftIdOfCatalogueEntry(aircraft: string)
    requires aircraft == "B-001A - A320 (180座)"
    ensures AircraftId(aircraft) == Some("B-001A")
  {
    assert OccursAt(aircraft, Separator, 6);
    forall j | 0 <= j < 6
      ensures !OccursAt(aircraft, Separator, j)
    {
      NotOccursAtMismatch(aircraft, Separator, j);
    }
    IndexOfFindsFirst(aircraft, Separator, 6);
    assert PrefixBefore(aircraft, Separator) == aircraft[..6];
    assert aircraft[..6] == "B-001A";
  }

  /** An item that is nothing but the separator has no aircraft id. */
  lemma SeparatorAloneHasNoAircraftId()
    ensures AircraftId(Separator).None?
  {
    assert IndexOf(Separator, Separator) == Some(0);
    assert Separator[3..] == [];
    assert Pieces(Separator, Separator) == [[], []];
  }

  /** The validated contents of the form. */
  datatype FlightEntry = FlightEntry(
    flightNumber: string,
    departureAirport: string,
    arrivalAirport: string,
    departureTime: string,
    arrivalTime: string,
    aircraftId: string,
    basePrice: real,
    gate: string,
    terminal: string)

  /** The form as the handler reads it: text fields untrimmed, combo selections possibly absent. */
  datatype FlightForm = FlightForm(
    flightNumber: string,
    departureAirport: Option<string>,
    arrivalAirport: Option<string>,
    departureTime: string,
    arrivalTime: string,
    basePrice: string,
    gate: string,
    terminal: string,
    aircraft: Option<string>)

  /** Why a submission is refused, in the order the handler checks. */
  datatype SubmitError =
    | MissingFields
    | BadTimeFormat
    | ArrivalNotAfterDeparture
    | BadPriceFormat
    | NonPositivePrice
    | Unexpected
    | SaveFailed

  datatype Checked = Accepted(entry: FlightEntry) | Rejected(error: SubmitError)

  /** A required field is empty once trimmed, or a required airport is not selected. */
  predicate LacksRequiredField(form: FlightForm) {
    || Trim(form.flightNumber) == [] || form.departureAirport.None? || form.arrivalAirport.None?
    || Trim(form.departureTime) == [] || Trim(form.arrivalTime) == [] || Trim(form.basePrice) == []
  }

  /** Both times parsed. */
  predicate TimesParsed(departureAt: Option<int>, arrivalAt: Option<int>) {
    departureAt.Some? && arrivalAt.Some?
  }

  /** Both times parsed and the arrival is strictly after the departure. */
  predicate TimesInOrder(departureAt: Option<int>, arrivalAt: Option<int>) {
    TimesParsed(departureAt, arrivalAt) && arrivalAt.value > departureAt.value
  }

  /** The price parsed and is above zero. */
  predicate PricePositive(price: Option<real>) {
    price.Some? && price.value > 0.0
  }

  /** An aircraft item is selected and an id can be read from it. */
  predicate AircraftChosen(form: FlightForm) {
    form.aircraft.Some? && AircraftId(form.aircraft.value).Some?
  }

  /** The form's checks. `departureAt` and `arrivalAt` are what the "yyyy-MM-dd HH:mm" parser
      makes of the trimmed time fields (`None` when it throws) and `price` what
      `Double.parseDouble` makes of the trimmed price. Each refusal is reported exactly when
      every earlier check passes and its own fails. */
  function CheckForm(form: FlightForm, departureAt: Option<int>, arrivalAt: Option<int>, price: Option<real>)
    : (r: Checked)
    ensures r == Rejected(MissingFields) <==> LacksRequiredField(form)
    ensures r == Rejected(BadTimeFormat) <==>
      !LacksRequiredField(form) && !TimesParsed(departureAt, arrivalAt)
    ensures r == Rejected(ArrivalNotAfterDeparture) <==>
      && !LacksRequiredField(form) && TimesParsed(departureAt, arrivalAt)
      && arrivalAt.value <= departureAt.value
    ensures r == Rejected(BadPriceFormat) <==>
      !LacksRequiredField(form) && TimesInOrder(departureAt, arrivalAt) && price.None?
    ensures r == Rejected(NonPositivePrice) <==>
      && !LacksRequiredField(form) && TimesInOrder(departureAt, arrivalAt)
      && price.Some? && price.value <= 0.0
    ensures r == Rejected(Unexpected) <==>
      && !LacksRequiredField(form) && TimesInOrder(departureAt, arrivalAt) && PricePositive(price)
      && !AircraftChosen(form)
    ensures r.Accepted? <==>
      && !LacksRequiredField(form) && TimesInOrder(departureAt, arrivalAt) && PricePositive(price)
      && AircraftChosen(form)
    ensures r.Accepted? ==>
      && form.departureAirport.Some? && form.arrivalAirport.Some? && form.aircraft.Some?
      && r.entry == FlightEntry(
           Trim(form.flightNumber),
           AirportCode(form.departureAirport.value), AirportCode(form.arrivalAirport.value),
           Trim(form.departureTime), Trim(form.arrivalTime),
           AircraftId(form.aircraft.value).value, price.value,
           Trim(form.gate), Trim(form.terminal))
    ensures r.Rejected? ==> r.error != SaveFailed
  {
    if LacksRequiredField(form) then Rejected(MissingFields)
    else if !TimesParsed(departureAt, arrivalAt) then Rejected(BadTimeFormat)
    else if !(arrivalAt.value > departureAt.value) then Rejected(ArrivalNotAfterDeparture)
    else if price.None? then Rejected(BadPriceFormat)
    else if price.value <= 0.0 then Rejected(NonPositivePrice)
    else if !AircraftChosen(form) then Rejected(Unexpected)
    else
      Accepted(FlightEntry(
        Trim(form.flightNumber),
        AirportCode(form.departureAirport.value), AirportCode(form.arrivalAirport.value),
        Trim(form.departureTime), Trim(form.arrivalTime),
        AircraftId(form.aircraft.value).value, price.value,
        Trim(form.gate), Trim(form.terminal)))
  }

  /** A stored flight. Absent gate and terminal are SQL NULL. */
  datatype FlightRow = FlightRow(
    flightId: string,
    flightNumber: string,
    aircraftId: string,
    departureAirport: string,
    arrivalAirport: string,
    departureTime: string,
    arrivalTime: string,
    basePrice: real,
    availableSeats: int,
    status: string,
    gate: Option<string>,
    terminal: Option<string>)

  /** The flights table keyed by `flight_id`, and the aircraft table's seat counts. */
  type FlightTable = map<string, FlightRow>

  const DefaultSeats: int := 180
  const Scheduled: string := "scheduled"

  /** `"FL" + System.currentTimeMillis()`. */
  function FlightId(nowMs: nat): (id: string)
    ensures StartsWith(id, "FL") && |id| > 2
    ensures forall i :: 2 <= i < |id| ==> IsAsciiDigit(id[i])
    ensures DecimalValue(id[2..]) == nowMs
    ensures id[2] == '0' <==> nowMs == 0
  {
    var digits := NatToString(nowMs);
    assert ("FL" + digits)[2..] == digits;
    "FL" + digits
  }

  /** Seats of a new flight: the aircraft's total, or 180 for an aircraft the table lacks. */
  function SeatsFor(aircraftSeats: map<string, int>, aircraftId: string): (seats: int)
    ensures aircraftId !in aircraftSeats ==> seats == DefaultSeats
    ensures aircraftId in aircraftSeats ==> seats == aircraftSeats[aircraftId]
  {
    if aircraftId in aircraftSeats then aircraftSeats[aircraftId] else DefaultSeats
  }

  /** An empty text is stored as NULL. */
  function NullIfEmpty(s: string): (r: Option<string>)
    ensures r.None? <==> s == []
    ensures r.Some? ==> r.value == s
  {
    if s == [] then None else Some(s)
  }

  /** The row inserted for a validated entry. */
  function NewRow(entry: FlightEntry, flightId: string, seats: int): (row: FlightRow)
    ensures row.flightId == flightId && row.flightNumber == entry.flightNumber
    ensures row.status == Scheduled && row.availableSeats == seats
    ensures row.departureTime == entry.departureTime + ":00" && row.arrivalTime == entry.arrivalTime + ":00"
    ensures row.gate.None? <==> entry.gate == []
    ensures row.terminal.None? <==> entry.terminal == []
    ensures row.aircraftId == entry.aircraftId && row.basePrice == entry.basePrice
    ensures row.departureAirport == entry.departureAirport && row.arrivalAirport == entry.arrivalAirport
  {
    FlightRow(flightId, entry.flightNumber, entry.aircraftId, entry.departureAirport, entry.arrivalAirport,
      entry.departureTime + ":00", entry.arrivalTime + ":00", entry.basePrice, seats, Scheduled,
      NullIfEmpty(entry.gate), NullIfEmpty(entry.terminal))
  }

  /** Some stored flight already has this flight number. */
  predicate HasFlightNumber(flights: FlightTable, flightNumber: string) {
    exists id :: id in flights && flights[id].flightNumber == flightNumber
  }

  class FlightDatabase {
    var flights: FlightTable
    var aircraftSeats: map<string, int>

    /** Rows are stored under their own id, and as long as flights are only entered through
        the form no two of them share a flight number. */
    ghost predicate Valid()
      reads this
    {
      && (forall id :: id in flights ==> flights[id].flightId == id)
      && (forall a, b :: a in flights && b in flights && a != b ==> flights[a].flightNumber != flights[b].flightNumber)
    }

    constructor (aircraftSeats: map<string, int>)
      ensures Valid() && flights == map[] && this.aircraftSeats == aircraftSeats
    {
      flights := map[];
      this.aircraftSeats := aircraftSeats;
    }

    /** The aircraft table lookup with its default. */
    method GetAircraftSeats(aircraftId: string) returns (seats: int)
      ensures seats == SeatsFor(aircraftSeats, aircraftId)
      ensures aircraftId !in aircraftSeats ==> seats == 180
    {
      seats := DefaultSeats;
      if aircraftId in aircraftSeats {
        seats := aircraftSeats[aircraftId];
      }
    }

    /** The insert. A taken flight number is refused before anything is written; an id that
        is already stored (two saves in the same millisecond) violates the primary key. */
    method SaveFlight(entry: FlightEntry, nowMs: nat) returns (ok: bool)
      requires Valid()
      modifies this`flights
      ensures Valid()
      ensures ok <==> !HasFlightNumber(old(flights), entry.flightNumber) && FlightId(nowMs) !in old(flights)
      ensures ok ==> flights == old(flights)[FlightId(nowMs) :=
        NewRow(entry, FlightId(nowMs), SeatsFor(aircraftSeats, entry.aircraftId))]
      ensures ok ==> |flights| == |old(flights)| + 1
      ensures !ok ==> flights == old(flights)
    {
      if HasFlightNumber(flights, entry.flightNumber) {
        return false;
      }
      var flightId := FlightId(nowMs);
      var seats := GetAircraftSeats(entry.aircraftId);
      if flightId in flights {
        return false;
      }
      flights := flights[flightId := NewRow(entry, flightId, seats)];
      ok := true;
    }
  }

  const MissingFieldsMessage: string := "错误：航班号、机场、时间和票价字段都必须填写！"
  const BadTimeMessage: string := "错误：时间格式不正确，请使用 yyyy-MM-dd HH:mm 格式！"
  const OrderMessage: string := "错误：到达时间必须晚于起飞时间！"
  const BadPriceMessage: string := "错误：票价格式不正确，请输入有效数字！"
  const NonPositivePriceMessage: string := "错误：票价必须大于0！"
  const SaveFailedMessage: string := "错误：保存航班信息失败，请检查数据库连接或航班号是否重复！"
  const SavedHeading: string := "航班信息保存成功！\n"

  /** The message for a refusal; an unexpected exception shows "错误：" and its own message. */
  function ErrorMessage(e: SubmitError): (m: string)
    ensures StartsWith(m, "错误：")
  {
    match e
    case MissingFields => MissingFieldsMessage
    case BadTimeFormat => BadTimeMessage
    case ArrivalNotAfterDeparture => OrderMessage
    case BadPriceFormat => BadPriceMessage
    case NonPositivePrice => NonPositivePriceMessage
    case Unexpected => "错误："
    case SaveFailed => SaveFailedMessage
  }

  /** The flight entry window's result area and the database it writes to. */
  class FlightEntryScreen {
    const db: FlightDatabase
    var resultText: string

    ghost predicate Valid()
      reads this, db
    {
      db.Valid()
    }

    constructor (db: FlightDatabase)
      requires db.Valid()
      ensures Valid() && this.db == db && resultText == []
    {
      this.db := db;
      resultText := [];
    }

    /** The submit handler: check the form, then save; the table changes only on success. */
    method SubmitFlightInfo(form: FlightForm, departureAt: Option<int>, arrivalAt: Option<int>,
                            price: Option<real>, priceText: string, nowMs: nat)
      returns (error: Option<SubmitError>)
      requires Valid()
      modifies this`resultText, db`flights
      ensures Valid()
      ensures var checked := CheckForm(form, departureAt, arrivalAt, price);
        && (checked.Rejected? ==> error == Some(checked.error) && db.flights == old(db.flights))
        && (checked.Accepted? ==>
              && (error.None? <==>
                    !HasFlightNumber(old(db.flights), checked.entry.flightNumber)
                    && FlightId(nowMs) !in old(db.flights))
              && (error.Some? ==> error == Some(SaveFailed) && db.flights == old(db.flights))
              && (error.None? ==> db.flights == old(db.flights)[FlightId(nowMs) :=
                    NewRow(checked.entry, FlightId(nowMs), SeatsFor(db.aircraftSeats, checked.entry.aircraftId))]))
      ensures error.Some? ==> resultText == ErrorMessage(error.value)
      ensures var checked := CheckForm(form, departureAt, arrivalAt, price);
        error.None? ==> checked.Accepted? && resultText == SavedHeading + SavedDetails(checked.entry, priceText)
    {
      var checked := CheckForm(form, departureAt, arrivalAt, price);
      if checked.Rejected? {
        resultText := ErrorMessage(checked.error);
        return Some(checked.error);
      }
      error := SaveEntry(checked.entry, priceText, nowMs);
    }

    /** The save step of the submit handler and the text it shows. */
    method SaveEntry(entry: FlightEntry, priceText: string, nowMs: nat) returns (error: Option<SubmitError>)
      requires Valid()
      modifies this`resultText, db`flights
      ensures Valid()
      ensures error.None? <==> !HasFlightNumber(old(db.flights), entry.flightNumber) && FlightId(nowMs) !in old(db.flights)
      ensures error.Some? ==> error == Some(SaveFailed) && db.flights == old(db.flights)
      ensures error.None? ==> db.flights == old(db.flights)[FlightId(nowMs) :=
        NewRow(entry, FlightId(nowMs), SeatsFor(db.aircraftSeats, entry.aircraftId))]
      ensures error.Some? ==> resultText == ErrorMessage(error.value)
      ensures error.None? ==> resultText == SavedHeading + SavedDetails(entry, priceText)
    {
      var saved := db.SaveFlight(entry, nowMs);
      if saved {
        resultText := SavedHeading + SavedDetails(entry, priceText);
        error := None;
      } else {
        resultText := ErrorMessage(SaveFailed);
        error := Some(SaveFailed);
      }
    }
  }

  /** The summary lines after the heading; `priceText` is the price as `Double.toString`
      writes it. */
  function SavedDetails(e: FlightEntry, priceText: string): string {
    "航班号: " + e.flightNumber + "\n"
      + "航线: " + e.departureAirport + " → " + e.arrivalAirport + "\n"
      + "起飞时间: " + e.departureTime + "\n"
      + "到达时间: " + e.arrivalTime + "\n"
      + "飞机: " + e.aircraftId + "\n"
      + "基础票价: ¥" + priceText + "\n"
      + "登机口: " + (if e.gate == [] then "未指定" else e.gate) + "\n"
      + "航站楼: " + (if e.terminal == [] then "未指定" else e.terminal)
  }
}
