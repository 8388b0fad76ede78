/** The flight query window: a date field checked against the pattern `\d{4}-\d{2}-\d{2}`
    and against the clock, a fixed result text, and a return button that clears the form. */
module FlightQuery {
  import opened JavaText

  /** One element of a regular expression without alternation: a character class repeated
      a fixed number of times (`\d{4}`, or a literal `-` once). */
  datatype CharClass = Digit | Literal(c: char)
  datatype Repeat = Repeat(cls: CharClass, count: nat)

  /** `\d{4}-\d{2}-\d{2}` */
  const DatePattern: seq<Repeat> :=
    [Repeat(Digit, 4), Repeat(Literal('-'), 1), Repeat(Digit, 2), Repeat(Literal('-'), 1), Repeat(Digit, 2)]

  /** Without the UNICODE_CHARACTER_CLASS flag, `\d` is the ASCII digits only. */
  predicate InClass(cls: CharClass, c: char) {
    match cls
    case Digit => IsAsciiDigit(c)
    case Literal(l) => c == l
  }

  /** `String.matches`: the whole string, and nothing more, matches the pattern. */
  predicate FullMatch(s: string, pattern: seq<Repeat>)
    decreases pattern
  {
    if pattern == [] then s == []
    else
      var r := pattern[0];
      r.count <= |s| && (forall i :: 0 <= i < r.count ==> InClass(r.cls, s[i]))
      && FullMatch(s[r.count..], pattern[1..])
  }

  /** The shape of a date: ten characters, dashes at indices 4 and 7, digits elsewhere. */
  predicate HasDateShape(s: string) {
    |s| == 10 && s[4] == '-' && s[7] == '-'
    && forall i :: 0 <= i < 10 && i != 4 && i != 7 ==> IsAsciiDigit(s[i])
  }

  /** The date pattern accepts exactly the strings of date shape. */
  lemma DatePatternMeansDateShape(s: string)
    ensures FullMatch(s, DatePattern) <==> HasDateShape(s)
  {
    var p := DatePattern;
    assert p[1..][1..][1..][1..][1..] == [];
    if |s| >= 10 {
      assert s[4..][1..] == s[5..] && s[5..][2..] == s[7..] && s[7..][1..] == s[8..] && s[8..][2..] == s[10..];
      if HasDateShape(s) {
        assert FullMatch(s[8..], p[4..]) by { assert p[4..][1..] == []; }
        assert FullMatch(s[7..], p[3..]) by { assert p[3..][1..] == p[4..]; }
        assert FullMatch(s[5..], p[2..]) by { assert p[2..][1..] == p[3..]; }
        assert FullMatch(s[4..], p[1..]) by { assert p[1..][1..] == p[2..]; }
      }
    }
  }

  /** The date check. `parsedMidnightMs` is what the date parser makes of the text (`None`
      when it throws) and `nowMs` is the clock: a date passes when it has the right shape
      and its midnight lies strictly after now, so today never passes. */
  function IsValidDate(dateText: string, parsedMidnightMs: Option<int>, nowMs: int): (ok: bool)
    ensures ok <==> HasDateShape(dateText) && parsedMidnightMs.Some? && parsedMidnightMs.value > nowMs
  {
    DatePatternMeansDateShape(dateText);
    if !FullMatch(dateText, DatePattern) then false
    else
      match parsedMidnightMs
      case None => false
      case Some(midnight) => midnight > nowMs
  }

  const CabinOptions: seq<string> := ["经济舱", "商务舱"]
  const QueryResult: string := "MU5112 08:00-10:00 经济舱 ¥1200 (余票5)\n" + "CA1833 12:30-14:45 商务舱 ¥2400 (余票2)"
  const InvalidDateMessage: string := "日期无效（必须为未来日期且格式为YYYY-MM-DD）"

  /** The query window's fields, the cabin selection and the result area. */
  class FlightQueryScreen {
    var departureText: string
    var destinationText: string
    var dateText: string
    var cabinIndex: nat
    var resultText: string

    ghost predicate Valid()
      reads this
    {
      cabinIndex < |CabinOptions|
    }

    constructor ()
      ensures Valid() && departureText == [] && destinationText == [] && dateText == []
      ensures cabinIndex == 0 && resultText == []
    {
      departureText := [];
      destinationText := [];
      dateText := [];
      cabinIndex := 0;
      resultText := [];
    }

    /** The query handler: an invalid date shows the error dialog (`dialog`, its message) and
        leaves the result as it was; a valid one shows the fixed result, whatever was entered. */
    method Query(parsedMidnightMs: Option<int>, nowMs: int) returns (dialog: Option<string>)
      modifies this`resultText
      ensures dialog.Some? <==> !IsValidDate(dateText, parsedMidnightMs, nowMs)
      ensures dialog.Some? ==> dialog.value == InvalidDateMessage
      ensures resultText == if dialog.Some? then old(resultText) else QueryResult
    {
      if !IsValidDate(dateText, parsedMidnightMs, nowMs) {
        return Some(InvalidDateMessage);
      }
      resultText := QueryResult;
      dialog := None;
    }

    /** The return handler: both text fields and the date are cleared, the cabin goes back
        to economy and the result is emptied. */
    method Return()
      modifies this
      ensures Valid() && departureText == [] && destinationText == [] && dateText == []
      ensures cabinIndex == 0 && resultText == []
    {
      departureText := [];
      destinationText := [];
      dateText := [];
      cabinIndex := 0;
      resultText := [];
    }
  }

  /** A query right after return is refused: the cleared date field has no date shape. */
  method ReturnThenQuery(screen: FlightQueryScreen, parsedMidnightMs: Option<int>, nowMs: int)
    returns (dialog: Option<string>)
    modifies screen
    ensures dialog == Some(InvalidDateMessage) && screen.resultText == []
  {
    screen.Return();
    dialog := screen.Query(parsedMidnightMs, nowMs);
  }
}
