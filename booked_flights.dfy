/** The three booked flights the refund and reschedule screens offer, and the flight numbers
    each label does and does not contain (the price tables look labels up by `contains`). */
module BookedFlights {
  import opened JavaText

  const Labels: seq<string> := [
    "MU5112 北京-上海 2023-06-15",
    "CA1833 广州-成都 2023-06-20",
    "CZ3108 深圳-重庆 2023-06-25"
  ]

  lemma FirstBookedFlight()
    ensures Contains(Labels[0], "MU5112")
    ensures !Contains(Labels[0], "CA1833") && !Contains(Labels[0], "CZ3108")
  {
    var f := "MU5112 北京-上海 2023-06-15";
    assert Labels[0] == f;
    assert OccursAt(f, "MU5112", 0);
    NotContainsWithoutFirstChar(f, "CA1833");
    NotContainsWithoutFirstChar(f, "CZ3108");
  }

  lemma SecondBookedFlight()
    ensures Contains(Labels[1], "CA1833")
    ensures !Contains(Labels[1], "MU5112")
  {
    SecondStartsWithItsFlight(Labels[1]);
  }

  lemma SecondStartsWithItsFlight(f: string)
    requires f == "CA1833 广州-成都 2023-06-20"
    ensures Contains(f, "CA1833") && !Contains(f, "MU5112")
  {
    assert f[..6] == "CA1833";
    assert OccursAt(f, "CA1833", 0);
    assert 'M' !in f;
    NotContainsWithoutFirstChar(f, "MU5112");
  }

  lemma ThirdBookedFlight()
    ensures Contains(Labels[2], "CZ3108")
    ensures !Contains(Labels[2], "MU5112") && !Contains(Labels[2], "CA1833")
  {
    var f := "CZ3108 深圳-重庆 2023-06-25";
    assert Labels[2] == f;
    NotContainsWithoutFirstChar(f, "MU5112");
    ThirdIsNotSecond(f);
    assert OccursAt(f, "CZ3108", 0);
  }

  lemma ThirdIsNotSecond(f: string)
    requires f == "CZ3108 深圳-重庆 2023-06-25"
    ensures !Contains(f, "CA1833")
  {
    assert f[..6] != "CA1833" by { assert f[1] == 'Z'; }
    assert 'C' !in f[1..];
    NotContainsUnlessAtFront(f, "CA1833");
  }
}
