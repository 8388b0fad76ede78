/** The order list: a fixed set of sample orders, a status filter, and a table that every
    load clears and refills with the orders the filter lets through. */
module Orders {

  /** One row of the order table, column by column. */
  datatype OrderRow = OrderRow(
    orderId: string,
    flightNo: string,
    origin: string,
    destination: string,
    date: string,
    departs: string,
    arrives: string,
    status: string)

  /** The filter option that lets every order through. */
  const All: string := "全部"
  const AwaitingPayment: string := "待支付"
  const Completed: string := "已完成"
  const Refunded: string := "已退票"

  /** The options of the status combo box, in display order. */
  const FilterOptions: seq<string> := [All, AwaitingPayment, Completed, Refunded]

  /** The rows the load handler starts from, in table order. */
  const SampleOrders: seq<OrderRow> := [
    OrderRow("ORD1001", "MU5112", "北京", "上海", "2023-06-15", "08:00", "10:00", Completed),
    OrderRow("ORD1002", "CA1833", "广州", "成都", "2023-06-20", "12:30", "14:45", AwaitingPayment),
    OrderRow("ORD1003", "CZ3108", "深圳", "重庆", "2023-06-25", "15:20", "17:30", Refunded)
  ]

  /** A row passes the filter when the filter is "all" or equals its status column. */
  predicate Passes(filter: string, row: OrderRow) {
    filter == All || filter == row.status
  }

  /** The rows that pass the filter, in their original order. */
  function Filtered(filter: string, rows: seq<OrderRow>): (r: seq<OrderRow>)
    ensures |r| <= |rows|
    ensures forall x :: x in r <==> x in rows && Passes(filter, x)
  {
    if rows == [] then []
    else
      var last := rows[|rows| - 1];
      Filtered(filter, rows[..|rows| - 1]) + (if Passes(filter, last) then [last] else [])
  }

  /** Filtering with "all" keeps every row, in order. */
  lemma {:induction false} AllKeepsEveryRow(rows: seq<OrderRow>)
    ensures Filtered(All, rows) == rows
  {
    if rows != [] {
      AllKeepsEveryRow(rows[..|rows| - 1]);
      assert rows[..|rows| - 1] + [rows[|rows| - 1]] == rows;
    }
  }

  /** Filtering keeps the order of the rows: whatever precedes a row also precedes it after filtering. */
  lemma {:induction false} FilteredOfAppend(filter: string, rows: seq<OrderRow>, more: seq<OrderRow>)
    ensures Filtered(filter, rows + more) == Filtered(filter, rows) + Filtered(filter, more)
    decreases |more|
  {
    if more == [] {
      assert rows + more == rows;
    } else {
      var init := more[..|more| - 1];
      var last := more[|more| - 1];
      var kept := if Passes(filter, last) then [last] else [];
      assert (rows + more)[..|rows + more| - 1] == rows + init;
      assert (rows + more)[|rows + more| - 1] == last;
      assert Filtered(filter, rows + more) == Filtered(filter, rows + init) + kept;
      assert Filtered(filter, more) == Filtered(filter, init) + kept;
      FilteredOfAppend(filter, rows, init);
      assert (Filtered(filter, rows) + Filtered(filter, init)) + kept
          == Filtered(filter, rows) + (Filtered(filter, init) + kept);
    }
  }

  /** Filtering three rows keeps each of them exactly when it passes, in order. */
  lemma FilteredOfThree(filter: string, a: OrderRow, b: OrderRow, c: OrderRow)
    ensures Filtered(filter, [a, b, c]) ==
      (if Passes(filter, a) then [a] else []) + (if Passes(filter, b) then [b] else [])
      + (if Passes(filter, c) then [c] else [])
  {
    assert [a, b, c][..2] == [a, b] && [a, b][..1] == [a] && [a][..0] == [];
    assert Filtered(filter, [a]) == if Passes(filter, a) then [a] else [];
    assert Filtered(filter, [a, b]) == Filtered(filter, [a]) + (if Passes(filter, b) then [b] else []);
  }

  /** Each status option shows exactly one of the sample orders, and "all" shows all three. */
  lemma SampleFilterResults()
    ensures Filtered(All, SampleOrders) == SampleOrders
    ensures Filtered(AwaitingPayment, SampleOrders) == [SampleOrders[1]]
    ensures Filtered(Completed, SampleOrders) == [SampleOrders[0]]
    ensures Filtered(Refunded, SampleOrders) == [SampleOrders[2]]
  {
    AllKeepsEveryRow(SampleOrders);
    SampleFilteredBy(AwaitingPayment, 1);
    SampleFilteredBy(Completed, 0);
    SampleFilteredBy(Refunded, 2);
  }

  /** A status filter keeps exactly the one sample order with that status. */
  lemma SampleFilteredBy(filter: string, k: nat)
    requires filter in [AwaitingPayment, Completed, Refunded]
    requires k < 3 && SampleOrders[k].status == filter
    ensures Filtered(filter, SampleOrders) == [SampleOrders[k]]
  {
    var s := SampleOrders;
    assert AwaitingPayment[0] != Completed[0] && Completed[1] != Refunded[1] && Refunded[0] != AwaitingPayment[0];
    assert filter != All by { assert All[0] != filter[0]; }
    FilteredOfThree(filter, s[0], s[1], s[2]);
  }

  /** No option of the combo box leaves the table empty. */
  lemma EveryOptionFindsAnOrder(filter: string)
    requires filter in FilterOptions
    ensures Filtered(filter, SampleOrders) != []
  {
    SampleFilterResults();
  }

  /** The order management window: the selected status and the rows of the table. */
  class OrderScreen {
    const currentUser: string
    var selectedStatus: string
    var rows: seq<OrderRow>

    /** Opening the window selects "all" and loads once. */
    constructor (username: string)
      ensures currentUser == username && selectedStatus == All && rows == SampleOrders
    {
      currentUser := username;
      selectedStatus := All;
      rows := [];
      new;
      var emptyNotice := LoadOrders();
      AllKeepsEveryRow(SampleOrders);
    }

    /** The load handler, run by the refresh button and by every change of the filter.
        It clears the table and adds the passing sample rows one by one; `emptyNotice`
        says whether the "no matching orders" dialog is shown. The new rows do not depend
        on the old ones, so reloading with the same filter gives the same table. */
    method LoadOrders() returns (emptyNotice: bool)
      modifies this`rows
      ensures rows == Filtered(selectedStatus, SampleOrders)
      ensures emptyNotice <==> rows == []
    {
      rows := [];
      var sampleData := SampleOrders;
      var i := 0;
      while i < |sampleData|
        invariant 0 <= i <= |sampleData|
        invariant rows == Filtered(selectedStatus, sampleData[..i])
      {
        var row := sampleData[i];
        if selectedStatus == All || selectedStatus == row.status {
          rows := rows + [row];
        }
        assert sampleData[..i + 1][..i] == sampleData[..i];
        i := i + 1;
      }
      assert sampleData[..i] == sampleData;
      emptyNotice := |rows| == 0;
    }

    /** Choosing an option in the combo box fires the load handler. */
    method SelectStatus(option: string) returns (emptyNotice: bool)
      modifies this`selectedStatus, this`rows
      ensures selectedStatus == option && rows == Filtered(option, SampleOrders)
      ensures emptyNotice <==> rows == []
    {
      selectedStatus := option;
      emptyNotice := LoadOrders();
    }
  }

  /** Selecting a listed option never shows the "no matching orders" notice, and
      refreshing right after shows the same rows again. */
  method SelectThenRefresh(screen: OrderScreen, option: string) returns (first: seq<OrderRow>, second: seq<OrderRow>)
    requires option in FilterOptions
    modifies screen
    ensures first == second == Filtered(option, SampleOrders) != []
  {
    var notice := screen.SelectStatus(option);
    first := screen.rows;
    notice := screen.LoadOrders();
    second := screen.rows;
    EveryOptionFindsAnOrder(option);
  }
}
