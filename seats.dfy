/** Seat selection: the fixed 10 x 12 cabin layout, how each cell becomes a button, the
    registry of buttons by label, and the one-seat-at-a-time selection state. */
module Seats {
  import opened JavaText

  const Rows: nat := 10
  const Columns: nat := 12

  const ExitRow: seq<string> :=
    ["EMPTY", "EXIT", "EMPTY", "EMPTY", "EMPTY", "EMPTY", "EMPTY", "EMPTY", "EMPTY", "EMPTY", "EXIT", "EMPTY"]
  const ToiletRow: seq<string> :=
    ["EMPTY", "TOILET", "EMPTY", "EMPTY", "EMPTY", "EMPTY", "EMPTY", "EMPTY", "EMPTY", "EMPTY", "TOILET", "EMPTY"]

  /** A passenger row: windows at both ends, two aisles, eight seats "O<row><letter>". */
  function SeatRow(row: char): (cells: seq<string>)
    ensures |cells| == Columns
  {
    ["WINDOW", ['O', row, 'A'], ['O', row, 'B'], "AISLE", ['O', row, 'C'], ['O', row, 'D'],
     ['O', row, 'E'], ['O', row, 'F'], "AISLE", ['O', row, 'G'], ['O', row, 'H'], "WINDOW"]
  }

  /** The cabin layout; the seat preference is not consulted, so every preference gets it. */
  const SeatMap: seq<seq<string>> := [
    ExitRow,
    SeatRow('1'), SeatRow('2'), SeatRow('3'), SeatRow('4'), SeatRow('5'), SeatRow('6'), SeatRow('7'),
    ExitRow,
    ToiletRow]

  /** The layout handed out for an order; neither the order nor the preference changes it. */
  function SimulateGetSeatMap(orderId: string, preference: string): (seatMap: seq<seq<string>>)
    ensures seatMap == SeatMap
  {
    SeatMap
  }

  lemma SeatMapIsRectangular()
    ensures |SeatMap| == Rows && forall r :: 0 <= r < Rows ==> |SeatMap[r]| == Columns
  {
  }

  datatype Color = White | Orange | LightGray | Pink | LightBlue | Cyan

  /** A seat map button: its text, its background and whether it can be clicked. */
  datatype Button = Button(text: string, color: Color, enabled: bool)

  const SpecialCells: seq<string> := ["EXIT", "AISLE", "TOILET", "WINDOW", "EMPTY"]

  /** The labels of special areas, which a reset never repaints. */
  predicate IsSpecialText(t: string) {
    t == "安全出口" || t == "过道" || t == "洗手间" || t == "窗户"
  }

  /** The button for one cell. Special cells become disabled labelled areas; a cell starting
      with "O" is a free seat, labelled by the rest of its text; anything else is shown as
      it is, disabled. */
  function Classify(cell: string): (b: Button)
    ensures b.enabled <==> cell !in SpecialCells && StartsWith(cell, "O")
    ensures b.enabled ==> b.text == cell[1..] && b.color == White
    ensures cell in SpecialCells ==> (IsSpecialText(b.text) || b.text == []) && b.color != White
    ensures b.color != Cyan
  {
    if cell == "EXIT" then Button("安全出口", Orange, false)
    else if cell == "AISLE" then Button("过道", LightGray, false)
    else if cell == "TOILET" then Button("洗手间", Pink, false)
    else if cell == "WINDOW" then Button("窗户", LightBlue, false)
    else if cell == "EMPTY" then Button("", LightGray, false)
    else if StartsWith(cell, "O") then Button(cell[1..], White, true)
    else Button(cell, White, false)
  }

  /** Seat columns are all but the two windows and the two aisles. */
  predicate IsSeatPosition(r: int, c: int) {
    1 <= r <= 7 && 0 <= c < Columns && c != 0 && c != 3 && c != 8 && c != 11
  }

  function RowDigit(r: nat): char
    requires r <= 9
  {
    "0123456789"[r]
  }

  /** The seat letter of a column; the window and aisle columns have none. */
  function ColumnLetter(c: nat): char
    requires c < Columns
  {
    " AB CDEF GH "[c]
  }

  lemma SeatLabelsAreDistinct(r1: nat, c1: nat, r2: nat, c2: nat)
    requires IsSeatPosition(r1, c1) && IsSeatPosition(r2, c2)
    requires [RowDigit(r1), ColumnLetter(c1)] == [RowDigit(r2), ColumnLetter(c2)]
    ensures r1 == r2 && c1 == c2
  {
    assert RowDigit(r1) == RowDigit(r2);
    assert ColumnLetter(c1) == ColumnLetter(c2);
  }

  /** What each cell of a passenger row becomes. */
  lemma SeatRowCell(r: nat, c: nat)
    requires 1 <= r <= 7 && c < Columns
    ensures var b := Classify(SeatRow(RowDigit(r))[c]);
      && (IsSeatPosition(r, c) ==> b == Button([RowDigit(r), ColumnLetter(c)], White, true))
      && (!IsSeatPosition(r, c) ==> !b.enabled && IsSpecialText(b.text))
  {
    var cell := SeatRow(RowDigit(r))[c];
    if IsSeatPosition(r, c) {
      assert cell == ['O', RowDigit(r), ColumnLetter(c)];
      assert cell !in SpecialCells;
      assert StartsWith(cell, "O");
    }
  }

  /** What each cell of an exit or toilet row becomes. */
  lemma EndRowCell(r: nat, c: nat)
    requires (r == 0 || r == 8 || r == 9) && c < Columns
    ensures var b := Classify(SeatMap[r][c]);
      !b.enabled && (IsSpecialText(b.text) || b.text == [])
  {
    assert SeatMap[r] == ExitRow || SeatMap[r] == ToiletRow;
    assert SeatMap[r][c] in SpecialCells;
  }

  /** Every cell: seat positions become enabled white buttons labelled digit and letter, all
      other cells disabled areas whose text is a special label or empty. */
  lemma CellButton(r: nat, c: nat)
    requires r < Rows && c < Columns
    ensures var b := Classify(SeatMap[r][c]);
      && (IsSeatPosition(r, c) ==> b == Button([RowDigit(r), ColumnLetter(c)], White, true))
      && (!IsSeatPosition(r, c) ==> !b.enabled && (IsSpecialText(b.text) || b.text == []))
  {
    if r == 0 || r == 8 || r == 9 {
      EndRowCell(r, c);
    } else {
      assert SeatMap[r] == SeatRow(RowDigit(r));
      SeatRowCell(r, c);
    }
  }

  /** The buttons of one row of cells. */
  function ClassifyRow(row: seq<string>): (p: seq<Button>)
    ensures |p| == |row| && forall j :: 0 <= j < |row| ==> p[j] == Classify(row[j])
  {
    seq(|row|, j requires 0 <= j < |row| => Classify(row[j]))
  }

  /** The buttons of several rows, one row after the other. */
  function ClassifyRows(rows: seq<seq<string>>): seq<Button> {
    if rows == [] then [] else ClassifyRows(rows[..|rows| - 1]) + ClassifyRow(rows[|rows| - 1])
  }

  /** With rows of twelve cells, button `k` comes from row `k / 12`, column `k % 12`. */
  lemma {:induction false} ClassifyRowsIndex(rows: seq<seq<string>>)
    requires forall r :: 0 <= r < |rows| ==> |rows[r]| == Columns
    ensures |ClassifyRows(rows)| == Columns * |rows|
    ensures forall k :: 0 <= k < Columns * |rows| ==>
      ClassifyRows(rows)[k] == Classify(rows[k / Columns][k % Columns])
  {
    if rows != [] {
      var n := |rows| - 1;
      var init := rows[..n];
      ClassifyRowsIndex(init);
      var p := ClassifyRows(rows);
      assert p == ClassifyRows(init) + ClassifyRow(rows[n]);
      forall k | 0 <= k < Columns * |rows|
        ensures p[k] == Classify(rows[k / Columns][k % Columns])
      {
        if k < Columns * n {
          assert k / Columns < n;
          assert p[k] == ClassifyRows(init)[k];
        } else {
          assert k / Columns == n && k % Columns == k - Columns * n;
          assert p[k] == ClassifyRow(rows[n])[k - Columns * n];
        }
      }
    }
  }

  /** The panel a load produces: the cells row by row, twelve to a row. */
  function LoadedPanel(): (p: seq<Button>)
    ensures |p| == Rows * Columns
    ensures forall k :: 0 <= k < Rows * Columns ==> p[k] == Classify(SeatMap[k / Columns][k % Columns])
  {
    SeatMapIsRectangular();
    ClassifyRowsIndex(SeatMap);
    ClassifyRows(SeatMap)
  }

  /** The buttons of a loaded panel: enabled exactly at the seat positions, labelled by row
      digit and seat letter, never highlighted. */
  lemma LoadedPanelButtons(k: nat)
    requires k < Rows * Columns
    ensures var b := LoadedPanel()[k];
      && (b.enabled <==> IsSeatPosition(k / Columns, k % Columns))
      && (b.enabled ==> b.text == [RowDigit(k / Columns), ColumnLetter(k % Columns)] && !IsSpecialText(b.text))
      && (!b.enabled ==> IsSpecialText(b.text) || b.text == [])
      && b.color != Cyan
  {
    CellButton(k / Columns, k % Columns);
  }

  /** No other button of a loaded panel carries a seat's label. */
  lemma LoadedSeatLabelsAreUnique(a: nat, b: nat)
    requires a < Rows * Columns && b < Rows * Columns && a != b && LoadedPanel()[a].enabled
    ensures LoadedPanel()[b].text != LoadedPanel()[a].text
  {
    LoadedPanelButtons(a);
    LoadedPanelButtons(b);
    var p := LoadedPanel();
    if p[b].text == p[a].text {
      if p[b].enabled {
        SeatLabelsAreDistinct(a / Columns, a % Columns, b / Columns, b % Columns);
      }
    }
  }

  /** The texts of the buttons, in panel order. */
  function Texts(p: seq<Button>): (ts: seq<string>)
    ensures |ts| == |p| && forall i :: 0 <= i < |p| ==> ts[i] == p[i].text
  {
    seq(|p|, i requires 0 <= i < |p| => p[i].text)
  }

  /** A map from text to button filled in panel order: a later button with the same text
      replaces the earlier one, so each text ends up with its last index. */
  function LastIndex(ts: seq<string>): (m: map<string, nat>)
    ensures forall t :: t in m <==> t in ts
    ensures forall t :: t in m ==> m[t] < |ts| && ts[m[t]] == t
    ensures forall t, k :: t in m && m[t] < k < |ts| ==> ts[k] != t
  {
    if ts == [] then map[]
    else
      var n := |ts| - 1;
      var init := ts[..n];
      var prior := LastIndex(init);
      assert forall i :: 0 <= i < n ==> ts[i] == init[i];
      assert forall t :: t in ts <==> t in init || t == ts[n];
      prior[ts[n] := n]
  }

  lemma ClassifyRowStep(row: seq<string>, j: nat)
    requires j < |row|
    ensures ClassifyRow(row[..j + 1]) == ClassifyRow(row[..j]) + [Classify(row[j])]
  {
  }

  /** Adding a button registers its text at the new index and leaves the other texts as they were. */
  lemma LastIndexAppend(p: seq<Button>, b: Button)
    ensures LastIndex(Texts(p + [b])) == LastIndex(Texts(p))[b.text := |p|]
  {
    assert Texts(p + [b])[..|p|] == Texts(p);
  }

  /** A text that occurs once is mapped to where it occurs. */
  lemma UniqueTextIsRegistered(ts: seq<string>, k: nat)
    requires k < |ts| && forall j :: 0 <= j < |ts| && j != k ==> ts[j] != ts[k]
    ensures ts[k] in LastIndex(ts) && LastIndex(ts)[ts[k]] == k
  {
    assert ts[k] in ts;
  }

  /** On a loaded panel every seat is registered under its own label and is no special
      area, and nothing is highlighted. */
  lemma LoadedPanelRegistersSeats()
    ensures var p := LoadedPanel();
      forall k :: 0 <= k < |p| && p[k].enabled ==>
        p[k].text in LastIndex(Texts(p)) && LastIndex(Texts(p))[p[k].text] == k && !IsSpecialText(p[k].text)
    ensures forall k :: 0 <= k < |LoadedPanel()| ==> LoadedPanel()[k].color != Cyan
  {
    var p := LoadedPanel();
    forall k | 0 <= k < |p| && p[k].enabled
      ensures p[k].text in LastIndex(Texts(p)) && LastIndex(Texts(p))[p[k].text] == k && !IsSpecialText(p[k].text)
    {
      LoadedPanelButtons(k);
      forall j | 0 <= j < |p| && j != k
        ensures Texts(p)[j] != Texts(p)[k]
      {
        LoadedSeatLabelsAreUnique(k, j);
      }
      UniqueTextIsRegistered(Texts(p), k);
    }
    forall k | 0 <= k < |p|
      ensures p[k].color != Cyan
    {
      LoadedPanelButtons(k);
    }
  }

  /** The seat selection window. */
  class SeatSelectionScreen {
    const orderId: string
    var panel: seq<Button>
    var registry: map<string, nat>
    var selectedSeat: Option<string>
    var confirmEnabled: bool
    var disposed: bool

    /** The registry holds a button of the panel under each text on it; every clickable button is a seat
        registered under its own label; a highlighted button is the selected seat; confirm is
        enabled exactly when a seat is selected, and the selected seat is on the panel. */
    ghost predicate Valid()
      reads this
    {
      && (forall t :: t in registry ==> registry[t] < |panel| && panel[registry[t]].text == t)
      && (forall i :: 0 <= i < |panel| ==> panel[i].text in registry)
      && (forall i :: 0 <= i < |panel| && panel[i].enabled ==>
            panel[i].text in registry && registry[panel[i].text] == i && !IsSpecialText(panel[i].text))
      && (forall i :: 0 <= i < |panel| && panel[i].color == Cyan ==>
            panel[i].enabled && selectedSeat == Some(panel[i].text))
      && (confirmEnabled <==> selectedSeat.Some?)
      && (selectedSeat.Some? ==>
            selectedSeat.value in registry && panel[registry[selectedSeat.value]].enabled)
    }

    constructor (orderId: string)
      ensures Valid() && this.orderId == orderId
      ensures panel == [] && selectedSeat.None? && !confirmEnabled && !disposed
    {
      this.orderId := orderId;
      panel := [];
      registry := map[];
      selectedSeat := None;
      confirmEnabled := false;
      disposed := false;
    }

    /** The search handler: clear everything, then lay the cabin out again. `preference` is
        the seat preference box's selection. */
    method LoadSeatMap(preference: string)
      modifies this`panel, this`registry, this`selectedSeat, this`confirmEnabled
      ensures Valid()
      ensures panel == LoadedPanel() && registry == LastIndex(Texts(panel))
      ensures selectedSeat.None? && !confirmEnabled
    {
      panel := [];
      registry := map[];
      selectedSeat := None;
      confirmEnabled := false;
      var seatMap := SimulateGetSeatMap(orderId, preference);
      FillPanel(seatMap);
      LoadedPanelRegistersSeats();
    }

    /** The nested loops of the load: classify the cells row by row, adding each button to
        the panel and registering it under its text. */
    method FillPanel(seatMap: seq<seq<string>>)
      requires panel == [] && registry == map[]
      modifies this`panel, this`registry
      ensures panel == ClassifyRows(seatMap) && registry == LastIndex(Texts(panel))
    {
      var i := 0;
      while i < |seatMap|
        invariant 0 <= i <= |seatMap|
        invariant panel == ClassifyRows(seatMap[..i])
        invariant registry == LastIndex(Texts(panel))
      {
        AppendRow(seatMap[i]);
        assert seatMap[..i + 1][..i] == seatMap[..i];
        i := i + 1;
      }
      assert seatMap[..i] == seatMap;
    }

    /** The inner loop of the load: the buttons of one row, each registered as it is added. */
    method AppendRow(row: seq<string>)
      requires registry == LastIndex(Texts(panel))
      modifies this`panel, this`registry
      ensures panel == old(panel) + ClassifyRow(row) && registry == LastIndex(Texts(panel))
    {
      var j := 0;
      while j < |row|
        invariant 0 <= j <= |row|
        invariant panel == old(panel) + ClassifyRow(row[..j])
        invariant registry == LastIndex(Texts(panel))
      {
        var button := Classify(row[j]);
        ClassifyRowStep(row, j);
        LastIndexAppend(panel, button);
        registry := registry[button.text := |panel|];
        panel := panel + [button];
        j := j + 1;
      }
      assert row[..j] == row;
    }

    /** Whether the reset in `selectSeat` repaints the button at index `i`: it is the one
        registered under its text, enabled, and not a special area. */
    ghost predicate IsReset(i: int)
      reads this
      requires 0 <= i < |panel|
    {
      panel[i].text in registry && registry[panel[i].text] == i && panel[i].enabled && !IsSpecialText(panel[i].text)
    }

    /** A click on the enabled button at index `k`: every registered, enabled, non-special
        button goes back to white, then the clicked one turns cyan and becomes the selection. */
    method SelectSeat(k: nat)
      requires Valid() && k < |panel| && panel[k].enabled
      modifies this`panel, this`selectedSeat, this`confirmEnabled
      ensures Valid()
      ensures |panel| == |old(panel)| && registry == old(registry)
      ensures forall i :: 0 <= i < |panel| ==>
        panel[i].text == old(panel)[i].text && panel[i].enabled == old(panel)[i].enabled
      ensures panel[k].color == Cyan
      ensures forall i :: 0 <= i < |panel| && i != k ==>
        panel[i].color == (if old(IsReset(i)) then White else old(panel)[i].color)
      ensures selectedSeat == Some(old(panel)[k].text) && confirmEnabled
    {
      ResetColors();
      selectedSeat := Some(panel[k].text);
      panel := panel[k := panel[k].(color := Cyan)];
      assert Texts(panel) == Texts(old(panel));
      confirmEnabled := true;
    }

    /** The reset loop of `selectSeat`; the order of the registry's values does not matter,
        since each button is repainted on its own. Afterwards only the button the reset skips
        can still be highlighted, and no skipped button is a registered seat. */
    method ResetColors()
      requires Valid()
      modifies this`panel
      ensures |panel| == |old(panel)| && Texts(panel) == Texts(old(panel))
      ensures forall j :: 0 <= j < |panel| ==> panel[j].enabled == old(panel)[j].enabled
      ensures forall j :: 0 <= j < |panel| ==>
        panel[j].color == (if old(IsReset(j)) then White else old(panel)[j].color)
      ensures forall j :: 0 <= j < |panel| ==> panel[j].color != Cyan
    {
      var i := 0;
      while i < |panel|
        invariant 0 <= i <= |panel| && |panel| == |old(panel)|
        invariant forall j :: 0 <= j < |panel| ==>
          panel[j].text == old(panel)[j].text && panel[j].enabled == old(panel)[j].enabled
        invariant forall j :: 0 <= j < i ==>
          panel[j].color == (if old(IsReset(j)) then White else old(panel)[j].color)
        invariant forall j :: i <= j < |panel| ==> panel[j] == old(panel)[j]
      {
        if panel[i].text in registry && registry[panel[i].text] == i
           && panel[i].enabled && !IsSpecialText(panel[i].text) {
          panel := panel[i := panel[i].(color := White)];
        }
        i := i + 1;
      }
      assert Texts(panel) == Texts(old(panel));
    }

    /** The confirm handler: nothing happens without a selection; with one, the simulated seat
        update always succeeds, the boarding pass is issued for the selected seat and the
        window closes. */
    method ConfirmSelection() returns (confirmedSeat: Option<string>)
      modifies this`disposed
      ensures confirmedSeat == selectedSeat
      ensures disposed == (old(disposed) || selectedSeat.Some?)
    {
      if selectedSeat.Some? {
        confirmedSeat := selectedSeat;
        disposed := true;
      } else {
        confirmedSeat := None;
      }
    }
  }

  /** The selection is unique: at most one button is highlighted. */
  lemma AtMostOneHighlighted(s: SeatSelectionScreen, i: nat, j: nat)
    requires s.Valid() && i < |s.panel| && j < |s.panel|
    requires s.panel[i].color == Cyan && s.panel[j].color == Cyan
    ensures i == j
  {
  }
}
