/**
 * The vendor's stall-reservation page: an 8 x 10 grid of stalls, a selection
 * of at most three stalls built by clicking, and a confirmation that marks the
 * selected stalls as reserved.
 */
module Reservations {
  import opened Wrappers
  import opened Text

  datatype Size = Small | Medium | Large

  /**
   * One stall of the grid. A stall in the selection is a copy of a grid stall
   * (the page tags such copies with `selected: true`, which is always true and
   * is not kept here).
   */
  datatype Stall = Stall(
    id: string,
    name: string,
    size: Size,
    row: nat,
    col: nat,
    reserved: bool,
    reservedBy: Option<string>)

  const Rows: nat := 8
  const Cols: nat := 10
  const MaxSelection: nat := 3
  const CurrentUser: string := "Current User"

  /** The size as the page spells it, `'small' | 'medium' | 'large'`. */
  function SizeName(size: Size): string {
    match size
    case Small => "small"
    case Medium => "medium"
    case Large => "large"
  }

  // ---------------------------------------------------------------------------
  // Grid generation

  /**
   * What the page draws at random for one stall: its size, whether it is shown
   * as already reserved and, if so, the number of the vendor holding it.
   */
  datatype Draw = Draw(size: Size, reserved: bool, vendorNumber: nat)

  /** The id of the stall at (`row`, `col`): `${row}-${col}`. */
  function GridId(row: nat, col: nat): string {
    DecimalDigits(row) + "-" + DecimalDigits(col)
  }

  /**
   * The name of the `counter`-th generated stall: the letter `A` + counter % 26,
   * followed by counter / 26 in decimal when that is positive.
   */
  function StallName(counter: nat): string {
    var letter := (65 + counter % 26) as char;
    var number := counter / 26;
    if number > 0 then [letter] + DecimalDigits(number) else [letter]
  }

  /** Recovers the counter from a stall name; `None` for a string no counter is named by. */
  function ParseStallName(name: string): Option<nat> {
    if name == [] || !('A' <= name[0] <= 'Z') then None
    else if !IsDigits(name[1..]) then None
    else Some(ParseDecimal(name[1..]) * 26 + (name[0] as int - 'A' as int))
  }

  /** The name determines the counter it was made from. */
  lemma StallNameRoundTrip(counter: nat)
    ensures ParseStallName(StallName(counter)) == Some(counter)
  {
    var number := counter / 26;
    var name := StallName(counter);
    if number > 0 {
      assert name[1..] == DecimalDigits(number);
      ParseDecimalDigits(number);
    } else {
      assert name[1..] == [];
    }
  }

  /** Hence distinct stalls of the grid never share a name. */
  lemma StallNamesDistinct(j: nat, k: nat)
    requires j != k
    ensures StallName(j) != StallName(k)
  {
    StallNameRoundTrip(j);
    StallNameRoundTrip(k);
  }

  /** Ids of distinct grid cells differ. */
  lemma GridIdsDistinct(r1: nat, c1: nat, r2: nat, c2: nat)
    requires r1 < Rows && c1 < Cols && r2 < Rows && c2 < Cols
    requires r1 != r2 || c1 != c2
    ensures GridId(r1, c1) != GridId(r2, c2)
  {
    assert GridId(r1, c1)[0] == Digit(r1) && GridId(r1, c1)[2] == Digit(c1);
    assert GridId(r2, c2)[0] == Digit(r2) && GridId(r2, c2)[2] == Digit(c2);
  }

  /** The stall the page generates at (`row`, `col`) as its `counter`-th stall. */
  function GridStall(row: nat, col: nat, counter: nat, draw: Draw): Stall {
    Stall(GridId(row, col), StallName(counter), draw.size, row, col, draw.reserved,
          if draw.reserved then Some("Vendor " + DecimalDigits(draw.vendorNumber)) else None)
  }

  predicate DistinctIds(stalls: seq<Stall>) {
    forall i, j :: 0 <= i < j < |stalls| ==> stalls[i].id != stalls[j].id
  }

  /**
   * The grid effect: row by row, column by column, one stall per cell, named
   * after a running counter. The random choices arrive as `draws`, one per cell.
   */
  method GenerateStalls(draws: seq<Draw>) returns (stalls: seq<Stall>)
    requires |draws| == Rows * Cols
    ensures |stalls| == Rows * Cols
    ensures forall k :: 0 <= k < |stalls| ==>
      && stalls[k].row == k / Cols && stalls[k].col == k % Cols
      && stalls[k].id == GridId(k / Cols, k % Cols)
      && stalls[k].name == StallName(k)
      && stalls[k].size == draws[k].size
      && stalls[k].reserved == draws[k].reserved
      && stalls[k].reservedBy == (if draws[k].reserved then Some("Vendor " + DecimalDigits(draws[k].vendorNumber)) else None)
    ensures DistinctIds(stalls)
    ensures forall j, k :: 0 <= j < k < |stalls| ==> stalls[j].name != stalls[k].name
  {
    stalls := [];
    var counter := 0;
    var row := 0;
    while row < Rows
      invariant 0 <= row <= Rows
      invariant counter == row * Cols == |stalls|
      invariant forall k :: 0 <= k < |stalls| ==> stalls[k] == GridStall(k / Cols, k % Cols, k, draws[k])
    {
      var col := 0;
      while col < Cols
        invariant 0 <= col <= Cols
        invariant counter == row * Cols + col == |stalls|
        invariant forall k :: 0 <= k < |stalls| ==> stalls[k] == GridStall(k / Cols, k % Cols, k, draws[k])
      {
        var draw := draws[counter];
        var name := StallName(counter);
        var reservedBy := if draw.reserved then Some("Vendor " + DecimalDigits(draw.vendorNumber)) else None;
        stalls := stalls + [Stall(GridId(row, col), name, draw.size, row, col, draw.reserved, reservedBy)];
        counter := counter + 1;
        col := col + 1;
      }
      row := row + 1;
    }
    forall j, k | 0 <= j < k < |stalls|
      ensures stalls[j].id != stalls[k].id && stalls[j].name != stalls[k].name
    {
      GridIdsDistinct(j / Cols, j % Cols, k / Cols, k % Cols);
      StallNamesDistinct(j, k);
    }
  }

  // ---------------------------------------------------------------------------
  // Size labels

  /** `getStallSizeLabel`: the first character upper-cased, the rest kept. */
  function SizeLabel(size: string): (shown: string)
    ensures |shown| == |size|
    ensures forall i :: 1 <= i < |size| ==> shown[i] == size[i]
    ensures size != [] ==> !('a' <= shown[0] <= 'z')
    ensures Lower(shown) == Lower(size)
  {
    if size == [] then [] else [UpperChar(size[0])] + size[1..]
  }

  /** The labels the page shows for the three sizes. */
  lemma SizeLabels()
    ensures SizeLabel(SizeName(Small)) == "Small"
    ensures SizeLabel(SizeName(Medium)) == "Medium"
    ensures SizeLabel(SizeName(Large)) == "Large"
  {
  }

  // ---------------------------------------------------------------------------
  // Selection

  predicate HasId(stalls: seq<Stall>, id: string) {
    exists i :: 0 <= i < |stalls| && stalls[i].id == id
  }

  /** `find(s => s.id === id)`: the first stall with that id, if any. */
  function FindById(stalls: seq<Stall>, id: string): (r: Option<Stall>)
    ensures r.Some? <==> HasId(stalls, id)
    ensures r.Some? ==> exists i :: 0 <= i < |stalls| && stalls[i] == r.value && r.value.id == id
                                   && forall j :: 0 <= j < i ==> stalls[j].id != id
  {
    if stalls == [] then None
    else if stalls[0].id == id then Some(stalls[0])
    else FindById(stalls[1..], id)
  }

  /** `filter(s => s.id !== id)`: the stalls without that id, in their order. */
  function WithoutId(stalls: seq<Stall>, id: string): (r: seq<Stall>)
    ensures !HasId(r, id)
    ensures |r| <= |stalls|
    ensures !HasId(stalls, id) ==> r == stalls
  {
    if stalls == [] then []
    else if stalls[0].id == id then WithoutId(stalls[1..], id)
    else [stalls[0]] + WithoutId(stalls[1..], id)
  }

  /** The filter keeps exactly the stalls without the id. */
  lemma {:induction false} WithoutIdMembers(stalls: seq<Stall>, id: string)
    ensures forall s :: s in WithoutId(stalls, id) <==> s in stalls && s.id != id
  {
    if stalls != [] {
      WithoutIdMembers(stalls[1..], id);
      assert stalls == [stalls[0]] + stalls[1..];
    }
  }

  /** The head of a list with distinct ids is the only entry its id removes. */
  lemma WithoutHeadId(stalls: seq<Stall>)
    requires DistinctIds(stalls) && stalls != []
    ensures WithoutId(stalls, stalls[0].id) == stalls[1..]
  {
  }

  /** Removing the one stall with a given id cuts exactly that entry out. */
  lemma {:induction false} WithoutIdCutsOut(stalls: seq<Stall>, i: nat)
    requires DistinctIds(stalls)
    requires i < |stalls|
    ensures WithoutId(stalls, stalls[i].id) == stalls[..i] + stalls[i + 1..]
  {
    if i == 0 {
      WithoutHeadId(stalls);
    } else {
      var id, tail := stalls[i].id, stalls[1..];
      assert stalls[0].id != id;
      assert tail[i - 1] == stalls[i];
      WithoutIdCutsOut(tail, i - 1);
      assert tail[..i - 1] == stalls[1..i] && tail[i..] == stalls[i + 1..];
      assert [stalls[0]] + stalls[1..i] == stalls[..i];
    }
  }

  /** What a click on a stall does, as the page reports it. */
  datatype ClickOutcome =
    | Ignored       // the stall is reserved
    | Deselected    // the stall was selected and is now dropped
    | Added         // the stall is appended to the selection
    | LimitReached  // three stalls are already selected: the page alerts

  /** `handleStallClick`'s decision for `stall` given the current selection. */
  function ClickOutcomeOf(selected: seq<Stall>, stall: Stall): ClickOutcome {
    if stall.reserved then Ignored
    else if FindById(selected, stall.id).Some? then Deselected
    else if |selected| >= MaxSelection then LimitReached
    else Added
  }

  /** The selection after `handleStallClick(stall)`. */
  function NextSelection(selected: seq<Stall>, stall: Stall): seq<Stall> {
    match ClickOutcomeOf(selected, stall)
    case Ignored => selected
    case Deselected => WithoutId(selected, stall.id)
    case LimitReached => selected
    case Added => selected + [stall]
  }

  /** At most three stalls, no id twice, none of them reserved. */
  predicate SelectionValid(selected: seq<Stall>) {
    && |selected| <= MaxSelection
    && DistinctIds(selected)
    && forall i :: 0 <= i < |selected| ==> !selected[i].reserved
  }

  /** Cutting one entry out of a valid selection leaves a valid selection. */
  lemma CutOutKeepsValid(selected: seq<Stall>, i: nat)
    requires SelectionValid(selected) && i < |selected|
    ensures SelectionValid(selected[..i] + selected[i + 1..])
  {
  }

  /** A click on a grid stall or a selected stall keeps the page invariant. */
  lemma ClickKeepsBoardValid(stalls: seq<Stall>, selected: seq<Stall>, stall: Stall)
    requires BoardValid(stalls, selected)
    requires stall in stalls || stall in selected
    ensures BoardValid(stalls, NextSelection(selected, stall))
  {
    ClickKeepsSelectionValid(selected, stall);
    if ClickOutcomeOf(selected, stall) == Deselected {
      var i :| 0 <= i < |selected| && selected[i].id == stall.id;
      WithoutIdCutsOut(selected, i);
      var r := selected[..i] + selected[i + 1..];
      forall a | 0 <= a < |r| ensures r[a] in stalls {
        assert r[a] == selected[if a < i then a else a + 1];
      }
    }
  }

  /** Every click keeps the selection valid. */
  lemma ClickKeepsSelectionValid(selected: seq<Stall>, stall: Stall)
    requires SelectionValid(selected)
    ensures SelectionValid(NextSelection(selected, stall))
  {
    match ClickOutcomeOf(selected, stall)
    case Deselected =>
      var i :| 0 <= i < |selected| && selected[i].id == stall.id;
      WithoutIdCutsOut(selected, i);
      CutOutKeepsValid(selected, i);
    case Added =>
      var r := selected + [stall];
      assert r[|selected|] == stall;
      assert !HasId(selected, stall.id);
    case Ignored =>
    case LimitReached =>
  }

  /** Clicking a selected stall drops exactly that stall and keeps the others in order. */
  lemma DeselectCutsOut(selected: seq<Stall>, i: nat, stall: Stall)
    requires SelectionValid(selected)
    requires i < |selected| && selected[i].id == stall.id && !stall.reserved
    ensures ClickOutcomeOf(selected, stall) == Deselected
    ensures NextSelection(selected, stall) == selected[..i] + selected[i + 1..]
  {
    WithoutIdCutsOut(selected, i);
  }

  /** Clicking an available stall twice leaves the selection as it was. */
  lemma ClickTwiceRestores(selected: seq<Stall>, stall: Stall)
    requires !stall.reserved && !HasId(selected, stall.id) && |selected| < MaxSelection
    ensures NextSelection(selected, stall) == selected + [stall]
    ensures NextSelection(NextSelection(selected, stall), stall) == selected
  {
    var once := selected + [stall];
    assert once[|selected|].id == stall.id;
    assert WithoutId(once, stall.id) == WithoutId(selected, stall.id) + WithoutId([stall], stall.id) by {
      WithoutIdConcat(selected, [stall], stall.id);
    }
  }

  /** Filtering distributes over concatenation. */
  lemma {:induction false} WithoutIdConcat(a: seq<Stall>, b: seq<Stall>, id: string)
    ensures WithoutId(a + b, id) == WithoutId(a, id) + WithoutId(b, id)
  {
    if a != [] {
      WithoutIdConcat(a[1..], b, id);
      assert (a + b)[1..] == a[1..] + b;
    } else {
      assert a + b == b;
    }
  }

  // ---------------------------------------------------------------------------
  // Confirmation

  /** One stall after confirmation: reserved for the current user when its id is selected. */
  function ReserveIfSelected(stall: Stall, selected: seq<Stall>): Stall {
    if FindById(selected, stall.id).Some? then stall.(reserved := true, reservedBy := Some(CurrentUser))
    else stall
  }

  /** `stalls.map(...)` in `handleConfirmReservation`. */
  function MarkReserved(stalls: seq<Stall>, selected: seq<Stall>): seq<Stall> {
    seq(|stalls|, i requires 0 <= i < |stalls| => ReserveIfSelected(stalls[i], selected))
  }

  /** The number of reserved stalls in the grid. */
  function ReservedCount(stalls: seq<Stall>): nat {
    if stalls == [] then 0 else (if stalls[0].reserved then 1 else 0) + ReservedCount(stalls[1..])
  }

  /** Marking by one id held by exactly one, unreserved, stall reserves one more stall. */
  lemma {:induction false} MarkOneCount(stalls: seq<Stall>, j: nat, x: Stall)
    requires DistinctIds(stalls)
    requires j < |stalls| && stalls[j].id == x.id && !stalls[j].reserved
    ensures ReservedCount(MarkReserved(stalls, [x])) == ReservedCount(stalls) + 1
  {
    var m := MarkReserved(stalls, [x]);
    assert m[1..] == MarkReserved(stalls[1..], [x]);
    if j == 0 {
      assert m[1..] == stalls[1..] by {
        forall k | 0 <= k < |stalls[1..]| ensures m[1..][k] == stalls[1..][k] {
          assert stalls[k + 1].id != x.id;
        }
      }
    } else {
      assert stalls[0].id != x.id;
      MarkOneCount(stalls[1..], j - 1, x);
    }
  }

  /** Marking by `a` then by `b` is marking by `a + b`. */
  lemma MarkReservedCompose(stalls: seq<Stall>, a: seq<Stall>, b: seq<Stall>)
    ensures MarkReserved(MarkReserved(stalls, a), b) == MarkReserved(stalls, a + b)
  {
    forall k | 0 <= k < |stalls|
      ensures MarkReserved(MarkReserved(stalls, a), b)[k] == MarkReserved(stalls, a + b)[k]
    {
      var id := stalls[k].id;
      if HasId(a, id) {
        var i :| 0 <= i < |a| && a[i].id == id;
        assert (a + b)[i] == a[i];
      } else if HasId(b, id) {
        var i :| 0 <= i < |b| && b[i].id == id;
        assert (a + b)[|a| + i] == b[i];
      } else {
        assert !HasId(a + b, id);
      }
    }
  }

  /**
   * Confirming a valid selection, every stall of which is an available stall of
   * a grid with distinct ids, reserves exactly as many new stalls as were selected.
   */
  lemma {:induction false} ConfirmReservesOnePerSelected(stalls: seq<Stall>, selected: seq<Stall>)
    requires DistinctIds(stalls) && DistinctIds(selected)
    requires forall i :: 0 <= i < |selected| ==> selected[i] in stalls && !selected[i].reserved
    ensures ReservedCount(MarkReserved(stalls, selected)) == ReservedCount(stalls) + |selected|
    decreases |selected|
  {
    if selected == [] {
      assert MarkReserved(stalls, selected) == stalls;
    } else {
      var n := |selected| - 1;
      var front, x := selected[..n], selected[n];
      assert selected == front + [x];
      ConfirmReservesOnePerSelected(stalls, front);
      MarkReservedCompose(stalls, front, [x]);
      var m := MarkReserved(stalls, front);
      var j :| 0 <= j < |stalls| && stalls[j] == x;
      assert !HasId(front, x.id);
      assert m[j] == stalls[j];
      assert DistinctIds(m) by {
        assert forall k :: 0 <= k < |m| ==> m[k].id == stalls[k].id;
      }
      MarkOneCount(m, j, x);
    }
  }

  /** A click on a stall the confirmation reserved is ignored. */
  lemma ConfirmedStallIgnored(stalls: seq<Stall>, selected: seq<Stall>, k: nat, later: seq<Stall>)
    requires k < |stalls| && HasId(selected, stalls[k].id)
    ensures MarkReserved(stalls, selected)[k].reserved
    ensures MarkReserved(stalls, selected)[k].reservedBy == Some(CurrentUser)
    ensures NextSelection(later, MarkReserved(stalls, selected)[k]) == later
  {
  }

  // ---------------------------------------------------------------------------
  // The page state

  /**
   * The grid stalls have distinct ids, the selection is valid and every
   * selected stall is (a copy of) a grid stall.
   */
  predicate BoardValid(stalls: seq<Stall>, selected: seq<Stall>) {
    && DistinctIds(stalls)
    && SelectionValid(selected)
    && forall i :: 0 <= i < |selected| ==> selected[i] in stalls
  }

  class StallBoard {
    var stalls: seq<Stall>
    var selected: seq<Stall>

    ghost predicate Valid()
      reads this
    {
      BoardValid(stalls, selected)
    }

    /**
     * The page once its grid effect has run on the random `draws`: the
     * generated stalls, nothing selected.
     */
    constructor (draws: seq<Draw>)
      requires |draws| == Rows * Cols
      ensures Valid() && selected == []
      ensures |stalls| == Rows * Cols
      ensures forall k :: 0 <= k < |stalls| ==>
        && stalls[k].row == k / Cols && stalls[k].col == k % Cols
        && stalls[k].id == GridId(k / Cols, k % Cols)
        && stalls[k].name == StallName(k)
        && stalls[k].size == draws[k].size
        && stalls[k].reserved == draws[k].reserved
      ensures forall j, k :: 0 <= j < k < |stalls| ==> stalls[j].name != stalls[k].name
    {
      var grid := GenerateStalls(draws);
      stalls := grid;
      selected := [];
    }

    /** `handleStallClick`: toggles `stall` in or out of the selection. */
    method Click(stall: Stall) returns (outcome: ClickOutcome)
      modifies this
      ensures outcome == ClickOutcomeOf(old(selected), stall)
      ensures stalls == old(stalls)
      ensures selected == NextSelection(old(selected), stall)
      ensures stall.reserved ==> selected == old(selected)
      ensures outcome == LimitReached ==> selected == old(selected) && |selected| >= MaxSelection
      ensures outcome == Added ==> selected == old(selected) + [stall]
      ensures old(Valid()) && (stall in stalls || stall in old(selected)) ==> Valid()
    {
      if stall.reserved {
        return Ignored;
      }
      var isSelected := FindById(selected, stall.id);
      if isSelected.Some? {
        selected := WithoutId(selected, stall.id);
        outcome := Deselected;
      } else {
        if |selected| >= MaxSelection {
          return LimitReached;
        }
        selected := selected + [stall];
        outcome := Added;
      }
      if old(Valid()) && (stall in stalls || stall in old(selected)) {
        ClickKeepsBoardValid(stalls, old(selected), stall);
      }
    }

    /**
     * `handleConfirmReservation` once its delay has passed: with a non-empty
     * selection, every grid stall whose id is selected becomes reserved by the
     * current user, the others are untouched, and the selection is emptied.
     */
    method Confirm() returns (confirmed: bool)
      modifies this
      ensures confirmed == (old(selected) != [])
      ensures !confirmed ==> stalls == old(stalls) && selected == old(selected)
      ensures confirmed ==> stalls == MarkReserved(old(stalls), old(selected)) && selected == []
      ensures |stalls| == |old(stalls)|
      ensures forall k :: 0 <= k < |stalls| ==>
        && stalls[k].(reserved := false, reservedBy := None) == old(stalls)[k].(reserved := false, reservedBy := None)
        && (stalls[k].reserved <==> old(stalls)[k].reserved || HasId(old(selected), old(stalls)[k].id))
        && (!HasId(old(selected), old(stalls)[k].id) ==> stalls[k] == old(stalls)[k])
      ensures old(Valid()) ==> Valid() && ReservedCount(stalls) == ReservedCount(old(stalls)) + |old(selected)|
    {
      if |selected| == 0 {
        return false;
      }
      if Valid() {
        ConfirmReservesOnePerSelected(stalls, selected);
      }
      stalls := MarkReserved(stalls, selected);
      selected := [];
      confirmed := true;
    }
  }
}
