/**
 * What GameAnalyzer looks for, as values: the run of two or three drops of one
 * colour that searchDropSequence finds on a line, the runs of the whole board,
 * the runs a drop could extend and the drops that belong to no run.  The
 * analyzer's methods build DropSequence objects whose slots are these runs.
 */
module Runs {
  import opened Outcomes
  import opened Enumerations
  import opened Geometry
  import opened Slots
  import opened Lines
  import opened WinDetection
  import opened Board
  import opened DropSequences

  /** searchDropSequence's test at start `i`: the slot has the colour and agrees with the rest of the window. */
  predicate Opens(s: seq<Slot>, i: int, color: DropColor, length: int)
    requires 0 <= i < |s|
  {
    s[i].color == color && forall j :: i < j < i + length && j < |s| ==> Agree(s[i], s[j])
  }

  /**
   * The start the do-while loop of searchDropSequence stops at, trying the
   * starts from `i` up to |s| - length (the first start is always tried).
   */
  function FirstOpen(s: seq<Slot>, color: DropColor, length: int, i: nat): (f: Option<nat>)
    decreases |s| - i
    ensures f.Some? ==> i <= f.value < |s| && Opens(s, f.value, color, length)
    ensures f.Some? && i <= |s| - length ==> f.value <= |s| - length
  {
    if i >= |s| then None
    else if Opens(s, i, color, length) then Some(i)
    else if i + 1 <= |s| - length then FirstOpen(s, color, length, i + 1)
    else None
  }

  /** The slots of a line from index `i`, at most `length` of them. */
  function Window(line: seq<Pos>, i: int, length: int): (w: seq<Pos>)
    requires 0 <= i <= |line| && 0 <= length
    ensures |w| == if i + length <= |line| then length else |line| - i
  {
    if i + length <= |line| then line[i..i + length] else line[i..]
  }

  /**
   * The positions searchDropSequence collects on a line: the window at the
   * first start that opens, or nothing; nothing as well for a length other
   * than two or three.
   */
  function Run(cells: seq<Slot>, line: seq<Pos>, color: DropColor, length: int): (r: seq<Pos>)
    requires |cells| == NumberOfCells && AllOnBoard(line)
    ensures AllOnBoard(r)
  {
    if length < MinLength || length > 3 then []
    else
      match FirstOpen(SlotsOf(cells, line), color, length, 0)
      case None => []
      case Some(i) => Window(line, i, length)
  }

  /** `length` filled slots of the colour in a row, from index `i` of the line. */
  predicate FilledRun(cells: seq<Slot>, line: seq<Pos>, i: int, length: int, color: DropColor)
    requires |cells| == NumberOfCells && AllOnBoard(line) && 0 <= i && i + length <= |line|
  {
    forall k :: i <= k < i + length ==> !At(cells, line[k]).isEmpty && At(cells, line[k]).color == color
  }

  /** On consistent slots, a start opens exactly when a filled run of the colour begins there. */
  lemma OpensIsFilledRun(cells: seq<Slot>, line: seq<Pos>, i: int, length: int, color: DropColor)
    requires WellFormed(cells) && AllOnBoard(line) && 2 <= length && 0 <= i && i + length <= |line|
    ensures Opens(SlotsOf(cells, line), i, color, length) <==> FilledRun(cells, line, i, length, color)
  {
    var s := SlotsOf(cells, line);
    assert Consistent(s[i]) by {
      assert s[i] == cells[Index(line[i])];
    }
    if Opens(s, i, color, length) {
      assert Agree(s[i], s[i + 1]);
      forall k | i <= k < i + length
        ensures !At(cells, line[k]).isEmpty && At(cells, line[k]).color == color
      {
        assert s[k] == At(cells, line[k]);
        if k > i {
          assert Agree(s[i], s[k]);
        }
      }
    }
  }

  /** The loop stops at the first start that opens, and no start before it opens. */
  lemma {:induction false} FirstOpenIsFirst(s: seq<Slot>, color: DropColor, length: int, i: nat)
    requires 1 <= length <= |s|
    ensures FirstOpen(s, color, length, i).Some? ==>
      forall m :: i <= m < FirstOpen(s, color, length, i).value ==> !Opens(s, m, color, length)
    ensures FirstOpen(s, color, length, i).None? ==>
      forall m :: i <= m <= |s| - length ==> !Opens(s, m, color, length)
    decreases |s| - i
  {
    if i < |s| && !Opens(s, i, color, length) && i + 1 <= |s| - length {
      FirstOpenIsFirst(s, color, length, i + 1);
    }
  }

  /**
   * On a line at least as long as the run: searchDropSequence finds the first
   * filled run of two or three drops of the colour, and finds nothing exactly
   * when there is none.
   */
  lemma RunIsFirstFilledRun(cells: seq<Slot>, line: seq<Pos>, color: DropColor, length: int)
    requires WellFormed(cells) && AllOnBoard(line) && 2 <= length <= 3 && length <= |line|
    ensures Run(cells, line, color, length) == [] <==>
      forall m :: 0 <= m <= |line| - length ==> !FilledRun(cells, line, m, length, color)
    ensures forall f :: (0 <= f <= |line| - length && FilledRun(cells, line, f, length, color) &&
      (forall m :: 0 <= m < f ==> !FilledRun(cells, line, m, length, color))) ==>
        Run(cells, line, color, length) == line[f..f + length]
  {
    var s := SlotsOf(cells, line);
    FirstOpenIsFirst(s, color, length, 0);
    forall m | 0 <= m <= |line| - length
      ensures Opens(s, m, color, length) <==> FilledRun(cells, line, m, length, color)
    {
      OpensIsFilledRun(cells, line, m, length, color);
    }
    var first := FirstOpen(s, color, length, 0);
    if first.Some? {
      assert FilledRun(cells, line, first.value, length, color);
      forall f | 0 <= f <= |line| - length && FilledRun(cells, line, f, length, color) &&
        (forall m :: 0 <= m < f ==> !FilledRun(cells, line, m, length, color))
        ensures f == first.value
      {
      }
    }
  }

  /** Along a straight line, the k-th position is k steps from the first. */
  lemma {:induction false} StraightSteps(ps: seq<Pos>, dc: int, dr: int, k: int)
    requires Straight(ps, dc, dr) && 0 <= k < |ps|
    ensures ps[k] == Pos(ps[0].col + k * dc, ps[0].row + k * dr)
  {
    if k > 0 {
      StraightSteps(ps, dc, dr, k - 1);
    }
  }

  /** The lines of the board hold no position twice. */
  lemma ShapedDistinct(l: Line)
    requires LineShape(l)
    ensures Distinct(l.slots)
  {
    var ps := l.slots;
    forall i, j | 0 <= i < j < |ps|
      ensures ps[i] != ps[j]
    {
      var dc, dr :=
        if Straight(ps, 0, 1) then 0 else 1,
        if Straight(ps, 0, 1) || Straight(ps, 1, 1) then 1 else if Straight(ps, 1, 0) then 0 else -1;
      StraightSteps(ps, dc, dr, i);
      StraightSteps(ps, dc, dr, j);
    }
  }

  /**
   * A piece of a column is a COLUMN sequence, a piece of a row a ROW sequence, a
   * piece of a rising diagonal DIAGONAL_UP_RIGHT and of a falling one
   * DIAGONAL_LOW_RIGHT; a single slot counts as a row.  None is INDETERMINATE.
   */
  lemma ClassifyStraight(ps: seq<Pos>)
    requires Straight(ps, 0, 1) || Straight(ps, 1, 0) || Straight(ps, 1, 1) || Straight(ps, 1, -1)
    ensures Classify(ps) != Indeterminate
    ensures |ps| >= 2 && Straight(ps, 0, 1) ==> Classify(ps) == ColumnDirection
    ensures Straight(ps, 1, 0) ==> Classify(ps) == RowDirection
    ensures |ps| >= 2 && Straight(ps, 1, 1) ==> Classify(ps) == DiagonalUpRight
    ensures |ps| >= 2 && Straight(ps, 1, -1) ==> Classify(ps) == DiagonalLowRight
  {
    if |ps| >= 2 {
      assert ps[1] == Pos(ps[0].col, ps[0].row + 1) || ps[1] == Pos(ps[0].col + 1, ps[0].row) ||
        ps[1] == Pos(ps[0].col + 1, ps[0].row + 1) || ps[1] == Pos(ps[0].col + 1, ps[0].row - 1);
    }
  }

  /** The run found on a line of the board is a piece of it: distinct slots of a known direction. */
  lemma RunShape(cells: seq<Slot>, l: Line, color: DropColor, length: int)
    requires |cells| == NumberOfCells && LineShape(l)
    ensures var r := Run(cells, l.slots, color, length);
      Distinct(r) && |r| <= MaxLength && Classify(r) != Indeterminate
    ensures var r := Run(cells, l.slots, color, length);
      r != [] ==> |r| == length && (Straight(l.slots, 0, 1) ==> Straight(r, 0, 1))
  {
    ShapedDistinct(l);
    var r := Run(cells, l.slots, color, length);
    if r != [] {
      var i := FirstOpen(SlotsOf(cells, l.slots), color, length, 0).value;
      WindowShape(l.slots, i, length);
    }
    ClassifyStraight(r);
  }

  /** A window of a straight line of distinct slots is straight in the same direction, with distinct slots. */
  lemma WindowShape(ps: seq<Pos>, i: int, length: int)
    requires 0 <= i <= |ps| && 0 <= length && Distinct(ps)
    ensures Distinct(Window(ps, i, length))
    ensures forall dc, dr :: Straight(ps, dc, dr) ==> Straight(Window(ps, i, length), dc, dr)
  {
    var w := Window(ps, i, length);
    assert forall k :: 0 <= k < |w| ==> w[k] == ps[i + k];
  }

  /** The runs of one length over a list of lines, in the order of the lines (searchDropSequences). */
  function LineRuns(cells: seq<Slot>, lines: seq<Line>, color: DropColor, length: int): (rs: seq<seq<Pos>>)
    requires |cells| == NumberOfCells && LinesShaped(lines)
    ensures forall k :: 0 <= k < |rs| ==> |rs[k]| == length && AllOnBoard(rs[k])
  {
    if lines == [] then []
    else
      var run := Run(cells, lines[|lines| - 1].slots, color, length);
      LineRuns(cells, lines[..|lines| - 1], color, length) + (if 0 < |run| && |run| == length then [run] else [])
  }

  /** One more line adds its run when the run has the length. */
  lemma LineRunsStep(cells: seq<Slot>, lines: seq<Line>, i: int, color: DropColor, length: int)
    requires |cells| == NumberOfCells && LinesShaped(lines) && 0 <= i < |lines|
    ensures LinesShaped(lines[..i]) && LinesShaped(lines[..i + 1])
    ensures var run := Run(cells, lines[i].slots, color, length);
      LineRuns(cells, lines[..i + 1], color, length) ==
      LineRuns(cells, lines[..i], color, length) + (if 0 < |run| && |run| == length then [run] else [])
  {
    assert lines[..i + 1][..i] == lines[..i];
  }

  /** Every slot of `a` is a slot of `b` (isSubSequenceOf). */
  predicate Within(a: seq<Pos>, b: seq<Pos>)
  {
    forall i :: 0 <= i < |a| ==> a[i] in b
  }

  /** Some run of `bs` holds every slot of `a`. */
  predicate Covered(a: seq<Pos>, bs: seq<seq<Pos>>)
  {
    exists k :: 0 <= k < |bs| && Within(a, bs[k])
  }

  /** The runs of `twos` that no run of `threes` covers, in order. */
  function Uncovered(twos: seq<seq<Pos>>, threes: seq<seq<Pos>>): (u: seq<seq<Pos>>)
    ensures forall k :: 0 <= k < |u| ==> u[k] in twos && !Covered(u[k], threes)
  {
    if twos == [] then []
    else
      var two := twos[|twos| - 1];
      Uncovered(twos[..|twos| - 1], threes) + (if Covered(two, threes) then [] else [two])
  }

  /** No run of two that lies in no run of three is dropped. */
  lemma {:induction false} UncoveredComplete(twos: seq<seq<Pos>>, threes: seq<seq<Pos>>)
    ensures forall r :: r in twos && !Covered(r, threes) ==> r in Uncovered(twos, threes)
  {
    if twos != [] {
      UncoveredComplete(twos[..|twos| - 1], threes);
      assert forall r :: r in twos ==> r in twos[..|twos| - 1] || r == twos[|twos| - 1];
    }
  }

  /** One more run of two is kept when no run of three covers it. */
  lemma UncoveredStep(twos: seq<seq<Pos>>, threes: seq<seq<Pos>>, t: int)
    requires 0 <= t < |twos|
    ensures Uncovered(twos[..t + 1], threes) ==
      Uncovered(twos[..t], threes) + (if Covered(twos[t], threes) then [] else [twos[t]])
  {
    assert twos[..t + 1][..t] == twos[..t];
  }

  /** getAllSequences: the runs of three, then the runs of two that lie in no run of three. */
  function AllRuns(cells: seq<Slot>, lines: seq<Line>, color: DropColor): (rs: seq<seq<Pos>>)
    requires |cells| == NumberOfCells && LinesShaped(lines)
    ensures forall k :: 0 <= k < |rs| ==> AllOnBoard(rs[k]) && 2 <= |rs[k]| <= 3
  {
    var threes := LineRuns(cells, lines, color, 3);
    var twos := LineRuns(cells, lines, color, 2);
    assert forall r :: r in twos ==> |r| == 2 && AllOnBoard(r);
    threes + Uncovered(twos, threes)
  }

  /** A drop could be set into the slot before or into the slot after the run. */
  predicate Extendable(cells: seq<Slot>, ps: seq<Pos>)
    requires |cells| == NumberOfCells && AllOnBoard(ps)
  {
    AllowsDrop(cells, BeforeOf(ps, Classify(ps))) || AllowsDrop(cells, AfterOf(ps, Classify(ps)))
  }

  /** The extendable runs, in order. */
  function ExtendableRuns(cells: seq<Slot>, rs: seq<seq<Pos>>): (e: seq<seq<Pos>>)
    requires |cells| == NumberOfCells && forall k :: 0 <= k < |rs| ==> AllOnBoard(rs[k])
    ensures forall k :: 0 <= k < |e| ==> e[k] in rs && AllOnBoard(e[k]) && Extendable(cells, e[k])
  {
    if rs == [] then []
    else
      var last := rs[|rs| - 1];
      ExtendableRuns(cells, rs[..|rs| - 1]) + (if Extendable(cells, last) then [last] else [])
  }

  /** One more run is kept when it is extendable. */
  lemma ExtendableStep(cells: seq<Slot>, rs: seq<seq<Pos>>, k: int)
    requires |cells| == NumberOfCells && forall j :: 0 <= j < |rs| ==> AllOnBoard(rs[j])
    requires 0 <= k < |rs|
    ensures ExtendableRuns(cells, rs[..k + 1]) ==
      ExtendableRuns(cells, rs[..k]) + (if Extendable(cells, rs[k]) then [rs[k]] else [])
  {
    assert rs[..k + 1][..k] == rs[..k];
  }

  /** No extendable run is dropped. */
  lemma {:induction false} ExtendableComplete(cells: seq<Slot>, rs: seq<seq<Pos>>)
    requires |cells| == NumberOfCells && forall k :: 0 <= k < |rs| ==> AllOnBoard(rs[k])
    ensures forall r :: r in rs && Extendable(cells, r) ==> r in ExtendableRuns(cells, rs)
  {
    if rs != [] {
      ExtendableComplete(cells, rs[..|rs| - 1]);
      assert forall r :: r in rs ==> r in rs[..|rs| - 1] || r == rs[|rs| - 1];
    }
  }

  /** The runs of a direction, in order. */
  function RunsOfDirection(rs: seq<seq<Pos>>, d: Direction): (e: seq<seq<Pos>>)
    ensures forall k :: 0 <= k < |e| ==> e[k] in rs && Classify(e[k]) == d
  {
    if rs == [] then []
    else
      var last := rs[|rs| - 1];
      RunsOfDirection(rs[..|rs| - 1], d) + (if Classify(last) == d then [last] else [])
  }

  /** One more run is kept when it has the direction. */
  lemma RunsOfDirectionStep(rs: seq<seq<Pos>>, k: int, d: Direction)
    requires 0 <= k < |rs|
    ensures RunsOfDirection(rs[..k + 1], d) == RunsOfDirection(rs[..k], d) + (if Classify(rs[k]) == d then [rs[k]] else [])
  {
    assert rs[..k + 1][..k] == rs[..k];
  }

  /** No run of the direction is dropped. */
  lemma {:induction false} RunsOfDirectionComplete(rs: seq<seq<Pos>>, d: Direction)
    ensures forall r :: r in rs && Classify(r) == d ==> r in RunsOfDirection(rs, d)
  {
    if rs != [] {
      RunsOfDirectionComplete(rs[..|rs| - 1], d);
      assert forall r :: r in rs ==> r in rs[..|rs| - 1] || r == rs[|rs| - 1];
    }
  }

  /** filterPossibleSequences: the runs of the board a drop could extend. */
  function PossibleRuns(cells: seq<Slot>, lines: seq<Line>, color: DropColor): (rs: seq<seq<Pos>>)
    requires |cells| == NumberOfCells && LinesShaped(lines)
    ensures forall k :: 0 <= k < |rs| ==> AllOnBoard(rs[k]) && 2 <= |rs[k]| <= 3 && Extendable(cells, rs[k])
  {
    var all := AllRuns(cells, lines, color);
    var e := ExtendableRuns(cells, all);
    assert forall k :: 0 <= k < |e| ==> 2 <= |e[k]| <= 3 by {
      forall k | 0 <= k < |e|
        ensures 2 <= |e[k]| <= 3
      {
        var j :| 0 <= j < |all| && all[j] == e[k];
      }
    }
    e
  }

  /** getSequencesByDirection: INDETERMINATE asks for all possible runs, any other direction for those of it. */
  function DirectedRuns(cells: seq<Slot>, lines: seq<Line>, color: DropColor, d: Direction): (rs: seq<seq<Pos>>)
    requires |cells| == NumberOfCells && LinesShaped(lines)
    ensures forall k :: 0 <= k < |rs| ==> AllOnBoard(rs[k]) && 2 <= |rs[k]| <= 3 && Extendable(cells, rs[k])
    ensures d != Indeterminate ==> forall k :: 0 <= k < |rs| ==> Classify(rs[k]) == d
  {
    var possible := PossibleRuns(cells, lines, color);
    if d == Indeterminate then possible
    else
      var e := RunsOfDirection(possible, d);
      assert forall k :: 0 <= k < |e| ==> 2 <= |e[k]| <= 3 && AllOnBoard(e[k]) && Extendable(cells, e[k]) by {
        forall k | 0 <= k < |e|
          ensures 2 <= |e[k]| <= 3 && AllOnBoard(e[k]) && Extendable(cells, e[k])
        {
          var j :| 0 <= j < |possible| && possible[j] == e[k];
        }
      }
      e
  }

  /** A run of a column keeps to the column of its first slot. */
  lemma {:induction false} VerticalColumn(ps: seq<Pos>, k: int)
    requires Vertical(ps) && 0 <= k < |ps|
    ensures ps[k].col == ps[0].col
  {
    if k > 0 {
      VerticalColumn(ps, k - 1);
    }
  }

  /**
   * An extendable COLUMN run: the slots before and after it lie in its own
   * column, one of them exists, and that column still has an empty slot.
   */
  lemma ColumnRunHasRoom(cells: seq<Slot>, ps: seq<Pos>)
    requires |cells| == NumberOfCells && AllOnBoard(ps) && |ps| >= 1
    requires Classify(ps) == ColumnDirection && Extendable(cells, ps)
    ensures BeforeOf(ps, ColumnDirection).Some? || AfterOf(ps, ColumnDirection).Some?
    ensures BeforeOf(ps, ColumnDirection).Some? ==> BeforeOf(ps, ColumnDirection).value.col == ps[0].col
    ensures AfterOf(ps, ColumnDirection).Some? ==> AfterOf(ps, ColumnDirection).value.col == ps[0].col
    ensures HasRoom(cells, ps[0].col)
  {
    VerticalColumn(ps, |ps| - 1);
    var q := if AllowsDrop(cells, BeforeOf(ps, ColumnDirection)) then BeforeOf(ps, ColumnDirection)
      else AfterOf(ps, ColumnDirection);
    assert 1 <= q.value.row <= NumberOfSlots && At(cells, Pos(ps[0].col, q.value.row)).isEmpty;
  }

  /** The eight neighbours of a slot, clockwise from the top (searchNeighbours); None off the board. */
  function Neighbours(p: Pos): (ns: seq<Option<Pos>>)
    requires OnBoard(p)
    ensures |ns| == 8 && forall k :: 0 <= k < 8 && ns[k].Some? ==> OnBoard(ns[k].value)
  {
    [Top(p), UpRight(p), Right(p), LowRight(p), Bottom(p), LowLeft(p), Left(p), UpLeft(p)]
  }

  /**
   * Neighbour.canSetDrop: the slot is empty and rests on a filled slot.  Unlike
   * a sequence's allowsDrop, a slot of the bottom row never qualifies.
   */
  predicate CanSetDrop(cells: seq<Slot>, q: Pos)
    requires |cells| == NumberOfCells && OnBoard(q)
  {
    At(cells, q).isEmpty && Bottom(q).Some? && !At(cells, Bottom(q).value).isEmpty
  }

  /** getPossibleSlots: the existing neighbours a drop could be set into, in order. */
  function Candidates(cells: seq<Slot>, ns: seq<Option<Pos>>): (c: seq<Pos>)
    requires |cells| == NumberOfCells && forall k :: 0 <= k < |ns| && ns[k].Some? ==> OnBoard(ns[k].value)
    ensures forall k :: 0 <= k < |c| ==> OnBoard(c[k]) && CanSetDrop(cells, c[k]) && Some(c[k]) in ns
    ensures forall k :: 0 <= k < |ns| && ns[k].Some? && CanSetDrop(cells, ns[k].value) ==> ns[k].value in c
  {
    if ns == [] then []
    else
      var last := ns[|ns| - 1];
      Candidates(cells, ns[..|ns| - 1]) + (if last.Some? && CanSetDrop(cells, last.value) then [last.value] else [])
  }

  /** A candidate lies above the bottom row, in a column with an empty slot. */
  lemma CandidateHasRoom(cells: seq<Slot>, q: Pos)
    requires |cells| == NumberOfCells && OnBoard(q) && CanSetDrop(cells, q)
    ensures q.row >= 2 && HasRoom(cells, q.col)
  {
    assert At(cells, Pos(q.col, q.row)).isEmpty;
  }

  /** A drop of the colour that lies in none of the runs `runs` (getSingleSequences, with the runs of AllRuns). */
  predicate IsSingle(cells: seq<Slot>, runs: seq<seq<Pos>>, color: DropColor, p: Pos)
    requires |cells| == NumberOfCells && OnBoard(p)
  {
    !At(cells, p).isEmpty && At(cells, p).color == color && !Covered([p], runs)
  }
}
