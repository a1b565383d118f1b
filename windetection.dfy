/**
 * The two scans of GameBoardSlotCollection over the slots of one line:
 * hasConnectFour, which decides whether the line holds four drops of one colour
 * in a row, and getConnectFourList, which cuts the four slots out of the line.
 */
module WinDetection {
  import opened Outcomes
  import opened Enumerations
  import opened Slots

  /** Two slots hold drops of the same colour. */
  predicate Agree(a: Slot, b: Slot)
  {
    !a.isEmpty && !b.isEmpty && a.color == b.color
  }

  /** The slot at `i` agrees with each of the (at most three) slots after it. */
  predicate Win(s: seq<Slot>, i: int)
    requires 0 <= i < |s|
  {
    forall j :: i < j < i + 4 && j < |s| ==> Agree(s[i], s[j])
  }

  /** The last start the scan tries: |s| - 4, or 0 for a line of fewer than four slots. */
  function LastStart(n: int): int
  {
    if n >= 4 then n - 4 else 0
  }

  /** What hasConnectFour decides: some start the scan tries opens a winning window. */
  predicate ConnectFour(s: seq<Slot>)
    requires |s| >= 1
  {
    exists i :: 0 <= i <= LastStart(|s|) && Win(s, i)
  }

  /**
   * GameBoardSlotCollection.hasConnectFour.  The colour argument is never read:
   * four drops of either colour make the answer true.
   */
  method HasConnectFour(slots: seq<Slot>, color: DropColor) returns (test: bool)
    requires |slots| >= 1
    ensures test <==> ConnectFour(slots)
  {
    var i := 0;
    while true
      invariant 0 <= i <= LastStart(|slots|)
      invariant forall k :: 0 <= k < i ==> !Win(slots, k)
      decreases LastStart(|slots|) - i
    {
      test := true;
      var current := slots[i];
      var j := i + 1;
      while test && j < i + 4 && j < |slots|
        invariant i + 1 <= j <= i + 4
        invariant test <==> forall m :: i < m < j && m < |slots| ==> Agree(current, slots[m])
      {
        var next := slots[j];
        test := test && !current.isEmpty && !next.isEmpty && current.color == next.color;
        j := j + 1;
      }
      assert test <==> Win(slots, i);
      i := i + 1;
      if test || i >= |slots| - 3 {
        break;
      }
    }
  }

  /** The four slots from `i` on are filled with drops of one colour. */
  predicate FourInARow(s: seq<Slot>, i: int)
    requires 0 <= i && i + 4 <= |s|
  {
    forall k :: i <= k < i + 4 ==> !s[k].isEmpty && s[k].color == s[i].color
  }

  /** On a line of four or more slots: a win is four consecutive filled slots of one colour. */
  lemma ConnectFourIsFourInARow(s: seq<Slot>)
    requires |s| >= 4
    ensures ConnectFour(s) <==> (exists i :: 0 <= i <= |s| - 4 && FourInARow(s, i))
  {
    if ConnectFour(s) {
      var i :| 0 <= i <= LastStart(|s|) && Win(s, i);
      assert FourInARow(s, i) by {
        forall k | i <= k < i + 4
          ensures !s[k].isEmpty && s[k].color == s[i].color
        {
          if k > i {
            assert Agree(s[i], s[k]);
          } else {
            assert Agree(s[i], s[i + 1]);
          }
        }
      }
    }
    forall i | 0 <= i <= |s| - 4 && FourInARow(s, i)
      ensures Win(s, i)
    {
    }
  }

  /** A line of empty slots never wins. */
  lemma EmptyLineNoConnectFour(s: seq<Slot>)
    requires |s| >= 2 && forall k :: 0 <= k < |s| ==> s[k].isEmpty
    ensures !ConnectFour(s)
  {
    forall i | 0 <= i <= LastStart(|s|)
      ensures !Win(s, i)
    {
      assert !Agree(s[i], s[i + 1]);
    }
  }

  /** The slots from `a` up to `b` all have the colour of the slot at `a` (empty slots count as UNKNOWN). */
  predicate EqualRun(s: seq<Slot>, a: int, b: int)
    requires 0 <= a < b <= |s|
  {
    forall k :: a <= k < b ==> s[k].color == s[a].color
  }

  /** The four slots from `i` on have one colour. */
  predicate RunOfFour(s: seq<Slot>, i: int)
    requires 0 <= i && i + 4 <= |s|
  {
    EqualRun(s, i, i + 4)
  }

  /**
   * What getConnectFourList returns once its scan has reached `start`: the first
   * four slots of one colour, compared by colour only; an IndexOutOfBounds
   * failure when a run of one colour shorter than four reaches the end of the
   * line; an empty list when the scan finds neither.
   */
  function ConnectFourList(s: seq<Slot>, start: nat): Result<seq<Slot>>
    decreases |s| - start
  {
    if start + 1 >= |s| then Ok([])
    else if start + 4 <= |s| && EqualRun(s, start, start + 4) then Ok(s[start..start + 4])
    else if EqualRun(s, start, |s|) then Err(IndexOutOfBounds)
    else ConnectFourList(s, start + 1)
  }

  /** GameBoardSlotCollection.getConnectFourList. */
  method GetConnectFourList(s: seq<Slot>) returns (r: Result<seq<Slot>>)
    ensures r == ConnectFourList(s, 0)
  {
    var startIndex := 0;
    var endIndex := 0;
    var isFourInRow := false;
    while !isFourInRow && startIndex < |s| - 1
      invariant 0 <= startIndex <= |s| && startIndex <= endIndex <= |s|
      invariant !isFourInRow ==> ConnectFourList(s, startIndex) == ConnectFourList(s, 0)
      invariant !isFourInRow && startIndex >= |s| - 1 ==> endIndex == startIndex
      invariant isFourInRow ==> startIndex + 4 == endIndex && Ok(s[startIndex..endIndex]) == ConnectFourList(s, 0)
      decreases |s| - startIndex, if isFourInRow then 0 else 1
    {
      var start := s[startIndex];
      endIndex := startIndex + 1;
      while !isFourInRow
        invariant startIndex + 1 <= endIndex <= startIndex + 4 && endIndex <= |s|
        invariant EqualRun(s, startIndex, endIndex)
        invariant isFourInRow <==> endIndex - startIndex == 4
        invariant startIndex < |s| - 1 && ConnectFourList(s, startIndex) == ConnectFourList(s, 0)
        decreases startIndex + 4 - endIndex
      {
        if endIndex >= |s| {
          // sourceList.get(endIndex) is past the end of the list
          return Err(IndexOutOfBounds);
        }
        if s[endIndex].color != start.color {
          break;
        }
        endIndex := endIndex + 1;
        if endIndex - startIndex == 4 {
          isFourInRow := true;
        }
      }
      assert !isFourInRow ==> endIndex < |s| && s[endIndex].color != s[startIndex].color;
      if !isFourInRow {
        startIndex := startIndex + 1;
      }
    }
    assert !isFourInRow ==> s[startIndex..endIndex] == [] && ConnectFourList(s, startIndex) == Ok([]);
    r := Ok(s[startIndex..endIndex]);
  }

  /** When four slots of one colour exist, the result is the first of them; nothing fails before. */
  lemma {:induction false} FirstRunFound(s: seq<Slot>, start: nat, f: int)
    requires start <= f && f + 4 <= |s| && RunOfFour(s, f)
    requires forall i :: start <= i < f ==> !RunOfFour(s, i)
    ensures ConnectFourList(s, start) == Ok(s[f..f + 4])
    decreases f - start
  {
    if start < f {
      assert !RunOfFour(s, start);
      FirstRunFound(s, start + 1, f);
    }
  }

  /** Four empty slots also count as four of one colour. */
  lemma EmptySlotsRun(s: seq<Slot>)
    requires |s| >= 4 && forall k :: 0 <= k < |s| ==> s[k] == EmptySlot(s[k].pos)
    ensures ConnectFourList(s, 0) == Ok(s[0..4])
  {
    FirstRunFound(s, 0, 0);
  }

  /** A run of one colour reaching the end before four is a failure, e.g. RED, YELLOW, YELLOW. */
  lemma TrailingRunFails(a: Slot, b: Slot, c: Slot)
    requires a.color == Red && b.color == Yellow && c.color == Yellow
    ensures ConnectFourList([a, b, c], 0) == Err(IndexOutOfBounds)
  {
    var s := [a, b, c];
    assert s[1].color != s[0].color;
    assert ConnectFourList(s, 0) == ConnectFourList(s, 1);
    assert EqualRun(s, 1, 3);
  }

  /**
   * On a line of at most seven consistent slots (every line of the board), a
   * line that wins gives four filled slots of one colour: an earlier run of four
   * empty slots would need eight slots.
   */
  lemma {:induction false} WinningLineList(s: seq<Slot>, start: nat, i: int)
    requires |s| <= 7 && forall k :: 0 <= k < |s| ==> Consistent(s[k])
    requires start <= i && i + 4 <= |s|
    requires FourInARow(s, i)
    ensures ConnectFourList(s, start).Ok?
    ensures var w := ConnectFourList(s, start).value;
      |w| == 4 && forall k :: 0 <= k < 4 ==> !w[k].isEmpty && w[k].color == w[0].color
    decreases |s| - start
  {
    if start + 4 <= |s| && EqualRun(s, start, start + 4) {
      assert !s[start].isEmpty by {
        assert Consistent(s[start]) && Consistent(s[i]);
        if i < start + 4 {
          assert s[i].color == s[start].color;
        }
      }
    } else {
      WinningLineList(s, start + 1, i);
    }
  }

  /** getConnectFourList on a winning line of the board gives its four winning slots. */
  lemma WinnerSlots(s: seq<Slot>)
    requires 4 <= |s| <= 7 && forall k :: 0 <= k < |s| ==> Consistent(s[k])
    requires ConnectFour(s)
    ensures ConnectFourList(s, 0).Ok?
    ensures var w := ConnectFourList(s, 0).value;
      |w| == 4 && forall k :: 0 <= k < 4 ==> !w[k].isEmpty && w[k].color == w[0].color
  {
    ConnectFourIsFourInARow(s);
    var i :| 0 <= i <= |s| - 4 && FourInARow(s, i);
    WinningLineList(s, 0, i);
  }
}
