/**
 * The diagonals of the board (GameBoardDiagonal) and the way the board finds
 * them (GameBoard.createDiagonals).  A diagonal starts at a seed slot and
 * follows one of two steps to the right edge: position + 1 (the source calls
 * it "lower right", searchDown = true) or position - 1 ("upper right").  Only
 * diagonals of at least four slots are kept.
 */
module Diagonals {
  import opened Outcomes
  import opened Geometry
  import opened Lines

  const MinimumLength := 4

  /** getNextLowerRight: the slot in the next column at position + 1. */
  function NextLowerRight(p: Pos): (q: Option<Pos>)
    requires OnBoard(p)
    ensures q == if p.col < NumberOfColumns && p.row < NumberOfSlots then Some(Pos(p.col + 1, p.row + 1)) else None
  {
    var nextPos := p.row + 1;
    var next := RightColumn(p.col);
    if next.None? || nextPos > NumberOfSlots + 1 then None else GetSlot(next.value, nextPos)
  }

  /** getNextUpperRight: the slot in the next column at position - 1. */
  function NextUpperRight(p: Pos): (q: Option<Pos>)
    requires OnBoard(p)
    ensures q == if p.col < NumberOfColumns && p.row > 1 then Some(Pos(p.col + 1, p.row - 1)) else None
  {
    var nextPos := p.row - 1;
    var next := RightColumn(p.col);
    if next.None? || nextPos < 1 then None else GetSlot(next.value, nextPos)
  }

  function Next(p: Pos, searchDown: bool): Option<Pos>
    requires OnBoard(p)
  {
    if searchDown then NextLowerRight(p) else NextUpperRight(p)
  }

  /** The change of position per step. */
  function Rise(searchDown: bool): int
  {
    if searchDown then 1 else -1
  }

  /** The slots met from `start` to the edge of the board, start included. */
  function Walk(start: Pos, searchDown: bool): (w: seq<Pos>)
    requires OnBoard(start)
    ensures |w| >= 1 && w[0] == start
    decreases NumberOfColumns - start.col
  {
    match Next(start, searchDown)
    case None => [start]
    case Some(q) => [start] + Walk(q, searchDown)
  }

  /** How many steps fit between `start` and the edge. */
  function Reach(start: Pos, searchDown: bool): int
  {
    var across := NumberOfColumns - start.col;
    var vertical := if searchDown then NumberOfSlots - start.row else start.row - 1;
    if across < vertical then across else vertical
  }

  /** A walk goes one column right and one position up or down per step until an edge. */
  lemma {:induction false} WalkPositions(start: Pos, searchDown: bool)
    requires OnBoard(start)
    ensures |Walk(start, searchDown)| == Reach(start, searchDown) + 1
    ensures forall k :: 0 <= k < |Walk(start, searchDown)| ==>
      Walk(start, searchDown)[k] == Pos(start.col + k, start.row + (if searchDown then k else -k))
    decreases NumberOfColumns - start.col
  {
    match Next(start, searchDown)
    case None =>
    case Some(q) =>
      WalkPositions(q, searchDown);
      var w := Walk(start, searchDown);
      assert w == [start] + Walk(q, searchDown);
      forall k | 0 <= k < |w|
        ensures w[k] == Pos(start.col + k, start.row + (if searchDown then k else -k))
      {
        if k > 0 {
          assert w[k] == Walk(q, searchDown)[k - 1];
        }
      }
  }

  /** The walk stays on the board and is a straight diagonal line. */
  lemma WalkShape(start: Pos, searchDown: bool)
    requires OnBoard(start)
    ensures |Walk(start, searchDown)| == Reach(start, searchDown) + 1
    ensures forall k :: 0 <= k < |Walk(start, searchDown)| ==>
      Walk(start, searchDown)[k] == Pos(start.col + k, start.row + (if searchDown then k else -k))
    ensures AllOnBoard(Walk(start, searchDown)) && Straight(Walk(start, searchDown), 1, Rise(searchDown))
  {
    WalkPositions(start, searchDown);
  }

  /** GameBoardDiagonal.lookupLength: counts the slots of the walk. */
  method LookupLength(start: Pos, searchDown: bool) returns (count: int)
    requires OnBoard(start)
    ensures count == |Walk(start, searchDown)|
  {
    var current := start;
    count := 1;
    var next := Next(current, searchDown);
    while next.Some?
      invariant OnBoard(current) && next == Next(current, searchDown)
      invariant count - 1 + |Walk(current, searchDown)| == |Walk(start, searchDown)|
      decreases NumberOfColumns - current.col
    {
      count := count + 1;
      current := next.value;
      next := Next(current, searchDown);
    }
  }

  /** GameBoardDiagonal.isValid: the walk from `start` has at least four slots. */
  method IsValid(start: Pos, searchDown: bool) returns (valid: bool)
    requires OnBoard(start)
    ensures valid <==> Reach(start, searchDown) >= MinimumLength - 1
  {
    var length := LookupLength(start, searchDown);
    WalkShape(start, searchDown);
    valid := length >= MinimumLength;
  }

  /** String.compareTo(a, b) < 0: lexicographic order on characters, a proper prefix first. */
  predicate StrLess(a: string, b: string)
  {
    if |a| == 0 then |b| > 0
    else |b| > 0 && (a[0] < b[0] || (a[0] == b[0] && StrLess(a[1..], b[1..])))
  }

  lemma {:induction false} StrLessCommonPrefix(pre: string, a: string, b: string)
    ensures StrLess(pre + a, pre + b) <==> StrLess(a, b)
  {
    if pre == [] {
      assert pre + a == a && pre + b == b;
    } else {
      assert (pre + a)[1..] == pre[1..] + a;
      assert (pre + b)[1..] == pre[1..] + b;
      StrLessCommonPrefix(pre[1..], a, b);
    }
  }

  const SlotNamePrefix := "GameBoardSlot ["

  lemma SlotNameParts(p: Pos)
    requires OnBoard(p)
    ensures SlotName(p) == SlotNamePrefix + (SlotKey(p) + "]")
    ensures |SlotName(p)| == 18 && SlotName(p)[15..17] == SlotKey(p)
  {
  }

  /** Slot names identify slots. */
  lemma SlotNameInjective(p: Pos, q: Pos)
    requires OnBoard(p) && OnBoard(q)
    ensures SlotName(p) == SlotName(q) <==> p == q
  {
    SlotNameParts(p);
    SlotNameParts(q);
    SlotKeyInjective(p, q);
  }

  /** Slot names order slots of different columns like their columns. */
  lemma NameOrder(p: Pos, q: Pos)
    requires OnBoard(p) && OnBoard(q) && p.col < q.col
    ensures StrLess(SlotName(p), SlotName(q)) && !StrLess(SlotName(q), SlotName(p))
    ensures SlotName(p) != SlotName(q)
  {
    SlotNameParts(p);
    SlotNameParts(q);
    StrLessCommonPrefix(SlotNamePrefix, SlotKey(p) + "]", SlotKey(q) + "]");
    StrLessCommonPrefix(SlotNamePrefix, SlotKey(q) + "]", SlotKey(p) + "]");
    KeyOrder(p.col, q.col);
    SlotNameInjective(p, q);
  }

  /** TreeMap.containsKey on the map from slot name to slot. */
  predicate ContainsKey(entries: seq<Pos>, p: Pos)
    requires AllOnBoard(entries) && OnBoard(p)
  {
    exists k :: 0 <= k < |entries| && SlotName(entries[k]) == SlotName(p)
  }

  /** TreeMap.put of a new key: the entries stay in ascending key order. */
  function Put(entries: seq<Pos>, p: Pos): (r: seq<Pos>)
    requires AllOnBoard(entries) && OnBoard(p)
    ensures AllOnBoard(r)
  {
    if entries == [] then [p]
    else if StrLess(SlotName(p), SlotName(entries[0])) then [p] + entries
    else [entries[0]] + Put(entries[1..], p)
  }

  /** A key greater than every key present is put last. */
  lemma {:induction false} PutGreatest(entries: seq<Pos>, p: Pos)
    requires AllOnBoard(entries) && OnBoard(p)
    requires forall k :: 0 <= k < |entries| ==> !StrLess(SlotName(p), SlotName(entries[k]))
    ensures Put(entries, p) == entries + [p]
  {
    if entries != [] {
      PutGreatest(entries[1..], p);
    }
  }

  /** Entries in strictly ascending order of slot name. */
  predicate SortedByName(s: seq<Pos>)
    requires AllOnBoard(s)
  {
    forall i, j :: 0 <= i < j < |s| ==> StrLess(SlotName(s[i]), SlotName(s[j]))
  }

  /** Columns strictly increase along the entries. */
  predicate ColumnsIncrease(s: seq<Pos>)
  {
    forall i, j :: 0 <= i < j < |s| ==> s[i].col < s[j].col
  }

  /** Entries ordered by column are ordered by slot name. */
  lemma SortedByColumn(s: seq<Pos>)
    requires AllOnBoard(s) && ColumnsIncrease(s)
    ensures SortedByName(s)
  {
    forall i, j | 0 <= i < j < |s|
      ensures StrLess(SlotName(s[i]), SlotName(s[j]))
    {
      NameOrder(s[i], s[j]);
    }
  }

  /** Putting a slot of a column right of all entries appends it. */
  lemma PutRightmost(entries: seq<Pos>, c: Pos)
    requires AllOnBoard(entries) && OnBoard(c)
    requires forall k :: 0 <= k < |entries| ==> entries[k].col < c.col
    ensures !ContainsKey(entries, c)
    ensures Put(entries, c) == entries + [c]
  {
    forall k | 0 <= k < |entries|
      ensures StrLess(SlotName(entries[k]), SlotName(c)) && !StrLess(SlotName(c), SlotName(entries[k]))
      ensures SlotName(entries[k]) != SlotName(c)
    {
      NameOrder(entries[k], c);
    }
    PutGreatest(entries, c);
  }

  /** The map update inside build: put the slot unless its name is already a key. */
  method AddIfAbsent(entries: seq<Pos>, c: Pos) returns (r: seq<Pos>)
    requires AllOnBoard(entries) && OnBoard(c)
    requires forall k :: 0 <= k < |entries| ==> entries[k].col < c.col
    ensures r == entries + [c]
  {
    PutRightmost(entries, c);
    r := entries;
    if !ContainsKey(entries, c) {
      r := Put(entries, c);
    }
  }

  /** Along a walk, the next slot is the following element, and there is none after the last. */
  lemma {:induction false} WalkNext(start: Pos, searchDown: bool, n: int)
    requires OnBoard(start)
    requires 0 <= n < |Walk(start, searchDown)|
    ensures OnBoard(Walk(start, searchDown)[n])
    ensures Next(Walk(start, searchDown)[n], searchDown) ==
      if n + 1 < |Walk(start, searchDown)| then Some(Walk(start, searchDown)[n + 1]) else None
    decreases n
  {
    match Next(start, searchDown)
    case None =>
    case Some(q) =>
      var w := Walk(start, searchDown);
      assert w == [start] + Walk(q, searchDown);
      if n > 0 {
        WalkNext(q, searchDown, n - 1);
        assert w[n] == Walk(q, searchDown)[n - 1];
      }
  }

  /**
   * GameBoardDiagonal.build: walks from `start`, putting every slot into a map
   * sorted by slot name, and records the last slot as the end.  The slots come
   * out in walk order, because slot names order like columns.
   */
  method Build(start: Pos, searchDown: bool) returns (slots: seq<Pos>, end: Pos)
    requires OnBoard(start)
    ensures slots == Walk(start, searchDown)
    ensures end == slots[|slots| - 1]
    ensures AllOnBoard(slots) && SortedByName(slots)
  {
    ghost var w := Walk(start, searchDown);
    ghost var n := 0;
    WalkShape(start, searchDown);
    var entries: seq<Pos> := [];
    var previous := start;
    var current: Option<Pos> := Some(start);
    end := start;
    while current.Some?
      invariant 0 <= n <= |w| && entries == w[..n]
      invariant current == if n < |w| then Some(w[n]) else None
      invariant n == |w| ==> end == w[n - 1]
      decreases |w| - n
    {
      var c := current.value;
      WalkNext(start, searchDown, n);
      entries := AddIfAbsent(entries, c);
      previous := c;
      current := Next(c, searchDown);
      n := n + 1;
      if current.None? {
        end := previous;
      }
    }
    slots := entries;
    assert slots == w;
    SortedByColumn(slots);
  }

  /** The diagonal built from a seed: its walk, starting at the seed and ending at the edge. */
  function DiagonalFrom(start: Pos, searchDown: bool): (d: Line)
    requires OnBoard(start)
    ensures IsDiagonal(d)
  {
    WalkShape(start, searchDown);
    var w := Walk(start, searchDown);
    Diagonal(start, w[|w| - 1], w)
  }

  /** The GameBoardDiagonal constructor. */
  method NewDiagonal(start: Pos, searchDown: bool) returns (d: Line)
    requires OnBoard(start)
    ensures d == DiagonalFrom(start, searchDown)
  {
    var slots, end := Build(start, searchDown);
    d := Diagonal(start, end, slots);
  }

  /** A diagonal of the board: both ends on the board. */
  predicate IsDiagonal(d: Line)
  {
    d.Diagonal? && OnBoard(d.start) && OnBoard(d.end)
  }

  /** GameBoardDiagonal.IsIdenticalWith: same ends, in either direction, compared by slot name. */
  function IsIdenticalWith(d: Line, other: Line): (r: bool)
    requires IsDiagonal(d) && IsDiagonal(other)
    ensures r <==> (d.start == other.start && d.end == other.end) || (d.start == other.end && d.end == other.start)
  {
    SlotNameInjective(d.start, other.start);
    SlotNameInjective(d.end, other.end);
    SlotNameInjective(d.start, other.end);
    SlotNameInjective(d.end, other.start);
    (SlotName(d.start) == SlotName(other.start) && SlotName(d.end) == SlotName(other.end))
    || (SlotName(d.start) == SlotName(other.end) && SlotName(d.end) == SlotName(other.start))
  }

  /** GameBoardDiagonal.getKey: "start-end / end-start" of the slot keys. */
  function DiagonalKey(d: Line): string
    requires IsDiagonal(d)
  {
    SlotKey(d.start) + "-" + SlotKey(d.end) + " / " + SlotKey(d.end) + "-" + SlotKey(d.start)
  }

  /** The key names both ends: equal keys mean equal ends, and the key of the reversed diagonal is the other half. */
  lemma DiagonalKeyNamesEnds(d: Line, other: Line)
    requires IsDiagonal(d) && IsDiagonal(other)
    ensures DiagonalKey(d) == DiagonalKey(other) <==> d.start == other.start && d.end == other.end
  {
    var k, k' := DiagonalKey(d), DiagonalKey(other);
    if k == k' {
      assert k[0..2] == SlotKey(d.start) && k'[0..2] == SlotKey(other.start);
      assert k[3..5] == SlotKey(d.end) && k'[3..5] == SlotKey(other.end);
      SlotKeyInjective(d.start, other.start);
      SlotKeyInjective(d.end, other.end);
    }
  }

  /** GameBoard.isDuplicate: some diagonal of the list is identical with `d`. */
  method IsDuplicate(d: Line, list: seq<Line>) returns (duplicate: bool)
    requires IsDiagonal(d) && forall k :: 0 <= k < |list| ==> IsDiagonal(list[k])
    ensures duplicate <==> exists k :: 0 <= k < |list| && IsIdenticalWith(d, list[k])
  {
    var i := 0;
    while i < |list|
      invariant 0 <= i <= |list|
      invariant forall k :: 0 <= k < i ==> !IsIdenticalWith(d, list[k])
    {
      if IsIdenticalWith(d, list[i]) {
        return true;
      }
      i := i + 1;
    }
    return false;
  }

  /** The seeds of a family: the outermost slot of every column, then every slot of column "A". */
  function FamilySeeds(searchDown: bool): (s: seq<Pos>)
    ensures |s| == NumberOfColumns + NumberOfSlots && AllOnBoard(s)
  {
    seq(NumberOfColumns, i => Pos(i + 1, if searchDown then 1 else NumberOfSlots))
    + seq(NumberOfSlots, i => Pos(1, i + 1))
  }

  predicate AllDiagonals(list: seq<Line>)
  {
    forall k :: 0 <= k < |list| ==> IsDiagonal(list[k])
  }

  /** One seed's turn: its diagonal joins the list when it is valid and not a duplicate. */
  function Admit(list: seq<Line>, seed: Pos, searchDown: bool): (r: seq<Line>)
    requires AllDiagonals(list) && OnBoard(seed)
    ensures AllDiagonals(r)
  {
    WalkShape(seed, searchDown);
    var d := DiagonalFrom(seed, searchDown);
    if |d.slots| >= MinimumLength && !(exists k :: 0 <= k < |list| && IsIdenticalWith(d, list[k]))
    then list + [d] else list
  }

  /** The diagonals found from a sequence of seeds, in seed order. */
  function Collect(seeds: seq<Pos>, searchDown: bool): (r: seq<Line>)
    requires AllOnBoard(seeds)
    ensures AllDiagonals(r)
  {
    if seeds == [] then [] else Admit(Collect(seeds[..|seeds| - 1], searchDown), seeds[|seeds| - 1], searchDown)
  }

  function Family(searchDown: bool): seq<Line>
  {
    Collect(FamilySeeds(searchDown), searchDown)
  }

  /** All diagonals of the board: the position + 1 family, then the position - 1 family. */
  function BoardDiagonals(): seq<Line>
  {
    Family(true) + Family(false)
  }

  /** One seed's turn in createDownRightDiagonals / createUpRightDiagonals. */
  method AdmitSeed(family: seq<Line>, seed: Pos, searchDown: bool) returns (r: seq<Line>)
    requires AllDiagonals(family) && OnBoard(seed)
    ensures r == Admit(family, seed, searchDown)
  {
    r := family;
    var valid := IsValid(seed, searchDown);
    WalkShape(seed, searchDown);
    if valid {
      var diagonal := NewDiagonal(seed, searchDown);
      var duplicate := IsDuplicate(diagonal, family);
      if !duplicate {
        // the source builds a second, equal diagonal from the same seed here
        r := family + [diagonal];
      }
    }
  }

  /** Collecting one more seed. */
  lemma CollectStep(seeds: seq<Pos>, i: int, searchDown: bool)
    requires AllOnBoard(seeds) && 0 <= i < |seeds|
    ensures AllOnBoard(seeds[..i]) && AllOnBoard(seeds[..i + 1])
    ensures Collect(seeds[..i + 1], searchDown) == Admit(Collect(seeds[..i], searchDown), seeds[i], searchDown)
  {
    assert seeds[..i + 1][..i] == seeds[..i];
  }

  /**
   * GameBoard.createDownRightDiagonals (searchDown) and createUpRightDiagonals:
   * one seed per column, then every slot of column "A".
   */
  method CreateDiagonalFamily(searchDown: bool) returns (family: seq<Line>)
    ensures family == Family(searchDown)
  {
    family := SeedColumns(searchDown);
    family := SeedLeftColumn(family, searchDown);
  }

  /** The first loop: the seed of each column, in its bottom slot (position + 1) or its top slot. */
  method SeedColumns(searchDown: bool) returns (family: seq<Line>)
    ensures AllOnBoard(FamilySeeds(searchDown)[..NumberOfColumns])
    ensures family == Collect(FamilySeeds(searchDown)[..NumberOfColumns], searchDown)
  {
    ghost var seeds := FamilySeeds(searchDown);
    family := [];
    var i := 0;
    while i < NumberOfColumns
      invariant 0 <= i <= NumberOfColumns
      invariant AllOnBoard(seeds[..i]) && family == Collect(seeds[..i], searchDown)
    {
      var start := GetSlot(i + 1, if searchDown then 1 else NumberOfSlots).value;
      assert start == seeds[i];
      CollectStep(seeds, i, searchDown);
      family := AdmitSeed(family, start, searchDown);
      i := i + 1;
    }
  }

  /** The second loop: each slot of column "A", bottom to top, as a seed. */
  method SeedLeftColumn(first: seq<Line>, searchDown: bool) returns (family: seq<Line>)
    requires AllOnBoard(FamilySeeds(searchDown)[..NumberOfColumns])
    requires first == Collect(FamilySeeds(searchDown)[..NumberOfColumns], searchDown)
    ensures family == Family(searchDown)
  {
    ghost var seeds := FamilySeeds(searchDown);
    family := first;
    var leftMost := 1;  // the column with key "A"
    var j := 1;
    while j <= NumberOfSlots
      invariant 1 <= j <= NumberOfSlots + 1
      invariant AllOnBoard(seeds[..NumberOfColumns + j - 1])
      invariant family == Collect(seeds[..NumberOfColumns + j - 1], searchDown)
    {
      var start := GetSlot(leftMost, j).value;
      assert start == seeds[NumberOfColumns + j - 1];
      CollectStep(seeds, NumberOfColumns + j - 1, searchDown);
      family := AdmitSeed(family, start, searchDown);
      j := j + 1;
    }
    assert seeds[..NumberOfColumns + NumberOfSlots] == seeds;
  }

  /** GameBoard.createDiagonals: both families, position + 1 first. */
  method CreateDiagonals() returns (diagonals: seq<Line>)
    ensures diagonals == BoardDiagonals()
  {
    var down := CreateDiagonalFamily(true);
    var up := CreateDiagonalFamily(false);
    diagonals := down + up;
  }

  /** The end of a diagonal of at least two slots lies to the right of its start, above it for position + 1 and below it for position - 1. */
  lemma DiagonalEnds(start: Pos, searchDown: bool)
    requires OnBoard(start) && |Walk(start, searchDown)| >= 2
    ensures var d := DiagonalFrom(start, searchDown);
      IsDiagonal(d) && d.end.col > d.start.col && (if searchDown then d.end.row > d.start.row else d.end.row < d.start.row)
  {
    WalkShape(start, searchDown);
  }

  /** Two identical diagonals of one family are the same diagonal. */
  lemma IdenticalMeansEqual(d: Line, e: Line, searchDown: bool)
    requires IsDiagonal(d) && IsDiagonal(e)
    requires d == DiagonalFrom(d.start, searchDown) && |d.slots| >= MinimumLength
    requires e == DiagonalFrom(e.start, searchDown) && |e.slots| >= MinimumLength
    requires IsIdenticalWith(d, e)
    ensures d == e
  {
    DiagonalEnds(d.start, searchDown);
    DiagonalEnds(e.start, searchDown);
  }

  /** No diagonal of one family is identical with a diagonal of the other. */
  lemma FamiliesDisjoint(d: Line, e: Line)
    requires IsDiagonal(d) && IsDiagonal(e)
    requires d == DiagonalFrom(d.start, true) && |d.slots| >= MinimumLength
    requires e == DiagonalFrom(e.start, false) && |e.slots| >= MinimumLength
    ensures !IsIdenticalWith(d, e) && !IsIdenticalWith(e, d)
  {
    DiagonalEnds(d.start, true);
    DiagonalEnds(e.start, false);
  }

  /** Every diagonal of the list is the full diagonal of one of the seeds and has at least four slots. */
  ghost predicate FromSeeds(list: seq<Line>, seeds: seq<Pos>, searchDown: bool)
  {
    AllDiagonals(list)
    && forall k :: 0 <= k < |list| ==>
         list[k].start in seeds && list[k] == DiagonalFrom(list[k].start, searchDown) && |list[k].slots| >= MinimumLength
  }

  /** No two diagonals of the list are identical. */
  ghost predicate NoneIdentical(list: seq<Line>)
  {
    AllDiagonals(list)
    && forall i, j :: 0 <= i < j < |list| ==> !IsIdenticalWith(list[i], list[j])
  }

  /** Every seed whose diagonal has at least four slots has its diagonal in the list. */
  ghost predicate CoversSeeds(list: seq<Line>, seeds: seq<Pos>, searchDown: bool)
    requires AllOnBoard(seeds)
  {
    forall i :: 0 <= i < |seeds| && |Walk(seeds[i], searchDown)| >= MinimumLength ==>
      DiagonalFrom(seeds[i], searchDown) in list
  }

  /** What the family loops maintain from one seed to the next. */
  lemma AdmitPreserves(list: seq<Line>, seeds: seq<Pos>, seed: Pos, searchDown: bool)
    requires AllOnBoard(seeds) && OnBoard(seed) && AllDiagonals(list)
    requires FromSeeds(list, seeds, searchDown) && NoneIdentical(list) && CoversSeeds(list, seeds, searchDown)
    ensures AllOnBoard(seeds + [seed])
    ensures var r := Admit(list, seed, searchDown);
      FromSeeds(r, seeds + [seed], searchDown) && NoneIdentical(r) && CoversSeeds(r, seeds + [seed], searchDown)
  {
    var d := DiagonalFrom(seed, searchDown);
    if |d.slots| >= MinimumLength && !(exists k :: 0 <= k < |list| && IsIdenticalWith(d, list[k])) {
      assert Admit(list, seed, searchDown) == list + [d];
      AdmitAdds(list, seeds, seed, d, searchDown);
    } else {
      assert Admit(list, seed, searchDown) == list;
      AdmitSkips(list, seeds, seed, d, searchDown);
    }
  }

  /** A new diagonal joins the list: it comes from the seed and is identical with none before it. */
  lemma AdmitAdds(list: seq<Line>, seeds: seq<Pos>, seed: Pos, d: Line, searchDown: bool)
    requires AllOnBoard(seeds) && OnBoard(seed) && AllDiagonals(list)
    requires FromSeeds(list, seeds, searchDown) && NoneIdentical(list) && CoversSeeds(list, seeds, searchDown)
    requires d == DiagonalFrom(seed, searchDown) && |d.slots| >= MinimumLength
    requires forall k :: 0 <= k < |list| ==> !IsIdenticalWith(d, list[k])
    ensures AllOnBoard(seeds + [seed])
    ensures FromSeeds(list + [d], seeds + [seed], searchDown) && NoneIdentical(list + [d])
    ensures CoversSeeds(list + [d], seeds + [seed], searchDown)
  {
    var r := list + [d];
    var seeds' := seeds + [seed];
    assert FromSeeds(r, seeds', searchDown);
    forall i, j | 0 <= i < j < |r|
      ensures !IsIdenticalWith(r[i], r[j])
    {
      if j == |list| {
        assert !IsIdenticalWith(d, list[i]);
      }
    }
    assert forall k :: 0 <= k < |list| ==> list[k] in r;
    assert CoversSeeds(r, seeds', searchDown);
  }

  /** The list stays as it is: the seed's diagonal is too short or already there. */
  lemma AdmitSkips(list: seq<Line>, seeds: seq<Pos>, seed: Pos, d: Line, searchDown: bool)
    requires AllOnBoard(seeds) && OnBoard(seed) && AllDiagonals(list)
    requires FromSeeds(list, seeds, searchDown) && NoneIdentical(list) && CoversSeeds(list, seeds, searchDown)
    requires d == DiagonalFrom(seed, searchDown)
    requires |d.slots| < MinimumLength || exists k :: 0 <= k < |list| && IsIdenticalWith(d, list[k])
    ensures AllOnBoard(seeds + [seed])
    ensures FromSeeds(list, seeds + [seed], searchDown) && CoversSeeds(list, seeds + [seed], searchDown)
  {
    var seeds' := seeds + [seed];
    if |d.slots| >= MinimumLength {
      var k :| 0 <= k < |list| && IsIdenticalWith(d, list[k]);
      DiagonalEnds(seed, searchDown);
      IdenticalMeansEqual(d, list[k], searchDown);
    }
    assert FromSeeds(list, seeds', searchDown);
    assert CoversSeeds(list, seeds', searchDown);
  }

  lemma {:induction false} CollectInvariant(seeds: seq<Pos>, searchDown: bool)
    requires AllOnBoard(seeds)
    ensures var list := Collect(seeds, searchDown);
      FromSeeds(list, seeds, searchDown) && NoneIdentical(list) && CoversSeeds(list, seeds, searchDown)
  {
    if seeds != [] {
      var prefix, seed := seeds[..|seeds| - 1], seeds[|seeds| - 1];
      assert seeds == prefix + [seed];
      CollectInvariant(prefix, searchDown);
      AdmitPreserves(Collect(prefix, searchDown), prefix, seed, searchDown);
    }
  }

  /** Every diagonal of the board has at least four slots and is a straight line to the edge. */
  lemma BoardDiagonalsShape()
    ensures forall k :: 0 <= k < |BoardDiagonals()| ==>
      IsDiagonal(BoardDiagonals()[k]) && |BoardDiagonals()[k].slots| >= MinimumLength
      && AllOnBoard(BoardDiagonals()[k].slots)
      && (Straight(BoardDiagonals()[k].slots, 1, 1) || Straight(BoardDiagonals()[k].slots, 1, -1))
  {
    CollectInvariant(FamilySeeds(true), true);
    CollectInvariant(FamilySeeds(false), false);
    var all := BoardDiagonals();
    forall k | 0 <= k < |all|
      ensures IsDiagonal(all[k]) && |all[k].slots| >= MinimumLength && AllOnBoard(all[k].slots)
      ensures Straight(all[k].slots, 1, 1) || Straight(all[k].slots, 1, -1)
    {
      var down := k < |Family(true)|;
      WalkShape(all[k].start, down);
    }
  }

  /** No two diagonals of the board are identical (the duplicate check never lets one through twice). */
  lemma BoardDiagonalsDistinct()
    ensures NoneIdentical(BoardDiagonals())
  {
    CollectInvariant(FamilySeeds(true), true);
    CollectInvariant(FamilySeeds(false), false);
    JoinedDistinct(Family(true), Family(false), FamilySeeds(true), FamilySeeds(false));
  }

  /** Joining the two families keeps every two diagonals apart. */
  lemma JoinedDistinct(down: seq<Line>, up: seq<Line>, downSeeds: seq<Pos>, upSeeds: seq<Pos>)
    requires FromSeeds(down, downSeeds, true) && NoneIdentical(down)
    requires FromSeeds(up, upSeeds, false) && NoneIdentical(up)
    ensures NoneIdentical(down + up)
  {
    assert AllDiagonals(down + up);
    forall i, j | 0 <= i < j < |down + up|
      ensures !IsIdenticalWith((down + up)[i], (down + up)[j])
    {
      PairDistinct(down, up, downSeeds, upSeeds, i, j);
    }
  }

  /** Two diagonals of the two families joined are never identical. */
  lemma PairDistinct(down: seq<Line>, up: seq<Line>, downSeeds: seq<Pos>, upSeeds: seq<Pos>, i: int, j: int)
    requires FromSeeds(down, downSeeds, true) && NoneIdentical(down)
    requires FromSeeds(up, upSeeds, false) && NoneIdentical(up)
    requires 0 <= i < j < |down + up|
    ensures !IsIdenticalWith((down + up)[i], (down + up)[j])
  {
    if j < |down| {
      assert !IsIdenticalWith(down[i], down[j]);
    } else if i >= |down| {
      assert !IsIdenticalWith(up[i - |down|], up[j - |down|]);
    } else {
      FamiliesDisjoint(down[i], up[j - |down|]);
    }
  }

  /** The seed a diagonal through `p` starts from, and how many steps it takes to reach `p`. */
  lemma SeedOf(p: Pos, searchDown: bool) returns (i: int, t: int)
    requires OnBoard(p)
    ensures 0 <= i < |FamilySeeds(searchDown)| && 0 <= t
    ensures var seed := FamilySeeds(searchDown)[i];
      OnBoard(seed) && seed == Pos(p.col - t, p.row - t * Rise(searchDown))
      && Reach(seed, searchDown) == t + Reach(p, searchDown)
  {
    var across := p.col - 1;
    var vertical := if searchDown then p.row - 1 else NumberOfSlots - p.row;
    t := if across < vertical then across else vertical;
    var seed := Pos(p.col - t, p.row - t * Rise(searchDown));
    i := if t == across then NumberOfColumns + seed.row - 1 else seed.col - 1;
    assert FamilySeeds(searchDown)[i] == seed;
  }

  /** Every four slots in a row along a diagonal direction lie, in order, on one diagonal of the family. */
  lemma FamilyCoversRuns(p: Pos, searchDown: bool)
    requires OnBoard(p) && OnBoard(Pos(p.col + 3, p.row + 3 * Rise(searchDown)))
    ensures exists k, m :: 0 <= k < |Family(searchDown)| && 0 <= m && m + MinimumLength <= |Family(searchDown)[k].slots|
                           && Family(searchDown)[k].slots[m] == p
  {
    var seeds := FamilySeeds(searchDown);
    var list := Family(searchDown);
    var i, t := SeedOf(p, searchDown);
    var d := DiagonalFrom(seeds[i], searchDown);
    SeedDiagonalReaches(p, seeds[i], t, searchDown);
    CollectInvariant(seeds, searchDown);
    assert |Walk(seeds[i], searchDown)| >= MinimumLength;
    var k :| 0 <= k < |list| && list[k] == d;
    assert list[k].slots[t] == p;
  }

  /** The diagonal of the seed `t` steps before `p` passes `p` at its slot `t` and goes on for three more. */
  lemma SeedDiagonalReaches(p: Pos, seed: Pos, t: int, searchDown: bool)
    requires OnBoard(p) && OnBoard(Pos(p.col + 3, p.row + 3 * Rise(searchDown)))
    requires OnBoard(seed) && 0 <= t && seed == Pos(p.col - t, p.row - t * Rise(searchDown))
    requires Reach(seed, searchDown) == t + Reach(p, searchDown)
    ensures t + MinimumLength <= |DiagonalFrom(seed, searchDown).slots|
    ensures DiagonalFrom(seed, searchDown).slots[t] == p
  {
    WalkShape(seed, searchDown);
  }

  /** Distinct elements: as many as the length. */
  lemma {:induction false} DistinctCard(s: seq<Pos>)
    requires forall i, j :: 0 <= i < j < |s| ==> s[i] != s[j]
    ensures |set x | x in s| == |s|
  {
    if s != [] {
      var rest := s[1..];
      DistinctCard(rest);
      assert (set x | x in s) == (set x | x in rest) + {s[0]};
      assert s[0] !in rest;
    }
  }

  /** The starts of a family's diagonals, in order. */
  function Starts(list: seq<Line>): seq<Pos>
    requires AllDiagonals(list)
  {
    seq(|list|, k requires 0 <= k < |list| => list[k].start)
  }

  /**
   * The board has twelve diagonals: six found with position + 1, starting at
   * A1, B1, C1, D1, A2 and A3, and six found with position - 1, starting at
   * A6, B6, C6, D6, A4 and A5.
   */
  lemma TwelveDiagonals()
    ensures AllDiagonals(Family(true)) && AllDiagonals(Family(false))
    ensures (set p | p in Starts(Family(true))) == {Pos(1, 1), Pos(2, 1), Pos(3, 1), Pos(4, 1), Pos(1, 2), Pos(1, 3)}
    ensures (set p | p in Starts(Family(false))) == {Pos(1, 6), Pos(2, 6), Pos(3, 6), Pos(4, 6), Pos(1, 4), Pos(1, 5)}
    ensures |Family(true)| == 6 && |Family(false)| == 6 && |BoardDiagonals()| == 12
  {
    FamilyStarts(true);
    FamilyStarts(false);
  }

  function ExpectedStarts(searchDown: bool): set<Pos>
  {
    if searchDown then {Pos(1, 1), Pos(2, 1), Pos(3, 1), Pos(4, 1), Pos(1, 2), Pos(1, 3)}
    else {Pos(1, 6), Pos(2, 6), Pos(3, 6), Pos(4, 6), Pos(1, 4), Pos(1, 5)}
  }

  /** The seeds whose diagonals are long enough. */
  lemma ValidSeeds(searchDown: bool)
    ensures forall i :: 0 <= i < |FamilySeeds(searchDown)| ==>
      (|Walk(FamilySeeds(searchDown)[i], searchDown)| >= MinimumLength <==> FamilySeeds(searchDown)[i] in ExpectedStarts(searchDown))
    ensures forall p :: p in ExpectedStarts(searchDown) ==> p in FamilySeeds(searchDown)
  {
    forall i | 0 <= i < |FamilySeeds(searchDown)|
      ensures |Walk(FamilySeeds(searchDown)[i], searchDown)| >= MinimumLength <==> FamilySeeds(searchDown)[i] in ExpectedStarts(searchDown)
    {
      ValidSeed(FamilySeeds(searchDown)[i], searchDown);
    }
    forall p | p in ExpectedStarts(searchDown)
      ensures p in FamilySeeds(searchDown)
    {
      var _ := ExpectedIsSeed(p, searchDown);
    }
  }

  /** A seed's diagonal is long enough exactly when the seed is an expected start. */
  lemma ValidSeed(p: Pos, searchDown: bool)
    requires p in FamilySeeds(searchDown)
    ensures |Walk(p, searchDown)| >= MinimumLength <==> p in ExpectedStarts(searchDown)
  {
    SeedForm(p, searchDown);
    WalkShape(p, searchDown);
    LongSeeds(p, searchDown);
  }

  /** Where an expected start sits among the seeds. */
  lemma ExpectedIsSeed(p: Pos, searchDown: bool) returns (i: int)
    requires p in ExpectedStarts(searchDown)
    ensures 0 <= i < |FamilySeeds(searchDown)| && FamilySeeds(searchDown)[i] == p
  {
    i := if p.col == 1 then NumberOfColumns + p.row - 1 else p.col - 1;
  }

  /** A seed lies on the outermost row of its family or in column "A". */
  lemma SeedForm(p: Pos, searchDown: bool)
    requires p in FamilySeeds(searchDown)
    ensures OnBoard(p) && (p.col == 1 || p.row == (if searchDown then 1 else NumberOfSlots))
  {
    var i :| 0 <= i < |FamilySeeds(searchDown)| && FamilySeeds(searchDown)[i] == p;
  }

  /** Which seeds reach at least three steps. */
  lemma LongSeeds(p: Pos, searchDown: bool)
    requires OnBoard(p) && (p.col == 1 || p.row == (if searchDown then 1 else NumberOfSlots))
    ensures Reach(p, searchDown) >= MinimumLength - 1 <==> p in ExpectedStarts(searchDown)
  {
  }

  lemma StartsAreExpected(searchDown: bool)
    ensures AllDiagonals(Family(searchDown))
    ensures forall p :: p in Starts(Family(searchDown)) ==> p in ExpectedStarts(searchDown)
  {
    var seeds := FamilySeeds(searchDown);
    CollectInvariant(seeds, searchDown);
    var list := Family(searchDown);
    var starts := Starts(list);
    forall p | p in starts
      ensures p in ExpectedStarts(searchDown)
    {
      var k :| 0 <= k < |list| && starts[k] == p;
      assert p in seeds && |Walk(p, searchDown)| >= MinimumLength;
      SeedForm(p, searchDown);
      WalkShape(p, searchDown);
      LongSeeds(p, searchDown);
    }
  }

  lemma ExpectedAreStarts(searchDown: bool)
    ensures AllDiagonals(Family(searchDown))
    ensures forall p :: p in ExpectedStarts(searchDown) ==> p in Starts(Family(searchDown))
  {
    forall p | p in ExpectedStarts(searchDown)
      ensures p in Starts(Family(searchDown))
    {
      ExpectedIsStart(p, searchDown);
    }
  }

  /** An expected start is the start of a diagonal of the family. */
  lemma ExpectedIsStart(p: Pos, searchDown: bool)
    requires p in ExpectedStarts(searchDown)
    ensures AllDiagonals(Family(searchDown)) && p in Starts(Family(searchDown))
  {
    var seeds := FamilySeeds(searchDown);
    var i := ExpectedIsSeed(p, searchDown);
    ValidSeed(p, searchDown);
    CollectInvariant(seeds, searchDown);
    var list := Family(searchDown);
    assert |Walk(seeds[i], searchDown)| >= MinimumLength;
    var k :| 0 <= k < |list| && list[k] == DiagonalFrom(p, searchDown);
    assert Starts(list)[k] == p;
  }

  lemma StartsDistinct(searchDown: bool)
    ensures AllDiagonals(Family(searchDown))
    ensures forall i, j :: 0 <= i < j < |Starts(Family(searchDown))| ==> Starts(Family(searchDown))[i] != Starts(Family(searchDown))[j]
  {
    CollectInvariant(FamilySeeds(searchDown), searchDown);
    var list := Family(searchDown);
    var starts := Starts(list);
    forall i, j | 0 <= i < j < |starts|
      ensures starts[i] != starts[j]
    {
      assert !IsIdenticalWith(list[i], list[j]);
      assert list[i] == DiagonalFrom(starts[i], searchDown) && list[j] == DiagonalFrom(starts[j], searchDown);
    }
  }

  lemma ExpectedCount(searchDown: bool)
    ensures |ExpectedStarts(searchDown)| == 6
  {
  }

  /** A sequence of distinct elements drawn from a set, covering it, is as long as the set is large. */
  lemma CoveringDistinct(s: seq<Pos>, e: set<Pos>)
    requires forall i, j :: 0 <= i < j < |s| ==> s[i] != s[j]
    requires forall p :: p in s ==> p in e
    requires forall p :: p in e ==> p in s
    ensures (set p | p in s) == e && |s| == |e|
  {
    DistinctCard(s);
    assert (set p | p in s) == e;
  }

  lemma FamilyStarts(searchDown: bool)
    ensures AllDiagonals(Family(searchDown))
    ensures (set p | p in Starts(Family(searchDown))) == ExpectedStarts(searchDown)
    ensures |Family(searchDown)| == 6
  {
    StartsAreExpected(searchDown);
    ExpectedAreStarts(searchDown);
    StartsDistinct(searchDown);
    ExpectedCount(searchDown);
    CoveringDistinct(Starts(Family(searchDown)), ExpectedStarts(searchDown));
  }
}
