/** The piety breakpoint table and the rank ("stars") derived from piety. */
module PietyRanks {
  import opened Gods

  /** MAX_PIETY, HALF_MAX_PIETY and NUM_PIETY_STARS of religion.h. */
  const MaxPiety: int := 200
  const HalfMaxPiety: int := 100
  const NumPietyStars: int := 6

  const Breakpoints: seq<int> := [30, 50, 75, 100, 120, 160]

  /** piety_breakpoint: the piety needed for rank i + 1; 255 off the table. */
  function PietyBreakpoint(i: int): (r: int)
    ensures 0 <= i < NumPietyStars ==> 30 <= r <= 160 && r == Breakpoints[i]
    ensures !(0 <= i < NumPietyStars) ==> r == 255
  {
    if i >= NumPietyStars || i < 0 then 255 else Breakpoints[i]
  }

  /** The table is strictly ascending, and every entry is below the value
      used off the table. */
  lemma BreakpointsAscending(i: int, j: int)
    requires 0 <= i < j && i < NumPietyStars
    ensures PietyBreakpoint(i) < PietyBreakpoint(j)
  {
  }

  /** Xom's separate table: the rank is one more than the index of the
      first entry that piety does not exceed; the last entry is INT_MAX,
      which no int exceeds. */
  const XomBreakpoints: seq<int> := [20, 50, 80, 120, 180]

  /** The downward scan of piety_rank for ordinary gods: the largest
      i <= top with piety >= piety_breakpoint(i - 1), or 0. */
  function RankDown(piety: int, top: nat): (r: nat)
    ensures r <= top
    decreases top
  {
    if top == 0 then 0
    else if piety >= PietyBreakpoint(top - 1) then top
    else RankDown(piety, top - 1)
  }

  /** The upward scan of piety_rank for Xom. */
  function XomRankFrom(piety: int, i: nat): (r: nat)
    requires i <= |XomBreakpoints|
    decreases |XomBreakpoints| - i
  {
    if i == |XomBreakpoints| then i + 1
    else if piety <= XomBreakpoints[i] then i + 1
    else XomRankFrom(piety, i + 1)
  }

  /** piety_rank(piety) for a player who worships `religion`. */
  function PietyRank(religion: God, piety: int): (r: nat)
  {
    if religion == Xom then XomRankFrom(piety, 0) else RankDown(piety, NumPietyStars as nat)
  }

  /** The scan finds the highest breakpoint reached: rank 0 exactly below
      the first breakpoint, otherwise piety lies between the breakpoint of
      its rank and the next one. */
  lemma {:induction false} RankDownBetween(piety: int, top: nat)
    requires top <= NumPietyStars
    ensures RankDown(piety, top) == 0 <==> piety < PietyBreakpoint(0) || top == 0
    ensures RankDown(piety, top) > 0 ==> piety >= PietyBreakpoint(RankDown(piety, top) - 1)
    ensures RankDown(piety, top) < top ==> piety < PietyBreakpoint(RankDown(piety, top))
  {
    if top > 0 && piety < PietyBreakpoint(top - 1) {
      RankDownBetween(piety, top - 1);
      if RankDown(piety, top - 1) < top - 1 {
        BreakpointsAscending(RankDown(piety, top - 1), top - 1);
      }
    }
  }

  /** For every god but Xom, the rank is the largest i in 1 .. 6 with
      piety >= piety_breakpoint(i - 1), and 0 when there is none. */
  lemma RankIsHighestBreakpointReached(religion: God, piety: int)
    requires religion != Xom
    ensures var r := PietyRank(religion, piety);
            r <= NumPietyStars
            && (r == 0 <==> piety < PietyBreakpoint(0))
            && (r > 0 ==> piety >= PietyBreakpoint(r - 1))
            && (r < NumPietyStars ==> piety < PietyBreakpoint(r))
  {
    RankDownBetween(piety, NumPietyStars as nat);
  }

  /** Each breakpoint gives exactly its rank. */
  lemma RankAtBreakpoint(religion: God, i: int)
    requires religion != Xom && 0 <= i < NumPietyStars
    ensures PietyRank(religion, PietyBreakpoint(i)) == i + 1
  {
    var p := PietyBreakpoint(i);
    var r := PietyRank(religion, p);
    RankIsHighestBreakpointReached(religion, p);
    if r < i + 1 {
      BreakpointsAscending(r, i);
    } else if r > i + 1 {
      BreakpointsAscending(i, r - 1);
    }
  }

  lemma {:induction false} RankDownMonotone(p: int, q: int, top: nat)
    requires p <= q
    ensures RankDown(p, top) <= RankDown(q, top)
  {
    if top > 0 && q < PietyBreakpoint(top - 1) {
      RankDownMonotone(p, q, top - 1);
    }
  }

  lemma {:induction false} XomRankMonotone(p: int, q: int, i: nat)
    requires p <= q && i <= |XomBreakpoints|
    ensures XomRankFrom(p, i) <= XomRankFrom(q, i)
    decreases |XomBreakpoints| - i
  {
    if i < |XomBreakpoints| && p > XomBreakpoints[i] {
      XomRankMonotone(p, q, i + 1);
    }
  }

  /** Rank never decreases as piety increases, for either table. */
  lemma RankMonotone(religion: God, p: int, q: int)
    requires p <= q
    ensures PietyRank(religion, p) <= PietyRank(religion, q)
  {
    if religion == Xom {
      XomRankMonotone(p, q, 0);
    } else {
      RankDownMonotone(p, q, NumPietyStars as nat);
    }
  }

  lemma {:induction false} XomRankStep(p: int, i: nat)
    requires i <= |XomBreakpoints|
    ensures XomRankFrom(p + 1, i) <= XomRankFrom(p, i) + 1
    decreases |XomBreakpoints| - i
  {
    if i < |XomBreakpoints| && p > XomBreakpoints[i] {
      XomRankStep(p, i + 1);
    }
  }

  /** One more point of piety raises the rank by at most one, so a rank-up
      in a single-point gain crosses exactly one breakpoint. */
  lemma RankStepAtMostOne(religion: God, p: int)
    ensures PietyRank(religion, p + 1) <= PietyRank(religion, p) + 1
  {
    if religion == Xom {
      XomRankStep(p, 0);
    } else {
      var r := PietyRank(religion, p);
      var r' := PietyRank(religion, p + 1);
      RankIsHighestBreakpointReached(religion, p);
      RankIsHighestBreakpointReached(religion, p + 1);
      if r' > r + 1 {
        BreakpointsAscending(r, r' - 1);
      }
    }
  }

  /** piety_rank as the source computes it: a downward for loop with an
      early return (or, for Xom, an upward scan of its own table). */
  method ComputePietyRank(religion: God, piety: int) returns (r: nat)
    ensures r == PietyRank(religion, piety)
    ensures religion != Xom ==> (r == 0 <==> piety < PietyBreakpoint(0))
    ensures religion != Xom && r > 0 ==> piety >= PietyBreakpoint(r - 1)
  {
    if religion == Xom {
      var i := 0;
      while i < |XomBreakpoints|
        invariant 0 <= i <= |XomBreakpoints|
        invariant XomRankFrom(piety, 0) == XomRankFrom(piety, i)
      {
        if piety <= XomBreakpoints[i] {
          return i + 1;
        }
        i := i + 1;
      }
      return |XomBreakpoints| + 1;
    }
    RankIsHighestBreakpointReached(religion, piety);
    var i := NumPietyStars;
    while i >= 1
      invariant 0 <= i <= NumPietyStars
      invariant RankDown(piety, NumPietyStars as nat) == RankDown(piety, i as nat)
    {
      if piety >= PietyBreakpoint(i - 1) {
        return i as nat;
      }
      i := i - 1;
    }
    return 0;
  }
}
