/** Properties of the favour transitions that relate several calls, or a
    transition to an independent description of what it should do. */
module FavourLemmas {
  import opened Gods
  import opened PietyRanks
  import opened Dice
  import opened Favour

  // ------------------------------------------------------------ penance

  /** _inc_penance: a no-op for val <= 0; otherwise the god's penance is
      the capped sum, nobody else's changes, and the wrath-XP timeout is
      armed (with at least 1) only when it was not already running. */
  lemma IncPenanceEffect(s: FavourState, god: God, val: int, xpStep: int)
    requires WellFormed(s)
    ensures var r := IncPenance(s, god, val, xpStep);
            (val <= 0 ==> r == s)
            && (val > 0 ==> Penance(r, god) == Min(MaxPenance, Penance(s, god) + val))
            && (forall g :: g != god ==> Penance(r, g) == Penance(s, g))
            && (val > 0 && s.wrathXp > 0 ==> r.wrathXp == s.wrathXp)
            && (val > 0 && s.wrathXp == 0 ==> r.wrathXp >= 1)
  {
  }

  /** dec_penance: a no-op for val <= 0 or no penance; otherwise the
      god's penance drops by val, floored at 0, and nobody else's changes. */
  lemma DecPenanceEffect(s: FavourState, god: God, val: int)
    requires WellFormed(s)
    ensures var r := DecPenance(s, god, val);
            (val <= 0 || Penance(s, god) <= 0 ==> r == s)
            && (val > 0 ==> Penance(r, god) == Max(0, Penance(s, god) - val))
            && (forall g :: g != god ==> Penance(r, g) == Penance(s, g))
  {
  }

  /** The stored wrath is cleared exactly when the call mollifies the god
      and, with the new counter, no god is left actively angry; otherwise
      it is left alone. */
  lemma DecPenanceClearsWrath(s: FavourState, god: God, val: int)
    requires WellFormed(s)
    ensures var r := DecPenance(s, god, val);
            var after := s.(penance := s.penance[Ord(god) := Max(0, Penance(s, god) - val)]);
            var calm := Mollifies(god, Penance(s, god), val) && NoActivePenance(after);
            (calm ==> r.wrathCount == 0 && r.wrathXp == 0)
            && (!calm ==> r.wrathCount == s.wrathCount && r.wrathXp == s.wrathXp)
  {
    var o := Ord(god);
    var p := Penance(s, god);
    var after := s.(penance := s.penance[o := Max(0, p - val)]);
    var r := DecPenance(s, god, val);
    if val <= 0 || p <= 0 {
      assert r == s;
    } else if p <= val {
      assert after.penance == s.penance[o := 0];
      assert r == ClearWrathIfCalm(after);
    } else if god == NemelexXobeh && p > 100 {
      assert after.penance == s.penance[o := p - val];
      if p - val > 100 {
        assert r == after;
      } else {
        assert r == ClearWrathIfCalm(after);
      }
    } else {
      assert r == after;
    }
  }

  /** A god paid off in full is no longer angry. */
  lemma MollifiedGodIsCalm(s: FavourState, god: God, val: int)
    requires WellFormed(s) && val >= Penance(s, god)
    ensures !ActivePenanceIn(DecPenance(s, god, val), god)
  {
  }

  /** Penance taken below the cap is given back by the same decrement. */
  lemma IncThenDecRestoresPenance(s: FavourState, god: God, val: int, xpStep: int)
    requires WellFormed(s) && val > 0 && Penance(s, god) + val <= MaxPenance
    ensures Penance(DecPenance(IncPenance(s, god, val, xpStep), god, val), god) == Penance(s, god)
  {
    PenanceBounds(s, god);
    IncPenanceEffect(s, god, val, xpStep);
    DecPenanceEffect(IncPenance(s, god, val, xpStep), god, val);
  }

  /** The counter as the source stores it: an addition that passes 255
      wraps, so a god at MAX_PENANCE who is wronged again for 56 forgets
      the grudge, where the cap was meant to keep it at 200. */
  lemma IncPenanceWrapForgets()
    ensures IncPenanceAsWritten(MaxPenance, 56) == 0
    ensures Min(MaxPenance, MaxPenance + 56) == MaxPenance
  {
  }

  /** The same store on a god with no penance yet: 300 at once is kept as
      44, where the cap was meant to give 200. */
  lemma IncPenanceWrapFresh()
    ensures IncPenanceAsWritten(0, 300) == 44
    ensures Min(MaxPenance, 300) == MaxPenance
  {
  }

  /** Below the wrap the stored counter and the intended cap agree. */
  lemma IncPenanceAsWrittenBelowWrap(s: FavourState, god: God, val: int, xpStep: int)
    requires WellFormed(s) && val > 0 && Penance(s, god) + val < 256
    ensures IncPenanceAsWritten(Penance(s, god), val) == Penance(IncPenance(s, god, val, xpStep), god)
  {
    PenanceBounds(s, god);
    IncPenanceEffect(s, god, val, xpStep);
  }

  // ---------------------------------------------------- gift bookkeeping

  /** The two gift counters of the current god went up by one, and every
      other god's stayed. */
  predicate GiftCounted(s: FavourState, r: FavourState)
    requires Shaped(s) && Shaped(r)
  {
    var o := Ord(s.religion);
    r.currentGifts[o] == s.currentGifts[o] + 1 && r.totalGifts[o] == s.totalGifts[o] + 1
    && (forall g: God :: g != s.religion ==>
          r.currentGifts[Ord(g)] == s.currentGifts[Ord(g)] && r.totalGifts[Ord(g)] == s.totalGifts[Ord(g)])
  }

  /** do_god_gift: a gift is only considered when forced, or with no
      penance and no timeout; a gift granted is counted and raises the
      timeout (saturating at 200); otherwise nothing changes. */
  lemma DoGodGiftEffect(s: FavourState, forced: bool, outcome: GiftOutcome)
    requires WellFormed(s) && s.religion != NoGod
    ensures var r := DoGodGift(s, forced, outcome);
            (GiftConsidered(s, forced) && outcome.Granted? ==>
               GiftCounted(s, r) && r.giftTimeout == Min(GiftTimeoutCap, s.giftTimeout + outcome.timeoutInc))
            && (!GiftConsidered(s, forced) || outcome == NoGift ==> r == s)
  {
  }

  /** _delayed_gift_callback: a gift that placed a monster is counted and
      raises the timeout; one that placed none changes nothing. */
  lemma DelayedGiftCallbackEffect(s: FavourState, placed: int, timeoutInc: nat)
    requires WellFormed(s)
    ensures var r := DelayedGiftCallback(s, placed, timeoutInc);
            (placed > 0 ==> GiftCounted(s, r) && r.giftTimeout == Min(GiftTimeoutCap, s.giftTimeout + timeoutInc))
            && (placed <= 0 ==> r == s)
  {
  }

  /** With nothing left to offer, Vehumet's counters still advance while
      at most 12 gifts have been given, and never afterwards. */
  lemma VehumetNothingLeftEffect(s: FavourState)
    requires WellFormed(s)
    ensures var r := VehumetNothingLeft(s);
            (s.totalGifts[Ord(s.religion)] <= 12 ==> GiftCounted(s, r) && r.giftTimeout == s.giftTimeout)
            && (s.totalGifts[Ord(s.religion)] > 12 ==> r == s)
  {
  }

  /** The stored wrath is cleared exactly when no god is actively angry. */
  lemma ClearWrathIfCalmEffect(s: FavourState)
    requires Shaped(s)
    ensures var r := ClearWrathIfCalm(s);
            (NoActivePenance(s) ==> r.wrathCount == 0 && r.wrathXp == 0)
            && (!NoActivePenance(s) ==> r == s)
  {
  }

  // ----------------------------------------------------------- the point

  /** The point itself: a banked loss is paid off by one before piety
      moves; with an empty bank piety rises by one, up to MAX_PIETY. */
  lemma AdvanceEffect(s: FavourState)
    requires WellFormed(s) && s.religion != NoGod
    ensures var r := Advance(s);
            (s.hysteresis > 0 ==> r.hysteresis == s.hysteresis - 1 && r.piety == s.piety)
            && (s.hysteresis == 0 ==> r.hysteresis == 0 && r.piety == Min(MaxPiety, s.piety + 1))
  {
  }

  /** When _gain_piety_point grants a point of piety, independently of how
      it is computed: nothing owed, the timeout (if any) let the point
      through, no taper, not Ru's ceiling, no banked loss, not at the cap. */
  predicate PointGranted(s: FavourState, roll: PointRoll)
    requires Shaped(s)
  {
    Penance(s, s.religion) <= 0
    && (s.giftTimeout == 0 || roll.timeoutSpares || TimeoutNeverSlows(s.religion))
    && !Tapers(s.religion, s.piety, roll)
    && !(s.religion == Ru && s.piety >= PietyBreakpoint(5))
    && s.hysteresis == 0
    && s.piety < MaxPiety
  }

  lemma PointGrantedExactly(s: FavourState, roll: PointRoll)
    requires WellFormed(s) && s.religion != NoGod
    ensures GainPietyPoint(s, roll).piety == s.piety + 1 <==> PointGranted(s, roll)
  {
  }

  /** Service pays off grudges first: under penance the step only takes
      one point of penance, touching neither piety, the bank nor the gift
      bookkeeping. */
  lemma PointPaysPenanceFirst(s: FavourState, roll: PointRoll)
    requires WellFormed(s) && s.religion != NoGod && UnderPenance(s, s.religion)
    ensures var r := GainPietyPoint(s, roll);
            r.piety == s.piety && r.hysteresis == s.hysteresis && r.giftTimeout == s.giftTimeout
            && r.currentGifts == s.currentGifts && r.totalGifts == s.totalGifts
            && Penance(r, s.religion) == Penance(s, s.religion) - 1
  {
    DecPenanceEffect(s, s.religion, 1);
  }

  /** Banked loss is paid back before piety rises: a step that lowers the
      bank leaves piety alone, and a step that raises piety found the bank
      empty. */
  lemma PointHysteresisBeforePiety(s: FavourState, roll: PointRoll)
    requires WellFormed(s) && s.religion != NoGod
    ensures var r := GainPietyPoint(s, roll);
            (r.hysteresis < s.hysteresis ==> r.piety == s.piety)
            && (r.piety > s.piety ==> s.hysteresis == 0)
  {
  }

  /** One step raises the rank by at most one. */
  lemma PointRankStep(s: FavourState, roll: PointRoll)
    requires WellFormed(s) && s.religion != NoGod
    ensures var r := GainPietyPoint(s, roll);
            PietyRank(s.religion, s.piety) <= PietyRank(r.religion, r.piety) <= PietyRank(s.religion, s.piety) + 1
  {
    var r := GainPietyPoint(s, roll);
    RankMonotone(s.religion, s.piety, r.piety);
    RankStepAtMostOne(s.religion, s.piety);
  }

  // ---------------------------------------------------------------- gain

  /** While the debt covers every step, a run of steps only pays penance. */
  lemma {:induction false} PointsPayPenance(s: FavourState, dice: RollStream, pos: nat, n: nat)
    requires WellFormed(s) && s.religion != NoGod && Penance(s, s.religion) >= n
    ensures var r := GainPietyPoints(s, dice, pos, n);
            r.piety == s.piety && r.hysteresis == s.hysteresis && r.giftTimeout == s.giftTimeout
            && r.totalGifts == s.totalGifts
            && Penance(r, s.religion) == Penance(s, s.religion) - n
    decreases n
  {
    if n > 0 {
      PointPaysPenanceFirst(s, dice(pos));
      PointsPayPenance(GainPietyPoint(s, dice(pos)), dice, pos + 1, n - 1);
    }
  }

  /** No gift is granted in the next n rolls of the stream. */
  predicate NoGiftsFrom(dice: RollStream, pos: nat, n: nat)
  {
    forall k: nat :: pos <= k < pos + n ==> dice(k).gift == NoGift
  }

  /** A step whose roll grants no gift never raises the gift timeout or
      the counters. */
  lemma PointWithoutGift(s: FavourState, roll: PointRoll)
    requires WellFormed(s) && s.religion != NoGod && roll.gift == NoGift
    ensures var r := GainPietyPoint(s, roll);
            r.giftTimeout <= s.giftTimeout && r.totalGifts == s.totalGifts && r.currentGifts == s.currentGifts
  {
    if !UnderPenance(s, s.religion) {
      var s1 := s.(giftTimeout := if s.giftTimeout > 0 then s.giftTimeout - 1 else s.giftTimeout);
      assert DoGodGift(s1, false, roll.gift) == s1;
      assert DoGodGift(Advance(s1), false, roll.gift) == Advance(s1);
    }
  }

  /** Without gifts, steps never raise the gift timeout or the counters. */
  lemma {:induction false} PointsWithoutGifts(s: FavourState, dice: RollStream, pos: nat, n: nat)
    requires WellFormed(s) && s.religion != NoGod && NoGiftsFrom(dice, pos, n)
    ensures var r := GainPietyPoints(s, dice, pos, n);
            r.giftTimeout <= s.giftTimeout && r.totalGifts == s.totalGifts && r.currentGifts == s.currentGifts
    decreases n
  {
    if n > 0 {
      assert dice(pos).gift == NoGift;
      PointWithoutGift(s, dice(pos));
      PointsWithoutGifts(GainPietyPoint(s, dice(pos)), dice, pos + 1, n - 1);
    }
  }

  /** gain_piety is refused for no god, Xom and Gozag, and for a gain that
      is not positive; a refused call changes nothing. */
  lemma GainPietyRefused(s: FavourState, originalGain: int, denominator: int, shouldScale: bool,
                         faith: nat, scaleRoll: nat, divRoll: nat, dice: RollStream, pos: nat)
    requires WellFormed(s) && denominator > 0
    requires originalGain <= 0 || s.religion in {NoGod, Xom, Gozag}
    ensures GainPiety(s, originalGain, denominator, shouldScale, faith, scaleRoll, divRoll, dice, pos)
            == Gained(s, false, 0)
  {
  }

  /** piety_scale adds, per point of faith, a quarter of the amount rounded
      up or down at random: between faith * (piety / 4) and
      faith * (piety / 4 + 1) more for a non-negative amount. */
  lemma PietyScaleBounds(piety: int, faith: nat, roll: nat)
    requires piety >= 0
    ensures piety + faith * (piety / 4) <= PietyScale(piety, faith, roll) <= piety + faith * (piety / 4 + 1)
    ensures piety % 4 == 0 ==> PietyScale(piety, faith, roll) == piety + faith * (piety / 4)
  {
  }

  /** An unscaled gain over 1 runs exactly original_gain steps. */
  lemma GainPietyUnscaledSteps(s: FavourState, originalGain: int, dice: RollStream, pos: nat)
    requires WellFormed(s) && originalGain > 0 && GainsPiety(s.religion)
    ensures GainPiety(s, originalGain, 1, false, 0, 0, 0, dice, pos).used == originalGain
  {
    DivRandRoundByOne(originalGain, 0);
  }

  // ------------------------------------------------------------ set_piety

  /** A downward target is always reached, within three passes: the first
      loss may be partly banked, the second is taken in full. */
  lemma SetPietyDownReached(s: FavourState, target: int, dice: RollStream, pos: nat, rounds: nat)
    requires WellFormed(s) && 0 <= target <= s.piety && rounds >= 3
    ensures SetPietyRounds(s, target, dice, pos, rounds).reached
  {
    if target < s.piety {
      var s1 := LosePiety(s, s.piety - target);
      assert SetPietyRounds(s, target, dice, pos, rounds) == SetPietyRounds(s1, target, dice, pos, rounds - 1);
      assert s1.piety >= target;
      if target < s1.piety {
        assert s1.hysteresis == PietyHysteresisLimit;
        var s2 := LosePiety(s1, s1.piety - target);
        assert SetPietyRounds(s1, target, dice, pos, rounds - 1) == SetPietyRounds(s2, target, dice, pos, rounds - 2);
        assert s2.piety == target;
      }
    }
  }

  /** For a god that takes no piety gains, raising piety is refused at once
      and leaves the state as it was. */
  lemma SetPietyUpRefused(s: FavourState, target: int, dice: RollStream, pos: nat, rounds: nat)
    requires WellFormed(s) && !GainsPiety(s.religion) && target > s.piety && rounds > 0
    ensures SetPietyRounds(s, target, dice, pos, rounds) == SetOutcome(s, false, pos)
  {
  }

  /** A point roll that grants: the gift timeout lets the point through,
      neither taper fires and no gift comes with it. */
  predicate GrantingRolls(dice: RollStream, pos: nat, n: nat)
  {
    forall k: nat :: pos <= k < pos + n ==> dice(k) == PointRoll(true, false, false, NoGift)
  }

  /** With nothing owed, no banked loss and room below the cap, a granting
      roll raises piety by exactly one point and leaves it that way. */
  lemma PointGrants(s: FavourState, roll: PointRoll)
    requires WellFormed(s) && s.religion != NoGod && !UnderPenance(s, s.religion) && s.hysteresis == 0
    requires s.piety < MaxPiety && (s.religion == Ru ==> s.piety < PietyBreakpoint(5))
    requires roll == PointRoll(true, false, false, NoGift)
    ensures var r := GainPietyPoint(s, roll);
            r.piety == s.piety + 1 && r.hysteresis == 0 && r.penance == s.penance
  {
    var s1 := s.(giftTimeout := if s.giftTimeout > 0 then s.giftTimeout - 1 else s.giftTimeout);
    assert !Tapers(s.religion, s.piety, roll);
    assert Advance(s1).piety == s.piety + 1;
    assert DoGodGift(Advance(s1), false, roll.gift) == Advance(s1);
  }

  /** n granting rolls in a row raise piety by exactly n. */
  lemma {:induction false} PointsGrant(s: FavourState, dice: RollStream, pos: nat, n: nat)
    requires WellFormed(s) && s.religion != NoGod && !UnderPenance(s, s.religion) && s.hysteresis == 0
    requires s.piety + n <= MaxPiety && (s.religion == Ru ==> s.piety + n <= PietyBreakpoint(5))
    requires GrantingRolls(dice, pos, n)
    ensures GainPietyPoints(s, dice, pos, n).piety == s.piety + n
    decreases n
  {
    if n > 0 {
      assert dice(pos) == PointRoll(true, false, false, NoGift);
      PointGrants(s, dice(pos));
      var s1 := GainPietyPoint(s, dice(pos));
      assert GrantingRolls(dice, pos + 1, n - 1) by {
        forall k: nat | pos + 1 <= k < pos + 1 + (n - 1)
          ensures dice(k) == PointRoll(true, false, false, NoGift)
        {
          assert pos <= k < pos + n;
        }
      }
      PointsGrant(s1, dice, pos + 1, n - 1);
    }
  }

  /** An upward target is reached in two passes when the god takes gains,
      nothing is owed, no loss is banked and every roll grants: the first
      pass gains the whole difference, the second sees none left. */
  lemma SetPietyUpReached(s: FavourState, piety: int, dice: RollStream, pos: nat, rounds: nat)
    requires WellFormed(s) && GainsPiety(s.religion) && !UnderPenance(s, s.religion) && s.hysteresis == 0
    requires 0 <= piety <= MaxPiety && s.piety < SetPietyTarget(s.religion, piety) && rounds >= 2
    requires GrantingRolls(dice, pos, SetPietyTarget(s.religion, piety) - s.piety)
    ensures var o := SetPiety(s, piety, dice, pos, rounds);
            o.reached && o.state.piety == SetPietyTarget(s.religion, piety)
            && o.pos == pos + (SetPietyTarget(s.religion, piety) - s.piety)
  {
    var target := SetPietyTarget(s.religion, piety);
    var diff := target - s.piety;
    GainPietyUnscaledSteps(s, diff, dice, pos);
    PointsGrant(s, dice, pos, diff);
    var g := GainPiety(s, diff, 1, false, 0, 0, 0, dice, pos);
    assert g.state.piety == target;
    assert SetPietyRounds(s, target, dice, pos, rounds)
        == SetPietyRounds(g.state, target, dice, pos + diff, rounds - 1);
  }

  // -------------------------------------------------- leaving and joining

  /** excommunication seeds the deserted god's penance, drops its current
      gift count and touches no other god's penance; the gift timeout and
      the lifetime counters survive. */
  lemma ExcommunicationEffect(s: FavourState, voluntary: bool, newGod: God)
    requires WellFormed(s) && s.religion != NoGod && s.religion != newGod
    ensures var r := Excommunication(s, voluntary, newGod);
            Penance(r, s.religion) == DesertionPenance(s.religion)
            && (forall g :: g != s.religion ==> Penance(r, g) == Penance(s, g))
            && r.currentGifts[Ord(s.religion)] == 0
            && r.giftTimeout == s.giftTimeout && r.totalGifts == s.totalGifts
            && (r.previousGoodGod != NoGod <==> voluntary && IsGoodGod(s.religion))
            && (voluntary && IsGoodGod(s.religion) ==>
                  r.previousGoodGod == s.religion && r.savedGoodGodPiety == s.piety)
            && (!(voluntary && IsGoodGod(s.religion)) ==>
                  r.previousGoodGod == NoGod && r.savedGoodGodPiety == 0)
  {
  }

  /** The end of join_religion never lowers the piety that
      _set_initial_god_piety leaves. */
  lemma JoinKeepsInitialPiety(s: FavourState, which: God, rolls: JoinRolls, dice: RollStream, pos: nat)
    requires WellFormed(s) && which != NoGod && which != s.religion && rolls.xomTimeout <= 78
    ensures JoinReligion(s, which, rolls, dice, pos).state.piety
            >= SetInitialGodPiety(LeaveForJoin(s, which).(religion := which), rolls, dice, pos).state.piety
  {
  }

  /** Moving from one good god to another carries half the surplus over
      breakpoint 0: the bank join_religion fills holds the old god's
      piety and survives the starting piety and the join bonuses, and the
      transfer at the end of _set_initial_god_piety takes half its surplus
      in gain rolls; the rest of the join keeps what they gave
      (JoinKeepsInitialPiety). */
  lemma JoinCarriesGoodGodSurplus(s: FavourState, which: God, rolls: JoinRolls, dice: RollStream, pos: nat)
    requires WellFormed(s) && IsGoodGod(s.religion) && IsGoodGod(which) && which != s.religion
    requires rolls.xomTimeout <= 78 && s.piety > PietyBreakpoint(0)
    ensures var w := LeaveForJoin(s, which).(religion := which);
            var b := JoinBonuses(w, rolls, dice, pos);
            var n := DivRandRound(b.state.savedGoodGodPiety - PietyBreakpoint(0), 2, rolls.transferRoll);
            var t := SetInitialGodPiety(w, rolls, dice, pos);
            b.state.previousGoodGod == s.religion && b.state.savedGoodGodPiety == s.piety
            && t.pos - b.pos == n && t.state == RaisePietyMax(GainPietyPoints(b.state, dice, b.pos, n))
  {
    var w := LeaveForJoin(s, which).(religion := which);
    var b := JoinBonuses(w, rolls, dice, pos);
    TransferGoodGodPietyAmount(b.state, rolls.transferRoll, dice, b.pos);
    InitialPietyEndsInTransfer(w, rolls, dice, pos);
  }

  /** _set_initial_god_piety ends in the good-god transfer. */
  lemma InitialPietyEndsInTransfer(w: FavourState, rolls: JoinRolls, dice: RollStream, pos: nat)
    requires WellFormed(w) && w.religion != NoGod && rolls.xomTimeout <= 78
    ensures var b := JoinBonuses(w, rolls, dice, pos);
            SetInitialGodPiety(w, rolls, dice, pos) == TransferGoodGodPiety(b.state, rolls.transferRoll, dice, b.pos)
  {
  }

  /** Grudges outlive the relationship: after joining `which`, every god
      other than the old and the new one keeps its penance, the old god
      holds its desertion penance and the new one holds none. */
  lemma JoinKeepsGrudges(s: FavourState, which: God, rolls: JoinRolls, dice: RollStream, pos: nat)
    requires WellFormed(s) && which != NoGod && which != s.religion && rolls.xomTimeout <= 78
    ensures var r := JoinReligion(s, which, rolls, dice, pos).state;
            (forall g :: g != s.religion && g != which ==> Penance(r, g) == Penance(s, g))
            && Penance(r, which) == 0
            && (s.religion != NoGod ==> Penance(r, s.religion) == DesertionPenance(s.religion))
  {
    var s2 := LeaveForJoin(s, which);
    var r := JoinReligion(s, which, rolls, dice, pos).state;
    assert r.penance == s2.penance[Ord(which) := 0];
  }

  /** After joining any god but Xom, the banked loss is empty. */
  lemma JoinClearsHysteresis(s: FavourState, which: God, rolls: JoinRolls, dice: RollStream, pos: nat)
    requires WellFormed(s) && which != NoGod && which != Xom && which != s.religion && rolls.xomTimeout <= 78
    ensures JoinReligion(s, which, rolls, dice, pos).state.hysteresis == 0
  {
  }

  /** The starting piety is a floor: joining leaves at least 15 (10 for
      Ru, HALF_MAX_PIETY for Xom). */
  lemma JoinStartingPiety(s: FavourState, which: God, rolls: JoinRolls, dice: RollStream, pos: nat)
    requires WellFormed(s) && which != NoGod && which != s.religion && rolls.xomTimeout <= 78
    ensures JoinReligion(s, which, rolls, dice, pos).state.piety
            >= (if which == Xom then HalfMaxPiety else if which == Ru then 10 else 15)
  {
  }

  /** A join bonus that applies, for a god who takes gains, runs exactly
      its amount as point steps. */
  lemma BonusGainAmount(s: FavourState, amount: int, dice: RollStream, pos: nat)
    requires WellFormed(s) && GainsPiety(s.religion) && amount > 0
    ensures var t := BonusGain(s, true, amount, dice, pos);
            t.pos == pos + amount && t.state == RaisePietyMax(GainPietyPoints(s, dice, pos, amount))
  {
    GainPietyUnscaledSteps(s, amount, dice, pos);
  }

  /** _transfer_good_god_piety: between good gods with more than
      breakpoint 0 saved, gain_piety runs exactly half the surplus (rounded
      at random) as point steps. */
  lemma TransferGoodGodPietyAmount(s: FavourState, divRoll: nat, dice: RollStream, pos: nat)
    requires WellFormed(s) && IsGoodGod(s.religion) && IsGoodGod(s.previousGoodGod)
    requires s.savedGoodGodPiety > PietyBreakpoint(0)
    ensures var t := TransferGoodGodPiety(s, divRoll, dice, pos);
            var n := DivRandRound(s.savedGoodGodPiety - PietyBreakpoint(0), 2, divRoll);
            t.pos - pos == n && t.state == RaisePietyMax(GainPietyPoints(s, dice, pos, n))
  {
  }

  // ----------------------------------------------------------- dock_piety

  /** dock_piety ends the worship when the loss empties piety, and else
      adds the scaled penance to the current god. */
  lemma DockPietyOutcome(s: FavourState, pietyLoss: int, penance: int, faith: nat,
                         lossRoll: nat, penanceRoll: nat, xpStep: int)
    requires WellFormed(s) && s.religion != NoGod && (pietyLoss > 0 || penance > 0)
    ensures var r := DockPiety(s, pietyLoss, penance, faith, lossRoll, penanceRoll, xpStep);
            var lost := LosePiety(s, PietyScale(pietyLoss, faith, lossRoll));
            (lost.piety < 1 ==> r.religion == NoGod && Penance(r, s.religion) == DesertionPenance(s.religion))
            && (lost.piety >= 1 ==>
                  r.religion == s.religion && r.piety == lost.piety
                  && Penance(r, s.religion) == Min(MaxPenance, Penance(s, s.religion) + Max(0, PietyScale(penance, faith, penanceRoll))))
  {
    var loss := PietyScale(pietyLoss, faith, lossRoll);
    var pen := PietyScale(penance, faith, penanceRoll);
    var lost := LosePiety(s, loss);
    var r := DockPiety(s, pietyLoss, penance, faith, lossRoll, penanceRoll, xpStep);
    assert (if loss != 0 then LosePiety(s, loss) else s) == lost;
    if lost.piety < 1 {
      assert r == Excommunication(lost, false, NoGod);
      ExcommunicationEffect(lost, false, NoGod);
    } else if pen != 0 {
      PenanceBounds(s, s.religion);
      assert r == IncPenance(lost, s.religion, pen, xpStep);
      IncPenanceEffect(lost, s.religion, pen, xpStep);
    } else {
      PenanceBounds(s, s.religion);
      assert r == lost;
    }
  }

  // ------------------------------------------------------ good-god wrath

  /** Joining an evil (or, for Zin, chaotic) god arms the wrath-XP timeout
      exactly when a good god other than the one just left holds penance. */
  lemma {:induction false} GoodGodWrathArms(s: FavourState, oldGod: God, xpStep: int, k: nat)
    requires Shaped(s) && k <= |GoodGodOrder| && s.wrathXp >= 0
    ensures var r := CheckGoodGodWrathFrom(s, oldGod, xpStep, k);
            ((exists j :: k <= j < |GoodGodOrder| && GoodGodWrathStarts(s, oldGod, GoodGodOrder[j])) ==> r.wrathXp > 0)
            && ((forall j :: k <= j < |GoodGodOrder| ==> !GoodGodWrathStarts(s, oldGod, GoodGodOrder[j])) ==> r == s)
    decreases |GoodGodOrder| - k
  {
    if k < |GoodGodOrder| {
      var s1 := if GoodGodWrathStarts(s, oldGod, GoodGodOrder[k]) then SetPenanceXpTimeout(s, xpStep) else s;
      GoodGodWrathArms(s1, oldGod, xpStep, k + 1);
      forall j | k + 1 <= j < |GoodGodOrder|
        ensures GoodGodWrathStarts(s1, oldGod, GoodGodOrder[j]) == GoodGodWrathStarts(s, oldGod, GoodGodOrder[j])
      {
      }
    }
  }
}
