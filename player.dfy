/** The favour fields of the player object `you`, updated in place as
    religion.cc does. Every method is proved to leave the object in the
    state the matching function of module Favour computes from the old
    state, so the properties proved there carry over. */
module Player {
  import opened Gods
  import opened PietyRanks
  import opened Dice
  import opened Favour
  import Wrath

  class You {
    var religion: God
    var piety: int
    var hysteresis: int
    var giftTimeout: int
    var wrathCount: int
    var wrathXp: int
    var royalJellyDead: bool
    var previousGoodGod: God
    var savedGoodGodPiety: int
    /** The per-god vectors, indexed by Ord. */
    const penance: array<int>
    const currentGifts: array<int>
    const totalGifts: array<int>
    const pietyMax: array<int>

    /** The object's favour fields as a value. */
    ghost function State(): FavourState
      reads this, penance, currentGifts, totalGifts, pietyMax
    {
      FavourState(religion, piety, hysteresis, giftTimeout, wrathCount, wrathXp, royalJellyDead,
                  previousGoodGod, savedGoodGodPiety,
                  penance[..], currentGifts[..], totalGifts[..], pietyMax[..])
    }

    ghost predicate Valid()
      reads this, penance, currentGifts, totalGifts, pietyMax
    {
      penance != currentGifts && penance != totalGifts && penance != pietyMax
      && currentGifts != totalGifts && currentGifts != pietyMax && totalGifts != pietyMax
      && WellFormed(State())
    }

    constructor ()
      ensures State() == NewFavour()
      ensures fresh(penance) && fresh(currentGifts) && fresh(totalGifts) && fresh(pietyMax)
      ensures Valid()
    {
      religion := NoGod;
      piety := 0;
      hysteresis := 0;
      giftTimeout := 0;
      wrathCount := 0;
      wrathXp := 0;
      royalJellyDead := false;
      previousGoodGod := NoGod;
      savedGoodGodPiety := 0;
      penance := new int[NumGods](_ => 0);
      currentGifts := new int[NumGods](_ => 0);
      totalGifts := new int[NumGods](_ => 0);
      pietyMax := new int[NumGods](_ => 0);
      new;
      assert penance[..] == seq(NumGods, _ => 0);
      assert currentGifts[..] == seq(NumGods, _ => 0);
      assert totalGifts[..] == seq(NumGods, _ => 0);
      assert pietyMax[..] == seq(NumGods, _ => 0);
    }

    // ------------------------------------------------------------ loss

    /** lose_piety(pgn). */
    method LosePiety(pgn: int)
      requires Valid()
      modifies this
      ensures State() == Favour.LosePiety(old(State()), pgn)
      ensures Valid()
    {
      if pgn <= 0 {
        return;
      }
      var oldHysteresis := hysteresis;
      hysteresis := Min(PietyHysteresisLimit, hysteresis + pgn);
      var borrowed := hysteresis - oldHysteresis;
      var rest := pgn - borrowed;
      if piety - rest < 0 {
        piety := 0;
      } else {
        piety := piety - rest;
      }
    }

    // ------------------------------------------------------------- gifts

    /** _inc_gift_timeout(val). */
    method IncGiftTimeout(val: nat)
      requires Valid()
      modifies this
      ensures State() == Favour.IncGiftTimeout(old(State()), val)
      ensures Valid()
    {
      if 200 - giftTimeout < val {
        giftTimeout := 200;
      } else {
        giftTimeout := giftTimeout + val;
      }
    }

    method BumpGifts()
      requires Valid()
      modifies currentGifts, totalGifts
      ensures State() == Favour.BumpGifts(old(State()))
      ensures Valid()
    {
      var o := Ord(religion);
      currentGifts[o] := currentGifts[o] + 1;
      totalGifts[o] := totalGifts[o] + 1;
    }

    /** do_god_gift(forced), as far as the ledger goes. */
    method DoGodGift(forced: bool, outcome: GiftOutcome)
      requires Valid() && religion != NoGod
      modifies this, currentGifts, totalGifts
      ensures State() == Favour.DoGodGift(old(State()), forced, outcome)
      ensures Valid()
    {
      if forced || (penance[Ord(religion)] <= 0 && giftTimeout == 0) {
        if outcome.Granted? {
          BumpGifts();
          IncGiftTimeout(outcome.timeoutInc);
        }
      }
    }

    /** _delayed_gift_callback: `placed` is the number of monsters the
        gift's request created. */
    method DelayedGiftCallback(placed: int, timeoutInc: nat)
      requires Valid()
      modifies this, currentGifts, totalGifts
      ensures State() == Favour.DelayedGiftCallback(old(State()), placed, timeoutInc)
      ensures Valid()
    {
      if placed <= 0 {
        return;
      }
      BumpGifts();
      IncGiftTimeout(timeoutInc);
    }

    // ----------------------------------------------------------- penance

    /** set_penance_xp_timeout. */
    method SetPenanceXpTimeout(xpStep: int)
      requires Valid()
      modifies this
      ensures State() == Favour.SetPenanceXpTimeout(old(State()), xpStep)
      ensures Valid()
    {
      if wrathXp > 0 {
        return;
      }
      wrathXp := wrathXp + Max(xpStep, 1);
    }

    /** Store one god's penance counter, within 0 .. MAX_PENANCE. */
    method SetPenance(god: God, v: int)
      requires Valid() && 0 <= v <= MaxPenance
      modifies penance
      ensures State() == old(State()).(penance := old(State()).penance[Ord(god) := v])
      ensures Valid()
    {
      ghost var s0 := State();
      Favour.PenanceStore(s0, god, v);
      penance[Ord(god)] := v;
      assert penance[..] == s0.penance[Ord(god) := v];
    }

    /** _inc_penance(god, val). */
    method IncPenance(god: God, val: int, xpStep: int)
      requires Valid()
      modifies this, penance
      ensures State() == Favour.IncPenance(old(State()), god, val, xpStep)
      ensures Valid()
    {
      if val <= 0 {
        return;
      }
      Favour.PenanceBounds(State(), god);
      SetPenance(god, Min(MaxPenance, penance[Ord(god)] + val));
      SetPenanceXpTimeout(xpStep);
    }

    /** The god-iterator scan of dec_penance: is any god still actively
        angry? */
    method AnyActivePenance() returns (angry: bool)
      requires Valid()
      ensures angry <==> !NoActivePenance(State())
    {
      ghost var s := State();
      var i := 0;
      while i < NumGods
        invariant 0 <= i <= NumGods
        invariant forall g: God :: g as int < i ==> !ActivePenanceIn(s, g)
      {
        var g := i as God;
        var unavailable := g == Jiyva && royalJellyDead && religion != Jiyva && penance[Ord(Jiyva)] == 0;
        assert unavailable == IsUnavailableGod(s, g) && penance[Ord(g)] == Penance(s, g);
        if Wrath.ActivePenance(g, penance[Ord(g)], religion, unavailable) {
          assert ActivePenanceIn(s, g);
          return true;
        }
        i := i + 1;
      }
      return false;
    }

    /** The end of dec_penance once a god is mollified: with no god left
        actively angry, the stored wrath count and wrath XP are cleared. */
    method ClearWrathIfCalm()
      requires Valid()
      modifies this
      ensures State() == Favour.ClearWrathIfCalm(old(State()))
      ensures Valid()
    {
      var angry := AnyActivePenance();
      if angry {
        return;
      }
      wrathCount := 0;
      wrathXp := 0;
    }

    /** dec_penance(god, val). */
    method DecPenance(god: God, val: int)
      requires Valid()
      modifies this, penance
      ensures State() == Favour.DecPenance(old(State()), god, val)
      ensures Valid()
    {
      var p := penance[Ord(god)];
      if val <= 0 || p <= 0 {
        return;
      }
      if p <= val {
        SetPenance(god, 0);
        ClearWrathIfCalm();
      } else {
        Favour.PenanceBounds(State(), god);
        SetPenance(god, p - val);
        if god == NemelexXobeh && p > 100 && p - val <= 100 {
          ClearWrathIfCalm();
        }
      }
    }

    // -------------------------------------------------------------- gain

    /** _gain_piety_point, with its rolls given as `roll`: service pays
        penance off first. */
    method GainPietyPoint(roll: PointRoll)
      requires Valid() && religion != NoGod
      modifies this, penance, currentGifts, totalGifts
      ensures State() == Favour.GainPietyPoint(old(State()), roll)
      ensures Valid()
    {
      if penance[Ord(religion)] > 0 {
        DecPenance(religion, 1);
        return;
      }
      GainPietyPointFree(roll);
    }

    /** The rest of _gain_piety_point: the gift-timeout damping, the taper,
        the hysteresis, the point and the gift check. */
    method GainPietyPointFree(roll: PointRoll)
      requires Valid() && religion != NoGod
      modifies this, currentGifts, totalGifts
      ensures State() == Favour.GainPietyPointFree(old(State()), roll)
      ensures Valid()
    {
      ghost var s0 := State();
      if giftTimeout > 0 {
        giftTimeout := giftTimeout - 1;
        if !roll.timeoutSpares && !TimeoutNeverSlows(religion) {
          return;
        }
      }
      ghost var s1 := State();
      assert s1 == s0.(giftTimeout := if s0.giftTimeout > 0 then s0.giftTimeout - 1 else s0.giftTimeout);
      // the taper (Sif Muna's gentler one; none for Ru), then Ru's ceiling
      if Tapers(religion, piety, roll) {
        DoGodGift(false, roll.gift);
        return;
      }
      if religion == Ru && piety >= PietyBreakpoint(5) {
        return;
      }
      if hysteresis > 0 {
        hysteresis := hysteresis - 1;
      } else if piety < MaxPiety {
        piety := piety + 1;
      }
      assert State() == Advance(s1);
      DoGodGift(false, roll.gift);
    }

    /** gain_piety(original_gain, denominator, should_scale_piety): the
        point steps read the stream from `pos`; `used` says how many. */
    method GainPiety(originalGain: int, denominator: int, shouldScale: bool, faith: nat,
                     scaleRoll: nat, divRoll: nat, dice: RollStream, pos: nat)
      returns (changed: bool, used: nat)
      requires Valid() && denominator > 0
      modifies this, penance, currentGifts, totalGifts, pietyMax
      ensures var g := Favour.GainPiety(old(State()), originalGain, denominator, shouldScale,
                                        faith, scaleRoll, divRoll, dice, pos);
              State() == g.state && changed == g.changed && used == g.used
      ensures Valid()
    {
      if originalGain <= 0 {
        return false, 0;
      }
      if religion == NoGod || religion == Xom || religion == Gozag {
        return false, 0;
      }
      var pgn := if shouldScale then PietyScale(originalGain, faith, scaleRoll) else originalGain;
      pgn := DivRandRound(pgn, denominator, divRoll);
      used := if pgn > 0 then pgn else 0;
      GainPietyPoints(dice, pos, used);
      RaisePietyMax();
      changed := true;
    }

    /** The point loop of gain_piety: `n` calls of _gain_piety_point, on
        the rolls at positions pos, pos + 1, ... of the stream. */
    method GainPietyPoints(dice: RollStream, pos: nat, n: nat)
      requires Valid() && religion != NoGod
      modifies this, penance, currentGifts, totalGifts, pietyMax
      ensures State() == Favour.GainPietyPoints(old(State()), dice, pos, n)
      ensures Valid()
    {
      ghost var goal := Favour.GainPietyPoints(State(), dice, pos, n);
      var k: nat := 0;
      while k < n
        invariant Valid() && religion == old(religion) && k <= n
        invariant Favour.GainPietyPoints(State(), dice, pos + k, n - k) == goal
      {
        GainPietyPoint(dice(pos + k));
        k := k + 1;
      }
    }

    /** The end of gain_piety: the god's piety maximum catches up. */
    method RaisePietyMax()
      requires Valid()
      modifies pietyMax
      ensures State() == Favour.RaisePietyMax(old(State()))
      ensures Valid()
    {
      ghost var s0 := State();
      var o := Ord(religion);
      if piety > pietyMax[o] {
        pietyMax[o] := piety;
        assert pietyMax[..] == s0.pietyMax[o := s0.piety];
      }
    }

    /** set_piety(piety): the do/while loop, run for at most `rounds`
        passes; `reached` says it ended with diff == 0. */
    method SetPiety(piety0: int, dice: RollStream, pos: nat, rounds: nat) returns (reached: bool, next: nat)
      requires Valid() && 0 <= piety0 <= MaxPiety
      modifies this, penance, currentGifts, totalGifts, pietyMax
      ensures var o := Favour.SetPiety(old(State()), piety0, dice, pos, rounds);
              State() == o.state && reached == o.reached && next == o.pos
      ensures Valid()
    {
      var target := piety0;
      if religion == Ru && target > PietyBreakpoint(5) {
        target := PietyBreakpoint(5);
      }
      ghost var goal := SetPietyRounds(State(), target, dice, pos, rounds);
      next := pos;
      reached := false;
      var left := rounds;
      var stop := false;
      while left > 0 && !stop
        invariant Valid()
        invariant !stop ==> !reached && SetPietyRounds(State(), target, dice, next, left) == goal
        invariant stop ==> goal == SetOutcome(State(), reached, next)
        decreases left
      {
        stop, reached, next := SetPietyPass(target, dice, next, left - 1);
        left := left - 1;
      }
    }

    /** One pass of the do/while loop of set_piety. */
    method SetPietyPass(target: int, dice: RollStream, pos: nat, ghost rest: nat)
      returns (stop: bool, reached: bool, next: nat)
      requires Valid()
      modifies this, penance, currentGifts, totalGifts, pietyMax
      ensures stop ==> Favour.SetPietyPass(old(State()), target, dice, pos, rest) == SetOutcome(State(), reached, next)
      ensures !stop ==> !reached
      ensures Valid()
      ensures !stop ==> Favour.SetPietyPass(old(State()), target, dice, pos, rest)
                        == SetPietyRounds(State(), target, dice, next, rest)
    {
      ghost var s0 := State();
      var diff := target - piety;
      if diff > 0 {
        ghost var g := Favour.GainPiety(s0, diff, 1, false, 0, 0, 0, dice, pos);
        var changed, used := GainPiety(diff, 1, false, 0, 0, 0, dice, pos);
        assert State() == g.state && changed == g.changed && used == g.used;
        if !changed {
          return true, false, pos;
        }
        return false, false, pos + used;
      } else if diff < 0 {
        ghost var l := Favour.LosePiety(s0, -diff);
        LosePiety(-diff);
        assert State() == l;
        return false, false, pos;
      }
      return true, true, pos;
    }

    // ------------------------------------------------------ transgression

    /** excommunication(voluntary, new_god), favour fields only. */
    method Excommunication(voluntary: bool, newGod: God)
      requires Valid() && religion != NoGod && religion != newGod
      modifies this, penance, currentGifts
      ensures State() == Favour.Excommunication(old(State()), voluntary, newGod)
      ensures Valid()
    {
      ghost var s0 := State();
      var oldGod := religion;
      var oldPiety := piety;
      SetPenance(oldGod, DesertionPenance(oldGod));
      piety := 0;
      hysteresis := 0;
      if IsGoodGod(oldGod) && voluntary {
        savedGoodGodPiety := oldPiety;
        previousGoodGod := oldGod;
      } else {
        savedGoodGodPiety := 0;
        previousGoodGod := NoGod;
      }
      currentGifts[Ord(oldGod)] := 0;
      religion := NoGod;
      assert currentGifts[..] == s0.currentGifts[Ord(oldGod) := 0];
      assert State() == Favour.Excommunication(s0, voluntary, newGod);
    }

    /** dock_piety(piety_loss, penance). */
    method DockPiety(pietyLoss: int, pen: int, faith: nat, lossRoll: nat, penanceRoll: nat, xpStep: int)
      requires Valid() && religion != NoGod
      modifies this, penance, currentGifts
      ensures State() == Favour.DockPiety(old(State()), pietyLoss, pen, faith, lossRoll, penanceRoll, xpStep)
      ensures Valid()
    {
      if pietyLoss <= 0 && pen <= 0 {
        return;
      }
      var loss := PietyScale(pietyLoss, faith, lossRoll);
      var scaled := PietyScale(pen, faith, penanceRoll);
      if loss != 0 {
        LosePiety(loss);
      }
      if piety < 1 {
        Excommunication(false, NoGod);
      } else if scaled != 0 {
        IncPenance(religion, scaled, xpStep);
      }
    }

    // --------------------------------------------------------- joining

    /** A join bonus: gain_piety(amount, 1, false) when `enabled`. */
    method BonusGain(enabled: bool, amount: int, dice: RollStream, pos: nat) returns (next: nat)
      requires Valid()
      modifies this, penance, currentGifts, totalGifts, pietyMax
      ensures var t := Favour.BonusGain(old(State()), enabled, amount, dice, pos);
              State() == t.state && next == t.pos
      ensures Valid()
    {
      next := pos;
      if enabled {
        var _, used := GainPiety(amount, 1, false, 0, 0, 0, dice, pos);
        next := pos + used;
      }
    }

    /** _transfer_good_god_piety. */
    method TransferGoodGodPiety(divRoll: nat, dice: RollStream, pos: nat) returns (next: nat)
      requires Valid()
      modifies this, penance, currentGifts, totalGifts, pietyMax
      ensures Stepped(State(), next) == Favour.TransferGoodGodPiety(old(State()), divRoll, dice, pos)
      ensures Valid()
    {
      next := pos;
      if !IsGoodGod(religion) || !IsGoodGod(previousGoodGod) {
        return;
      }
      if savedGoodGodPiety > PietyBreakpoint(0) {
        ghost var g := Favour.GainPiety(State(), savedGoodGodPiety - PietyBreakpoint(0), 2, false, 0, 0, divRoll, dice, pos);
        var _, used := GainPiety(savedGoodGodPiety - PietyBreakpoint(0), 2, false, 0, 0, divRoll, dice, pos);
        assert State() == g.state && used == g.used;
        next := pos + used;
      }
    }

    /** The switch of _set_initial_god_piety. */
    method StartingPiety(xomTimeout: nat)
      requires Valid() && religion != NoGod && xomTimeout <= 78
      modifies this, penance, pietyMax
      ensures State() == Favour.StartingPiety(old(State()), xomTimeout)
      ensures Valid()
    {
      ghost var s0 := State();
      var o := Ord(religion);
      SetPenance(religion, 0);
      if religion == Xom {
        piety := HalfMaxPiety;
        giftTimeout := xomTimeout;
      } else if religion == Ru {
        piety := 10;
        hysteresis := 0;
        giftTimeout := 0;
      } else {
        piety := 15;
        if pietyMax[o] < 15 {
          pietyMax[o] := 15;
          assert pietyMax[..] == s0.pietyMax[o := 15];
        }
        hysteresis := 0;
        giftTimeout := 0;
      }
    }

    /** _set_initial_god_piety. */
    method SetInitialGodPiety(rolls: JoinRolls, dice: RollStream, pos: nat) returns (next: nat)
      requires Valid() && religion != NoGod && rolls.xomTimeout <= 78
      modifies this, penance, currentGifts, totalGifts, pietyMax
      ensures var t := Favour.SetInitialGodPiety(old(State()), rolls, dice, pos);
              State() == t.state && next == t.pos
      ensures Valid()
    {
      StartingPiety(rolls.xomTimeout);
      next := BonusGain(rolls.tutorial, 30, dice, pos);
      next := BonusGain(rolls.monkFirstGod && religion != Ru, 35, dice, next);
      next := TransferGoodGodPiety(rolls.transferRoll, dice, next);
    }

    /** _check_good_god_wrath(old_god). */
    method CheckGoodGodWrath(oldGod: God, xpStep: int)
      requires Valid()
      modifies this
      ensures State() == Favour.CheckGoodGodWrath(old(State()), oldGod, xpStep)
      ensures Valid()
    {
      ghost var s0 := State();
      for k := 0 to |GoodGodOrder|
        invariant Valid()
        invariant CheckGoodGodWrathFrom(State(), oldGod, xpStep, k) == CheckGoodGodWrathFrom(s0, oldGod, xpStep, 0)
      {
        var g := GoodGodOrder[k];
        if oldGod == g || penance[Ord(g)] == 0 || !GodHatesYourGod(g, religion) {
          continue;
        }
        SetPenanceXpTimeout(xpStep);
      }
    }

    /** The first half of join_religion: bank the piety of the god being
        left, then excommunicate from it. */
    method LeaveForJoin(which: God)
      requires Valid() && which != religion
      modifies this, penance, currentGifts
      ensures State() == Favour.LeaveForJoin(old(State()), which)
      ensures Valid()
    {
      if previousGoodGod == NoGod {
        previousGoodGod := religion;
        savedGoodGodPiety := piety;
      }
      if religion != NoGod {
        Excommunication(true, which);
      }
    }

    /** The second half: take up `which`, set its starting piety, then
        finish the join. */
    method Welcome(which: God, left: God, rolls: JoinRolls, dice: RollStream, pos: nat) returns (next: nat)
      requires Valid() && religion == NoGod && which != NoGod && rolls.xomTimeout <= 78
      modifies this, penance, currentGifts, totalGifts, pietyMax
      ensures Stepped(State(), next) == Favour.Welcome(old(State()), which, left, rolls, dice, pos)
      ensures Valid()
    {
      ghost var s0 := State();
      religion := which;
      assert State() == s0.(religion := which);
      next := SetInitialGodPiety(rolls, dice, pos);
      ghost var t1 := Favour.SetInitialGodPiety(s0.(religion := which), rolls, dice, pos);
      assert Stepped(State(), next) == t1;
      next := FinishJoin(left, rolls, dice, next);
    }

    /** Lugonu's first-join gain, the good-god wrath check against `left`
        and the banked piety dropped. */
    method FinishJoin(left: God, rolls: JoinRolls, dice: RollStream, pos: nat) returns (next: nat)
      requires Valid() && religion != NoGod
      modifies this, penance, currentGifts, totalGifts, pietyMax
      ensures Stepped(State(), next) == Favour.FinishJoin(old(State()), left, rolls, dice, pos)
      ensures Valid()
    {
      next := BonusGain(religion == Lugonu && rolls.firstLugonu, 20, dice, pos);
      CheckGoodGodWrath(left, rolls.xpStep);
      previousGoodGod := NoGod;
      savedGoodGodPiety := 0;
    }

    /** join_religion(which_god), favour fields only. */
    method JoinReligion(which: God, rolls: JoinRolls, dice: RollStream, pos: nat) returns (next: nat)
      requires Valid() && which != NoGod && which != religion && rolls.xomTimeout <= 78
      modifies this, penance, currentGifts, totalGifts, pietyMax
      ensures var t := Favour.JoinReligion(old(State()), which, rolls, dice, pos);
              State() == t.state && next == t.pos
      ensures Valid()
    {
      var left := religion;
      LeaveForJoin(which);
      next := Welcome(which, left, rolls, dice, pos);
    }
  }
}
