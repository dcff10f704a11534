/** The favour bookkeeping of religion.cc on values: the fields of `you`
    that it changes, gathered into one record, and each entry point as a
    function from the old record to the new one. The imperative model
    (module Player) is proved to compute exactly these functions. */
module Favour {
  import opened Gods
  import opened PietyRanks
  import opened Dice
  import Wrath

  /** MAX_PENANCE of religion.h, PIETY_HYSTERESIS_LIMIT, and the ceiling of
      _inc_gift_timeout. */
  const MaxPenance: int := 200
  const PietyHysteresisLimit: int := 1
  const GiftTimeoutCap: int := 200

  /** The favour fields of `you`. The four sequences are the per-god
      vectors, indexed by Ord. wrathCount and wrathXp are
      attribute[ATTR_GOD_WRATH_COUNT] and attribute[ATTR_GOD_WRATH_XP]. */
  datatype FavourState = FavourState(
    religion: God,
    piety: int,
    hysteresis: int,
    giftTimeout: int,
    wrathCount: int,
    wrathXp: int,
    royalJellyDead: bool,
    previousGoodGod: God,
    savedGoodGodPiety: int,
    penance: seq<int>,
    currentGifts: seq<int>,
    totalGifts: seq<int>,
    pietyMax: seq<int>)

  predicate Shaped(s: FavourState)
  {
    |s.penance| == NumGods && |s.currentGifts| == NumGods
    && |s.totalGifts| == NumGods && |s.pietyMax| == NumGods
  }

  /** Every entry of xs lies within lo .. hi. */
  predicate AllWithin(xs: seq<int>, lo: int, hi: int)
    decreases |xs|
  {
    |xs| == 0 || (lo <= xs[0] <= hi && AllWithin(xs[1..], lo, hi))
  }

  lemma {:induction false} AllWithinAt(xs: seq<int>, lo: int, hi: int, i: int)
    requires AllWithin(xs, lo, hi) && 0 <= i < |xs|
    ensures lo <= xs[i] <= hi
    decreases i
  {
    if i > 0 {
      AllWithinAt(xs[1..], lo, hi, i - 1);
    }
  }

  lemma {:induction false} AllWithinUpdate(xs: seq<int>, lo: int, hi: int, i: int, v: int)
    requires AllWithin(xs, lo, hi) && 0 <= i < |xs| && lo <= v <= hi
    ensures AllWithin(xs[i := v], lo, hi)
    decreases i
  {
    if i == 0 {
      assert xs[i := v][1..] == xs[1..];
    } else {
      AllWithinUpdate(xs[1..], lo, hi, i - 1, v);
      assert xs[i := v][1..] == xs[1..][i - 1 := v];
    }
  }

  lemma {:induction false} AllWithinZeros(n: nat, lo: int, hi: int)
    requires lo <= 0 <= hi
    ensures AllWithin(seq(n, _ => 0), lo, hi)
  {
    if n > 0 {
      AllWithinZeros(n - 1, lo, hi);
      assert seq(n, _ => 0)[1..] == seq(n - 1, _ => 0);
    }
  }

  /** The invariant the entry points keep: piety within 0 .. MAX_PIETY and
      0 without a god, banked loss within the hysteresis limit, the gift
      timeout within its ceiling and every penance within 0 .. MAX_PENANCE. */
  predicate WellFormed(s: FavourState)
  {
    Shaped(s)
    && 0 <= s.piety <= MaxPiety
    && (s.religion == NoGod ==> s.piety == 0)
    && 0 <= s.hysteresis <= PietyHysteresisLimit
    && 0 <= s.giftTimeout <= GiftTimeoutCap
    && 0 <= s.savedGoodGodPiety <= MaxPiety
    && 0 <= s.wrathCount && 0 <= s.wrathXp
    && AllWithin(s.penance, 0, MaxPenance)
  }

  /** A penance counter of a well-formed state lies in 0 .. MAX_PENANCE. */
  lemma PenanceBounds(s: FavourState, g: God)
    requires WellFormed(s)
    ensures 0 <= Penance(s, g) <= MaxPenance
  {
    AllWithinAt(s.penance, 0, MaxPenance, Ord(g));
  }

  /** Storing a counter within bounds keeps the state well-formed. */
  lemma PenanceStore(s: FavourState, g: God, v: int)
    requires WellFormed(s) && 0 <= v <= MaxPenance
    ensures WellFormed(s.(penance := s.penance[Ord(g) := v]))
  {
    AllWithinUpdate(s.penance, 0, MaxPenance, Ord(g), v);
  }

  /** A fresh character: no god, nothing owed, nothing banked. */
  function NewFavour(): (s: FavourState)
    ensures WellFormed(s) && s.religion == NoGod
  {
    var zeros := seq(NumGods, _ => 0);
    AllWithinZeros(NumGods, 0, MaxPenance);
    FavourState(NoGod, 0, 0, 0, 0, 0, false, NoGod, 0, zeros, zeros, zeros, zeros)
  }

  function Penance(s: FavourState, g: God): int
    requires Shaped(s)
  {
    s.penance[Ord(g)]
  }

  /** player_under_penance(god). */
  predicate UnderPenance(s: FavourState, g: God)
    requires Shaped(s)
  {
    Penance(s, g) > 0
  }

  /** jiyva_is_dead and is_unavailable_god. */
  predicate JiyvaIsDead(s: FavourState)
    requires Shaped(s)
  {
    s.royalJellyDead && s.religion != Jiyva && Penance(s, Jiyva) == 0
  }

  predicate IsUnavailableGod(s: FavourState, g: God)
    requires Shaped(s)
  {
    g == Jiyva && JiyvaIsDead(s)
  }

  /** active_penance(g) and xp_penance(g) in state s. */
  predicate ActivePenanceIn(s: FavourState, g: God)
    requires Shaped(s)
  {
    Wrath.ActivePenance(g, Penance(s, g), s.religion, IsUnavailableGod(s, g))
  }

  predicate XpPenanceIn(s: FavourState, g: God)
    requires Shaped(s)
  {
    Wrath.XpPenance(g, Penance(s, g), s.religion, IsUnavailableGod(s, g))
  }

  /** No god is left actively angry (the god iterator finds none). */
  predicate NoActivePenance(s: FavourState)
    requires Shaped(s)
  {
    forall g: God :: !ActivePenanceIn(s, g)
  }

  function Min(a: int, b: int): int { if a <= b then a else b }
  function Max(a: int, b: int): int { if a >= b then a else b }

  // ---------------------------------------------------------------- loss

  /** lose_piety(pgn): up to PIETY_HYSTERESIS_LIMIT of the loss is banked
      in the hysteresis, the rest comes off piety, floored at 0. */
  function LosePiety(s: FavourState, pgn: int): (r: FavourState)
    requires WellFormed(s)
    ensures WellFormed(r)
    ensures r == s.(piety := r.piety, hysteresis := r.hysteresis)
    ensures pgn <= 0 ==> r == s
    // the bank takes what it has room for, at most PIETY_HYSTERESIS_LIMIT
    ensures pgn > 0 ==> r.hysteresis == PietyHysteresisLimit || r.hysteresis == s.hysteresis + pgn
    // whatever the bank did not take comes off piety, down to 0 and no further
    ensures pgn > 0 ==> r.piety == 0 || s.piety - r.piety == pgn - (r.hysteresis - s.hysteresis)
    ensures pgn > 0 && r.piety == 0 ==> s.piety <= pgn - (r.hysteresis - s.hysteresis)
    ensures r.piety <= s.piety && r.hysteresis >= s.hysteresis
  {
    if pgn <= 0 then s
    else
      var h := Min(PietyHysteresisLimit, s.hysteresis + pgn);
      var rest := pgn - (h - s.hysteresis);
      s.(hysteresis := h, piety := if s.piety - rest < 0 then 0 else s.piety - rest)
  }

  // ------------------------------------------------------- gift bookkeeping

  /** _inc_gift_timeout's arithmetic: a saturating add to 200. */
  function GiftTimeoutAfter(t: int, val: int): (r: int)
    ensures r == Min(GiftTimeoutCap, t + val)
  {
    if GiftTimeoutCap - t < val then GiftTimeoutCap else t + val
  }

  function IncGiftTimeout(s: FavourState, val: nat): (r: FavourState)
    requires WellFormed(s)
    ensures WellFormed(r) && r == s.(giftTimeout := r.giftTimeout)
    ensures s.giftTimeout <= r.giftTimeout <= GiftTimeoutCap
  {
    s.(giftTimeout := GiftTimeoutAfter(s.giftTimeout, val))
  }

  /** num_current_gifts[religion]++ and num_total_gifts[religion]++. */
  function BumpGifts(s: FavourState): (r: FavourState)
    requires WellFormed(s)
    ensures WellFormed(r) && r == s.(currentGifts := r.currentGifts, totalGifts := r.totalGifts)
  {
    var o := Ord(s.religion);
    s.(currentGifts := s.currentGifts[o := s.currentGifts[o] + 1],
       totalGifts := s.totalGifts[o := s.totalGifts[o] + 1])
  }

  /** The gate of do_god_gift: a forced gift, or no penance and no timeout. */
  predicate GiftConsidered(s: FavourState, forced: bool)
    requires Shaped(s)
  {
    forced || (!UnderPenance(s, s.religion) && s.giftTimeout == 0)
  }

  /** do_god_gift(forced) as seen by the ledger. */
  function DoGodGift(s: FavourState, forced: bool, outcome: GiftOutcome): (r: FavourState)
    requires WellFormed(s) && s.religion != NoGod
    ensures WellFormed(r)
    ensures r == s.(giftTimeout := r.giftTimeout, currentGifts := r.currentGifts, totalGifts := r.totalGifts)
  {
    if GiftConsidered(s, forced) && outcome.Granted? then IncGiftTimeout(BumpGifts(s), outcome.timeoutInc)
    else s
  }

  /** _delayed_gift_callback: a gift that placed at least one monster is
      counted and sets a timeout. */
  function DelayedGiftCallback(s: FavourState, placed: int, timeoutInc: nat): (r: FavourState)
    requires WellFormed(s)
    ensures WellFormed(r)
    ensures r == s.(giftTimeout := r.giftTimeout, currentGifts := r.currentGifts, totalGifts := r.totalGifts)
  {
    if placed <= 0 then s else IncGiftTimeout(BumpGifts(s), timeoutInc)
  }

  /** The bookkeeping of _vehumet_eligible_gift_spells when neither an
      unseen nor a backup spell is left: the counters still advance while
      at most 12 gifts have been given. */
  function VehumetNothingLeft(s: FavourState): (r: FavourState)
    requires WellFormed(s)
    ensures WellFormed(r)
    ensures r == s.(currentGifts := r.currentGifts, totalGifts := r.totalGifts)
  {
    if s.totalGifts[Ord(s.religion)] <= 12 then BumpGifts(s) else s
  }

  // ------------------------------------------------------------- penance

  /** set_penance_xp_timeout: arm the shared wrath-XP counter unless it is
      already running; `xpStep` is the div_rand_round of the experience
      to the next level by 200. */
  function SetPenanceXpTimeout(s: FavourState, xpStep: int): (r: FavourState)
    ensures r == s.(wrathXp := r.wrathXp)
    ensures s.wrathXp >= 0 ==> r.wrathXp > 0
    ensures r.wrathXp >= s.wrathXp
  {
    if s.wrathXp > 0 then s else s.(wrathXp := s.wrathXp + Max(xpStep, 1))
  }

  /** _inc_penance(god, val), with the cap at MAX_PENANCE as intended (see
      IncPenanceAsWritten for the unsigned 8-bit store of the source). */
  function IncPenance(s: FavourState, god: God, val: int, xpStep: int): (r: FavourState)
    requires WellFormed(s)
    ensures WellFormed(r)
    ensures r == s.(penance := r.penance, wrathXp := r.wrathXp)
  {
    if val <= 0 then s
    else
      var o := Ord(god);
      PenanceBounds(s, god);
      PenanceStore(s, god, Min(MaxPenance, s.penance[o] + val));
      SetPenanceXpTimeout(s.(penance := s.penance[o := Min(MaxPenance, s.penance[o] + val)]), xpStep)
  }

  /** The penance counter as religion.cc stores it: the sum is written to
      an unsigned 8-bit element (wrapping modulo 256) before the cap. */
  function IncPenanceAsWritten(stored: int, val: int): (r: int)
    ensures val > 0 ==> 0 <= r <= MaxPenance
    ensures val > 0 && 0 <= stored && stored + val < 256 ==> r == Min(MaxPenance, stored + val)
  {
    if val <= 0 then stored else Min(MaxPenance, (stored + val) % 256)
  }

  /** The mollification point of dec_penance: the counter reaches 0, or
      Nemelex's drops from above 100 to 100 or below. */
  predicate Mollifies(god: God, p: int, val: int)
  {
    val > 0 && p > 0 && (p <= val || (god == NemelexXobeh && p > 100 && p - val <= 100))
  }

  /** Once a god is mollified and none is left angry, the stored wrath
      count and wrath XP are cleared. */
  function ClearWrathIfCalm(s: FavourState): (r: FavourState)
    requires Shaped(s)
    ensures r == s.(wrathCount := r.wrathCount, wrathXp := r.wrathXp)
  {
    if NoActivePenance(s) then s.(wrathCount := 0, wrathXp := 0) else s
  }

  /** dec_penance(god, val). */
  function DecPenance(s: FavourState, god: God, val: int): (r: FavourState)
    requires WellFormed(s)
    ensures WellFormed(r)
    ensures r == s.(penance := r.penance, wrathCount := r.wrathCount, wrathXp := r.wrathXp)
    ensures forall g :: g != god ==> Penance(r, g) == Penance(s, g)
    ensures 0 <= Penance(r, god) <= Penance(s, god)
  {
    var o := Ord(god);
    var p := s.penance[o];
    PenanceBounds(s, god);
    if val <= 0 || p <= 0 then s
    else if p <= val then
      PenanceStore(s, god, 0);
      ClearWrathIfCalm(s.(penance := s.penance[o := 0]))
    else
      PenanceStore(s, god, p - val);
      var s1 := s.(penance := s.penance[o := p - val]);
      if god == NemelexXobeh && p > 100 && p - val <= 100 then ClearWrathIfCalm(s1) else s1
  }

  // ---------------------------------------------------------------- gain

  /** The gods whose gift timeout does not slow piety gain. */
  predicate TimeoutNeverSlows(g: God)
  {
    g == Jiyva || g == NemelexXobeh || g == Pakellas
  }

  /** The taper of _gain_piety_point at high piety, which hands the step to
      do_god_gift instead of granting the point. */
  predicate Tapers(religion: God, piety: int, roll: PointRoll)
  {
    if religion != SifMuna && religion != Ru then
      piety >= MaxPiety
      || (piety >= PietyBreakpoint(5) && roll.taperTop)
      || (piety >= PietyBreakpoint(3) && roll.taperMid)
    else if religion == SifMuna then
      piety >= MaxPiety || (piety >= PietyBreakpoint(5) && roll.taperTop)
    else false
  }

  /** The point itself: banked loss is paid off before piety rises, and
      piety never passes MAX_PIETY. */
  function Advance(s: FavourState): (r: FavourState)
    requires WellFormed(s) && s.religion != NoGod
    ensures WellFormed(r) && r == s.(piety := r.piety, hysteresis := r.hysteresis)
  {
    if s.hysteresis > 0 then s.(hysteresis := s.hysteresis - 1)
    else if s.piety < MaxPiety then s.(piety := s.piety + 1)
    else s
  }

  /** The part of _gain_piety_point after the penance check. */
  function GainPietyPointFree(s: FavourState, roll: PointRoll): (r: FavourState)
    requires WellFormed(s) && s.religion != NoGod
    ensures WellFormed(r)
    ensures r == s.(piety := r.piety, hysteresis := r.hysteresis, giftTimeout := r.giftTimeout,
                    currentGifts := r.currentGifts, totalGifts := r.totalGifts)
    ensures r.piety == s.piety || r.piety == s.piety + 1
  {
    var s1 := s.(giftTimeout := if s.giftTimeout > 0 then s.giftTimeout - 1 else s.giftTimeout);
    if s.giftTimeout > 0 && !roll.timeoutSpares && !TimeoutNeverSlows(s.religion) then s1
    else if Tapers(s.religion, s.piety, roll) then DoGodGift(s1, false, roll.gift)
    else if s.religion == Ru && s.piety >= PietyBreakpoint(5) then s1
    else DoGodGift(Advance(s1), false, roll.gift)
  }

  /** _gain_piety_point: penance first, then the gift-timeout damping, then
      the taper, then the hysteresis, and only then a point of piety. */
  function GainPietyPoint(s: FavourState, roll: PointRoll): (r: FavourState)
    requires WellFormed(s) && s.religion != NoGod
    ensures WellFormed(r) && r.religion == s.religion
    ensures r.piety == s.piety || r.piety == s.piety + 1
    ensures r.hysteresis <= s.hysteresis
    ensures forall g :: g != s.religion ==> Penance(r, g) == Penance(s, g)
    ensures !UnderPenance(s, s.religion) ==> r.penance == s.penance
    ensures r.previousGoodGod == s.previousGoodGod && r.savedGoodGodPiety == s.savedGoodGodPiety
  {
    if UnderPenance(s, s.religion) then DecPenance(s, s.religion, 1)
    else GainPietyPointFree(s, roll)
  }

  /** `n` point steps, drawing rolls from position `pos` of the stream. */
  function GainPietyPoints(s: FavourState, dice: RollStream, pos: nat, n: nat): (r: FavourState)
    requires WellFormed(s) && s.religion != NoGod
    ensures WellFormed(r) && r.religion == s.religion
    ensures s.piety <= r.piety <= s.piety + n
    ensures r.hysteresis <= s.hysteresis
    ensures forall g :: g != s.religion ==> Penance(r, g) == Penance(s, g)
    ensures !UnderPenance(s, s.religion) ==> r.penance == s.penance
    ensures r.previousGoodGod == s.previousGoodGod && r.savedGoodGodPiety == s.savedGoodGodPiety
    decreases n, 0
  {
    if n == 0 then s else GainPietyPointThen(s, dice, pos, n - 1)
  }

  /** One point step on roll `dice(pos)`, then `rest` more. */
  function GainPietyPointThen(s: FavourState, dice: RollStream, pos: nat, rest: nat): (r: FavourState)
    requires WellFormed(s) && s.religion != NoGod
    ensures WellFormed(r) && r.religion == s.religion
    ensures s.piety <= r.piety <= s.piety + rest + 1
    ensures r.hysteresis <= s.hysteresis
    ensures forall g :: g != s.religion ==> Penance(r, g) == Penance(s, g)
    ensures !UnderPenance(s, s.religion) ==> r.penance == s.penance
    decreases rest, 1
  {
    GainPietyPoints(GainPietyPoint(s, dice(pos)), dice, pos + 1, rest)
  }

  /** piety_scale: the faith bonus, a random-rounded quarter per faith. */
  function PietyScale(piety: int, faith: nat, roll: nat): (r: int)
    ensures faith == 0 ==> r == piety
    ensures piety >= 0 ==> r >= piety
  {
    piety + faith * DivRandRound(piety, 4, roll)
  }

  /** The number of point steps gain_piety runs. */
  function GainPointCount(originalGain: int, denominator: int, shouldScale: bool,
                          faith: nat, scaleRoll: nat, divRoll: nat): (r: int)
    requires denominator > 0
    ensures originalGain >= 0 ==> r >= 0
    ensures denominator == 1 && !shouldScale ==> r == originalGain
    ensures denominator == 1 && faith == 0 ==> r == originalGain
  {
    DivRandRound(if shouldScale then PietyScale(originalGain, faith, scaleRoll) else originalGain,
                 denominator, divRoll)
  }

  /** The gods gain_piety is refused for. */
  predicate GainsPiety(g: God)
  {
    g != NoGod && g != Xom && g != Gozag
  }

  datatype Gained = Gained(state: FavourState, changed: bool, used: nat)

  /** piety_max[religion] follows piety upwards. */
  function RaisePietyMax(s: FavourState): (r: FavourState)
    requires WellFormed(s)
    ensures WellFormed(r) && r == s.(pietyMax := r.pietyMax)
  {
    var o := Ord(s.religion);
    if s.piety > s.pietyMax[o] then s.(pietyMax := s.pietyMax[o := s.piety]) else s
  }

  /** gain_piety(original_gain, denominator, should_scale_piety). */
  function GainPiety(s: FavourState, originalGain: int, denominator: int, shouldScale: bool,
                     faith: nat, scaleRoll: nat, divRoll: nat, dice: RollStream, pos: nat): (g: Gained)
    requires WellFormed(s) && denominator > 0
    ensures WellFormed(g.state) && g.state.religion == s.religion
    ensures g.changed <==> originalGain > 0 && GainsPiety(s.religion)
    ensures !g.changed ==> g.state == s && g.used == 0
    ensures s.piety <= g.state.piety <= s.piety + g.used
    ensures g.state.hysteresis <= s.hysteresis
    ensures !UnderPenance(s, s.religion) ==> g.state.penance == s.penance
    ensures g.state.previousGoodGod == s.previousGoodGod && g.state.savedGoodGodPiety == s.savedGoodGodPiety
    ensures g.changed ==> g.state.pietyMax[Ord(s.religion)] >= g.state.piety
  {
    if originalGain <= 0 || !GainsPiety(s.religion) then Gained(s, false, 0)
    else
      var n := GainPointCount(originalGain, denominator, shouldScale, faith, scaleRoll, divRoll);
      var steps: nat := if n > 0 then n else 0;
      Gained(RaisePietyMax(GainPietyPoints(s, dice, pos, steps)), true, steps)
  }

  /** set_piety caps Ru's target at breakpoint 5. */
  function SetPietyTarget(religion: God, piety: int): (t: int)
    ensures religion == Ru ==> t == Min(piety, PietyBreakpoint(5))
    ensures religion != Ru ==> t == piety
  {
    if religion == Ru && piety > PietyBreakpoint(5) then PietyBreakpoint(5) else piety
  }

  datatype SetOutcome = SetOutcome(state: FavourState, reached: bool, pos: nat)

  /** The do/while loop of set_piety, run for at most `rounds` passes:
      `reached` says the loop saw diff == 0. */
  function SetPietyRounds(s: FavourState, target: int, dice: RollStream, pos: nat, rounds: nat): (o: SetOutcome)
    requires WellFormed(s)
    ensures WellFormed(o.state) && o.state.religion == s.religion
    ensures o.reached ==> o.state.piety == target
    ensures rounds == 0 ==> o == SetOutcome(s, false, pos)
    decreases rounds, 0
  {
    if rounds == 0 then SetOutcome(s, false, pos)
    else SetPietyPass(s, target, dice, pos, rounds - 1)
  }

  /** One pass of that loop, then at most `rest` more: gain or lose the
      difference, or stop when there is none or a gain changed nothing. */
  function SetPietyPass(s: FavourState, target: int, dice: RollStream, pos: nat, rest: nat): (o: SetOutcome)
    requires WellFormed(s)
    ensures WellFormed(o.state) && o.state.religion == s.religion
    ensures o.reached ==> o.state.piety == target
    ensures s.piety == target ==> o == SetOutcome(s, true, pos)
    decreases rest, 1
  {
    var diff := target - s.piety;
    if diff > 0 then
      var g := GainPiety(s, diff, 1, false, 0, 0, 0, dice, pos);
      if !g.changed then SetOutcome(s, false, pos)
      else SetPietyRounds(g.state, target, dice, pos + g.used, rest)
    else if diff < 0 then SetPietyRounds(LosePiety(s, -diff), target, dice, pos, rest)
    else SetOutcome(s, true, pos)
  }

  /** set_piety(piety). */
  function SetPiety(s: FavourState, piety: int, dice: RollStream, pos: nat, rounds: nat): (o: SetOutcome)
    requires WellFormed(s) && 0 <= piety <= MaxPiety
    ensures WellFormed(o.state) && o.state.religion == s.religion
    ensures o.reached ==> o.state.piety == SetPietyTarget(s.religion, piety)
  {
    SetPietyRounds(s, SetPietyTarget(s.religion, piety), dice, pos, rounds)
  }

  // ------------------------------------------------------- transgressions

  /** excommunication(voluntary, new_god), restricted to the favour fields. */
  function Excommunication(s: FavourState, voluntary: bool, newGod: God): (r: FavourState)
    requires WellFormed(s) && s.religion != NoGod && s.religion != newGod
    ensures WellFormed(r) && r.religion == NoGod && r.piety == 0 && r.hysteresis == 0
  {
    var left := s.religion;
    var o := Ord(left);
    var keep := IsGoodGod(left) && voluntary;
    PenanceStore(s, left, DesertionPenance(left));
    s.(piety := 0, hysteresis := 0,
       savedGoodGodPiety := if keep then s.piety else 0,
       previousGoodGod := if keep then left else NoGod,
       currentGifts := s.currentGifts[o := 0],
       religion := NoGod,
       penance := s.penance[o := DesertionPenance(left)])
  }

  /** dock_piety(piety_loss, penance): scale both by faith, take the loss,
      then excommunicate at piety 0 or else add the penance. */
  function DockPiety(s: FavourState, pietyLoss: int, penance: int, faith: nat,
                     lossRoll: nat, penanceRoll: nat, xpStep: int): (r: FavourState)
    requires WellFormed(s) && s.religion != NoGod
    ensures WellFormed(r)
  {
    if pietyLoss <= 0 && penance <= 0 then s
    else
      var loss := PietyScale(pietyLoss, faith, lossRoll);
      var pen := PietyScale(penance, faith, penanceRoll);
      var s1 := if loss != 0 then LosePiety(s, loss) else s;
      if s1.piety < 1 then Excommunication(s1, false, NoGod)
      else if pen != 0 then IncPenance(s1, s1.religion, pen, xpStep)
      else s1
  }

  // -------------------------------------------------------- joining a god

  datatype Stepped = Stepped(state: FavourState, pos: nat)

  /** The inputs join_religion draws on besides the point-roll stream:
      xomTimeout is random2(40) + random2(40); tutorial, monkFirstGod (a
      monk who has had no god) and firstLugonu (never worshipped Lugonu)
      select the bonus gains; transferRoll is the random2(2) of the
      good-god transfer; xpStep is the wrath-XP step. */
  datatype JoinRolls = JoinRolls(xomTimeout: nat, tutorial: bool, monkFirstGod: bool,
                                 firstLugonu: bool, transferRoll: nat, xpStep: int)

  /** A gain of `amount` over 1, unscaled, as the join bonuses call it. */
  function BonusGain(s: FavourState, enabled: bool, amount: int, dice: RollStream, pos: nat): (t: Stepped)
    requires WellFormed(s)
    ensures WellFormed(t.state) && t.state.religion == s.religion && t.pos >= pos
    ensures t.state.piety >= s.piety && t.state.hysteresis <= s.hysteresis
    ensures !UnderPenance(s, s.religion) ==> t.state.penance == s.penance
    ensures t.state.previousGoodGod == s.previousGoodGod && t.state.savedGoodGodPiety == s.savedGoodGodPiety
    ensures !enabled ==> t == Stepped(s, pos)
  {
    if enabled then
      var g := GainPiety(s, amount, 1, false, 0, 0, 0, dice, pos);
      Stepped(g.state, pos + g.used)
    else Stepped(s, pos)
  }

  /** _transfer_good_god_piety: moving between good gods (or back to the
      same one) carries half of the saved piety above breakpoint 0. */
  function TransferGoodGodPiety(s: FavourState, divRoll: nat, dice: RollStream, pos: nat): (t: Stepped)
    requires WellFormed(s)
    ensures WellFormed(t.state) && t.state.religion == s.religion && t.pos >= pos
    ensures t.state.piety >= s.piety && t.state.hysteresis <= s.hysteresis
    ensures !UnderPenance(s, s.religion) ==> t.state.penance == s.penance
    ensures (!IsGoodGod(s.religion) || !IsGoodGod(s.previousGoodGod) || s.savedGoodGodPiety <= PietyBreakpoint(0))
            ==> t == Stepped(s, pos)
  {
    if !IsGoodGod(s.religion) || !IsGoodGod(s.previousGoodGod) then Stepped(s, pos)
    else if s.savedGoodGodPiety > PietyBreakpoint(0) then
      var g := GainPiety(s, s.savedGoodGodPiety - PietyBreakpoint(0), 2, false, 0, 0, divRoll, dice, pos);
      Stepped(g.state, pos + g.used)
    else Stepped(s, pos)
  }

  /** The switch of _set_initial_god_piety: the new god's penance is
      zeroed; Xom starts at HALF_MAX_PIETY with a random timeout, Ru at 10,
      every other god at 15 (raising piety_max to 15), and all but Xom
      clear the hysteresis and the gift timeout. */
  function StartingPiety(s: FavourState, xomTimeout: nat): (r: FavourState)
    requires WellFormed(s) && s.religion != NoGod && xomTimeout <= 78
    ensures WellFormed(r) && r.religion == s.religion
    ensures Penance(r, s.religion) == 0
    ensures forall g :: g != s.religion ==> Penance(r, g) == Penance(s, g)
    ensures r.piety == (if s.religion == Xom then HalfMaxPiety else if s.religion == Ru then 10 else 15)
    ensures s.religion != Xom ==> r.hysteresis == 0 && r.giftTimeout == 0
  {
    var o := Ord(s.religion);
    PenanceStore(s, s.religion, 0);
    var s1 := s.(penance := s.penance[o := 0]);
    if s.religion == Xom then s1.(piety := HalfMaxPiety, giftTimeout := xomTimeout)
    else if s.religion == Ru then s1.(piety := 10, hysteresis := 0, giftTimeout := 0)
    else s1.(piety := 15, hysteresis := 0, giftTimeout := 0,
             pietyMax := if s.pietyMax[o] < 15 then s.pietyMax[o := 15] else s.pietyMax)
  }

  /** _set_initial_god_piety: starting piety, then the tutorial's 30, the
      monk's 35 for a first god (not for Ru, whose bonus is a sacrifice
      property), then the good-god transfer. */
  function SetInitialGodPiety(s: FavourState, rolls: JoinRolls, dice: RollStream, pos: nat): (t: Stepped)
    requires WellFormed(s) && s.religion != NoGod && rolls.xomTimeout <= 78
    ensures WellFormed(t.state) && t.state.religion == s.religion && t.pos >= pos
    ensures t.state.penance == s.penance[Ord(s.religion) := 0]
    ensures s.religion != Xom ==> t.state.hysteresis == 0
    ensures t.state.piety >= (if s.religion == Xom then HalfMaxPiety else if s.religion == Ru then 10 else 15)
  {
    var t2 := JoinBonuses(s, rolls, dice, pos);
    TransferGoodGodPiety(t2.state, rolls.transferRoll, dice, t2.pos)
  }

  /** The first three steps of _set_initial_god_piety: the starting piety,
      the tutorial's 30 and the monk's 35. They leave the good-god bank
      alone. */
  function JoinBonuses(s: FavourState, rolls: JoinRolls, dice: RollStream, pos: nat): (t: Stepped)
    requires WellFormed(s) && s.religion != NoGod && rolls.xomTimeout <= 78
    ensures WellFormed(t.state) && t.state.religion == s.religion && t.pos >= pos
    ensures t.state.previousGoodGod == s.previousGoodGod && t.state.savedGoodGodPiety == s.savedGoodGodPiety
  {
    var s1 := StartingPiety(s, rolls.xomTimeout);
    var t1 := BonusGain(s1, rolls.tutorial, 30, dice, pos);
    BonusGain(t1.state, rolls.monkFirstGod && s.religion != Ru, 35, dice, t1.pos)
  }

  /** The good gods _check_good_god_wrath visits, in its order. */
  const GoodGodOrder: seq<God> := [Elyvilon, ShiningOne, Zin]

  /** A good god other than the one just left, holding penance and hating
      the new god, arms the wrath-XP timeout. */
  predicate GoodGodWrathStarts(s: FavourState, oldGod: God, g: God)
    requires Shaped(s)
  {
    !(oldGod == g || Penance(s, g) == 0 || !GodHatesYourGod(g, s.religion))
  }

  /** The loop of _check_good_god_wrath from its k-th good god on. */
  function CheckGoodGodWrathFrom(s: FavourState, oldGod: God, xpStep: int, k: nat): (r: FavourState)
    requires Shaped(s) && k <= |GoodGodOrder|
    ensures r == s.(wrathXp := r.wrathXp) && r.wrathXp >= s.wrathXp
    decreases |GoodGodOrder| - k
  {
    if k == |GoodGodOrder| then s
    else
      var s1 := if GoodGodWrathStarts(s, oldGod, GoodGodOrder[k]) then SetPenanceXpTimeout(s, xpStep) else s;
      CheckGoodGodWrathFrom(s1, oldGod, xpStep, k + 1)
  }

  /** _check_good_god_wrath(old_god). */
  function CheckGoodGodWrath(s: FavourState, oldGod: God, xpStep: int): (r: FavourState)
    requires Shaped(s)
    ensures r == s.(wrathXp := r.wrathXp) && r.wrathXp >= s.wrathXp
  {
    CheckGoodGodWrathFrom(s, oldGod, xpStep, 0)
  }

  /** The first half of join_religion: bank the old god and its piety for
      the good-god transfer (unless a good god is already banked), then
      leave the old god, if any. */
  function LeaveForJoin(s: FavourState, which: God): (r: FavourState)
    requires WellFormed(s) && which != s.religion
    ensures WellFormed(r) && r.religion == NoGod
    ensures forall g :: g != s.religion ==> Penance(r, g) == Penance(s, g)
    ensures s.religion != NoGod ==> Penance(r, s.religion) == DesertionPenance(s.religion)
    // the bank: a good god left is saved with its piety, any other god
    // leaves it empty, and with no god to leave it is seeded only if unset
    ensures IsGoodGod(s.religion) ==> r.previousGoodGod == s.religion && r.savedGoodGodPiety == s.piety
    ensures s.religion != NoGod && !IsGoodGod(s.religion) ==>
              r.previousGoodGod == NoGod && r.savedGoodGodPiety == 0
    ensures s.religion == NoGod ==>
              r.previousGoodGod == s.previousGoodGod
              && r.savedGoodGodPiety == (if s.previousGoodGod == NoGod then s.piety else s.savedGoodGodPiety)
  {
    var left := s.religion;
    var s1 := if s.previousGoodGod == NoGod then s.(previousGoodGod := left, savedGoodGodPiety := s.piety) else s;
    if left != NoGod then Excommunication(s1, true, which) else s1
  }

  /** The second half: take up `which`, set its starting piety, run
      Lugonu's first-join gain, check good-god wrath against the god just
      left and drop the banked piety. */
  function Welcome(s: FavourState, which: God, left: God, rolls: JoinRolls, dice: RollStream, pos: nat): (t: Stepped)
    requires WellFormed(s) && s.religion == NoGod && which != NoGod && rolls.xomTimeout <= 78
    ensures WellFormed(t.state) && t.state.religion == which && t.pos >= pos
    ensures t.state.penance == s.penance[Ord(which) := 0]
    ensures which != Xom ==> t.state.hysteresis == 0
    ensures t.state.piety >= (if which == Xom then HalfMaxPiety else if which == Ru then 10 else 15)
    ensures t.state.previousGoodGod == NoGod && t.state.savedGoodGodPiety == 0
  {
    var t1 := SetInitialGodPiety(s.(religion := which), rolls, dice, pos);
    FinishJoin(t1.state, left, rolls, dice, t1.pos)
  }

  /** The end of join_religion, once the starting piety is set: Lugonu's
      first-join gain, the good-god wrath check against `left` and the
      banked piety dropped. */
  function FinishJoin(s: FavourState, left: God, rolls: JoinRolls, dice: RollStream, pos: nat): (t: Stepped)
    requires WellFormed(s) && s.religion != NoGod
    ensures WellFormed(t.state) && t.state.religion == s.religion && t.pos >= pos
    ensures !UnderPenance(s, s.religion) ==> t.state.penance == s.penance
    ensures t.state.hysteresis <= s.hysteresis && t.state.piety >= s.piety
    ensures t.state.previousGoodGod == NoGod && t.state.savedGoodGodPiety == 0
  {
    var t2 := BonusGain(s, s.religion == Lugonu && rolls.firstLugonu, 20, dice, pos);
    var s4 := CheckGoodGodWrath(t2.state, left, rolls.xpStep);
    Stepped(s4.(previousGoodGod := NoGod, savedGoodGodPiety := 0), t2.pos)
  }

  /** join_religion(which_god), restricted to the favour fields. */
  function JoinReligion(s: FavourState, which: God, rolls: JoinRolls, dice: RollStream, pos: nat): (t: Stepped)
    requires WellFormed(s) && which != NoGod && which != s.religion && rolls.xomTimeout <= 78
    ensures WellFormed(t.state) && t.state.religion == which && t.pos >= pos
    ensures t.state.previousGoodGod == NoGod && t.state.savedGoodGodPiety == 0
  {
    Welcome(LeaveForJoin(s, which), which, s.religion, rolls, dice, pos)
  }
}
