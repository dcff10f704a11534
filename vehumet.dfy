/** Vehumet's spell gifts: which spells are eligible (_vehumet_eligible_gift_spells)
    and the one-pass weighted pick among them (_vehumet_find_spell_gift).
    The facts about each spell that live outside religion.cc (validity,
    whether Vehumet supports it, whether it is known, seen or an old gift,
    its level and its elemental preference) are inputs, one record per
    spell_type in enumeration order. */
module Vehumet {
  import opened Dice

  datatype Option<T> = None | Some(value: T)

  /** NUM_VEHUMET_GIFTS, and the spell-level window for the n-th gift. */
  const NumVehumetGifts: nat := 13
  const MinLev: seq<int> := [1, 1, 2, 3, 3, 4, 4, 5, 5, 6, 6, 6, 8]
  const MaxLev: seq<int> := [1, 2, 3, 4, 5, 7, 7, 7, 7, 7, 7, 7, 9]

  /** What the eligibility loop asks about one spell_type:
      - valid: is_valid_spell;
      - supported: vehumet_supports_spell;
      - known: you.has_spell;
      - playerSpell: is_player_spell;
      - level: spell_difficulty;
      - seenOrOld: you.seen_spell or an earlier offer;
      - pref: elemental_preference(spell, 10). */
  datatype SpellFacts = SpellFacts(spell: nat, valid: bool, supported: bool, known: bool,
                                   playerSpell: bool, level: int, seenOrOld: bool, pref: int)

  /** The table holds one record per spell_type, in enumeration order. */
  predicate InSpellOrder(table: seq<SpellFacts>)
  {
    forall i :: 0 <= i < |table| ==> table[i].spell == i
  }

  /** _vehumet_weighting: 100 biased by the elemental preference. */
  function Weight(f: SpellFacts): int
  {
    100 + f.pref
  }

  /** A spell the loop keeps for gift number `gifts`, unseen or as backup. */
  predicate Qualifies(f: SpellFacts, excluded: set<nat>, gifts: nat)
    requires gifts < NumVehumetGifts
  {
    f.valid && f.spell !in excluded && f.supported && !f.known && f.playerSpell
    && MinLev[gifts] <= f.level <= MaxLev[gifts]
  }

  /** The two sets the loop builds, each in the order of the table. */
  datatype Split = Split(unseen: seq<SpellFacts>, backup: seq<SpellFacts>)

  /** The loop over the first n entries of the table. */
  function SplitUpTo(table: seq<SpellFacts>, excluded: set<nat>, gifts: nat, n: nat): (p: Split)
    requires gifts < NumVehumetGifts && n <= |table|
    ensures forall f :: f in p.unseen ==> f in table[..n] && Qualifies(f, excluded, gifts) && !f.seenOrOld
    ensures forall f :: f in p.backup ==> f in table[..n] && Qualifies(f, excluded, gifts) && f.seenOrOld
    ensures forall i :: 0 <= i < n && Qualifies(table[i], excluded, gifts) ==>
              (if table[i].seenOrOld then table[i] in p.backup else table[i] in p.unseen)
  {
    if n == 0 then Split([], [])
    else
      var p := SplitUpTo(table, excluded, gifts, n - 1);
      assert table[..n] == table[..n - 1] + [table[n - 1]];
      var f := table[n - 1];
      if !Qualifies(f, excluded, gifts) then p
      else if f.seenOrOld then Split(p.unseen, p.backup + [f])
      else Split(p.unseen + [f], p.backup)
  }

  /** What _vehumet_eligible_gift_spells hands back: the spells on offer,
      and whether it bumped the gift counters because none was left. */
  datatype Eligible = Eligible(spells: seq<SpellFacts>, bump: bool)

  /** No spell at all once the thirteen gifts are given or while the
      character is below the minimum level; otherwise the unseen spells,
      or failing those the backups; with neither, the counters advance
      while at most 12 gifts have been given. */
  function EligibleGiftSpells(table: seq<SpellFacts>, excluded: set<nat>, gifts: nat, xl: int): (e: Eligible)
  {
    if gifts >= NumVehumetGifts || MinLev[gifts] > xl then Eligible([], false)
    else
      var p := SplitUpTo(table, excluded, gifts, |table|);
      if |p.unseen| == 0 then Eligible(p.backup, |p.backup| == 0 && gifts <= 12)
      else Eligible(p.unseen, false)
  }

  /** The loop of _vehumet_eligible_gift_spells over every spell_type. */
  method SplitSpells(table: seq<SpellFacts>, excluded: set<nat>, gifts: nat) returns (p: Split)
    requires gifts < NumVehumetGifts
    ensures p == SplitUpTo(table, excluded, gifts, |table|)
  {
    var unseen: seq<SpellFacts> := [];
    var backup: seq<SpellFacts> := [];
    for i := 0 to |table|
      invariant Split(unseen, backup) == SplitUpTo(table, excluded, gifts, i)
    {
      var f := table[i];
      if !f.valid || f.spell in excluded {
        continue;
      }
      if f.supported && !f.known && f.playerSpell && f.level <= MaxLev[gifts] && f.level >= MinLev[gifts] {
        if !f.seenOrOld {
          unseen := unseen + [f];
        } else {
          backup := backup + [f];
        }
      }
    }
    return Split(unseen, backup);
  }

  method EligibleSpells(table: seq<SpellFacts>, excluded: set<nat>, gifts: nat, xl: int) returns (e: Eligible)
    requires InSpellOrder(table)
    ensures e == EligibleGiftSpells(table, excluded, gifts, xl)
  {
    if gifts >= NumVehumetGifts {
      return Eligible([], false);
    }
    if MinLev[gifts] > xl {
      return Eligible([], false);
    }
    var p := SplitSpells(table, excluded, gifts);
    if |p.unseen| == 0 {
      return Eligible(p.backup, |p.backup| == 0 && gifts <= 12);
    }
    return Eligible(p.unseen, false);
  }

  // -------------------------------------------------------------- the pick

  /** The pick after the first n candidates: the spell held so far and the
      running total weight. `rolls(i)` is the random2 drawn by the i-th
      x_chance_in_y. */
  datatype Held = Held(spell: Option<nat>, total: int)

  function PickUpTo(cands: seq<SpellFacts>, rolls: nat -> int, n: nat): (h: Held)
    requires n <= |cands|
  {
    if n == 0 then Held(None, 0)
    else
      var h := PickUpTo(cands, rolls, n - 1);
      var w := Weight(cands[n - 1]);
      if XChanceInY(w, h.total + w, rolls(n - 1)) then Held(Some(cands[n - 1].spell), h.total + w)
      else Held(h.spell, h.total + w)
  }

  /** The spell _vehumet_find_spell_gift returns (None is SPELL_NO_SPELL). */
  function Pick(cands: seq<SpellFacts>, rolls: nat -> int): Option<nat>
  {
    PickUpTo(cands, rolls, |cands|).spell
  }

  method FindPick(cands: seq<SpellFacts>, rolls: nat -> int) returns (spell: Option<nat>)
    ensures spell == Pick(cands, rolls)
  {
    spell := None;
    var totalWeight := 0;
    for i := 0 to |cands|
      invariant Held(spell, totalWeight) == PickUpTo(cands, rolls, i)
    {
      var thisWeight := Weight(cands[i]);
      totalWeight := totalWeight + thisWeight;
      if XChanceInY(thisWeight, totalWeight, rolls(i)) {
        spell := Some(cands[i].spell);
      }
    }
  }

  /** _vehumet_find_spell_gift(excluded): the eligible spells, then the
      pick among them; `bump` says whether the counters advance. */
  method FindSpellGift(table: seq<SpellFacts>, excluded: set<nat>, gifts: nat, xl: int, rolls: nat -> int)
    returns (spell: Option<nat>, bump: bool)
    requires InSpellOrder(table)
    ensures var e := EligibleGiftSpells(table, excluded, gifts, xl);
            spell == Pick(e.spells, rolls) && bump == e.bump
  {
    var e := EligibleSpells(table, excluded, gifts, xl);
    spell := FindPick(e.spells, rolls);
    bump := e.bump;
  }

  // ------------------------------------------- an independent description

  /** The sum of the first n weights. */
  function TotalWeight(cands: seq<SpellFacts>, n: nat): int
    requires n <= |cands|
  {
    if n == 0 then 0 else TotalWeight(cands, n - 1) + Weight(cands[n - 1])
  }

  /** The i-th candidate's roll succeeds: x_chance_in_y of its weight in
      the total so far. */
  predicate Hit(cands: seq<SpellFacts>, rolls: nat -> int, i: nat)
    requires i < |cands|
  {
    XChanceInY(Weight(cands[i]), TotalWeight(cands, i + 1), rolls(i))
  }

  /** Reservoir sampling: the pick is the last candidate whose roll
      succeeds, and nothing when none does. */
  lemma {:induction false} PickIsLastHit(cands: seq<SpellFacts>, rolls: nat -> int, n: nat)
    requires n <= |cands|
    ensures PickUpTo(cands, rolls, n).total == TotalWeight(cands, n)
    ensures PickUpTo(cands, rolls, n).spell == None <==> forall i :: 0 <= i < n ==> !Hit(cands, rolls, i)
    ensures PickUpTo(cands, rolls, n).spell != None ==>
              exists i :: 0 <= i < n && Hit(cands, rolls, i)
                && PickUpTo(cands, rolls, n).spell == Some(cands[i].spell)
                && forall j :: i < j < n ==> !Hit(cands, rolls, j)
  {
    if n > 0 {
      PickIsLastHit(cands, rolls, n - 1);
      var h := PickUpTo(cands, rolls, n - 1);
      if Hit(cands, rolls, n - 1) {
        assert PickUpTo(cands, rolls, n).spell == Some(cands[n - 1].spell);
      } else if h.spell != None {
        var i :| 0 <= i < n - 1 && Hit(cands, rolls, i) && h.spell == Some(cands[i].spell)
                 && forall j :: i < j < n - 1 ==> !Hit(cands, rolls, j);
        assert forall j :: i < j < n ==> !Hit(cands, rolls, j);
      }
    }
  }

  /** The pick is one of the candidates. */
  lemma PickIsCandidate(cands: seq<SpellFacts>, rolls: nat -> int)
    ensures Pick(cands, rolls) != None ==> exists i :: 0 <= i < |cands| && Pick(cands, rolls) == Some(cands[i].spell)
  {
    PickIsLastHit(cands, rolls, |cands|);
  }

  /** With every weight positive the pick never comes back empty: the
      first candidate's roll always succeeds. */
  lemma PositiveWeightsPickSomething(cands: seq<SpellFacts>, rolls: nat -> int)
    requires |cands| > 0 && forall i :: 0 <= i < |cands| ==> Weight(cands[i]) > 0
    ensures Pick(cands, rolls) != None
  {
    PickIsLastHit(cands, rolls, |cands|);
    assert TotalWeight(cands, 1) == Weight(cands[0]);
    assert Hit(cands, rolls, 0);
  }

  /** A lone candidate of positive weight is always the gift. */
  lemma SingletonPicked(f: SpellFacts, rolls: nat -> int)
    requires Weight(f) > 0
    ensures Pick([f], rolls) == Some(f.spell)
  {
    assert PickUpTo([f], rolls, 0) == Held(None, 0);
  }

  /** A candidate whose roll succeeds displaces everything before it. */
  lemma LastHitWins(cands: seq<SpellFacts>, rolls: nat -> int)
    requires |cands| > 0 && Hit(cands, rolls, |cands| - 1)
    ensures Pick(cands, rolls) == Some(cands[|cands| - 1].spell)
  {
    PickIsLastHit(cands, rolls, |cands| - 1);
  }

  // --------------------------------------------------- eligibility lemmas

  /** Every spell on offer qualifies for this gift's level window, is not
      excluded, and is unseen unless no unseen spell qualifies. */
  lemma OfferedSpellsQualify(table: seq<SpellFacts>, excluded: set<nat>, gifts: nat, xl: int)
    ensures var e := EligibleGiftSpells(table, excluded, gifts, xl);
            forall f :: f in e.spells ==>
              f in table && gifts < NumVehumetGifts && Qualifies(f, excluded, gifts)
              && f.spell !in excluded && f.level <= MaxLev[gifts] && MinLev[gifts] <= xl
  {
    assert table[..|table|] == table;
  }

  /** Unseen spells come first: when any qualifying one is unseen, no
      backup is offered. */
  lemma UnseenPreferred(table: seq<SpellFacts>, excluded: set<nat>, gifts: nat, xl: int, i: nat)
    requires gifts < NumVehumetGifts && MinLev[gifts] <= xl
    requires i < |table| && Qualifies(table[i], excluded, gifts) && !table[i].seenOrOld
    ensures forall f :: f in EligibleGiftSpells(table, excluded, gifts, xl).spells ==> !f.seenOrOld
    ensures table[i] in EligibleGiftSpells(table, excluded, gifts, xl).spells
  {
  }

  /** The counters advance only on the path where nothing at all is left,
      and never once thirteen gifts are given. */
  lemma BumpOnlyWhenNothingLeft(table: seq<SpellFacts>, excluded: set<nat>, gifts: nat, xl: int)
    ensures var e := EligibleGiftSpells(table, excluded, gifts, xl);
            e.bump <==> gifts <= 12 && MinLev[gifts] <= xl
                        && forall i :: 0 <= i < |table| ==> !Qualifies(table[i], excluded, gifts)
  {
    if gifts <= 12 && MinLev[gifts] <= xl {
      var p := SplitUpTo(table, excluded, gifts, |table|);
      if |p.unseen| == 0 && |p.backup| == 0 {
      } else if |p.unseen| > 0 {
        assert p.unseen[0] in p.unseen;
        assert p.unseen[0] in table[..|table|];
      } else {
        assert p.backup[0] in p.backup;
        assert p.backup[0] in table[..|table|];
      }
    }
  }

  /** Excluded spells are never picked, so repeated calls with the offers
      made so far as `excluded` offer distinct spells. */
  lemma ExcludedNeverPicked(table: seq<SpellFacts>, excluded: set<nat>, gifts: nat, xl: int, rolls: nat -> int)
    ensures var s := Pick(EligibleGiftSpells(table, excluded, gifts, xl).spells, rolls);
            s != None ==> s.value !in excluded
  {
    var e := EligibleGiftSpells(table, excluded, gifts, xl);
    PickIsCandidate(e.spells, rolls);
    OfferedSpellsQualify(table, excluded, gifts, xl);
    if Pick(e.spells, rolls) != None {
      var i :| 0 <= i < |e.spells| && Pick(e.spells, rolls) == Some(e.spells[i].spell);
      assert e.spells[i] in e.spells;
    }
  }
}
