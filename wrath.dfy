/** Classification of a god's penance: active wrath (retribution can strike)
    or passive wrath that expires with experience. A god may be in neither
    class, e.g. Ru, or a good god you no longer anger. */
module Wrath {
  import opened Gods

  /** The gods whose penance never turns into active wrath. */
  predicate ExemptFromActiveWrath(god: God)
  {
    god == Ashenzari || god == Gozag || god == Ru || god == Hepliaklqana
  }

  /** active_penance(god) for a god whose penance counter is `pen`, while
      the player worships `religion`; `unavailable` is is_unavailable_god. */
  predicate ActivePenance(god: God, pen: int, religion: God, unavailable: bool)
  {
    pen > 0
    && !unavailable
    && !ExemptFromActiveWrath(god)
    && (god != NemelexXobeh || pen > 100)
    && ((god == religion && !IsGoodGod(god)) || GodHatesYourGod(god, religion))
  }

  /** xp_penance(god): the wrath that is passive and expires with XP. */
  function XpPenance(god: God, pen: int, religion: God, unavailable: bool): (r: bool)
    ensures r ==> !ActivePenance(god, pen, religion, unavailable)
    ensures r <==> pen > 0 && !unavailable && ExemptFromActiveWrath(god) && god != Ru
  {
    pen > 0 && !unavailable && (god == Ashenzari || god == Gozag || god == Hepliaklqana)
  }

  /** A god that is neither good nor exempt is actively angry whenever it
      holds penance (Nemelex: penance above 100), whoever you worship. */
  lemma NonGoodGodAlwaysActive(god: God, pen: int, religion: God)
    requires !IsGoodGod(god) && !ExemptFromActiveWrath(god)
    requires pen > 0 && (god != NemelexXobeh || pen > 100)
    ensures ActivePenance(god, pen, religion, false)
  {
  }

  /** A good god is actively angry exactly when it holds penance and you now
      worship an evil god (or, for Zin, a chaotic one); in particular never
      while you worship it or another good god. */
  lemma GoodGodActiveOnlyAgainstOpposedGods(god: God, pen: int, religion: God)
    requires IsGoodGod(god)
    ensures ActivePenance(god, pen, religion, false) <==>
              pen > 0 && (IsEvilGod(religion) || (god == Zin && IsChaoticGod(religion)))
  {
  }

  /** Ru's penance is never active. */
  lemma RuNeverActive(pen: int, religion: God, unavailable: bool)
    ensures !ActivePenance(Ru, pen, religion, unavailable)
  {
  }
}
