/** The deities of religion.cc: the god_type enumeration, whose values
    index the per-god vectors, the alignment predicates and the per-god
    desertion penance. */
module Gods {

  /** NUM_GODS: the god iterator visits every god, GOD_NO_GOD included. */
  const NumGods: nat := 25

  /** A god_type value. */
  newtype God = x: int | 0 <= x < NumGods

  /** The enumerators of god_type, in their declared order. */
  const NoGod: God := 0
  const Zin: God := 1
  const ShiningOne: God := 2
  const Kikubaaqudgha: God := 3
  const Yredelemnul: God := 4
  const Xom: God := 5
  const Vehumet: God := 6
  const Okawaru: God := 7
  const Makhleb: God := 8
  const SifMuna: God := 9
  const Trog: God := 10
  const NemelexXobeh: God := 11
  const Elyvilon: God := 12
  const Lugonu: God := 13
  const Beogh: God := 14
  const Jiyva: God := 15
  const Fedhas: God := 16
  const Cheibriados: God := 17
  const Ashenzari: God := 18
  const Dithmenos: God := 19
  const Gozag: God := 20
  const Qazlal: God := 21
  const Ru: God := 22
  const Pakellas: God := 23
  const Hepliaklqana: God := 24

  /** The index of a god in the per-god vectors. */
  function Ord(g: God): (i: nat)
    ensures i < NumGods
  {
    g as int
  }

  predicate IsEvilGod(g: God)
  {
    g == Kikubaaqudgha || g == Makhleb || g == Yredelemnul || g == Beogh || g == Lugonu
  }

  /** Good gods are neither evil nor chaotic. */
  predicate IsGoodGod(g: God)
    ensures IsGoodGod(g) ==> !IsEvilGod(g) && !IsChaoticGod(g)
  {
    g == Zin || g == ShiningOne || g == Elyvilon
  }

  predicate IsChaoticGod(g: God)
  {
    g == Xom || g == Makhleb || g == Lugonu || g == Jiyva
  }

  /** god_hates_your_god: Ru is indifferent and no god hates itself; every
      other non-good god hates your god; a good god hates exactly the evil
      gods, and Zin also hates the chaotic ones. */
  function GodHatesYourGod(god: God, yours: God): (r: bool)
    ensures god == Ru || god == yours ==> !r
    ensures god != Ru && god != yours && !IsGoodGod(god) ==> r
    ensures IsGoodGod(god) && god != yours ==>
              (r <==> IsEvilGod(yours) || (god == Zin && IsChaoticGod(yours)))
    ensures IsGoodGod(god) && IsGoodGod(yours) ==> !r
  {
    if god == Ru then false
    else if god == yours then false
    else if !IsGoodGod(god) then true
    else if god == Zin && IsChaoticGod(yours) then true
    else IsEvilGod(yours)
  }

  /** The penance excommunication seeds for the god being left. */
  function DesertionPenance(g: God): (r: nat)
    ensures 25 <= r <= 150
    ensures r > 50 <==> g == NemelexXobeh
  {
    if g == NemelexXobeh then 150
    else if g == Xom || g == Trog || g == Beogh || g == SifMuna || g == Lugonu
            || g == Ashenzari || g == Gozag || g == Hepliaklqana then 50
    else if g == Kikubaaqudgha || g == Yredelemnul || g == ShiningOne || g == Elyvilon
            || g == Jiyva || g == Fedhas then 30
    else 25
  }
}
