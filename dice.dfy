/** The random rolls religion.cc draws, made explicit inputs, and the two
    random helpers it uses on them (div_rand_round, x_chance_in_y). */
module Dice {

  /** What one do_god_gift call does to the favour ledger when its gate
      lets it through: nothing, or a gift that bumps both gift counters and
      raises the gift timeout by the given amount (0 for the gifts that set
      no timeout). Which gift it is lives outside the ledger. */
  datatype GiftOutcome = NoGift | Granted(timeoutInc: nat)

  /** The rolls one _gain_piety_point draws:
      - timeoutSpares: one_chance_in(4) while a gift timeout runs (true lets
        the point through);
      - taperTop: the one_chance_in(3) beside breakpoint 5 (one_chance_in(5)
        for Sif Muna);
      - taperMid: the one_chance_in(3) beside breakpoint 3;
      - gift: what the do_god_gift call of this step yields. */
  datatype PointRoll = PointRoll(timeoutSpares: bool, taperTop: bool, taperMid: bool, gift: GiftOutcome)

  /** An endless supply of point rolls, read from a position onwards. */
  type RollStream = nat -> PointRoll

  /** Euclidean division of a non-negative number by a positive one is
      non-negative. */
  lemma DivNonNegative(a: int, b: int)
    requires a >= 0 && b > 0
    ensures a / b >= 0
  {
  }

  /** C division, truncating toward zero. */
  function TruncDiv(num: int, den: int): (q: int)
    requires den > 0
    ensures num >= 0 ==> q == num / den
    ensures num < 0 ==> q == -((-num) / den)
    ensures num >= 0 ==> q >= 0
  {
    DivNonNegative(if num >= 0 then num else -num, den);
    if num >= 0 then num / den else -((-num) / den)
  }

  /** C remainder, with the sign of the numerator. */
  function CRem(num: int, den: int): (r: int)
    requires den > 0
    ensures num == TruncDiv(num, den) * den + r
    ensures -den < r < den
    ensures num >= 0 ==> r == num % den
  {
    num - TruncDiv(num, den) * den
  }

  /** div_rand_round(num, den): the quotient, rounded up when random2(den),
      here `roll`, falls below the remainder. */
  function DivRandRound(num: int, den: int, roll: nat): (r: int)
    requires den > 0
    ensures r == TruncDiv(num, den) || r == TruncDiv(num, den) + 1
    ensures CRem(num, den) <= 0 ==> r == TruncDiv(num, den)
    ensures num >= 0 ==> r >= 0
  {
    var rem := CRem(num, den);
    if rem != 0 && roll < rem then TruncDiv(num, den) + 1 else TruncDiv(num, den)
  }

  lemma DivRandRoundByOne(num: int, roll: nat)
    ensures DivRandRound(num, 1, roll) == num
  {
  }

  /** x_chance_in_y(x, y), with random2(y) given as `roll`. */
  function XChanceInY(x: int, y: int, roll: int): (r: bool)
    ensures x <= 0 ==> !r
    ensures x > 0 && x >= y ==> r
  {
    if x <= 0 then false else if x >= y then true else roll < x
  }
}
