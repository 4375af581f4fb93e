/** The experience ledger's arithmetic (main.py:174-189): points accumulate and
    the level climbs while the points reach `level * 100`. */
module Leveling {

  /** Points awarded for one qualifying message (the default of `add_xp`). */
  const XP_PER_MESSAGE := 10

  /** One user's entry: `{"xp": ..., "level": ...}`. */
  datatype XpRecord = XpRecord(xp: int, level: int)

  /** The entry `add_xp` creates for a user it has not seen. */
  const NEW_RECORD := XpRecord(0, 1)

  /** Points needed to leave `level`. */
  function Threshold(level: int): int {
    level * 100
  }

  /** A record the ledger can hold: at least level 1, and below the next threshold. */
  predicate Settled(r: XpRecord) {
    r.level >= 1 && r.xp < Threshold(r.level)
  }

  /** The level the `while xp >= needed` loop stops at, starting from `level`. */
  function Climb(xp: int, level: int): int
    decreases xp - Threshold(level)
  {
    if xp >= Threshold(level) then Climb(xp, level + 1) else level
  }

  /** An award of `amount` points: what `add_xp` leaves in the ledger. */
  function Award(r: XpRecord, amount: int): XpRecord {
    XpRecord(r.xp + amount, Climb(r.xp + amount, r.level))
  }

  /** The loop stops at the first level, from `level` up, whose threshold is
      above the points: every level it passes was reached. */
  lemma {:induction false} ClimbIsFirstLevelAbove(xp: int, level: int)
    ensures Climb(xp, level) >= level
    ensures xp < Threshold(Climb(xp, level))
    ensures forall l :: level <= l < Climb(xp, level) ==> Threshold(l) <= xp
    decreases xp - Threshold(level)
  {
    if xp >= Threshold(level) {
      ClimbIsFirstLevelAbove(xp, level + 1);
    }
  }

  /** The returned flag: the level rose exactly when the points reached the current threshold. */
  lemma ClimbRisesIff(xp: int, level: int)
    ensures Climb(xp, level) > level <==> xp >= Threshold(level)
  {
    ClimbIsFirstLevelAbove(xp, level);
  }

  /** For a non-negative score from level 1 up, the loop computes `max(level, xp / 100 + 1)`. */
  lemma ClimbClosedForm(xp: int, level: int)
    requires xp >= 0 && level >= 1
    ensures Climb(xp, level) == if level > xp / 100 + 1 then level else xp / 100 + 1
  {
    var c := Climb(xp, level);
    var q := xp / 100;
    ClimbIsFirstLevelAbove(xp, level);
    assert q * 100 <= xp < (q + 1) * 100;
    if c > level {
      assert Threshold(c - 1) <= xp;
      assert (c - 1) * 100 <= xp;
      assert c - 1 > q ==> (c - 1) * 100 >= (q + 1) * 100;
      assert c * 100 > xp;
      assert c > q;
    } else {
      assert c == level;
      assert level * 100 > xp;
      assert level > q;
    }
  }

  /** Each award keeps the ledger settled, adds exactly `amount` points, and never lowers the level. */
  lemma AwardKeepsSettled(r: XpRecord, amount: int)
    requires Settled(r)
    ensures Settled(Award(r, amount))
    ensures Award(r, amount).xp == r.xp + amount
    ensures Award(r, amount).level >= r.level
  {
    ClimbIsFirstLevelAbove(r.xp + amount, r.level);
  }

  /** Re-running the level computation with no new points changes nothing. */
  lemma ZeroAwardIsIdentity(r: XpRecord)
    requires Settled(r)
    ensures Award(r, 0) == r
  {
  }

  /** More points never give a lower level. */
  lemma {:induction false} ClimbMonotonic(xp1: int, xp2: int, level: int)
    requires xp1 <= xp2
    ensures Climb(xp1, level) <= Climb(xp2, level)
    decreases xp2 - Threshold(level)
  {
    if xp1 >= Threshold(level) {
      ClimbMonotonic(xp1, xp2, level + 1);
    } else {
      ClimbIsFirstLevelAbove(xp2, level);
    }
  }

  /** `n` consecutive awards of `amount` points. */
  function AwardTimes(r: XpRecord, amount: int, n: nat): XpRecord
    decreases n
  {
    if n == 0 then r else AwardTimes(Award(r, amount), amount, n - 1)
  }

  /** A single award of 250 points to a new user lands on level 3. */
  lemma BigAwardClimbsTwice()
    ensures Award(NEW_RECORD, 250) == XpRecord(250, 3)
  {
    assert Climb(250, 3) == 3;
    assert Climb(250, 2) == 3;
  }

  /** With 10 points a message, a new user reaches level 2 on the tenth message and not before. */
  lemma TenMessagesReachLevelTwo()
    ensures AwardTimes(NEW_RECORD, XP_PER_MESSAGE, 9) == XpRecord(90, 1)
    ensures AwardTimes(NEW_RECORD, XP_PER_MESSAGE, 10) == XpRecord(100, 2)
  {
    var r := NEW_RECORD;
    var k := 0;
    while k < 9
      invariant 0 <= k <= 9
      invariant AwardTimes(NEW_RECORD, XP_PER_MESSAGE, 9) == AwardTimes(XpRecord(10 * k, 1), XP_PER_MESSAGE, 9 - k)
    {
      assert Award(XpRecord(10 * k, 1), XP_PER_MESSAGE) == XpRecord(10 * (k + 1), 1);
      k := k + 1;
    }
    assert AwardTimes(XpRecord(90, 1), XP_PER_MESSAGE, 1) == XpRecord(100, 2) by {
      assert Climb(100, 2) == 2;
    }
    assert AwardTimes(NEW_RECORD, XP_PER_MESSAGE, 10) == AwardTimes(XpRecord(90, 1), XP_PER_MESSAGE, 1) by {
      AwardTimesSplit(NEW_RECORD, XP_PER_MESSAGE, 9, 1);
    }
  }

  lemma {:induction false} AwardTimesSplit(r: XpRecord, amount: int, m: nat, n: nat)
    ensures AwardTimes(r, amount, m + n) == AwardTimes(AwardTimes(r, amount, m), amount, n)
    decreases m
  {
    if m > 0 {
      AwardTimesSplit(Award(r, amount), amount, m - 1, n);
    }
  }
}
