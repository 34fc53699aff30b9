/** One staker's record: lazy settlement of dividends and timed unstaking. */
module StakeStates {
  import opened Prelude

  /** The record as it lies in storage. */
  datatype Stake = Stake(
    staked: Uint128,
    unstaking: Uint128,
    beginTime: Option<Uint64>,
    unstaked: Uint128,
    multiplier: Uint128,
    dividend: Uint128)
  {
    /** The stored dividend and what has accrued since the record's own multiplier. */
    function FullDividend(globalMultiplier: Uint128): Result<Uint128> {
      var perToken := SaturatingSub(globalMultiplier, multiplier);
      var accrued :- MultiplyRatio(staked, perToken, FRACTION);
      Add128(dividend, accrued)
    }

    function Settled(globalMultiplier: Uint128): Result<Stake> {
      var full :- FullDividend(globalMultiplier);
      Ok(this.(dividend := full, multiplier := globalMultiplier))
    }

    /** What a query reports as (unstaking, unstaked). */
    function UnstakingUnstaked(now: Uint64, delay: Uint64): Result<(Uint128, Uint128)> {
      match beginTime
      case None =>
        Ok((0, unstaked))
      case Some(begin) =>
        var end :- Add64(begin, delay);
        if end < now then
          var sum :- Add128(unstaked, unstaking);
          Ok((0, sum))
        else
          Ok((unstaking, unstaked))
    }

    /** What an update at `now` stores. */
    function Released(now: Uint64, delay: Uint64): Result<Stake> {
      match beginTime
      case None =>
        Ok(this)
      case Some(begin) =>
        var end :- Add64(begin, delay);
        if end <= now then
          var sum :- Add128(unstaked, unstaking);
          Ok(this.(unstaked := sum, unstaking := 0, beginTime := None))
        else
          Ok(this)
    }
  }

  /** A record loaded from storage and updated in place. */
  class StakeState {
    var staked: Uint128
    var unstaking: Uint128
    var beginTime: Option<Uint64>
    var unstaked: Uint128
    var multiplier: Uint128
    var dividend: Uint128

    function Value(): Stake
      reads this
    {
      Stake(staked, unstaking, beginTime, unstaked, multiplier, dividend)
    }

    constructor Load(s: Stake)
      ensures Value() == s
    {
      staked, unstaking, beginTime := s.staked, s.unstaking, s.beginTime;
      unstaked, multiplier, dividend := s.unstaked, s.multiplier, s.dividend;
    }

    method UpdateDividend(globalMultiplier: Uint128) returns (r: Result<()>)
      modifies this`dividend, this`multiplier
      ensures match old(Value()).Settled(globalMultiplier)
              case Ok(s) => r == Ok(()) && Value() == s
              case Err(e) => r == Err(e) && Value() == old(Value())
    {
      var full := Value().FullDividend(globalMultiplier);
      if full.Err? {
        return Err(full.error);
      }
      dividend := full.value;
      multiplier := globalMultiplier;
      return Ok(());
    }

    method UpdateUnstakedAmount(now: Uint64, delay: Uint64) returns (r: Result<()>)
      modifies this`unstaked, this`unstaking, this`beginTime
      ensures match old(Value()).Released(now, delay)
              case Ok(s) => r == Ok(()) && Value() == s
              case Err(e) => r == Err(e) && Value() == old(Value())
    {
      if beginTime.Some? {
        var end :- Add64(beginTime.value, delay);
        if end <= now {
          unstaked :- Add128(unstaked, unstaking);
          unstaking := 0;
          beginTime := None;
        }
      }
      return Ok(());
    }
  }

  /** The query's projection and the stored update give the same split except at the one instant at which
      the delay ends, where the update already releases what the query still withholds. */
  lemma {:induction false} ProjectionAgreesWithUpdate(s: Stake, now: Uint64, delay: Uint64)
    requires s.Released(now, delay).Ok?
    ensures s.UnstakingUnstaked(now, delay).Ok?
    ensures var (unstaking, unstaked) := s.UnstakingUnstaked(now, delay).value;
            var stored := s.Released(now, delay).value;
            (unstaking, unstaked) == (stored.unstaking, stored.unstaked)
            <==>
            (s.beginTime.None? ==> s.unstaking == 0)
            && !(s.beginTime.Some? && now == s.beginTime.value + delay && s.unstaking > 0)
    ensures var (unstaking, unstaked) := s.UnstakingUnstaked(now, delay).value;
            var stored := s.Released(now, delay).value;
            (s.beginTime.None? ==> s.unstaking == 0) ==>
              unstaking + unstaked == stored.unstaking + stored.unstaked == s.unstaking + s.unstaked
  {
  }
}
