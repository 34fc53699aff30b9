/** Runs of the pool that reach its bounds and its edges. */
module PoolExamples {
  import opened Prelude
  import opened MapSum
  import opened Terra
  import opened StakeStates
  import opened Pools
  import opened PoolRuns
  import opened PoolInvariant
  import opened PoolTheorems

  // ----- The two-staker run of the tests

  const WITNESS_CONFIG := Config("token", "uusd", 0)

  function WitnessEnv(sender: Address, funds: Uint128): Env {
    Env(0, sender, funds, TaxPolicy(0, 0))
  }

  const WITNESS: seq<Call> := [
    Call(WitnessEnv("token", 0), Receive("a", 9_122_993)),
    Call(WitnessEnv("auction", 134_010), Deposit),
    Call(WitnessEnv("token", 0), Receive("b", 3_451_902_999_741)),
    Call(WitnessEnv("auction", 23_810_833), Deposit)]

  lemma {:induction false} WitnessFirstHalf()
    ensures var w := Run(Start(WITNESS_CONFIG, 0), WITNESS[..2]);
            && w.pool == Pool(WITNESS_CONFIG, 14_689_258_229_179_831, 9_122_993, 1,
                              map["a" := Stake(9_122_993, 0, None, 0, 0, 0)])
            && w.ledger.deposited == 134_010
            && w.ledger.distributions == 1
            && w.ledger.accounts.Keys == {"a"}
            && w.ledger.accounts["a"].paid == 0
  {
    var start := Start(WITNESS_CONFIG, 0);
    RunSnoc(start, WITNESS, 0);
    RunSnoc(start, WITNESS, 1);
    var w := Run(start, WITNESS[..1]);
    assert w.pool.stakes == map["a" := Stake(9_122_993, 0, None, 0, 0, 0)];
  }

  function WitnessStakes(): map<Address, Stake> {
    map["a" := Stake(9_122_993, 0, None, 0, 0, 0),
        "b" := Stake(3_451_902_999_741, 0, None, 0, 14_689_258_229_179_831, 0)]
  }

  lemma {:induction false} WitnessThird()
    ensures var w := Run(Start(WITNESS_CONFIG, 0), WITNESS[..3]);
            && w.pool == Pool(WITNESS_CONFIG, 14_689_258_229_179_831, 3_451_912_122_734, 1, WitnessStakes())
            && w.ledger.deposited == 134_010
            && w.ledger.distributions == 1
            && w.ledger.accounts.Keys == {"a", "b"}
            && w.ledger.accounts["a"].paid == w.ledger.accounts["b"].paid == 0
  {
    WitnessFirstHalf();
    RunSnoc(Start(WITNESS_CONFIG, 0), WITNESS, 2);
    var w := Run(Start(WITNESS_CONFIG, 0), WITNESS[..3]);
    assert w.pool.stakes == WitnessStakes();
  }

  lemma WitnessLastDeposit(p: Pool, env: Env)
    requires p.totalStaked == 3_451_912_122_734 && p.residual == 1 && env.funds == 23_810_833
    requires p.multiplier == 14_689_258_229_179_831
    ensures AfterDeposit(p, env) == Ok(Outcome(p.(multiplier := 14_696_156_097_130_519, residual := 1), []))
  {
  }

  lemma {:induction false} WitnessSecondHalf()
    ensures var w := Run(Start(WITNESS_CONFIG, 0), WITNESS);
            && w.pool == Pool(WITNESS_CONFIG, 14_696_156_097_130_519, 3_451_912_122_734, 1, WitnessStakes())
            && w.ledger.deposited == 23_944_843
            && w.ledger.distributions == 2
            && w.ledger.accounts.Keys == {"a", "b"}
            && w.ledger.accounts["a"].paid == w.ledger.accounts["b"].paid == 0
  {
    WitnessThird();
    RunSnoc(Start(WITNESS_CONFIG, 0), WITNESS, 3);
    assert WITNESS[..4] == WITNESS;
    var w := Run(Start(WITNESS_CONFIG, 0), WITNESS[..3]);
    WitnessLastDeposit(w.pool, WITNESS[3].env);
    DepositNext(w, WITNESS[3]);
  }

  lemma {:induction false} SumOfTwo(m: map<Address, nat>)
    requires m.Keys == {"a", "b"}
    ensures Sum(m) == m["a"] + m["b"]
  {
    SumExtract(m, "a");
    SumExtract(m - {"a"}, "b");
    assert m - {"a"} - {"b"} == map[];
  }

  lemma {:induction false} WitnessClaims(p: Pool)
    requires p.multiplier == 14_696_156_097_130_519
    requires p.stakes == WitnessStakes()
    ensures Sum(Claims(p)) == 134_072 + 23_810_771
  {
    SumOfTwo(Claims(p));
    assert Claim(p.stakes["a"], p.multiplier) == 134_072;
    assert Claim(p.stakes["b"], p.multiplier) == 23_810_771;
  }

  /** Exact solvency is not what the code gives: after two stakes and two deposits the pool is committed to
      one unit more than was ever deposited, which is as far as the bound lets it go. */
  lemma {:induction false} CommitmentBoundIsReached()
    ensures var w := Run(Start(WITNESS_CONFIG, 0), WITNESS);
            && Timely(0, WITNESS)
            && w.ledger.distributions == 2
            && Committed(w) == w.ledger.deposited + 1
  {
    WitnessSecondHalf();
    var w := Run(Start(WITNESS_CONFIG, 0), WITNESS);
    WitnessClaims(w.pool);
    SumOfTwo(Paid(w.ledger));
  }

  // ----- The bound is reached at every length

  /** Three tokens at stake, a deposit of one unit, then deposits of three units each. */
  function TightRun(n: nat): seq<Call> {
    if n == 0 then [Call(WitnessEnv("token", 0), Receive("a", 3))]
    else TightRun(n - 1) + [Call(WitnessEnv("auction", if n == 1 then 1 else 3), Deposit)]
  }

  /** The multiplier after n deposits: a third of a unit from the first, four thirds from each of the rest. */
  function TightMultiplier(n: nat): nat {
    if n == 0 then 0 else 333_333_333_333_333_333 + (n - 1) * 1_333_333_333_333_333_333
  }

  function TightDeposits(n: nat): nat {
    if n == 0 then 0 else 3 * n - 2
  }

  predicate TightState(w: World, n: nat) {
    && w.pool.config == WITNESS_CONFIG
    && w.pool.multiplier == TightMultiplier(n)
    && w.pool.totalStaked == 3
    && w.pool.residual == Min(n, 1)
    && w.pool.stakes == map["a" := Stake(3, 0, None, 0, 0, 0)]
    && w.ledger.deposited == TightDeposits(n)
    && w.ledger.distributions == n
    && w.ledger.accounts.Keys == {"a"}
    && w.ledger.accounts["a"].paid == 0
  }

  lemma {:induction false} TightStart()
    ensures TightState(Run(Start(WITNESS_CONFIG, 0), TightRun(0)), 0)
  {
    var start := Start(WITNESS_CONFIG, 0);
    var calls := TightRun(0);
    RunSnoc(start, calls, 0);
    assert calls[..1] == calls;
    ReceiveNext(start, calls[0]);
  }

  lemma TightDeposit(p: Pool, env: Env, n: nat)
    requires 0 < n <= FRACTION
    requires p.totalStaked == 3 && p.residual == Min(n - 1, 1) && p.multiplier == TightMultiplier(n - 1)
    requires env.funds == if n == 1 then 1 else 3
    ensures AfterDeposit(p, env) == Ok(Outcome(p.(multiplier := TightMultiplier(n), residual := 1), []))
  {
  }

  lemma {:induction false} TightStep(w: World, c: Call, n: nat)
    requires 0 < n <= FRACTION
    requires TightState(w, n - 1)
    requires c == Call(WitnessEnv("auction", if n == 1 then 1 else 3), Deposit)
    ensures TightState(Next(w, c), n)
  {
    TightDeposit(w.pool, c.env, n);
    DepositNext(w, c);
  }

  lemma {:induction false} TightTimes(n: nat)
    ensures forall i :: 0 <= i < |TightRun(n)| ==> TightRun(n)[i].env.now == 0
  {
    if n > 0 {
      TightTimes(n - 1);
    }
  }

  lemma {:induction false} TightRuns(n: nat)
    requires n <= FRACTION
    ensures TightState(Run(Start(WITNESS_CONFIG, 0), TightRun(n)), n)
  {
    if n == 0 {
      TightStart();
    } else {
      TightRuns(n - 1);
      var start, before := Start(WITNESS_CONFIG, 0), TightRun(n - 1);
      var c := Call(WitnessEnv("auction", if n == 1 then 1 else 3), Deposit);
      TightStep(Run(start, before), c, n);
      RunAppend(start, before, c);
    }
  }

  lemma TightClaim(n: nat)
    requires 0 < n <= FRACTION
    ensures Claim(Stake(3, 0, None, 0, 0, 0), TightMultiplier(n)) == 4 * n - 4
  {
    assert 3 * TightMultiplier(n) == (4 * n - 3) * FRACTION - n;
  }

  /** The commitment bound cannot be improved for any number of distributions up to 10^18: the shortfall of the
      pool grows by a unit with every deposit of this run, without limit. */
  lemma {:induction false} CommitmentBoundReachedAtEveryLength(n: nat)
    requires 0 < n <= FRACTION
    ensures var w := Run(Start(WITNESS_CONFIG, 0), TightRun(n));
            && Timely(0, TightRun(n))
            && w.ledger.distributions == n
            && Committed(w) == w.ledger.deposited + n - 1
  {
    TightTimes(n);
    TightRuns(n);
    TightClaim(n);
    var w := Run(Start(WITNESS_CONFIG, 0), TightRun(n));
    SumOfOne(Claims(w.pool));
    SumOfOne(Paid(w.ledger));
  }

  lemma {:induction false} SumOfOne(m: map<Address, nat>)
    requires m.Keys == {"a"}
    ensures Sum(m) == m["a"]
  {
    SumExtract(m, "a");
    assert m - {"a"} == map[];
  }

  // ----- The last instant of an unstaking delay

  const DELAY_CONFIG := Config("token", "uusd", 100)
  const STAKE_CALL := Call(WitnessEnv("token", 0), Receive("a", 5))
  const UNSTAKE_CALL := Call(Env(10, "a", 0, TaxPolicy(0, 0)), Unstake(5))

  /** Five tokens unstaked at time 10 under a delay of 100 are still unstaking at time 110 by the query, and
      released at time 110 by the update. */
  lemma {:induction false} ProjectionLagsOneInstant(config: Config, stake: Call, unstake: Call)
    requires config == DELAY_CONFIG && stake == STAKE_CALL && unstake == UNSTAKE_CALL
    ensures var calls := [stake, unstake];
            var w := Run(Start(config, 0), calls);
            && Timely(0, calls)
            && "a" in w.pool.stakes
            && w.pool.stakes["a"].UnstakingUnstaked(110, config.unstakeDelay) == Ok((5, 0))
            && w.pool.stakes["a"].Released(110, config.unstakeDelay).Ok?
            && w.pool.stakes["a"].Released(110, config.unstakeDelay).value.unstaking == 0
            && w.pool.stakes["a"].Released(110, config.unstakeDelay).value.unstaked == 5
  {
    var start, calls := Start(config, 0), [stake, unstake];
    RunSnoc(start, calls, 0);
    RunSnoc(start, calls, 1);
    assert calls[..2] == calls;
    ReceiveNext(start, stake);
    var w := Next(start, stake);
    assert w.pool.stakes["a"] == Stake(5, 0, None, 0, 0, 0);
    UnstakeNext(w, unstake);
    assert Next(w, unstake).pool.stakes["a"] == Stake(0, 5, Some(10), 0, 0, 0);
  }
}
