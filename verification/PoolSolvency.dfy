/** The exact account of the pool's solvency over any run. */
module PoolSolvency {
  import opened Prelude
  import opened MapSum
  import opened StakeStates
  import opened Pools
  import opened PoolRuns
  import opened PoolInvariant
  import opened PoolTheorems

  // ----- What is credited twice

  /** Fractions of a unit that a deposit credits to the stakers although they also stay in the residual. */
  function OverCredit(p: Pool, c: Call): nat {
    if c.action.Deposit? && Apply(p, c).Ok? && p.totalStaked > 0
    then CreditFraction(c.env.funds + p.residual, p.totalStaked)
    else 0
  }

  function OverCredits(w: World, calls: seq<Call>): nat {
    if calls == [] then 0
    else
      var n := |calls| - 1;
      OverCredits(w, calls[..n]) + OverCredit(Run(w, calls[..n]).pool, calls[n])
  }

  /** Eager credit handed out beyond the funds released from the residual. */
  ghost function Excess(w: World): int {
    Sum(EagerCredits(w.ledger.accounts)) - (w.ledger.deposited - w.pool.residual) * FRACTION
  }

  lemma {:induction false} OverCreditOf(p: Pool, c: Call)
    requires c.action.Deposit? && Apply(p, c).Ok?
    ensures var q := Apply(p, c).value.pool;
            && q.multiplier >= p.multiplier
            && q.residual <= c.env.funds + p.residual
            && OverCredit(p, c) == Times(p.totalStaked, q.multiplier - p.multiplier)
                                   - (c.env.funds + p.residual - q.residual) * FRACTION
  {
    DepositFacts(p, c.env);
    if p.totalStaked > 0 {
      DepositConservesIff(p, c.env);
    }
  }

  lemma {:induction false} CreditExcess(w: World, v: World, funds: nat, perStake: nat)
    requires Balanced(w.pool, w.ledger) && w.ledger.accounts.Keys == w.pool.stakes.Keys
    requires v.ledger.accounts == CreditAll(w.ledger.accounts, w.pool.stakes, perStake)
    requires v.ledger.deposited == w.ledger.deposited + funds
    ensures Excess(v) == Excess(w) + Times(w.pool.totalStaked, perStake)
                         - (funds + w.pool.residual - v.pool.residual) * FRACTION
  {
    CreditTotals(w.pool.stakes, w.ledger.accounts, perStake);
  }

  lemma {:induction false} DepositExcess(w: World, c: Call)
    requires Balanced(w.pool, w.ledger) && w.ledger.accounts.Keys == w.pool.stakes.Keys
    requires c.action.Deposit? && Apply(w.pool, c).Ok?
    ensures Excess(Next(w, c)) == Excess(w) + OverCredit(w.pool, c)
  {
    var v, o := Next(w, c), OverCredit(w.pool, c);
    var perStake := SaturatingSub(v.pool.multiplier, w.pool.multiplier);
    assert o == Times(w.pool.totalStaked, perStake)
                - (c.env.funds + w.pool.residual - v.pool.residual) * FRACTION by {
      OverCreditOf(w.pool, c);
    }
    assert v.ledger.accounts == CreditAll(w.ledger.accounts, w.pool.stakes, perStake)
        && v.ledger.deposited == w.ledger.deposited + c.env.funds by {
      DepositNext(w, c);
    }
    CreditExcess(w, v, c.env.funds, perStake);
  }

  // ----- What is rounded away

  /** The staker whose record a call works on. */
  function Staker(c: Call): Address {
    if c.action.Receive? then c.action.tokenSender else c.env.sender
  }

  /** Fractional units accrued to a record and not yet settled. */
  function Accrued(s: Stake, m: nat): nat {
    Times(s.staked, SaturatingSub(m, s.multiplier))
  }

  /** The fraction of a unit that a call's settlement, if it makes one, cuts off. */
  function RoundedOff(p: Pool, c: Call): nat {
    if Apply(p, c).Ok? && !c.action.Deposit? && !c.action.WithdrawTokens? && Staker(c) in p.stakes
    then Accrued(p.stakes[Staker(c)], p.multiplier) % FRACTION
    else 0
  }

  function RoundedOffs(w: World, calls: seq<Call>): nat {
    if calls == [] then 0
    else
      var n := |calls| - 1;
      RoundedOffs(w, calls[..n]) + RoundedOff(Run(w, calls[..n]).pool, calls[n])
  }

  /** The fractions that a settlement of everybody would cut off now. */
  function OpenFractions(p: Pool): map<Address, nat> {
    map a | a in p.stakes :: Accrued(p.stakes[a], p.multiplier) % FRACTION
  }

  function OwedTo(s: Stake, acc: Account, m: nat): nat {
    (acc.paid + s.dividend) * FRACTION + Accrued(s, m)
  }

  function OwedAmounts(stakes: map<Address, Stake>, accounts: map<Address, Account>, m: nat): map<Address, nat> {
    map a | a in stakes && a in accounts :: OwedTo(stakes[a], accounts[a], m)
  }

  /** Eager credit no longer owed: what past settlements have cut off. */
  ghost function Forgone(w: World): int {
    ForgoneOf(w.pool.stakes, w.ledger.accounts, w.pool.multiplier)
  }

  ghost function ForgoneOf(stakes: map<Address, Stake>, accounts: map<Address, Account>, m: nat): int {
    Sum(EagerCredits(accounts)) - Sum(OwedAmounts(stakes, accounts, m))
  }

  lemma {:induction false} PutOwed(stakes: map<Address, Stake>, accounts: map<Address, Account>, m: nat,
                                   who: Address, s: Stake, acc: Account)
    requires accounts.Keys == stakes.Keys
    ensures Sum(OwedAmounts(stakes[who := s], accounts[who := acc], m))
            + (if who in stakes then OwedTo(stakes[who], accounts[who], m) else 0)
            == Sum(OwedAmounts(stakes, accounts, m)) + OwedTo(s, acc, m)
  {
    SumPut(OwedAmounts(stakes, accounts, m), who, OwedTo(s, acc, m));
    assert OwedAmounts(stakes[who := s], accounts[who := acc], m)
        == OwedAmounts(stakes, accounts, m)[who := OwedTo(s, acc, m)];
  }

  /** Replacing one record and account without touching the eager credit moves the forgone total by the change
      in what that staker is owed. */
  lemma {:induction false} PutForgone(w: World, v: World, who: Address, s: Stake, acc: Account)
    requires w.ledger.accounts.Keys == w.pool.stakes.Keys
    requires v.pool.stakes == w.pool.stakes[who := s] && v.ledger.accounts == w.ledger.accounts[who := acc]
    requires v.pool.multiplier == w.pool.multiplier
    requires acc.eager == if who in w.pool.stakes then w.ledger.accounts[who].eager else 0
    ensures Forgone(v) == Forgone(w) - OwedTo(s, acc, w.pool.multiplier)
                          + if who in w.pool.stakes
                            then OwedTo(w.pool.stakes[who], w.ledger.accounts[who], w.pool.multiplier) else 0
  {
    PutOwed(w.pool.stakes, w.ledger.accounts, w.pool.multiplier, who, s, acc);
    PutCredit(w.ledger.accounts, who, acc);
  }

  lemma {:induction false} PutExcess(w: World, v: World, who: Address, acc: Account)
    requires v.ledger.accounts == w.ledger.accounts[who := acc]
    requires v.ledger.deposited == w.ledger.deposited && v.pool.residual == w.pool.residual
    requires acc.eager == if who in w.ledger.accounts then w.ledger.accounts[who].eager else 0
    ensures Excess(v) == Excess(w)
  {
    PutCredit(w.ledger.accounts, who, acc);
  }

  /** Settling turns what has accrued into whole units; the rest is gone. */
  lemma {:induction false} OwedSettled(s: Stake, acc: Account, m: Uint128)
    requires s.Settled(m).Ok?
    ensures OwedTo(s.Settled(m).value, acc, m) == OwedTo(s, acc, m) - Accrued(s, m) % FRACTION
    ensures s.Settled(m).value.multiplier == m
  {
    WholePart(Accrued(s, m));
    assert s.Settled(m).value.dividend == s.dividend + Accrued(s, m) / FRACTION;
  }

  /** What a staker is owed does not depend on a settled record's stake nor on any token amount outside it. */
  lemma OwedUnmoved(s: Stake, r: Stake, acc: Account, k: Account, m: nat)
    requires r.dividend == s.dividend && k.paid == acc.paid && r.multiplier == s.multiplier
    requires r.staked == s.staked || s.multiplier == m
    ensures OwedTo(r, k, m) == OwedTo(s, acc, m)
  {
  }

  lemma {:induction false} ReceiveForgone(w: World, c: Call)
    requires Inv(w) && c.action.Receive? && Apply(w.pool, c).Ok?
    ensures Forgone(Next(w, c)) == Forgone(w) + RoundedOff(w.pool, c)
    ensures Excess(Next(w, c)) == Excess(w)
  {
    var who, m, v := c.action.tokenSender, w.pool.multiplier, Next(w, c);
    ReceiveNext(w, c);
    var r, k := v.pool.stakes[who], v.ledger.accounts[who];
    PutForgone(w, v, who, r, k);
    PutExcess(w, v, who, k);
    if who in w.pool.stakes {
      var s, acc := w.pool.stakes[who], w.ledger.accounts[who];
      OwedSettled(s, acc, m);
      OwedUnmoved(s.Settled(m).value, r, acc, k, m);
    }
  }

  lemma {:induction false} UnstakeForgone(w: World, c: Call)
    requires Inv(w) && c.action.Unstake? && Apply(w.pool, c).Ok?
    ensures Forgone(Next(w, c)) == Forgone(w) + RoundedOff(w.pool, c)
    ensures Excess(Next(w, c)) == Excess(w)
  {
    var who, m, v := c.env.sender, w.pool.multiplier, Next(w, c);
    UnstakeNext(w, c);
    var s, acc, r, k := w.pool.stakes[who], w.ledger.accounts[who], v.pool.stakes[who], v.ledger.accounts[who];
    PutForgone(w, v, who, r, k);
    PutExcess(w, v, who, k);
    OwedSettled(s, acc, m);
    OwedUnmoved(s.Settled(m).value, r, acc, k, m);
  }

  /** A token withdrawal leaves everything that dividends depend on. */
  lemma {:induction false} WithdrawTokensRecord(w: World, c: Call) returns (r: Stake, k: Account)
    requires c.action.WithdrawTokens? && Apply(w.pool, c).Ok? && c.env.sender in w.ledger.accounts
    ensures c.env.sender in w.pool.stakes
    ensures var s, acc, v := w.pool.stakes[c.env.sender], w.ledger.accounts[c.env.sender], Next(w, c);
            && v.pool == w.pool.(stakes := w.pool.stakes[c.env.sender := r])
            && v.ledger.accounts == w.ledger.accounts[c.env.sender := k]
            && v.ledger.deposited == w.ledger.deposited
            && (r.staked, r.dividend, r.multiplier) == (s.staked, s.dividend, s.multiplier)
            && (k.paid, k.eager) == (acc.paid, acc.eager)
  {
    WithdrawTokensNext(w, c);
    var released := w.pool.stakes[c.env.sender].Released(c.env.now, w.pool.config.unstakeDelay).value;
    r := released.(unstaked := released.unstaked - c.action.amount);
    k := w.ledger.accounts[c.env.sender].(withdrawn := w.ledger.accounts[c.env.sender].withdrawn + c.action.amount);
  }

  lemma {:induction false} WithdrawTokensForgone(w: World, c: Call)
    requires Inv(w) && c.action.WithdrawTokens? && Apply(w.pool, c).Ok?
    ensures Forgone(Next(w, c)) == Forgone(w)
    ensures Excess(Next(w, c)) == Excess(w)
  {
    var who, m, v := c.env.sender, w.pool.multiplier, Next(w, c);
    var r, k := WithdrawTokensRecord(w, c);
    PutForgone(w, v, who, r, k);
    PutExcess(w, v, who, k);
    OwedUnmoved(w.pool.stakes[who], r, w.ledger.accounts[who], k, m);
  }

  lemma {:induction false} WithdrawDividendsForgone(w: World, c: Call)
    requires Inv(w) && c.action.WithdrawDividends? && Apply(w.pool, c).Ok?
    ensures Forgone(Next(w, c)) == Forgone(w) + RoundedOff(w.pool, c)
    ensures Excess(Next(w, c)) == Excess(w)
  {
    var who, v := c.env.sender, Next(w, c);
    WithdrawDividendsNext(w, c);
    PutForgone(w, v, who, v.pool.stakes[who], v.ledger.accounts[who]);
    PutExcess(w, v, who, v.ledger.accounts[who]);
    OwedSettled(w.pool.stakes[who], w.ledger.accounts[who], w.pool.multiplier);
  }

  lemma {:induction false} OwedCredited(s: Stake, acc: Account, credited: Account, m: nat, perStake: nat)
    requires s.multiplier <= m && credited.paid == acc.paid
    ensures OwedTo(s, credited, m + perStake) == OwedTo(s, acc, m) + s.staked * perStake
  {
    assert s.staked * (m + perStake - s.multiplier) == s.staked * (m - s.multiplier) + s.staked * perStake;
  }

  predicate SettledUpTo(stakes: map<Address, Stake>, m: nat) {
    forall a | a in stakes :: stakes[a].multiplier <= m
  }

  lemma {:induction false} SoundIsSettledUpTo(w: World)
    requires AllSound(w)
    ensures SettledUpTo(w.pool.stakes, w.pool.multiplier)
  {
    forall a | a in w.pool.stakes
      ensures w.pool.stakes[a].multiplier <= w.pool.multiplier
    {
      assert Sound(w.pool.stakes[a], w.ledger.accounts[a], w.pool.multiplier, w.clock, w.pool.config.unstakeDelay);
    }
  }

  lemma {:induction false} CreditOwed(stakes: map<Address, Stake>, accounts: map<Address, Account>, m: nat,
                                      perStake: nat)
    requires accounts.Keys == stakes.Keys
    requires SettledUpTo(stakes, m)
    ensures Sum(OwedAmounts(stakes, CreditAll(accounts, stakes, perStake), m + perStake))
            == Sum(OwedAmounts(stakes, accounts, m)) + Times(Sum(StakedAmounts(stakes)), perStake)
  {
    var credited := CreditAll(accounts, stakes, perStake);
    var before, after := OwedAmounts(stakes, accounts, m), OwedAmounts(stakes, credited, m + perStake);
    forall a | a in stakes
      ensures after[a] == before[a] + StakedAmounts(stakes)[a] * perStake
    {
      OwedCredited(stakes[a], accounts[a], credited[a], m, perStake);
    }
    SumLinear(after, before, StakedAmounts(stakes), perStake);
  }

  /** A deposit raises what everybody is owed and what everybody is credited alike. */
  lemma {:induction false} CreditForgone(stakes: map<Address, Stake>, accounts: map<Address, Account>, m: nat,
                                         perStake: nat)
    requires accounts.Keys == stakes.Keys
    requires SettledUpTo(stakes, m)
    ensures ForgoneOf(stakes, CreditAll(accounts, stakes, perStake), m + perStake) == ForgoneOf(stakes, accounts, m)
  {
    CreditTotals(stakes, accounts, perStake);
    CreditOwed(stakes, accounts, m, perStake);
  }

  lemma {:induction false} CreditedForgone(w: World, v: World, perStake: nat)
    requires w.ledger.accounts.Keys == w.pool.stakes.Keys
    requires SettledUpTo(w.pool.stakes, w.pool.multiplier)
    requires v.pool.stakes == w.pool.stakes && v.pool.multiplier == w.pool.multiplier + perStake
    requires v.ledger.accounts == CreditAll(w.ledger.accounts, w.pool.stakes, perStake)
    ensures Forgone(v) == Forgone(w)
  {
    CreditForgone(w.pool.stakes, w.ledger.accounts, w.pool.multiplier, perStake);
  }

  lemma {:induction false} DepositForgone(w: World, c: Call)
    requires AllSound(w) && c.action.Deposit? && Apply(w.pool, c).Ok?
    ensures Forgone(Next(w, c)) == Forgone(w)
  {
    DepositNext(w, c);
    DepositFacts(w.pool, c.env);
    SoundIsSettledUpTo(w);
    CreditedForgone(w, Next(w, c), Next(w, c).pool.multiplier - w.pool.multiplier);
  }

  // ----- Whole runs

  lemma {:induction false} NextAccount(w: World, c: Call)
    requires Inv(w)
    ensures Excess(Next(w, c)) == Excess(w) + OverCredit(w.pool, c)
    ensures Forgone(Next(w, c)) == Forgone(w) + RoundedOff(w.pool, c)
  {
    if Apply(w.pool, c).Ok? {
      match c.action
      case Deposit =>
        DepositExcess(w, c);
        DepositForgone(w, c);
      case Receive(_, _) => ReceiveForgone(w, c);
      case Unstake(_) => UnstakeForgone(w, c);
      case WithdrawTokens(_, _) => WithdrawTokensForgone(w, c);
      case WithdrawDividends(_) => WithdrawDividendsForgone(w, c);
    }
  }

  ghost predicate Accounted(start: World, calls: seq<Call>) {
    && Excess(Run(start, calls)) == OverCredits(start, calls)
    && Forgone(Run(start, calls)) == RoundedOffs(start, calls)
  }

  lemma {:induction false} AccountedStep(start: World, calls: seq<Call>)
    requires calls != []
    requires Inv(Run(start, calls[..|calls| - 1])) && Accounted(start, calls[..|calls| - 1])
    ensures Accounted(start, calls)
  {
    NextAccount(Run(start, calls[..|calls| - 1]), calls[|calls| - 1]);
  }

  lemma {:induction false} AccountedStart(config: Config, clock: nat)
    ensures Accounted(Start(config, clock), [])
  {
    assert EagerCredits(map[]) == map[] && OwedAmounts(map[], map[], 0) == map[];
  }

  /** Credit beyond the released funds comes from doubly credited fractions only, and credit no longer owed is what
      the settlements cut off. */
  lemma {:induction false} RunAccount(config: Config, clock: nat, calls: seq<Call>)
    requires Timely(clock, calls)
    ensures Accounted(Start(config, clock), calls)
  {
    if calls == [] {
      AccountedStart(config, clock);
    } else {
      RunAccount(config, clock, calls[..|calls| - 1]);
      RunKeepsInv(config, clock, calls[..|calls| - 1]);
      AccountedStep(Start(config, clock), calls);
    }
  }

  lemma {:induction false} OwedIsCommitted(w: World)
    requires Inv(w)
    ensures Sum(OwedAmounts(w.pool.stakes, w.ledger.accounts, w.pool.multiplier))
            == Sum(OpenFractions(w.pool)) + (Committed(w) - w.pool.residual) * FRACTION
  {
    var owed := OwedAmounts(w.pool.stakes, w.ledger.accounts, w.pool.multiplier);
    var received := Received(w.pool, w.ledger);
    forall a | a in owed
      ensures owed[a] == OpenFractions(w.pool)[a] + received[a] * FRACTION
    {
      WholePart(Accrued(w.pool.stakes[a], w.pool.multiplier));
    }
    SumLinear(owed, OpenFractions(w.pool), received, FRACTION);
    ReceivedSum(w);
  }

  /** The books close exactly: in fractions of a unit, the commitments and everything rounded away (by past
      settlements and in the open positions) equal the deposits and everything credited twice. Hence the pool is
      solvent after a run exactly when no more was credited twice than was rounded away; in particular it is while
      the double credits stay below one unit. */
  lemma {:induction false} SolventIff(config: Config, clock: nat, calls: seq<Call>)
    requires Timely(clock, calls)
    ensures var start := Start(config, clock);
            var w := Run(start, calls);
            var roundedAway := RoundedOffs(start, calls) + Sum(OpenFractions(w.pool));
            && Committed(w) * FRACTION + roundedAway == w.ledger.deposited * FRACTION + OverCredits(start, calls)
            && (Committed(w) <= w.ledger.deposited <==> OverCredits(start, calls) <= roundedAway)
            && (OverCredits(start, calls) < FRACTION ==> Committed(w) <= w.ledger.deposited)
  {
    RunKeepsInv(config, clock, calls);
    RunAccount(config, clock, calls);
    OwedIsCommitted(Run(Start(config, clock), calls));
  }
}
