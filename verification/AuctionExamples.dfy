/** Ordinary runs of the auction that reach its surprising corners. */
module AuctionExamples {
  import opened Prelude
  import opened LeaseMath
  import opened NameStates
  import opened Auctions
  import opened AuctionRuns
  import opened AuctionInvariant
  import opened Ownership
  import opened BiddingWar
  import opened Views
  import opened Paging
  import Terra

  // ----- Runs on one name

  /** The run leaves the name in the given state, in a contract that satisfies its invariant. */
  predicate Reaches(config: Config, calls: seq<Call>, name: Name, ns: NameState) {
    && calls != []
    && Timely(0, calls)
    && var w := Run(config, Start(0), calls);
       && name in w.names
       && w.names[name] == ns
       && Inv(config, w)
       && w.clock == calls[|calls| - 1].env.now
  }

  lemma {:induction false} RunSnoc(config: Config, w: World, calls: seq<Call>, c: Call)
    ensures Run(config, w, calls + [c]) == Next(config, Run(config, w, calls), c)
  {
    assert (calls + [c])[..|calls|] == calls;
  }

  lemma {:induction false} ReachFirst(config: Config, c: Call, ns: NameState)
    requires Apply(config, None, c).Ok? && Apply(config, None, c).value.state == ns
    ensures Reaches(config, [c], c.name, ns)
  {
    RunSnoc(config, Start(0), [], c);
    assert [] + [c] == [c];
    NextKeepsInv(config, Start(0), c);
    NextStores(config, Start(0), c, Apply(config, None, c).value);
  }

  lemma {:induction false} ReachNext(config: Config, calls: seq<Call>, c: Call, ns: NameState, after: NameState)
    requires Reaches(config, calls, c.name, ns)
    requires calls[|calls| - 1].env.now <= c.env.now
    requires Apply(config, Some(ns), c).Ok? && Apply(config, Some(ns), c).value.state == after
    ensures Reaches(config, calls + [c], c.name, after)
  {
    var w := Run(config, Start(0), calls);
    RunSnoc(config, Start(0), calls, c);
    NextKeepsInv(config, w, c);
    NextStores(config, w, c, Apply(config, Some(ns), c).value);
  }

  function ExampleCall(sender: Address, now: Uint64, funds: Uint128, action: Action): Call {
    Call(Env(now, sender, funds, Terra.TaxPolicy(0, 0)), EXAMPLE_NAME, action)
  }

  function FirstLease(deposit: Uint128): NameState {
    NameState("a", None, 0, 86_400, 10, deposit, None, 0)
  }

  lemma {:induction false} FirstLeaseReached(config: Config, bid: Call, deposit: Uint128)
    requires config == EXAMPLE_CONFIG && bid == ExampleBid("a", 10, 86_400, deposit)
    requires 0 < deposit <= 1_000_000
    ensures Reaches(config, [bid], EXAMPLE_NAME, FirstLease(deposit))
  {
    ReachFirst(config, bid, FirstLease(deposit));
  }

  // ----- An expired name comes back

  /** A lease of a hundred seconds from time 10 has run out at time 150 and nobody owns the name; a funding of a
      hundred units gives it back to the last owner at that very second. */
  lemma {:induction false} ExpiredNameIsRevived(config: Config, bid: Call, fund: Call)
    requires config == EXAMPLE_CONFIG
    requires bid == ExampleBid("a", 10, 86_400, 100) && fund == ExampleCall("z", 150, 100, Fund("a"))
    ensures var lost, revived := FirstLease(100), FirstLease(200);
            && Reaches(config, [bid], EXAMPLE_NAME, lost)
            && NameOwner(config, Some(lost), 150) == None
            && Reaches(config, [bid, fund], EXAMPLE_NAME, revived)
            && NameOwner(config, Some(revived), 150) == Some("a")
  {
    var lost := FirstLease(100);
    FirstLeaseReached(config, bid, 100);
    assert Stored(config, lost, 150);
    assert AfterFund(config, lost, fund.env, "a").Ok?;
    FundRevivesIff(config, lost, fund.env, "a");
    ReachNext(config, [bid], fund, lost, FirstLease(200));
    assert [bid] + [fund] == [bid, fund];
  }

  // ----- An expired name cannot be viewed

  /** The same lease can be viewed at its expiry second, without an owner, and no longer at the next; a page that
      holds the name fails with it. */
  lemma {:induction false} ExpiredNameCannotBeViewed(config: Config, bid: Call)
    requires config == EXAMPLE_CONFIG && bid == ExampleBid("a", 10, 86_400, 100)
    ensures var lost, names := FirstLease(100), Run(config, Start(0), [bid]).names;
            && Reaches(config, [bid], EXAMPLE_NAME, lost)
            && View(config, 110, lost).Ok? && View(config, 110, lost).value.bidOwner == None
            && View(config, 111, lost).Err?
            && ViewAll(config, 111, names, [EXAMPLE_NAME]).Err?
  {
    var lost := FirstLease(100);
    FirstLeaseReached(config, bid, 100);
    assert Stored(config, lost, 110) && Stored(config, lost, 111);
    ViewDefinedIff(config, lost, 110);
    ViewDefinedIff(config, lost, 111);
    ExpiredNameBlocksPage(config, 111, Run(config, Start(0), [bid]).names, [EXAMPLE_NAME], EXAMPLE_NAME);
  }

  // ----- View and status disagree

  /** A free bid on a fresh name at time 10, viewed at time 200: the reported times place it in force, the status is
      still a transition delay. It takes a clock below the sum of the counter and transition delays, here 1100. */
  lemma {:induction false} ViewAheadOfStatus(config: Config, bid: Call)
    requires config == EXAMPLE_CONFIG && bid == ExampleBid("a", 10, 0, 0)
    ensures var ns := NameState("a", None, 0, 0, 10, 0, None, 0);
            && Reaches(config, [bid], EXAMPLE_NAME, ns)
            && View(config, 200, ns).Ok?
            && PhaseFromTimes(View(config, 200, ns).value, 200) == InForce
            && ns.Status(config, 200) == Ok(TransitionDelay("a", 0))
  {
    var ns := NameState("a", None, 0, 0, 10, 0, None, 0);
    ReachFirst(config, bid, ns);
    StoredStatus(config, ns, 200);
    ViewDefinedIff(config, ns, 200);
    ViewAgreesWithStatusIff(config, ns, 200);
  }

  // ----- A fresh name outbid in its first counter delay

  /** A name claimed free of charge at 5000 and outbid at 5050 had no owner to protect: once the counter delay is over
      the rival is in a transition delay counted from their bid. */
  lemma {:induction false} FreshNameOutbid(config: Config, claim: Call, rival: Call)
    requires config == EXAMPLE_CONFIG && claim == CLAIM && rival == ExampleBid("b", 5_050, 86_400, 1_000)
    ensures var ns := NameState("b", None, 5_050, 86_400, 5_050, 1_000, None, 0);
            && Reaches(config, [claim, rival], EXAMPLE_NAME, ns)
            && NameOwner(config, Some(ns), 5_050) == None
            && ns.Status(config, 5_160) == Ok(TransitionDelay("b", 5_050))
  {
    var first := NameState("a", None, 0, 0, 5_000, 0, None, 0);
    var ns := NameState("b", None, 5_050, 86_400, 5_050, 1_000, None, 0);
    ExampleClaim();
    ReachFirst(config, claim, first);
    FreshRival(config, first, rival);
    ReachNext(config, [claim], rival, first, ns);
    assert [claim] + [rival] == [claim, rival];
    StoredStatus(config, ns, 5_050);
    StoredStatus(config, ns, 5_160);
  }

  lemma {:induction false} FreshRival(config: Config, ns: NameState, c: Call)
    requires config == EXAMPLE_CONFIG && c == ExampleBid("b", 5_050, 86_400, 1_000)
    requires ns == NameState("a", None, 0, 0, 5_000, 0, None, 0)
    ensures var after := NameState("b", None, 5_050, 86_400, 5_050, 1_000, None, 0);
            Apply(config, Some(ns), c) == Ok(Outcome(after, [ToCollector(1_000, 1_000)]))
  {
    assert CheckBid(config, ns, c.env, 86_400) == Ok(0);
    assert BidMessages(config, ns, c.env, 0) == Ok([] + [ToCollector(1_000, 1_000)]);
    assert [] + [ToCollector(1_000, 1_000)] == [ToCollector(1_000, 1_000)];
  }

  // ----- A transfer that does not last

  function Reset(nameOwner: Address): NameState {
    NameState("a", None, 0, 86_400, 200, 810, Some(nameOwner), 0)
  }

  lemma {:induction false} ResetByRate(config: Config, c: Call)
    requires config == EXAMPLE_CONFIG && c == ExampleCall("a", 200, 0, SetRate(86_400))
    ensures Apply(config, Some(FirstLease(1_000)), c) == Ok(Outcome(Reset("a"), []))
  {
    StoredStatus(config, FirstLease(1_000), 200);
  }

  lemma {:induction false} ResetTransferred(config: Config, c: Call)
    requires config == EXAMPLE_CONFIG && c == ExampleCall("a", 210, 0, TransferOwner("b"))
    ensures Apply(config, Some(Reset("a")), c) == Ok(Outcome(Reset("b"), []))
  {
    StoredStatus(config, Reset("a"), 210);
  }

  lemma {:induction false} ResetOwners(config: Config)
    requires config == EXAMPLE_CONFIG
    ensures NameOwner(config, Some(Reset("b")), 210) == Some("b")
    ensures NameOwner(config, Some(Reset("b")), 310) == Some("a")
  {
    StoredStatus(config, Reset("b"), 210);
    StoredStatus(config, Reset("b"), 310);
  }

  /** An owner who changes the rate and then transfers the name inside the counter delay that this opened has it
      back when the delay is over. */
  lemma {:induction false} TransferReverts(config: Config, bid: Call, setRate: Call, transfer: Call)
    requires config == EXAMPLE_CONFIG
    requires bid == ExampleBid("a", 10, 86_400, 1_000)
    requires setRate == ExampleCall("a", 200, 0, SetRate(86_400))
    requires transfer == ExampleCall("a", 210, 0, TransferOwner("b"))
    ensures Reaches(config, [bid, setRate, transfer], EXAMPLE_NAME, Reset("b"))
    ensures NameOwner(config, Some(Reset("b")), 210) == Some("b")
    ensures NameOwner(config, Some(Reset("b")), 310) == Some("a")
  {
    FirstLeaseReached(config, bid, 1_000);
    ResetByRate(config, setRate);
    ReachNext(config, [bid], setRate, FirstLease(1_000), Reset("a"));
    assert [bid] + [setRate] == [bid, setRate];
    ResetTransferred(config, transfer);
    ReachNext(config, [bid, setRate], transfer, Reset("a"), Reset("b"));
    assert [bid, setRate] + [transfer] == [bid, setRate, transfer];
    ResetOwners(config);
  }
}
