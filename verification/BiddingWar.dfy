/** Counter-bidding: a war for a name never costs its owner anything they win back. */
module BiddingWar {
  import opened Prelude
  import Terra
  import opened NameStates
  import opened Auctions
  import opened AuctionRuns
  import opened AuctionInvariant
  import opened Ownership

  /** The name is being fought over while `a` owns it since `r`, or while nobody does: the past is on record
      untouched, and the reference time to come is the old one if `a` leads, the leading bid's time otherwise. */
  predicate AtWar(ns: NameState, a: Option<Address>, r: nat) {
    && ns.previousOwner == a
    && ns.previousReference == r
    && ns.transitionReference == if Some(ns.owner) == a then r else ns.beginTime
  }

  predicate InCounterDelay(config: Config, ns: NameState, now: nat) {
    now < ns.beginTime + config.counterDelay && !RunOut(ns, now)
  }

  /** Later bids raise the rate; anything else leaves leader, time and reference alone. */
  predicate Raised(before: NameState, after: NameState) {
    || before.rate < after.rate
    || (before.rate == after.rate && before.owner == after.owner && before.beginTime == after.beginTime)
  }

  /** The first shot: a rival's bid, inside a counter delay or after it, or the owner's own change of rate. Whoever
      holds the name goes on record, nobody if it is in its first counter delay. */
  lemma {:induction false} WarOpens(config: Config, ns: NameState, c: Call)
    requires Stored(config, ns, c.env.now)
    requires !RunOut(ns, c.env.now)
    requires c.action.Bid? || c.action.SetRate?
    requires Apply(config, Some(ns), c).Ok?
    ensures var after := Apply(config, Some(ns), c).value.state;
            && AtWar(after, Holder(config, ns, c.env.now), HeldSince(config, ns, c.env.now))
            && after.beginTime == c.env.now
            && (c.action.Bid? ==> after.rate > ns.rate && after.owner == c.env.sender != ns.owner)
            && (c.action.SetRate? ==> after.owner == c.env.sender == ns.owner)
  {
    StoredStatus(config, ns, c.env.now);
  }

  /** Each further call inside the counter delay, other than a transfer, keeps the war going for the same stake. */
  lemma {:induction false} WarGoesOn(config: Config, ns: NameState, c: Call, a: Option<Address>,
                                   r: nat)
    requires Stored(config, ns, c.env.now) && InCounterDelay(config, ns, c.env.now)
    requires AtWar(ns, a, r)
    requires !c.action.TransferOwner?
    requires Apply(config, Some(ns), c).Ok?
    ensures var after := Apply(config, Some(ns), c).value.state;
            && AtWar(after, a, r)
            && Raised(ns, after)
            && (c.action.Bid? ==> after.rate > ns.rate && after.owner == c.env.sender && after.beginTime == c.env.now)
            && (!c.action.Bid? ==> after.owner == ns.owner && after.beginTime == ns.beginTime)
  {
    StoredStatus(config, ns, c.env.now);
  }

  /** Every call on the name falls inside the counter delay of the bid then leading, before its lease runs out,
      and none of them is a transfer. Calls on other names are free. */
  predicate Fought(config: Config, w: World, calls: seq<Call>, name: Name) {
    forall i | 0 <= i < |calls| && calls[i].name == name ::
      var v := Run(config, w, calls[..i]);
      name in v.names && InCounterDelay(config, v.names[name], calls[i].env.now) && !calls[i].action.TransferOwner?
  }

  /** The bidder of the last accepted bid on the opening call's name and its time; the opening call's own, if none
      was accepted after it. */
  function Leader(config: Config, w: World, opening: Call, calls: seq<Call>): (Address, Uint64) {
    if calls == [] then (opening.env.sender, opening.env.now)
    else
      var n := |calls| - 1;
      var names := Run(config, w, calls[..n]).names;
      var c := calls[n];
      if c.name == opening.name && c.action.Bid? && Apply(config, Entry(names, c.name), c).Ok?
      then (c.env.sender, c.env.now)
      else Leader(config, w, opening, calls[..n])
  }

  lemma {:induction false} WarRuns(config: Config, w: World, opening: Call, calls: seq<Call>,
                                 a: Option<Address>, r: nat)
    requires Inv(config, w) && Timely(w.clock, calls)
    requires opening.name in w.names && AtWar(w.names[opening.name], a, r)
    requires (w.names[opening.name].owner, w.names[opening.name].beginTime) == (opening.env.sender, opening.env.now)
    requires Fought(config, w, calls, opening.name)
    ensures var v, name := Run(config, w, calls), opening.name;
            && name in v.names
            && AtWar(v.names[name], a, r)
            && Raised(w.names[name], v.names[name])
            && (v.names[name].owner, v.names[name].beginTime) == Leader(config, w, opening, calls)
  {
    if calls != [] {
      var n, name := |calls| - 1, opening.name;
      var before := Run(config, w, calls[..n]);
      FoughtPrefix(config, w, calls, n, name);
      WarRuns(config, w, opening, calls[..n], a, r);
      InvFrom(config, w, calls[..n]);
      RunClock(config, w, calls[..n]);
      assert before == Run(config, w, calls[..n]);
      WarStep(config, before, calls[n], name, a, r);
    }
  }

  lemma {:induction false} WarStep(config: Config, w: World, c: Call, name: Name, a: Option<Address>, r: nat)
    requires Inv(config, w) && w.clock <= c.env.now
    requires name in w.names && AtWar(w.names[name], a, r)
    requires c.name == name ==> InCounterDelay(config, w.names[name], c.env.now) && !c.action.TransferOwner?
    ensures var ns, v := w.names[name], Next(config, w, c);
            && name in v.names
            && AtWar(v.names[name], a, r)
            && Raised(ns, v.names[name])
            && (v.names[name].owner, v.names[name].beginTime)
               == if c.name == name && c.action.Bid? && Apply(config, Some(ns), c).Ok?
                  then (c.env.sender, c.env.now)
                  else (ns.owner, ns.beginTime)
  {
    var ns := w.names[name];
    if c.name == name && Apply(config, Some(ns), c).Ok? {
      assert Kept(config, ns, w.tenancies[name], w.clock);
      StoredLater(config, ns, w.clock, c.env.now);
      WarGoesOn(config, ns, c, a, r);
    }
  }

  lemma {:induction false} FoughtPrefix(config: Config, w: World, calls: seq<Call>, n: nat, name: Name)
    requires Fought(config, w, calls, name)
    requires n <= |calls|
    ensures Fought(config, w, calls[..n], name)
  {
    forall i | 0 <= i < n && calls[..n][i].name == name
      ensures var v := Run(config, w, calls[..n][..i]);
              && name in v.names
              && InCounterDelay(config, v.names[name], calls[..n][i].env.now)
              && !calls[..n][i].action.TransferOwner?
    {
      assert calls[..n][..i] == calls[..i];
    }
  }

  /** The run goes to war over the opening call's name: in a reachable state an accepted bid or change of rate on the
      running name, then calls among which those on the name all fall inside the counter delay of the moment. */
  predicate War(config: Config, w: World, opening: Call, calls: seq<Call>) {
    && Inv(config, w) && w.clock <= opening.env.now && Timely(opening.env.now, calls)
    && opening.name in w.names
    && !RunOut(w.names[opening.name], opening.env.now)
    && (opening.action.Bid? || opening.action.SetRate?)
    && Apply(config, Some(w.names[opening.name]), opening).Ok?
    && Fought(config, Next(config, w, opening), calls, opening.name)
  }

  /** Bidding-war restoration. Start from any reachable state, open with an accepted bid or change of rate on a running
      name, and let any calls follow, those on the name all inside the current counter delay and no transfers
      among them. Then throughout, and at the end, the holder at the start, if any, and their reference time are on
      record as they were, the last accepted bid leads, the rate has never fallen and rises with every new leader,
      and the reference time the winner starts from is the old one if the holder leads and the time of the leading
      bid otherwise. */
  lemma {:induction false} WarRestoresOwner(config: Config, w: World, opening: Call, calls: seq<Call>)
    requires War(config, w, opening, calls)
    ensures var before := w.names[opening.name];
            var holder := Holder(config, before, opening.env.now);
            var started := Next(config, w, opening);
            var end := Run(config, started, calls);
            && opening.name in end.names
            && AtWar(end.names[opening.name], holder, HeldSince(config, before, opening.env.now))
            && Raised(started.names[opening.name], end.names[opening.name])
            && (opening.action.Bid? ==> end.names[opening.name].rate > before.rate)
            && (InCounterDelay(config, end.names[opening.name], end.clock) ==>
                  OwnerIn(config, end, opening.name) == holder)
            && (end.names[opening.name].owner, end.names[opening.name].beginTime)
               == Leader(config, started, opening, calls)
            && Stored(config, end.names[opening.name], end.clock)
  {
    var ns := w.names[opening.name];
    assert Kept(config, ns, w.tenancies[opening.name], w.clock);
    StoredLater(config, ns, w.clock, opening.env.now);
    WarOpens(config, ns, opening);
    NextKeepsInv(config, w, opening);
    var started := Next(config, w, opening);
    var holder, since := Holder(config, ns, opening.env.now), HeldSince(config, ns, opening.env.now);
    WarRuns(config, started, opening, calls, holder, since);
    InvFrom(config, started, calls);
    var end := Run(config, started, calls);
    assert Kept(config, end.names[opening.name], end.tenancies[opening.name], end.clock);
    StoredStatus(config, end.names[opening.name], end.clock);
  }

  lemma {:induction false} SettledStatus(config: Config, ns: NameState, a: Option<Address>, r: Uint64, now: Uint64)
    requires Stored(config, ns, now) && AtWar(ns, a, r)
    requires !RunOut(ns, now) && ns.beginTime + config.counterDelay <= now
    requires config.counterDelay + config.transitionDelay < U64
    ensures var since := if Some(ns.owner) == a then r else ns.beginTime;
            ns.Status(config, now) == Ok(if now < since + config.counterDelay + config.transitionDelay
                                         then TransitionDelay(ns.owner, since)
                                         else Valid(ns.owner, since))
  {
    StoredStatus(config, ns, now);
  }

  /** When the dust settles after such a war: a holder who won is classified by the old reference time as if nothing
      had happened, a rival who won starts a full transition delay at the winning bid. */
  lemma {:induction false} WarEnds(config: Config, w: World, opening: Call, calls: seq<Call>, now: Uint64)
    requires War(config, w, opening, calls)
    requires var end := Run(config, Next(config, w, opening), calls);
             && end.clock <= now
             && opening.name in end.names
             && !RunOut(end.names[opening.name], now)
             && end.names[opening.name].beginTime + config.counterDelay <= now
    requires config.counterDelay + config.transitionDelay < U64
    ensures var before := w.names[opening.name];
            var started := Next(config, w, opening);
            var (winner, time) := Leader(config, started, opening, calls);
            var since := if Some(winner) == Holder(config, before, opening.env.now)
                         then HeldSince(config, before, opening.env.now)
                         else time;
            Run(config, started, calls).names[opening.name].Status(config, now)
            == Ok(if now < since + config.counterDelay + config.transitionDelay
                  then TransitionDelay(winner, since)
                  else Valid(winner, since))
  {
    var before := w.names[opening.name];
    var end := Run(config, Next(config, w, opening), calls);
    WarRestoresOwner(config, w, opening, calls);
    StoredLater(config, end.names[opening.name], end.clock, now);
    SettledStatus(config, end.names[opening.name], Holder(config, before, opening.env.now),
                  HeldSince(config, before, opening.env.now), now);
  }

  /** A war over a name that nobody holds: claimed while free, outbid inside its first counter delay, and then over
      any number of further bids, it has no previous owner, and whoever leads, the first claimant included, starts
      a full transition delay at the leading bid. */
  lemma {:induction false} FreeNameFoughtOver(config: Config, w: World, claim: Call, rival: Call, calls: seq<Call>,
                                              now: Uint64)
    requires Inv(config, w) && w.clock <= claim.env.now <= rival.env.now
    requires claim.action.Bid? && Apply(config, Entry(w.names, claim.name), claim).Ok?
    requires claim.name in w.names ==> RunOut(w.names[claim.name], claim.env.now)
    requires var claimed := Next(config, w, claim);
             && rival.name == claim.name && rival.action.Bid?
             && claim.name in claimed.names
             && rival.env.now < claim.env.now + config.counterDelay
             && War(config, claimed, rival, calls)
    requires var end := Run(config, Next(config, Next(config, w, claim), rival), calls);
             && end.clock <= now
             && claim.name in end.names
             && !RunOut(end.names[claim.name], now)
             && end.names[claim.name].beginTime + config.counterDelay <= now
    requires config.counterDelay + config.transitionDelay < U64
    ensures var started := Next(config, Next(config, w, claim), rival);
            var ns := Run(config, started, calls).names[claim.name];
            var (winner, time) := Leader(config, started, rival, calls);
            && ns.previousOwner == None
            && ns.previousReference == 0
            && ns.transitionReference == ns.beginTime == time
            && ns.Status(config, now) == Ok(if now < time + config.counterDelay + config.transitionDelay
                                            then TransitionDelay(winner, time)
                                            else Valid(winner, time))
  {
    var claimed := Next(config, w, claim);
    var entry := Entry(w.names, claim.name);
    if entry.Some? {
      assert Kept(config, entry.value, w.tenancies[claim.name], w.clock);
      StoredLater(config, entry.value, w.clock, claim.env.now);
    }
    ClaimedRecord(config, entry, claim);
    WarRestoresOwner(config, claimed, rival, calls);
    WarEnds(config, claimed, rival, calls, now);
  }

  lemma {:induction false} ClaimedRecord(config: Config, entry: Option<NameState>, c: Call)
    requires entry.Some? ==> Stored(config, entry.value, c.env.now) && RunOut(entry.value, c.env.now)
    requires c.action.Bid? && Apply(config, entry, c).Ok?
    ensures var ns := Apply(config, entry, c).value.state;
            ns.previousOwner == None && ns.previousReference == 0 && ns.beginTime == c.env.now
  {
    if entry.Some? {
      StoredStatus(config, entry.value, c.env.now);
    }
  }

  // ----- A war won back

  const EXAMPLE_CONFIG := Config("collector", Terra.LUNA, 1, 1_000_000, 100, 1_000, 50)
  const EXAMPLE_NAME: Name := [110]

  function ExampleBid(bidder: Address, now: Uint64, rate: Uint128, deposit: Uint128): Call {
    Call(Env(now, bidder, deposit, Terra.TaxPolicy(0, 0)), EXAMPLE_NAME, Bid(rate))
  }

  const CLAIM := ExampleBid("a", 5_000, 0, 0)
  const ATTACK := ExampleBid("b", 6_000, 86_400, 1_000)
  const DEFENCE := ExampleBid("a", 6_050, 172_800, 3_000)

  lemma {:induction false} ExampleClaim()
    ensures Apply(EXAMPLE_CONFIG, None, CLAIM)
            == Ok(Outcome(NameState("a", None, 0, 0, 5_000, 0, None, 0), []))
  {
  }

  lemma {:induction false} ExampleAttack(ns: NameState)
    requires ns == NameState("a", None, 0, 0, 5_000, 0, None, 0)
    ensures Apply(EXAMPLE_CONFIG, Some(ns), ATTACK)
            == Ok(Outcome(NameState("b", None, 6_000, 86_400, 6_000, 1_000, Some("a"), 0), [ToCollector(1_000, 1_000)]))
  {
    assert CheckBid(EXAMPLE_CONFIG, ns, ATTACK.env, 86_400) == Ok(0);
    assert BidMessages(EXAMPLE_CONFIG, ns, ATTACK.env, 0) == Ok([] + [ToCollector(1_000, 1_000)]);
    assert [] + [ToCollector(1_000, 1_000)] == [ToCollector(1_000, 1_000)];
  }

  lemma {:induction false} ExampleDefence(ns: NameState)
    requires ns == NameState("b", None, 6_000, 86_400, 6_000, 1_000, Some("a"), 0)
    ensures Apply(EXAMPLE_CONFIG, Some(ns), DEFENCE)
            == Ok(Outcome(NameState("a", None, 0, 172_800, 6_050, 3_000, Some("a"), 0),
                          [Refund("b", 950, 950)] + [ToCollector(2_050, 2_050)]))
  {
    assert CheckBid(EXAMPLE_CONFIG, ns, DEFENCE.env, 172_800) == Ok(950);
    assert BidMessages(EXAMPLE_CONFIG, ns, DEFENCE.env, 950)
        == Ok([Refund("b", 950, 950)] + [ToCollector(2_050, 2_050)]);
  }

  lemma {:induction false} NextStores(config: Config, w: World, c: Call, o: Outcome)
    requires Apply(config, Entry(w.names, c.name), c) == Ok(o)
    ensures c.name in Next(config, w, c).names && Next(config, w, c).names[c.name] == o.state
  {
  }

  lemma {:induction false} OneCallFought(config: Config, w: World, c: Call)
    requires c.name in w.names && InCounterDelay(config, w.names[c.name], c.env.now) && !c.action.TransferOwner?
    ensures Fought(config, w, [c], c.name)
    ensures Run(config, w, [c]) == Next(config, w, c)
  {
    assert [c][..0] == [];
  }

  lemma {:induction false} ThreeCalls(config: Config, c1: Call, c2: Call, c3: Call,
                                      s1: NameState, s2: NameState, s3: NameState)
    requires c1.name == c2.name == c3.name && c1.env.now <= c2.env.now <= c3.env.now
    requires Apply(config, None, c1).Ok? && Apply(config, None, c1).value.state == s1
    requires Apply(config, Some(s1), c2).Ok? && Apply(config, Some(s1), c2).value.state == s2
    requires Apply(config, Some(s2), c3).Ok? && Apply(config, Some(s2), c3).value.state == s3
    requires InCounterDelay(config, s2, c3.env.now) && !c3.action.TransferOwner?
    ensures var w := Next(config, Start(0), c1);
            var started := Next(config, w, c2);
            var end := Run(config, started, [c3]);
            && Inv(config, w) && w.clock <= c2.env.now && Timely(c2.env.now, [c3])
            && c2.name in w.names && w.names[c2.name] == s1
            && Fought(config, started, [c3], c2.name)
            && c2.name in end.names && end.names[c2.name] == s3
  {
    var w := Next(config, Start(0), c1);
    NextStores(config, Start(0), c1, Apply(config, None, c1).value);
    NextKeepsInv(config, Start(0), c1);
    NextStores(config, w, c2, Apply(config, Some(s1), c2).value);
    var started := Next(config, w, c2);
    NextStores(config, started, c3, Apply(config, Some(s2), c3).value);
    OneCallFought(config, started, c3);
  }

  /** The owner of a free-rate name is outbid, bids back, and stands where they stood: an ordinary run meets
      every hypothesis of the restoration. */
  lemma {:induction false} WarIsWonBack(config: Config, claim: Call, attack: Call, defence: Call)
    requires config == EXAMPLE_CONFIG && claim == CLAIM && attack == ATTACK && defence == DEFENCE
    ensures var w := Next(config, Start(0), claim);
            var started := Next(config, w, attack);
            var end := Run(config, started, [defence]);
            var name := attack.name;
            && Inv(config, w) && w.clock <= attack.env.now && Timely(attack.env.now, [defence])
            && name in w.names && name in end.names
            && w.names[name].beginTime + config.counterDelay <= attack.env.now && !RunOut(w.names[name], attack.env.now)
            && Apply(config, Some(w.names[name]), attack).Ok?
            && Fought(config, started, [defence], name)
            && end.names[name].owner == w.names[name].owner == "a"
            && end.names[name].transitionReference == w.names[name].transitionReference
            && end.names[name].rate > w.names[name].rate
  {
    var s1 := NameState("a", None, 0, 0, 5_000, 0, None, 0);
    var s2 := NameState("b", None, 6_000, 86_400, 6_000, 1_000, Some("a"), 0);
    var s3 := NameState("a", None, 0, 172_800, 6_050, 3_000, Some("a"), 0);
    ExampleClaim();
    ExampleAttack(s1);
    ExampleDefence(s2);
    ThreeCalls(config, claim, attack, defence, s1, s2, s3);
  }
}
