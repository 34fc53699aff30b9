/** Who owns a name, and what can change that. */
module Ownership {
  import opened Prelude
  import opened LeaseMath
  import opened NameStates
  import opened Auctions
  import opened AuctionRuns
  import opened AuctionInvariant

  /** The owner that the contract reports and obeys at `now`. */
  function NameOwner(config: Config, entry: Option<NameState>, now: Uint64): Option<Address> {
    if entry.None? then None
    else
      match entry.value.Status(config, now)
      case Err(_) => None
      case Ok(status) => StatusOwners(status).0
  }

  /** The owner on record during a counter delay, the highest bidder after it. */
  function Holder(config: Config, ns: NameState, now: nat): Option<Address> {
    if now < ns.beginTime + config.counterDelay then ns.previousOwner else Some(ns.owner)
  }

  /** The reference time that goes with the holder. */
  function HeldSince(config: Config, ns: NameState, now: nat): Uint64 {
    if now < ns.beginTime + config.counterDelay then ns.previousReference else ns.transitionReference
  }

  /** Past a counter delay the status needs the sum of two delays, which has to fit. */
  predicate StatusFits(config: Config, ns: NameState, now: nat) {
    ns.beginTime + config.counterDelay <= now ==> config.counterDelay + config.transitionDelay < U64
  }

  /** Nobody owns a name that has run out; otherwise its holder does. */
  lemma {:induction false} NameOwnerIs(config: Config, ns: NameState, now: Uint64)
    requires Stored(config, ns, now)
    ensures NameOwner(config, Some(ns), now)
            == if RunOut(ns, now) || !StatusFits(config, ns, now) then None else Holder(config, ns, now)
  {
    StoredStatus(config, ns, now);
  }

  function OwnerIn(config: Config, w: World, name: Name): Option<Address> {
    NameOwner(config, Entry(w.names, name), w.clock)
  }

  // ----- One accepted call, at one instant

  /** An accepted bid on a running, owned name leaves the owner in place exactly when there is a counter delay
      and the bid buys at least a second. */
  lemma {:induction false} BidKeepsOwnerIff(config: Config, ns: NameState, env: Env, rate: Uint128)
    requires Stored(config, ns, env.now) && !RunOut(ns, env.now)
    requires AfterBid(config, Some(ns), env, rate).Ok?
    requires NameOwner(config, Some(ns), env.now).Some?
    ensures rate > 0
    ensures NameOwner(config, Some(AfterBid(config, Some(ns), env, rate).value.state), env.now)
            == NameOwner(config, Some(ns), env.now)
            <==> config.counterDelay > 0 && LeaseSeconds(env.funds, rate) > 0
  {
    StoredStatus(config, ns, env.now);
    StoredBid(config, Some(ns), env, rate);
    StoredStatus(config, AfterBid(config, Some(ns), env, rate).value.state, env.now);
  }

  /** The owner's change of rate keeps the name exactly when the remaining deposit buys a second at the new rate. */
  lemma {:induction false} SetRateKeepsOwnerIff(config: Config, ns: NameState, env: Env, rate: Uint128)
    requires Stored(config, ns, env.now)
    requires AfterSetRate(config, ns, env, rate).Ok?
    ensures var r := AfterSetRate(config, ns, env, rate).value.state;
            && NameOwner(config, Some(ns), env.now) == Some(env.sender)
            && (NameOwner(config, Some(r), env.now) == Some(env.sender)
                <==> rate == 0 || LeaseSeconds(r.beginDeposit, rate) > 0)
  {
    StoredStatus(config, ns, env.now);
    StoredSetRate(config, ns, env, rate);
    StoredStatus(config, AfterSetRate(config, ns, env, rate).value.state, env.now);
  }

  /** Funding a running name changes no one's status at all. */
  lemma {:induction false} FundKeepsStatus(config: Config, ns: NameState, env: Env, owner: Address, now: Uint64)
    requires Stored(config, ns, env.now) && env.now <= now && !RunOut(ns, now)
    requires AfterFund(config, ns, env, owner).Ok?
    ensures var r := AfterFund(config, ns, env, owner).value.state;
            r.Status(config, now) == ns.Status(config, now) && !RunOut(r, now)
  {
    StoredFund(config, ns, env, owner);
    LeaseMonotone(ns.beginDeposit, ns.beginDeposit + env.funds, ns.rate);
    StoredLater(config, ns, env.now, now);
    StoredStatus(config, ns, now);
    StoredStatus(config, AfterFund(config, ns, env, owner).value.state, now);
  }

  /** Whether the deposit, with what is added, reaches past the present second. */
  predicate Revives(ns: NameState, env: Env) {
    && ns.beginTime <= env.now
    && Rent(env.now - ns.beginTime + 1, ns.rate) <= env.funds + ns.beginDeposit
  }

  /** An accepted funding of a name that has run out brings it back exactly when the whole deposit pays for one
      second more than has gone by since the lease began: back with everything on record, as if it had never run
      out. Otherwise the name stays expired. The funds go to the collector either way. */
  lemma {:induction false} FundRevivesIff(config: Config, ns: NameState, env: Env, owner: Address)
    requires Stored(config, ns, env.now) && RunOut(ns, env.now)
    requires AfterFund(config, ns, env, owner).Ok?
    ensures var after := AfterFund(config, ns, env, owner).value.state;
            && NameOwner(config, Some(ns), env.now) == None
            && (!RunOut(after, env.now) <==> Revives(ns, env))
            && (Revives(ns, env) ==>
                  after.Status(config, env.now) == ns.RunningStatus(config, env.now, env.now - ns.beginTime))
            && (!Revives(ns, env) ==>
                  after.Status(config, env.now).Ok? && after.Status(config, env.now).value.Expired?)
    ensures var messages := AfterFund(config, ns, env, owner).value.messages;
            RefundedBy(messages) == 0 && CollectedBy(messages) == env.funds
  {
    var after := AfterFund(config, ns, env, owner).value.state;
    StoredFund(config, ns, env, owner);
    StoredStatus(config, ns, env.now);
    StoredStatus(config, after, env.now);
    RentGalois(env.now - ns.beginTime + 1, after.beginDeposit, ns.rate);
    FlowsOf(AfterFund(config, ns, env, owner).value.messages[0], []);
  }

  lemma {:induction false} BidNewUnowned(config: Config, entry: Option<NameState>, env: Env, rate: Uint128)
    requires config.counterDelay > 0
    requires entry.Some? ==> Stored(config, entry.value, env.now) && RunOut(entry.value, env.now)
    requires AfterBid(config, entry, env, rate).Ok?
    ensures NameOwner(config, entry, env.now) == None
    ensures NameOwner(config, Some(AfterBid(config, entry, env, rate).value.state), env.now) == None
  {
    if entry.Some? {
      StoredStatus(config, entry.value, env.now);
    }
    StoredBid(config, entry, env, rate);
    StoredStatus(config, AfterBid(config, entry, env, rate).value.state, env.now);
  }

  lemma {:induction false} BidExistingKeepsOwner(config: Config, ns: NameState, env: Env, rate: Uint128)
    requires config.counterDelay > 0 && config.minLease > 0
    requires Stored(config, ns, env.now) && !RunOut(ns, env.now)
    requires AfterBid(config, Some(ns), env, rate).Ok?
    ensures NameOwner(config, Some(AfterBid(config, Some(ns), env, rate).value.state), env.now)
            == NameOwner(config, Some(ns), env.now)
  {
    StoredStatus(config, ns, env.now);
    StoredBid(config, Some(ns), env, rate);
    StoredStatus(config, AfterBid(config, Some(ns), env, rate).value.state, env.now);
  }

  /** A transfer moves the name only at its owner's hand, and then to the addressee; the highest bidder's transfer
      of a bid leaves the owner alone. */
  lemma {:induction false} TransferMovesOwner(config: Config, ns: NameState, env: Env, to: Address)
    requires Stored(config, ns, env.now)
    requires AfterTransfer(config, ns, env, to).Ok?
    ensures var before := NameOwner(config, Some(ns), env.now);
            var after := NameOwner(config, Some(AfterTransfer(config, ns, env, to).value.state), env.now);
            after == if before == Some(env.sender) then Some(to) else before
  {
    StoredStatus(config, ns, env.now);
    StoredStatus(config, AfterTransfer(config, ns, env, to).value.state, env.now);
  }

  /** A transfer survives the counter delay exactly when it was not the name owner's transfer inside one
      (or the addressee is the highest bidder anyway): after the delay the bid's owner has the name. */
  lemma {:induction false} TransferOutlivesCounterDelayIff(config: Config, ns: NameState, env: Env, to: Address,
                                                           later: Uint64)
    requires Stored(config, ns, env.now)
    requires AfterTransfer(config, ns, env, to).Ok?
    requires env.now <= later && ns.beginTime + config.counterDelay <= later && !RunOut(ns, later)
    requires config.counterDelay + config.transitionDelay < U64
    ensures var inside := env.now < ns.beginTime + config.counterDelay;
            NameOwner(config, Some(AfterTransfer(config, ns, env, to).value.state), later) == Some(to)
            <==> !(inside && ns.previousOwner == Some(env.sender)) || ns.owner == to
  {
    StoredStatus(config, ns, env.now);
    var r := AfterTransfer(config, ns, env, to).value.state;
    StoredLater(config, r, env.now, later);
    StoredStatus(config, r, later);
  }

  /** Who takes over a name that nobody holds, and when: a fresh name is simply valid once its counter delay is
      over (and the clock past the two delays), an expired one is in its transition delay until both
      delays have passed since the expiry of the lost lease, not since the bid. */
  lemma {:induction false} BidNewSchedule(config: Config, entry: Option<NameState>, env: Env, rate: Uint128,
                                          later: Uint64)
    requires entry.Some? ==> Stored(config, entry.value, env.now) && RunOut(entry.value, env.now)
    requires AfterBid(config, entry, env, rate).Ok?
    requires var ns := AfterBid(config, entry, env, rate).value.state;
             env.now + config.counterDelay <= later && !RunOut(ns, later)
    requires config.counterDelay + config.transitionDelay < U64
    ensures var ns := AfterBid(config, entry, env, rate).value.state;
            var lost := if entry.None? then 0
                        else entry.value.beginTime + LeaseSeconds(entry.value.beginDeposit, entry.value.rate);
            && ns.controller == None
            && lost < U64
            && ns.Status(config, later) == Ok(if later < lost + config.counterDelay + config.transitionDelay
                                              then TransitionDelay(env.sender, lost)
                                              else Valid(env.sender, lost))
  {
    if entry.Some? {
      StoredStatus(config, entry.value, env.now);
    }
    StoredBid(config, entry, env, rate);
    var ns := AfterBid(config, entry, env, rate).value.state;
    StoredLater(config, ns, env.now, later);
    StoredStatus(config, ns, later);
  }

  /** The controller is the name owner's to appoint; it goes when the name starts over, and not before:
      neither an outbid nor a transfer clears it. */
  lemma {:induction false} ControllerChanges(config: Config, ns: NameState, c: Call)
    requires Stored(config, ns, c.env.now)
    requires Apply(config, Some(ns), c).Ok?
    ensures var after := Apply(config, Some(ns), c).value.state;
            after.controller ==
            if c.action.SetController? then Some(c.action.controller)
            else if c.action.Bid? && RunOut(ns, c.env.now) then None
            else ns.controller
    ensures c.action.SetController? ==> NameOwner(config, Some(ns), c.env.now) == Some(c.env.sender)
  {
    StoredStatus(config, ns, c.env.now);
  }

  // ----- Causes

  predicate CounterDelayEnds(config: Config, ns: NameState, t1: nat, t2: nat) {
    t1 < ns.beginTime + config.counterDelay <= t2
  }

  predicate RunsOut(ns: NameState, t1: nat, t2: nat) {
    !RunOut(ns, t1) && RunOut(ns, t2)
  }

  /** The four ways for a stored name to change hands on the way to `c` and through it. */
  predicate HasCause(config: Config, w: World, c: Call, name: Name) {
    && name in w.names
    && var ns := w.names[name];
       || CounterDelayEnds(config, ns, w.clock, c.env.now)
       || RunsOut(ns, w.clock, c.env.now)
       || (c.name == name && c.action.TransferOwner?
           && NameOwner(config, Some(ns), c.env.now) == Some(c.env.sender))
       || (c.name == name && c.action.Fund? && RunOut(ns, c.env.now) && Revives(ns, c.env))
  }

  lemma {:induction false} TimeMovesOwner(config: Config, ns: NameState, t1: Uint64, t2: Uint64)
    requires Stored(config, ns, t1) && t1 <= t2
    requires NameOwner(config, Some(ns), t1) != NameOwner(config, Some(ns), t2)
    ensures CounterDelayEnds(config, ns, t1, t2) || RunsOut(ns, t1, t2)
  {
    StoredStatus(config, ns, t1);
    StoredLater(config, ns, t1, t2);
    StoredStatus(config, ns, t2);
  }

  lemma {:induction false} CallMovesOwner(config: Config, entry: Option<NameState>, c: Call)
    requires config.counterDelay > 0 && config.minLease > 0
    requires entry.Some? ==> Stored(config, entry.value, c.env.now)
    requires Apply(config, entry, c).Ok?
    requires NameOwner(config, Some(Apply(config, entry, c).value.state), c.env.now)
             != NameOwner(config, entry, c.env.now)
    ensures entry.Some?
    ensures || (c.action.TransferOwner? && NameOwner(config, entry, c.env.now) == Some(c.env.sender))
            || (c.action.Fund? && RunOut(entry.value, c.env.now) && Revives(entry.value, c.env))
  {
    match c.action
    case Bid(rate) =>
      if entry.None? || RunOut(entry.value, c.env.now) {
        BidNewUnowned(config, entry, c.env, rate);
      } else {
        BidExistingKeepsOwner(config, entry.value, c.env, rate);
      }
    case Fund(owner) =>
      if !RunOut(entry.value, c.env.now) {
        FundKeepsStatus(config, entry.value, c.env, owner, c.env.now);
      } else {
        FundRevivesIff(config, entry.value, c.env, owner);
      }
    case SetRate(rate) =>
      StoredSetRate(config, entry.value, c.env, rate);
      SetRateKeepsOwnerIff(config, entry.value, c.env, rate);
    case TransferOwner(to) =>
      TransferMovesOwner(config, entry.value, c.env, to);
    case SetController(_) =>
      var r := Apply(config, entry, c).value.state;
      StoredStatus(config, entry.value, c.env.now);
      StoredStatus(config, r, c.env.now);
  }

  lemma {:induction false} NextMovesOwner(config: Config, w: World, c: Call, name: Name)
    requires config.counterDelay > 0 && config.minLease > 0
    requires Inv(config, w) && w.clock <= c.env.now
    requires OwnerIn(config, Next(config, w, c), name) != OwnerIn(config, w, name)
    ensures HasCause(config, w, c, name)
  {
    var entry := Entry(w.names, name);
    if entry.Some? {
      assert Kept(config, entry.value, w.tenancies[name], w.clock);
      StoredLater(config, entry.value, w.clock, c.env.now);
      if NameOwner(config, entry, w.clock) != NameOwner(config, entry, c.env.now) {
        TimeMovesOwner(config, entry.value, w.clock, c.env.now);
        return;
      }
    }
    assert c.name == name && Apply(config, entry, c).Ok?;
    CallMovesOwner(config, entry, c);
  }

  lemma {:induction false} CauseInPrefix(config: Config, w: World, calls: seq<Call>, n: nat, name: Name)
    requires n <= |calls|
    requires exists i :: 0 <= i < n && HasCause(config, Run(config, w, calls[..n][..i]), calls[..n][i], name)
    ensures exists i :: 0 <= i < n && HasCause(config, Run(config, w, calls[..i]), calls[i], name)
  {
    var i :| 0 <= i < n && HasCause(config, Run(config, w, calls[..n][..i]), calls[..n][i], name);
    assert calls[..n][..i] == calls[..i];
  }

  /** Ownership stability over whole runs, from any reachable state: if a name's owner at the end differs from the
      owner at the start, then somewhere on the way the owner transferred it, a counter delay ended, its lease ran
      out, or someone funded it back after it had run out. No bid, rate change or funding of a running name, and
      no call on another name, ever takes a name from its owner by itself. */
  lemma {:induction false} OwnerChangesHaveCauses(config: Config, w: World, calls: seq<Call>, name: Name)
    requires config.counterDelay > 0 && config.minLease > 0
    requires Inv(config, w) && Timely(w.clock, calls)
    requires OwnerIn(config, Run(config, w, calls), name) != OwnerIn(config, w, name)
    ensures exists i :: 0 <= i < |calls| && HasCause(config, Run(config, w, calls[..i]), calls[i], name)
  {
    var n := |calls| - 1;
    var before := Run(config, w, calls[..n]);
    InvFrom(config, w, calls[..n]);
    RunClock(config, w, calls[..n]);
    if OwnerIn(config, Run(config, w, calls), name) != OwnerIn(config, before, name) {
      NextMovesOwner(config, before, calls[n], name);
    } else {
      OwnerChangesHaveCauses(config, w, calls[..n], name);
      CauseInPrefix(config, w, calls, n, name);
    }
  }

  lemma {:induction false} InvFrom(config: Config, w: World, calls: seq<Call>)
    requires Inv(config, w) && Timely(w.clock, calls)
    ensures Inv(config, Run(config, w, calls))
  {
    if calls != [] {
      var n := |calls| - 1;
      InvFrom(config, w, calls[..n]);
      RunClock(config, w, calls[..n]);
      NextKeepsInv(config, Run(config, w, calls[..n]), calls[n]);
    }
  }
}
