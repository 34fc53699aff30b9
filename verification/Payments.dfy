/** Every auction transaction is paid for by the funds attached to it. */
module Payments {
  import opened Prelude
  import opened Terra
  import opened NameStates
  import opened Auctions
  import opened AuctionRuns
  import opened AuctionInvariant

  /** What leaves the contract: the coins in the messages and the chain's tax on each. */
  function Outflow(config: Config, tax: TaxPolicy, messages: seq<Message>): nat {
    if messages == [] then 0
    else
      var net := messages[0].net;
      net + ChainTax(tax, config.stableDenom, net) + Outflow(config, tax, messages[1..])
  }

  function Gross(messages: seq<Message>): nat {
    if messages == [] then 0 else messages[0].gross + Gross(messages[1..])
  }

  predicate Deducted(config: Config, tax: TaxPolicy, messages: seq<Message>) {
    forall m | m in messages :: DeductCoinTax(tax, config.stableDenom, m.gross) == Ok(m.net)
  }

  lemma {:induction false} OutflowWithinGross(config: Config, tax: TaxPolicy, messages: seq<Message>)
    requires Deducted(config, tax, messages)
    ensures Outflow(config, tax, messages) <= Gross(messages)
    ensures tax.rate <= FRACTION ==> Gross(messages) <= Outflow(config, tax, messages) + 2 * |messages|
  {
    if messages != [] {
      assert messages[0] in messages;
      DeductCoinTaxPays(tax, config.stableDenom, messages[0].gross);
      OutflowWithinGross(config, tax, messages[1..]);
    }
  }

  lemma {:induction false} GrossIsFlows(messages: seq<Message>)
    ensures Gross(messages) == RefundedBy(messages) + CollectedBy(messages)
  {
    if messages != [] {
      GrossIsFlows(messages[1..]);
    }
  }

  lemma {:induction false} OutbidMessagesDeducted(config: Config, ns: NameState, env: Env, left: Uint128)
    requires BidMessages(config, ns, env, left).Ok?
    ensures var messages := BidMessages(config, ns, env, left).value;
            Deducted(config, env.tax, messages) && |messages| <= 2
  {
  }

  lemma {:induction false} BidMessagesDeducted(config: Config, entry: Option<NameState>, env: Env, rate: Uint128)
    requires AfterBid(config, entry, env, rate).Ok?
    ensures var messages := AfterBid(config, entry, env, rate).value.messages;
            Deducted(config, env.tax, messages) && |messages| <= 2
  {
    if entry.Some? && !entry.value.Status(config, env.now).value.Expired? {
      OutbidMessagesDeducted(config, entry.value, env, CheckBid(config, entry.value, env, rate).value);
    }
  }

  lemma {:induction false} AppliedMessages(config: Config, entry: Option<NameState>, c: Call)
    requires Apply(config, entry, c).Ok?
    ensures var messages := Apply(config, entry, c).value.messages;
            && Deducted(config, c.env.tax, messages)
            && |messages| <= 2
            && (!c.action.Bid? && !c.action.Fund? ==> messages == [])
  {
    if c.action.Bid? {
      BidMessagesDeducted(config, entry, c.env, c.action.rate);
    }
  }

  /** Auction transactions pay for themselves: with the chain's tax charged on every coin sent, an accepted call
      never costs the contract more than the funds attached to it, and at tax rates up to one it keeps back at
      most two units of dust per message. */
  lemma {:induction false} TransactionPaysForItself(config: Config, entry: Option<NameState>, c: Call)
    requires Apply(config, entry, c).Ok?
    ensures var messages := Apply(config, entry, c).value.messages;
            var out := Outflow(config, c.env.tax, messages);
            && out <= c.env.funds
            && (c.action.Bid? || c.action.Fund? ==>
                  Gross(messages) == c.env.funds
                  && (c.env.tax.rate <= FRACTION ==> c.env.funds - out <= 2 * |messages| <= 4))
            && (!c.action.Bid? && !c.action.Fund? ==> out == 0)
  {
    var messages := Apply(config, entry, c).value.messages;
    AppliedMessages(config, entry, c);
    OutflowWithinGross(config, c.env.tax, messages);
    GrossIsFlows(messages);
    MessagesBalance(config, entry, c);
  }
}
