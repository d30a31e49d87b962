/** What every operation of the ledger means to the parties: exactly when it goes through, who has how much
    afterwards, and that nothing else changes. */
module LedgerEffects {
  import opened Collections
  import opened Ledgers

  /** The operation is valid and does not throw. */
  predicate GoesThrough(s: State, op: Op) {
    Validated(op) && Execute(s, op).Some?
  }

  function Balance(wallets: map<Name, int>, n: Name): int {
    if n in wallets then wallets[n] else 0
  }

  /** Exactly one wallet changes, by `delta`. */
  ghost predicate OneChanged(ws: map<Name, int>, ws': map<Name, int>, n: Name, delta: int) {
    && n in ws && ws'.Keys == ws.Keys && ws'[n] == ws[n] + delta
    && forall m :: m in ws && m != n ==> ws'[m] == ws[m]
  }

  /** `amount` goes from one wallet to another, which is opened if need be, and no other one changes. */
  ghost predicate Moved(ws: map<Name, int>, ws': map<Name, int>, from: Name, to: Name, amount: int) {
    && from in ws && ws'.Keys == ws.Keys + {to}
    && (from != to ==> ws'[from] == ws[from] - amount && ws'[to] == Balance(ws, to) + amount)
    && (from == to ==> ws'[from] == ws[from])
    && forall m :: m in ws && m != from && m != to ==> ws'[m] == ws[m]
  }

  /** A transfer. */
  lemma TransferMeans(s: State, from: Name, to: Name, amount: int)
    requires Solvent(s.wallets)
    ensures var op := Transfer(from, to, amount);
            && (GoesThrough(s, op) <==> && amount > 0 && from in s.wallets && s.wallets[from] >= amount
                                        && (from != to ==> Balance(s.wallets, to) + amount <= MAX_SHARE))
            && (GoesThrough(s, op) ==> var s' := Execute(s, op).value;
                                       s' == s.(wallets := s'.wallets) && Moved(s.wallets, s'.wallets, from, to, amount))
  {
  }

  /** A new escrow. */
  lemma EscrowTransferMeans(s: State, op: Op)
    requires Solvent(s.wallets) && op.EscrowTransfer?
    ensures GoesThrough(s, op) <==>
              && op.amount > 0 && op.fee >= 0 && op.agent != op.from && op.agent != op.to
              && s.now < op.deadline < op.expiration && {op.from, op.to, op.agent} <= s.wallets.Keys
              && (op.from, op.escrowId) !in s.escrows && s.wallets[op.from] >= op.amount + op.fee
    ensures GoesThrough(s, op) ==>
              var s', key := Execute(s, op).value, (op.from, op.escrowId);
              && s' == s.(wallets := s'.wallets, escrows := s'.escrows, nextSerial := s.nextSerial + 1)
              && OneChanged(s.wallets, s'.wallets, op.from, -(op.amount + op.fee))
              && s'.escrows.Keys == s.escrows.Keys + {key} && (forall k :: k in s.escrows ==> s'.escrows[k] == s.escrows[k])
              && var e := s'.escrows[key];
                 && e.from == op.from && e.to == op.to && e.agent == op.agent && e.serial == s.nextSerial
                 && e.deadline == op.deadline && e.expiration == op.expiration
                 && e.balance == op.amount && e.pendingFee == op.fee && !e.toApproved && !e.agentApproved && !e.disputed
  {
    assert {op.from, op.to, op.agent} <= s.wallets.Keys <==>
           op.from in s.wallets && op.to in s.wallets && op.agent in s.wallets;
  }

  /** What is left of an escrow after an operation on it; everything else is untouched. */
  ghost predicate EscrowLeft(s: State, s': State, key: EscrowKey, left: Option<Escrow>) {
    && s' == s.(wallets := s'.wallets, escrows := s'.escrows)
    && (key in s'.escrows <==> left.Some?) && (left.Some? ==> s'.escrows[key] == left.value)
    && forall k :: k != key ==> (k in s'.escrows <==> k in s.escrows) && (k in s.escrows ==> s'.escrows[k] == s.escrows[k])
  }

  lemma LeftPut(s: State, wallets: map<Name, int>, key: EscrowKey, e: Escrow)
    ensures EscrowLeft(s, s.(wallets := wallets, escrows := s.escrows[key := e]), key, Some(e))
  {
  }

  lemma AdjustOne(wallets: map<Name, int>, n: Name, delta: int)
    ensures Adjust(wallets, n, delta).Some? ==> OneChanged(wallets, Adjust(wallets, n, delta).value, n, delta)
  {
  }

  /** The operation names a recorded escrow with its parties. */
  predicate Names(s: State, key: EscrowKey, to: Name, agent: Name) {
    key in s.escrows && s.escrows[key].to == to && s.escrows[key].agent == agent
  }

  /** What the invariants say about one escrow. */
  lemma EscrowFacts(s: State, key: EscrowKey)
    requires Inv(s)
    ensures key in s.escrows ==>
              var e := s.escrows[key];
              && EscrowOk(e, key, s.nextSerial) && PartiesKnown(e, s.wallets)
              && s.wallets[e.from] >= 0 && s.wallets[e.to] >= 0 && s.wallets[e.agent] >= 0
  {
  }

  /** Rejecting an escrow: by the receiver or the agent, in time, and not once they have approved. */
  lemma RejectMeans(s: State, op: Op)
    requires Inv(s) && op.EscrowApprove? && !op.approve
    ensures var key := (op.from, op.escrowId);
            && (GoesThrough(s, op) <==>
                  && Names(s, key, op.to, op.agent) && s.now <= s.escrows[key].deadline
                  && ((op.who == op.to && !s.escrows[key].toApproved) || (op.who == op.agent && !s.escrows[key].agentApproved))
                  && s.wallets[op.from] + s.escrows[key].Held() <= MAX_SHARE)
            && (GoesThrough(s, op) ==>
                  var s' := Execute(s, op).value;
                  EscrowLeft(s, s', key, None) && OneChanged(s.wallets, s'.wallets, op.from, s.escrows[key].Held()))
  {
    var key := (op.from, op.escrowId);
    EscrowFacts(s, key);
    hide Inv;
  }

  /** Approving an escrow: by the receiver or the agent, each once and in time; the second approval pays the
      agent, so there must be room for the fee. */
  lemma CanApprove(s: State, op: Op)
    requires Inv(s) && op.EscrowApprove? && op.approve
    ensures var key := (op.from, op.escrowId);
            GoesThrough(s, op) <==>
              && Names(s, key, op.to, op.agent) && s.now <= s.escrows[key].deadline
              && var e := s.escrows[key];
                 && ((op.who == op.to && !e.toApproved) || (op.who == op.agent && !e.agentApproved))
                 && (e.toApproved || e.agentApproved ==> s.wallets[op.agent] + e.pendingFee <= MAX_SHARE)
  {
    var key := (op.from, op.escrowId);
    EscrowFacts(s, key);
    hide Inv;
  }

  lemma ApproveMeans(s: State, op: Op)
    requires Inv(s) && op.EscrowApprove? && op.approve && GoesThrough(s, op)
    ensures var key, s' := (op.from, op.escrowId), Execute(s, op).value;
            && key in s.escrows
            && var e := s.escrows[key];
               var flagged := if op.who == op.to then e.(toApproved := true) else e.(agentApproved := true);
               if e.toApproved || e.agentApproved then
                 EscrowLeft(s, s', key, Some(flagged.(pendingFee := 0))) && OneChanged(s.wallets, s'.wallets, op.agent, e.pendingFee)
               else
                 EscrowLeft(s, s', key, Some(flagged)) && s'.wallets == s.wallets
  {
    var key, s' := (op.from, op.escrowId), Execute(s, op).value;
    EscrowFacts(s, key);
    LeftPut(s, s'.wallets, key, s'.escrows[key]);
    AdjustOne(s.wallets, op.agent, s.escrows[key].pendingFee);
    hide Inv, EscrowLeft, OneChanged, Adjust;
  }

  /** Disputing an escrow: by the sender or the receiver, once, between approval and expiration. */
  lemma DisputeMeans(s: State, op: Op)
    requires Inv(s) && op.EscrowDispute?
    ensures var key := (op.from, op.escrowId);
            && (GoesThrough(s, op) <==>
                  && Names(s, key, op.to, op.agent) && op.who in {op.from, op.to}
                  && s.escrows[key].toApproved && s.escrows[key].agentApproved && !s.escrows[key].disputed
                  && s.now < s.escrows[key].expiration)
            && (GoesThrough(s, op) ==>
                  var s' := Execute(s, op).value;
                  EscrowLeft(s, s', key, Some(s.escrows[key].(disputed := true))) && s'.wallets == s.wallets)
  {
    var key := (op.from, op.escrowId);
    EscrowFacts(s, key);
    hide Inv;
  }

  /** Releasing from an approved escrow: in a dispute the agent, to either party; otherwise a party, to the other
      one, or after expiration also to itself. */
  lemma CanRelease(s: State, op: Op)
    requires Inv(s) && op.EscrowRelease?
    ensures var key := (op.from, op.escrowId);
            GoesThrough(s, op) <==>
              && Names(s, key, op.to, op.agent)
              && var e := s.escrows[key];
                 && e.toApproved && e.agentApproved && op.receiver in {op.from, op.to} && 0 < op.amount <= e.balance
                 && s.wallets[op.receiver] + op.amount <= MAX_SHARE
                 && if e.disputed then op.who == op.agent
                    else op.who in {op.from, op.to} && (op.who != op.receiver || op.from == op.to || e.expiration <= s.now)
  {
    var key := (op.from, op.escrowId);
    EscrowFacts(s, key);
    hide Inv;
  }

  lemma ReleaseMeans(s: State, op: Op)
    requires Inv(s) && op.EscrowRelease? && GoesThrough(s, op)
    ensures var key, s' := (op.from, op.escrowId), Execute(s, op).value;
            && key in s.escrows && OneChanged(s.wallets, s'.wallets, op.receiver, op.amount)
            && var e := s.escrows[key];
               EscrowLeft(s, s', key, if op.amount == e.balance then None else Some(e.(balance := e.balance - op.amount)))
  {
    hide Inv, MayRelease;
  }

  /** Contributing: only while the ICO runs, never beyond the cap, each contribution once. */
  lemma ContributeMeans(s: State, op: Op)
    requires Solvent(s.wallets) && op.Contribute?
    ensures var key := (op.symbol, op.contributor, op.contributionId);
            && (GoesThrough(s, op) <==>
                  && op.amount > 0 && op.symbol in s.tokens && op.symbol in s.icos && s.tokens[op.symbol].phase == Ico
                  && s.tokens[op.symbol].hardCap.Some? && s.icos[op.symbol] + op.amount <= s.tokens[op.symbol].hardCap.value
                  && key !in s.contributions && op.contributor in s.wallets && s.wallets[op.contributor] >= op.amount)
            && (GoesThrough(s, op) ==>
                  var s' := Execute(s, op).value;
                  && s' == s.(wallets := s'.wallets, contributions := s'.contributions, icos := s'.icos)
                  && OneChanged(s.wallets, s'.wallets, op.contributor, -op.amount)
                  && s'.contributions.Keys == s.contributions.Keys + {key} && s'.contributions[key] == op.amount
                  && (forall k :: k in s.contributions ==> s'.contributions[k] == s.contributions[k])
                  && s'.icos.Keys == s.icos.Keys && s'.icos[op.symbol] == s.icos[op.symbol] + op.amount
                  && (forall y :: y in s.icos && y != op.symbol ==> s'.icos[y] == s.icos[y]))
  {
  }

  /** Creating a token: the chain's fee moves to the null wallet and the symbol leaves the pool; without a fee,
      the controlling wallet can reset a token that is still being set up. */
  lemma CreateTokenMeans(s: State, op: Op)
    requires Solvent(s.wallets) && op.CreateToken?
    ensures GoesThrough(s, op) <==>
              if op.fee > 0 then
                && op.symbol !in s.tokens && op.symbol in s.pool && op.fee == s.creationFee
                && op.control in s.wallets && s.wallets[op.control] >= op.fee && NULL_WALLET in s.wallets
                && (op.control != NULL_WALLET ==> s.wallets[NULL_WALLET] + op.fee <= MAX_SHARE)
              else
                op.fee == 0 && op.symbol in s.tokens && s.tokens[op.symbol].control == op.control && s.tokens[op.symbol].phase == Setup
    ensures GoesThrough(s, op) ==>
              var s' := Execute(s, op).value;
              && s' == s.(wallets := s'.wallets, tokens := s'.tokens, pool := s'.pool)
              && (if op.fee > 0 then Moved(s.wallets, s'.wallets, op.control, NULL_WALLET, op.fee) else s'.wallets == s.wallets)
              && s'.pool == s.pool - {op.symbol} && s'.tokens.Keys == s.tokens.Keys + {op.symbol}
              && s'.tokens[op.symbol].control == op.control && s'.tokens[op.symbol].phase == Setup
              && s'.tokens[op.symbol].hardCap == None
              && forall y :: y in s.tokens && y != op.symbol ==> s'.tokens[y] == s.tokens[y]
  {
  }
}
