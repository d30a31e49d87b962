/** The evaluators as they run: they change the database object by object, and a throw half-way leaves
    what was changed so far to the undo session around them. */
module Evaluators {
  import opened Collections
  import opened LedgerEffects
  import opened Ledgers

  class LedgerDatabase {
    var now: nat
    var creationFee: int
    var wallets: map<Name, int>
    var escrows: map<EscrowKey, Escrow>
    var nextSerial: nat
    var pool: set<nat>
    var tokens: map<nat, Token>
    var icos: map<nat, int>
    var contributions: map<ContributionKey, int>

    function Contents(): State
      reads this
    {
      State(now, creationFee, wallets, escrows, nextSerial, pool, tokens, icos, contributions)
    }

    constructor (s: State)
      ensures Contents() == s
    {
      now, creationFee, wallets, escrows, nextSerial := s.now, s.creationFee, s.wallets, s.escrows, s.nextSerial;
      pool, tokens, icos, contributions := s.pool, s.tokens, s.icos, s.contributions;
    }

    /** `adjust_balance`: the new balance is stored before it is checked. */
    method AdjustBalance(name: Name, delta: int) returns (ok: bool)
      modifies `wallets
      ensures ok == Adjust(old(wallets), name, delta).Some?
      ensures ok ==> wallets == Adjust(old(wallets), name, delta).value
    {
      if name !in wallets {
        return false;
      }
      if delta < 0 && wallets[name] < -delta {
        return false;
      }
      wallets := wallets[name := wallets[name] + delta];
      ok := 0 <= wallets[name] <= MAX_SHARE;
    }

    method EscrowTransfer(op: Op) returns (ok: bool)
      requires op.EscrowTransfer?
      modifies this
      ensures ok == DoEscrowTransfer(old(Contents()), op).Some?
      ensures ok ==> Contents() == DoEscrowTransfer(old(Contents()), op).value
    {
      hide Adjust;
      if op.from !in wallets || op.to !in wallets || op.agent !in wallets {
        return false;
      }
      if op.deadline <= now || op.expiration <= now {
        return false;
      }
      var spent := op.amount;
      spent := spent + op.fee;
      if spent > MAX_SHARE {
        return false;
      }
      ok := AdjustBalance(op.from, 0 - spent);
      if !ok {
        return;
      }
      if (op.from, op.escrowId) in escrows {
        return false;
      }
      escrows := escrows[(op.from, op.escrowId) := Escrow(nextSerial, op.from, op.to, op.agent, op.deadline, op.expiration,
                                                          op.amount, op.fee, false, false, false)];
      nextSerial := nextSerial + 1;
    }

    method EscrowApprove(op: Op) returns (ok: bool)
      requires op.EscrowApprove?
      modifies this
      ensures ok == DoEscrowApprove(old(Contents()), op).Some?
      ensures ok ==> Contents() == DoEscrowApprove(old(Contents()), op).value
    {
      hide Adjust, Adjust2;
      var key := (op.from, op.escrowId);
      if key !in escrows || escrows[key].to != op.to || escrows[key].agent != op.agent || escrows[key].deadline < now {
        return false;
      }
      var reject := !op.approve;
      if op.who == op.to {
        if escrows[key].toApproved {
          return false;
        }
        if !reject {
          escrows := escrows[key := escrows[key].(toApproved := true)];
        }
      }
      if op.who == op.agent {
        if escrows[key].agentApproved {
          return false;
        }
        if !reject {
          escrows := escrows[key := escrows[key].(agentApproved := true)];
        }
      }
      ok := true;
      if reject {
        ok := RefundAll(op.from, key);
      } else if escrows[key].toApproved && escrows[key].agentApproved {
        ok := AdjustBalance(op.agent, escrows[key].pendingFee);
        if ok {
          escrows := escrows[key := escrows[key].(pendingFee := 0)];
        }
      }
    }

    /** Both parts go back to the sender and the record is removed. */
    method RefundAll(to: Name, key: EscrowKey) returns (ok: bool)
      requires key in escrows
      modifies this
      ensures var e, w := old(escrows[key]), old(wallets);
              && ok == Adjust2(w, to, e.balance, to, e.pendingFee).Some?
              && (ok ==> Contents() == old(Contents()).(wallets := Adjust2(w, to, e.balance, to, e.pendingFee).value,
                                                        escrows := old(escrows) - {key}))
    {
      ok := AdjustBalance(to, escrows[key].balance);
      if ok {
        ok := AdjustBalance(to, escrows[key].pendingFee);
      }
      if ok {
        escrows := escrows - {key};
      }
    }

    method EscrowDispute(op: Op) returns (ok: bool)
      requires op.EscrowDispute?
      modifies this
      ensures ok == DoEscrowDispute(old(Contents()), op).Some?
      ensures ok ==> Contents() == DoEscrowDispute(old(Contents()), op).value
    {
      var key := (op.from, op.escrowId);
      if op.from !in wallets || key !in escrows {
        return false;
      }
      var e := escrows[key];
      if now >= e.expiration || !(e.toApproved && e.agentApproved) || e.disputed || e.to != op.to || e.agent != op.agent {
        return false;
      }
      escrows := escrows[key := e.(disputed := true)];
      ok := true;
    }

    method EscrowRelease(op: Op) returns (ok: bool)
      requires op.EscrowRelease?
      modifies this
      ensures ok == DoEscrowRelease(old(Contents()), op).Some?
      ensures ok ==> Contents() == DoEscrowRelease(old(Contents()), op).value
    {
      hide Adjust, Adjust2;
      var key := (op.from, op.escrowId);
      if op.from !in wallets || key !in escrows {
        return false;
      }
      var e := escrows[key];
      if e.balance < op.amount || e.to != op.to || e.agent != op.agent {
        return false;
      }
      if (op.receiver != e.from && op.receiver != e.to) || !(e.toApproved && e.agentApproved) {
        return false;
      }
      if e.disputed {
        if op.who != e.agent {
          return false;
        }
      } else {
        if op.who != e.from && op.who != e.to {
          return false;
        }
        if e.expiration > now {
          if op.who == e.from {
            if op.receiver != e.to {
              return false;
            }
          } else if op.who == e.to {
            if op.receiver != e.from {
              return false;
            }
          }
        }
      }
      ok := AdjustBalance(op.receiver, op.amount);
      if !ok {
        return;
      }
      escrows := escrows[key := e.(balance := e.balance - op.amount)];
      if escrows[key].balance == 0 {
        escrows := escrows - {key};
        assert escrows == old(escrows) - {key};
      }
    }

    method Transfer(op: Op) returns (ok: bool)
      requires op.Transfer?
      modifies this
      ensures ok == DoTransfer(old(Contents()), op).Some?
      ensures ok ==> Contents() == DoTransfer(old(Contents()), op).value
      ensures Solvent(old(wallets)) && op.amount > 0 ==>
                && (ok <==> && op.from in old(wallets) && old(wallets)[op.from] >= op.amount
                            && (op.from != op.to ==> Balance(old(wallets), op.to) + op.amount <= MAX_SHARE))
                && (ok ==> Moved(old(wallets), wallets, op.from, op.to, op.amount))
    {
      hide Adjust;
      if Solvent(wallets) {
        TransferMeans(Contents(), op.from, op.to, op.amount);
      }
      if op.to !in wallets {
        wallets := wallets[op.to := 0];
      }
      ok := AdjustBalance(op.from, 0 - op.amount);
      if ok {
        ok := AdjustBalance(op.to, op.amount);
      }
    }

    method Contribute(op: Op) returns (ok: bool)
      requires op.Contribute?
      modifies this
      ensures ok == DoContribute(old(Contents()), op).Some?
      ensures ok ==> Contents() == DoContribute(old(Contents()), op).value
    {
      hide Adjust;
      if op.symbol !in tokens || tokens[op.symbol].phase != Ico || tokens[op.symbol].hardCap.None? || op.symbol !in icos {
        return false;
      }
      var cap := tokens[op.symbol].hardCap.value;
      if icos[op.symbol] >= cap || icos[op.symbol] + op.amount > cap {
        return false;
      }
      ok := AdjustBalance(op.contributor, 0 - op.amount);
      if !ok {
        return;
      }
      var key := (op.symbol, op.contributor, op.contributionId);
      if key in contributions {
        return false;
      }
      contributions := contributions[key := op.amount];
      icos := icos[op.symbol := icos[op.symbol] + op.amount];
    }

    method CreateToken(op: Op) returns (ok: bool)
      requires op.CreateToken?
      modifies this
      ensures ok == DoCreateToken(old(Contents()), op).Some?
      ensures ok ==> Contents() == DoCreateToken(old(Contents()), op).value
    {
      hide Adjust;
      if op.fee > 0 {
        if op.symbol in tokens || op.symbol !in pool || op.fee != creationFee {
          return false;
        }
        ok := AdjustBalance(op.control, 0 - op.fee);
        if ok {
          ok := AdjustBalance(NULL_WALLET, op.fee);
        }
        if !ok {
          return;
        }
      } else {
        if op.symbol !in tokens || tokens[op.symbol].control != op.control || tokens[op.symbol].phase != Setup {
          return false;
        }
        tokens := tokens - {op.symbol};
      }
      tokens := tokens[op.symbol := Token(op.control, Setup, None)];
      pool := pool - {op.symbol};
      assert tokens == old(tokens)[op.symbol := Token(op.control, Setup, None)];
      ok := true;
    }

    /** Undoes a session. */
    method Restore(session: State)
      modifies this
      ensures Contents() == session
    {
      now, creationFee, wallets, escrows := session.now, session.creationFee, session.wallets, session.escrows;
      nextSerial, pool, tokens := session.nextSerial, session.pool, session.tokens;
      icos, contributions := session.icos, session.contributions;
    }

    /** One operation inside an undo session: what a throw left half done is taken back. */
    method Apply(op: Op) returns (ok: bool)
      modifies this
      ensures ok == (Validated(op) && Execute(old(Contents()), op).Some?)
      ensures Contents() == Handle(old(Contents()), Do(op))
    {
      hide DoEscrowTransfer, DoEscrowApprove, DoEscrowDispute, DoEscrowRelease, DoTransfer, DoContribute, DoCreateToken;
      if !Validated(op) {
        return false;
      }
      var session := Contents();
      match op {
        case EscrowTransfer(_, _, _, _, _, _, _, _) => ok := EscrowTransfer(op);
        case EscrowApprove(_, _, _, _, _, _) => ok := EscrowApprove(op);
        case EscrowDispute(_, _, _, _, _) => ok := EscrowDispute(op);
        case EscrowRelease(_, _, _, _, _, _, _) => ok := EscrowRelease(op);
        case Transfer(_, _, _) => ok := Transfer(op);
        case Contribute(_, _, _, _) => ok := Contribute(op);
        case CreateToken(_, _, _) => ok := CreateToken(op);
      }
      assert ok == Execute(session, op).Some? && (ok ==> Execute(session, op) == Some(Contents()));
      if !ok {
        Restore(session);
      }
    }

    /** A transaction: all of its operations or none of them, and either way nothing is created or lost. */
    method ApplyTransaction(ops: seq<Op>) returns (ok: bool)
      requires Inv(Contents())
      modifies this
      ensures Inv(Contents()) && Supply(Contents()) == Supply(old(Contents()))
      ensures ok == Accepts(old(Contents()), ops)
      ensures ok ==> Contents() == Run(old(Contents()), Operations(ops))
      ensures !ok ==> Contents() == old(Contents())
    {
      hide Handle, Inv, Supply, Execute;
      var session := Contents();
      ok := true;
      var i := 0;
      while i < |ops| && ok
        invariant 0 <= i <= |ops|
        invariant ok == Accepts(session, ops[..i])
        invariant !ok ==> !Accepts(session, ops)
        invariant ok ==> Contents() == Run(session, Operations(ops[..i]))
      {
        ok := Apply(ops[i]);
        assert ops[..i + 1][..i] == ops[..i];
        AcceptsPrefix(session, ops, i + 1);
        assert Operations(ops[..i + 1])[..i] == Operations(ops[..i]);
        i := i + 1;
      }
      if ok {
        assert ops[..i] == ops;
        OperationsConserve(session, ops);
      } else {
        Restore(session);
      }
    }
  }

  function Operations(ops: seq<Op>): seq<Event> {
    seq(|ops|, i requires 0 <= i < |ops| => Do(ops[i]))
  }

  /** Each operation is valid and goes through in the state the ones before it leave. */
  predicate Accepts(s: State, ops: seq<Op>) {
    ops == [] ||
    var p, op := ops[..|ops| - 1], ops[|ops| - 1];
    Accepts(s, p) && Validated(op) && Execute(Run(s, Operations(p)), op).Some?
  }

  lemma {:induction false} AcceptsPrefix(s: State, ops: seq<Op>, n: nat)
    requires n <= |ops|
    ensures Accepts(s, ops) ==> Accepts(s, ops[..n])
  {
    if n < |ops| {
      AcceptsPrefix(s, ops[..|ops| - 1], n);
      assert ops[..|ops| - 1][..n] == ops[..n];
    } else {
      assert ops[..n] == ops;
    }
  }

  lemma {:induction false} MintsNothing(s: State, ops: seq<Op>)
    ensures MintedBy(s, Operations(ops)) == 0
  {
    if ops != [] {
      var p := ops[..|ops| - 1];
      assert Operations(ops)[..|ops| - 1] == Operations(p);
      MintsNothing(s, p);
    }
  }

  lemma OperationsConserve(s: State, ops: seq<Op>)
    requires Inv(s)
    ensures Inv(Run(s, Operations(ops))) && Supply(Run(s, Operations(ops))) == Supply(s)
  {
    hide Inv, Supply, Run, MintedBy;
    RunConserves(s, Operations(ops));
    MintsNothing(s, ops);
  }
}
