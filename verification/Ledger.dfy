/** The XGT ledger: wallets, escrows and ICO contributions, and the operations that move value between
    them. */
module Ledgers {
  import opened Collections

  type Name = string

  const NULL_WALLET: Name := "XGT0000000000000000000000000000000000000002"
  const MAX_SHARE: int := 0x7FFF_FFFF_FFFF_FFFF

  /** `serial` is the object id: unique over the whole run, while (from, escrow id) can be used again. */
  datatype Escrow = Escrow(serial: nat, from: Name, to: Name, agent: Name, deadline: nat, expiration: nat,
                           balance: int, pendingFee: int, toApproved: bool, agentApproved: bool, disputed: bool) {
    predicate Approved() {
      toApproved && agentApproved
    }

    function Held(): int {
      balance + pendingFee
    }
  }

  type EscrowKey = (Name, nat)

  datatype Phase = Setup | SetupCompleted | Ico | IcoCompleted | LaunchFailed | LaunchSuccess

  datatype Token = Token(control: Name, phase: Phase, hardCap: Option<int>)

  /** Contributions are keyed by token, contributor and contribution id. */
  type ContributionKey = (nat, Name, nat)

  /** `creationFee` is the fee for a token; `pool` holds the symbols that tokens may be created from. */
  datatype State = State(now: nat, creationFee: int, wallets: map<Name, int>, escrows: map<EscrowKey, Escrow>, nextSerial: nat,
                         pool: set<nat>, tokens: map<nat, Token>, icos: map<nat, int>, contributions: map<ContributionKey, int>)

  datatype Op =
    | EscrowTransfer(from: Name, to: Name, agent: Name, escrowId: nat, amount: int, fee: int, deadline: nat, expiration: nat)
    | EscrowApprove(from: Name, to: Name, agent: Name, who: Name, escrowId: nat, approve: bool)
    | EscrowDispute(from: Name, to: Name, agent: Name, who: Name, escrowId: nat)
    | EscrowRelease(from: Name, to: Name, agent: Name, who: Name, receiver: Name, escrowId: nat, amount: int)
    | Transfer(from: Name, to: Name, amount: int)
    | Contribute(contributor: Name, symbol: nat, contributionId: nat, amount: int)
    | CreateToken(control: Name, symbol: nat, fee: int)

  /** What the `validate` functions check before an operation is looked at. */
  predicate Validated(op: Op) {
    match op
    case EscrowTransfer(from, to, agent, _, amount, fee, deadline, expiration) =>
      fee >= 0 && amount > 0 && from != agent && to != agent && deadline < expiration
    case EscrowApprove(_, to, agent, who, _, _) => who == to || who == agent
    case EscrowDispute(from, to, _, who, _) => who == from || who == to
    case EscrowRelease(from, to, agent, who, receiver, _, amount) =>
      (who == from || who == to || who == agent) && (receiver == from || receiver == to) && amount > 0
    case Transfer(_, _, amount) => amount > 0
    case Contribute(_, _, _, amount) => amount > 0
    case CreateToken(_, _, fee) => fee >= 0
  }

  // ---------- sums over maps ----------

  ghost function Sum<K>(m: map<K, int>): int {
    if m == map[] then 0
    else
      var k :| k in m;
      m[k] + Sum(m - {k})
  }

  lemma {:induction false} SumTakeOut<K>(m: map<K, int>, k: K)
    requires k in m
    ensures Sum(m) == m[k] + Sum(m - {k})
    decreases |m|
  {
    var j :| j in m && Sum(m) == m[j] + Sum(m - {j});
    if j != k {
      SumTakeOut(m - {j}, k);
      SumTakeOut(m - {k}, j);
      assert m - {j} - {k} == m - {k} - {j};
    }
  }

  lemma SumPut<K>(m: map<K, int>, k: K, v: int)
    ensures Sum(m[k := v]) == Sum(m) - (if k in m then m[k] else 0) + v
  {
    SumTakeOut(m[k := v], k);
    if k in m {
      SumTakeOut(m, k);
      assert m[k := v] - {k} == m - {k};
    } else {
      assert m[k := v] - {k} == m;
    }
  }

  // ---------- the meaning of the operations ----------

  /** `adjust_balance` for XGT: the wallet must exist, cover a debit, and not overflow. */
  function Adjust(wallets: map<Name, int>, name: Name, delta: int): Option<map<Name, int>> {
    if name !in wallets || wallets[name] + delta < 0 || wallets[name] + delta > MAX_SHARE then None
    else Some(wallets[name := wallets[name] + delta])
  }

  function Adjust2(wallets: map<Name, int>, name: Name, delta: int, name': Name, delta': int): Option<map<Name, int>> {
    match Adjust(wallets, name, delta)
    case None => None
    case Some(w) => Adjust(w, name', delta')
  }

  function DoEscrowTransfer(s: State, op: Op): Option<State>
    requires op.EscrowTransfer?
  {
    if op.from !in s.wallets || op.to !in s.wallets || op.agent !in s.wallets then None
    else if op.deadline <= s.now || op.expiration <= s.now then None
    else if op.amount + op.fee > MAX_SHARE || (op.from, op.escrowId) in s.escrows then None
    else
      match Adjust(s.wallets, op.from, -(op.amount + op.fee))
      case None => None
      case Some(w) =>
        var e := Escrow(s.nextSerial, op.from, op.to, op.agent, op.deadline, op.expiration, op.amount, op.fee, false, false, false);
        Some(s.(wallets := w, escrows := s.escrows[(op.from, op.escrowId) := e], nextSerial := s.nextSerial + 1))
  }

  /** The guards of `escrow_approve_evaluator`. */
  predicate MayApprove(e: Escrow, op: Op, now: nat)
    requires op.EscrowApprove?
  {
    && e.to == op.to && e.agent == op.agent && e.deadline >= now
    && (op.who == op.to ==> !e.toApproved)
    && (op.who == op.agent ==> !e.agentApproved)
  }

  function DoEscrowApprove(s: State, op: Op): Option<State>
    requires op.EscrowApprove?
  {
    var key := (op.from, op.escrowId);
    if key !in s.escrows || !MayApprove(s.escrows[key], op, s.now) then None
    else
      var e := s.escrows[key];
      if !op.approve then
        match Adjust2(s.wallets, op.from, e.balance, op.from, e.pendingFee)
        case None => None
        case Some(w) => Some(s.(wallets := w, escrows := s.escrows - {key}))
      else
        var e' := e.(toApproved := e.toApproved || op.who == op.to, agentApproved := e.agentApproved || op.who == op.agent);
        if e'.Approved() then
          match Adjust(s.wallets, op.agent, e.pendingFee)
          case None => None
          case Some(w) => Some(s.(wallets := w, escrows := s.escrows[key := e'.(pendingFee := 0)]))
        else Some(s.(escrows := s.escrows[key := e']))
  }

  function DoEscrowDispute(s: State, op: Op): Option<State>
    requires op.EscrowDispute?
  {
    var key := (op.from, op.escrowId);
    if op.from !in s.wallets || key !in s.escrows then None
    else
      var e := s.escrows[key];
      if s.now >= e.expiration || !e.Approved() || e.disputed || e.to != op.to || e.agent != op.agent then None
      else Some(s.(escrows := s.escrows[key := e.(disputed := true)]))
  }

  /** The guards of `escrow_release_evaluator`: in a dispute only the agent may release; without one,
      before expiration each party only to the other, afterwards either party to either. */
  predicate MayRelease(e: Escrow, op: Op, now: nat)
    requires op.EscrowRelease?
  {
    && e.balance >= op.amount && e.to == op.to && e.agent == op.agent
    && (op.receiver == e.from || op.receiver == e.to) && e.Approved()
    && (if e.disputed then op.who == e.agent
        else
          && (op.who == e.from || op.who == e.to)
          && (e.expiration > now ==>
                if op.who == e.from then op.receiver == e.to else op.receiver == e.from))
  }

  function DoEscrowRelease(s: State, op: Op): Option<State>
    requires op.EscrowRelease?
  {
    var key := (op.from, op.escrowId);
    if op.from !in s.wallets || key !in s.escrows || !MayRelease(s.escrows[key], op, s.now) then None
    else
      match Adjust(s.wallets, op.receiver, op.amount)
      case None => None
      case Some(w) =>
        var e := s.escrows[key].(balance := s.escrows[key].balance - op.amount);
        Some(s.(wallets := w, escrows := if e.balance == 0 then s.escrows - {key} else s.escrows[key := e]))
  }

  /** A transfer to an unknown wallet creates it. */
  function DoTransfer(s: State, op: Op): Option<State>
    requires op.Transfer?
  {
    var ws := if op.to in s.wallets then s.wallets else s.wallets[op.to := 0];
    match Adjust2(ws, op.from, -op.amount, op.to, op.amount)
    case None => None
    case Some(w) => Some(s.(wallets := w))
  }

  function DoContribute(s: State, op: Op): Option<State>
    requires op.Contribute?
  {
    var key := (op.symbol, op.contributor, op.contributionId);
    if op.symbol !in s.tokens || s.tokens[op.symbol].phase != Ico || s.tokens[op.symbol].hardCap.None? then None
    else if op.symbol !in s.icos then None
    else
      var cap, contributed := s.tokens[op.symbol].hardCap.value, s.icos[op.symbol];
      if contributed >= cap || contributed + op.amount > cap || key in s.contributions then None
      else
        match Adjust(s.wallets, op.contributor, -op.amount)
        case None => None
        case Some(w) => Some(s.(wallets := w, contributions := s.contributions[key := op.amount],
                                icos := s.icos[op.symbol := contributed + op.amount]))
  }

  /** Creating a token takes its symbol from the pool and burns the fee; creating it again for nothing resets it during its setup. */
  function DoCreateToken(s: State, op: Op): Option<State>
    requires op.CreateToken?
  {
    var tokens := s.tokens[op.symbol := Token(op.control, Setup, None)];
    if op.fee > 0 then
      if op.symbol in s.tokens || op.symbol !in s.pool || op.fee != s.creationFee then None
      else
        match Adjust2(s.wallets, op.control, -op.fee, NULL_WALLET, op.fee)
        case None => None
        case Some(w) => Some(s.(wallets := w, tokens := tokens, pool := s.pool - {op.symbol}))
    else if op.symbol !in s.tokens || s.tokens[op.symbol].control != op.control || s.tokens[op.symbol].phase != Setup then None
    else Some(s.(tokens := tokens, pool := s.pool - {op.symbol}))
  }

  /** An operation's effect, or None where the source throws. */
  function Execute(s: State, op: Op): Option<State> {
    match op
    case EscrowTransfer(_, _, _, _, _, _, _, _) => DoEscrowTransfer(s, op)
    case EscrowApprove(_, _, _, _, _, _) => DoEscrowApprove(s, op)
    case EscrowDispute(_, _, _, _, _) => DoEscrowDispute(s, op)
    case EscrowRelease(_, _, _, _, _, _, _) => DoEscrowRelease(s, op)
    case Transfer(_, _, _) => DoTransfer(s, op)
    case Contribute(_, _, _, _) => DoContribute(s, op)
    case CreateToken(_, _, _) => DoCreateToken(s, op)
  }

  // ---------- runs ----------

  /** Everything that happens to a ledger: operations, and what applying blocks does besides. */
  datatype Event =
    | Do(op: Op)
    | Tick(now: nat)
    | Reward(worker: Name, amount: int)
    | ClearNull
    | OpenWallet(name: Name)
    | Configure(symbol: nat, phase: Phase, hardCap: Option<int>)
    | Expire(key: EscrowKey)
    | Replenish(symbols: set<nat>)
    | SetCreationFee(fee: int)

  /** One event; what is refused leaves the state alone. */
  function Handle(s: State, ev: Event): State {
    match ev
    case Do(op) =>
      (match if Validated(op) then Execute(s, op) else None
       case None => s
       case Some(s') => s')
    case Tick(now) => s.(now := now)
    case Reward(worker, amount) =>
      (match if amount >= 0 then Adjust(s.wallets, worker, amount) else None
       case None => s
       case Some(w) => s.(wallets := w))
    case ClearNull =>
      if NULL_WALLET in s.wallets && s.wallets[NULL_WALLET] > 0 then s.(wallets := s.wallets[NULL_WALLET := 0]) else s
    case OpenWallet(name) => if name in s.wallets then s else s.(wallets := s.wallets[name := 0])
    case Configure(symbol, phase, hardCap) =>
      if symbol !in s.tokens then s
      else s.(tokens := s.tokens[symbol := s.tokens[symbol].(phase := phase, hardCap := hardCap)],
              icos := if symbol in s.icos then s.icos else s.icos[symbol := 0])
    case Replenish(symbols) => s.(pool := s.pool + symbols)
    case SetCreationFee(fee) => s.(creationFee := fee)
    case Expire(key) =>
      if key !in s.escrows || s.escrows[key].Approved() || s.escrows[key].deadline > s.now then s
      else
        var e := s.escrows[key];
        match Adjust2(s.wallets, e.from, e.balance, e.from, e.pendingFee)
        case None => s
        case Some(w) => s.(wallets := w, escrows := s.escrows - {key})
  }

  function Run(s: State, evs: seq<Event>): State {
    if evs == [] then s else Handle(Run(s, evs[..|evs| - 1]), evs[|evs| - 1])
  }

  // ---------- conservation ----------

  ghost function Holdings(escrows: map<EscrowKey, Escrow>): map<EscrowKey, int> {
    map k | k in escrows :: escrows[k].Held()
  }

  /** All the XGT there is. */
  ghost function Supply(s: State): int {
    Sum(s.wallets) + Sum(Holdings(s.escrows)) + Sum(s.contributions)
  }

  /** What an event mints (positive) or burns (negative). */
  function Minted(s: State, ev: Event): int {
    match ev
    case Reward(worker, amount) => if amount >= 0 && Adjust(s.wallets, worker, amount).Some? then amount else 0
    case ClearNull => if NULL_WALLET in s.wallets && s.wallets[NULL_WALLET] > 0 then -s.wallets[NULL_WALLET] else 0
    case _ => 0
  }

  function MintedBy(s: State, evs: seq<Event>): int {
    if evs == [] then 0
    else MintedBy(s, evs[..|evs| - 1]) + Minted(Run(s, evs[..|evs| - 1]), evs[|evs| - 1])
  }

  lemma AdjustSum(wallets: map<Name, int>, name: Name, delta: int)
    ensures Adjust(wallets, name, delta).Some? ==> Sum(Adjust(wallets, name, delta).value) == Sum(wallets) + delta
  {
    if Adjust(wallets, name, delta).Some? {
      SumPut(wallets, name, wallets[name] + delta);
    }
  }

  lemma Adjust2Sum(wallets: map<Name, int>, name: Name, delta: int, name': Name, delta': int)
    ensures Adjust2(wallets, name, delta, name', delta').Some? ==>
              Sum(Adjust2(wallets, name, delta, name', delta').value) == Sum(wallets) + delta + delta'
  {
    AdjustSum(wallets, name, delta);
    if Adjust(wallets, name, delta).Some? {
      AdjustSum(Adjust(wallets, name, delta).value, name', delta');
    }
  }

  lemma HoldingsPut(escrows: map<EscrowKey, Escrow>, key: EscrowKey, e: Escrow)
    ensures Sum(Holdings(escrows[key := e])) == Sum(Holdings(escrows)) - (if key in escrows then escrows[key].Held() else 0) + e.Held()
  {
    assert Holdings(escrows[key := e]) == Holdings(escrows)[key := e.Held()];
    SumPut(Holdings(escrows), key, e.Held());
  }

  lemma HoldingsDrop(escrows: map<EscrowKey, Escrow>, key: EscrowKey)
    requires key in escrows
    ensures Sum(Holdings(escrows - {key})) == Sum(Holdings(escrows)) - escrows[key].Held()
  {
    assert Holdings(escrows - {key}) == Holdings(escrows) - {key};
    SumTakeOut(Holdings(escrows), key);
  }

  /** Approved escrows have paid their fee. */
  ghost predicate FeesSettled(s: State) {
    forall k :: k in s.escrows && s.escrows[k].Approved() ==> s.escrows[k].pendingFee == 0
  }

  ghost predicate Solvent(wallets: map<Name, int>) {
    forall n :: n in wallets ==> 0 <= wallets[n] <= MAX_SHARE
  }

  /** What is true of every escrow on record. */
  predicate EscrowOk(e: Escrow, key: EscrowKey, serials: nat) {
    && e.from == key.0 && e.serial < serials && e.balance > 0 && e.pendingFee >= 0
    && (e.Approved() ==> e.pendingFee == 0) && (e.disputed ==> e.Approved())
    && e.from != e.agent && e.to != e.agent && e.deadline < e.expiration
  }

  ghost predicate EscrowsOk(s: State) {
    && (forall k :: k in s.escrows ==> EscrowOk(s.escrows[k], k, s.nextSerial))
    && (forall k :: k in s.escrows ==> PartiesKnown(s.escrows[k], s.wallets))
    && (forall k, k' :: k in s.escrows && k' in s.escrows && s.escrows[k].serial == s.escrows[k'].serial ==> k == k')
  }

  predicate PartiesKnown(e: Escrow, wallets: map<Name, int>) {
    e.from in wallets && e.to in wallets && e.agent in wallets
  }

  ghost function ForSymbol(contributions: map<ContributionKey, int>, symbol: nat): map<ContributionKey, int> {
    map k | k in contributions && k.0 == symbol :: contributions[k]
  }

  /** Each ICO's running total is the sum of its contributions. */
  ghost predicate IcosOk(s: State) {
    && (forall k :: k in s.contributions ==> s.contributions[k] > 0 && k.0 in s.icos)
    && (forall y :: y in s.icos ==> s.icos[y] == Sum(ForSymbol(s.contributions, y)))
  }

  ghost predicate Inv(s: State) {
    Solvent(s.wallets) && EscrowsOk(s) && IcosOk(s)
  }

  lemma EscrowOpConserves(s: State, op: Op)
    requires FeesSettled(s) && Execute(s, op).Some?
    requires op.EscrowTransfer? || op.EscrowApprove? || op.EscrowDispute? || op.EscrowRelease?
    ensures Supply(Execute(s, op).value) == Supply(s)
  {
    hide Sum;
    var key := (op.from, op.escrowId);
    match op
    case EscrowTransfer(_, _, _, _, _, _, _, _) =>
      AdjustSum(s.wallets, op.from, -(op.amount + op.fee));
      HoldingsPut(s.escrows, key, Execute(s, op).value.escrows[key]);
    case EscrowApprove(_, _, _, _, _, _) =>
      var e := s.escrows[key];
      if !op.approve {
        Adjust2Sum(s.wallets, op.from, e.balance, op.from, e.pendingFee);
        HoldingsDrop(s.escrows, key);
      } else {
        AdjustSum(s.wallets, op.agent, e.pendingFee);
        HoldingsPut(s.escrows, key, Execute(s, op).value.escrows[key]);
      }
    case EscrowDispute(_, _, _, _, _) =>
      HoldingsPut(s.escrows, key, Execute(s, op).value.escrows[key]);
    case EscrowRelease(_, _, _, _, _, _, _) =>
      var e := s.escrows[key];
      AdjustSum(s.wallets, op.receiver, op.amount);
      HoldingsDrop(s.escrows, key);
      HoldingsPut(s.escrows, key, e.(balance := e.balance - op.amount));
  }

  lemma OtherOpConserves(s: State, op: Op)
    requires Execute(s, op).Some?
    requires op.Transfer? || op.Contribute? || op.CreateToken?
    ensures Supply(Execute(s, op).value) == Supply(s)
  {
    hide Sum;
    match op
    case Transfer(_, _, _) =>
      var ws := if op.to in s.wallets then s.wallets else s.wallets[op.to := 0];
      SumPut(s.wallets, op.to, 0);
      Adjust2Sum(ws, op.from, -op.amount, op.to, op.amount);
    case Contribute(_, _, _, _) =>
      AdjustSum(s.wallets, op.contributor, -op.amount);
      SumPut(s.contributions, (op.symbol, op.contributor, op.contributionId), op.amount);
    case CreateToken(_, _, _) =>
      Adjust2Sum(s.wallets, op.control, -op.fee, NULL_WALLET, op.fee);
  }

  /** Every event changes the supply by exactly what it mints or burns. */
  lemma EventConserves(s: State, ev: Event)
    requires FeesSettled(s)
    ensures Supply(Handle(s, ev)) == Supply(s) + Minted(s, ev)
  {
    hide Sum;
    match ev
    case Do(op) =>
      if Validated(op) && Execute(s, op).Some? {
        if op.Transfer? || op.Contribute? || op.CreateToken? {
          OtherOpConserves(s, op);
        } else {
          EscrowOpConserves(s, op);
        }
      }
    case Tick(_) =>
    case Reward(worker, amount) =>
      AdjustSum(s.wallets, worker, amount);
    case ClearNull =>
      SumPut(s.wallets, NULL_WALLET, 0);
    case OpenWallet(name) =>
      SumPut(s.wallets, name, 0);
    case Configure(_, _, _) =>
    case Replenish(_) =>
    case SetCreationFee(_) =>
    case Expire(key) =>
      if key in s.escrows {
        var e := s.escrows[key];
        Adjust2Sum(s.wallets, e.from, e.balance, e.from, e.pendingFee);
        HoldingsDrop(s.escrows, key);
      }
  }

  // ---------- invariants of every run ----------

  lemma AdjustKeeps(wallets: map<Name, int>, name: Name, delta: int)
    requires Solvent(wallets)
    ensures Adjust(wallets, name, delta).Some? ==>
              Solvent(Adjust(wallets, name, delta).value) && Adjust(wallets, name, delta).value.Keys == wallets.Keys
  {
  }

  lemma Adjust2Keeps(wallets: map<Name, int>, name: Name, delta: int, name': Name, delta': int)
    requires Solvent(wallets)
    ensures Adjust2(wallets, name, delta, name', delta').Some? ==>
              && Solvent(Adjust2(wallets, name, delta, name', delta').value)
              && Adjust2(wallets, name, delta, name', delta').value.Keys == wallets.Keys
  {
    AdjustKeeps(wallets, name, delta);
    if Adjust(wallets, name, delta).Some? {
      AdjustKeeps(Adjust(wallets, name, delta).value, name', delta');
    }
  }

  /** No wallet is ever negative, and none disappears. */
  lemma EventSolvent(s: State, ev: Event)
    requires Inv(s)
    ensures Solvent(Handle(s, ev).wallets) && s.wallets.Keys <= Handle(s, ev).wallets.Keys
  {
    hide EscrowsOk, IcosOk, Adjust, Adjust2;
    match ev
    case Do(op) =>
      if Validated(op) && Execute(s, op).Some? {
        OpSolvent(s, op);
      }
    case Reward(worker, amount) => AdjustKeeps(s.wallets, worker, amount);
    case Expire(key) =>
      if key in s.escrows {
        var e := s.escrows[key];
        Adjust2Keeps(s.wallets, e.from, e.balance, e.from, e.pendingFee);
      }
    case _ =>
  }

  lemma OpSolvent(s: State, op: Op)
    requires Solvent(s.wallets) && Execute(s, op).Some?
    ensures Solvent(Execute(s, op).value.wallets) && s.wallets.Keys <= Execute(s, op).value.wallets.Keys
  {
    hide Adjust, Adjust2;
    match op
    case EscrowTransfer(_, _, _, _, _, _, _, _) => AdjustKeeps(s.wallets, op.from, -(op.amount + op.fee));
    case EscrowApprove(_, _, _, _, _, _) =>
      var e := s.escrows[(op.from, op.escrowId)];
      Adjust2Keeps(s.wallets, op.from, e.balance, op.from, e.pendingFee);
      AdjustKeeps(s.wallets, op.agent, e.pendingFee);
    case EscrowDispute(_, _, _, _, _) =>
    case EscrowRelease(_, _, _, _, _, _, _) => AdjustKeeps(s.wallets, op.receiver, op.amount);
    case Transfer(_, _, _) =>
      var ws := if op.to in s.wallets then s.wallets else s.wallets[op.to := 0];
      Adjust2Keeps(ws, op.from, -op.amount, op.to, op.amount);
    case Contribute(_, _, _, _) => AdjustKeeps(s.wallets, op.contributor, -op.amount);
    case CreateToken(_, _, _) => Adjust2Keeps(s.wallets, op.control, -op.fee, NULL_WALLET, op.fee);
  }

  lemma PutOk(s: State, s': State, key: EscrowKey, e: Escrow)
    requires EscrowsOk(s) && s'.escrows == s.escrows[key := e] && s.wallets.Keys <= s'.wallets.Keys
    requires s.nextSerial <= s'.nextSerial && EscrowOk(e, key, s'.nextSerial) && PartiesKnown(e, s'.wallets)
    requires if key in s.escrows then e.serial == s.escrows[key].serial else e.serial == s.nextSerial
    ensures EscrowsOk(s')
  {
  }

  lemma DropOk(s: State, s': State, keys: set<EscrowKey>)
    requires EscrowsOk(s) && s'.escrows == s.escrows - keys && s.wallets.Keys <= s'.wallets.Keys && s'.nextSerial == s.nextSerial
    ensures EscrowsOk(s')
  {
  }

  lemma OpEscrows(s: State, op: Op)
    requires Solvent(s.wallets) && EscrowsOk(s) && Validated(op) && Execute(s, op).Some?
    ensures EscrowsOk(Execute(s, op).value)
  {
    hide Adjust, Adjust2, Solvent, EscrowsOk;
    OpSolvent(s, op);
    var s' := Execute(s, op).value;
    match op
    case EscrowTransfer(_, _, _, _, _, _, _, _) =>
      PutOk(s, s', (op.from, op.escrowId), s'.escrows[(op.from, op.escrowId)]);
    case EscrowApprove(_, _, _, _, _, _) => KeyedOpEscrows(s, op, (op.from, op.escrowId));
    case EscrowDispute(_, _, _, _, _) => KeyedOpEscrows(s, op, (op.from, op.escrowId));
    case EscrowRelease(_, _, _, _, _, _, _) => KeyedOpEscrows(s, op, (op.from, op.escrowId));
    case _ =>
      assert s'.escrows == s.escrows - {};
      DropOk(s, s', {});
  }

  lemma KeyedOpEscrows(s: State, op: Op, key: EscrowKey)
    requires EscrowsOk(s) && Validated(op) && Execute(s, op).Some?
    requires op.EscrowApprove? || op.EscrowDispute? || op.EscrowRelease?
    requires key == (op.from, op.escrowId) && s.wallets.Keys <= Execute(s, op).value.wallets.Keys
    ensures EscrowsOk(Execute(s, op).value)
  {
    hide Adjust, Adjust2;
    var s' := Execute(s, op).value;
    assert EscrowOk(s.escrows[key], key, s.nextSerial) && PartiesKnown(s.escrows[key], s.wallets);
    if key in s'.escrows {
      PutOk(s, s', key, s'.escrows[key]);
    } else {
      DropOk(s, s', {key});
    }
  }

  /** Every escrow on record stays well formed: positive balance, fee settled once approved, its parties
      known, its serial number its own. */
  lemma EventEscrows(s: State, ev: Event)
    requires Inv(s)
    ensures EscrowsOk(Handle(s, ev))
  {
    hide IcosOk, Adjust, Adjust2, EscrowsOk, Execute, Solvent;
    EventSolvent(s, ev);
    var s' := Handle(s, ev);
    match ev
    case Do(op) =>
      if Validated(op) && Execute(s, op).Some? {
        OpEscrows(s, op);
      }
    case Expire(key) =>
      if s' != s {
        DropOk(s, s', {key});
      }
    case _ =>
      assert s'.escrows == s.escrows - {};
      DropOk(s, s', {});
  }

  lemma ContributionPut(contributions: map<ContributionKey, int>, key: ContributionKey, amount: int, symbol: nat)
    requires key !in contributions
    ensures Sum(ForSymbol(contributions[key := amount], symbol))
            == Sum(ForSymbol(contributions, symbol)) + if key.0 == symbol then amount else 0
  {
    var m, m' := ForSymbol(contributions, symbol), ForSymbol(contributions[key := amount], symbol);
    if key.0 == symbol {
      assert m' == m[key := amount];
      SumPut(m, key, amount);
    } else {
      assert m' == m;
    }
  }

  lemma ContributeIcos(s: State, op: Op)
    requires IcosOk(s) && op.Contribute? && Validated(op) && Execute(s, op).Some?
    ensures IcosOk(Execute(s, op).value)
  {
    hide Adjust, Sum;
    var s' := Execute(s, op).value;
    var key := (op.symbol, op.contributor, op.contributionId);
    forall y | y in s'.icos ensures s'.icos[y] == Sum(ForSymbol(s'.contributions, y)) {
      ContributionPut(s.contributions, key, op.amount, y);
    }
  }

  lemma OpKeepsIcos(s: State, op: Op)
    requires Execute(s, op).Some? && !op.Contribute?
    ensures Execute(s, op).value.icos == s.icos && Execute(s, op).value.contributions == s.contributions
  {
    hide Adjust, Adjust2;
  }

  lemma ConfigureIcos(s: State, symbol: nat)
    requires IcosOk(s) && symbol !in s.icos
    ensures Sum(ForSymbol(s.contributions, symbol)) == 0
  {
    assert ForSymbol(s.contributions, symbol) == map[];
  }

  lemma EventIcos(s: State, ev: Event)
    requires Inv(s)
    ensures IcosOk(Handle(s, ev))
  {
    hide Adjust, Adjust2, EscrowsOk, Execute, Solvent, Sum, ForSymbol;
    match ev
    case Do(op) =>
      if Validated(op) && Execute(s, op).Some? {
        if op.Contribute? {
          ContributeIcos(s, op);
        } else {
          OpKeepsIcos(s, op);
        }
      }
    case Configure(symbol, _, _) =>
      if symbol !in s.icos {
        ConfigureIcos(s, symbol);
      }
    case _ =>
  }

  /** Over every run: no negative balance, well-formed escrows, ICO totals that match, and a supply that
      has changed only by mining rewards and by clearing the null wallet. */
  lemma {:induction false} RunConserves(s: State, evs: seq<Event>)
    requires Inv(s)
    ensures Inv(Run(s, evs)) && Supply(Run(s, evs)) == Supply(s) + MintedBy(s, evs)
  {
    hide Handle, Supply, Solvent, EscrowsOk, IcosOk, Minted;
    if evs != [] {
      var p, ev := evs[..|evs| - 1], evs[|evs| - 1];
      RunConserves(s, p);
      SettledFees(Run(s, p));
      EventSolvent(Run(s, p), ev);
      EventEscrows(Run(s, p), ev);
      EventIcos(Run(s, p), ev);
      EventConserves(Run(s, p), ev);
    }
  }

  lemma SettledFees(s: State)
    requires EscrowsOk(s)
    ensures FeesSettled(s)
  {
  }
}
