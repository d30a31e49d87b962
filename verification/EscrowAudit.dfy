/** The life of a single escrow: what was paid in, what was paid out and to whom, what is still held. */
module EscrowAudits {
  import opened Collections
  import opened Ledgers

  datatype Reason = Principal | AgentFee | Refund

  datatype Payment = Payment(to: Name, amount: int, reason: Reason)

  /** The escrow an event acts on, if it acts on one already on record. */
  function EventKey(ev: Event): Option<EscrowKey> {
    match ev
    case Do(EscrowApprove(from, _, _, _, id, _)) => Some((from, id))
    case Do(EscrowDispute(from, _, _, _, id)) => Some((from, id))
    case Do(EscrowRelease(from, _, _, _, _, id, _)) => Some((from, id))
    case Expire(key) => Some(key)
    case _ => None
  }

  predicate Succeeds(s: State, ev: Event) {
    match ev
    case Do(op) => Validated(op) && Execute(s, op).Some?
    case Expire(key) =>
      && key in s.escrows && !s.escrows[key].Approved() && s.escrows[key].deadline <= s.now
      && Adjust2(s.wallets, s.escrows[key].from, s.escrows[key].balance, s.escrows[key].from, s.escrows[key].pendingFee).Some?
    case _ => true
  }

  /** The last missing approval. */
  predicate Completes(e: Escrow, op: Op)
    requires op.EscrowApprove?
  {
    op.approve && (e.toApproved || op.who == op.to) && (e.agentApproved || op.who == op.agent)
  }

  /** The payments an event makes out of the escrow it acts on. */
  function Payments(s: State, ev: Event): seq<Payment> {
    if EventKey(ev).None? || EventKey(ev).value !in s.escrows || !Succeeds(s, ev) then []
    else
      var e := s.escrows[EventKey(ev).value];
      match ev
      case Do(EscrowApprove(from, to, agent, who, id, approve)) =>
        if !approve then [Payment(from, e.balance, Refund), Payment(from, e.pendingFee, Refund)]
        else if Completes(e, ev.op) then [Payment(agent, e.pendingFee, AgentFee)]
        else []
      case Do(EscrowRelease(_, _, _, _, receiver, _, amount)) => [Payment(receiver, amount, Principal)]
      case Expire(_) => [Payment(e.from, e.balance, Refund), Payment(e.from, e.pendingFee, Refund)]
      case _ => []
  }

  function Total(ps: seq<Payment>): int {
    if ps == [] then 0 else ps[0].amount + Total(ps[1..])
  }

  /** What the payments do to the wallets. */
  function Credit(wallets: map<Name, int>, ps: seq<Payment>): Option<map<Name, int>> {
    if ps == [] then Some(wallets)
    else
      match Adjust(wallets, ps[0].to, ps[0].amount)
      case None => None
      case Some(w) => Credit(w, ps[1..])
  }

  function HeldAt(s: State, key: EscrowKey): int {
    if key in s.escrows then s.escrows[key].Held() else 0
  }

  lemma CreditOne(wallets: map<Name, int>, p: Payment)
    ensures Credit(wallets, [p]) == Adjust(wallets, p.to, p.amount) && Total([p]) == p.amount
  {
    assert [p][1..] == [];
  }

  lemma CreditTwo(wallets: map<Name, int>, p: Payment, q: Payment)
    ensures Credit(wallets, [p, q]) == Adjust2(wallets, p.to, p.amount, q.to, q.amount)
    ensures Total([p, q]) == p.amount + q.amount
  {
    hide Adjust;
    assert [p, q][1..] == [q];
    CreditOne(wallets, q);
    if Adjust(wallets, p.to, p.amount).Some? {
      CreditOne(Adjust(wallets, p.to, p.amount).value, q);
    }
  }

  ghost predicate OnlyAt(m: map<EscrowKey, Escrow>, m': map<EscrowKey, Escrow>, key: EscrowKey) {
    m - {key} == m' - {key}
  }

  lemma OnlyAtPut(m: map<EscrowKey, Escrow>, key: EscrowKey, e: Escrow)
    ensures OnlyAt(m, m, key) && OnlyAt(m, m[key := e], key) && OnlyAt(m, m - {key}, key)
  {
  }

  /** An event on a recorded escrow pays exactly what the escrow then holds less, and pays it to the
      wallets; it leaves every other escrow alone and never changes who an escrow belongs to. */
  ghost predicate Matches(s: State, ev: Event, key: EscrowKey)
    requires key in s.escrows
  {
    var s' := Handle(s, ev);
    && HeldAt(s', key) + Total(Payments(s, ev)) == s.escrows[key].Held()
    && Credit(s.wallets, Payments(s, ev)) == Some(s'.wallets)
    && OnlyAt(s.escrows, s'.escrows, key) && s'.nextSerial == s.nextSerial
    && (key in s'.escrows ==> s'.escrows[key].serial == s.escrows[key].serial)
  }

  lemma ApproveMatches(s: State, ev: Event, key: EscrowKey)
    requires ev.Do? && ev.op.EscrowApprove? && EventKey(ev) == Some(key) && key in s.escrows
    requires EscrowOk(s.escrows[key], key, s.nextSerial)
    ensures Matches(s, ev, key)
  {
    hide OnlyAt, Credit, Total, Adjust, Adjust2;
    var e, s', op := s.escrows[key], Handle(s, ev), ev.op;
    OnlyAtPut(s.escrows, key, if key in s'.escrows then s'.escrows[key] else e);
    NoPayments(s.wallets);
    CreditTwo(s.wallets, Payment(op.from, e.balance, Refund), Payment(op.from, e.pendingFee, Refund));
    CreditOne(s.wallets, Payment(op.agent, e.pendingFee, AgentFee));
  }

  lemma ReleaseMatches(s: State, ev: Event, key: EscrowKey)
    requires ev.Do? && (ev.op.EscrowRelease? || ev.op.EscrowDispute?) && EventKey(ev) == Some(key) && key in s.escrows
    requires EscrowOk(s.escrows[key], key, s.nextSerial)
    ensures Matches(s, ev, key)
  {
    hide OnlyAt, Credit, Total, Adjust, Adjust2;
    var e, s', op := s.escrows[key], Handle(s, ev), ev.op;
    OnlyAtPut(s.escrows, key, if key in s'.escrows then s'.escrows[key] else e);
    NoPayments(s.wallets);
    if op.EscrowRelease? {
      CreditOne(s.wallets, Payment(op.receiver, op.amount, Principal));
    }
  }

  lemma ExpireMatches(s: State, ev: Event, key: EscrowKey)
    requires ev == Expire(key) && key in s.escrows
    ensures Matches(s, ev, key)
  {
    hide OnlyAt, Credit, Total, Adjust, Adjust2;
    var e := s.escrows[key];
    OnlyAtPut(s.escrows, key, e);
    NoPayments(s.wallets);
    CreditTwo(s.wallets, Payment(e.from, e.balance, Refund), Payment(e.from, e.pendingFee, Refund));
  }

  lemma PaymentsMatch(s: State, ev: Event, key: EscrowKey)
    requires Inv(s) && EventKey(ev) == Some(key) && key in s.escrows
    ensures Matches(s, ev, key)
  {
    hide Matches, Solvent, IcosOk;
    assert EscrowOk(s.escrows[key], key, s.nextSerial);
    if ev.Expire? {
      ExpireMatches(s, ev, key);
    } else if ev.op.EscrowApprove? {
      ApproveMatches(s, ev, key);
    } else {
      ReleaseMatches(s, ev, key);
    }
  }

  /** Who an escrow pays: before approval only refunds to the sender and the one fee to the agent, after it
      only principal, and that only to the sender or the receiver. */
  lemma PaidToWhom(s: State, ev: Event, key: EscrowKey, p: Payment)
    requires Inv(s) && EventKey(ev) == Some(key) && key in s.escrows && p in Payments(s, ev)
    ensures var e := s.escrows[key];
            && (p.reason == Principal <==> e.Approved())
            && (p.reason == Principal ==> p.to == e.from || p.to == e.to)
            && (p.reason == Refund ==> p.to == e.from)
            && (p.reason == AgentFee ==> p.to == e.agent && p.amount == e.pendingFee)
  {
    hide Solvent, IcosOk, Adjust, Adjust2;
    assert EscrowOk(s.escrows[key], key, s.nextSerial);
  }

  lemma NoPayments(wallets: map<Name, int>)
    ensures Total([]) == 0 && Credit(wallets, []) == Some(wallets)
  {
  }

  // ---------- whole runs ----------

  /** Where the escrow with a given serial number is on record, if it is. */
  ghost function KeyOf(s: State, n: nat): (r: Option<EscrowKey>)
    ensures r.Some? ==> r.value in s.escrows && s.escrows[r.value].serial == n
    ensures r.None? ==> forall k :: k in s.escrows ==> s.escrows[k].serial != n
  {
    if k :| k in s.escrows && s.escrows[k].serial == n then Some(k) else None
  }

  ghost function HeldOf(s: State, n: nat): int {
    match KeyOf(s, n)
    case None => 0
    case Some(k) => s.escrows[k].Held()
  }

  predicate ActsOn(s: State, ev: Event, n: nat) {
    EventKey(ev).Some? && EventKey(ev).value in s.escrows && s.escrows[EventKey(ev).value].serial == n
  }

  function PaidStep(s: State, ev: Event, n: nat): int {
    if ActsOn(s, ev, n) then Total(Payments(s, ev)) else 0
  }

  predicate Creates(s: State, ev: Event, n: nat) {
    ev.Do? && ev.op.EscrowTransfer? && Succeeds(s, ev) && s.nextSerial == n
  }

  function DepositStep(s: State, ev: Event, n: nat): int {
    if Creates(s, ev, n) then ev.op.amount + ev.op.fee else 0
  }

  function FeeStep(s: State, ev: Event, n: nat): nat {
    if ActsOn(s, ev, n) && ev.Do? && ev.op.EscrowApprove? && Succeeds(s, ev) && Completes(s.escrows[EventKey(ev).value], ev.op)
    then 1 else 0
  }

  function Paid(s: State, evs: seq<Event>, n: nat): int {
    if evs == [] then 0
    else Paid(s, evs[..|evs| - 1], n) + PaidStep(Run(s, evs[..|evs| - 1]), evs[|evs| - 1], n)
  }

  function Deposited(s: State, evs: seq<Event>, n: nat): int {
    if evs == [] then 0
    else Deposited(s, evs[..|evs| - 1], n) + DepositStep(Run(s, evs[..|evs| - 1]), evs[|evs| - 1], n)
  }

  /** How often the agent of escrow `n` was paid. */
  function FeesPaid(s: State, evs: seq<Event>, n: nat): nat {
    if evs == [] then 0
    else FeesPaid(s, evs[..|evs| - 1], n) + FeeStep(Run(s, evs[..|evs| - 1]), evs[|evs| - 1], n)
  }

  lemma KeyOfIs(s: State, n: nat, k: EscrowKey)
    requires EscrowsOk(s) && k in s.escrows && s.escrows[k].serial == n
    ensures KeyOf(s, n) == Some(k)
  {
  }

  /** Events that do not act on a recorded escrow change no recorded escrow; a transfer adds one. */
  lemma OtherEvents(s: State, ev: Event)
    requires EventKey(ev).None? || EventKey(ev).value !in s.escrows
    ensures var s' := Handle(s, ev);
            if ev.Do? && ev.op.EscrowTransfer? && Succeeds(s, ev) then
              var key := (ev.op.from, ev.op.escrowId);
              && key !in s.escrows && s'.nextSerial == s.nextSerial + 1
              && s'.escrows == s.escrows[key := Escrow(s.nextSerial, ev.op.from, ev.op.to, ev.op.agent, ev.op.deadline,
                                                       ev.op.expiration, ev.op.amount, ev.op.fee, false, false, false)]
            else s'.escrows == s.escrows && s'.nextSerial == s.nextSerial
  {
    hide Adjust, Adjust2;
  }

  /** One event keeps an escrow's books balanced. */
  lemma StepBalances(s: State, ev: Event, n: nat)
    requires Inv(s) && EscrowsOk(Handle(s, ev))
    ensures HeldOf(s, n) + DepositStep(s, ev, n) == PaidStep(s, ev, n) + HeldOf(Handle(s, ev), n)
  {
    hide Solvent, IcosOk, Handle, Payments, Total, Succeeds, OnlyAt;
    var s' := Handle(s, ev);
    if EventKey(ev).Some? && EventKey(ev).value in s.escrows {
      var key := EventKey(ev).value;
      PaymentsMatch(s, ev, key);
      SameElsewhere(s, s', key, n);
      if s.escrows[key].serial == n {
        KeyOfIs(s, n, key);
        if key in s'.escrows {
          KeyOfIs(s', n, key);
        }
      }
    } else {
      OtherEvents(s, ev);
      CreatedOrSame(s, s', n, if ev.Do? && ev.op.EscrowTransfer? then (ev.op.from, ev.op.escrowId) else ("", 0));
    }
  }

  lemma SameElsewhere(s: State, s': State, key: EscrowKey, n: nat)
    requires EscrowsOk(s) && EscrowsOk(s') && OnlyAt(s.escrows, s'.escrows, key) && key in s.escrows
    requires key in s'.escrows ==> s'.escrows[key].serial == s.escrows[key].serial
    ensures s.escrows[key].serial != n ==> HeldOf(s, n) == HeldOf(s', n)
    ensures s.escrows[key].serial == n && key !in s'.escrows ==> KeyOf(s', n) == None
  {
    hide EscrowOk, PartiesKnown;
    forall k | k != key ensures k in s.escrows <==> k in s'.escrows
      ensures k in s.escrows ==> s.escrows[k] == s'.escrows[k]
    {
      assert k in s.escrows <==> k in s.escrows - {key};
      assert k in s'.escrows <==> k in s'.escrows - {key};
      if k in s.escrows {
        assert s.escrows[k] == (s.escrows - {key})[k] == (s'.escrows - {key})[k];
      }
    }
  }

  lemma CreatedOrSame(s: State, s': State, n: nat, key: EscrowKey)
    requires EscrowsOk(s) && EscrowsOk(s')
    requires s'.escrows == s.escrows || (key in s'.escrows && key !in s.escrows && s'.escrows[key].serial == s.nextSerial
                                         && s'.escrows == s.escrows[key := s'.escrows[key]])
    ensures s'.escrows == s.escrows || n != s.nextSerial ==> HeldOf(s, n) == HeldOf(s', n)
    ensures s'.escrows != s.escrows && n == s.nextSerial ==> KeyOf(s, n) == None && KeyOf(s', n) == Some(key)
  {
    if KeyOf(s, n).Some? {
      assert EscrowOk(s.escrows[KeyOf(s, n).value], KeyOf(s, n).value, s.nextSerial);
      KeyOfIs(s', n, KeyOf(s, n).value);
    }
  }

  /** At every point of every run, what an escrow has paid out plus what it still holds is what was put
      into it. */
  lemma {:induction false} RunBalances(s: State, evs: seq<Event>, n: nat)
    requires Inv(s)
    ensures HeldOf(s, n) + Deposited(s, evs, n) == Paid(s, evs, n) + HeldOf(Run(s, evs), n)
  {
    hide Inv, Handle, HeldOf, DepositStep, PaidStep;
    if evs != [] {
      var p, ev := evs[..|evs| - 1], evs[|evs| - 1];
      RunBalances(s, p, n);
      RunInv(s, p);
      RunInv(s, evs);
      StepBalances(Run(s, p), ev, n);
    }
  }

  lemma RunInv(s: State, evs: seq<Event>)
    requires Inv(s)
    ensures Inv(Run(s, evs)) && EscrowsOk(Run(s, evs))
  {
    RunConserves(s, evs);
  }

  // ---------- the agent's fee ----------

  /** The fee of escrow `n` has been paid once if it is approved, not at all before that. */
  ghost predicate FeeOnce(s: State, n: nat, count: nat) {
    && count <= 1 && (n >= s.nextSerial ==> count == 0)
    && (KeyOf(s, n).Some? ==> count == if s.escrows[KeyOf(s, n).value].Approved() then 1 else 0)
  }

  /** The approvals of the escrow an event acts on change only by completing them. */
  lemma ApprovalStep(s: State, ev: Event, key: EscrowKey)
    requires Inv(s) && EventKey(ev) == Some(key) && key in s.escrows
    ensures var n, s' := s.escrows[key].serial, Handle(s, ev);
            && (FeeStep(s, ev, n) == 1 ==> !s.escrows[key].Approved() && key in s'.escrows && s'.escrows[key].Approved())
            && (FeeStep(s, ev, n) == 0 && key in s'.escrows ==> s'.escrows[key].Approved() == s.escrows[key].Approved())
  {
    hide Solvent, IcosOk, Adjust, Adjust2;
    assert EscrowOk(s.escrows[key], key, s.nextSerial);
  }

  lemma StepFee(s: State, ev: Event, n: nat, count: nat)
    requires Inv(s) && EscrowsOk(Handle(s, ev)) && FeeOnce(s, n, count)
    ensures FeeOnce(Handle(s, ev), n, count + FeeStep(s, ev, n))
  {
    hide Solvent, IcosOk, Handle, Payments, Total, Succeeds, OnlyAt, Completes;
    var s' := Handle(s, ev);
    if EventKey(ev).Some? && EventKey(ev).value in s.escrows {
      var key := EventKey(ev).value;
      assert EscrowOk(s.escrows[key], key, s.nextSerial);
      PaymentsMatch(s, ev, key);
      ApprovalStep(s, ev, key);
      SameKeyElsewhere(s, s', key, n);
      if s.escrows[key].serial == n {
        KeyOfIs(s, n, key);
      }
    } else {
      OtherEvents(s, ev);
      SameKeyOrNew(s, s', n, if ev.Do? && ev.op.EscrowTransfer? then (ev.op.from, ev.op.escrowId) else ("", 0));
    }
  }

  lemma SameKeyElsewhere(s: State, s': State, key: EscrowKey, n: nat)
    requires EscrowsOk(s) && EscrowsOk(s') && OnlyAt(s.escrows, s'.escrows, key) && key in s.escrows
    requires key in s'.escrows ==> s'.escrows[key].serial == s.escrows[key].serial
    ensures s.escrows[key].serial != n && KeyOf(s', n).Some? ==>
              KeyOf(s, n) == KeyOf(s', n) && s.escrows[KeyOf(s', n).value] == s'.escrows[KeyOf(s', n).value]
    ensures s.escrows[key].serial == n && KeyOf(s', n).Some? ==> KeyOf(s', n).value == key
  {
    if KeyOf(s', n).Some? {
      var k := KeyOf(s', n).value;
      if k != key {
        assert k in s'.escrows - {key};
        assert k in s.escrows - {key};
        assert (s.escrows - {key})[k] == s.escrows[k] && (s'.escrows - {key})[k] == s'.escrows[k];
        KeyOfIs(s, n, k);
      }
    }
  }

  lemma SameKeyOrNew(s: State, s': State, n: nat, key: EscrowKey)
    requires EscrowsOk(s) && EscrowsOk(s') && s.nextSerial <= s'.nextSerial
    requires s'.escrows == s.escrows || (key in s'.escrows && key !in s.escrows && s'.escrows[key].serial == s.nextSerial
                                         && s'.escrows == s.escrows[key := s'.escrows[key]] && !s'.escrows[key].Approved())
    ensures KeyOf(s', n).Some? ==>
              || (KeyOf(s, n) == KeyOf(s', n) && s.escrows[KeyOf(s', n).value] == s'.escrows[KeyOf(s', n).value])
              || (n == s.nextSerial && !s'.escrows[KeyOf(s', n).value].Approved())
  {
    if KeyOf(s', n).Some? {
      var k := KeyOf(s', n).value;
      if k in s.escrows {
        KeyOfIs(s, n, k);
      }
    }
  }

  /** In every run the agent of an escrow is paid at most once: not before both approvals, and exactly
      once when they are there. */
  lemma {:induction false} RunFees(s: State, evs: seq<Event>, n: nat)
    requires Inv(s) && n >= s.nextSerial
    ensures FeeOnce(Run(s, evs), n, FeesPaid(s, evs, n))
  {
    hide Handle, FeeStep, Solvent, IcosOk, FeeOnce;
    if evs != [] {
      var p, ev := evs[..|evs| - 1], evs[|evs| - 1];
      RunFees(s, p, n);
      RunInv(s, p);
      RunInv(s, evs);
      StepFee(Run(s, p), ev, n, FeesPaid(s, p, n));
    } else {
      NotYet(s, n);
    }
  }

  lemma NotYet(s: State, n: nat)
    requires EscrowsOk(s) && n >= s.nextSerial
    ensures FeeOnce(s, n, 0)
  {
    assert forall k :: k in s.escrows ==> EscrowOk(s.escrows[k], k, s.nextSerial);
  }

  // ---------- stranded funds ----------

  /** Some operation would change the escrow at `key`. */
  ghost predicate CanMove(s: State, key: EscrowKey) {
    exists op :: Validated(op) && Execute(s, op).Some? && Changed(s, Execute(s, op).value, key)
  }

  predicate Changed(s: State, s': State, key: EscrowKey)
  {
    key in s.escrows && (key !in s'.escrows || s'.escrows[key] != s.escrows[key])
  }

  /** An escrow that was not approved in time is out of every operation's reach. */
  lemma OverdueUnchanged(s: State, op: Op, key: EscrowKey)
    requires key in s.escrows && !s.escrows[key].Approved() && s.escrows[key].deadline < s.now && Execute(s, op).Some?
    ensures !Changed(s, Execute(s, op).value, key)
  {
    hide Adjust, Adjust2;
  }

  /** Events in time order, without the expiry of unratified escrows, whose call is disabled. */
  predicate Orderly(s: State, evs: seq<Event>) {
    evs == [] || (&& Orderly(s, evs[..|evs| - 1]) && !evs[|evs| - 1].Expire?
                  && (evs[|evs| - 1].Tick? ==> evs[|evs| - 1].now >= Run(s, evs[..|evs| - 1]).now))
  }

  /** So its funds stay where they are for ever. */
  lemma {:induction false} Stranded(s: State, evs: seq<Event>, key: EscrowKey)
    requires key in s.escrows && !s.escrows[key].Approved() && s.escrows[key].deadline < s.now && Orderly(s, evs)
    ensures var s' := Run(s, evs); key in s'.escrows && s'.escrows[key] == s.escrows[key] && s'.now >= s.now
  {
    hide Execute, Adjust, Adjust2;
    if evs != [] {
      var p, ev := evs[..|evs| - 1], evs[|evs| - 1];
      Stranded(s, p, key);
      if ev.Do? && Validated(ev.op) && Execute(Run(s, p), ev.op).Some? {
        OverdueUnchanged(Run(s, p), ev.op, key);
        OpKeepsTime(Run(s, p), ev.op);
      }
    }
  }

  lemma OpKeepsTime(s: State, op: Op)
    requires Execute(s, op).Some?
    ensures Execute(s, op).value.now == s.now
  {
    hide Adjust, Adjust2;
  }

  lemma {:induction false} SumAtLeast<K>(m: map<K, int>, k: K)
    requires k in m && forall j :: j in m ==> m[j] >= 0
    ensures 0 <= Sum(m) - m[k]
    decreases |m|
  {
    SumTakeOut(m, k);
    if m - {k} != map[] {
      var j :| j in m - {k};
      SumAtLeast(m - {k}, j);
    }
  }

  /** Nothing a wallet could be paid from an escrow makes it overflow, as long as the supply does not. */
  lemma RoomForPayment(s: State, name: Name, key: EscrowKey)
    requires Inv(s) && Supply(s) <= MAX_SHARE && name in s.wallets && key in s.escrows
    ensures s.wallets[name] + s.escrows[key].Held() <= MAX_SHARE
  {
    hide Sum;
    assert forall k :: k in s.escrows ==> EscrowOk(s.escrows[k], k, s.nextSerial);
    SumAtLeast(s.wallets, name);
    SumAtLeast(Holdings(s.escrows), key);
    if s.contributions != map[] {
      var k :| k in s.contributions;
      SumAtLeast(s.contributions, k);
    } else {
      EmptySum();
    }
  }

  lemma EmptySum()
    ensures Sum<ContributionKey>(map[]) == 0
  {
  }

  /** The operation that moves an escrow that can be moved: a release of all of it, or a rejection. */
  function Mover(e: Escrow, key: EscrowKey): Op {
    if e.Approved() then
      EscrowRelease(e.from, e.to, e.agent, if e.disputed then e.agent else e.from, e.to, key.1, e.balance)
    else EscrowApprove(e.from, e.to, e.agent, if e.toApproved then e.agent else e.to, key.1, false)
  }

  lemma Moves(s: State, key: EscrowKey)
    requires Inv(s) && Supply(s) <= MAX_SHARE && key in s.escrows
    requires s.escrows[key].Approved() || s.now <= s.escrows[key].deadline
    ensures var op := Mover(s.escrows[key], key);
            Validated(op) && Execute(s, op).Some? && key !in Execute(s, op).value.escrows
  {
    hide IcosOk, Supply;
    var e := s.escrows[key];
    assert EscrowOk(e, key, s.nextSerial) && PartiesKnown(e, s.wallets);
    RoomForPayment(s, e.from, key);
    RoomForPayment(s, e.to, key);
  }

  /** Exactly when an escrow's funds can still move. */
  lemma CanMoveIff(s: State, key: EscrowKey)
    requires Inv(s) && Supply(s) <= MAX_SHARE && key in s.escrows
    ensures CanMove(s, key) <==> s.escrows[key].Approved() || s.now <= s.escrows[key].deadline
  {
    hide Execute, Inv, Supply;
    if s.escrows[key].Approved() || s.now <= s.escrows[key].deadline {
      Moves(s, key);
      assert Changed(s, Execute(s, Mover(s.escrows[key], key)).value, key);
    } else {
      forall op | Validated(op) && Execute(s, op).Some? ensures !Changed(s, Execute(s, op).value, key) {
        OverdueUnchanged(s, op, key);
      }
    }
  }
}
