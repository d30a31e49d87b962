/** Mining rewards: what one block mints, and what any chain can mint in all. */
module Rewards {
  import opened Bits
  import opened Blocks
  import opened Collections
  import opened LedgerEffects
  import opened Ledgers
  import ChainDatabases

  /** From this height on the block, not the operation, rewards a proof of work, and only the first one. */
  const FIRST_MINER_ONLY: nat := 2116800

  /** `prev` is the block a proof names beside its input, `inputPrev` the one inside it.  `sizeOk`: the voted
      block size is large enough; `newKey`: a key for a wallet to be created is given. */
  datatype PowOp = Pow(worker: Name, summary: nat, prev: BlockId, inputPrev: BlockId, sizeOk: bool, newKey: bool) | OtherOp

  datatype PowBlock = PowBlock(previous: BlockId, miner: Name, txs: seq<seq<PowOp>>)

  // ---------- the amount ----------

  function Halved(base: nat, h: nat): nat {
    Quot(base, Pow2(h))
  }

  /** The source divides in floating point; a power of two divides exactly there, and so does `real`. */
  function RewardAt(base: nat, interval: nat, num: nat): int
    requires interval > 0
  {
    var divisor := Pow2(Quot(num, interval)) as real;
    (base as real * (1.0 / divisor)).Floor
  }

  lemma RewardIs(base: nat, interval: nat, num: nat)
    requires interval > 0
    ensures RewardAt(base, interval, num) == Halved(base, Quot(num, interval))
  {
    hide Quot;
    ExactFloor(base, Pow2(Quot(num, interval)));
  }

  lemma ExactFloor(base: nat, d: nat)
    requires d > 0
    ensures (base as real * (1.0 / d as real)).Floor == Quot(base, d)
  {
    hide Quot;
    var q, x := Quot(base, d), base as real * (1.0 / d as real);
    assert x * d as real == base as real;
    Scaled(q, d);
    Scaled(q + 1, d);
    Distribute(q, 1, d);
    if x < q as real {
      Scale(x, q as real, d as real);
    }
    if q as real + 1.0 <= x {
      Scale'((q + 1) as real, x, d as real);
    }
  }

  lemma Scaled(q: nat, d: nat)
    ensures q as real * d as real == (q * d) as real
  {
  }

  lemma Scale(a: real, b: real, d: real)
    requires d > 0.0 && a < b
    ensures a * d < b * d
  {
  }

  lemma Scale'(a: real, b: real, d: real)
    requires d > 0.0 && a <= b
    ensures a * d <= b * d
  {
  }

  // ---------- the total ----------

  /** The rewards of one block in each of the first `k` periods. */
  function Periods(base: nat, k: nat): nat {
    if k == 0 then 0 else Periods(base, k - 1) + Halved(base, k - 1)
  }

  lemma HalvedStep(base: nat, h: nat)
    ensures 2 * Halved(base, h + 1) <= Halved(base, h)
  {
    hide Quot;
    var d, q := Pow2(h), Halved(base, h + 1);
    assert q * (2 * d) == (2 * q) * d;
    if 2 * q > Halved(base, h) {
      MulMono(Halved(base, h) + 1, 2 * q, d);
      Distribute(Halved(base, h), 1, d);
    }
  }

  lemma {:induction false} PeriodsBound(base: nat, k: nat)
    requires base > 0 && k > 0
    ensures Periods(base, k) + Halved(base, k - 1) <= 2 * base && Periods(base, k) < 2 * base
  {
    if k > 1 {
      PeriodsBound(base, k - 1);
      HalvedStep(base, k - 2);
    } else {
      assert Halved(base, 0) == base;
    }
  }

  /** One reward for every number below `n`. */
  function AllRewards(base: nat, interval: nat, n: nat): nat
    requires interval > 0
  {
    if n == 0 then 0 else AllRewards(base, interval, n - 1) + Halved(base, Quot(n - 1, interval))
  }

  lemma TimesStep(a: nat, b: nat)
    ensures Times(0, b) == 0 && Times(a + 1, b) == Times(a, b) + b
  {
  }

  lemma TimesSum(a: nat, b: nat, c: nat)
    ensures Times(a + b, c) == Times(a, c) + Times(c, b)
  {
    Distribute(a, b, c);
  }

  lemma {:induction false} WithinPeriod(base: nat, interval: nat, k: nat, m: nat, r: nat)
    requires interval > 0 && r <= interval && m == Times(k, interval)
    ensures AllRewards(base, interval, m + r) == AllRewards(base, interval, m) + Times(r, Halved(base, k))
  {
    hide Halved, Quot, Times;
    if r > 0 {
      WithinPeriod(base, interval, k, m, r - 1);
      TimesIs(k, interval);
      QuotRem(m + (r - 1), interval, k, r - 1);
      TimesStep(r - 1, Halved(base, k));
    } else {
      TimesStep(0, Halved(base, k));
    }
  }

  lemma {:induction false} WholePeriods(base: nat, interval: nat, k: nat)
    requires interval > 0
    ensures AllRewards(base, interval, Times(k, interval)) == Times(Periods(base, k), interval)
  {
    hide Halved, Times;
    if k > 0 {
      var m := Times(k - 1, interval);
      WholePeriods(base, interval, k - 1);
      WithinPeriod(base, interval, k - 1, m, interval);
      TimesStep(k - 1, interval);
      TimesSum(Periods(base, k - 1), Halved(base, k - 1), interval);
    } else {
      TimesStep(0, interval);
    }
  }

  /** However long the chain, rewards of one per block stay below twice the first period's. */
  lemma TotalBound(base: nat, interval: nat, n: nat)
    requires interval > 0 && base > 0
    ensures AllRewards(base, interval, n) < 2 * base * interval
  {
    hide AllRewards, Halved, Quot, Rem, Times;
    var k, r := Quot(n, interval), Rem(n, interval);
    var h := Halved(base, k);
    TimesIs(k, interval);
    WithinPeriod(base, interval, k, Times(k, interval), r);
    WholePeriods(base, interval, k);
    PeriodsBound(base, k + 1);
    TimesIs(r, h);
    TimesIs(interval, h);
    MulMono(r, interval, h);
    TimesSum(Periods(base, k), h, interval);
    TimesIs(Periods(base, k + 1), interval);
    MulMono(Periods(base, k + 1) + 1, 2 * base, interval);
    Distribute(Periods(base, k + 1), 1, interval);
  }

  // ---------- blocks ----------

  datatype Rules = Rules(base: nat, interval: nat, target: nat)

  /** `headPrevious` is the previous id of the head block, absent while there is none; `lib` is the last
      irreversible block number. */
  datatype MiningState = MiningState(head: nat, headPrevious: Option<BlockId>, lib: nat, wallets: map<Name, int>, witnesses: set<Name>)

  function Flatten(txs: seq<seq<PowOp>>): seq<PowOp> {
    if txs == [] then [] else Flatten(txs[..|txs| - 1]) + txs[|txs| - 1]
  }

  /** `pow_evaluator`; None where it throws.  The proof must name the previous block of the head, if there is
      a head block. */
  function Evaluate(s: MiningState, op: PowOp, rules: Rules): Option<MiningState>
    requires rules.interval > 0
  {
    if op.OtherOp? || s.head >= FIRST_MINER_ONLY then Some(s)
    else if s.headPrevious.Some? && op.prev != s.headPrevious.value then None
    else if op.inputPrev.num <= s.lib || op.summary >= rules.target || !op.sizeOk then None
    else if op.worker !in s.wallets && !op.newKey then Some(s)
    else
      var s' := if op.worker in s.wallets then s
                else s.(wallets := s.wallets[op.worker := 0], witnesses := s.witnesses + {op.worker});
      if op.worker !in s'.witnesses then Some(s')
      else
        match Adjust(s'.wallets, op.worker, RewardAt(rules.base, rules.interval, s.head))
        case None => None
        case Some(w) => Some(s'.(wallets := w))
  }

  function EvaluateAll(s: MiningState, ops: seq<PowOp>, rules: Rules): Option<MiningState>
    requires rules.interval > 0
  {
    if ops == [] then Some(s)
    else
      match EvaluateAll(s, ops[..|ops| - 1], rules)
      case None => None
      case Some(s') => Evaluate(s', ops[|ops| - 1], rules)
  }

  function FirstPow(ops: seq<PowOp>): (r: Option<PowOp>)
    ensures r.Some? ==> r.value.Pow? && r.value in ops
    ensures r.None? ==> forall i :: 0 <= i < |ops| ==> ops[i].OtherOp?
  {
    if ops == [] then None else if ops[0].Pow? then Some(ops[0]) else FirstPow(ops[1..])
  }

  /** The reward for the first proof of work of a block, given once the block's number is the head's. */
  function RewardFirst(s: MiningState, b: PowBlock, rules: Rules): Option<MiningState>
    requires rules.interval > 0
  {
    var first := FirstPow(Flatten(b.txs));
    if s.head < FIRST_MINER_ONLY || first.None? then Some(s)
    else
      var op := first.value;
      if op.summary >= rules.target || op.prev != b.previous || op.worker != b.miner then None
      else if op.worker !in s.wallets || op.worker !in s.witnesses then None
      else
        match Adjust(s.wallets, op.worker, RewardAt(rules.base, rules.interval, s.head))
        case None => None
        case Some(w) => Some(s.(wallets := w))
  }

  /** The block becomes the head. */
  function Advanced(s: MiningState, b: PowBlock): MiningState {
    var num := b.previous.num + 1;
    s.(head := num, headPrevious := Some(b.previous), lib := if num > ChainDatabases.MAX_WITNESSES then num - ChainDatabases.MAX_WITNESSES else s.lib)
  }

  function ApplyBlock(s: MiningState, b: PowBlock, rules: Rules): Option<MiningState>
    requires rules.interval > 0
  {
    match EvaluateAll(s, Flatten(b.txs), rules)
    case None => None
    case Some(s') => RewardFirst(Advanced(s', b), b, rules)
  }

  function ApplyChain(s: MiningState, chain: seq<PowBlock>, rules: Rules): Option<MiningState>
    requires rules.interval > 0
  {
    if chain == [] then Some(s)
    else
      match ApplyChain(s, chain[..|chain| - 1], rules)
      case None => None
      case Some(s') => ApplyBlock(s', chain[|chain| - 1], rules)
  }

  // ---------- what a block mints ----------

  lemma {:induction false} NoneEvaluated(s: MiningState, ops: seq<PowOp>, rules: Rules)
    requires rules.interval > 0 && (s.head >= FIRST_MINER_ONLY || FirstPow(ops).None?)
    ensures EvaluateAll(s, ops, rules) == Some(s)
  {
    if ops != [] {
      NoPowBefore(ops, |ops| - 1);
      NoneEvaluated(s, ops[..|ops| - 1], rules);
    }
  }

  lemma NoPowBefore(ops: seq<PowOp>, n: nat)
    requires n <= |ops|
    ensures FirstPow(ops).None? ==> FirstPow(ops[..n]).None?
  {
  }

  lemma {:induction false} EvaluateKeeps(s: MiningState, ops: seq<PowOp>, rules: Rules)
    requires rules.interval > 0 && EvaluateAll(s, ops, rules).Some?
    ensures var s' := EvaluateAll(s, ops, rules).value;
            s'.head == s.head && s'.headPrevious == s.headPrevious && s'.lib == s.lib
  {
    if ops != [] {
      EvaluateKeeps(s, ops[..|ops| - 1], rules);
    }
  }

  /** The operation is a proof of work that the evaluator pays for, if it accepts it: its worker is a witness
      or becomes one. */
  predicate Pays(s: MiningState, op: PowOp) {
    op.Pow? && if op.worker in s.wallets then op.worker in s.witnesses else op.newKey
  }

  /** How many of the operations are paid for, each in the state the ones before it leave. */
  function PaidCount(s: MiningState, ops: seq<PowOp>, rules: Rules): nat
    requires rules.interval > 0
  {
    if ops == [] then 0
    else
      var p := ops[..|ops| - 1];
      PaidCount(s, p, rules)
      + if EvaluateAll(s, p, rules).Some? && Pays(EvaluateAll(s, p, rules).value, ops[|ops| - 1]) then 1 else 0
  }

  lemma EvaluateMints(s: MiningState, op: PowOp, rules: Rules)
    requires rules.interval > 0 && s.head < FIRST_MINER_ONLY && Evaluate(s, op, rules).Some?
    ensures Sum(Evaluate(s, op, rules).value.wallets)
            == Sum(s.wallets) + if Pays(s, op) then RewardAt(rules.base, rules.interval, s.head) else 0
  {
    hide Sum, RewardAt, Adjust;
    if op.Pow? && (op.worker in s.wallets || op.newKey) {
      var reward := RewardAt(rules.base, rules.interval, s.head);
      SumPut(s.wallets, op.worker, 0);
      AdjustSum(if op.worker in s.wallets then s.wallets else s.wallets[op.worker := 0], op.worker, reward);
    }
  }

  lemma {:induction false} EvaluateAllMints(s: MiningState, ops: seq<PowOp>, rules: Rules)
    requires rules.interval > 0 && s.head < FIRST_MINER_ONLY && EvaluateAll(s, ops, rules).Some?
    ensures Sum(EvaluateAll(s, ops, rules).value.wallets)
            == Sum(s.wallets) + Times(PaidCount(s, ops, rules), Halved(rules.base, Quot(s.head, rules.interval)))
  {
    hide Sum, Evaluate, Pays, Times, Halved, Quot;
    var reward := Halved(rules.base, Quot(s.head, rules.interval));
    TimesStep(PaidCount(s, ops[..if ops == [] then 0 else |ops| - 1], rules), reward);
    if ops != [] {
      var p, op := ops[..|ops| - 1], ops[|ops| - 1];
      EvaluateAllMints(s, p, rules);
      EvaluateKeeps(s, p, rules);
      EvaluateMints(EvaluateAll(s, p, rules).value, op, rules);
      RewardIs(rules.base, rules.interval, s.head);
    }
  }

  /** How many rewards a block mints: below the switch one for every proof of work that is paid for, above it
      one if there is any. */
  function RewardsIn(s: MiningState, b: PowBlock, rules: Rules): nat
    requires rules.interval > 0
  {
    if s.head + 1 < FIRST_MINER_ONLY then PaidCount(s, Flatten(b.txs), rules)
    else if FirstPow(Flatten(b.txs)).Some? then 1 else 0
  }

  /** The number that decides about the amount: below the switch the head's, above it the block's own. */
  function RewardNumber(s: MiningState): nat {
    if s.head + 1 < FIRST_MINER_ONLY then s.head else s.head + 1
  }

  /** The block comes right after the head, and does not name the same previous block. */
  predicate Follows(s: MiningState, b: PowBlock) {
    b.previous.num == s.head && (s.headPrevious.Some? ==> s.headPrevious.value != b.previous)
  }

  /** At the switch itself both the operation and the block judge a proof of work, the one by the previous
      block of the head, the other by the head.  No proof names both, so the block is refused. */
  lemma NoneAtTheSwitch(s: MiningState, b: PowBlock, rules: Rules)
    requires rules.interval > 0 && s.head == FIRST_MINER_ONLY - 1 && Follows(s, b) && s.headPrevious.Some?
    requires FirstPow(Flatten(b.txs)).Some?
    ensures ApplyBlock(s, b, rules) == None
  {
    hide Flatten, RewardAt, Adjust;
    var ops := Flatten(b.txs);
    if EvaluateAll(s, ops, rules).Some? {
      AcceptedNamesHead(s, ops, FirstPow(ops).value, rules);
    }
  }

  /** Below the switch every accepted proof of work names the previous block of the head. */
  lemma {:induction false} AcceptedNamesHead(s: MiningState, ops: seq<PowOp>, op: PowOp, rules: Rules)
    requires rules.interval > 0 && s.head < FIRST_MINER_ONLY && s.headPrevious.Some?
    requires EvaluateAll(s, ops, rules).Some? && op in ops && op.Pow?
    ensures op.prev == s.headPrevious.value
  {
    var p, last := ops[..|ops| - 1], ops[|ops| - 1];
    EvaluateKeeps(s, p, rules);
    if op in p {
      AcceptedNamesHead(s, p, op, rules);
    } else {
      assert op == last;
    }
  }

  /** What any block mints, below, at and above the switch. */
  lemma BlockMints(s: MiningState, b: PowBlock, rules: Rules)
    requires rules.interval > 0 && Follows(s, b) && (s.head + 1 == FIRST_MINER_ONLY ==> s.headPrevious.Some?)
    requires ApplyBlock(s, b, rules).Some?
    ensures var s' := ApplyBlock(s, b, rules).value;
            && s'.head == s.head + 1 && s'.headPrevious == Some(b.previous)
            && Sum(s'.wallets) == Sum(s.wallets)
               + Times(RewardsIn(s, b, rules), Halved(rules.base, Quot(RewardNumber(s), rules.interval)))
  {
    hide EvaluateAll, Sum, Times, Halved, Quot, Flatten, FirstPow, PaidCount, RewardAt, Adjust;
    var ops := Flatten(b.txs);
    EvaluateKeeps(s, ops, rules);
    TimesStep(0, Halved(rules.base, Quot(RewardNumber(s), rules.interval)));
    if s.head + 1 < FIRST_MINER_ONLY {
      EvaluateAllMints(s, ops, rules);
    } else {
      if s.head + 1 == FIRST_MINER_ONLY && FirstPow(ops).Some? {
        NoneAtTheSwitch(s, b, rules);
      }
      NoneEvaluated(s, ops, rules);
      RewardIs(rules.base, rules.interval, s.head + 1);
      if FirstPow(ops).Some? {
        AdjustSum(s.wallets, FirstPow(ops).value.worker, RewardAt(rules.base, rules.interval, s.head + 1));
      }
    }
  }

  lemma {:induction false} PaidAtMost(s: MiningState, ops: seq<PowOp>, rules: Rules)
    requires rules.interval > 0
    ensures PaidCount(s, ops, rules) <= PowCount(ops)
    ensures PaidCount(s, ops, rules) == PowCount(ops) <==> forall i :: 0 <= i < |ops| ==> PaidAt(s, ops, i, rules)
  {
    if ops != [] {
      var p := ops[..|ops| - 1];
      PaidAtMost(s, p, rules);
      forall i | 0 <= i < |p| ensures PaidAt(s, p, i, rules) == PaidAt(s, ops, i, rules) {
        assert p[..i] == ops[..i];
      }
      assert (forall i :: 0 <= i < |ops| ==> PaidAt(s, ops, i, rules))
        <==> (forall i :: 0 <= i < |p| ==> PaidAt(s, p, i, rules)) && PaidAt(s, ops, |p|, rules);
    } else {
      assert PaidCount(s, ops, rules) == PowCount(ops) == 0;
    }
  }

  function PowCount(ops: seq<PowOp>): nat {
    if ops == [] then 0 else PowCount(ops[..|ops| - 1]) + if ops[|ops| - 1].Pow? then 1 else 0
  }

  /** The operation at `i` is paid for, if it is a proof of work at all. */
  predicate PaidAt(s: MiningState, ops: seq<PowOp>, i: nat, rules: Rules)
    requires rules.interval > 0 && i < |ops|
  {
    ops[i].Pow? ==> EvaluateAll(s, ops[..i], rules).Some? && Pays(EvaluateAll(s, ops[..i], rules).value, ops[i])
  }

  /** One proof of work, one reward: no accepted block mints more rewards than it holds proofs of work. */
  lemma OneProofOneReward(s: MiningState, b: PowBlock, rules: Rules)
    requires rules.interval > 0
    ensures RewardsIn(s, b, rules) <= PowCount(Flatten(b.txs))
    ensures s.head + 1 >= FIRST_MINER_ONLY ==> RewardsIn(s, b, rules) <= 1
  {
    PaidAtMost(s, Flatten(b.txs), rules);
    CountFirst(Flatten(b.txs));
  }

  lemma {:induction false} CountFirst(ops: seq<PowOp>)
    ensures PowCount(ops) == 0 ==> forall i :: 0 <= i < |ops| ==> ops[i].OtherOp?
  {
    if ops != [] {
      CountFirst(ops[..|ops| - 1]);
    }
  }

  // ---------- along a chain ----------

  /** The blocks are numbered on from the head. */
  predicate Chained(s: MiningState, chain: seq<PowBlock>) {
    forall i :: 0 <= i < |chain| ==> chain[i].previous.num == s.head + i
  }

  /** The state knows the head block's previous id, if there is a head block. */
  predicate KnowsHead(s: MiningState) {
    if s.head == 0 then s.headPrevious == None else s.headPrevious.Some? && s.headPrevious.value.num == s.head - 1
  }

  lemma {:induction false} ChainKnows(s: MiningState, chain: seq<PowBlock>, rules: Rules)
    requires rules.interval > 0 && KnowsHead(s) && Chained(s, chain) && ApplyChain(s, chain, rules).Some?
    ensures KnowsHead(ApplyChain(s, chain, rules).value) && ApplyChain(s, chain, rules).value.head == s.head + |chain|
  {
    hide EvaluateAll, RewardAt, Adjust, Flatten;
    if chain != [] {
      var p, b := chain[..|chain| - 1], chain[|chain| - 1];
      ChainKnows(s, p, rules);
      EvaluateKeeps(ApplyChain(s, p, rules).value, Flatten(b.txs), rules);
    }
  }

  /** On every chain from genesis the block at the switch holds no proof of work. */
  lemma ChainWithoutProofAtTheSwitch(s: MiningState, chain: seq<PowBlock>, b: PowBlock, rules: Rules)
    requires rules.interval > 0 && s.head == 0 && KnowsHead(s) && |chain| == FIRST_MINER_ONLY - 1
    requires Chained(s, chain + [b]) && ApplyChain(s, chain, rules).Some?
    requires ApplyBlock(ApplyChain(s, chain, rules).value, b, rules).Some?
    ensures FirstPow(Flatten(b.txs)) == None
  {
    hide ApplyChain, ApplyBlock, Flatten;
    assert (chain + [b])[|chain|] == b;
    assert Chained(s, chain) by {
      forall i | 0 <= i < |chain| ensures chain[i].previous.num == s.head + i {
        assert (chain + [b])[i] == chain[i];
      }
    }
    ChainKnows(s, chain, rules);
    if FirstPow(Flatten(b.txs)).Some? {
      NoneAtTheSwitch(ApplyChain(s, chain, rules).value, b, rules);
    }
  }

  lemma {:induction false} ChainMints(s: MiningState, chain: seq<PowBlock>, rules: Rules)
    requires rules.interval > 0 && s.head >= FIRST_MINER_ONLY && KnowsHead(s) && Chained(s, chain)
    requires ApplyChain(s, chain, rules).Some?
    ensures var s' := ApplyChain(s, chain, rules).value;
            && s'.head == s.head + |chain| && Sum(s.wallets) <= Sum(s'.wallets)
            && Sum(s'.wallets) - Sum(s.wallets) + AllRewards(rules.base, rules.interval, s.head + 1)
               <= AllRewards(rules.base, rules.interval, s'.head + 1)
  {
    hide ApplyBlock, Quot, Halved, Sum, Times, Flatten, FirstPow;
    if chain != [] {
      var p, b := chain[..|chain| - 1], chain[|chain| - 1];
      ChainMints(s, p, rules);
      ChainKnows(s, p, rules);
      var s' := ApplyChain(s, p, rules).value;
      BlockMints(s', b, rules);
      TimesStep(0, Halved(rules.base, Quot(s'.head + 1, rules.interval)));
    }
  }

  /** All the rewards of any chain above the switch. */
  lemma ChainBound(s: MiningState, chain: seq<PowBlock>, rules: Rules)
    requires rules.interval > 0 && rules.base > 0 && s.head >= FIRST_MINER_ONLY && KnowsHead(s) && Chained(s, chain)
    requires ApplyChain(s, chain, rules).Some?
    ensures 0 <= Sum(ApplyChain(s, chain, rules).value.wallets) - Sum(s.wallets) < 2 * rules.base * rules.interval
  {
    hide ApplyChain, AllRewards, Sum;
    ChainMints(s, chain, rules);
    TotalBound(rules.base, rules.interval, s.head + |chain| + 1);
  }

  // ---------- who is paid, and when ----------

  /** A proof of work below the switch: judged by the block before the head, by its age, difficulty and voted
      size, and paid to its worker, who becomes a witness with a new wallet if a key is given for it. */
  lemma ProofBelowTheSwitch(s: MiningState, op: PowOp, rules: Rules)
    requires rules.interval > 0 && s.head < FIRST_MINER_ONLY && op.Pow? && Solvent(s.wallets)
    ensures var reward, r := Halved(rules.base, Quot(s.head, rules.interval)), Evaluate(s, op, rules);
            var payable := if op.worker in s.wallets then op.worker in s.witnesses else op.newKey;
            && (r.Some? <==>
                  && (s.headPrevious == None || s.headPrevious == Some(op.prev)) && s.lib < op.inputPrev.num
                  && op.summary < rules.target && op.sizeOk
                  && (payable ==> Balance(s.wallets, op.worker) + reward <= MAX_SHARE))
            && (r.Some? && !payable ==> r.value == s)
            && (r.Some? && payable ==>
                  var s' := r.value;
                  && s' == s.(wallets := s'.wallets, witnesses := s'.witnesses)
                  && s'.wallets == s.wallets[op.worker := Balance(s.wallets, op.worker) + reward]
                  && s'.witnesses == s.witnesses + {op.worker})
  {
    RewardIs(rules.base, rules.interval, s.head);
    hide RewardAt, Halved, Quot;
  }

  /** `txs[i][k]` is the first proof of work of a block. */
  predicate FirstAt(txs: seq<seq<PowOp>>, i: nat, k: nat) {
    && i < |txs| && k < |txs[i]| && txs[i][k].Pow?
    && (forall m :: 0 <= m < k ==> txs[i][m].OtherOp?)
    && forall j, m :: 0 <= j < i && 0 <= m < |txs[j]| ==> txs[j][m].OtherOp?
  }

  lemma {:induction false} NoneFlat(txs: seq<seq<PowOp>>)
    requires forall j, m :: 0 <= j < |txs| && 0 <= m < |txs[j]| ==> txs[j][m].OtherOp?
    ensures FirstPow(Flatten(txs)) == None
  {
    if txs != [] {
      NoneFlat(txs[..|txs| - 1]);
      NonePrefix(Flatten(txs[..|txs| - 1]), txs[|txs| - 1], |txs[|txs| - 1]|);
      assert txs[|txs| - 1][..|txs[|txs| - 1]|] == txs[|txs| - 1];
    }
  }

  lemma {:induction false} NonePrefix(ops: seq<PowOp>, more: seq<PowOp>, k: nat)
    requires FirstPow(ops).None? && k <= |more| && forall m :: 0 <= m < k ==> more[m].OtherOp?
    ensures FirstPow(ops + more[..k]).None?
  {
    if k > 0 {
      NonePrefix(ops, more, k - 1);
      FirstPowStep(ops + more[..k - 1], more[k - 1]);
      assert ops + more[..k - 1] + [more[k - 1]] == ops + more[..k];
    } else {
      assert ops + more[..0] == ops;
    }
  }

  lemma FirstIs(txs: seq<seq<PowOp>>, i: nat, k: nat)
    requires FirstAt(txs, i, k)
    ensures FirstPow(Flatten(txs)) == Some(txs[i][k])
  {
    hide FirstPow, Flatten;
    var ops := Flatten(txs[..i]);
    NoneFlat(txs[..i]);
    NonePrefix(ops, txs[i], k);
    FirstPowStep(ops + txs[i][..k], txs[i][k]);
    assert ops + txs[i][..k] + [txs[i][k]] == ops + txs[i][..k + 1];
    FlattenPrefix(txs, i, k + 1);
    FirstPowPrefix(ops + txs[i][..k + 1], Flatten(txs));
  }

  /** A block above the switch: accepted if and only if its first proof of work is good, names the head and is
      the miner's, who has a wallet and is a witness; then this one wallet grows by the one reward. */
  lemma BlockAboveTheSwitch(s: MiningState, b: PowBlock, i: nat, k: nat, rules: Rules)
    requires rules.interval > 0 && s.head >= FIRST_MINER_ONLY && b.previous.num == s.head && Solvent(s.wallets)
    requires FirstAt(b.txs, i, k)
    ensures var op, reward, r := b.txs[i][k], Halved(rules.base, Quot(s.head + 1, rules.interval)), ApplyBlock(s, b, rules);
            && (r.Some? <==>
                  && op.summary < rules.target && op.prev == b.previous && op.worker == b.miner
                  && b.miner in s.wallets && b.miner in s.witnesses && s.wallets[b.miner] + reward <= MAX_SHARE)
            && (r.Some? ==>
                  && r.value.head == s.head + 1 && r.value.headPrevious == Some(b.previous) && r.value.witnesses == s.witnesses
                  && OneChanged(s.wallets, r.value.wallets, b.miner, reward))
  {
    FirstIs(b.txs, i, k);
    NoneEvaluated(s, Flatten(b.txs), rules);
    RewardIs(rules.base, rules.interval, s.head + 1);
    AdjustOne(s.wallets, b.miner, RewardAt(rules.base, rules.interval, s.head + 1));
    hide RewardAt, Halved, Quot, Flatten, FirstPow, EvaluateAll;
  }

  /** A block without a proof of work is accepted at every height and pays nobody. */
  lemma BlockWithoutProof(s: MiningState, b: PowBlock, rules: Rules)
    requires rules.interval > 0 && forall j, m :: 0 <= j < |b.txs| && 0 <= m < |b.txs[j]| ==> b.txs[j][m].OtherOp?
    ensures var r := ApplyBlock(s, b, rules);
            r.Some? && r.value.wallets == s.wallets && r.value.witnesses == s.witnesses && r.value.head == b.previous.num + 1
            && r.value.lib == if b.previous.num >= 10 then b.previous.num - 9 else s.lib
  {
    NoneFlat(b.txs);
    NoneEvaluated(s, Flatten(b.txs), rules);
  }

  // ---------- as it runs ----------

  class RewardDatabase {
    const rules: Rules
    var head: nat
    var headPrevious: Option<BlockId>
    var lib: nat
    var wallets: map<Name, int>
    var witnesses: set<Name>

    function Contents(): MiningState
      reads this
    {
      MiningState(head, headPrevious, lib, wallets, witnesses)
    }

    constructor (r: Rules, s: MiningState)
      ensures rules == r && Contents() == s
    {
      rules := r;
      head, headPrevious, lib, wallets, witnesses := s.head, s.headPrevious, s.lib, s.wallets, s.witnesses;
    }

    method Pay(worker: Name, amount: int) returns (ok: bool)
      modifies `wallets
      ensures ok == Adjust(old(wallets), worker, amount).Some?
      ensures wallets == if ok then Adjust(old(wallets), worker, amount).value else old(wallets)
    {
      var r := Adjust(wallets, worker, amount);
      ok := r.Some?;
      if ok {
        wallets := r.value;
      }
    }

    method PowEvaluator(op: PowOp) returns (ok: bool)
      requires rules.interval > 0
      modifies `wallets, `witnesses
      ensures ok == Evaluate(old(Contents()), op, rules).Some?
      ensures ok ==> Contents() == Evaluate(old(Contents()), op, rules).value
    {
      hide RewardAt, Adjust;
      if op.OtherOp? || head >= FIRST_MINER_ONLY {
        return true;
      }
      if headPrevious.Some? {
        if op.prev != headPrevious.value {
          return false;
        }
      }
      if op.inputPrev.num <= lib || op.summary >= rules.target || !op.sizeOk {
        return false;
      }
      var reward := RewardAt(rules.base, rules.interval, head);
      if op.worker !in wallets {
        if !op.newKey {
          return true;
        }
        wallets := wallets[op.worker := 0];
        witnesses := witnesses + {op.worker};
      }
      if op.worker !in witnesses {
        return true;
      }
      ok := Pay(op.worker, reward);
    }

    method EvaluateOperations(txs: seq<seq<PowOp>>) returns (ok: bool)
      requires rules.interval > 0
      modifies `wallets, `witnesses
      ensures ok == EvaluateAll(old(Contents()), Flatten(txs), rules).Some?
      ensures ok ==> Contents() == EvaluateAll(old(Contents()), Flatten(txs), rules).value
    {
      hide Evaluate, EvaluateAll;
      ghost var before := Contents();
      EvaluateNone(before, rules);
      ok := true;
      var i := 0;
      while i < |txs| && ok
        invariant 0 <= i <= |txs|
        invariant ok == EvaluateAll(before, Flatten(txs[..i]), rules).Some?
        invariant ok ==> Contents() == EvaluateAll(before, Flatten(txs[..i]), rules).value
        invariant !ok ==> EvaluateAll(before, Flatten(txs), rules) == None
      {
        ghost var ops := Flatten(txs[..i]);
        FlattenStep(txs, i);
        var k := 0;
        while k < |txs[i]| && ok
          invariant 0 <= k <= |txs[i]|
          invariant ok == EvaluateAll(before, ops + txs[i][..k], rules).Some?
          invariant ok ==> Contents() == EvaluateAll(before, ops + txs[i][..k], rules).value
        {
          EvaluateStep(before, ops, txs[i], k, rules);
          ok := PowEvaluator(txs[i][k]);
          k := k + 1;
        }
        if !ok {
          FlattenPrefix(txs, i, k);
          RefusedAt(before, ops + txs[i][..k], Flatten(txs), rules);
          RefusedAt(before, ops + txs[i][..k], Flatten(txs[..i + 1]), rules);
        } else {
          assert txs[i][..k] == txs[i];
        }
        i := i + 1;
      }
      if ok {
        assert txs[..i] == txs;
      }
    }

    /** The loop over the block's operations that pays the first proof of work and then stops. */
    method RewardFirstMiner(b: PowBlock) returns (ok: bool)
      requires rules.interval > 0
      modifies `wallets
      ensures ok == RewardFirst(old(Contents()), b, rules).Some?
      ensures ok ==> Contents() == RewardFirst(old(Contents()), b, rules).value
    {
      hide Flatten, FirstPow, RewardAt, Adjust;
      if head < FIRST_MINER_ONLY {
        return true;
      }
      var first := FindFirst(b.txs);
      if first.None? {
        return true;
      }
      var op := first.value;
      if op.summary >= rules.target || op.prev != b.previous || b.miner != op.worker {
        return false;
      }
      if op.worker !in wallets || op.worker !in witnesses {
        return false;
      }
      ok := Pay(op.worker, RewardAt(rules.base, rules.interval, head));
    }

    static method FindFirst(txs: seq<seq<PowOp>>) returns (r: Option<PowOp>)
      ensures r == FirstPow(Flatten(txs))
    {
      hide Flatten, FirstPow;
      NothingFlat();
      r := None;
      var i := 0;
      while i < |txs| && r.None?
        invariant 0 <= i <= |txs| && r == FirstPow(Flatten(txs[..i]))
      {
        FlattenStep(txs, i);
        var k := 0;
        while k < |txs[i]| && r.None?
          invariant 0 <= k <= |txs[i]| && r == FirstPow(Flatten(txs[..i]) + txs[i][..k])
        {
          assert Flatten(txs[..i]) + txs[i][..k + 1] == Flatten(txs[..i]) + txs[i][..k] + [txs[i][k]];
          FirstPowStep(Flatten(txs[..i]) + txs[i][..k], txs[i][k]);
          if txs[i][k].Pow? {
            r := Some(txs[i][k]);
          }
          k := k + 1;
        }
        FlattenPrefix(txs, i, k);
        FirstPowPrefix(Flatten(txs[..i]) + txs[i][..k], Flatten(txs[..i + 1]));
        if r.None? {
          assert txs[i][..k] == txs[i];
        }
        i := i + 1;
      }
      if r.None? {
        assert txs[..i] == txs;
      } else {
        FlattenPrefix(txs, i - 1, |txs[i - 1]|);
        FlattenStep(txs, i - 1);
        assert txs[i - 1][..|txs[i - 1]|] == txs[i - 1];
        FirstPowPrefix(Flatten(txs[..i]), Flatten(txs));
      }
    }

    /** One block: its operations, its number, its reward.  A refused block leaves nothing behind. */
    method PushBlock(b: PowBlock) returns (ok: bool)
      requires rules.interval > 0
      modifies this
      ensures ok == ApplyBlock(old(Contents()), b, rules).Some?
      ensures Contents() == if ok then ApplyBlock(old(Contents()), b, rules).value else old(Contents())
    {
      hide EvaluateAll, RewardFirst;
      var session := Contents();
      ok := EvaluateOperations(b.txs);
      if ok {
        head, headPrevious := b.previous.num + 1, Some(b.previous);
        if head > ChainDatabases.MAX_WITNESSES {
          lib := head - ChainDatabases.MAX_WITNESSES;
        }
        ok := RewardFirstMiner(b);
      }
      if !ok {
        head, headPrevious, lib := session.head, session.headPrevious, session.lib;
        wallets, witnesses := session.wallets, session.witnesses;
      }
    }
  }

  lemma NothingFlat()
    ensures Flatten([]) == [] && FirstPow([]) == None
  {
  }

  lemma {:induction false} FirstPowStep(ops: seq<PowOp>, op: PowOp)
    requires FirstPow(ops).None?
    ensures FirstPow(ops + [op]) == if op.Pow? then Some(op) else None
  {
    if ops != [] {
      FirstPowStep(ops[1..], op);
      assert (ops + [op])[1..] == ops[1..] + [op];
    }
  }

  lemma {:induction false} FirstPowPrefix(prefix: seq<PowOp>, ops: seq<PowOp>)
    requires prefix <= ops
    ensures FirstPow(prefix).Some? ==> FirstPow(ops) == FirstPow(prefix)
  {
    if prefix != [] {
      FirstPowPrefix(prefix[1..], ops[1..]);
    }
  }

  lemma EvaluateNone(s: MiningState, rules: Rules)
    requires rules.interval > 0
    ensures EvaluateAll(s, [], rules) == Some(s)
  {
  }

  lemma EvaluateStep(s: MiningState, ops: seq<PowOp>, more: seq<PowOp>, k: nat, rules: Rules)
    requires rules.interval > 0 && k < |more| && EvaluateAll(s, ops + more[..k], rules).Some?
    ensures EvaluateAll(s, ops + more[..k + 1], rules)
            == Evaluate(EvaluateAll(s, ops + more[..k], rules).value, more[k], rules)
  {
    hide Evaluate;
    var all := ops + more[..k + 1];
    assert all[..|all| - 1] == ops + more[..k];
  }

  lemma FlattenStep(txs: seq<seq<PowOp>>, i: nat)
    requires i < |txs|
    ensures Flatten(txs[..i + 1]) == Flatten(txs[..i]) + txs[i]
    ensures Flatten(txs[..i]) + txs[i][..0] == Flatten(txs[..i])
  {
    assert txs[..i + 1][..i] == txs[..i];
  }

  lemma {:induction false} FlattenPrefix(txs: seq<seq<PowOp>>, i: nat, k: nat)
    requires i < |txs| && k <= |txs[i]|
    ensures Flatten(txs[..i]) + txs[i][..k] <= Flatten(txs) && Flatten(txs[..i]) + txs[i][..k] <= Flatten(txs[..i + 1])
  {
    FlattenStep(txs, i);
    if i + 1 < |txs| {
      var rest := txs[..|txs| - 1];
      FlattenPrefix(rest, i, k);
      assert rest[..i] == txs[..i];
    } else {
      assert txs[..i + 1] == txs;
    }
  }

  lemma {:induction false} RefusedAt(s: MiningState, prefix: seq<PowOp>, ops: seq<PowOp>, rules: Rules)
    requires rules.interval > 0 && prefix <= ops && EvaluateAll(s, prefix, rules) == None
    ensures EvaluateAll(s, ops, rules) == None
  {
    hide Evaluate;
    if prefix < ops {
      RefusedAt(s, prefix, ops[..|ops| - 1], rules);
    } else {
      assert prefix == ops;
    }
  }
}
