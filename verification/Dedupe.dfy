/** The index of recent transactions that keeps a transaction from being executed twice, and the purging
    that keeps the index small. */
module TransactionIndexes {
  import opened Collections

  const MAX_TIME_UNTIL_EXPIRATION: nat := 3600

  /** A transaction's id is the hash of its contents, expiration included, so contents stand for ids. */
  datatype Tx = Tx(expiration: nat, body: nat)

  datatype Batch = Batch(timestamp: nat, txs: seq<Tx>)

  /** `executed` is the history of the chain; nothing depends on it. */
  datatype State = State(num: nat, time: nat, index: set<Tx>, executed: seq<Tx>)

  // ---------- the meaning of the checks ----------

  /** Not a recent one, and (from the second block on) neither expired nor expiring too late. */
  predicate Passes(s: State, t: Tx) {
    t !in s.index && (s.num > 0 ==> s.time < t.expiration <= s.time + MAX_TIME_UNTIL_EXPIRATION)
  }

  function Apply(s: State, txs: seq<Tx>): Option<State> {
    if txs == [] then Some(s)
    else
      match Apply(s, txs[..|txs| - 1])
      case None => None
      case Some(s') =>
        var t := txs[|txs| - 1];
        if Passes(s', t) then Some(s'.(index := s'.index + {t}, executed := s'.executed + [t])) else None
  }

  function Purged(index: set<Tx>, time: nat): set<Tx> {
    set t | t in index && time <= t.expiration
  }

  /** A block: its transactions, judged at the time of the block before it; then its own time, and the
      purge. */
  function ApplyBatch(s: State, b: Batch): Option<State> {
    match Apply(s, b.txs)
    case None => None
    case Some(s') => Some(s'.(num := s.num + 1, time := b.timestamp, index := Purged(s'.index, b.timestamp)))
  }

  function Replay(start: nat, chain: seq<Batch>): Option<State> {
    if chain == [] then Some(State(0, start, {}, []))
    else
      match Replay(start, chain[..|chain| - 1])
      case None => None
      case Some(s) => ApplyBatch(s, chain[|chain| - 1])
  }

  // ---------- no transaction twice ----------

  predicate Distinct(ts: seq<Tx>) {
    forall i, j :: 0 <= i < j < |ts| ==> ts[i] != ts[j]
  }

  /** Whatever was executed is still in the index or had expired when some block arrived. */
  ghost predicate Remembers(s: State, chain: seq<Batch>) {
    && s.num == |chain| && (chain != [] ==> s.time == chain[|chain| - 1].timestamp)
    && Distinct(s.executed)
    && forall t :: t in s.executed ==> t in s.index || Overtaken(t, chain)
  }

  ghost predicate Overtaken(t: Tx, chain: seq<Batch>) {
    exists j :: 0 <= j < |chain| && t.expiration < chain[j].timestamp
  }

  function Times(chain: seq<Batch>): seq<nat> {
    seq(|chain|, i requires 0 <= i < |chain| => chain[i].timestamp)
  }

  /** Before the last block time never goes back by two seconds or more. */
  predicate Settled(times: seq<nat>) {
    forall j, m :: 0 <= j < m < |times| - 1 ==> times[j] <= times[m] + 1
  }

  lemma NotAgain(s: State, chain: seq<Batch>, t: Tx)
    requires Remembers(s, chain) && Passes(s, t)
    requires forall j :: 0 <= j < |chain| - 1 ==> chain[j].timestamp <= chain[|chain| - 1].timestamp + 1
    ensures t !in s.executed
  {
    assert t in s.executed && t !in s.index ==> Overtaken(t, chain);
    assert Overtaken(t, chain) ==> t.expiration <= s.time && chain != [];
  }

  lemma {:induction false} ApplyRemembers(s: State, chain: seq<Batch>, txs: seq<Tx>)
    requires Remembers(s, chain) && Apply(s, txs).Some?
    requires forall j :: 0 <= j < |chain| - 1 ==> chain[j].timestamp <= chain[|chain| - 1].timestamp + 1
    ensures Remembers(Apply(s, txs).value, chain) && Apply(s, txs).value.executed == s.executed + txs
  {
    if txs == [] {
      assert s.executed + txs == s.executed;
    } else {
      var p, t := txs[..|txs| - 1], txs[|txs| - 1];
      ApplyRemembers(s, chain, p);
      NotAgain(Apply(s, p).value, chain, t);
      assert txs == p + [t];
    }
  }

  lemma PurgeRemembers(s: State, chain: seq<Batch>, b: Batch)
    requires Remembers(s, chain)
    ensures Remembers(s.(num := s.num + 1, time := b.timestamp, index := Purged(s.index, b.timestamp)), chain + [b])
  {
    var longer := chain + [b];
    forall t | t in s.executed ensures t in Purged(s.index, b.timestamp) || Overtaken(t, longer) {
      if t in s.index {
        assert longer[|chain|].timestamp == b.timestamp;
      } else {
        var j :| 0 <= j < |chain| && t.expiration < chain[j].timestamp;
        assert longer[j] == chain[j];
      }
    }
  }

  /** On a chain that does not go back in time no transaction is executed twice, although the index forgets. */
  lemma {:induction false} ReplayRemembers(start: nat, chain: seq<Batch>)
    requires Replay(start, chain).Some? && Settled(Times(chain))
    ensures Remembers(Replay(start, chain).value, chain)
  {
    hide Remembers, Apply;
    if chain == [] {
      NothingExecuted(start);
    } else {
      var p, b := chain[..|chain| - 1], chain[|chain| - 1];
      SettledPrefix(chain);
      ReplayRemembers(start, p);
      ApplyRemembers(Replay(start, p).value, p, b.txs);
      ApplyKeeps(Replay(start, p).value, b.txs);
      PurgeRemembers(Apply(Replay(start, p).value, b.txs).value, p, b);
      assert chain == p + [b];
    }
  }

  lemma {:induction false} ApplyKeeps(s: State, txs: seq<Tx>)
    requires Apply(s, txs).Some?
    ensures Apply(s, txs).value.num == s.num && Apply(s, txs).value.time == s.time
  {
    if txs != [] {
      ApplyKeeps(s, txs[..|txs| - 1]);
    }
  }

  lemma SettledPrefix(chain: seq<Batch>)
    requires Settled(Times(chain)) && chain != []
    ensures Settled(Times(chain[..|chain| - 1]))
    ensures forall j :: 0 <= j < |chain| - 2 ==> chain[j].timestamp <= chain[|chain| - 2].timestamp + 1
  {
    var p := chain[..|chain| - 1];
    assert forall i :: 0 <= i < |p| ==> Times(p)[i] == Times(chain)[i];
    forall j | 0 <= j < |chain| - 2 ensures chain[j].timestamp <= chain[|chain| - 2].timestamp + 1 {
      assert Times(chain)[j] <= Times(chain)[|chain| - 2] + 1;
    }
  }

  lemma NothingExecuted(start: nat)
    ensures Remembers(State(0, start, {}, []), [])
  {
  }

  // ---------- and exactly when one could be ----------

  /** Some chain with these block times is valid and executes a transaction twice. */
  ghost predicate CanRepeat(start: nat, times: seq<nat>) {
    exists chain :: Times(chain) == times && Repeats(start, chain)
  }

  predicate Repeats(start: nat, chain: seq<Batch>) {
    Replay(start, chain).Some? && !Distinct(Replay(start, chain).value.executed)
  }

  /** The same transaction in the first block and in block `m + 1` (counting from zero), nothing else. */
  function Doubled(times: seq<nat>, m: nat, t: Tx, n: nat): (r: seq<Batch>)
    requires n <= |times|
    ensures |r| == n && forall i :: 0 <= i < n ==> r[i].timestamp == times[i]
  {
    if n == 0 then []
    else Doubled(times, m, t, n - 1) + [DoubledBatch(times, m, t, n - 1)]
  }

  lemma ApplyFew(s: State, t: Tx)
    ensures Apply(s, []) == Some(s)
    ensures Passes(s, t) ==> Apply(s, [t]) == Some(s.(index := s.index + {t}, executed := s.executed + [t]))
  {
    assert [t][..0] == [];
  }

  /** Where that chain is after `n` blocks: the index forgets the transaction by the time of block `j`. */
  ghost predicate Course(s: State, times: seq<nat>, j: nat, m: nat, t: Tx, n: nat) {
    && 1 <= n <= |times| && s.num == n && s.time == times[n - 1] && s.index <= {t} && (j < n <= m + 1 ==> s.index == {})
    && s.executed == if n <= m + 1 then [t] else [t, t]
  }

  function DoubledBatch(times: seq<nat>, m: nat, t: Tx, n: nat): Batch
    requires n < |times|
  {
    Batch(times[n], if n == 0 || n == m + 1 then [t] else [])
  }

  lemma CourseStarts(start: nat, times: seq<nat>, j: nat, m: nat, t: Tx)
    requires j < m < |times| - 1 && t.expiration == times[m] + 1 && times[j] > t.expiration
    ensures var r := ApplyBatch(State(0, start, {}, []), DoubledBatch(times, m, t, 0));
            r.Some? && Course(r.value, times, j, m, t, 1)
  {
    ApplyFew(State(0, start, {}, []), t);
  }

  lemma CourseGoesOn(s: State, times: seq<nat>, j: nat, m: nat, t: Tx, n: nat)
    requires j < m < |times| - 1 && t.expiration == times[m] + 1 && times[j] > t.expiration
    requires Course(s, times, j, m, t, n) && n < |times|
    ensures var r := ApplyBatch(s, DoubledBatch(times, m, t, n));
            r.Some? && Course(r.value, times, j, m, t, n + 1)
  {
    hide Apply;
    ApplyFew(s, t);
  }

  lemma {:induction false} DoubledReplays(start: nat, times: seq<nat>, j: nat, m: nat, t: Tx, n: nat)
    requires j < m < |times| - 1 && 1 <= n <= |times|
    requires t.expiration == times[m] + 1 && times[j] > t.expiration
    ensures var r := Replay(start, Doubled(times, m, t, n)); r.Some? && Course(r.value, times, j, m, t, n)
  {
    hide ApplyBatch, Course, Replay;
    var p := Doubled(times, m, t, n - 1);
    ReplaySnoc(start, p, DoubledBatch(times, m, t, n - 1));
    if n > 1 {
      DoubledReplays(start, times, j, m, t, n - 1);
      CourseGoesOn(Replay(start, p).value, times, j, m, t, n - 1);
    } else {
      ReplayNone(start);
      CourseStarts(start, times, j, m, t);
    }
  }

  lemma ReplaySnoc(start: nat, p: seq<Batch>, b: Batch)
    ensures Replay(start, p + [b]) == if Replay(start, p).None? then None else ApplyBatch(Replay(start, p).value, b)
  {
    assert (p + [b])[..|p|] == p;
  }

  lemma ReplayNone(start: nat)
    ensures Replay(start, []) == Some(State(0, start, {}, []))
  {
  }

  lemma Repeating(start: nat, times: seq<nat>, j: nat, m: nat)
    requires j < m < |times| - 1 && times[j] > times[m] + 1
    ensures CanRepeat(start, times)
  {
    var t := Tx(times[m] + 1, 0);
    var chain := Doubled(times, m, t, |times|);
    DoubledReplays(start, times, j, m, t, |times|);
    var executed := Replay(start, chain).value.executed;
    assert executed[0] == executed[1];
    assert Times(chain) == times;
    assert Repeats(start, chain);
  }

  /** A transaction can be executed twice on a chain with given block times exactly when those times go
      back by two seconds or more before the last block. */
  lemma RepeatIff(start: nat, times: seq<nat>)
    ensures CanRepeat(start, times) <==> !Settled(times)
  {
    if !Settled(times) {
      var j, m :| 0 <= j < m < |times| - 1 && times[j] > times[m] + 1;
      Repeating(start, times, j, m);
    } else {
      forall chain | Times(chain) == times ensures !Repeats(start, chain) {
        if Replay(start, chain).Some? {
          ReplayRemembers(start, chain);
        }
      }
    }
  }

  // ---------- the index in place ----------

  class TransactionIndex {
    var num: nat
    var time: nat
    var index: set<Tx>
    ghost var executed: seq<Tx>

    ghost function Contents(): State
      reads this
    {
      State(num, time, index, executed)
    }

    constructor (start: nat)
      ensures Contents() == State(0, start, {}, [])
    {
      num, time, index, executed := 0, start, {}, [];
    }

    method ApplyTransaction(t: Tx) returns (ok: bool)
      modifies `index, `executed
      ensures ok == Passes(old(Contents()), t)
      // within the hour after the head block's time, which does not matter to the first block
      ensures ok <==> t !in old(index) && (old(num) == 0 || 0 < t.expiration - old(time) <= 3600)
      ensures Contents() == if ok then old(Contents()).(index := old(index) + {t}, executed := old(executed) + [t]) else old(Contents())
    {
      if t in index {
        return false;
      }
      if num > 0 {
        if t.expiration > time + MAX_TIME_UNTIL_EXPIRATION {
          return false;
        }
        if time >= t.expiration {
          return false;
        }
      }
      index := index + {t};
      executed := executed + [t];
      ok := true;
    }

    /** Removes in order of expiration until the next one is still alive. */
    method ClearExpired()
      modifies `index
      ensures index == Purged(old(index), time)
    {
      while index != {}
        invariant Purged(old(index), time) <= index <= old(index)
        decreases index
      {
        var t := Earliest(index);
        if time <= t.expiration {
          break;
        }
        index := index - {t};
      }
    }

    static method Earliest(s: set<Tx>) returns (t: Tx)
      requires s != {}
      ensures t in s && forall u :: u in s ==> t.expiration <= u.expiration
    {
      t :| t in s;
      var rest := s - {t};
      while rest != {}
        invariant rest <= s && t in s && forall u :: u in s && u !in rest ==> t.expiration <= u.expiration
        decreases rest
      {
        var u :| u in rest;
        if u.expiration < t.expiration {
          t := u;
        }
        rest := rest - {u};
      }
    }

    /** A block; one that fails leaves nothing behind. */
    method ApplyBlock(b: Batch) returns (ok: bool)
      modifies this
      ensures ok == ApplyBatch(old(Contents()), b).Some?
      ensures Contents() == if ok then ApplyBatch(old(Contents()), b).value else old(Contents())
    {
      var session := index;
      ghost var before := Contents();
      ok := true;
      var i := 0;
      assert b.txs[..0] == [];
      while i < |b.txs| && ok
        invariant 0 <= i <= |b.txs| && num == before.num && time == before.time
        invariant ok ==> Apply(before, b.txs[..i]) == Some(Contents())
        invariant !ok ==> Apply(before, b.txs[..i]) == None
      {
        assert b.txs[..i + 1][..i] == b.txs[..i];
        ok := ApplyTransaction(b.txs[i]);
        i := i + 1;
      }
      if !ok {
        RefusedPrefix(before, b.txs, i);
        index, executed := session, before.executed;
        return;
      }
      assert b.txs[..i] == b.txs;
      num, time := num + 1, b.timestamp;
      ClearExpired();
    }

    /** A chain of blocks that does not go back in time: nothing is executed twice. */
    method ApplyChain(start: nat, chain: seq<Batch>) returns (ok: bool)
      requires Contents() == State(0, start, {}, [])
      modifies this
      ensures ok == Replay(start, chain).Some?
      ensures ok ==> Contents() == Replay(start, chain).value
      ensures ok && Settled(Times(chain)) ==> Distinct(executed)
    {
      hide ApplyBatch;
      var i := 0;
      ok := true;
      assert chain[..0] == [];
      while i < |chain| && ok
        invariant 0 <= i <= |chain|
        invariant ok ==> Replay(start, chain[..i]) == Some(Contents())
        invariant !ok ==> Replay(start, chain[..i]) == None
      {
        assert chain[..i + 1][..i] == chain[..i];
        ok := ApplyBlock(chain[i]);
        i := i + 1;
      }
      if ok {
        assert chain[..i] == chain;
        if Settled(Times(chain)) {
          ReplayRemembers(start, chain);
        }
      } else {
        RefusedChain(start, chain, i);
      }
    }
  }

  lemma {:induction false} RefusedPrefix(s: State, txs: seq<Tx>, n: nat)
    requires n <= |txs| && Apply(s, txs[..n]) == None
    ensures Apply(s, txs) == None
  {
    if n < |txs| {
      assert txs[..|txs| - 1][..n] == txs[..n];
      RefusedPrefix(s, txs[..|txs| - 1], n);
    } else {
      assert txs[..n] == txs;
    }
  }

  lemma {:induction false} RefusedChain(start: nat, chain: seq<Batch>, n: nat)
    requires n <= |chain| && Replay(start, chain[..n]) == None
    ensures Replay(start, chain) == None
  {
    if n < |chain| {
      assert chain[..|chain| - 1][..n] == chain[..n];
      RefusedChain(start, chain[..|chain| - 1], n);
    } else {
      assert chain[..n] == chain;
    }
  }
}
