/** The chain database: applying and undoing blocks, moving irreversible blocks to the block log, and
    switching forks.

    The object database is an arbitrary state `S` with a deterministic, partial `transact`.  The
    properties the block code itself keeps (head id, last irreversible number, the ring of recent
    block ids) are part of every snapshot, because undoing a block restores them too. */
module ChainDatabases {
  import opened Blocks
  import opened Collections
  import opened ForkDatabases

  const MAX_WITNESSES: nat := 10
  const MAX_UNDO_HISTORY: nat := 151200
  const RING_SIZE: nat := 65536

  /** `ring` holds the block summaries: the id of the latest block in each slot, absent while the slot
      still has its initial null id. */
  datatype Snapshot<S> = Snapshot(app: S, headId: BlockId, lib: nat, ring: map<nat, BlockId>)

  datatype UndoState<S> = UndoState(revision: nat, before: Snapshot<S>)

  /** The undo stack with one more session on it. */
  function WithSession<S>(undo: seq<UndoState<S>>, revision: nat, cur: Snapshot<S>): seq<UndoState<S>> {
    undo + [UndoState(revision + 1, cur)]
  }

  /** One undo state for every block above `logged`, up to number `n`. */
  ghost predicate Covers<S>(undo: seq<UndoState<S>>, logged: nat, n: nat) {
    |undo| == n - logged && forall i :: 0 <= i < |undo| ==> undo[i].revision == logged + i + 1
  }

  lemma SessionDropped<S>(undo: seq<UndoState<S>>, revision: nat, cur: Snapshot<S>)
    ensures var u := WithSession(undo, revision, cur); |u| == |undo| + 1 && u[..|undo|] == undo && u[|undo|].before == cur
  {
  }

  /** The last irreversible number once block `n` is the head. */
  function LibAt(n: nat): nat {
    if n > MAX_WITNESSES then n - MAX_WITNESSES else 0
  }

  /** The global properties once block `b` has turned the object database into `app`. */
  function Updated<S>(s: Snapshot<S>, app: S, b: Block): (s': Snapshot<S>)
    ensures s'.headId == b.Id() && s'.lib == if b.Num() > MAX_WITNESSES then b.Num() - MAX_WITNESSES else s.lib
  {
    Snapshot(app, b.Id(), if b.Num() > MAX_WITNESSES then b.Num() - MAX_WITNESSES else s.lib,
             s.ring[b.Num() % RING_SIZE := b.Id()])
  }

  /** What a successfully applied block makes of a snapshot. */
  function Step<S>(t: (S, Block) -> Option<S>, s: Snapshot<S>, b: Block): Option<Snapshot<S>> {
    match t(s.app, b)
    case None => None
    case Some(app) => Some(Updated(s, app, b))
  }

  lemma StepHead<S>(t: (S, Block) -> Option<S>, s: Snapshot<S>, b: Block)
    ensures Step(t, s, b).Some? ==> Step(t, s, b).value.headId == b.Id()
  {
  }

  function Genesis<S>(app: S): Snapshot<S> {
    Snapshot(app, NULL_ID, 0, map[])
  }

  /** The meaning of a chain: its blocks applied one after the other. */
  function Replay<S>(t: (S, Block) -> Option<S>, s: Snapshot<S>, blocks: seq<Block>): Option<Snapshot<S>> {
    if blocks == [] then Some(s)
    else
      match Replay(t, s, blocks[..|blocks| - 1])
      case None => None
      case Some(s') => Step(t, s', blocks[|blocks| - 1])
  }

  function HeadId(chain: seq<Block>): BlockId {
    if chain == [] then NULL_ID else chain[|chain| - 1].Id()
  }

  /** Every block names its predecessor, and the first one the null id. */
  ghost predicate Linked(chain: seq<Block>) {
    && (chain != [] ==> chain[0].previous == NULL_ID)
    && forall i, j :: 0 <= i < j < |chain| && j == i + 1 ==> ChildOf(chain[j], chain[i])
  }

  lemma {:induction false} LinkedNum(chain: seq<Block>, i: nat)
    requires Linked(chain) && i < |chain|
    ensures chain[i].Num() == i + 1
    ensures chain[i].previous == HeadId(chain[..i])
  {
    if i > 0 {
      LinkedNum(chain, i - 1);
      assert ChildOf(chain[i], chain[i - 1]);
    }
  }

  lemma HeadIdNum(chain: seq<Block>)
    requires Linked(chain)
    ensures HeadId(chain).num == |chain|
  {
    if chain != [] {
      LinkedNum(chain, |chain| - 1);
    }
  }

  lemma LinkedPrefix(chain: seq<Block>, n: nat)
    requires Linked(chain) && n <= |chain|
    ensures Linked(chain[..n])
  {
  }

  lemma LinkedSnoc(chain: seq<Block>, b: Block)
    requires Linked(chain) && b.previous == HeadId(chain)
    ensures Linked(chain + [b])
  {
  }

  lemma NotLinkedSnoc(chain: seq<Block>, b: Block)
    requires b.previous != HeadId(chain)
    ensures !Linked(chain + [b])
  {
    var c := chain + [b];
    if chain != [] {
      assert !ChildOf(c[|chain|], c[|chain| - 1]);
    }
  }

  lemma ReplaySnoc<S>(t: (S, Block) -> Option<S>, s: Snapshot<S>, blocks: seq<Block>, b: Block)
    ensures Replay(t, s, blocks + [b]) == match Replay(t, s, blocks)
                                          case None => None
                                          case Some(s') => Step(t, s', b)
  {
    assert (blocks + [b])[..|blocks|] == blocks;
  }

  /** A chain that replays has replayable prefixes. */
  lemma {:induction false} ReplayPrefix<S>(t: (S, Block) -> Option<S>, s: Snapshot<S>, blocks: seq<Block>, n: nat)
    requires n <= |blocks| && Replay(t, s, blocks).Some?
    ensures Replay(t, s, blocks[..n]).Some?
  {
    if n < |blocks| {
      var p := blocks[..|blocks| - 1];
      ReplayPrefix(t, s, p, n);
      assert p[..n] == blocks[..n];
    } else {
      assert blocks[..n] == blocks;
    }
  }

  /** What every replayed chain says about itself. */
  lemma {:induction false} ReplayHead<S>(t: (S, Block) -> Option<S>, app: S, chain: seq<Block>)
    requires Linked(chain) && Replay(t, Genesis(app), chain).Some?
    ensures var s := Replay(t, Genesis(app), chain).value; s.headId == HeadId(chain) && s.lib == LibAt(|chain|)
  {
    if chain != [] {
      var p := chain[..|chain| - 1];
      LinkedPrefix(chain, |p|);
      ReplayHead(t, app, p);
      LinkedNum(chain, |chain| - 1);
    }
  }

  ghost predicate UndoOk<S>(t: (S, Block) -> Option<S>, app: S, u: UndoState<S>, chain: seq<Block>, k: nat) {
    k <= |chain| && u.revision == k + 1 && Replay(t, Genesis(app), chain[..k]) == Some(u.before)
  }

  /** How the undo stack and the block log follow the chain: the log is the chain up to the highest
      number ever made irreversible, and there is one undo state for every block above it. */
  ghost predicate History<S>(t: (S, Block) -> Option<S>, app: S, cur: Snapshot<S>, undo: seq<UndoState<S>>,
                             revision: nat, log: seq<Block>, chain: seq<Block>)
  {
    && Linked(chain) && Replay(t, Genesis(app), chain) == Some(cur)
    && |log| <= |chain| && log == chain[..|log|] && LibAt(|chain|) <= |log|
    && revision == |chain| && |undo| == |chain| - |log|
    && forall i :: 0 <= i < |undo| ==> UndoOk(t, app, undo[i], chain, |log| + i)
  }

  /** The chain is in the fork index from the last logged block upwards. */
  ghost predicate Indexed(index: map<BlockId, Block>, chain: seq<Block>, logged: nat) {
    forall i :: 0 <= i < |chain| && i + 1 >= logged ==> Holds(index, chain[i])
  }

  lemma IndexedFrom(index: map<BlockId, Block>, chain: seq<Block>, logged: nat, n: nat)
    requires Indexed(index, chain, logged) && logged <= n
    ensures forall i :: n <= i < |chain| ==> Holds(index, chain[i])
  {
  }

  lemma PrefixSnoc(blocks: seq<Block>, b: Block, n: nat)
    requires n <= |blocks|
    ensures (blocks + [b])[..n] == blocks[..n]
  {
  }

  lemma SliceSnoc(blocks: seq<Block>, i: nat, n: nat)
    requires i <= n < |blocks|
    ensures blocks[i..n + 1] == blocks[i..n] + [blocks[n]]
  {
  }

  lemma IndexedPrefix(index: map<BlockId, Block>, chain: seq<Block>, n: nat, logged: nat)
    requires Indexed(index, chain, logged) && n <= |chain|
    ensures Indexed(index, chain[..n], logged)
  {
  }

  lemma HistoryPop<S>(t: (S, Block) -> Option<S>, app: S, cur: Snapshot<S>, undo: seq<UndoState<S>>,
                      revision: nat, log: seq<Block>, chain: seq<Block>)
    requires History(t, app, cur, undo, revision, log, chain) && undo != []
    ensures chain != []
    ensures History(t, app, undo[|undo| - 1].before, undo[..|undo| - 1], revision - 1, log, chain[..|chain| - 1])
  {
    var n := |chain| - 1;
    LinkedPrefix(chain, n);
    assert UndoOk(t, app, undo[|undo| - 1], chain, n);
    assert chain[..n][..|log|] == log;
    forall i | 0 <= i < |undo| - 1 ensures UndoOk(t, app, undo[i], chain[..n], |log| + i) {
      assert chain[..n][..|log| + i] == chain[..|log| + i];
      assert UndoOk(t, app, undo[i], chain, |log| + i);
    }
  }

  lemma HistoryFacts<S>(t: (S, Block) -> Option<S>, app: S, cur: Snapshot<S>, undo: seq<UndoState<S>>,
                        revision: nat, log: seq<Block>, chain: seq<Block>)
    requires History(t, app, cur, undo, revision, log, chain)
    ensures cur.headId == HeadId(chain) && HeadId(chain).num == |chain| && cur.lib == LibAt(|chain|)
    ensures forall i :: 0 <= i < |undo| ==> undo[i].revision == |log| + i + 1
  {
    ReplayHead(t, app, chain);
    HeadIdNum(chain);
    forall i | 0 <= i < |undo| ensures undo[i].revision == |log| + i + 1 {
      assert UndoOk(t, app, undo[i], chain, |log| + i);
    }
  }

  /** Applying a block, logging up to `logged` and committing that much leaves a history again. */
  lemma HistoryApply<S>(t: (S, Block) -> Option<S>, app: S, cur: Snapshot<S>, undo: seq<UndoState<S>>,
                        revision: nat, log: seq<Block>, chain: seq<Block>, b: Block, cur': Snapshot<S>, logged: nat)
    requires History(t, app, cur, undo, revision, log, chain)
    requires b.previous == cur.headId && Step(t, cur, b) == Some(cur')
    requires |log| <= logged <= |chain| + 1 && LibAt(|chain| + 1) <= logged
    ensures |WithSession(undo, revision, cur)| == |chain| + 1 - |log|
    ensures History(t, app, cur', WithSession(undo, revision, cur)[logged - |log|..], revision + 1,
                    (chain + [b])[..logged], chain + [b])
  {
    var c := chain + [b];
    ReplayHead(t, app, chain);
    LinkedSnoc(chain, b);
    ReplaySnoc(t, Genesis(app), chain, b);
    var all := WithSession(undo, revision, cur);
    forall i | 0 <= i < |all| ensures UndoOk(t, app, all[i], c, |log| + i) {
      assert c[..|log| + i] == chain[..|log| + i];
      if i < |undo| {
        assert UndoOk(t, app, undo[i], chain, |log| + i);
      } else {
        assert chain[..|log| + i] == chain;
      }
    }
    var rest := all[logged - |log|..];
    forall i | 0 <= i < |rest| ensures UndoOk(t, app, rest[i], c, logged + i) {
      assert rest[i] == all[logged - |log| + i];
    }
  }

  /** Trimming below the irreversible block keeps the end of the chain in the index. */
  lemma IndexedApply(index: map<BlockId, Block>, chain: seq<Block>, b: Block, logged: nat, logged': nat)
    requires Linked(chain) && b.previous == HeadId(chain)
    requires Indexed(index, chain, logged) && Holds(index, b)
    requires logged <= logged' && LibAt(|chain| + 1) <= logged'
    ensures Indexed(index, chain + [b], logged)
    ensures Indexed(NotBelow(index, LibAt(|chain| + 1) - 1), chain + [b], logged')
  {
    var c := chain + [b];
    LinkedSnoc(chain, b);
    forall i | 0 <= i < |c| && i + 1 >= logged' ensures Holds(NotBelow(index, LibAt(|chain| + 1) - 1), c[i]) {
      LinkedNum(c, i);
    }
  }

  /** Read backwards, the indexed end of a chain is a walk. */
  lemma ChainWalk(index: map<BlockId, Block>, chain: seq<Block>, k: nat)
    requires Linked(chain) && k < |chain|
    requires forall i :: k <= i < |chain| ==> Holds(index, chain[i])
    ensures Walk(index, Reversed(chain[k..]))
    ensures Reversed(chain[k..])[0] == chain[|chain| - 1]
    ensures Reversed(chain[k..])[|chain| - k - 1] == chain[k]
  {
    var w := Reversed(chain[k..]);
    forall i, j | 0 <= i < j < |w| && j == i + 1 ensures ChildOf(w[i], w[j]) {
      var m := |chain| - 1 - i;
      assert w[i] == chain[m] && w[j] == chain[m - 1];
      assert ChildOf(chain[m], chain[m - 1]);
    }
  }

  /** Looking up number `n + 1` on the main branch finds the block of the chain the fork head builds on,
      whether or not the head itself is still in the index. */
  lemma OnMainBranch(v: View, base: seq<Block>, n: nat)
    requires Linked(base) && n < |base| && v.head.Some? && v.head.value.previous == HeadId(base)
    requires forall i :: n <= i < |base| ==> Holds(v.index, base[i])
    ensures var w := [v.head.value] + Reversed(base[n..]); MainWalk(v, n + 1, w) && w[|w| - 1] == base[n]
  {
    var all, r := WithHead(v), Reversed(base[n..]);
    var w := [v.head.value] + r;
    HeadIdNum(base);
    forall i | n <= i < |base| ensures Holds(all, base[i]) {
      LinkedNum(base, i);
    }
    ChainWalk(all, base, n);
    LinkedNum(base, n);
    forall i, j | 0 <= i < j < |w| && j == i + 1 ensures ChildOf(w[i], w[j]) {
      if i > 0 {
        assert ChildOf(r[i - 1], r[i]);
      }
    }
  }

  /** Every slot of the ring names a block of the chain, by its number. */
  lemma {:induction false} RingSound<S>(t: (S, Block) -> Option<S>, app: S, chain: seq<Block>, slot: nat)
    requires Linked(chain) && Replay(t, Genesis(app), chain).Some?
    requires slot in Replay(t, Genesis(app), chain).value.ring
    ensures var id := Replay(t, Genesis(app), chain).value.ring[slot];
            1 <= id.num <= |chain| && id == chain[id.num - 1].Id() && id.num % RING_SIZE == slot
    decreases |chain|
  {
    if chain != [] {
      var p := chain[..|chain| - 1];
      LinkedPrefix(chain, |p|);
      LinkedNum(chain, |p|);
      if slot != |chain| % RING_SIZE {
        RingSound(t, app, p, slot);
      }
    }
  }

  /** The ring knows the last 65536 blocks. */
  lemma {:induction false} RingRecent<S>(t: (S, Block) -> Option<S>, app: S, chain: seq<Block>, n: nat)
    requires Linked(chain) && Replay(t, Genesis(app), chain).Some?
    requires 1 <= n <= |chain| < n + RING_SIZE
    ensures var ring := Replay(t, Genesis(app), chain).value.ring;
            n % RING_SIZE in ring && ring[n % RING_SIZE] == chain[n - 1].Id()
    decreases |chain|
  {
    var p := chain[..|chain| - 1];
    LinkedPrefix(chain, |p|);
    LinkedNum(chain, |p|);
    if n < |chain| {
      RingRecent(t, app, p, n);
      SlotsDiffer(n, |chain|);
    }
  }

  lemma SlotsDiffer(m: nat, n: nat)
    requires m < n < m + RING_SIZE
    ensures m % RING_SIZE != n % RING_SIZE
  {
  }

  /** The database. */
  class Database<S(!new)> {
    const transact: (S, Block) -> Option<S>
    const genesis: S
    const forkDb: ForkDatabase
    var cur: Snapshot<S>
    var undo: seq<UndoState<S>>
    var revision: nat
    var log: seq<Block>
    var poppedTx: seq<nat>
    ghost var chain: seq<Block>

    /** Everything except the agreement of the two heads and the state of the cache. */
    ghost predicate Core()
      reads this, forkDb
    {
      && forkDb.Valid() && forkDb.maxSize == FORK_DB_MAX_SIZE
      && History(transact, genesis, cur, undo, revision, log, chain)
      && Indexed(forkDb.index, chain, |log|)
    }

    ghost predicate HeadsAgree()
      reads this, forkDb
    {
      Agree(chain, forkDb.Now())
    }

    ghost predicate Valid()
      reads this, forkDb
    {
      Core() && HeadsAgree() && NoneLinkable(forkDb.Now())
    }

    /** The fork head builds on the chain's head: the next accepted block is applied to the chain. */
    ghost predicate Dangling()
      reads this, forkDb
    {
      forkDb.head.Some? && forkDb.head.value.previous == cur.headId
    }

    /** The fork head is known and does not build on the chain's head. */
    ghost predicate Adrift()
      reads this, forkDb
    {
      forkDb.head.Some? && Holds(forkDb.index, forkDb.head.value) && forkDb.head.value.previous != cur.headId
    }

    /** What every push can start from: a fork head above the chain is known, or builds on the chain's head. */
    ghost predicate Sound()
      reads this, forkDb
    {
      && Core()
      && (forkDb.head.Some? && forkDb.head.value.Num() > |chain| ==> Dangling() || Holds(forkDb.index, forkDb.head.value))
    }

    constructor (transact: (S, Block) -> Option<S>, genesis: S)
      ensures Valid() && chain == [] && log == [] && cur == Genesis(genesis) && forkDb.Now() == View(None, map[], map[])
      ensures this.transact == transact && this.genesis == genesis && fresh(forkDb)
    {
      this.transact, this.genesis := transact, genesis;
      this.forkDb := new ForkDatabase();
      cur := Genesis(genesis);
      undo, revision, log, poppedTx, chain := [], 0, [], [], [];
    }

    method StartSession()
      modifies this`undo, this`revision
      ensures revision == old(revision) + 1 && undo == WithSession(old(undo), old(revision), cur)
    {
      revision := revision + 1;
      undo := undo + [UndoState(revision, cur)];
    }

    method DropSession()
      requires undo != [] && revision > 0
      modifies this`cur, this`undo, this`revision
      ensures cur == old(undo)[|old(undo)| - 1].before && undo == old(undo)[..|old(undo)| - 1] && revision == old(revision) - 1
    {
      cur := undo[|undo| - 1].before;
      undo := undo[..|undo| - 1];
      revision := revision - 1;
    }

    /** Restore the state before the last session; nothing happens on an empty stack. */
    method Undo()
      requires Core()
      modifies this`cur, this`undo, this`revision, this`chain
      ensures Core()
      ensures chain == if old(undo) == [] then old(chain) else old(chain)[..|old(chain)| - 1]
    {
      hide Core, History, Indexed, Keyed, Linked, Replay;
      if undo == [] {
        return;
      }
      CoreCur();
      HistoryPop(transact, genesis, cur, undo, revision, log, chain);
      IndexedPrefix(forkDb.index, chain, |chain| - 1, |log|);
      DropSession();
      chain := chain[..|chain| - 1];
      MakeCore();
    }

    /** `commit`: discard the undo states of irreversible revisions.  They are numbered from `base` + 1. */
    method Commit(number: nat, ghost base: nat)
      requires forall i :: 0 <= i < |undo| ==> undo[i].revision == base + i + 1
      requires number <= base + |undo|
      modifies this`undo
      ensures undo == old(undo)[if number < base then 0 else number - base..]
    {
      ghost var k := 0;
      while undo != [] && undo[0].revision <= number
        invariant 0 <= k <= |old(undo)| && undo == old(undo)[k..]
        invariant k == 0 || base + k <= number
        decreases |undo|
      {
        undo := undo[1..];
        k := k + 1;
      }
    }

    /** The first loop of `migrate_irreversible_state`: every block to write is looked up on the main
        branch before any is written.  The fork head builds on the chain `base`. */
    method BlocksToWrite(ghost base: seq<Block>) returns (blocks: seq<Block>)
      requires forkDb.Valid() && Linked(base) && forkDb.head.Some? && forkDb.head.value.previous == HeadId(base)
      requires Indexed(forkDb.index, base, |log|)
      requires |log| <= |base| && cur.lib <= |base|
      ensures blocks == if |log| < cur.lib then base[|log|..cur.lib] else []
    {
      hide Walk, MainWalk, Reversed, Linked, Indexed, Keyed, HeadId;
      blocks := [];
      var n := |log|;
      while n < cur.lib
        invariant |log| <= n && (n <= cur.lib || blocks == [])
        invariant n <= |base| && blocks == base[|log|..n]
      {
        IndexedFrom(forkDb.index, base, |log|, n);
        OnMainBranch(forkDb.Now(), base, n);
        ghost var w := [forkDb.head.value] + Reversed(base[n..]);
        var b := forkDb.FetchOnMainBranch(n + 1);
        assert MainWalk(forkDb.Now(), n + 1, w) && w[|w| - 1] == base[n];
        assert b == Some(base[n]); // so the fork database does contain the block
        SliceSnoc(base, |log|, n);
        blocks := blocks + [b.value];
        n := n + 1;
      }
    }

    /** `block_log::append`: the index position must be the one of the block's number. */
    method AppendToLog(b: Block)
      requires |log| == b.Num() - 1
      modifies this`log
      ensures log == old(log) + [b]
    {
      log := log + [b];
    }

    /** `migrate_irreversible_state`, with the fork head one above the chain `base`; false where its
        first assertion fires, before anything has changed. */
    method MigrateIrreversible(ghost base: seq<Block>) returns (ok: bool)
      requires forkDb.Valid() && forkDb.maxSize == FORK_DB_MAX_SIZE
      requires Linked(base) && forkDb.head.Some? && forkDb.head.value.previous == HeadId(base)
      requires cur.headId.num == |base| + 1 ==> cur.lib == LibAt(|base| + 1)
      requires |log| <= |base| && log == base[..|log|] && Indexed(forkDb.index, base, |log|)
      requires Covers(undo, |log|, |base| + 1)
      modifies this`log, this`undo, forkDb`index, forkDb`unlinked, forkDb`maxSize
      ensures ok <==> cur.headId.num == |base| + 1
      ensures ok ==> log == base[..Max(|old(log)|, cur.lib)] && undo == old(undo)[|log| - |old(log)|..]
      ensures ok ==> forkDb.index == NotBelow(old(forkDb.index), cur.lib - 1)
      ensures ok ==> forkDb.unlinked == NotBelow(old(forkDb.unlinked), cur.lib - 1)
      ensures forkDb.Valid() && forkDb.maxSize == FORK_DB_MAX_SIZE
      ensures !ok ==> && log == old(log) && undo == old(undo)
                      && forkDb.index == old(forkDb.index) && forkDb.unlinked == old(forkDb.unlinked)
    {
      HeadIdNum(base);
      hide Indexed, Linked, NotBelow, Keyed, HeadId;
      if forkDb.head.value.Num() != cur.headId.num {
        return false;
      }
      WriteIrreversible(base);
      Trim();
      Commit(cur.lib, |old(log)|);
      ok := true;
    }

    /** The part of `migrate_irreversible_state` that concerns the block log. */
    method WriteIrreversible(ghost base: seq<Block>)
      requires forkDb.Valid() && Linked(base) && forkDb.head.Some? && forkDb.head.value.previous == HeadId(base)
      requires |log| <= |base| && log == base[..|log|] && Indexed(forkDb.index, base, |log|) && cur.lib <= |base|
      modifies this`log
      ensures log == base[..Max(|old(log)|, cur.lib)]
    {
      hide Indexed, Linked, Keyed, HeadId;
      var blocks := BlocksToWrite(base);
      WriteBlocks(blocks, base);
    }

    /** The second loop of `migrate_irreversible_state`. */
    method WriteBlocks(blocks: seq<Block>, ghost c: seq<Block>)
      requires Linked(c) && |log| + |blocks| <= |c| && log == c[..|log|] && blocks == c[|log|..|log| + |blocks|]
      modifies this`log
      ensures log == c[..|old(log)| + |blocks|]
    {
      ghost var n := |log|;
      for i := 0 to |blocks|
        invariant log == c[..n + i]
      {
        LinkedNum(c, n + i);
        AppendToLog(blocks[i]); // each at its own position
      }
    }

    /** The end of `migrate_irreversible_state`: what is well below the irreversible block leaves the
        fork database. */
    method Trim()
      requires forkDb.Valid() && forkDb.head.Some? && forkDb.head.value.Num() == cur.headId.num
      requires cur.lib == LibAt(cur.headId.num)
      modifies forkDb`index, forkDb`unlinked, forkDb`maxSize
      ensures forkDb.Valid() && forkDb.maxSize == FORK_DB_MAX_SIZE
      ensures forkDb.index == NotBelow(old(forkDb.index), cur.lib - 1)
      ensures forkDb.unlinked == NotBelow(old(forkDb.unlinked), cur.lib - 1)
    {
      forkDb.SetMaxSize(cur.headId.num - cur.lib + 1);
      forkDb.SetMaxSize(FORK_DB_MAX_SIZE);
    }

    /** `apply_block` inside an undo session, pushed on success and undone on failure.  The block is applied
        exactly when the state transition accepts it and it has the number after the head's: whether it
        names the head as its predecessor is not looked at. */
    method ApplyBlock(b: Block) returns (ok: bool)
      requires Core() && Dangling() && Holds(forkDb.index, b)
      modifies this`cur, this`undo, this`revision, this`log, this`chain
      modifies forkDb`index, forkDb`unlinked, forkDb`maxSize
      ensures ok <==> Step(transact, old(cur), b).Some? && b.Num() == |old(chain)| + 1
      ensures ok ==> && chain == old(chain) + [b] && Some(cur) == Step(transact, old(cur), b)
                     && |log| == Max(|old(log)|, LibAt(|chain|)) && old(log) <= log <= chain
                     && forkDb.index == NotBelow(old(forkDb.index), LibAt(|chain|) - 1)
                     && forkDb.unlinked == NotBelow(old(forkDb.unlinked), LibAt(|chain|) - 1)
      ensures ok ==> (Core() <==> b.previous == old(cur.headId))
      ensures !ok ==> && Core() && chain == old(chain) && cur == old(cur) && log == old(log) && undo == old(undo)
                      && forkDb.index == old(forkDb.index) && forkDb.unlinked == old(forkDb.unlinked)
    {
      hide Core, History, Indexed, Linked, NotBelow, HeadId, Holds, Replay, Keyed, WithSession, Covers;
      SessionFacts();
      if transact(cur.app, b).None? {
        return false;
      }
      ghost var logged := Max(|log|, LibAt(|chain| + 1));
      if b.previous == cur.headId {
        AcceptCore(b, logged);
      }
      ok := Accept(b, transact(cur.app, b).value);
      if ok {
        chain := chain + [b];
        AcceptedCore(old(chain), b);
      } else {
        MakeCore();
      }
    }

    /** What `_apply_block` does once the block's transactions have been accepted. */
    method Accept(b: Block, app: S) returns (ok: bool)
      requires forkDb.Valid() && forkDb.maxSize == FORK_DB_MAX_SIZE && Dangling() && transact(cur.app, b) == Some(app)
      requires Indexed(forkDb.index, chain, |log|) && |log| <= |chain| && log == chain[..|log|]
      requires Covers(WithSession(undo, revision, cur), |log|, |chain| + 1)
      requires Linked(chain) && cur.headId == HeadId(chain) && cur.lib == LibAt(|chain|)
      modifies this`cur, this`undo, this`revision, this`log
      modifies forkDb`index, forkDb`unlinked, forkDb`maxSize
      ensures forkDb.Valid() && forkDb.maxSize == FORK_DB_MAX_SIZE
      ensures ok <==> b.Num() == |chain| + 1
      ensures ok ==> Some(cur) == Step(transact, old(cur), b) && revision == old(revision) + 1
      ensures ok ==> && log == chain[..Max(|old(log)|, LibAt(|chain| + 1))]
                     && undo == WithSession(old(undo), old(revision), old(cur))[|log| - |old(log)|..]
                     && forkDb.index == NotBelow(old(forkDb.index), LibAt(|chain| + 1) - 1)
                     && forkDb.unlinked == NotBelow(old(forkDb.unlinked), LibAt(|chain| + 1) - 1)
      ensures !ok ==> && cur == old(cur) && log == old(log) && undo == old(undo) && revision == old(revision)
                      && forkDb.index == old(forkDb.index) && forkDb.unlinked == old(forkDb.unlinked)
    {
      hide Indexed, Linked, NotBelow, HeadId, Keyed, Updated, WithSession, Covers;
      SessionDropped(undo, revision, cur);
      StartSession();
      assert b.Num() == |chain| + 1 ==> b.Num() - cur.lib < MAX_UNDO_HISTORY; // the undo history suffices
      cur := Updated(cur, app, b);
      ok := MigrateIrreversible(chain);
      if !ok {
        DropSession();
      }
    }

    lemma SessionFacts()
      requires Core()
      ensures forkDb.Valid() && forkDb.maxSize == FORK_DB_MAX_SIZE
      ensures History(transact, genesis, cur, undo, revision, log, chain) && Indexed(forkDb.index, chain, |log|)
      ensures Linked(chain) && cur.headId == HeadId(chain) && cur.lib == LibAt(|chain|)
      ensures |log| <= |chain| && log == chain[..|log|]
      ensures Covers(WithSession(undo, revision, cur), |log|, |chain| + 1)
    {
      hide Linked, Replay, Indexed, Keyed, HeadId, UndoOk;
      HistoryFacts(transact, genesis, cur, undo, revision, log, chain);
    }

    lemma AcceptedCore(base: seq<Block>, b: Block)
      requires chain == base + [b] && forkDb.Valid() && forkDb.maxSize == FORK_DB_MAX_SIZE
      requires b.previous == HeadId(base) ==>
                 History(transact, genesis, cur, undo, revision, log, chain) && Indexed(forkDb.index, chain, |log|)
      ensures Core() <==> b.previous == HeadId(base)
    {
      if b.previous != HeadId(base) {
        NotLinkedSnoc(base, b);
      }
    }

    lemma MakeCore()
      requires forkDb.Valid() && forkDb.maxSize == FORK_DB_MAX_SIZE
      requires History(transact, genesis, cur, undo, revision, log, chain) && Indexed(forkDb.index, chain, |log|)
      ensures Core()
    {
    }

    lemma AcceptCore(b: Block, logged: nat)
      requires Core() && Holds(forkDb.index, b) && b.previous == cur.headId && Step(transact, cur, b).Some?
      requires logged == Max(|log|, LibAt(|chain| + 1))
      ensures |log| <= logged <= |chain| && (chain + [b])[..logged] == chain[..logged]
      ensures |WithSession(undo, revision, cur)| == |chain| + 1 - |log|
      ensures History(transact, genesis, Step(transact, cur, b).value,
                      WithSession(undo, revision, cur)[logged - |log|..], revision + 1,
                      chain[..logged], chain + [b])
      ensures Indexed(NotBelow(forkDb.index, LibAt(|chain| + 1) - 1), chain + [b], logged)
    {
      hide Core, History, Indexed, UndoOk, Linked, Replay, Holds, NotBelow, Step, Keyed, WithSession;
      CoreCur();
      CoreHead();
      HistoryApply(transact, genesis, cur, undo, revision, log, chain, b, Step(transact, cur, b).value, logged);
      IndexedApply(forkDb.index, chain, b, |log|, logged);
      PrefixSnoc(chain, b, logged);
    }

    /** `fetch_block_by_id`: the fork database, cache included, then the block log. */
    method FetchBlockById(id: BlockId) returns (r: Option<Block>)
      requires forkDb.Valid()
      ensures id in forkDb.index ==> r == Some(forkDb.index[id])
      ensures r.Some? ==> r.value.Id() == id
      ensures r.None? ==> id !in forkDb.index && id !in forkDb.unlinked && !(1 <= id.num <= |log| && log[id.num - 1].Id() == id)
    {
      if id in forkDb.index {
        return Some(forkDb.index[id]);
      }
      if id in forkDb.unlinked {
        return Some(forkDb.unlinked[id]);
      }
      if 1 <= id.num <= |log| && log[id.num - 1].Id() == id {
        return Some(log[id.num - 1]);
      }
      return None;
    }

    /** `pop_block`; false where the source throws: there is no block to pop, or the fork head has no indexed
        parent. */
    method PopBlock() returns (ok: bool)
      requires Core()
      modifies this`cur, this`undo, this`revision, this`chain, this`poppedTx, forkDb`head
      ensures Core()
      ensures ok <==> old(chain) != [] && old(forkDb.head).Some? && old(forkDb.head).value.previous in forkDb.index
      ensures ok ==> && forkDb.head == Some(forkDb.index[old(forkDb.head).value.previous])
                     && chain == (if |old(chain)| == |log| then old(chain) else old(chain)[..|old(chain)| - 1])
                     && poppedTx == old(chain)[|old(chain)| - 1].transactions + old(poppedTx)
      ensures !ok ==> && chain == old(chain) && cur == old(cur) && undo == old(undo)
                      && forkDb.head == old(forkDb.head) && poppedTx == old(poppedTx)
    {
      hide History, Indexed, Linked;
      CoreHead();
      var headBlock := FetchBlockById(cur.headId);
      if headBlock.None? {
        return false;
      }
      assert headBlock == Some(chain[|chain| - 1]);
      ok := forkDb.PopBlock();
      if ok {
        Undo();
        poppedTx := headBlock.value.transactions + poppedTx;
      }
    }

    /** The pop loops of the fork switch: pop until the head is block `f` of the chain.  The loop gets there
        exactly when block `f` is not below the log; otherwise it comes to rest on the last logged block and throws. */
    method PopUntil(target: BlockId, ghost f: nat) returns (ok: bool)
      requires Core() && f <= |chain| && target == HeadId(chain[..f])
      requires |log| <= |chain| && forkDb.head.Some?
      requires Back(forkDb.index, forkDb.head.value, |chain| - Max(f, |log|)).Some?
      modifies this`cur, this`undo, this`revision, this`chain, this`poppedTx, forkDb`head
      ensures Core()
      ensures ok <==> |log| <= f
      ensures ok ==> chain == old(chain)[..f] && forkDb.head == Back(forkDb.index, old(forkDb.head).value, |old(chain)| - f)
      ensures !ok ==> && chain == old(chain)[..|log|]
                      && (old(forkDb.head.value).previous in forkDb.index ==> Adrift())
      ensures ok ==> poppedTx == Returned(old(chain), f, old(poppedTx))
    {
      PrefixHead(chain, f);
      CoreHead();
      hide Core, Linked;
      PopTracked(target, f);
      ok := PopEmpty(target, f);
      CoreHead();
    }

    /** The rounds of the pop loop that have something to undo. */
    method PopTracked(target: BlockId, ghost f: nat)
      requires Core() && f <= |chain| && target == HeadId(chain[..f]) && target.num == f
      requires |log| <= |chain| && forkDb.head.Some?
      requires Back(forkDb.index, forkDb.head.value, |chain| - Max(f, |log|)).Some?
      modifies this`cur, this`undo, this`revision, this`chain, this`poppedTx, forkDb`head
      ensures Core() && forkDb.head.Some?
      ensures |chain| == Max(f, |log|) && chain == old(chain)[..|chain|]
      ensures cur.headId == target <==> |chain| == f
      ensures forkDb.head == old(forkDb.head) || Holds(forkDb.index, forkDb.head.value)
      ensures forkDb.head == Back(forkDb.index, old(forkDb.head).value, |old(chain)| - |chain|)
      ensures poppedTx == Returned(old(chain), |chain|, old(poppedTx))
    {
      hide Core, Linked;
      ghost var all, stop := chain, Max(f, |log|);
      ghost var goal := Back(forkDb.index, forkDb.head.value, |chain| - stop);
      CoreHead();
      while cur.headId != target && undo != []
        invariant Core() && stop <= |chain| <= |all| && chain == all[..|chain|]
        invariant cur.headId == HeadId(chain) && HeadId(chain).num == |chain|
        invariant undo == [] <==> |chain| == |log|
        invariant forkDb.head.Some? && Back(forkDb.index, forkDb.head.value, |chain| - stop) == goal
        invariant forkDb.head == old(forkDb.head) || Holds(forkDb.index, forkDb.head.value)
        invariant poppedTx == Returned(all, |chain|, old(poppedTx))
        decreases |chain|
      {
        PopTrackedOnce();
        CoreHead();
      }
    }

    method PopTrackedOnce()
      requires Core() && undo != [] && forkDb.head.Some? && forkDb.head.value.previous in forkDb.index
      modifies this`cur, this`undo, this`revision, this`chain, this`poppedTx, forkDb`head
      ensures Core() && old(chain) != [] && chain == old(chain)[..|old(chain)| - 1]
      ensures forkDb.head == Some(forkDb.index[old(forkDb.head).value.previous]) && Holds(forkDb.index, forkDb.head.value)
      ensures poppedTx == old(chain)[|old(chain)| - 1].transactions + old(poppedTx)
    {
      var _ := PopBlock();
    }

    /** The rounds of the pop loop on an empty undo stack: they change nothing but the fork head, and end
        when that cannot be popped any more. */
    method PopEmpty(target: BlockId, ghost f: nat) returns (ok: bool)
      requires Core() && f <= |chain| && target.num == f && forkDb.head.Some?
      requires cur.headId == target <==> |chain| == f
      requires cur.headId != target ==> undo == []
      modifies this`cur, this`undo, this`revision, this`chain, this`poppedTx, forkDb`head
      ensures Core() && chain == old(chain)
      ensures ok <==> |chain| == f
      ensures ok ==> forkDb.head == old(forkDb.head) && poppedTx == old(poppedTx)
      ensures !ok ==> && forkDb.head.Some? && (chain != [] ==> forkDb.head.value.previous !in forkDb.index)
                      && (forkDb.head == old(forkDb.head) || Holds(forkDb.index, forkDb.head.value))
    {
      while cur.headId != target
        invariant Core() && chain == old(chain) && forkDb.head.Some?
        invariant cur.headId == target <==> |chain| == f
        invariant |chain| != f ==> undo == []
        invariant forkDb.head == old(forkDb.head) || Holds(forkDb.index, forkDb.head.value)
        invariant |chain| == f ==> forkDb.head == old(forkDb.head) && poppedTx == old(poppedTx)
        decreases forkDb.head.value.Num()
      {
        CoreHead();
        ok := PopBlock();
        CoreHead();
        if !ok {
          return;
        }
      }
      ok := true;
    }

    /** `n` blocks of `branch`, oldest first, have been applied on top of `chain0`, with `before` the fork
        database and `log0` the log at that time. */
    ghost predicate Climbed(branch: seq<Block>, n: nat, chain0: seq<Block>, log0: seq<Block>, before: View)
      reads this, forkDb
    {
      && Core() && n <= |branch| && chain == chain0 + Reversed(branch)[..n]
      && log0 <= log && |log| == Max(|log0|, if n == 0 then 0 else LibAt(|chain|))
      && Trimmed(before.index, forkDb.index, LibAt(|chain|) - 1)
      && Sub(forkDb.index, before.index) && Sub(forkDb.unlinked, before.unlinked)
    }

    /** The apply loops of the fork switch: the blocks of a branch, oldest first, until one is refused.
        Returns how many were applied. */
    method ApplyBranch(branch: seq<Block>) returns (applied: nat)
      requires Core() && branch != [] && Walk(forkDb.index, branch) && branch[|branch| - 1].previous == cur.headId
      requires forkDb.head.Some?
      modifies this`cur, this`undo, this`revision, this`log, this`chain, forkDb
      ensures applied <= |branch| && Climbed(branch, applied, old(chain), old(log), old(forkDb.Now()))
      ensures applied < |branch| ==> && Step(transact, cur, Reversed(branch)[applied]) == None
                                     && forkDb.head == Some(Reversed(branch)[applied])
      ensures applied == |branch| ==> forkDb.head == Some(branch[0])
    {
      CoreHead();
      assert Climbed(branch, 0, chain, log, forkDb.Now());
      hide Climbed, Core, Walk, Linked, Step;
      applied := 0;
      while applied < |branch|
        invariant applied <= |branch| && Climbed(branch, applied, old(chain), old(log), old(forkDb.Now()))
        invariant applied > 0 ==> forkDb.head == Some(Reversed(branch)[applied - 1])
      {
        var ok := ApplyRound(branch, applied, old(chain), old(log), old(forkDb.Now()));
        if !ok {
          return;
        }
        applied := applied + 1;
      }
    }

    /** One round of an apply loop. */
    method ApplyRound(branch: seq<Block>, n: nat, ghost chain0: seq<Block>, ghost log0: seq<Block>, ghost before: View)
      returns (ok: bool)
      requires n < |branch| && Climbed(branch, n, chain0, log0, before)
      requires Walk(before.index, branch) && branch[|branch| - 1].previous == HeadId(chain0) && HeadId(chain0).num == |chain0|
      modifies this`cur, this`undo, this`revision, this`log, this`chain, forkDb
      ensures forkDb.head == Some(Reversed(branch)[n])
      ensures ok ==> Climbed(branch, n + 1, chain0, log0, before)
      ensures !ok ==> Climbed(branch, n, chain0, log0, before) && Step(transact, cur, Reversed(branch)[n]) == None
    {
      hide Core, Walk, Trimmed, Linked, Step, Reversed;
      CoreHead();
      var b := branch[|branch| - 1 - n];
      ReversedStep(before.index, branch, n, chain0);
      TrimmedHolds(before.index, forkDb.index, LibAt(|chain|) - 1, b);
      ghost var index1, bound := forkDb.index, LibAt(|chain|) - 1;
      ok := ApplyNext(b);
      TrimmedMore(before.index, index1, forkDb.index, bound, LibAt(|chain|) - 1);
    }

    /** Set the fork head and apply. */
    method ApplyNext(b: Block) returns (ok: bool)
      requires Core() && Holds(forkDb.index, b) && b.previous == cur.headId
      modifies this`cur, this`undo, this`revision, this`log, this`chain, forkDb
      ensures Core() && forkDb.head == Some(b)
      ensures ok <==> Step(transact, old(cur), b).Some?
      ensures ok ==> chain == old(chain) + [b] && |log| == Max(|old(log)|, LibAt(|chain|)) && old(log) <= log
      ensures !ok ==> chain == old(chain) && cur == old(cur) && log == old(log)
      ensures Trimmed(old(forkDb.index), forkDb.index, LibAt(|chain|) - 1)
      ensures Sub(forkDb.index, old(forkDb.index)) && Sub(forkDb.unlinked, old(forkDb.unlinked))
    {
      hide History, Indexed, Step;
      CoreHead();
      forkDb.SetHead(b);
      ok := ApplyBlock(b);
    }

    /** After a refused block: it and the blocks above it on the branch leave the fork database. */
    method RemoveRest(branch: seq<Block>, applied: nat)
      requires Core() && applied < |branch|
      requires forall i :: 0 <= i < |branch| - applied ==> branch[i].Num() > |chain|
      modifies forkDb`index
      ensures Core() && forkDb.index == old(forkDb.index) - Ids(branch[..|branch| - applied])
    {
      hide History;
      LinkedNums();
      var i := |branch| - applied;
      while i > 0
        invariant 0 <= i <= |branch| - applied
        invariant forkDb.Valid() && Indexed(forkDb.index, chain, |log|)
        invariant forkDb.index == old(forkDb.index) - Ids(branch[i..|branch| - applied])
      {
        i := i - 1;
        forkDb.Remove(branch[i].Id());
        IdsCons(branch[i..|branch| - applied]);
        assert branch[i..|branch| - applied][1..] == branch[i + 1..|branch| - applied];
      }
    }

    lemma LinkedNums()
      requires Core()
      ensures forall i :: 0 <= i < |chain| ==> chain[i].Num() == i + 1
    {
      forall i | 0 <= i < |chain| ensures chain[i].Num() == i + 1 {
        LinkedNum(chain, i);
      }
    }

    /** The fork switch of `_push_block`, from the fork `first` in favour of the current branch `second`. */
    method SwitchFork(first: seq<Block>, second: seq<Block>) returns (o: SwitchOutcome)
      requires Core() && forkDb.head.Some? && |first| > |second| > 0 && forkDb.head.value == first[0]
      requires Walk(forkDb.index, first) && Walk(forkDb.index, second) && MeetAtEnds(first, second)
      requires chain != [] && second[0] == chain[|chain| - 1]
      modifies this`cur, this`undo, this`revision, this`log, this`chain, this`poppedTx, forkDb
      ensures Core() && |second| <= |old(chain)| && old(log) <= log
      ensures (o, chain) == SwitchResult(transact, genesis, old(chain), |old(log)|, |old(chain)| - |second|, Reversed(first))
      ensures o == RolledBack ==> // the refused block and those above it on its branch are gone
                var applied := Applied(transact, genesis, old(chain)[..|old(chain)| - |second|], Reversed(first));
                forkDb.index.Keys !! Ids(first[..|first| - applied])
      ensures o != Stuck ==> chain != [] && forkDb.head == Some(chain[|chain| - 1])
      ensures o == Stuck ==> Adrift()
      ensures Sub(forkDb.index, old(forkDb.index)) && Sub(forkDb.unlinked, old(forkDb.unlinked))
    {
      hide Core, Reversed, Walk, MeetAtEnds, Trimmed, Replay, Step, Applied, Failed, Back;
      ghost var f, all, logged := SwitchFacts(first, second);
      ghost var index0 := forkDb.index;
      var target := second[|second| - 1].previous;
      var ok := PopUntil(target, f);
      if !ok {
        return Stuck;
      }
      o := Advance(first, second, f, all, logged, index0);
    }

    /** The fork switch from the fork point on. */
    method Advance(first: seq<Block>, second: seq<Block>, ghost f: nat, ghost all: seq<Block>, ghost logged: nat,
                   ghost index0: map<BlockId, Block>) returns (o: SwitchOutcome)
      requires Core() && forkDb.head.Some? && |first| > |second| > 0 && Walk(index0, first)
      requires all != [] && f <= |all| && chain == all[..f] && first[|first| - 1].previous == HeadId(all[..f])
      requires forall applied :: 0 <= applied < |first| ==> Failed(index0, first, second, applied, f, all)
      requires |log| == logged <= f && LibAt(|all|) <= logged && forkDb.index == index0
      requires Replay(transact, Genesis(genesis), all).Some?
      modifies this`cur, this`undo, this`revision, this`log, this`chain, this`poppedTx, forkDb
      ensures Core() && old(log) <= log
      ensures (o, chain) == SwitchResult(transact, genesis, all, logged, f, Reversed(first))
      ensures o == RolledBack ==> forkDb.index.Keys !! Ids(first[..|first| - Applied(transact, genesis, all[..f], Reversed(first))])
      ensures o != Stuck ==> chain != [] && forkDb.head == Some(chain[|chain| - 1])
      ensures o == Stuck ==> Adrift()
      ensures Sub(forkDb.index, index0) && Sub(forkDb.unlinked, old(forkDb.unlinked))
    {
      hide Core, Reversed, Walk, MeetAtEnds, Trimmed, Replay, Step, Applied, Failed, Back;
      CoreHead();
      var applied := ApplyBranch(first);
      AppliedBranch(all[..f], Reversed(first), applied);
      if applied == |first| {
        assert Reversed(first)[..applied] == Reversed(first);
        return Switched;
      }
      o := RollBack(first, second, applied, f, all, logged, index0);
    }

    lemma SwitchFacts(first: seq<Block>, second: seq<Block>) returns (f: nat, all: seq<Block>, logged: nat)
      requires Core() && forkDb.head.Some? && |first| > |second| > 0 && forkDb.head.value == first[0]
      requires Walk(forkDb.index, first) && Walk(forkDb.index, second) && MeetAtEnds(first, second)
      requires chain != [] && second[0] == chain[|chain| - 1]
      ensures |second| <= |chain| && f == |chain| - |second| && all == chain && logged == |log|
      ensures |log| <= |chain| && LibAt(|chain|) <= |log| && |first| > 0
      ensures second[|second| - 1].previous == HeadId(all[..f]) == first[|first| - 1].previous
      ensures Back(forkDb.index, forkDb.head.value, |chain| - Max(f, |log|)).Some?
      ensures forkDb.head.value.previous in forkDb.index
      ensures forall applied :: 0 <= applied < |first| ==> Failed(forkDb.index, first, second, applied, f, all)
      ensures Replay(transact, Genesis(genesis), all).Some?
    {
      hide Core, Replay, Reversed, History;
      CoreHead();
      CoreCur();
      BackOnChain(forkDb.index, chain, second);
      f, all, logged := |chain| - |second|, chain, |log|;
      PrefixHead(chain, f);
      BackWalk(forkDb.index, forkDb.index, first, 0, |chain| - Max(f, |log|));
      WalkParent(forkDb.index, first, 0);
    }

    /** The failure path of the fork switch: remove the rest of the branch, pop what was applied of it, and
        apply the old branch again. */
    method RollBack(first: seq<Block>, second: seq<Block>, applied: nat, ghost f: nat, ghost all: seq<Block>,
                    ghost logged: nat, ghost index0: map<BlockId, Block>) returns (o: SwitchOutcome)
      requires Core() && Failed(index0, first, second, applied, f, all)
      requires chain == all[..f] + Reversed(first)[..applied] && forkDb.head == Some(Reversed(first)[applied])
      requires Trimmed(index0, forkDb.index, LibAt(|chain|) - 1) && Sub(forkDb.index, index0)
      requires |log| == Max(logged, if applied == 0 then 0 else LibAt(|chain|)) && LibAt(|all|) <= logged <= f
      requires Replay(transact, Genesis(genesis), all).Some?
      requires Step(transact, cur, Reversed(first)[applied]) == None
      modifies this`cur, this`undo, this`revision, this`log, this`chain, this`poppedTx, forkDb
      ensures Core() && old(log) <= log
      ensures applied <= MAX_WITNESSES ==> o == RolledBack && chain == all && forkDb.head == Some(all[|all| - 1])
      ensures applied > MAX_WITNESSES ==> o == Stuck && chain == (all[..f] + Reversed(first))[..LibAt(f + applied)]
      ensures o == Stuck ==> Adrift()
      ensures forkDb.index.Keys !! Ids(first[..|first| - applied])
      ensures Sub(forkDb.index, index0) && Sub(forkDb.unlinked, old(forkDb.unlinked))
    {
      hide Core, Reversed, Walk, MeetAtEnds, Trimmed, Replay, Step, Back, Linked, Holds, Ids, Adrift;
      ghost var index1 := forkDb.index;
      FailedNums(index0, first, second, applied, f, all);
      if applied == 0 {
        assert chain == all[..f];
        RefusedIsNew(first[|first| - 1], f, all);
      }
      BackKept(index0, index1, first, second, applied, f, all, Max(f, |log|));
      RemoveRest(first, applied);
      var target := second[|second| - 1].previous;
      PoppedChain(all, f, Reversed(first), applied, |log|);
      if |log| > f {
        BackFirst(forkDb.index, forkDb.head.value, |chain| - Max(f, |log|));
      }
      var ok := PopUntil(target, f);
      if !ok {
        return Stuck;
      }
      WalkKept(index0, index1, first, second, applied, f, all);
      Restore(second, f, all);
      return RolledBack;
    }

    /** If the oldest block of the branch is refused, it is not the one the old branch has there. */
    lemma RefusedIsNew(refused: Block, f: nat, all: seq<Block>)
      requires Core() && f < |all| && chain == all[..f]
      requires Replay(transact, Genesis(genesis), all).Some? && Step(transact, cur, refused) == None
      ensures refused != all[f]
    {
      hide Core, Replay, Step;
      StillApplies(all, f);
    }

    /** Apply the old branch again. */
    method Restore(second: seq<Block>, ghost f: nat, ghost all: seq<Block>)
      requires Core() && second != [] && Walk(forkDb.index, second) && |all| == f + |second|
      requires forall i :: 0 <= i < |second| ==> second[i] == all[|all| - 1 - i]
      requires chain == all[..f] && second[|second| - 1].previous == HeadId(all[..f])
      requires forkDb.head.Some? && Replay(transact, Genesis(genesis), all).Some?
      modifies this`cur, this`undo, this`revision, this`log, this`chain, this`poppedTx, forkDb
      ensures Core() && chain == all && forkDb.head == Some(all[|all| - 1]) && old(log) <= log
      ensures Sub(forkDb.index, old(forkDb.index)) && Sub(forkDb.unlinked, old(forkDb.unlinked))
    {
      hide Core, Reversed, Walk, Replay, Step;
      CoreHead();
      var restored := ApplyBranch(second);
      ReversedIsEnd(second, all, f, restored);
      if restored < |second| {
        StillApplies(all, f + restored);
        assert false;
      }
    }

    /** A block that the chain `all` was once extended by still applies. */
    lemma StillApplies(all: seq<Block>, k: nat)
      requires Core() && k < |all| && chain == all[..k] && Replay(transact, Genesis(genesis), all).Some?
      ensures Step(transact, cur, all[k]).Some?
    {
      hide Core, History, Step;
      CoreCur();
      ReplayPrefix(transact, Genesis(genesis), all, k + 1);
      assert all[..k + 1] == chain + [all[k]];
      ReplaySnoc(transact, Genesis(genesis), chain, all[k]);
    }

    lemma AppliedBranch(base: seq<Block>, blocks: seq<Block>, applied: nat)
      requires Core() && applied <= |blocks| && chain == base + blocks[..applied]
      requires applied < |blocks| ==> Step(transact, cur, blocks[applied]) == None
      ensures Applied(transact, genesis, base, blocks) == applied
    {
      hide Core, History, Step, Applied;
      CoreCur();
      if applied < |blocks| {
        ReplaySnoc(transact, Genesis(genesis), chain, blocks[applied]);
        assert base + blocks[..applied + 1] == chain + [blocks[applied]];
      }
      AppliedIs(transact, genesis, base, blocks, applied);
    }

    /** The database as a value. */
    ghost function At(): Moment<S>
      reads this, forkDb
    {
      Moment(cur, chain, log, forkDb.Now())
    }

    /** The fork head is missing or not above the chain. */
    ghost predicate HeadLow()
      reads this, forkDb
    {
      forkDb.head.Some? ==> forkDb.head.value.Num() <= |chain|
    }

    /** `_push_block`.  `pushed` is the fork database right after the block went in. */
    method PushBlock(b: Block) returns (o: PushOutcome, ghost pushed: View)
      requires Sound()
      modifies this`cur, this`undo, this`revision, this`log, this`chain, this`poppedTx, forkDb
      // whatever happens, the state is a replay of the chain, and the log only grows
      ensures Replay(transact, Genesis(genesis), chain) == Some(cur) && old(log) <= log <= chain
      ensures Sound() <==> Harmless(o, old(cur.headId), old(chain), |old(log)|, b)
      // which block meets which fate
      ensures PushEffect(old(forkDb.Now()), pushed, FORK_DB_MAX_SIZE, b, StatusOf(o))
      ensures StatusOf(o) == Accepted ==> Decided(transact, genesis, old(cur), old(chain), |old(log)|, pushed, b, o, chain)
      ensures o.RefusedTooOld? && forkDb.Now() == old(forkDb.Now()) <==>
                old(forkDb.head).Some? && b.Num() + FORK_DB_MAX_SIZE <= old(forkDb.head).value.Num()
      ensures b.previous == old(cur.headId) && old(HeadLow() || Dangling()) && Childless(old(forkDb.Now()), b.Id()) ==>
                o == if Step(transact, old(cur), b).Some? then Extended else ExtensionFailed
      // what it leaves behind
      ensures Aftermath(old(At()), pushed, b, o, At())
      ensures pushed.head.Some? ==> Newcomer(pushed.head.value, b, old(forkDb.Now()))
      // only a fork head left behind by a failed extension, or a cascade cut short, lets a block do harm
      ensures old(NoneLinkable(forkDb.Now()) && !Dangling()) ==> Sound()
      ensures old(!Dangling()) && !o.ExtensionFailed? && !o.RefusedTooOld? ==> !Dangling()
      ensures old(NoneLinkable(forkDb.Now())) && (o.RefusedTooOld? ==> TooOldFor(old(forkDb.Now()), FORK_DB_MAX_SIZE, b)) ==>
                NoneLinkable(forkDb.Now())
      ensures old(Valid()) && (o.Extended? || o.Stayed? || o.Cached? || o.ForkSwitched? || o.ForkRolledBack?) ==> Valid()
    {
      hide Core, NoneLinkable, Replay, Step, PushEffect, Childless, SwitchDecided, Aftermath, Agree, Newcomer, Entered, Linked, Tracked;
      CoreHead();
      o, pushed := Push(b);
      ghost var v := old(forkDb.Now());
      EnteredHead(v, pushed, b, StatusOf(o), old(cur.headId));
      RefusedIff(v, pushed, FORK_DB_MAX_SIZE, b, StatusOf(o));
      NotTracked(old(chain), |old(log)|, b);
      if old(Valid()) {
        AgreeAfter(old(At()), pushed, b, o, At());
      }
    }

    /** The work of `_push_block`. */
    method Push(b: Block) returns (o: PushOutcome, ghost pushed: View)
      requires Sound()
      modifies this`cur, this`undo, this`revision, this`log, this`chain, this`poppedTx, forkDb
      ensures Replay(transact, Genesis(genesis), chain) == Some(cur) && old(log) <= log <= chain
      ensures Sound() <==> Harmless(o, old(cur.headId), old(chain), |old(log)|, b)
      ensures PushEffect(old(forkDb.Now()), pushed, FORK_DB_MAX_SIZE, b, StatusOf(o))
      ensures StatusOf(o) == Accepted ==> Decided(transact, genesis, old(cur), old(chain), |old(log)|, pushed, b, o, chain)
      ensures Aftermath(old(At()), pushed, b, o, At())
      ensures Entered(old(forkDb.Now()), pushed, b, StatusOf(o), old(cur.headId))
      ensures o.Extended? || o.ExtensionFailed? <==>
                StatusOf(o) == Accepted && pushed.head.Some? && pushed.head.value.previous == old(cur.headId)
      ensures o.RefusedTooOld? ==> forkDb.Now() == pushed
      ensures o.Stayed? ==> pushed.head.Some? && pushed.head.value.Num() <= |old(chain)|
      ensures o.ForkSwitched? || o.ForkRolledBack? ==> HeadsAgree()
      ensures old(!Dangling()) && !o.ExtensionFailed? && !o.RefusedTooOld? ==> !Dangling()
      ensures old(NoneLinkable(forkDb.Now())) && (o.RefusedTooOld? ==> TooOldFor(old(forkDb.Now()), FORK_DB_MAX_SIZE, b)) ==>
                NoneLinkable(forkDb.Now())
    {
      hide Core, NoneLinkable, Replay, Step, PushEffect, Linked, History, Indexed, Sub, Holds, Decided, Kept, Keyed,
           Aftermath, Agree, Entered;
      CoreHead();
      CoreCur();
      ghost var v := forkDb.Now();
      var status := forkDb.PushBlock(b);
      pushed := forkDb.Now();
      PushedView(v, pushed, b, status, cur.headId);
      CoreGrown(v.index);
      if status == TooOld {
        PushedOnly(old(At()), pushed, b);
        return RefusedTooOld, pushed;
      }
      if status == Unlinkable {
        PushedOnly(old(At()), v, b);
        return Cached, v;
      }
      o := FollowHead(b);
      StillNoneLinkable(pushed, forkDb.Now());
      PushedAftermath(old(At()), pushed, b, o, At());
    }

    /** The rest of `_push_block`, once the fork database has accepted the block. */
    method FollowHead(b: Block) returns (o: PushOutcome)
      requires Core() && forkDb.head.Some? && Holds(forkDb.index, b)
      requires forkDb.head.value.Num() > |chain| && !Dangling() ==> Holds(forkDb.index, forkDb.head.value)
      modifies this`cur, this`undo, this`revision, this`log, this`chain, this`poppedTx, forkDb
      ensures Replay(transact, Genesis(genesis), chain) == Some(cur) && old(log) <= log <= chain
      ensures Sound() <==> Harmless(o, old(cur.headId), old(chain), |old(log)|, b)
      ensures StatusOf(o) == Accepted
      ensures Decided(transact, genesis, old(cur), old(chain), |old(log)|, old(forkDb.Now()), b, o, chain)
      ensures old(Dangling()) ==> o == if Step(transact, old(cur), b).Some? && b.Num() == |old(chain)| + 1 then Extended else ExtensionFailed
      ensures !old(Dangling()) ==> !o.Extended? && !o.ExtensionFailed?
      ensures Aftermath(old(At()), old(forkDb.Now()), b, o, At())
      ensures o.Stayed? ==> old(forkDb.head.value).Num() <= |old(chain)|
      ensures o.ForkSwitched? || o.ForkRolledBack? ==> HeadsAgree()
      ensures !o.ExtensionFailed? ==> !Dangling()
      ensures Sub(forkDb.index, old(forkDb.index)) && Sub(forkDb.unlinked, old(forkDb.unlinked))
    {
      hide Core, Replay, Step, Linked, History, Indexed, Holds, SwitchDecided, Tracked, Kept, Keyed, Sub,
           Aftermath, Agree, LibAt, HeadId;
      SubSelf(forkDb.Now());
      PushedOnly(At(), forkDb.Now(), b);
      CoreHead();
      var newHead := forkDb.head.value;
      if newHead.previous == cur.headId {
        o := Extend(b);
      } else if newHead.Num() > cur.headId.num {
        o := TrySwitch(newHead, b);
        CoreCur();
      } else {
        o := Stayed;
        CoreCur();
      }
    }

    /** A whole run: blocks pushed one after the other.  Whatever the blocks and their order, nothing that was
        ever logged changes or disappears.  The run goes on past every refused block and every failed or stuck
        switch; it ends only where a push has broken the chain, which takes an earlier failed extension or a
        block that was refused as too old. */
    method PushAll(blocks: seq<Block>) returns (n: nat, outcomes: seq<PushOutcome>)
      requires Sound()
      modifies this`cur, this`undo, this`revision, this`log, this`chain, this`poppedTx, forkDb
      ensures n <= |blocks| && old(log) <= log <= chain
      ensures Replay(transact, Genesis(genesis), chain) == Some(cur)
      ensures |outcomes| == if n < |blocks| then n + 1 else n
      ensures Sound() <==> n == |blocks|
      ensures old(Valid()) && Untroubled(outcomes[..n]) ==> n == |blocks| && NoneLinkable(forkDb.Now()) && !Dangling()
    {
      hide Core, Dangling, HeadLow, NoneLinkable, Replay, PushEffect, Decided, Step, Tracked, Aftermath, Newcomer;
      CoreCur();
      NotDangling();
      n, outcomes := 0, [];
      while n < |blocks|
        invariant n == |outcomes| <= |blocks| && Sound() && old(log) <= log <= chain
        invariant Replay(transact, Genesis(genesis), chain) == Some(cur)
        invariant old(Valid()) && Untroubled(outcomes) ==> NoneLinkable(forkDb.Now()) && !Dangling()
      {
        var b, headId := blocks[n], cur.headId;
        var tracked := IsTracked(b);
        var o, _ := PushBlock(b);
        assert (outcomes + [o])[..n] == outcomes;
        outcomes := outcomes + [o];
        if (o.Extended? && b.previous != headId) || (o.ExtensionFailed? && tracked) {
          return;
        }
        n := n + 1;
      }
      assert outcomes[..n] == outcomes;
    }

    lemma NotDangling()
      requires Sound()
      ensures Valid() ==> NoneLinkable(forkDb.Now()) && !Dangling()
    {
      CoreHead();
    }

    /** Whether the block is one of those at the end of the chain that must stay in the fork database. */
    method IsTracked(b: Block) returns (r: bool)
      requires Core()
      ensures r <==> Tracked(chain, |log|, b)
    {
      hide Core, History, Indexed, Replay, Linked;
      CoreHead();
      CoreCur();
      var slot := b.Num() % RING_SIZE;
      r := b.Num() >= |log| && slot in cur.ring && cur.ring[slot] == b.Id();
      if r {
        RingSound(transact, genesis, chain, slot);
      } else if Tracked(chain, |log|, b) {
        RingRecent(transact, genesis, chain, b.Num());
        assert false;
      }
    }

    /** The plain extension at the end of `_push_block`: the pushed block is applied to the chain, although
        it is the fork head that builds on it. */
    method Extend(b: Block) returns (o: PushOutcome)
      requires Core() && Dangling() && Holds(forkDb.index, b)
      modifies this`cur, this`undo, this`revision, this`log, this`chain
      modifies forkDb`index, forkDb`unlinked, forkDb`maxSize
      ensures o == if Step(transact, old(cur), b).Some? && b.Num() == |old(chain)| + 1 then Extended else ExtensionFailed
      ensures Core() <==> Harmless(o, old(cur.headId), old(chain), |old(log)|, b)
      ensures Replay(transact, Genesis(genesis), chain) == Some(cur) && old(log) <= log <= chain
      ensures Aftermath(old(At()), old(forkDb.Now()), b, o, At())
      ensures o.Extended? ==> chain == old(chain) + [b] && !Dangling()
      ensures o.ExtensionFailed? ==> chain == old(chain) && cur == old(cur)
      ensures Sub(forkDb.index, old(forkDb.index)) && Sub(forkDb.unlinked, old(forkDb.unlinked))
    {
      hide History, Indexed, Linked, Core, Replay, Step, Keyed, Holds, Tracked;
      CoreHead();
      CoreCur();
      StepHead(transact, cur, b);
      ReplaySnoc(transact, Genesis(genesis), chain, b);
      var ok := ApplyBlock(b);
      if ok {
        return Extended;
      }
      RemovedIndexed(forkDb.index, chain, |log|, b);
      CoreCur();
      forkDb.Remove(b.Id());
      CoreIs();
      o := ExtensionFailed;
    }

    lemma CoreIs()
      requires forkDb.Valid() && forkDb.maxSize == FORK_DB_MAX_SIZE
      requires History(transact, genesis, cur, undo, revision, log, chain)
      ensures Core() <==> Indexed(forkDb.index, chain, |log|)
    {
    }

    /** The fork switch, if the branches can be found. */
    method TrySwitch(newHead: Block, ghost b: Block) returns (o: PushOutcome)
      requires Core() && forkDb.head == Some(newHead) && Holds(forkDb.index, newHead) && newHead.Num() > cur.headId.num && !Dangling()
      modifies this`cur, this`undo, this`revision, this`log, this`chain, this`poppedTx, forkDb
      ensures SwitchDecided(transact, genesis, old(chain), |old(log)|, old(forkDb.index), newHead, o, chain)
      ensures Aftermath(old(At()), old(forkDb.Now()), b, o, At())
      ensures Sound() && old(log) <= log && (o.ForkSwitched? || o.ForkRolledBack? || o.ForkStuck? || o.BranchUnknown?)
      ensures !Dangling() && (o.ForkSwitched? || o.ForkRolledBack? ==> HeadsAgree())
      ensures Sub(forkDb.index, old(forkDb.index)) && Sub(forkDb.unlinked, old(forkDb.unlinked))
    {
      hide Core, History, Indexed, Replay, Step, Applied, Walk, MeetAtEnds, Reversed, Linked, SwitchDecided, Meet, Aftermath;
      CoreHead();
      CoreCur();
      var branches := forkDb.FetchBranchFrom(newHead.Id(), cur.headId);
      if branches.None? {
        PushedOnly(At(), forkDb.Now(), b);
        UnknownBranch(transact, genesis, chain, |log|, forkDb.index, newHead);
        return BranchUnknown;
      }
      var first, second := branches.value.0, branches.value.1;
      BranchFacts(forkDb.index, newHead, chain, first, second);
      o := SwitchTo(newHead, first, second, b);
    }

    /** The fork switch as a whole, seen from the push. */
    method SwitchTo(newHead: Block, first: seq<Block>, second: seq<Block>, ghost b: Block) returns (o: PushOutcome)
      requires Core() && forkDb.head == Some(newHead)
      requires |first| > |second| > 0 && newHead == first[0]
      requires Walk(forkDb.index, first) && Walk(forkDb.index, second) && MeetAtEnds(first, second)
      requires chain != [] && second[0] == chain[|chain| - 1] && Replay(transact, Genesis(genesis), chain) == Some(cur)
      modifies this`cur, this`undo, this`revision, this`log, this`chain, this`poppedTx, forkDb
      ensures SwitchDecided(transact, genesis, old(chain), |old(log)|, old(forkDb.index), newHead, o, chain)
      ensures Aftermath(old(At()), old(forkDb.Now()), b, o, At())
      ensures Sound() && old(log) <= log && (o.ForkSwitched? || o.ForkRolledBack? || o.ForkStuck?)
      ensures !Dangling() && (o.ForkSwitched? || o.ForkRolledBack? ==> HeadsAgree())
      ensures Sub(forkDb.index, old(forkDb.index)) && Sub(forkDb.unlinked, old(forkDb.unlinked))
    {
      hide Core, Replay, Step, Applied, Walk, MeetAtEnds, Sub, Reversed, Linked, SwitchResult, SwitchDecided, Holds;
      ghost var v, all, f := forkDb.Now(), chain, |chain| - |second|;
      CoreCur();
      var s := SwitchFork(first, second);
      CoreCur();
      CoreHead();
      SwitchTip(transact, genesis, all, |old(log)|, f, first);
      match s {
        case Switched => o := ForkSwitched;
        case RolledBack =>
          o := ForkRolledBack;
          TipRemoved(transact, genesis, all, f, first, forkDb.index);
        case Stuck => o := ForkStuck;
      }
      SwitchedBy(transact, genesis, all, |old(log)|, v.index, first, second, s, chain);
    }

    lemma CoreCur()
      requires Core()
      ensures Replay(transact, Genesis(genesis), chain) == Some(cur) && log <= chain && LibAt(|chain|) <= |log|
      ensures forkDb.Valid() && forkDb.maxSize == FORK_DB_MAX_SIZE
      ensures History(transact, genesis, cur, undo, revision, log, chain) && Indexed(forkDb.index, chain, |log|)
    {
    }

    lemma CoreGrown(index: map<BlockId, Block>)
      requires forkDb.Valid() && forkDb.maxSize == FORK_DB_MAX_SIZE && Sub(index, forkDb.index)
      requires History(transact, genesis, cur, undo, revision, log, chain) && Indexed(index, chain, |log|)
      ensures Core()
    {
    }

    /** `find_block_id_for_num`: the ring of summaries, then the block log, then the fork database. */
    method FindBlockIdForNum(num: nat) returns (id: BlockId)
      requires Valid()
      ensures id == if 1 <= num <= |chain| then chain[num - 1].Id() else NULL_ID
    {
      hide History, Indexed, NoneLinkable, Replay, Linked;
      if num == 0 {
        return NULL_ID;
      }
      CoreHead();
      CoreCur();
      var slot := num % RING_SIZE;
      if slot in cur.ring && cur.ring[slot].num == num {
        RingSound(transact, genesis, chain, slot);
        return cur.ring[slot];
      }
      if num <= |log| {
        assert log[num - 1] == chain[num - 1];
        return log[num - 1].Id();
      }
      if num <= |chain| {
        HeadWalk(num - 1);
      }
      var item := forkDb.FetchOnMainBranch(num);
      return if item.Some? then item.value.Id() else NULL_ID;
    }

    lemma HeadWalk(n: nat)
      requires Valid() && |log| <= n < |chain|
      ensures exists w :: MainWalk(forkDb.Now(), n + 1, w) && w[|w| - 1] == chain[n]
    {
      hide History, NoneLinkable, Replay;
      CoreHead();
      var v, base := forkDb.Now(), chain[..|chain| - 1];
      LinkedNum(chain, |chain| - 1);
      LinkedPrefix(chain, |chain| - 1);
      if n < |base| {
        OnMainBranch(v, base, n);
      } else {
        assert MainWalk(v, n + 1, [forkDb.head.value]);
      }
    }

    lemma CoreHead()
      requires Core()
      ensures cur.headId == HeadId(chain) && HeadId(chain).num == |chain|
      ensures |log| <= |chain| && |undo| == |chain| - |log| && Linked(chain)
      ensures chain != [] ==> Holds(forkDb.index, chain[|chain| - 1])
      ensures cur.headId == NULL_ID || cur.headId in forkDb.index
    {
      ReplayHead(transact, genesis, chain);
      HeadIdNum(chain);
    }
  }

  function Ids(blocks: seq<Block>): set<BlockId> {
    set i | 0 <= i < |blocks| :: blocks[i].Id()
  }

  lemma IdsCons(blocks: seq<Block>)
    requires blocks != []
    ensures Ids(blocks) == {blocks[0].Id()} + Ids(blocks[1..])
  {
    forall id | id in Ids(blocks) ensures id in {blocks[0].Id()} + Ids(blocks[1..]) {
      var i :| 0 <= i < |blocks| && blocks[i].Id() == id;
      if i > 0 {
        assert blocks[1..][i - 1].Id() == id;
      }
    }
    forall id | id in Ids(blocks[1..]) ensures id in Ids(blocks) {
      var i :| 0 <= i < |blocks| - 1 && blocks[1..][i].Id() == id;
      assert blocks[i + 1].Id() == id;
    }
  }

  /** How a pushed block is dealt with.  The last five are exceptions in the source. */
  datatype PushOutcome =
    | Extended
    | Stayed
    | ForkSwitched
    | Cached
    | RefusedTooOld
    | BranchUnknown
    | ExtensionFailed
    | ForkRolledBack
    | ForkStuck

  datatype SwitchOutcome = Switched | RolledBack | Stuck

  /** No extension failed, and no block was too old. */
  predicate Untroubled(outcomes: seq<PushOutcome>) {
    ExtensionFailed !in outcomes && RefusedTooOld !in outcomes
  }

  /** What the fork database said to the block. */
  function StatusOf(o: PushOutcome): PushStatus {
    if o.RefusedTooOld? then TooOld else if o.Cached? then Unlinkable else Accepted
  }

  function OutcomeOf(s: SwitchOutcome): PushOutcome {
    match s
    case Switched => ForkSwitched
    case RolledBack => ForkRolledBack
    case Stuck => ForkStuck
  }

  /** The fork database with one more block waiting for its parent. */
  function Waiting(v: View, b: Block): View {
    v.(unlinked := if b.Id() in v.unlinked then v.unlinked else v.unlinked[b.Id() := b])
  }

  /** The fork database without what is numbered below `bound`. */
  function Kept(v: View, bound: int): View {
    View(v.head, NotBelow(v.index, bound), NotBelow(v.unlinked, bound))
  }

  /** The block is one of those at the end of the chain that are not yet below the log. */
  predicate Tracked(chain: seq<Block>, logged: nat, b: Block) {
    logged <= b.Num() <= |chain| && chain[b.Num() - 1] == b
  }

  /** The two ways in which a push can break the chain: a block was applied to a head it does not name, or a
      block of the chain was taken out of the fork database. */
  predicate Harmless(o: PushOutcome, headId: BlockId, chain: seq<Block>, logged: nat, b: Block) {
    (o.Extended? ==> b.previous == headId) && (o.ExtensionFailed? ==> !Tracked(chain, logged, b))
  }

  /** What a push deals with: the state, the chain, the block log and the fork database. */
  datatype Moment<S> = Moment(cur: Snapshot<S>, chain: seq<Block>, log: seq<Block>, view: View)

  /** What a push with outcome `o` leaves of the database `m`, if `pushed` is the fork database after the block
      went in.  (The chain after a stuck switch is the one that `SwitchResult` gives.) */
  ghost predicate Aftermath<S>(m: Moment<S>, pushed: View, b: Block, o: PushOutcome, m': Moment<S>) {
    match o
    case Extended =>
      && m'.chain == m.chain + [b] && |m'.log| == Max(|m.log|, LibAt(|m'.chain|))
      && m'.view == Kept(pushed, LibAt(|m'.chain|) - 1)
    case ForkSwitched =>
      && |m'.chain| > |m.chain| && pushed.head == Some(m'.chain[|m'.chain| - 1])
      && exists f :: |m.log| <= f < |m.chain| && m.chain[..f] == m'.chain[..f]
    case ForkRolledBack =>
      m'.chain == m.chain && m'.cur == m.cur && pushed.head.Some? && pushed.head.value.Id() !in m'.view.index
    case ForkStuck =>
      m'.view.head.Some? && Holds(m'.view.index, m'.view.head.value) && m'.view.head.value.previous != m'.cur.headId
    case ExtensionFailed =>
      && m' == m.(view := pushed.(index := pushed.index - {b.Id()}))
      && pushed.head.Some? && pushed.head.value.previous == m.cur.headId
    case Cached =>
      m' == m.(view := Waiting(m.view, b))
    case _ =>
      m' == m.(view := pushed)
  }

  /** The fork head is the chain's head. */
  ghost predicate Agree(chain: seq<Block>, v: View) {
    if chain == [] then v.head == None && v.index == map[] else v.head == Some(chain[|chain| - 1])
  }

  lemma PushedOnly<S>(m: Moment<S>, pushed: View, b: Block)
    ensures forall o: PushOutcome :: o.RefusedTooOld? || o.Stayed? || o.BranchUnknown? ==> Aftermath(m, pushed, b, o, m.(view := pushed))
    ensures Aftermath(m, pushed, b, Cached, m.(view := Waiting(m.view, b)))
  {
  }

  lemma PushedAftermath<S>(m: Moment<S>, pushed: View, b: Block, o: PushOutcome, m': Moment<S>)
    requires Aftermath(m.(view := pushed), pushed, b, o, m') && !o.Cached?
    ensures Aftermath(m, pushed, b, o, m')
  {
    hide Kept, Holds;
  }

  /** A push that extends the chain or leaves it alone keeps the two heads together. */
  lemma AgreeAfter<S>(m: Moment<S>, pushed: View, b: Block, o: PushOutcome, m': Moment<S>)
    requires Aftermath(m, pushed, b, o, m') && m.cur.headId == HeadId(m.chain) && HeadId(m.chain).num == |m.chain|
    requires Agree(m.chain, m.view)
    requires o.Extended? ==> && pushed.head.Some? && pushed.head.value.previous == m.cur.headId
                             && (pushed.head.value == b || pushed.head == m.view.head)
    requires o.Stayed? ==> pushed.head.Some? && pushed.head.value.Num() <= |m.chain|
    requires m.view.head.Some? && pushed.head != m.view.head ==> pushed.head.Some? && pushed.head.value.Num() > m.view.head.value.Num()
    ensures o.Extended? || o.Stayed? || o.Cached? ==> Agree(m'.chain, m'.view)
    ensures m.view.head.Some? ==> m.view.head.value.previous != m.cur.headId
  {
  }

  /** What happens to the chain once the fork database has accepted the block, as a function of the fork
      database, the chain and the state: the outcome `o` and the new chain. */
  ghost predicate Decided<S>(t: (S, Block) -> Option<S>, app: S, cur: Snapshot<S>, chain: seq<Block>, logged: nat, pushed: View,
                             b: Block, o: PushOutcome, chain': seq<Block>)
  {
    && pushed.head.Some?
    && var tip := pushed.head.value;
       if tip.previous == cur.headId then
         if Step(t, cur, b).Some? && b.Num() == |chain| + 1 then o == Extended && chain' == chain + [b]
         else o == ExtensionFailed && chain' == chain
       else if tip.Num() <= |chain| then
         o == Stayed && chain' == chain
       else
         SwitchDecided(t, app, chain, logged, pushed.index, tip, o, chain')
  }

  /** A longer branch: unknown if the two walks never meet, and otherwise dealt with as `SwitchResult` says. */
  ghost predicate SwitchDecided<S>(t: (S, Block) -> Option<S>, app: S, chain: seq<Block>, logged: nat,
                                   index: map<BlockId, Block>, tip: Block, o: PushOutcome, chain': seq<Block>)
  {
    if exists p, q :: Meet(index, tip.Id(), HeadId(chain), p, q) then
      exists p, q :: && Meet(index, tip.Id(), HeadId(chain), p, q) && MeetAtEnds(p, q)
                     && |q| <= |chain| && logged <= |chain|
                     && var r := SwitchResult(t, app, chain, logged, |chain| - |q|, Reversed(p));
                        o == OutcomeOf(r.0) && chain' == r.1
    else
      o == BranchUnknown && chain' == chain
  }

  lemma UnknownBranch<S>(t: (S, Block) -> Option<S>, app: S, chain: seq<Block>, logged: nat, index: map<BlockId, Block>, tip: Block)
    requires forall p, q :: !Meet(index, tip.Id(), HeadId(chain), p, q)
    ensures SwitchDecided(t, app, chain, logged, index, tip, BranchUnknown, chain)
  {
  }

  lemma SwitchedBy<S>(t: (S, Block) -> Option<S>, app: S, chain: seq<Block>, logged: nat, index: map<BlockId, Block>,
                      first: seq<Block>, second: seq<Block>, s: SwitchOutcome, chain': seq<Block>)
    requires first != [] && second != [] && |second| <= |chain| && logged <= |chain|
    requires Walk(index, first) && Walk(index, second) && MeetAtEnds(first, second) && second[0] == chain[|chain| - 1]
    requires (s, chain') == SwitchResult(t, app, chain, logged, |chain| - |second|, Reversed(first))
    ensures SwitchDecided(t, app, chain, logged, index, first[0], OutcomeOf(s), chain')
  {
    hide SwitchResult, Reversed, Walk;
    assert Meet(index, first[0].Id(), HeadId(chain), first, second);
  }

  lemma RemovedIndexed(index: map<BlockId, Block>, chain: seq<Block>, logged: nat, b: Block)
    requires Linked(chain) && Indexed(index, chain, logged)
    ensures Indexed(index - {b.Id()}, chain, logged) <==> !Tracked(chain, logged, b)
  {
    forall i | 0 <= i < |chain| ensures chain[i].Num() == i + 1 {
      LinkedNum(chain, i);
    }
    if Tracked(chain, logged, b) {
      assert !Holds(index - {b.Id()}, chain[b.Num() - 1]);
    }
  }

  /** The block just pushed, the fork head before that, or a block that was waiting in the cache. */
  ghost predicate Newcomer(tip: Block, b: Block, v: View) {
    tip == b || tip in v.unlinked.Values || v.head == Some(tip)
  }

  lemma SubSelf(v: View)
    ensures Sub(v.index, v.index) && Sub(v.unlinked, v.unlinked)
  {
  }

  lemma StillNoneLinkable(v: View, v': View)
    requires Sub(v'.index, v.index) && Sub(v'.unlinked, v.unlinked)
    ensures NoneLinkable(v) ==> NoneLinkable(v')
  {
  }

  /** A completed switch ends on the first block of the new branch, a failed one stopped before it. */
  lemma SwitchTip<S>(t: (S, Block) -> Option<S>, app: S, chain: seq<Block>, logged: nat, f: nat, first: seq<Block>)
    requires f <= |chain| && logged <= |chain| && first != []
    ensures var r := SwitchResult(t, app, chain, logged, f, Reversed(first));
            && (r.0 == Switched ==> |r.1| == f + |first| && r.1[..f] == chain[..f] && r.1[|r.1| - 1] == first[0] && logged <= f)
            && (r.0 == RolledBack ==> r.1 == chain && Applied(t, app, chain[..f], Reversed(first)) < |first|)
  {
    hide Applied;
  }

  lemma TipRemoved<S>(t: (S, Block) -> Option<S>, app: S, chain: seq<Block>, f: nat, first: seq<Block>, index: map<BlockId, Block>)
    requires f <= |chain| && first != []
    requires Applied(t, app, chain[..f], Reversed(first)) < |first|
    requires index.Keys !! Ids(first[..|first| - Applied(t, app, chain[..f], Reversed(first))])
    ensures first[0].Id() !in index
  {
    hide Applied;
    var gone := first[..|first| - Applied(t, app, chain[..f], Reversed(first))];
    assert gone[0].Id() in Ids(gone);
  }

  /** How many of `blocks` can be applied on top of the chain `base`. */
  ghost function Applied<S>(t: (S, Block) -> Option<S>, app: S, base: seq<Block>, blocks: seq<Block>): (n: nat)
    ensures n <= |blocks|
  {
    if blocks == [] || Replay(t, Genesis(app), base + blocks).Some? then |blocks|
    else Applied(t, app, base, blocks[..|blocks| - 1])
  }

  lemma {:induction false} AppliedIs<S>(t: (S, Block) -> Option<S>, app: S, base: seq<Block>, blocks: seq<Block>, n: nat)
    requires n <= |blocks| && Replay(t, Genesis(app), base + blocks[..n]).Some?
    requires n < |blocks| ==> Replay(t, Genesis(app), base + blocks[..n + 1]).None?
    ensures Applied(t, app, base, blocks) == n
    decreases |blocks|
  {
    if n == |blocks| {
      assert blocks[..n] == blocks;
    } else {
      assert (base + blocks)[..|base| + n + 1] == base + blocks[..n + 1];
      if Replay(t, Genesis(app), base + blocks).Some? {
        ReplayPrefix(t, Genesis(app), base + blocks, |base| + n + 1);
        assert false;
      }
      var p := blocks[..|blocks| - 1];
      assert p[..n] == blocks[..n];
      if n < |p| {
        assert p[..n + 1] == blocks[..n + 1];
      }
      AppliedIs(t, app, base, p, n);
    }
  }

  /** What a fork switch makes of the chain, as a function of what a caller can know beforehand: the
      number `f` of the fork point, how much of the chain is logged, and how many blocks of the new
      branch will apply. */
  ghost function SwitchResult<S>(t: (S, Block) -> Option<S>, app: S, chain: seq<Block>, logged: nat, f: nat,
                                 blocks: seq<Block>): (SwitchOutcome, seq<Block>)
    requires f <= |chain| && logged <= |chain|
  {
    var applied := Applied(t, app, chain[..f], blocks);
    if f < logged then (Stuck, chain[..logged])
    else if applied == |blocks| then (Switched, chain[..f] + blocks)
    else if applied <= MAX_WITNESSES then (RolledBack, chain)
    else (Stuck, (chain[..f] + blocks)[..LibAt(f + applied)])
  }

  /** A switch whose fork point is not logged and whose branch is at most one longer than the
      irreversibility window is all or nothing. */
  lemma ShortSwitch<S>(t: (S, Block) -> Option<S>, app: S, chain: seq<Block>, logged: nat, f: nat, blocks: seq<Block>)
    requires logged <= f <= |chain| && 0 < |blocks| <= MAX_WITNESSES + 1
    ensures var r := SwitchResult(t, app, chain, logged, f, blocks);
            if Replay(t, Genesis(app), chain[..f] + blocks).Some? then r == (Switched, chain[..f] + blocks)
            else r == (RolledBack, chain)
  {
  }

  /** A walk from the head of a chain follows the chain. */
  lemma {:induction false} BackOnChain(index: map<BlockId, Block>, chain: seq<Block>, walk: seq<Block>)
    requires Linked(chain) && chain != [] && walk != [] && Walk(index, walk) && walk[0] == chain[|chain| - 1]
    ensures |walk| <= |chain|
    ensures forall i :: 0 <= i < |walk| ==> walk[i] == chain[|chain| - 1 - i]
    ensures walk[|walk| - 1].previous == HeadId(chain[..|chain| - |walk|])
    decreases |walk|
  {
    var n := |walk| - 1;
    if n > 0 {
      var w := walk[..n];
      assert Walk(index, w);
      BackOnChain(index, chain, w);
      assert ChildOf(walk[n - 1], walk[n]);
      assert walk[n].Id() == HeadId(chain[..|chain| - n]);
    }
    LinkedNum(chain, |chain| - 1 - n);
  }

  /** The situation after `applied` blocks of `first` have been applied and the next one refused. */
  ghost predicate Failed(index: map<BlockId, Block>, first: seq<Block>, second: seq<Block>, applied: nat, f: nat,
                         all: seq<Block>)
  {
    && |first| > |second| > 0 && applied < |first| && |all| == f + |second|
    && Walk(index, first) && Walk(index, second) && MeetAtEnds(first, second)
    && (forall i :: 0 <= i < |second| ==> second[i] == all[|all| - 1 - i])
    && second[|second| - 1].previous == HeadId(all[..f]) && HeadId(all[..f]).num == f
  }

  lemma FailedNums(index: map<BlockId, Block>, first: seq<Block>, second: seq<Block>, applied: nat, f: nat, all: seq<Block>)
    requires Failed(index, first, second, applied, f, all)
    ensures forall i :: 0 <= i < |first| ==> first[i].Num() == f + |first| - i
    ensures forall i :: 0 <= i < |second| ==> second[i].Num() == f + |second| - i
    ensures Reversed(first)[applied] == first[|first| - 1 - applied]
  {
    WalkHeight(index, first, |first| - 1);
    WalkHeight(index, second, |second| - 1);
    forall i | 0 <= i < |first| ensures first[i].Num() == f + |first| - i {
      WalkHeight(index, first, i);
    }
    forall i | 0 <= i < |second| ensures second[i].Num() == f + |second| - i {
      WalkHeight(index, second, i);
    }
  }

  /** What was applied of the failed branch can still be walked back. */
  lemma BackKept(index0: map<BlockId, Block>, index1: map<BlockId, Block>, first: seq<Block>, second: seq<Block>,
                 applied: nat, f: nat, all: seq<Block>, stop: nat)
    requires Failed(index0, first, second, applied, f, all) && Trimmed(index0, index1, LibAt(f + applied) - 1)
    requires f <= stop <= f + applied && LibAt(f + applied) <= stop
    ensures Back(index1 - Ids(first[..|first| - applied]), Reversed(first)[applied], f + applied - stop).Some?
  {
    FailedNums(index0, first, second, applied, f, all);
    var index2, at := index1 - Ids(first[..|first| - applied]), |first| - 1 - applied;
    forall j | at < j <= at + (f + applied - stop) ensures Holds(index2, first[j]) {
      TrimmedHolds(index0, index1, LibAt(f + applied) - 1, first[j]);
      NotRemoved(first, |first| - applied, first[j]);
    }
    BackWalk(index0, index2, first, at, f + applied - stop);
  }

  lemma NotRemoved(first: seq<Block>, n: nat, b: Block)
    requires n <= |first| && forall i :: 0 <= i < n ==> first[i] != b
    ensures b.Id() !in Ids(first[..n])
  {
  }

  /** The old branch is still in the index, so it can be applied again. */
  lemma WalkKept(index0: map<BlockId, Block>, index1: map<BlockId, Block>, first: seq<Block>, second: seq<Block>,
                 applied: nat, f: nat, all: seq<Block>)
    requires Failed(index0, first, second, applied, f, all) && Trimmed(index0, index1, LibAt(f + applied) - 1)
    requires LibAt(f + applied) <= f && (applied == 0 ==> first[|first| - 1] != second[|second| - 1])
    ensures Walk(index1 - Ids(first[..|first| - applied]), second)
  {
    FailedNums(index0, first, second, applied, f, all);
    BranchShape(index0, first, second);
    var index2 := index1 - Ids(first[..|first| - applied]);
    forall j | 0 <= j < |second| ensures Holds(index2, second[j]) {
      TrimmedHolds(index0, index1, LibAt(f + applied) - 1, second[j]);
      NotRemoved(first, |first| - applied, second[j]);
    }
  }

  lemma PoppedChain(all: seq<Block>, f: nat, blocks: seq<Block>, applied: nat, logged: nat)
    requires f <= |all| && applied <= |blocks| && logged <= f + applied
    ensures (all[..f] + blocks[..applied])[..f] == all[..f]
    ensures (all[..f] + blocks[..applied])[..logged] == (all[..f] + blocks)[..logged]
  {
  }

  lemma ReversedIsEnd(second: seq<Block>, all: seq<Block>, f: nat, n: nat)
    requires |all| == f + |second| && n <= |second|
    requires forall i :: 0 <= i < |second| ==> second[i] == all[|all| - 1 - i]
    ensures all[..f] + Reversed(second)[..n] == all[..f + n]
    ensures n < |second| ==> Reversed(second)[n] == all[f + n]
  {
  }

  /** With nothing linkable in the cache, a head that starts to build on the chain's head is the pushed block. */
  lemma ExtendingHead(v: View, v': View, maxSize: nat, b: Block, headId: BlockId)
    requires Keyed(v.index) && Keyed(v.unlinked) && Keyed(v'.index) && NoneLinkable(v)
    requires PushEffect(v, v', maxSize, b, Accepted)
    requires headId == NULL_ID || headId in v.index
    ensures v'.head.Some? && (v'.head.value.previous == headId ==> v'.head.value == b || v'.head == v.head)
  {
    assert HeadRises(Inserted(v, b), v');
  }

  /** How the fork head moves when a block is pushed, seen from a chain with the head `headId`. */
  ghost predicate Entered(v: View, v': View, b: Block, status: PushStatus, headId: BlockId) {
    && (v'.head.Some? ==> Newcomer(v'.head.value, b, v))
    && (v.head.Some? && v'.head != v.head ==> v'.head.Some? && v'.head.value.Num() > v.head.value.Num())
    && (status == Accepted ==> v'.head.Some?)
    && (status == Accepted && NoneLinkable(v) && v'.head.value.previous == headId ==> v'.head.value == b || v'.head == v.head)
    && (b.previous == headId && Childless(v, b.Id())
        && (v.head.Some? ==> v.head.value.Num() <= headId.num || v.head.value.previous == headId) ==>
        status == Accepted && v'.head.value.previous == headId)
  }

  lemma EnteredHead(v: View, v': View, b: Block, status: PushStatus, headId: BlockId)
    requires Entered(v, v', b, status, headId)
    ensures v'.head.Some? ==> Newcomer(v'.head.value, b, v)
    ensures v.head.Some? && v'.head != v.head ==> v'.head.Some? && v'.head.value.Num() > v.head.value.Num()
    ensures status == Accepted ==> v'.head.Some?
    ensures status == Accepted && NoneLinkable(v) && v'.head.value.previous == headId ==> v'.head.value == b || v'.head == v.head
    ensures b.previous == headId && Childless(v, b.Id())
              && (v.head.Some? ==> v.head.value.Num() <= headId.num || v.head.value.previous == headId) ==>
              status == Accepted && v'.head.value.previous == headId
  {
  }

  lemma NotTracked(chain: seq<Block>, logged: nat, b: Block)
    ensures b.Num() > |chain| ==> !Tracked(chain, logged, b)
  {
  }

  /** What a push leaves of the fork database. */
  lemma PushedView(v: View, v': View, b: Block, status: PushStatus, headId: BlockId)
    requires Keyed(v.index) && Keyed(v.unlinked) && Keyed(v'.index) && (headId == NULL_ID || headId in v.index)
    requires status != Unlinkable ==> PushEffect(v, v', FORK_DB_MAX_SIZE, b, status)
    requires status == Unlinkable ==> && NotLinking(v, b) && PushEffect(v, v, FORK_DB_MAX_SIZE, b, Unlinkable)
                                      && v' == Waiting(v, b)
    ensures Sub(v.index, v'.index)
    ensures NoneLinkable(v) && (status == TooOld ==> TooOldFor(v, FORK_DB_MAX_SIZE, b)) ==> NoneLinkable(v')
    ensures v'.head == v.head || (v'.head.Some? && Holds(v'.index, v'.head.value))
    ensures v.head.Some? && Holds(v.index, v.head.value) ==> Holds(v'.index, v.head.value)
    ensures status == Accepted ==> v'.head.Some? && Holds(v'.index, b)
    ensures Entered(v, if status == Unlinkable then v else v', b, status, headId)
  {
    if status != Unlinkable {
      PushKeeps(v, v', FORK_DB_MAX_SIZE, b, status);
      PushedHead(v, v', FORK_DB_MAX_SIZE, b, status);
    }
    if status == Accepted && NoneLinkable(v) {
      ExtendingHead(v, v', FORK_DB_MAX_SIZE, b, headId);
    }
  }

  lemma BranchFacts(index: map<BlockId, Block>, newHead: Block, chain: seq<Block>, first: seq<Block>, second: seq<Block>)
    requires Keyed(index) && Holds(index, newHead) && Linked(chain) && newHead.Num() > HeadId(chain).num == |chain|
    requires Meet(index, newHead.Id(), HeadId(chain), first, second) && MeetAtEnds(first, second)
    ensures |first| > |second| > 0 && first[0] == newHead
    ensures chain != [] && second[0] == chain[|chain| - 1]
  {
    WalkHeight(index, first, |first| - 1);
    WalkHeight(index, second, |second| - 1);
  }

  lemma {:induction false} BackWalk(index0: map<BlockId, Block>, index: map<BlockId, Block>, walk: seq<Block>, i: nat, n: nat)
    requires Walk(index0, walk) && i + n < |walk|
    requires forall j :: i < j <= i + n ==> Holds(index, walk[j])
    ensures Back(index, walk[i], n) == Some(walk[i + n])
    decreases n
  {
    if n > 0 {
      assert ChildOf(walk[i], walk[i + 1]) && Holds(index, walk[i + 1]);
      BackWalk(index0, index, walk, i + 1, n - 1);
    }
  }

  /** `index'` is `index` without some blocks numbered below `bound`. */
  ghost predicate Trimmed(index: map<BlockId, Block>, index': map<BlockId, Block>, bound: int) {
    && Sub(index', index)
    && forall id :: id in index && index[id].Num() >= bound ==> id in index'
  }

  lemma TrimmedHolds(index: map<BlockId, Block>, index': map<BlockId, Block>, bound: int, b: Block)
    requires Trimmed(index, index', bound) && Holds(index, b) && b.Num() >= bound
    ensures Holds(index', b)
  {
  }

  lemma TrimmedMore(index: map<BlockId, Block>, index1: map<BlockId, Block>, index2: map<BlockId, Block>, a: int, b: int)
    requires Trimmed(index, index1, a) && Trimmed(index1, index2, b) && a <= b
    ensures Trimmed(index, index2, b)
  {
  }

  /** The next block of a branch, oldest first, extends the chain by one. */
  lemma ReversedStep(index: map<BlockId, Block>, branch: seq<Block>, n: nat, chain: seq<Block>)
    requires branch != [] && Walk(index, branch) && n < |branch|
    requires branch[|branch| - 1].previous == HeadId(chain) && HeadId(chain).num == |chain|
    ensures Reversed(branch)[n] == branch[|branch| - 1 - n]
    ensures Reversed(branch)[n].previous == HeadId(chain + Reversed(branch)[..n])
    ensures Reversed(branch)[n].Num() == |chain| + n + 1
    ensures chain + Reversed(branch)[..n + 1] == chain + Reversed(branch)[..n] + [Reversed(branch)[n]]
    ensures Holds(index, Reversed(branch)[n])
  {
    var r := Reversed(branch);
    WalkHeight(index, branch, |branch| - 1 - n);
    WalkHeight(index, branch, |branch| - 1);
    if n > 0 {
      assert ChildOf(branch[|branch| - 1 - n], branch[|branch| - n]);
      assert (chain + r[..n])[|chain| + n - 1] == r[n - 1];
    } else {
      assert chain + r[..0] == chain;
    }
  }

  lemma PrefixHead(chain: seq<Block>, f: nat)
    requires Linked(chain) && f <= |chain|
    ensures HeadId(chain[..f]).num == f && chain[..|chain|] == chain
  {
    LinkedPrefix(chain, f);
    HeadIdNum(chain[..f]);
  }

  /** The block `n` indexed parents behind `b`. */
  function Back(index: map<BlockId, Block>, b: Block, n: nat): Option<Block>
    decreases n
  {
    if n == 0 then Some(b)
    else if b.previous in index then Back(index, index[b.previous], n - 1)
    else None
  }

  lemma BackFirst(index: map<BlockId, Block>, b: Block, n: nat)
    requires Back(index, b, n).Some? && n > 0
    ensures b.previous in index
  {
  }

  /** The transactions of the blocks from index `i` on, in chain order, in front of `rest`. */
  function Returned(blocks: seq<Block>, i: nat, rest: seq<nat>): seq<nat>
    decreases |blocks| - i
  {
    if i >= |blocks| then rest else blocks[i].transactions + Returned(blocks, i + 1, rest)
  }
}
