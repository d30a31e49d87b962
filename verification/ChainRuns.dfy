/** Three short runs of the chain database, from an empty one, that end in trouble.

    Each is a sequence of pushes, so that the states the chain database can get into are shown to be
    reachable: a switch that loses the old chain, a block applied to a head it does not name, and the
    chain's own head taken out of the fork database. */
module ChainRuns {
  import opened Blocks
  import opened Collections
  import opened ForkDatabases
  import opened ChainDatabases

  /** A state transition that refuses blocks with timestamp zero. */
  function Picky(s: int, b: Block): Option<int> {
    if b.timestamp == 0 then None else Some(s)
  }

  /** `n` linked blocks that `Picky` accepts. */
  function Line(n: nat): (r: seq<Block>)
    ensures |r| == n
  {
    if n == 0 then [] else Line(n - 1) + [Block(HeadId(Line(n - 1)), 1, [])]
  }

  /** Eleven good blocks and a bad one. */
  function BadBranch(): (r: seq<Block>)
    ensures |r| == 12
  {
    Line(11) + [Block(HeadId(Line(11)), 0, [])]
  }

  lemma {:induction false} LineReplays(n: nat)
    ensures Linked(Line(n)) && Replay(Picky, Genesis(0), Line(n)).Some?
    ensures n > 0 ==> Line(n)[0].timestamp == 1
  {
    hide HeadId;
    if n > 0 {
      LineReplays(n - 1);
      var b := Block(HeadId(Line(n - 1)), 1, []);
      ReplaySnoc(Picky, Genesis(0), Line(n - 1), b);
      LinkedSnoc(Line(n - 1), b);
    }
  }

  /** A branch of one block more than the window for `ShortSwitch` is too long: when its twelfth block is
      refused, the rollback stops on the new branch and the old chain is gone. */
  lemma LongSwitchLosesChain()
    ensures var chain := [Block(NULL_ID, 2, [])];
            SwitchResult(Picky, 0, chain, 0, 0, BadBranch()) == (Stuck, [BadBranch()[0]])
    ensures Linked(BadBranch()) && BadBranch()[0].timestamp == 1
  {
    hide Line, Replay, Applied, Linked;
    var chain, bad := [Block(NULL_ID, 2, [])], Block(HeadId(Line(11)), 0, []);
    var blocks := BadBranch();
    LineReplays(11);
    LinkedSnoc(Line(11), bad);
    ReplaySnoc(Picky, Genesis(0), Line(11), bad);
    assert chain[..0] + blocks[..11] == Line(11) && chain[..0] + blocks[..12] == blocks;
    AppliedIs(Picky, 0, chain[..0], blocks, 11);
    assert (chain[..0] + blocks)[..1] == [blocks[0]];
  }

  /** A database with one block. */
  method Started(first: Block) returns (db: Database<int>)
    requires first.previous == NULL_ID && first.timestamp != 0
    ensures fresh(db) && fresh(db.forkDb) && db.transact == Picky && db.genesis == 0
    ensures db.Valid() && db.chain == [first] && db.log == []
    ensures db.forkDb.Now() == View(Some(first), map[first.Id() := first], map[])
  {
    hide History, Indexed, Replay, PushEffect, Decided, SwitchDecided;
    db := new Database(Picky, 0);
    ghost var v := db.forkDb.Now();
    var o, pushed := db.PushBlock(first);
    ChildlessPush(v, pushed, first, StatusOf(o));
    assert o == Extended;
    assert Kept(pushed, -1) == pushed;
  }

  lemma ChildlessPush(v: View, pushed: View, b: Block, status: PushStatus)
    requires PushEffect(v, pushed, FORK_DB_MAX_SIZE, b, status) && v.unlinked == map[]
    requires !TooOldFor(v, FORK_DB_MAX_SIZE, b) && !NotLinking(v, b)
    ensures status == Accepted && pushed == Inserted(v, b)
  {
  }

  /** Only `a` is linked, and the blocks of `branch` from index `i` on are waiting. */
  ghost predicate Caches(v: View, a: Block, branch: seq<Block>, i: nat) {
    && i <= |branch| && v.head == Some(a) && v.index == map[a.Id() := a]
    && (forall j :: i <= j < |branch| ==> Holds(v.unlinked, branch[j]))
    && forall id :: id in v.unlinked ==> v.unlinked[id] in branch[i..] && v.unlinked[id].Id() == id
  }

  lemma CacheStep(v: View, a: Block, branch: seq<Block>, i: nat)
    requires Caches(v, a, branch, i) && Linked(branch) && i > 1 && a.previous == NULL_ID && branch[0] != a
    ensures !TooOldFor(v, FORK_DB_MAX_SIZE, branch[i - 1]) && NotLinking(v, branch[i - 1])
    ensures Caches(Waiting(v, branch[i - 1]), a, branch, i - 1)
  {
    hide Linked;
    LinkedNum(branch, i - 1);
    LinkedNum(branch, i - 2);
    assert branch[..i - 1][i - 2] == branch[i - 2];
    assert i == 2 ==> branch[i - 2] == branch[0];
    MoreCached(v, a, branch, i);
  }

  lemma MoreCached(v: View, a: Block, branch: seq<Block>, i: nat)
    requires Caches(v, a, branch, i) && i > 0
    ensures Caches(Waiting(v, branch[i - 1]), a, branch, i - 1)
  {
    var b := branch[i - 1];
    var v' := Waiting(v, b);
    assert branch[i - 1..] == [b] + branch[i..];
    forall j | i - 1 <= j < |branch| ensures Holds(v'.unlinked, branch[j]) {
      if j >= i {
        assert Holds(v.unlinked, branch[j]);
      }
    }
  }

  /** The blocks of a branch, the newest first and the oldest not at all: they all wait. */
  method CacheAll(db: Database<int>, a: Block, branch: seq<Block>)
    requires db.Valid() && db.chain == [a] && db.log == [] && Linked(branch) && |branch| > 0
    requires Caches(db.forkDb.Now(), a, branch, |branch|) && a.previous == NULL_ID && branch[0] != a
    modifies db, db.forkDb
    ensures db.Valid() && db.chain == [a] && db.log == [] && Caches(db.forkDb.Now(), a, branch, 1)
  {
    hide History, Indexed, Replay, Decided, SwitchDecided, Linked, Caches, NoneLinkable;
    var i := |branch|;
    while i > 1
      invariant 1 <= i <= |branch| && db.Valid() && db.chain == [a] && db.log == []
      invariant Caches(db.forkDb.Now(), a, branch, i)
    {
      CacheStep(db.forkDb.Now(), a, branch, i);
      var o, _ := db.PushBlock(branch[i - 1]);
      assert o == Cached;
      i := i - 1;
    }
  }

  /** When the oldest block arrives, the whole branch is linked and its last block becomes the fork head. */
  lemma {:induction false} AllLinked(v: View, pushed: View, a: Block, branch: seq<Block>, i: nat)
    requires Linked(branch) && Caches(v, a, branch, 1) && i < |branch|
    requires PushEffect(v, pushed, FORK_DB_MAX_SIZE, branch[0], Accepted)
    requires !TooOldFor(v, FORK_DB_MAX_SIZE, branch[0]) && !NotLinking(v, branch[0]) && a.previous == NULL_ID
    ensures Holds(pushed.index, branch[i])
  {
    var v1, b := Inserted(v, branch[0]), branch[i];
    if i > 0 {
      AllLinked(v, pushed, a, branch, i - 1);
      assert ChildOf(b, branch[i - 1]) && Holds(v.unlinked, b);
      LinkedNum(branch, i);
      LinkedNum(branch, i - 1);
      LinkedNum(branch, 0);
      if b.Id() in pushed.unlinked {
        assert false; // its parent is linked, so it would not still be waiting
      }
      assert NewlyIndexed(v1, pushed, b.Id());
    }
  }

  lemma Unblocked(v: View, pushed: View, a: Block, branch: seq<Block>, status: PushStatus)
    requires Linked(branch) && 1 < |branch| <= FORK_DB_MAX_SIZE && Caches(v, a, branch, 1) && a.previous == NULL_ID
    requires PushEffect(v, pushed, FORK_DB_MAX_SIZE, branch[0], status)
    ensures status == Accepted && pushed.head == Some(branch[|branch| - 1]) && Holds(pushed.index, a) && NULL_ID !in pushed.index
    ensures forall i :: 0 <= i < |branch| ==> Holds(pushed.index, branch[i])
  {
    forall i | 0 <= i < |branch| ensures branch[i].Num() == i + 1 && (i == 0 ==> branch[i].previous == NULL_ID) {
      LinkedNum(branch, i);
    }
    hide Linked;
    TipAfter(v, pushed, a, branch, status);
    hide PushEffect, Caches, Holds;
    forall i | 0 <= i < |branch| ensures Holds(pushed.index, branch[i]) {
      AllLinked(v, pushed, a, branch, i);
    }
    TopHead(pushed, branch);
  }

  lemma TopHead(pushed: View, branch: seq<Block>)
    requires branch != [] && HeadHighest(pushed) && Holds(pushed.index, branch[|branch| - 1])
    requires forall i :: 0 <= i < |branch| ==> branch[i].Num() == i + 1
    requires pushed.head.value.Num() == 1 || pushed.head.value in branch
    ensures |branch| > 1 ==> pushed.head == Some(branch[|branch| - 1])
  {
  }

  lemma TipAfter(v: View, pushed: View, a: Block, branch: seq<Block>, status: PushStatus)
    requires branch != [] && |branch| <= FORK_DB_MAX_SIZE && Caches(v, a, branch, 1) && a.previous == NULL_ID == branch[0].previous
    requires forall i :: 0 <= i < |branch| ==> branch[i].Num() == i + 1
    requires PushEffect(v, pushed, FORK_DB_MAX_SIZE, branch[0], status)
    ensures !TooOldFor(v, FORK_DB_MAX_SIZE, branch[0]) && !NotLinking(v, branch[0])
    ensures status == Accepted && HeadHighest(pushed) && Holds(pushed.index, a) && NULL_ID !in pushed.index
    ensures pushed.head.value.Num() == 1 || pushed.head.value in branch
  {
    EffectIs(v, pushed, branch[0], status);
    PushKeeps(v, pushed, FORK_DB_MAX_SIZE, branch[0], status);
    hide PushEffect, Cascade;
    CascadeHead(v, pushed, a, branch);
    CascadeIndex(v, pushed, a, branch);
  }

  lemma CascadeHead(v: View, pushed: View, a: Block, branch: seq<Block>)
    requires branch != [] && Caches(v, a, branch, 1) && a.Num() == 1 && Cascade(Inserted(v, branch[0]), pushed, branch[0].Id())
    ensures pushed.head.Some? && (pushed.head.value.Num() == 1 || pushed.head.value in branch)
  {
    assert HeadRises(Inserted(v, branch[0]), pushed);
    assert forall b :: b in branch[1..] ==> b in branch;
  }

  lemma CascadeIndex(v: View, pushed: View, a: Block, branch: seq<Block>)
    requires branch != [] && Caches(v, a, branch, 1) && Cascade(Inserted(v, branch[0]), pushed, branch[0].Id())
    ensures Holds(pushed.index, a) && NULL_ID !in pushed.index
  {
    hide HeadRises;
    assert NULL_ID in pushed.index ==> NewlyIndexed(Inserted(v, branch[0]), pushed, NULL_ID);
  }

  lemma EffectIs(v: View, pushed: View, b: Block, status: PushStatus)
    requires PushEffect(v, pushed, FORK_DB_MAX_SIZE, b, status)
    ensures !TooOldFor(v, FORK_DB_MAX_SIZE, b) && !NotLinking(v, b) ==>
              && status != Unlinkable && Cascade(Inserted(v, b), pushed, b.Id())
              && (status == TooOld ==> pushed.head.Some? && pushed.head.value.Num() > FORK_DB_MAX_SIZE)
  {
    hide Cascade, Settled, Conserved, Childless;
  }

  /** Where the two branches start and meet. */
  lemma OnlyMeeting(index: map<BlockId, Block>, a: Block, branch: seq<Block>, p: seq<Block>, q: seq<Block>)
    requires Linked(branch) && branch != [] && a.previous == NULL_ID
    requires NULL_ID !in index && Holds(index, a) && forall i :: 0 <= i < |branch| ==> Holds(index, branch[i])
    ensures Meet(index, branch[|branch| - 1].Id(), a.Id(), Reversed(branch), [a])
    ensures Meet(index, branch[|branch| - 1].Id(), a.Id(), p, q) ==> q == [a] && Reversed(p) == branch
  {
    assert branch[0..] == branch;
    ChainWalk(index, branch, 0);
    if Meet(index, branch[|branch| - 1].Id(), a.Id(), p, q) {
      SameStart(index, q, [a]);
      WalkLongest(index, [a], q);
      SameStart(index, p, Reversed(branch));
      BackOnChain(index, branch, p);
      LinkedNum(branch, |branch| - |p|);
      assert Reversed(p) == branch;
    }
  }

  /** Twelve blocks that arrive newest first make the chain database lose its chain: the rollback of the
      switch stops on the other branch. */
  method LongSwitchReached() returns (db: Database<int>, o: PushOutcome)
    ensures fresh(db) && fresh(db.forkDb) && db.Sound()
    ensures o == ForkStuck && db.chain == [BadBranch()[0]] != [Block(NULL_ID, 2, [])]
  {
    hide History, Indexed, Replay, PushEffect, Decided, SwitchDecided, Linked, NoneLinkable, Line, BadBranch, Caches;
    var a, branch := Block(NULL_ID, 2, []), BadBranch();
    LongSwitchLosesChain();
    db := Started(a);
    NoneCached(db.forkDb.Now(), a, branch);
    CacheAll(db, a, branch);
    ghost var v, cur := db.forkDb.Now(), db.cur;
    db.CoreHead();
    ghost var pushed;
    o, pushed := db.PushBlock(branch[0]);
    Unblocked(v, pushed, a, branch, StatusOf(o));
    StuckThere(cur, pushed, a, branch, o, db.chain);
  }

  lemma NoneCached(v: View, a: Block, branch: seq<Block>)
    requires v == View(Some(a), map[a.Id() := a], map[])
    ensures Caches(v, a, branch, |branch|)
  {
  }

  lemma StuckThere(cur: Snapshot<int>, pushed: View, a: Block, branch: seq<Block>, o: PushOutcome, chain: seq<Block>)
    requires a == Block(NULL_ID, 2, []) && branch == BadBranch() && cur.headId == a.Id()
    requires pushed.head == Some(branch[11]) && Holds(pushed.index, a) && NULL_ID !in pushed.index
    requires forall i :: 0 <= i < |branch| ==> Holds(pushed.index, branch[i])
    requires Decided(Picky, 0, cur, [a], 0, pushed, branch[0], o, chain)
    ensures o == ForkStuck && chain == [branch[0]]
  {
    hide Line, BadBranch, Linked, SwitchResult, Walk, Meet, MeetAtEnds, Holds;
    LongSwitchLosesChain();
    LinkedNum(branch, 11);
    OnlyMeeting(pushed.index, a, branch, [], []);
    assert SwitchDecided(Picky, 0, [a], 0, pushed.index, branch[11], o, chain) && HeadId([a]) == a.Id();
    var p, q :| && Meet(pushed.index, branch[11].Id(), a.Id(), p, q) && |q| <= 1
                && var r := SwitchResult(Picky, 0, [a], 0, 1 - |q|, Reversed(p));
                   o == OutcomeOf(r.0) && chain == r.1;
    OnlyMeeting(pushed.index, a, branch, p, q);
    var r := SwitchResult(Picky, 0, [a], 0, 1 - |q|, Reversed(p));
    assert o == OutcomeOf(r.0) && chain == r.1;
    assert |q| == 1 && Reversed(p) == branch;
    assert r == (Stuck, [branch[0]]);
  }

  /** A block that is refused although it builds on the chain's head leaves the fork head behind. */
  method Refuse(db: Database<int>, bad: Block)
    requires db.Sound() && db.HeadLow() && db.transact == Picky && bad.timestamp == 0 && bad.previous == db.cur.headId
    requires db.forkDb.unlinked == map[] && db.chain != []
    modifies db, db.forkDb
    ensures db.Sound() && db.Dangling() && db.chain == old(db.chain) && db.cur == old(db.cur) && db.log == old(db.log)
    ensures db.forkDb.Now() == View(Some(bad), old(db.forkDb.index) - {bad.Id()}, map[])
  {
    hide History, Indexed, Replay, PushEffect, Decided, SwitchDecided, NoneLinkable;
    db.CoreHead();
    ghost var v := db.forkDb.Now();
    var o, pushed := db.PushBlock(bad);
    assert o == ExtensionFailed;
    ChildlessPush(v, pushed, bad, Accepted);
    assert Inserted(v, bad).index - {bad.Id()} == v.index - {bad.Id()};
  }

  /** After a failed extension, a block that builds on a competitor of the chain's head is applied to the
      chain's head all the same: the chain is no longer linked. */
  method MisappliedReached() returns (db: Database<int>, o: PushOutcome)
    ensures fresh(db) && fresh(db.forkDb) && !db.Sound()
    ensures o == Extended && |db.chain| == 2 && db.chain[1].previous != db.chain[0].Id() && !Linked(db.chain)
  {
    hide History, Indexed, Replay, PushEffect, SwitchDecided, NoneLinkable;
    var a, rival := Block(NULL_ID, 1, []), Block(NULL_ID, 2, []);
    var bad, next := Block(a.Id(), 0, []), Block(rival.Id(), 1, []);
    db := Started(a);
    db.CoreHead();
    ghost var v := db.forkDb.Now();
    ghost var pushed;
    o, pushed := db.PushBlock(rival);
    ChildlessPush(v, pushed, rival, StatusOf(o));
    assert o == Stayed;
    Refuse(db, bad);
    v := db.forkDb.Now();
    o, pushed := db.PushBlock(next);
    ChildlessPush(v, pushed, next, StatusOf(o));
    NotLinkedSnoc([a], next);
  }

  /** After a failed extension, pushing the chain's head again takes it out of the fork database. */
  method OrphanedReached() returns (db: Database<int>, o: PushOutcome)
    ensures fresh(db) && fresh(db.forkDb) && !db.Sound()
    ensures o == ExtensionFailed && |db.chain| == 1 && db.chain[0].Id() !in db.forkDb.index
  {
    hide History, Indexed, Replay, PushEffect, SwitchDecided, NoneLinkable;
    var a := Block(NULL_ID, 1, []);
    db := Started(a);
    db.CoreHead();
    Refuse(db, Block(a.Id(), 0, []));
    ghost var v := db.forkDb.Now();
    ghost var pushed;
    o, pushed := db.PushBlock(a);
    ChildlessPush(v, pushed, a, StatusOf(o));
  }
}
