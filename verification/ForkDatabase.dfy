/** The fork database: a tree of linked blocks, a cache of blocks that do not link yet, and a head.

    An item's parent pointer is a weak reference that is live exactly while the parent is indexed, so
    it is modelled as a lookup of the parent's id in the index. */
module ForkDatabases {
  import opened Blocks
  import opened Collections

  const FORK_DB_MAX_SIZE: nat := 1024

  datatype PushStatus = Accepted | Unlinkable | TooOld

  /** The mutable part of the fork database, as a value. */
  datatype View = View(head: Option<Block>, index: map<BlockId, Block>, unlinked: map<BlockId, Block>)

  ghost predicate Keyed(m: map<BlockId, Block>) {
    forall id :: id in m ==> m[id].Id() == id
  }

  ghost predicate Sub(m: map<BlockId, Block>, m': map<BlockId, Block>) {
    forall id :: id in m ==> id in m' && m'[id] == m[id]
  }

  /** What inserting `b` does before any cached descendant is looked at. */
  function Inserted(v: View, b: Block): View {
    View(if v.head.None? || b.Num() > v.head.value.Num() then Some(b) else v.head,
         if b.Id() in v.index then v.index else v.index[b.Id() := b],
         v.unlinked)
  }

  function Uncached(v: View, id: BlockId): View {
    v.(unlinked := map i | i in v.unlinked && i != id :: v.unlinked[i])
  }

  /** `id` named a cached block of `v` that has left the cache in `v'`. */
  ghost predicate Consumed(v: View, v': View, id: BlockId) {
    id in v.unlinked && id !in v'.unlinked
  }

  ghost predicate NewlyIndexed(v: View, v': View, id: BlockId) {
    id in v'.index && id !in v.index
  }

  /** `id` entered the index from the cache, below the head and with its parent indexed. */
  ghost predicate LinkedFromCache(v: View, v': View, root: BlockId, id: BlockId) {
    && id in v'.index && v'.head.Some?
    && Consumed(v, v', id) && v'.index[id] == v.unlinked[id]
    && (v'.index[id].previous == root || Consumed(v, v', v'.index[id].previous))
    && v'.index[id].previous in v'.index
    && v'.index[id].Num() <= v'.head.value.Num()
  }

  /** The head is where it was, or has moved up to a block that came from the cache. */
  ghost predicate HeadRises(v: View, v': View) {
    && v.head.Some? && v'.head.Some?
    && (v'.head == v.head ||
        (&& v'.head.value.Num() > v.head.value.Num()
         && v'.head.value.Id() in v'.index
         && Consumed(v, v', v'.head.value.Id()) && v.unlinked[v'.head.value.Id()] == v'.head.value
         && v'.head.value.previous in v'.index))
  }

  /** `v'` is `v` after linking some cached descendants of `root`: the index only grows, by blocks
      taken out of the cache whose parent is `root` or was itself taken out of the cache, and the head
      only moves up, to such a block. */
  ghost predicate Cascade(v: View, v': View, root: BlockId) {
    && HeadRises(v, v')
    && Sub(v.index, v'.index)
    && Sub(v'.unlinked, v.unlinked)
    && forall id :: NewlyIndexed(v, v', id) ==> LinkedFromCache(v, v', root, id)
  }

  /** No block left in the cache waits for `root` or for a block linked on the way from `v` to `v'`. */
  ghost predicate Settled(v: View, v': View, root: BlockId) {
    forall id :: id in v'.unlinked ==>
      v'.unlinked[id].previous != root && !NewlyIndexed(v, v', v'.unlinked[id].previous)
  }

  /** Every cached block is still cached or has been linked. */
  ghost predicate Conserved(v: View, v': View) {
    forall id :: id in v.unlinked ==> id in v'.unlinked || id in v'.index
  }

  /** What the loop that links the cached children of `root` keeps true. */
  ghost predicate Linking(v: View, v': View, root: BlockId) {
    && Cascade(v, v', root)
    && Conserved(v, v')
    && forall id :: id in v'.unlinked ==> !NewlyIndexed(v, v', v'.unlinked[id].previous)
  }

  lemma LinkingStart(v: View, root: BlockId)
    requires v.head.Some?
    ensures Linking(v, v, root)
  {
  }

  lemma LinkingEnd(v: View, v': View, root: BlockId)
    requires Linking(v, v', root) && forall i :: i in v'.unlinked ==> v'.unlinked[i].previous != root
    ensures Cascade(v, v', root) && Settled(v, v', root) && Conserved(v, v')
  {
  }

  /** No cached block could be linked right now. */
  ghost predicate NoneLinkable(v: View) {
    forall id :: id in v.unlinked ==> v.unlinked[id].previous !in v.index
  }

  /** No indexed block is higher than the head. */
  ghost predicate HeadHighest(v: View) {
    v.head.Some? && forall id :: id in v.index ==> v.index[id].Num() <= v.head.value.Num()
  }

  predicate TooOldFor(v: View, maxSize: nat, b: Block) {
    v.head.Some? && b.Num() <= (if v.head.value.Num() > maxSize then v.head.value.Num() - maxSize else 0)
  }

  predicate NotLinking(v: View, b: Block) {
    v.head.Some? && b.previous != NULL_ID && b.previous !in v.index
  }

  /** No cached block waits for `id`. */
  ghost predicate Childless(v: View, id: BlockId) {
    forall i :: i in v.unlinked ==> v.unlinked[i].previous != id
  }

  /** One more cached child `id` of `root`, with its own cascade, extends a cascade. */
  lemma CascadeStep(v: View, v1: View, v3: View, root: BlockId, id: BlockId)
    requires Keyed(v1.unlinked)
    requires root in v.index
    requires Cascade(v, v1, root)
    requires id in v1.unlinked && v1.unlinked[id].previous == root
    requires Cascade(Inserted(Uncached(v1, id), v1.unlinked[id]), v3, id)
    ensures Cascade(v, v3, root)
  {
    var v2 := Inserted(Uncached(v1, id), v1.unlinked[id]);
    assert Sub(v.index, v3.index) && Sub(v3.unlinked, v.unlinked);
    assert HeadRises(v, v3);
    forall i | NewlyIndexed(v, v3, i)
      ensures LinkedFromCache(v, v3, root, i)
    {
      if i in v1.index {
        assert NewlyIndexed(v, v1, i);
      } else if i == id {
        assert v2.index[i] == v1.unlinked[id];
      } else {
        assert NewlyIndexed(v2, v3, i);
      }
    }
  }

  lemma SettledStep(v: View, v1: View, v3: View, root: BlockId, id: BlockId)
    requires Keyed(v1.unlinked)
    requires Linking(v, v1, root)
    requires id in v1.unlinked
    requires Cascade(v, v3, root)
    requires var v2 := Inserted(Uncached(v1, id), v1.unlinked[id]);
             Cascade(v2, v3, id) && Settled(v2, v3, id) && Conserved(Uncached(v1, id), v3)
    ensures Linking(v, v3, root)
  {
  }

  /** What `_push_block` promises of the views around it. */
  ghost predicate PushEffect(v: View, v': View, maxSize: nat, b: Block, status: PushStatus) {
    if TooOldFor(v, maxSize, b) then
      status == TooOld && v' == v
    else if NotLinking(v, b) then
      status == Unlinkable && v' == v
    else
      && status != Unlinkable
      && Cascade(Inserted(v, b), v', b.Id())
      && (status == Accepted ==> Settled(Inserted(v, b), v', b.Id()) && Conserved(v, v'))
      && (status == TooOld ==> v'.head.Some? && v'.head.value.Num() > maxSize && |v'.unlinked| < |v.unlinked|)
      && (Childless(v, b.Id()) ==> status == Accepted && v' == Inserted(v, b))
  }

  lemma RefusedPush(v: View, maxSize: nat, b: Block)
    ensures TooOldFor(v, maxSize, b) ==> PushEffect(v, v, maxSize, b, TooOld)
    ensures !TooOldFor(v, maxSize, b) && NotLinking(v, b) ==> PushEffect(v, v, maxSize, b, Unlinkable)
  {
  }

  lemma LinkedPush(v: View, v': View, maxSize: nat, b: Block, status: PushStatus)
    requires !TooOldFor(v, maxSize, b) && !NotLinking(v, b) && status != Unlinkable
    requires Cascade(Inserted(v, b), v', b.Id())
    requires status == Accepted ==> Settled(Inserted(v, b), v', b.Id()) && Conserved(Inserted(v, b), v')
    requires status == TooOld ==> v'.head.Some? && v'.head.value.Num() > maxSize && |v'.unlinked| < |v.unlinked|
    requires Childless(Inserted(v, b), b.Id()) ==> status == Accepted && v' == Inserted(v, b)
    ensures PushEffect(v, v', maxSize, b, status) && (Childless(v, b.Id()) ==> status == Accepted)
  {
    hide Cascade, Settled;
  }

  /** A push is refused without a trace if and only if the block is a whole cache size below the head. */
  lemma RefusedIff(v: View, v': View, maxSize: nat, b: Block, status: PushStatus)
    requires PushEffect(v, v', maxSize, b, status)
    ensures status == TooOld && v' == v <==> v.head.Some? && b.Num() + maxSize <= v.head.value.Num()
  {
    hide Cascade, Settled, Conserved, Childless;
  }

  lemma HeldAfter(v: View, v': View, b: Block)
    requires Keyed(v.index) && Cascade(Inserted(v, b), v', b.Id())
    ensures Holds(v'.index, b)
  {
    assert Holds(Inserted(v, b).index, b);
  }

  lemma KeyedInsert(m: map<BlockId, Block>, b: Block)
    requires Keyed(m)
    ensures Keyed(m[b.Id() := b])
  {
  }

  lemma LinkStep(v: View, v1: View, v3: View, root: BlockId, id: BlockId, maxSize: nat, status: PushStatus)
    requires Keyed(v1.unlinked) && root in v.index && root.num > 0
    requires Linking(v, v1, root)
    requires id in v1.unlinked && v1.unlinked[id].previous == root
    requires PushEffect(Uncached(v1, id), v3, maxSize, v1.unlinked[id], status)
    ensures status != Unlinkable && Cascade(v, v3, root)
    ensures status == Accepted ==> Linking(v, v3, root)
    ensures Sub(v3.unlinked, Uncached(v1, id).unlinked)
  {
    if !TooOldFor(Uncached(v1, id), maxSize, v1.unlinked[id]) {
      CascadeStep(v, v1, v3, root, id);
      if status == Accepted {
        SettledStep(v, v1, v3, root, id);
      }
    } else {
      forall i | NewlyIndexed(v, v3, i) ensures LinkedFromCache(v, v3, root, i) {
        assert NewlyIndexed(v, v1, i);
      }
    }
  }

  lemma SubSmaller(m: map<BlockId, Block>, m': map<BlockId, Block>)
    requires Sub(m, m')
    ensures |m| <= |m'|
  {
    SubsetSize(m.Keys, m'.Keys);
  }

  /** Pushing keeps the cache free of linkable blocks and the head highest, links every new block to an
      indexed parent, and moves the head only upwards. */
  lemma PushKeeps(v: View, v': View, maxSize: nat, b: Block, status: PushStatus)
    requires Keyed(v.index) && Keyed(v.unlinked)
    requires PushEffect(v, v', maxSize, b, status)
    ensures Sub(v.index, v'.index)
    ensures v'.head == v.head || (v'.head.Some? && (v.head.Some? ==> v'.head.value.Num() > v.head.value.Num()))
    ensures status == Accepted && NoneLinkable(v) ==> NoneLinkable(v')
    ensures (v.head.Some? ==> HeadHighest(v)) && (v.head.None? ==> v.index == map[]) && v'.head.Some? ==> HeadHighest(v')
    ensures v.head.Some? ==> forall id :: NewlyIndexed(v, v', id) ==>
              v'.index[id].previous == NULL_ID || v'.index[id].previous in v'.index
  {
    if !TooOldFor(v, maxSize, b) && !NotLinking(v, b) {
      var v1 := Inserted(v, b);
      forall id | NewlyIndexed(v, v', id)
        ensures v'.index[id].Num() <= v'.head.value.Num()
        ensures v.head.Some? ==> v'.index[id].previous == NULL_ID || v'.index[id].previous in v'.index
      {
        if id != b.Id() {
          assert NewlyIndexed(v1, v', id);
        }
      }
      if status == Accepted && NoneLinkable(v) {
        forall id | id in v'.unlinked ensures v'.unlinked[id].previous !in v'.index {
          assert !NewlyIndexed(v1, v', v'.unlinked[id].previous);
        }
      }
    }
  }

  /** The head that a push returns is the old head, the pushed block, or a block out of the cache; a new one
      is in the index, and so is the pushed block. */
  lemma PushedHead(v: View, v': View, maxSize: nat, b: Block, status: PushStatus)
    requires Keyed(v.index) && Keyed(v.unlinked) && Keyed(v'.index) && status != Unlinkable
    requires PushEffect(v, v', maxSize, b, status)
    ensures v'.head == v.head || (&& v'.head.Some? && Holds(v'.index, v'.head.value)
                                  && (v'.head.value == b || v'.head.value in v.unlinked.Values))
    ensures status == Accepted ==> v'.head.Some? && Holds(v'.index, b)
  {
    if !TooOldFor(v, maxSize, b) {
      var v1 := Inserted(v, b);
      assert HeadRises(v1, v') && Holds(v1.index, b);
      if v'.head != v1.head {
        assert v.unlinked[v'.head.value.Id()] == v'.head.value;
      }
    }
  }

  ghost predicate Holds(index: map<BlockId, Block>, b: Block) {
    b.Id() in index && index[b.Id()] == b
  }

  predicate ChildOf(child: Block, parent: Block) {
    child.previous == parent.Id()
  }

  /** `p` walks from its first block towards the root, each step to the indexed parent. */
  ghost predicate Walk(index: map<BlockId, Block>, p: seq<Block>) {
    && (forall i :: 0 <= i < |p| ==> Holds(index, p[i]))
    && (forall i, j :: 0 <= i < j < |p| && j == i + 1 ==> ChildOf(p[i], p[j]))
  }

  /** The two walks leave `first` and `second` and end just above one common parent. */
  ghost predicate Meet(index: map<BlockId, Block>, first: BlockId, second: BlockId, p: seq<Block>, q: seq<Block>) {
    && p != [] && q != [] && Walk(index, p) && Walk(index, q)
    && p[0].Id() == first && q[0].Id() == second
    && p[|p| - 1].previous == q[|q| - 1].previous
  }

  /** Blocks of equal height on the two walks have different parents. */
  ghost predicate Apart(p: seq<Block>, q: seq<Block>) {
    forall i, j :: 0 <= i < |p| && 0 <= j < |q| && p[i].Num() == q[j].Num() ==> p[i].previous != q[j].previous
  }

  /** The walks meet at their ends and nowhere earlier. */
  ghost predicate MeetAtEnds(p: seq<Block>, q: seq<Block>) {
    && p != [] && q != []
    && p[|p| - 1].previous == q[|q| - 1].previous
    && forall i, j :: 0 <= i < |p| - 1 && 0 <= j < |q| - 1 && p[i].Num() == q[j].Num() ==> p[i].previous != q[j].previous
  }

  lemma {:induction false} WalkHeight(index: map<BlockId, Block>, p: seq<Block>, i: nat)
    requires Walk(index, p) && i < |p|
    ensures p[i].Num() == p[0].Num() - i
  {
    if i > 0 {
      WalkHeight(index, p, i - 1);
      assert ChildOf(p[i - 1], p[i]);
    }
  }

  lemma {:induction false} WalkUnique(index: map<BlockId, Block>, p: seq<Block>, q: seq<Block>, i: nat)
    requires Walk(index, p) && Walk(index, q) && i < |p| && i < |q|
    requires p[0] == q[0]
    ensures p[i] == q[i]
  {
    if i > 0 {
      WalkUnique(index, p, q, i - 1);
      assert ChildOf(p[i - 1], p[i]) && ChildOf(q[i - 1], q[i]);
      assert Holds(index, p[i]) && Holds(index, q[i]);
    }
  }

  lemma WalkParent(index: map<BlockId, Block>, p: seq<Block>, i: nat)
    requires Walk(index, p) && i < |p| - 1
    ensures p[i].previous in index && index[p[i].previous] == p[i + 1]
  {
    assert ChildOf(p[i], p[i + 1]) && Holds(index, p[i + 1]);
  }

  /** A walk that cannot be continued is at least as long as any other from the same block. */
  lemma WalkLongest(index: map<BlockId, Block>, p: seq<Block>, p': seq<Block>)
    requires p != [] && p' != [] && Walk(index, p) && Walk(index, p') && p[0] == p'[0]
    requires p[|p| - 1].previous !in index
    ensures |p'| <= |p|
  {
    if |p'| > |p| {
      WalkUnique(index, p', p, |p| - 1);
      WalkParent(index, p', |p| - 1);
    }
  }

  /** Walks that have not met, the upper of which cannot be continued, can never meet. */
  lemma DeadEnd(index: map<BlockId, Block>, p: seq<Block>, q: seq<Block>, p': seq<Block>, q': seq<Block>)
    requires p != [] && q != [] && Walk(index, p) && Walk(index, q) && Apart(p, q)
    requires p[|p| - 1].Num() >= q[|q| - 1].Num() && p[|p| - 1].previous !in index
    ensures !Meet(index, p[0].Id(), q[0].Id(), p', q')
  {
    if Meet(index, p[0].Id(), q[0].Id(), p', q') {
      SameStart(index, p, p');
      SameStart(index, q, q');
      WalkLongest(index, p, p');
      var i, j := |p'| - 1, |q'| - 1;
      WalkUnique(index, p', p, i);
      assert j < |q| by {
        WalkHeight(index, p, i);
        WalkHeight(index, p, |p| - 1);
        WalkHeight(index, q', j);
        WalkHeight(index, q, |q| - 1);
      }
      WalkUnique(index, q', q, j);
      assert false;
    }
  }

  lemma SameStart(index: map<BlockId, Block>, p: seq<Block>, p': seq<Block>)
    requires p != [] && p' != [] && Walk(index, p) && Walk(index, p') && p[0].Id() == p'[0].Id()
    ensures p[0] == p'[0]
  {
    assert Holds(index, p[0]) && Holds(index, p'[0]);
  }

  /** A walk goes on to the indexed parent. */
  lemma WalkOn(index: map<BlockId, Block>, p: seq<Block>, a: Block)
    requires Keyed(index) && Walk(index, p + [a]) && a.previous in index
    ensures Walk(index, p + [a] + [index[a.previous]])
    ensures (p + [a] + [index[a.previous]])[0] == (p + [a])[0]
  {
    var w := p + [a] + [index[a.previous]];
    forall i | 0 <= i < |w| ensures Holds(index, w[i]) {
      if i < |p| + 1 {
        assert w[i] == (p + [a])[i];
      }
    }
    forall i, j | 0 <= i < j < |w| && j == i + 1 ensures ChildOf(w[i], w[j]) {
      assert w[i] == (p + [a])[i];
      if i < |p| {
        assert ChildOf((p + [a])[i], (p + [a])[j]);
      }
    }
  }

  lemma ApartSwap(p: seq<Block>, q: seq<Block>)
    requires Apart(p, q)
    ensures Apart(q, p)
  {
  }

  lemma SharedIsLast(index: map<BlockId, Block>, p: seq<Block>, q: seq<Block>, i: nat, j: nat)
    requires p != [] && q != [] && Walk(index, p) && Walk(index, q) && MeetAtEnds(p, q)
    requires i < |p| && j < |q| && p[i] == q[j]
    ensures i == |p| - 1 && j == |q| - 1
  {
    WalkHeight(index, p, i);
    WalkHeight(index, q, j);
    WalkHeight(index, p, |p| - 1);
    WalkHeight(index, q, |q| - 1);
  }

  lemma SharedEndIsStart(index: map<BlockId, Block>, p: seq<Block>, q: seq<Block>)
    requires p != [] && q != [] && Walk(index, p) && Walk(index, q) && MeetAtEnds(p, q)
    requires p[|p| - 1] == q[|q| - 1]
    ensures |p| == 1 || |q| == 1
  {
    if |p| > 1 && |q| > 1 {
      WalkParent(index, p, |p| - 2);
      WalkParent(index, q, |q| - 2);
      assert false;
    }
  }

  /** The shape of the two branches: either they are disjoint and end in two different children of the
      most recent common ancestor, or they share their last block and nothing else, and that block is
      one of the two the walks started from. */
  lemma BranchShape(index: map<BlockId, Block>, p: seq<Block>, q: seq<Block>)
    requires p != [] && q != [] && Walk(index, p) && Walk(index, q) && MeetAtEnds(p, q)
    ensures forall i, j :: 0 <= i < |p| && 0 <= j < |q| && p[i] == q[j] ==> i == |p| - 1 && j == |q| - 1
    ensures p[|p| - 1] == q[|q| - 1] ==> |p| == 1 || |q| == 1
  {
    forall i, j | 0 <= i < |p| && 0 <= j < |q| && p[i] == q[j]
      ensures i == |p| - 1 && j == |q| - 1
    {
      SharedIsLast(index, p, q, i, j);
    }
    if p[|p| - 1] == q[|q| - 1] {
      SharedEndIsStart(index, p, q);
    }
  }

  class ForkDatabase {
    var head: Option<Block>
    var index: map<BlockId, Block>
    var unlinked: map<BlockId, Block>
    var maxSize: nat

    ghost function Now(): View
      reads this
    {
      View(head, index, unlinked)
    }

    ghost predicate Valid()
      reads this
    {
      Keyed(index) && Keyed(unlinked)
    }

    constructor ()
      ensures Valid() && Now() == View(None, map[], map[]) && maxSize == FORK_DB_MAX_SIZE
    {
      head, index, unlinked, maxSize := None, map[], map[], FORK_DB_MAX_SIZE;
    }

    /** `_push_block`. */
    method PushItem(b: Block) returns (status: PushStatus)
      requires Valid()
      modifies this
      ensures Valid() && maxSize == old(maxSize)
      ensures PushEffect(old(Now()), Now(), maxSize, b, status)
      // too old is what lies a whole cache size below the head, unlinkable what has no indexed parent, and all else is taken
      ensures status == TooOld && Now() == old(Now()) <==> old(head).Some? && b.Num() + maxSize <= old(head).value.Num()
      ensures status == Unlinkable <==> && old(head).Some? && b.Num() + maxSize > old(head).value.Num()
                                        && b.previous != NULL_ID && b.previous !in old(index)
      ensures old(head).None? || (b.Num() + maxSize > old(head).value.Num() && (b.previous == NULL_ID || b.previous in old(index))) ==>
                Holds(index, b) && (Childless(old(Now()), b.Id()) ==> status == Accepted)
      decreases |unlinked|, 2
    {
      hide Cascade, Settled, Conserved, Childless, PushEffect, Keyed;
      ghost var v := Now();
      RefusedPush(v, maxSize, b);
      if head.Some? && b.Num() <= (if head.value.Num() > maxSize then head.value.Num() - maxSize else 0) {
        return TooOld;
      }
      if head.Some? && b.previous != NULL_ID {
        if b.previous !in index {
          return Unlinkable;
        }
      }
      if b.Id() !in index {
        KeyedInsert(index, b);
        index := index[b.Id() := b];
      }
      if head.None? || b.Num() > head.value.Num() {
        head := Some(b);
      }
      assert Now() == Inserted(old(Now()), b);
      status := PushNext(b);
      LinkedPush(old(Now()), Now(), maxSize, b, status);
      HeldAfter(v, Now(), b);
    }

    /** `_push_next`: link the cached children of a block that has just been inserted. */
    method PushNext(newItem: Block) returns (status: PushStatus)
      requires Valid() && head.Some? && newItem.Id() in index
      modifies this
      ensures Valid() && maxSize == old(maxSize)
      ensures status != Unlinkable
      ensures Cascade(old(Now()), Now(), newItem.Id())
      ensures status == Accepted ==> Settled(old(Now()), Now(), newItem.Id()) && Conserved(old(Now()), Now())
      ensures status == TooOld ==> head.Some? && head.value.Num() > maxSize && |unlinked| < |old(unlinked)|
      ensures Childless(old(Now()), newItem.Id()) ==> status == Accepted && Now() == old(Now())
      decreases |unlinked|, 1
    {
      hide Cascade, Linking, Settled, Conserved, Keyed;
      ghost var v := Now();
      var root := newItem.Id();
      LinkingStart(v, root);
      var waiting := set id | id in unlinked && unlinked[id].previous == root;
      while waiting != {}
        invariant Valid() && maxSize == old(maxSize)
        invariant Linking(v, Now(), root)
        invariant waiting == set id | id in unlinked && unlinked[id].previous == root
        invariant |unlinked| <= |v.unlinked|
        invariant Childless(v, root) ==> Now() == v
        decreases |unlinked|
      {
        var id :| id in waiting;
        status := LinkCached(id, root, v);
        if status == TooOld {
          return;
        }
        waiting := set i | i in unlinked && unlinked[i].previous == root;
      }
      forall i | i in unlinked ensures unlinked[i].previous != root {
        assert i !in waiting;
      }
      LinkingEnd(v, Now(), root);
      status := Accepted;
    }

    /** One round of the loop of `_push_next`: take a waiting child out of the cache and push it. */
    method LinkCached(id: BlockId, root: BlockId, ghost v: View) returns (status: PushStatus)
      requires Valid() && root in v.index && root.num > 0
      requires id in unlinked && unlinked[id].previous == root
      requires Linking(v, Now(), root)
      modifies this
      ensures Valid() && maxSize == old(maxSize)
      ensures status != Unlinkable && Cascade(v, Now(), root)
      ensures status == TooOld ==> head.Some? && head.value.Num() > maxSize
      ensures status == Accepted ==> Linking(v, Now(), root)
      ensures |unlinked| < old(|unlinked|)
      decreases |unlinked|, 0
    {
      ghost var v1 := Now();
      var tmp := unlinked[id];
      unlinked := map i | i in unlinked && i != id :: unlinked[i];
      assert unlinked.Keys == v1.unlinked.Keys - {id};
      assert Now() == Uncached(v1, id);
      status := PushItem(tmp);
      ghost var v3 := Now();
      LinkStep(v, v1, v3, root, id, maxSize, status);
      SubSmaller(v3.unlinked, Uncached(v1, id).unlinked);
    }

    /** `push_block`. */
    method PushBlock(b: Block) returns (status: PushStatus)
      requires Valid()
      modifies this
      ensures Valid() && maxSize == old(maxSize)
      ensures status != Unlinkable ==> PushEffect(old(Now()), Now(), maxSize, b, status)
      // too old is what lies a whole cache size below the head, unlinkable what has no indexed parent, and all else is taken
      ensures status == TooOld && Now() == old(Now()) <==> old(head).Some? && b.Num() + maxSize <= old(head).value.Num()
      ensures status == Unlinkable <==> && old(head).Some? && b.Num() + maxSize > old(head).value.Num()
                                        && b.previous != NULL_ID && b.previous !in old(index)
      ensures old(head).None? || (b.Num() + maxSize > old(head).value.Num() && (b.previous == NULL_ID || b.previous in old(index))) ==>
                Holds(index, b) && (Childless(old(Now()), b.Id()) ==> status == Accepted)
      ensures status == Unlinkable ==>
                && NotLinking(old(Now()), b) && PushEffect(old(Now()), old(Now()), maxSize, b, status)
                && head == old(head) && index == old(index)
                && unlinked == if b.Id() in old(unlinked) then old(unlinked) else old(unlinked)[b.Id() := b]
    {
      status := PushItem(b);
      if status == Unlinkable {
        if b.Id() !in unlinked {
          unlinked := unlinked[b.Id() := b];
        }
      }
    }

    /** `pop_block`: false where the source throws. */
    method PopBlock() returns (ok: bool)
      requires Valid()
      modifies this`head
      ensures ok <==> old(head).Some? && old(head).value.previous in index
      ensures ok ==> head == Some(index[old(head).value.previous])
      ensures !ok ==> head == old(head)
    {
      if head.None? || head.value.previous !in index {
        return false;
      }
      head := Some(index[head.value.previous]);
      return true;
    }

    method SetHead(b: Block)
      modifies this`head
      ensures head == Some(b)
    {
      head := Some(b);
    }

    method Remove(id: BlockId)
      requires Valid()
      modifies this`index
      ensures Valid() && index == old(index) - {id}
    {
      index := index - {id};
    }

    /** `set_max_size`: drop everything that is more than `s` below the head. */
    method SetMaxSize(s: nat)
      requires Valid()
      modifies this`maxSize, this`index, this`unlinked
      ensures Valid() && maxSize == s
      ensures head.None? ==> index == old(index) && unlinked == old(unlinked)
      ensures head.Some? ==> index == NotBelow(old(index), head.value.Num() - s)
                             && unlinked == NotBelow(old(unlinked), head.value.Num() - s)
    {
      maxSize := s;
      if head.None? {
        return;
      }
      var bound := if head.value.Num() > s then head.value.Num() - s else 0;
      index := DropBelow(index, bound);
      unlinked := DropBelow(unlinked, bound);
    }

    /** `fetch_branch_from`: walk both blocks back until their parents agree.  None where the source
        throws: an unknown block, or a parent that has left the index. */
    method FetchBranchFrom(first: BlockId, second: BlockId) returns (r: Option<(seq<Block>, seq<Block>)>)
      requires Valid()
      ensures r.Some? ==> && Meet(index, first, second, r.value.0, r.value.1)
                          && MeetAtEnds(r.value.0, r.value.1)
      ensures r.None? ==> forall p, q :: !Meet(index, first, second, p, q)
    {
      if first !in index || second !in index {
        return None;
      }
      var b := index[second];
      var p, a, ok := WalkBack(index[first], b.Num());
      if !ok {
        forall p', q' ensures !Meet(index, first, second, p', q') {
          DeadEnd(index, p + [a], [b], p', q');
        }
        return None;
      }
      var q;
      q, b, ok := WalkBack(b, a.Num());
      if !ok {
        assert p == [];
        forall p', q' ensures !Meet(index, first, second, p', q') {
          DeadEnd(index, q + [b], [a], q', p');
        }
        return None;
      }
      p, a, q, b, ok := WalkTogether(p, a, q, b);
      if !ok {
        forall p', q' ensures !Meet(index, first, second, p', q') {
          if a.previous !in index {
            DeadEnd(index, p + [a], q + [b], p', q');
          } else {
            ApartSwap(p + [a], q + [b]);
            DeadEnd(index, q + [b], p + [a], q', p');
          }
        }
        return None;
      }
      r := Some((p + [a], q + [b]));
      assert (p + [a])[..|p|] == p && (q + [b])[..|q|] == q;
    }

    /** `walk_main_branch_to_num`. */
    method WalkMainBranch(num: nat) returns (r: Option<Block>)
      requires Valid() && head.Some?
      ensures r.Some? ==> r.value.Num() == num
      ensures forall w :: MainWalk(Now(), num, w) ==> r == Some(w[|w| - 1])
    {
      var next := head.value;
      if num > next.Num() {
        NoWalkAbove(Now(), num);
        return None;
      }
      ghost var all := WithHead(Now());
      ghost var p := [next];
      while next.Num() > num
        invariant Walk(all, p) && p != [] && p[0] == head.value && p[|p| - 1] == next
        invariant num <= next.Num() <= head.value.Num()
        decreases next.Num()
      {
        if next.previous !in index {
          forall w: seq<Block> ensures !MainWalk(Now(), num, w) {
            if MainWalk(Now(), num, w) {
              WalkLongest(all, p, w);
              WalkHeight(all, w, |w| - 1);
              WalkHeight(all, p, |p| - 1);
            }
          }
          return None;
        }
        assert p == p[..|p| - 1] + [next];
        WalkOn(all, p[..|p| - 1], next);
        p := p + [index[next.previous]];
        next := index[next.previous];
      }
      forall w: seq<Block> | MainWalk(Now(), num, w) ensures next == w[|w| - 1] {
        WalkHeight(all, w, |w| - 1);
        WalkHeight(all, p, |p| - 1);
        WalkUnique(all, w, p, |w| - 1);
      }
      return Some(next);
    }

    /** `fetch_block_on_main_branch_by_number`. */
    method FetchOnMainBranch(num: nat) returns (r: Option<Block>)
      requires Valid()
      ensures head.None? || num > head.value.Num() ==> r == None
      ensures r.Some? ==> r.value.Num() == num
      ensures forall w :: MainWalk(Now(), num, w) ==> r == Some(w[|w| - 1])
    {
      if head.None? || num > head.value.Num() {
        NoWalkAbove(Now(), num);
        return None;
      }
      var ids := set id | id in index && index[id].Num() == num;
      forall w: seq<Block> | MainWalk(Now(), num, w) ensures w[|w| - 1].Id() in ids {
        assert Holds(index, w[|w| - 1]);
      }
      if |ids| == 1 {
        var id :| id in ids;
        forall w: seq<Block> | MainWalk(Now(), num, w) ensures index[id] == w[|w| - 1] {
          OnlyElement(ids, id, w[|w| - 1].Id());
        }
        return Some(index[id]);
      }
      if |ids| == 0 {
        return None;
      }
      r := WalkMainBranch(num);
    }

    /** The first two loops of `fetch_branch_from`: walk back from `start` down to `height`. */
    method WalkBack(start: Block, height: nat) returns (p: seq<Block>, a: Block, ok: bool)
      requires Valid() && Holds(index, start)
      ensures Walk(index, p + [a]) && (p + [a])[0] == start
      ensures forall i :: 0 <= i < |p| ==> p[i].Num() > height
      ensures ok ==> a.Num() <= height && (p == [] || a.Num() == height)
      ensures !ok ==> a.Num() > height && a.previous !in index
    {
      p, a := [], start;
      while a.Num() > height
        invariant Walk(index, p + [a]) && (p + [a])[0] == start
        invariant forall i :: 0 <= i < |p| ==> p[i].Num() > height
        invariant p == [] || a.Num() >= height
        decreases a.Num()
      {
        if a.previous !in index {
          return p, a, false;
        }
        WalkOn(index, p, a);
        p := p + [a];
        a := index[a.previous];
      }
      ok := true;
    }

    /** The last loop of `fetch_branch_from`: two blocks of equal height, until their parents agree. */
    method WalkTogether(p0: seq<Block>, a0: Block, q0: seq<Block>, b0: Block)
      returns (p: seq<Block>, a: Block, q: seq<Block>, b: Block, ok: bool)
      requires Valid() && Walk(index, p0 + [a0]) && Walk(index, q0 + [b0]) && a0.Num() == b0.Num()
      requires Apart(p0, q0)
      requires forall i :: 0 <= i < |p0| ==> p0[i].Num() > a0.Num()
      requires forall i :: 0 <= i < |q0| ==> q0[i].Num() > b0.Num()
      ensures Walk(index, p + [a]) && (p + [a])[0] == (p0 + [a0])[0]
      ensures Walk(index, q + [b]) && (q + [b])[0] == (q0 + [b0])[0]
      ensures a.Num() == b.Num() && Apart(p, q)
      ensures ok ==> a.previous == b.previous
      ensures !ok ==> Apart(p + [a], q + [b]) && (a.previous !in index || b.previous !in index)
    {
      p, a, q, b := p0, a0, q0, b0;
      while a.previous != b.previous
        invariant Walk(index, p + [a]) && (p + [a])[0] == (p0 + [a0])[0]
        invariant Walk(index, q + [b]) && (q + [b])[0] == (q0 + [b0])[0]
        invariant a.Num() == b.Num() && Apart(p, q)
        invariant forall i :: 0 <= i < |p| ==> p[i].Num() > a.Num()
        invariant forall i :: 0 <= i < |q| ==> q[i].Num() > b.Num()
        decreases a.Num()
      {
        assert Apart(p + [a], q + [b]);
        if a.previous !in index || b.previous !in index {
          return p, a, q, b, false;
        }
        WalkOn(index, p, a);
        WalkOn(index, q, b);
        p, q := p + [a], q + [b];
        a, b := index[a.previous], index[b.previous];
      }
      ok := true;
    }
  }

  /** The index together with the head, which may have been removed from it. */
  ghost function WithHead(v: View): map<BlockId, Block>
    requires v.head.Some?
  {
    v.index[v.head.value.Id() := v.head.value]
  }

  /** `w` leads from the head down the main branch to an indexed block numbered `num`. */
  ghost predicate MainWalk(v: View, num: nat, w: seq<Block>) {
    && w != [] && v.head == Some(w[0]) && Walk(WithHead(v), w)
    && Holds(v.index, w[|w| - 1]) && w[|w| - 1].Num() == num
  }

  lemma NoWalkAbove(v: View, num: nat)
    requires v.head.None? || num > v.head.value.Num()
    ensures forall w :: !MainWalk(v, num, w)
  {
    forall w: seq<Block> ensures !MainWalk(v, num, w) {
      if MainWalk(v, num, w) {
        WalkHeight(WithHead(v), w, |w| - 1);
      }
    }
  }

  lemma OnlyElement(s: set<BlockId>, x: BlockId, y: BlockId)
    requires |s| == 1 && x in s && y in s
    ensures x == y
  {
    SubsetSize({x, y}, s);
  }

  function NotBelow(m: map<BlockId, Block>, bound: int): map<BlockId, Block> {
    map id | id in m && m[id].Num() >= bound :: m[id]
  }

  /** The trimming loop: while a lowest entry is below the bound, erase it. */
  method DropBelow(m: map<BlockId, Block>, bound: nat) returns (r: map<BlockId, Block>)
    ensures r == NotBelow(m, bound)
  {
    r := m;
    var low := set id | id in r && r[id].Num() < bound;
    while low != {}
      invariant Sub(r, m) && NotBelow(r, bound) == NotBelow(m, bound)
      invariant low == set id | id in r && r[id].Num() < bound
      decreases |low|
    {
      var id :| id in low;
      r := r - {id};
      low := low - {id};
    }
    assert forall id :: id in r ==> id !in low;
  }
}
