/** The Merkle root of a block's transactions, computed in place in the buffer of digests. */
module Merkle {
  import opened Bits

  ghost predicate InjectiveHash<D(!new)>(hash: (D, D) -> D) {
    forall a, b, c, d :: hash(a, b) == hash(c, d) ==> a == c && b == d
  }

  ghost predicate Injective<A(!new), B(!new)>(f: A -> B) {
    forall a, b :: f(a) == f(b) ==> a == b
  }

  // ---------- the tree, level by level ----------

  /** Neighbours are hashed together; an odd one out moves up as it is. */
  function Level<D>(ids: seq<D>, hash: (D, D) -> D): (r: seq<D>)
    ensures |r| == (|ids| + 1) / 2
  {
    if |ids| < 2 then ids else [hash(ids[0], ids[1])] + Level(ids[2..], hash)
  }

  function Root<D>(ids: seq<D>, hash: (D, D) -> D): D
    requires ids != []
    decreases |ids|
  {
    if |ids| == 1 then ids[0] else Root(Level(ids, hash), hash)
  }

  function Parent<D>(ids: seq<D>, hash: (D, D) -> D, k: nat): D
    requires 2 * k < |ids|
  {
    if 2 * k + 1 < |ids| then hash(ids[2 * k], ids[2 * k + 1]) else ids[2 * k]
  }

  lemma {:induction false} LevelAt<D>(ids: seq<D>, hash: (D, D) -> D, k: nat)
    requires 2 * k < |ids|
    ensures k < |Level(ids, hash)| && Level(ids, hash)[k] == Parent(ids, hash, k)
  {
    if |ids| >= 2 && k > 0 {
      LevelAt(ids[2..], hash, k - 1);
    }
  }

  lemma LevelSize<D>(ids: seq<D>, hash: (D, D) -> D)
    ensures |Level(ids, hash)| == (|ids| + 1) / 2
  {
  }

  // ---------- the tree, from the root ----------

  lemma {:induction false} LevelAppend<D>(x: seq<D>, y: seq<D>, hash: (D, D) -> D)
    requires |x| % 2 == 0
    ensures Level(x + y, hash) == Level(x, hash) + Level(y, hash)
  {
    if x == [] {
      assert x + y == y;
    } else {
      LevelAppend(x[2..], y, hash);
      assert (x + y)[2..] == x[2..] + y;
    }
  }

  lemma RootOfLevel<D>(ids: seq<D>, hash: (D, D) -> D)
    requires ids != []
    ensures Level(ids, hash) != [] && Root(ids, hash) == Root(Level(ids, hash), hash)
  {
  }

  /** The tree over a list: the largest power of two smaller than its length goes to the left, the rest to the right,
      and a single element is its own tree. */
  lemma {:induction false} RootSplits<D>(ids: seq<D>, hash: (D, D) -> D, h: nat)
    requires Pow2(h) < |ids| <= 2 * Pow2(h)
    ensures Root(ids, hash) == hash(Root(ids[..Pow2(h)], hash), Root(ids[Pow2(h)..], hash))
    decreases h
  {
    if h == 0 {
      assert Level(ids, hash) == [hash(ids[0], ids[1])];
      assert ids[..1] == [ids[0]] && ids[1..] == [ids[1]];
    } else {
      var q, p, up := Pow2(h - 1), Pow2(h), Level(ids, hash);
      assert p == 2 * q;
      RootSplits(up, hash, h - 1);
      LevelAppend(ids[..p], ids[p..], hash);
      assert ids[..p] + ids[p..] == ids;
      LevelSize(ids[..p], hash);
      hide Level, Root;
      assert up[..q] == Level(ids[..p], hash) && up[q..] == Level(ids[p..], hash);
      RootOfLevel(ids, hash);
      RootOfLevel(ids[..p], hash);
      RootOfLevel(ids[p..], hash);
    }
  }

  lemma RootOfOne<D>(a: D, hash: (D, D) -> D)
    ensures Root([a], hash) == a
  {
  }

  // ---------- the root determines the list ----------

  lemma LevelInjective<D(!new)>(x: seq<D>, y: seq<D>, hash: (D, D) -> D)
    requires InjectiveHash(hash) && |x| == |y| && Level(x, hash) == Level(y, hash)
    ensures x == y
  {
    hide Level;
    forall i | 0 <= i < |x| ensures x[i] == y[i] {
      var k := i / 2;
      LevelAt(x, hash, k);
      LevelAt(y, hash, k);
      SameParent(x, y, hash, k);
      assert i == 2 * k || i == 2 * k + 1;
    }
  }

  lemma SameParent<D(!new)>(x: seq<D>, y: seq<D>, hash: (D, D) -> D, k: nat)
    requires InjectiveHash(hash) && |x| == |y| && 2 * k < |x| && Parent(x, hash, k) == Parent(y, hash, k)
    ensures x[2 * k] == y[2 * k] && (2 * k + 1 < |x| ==> x[2 * k + 1] == y[2 * k + 1])
  {
  }

  lemma {:induction false} RootInjective<D(!new)>(x: seq<D>, y: seq<D>, hash: (D, D) -> D)
    requires InjectiveHash(hash) && |x| == |y| > 0 && Root(x, hash) == Root(y, hash)
    ensures x == y
    decreases |x|
  {
    if |x| > 1 {
      RootInjective(Level(x, hash), Level(y, hash), hash);
      LevelInjective(x, y, hash);
    }
  }

  /** Lists of different lengths can share a root, whatever the hash. */
  lemma LengthMatters<D>(a: D, b: D, hash: (D, D) -> D)
    ensures Root([a, b], hash) == Root([hash(a, b)], hash)
  {
    assert Level([a, b], hash) == [hash(a, b)] + Level([], hash);
  }

  // ---------- in place ----------

  /** One level, written over the front of the buffer it is read from. */
  method HashPairs<D>(a: array<D>, n: nat, hash: (D, D) -> D) returns (m: nat)
    requires 2 <= n <= a.Length
    modifies a
    ensures m == (n + 1) / 2 && a[..m] == Level(old(a[..n]), hash)
  {
    hide Level;
    ghost var was := a[..n];
    var iMax := n - n % 2;
    var i, k := 0, 0;
    while i < iMax
      invariant 0 <= i <= iMax && i == 2 * k
      invariant forall j :: 0 <= j < k ==> a[j] == Parent(was, hash, j)
      invariant forall j :: k <= j < n ==> a[j] == was[j]
    {
      a[k] := hash(a[i], a[i + 1]);
      k := k + 1;
      i := i + 2;
    }
    if n % 2 == 1 {
      a[k] := a[iMax];
      k := k + 1;
    }
    m := k;
    forall j | 0 <= j < m ensures j < |Level(was, hash)| && a[j] == Level(was, hash)[j] {
      LevelAt(was, hash, j);
    }
    LevelSize(was, hash);
  }

  method RootInPlace<D>(a: array<D>, hash: (D, D) -> D) returns (root: D)
    requires a.Length > 0
    modifies a
    ensures root == Root(old(a[..]), hash)
  {
    var n := a.Length;
    ghost var all := a[..];
    assert a[..n] == all;
    while n > 1
      invariant 1 <= n <= a.Length && Root(a[..n], hash) == Root(all, hash)
    {
      n := HashPairs(a, n, hash);
    }
    root := a[0];
  }

  /** `calculate_merkle_root`: the checksum of the root, or the zero checksum without transactions. */
  method CalculateMerkleRoot<T, D, C>(txs: seq<T>, digest: T -> D, hash: (D, D) -> D, checksum: D -> C, zero: C) returns (r: C)
    ensures r == MerkleRoot(txs, digest, hash, checksum, zero)
  {
    if |txs| == 0 {
      return zero;
    }
    var ids := new D[|txs|](i requires 0 <= i < |txs| => digest(txs[i]));
    assert ids[..] == Digests(txs, digest);
    var root := RootInPlace(ids, hash);
    r := checksum(root);
  }

  function Digests<T, D>(txs: seq<T>, digest: T -> D): seq<D> {
    seq(|txs|, i requires 0 <= i < |txs| => digest(txs[i]))
  }

  function MerkleRoot<T, D, C>(txs: seq<T>, digest: T -> D, hash: (D, D) -> D, checksum: D -> C, zero: C): C {
    if txs == [] then zero else checksum(Root(Digests(txs, digest), hash))
  }

  /** With hashes that do not collide, blocks with equally many transactions and the same root hold the same
      transactions in the same order. */
  lemma SameTransactions<T(!new), D(!new), C(!new)>(x: seq<T>, y: seq<T>, digest: T -> D, hash: (D, D) -> D, checksum: D -> C, zero: C)
    requires Injective(digest) && InjectiveHash(hash) && Injective(checksum) && |x| == |y|
    requires MerkleRoot(x, digest, hash, checksum, zero) == MerkleRoot(y, digest, hash, checksum, zero)
    ensures x == y
  {
    if x != [] {
      RootInjective(Digests(x, digest), Digests(y, digest), hash);
      forall i | 0 <= i < |x| ensures x[i] == y[i] {
        assert Digests(x, digest)[i] == Digests(y, digest)[i];
      }
    }
  }
}
