/** Weighted multi-signature authorities.

    An authority is satisfied when the weights of the keys that signed and of the wallets that are
    themselves satisfied reach its threshold.  Wallets delegate to wallets, possibly in cycles, so the
    meaning is a least fixed point; the checker is a depth-limited recursion with a cache. */
module SignStates {
  import opened Collections

  type Key = nat

  /** Keys and wallets with their weights, in the order of the underlying maps. */
  datatype Authority = Authority(threshold: nat, keyAuths: seq<(Key, nat)>, walletAuths: seq<(string, nat)>)

  /** What satisfaction depends on: who delegates to whom, the keys that signed, and the wallets that are
      approved from the start. */
  datatype World = World(money: string -> Authority, keys: set<Key>, base: set<string>)

  const MAX_SIG_CHECK_DEPTH: nat := 2
  const TWO_32: nat := 0x1_0000_0000

  type Word32 = x: nat | x < 0x1_0000_0000

  // ---------- the meaning ----------

  function KeyWeight(keys: set<Key>, auths: seq<(Key, nat)>): nat {
    if auths == [] then 0
    else
      var (k, w) := auths[|auths| - 1];
      KeyWeight(keys, auths[..|auths| - 1]) + if k in keys then w else 0
  }

  /** Satisfied by delegations nested at most `d` deep. */
  ghost predicate SatAt(world: World, d: nat, auth: Authority)
    decreases d, 2
  {
    KeyWeight(world.keys, auth.keyAuths) + WalletWeightAt(world, d, auth.walletAuths) >= auth.threshold
  }

  ghost function WalletWeightAt(world: World, d: nat, auths: seq<(string, nat)>): nat
    decreases d, 1, |auths|
  {
    if auths == [] then 0
    else
      var (a, w) := auths[|auths| - 1];
      WalletWeightAt(world, d, auths[..|auths| - 1]) + if WalletSatAt(world, d, a) then w else 0
  }

  ghost predicate WalletSatAt(world: World, d: nat, a: string)
    decreases d, 0
  {
    a in world.base || (d > 0 && SatAt(world, d - 1, world.money(a)))
  }

  ghost predicate Satisfied(world: World, auth: Authority) {
    exists d: nat :: SatAt(world, d, auth)
  }

  ghost predicate WalletSatisfied(world: World, a: string) {
    exists d: nat :: WalletSatAt(world, d, a)
  }

  /** The weight of the wallets among `auths` that are in `ok`. */
  ghost function WalletWeight(ok: iset<string>, auths: seq<(string, nat)>): nat {
    if auths == [] then 0
    else
      var (a, w) := auths[|auths| - 1];
      WalletWeight(ok, auths[..|auths| - 1]) + if a in ok then w else 0
  }

  ghost function SatWallets(world: World): iset<string> {
    iset a | WalletSatisfied(world, a)
  }

  /** `auth` would be satisfied if exactly the wallets in `ok` were. */
  ghost predicate MetBy(world: World, ok: iset<string>, auth: Authority) {
    KeyWeight(world.keys, auth.keyAuths) + WalletWeight(ok, auth.walletAuths) >= auth.threshold
  }

  /** A set of wallets that contains the initially approved ones and every wallet it satisfies. */
  ghost predicate Closed(world: World, ok: iset<string>) {
    (forall a :: a in world.base ==> a in ok) && forall a :: MetBy(world, ok, world.money(a)) ==> a in ok
  }

  ghost predicate Weaker(world: World, world': World) {
    world.money == world'.money && world.base <= world'.base && world.keys <= world'.keys
  }

  lemma {:induction false} KeyWeightMono(keys: set<Key>, keys': set<Key>, auths: seq<(Key, nat)>)
    requires keys <= keys'
    ensures KeyWeight(keys, auths) <= KeyWeight(keys', auths)
  {
    if auths != [] {
      KeyWeightMono(keys, keys', auths[..|auths| - 1]);
      var (k, w) := auths[|auths| - 1];
    }
  }

  lemma {:induction false} WalletWeightMono(ok: iset<string>, ok': iset<string>, auths: seq<(string, nat)>)
    requires ok <= ok'
    ensures WalletWeight(ok, auths) <= WalletWeight(ok', auths)
  {
    if auths != [] {
      WalletWeightMono(ok, ok', auths[..|auths| - 1]);
      var (a, w) := auths[|auths| - 1];
    }
  }

  /** More keys, more wallets approved from the start and more depth satisfy more. */
  lemma {:induction false} SatMono(world: World, world': World, d: nat, d': nat, auth: Authority)
    requires Weaker(world, world') && d <= d' && SatAt(world, d, auth)
    ensures SatAt(world', d', auth)
    decreases d, 2
  {
    KeyWeightMono(world.keys, world'.keys, auth.keyAuths);
    WalletWeightAtMono(world, world', d, d', auth.walletAuths);
  }

  lemma {:induction false} WalletWeightAtMono(world: World, world': World, d: nat, d': nat, auths: seq<(string, nat)>)
    requires Weaker(world, world') && d <= d'
    ensures WalletWeightAt(world, d, auths) <= WalletWeightAt(world', d', auths)
    decreases d, 1, |auths|
  {
    if auths != [] {
      WalletWeightAtMono(world, world', d, d', auths[..|auths| - 1]);
      var a := auths[|auths| - 1].0;
      if WalletSatAt(world, d, a) {
        WalletSatMono(world, world', d, d', a);
      }
    }
  }

  lemma {:induction false} WalletSatMono(world: World, world': World, d: nat, d': nat, a: string)
    requires Weaker(world, world') && d <= d' && WalletSatAt(world, d, a)
    ensures WalletSatAt(world', d', a)
    decreases d, 0
  {
    if a !in world.base {
      SatMono(world, world', d - 1, d' - 1, world.money(a));
    }
  }

  /** One depth serves all the satisfied wallets of a list. */
  lemma {:induction false} CommonDepth(world: World, auths: seq<(string, nat)>) returns (d: nat)
    ensures WalletWeight(SatWallets(world), auths) == WalletWeightAt(world, d, auths)
  {
    if auths == [] {
      d := 0;
    } else {
      var a, rest := auths[|auths| - 1].0, auths[..|auths| - 1];
      d := CommonDepth(world, rest);
      if WalletSatisfied(world, a) {
        var e: nat :| WalletSatAt(world, e, a);
        var m := if d < e then e else d;
        WalletSatMono(world, world, e, m, a);
        WalletWeightAtMono(world, world, d, m, rest);
        WalletWeightAtMost(world, m, rest);
        d := m;
      }
    }
  }

  lemma {:induction false} WalletWeightAtMost(world: World, d: nat, auths: seq<(string, nat)>)
    ensures WalletWeightAt(world, d, auths) <= WalletWeight(SatWallets(world), auths)
  {
    if auths != [] {
      WalletWeightAtMost(world, d, auths[..|auths| - 1]);
      var (a, w) := auths[|auths| - 1];
    }
  }

  /** Satisfaction is a fixed point: an authority is satisfied exactly when its keys and its satisfied
      wallets reach the threshold. */
  lemma SatisfiedFixpoint(world: World, auth: Authority)
    ensures Satisfied(world, auth) <==> MetBy(world, SatWallets(world), auth)
  {
    if Satisfied(world, auth) {
      var d: nat :| SatAt(world, d, auth);
      WalletWeightAtMost(world, d, auth.walletAuths);
    }
    if MetBy(world, SatWallets(world), auth) {
      var d := CommonDepth(world, auth.walletAuths);
      assert SatAt(world, d, auth);
    }
  }

  /** And the least one: the satisfied wallets are closed, and contained in every closed set. */
  lemma SatisfiedLeast(world: World, ok: iset<string>)
    ensures Closed(world, SatWallets(world))
    ensures Closed(world, ok) ==> SatWallets(world) <= ok
  {
    forall a | MetBy(world, SatWallets(world), world.money(a)) ensures a in SatWallets(world) {
      SatisfiedFixpoint(world, world.money(a));
      var d: nat :| SatAt(world, d, world.money(a));
      assert WalletSatAt(world, d + 1, a);
    }
    forall a | a in world.base ensures a in SatWallets(world) {
      assert WalletSatAt(world, 0, a);
    }
    if Closed(world, ok) {
      forall a | WalletSatisfied(world, a) ensures a in ok {
        var d: nat :| WalletSatAt(world, d, a);
        InClosed(world, ok, d, a);
      }
    }
  }

  lemma {:induction false} InClosed(world: World, ok: iset<string>, d: nat, a: string)
    requires Closed(world, ok) && WalletSatAt(world, d, a)
    ensures a in ok
    decreases d, 0
  {
    if a !in world.base {
      var auth := world.money(a);
      WeightInClosed(world, ok, d - 1, auth.walletAuths);
      assert MetBy(world, ok, auth);
    }
  }

  lemma {:induction false} WeightInClosed(world: World, ok: iset<string>, d: nat, auths: seq<(string, nat)>)
    requires Closed(world, ok)
    ensures WalletWeightAt(world, d, auths) <= WalletWeight(ok, auths)
    decreases d, 1, |auths|
  {
    if auths != [] {
      WeightInClosed(world, ok, d, auths[..|auths| - 1]);
      var a := auths[|auths| - 1].0;
      if WalletSatAt(world, d, a) {
        InClosed(world, ok, d, a);
      }
    }
  }

  // ---------- the limits ----------

  /** An authority with only its first `max` members, keys before wallets; zero means no limit. */
  function Cut(max: nat, auth: Authority): Authority {
    if max == 0 then auth
    else
      var k := Min(max, |auth.keyAuths|);
      Authority(auth.threshold, auth.keyAuths[..k], auth.walletAuths[..Min(max - k, |auth.walletAuths|)])
  }

  function CutMoney(max: nat, money: string -> Authority): string -> Authority {
    (a: string) => Cut(max, money(a))
  }

  /** The wallets of a list that are in the cache. */
  function Known(cache: set<string>, wallets: seq<(string, nat)>): (r: seq<(string, nat)>)
    ensures |r| <= |wallets|
  {
    if wallets == [] then []
    else
      var m := wallets[|wallets| - 1];
      Known(cache, wallets[..|wallets| - 1]) + if m.0 in cache then [m] else []
  }

  /** The wallets that a check with `d` levels to go looks at: on the last level only the cached ones. */
  function Tried(cache: set<string>, d: nat, wallets: seq<(string, nat)>): (r: seq<(string, nat)>)
    ensures |r| <= |wallets|
  {
    if d > 0 then wallets else Known(cache, wallets)
  }

  /** The members of an authority that a check looks at. */
  function Considered(cache: set<string>, d: nat, max: nat, auth: Authority): Authority {
    Cut(max, auth.(walletAuths := Tried(cache, d, auth.walletAuths)))
  }

  /** How many authorities of wallets are looked up at most, going `d` levels down. */
  function Lookups(money: string -> Authority, max: nat, d: nat, wallets: seq<(string, nat)>): nat
    decreases d, |wallets|
  {
    if d == 0 || wallets == [] then 0
    else
      Lookups(money, max, d, wallets[..|wallets| - 1])
      + 1 + Lookups(money, max, d - 1, Cut(max, money(wallets[|wallets| - 1].0)).walletAuths)
  }

  /** An authority that nothing has to be added to is refused when it has as many members as the limit. */
  predicate Fair(max: nat, auth: Authority) {
    max == 0 || auth.threshold > 0 || |auth.keyAuths| + |auth.walletAuths| < max
  }

  lemma TriedNext(cache: set<string>, d: nat, wallets: seq<(string, nat)>, j: nat)
    requires j < |wallets|
    ensures Tried(cache, d, wallets[..j + 1])
            == if d > 0 || wallets[j].0 in cache then Tried(cache, d, wallets[..j]) + [wallets[j]] else Tried(cache, d, wallets[..j])
  {
    assert wallets[..j + 1][..j] == wallets[..j];
  }

  lemma {:induction false} KnownPrefix(cache: set<string>, wallets: seq<(string, nat)>, j: nat)
    requires j <= |wallets|
    ensures Known(cache, wallets[..j]) <= Known(cache, wallets)
    ensures WalletTotal(Known(cache, wallets[..j])) <= WalletTotal(wallets[..j])
    decreases |wallets|, j
  {
    if j < |wallets| {
      var p := wallets[..|wallets| - 1];
      KnownPrefix(cache, p, j);
      assert p[..j] == wallets[..j];
    } else {
      assert wallets[..j] == wallets;
      if j > 0 {
        var p, m := wallets[..j - 1], wallets[j - 1];
        KnownPrefix(cache, p, j - 1);
        assert p[..j - 1] == p;
        var k := Known(cache, p);
        assert (k + [m])[..|k|] == k && k + [] == k;
        assert WalletTotal(k + [m]) == WalletTotal(k) + m.1;
      }
    }
  }

  lemma TriedPrefix(cache: set<string>, d: nat, wallets: seq<(string, nat)>, j: nat)
    requires j <= |wallets|
    ensures Tried(cache, d, wallets[..j]) <= Tried(cache, d, wallets)
    ensures WalletTotal(Tried(cache, d, wallets[..j])) <= WalletTotal(wallets)
  {
    KnownPrefix(cache, wallets, j);
    WalletWeightBound(iset{}, wallets, j);
  }

  lemma {:induction false} LookupsPrefix(money: string -> Authority, max: nat, d: nat, wallets: seq<(string, nat)>, j: nat)
    requires j <= |wallets|
    ensures Lookups(money, max, d, wallets[..j]) <= Lookups(money, max, d, wallets)
    decreases |wallets|
  {
    if j < |wallets| {
      LookupsPrefix(money, max, d, wallets[..|wallets| - 1], j);
      assert wallets[..|wallets| - 1][..j] == wallets[..j];
    } else {
      assert wallets[..j] == wallets;
    }
  }

  /** On the last level the wallets outside the cache add nothing. */
  lemma {:induction false} KnownWeight(world: World, wallets: seq<(string, nat)>)
    ensures WalletWeightAt(world, 0, Known(world.base, wallets)) == WalletWeightAt(world, 0, wallets)
  {
    if wallets != [] {
      var p, m := wallets[..|wallets| - 1], wallets[|wallets| - 1];
      KnownWeight(world, p);
      var k := Known(world.base, p);
      WeightSnoc(world, 0, k, m);
      WeightSnoc(world, 0, p, m);
      assert p + [m] == wallets && k + [] == k;
    }
  }

  lemma WeightSnoc(world: World, d: nat, t: seq<(string, nat)>, m: (string, nat))
    ensures WalletWeightAt(world, d, t + [m]) == WalletWeightAt(world, d, t) + if WalletSatAt(world, d, m.0) then m.1 else 0
    ensures WalletWeight(SatWallets(world), t + [m])
            == WalletWeight(SatWallets(world), t) + if WalletSatisfied(world, m.0) then m.1 else 0
    ensures WalletTotal(t + [m]) == WalletTotal(t) + m.1
  {
    assert (t + [m])[..|t|] == t;
    var (a, w) := m;
  }

  lemma {:induction false} WeightPrefix(world: World, d: nat, wallets: seq<(string, nat)>, j: nat)
    requires j <= |wallets|
    ensures WalletWeightAt(world, d, wallets[..j]) <= WalletWeightAt(world, d, wallets)
    decreases |wallets|
  {
    if j < |wallets| {
      var p, m := wallets[..|wallets| - 1], wallets[|wallets| - 1];
      WeightPrefix(world, d, p, j);
      WeightSnoc(world, d, p, m);
      assert p[..j] == wallets[..j] && p + [m] == wallets;
    } else {
      assert wallets[..j] == wallets;
    }
  }

  /** What the first members satisfy, the considered ones satisfy too. */
  lemma ConsideredSat(world: World, d: nat, max: nat, auth: Authority)
    requires SatAt(world, d, Cut(max, auth))
    ensures SatAt(world, d, Considered(world.base, d, max, auth))
  {
    if d == 0 {
      var c, e := Cut(max, auth), Considered(world.base, d, max, auth);
      var n := |c.walletAuths|;
      KnownWeight(world, c.walletAuths);
      KnownPrefix(world.base, auth.walletAuths, n);
      if max == 0 {
        KnownWeight(world, auth.walletAuths);
      } else {
        assert c.walletAuths == auth.walletAuths[..n];
        var k := Known(world.base, c.walletAuths);
        assert k <= e.walletAuths;
        WeightPrefix(world, 0, e.walletAuths, |k|);
        assert e.walletAuths[..|k|] == k;
      }
    }
  }

  // ---------- the checker ----------

  function KeyTotal(auths: seq<(Key, nat)>): nat {
    if auths == [] then 0 else KeyTotal(auths[..|auths| - 1]) + auths[|auths| - 1].1
  }

  function WalletTotal(auths: seq<(string, nat)>): nat {
    if auths == [] then 0 else WalletTotal(auths[..|auths| - 1]) + auths[|auths| - 1].1
  }

  /** All the weights together fit the 32-bit accumulator. */
  predicate Light(auth: Authority) {
    KeyTotal(auth.keyAuths) + WalletTotal(auth.walletAuths) < TWO_32
  }

  lemma {:induction false} KeyWeightBound(keys: set<Key>, auths: seq<(Key, nat)>, i: nat)
    requires i <= |auths|
    ensures KeyWeight(keys, auths[..i]) <= KeyWeight(keys, auths)
    ensures KeyTotal(auths[..i]) <= KeyTotal(auths)
    ensures KeyWeight(keys, auths) <= KeyTotal(auths)
    decreases |auths|
  {
    if auths != [] {
      var p := auths[..|auths| - 1];
      var (k, w) := auths[|auths| - 1];
      if i < |auths| {
        KeyWeightBound(keys, p, i);
        assert p[..i] == auths[..i];
      } else {
        KeyWeightBound(keys, p, |p|);
        assert auths[..i] == auths;
      }
    }
  }

  lemma {:induction false} WalletWeightBound(ok: iset<string>, auths: seq<(string, nat)>, i: nat)
    requires i <= |auths|
    ensures WalletWeight(ok, auths[..i]) <= WalletWeight(ok, auths)
    ensures WalletTotal(auths[..i]) <= WalletTotal(auths)
    ensures WalletWeight(ok, auths) <= WalletTotal(auths)
    decreases |auths|
  {
    if auths != [] {
      var p := auths[..|auths| - 1];
      var (a, w) := auths[|auths| - 1];
      if i < |auths| {
        WalletWeightBound(ok, p, i);
        assert p[..i] == auths[..i];
      } else {
        WalletWeightBound(ok, p, |p|);
        assert auths[..i] == auths;
      }
    }
  }

  lemma KeyWeightNext(keys: set<Key>, auths: seq<(Key, nat)>, i: nat)
    requires i < |auths|
    ensures KeyWeight(keys, auths[..i + 1]) == KeyWeight(keys, auths[..i]) + if auths[i].0 in keys then auths[i].1 else 0
    ensures KeyTotal(auths[..i + 1]) == KeyTotal(auths[..i]) + auths[i].1
  {
    assert auths[..i + 1][..i] == auths[..i];
    var (k, w) := auths[i];
  }

  lemma WalletSatisfiedMono(world: World, world': World, a: string)
    requires Weaker(world, world') && WalletSatisfied(world, a)
    ensures WalletSatisfied(world', a)
  {
    var d: nat :| WalletSatAt(world, d, a);
    WalletSatMono(world, world', d, d, a);
  }

  /** Weights that reach the threshold over satisfied keys and wallets satisfy the authority. */
  lemma Reaches(world: World, auth: Authority, total: nat, i: nat, j: nat)
    requires i <= |auth.keyAuths| && j <= |auth.walletAuths|
    requires total <= KeyWeight(world.keys, auth.keyAuths[..i]) + WalletWeight(SatWallets(world), auth.walletAuths[..j])
    requires total >= auth.threshold
    ensures Satisfied(world, auth)
  {
    KeyWeightBound(world.keys, auth.keyAuths, i);
    WalletWeightBound(SatWallets(world), auth.walletAuths, j);
    SatisfiedFixpoint(world, auth);
  }

  lemma NoKeys(used: set<Key>, signable: set<Key>, auth: Authority)
    ensures KeyWeight(used, auth.keyAuths[..0]) == KeyWeight(signable, auth.keyAuths[..0]) == 0
    ensures WalletWeight(iset{}, auth.walletAuths[..0]) == 0
  {
  }

  /** What adding one more key to a running total does to its bounds. */
  lemma KeyRound(used: set<Key>, used': set<Key>, signable: set<Key>, auth: Authority, i: nat, total: nat)
    requires i < |auth.keyAuths| && used <= used' && total <= KeyWeight(used, auth.keyAuths[..i])
    requires auth.keyAuths[i].0 in used' <==> auth.keyAuths[i].0 in signable
    ensures total <= KeyWeight(used', auth.keyAuths[..i + 1])
    ensures auth.keyAuths[i].0 in signable ==> (total + auth.keyAuths[i].1) % TWO_32 <= KeyWeight(used', auth.keyAuths[..i + 1])
    ensures Light(auth) && total == KeyWeight(signable, auth.keyAuths[..i]) ==>
              KeyWeight(signable, auth.keyAuths[..i + 1])
              == if auth.keyAuths[i].0 in signable then (total + auth.keyAuths[i].1) % TWO_32 else total
  {
    KeyWeightMono(used, used', auth.keyAuths[..i]);
    KeyWeightNext(used', auth.keyAuths, i);
    KeyWeightNext(signable, auth.keyAuths, i);
    KeyWeightBound(signable, auth.keyAuths, i + 1);
  }

  /** The bounds that the wallet loop keeps on its running total over the wallets `t`: never above what the used
      keys and the satisfied wallets are worth, and, if nothing wraps, never below what `d` levels give. */
  ghost predicate Between(used: World, full: World, d: nat, auth: Authority, t: seq<(string, nat)>, total: nat) {
    && total <= KeyWeight(used.keys, auth.keyAuths) + WalletWeight(SatWallets(used), t)
    && (Light(auth) ==> total >= KeyWeight(full.keys, auth.keyAuths) + WalletWeightAt(full, d, t))
  }

  lemma WalletRound(used: World, used': World, full: World, d: nat, auth: Authority, t: seq<(string, nat)>,
                    m: (string, nat), total: nat, counted: bool)
    requires Weaker(used, used') && (Light(auth) ==> KeyTotal(auth.keyAuths) + WalletTotal(t + [m]) < TWO_32)
    requires total <= KeyWeight(used.keys, auth.keyAuths) + WalletWeight(SatWallets(used), t)
    requires counted ==> WalletSatisfied(used', m.0)
    ensures var total' := if counted then (total + m.1) % TWO_32 else total;
            && total' <= KeyWeight(used'.keys, auth.keyAuths) + WalletWeight(SatWallets(used'), t + [m])
            && (Between(used, full, d, auth, t, total) && (WalletSatAt(full, d, m.0) ==> counted)
                ==> Between(used', full, d, auth, t + [m], total'))
  {
    hide KeyWeight, KeyTotal, WalletWeight, WalletWeightAt, WalletTotal, WalletSatAt, WalletSatisfied;
    UsedGrows(used, used', auth, t);
    WeightSnoc(used', d, t, m);
    WeightSnoc(full, d, t, m);
    KeyWeightBound(used.keys, auth.keyAuths, 0);
    WalletWeightBound(SatWallets(used), t, 0);
  }

  lemma UsedGrows(used: World, used': World, auth: Authority, t: seq<(string, nat)>)
    requires Weaker(used, used')
    ensures KeyWeight(used.keys, auth.keyAuths) <= KeyWeight(used'.keys, auth.keyAuths)
    ensures WalletWeight(SatWallets(used), t) <= WalletWeight(SatWallets(used'), t)
  {
    hide KeyWeight, WalletWeight, WalletSatisfied;
    forall a | a in SatWallets(used) ensures a in SatWallets(used') {
      WalletSatisfiedMono(used, used', a);
    }
    KeyWeightMono(used.keys, used'.keys, auth.keyAuths);
    WalletWeightMono(SatWallets(used), SatWallets(used'), t);
  }

  /** The two forms of `check_authority`. */
  datatype Check = ByWallet(id: string) | ByAuthority(auth: Authority, depth: Word32, count: nat)

  datatype MemberVerdict = Counted | NotCounted | Skipped | OverLimit

  datatype KeyVerdict = Accept | Reject | Undecided

  class SignState {
    const money: string -> Authority
    const available: set<Key>
    var provided: map<Key, bool>
    var approvedBy: set<string>
    var maxRecursion: Word32
    var maxMembership: nat
    var maxWalletAuths: nat
    /** How often the authority of a wallet has been looked up. */
    ghost var lookups: nat

    /** The signatures that some check has asked for. */
    ghost function Used(): set<Key>
      reads `provided
    {
      set k | k in provided && provided[k]
    }

    /** The keys that are or could be signed with. */
    ghost function Signable(): set<Key>
      reads `provided
    {
      provided.Keys + available
    }

    ghost function WorldOf(keys: set<Key>): World {
      World(money, keys, {"temp"})
    }

    /** The world as the limits leave it: every wallet has only its first members, and what is cached holds. */
    ghost function Limited(keys: set<Key>, cache: set<string>): World
      reads `maxMembership
    {
      World(CutMoney(maxMembership, money), keys, cache)
    }

    /** The cache only holds wallets that the signatures used so far satisfy. */
    ghost predicate Valid()
      reads `provided, `approvedBy
    {
      && Used() <= Signable() && "temp" in approvedBy
      && forall a :: a in approvedBy ==> WalletSatisfied(WorldOf(Used()), a)
    }

    constructor (sigs: set<Key>, money: string -> Authority, keys: set<Key>)
      ensures Valid() && Used() == {} && Signable() == sigs + keys && this.money == money && approvedBy == {"temp"}
      ensures maxRecursion == MAX_SIG_CHECK_DEPTH && maxMembership == maxWalletAuths == TWO_32 - 1
    {
      this.money, available := money, keys;
      provided := map k | k in sigs :: false;
      approvedBy := {"temp"};
      maxRecursion, maxMembership, maxWalletAuths := MAX_SIG_CHECK_DEPTH, TWO_32 - 1, TWO_32 - 1;
      new;
      assert Used() == {};
      assert WalletSatAt(WorldOf(Used()), 0, "temp");
    }

    /** `signed_by`. */
    method SignedBy(k: Key) returns (r: bool)
      requires Valid()
      modifies this`provided
      ensures Valid() && Signable() == old(Signable())
      ensures r <==> k in Signable()
      ensures Used() == if r then old(Used()) + {k} else old(Used())
    {
      ghost var before := WorldOf(Used());
      if k !in provided {
        if k in available {
          provided := provided[k := true];
          r := true;
        } else {
          r := false;
        }
      } else {
        provided := provided[k := true];
        r := true;
      }
      assert Used() == if r then before.keys + {k} else before.keys;
      CacheGrown(before);
    }

    lemma CacheGrown(before: World)
      requires Weaker(before, WorldOf(Used())) && Used() <= Signable() && "temp" in approvedBy
      requires forall a :: a in approvedBy ==> WalletSatisfied(before, a)
      ensures Valid()
    {
      forall a | a in approvedBy ensures WalletSatisfied(WorldOf(Used()), a) {
        WalletSatisfiedMono(before, WorldOf(Used()), a);
      }
    }

    /** The key loop of `check_authority_impl`. */
    method CheckKeys(auth: Authority) returns (verdict: KeyVerdict, total: nat, membership: nat)
      requires Valid()
      modifies this`provided
      ensures Valid() && Signable() == old(Signable()) && old(Used()) <= Used()
      ensures verdict == Accept ==> forall t :: Satisfied(WorldOf(Used()), Cut(maxMembership, auth.(walletAuths := t)))
      ensures verdict == Reject <==> verdict != Accept && 0 < maxMembership <= |auth.keyAuths|
      ensures verdict == Undecided ==> membership == |auth.keyAuths| && total <= KeyWeight(Used(), auth.keyAuths)
      ensures verdict != Accept ==> (total == 0 || total < auth.threshold)
      ensures verdict != Accept && Light(auth) ==> total == KeyWeight(Signable(), Cut(maxMembership, auth).keyAuths)
    {
      hide KeyWeight, KeyTotal, WalletTotal, Light, Valid, Satisfied;
      total, membership := 0, 0;
      NoKeys(Used(), Signable(), auth);
      for i := 0 to |auth.keyAuths|
        invariant Valid() && Signable() == old(Signable()) && old(Used()) <= Used()
        invariant total <= KeyWeight(Used(), auth.keyAuths[..i])
        invariant Light(auth) ==> total == KeyWeight(Signable(), auth.keyAuths[..i])
        invariant membership == i && (maxMembership == 0 || membership < maxMembership) && (total == 0 || total < auth.threshold)
      {
        var (k, w) := auth.keyAuths[i];
        ghost var used := Used();
        var signed := SignedBy(k);
        KeyRound(used, Used(), Signable(), auth, i, total);
        if signed {
          total := (total + w) % TWO_32;
          if total >= auth.threshold {
            ReachesByKeys(WorldOf(Used()), maxMembership, auth, total, i + 1);
            return Accept, total, membership;
          }
        }
        membership := membership + 1;
        if maxMembership > 0 && membership >= maxMembership {
          return Reject, total, membership;
        }
      }
      assert auth.keyAuths[..|auth.keyAuths|] == auth.keyAuths;
      verdict := Undecided;
    }

    /** `check_authority` for a wallet. */
    method CheckWallet(id: string) returns (ok: bool)
      requires Valid()
      modifies this`provided, this`approvedBy, this`lookups
      ensures Valid() && Signable() == old(Signable()) && old(Used()) <= Used() && old(approvedBy) <= approvedBy
      ensures ok ==> WalletSatisfied(WorldOf(Used()), id)
      ensures Roomy(money(id), 0, 1) && WalletSatAt(Limited(Signable(), old(approvedBy)), Levels(0) + 1, id) ==> ok
      ensures maxWalletAuths > 0 && lookups > old(lookups) ==> lookups - old(lookups) < maxWalletAuths
    {
      hide Valid, Roomy, SatAt, Satisfied;
      if id in approvedBy {
        CacheHasTemp();
        return true;
      }
      var accepted, _ := CheckImpl(money(id), 0, 1);
      ok := accepted;
      if ok {
        WalletToo(WorldOf(Used()), id);
      }
    }

    /** `check_authority` for an authority, from any depth and count. */
    method CheckAuthority(auth: Authority, depth: Word32, count: nat) returns (ok: bool)
      requires Valid()
      modifies this`provided, this`approvedBy, this`lookups
      ensures Valid() && Signable() == old(Signable()) && old(Used()) <= Used() && old(approvedBy) <= approvedBy
      ensures ok ==> Satisfied(WorldOf(Used()), auth)
      ensures Roomy(auth, depth, count) && SatAt(Limited(Signable(), old(approvedBy)), Levels(depth), Cut(maxMembership, auth)) ==> ok
      ensures FirstKeys(Signable(), maxMembership, auth) ==> ok
      ensures maxWalletAuths > 0 && lookups > old(lookups) ==> count + lookups - old(lookups) <= maxWalletAuths
    {
      hide Valid, Roomy, SatAt, Satisfied, FirstKeys;
      var accepted, _ := CheckImpl(auth, depth, count);
      ok := accepted;
    }

    /** What a check asks, in a given world. */
    ghost predicate Holds(world: World, c: Check) {
      match c
      case ByWallet(id) => WalletSatisfied(world, id)
      case ByAuthority(auth, _, _) => Satisfied(world, auth)
    }

    /** What a check must not miss: the keys alone suffice, or the limits are wide enough for what is asked. */
    ghost predicate Owed(keys: set<Key>, c: Check)
      reads `maxMembership, `maxWalletAuths, `maxRecursion
    {
      match c
      case ByWallet(id) => Roomy(money(id), 0, 1) && WalletSatAt(Limited(keys, {"temp"}), Levels(0) + 1, id)
      case ByAuthority(auth, depth, count) =>
        || FirstKeys(keys, maxMembership, auth)
        || (Roomy(auth, depth, count) && SatAt(Limited(keys, {"temp"}), Levels(depth), Cut(maxMembership, auth)))
    }

    method CheckOne(c: Check) returns (ok: bool)
      requires Valid()
      modifies this`provided, this`approvedBy, this`lookups
      ensures Valid() && Signable() == old(Signable()) && old(Used()) <= Used()
      ensures ok ==> Holds(WorldOf(Used()), c)
      ensures Owed(Signable(), c) ==> ok
    {
      hide Valid, WalletSatisfied, WalletSatAt, Satisfied, SatAt, Light, Roomy, FirstKeys;
      CacheHasTemp();
      ghost var cached := Limited(Signable(), approvedBy);
      match c
      case ByWallet(id) =>
        if Owed(Signable(), c) {
          WalletSatMono(Limited(Signable(), {"temp"}), cached, Levels(0) + 1, Levels(0) + 1, id);
        }
        ok := CheckWallet(id);
      case ByAuthority(auth, depth, count) =>
        if Owed(Signable(), c) && !FirstKeys(Signable(), maxMembership, auth) {
          SatMono(Limited(Signable(), {"temp"}), cached, Levels(depth), Levels(depth), Cut(maxMembership, auth));
        }
        ok := CheckAuthority(auth, depth, count);
    }

    lemma HoldsMono(world: World, world': World, c: Check)
      requires Weaker(world, world') && Holds(world, c)
      ensures Holds(world', c)
    {
      hide WalletSatisfied, SatAt;
      match c
      case ByWallet(id) => WalletSatisfiedMono(world, world', id);
      case ByAuthority(auth, _, _) =>
        var d: nat :| SatAt(world, d, auth);
        SatMono(world, world', d, d, auth);
    }

    /** A whole run of checks, by wallet or by authority, that share the cache: every one that accepts is right,
        and stays right. */
    method CheckAll(checks: seq<Check>) returns (verdicts: seq<bool>)
      requires Valid()
      modifies this`provided, this`approvedBy, this`lookups
      ensures Valid() && Signable() == old(Signable()) && |verdicts| == |checks|
      ensures forall i :: 0 <= i < |checks| && verdicts[i] ==> Holds(WorldOf(Used()), checks[i])
      ensures forall i :: 0 <= i < |checks| && Owed(Signable(), checks[i]) ==> verdicts[i]
    {
      hide Valid, Holds, Owed;
      verdicts := [];
      for n := 0 to |checks|
        invariant Valid() && Signable() == old(Signable()) && |verdicts| == n
        invariant forall i :: 0 <= i < n && verdicts[i] ==> Holds(WorldOf(Used()), checks[i])
        invariant forall i :: 0 <= i < n && Owed(Signable(), checks[i]) ==> verdicts[i]
      {
        ghost var used := WorldOf(Used());
        var ok := CheckOne(checks[n]);
        forall i | 0 <= i < n && verdicts[i] ensures Holds(WorldOf(Used()), checks[i]) {
          HoldsMono(used, WorldOf(Used()), checks[i]);
        }
        verdicts := verdicts + [ok];
      }
    }

    /** `remove_unused_signatures`: true if there were any.  What the cache holds does not depend on them. */
    method RemoveUnused() returns (removed: bool)
      requires Valid()
      modifies this`provided
      ensures Valid() && Used() == old(Used()) && Signable() == old(Used()) + available
      ensures removed <==> old(provided).Keys != old(Used())
    {
      var unused := set k | k in provided && !provided[k];
      ghost var before := WorldOf(Used());
      removed := unused != {};
      assert provided.Keys == Used() + unused;
      provided := provided - unused;
      assert Used() == before.keys;
    }

    /** How many levels the recursion can go down from a depth: the 32-bit depth counts up, around zero if it
        has to, until it meets the limit. */
    function Levels(depth: Word32): nat
      reads this`maxRecursion
    {
      if depth <= maxRecursion then maxRecursion - depth else maxRecursion + TWO_32 - depth
    }

    /** The limits are wide enough for an authority: no weights wrap around, no authority without a threshold is
        as long as the member limit, and the wallets to look up are within their limit. */
    ghost predicate Roomy(auth: Authority, depth: Word32, count: nat)
      reads `maxMembership, `maxWalletAuths, `maxRecursion
    {
      && Light(auth) && Fair(maxMembership, auth) && Orderly()
      && (maxWalletAuths == 0
          || count + Lookups(money, maxMembership, Levels(depth), Cut(maxMembership, auth).walletAuths) <= maxWalletAuths)
    }

    ghost predicate Orderly()
      reads `maxMembership
    {
      forall a :: Light(money(a)) && Fair(maxMembership, money(a))
    }

    /** `check_authority_impl`: what it accepts is satisfied by the signatures it has used, through the members
        it considers; and it accepts what these satisfy within the depth, the limits permitting. */
    method CheckImpl(auth: Authority, depth: Word32, count: nat) returns (ok: bool, count': nat)
      requires Valid()
      modifies this`provided, this`approvedBy, this`lookups
      ensures Valid() && Signable() == old(Signable()) && old(Used()) <= Used() && old(approvedBy) <= approvedBy
      ensures Right(WorldOf(Used()), Limited(Signable(), old(approvedBy)), Levels(depth), maxMembership, auth, Roomy(auth, depth, count), ok)
      ensures count' - count == lookups - old(lookups)
      ensures count <= count' <= count + Lookups(money, maxMembership, Levels(depth), Cut(maxMembership, auth).walletAuths)
      ensures maxWalletAuths > 0 && count' > count ==> count' <= maxWalletAuths
      decreases Levels(depth), 2
    {
      hide Valid, KeyWeight, Satisfied, Light, Cut, Considered, Right, Midway, Lookups, Tried, Roomy, Orderly, RoomFor, MemberLookups;
      RoomyIsLight(auth, depth, count);
      count' := count;
      ghost var full, d: nat, roomy := Limited(Signable(), approvedBy), Levels(depth), Roomy(auth, depth, count);
      ghost var all := Cut(maxMembership, auth).walletAuths;
      var verdict: KeyVerdict, total: nat, membership: nat := CheckKeys(auth);
      if verdict != Undecided {
        ok := verdict == Accept;
        KeysDecide(WorldOf(Used()), full, d, maxMembership, auth, total, roomy, ok);
        return;
      }
      ghost var t: seq<(string, nat)> := [];
      Start(WorldOf(Used()), full, d, maxMembership, auth, total, roomy);
      NoLookups(money, maxMembership, d);
      for j := 0 to |auth.walletAuths|
        invariant Valid() && Signable() == old(Signable()) && old(Used()) <= Used() && old(approvedBy) <= approvedBy
        invariant t == Tried(full.base, d, auth.walletAuths[..j]) && (d == 0 ==> approvedBy == full.base)
        invariant membership == |auth.keyAuths| + |t|
        invariant Midway(WorldOf(Used()), full, d, maxMembership, auth, t, total, roomy)
        invariant count' - count == lookups - old(lookups)
        invariant count <= count' <= count + Lookups(money, maxMembership, d, t) <= count + Lookups(money, maxMembership, d, all)
        invariant maxWalletAuths > 0 && count' > count ==> count' <= maxWalletAuths
      {
        ghost var m := auth.walletAuths[j];
        MidwayRoom(WorldOf(Used()), full, d, maxMembership, auth, t, m, j, total, roomy);
        NextLookup(auth, depth, count, count', t, m);
        TriedNext(full.base, d, auth.walletAuths, j);
        verdict, total, membership, count' := CheckRound(auth, depth, j, total, membership, count', full.base, t, roomy);
        if verdict != Undecided {
          return verdict == Accept, count';
        }
        t := Tried(full.base, d, auth.walletAuths[..j + 1]);
      }
      AllKeys(auth);
      ok := total >= auth.threshold;
      MidwayEnd(WorldOf(Used()), full, d, maxMembership, auth, total, roomy);
    }

    lemma RoomyIsLight(auth: Authority, depth: Word32, count: nat)
      ensures Roomy(auth, depth, count) ==> Light(auth) && Fair(maxMembership, auth)
    {
    }

    /** What the next wallet can add to the lookups. */
    lemma NextLookup(auth: Authority, depth: Word32, count: nat, count': nat, t: seq<(string, nat)>, m: (string, nat))
      requires Levels(depth) > 0 ==> t + [m] <= Cut(maxMembership, auth).walletAuths
      requires count' <= count + Lookups(money, maxMembership, Levels(depth), t)
      ensures Roomy(auth, depth, count) ==> Orderly() && RoomFor(m.0, depth, count')
      ensures Lookups(money, maxMembership, Levels(depth), t + [m])
              == Lookups(money, maxMembership, Levels(depth), t) + if Levels(depth) == 0 then 0 else MemberLookups(m.0, depth)
      ensures Lookups(money, maxMembership, Levels(depth), t + [m])
              <= Lookups(money, maxMembership, Levels(depth), Cut(maxMembership, auth).walletAuths)
    {
      hide Lookups, Cut, Light;
      LookupsStep(money, maxMembership, Levels(depth), Cut(maxMembership, auth).walletAuths, t, m);
    }

    /** One round of the wallet loop of `check_authority_impl`. */
    method CheckRound(auth: Authority, depth: Word32, j: nat, total: nat, membership: nat, count: nat,
                      ghost cache: set<string>, ghost t: seq<(string, nat)>, ghost roomy: bool)
      returns (verdict: KeyVerdict, total': nat, membership': nat, count': nat)
      requires Valid() && j < |auth.walletAuths| && t == Tried(cache, Levels(depth), auth.walletAuths[..j])
      requires cache <= approvedBy && (Levels(depth) == 0 ==> approvedBy == cache) && membership == |auth.keyAuths| + |t|
      requires Midway(WorldOf(Used()), Limited(Signable(), cache), Levels(depth), maxMembership, auth, t, total, roomy)
      requires roomy ==> Orderly() && RoomFor(auth.walletAuths[j].0, depth, count)
      modifies this`provided, this`approvedBy, this`lookups
      ensures Valid() && Signable() == old(Signable()) && old(Used()) <= Used() && old(approvedBy) <= approvedBy
      ensures verdict != Undecided ==>
                Right(WorldOf(Used()), Limited(Signable(), cache), Levels(depth), maxMembership, auth, roomy, verdict == Accept)
      ensures verdict == Undecided ==>
                var t' := Tried(cache, Levels(depth), auth.walletAuths[..j + 1]);
                && membership' == |auth.keyAuths| + |t'| && (Levels(depth) == 0 ==> approvedBy == cache)
                && Midway(WorldOf(Used()), Limited(Signable(), cache), Levels(depth), maxMembership, auth, t', total', roomy)
      ensures count' - count == lookups - old(lookups)
      ensures count <= count' <= count + if Levels(depth) == 0 then 0 else MemberLookups(auth.walletAuths[j].0, depth)
      ensures maxWalletAuths > 0 && count' > count ==> count' <= maxWalletAuths
      decreases Levels(depth), 1
    {
      hide Valid, Right, Midway, Lookups, Tried, Orderly, WalletSatAt, WalletSatisfied, RoomFor, MemberLookups;
      total', membership' := total, membership;
      var (a, w) := auth.walletAuths[j];
      ghost var m, used, full, d: nat := auth.walletAuths[j], WorldOf(Used()), Limited(Signable(), cache), Levels(depth);
      TriedNext(cache, d, auth.walletAuths, j);
      if WalletSatAt(full, d, a) {
        WalletSatMono(full, Limited(Signable(), approvedBy), d, d, a);
      }
      var member: MemberVerdict;
      member, count' := CheckMember(a, depth, count);
      if member == OverLimit {
        MidwayKeeps(used, WorldOf(Used()), full, d, maxMembership, auth, t, total, roomy);
        return Reject, total', membership', count';
      }
      if member == Skipped {
        MidwayKeeps(used, WorldOf(Used()), full, d, maxMembership, auth, t, total, roomy);
        return Undecided, total', membership', count';
      }
      MidwayStep(used, WorldOf(Used()), full, d, maxMembership, auth, t, m, j, total, roomy, member == Counted);
      if member == Counted {
        total' := (total' + w) % TWO_32;
        if total' >= auth.threshold {
          return Accept, total', membership', count';
        }
      }
      membership' := membership' + 1;
      verdict := if maxMembership > 0 && membership' >= maxMembership then Reject else Undecided;
    }

    /** One wallet of an authority: in the cache, skipped at the depth limit, over the lookup limit, or checked
        in its turn and remembered. */
    method CheckMember(a: string, depth: Word32, count: nat) returns (member: MemberVerdict, count': nat)
      requires Valid()
      modifies this`provided, this`approvedBy, this`lookups
      ensures Valid() && Signable() == old(Signable()) && old(Used()) <= Used() && old(approvedBy) <= approvedBy
      ensures Levels(depth) == 0 ==> approvedBy == old(approvedBy) && member == if a in approvedBy then Counted else Skipped
      ensures Levels(depth) > 0 ==> member != Skipped
      ensures member == Counted ==> WalletSatisfied(WorldOf(Used()), a)
      ensures RoomFor(a, depth, count) ==> member != OverLimit
      ensures RoomFor(a, depth, count) && Orderly() && WalletSatAt(Limited(Signable(), old(approvedBy)), Levels(depth), a) ==> member == Counted
      ensures count' - count == lookups - old(lookups)
      ensures count <= count' <= count + if Levels(depth) == 0 then 0 else MemberLookups(a, depth)
      ensures maxWalletAuths > 0 && count' > count ==> count' <= maxWalletAuths
      decreases Levels(depth), 0
    {
      hide Valid, Satisfied, SatAt, Light, WalletSatisfied, Lookups;
      count' := count;
      CacheHasTemp();
      if a in approvedBy {
        return Counted, count';
      }
      if depth == maxRecursion {
        return Skipped, count';
      }
      if maxWalletAuths > 0 && count' >= maxWalletAuths {
        return OverLimit, count';
      }
      count' := count' + 1;
      lookups := lookups + 1;
      var ok;
      ok, count' := CheckImpl(money(a), (depth + 1) % TWO_32, count');
      if ok {
        Approve(a);
      }
      member := if ok then Counted else NotCounted;
    }

    /** What looking up a wallet can cost. */
    ghost function MemberLookups(a: string, depth: Word32): nat
      reads `maxMembership, `maxRecursion
      requires Levels(depth) > 0
    {
      1 + Lookups(money, maxMembership, Levels(depth) - 1, Cut(maxMembership, money(a)).walletAuths)
    }

    ghost predicate RoomFor(a: string, depth: Word32, count: nat)
      reads `maxMembership, `maxRecursion, `maxWalletAuths
    {
      maxWalletAuths == 0 || Levels(depth) == 0 || count + MemberLookups(a, depth) <= maxWalletAuths
    }

    lemma CacheHasTemp()
      requires Valid()
      ensures "temp" in approvedBy
      ensures forall a :: a in approvedBy ==> WalletSatisfied(WorldOf(Used()), a)
    {
    }

    /** Remember an approved wallet. */
    method Approve(a: string)
      requires Valid() && Satisfied(WorldOf(Used()), money(a))
      modifies this`approvedBy
      ensures Valid() && approvedBy == old(approvedBy) + {a} && WalletSatisfied(WorldOf(Used()), a)
    {
      ghost var d: nat :| SatAt(WorldOf(Used()), d, money(a));
      assert WalletSatAt(WorldOf(Used()), d + 1, a);
      approvedBy := approvedBy + {a};
    }
  }

  /** What a check of `auth` with `d` levels to go owes: it is right about the members it considers when it
      accepts, and it accepts when these, or the first keys alone, suffice. */
  ghost predicate Right(used: World, full: World, d: nat, max: nat, auth: Authority, roomy: bool, ok: bool) {
    && (ok ==> Satisfied(used, auth) && Satisfied(used, Considered(full.base, d, max, auth)))
    && (roomy && SatAt(full, d, Considered(full.base, d, max, auth)) ==> ok)
    && (roomy && SatAt(full, d, Cut(max, auth)) ==> ok)
    && (FirstKeys(full.keys, max, auth) ==> ok)
  }

  /** The signed keys among the first members suffice. */
  predicate FirstKeys(keys: set<Key>, max: nat, auth: Authority) {
    Light(auth) && 0 < auth.threshold <= KeyWeight(keys, Cut(max, auth).keyAuths)
  }

  /** Any few first keys will do. */
  lemma FirstKeysSuffice(keys: set<Key>, max: nat, auth: Authority, n: nat)
    requires Light(auth) && n <= |auth.keyAuths| && (max == 0 || n <= max)
    requires 0 < auth.threshold <= KeyWeight(keys, auth.keyAuths[..n])
    ensures FirstKeys(keys, max, auth)
  {
    hide KeyWeight, Light;
    var c := Cut(max, auth).keyAuths;
    KeyWeightBound(keys, c, n);
    assert c[..n] == auth.keyAuths[..n];
  }

  /** The state of the wallet loop after the wallets `t`: the threshold is not reached, the member limit neither. */
  ghost predicate Midway(used: World, full: World, d: nat, max: nat, auth: Authority, t: seq<(string, nat)>, total: nat, roomy: bool) {
    && (max == 0 || |auth.keyAuths| + |t| < max) && (total == 0 || total < auth.threshold)
    && total <= KeyWeight(used.keys, auth.keyAuths) + WalletWeight(SatWallets(used), t)
    && (roomy ==> Light(auth) && Fair(max, auth) && Between(used, full, d, auth, t, total))
    && !FirstKeys(full.keys, max, auth)
  }

  /** Whatever satisfies the considered members satisfies the authority. */
  lemma ConsideredWeaker(world: World, cache: set<string>, d: nat, max: nat, auth: Authority)
    requires Satisfied(world, Considered(cache, d, max, auth))
    ensures Satisfied(world, auth)
  {
    hide KeyWeight, WalletWeight, Satisfied;
    var e, sat := Considered(cache, d, max, auth), SatWallets(world);
    SatisfiedFixpoint(world, e);
    SatisfiedFixpoint(world, auth);
    KeyWeightBound(world.keys, auth.keyAuths, |e.keyAuths|);
    var tried := Tried(cache, d, auth.walletAuths);
    WalletWeightBound(sat, tried, |e.walletAuths|);
    KnownAtMost(sat, cache, auth.walletAuths);
    assert max > 0 ==> e.keyAuths == auth.keyAuths[..|e.keyAuths|] && e.walletAuths == tried[..|e.walletAuths|];
  }

  lemma {:induction false} KnownAtMost(ok: iset<string>, cache: set<string>, wallets: seq<(string, nat)>)
    ensures WalletWeight(ok, Known(cache, wallets)) <= WalletWeight(ok, wallets)
  {
    if wallets != [] {
      var p, m := wallets[..|wallets| - 1], wallets[|wallets| - 1];
      KnownAtMost(ok, cache, p);
      var k := Known(cache, p);
      var (a, w) := m;
      assert (k + [m])[..|k|] == k && k + [] == k;
      assert WalletWeight(ok, k + [m]) == WalletWeight(ok, k) + if a in ok then w else 0;
    }
  }

  /** The verdicts of the key loop. */
  lemma KeysDecide(used: World, full: World, d: nat, max: nat, auth: Authority, total: nat, roomy: bool, ok: bool)
    requires ok ==> forall t :: Satisfied(used, Cut(max, auth.(walletAuths := t)))
    requires !ok ==> 0 < max <= |auth.keyAuths| && (total == 0 || total < auth.threshold)
    requires !ok && Light(auth) ==> total == KeyWeight(full.keys, Cut(max, auth).keyAuths)
    requires roomy ==> Light(auth) && Fair(max, auth)
    ensures Right(used, full, d, max, auth, roomy, ok)
  {
    hide Satisfied, Light, KeyWeight, Tried;
    if ok {
      var e := Cut(max, auth.(walletAuths := Tried(full.base, d, auth.walletAuths)));
      assert Satisfied(used, e);
      ConsideredWeaker(used, full.base, d, max, auth);
    } else {
      var e, c := Considered(full.base, d, max, auth), Cut(max, auth);
      assert e.walletAuths == c.walletAuths == [] && e.keyAuths == c.keyAuths;
      assert WalletWeightAt(full, d, []) == 0;
    }
  }

  lemma Start(used: World, full: World, d: nat, max: nat, auth: Authority, total: nat, roomy: bool)
    requires (max == 0 || |auth.keyAuths| < max) && (total == 0 || total < auth.threshold)
    requires total <= KeyWeight(used.keys, auth.keyAuths)
    requires Light(auth) ==> total == KeyWeight(full.keys, Cut(max, auth).keyAuths)
    requires roomy ==> Light(auth) && Fair(max, auth)
    ensures Midway(used, full, d, max, auth, [], total, roomy) && auth.walletAuths[..0] == [] == Tried(full.base, d, [])
  {
    assert Cut(max, auth).keyAuths == auth.keyAuths;
  }

  lemma NoLookups(money: string -> Authority, max: nat, d: nat)
    ensures Lookups(money, max, d, []) == 0
  {
  }

  /** While the member limit is not reached the next wallet is among the considered ones. */
  lemma MidwayRoom(used: World, full: World, d: nat, max: nat, auth: Authority, t: seq<(string, nat)>, m: (string, nat), j: nat,
                   total: nat, roomy: bool)
    requires Midway(used, full, d, max, auth, t, total, roomy)
    requires j < |auth.walletAuths| && m == auth.walletAuths[j] && t == Tried(full.base, d, auth.walletAuths[..j])
    ensures d > 0 ==> t + [m] <= Cut(max, auth).walletAuths
  {
  }

  lemma LookupsStep(money: string -> Authority, max: nat, d: nat, all: seq<(string, nat)>, t: seq<(string, nat)>, m: (string, nat))
    requires d > 0 ==> t + [m] <= all
    ensures Lookups(money, max, d, t + [m])
            == Lookups(money, max, d, t) + if d == 0 then 0 else 1 + Lookups(money, max, d - 1, Cut(max, money(m.0)).walletAuths)
    ensures Lookups(money, max, d, t + [m]) <= Lookups(money, max, d, all)
  {
    assert (t + [m])[..|t|] == t;
    if d > 0 {
      LookupsPrefix(money, max, d, all, |t| + 1);
      assert all[..|t| + 1] == t + [m];
    }
  }

  /** A wallet that is not considered leaves everything as it is. */
  lemma MidwayKeeps(used: World, used': World, full: World, d: nat, max: nat, auth: Authority, t: seq<(string, nat)>, total: nat,
                    roomy: bool)
    requires Midway(used, full, d, max, auth, t, total, roomy) && Weaker(used, used')
    ensures Midway(used', full, d, max, auth, t, total, roomy)
    ensures !roomy ==> Right(used', full, d, max, auth, roomy, false)
  {
    hide KeyWeight, WalletWeight, WalletWeightAt, Light, SatWallets, SatAt, Considered;
    UsedGrows(used, used', auth, t);
  }

  function Added(total: nat, m: (string, nat), counted: bool): nat {
    if counted then (total + m.1) % TWO_32 else total
  }

  /** A considered wallet decides the matter, or the loop goes on. */
  lemma MidwayStep(used: World, used': World, full: World, d: nat, max: nat, auth: Authority, t: seq<(string, nat)>, m: (string, nat),
                   j: nat, total: nat, roomy: bool, counted: bool)
    requires Midway(used, full, d, max, auth, t, total, roomy) && Weaker(used, used')
    requires j < |auth.walletAuths| && m == auth.walletAuths[j] && t == Tried(full.base, d, auth.walletAuths[..j])
    requires d > 0 || m.0 in full.base
    requires counted ==> WalletSatisfied(used', m.0)
    requires roomy && WalletSatAt(full, d, m.0) ==> counted
    ensures var total' := Added(total, m, counted);
            if counted && total' >= auth.threshold then Right(used', full, d, max, auth, roomy, true)
            else if max > 0 && |auth.keyAuths| + |t| + 1 >= max then Right(used', full, d, max, auth, roomy, false)
            else Midway(used', full, d, max, auth, t + [m], total', roomy)
  {
    hide KeyWeight, WalletWeight, WalletWeightAt, SatWallets, SatAt, WalletSatAt, WalletSatisfied, Satisfied, Right;
    var t', total' := t + [m], Added(total, m, counted);
    TriedNext(full.base, d, auth.walletAuths, j);
    TriedPrefix(full.base, d, auth.walletAuths, j + 1);
    WalletRound(used, used', full, d, auth, t, m, total, counted);
    if counted && total' >= auth.threshold {
      Accepted(used', full, d, max, auth, t', total', roomy);
    } else if max > 0 && |auth.keyAuths| + |t| + 1 >= max {
      Rejected(used', full, d, max, auth, t', total', roomy);
    }
  }

  lemma Accepted(used: World, full: World, d: nat, max: nat, auth: Authority, t: seq<(string, nat)>, total: nat, roomy: bool)
    requires t <= Tried(full.base, d, auth.walletAuths) && (max == 0 || |auth.keyAuths| + |t| <= max)
    requires auth.threshold <= total <= KeyWeight(used.keys, auth.keyAuths) + WalletWeight(SatWallets(used), t)
    ensures Right(used, full, d, max, auth, roomy, true)
  {
    hide KeyWeight, WalletWeight, SatWallets, Satisfied, SatAt, Tried;
    var e := Considered(full.base, d, max, auth);
    assert e.keyAuths == auth.keyAuths;
    assert e.walletAuths[..|t|] == t;
    AllKeys(auth);
    Reaches(used, e, total, |e.keyAuths|, |t|);
    ConsideredWeaker(used, full.base, d, max, auth);
  }

  lemma Rejected(used: World, full: World, d: nat, max: nat, auth: Authority, t: seq<(string, nat)>, total: nat, roomy: bool)
    requires t <= Tried(full.base, d, auth.walletAuths) && |auth.keyAuths| + |t| == max > 0 && !FirstKeys(full.keys, max, auth)
    requires total == 0 || total < auth.threshold
    requires roomy ==> Light(auth) && Fair(max, auth) && Between(used, full, d, auth, t, total)
    ensures Right(used, full, d, max, auth, roomy, false)
  {
    hide KeyWeight, WalletWeight, WalletWeightAt, SatWallets, Tried, Light, KeyTotal, WalletTotal;
    var e := Considered(full.base, d, max, auth);
    assert e.walletAuths == t && e.keyAuths == auth.keyAuths;
    if roomy {
      if SatAt(full, d, Cut(max, auth)) {
        ConsideredSat(full, d, max, auth);
      }
    }
  }

  /** All wallets have been looked at. */
  lemma MidwayEnd(used: World, full: World, d: nat, max: nat, auth: Authority, total: nat, roomy: bool)
    requires Midway(used, full, d, max, auth, Tried(full.base, d, auth.walletAuths), total, roomy)
    ensures Right(used, full, d, max, auth, roomy, total >= auth.threshold)
  {
    hide KeyWeight, WalletWeight, WalletWeightAt, SatWallets, Tried, Light, KeyTotal, WalletTotal, Satisfied;
    var t := Tried(full.base, d, auth.walletAuths);
    if total >= auth.threshold {
      Accepted(used, full, d, max, auth, t, total, roomy);
    } else {
      var e := Considered(full.base, d, max, auth);
      assert e.walletAuths == t && e.keyAuths == auth.keyAuths;
      if SatAt(full, d, Cut(max, auth)) {
        ConsideredSat(full, d, max, auth);
      }
    }
  }

  /** An authority met by its first members through the keys is met with any wallets. */
  lemma ReachesByKeys(world: World, max: nat, auth: Authority, total: nat, i: nat)
    requires i <= |auth.keyAuths| && (max == 0 || i <= max)
    requires auth.threshold <= total <= KeyWeight(world.keys, auth.keyAuths[..i])
    ensures forall t :: Satisfied(world, Cut(max, auth.(walletAuths := t)))
  {
    hide KeyWeight, Satisfied;
    forall t: seq<(string, nat)> ensures Satisfied(world, Cut(max, auth.(walletAuths := t))) {
      var e := Cut(max, auth.(walletAuths := t));
      assert e.keyAuths[..i] == auth.keyAuths[..i];
      assert e.walletAuths[..0] == [];
      Reaches(world, e, total, i, 0);
    }
  }

  lemma WalletToo(world: World, a: string)
    requires Satisfied(world, world.money(a))
    ensures WalletSatisfied(world, a)
  {
    var d: nat :| SatAt(world, d, world.money(a));
    assert WalletSatAt(world, d + 1, a);
  }

  lemma AllKeys(auth: Authority)
    ensures auth.keyAuths[..|auth.keyAuths|] == auth.keyAuths
    ensures auth.walletAuths[..|auth.walletAuths|] == auth.walletAuths
  {
  }
}
