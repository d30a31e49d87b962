/** Which blocks a syncing node wants, has asked for and has received, over all its peers. */
module SyncNodes {
  import opened Blocks
  import opened Collections
  import opened Synopses

  type PeerId = nat

  datatype Peer = Peer(connected: bool, outstanding: set<BlockId>, wanted: seq<BlockId>, processing: set<BlockId>,
                       asked: Option<seq<BlockId>>, unfetched: nat, lastSeen: BlockId,
                       inhibited: bool, needed: bool, peerNeeds: bool, knownFork: nat)

  /** What the node asks the chain: does it have a block, its synopsis up to a reference point (None where
      that is beyond the undo history), does it accept a block, does a block start a hard fork that a peer
      with a given last known fork is too old for. */
  datatype Delegate = Delegate(hasItem: BlockId -> bool, chain: (BlockId, nat) -> Option<seq<BlockId>>, accepts: BlockId -> bool,
                               outgrown: (nat, BlockId) -> bool)

  predicate Consecutive(ids: seq<BlockId>) {
    ids != [] ==> Numbered(ids, ids[0].num)
  }

  lemma ConsecutiveSlice(ids: seq<BlockId>, i: nat, j: nat)
    requires Consecutive(ids) && i <= j <= |ids|
    ensures Consecutive(ids[i..j])
  {
  }

  // ---------- who was asked for what ----------

  function Out(peers: map<PeerId, Peer>): map<PeerId, set<BlockId>> {
    map p | p in peers :: peers[p].outstanding
  }

  /** Every block outstanding with a peer is a requested one, no block is outstanding with two peers, and
      no peer has more than its share. */
  ghost predicate Assigned(out: map<PeerId, set<BlockId>>, requested: set<BlockId>, limit: nat) {
    && (forall p :: p in out ==> out[p] <= requested && |out[p]| <= limit)
    && (forall p, q :: p in out && q in out && p != q ==> out[p] !! out[q])
  }

  /** Requested blocks nobody has been asked for any more. */
  ghost function Leaked(out: map<PeerId, set<BlockId>>, requested: set<BlockId>): set<BlockId> {
    set b | b in requested && (forall p :: p in out ==> b !in out[p])
  }

  lemma Lends(out: map<PeerId, set<BlockId>>, requested: set<BlockId>, limit: nat, p: PeerId, items: set<BlockId>)
    requires Assigned(out, requested, limit) && p in out && items !! requested && |out[p]| + |items| <= limit
    ensures Assigned(out[p := out[p] + items], requested + items, limit)
    ensures Leaked(out[p := out[p] + items], requested + items) == Leaked(out, requested)
  {
    var out' := out[p := out[p] + items];
    assert |out[p] + items| <= |out[p]| + |items|;
    forall b ensures b in Leaked(out', requested + items) <==> b in Leaked(out, requested) {
      if b in Leaked(out', requested + items) {
        assert b !in out'[p];
        forall q | q in out ensures b !in out[q] {
          assert b !in out'[q];
        }
      }
    }
  }

  lemma Returns(out: map<PeerId, set<BlockId>>, requested: set<BlockId>, limit: nat, p: PeerId, b: BlockId)
    requires Assigned(out, requested, limit) && p in out && b in out[p]
    ensures Assigned(out[p := out[p] - {b}], requested - {b}, limit)
    ensures Leaked(out[p := out[p] - {b}], requested - {b}) == Leaked(out, requested)
  {
    var out' := out[p := out[p] - {b}];
    forall c ensures c in Leaked(out', requested - {b}) <==> c in Leaked(out, requested) {
      if c in Leaked(out', requested - {b}) {
        forall q | q in out ensures c !in out[q] {
          assert c !in out'[q];
        }
      }
    }
  }

  lemma Loses(out: map<PeerId, set<BlockId>>, requested: set<BlockId>, limit: nat, p: PeerId, b: BlockId)
    requires Assigned(out, requested, limit) && p in out && b in out[p]
    ensures Assigned(out[p := out[p] - {b}], requested, limit)
    ensures Leaked(out[p := out[p] - {b}], requested) == Leaked(out, requested) + {b}
  {
    var out' := out[p := out[p] - {b}];
    forall c ensures c in Leaked(out', requested) <==> c in Leaked(out, requested) + {b} {
      if c in Leaked(out', requested) && c != b {
        forall q | q in out ensures c !in out[q] {
          assert c !in out'[q];
        }
      }
    }
  }

  lemma Leaves(out: map<PeerId, set<BlockId>>, requested: set<BlockId>, limit: nat, p: PeerId)
    requires Assigned(out, requested, limit) && p in out
    ensures Assigned(out - {p}, requested - out[p], limit)
    ensures Leaked(out - {p}, requested - out[p]) == Leaked(out, requested)
  {
    forall c ensures c in Leaked(out - {p}, requested - out[p]) <==> c in Leaked(out, requested) {
      if c in Leaked(out - {p}, requested - out[p]) {
        forall q | q in out ensures c !in out[q] {
          assert q != p ==> q in out - {p} && c !in (out - {p})[q];
        }
      }
    }
  }

  lemma Joins(out: map<PeerId, set<BlockId>>, requested: set<BlockId>, limit: nat, p: PeerId)
    requires Assigned(out, requested, limit) && p !in out
    ensures Assigned(out[p := {}], requested, limit) && Leaked(out[p := {}], requested) == Leaked(out, requested)
  {
    forall c ensures c in Leaked(out[p := {}], requested) <==> c in Leaked(out, requested) {
      if c in Leaked(out[p := {}], requested) {
        forall q | q in out ensures c !in out[q] {
          assert c !in out[p := {}][q];
        }
      }
    }
  }

  // ---------- announced ids ----------

  /** A reply builds on the synopsis it answers. */
  predicate Fits(synopsis: seq<BlockId>, ids: seq<BlockId>) {
    ids == [] || (Consecutive(ids) && if synopsis == [] then ids[0].num == 1 else ids[0] in synopsis)
  }

  predicate UpToDate(peer: Peer, ids: seq<BlockId>, remaining: nat, d: Delegate) {
    remaining == 0 && (ids == [] || (|ids| == 1 && d.hasItem(ids[0]))) && peer.wanted == [] && peer.unfetched == 0
  }

  function Unseen(ids: seq<BlockId>, d: Delegate): seq<BlockId> {
    if ids != [] && d.hasItem(ids[0]) then Unseen(ids[1..], d) else ids
  }

  /** The old list, popped from the back until it meets the new one. */
  function Splice(wanted: seq<BlockId>, ids: seq<BlockId>): seq<BlockId>
    requires ids != []
  {
    if wanted == [] then ids[1..]
    else if wanted[|wanted| - 1] == ids[0] then wanted[..|wanted| - 1] + ids
    else Splice(wanted[..|wanted| - 1], ids)
  }

  function Announced(wanted: seq<BlockId>, ids: seq<BlockId>, firstElsewhere: bool, d: Delegate): seq<BlockId> {
    if ids == [] then wanted
    else if wanted == [] then if firstElsewhere then ids else Unseen(ids, d)
    else Splice(wanted, ids)
  }

  lemma {:induction false} UnseenIs(ids: seq<BlockId>, d: Delegate)
    ensures |Unseen(ids, d)| <= |ids| && Unseen(ids, d) == ids[|ids| - |Unseen(ids, d)|..]
    ensures Unseen(ids, d) != [] ==> !d.hasItem(Unseen(ids, d)[0])
    ensures forall i :: 0 <= i < |ids| - |Unseen(ids, d)| ==> d.hasItem(ids[i])
  {
    if ids != [] && d.hasItem(ids[0]) {
      UnseenIs(ids[1..], d);
    }
  }

  /** The list that results: the old one up to where the new one takes over, or the new one without the
      block both sides already know. */
  lemma {:induction false} SpliceIs(wanted: seq<BlockId>, ids: seq<BlockId>, k: nat)
    requires ids != [] && Consecutive(wanted)
    ensures ids[0] !in wanted ==> Splice(wanted, ids) == ids[1..]
    ensures k < |wanted| && wanted[k] == ids[0] ==> Splice(wanted, ids) == wanted[..k] + ids
  {
    if wanted != [] {
      var rest := wanted[..|wanted| - 1];
      ConsecutiveSlice(wanted, 0, |wanted| - 1);
      SpliceIs(rest, ids, k);
      if k < |rest| {
        assert rest[..k] == wanted[..k];
      }
    }
  }

  lemma {:induction false} SpliceConsecutive(wanted: seq<BlockId>, ids: seq<BlockId>)
    requires ids != [] && Consecutive(ids) && Consecutive(wanted)
    ensures Consecutive(Splice(wanted, ids))
  {
    if wanted != [] {
      ConsecutiveSlice(wanted, 0, |wanted| - 1);
      if wanted[|wanted| - 1] != ids[0] {
        SpliceConsecutive(wanted[..|wanted| - 1], ids);
      }
    }
  }

  lemma AnnouncedConsecutive(wanted: seq<BlockId>, ids: seq<BlockId>, firstElsewhere: bool, d: Delegate)
    requires Consecutive(ids) && Consecutive(wanted)
    ensures Consecutive(Announced(wanted, ids, firstElsewhere, d))
  {
    if ids != [] {
      SpliceConsecutive(wanted, ids);
      UnseenIs(ids, d);
      ConsecutiveSlice(ids, |ids| - |Unseen(ids, d)|, |ids|);
      assert ids[|ids| - |Unseen(ids, d)|..|ids|] == ids[|ids| - |Unseen(ids, d)|..];
    }
  }

  /** The last announced block that was flushed as known already. */
  function LastFlushed(peer: Peer, ids: seq<BlockId>, firstElsewhere: bool, d: Delegate): BlockId {
    if ids == [] then peer.lastSeen
    else if peer.wanted == [] then
      if firstElsewhere then peer.lastSeen else LastSeen(ids, d, peer.lastSeen)
    else if ids[0] in peer.wanted then peer.lastSeen else ids[0]
  }

  function LastSeen(ids: seq<BlockId>, d: Delegate, last: BlockId): BlockId {
    if ids != [] && d.hasItem(ids[0]) then LastSeen(ids[1..], d, ids[0]) else last
  }

  // ---------- what the handlers make of a peer ----------

  /** A request for more ids: not while one is under way; the connection goes if no synopsis can be given. */
  function NextBatch(peer: Peer, d: Delegate): Peer {
    if peer.asked.Some? then peer
    else
      match d.chain(peer.lastSeen, |peer.wanted|)
      case None => peer.(connected := false)
      case Some(chain) =>
        match SynopsisOf(chain, peer.lastSeen, peer.wanted)
        case Built(synopsis) => peer.(asked := Some(synopsis))
        case TooOldFork => peer.(connected := false)
        case OutOfRange => peer
  }

  /** A request for more ids starts from the last block seen: without a list the synopsis is the chain's own one, and
      without a synopsis the connection goes. */
  lemma NextBatchMeans(peer: Peer, d: Delegate)
    requires peer.asked.None?
    ensures var next, chain := NextBatch(peer, d), d.chain(peer.lastSeen, |peer.wanted|);
            && next == peer.(asked := next.asked, connected := next.connected)
            && (chain == None || (chain == Some([]) && peer.lastSeen != NULL_ID) ==> next.asked == None && !next.connected)
            && (chain.Some? && (chain.value != [] || peer.lastSeen == NULL_ID) ==>
                  next.connected == peer.connected && (peer.wanted == [] ==> next.asked == chain))
  {
  }

  /** The last block seen moves to the last flushed one, or to the block a list starts from that does not meet the old one. */
  lemma LastFlushedMeans(peer: Peer, ids: seq<BlockId>, firstElsewhere: bool, d: Delegate, n: nat)
    requires ids != []
    ensures peer.wanted != [] ==> LastFlushed(peer, ids, firstElsewhere, d) == if ids[0] in peer.wanted then peer.lastSeen else ids[0]
    ensures peer.wanted == [] && firstElsewhere ==> LastFlushed(peer, ids, firstElsewhere, d) == peer.lastSeen
    ensures peer.wanted == [] && !firstElsewhere && n <= |ids| && (forall i :: 0 <= i < n ==> d.hasItem(ids[i])) && (n < |ids| ==> !d.hasItem(ids[n])) ==>
              LastFlushed(peer, ids, firstElsewhere, d) == if n == 0 then peer.lastSeen else ids[n - 1]
  {
    if n <= |ids| && (forall i :: 0 <= i < n ==> d.hasItem(ids[i])) && (n < |ids| ==> !d.hasItem(ids[n])) {
      LastSeenIs(ids, d, peer.lastSeen, n);
    }
  }

  lemma {:induction false} LastSeenIs(ids: seq<BlockId>, d: Delegate, last: BlockId, n: nat)
    requires n <= |ids| && (forall i :: 0 <= i < n ==> d.hasItem(ids[i])) && (n < |ids| ==> !d.hasItem(ids[n]))
    ensures LastSeen(ids, d, last) == if n == 0 then last else ids[n - 1]
  {
    if n > 0 {
      LastSeenIs(ids[1..], d, ids[0], n - 1);
    }
  }

  /** The synopsis fails its range assertion. */
  predicate Throws(peer: Peer, d: Delegate) {
    && peer.asked.None? && d.chain(peer.lastSeen, |peer.wanted|).Some?
    && SynopsisOf(d.chain(peer.lastSeen, |peer.wanted|).value, peer.lastSeen, peer.wanted) == OutOfRange
  }

  function Restarted(peer: Peer, d: Delegate): Peer {
    NextBatch(peer.(wanted := [], unfetched := 0, needed := true, lastSeen := NULL_ID, inhibited := false), d)
  }

  /** A proper reply. */
  function Answered(peer: Peer, ids: seq<BlockId>, remaining: nat, firstElsewhere: bool, d: Delegate): Peer {
    if UpToDate(peer, ids, remaining, d) then peer.(asked := None, needed := false)
    else
      var next := peer.(asked := None, wanted := Announced(peer.wanted, ids, firstElsewhere, d),
                        lastSeen := LastFlushed(peer, ids, firstElsewhere, d), unfetched := remaining);
      if remaining != 0 then NextBatch(next, d) else next
  }

  /** Any reply. */
  function Informed(peer: Peer, ids: seq<BlockId>, remaining: nat, firstElsewhere: bool, d: Delegate): Peer {
    if peer.asked.None? then peer
    else if !Fits(peer.asked.value, ids) then peer.(connected := false)
    else Answered(peer, ids, remaining, firstElsewhere, d)
  }

  /** A block it does not have. */
  function Failing(peer: Peer, b: BlockId): Peer {
    if b !in peer.outstanding then peer
    else
      var less := peer.(outstanding := peer.outstanding - {b});
      if peer.peerNeeds then less.(inhibited := true) else less.(connected := false)
  }

  lemma FailingMeans(peer: Peer, b: BlockId)
    ensures var owed := b in peer.outstanding;
            Failing(peer, b)
            == peer.(outstanding := peer.outstanding - {b}, connected := peer.connected && (!owed || peer.peerNeeds),
                     inhibited := peer.inhibited || (owed && peer.peerNeeds))
    ensures b !in peer.outstanding ==> Failing(peer, b) == peer
  {
    assert b !in peer.outstanding ==> peer.outstanding - {b} == peer.outstanding;
  }

  /** A block it was asked for.  When the request for more ids throws, the message ends up among those nobody
      asked for, which costs the connection unless the block is known. */
  function Served(peer: Peer, b: BlockId, known: bool, d: Delegate): Peer {
    var less := peer.(outstanding := peer.outstanding - {b});
    if peer.unfetched == 0 then less
    else if Throws(less, d) && !known then less.(connected := false)
    else NextBatch(less, d)
  }

  /** A peer that has delivered a block no longer owes it, and is asked for more ids if it has some. */
  lemma ServedMeans(peer: Peer, b: BlockId, known: bool, d: Delegate)
    ensures var next := Served(peer, b, known, d);
            && next.outstanding == peer.outstanding - {b} && next.wanted == peer.wanted && next.processing == peer.processing
            && next.lastSeen == peer.lastSeen && next.needed == peer.needed && next.unfetched == peer.unfetched
            && (peer.unfetched == 0 || peer.asked.Some? ==> next.asked == peer.asked && next.connected == peer.connected)
            && (peer.unfetched > 0 ==> next.asked.Some? || !next.connected || known)
  {
    hide SynopsisOf;
  }

  /** Same requests, and the same list or none. */
  ghost predicate Steady(peer: Peer, peer': Peer) {
    peer'.outstanding == peer.outstanding && (peer'.wanted == peer.wanted || peer'.wanted == [])
  }

  lemma NextBatchSteady(peer: Peer, d: Delegate)
    ensures Steady(peer, NextBatch(peer, d)) && Steady(peer, Restarted(peer, d))
    ensures NextBatch(peer, d).wanted == peer.wanted && NextBatch(peer, d).outstanding == peer.outstanding
  {
  }

  lemma InformedKeeps(peer: Peer, ids: seq<BlockId>, remaining: nat, firstElsewhere: bool, d: Delegate)
    requires Consecutive(peer.wanted)
    ensures var next := Informed(peer, ids, remaining, firstElsewhere, d);
            next.outstanding == peer.outstanding && Consecutive(next.wanted)
  {
    hide Announced, SynopsisOf, Consecutive;
    if peer.asked.Some? && Fits(peer.asked.value, ids) {
      FitsConsecutive(peer.asked.value, ids);
      AnnouncedConsecutive(peer.wanted, ids, firstElsewhere, d);
    }
  }

  /** A run of blocks that starts with one of the synopsis, or with block 1 if that is empty. */
  lemma FitsIff(synopsis: seq<BlockId>, ids: seq<BlockId>)
    requires ids != []
    ensures Fits(synopsis, ids) <==>
              && (forall i :: 0 <= i < |ids| ==> ids[i].num == ids[0].num + i)
              && ((synopsis == [] && ids[0].num == 1) || exists k :: 0 <= k < |synopsis| && synopsis[k] == ids[0])
  {
  }

  /** A further list takes over where it meets the old one, or drops the old one and the block it starts from. */
  lemma AnnouncedTakesOver(wanted: seq<BlockId>, ids: seq<BlockId>, firstElsewhere: bool, d: Delegate, k: nat)
    requires ids != [] && wanted != [] && Consecutive(wanted)
    ensures k < |wanted| && wanted[k] == ids[0] ==> Announced(wanted, ids, firstElsewhere, d) == wanted[..k] + ids
    ensures ids[0] !in wanted ==> Announced(wanted, ids, firstElsewhere, d) == ids[1..]
    ensures forall i :: 1 <= i < |ids| ==> ids[i] in Announced(wanted, ids, firstElsewhere, d)
  {
    hide Consecutive;
    SpliceIs(wanted, ids, k);
    if ids[0] in wanted {
      var j :| 0 <= j < |wanted| && wanted[j] == ids[0];
      SpliceIs(wanted, ids, j);
      forall i | 1 <= i < |ids| ensures ids[i] in Splice(wanted, ids) {
        assert (wanted[..j] + ids)[j + i] == ids[i];
      }
    } else {
      forall i | 1 <= i < |ids| ensures ids[i] in Splice(wanted, ids) {
        assert ids[1..][i - 1] == ids[i];
      }
    }
  }

  /** The `n` known blocks at the front of a first list are flushed, unless another peer is to provide them too. */
  lemma AnnouncedFirst(ids: seq<BlockId>, firstElsewhere: bool, d: Delegate) returns (n: nat)
    requires ids != []
    ensures n <= |ids| && Announced([], ids, firstElsewhere, d) == ids[n..] && (forall i :: 0 <= i < n ==> d.hasItem(ids[i]))
    ensures if firstElsewhere then n == 0 else n < |ids| ==> !d.hasItem(ids[n])
    ensures forall i :: 0 <= i < |ids| && !d.hasItem(ids[i]) ==> ids[i] in Announced([], ids, firstElsewhere, d)
  {
    UnseenIs(ids, d);
    n := if firstElsewhere then 0 else |ids| - |Unseen(ids, d)|;
    forall i | 0 <= i < |ids| && !d.hasItem(ids[i]) ensures ids[i] in ids[n..] {
      assert ids[n..][i - n] == ids[i];
    }
  }

  /** What a proper reply does to a peer besides its list. */
  lemma AnsweredMeans(peer: Peer, ids: seq<BlockId>, remaining: nat, firstElsewhere: bool, d: Delegate)
    ensures var next := Answered(peer, ids, remaining, firstElsewhere, d);
            var done := remaining == 0 && |ids| <= 1 && (forall b :: b in ids ==> d.hasItem(b)) && peer.wanted == [] && peer.unfetched == 0;
            && next.outstanding == peer.outstanding && next.processing == peer.processing
            && (next.needed <==> peer.needed && !done)
            && (remaining == 0 ==> next.connected == peer.connected && next.asked == None && next.unfetched == 0)
            && next.wanted == if done then [] else Announced(peer.wanted, ids, firstElsewhere, d)
  {
    hide Announced, SynopsisOf, LastFlushed;
    assert |ids| == 1 ==> ids == [ids[0]];
  }

  /** Everything after the first unknown block of an announced list is wanted. */
  lemma AnnouncedWanted(wanted: seq<BlockId>, ids: seq<BlockId>, firstElsewhere: bool, d: Delegate)
    requires ids != [] && Consecutive(wanted)
    ensures forall i, j :: 0 <= i <= j < |ids| && !d.hasItem(ids[i]) && (j > 0 || wanted == [] || ids[0] in wanted) ==>
              ids[j] in Announced(wanted, ids, firstElsewhere, d)
  {
    hide Announced;
    if wanted == [] {
      var n := AnnouncedFirst(ids, firstElsewhere, d);
      forall i, j | 0 <= i <= j < |ids| && !d.hasItem(ids[i]) ensures ids[j] in ids[n..] {
        assert ids[n..][j - n] == ids[j];
      }
    } else {
      AnnouncedTakesOver(wanted, ids, firstElsewhere, d, 0);
      if ids[0] in wanted {
        var k :| 0 <= k < |wanted| && wanted[k] == ids[0];
        AnnouncedTakesOver(wanted, ids, firstElsewhere, d, k);
        assert (wanted[..k] + ids)[k] == ids[0];
      }
    }
  }

  lemma InformedMeans(peer: Peer, ids: seq<BlockId>, remaining: nat, firstElsewhere: bool, d: Delegate)
    requires peer.asked.Some? && ids != [] && Consecutive(peer.wanted)
    ensures var next := Informed(peer, ids, remaining, firstElsewhere, d);
            var proper := && (forall i :: 0 <= i < |ids| ==> ids[i].num == ids[0].num + i)
                          && if peer.asked.value == [] then ids[0].num == 1 else ids[0] in peer.asked.value;
            && (!proper ==> next == peer.(connected := false))
            && (proper && remaining == 0 ==> next.connected == peer.connected)
            && (proper ==> forall i, j :: 0 <= i <= j < |ids| && !d.hasItem(ids[i]) && (j > 0 || peer.wanted == [] || ids[0] in peer.wanted)
                             ==> ids[j] in next.wanted)
  {
    FitsIff(peer.asked.value, ids);
    AnsweredMeans(peer, ids, remaining, firstElsewhere, d);
    AnnouncedWanted(peer.wanted, ids, firstElsewhere, d);
    hide Announced, Fits, Answered, Consecutive;
  }

  lemma InformedIs(peer: Peer, ids: seq<BlockId>, remaining: nat, firstElsewhere: bool, d: Delegate)
    ensures Informed(peer, ids, remaining, firstElsewhere, d)
            == if peer.asked.None? then peer
               else if !Fits(peer.asked.value, ids) then peer.(connected := false)
               else Answered(peer, ids, remaining, firstElsewhere, d)
  {
  }

  lemma FitsConsecutive(synopsis: seq<BlockId>, ids: seq<BlockId>)
    requires Fits(synopsis, ids)
    ensures Consecutive(ids)
  {
  }

  lemma OutPut(peers: map<PeerId, Peer>, p: PeerId, peer: Peer)
    ensures Out(peers[p := peer]) == Out(peers)[p := peer.outstanding]
    ensures p in peers && peer.outstanding == peers[p].outstanding ==> Out(peers[p := peer]) == Out(peers)
  {
  }

  lemma OutDrop(peers: map<PeerId, Peer>, p: PeerId)
    ensures Out(peers - {p}) == Out(peers) - {p} && (p in peers ==> Out(peers)[p] == peers[p].outstanding)
  {
  }

  lemma OutIs(peers: map<PeerId, Peer>, p: PeerId)
    requires p in peers
    ensures p in Out(peers) && Out(peers)[p] == peers[p].outstanding
  {
  }

  lemma InRequested(out: map<PeerId, set<BlockId>>, requested: set<BlockId>, limit: nat, p: PeerId, b: BlockId)
    requires Assigned(out, requested, limit) && p in out && b in out[p]
    ensures |requested - {b}| == |requested| - 1
  {
  }

  lemma NothingAdded(s: set<BlockId>)
    ensures s + {} == s
  {
  }

  lemma ConsecutiveIs(ids: seq<BlockId>)
    requires Consecutive(ids)
    ensures ids != [] ==> Numbered(ids, ids[0].num)
  {
  }

  lemma EmptyConsecutive()
    ensures Consecutive([])
  {
  }

  ghost predicate WantedOk(peers: map<PeerId, Peer>) {
    forall p :: p in peers ==> Consecutive(peers[p].wanted)
  }

  lemma WantedAt(peers: map<PeerId, Peer>, p: PeerId)
    requires WantedOk(peers) && p in peers
    ensures Consecutive(peers[p].wanted)
  {
  }

  lemma WantedPut(peers: map<PeerId, Peer>, p: PeerId, peer: Peer)
    requires WantedOk(peers) && Consecutive(peer.wanted)
    ensures WantedOk(peers[p := peer])
  {
  }

  function Elements(ids: seq<BlockId>): set<BlockId> {
    set b | b in ids
  }

  function PushRecent(recent: seq<BlockId>, b: BlockId, capacity: nat): seq<BlockId> {
    if capacity == 0 then recent else if |recent| < capacity then recent + [b] else recent[1..] + [b]
  }

  /** What a block at the front of a peer's list does to the peer. */
  function Popped(peer: Peer, b: BlockId): Peer {
    if Ready(peer, b) then peer.(wanted := peer.wanted[1..], processing := peer.processing + {b}) else peer
  }

  predicate Ready(peer: Peer, b: BlockId) {
    peer.connected && peer.wanted != [] && peer.wanted[0] == b
  }

  /** What an accepted block does to a peer that has it in processing. */
  function Seen(peer: Peer, b: BlockId, d: Delegate): Peer {
    if peer.connected && !d.outgrown(peer.knownFork, b) && b in peer.processing
    then peer.(lastSeen := b, processing := peer.processing - {b}) else peer
  }

  predicate Emptied(peer: Peer, b: BlockId, d: Delegate) {
    peer.connected && !d.outgrown(peer.knownFork, b) && b in peer.processing && peer.processing == {b}
  }

  /** In sync, with nothing to do: the peer must hear of the block. */
  predicate Idle(peer: Peer, b: BlockId, d: Delegate) {
    && !d.outgrown(peer.knownFork, b)
    && peer.connected && peer.wanted == [] && peer.processing == {} && !peer.peerNeeds && !peer.needed
  }

  function Asked(peer: Peer, emptied: bool, idle: bool, d: Delegate): Peer {
    var next := if emptied then NextBatch(peer, d) else peer;
    if idle then Restarted(next, d) else next
  }

  /** What an accepted block means for a peer. */
  function Notified(peer: Peer, b: BlockId, d: Delegate): Peer {
    Asked(Seen(peer, b, d), Emptied(peer, b, d), Idle(Seen(peer, b, d), b, d), d)
  }

  /** What a block accepted in normal operation means for a peer, by whether it had advertised the block. */
  function Welcomed(peer: Peer, b: BlockId, advertised: bool, d: Delegate): Peer {
    if !peer.connected then peer
    else
      var next := if advertised then peer.(lastSeen := b) else peer;
      if d.outgrown(peer.knownFork, b) then next.(connected := false) else next
  }

  lemma SeenSteady(peer: Peer, b: BlockId, d: Delegate)
    ensures Seen(peer, b, d).wanted == peer.wanted && Seen(peer, b, d).outstanding == peer.outstanding
    ensures Emptied(peer, b, d)
      <==> peer.connected && !d.outgrown(peer.knownFork, b) && b in peer.processing && Seen(peer, b, d).processing == {}
  {
    if peer.connected && !d.outgrown(peer.knownFork, b) && b in peer.processing && Seen(peer, b, d).processing == {} {
      assert peer.processing == Seen(peer, b, d).processing + {b};
    }
  }

  /** The buffer of recent blocks keeps the last `capacity` of them. */
  lemma PushRecentMeans(recent: seq<BlockId>, b: BlockId, capacity: nat)
    requires |recent| <= capacity
    ensures var all, r := recent + [b], PushRecent(recent, b, capacity);
            |r| == Min(capacity, |all|) && r == all[|all| - |r|..]
  {
  }

  /** Starting over: the list is dropped and a request is made, unless one is under way; the connection goes if
      that is not possible. */
  lemma RestartedMeans(peer: Peer, d: Delegate)
    ensures var next := Restarted(peer, d);
            && next.wanted == [] && next.unfetched == 0 && next.needed && !next.inhibited && next.lastSeen == NULL_ID
            && next.outstanding == peer.outstanding && next.processing == peer.processing && next.peerNeeds == peer.peerNeeds
            && (peer.asked.Some? ==> next.asked == peer.asked && next.connected == peer.connected)
            && (peer.asked.None? ==> (next.asked.None? <==> d.chain(NULL_ID, 0).None?)
                                     && next.connected == (peer.connected && next.asked.Some?))
  {
  }

  /** What an accepted block means for a peer, in the end: a peer that is gone, or too old for a hard fork the block
      starts, is passed over; any other is done with the block, and starts over if it is in sync with nothing to do. */
  lemma NotifiedMeans(peer: Peer, b: BlockId, d: Delegate)
    ensures var next, active := Notified(peer, b, d), peer.connected && !d.outgrown(peer.knownFork, b);
            var again := active && peer.wanted == [] && peer.processing - {b} == {} && !peer.peerNeeds && !peer.needed;
            && (!active ==> next == peer)
            && (active && !again && b !in peer.processing ==> next == peer)
            && (active ==> next.processing == peer.processing - {b} && next.wanted == peer.wanted && next.outstanding == peer.outstanding)
            && (next.needed <==> peer.needed || again)
            && next.lastSeen == (if again then NULL_ID else if active && b in peer.processing then b else peer.lastSeen)
            && (active && !again && peer.processing != {b} ==> next.asked == peer.asked && next.connected == peer.connected)
            && (active && (again || peer.processing == {b}) ==>
                  next.asked.Some? || !next.connected || Throws(Seen(peer, b, d), d))
  {
    hide SynopsisOf;
    SeenSteady(peer, b, d);
    RestartedMeans(NextBatch(Seen(peer, b, d), d), d);
    RestartedMeans(Seen(peer, b, d), d);
    hide Restarted;
    assert b !in peer.processing ==> peer.processing - {b} == peer.processing;
  }

  lemma AskedSteady(peer: Peer, emptied: bool, idle: bool, d: Delegate)
    ensures Steady(peer, Asked(peer, emptied, idle, d))
  {
    hide NextBatch, Restarted;
    NextBatchSteady(peer, d);
    NextBatchSteady(NextBatch(peer, d), d);
  }

  lemma NotifiedSteady(peer: Peer, b: BlockId, d: Delegate)
    ensures Steady(peer, Notified(peer, b, d))
  {
    hide Asked, Idle, Seen;
    SeenSteady(peer, b, d);
    AskedSteady(Seen(peer, b, d), Emptied(peer, b, d), Idle(Seen(peer, b, d), b, d), d);
  }

  datatype Verdict = Accepted | Unlinkable | Rejected

  /** Everything that can happen to a syncing node, each handler running without interruption. */
  datatype Event =
    | Connecting(p: PeerId, peerNeeds: bool, knownFork: nat, d: Delegate)
    | Closing(p: PeerId)
    | Fetching
    | Unavailable(p: PeerId, b: BlockId)
    | Arriving(p: PeerId, b: BlockId, normal: bool, verdict: Verdict, advertised: set<PeerId>, d: Delegate)
    | Working(d: Delegate)
    | Announcing(p: PeerId, ids: seq<BlockId>, remaining: nat, d: Delegate)
    | Restarting(p: PeerId, d: Delegate)
    | TimingOut(p: PeerId)

  class Node {
    const maxPerPeer: nat
    const maxPrefetch: nat
    const maxAtOnce: nat
    const recentCapacity: nat
    var requested: set<BlockId>
    var newReceived: seq<BlockId>
    var received: seq<BlockId>
    var accepted: seq<BlockId>
    var peers: map<PeerId, Peer>

    ghost predicate Valid()
      reads this
    {
      BooksOk() && WantedOk(peers)
    }

    ghost predicate BooksOk()
      reads this
    {
      Assigned(Out(peers), requested, maxPerPeer) && |requested| + |newReceived| <= maxPrefetch + 1
    }

    /** What the invariant on requests is about. */
    ghost function Books(): (map<PeerId, set<BlockId>>, set<BlockId>, seq<BlockId>)
      reads this
    {
      (Out(peers), requested, newReceived)
    }

    ghost function Lost(): set<BlockId>
      reads this
    {
      Leaked(Out(peers), requested)
    }

    constructor (perPeer: nat, prefetch: nat, atOnce: nat, capacity: nat)
      ensures Valid() && peers == map[] && Lost() == {}
    {
      maxPerPeer, maxPrefetch, maxAtOnce, recentCapacity := perPeer, prefetch, atOnce, capacity;
      requested, newReceived, received, accepted, peers := {}, [], [], [], map[];
    }

    predicate HaveAlready(b: BlockId)
      reads this
    {
      b in received || b in newReceived || b in accepted
    }

    // ---------- connections ----------

    /** A change to a peer that leaves its requests alone. */
    method Store(p: PeerId, peer: Peer)
      requires p in peers && peer.outstanding == peers[p].outstanding && Consecutive(peer.wanted) && WantedOk(peers)
      modifies `peers
      ensures peers == old(peers)[p := peer] && Out(peers) == old(Out(peers)) && WantedOk(peers)
    {
      OutPut(peers, p, peer);
      peers := peers[p := peer];
    }

    /** Asks a peer for the ids that follow what it has announced; `threw` when the synopsis cannot be built. */
    method FetchNextBatch(p: PeerId, d: Delegate) returns (threw: bool)
      requires p in peers && WantedOk(peers)
      modifies `peers
      ensures peers == old(peers)[p := NextBatch(old(peers)[p], d)] && threw == Throws(old(peers)[p], d)
      ensures Out(peers) == old(Out(peers)) && WantedOk(peers)
      ensures var was, peer := old(peers)[p], peers[p];
              peer.asked != was.asked && peer.wanted != [] ==>
                peer.asked.Some? && peer.asked.value != [] && peer.asked.value[|peer.asked.value| - 1] == peer.wanted[|peer.wanted| - 1]
    {
      hide Out, SynopsisOf, Consecutive, WantedOk;
      threw := false;
      var peer := peers[p];
      WantedAt(peers, p);
      if peer.asked.Some? {
        assert peers == peers[p := peer];
        return;
      }
      var chain := d.chain(peer.lastSeen, |peer.wanted|);
      if chain.None? {
        Store(p, peer.(connected := false));
        return;
      }
      ConsecutiveIs(peer.wanted);
      var r := CreateSynopsis(chain.value, peer.lastSeen, peer.wanted);
      match r
      case Built(synopsis) => Store(p, peer.(asked := Some(synopsis)));
      case TooOldFork => Store(p, peer.(connected := false));
      case OutOfRange =>
        threw := true;
        assert peers == peers[p := peer];
    }

    method StartSynchronizing(p: PeerId, d: Delegate)
      requires p in peers && WantedOk(peers)
      modifies `peers
      ensures peers == old(peers)[p := Restarted(old(peers)[p], d)]
      ensures Out(peers) == old(Out(peers)) && WantedOk(peers)
    {
      hide Out, NextBatch, WantedOk, Consecutive;
      EmptyConsecutive();
      var threw;
      Store(p, peers[p].(wanted := [], unfetched := 0, needed := true, lastSeen := NULL_ID, inhibited := false));
      threw := FetchNextBatch(p, d);
      assert !threw; // there are no announced ids to be out of range
    }

    /** A new connection. */
    method Connect(p: PeerId, peerNeeds: bool, knownFork: nat, d: Delegate)
      requires Valid() && p !in peers
      modifies `peers
      ensures Valid() && Lost() == old(Lost())
      ensures peers == old(peers)[p := Restarted(Peer(true, {}, [], {}, None, 0, NULL_ID, false, false, peerNeeds, knownFork), d)]
    {
      var peer := Peer(true, {}, [], {}, None, 0, NULL_ID, false, false, peerNeeds, knownFork);
      OutPut(peers, p, peer);
      Joins(Out(peers), requested, maxPerPeer, p);
      EmptyConsecutive();
      WantedPut(peers, p, peer);
      hide Assigned, Leaked, Out, WantedOk, Consecutive, Restarted;
      peers := peers[p := peer];
      StartSynchronizing(p, d);
    }

    /** A closed connection: what it still owed can be asked of others. */
    method Close(p: PeerId)
      requires Valid() && p in peers
      modifies `peers, `requested
      ensures Valid() && Lost() == old(Lost())
      ensures peers == old(peers) - {p} && requested == old(requested) - old(peers)[p].outstanding
    {
      Leaves(Out(peers), requested, maxPerPeer, p);
      OutDrop(peers, p);
      hide Assigned, Leaked, Out;
      var owed := peers[p].outstanding;
      var rest := owed;
      while rest != {}
        invariant rest <= owed && requested == old(requested) - (owed - rest) && peers == old(peers)
        decreases rest
      {
        var b :| b in rest;
        requested := requested - {b};
        rest := rest - {b};
      }
      assert requested <= old(requested);
      SubsetSize(requested, old(requested));
      peers := peers - {p};
    }

    // ---------- replies ----------

    /** A peer that lacks a block: the block is no longer outstanding with it, but it stays requested. */
    method ItemNotAvailable(p: PeerId, b: BlockId)
      requires Valid() && p in peers
      modifies `peers
      ensures Valid() && peers == old(peers)[p := Failing(old(peers)[p], b)]
      ensures Lost() == old(Lost()) + if b in old(peers)[p].outstanding then {b} else {}
      // one that still needs blocks from us is spared, but gets no more requests
      ensures var was := old(peers)[p]; var owed := b in was.outstanding;
              peers[p] == was.(outstanding := was.outstanding - {b}, connected := was.connected && (!owed || was.peerNeeds),
                               inhibited := was.inhibited || (owed && was.peerNeeds))
    {
      hide Assigned, Leaked, Out, Failing;
      var peer := peers[p];
      FailingMeans(peer, b);
      OutIs(peers, p);
      if b in peer.outstanding {
        Loses(Out(peers), requested, maxPerPeer, p, b);
        var next := peer.(outstanding := peer.outstanding - {b});
        next := if peer.peerNeeds then next.(inhibited := true) else next.(connected := false);
        OutPut(peers, p, next);
        peers := peers[p := next];
      } else {
        NothingAdded(Lost());
        assert peers == peers[p := peer];
      }
    }

    /** A block somebody was asked for during sync. */
    method SyncBlock(p: PeerId, b: BlockId, d: Delegate) returns (threw: bool)
      requires Valid() && p in peers && b in peers[p].outstanding
      modifies this
      ensures Valid() && Lost() == old(Lost())
      ensures peers == old(peers)[p := Served(old(peers)[p], b, true, d)]
      ensures var less := old(peers)[p].(outstanding := old(peers)[p].outstanding - {b});
              threw == (less.unfetched > 0 && Throws(less, d))
      ensures requested == old(requested) - {b} && newReceived == [b] + old(newReceived)
      ensures received == old(received) && accepted == old(accepted)
    {
      var peer := peers[p];
      OutIs(peers, p);
      Returns(Out(peers), requested, maxPerPeer, p, b);
      var less := peer.(outstanding := peer.outstanding - {b});
      OutPut(peers, p, less);
      InRequested(Out(peers), requested, maxPerPeer, p, b);
      WantedAt(peers, p);
      WantedPut(peers, p, less);
      hide Assigned, Leaked, Out, NextBatch, Throws, WantedOk, Consecutive;
      threw := false;
      peers := peers[p := less];
      requested := requested - {b};
      newReceived := [b] + newReceived;
      if peer.unfetched > 0 {
        threw := FetchNextBatch(p, d);
      }
    }

    /** A block that arrives in normal operation: accepted or known, not linking, or rejected together with
        everybody who offers it next. */
    method NormalBlock(p: PeerId, b: BlockId, verdict: Verdict, advertised: set<PeerId>, d: Delegate)
      requires Valid() && p in peers
      modifies `peers, `accepted
      ensures Valid() && Lost() == old(Lost())
      ensures var known := b in old(accepted);
              if known || verdict == Accepted then
                && peers == WelcomeAll(old(peers), b, advertised, d)
                && accepted == if known then PushRecent(old(accepted), b, recentCapacity)
                               else PushRecent(PushRecent(old(accepted), b, recentCapacity), b, recentCapacity)
              else if verdict == Unlinkable then
                accepted == old(accepted) && peers == old(peers)[p := Restarted(old(peers)[p], d)]
              else
                accepted == old(accepted) && Shunned(old(peers)[p := old(peers)[p].(connected := false)], peers, b, old(peers).Keys)
      ensures b !in old(accepted) && verdict == Rejected ==>
                forall q :: q in old(peers) ==>
                  q in peers && var was := old(peers)[q];
                  peers[q] == was.(connected := was.connected && q != p && !(was.wanted != [] && was.wanted[0] == b))
    {
      hide Assigned, Leaked, Out, Consecutive, WantedOk, Shunned, Restarted, PushRecent, WelcomeAll;
      if b in accepted || verdict == Accepted {
        if b !in accepted {
          accepted := PushRecent(accepted, b, recentCapacity);
        }
        accepted := PushRecent(accepted, b, recentCapacity);
        Welcome(b, advertised, d);
      } else if verdict == Unlinkable {
        StartSynchronizing(p, d);
      } else {
        WantedAt(peers, p);
        Store(p, peers[p].(connected := false));
        assert peers.Keys == old(peers).Keys;
        DisconnectReady(b);
        ShunnedMeans(old(peers), p, peers, b);
      }
    }

    /** The loops over the peers after a block accepted in normal operation. */
    method Welcome(b: BlockId, advertised: set<PeerId>, d: Delegate)
      requires WantedOk(peers)
      modifies `peers
      ensures Out(peers) == old(Out(peers)) && WantedOk(peers) && peers == WelcomeAll(old(peers), b, advertised, d)
      ensures forall q :: q in old(peers) ==>
                q in peers && var was := old(peers)[q];
                peers[q] == was.(lastSeen := if was.connected && q in advertised then b else was.lastSeen,
                                 connected := was.connected && !d.outgrown(was.knownFork, b))
    {
      WelcomeMeans(peers, b, advertised, d);
      hide WelcomeAll;
      hide Out, WantedOk, Consecutive, Welcomed, Welcoming;
      ghost var before := peers;
      NobodyWelcomed(peers, b, advertised, d);
      var rest := peers.Keys;
      ghost var done: set<PeerId> := {};
      while rest != {}
        invariant peers.Keys == before.Keys == done + rest && done !! rest && WantedOk(peers) && Out(peers) == old(Out(peers))
        invariant Welcoming(before, peers, b, advertised, d, done)
        decreases rest
      {
        var q :| q in rest;
        WelcomeOne(before, peers, b, advertised, d, done, q);
        WantedAt(peers, q);
        WelcomedSteady(peers[q], b, q in advertised, d);
        var peer := peers[q];
        if peer.connected {
          var next := peer;
          if q in advertised {
            next := next.(lastSeen := b);
          }
          if d.outgrown(peer.knownFork, b) {
            next := next.(connected := false);
          }
          assert next == Welcomed(peer, b, q in advertised, d) by { WelcomedIs(peer, b, q in advertised, d); }
          Store(q, next);
        } else {
          WelcomedIs(peer, b, q in advertised, d);
          assert peers == peers[q := peer];
        }
        rest, done := rest - {q}, done + {q};
      }
      assert done == before.Keys;
      AllWelcomed(before, peers, b, advertised, d);
    }

    /** Disconnects everybody whose list begins with the block. */
    method DisconnectReady(b: BlockId)
      requires WantedOk(peers)
      modifies `peers
      ensures Out(peers) == old(Out(peers)) && WantedOk(peers)
      ensures Shunned(old(peers), peers, b, old(peers).Keys)
    {
      hide Out, WantedOk, Consecutive, Ready, Shunned;
      ghost var start := peers;
      NobodyShunned(peers, b);
      var rest := peers.Keys;
      ghost var done: set<PeerId> := {};
      while rest != {}
        invariant peers.Keys == start.Keys == done + rest && done !! rest && WantedOk(peers) && Out(peers) == old(Out(peers))
        invariant Shunned(start, peers, b, done)
        decreases rest
      {
        var q :| q in rest;
        ShunOne(start, peers, b, done, q);
        if Ready(peers[q], b) {
          WantedAt(peers, q);
          Store(q, peers[q].(connected := false));
        }
        rest, done := rest - {q}, done + {q};
      }
      assert done == start.Keys;
    }

    /** Every block message: requested in normal operation, requested during sync, or not at all. */
    method BlockMessage(p: PeerId, b: BlockId, normal: bool, verdict: Verdict, advertised: set<PeerId>, d: Delegate)
      requires Valid() && p in peers
      modifies this
      ensures Valid() && Lost() == old(Lost())
      ensures !normal && b in old(peers)[p].outstanding ==>
                && requested == old(requested) - {b} && newReceived == [b] + old(newReceived)
                && peers == old(peers)[p := Served(old(peers)[p], b, b in old(accepted), d)]
                && var was, now := old(peers)[p], peers[p];
                   && now.outstanding == was.outstanding - {b} && now.wanted == was.wanted
                   && (was.unfetched == 0 || was.asked.Some? ==> now.asked == was.asked && now.connected == was.connected)
                   && (was.unfetched > 0 ==> now.asked.Some? || !now.connected || b in old(accepted))
      ensures !normal && b !in old(peers)[p].outstanding ==>
                && requested == old(requested) && newReceived == old(newReceived)
                && peers == if b in old(accepted) then old(peers) else old(peers)[p := old(peers)[p].(connected := false)]
      ensures normal ==> requested == old(requested) && newReceived == old(newReceived)
      ensures received == old(received)
    {
      hide Assigned, Leaked, Out, Consecutive, WantedOk, Shunned, Restarted, PushRecent, NextBatch, Throws, WelcomeAll;
      if normal {
        NormalBlock(p, b, verdict, advertised, d);
        return;
      }
      ServedMeans(peers[p], b, b in accepted, d);
      if b in peers[p].outstanding {
        var threw := SyncBlock(p, b, d);
        if threw && b !in accepted {
          ThrowsNothing(old(peers)[p].(outstanding := old(peers)[p].outstanding - {b}), d);
          WantedAt(peers, p);
          Store(p, peers[p].(connected := false));
        }
      } else if b !in accepted {
        WantedAt(peers, p);
        Store(p, peers[p].(connected := false));
      }
    }

    // ---------- announcements ----------

    predicate FirstElsewhere(p: PeerId, b: BlockId)
      reads this
    {
      exists q :: q in peers && q != p && Ready(peers[q], b)
    }

    /** The ids a peer announces.  They are ignored unless asked for; a reply that is not a run of
        consecutive blocks building on the synopsis costs the connection. */
    method Inventory(p: PeerId, ids: seq<BlockId>, remaining: nat, d: Delegate)
      requires Valid() && p in peers
      modifies `peers
      ensures Valid() && Books() == old(Books())
      ensures peers == old(peers)[p := Informed(old(peers)[p], ids, remaining, old(ids != [] && FirstElsewhere(p, ids[0])), d)]
      ensures old(peers)[p].asked.None? ==> peers == old(peers)
      // a non-empty reply is a run of blocks that starts in the synopsis, or with block 1 if that was empty; or else the
      // connection goes and the list stays; everything after the first unknown block of a proper reply is wanted
      ensures var was, now := old(peers)[p], peers[p];
              was.asked.Some? && ids != [] ==>
                var proper := && (forall i :: 0 <= i < |ids| ==> ids[i].num == ids[0].num + i)
                              && if was.asked.value == [] then ids[0].num == 1 else ids[0] in was.asked.value;
                && (!proper ==> now == was.(connected := false))
                && (proper && remaining == 0 ==> now.connected == was.connected)
                && (proper ==> forall i, j :: 0 <= i <= j < |ids| && !d.hasItem(ids[i]) && (j > 0 || was.wanted == [] || ids[0] in was.wanted)
                                 ==> ids[j] in now.wanted)
    {
      hide Assigned, Leaked, Out, Answered, Fits, Consecutive, WantedOk, Informed;
      var peer := peers[p];
      InformedIs(peer, ids, remaining, ids != [] && FirstElsewhere(p, ids[0]), d);
      WantedAt(peers, p);
      if peer.asked.None? {
        assert peers == peers[p := peer];
        return;
      }
      if ids != [] {
        InformedMeans(peer, ids, remaining, FirstElsewhere(p, ids[0]), d);
      }
      var fits := CheckReply(peer.asked.value, ids);
      if !fits {
        Store(p, peer.(connected := false));
        return;
      }
      FitsConsecutive(peer.asked.value, ids);
      Receive(p, ids, remaining, d);
    }

    method Receive(p: PeerId, ids: seq<BlockId>, remaining: nat, d: Delegate)
      requires Valid() && p in peers && Consecutive(ids)
      modifies `peers
      ensures Valid() && Books() == old(Books())
      ensures peers == old(peers)[p := Answered(old(peers)[p], ids, remaining, old(ids != [] && FirstElsewhere(p, ids[0])), d)]
    {
      hide Assigned, Leaked, Out, Announced, LastFlushed, NextBatch, Consecutive, Ready, WantedOk;
      WantedAt(peers, p);
      var peer := peers[p];
      if UpToDate(peer, ids, remaining, d) {
        Store(p, peer.(asked := None, needed := false));
        return;
      }
      var elsewhere := ids != [] && FirstElsewhere(p, ids[0]);
      AnnouncedConsecutive(peer.wanted, ids, elsewhere, d);
      var wanted, lastSeen := Merge(peer, ids, elsewhere, d);
      Store(p, peer.(asked := None, wanted := wanted, lastSeen := lastSeen, unfetched := remaining));
      if remaining != 0 {
        var _ := FetchNextBatch(p, d);
      }
    }

    static method CheckReply(synopsis: seq<BlockId>, ids: seq<BlockId>) returns (fits: bool)
      ensures fits == Fits(synopsis, ids)
    {
      if |ids| == 0 {
        return true;
      }
      var i := 1;
      while i < |ids|
        invariant 1 <= i <= |ids| && Numbered(ids[..i], ids[0].num)
      {
        if ids[i].num != ids[0].num + i {
          return false;
        }
        i := i + 1;
      }
      assert ids[..i] == ids;
      fits := if synopsis == [] then ids[0].num == 1 else ids[0] in synopsis;
    }

    /** Flushes what is already known, or splices the new list to the old one. */
    static method Merge(peer: Peer, ids: seq<BlockId>, elsewhere: bool, d: Delegate) returns (wanted: seq<BlockId>, lastSeen: BlockId)
      requires Consecutive(ids) && Consecutive(peer.wanted)
      ensures wanted == Announced(peer.wanted, ids, elsewhere, d) && lastSeen == LastFlushed(peer, ids, elsewhere, d)
    {
      var news := ids;
      wanted, lastSeen := peer.wanted, peer.lastSeen;
      if |ids| > 0 && |wanted| == 0 {
        if !elsewhere {
          while |news| > 0 && d.hasItem(news[0])
            invariant Unseen(news, d) == Unseen(ids, d) && LastSeen(news, d, lastSeen) == LastSeen(ids, d, peer.lastSeen)
          {
            lastSeen := news[0];
            news := news[1..];
          }
        }
      } else if |ids| > 0 {
        while |wanted| > 0 && ids[0] != wanted[|wanted| - 1]
          invariant Consecutive(wanted) && Splice(wanted, ids) == Splice(peer.wanted, ids)
          invariant ids[0] in wanted <==> ids[0] in peer.wanted
        {
          ConsecutiveSlice(wanted, 0, |wanted| - 1);
          wanted := wanted[..|wanted| - 1];
        }
        if |wanted| == 0 {
          lastSeen := ids[0];
          news := ids[1..];
        } else {
          wanted := wanted[..|wanted| - 1];
        }
      }
      assert news != [] && wanted != [] ==> news[0] != wanted[|wanted| - 1];
      wanted := wanted + news;
    }

    // ---------- requests ----------

    /** Blocks that are on their way or here. */
    ghost function Taken(): set<BlockId>
      reads this
    {
      requested + Elements(received) + Elements(newReceived) + Elements(accepted)
    }

    lemma RequestedTaken()
      ensures requested <= Taken()
    {
    }

    lemma TakenIs(b: BlockId)
      ensures b in Taken() <==> b in requested || HaveAlready(b)
    {
    }

    predicate Full(chosen: nat)
      reads this
    {
      |requested| + |newReceived| + chosen > maxPrefetch
    }

    /** The blocks to ask one peer for in this round: as many of its list as are still free, up to both
        limits. */
    method Schedule(p: PeerId, already: set<BlockId>) returns (items: seq<BlockId>, chosen: set<BlockId>)
      requires p in peers && |peers[p].outstanding| <= maxPerPeer
      requires |requested| + |newReceived| + |already| <= maxPrefetch + 1
      ensures Choice(items, chosen, already, Taken(), peers[p].wanted)
      ensures |peers[p].outstanding| + |items| <= maxPerPeer
      ensures |requested| + |newReceived| + |chosen| <= maxPrefetch + 1
      ensures Full(|chosen|) || |peers[p].outstanding| + |items| >= maxPerPeer || Elements(peers[p].wanted) <= chosen + Taken()
    {
      hide Choice, Elements, HaveAlready, Taken;
      items, chosen := [], already;
      var wanted := peers[p].wanted;
      NoChoice(already, Taken(), wanted);
      var i := 0;
      while i < |wanted|
        invariant 0 <= i <= |wanted|
        invariant Choice(items, chosen, already, Taken(), wanted)
        invariant |peers[p].outstanding| + |items| <= maxPerPeer
        invariant |requested| + |newReceived| + |chosen| <= maxPrefetch + 1
        invariant Elements(wanted[..i]) <= chosen + Taken()
      {
        if |items| + |peers[p].outstanding| >= maxPerPeer {
          return;
        }
        if Full(|chosen|) {
          return;
        }
        TakenIs(wanted[i]);
        ElementsPush(wanted[..i], wanted[i]);
        assert wanted[..i] + [wanted[i]] == wanted[..i + 1];
        if wanted[i] !in chosen && wanted[i] !in requested && !HaveAlready(wanted[i]) {
          ChoicePush(items, chosen, already, Taken(), wanted, i);
          items := items + [wanted[i]];
          chosen := chosen + {wanted[i]};
        }
        i := i + 1;
      }
      assert wanted[..i] == wanted;
    }

    predicate Eligible(peer: Peer) {
      peer.connected && !peer.inhibited && peer.needed
    }

    /** A peer from which nothing more can be asked. */
    ghost predicate Exhausted(peer: Peer, more: set<BlockId>, taken: set<BlockId>) {
      Eligible(peer) ==> |peer.outstanding + more| >= maxPerPeer || Elements(peer.wanted) <= taken
    }

    lemma StillExhausted(peer: Peer, peer': Peer, more: set<BlockId>, taken: set<BlockId>)
      requires Exhausted(peer, more, taken) && peer' == peer.(outstanding := peer.outstanding + more)
      ensures Exhausted(peer', {}, taken)
    {
      assert peer'.outstanding + {} == peer.outstanding + more;
    }

    /** First half of a round: decide what to ask of whom. */
    method PlanRequests() returns (plan: map<PeerId, seq<BlockId>>, chosen: set<BlockId>)
      requires Valid()
      ensures Plan(plan, chosen, peers, Taken(), maxPerPeer)
      ensures |requested| + |newReceived| + |chosen| <= maxPrefetch + 1
      ensures Full(|chosen|) || forall p :: p in peers ==> Exhausted(peers[p], PlannedFor(plan, p), chosen + Taken())
      ensures forall p :: p in plan ==> p in peers && peers[p].connected && peers[p].needed && !peers[p].inhibited
    {
      hide Plan, Choice, Elements, Taken, Assigned, WantedOk, Out;
      plan, chosen := map[], {};
      NoPlan(peers, Taken(), maxPerPeer);
      RequestedTaken();
      var rest := peers.Keys;
      while rest != {}
        invariant rest <= peers.Keys && plan.Keys !! rest
        invariant forall p :: p in plan ==> p in peers && peers[p].connected && peers[p].needed && !peers[p].inhibited
        invariant Plan(plan, chosen, peers, Taken(), maxPerPeer)
        invariant |requested| + |newReceived| + |chosen| <= maxPrefetch + 1
        invariant forall p :: p in peers && p !in rest ==>
                    Full(|chosen|) || Exhausted(peers[p], PlannedFor(plan, p), chosen + Taken())
        decreases rest
      {
        var p :| p in rest;
        rest := rest - {p};
        WithinLimit(peers, requested, maxPerPeer, p);
        if !peers[p].connected || peers[p].inhibited || !peers[p].needed {
          continue;
        }
        if |peers[p].outstanding| >= maxPerPeer {
          continue;
        }
        if Full(|chosen|) {
          return;
        }
        var items, chosen' := Schedule(p, chosen);
        ChoiceGrows(items, chosen', chosen, Taken(), peers[p].wanted);
        Added(peers, requested, Taken(), maxPerPeer, p, items, chosen', chosen);
        PlanAdd(plan, chosen, peers, Taken(), maxPerPeer, p, items, chosen');
        plan, chosen := plan[p := items], chosen';
      }
    }

    /** Second half: note every block as requested and as outstanding with the peer. */
    method RequestItems(p: PeerId, items: seq<BlockId>)
      requires p in peers && BooksOk()
      requires Elements(items) !! requested && |peers[p].outstanding| + |Elements(items)| <= maxPerPeer
      requires |requested + Elements(items)| + |newReceived| <= maxPrefetch + 1
      modifies `peers, `requested
      ensures BooksOk() && Lost() == old(Lost()) && requested == old(requested) + Elements(items)
      ensures peers == old(peers)[p := old(peers)[p].(outstanding := old(peers)[p].outstanding + Elements(items))]
    {
      OutIs(peers, p);
      Lends(Out(peers), requested, maxPerPeer, p, Elements(items));
      hide Assigned, Leaked, Out, Elements;
      NoteRequests(p, items);
      OutPut(old(peers), p, peers[p]);
    }

    method NoteRequests(p: PeerId, items: seq<BlockId>)
      requires p in peers
      modifies `peers, `requested
      ensures requested == old(requested) + Elements(items)
      ensures peers == old(peers)[p := old(peers)[p].(outstanding := old(peers)[p].outstanding + Elements(items))]
    {
      hide Elements;
      ghost var before := peers;
      var peer := peers[p];
      NoElements(items);
      var i := 0;
      while i < |items|
        invariant 0 <= i <= |items| && p in peers
        invariant requested == old(requested) + Elements(items[..i])
        invariant peers == before[p := peer]
        invariant peer == before[p].(outstanding := before[p].outstanding + Elements(items[..i]))
      {
        ElementsPush(items[..i], items[i]);
        assert items[..i] + [items[i]] == items[..i + 1];
        requested := requested + {items[i]};
        peer := peer.(outstanding := peer.outstanding + {items[i]});
        peers := peers[p := peer];
        i := i + 1;
      }
      assert items[..i] == items;
    }

    /** A round of requests.  Only free blocks from a peer's own list are asked for, and nothing that could
        be asked for is left: the prefetch limit is reached, or every eligible peer is busy or has nothing
        left to give. */
    method FetchSyncItems()
      requires Valid()
      modifies `peers, `requested
      ensures Valid() && Lost() == old(Lost()) && peers.Keys == old(peers.Keys)
      ensures old(requested) <= requested && (requested - old(requested)) !! old(Taken())
      ensures forall p :: p in peers ==> OnlyAsked(old(peers)[p], peers[p])
      ensures Full(0) || forall p :: p in peers ==> Exhausted(peers[p], {}, Taken())
      // only connected peers that we need blocks from and that have not failed us are asked, and all of them as far as it goes
      ensures forall p :: p in peers && !(peers[p].connected && peers[p].needed && !peers[p].inhibited) ==> peers[p] == old(peers)[p]
      ensures |requested| + |newReceived| > maxPrefetch
              || forall p, b :: p in peers && b in peers[p].wanted && peers[p].connected && peers[p].needed && !peers[p].inhibited ==>
                   |peers[p].outstanding| >= maxPerPeer || b in requested || b in received || b in newReceived || b in accepted
    {
      hide Assigned, Leaked, Out, Elements, Plan, Consecutive, WantedOk, Exhausted, Issued;
      var plan, chosen := PlanRequests();
      ghost var before, taken := peers, Taken();
      PlanStart(plan, chosen, peers, taken, requested, maxPerPeer);
      IssueRequests(plan, chosen);
      assert |requested| == |old(requested)| + |chosen| && Taken() == chosen + taken;
      IssuedWanted(before, peers, plan);
      forall p | p in peers
        ensures OnlyAsked(before[p], peers[p]) && (!Full(0) ==> Exhausted(peers[p], {}, Taken()))
      {
        IssuedPeer(before, peers, plan, chosen, taken, maxPerPeer, p);
        if !Full(0) {
          StillExhausted(before[p], peers[p], PlannedFor(plan, p), chosen + taken);
        }
      }
      forall p | p in peers && !(peers[p].connected && peers[p].needed && !peers[p].inhibited) ensures peers[p] == before[p] {
        IssuedPeer(before, peers, plan, chosen, taken, maxPerPeer, p);
        assert p !in plan;
        NothingAdded(before[p].outstanding);
      }
      if !Full(0) {
        forall p, b | p in peers && b in peers[p].wanted && peers[p].connected && peers[p].needed && !peers[p].inhibited
          ensures |peers[p].outstanding| >= maxPerPeer || b in requested || b in received || b in newReceived || b in accepted
        {
          NothingLeft(peers[p], b);
        }
      }
    }

    lemma NothingLeft(peer: Peer, b: BlockId)
      requires Exhausted(peer, {}, Taken()) && b in peer.wanted && peer.connected && peer.needed && !peer.inhibited
      ensures |peer.outstanding| >= maxPerPeer || b in requested || b in received || b in newReceived || b in accepted
    {
      NothingAdded(peer.outstanding);
      assert b in Elements(peer.wanted);
    }

    /** The second half of a round. */
    method IssueRequests(plan: map<PeerId, seq<BlockId>>, chosen: set<BlockId>)
      requires BooksOk() && Plan(plan, chosen, peers, Taken(), maxPerPeer)
      requires |requested| + |newReceived| + |chosen| <= maxPrefetch + 1
      modifies `peers, `requested
      ensures BooksOk() && Lost() == old(Lost()) && requested == old(requested) + chosen && old(requested) !! chosen
      ensures Issued(old(peers), peers, plan, plan.Keys)
    {
      hide Assigned, Leaked, Out, Elements, Plan, Issued, Pending, Taken;
      RequestedTaken();
      PlanStart(plan, chosen, peers, Taken(), requested, maxPerPeer);
      ghost var before, all := peers, requested + chosen;
      var rest := plan.Keys;
      assert plan.Keys - rest == {};
      while rest != {}
        invariant rest <= plan.Keys <= peers.Keys && BooksOk() && Lost() == old(Lost())
        invariant old(requested) <= requested <= all
        invariant Pending(plan, requested, rest) && Issued(before, peers, plan, plan.Keys - rest)
        decreases rest
      {
        var p :| p in rest;
        PendingStep(plan, chosen, before, peers, old(Taken()), maxPerPeer, requested, all, rest, p);
        RequestItems(p, plan[p]);
        rest := rest - {p};
      }
      AllIssued(plan, chosen, before, old(Taken()), maxPerPeer, requested);
      assert plan.Keys - rest == plan.Keys;
    }

    // ---------- received blocks ----------

    /** Takes a block off the front of every list it heads. */
    method PopReady(b: BlockId) returns (ready: bool)
      modifies `peers
      requires WantedOk(peers)
      ensures Out(peers) == old(Out(peers)) && WantedOk(peers) && EachPopped(old(peers), peers, b, old(peers).Keys)
      ensures ready == Heads(old(peers), b)
    {
      hide Out, WantedOk, EachPopped, Ready, Popped, HeadsAmong;
      ready := false;
      NonePopped(peers, b);
      ghost var before := peers;
      var rest := peers.Keys;
      ghost var done: set<PeerId> := {};
      while rest != {}
        invariant peers.Keys == before.Keys == done + rest && done !! rest && Out(peers) == old(Out(peers)) && WantedOk(peers)
        invariant EachPopped(before, peers, b, done) && ready == HeadsAmong(before, b, done)
        decreases rest
      {
        var q :| q in rest;
        PopOne(before, peers, b, done, q);
        if Ready(peers[q], b) {
          ready := true;
          Store(q, Popped(peers[q], b));
        }
        rest, done := rest - {q}, done + {q};
      }
      assert done == before.Keys;
    }

    /** Hands a block to the client.  When it accepts, peers that have run out of ids are asked for more and
        peers in sync are told to start over; a synopsis that cannot be built ends this early. */
    method Deliver(b: BlockId, d: Delegate) returns (threw: bool)
      requires WantedOk(peers)
      modifies `peers, `accepted
      ensures Out(peers) == old(Out(peers)) && WantedOk(peers)
      ensures threw == (d.accepts(b) && SomeThrow(old(peers), b, d))
      ensures if !d.accepts(b) then accepted == old(accepted) && peers == old(peers)
              else
                && accepted == PushRecent(old(accepted), b, recentCapacity)
                && (!threw ==> peers == map q | q in old(peers) :: Notified(old(peers)[q], b, d))
                && (threw ==> Interrupted(old(peers), peers, b, d))
    {
      hide Out, WantedOk, Seen, Idle, Consecutive, Asked, PushRecent, Telling, SomeThrow, Interrupted, EachAsked, Throws;
      if !d.accepts(b) {
        return false;
      }
      accepted := PushRecent(accepted, b, recentCapacity);
      ghost var before := peers;
      NobodyTold(peers, b, d);
      ghost var done: set<PeerId> := {};
      var emptied, idle: set<PeerId> := {}, {};
      var rest := peers.Keys;
      while rest != {}
        invariant peers.Keys == before.Keys == done + rest && done !! rest && emptied <= done && idle <= done
        invariant Out(peers) == old(Out(peers)) && WantedOk(peers) && Telling(before, peers, b, done, emptied, idle, d)
        invariant accepted == PushRecent(old(accepted), b, recentCapacity)
        decreases rest
      {
        var q :| q in rest;
        WantedAt(peers, q);
        SeenSteady(peers[q], b, d);
        TellOne(before, peers, b, done, emptied, idle, q, d);
        var had := peers[q].connected && !d.outgrown(peers[q].knownFork, b) && b in peers[q].processing;
        Store(q, Seen(peers[q], b, d));
        if had && peers[q].processing == {} {
          emptied := emptied + {q};
        }
        if Idle(peers[q], b, d) {
          idle := idle + {q};
        }
        rest, done := rest - {q}, done + {q};
      }
      assert done == before.Keys;
      ghost var told := peers;
      threw := AskMore(emptied, idle, d);
      ToldThrows(before, told, b, emptied, idle, d);
      if threw {
        ToldInterrupted(before, told, peers, b, emptied, idle, d);
      } else {
        AllTold(before, told, peers, b, emptied, idle, d);
      }
    }

    /** The calls that may block, made at the end; the first one that throws is the last one made. */
    method AskMore(emptied: set<PeerId>, idle: set<PeerId>, d: Delegate) returns (threw: bool)
      requires WantedOk(peers) && emptied <= peers.Keys && idle <= peers.Keys
      modifies `peers
      ensures Out(peers) == old(Out(peers)) && WantedOk(peers)
      ensures threw == exists q :: q in emptied && Throws(old(peers)[q], d)
      ensures !threw ==> EachAsked(old(peers), peers, emptied, idle, d)
      ensures threw ==> exists done :: EachAsked(old(peers), peers, done, {}, d)
    {
      hide Out, WantedOk, Consecutive, Asked, NextBatch, Restarted, EachAsked, Throws;
      ghost var before := peers;
      NobodyAsked(peers, d);
      var rest := emptied;
      ghost var done: set<PeerId> := {};
      while rest != {}
        invariant peers.Keys == before.Keys && done + rest == emptied && done !! rest
        invariant Out(peers) == old(Out(peers)) && WantedOk(peers) && EachAsked(before, peers, done, {}, d)
        invariant forall q :: q in done ==> !Throws(before[q], d)
        decreases rest
      {
        var q :| q in rest;
        AskOne(before, peers, done, q, d);
        threw := FetchNextBatch(q, d);
        rest, done := rest - {q}, done + {q};
        if threw {
          return;
        }
      }
      assert done == emptied;
      threw := false;
      rest, done := idle, {};
      while rest != {}
        invariant peers.Keys == before.Keys && done + rest == idle && done !! rest
        invariant Out(peers) == old(Out(peers)) && WantedOk(peers) && EachAsked(before, peers, emptied, done, d)
        decreases rest
      {
        var q :| q in rest;
        RestartOne(before, peers, emptied, done, q, d);
        StartSynchronizing(q, d);
        rest, done := rest - {q}, done + {q};
      }
      assert done == idle;
    }

    /** New blocks join the ones that could not be processed yet, the latest arrival last among them. */
    method AbsorbNew()
      modifies `received, `newReceived
      ensures newReceived == [] && received == Reversed(old(newReceived)) + old(received)
    {
      ghost var all, before := newReceived, received;
      ghost var k := 0;
      while |newReceived| > 0
        invariant 0 <= k <= |all| && newReceived == all[k..] && received == Reversed(all[..k]) + before
        decreases |newReceived|
      {
        assert Reversed(all[..k + 1]) == [all[k]] + Reversed(all[..k]);
        received := [newReceived[0]] + received;
        newReceived := newReceived[1..];
        k := k + 1;
      }
      assert all[..k] == all;
    }

    /** The first received block that heads some peer's list, taken off those lists. */
    method NextReady() returns (k: nat)
      requires WantedOk(peers)
      modifies `peers
      ensures k <= |received| && Out(peers) == old(Out(peers)) && WantedOk(peers) && FirstReady(old(peers), received, k)
      ensures peers == if k < |received| then PopAll(old(peers), received[k]) else old(peers)
      ensures k < |received| ==>
                forall q :: q in old(peers) ==>
                  q in peers && var was := old(peers)[q];
                  peers[q] == if was.connected && was.wanted != [] && was.wanted[0] == received[k]
                              then was.(wanted := was.wanted[1..], processing := was.processing + {received[k]}) else was
    {
      hide Out, WantedOk, Heads, EachPopped, PopAll;
      k := 0;
      ghost var before := peers;
      while k < |received|
        invariant 0 <= k <= |received| && peers == before
        invariant forall i :: 0 <= i < k ==> !Heads(before, received[i])
      {
        var ready := PopReady(received[k]);
        PoppedAll(before, peers, received[k], ready);
        PopAllMeans(before, received[k]);
        if ready {
          return;
        }
        k := k + 1;
      }
    }

    /** One step through the received blocks: the first one that heads some peer's list leaves them, goes to
        the client unless it is known, and the peers hear of it if it is accepted.  When that throws, the block
        is off the lists and with the client, but still among the received ones. */
    method ProcessNext(d: Delegate) returns (found: bool, k: nat, threw: bool)
      requires WantedOk(peers)
      modifies `peers, `received, `accepted
      ensures Out(peers) == old(Out(peers)) && WantedOk(peers)
      ensures k <= |old(received)| && FirstReady(old(peers), old(received), k) && found == (k < |old(received)|)
      ensures !found ==> !threw && received == old(received) && accepted == old(accepted) && peers == old(peers)
      ensures found ==> var b := old(received)[k];
                && threw == (b !in old(accepted) && d.accepts(b) && SomeThrow(PopAll(old(peers), b), b, d))
                && accepted == (if b !in old(accepted) && d.accepts(b) then PushRecent(old(accepted), b, recentCapacity) else old(accepted))
                && received == (if threw then old(received) else old(received)[..k] + old(received)[k + 1..])
                && (!threw ==> peers == Worked(old(peers), old(accepted), b, d))
                && (threw ==> Interrupted(PopAll(old(peers), b), peers, b, d))
    {
      hide Out, WantedOk, Heads, FirstReady, PushRecent, PopAll, Notified, SomeThrow, Interrupted;
      threw := false;
      k := NextReady();
      if k == |received| {
        return false, k, false;
      }
      found := true;
      if received[k] !in accepted {
        threw := Deliver(received[k], d);
        if threw {
          return;
        }
      }
      received := received[..k] + received[k + 1..];
    }

    /** Works through the received blocks until none is ready, the quota for one round is used up, or a
        synopsis throws. */
    method ProcessBacklog(d: Delegate) returns (processed: nat, threw: bool)
      requires Valid()
      modifies this
      ensures Valid() && Lost() == old(Lost()) && requested == old(requested) && newReceived == []
      ensures Shrunk(old(peers), peers)
      ensures multiset(received) <= multiset(old(received)) + multiset(old(newReceived))
      ensures |received| + processed == |old(received)| + |old(newReceived)| && processed <= Max(1, maxAtOnce)
      ensures !threw && processed < maxAtOnce ==> forall i :: 0 <= i < |received| ==> !Heads(peers, received[i])
    {
      hide Out, WantedOk, Shrunk, Heads, Assigned, Leaked, Worked, Interrupted, SomeThrow, PopAll, PushRecent;
      processed, threw := 0, false;
      AbsorbNew();
      ReversedSame(old(newReceived));
      ghost var before, all := peers, received;
      SameShrunk(peers);
      while true
        invariant WantedOk(peers) && Out(peers) == old(Out(peers)) && Shrunk(before, peers)
        invariant newReceived == [] && requested == old(requested) && !threw
        invariant multiset(received) <= multiset(all) && |received| + processed == |all|
        invariant processed == 0 || processed < maxAtOnce
        decreases |received|
      {
        ghost var was, blocks, known := peers, received, accepted;
        var found, k;
        found, k, threw := ProcessNext(d);
        if !found {
          break;
        }
        if threw {
          InterruptedShrunk(was, peers, blocks[k], d);
          ShrunkTwice(before, was, peers);
          break;
        }
        WorkedShrunk(was, known, blocks[k], d);
        ShrunkTwice(before, was, peers);
        Without(blocks, k);
        processed := processed + 1;
        if processed >= maxAtOnce {
          break;
        }
      }
    }

    // ---------- runs ----------

    method Handle(ev: Event)
      requires Valid()
      modifies this
      ensures Valid() && Lost() == old(Lost()) + old(NewlyLost(ev))
    {
      hide Out, WantedOk, Assigned, Leaked, Consecutive, Exhausted, Taken, OnlyAsked, Informed, Served, Failing, Restarted;
      NothingAdded(Lost());
      match ev
      case Connecting(p, peerNeeds, knownFork, d) =>
        if p !in peers {
          Connect(p, peerNeeds, knownFork, d);
        }
      case Closing(p) =>
        if p in peers {
          Close(p);
        }
      case Fetching => FetchSyncItems();
      case Unavailable(p, b) =>
        if p in peers {
          ItemNotAvailable(p, b);
        }
      case Arriving(p, b, normal, verdict, advertised, d) =>
        if p in peers {
          BlockMessage(p, b, normal, verdict, advertised, d);
        }
      case Working(d) => var _, _ := ProcessBacklog(d);
      case Announcing(p, ids, remaining, d) =>
        if p in peers {
          Inventory(p, ids, remaining, d);
        }
      case Restarting(p, d) =>
        if p in peers {
          Restart(p, d);
        }
      case TimingOut(p) =>
        if p in peers {
          WantedAt(peers, p);
          Store(p, peers[p].(connected := false));
        }
    }

    method Restart(p: PeerId, d: Delegate)
      requires Valid() && p in peers
      modifies `peers
      ensures Valid() && Lost() == old(Lost()) && peers == old(peers)[p := Restarted(old(peers)[p], d)]
    {
      hide Out, Assigned, Leaked, WantedOk, Consecutive, Restarted;
      StartSynchronizing(p, d);
    }

    /** The block an event makes the node lose track of. */
    ghost function NewlyLost(ev: Event): set<BlockId>
      reads this
    {
      if ev.Unavailable? && ev.p in peers && ev.b in peers[ev.p].outstanding then {ev.b} else {}
    }

    /** Over every run the invariant holds, and a block that some peer once failed to provide stays requested
        of nobody for ever; without such a failure none gets lost. */
    method HandleAll(events: seq<Event>)
      requires Valid()
      modifies this
      ensures Valid() && old(Lost()) <= Lost()
      ensures (forall i :: 0 <= i < |events| ==> !events[i].Unavailable?) ==> Lost() == old(Lost())
    {
      hide Out, WantedOk, Assigned, Leaked;
      var i := 0;
      while i < |events|
        invariant 0 <= i <= |events| && Valid() && old(Lost()) <= Lost()
        invariant (forall j :: 0 <= j < i ==> !events[j].Unavailable?) ==> Lost() == old(Lost())
      {
        Handle(events[i]);
        i := i + 1;
      }
    }
  }

  /** Different blocks from the list, none of them taken or chosen before. */
  ghost predicate Choice(items: seq<BlockId>, chosen: set<BlockId>, already: set<BlockId>, taken: set<BlockId>, wanted: seq<BlockId>) {
    && chosen == already + Elements(items) && |items| == |Elements(items)|
    && Elements(items) !! already && Elements(items) !! taken && Elements(items) <= Elements(wanted)
  }

  /** Disjoint shares for known peers, within their limits, that together are the chosen blocks. */
  ghost predicate Plan(plan: map<PeerId, seq<BlockId>>, chosen: set<BlockId>, peers: map<PeerId, Peer>, taken: set<BlockId>, limit: nat) {
    chosen !! taken && Shares(plan, chosen, peers, limit) && Covers(plan, chosen)
  }

  ghost predicate Shares(plan: map<PeerId, seq<BlockId>>, chosen: set<BlockId>, peers: map<PeerId, Peer>, limit: nat) {
    && plan.Keys <= peers.Keys
    && (forall p :: p in plan ==> Share(plan[p], peers[p], chosen, limit))
    && (forall p, q :: p in plan && q in plan && p != q ==> Elements(plan[p]) !! Elements(plan[q]))
  }

  ghost predicate Covers(plan: map<PeerId, seq<BlockId>>, chosen: set<BlockId>) {
    forall b :: b in chosen ==> exists p :: p in plan && b in Elements(plan[p])
  }

  ghost predicate Share(items: seq<BlockId>, peer: Peer, chosen: set<BlockId>, limit: nat) {
    Elements(items) <= chosen && Elements(items) <= Elements(peer.wanted) && |peer.outstanding| + |Elements(items)| <= limit
  }

  /** The requests to some of the peers have been made. */
  ghost predicate Issued(before: map<PeerId, Peer>, peers: map<PeerId, Peer>, plan: map<PeerId, seq<BlockId>>, done: set<PeerId>) {
    && peers.Keys == before.Keys
    && forall p :: p in peers ==>
         peers[p] == if p in plan && p in done then before[p].(outstanding := before[p].outstanding + Elements(plan[p])) else before[p]
  }

  /** What is still to be requested is free, what has been requested is not. */
  ghost predicate Pending(plan: map<PeerId, seq<BlockId>>, requested: set<BlockId>, rest: set<PeerId>) {
    forall p :: p in plan ==> if p in rest then Elements(plan[p]) !! requested else Elements(plan[p]) <= requested
  }

  lemma PlanStart(plan: map<PeerId, seq<BlockId>>, chosen: set<BlockId>, peers: map<PeerId, Peer>,
                  taken: set<BlockId>, requested: set<BlockId>, limit: nat)
    requires Plan(plan, chosen, peers, taken, limit) && requested <= taken
    ensures plan.Keys <= peers.Keys && requested !! chosen && chosen !! taken && Issued(peers, peers, plan, {})
    ensures Pending(plan, requested, plan.Keys)
  {
    forall p | p in plan ensures Elements(plan[p]) !! requested {
      assert Share(plan[p], peers[p], chosen, limit);
    }
  }

  lemma PendingStep(plan: map<PeerId, seq<BlockId>>, chosen: set<BlockId>, before: map<PeerId, Peer>, peers: map<PeerId, Peer>,
                    taken: set<BlockId>, limit: nat, requested: set<BlockId>, all: set<BlockId>, rest: set<PeerId>, p: PeerId)
    requires Plan(plan, chosen, before, taken, limit) && Pending(plan, requested, rest) && p in rest && rest <= plan.Keys
    requires Issued(before, peers, plan, plan.Keys - rest) && requested <= all && chosen <= all
    ensures var items := Elements(plan[p]);
            && p in peers && items !! requested && |peers[p].outstanding| + |items| <= limit
            && requested + items <= all && |requested + items| <= |all|
            && Pending(plan, requested + items, rest - {p})
            && Issued(before, peers[p := peers[p].(outstanding := peers[p].outstanding + items)], plan, plan.Keys - (rest - {p}))
  {
    hide Elements, Covers;
    assert Share(plan[p], before[p], chosen, limit);
    SubsetSize(requested + Elements(plan[p]), all);
    forall q | q in rest - {p} ensures Elements(plan[q]) !! requested + Elements(plan[p]) {
      assert Elements(plan[p]) !! Elements(plan[q]);
    }
  }

  lemma AllIssued(plan: map<PeerId, seq<BlockId>>, chosen: set<BlockId>, before: map<PeerId, Peer>,
                  taken: set<BlockId>, limit: nat, requested: set<BlockId>)
    requires Plan(plan, chosen, before, taken, limit) && Pending(plan, requested, {})
    ensures chosen <= requested
  {
    hide Elements, Shares;
    forall b | b in chosen ensures b in requested {
      var p :| p in plan && b in Elements(plan[p]);
    }
  }

  /** A peer that was asked for more blocks, all from its own list, and is otherwise as it was. */
  ghost predicate OnlyAsked(was: Peer, peer: Peer) {
    && peer == was.(outstanding := peer.outstanding) && was.outstanding <= peer.outstanding
    && peer.outstanding - was.outstanding <= Elements(peer.wanted)
  }

  lemma IssuedPeer(before: map<PeerId, Peer>, peers: map<PeerId, Peer>, plan: map<PeerId, seq<BlockId>>, chosen: set<BlockId>,
                   taken: set<BlockId>, limit: nat, p: PeerId)
    requires Issued(before, peers, plan, plan.Keys) && Plan(plan, chosen, before, taken, limit) && p in peers
    ensures p in before && OnlyAsked(before[p], peers[p])
    ensures peers[p] == before[p].(outstanding := before[p].outstanding + PlannedFor(plan, p))
  {
    hide Elements, Covers;
    if p in plan {
      assert Share(plan[p], before[p], chosen, limit);
    }
  }

  lemma IssuedWanted(before: map<PeerId, Peer>, peers: map<PeerId, Peer>, plan: map<PeerId, seq<BlockId>>)
    requires Issued(before, peers, plan, plan.Keys) && WantedOk(before)
    ensures WantedOk(peers) && peers.Keys == before.Keys
  {
    hide Elements, Consecutive;
  }

  function PlannedFor(plan: map<PeerId, seq<BlockId>>, p: PeerId): set<BlockId> {
    if p in plan then Elements(plan[p]) else {}
  }

  /** New requests add to a peer's outstanding ones. */
  lemma Added(peers: map<PeerId, Peer>, requested: set<BlockId>, taken: set<BlockId>, limit: nat, p: PeerId,
              items: seq<BlockId>, chosen: set<BlockId>, already: set<BlockId>)
    requires Assigned(Out(peers), requested, limit) && requested <= taken && p in peers
    requires Choice(items, chosen, already, taken, peers[p].wanted)
    ensures |peers[p].outstanding + Elements(items)| == |peers[p].outstanding| + |items|
  {
    OutIs(peers, p);
    hide Elements;
    assert peers[p].outstanding !! Elements(items);
  }

  lemma NoPlan(peers: map<PeerId, Peer>, taken: set<BlockId>, limit: nat)
    ensures Plan(map[], {}, peers, taken, limit)
  {
  }

  lemma PlanAdd(plan: map<PeerId, seq<BlockId>>, chosen: set<BlockId>, peers: map<PeerId, Peer>, taken: set<BlockId>, limit: nat,
                p: PeerId, items: seq<BlockId>, chosen': set<BlockId>)
    requires Plan(plan, chosen, peers, taken, limit) && p in peers && p !in plan
    requires Choice(items, chosen', chosen, taken, peers[p].wanted) && |peers[p].outstanding| + |items| <= limit
    ensures Plan(plan[p := items], chosen', peers, taken, limit)
  {
    hide Shares, Covers;
    CoversAdd(plan, chosen, p, items);
    SharesAdd(plan, chosen, peers, limit, p, items);
  }

  lemma CoversAdd(plan: map<PeerId, seq<BlockId>>, chosen: set<BlockId>, p: PeerId, items: seq<BlockId>)
    requires Covers(plan, chosen) && p !in plan
    ensures Covers(plan[p := items], chosen + Elements(items))
  {
    hide Elements;
    var plan' := plan[p := items];
    forall b | b in chosen + Elements(items) ensures exists q :: q in plan' && b in Elements(plan'[q]) {
      if b in chosen {
        var q :| q in plan && b in Elements(plan[q]);
        assert q in plan' && b in Elements(plan'[q]);
      } else {
        assert p in plan' && b in Elements(plan'[p]);
      }
    }
  }

  lemma SharesAdd(plan: map<PeerId, seq<BlockId>>, chosen: set<BlockId>, peers: map<PeerId, Peer>, limit: nat,
                  p: PeerId, items: seq<BlockId>)
    requires Shares(plan, chosen, peers, limit) && p in peers && p !in plan
    requires Share(items, peers[p], chosen + Elements(items), limit) && Elements(items) !! chosen
    ensures Shares(plan[p := items], chosen + Elements(items), peers, limit)
  {
    hide Elements;
    forall q | q in plan
      ensures Share(plan[q], peers[q], chosen + Elements(items), limit) && Elements(plan[q]) !! Elements(items)
    {
      assert Share(plan[q], peers[q], chosen, limit);
    }
  }

  lemma ChoiceGrows(items: seq<BlockId>, chosen: set<BlockId>, already: set<BlockId>, taken: set<BlockId>, wanted: seq<BlockId>)
    requires Choice(items, chosen, already, taken, wanted)
    ensures already <= chosen && |already| <= |chosen|
  {
    SubsetSize(already, chosen);
  }

  lemma WithinLimit(peers: map<PeerId, Peer>, requested: set<BlockId>, limit: nat, p: PeerId)
    requires Assigned(Out(peers), requested, limit) && p in peers
    ensures |peers[p].outstanding| <= limit
  {
    OutIs(peers, p);
  }

  lemma NoChoice(already: set<BlockId>, taken: set<BlockId>, wanted: seq<BlockId>)
    ensures Choice([], already, already, taken, wanted) && Elements(wanted[..0]) == {}
  {
  }

  lemma ChoicePush(items: seq<BlockId>, chosen: set<BlockId>, already: set<BlockId>, taken: set<BlockId>, wanted: seq<BlockId>, i: nat)
    requires Choice(items, chosen, already, taken, wanted) && i < |wanted| && wanted[i] !in chosen && wanted[i] !in taken
    ensures Choice(items + [wanted[i]], chosen + {wanted[i]}, already, taken, wanted)
  {
    ElementsPush(items, wanted[i]);
  }

  lemma NoElements(ids: seq<BlockId>)
    ensures Elements(ids[..0]) == {}
  {
  }

  lemma ElementsPush(ids: seq<BlockId>, b: BlockId)
    ensures Elements(ids + [b]) == Elements(ids) + {b}
  {
  }

  ghost predicate EachPopped(before: map<PeerId, Peer>, peers: map<PeerId, Peer>, b: BlockId, done: set<PeerId>) {
    peers.Keys == before.Keys && forall p :: p in peers ==> peers[p] == if p in done then Popped(before[p], b) else before[p]
  }

  predicate HeadsAmong(peers: map<PeerId, Peer>, b: BlockId, done: set<PeerId>) {
    exists p :: p in done && p in peers && Ready(peers[p], b)
  }

  /** Some peer's list begins with the block. */
  predicate Heads(peers: map<PeerId, Peer>, b: BlockId) {
    HeadsAmong(peers, b, peers.Keys)
  }

  lemma WelcomeMeans(peers: map<PeerId, Peer>, b: BlockId, advertised: set<PeerId>, d: Delegate)
    ensures forall q :: q in peers ==>
              q in WelcomeAll(peers, b, advertised, d) && var was := peers[q];
              WelcomeAll(peers, b, advertised, d)[q]
              == was.(lastSeen := if was.connected && q in advertised then b else was.lastSeen,
                      connected := was.connected && !d.outgrown(was.knownFork, b))
  {
  }

  function WelcomeAll(peers: map<PeerId, Peer>, b: BlockId, advertised: set<PeerId>, d: Delegate): map<PeerId, Peer> {
    map q | q in peers :: Welcomed(peers[q], b, q in advertised, d)
  }

  ghost predicate Welcoming(before: map<PeerId, Peer>, peers: map<PeerId, Peer>, b: BlockId, advertised: set<PeerId>, d: Delegate,
                            done: set<PeerId>)
  {
    && peers.Keys == before.Keys
    && forall q :: q in peers ==> peers[q] == if q in done then Welcomed(before[q], b, q in advertised, d) else before[q]
  }

  lemma NobodyWelcomed(peers: map<PeerId, Peer>, b: BlockId, advertised: set<PeerId>, d: Delegate)
    ensures Welcoming(peers, peers, b, advertised, d, {})
  {
  }

  lemma WelcomeOne(before: map<PeerId, Peer>, peers: map<PeerId, Peer>, b: BlockId, advertised: set<PeerId>, d: Delegate,
                   done: set<PeerId>, q: PeerId)
    requires Welcoming(before, peers, b, advertised, d, done) && q in peers && q !in done
    ensures Welcoming(before, peers[q := Welcomed(peers[q], b, q in advertised, d)], b, advertised, d, done + {q})
  {
    hide Welcomed;
  }

  lemma AllWelcomed(before: map<PeerId, Peer>, peers: map<PeerId, Peer>, b: BlockId, advertised: set<PeerId>, d: Delegate)
    requires Welcoming(before, peers, b, advertised, d, before.Keys)
    ensures peers == WelcomeAll(before, b, advertised, d)
  {
    hide Welcomed;
  }

  lemma WelcomedIs(peer: Peer, b: BlockId, advertised: bool, d: Delegate)
    ensures var seen := if advertised then peer.(lastSeen := b) else peer;
            Welcomed(peer, b, advertised, d)
            == if !peer.connected then peer else if d.outgrown(peer.knownFork, b) then seen.(connected := false) else seen
  {
  }

  lemma WelcomedSteady(peer: Peer, b: BlockId, advertised: bool, d: Delegate)
    ensures Welcomed(peer, b, advertised, d).wanted == peer.wanted && Welcomed(peer, b, advertised, d).outstanding == peer.outstanding
  {
  }

  lemma ThrowsNothing(peer: Peer, d: Delegate)
    ensures Throws(peer, d) ==> NextBatch(peer, d) == peer
  {
  }

  /** Whoever of `done` was ready to give the block is disconnected, the others are as they were. */
  ghost predicate Shunned(before: map<PeerId, Peer>, peers: map<PeerId, Peer>, b: BlockId, done: set<PeerId>) {
    && peers.Keys == before.Keys
    && forall q :: q in peers ==>
         peers[q] == if q in done && Ready(before[q], b) then before[q].(connected := false) else before[q]
  }

  lemma ShunnedMeans(before: map<PeerId, Peer>, p: PeerId, peers: map<PeerId, Peer>, b: BlockId)
    requires p in before && Shunned(before[p := before[p].(connected := false)], peers, b, before.Keys)
    ensures forall q :: q in before ==>
              q in peers && var was := before[q];
              peers[q] == was.(connected := was.connected && q != p && !(was.wanted != [] && was.wanted[0] == b))
  {
  }

  lemma NobodyShunned(peers: map<PeerId, Peer>, b: BlockId)
    ensures Shunned(peers, peers, b, {})
  {
  }

  lemma ShunOne(before: map<PeerId, Peer>, peers: map<PeerId, Peer>, b: BlockId, done: set<PeerId>, q: PeerId)
    requires Shunned(before, peers, b, done) && q in peers && q !in done
    ensures Shunned(before, if Ready(peers[q], b) then peers[q := peers[q].(connected := false)] else peers, b, done + {q})
  {
  }

  /** The peers of `done` have been told of an accepted block, and sorted by what that means for them. */
  ghost predicate Telling(before: map<PeerId, Peer>, peers: map<PeerId, Peer>, b: BlockId, done: set<PeerId>,
                          emptied: set<PeerId>, idle: set<PeerId>, d: Delegate)
  {
    && peers.Keys == before.Keys
    && (forall q :: q in peers ==> peers[q] == if q in done then Seen(before[q], b, d) else before[q])
    && (forall q :: q in before ==> (q in emptied <==> q in done && Emptied(before[q], b, d)))
    && (forall q :: q in before ==> (q in idle <==> q in done && Idle(Seen(before[q], b, d), b, d)))
  }

  lemma NobodyTold(peers: map<PeerId, Peer>, b: BlockId, d: Delegate)
    ensures Telling(peers, peers, b, {}, {}, {}, d)
  {
  }

  lemma TellOne(before: map<PeerId, Peer>, peers: map<PeerId, Peer>, b: BlockId, done: set<PeerId>,
                emptied: set<PeerId>, idle: set<PeerId>, q: PeerId, d: Delegate)
    requires Telling(before, peers, b, done, emptied, idle, d) && q in peers && q !in done
    ensures Telling(before, peers[q := Seen(peers[q], b, d)], b, done + {q},
                    if Emptied(peers[q], b, d) then emptied + {q} else emptied,
                    if Idle(Seen(peers[q], b, d), b, d) then idle + {q} else idle, d)
  {
    hide Seen, Idle, Emptied;
  }

  /** Somebody who has run out of ids cannot be given a synopsis. */
  ghost predicate SomeThrow(peers: map<PeerId, Peer>, b: BlockId, d: Delegate) {
    exists q :: q in peers && Emptied(peers[q], b, d) && Throws(Seen(peers[q], b, d), d)
  }

  function SeenAll(peers: map<PeerId, Peer>, b: BlockId, d: Delegate): map<PeerId, Peer> {
    map q | q in peers :: Seen(peers[q], b, d)
  }

  /** Everybody has been told, but only some of those who have run out of ids were asked, and nobody restarted. */
  ghost predicate Interrupted(before: map<PeerId, Peer>, peers: map<PeerId, Peer>, b: BlockId, d: Delegate) {
    exists done :: EachAsked(SeenAll(before, b, d), peers, done, {}, d)
  }

  lemma ToldThrows(before: map<PeerId, Peer>, told: map<PeerId, Peer>, b: BlockId, emptied: set<PeerId>, idle: set<PeerId>, d: Delegate)
    requires Telling(before, told, b, before.Keys, emptied, idle, d) && emptied <= before.Keys
    ensures SomeThrow(before, b, d) == exists q :: q in emptied && Throws(told[q], d)
  {
    hide Seen, Idle, Emptied, Throws;
    if SomeThrow(before, b, d) {
      var q :| q in before && Emptied(before[q], b, d) && Throws(Seen(before[q], b, d), d);
      assert q in emptied && Throws(told[q], d);
    }
    if q :| q in emptied && Throws(told[q], d) {
      assert q in before && Emptied(before[q], b, d) && Throws(Seen(before[q], b, d), d);
    }
  }

  lemma ToldInterrupted(before: map<PeerId, Peer>, told: map<PeerId, Peer>, peers: map<PeerId, Peer>, b: BlockId,
                        emptied: set<PeerId>, idle: set<PeerId>, d: Delegate)
    requires Telling(before, told, b, before.Keys, emptied, idle, d) && exists done :: EachAsked(told, peers, done, {}, d)
    ensures Interrupted(before, peers, b, d)
  {
    hide Seen, Idle, Emptied, EachAsked;
    assert told == SeenAll(before, b, d);
  }

  ghost predicate EachAsked(before: map<PeerId, Peer>, peers: map<PeerId, Peer>, emptied: set<PeerId>, idle: set<PeerId>, d: Delegate) {
    peers.Keys == before.Keys && forall q :: q in peers ==> peers[q] == Asked(before[q], q in emptied, q in idle, d)
  }

  lemma NobodyAsked(peers: map<PeerId, Peer>, d: Delegate)
    ensures EachAsked(peers, peers, {}, {}, d)
  {
    hide NextBatch, Restarted;
  }

  lemma AskOne(before: map<PeerId, Peer>, peers: map<PeerId, Peer>, done: set<PeerId>, q: PeerId, d: Delegate)
    requires EachAsked(before, peers, done, {}, d) && q in peers && q !in done
    ensures q in before && peers[q] == before[q]
    ensures EachAsked(before, peers[q := NextBatch(peers[q], d)], done + {q}, {}, d)
  {
    hide NextBatch, Restarted;
  }

  lemma RestartOne(before: map<PeerId, Peer>, peers: map<PeerId, Peer>, emptied: set<PeerId>, done: set<PeerId>, q: PeerId, d: Delegate)
    requires EachAsked(before, peers, emptied, done, d) && q in peers && q !in done
    ensures EachAsked(before, peers[q := Restarted(peers[q], d)], emptied, done + {q}, d)
  {
    hide NextBatch, Restarted;
  }

  lemma AllTold(before: map<PeerId, Peer>, told: map<PeerId, Peer>, peers: map<PeerId, Peer>, b: BlockId,
                emptied: set<PeerId>, idle: set<PeerId>, d: Delegate)
    requires Telling(before, told, b, before.Keys, emptied, idle, d) && EachAsked(told, peers, emptied, idle, d)
    ensures peers == map q | q in before :: Notified(before[q], b, d)
  {
    hide Seen, Idle, Asked, Emptied;
  }

  lemma NonePopped(peers: map<PeerId, Peer>, b: BlockId)
    ensures EachPopped(peers, peers, b, {}) && !HeadsAmong(peers, b, {})
  {
  }

  lemma PopOne(before: map<PeerId, Peer>, peers: map<PeerId, Peer>, b: BlockId, done: set<PeerId>, q: PeerId)
    requires EachPopped(before, peers, b, done) && q in peers && q !in done && WantedOk(peers)
    ensures var peer := Popped(peers[q], b);
            && Consecutive(peer.wanted) && peer.outstanding == peers[q].outstanding
            && EachPopped(before, peers[q := peer], b, done + {q})
            && (!Ready(peers[q], b) ==> EachPopped(before, peers, b, done + {q}))
            && HeadsAmong(before, b, done + {q}) == (HeadsAmong(before, b, done) || Ready(peers[q], b))
  {
    hide Consecutive;
    if Ready(peers[q], b) {
      ConsecutiveSlice(peers[q].wanted, 1, |peers[q].wanted|);
      assert peers[q].wanted[1..|peers[q].wanted|] == peers[q].wanted[1..];
      assert q in done + {q} && q in before && Ready(before[q], b);
    }
    if HeadsAmong(before, b, done) {
      var p :| p in done && p in before && Ready(before[p], b);
      assert p in done + {q};
    }
  }

  /** No list has grown: each is as it was, or lost blocks from its front. */
  ghost predicate Shrunk(before: map<PeerId, Peer>, peers: map<PeerId, Peer>) {
    peers.Keys == before.Keys && forall p :: p in peers ==> Suffix(peers[p].wanted, before[p].wanted)
  }

  ghost predicate Suffix(ids: seq<BlockId>, of: seq<BlockId>) {
    exists k :: 0 <= k <= |of| && ids == of[k..]
  }

  lemma SameShrunk(peers: map<PeerId, Peer>)
    ensures Shrunk(peers, peers)
  {
    forall p | p in peers ensures Suffix(peers[p].wanted, peers[p].wanted) {
      assert peers[p].wanted == peers[p].wanted[0..];
    }
  }

  lemma WorkedShrunk(peers: map<PeerId, Peer>, accepted: seq<BlockId>, b: BlockId, d: Delegate)
    ensures Shrunk(peers, Worked(peers, accepted, b, d))
  {
    hide Notified, Popped, Suffix;
    var after := Worked(peers, accepted, b, d);
    forall p | p in after ensures Suffix(after[p].wanted, peers[p].wanted) {
      var popped := Popped(peers[p], b);
      NotifiedSteady(popped, b, d);
      PoppedSuffix(peers[p], b);
      SteadySuffix(popped, Notified(popped, b, d));
      SuffixTwice(Notified(popped, b, d).wanted, popped.wanted, peers[p].wanted);
    }
  }

  lemma InterruptedShrunk(was: map<PeerId, Peer>, peers: map<PeerId, Peer>, b: BlockId, d: Delegate)
    requires Interrupted(PopAll(was, b), peers, b, d)
    ensures Shrunk(was, peers)
  {
    hide Asked, Seen, Popped, Suffix;
    var popped := PopAll(was, b);
    var done :| EachAsked(SeenAll(popped, b, d), peers, done, {}, d);
    forall p | p in peers ensures Suffix(peers[p].wanted, was[p].wanted) {
      PoppedSuffix(was[p], b);
      SeenSteady(popped[p], b, d);
      AskedSteady(Seen(popped[p], b, d), p in done, false, d);
      SteadySuffix(Seen(popped[p], b, d), peers[p]);
      SuffixTwice(peers[p].wanted, popped[p].wanted, was[p].wanted);
    }
  }

  lemma PoppedSuffix(peer: Peer, b: BlockId)
    ensures Suffix(Popped(peer, b).wanted, peer.wanted)
  {
    assert peer.wanted[0..] == peer.wanted;
  }

  lemma SteadySuffix(peer: Peer, peer': Peer)
    requires Steady(peer, peer')
    ensures Suffix(peer'.wanted, peer.wanted)
  {
    assert peer.wanted[0..] == peer.wanted && peer.wanted[|peer.wanted|..] == [];
  }

  lemma ShrunkTwice(a: map<PeerId, Peer>, b: map<PeerId, Peer>, c: map<PeerId, Peer>)
    requires Shrunk(a, b) && Shrunk(b, c)
    ensures Shrunk(a, c)
  {
    hide Suffix;
    forall p | p in c ensures Suffix(c[p].wanted, a[p].wanted) {
      SuffixTwice(c[p].wanted, b[p].wanted, a[p].wanted);
    }
  }

  lemma SuffixTwice(c: seq<BlockId>, b: seq<BlockId>, a: seq<BlockId>)
    requires Suffix(c, b) && Suffix(b, a)
    ensures Suffix(c, a)
  {
    var k :| 0 <= k <= |a| && b == a[k..];
    var j :| 0 <= j <= |b| && c == b[j..];
    assert c == a[k + j..];
  }

  lemma PopAllMeans(peers: map<PeerId, Peer>, b: BlockId)
    ensures forall q :: q in peers ==>
              q in PopAll(peers, b) && var was := peers[q];
              PopAll(peers, b)[q] == if was.connected && was.wanted != [] && was.wanted[0] == b
                                     then was.(wanted := was.wanted[1..], processing := was.processing + {b}) else was
  {
  }

  function PopAll(peers: map<PeerId, Peer>, b: BlockId): map<PeerId, Peer> {
    map q | q in peers :: Popped(peers[q], b)
  }

  /** The peers after a ready block has been worked on. */
  function Worked(peers: map<PeerId, Peer>, accepted: seq<BlockId>, b: BlockId, d: Delegate): map<PeerId, Peer> {
    var popped := PopAll(peers, b);
    if b !in accepted && d.accepts(b) then map q | q in popped :: Notified(popped[q], b, d) else popped
  }

  /** The first block that heads some list is at `k`, or none does. */
  ghost predicate FirstReady(peers: map<PeerId, Peer>, received: seq<BlockId>, k: nat) {
    && k <= |received| && (forall i :: 0 <= i < k ==> !Heads(peers, received[i]))
    && (k < |received| ==> Heads(peers, received[k]))
  }

  lemma PoppedAll(before: map<PeerId, Peer>, peers: map<PeerId, Peer>, b: BlockId, ready: bool)
    requires EachPopped(before, peers, b, before.Keys) && ready == Heads(before, b)
    ensures peers == PopAll(before, b) && (!ready ==> peers == before)
  {
  }

  lemma {:induction false} ReversedSame(ids: seq<BlockId>)
    ensures multiset(Reversed(ids)) == multiset(ids)
  {
    if ids != [] {
      var rest := ids[..|ids| - 1];
      ReversedSame(rest);
      assert Reversed(ids) == [ids[|ids| - 1]] + Reversed(rest);
      assert ids == rest + [ids[|ids| - 1]];
    }
  }

  lemma Without(ids: seq<BlockId>, k: nat)
    requires k < |ids|
    ensures multiset(ids[..k] + ids[k + 1..]) <= multiset(ids)
  {
    assert ids == ids[..k] + [ids[k]] + ids[k + 1..];
  }
}
