/** The synopsis a node sends to a peer: block ids at exponentially closer distances, the low part from
    the node's own chain, the high part from the ids the peer has already announced. */
module Synopses {
  import opened Bits
  import opened Blocks
  import opened Collections

  // ---------- the block numbers of a synopsis ----------

  function Next(low: nat, high: nat): nat
    requires low <= high
  {
    low + (high - low + 2) / 2
  }

  function Points(low: nat, high: nat): seq<nat>
    decreases high + 1 - low
  {
    if low > high then [] else [low] + Points(Next(low, high), high)
  }

  predicate Ascending(ps: seq<nat>) {
    forall i, j :: 0 <= i < j < |ps| ==> ps[i] < ps[j]
  }

  predicate Within(ps: seq<nat>, low: nat, high: nat) {
    forall i :: 0 <= i < |ps| ==> low <= ps[i] <= high
  }

  lemma AscendingCons(p: nat, ps: seq<nat>, low: nat, high: nat)
    requires Ascending(ps) && Within(ps, low, high) && p < low && p <= high
    ensures Ascending([p] + ps) && Within([p] + ps, p, high)
  {
  }

  /** They start low, end high and rise in between. */
  lemma {:induction false} PointsShape(low: nat, high: nat)
    ensures var ps := Points(low, high);
            && Ascending(ps) && Within(ps, low, high)
            && (low <= high ==> ps != [] && ps[0] == low && ps[|ps| - 1] == high)
    decreases high + 1 - low
  {
    hide Ascending, Within;
    if low <= high {
      PointsShape(Next(low, high), high);
      AscendingCons(low, Points(Next(low, high), high), Next(low, high), high);
    } else {
      NoPoints(low, high);
    }
  }

  lemma NoPoints(low: nat, high: nat)
    ensures Ascending([]) && Within([], low, high)
  {
  }

  /** There are as many of them as the distance has binary digits. */
  lemma {:induction false} PointsLog(low: nat, high: nat)
    requires low <= high
    ensures var n := |Points(low, high)|; n >= 1 && Pow2(n - 1) <= high - low + 1 < Pow2(n)
    decreases high - low
  {
    if Next(low, high) <= high {
      PointsLog(Next(low, high), high);
    }
  }

  // ---------- the ids at those numbers ----------

  predicate Numbered(ids: seq<BlockId>, first: nat) {
    forall i :: 0 <= i < |ids| ==> ids[i].num == first + i
  }

  /** The ids, numbered from `first` on, whose numbers are among the points. */
  function Picked(ids: seq<BlockId>, first: nat, ps: seq<nat>): seq<BlockId> {
    if ps == [] then []
    else (if first <= ps[0] < first + |ids| then [ids[ps[0] - first]] else []) + Picked(ids, first, ps[1..])
  }

  lemma {:induction false} PickedAll(ids: seq<BlockId>, first: nat, ps: seq<nat>, k: nat)
    requires (forall i :: 0 <= i < |ps| ==> first <= ps[i] < first + |ids|) && k < |ps|
    ensures |Picked(ids, first, ps)| == |ps| && Picked(ids, first, ps)[k] == ids[ps[k] - first]
  {
    var rest := ps[1..];
    assert Picked(ids, first, ps) == [ids[ps[0] - first]] + Picked(ids, first, rest);
    if rest != [] {
      PickedAll(ids, first, rest, if k == 0 then 0 else k - 1);
    }
  }

  lemma {:induction false} PickedNone(ids: seq<BlockId>, first: nat, low: nat, high: nat)
    requires first + |ids| <= low
    ensures Picked(ids, first, Points(low, high)) == []
    decreases high + 1 - low
  {
    if low <= high {
      PickedNone(ids, first, Next(low, high), high);
      assert Points(low, high)[1..] == Points(Next(low, high), high);
    }
  }

  lemma PickedStep(ids: seq<BlockId>, first: nat, low: nat, high: nat)
    requires low <= high
    ensures Picked(ids, first, Points(low, high))
            == (if first <= low < first + |ids| then [ids[low - first]] else []) + Picked(ids, first, Points(Next(low, high), high))
  {
    hide Picked, Points;
    PointsCons(low, high);
    PickedCons(ids, first, low, Points(Next(low, high), high));
  }

  lemma PointsCons(low: nat, high: nat)
    requires low <= high
    ensures Points(low, high) == [low] + Points(Next(low, high), high)
  {
  }

  lemma PickedCons(ids: seq<BlockId>, first: nat, p: nat, ps: seq<nat>)
    ensures Picked(ids, first, [p] + ps) == (if first <= p < first + |ids| then [ids[p - first]] else []) + Picked(ids, first, ps)
  {
    assert ([p] + ps)[1..] == ps;
  }

  /** Picking from two adjoining stretches is picking from the whole. */
  lemma {:induction false} PickedSplit(ids: seq<BlockId>, more: seq<BlockId>, first: nat, low: nat, high: nat)
    ensures Picked(ids + more, first, Points(low, high))
            == Picked(ids, first, Points(low, high)) + Picked(more, first + |ids|, Points(low, high))
    decreases high + 1 - low
  {
    if low <= high {
      hide Picked, Points;
      PickedStep(ids + more, first, low, high);
      PickedStep(ids, first, low, high);
      PickedStep(more, first + |ids|, low, high);
      PickedSplit(ids, more, first, Next(low, high), high);
      if low >= first + |ids| {
        PickedNone(ids, first, Next(low, high), high);
      }
    }
  }

  // ---------- the node's own chain ----------

  /** What the fork database reports for a block off the main chain: the blocks from it down, the last
      one common with the main chain. */
  predicate ForkHistory(main: seq<BlockId>, reference: BlockId, history: seq<BlockId>) {
    && |history| >= 2 && history[0] == reference && history[|history| - 1].num <= |main|
    && forall i :: 0 <= i < |history| ==> history[i].num + i == reference.num
  }

  predicate OnMain(main: seq<BlockId>, reference: BlockId) {
    1 <= reference.num <= |main| && main[reference.num - 1] == reference
  }

  /** The chain up to the reference point. */
  function PathTo(main: seq<BlockId>, reference: BlockId, history: seq<BlockId>): seq<BlockId>
    requires reference == NULL_ID || OnMain(main, reference) || ForkHistory(main, reference, history)
  {
    if reference == NULL_ID then main
    else if OnMain(main, reference) then main[..reference.num]
    else main[..history[|history| - 1].num] + Reversed(history[..|history| - 1])
  }

  function LowFor(main: seq<BlockId>, reference: BlockId, undoable: nat): nat {
    var low := if OnMain(main, reference) && reference.num < undoable then reference.num else undoable;
    if low == 0 then 1 else low
  }

  /** A synopsis starts at the undo limit, or at the reference point if that is lower, and at block 1 at least. */
  lemma LowForMeans(main: seq<BlockId>, reference: BlockId, undoable: nat)
    ensures LowFor(main, reference, undoable) == Max(1, if OnMain(main, reference) then Min(reference.num, undoable) else undoable)
  {
  }

  /** The delegate's part; None where it throws because the fork is too old. */
  method ChainSynopsis(main: seq<BlockId>, undoable: nat, reference: BlockId, history: seq<BlockId>, after: nat)
    returns (r: Option<seq<BlockId>>)
    requires Numbered(main, 1) && undoable <= |main|
    requires reference == NULL_ID || OnMain(main, reference) || ForkHistory(main, reference, history)
    ensures r.None? <==> reference != NULL_ID && !OnMain(main, reference) && history[|history| - 1].num < undoable
    ensures r.Some? ==>
              var path := PathTo(main, reference, history);
              && (LowFor(main, reference, undoable) <= |path| || path == [])
              && r.value == Picked(path, 1, Points(LowFor(main, reference, undoable), |path| + after))
  {
    hide Picked, Points;
    var low, forkIds := undoable, [];
    var high: nat, nonFork: nat := 0, 0;
    if reference != NULL_ID {
      if OnMain(main, reference) {
        high := reference.num;
        nonFork := high;
        if reference.num < low {
          low := reference.num;
        }
      } else {
        nonFork := history[|history| - 1].num;
        forkIds := Reversed(history[..|history| - 1]);
        high := nonFork + |forkIds|;
        if nonFork < low {
          return None;
        }
      }
    } else {
      high := |main|;
      nonFork := high;
    }
    ghost var path := PathTo(main, reference, history);
    if high == 0 {
      PickedNone(path, 1, LowFor(main, reference, undoable), after);
      return Some([]);
    }
    if low == 0 {
      low := 1;
    }
    assert path == main[..nonFork] + forkIds;
    var synopsis := PickChain(main[..nonFork], forkIds, low, after);
    r := Some(synopsis);
  }

  /** The loop of the delegate's part: low numbers from the main chain, the others from the fork. */
  method PickChain(main: seq<BlockId>, forkIds: seq<BlockId>, start: nat, after: nat) returns (synopsis: seq<BlockId>)
    requires 1 <= start <= |main| + |forkIds|
    ensures synopsis == Picked(main + forkIds, 1, Points(start, |main| + |forkIds| + after))
  {
    hide Picked, Points;
    synopsis := [];
    var low, high := start, |main| + |forkIds|;
    var trueHigh := high + after;
    while true
      invariant 1 <= low <= high
      invariant Picked(main + forkIds, 1, Points(start, trueHigh)) == synopsis + Picked(main + forkIds, 1, Points(low, trueHigh))
      decreases high - low
    {
      PickedStep(main + forkIds, 1, low, trueHigh);
      if low <= |main| {
        synopsis := synopsis + [main[low - 1]];
      } else {
        synopsis := synopsis + [forkIds[low - |main| - 1]];
      }
      low := low + (trueHigh - low + 2) / 2;
      if low > high {
        break;
      }
    }
    PickedNone(main + forkIds, 1, low, trueHigh);
  }

  // ---------- the announced ids ----------

  datatype SynopsisResult = Built(synopsis: seq<BlockId>) | TooOldFork | OutOfRange

  function LowOf(chain: seq<BlockId>): nat {
    if chain == [] then 1 else chain[0].num
  }

  /** What is to come out: the chain's part and the announced ids at the points from its first block on. */
  function SynopsisOf(chain: seq<BlockId>, reference: BlockId, ids: seq<BlockId>): SynopsisResult {
    if reference != NULL_ID && chain == [] then TooOldFork
    else if ids == [] then Built(chain)
    else if LowOf(chain) > ids[0].num + |ids| - 1 then OutOfRange
    else Built(chain + Picked(ids, ids[0].num, Points(LowOf(chain), ids[0].num + |ids| - 1)))
  }

  /** The peer's part, appended to what the delegate returned. */
  method CreateSynopsis(chain: seq<BlockId>, reference: BlockId, ids: seq<BlockId>) returns (r: SynopsisResult)
    requires ids != [] ==> Numbered(ids, ids[0].num)
    ensures r == SynopsisOf(chain, reference, ids)
    ensures r.Built? && ids != [] ==> r.synopsis != [] && r.synopsis[|r.synopsis| - 1] == ids[|ids| - 1]
  {
    hide Picked, Points;
    if reference != NULL_ID && chain == [] {
      return TooOldFork;
    }
    var synopsis := chain;
    if |ids| > 0 {
      var first := ids[0].num;
      var trueHigh := first + |ids| - 1;
      var low := LowOf(chain);
      ghost var start := low;
      while true
        invariant start <= trueHigh ==> low <= trueHigh
        invariant start > trueHigh ==> low == start
        invariant chain + Picked(ids, first, Points(start, trueHigh)) == synopsis + Picked(ids, first, Points(low, trueHigh))
        decreases trueHigh - low
      {
        if low >= first {
          var idx := low - first;
          if idx >= |ids| {
            return OutOfRange;
          }
          synopsis := synopsis + [ids[idx]];
        }
        PickedStep(ids, first, low, trueHigh);
        low := low + (trueHigh - low + 2) / 2;
        if low > trueHigh {
          break;
        }
      }
      PickedNone(ids, first, low, trueHigh);
      assert synopsis[|synopsis| - 1] == ids[|ids| - 1];
    }
    r := Built(synopsis);
  }

  // ---------- both parts together ----------

  lemma FirstPicked(path: seq<BlockId>, low: nat, high: nat)
    requires Numbered(path, 1) && 1 <= low <= |path| <= high
    ensures Picked(path, 1, Points(low, high)) != [] && Picked(path, 1, Points(low, high))[0].num == low
  {
    PickedStep(path, 1, low, high);
  }

  lemma WholeSynopsis(chain: seq<BlockId>, low: nat)
    requires Numbered(chain, 1) && low >= 1
    ensures var ps := Points(low, |chain|);
            && |Picked(chain, 1, ps)| == |ps|
            && forall k :: 0 <= k < |ps| ==> 1 <= ps[k] <= |chain| && Picked(chain, 1, ps)[k] == chain[ps[k] - 1]
  {
    hide Picked, Points;
    var ps := Points(low, |chain|);
    PointsShape(low, |chain|);
    forall k | 0 <= k < |ps| ensures |Picked(chain, 1, ps)| == |ps| && Picked(chain, 1, ps)[k] == chain[ps[k] - 1] {
      PickedAll(chain, 1, ps, k);
    }
    if ps == [] {
      assert |Picked(chain, 1, [])| == 0 by { NothingPicked(chain); }
    }
  }

  lemma NothingPicked(chain: seq<BlockId>)
    ensures Picked(chain, 1, []) == []
  {
  }

  /** The chain's part for a peer. */
  function OwnPart(path: seq<BlockId>, low: nat, after: nat): seq<BlockId> {
    Picked(path, 1, Points(low, |path| + after))
  }

  lemma OwnPartLow(path: seq<BlockId>, low: nat, after: nat)
    requires Numbered(path, 1) && 1 <= low && if path == [] then low == 1 else low <= |path|
    ensures LowOf(OwnPart(path, low, after)) == low && (OwnPart(path, low, after) == [] <==> path == [])
  {
    hide Picked, Points;
    if path != [] {
      FirstPicked(path, low, |path| + after);
    } else {
      PickedNone(path, 1, low, after);
    }
  }

  /** What both loops together make of own and announced ids. */
  lemma BothParts(path: seq<BlockId>, low: nat, reference: BlockId, ids: seq<BlockId>)
    requires Numbered(path, 1) && 1 <= low && (if path == [] then low == 1 && reference == NULL_ID else low <= |path|)
    ensures var r := SynopsisOf(OwnPart(path, low, |ids|), reference, ids);
            && !r.TooOldFork? && (r.OutOfRange? <==> ids != [] && low > ids[0].num + |ids| - 1)
            && (r.Built? && Numbered(ids, |path| + 1) ==>
                  var chain, ps := path + ids, Points(low, |path + ids|);
                  && |r.synopsis| == |ps|
                  && forall k :: 0 <= k < |ps| ==> 1 <= ps[k] <= |chain| && r.synopsis[k] == chain[ps[k] - 1])
  {
    hide Picked, Points;
    OwnPartLow(path, low, |ids|);
    if Numbered(ids, |path| + 1) {
      Seamless(path, ids, low);
    }
  }

  /** The synopsis for a peer.  It is out of range exactly when the undo limit is above the last announced
      block.  When the announced ids begin right after the reference point the two loops, run with the same
      step, produce one seamless synopsis: the ids of the whole chain, own and announced, at the points from
      the undo limit to the last announced block. */
  method SynopsisForPeer(main: seq<BlockId>, undoable: nat, reference: BlockId, history: seq<BlockId>, ids: seq<BlockId>)
    returns (r: SynopsisResult)
    requires Numbered(main, 1) && undoable <= |main|
    requires reference == NULL_ID || OnMain(main, reference) || ForkHistory(main, reference, history)
    requires ids != [] ==> Numbered(ids, ids[0].num)
    ensures r.TooOldFork? <==> reference != NULL_ID && !OnMain(main, reference) && history[|history| - 1].num < undoable
    ensures r.OutOfRange? <==> !r.TooOldFork? && ids != [] && LowFor(main, reference, undoable) > ids[0].num + |ids| - 1
    ensures r.Built? && ids != [] ==> r.synopsis != [] && r.synopsis[|r.synopsis| - 1] == ids[|ids| - 1]
    ensures r.Built? && Numbered(ids, |PathTo(main, reference, history)| + 1) ==>
              var chain := PathTo(main, reference, history) + ids;
              var ps := Points(LowFor(main, reference, undoable), |chain|);
              && |r.synopsis| == |ps|
              && forall k :: 0 <= k < |ps| ==> 1 <= ps[k] <= |chain| && r.synopsis[k] == chain[ps[k] - 1]
  {
    hide Picked, Points, SynopsisOf, Numbered, LowFor, PathTo, OnMain, ForkHistory;
    var part := ChainSynopsis(main, undoable, reference, history, |ids|);
    if part.None? {
      return TooOldFork;
    }
    PathNumbered(main, reference, history, undoable);
    BothParts(PathTo(main, reference, history), LowFor(main, reference, undoable), reference, ids);
    r := CreateSynopsis(part.value, reference, ids);
  }

  /** The two parts, taken at the same points, are the whole taken at those points. */
  lemma Seamless(path: seq<BlockId>, ids: seq<BlockId>, low: nat)
    requires Numbered(path, 1) && Numbered(ids, |path| + 1) && low >= 1
    ensures var chain, ps := path + ids, Points(low, |path + ids|);
            var s := Picked(path, 1, ps) + if ids == [] then [] else Picked(ids, |path| + 1, ps);
            && |s| == |ps|
            && forall k :: 0 <= k < |ps| ==> 1 <= ps[k] <= |chain| && s[k] == chain[ps[k] - 1]
  {
    hide Picked, Points;
    PickedSplit(path, ids, 1, low, |path| + |ids|);
    if ids == [] {
      assert path + ids == path;
    }
    WholeSynopsis(path + ids, low);
  }

  lemma PathNumbered(main: seq<BlockId>, reference: BlockId, history: seq<BlockId>, undoable: nat)
    requires Numbered(main, 1) && undoable <= |main|
    requires reference == NULL_ID || OnMain(main, reference) || ForkHistory(main, reference, history)
    ensures Numbered(PathTo(main, reference, history), 1)
    ensures PathTo(main, reference, history) == [] ==> reference == NULL_ID && LowFor(main, reference, undoable) == 1
    ensures LowFor(main, reference, undoable) >= 1
  {
  }
}
