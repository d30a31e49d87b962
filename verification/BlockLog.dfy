/** The block log on disk: packed blocks, each followed by its own position, and an index file of those
    positions.  Packing itself is a parameter. */
module BlockLogs {
  import opened Blocks
  import opened Collections

  newtype Byte = x: nat | x < 256

  const LIMIT: nat := 0x1_0000_0000_0000_0000

  // ---------- positions as eight bytes, low byte first ----------

  function Encode(x: nat, n: nat): (r: seq<Byte>)
    ensures |r| == n
  {
    if n == 0 then [] else [(x % 256) as Byte] + Encode(x / 256, n - 1)
  }

  function Decode(s: seq<Byte>): nat {
    if s == [] then 0 else s[0] as nat + 256 * Decode(s[1..])
  }

  function Range(n: nat): nat {
    if n == 0 then 1 else 256 * Range(n - 1)
  }

  lemma {:induction false} DecodeEncode(x: nat, n: nat)
    requires x < Range(n)
    ensures Decode(Encode(x, n)) == x
  {
    if n > 0 {
      DecodeEncode(x / 256, n - 1);
      assert Encode(x, n)[1..] == Encode(x / 256, n - 1);
    }
  }

  lemma PositionRoundTrip(x: nat)
    requires x < LIMIT
    ensures Decode(Encode(x, 8)) == x
  {
    assert Range(4) == 256 * (256 * (256 * (256 * Range(0))));
    assert Range(8) == 256 * (256 * (256 * (256 * Range(4))));
    DecodeEncode(x, 8);
  }

  // ---------- the files that append builds ----------

  /** How blocks are packed, and unpacked from the front of a stream. */
  datatype Codec = Codec(pack: Block -> seq<Byte>, unpack: seq<Byte> -> Option<(Block, nat)>) {

    function Pack(b: Block): seq<Byte> {
      pack(b)
    }
  }

  ghost predicate Faithful(c: Codec) {
    forall b: Block, rest: seq<Byte> :: c.unpack(c.Pack(b) + rest) == Some((b, |c.Pack(b)|))
  }

  function Start(c: Codec, chain: seq<Block>, k: nat): nat
    requires k <= |chain|
  {
    if k == 0 then 0 else Start(c, chain, k - 1) + |c.Pack(chain[k - 1])| + 8
  }

  function LogOf(c: Codec, chain: seq<Block>, k: nat): (r: seq<Byte>)
    requires k <= |chain|
    ensures |r| == Start(c, chain, k)
  {
    if k == 0 then [] else LogOf(c, chain, k - 1) + c.Pack(chain[k - 1]) + Encode(Start(c, chain, k - 1), 8)
  }

  function IndexOf(c: Codec, chain: seq<Block>, k: nat): (r: seq<Byte>)
    requires k <= |chain|
    ensures |r| == 8 * k
  {
    if k == 0 then [] else IndexOf(c, chain, k - 1) + Encode(Start(c, chain, k - 1), 8)
  }

  lemma {:induction false} StartRises(c: Codec, chain: seq<Block>, j: nat, k: nat)
    requires j <= k <= |chain|
    ensures Start(c, chain, j) + 8 * (k - j) <= Start(c, chain, k)
  {
    if j < k {
      StartRises(c, chain, j, k - 1);
    }
  }

  lemma {:induction false} LogPrefix(c: Codec, chain: seq<Block>, j: nat, k: nat)
    requires j <= k <= |chain|
    ensures LogOf(c, chain, j) <= LogOf(c, chain, k)
  {
    if j < k {
      LogPrefix(c, chain, j, k - 1);
    }
  }

  /** The record of block `k` in the log. */
  lemma RecordAt(c: Codec, chain: seq<Block>, k: nat)
    requires k < |chain|
    ensures var log, at, data := LogOf(c, chain, |chain|), Start(c, chain, k), c.Pack(chain[k]);
            && at + |data| + 8 == Start(c, chain, k + 1) <= |log|
            && log[at..] == data + log[at + |data|..]
            && log[at + |data|..at + |data| + 8] == Encode(at, 8)
  {
    hide Codec.Pack, Start, LogOf;
    var log, at, data := LogOf(c, chain, |chain|), Start(c, chain, k), c.Pack(chain[k]);
    LogPrefix(c, chain, k + 1, |chain|);
    LogStep(c, chain, k);
    StartRises(c, chain, k + 1, |chain|);
    var short := LogOf(c, chain, k + 1);
    assert short == LogOf(c, chain, k) + data + Encode(at, 8);
    assert log[..|short|] == short;
    assert short[at..at + |data|] == data;
    assert short[at + |data|..at + |data| + 8] == Encode(at, 8);
  }

  lemma LogStep(c: Codec, chain: seq<Block>, k: nat)
    requires k < |chain|
    ensures LogOf(c, chain, k + 1) == LogOf(c, chain, k) + c.Pack(chain[k]) + Encode(Start(c, chain, k), 8)
    ensures Start(c, chain, k + 1) == Start(c, chain, k) + |c.Pack(chain[k])| + 8
    ensures IndexOf(c, chain, k + 1) == IndexOf(c, chain, k) + Encode(Start(c, chain, k), 8)
  {
  }

  lemma {:induction false} SameChain(c: Codec, chain: seq<Block>, more: seq<Block>, k: nat)
    requires k <= |chain| && chain <= more
    ensures Start(c, chain, k) == Start(c, more, k) && LogOf(c, chain, k) == LogOf(c, more, k)
    ensures IndexOf(c, chain, k) == IndexOf(c, more, k)
  {
    if k > 0 {
      SameChain(c, chain, more, k - 1);
    }
  }

  lemma {:induction false} IndexAt(c: Codec, chain: seq<Block>, k: nat, n: nat)
    requires k < n <= |chain|
    ensures IndexOf(c, chain, n)[8 * k..8 * k + 8] == Encode(Start(c, chain, k), 8)
  {
    var rest := IndexOf(c, chain, n - 1);
    if k < n - 1 {
      IndexAt(c, chain, k, n - 1);
      assert IndexOf(c, chain, n)[8 * k..8 * k + 8] == rest[8 * k..8 * k + 8];
    }
  }

  /** The eight bytes at the end of a file, as a position. */
  function LastPosition(file: seq<Byte>): nat
    requires |file| >= 8
  {
    Decode(file[|file| - 8..])
  }

  /** The index that opening makes right: already right, or replaced because it is empty or disagrees with
      the log at its end; but a log of a single block is never replayed. */
  ghost predicate Recovers(c: Codec, chain: seq<Block>, index: seq<Byte>) {
    || chain == [] || index == IndexOf(c, chain, |chain|)
    || (|chain| >= 2 && (index == [] || (|index| >= 8 && LastPosition(index) != Start(c, chain, |chain| - 1))))
  }

  ghost predicate InOrder(chain: seq<Block>) {
    forall i :: 0 <= i < |chain| ==> chain[i].Num() == i + 1
  }

  class BlockLog {
    const codec: Codec
    var blocks: seq<Byte>
    var index: seq<Byte>
    var head: Option<Block>

    /** The log holds exactly this chain, numbered from one. */
    ghost predicate Holds(chain: seq<Block>)
      reads `blocks
    {
      blocks == LogOf(codec, chain, |chain|) && |blocks| < LIMIT && Faithful(codec) && InOrder(chain)
    }

    /** Open, with an index to match. */
    ghost predicate Ready(chain: seq<Block>)
      reads this
    {
      && Holds(chain) && index == IndexOf(codec, chain, |chain|)
      && head == if chain == [] then None else Some(chain[|chain| - 1])
    }

    constructor (c: Codec, blockFile: seq<Byte>, indexFile: seq<Byte>)
      ensures codec == c && blocks == blockFile && index == indexFile && head == None
    {
      codec, blocks, index, head := c, blockFile, indexFile, None;
    }

    method ReadBlock(pos: nat) returns (r: Option<(Block, nat)>)
      ensures pos > |blocks| ==> r == None
      ensures forall b, rest | pos <= |blocks| && Faithful(codec) && blocks[pos..] == codec.Pack(b) + rest ::
                r == Some((b, pos + |codec.Pack(b)| + 8))
    {
      if pos > |blocks| {
        return None;
      }
      var u := codec.unpack(blocks[pos..]);
      match u
      case None => r := None;
      case Some((b, n)) => r := Some((b, pos + n + 8));
    }

    /** Block `k` of the chain, read at its own position; the next one follows. */
    method ReadRecord(ghost chain: seq<Block>, ghost k: nat, pos: nat) returns (b: Block, next: nat)
      requires Holds(chain) && k < |chain| && pos == Start(codec, chain, k)
      ensures b == chain[k] && next == Start(codec, chain, k + 1)
    {
      RecordAt(codec, chain, k);
      hide Codec.Pack, Start, LogOf;
      var r := ReadBlock(pos);
      assert blocks[pos..] == codec.Pack(chain[k]) + blocks[pos + |codec.Pack(chain[k])|..];
      b, next := r.value.0, r.value.1;
    }

    method ReadHead(ghost chain: seq<Block>) returns (b: Block)
      requires Holds(chain) && chain != []
      ensures b == chain[|chain| - 1]
    {
      LastOfLog(codec, chain);
      var pos := LastPosition(blocks);
      var next;
      b, next := ReadRecord(chain, |chain| - 1, pos);
    }

    /** Appends at the end of both files; refused unless the index has exactly the blocks before this one. */
    method Append(b: Block, ghost chain: seq<Block>) returns (ok: bool)
      requires Holds(chain) && |blocks| + |codec.Pack(b)| + 8 < LIMIT
      modifies this
      ensures ok == (old(|index|) == 8 * (b.Num() - 1))
      ensures ok ==> blocks == LogOf(codec, chain + [b], |chain| + 1) && head == Some(b)
      ensures old(Ready(chain)) ==> ok == (b.Num() == |chain| + 1) && (ok ==> Ready(chain + [b]))
      ensures !ok ==> blocks == old(blocks) && index == old(index) && head == old(head)
    {
      var pos := |blocks|;
      if |index| != 8 * (b.Num() - 1) {
        return false;
      }
      SameChain(codec, chain, chain + [b], |chain|);
      LogStep(codec, chain + [b], |chain|);
      hide Codec.Pack, Start, LogOf, IndexOf, Faithful, Encode;
      blocks := blocks + codec.Pack(b);
      blocks := blocks + Encode(pos, 8);
      index := index + Encode(pos, 8);
      head := Some(b);
      ok := true;
    }

    /** Replaces the index by the replayed one. */
    method ConstructIndex(ghost chain: seq<Block>)
      requires Holds(chain) && chain != []
      modifies `index
      ensures index == if |chain| == 1 then [] else IndexOf(codec, chain, |chain|)
    {
      index := [];
      index := Replay(chain);
    }

    /** The index a pass over the log writes.  The loop stops at the position of the last block, so it writes
        nothing when that position is zero. */
    method Replay(ghost chain: seq<Block>) returns (entries: seq<Byte>)
      requires Holds(chain) && chain != []
      ensures entries == if |chain| == 1 then [] else IndexOf(codec, chain, |chain|)
    {
      LastOfLog(codec, chain);
      NoneReplayed(codec, chain);
      hide Start, LogOf, IndexOf, LastPosition, Encode, Faithful, InOrder, Replayed;
      entries := [];
      var pos, at: nat := 0, 0;
      var end := LastPosition(blocks);
      ghost var k := 0;
      while pos < end
        invariant 0 <= k <= |chain| && Replayed(codec, chain, k, pos, at, entries)
        decreases |chain| - k
      {
        ReplayStep(codec, chain, k, pos, at, entries);
        pos, at := ReplayOne(chain, k, at);
        entries := entries + Encode(pos, 8);
        k := k + 1;
      }
      ReplayDone(codec, chain, k, pos, at, entries);
    }

    method ReplayOne(ghost chain: seq<Block>, ghost k: nat, at: nat) returns (pos: nat, next: nat)
      requires Holds(chain) && k < |chain| && at == Start(codec, chain, k)
      ensures pos == at && next == Start(codec, chain, k + 1)
    {
      RecordAt(codec, chain, k);
      hide Codec.Pack, Start, LogOf, Decode, Encode;
      PositionRoundTrip(at);
      var b;
      b, next := ReadRecord(chain, k, at);
      assert blocks[next - 8..next] == Encode(at, 8);
      pos := Decode(blocks[next - 8..next]);
    }

    /** Opens both files.  It throws only on an index too short to hold a position, and the index ends up
        right exactly for the indexes that recover. */
    method Open(ghost chain: seq<Block>) returns (ok: bool)
      requires Holds(chain) && head == None
      modifies `index, `head
      ensures ok == !(chain != [] && 0 < |old(index)| < 8)
      ensures ok ==> (Ready(chain) <==> Recovers(codec, chain, old(index)))
      ensures chain != [] ==> head == Some(chain[|chain| - 1])
    {
      hide Codec.Pack, Start, LogOf, IndexOf, Faithful;
      NoBlocks(codec, chain);
      if |blocks| > 0 {
        LastOfLog(codec, chain);
        AtZero(codec, chain);
        LastOfIndex(codec, chain);
        var b := ReadHead(chain);
        head := Some(b);
        if |index| > 0 {
          if |index| < 8 {
            return false;
          }
          if LastPosition(blocks) < LastPosition(index) {
            ConstructIndex(chain);
          } else if LastPosition(blocks) > LastPosition(index) {
            ConstructIndex(chain);
          }
        } else {
          ConstructIndex(chain);
        }
      } else {
        if |index| > 0 {
          index := [];
        }
      }
      ok := true;
    }

    /** `get_block_pos` for a block of the chain. */
    method ReadPosition(n: nat, ghost chain: seq<Block>) returns (pos: nat)
      requires Ready(chain) && 1 <= n <= |chain|
      ensures pos == Start(codec, chain, n - 1)
    {
      hide Codec.Pack, Start, LogOf, IndexOf, Faithful, Decode;
      IndexAt(codec, chain, n - 1, |chain|);
      StartRises(codec, chain, n - 1, |chain|);
      PositionRoundTrip(Start(codec, chain, n - 1));
      IndexLength(codec, chain);
      pos := Decode(index[8 * (n - 1)..8 * (n - 1) + 8]);
    }

    /** Lookup by number. */
    method ReadBlockByNum(n: nat, ghost chain: seq<Block>) returns (r: Option<Block>)
      requires Ready(chain)
      ensures r == if 1 <= n <= |chain| then Some(chain[n - 1]) else None
    {
      hide Codec.Pack, Start, LogOf, IndexOf, Faithful;
      if head.None? || n > head.value.Num() || n == 0 {
        return None;
      }
      var pos := ReadPosition(n, chain);
      var b, next := ReadRecord(chain, n - 1, pos);
      assert b.Num() == n;
      r := Some(b);
    }

    /** Reading from the start, each block telling where the next one is, to the end of the file. */
    method ReadAll(ghost chain: seq<Block>) returns (all: seq<Block>)
      requires Holds(chain)
      ensures all == chain
    {
      hide Codec.Pack, Start, LogOf, Faithful;
      all := [];
      var pos: nat, k := 0, 0;
      StartRises(codec, chain, 0, |chain|);
      StartZero(codec, chain);
      while pos < |blocks|
        invariant 0 <= k <= |chain| && pos == Start(codec, chain, k) && all == chain[..k]
        decreases |chain| - k
      {
        var b, next := ReadRecord(chain, k, pos);
        all, pos, k := all + [b], next, k + 1;
      }
      StartRises(codec, chain, k, |chain|);
    }
  }

  /** How far a replay has come after `k` blocks. */
  ghost predicate Replayed(c: Codec, chain: seq<Block>, k: nat, pos: nat, at: nat, entries: seq<Byte>) {
    && k <= |chain| && at == Start(c, chain, k) && entries == IndexOf(c, chain, k)
    && pos == (if k == 0 then 0 else Start(c, chain, k - 1)) && (k > 0 ==> |chain| >= 2)
  }

  lemma NoneReplayed(c: Codec, chain: seq<Block>)
    ensures Replayed(c, chain, 0, 0, 0, [])
  {
  }

  lemma ReplayStep(c: Codec, chain: seq<Block>, k: nat, pos: nat, at: nat, entries: seq<Byte>)
    requires chain != [] && Replayed(c, chain, k, pos, at, entries) && pos < Start(c, chain, |chain| - 1)
    ensures k < |chain| && at == Start(c, chain, k)
    ensures Replayed(c, chain, k + 1, at, Start(c, chain, k + 1), entries + Encode(at, 8))
  {
    AtZero(c, chain);
    hide Start, IndexOf;
    if k < |chain| {
      LogStep(c, chain, k);
    }
  }

  lemma ReplayDone(c: Codec, chain: seq<Block>, k: nat, pos: nat, at: nat, entries: seq<Byte>)
    requires chain != [] && Replayed(c, chain, k, pos, at, entries) && pos >= Start(c, chain, |chain| - 1)
    ensures entries == if |chain| == 1 then [] else IndexOf(c, chain, |chain|)
  {
    AtZero(c, chain);
    hide Start, IndexOf;
    if 0 < k < |chain| {
      StartRises(c, chain, k - 1, |chain| - 1);
    }
  }

  lemma NoBlocks(c: Codec, chain: seq<Block>)
    ensures |LogOf(c, chain, |chain|)| == 0 <==> chain == []
    ensures chain == [] ==> IndexOf(c, chain, |chain|) == []
  {
    StartRises(c, chain, 0, |chain|);
  }

  lemma LastOfIndex(c: Codec, chain: seq<Block>)
    requires chain != [] && |LogOf(c, chain, |chain|)| < LIMIT
    ensures |IndexOf(c, chain, |chain|)| >= 8 && LastPosition(IndexOf(c, chain, |chain|)) == Start(c, chain, |chain| - 1)
  {
    hide Codec.Pack, Start, LogOf, IndexOf, Decode, Encode;
    var n, index := |chain|, IndexOf(c, chain, |chain|);
    IndexLength(c, chain);
    IndexAt(c, chain, n - 1, n);
    StartZero(c, chain);
    StartRises(c, chain, n - 1, n);
    PositionRoundTrip(Start(c, chain, n - 1));
    assert index[|index| - 8..] == index[8 * (n - 1)..8 * (n - 1) + 8];
  }

  /** Opening recovers from an index that lags behind the log, is complete, or belongs to a longer log. */
  lemma UsualIndexesRecover(c: Codec, chain: seq<Block>, longer: seq<Block>, k: nat)
    requires |chain| >= 2 && chain <= longer && k <= |longer| && |LogOf(c, longer, |longer|)| < LIMIT
    ensures Recovers(c, chain, IndexOf(c, longer, k))
  {
    hide Codec.Pack, Start, LogOf, IndexOf;
    var n := |chain|;
    SameChain(c, chain, longer, n);
    if k != n && k > 0 {
      var part := longer[..k];
      SameChain(c, part, longer, k);
      SameChain(c, part, longer, k - 1);
      SameChain(c, chain, longer, n - 1);
      StartZero(c, part);
      StartZero(c, longer);
      StartRises(c, longer, k, |longer|);
      LastOfIndex(c, part);
      StartRises(c, longer, if k < n then k - 1 else n - 1, if k < n then n - 1 else k - 1);
    } else if k == 0 {
      StartZero(c, longer);
      EmptyIndex(c, longer);
    }
  }

  lemma EmptyIndex(c: Codec, chain: seq<Block>)
    ensures IndexOf(c, chain, 0) == []
  {
  }

  lemma IndexLength(c: Codec, chain: seq<Block>)
    ensures |IndexOf(c, chain, |chain|)| == 8 * |chain|
  {
  }

  lemma StartZero(c: Codec, chain: seq<Block>)
    ensures Start(c, chain, 0) == 0 && |LogOf(c, chain, |chain|)| == Start(c, chain, |chain|)
  {
  }

  lemma AtZero(c: Codec, chain: seq<Block>)
    requires chain != []
    ensures Start(c, chain, 0) == 0 && IndexOf(c, chain, 0) == []
    ensures Start(c, chain, |chain| - 1) == 0 <==> |chain| == 1
  {
    StartRises(c, chain, 0, |chain| - 1);
  }

  /** The log ends with the position of its last block. */
  lemma LastOfLog(c: Codec, chain: seq<Block>)
    requires chain != [] && |LogOf(c, chain, |chain|)| < LIMIT
    ensures |LogOf(c, chain, |chain|)| >= 8 && LastPosition(LogOf(c, chain, |chain|)) == Start(c, chain, |chain| - 1)
  {
    RecordAt(c, chain, |chain| - 1);
    hide Codec.Pack, Start, LogOf, Decode, Encode;
    var log, at := LogOf(c, chain, |chain|), Start(c, chain, |chain| - 1);
    PositionRoundTrip(at);
    assert log[|log| - 8..] == log[|log| - 8..|log|];
  }
}
