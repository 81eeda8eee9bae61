/** How the acquisition loop groups consecutive events into chunk files:
    a new chunk starts at every event whose index is a multiple of
    EVENTS_PER_CHUNK (`event_in_file` in daq/daq.py). */
module Chunking {

  const EVENTS_PER_CHUNK: nat := 10

  /** Number of chunks needed for n events: the ceiling of n / EVENTS_PER_CHUNK. */
  function ChunkCount(n: nat): nat
  {
    (n + EVENTS_PER_CHUNK - 1) / EVENTS_PER_CHUNK
  }

  /** The events in chunk order: the first EVENTS_PER_CHUNK, then the next, … */
  function Partition<T>(xs: seq<T>): (parts: seq<seq<T>>)
    ensures parts == [] <==> xs == []
    ensures forall c :: 0 <= c < |parts| ==> 0 < |parts[c]| <= EVENTS_PER_CHUNK
    decreases |xs|
  {
    if xs == [] then []
    else if |xs| <= EVENTS_PER_CHUNK then [xs]
    else [xs[..EVENTS_PER_CHUNK]] + Partition(xs[EVENTS_PER_CHUNK..])
  }

  function Flatten<T>(parts: seq<seq<T>>): seq<T>
    decreases |parts|
  {
    if parts == [] then [] else parts[0] + Flatten(parts[1..])
  }

  /** Appending one event either opens a new chunk (when the number of events
      so far is a multiple of the chunk size) or extends the last chunk. */
  lemma {:induction false} PartitionSnoc<T>(xs: seq<T>, x: T)
    ensures |xs| % EVENTS_PER_CHUNK == 0 ==> Partition(xs + [x]) == Partition(xs) + [[x]]
    ensures |xs| % EVENTS_PER_CHUNK != 0 ==>
      |Partition(xs)| > 0 &&
      Partition(xs + [x]) == Partition(xs)[..|Partition(xs)| - 1] + [Partition(xs)[|Partition(xs)| - 1] + [x]]
    decreases |xs|
  {
    var ys := xs + [x];
    if xs == [] {
      assert ys == [x];
    } else if |xs| < EVENTS_PER_CHUNK {
      assert Partition(xs) == [xs];
    } else if |xs| == EVENTS_PER_CHUNK {
      assert ys[..EVENTS_PER_CHUNK] == xs && ys[EVENTS_PER_CHUNK..] == [x];
      assert Partition(xs) == [xs];
    } else {
      var head, tail := xs[..EVENTS_PER_CHUNK], xs[EVENTS_PER_CHUNK..];
      PartitionLong(xs, x);
      assert |tail| % EVENTS_PER_CHUNK == |xs| % EVENTS_PER_CHUNK;
      PartitionSnoc(tail, x);
      if |tail| % EVENTS_PER_CHUNK != 0 {
        var pt := Partition(tail);
        assert ([head] + pt)[..|[head] + pt| - 1] == [head] + pt[..|pt| - 1];
      }
    }
  }

  /** Past the first chunk, appending an event leaves the first chunk alone. */
  lemma PartitionLong<T>(xs: seq<T>, x: T)
    requires |xs| > EVENTS_PER_CHUNK
    ensures Partition(xs) == [xs[..EVENTS_PER_CHUNK]] + Partition(xs[EVENTS_PER_CHUNK..])
    ensures Partition(xs + [x]) == [xs[..EVENTS_PER_CHUNK]] + Partition(xs[EVENTS_PER_CHUNK..] + [x])
  {
    var ys := xs + [x];
    PartitionUnfold(xs);
    PartitionUnfold(ys);
    assert ys[..EVENTS_PER_CHUNK] == xs[..EVENTS_PER_CHUNK] && ys[EVENTS_PER_CHUNK..] == xs[EVENTS_PER_CHUNK..] + [x];
  }

  lemma PartitionUnfold<T>(xs: seq<T>)
    requires |xs| > EVENTS_PER_CHUNK
    ensures Partition(xs) == [xs[..EVENTS_PER_CHUNK]] + Partition(xs[EVENTS_PER_CHUNK..])
  {
  }

  /** A new chunk is opened exactly when the event index is a multiple of the chunk size. */
  lemma NewChunkExactlyAtBoundary<T>(xs: seq<T>, x: T)
    ensures |Partition(xs + [x])| == |Partition(xs)| + (if |xs| % EVENTS_PER_CHUNK == 0 then 1 else 0)
  {
    PartitionSnoc(xs, x);
  }

  /** Chunking loses, adds and reorders nothing. */
  lemma {:induction false} FlattenPartition<T>(xs: seq<T>)
    ensures Flatten(Partition(xs)) == xs
    decreases |xs|
  {
    if |xs| > EVENTS_PER_CHUNK {
      FlattenPartition(xs[EVENTS_PER_CHUNK..]);
      var p := Partition(xs);
      assert p[0] == xs[..EVENTS_PER_CHUNK] && p[1..] == Partition(xs[EVENTS_PER_CHUNK..]);
      assert xs == xs[..EVENTS_PER_CHUNK] + xs[EVENTS_PER_CHUNK..];
    } else if xs != [] {
      assert Partition(xs)[1..] == [];
      assert xs + [] == xs;
    }
  }

  /** ceil(n/10) chunks; all but the last hold exactly 10 events, the last 1 to 10. */
  lemma {:induction false} PartitionShape<T>(xs: seq<T>)
    ensures |Partition(xs)| == ChunkCount(|xs|)
    ensures forall c :: 0 <= c < |Partition(xs)| - 1 ==> |Partition(xs)[c]| == EVENTS_PER_CHUNK
    ensures xs != [] ==>
      var last := Partition(xs)[|Partition(xs)| - 1];
      0 < |last| <= EVENTS_PER_CHUNK && |last| == |xs| - EVENTS_PER_CHUNK * (|Partition(xs)| - 1)
    decreases |xs|
  {
    if |xs| > EVENTS_PER_CHUNK {
      var tail := xs[EVENTS_PER_CHUNK..];
      PartitionShape(tail);
      var p, pt := Partition(xs), Partition(tail);
      assert p == [xs[..EVENTS_PER_CHUNK]] + pt;
      assert ChunkCount(|xs|) == ChunkCount(|tail|) + 1;
      forall c | 0 <= c < |p| - 1
        ensures |p[c]| == EVENTS_PER_CHUNK
      {
        if c > 0 { assert p[c] == pt[c - 1]; }
      }
    }
  }

  /** At a chunk boundary the number of chunks is exactly n / EVENTS_PER_CHUNK. */
  lemma {:induction false} PartitionCountAtBoundary<T>(xs: seq<T>)
    requires |xs| % EVENTS_PER_CHUNK == 0
    ensures |Partition(xs)| == |xs| / EVENTS_PER_CHUNK
    decreases |xs|
  {
    if |xs| > EVENTS_PER_CHUNK {
      PartitionCountAtBoundary(xs[EVENTS_PER_CHUNK..]);
    }
  }

  /** Event i lands in chunk i div 10, at position i mod 10. */
  lemma {:induction false} PartitionAt<T>(xs: seq<T>, i: nat)
    requires i < |xs|
    ensures i / EVENTS_PER_CHUNK < |Partition(xs)|
    ensures i % EVENTS_PER_CHUNK < |Partition(xs)[i / EVENTS_PER_CHUNK]|
    ensures Partition(xs)[i / EVENTS_PER_CHUNK][i % EVENTS_PER_CHUNK] == xs[i]
    decreases |xs|
  {
    if |xs| > EVENTS_PER_CHUNK && i >= EVENTS_PER_CHUNK {
      var tail := xs[EVENTS_PER_CHUNK..];
      PartitionAt(tail, i - EVENTS_PER_CHUNK);
      assert (i - EVENTS_PER_CHUNK) / EVENTS_PER_CHUNK == i / EVENTS_PER_CHUNK - 1;
      assert (i - EVENTS_PER_CHUNK) % EVENTS_PER_CHUNK == i % EVENTS_PER_CHUNK;
      assert Partition(xs) == [xs[..EVENTS_PER_CHUNK]] + Partition(tail);
    }
  }

  /** Chunk c, position j holds event 10c + j. */
  lemma {:induction false} PartitionIndex<T>(xs: seq<T>, c: nat, j: nat)
    requires c < |Partition(xs)| && j < |Partition(xs)[c]|
    ensures EVENTS_PER_CHUNK * c + j < |xs|
    ensures Partition(xs)[c][j] == xs[EVENTS_PER_CHUNK * c + j]
    decreases |xs|
  {
    if |xs| > EVENTS_PER_CHUNK {
      var tail := xs[EVENTS_PER_CHUNK..];
      assert Partition(xs) == [xs[..EVENTS_PER_CHUNK]] + Partition(tail);
      if c > 0 {
        PartitionIndex(tail, c - 1, j);
      }
    }
  }

  /** 25 events make three chunks of 10, 10 and 5 events. */
  lemma TwentyFiveEvents<T>(xs: seq<T>)
    requires |xs| == 25
    ensures |Partition(xs)| == 3
    ensures |Partition(xs)[0]| == 10 && |Partition(xs)[1]| == 10 && |Partition(xs)[2]| == 5
  {
    PartitionShape(xs);
  }
}
