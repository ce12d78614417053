/**
  The resource-addressing layer (src/segment.rs): a segment splits a slice of
  `i32` values into chunks, finds the chunk for an element index, reads tuples
  of values at given indices and overwrites one value in place.

  `usize` is taken to be 64 bits wide: the casts `i32 as usize` and
  `usize as i32` are written out on that assumption.
 */
module Segments {
  import opened Options
  import opened Decimal

  newtype int32 = x: int | -0x8000_0000 <= x < 0x8000_0000

  const USIZE_MODULUS: nat := 0x1_0000_0000_0000_0000

  /** `i as usize`: a negative value wraps to the top of the `usize` range. */
  function AsUsize(i: int32): (n: nat)
    ensures n < USIZE_MODULUS
    ensures i >= 0 ==> n == i as int
    ensures i < 0 ==> n == i as int + USIZE_MODULUS && n >= USIZE_MODULUS - 0x8000_0000
  {
    if i >= 0 then i as int else i as int + USIZE_MODULUS
  }

  /** `n as i32`: keeps the low 32 bits, read as two's complement. */
  function AsI32(n: nat): (i: int32)
    ensures n < 0x8000_0000 ==> i as int == n
    ensures (i as int - n) % 0x1_0000_0000 == 0
  {
    var low := n % 0x1_0000_0000;
    if low < 0x8000_0000 then low as int32 else (low - 0x1_0000_0000) as int32
  }

  datatype Tuple = Tuple(tupleId: string, index: seq<int32>, values: seq<int32>)

  datatype DataChunk = DataChunk(chunkId: string, start: nat, end: nat, seqData: seq<int32>)

  datatype DataChunkIndex = DataChunkIndex(index: nat, valueIndex: nat)

  function Ints(xs: seq<int32>): (r: seq<int>)
    ensures |r| == |xs| && forall i :: 0 <= i < |xs| ==> r[i] == xs[i] as int
    decreases |xs|
  {
    if |xs| == 0 then [] else [xs[0] as int] + Ints(xs[1..])
  }

  /** The comma-joined decimal indices that name a tuple. */
  function TupleId(index: seq<int32>): string
  {
    IdOf(Ints(index))
  }

  /** `[start.to_string(), end.to_string()].join(",")`. */
  function ChunkId(start: nat, end: nat): string
  {
    IdOf([start, end])
  }

  /** `Tuple::empty_tuple(idx_slice)`. */
  function EmptyTuple(idx: seq<int32>): (t: Tuple)
    ensures t.tupleId == TupleId(idx) && t.index == idx && t.values == []
  {
    Tuple(TupleId(idx), idx, [])
  }

  /** The chunk `from_ints` pushes for `start..end`. */
  function MakeChunk(ints: seq<int32>, start: nat, end: nat): DataChunk
    requires start <= end <= |ints|
  {
    DataChunk(ChunkId(start, end), start, end, ints[start..end])
  }

  /** The chunks `from_ints` pushes from `start` on: each ends `cap` later,
      except the first whose `start + cap` reaches the length, which ends at
      `len - 1` and is the last. */
  function SplitFrom(cap: nat, ints: seq<int32>, start: nat): (r: seq<DataChunk>)
    requires cap > 0 && start < |ints|
    ensures |r| > 0 && r[0].start == start
    decreases |ints| - start
  {
    if start + cap >= |ints| then [MakeChunk(ints, start, |ints| - 1)]
    else [MakeChunk(ints, start, start + cap)] + SplitFrom(cap, ints, start + cap)
  }

  /** A round of the `from_ints` loop that does not break: the chunk it
      pushes is the first of the remaining chunks. */
  lemma SplitFromNext(cap: nat, ints: seq<int32>, start: nat, done: seq<DataChunk>)
    requires cap > 0 && start + cap < |ints|
    ensures done + SplitFrom(cap, ints, start)
      == (done + [MakeChunk(ints, start, start + cap)]) + SplitFrom(cap, ints, start + cap)
  {
    assert SplitFrom(cap, ints, start) == [MakeChunk(ints, start, start + cap)] + SplitFrom(cap, ints, start + cap);
  }

  /** The round that breaks pushes the last chunk. */
  lemma SplitFromLast(cap: nat, ints: seq<int32>, start: nat, done: seq<DataChunk>)
    requires cap > 0 && start < |ints| <= start + cap
    ensures done + SplitFrom(cap, ints, start) == done + [MakeChunk(ints, start, |ints| - 1)]
  {
  }

  /** Where chunk `index` starts, counted up one chunk at a time. */
  function StartOf(index: nat, cap: nat): nat
  {
    if index == 0 then 0 else StartOf(index - 1, cap) + cap
  }

  lemma {:induction false} StartOfIsProduct(index: nat, cap: nat)
    ensures StartOf(index, cap) == index * cap
  {
    if index > 0 {
      StartOfIsProduct(index - 1, cap);
      assert (index - 1) * cap + cap == index * cap;
    }
  }

  /** `let start = index * capacity_per_chunk;` in `from_ints`. */
  method ChunkStart(index: nat, cap: nat) returns (start: nat)
    ensures start == StartOf(index, cap)
  {
    start := index * cap;
    StartOfIsProduct(index, cap);
  }

  /** The chunks of `Segment::from_ints(cap, ints, ..)`. */
  function SplitChunks(cap: nat, ints: seq<int32>): seq<DataChunk>
    requires cap > 0 && |ints| > 0
  {
    SplitFrom(cap, ints, 0)
  }

  function Last(chunks: seq<DataChunk>): DataChunk
    requires |chunks| > 0
  {
    chunks[|chunks| - 1]
  }

  /** The chunk layout `from_ints` produces from position `start` on, for
      chunk capacity `cap` and input length `len`: each chunk that is not the
      last ends `cap` after its start, short of `len`, where the next one
      starts; the last one is the first whose `start + cap` reaches `len`,
      and it ends at `len - 1`. */
  ghost predicate LayoutFrom(chunks: seq<DataChunk>, cap: nat, len: nat, start: nat)
    decreases |chunks|
  {
    && |chunks| > 0
    && chunks[0].start == start <= chunks[0].end
    && |chunks[0].seqData| == chunks[0].end - start
    && chunks[0].chunkId == ChunkId(start, chunks[0].end)
    && (|chunks| == 1 ==> chunks[0].end + 1 == len && start + cap >= len)
    && (|chunks| > 1 ==>
          chunks[0].end == start + cap && start + cap < len
          && LayoutFrom(chunks[1..], cap, len, start + cap))
  }

  ghost predicate Layout(chunks: seq<DataChunk>, cap: nat, len: nat)
  {
    LayoutFrom(chunks, cap, len, 0)
  }

  /** All chunk data, end to end. */
  function Flatten(chunks: seq<DataChunk>): seq<int32>
    decreases |chunks|
  {
    if |chunks| == 0 then [] else chunks[0].seqData + Flatten(chunks[1..])
  }

  /** The position `get_chunk(idx)` stops at: the first chunk whose end is
      past `idx`, otherwise the last chunk. */
  function ChunkPos(chunks: seq<DataChunk>, idx: nat): (p: nat)
    requires |chunks| > 0
    ensures p < |chunks|
    ensures forall j :: 0 <= j < p ==> chunks[j].end <= idx
    ensures chunks[p].end > idx || p == |chunks| - 1
    decreases |chunks|
  {
    if chunks[0].end > idx || |chunks| == 1 then 0 else ChunkPos(chunks[1..], idx) + 1
  }

  /** `get_chunk(idx)`: None only when there are no chunks. */
  function ChunkFor(chunks: seq<DataChunk>, idx: nat): Option<DataChunk>
  {
    if |chunks| == 0 then None else Some(chunks[ChunkPos(chunks, idx)])
  }

  /** `idx - chunk.start` does not underflow for the chunk `get_chunk`
      chooses, and the data has a value there. */
  predicate Addressable(chunks: seq<DataChunk>, idx: nat)
  {
    && |chunks| > 0
    && chunks[ChunkPos(chunks, idx)].start <= idx
    && idx - chunks[ChunkPos(chunks, idx)].start < |chunks[ChunkPos(chunks, idx)].seqData|
  }

  /** The value `get_tuple` reads for element index `idx`. */
  function ValueAt(chunks: seq<DataChunk>, idx: nat): int32
    requires Addressable(chunks, idx)
  {
    var c := chunks[ChunkPos(chunks, idx)];
    c.seqData[idx - c.start]
  }

  /** The entry `get_chunk_index` pushes for `idx`; its `index` field is the
      element index itself. */
  function ChunkIndexOf(chunks: seq<DataChunk>, idx: nat): DataChunkIndex
    requires |chunks| > 0 && chunks[ChunkPos(chunks, idx)].start <= idx
  {
    DataChunkIndex(idx, idx - chunks[ChunkPos(chunks, idx)].start)
  }

  /** What `update_value(index, v)` writes, as written: the chunk at
      POSITION `ci.index`, which is the element index, at `ci.value_index`. */
  function UpdateAsWritten(chunks: seq<DataChunk>, index: nat, v: int32): seq<DataChunk>
    requires |chunks| > 0
    requires var i := AsUsize(AsI32(index));
      chunks[ChunkPos(chunks, i)].start <= i
      && i < |chunks|
      && ChunkIndexOf(chunks, i).valueIndex < |chunks[i].seqData|
  {
    var ci := ChunkIndexOf(chunks, AsUsize(AsI32(index)));
    chunks[ci.index := chunks[ci.index].(seqData := chunks[ci.index].seqData[ci.valueIndex := v])]
  }

  /** What `update_value(index, v)` evidently means: write the value at
      element `index`, in the chunk `get_chunk` finds for it. */
  function UpdateIntended(chunks: seq<DataChunk>, index: nat, v: int32): seq<DataChunk>
    requires Addressable(chunks, index)
  {
    var p := ChunkPos(chunks, index);
    chunks[p := chunks[p].(seqData := chunks[p].seqData[index - chunks[p].start := v])]
  }

  /** The loop of `from_ints`: chunk `index` starts at
      `index * capacity_per_chunk`, and the first chunk whose end would
      reach the input length ends at `len - 1` and is the last. */
  method ChunksFromInts(capacityPerChunk: nat, ints: seq<int32>) returns (result: seq<DataChunk>)
    requires capacityPerChunk > 0 && |ints| > 0
    ensures result == SplitChunks(capacityPerChunk, ints)
  {
      var index := 0;
      result := [];
      var isBreak := false;
      ghost var next := 0;
      while true
        invariant next == StartOf(index, capacityPerChunk) && next < |ints|
        invariant result + SplitFrom(capacityPerChunk, ints, next) == SplitChunks(capacityPerChunk, ints)
        decreases |ints| - next
      {
        var start := ChunkStart(index, capacityPerChunk);
        assert start == next;
        var end;
        if start + capacityPerChunk >= |ints| {
          isBreak := true;
          end := |ints| - 1;
        } else {
          end := start + capacityPerChunk;
        }
        ghost var done := result;
        result := result + [MakeChunk(ints, start, end)];
        index := index + 1;
        next := next + capacityPerChunk;
        if isBreak {
          SplitFromLast(capacityPerChunk, ints, start, done);
          break;
        }
        SplitFromNext(capacityPerChunk, ints, start, done);
      }
  }

  class Segment {
    const segmentId: string
    const capacity: nat
    const capacityPerChunk: nat
    var chunks: seq<DataChunk>

    /** The chunk layout of `from_ints` holds for the current chunks. */
    ghost predicate Valid()
      reads this
    {
      capacityPerChunk > 0 && Layout(chunks, capacityPerChunk, capacity)
    }

    /** `Segment::from_ints(capacity_per_chunk, ints, segment_id)`. With a
        zero chunk capacity its loop never ends, and with no values
        `ints.len() - 1` underflows, hence the preconditions. */
    constructor FromInts(capacityPerChunk: nat, ints: seq<int32>, segmentId: string)
      requires capacityPerChunk > 0 && |ints| > 0
      ensures Valid()
      ensures chunks == SplitChunks(capacityPerChunk, ints)
      ensures this.capacity == |ints| && this.capacityPerChunk == capacityPerChunk
      ensures this.segmentId == segmentId
    {
      var result := ChunksFromInts(capacityPerChunk, ints);
      SplitFromLayout(capacityPerChunk, ints, 0);
      this.segmentId := segmentId;
      this.capacity := |ints|;
      this.capacityPerChunk := capacityPerChunk;
      this.chunks := result;
    }

    /** `capacity()`: the input length, cast to `i32`. */
    function Capacity(): (c: int32)
      ensures capacity < 0x8000_0000 ==> c as int == capacity
      ensures (c as int - capacity) % 0x1_0000_0000 == 0
    {
      AsI32(capacity)
    }

    /** `get_chunk(idx)`: scans for the first chunk whose end is past `idx`,
        falling back to the last chunk. */
    method GetChunk(idx: nat) returns (r: Option<DataChunk>)
      ensures r == ChunkFor(chunks, idx)
    {
      for k := 0 to |chunks|
        invariant forall j :: 0 <= j < k ==> chunks[j].end <= idx
      {
        if chunks[k].end > idx {
          return Some(chunks[k]);
        }
      }
      if |chunks| == 0 {
        return None;
      }
      return Some(chunks[|chunks| - 1]);
    }

    /** `get_chunk_index(index)`: the element index and its offset in the
        chunk `get_chunk` finds, for each index. */
    method GetChunkIndex(index: seq<int32>) returns (data: seq<DataChunkIndex>)
      requires Valid()
      ensures |data| == |index|
      ensures forall i :: 0 <= i < |index| ==>
        ChunkStartWithin(chunks, AsUsize(index[i]))
        && data[i] == ChunkIndexOf(chunks, AsUsize(index[i]))
    {
      data := [];
      for i := 0 to |index|
        invariant |data| == i
        invariant forall j :: 0 <= j < i ==>
          ChunkStartWithin(chunks, AsUsize(index[j]))
          && data[j] == ChunkIndexOf(chunks, AsUsize(index[j]))
      {
        var idx := AsUsize(index[i]);
        var chunkOpt := GetChunk(idx);
        if chunkOpt.Some? {
          ChunkStartAtMost(chunks, capacityPerChunk, capacity, idx);
          data := data + [DataChunkIndex(idx, idx - chunkOpt.value.start)];
        }
      }
    }

    /** `get_tuple(index)`: the id of the indices, the indices, and the value
        at each index. Reading the data panics when an index falls outside
        the chunk `get_chunk` finds, hence the precondition. */
    method GetTuple(index: seq<int32>) returns (t: Tuple)
      requires Valid()
      requires forall i :: 0 <= i < |index| ==> Addressable(chunks, AsUsize(index[i]))
      ensures t.tupleId == TupleId(index) && t.index == index
      ensures |t.values| == |index|
      ensures forall i :: 0 <= i < |index| ==> t.values[i] == ValueAt(chunks, AsUsize(index[i]))
    {
      var seqVals: seq<int32> := [];
      for i := 0 to |index|
        invariant |seqVals| == i
        invariant forall j :: 0 <= j < i ==> seqVals[j] == ValueAt(chunks, AsUsize(index[j]))
      {
        var idx := AsUsize(index[i]);
        var chunkOpt := GetChunk(idx);
        if chunkOpt.Some? {
          seqVals := seqVals + [chunkOpt.value.seqData[idx - chunkOpt.value.start]];
        }
      }
      t := Tuple(TupleId(index), index, seqVals);
    }

    /** `update_value(index, new_value)`, as written: the entry from
        `get_chunk_index(&[index as i32])` is used to index `chunks` by its
        element index. Both indexings must be in range. */
    method UpdateValue(index: nat, newValue: int32)
      requires Valid()
      requires index < USIZE_MODULUS
      requires var i := AsUsize(AsI32(index));
        i < |chunks| && i - chunks[ChunkPos(chunks, i)].start < |chunks[i].seqData|
      modifies this
      ensures ChunkStartWithin(old(chunks), AsUsize(AsI32(index)))
      ensures Valid()
      ensures chunks == UpdateAsWritten(old(chunks), index, newValue)
    {
      var chunkIndexVec := GetChunkIndex([AsI32(index)]);
      assert |chunkIndexVec| == 1;
      var chunkIndex := chunkIndexVec[0];
      var c := chunks[chunkIndex.index];
      WriteKeepsLayout(chunks, capacityPerChunk, capacity, chunkIndex.index, chunkIndex.valueIndex, newValue);
      chunks := chunks[chunkIndex.index := c.(seqData := c.seqData[chunkIndex.valueIndex := newValue])];
    }

    /** The corrected `update_value`: on a segment every index below the
        last input position is addressable, and the update writes that
        element of the segment's data and nothing else. */
    method UpdateValueIntended(index: nat, newValue: int32)
      requires Valid()
      requires index + 1 < capacity
      modifies this
      ensures Addressable(old(chunks), index) && |old(Flatten(chunks))| == capacity - 1
      ensures Valid()
      ensures chunks == UpdateIntended(old(chunks), index, newValue)
      ensures Flatten(chunks) == old(Flatten(chunks))[index := newValue]
    {
      UpdateIntendedCorrect(chunks, capacityPerChunk, capacity, index, newValue);
      var p := ChunkPos(chunks, index);
      var c := chunks[p];
      chunks := chunks[p := c.(seqData := c.seqData[index - c.start := newValue])];
    }
  }

  // ----- Layout of from_ints -----

  /** The chunk `get_chunk` finds for `idx` starts at or before `idx`. */
  ghost predicate ChunkStartWithin(chunks: seq<DataChunk>, idx: nat)
  {
    |chunks| > 0 && chunks[ChunkPos(chunks, idx)].start <= idx
  }

  lemma {:induction false} SplitFromLayout(cap: nat, ints: seq<int32>, start: nat)
    requires cap > 0 && start < |ints|
    ensures LayoutFrom(SplitFrom(cap, ints, start), cap, |ints|, start)
    decreases |ints| - start
  {
    var chunks := SplitFrom(cap, ints, start);
    if start + cap < |ints| {
      SplitFromLayout(cap, ints, start + cap);
      assert chunks[0] == MakeChunk(ints, start, start + cap);
      assert chunks[1..] == SplitFrom(cap, ints, start + cap);
    } else {
      assert chunks == [MakeChunk(ints, start, |ints| - 1)];
    }
  }

  lemma {:induction false} SplitFromFlatten(cap: nat, ints: seq<int32>, start: nat)
    requires cap > 0 && start < |ints|
    ensures Flatten(SplitFrom(cap, ints, start)) == ints[start..|ints| - 1]
    decreases |ints| - start
  {
    if start + cap < |ints| {
      var c := MakeChunk(ints, start, start + cap);
      var rest := SplitFrom(cap, ints, start + cap);
      calc {
        Flatten(SplitFrom(cap, ints, start));
        Flatten([c] + rest);
        { FlattenCons(c, rest); }
        c.seqData + Flatten(rest);
        { SplitFromFlatten(cap, ints, start + cap); }
        ints[start..start + cap] + ints[start + cap..|ints| - 1];
        { SliceConcat(ints, start, start + cap, |ints| - 1); }
        ints[start..|ints| - 1];
      }
    } else {
      var c := MakeChunk(ints, start, |ints| - 1);
      calc {
        Flatten(SplitFrom(cap, ints, start));
        Flatten([c] + []);
        { FlattenCons(c, []); }
        c.seqData + Flatten([]);
        ints[start..|ints| - 1];
      }
    }
  }

  lemma SliceConcat(s: seq<int32>, i: nat, j: nat, k: nat)
    requires i <= j <= k <= |s|
    ensures s[i..k] == s[i..j] + s[j..k]
  {
  }

  lemma FlattenCons(c: DataChunk, rest: seq<DataChunk>)
    ensures Flatten([c] + rest) == c.seqData + Flatten(rest)
  {
    assert ([c] + rest)[1..] == rest;
  }

  lemma {:induction false} SplitFromSlices(cap: nat, ints: seq<int32>, start: nat)
    requires cap > 0 && start < |ints|
    ensures forall k :: 0 <= k < |SplitFrom(cap, ints, start)| ==>
      SplitFrom(cap, ints, start)[k].start <= SplitFrom(cap, ints, start)[k].end < |ints|
      && SplitFrom(cap, ints, start)[k].seqData ==
           ints[SplitFrom(cap, ints, start)[k].start..SplitFrom(cap, ints, start)[k].end]
    decreases |ints| - start
  {
    if start + cap < |ints| {
      var c := MakeChunk(ints, start, start + cap);
      var rest := SplitFrom(cap, ints, start + cap);
      var chunks := SplitFrom(cap, ints, start);
      assert chunks == [c] + rest;
      SplitFromSlices(cap, ints, start + cap);
      assert forall k :: 1 <= k < |chunks| ==> chunks[k] == rest[k - 1];
    } else {
      assert SplitFrom(cap, ints, start) == [MakeChunk(ints, start, |ints| - 1)];
    }
  }

  /** `from_ints` produces the layout, each chunk holds its slice of the
      input, and all chunks together hold every input value but the last. */
  lemma SplitChunksLayout(cap: nat, ints: seq<int32>)
    requires cap > 0 && |ints| > 0
    ensures Layout(SplitChunks(cap, ints), cap, |ints|)
    ensures forall k :: 0 <= k < |SplitChunks(cap, ints)| ==>
      SplitChunks(cap, ints)[k].start <= SplitChunks(cap, ints)[k].end < |ints|
      && SplitChunks(cap, ints)[k].seqData ==
           ints[SplitChunks(cap, ints)[k].start..SplitChunks(cap, ints)[k].end]
    ensures Flatten(SplitChunks(cap, ints)) == ints[..|ints| - 1]
  {
    SplitFromLayout(cap, ints, 0);
    SplitFromSlices(cap, ints, 0);
    SplitFromFlatten(cap, ints, 0);
  }

  /** Chunk `k` starts `k` chunk capacities after `start`. */
  lemma {:induction false} ChunkStartsAtFrom(chunks: seq<DataChunk>, cap: nat, len: nat, start: nat, k: nat)
    requires LayoutFrom(chunks, cap, len, start) && k < |chunks|
    ensures chunks[k].start == start + StartOf(k, cap)
    decreases k
  {
    if k > 0 {
      ChunkStartsAtFrom(chunks[1..], cap, len, start + cap, k - 1);
    }
  }

  /** Chunk `k` of a segment starts at `k * cap`. */
  lemma ChunkStartsAtMultiple(chunks: seq<DataChunk>, cap: nat, len: nat, k: nat)
    requires Layout(chunks, cap, len) && k < |chunks|
    ensures chunks[k].start == k * cap
  {
    ChunkStartsAtFrom(chunks, cap, len, 0, k);
    StartOfIsProduct(k, cap);
  }

  lemma {:induction false} ChunkEndsFrom(chunks: seq<DataChunk>, cap: nat, len: nat, start: nat)
    requires LayoutFrom(chunks, cap, len, start)
    ensures forall k :: 0 <= k < |chunks| - 1 ==>
      chunks[k].end == chunks[k].start + cap && chunks[k].start + cap < len
      && chunks[k + 1].start == chunks[k].end
    ensures Last(chunks).start + cap >= len && Last(chunks).end + 1 == len
    ensures forall k :: 0 <= k < |chunks| ==> chunks[k].end < len
    ensures |Flatten(chunks)| + start + 1 == len
    decreases |chunks|
  {
    if |chunks| > 1 {
      ChunkEndsFrom(chunks[1..], cap, len, start + cap);
      assert forall k :: 1 <= k < |chunks| ==> chunks[k] == chunks[1..][k - 1];
    }
  }

  /** The chunk ends of a segment: every chunk but the last ends `cap` after
      its start, where the next begins; the last is the first whose
      `start + cap` reaches `len` and ends at `len - 1`; so no chunk's range
      reaches index `len - 1`, whose value is in no chunk's data. */
  lemma ChunkEnds(chunks: seq<DataChunk>, cap: nat, len: nat)
    requires Layout(chunks, cap, len)
    ensures forall k :: 0 <= k < |chunks| - 1 ==>
      chunks[k].end == chunks[k].start + cap && chunks[k].start + cap < len
      && chunks[k + 1].start == chunks[k].end
    ensures Last(chunks).start + cap >= len && Last(chunks).end == len - 1
    ensures forall k :: 0 <= k < |chunks| ==> chunks[k].end <= len - 1
    ensures |Flatten(chunks)| == len - 1
  {
    ChunkEndsFrom(chunks, cap, len, 0);
  }

  // ----- Addressing -----

  lemma {:induction false} FlattenLength(chunks: seq<DataChunk>, cap: nat, len: nat, start: nat)
    requires LayoutFrom(chunks, cap, len, start)
    ensures |Flatten(chunks)| + start + 1 == len
    decreases |chunks|
  {
    if |chunks| > 1 {
      FlattenLength(chunks[1..], cap, len, start + cap);
    }
  }

  lemma {:induction false} AddressableFrom(chunks: seq<DataChunk>, cap: nat, len: nat, start: nat, idx: nat)
    requires LayoutFrom(chunks, cap, len, start) && start <= idx
    ensures chunks[ChunkPos(chunks, idx)].start <= idx
    ensures |Flatten(chunks)| + start + 1 == len
    ensures Addressable(chunks, idx) <==> idx + 1 < len
    ensures idx + 1 < len ==> ValueAt(chunks, idx) == Flatten(chunks)[idx - start]
    decreases |chunks|
  {
    FlattenLength(chunks, cap, len, start);
    var c := chunks[0];
    assert Flatten(chunks) == c.seqData + Flatten(chunks[1..]);
    if c.end > idx || |chunks| == 1 {
      assert ChunkPos(chunks, idx) == 0;
    } else {
      AddressableFrom(chunks[1..], cap, len, start + cap, idx);
      assert ChunkPos(chunks, idx) == ChunkPos(chunks[1..], idx) + 1;
    }
  }

  /** The chunk `get_chunk` finds never starts after the index, so the
      subtraction `idx - chunk.start` never underflows on a segment. */
  lemma ChunkStartAtMost(chunks: seq<DataChunk>, cap: nat, len: nat, idx: nat)
    requires Layout(chunks, cap, len)
    ensures ChunkStartWithin(chunks, idx)
  {
    AddressableFrom(chunks, cap, len, 0, idx);
  }

  /** On a segment the addressable element indices are exactly those below
      `len - 1`, and the value read there is that element of the data. */
  lemma AddressableIff(chunks: seq<DataChunk>, cap: nat, len: nat, idx: nat)
    requires Layout(chunks, cap, len)
    ensures |Flatten(chunks)| == len - 1
    ensures Addressable(chunks, idx) <==> idx + 1 < len
    ensures idx + 1 < len ==> ValueAt(chunks, idx) == Flatten(chunks)[idx]
  {
    AddressableFrom(chunks, cap, len, 0, idx);
  }

  /** A tuple read from a freshly built segment holds the input values at
      its indices. */
  lemma FromIntsTupleValues(cap: nat, ints: seq<int32>, idx: nat)
    requires cap > 0 && |ints| > 0 && idx + 1 < |ints|
    ensures Addressable(SplitChunks(cap, ints), idx)
    ensures ValueAt(SplitChunks(cap, ints), idx) == ints[idx]
  {
    SplitChunksLayout(cap, ints);
    AddressableIff(SplitChunks(cap, ints), cap, |ints|, idx);
  }

  /** The id of a tuple, from `get_tuple` or `empty_tuple`, reads back as
      its indices, and a chunk id reads back as its start and end. */
  lemma IdsRoundTrip(index: seq<int32>, start: nat, end: nat)
    ensures |index| > 0 ==> ParseId(TupleId(index)) == Ints(index)
    ensures ParseId(ChunkId(start, end)) == [start, end]
  {
    if |index| > 0 {
      IdRoundTrip(Ints(index));
    }
    IdRoundTrip([start, end]);
  }

  // ----- update_value -----

  /** Two chunks agree on everything but the values they hold. */
  ghost predicate SameShape(a: DataChunk, b: DataChunk)
  {
    a.chunkId == b.chunkId && a.start == b.start && a.end == b.end && |a.seqData| == |b.seqData|
  }

  lemma {:induction false} LayoutKeepsShape(chunks: seq<DataChunk>, other: seq<DataChunk>, cap: nat, len: nat, start: nat)
    requires LayoutFrom(chunks, cap, len, start) && |other| == |chunks|
    requires forall k :: 0 <= k < |chunks| ==> SameShape(chunks[k], other[k])
    ensures LayoutFrom(other, cap, len, start)
    decreases |chunks|
  {
    assert SameShape(chunks[0], other[0]);
    if |chunks| > 1 {
      assert forall k :: 0 <= k < |chunks| - 1 ==> chunks[1..][k] == chunks[k + 1] && other[1..][k] == other[k + 1];
      LayoutKeepsShape(chunks[1..], other[1..], cap, len, start + cap);
    }
  }

  /** Overwriting one value of one chunk keeps the layout. */
  lemma WriteKeepsLayout(chunks: seq<DataChunk>, cap: nat, len: nat, p: nat, off: nat, v: int32)
    requires Layout(chunks, cap, len) && p < |chunks| && off < |chunks[p].seqData|
    ensures Layout(chunks[p := chunks[p].(seqData := chunks[p].seqData[off := v])], cap, len)
  {
    var updated := chunks[p := chunks[p].(seqData := chunks[p].seqData[off := v])];
    assert forall k :: 0 <= k < |chunks| ==> SameShape(chunks[k], updated[k]);
    LayoutKeepsShape(chunks, updated, cap, len, 0);
  }

  /** The corrected update writes exactly element `index` of the data and
      keeps the layout. */
  lemma UpdateIntendedCorrect(chunks: seq<DataChunk>, cap: nat, len: nat, index: nat, v: int32)
    requires Layout(chunks, cap, len) && index + 1 < len
    ensures Addressable(chunks, index) && |Flatten(chunks)| == len - 1
    ensures Layout(UpdateIntended(chunks, index, v), cap, len)
    ensures Flatten(UpdateIntended(chunks, index, v)) == Flatten(chunks)[index := v]
  {
    AddressableIff(chunks, cap, len, index);
    var p := ChunkPos(chunks, index);
    OffsetIsStart(chunks, cap, len, 0, p);
    UpdateFlatten(chunks, p, index - chunks[p].start, v);
    WriteKeepsLayout(chunks, cap, len, p, index - chunks[p].start, v);
  }

  /** Writing offset `off` of chunk `p` writes the flattened data at the
      chunk's offset in it plus `off`. */
  lemma {:induction false} UpdateFlatten(chunks: seq<DataChunk>, p: nat, off: nat, v: int32)
    requires p < |chunks| && off < |chunks[p].seqData|
    ensures Offset(chunks, p) + off < |Flatten(chunks)|
    ensures var updated := chunks[p := chunks[p].(seqData := chunks[p].seqData[off := v])];
      Flatten(updated) == Flatten(chunks)[Offset(chunks, p) + off := v]
    decreases p
  {
    var updated := chunks[p := chunks[p].(seqData := chunks[p].seqData[off := v])];
    assert updated[1..] == if p == 0 then chunks[1..]
      else chunks[1..][p - 1 := chunks[p].(seqData := chunks[p].seqData[off := v])];
    if p > 0 {
      UpdateFlatten(chunks[1..], p - 1, off, v);
    }
  }

  /** Where chunk `p`'s data begins in the flattened data. */
  function Offset(chunks: seq<DataChunk>, p: nat): nat
    requires p <= |chunks|
    decreases p
  {
    if p == 0 then 0 else |chunks[0].seqData| + Offset(chunks[1..], p - 1)
  }

  /** On a layout, a chunk's data begins in the flattened data at the
      chunk's start, counted from the layout's start. */
  lemma {:induction false} OffsetIsStart(chunks: seq<DataChunk>, cap: nat, len: nat, start: nat, p: nat)
    requires LayoutFrom(chunks, cap, len, start) && p < |chunks|
    ensures Offset(chunks, p) + start == chunks[p].start
    decreases p
  {
    if p > 0 {
      OffsetIsStart(chunks[1..], cap, len, start + cap, p - 1);
    }
  }

  /** Five values, chunks of two: `[10, 20]`, `[30, 40]`, and an empty
      last chunk, since the last value is in no chunk. */
  const SAMPLE: seq<int32> := [10, 20, 30, 40, 50]

  lemma SampleChunks()
    ensures SplitChunks(2, SAMPLE)
      == [MakeChunk(SAMPLE, 0, 2), MakeChunk(SAMPLE, 2, 4), MakeChunk(SAMPLE, 4, 4)]
    ensures MakeChunk(SAMPLE, 0, 2).seqData == [10, 20]
    ensures MakeChunk(SAMPLE, 2, 4).seqData == [30, 40]
    ensures MakeChunk(SAMPLE, 4, 4).seqData == []
  {
    assert SplitFrom(2, SAMPLE, 4) == [MakeChunk(SAMPLE, 4, 4)];
    assert SplitFrom(2, SAMPLE, 2) == [MakeChunk(SAMPLE, 2, 4), MakeChunk(SAMPLE, 4, 4)];
  }

  /** The data of the sample segment, before any update. */
  lemma SampleFlatten()
    ensures Flatten(SplitChunks(2, SAMPLE)) == [10, 20, 30, 40]
  {
    SampleChunks();
    var c0 := MakeChunk(SAMPLE, 0, 2);
    var c1 := MakeChunk(SAMPLE, 2, 4);
    var c2 := MakeChunk(SAMPLE, 4, 4);
    FlattenCons(c2, []);
    FlattenCons(c1, [c2]);
    FlattenCons(c0, [c1, c2]);
  }

  /** `update_value(1, 99)` as written on the sample segment writes
      position 1 of chunk 1, which is element 3. */
  lemma SampleWritten()
    ensures var chunks := SplitChunks(2, SAMPLE);
      var i := AsUsize(AsI32(1));
      && i == 1 && i < |chunks| && chunks[ChunkPos(chunks, i)].start <= i
      && ChunkIndexOf(chunks, i).valueIndex < |chunks[i].seqData|
      && Flatten(UpdateAsWritten(chunks, 1, 99)) == [10, 20, 30, 99]
  {
    SampleChunks();
    var c0 := MakeChunk(SAMPLE, 0, 2);
    var c1 := MakeChunk(SAMPLE, 2, 4);
    var c2 := MakeChunk(SAMPLE, 4, 4);
    var chunks := [c0, c1, c2];
    assert ChunkPos(chunks, 1) == 0;
    assert AsUsize(AsI32(1)) == 1;
    assert ChunkIndexOf(chunks, 1) == DataChunkIndex(1, 1);
    var c1w := c1.(seqData := [30, 99]);
    assert c1.seqData[1 := 99] == [30, 99];
    assert UpdateAsWritten(chunks, 1, 99) == [c0, c1w, c2];
    FlattenCons(c2, []);
    FlattenCons(c1w, [c2]);
    FlattenCons(c0, [c1w, c2]);
  }

  /** The corrected update of element 1 on the sample segment. */
  lemma SampleIntended()
    ensures Addressable(SplitChunks(2, SAMPLE), 1)
    ensures Flatten(UpdateIntended(SplitChunks(2, SAMPLE), 1, 99)) == [10, 99, 30, 40]
  {
    SampleChunks();
    var c0 := MakeChunk(SAMPLE, 0, 2);
    var c1 := MakeChunk(SAMPLE, 2, 4);
    var c2 := MakeChunk(SAMPLE, 4, 4);
    var chunks := [c0, c1, c2];
    assert ChunkPos(chunks, 1) == 0;
    var c0w := c0.(seqData := [10, 99]);
    assert c0.seqData[1 := 99] == [10, 99];
    assert UpdateIntended(chunks, 1, 99) == [c0w, c1, c2];
    FlattenCons(c2, []);
    FlattenCons(c1, [c2]);
    FlattenCons(c0w, [c1, c2]);
  }

  /** `update_value` as written writes the wrong element: with chunks of
      two values over `[10, 20, 30, 40, 50]`, updating element 1 changes
      element 3, while the corrected update changes element 1. */
  lemma UpdateValueMisplaces()
    ensures var chunks := SplitChunks(2, SAMPLE);
      && Flatten(chunks) == [10, 20, 30, 40]
      && Addressable(chunks, 1)
      && Flatten(UpdateIntended(chunks, 1, 99)) == [10, 99, 30, 40]
      && var i := AsUsize(AsI32(1));
      && i == 1 && i < |chunks| && chunks[ChunkPos(chunks, i)].start <= i
      && ChunkIndexOf(chunks, i).valueIndex < |chunks[i].seqData|
      && Flatten(UpdateAsWritten(chunks, 1, 99)) == [10, 20, 30, 99]
  {
    SampleFlatten();
    SampleWritten();
    SampleIntended();
  }
}
