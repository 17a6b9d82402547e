/**
 * The segment side of data-availability replay: discovering which chunks a
 * segment directory holds (`collect_chunks`), reading one chunk back into its
 * transaction list (`get_tx_list_from_chunk`), and the `LedgerTxGetter`
 * facade over a fixed directory.
 *
 * The filesystem is a snapshot value (`SegmentDir`); the segment codec, the
 * `SegmentID` text form and batch verification are foreign code and appear
 * as the function fields of `SegmentCodec`.
 */
module SegmentStore {
  import opened Wrappers
  import opened Text

  type ChunkId = u128
  type SegmentNumber = u64

  /** Identity of one segment file. */
  datatype SegmentId = SegmentId(chunkId: ChunkId, segmentNumber: SegmentNumber)

  type Bytes = seq<bv8>

  /** Opaque products of the DA codec. */
  type Segment
  type Chunk
  type Batch
  type LedgerTransaction

  datatype Error =
    | NoSegmentFound              // collect_chunks found nothing to reconstruct
    | ChunkNotFound(chunkId: ChunkId)
    | Io                          // an unreadable directory or file
    | Codec                       // a segment, chunk or batch that does not decode or verify
    | Panic                       // the process aborts (an `unwrap` on nothing)

  /** One item of `fs::read_dir`; `Unreadable` items are dropped by `.flatten()`. */
  datatype DirEntry = Entry(name: string, isFile: bool) | Unreadable

  /** What the core sees of the segment directory. */
  datatype SegmentDir = SegmentDir(
    listing: Result<seq<DirEntry>, Error>,   // fs::read_dir
    read: string -> Result<Bytes, Error>)    // fs::read of the file of that name in the directory

  /** The foreign DA codec. */
  datatype SegmentCodec = SegmentCodec(
    parseId: string -> Option<SegmentId>,                  // str::parse::<SegmentID>
    formatId: SegmentId -> string,                         // SegmentID::to_string
    segmentFromBytes: Bytes -> Result<Segment, Error>,
    chunkFromSegments: seq<Segment> -> Result<Chunk, Error>,
    batches: Chunk -> seq<Batch>,
    verify: Batch -> Result<(), Error>,                    // batch.verify(true)
    txList: Batch -> seq<LedgerTransaction>)

  // ---------------------------------------------------------------------------
  // Chunk discovery
  // ---------------------------------------------------------------------------

  /** The segment id an entry contributes: regular files whose name parses. */
  function IdOf(e: DirEntry, parseId: string -> Option<SegmentId>): seq<SegmentId>
  {
    if e.Entry? && e.isFile && parseId(e.name).Some? then [parseId(e.name).value] else []
  }

  /** The segment ids of a listing, in iteration order. */
  function ParsedIds(entries: seq<DirEntry>, parseId: string -> Option<SegmentId>): seq<SegmentId>
  {
    if entries == [] then []
    else ParsedIds(entries[..|entries| - 1], parseId) + IdOf(entries[|entries| - 1], parseId)
  }

  function ChunkIds(ids: seq<SegmentId>): set<ChunkId>
  {
    set i | 0 <= i < |ids| :: ids[i].chunkId
  }

  /** The segment numbers seen for chunk `k`, in the order they were seen. */
  function SegmentsOf(ids: seq<SegmentId>, k: ChunkId): seq<SegmentNumber>
  {
    if ids == [] then []
    else
      SegmentsOf(ids[..|ids| - 1], k)
      + (if ids[|ids| - 1].chunkId == k then [ids[|ids| - 1].segmentNumber] else [])
  }

  /** The grouping `collect_chunks` is meant to build: each chunk id to its segment numbers. */
  function Grouping(ids: seq<SegmentId>): map<ChunkId, seq<SegmentNumber>>
  {
    map k | k in ChunkIds(ids) :: SegmentsOf(ids, k)
  }

  /** `min` and `max` are keys of `chunks` and bound every key. */
  predicate Bounds(chunks: map<ChunkId, seq<SegmentNumber>>, min: ChunkId, max: ChunkId)
  {
    && min in chunks && max in chunks
    && forall k :: k in chunks ==> min <= k <= max
  }

  /** The `(chunks, min_chunk_id, max_chunk_id)` triple `collect_chunks` returns. */
  datatype ChunkIndex = ChunkIndex(
    chunks: map<ChunkId, seq<SegmentNumber>>,
    minChunkId: ChunkId,
    maxChunkId: ChunkId)

  /** A chunk has segments exactly when some id names it. */
  lemma {:induction false} SegmentsOfNonEmpty(ids: seq<SegmentId>, k: ChunkId)
    ensures SegmentsOf(ids, k) != [] <==> k in ChunkIds(ids)
  {
    if ids != [] {
      var init := ids[..|ids| - 1];
      SegmentsOfNonEmpty(init, k);
      assert ChunkIds(ids) == ChunkIds(init) + {ids[|ids| - 1].chunkId} by {
        forall c | c in ChunkIds(ids) ensures c in ChunkIds(init) + {ids[|ids| - 1].chunkId} {
          var i :| 0 <= i < |ids| && ids[i].chunkId == c;
          if i < |ids| - 1 { assert init[i] == ids[i]; }
        }
        forall c | c in ChunkIds(init) ensures c in ChunkIds(ids) {
          var i :| 0 <= i < |init| && init[i].chunkId == c;
          assert ids[i] == init[i];
        }
      }
    }
  }

  /** Every list of the grouping is non-empty, and the grouping is empty only for no ids. */
  lemma GroupingShape(ids: seq<SegmentId>)
    ensures forall k :: k in Grouping(ids) ==> Grouping(ids)[k] != []
    ensures Grouping(ids) == map[] <==> ids == []
  {
    forall k | k in Grouping(ids) ensures Grouping(ids)[k] != [] {
      SegmentsOfNonEmpty(ids, k);
    }
    if ids != [] {
      assert ids[0].chunkId in Grouping(ids);
    }
  }

  /** Appending one id appends its segment number to its own chunk's list only. */
  lemma GroupingStep(ids: seq<SegmentId>, id: SegmentId)
    ensures Grouping(ids + [id])
         == Grouping(ids)[id.chunkId := (if id.chunkId in Grouping(ids) then Grouping(ids)[id.chunkId] else []) + [id.segmentNumber]]
  {
    var ids' := ids + [id];
    assert ids'[..|ids'| - 1] == ids;
    assert ChunkIds(ids') == ChunkIds(ids) + {id.chunkId} by {
      forall c | c in ChunkIds(ids') ensures c in ChunkIds(ids) + {id.chunkId} {
        var i :| 0 <= i < |ids'| && ids'[i].chunkId == c;
        if i < |ids| { assert ids'[i] == ids[i]; }
      }
      forall c | c in ChunkIds(ids) ensures c in ChunkIds(ids') {
        var i :| 0 <= i < |ids| && ids[i].chunkId == c;
        assert ids'[i] == ids[i];
      }
      assert ids'[|ids|] == id;
    }
    if id.chunkId !in Grouping(ids) {
      SegmentsOfNonEmpty(ids, id.chunkId);
    }
    var g := Grouping(ids);
    var rhs := g[id.chunkId := (if id.chunkId in g then g[id.chunkId] else []) + [id.segmentNumber]];
    assert Grouping(ids').Keys == rhs.Keys;
    forall k | k in rhs ensures Grouping(ids')[k] == rhs[k] {
      assert SegmentsOf(ids', k) == SegmentsOf(ids, k) + (if id.chunkId == k then [id.segmentNumber] else []);
      if k != id.chunkId {
        assert k in g;
      }
    }
  }

  /** Inserting a chunk and widening the bounds to it keeps the bounds exact. */
  lemma BoundsStep(chunks: map<ChunkId, seq<SegmentNumber>>, min: ChunkId, max: ChunkId, c: ChunkId, s: seq<SegmentNumber>)
    requires chunks == map[] ==> min == U128_LIMIT - 1 && max == 0
    requires chunks != map[] ==> Bounds(chunks, min, max)
    ensures Bounds(chunks[c := s], if c < min then c else min, if c > max then c else max)
  {
    if chunks == map[] {
      assert chunks[c := s].Keys == {c};
    }
  }

  lemma ParsedIdsStep(entries: seq<DirEntry>, i: nat, parseId: string -> Option<SegmentId>)
    requires i < |entries|
    ensures ParsedIds(entries[..i + 1], parseId) == ParsedIds(entries[..i], parseId) + IdOf(entries[i], parseId)
  {
    assert entries[..i + 1][..i] == entries[..i];
  }

  /**
   * `collect_chunks`: scan the listing, group the ids of parseable regular
   * files by chunk and track the smallest and largest chunk id; a listing
   * without any such file is an error.
   */
  method CollectChunks(dir: SegmentDir, parseId: string -> Option<SegmentId>) returns (r: Result<ChunkIndex, Error>)
    ensures dir.listing.Failure? ==> r == Failure(dir.listing.error)
    ensures dir.listing.Success? ==>
      var ids := ParsedIds(dir.listing.value, parseId);
      && (r.Failure? <==> ids == [])
      && (r.Failure? ==> r.error == NoSegmentFound)
      && (r.Success? ==> r.value.chunks == Grouping(ids) && Bounds(r.value.chunks, r.value.minChunkId, r.value.maxChunkId))
  {
    if dir.listing.Failure? {
      return Failure(dir.listing.error);
    }
    var entries := dir.listing.value;
    var chunks: map<ChunkId, seq<SegmentNumber>> := map[];
    var maxChunkId: ChunkId := 0;
    var minChunkId: ChunkId := U128_LIMIT - 1;
    for i := 0 to |entries|
      invariant chunks == Grouping(ParsedIds(entries[..i], parseId))
      invariant chunks == map[] ==> minChunkId == U128_LIMIT - 1 && maxChunkId == 0
      invariant chunks != map[] ==> Bounds(chunks, minChunkId, maxChunkId)
    {
      ParsedIdsStep(entries, i, parseId);
      ghost var seen := ParsedIds(entries[..i], parseId);
      var entry := entries[i];
      if entry.Entry? && entry.isFile && parseId(entry.name).Some? {
        var segmentId := parseId(entry.name).value;
        var chunkId := segmentId.chunkId;
        GroupingStep(seen, segmentId);
        var segments := if chunkId in chunks then chunks[chunkId] else [];
        BoundsStep(chunks, minChunkId, maxChunkId, chunkId, segments + [segmentId.segmentNumber]);
        chunks := chunks[chunkId := segments + [segmentId.segmentNumber]];
        if chunkId > maxChunkId {
          maxChunkId := chunkId;
        }
        if chunkId < minChunkId {
          minChunkId := chunkId;
        }
      } else {
        assert seen + IdOf(entry, parseId) == seen;
      }
    }
    assert entries[..|entries|] == entries;
    GroupingShape(ParsedIds(entries, parseId));
    if chunks == map[] {
      return Failure(NoSegmentFound);
    }
    return Success(ChunkIndex(chunks, minChunkId, maxChunkId));
  }

  // ---------------------------------------------------------------------------
  // Chunk reader
  // ---------------------------------------------------------------------------

  /** Read the file of one segment and decode it. */
  function ReadSegment(dir: SegmentDir, codec: SegmentCodec, id: SegmentId): Result<Segment, Error>
  {
    match dir.read(codec.formatId(id))
    case Failure(e) => Failure(e)
    case Success(bytes) => codec.segmentFromBytes(bytes)
  }

  /** The segments of `chunkId`, read in the order of `numbers`; the first failure wins. */
  function LoadSegments(dir: SegmentDir, codec: SegmentCodec, chunkId: ChunkId, numbers: seq<SegmentNumber>): Result<seq<Segment>, Error>
  {
    if numbers == [] then Success([])
    else
      match LoadSegments(dir, codec, chunkId, numbers[..|numbers| - 1])
      case Failure(e) => Failure(e)
      case Success(segments) =>
        match ReadSegment(dir, codec, SegmentId(chunkId, numbers[|numbers| - 1]))
        case Failure(e) => Failure(e)
        case Success(s) => Success(segments + [s])
  }

  /** Assemble read segments into a chunk and take the transactions of its first, verified batch. */
  function TxListOfSegments(codec: SegmentCodec, segments: seq<Segment>): Result<seq<LedgerTransaction>, Error>
  {
    match codec.chunkFromSegments(segments)
    case Failure(e) => Failure(e)
    case Success(chunk) =>
      var batches := codec.batches(chunk);
      if batches == [] then Failure(Panic)
      else
        match codec.verify(batches[0])
        case Failure(e) => Failure(e)
        case Success(_) => Success(codec.txList(batches[0]))
  }

  /** What reading chunk `chunkId` from segments `numbers` yields. */
  function TxListOf(dir: SegmentDir, codec: SegmentCodec, chunkId: ChunkId, numbers: seq<SegmentNumber>): Result<seq<LedgerTransaction>, Error>
  {
    match LoadSegments(dir, codec, chunkId, numbers)
    case Failure(e) => Failure(e)
    case Success(segments) => TxListOfSegments(codec, segments)
  }

  /**
   * On success the chunk is assembled from exactly one segment per listed
   * number, in the listed order (the list is not sorted first).
   */
  lemma {:induction false} LoadSegmentsInOrder(dir: SegmentDir, codec: SegmentCodec, chunkId: ChunkId, numbers: seq<SegmentNumber>)
    requires LoadSegments(dir, codec, chunkId, numbers).Success?
    ensures var segments := LoadSegments(dir, codec, chunkId, numbers).value;
      && |segments| == |numbers|
      && forall i :: 0 <= i < |numbers| ==> ReadSegment(dir, codec, SegmentId(chunkId, numbers[i])) == Success(segments[i])
  {
    if numbers != [] {
      var init := numbers[..|numbers| - 1];
      LoadSegmentsInOrder(dir, codec, chunkId, init);
      forall i | 0 <= i < |init| ensures numbers[i] == init[i] { }
    }
  }

  /** Reading fails exactly when some segment fails, and with the error of the first one. */
  lemma {:induction false} LoadSegmentsFailure(dir: SegmentDir, codec: SegmentCodec, chunkId: ChunkId, numbers: seq<SegmentNumber>)
    ensures LoadSegments(dir, codec, chunkId, numbers).Failure?
        <==> exists i :: 0 <= i < |numbers| && ReadSegment(dir, codec, SegmentId(chunkId, numbers[i])).Failure?
    ensures LoadSegments(dir, codec, chunkId, numbers).Failure? ==>
      exists i :: 0 <= i < |numbers|
        && ReadSegment(dir, codec, SegmentId(chunkId, numbers[i])) == Failure(LoadSegments(dir, codec, chunkId, numbers).error)
        && forall j :: 0 <= j < i ==> ReadSegment(dir, codec, SegmentId(chunkId, numbers[j])).Success?
  {
    if numbers != [] {
      var init := numbers[..|numbers| - 1];
      LoadSegmentsFailure(dir, codec, chunkId, init);
      assert forall i :: 0 <= i < |init| ==> numbers[i] == init[i];
    }
  }

  /** Once a prefix of the list fails, reading the whole list fails with the same error. */
  lemma {:induction false} LoadSegmentsPrefixFailure(dir: SegmentDir, codec: SegmentCodec, chunkId: ChunkId, numbers: seq<SegmentNumber>, j: nat)
    requires j <= |numbers|
    requires LoadSegments(dir, codec, chunkId, numbers[..j]).Failure?
    ensures LoadSegments(dir, codec, chunkId, numbers) == LoadSegments(dir, codec, chunkId, numbers[..j])
    decreases |numbers| - j
  {
    if j == |numbers| {
      assert numbers[..j] == numbers;
    } else {
      var init := numbers[..|numbers| - 1];
      assert init[..j] == numbers[..j];
      LoadSegmentsPrefixFailure(dir, codec, chunkId, init, j);
    }
  }

  lemma LoadSegmentsStep(dir: SegmentDir, codec: SegmentCodec, chunkId: ChunkId, numbers: seq<SegmentNumber>, i: nat)
    requires i < |numbers|
    ensures LoadSegments(dir, codec, chunkId, numbers[..i + 1])
         == match LoadSegments(dir, codec, chunkId, numbers[..i])
            case Failure(e) => Failure(e)
            case Success(segments) =>
              match ReadSegment(dir, codec, SegmentId(chunkId, numbers[i]))
              case Failure(e) => Failure(e)
              case Success(s) => Success(segments + [s])
  {
    assert numbers[..i + 1][..i] == numbers[..i];
  }

  /**
   * `get_tx_list_from_chunk`: read and decode every listed segment in turn,
   * assemble the chunk, verify its first batch and return its transactions.
   */
  method GetTxListFromChunk(dir: SegmentDir, codec: SegmentCodec, chunkId: ChunkId, numbers: seq<SegmentNumber>)
    returns (r: Result<seq<LedgerTransaction>, Error>)
    ensures r == TxListOf(dir, codec, chunkId, numbers)
  {
    var segments: seq<Segment> := [];
    for i := 0 to |numbers|
      invariant LoadSegments(dir, codec, chunkId, numbers[..i]) == Success(segments)
    {
      LoadSegmentsStep(dir, codec, chunkId, numbers, i);
      var segmentId := SegmentId(chunkId, numbers[i]);
      var bytes := dir.read(codec.formatId(segmentId));
      if bytes.Failure? {
        LoadSegmentsPrefixFailure(dir, codec, chunkId, numbers, i + 1);
        return Failure(bytes.error);
      }
      var segment := codec.segmentFromBytes(bytes.value);
      if segment.Failure? {
        LoadSegmentsPrefixFailure(dir, codec, chunkId, numbers, i + 1);
        return Failure(segment.error);
      }
      segments := segments + [segment.value];
    }
    assert numbers[..|numbers|] == numbers;
    var chunk := codec.chunkFromSegments(segments);
    if chunk.Failure? {
      return Failure(chunk.error);
    }
    var batches := codec.batches(chunk.value);
    if batches == [] {
      return Failure(Panic);
    }
    var verified := codec.verify(batches[0]);
    if verified.Failure? {
      return Failure(verified.error);
    }
    return Success(codec.txList(batches[0]));
  }

  // ---------------------------------------------------------------------------
  // Ledger transaction source
  // ---------------------------------------------------------------------------

  /** `LedgerTxGetter`: a segment directory and the chunks discovered in it when it was opened. */
  datatype LedgerTxGetter = LedgerTxGetter(
    segmentDir: SegmentDir,
    chunks: map<ChunkId, seq<SegmentNumber>>,
    minChunkId: ChunkId,
    maxChunkId: ChunkId)
  {
    /** What `collect_chunks` guarantees of the getter's state. */
    ghost predicate Valid()
    {
      && Bounds(chunks, minChunkId, maxChunkId)
      && forall k :: k in chunks ==> chunks[k] != []
    }

    /** `LedgerTxGetter::new`: scan the directory once; its errors propagate. */
    static method New(dir: SegmentDir, codec: SegmentCodec) returns (r: Result<LedgerTxGetter, Error>)
      ensures r.Success? <==> dir.listing.Success? && ParsedIds(dir.listing.value, codec.parseId) != []
      ensures r.Failure? ==> r.error == (if dir.listing.Failure? then dir.listing.error else NoSegmentFound)
      ensures r.Success? ==>
        && r.value.Valid()
        && r.value.segmentDir == dir
        && r.value.chunks == Grouping(ParsedIds(dir.listing.value, codec.parseId))
    {
      var collected := CollectChunks(dir, codec.parseId);
      if collected.Failure? {
        return Failure(collected.error);
      }
      GroupingShape(ParsedIds(dir.listing.value, codec.parseId));
      var index := collected.value;
      return Success(LedgerTxGetter(dir, index.chunks, index.minChunkId, index.maxChunkId));
    }

    /**
     * `load_ledger_tx_list`: an unknown chunk is an error when it must exist
     * and "nothing" otherwise; a known chunk is read from its stored segment
     * list, and the reader's errors propagate.
     */
    method LoadLedgerTxList(codec: SegmentCodec, chunkId: ChunkId, mustHas: bool)
      returns (r: Result<Option<seq<LedgerTransaction>>, Error>)
      ensures chunkId !in chunks && mustHas ==> r == Failure(ChunkNotFound(chunkId))
      ensures chunkId !in chunks && !mustHas ==> r == Success(None)
      ensures chunkId in chunks ==>
        match TxListOf(segmentDir, codec, chunkId, chunks[chunkId])
        case Success(txs) => r == Success(Some(txs))
        case Failure(e) => r == Failure(e)
    {
      if chunkId !in chunks {
        if mustHas {
          return Failure(ChunkNotFound(chunkId));
        }
        return Success(None);
      }
      var txs := GetTxListFromChunk(segmentDir, codec, chunkId, chunks[chunkId]);
      if txs.Failure? {
        return Failure(txs.error);
      }
      return Success(Some(txs.value));
    }

    /** `get_max_chunk_id`: the largest discovered chunk id. */
    function MaxChunkId(): (r: ChunkId)
      requires Valid()
      ensures r in chunks && forall k :: k in chunks ==> k <= r
    {
      maxChunkId
    }

    /** `get_min_chunk_id`: the smallest discovered chunk id. */
    function MinChunkId(): (r: ChunkId)
      requires Valid()
      ensures r in chunks && forall k :: k in chunks ==> r <= k
    {
      minChunkId
    }
  }
}
