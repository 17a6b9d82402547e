/**
 * The order-hash-block index of data-availability replay: the
 * `tx_order:tx_hash:block_number` text record, the in-memory index loaded
 * from a file of such records, its range slice, and the binary search for the
 * last transaction the local execution store has executed.
 *
 * The H256 text form and the transaction store are foreign and appear as
 * function values (`HashText`, `TxOrderHashBlockGetter.store`).
 */
module TxOrderIndex {
  import opened Wrappers
  import opened Text

  const ZERO_HASH: seq<bv8> :=
    [0, 0, 0, 0, 0, 0, 0, 0, 0, 0, 0, 0, 0, 0, 0, 0,
     0, 0, 0, 0, 0, 0, 0, 0, 0, 0, 0, 0, 0, 0, 0, 0]

  /** A 256-bit digest as its 32 bytes. */
  type H256 = h: seq<bv8> | |h| == 32 witness ZERO_HASH

  /** The foreign text form of a hash: `{:?}` formatting and `H256::from_str`. */
  datatype HashText = HashText(format: H256 -> string, parse: string -> Option<H256>)

  /** The hash text parses back and never contains the field separator. */
  ghost predicate RoundTrips(ht: HashText)
  {
    forall h :: ht.parse(ht.format(h)) == Some(h) && ':' !in ht.format(h)
  }

  /** Opaque execution metadata kept by the transaction store. */
  type ExecutionInfo

  datatype Error =
    | InvalidFormat        // a record without exactly three `:`-separated fields
    | InvalidNumber        // a field that is not a `u64` / `u128`
    | InvalidHash          // a field that is not a hash text
    | StartNotFound        // `slice` was given a start order that is not in the index
    | Io                   // the index file cannot be opened or a line cannot be read
    | Store                // the transaction store failed
    | Panic                // the process aborts (integer overflow, slicing out of range)

  datatype TxOrderHashBlock = TxOrderHashBlock(txOrder: u64, txHash: H256, blockNumber: u128)

  // ---------------------------------------------------------------------------
  // Record text form
  // ---------------------------------------------------------------------------

  /** `Display`: `tx_order:tx_hash:block_number`. */
  function Display(b: TxOrderHashBlock, ht: HashText): string
  {
    Format(b.txOrder) + [':'] + ht.format(b.txHash) + [':'] + Format(b.blockNumber)
  }

  /** `FromStr`: exactly three `:`-separated fields, each of which must parse. */
  function FromStr(s: string, ht: HashText): Result<TxOrderHashBlock, Error>
  {
    var parts := Split(s, ':');
    if |parts| != 3 then Failure(InvalidFormat)
    else
      var order, hash, block := ParseUnsigned(parts[0], U64_LIMIT), ht.parse(parts[1]), ParseUnsigned(parts[2], U128_LIMIT);
      if order.None? then Failure(InvalidNumber)
      else if hash.None? then Failure(InvalidHash)
      else if block.None? then Failure(InvalidNumber)
      else Success(TxOrderHashBlock(order.value, hash.value, block.value))
  }

  /** A line parses only if it has exactly two separators; with any other count it is `InvalidFormat`. */
  lemma FromStrFieldCount(s: string, ht: HashText)
    ensures Count(s, ':') != 2 ==> FromStr(s, ht) == Failure(InvalidFormat)
    ensures FromStr(s, ht).Success? ==> Count(s, ':') == 2
  {
    SplitCount(s, ':');
  }

  /** Formatting a record and parsing it back gives the same record. */
  lemma DisplayFromStr(b: TxOrderHashBlock, ht: HashText)
    requires RoundTrips(ht)
    ensures FromStr(Display(b, ht), ht) == Success(b)
  {
    var order, hash, block := Format(b.txOrder), ht.format(b.txHash), Format(b.blockNumber);
    assert ':' !in order && ':' !in block by {
      assert forall i :: 0 <= i < |order| ==> IsDigit(order[i]);
      assert forall i :: 0 <= i < |block| ==> IsDigit(block[i]);
    }
    assert Display(b, ht) == order + [':'] + (hash + [':'] + block);
    SplitPrefix(order, ':', hash + [':'] + block);
    SplitPrefix(hash, ':', block);
    SplitWhole(block, ':');
    ParseFormat(b.txOrder, U64_LIMIT);
    ParseFormat(b.blockNumber, U128_LIMIT);
  }

  // ---------------------------------------------------------------------------
  // Loading the index
  // ---------------------------------------------------------------------------

  /** How one line becomes a record: `FromStr` with a hash text form. */
  type LineParser = string -> Result<TxOrderHashBlock, Error>

  /** The records of the index file's lines; the first unreadable or malformed line fails it all. */
  function ParseLines(lines: seq<Result<string, Error>>, parse: LineParser): Result<seq<TxOrderHashBlock>, Error>
  {
    if lines == [] then Success([])
    else ParseNextLine(ParseLines(lines[..|lines| - 1], parse), lines[|lines| - 1], parse)
  }

  /** One step of loading: keep an earlier failure, else read and parse the next line. */
  function ParseNextLine(loaded: Result<seq<TxOrderHashBlock>, Error>, next: Result<string, Error>, parse: LineParser)
    : Result<seq<TxOrderHashBlock>, Error>
  {
    if loaded.Failure? then loaded
    else if next.Failure? then Failure(next.error)
    else
      var item := parse(next.value);
      if item.Failure? then Failure(item.error) else Success(loaded.value + [item.value])
  }

  /** A line that is readable and parses. */
  predicate GoodLine(line: Result<string, Error>, parse: LineParser)
  {
    line.Success? && parse(line.value).Success?
  }

  /** Loading succeeds exactly when every line is good, and then yields one record per line, in order. */
  lemma {:induction false} ParseLinesAllOrNothing(lines: seq<Result<string, Error>>, parse: LineParser)
    ensures ParseLines(lines, parse).Success? <==> forall i :: 0 <= i < |lines| ==> GoodLine(lines[i], parse)
  {
    if lines != [] {
      var n := |lines| - 1;
      var init := lines[..n];
      ParseLinesAllOrNothing(init, parse);
      var prev := ParseLines(init, parse);
      assert ParseLines(lines, parse) == ParseNextLine(prev, lines[n], parse);
      assert forall i :: 0 <= i < n ==> lines[i] == init[i];
      if prev.Failure? {
        var i :| 0 <= i < n && !GoodLine(init[i], parse);
        assert !GoodLine(lines[i], parse);
      }
    }
  }

  /** A successful step had a successful load before it and a good next line. */
  lemma ParseNextLineSuccess(loaded: Result<seq<TxOrderHashBlock>, Error>, next: Result<string, Error>, parse: LineParser)
    requires ParseNextLine(loaded, next, parse).Success?
    ensures loaded.Success? && next.Success? && parse(next.value).Success?
    ensures ParseNextLine(loaded, next, parse).value == loaded.value + [parse(next.value).value]
  {
  }

  /** A successful load yields one record per line, in order. */
  lemma {:induction false} ParseLinesRecords(lines: seq<Result<string, Error>>, parse: LineParser)
    requires ParseLines(lines, parse).Success?
    ensures var blocks := ParseLines(lines, parse).value;
      |blocks| == |lines| && forall i :: 0 <= i < |lines| ==> lines[i].Success? && parse(lines[i].value) == Success(blocks[i])
  {
    if lines != [] {
      var n := |lines| - 1;
      var init := lines[..n];
      var prev := ParseLines(init, parse);
      ParseNextLineSuccess(prev, lines[n], parse);
      ParseLinesRecords(init, parse);
      var blocks := ParseLines(lines, parse).value;
      forall i | 0 <= i < n ensures lines[i].Success? && parse(lines[i].value) == Success(blocks[i]) {
        assert lines[i] == init[i] && blocks[i] == prev.value[i];
      }
    }
  }

  lemma {:induction false} ParseLinesPrefixFailure(lines: seq<Result<string, Error>>, parse: LineParser, j: nat)
    requires j <= |lines|
    requires ParseLines(lines[..j], parse).Failure?
    ensures ParseLines(lines, parse) == ParseLines(lines[..j], parse)
    decreases |lines| - j
  {
    if j == |lines| {
      assert lines[..j] == lines;
    } else {
      var init := lines[..|lines| - 1];
      assert init[..j] == lines[..j];
      ParseLinesPrefixFailure(init, parse, j);
    }
  }

  lemma ParseLinesStep(lines: seq<Result<string, Error>>, parse: LineParser, i: nat)
    requires i < |lines|
    ensures ParseLines(lines[..i + 1], parse) == ParseNextLine(ParseLines(lines[..i], parse), lines[i], parse)
  {
    assert lines[..i + 1][..i] == lines[..i];
  }

  // ---------------------------------------------------------------------------
  // Searching by order
  // ---------------------------------------------------------------------------

  /** The records are in non-decreasing `tx_order`. */
  ghost predicate Sorted(blocks: seq<TxOrderHashBlock>)
  {
    forall i, j :: 0 <= i < j < |blocks| ==> blocks[i].txOrder <= blocks[j].txOrder
  }

  /** Each record's order is one more than the previous one's. */
  ghost predicate Contiguous(blocks: seq<TxOrderHashBlock>)
  {
    forall j :: 0 <= j < |blocks| ==> blocks[j].txOrder == blocks[0].txOrder + j
  }

  /**
   * `binary_search_by(|x| x.tx_order.cmp(&order))` on `blocks[lo..hi]`: a
   * found index always holds `order`; on a sorted index "not found" means
   * absent. Which of several equal records is found is not specified.
   */
  function SearchOrder(blocks: seq<TxOrderHashBlock>, order: u64, lo: nat, hi: nat): (r: Option<nat>)
    requires lo <= hi <= |blocks|
    ensures r.Some? ==> lo <= r.value < hi && blocks[r.value].txOrder == order
    ensures r.None? && Sorted(blocks) ==> forall j :: lo <= j < hi ==> blocks[j].txOrder != order
    decreases hi - lo
  {
    if lo == hi then None
    else
      var mid := lo + (hi - lo) / 2;
      if blocks[mid].txOrder < order then SearchOrder(blocks, order, mid + 1, hi)
      else if blocks[mid].txOrder > order then SearchOrder(blocks, order, lo, mid)
      else Some(mid)
  }

  /** 2 to the power `k`. */
  function Pow2(k: nat): (p: nat)
    ensures p >= 1
  {
    if k == 0 then 1 else 2 * Pow2(k - 1)
  }

  /** Halving the search width while doubling the weight never increases their product. */
  lemma HalvingStep(w: nat, w': nat, k: nat)
    requires 2 * w' <= w
    ensures w' * Pow2(k + 1) <= w * Pow2(k)
  {
    var p := Pow2(k);
    assert w' * Pow2(k + 1) == (2 * w') * p;
    assert (w - 2 * w') * p >= 0;
  }

  /** Narrowing `[left, right]` to at most half keeps the weighted width within `n`. */
  lemma NarrowStep(left: nat, right: nat, left': nat, right': nat, k: nat, n: nat)
    requires left < right && left' <= right' && 2 * (right' - left') <= right - left
    requires (right - left) * Pow2(k) <= n
    ensures (right' - left') * Pow2(k + 1) <= n && Pow2(k) <= n
  {
    HalvingStep(right - left, right' - left', k);
    WeightBound(right - left, k, n);
  }

  lemma WeightBound(w: nat, k: nat, n: nat)
    requires 1 <= w && w * Pow2(k) <= n
    ensures Pow2(k) <= n
  {
  }

  // ---------------------------------------------------------------------------
  // The index
  // ---------------------------------------------------------------------------

  /** `TxOrderHashBlockGetter`: the loaded records and the transaction store they are checked against. */
  datatype TxOrderHashBlockGetter = TxOrderHashBlockGetter(
    blocks: seq<TxOrderHashBlock>,
    store: H256 -> Result<Option<ExecutionInfo>, Error>)   // get_tx_execution_info
  {
    /** `load_from_file`: one record per line; the first failure aborts the load. */
    static method LoadFromFile(
      file: Result<seq<Result<string, Error>>, Error>,
      ht: HashText,
      store: H256 -> Result<Option<ExecutionInfo>, Error>)
      returns (r: Result<TxOrderHashBlockGetter, Error>)
      ensures file.Failure? ==> r.Failure? && r.error == file.error
      ensures file.Success? ==>
        match ParseLines(file.value, s => FromStr(s, ht))
        case Failure(e) => r.Failure? && r.error == e
        case Success(blocks) => r.Success? && r.value.blocks == blocks && r.value.store == store
    {
      if file.Failure? {
        return Failure(file.error);
      }
      var lines := file.value;
      ghost var parse := s => FromStr(s, ht);
      var records: seq<TxOrderHashBlock> := [];
      for i := 0 to |lines|
        invariant ParseLines(lines[..i], parse) == Success(records)
      {
        ParseLinesStep(lines, parse, i);
        var line := lines[i];
        if line.Failure? {
          ParseLinesPrefixFailure(lines, parse, i + 1);
          return Failure(line.error);
        }
        var item := FromStr(line.value, ht);
        if item.Failure? {
          ParseLinesPrefixFailure(lines, parse, i + 1);
          return Failure(item.error);
        }
        records := records + [item.value];
      }
      assert lines[..|lines|] == lines;
      return Success(TxOrderHashBlockGetter(records, store));
    }

    /** `has_executed`: the store holds execution info for the hash; store errors propagate. */
    function HasExecuted(h: H256): (r: Result<bool, Error>)
      ensures r.Failure? <==> store(h).Failure?
      ensures r.Failure? ==> r.error == store(h).error
      ensures r.Success? ==> (r.value <==> store(h).value.Some?)
    {
      match store(h)
      case Failure(e) => Failure(e)
      case Success(info) => Success(info.Some?)
    }

    /**
     * `slice`: find `start` by binary search, then take the records from there
     * to `end - start` places further, inclusive. An absent start is an error;
     * `end < start` overflows and a range past the end is out of bounds, and
     * both abort.
     */
    function Slice(start: u64, end: u64): (r: Result<seq<TxOrderHashBlock>, Error>)
      ensures r == Failure(StartNotFound) && Sorted(blocks) ==> forall j :: 0 <= j < |blocks| ==> blocks[j].txOrder != start
      ensures (forall j :: 0 <= j < |blocks| ==> blocks[j].txOrder != start) ==> r == Failure(StartNotFound)
      ensures r.Failure? ==> r.error == StartNotFound || r.error == Panic
      ensures r == Failure(Panic) ==>
        exists i :: 0 <= i < |blocks| && blocks[i].txOrder == start && (end < start || i + (end - start) >= |blocks|)
      ensures r.Success? ==>
        && start <= end
        && |r.value| == end - start + 1
        && exists i :: 0 <= i && i + (end - start) < |blocks| && blocks[i].txOrder == start && r.value == blocks[i..i + (end - start) + 1]
    {
      match SearchOrder(blocks, start, 0, |blocks|)
      case None => Failure(StartNotFound)
      case Some(startIdx) =>
        if end < start then Failure(Panic)
        else
          var endIdx := startIdx + (end - start);
          if endIdx + 1 > |blocks| then Failure(Panic)
          else Success(blocks[startIdx..endIdx + 1])
    }

    /** Executed exactly on the records before index `k`, with every store query answered. */
    ghost predicate ExecutedExactlyBelow(k: nat)
    {
      forall j :: 0 <= j < |blocks| ==> HasExecuted(blocks[j].txHash) == Success(j < k)
    }

    /** Record `j` is executed and the next one, if any, is not. */
    ghost predicate IsBoundary(j: nat)
      requires j < |blocks|
    {
      && HasExecuted(blocks[j].txHash) == Success(true)
      && (j + 1 == |blocks| || HasExecuted(blocks[j + 1].txHash) == Success(false))
    }

    /** Every store query is answered and execution is downward closed. */
    ghost predicate Monotone()
    {
      forall i, j :: 0 <= i <= j < |blocks| ==>
        && HasExecuted(blocks[j].txHash).Success?
        && (HasExecuted(blocks[j].txHash) == Success(true) ==> HasExecuted(blocks[i].txHash) == Success(true))
    }

    /** Under an exact executed prefix `[0, k)`, the only boundary is `k - 1`. */
    lemma BoundaryUnique(j: nat, k: nat)
      requires j < |blocks| && k <= |blocks|
      requires IsBoundary(j) && ExecutedExactlyBelow(k)
      ensures j == k - 1
    {
      assert HasExecuted(blocks[j].txHash) == Success(j < k);
      if j + 1 < |blocks| {
        assert HasExecuted(blocks[j + 1].txHash) == Success(j + 1 < k);
      }
    }

    lemma {:induction false} BoundaryFrom(i: nat)
      requires i <= |blocks| && Monotone()
      requires forall j :: 0 <= j < i ==> HasExecuted(blocks[j].txHash) == Success(true)
      ensures exists k :: i <= k <= |blocks| && ExecutedExactlyBelow(k)
      decreases |blocks| - i
    {
      if i == |blocks| {
        assert ExecutedExactlyBelow(i);
      } else if HasExecuted(blocks[i].txHash) == Success(true) {
        BoundaryFrom(i + 1);
      } else {
        forall j | i <= j < |blocks| ensures HasExecuted(blocks[j].txHash) == Success(false) {
          assert HasExecuted(blocks[j].txHash).Success?;
        }
        assert ExecutedExactlyBelow(i);
      }
    }

    /** A monotone store has an exact executed prefix. */
    lemma MonotoneHasBoundary()
      requires Monotone()
      ensures exists k :: 0 <= k <= |blocks| && ExecutedExactlyBelow(k)
    {
      BoundaryFrom(0);
    }

    /** A store error on any record rules out every exact executed prefix. */
    lemma FailureNoPrefix(j: nat)
      requires j < |blocks| && HasExecuted(blocks[j].txHash).Failure?
      ensures forall k :: 0 <= k <= |blocks| ==> !ExecutedExactlyBelow(k)
    {
    }

    /** The answer once the search has settled on `left`, whose record's executed flag is `executed`. */
    function Settle(left: nat, executed: bool): Option<TxOrderHashBlock>
      requires left < |blocks|
    {
      if left == 0 && !executed then None
      else if !executed then Some(blocks[left - 1])
      else Some(blocks[left])
    }

    /**
     * With the executed record before `left` and, unless `left` is the last
     * index, the unexecuted record at `left`, the settled answer is a boundary
     * record (or none when the first record is not executed), and it is record
     * `k - 1` under an exact executed prefix `[0, k)`.
     */
    lemma SettledOutcome(left: nat, executed: bool)
      requires left < |blocks|
      requires left > 0 ==> HasExecuted(blocks[left - 1].txHash) == Success(true)
      requires left < |blocks| - 1 ==> HasExecuted(blocks[left].txHash) == Success(false)
      requires HasExecuted(blocks[left].txHash) == Success(executed)
      ensures Settle(left, executed) == None ==> HasExecuted(blocks[0].txHash) == Success(false)
      ensures Settle(left, executed).Some? ==>
        exists j :: 0 <= j < |blocks| && Settle(left, executed).value == blocks[j] && IsBoundary(j)
      ensures forall k :: 0 <= k <= |blocks| && ExecutedExactlyBelow(k) ==>
        Settle(left, executed) == if k == 0 then None else Some(blocks[k - 1])
    {
      if left == 0 && !executed {
      } else if !executed {
        assert IsBoundary(left - 1);
        forall k | 0 <= k <= |blocks| && ExecutedExactlyBelow(k) ensures k == left {
          BoundaryUnique(left - 1, k);
        }
      } else {
        assert IsBoundary(left);
        forall k | 0 <= k <= |blocks| && ExecutedExactlyBelow(k) ensures k == left + 1 {
          BoundaryUnique(left, k);
        }
      }
    }

    /** Ask the store whether record `j` is executed, and log the query in `queried`. */
    method Query(j: nat, ghost queried: seq<nat>) returns (executed: Result<bool, Error>, ghost queried': seq<nat>)
      requires j < |blocks|
      ensures executed == HasExecuted(blocks[j].txHash)
      ensures queried' == queried + [j]
    {
      executed := HasExecuted(blocks[j].txHash);
      queried' := queried + [j];
    }

    /**
     * `find_last_executed`: a binary search for the boundary between executed
     * and unexecuted records. It returns an executed record whose successor is
     * not executed (or the last record), "none" when the first record is not
     * executed, and under an exact executed prefix `[0, k)` exactly record
     * `k - 1`. `queried` lists the indices it asks the store about: none for an
     * empty index, and logarithmically many otherwise.
     */
    method FindLastExecuted() returns (r: Result<Option<TxOrderHashBlock>, Error>, ghost queried: seq<nat>)
      ensures blocks == [] ==> r == Success(None) && queried == []
      ensures blocks != [] ==> 1 <= |queried| && Pow2(|queried| - 1) <= 2 * |blocks| - 1
      ensures forall q :: q in queried ==> q < |blocks|
      ensures r.Failure? ==> exists j :: 0 <= j < |blocks| && HasExecuted(blocks[j].txHash) == Failure(r.error)
      ensures r == Success(None) ==> blocks == [] || HasExecuted(blocks[0].txHash) == Success(false)
      ensures r.Success? && r.value.Some? ==>
        exists j :: 0 <= j < |blocks| && r.value.value == blocks[j] && IsBoundary(j)
      ensures forall k :: 0 <= k <= |blocks| && ExecutedExactlyBelow(k) ==>
        r == if k == 0 then Success(None) else Success(Some(blocks[k - 1]))
    {
      queried := [];
      if blocks == [] {
        return Success(None), queried;
      }
      var n := |blocks|;
      var left, right := 0, n - 1;
      while left < right
        invariant 0 <= left <= right < n
        invariant left > 0 ==> HasExecuted(blocks[left - 1].txHash) == Success(true)
        invariant right < n - 1 ==> HasExecuted(blocks[right].txHash) == Success(false)
        invariant forall q :: q in queried ==> q < n
        invariant (right - left) * Pow2(|queried|) <= n - 1
        invariant |queried| > 0 ==> Pow2(|queried| - 1) <= n - 1
        decreases right - left
      {
        WeightBound(right - left, |queried|, n - 1);
        var mid := (left + right) / 2;
        var executed;
        executed, queried := Query(mid, queried);
        if executed.Failure? {
          FailureNoPrefix(mid);
          return Failure(executed.error), queried;
        }
        if executed.value {
          NarrowStep(left, right, mid + 1, right, |queried| - 1, n - 1);
          left := mid + 1;
        } else {
          NarrowStep(left, right, left, mid, |queried| - 1, n - 1);
          right := mid;
        }
      }
      var lastExecuted;
      lastExecuted, queried := Query(left, queried);
      if lastExecuted.Failure? {
        FailureNoPrefix(left);
        return Failure(lastExecuted.error), queried;
      }
      SettledOutcome(left, lastExecuted.value);
      return Success(Settle(left, lastExecuted.value)), queried;
    }
  }

  lemma ContiguousSorted(blocks: seq<TxOrderHashBlock>)
    requires Contiguous(blocks)
    ensures Sorted(blocks)
  {
  }

  /** A successful slice of a contiguous index is in range and holds consecutive orders from `start`. */
  lemma SliceContiguousSuccess(g: TxOrderHashBlockGetter, start: u64, end: u64)
    requires g.blocks != [] && Contiguous(g.blocks) && g.Slice(start, end).Success?
    ensures g.blocks[0].txOrder <= start <= end < g.blocks[0].txOrder + |g.blocks|
    ensures forall j :: 0 <= j < |g.Slice(start, end).value| ==> g.Slice(start, end).value[j].txOrder == start + j
  {
    var blocks := g.blocks;
    var first := blocks[0].txOrder;
    var r := g.Slice(start, end);
    var i :| 0 <= i && i + (end - start) < |blocks| && blocks[i].txOrder == start && r.value == blocks[i..i + (end - start) + 1];
    assert blocks[i].txOrder == first + i;
    forall j | 0 <= j < |r.value| ensures r.value[j].txOrder == start + j {
      assert r.value[j] == blocks[i + j];
      assert blocks[i + j].txOrder == first + i + j;
    }
  }

  /** On a contiguous index every in-range slice succeeds. */
  lemma SliceContiguousInRange(g: TxOrderHashBlockGetter, start: u64, end: u64)
    requires g.blocks != [] && Contiguous(g.blocks)
    requires g.blocks[0].txOrder <= start <= end < g.blocks[0].txOrder + |g.blocks|
    ensures g.Slice(start, end).Success?
  {
    var blocks := g.blocks;
    var first := blocks[0].txOrder;
    ContiguousSorted(blocks);
    assert blocks[start - first].txOrder == start;
    forall i | 0 <= i < |blocks| && blocks[i].txOrder == start ensures i + (end - start) < |blocks| {
      assert blocks[i].txOrder == first + i;
    }
  }

  /**
   * On a contiguous index starting at order `first`, `slice(start, end)`
   * succeeds exactly when `first <= start <= end < first + len`, and then
   * returns the records with orders `start..=end`.
   */
  lemma SliceContiguous(g: TxOrderHashBlockGetter, start: u64, end: u64)
    requires g.blocks != [] && Contiguous(g.blocks)
    ensures var first := g.blocks[0].txOrder;
      g.Slice(start, end).Success? <==> first <= start <= end < first + |g.blocks|
    ensures g.Slice(start, end).Success? ==>
      forall j :: 0 <= j < |g.Slice(start, end).value| ==> g.Slice(start, end).value[j].txOrder == start + j
  {
    if g.Slice(start, end).Success? {
      SliceContiguousSuccess(g, start, end);
    }
    if g.blocks[0].txOrder <= start <= end < g.blocks[0].txOrder + |g.blocks| {
      SliceContiguousInRange(g, start, end);
    }
  }
}
