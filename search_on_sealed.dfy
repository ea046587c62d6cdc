/**
 * Search over one sealed (immutable) segment: the assembly of the exclusion
 * mask handed to the vector index, and the precondition gate, parameter
 * overlay and result-buffer fill around the index's query call
 * (internal/core/src/query/SearchOnSealed.cpp).
 */
module Query {
  import opened Wrappers

  // ---------------------------------------------------------------------------
  // Exclusion-mask assembly (AssembleNegBitset)
  // ---------------------------------------------------------------------------

  /** One chunk of a segment's inclusion bitset: its length in bits and the raw bytes backing it. */
  datatype Bitset = Bitset(size: nat, bytes: seq<bv8>)

  /** The failures a sealed search reports (each is an assertion failure in the engine). */
  datatype SearchError =
    | BitsetContractError       // a chunk of a multi-chunk bitset is not a whole number of bytes
    | ReadinessError            // the field has no index ready for queries
    | MetricMismatchError       // the field index's metric differs from the requested one
    | ParameterValidationError  // the index adapter rejects the effective parameters

  /** Division rounding up (`upper_div`). */
  function UpperDiv(n: nat, d: nat): nat
    requires d > 0
  {
    (n + d - 1) / d
  }

  /** `n` rounded up to the next multiple of `a` (`upper_align`). */
  function UpperAlign(n: nat, a: nat): nat
    requires a > 0
  {
    UpperDiv(n, a) * a
  }

  /** The sum of the chunks' bit lengths (`N`). */
  function TotalBits(cs: seq<Bitset>): nat
  {
    if cs == [] then 0 else TotalBits(cs[..|cs| - 1]) + cs[|cs| - 1].size
  }

  /** The number of whole bytes the multi-chunk path copies: the sum of `size / 8`. */
  function ByteCount(cs: seq<Bitset>): (r: nat)
    ensures 8 * r <= TotalBits(cs)
  {
    if cs == [] then 0 else ByteCount(cs[..|cs| - 1]) + cs[|cs| - 1].size / 8
  }

  /** A chunk's backing storage holds at least its bits rounded up to whole bytes. */
  predicate WellFormed(b: Bitset)
  {
    UpperDiv(b.size, 8) <= |b.bytes|
  }

  predicate AllWellFormed(cs: seq<Bitset>)
  {
    forall k :: 0 <= k < |cs| ==> WellFormed(cs[k])
  }

  /** A chunk whose bit length is a multiple of 8. */
  predicate WholeBytes(b: Bitset)
  {
    b.size % 8 == 0
  }

  predicate ByteAligned(cs: seq<Bitset>)
  {
    forall k :: 0 <= k < |cs| ==> WholeBytes(cs[k])
  }

  /** The assembler succeeds on a single chunk, or on chunks that are all whole bytes. */
  predicate Assemblable(cs: seq<Bitset>)
  {
    |cs| == 1 || ByteAligned(cs)
  }

  /** The bytes of all chunks, each cut to `size / 8`, in chunk order. */
  function ConcatBytes(cs: seq<Bitset>): (r: seq<bv8>)
    requires AllWellFormed(cs)
    ensures |r| == ByteCount(cs)
  {
    if cs == [] then []
    else
      var last := cs[|cs| - 1];
      ConcatBytes(cs[..|cs| - 1]) + last.bytes[..last.size / 8]
  }

  /** The byte length of the assembled buffer: N bits in whole bytes, padded to 64 bytes. */
  function BufferLength(cs: seq<Bitset>): nat
  {
    UpperAlign(UpperDiv(TotalBits(cs), 8), 64)
  }

  /** The bytes copied into the front of the buffer before it is complemented. */
  function Copied(cs: seq<Bitset>): (r: seq<bv8>)
    requires AllWellFormed(cs)
    ensures |r| <= BufferLength(cs)
  {
    if |cs| == 1 then
      assert cs[..0] == [];
      cs[0].bytes[..UpperDiv(cs[0].size, 8)]
    else
      ConcatBytes(cs)
  }

  function Zeros(n: nat): (r: seq<bv8>)
    ensures |r| == n && forall i :: 0 <= i < n ==> r[i] == 0
  {
    seq(n, _ => 0)
  }

  /** Bytewise complement. */
  function Complement(s: seq<bv8>): (r: seq<bv8>)
    ensures |r| == |s| && forall i :: 0 <= i < |s| ==> r[i] == !s[i]
  {
    seq(|s|, i requires 0 <= i < |s| => !s[i])
  }

  /** The zero-initialised buffer after the copy and before the complement. */
  function Assembled(cs: seq<Bitset>): seq<bv8>
    requires AllWellFormed(cs)
  {
    Copied(cs) + Zeros(BufferLength(cs) - |Copied(cs)|)
  }

  /** The exclusion mask AssembleNegBitset returns. */
  function NegAssembled(cs: seq<Bitset>): seq<bv8>
    requires AllWellFormed(cs)
  {
    Complement(Assembled(cs))
  }

  lemma PrefixWellFormed(cs: seq<Bitset>, k: nat)
    requires AllWellFormed(cs) && k <= |cs|
    ensures AllWellFormed(cs[..k])
  {
  }

  lemma {:induction false} TotalBitsPrefix(cs: seq<Bitset>, k: nat)
    requires k <= |cs|
    ensures TotalBits(cs[..k]) <= TotalBits(cs)
    decreases |cs|
  {
    if k < |cs| {
      var init := cs[..|cs| - 1];
      assert init[..k] == cs[..k];
      TotalBitsPrefix(init, k);
    } else {
      assert cs[..k] == cs;
    }
  }

  /** Chunk k's bytes start at offset ByteCount(cs[..k]) of the concatenation. */
  lemma {:induction false} ConcatBytesAt(cs: seq<Bitset>, k: nat, j: nat)
    requires AllWellFormed(cs)
    requires k < |cs| && j < cs[k].size / 8
    ensures ByteCount(cs[..k]) + j < |ConcatBytes(cs)|
    ensures ConcatBytes(cs)[ByteCount(cs[..k]) + j] == cs[k].bytes[j]
    decreases |cs|
  {
    var init := cs[..|cs| - 1];
    if k == |cs| - 1 {
      assert cs[..k] == init;
    } else {
      assert init[..k] == cs[..k];
      ConcatBytesAt(init, k, j);
    }
  }

  /** Copying b right after a into a zero-filled buffer that begins with a. */
  lemma CopyIntoZeros(a: seq<bv8>, b: seq<bv8>, len: nat)
    requires |a| + |b| <= len
    ensures var buf := a + Zeros(len - |a|);
      buf[..|a|] + b + buf[|a| + |b|..] == a + b + Zeros(len - |a| - |b|)
  {
    var buf := a + Zeros(len - |a|);
    assert buf[..|a|] == a;
    assert buf[|a| + |b|..] == Zeros(len - |a| - |b|);
  }

  /** `memcpy(dst + offset, src, count)`: the bytes outside the target range are kept. */
  method Memcpy(dst: array<bv8>, offset: nat, src: seq<bv8>, count: nat)
    requires count <= |src| && offset + count <= dst.Length
    modifies dst
    ensures dst[..] == old(dst[..])[..offset] + src[..count] + old(dst[..])[offset + count..]
  {
    ghost var before := dst[..];
    for j := 0 to count
      invariant dst[..] == before[..offset] + src[..j] + before[offset + j..]
    {
      dst[offset + j] := src[j];
      assert src[..j + 1] == src[..j] + [src[j]];
    }
  }

  /** Complements every byte of the buffer in place. */
  method ComplementInPlace(buf: array<bv8>)
    modifies buf
    ensures buf[..] == Complement(old(buf[..]))
  {
    for i := 0 to buf.Length
      invariant forall p :: 0 <= p < i ==> buf[p] == !old(buf[p])
      invariant forall p :: i <= p < buf.Length ==> buf[p] == old(buf[p])
    {
      buf[i] := !buf[i];
    }
  }

  /** The running sum of the chunks' bit lengths. */
  method SumBits(cs: seq<Bitset>) returns (n: nat)
    ensures n == TotalBits(cs)
  {
    n := 0;
    for k := 0 to |cs|
      invariant n == TotalBits(cs[..k])
    {
      assert cs[..k + 1][..k] == cs[..k];
      n := n + cs[k].size;
    }
    assert cs[..|cs|] == cs;
  }

  /** The copied prefix grows by chunk k's whole bytes. */
  lemma ConcatBytesStep(cs: seq<Bitset>, k: nat)
    requires AllWellFormed(cs) && k < |cs|
    ensures AllWellFormed(cs[..k]) && AllWellFormed(cs[..k + 1])
    ensures ByteCount(cs[..k + 1]) == ByteCount(cs[..k]) + cs[k].size / 8
    ensures ConcatBytes(cs[..k + 1]) == ConcatBytes(cs[..k]) + cs[k].bytes[..cs[k].size / 8]
  {
    var p := cs[..k + 1];
    assert p[..k] == cs[..k];
    PrefixWellFormed(cs, k);
    PrefixWellFormed(cs, k + 1);
  }

  /** One iteration of the multi-chunk copy: chunk k's whole bytes go to offset `acc`. */
  method AppendChunk(buf: array<bv8>, cs: seq<Bitset>, k: nat, acc: nat) returns (next: nat)
    requires AllWellFormed(cs) && k < |cs| && 8 * buf.Length >= TotalBits(cs)
    requires acc == ByteCount(cs[..k]) <= buf.Length && AllWellFormed(cs[..k])
    requires buf[..] == ConcatBytes(cs[..k]) + Zeros(buf.Length - acc)
    modifies buf
    ensures AllWellFormed(cs[..k + 1])
    ensures next == ByteCount(cs[..k + 1]) <= buf.Length
    ensures buf[..] == ConcatBytes(cs[..k + 1]) + Zeros(buf.Length - next)
  {
    var byteCount := cs[k].size / 8;
    ConcatBytesStep(cs, k);
    TotalBitsPrefix(cs, k + 1);
    CopyIntoZeros(ConcatBytes(cs[..k]), cs[k].bytes[..byteCount], buf.Length);
    Memcpy(buf, acc, cs[k].bytes, byteCount);
    next := acc + byteCount;
  }

  /**
   * The multi-chunk copy: each chunk's `size / 8` bytes go to the running byte
   * offset, in chunk order; a chunk that is not a whole number of bytes stops
   * the copy with a failure.
   */
  method CopyChunks(buf: array<bv8>, cs: seq<Bitset>) returns (ok: bool)
    requires AllWellFormed(cs)
    requires buf[..] == Zeros(buf.Length) && 8 * buf.Length >= TotalBits(cs)
    modifies buf
    ensures ok <==> ByteAligned(cs)
    ensures ok ==> buf[..] == ConcatBytes(cs) + Zeros(buf.Length - ByteCount(cs))
  {
    var len := buf.Length;
    var acc: nat := 0;
    for k := 0 to |cs|
      invariant forall i :: 0 <= i < k ==> WholeBytes(cs[i])
      invariant AllWellFormed(cs[..k])
      invariant acc == ByteCount(cs[..k]) && acc <= len
      invariant buf[..] == ConcatBytes(cs[..k]) + Zeros(len - acc)
    {
      if !WholeBytes(cs[k]) {
        return false;
      }
      acc := AppendChunk(buf, cs, k, acc);
    }
    assert cs[..|cs|] == cs;
    ok := true;
  }

  /**
   * Concatenates the chunks of a segment's inclusion bitset into one byte
   * buffer of BufferLength bytes and complements every byte of it. A single
   * chunk is copied with its last partial byte; with several chunks each must
   * be a whole number of bytes, or the assembly fails.
   */
  method AssembleNegBitset(cs: seq<Bitset>) returns (r: Result<seq<bv8>, SearchError>)
    requires AllWellFormed(cs)
    ensures r.Success? <==> Assemblable(cs)
    ensures r.Success? ==> r.value == NegAssembled(cs)
    ensures r.Failure? ==> r.error == BitsetContractError
  {
    var n := SumBits(cs);
    var len := UpperAlign(UpperDiv(n, 8), 64);
    var buf := new bv8[len](_ => 0);
    assert buf[..] == Zeros(len);
    if |cs| == 1 {
      assert cs[..0] == [];
      var byteCount := UpperDiv(cs[0].size, 8);
      Memcpy(buf, 0, cs[0].bytes, byteCount);
    } else {
      var ok := CopyChunks(buf, cs);
      if !ok {
        return Failure(BitsetContractError);
      }
    }
    assert buf[..] == Assembled(cs);
    ComplementInPlace(buf);
    r := Success(buf[..]);
  }

  lemma MultipleOf64(q: nat)
    ensures (q * 64) % 64 == 0
  {
  }

  /** The mask is N bits in whole bytes, padded to a multiple of 64 bytes. */
  lemma NegAssembledLength(cs: seq<Bitset>)
    requires AllWellFormed(cs)
    ensures |NegAssembled(cs)| == UpperAlign(UpperDiv(TotalBits(cs), 8), 64)
    ensures |NegAssembled(cs)| % 64 == 0
    ensures 8 * |NegAssembled(cs)| >= TotalBits(cs)
    ensures |NegAssembled(cs)| < UpperDiv(TotalBits(cs), 8) + 64
  {
    var bytes := UpperDiv(TotalBits(cs), 8);
    var q := UpperDiv(bytes, 64);
    assert |NegAssembled(cs)| == q * 64;
    MultipleOf64(q);
    assert 8 * bytes >= TotalBits(cs);
  }

  /** Single-chunk fast path: the first ceil(size/8) bytes are the complemented chunk bytes. */
  lemma NegAssembledSingleChunk(b: Bitset, j: nat)
    requires WellFormed(b)
    requires j < UpperDiv(b.size, 8)
    ensures j < |NegAssembled([b])| && NegAssembled([b])[j] == !b.bytes[j]
  {
  }

  /** Multi-chunk path: byte j of chunk k lands, complemented, at offset sum_{i<k} size_i/8 + j. */
  lemma NegAssembledMultiChunk(cs: seq<Bitset>, k: nat, j: nat)
    requires AllWellFormed(cs) && |cs| != 1
    requires k < |cs| && j < cs[k].size / 8
    ensures ByteCount(cs[..k]) + j < |NegAssembled(cs)|
    ensures NegAssembled(cs)[ByteCount(cs[..k]) + j] == !cs[k].bytes[j]
  {
    ConcatBytesAt(cs, k, j);
  }

  /** Every byte beyond the copied region was zero and ends as 0xFF. */
  lemma NegAssembledPadding(cs: seq<Bitset>, i: nat)
    requires AllWellFormed(cs)
    requires |Copied(cs)| <= i < |NegAssembled(cs)|
    ensures NegAssembled(cs)[i] == 0xFF
  {
  }

  /** Complementing the mask again gives back the chunks' bytes in order, followed by zero padding. */
  lemma NegAssembledRoundTrip(cs: seq<Bitset>)
    requires AllWellFormed(cs) && |cs| != 1
    ensures Complement(NegAssembled(cs)) == ConcatBytes(cs) + Zeros(BufferLength(cs) - ByteCount(cs))
  {
    var a := Assembled(cs);
    assert Complement(Complement(a)) == a;
  }

  /** Two chunks of 16 and 8 bits, 0xF0 0x0F and 0xAA, give the mask 0x0F 0xF0 0x55 padded with 0xFF to 64 bytes. */
  lemma TwoChunkExample()
    ensures var cs := [Bitset(16, [0xF0, 0x0F]), Bitset(8, [0xAA])];
      AllWellFormed(cs) &&
      NegAssembled(cs) == [0x0F, 0xF0, 0x55] + seq(61, _ => 0xFF)
  {
    var cs := [Bitset(16, [0xF0, 0x0F]), Bitset(8, [0xAA])];
    assert cs[..1] == [cs[0]];
    assert ConcatBytes(cs) == [0xF0, 0x0F, 0xAA];
    assert BufferLength(cs) == 64;
  }

  // ---------------------------------------------------------------------------
  // Sealed-segment search (SearchOnSealed)
  // ---------------------------------------------------------------------------

  type FieldOffset = int

  datatype MetricType = L2 | IP | Jaccard | Tanimoto | Hamming | Substructure | Superstructure

  datatype IndexMode = ModeCpu | ModeGpu

  /** A value of the JSON search configuration. */
  datatype ConfValue = IntValue(i: int) | StringValue(s: string) | OtherValue(json: string)

  type Conf = map<string, ConfValue>

  /** Configuration keys the invoker forces (`knowhere::meta::TOPK`, `knowhere::Metric::TYPE`). */
  const TopKKey: string := "k"
  const MetricTypeKey: string := "metric_type"

  /** Schema metadata of a vector field. */
  datatype FieldMeta = FieldMeta(dim: nat)

  /** The loaded index of a field: its metric, declared index type and operating mode. */
  datatype FieldIndexing = FieldIndexing(metricType: MetricType, indexType: string, indexMode: IndexMode)

  datatype SearchInfo = SearchInfo(
    fieldOffset: FieldOffset,
    topk: nat,
    roundDecimal: int,
    metricType: MetricType,
    searchParams: Conf)

  /** The dataset handed to the index (`GenDataset`). */
  datatype Dataset = Dataset(rows: nat, dim: nat, tensor: seq<real>)

  /** What the index's query returns: ids and distances, row-major by query. */
  datatype QueryOutput = QueryOutput(ids: seq<int>, distances: seq<real>)

  /**
   * The index library as seen by the invoker: the metric-name resolver, the
   * parameter adapter's check for an index type, the index query, and the
   * floating-point rounding `round(x * 10^d) / 10^d`.
   */
  datatype Knowhere = Knowhere(
    metricTypeToName: MetricType -> string,
    checkSearch: (Conf, string, IndexMode) -> bool,
    query: (FieldIndexing, Dataset, Conf, seq<bv8>) -> QueryOutput,
    roundDistance: (real, int) -> real)

  /** The sealed indexing record: a field is ready exactly when it has an entry. */
  type SealedIndexingRecord = map<FieldOffset, FieldIndexing>

  /** The caller's result buffer, overwritten by a successful search. */
  class SearchResult {
    var ids: seq<int>
    var distances: seq<real>
    var numQueries: nat
    var topk: nat

    constructor ()
      ensures ids == [] && distances == [] && numQueries == 0 && topk == 0
    {
      ids, distances, numQueries, topk := [], [], 0, 0;
    }
  }

  /** The caller's parameters with top-K and the field index's metric name forced. */
  function EffectiveConf(info: SearchInfo, indexing: FieldIndexing, knowhere: Knowhere): Conf
  {
    info.searchParams[TopKKey := IntValue(info.topk)]
                     [MetricTypeKey := StringValue(knowhere.metricTypeToName(indexing.metricType))]
  }

  /** The three checks, in order: readiness, metric equality, adapter acceptance. */
  function SearchGate(record: SealedIndexingRecord, info: SearchInfo, knowhere: Knowhere): Result<FieldIndexing, SearchError>
  {
    if info.fieldOffset !in record then Failure(ReadinessError)
    else
      var indexing := record[info.fieldOffset];
      if indexing.metricType != info.metricType then Failure(MetricMismatchError)
      else if !knowhere.checkSearch(EffectiveConf(info, indexing, knowhere), indexing.indexType, indexing.indexMode)
      then Failure(ParameterValidationError)
      else Success(indexing)
  }

  /** Distances after the rounding step; the sentinel -1 leaves them alone. */
  function RoundDistances(ds: seq<real>, roundDecimal: int, knowhere: Knowhere): seq<real>
  {
    if roundDecimal == -1 then ds
    else seq(|ds|, i requires 0 <= i < |ds| => knowhere.roundDistance(ds[i], roundDecimal))
  }

  /** What the index returns for a search that passed the gate. */
  function IndexAnswer(schema: seq<FieldMeta>, indexing: FieldIndexing, info: SearchInfo, queryData: seq<real>,
                       numQueries: nat, bitset: seq<bv8>, knowhere: Knowhere): QueryOutput
    requires 0 <= info.fieldOffset < |schema|
  {
    knowhere.query(indexing, Dataset(numQueries, schema[info.fieldOffset].dim, queryData),
                   EffectiveConf(info, indexing, knowhere), bitset)
  }

  /** The index returns at least `numQueries * topk` ids and distances whenever it is queried. */
  predicate AnswersInFull(schema: seq<FieldMeta>, record: SealedIndexingRecord, info: SearchInfo, queryData: seq<real>,
                          numQueries: nat, bitset: seq<bv8>, knowhere: Knowhere)
    requires 0 <= info.fieldOffset < |schema|
  {
    SearchGate(record, info, knowhere).Success? ==>
      var out := IndexAnswer(schema, SearchGate(record, info, knowhere).value, info, queryData, numQueries, bitset, knowhere);
      |out.ids| >= numQueries * info.topk && |out.distances| >= numQueries * info.topk
  }

  /**
   * Searches one field's sealed index. Fails, leaving `result` untouched and
   * without querying the index, when the field is not ready, when the metric
   * differs, or when the adapter rejects the effective parameters. Otherwise
   * `result` holds the first `numQueries * topk` ids and (rounded) distances.
   */
  method SearchOnSealed(schema: seq<FieldMeta>, record: SealedIndexingRecord, info: SearchInfo, queryData: seq<real>,
                        numQueries: nat, bitset: seq<bv8>, result: SearchResult, knowhere: Knowhere)
    returns (err: Option<SearchError>)
    requires 0 <= info.fieldOffset < |schema|
    requires AnswersInFull(schema, record, info, queryData, numQueries, bitset, knowhere)
    modifies result
    ensures SearchGate(record, info, knowhere).Failure? ==>
      err == Some(SearchGate(record, info, knowhere).error) && unchanged(result)
    ensures SearchGate(record, info, knowhere).Success? ==>
      var out := IndexAnswer(schema, SearchGate(record, info, knowhere).value, info, queryData, numQueries, bitset, knowhere);
      var total := numQueries * info.topk;
      && err == None
      && result.ids == out.ids[..total]
      && result.distances == RoundDistances(out.distances[..total], info.roundDecimal, knowhere)
      && result.numQueries == numQueries
      && result.topk == info.topk
  {
    var topk := info.topk;
    var roundDecimal := info.roundDecimal;
    var dim := schema[info.fieldOffset].dim;
    if info.fieldOffset !in record {
      return Some(ReadinessError);
    }
    var indexing := record[info.fieldOffset];
    if indexing.metricType != info.metricType {
      return Some(MetricMismatchError);
    }
    var ds := Dataset(numQueries, dim, queryData);
    var conf := info.searchParams;
    conf := conf[TopKKey := IntValue(topk)];
    conf := conf[MetricTypeKey := StringValue(knowhere.metricTypeToName(indexing.metricType))];
    if !knowhere.checkSearch(conf, indexing.indexType, indexing.indexMode) {
      return Some(ParameterValidationError);
    }
    var out := knowhere.query(indexing, ds, conf, bitset);
    var total := numQueries * topk;
    var distances := new real[total](i requires 0 <= i < total => out.distances[i]);
    if roundDecimal != -1 {
      for i := 0 to total
        invariant forall p :: 0 <= p < i ==> distances[p] == knowhere.roundDistance(out.distances[p], roundDecimal)
        invariant forall p :: i <= p < total ==> distances[p] == out.distances[p]
      {
        distances[i] := knowhere.roundDistance(distances[i], roundDecimal);
      }
    }
    result.ids := out.ids[..total];
    result.distances := distances[..];
    result.numQueries := numQueries;
    result.topk := topk;
    err := None;
  }

  /** An unready field fails with a readiness error, whatever else holds. */
  lemma ReadinessCheckedFirst(record: SealedIndexingRecord, info: SearchInfo, knowhere: Knowhere)
    requires info.fieldOffset !in record
    ensures SearchGate(record, info, knowhere) == Failure(ReadinessError)
  {
  }

  /** A ready field whose metric differs fails with a metric mismatch, whatever the adapter says. */
  lemma MetricCheckedSecond(record: SealedIndexingRecord, info: SearchInfo, knowhere: Knowhere)
    requires info.fieldOffset in record && record[info.fieldOffset].metricType != info.metricType
    ensures SearchGate(record, info, knowhere) == Failure(MetricMismatchError)
  {
  }

  /** The gate passes exactly when the field is ready, the metric matches and the adapter accepts. */
  lemma SearchGatePasses(record: SealedIndexingRecord, info: SearchInfo, knowhere: Knowhere)
    ensures SearchGate(record, info, knowhere).Success? <==>
      && info.fieldOffset in record
      && record[info.fieldOffset].metricType == info.metricType
      && knowhere.checkSearch(EffectiveConf(info, record[info.fieldOffset], knowhere),
                              record[info.fieldOffset].indexType, record[info.fieldOffset].indexMode)
    ensures SearchGate(record, info, knowhere).Success? ==>
      SearchGate(record, info, knowhere).value == record[info.fieldOffset]
  {
  }

  /** The effective configuration overrides top-K and the metric name and keeps every other key. */
  lemma EffectiveConfOverlay(info: SearchInfo, indexing: FieldIndexing, knowhere: Knowhere)
    ensures var conf := EffectiveConf(info, indexing, knowhere);
      && conf.Keys == info.searchParams.Keys + {TopKKey, MetricTypeKey}
      && conf[TopKKey] == IntValue(info.topk)
      && conf[MetricTypeKey] == StringValue(knowhere.metricTypeToName(indexing.metricType))
      && forall key :: key in info.searchParams && key != TopKKey && key != MetricTypeKey ==>
           conf[key] == info.searchParams[key]
  {
  }

  /** With the sentinel -1 the distances are unchanged; otherwise each is rounded in place. */
  lemma RoundDistancesSentinel(ds: seq<real>, roundDecimal: int, knowhere: Knowhere)
    ensures |RoundDistances(ds, roundDecimal, knowhere)| == |ds|
    ensures roundDecimal == -1 ==> RoundDistances(ds, roundDecimal, knowhere) == ds
    ensures roundDecimal != -1 ==> forall i :: 0 <= i < |ds| ==>
      RoundDistances(ds, roundDecimal, knowhere)[i] == knowhere.roundDistance(ds[i], roundDecimal)
  {
  }
}
