/**
 `embedTexts` of `packages/tekmemo-adapter-transformers/src/transformers-embedder.ts`,
 one call after the other.
 */
module TransformersEmbedder {
  import opened Arithmetic
  import opened Optional
  import opened Lists
  import opened StableSort
  import opened Batching

  // The pipeline returns one flat vector for a batch, which is sliced by a dimension
  // that the embedder infers once and keeps.

  type Vector = seq<real>

  /** `flat.length / texts.length`, which need not be whole. */
  datatype Dimension = Whole(d: nat) | Fraction(length: nat, count: nat)

  datatype Record = Record(text: string, embedding: Vector, index: int, dimensions: Dimension)

  datatype Error = PipelineFailed | NoDimension

  /** The n-th call of the pipeline with these texts; `None` when it fails or returns no vector. */
  type Pipeline = (nat, seq<string>) -> Option<Vector>

  function Infer(length: nat, count: nat): Dimension
    requires count > 0
  {
    if length % count == 0 then Whole(length / count) else Fraction(length, count)
  }

  predicate ValidDimension(dim: Dimension) {
    dim.Whole? && dim.d > 0
  }

  /** `flat.slice(i * dim, i * dim + dim)`; the bounds of a slice are cut to whole numbers. */
  function SliceAt(flat: Vector, i: nat, dim: Dimension): Vector {
    match dim
    case Whole(d) => Slice(flat, Times(i, d), Times(i, d) + d)
    case Fraction(length, count) =>
      if count == 0 then [] else Slice(flat, i * length / count, (i + 1) * length / count)
  }

  /** A size that is not positive makes one batch. */
  function Batches(texts: seq<string>, size: int): seq<seq<string>> {
    if size <= 0 then [texts] else Chunks(texts, size)
  }

  function BatchRecords(texts: seq<string>, flat: Vector, dim: Dimension, first: int, n: nat): seq<Record>
    requires n <= |texts|
  {
    seq(n, i requires 0 <= i < n => Record(texts[i], SliceAt(flat, i, dim), first + i, dim))
  }

  function RecordKey(r: Record): real { r.index as real }

  datatype Step = Step(inferred: Option<Dimension>, result: Result<seq<Record>, Error>)

  /** The batches from `k` on; the inferred dimension is kept even when it turns out bad. */
  function EmbedBatches(pipeline: Pipeline, size: int, batches: seq<seq<string>>, k: nat, inferred: Option<Dimension>, records: seq<Record>): Step
    requires k <= |batches| && forall j :: 0 <= j < |batches| ==> batches[j] != []
    decreases |batches| - k
  {
    if k == |batches| then Step(inferred, Ok(records))
    else
      match pipeline(k, batches[k])
      case None => Step(inferred, Err(PipelineFailed))
      case Some(flat) =>
        var dim := if inferred.Some? then inferred.value else Infer(|flat|, |batches[k]|);
        if inferred.None? && !ValidDimension(dim) then Step(Some(dim), Err(NoDimension))
        else EmbedBatches(pipeline, size, batches, k + 1, Some(dim),
                          records + BatchRecords(batches[k], flat, dim, k * size, |batches[k]|))
  }

  function Embedded(pipeline: Pipeline, texts: seq<string>, size: int, inferred: Option<Dimension>): Step {
    if texts == [] then Step(inferred, Ok([]))
    else
      var done := EmbedBatches(pipeline, size, Batches(texts, size), 0, inferred, []);
      Step(done.inferred, if done.result.Ok? then Ok(Sort(done.result.value, RecordKey)) else done.result)
  }

  class Embedder {
    const pipeline: Pipeline
    const batchSize: int
    var inferredDimensions: Option<Dimension>

    constructor (p: Pipeline, size: int)
      ensures pipeline == p && batchSize == size && inferredDimensions == None
    {
      pipeline, batchSize, inferredDimensions := p, size, None;
    }

    method MakeBatches(texts: seq<string>, size: int) returns (batches: seq<seq<string>>)
      ensures batches == Batches(texts, size)
    {
      if size <= 0 {
        return [texts];
      }
      var chunked := ChunkArray(texts, size);
      return chunked.value;
    }

    method EmbedTexts(texts: seq<string>, requested: Option<int>) returns (r: Result<seq<Record>, Error>)
      modifies this
      ensures Step(inferredDimensions, r)
           == Embedded(pipeline, texts, if requested.Some? then requested.value else batchSize, old(inferredDimensions))
    {
      hide Chunks, Sort, SliceAt;
      if |texts| == 0 {
        return Ok([]);
      }
      var size := if requested.Some? then requested.value else batchSize;
      var batches := MakeBatches(texts, size);
      var records: seq<Record> := [];
      for k := 0 to |batches|
        invariant EmbedBatches(pipeline, size, batches, 0, old(inferredDimensions), [])
               == EmbedBatches(pipeline, size, batches, k, inferredDimensions, records)
      {
        var batch := batches[k];
        var raw := pipeline(k, batch);
        if raw.None? {
          return Err(PipelineFailed);
        }
        var flat := raw.value;
        if inferredDimensions.None? {
          inferredDimensions := Some(Infer(|flat|, |batch|));
          if !ValidDimension(inferredDimensions.value) {
            return Err(NoDimension);
          }
        }
        var dim := inferredDimensions.value;
        ghost var before := records;
        for i := 0 to |batch|
          invariant records == before + BatchRecords(batch, flat, dim, k * size, i)
        {
          records := records + [Record(batch[i], SliceAt(flat, i, dim), k * size + i, dim)];
        }
      }
      return Ok(Sort(records, RecordKey));
    }
  }

  // --------------------------------------------------------------- positions

  /** The positions of the batches: the batch before `k` ends where batch `k` begins. */
  lemma BatchStart(texts: seq<string>, size: int, k: nat)
    requires k < |Batches(texts, size)| && texts != []
    ensures Before(Batches(texts, size), k) == k * size
    ensures Before(Batches(texts, size), k) + |Batches(texts, size)[k]| <= |texts|
    ensures forall i :: 0 <= i < |Batches(texts, size)[k]| ==> Batches(texts, size)[k][i] == texts[Before(Batches(texts, size), k) + i]
  {
    hide Chunks, Times;
    if size > 0 {
      var batches := Chunks(texts, size);
      BeforeIsTimes(texts, size, k);
      TimesIsProduct(k, size);
      ChunksFlatten(texts, size);
      BeforeAll(batches);
      BeforeGrows(batches, k, |batches|);
      InTexts(texts, size, k);
    }
  }

  lemma InTexts(texts: seq<string>, size: nat, k: nat)
    requires size > 0 && k < |Chunks(texts, size)|
    requires Before(Chunks(texts, size), k) + |Chunks(texts, size)[k]| <= |texts|
    ensures var batches := Chunks(texts, size);
            forall i :: 0 <= i < |batches[k]| ==> batches[k][i] == texts[Before(batches, k) + i]
  {
    hide Chunks, Before;
    var batches := Chunks(texts, size);
    ChunksFlatten(texts, size);
    forall i: nat | i < |batches[k]|
      ensures batches[k][i] == texts[Before(batches, k) + i]
    {
      FlattenAt(batches, k, i);
    }
  }

  lemma BatchesCover(texts: seq<string>, size: int)
    requires texts != []
    ensures var batches := Batches(texts, size); Before(batches, |batches|) == |texts|
    ensures Batches(texts, size) != [] && forall j :: 0 <= j < |Batches(texts, size)| ==> Batches(texts, size)[j] != []
  {
    hide Chunks;
    if size > 0 {
      ChunksFlatten(texts, size);
      BeforeAll(Chunks(texts, size));
    }
  }

  /** The records made so far are for the texts so far, each at the position of its text. */
  ghost predicate InOrder(texts: seq<string>, records: seq<Record>) {
    && |records| <= |texts|
    && forall i :: 0 <= i < |records| ==> records[i].text == texts[i] && records[i].index == i
  }

  lemma {:induction false} RecordsInOrder(pipeline: Pipeline, texts: seq<string>, size: int, k: nat, inferred: Option<Dimension>, records: seq<Record>)
    requires texts != [] && k <= |Batches(texts, size)|
    requires forall j :: 0 <= j < |Batches(texts, size)| ==> Batches(texts, size)[j] != []
    requires InOrder(texts, records) && |records| == Before(Batches(texts, size), k)
    ensures var r := EmbedBatches(pipeline, size, Batches(texts, size), k, inferred, records).result;
            r.Ok? ==> InOrder(texts, r.value) && |r.value| == |texts|
    decreases |Batches(texts, size)| - k
  {
    hide Batches, SliceAt;
    var batches := Batches(texts, size);
    if k == |batches| {
      BatchesCover(texts, size);
    } else if pipeline(k, batches[k]).Some? {
      var flat := pipeline(k, batches[k]).value;
      var dim := if inferred.Some? then inferred.value else Infer(|flat|, |batches[k]|);
      BatchStart(texts, size, k);
      RecordsInOrder(pipeline, texts, size, k + 1, Some(dim), records + BatchRecords(batches[k], flat, dim, k * size, |batches[k]|));
    }
  }

  /** Whatever the pipeline returns, the records are those of the texts in order, so the final sort changes nothing. */
  lemma FinalSortIdle(pipeline: Pipeline, texts: seq<string>, size: int, inferred: Option<Dimension>)
    requires texts != []
    ensures Batches(texts, size) != [] && forall j :: 0 <= j < |Batches(texts, size)| ==> Batches(texts, size)[j] != []
    ensures var r := EmbedBatches(pipeline, size, Batches(texts, size), 0, inferred, []).result;
            r.Ok? ==> Sort(r.value, RecordKey) == r.value && InOrder(texts, r.value) && |r.value| == |texts|
  {
    hide Batches, EmbedBatches;
    BatchesCover(texts, size);
    RecordsInOrder(pipeline, texts, size, 0, inferred, []);
    var r := EmbedBatches(pipeline, size, Batches(texts, size), 0, inferred, []).result;
    if r.Ok? { SortIdle(r.value, RecordKey); }
  }

  // --------------------------------------------------- a pointwise embedding

  function Concat(f: string -> Vector, texts: seq<string>): Vector {
    if texts == [] then [] else Concat(f, texts[..|texts| - 1]) + f(texts[|texts| - 1])
  }

  /** The pipeline returns the vectors of the texts, each of length `d`, one after the other. */
  ghost predicate Embeds(pipeline: Pipeline, f: string -> Vector, d: nat) {
    && (forall t :: |f(t)| == d)
    && forall n: nat, texts: seq<string> :: pipeline(n, texts) == Some(Concat(f, texts))
  }

  lemma {:induction false} ConcatLength(f: string -> Vector, texts: seq<string>, d: nat)
    requires forall t :: |f(t)| == d
    ensures |Concat(f, texts)| == Times(|texts|, d)
  {
    if texts != [] { ConcatLength(f, texts[..|texts| - 1], d); }
  }

  /** A slice of two parts that falls into the first of them, or is all of the second. */
  lemma SliceOfParts(a: Vector, b: Vector, start: nat, end: nat)
    requires start <= end <= |a + b|
    ensures end <= |a| ==> (a + b)[start..end] == a[start..end]
    ensures start == |a| && end == |a + b| ==> (a + b)[start..end] == b
  {
  }

  lemma WholeSlice(flat: Vector, start: nat, end: nat)
    requires start <= end <= |flat|
    ensures Slice(flat, start, end) == flat[start..end]
  {
  }

  lemma {:induction false} ConcatSlice(f: string -> Vector, texts: seq<string>, d: nat, i: nat)
    requires (forall t :: |f(t)| == d) && i < |texts|
    ensures Times(i, d) + d <= |Concat(f, texts)|
    ensures Slice(Concat(f, texts), Times(i, d), Times(i, d) + d) == f(texts[i])
  {
    hide Slice;
    var front, last := texts[..|texts| - 1], f(texts[|texts| - 1]);
    var start := Times(i, d);
    ConcatLength(f, front, d);
    assert Concat(f, texts) == Concat(f, front) + last;
    if i < |front| {
      ConcatSlice(f, front, d, i);
      WholeSlice(Concat(f, front), start, start + d);
    }
    WholeSlice(Concat(f, texts), start, start + d);
    SliceOfParts(Concat(f, front), last, start, start + d);
  }

  lemma InferPointwise(f: string -> Vector, texts: seq<string>, d: nat)
    requires (forall t :: |f(t)| == d) && texts != []
    ensures Infer(|Concat(f, texts)|, |texts|) == Whole(d)
  {
    ConcatLength(f, texts, d);
    TimesIsProduct(|texts|, d);
    ProductQuotient(|texts|, d);
  }

  /** An inferred dimension is valid exactly when there are values, and as many for each text. */
  lemma InferredValidIff(length: nat, count: nat)
    requires count > 0
    ensures ValidDimension(Infer(length, count)) <==> exists d: nat :: d > 0 && length == Times(count, d)
  {
    if length % count == 0 && length > 0 {
      var d := length / count;
      TimesIsProduct(count, d);
      QuotientPositive(length, count);
      assert d > 0 && length == Times(count, d);
    }
    if d: nat :| d > 0 && length == Times(count, d) {
      TimesIsProduct(count, d);
      ProductQuotient(count, d);
    }
  }

  lemma QuotientPositive(length: nat, count: nat)
    requires count > 0 && length > 0 && length % count == 0
    ensures length / count > 0 && count * (length / count) == length
  {
  }

  /** Where text `i` begins in what the pipeline returned. */
  function Cut(dim: Dimension, i: nat): nat
    requires dim.Fraction? ==> dim.count > 0
  {
    match dim
    case Whole(d) => Times(i, d)
    case Fraction(length, count) => CutNatural(i, length, count); i * length / count
  }

  lemma CutNatural(i: nat, length: nat, count: nat)
    requires count > 0
    ensures 0 <= i * length / count <= (i + 1) * length / count
  {
    assert 0 <= i * length <= (i + 1) * length;
    QuotientGrows(i * length, (i + 1) * length, count);
  }

  lemma QuotientGrows(a: nat, b: nat, count: nat)
    requires a <= b && count > 0
    ensures 0 <= a / count <= b / count
  {
    var q, r := a / count, b / count;
    assert a == count * q + a % count && b == count * r + b % count;
    assert count * (r - q) == b - a + a % count - b % count;
    assert count * (r - q) + count > 0;
    BigMultiple(count, r - q);
  }

  function Joined(records: seq<Record>): Vector {
    if records == [] then [] else Joined(records[..|records| - 1]) + records[|records| - 1].embedding
  }

  /** Under any dimension the embeddings of a batch are what was returned, cut up in order: nothing between is lost or doubled. */
  lemma {:induction false} EmbeddingsTile(texts: seq<string>, flat: Vector, dim: Dimension, first: int, n: nat)
    requires n <= |texts| && (dim.Fraction? ==> dim.count > 0)
    ensures Joined(BatchRecords(texts, flat, dim, first, n)) == Slice(flat, 0, Cut(dim, n))
  {
    if n == 0 {
      NothingCut(flat, dim);
    } else {
      hide Joined, Slice, SliceAt, Cut;
      EmbeddingsTile(texts, flat, dim, first, n - 1);
      var records := BatchRecords(texts, flat, dim, first, n);
      assert records[..n - 1] == BatchRecords(texts, flat, dim, first, n - 1);
      JoinedNext(records);
      NextCut(flat, dim, n - 1);
    }
  }

  lemma NothingCut(flat: Vector, dim: Dimension)
    requires dim.Fraction? ==> dim.count > 0
    ensures Slice(flat, 0, Cut(dim, 0)) == []
  {
  }

  lemma JoinedNext(records: seq<Record>)
    requires records != []
    ensures Joined(records) == Joined(records[..|records| - 1]) + records[|records| - 1].embedding
  {
  }

  lemma NextCut(flat: Vector, dim: Dimension, i: nat)
    requires dim.Fraction? ==> dim.count > 0
    ensures Slice(flat, 0, Cut(dim, i)) + SliceAt(flat, i, dim) == Slice(flat, 0, Cut(dim, i + 1))
  {
    hide Slice, Times;
    match dim
    case Whole(d) =>
      assert Times(i + 1, d) == Times(i, d) + d by { TimesNext(i, d); }
      SlicesMeet(flat, Times(i, d), Times(i, d) + d);
    case Fraction(length, count) =>
      CutNatural(i, length, count);
      SlicesMeet(flat, i * length / count, (i + 1) * length / count);
  }

  lemma TimesNext(k: nat, size: nat)
    ensures Times(k + 1, size) == Times(k, size) + size
  {
  }

  lemma SlicesMeet(flat: Vector, a: nat, b: nat)
    requires a <= b
    ensures Slice(flat, 0, a) + Slice(flat, a, b) == Slice(flat, 0, b)
  {
  }

  /** Position `i` holds text `i`, its own embedding, its index and the dimension. */
  ghost predicate Right(f: string -> Vector, d: nat, texts: seq<string>, records: seq<Record>) {
    && |records| <= |texts|
    && forall i :: 0 <= i < |records| ==> records[i] == Record(texts[i], f(texts[i]), i, Whole(d))
  }

  lemma RightBatch(f: string -> Vector, d: nat, texts: seq<string>, size: int, k: nat, records: seq<Record>)
    requires (forall t :: |f(t)| == d) && texts != [] && k < |Batches(texts, size)|
    requires Right(f, d, texts, records) && |records| == Before(Batches(texts, size), k)
    ensures var batch := Batches(texts, size)[k];
            var more := records + BatchRecords(batch, Concat(f, batch), Whole(d), k * size, |batch|);
            Right(f, d, texts, more) && |more| == Before(Batches(texts, size), k + 1)
  {
    hide Batches, Slice, Concat;
    var batch := Batches(texts, size)[k];
    BatchStart(texts, size, k);
    forall i: nat | i < |batch|
      ensures SliceAt(Concat(f, batch), i, Whole(d)) == f(batch[i])
    {
      ConcatSlice(f, batch, d, i);
    }
  }

  lemma {:induction false} RightRecords(pipeline: Pipeline, f: string -> Vector, d: nat, texts: seq<string>, size: int, k: nat, inferred: Option<Dimension>, records: seq<Record>)
    requires Embeds(pipeline, f, d) && d > 0 && texts != [] && k <= |Batches(texts, size)|
    requires forall j :: 0 <= j < |Batches(texts, size)| ==> Batches(texts, size)[j] != []
    requires inferred == None || inferred == Some(Whole(d))
    requires Right(f, d, texts, records) && |records| == Before(Batches(texts, size), k)
    ensures var step := EmbedBatches(pipeline, size, Batches(texts, size), k, inferred, records);
            && step.result.Ok? && Right(f, d, texts, step.result.value) && |step.result.value| == |texts|
            && step.inferred == (if k < |Batches(texts, size)| then Some(Whole(d)) else inferred)
    decreases |Batches(texts, size)| - k
  {
    hide Batches, Right, BatchRecords, Infer;
    var batches := Batches(texts, size);
    if k == |batches| {
      BatchesCover(texts, size);
    } else {
      var batch := batches[k];
      InferPointwise(f, batch, d);
      RightBatch(f, d, texts, size, k, records);
      RightRecords(pipeline, f, d, texts, size, k + 1, Some(Whole(d)),
                   records + BatchRecords(batch, Concat(f, batch), Whole(d), k * size, |batch|));
    }
  }

  /**
   With a pipeline that embeds each text by itself in `d` dimensions, the result
   is right, for every batch size, exactly when no dimension has been inferred
   before or it was `d`.
   */
  lemma RightIffInferred(pipeline: Pipeline, f: string -> Vector, d: nat, texts: seq<string>, size: int, inferred: Option<Dimension>)
    requires Embeds(pipeline, f, d) && d > 0 && texts != []
    ensures var step := Embedded(pipeline, texts, size, inferred);
            (step.result.Ok? && |step.result.value| == |texts| && Right(f, d, texts, step.result.value))
            <==> (inferred == None || inferred == Some(Whole(d)))
    ensures inferred == None ==> Embedded(pipeline, texts, size, inferred).inferred == Some(Whole(d))
  {
    hide Batches, Right, Embeds;
    FinalSortIdle(pipeline, texts, size, inferred);
    if inferred == None || inferred == Some(Whole(d)) {
      assert Right(f, d, texts, []) by { NothingRight(f, d, texts); }
      RightRecords(pipeline, f, d, texts, size, 0, inferred, []);
    } else {
      KeptDimension(pipeline, size, Batches(texts, size), 0, inferred.value, []);
      var r := Embedded(pipeline, texts, size, inferred).result;
      if r.Ok? && |r.value| == |texts| {
        assert r.value[0].dimensions == inferred.value;
        WrongDimension(f, d, texts, r.value);
      }
    }
  }

  lemma NothingRight(f: string -> Vector, d: nat, texts: seq<string>)
    ensures Right(f, d, texts, [])
  {
  }

  lemma WrongDimension(f: string -> Vector, d: nat, texts: seq<string>, records: seq<Record>)
    requires records != [] && records[0].dimensions != Whole(d)
    ensures !Right(f, d, texts, records)
  {
  }

  /** A dimension, once inferred, is used and kept for good, even if it is not valid. */
  lemma {:induction false} KeptDimension(pipeline: Pipeline, size: int, batches: seq<seq<string>>, k: nat, dim: Dimension, records: seq<Record>)
    requires k <= |batches| && forall j :: 0 <= j < |batches| ==> batches[j] != []
    requires forall i :: 0 <= i < |records| ==> records[i].dimensions == dim
    ensures var step := EmbedBatches(pipeline, size, batches, k, Some(dim), records);
            && step.inferred == Some(dim)
            && (step.result.Ok? ==> forall i :: 0 <= i < |step.result.value| ==> step.result.value[i].dimensions == dim)
    decreases |batches| - k
  {
    hide SliceAt, Infer;
    if k < |batches| && pipeline(k, batches[k]).Some? {
      var flat := pipeline(k, batches[k]).value;
      KeptDimension(pipeline, size, batches, k + 1, dim, records + BatchRecords(batches[k], flat, dim, k * size, |batches[k]|));
    }
  }

  // ------------------------------------------------------- many calls of one

  datatype Call = Call(pipeline: Pipeline, texts: seq<string>, size: int)

  /** The dimension that one embedder has inferred after these calls. */
  function Kept(calls: seq<Call>): Option<Dimension> {
    if calls == [] then None
    else
      var call := calls[|calls| - 1];
      Embedded(call.pipeline, call.texts, call.size, Kept(calls[..|calls| - 1])).inferred
  }

  /** What the first vector of a call divides into, if it gets one. */
  function Inference(call: Call): Option<Dimension> {
    if call.texts == [] then None
    else
      var batch := Batches(call.texts, call.size)[0];
      match call.pipeline(0, batch)
      case None => None
      case Some(flat) => Some(Infer(|flat|, |batch|))
  }

  /** That of the first call to get a vector at all. */
  function FirstInference(calls: seq<Call>): Option<Dimension> {
    if calls == [] then None
    else if Inference(calls[0]).Some? then Inference(calls[0])
    else FirstInference(calls[1..])
  }

  lemma {:induction false} FirstInferenceNext(calls: seq<Call>, call: Call)
    ensures FirstInference(calls + [call]) == if FirstInference(calls).Some? then FirstInference(calls) else Inference(call)
  {
    hide Inference;
    if calls == [] {
      assert (calls + [call])[1..] == [];
    } else {
      assert (calls + [call])[1..] == calls[1..] + [call];
      FirstInferenceNext(calls[1..], call);
    }
  }

  lemma KeptByCall(call: Call, inferred: Option<Dimension>)
    ensures Embedded(call.pipeline, call.texts, call.size, inferred).inferred == if inferred.Some? then inferred else Inference(call)
  {
    hide Batches, BatchRecords, Sort, Infer;
    if call.texts != [] {
      BatchesCover(call.texts, call.size);
      var batches := Batches(call.texts, call.size);
      if inferred.Some? {
        KeptDimension(call.pipeline, call.size, batches, 0, inferred.value, []);
      } else if call.pipeline(0, batches[0]).Some? {
        var flat := call.pipeline(0, batches[0]).value;
        var dim := Infer(|flat|, |batches[0]|);
        var records := BatchRecords(batches[0], flat, dim, 0 * call.size, |batches[0]|);
        assert forall i :: 0 <= i < |records| ==> records[i].dimensions == dim by { OfDimension(batches[0], flat, dim, 0 * call.size); }
        assert [] + records == records;
        KeptDimension(call.pipeline, call.size, batches, 1, dim, [] + records);
      }
    }
  }

  lemma OfDimension(batch: seq<string>, flat: Vector, dim: Dimension, first: int)
    ensures var records := BatchRecords(batch, flat, dim, first, |batch|);
            forall i :: 0 <= i < |records| ==> records[i].dimensions == dim
  {
  }

  /** Over any calls, the dimension kept is that of the first vector ever returned, good or bad. */
  lemma {:induction false} KeptIsFirst(calls: seq<Call>)
    ensures Kept(calls) == FirstInference(calls)
  {
    hide Embedded, Inference, FirstInference;
    if calls == [] {
      assert FirstInference([]) == None by { NoInference(); }
    } else {
      var n := |calls| - 1;
      KeptIsFirst(calls[..n]);
      KeptByCall(calls[n], Kept(calls[..n]));
      FirstInferenceNext(calls[..n], calls[n]);
      assert calls == calls[..n] + [calls[n]];
    }
  }

  lemma NoInference()
    ensures FirstInference([]) == None
  {
  }

  /** After any calls, one with a pointwise pipeline of dimension `d` is right exactly when the first vector had `d` values a text. */
  lemma RightIffFirst(calls: seq<Call>, call: Call, f: string -> Vector, d: nat)
    requires Embeds(call.pipeline, f, d) && d > 0 && call.texts != []
    ensures var r := Embedded(call.pipeline, call.texts, call.size, Kept(calls)).result;
            (r.Ok? && |r.value| == |call.texts| && Right(f, d, call.texts, r.value))
            <==> (FirstInference(calls) == None || FirstInference(calls) == Some(Whole(d)))
  {
    hide Embedded, Kept, FirstInference, Right, Embeds;
    KeptIsFirst(calls);
    RightIffInferred(call.pipeline, f, d, call.texts, call.size, Kept(calls));
  }

  /**
   If the first vector did not divide among its texts, the call that got it threw,
   and every later call with texts throws or returns records of the bad dimension,
   right for no embedding at all, whatever the pipeline has come to return.
   */
  lemma BadInferenceSticks(calls: seq<Call>, bad: Call, later: seq<Call>, call: Call)
    requires FirstInference(calls) == None && Inference(bad).Some? && !ValidDimension(Inference(bad).value)
    requires call.texts != []
    ensures Embedded(bad.pipeline, bad.texts, bad.size, Kept(calls)).result == Err(NoDimension)
    ensures var r := Embedded(call.pipeline, call.texts, call.size, Kept(calls + [bad] + later)).result;
            r.Ok? ==>
              && |r.value| == |call.texts|
              && (forall i :: 0 <= i < |r.value| ==> r.value[i].dimensions == Inference(bad).value)
              && (forall f, d: nat :: d > 0 ==> !Right(f, d, call.texts, r.value))
  {
    hide Kept, FirstInference, Batches, Right, Infer, BatchRecords;
    KeptIsFirst(calls);
    assert Embedded(bad.pipeline, bad.texts, bad.size, None).result == Err(NoDimension) by { ThrowsAtOnce(bad); }
    FirstInferenceStays(calls, bad, later);
    KeptIsFirst(calls + [bad] + later);
    var dim := Inference(bad).value;
    FinalSortIdle(call.pipeline, call.texts, call.size, Some(dim));
    KeptDimension(call.pipeline, call.size, Batches(call.texts, call.size), 0, dim, []);
    var r := Embedded(call.pipeline, call.texts, call.size, Some(dim)).result;
    if r.Ok? {
      forall f, d: nat | d > 0
        ensures !Right(f, d, call.texts, r.value)
      {
        WrongDimension(f, d, call.texts, r.value);
      }
    }
  }

  lemma ThrowsAtOnce(call: Call)
    requires Inference(call).Some? && !ValidDimension(Inference(call).value)
    ensures Embedded(call.pipeline, call.texts, call.size, None).result == Err(NoDimension)
  {
    hide Batches, BatchRecords, Infer;
    BatchesCover(call.texts, call.size);
  }

  lemma {:induction false} FirstInferenceStays(calls: seq<Call>, call: Call, later: seq<Call>)
    requires FirstInference(calls) == None && Inference(call).Some?
    ensures FirstInference(calls + [call] + later) == Inference(call)
  {
    hide Inference, FirstInference;
    if later == [] {
      FirstInferenceNext(calls, call);
      assert calls + [call] + later == calls + [call];
    } else {
      var n := |later| - 1;
      FirstInferenceStays(calls, call, later[..n]);
      FirstInferenceNext(calls + [call] + later[..n], later[n]);
      assert calls + [call] + later == calls + [call] + later[..n] + [later[n]];
    }
  }
}
