/** `packages/tekmemo-adapter-openai/src/embedder/openai-embedder.ts`. */
module OpenAiEmbedder {
  import opened Optional
  import opened Lists
  import opened StableSort
  import opened Batching

  type Vector = seq<real>

  datatype Tagged = Tagged(text: string, originalIndex: nat)

  datatype Item = Item(index: int, embedding: Vector)

  datatype Response = Failed | Data(items: seq<Item>, promptTokens: nat, totalTokens: nat)

  datatype Record = Record(text: string, embedding: Vector, index: nat, dimensions: nat)

  datatype Error = ApiError | BadResponse | IndexOutOfRange | BadBatchSize

  /** The response to the n-th request, which carries these texts. */
  type Client = (nat, seq<string>) -> Response

  const MAX_BATCH_SIZE := 2048
  const DEFAULT_BATCH_SIZE := 128

  function NormalizeBatchSize(size: Option<int>): Result<nat, Error> {
    var n := if size.Some? then size.value else DEFAULT_BATCH_SIZE;
    if n < 1 || n > MAX_BATCH_SIZE then Err(BadBatchSize) else Ok(n)
  }

  function ItemKey(item: Item): real { item.index as real }

  function RecordKey(r: Record): real { r.index as real }

  function Tag(texts: seq<string>): seq<Tagged> {
    seq(|texts|, i requires 0 <= i < |texts| => Tagged(texts[i], i))
  }

  function TextsOf(batch: seq<Tagged>): seq<string> {
    seq(|batch|, i requires 0 <= i < |batch| => batch[i].text)
  }

  /** `validateEmbeddingsResponse`: the count, and vectors that are not empty and have the length expected. */
  predicate ValidItems(items: seq<Item>, count: nat, dimensions: Option<nat>) {
    && |items| == count
    && forall i :: 0 <= i < |items| ==>
         items[i].embedding != [] && (dimensions.Some? ==> |items[i].embedding| == dimensions.value)
  }

  function RecordOf(original: Tagged, item: Item): Record {
    Record(original.text, item.embedding, original.originalIndex, |item.embedding|)
  }

  /** The records of sorted items, of which the first `n` are looked at. */
  function Place(batch: seq<Tagged>, sorted: seq<Item>, n: nat): (r: Result<seq<Record>, Error>)
    requires n <= |sorted|
    ensures r.Err? ==> r.error == IndexOutOfRange
  {
    if n == 0 then Ok([])
    else
      var done :- Place(batch, sorted, n - 1);
      var item := sorted[n - 1];
      if 0 <= item.index < |batch| then Ok(done + [RecordOf(batch[item.index], item)]) else Err(IndexOutOfRange)
  }

  function ByIndex(items: seq<Item>): (sorted: seq<Item>) {
    Sort(items, ItemKey)
  }

  /** The records of one batch, with the tokens used. */
  function BatchRecords(batch: seq<Tagged>, response: Response, dimensions: Option<nat>): Result<seq<Record>, Error> {
    match response
    case Failed => Err(ApiError)
    case Data(items, _, _) =>
      if ValidItems(items, |batch|, dimensions) then Place(batch, ByIndex(items), |ByIndex(items)|) else Err(BadResponse)
  }

  datatype Progress = Progress(all: seq<Record>, promptTokens: nat, totalTokens: nat)

  function EmbedBatch(client: Client, dimensions: Option<nat>, batches: seq<seq<Tagged>>, k: nat, p: Progress): Result<Progress, Error>
    requires k < |batches|
  {
    var response := client(k, TextsOf(batches[k]));
    var records :- BatchRecords(batches[k], response, dimensions);
    Ok(Progress(p.all + records, p.promptTokens + response.promptTokens, p.totalTokens + response.totalTokens))
  }

  /** The batches from `k` on. */
  function EmbedBatches(client: Client, dimensions: Option<nat>, batches: seq<seq<Tagged>>, k: nat, p: Progress): Result<Progress, Error>
    requires k <= |batches|
    decreases |batches| - k
  {
    if k == |batches| then Ok(p)
    else
      var next :- EmbedBatch(client, dimensions, batches, k, p);
      EmbedBatches(client, dimensions, batches, k + 1, next)
  }

  function Embedded(client: Client, dimensions: Option<nat>, texts: seq<string>, batchSize: Option<int>): Result<Progress, Error> {
    if texts == [] then Ok(Progress([], 0, 0))
    else
      var size :- NormalizeBatchSize(batchSize);
      var p :- EmbedBatches(client, dimensions, Chunks(Tag(texts), size), 0, Progress([], 0, 0));
      Ok(p.(all := Sort(p.all, RecordKey)))
  }

  method EmbedTexts(client: Client, dimensions: Option<nat>, texts: seq<string>, batchSize: Option<int>) returns (r: Result<Progress, Error>)
    ensures r == Embedded(client, dimensions, texts, batchSize)
  {
    hide Chunks, Sort, ValidItems;
    if |texts| == 0 {
      return Ok(Progress([], 0, 0));
    }
    var size := NormalizeBatchSize(batchSize);
    if size.Err? {
      return Err(size.error);
    }
    var chunked := ChunkArray(Tag(texts), size.value);
    var batches := chunked.value;
    var all: seq<Record> := [];
    var promptTokens, totalTokens := 0, 0;
    for k := 0 to |batches|
      invariant 0 <= promptTokens && 0 <= totalTokens
      invariant EmbedBatches(client, dimensions, batches, 0, Progress([], 0, 0))
             == EmbedBatches(client, dimensions, batches, k, Progress(all, promptTokens, totalTokens))
    {
      var batch := batches[k];
      var response := client(k, TextsOf(batch));
      if response.Failed? {
        return Err(ApiError);
      }
      if !ValidItems(response.items, |batch|, dimensions) {
        return Err(BadResponse);
      }
      var sorted := ByIndex(response.items);
      var records: seq<Record> := [];
      for i := 0 to |sorted|
        invariant Place(batch, sorted, i) == Ok(records)
      {
        var item := sorted[i];
        if !(0 <= item.index < |batch|) {
          PlaceFails(batch, sorted, i, |sorted|);
          return Err(IndexOutOfRange);
        }
        records := records + [RecordOf(batch[item.index], item)];
      }
      all := all + records;
      promptTokens := promptTokens + response.promptTokens;
      totalTokens := totalTokens + response.totalTokens;
    }
    all := Sort(all, RecordKey);
    return Ok(Progress(all, promptTokens, totalTokens));
  }

  lemma {:induction false} PlaceFails(batch: seq<Tagged>, sorted: seq<Item>, i: nat, n: nat)
    requires i < n <= |sorted| && !(0 <= sorted[i].index < |batch|)
    ensures Place(batch, sorted, n).Err? && Place(batch, sorted, n).error == IndexOutOfRange
  {
    if i < n - 1 { PlaceFails(batch, sorted, i, n - 1); }
  }

  // --------------------------------------------------------- what is accepted

  predicate UsableItem(item: Item, count: nat, dimensions: Option<nat>) {
    0 <= item.index < count && |item.embedding| > 0 && (dimensions.Some? ==> |item.embedding| == dimensions.value)
  }

  /** The response has an item for each text, with a vector of the right length and an index of the batch. */
  predicate Usable(response: Response, count: nat, dimensions: Option<nat>) {
    response.Data? && |response.items| == count && forall item :: item in response.items ==> UsableItem(item, count, dimensions)
  }

  /** What is wrong with a response that is not usable: an index only where all else is right. */
  predicate FaultIs(e: Error, response: Response, count: nat, dimensions: Option<nat>) {
    match response
    case Failed => e == ApiError
    case Data(items, _, _) =>
      e == if |items| == count
              && forall item :: item in items ==> item.embedding != [] && (dimensions.Some? ==> |item.embedding| == dimensions.value)
           then IndexOutOfRange else BadResponse
  }

  lemma BatchAccepted(batch: seq<Tagged>, response: Response, dimensions: Option<nat>)
    ensures var r := BatchRecords(batch, response, dimensions);
            && (r.Ok? <==> Usable(response, |batch|, dimensions))
            && (r.Err? ==> FaultIs(r.error, response, |batch|, dimensions))
  {
    hide Place, ByIndex;
    if response.Data? { ValidMembers(response.items, |batch|, dimensions); }
    if response.Data? && ValidItems(response.items, |batch|, dimensions) {
      SameItems(response.items);
      PlaceIff(batch, ByIndex(response.items));
    }
  }

  lemma ValidMembers(items: seq<Item>, count: nat, dimensions: Option<nat>)
    ensures ValidItems(items, count, dimensions) <==>
              && |items| == count
              && forall item :: item in items ==> item.embedding != [] && (dimensions.Some? ==> |item.embedding| == dimensions.value)
  {
    if forall item :: item in items ==> item.embedding != [] && (dimensions.Some? ==> |item.embedding| == dimensions.value) {
      forall i | 0 <= i < |items|
        ensures items[i].embedding != [] && (dimensions.Some? ==> |items[i].embedding| == dimensions.value)
      {
        assert items[i] in items;
      }
    }
  }

  lemma SameItems(items: seq<Item>)
    ensures |ByIndex(items)| == |items| && forall item :: item in items <==> item in ByIndex(items)
  {
    hide Sort, Sorted;
    SortMeaning(items, ItemKey);
    forall item
      ensures item in items <==> item in multiset(items)
      ensures item in ByIndex(items) <==> item in multiset(ByIndex(items))
    {
    }
  }

  lemma PlaceIff(batch: seq<Tagged>, sorted: seq<Item>)
    ensures Place(batch, sorted, |sorted|).Ok? <==> forall item :: item in sorted ==> 0 <= item.index < |batch|
  {
    hide Place, RecordOf;
    if Place(batch, sorted, |sorted|).Ok? {
      PlaceMeaning(batch, sorted, |sorted|);
    } else if forall i :: 0 <= i < |sorted| ==> 0 <= sorted[i].index < |batch| {
      PlaceSucceeds(batch, sorted, |sorted|);
    }
  }

  lemma {:induction false} PlaceSucceeds(batch: seq<Tagged>, sorted: seq<Item>, n: nat)
    requires n <= |sorted| && forall i :: 0 <= i < n ==> 0 <= sorted[i].index < |batch|
    ensures Place(batch, sorted, n).Ok?
  {
    if n > 0 { PlaceSucceeds(batch, sorted, n - 1); }
  }

  ghost predicate UsableAt(client: Client, dimensions: Option<nat>, batches: seq<seq<Tagged>>, j: nat)
    requires j < |batches|
  {
    Usable(client(j, TextsOf(batches[j])), |batches[j]|, dimensions)
  }

  ghost predicate UsableFrom(client: Client, dimensions: Option<nat>, batches: seq<seq<Tagged>>, k: nat, to: nat)
    requires to <= |batches|
  {
    forall j: nat :: k <= j < to ==> UsableAt(client, dimensions, batches, j)
  }

  /** The tokens that the responses from batch `k` on report. */
  function TokensFrom(client: Client, batches: seq<seq<Tagged>>, k: nat): (nat, nat)
    decreases |batches| - k
  {
    if k >= |batches| then (0, 0)
    else
      var rest := TokensFrom(client, batches, k + 1);
      match client(k, TextsOf(batches[k]))
      case Failed => rest
      case Data(_, promptTokens, totalTokens) => (promptTokens + rest.0, totalTokens + rest.1)
  }

  lemma {:induction false} BatchesAccepted(client: Client, dimensions: Option<nat>, batches: seq<seq<Tagged>>, k: nat, p: Progress)
    requires k <= |batches|
    ensures var r := EmbedBatches(client, dimensions, batches, k, p);
            && (r.Ok? <==> UsableFrom(client, dimensions, batches, k, |batches|))
            && forall j: nat :: k <= j < |batches| && UsableFrom(client, dimensions, batches, k, j) && !UsableAt(client, dimensions, batches, j) ==>
                 r.Err? && FaultIs(r.error, client(j, TextsOf(batches[j])), |batches[j]|, dimensions)
    decreases |batches| - k
  {
    hide Usable, BatchRecords, FaultIs;
    if k < |batches| {
      var response := client(k, TextsOf(batches[k]));
      BatchAccepted(batches[k], response, dimensions);
      if Usable(response, |batches[k]|, dimensions) {
        var next := EmbedBatch(client, dimensions, batches, k, p).value;
        BatchesAccepted(client, dimensions, batches, k + 1, next);
        UsableNext(client, dimensions, batches, k, |batches|);
        forall j: nat | k <= j < |batches| && UsableFrom(client, dimensions, batches, k, j) && !UsableAt(client, dimensions, batches, j)
          ensures k + 1 <= j && UsableFrom(client, dimensions, batches, k + 1, j)
        {
          UsableNext(client, dimensions, batches, k, j);
        }
      } else {
        assert !UsableAt(client, dimensions, batches, k);
      }
    }
  }

  lemma {:induction false} TokensAdded(client: Client, dimensions: Option<nat>, batches: seq<seq<Tagged>>, k: nat, p: Progress)
    requires k <= |batches| && EmbedBatches(client, dimensions, batches, k, p).Ok?
    ensures var r, tokens := EmbedBatches(client, dimensions, batches, k, p).value, TokensFrom(client, batches, k);
            r.promptTokens == p.promptTokens + tokens.0 && r.totalTokens == p.totalTokens + tokens.1
    decreases |batches| - k
  {
    hide TextsOf, ValidItems, Place;
    if k < |batches| { TokensAdded(client, dimensions, batches, k + 1, EmbedBatch(client, dimensions, batches, k, p).value); }
  }

  lemma UsableNext(client: Client, dimensions: Option<nat>, batches: seq<seq<Tagged>>, k: nat, to: nat)
    requires k < |batches| && to <= |batches| && UsableAt(client, dimensions, batches, k)
    ensures UsableFrom(client, dimensions, batches, k, to) <==> UsableFrom(client, dimensions, batches, k + 1, to)
  {
    hide Usable;
  }

  /**
   A call returns exactly when there is nothing to embed or the batch size, 128
   unless given, is from 1 to 2048 and the response to every batch is usable; the
   tokens are then the sums of those reported. Else it throws, for the first
   response that is not.
   */
  lemma ReturnsIff(client: Client, dimensions: Option<nat>, texts: seq<string>, batchSize: Option<int>)
    ensures var r, size := Embedded(client, dimensions, texts, batchSize), if batchSize.Some? then batchSize.value else 128;
            if texts == [] then r == Ok(Progress([], 0, 0))
            else if size < 1 || size > 2048 then r == Err(BadBatchSize)
            else
              var batches := Chunks(Tag(texts), size);
              && (r.Ok? <==> UsableFrom(client, dimensions, batches, 0, |batches|))
              && (r.Ok? ==> (r.value.promptTokens, r.value.totalTokens) == TokensFrom(client, batches, 0))
              && forall j: nat :: j < |batches| && UsableFrom(client, dimensions, batches, 0, j) && !UsableAt(client, dimensions, batches, j) ==>
                   r.Err? && FaultIs(r.error, client(j, TextsOf(batches[j])), |batches[j]|, dimensions)
  {
    hide Chunks, EmbedBatches, UsableFrom, UsableAt, FaultIs, TokensFrom;
    var size := if batchSize.Some? then batchSize.value else 128;
    if texts != [] && 1 <= size <= 2048 {
      var batches := Chunks(Tag(texts), size);
      BatchesAccepted(client, dimensions, batches, 0, Progress([], 0, 0));
      if EmbedBatches(client, dimensions, batches, 0, Progress([], 0, 0)).Ok? {
        TokensAdded(client, dimensions, batches, 0, Progress([], 0, 0));
      }
    }
  }

  // --------------------------------------------------------------- positions

  /** The items of batch `j`, in the order of their indices. */
  function SortedItems(client: Client, batches: seq<seq<Tagged>>, j: nat): seq<Item>
    requires j < |batches|
  {
    match client(j, TextsOf(batches[j]))
    case Failed => []
    case Data(items, _, _) => ByIndex(items)
  }

  /** The record of item `i` of batch `j` is where the items before it put it. */
  predicate Located(client: Client, batches: seq<seq<Tagged>>, all: seq<Record>, j: nat, i: nat)
    requires j < |batches| && i < |batches[j]|
  {
    var n, items := Before(batches, j) + i, SortedItems(client, batches, j);
    && n < |all| && i < |items|
    && 0 <= items[i].index < |batches[j]|
    && all[n] == RecordOf(batches[j][items[i].index], items[i])
  }

  ghost predicate AllLocated(client: Client, batches: seq<seq<Tagged>>, all: seq<Record>, to: nat)
    requires to <= |batches|
  {
    && |all| == Before(batches, to)
    && forall j: nat, i: nat :: j < to && i < |batches[j]| ==> Located(client, batches, all, j, i)
  }

  lemma {:induction false} PlaceMeaning(batch: seq<Tagged>, sorted: seq<Item>, n: nat)
    requires n <= |sorted| && Place(batch, sorted, n).Ok?
    ensures var records := Place(batch, sorted, n).value;
            && |records| == n
            && forall i :: 0 <= i < n ==>
                 0 <= sorted[i].index < |batch| && records[i] == RecordOf(batch[sorted[i].index], sorted[i])
  {
    if n > 0 { PlaceMeaning(batch, sorted, n - 1); }
  }

  lemma BatchLocated(client: Client, dimensions: Option<nat>, batches: seq<seq<Tagged>>, k: nat, p: Progress)
    requires k < |batches| && AllLocated(client, batches, p.all, k)
    requires EmbedBatch(client, dimensions, batches, k, p).Ok?
    ensures AllLocated(client, batches, EmbedBatch(client, dimensions, batches, k, p).value.all, k + 1)
  {
    hide Before, SortedItems, TextsOf, RecordOf, EmbedBatch;
    var records := BatchPlaced(client, dimensions, batches, k, p);
    var all := p.all + records;
    BeforeNext(batches, k);
    forall j: nat, i: nat | j < k + 1 && i < |batches[j]|
      ensures Located(client, batches, all, j, i)
    {
      if j < k {
        assert Located(client, batches, p.all, j, i);
      } else {
        assert all[Before(batches, k) + i] == records[i];
      }
    }
  }

  lemma BeforeNext<T>(batches: seq<seq<T>>, k: nat)
    requires k < |batches|
    ensures Before(batches, k + 1) == Before(batches, k) + |batches[k]|
  {
  }

  /** The records that a batch adds, one for each of its sorted items. */
  lemma BatchPlaced(client: Client, dimensions: Option<nat>, batches: seq<seq<Tagged>>, k: nat, p: Progress) returns (records: seq<Record>)
    requires k < |batches| && EmbedBatch(client, dimensions, batches, k, p).Ok?
    ensures EmbedBatch(client, dimensions, batches, k, p).value.all == p.all + records
    ensures var batch, items := batches[k], SortedItems(client, batches, k);
            && |records| == |items| == |batch|
            && forall i :: 0 <= i < |items| ==>
                 0 <= items[i].index < |batch| && records[i] == RecordOf(batch[items[i].index], items[i])
  {
    hide Sort, Before, RecordOf, Place;
    var batch := batches[k];
    var items := client(k, TextsOf(batch)).items;
    SortMeaning(items, ItemKey);
    var sorted := ByIndex(items);
    PlaceMeaning(batch, sorted, |sorted|);
    records := Place(batch, sorted, |sorted|).value;
  }

  lemma {:induction false} BatchesLocated(client: Client, dimensions: Option<nat>, batches: seq<seq<Tagged>>, k: nat, p: Progress)
    requires k <= |batches| && AllLocated(client, batches, p.all, k)
    requires EmbedBatches(client, dimensions, batches, k, p).Ok?
    ensures AllLocated(client, batches, EmbedBatches(client, dimensions, batches, k, p).value.all, |batches|)
    decreases |batches| - k
  {
    hide AllLocated, EmbedBatch;
    if k < |batches| {
      BatchLocated(client, dimensions, batches, k, p);
      BatchesLocated(client, dimensions, batches, k + 1, EmbedBatch(client, dimensions, batches, k, p).value);
    }
  }

  lemma TagAt(texts: seq<string>, size: nat, j: nat, i: nat)
    requires size > 0
    requires j < |Chunks(Tag(texts), size)| && i < |Chunks(Tag(texts), size)[j]|
    ensures var n := Before(Chunks(Tag(texts), size), j) + i;
            n < |texts| && Chunks(Tag(texts), size)[j][i] == Tagged(texts[n], n)
  {
    hide Chunks;
    ChunksFlatten(Tag(texts), size);
    FlattenAt(Chunks(Tag(texts), size), j, i);
  }

  /** Before the final sort every record is where the next lemmas want it. */
  lemma ResultLocated(client: Client, dimensions: Option<nat>, texts: seq<string>, size: nat) returns (all: seq<Record>)
    requires size > 0 && EmbedBatches(client, dimensions, Chunks(Tag(texts), size), 0, Progress([], 0, 0)).Ok?
    ensures all == EmbedBatches(client, dimensions, Chunks(Tag(texts), size), 0, Progress([], 0, 0)).value.all
    ensures AllLocated(client, Chunks(Tag(texts), size), all, |Chunks(Tag(texts), size)|)
    ensures |all| == |texts|
  {
    hide Chunks;
    var batches := Chunks(Tag(texts), size);
    BatchesLocated(client, dimensions, batches, 0, Progress([], 0, 0));
    all := EmbedBatches(client, dimensions, batches, 0, Progress([], 0, 0)).value.all;
    BeforeAll(batches);
    ChunksFlatten(Tag(texts), size);
  }

  // --------------------------------------------------------------- alignment

  /** The index of the record that position `n` holds. */
  lemma IndexOf(client: Client, texts: seq<string>, size: nat, all: seq<Record>, j: nat, i: nat)
    requires size > 0 && j < |Chunks(Tag(texts), size)| && i < |Chunks(Tag(texts), size)[j]|
    requires AllLocated(client, Chunks(Tag(texts), size), all, |Chunks(Tag(texts), size)|)
    ensures var batches := Chunks(Tag(texts), size);
            var n, items := Before(batches, j) + i, SortedItems(client, batches, j);
            && n < |all| && i < |items| && 0 <= items[i].index < |batches[j]|
            && Before(batches, j) + items[i].index < |texts|
            && all[n].index == Before(batches, j) + items[i].index
            && all[n].text == texts[all[n].index]
            && all[n].embedding == items[i].embedding
  {
    hide Chunks, SortedItems;
    var batches := Chunks(Tag(texts), size);
    assert Located(client, batches, all, j, i);
    TagAt(texts, size, j, SortedItems(client, batches, j)[i].index);
  }

  lemma ItemsSorted(client: Client, batches: seq<seq<Tagged>>, j: nat)
    requires j < |batches|
    ensures Sorted(SortedItems(client, batches, j), ItemKey)
  {
    match client(j, TextsOf(batches[j]))
    case Failed =>
    case Data(items, _, _) => SortMeaning(items, ItemKey);
  }

  /** The final sort changes nothing, whatever the responses hold. */
  lemma FinalSortIdle(client: Client, dimensions: Option<nat>, texts: seq<string>, size: nat)
    requires size > 0 && EmbedBatches(client, dimensions, Chunks(Tag(texts), size), 0, Progress([], 0, 0)).Ok?
    ensures var all := EmbedBatches(client, dimensions, Chunks(Tag(texts), size), 0, Progress([], 0, 0)).value.all;
            Sort(all, RecordKey) == all
  {
    hide Chunks, EmbedBatches, AllLocated, SortedItems;
    var all := ResultLocated(client, dimensions, texts, size);
    var batches := Chunks(Tag(texts), size);
    ChunksFlatten(Tag(texts), size);
    BeforeAll(batches);
    forall a, b | 0 <= a < b < |all|
      ensures RecordKey(all[a]) <= RecordKey(all[b])
    {
      var ja, ia := Locate(batches, |batches|, a);
      var jb, ib := Locate(batches, |batches|, b);
      IndexOf(client, texts, size, all, ja, ia);
      IndexOf(client, texts, size, all, jb, ib);
      ItemsSorted(client, batches, ja);
      if ja < jb {
        BeforeGrows(batches, ja, jb);
      } else if jb < ja {
        BeforeGrows(batches, jb, ja);
      } else {
        assert ItemKey(SortedItems(client, batches, ja)[ia]) <= ItemKey(SortedItems(client, batches, ja)[ib]);
      }
    }
    SortIdle(all, RecordKey);
  }

  /** The record of item `i` of batch `j` has its own position as its index. */
  predicate InPlace(batches: seq<seq<Tagged>>, all: seq<Record>, j: nat, i: nat)
    requires j < |batches|
  {
    var n := Before(batches, j) + i;
    n < |all| && all[n].index == n
  }

  predicate Aligned(all: seq<Record>, texts: seq<string>) {
    |all| == |texts| && forall i :: 0 <= i < |all| ==> all[i].index == i && all[i].text == texts[i]
  }

  /** The indices of the response to batch `j` number its items. */
  ghost predicate Numbered(client: Client, batches: seq<seq<Tagged>>, j: nat)
    requires j < |batches|
  {
    client(j, TextsOf(batches[j])).Data? && Numbers(client(j, TextsOf(batches[j])).items, ItemKey)
  }

  lemma NumberedMeans(client: Client, batches: seq<seq<Tagged>>, j: nat)
    requires j < |batches| && client(j, TextsOf(batches[j])).Data?
    ensures var items := SortedItems(client, batches, j);
            Numbered(client, batches, j) <==> forall i :: 0 <= i < |items| ==> items[i].index == i
    ensures |SortedItems(client, batches, j)| == |client(j, TextsOf(batches[j])).items|
  {
    hide Numbers, Sort, Sorted;
    var items := client(j, TextsOf(batches[j])).items;
    SortNumbers(items, ItemKey);
    SortMeaning(items, ItemKey);
    var sorted := SortedItems(client, batches, j);
    assert forall i :: 0 <= i < |sorted| ==> (ItemKey(sorted[i]) == i as real <==> sorted[i].index == i);
  }

  lemma {:induction false} ResponsesAre(client: Client, dimensions: Option<nat>, batches: seq<seq<Tagged>>, k: nat, p: Progress, j: nat)
    requires k <= j < |batches| && EmbedBatches(client, dimensions, batches, k, p).Ok?
    ensures client(j, TextsOf(batches[j])).Data?
    ensures ValidItems(client(j, TextsOf(batches[j])).items, |batches[j]|, dimensions)
    decreases j - k
  {
    hide Place, Sort;
    if k < j {
      ResponsesAre(client, dimensions, batches, k + 1, EmbedBatch(client, dimensions, batches, k, p).value, j);
    }
  }

  /**
   When `embedTexts` returns, position `i` holds text `i` for every `i` exactly
   when the indices of every response are 0 to count - 1, each once; the counts
   are checked, this is not.
   */
  lemma AlignedIffNumbered(client: Client, dimensions: Option<nat>, texts: seq<string>, size: nat)
    requires size > 0 && EmbedBatches(client, dimensions, Chunks(Tag(texts), size), 0, Progress([], 0, 0)).Ok?
    ensures var batches := Chunks(Tag(texts), size);
            var all := EmbedBatches(client, dimensions, batches, 0, Progress([], 0, 0)).value.all;
            Aligned(all, texts) <==> forall j :: 0 <= j < |batches| ==> Numbered(client, batches, j)
  {
    hide Chunks, EmbedBatches, AllLocated, SortedItems, Numbered, ValidItems;
    var all := ResultLocated(client, dimensions, texts, size);
    var batches := Chunks(Tag(texts), size);
    forall j: nat | j < |batches|
      ensures Numbered(client, batches, j) <==> forall i: nat | i < |batches[j]| :: InPlace(batches, all, j, i)
    {
      BatchAligned(client, dimensions, texts, size, all, j);
    }
    if Aligned(all, texts) {
      forall j: nat | j < |batches|
        ensures Numbered(client, batches, j)
      {
        forall i: nat | i < |batches[j]|
          ensures InPlace(batches, all, j, i)
        {
          IndexOf(client, texts, size, all, j, i);
        }
      }
    }
    if forall j :: 0 <= j < |batches| ==> Numbered(client, batches, j) {
      forall n | 0 <= n < |all|
        ensures all[n].index == n && all[n].text == texts[n]
      {
        ChunksFlatten(Tag(texts), size);
        BeforeAll(batches);
        var j, i := Locate(batches, |batches|, n);
        IndexOf(client, texts, size, all, j, i);
        assert Numbered(client, batches, j) && InPlace(batches, all, j, i);
      }
    }
  }

  lemma BatchAligned(client: Client, dimensions: Option<nat>, texts: seq<string>, size: nat, all: seq<Record>, j: nat)
    requires size > 0 && EmbedBatches(client, dimensions, Chunks(Tag(texts), size), 0, Progress([], 0, 0)).Ok?
    requires AllLocated(client, Chunks(Tag(texts), size), all, |Chunks(Tag(texts), size)|)
    requires j < |Chunks(Tag(texts), size)|
    ensures var batches := Chunks(Tag(texts), size);
            Numbered(client, batches, j) <==> forall i: nat | i < |batches[j]| :: InPlace(batches, all, j, i)
  {
    hide Chunks, EmbedBatches, SortedItems, Numbered, Located;
    var batches := Chunks(Tag(texts), size);
    ResponsesAre(client, dimensions, batches, 0, Progress([], 0, 0), j);
    NumberedMeans(client, batches, j);
    var items := SortedItems(client, batches, j);
    forall i: nat | i < |batches[j]|
      ensures InPlace(batches, all, j, i) <==> items[i].index == i
    {
      IndexOf(client, texts, size, all, j, i);
    }
    if forall i: nat | i < |batches[j]| :: InPlace(batches, all, j, i) {
      forall i: nat | i < |items|
        ensures items[i].index == i
      {
        assert InPlace(batches, all, j, i);
      }
    }
  }

  // --------------------------------------------------- a pointwise embedding

  /** The client answers every request with the embedding `f` of each text under the index of the text. */
  ghost predicate Embeds(client: Client, f: string -> Vector) {
    forall n: nat, texts: seq<string> :: Answers(client(n, texts), texts, f)
  }

  ghost predicate Answers(response: Response, texts: seq<string>, f: string -> Vector) {
    && response.Data? && |response.items| == |texts| && Numbers(response.items, ItemKey)
    && forall item :: item in response.items ==> 0 <= item.index < |texts| && item.embedding == f(texts[item.index])
  }

  /** Position `i` of the result holds text `i`, its own embedding and its index, for every batch size. */
  lemma PointwiseResult(client: Client, f: string -> Vector, texts: seq<string>, batchSize: Option<int>)
    requires Embeds(client, f) && forall t :: f(t) != []
    requires NormalizeBatchSize(batchSize).Ok?
    ensures Embedded(client, None, texts, batchSize).Ok?
    ensures var all := Embedded(client, None, texts, batchSize).value.all;
            && |all| == |texts|
            && forall i :: 0 <= i < |texts| ==> all[i] == Record(texts[i], f(texts[i]), i, |f(texts[i])|)
  {
    hide Chunks, EmbedBatches, AllLocated, Answers, Sort;
    if texts != [] {
      var size := NormalizeBatchSize(batchSize).value;
      var batches := Chunks(Tag(texts), size);
      PointwiseOk(client, f, batches, 0, Progress([], 0, 0));
      FinalSortIdle(client, None, texts, size);
      var all := ResultLocated(client, None, texts, size);
      forall n | 0 <= n < |texts|
        ensures all[n] == Record(texts[n], f(texts[n]), n, |f(texts[n])|)
      {
        PointwiseAt(client, f, texts, size, all, n);
      }
    }
  }

  lemma PointwiseAt(client: Client, f: string -> Vector, texts: seq<string>, size: nat, all: seq<Record>, n: nat)
    requires Embeds(client, f) && size > 0 && n < |texts| == |all|
    requires AllLocated(client, Chunks(Tag(texts), size), all, |Chunks(Tag(texts), size)|)
    ensures all[n] == Record(texts[n], f(texts[n]), n, |f(texts[n])|)
  {
    hide Chunks, Sort, Numbers;
    var batches := Chunks(Tag(texts), size);
    ChunksFlatten(Tag(texts), size);
    BeforeAll(batches);
    var j, i := Locate(batches, |batches|, n);
    assert Located(client, batches, all, j, i);
    assert Answers(client(j, TextsOf(batches[j])), TextsOf(batches[j]), f);
    NumberedMeans(client, batches, j);
    TagAt(texts, size, j, i);
    var items := client(j, TextsOf(batches[j])).items;
    SortMeaning(items, ItemKey);
    var item := SortedItems(client, batches, j)[i];
    assert item in multiset(ByIndex(items));
    assert item in items;
  }

  lemma SortedInRange(items: seq<Item>, count: nat)
    requires Numbers(items, ItemKey) && |items| == count
    ensures |ByIndex(items)| == count && forall i :: 0 <= i < count ==> ByIndex(items)[i].index == i
  {
    hide Numbers, Sort, Sorted;
    SortNumbers(items, ItemKey);
    SortMeaning(items, ItemKey);
    var sorted := ByIndex(items);
    assert forall i :: 0 <= i < |sorted| ==> (ItemKey(sorted[i]) == i as real <==> sorted[i].index == i);
  }

  lemma {:induction false} PlaceOk(batch: seq<Tagged>, sorted: seq<Item>, n: nat)
    requires n <= |sorted| && forall i :: 0 <= i < n ==> 0 <= sorted[i].index < |batch|
    ensures Place(batch, sorted, n).Ok?
  {
    if n > 0 { PlaceOk(batch, sorted, n - 1); }
  }

  lemma {:induction false} PointwiseOk(client: Client, f: string -> Vector, batches: seq<seq<Tagged>>, k: nat, p: Progress)
    requires Embeds(client, f) && (forall t :: f(t) != []) && k <= |batches|
    ensures EmbedBatches(client, None, batches, k, p).Ok?
    decreases |batches| - k
  {
    hide Numbers, Sort;
    if k < |batches| {
      var batch := batches[k];
      assert Answers(client(k, TextsOf(batch)), TextsOf(batch), f);
      var items := client(k, TextsOf(batch)).items;
      assert forall i :: 0 <= i < |items| ==> items[i] in items;
      SortedInRange(items, |batch|);
      PlaceOk(batch, ByIndex(items), |batch|);
      PointwiseOk(client, f, batches, k + 1, EmbedBatch(client, None, batches, k, p).value);
    }
  }
}
