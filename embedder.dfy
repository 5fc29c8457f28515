/**
 * The embedder of nexus/probe.py, the sink of the pipeline: it takes a pages
 * message, reads the pages back, keeps the pages whose text is not blank,
 * asks for one vector per kept text (`get_vectors` of
 * pylon/mothership_core.py) and upserts the resulting points into the
 * vector store. It pushes to no queue.
 */
module Embedder {
  import opened Wrappers
  import opened Text
  import opened JsonText
  import opened Envelope
  import opened QueueStore
  import opened Documents
  import opened VectorIndex
  import Base64

  /**
   * The code the embedder calls but this model does not contain:
   * `bytes.decode` followed by `json.loads`, and the embedding model's
   * `embed_documents` (nothing when either raises).
   */
  datatype Libraries = Libraries(
    loads: seq<Base64.byte> -> Option<Json>,
    embed: seq<string> -> Option<seq<Vector>>)

  /**
   * The text of every page that is not whitespace only, in page order: the
   * pages whose `strip()` is not empty (see `KeptSingle`).
   */
  function Kept(pages: seq<Document>): (r: seq<string>)
    ensures |r| <= |pages|
    ensures forall i :: 0 <= i < |r| ==> !IsBlank(r[i])
    decreases |pages|
  {
    if |pages| == 0 then []
    else (if !IsBlank(pages[0].pageContent) then [pages[0].pageContent] else []) + Kept(pages[1..])
  }

  /**
   * The filter works page by page: the texts kept from two runs of pages
   * are the texts kept from each, in order, and a single page is kept
   * exactly when its text is not all whitespace.
   */
  lemma {:induction false} KeptConcat(a: seq<Document>, b: seq<Document>)
    ensures Kept(a + b) == Kept(a) + Kept(b)
    decreases |a|
  {
    if |a| > 0 {
      assert (a + b)[0] == a[0];
      assert (a + b)[1..] == a[1..] + b;
      KeptConcat(a[1..], b);
    } else {
      assert a + b == b;
    }
  }

  lemma KeptSingle(d: Document)
    ensures Kept([d]) == if Strip(d.pageContent) == "" then [] else [d.pageContent]
  {
    StripEmptyIffBlank(d.pageContent);
    assert [d][1..] == [];
  }

  /** What `get_vectors(documents)` does: it raises, or it returns a value. */
  datatype Embedding = EmbedRaised | Embedded(vectors: Option<seq<Vector>>)

  /**
   * `get_vectors(documents)`: nothing for an empty list, otherwise the
   * embedding model's vectors for exactly those texts.
   */
  function GetVectors(texts: seq<string>, embed: seq<string> -> Option<seq<Vector>>): (r: Embedding)
    ensures |texts| == 0 ==> r == Embedded(None)
    ensures |texts| > 0 ==> (r.EmbedRaised? <==> embed(texts).None?)
    ensures |texts| > 0 && r.Embedded? ==> r.vectors == embed(texts)
  {
    if |texts| == 0 then Embedded(None)
    else if embed(texts).None? then EmbedRaised
    else Embedded(embed(texts))
  }

  /** What the embedder decides for one popped item. */
  datatype Verdict = Drop | Raise | Store(texts: seq<string>, vectors: seq<Vector>)

  /**
   * From the pages on: keep the non-blank texts, ask for their vectors, and
   * store them. No kept text, a failing model or no vectors all raise,
   * because `generate_points` then returns `None` and its length is logged.
   */
  function EmbedPages(pages: seq<Document>, embed: seq<string> -> Option<seq<Vector>>): (v: Verdict)
    ensures v.Store? || v.Raise?
    ensures v.Store? <==> |Kept(pages)| > 0 && embed(Kept(pages)).Some? && |embed(Kept(pages)).value| > 0
    ensures v.Store? ==> v.texts == Kept(pages) && v.vectors == embed(Kept(pages)).value
  {
    var texts := Kept(pages);
    match GetVectors(texts, embed)
    case EmbedRaised => Raise
    case Embedded(vectors) =>
      if vectors.None? || |vectors.value| == 0 then Raise
      else Store(texts, vectors.value)
  }

  /**
   * `get_vectors` on the gateway nexus/probe.py:11 builds: `initialize_client`
   * is never called on it, so its embedder is `None` and any non-empty list
   * raises.
   */
  function GetVectorsUninitialised(texts: seq<string>): (r: Embedding)
    ensures r.EmbedRaised? <==> |texts| > 0
    ensures r.Embedded? ==> r.vectors.None?
  {
    if |texts| == 0 then Embedded(None) else EmbedRaised
  }

  /** `EmbedPages` as nexus/probe.py runs it, with the uninitialised gateway. */
  function EmbedPagesAsWritten(pages: seq<Document>): Verdict {
    match GetVectorsUninitialised(Kept(pages))
    case EmbedRaised => Raise
    case Embedded(_) => Raise // `generate_points(None, ...)` is `None`, and its length raises
  }

  /**
   * As written, no page ever reaches the vector store: non-blank texts make
   * `get_vectors` raise, and no text at all makes the logging of the
   * missing points raise; with an initialised gateway, pages with text and
   * a working model are stored.
   */
  lemma ProbeStoresNothingAsWritten(pages: seq<Document>, embed: seq<string> -> Option<seq<Vector>>)
    ensures EmbedPagesAsWritten(pages) == Raise
    ensures |Kept(pages)| > 0 && embed(Kept(pages)).Some? && |embed(Kept(pages)).value| > 0 ==>
      EmbedPages(pages, embed) == Store(Kept(pages), embed(Kept(pages)).value)
  {
  }

  /**
   * The body of the loop after the pop. A message that does not decode
   * raises (its length is logged); an empty message and a missing or falsy
   * content field are skipped; bad Base64, a failed parse and a value that
   * is not a list of page objects raise.
   */
  function HandlePagesMessage(cfg: Settings, raw: Raw, lib: Libraries): (v: Verdict)
    ensures v.Store? ==>
      |v.texts| > 0 && |v.vectors| > 0 && lib.embed(v.texts) == Some(v.vectors) &&
      forall i :: 0 <= i < |v.texts| ==> !IsBlank(v.texts[i])
  {
    var decoded := DecodeMessage(raw);
    if decoded.None? then Raise
    else if |decoded.value| == 0 then Drop
    else
      var content := GetValue(decoded.value, cfg.contentField);
      if !Truthy(content) then Drop
      else if !content.JStr? || Base64.Decode(content.s).None? then Raise
      else
        var parsed := lib.loads(Base64.Decode(content.s).value);
        if parsed.None? || Iterate(parsed.value).None? then Raise
        else
          var pages := FromPages(Iterate(parsed.value).value);
          if pages.None? then Raise else EmbedPages(pages.value, lib.embed)
  }

  /** One iteration of the embedder's loop: the queues and counters, and the collection. */
  datatype EmbedResult = EmbedResult(step: StepResult, collection: map<string, Point>)

  /**
   * One iteration of `look_for_pages_messages`. A store builds one point per
   * pair of vector and kept text, each with a fresh id, and upserts them.
   */
  function EmbedStep(cfg: Settings, default: string, qs: Queues, errors: Counters, nextId: nat, fault: Fault,
                     lib: Libraries, collection: map<string, Point>): EmbedResult
  {
    var g := GetStep(qs, errors, ResolveQueue(cfg.pagesQueue, default), fault);
    if g.message.None? then EmbedResult(StepResult(Idle, g.queues, g.errors, nextId, false), collection)
    else
      match HandlePagesMessage(cfg, g.message.value, lib)
      case Drop => EmbedResult(StepResult(Skipped, g.queues, g.errors, nextId, false), collection)
      case Raise => EmbedResult(StepResult(Failed, g.queues, g.errors, nextId, true), collection)
      case Store(texts, vectors) =>
        var points := GeneratePoints(Some(vectors), texts, cfg.indexField, nextId);
        EmbedResult(StepResult(Forwarded, g.queues, g.errors, nextId + PointCount(points), true),
                    Upserted(collection, points.value))
  }

  /**
   * The embedder is the sink: no queue grows, only the pages queue may lose
   * its head, and the collection changes only when points are stored. The
   * `continue` paths skip the sleep.
   */
  lemma EmbedStepSink(cfg: Settings, default: string, qs: Queues, errors: Counters, nextId: nat, fault: Fault,
                      lib: Libraries, collection: map<string, Point>)
    ensures var r := EmbedStep(cfg, default, qs, errors, nextId, fault, lib, collection);
      var inQ := ResolveQueue(cfg.pagesQueue, default);
      (forall q :: q != inQ ==> Contents(r.step.queues, q) == Contents(qs, q)) &&
      (Contents(r.step.queues, inQ) == Contents(qs, inQ) ||
       (Contents(qs, inQ) != [] && Contents(r.step.queues, inQ) == Contents(qs, inQ)[1..])) &&
      (r.step.outcome != Forwarded ==> r.collection == collection && r.step.nextId == nextId) &&
      (r.step.slept <==> r.step.outcome == Forwarded || r.step.outcome == Failed)
  {
  }

  /**
   * A store puts point `i` under the `i`-th fresh id, with the `i`-th vector
   * and the `i`-th kept text under the index field, for every `i` below the
   * shorter of the two lists; every other entry of the collection stays,
   * and nothing else is added.
   */
  lemma EmbedStepStores(cfg: Settings, default: string, qs: Queues, errors: Counters, nextId: nat, fault: Fault,
                        lib: Libraries, collection: map<string, Point>)
    requires forall k :: k in collection ==> exists j :: 0 <= j < nextId && k == IdOf(j)
    ensures var r := EmbedStep(cfg, default, qs, errors, nextId, fault, lib, collection);
      var g := GetStep(qs, errors, ResolveQueue(cfg.pagesQueue, default), fault);
      r.step.outcome == Forwarded ==>
        g.message.Some? &&
        var v := HandlePagesMessage(cfg, g.message.value, lib);
        var n := Min(|v.vectors|, |v.texts|);
        var ids := IdRange(nextId, n);
        v.Store? && r.step.nextId == nextId + n &&
        (forall i :: 0 <= i < n ==>
          ids[i] in r.collection && r.collection[ids[i]] == Point(ids[i], v.vectors[i], map[cfg.indexField := v.texts[i]])) &&
        (forall k :: k in collection ==> k in r.collection && r.collection[k] == collection[k]) &&
        (forall k :: k in r.collection ==> k in collection || exists i :: 0 <= i < n && k == ids[i])
  {
    var r := EmbedStep(cfg, default, qs, errors, nextId, fault, lib, collection);
    var g := GetStep(qs, errors, ResolveQueue(cfg.pagesQueue, default), fault);
    if r.step.outcome == Forwarded {
      var v := HandlePagesMessage(cfg, g.message.value, lib);
      var points := GeneratePoints(Some(v.vectors), v.texts, cfg.indexField, nextId).value;
      assert r.collection == Upserted(collection, points);
      assert r.step.nextId == nextId + |points|;
      StoredPoints(collection, v.vectors, v.texts, cfg.indexField, nextId);
    }
  }

  /** The collection after storing fresh points for `vectors` and `texts`. */
  lemma StoredPoints(collection: map<string, Point>, vectors: seq<Vector>, texts: seq<string>, indexField: string, nextId: nat)
    requires |vectors| > 0 && |texts| > 0
    requires forall k :: k in collection ==> exists j :: 0 <= j < nextId && k == IdOf(j)
    ensures var points := GeneratePoints(Some(vectors), texts, indexField, nextId).value;
      var c := Upserted(collection, points);
      var n := Min(|vectors|, |texts|);
      var ids := IdRange(nextId, n);
      |points| == n &&
      (forall i :: 0 <= i < n ==> ids[i] in c && c[ids[i]] == Point(ids[i], vectors[i], map[indexField := texts[i]])) &&
      (forall k :: k in collection ==> k in c && c[k] == collection[k]) &&
      (forall k :: k in c ==> k in collection || exists i :: 0 <= i < n && k == ids[i])
  {
    var n := Min(|vectors|, |texts|);
    var ids := IdRange(nextId, n);
    var points := GeneratePoints(Some(vectors), texts, indexField, nextId).value;
    PointIdsFresh(Some(vectors), texts, indexField, nextId);
    UpsertedContents(collection, points);
    forall i | 0 <= i < n
      ensures points[i] == Point(ids[i], vectors[i], map[indexField := texts[i]])
    {
    }
    forall k | k in collection
      ensures forall i :: 0 <= i < |points| ==> points[i].id != k
    {
      var j :| 0 <= j < nextId && k == IdOf(j);
    }
  }

  /**
   * Pages sent by the chunker are read back whole: what is embedded is
   * decided by the pages alone, so the texts embedded are exactly the
   * non-blank page texts, in page order.
   */
  lemma EmbedderReadsPages(cfg: Settings, id: Json, ds: seq<Document>, lib: Libraries, dumps: Json -> seq<Base64.byte>)
    requires cfg.contentField != "id" && |dumps(DocsToJson(ds))| > 0
    requires lib.loads(dumps(DocsToJson(ds))) == Some(DocsToJson(ds))
    ensures HandlePagesMessage(cfg, Serialized(ContentMessage(cfg, id, dumps(DocsToJson(ds)))), lib) == EmbedPages(ds, lib.embed)
  {
    var m := ContentMessage(cfg, id, dumps(DocsToJson(ds)));
    ContentMessageRoundTrip(cfg, id, dumps(DocsToJson(ds)));
    assert "id" in m;
    assert Truthy(m[cfg.contentField]);
    DocsRoundTrip(ds);
  }

  /** One iteration of the module-level loop against the module-level gateways. */
  method LookForPagesMessagesOnce(redis: RedisGateway, qdrant: QdrantGateway, fault: Fault, lib: Libraries)
    returns (outcome: Outcome, slept: bool)
    modifies redis, redis.metrics, redis.ids, qdrant, qdrant.client
    ensures var r := EmbedStep(redis.settings, redis.defaultQueue, old(redis.queues), old(redis.metrics.errors),
                               old(redis.ids.next), fault, lib, old(CollectionOf(qdrant.client)));
      outcome == r.step.outcome && slept == r.step.slept && redis.queues == r.step.queues &&
      redis.metrics.errors == r.step.errors && redis.ids.next == r.step.nextId &&
      CollectionOf(qdrant.client) == r.collection
  {
    var cfg := redis.settings;
    ghost var collection := CollectionOf(qdrant.client);
    ghost var r := EmbedStep(cfg, redis.defaultQueue, redis.queues, redis.metrics.errors,
                             redis.ids.next, fault, lib, collection);
    var message, _ := redis.GetMessage(cfg.pagesQueue, fault);
    assert CollectionOf(qdrant.client) == collection;
    if message.None? {
      return Idle, false;
    }
    ghost var verdict := HandlePagesMessage(cfg, message.value, lib);
    assert verdict.Drop? ==> r.step.outcome == Skipped && r.collection == collection;
    assert verdict.Raise? ==> r.step.outcome == Failed && r.collection == collection;
    var decoded := DecodeMessage(message.value);
    if decoded.None? {
      assert verdict == Raise;
      return Failed, true;
    }
    if |decoded.value| == 0 {
      assert verdict == Drop;
      return Skipped, false;
    }
    var content := GetValue(decoded.value, cfg.contentField);
    if !Truthy(content) {
      assert verdict == Drop;
      return Skipped, false;
    }
    if !content.JStr? || Base64.Decode(content.s).None? {
      assert verdict == Raise;
      return Failed, true;
    }
    var parsed := lib.loads(Base64.Decode(content.s).value);
    if parsed.None? || Iterate(parsed.value).None? {
      assert verdict == Raise;
      return Failed, true;
    }
    var pages := FromPages(Iterate(parsed.value).value);
    if pages.None? {
      assert verdict == Raise;
      return Failed, true;
    }
    assert verdict == EmbedPages(pages.value, lib.embed);
    var texts := Kept(pages.value);
    var vectors := GetVectors(texts, lib.embed);
    if vectors.EmbedRaised? || vectors.vectors.None? || |vectors.vectors.value| == 0 {
      assert verdict == Raise;
      return Failed, true;
    }
    assert verdict == Store(texts, vectors.vectors.value);
    var points := GeneratePoints(vectors.vectors, texts, cfg.indexField, redis.ids.next);
    var _ := redis.ids.MintMany(PointCount(points));
    assert CollectionOf(qdrant.client) == collection;
    qdrant.AddPoints(points);
    assert CollectionOf(qdrant.client) == Upserted(collection, points.value) == r.collection;
    return Forwarded, true;
  }
}
