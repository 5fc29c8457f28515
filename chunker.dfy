/**
 * The chunker of twilight_council/stalker.py: it takes a documents message,
 * reads the Base64 JSON list of documents back into `Document` records,
 * splits them into pages with `split_into_chunks` of
 * pylon/mothership_core.py and forwards the pages under a fresh id.
 */
module Chunker {
  import opened Wrappers
  import opened JsonText
  import opened Envelope
  import opened QueueStore
  import opened Documents
  import Base64

  /**
   * The code the chunker calls but this model does not contain:
   * `bytes.decode` followed by `json.loads` (nothing when either raises), and
   * the semantic splitter's `split_documents` (nothing when it raises).
   */
  datatype Libraries = Libraries(
    loads: seq<Base64.byte> -> Option<Json>,
    split: seq<Document> -> Option<seq<Document>>)

  /** What `split_into_chunks` does: it raises, or it returns a value. */
  datatype Split = SplitRaised | Returned(pages: Option<seq<Document>>)

  /**
   * `split_into_chunks(documents)` as its caller needs it: nothing for an
   * empty list, otherwise the splitter's pages.
   */
  function SplitIntoChunks(docs: seq<Document>, split: seq<Document> -> Option<seq<Document>>): (r: Split)
    ensures |docs| == 0 ==> r == Returned(None)
    ensures |docs| > 0 ==> (r.SplitRaised? <==> split(docs).None?)
    ensures |docs| > 0 && r.Returned? ==> r.pages == split(docs)
  {
    if |docs| == 0 then Returned(None)
    else if split(docs).None? then SplitRaised
    else Returned(split(docs))
  }

  /**
   * `split_into_chunks` as written: the pages are computed into a local and
   * the function ends without a `return`, so the caller always gets `None`.
   */
  function SplitIntoChunksAsWritten(docs: seq<Document>, split: seq<Document> -> Option<seq<Document>>): Split {
    if |docs| == 0 then Returned(None)
    else if split(docs).None? then SplitRaised
    else Returned(None)
  }

  /**
   * As written, pages the splitter produced never reach the caller; the
   * corrected function hands them over. Both agree on every other input.
   */
  lemma SplitAsWrittenDropsPages(docs: seq<Document>, split: seq<Document> -> Option<seq<Document>>)
    ensures |docs| > 0 && split(docs).Some? ==>
      SplitIntoChunksAsWritten(docs, split) == Returned(None) &&
      SplitIntoChunks(docs, split) == Returned(Some(split(docs).value))
    ensures !(|docs| > 0 && split(docs).Some?) ==>
      SplitIntoChunksAsWritten(docs, split) == SplitIntoChunks(docs, split)
  {
  }

  /** The value `send_it` serialises: `None` or the list of pages. */
  function PagesJson(pages: Option<seq<Document>>): (j: Json)
    ensures pages.None? ==> j == JNull
    ensures pages.Some? ==> j == DocsToJson(pages.value)
  {
    if pages.None? then JNull else DocsToJson(pages.value)
  }

  /** What the chunker decides for one popped item. */
  datatype Verdict = Drop | Raise | Forward(content: Json)

  /**
   * The body of the loop after the pop: decode the message, Base64-decode
   * its content field, parse the JSON, turn every element into a document,
   * split, and forward the pages. A missing or non-string content, bad
   * Base64, a failed parse, a value that cannot be iterated, a malformed
   * document and a failing splitter all raise.
   */
  function HandleDocumentsMessage(cfg: Settings, raw: Raw, lib: Libraries): Verdict {
    var decoded := DecodeMessage(raw);
    if decoded.None? || |decoded.value| == 0 then Drop
    else
      var content := GetValue(decoded.value, cfg.contentField);
      if !content.JStr? || Base64.Decode(content.s).None? then Raise
      else
        var parsed := lib.loads(Base64.Decode(content.s).value);
        if parsed.None? || Iterate(parsed.value).None? then Raise
        else
          var docs := NormaliseAll(Iterate(parsed.value).value);
          if docs.None? then Raise
          else
            match SplitIntoChunks(docs.value, lib.split)
            case SplitRaised => Raise
            case Returned(pages) => Forward(PagesJson(pages))
  }

  /**
   * One iteration of `look_for_document_messages`. The `continue` paths
   * skip the `check_interval` sleep. A forward takes the next id from the id
   * source, whether or not the push then reaches the server.
   */
  function ChunkStep(cfg: Settings, default: string, qs: Queues, errors: Counters, nextId: nat, fault: Fault, link: Link,
                     lib: Libraries, dumps: Json -> seq<Base64.byte>): StepResult
  {
    var g := GetStep(qs, errors, ResolveQueue(cfg.documentsQueue, default), fault);
    if g.message.None? then StepResult(Idle, g.queues, g.errors, nextId, false)
    else
      match HandleDocumentsMessage(cfg, g.message.value, lib)
      case Drop => StepResult(Skipped, g.queues, g.errors, nextId, false)
      case Raise => StepResult(Failed, g.queues, g.errors, nextId, true)
      case Forward(content) =>
        var out := ResolveQueue(cfg.pagesQueue, default);
        var msg := ContentMessage(cfg, JStr(IdOf(nextId)), dumps(content));
        var qs1 := if link == Up then Push(g.queues, out, Serialized(msg)) else g.queues;
        StepResult(Forwarded, qs1, g.errors, nextId + 1, true)
  }

  /**
   * One iteration pushes at most one message, to the pages queue only and
   * only on a forward; every failure leaves the pages queue as it was.
   */
  lemma ChunkStepOutput(cfg: Settings, default: string, qs: Queues, errors: Counters, nextId: nat, fault: Fault, link: Link,
                        lib: Libraries, dumps: Json -> seq<Base64.byte>)
    requires ResolveQueue(cfg.documentsQueue, default) != ResolveQueue(cfg.pagesQueue, default)
    ensures var s := ChunkStep(cfg, default, qs, errors, nextId, fault, link, lib, dumps);
      var inQ, outQ := ResolveQueue(cfg.documentsQueue, default), ResolveQueue(cfg.pagesQueue, default);
      (s.outcome != Forwarded || link == Down ==> Contents(s.queues, outQ) == Contents(qs, outQ)) &&
      (s.outcome == Forwarded && link == Up ==>
        |Contents(s.queues, outQ)| == |Contents(qs, outQ)| + 1 &&
        Contents(s.queues, outQ)[..|Contents(qs, outQ)|] == Contents(qs, outQ)) &&
      (forall q :: q != inQ && q != outQ ==> Contents(s.queues, q) == Contents(qs, q)) &&
      (s.outcome == Forwarded ==> Contents(qs, inQ) != [] && Contents(s.queues, inQ) == Contents(qs, inQ)[1..])
  {
    var outQ := ResolveQueue(cfg.pagesQueue, default);
    var s := ChunkStep(cfg, default, qs, errors, nextId, fault, link, lib, dumps);
    if s.outcome == Forwarded && link == Up {
      assert (Contents(qs, outQ) + [Contents(s.queues, outQ)[|Contents(qs, outQ)|]])[..|Contents(qs, outQ)|] == Contents(qs, outQ);
    }
  }

  /**
   * The pages go out under an id taken fresh from the id source, never the
   * id of the incoming message: it differs from every id issued before, and
   * the source advances exactly when something is forwarded.
   */
  lemma ChunkStepFreshId(cfg: Settings, default: string, qs: Queues, errors: Counters, nextId: nat, fault: Fault, link: Link,
                         lib: Libraries, dumps: Json -> seq<Base64.byte>)
    requires cfg.contentField != "id"
    ensures var s := ChunkStep(cfg, default, qs, errors, nextId, fault, link, lib, dumps);
      var outQ := ResolveQueue(cfg.pagesQueue, default);
      (s.outcome == Forwarded ==> s.nextId == nextId + 1) &&
      (s.outcome != Forwarded ==> s.nextId == nextId) &&
      (s.outcome == Forwarded && link == Up ==>
        var last := Contents(s.queues, outQ)[|Contents(s.queues, outQ)| - 1];
        last.Serialized? && "id" in last.fields && last.fields["id"] == JStr(IdOf(nextId)) &&
        forall k :: 0 <= k < nextId ==> last.fields["id"] != JStr(IdOf(k)))
  {
    var s := ChunkStep(cfg, default, qs, errors, nextId, fault, link, lib, dumps);
    forall k | 0 <= k < nextId
      ensures IdOf(nextId) != IdOf(k)
    {
      IdsDistinct(nextId, k);
    }
  }

  /** The `continue` paths skip the sleep; a forward and a caught exception do not. */
  lemma ChunkStepSleeps(cfg: Settings, default: string, qs: Queues, errors: Counters, nextId: nat, fault: Fault, link: Link,
                        lib: Libraries, dumps: Json -> seq<Base64.byte>)
    ensures var s := ChunkStep(cfg, default, qs, errors, nextId, fault, link, lib, dumps);
      (s.slept <==> s.outcome == Forwarded || s.outcome == Failed) && s.errors == GetStep(qs, errors, ResolveQueue(cfg.documentsQueue, default), fault).errors
  {
  }

  /** A decoded message without a content field raises (`b64decode(None)`). */
  lemma MissingContentRaises(cfg: Settings, m: Fields, lib: Libraries)
    requires |m| > 0 && cfg.contentField !in m
    ensures HandleDocumentsMessage(cfg, Serialized(m), lib) == Raise
  {
  }

  /**
   * A list of documents sent by `send_it` is read back as the same documents
   * and handed to the splitter: its pages are forwarded; an empty list
   * forwards `None`.
   */
  lemma ChunkerReadsDocuments(cfg: Settings, id: Json, ds: seq<Document>, lib: Libraries, dumps: Json -> seq<Base64.byte>)
    requires cfg.contentField != "id"
    requires lib.loads(dumps(DocsToJson(ds))) == Some(DocsToJson(ds))
    ensures var v := HandleDocumentsMessage(cfg, Serialized(ContentMessage(cfg, id, dumps(DocsToJson(ds)))), lib);
      (|ds| == 0 ==> v == Forward(JNull)) &&
      (|ds| > 0 && lib.split(ds).None? ==> v == Raise) &&
      (|ds| > 0 && lib.split(ds).Some? ==> v == Forward(DocsToJson(lib.split(ds).value)))
  {
    ContentMessageRoundTrip(cfg, id, dumps(DocsToJson(ds)));
    DocsRoundTrip(ds);
  }

  /**
   * The libraries of the deployed chunker. `ApplicationContext.create`
   * builds its `OllamaGateway` but initialises only the Qdrant gateway, so
   * `_logger` stays `None` and `split_into_chunks` raises at its first log
   * line for every non-empty list.
   */
  function Uninitialised(lib: Libraries): Libraries {
    lib.(split := (ds: seq<Document>) => None)
  }

  /**
   * As deployed, the chunker never forwards pages: whatever it pops, it
   * drops the item, raises, or forwards `None` for an empty list.
   */
  lemma ChunkerForwardsOnlyNoneAsWritten(cfg: Settings, raw: Raw, lib: Libraries)
    ensures var v := HandleDocumentsMessage(cfg, raw, Uninitialised(lib));
      v.Forward? ==> v.content == JNull
  {
  }

  /**
   * Documents the extractor sent, as the deployed chunker handles them: a
   * non-empty list always raises, where an initialised gateway forwards the
   * splitter's pages.
   */
  lemma ChunkerUninitialisedAsWritten(cfg: Settings, id: Json, ds: seq<Document>, lib: Libraries, dumps: Json -> seq<Base64.byte>)
    requires cfg.contentField != "id" && |ds| > 0
    requires lib.loads(dumps(DocsToJson(ds))) == Some(DocsToJson(ds))
    ensures HandleDocumentsMessage(cfg, Serialized(ContentMessage(cfg, id, dumps(DocsToJson(ds)))), Uninitialised(lib)) == Raise
    ensures lib.split(ds).Some? ==>
      HandleDocumentsMessage(cfg, Serialized(ContentMessage(cfg, id, dumps(DocsToJson(ds)))), lib) == Forward(DocsToJson(lib.split(ds).value))
  {
    ChunkerReadsDocuments(cfg, id, ds, Uninitialised(lib), dumps);
    ChunkerReadsDocuments(cfg, id, ds, lib, dumps);
  }

  /**
   * The extractor sends the text of a plain-text file as one JSON string;
   * the chunker iterates it and hands the splitter one document per
   * character.
   */
  lemma ChunkerSplitsCharacters(cfg: Settings, id: Json, t: string, lib: Libraries, dumps: Json -> seq<Base64.byte>)
    requires cfg.contentField != "id" && |t| > 0
    requires lib.loads(dumps(JStr(t))) == Some(JStr(t))
    ensures var chars := seq(|t|, i requires 0 <= i < |t| => Document([t[i]], []));
      var v := HandleDocumentsMessage(cfg, Serialized(ContentMessage(cfg, id, dumps(JStr(t)))), lib);
      (lib.split(chars).None? ==> v == Raise) &&
      (lib.split(chars).Some? ==> v == Forward(DocsToJson(lib.split(chars).value)))
  {
    ContentMessageRoundTrip(cfg, id, dumps(JStr(t)));
    StringBecomesCharacters(t);
    var chars := seq(|t|, i requires 0 <= i < |t| => Document([t[i]], []));
    var docs := NormaliseAll(Iterate(JStr(t)).value).value;
    assert forall i :: 0 <= i < |t| ==> docs[i] == chars[i];
    assert docs == chars;
  }

  /** The chunker service: one iteration of its loop against the shared gateway. */
  class ChunkerService {
    const redis: RedisGateway

    constructor(redis: RedisGateway)
      ensures this.redis == redis
    {
      this.redis := redis;
    }

    /** One iteration of `look_for_document_messages`. */
    method LookForDocumentMessagesOnce(fault: Fault, link: Link, lib: Libraries, dumps: Json -> seq<Base64.byte>)
      returns (outcome: Outcome, slept: bool)
      modifies redis, redis.metrics, redis.ids
      ensures var s := ChunkStep(redis.settings, redis.defaultQueue, old(redis.queues), old(redis.metrics.errors),
                                 old(redis.ids.next), fault, link, lib, dumps);
        outcome == s.outcome && slept == s.slept && redis.queues == s.queues &&
        redis.metrics.errors == s.errors && redis.ids.next == s.nextId
    {
      var cfg := redis.settings;
      var message, _ := redis.GetMessage(cfg.documentsQueue, fault);
      if message.None? {
        return Idle, false;
      }
      ghost var verdict := HandleDocumentsMessage(cfg, message.value, lib);
      var decoded := DecodeMessage(message.value);
      if decoded.None? || |decoded.value| == 0 {
        assert verdict == Drop;
        return Skipped, false;
      }
      var content := GetValue(decoded.value, cfg.contentField);
      if !content.JStr? || Base64.Decode(content.s).None? {
        assert verdict == Raise;
        return Failed, true;
      }
      var parsed := lib.loads(Base64.Decode(content.s).value);
      if parsed.None? || Iterate(parsed.value).None? {
        assert verdict == Raise;
        return Failed, true;
      }
      var docs := NormaliseAll(Iterate(parsed.value).value);
      if docs.None? {
        assert verdict == Raise;
        return Failed, true;
      }
      var split := SplitIntoChunks(docs.value, lib.split);
      if split.SplitRaised? {
        assert verdict == Raise;
        return Failed, true;
      }
      assert verdict == Forward(PagesJson(split.pages));
      var id := redis.GenerateMessageId();
      redis.SendIt(cfg.pagesQueue, dumps(PagesJson(split.pages)), JStr(id), link);
      return Forwarded, true;
    }
  }
}
