/**
 * The older chunker of twilight-council/stalker.py: it reads the content
 * under the fixed key `"content"`, hands the Base64-decoded bytes straight
 * to the semantic splitter, and forwards what the splitter returns under a
 * fresh id. The library's splitter expects documents, so with it only an
 * empty payload gets that far (`BytesSplitter`).
 */
module LegacyChunker {
  import opened Wrappers
  import opened JsonText
  import opened Envelope
  import opened QueueStore
  import opened Documents
  import opened Chunker
  import Base64

  /**
   * The loop body after the pop. `splitBytes` is the splitter's
   * `split_documents` applied to the decoded bytes (nothing when it
   * raises).
   */
  function HandleLegacyMessage(raw: Raw, splitBytes: seq<Base64.byte> -> Option<seq<Document>>): (v: Verdict)
    ensures v.Forward? ==> v.content.JList?
    ensures v == Drop <==> DecodeMessage(raw).None? || |DecodeMessage(raw).value| == 0
    ensures v.Forward? ==>
      var content := GetValue(DecodeMessage(raw).value, "content");
      content.JStr? && Base64.Decode(content.s).Some? &&
      splitBytes(Base64.Decode(content.s).value).Some? &&
      v.content == DocsToJson(splitBytes(Base64.Decode(content.s).value).value)
  {
    var decoded := DecodeMessage(raw);
    if decoded.None? || |decoded.value| == 0 then Drop
    else
      var content := GetValue(decoded.value, "content");
      if !content.JStr? || Base64.Decode(content.s).None? then Raise
      else
        var pages := splitBytes(Base64.Decode(content.s).value);
        if pages.None? then Raise else Forward(DocsToJson(pages.value))
  }

  /** One iteration of `look_for_document_messages`. */
  function LegacyStep(cfg: Settings, default: string, qs: Queues, errors: Counters, nextId: nat, fault: Fault, link: Link,
                      splitBytes: seq<Base64.byte> -> Option<seq<Document>>, dumps: Json -> seq<Base64.byte>): StepResult
  {
    var g := GetStep(qs, errors, ResolveQueue(cfg.documentsQueue, default), fault);
    if g.message.None? then StepResult(Idle, g.queues, g.errors, nextId, false)
    else
      match HandleLegacyMessage(g.message.value, splitBytes)
      case Drop => StepResult(Skipped, g.queues, g.errors, nextId, false)
      case Raise => StepResult(Failed, g.queues, g.errors, nextId, true)
      case Forward(content) =>
        var out := ResolveQueue(cfg.pagesQueue, default);
        var msg := ContentMessage(cfg, JStr(IdOf(nextId)), dumps(content));
        var qs1 := if link == Up then Push(g.queues, out, Serialized(msg)) else g.queues;
        StepResult(Forwarded, qs1, g.errors, nextId + 1, true)
  }

  /**
   * The key is fixed: when the deployment names its content field anything
   * but `"content"`, a message written by `send_it` is never forwarded, and
   * when it is `"content"` the decoded payload reaches the splitter whole.
   */
  lemma LegacyContentKey(cfg: Settings, id: Json, payload: seq<Base64.byte>, splitBytes: seq<Base64.byte> -> Option<seq<Document>>)
    requires cfg.contentField != "id"
    ensures var v := HandleLegacyMessage(Serialized(ContentMessage(cfg, id, payload)), splitBytes);
      (cfg.contentField != "content" ==> v == Raise) &&
      (cfg.contentField == "content" ==>
        (splitBytes(payload).None? ==> v == Raise) &&
        (splitBytes(payload).Some? ==> v == Forward(DocsToJson(splitBytes(payload).value))))
  {
    var m := ContentMessage(cfg, id, payload);
    if cfg.contentField == "content" {
      ContentMessageRoundTrip(cfg, id, payload);
    } else {
      assert "content" !in m;
    }
  }

  /**
   * `SemanticChunker.split_documents` handed a `bytes` object: iterating it
   * yields integers, and reading `page_content` from the first one raises,
   * so only an empty payload comes back, as an empty list of pages.
   */
  function BytesSplitter(b: seq<Base64.byte>): Option<seq<Document>> {
    if |b| == 0 then Some([]) else None
  }

  /**
   * With the library's splitter, a message `send_it` wrote with a non-empty
   * payload raises and only an empty payload is forwarded, as an empty list.
   */
  lemma LegacySplitsBytesAsWritten(id: Json, payload: seq<Base64.byte>, cfg: Settings)
    requires cfg.contentField == "content"
    ensures var v := HandleLegacyMessage(Serialized(ContentMessage(cfg, id, payload)), BytesSplitter);
      (|payload| > 0 ==> v == Raise) && (|payload| == 0 ==> v == Forward(JList([])))
  {
    LegacyContentKey(cfg, id, payload, BytesSplitter);
  }

  /**
   * One iteration that pops a message with real content ends in the
   * `except` path: it takes the message off the documents queue, pushes
   * nothing, takes no id and records no error.
   */
  lemma LegacyStepFailsAsWritten(cfg: Settings, default: string, qs: Queues, errors: Counters, nextId: nat, link: Link,
                                 id: Json, payload: seq<Base64.byte>, dumps: Json -> seq<Base64.byte>)
    requires cfg.contentField == "content" && |payload| > 0
    requires var inQ := ResolveQueue(cfg.documentsQueue, default);
      Contents(qs, inQ) != [] && Contents(qs, inQ)[0] == Serialized(ContentMessage(cfg, id, payload))
    ensures var inQ := ResolveQueue(cfg.documentsQueue, default);
      var s := LegacyStep(cfg, default, qs, errors, nextId, NoFault, link, BytesSplitter, dumps);
      s.outcome == Failed && s.slept && s.queues == Pop(qs, inQ).1 && s.errors == errors && s.nextId == nextId
  {
    LegacySplitsBytesAsWritten(id, payload, cfg);
  }

  /**
   * One iteration pushes at most one message, to the pages queue and only on
   * a forward, under an id the source had not issued before; the source
   * advances exactly on a forward.
   */
  lemma LegacyStepOutput(cfg: Settings, default: string, qs: Queues, errors: Counters, nextId: nat, fault: Fault, link: Link,
                         splitBytes: seq<Base64.byte> -> Option<seq<Document>>, dumps: Json -> seq<Base64.byte>)
    requires ResolveQueue(cfg.documentsQueue, default) != ResolveQueue(cfg.pagesQueue, default)
    requires cfg.contentField != "id"
    ensures var s := LegacyStep(cfg, default, qs, errors, nextId, fault, link, splitBytes, dumps);
      var outQ := ResolveQueue(cfg.pagesQueue, default);
      (s.outcome != Forwarded || link == Down ==> Contents(s.queues, outQ) == Contents(qs, outQ)) &&
      (s.nextId == if s.outcome == Forwarded then nextId + 1 else nextId) &&
      (s.slept <==> s.outcome == Forwarded || s.outcome == Failed) &&
      (s.outcome == Forwarded && link == Up ==>
        var out := Contents(s.queues, outQ);
        |out| == |Contents(qs, outQ)| + 1 && out[..|Contents(qs, outQ)|] == Contents(qs, outQ) &&
        out[|out| - 1].Serialized? && "id" in out[|out| - 1].fields &&
        out[|out| - 1].fields["id"] == JStr(IdOf(nextId)) &&
        forall k :: 0 <= k < nextId ==> out[|out| - 1].fields["id"] != JStr(IdOf(k)))
  {
    var outQ := ResolveQueue(cfg.pagesQueue, default);
    var s := LegacyStep(cfg, default, qs, errors, nextId, fault, link, splitBytes, dumps);
    forall k | 0 <= k < nextId
      ensures IdOf(nextId) != IdOf(k)
    {
      IdsDistinct(nextId, k);
    }
    if s.outcome == Forwarded && link == Up {
      assert (Contents(qs, outQ) + [Contents(s.queues, outQ)[|Contents(qs, outQ)|]])[..|Contents(qs, outQ)|] == Contents(qs, outQ);
    }
  }

  /** One iteration of the module-level loop against the module-level gateway. */
  method LookForDocumentMessagesOnce(redis: RedisGateway, fault: Fault, link: Link,
                                     splitBytes: seq<Base64.byte> -> Option<seq<Document>>, dumps: Json -> seq<Base64.byte>)
    returns (outcome: Outcome, slept: bool)
    modifies redis, redis.metrics, redis.ids
    ensures var s := LegacyStep(redis.settings, redis.defaultQueue, old(redis.queues), old(redis.metrics.errors),
                                old(redis.ids.next), fault, link, splitBytes, dumps);
      outcome == s.outcome && slept == s.slept && redis.queues == s.queues &&
      redis.metrics.errors == s.errors && redis.ids.next == s.nextId
  {
    var message, _ := redis.GetMessage(redis.settings.documentsQueue, fault);
    if message.None? {
      return Idle, false;
    }
    var decoded := DecodeMessage(message.value);
    if decoded.None? || |decoded.value| == 0 {
      return Skipped, false;
    }
    var content := GetValue(decoded.value, "content");
    if !content.JStr? || Base64.Decode(content.s).None? {
      return Failed, true;
    }
    var pages := splitBytes(Base64.Decode(content.s).value);
    if pages.None? {
      return Failed, true;
    }
    var id := redis.GenerateMessageId();
    redis.SendIt(redis.settings.pagesQueue, dumps(DocsToJson(pages.value)), JStr(id), link);
    return Forwarded, true;
  }
}
