/**
 * The extractor stage of gateway/zealot.py: the dispatch on the file
 * extension, the wrapper that turns failures into a recorded error, and one
 * iteration of the loop that pops file messages and pushes documents.
 */
module Extractor {
  import opened Wrappers
  import opened Text
  import opened JsonText
  import opened Envelope
  import opened QueueStore
  import opened Documents
  import Base64

  /**
   * The libraries the extractor calls: the PDF loader, `bytes.decode` with
   * the configured encoding and `json.loads`; `None` where they raise.
   */
  datatype Readers = Readers(
    loadPdf: seq<Base64.byte> -> Option<seq<Document>>,
    decode: seq<Base64.byte> -> Option<string>,
    parseJson: string -> Option<Json>)

  /** The reasons `ProcessingError` is raised with. */
  datatype ProcessingError = PdfKo | TextKo | JsonKo | JsonDecodeKo | UnsupportedType(ext: string)

  /** What `extract_documents` returns: the PDF loader's pages, or one text. */
  datatype Extraction = Pages(docs: seq<Document>) | Text(text: string)

  /** Python truthiness of an extraction: an empty list or string is false. */
  predicate IsEmpty(e: Extraction) {
    match e
    case Pages(ds) => |ds| == 0
    case Text(t) => |t| == 0
  }

  /** The JSON value `send_it` serialises for an extraction. */
  function ExtractionJson(e: Extraction): Json {
    match e
    case Pages(ds) => DocsToJson(ds)
    case Text(t) => JStr(t)
  }

  /** `PurePath.suffix` of a name: from its last dot, unless that dot starts or ends the name. */
  function Suffix(name: string): (r: string)
    ensures r == "" || (r[0] == '.' && '.' !in r[1..] && |r| >= 2 && |r| < |name| && EndsWith(name, r))
    ensures forall k :: 0 < k < |name| - 1 && name[k] == '.' && '.' !in name[k + 1..] ==> r == name[k..]
  {
    var i := RFind(name, '.');
    if 0 < i < |name| - 1 then name[i..] else ""
  }

  /** `Path(filename).suffix.lower()`. */
  function ExtensionOf(filename: string): string {
    Lower(Suffix(BaseName(filename)))
  }

  lemma LowerSlice(s: string, i: nat)
    requires i <= |s|
    ensures Lower(s)[i..] == Lower(s[i..])
  {
  }

  /** Lower-casing does not move a dot or a slash. */
  lemma {:induction false} RFindLower(s: string, c: char)
    requires c == '.' || c == '/'
    ensures RFind(Lower(s), c) == RFind(s, c)
    decreases |s|
  {
    if |s| > 0 {
      assert Lower(s)[..|s| - 1] == Lower(s[..|s| - 1]);
      RFindLower(s[..|s| - 1], c);
    }
  }

  /** Lower-casing commutes with taking the base name. */
  lemma BaseNameLower(filename: string)
    ensures BaseName(Lower(filename)) == Lower(BaseName(filename))
  {
    RFindLower(filename, '/');
    LowerSlice(filename, RFind(filename, '/') + 1);
  }

  /** Lower-casing commutes with taking the suffix. */
  lemma SuffixLower(name: string)
    ensures Suffix(Lower(name)) == Lower(Suffix(name))
  {
    RFindLower(name, '.');
    var i := RFind(name, '.');
    if 0 < i < |name| - 1 {
      LowerSlice(name, i);
    }
  }

  /** The extension, and so the whole dispatch, does not depend on the case of the file name. */
  lemma ExtensionIgnoresCase(filename: string)
    ensures ExtensionOf(Lower(filename)) == ExtensionOf(filename)
  {
    BaseNameLower(filename);
    SuffixLower(BaseName(filename));
    LowerIdempotent(Suffix(BaseName(filename)));
  }

  /**
   * `extract_documents(file_bytes, filename)`: `.pdf` goes to the PDF
   * loader, `.txt` and `.md` are decoded as text, `.json` is decoded,
   * parsed and printed with `json_to_text`; every failure and every other
   * extension is a `ProcessingError`.
   */
  function ExtractDocuments(bytes: seq<Base64.byte>, filename: string, rd: Readers): Result<Extraction, ProcessingError> {
    Dispatch(bytes, ExtensionOf(filename), rd)
  }

  /** The branch of `extract_documents` taken for the lower-cased extension `ext`. */
  function Dispatch(bytes: seq<Base64.byte>, ext: string, rd: Readers): Result<Extraction, ProcessingError> {
    if ext == ".pdf" then
      match rd.loadPdf(bytes)
      case None => Err(PdfKo)
      case Some(ds) => Ok(Pages(ds))
    else if ext == ".txt" || ext == ".md" then
      match rd.decode(bytes)
      case None => Err(TextKo)
      case Some(t) => Ok(Text(t))
    else if ext == ".json" then
      match rd.decode(bytes)
      case None => Err(JsonDecodeKo)
      case Some(t) =>
        match rd.parseJson(t)
        case None => Err(JsonKo)
        case Some(obj) => Ok(Text(JsonToText(obj, 0)))
    else Err(UnsupportedType(ext))
  }

  /** The four supported extensions. */
  predicate Supported(ext: string) {
    ext == ".pdf" || ext == ".txt" || ext == ".md" || ext == ".json"
  }

  /** Any extension but the four supported ones is refused with that extension. */
  lemma DispatchUnsupported(bytes: seq<Base64.byte>, ext: string, rd: Readers)
    ensures Dispatch(bytes, ext, rd) == Err(UnsupportedType(ext)) <==> !Supported(ext)
  {
  }

  /** Only the four supported extensions are dispatched; any other is refused with that extension. */
  lemma ExtractUnsupported(bytes: seq<Base64.byte>, filename: string, rd: Readers)
    ensures ExtractDocuments(bytes, filename, rd) == Err(UnsupportedType(ExtensionOf(filename))) <==> !Supported(ExtensionOf(filename))
  {
    DispatchUnsupported(bytes, ExtensionOf(filename), rd);
  }

  /** Only the `.pdf` branch yields pages. */
  lemma DispatchPages(bytes: seq<Base64.byte>, ext: string, rd: Readers)
    ensures var r := Dispatch(bytes, ext, rd);
      (r.Ok? && r.value.Pages? <==> ext == ".pdf" && rd.loadPdf(bytes).Some?) &&
      (r.Ok? && r.value.Pages? ==> r.value.docs == rd.loadPdf(bytes).value)
  {
  }

  /** A name in a sub-folder with an upper-case `.PDF` suffix goes to the PDF loader. */
  lemma ReportPdfIsPdf(bytes: seq<Base64.byte>, rd: Readers)
    ensures ExtensionOf("dir/Report.PDF") == ".pdf"
    ensures var r := ExtractDocuments(bytes, "dir/Report.PDF", rd);
      (r.Ok? && r.value.Pages? <==> rd.loadPdf(bytes).Some?) &&
      (r.Ok? ==> r.value == Pages(rd.loadPdf(bytes).value))
  {
    var f := "dir/Report.PDF";
    assert f[3] == '/';
    assert RFind(f, '/') == 3;
    var b := BaseName(f);
    assert b == "Report.PDF";
    assert b[6] == '.' && b[7..] == "PDF";
    assert Suffix(b) == ".PDF";
    assert Lower(".PDF") == ".pdf";
    DispatchPages(bytes, ".pdf", rd);
  }

  /** Pages come only from a PDF file, and they are the loader's pages. */
  lemma ExtractPages(bytes: seq<Base64.byte>, filename: string, rd: Readers)
    ensures var r := ExtractDocuments(bytes, filename, rd);
      (r.Ok? && r.value.Pages? <==> ExtensionOf(filename) == ".pdf" && rd.loadPdf(bytes).Some?) &&
      (r.Ok? && r.value.Pages? ==> r.value.docs == rd.loadPdf(bytes).value)
  {
    DispatchPages(bytes, ExtensionOf(filename), rd);
  }

  /** A `.txt` or `.md` file gives its decoded text, and fails exactly when decoding fails. */
  lemma ExtractPlainText(bytes: seq<Base64.byte>, filename: string, rd: Readers)
    requires ExtensionOf(filename) == ".txt" || ExtensionOf(filename) == ".md"
    ensures var r := ExtractDocuments(bytes, filename, rd);
      (r.Ok? <==> rd.decode(bytes).Some?) &&
      (r.Ok? ==> r.value == Text(rd.decode(bytes).value)) &&
      (r.Err? ==> r.error == TextKo)
  {
    var ext := ExtensionOf(filename);
    assert Dispatch(bytes, ext, rd) == if rd.decode(bytes).None? then Err(TextKo) else Ok(Text(rd.decode(bytes).value));
  }

  /**
   * A `.json` file gives the `json_to_text` rendering of the parsed value;
   * a decoding failure and a parse failure are told apart.
   */
  lemma ExtractJson(bytes: seq<Base64.byte>, filename: string, rd: Readers)
    requires ExtensionOf(filename) == ".json"
    ensures var r := ExtractDocuments(bytes, filename, rd);
      (rd.decode(bytes).None? ==> r == Err(JsonDecodeKo)) &&
      (rd.decode(bytes).Some? && rd.parseJson(rd.decode(bytes).value).None? ==> r == Err(JsonKo)) &&
      (r.Ok? ==> rd.decode(bytes).Some? && rd.parseJson(rd.decode(bytes).value).Some? &&
                 r.value == Text(JsonToText(rd.parseJson(rd.decode(bytes).value).value, 0)))
  {
    var ext := ExtensionOf(filename);
    assert ext != ".pdf" && ext != ".txt" && ext != ".md";
  }

  /** The dispatch does not depend on the case of the file name. */
  lemma ExtractIgnoresCase(bytes: seq<Base64.byte>, filename: string, rd: Readers)
    ensures ExtractDocuments(bytes, Lower(filename), rd) == ExtractDocuments(bytes, filename, rd)
  {
    ExtensionIgnoresCase(filename);
  }

  /** What `read_documents_from_message` returns and the error it records. */
  datatype Read = Read(docs: Option<Extraction>, error: Option<ErrorType>)

  /**
   * `read_documents_from_message`: a non-empty extraction passes through;
   * an empty one records `EXTRACTOR_READ_KO`, and any exception (a file
   * name that is not a string, a `ProcessingError`) records
   * `EXTRACTOR_READ_EXCEPTION`; both give `None`.
   */
  function ReadDocuments(filename: Json, bytes: seq<Base64.byte>, rd: Readers): Read {
    if !filename.JStr? then Read(None, Some(ExtractorReadException))
    else
      match ExtractDocuments(bytes, filename.s, rd)
      case Err(_) => Read(None, Some(ExtractorReadException))
      case Ok(e) => if IsEmpty(e) then Read(None, Some(ExtractorReadKo)) else Read(Some(e), None)
  }

  /** Exactly one error is recorded when, and only when, no documents come back. */
  lemma ReadDocumentsRecords(filename: Json, bytes: seq<Base64.byte>, rd: Readers)
    ensures var r := ReadDocuments(filename, bytes, rd);
      (r.docs.None? <==> r.error.Some?) &&
      (r.docs.Some? ==> !IsEmpty(r.docs.value) && filename.JStr? && ExtractDocuments(bytes, filename.s, rd) == Ok(r.docs.value))
  {
    if filename.JStr? {
      var x := ExtractDocuments(bytes, filename.s, rd);
      var r := ReadDocuments(filename, bytes, rd);
      if x.Ok? && !IsEmpty(x.value) {
        assert r == Read(Some(x.value), None);
      } else {
        assert r.docs.None? && r.error.Some?;
      }
    }
  }

  /** What the extractor decides for one popped item. */
  datatype Verdict =
    | Drop(recorded: Option<ErrorType>)
    | Raise
    | Forward(recorded: Option<ErrorType>, id: Json, content: Json)

  /**
   * The body of the loop after the pop: decode, validate, Base64-decode the
   * content (which raises on anything but valid Base64 text), extract, and
   * forward under the incoming id.
   */
  function HandleFileMessage(cfg: Settings, raw: Raw, rd: Readers): Verdict {
    var decoded := DecodeMessage(raw);
    if decoded.None? || |decoded.value| == 0 then Drop(None)
    else
      var m := decoded.value;
      if !IsValidMessage(m, RequiredFields(cfg)) then Drop(None)
      else
        var content := GetValue(m, cfg.contentField);
        if !content.JStr? || Base64.Decode(content.s).None? then Raise
        else
          var read := ReadDocuments(GetValue(m, "filename"), Base64.Decode(content.s).value, rd);
          if read.docs.None? then Drop(read.error)
          else Forward(read.error, GetValue(m, "id"), ExtractionJson(read.docs.value))
  }

  /**
   * One iteration of `look_for_file_messages`. The `continue` paths end the
   * iteration without the `check_interval` sleep; a forward and a caught
   * exception end with it.
   */
  function ExtractStep(cfg: Settings, default: string, qs: Queues, errors: Counters, nextId: nat, fault: Fault, link: Link,
                       rd: Readers, dumps: Json -> seq<Base64.byte>): StepResult
  {
    var g := GetStep(qs, errors, ResolveQueue(cfg.filesQueue, default), fault);
    if g.message.None? then StepResult(Idle, g.queues, g.errors, nextId, false)
    else
      match HandleFileMessage(cfg, g.message.value, rd)
      case Drop(e) => StepResult(Skipped, g.queues, if e.Some? then Recorded(g.errors, e.value) else g.errors, nextId, false)
      case Raise => StepResult(Failed, g.queues, g.errors, nextId, true)
      case Forward(e, id, content) =>
        var out := ResolveQueue(cfg.documentsQueue, default);
        var qs1 := if link == Up then Push(g.queues, out, Serialized(ContentMessage(cfg, id, dumps(content)))) else g.queues;
        StepResult(Forwarded, qs1, if e.Some? then Recorded(g.errors, e.value) else g.errors, nextId, true)
  }

  /** The documents message keeps the id of the file message it came from. */
  lemma ForwardKeepsId(cfg: Settings, m: Fields, rd: Readers)
    ensures var v := HandleFileMessage(cfg, Serialized(m), rd);
      v.Forward? ==>
        (v.id == GetValue(m, "id") && IsValidMessage(m, RequiredFields(cfg)) &&
         v.recorded.None? && GetValue(m, cfg.contentField).JStr? &&
         Base64.Decode(GetValue(m, cfg.contentField).s).Some?)
  {
  }

  /**
   * One iteration pushes at most one message, to the documents queue only,
   * and only on a forward; a message that fails at any step leaves the
   * documents queue as it was.
   */
  lemma ExtractStepOutput(cfg: Settings, default: string, qs: Queues, errors: Counters, nextId: nat, fault: Fault, link: Link,
                          rd: Readers, dumps: Json -> seq<Base64.byte>)
    requires ResolveQueue(cfg.filesQueue, default) != ResolveQueue(cfg.documentsQueue, default)
    ensures var s := ExtractStep(cfg, default, qs, errors, nextId, fault, link, rd, dumps);
      var inQ, outQ := ResolveQueue(cfg.filesQueue, default), ResolveQueue(cfg.documentsQueue, default);
      (s.outcome != Forwarded || link == Down ==> Contents(s.queues, outQ) == Contents(qs, outQ)) &&
      (s.outcome == Forwarded && link == Up ==>
        |Contents(s.queues, outQ)| == |Contents(qs, outQ)| + 1 &&
        Contents(s.queues, outQ)[..|Contents(qs, outQ)|] == Contents(qs, outQ)) &&
      (forall q :: q != inQ && q != outQ ==> Contents(s.queues, q) == Contents(qs, q)) &&
      (s.outcome == Forwarded ==> Contents(qs, inQ) != [] && Contents(s.queues, inQ) == Contents(qs, inQ)[1..])
  {
    var inQ, outQ := ResolveQueue(cfg.filesQueue, default), ResolveQueue(cfg.documentsQueue, default);
    var s := ExtractStep(cfg, default, qs, errors, nextId, fault, link, rd, dumps);
    if s.outcome == Forwarded && link == Up {
      assert (Contents(qs, outQ) + [Contents(s.queues, outQ)[|Contents(qs, outQ)|]])[..|Contents(qs, outQ)|] == Contents(qs, outQ);
    }
  }

  /**
   * A forward pushes the documents message under the `message_id` of the
   * file message it popped, takes no id from the id source, and its content
   * decodes back to the serialised extraction.
   */
  lemma ExtractStepKeepsId(cfg: Settings, default: string, qs: Queues, errors: Counters, nextId: nat, fault: Fault, link: Link,
                           rd: Readers, dumps: Json -> seq<Base64.byte>)
    requires cfg.contentField != "id"
    ensures var s := ExtractStep(cfg, default, qs, errors, nextId, fault, link, rd, dumps);
      var inQ, outQ := ResolveQueue(cfg.filesQueue, default), ResolveQueue(cfg.documentsQueue, default);
      (s.nextId == nextId) &&
      (s.outcome == Forwarded ==> fault == NoFault && Contents(qs, inQ) != [] && Contents(qs, inQ)[0].Serialized?) &&
      (s.outcome == Forwarded && link == Up ==>
        var v := HandleFileMessage(cfg, Contents(qs, inQ)[0], rd);
        var out := Contents(s.queues, outQ);
        v.Forward? && |out| > 0 && out[|out| - 1].Serialized? &&
        "id" in out[|out| - 1].fields && out[|out| - 1].fields["id"] == GetValue(Contents(qs, inQ)[0].fields, "id") &&
        cfg.contentField in out[|out| - 1].fields && out[|out| - 1].fields[cfg.contentField].JStr? &&
        Base64.Decode(out[|out| - 1].fields[cfg.contentField].s) == Some(dumps(v.content)))
  {
    var inQ, outQ := ResolveQueue(cfg.filesQueue, default), ResolveQueue(cfg.documentsQueue, default);
    var s := ExtractStep(cfg, default, qs, errors, nextId, fault, link, rd, dumps);
    if s.outcome == Forwarded {
      var raw := Contents(qs, inQ)[0];
      var v := HandleFileMessage(cfg, raw, rd);
      assert v.Forward?;
      ForwardKeepsId(cfg, raw.fields, rd);
      ContentMessageRoundTrip(cfg, v.id, dumps(v.content));
      if link == Up {
        assert Contents(s.queues, outQ)[|Contents(s.queues, outQ)| - 1] == Serialized(ContentMessage(cfg, v.id, dumps(v.content)));
      }
    }
  }

  /** The `continue` paths skip the sleep; a forward and a caught exception do not. */
  lemma ExtractStepSleeps(cfg: Settings, default: string, qs: Queues, errors: Counters, nextId: nat, fault: Fault, link: Link,
                          rd: Readers, dumps: Json -> seq<Base64.byte>)
    ensures var s := ExtractStep(cfg, default, qs, errors, nextId, fault, link, rd, dumps);
      s.slept <==> s.outcome == Forwarded || s.outcome == Failed
  {
  }

  /**
   * A text file message travels whole: for `{"id": "t1", "content":
   * "SGVsbG8=", "content_type": "text/plain", "filename": "a.txt"}` the
   * extractor forwards the text `Hello` under id `t1`.
   */
  lemma HelloScenario(rd: Readers)
    requires rd.decode([72, 101, 108, 108, 111]) == Some("Hello")
    ensures var cfg := Settings("content", "content_type", "files", "documents", "pages", "text");
      var m := map["id" := JStr("t1"), "content" := JStr("SGVsbG8="), "content_type" := JStr("text/plain"), "filename" := JStr("a.txt")];
      HandleFileMessage(cfg, Serialized(m), rd) == Forward(None, JStr("t1"), JStr("Hello"))
  {
    var cfg := Settings("content", "content_type", "files", "documents", "pages", "text");
    var m := map["id" := JStr("t1"), "content" := JStr("SGVsbG8="), "content_type" := JStr("text/plain"), "filename" := JStr("a.txt")];
    assert GetValue(m, "content") == JStr("SGVsbG8=");
    assert GetValue(m, "filename") == JStr("a.txt");
    assert GetValue(m, "id") == JStr("t1");
    assert IsValidMessage(m, RequiredFields(cfg));
    HelloBytes();
    HelloRead(rd);
  }

  lemma HelloRead(rd: Readers)
    requires rd.decode([72, 101, 108, 108, 111]) == Some("Hello")
    ensures ReadDocuments(JStr("a.txt"), [72, 101, 108, 108, 111], rd) == Read(Some(Text("Hello")), None)
  {
    HelloExtension();
    ReadPlainText("a.txt", [72, 101, 108, 108, 111], rd);
  }

  /** A non-empty text file is read without recording an error. */
  lemma ReadPlainText(filename: string, bytes: seq<Base64.byte>, rd: Readers)
    requires ExtensionOf(filename) == ".txt" || ExtensionOf(filename) == ".md"
    requires rd.decode(bytes).Some? && |rd.decode(bytes).value| > 0
    ensures ReadDocuments(JStr(filename), bytes, rd) == Read(Some(Text(rd.decode(bytes).value)), None)
  {
    ExtractPlainText(bytes, filename, rd);
  }

  lemma HelloBytes()
    ensures Base64.Decode("SGVsbG8=") == Some([72, 101, 108, 108, 111])
  {
    var bytes: seq<Base64.byte> := [72, 101, 108, 108, 111];
    var rest: seq<Base64.byte> := [108, 111];
    assert bytes[3..] == rest;
    assert Base64.EncodeGroup(72, 101, 108) == "SGVs";
    assert Base64.Encode(rest) == "bG8=";
    assert Base64.Encode(bytes) == "SGVsbG8=";
    Base64.DecodeEncode(bytes);
  }

  lemma HelloExtension()
    ensures ExtensionOf("a.txt") == ".txt"
  {
    var s := "a.txt";
    assert s[0] == 'a' && s[1] == '.' && s[2] == 't' && s[3] == 'x' && s[4] == 't';
    var slash := RFind(s, '/');
    assert forall k :: 0 <= k < |s| ==> s[k] != '/';
    assert slash == -1;
    assert BaseName(s) == s;
    var dot := RFind(s, '.');
    assert forall k :: 1 < k < |s| ==> s[k] != '.';
    assert dot == 1;
    var ext := s[1..];
    assert Suffix(s) == ext;
    assert ext[0] == '.' && ext[1] == 't' && ext[2] == 'x' && ext[3] == 't';
    assert Lower(ext) == ext;
  }

  /** The extractor service: one iteration of its loop against the shared gateway. */
  class ExtractorService {
    const redis: RedisGateway

    constructor(redis: RedisGateway)
      ensures this.redis == redis
    {
      this.redis := redis;
    }

    /** `read_documents_from_message`, recording its error in the shared counters. */
    method ReadDocumentsFromMessage(filename: Json, bytes: seq<Base64.byte>, rd: Readers) returns (docs: Option<Extraction>)
      modifies redis.metrics
      ensures var r := ReadDocuments(filename, bytes, rd);
        docs == r.docs &&
        redis.metrics.errors == if r.error.Some? then Recorded(old(redis.metrics.errors), r.error.value) else old(redis.metrics.errors)
    {
      var r := ReadDocuments(filename, bytes, rd);
      if r.error.Some? {
        redis.metrics.errors := Recorded(redis.metrics.errors, r.error.value);
      }
      docs := r.docs;
    }

    /** One iteration of `look_for_file_messages`. */
    method LookForFileMessagesOnce(fault: Fault, link: Link, rd: Readers, dumps: Json -> seq<Base64.byte>) returns (outcome: Outcome, slept: bool)
      modifies redis, redis.metrics
      ensures var s := ExtractStep(redis.settings, redis.defaultQueue, old(redis.queues), old(redis.metrics.errors), redis.ids.next, fault, link, rd, dumps);
        outcome == s.outcome && slept == s.slept && redis.queues == s.queues && redis.metrics.errors == s.errors
    {
      var cfg := redis.settings;
      var message, _ := redis.GetMessage(cfg.filesQueue, fault);
      if message.None? {
        return Idle, false;
      }
      ghost var verdict := HandleFileMessage(cfg, message.value, rd);
      var decoded := DecodeMessage(message.value);
      if decoded.None? || |decoded.value| == 0 {
        assert verdict == Drop(None);
        return Skipped, false;
      }
      var m := decoded.value;
      if !IsValidMessage(m, RequiredFields(cfg)) {
        assert verdict == Drop(None);
        return Skipped, false;
      }
      var content := GetValue(m, cfg.contentField);
      if !content.JStr? || Base64.Decode(content.s).None? {
        assert verdict == Raise;
        return Failed, true;
      }
      var bytes := Base64.Decode(content.s).value;
      ghost var read := ReadDocuments(GetValue(m, "filename"), bytes, rd);
      var docs := ReadDocumentsFromMessage(GetValue(m, "filename"), bytes, rd);
      if docs.None? {
        assert verdict == Drop(read.error);
        return Skipped, false;
      }
      assert verdict == Forward(read.error, GetValue(m, "id"), ExtractionJson(docs.value));
      redis.SendIt(cfg.documentsQueue, dumps(ExtractionJson(docs.value)), GetValue(m, "id"), link);
      return Forwarded, true;
    }
  }
}
