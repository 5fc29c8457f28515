/**
 * The message envelope the stages exchange through the queues. The helpers
 * that build and read it (`generate_message`, `send_it`, `decode_message`,
 * `is_valid_message`) live on the shared gateway object built in
 * pylon/context.py:13; their bodies are not part of this model, so they are
 * given here the simplest definitions the call sites agree with.
 */
module Envelope {
  import opened Wrappers
  import opened JsonText
  import Base64

  /** A decoded message: a JSON object, field name to value. */
  type Fields = map<string, Json>

  /** A queue item: the serialised form of a message, or text that is not one. */
  datatype Raw = Serialized(fields: Fields) | Corrupt(text: string)

  /** The field names and queue names a deployment configures. */
  datatype Settings = Settings(
    contentField: string,
    contentType: string,
    filesQueue: string,
    documentsQueue: string,
    pagesQueue: string,
    indexField: string)

  /** No two of the message fields a producer writes share a name. */
  predicate DistinctFieldNames(cfg: Settings) {
    var names := ["filename", "id", cfg.contentField, cfg.contentType];
    forall i, j :: 0 <= i < j < |names| ==> names[i] != names[j]
  }

  /**
   * `decode_message`: a serialised message gives its fields back; any
   * other queue item gives nothing.
   */
  function DecodeMessage(r: Raw): (m: Option<Fields>)
    ensures m.Some? <==> r.Serialized?
    ensures m.Some? ==> m.value == r.fields
  {
    match r
    case Serialized(f) => Some(f)
    case Corrupt(_) => None
  }

  /** Python truthiness of a JSON value: `None`, `False`, zero and empty values are false. */
  predicate Truthy(j: Json) {
    match j
    case JNull => false
    case JBool(b) => b
    case JNum(t) => t != "0" && t != "0.0" && t != "-0.0"
    case JStr(s) => |s| > 0
    case JList(items) => |items| > 0
    case JDict(es) => |es| > 0
  }

  /** `dict.get(key)`. */
  function Get(m: Fields, key: string): (r: Option<Json>)
    ensures r.Some? <==> key in m
    ensures r.Some? ==> r.value == m[key]
  {
    if key in m then Some(m[key]) else None
  }

  /** `dict.get(key)` as the stages use it: a missing field reads as `None`. */
  function GetValue(m: Fields, key: string): (v: Json)
    ensures key !in m ==> v == JNull
    ensures key in m ==> v == m[key]
  {
    if key in m then m[key] else JNull
  }

  /** The fields the extractor insists on (gateway/zealot.py:121). */
  function RequiredFields(cfg: Settings): seq<string> {
    ["filename", "id", cfg.contentField, cfg.contentType]
  }

  /** `is_valid_message(m, required)`: every required field is present. */
  predicate IsValidMessage(m: Fields, required: seq<string>) {
    forall i :: 0 <= i < |required| ==> required[i] in m
  }

  /**
   * `generate_message(...)` as the watchers call it: the fresh id, the file
   * name, the Base64 text under the content field and the detected mime
   * type under the content-type field.
   */
  function FileMessage(cfg: Settings, id: string, encoded: string, filename: string, mime: string): Fields {
    map["id" := JStr(id), "filename" := JStr(filename), cfg.contentField := JStr(encoded), cfg.contentType := JStr(mime)]
  }

  /**
   * The message `send_it(queue, content, message_id)` pushes: the id as
   * given and, under the content field, the Base64 text of the serialised
   * content.
   */
  function ContentMessage(cfg: Settings, id: Json, payload: seq<Base64.byte>): Fields {
    map["id" := id, cfg.contentField := JStr(Base64.Encode(payload))]
  }

  /**
   * A message built by a watcher passes the extractor's validation, and
   * each field holds what the watcher put there.
   */
  lemma FileMessageValid(cfg: Settings, id: string, encoded: string, filename: string, mime: string)
    requires DistinctFieldNames(cfg)
    ensures var m := FileMessage(cfg, id, encoded, filename, mime);
      IsValidMessage(m, RequiredFields(cfg)) &&
      m["id"] == JStr(id) && m["filename"] == JStr(filename) &&
      m[cfg.contentField] == JStr(encoded) && m[cfg.contentType] == JStr(mime)
  {
    var names := ["filename", "id", cfg.contentField, cfg.contentType];
    assert names[0] != names[2] && names[0] != names[3] && names[1] != names[2] && names[1] != names[3] && names[2] != names[3];
  }

  /**
   * The content of a message built by `send_it` decodes back to the
   * serialised bytes, and the id is carried as given.
   */
  lemma ContentMessageRoundTrip(cfg: Settings, id: Json, payload: seq<Base64.byte>)
    requires cfg.contentField != "id"
    ensures var m := ContentMessage(cfg, id, payload);
      m["id"] == id && m[cfg.contentField].JStr? &&
      Base64.Decode(m[cfg.contentField].s) == Some(payload)
  {
    Base64.DecodeEncode(payload);
  }
}
