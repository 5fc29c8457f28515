/**
 * The `Document` records the stages pass along (langchain's page text plus
 * metadata), how a stage turns a decoded JSON value back into documents, and
 * Python's iteration over a decoded value.
 */
module Documents {
  import opened Wrappers
  import opened Text
  import opened JsonText

  /** A page of text with its metadata. */
  datatype Document = Document(pageContent: string, metadata: seq<Entry>)

  /** The JSON object a document is serialised to inside a message. */
  function DocToJson(d: Document): Json {
    JDict([Entry("page_content", JStr(d.pageContent)), Entry("metadata", JDict(d.metadata))])
  }

  /** A list of documents as one JSON list. */
  function DocsToJson(ds: seq<Document>): (j: Json)
    ensures j.JList? && |j.items| == |ds|
    ensures forall i :: 0 <= i < |ds| ==> j.items[i] == DocToJson(ds[i])
  {
    JList(seq(|ds|, i requires 0 <= i < |ds| => DocToJson(ds[i])))
  }

  /**
   * `Document(**d)`: the page text must be a string; the metadata, when
   * present, must be an object; other keys are ignored.
   */
  function DocFromDict(es: seq<Entry>): Option<Document> {
    match Lookup(es, "page_content")
    case Some(JStr(text)) =>
      (match Lookup(es, "metadata")
       case None => Some(Document(text, []))
       case Some(JDict(meta)) => Some(Document(text, meta))
       case Some(_) => None)
    case _ => None
  }

  /** A serialised document reads back as itself. */
  lemma DocRoundTrip(d: Document)
    ensures DocToJson(d).JDict? && DocFromDict(DocToJson(d).entries) == Some(d)
  {
    var es := DocToJson(d).entries;
    assert es[0].key == "page_content";
    assert es[1].key == "metadata" && es[1].key != "page_content";
    assert Lookup(es[1..], "metadata") == Some(JDict(d.metadata));
  }

  /**
   * `for d in value`: a list yields its items, an object its keys and a
   * string its characters; anything else is not iterable.
   */
  function Iterate(j: Json): (r: Option<seq<Json>>)
    ensures j.JList? ==> r == Some(j.items)
    ensures j.JStr? ==> r.Some? && |r.value| == |j.s| && forall i :: 0 <= i < |j.s| ==> r.value[i] == JStr([j.s[i]])
    ensures j.JDict? ==> r.Some? && |r.value| == |j.entries| && forall i :: 0 <= i < |j.entries| ==> r.value[i] == JStr(j.entries[i].key)
    ensures r.None? <==> !j.JList? && !j.JStr? && !j.JDict?
  {
    match j
    case JList(items) => Some(items)
    case JDict(es) => Some(seq(|es|, i requires 0 <= i < |es| => JStr(es[i].key)))
    case JStr(s) => Some(seq(|s|, i requires 0 <= i < |s| => JStr([s[i]])))
    case _ => None
  }

  /**
   * One element of the chunker's comprehension: `Document(**d)` for an
   * object, `Document(page_content=str(d))` for anything else.
   */
  function Normalise(x: Json): Option<Document> {
    if x.JDict? then DocFromDict(x.entries) else Some(Document(PyStr(x), []))
  }

  /** The whole comprehension: fails as soon as one element fails. */
  function NormaliseAll(xs: seq<Json>): (r: Option<seq<Document>>)
    ensures r.Some? <==> forall i :: 0 <= i < |xs| ==> Normalise(xs[i]).Some?
    ensures r.Some? ==> |r.value| == |xs| && forall i :: 0 <= i < |xs| ==> Normalise(xs[i]) == Some(r.value[i])
    decreases |xs|
  {
    if |xs| == 0 then Some([])
    else
      match Normalise(xs[0])
      case None => None
      case Some(d) =>
        match NormaliseAll(xs[1..])
        case None =>
          assert exists i :: 1 <= i < |xs| && Normalise(xs[i]).None? by {
            var k :| 0 <= k < |xs[1..]| && Normalise(xs[1..][k]).None?;
            assert xs[1..][k] == xs[k + 1];
          }
          None
        case Some(ds) =>
          assert forall i :: 1 <= i < |xs| ==> xs[i] == xs[1..][i - 1];
          Some([d] + ds)
  }

  /**
   * One element of the embedder's comprehension: `Document(**page)`, which
   * needs an object.
   */
  function FromPage(x: Json): Option<Document> {
    if x.JDict? then DocFromDict(x.entries) else None
  }

  function FromPages(xs: seq<Json>): (r: Option<seq<Document>>)
    ensures r.Some? <==> forall i :: 0 <= i < |xs| ==> FromPage(xs[i]).Some?
    ensures r.Some? ==> |r.value| == |xs| && forall i :: 0 <= i < |xs| ==> FromPage(xs[i]) == Some(r.value[i])
  {
    if forall i :: 0 <= i < |xs| ==> FromPage(xs[i]).Some?
    then Some(seq(|xs|, i requires 0 <= i < |xs| => FromPage(xs[i]).value))
    else None
  }

  /** A list of serialised documents reads back as the same documents, in order. */
  lemma DocsRoundTrip(ds: seq<Document>)
    ensures Iterate(DocsToJson(ds)).Some?
    ensures NormaliseAll(Iterate(DocsToJson(ds)).value) == Some(ds)
    ensures FromPages(Iterate(DocsToJson(ds)).value) == Some(ds)
  {
    var xs := Iterate(DocsToJson(ds)).value;
    forall i | 0 <= i < |ds|
      ensures Normalise(xs[i]) == Some(ds[i]) && FromPage(xs[i]) == Some(ds[i])
    {
      DocRoundTrip(ds[i]);
    }
    var r := NormaliseAll(xs).value;
    assert r == ds;
    var p := FromPages(xs).value;
    assert p == ds;
  }

  /**
   * A string where the chunker expects a list is iterated character by
   * character: each character becomes a document of its own.
   */
  lemma StringBecomesCharacters(s: string)
    ensures Iterate(JStr(s)).Some?
    ensures var r := NormaliseAll(Iterate(JStr(s)).value);
      r.Some? && |r.value| == |s| &&
      forall i :: 0 <= i < |s| ==> r.value[i] == Document([s[i]], [])
  {
    var xs := Iterate(JStr(s)).value;
    forall i | 0 <= i < |s|
      ensures Normalise(xs[i]) == Some(Document([s[i]], []))
    {
      assert xs[i] == JStr([s[i]]);
    }
  }
}
