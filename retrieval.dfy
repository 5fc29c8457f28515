/**
 * The question-answering side of robotics-bay/disruptor.py: request
 * validation, the prompt that wraps the retrieved context, the filter that
 * keeps the indexed text of each search hit, and the loop that collects one
 * embedding per text.
 */
module Retrieval {
  import opened Wrappers
  import opened Text
  import opened VectorIndex

  /** The longest question or query a request may carry. */
  const MaxTextLength := 1000

  /** A `/ask` body after validation. */
  datatype QARequest = QARequest(question: string, collection: string, maxContextChunks: int, strictContext: bool)

  /** A chat body after validation. */
  datatype ChatRequest = ChatRequest(query: string, collections: seq<string>)

  /** Why validation refused a body, one entry per offending field. */
  datatype Invalid = Missing(field: string) | BadLength(field: string) | OutOfRange(field: string)

  predicate TextOk(s: string) {
    1 <= |s| <= MaxTextLength
  }

  predicate ValidQA(r: QARequest) {
    TextOk(r.question) && 1 <= r.maxContextChunks <= 20
  }

  /**
   * `QARequest(**body)`: `question` is required with 1 to 1000 characters,
   * `collection` defaults to the configured collection, `max_context_chunks`
   * defaults to 5 and must lie in 1..20, `strict_context` defaults to true.
   * Every offending field is reported.
   */
  function ParseQA(question: Option<string>, collection: Option<string>, maxContextChunks: Option<int>,
                   strictContext: Option<bool>, defaultCollection: string): (r: Result<QARequest, seq<Invalid>>)
    ensures r.Ok? <==> question.Some? && TextOk(question.value) &&
                       (maxContextChunks.None? || 1 <= maxContextChunks.value <= 20)
    ensures r.Ok? ==> ValidQA(r.value) && r.value.question == question.value
    ensures r.Err? ==> |r.error| > 0
    ensures r.Err? ==> (question.None? <==> Missing("question") in r.error)
    ensures r.Err? ==> (question.Some? && !TextOk(question.value) <==> BadLength("question") in r.error)
    ensures r.Err? ==>
      (maxContextChunks.Some? && !(1 <= maxContextChunks.value <= 20) <==> OutOfRange("max_context_chunks") in r.error)
  {
    var questionErrors :=
      if question.None? then [Missing("question")]
      else if !TextOk(question.value) then [BadLength("question")]
      else [];
    var chunkErrors :=
      if maxContextChunks.Some? && !(1 <= maxContextChunks.value <= 20) then [OutOfRange("max_context_chunks")] else [];
    if |questionErrors + chunkErrors| > 0 then Err(questionErrors + chunkErrors)
    else
      Ok(QARequest(question.value,
                   if collection.Some? then collection.value else defaultCollection,
                   if maxContextChunks.Some? then maxContextChunks.value else 5,
                   if strictContext.Some? then strictContext.value else true))
  }

  /** A body carrying only a valid question gets the defaults. */
  lemma ParseQADefaults(question: string, defaultCollection: string)
    requires TextOk(question)
    ensures ParseQA(Some(question), None, None, None, defaultCollection) == Ok(QARequest(question, defaultCollection, 5, true))
  {
  }

  /** A valid request, written out in full, validates back to itself. */
  lemma ParseQARoundTrip(r: QARequest, defaultCollection: string)
    requires ValidQA(r)
    ensures ParseQA(Some(r.question), Some(r.collection), Some(r.maxContextChunks), Some(r.strictContext), defaultCollection) == Ok(r)
  {
  }

  /** `ChatRequest(**body)`: `query` is required with 1 to 1000 characters; `collections` defaults to the configured one. */
  function ParseChat(query: Option<string>, collections: Option<seq<string>>, defaultCollection: string): (r: Result<ChatRequest, seq<Invalid>>)
    ensures r.Ok? <==> query.Some? && TextOk(query.value)
    ensures r.Ok? ==> r.value.query == query.value && TextOk(r.value.query)
    ensures r.Ok? ==> r.value.collections == if collections.Some? then collections.value else [defaultCollection]
    ensures r.Err? ==> r.error == if query.None? then [Missing("query")] else [BadLength("query")]
  {
    if query.None? then Err([Missing("query")])
    else if !TextOk(query.value) then Err([BadLength("query")])
    else Ok(ChatRequest(query.value, if collections.Some? then collections.value else [defaultCollection]))
  }

  /** The separator `build_augmented_prompt` puts between context chunks. */
  const ChunkSeparator := "\n\n"

  /** The prompt up to the context: the rules and the `Context:` header. */
  function PromptHead(rules: string): string {
    "\n" + rules + "\n\nContext:\n"
  }

  /** The prompt after the context: the question and the closing `Answer:`. */
  function PromptTail(question: string): string {
    "\n\nQuestion:\n" + question + "\n\nAnswer:"
  }

  /**
   * `build_augmented_prompt(question, context_chunks, strict)`, with
   * `rules` the configured prompt rules. `strict` takes no part.
   */
  function BuildAugmentedPrompt(rules: string, question: string, chunks: seq<string>, strict: bool): (p: string)
    ensures StartsWith(p, PromptHead(rules)) && EndsWith(p, PromptTail(question))
  {
    var p := PromptHead(rules) + Join(ChunkSeparator, chunks) + PromptTail(question);
    assert p[..|PromptHead(rules)|] == PromptHead(rules);
    assert p[|p| - |PromptTail(question)|..] == PromptTail(question);
    p
  }

  /** What lies between the header and the question is exactly the joined context. */
  lemma PromptContext(rules: string, question: string, chunks: seq<string>, strict: bool)
    ensures var p, h, t := BuildAugmentedPrompt(rules, question, chunks, strict), PromptHead(rules), PromptTail(question);
      |h| + |t| <= |p| && p[|h|..|p| - |t|] == Join(ChunkSeparator, chunks)
  {
    var p, h, t := BuildAugmentedPrompt(rules, question, chunks, strict), PromptHead(rules), PromptTail(question);
    var c := Join(ChunkSeparator, chunks);
    assert p == h + c + t;
    assert p[|h|..|p| - |t|] == c;
  }

  /** Strict or not, the prompt is the same. */
  lemma StrictIgnored(rules: string, question: string, chunks: seq<string>)
    ensures BuildAugmentedPrompt(rules, question, chunks, true) == BuildAugmentedPrompt(rules, question, chunks, false)
  {
  }

  /** A search hit: its payload. */
  datatype Hit = Hit(payload: map<string, string>)

  /** `[hit.payload[field] for hit in results if field in hit.payload]`. */
  function Matches(hits: seq<Hit>, field: string): (r: seq<string>)
    ensures |r| <= |hits|
    decreases |hits|
  {
    if |hits| == 0 then []
    else
      var last := hits[|hits| - 1];
      if field in last.payload then Matches(hits[..|hits| - 1], field) + [last.payload[field]]
      else Matches(hits[..|hits| - 1], field)
  }

  /** The filter works hit by hit: the matches of a concatenation are the concatenated matches. */
  lemma {:induction false} MatchesConcat(a: seq<Hit>, b: seq<Hit>, field: string)
    ensures Matches(a + b, field) == Matches(a, field) + Matches(b, field)
    decreases |b|
  {
    if |b| > 0 {
      var init := b[..|b| - 1];
      assert (a + b)[..|a + b| - 1] == a + init;
      MatchesConcat(a, init, field);
    } else {
      assert a + b == a;
    }
  }

  /** When every hit carries the field, the filter keeps each one, in order. */
  lemma {:induction false} MatchesAll(hits: seq<Hit>, field: string)
    requires forall i :: 0 <= i < |hits| ==> field in hits[i].payload
    ensures |Matches(hits, field)| == |hits|
    ensures forall i :: 0 <= i < |hits| ==> Matches(hits, field)[i] == hits[i].payload[field]
    decreases |hits|
  {
    if |hits| > 0 {
      MatchesAll(hits[..|hits| - 1], field);
    }
  }

  /** Hits without the field contribute nothing. */
  lemma {:induction false} MatchesNone(hits: seq<Hit>, field: string)
    requires forall i :: 0 <= i < |hits| ==> field !in hits[i].payload
    ensures Matches(hits, field) == []
    decreases |hits|
  {
    if |hits| > 0 {
      MatchesNone(hits[..|hits| - 1], field);
    }
  }

  /**
   * Searching points the embedder stored gives back their documents: the
   * payload of each point holds its document under the index field.
   */
  lemma StoredDocumentsComeBack(vectors: seq<Vector>, documents: seq<string>, field: string, firstId: nat)
    requires |vectors| > 0 && |documents| > 0
    ensures var points := GeneratePoints(Some(vectors), documents, field, firstId).value;
      var hits := seq(|points|, i requires 0 <= i < |points| => Hit(points[i].payload));
      Matches(hits, field) == documents[..|points|]
  {
    var points := GeneratePoints(Some(vectors), documents, field, firstId).value;
    var hits := seq(|points|, i requires 0 <= i < |points| => Hit(points[i].payload));
    assert forall i :: 0 <= i < |hits| ==> hits[i].payload == map[field := documents[i]];
    MatchesAll(hits, field);
  }

  /**
   * The embedding endpoint for one text: `None` when the request raises,
   * else the fields of the JSON reply.
   */
  type Embedder = string -> Option<map<string, Vector>>

  predicate EmbedsText(post: Embedder, text: string, field: string) {
    post(text).Some? && field in post(text).value
  }

  /** The embeddings `generate_embeddings` collects: one per text whose reply holds the field, in order. */
  function Embedded(texts: seq<string>, post: Embedder, field: string): (r: seq<Vector>)
    ensures |r| <= |texts|
    decreases |texts|
  {
    if |texts| == 0 then []
    else
      var last := texts[|texts| - 1];
      if EmbedsText(post, last, field) then Embedded(texts[..|texts| - 1], post, field) + [post(last).value[field]]
      else Embedded(texts[..|texts| - 1], post, field)
  }

  /** The positions of the texts that got an embedding. */
  function EmbeddedAt(texts: seq<string>, post: Embedder, field: string): (r: seq<nat>)
    decreases |texts|
  {
    if |texts| == 0 then []
    else if EmbedsText(post, texts[|texts| - 1], field) then EmbeddedAt(texts[..|texts| - 1], post, field) + [|texts| - 1]
    else EmbeddedAt(texts[..|texts| - 1], post, field)
  }

  /**
   * The embeddings are an order-preserving selection of the replies: the
   * `k`-th embedding is that of the `k`-th text that got one, positions
   * increase, and every text whose reply holds the field is among them.
   */
  lemma {:induction false} EmbeddedSelection(texts: seq<string>, post: Embedder, field: string)
    ensures var r, at := Embedded(texts, post, field), EmbeddedAt(texts, post, field);
      |at| == |r| &&
      (forall k :: 0 <= k < |at| ==> at[k] < |texts| && EmbedsText(post, texts[at[k]], field) &&
                                     r[k] == post(texts[at[k]]).value[field]) &&
      (forall k, l :: 0 <= k < l < |at| ==> at[k] < at[l]) &&
      (forall i :: 0 <= i < |texts| && EmbedsText(post, texts[i], field) ==> i in at)
    decreases |texts|
  {
    if |texts| > 0 {
      var init := texts[..|texts| - 1];
      EmbeddedSelection(init, post, field);
      assert forall i :: 0 <= i < |init| ==> init[i] == texts[i];
    }
  }

  /** Every text gets its embedding exactly when every reply holds the field. */
  lemma {:induction false} EmbeddedAll(texts: seq<string>, post: Embedder, field: string)
    ensures |Embedded(texts, post, field)| == |texts| <==> forall i :: 0 <= i < |texts| ==> EmbedsText(post, texts[i], field)
    decreases |texts|
  {
    if |texts| > 0 {
      var init := texts[..|texts| - 1];
      EmbeddedAll(init, post, field);
      assert forall i :: 0 <= i < |init| ==> init[i] == texts[i];
    }
  }

  /**
   * `generate_embeddings(texts)`: one request per text, in order; a reply
   * with the field adds its embedding, a reply without it or a raising
   * request adds nothing. `failed` is the count the closing log reports.
   */
  method GenerateEmbeddings(texts: seq<string>, post: Embedder, field: string) returns (embeddings: seq<Vector>, failed: nat)
    ensures embeddings == Embedded(texts, post, field)
    ensures failed == |texts| - |embeddings|
  {
    embeddings := [];
    for i := 0 to |texts|
      invariant embeddings == Embedded(texts[..i], post, field)
    {
      assert texts[..i + 1][..i] == texts[..i];
      var response := post(texts[i]);
      if response.Some? && field in response.value {
        embeddings := embeddings + [response.value[field]];
      }
    }
    assert texts[..|texts|] == texts;
    failed := |texts| - |embeddings|;
  }

  /** `qdrant.search(query_vector, collection_name)`: `None` when it raises. */
  type Searcher = (Vector, string) -> Option<seq<Hit>>

  /** The matches of every collection in turn, or `None` as soon as one search raises. */
  function Collected(v: Vector, collections: seq<string>, search: Searcher, field: string): (r: Option<seq<string>>)
    decreases |collections|
  {
    if |collections| == 0 then Some([])
    else
      var init, c := collections[..|collections| - 1], collections[|collections| - 1];
      var before := Collected(v, init, search, field);
      if before.None? || search(v, c).None? then None
      else Some(before.value + Matches(search(v, c).value, field))
  }

  /** The collection pass fails exactly when one of its searches raises. */
  lemma {:induction false} CollectedFails(v: Vector, collections: seq<string>, search: Searcher, field: string)
    ensures Collected(v, collections, search, field).None? <==>
            exists i :: 0 <= i < |collections| && search(v, collections[i]).None?
    decreases |collections|
  {
    if |collections| > 0 {
      var init := collections[..|collections| - 1];
      CollectedFails(v, init, search, field);
      assert forall i :: 0 <= i < |init| ==> init[i] == collections[i];
    }
  }

  /**
   * `get_context_chunks(question, collections)`: the question's embedding
   * (an `IndexError` when there is none, which the handler turns into `[]`),
   * then the matches of each collection; any raising search gives `[]`.
   */
  function ContextChunks(question: string, collections: seq<string>, post: Embedder, embedField: string,
                         search: Searcher, field: string): seq<string>
  {
    var e := Embedded([question], post, embedField);
    if |e| == 0 then []
    else
      var c := Collected(e[0], collections, search, field);
      if c.None? then [] else c.value
  }

  /** Without the question's embedding, or with one raising search, the context is empty. */
  lemma ContextAllOrNothing(question: string, collections: seq<string>, post: Embedder, embedField: string,
                            search: Searcher, field: string)
    ensures !EmbedsText(post, question, embedField) ==> ContextChunks(question, collections, post, embedField, search, field) == []
    ensures EmbedsText(post, question, embedField) &&
            (exists i :: 0 <= i < |collections| && search(post(question).value[embedField], collections[i]).None?) ==>
            ContextChunks(question, collections, post, embedField, search, field) == []
  {
    assert [question][..0] == [];
    if EmbedsText(post, question, embedField) {
      CollectedFails(post(question).value[embedField], collections, search, field);
    }
  }

  /** With one collection whose search succeeds, the context is the matches of its hits. */
  lemma ContextOfOneCollection(question: string, collection: string, post: Embedder, embedField: string,
                               search: Searcher, field: string)
    requires EmbedsText(post, question, embedField)
    requires search(post(question).value[embedField], collection).Some?
    ensures ContextChunks(question, [collection], post, embedField, search, field) ==
            Matches(search(post(question).value[embedField], collection).value, field)
  {
    assert [question][..0] == [];
    var v := post(question).value[embedField];
    assert Embedded([question], post, embedField) == [v];
    assert [collection][..0] == [];
    assert Collected(v, [], search, field) == Some([]);
    assert Collected(v, [collection], search, field) == Some([] + Matches(search(v, collection).value, field));
  }

  /** The context for several collections is their contexts one after the other. */
  lemma {:induction false} ContextConcat(v: Vector, cs: seq<string>, ds: seq<string>, search: Searcher, field: string)
    requires Collected(v, cs, search, field).Some? && Collected(v, ds, search, field).Some?
    ensures Collected(v, cs + ds, search, field) ==
            Some(Collected(v, cs, search, field).value + Collected(v, ds, search, field).value)
    decreases |ds|
  {
    if |ds| == 0 {
      assert cs + ds == cs;
      assert Collected(v, ds, search, field).value == [];
      assert Collected(v, cs, search, field).value + [] == Collected(v, cs, search, field).value;
    } else {
      var init, last := ds[..|ds| - 1], ds[|ds| - 1];
      assert (cs + ds)[..|cs + ds| - 1] == cs + init;
      assert (cs + ds)[|cs + ds| - 1] == last;
      var hits := Matches(search(v, last).value, field);
      assert Collected(v, ds, search, field).value == Collected(v, init, search, field).value + hits;
      ContextConcat(v, cs, init, search, field);
      assert Collected(v, cs + ds, search, field).value == Collected(v, cs + init, search, field).value + hits;
      var a, b := Collected(v, cs, search, field).value, Collected(v, init, search, field).value;
      assert (a + b) + hits == a + (b + hits);
    }
  }

  /** `get_context_chunks`, with the loop over the collections. */
  method GetContextChunks(question: string, collections: seq<string>, post: Embedder, embedField: string,
                          search: Searcher, field: string) returns (chunks: seq<string>)
    ensures chunks == ContextChunks(question, collections, post, embedField, search, field)
  {
    var embeddings, _ := GenerateEmbeddings([question], post, embedField);
    if |embeddings| == 0 {
      return [];
    }
    var v := embeddings[0];
    var all: seq<string> := [];
    for i := 0 to |collections|
      invariant Collected(v, collections[..i], search, field) == Some(all)
    {
      assert collections[..i + 1][..i] == collections[..i];
      var results := search(v, collections[i]);
      if results.None? {
        assert collections[..|collections|] == collections;
        CollectedFails(v, collections, search, field);
        return [];
      }
      all := all + Matches(results.value, field);
    }
    assert collections[..|collections|] == collections;
    chunks := all;
  }
}
