/**
 * The vector-store gateway of pylon/warp_prism.py: point building over
 * `zip(vectors, documents)`, the lazily created client, the guards that
 * make collection set-up a no-op without a client, and `add_points`.
 */
module VectorIndex {
  import opened Wrappers
  import opened QueueStore

  /** An embedding. */
  type Vector = seq<real>

  /** A `PointStruct`: id, vector and payload. */
  datatype Point = Point(id: string, vector: Vector, payload: map<string, string>)

  function Min(a: nat, b: nat): nat {
    if a <= b then a else b
  }

  /**
   * `generate_points(vectors, documents)`: nothing when either side is
   * missing or empty; otherwise one point per pair of `zip`, the document
   * stored under the index field and a fresh id for each point.
   */
  function GeneratePoints(vectors: Option<seq<Vector>>, documents: seq<string>, indexField: string, firstId: nat): (r: Option<seq<Point>>)
    ensures r.None? <==> vectors.None? || |vectors.value| == 0 || |documents| == 0
    ensures r.Some? ==> |r.value| == Min(|vectors.value|, |documents|)
    ensures r.Some? ==> forall i :: 0 <= i < |r.value| ==>
      r.value[i].vector == vectors.value[i] && r.value[i].payload == map[indexField := documents[i]]
  {
    if vectors.None? || |vectors.value| == 0 || |documents| == 0 then None
    else
      var n := Min(|vectors.value|, |documents|);
      var ids := IdRange(firstId, n);
      Some(seq(n, i requires 0 <= i < n => Point(ids[i], vectors.value[i], map[indexField := documents[i]])))
  }

  /** How many ids `generate_points` consumes. */
  function PointCount(points: Option<seq<Point>>): nat {
    if points.None? then 0 else |points.value|
  }

  /**
   * Point ids come from the id source, one per point: pairwise distinct and
   * different from every id issued before the batch, so independent of any
   * message id.
   */
  lemma PointIdsFresh(vectors: Option<seq<Vector>>, documents: seq<string>, indexField: string, firstId: nat)
    ensures var r := GeneratePoints(vectors, documents, indexField, firstId);
      r.Some? ==>
        (forall i :: 0 <= i < |r.value| ==> r.value[i].id == IdOf(firstId + i)) &&
        (forall i, j :: 0 <= i < j < |r.value| ==> r.value[i].id != r.value[j].id) &&
        (forall i, k :: 0 <= i < |r.value| && 0 <= k < firstId ==> r.value[i].id != IdOf(k))
  {
    var r := GeneratePoints(vectors, documents, indexField, firstId);
    if r.Some? {
      var n := |r.value|;
      IdRangeFresh(firstId, n);
      assert forall i :: 0 <= i < n ==> r.value[i].id == IdRange(firstId, n)[i];
    }
  }

  /** `upsert`: each point replaces whatever the collection held under its id. */
  function Upserted(c: map<string, Point>, points: seq<Point>): map<string, Point>
    decreases |points|
  {
    if |points| == 0 then c else Upserted(c[points[0].id := points[0]], points[1..])
  }

  /**
   * After an upsert of points with distinct ids, the collection holds each
   * of them under its id, keeps every other entry, and holds nothing else.
   */
  lemma {:induction false} UpsertedContents(c: map<string, Point>, points: seq<Point>)
    requires forall i, j :: 0 <= i < j < |points| ==> points[i].id != points[j].id
    ensures forall i :: 0 <= i < |points| ==> points[i].id in Upserted(c, points) && Upserted(c, points)[points[i].id] == points[i]
    ensures forall k :: k in c && (forall i :: 0 <= i < |points| ==> points[i].id != k) ==> k in Upserted(c, points) && Upserted(c, points)[k] == c[k]
    ensures forall k :: k in Upserted(c, points) ==> k in c || exists i :: 0 <= i < |points| && points[i].id == k
    decreases |points|
  {
    if |points| > 0 {
      var rest := points[1..];
      assert forall i :: 1 <= i < |points| ==> points[i] == rest[i - 1];
      UpsertedContents(c[points[0].id := points[0]], rest);
    }
  }

  /** The vector-store server a client talks to: one collection and its payload indexes. */
  class QdrantClient {
    var collection: map<string, Point>
    var indexes: set<string>

    constructor()
      ensures collection == map[] && indexes == {}
    {
      collection := map[];
      indexes := {};
    }

    method RecreateCollection()
      modifies this
      ensures collection == map[] && indexes == {}
    {
      collection := map[];
      indexes := {};
    }

    method CreatePayloadIndex(field: string)
      modifies this
      ensures indexes == old(indexes) + {field} && collection == old(collection)
    {
      indexes := indexes + {field};
    }

    method Upsert(points: seq<Point>)
      modifies this
      ensures collection == Upserted(old(collection), points) && indexes == old(indexes)
    {
      collection := Upserted(collection, points);
    }
  }

  /** What a gateway's collection holds; nothing when no client exists. */
  function CollectionOf(c: QdrantClient?): map<string, Point>
    reads c
  {
    if c == null then map[] else c.collection
  }

  /** `QdrantGateway`: the client is created on demand. */
  class QdrantGateway {
    var client: QdrantClient?

    constructor()
      ensures client == null
    {
      client := null;
    }

    /** `initialize_client()`: a new client, replacing any earlier one. */
    method InitializeClient()
      modifies this
      ensures client != null && fresh(client) && client.collection == map[] && client.indexes == {}
    {
      client := new QdrantClient();
    }

    /** `get_client()`: creates the client only when there is none, so later calls return the same one. */
    method GetClient() returns (c: QdrantClient)
      modifies this
      ensures client == c
      ensures old(client) != null ==> c == old(client)
      ensures old(client) == null ==> fresh(c) && c.collection == map[] && c.indexes == {}
    {
      if client == null {
        InitializeClient();
      }
      c := client;
    }

    /** `recreate_collection()`: empties the collection, and does nothing without a client. */
    method RecreateCollection()
      modifies this, client
      ensures client == old(client)
      ensures client != null ==> client.collection == map[] && client.indexes == {}
    {
      if client != null {
        client.RecreateCollection();
      }
    }

    /** `create_payload_index(field)`: adds the index, and does nothing without a client. */
    method CreatePayloadIndex(field: string)
      modifies this, client
      ensures client == old(client)
      ensures client != null ==> client.indexes == old(client.indexes) + {field} && client.collection == old(client.collection)
    {
      if client != null {
        client.CreatePayloadIndex(field);
      }
    }

    /**
     * `add_points(points)` as written: it calls the client directly, so with
     * no client a non-empty batch raises and nothing is stored.
     */
    method AddPointsAsWritten(points: Option<seq<Point>>) returns (raised: bool)
      modifies this, client
      ensures client == old(client)
      ensures raised <==> points.Some? && |points.value| > 0 && client == null
      ensures client != null && points.Some? ==> client.collection == Upserted(old(client.collection), points.value)
      ensures client != null && points.None? ==> client.collection == old(client.collection)
      ensures client != null ==> client.indexes == old(client.indexes)
    {
      raised := false;
      if points.Some? && |points.value| > 0 {
        if client == null {
          raised := true;
        } else {
          client.Upsert(points.value);
        }
      }
    }

    /**
     * `add_points(points)` reaching the client through `get_client()`: a
     * non-empty batch is upserted, creating the client when needed; an empty
     * or missing batch changes nothing.
     */
    method AddPoints(points: Option<seq<Point>>)
      modifies this, client
      ensures old(client) != null ==> client == old(client)
      ensures points.Some? && |points.value| > 0 ==>
        client != null && client.collection == Upserted(old(CollectionOf(client)), points.value)
      ensures points.Some? && |points.value| > 0 ==>
        client.indexes == if old(client) == null then {} else old(client.indexes)
      ensures !(points.Some? && |points.value| > 0) ==> client == old(client) && CollectionOf(client) == old(CollectionOf(client))
      ensures !(points.Some? && |points.value| > 0) && client != null ==> client.indexes == old(client.indexes)
    {
      if points.Some? && |points.value| > 0 {
        var c := GetClient();
        c.Upsert(points.value);
      }
    }
  }

  /**
   * The embedder's start-up as written: a gateway whose client is never
   * initialised, so collection set-up does nothing and the first batch of
   * points raises instead of being stored.
   */
  method StartupAsWritten(p: Point) returns (raised: bool, stored: bool)
    ensures raised && !stored
  {
    var qdrant := new QdrantGateway();
    qdrant.RecreateCollection();
    qdrant.CreatePayloadIndex("text");
    raised := qdrant.AddPointsAsWritten(Some([p]));
    stored := p.id in CollectionOf(qdrant.client);
  }

  /** The same start-up with `add_points` going through `get_client()`: the batch is stored. */
  method StartupCorrected(p: Point) returns (stored: bool)
    ensures stored
  {
    var qdrant := new QdrantGateway();
    qdrant.RecreateCollection();
    qdrant.CreatePayloadIndex("text");
    qdrant.AddPoints(Some([p]));
    UpsertedContents(map[], [p]);
    stored := p.id in CollectionOf(qdrant.client);
  }
}
