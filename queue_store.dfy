/**
 * The Redis gateway of pylon/colossus.py: named FIFO lists, `rpush` at the
 * tail, `blpop` at the head, `llen` for the size, an empty queue name
 * standing for the default queue, and failures that never reach the caller.
 * The error counter of pylon/phoenix.py and the id generator sit beside it.
 */
module QueueStore {
  import opened Wrappers
  import opened Text
  import opened JsonText
  import opened Envelope
  import Base64

  type Queues = map<string, seq<Raw>>

  /** The error types passed to `record_error`. */
  datatype ErrorType = RedisDown | Unexpected | ExtractorReadKo | ExtractorReadException

  type Counters = map<ErrorType, nat>

  function Count(c: Counters, t: ErrorType): nat {
    if t in c then c[t] else 0
  }

  /** `record_error(error_type=t)`: one more error of type `t`. */
  function Recorded(c: Counters, t: ErrorType): (r: Counters)
    ensures Count(r, t) == Count(c, t) + 1
    ensures forall u :: u != t ==> Count(r, u) == Count(c, u)
  {
    c[t := Count(c, t) + 1]
  }

  /** `if not queue: queue = settings.REDIS_QUEUE` (a missing name is written `""`). */
  function ResolveQueue(queue: string, default: string): string {
    if queue == "" then default else queue
  }

  /** The items of list `q`, oldest first; a missing key is an empty list. */
  function Contents(qs: Queues, q: string): seq<Raw> {
    if q in qs then qs[q] else []
  }

  /** `rpush(q, x)`: `x` joins the tail of `q`; no other list changes. */
  function Push(qs: Queues, q: string, x: Raw): (r: Queues)
    ensures Contents(r, q) == Contents(qs, q) + [x]
    ensures forall p :: p != q ==> Contents(r, p) == Contents(qs, p)
  {
    qs[q := Contents(qs, q) + [x]]
  }

  /**
   * `lpop(q)`: the head of `q` and the lists without it; nothing from an
   * empty list.
   */
  function Pop(qs: Queues, q: string): (r: (Option<Raw>, Queues))
    ensures Contents(qs, q) == [] ==> r == (None, qs)
    ensures Contents(qs, q) != [] ==> r.0 == Some(Contents(qs, q)[0]) && Contents(r.1, q) == Contents(qs, q)[1..]
    ensures forall p :: p != q ==> Contents(r.1, p) == Contents(qs, p)
  {
    var items := Contents(qs, q);
    if items == [] then (None, qs) else (Some(items[0]), qs[q := items[1..]])
  }

  /** `n` successive pops of `q`: what they return, in order, and the lists after them. */
  function PopMany(qs: Queues, q: string, n: nat): (seq<Raw>, Queues) {
    if n == 0 then ([], qs)
    else
      var (m, qs1) := Pop(qs, q);
      var (rest, qs2) := PopMany(qs1, q, n - 1);
      (if m.Some? then [m.value] + rest else rest, qs2)
  }

  /** Pushing `xs` one after the other. */
  function PushAll(qs: Queues, q: string, xs: seq<Raw>): Queues
    decreases |xs|
  {
    if |xs| == 0 then qs else PushAll(Push(qs, q, xs[0]), q, xs[1..])
  }

  lemma {:induction false} PushAllContents(qs: Queues, q: string, xs: seq<Raw>)
    ensures Contents(PushAll(qs, q, xs), q) == Contents(qs, q) + xs
    ensures forall p :: p != q ==> Contents(PushAll(qs, q, xs), p) == Contents(qs, p)
    decreases |xs|
  {
    if |xs| > 0 {
      PushAllContents(Push(qs, q, xs[0]), q, xs[1..]);
      assert Contents(qs, q) + [xs[0]] + xs[1..] == Contents(qs, q) + xs;
    }
  }

  /** Popping as many items as a list holds returns them oldest first and empties it. */
  lemma {:induction false} PopManyDrains(qs: Queues, q: string)
    ensures PopMany(qs, q, |Contents(qs, q)|).0 == Contents(qs, q)
    ensures Contents(PopMany(qs, q, |Contents(qs, q)|).1, q) == []
    decreases |Contents(qs, q)|
  {
    var items := Contents(qs, q);
    if items != [] {
      var (m, qs1) := Pop(qs, q);
      assert |Contents(qs1, q)| == |items| - 1;
      PopManyDrains(qs1, q);
      assert [items[0]] + items[1..] == items;
    }
  }

  /**
   * FIFO order: whatever a list held, followed by the pushed items, comes
   * back from successive pops in exactly that order.
   */
  lemma FifoOrder(qs: Queues, q: string, xs: seq<Raw>)
    ensures var pushed := PushAll(qs, q, xs);
      PopMany(pushed, q, |Contents(qs, q)| + |xs|).0 == Contents(qs, q) + xs
  {
    PushAllContents(qs, q, xs);
    PopManyDrains(PushAll(qs, q, xs), q);
  }

  /** A push at the tail does not change what the next pop of a non-empty list returns. */
  lemma PushPopCommute(qs: Queues, q: string, x: Raw)
    requires Contents(qs, q) != []
    ensures Pop(Push(qs, q, x), q).0 == Pop(qs, q).0
    ensures Contents(Pop(Push(qs, q, x), q).1, q) == Contents(Push(Pop(qs, q).1, q, x), q)
  {
    var items := Contents(qs, q);
    assert (items + [x])[1..] == items[1..] + [x];
  }

  /**
   * How one iteration of a stage's polling loop ends: nothing was popped,
   * the message was dropped by a `continue`, its result was passed on, or
   * the catch-all handler caught an exception.
   */
  datatype Outcome = Idle | Skipped | Forwarded | Failed

  /**
   * The state one iteration of a stage acts on, as it is afterwards: the
   * queues, the error counters, the next id the id source hands out, and
   * whether the iteration ended with the `check_interval` sleep.
   */
  datatype StepResult = StepResult(outcome: Outcome, queues: Queues, errors: Counters, nextId: nat, slept: bool)

  /** The failure `blpop` may raise inside `get_message`. */
  datatype Fault = NoFault | ConnectionError | Timeout | Other

  /** Whether the connection carrying an `rpush` holds. */
  datatype Link = Up | Down

  /** The outcome of one `get_message`. */
  datatype Got = Got(message: Option<Raw>, queues: Queues, errors: Counters, slept: bool)

  /**
   * `get_message(queue)` as its handlers intend: the head of the queue; on a
   * connection error one `redis` error and a retry sleep, on a timeout only
   * the sleep, on any other error one `unexpected` error and the sleep. It
   * never raises. As written the handlers never run: see
   * `GetMessageAsWritten`.
   */
  function GetStep(qs: Queues, errors: Counters, q: string, fault: Fault): Got {
    match fault
    case NoFault => var (m, qs1) := Pop(qs, q); Got(m, qs1, errors, false)
    case ConnectionError => Got(None, qs, Recorded(errors, RedisDown), true)
    case Timeout => Got(None, qs, errors, true)
    case Other => Got(None, qs, Recorded(errors, Unexpected), true)
  }

  /**
   * `get_message` as written: the popped value is bound to a local and
   * never returned, so every caller receives `None`.
   */
  function GetStepAsWritten(qs: Queues, errors: Counters, q: string, fault: Fault): Got {
    var g := GetStep(qs, errors, q, fault);
    g.(message := None)
  }

  /** With a working connection a non-empty queue hands out its head and keeps the rest in order. */
  lemma GetReturnsHead(qs: Queues, errors: Counters, q: string)
    requires Contents(qs, q) != []
    ensures var g := GetStep(qs, errors, q, NoFault);
      g.message == Some(Contents(qs, q)[0]) && Contents(g.queues, q) == Contents(qs, q)[1..] &&
      g.errors == errors && !g.slept
  {
  }

  /** Every failure leaves the queues alone, sleeps, and counts exactly what its handler records. */
  lemma GetFaults(qs: Queues, errors: Counters, q: string, fault: Fault)
    requires fault != NoFault
    ensures var g := GetStep(qs, errors, q, fault);
      g.message == None && g.queues == qs && g.slept &&
      (fault == ConnectionError ==> Count(g.errors, RedisDown) == Count(errors, RedisDown) + 1) &&
      (fault == Other ==> Count(g.errors, Unexpected) == Count(errors, Unexpected) + 1) &&
      (fault == Timeout ==> g.errors == errors)
  {
  }

  /**
   * As written, a message taken off a non-empty queue reaches nobody: the
   * caller gets `None` although the queue has lost its head.
   */
  lemma MessageLostAsWritten(qs: Queues, errors: Counters, q: string)
    requires Contents(qs, q) != []
    ensures var g := GetStepAsWritten(qs, errors, q, NoFault);
      g.message == None && |Contents(g.queues, q)| == |Contents(qs, q)| - 1
  {
  }

  /**
   * How `get_message` as written leaves: it returns what `GetStepAsWritten`
   * gives, or an error escapes it.
   */
  datatype Fetch = Fetched(got: Got) | Escaped

  /**
   * `get_message` exactly as written. `redis` is assigned inside the
   * function, so the first `except` clause looks up `exceptions` on that
   * local: an unbound name when the connection failed, a client object
   * otherwise. Evaluating the clause raises again, so when `blpop` fails no
   * handler runs and the new error leaves the function, counting nothing.
   */
  function GetMessageAsWritten(qs: Queues, errors: Counters, q: string, fault: Fault): (f: Fetch)
    ensures f.Escaped? <==> fault != NoFault
    ensures f.Fetched? ==> f.got.message == None && f.got.errors == errors && !f.got.slept
  {
    if fault == NoFault then Fetched(GetStepAsWritten(qs, errors, q, fault)) else Escaped
  }

  /**
   * A stage iteration whose `get_message` raised: the stage's own `except`
   * logs the error and the iteration ends with its `check_interval` sleep.
   */
  function EscapedStep(qs: Queues, errors: Counters, nextId: nat): StepResult {
    StepResult(Failed, qs, errors, nextId, true)
  }

  /**
   * As written, no failure of `blpop` reaches its handler: it escapes into
   * the stage, which ends failed with its counters as they were. The
   * handlers, as `GetStep` models them, would count a lost connection or an
   * unexpected error and hand the stage `None` without a stage sleep.
   */
  lemma FaultHandlersNeverRunAsWritten(qs: Queues, errors: Counters, q: string, fault: Fault, nextId: nat)
    requires fault != NoFault
    ensures GetMessageAsWritten(qs, errors, q, fault) == Escaped
    ensures var s := EscapedStep(qs, errors, nextId);
      s.outcome == Failed && s.slept && s.queues == qs && s.errors == errors
    ensures var g := GetStep(qs, errors, q, fault);
      g.message == None && g.queues == qs &&
      (fault == ConnectionError ==> Count(g.errors, RedisDown) == Count(errors, RedisDown) + 1) &&
      (fault == Other ==> Count(g.errors, Unexpected) == Count(errors, Unexpected) + 1)
  {
    GetFaults(qs, errors, q, fault);
  }

  /** `str(uuid.uuid4())`, modelled by the decimal form of a counter. */
  function IdOf(k: nat): string {
    Digits(k)
  }

  lemma IdsDistinct(a: nat, b: nat)
    requires a != b
    ensures IdOf(a) != IdOf(b)
  {
    if IdOf(a) == IdOf(b) {
      DigitsInjective(a, b);
    }
  }

  /** The ids `IdOf(from)`, ..., `IdOf(from + n - 1)`. */
  function IdRange(from: nat, n: nat): (r: seq<string>)
    ensures |r| == n
  {
    seq(n, i requires 0 <= i < n => IdOf(from + i))
  }

  /** The source of fresh ids: every id it hands out differs from all earlier ones. */
  class UuidSource {
    var next: nat

    constructor()
      ensures next == 0
    {
      next := 0;
    }

    ghost function Issued(): set<string>
      reads this
    {
      set k | 0 <= k < next :: IdOf(k)
    }

    /** `generate_message_id()`: an id never handed out before. */
    method Mint() returns (id: string)
      modifies this
      ensures id == IdOf(old(next)) && next == old(next) + 1
      ensures id !in old(Issued()) && Issued() == old(Issued()) + {id}
    {
      id := IdOf(next);
      forall k | 0 <= k < next
        ensures IdOf(k) != id
      {
        IdsDistinct(k, next);
      }
      next := next + 1;
    }

    /** `n` fresh ids, one per call of `uuid4`. */
    method MintMany(n: nat) returns (ids: seq<string>)
      modifies this
      ensures ids == IdRange(old(next), n) && next == old(next) + n
    {
      ids := [];
      var i := 0;
      while i < n
        invariant 0 <= i <= n && next == old(next) + i
        invariant ids == IdRange(old(next), i)
      {
        var id := Mint();
        ids := ids + [id];
        i := i + 1;
      }
    }
  }

  /** The ids of one batch are pairwise distinct and none was issued before it. */
  lemma IdRangeFresh(from: nat, n: nat)
    ensures forall i, j :: 0 <= i < j < n ==> IdRange(from, n)[i] != IdRange(from, n)[j]
    ensures forall i, k :: 0 <= i < n && 0 <= k < from ==> IdRange(from, n)[i] != IdOf(k)
  {
    forall i, j | 0 <= i < j < n
      ensures IdRange(from, n)[i] != IdRange(from, n)[j]
    {
      IdsDistinct(from + i, from + j);
    }
    forall i, k | 0 <= i < n && 0 <= k < from
      ensures IdRange(from, n)[i] != IdOf(k)
    {
      IdsDistinct(from + i, k);
    }
  }

  /** The error counters of pylon/phoenix.py. */
  class Metrics {
    var errors: Counters

    constructor()
      ensures errors == map[]
    {
      errors := map[];
    }
  }

  /** `redis_gateway`: the queues it reaches, the default queue name and the shared counters. */
  class RedisGateway {
    var queues: Queues
    const defaultQueue: string
    const settings: Settings
    const metrics: Metrics
    const ids: UuidSource

    constructor(defaultQueue: string, settings: Settings, metrics: Metrics, ids: UuidSource)
      ensures queues == map[] && this.defaultQueue == defaultQueue && this.settings == settings
      ensures this.metrics == metrics && this.ids == ids
    {
      queues := map[];
      this.defaultQueue := defaultQueue;
      this.settings := settings;
      this.metrics := metrics;
      this.ids := ids;
    }

    /**
     * `send_message(data, queue)`: the serialised message joins the tail of
     * the resolved queue; a lost connection is logged and nothing changes.
     */
    method SendMessage(data: Fields, queue: string, link: Link)
      modifies this
      ensures link == Up ==> queues == Push(old(queues), ResolveQueue(queue, defaultQueue), Serialized(data))
      ensures link == Down ==> queues == old(queues)
    {
      if link == Up {
        queues := Push(queues, ResolveQueue(queue, defaultQueue), Serialized(data));
      }
    }

    /** `get_message(queue)`, returning the popped item as the callers expect. */
    method GetMessage(queue: string, fault: Fault) returns (message: Option<Raw>, slept: bool)
      modifies this, metrics
      ensures var g := GetStep(old(queues), old(metrics.errors), ResolveQueue(queue, defaultQueue), fault);
        message == g.message && queues == g.queues && metrics.errors == g.errors && slept == g.slept
    {
      var g := GetStep(queues, metrics.errors, ResolveQueue(queue, defaultQueue), fault);
      queues := g.queues;
      metrics.errors := g.errors;
      message, slept := g.message, g.slept;
    }

    /** `get_queue_size(queue)`: the length of the resolved queue; nothing changes. */
    method GetQueueSize(queue: string) returns (n: nat)
      ensures n == |Contents(queues, ResolveQueue(queue, defaultQueue))|
      ensures queue == "" ==> n == |Contents(queues, defaultQueue)|
    {
      n := |Contents(queues, ResolveQueue(queue, defaultQueue))|;
    }

    /** `generate_message_id()`. */
    method GenerateMessageId() returns (id: string)
      modifies ids
      ensures id == IdOf(old(ids.next)) && ids.next == old(ids.next) + 1
      ensures id !in old(ids.Issued())
    {
      id := ids.Mint();
    }

    /**
     * `send_it(queue, content, message_id)`: the serialised content,
     * Base64-encoded under the content field, with the id as given.
     */
    method SendIt(queue: string, payload: seq<Base64.byte>, id: Json, link: Link)
      modifies this
      ensures link == Up ==> queues == Push(old(queues), ResolveQueue(queue, defaultQueue), Serialized(ContentMessage(settings, id, payload)))
      ensures link == Down ==> queues == old(queues)
    {
      SendMessage(ContentMessage(settings, id, payload), queue, link);
    }
  }
}
