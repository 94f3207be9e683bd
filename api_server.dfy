/**
 * The ingest server's bounded store of the latest events and its two routes:
 * `POST /update` appends the posted event, `GET /latest` answers with the newest one.
 * Each request is one atomic step (the lock of the server makes them mutually exclusive).
 */
module ApiServer {
  import opened BoundedDeque

  /** The store keeps the last 10 events. */
  const MaxLen: nat := 10

  /** The JSON body of a response: `{"status": "ok"}`, `{}`, or a stored event. */
  datatype Body<E> = StatusOk | EmptyObject | Event(event: E)

  datatype Response<E> = Response(status: int, body: Body<E>)

  /** What `GET /latest` answers for a store holding `q`. */
  function LatestOf<E>(q: seq<E>): (b: Body<E>)
    ensures b != StatusOk
    ensures b == EmptyObject <==> q == []
    ensures q != [] ==> b == Event(q[|q| - 1])
  {
    if |q| == 0 then EmptyObject else Event(q[|q| - 1])
  }

  class IngestServer<E> {
    /** The events held, oldest first. */
    var eventQueue: seq<E>
    /** Every event posted since the process started, oldest first. */
    ghost var received: seq<E>

    ghost predicate Valid()
      reads this
    {
      eventQueue == Window(received, MaxLen)
    }

    /** The store is created empty when the process starts. */
    constructor ()
      ensures Valid()
      ensures eventQueue == [] && received == []
    {
      eventQueue := [];
      received := [];
    }

    /** `POST /update`: append the posted event, evicting the oldest when 10 are held. */
    method Update(data: E) returns (resp: Response<E>)
      requires Valid()
      modifies this
      ensures Valid()
      ensures received == old(received) + [data]
      ensures eventQueue == Push(old(eventQueue), data, MaxLen)
      ensures |eventQueue| <= MaxLen && eventQueue != []
      ensures LatestOf(eventQueue) == Event(data)
      ensures resp == Response(200, StatusOk)
    {
      PushWindow(received, data, MaxLen);
      eventQueue := Push(eventQueue, data, MaxLen);
      received := received + [data];
      resp := Response(200, StatusOk);
    }

    /** `GET /latest`: the newest event, or `{}` when nothing has been posted yet;
        always status 200, and the store is left as it was. */
    method Latest() returns (resp: Response<E>)
      requires Valid()
      ensures resp.status == 200
      ensures eventQueue == [] ==> resp.body == EmptyObject
      ensures eventQueue != [] ==> resp.body == Event(eventQueue[|eventQueue| - 1])
      ensures received == [] ==> resp.body == EmptyObject
      ensures received != [] ==> resp.body == Event(received[|received| - 1])
    {
      if received != [] {
        WindowLast(received, MaxLen);
      }
      resp := Response(200, LatestOf(eventQueue));
    }
  }

  /** A request to the server, for reasoning about sequences of requests. */
  datatype Request<E> = PostUpdate(data: E) | GetLatest

  /** The store after serving `reqs` in order, starting from `q`. */
  function Replay<E>(q: seq<E>, reqs: seq<Request<E>>): (r: seq<E>)
    requires |q| <= MaxLen
    ensures |r| <= MaxLen
    decreases |reqs|
  {
    if reqs == [] then q
    else match reqs[0]
      case PostUpdate(data) => Replay(Push(q, data, MaxLen), reqs[1..])
      case GetLatest => Replay(q, reqs[1..])
  }

  /** The events posted among `reqs`, in order. */
  function Posted<E>(reqs: seq<Request<E>>): seq<E>
  {
    if reqs == [] then []
    else match reqs[0]
      case PostUpdate(data) => [data] + Posted(reqs[1..])
      case GetLatest => Posted(reqs[1..])
  }

  /** Reads never affect eviction: serving `reqs` is appending the posted events and nothing else. */
  lemma {:induction false} ReplayIgnoresReads<E>(q: seq<E>, reqs: seq<Request<E>>)
    requires |q| <= MaxLen
    ensures Replay(q, reqs) == PushAll(q, Posted(reqs), MaxLen)
    decreases |reqs|
  {
    if reqs != [] {
      match reqs[0]
      case PostUpdate(data) =>
        ReplayIgnoresReads(Push(q, data, MaxLen), reqs[1..]);
        assert Posted(reqs) == [data] + Posted(reqs[1..]);
      case GetLatest =>
        ReplayIgnoresReads(q, reqs[1..]);
    }
  }

  /** From the empty store, any sequence of requests leaves exactly the last
      min(n, 10) posted events, oldest first. */
  lemma ReplayKeepsLastPosted<E>(reqs: seq<Request<E>>)
    ensures Replay([], reqs) == Window(Posted(reqs), MaxLen)
  {
    ReplayIgnoresReads([], reqs);
    PushAllFromEmpty(Posted(reqs), MaxLen);
  }

  /** Once the store holds an event it never becomes empty again. */
  lemma {:induction false} ReplayStaysNonEmpty<E>(q: seq<E>, reqs: seq<Request<E>>)
    requires |q| <= MaxLen && q != []
    ensures Replay(q, reqs) != []
    decreases |reqs|
  {
    if reqs != [] {
      match reqs[0]
      case PostUpdate(data) => ReplayStaysNonEmpty(Push(q, data, MaxLen), reqs[1..]);
      case GetLatest => ReplayStaysNonEmpty(q, reqs[1..]);
    }
  }

  /** After a run of requests ending in `POST /update(e)`, `GET /latest` answers `e`. */
  lemma LatestAfterUpdate<E>(reqs: seq<Request<E>>, e: E)
    ensures LatestOf(Replay([], reqs + [PostUpdate(e)])) == Event(e)
  {
    ReplayKeepsLastPosted(reqs + [PostUpdate(e)]);
    PostedAppend(reqs, [PostUpdate(e)]);
    assert Posted([PostUpdate(e)]) == [e];
    WindowLast(Posted(reqs) + [e], MaxLen);
  }

  lemma {:induction false} PostedAppend<E>(a: seq<Request<E>>, b: seq<Request<E>>)
    ensures Posted(a + b) == Posted(a) + Posted(b)
    decreases |a|
  {
    if a == [] {
      assert a + b == b;
    } else {
      var ab := a + b;
      assert ab[0] == a[0];
      assert ab[1..] == a[1..] + b;
      PostedAppend(a[1..], b);
      match a[0]
      case PostUpdate(data) =>
        assert Posted(ab) == [data] + Posted(a[1..] + b);
        assert Posted(a) == [data] + Posted(a[1..]);
      case GetLatest =>
        assert Posted(ab) == Posted(a[1..] + b);
    }
  }
}
