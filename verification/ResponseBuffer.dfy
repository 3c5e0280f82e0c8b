/** Response buffering (internal/gateway/proxy.go:45-59 and 219-251): a backend writes into a
    buffer and only a good response is replayed to the client. */
module ResponseBuffer {
  import opened Wrappers

  type Headers = map<string, seq<string>>

  type Bytes = seq<bv8>

  /** A call on an http.ResponseWriter. */
  datatype Call = AddHeader(key: string, value: string) | WriteHeader(status: int) | Write(data: Bytes)

  function Values(h: Headers, key: string): seq<string> {
    if key in h then h[key] else []
  }

  /** What the client of an HTTP server has received: the first status wins, a body without a
      status implies 200, and headers count only before the status. Status 0: nothing sent. */
  datatype Received = Received(header: Headers, status: int, body: Bytes)

  const NOTHING := Received(map[], 0, [])

  function Deliver(r: Received, c: Call): Received {
    match c
    case AddHeader(k, v) => if r.status == 0 then r.(header := r.header[k := Values(r.header, k) + [v]]) else r
    case WriteHeader(s) => if r.status == 0 then r.(status := s) else r
    case Write(d) => r.(status := if r.status == 0 then 200 else r.status, body := r.body + d)
  }

  function DeliverAll(r: Received, calls: seq<Call>): Received {
    if calls == [] then r else Deliver(DeliverAll(r, calls[..|calls| - 1]), calls[|calls| - 1])
  }

  /** The status the tracker around the buffer reports: 200 unless told otherwise. */
  function TrackedStatus(calls: seq<Call>): int {
    if calls == [] then 200
    else if calls[|calls| - 1].WriteHeader? then calls[|calls| - 1].status
    else TrackedStatus(calls[..|calls| - 1])
  }

  // ---- The buffer ------------------------------------------------------------------------

  /** The content of a buffer: status 0 when no status was written, no body when none was. */
  datatype Buffered = Buffered(status: int, header: Headers, body: Option<Bytes>)

  function Buffer(calls: seq<Call>): Buffered {
    if calls == [] then Buffered(0, map[], None) else
    var b := Buffer(calls[..|calls| - 1]);
    match calls[|calls| - 1]
    case AddHeader(k, v) => b.(header := b.header[k := Values(b.header, k) + [v]])
    case WriteHeader(s) => b.(status := s)
    case Write(d) => b.(body := Some((if b.body.None? then [] else b.body.value) + d))
  }

  class ClientWriter {
    var received: Received

    constructor ()
      ensures received == NOTHING
    {
      received := NOTHING;
    }

    method Send(c: Call)
      modifies this
      ensures received == Deliver(old(received), c)
    {
      received := Deliver(received, c);
    }
  }

  class BufferingResponseWriter {
    var status: int
    var header: Headers
    var body: Option<Bytes>

    ghost function Contents(): Buffered
      reads this
    {
      Buffered(status, header, body)
    }

    constructor ()
      ensures Contents() == Buffer([])
    {
      status, header, body := 0, map[], None;
    }

    /** The backend's calls so far are `calls`; one more arrives. */
    method Accept(c: Call, ghost calls: seq<Call>)
      requires Contents() == Buffer(calls)
      modifies this
      ensures Contents() == Buffer(calls + [c])
    {
      assert (calls + [c])[..|calls|] == calls;
      match c {
        case AddHeader(k, v) =>
          header := header[k := Values(header, k) + [v]];
        case WriteHeader(s) =>
          status := s;
        case Write(d) =>
          if body.None? {
            body := Some([]);
          }
          body := Some(body.value + d);
      }
    }

    /** Go visits the header keys in an unspecified order; the result does not depend on it. */
    method ReplayTo(w: ClientWriter)
      requires w.received.status == 0
      modifies w
      ensures w.received == Replayed(old(w.received), Contents())
    {
      hide Merged;
      ghost var before := w.received;
      var keys := header.Keys;
      assert header - keys == map[];
      MergedNothing(before.header);
      while keys != {}
        invariant keys <= header.Keys && w.received == before.(header := Merged(before.header, header - keys))
        decreases |keys|
      {
        var key :| key in keys;
        AddValues(w, key, header[key]);
        MergedKey(before.header, header - keys, key, header[key]);
        assert (header - keys)[key := header[key]] == header - (keys - {key});
        keys := keys - {key};
      }
      assert header - {} == header;
      if status != 0 {
        w.Send(WriteHeader(status));
      }
      if body.Some? {
        w.Send(Write(body.value));
      }
    }

    static method AddValues(w: ClientWriter, key: string, values: seq<string>)
      requires w.received.status == 0
      modifies w
      ensures w.received == old(w.received).(header := WithValues(old(w.received.header), key, values))
    {
      ghost var before := w.received;
      for i := 0 to |values|
        invariant w.received == before.(header := WithValues(before.header, key, values[..i]))
      {
        var sofar := Values(before.header, key) + values[..i];
        assert i == 0 ==> sofar == Values(before.header, key);
        w.Send(AddHeader(key, values[i]));
        assert Values(before.header, key) + values[..i + 1] == sofar + [values[i]];
      }
      assert values[..|values|] == values;
    }
  }

  function WithValues(h: Headers, key: string, values: seq<string>): Headers {
    if values == [] then h else h[key := Values(h, key) + values]
  }

  /** The values of `more` follow those that are there already. */
  function Merged(h: Headers, more: Headers): Headers {
    map k | k in h.Keys + (set k | k in more && more[k] != []) :: Values(h, k) + Values(more, k)
  }

  lemma MergedValues(h: Headers, more: Headers)
    ensures var m := Merged(h, more);
      && (forall k :: k in m <==> k in h || (k in more && more[k] != []))
      && (forall k :: k in m ==> m[k] == Values(h, k) + Values(more, k))
  {}

  lemma MergedNothing(h: Headers)
    ensures Merged(h, map[]) == h
  {
    hide Merged;
    MergedValues(h, map[]);
    assert forall k :: k in h ==> h[k] + [] == h[k];
  }

  lemma MergedKey(h: Headers, more: Headers, key: string, values: seq<string>)
    requires key !in more
    ensures Merged(h, more[key := values]) == WithValues(Merged(h, more), key, values)
  {
    hide Merged;
    MergedValues(h, more);
    MergedValues(h, more[key := values]);
    var m, m' := Merged(h, more), Merged(h, more[key := values]);
    assert Values(m, key) == Values(h, key);
    if values == [] {
      assert key in h ==> h[key] + [] == h[key];
    }
    SameHeaders(m', WithValues(m, key, values));
  }

  lemma MergedAdd(h: Headers, more: Headers, key: string, value: string)
    ensures var m := Merged(h, more);
      Merged(h, more[key := Values(more, key) + [value]]) == m[key := Values(m, key) + [value]]
  {
    hide Merged;
    var m := Merged(h, more);
    var m' := Merged(h, more[key := Values(more, key) + [value]]);
    MergedValues(h, more);
    MergedValues(h, more[key := Values(more, key) + [value]]);
    assert Values(m, key) == Values(h, key) + Values(more, key);
    assert m'[key] == Values(m, key) + [value];
    SameHeaders(m', m[key := Values(m, key) + [value]]);
  }

  lemma SameHeaders(h: Headers, h': Headers)
    requires forall k :: k in h <==> k in h'
    requires forall k :: k in h && k in h' ==> h[k] == h'[k]
    ensures h == h'
  {}

  /** What a client that had been sent nothing but headers has after a replay. */
  function Replayed(r: Received, b: Buffered): Received {
    var s := r.(header := Merged(r.header, b.header), status := b.status);
    if b.body.Some? then Deliver(s, Write(b.body.value)) else s
  }

  // ---- What the buffer keeps -------------------------------------------------------------

  /** In any order of calls the last status written counts, for the buffer and for the verdict on
      the attempt; without any (`last` is -1) the buffer has none and the verdict goes by 200. */
  lemma {:induction false} LastStatusCounts(calls: seq<Call>, last: int)
    requires -1 <= last < |calls| && (last >= 0 ==> calls[last].WriteHeader?)
    requires forall j :: last < j < |calls| ==> !calls[j].WriteHeader?
    ensures if last < 0 then Buffer(calls).status == 0 && TrackedStatus(calls) == 200
            else Buffer(calls).status == calls[last].status == TrackedStatus(calls)
  {
    if last < |calls| - 1 { LastStatusCounts(calls[..|calls| - 1], last); }
  }

  /** The values added under a key, and the bytes written. */
  function Added(calls: seq<Call>, key: string): seq<string> {
    if calls == [] then [] else
    var c := calls[|calls| - 1];
    Added(calls[..|calls| - 1], key) + if c.AddHeader? && c.key == key then [c.value] else []
  }

  function Written(calls: seq<Call>): Bytes {
    if calls == [] then [] else
    var c := calls[|calls| - 1];
    Written(calls[..|calls| - 1]) + if c.Write? then c.data else []
  }

  /** In any order of calls the buffer keeps every header value, even one that comes after the
      status, and all bytes. */
  lemma {:induction false} BufferKeepsAll(calls: seq<Call>, key: string)
    ensures Values(Buffer(calls).header, key) == Added(calls, key)
    ensures (if Buffer(calls).body.None? then [] else Buffer(calls).body.value) == Written(calls)
  {
    if calls != [] { BufferKeepsAll(calls[..|calls| - 1], key); }
  }

  lemma {:induction false} EveryValueIsAdded(calls: seq<Call>, i: nat)
    requires i < |calls| && calls[i].AddHeader?
    ensures calls[i].value in Added(calls, calls[i].key)
  {
    if i < |calls| - 1 { EveryValueIsAdded(calls[..|calls| - 1], i); }
  }

  /** And a replay sends them all, after what the client has been sent before. */
  lemma ReplaySendsAll(r: Received, calls: seq<Call>, key: string)
    requires r.status == 0 && r.body == []
    ensures Values(Replayed(r, Buffer(calls)).header, key) == Values(r.header, key) + Added(calls, key)
    ensures Replayed(r, Buffer(calls)).body == Written(calls)
  {
    hide Merged, Buffer;
    BufferKeepsAll(calls, key);
    MergedValues(r.header, Buffer(calls).header);
  }

  // ---- Buffering is transparent ----------------------------------------------------------

  /** Headers, then at most one status, then the body. */
  ghost predicate Orderly(calls: seq<Call>) {
    && (forall i, j :: 0 <= i < j < |calls| && calls[j].AddHeader? ==> calls[i].AddHeader?)
    && (forall i, j :: 0 <= i < j < |calls| && calls[j].WriteHeader? ==> calls[i].AddHeader?)
    && (forall i :: 0 <= i < |calls| && calls[i].WriteHeader? ==> calls[i].status >= 200)
  }

  /** Nothing but headers. */
  ghost predicate HeadersOnly(calls: seq<Call>) {
    forall i :: 0 <= i < |calls| ==> calls[i].AddHeader?
  }

  lemma {:induction false} HeadersAreTransparent(r: Received, calls: seq<Call>)
    requires r.status == 0 && HeadersOnly(calls)
    ensures Buffer(calls).status == 0 && Buffer(calls).body == None
    ensures DeliverAll(r, calls) == r.(header := Merged(r.header, Buffer(calls).header))
  {
    hide Merged;
    MergedNothing(r.header);
    if calls != [] {
      var n := |calls| - 1;
      HeadersAreTransparent(r, calls[..n]);
      MergedAdd(r.header, Buffer(calls[..n]).header, calls[n].key, calls[n].value);
    }
  }

  lemma OrderlyFront(calls: seq<Call>)
    requires Orderly(calls) && calls != []
    ensures var n := |calls| - 1;
      && Orderly(calls[..n])
      && (!calls[n].Write? ==> HeadersOnly(calls[..n]))
      && (calls[n].WriteHeader? ==> calls[n].status >= 200)
  {
    var n := |calls| - 1;
    assert forall i :: 0 <= i < n ==> calls[..n][i] == calls[i];
  }

  /** A client that had been sent nothing but headers cannot tell a buffered response from one
      written to it directly, and the status it sees (200 when it was left implicit) is the one
      the proxy judged. */
  lemma {:induction false} BufferingIsTransparent(r: Received, calls: seq<Call>)
    requires r.status == 0 && Orderly(calls)
    ensures Replayed(r, Buffer(calls)) == DeliverAll(r, calls)
    ensures var s := DeliverAll(r, calls).status; TrackedStatus(calls) == if s == 0 then 200 else s
  {
    hide Merged, Orderly, HeadersOnly;
    if calls == [] {
      MergedNothing(r.header);
    } else {
      var n := |calls| - 1;
      OrderlyFront(calls);
      if calls[n].Write? {
        BufferingIsTransparent(r, calls[..n]);
      } else {
        HeadersAreTransparent(r, calls[..n]);
        HeadersTrack(calls[..n]);
        if calls[n].AddHeader? { MergedAdd(r.header, Buffer(calls[..n]).header, calls[n].key, calls[n].value); }
      }
    }
  }

  lemma {:induction false} HeadersTrack(calls: seq<Call>)
    requires HeadersOnly(calls)
    ensures TrackedStatus(calls) == 200
  {
    if calls != [] { HeadersTrack(calls[..|calls| - 1]); }
  }
}
