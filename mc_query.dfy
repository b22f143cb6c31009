/** The Minecraft query transport: the event handler that fills an
    `MCQueryState`, and `QueryMinecraft`, which connects and polls until the
    connection closes or 3000 ms have passed. */
module MCQuery {
  import opened Ints
  import opened Wrappers
  import opened Net

  /** Address and protocol version of a Minecraft server. */
  datatype MCServer = MCServer(ip: seq<byte>, port: uint16, protocolVersion: uint32)

  /** The state the handler updates, as a value: the bytes received so far,
      the two flags, and the bytes the connection has queued for sending. */
  datatype QueryView = QueryView(recv: seq<byte>, done: bool, success: bool, sent: seq<byte>)

  /** The buffers handed to the sender, concatenated in order. */
  function Flatten(buffers: seq<seq<byte>>): seq<byte>
  {
    if buffers == [] then [] else Flatten(buffers[..|buffers| - 1]) + buffers[|buffers| - 1]
  }

  /** The handler on one event. `onConnect` lists the buffers the connect
      callback passes to its sender, in order. An `HttpMsg` is not an event
      of a raw TCP connection and is ignored. */
  function Step(v: QueryView, ev: NetEvent, onConnect: seq<seq<byte>>): QueryView
  {
    match ev
    case Connect => v.(sent := v.sent + Flatten(onConnect))
    case Read(chunk) => v.(recv := v.recv + chunk)
    case Close => v.(success := v.success || v.recv != [], done := true)
    case HttpMsg(_) => v
  }

  /** `Step` with the callback fixed, in the shape the poll loop takes. */
  function Handler(onConnect: seq<seq<byte>>): (QueryView, NetEvent) -> QueryView
  {
    (v: QueryView, ev: NetEvent) => Step(v, ev, onConnect)
  }

  function IsDone(v: QueryView): bool { v.done }

  /** The bytes of all `Read` events, in arrival order. */
  function Chunks(evs: seq<NetEvent>): seq<byte>
  {
    if evs == [] then []
    else Chunks(evs[..|evs| - 1]) + (if evs[|evs| - 1].Read? then evs[|evs| - 1].chunk else [])
  }

  /** What `mg_mgr_free` does after the loop: it closes the connection if it
      is still open, which raises the close event. `Done` is only ever set by
      a close, so a state that is done has no open connection left. */
  function Teardown(v: QueryView): QueryView
  {
    if v.done then v else Step(v, Close, [])
  }

  /** `Success` can only be true once at least one byte arrived. */
  ghost predicate Sound(v: QueryView)
  {
    v.success ==> v.recv != []
  }

  class MCQueryState {
    /** `Server`: unset until `QueryMinecraft` stores it. */
    var server: Option<MCServer>
    /** `OnConnect`: the buffers the connect callback sends, in order. */
    var onConnect: seq<seq<byte>>
    var recv: seq<byte>
    var done: bool
    var success: bool

    ghost function View(c: Connection): QueryView
      reads this, c
    {
      QueryView(recv, done, success, c.sent)
    }

    /** A fresh state: nothing received, both flags false. */
    constructor ()
      ensures server == None && onConnect == []
      ensures recv == [] && !done && !success
    {
      server := None;
      onConnect := [];
      recv := [];
      done := false;
      success := false;
    }

    /** `mc_ev_handler`. Connect: the callback sends each buffer through a
        sender that queues it on the connection. Read: the whole receive
        buffer is appended to `Recv` and the buffer is emptied. Close:
        `Done` is set, and `Success` too when `Recv` is not empty. */
    method HandleEvent(c: Connection, ev: NetEvent)
      requires ev.Read? ==> c.recvBuf == ev.chunk
      modifies this`recv, this`done, this`success, c`sent, c`recvBuf
      ensures View(c) == Step(old(View(c)), ev, onConnect)
      ensures ev.Read? ==> c.recvBuf == []
      ensures !ev.Read? ==> c.recvBuf == old(c.recvBuf)
    {
      match ev {
        case Connect =>
          var i := 0;
          while i < |onConnect|
            invariant 0 <= i <= |onConnect|
            invariant c.sent == old(c.sent) + Flatten(onConnect[..i])
            invariant recv == old(recv) && done == old(done) && success == old(success)
            invariant c.recvBuf == old(c.recvBuf)
          {
            assert onConnect[..i + 1][..i] == onConnect[..i];
            c.sent := c.sent + onConnect[i];
            i := i + 1;
          }
          assert onConnect[..i] == onConnect;
        case Read(_) =>
          recv := recv + c.recvBuf;
          c.recvBuf := [];
        case Close =>
          if recv != [] {
            success := true;
          }
          done := true;
        case HttpMsg(_) =>
      }
    }

    /** One poll: the library delivers each event to the handler, filling
        the receive buffer first for a `Read`. */
    method PollOnce(c: Connection, evs: seq<NetEvent>)
      requires c.recvBuf == []
      modifies this`recv, this`done, this`success, c`sent, c`recvBuf
      ensures c.recvBuf == []
      ensures View(c) == Run(old(View(c)), Handler(onConnect), evs)
    {
      var j := 0;
      while j < |evs|
        invariant 0 <= j <= |evs|
        invariant c.recvBuf == []
        invariant View(c) == Run(old(View(c)), Handler(onConnect), evs[..j])
      {
        assert evs[..j + 1][..j] == evs[..j];
        if evs[j].Read? {
          c.Receive(evs[j].chunk);
        }
        HandleEvent(c, evs[j]);
        j := j + 1;
      }
      assert evs[..j] == evs;
    }

    /** `QueryMinecraft`: store the server and callback, connect, poll
        until `Done` or until the clock shows 3000 ms since `start`, then
        free the manager, which closes a connection still open. */
    method QueryMinecraft(srv: MCServer, callback: seq<seq<byte>>, start: uint64, rounds: seq<Round>)
      returns (c: Connection)
      modifies this
      ensures server == Some(srv) && onConnect == callback
      ensures fresh(c)
      ensures View(c) == Teardown(Poll(QueryView(old(recv), old(done), old(success), []), Handler(callback), IsDone, start, rounds).state)
    {
      server := Some(srv);
      onConnect := callback;
      c := new Connection();
      ghost var v0 := View(c);
      var i := 0;
      while i < |rounds| && !done && Elapsed(rounds[i].now, start) < TIMEOUT_MS
        invariant 0 <= i <= |rounds|
        invariant c.recvBuf == [] && onConnect == callback && server == Some(srv)
        invariant Poll(v0, Handler(callback), IsDone, start, rounds).state
               == Poll(View(c), Handler(callback), IsDone, start, rounds[i..]).state
      {
        assert rounds[i..][1..] == rounds[i + 1..];
        assert rounds[i..][0] == rounds[i];
        PollOnce(c, rounds[i].events);
        i := i + 1;
      }
      assert i < |rounds| ==> rounds[i..][0] == rounds[i];
      if !done {
        HandleEvent(c, Close);
      }
    }
  }

  // ---------------------------------------------------------------------
  // Properties of the handler and the loop

  lemma {:induction false} FlattenAppend(a: seq<seq<byte>>, b: seq<seq<byte>>)
    ensures Flatten(a + b) == Flatten(a) + Flatten(b)
    decreases |b|
  {
    if b == [] {
      assert a + b == a;
    } else {
      assert (a + b)[..|a + b| - 1] == a + b[..|b| - 1];
      assert (a + b)[|a + b| - 1] == b[|b| - 1];
      FlattenAppend(a, b[..|b| - 1]);
    }
  }

  /** On connect the callback's buffers reach the wire whole and in order:
      for the status query that is handshake, status request, ping. */
  lemma ConnectSendsInOrder(v: QueryView, a: seq<byte>, b: seq<byte>, d: seq<byte>)
    ensures Step(v, Connect, [a, b, d]).sent == v.sent + a + b + d
  {
    assert [a, b, d][..2] == [a, b];
    assert [a, b][..1] == [a];
    assert [a][..0] == [];
    assert Flatten([a]) == a;
    assert Flatten([a, b]) == a + b;
    assert Flatten([a, b, d]) == a + b + d;
  }

  /** `Recv` is the concatenation of every chunk read, in arrival order. */
  lemma {:induction false} RecvIsChunks(v: QueryView, evs: seq<NetEvent>, onConnect: seq<seq<byte>>)
    ensures Run(v, Handler(onConnect), evs).recv == v.recv + Chunks(evs)
  {
    if evs != [] {
      RecvIsChunks(v, evs[..|evs| - 1], onConnect);
    }
  }

  /** Once set, `Done` and `Success` are never reset. */
  lemma {:induction false} FlagsStaySet(v: QueryView, evs: seq<NetEvent>, onConnect: seq<seq<byte>>)
    ensures v.done ==> Run(v, Handler(onConnect), evs).done
    ensures v.success ==> Run(v, Handler(onConnect), evs).success
  {
    if evs != [] {
      FlagsStaySet(v, evs[..|evs| - 1], onConnect);
    }
  }

  /** A close event always ends the query, and it succeeds exactly when
      it had already succeeded or something was received by then. */
  lemma CloseDecides(v: QueryView, evs: seq<NetEvent>, onConnect: seq<seq<byte>>)
    requires evs != [] && evs[|evs| - 1] == Close
    ensures Run(v, Handler(onConnect), evs).done
    ensures Run(v, Handler(onConnect), evs).success
        <==> Run(v, Handler(onConnect), evs[..|evs| - 1]).success || v.recv + Chunks(evs) != []
  {
    RecvIsChunks(v, evs[..|evs| - 1], onConnect);
  }

  /** Starting from a state where `Success` implies bytes were received (a
      fresh one, say), that still holds when the loop ends. */
  lemma PollKeepsSound(v: QueryView, onConnect: seq<seq<byte>>, start: uint64, rounds: seq<Round>)
    requires Sound(v)
    ensures Sound(Poll(v, Handler(onConnect), IsDone, start, rounds).state)
  {
    PollKeeps(v, Handler(onConnect), IsDone, start, rounds, Sound);
  }

  /** The loop ends when `Done` is set, or at the first clock reading past
      the deadline; for a clock that passes the deadline it never runs out of
      readings. */
  lemma QueryStops(v: QueryView, onConnect: seq<seq<byte>>, start: uint64, rounds: seq<Round>)
    requires rounds != [] && Elapsed(rounds[|rounds| - 1].now, start) >= TIMEOUT_MS
    ensures var e := Poll(v, Handler(onConnect), IsDone, start, rounds);
      && e.polls < |rounds|
      && (forall j :: 0 <= j < e.polls ==> Elapsed(rounds[j].now, start) < TIMEOUT_MS)
      && (e.state.done || Elapsed(rounds[e.polls].now, start) >= TIMEOUT_MS)
  {
    PollReachesDeadline(v, Handler(onConnect), IsDone, start, rounds);
  }

  /** The teardown leaves every query done, and never changes what was
      sent or received. A query the deadline cut short succeeds exactly
      when it had succeeded or something was received. */
  lemma TeardownDecides(v: QueryView)
    ensures Teardown(v).done
    ensures Teardown(v).recv == v.recv && Teardown(v).sent == v.sent
    ensures v.done ==> Teardown(v) == v
    ensures !v.done ==> (Teardown(v).success <==> v.success || v.recv != [])
  {
  }

  /** From a fresh state, `QueryMinecraft` always returns done, and it
      succeeds exactly when bytes were received if the deadline ended the
      loop (a server that replied and kept the socket open); a success
      always comes with bytes. */
  lemma QueryEndsDone(onConnect: seq<seq<byte>>, start: uint64, rounds: seq<Round>)
    ensures var p := Poll(QueryView([], false, false, []), Handler(onConnect), IsDone, start, rounds).state;
      && Teardown(p).done
      && Sound(Teardown(p))
      && (!p.done ==> (Teardown(p).success <==> p.recv != []))
  {
    var fresh0 := QueryView([], false, false, []);
    PollKeepsSound(fresh0, onConnect, start, rounds);
  }

}
