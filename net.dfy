/** What the two poll loops (the Minecraft query and the HTTP GET client)
    share: the 3000 ms deadline, the clock arithmetic, the events the
    networking library delivers, and the connection those events come from.
    The clock and the sockets are not modelled; a loop is given the clock
    readings and the delivered events as input. */
module Net {
  import opened Ints

  /** Both loops give up 3000 ms after they start. */
  const TIMEOUT_MS: uint64 := 3000

  /** `GetTimeMS() - start` computed on `uint64_t`: a clock that reads
      earlier than `start` wraps around to a huge elapsed time. */
  function Elapsed(now: uint64, start: uint64): (r: uint64)
    ensures now >= start ==> r == now - start
    ensures now < start ==> r >= TWO_64 - start
  {
    SubU64(now, start)
  }

  /** The events a handler can be called with. `Read` carries the bytes the
      library has just placed in the connection's receive buffer, `HttpMsg`
      the body of a complete HTTP response. */
  datatype NetEvent = Connect | Read(chunk: seq<byte>) | HttpMsg(body: seq<byte>) | Close

  /** One turn of a poll loop: the clock reading taken by the loop condition,
      then the events the following 50 ms poll delivers, in order. */
  datatype Round = Round(now: uint64, events: seq<NetEvent>)

  /** A handler run over a sequence of events, in order. */
  function Run<S>(v: S, handler: (S, NetEvent) -> S, evs: seq<NetEvent>): S
  {
    if evs == [] then v else handler(Run(v, handler, evs[..|evs| - 1]), evs[|evs| - 1])
  }

  /** How a poll loop ends: the final state and the number of polls made. */
  datatype PollEnd<S> = PollEnd(state: S, polls: nat)

  /** The loop `while (!done && now - start < timeout) poll`: each round is
      one clock reading followed by one poll's events; the clock is read
      only while the state is not done. The loop also ends if the rounds run
      out (see `PollReachesDeadline`). */
  function Poll<S>(v: S, handler: (S, NetEvent) -> S, done: S -> bool, start: uint64, rounds: seq<Round>): PollEnd<S>
    decreases |rounds|
  {
    if done(v) || rounds == [] || Elapsed(rounds[0].now, start) >= TIMEOUT_MS then PollEnd(v, 0)
    else
      var e := Poll(Run(v, handler, rounds[0].events), handler, done, start, rounds[1..]);
      PollEnd(e.state, e.polls + 1)
  }

  /** With a clock whose last reading is past the deadline, the loop stops
      after `k` polls with `k` inside the rounds: every reading before was
      short of the deadline, and either the state is done or reading `k` is
      past the deadline. */
  lemma {:induction false} PollReachesDeadline<S>(v: S, handler: (S, NetEvent) -> S, done: S -> bool,
                                                   start: uint64, rounds: seq<Round>)
    requires rounds != [] && Elapsed(rounds[|rounds| - 1].now, start) >= TIMEOUT_MS
    ensures var e := Poll(v, handler, done, start, rounds);
      && e.polls < |rounds|
      && (forall j :: 0 <= j < e.polls ==> Elapsed(rounds[j].now, start) < TIMEOUT_MS)
      && (done(e.state) || Elapsed(rounds[e.polls].now, start) >= TIMEOUT_MS)
    decreases |rounds|
  {
    if !(done(v) || Elapsed(rounds[0].now, start) >= TIMEOUT_MS) {
      var rest := rounds[1..];
      assert |rounds| >= 2;
      assert rest[|rest| - 1] == rounds[|rounds| - 1];
      var w := Run(v, handler, rounds[0].events);
      PollReachesDeadline(w, handler, done, start, rest);
      var e := Poll(w, handler, done, start, rest);
      forall j | 0 <= j < e.polls + 1
        ensures Elapsed(rounds[j].now, start) < TIMEOUT_MS
      {
        if j > 0 {
          assert rounds[j] == rest[j - 1];
        }
      }
    }
  }

  /** An invariant of every handler step holds of the state the loop ends
      in. */
  lemma {:induction false} PollKeeps<S>(v: S, handler: (S, NetEvent) -> S, done: S -> bool,
                                        start: uint64, rounds: seq<Round>, inv: S -> bool)
    requires inv(v)
    requires forall w, ev :: inv(w) ==> inv(handler(w, ev))
    ensures inv(Poll(v, handler, done, start, rounds).state)
    decreases |rounds|
  {
    if !(done(v) || rounds == [] || Elapsed(rounds[0].now, start) >= TIMEOUT_MS) {
      RunKeeps(v, handler, rounds[0].events, inv);
      PollKeeps(Run(v, handler, rounds[0].events), handler, done, start, rounds[1..], inv);
    }
  }

  lemma {:induction false} RunKeeps<S>(v: S, handler: (S, NetEvent) -> S, evs: seq<NetEvent>, inv: S -> bool)
    requires inv(v)
    requires forall w, ev :: inv(w) ==> inv(handler(w, ev))
    ensures inv(Run(v, handler, evs))
  {
    if evs != [] {
      RunKeeps(v, handler, evs[..|evs| - 1], inv);
    }
  }

  /** The library's side of one connection. */
  class Connection {
    /** Bytes queued for sending, in the order they were queued. */
    var sent: seq<byte>
    /** Bytes received and not yet taken by the handler. */
    var recvBuf: seq<byte>
    /** URLs for which an HTTP GET request was written. */
    var requested: seq<string>

    constructor ()
      ensures sent == [] && recvBuf == [] && requested == []
    {
      sent := [];
      recvBuf := [];
      requested := [];
    }

    /** The library filling the receive buffer before it raises `Read`. */
    method Receive(chunk: seq<byte>)
      modifies this`recvBuf
      ensures recvBuf == old(recvBuf) + chunk
    {
      recvBuf := recvBuf + chunk;
    }
  }
}
