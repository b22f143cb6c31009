/** The HTTP GET client `Dashcli::Get`: the URL it connects to, the event
    handler that fills an `MGResponse`, the poll loop bounded by 3000 ms, and
    the `Reason` it reports. */
module MGClient {
  import opened Ints
  import opened Net
  import Routing

  const HTTP_SCHEME := "http://"
  const HTTPS_SCHEME := "https://"
  const REASON_CLOSED := "Connection closed"
  const REASON_TIMED_OUT := "Timed out"

  // ---------------------------------------------------------------------
  // URL normalisation

  /** The scheme test as the source writes it: `!http || !https`. No string
      starts with both schemes, so the test always holds. */
  function NormaliseAsWritten(url: string): string
  {
    if !Routing.StartsWith(url, HTTP_SCHEME) || !Routing.StartsWith(url, HTTPS_SCHEME) then HTTP_SCHEME + url
    else url
  }

  /** As written, every URL gets "http://" in front, even one that already
      has a scheme. */
  lemma AsWrittenAlwaysPrefixes(url: string)
    ensures NormaliseAsWritten(url) == HTTP_SCHEME + url
  {
    assert Routing.StartsWith(url, HTTP_SCHEME) ==> url[4] == HTTP_SCHEME[4] == ':';
    assert Routing.StartsWith(url, HTTPS_SCHEME) ==> url[4] == HTTPS_SCHEME[4] == 's';
  }

  /** An input that shows it: a URL with a scheme gets a second one. */
  lemma AsWrittenDoublesScheme()
    ensures var url := HTTP_SCHEME + "x";
      Routing.StartsWith(url, HTTP_SCHEME) && NormaliseAsWritten(url) == HTTP_SCHEME + HTTP_SCHEME + "x"
  {
    var url := HTTP_SCHEME + "x";
    AsWrittenAlwaysPrefixes(url);
    assert url[..|HTTP_SCHEME|] == HTTP_SCHEME;
  }

  /** The evident intent: add "http://" only when neither scheme is there. */
  function NormaliseUrl(url: string): (r: string)
    ensures Routing.StartsWith(r, HTTP_SCHEME) || Routing.StartsWith(r, HTTPS_SCHEME)
    ensures Routing.StartsWith(url, HTTP_SCHEME) || Routing.StartsWith(url, HTTPS_SCHEME) ==> r == url
  {
    if !Routing.StartsWith(url, HTTP_SCHEME) && !Routing.StartsWith(url, HTTPS_SCHEME) then
      assert (HTTP_SCHEME + url)[..|HTTP_SCHEME|] == HTTP_SCHEME;
      HTTP_SCHEME + url
    else url
  }

  /** Normalising twice is normalising once. */
  lemma NormaliseIdempotent(url: string)
    ensures NormaliseUrl(NormaliseUrl(url)) == NormaliseUrl(url)
  {
  }

  /** On a URL with no scheme (every URL the routes pass: an address and a
      path) the corrected and the as-written test agree. */
  lemma NormaliseAgreesWithoutScheme(url: string)
    requires !Routing.StartsWith(url, HTTP_SCHEME) && !Routing.StartsWith(url, HTTPS_SCHEME)
    ensures NormaliseUrl(url) == NormaliseAsWritten(url) == HTTP_SCHEME + url
  {
    AsWrittenAlwaysPrefixes(url);
  }

  // ---------------------------------------------------------------------
  // The event handler

  /** The response fields the handler changes, as a value, with the URLs for
      which the connection has written a GET request. */
  datatype GetView = GetView(recv: seq<byte>, success: bool, done: bool, requested: seq<string>)

  /** `mg_ev_handler` on one event. Connect: a GET request for `url` is
      written. A complete HTTP message: its body is appended to `Recv` and
      `Success` and `Done` are both set. Every other event is ignored. */
  function Step(v: GetView, ev: NetEvent, url: string): GetView
  {
    match ev
    case Connect => v.(requested := v.requested + [url])
    case HttpMsg(body) => v.(recv := v.recv + body, success := true, done := true)
    case Read(_) => v
    case Close => v
  }

  function Handler(url: string): (GetView, NetEvent) -> GetView
  {
    (v: GetView, ev: NetEvent) => Step(v, ev, url)
  }

  function IsDone(v: GetView): bool { v.done }

  /** The bodies of all HTTP messages, in arrival order. */
  function Bodies(evs: seq<NetEvent>): seq<byte>
  {
    if |evs| == 0 then []
    else Bodies(evs[..|evs| - 1]) + (if evs[|evs| - 1].HttpMsg? then evs[|evs| - 1].body else [])
  }

  /** Some event is a complete HTTP message. */
  predicate HasMessage(evs: seq<NetEvent>)
  {
    exists j :: 0 <= j < |evs| && evs[j].HttpMsg?
  }

  /** `Done` and `Success` move together: from a fresh response they are
      only ever set, together, by an HTTP message. */
  ghost predicate Paired(v: GetView)
  {
    v.done == v.success
  }

  class MGResponse {
    var url: string
    /** `Sent`: never written by the client. */
    var sent: seq<byte>
    var recv: seq<byte>
    var success: bool
    var done: bool
    var reason: string

    /** The struct's defaults: `Success` true, `Done` false. */
    constructor ()
      ensures url == "" && sent == [] && recv == [] && success && !done && reason == ""
    {
      url := "";
      sent := [];
      recv := [];
      success := true;
      done := false;
      reason := "";
    }

    ghost function View(c: Connection): GetView
      reads this, c
    {
      GetView(recv, success, done, c.requested)
    }

    /** `mg_ev_handler`. */
    method HandleEvent(c: Connection, ev: NetEvent)
      modifies this`recv, this`success, this`done, c`requested
      ensures View(c) == Step(old(View(c)), ev, url)
    {
      match ev {
        case Connect =>
          c.requested := c.requested + [url];
        case HttpMsg(body) =>
          recv := recv + body;
          success := true;
          done := true;
        case Read(_) =>
        case Close =>
      }
    }

    /** One poll: each event goes to the handler in order. */
    method PollOnce(c: Connection, evs: seq<NetEvent>)
      modifies this`recv, this`success, this`done, c`requested
      ensures View(c) == Run(old(View(c)), Handler(url), evs)
    {
      var j := 0;
      while j < |evs|
        invariant 0 <= j <= |evs|
        invariant View(c) == Run(old(View(c)), Handler(url), evs[..j])
      {
        assert evs[..j + 1][..j] == evs[..j];
        HandleEvent(c, evs[j]);
        j := j + 1;
      }
      assert evs[..j] == evs;
    }
  }

  /** `Dashcli::Get`: prefix the URL with the scheme test as written, start a response with `Success`
      false, connect, poll until `Done` or 3000 ms after `start`, then pick
      the reason from the clock reading `endNow` taken after the loop. */
  method Get(url: string, start: uint64, rounds: seq<Round>, endNow: uint64) returns (res: MGResponse, c: Connection)
    ensures fresh(res) && fresh(c)
    ensures res.url == NormaliseAsWritten(url) == HTTP_SCHEME + url && res.sent == []
    ensures res.View(c) == Poll(GetView([], false, false, []), Handler(HTTP_SCHEME + url), IsDone, start, rounds).state
    ensures res.reason == (if !res.success && Elapsed(endNow, start) >= TIMEOUT_MS then REASON_TIMED_OUT else REASON_CLOSED)
  {
    var target := NormaliseAsWritten(url);
    AsWrittenAlwaysPrefixes(url);
    res := new MGResponse();
    res.url := target;
    res.success := false;
    c := new Connection();
    ghost var v0 := res.View(c);
    var i := 0;
    while i < |rounds| && !res.done && Elapsed(rounds[i].now, start) < TIMEOUT_MS
      invariant 0 <= i <= |rounds|
      invariant res.url == target && res.sent == []
      invariant Poll(v0, Handler(target), IsDone, start, rounds).state
             == Poll(res.View(c), Handler(target), IsDone, start, rounds[i..]).state
    {
      assert rounds[i..][1..] == rounds[i + 1..];
      assert rounds[i..][0] == rounds[i];
      res.PollOnce(c, rounds[i].events);
      i := i + 1;
    }
    assert i < |rounds| ==> rounds[i..][0] == rounds[i];
    res.reason := REASON_CLOSED;
    if !res.success && Elapsed(endNow, start) >= TIMEOUT_MS {
      res.reason := REASON_TIMED_OUT;
    }
  }

  // ---------------------------------------------------------------------
  // Properties of the handler and the loop

  /** `Recv` is the concatenation of the message bodies, in order. */
  lemma {:induction false} RecvIsBodies(v: GetView, evs: seq<NetEvent>, url: string)
    ensures Run(v, Handler(url), evs).recv == v.recv + Bodies(evs)
  {
    if |evs| > 0 {
      RecvIsBodies(v, evs[..|evs| - 1], url);
    }
  }

  /** After a run of events the response has succeeded exactly when it
      had before or some event was an HTTP message. */
  lemma {:induction false} SuccessIffMessage(v: GetView, evs: seq<NetEvent>, url: string)
    ensures Run(v, Handler(url), evs).success <==> v.success || HasMessage(evs)
  {
    if |evs| > 0 {
      var init := evs[..|evs| - 1];
      SuccessIffMessage(v, init, url);
      if HasMessage(init) {
        var j :| 0 <= j < |init| && init[j].HttpMsg?;
        assert evs[j] == init[j];
      }
      if HasMessage(evs) && !evs[|evs| - 1].HttpMsg? {
        var j :| 0 <= j < |evs| && evs[j].HttpMsg?;
        assert init[j] == evs[j];
      }
    }
  }

  /** The number of connect events in a run. */
  function Connects(evs: seq<NetEvent>): nat
  {
    if evs == [] then 0 else Connects(evs[..|evs| - 1]) + (if evs[|evs| - 1].Connect? then 1 else 0)
  }

  /** The connection asks for the URL once per connect event and for no
      other URL. */
  lemma {:induction false} RequestsOnlyUrl(v: GetView, evs: seq<NetEvent>, url: string)
    ensures var w := Run(v, Handler(url), evs);
      |w.requested| == |v.requested| + Connects(evs) && w.requested[..|v.requested|] == v.requested
      && forall j :: |v.requested| <= j < |w.requested| ==> w.requested[j] == url
  {
    if |evs| > 0 {
      RequestsOnlyUrl(v, evs[..|evs| - 1], url);
    }
  }

  /** From a fresh response (`Success` and `Done` false) the loop ends with
      `Done == Success`: a response is done only because it succeeded. */
  lemma PollPaired(url: string, start: uint64, rounds: seq<Round>)
    ensures Paired(Poll(GetView([], false, false, []), Handler(url), IsDone, start, rounds).state)
  {
    PollKeeps(GetView([], false, false, []), Handler(url), IsDone, start, rounds, Paired);
  }

  /** The loop stops at the first reading past the deadline unless a
      message arrived first; so when it ends without success, the clock had
      reached 3000 ms. */
  lemma GetStopsAtDeadline(url: string, start: uint64, rounds: seq<Round>)
    requires rounds != [] && Elapsed(rounds[|rounds| - 1].now, start) >= TIMEOUT_MS
    ensures var e := Poll(GetView([], false, false, []), Handler(url), IsDone, start, rounds);
      && e.polls < |rounds|
      && (!e.state.success ==> Elapsed(rounds[e.polls].now, start) >= TIMEOUT_MS)
  {
    PollReachesDeadline(GetView([], false, false, []), Handler(url), IsDone, start, rounds);
    PollPaired(url, start, rounds);
  }
}
