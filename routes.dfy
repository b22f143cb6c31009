/** The dashboard's routes: the four TTL caches, the `/api` handlers that
    answer from them, the static pages and the 404 fallback, the health
    report that asks every peer for its status, the Jellyfin status query,
    and the joining of the health report into one JSON text.

    Everything the routes fetch (the Minecraft query, the HTTP replies of
    Jellyfin and the peers, the local hardware readings), what the JSON
    parser makes of a reply, and the JSON text of a single status are
    inputs. */
module Routes {
  import opened Wrappers
  import opened Ints
  import opened Http
  import CacheContainer
  import Routing
  import Server
  import Status

  const API_PREFIX := "/api"
  const MC_ROUTE := "/mc"
  const JELLYFIN_ROUTE := "/jellyfin"
  const STATUS_ROUTE := "/status"
  const LOCAL_ROUTE := "/local"
  const ROOT_ROUTE := "/"
  const FAVICON_ROUTE := "/favicon.ico"

  const DASHBOARD_PAGE := "resources/static/pages/dashboard.html"
  const FAVICON_FILE := "resources/static/favicon24x.png"
  const NOT_FOUND_PAGE := "resources/static/common/404.html"
  const JSON_TYPE := "application/json"
  const CSP_HEADER := "Content-Security-Policy"
  const DASHBOARD_CSP := "default-src 'self'; img-src 'self' data:; style-src 'self' https://fonts.googleapis.com; font-src 'self' https://fonts.gstatic.com;"

  const SERVER_TTL: uint64 := 10000
  const JELLYFIN_TTL: uint64 := 30000
  const HARDWARE_TTL: uint64 := 5000
  const MESH_TTL: uint64 := 5000

  const JELLYFIN_IP := "192.168.1.47:8096"
  const HEALTH_URL := JELLYFIN_IP + "/health"
  const INFO_URL := JELLYFIN_IP + "/System/Info/Public"
  const NETWORK_SERVER_IPS: seq<string> := ["192.168.0.105", "192.168.1.47"]
  const PEER_STATUS_PATH := "/api/local"

  // ---------------------------------------------------------------------
  // Records

  datatype JellyfinStatus = JellyfinStatus(
    online: bool, health: string, localAddress: string, serverName: string, version: string,
    productName: string, operatingSystem: string, id: string, startupWizardComplete: bool)

  /** A default-constructed `JellyfinStatus` (its flags read as false). */
  const NO_JELLYFIN := JellyfinStatus(false, "", "", "", "", "", "", "", false)

  /** `DashboardStatus` without its CPU reading. */
  datatype DashboardStatus = DashboardStatus(
    ips: seq<string>, available: uint64, total: uint64, ping: uint64, isCurrent: bool, online: bool)

  datatype HealthReport = HealthReport(statuses: seq<DashboardStatus>)

  /** `GetDashboardStatus`: the host's addresses and memory (in MB), with a
      zero ping, marked current and online. */
  function LocalStatus(ips: seq<string>, availableMB: uint64, totalMB: uint64): DashboardStatus
  {
    DashboardStatus(ips, availableMB, totalMB, 0, true, true)
  }

  /** The record of a peer that did not answer usefully: offline, named by
      its configured address. */
  function Offline(peer: string): DashboardStatus
  {
    DashboardStatus([peer], 0, 0, 0, false, false)
  }

  /** What asking a peer for its status came to: no successful reply, a
      reply the JSON parser discarded, a reply whose fields could not be
      read, or the peer's addresses and memory with the clock readings
      taken before the request and after the reply. */
  datatype PeerOutcome =
    | Unreachable
    | Discarded
    | Malformed
    | Answer(ips: seq<string>, available: uint64, total: uint64, start: uint64, end: uint64)

  /** An `MGResponse` as the routes read it. */
  datatype Fetch = Fetch(success: bool, recv: seq<byte>)

  /** What the JSON parser makes of Jellyfin's system information: discarded,
      or each field, `None` when it is missing or of the wrong type. */
  datatype JellyfinJson =
    | JellyfinDiscarded
    | JellyfinInfo(localAddress: Option<string>, serverName: Option<string>, version: Option<string>,
                   productName: Option<string>, operatingSystem: Option<string>, id: Option<string>,
                   wizard: Option<bool>)

  /** The results the fetchers would give for this request. */
  datatype Fetched = Fetched(mc: Status.MCStatus, jellyfin: JellyfinStatus, local: DashboardStatus, peers: seq<PeerOutcome>)

  /** The clock readings of one request, in the order the code takes them:
      the staleness test of the route's cache; for `/api/status` only, the
      staleness test and the stamp of the hardware cache inside
      `GetHealthReport`; then the stamp `Cache` puts on the route's own
      cache after the fetch. */
  datatype Clock = Clock(check: uint64, innerCheck: uint64, innerStamp: uint64, stamp: uint64)

  /** The JSON text of one status (the `*ToJSON` functions), given the
      `cached` flag and the timing of the cache that serves it. */
  datatype Renderers = Renderers(
    mc: (Status.MCStatus, bool, uint64) -> string,
    jellyfin: (JellyfinStatus, bool, uint64) -> string,
    dashboard: (DashboardStatus, bool, uint64) -> string)

  /** Bytes read as text, one character per byte. */
  function AsText(bytes: seq<byte>): string
  {
    seq(|bytes|, i requires 0 <= i < |bytes| => bytes[i] as char)
  }

  // ---------------------------------------------------------------------
  // The health report

  /** The records the peer loop appends, peer by peer: a peer that is one
      of this host's addresses is skipped; a failed request and a reply
      whose fields cannot be read give an offline record and the loop goes
      on; a discarded reply gives an offline record and ends the loop; an
      answer gives an online record that is not current, with the time
      the request took. */
  function PeerRecords(selfIps: seq<string>, peers: seq<string>, outcomes: seq<PeerOutcome>): seq<DashboardStatus>
    requires |outcomes| == |peers|
  {
    if |peers| == 0 then []
    else if peers[0] in selfIps then PeerRecords(selfIps, peers[1..], outcomes[1..])
    else if outcomes[0].Discarded? then [RecordOf(peers[0], outcomes[0])]
    else [RecordOf(peers[0], outcomes[0])] + PeerRecords(selfIps, peers[1..], outcomes[1..])
  }

  /** The record of one peer that is not this host: the answer, online and
      not current, with the time the request took; offline with only the
      peer's address otherwise. */
  function RecordOf(peer: string, outcome: PeerOutcome): DashboardStatus
  {
    match outcome
    case Answer(ips, available, total, start, end) => DashboardStatus(ips, available, total, SubU64(end, start), false, true)
    // On a reply whose fields cannot be read, the code may already have
    // copied the available memory before a later field throws; an offline
    // entry's memory is never rendered, so the record keeps 0 there.
    case _ => Offline(peer)
  }

  /** Every record comes from a peer that is not this host: an offline
      record names the peer and the peer did not answer; an online record
      holds the answer and is not current. */
  lemma {:induction false} RecordsFromPeers(selfIps: seq<string>, peers: seq<string>, outcomes: seq<PeerOutcome>, r: nat)
    requires |outcomes| == |peers| && r < |PeerRecords(selfIps, peers, outcomes)|
    ensures var rec := PeerRecords(selfIps, peers, outcomes)[r];
      exists j :: 0 <= j < |peers| && peers[j] !in selfIps && (
        if outcomes[j].Answer? then
          rec.online && !rec.isCurrent && rec.ips == outcomes[j].ips
          && rec.ping == SubU64(outcomes[j].end, outcomes[j].start)
        else rec == Offline(peers[j]))
    decreases |peers|
  {
    var rest := PeerRecords(selfIps, peers[1..], outcomes[1..]);
    var rec := PeerRecords(selfIps, peers, outcomes)[r];
    if peers[0] in selfIps || r > 0 {
      var r' := if peers[0] in selfIps then r else r - 1;
      assert rec == rest[r'];
      RecordsFromPeers(selfIps, peers[1..], outcomes[1..], r');
      var j :| 0 <= j < |peers[1..]| && peers[1..][j] !in selfIps && (
        if outcomes[1..][j].Answer? then
          rest[r'].online && !rest[r'].isCurrent && rest[r'].ips == outcomes[1..][j].ips
          && rest[r'].ping == SubU64(outcomes[1..][j].end, outcomes[1..][j].start)
        else rest[r'] == Offline(peers[1..][j]));
      assert peers[j + 1] == peers[1..][j] && outcomes[j + 1] == outcomes[1..][j];
    } else {
      assert peers[0] !in selfIps;
    }
  }

  /** The peers that are not this host. */
  function OtherPeers(selfIps: seq<string>, peers: seq<string>): nat
  {
    if |peers| == 0 then 0
    else (if peers[0] in selfIps then 0 else 1) + OtherPeers(selfIps, peers[1..])
  }

  /** When no other peer's reply is discarded, every other peer gets
      exactly one record. */
  lemma {:induction false} OneRecordPerPeer(selfIps: seq<string>, peers: seq<string>, outcomes: seq<PeerOutcome>)
    requires |outcomes| == |peers|
    requires forall j :: 0 <= j < |peers| && peers[j] !in selfIps ==> !outcomes[j].Discarded?
    ensures |PeerRecords(selfIps, peers, outcomes)| == OtherPeers(selfIps, peers)
    ensures forall j :: 0 <= j < |peers| && peers[j] !in selfIps ==>
      OtherPeers(selfIps, peers[..j]) < |PeerRecords(selfIps, peers, outcomes)|
      && PeerRecords(selfIps, peers, outcomes)[OtherPeers(selfIps, peers[..j])] == RecordOf(peers[j], outcomes[j])
    decreases |peers|
  {
    if |peers| > 0 {
      var recs := PeerRecords(selfIps, peers, outcomes);
      var rest := PeerRecords(selfIps, peers[1..], outcomes[1..]);
      var skip := if peers[0] in selfIps then 0 else 1;
      forall j | 0 <= j < |peers[1..]| && peers[1..][j] !in selfIps ensures !outcomes[1..][j].Discarded? {
        assert peers[1..][j] == peers[j + 1] && outcomes[1..][j] == outcomes[j + 1];
      }
      OneRecordPerPeer(selfIps, peers[1..], outcomes[1..]);
      assert recs == (if skip == 0 then rest else [RecordOf(peers[0], outcomes[0])] + rest);
      forall j | 0 <= j < |peers| && peers[j] !in selfIps
        ensures OtherPeers(selfIps, peers[..j]) < |recs| && recs[OtherPeers(selfIps, peers[..j])] == RecordOf(peers[j], outcomes[j])
      {
        if j == 0 {
          assert peers[..0] == [];
        } else {
          assert peers[..j][1..] == peers[1..][..j - 1];
          assert OtherPeers(selfIps, peers[..j]) == skip + OtherPeers(selfIps, peers[1..][..j - 1]);
          assert peers[1..][j - 1] == peers[j] && outcomes[1..][j - 1] == outcomes[j];
        }
      }
    }
  }

  /** The first discarded reply of another peer ends the report: the peers
      after it are not asked. */
  lemma {:induction false} DiscardedEndsReport(selfIps: seq<string>, peers: seq<string>, outcomes: seq<PeerOutcome>, j: nat)
    requires |outcomes| == |peers| && j < |peers|
    requires peers[j] !in selfIps && outcomes[j].Discarded?
    requires forall l :: 0 <= l < j && peers[l] !in selfIps ==> !outcomes[l].Discarded?
    ensures PeerRecords(selfIps, peers, outcomes)
         == PeerRecords(selfIps, peers[..j], outcomes[..j]) + [Offline(peers[j])]
    decreases j
  {
    if j > 0 {
      forall l | 0 <= l < j - 1 && peers[1..][l] !in selfIps ensures !outcomes[1..][l].Discarded? {
        assert peers[1..][l] == peers[l + 1] && outcomes[1..][l] == outcomes[l + 1];
      }
      DiscardedEndsReport(selfIps, peers[1..], outcomes[1..], j - 1);
      assert peers[1..][..j - 1] == peers[..j][1..];
      assert outcomes[1..][..j - 1] == outcomes[..j][1..];
    }
  }

  /** A peer that is one of this host's addresses gets no record, wherever
      it is in the list. */
  lemma {:induction false} SelfPeerSkipped(selfIps: seq<string>, before: seq<string>, peer: string, after: seq<string>,
                                           ob: seq<PeerOutcome>, o: PeerOutcome, oa: seq<PeerOutcome>)
    requires peer in selfIps && |ob| == |before| && |oa| == |after|
    requires forall j :: 0 <= j < |before| && before[j] !in selfIps ==> !ob[j].Discarded?
    ensures PeerRecords(selfIps, before + [peer] + after, ob + [o] + oa)
         == PeerRecords(selfIps, before, ob) + PeerRecords(selfIps, after, oa)
    decreases |before|
  {
    if |before| == 0 {
      assert before + [peer] + after == [peer] + after;
      assert ob + [o] + oa == [o] + oa;
      assert ([peer] + after)[1..] == after && ([o] + oa)[1..] == oa;
    } else {
      assert (before + [peer] + after)[1..] == before[1..] + [peer] + after;
      assert (ob + [o] + oa)[1..] == ob[1..] + [o] + oa;
      assert (before + [peer] + after)[0] == before[0] && (ob + [o] + oa)[0] == ob[0];
      forall j | 0 <= j < |before[1..]| && before[1..][j] !in selfIps ensures !ob[1..][j].Discarded? {
        assert before[1..][j] == before[j + 1] && ob[1..][j] == ob[j + 1];
      }
      SelfPeerSkipped(selfIps, before[1..], peer, after, ob[1..], o, oa);
    }
  }

  /** The peer loop in `PeerRecords`, one peer at a time. */
  lemma PeerRecordsStep(selfIps: seq<string>, peers: seq<string>, outcomes: seq<PeerOutcome>, i: nat)
    requires |outcomes| == |peers| && i < |peers|
    ensures PeerRecords(selfIps, peers[i..], outcomes[i..])
         == if peers[i] in selfIps then PeerRecords(selfIps, peers[i + 1..], outcomes[i + 1..])
            else match outcomes[i]
              case Unreachable => [Offline(peers[i])] + PeerRecords(selfIps, peers[i + 1..], outcomes[i + 1..])
              case Discarded => [Offline(peers[i])]
              case Malformed => [Offline(peers[i])] + PeerRecords(selfIps, peers[i + 1..], outcomes[i + 1..])
              case Answer(ips, available, total, start, end) =>
                [DashboardStatus(ips, available, total, SubU64(end, start), false, true)]
                + PeerRecords(selfIps, peers[i + 1..], outcomes[i + 1..])
  {
    assert peers[i..][1..] == peers[i + 1..] && outcomes[i..][1..] == outcomes[i + 1..];
    assert peers[i..][0] == peers[i] && outcomes[i..][0] == outcomes[i];
  }

  lemma AppendOne<T>(xs: seq<T>, x: T, rest: seq<T>)
    ensures xs + ([x] + rest) == (xs + [x]) + rest
  {
  }

  /** The `isSelf` scan: the peer is one of this host's addresses. */
  method IsSelf(selfIps: seq<string>, server: string) returns (isSelf: bool)
    ensures isSelf <==> server in selfIps
  {
    isSelf := false;
    var k := 0;
    while k < |selfIps|
      invariant 0 <= k <= |selfIps|
      invariant server !in selfIps[..k]
    {
      if selfIps[k] == server {
        isSelf := true;
        break;
      }
      assert selfIps[..k + 1] == selfIps[..k] + [selfIps[k]];
      k := k + 1;
    }
    assert isSelf || selfIps[..k] == selfIps;
  }

  /** The loop over the configured peers: this host's status first, then
      each peer's record, skipping this host and stopping at a discarded
      reply. */
  method CollectPeers(self: DashboardStatus, peers: seq<string>, outcomes: seq<PeerOutcome>)
    returns (statuses: seq<DashboardStatus>)
    requires |outcomes| == |peers|
    ensures statuses == [self] + PeerRecords(self.ips, peers, outcomes)
  {
    statuses := [self];
    var i := 0;
    while i < |peers|
      invariant 0 <= i <= |peers|
      invariant statuses + PeerRecords(self.ips, peers[i..], outcomes[i..]) == [self] + PeerRecords(self.ips, peers, outcomes)
    {
      PeerRecordsStep(self.ips, peers, outcomes, i);
      var server := peers[i];
      var isSelf := IsSelf(self.ips, server);
      if isSelf {
        i := i + 1;
        continue;
      }
      var record: DashboardStatus;
      match outcomes[i] {
        case Unreachable =>
          record := Offline(server);
        case Discarded =>
          record := Offline(server);
        case Malformed =>
          record := Offline(server);
        case Answer(ips, available, total, start, end) =>
          record := DashboardStatus(ips, available, total, SubU64(end, start), false, true);
      }
      AppendOne(statuses, record, PeerRecords(self.ips, peers[i + 1..], outcomes[i + 1..]));
      statuses := statuses + [record];
      if outcomes[i].Discarded? {
        break;
      }
      i := i + 1;
    }
    assert i == |peers| ==> peers[i..] == [];
  }

  // ---------------------------------------------------------------------
  // Jellyfin

  /** All fields of the system information are there. */
  predicate Complete(json: JellyfinJson)
  {
    json.JellyfinInfo? && json.localAddress.Some? && json.serverName.Some? && json.version.Some?
    && json.productName.Some? && json.operatingSystem.Some? && json.id.Some? && json.wizard.Some?
  }

  /** `GetJellyfinStatus`: ask for the health text, and when that succeeds
      for the system information; read its fields in order, and stop at the
      first one that is missing. `requested` is the URLs asked for. */
  method GetJellyfinStatus(healthRes: Fetch, infoRes: Fetch, json: JellyfinJson)
    returns (status: JellyfinStatus, requested: seq<string>)
    ensures requested == if healthRes.success then [HEALTH_URL, INFO_URL] else [HEALTH_URL]
    ensures status.health == if healthRes.success then AsText(healthRes.recv) else ""
    ensures status.online <==> healthRes.success && infoRes.success && Complete(json)
    ensures status.online ==> status == JellyfinStatus(true, AsText(healthRes.recv),
      json.localAddress.value, json.serverName.value, json.version.value, json.productName.value,
      json.operatingSystem.value, json.id.value, json.wizard.value)
    ensures !(healthRes.success && infoRes.success && json.JellyfinInfo?) ==> status == NO_JELLYFIN.(health := status.health)
  {
    status := NO_JELLYFIN;
    requested := [HEALTH_URL];
    if !healthRes.success {
      return;
    }
    status := status.(health := AsText(healthRes.recv));
    requested := requested + [INFO_URL];
    if !infoRes.success || json.JellyfinDiscarded? {
      return;
    }
    status := status.(online := true);
    if json.localAddress.None? { status := status.(online := false); return; }
    status := status.(localAddress := json.localAddress.value);
    if json.serverName.None? { status := status.(online := false); return; }
    status := status.(serverName := json.serverName.value);
    if json.version.None? { status := status.(online := false); return; }
    status := status.(version := json.version.value);
    if json.productName.None? { status := status.(online := false); return; }
    status := status.(productName := json.productName.value);
    if json.operatingSystem.None? { status := status.(online := false); return; }
    status := status.(operatingSystem := json.operatingSystem.value);
    if json.id.None? { status := status.(online := false); return; }
    status := status.(id := json.id.value);
    if json.wizard.None? { status := status.(online := false); return; }
    status := status.(startupWizardComplete := json.wizard.value);
  }

  // ---------------------------------------------------------------------
  // The health report as JSON

  function BoolText(b: bool): string
  {
    if b then "true" else "false"
  }

  /** A digit character. */
  function Digit(d: nat): char
    requires d < 10
  {
    (48 + d) as char
  }

  /** The decimal text `std::format` writes for an unsigned number. */
  function Decimal(n: nat): string
    decreases n
  {
    if n < 10 then [Digit(n)] else Decimal(n / 10) + [Digit(n % 10)]
  }

  /** The number a text of digits spells. */
  function DecimalValue(s: string): nat
  {
    if |s| == 0 then 0
    else DecimalValue(s[..|s| - 1]) * 10 + (if '0' <= s[|s| - 1] <= '9' then s[|s| - 1] as int - 48 else 0)
  }

  /** The decimal text is all digits, has no leading zero, and reads back
      as the number. */
  lemma {:induction false} DecimalRoundTrip(n: nat)
    ensures DecimalValue(Decimal(n)) == n
    ensures forall k :: 0 <= k < |Decimal(n)| ==> '0' <= Decimal(n)[k] <= '9'
    ensures Decimal(n)[0] == '0' ==> n == 0
    decreases n
  {
    if n >= 10 {
      DecimalRoundTrip(n / 10);
      var s := Decimal(n);
      assert s[..|s| - 1] == Decimal(n / 10);
      assert s[0] == Decimal(n / 10)[0];
    }
  }

  /** Entries joined by commas: appending an entry appends a comma and the
      entry, and the first entry has no comma before it. */
  lemma {:induction false} JoinSnoc(parts: seq<string>, p: string)
    ensures Join(parts + [p], ',') == if |parts| == 0 then p else Join(parts, ',') + "," + p
    decreases |parts|
  {
    if |parts| == 1 {
      assert parts + [p] == [parts[0], p];
      assert [parts[0], p][1..] == [p];
    } else if |parts| > 1 {
      assert (parts + [p])[1..] == parts[1..] + [p];
      JoinSnoc(parts[1..], p);
    }
  }

  /** One more entry joined. */
  lemma JoinStep(entries: seq<string>, i: nat)
    requires i < |entries|
    ensures Join(entries[..i + 1], ',') == if i == 0 then entries[i] else Join(entries[..i], ',') + "," + entries[i]
  {
    JoinSnoc(entries[..i], entries[i]);
    assert entries[..i + 1] == entries[..i] + [entries[i]];
  }

  /** The rendered entries of a report. */
  function Entries(statuses: seq<DashboardStatus>, cached: bool, timing: uint64,
                   render: (DashboardStatus, bool, uint64) -> string): seq<string>
  {
    seq(|statuses|, i requires 0 <= i < |statuses| => render(statuses[i], cached, timing))
  }

  /** The text of a health report: the entries, each rendered with the
      hardware cache's timing, joined with commas inside the report object
      that carries the mesh cache's timing. */
  function ReportJson(report: HealthReport, cached: bool, meshTiming: uint64, hardwareTiming: uint64,
                      render: (DashboardStatus, bool, uint64) -> string): string
  {
    "{\"cached\":" + BoolText(cached) + ",\"cacheTiming\":" + Decimal(meshTiming)
    + ",\"data\":[" + Join(Entries(report.statuses, cached, hardwareTiming, render), ',') + "]}"
  }

  /** `HealthReportToJSON`, which builds the joined entries in a loop. */
  method HealthReportToJSON(report: HealthReport, cached: bool, meshTiming: uint64, hardwareTiming: uint64,
                            render: (DashboardStatus, bool, uint64) -> string) returns (json: string)
    ensures json == ReportJson(report, cached, meshTiming, hardwareTiming, render)
  {
    var entries := Entries(report.statuses, cached, hardwareTiming, render);
    var data := "";
    var i := 0;
    while i < |report.statuses|
      invariant 0 <= i <= |report.statuses|
      invariant data == Join(entries[..i], ',')
    {
      JoinStep(entries, i);
      if i != 0 {
        data := data + ",";
      }
      data := data + render(report.statuses[i], cached, hardwareTiming);
      i := i + 1;
    }
    assert entries[..i] == entries;
    json := "{\"cached\":" + BoolText(cached) + ",\"cacheTiming\":" + Decimal(meshTiming) + ",\"data\":[" + data + "]}";
  }

  // ---------------------------------------------------------------------
  // Dispatch

  datatype RouteKind = ApiMc | ApiJellyfin | ApiStatus | ApiLocal | DashboardPage | Favicon | StaticFiles | Unrouted
  {
    predicate IsApi() { this == ApiMc || this == ApiJellyfin || this == ApiStatus || this == ApiLocal }
  }

  /** Which GET guard inside `ROUTE("/api")` holds, or `Unrouted`. */
  function ApiDispatch(m: HttpMethod, path: string): (r: RouteKind)
    ensures r == Unrouted || r.IsApi()
  {
    var api := API_PREFIX;
    if !Routing.StartsWith(path, api) then Unrouted
    else if Routing.MethodGuard(GET, m, path, api, MC_ROUTE) then ApiMc
    else if Routing.MethodGuard(GET, m, path, api, JELLYFIN_ROUTE) then ApiJellyfin
    else if Routing.MethodGuard(GET, m, path, api, STATUS_ROUTE) then ApiStatus
    else if Routing.MethodGuard(GET, m, path, api, LOCAL_ROUTE) then ApiLocal
    else Unrouted
  }

  /** Which top-level guard holds: GET "/", GET "/favicon.ico", or the
      "/static" prefix test, which takes any method. */
  function PageDispatch(m: HttpMethod, path: string): (r: RouteKind)
    ensures !r.IsApi()
  {
    if Routing.MethodGuard(GET, m, path, "", ROOT_ROUTE) then DashboardPage
    else if Routing.MethodGuard(GET, m, path, "", FAVICON_ROUTE) then Favicon
    else if Routing.StartsWith(path, Server.STATIC_PART) then StaticFiles
    else Unrouted
  }

  /** Which branch of `handleRoutes` answers a request: an `/api` handler
      if one does, else a page. */
  function Dispatch(m: HttpMethod, path: string): RouteKind
  {
    if ApiDispatch(m, path) != Unrouted then ApiDispatch(m, path) else PageDispatch(m, path)
  }

  /** The four API routes are exactly GET on "/api/mc", "/api/jellyfin",
      "/api/status" and "/api/local". */
  lemma ApiRoutes(m: HttpMethod, path: string)
    ensures Dispatch(m, path) == ApiMc <==> m == GET && path == "/api/mc"
    ensures Dispatch(m, path) == ApiJellyfin <==> m == GET && path == "/api/jellyfin"
    ensures Dispatch(m, path) == ApiStatus <==> m == GET && path == "/api/status"
    ensures Dispatch(m, path) == ApiLocal <==> m == GET && path == "/api/local"
  {
    ApiGuards(m, path);
    assert API_PREFIX + MC_ROUTE == "/api/mc" && API_PREFIX + JELLYFIN_ROUTE == "/api/jellyfin";
    assert API_PREFIX + STATUS_ROUTE == "/api/status" && API_PREFIX + LOCAL_ROUTE == "/api/local";
  }

  /** Inside `ROUTE("/api")` each GET guard holds exactly when the request
      is routed to its handler; so at most one of them holds. */
  lemma ApiGuards(m: HttpMethod, path: string)
    ensures Routing.MethodGuard(GET, m, path, API_PREFIX, MC_ROUTE) <==> Dispatch(m, path) == ApiMc
    ensures Routing.MethodGuard(GET, m, path, API_PREFIX, JELLYFIN_ROUTE) <==> Dispatch(m, path) == ApiJellyfin
    ensures Routing.MethodGuard(GET, m, path, API_PREFIX, STATUS_ROUTE) <==> Dispatch(m, path) == ApiStatus
    ensures Routing.MethodGuard(GET, m, path, API_PREFIX, LOCAL_ROUTE) <==> Dispatch(m, path) == ApiLocal
  {
    ApiBranch(m, path, MC_ROUTE);
    ApiBranch(m, path, JELLYFIN_ROUTE);
    ApiBranch(m, path, STATUS_ROUTE);
    ApiBranch(m, path, LOCAL_ROUTE);
    // the four paths have different lengths
    assert |API_PREFIX + MC_ROUTE| == 7 && |API_PREFIX + JELLYFIN_ROUTE| == 13;
    assert |API_PREFIX + STATUS_ROUTE| == 11 && |API_PREFIX + LOCAL_ROUTE| == 10;
  }

  /** A GET guard inside `ROUTE("/api")` holds exactly for GET on the
      prefixed route. */
  lemma ApiBranch(m: HttpMethod, path: string, route: string)
    ensures Routing.StartsWith(path, API_PREFIX) && Routing.MethodGuard(GET, m, path, API_PREFIX, route)
        <==> m == GET && path == API_PREFIX + route
  {
    PrefixOf(API_PREFIX, route);
  }

  /** The top-level guards hold exactly for the routes they name: at the
      top level the prefix is empty. */
  lemma PageGuards(m: HttpMethod, path: string)
    ensures Routing.MethodGuard(GET, m, path, "", ROOT_ROUTE) <==> Dispatch(m, path) == DashboardPage
    ensures Routing.MethodGuard(GET, m, path, "", FAVICON_ROUTE) <==> Dispatch(m, path) == Favicon
    ensures Routing.StartsWith(path, Server.STATIC_PART) <==> Dispatch(m, path) == StaticFiles
  {
    ApiRoutes(m, path);
    assert "" + ROOT_ROUTE == ROOT_ROUTE && "" + FAVICON_ROUTE == FAVICON_ROUTE;
  }

  lemma PrefixOf(a: string, b: string)
    ensures Routing.StartsWith(a + b, a)
  {
    assert (a + b)[..|a|] == a;
  }

  /** Any method other than GET reaches a page only under "/static"; all
      else is the 404 page. */
  lemma OnlyGetIsRouted(m: HttpMethod, path: string)
    requires m != GET
    ensures Dispatch(m, path) == if Routing.StartsWith(path, Server.STATIC_PART) then StaticFiles else Unrouted
  {
  }

  // ---------------------------------------------------------------------
  // The route handlers

  /** The cache gate of each handler: test staleness with the reading
      `now`, and only when the cache is stale store the fetched value
      stamped with the later reading `stamp`; `cached` is false exactly
      then. */
  method Refresh<T>(c: CacheContainer.Container<T>, fetched: T, now: uint64, stamp: uint64) returns (cached: bool)
    modifies c
    ensures cached == !old(c.NeedsFetch(now))
    ensures cached ==> c.stored == old(c.stored) && c.lastFetched == old(c.lastFetched)
    ensures !cached ==> c.stored == fetched && c.lastFetched == stamp
  {
    cached := true;
    if c.NeedsFetch(now) {
      var _ := c.Cache(fetched, stamp);
      cached := false;
    }
  }

  /** The part of a response a page handler decides. */
  datatype Page = Page(status: int, body: string, contentType: string)

  /** The 404 page as `respondFile` gives it: its contents as HTML, or the
      plain 404 text when it cannot be opened. */
  function NotFoundPage(files: string -> Option<string>): Page
  {
    if files(NOT_FOUND_PAGE).Some? then Page(404, files(NOT_FOUND_PAGE).value, Server.ContentTypeFor(NOT_FOUND_PAGE))
    else Page(404, Server.NOT_FOUND_BODY, Server.TEXT_PLAIN)
  }

  /** What a page gets from `respondFile` and the 404 fallback: the file
      with 200 and the type for its suffix, or the 404 page when it cannot
      be opened. */
  function FileAnswer(files: string -> Option<string>, path: string): Page
  {
    if files(path).Some? then Page(200, files(path).value, Server.ContentTypeFor(path)) else NotFoundPage(files)
  }

  /** The final status, body and content type of a request no `/api`
      handler answers. */
  function PageResponse(kind: RouteKind, url: string, isDir: string -> bool, files: string -> Option<string>): (r: Page)
    ensures r.status == 200 || r.status == 403 || r.status == 404
    ensures r.status == 403 <==> kind == StaticFiles && Server.DirectoryOutcomeAsWritten(Server.STATIC_DIR, Server.STATIC_PART, url, isDir).Forbidden?
    ensures r.status == 403 ==> r.body == Server.FORBIDDEN_BODY && r.contentType == Server.TEXT_PLAIN
    ensures r.status == 404 ==> r == NotFoundPage(files)
    ensures r.status == 200 && kind == DashboardPage ==> r.contentType == "text/html"
  {
    match kind
    case DashboardPage => FileAnswer(files, DASHBOARD_PAGE)
    case Favicon => FileAnswer(files, FAVICON_FILE)
    case StaticFiles =>
      (match Server.DirectoryOutcomeAsWritten(Server.STATIC_DIR, Server.STATIC_PART, url, isDir)
       case Forbidden => Page(403, Server.FORBIDDEN_BODY, Server.TEXT_PLAIN)
       case Serve(f) => FileAnswer(files, f)
       case NotFound => NotFoundPage(files))
    case _ => NotFoundPage(files)
  }

  /** The static globals of the routes: the four caches and the route
      prefix stack. */
  class Services {
    const serverCache: CacheContainer.Container<Status.MCStatus>
    const jellyfinCache: CacheContainer.Container<JellyfinStatus>
    const hardwareCache: CacheContainer.Container<DashboardStatus>
    const meshCache: CacheContainer.Container<HealthReport>
    const stack: Routing.RouteStack

    /** The caches as the program starts: their TTLs, never fetched. */
    constructor (blankMc: Status.MCStatus)
      ensures fresh(serverCache) && fresh(jellyfinCache) && fresh(hardwareCache) && fresh(meshCache) && fresh(stack)
      ensures serverCache.ttl == SERVER_TTL && jellyfinCache.ttl == JELLYFIN_TTL
      ensures hardwareCache.ttl == HARDWARE_TTL && meshCache.ttl == MESH_TTL
      ensures serverCache.lastFetched == 0 && jellyfinCache.lastFetched == 0
      ensures hardwareCache.lastFetched == 0 && meshCache.lastFetched == 0
      ensures stack.stack == []
    {
      serverCache := new CacheContainer.Container(SERVER_TTL, blankMc);
      jellyfinCache := new CacheContainer.Container(JELLYFIN_TTL, NO_JELLYFIN);
      hardwareCache := new CacheContainer.Container(HARDWARE_TTL, DashboardStatus([], 0, 0, 0, false, false));
      meshCache := new CacheContainer.Container(MESH_TTL, HealthReport([]));
      stack := new Routing.RouteStack();
    }

    /** `GetHealthReport`: refresh the hardware cache when stale, put this
        host's status first, then the records of the configured peers. */
    method GetHealthReport(now: uint64, stamp: uint64, local: DashboardStatus, outcomes: seq<PeerOutcome>)
      returns (health: HealthReport)
      requires |outcomes| == |NETWORK_SERVER_IPS|
      modifies hardwareCache
      ensures old(hardwareCache.NeedsFetch(now)) ==> hardwareCache.stored == local && hardwareCache.lastFetched == stamp
      ensures !old(hardwareCache.NeedsFetch(now)) ==> (
          hardwareCache.stored == old(hardwareCache.stored) && hardwareCache.lastFetched == old(hardwareCache.lastFetched))
      ensures health.statuses == [hardwareCache.stored]
                                 + PeerRecords(hardwareCache.stored.ips, NETWORK_SERVER_IPS, outcomes)
    {
      var _ := Refresh(hardwareCache, local, now, stamp);
      var self := hardwareCache.Get();
      var statuses := CollectPeers(self, NETWORK_SERVER_IPS, outcomes);
      health := HealthReport(statuses);
    }

    /** An `/api` handler that answers from a cache. */
    method ServeJson<T>(res: Server.ResponseData, c: CacheContainer.Container<T>, fetched: T, now: uint64, stamp: uint64,
                        render: (T, bool, uint64) -> string)
      modifies res`status, res`body, res`contentType, res`handled, c
      ensures old(c.NeedsFetch(now)) ==> c.stored == fetched && c.lastFetched == stamp
      ensures !old(c.NeedsFetch(now)) ==> c.stored == old(c.stored) && c.lastFetched == old(c.lastFetched)
      ensures res.status == 200 && res.handled && res.contentType == JSON_TYPE
      ensures res.body == render(c.stored, !old(c.NeedsFetch(now)), c.lastFetched)
    {
      var cached := Refresh(c, fetched, now, stamp);
      res.contentType := JSON_TYPE;
      res.body := render(c.Get(), cached, c.GetTiming());
      res.status := 200;
      res.handled := true;
    }

    /** `GET /api/status`: the health report, rebuilt only when the mesh
        cache is stale. */
    method ServeStatus(res: Server.ResponseData, fetched: Fetched, clock: Clock, render: Renderers)
      requires |fetched.peers| == |NETWORK_SERVER_IPS|
      modifies res`status, res`body, res`contentType, res`handled, meshCache, hardwareCache
      ensures old(meshCache.NeedsFetch(clock.check)) ==> (
          meshCache.lastFetched == clock.stamp
          && meshCache.stored.statuses == [hardwareCache.stored] + PeerRecords(hardwareCache.stored.ips, NETWORK_SERVER_IPS, fetched.peers)
          && (old(hardwareCache.NeedsFetch(clock.innerCheck)) ==>
                hardwareCache.stored == fetched.local && hardwareCache.lastFetched == clock.innerStamp)
          && (!old(hardwareCache.NeedsFetch(clock.innerCheck)) ==>
                hardwareCache.stored == old(hardwareCache.stored) && hardwareCache.lastFetched == old(hardwareCache.lastFetched)))
      ensures !old(meshCache.NeedsFetch(clock.check)) ==> (
          meshCache.stored == old(meshCache.stored) && meshCache.lastFetched == old(meshCache.lastFetched)
          && hardwareCache.stored == old(hardwareCache.stored) && hardwareCache.lastFetched == old(hardwareCache.lastFetched))
      ensures res.status == 200 && res.handled && res.contentType == JSON_TYPE
      ensures res.body == ReportJson(meshCache.stored, !old(meshCache.NeedsFetch(clock.check)), meshCache.lastFetched,
                                     hardwareCache.lastFetched, render.dashboard)
    {
      var cached := true;
      if meshCache.NeedsFetch(clock.check) {
        var health := GetHealthReport(clock.innerCheck, clock.innerStamp, fetched.local, fetched.peers);
        var _ := meshCache.Cache(health, clock.stamp);
        cached := false;
      }
      var health := meshCache.Get();
      res.contentType := JSON_TYPE;
      res.body := HealthReportToJSON(health, cached, meshCache.GetTiming(), hardwareCache.GetTiming(), render.dashboard);
      res.status := 200;
      res.handled := true;
    }

    /** The `ROUTE("/api")` block: push the prefix, run the four GET
        guards once against "/api", pop. Nothing else changes. */
    method ServeApi(req: Server.RequestData, res: Server.ResponseData, clock: Clock, fetched: Fetched, render: Renderers)
      requires stack.stack == [] && |fetched.peers| == |NETWORK_SERVER_IPS|
      modifies res`status, res`body, res`contentType, res`handled, stack, serverCache, jellyfinCache, hardwareCache, meshCache
      ensures stack.stack == []
      ensures Dispatch(req.method_, req.path) == ApiMc ==> (
          res.status == 200 && res.handled && res.contentType == JSON_TYPE
          && res.body == render.mc(serverCache.stored, !old(serverCache.NeedsFetch(clock.check)), serverCache.lastFetched)
          && (old(serverCache.NeedsFetch(clock.check)) ==> serverCache.stored == fetched.mc && serverCache.lastFetched == clock.stamp))
      ensures Dispatch(req.method_, req.path) == ApiJellyfin ==> (
          res.status == 200 && res.handled && res.contentType == JSON_TYPE
          && res.body == render.jellyfin(jellyfinCache.stored, !old(jellyfinCache.NeedsFetch(clock.check)), jellyfinCache.lastFetched)
          && (old(jellyfinCache.NeedsFetch(clock.check)) ==>
                jellyfinCache.stored == fetched.jellyfin && jellyfinCache.lastFetched == clock.stamp))
      ensures Dispatch(req.method_, req.path) == ApiLocal ==> (
          res.status == 200 && res.handled && res.contentType == JSON_TYPE
          && res.body == render.dashboard(hardwareCache.stored, !old(hardwareCache.NeedsFetch(clock.check)), hardwareCache.lastFetched)
          && (old(hardwareCache.NeedsFetch(clock.check)) ==>
                hardwareCache.stored == fetched.local && hardwareCache.lastFetched == clock.stamp))
      ensures Dispatch(req.method_, req.path) == ApiStatus ==> (
          res.status == 200 && res.handled && res.contentType == JSON_TYPE
          && res.body == ReportJson(meshCache.stored, !old(meshCache.NeedsFetch(clock.check)), meshCache.lastFetched,
                                    hardwareCache.lastFetched, render.dashboard))
      ensures Dispatch(req.method_, req.path) == ApiStatus && old(meshCache.NeedsFetch(clock.check)) ==> (
          meshCache.lastFetched == clock.stamp
          && meshCache.stored.statuses == [hardwareCache.stored] + PeerRecords(hardwareCache.stored.ips, NETWORK_SERVER_IPS, fetched.peers)
          && (old(hardwareCache.NeedsFetch(clock.innerCheck)) ==>
                hardwareCache.stored == fetched.local && hardwareCache.lastFetched == clock.innerStamp)
          && (!old(hardwareCache.NeedsFetch(clock.innerCheck)) ==>
                hardwareCache.stored == old(hardwareCache.stored) && hardwareCache.lastFetched == old(hardwareCache.lastFetched)))
      ensures Dispatch(req.method_, req.path) == ApiStatus && !old(meshCache.NeedsFetch(clock.check)) ==> (
          hardwareCache.stored == old(hardwareCache.stored) && hardwareCache.lastFetched == old(hardwareCache.lastFetched))
      ensures Dispatch(req.method_, req.path) != ApiMc ==> (
          serverCache.stored == old(serverCache.stored) && serverCache.lastFetched == old(serverCache.lastFetched))
      ensures Dispatch(req.method_, req.path) != ApiJellyfin ==> (
          jellyfinCache.stored == old(jellyfinCache.stored)
          && jellyfinCache.lastFetched == old(jellyfinCache.lastFetched))
      ensures Dispatch(req.method_, req.path) != ApiStatus || !old(meshCache.NeedsFetch(clock.check)) ==> (
          meshCache.stored == old(meshCache.stored) && meshCache.lastFetched == old(meshCache.lastFetched))
      ensures Dispatch(req.method_, req.path) != ApiStatus && Dispatch(req.method_, req.path) != ApiLocal ==> (
          hardwareCache.stored == old(hardwareCache.stored) && hardwareCache.lastFetched == old(hardwareCache.lastFetched))
      ensures !Dispatch(req.method_, req.path).IsApi() ==> (
          res.status == old(res.status) && res.body == old(res.body) && res.handled == old(res.handled)
          && res.contentType == old(res.contentType))
    {
      ApiGuards(req.method_, req.path);
      var views := stack.Route(req.path, API_PREFIX);
      if |views| > 0 {
        var prefix := views[0];
        assert prefix == API_PREFIX by {
          assert ([] + [API_PREFIX])[..1] == [API_PREFIX];
        }
        if Routing.MethodGuard(GET, req.method_, req.path, prefix, MC_ROUTE) {
          ServeJson(res, serverCache, fetched.mc, clock.check, clock.stamp, render.mc);
        }
        if Routing.MethodGuard(GET, req.method_, req.path, prefix, JELLYFIN_ROUTE) {
          ServeJson(res, jellyfinCache, fetched.jellyfin, clock.check, clock.stamp, render.jellyfin);
        }
        if Routing.MethodGuard(GET, req.method_, req.path, prefix, STATUS_ROUTE) {
          ServeStatus(res, fetched, clock, render);
        }
        if Routing.MethodGuard(GET, req.method_, req.path, prefix, LOCAL_ROUTE) {
          ServeJson(res, hardwareCache, fetched.local, clock.check, clock.stamp, render.dashboard);
        }
      }
    }

    /** The top-level guards after the `/api` block (the dashboard page, the
        icon, the static files), then the 404 page when the status is still
        0 or is 404. */
    method ServePages(req: Server.RequestData, res: Server.ResponseData, isDir: string -> bool, files: string -> Option<string>)
      requires stack.stack == []
      requires if Dispatch(req.method_, req.path).IsApi() then res.status == 200 && res.handled else res.status == 0
      modifies res`status, res`body, res`contentType, res`handled, res`headers
      ensures res.handled
      ensures Dispatch(req.method_, req.path).IsApi() ==> (
          res.status == old(res.status) && res.body == old(res.body) && res.contentType == old(res.contentType))
      ensures !Dispatch(req.method_, req.path).IsApi() ==> (
          Page(res.status, res.body, res.contentType) == PageResponse(Dispatch(req.method_, req.path), req.url, isDir, files))
      ensures res.headers == if Dispatch(req.method_, req.path) == DashboardPage
                             then old(res.headers)[CSP_HEADER := DASHBOARD_CSP] else old(res.headers)
    {
      PageGuardsFire(req, res, isDir, files);
      NotFoundFallback(res, files);
    }

    /** The three top-level guards: the one that holds answers the request,
        with a 404 of its own when its file is missing; when none holds the
        response is left as it was. */
    method PageGuardsFire(req: Server.RequestData, res: Server.ResponseData, isDir: string -> bool,
                          files: string -> Option<string>)
      requires stack.stack == []
      modifies res`status, res`body, res`contentType, res`handled, res`headers
      ensures var kind := Dispatch(req.method_, req.path);
        kind == DashboardPage || kind == Favicon || kind == StaticFiles ==> (
          res.handled
          && (res.status == 404 <==> PageResponse(kind, req.url, isDir, files).status == 404)
          && (res.status != 404 ==> Page(res.status, res.body, res.contentType) == PageResponse(kind, req.url, isDir, files)))
      ensures var kind := Dispatch(req.method_, req.path);
        !(kind == DashboardPage || kind == Favicon || kind == StaticFiles) ==> (
          res.status == old(res.status) && res.body == old(res.body) && res.handled == old(res.handled)
          && res.contentType == old(res.contentType))
      ensures res.headers == if Dispatch(req.method_, req.path) == DashboardPage
                             then old(res.headers)[CSP_HEADER := DASHBOARD_CSP] else old(res.headers)
    {
      var top := stack.Prefix();
      assert top == "";
      PageGuards(req.method_, req.path);
      if Routing.MethodGuard(GET, req.method_, req.path, top, ROOT_ROUTE) {
        res.RespondFile(DASHBOARD_PAGE, files(DASHBOARD_PAGE));
        res.headers := res.headers[CSP_HEADER := DASHBOARD_CSP];
      }
      if Routing.MethodGuard(GET, req.method_, req.path, top, FAVICON_ROUTE) {
        res.RespondFile(FAVICON_FILE, files(FAVICON_FILE));
      }
      if Routing.StartsWith(req.path, Server.STATIC_PART) {
        res.RespondDirectory(Server.STATIC_DIR, Server.STATIC_PART, req.url, isDir, files);
      }
    }

    /** The last step of `handleRoutes`: a status of 0 or 404 becomes the
        404 page. */
    method NotFoundFallback(res: Server.ResponseData, files: string -> Option<string>)
      modifies res`status, res`body, res`contentType, res`handled
      ensures old(res.status) == 0 || old(res.status) == 404 ==> (
          res.handled && Page(res.status, res.body, res.contentType) == NotFoundPage(files))
      ensures !(old(res.status) == 0 || old(res.status) == 404) ==> (
          res.status == old(res.status) && res.body == old(res.body)
          && res.contentType == old(res.contentType) && res.handled == old(res.handled))
    {
      if res.status == 404 || res.status == 0 {
        res.RespondFile(NOT_FOUND_PAGE, files(NOT_FOUND_PAGE));
        res.status := 404;
        res.handled := true;
      }
    }

    /** `handleRoutes`: the `/api` handlers, then the pages and the 404
        fallback. Every request ends handled. */
    method HandleRoutes(req: Server.RequestData, res: Server.ResponseData, clock: Clock, fetched: Fetched,
                        render: Renderers, isDir: string -> bool, files: string -> Option<string>)
      returns (handled: bool)
      requires stack.stack == [] && |fetched.peers| == |NETWORK_SERVER_IPS|
      modifies res, stack, serverCache, jellyfinCache, hardwareCache, meshCache
      ensures handled && res.handled && stack.stack == []
      ensures Dispatch(req.method_, req.path) == ApiMc ==> (
          res.status == 200 && res.contentType == JSON_TYPE
          && res.body == render.mc(serverCache.stored, !old(serverCache.NeedsFetch(clock.check)), serverCache.lastFetched)
          && (old(serverCache.NeedsFetch(clock.check)) ==> serverCache.stored == fetched.mc && serverCache.lastFetched == clock.stamp))
      ensures Dispatch(req.method_, req.path) == ApiJellyfin ==> (
          res.status == 200 && res.contentType == JSON_TYPE
          && res.body == render.jellyfin(jellyfinCache.stored, !old(jellyfinCache.NeedsFetch(clock.check)), jellyfinCache.lastFetched)
          && (old(jellyfinCache.NeedsFetch(clock.check)) ==>
                jellyfinCache.stored == fetched.jellyfin && jellyfinCache.lastFetched == clock.stamp))
      ensures Dispatch(req.method_, req.path) == ApiLocal ==> (
          res.status == 200 && res.contentType == JSON_TYPE
          && res.body == render.dashboard(hardwareCache.stored, !old(hardwareCache.NeedsFetch(clock.check)), hardwareCache.lastFetched)
          && (old(hardwareCache.NeedsFetch(clock.check)) ==>
                hardwareCache.stored == fetched.local && hardwareCache.lastFetched == clock.stamp))
      ensures Dispatch(req.method_, req.path) == ApiStatus ==> (
          res.status == 200 && res.contentType == JSON_TYPE
          && res.body == ReportJson(meshCache.stored, !old(meshCache.NeedsFetch(clock.check)), meshCache.lastFetched,
                                    hardwareCache.lastFetched, render.dashboard))
      ensures Dispatch(req.method_, req.path) == ApiStatus && old(meshCache.NeedsFetch(clock.check)) ==> (
          meshCache.lastFetched == clock.stamp
          && meshCache.stored.statuses == [hardwareCache.stored] + PeerRecords(hardwareCache.stored.ips, NETWORK_SERVER_IPS, fetched.peers)
          && (old(hardwareCache.NeedsFetch(clock.innerCheck)) ==>
                hardwareCache.stored == fetched.local && hardwareCache.lastFetched == clock.innerStamp)
          && (!old(hardwareCache.NeedsFetch(clock.innerCheck)) ==>
                hardwareCache.stored == old(hardwareCache.stored) && hardwareCache.lastFetched == old(hardwareCache.lastFetched)))
      ensures Dispatch(req.method_, req.path) == ApiStatus && !old(meshCache.NeedsFetch(clock.check)) ==> (
          hardwareCache.stored == old(hardwareCache.stored) && hardwareCache.lastFetched == old(hardwareCache.lastFetched))
      ensures Dispatch(req.method_, req.path) != ApiMc ==> (
          serverCache.stored == old(serverCache.stored) && serverCache.lastFetched == old(serverCache.lastFetched))
      ensures Dispatch(req.method_, req.path) != ApiJellyfin ==> (
          jellyfinCache.stored == old(jellyfinCache.stored)
          && jellyfinCache.lastFetched == old(jellyfinCache.lastFetched))
      ensures Dispatch(req.method_, req.path) != ApiStatus || !old(meshCache.NeedsFetch(clock.check)) ==> (
          meshCache.stored == old(meshCache.stored) && meshCache.lastFetched == old(meshCache.lastFetched))
      ensures Dispatch(req.method_, req.path) != ApiStatus && Dispatch(req.method_, req.path) != ApiLocal ==> (
          hardwareCache.stored == old(hardwareCache.stored) && hardwareCache.lastFetched == old(hardwareCache.lastFetched))
      ensures !Dispatch(req.method_, req.path).IsApi() ==> (
          Page(res.status, res.body, res.contentType) == PageResponse(Dispatch(req.method_, req.path), req.url, isDir, files))
      ensures res.headers == if Dispatch(req.method_, req.path) == DashboardPage
                             then old(res.headers)[CSP_HEADER := DASHBOARD_CSP] else old(res.headers)
      ensures res.cookies == old(res.cookies) && res.keepAlive == old(res.keepAlive)
    {
      res.status := 0;
      ServeApi(req, res, clock, fetched, render);
      ServePages(req, res, isDir, files);
      handled := res.handled;
    }
  }
}
