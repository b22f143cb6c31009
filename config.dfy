/** `DashsrvConfig`: the configuration file read at start-up. The host
    address and port, with their defaults, and the list of servers the
    dashboard watches, each checked for the fields its type needs. The file
    system, the JSON parser and the mDNS resolver are inputs; an exception
    the constructor throws is a `Failure` carrying its message. */
module Config {
  import opened Wrappers
  import opened Ints
  import Server

  const DEFAULT_CONFIG := "{\n    \"hostip\": \"0.0.0.0\",\n    \"hostport\": 8080\n}"
  const DEFAULT_IP := "0.0.0.0"
  const DEFAULT_PORT: int32 := 8080
  const MDNS_SUFFIX := ".local"

  const ERR_MINECRAFT := "malformed config.json (in minecraft server type)"
  /** The message of a jellyfin entry, and also of a dashboard entry. */
  const ERR_JELLYFIN := "malformed config.json (in jellyfin server type)"
  const ERR_UNKNOWN_PREFIX := "malformed config.json (unknown server type '"
  const ERR_UNKNOWN_SUFFIX := "')"
  /** The JSON library's exception for a value of the wrong type. */
  const TYPE_ERROR := "type_error"
  /** The JSON library's exception for text that is not JSON. */
  const PARSE_ERROR := "parse_error"
  /** The model's name for reading "type" from an entry that lacks it. */
  const MISSING_TYPE := "missing type"

  /** A JSON value; numbers are integers. */
  datatype Json =
    | JNull
    | JBool(b: bool)
    | JNum(n: int)
    | JStr(s: string)
    | JArr(items: seq<Json>)
    | JObj(fields: map<string, Json>)

  /** What the parser made of the text. */
  datatype Parsed = ParseFailed | Discarded | Value(json: Json)

  datatype ServerEntry =
    | Minecraft(ip: string, port: int32, version: int32, extraDomain: string)
    | Jellyfin(ip: string, port: int32)
    | Dashboard(ip: string, port: int32)

  datatype ServerConfig = ServerConfig(kind: string, server: ServerEntry)

  /** The members the constructor sets. */
  datatype ConfigValue = ConfigValue(ip: string, port: int32, servers: seq<ServerConfig>)

  /** `json.contains(key)`: false for anything but an object. */
  predicate Contains(j: Json, key: string)
  {
    j.JObj? && key in j.fields
  }

  /** Conversion to `std::string`: only a string converts. */
  function AsString(j: Json): Option<string>
  {
    if j.JStr? then Some(j.s) else None
  }

  /** Conversion to `int`: a number is cut to 32 bits, a boolean is 0 or 1,
      anything else does not convert. */
  function AsInt(j: Json): Option<int32>
  {
    match j
    case JNum(n) => Some(WrapInt32(n))
    case JBool(b) => Some(if b then 1 else 0)
    case _ => None
  }

  /** An address ending in ".local" is looked up with mDNS. */
  function Resolve(ip: string, resolveMDNS: string -> string): string
  {
    if Server.EndsWith(ip, MDNS_SUFFIX) then resolveMDNS(ip) else ip
  }

  /** A string field converted, or the type error. */
  function StringField(entry: Json, key: string): Result<string>
    requires Contains(entry, key)
  {
    match AsString(entry.fields[key])
    case Some(s) => Success(s)
    case None => Failure(TYPE_ERROR)
  }

  /** An `int` field converted, or the type error. */
  function IntField(entry: Json, key: string): Result<int32>
    requires Contains(entry, key)
  {
    match AsInt(entry.fields[key])
    case Some(n) => Success(n)
    case None => Failure(TYPE_ERROR)
  }

  /** One entry of "servers", in the order the constructor reads it: the
      type; the required fields of that type; "extra-domain" for a
      minecraft server; the address, resolved; then the numbers. */
  function ServerOf(entry: Json, resolveMDNS: string -> string): Result<ServerConfig>
  {
    if !entry.JObj? then Failure(TYPE_ERROR)
    else if !Contains(entry, "type") then Failure(MISSING_TYPE)
    else match StringField(entry, "type")
      case Failure(e) => Failure(e)
      case Success(t) =>
        if t == "minecraft" then
          if !Contains(entry, "ip") || !Contains(entry, "port") || !Contains(entry, "version") then Failure(ERR_MINECRAFT)
          else
            var extra := if Contains(entry, "extra-domain") then StringField(entry, "extra-domain") else Success("");
            var ip := StringField(entry, "ip");
            var port := IntField(entry, "port");
            var version := IntField(entry, "version");
            if extra.Failure? then Failure(extra.error)
            else if ip.Failure? then Failure(ip.error)
            else if port.Failure? then Failure(port.error)
            else if version.Failure? then Failure(version.error)
            else Success(ServerConfig(t, Minecraft(Resolve(ip.value, resolveMDNS), port.value, version.value, extra.value)))
        else if t == "jellyfin" || t == "dashboard" then
          if !Contains(entry, "ip") || !Contains(entry, "port") then Failure(ERR_JELLYFIN)
          else
            var ip := StringField(entry, "ip");
            var port := IntField(entry, "port");
            if ip.Failure? then Failure(ip.error)
            else if port.Failure? then Failure(port.error)
            else if t == "jellyfin" then Success(ServerConfig(t, Jellyfin(Resolve(ip.value, resolveMDNS), port.value)))
            else Success(ServerConfig(t, Dashboard(Resolve(ip.value, resolveMDNS), port.value)))
        else Failure(ERR_UNKNOWN_PREFIX + t + ERR_UNKNOWN_SUFFIX)
  }

  /** The entries converted in order; the first entry that fails ends the
      loop with its error. */
  function Collect<A, B>(items: seq<A>, convert: A -> Result<B>): Result<seq<B>>
  {
    if |items| == 0 then Success([])
    else match Collect(items[..|items| - 1], convert)
      case Failure(e) => Failure(e)
      case Success(xs) =>
        match convert(items[|items| - 1])
        case Failure(e) => Failure(e)
        case Success(x) => Success(xs + [x])
  }

  /** The constructor's loop over "servers". */
  function ServersOf(items: seq<Json>, resolveMDNS: string -> string): Result<seq<ServerConfig>>
  {
    Collect(items, entry => ServerOf(entry, resolveMDNS))
  }

  /** The "servers" the constructor reads: only an array counts. */
  function ServerList(json: Json): seq<Json>
  {
    if Contains(json, "servers") && json.fields["servers"].JArr? then json.fields["servers"].items else []
  }

  /** "hostip", resolved, or "0.0.0.0" when absent. */
  function HostIp(json: Json, resolveMDNS: string -> string): Result<string>
  {
    if !Contains(json, "hostip") then Success(DEFAULT_IP)
    else match StringField(json, "hostip")
      case Failure(e) => Failure(e)
      case Success(ip) => Success(Resolve(ip, resolveMDNS))
  }

  /** "hostport", or 8080 when absent. */
  function HostPort(json: Json): Result<int32>
  {
    if Contains(json, "hostport") then IntField(json, "hostport") else Success(DEFAULT_PORT)
  }

  /** The constructor's body after parsing: the host address, the port,
      then the servers. */
  function DecodeJson(json: Json, resolveMDNS: string -> string): Result<ConfigValue>
  {
    var ip := HostIp(json, resolveMDNS);
    var port := HostPort(json);
    var servers := ServersOf(ServerList(json), resolveMDNS);
    if ip.Failure? then Failure(ip.error)
    else if port.Failure? then Failure(port.error)
    else if servers.Failure? then Failure(servers.error)
    else Success(ConfigValue(ip.value, port.value, servers.value))
  }

  /** The whole constructor after reading the text: a parse error is thrown,
      a discarded document leaves the members as they were (empty). */
  function Decode(parsed: Parsed, resolveMDNS: string -> string): Result<ConfigValue>
  {
    match parsed
    case ParseFailed => Failure(PARSE_ERROR)
    case Discarded => Success(ConfigValue("", 0, []))
    case Value(json) => DecodeJson(json, resolveMDNS)
  }

  class DashsrvConfig {
    var ip: string
    var port: int32
    var servers: seq<ServerConfig>

    /** The members before the constructor's body runs. */
    constructor ()
      ensures ip == "" && port == 0 && servers == []
    {
      ip := "";
      port := 0;
      servers := [];
    }

    /** The constructor's body on a parsed document: set the host, then
        append each server entry in order. */
    method Configure(json: Json, resolveMDNS: string -> string) returns (error: Option<string>)
      modifies this
      ensures match DecodeJson(json, resolveMDNS)
        case Failure(e) => error == Some(e)
        case Success(c) => error == None && ip == c.ip && port == c.port && servers == old(servers) + c.servers
    {
      error := None;
      var host := HostIp(json, resolveMDNS);
      if host.Failure? {
        error := Some(host.error);
        return;
      }
      ip := host.value;
      var hostPort := HostPort(json);
      if hostPort.Failure? {
        error := Some(hostPort.error);
        return;
      }
      port := hostPort.value;
      error := AppendServers(ServerList(json), resolveMDNS);
    }

    /** The loop over "servers": each accepted entry is appended; the first
        that fails stops the loop with its error. */
    method AppendServers(items: seq<Json>, resolveMDNS: string -> string) returns (error: Option<string>)
      modifies this
      ensures ip == old(ip) && port == old(port)
      ensures match ServersOf(items, resolveMDNS)
        case Failure(e) => error == Some(e)
        case Success(xs) => error == None && servers == old(servers) + xs
    {
      error := None;
      ghost var convert := entry => ServerOf(entry, resolveMDNS);
      var i := 0;
      while i < |items|
        invariant 0 <= i <= |items|
        invariant ip == old(ip) && port == old(port)
        invariant Collect(items[..i], convert).Success?
        invariant servers == old(servers) + Collect(items[..i], convert).value
      {
        CollectStep(items, i, convert);
        var entry := ServerOf(items[i], resolveMDNS);
        if entry.Failure? {
          FailureSticks(items, i + 1, convert);
          error := Some(entry.error);
          return;
        }
        servers := servers + [entry.value];
        i := i + 1;
      }
      assert items[..i] == items;
    }
  }

  /** `DashsrvConfig(path)`: read the file, or write and use the default
      text when there is none; parse it; configure. `written` is what was
      written to `path`. */
  method LoadConfig(path: string, readFile: string -> Option<string>, parse: string -> Parsed,
                    resolveMDNS: string -> string)
    returns (config: DashsrvConfig, error: Option<string>, written: Option<string>)
    ensures fresh(config)
    ensures written == if readFile(path).None? then Some(DEFAULT_CONFIG) else None
    ensures var text := if readFile(path).None? then DEFAULT_CONFIG else readFile(path).value;
      match Decode(parse(text), resolveMDNS)
      case Failure(e) => error == Some(e)
      case Success(c) => error == None && config.ip == c.ip && config.port == c.port && config.servers == c.servers
  {
    var configOpt := readFile(path);
    var configStr: string;
    written := None;
    if configOpt.None? {
      written := Some(DEFAULT_CONFIG);
      configStr := DEFAULT_CONFIG;
    } else {
      configStr := configOpt.value;
    }
    config := new DashsrvConfig();
    var parsed := parse(configStr);
    error := None;
    match parsed {
      case ParseFailed =>
        error := Some(PARSE_ERROR);
      case Discarded =>
      case Value(json) =>
        error := config.Configure(json, resolveMDNS);
    }
  }

  // ---------------------------------------------------------------------
  // Properties

  /** Once an entry fails, the entries after it are not read: the result is
      that failure. */
  lemma {:induction false} FailureSticks<A, B>(items: seq<A>, k: nat, convert: A -> Result<B>)
    requires k <= |items| && Collect(items[..k], convert).Failure?
    ensures Collect(items, convert) == Collect(items[..k], convert)
    decreases |items| - k
  {
    if k < |items| {
      var n := |items|;
      assert items[..n - 1][..k] == items[..k];
      FailureSticks(items[..n - 1], k, convert);
    } else {
      assert items[..k] == items;
    }
  }

  /** One turn of the loop over the entries. */
  lemma CollectStep<A, B>(items: seq<A>, i: nat, convert: A -> Result<B>)
    requires i < |items| && Collect(items[..i], convert).Success?
    ensures Collect(items[..i + 1], convert)
         == match convert(items[i])
            case Failure(e) => Failure(e)
            case Success(x) => Success(Collect(items[..i], convert).value + [x])
  {
    assert items[..i + 1][..i] == items[..i];
  }

  /** An accepted list has one result per entry, in input order, each
      converted from its entry. */
  lemma {:induction false} CollectInOrder<A, B>(items: seq<A>, convert: A -> Result<B>)
    requires Collect(items, convert).Success?
    ensures |Collect(items, convert).value| == |items|
    ensures forall k :: 0 <= k < |items| ==> convert(items[k]) == Success(Collect(items, convert).value[k])
  {
    if |items| > 0 {
      var init := items[..|items| - 1];
      CollectInOrder(init, convert);
      forall k | 0 <= k < |items|
        ensures convert(items[k]) == Success(Collect(items, convert).value[k])
      {
        if k < |items| - 1 {
          assert items[k] == init[k];
        }
      }
    }
  }

  /** Conversely, a list whose every entry converts is accepted. */
  lemma {:induction false} AllAccepted<A, B>(items: seq<A>, convert: A -> Result<B>)
    requires forall k :: 0 <= k < |items| ==> convert(items[k]).Success?
    ensures Collect(items, convert).Success?
  {
    if |items| > 0 {
      var init := items[..|items| - 1];
      forall k | 0 <= k < |init| ensures convert(init[k]).Success? {
        assert init[k] == items[k];
      }
      AllAccepted(init, convert);
    }
  }

  /** The first entry that fails decides the error. */
  lemma FirstErrorWins<A, B>(items: seq<A>, k: nat, convert: A -> Result<B>)
    requires k < |items| && convert(items[k]).Failure?
    requires forall l :: 0 <= l < k ==> convert(items[l]).Success?
    ensures Collect(items, convert) == Failure(convert(items[k]).error)
  {
    var pre := items[..k];
    forall l | 0 <= l < |pre| ensures convert(pre[l]).Success? {
      assert pre[l] == items[l];
    }
    AllAccepted(pre, convert);
    CollectStep(items, k, convert);
    FailureSticks(items, k + 1, convert);
  }

  /** A document without "hostip" or "hostport" gets "0.0.0.0" and 8080. */
  lemma HostDefaults(json: Json, resolveMDNS: string -> string)
    requires DecodeJson(json, resolveMDNS).Success?
    ensures !Contains(json, "hostip") ==> DecodeJson(json, resolveMDNS).value.ip == DEFAULT_IP
    ensures !Contains(json, "hostport") ==> DecodeJson(json, resolveMDNS).value.port == DEFAULT_PORT
    ensures Contains(json, "hostip") ==> (json.fields["hostip"].JStr?
      && DecodeJson(json, resolveMDNS).value.ip == Resolve(json.fields["hostip"].s, resolveMDNS))
  {
  }

  /** The default text, parsed, configures "0.0.0.0":8080 with no servers. */
  lemma DefaultConfigDecodes(resolveMDNS: string -> string)
    ensures DecodeJson(JObj(map["hostip" := JStr(DEFAULT_IP), "hostport" := JNum(DEFAULT_PORT)]), resolveMDNS)
         == Success(ConfigValue(DEFAULT_IP, DEFAULT_PORT, []))
  {
    var json := JObj(map["hostip" := JStr(DEFAULT_IP), "hostport" := JNum(DEFAULT_PORT)]);
    assert !Server.EndsWith(DEFAULT_IP, MDNS_SUFFIX) by {
      assert DEFAULT_IP[|DEFAULT_IP| - 1] != MDNS_SUFFIX[|MDNS_SUFFIX| - 1];
    }
    assert "servers" !in json.fields;
  }

  /** A minecraft entry must have "ip", "port" and "version"; a jellyfin or
      dashboard entry "ip" and "port"; any other type is refused by name. */
  lemma RequiredFields(entry: Json, resolveMDNS: string -> string)
    requires Contains(entry, "type") && entry.fields["type"].JStr?
    ensures var t := entry.fields["type"].s;
      && (t == "minecraft" && !(Contains(entry, "ip") && Contains(entry, "port") && Contains(entry, "version"))
          ==> ServerOf(entry, resolveMDNS) == Failure(ERR_MINECRAFT))
      && ((t == "jellyfin" || t == "dashboard") && !(Contains(entry, "ip") && Contains(entry, "port"))
          ==> ServerOf(entry, resolveMDNS) == Failure(ERR_JELLYFIN))
      && (t != "minecraft" && t != "jellyfin" && t != "dashboard"
          ==> ServerOf(entry, resolveMDNS) == Failure(ERR_UNKNOWN_PREFIX + t + ERR_UNKNOWN_SUFFIX))
  {
  }

  /** An accepted server's address is the entry's, looked up with mDNS when
      it ends in ".local"; a minecraft server without "extra-domain" gets
      "". */
  lemma AcceptedServer(entry: Json, resolveMDNS: string -> string)
    requires ServerOf(entry, resolveMDNS).Success?
    ensures var c := ServerOf(entry, resolveMDNS).value;
      && Contains(entry, "ip") && entry.fields["ip"].JStr?
      && c.server.ip == Resolve(entry.fields["ip"].s, resolveMDNS)
      && c.kind == entry.fields["type"].s
      && (c.server.Minecraft? <==> c.kind == "minecraft")
      && (c.server.Minecraft? && !Contains(entry, "extra-domain") ==> c.server.extraDomain == "")
  {
  }
}
