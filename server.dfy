/** The request and response helpers of the HTTP server: lookups on a
    parsed request, the response setters, serving files and directories, the
    default response headers, and the Cookie and Host header splitting done
    while a request is parsed. The file system is given as two functions:
    which paths are directories, and what a regular file holds. */
module Server {
  import opened Wrappers
  import opened Http
  import Routing

  const NOT_FOUND_BODY := "404 Not Found"
  const FORBIDDEN_BODY := "403 Forbidden"
  const TEXT_PLAIN := "text/plain"
  const OCTET_STREAM := "application/octet-stream"
  const SERVER_VERSION := "1.0"

  /** The parts of `RequestData` the helpers read. */
  datatype RequestData = RequestData(
    url: string, host: string, subdomain: string, domain: string, path: string,
    method_: HttpMethod, queryParams: map<string, string>,
    headers: map<string, string>, cookies: map<string, string>)

  /** `contains(key) ? at(key) : ""`. */
  function Lookup(m: map<string, string>, key: string): string
  {
    if key in m then m[key] else ""
  }

  /** `RequestData::getHeader`. */
  function GetHeader(req: RequestData, key: string): string
  {
    Lookup(req.headers, key)
  }

  /** `RequestData::getQueryParam`. */
  function GetQueryParam(req: RequestData, key: string): string
  {
    Lookup(req.queryParams, key)
  }

  /** `RequestData::getCookie`. */
  function GetCookie(req: RequestData, key: string): string
  {
    Lookup(req.cookies, key)
  }

  /** A query parameter read back from a request whose parameters came from
      a query string: the value of the last token with that key, and "" for
      a key no token has. */
  lemma QueryParamLookup(req: RequestData, query: string, j: nat)
    requires req.queryParams == QueryParams(query)
    requires var tokens := Split(query, '&');
      j < |tokens| && forall l :: j < l < |tokens| ==> KeyOf(tokens[l]) != KeyOf(tokens[j])
    ensures GetQueryParam(req, KeyOf(Split(query, '&')[j])) == ValueOf(Split(query, '&')[j])
  {
    LaterTokenWins(map[], Split(query, '&'), j);
  }

  /** A key that no token of the query string has reads as "". */
  lemma QueryParamAbsent(req: RequestData, query: string, key: string)
    requires req.queryParams == QueryParams(query)
    requires forall l :: 0 <= l < |Split(query, '&')| ==> KeyOf(Split(query, '&')[l]) != key
    ensures GetQueryParam(req, key) == ""
  {
    FillKeys(map[], Split(query, '&'), key);
  }

  // ---------------------------------------------------------------------
  // Suffixes and paths

  function EndsWith(s: string, suffix: string): bool
  {
    |suffix| <= |s| && s[|s| - |suffix|..] == suffix
  }

  /** The content type `respondFile` picks from a file name's suffix. */
  function ContentTypeFor(path: string): string
  {
    if EndsWith(path, ".html") then "text/html"
    else if EndsWith(path, ".css") then "text/css"
    else if EndsWith(path, ".js") then "application/javascript"
    else if EndsWith(path, ".png") then "image/png"
    else if EndsWith(path, ".jpg") || EndsWith(path, ".jpeg") then "image/jpeg"
    else if EndsWith(path, ".txt") then TEXT_PLAIN
    else OCTET_STREAM
  }

  /** Each known suffix gives its type, and both JPEG spellings give
      "image/jpeg". */
  lemma {:induction false} KnownSuffixes(name: string)
    ensures ContentTypeFor(name + ".html") == "text/html"
    ensures ContentTypeFor(name + ".css") == "text/css"
    ensures ContentTypeFor(name + ".png") == "image/png"
    ensures ContentTypeFor(name + ".jpg") == "image/jpeg" == ContentTypeFor(name + ".jpeg")
  {
    SuffixOf(name, ".html");
    SuffixOf(name, ".css");
    SuffixOf(name, ".png");
    SuffixOf(name, ".jpg");
    SuffixOf(name, ".jpeg");
    assert !EndsWith(name + ".css", ".html") by { assert (name + ".css")[|name + ".css"| - 1] == 's'; }
    assert !EndsWith(name + ".png", ".html") && !EndsWith(name + ".png", ".css") by {
      assert (name + ".png")[|name + ".png"| - 1] == 'g';
    }
    assert !EndsWith(name + ".png", ".js") by { assert (name + ".png")[|name + ".png"| - 1] == 'g'; }
    assert !EndsWith(name + ".jpg", ".html") && !EndsWith(name + ".jpg", ".css") by {
      assert (name + ".jpg")[|name + ".jpg"| - 1] == 'g';
    }
    assert !EndsWith(name + ".jpg", ".js") && !EndsWith(name + ".jpg", ".png") by {
      assert (name + ".jpg")[|name + ".jpg"| - 2] == 'p';
    }
    assert !EndsWith(name + ".jpeg", ".html") && !EndsWith(name + ".jpeg", ".css") by {
      assert (name + ".jpeg")[|name + ".jpeg"| - 1] == 'g';
    }
    assert !EndsWith(name + ".jpeg", ".js") && !EndsWith(name + ".jpeg", ".png") by {
      assert (name + ".jpeg")[|name + ".jpeg"| - 2] == 'e';
    }
  }

  lemma SuffixOf(name: string, suffix: string)
    ensures EndsWith(name + suffix, suffix)
  {
    assert (name + suffix)[|name + suffix| - |suffix|..] == suffix;
  }

  /** A name with none of the known suffixes is served as
      "application/octet-stream". */
  lemma UnknownSuffix(path: string)
    requires forall s :: s in [".html", ".css", ".js", ".png", ".jpg", ".jpeg", ".txt"] ==> !EndsWith(path, s)
    ensures ContentTypeFor(path) == OCTET_STREAM
  {
    assert ".html" in [".html", ".css", ".js", ".png", ".jpg", ".jpeg", ".txt"];
    assert ".css" in [".html", ".css", ".js", ".png", ".jpg", ".jpeg", ".txt"];
    assert ".js" in [".html", ".css", ".js", ".png", ".jpg", ".jpeg", ".txt"];
    assert ".png" in [".html", ".css", ".js", ".png", ".jpg", ".jpeg", ".txt"];
    assert ".jpg" in [".html", ".css", ".js", ".png", ".jpg", ".jpeg", ".txt"];
    assert ".jpeg" in [".html", ".css", ".js", ".png", ".jpg", ".jpeg", ".txt"];
    assert ".txt" in [".html", ".css", ".js", ".png", ".jpg", ".jpeg", ".txt"];
  }

  /** `fs::path(base) / p` on a POSIX system: an absolute `p` replaces the
      base; otherwise `p` is appended, with a '/' in between unless the base
      is empty or already ends with one. */
  function PathJoin(base: string, p: string): string
  {
    if |p| > 0 && p[0] == '/' then p
    else if |base| == 0 || base[|base| - 1] == '/' then base + p
    else base + "/" + p
  }

  /** A relative part keeps the base in front. */
  lemma PathJoinKeepsBase(base: string, p: string)
    requires !(|p| > 0 && p[0] == '/')
    ensures Routing.StartsWith(PathJoin(base, p), base)
  {
    if |base| == 0 || base[|base| - 1] == '/' {
      assert (base + p)[..|base|] == base;
    } else {
      assert (base + "/" + p)[..|base|] == base;
    }
  }

  /** `relative.find("..") != npos`. */
  predicate HasDotDot(s: string)
  {
    exists i :: 0 <= i < |s| - 1 && s[i] == '.' && s[i + 1] == '.'
  }

  // ---------------------------------------------------------------------
  // respondDirectory's path guard

  datatype DirOutcome = NotFound | Forbidden | Serve(file: string)

  /** The requested remainder after the mount point, "/index.html" when it
      is empty or "/". */
  function Relative(part: string, url: string): string
    requires Routing.StartsWith(url, part)
  {
    var rel := url[|part|..];
    if |rel| == 0 || rel == "/" then "/index.html" else rel
  }

  /** The file a relative remainder names inside `dir`: its first character
      dropped and the rest joined to `dir`, then "index.html" added when
      that is a directory. */
  function Target(dir: string, rel: string, isDir: string -> bool): string
    requires |rel| > 0
  {
    var full := PathJoin(dir, rel[1..]);
    if isDir(full) then PathJoin(full, "index.html") else full
  }

  /** `respondDirectory` as written, up to the file it would serve: outside
      the mount point is 404, a ".." is 403; any other remainder is joined to
      `dir`. A remainder that starts with "//" makes the joined part
      absolute, and the join then drops `dir`. */
  function DirectoryOutcomeAsWritten(dir: string, part: string, url: string, isDir: string -> bool): DirOutcome
  {
    if !Routing.StartsWith(url, part) then NotFound
    else
      var rel := Relative(part, url);
      if HasDotDot(rel) then Forbidden
      else Serve(Target(dir, rel, isDir))
  }

  const STATIC_DIR := "resources/static/"
  const STATIC_PART := "/static"
  const OUTSIDE_FILE := "/etc/passwd"

  /** An input that shows it: "/static//etc/passwd" under "/static" serves
      "/etc/passwd", outside "resources/static/". */
  lemma AsWrittenEscapesDirectory(isDir: string -> bool)
    requires !isDir(OUTSIDE_FILE)
    ensures DirectoryOutcomeAsWritten(STATIC_DIR, STATIC_PART, STATIC_PART + "/" + OUTSIDE_FILE, isDir) == Serve(OUTSIDE_FILE)
    ensures !Routing.StartsWith(OUTSIDE_FILE, STATIC_DIR)
  {
    var url := STATIC_PART + "/" + OUTSIDE_FILE;
    assert url[..|STATIC_PART|] == STATIC_PART;
    var rel := "/" + OUTSIDE_FILE;
    assert url[|STATIC_PART|..] == rel;
    assert '.' !in rel;
    assert rel[1..] == OUTSIDE_FILE;
    assert OUTSIDE_FILE[0] != STATIC_DIR[0];
  }

  /** The evident intent: also refuse a remainder whose joined part would be
      absolute, so that nothing outside `dir` is served. */
  function DirectoryOutcome(dir: string, part: string, url: string, isDir: string -> bool): (r: DirOutcome)
    ensures r.Serve? && |dir| > 0 && dir[|dir| - 1] == '/' ==> Routing.StartsWith(r.file, dir)
  {
    if !Routing.StartsWith(url, part) then NotFound
    else
      var rel := Relative(part, url);
      if HasDotDot(rel) then Forbidden
      else if |rel| > 1 && rel[1] == '/' then Forbidden
      else
        var full := PathJoin(dir, rel[1..]);
        PathJoinKeepsBase(dir, rel[1..]);
        if isDir(full) then
          PathJoinKeepsBase(full, "index.html");
          StartsWithTrans(PathJoin(full, "index.html"), full, dir);
          Serve(PathJoin(full, "index.html"))
        else Serve(full)
  }

  lemma StartsWithTrans(a: string, b: string, c: string)
    requires Routing.StartsWith(a, b) && Routing.StartsWith(b, c)
    ensures Routing.StartsWith(a, c)
  {
    assert a[..|c|] == b[..|b|][..|c|];
  }

  /** The corrected guard agrees with the code on every URL that does not
      put "//" right after the mount point. */
  lemma DirectoryOutcomeAgrees(dir: string, part: string, url: string, isDir: string -> bool)
    requires Routing.StartsWith(url, part) ==> !(|Relative(part, url)| > 1 && Relative(part, url)[1] == '/')
    ensures DirectoryOutcome(dir, part, url, isDir) == DirectoryOutcomeAsWritten(dir, part, url, isDir)
  {
  }

  /** Whatever the remainder, a ".." in it is refused and an URL outside the
      mount point is not found, by the code and by the corrected guard. */
  lemma DirectoryRefusals(dir: string, part: string, url: string, isDir: string -> bool)
    ensures !Routing.StartsWith(url, part) ==> DirectoryOutcome(dir, part, url, isDir) == NotFound
    ensures Routing.StartsWith(url, part) && HasDotDot(Relative(part, url))
            ==> DirectoryOutcome(dir, part, url, isDir) == Forbidden
    ensures !Routing.StartsWith(url, part) ==> DirectoryOutcomeAsWritten(dir, part, url, isDir) == NotFound
    ensures Routing.StartsWith(url, part) && HasDotDot(Relative(part, url))
            ==> DirectoryOutcomeAsWritten(dir, part, url, isDir) == Forbidden
  {
  }

  /** The code stays inside `dir` exactly as far as the corrected guard does:
      on every URL without "//" right after the mount point, a file it
      serves lies inside a directory that ends in '/'. */
  lemma AsWrittenInsideWithoutDoubleSlash(dir: string, part: string, url: string, isDir: string -> bool)
    requires |dir| > 0 && dir[|dir| - 1] == '/'
    requires Routing.StartsWith(url, part) ==> !(|Relative(part, url)| > 1 && Relative(part, url)[1] == '/')
    ensures DirectoryOutcomeAsWritten(dir, part, url, isDir).Serve?
        ==> Routing.StartsWith(DirectoryOutcomeAsWritten(dir, part, url, isDir).file, dir)
  {
    DirectoryOutcomeAgrees(dir, part, url, isDir);
  }

  // ---------------------------------------------------------------------
  // Response data

  /** The value `setCookie` stores: "name=value; Path=path", then
      "; extra" when `extra` is not empty. */
  function CookieString(name: string, value: string, path: string, extra: string): string
  {
    name + "=" + value + "; Path=" + path + (if |extra| > 0 then "; " + extra else "")
  }

  /** A cookie whose name has no '=' splits back, at its first '=', into
      its name and the rest of the attribute string (cf. section 4.1.1 of
      RFC 6265). */
  lemma CookieSplitsBack(name: string, value: string, path: string, extra: string)
    requires '=' !in name
    ensures KeyOf(CookieString(name, value, path, extra)) == name
    ensures ValueOf(CookieString(name, value, path, extra))
         == value + "; Path=" + path + (if |extra| > 0 then "; " + extra else "")
  {
    var tail := value + "; Path=" + path + (if |extra| > 0 then "; " + extra else "");
    var c := CookieString(name, value, path, extra);
    assert c == name + "=" + tail;
    assert forall k :: 0 <= k < |name| ==> c[k] == name[k];
    IndexOfAt(c, '=', 0, |name|);
    assert c[|name| + 1..] == tail;
  }

  /** `find` stops at the first occurrence at or after `from`. */
  lemma {:induction false} IndexOfAt(s: string, c: char, from: nat, j: nat)
    requires from <= j < |s| && s[j] == c
    requires forall k :: from <= k < j ==> s[k] != c
    ensures IndexOf(s, c, from) == j
    decreases j - from
  {
    if from < j {
      IndexOfAt(s, c, from + 1, j);
    }
  }

  class ResponseData {
    var status: int
    var headers: map<string, string>
    var cookies: map<string, string>
    var body: string
    var contentType: string
    var keepAlive: bool
    var handled: bool

    /** The struct's defaults. */
    constructor ()
      ensures status == 200 && headers == map[] && cookies == map[] && body == ""
      ensures contentType == TEXT_PLAIN && keepAlive && !handled
    {
      status := 200;
      headers := map[];
      cookies := map[];
      body := "";
      contentType := TEXT_PLAIN;
      keepAlive := true;
      handled := false;
    }

    /** `setHeader`. */
    method SetHeader(key: string, value: string)
      modifies this`headers
      ensures headers == old(headers)[key := value]
    {
      headers := headers[key := value];
    }

    /** `setCookie`: one entry per cookie name, replacing an earlier one. */
    method SetCookie(name: string, value: string, path: string, extra: string)
      modifies this`cookies
      ensures cookies == old(cookies)[name := CookieString(name, value, path, extra)]
    {
      var attributes := "";
      if |extra| > 0 {
        attributes := "; " + extra;
      }
      cookies := cookies[name := name + "=" + value + "; Path=" + path + attributes];
    }

    /** `setBody`: the body is always replaced; the type only when one is
        given. */
    method SetBody(b: string, contentType_: string)
      modifies this`body, this`contentType
      ensures body == b
      ensures contentType == if |contentType_| > 0 then contentType_ else old(contentType)
    {
      body := b;
      if |contentType_| > 0 {
        contentType := contentType_;
      }
    }

    /** `respondFile`: `contents` is what the file holds, or `None` when it
        cannot be opened. */
    method RespondFile(filepath: string, contents: Option<string>)
      modifies this`status, this`body, this`contentType, this`handled
      ensures handled
      ensures contents.None? ==> status == 404 && body == NOT_FOUND_BODY && contentType == TEXT_PLAIN
      ensures contents.Some? ==> status == 200 && body == contents.value && contentType == ContentTypeFor(filepath)
    {
      if contents.None? {
        status := 404;
        SetBody(NOT_FOUND_BODY, TEXT_PLAIN);
        handled := true;
        return;
      }
      body := contents.value;
      if EndsWith(filepath, ".html") {
        contentType := "text/html";
      } else if EndsWith(filepath, ".css") {
        contentType := "text/css";
      } else if EndsWith(filepath, ".js") {
        contentType := "application/javascript";
      } else if EndsWith(filepath, ".png") {
        contentType := "image/png";
      } else if EndsWith(filepath, ".jpg") || EndsWith(filepath, ".jpeg") {
        contentType := "image/jpeg";
      } else if EndsWith(filepath, ".txt") {
        contentType := TEXT_PLAIN;
      } else {
        contentType := OCTET_STREAM;
      }
      status := 200;
      handled := true;
    }

    /** `respondDirectory` as written: 404 outside the mount point, 403 for
        a "..", 404 when the target is not a regular file, and otherwise the
        file, even one outside `dir` (see `AsWrittenEscapesDirectory`). `files` gives what a
        regular file holds, `None` for anything else. */
    method RespondDirectory(dir: string, part: string, url: string, isDir: string -> bool,
                            files: string -> Option<string>)
      modifies this`status, this`body, this`contentType, this`handled
      ensures handled
      ensures match DirectoryOutcomeAsWritten(dir, part, url, isDir)
        case NotFound => status == 404 && body == NOT_FOUND_BODY && contentType == TEXT_PLAIN
        case Forbidden => status == 403 && body == FORBIDDEN_BODY && contentType == TEXT_PLAIN
        case Serve(f) =>
          if files(f).None? then status == 404 && body == NOT_FOUND_BODY && contentType == TEXT_PLAIN
          else status == 200 && body == files(f).value && contentType == ContentTypeFor(f)
    {
      if !Routing.StartsWith(url, part) {
        status := 404;
        SetBody(NOT_FOUND_BODY, TEXT_PLAIN);
        handled := true;
        return;
      }
      var relative := url[|part|..];
      if |relative| == 0 || relative == "/" {
        relative := "/index.html";
      }
      if HasDotDot(relative) {
        status := 403;
        SetBody(FORBIDDEN_BODY, TEXT_PLAIN);
        handled := true;
        return;
      }
      var fullPath := PathJoin(dir, relative[1..]);
      if isDir(fullPath) {
        fullPath := PathJoin(fullPath, "index.html");
      }
      if files(fullPath).None? {
        status := 404;
        SetBody(NOT_FOUND_BODY, TEXT_PLAIN);
        handled := true;
        return;
      }
      RespondFile(fullPath, files(fullPath));
    }
  }

  // ---------------------------------------------------------------------
  // Default response headers

  /** The headers `constructResponseHeaders` sends after its fixed lines:
      the caller's, plus a default for each of the four security and cache
      headers the caller did not set. */
  function DefaultHeaders(headers: map<string, string>, contentType: string): (r: map<string, string>)
    ensures forall k :: k in headers ==> k in r && r[k] == headers[k]
    ensures r.Keys == headers.Keys + {"Cache-Control", "Content-Security-Policy", "Referrer-Policy", "X-Frame-Options"}
  {
    var h1 := if "Cache-Control" in headers then headers
      else if Routing.StartsWith(contentType, "text/") then headers["Cache-Control" := "public, max-age=86400"]
      else headers["Cache-Control" := "no-cache, no-store, must-revalidate"];
    var h2 := if "Content-Security-Policy" in h1 then h1 else h1["Content-Security-Policy" := "default-src 'self'"];
    var h3 := if "Referrer-Policy" in h2 then h2 else h2["Referrer-Policy" := "no-referrer"];
    if "X-Frame-Options" in h3 then h3 else h3["X-Frame-Options" := "SAMEORIGIN"]
  }

  /** Without a caller's Cache-Control, text is cached publicly for a day
      and everything else is not cached. */
  lemma CacheControlDefault(headers: map<string, string>, contentType: string)
    requires "Cache-Control" !in headers
    ensures DefaultHeaders(headers, contentType)["Cache-Control"]
         == if Routing.StartsWith(contentType, "text/") then "public, max-age=86400"
            else "no-cache, no-store, must-revalidate"
  {
  }

  /** Adding the defaults twice adds nothing more. */
  lemma DefaultHeadersIdempotent(headers: map<string, string>, contentType: string)
    ensures DefaultHeaders(DefaultHeaders(headers, contentType), contentType) == DefaultHeaders(headers, contentType)
  {
  }

  /** `constructResponseHeaders`: the fixed lines (content type, connection,
      server, date) and the header map; `date` stands for the clock. The
      text rendering and the map's iteration order are not modelled. */
  method ConstructResponseHeaders(res: ResponseData, date: string)
    returns (lead: seq<(string, string)>, headers: map<string, string>)
    ensures lead == [
      ("Content-Type", if |res.contentType| > 0 then res.contentType else "text/plain; charset=utf-8"),
      ("Connection", if res.keepAlive then "keep-alive" else "close"),
      ("Server", "NoreServer/" + SERVER_VERSION),
      ("Date", date)]
    ensures headers == DefaultHeaders(res.headers, res.contentType)
  {
    lead := [
      ("Content-Type", if |res.contentType| > 0 then res.contentType else "text/plain; charset=utf-8"),
      ("Connection", if res.keepAlive then "keep-alive" else "close"),
      ("Server", "NoreServer/" + SERVER_VERSION),
      ("Date", date)];
    headers := res.headers;
    if "Cache-Control" !in headers {
      if Routing.StartsWith(res.contentType, "text/") {
        headers := headers["Cache-Control" := "public, max-age=86400"];
      } else {
        headers := headers["Cache-Control" := "no-cache, no-store, must-revalidate"];
      }
    }
    if "Content-Security-Policy" !in headers {
      headers := headers["Content-Security-Policy" := "default-src 'self'"];
    }
    if "Referrer-Policy" !in headers {
      headers := headers["Referrer-Policy" := "no-referrer"];
    }
    if "X-Frame-Options" !in headers {
      headers := headers["X-Frame-Options" := "SAMEORIGIN"];
    }
  }

  // ---------------------------------------------------------------------
  // Cookie and Host headers

  /** The cookies the tokens of a Cookie header fill: a token is cut at its
      first '=' and stored, a token without '=' is skipped. */
  function FillCookies(cookies: map<string, string>, tokens: seq<string>): map<string, string>
    decreases |tokens|
  {
    if |tokens| == 0 then cookies
    else if '=' in tokens[0] then FillCookies(cookies[KeyOf(tokens[0]) := ValueOf(tokens[0])], tokens[1..])
    else FillCookies(cookies, tokens[1..])
  }

  /** The cookies of a Cookie header, split on ';' with no trimming. */
  function CookiesOf(header: string): map<string, string>
  {
    FillCookies(map[], Split(header, ';'))
  }

  lemma FillCookiesCons(cookies: map<string, string>, token: string, rest: seq<string>)
    ensures FillCookies(cookies, [token] + rest)
         == if '=' in token then FillCookies(cookies[KeyOf(token) := ValueOf(token)], rest) else FillCookies(cookies, rest)
  {
    assert ([token] + rest)[1..] == rest;
  }

  /** The cookie parsing in the request handler. */
  method ParseCookies(header: string) returns (cookies: map<string, string>)
    ensures cookies == CookiesOf(header)
  {
    cookies := map[];
    var pos := 0;
    while pos < |header|
      invariant 0 <= pos <= |header|
      invariant FillCookies(cookies, SplitFrom(header, ';', pos)) == CookiesOf(header)
      decreases |header| - pos
    {
      var end := IndexOf(header, ';', pos);
      var kv := header[pos..end];
      var next := if end == |header| then |header| else end + 1;
      SplitFromStep(header, ';', pos);
      FillCookiesCons(cookies, kv, SplitFrom(header, ';', next));
      var eq := IndexOf(kv, '=', 0);
      IndexOfIn(kv, '=');
      if eq < |kv| {
        var key, value := kv[..eq], kv[eq + 1..];
        assert FillCookies(cookies[key := value], SplitFrom(header, ';', next))
            == FillCookies(cookies, SplitFrom(header, ';', pos));
        cookies := cookies[key := value];
      }
      pos := next;
    }
  }

  /** A token without '=' leaves the cookies as they are, and the keys
      filled are the keys of the tokens that have one. */
  lemma {:induction false} CookieKeys(cookies: map<string, string>, tokens: seq<string>, k: string)
    ensures k in FillCookies(cookies, tokens)
        <==> k in cookies || exists j :: 0 <= j < |tokens| && '=' in tokens[j] && KeyOf(tokens[j]) == k
    decreases |tokens|
  {
    if |tokens| > 0 {
      var next := if '=' in tokens[0] then cookies[KeyOf(tokens[0]) := ValueOf(tokens[0])] else cookies;
      CookieKeys(next, tokens[1..], k);
      if exists j :: 0 <= j < |tokens| && '=' in tokens[j] && KeyOf(tokens[j]) == k {
        var j :| 0 <= j < |tokens| && '=' in tokens[j] && KeyOf(tokens[j]) == k;
        if j > 0 {
          assert tokens[1..][j - 1] == tokens[j];
        }
      }
      if exists j :: 0 <= j < |tokens[1..]| && '=' in tokens[1..][j] && KeyOf(tokens[1..][j]) == k {
        var j :| 0 <= j < |tokens[1..]| && '=' in tokens[1..][j] && KeyOf(tokens[1..][j]) == k;
        assert tokens[j + 1] == tokens[1..][j];
      }
    }
  }

  /** Tokens that do not carry a key leave its cookie as it is. */
  lemma {:induction false} CookieUntouched(cookies: map<string, string>, tokens: seq<string>, k: string)
    requires k in cookies
    requires forall l :: 0 <= l < |tokens| && '=' in tokens[l] ==> KeyOf(tokens[l]) != k
    ensures k in FillCookies(cookies, tokens) && FillCookies(cookies, tokens)[k] == cookies[k]
    decreases |tokens|
  {
    if |tokens| > 0 {
      var next := if '=' in tokens[0] then cookies[KeyOf(tokens[0]) := ValueOf(tokens[0])] else cookies;
      forall l | 0 <= l < |tokens[1..]| && '=' in tokens[1..][l] ensures KeyOf(tokens[1..][l]) != k {
        assert tokens[1..][l] == tokens[l + 1];
      }
      CookieUntouched(next, tokens[1..], k);
    }
  }

  /** A cookie sent twice keeps the value of its last `name=value` token. */
  lemma {:induction false} LaterCookieWins(cookies: map<string, string>, tokens: seq<string>, j: nat)
    requires j < |tokens| && '=' in tokens[j]
    requires forall l :: j < l < |tokens| && '=' in tokens[l] ==> KeyOf(tokens[l]) != KeyOf(tokens[j])
    ensures KeyOf(tokens[j]) in FillCookies(cookies, tokens)
    ensures FillCookies(cookies, tokens)[KeyOf(tokens[j])] == ValueOf(tokens[j])
    decreases |tokens|
  {
    var next := if '=' in tokens[0] then cookies[KeyOf(tokens[0]) := ValueOf(tokens[0])] else cookies;
    var rest := tokens[1..];
    if j == 0 {
      forall l | 0 <= l < |rest| && '=' in rest[l] ensures KeyOf(rest[l]) != KeyOf(tokens[0]) {
        assert rest[l] == tokens[l + 1];
      }
      CookieUntouched(next, rest, KeyOf(tokens[0]));
    } else {
      forall l | j - 1 < l < |rest| && '=' in rest[l] ensures KeyOf(rest[l]) != KeyOf(rest[j - 1]) {
        assert rest[l] == tokens[l + 1];
      }
      LaterCookieWins(next, rest, j - 1);
    }
  }

  /** `req.host` split at its first '.', when that dot is not the last
      character; otherwise subdomain and domain stay unset. */
  function SplitHost(host: string): (r: Option<(string, string)>)
    ensures r.Some? <==> '.' in host[..if |host| == 0 then 0 else |host| - 1]
    ensures r.Some? ==> r.value.0 + "." + r.value.1 == host && '.' !in r.value.0 && |r.value.1| > 0
  {
    if |host| == 0 then None
    else
      var dot := IndexOf(host, '.', 0);
      IndexOfIn(host[..|host| - 1], '.');
      IndexOfPrefix(host, |host| - 1, '.');
      if dot < |host| - 1 then
        assert host == host[..dot] + "." + host[dot + 1..];
        assert '.' !in host[..dot] by {
          forall k | 0 <= k < dot ensures host[..dot][k] != '.' {
            IndexOfFirst(host, '.', 0, k);
          }
        }
        Some((host[..dot], host[dot + 1..]))
      else None
  }

  /** `find` in a prefix finds what `find` in the whole text finds, when
      that lies inside the prefix. */
  lemma {:induction false} IndexOfPrefix(s: string, n: nat, c: char)
    requires n <= |s|
    ensures IndexOf(s, c, 0) < n ==> IndexOf(s[..n], c, 0) == IndexOf(s, c, 0)
    ensures IndexOf(s, c, 0) >= n ==> IndexOf(s[..n], c, 0) == n
  {
    IndexOfPrefixFrom(s, n, c, 0);
  }

  lemma {:induction false} IndexOfPrefixFrom(s: string, n: nat, c: char, from: nat)
    requires from <= n <= |s|
    ensures IndexOf(s, c, from) < n ==> IndexOf(s[..n], c, from) == IndexOf(s, c, from)
    ensures IndexOf(s, c, from) >= n ==> IndexOf(s[..n], c, from) == n
    decreases n - from
  {
    if from < n {
      assert s[..n][from] == s[from];
      IndexOfPrefixFrom(s, n, c, from + 1);
    }
  }
}
