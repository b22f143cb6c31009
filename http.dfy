/** Request-line helpers: the HTTP method names and the query string. */
module Http {

  datatype HttpMethod = HEAD | GET | DELETE | POST | PUT | CONNECT | OPTIONS | TRACE | PATCH

  /** The name each method is written with on the request line. */
  function MethodName(m: HttpMethod): string
  {
    match m
    case HEAD => "HEAD"
    case GET => "GET"
    case DELETE => "DELETE"
    case POST => "POST"
    case PUT => "PUT"
    case CONNECT => "CONNECT"
    case OPTIONS => "OPTIONS"
    case TRACE => "TRACE"
    case PATCH => "PATCH"
  }

  /** `parseHttpMethod`: an exact, case-sensitive match against the nine
      names; anything else is taken as GET. */
  function ParseHttpMethod(name: string): (r: HttpMethod)
    ensures r != GET ==> MethodName(r) == name
    ensures (forall m :: MethodName(m) != name) ==> r == GET
  {
    if name == "GET" then GET
    else if name == "POST" then POST
    else if name == "PUT" then PUT
    else if name == "DELETE" then DELETE
    else if name == "PATCH" then PATCH
    else if name == "HEAD" then HEAD
    else if name == "OPTIONS" then OPTIONS
    else if name == "TRACE" then TRACE
    else if name == "CONNECT" then CONNECT
    else GET
  }

  /** Every method's name parses back to that method. */
  lemma ParseMethodName(m: HttpMethod)
    ensures ParseHttpMethod(MethodName(m)) == m
  {
    match m
    case HEAD =>
    case GET =>
    case DELETE => assert "DELETE" != "GET" && "DELETE" != "POST" && "DELETE" != "PUT";
    case POST =>
    case PUT =>
    case CONNECT =>
    case OPTIONS =>
    case TRACE =>
    case PATCH =>
  }

  // ---------------------------------------------------------------------
  // Splitting with std::getline

  /** `s.find(c, from)`, with |s| standing for `npos`. */
  function IndexOf(s: string, c: char, from: nat): (i: nat)
    requires from <= |s|
    ensures from <= i <= |s|
    ensures i < |s| ==> s[i] == c
    decreases |s| - from
  {
    if from == |s| || s[from] == c then from else IndexOf(s, c, from + 1)
  }

  /** `find` finds something only where the character occurs. */
  lemma IndexOfFound(s: string, c: char, from: nat)
    requires from <= |s|
    ensures IndexOf(s, c, from) < |s| ==> c in s
  {
    var i := IndexOf(s, c, from);
    if i < |s| {
      assert s[i] == c;
    }
  }

  /** `find` returns the first occurrence: nothing before it matches. */
  lemma {:induction false} IndexOfFirst(s: string, c: char, from: nat, j: nat)
    requires from <= |s| && from <= j < IndexOf(s, c, from)
    ensures s[j] != c
    decreases |s| - from
  {
    if j > from {
      IndexOfFirst(s, c, from + 1, j);
    }
  }

  /** `find` from the start misses exactly when the character is absent. */
  lemma IndexOfIn(s: string, c: char)
    ensures c in s <==> IndexOf(s, c, 0) < |s|
  {
    IndexOfFound(s, c, 0);
    if IndexOf(s, c, 0) == |s| {
      forall k | 0 <= k < |s| ensures s[k] != c {
        IndexOfFirst(s, c, 0, k);
      }
    }
  }

  /** The tokens repeated `std::getline(stream, token, delim)` calls produce:
      a token per delimiter, plus the text after the last delimiter when
      there is any. "a&&b" gives "a", "", "b"; "a&" gives only "a". */
  function Split(s: string, delim: char): seq<string>
  {
    SplitFrom(s, delim, 0)
  }

  /** The tokens of the text from `pos` on: the token up to the next
      delimiter, then the tokens after that delimiter. */
  function SplitFrom(s: string, delim: char, pos: nat): seq<string>
    requires pos <= |s|
    decreases |s| - pos
  {
    if pos == |s| then []
    else
      var end := IndexOf(s, delim, pos);
      [s[pos..end]] + SplitFrom(s, delim, if end == |s| then |s| else end + 1)
  }

  /** The tokens written back with the delimiter between them. */
  function Join(tokens: seq<string>, delim: char): string
  {
    if |tokens| == 0 then []
    else if |tokens| == 1 then tokens[0]
    else tokens[0] + [delim] + Join(tokens[1..], delim)
  }

  /** No token holds the delimiter. */
  lemma {:induction false} SplitTokens(s: string, delim: char, pos: nat)
    requires pos <= |s|
    ensures forall j :: 0 <= j < |SplitFrom(s, delim, pos)| ==> delim !in SplitFrom(s, delim, pos)[j]
    decreases |s| - pos
  {
    if pos < |s| {
      var end := IndexOf(s, delim, pos);
      var token := s[pos..end];
      var tail := SplitFrom(s, delim, if end == |s| then |s| else end + 1);
      SplitTokens(s, delim, if end == |s| then |s| else end + 1);
      assert SplitFrom(s, delim, pos) == [token] + tail;
      forall k | 0 <= k < |token| ensures token[k] != delim {
        IndexOfFirst(s, delim, pos, pos + k);
      }
      forall j | 0 <= j < |tail| + 1 ensures delim !in ([token] + tail)[j] {
        if j > 0 {
          assert ([token] + tail)[j] == tail[j - 1];
        }
      }
    }
  }

  /** Splitting loses nothing but a trailing delimiter. */
  lemma {:induction false} SplitJoin(s: string, delim: char, pos: nat)
    requires pos <= |s|
    ensures Join(SplitFrom(s, delim, pos), delim)
            + (if pos < |s| && s[|s| - 1] == delim then [delim] else []) == s[pos..]
    decreases |s| - pos
  {
    if pos < |s| {
      var end := IndexOf(s, delim, pos);
      var token := s[pos..end];
      assert SplitFrom(s, delim, pos) == [token] + SplitFrom(s, delim, if end == |s| then |s| else end + 1);
      if end == |s| {
        IndexOfFirst(s, delim, pos, |s| - 1);
        assert Join([token], delim) == token;
      } else if end + 1 == |s| {
        assert Join([token], delim) == token;
        SliceAt(s, pos, end);
        assert s[end + 1..] == [];
      } else {
        var rest := s[end + 1..];
        var tail := SplitFrom(s, delim, end + 1);
        var trailer: string := if s[|s| - 1] == delim then [delim] else [];
        SplitJoin(s, delim, end + 1);
        assert Join(tail, delim) + trailer == rest;
        JoinCons(token, tail, delim);
        SliceAt(s, pos, end);
        Assoc(token + [delim], Join(tail, delim), trailer);
      }
    }
  }

  lemma JoinCons(t: string, tail: seq<string>, delim: char)
    requires |tail| > 0
    ensures Join([t] + tail, delim) == t + [delim] + Join(tail, delim)
  {
    assert ([t] + tail)[1..] == tail;
  }

  /** The text from `pos` is cut at `end` around the character there. */
  lemma SliceAt(s: string, pos: nat, end: nat)
    requires pos <= end < |s|
    ensures s[pos..] == s[pos..end] + [s[end]] + s[end + 1..]
  {
  }

  lemma Assoc(a: string, b: string, c: string)
    ensures (a + b) + c == a + (b + c)
  {
  }

  // ---------------------------------------------------------------------
  // Query strings

  /** The text before the first '=', or the whole token. */
  function KeyOf(token: string): string
  {
    token[..IndexOf(token, '=', 0)]
  }

  /** The text after the first '=', or "" when there is none. */
  function ValueOf(token: string): string
  {
    var i := IndexOf(token, '=', 0);
    if i == |token| then "" else token[i + 1..]
  }

  /** A token with an '=' is cut at its first one: the key holds no '=',
      the value may, and key "=" value is the token again. */
  lemma KeyValueSplit(token: string)
    requires '=' in token
    ensures '=' !in KeyOf(token)
    ensures KeyOf(token) + "=" + ValueOf(token) == token
  {
    var i := IndexOf(token, '=', 0);
    var k :| 0 <= k < |token| && token[k] == '=';
    if k < i {
      IndexOfFirst(token, '=', 0, k);
    }
    forall l | 0 <= l < i ensures KeyOf(token)[l] != '=' {
      IndexOfFirst(token, '=', 0, l);
    }
    assert token == token[..i] + [token[i]] + token[i + 1..];
  }

  /** A token without '=' is a key with the empty value. */
  lemma KeyWithoutValue(token: string)
    requires '=' !in token
    ensures KeyOf(token) == token && ValueOf(token) == ""
  {
    IndexOfFound(token, '=', 0);
    assert token[..|token|] == token;
  }

  /** The map the tokens fill, in order, starting from `params`: each
      token is stored under its key, so a later key overwrites. */
  function Fill(params: map<string, string>, tokens: seq<string>): map<string, string>
    decreases |tokens|
  {
    if |tokens| == 0 then params
    else Fill(params[KeyOf(tokens[0]) := ValueOf(tokens[0])], tokens[1..])
  }

  /** The parameters of a query string. */
  function QueryParams(query: string): map<string, string>
  {
    Fill(map[], Split(query, '&'))
  }

  lemma FillCons(params: map<string, string>, token: string, rest: seq<string>)
    ensures Fill(params, [token] + rest) == Fill(params[KeyOf(token) := ValueOf(token)], rest)
  {
    assert ([token] + rest)[1..] == rest;
  }

  /** The keys filled are those there before and the keys of the tokens. */
  lemma {:induction false} FillKeys(params: map<string, string>, tokens: seq<string>, k: string)
    ensures k in Fill(params, tokens) <==> k in params || exists j :: 0 <= j < |tokens| && KeyOf(tokens[j]) == k
    decreases |tokens|
  {
    if |tokens| > 0 {
      var next := params[KeyOf(tokens[0]) := ValueOf(tokens[0])];
      FillKeys(next, tokens[1..], k);
      if exists j :: 0 <= j < |tokens| && KeyOf(tokens[j]) == k {
        var j :| 0 <= j < |tokens| && KeyOf(tokens[j]) == k;
        if j > 0 {
          assert tokens[1..][j - 1] == tokens[j];
        }
      }
      if exists j :: 0 <= j < |tokens[1..]| && KeyOf(tokens[1..][j]) == k {
        var j :| 0 <= j < |tokens[1..]| && KeyOf(tokens[1..][j]) == k;
        assert tokens[j + 1] == tokens[1..][j];
      }
    }
  }

  /** Tokens with other keys leave a key's value alone. */
  lemma {:induction false} FillOtherKeys(params: map<string, string>, tokens: seq<string>, k: string)
    requires k in params
    requires forall j :: 0 <= j < |tokens| ==> KeyOf(tokens[j]) != k
    ensures k in Fill(params, tokens) && Fill(params, tokens)[k] == params[k]
    decreases |tokens|
  {
    if |tokens| > 0 {
      var next := params[KeyOf(tokens[0]) := ValueOf(tokens[0])];
      forall j | 0 <= j < |tokens[1..]| ensures KeyOf(tokens[1..][j]) != k {
        assert tokens[1..][j] == tokens[j + 1];
      }
      FillOtherKeys(next, tokens[1..], k);
    }
  }

  /** A key ends with the value of the last token that has it. */
  lemma {:induction false} LaterTokenWins(params: map<string, string>, tokens: seq<string>, j: nat)
    requires j < |tokens|
    requires forall l :: j < l < |tokens| ==> KeyOf(tokens[l]) != KeyOf(tokens[j])
    ensures KeyOf(tokens[j]) in Fill(params, tokens)
    ensures Fill(params, tokens)[KeyOf(tokens[j])] == ValueOf(tokens[j])
    decreases |tokens|
  {
    var next := params[KeyOf(tokens[0]) := ValueOf(tokens[0])];
    var rest := tokens[1..];
    if j == 0 {
      forall l | 0 <= l < |rest| ensures KeyOf(rest[l]) != KeyOf(tokens[0]) {
        assert rest[l] == tokens[l + 1];
      }
      FillOtherKeys(next, rest, KeyOf(tokens[0]));
    } else {
      forall l | j - 1 < l < |rest| ensures KeyOf(rest[l]) != KeyOf(rest[j - 1]) {
        assert rest[l] == tokens[l + 1];
      }
      LaterTokenWins(next, rest, j - 1);
    }
  }

  /** One `getline` call: the token up to the next delimiter, then the
      tokens after it. */
  lemma SplitFromStep(s: string, delim: char, pos: nat)
    requires pos < |s|
    ensures var end := IndexOf(s, delim, pos);
      SplitFrom(s, delim, pos) == [s[pos..end]] + SplitFrom(s, delim, if end == |s| then |s| else end + 1)
  {
  }

  /** Cut one query token at its first '='. */
  method SplitKeyValue(token: string) returns (key: string, value: string)
    ensures key == KeyOf(token) && value == ValueOf(token)
  {
    var eq := IndexOf(token, '=', 0);
    if eq < |token| {
      key, value := token[..eq], token[eq + 1..];
    } else {
      key, value := token, "";
      assert token[..|token|] == token;
    }
  }

  /** `parseQueryParams`: read '&'-separated tokens as `getline` does and
      store each under its key. */
  method ParseQueryParams(query: string) returns (params: map<string, string>)
    ensures params == QueryParams(query)
  {
    params := map[];
    var pos := 0;
    while pos < |query|
      invariant 0 <= pos <= |query|
      invariant Fill(params, SplitFrom(query, '&', pos)) == QueryParams(query)
      decreases |query| - pos
    {
      var end := IndexOf(query, '&', pos);
      var token := query[pos..end];
      var next := if end == |query| then |query| else end + 1;
      SplitFromStep(query, '&', pos);
      FillCons(params, token, SplitFrom(query, '&', next));
      var key, value := SplitKeyValue(token);
      assert Fill(params[key := value], SplitFrom(query, '&', next)) == Fill(params, SplitFrom(query, '&', pos));
      params := params[key := value];
      pos := next;
    }
  }
}
