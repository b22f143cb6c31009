/** Path-prefix routing: the stack of prefixes that `ROUTE` blocks push,
    the prefix they spell, and the guards `ROUTE` and the method macros
    (`GET`, `POST`, `PUT`, `PATCH`, `DELETE_`) test. */
module Routing {
  import opened Http

  /** `starts_with`: the first |prefix| characters of `s` are `prefix`. */
  function StartsWith(s: string, prefix: string): (r: bool)
    ensures r <==> |prefix| <= |s| && s[..|prefix|] == prefix
  {
    if |prefix| == 0 then true
    else if |s| == 0 then false
    else
      var r := s[0] == prefix[0] && StartsWith(s[1..], prefix[1..]);
      assert s[..|prefix|] == [s[0]] + s[1..][..|prefix| - 1] <== |prefix| <= |s|;
      r
  }

  /** `__route_prefix()`: the stack entries joined in push order. */
  function Concat(parts: seq<string>): string
  {
    if |parts| == 0 then "" else Concat(parts[..|parts| - 1]) + parts[|parts| - 1]
  }

  /** Joining two runs of entries is joining each and concatenating. */
  lemma {:induction false} ConcatAppend(a: seq<string>, b: seq<string>)
    ensures Concat(a + b) == Concat(a) + Concat(b)
    decreases |b|
  {
    if |b| == 0 {
      assert a + b == a;
    } else {
      assert (a + b)[..|a + b| - 1] == a + b[..|b| - 1];
      ConcatAppend(a, b[..|b| - 1]);
    }
  }

  /** Pushing an entry extends the prefix: the old prefix is a prefix of
      the new one, which is longer by exactly the entry. */
  lemma PushExtends(stack: seq<string>, entry: string)
    ensures Concat(stack + [entry]) == Concat(stack) + entry
    ensures StartsWith(Concat(stack + [entry]), Concat(stack))
  {
    assert (stack + [entry])[..|stack|] == stack;
    assert (Concat(stack) + entry)[..|Concat(stack)|] == Concat(stack);
  }

  /** The guard of a method macro: the request's method is the macro's and
      its path is the current prefix followed by the macro's path. */
  function MethodGuard(want: HttpMethod, method_: HttpMethod, path: string, prefix: string, route: string): bool
  {
    method_ == want && path == prefix + route
  }

  /** A method macro inside a `ROUTE` block only fires for paths under the
      block's prefix, and then the route is what follows the prefix. */
  lemma GuardWithinPrefix(want: HttpMethod, method_: HttpMethod, path: string, prefix: string, route: string)
    ensures MethodGuard(want, method_, path, prefix, route)
        <==> method_ == want && StartsWith(path, prefix) && path[|prefix|..] == route
  {
    if method_ == want && StartsWith(path, prefix) && path[|prefix|..] == route {
      assert path == path[..|prefix|] + path[|prefix|..];
    }
    if MethodGuard(want, method_, path, prefix, route) {
      assert (prefix + route)[|prefix|..] == route;
    }
  }

  /** Under one prefix, two method macros with different paths never both
      fire: at most one handler of a block answers a request. */
  lemma GuardsExclusive(want: HttpMethod, method_: HttpMethod, path: string, prefix: string, r1: string, r2: string)
    requires r1 != r2
    ensures !(MethodGuard(want, method_, path, prefix, r1) && MethodGuard(want, method_, path, prefix, r2))
  {
    GuardWithinPrefix(want, method_, path, prefix, r1);
    GuardWithinPrefix(want, method_, path, prefix, r2);
  }

  /** The global `__route_prefix_stack`. */
  class RouteStack {
    var stack: seq<string>

    constructor ()
      ensures stack == []
    {
      stack := [];
    }

    /** `__route_prefix()`: append every entry, bottom first. */
    method Prefix() returns (path: string)
      ensures path == Concat(stack)
    {
      path := "";
      var i := 0;
      while i < |stack|
        invariant 0 <= i <= |stack|
        invariant path == Concat(stack[..i])
      {
        assert stack[..i + 1][..i] == stack[..i];
        path := path + stack[i];
        i := i + 1;
      }
      assert stack[..i] == stack;
    }

    /** `ROUTE(prefix) body`: when the path starts with the current prefix
        followed by `prefix`, push `prefix` and run the body until the stack
        is empty, popping once after each run. The body's own effect is left
        out (a balanced body leaves the stack as it found it); `views`
        records the prefix each run of the body sees, in order. */
    method Route(path: string, prefix: string) returns (views: seq<string>)
      modifies this
      ensures var whole := old(stack) + [prefix];
        if StartsWith(path, Concat(old(stack)) + prefix) then
          && stack == []
          && |views| == |whole|
          && (forall k :: 0 <= k < |views| ==> views[k] == Concat(whole[..|whole| - k]))
        else stack == old(stack) && views == []
    {
      var current := Prefix();
      views := [];
      if StartsWith(path, current + prefix) {
        ghost var whole := stack + [prefix];
        stack := stack + [prefix];
        while |stack| > 0
          invariant |views| <= |whole|
          invariant stack == whole[..|whole| - |views|]
          invariant forall k :: 0 <= k < |views| ==> views[k] == Concat(whole[..|whole| - k])
          decreases |stack|
        {
          var seen := Prefix();
          views := views + [seen];
          stack := stack[..|stack| - 1];
        }
      }
    }
  }
}
