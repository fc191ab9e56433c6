/** Virtual paths: how `normalize_cd_path` resolves an argument against a directory. */
module Paths {
  import opened Basics

  /** The length of the leading run of characters other than '/'. */
  function Span(s: string): (n: nat)
    ensures n <= |s| && (forall i :: 0 <= i < n ==> s[i] != '/') && (n < |s| ==> s[n] == '/')
  {
    if s == "" || s[0] == '/' then 0 else 1 + Span(s[1..])
  }

  /** The non-empty pieces between slashes: what repeated calls of `strtok_r` return. */
  function Tokens(s: string): seq<string>
    decreases |s|
  {
    if s == "" then []
    else if s[0] == '/' then Tokens(s[1..])
    else [s[..Span(s)]] + Tokens(s[Span(s)..])
  }

  function Step(stack: seq<string>, token: string): seq<string> {
    if token == "." then stack
    else if token == ".." then if stack == [] then [] else stack[..|stack| - 1]
    else stack + [token]
  }

  function Fold(stack: seq<string>, tokens: seq<string>): seq<string>
    decreases |tokens|
  {
    if tokens == [] then stack else Fold(Step(stack, tokens[0]), tokens[1..])
  }

  /** The parts, each after a slash. */
  function Slashed(parts: seq<string>): string {
    if parts == [] then "" else "/" + parts[0] + Slashed(parts[1..])
  }

  function Render(parts: seq<string>): string {
    if parts == [] then "/" else Slashed(parts)
  }

  /** The text that is cut into tokens. */
  function Joined(cwd: string, arg: string): string {
    if arg != "" && arg[0] == '/' then arg
    else if cwd == "/" then "/" + arg
    else cwd + "/" + arg
  }

  function Resolved(cwd: string, arg: string): seq<string> {
    Fold([], Tokens(Joined(cwd, arg)))
  }

  /** `normalize_cd_path` with a buffer of `size` bytes. */
  function Normalize(cwd: string, arg: string, size: nat): Option<string> {
    if size == 0 || |Joined(cwd, arg)| >= PATH_MAX then None
    else if Resolved(cwd, arg) != [] && |Slashed(Resolved(cwd, arg))| + 1 > size then None
    else Some(Render(Resolved(cwd, arg)))
  }

  /** `normalize_cd_path` as every caller uses it. */
  function Norm(cwd: string, arg: string): Option<string> {
    Normalize(cwd, arg, PATH_MAX)
  }

  predicate CleanPart(part: string) {
    part != "" && part != "." && part != ".." && forall i :: 0 <= i < |part| ==> part[i] != '/'
  }

  predicate Clean(parts: seq<string>) {
    forall i :: 0 <= i < |parts| ==> CleanPart(parts[i])
  }

  predicate IsToken(token: string) {
    token != "" && forall i :: 0 <= i < |token| ==> token[i] != '/'
  }

  /** An absolute path with no empty, "." or ".." component. */
  ghost predicate Canonical(path: string) {
    exists parts :: Clean(parts) && path == Render(parts)
  }

  predicate Absolute(path: string) {
    path != "" && path[0] == '/'
  }

  lemma {:induction false} TokensAreTokens(s: string)
    ensures forall i :: 0 <= i < |Tokens(s)| ==> IsToken(Tokens(s)[i])
    decreases |s|
  {
    if s != "" {
      if s[0] == '/' {
        TokensAreTokens(s[1..]);
      } else {
        TokensAreTokens(s[Span(s)..]);
      }
    }
  }

  lemma SpanJoin(s: string, t: string)
    ensures Span(s + "/" + t) == Span(s)
    decreases |s|
  {
    if s != "" && s[0] != '/' {
      assert (s + "/" + t)[1..] == s[1..] + "/" + t;
      SpanJoin(s[1..], t);
    }
  }

  /** Cutting is compatible with joining by a slash. */
  lemma {:induction false} TokensJoin(s: string, t: string)
    ensures Tokens(s + "/" + t) == Tokens(s) + Tokens(t)
    decreases |s|
  {
    var whole := s + "/" + t;
    if s == "" {
      assert whole[1..] == t;
    } else if s[0] == '/' {
      assert whole[1..] == s[1..] + "/" + t;
      TokensJoin(s[1..], t);
    } else {
      SpanJoin(s, t);
      var n := Span(s);
      assert whole[..n] == s[..n] && whole[n..] == s[n..] + "/" + t;
      TokensJoin(s[n..], t);
      assert [s[..n]] + Tokens(s[n..]) + Tokens(t) == [s[..n]] + (Tokens(s[n..]) + Tokens(t));
    }
  }

  lemma TokensLeadingSlash(s: string)
    ensures Tokens("/" + s) == Tokens(s)
  {
    assert ("/" + s)[1..] == s;
  }

  lemma {:induction false} SpanOfToken(part: string, rest: string)
    requires IsToken(part) && (rest == "" || rest[0] == '/')
    ensures Span(part + rest) == |part|
    decreases |part|
  {
    var whole := part + rest;
    assert whole[1..] == part[1..] + rest;
    if |part| > 1 {
      SpanOfToken(part[1..], rest);
    } else {
      assert part[1..] == "" && whole[1..] == rest;
    }
  }

  lemma FirstToken(part: string, rest: string)
    requires IsToken(part) && (rest == "" || rest[0] == '/')
    ensures Tokens(part + rest) == [part] + Tokens(rest)
  {
    SpanOfToken(part, rest);
    assert (part + rest)[..|part|] == part && (part + rest)[|part|..] == rest;
  }

  /** Cutting the rendered parts gives the parts back. */
  lemma {:induction false} TokensOfSlashed(parts: seq<string>)
    requires forall i :: 0 <= i < |parts| ==> IsToken(parts[i])
    ensures Tokens(Slashed(parts)) == parts
  {
    hide Tokens, IsToken;
    if parts == [] {
      NoTokens();
    } else {
      var part, rest := parts[0], Slashed(parts[1..]);
      TokensOfSlashed(parts[1..]);
      TokensLeadingSlash(part + rest);
      assert "/" + part + rest == "/" + (part + rest);
      FirstToken(part, rest);
    }
  }

  lemma NoTokens()
    ensures Tokens("") == []
  {
  }

  lemma TokensOfRendered(parts: seq<string>)
    requires Clean(parts)
    ensures Tokens(Render(parts)) == parts
  {
    assert forall i :: 0 <= i < |parts| ==> IsToken(parts[i]);
    TokensOfSlashed(parts);
    if parts == [] {
      TokensLeadingSlash("");
    }
  }

  lemma {:induction false} FoldAppend(stack: seq<string>, a: seq<string>, b: seq<string>)
    ensures Fold(stack, a + b) == Fold(Fold(stack, a), b)
    decreases |a|
  {
    if a == [] {
      assert a + b == b;
    } else {
      assert (a + b)[1..] == a[1..] + b;
      FoldAppend(Step(stack, a[0]), a[1..], b);
    }
  }

  /** Whatever the tokens, the stack never holds a dot component, nor goes above the root. */
  lemma {:induction false} FoldIsClean(stack: seq<string>, tokens: seq<string>)
    requires Clean(stack) && forall i :: 0 <= i < |tokens| ==> IsToken(tokens[i])
    ensures Clean(Fold(stack, tokens))
    decreases |tokens|
  {
    if tokens != [] {
      FoldIsClean(Step(stack, tokens[0]), tokens[1..]);
    }
  }

  lemma {:induction false} FoldOfClean(stack: seq<string>, parts: seq<string>)
    requires Clean(parts)
    ensures Fold(stack, parts) == stack + parts
    decreases |parts|
  {
    if parts == [] {
      assert stack + parts == stack;
    } else {
      assert CleanPart(parts[0]);
      FoldOfClean(stack + [parts[0]], parts[1..]);
      assert stack + [parts[0]] + parts[1..] == stack + parts;
    }
  }

  lemma {:induction false} SlashedAppend(a: seq<string>, b: seq<string>)
    ensures Slashed(a + b) == Slashed(a) + Slashed(b)
    decreases |a|
  {
    if a == [] {
      assert a + b == b;
    } else {
      assert (a + b)[1..] == a[1..] + b;
      SlashedAppend(a[1..], b);
    }
  }

  /** Resolving never makes a path longer. */
  lemma {:induction false} FoldShrinks(stack: seq<string>, tokens: seq<string>)
    ensures |Slashed(Fold(stack, tokens))| <= |Slashed(stack)| + |Slashed(tokens)|
    decreases |tokens|
  {
    if tokens != [] {
      var next := Step(stack, tokens[0]);
      assert |Slashed(next)| <= |Slashed(stack)| + 1 + |tokens[0]| by {
        if next == stack + [tokens[0]] {
          SlashedAppend(stack, [tokens[0]]);
        } else if stack != [] {
          assert stack == stack[..|stack| - 1] + [stack[|stack| - 1]];
          SlashedAppend(stack[..|stack| - 1], [stack[|stack| - 1]]);
        }
      }
      FoldShrinks(next, tokens[1..]);
    }
  }

  lemma {:induction false} TokensShrink(s: string)
    ensures |Slashed(Tokens(s))| <= |s| + if s == "" || s[0] == '/' then 0 else 1
    decreases |s|
  {
    if s != "" {
      if s[0] == '/' {
        TokensShrink(s[1..]);
      } else {
        var n := Span(s);
        TokensShrink(s[n..]);
        assert Tokens(s)[1..] == Tokens(s[n..]);
      }
    }
  }

  lemma ResolvedFits(cwd: string, arg: string)
    ensures Clean(Resolved(cwd, arg))
    ensures Absolute(cwd) || Absolute(arg) ==> |Slashed(Resolved(cwd, arg))| <= |Joined(cwd, arg)|
  {
    var tokens := Tokens(Joined(cwd, arg));
    TokensAreTokens(Joined(cwd, arg));
    FoldIsClean([], tokens);
    FoldShrinks([], tokens);
    TokensShrink(Joined(cwd, arg));
  }

  /** The result is canonical; and for an absolute directory or argument the call fails
      exactly when the joined text does not fit into PATH_MAX. */
  lemma NormIsCanonical(cwd: string, arg: string)
    ensures Norm(cwd, arg).Some? ==> Canonical(Norm(cwd, arg).value) && |Norm(cwd, arg).value| < PATH_MAX
    ensures Absolute(cwd) || Absolute(arg) ==> (Norm(cwd, arg).None? <==> |Joined(cwd, arg)| >= PATH_MAX)
  {
    ResolvedFits(cwd, arg);
  }

  /** A canonical path resolves to itself, from any directory. */
  lemma CanonicalIsFixed(cwd: string, path: string)
    requires Canonical(path) && |path| < PATH_MAX
    ensures Norm(cwd, path) == Some(path)
  {
    var parts :| Clean(parts) && path == Render(parts);
    TokensOfRendered(parts);
    FoldOfClean([], parts);
    assert [] + parts == parts;
  }

  lemma Idempotent(cwd: string, arg: string, cwd': string)
    requires Norm(cwd, arg).Some?
    ensures Norm(cwd', Norm(cwd, arg).value) == Norm(cwd, arg)
  {
    NormIsCanonical(cwd, arg);
    CanonicalIsFixed(cwd', Norm(cwd, arg).value);
  }

  /** Resolving against a canonical directory goes on from its parts. */
  lemma ResolvedFrom(parts: seq<string>, arg: string)
    requires Clean(parts) && !Absolute(arg)
    ensures Resolved(Render(parts), arg) == Fold(parts, Tokens(arg))
    ensures |Joined(Render(parts), arg)| == |Slashed(parts)| + 1 + |arg|
  {
    var dir := Render(parts);
    if parts == [] {
      TokensLeadingSlash(arg);
    } else {
      assert CleanPart(parts[0]);
      TokensOfRendered(parts);
      TokensJoin(dir, arg);
      FoldAppend([], parts, Tokens(arg));
      FoldOfClean([], parts);
      assert [] + parts == parts;
    }
  }

  /** Changing directory and then resolving is resolving in one go. */
  lemma Composes(cwd: string, a: string, b: string)
    requires Absolute(cwd) && a != "" && !Absolute(b)
    requires Norm(cwd, a + "/" + b).Some?
    ensures Norm(cwd, a).Some? && Norm(Norm(cwd, a).value, b) == Norm(cwd, a + "/" + b)
  {
    var both, parts := a + "/" + b, Resolved(cwd, a);
    assert Joined(cwd, both) == Joined(cwd, a) + "/" + b;
    assert Resolved(cwd, both) == Fold(parts, Tokens(b)) by {
      TokensJoin(Joined(cwd, a), b);
      FoldAppend([], Tokens(Joined(cwd, a)), Tokens(b));
    }
    ResolvedFits(cwd, a);
    ResolvedFrom(parts, b);
    NormIsCanonical(cwd, a);
    NormIsCanonical(cwd, both);
    NormIsCanonical(Render(parts), b);
  }

  /** The conversion the other way round fails on length alone: the joined text of one
      call can be too long where the directory reached by the first call is short. */
  lemma ComposesOnlyIfItFits(a: string)
    requires !Absolute(a) && a != "" && |a| < PATH_MAX - 1 && Resolved("/", a) == []
    ensures Norm("/", a) == Some("/")
    ensures forall b :: !Absolute(b) && PATH_MAX - 2 - |a| <= |b| < PATH_MAX - 1 ==>
      Norm("/", b).Some? && Norm("/", a + "/" + b).None?
  {
    NormIsCanonical("/", a);
    forall b | !Absolute(b) && PATH_MAX - 2 - |a| <= |b| < PATH_MAX - 1
      ensures Norm("/", b).Some? && Norm("/", a + "/" + b).None?
    {
      NormIsCanonical("/", b);
      NormIsCanonical("/", a + "/" + b);
    }
  }

  /** Where the last slash of a canonical path is, and what lies on either side. */
  lemma ParentOfRendered(parts: seq<string>)
    requires Clean(parts) && parts != []
    ensures var front, last := parts[..|parts| - 1], parts[|parts| - 1];
      && Render(parts) == Slashed(front) + "/" + last
      && Parent(Render(parts)) == Render(front) && BaseName(Render(parts)) == last
  {
    var front, last := parts[..|parts| - 1], parts[|parts| - 1];
    assert parts == front + [last];
    SlashedAppend(front, [last]);
    assert CleanPart(last);
    var path := Render(parts);
    assert path == Slashed(front) + "/" + last;
    LastSlashOf(Slashed(front), last);
    if front != [] {
      assert |Slashed(front)| > 0;
    }
  }

  /** `strrchr(path, '/')`, as an index; the length of the path when there is none. */
  function LastSlash(path: string): (i: nat)
    ensures i <= |path| && (i < |path| ==> path[i] == '/')
  {
    if path == "" then 0
    else if path[|path| - 1] == '/' then |path| - 1
    else
      var i := LastSlash(path[..|path| - 1]);
      if i == |path| - 1 then |path| else i
  }

  lemma {:induction false} LastSlashOf(front: string, last: string)
    requires forall i :: 0 <= i < |last| ==> last[i] != '/'
    ensures LastSlash(front + "/" + last) == |front|
    decreases |last|
  {
    var path := front + "/" + last;
    if last != "" {
      assert path[..|path| - 1] == front + "/" + last[..|last| - 1];
      LastSlashOf(front, last[..|last| - 1]);
    }
  }

  /** The directory part, as the handlers cut it off. */
  function Parent(path: string): string {
    if LastSlash(path) == 0 then "/" else path[..LastSlash(path)]
  }

  function BaseName(path: string): string {
    if LastSlash(path) < |path| then path[LastSlash(path) + 1..] else ""
  }

  /** The parent of a canonical path other than the root is canonical and shorter. */
  lemma ParentIsCanonical(path: string)
    requires Canonical(path) && path != "/"
    ensures Canonical(Parent(path)) && |Parent(path)| < |path| && BaseName(path) != ""
  {
    var parts :| Clean(parts) && path == Render(parts);
    ParentOfRendered(parts);
    assert Clean(parts[..|parts| - 1]);
    assert CleanPart(parts[|parts| - 1]);
  }

  /** What one token does to the depth: a name goes down, ".." goes up, "." stays. */
  function Delta(token: string): int {
    if token == "." then 0 else if token == ".." then -1 else 1
  }

  /** What the tokens after `k`, up to the `n`th, do to it together. */
  function Depth(tokens: seq<string>, k: nat, n: nat): int
    requires k < n <= |tokens|
  {
    if n == k + 1 then 0 else Depth(tokens, k, n - 1) + Delta(tokens[n - 1])
  }

  /** Among the first `n` tokens, the name at `k` stands: nothing after it goes up past it. */
  ghost predicate Stands(tokens: seq<string>, k: nat, n: nat) {
    k < n <= |tokens| && Delta(tokens[k]) == 1 && forall j :: k < j <= n ==> Depth(tokens, k, j) >= 0
  }

  lemma StandsNext(tokens: seq<string>, k: nat, n: nat)
    requires n < |tokens|
    ensures Stands(tokens, k, n + 1) <==>
      if k == n then Delta(tokens[n]) == 1
      else Stands(tokens, k, n) && Depth(tokens, k, n) + Delta(tokens[n]) >= 0
    ensures k < n ==> Depth(tokens, k, n + 1) == Depth(tokens, k, n) + Delta(tokens[n])
  {
    if k < n {
      assert Depth(tokens, k, n + 1) == Depth(tokens, k, n) + Delta(tokens[n]);
    } else if k == n {
      assert Depth(tokens, n, n + 1) == 0;
    }
  }

  /** The name at `k` stands, with `above` names standing on it. */
  ghost predicate StandsUnder(tokens: seq<string>, k: nat, n: nat, above: int) {
    Stands(tokens, k, n) && Depth(tokens, k, n) == above
  }

  /** The places of the names on the stack, in order; no others stand. */
  ghost predicate Places(tokens: seq<string>, n: nat, stack: seq<string>, places: seq<nat>) {
    && n <= |tokens| && |places| == |stack|
    && (forall i :: 0 <= i < |places| ==> StandsUnder(tokens, places[i], n, |places| - 1 - i))
    && (forall i :: 0 <= i < |places| ==> stack[i] == tokens[places[i]])
    && (forall i, j :: 0 <= i < j < |places| ==> places[i] < places[j])
    && (forall k :: Stands(tokens, k, n) ==> k in places)
  }

  function NextPlaces(places: seq<nat>, n: nat, token: string): seq<nat> {
    if Delta(token) == 1 then places + [n]
    else if token == ".." && places != [] then places[..|places| - 1]
    else places
  }

  lemma StillStand(tokens: seq<string>, n: nat, stack: seq<string>, places: seq<nat>)
    requires n < |tokens| && Places(tokens, n, stack, places)
    ensures var next := NextPlaces(places, n, tokens[n]);
      forall i :: 0 <= i < |next| ==> StandsUnder(tokens, next[i], n + 1, |next| - 1 - i)
  {
    hide Stands, Depth;
    var next := NextPlaces(places, n, tokens[n]);
    forall i | 0 <= i < |next| ensures StandsUnder(tokens, next[i], n + 1, |next| - 1 - i) {
      StandsNext(tokens, next[i], n);
      if i < |places| {
        assert StandsUnder(tokens, places[i], n, |places| - 1 - i) && next[i] == places[i];
        StandsBefore(tokens, places[i], n);
      } else {
        DepthOfNone(tokens, n);
      }
    }
  }

  lemma DepthOfNone(tokens: seq<string>, n: nat)
    requires n < |tokens|
    ensures Depth(tokens, n, n + 1) == 0
  {
  }

  lemma StandsBefore(tokens: seq<string>, k: nat, n: nat)
    requires Stands(tokens, k, n)
    ensures k < n <= |tokens| && Depth(tokens, k, n) >= 0
  {
  }

  lemma OnlyThese(tokens: seq<string>, n: nat, stack: seq<string>, places: seq<nat>, k: nat)
    requires n < |tokens| && Places(tokens, n, stack, places) && Stands(tokens, k, n + 1)
    ensures k in NextPlaces(places, n, tokens[n])
  {
    hide Stands, Depth;
    StandsNext(tokens, k, n);
    var next := NextPlaces(places, n, tokens[n]);
    if k == n {
      assert next[|places|] == n;
    } else {
      var i :| 0 <= i < |places| && places[i] == k;
      assert StandsUnder(tokens, places[i], n, |places| - 1 - i);
      assert next[i] == k;
    }
  }

  lemma PlacesNext(tokens: seq<string>, n: nat, stack: seq<string>, places: seq<nat>)
    requires n < |tokens| && Places(tokens, n, stack, places)
    ensures Places(tokens, n + 1, Step(stack, tokens[n]), NextPlaces(places, n, tokens[n]))
  {
    hide Stands, Depth;
    StillStand(tokens, n, stack, places);
    var next := NextPlaces(places, n, tokens[n]);
    forall k | Stands(tokens, k, n + 1) ensures k in next {
      OnlyThese(tokens, n, stack, places, k);
    }
    forall i | 0 <= i < |places| ensures places[i] < n {
      assert StandsUnder(tokens, places[i], n, |places| - 1 - i);
      StandsBefore(tokens, places[i], n);
    }
  }

  lemma FoldTake(tokens: seq<string>, n: nat)
    requires n < |tokens|
    ensures Fold([], tokens[..n + 1]) == Step(Fold([], tokens[..n]), tokens[n])
  {
    assert tokens[..n + 1] == tokens[..n] + [tokens[n]];
    FoldAppend([], tokens[..n], [tokens[n]]);
  }

  /** What resolving keeps, without a stack: exactly the names that nothing after them goes up
      past, in their order. */
  lemma {:induction false} KeepsWhatStands(tokens: seq<string>, n: nat) returns (places: seq<nat>)
    requires n <= |tokens|
    ensures Places(tokens, n, Fold([], tokens[..n]), places)
  {
    if n == 0 {
      places := [];
    } else {
      places := KeepsWhatStands(tokens, n - 1);
      FoldTake(tokens, n - 1);
      PlacesNext(tokens, n - 1, Fold([], tokens[..n - 1]), places);
      places := NextPlaces(places, n - 1, tokens[n - 1]);
    }
  }

  /** A name leads to the path below, in a canonical directory. */
  lemma NameGoesDown(parts: seq<string>, name: string)
    requires Clean(parts) && CleanPart(name)
    ensures Norm(Render(parts), name) ==
      if |Slashed(parts + [name])| < PATH_MAX then Some(Render(parts + [name])) else None
  {
    hide Resolved, Joined;
    OneToken(parts, name);
    SlashedAppend(parts, [name]);
  }

  lemma TokensOfName(name: string)
    requires IsToken(name)
    ensures Tokens(name) == [name]
  {
    FirstToken(name, "");
    assert name + "" == name;
  }

  /** Resolving a name in a canonical directory, when it fits. */
  lemma OneToken(parts: seq<string>, token: string)
    requires Clean(parts) && IsToken(token)
    ensures Resolved(Render(parts), token) == Step(parts, token)
    ensures |Joined(Render(parts), token)| == |Slashed(parts)| + 1 + |token|
  {
    ResolvedFrom(parts, token);
    TokensOfName(token);
    assert Fold(parts, [token]) == Fold(Step(parts, token), []);
  }

  lemma UpDropsLast(parts: seq<string>)
    requires Clean(parts) && parts != []
    ensures Norm(Render(parts), "..") ==
      if |Slashed(parts)| + 3 >= PATH_MAX then None else Some(Render(parts[..|parts| - 1]))
  {
    hide Resolved, Joined, Slashed;
    OneToken(parts, "..");
    var front := parts[..|parts| - 1];
    assert parts == front + [parts[|parts| - 1]];
    SlashedAppend(front, [parts[|parts| - 1]]);
  }

  /** ".." leads to the directory above, and from the root nowhere. */
  lemma UpGoesToParent(parts: seq<string>)
    requires Clean(parts)
    ensures Norm("/", "..") == Some("/")
    ensures parts != [] ==>
      Norm(Render(parts), "..") == if |Slashed(parts)| + 3 >= PATH_MAX then None else Some(Parent(Render(parts)))
  {
    OneToken([], "..");
    if parts != [] {
      hide *;
      UpDropsLast(parts);
      ParentOfRendered(parts);
    }
  }

  lemma DotStays(parts: seq<string>)
    requires Clean(parts)
    ensures Norm(Render(parts), ".") == if |Slashed(parts)| + 2 >= PATH_MAX then None else Some(Render(parts))
    ensures Norm(Render(parts), "") == if |Slashed(parts)| + 1 >= PATH_MAX then None else Some(Render(parts))
  {
    hide Resolved, Joined;
    OneToken(parts, ".");
    ResolvedFrom(parts, "");
    NoTokens();
  }

  /** Going into a directory and up again leads nowhere, from any directory. */
  lemma DownAndUp(cwd: string, name: string)
    requires Absolute(cwd) && CleanPart(name) && |Joined(cwd, name + "/..")| < PATH_MAX
    ensures Norm(cwd, name + "/..") == Norm(cwd, ".")
  {
    hide Tokens, Fold;
    var there := name + "/..";
    assert there == name + "/" + "..";
    TokensJoin(name, "..");
    TokensOfName(name);
    TokensOfName("..");
    TokensOfName(".");
    assert there[0] == name[0] != '/';
    var base := if cwd == "/" then "" else cwd;
    assert Joined(cwd, there) == base + "/" + there && Joined(cwd, ".") == base + "/" + ".";
    TokensJoin(base, there);
    TokensJoin(base, ".");
    FoldAppend([], Tokens(base), [name] + [".."]);
    FoldAppend([], Tokens(base), ["."]);
    NameAndUp(Fold([], Tokens(base)), name);
    ResolvedFits(cwd, there);
    ResolvedFits(cwd, ".");
  }

  lemma NameAndUp(stack: seq<string>, name: string)
    requires CleanPart(name)
    ensures Fold(stack, [name] + [".."]) == stack && Fold(stack, ["."]) == stack
  {
    FoldAppend(stack, [name], [".."]);
    assert Fold(stack, [name]) == Fold(Step(stack, name), []);
    assert Fold(stack + [name], [".."]) == Fold(stack, []);
    assert Fold(stack, ["."]) == Fold(Step(stack, "."), []);
  }

  lemma SlashedIsLonger(parts: seq<string>)
    requires Clean(parts) && parts != []
    ensures |Slashed(parts)| >= 2
  {
    assert CleanPart(parts[0]);
  }

  /** The result and its terminator fit into the buffer, but for one case: the root is
      written out unchecked, so that a buffer of one byte is too small for it. */
  lemma FitsIff(cwd: string, arg: string, size: nat)
    requires Normalize(cwd, arg, size).Some?
    ensures |Normalize(cwd, arg, size).value| + 1 <= size <==> size != 1
    ensures size == 1 ==> Resolved(cwd, arg) == []
  {
    ResolvedFits(cwd, arg);
    if Resolved(cwd, arg) != [] {
      SlashedIsLonger(Resolved(cwd, arg));
    }
  }

  lemma OneByteIsTooSmall()
    ensures Normalize("/", "", 1) == Some("/")
  {
    TokensLeadingSlash("");
    assert "/" + "" == "/";
  }

  /** `normalize_cd_path`: the tokens go onto a stack of at most PATH_MAX / 2 entries, whose
      content is then written out behind slashes, as long as it fits. */
  method NormalizeCdPath(cwd: string, arg: string, size: nat) returns (out: Option<string>)
    ensures out == Normalize(cwd, arg, size)
    ensures out.Some? ==> (|out.value| + 1 <= size <==> size != 1)
  {
    assert Normalize(cwd, arg, size).Some? ==> (|Normalize(cwd, arg, size).value| + 1 <= size <==> size != 1) by {
      if Normalize(cwd, arg, size).Some? {
        FitsIff(cwd, arg, size);
      }
    }
    if size == 0 {
      return None;
    }
    var path;
    if arg != "" && arg[0] == '/' {
      path := arg;
    } else if cwd == "/" {
      path := "/" + arg;
    } else {
      path := cwd + "/" + arg;
    }
    if |path| >= PATH_MAX {
      return None;
    }
    var parts := new string[PATH_MAX / 2];
    var depth := PushTokens(path, parts);
    if depth == 0 {
      return Some("/");
    }
    out := WriteOut(parts, depth, size);
  }

  /** The token loop. */
  method PushTokens(path: string, parts: array<string>) returns (depth: nat)
    requires |path| < PATH_MAX && parts.Length == PATH_MAX / 2
    modifies parts
    ensures depth <= parts.Length && parts[..depth] == Fold([], Tokens(path))
  {
    depth := 0;
    var pos := 0;
    assert path[0..] == path;
    while pos < |path|
      invariant 0 <= pos <= |path| && (pos == 0 || pos == |path| || path[pos] == '/')
      invariant 2 * depth <= pos + 1 && depth <= parts.Length
      invariant Fold(parts[..depth], Tokens(path[pos..])) == Fold([], Tokens(path))
    {
      if path[pos] == '/' {
        assert path[pos..][1..] == path[pos + 1..];
        var start := pos + 1;
        if start < |path| && path[start] != '/' {
          depth, pos := PushToken(path, start, parts, depth);
        } else {
          pos := start;
        }
      } else {
        depth, pos := PushToken(path, pos, parts, depth);
      }
    }
  }

  /** One turn of the token loop, for the token that starts at `start`. */
  method PushToken(path: string, start: nat, parts: array<string>, depth: nat) returns (depth': nat, end: nat)
    requires start < |path| < PATH_MAX && parts.Length == PATH_MAX / 2 && path[start] != '/'
    requires 2 * depth <= start
    modifies parts
    ensures start < end <= |path| && (end == |path| || path[end] == '/')
    ensures 2 * depth' <= end + 1 && depth' <= parts.Length
    ensures Fold(parts[..depth'], Tokens(path[end..])) == Fold(old(parts[..depth]), Tokens(path[start..]))
  {
    var token := path[start..][..Span(path[start..])];
    end := start + |token|;
    assert path[start..][|token|..] == path[end..];
    assert Tokens(path[start..]) == [token] + Tokens(path[end..]);
    depth' := depth;
    if token == "." {
    } else if token == ".." {
      if depth > 0 {
        depth' := depth - 1;
      }
    } else {
      parts[depth] := token;
      depth' := depth + 1;
    }
    assert parts[..depth'] == Step(old(parts[..depth]), token);
  }

  /** The output loop. */
  method WriteOut(parts: array<string>, depth: nat, size: nat) returns (out: Option<string>)
    requires 0 < depth <= parts.Length
    ensures out == if |Slashed(parts[..depth])| + 1 > size then None else Some(Slashed(parts[..depth]))
  {
    var text := "";
    for i := 0 to depth
      invariant text == Slashed(parts[..i])
      invariant i > 0 ==> |text| + 1 <= size
    {
      assert parts[..i + 1] == parts[..i] + [parts[i]];
      SlashedAppend(parts[..i], [parts[i]]);
      assert parts[..depth] == parts[..i + 1] + parts[i + 1..depth];
      SlashedAppend(parts[..i + 1], parts[i + 1..depth]);
      if |text| + 1 + |parts[i]| + 1 > size {
        return None;
      }
      text := text + "/" + parts[i];
    }
    out := Some(text);
  }
}
