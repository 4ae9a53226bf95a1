/** Workspace paths: parsing, printing, and the configuration that addresses a workspace.
    Source: pkg/bootstrap/workspaces.go. */
module WorkspacePath {
  import opened Wrappers

  datatype PathError = EmptyPath | EmptySegment | NotUnderRoot

  const ROOT: string := "root"

  // ---- The string library ----

  function TrimLeft(s: string): string {
    if s != "" && s[0] == ':' then TrimLeft(s[1..]) else s
  }

  function TrimRight(s: string): string {
    if s != "" && s[|s| - 1] == ':' then TrimRight(s[..|s| - 1]) else s
  }

  function Trim(s: string): string {
    TrimRight(TrimLeft(s))
  }

  function Split(s: string): (segments: seq<string>)
    ensures segments != []
  {
    if s == "" then [""]
    else
      var rest := Split(s[1..]);
      if s[0] == ':' then [""] + rest else [[s[0]] + rest[0]] + rest[1..]
  }

  function Join(segments: seq<string>): string {
    if segments == [] then ""
    else if |segments| == 1 then segments[0]
    else segments[0] + ":" + Join(segments[1..])
  }

  function Colons(n: nat): string {
    seq(n, _ => ':')
  }

  // ---- Parsing ----

  function ParseWorkspacePath(path: string): Result<seq<string>, PathError> {
    var trimmed := Trim(path);
    if trimmed == "" then Failure(EmptyPath)
    else
      var segments := Split(trimmed);
      if "" in segments then Failure(EmptySegment)
      else if segments[0] != ROOT then Failure(NotUnderRoot)
      else Success(segments)
  }

  /** Segments that name an absolute workspace. */
  ghost predicate Canonical(segments: seq<string>) {
    && segments != []
    && segments[0] == ROOT
    && forall segment :: segment in segments ==> segment != "" && ':' !in segment
  }

  ghost predicate Padded(path: string, core: string, before: nat, after: nat) {
    path == Colons(before) + core + Colons(after)
  }

  /** A path parses to the given segments exactly when it is their colon-join, possibly with colons around it. */
  lemma ParsesIff(path: string, segments: seq<string>)
    ensures ParseWorkspacePath(path) == Success(segments) <==>
            Canonical(segments) && exists before, after :: Padded(path, Join(segments), before, after)
  {
    if ParseWorkspacePath(path) == Success(segments) {
      var before, after := TrimStrips(path);
      JoinAfterSplit(Trim(path));
      SplitIsColonFree(Trim(path));
    }
    if Canonical(segments) && exists before, after :: Padded(path, Join(segments), before, after) {
      var before, after :| Padded(path, Join(segments), before, after);
      JoinHasNoColonEnds(segments);
      TrimUndoesPadding(Join(segments), before, after);
      SplitAfterJoin(segments);
    }
  }

  /** Printing and parsing undo each other, and a path prints back up to the colons around it. */
  lemma RoundTrip(segments: seq<string>)
    requires Canonical(segments)
    ensures ParseWorkspacePath(Join(segments)) == Success(segments)
  {
    assert Padded(Join(segments), Join(segments), 0, 0);
    ParsesIff(Join(segments), segments);
  }

  /** Each error has one cause: nothing but colons; two colons in a row between the outer ones; another first
      segment. */
  lemma FailsIff(path: string)
    ensures ParseWorkspacePath(path) == Failure(EmptyPath) <==> forall ch :: ch in path ==> ch == ':'
    ensures ParseWorkspacePath(path) == Failure(EmptySegment) <==> HasDoubleColon(Trim(path))
    ensures ParseWorkspacePath(path) == Failure(NotUnderRoot) <==>
            Trim(path) != "" && !HasDoubleColon(Trim(path)) && !(ROOT + ":" <= Trim(path)) && Trim(path) != ROOT
  {
    var trimmed := Trim(path);
    var before, after := TrimStrips(path);
    if trimmed == "" {
      assert path == Colons(before) + Colons(after);
    } else {
      assert path[before] == trimmed[0] != ':';
      assert path[before] in path;
      EmptySegmentIff(trimmed);
      assert Split(trimmed) == [Split(trimmed)[0]] + Split(trimmed)[1..];
      FirstSegment(trimmed);
    }
  }

  ghost predicate HasDoubleColon(s: string) {
    exists k :: 0 <= k < |s| - 1 && s[k] == ':' && s[k + 1] == ':'
  }

  // ---- Lemmas about the string library ----

  lemma {:induction false} TrimLeftStrips(s: string) returns (n: nat)
    ensures s == Colons(n) + TrimLeft(s)
    ensures TrimLeft(s) != "" ==> TrimLeft(s)[0] != ':'
  {
    if s != "" && s[0] == ':' {
      n := TrimLeftStrips(s[1..]);
      n := n + 1;
      assert s == [s[0]] + s[1..];
      assert Colons(n) == [':'] + Colons(n - 1);
    } else {
      n := 0;
    }
  }

  lemma {:induction false} TrimRightStrips(s: string) returns (n: nat)
    ensures s == TrimRight(s) + Colons(n)
    ensures TrimRight(s) != "" ==> TrimRight(s)[|TrimRight(s)| - 1] != ':'
  {
    if s != "" && s[|s| - 1] == ':' {
      n := TrimRightStrips(s[..|s| - 1]);
      n := n + 1;
      assert s == s[..|s| - 1] + [s[|s| - 1]];
      assert Colons(n) == Colons(n - 1) + [':'];
    } else {
      n := 0;
    }
  }

  lemma TrimStrips(s: string) returns (before: nat, after: nat)
    ensures Padded(s, Trim(s), before, after)
    ensures Trim(s) != "" ==> Trim(s)[0] != ':' && Trim(s)[|Trim(s)| - 1] != ':'
  {
    before := TrimLeftStrips(s);
    after := TrimRightStrips(TrimLeft(s));
    assert s == Colons(before) + (Trim(s) + Colons(after));
    assert Trim(s) != "" ==> Trim(s)[0] == TrimLeft(s)[0];
  }

  lemma {:induction false} TrimLeftUndoes(core: string, n: nat)
    requires core != "" && core[0] != ':'
    ensures TrimLeft(Colons(n) + core) == core
  {
    var s := Colons(n) + core;
    if n > 0 {
      assert s[1..] == Colons(n - 1) + core;
      TrimLeftUndoes(core, n - 1);
    } else {
      assert s == core;
    }
  }

  lemma {:induction false} TrimRightUndoes(core: string, n: nat)
    requires core != "" && core[|core| - 1] != ':'
    ensures TrimRight(core + Colons(n)) == core
  {
    var s := core + Colons(n);
    if n > 0 {
      assert s[..|s| - 1] == core + Colons(n - 1);
      TrimRightUndoes(core, n - 1);
    } else {
      assert s == core;
    }
  }

  lemma TrimUndoesPadding(core: string, before: nat, after: nat)
    requires core != "" && core[0] != ':' && core[|core| - 1] != ':'
    ensures Trim(Colons(before) + core + Colons(after)) == core
  {
    assert Colons(before) + core + Colons(after) == Colons(before) + (core + Colons(after));
    TrimLeftUndoes(core + Colons(after), before);
    TrimRightUndoes(core, after);
  }

  /** The join begins with the first segment and does not look into it. */
  function JoinFrom(first: string, rest: seq<string>): string {
    if rest == [] then first else first + (":" + Join(rest))
  }

  lemma JoinIsJoinFrom(first: string, rest: seq<string>)
    ensures Join([first] + rest) == JoinFrom(first, rest)
  {
    assert ([first] + rest)[1..] == rest;
    Associates(first, ":", Join(rest));
  }

  lemma Associates(a: string, b: string, c: string)
    ensures a + b + c == a + (b + c)
  {
  }

  lemma JoinPrepends(ch: char, segments: seq<string>)
    requires segments != []
    ensures Join([[ch] + segments[0]] + segments[1..]) == [ch] + Join(segments)
  {
    var first, rest := segments[0], segments[1..];
    assert segments == [first] + rest;
    JoinIsJoinFrom([ch] + first, rest);
    JoinIsJoinFrom(first, rest);
    Associates([ch], first, ":" + Join(rest));
  }

  lemma {:induction false} JoinAfterSplit(s: string)
    ensures Join(Split(s)) == s
  {
    if s != "" {
      JoinAfterSplit(s[1..]);
      JoinPrepends(s[0], Split(s[1..]));
      JoinIsJoinFrom("", Split(s[1..]));
      assert s == [s[0]] + s[1..];
    }
  }

  lemma {:induction false} SplitIsColonFree(s: string)
    ensures forall segment :: segment in Split(s) ==> ':' !in segment
  {
    if s != "" {
      SplitIsColonFree(s[1..]);
    }
  }

  lemma {:induction false} SplitPrepends(a: string, s: string)
    requires ':' !in a
    ensures Split(a + s) == [a + Split(s)[0]] + Split(s)[1..]
  {
    if a == "" {
      assert a + s == s && a + Split(s)[0] == Split(s)[0];
      assert Split(s) == [Split(s)[0]] + Split(s)[1..];
    } else {
      assert (a + s)[1..] == a[1..] + s;
      SplitPrepends(a[1..], s);
      assert a[0] in a;
      assert a == [a[0]] + a[1..];
      assert [a[0]] + (a[1..] + Split(s)[0]) == a + Split(s)[0];
    }
  }

  lemma {:induction false} SplitAfterJoin(segments: seq<string>)
    requires segments != []
    requires forall segment :: segment in segments ==> ':' !in segment
    ensures Split(Join(segments)) == segments
  {
    var first := segments[0];
    if |segments| == 1 {
      SplitPrepends(first, "");
      assert first + "" == first;
    } else {
      var rest := Join(segments[1..]);
      SplitAfterJoin(segments[1..]);
      assert first + ":" + rest == first + (":" + rest);
      SplitPrepends(first, ":" + rest);
      assert (":" + rest)[1..] == rest;
      assert first + "" == first;
      assert segments == [first] + segments[1..];
    }
  }

  lemma {:induction false} JoinHasNoColonEnds(segments: seq<string>)
    requires segments != []
    requires forall segment :: segment in segments ==> segment != "" && ':' !in segment
    ensures var s := Join(segments); s != "" && s[0] != ':' && s[|s| - 1] != ':'
  {
    assert segments[0] in segments;
    assert segments[0][0] in segments[0];
    assert segments[0][|segments[0]| - 1] in segments[0];
    if |segments| > 1 {
      assert forall segment :: segment in segments[1..] ==> segment in segments;
      JoinHasNoColonEnds(segments[1..]);
    }
  }

  lemma {:induction false} JoinAppend(segments: seq<string>, name: string)
    requires segments != []
    ensures Join(segments + [name]) == Join(segments) + ":" + name
  {
    if |segments| > 1 {
      JoinAppend(segments[1..], name);
      assert (segments + [name])[1..] == segments[1..] + [name];
    }
  }

  /** Past the first segment, empty segments come from two colons in a row. */
  lemma {:induction false} EmptySegmentIff(s: string)
    requires s != "" && s[|s| - 1] != ':'
    ensures "" in Split(s)[1..] <==> HasDoubleColon(s)
    ensures Split(s)[0] == "" <==> s[0] == ':'
  {
    if |s| == 1 {
      assert s[1..] == "";
    } else {
      var rest := s[1..];
      EmptySegmentIff(rest);
      assert HasDoubleColon(s) <==> (s[0] == ':' && rest[0] == ':') || HasDoubleColon(rest) by {
        if HasDoubleColon(rest) {
          var k :| 0 <= k < |rest| - 1 && rest[k] == ':' && rest[k + 1] == ':';
          assert s[k + 1] == ':' && s[k + 2] == ':';
        }
        if HasDoubleColon(s) {
          var k :| 0 <= k < |s| - 1 && s[k] == ':' && s[k + 1] == ':';
          assert k > 0 ==> rest[k - 1] == ':' && rest[k] == ':';
        }
        if s[0] == ':' && rest[0] == ':' {
          assert s[0 + 1] == ':';
        }
      }
      var tail := Split(rest);
      assert tail == [tail[0]] + tail[1..];
      assert s[0] != ':' && rest[0] == ':' ==> tail[0] == "";
    }
  }

  /** The first segment runs up to the first colon. */
  lemma FirstSegment(s: string)
    ensures Split(s)[0] == ROOT <==> s == ROOT || ROOT + ":" <= s
  {
    JoinAfterSplit(s);
    SplitIsColonFree(s);
    var segments := Split(s);
    if segments[0] == ROOT && |segments| > 1 {
      assert s == ROOT + ":" + Join(segments[1..]);
    }
    if s == ROOT {
      SplitAfterJoin([ROOT]);
    }
    if ROOT + ":" <= s {
      var rest := s[|ROOT| + 1..];
      assert s == ROOT + (":" + rest);
      SplitPrepends(ROOT, ":" + rest);
      assert (":" + rest)[1..] == rest;
      assert ROOT + "" == ROOT;
    }
  }

  // ---- Addressing workspaces ----

  datatype Config = Config(host: string, settings: map<string, string>)

  datatype BootstrapError =
    | BadPath(reason: PathError)
    | BadHost
    | CreateFailed(name: string, parent: string)
    | NotReady(name: string, parent: string)

  /** A request to create a workspace of some type under a parent. */
  datatype Request = Request(parent: Config, name: string, workspaceType: string)

  const DEFAULT_WORKSPACE_TYPE: string := "universal"

  function ConfigForCluster(cfg: Config, base: string, clusterPath: string): Config {
    cfg.(host := base + "/clusters/" + clusterPath)
  }

  /** The URL library is a parameter: it gives the scheme and host of a URL, or nothing. */
  function ConfigForPath(cfg: Config, path: string, baseUrl: string -> Result<string, ()>)
    : Result<Config, BootstrapError>
  {
    match ParseWorkspacePath(path)
    case Failure(reason) => Failure(BadPath(reason))
    case Success(segments) =>
      match baseUrl(cfg.host)
      case Failure(_) => Failure(BadHost)
      case Success(base) => Success(ConfigForCluster(cfg, base, Join(segments)))
  }

  /** The request for the m-th segment asks for it under the workspace that the segments before it name. */
  ghost predicate AsksFor(cfg: Config, base: string, segments: seq<string>, workspaceType: string, m: nat,
                          request: Request)
    requires m < |segments|
  {
    && request.name == segments[m]
    && request.parent == Config(base + "/clusters/" + Join(segments[..m]), cfg.settings)
    && request.workspaceType == (if workspaceType == "" then "universal" else workspaceType)
  }

  /** The requests for the first segments after the root, sent up to the first that does not work. */
  ghost predicate Sent(cfg: Config, base: string, segments: seq<string>, workspaceType: string,
                       create: Request -> bool, becomesReady: Request -> bool, sent: seq<Request>)
  {
    && |sent| < |segments|
    && (forall i :: 0 <= i < |sent| ==> AsksFor(cfg, base, segments, workspaceType, i + 1, sent[i]))
    && forall i :: 0 <= i < |sent| - 1 ==> create(sent[i]) && becomesReady(sent[i])
  }

  /** Success means every request worked; a failure names the last segment sent and its parent. */
  ghost predicate Outcome(segments: seq<string>, create: Request -> bool, becomesReady: Request -> bool,
                          sent: seq<Request>, r: Result<string, BootstrapError>)
    requires |sent| < |segments|
  {
    var last := |sent|;
    if last == 0 || (create(sent[last - 1]) && becomesReady(sent[last - 1])) then
      last == |segments| - 1 && r == Success(Join(segments))
    else if !create(sent[last - 1]) then
      r == Failure(CreateFailed(segments[last], Join(segments[..last])))
    else
      r == Failure(NotReady(segments[last], Join(segments[..last])))
  }

  /** Creates the workspaces along a path. The API server is a parameter: which creations succeed, and which workspaces
      become ready. Creation stops at the first request that fails; if all work, the result addresses the same workspace
      as ConfigForPath. */
  method CreateWorkspacePath(cfg: Config, path: string, workspaceType: string, baseUrl: string -> Result<string, ()>,
                             create: Request -> bool, becomesReady: Request -> bool)
    returns (r: Result<Config, BootstrapError>, sent: seq<Request>)
    ensures ConfigForPath(cfg, path, baseUrl).Failure? ==> r == ConfigForPath(cfg, path, baseUrl) && sent == []
    ensures ConfigForPath(cfg, path, baseUrl).Success? ==>
              var segments, base := ParseWorkspacePath(path).value, baseUrl(cfg.host).value;
              && Sent(cfg, base, segments, workspaceType, create, becomesReady, sent)
              && Outcome(segments, create, becomesReady, sent,
                         if r.Success? then Success(Join(segments)) else Failure(r.error))
              && (r.Success? ==> r == ConfigForPath(cfg, path, baseUrl))
  {
    var parsed := ParseWorkspacePath(path);
    if parsed.Failure? {
      return Failure(BadPath(parsed.error)), [];
    }
    var host := baseUrl(cfg.host);
    if host.Failure? {
      return Failure(BadHost), [];
    }
    var current;
    current, sent := CreateSegments(cfg, host.value, parsed.value, workspaceType, create, becomesReady);
    if current.Failure? {
      return Failure(current.error), sent;
    }
    r := Success(ConfigForCluster(cfg, host.value, current.value));
  }

  /** The loop: `current` is the path created so far. */
  method CreateSegments(cfg: Config, base: string, segments: seq<string>, workspaceType: string,
                        create: Request -> bool, becomesReady: Request -> bool)
    returns (r: Result<string, BootstrapError>, sent: seq<Request>)
    requires segments != []
    ensures Sent(cfg, base, segments, workspaceType, create, becomesReady, sent)
    ensures Outcome(segments, create, becomesReady, sent, r)
  {
    sent := [];
    var chosenType := if workspaceType == "" then DEFAULT_WORKSPACE_TYPE else workspaceType;
    var current := segments[0];
    assert segments[..1] == [segments[0]];
    for m := 1 to |segments|
      invariant current == Join(segments[..m])
      invariant |sent| == m - 1 && Sent(cfg, base, segments, workspaceType, create, becomesReady, sent)
      invariant sent != [] ==> create(sent[m - 2]) && becomesReady(sent[m - 2])
    {
      var name := segments[m];
      var request := Request(ConfigForCluster(cfg, base, current), name, chosenType);
      assert AsksFor(cfg, base, segments, workspaceType, m, request);
      sent := sent + [request];
      if !create(request) {
        return Failure(CreateFailed(name, current)), sent;
      }
      if !becomesReady(request) {
        return Failure(NotReady(name, current)), sent;
      }
      JoinAppend(segments[..m], name);
      assert segments[..m + 1] == segments[..m] + [name];
      current := current + ":" + name;
    }
    assert segments[..|segments|] == segments;
    r := Success(current);
  }

  lemma AddressGrows(prefix: string, segments: seq<string>, i: nat)
    requires 0 < i < |segments|
    ensures prefix + Join(segments[..i + 1]) == prefix + Join(segments[..i]) + ":" + segments[i]
  {
    JoinAppend(segments[..i], segments[i]);
    assert segments[..i + 1] == segments[..i] + [segments[i]];
    assert prefix + (Join(segments[..i]) + ":" + segments[i]) == prefix + Join(segments[..i]) + ":" + segments[i];
  }

  /** The requests walk down the path: the first goes to the root, each further one to the workspace that the one before
      it created, which is also what that workspace's path addresses. */
  lemma RequestsWalkDown(cfg: Config, path: string, workspaceType: string, baseUrl: string -> Result<string, ()>,
                         create: Request -> bool, becomesReady: Request -> bool, sent: seq<Request>, i: nat)
    requires ConfigForPath(cfg, path, baseUrl).Success? && i < |sent|
    requires Sent(cfg, baseUrl(cfg.host).value, ParseWorkspacePath(path).value, workspaceType, create, becomesReady,
                  sent)
    ensures sent[i].parent.host == if i == 0 then baseUrl(cfg.host).value + "/clusters/root"
                                   else sent[i - 1].parent.host + ":" + sent[i - 1].name
    ensures sent[i].parent.settings == cfg.settings
    ensures sent[i].workspaceType == if workspaceType == "" then "universal" else workspaceType
    ensures ConfigForPath(cfg, Join(ParseWorkspacePath(path).value[..i + 1]), baseUrl) == Success(sent[i].parent)
  {
    var segments := ParseWorkspacePath(path).value;
    ParsesIff(path, segments);
    assert AsksFor(cfg, baseUrl(cfg.host).value, segments, workspaceType, i + 1, sent[i]);
    if i == 0 {
      assert segments[..1] == ["root"];
    } else {
      assert AsksFor(cfg, baseUrl(cfg.host).value, segments, workspaceType, i, sent[i - 1]);
      AddressGrows(baseUrl(cfg.host).value + "/clusters/", segments, i);
    }
    PrefixIsAddressed(cfg, path, baseUrl, i + 1);
  }

  lemma PrefixIsAddressed(cfg: Config, path: string, baseUrl: string -> Result<string, ()>, m: nat)
    requires ConfigForPath(cfg, path, baseUrl).Success? && 0 < m <= |ParseWorkspacePath(path).value|
    ensures var prefix := Join(ParseWorkspacePath(path).value[..m]);
            ConfigForPath(cfg, prefix, baseUrl) ==
            Success(Config(baseUrl(cfg.host).value + "/clusters/" + prefix, cfg.settings))
  {
    ParsesIff(path, ParseWorkspacePath(path).value);
    RoundTrip(ParseWorkspacePath(path).value[..m]);
  }

  /** The last request: for the last segment sent, and for the whole path if no segment is left. */
  lemma LastRequest(cfg: Config, path: string, workspaceType: string, baseUrl: string -> Result<string, ()>,
                    create: Request -> bool, becomesReady: Request -> bool, sent: seq<Request>)
    requires ConfigForPath(cfg, path, baseUrl).Success? && sent != []
    requires Sent(cfg, baseUrl(cfg.host).value, ParseWorkspacePath(path).value, workspaceType, create, becomesReady,
                  sent)
    ensures var segments, request := ParseWorkspacePath(path).value, sent[|sent| - 1];
            && request.name == segments[|sent|]
            && ConfigForPath(cfg, Join(segments[..|sent|]), baseUrl) == Success(request.parent)
            && (|sent| == |segments| - 1 ==>
                  ConfigForPath(cfg, path, baseUrl).value.host == request.parent.host + ":" + request.name)
  {
    var segments, last := ParseWorkspacePath(path).value, |sent|;
    RequestsWalkDown(cfg, path, workspaceType, baseUrl, create, becomesReady, sent, last - 1);
    assert AsksFor(cfg, baseUrl(cfg.host).value, segments, workspaceType, last, sent[last - 1]);
    if last == |segments| - 1 {
      AddressGrows(baseUrl(cfg.host).value + "/clusters/", segments, last);
      assert segments[..last + 1] == segments;
      assert ConfigForPath(cfg, path, baseUrl).value.host == baseUrl(cfg.host).value + "/clusters/" + Join(segments);
    }
  }

  /** Where the walk ends: on success at the workspace the last request created, which is the one the path addresses; on
      failure at a request whose name and parent's path the error tells. */
  lemma WalkEnds(cfg: Config, path: string, workspaceType: string, baseUrl: string -> Result<string, ()>,
                 create: Request -> bool, becomesReady: Request -> bool, sent: seq<Request>,
                 r: Result<string, BootstrapError>)
    requires ConfigForPath(cfg, path, baseUrl).Success?
    requires Sent(cfg, baseUrl(cfg.host).value, ParseWorkspacePath(path).value, workspaceType, create, becomesReady,
                  sent)
    requires Outcome(ParseWorkspacePath(path).value, create, becomesReady, sent, r)
    ensures r.Success? <==> forall i :: 0 <= i < |sent| ==> create(sent[i]) && becomesReady(sent[i])
    ensures r.Success? && sent != [] ==>
              ConfigForPath(cfg, path, baseUrl).value.host == sent[|sent| - 1].parent.host + ":" + sent[|sent| - 1].name
    ensures r.Failure? ==>
              && sent != []
              && (r.error == CreateFailed(r.error.name, r.error.parent) <==> !create(sent[|sent| - 1]))
              && (r.error == NotReady(r.error.name, r.error.parent) <==> create(sent[|sent| - 1]))
              && r.error.name == sent[|sent| - 1].name
              && ConfigForPath(cfg, r.error.parent, baseUrl) == Success(sent[|sent| - 1].parent)
  {
    if sent != [] {
      LastRequest(cfg, path, workspaceType, baseUrl, create, becomesReady, sent);
    }
  }

  /** An address as text: the scheme and host, and the path below it without the colons around; all else is kept. */
  lemma AddressText(cfg: Config, path: string, baseUrl: string -> Result<string, ()>)
    requires ConfigForPath(cfg, path, baseUrl).Success?
    ensures exists core, before, after ::
              && Padded(path, core, before, after)
              && ("root" == core || "root:" <= core) && core[|core| - 1] != ':'
              && ConfigForPath(cfg, path, baseUrl) ==
                 Success(Config(baseUrl(cfg.host).value + "/clusters/" + core, cfg.settings))
  {
    var segments := ParseWorkspacePath(path).value;
    ParsesIff(path, segments);
    var before, after :| Padded(path, Join(segments), before, after);
    JoinHasNoColonEnds(segments);
    if |segments| > 1 {
      assert Join(segments) == "root:" + Join(segments[1..]);
    }
  }

  /** Paths as texts: names below the root, with a colon between any two. */
  lemma PathText(a: string, b: string)
    requires a != "" && ':' !in a && b != "" && ':' !in b
    ensures ParseWorkspacePath("root:" + a + ":" + b) == Success(["root", a, b])
    ensures ParseWorkspacePath(":root:" + a + ":") == Success(["root", a])
    ensures ParseWorkspacePath(a) == if a == "root" then Success(["root"]) else Failure(NotUnderRoot)
  {
    JoinAppend(["root", a], b);
    assert "root" + ":" == "root:";
    assert Join(["root", a]) == "root" + ":" + a;
    assert ["root", a] + [b] == ["root", a, b];
    assert ["root", a, b][0] == "root" && ["root", a][0] == "root";
    RoundTrip(["root", a, b]);
    assert Padded(":root:" + a + ":", Join(["root", a]), 1, 1);
    ParsesIff(":root:" + a + ":", ["root", a]);
    if a == "root" {
      RoundTrip(["root"]);
    } else {
      TrimUndoesPadding(a, 0, 0);
      assert Colons(0) + a + Colons(0) == a;
      SplitAfterJoin([a]);
    }
  }

  /** Two paths address the same workspace exactly when they parse alike. */
  lemma SameWorkspaceIff(cfg: Config, p: string, q: string, baseUrl: string -> Result<string, ()>)
    requires ConfigForPath(cfg, p, baseUrl).Success? && ConfigForPath(cfg, q, baseUrl).Success?
    ensures ConfigForPath(cfg, p, baseUrl) == ConfigForPath(cfg, q, baseUrl)
            <==> ParseWorkspacePath(p) == ParseWorkspacePath(q)
  {
    var segs, others := ParseWorkspacePath(p).value, ParseWorkspacePath(q).value;
    ParsesIff(p, segs);
    ParsesIff(q, others);
    RoundTrip(segs);
    RoundTrip(others);
    var prefix := baseUrl(cfg.host).value + "/clusters/";
    if ConfigForPath(cfg, p, baseUrl) == ConfigForPath(cfg, q, baseUrl) {
      assert (prefix + Join(segs))[|prefix|..] == Join(segs);
      assert (prefix + Join(others))[|prefix|..] == Join(others);
    }
  }
}
