/** The three orchestrations of the controller, `activate`, `deploy_file`
    and `remove`, as functions from the state of the three stores (and the log
    of proxy requests) to the reply and the new state. Each step that raises
    ends the orchestration with that error and keeps the effects of the steps
    before it. */
module Orchestration {
  import opened Text
  import opened Values
  import opened Ledger
  import opened Proxy
  import opened Docker
  import opened Inventory

  /** The ledger text, the proxy's backend table with the requests sent to it
      so far, and the runtime's images and containers. */
  datatype World = World(ledger: string, backends: seq<Backend>, sent: seq<Request>, images: seq<Image>, containers: seq<Container>)

  /** Sends the requests in order: the table changes, the log grows. */
  function SendAll(w: World, reqs: seq<Request>): World
  {
    w.(backends := ApplyAll(w.backends, reqs), sent := w.sent + reqs)
  }

  lemma SendAllConcat(w: World, first: seq<Request>, rest: seq<Request>)
    ensures SendAll(SendAll(w, first), rest) == SendAll(w, first + rest)
  {
    ApplyAllConcat(w.backends, first, rest);
    assert w.sent + first + rest == w.sent + (first + rest);
  }

  // ---------------------------------------------------------------------------
  // activate
  // ---------------------------------------------------------------------------

  /** The servers the `down` loop of `activate` reaches, and whether it stopped
      at an entry whose port is not text. */
  datatype Plan = Plan(servers: seq<string>, failed: bool)

  function DownPlan(apps: seq<App>, appname: string, version: string): Plan
  {
    if |apps| == 0 then Plan([], false)
    else if apps[0].appname != appname || apps[0].version != version then
      match LocalAddress(apps[0].port)
      case Err(_) => Plan([], true)
      case Ok(server) =>
        var rest := DownPlan(apps[1..], appname, version);
        Plan([server] + rest.servers, rest.failed)
    else DownPlan(apps[1..], appname, version)
  }

  /** The first half of `activate`: look the port up, start a container from
      the image unless one exists already, and form the server address. */
  function StartTarget(w: World, appname: string, version: string): (Result<string>, World)
  {
    match PortOf(SplitLines(w.ledger), appname, version)
    case Err(e) => (Err(e), w)
    case Ok(port) =>
      match Running(w.containers, appname, version)
      case Err(e) => (Err(e), w)
      case Ok(running) =>
        var started := if running then Ok(w.containers) else AfterRun(w.images, w.containers, appname, version, port);
        match started
        case Err(e) => (Err(e), w)
        case Ok(containers) => (LocalAddress(port), w.(containers := containers))
  }

  /** The second half of `activate`, after the target is up: list the apps and
      send `down` for every one that is not the target. */
  function DownOthers(w: World, appname: string, version: string): (Result<string>, World)
  {
    match AllApps(w.images, w.containers, Split(Listing(w.backends), '\n'), SplitLines(w.ledger))
    case Err(e) => (Err(e), w)
    case Ok(apps) =>
      var plan := DownPlan(apps, appname, version);
      var after := SendAll(w, DownRequests(plan.servers));
      if plan.failed then (Err(TypeError), after)
      else (Ok("activated " + appname + " " + version), after)
  }

  /** `activate` with the query arguments `version` and `appname` (the empty
      string for a missing one). */
  function Activation(w: World, version: string, appname: string): (Result<string>, World)
  {
    if version == "" then (Ok("version is empty"), w)
    else if appname == "" then (Ok("app package name is empty"), w)
    else
      var (server, started) := StartTarget(w, appname, version);
      if server.Err? then (Err(server.error), started)
      else
        match UpRequest(started.backends, server.value)
        case Err(e) => (Err(e), started)
        case Ok(up) => DownOthers(SendAll(started, [up]), appname, version)
  }

  predicate Activated(w: World, version: string, appname: string)
  {
    Activation(w, version, appname).0 == Ok("activated " + appname + " " + version)
  }

  /** The names `get_all_apps` lists other than the target. */
  predicate IsOther(names: seq<(string, string)>, j: int, appname: string, version: string)
  {
    0 <= j < |names| && (names[j].0 != appname || names[j].1 != version)
  }

  /** The request is the `down` of the ledger port of the `j`-th listed name,
      which is not the target. */
  predicate OtherDown(req: Request, names: seq<(string, string)>, j: int, lines: seq<string>, appname: string, version: string)
  {
    && IsOther(names, j, appname, version)
    && PortOf(lines, names[j].0, names[j].1).Ok?
    && PortOf(lines, names[j].0, names[j].1).value.Str?
    && req == Request(Localhost + PortOf(lines, names[j].0, names[j].1).value.text, Down)
  }

  predicate DownOfOther(req: Request, names: seq<(string, string)>, lines: seq<string>, appname: string, version: string)
  {
    exists j :: 0 <= j < |names| && OtherDown(req, names, j, lines, appname, version)
  }

  /** The loop reaches every entry that is not the target, and only those. */
  lemma {:induction false} DownPlanMeaning(apps: seq<App>, appname: string, version: string)
    requires !DownPlan(apps, appname, version).failed
    ensures var servers := DownPlan(apps, appname, version).servers;
      && (forall k :: 0 <= k < |apps| && (apps[k].appname != appname || apps[k].version != version) ==>
            apps[k].port.Str? && Localhost + apps[k].port.text in servers)
      && (forall s :: s in servers ==>
            exists k :: 0 <= k < |apps| && (apps[k].appname != appname || apps[k].version != version)
                        && apps[k].port.Str? && s == Localhost + apps[k].port.text)
    decreases |apps|
  {
    if |apps| > 0 {
      DownPlanMeaning(apps[1..], appname, version);
      var servers := DownPlan(apps, appname, version).servers;
      var rest := DownPlan(apps[1..], appname, version).servers;
      assert forall k :: 0 < k < |apps| ==> apps[k] == apps[1..][k - 1];
      forall s | s in servers
        ensures exists k :: 0 <= k < |apps| && (apps[k].appname != appname || apps[k].version != version)
                            && apps[k].port.Str? && s == Localhost + apps[k].port.text
      {
        if s in rest {
          var k :| 0 <= k < |apps[1..]| && (apps[1..][k].appname != appname || apps[1..][k].version != version)
                   && apps[1..][k].port.Str? && s == Localhost + apps[1..][k].port.text;
          assert apps[k + 1] == apps[1..][k];
        }
      }
    }
  }

  lemma ApplyOne(backends: seq<Backend>, req: Request)
    ensures ApplyAll(backends, [req]) == Apply(backends, req)
  {
    assert [req][1..] == [];
  }

  /** The success reply of `activate` is neither of its two refusals. */
  lemma MessagesDiffer(appname: string, version: string)
    ensures "activated " + appname + " " + version != "version is empty"
    ensures "activated " + appname + " " + version != "app package name is empty"
  {
    var message := "activated " + appname + " " + version;
    assert message[0] == 'a' && message[1] == 'c';
    assert "version is empty"[0] == 'v';
    assert "app package name is empty"[1] == 'p';
  }

  /** The container step succeeded: the ledger had a text port for the
      target, `is_running` answered, and the server is that port's address. */
  lemma StartTargetTrace(w: World, appname: string, version: string) returns (port: string)
    requires StartTarget(w, appname, version).0.Ok?
    ensures PortOf(SplitLines(w.ledger), appname, version) == Ok(Str(port))
    ensures Running(w.containers, appname, version).Ok?
    ensures StartTarget(w, appname, version)
         == (Ok(Localhost + port),
             w.(containers := if Running(w.containers, appname, version).value then w.containers
                              else [Container(Tag(appname, version), Str(port), true)] + w.containers))
  {
    var value := PortOf(SplitLines(w.ledger), appname, version).value;
    port := value.text;
  }

  /** The listing step succeeded and no listed port stopped the loop. */
  lemma DownOthersTrace(w: World, appname: string, version: string) returns (apps: seq<App>)
    requires DownOthers(w, appname, version).0.Ok?
    ensures AllApps(w.images, w.containers, Split(Listing(w.backends), '\n'), SplitLines(w.ledger)) == Ok(apps)
    ensures !DownPlan(apps, appname, version).failed
    ensures DownOthers(w, appname, version).1 == SendAll(w, DownRequests(DownPlan(apps, appname, version).servers))
  {
    apps := AllApps(w.images, w.containers, Split(Listing(w.backends), '\n'), SplitLines(w.ledger)).value;
  }

  /** The intermediate values of a successful activation: the target's ledger
      port, the state after the container step, the request that brought the
      target up and the apps listed afterwards. */
  lemma {:induction false} ActivationTrace(w: World, version: string, appname: string)
    returns (port: string, started: World, up: Request, apps: seq<App>)
    requires Activated(w, version, appname)
    ensures version != "" && appname != ""
    ensures PortOf(SplitLines(w.ledger), appname, version) == Ok(Str(port))
    ensures Running(w.containers, appname, version).Ok?
    ensures started == w.(containers := if Running(w.containers, appname, version).value then w.containers
                                        else [Container(Tag(appname, version), Str(port), true)] + w.containers)
    ensures UpRequest(w.backends, Localhost + port) == Ok(up)
    ensures AllApps(w.images, started.containers, Split(Listing(Apply(w.backends, up)), '\n'), SplitLines(w.ledger)) == Ok(apps)
    ensures !DownPlan(apps, appname, version).failed
    ensures Activation(w, version, appname).1 == SendAll(SendAll(started, [up]), DownRequests(DownPlan(apps, appname, version).servers))
  {
    MessagesDiffer(appname, version);
    var (server, w1) := StartTarget(w, appname, version);
    assert server.Ok?;
    port := StartTargetTrace(w, appname, version);
    started := w1;
    up := UpRequest(w1.backends, server.value).value;
    var w2 := SendAll(w1, [up]);
    assert Activation(w, version, appname) == DownOthers(w2, appname, version);
    ApplyOne(w1.backends, up);
    apps := DownOthersTrace(w2, appname, version);
  }

  /** A successful activation leaves the ledger and the images alone, starts a
      container from the target's image with the ledger's port exactly when
      `is_running` was false, and sends the target's `up` (or `add`) first and
      then only `down` requests. */
  lemma {:induction false} ActivateEffect(w: World, version: string, appname: string)
    requires Activated(w, version, appname)
    ensures var w' := Activation(w, version, appname).1;
      var lines := SplitLines(w.ledger);
      && version != "" && appname != ""
      && w'.ledger == w.ledger && w'.images == w.images
      && PortOf(lines, appname, version).Ok? && PortOf(lines, appname, version).value.Str?
      && Running(w.containers, appname, version).Ok?
      && w'.containers == (if Running(w.containers, appname, version).value then w.containers
                           else [Container(Tag(appname, version), PortOf(lines, appname, version).value, true)] + w.containers)
      && |w'.sent| > |w.sent|
      && w'.sent[..|w.sent|] == w.sent
      && UpRequest(w.backends, Localhost + PortOf(lines, appname, version).value.text) == Ok(w'.sent[|w.sent|])
      && w'.sent[|w.sent|].op in {Up, Add}
      && (forall k :: |w.sent| < k < |w'.sent| ==> w'.sent[k].op == Down)
      && w'.backends == ApplyAll(w.backends, w'.sent[|w.sent|..])
  {
    var port, started, up, apps := ActivationTrace(w, version, appname);
    var downs := DownRequests(DownPlan(apps, appname, version).servers);
    var w' := Activation(w, version, appname).1;
    SendAllConcat(started, [up], downs);
    assert w'.sent == w.sent + ([up] + downs);
    assert w'.sent[|w.sent|..] == [up] + downs;
    assert w'.sent[|w.sent|] == up;
  }

  /** The container step touches nothing but the container list, and adds at
      most one container of the target to it. */
  lemma StartTargetKeeps(w: World, appname: string, version: string)
    ensures var w' := StartTarget(w, appname, version).1;
      && w'.ledger == w.ledger && w'.images == w.images
      && w'.backends == w.backends && w'.sent == w.sent
      && (w'.containers == w.containers
          || exists port :: w'.containers == [Container(Tag(appname, version), port, true)] + w.containers)
  {
    var lines := SplitLines(w.ledger);
    if PortOf(lines, appname, version).Ok? && Running(w.containers, appname, version).Ok?
       && !Running(w.containers, appname, version).value
    {
      var port := PortOf(lines, appname, version).value;
      if AfterRun(w.images, w.containers, appname, version, port).Ok? {
        assert StartTarget(w, appname, version).1.containers
            == [Container(Tag(appname, version), port, true)] + w.containers;
      }
    }
  }

  /** The listing step only sends `down` requests. */
  lemma DownOthersKeeps(w: World, appname: string, version: string) returns (downs: seq<Request>)
    ensures DownOthers(w, appname, version).1 == SendAll(w, downs)
    ensures forall k :: 0 <= k < |downs| ==> downs[k].op == Down
  {
    match AllApps(w.images, w.containers, Split(Listing(w.backends), '\n'), SplitLines(w.ledger))
    case Err(_) =>
      downs := [];
      assert w.sent + downs == w.sent;
    case Ok(apps) =>
      downs := DownRequests(DownPlan(apps, appname, version).servers);
  }

  /** Whatever `activate` meets, it never touches the ledger or the images,
      it adds at most one container of the target, in front of the list, and
      it only appends to the request log: first the target's `up` (or
      `add`), then `down` requests. */
  lemma {:induction false} ActivateKeeps(w: World, version: string, appname: string)
    ensures var w' := Activation(w, version, appname).1;
      && w'.ledger == w.ledger && w'.images == w.images
      && (w'.containers == w.containers
          || exists port :: w'.containers == [Container(Tag(appname, version), port, true)] + w.containers)
      && |w.sent| <= |w'.sent| && w'.sent[..|w.sent|] == w.sent
      && (|w'.sent| > |w.sent| ==> w'.sent[|w.sent|].op in {Up, Add})
      && (forall k :: |w.sent| < k < |w'.sent| ==> w'.sent[k].op == Down)
  {
    StartTargetKeeps(w, appname, version);
    if version != "" && appname != "" {
      var (server, started) := StartTarget(w, appname, version);
      if server.Ok? && UpRequest(started.backends, server.value).Ok? {
        var up := UpRequest(started.backends, server.value).value;
        var downs := DownOthersKeeps(SendAll(started, [up]), appname, version);
        SendAllConcat(started, [up], downs);
        assert Activation(w, version, appname).1 == SendAll(started, [up] + downs);
        assert w.sent + ([up] + downs) == w.sent + [up] + downs;
      }
    }
  }

  /** The `down` requests of the loop cover the ledger port of every listed
      name other than the target, and nothing else. */
  lemma {:induction false} DownsCoverOthers(apps: seq<App>, containers: seq<Container>, listingLines: seq<string>, lines: seq<string>, appname: string, version: string)
    requires !DownPlan(apps, appname, version).failed
    requires forall k :: 0 <= k < |apps| ==> Agrees(apps[k], containers, listingLines, lines)
    ensures var names := Names(apps);
      var downs := DownRequests(DownPlan(apps, appname, version).servers);
      && (forall j :: IsOther(names, j, appname, version) ==>
            && PortOf(lines, names[j].0, names[j].1).Ok?
            && PortOf(lines, names[j].0, names[j].1).value.Str?
            && Request(Localhost + PortOf(lines, names[j].0, names[j].1).value.text, Down) in downs)
      && (forall k :: 0 <= k < |downs| ==> DownOfOther(downs[k], names, lines, appname, version))
  {
    var names := Names(apps);
    var plan := DownPlan(apps, appname, version);
    var downs := DownRequests(plan.servers);
    DownPlanMeaning(apps, appname, version);
    forall j | IsOther(names, j, appname, version)
      ensures PortOf(lines, names[j].0, names[j].1).Ok? && PortOf(lines, names[j].0, names[j].1).value.Str?
      ensures Request(Localhost + PortOf(lines, names[j].0, names[j].1).value.text, Down) in downs
    {
      assert names[j] == (apps[j].appname, apps[j].version);
      assert Agrees(apps[j], containers, listingLines, lines);
      var i :| 0 <= i < |plan.servers| && plan.servers[i] == Localhost + apps[j].port.text;
      assert downs[i] == Request(plan.servers[i], Down);
    }
    forall k | 0 <= k < |downs|
      ensures DownOfOther(downs[k], names, lines, appname, version)
    {
      var s := plan.servers[k];
      assert s in plan.servers;
      var m :| 0 <= m < |apps| && (apps[m].appname != appname || apps[m].version != version)
               && apps[m].port.Str? && s == Localhost + apps[m].port.text;
      assert names[m] == (apps[m].appname, apps[m].version);
      assert Agrees(apps[m], containers, listingLines, lines);
      assert OtherDown(downs[k], names, m, lines, appname, version);
    }
  }

  /** `activate` sends `down` to the ledger port of every name `get_all_apps`
      lists except the exact target, other application names included, and
      sends no other `down`. */
  lemma {:induction false} ActivateDownsOthers(w: World, version: string, appname: string)
    requires Activated(w, version, appname)
    ensures var w' := Activation(w, version, appname).1;
      var lines := SplitLines(w.ledger);
      var names := ImageNames(w.images);
      && |w'.sent| > |w.sent|
      && (forall j :: IsOther(names, j, appname, version) ==>
            && PortOf(lines, names[j].0, names[j].1).Ok?
            && PortOf(lines, names[j].0, names[j].1).value.Str?
            && Request(Localhost + PortOf(lines, names[j].0, names[j].1).value.text, Down) in w'.sent[|w.sent| + 1..])
      && (forall k :: |w.sent| < k < |w'.sent| ==> DownOfOther(w'.sent[k], names, lines, appname, version))
  {
    var port, started, up, apps := ActivationTrace(w, version, appname);
    var lines := SplitLines(w.ledger);
    var downs := DownRequests(DownPlan(apps, appname, version).servers);
    var w' := Activation(w, version, appname).1;
    assert w'.sent == w.sent + [up] + downs;
    assert w'.sent[|w.sent| + 1..] == downs;
    var listingLines := Split(Listing(Apply(w.backends, up)), '\n');
    AllAppsAgree(w.images, started.containers, listingLines, lines);
    DownsCoverOthers(apps, started.containers, listingLines, lines, appname, version);
    forall k | |w.sent| < k < |w'.sent| ensures w'.sent[k] == downs[k - |w.sent| - 1] {
    }
  }

  /** Two different names never share a ledger port when ports are unique. */
  lemma {:induction false} DistinctKeysDistinctPorts(lines: seq<string>, a: string, v: string, b: string, u: string)
    requires PortUnique(lines)
    requires a != b || v != u
    requires PortOf(lines, a, v).Ok? && PortOf(lines, a, v).value.Str?
    requires PortOf(lines, b, u).Ok? && PortOf(lines, b, u).value.Str?
    ensures PortOf(lines, a, v).value.text != PortOf(lines, b, u).value.text
  {
    PortOfMeaning(lines, a, v);
    PortOfMeaning(lines, b, u);
    var i :| 0 <= i < |lines| && HasKey(lines[i], a, v) && Fields(lines[i])[2] == PortOf(lines, a, v).value.text;
    var j :| 0 <= j < |lines| && HasKey(lines[j], b, u) && Fields(lines[j])[2] == PortOf(lines, b, u).value.text;
    assert i != j;
  }

  lemma {:induction false} NumeralIsPortToken(s: string)
    requires forall k :: 0 <= k < |s| ==> IsDigit(s[k])
    ensures PortToken(s)
  {
  }

  /** With unique ledger ports, no `down` of the loop names the target's own
      server. */
  lemma {:induction false} DownsAvoidTarget(apps: seq<App>, containers: seq<Container>, listingLines: seq<string>, lines: seq<string>, appname: string, version: string, port: string)
    requires !DownPlan(apps, appname, version).failed
    requires forall k :: 0 <= k < |apps| ==> Agrees(apps[k], containers, listingLines, lines)
    requires PortUnique(lines) && PortOf(lines, appname, version) == Ok(Str(port))
    ensures Localhost + port !in DownPlan(apps, appname, version).servers
  {
    var servers := DownPlan(apps, appname, version).servers;
    DownPlanMeaning(apps, appname, version);
    forall s | s in servers ensures s != Localhost + port {
      var k :| 0 <= k < |apps| && (apps[k].appname != appname || apps[k].version != version)
               && apps[k].port.Str? && s == Localhost + apps[k].port.text;
      assert Agrees(apps[k], containers, listingLines, lines);
      DistinctKeysDistinctPorts(lines, appname, version, apps[k].appname, apps[k].version);
      assert s[|Localhost|..] == apps[k].port.text;
      assert (Localhost + port)[|Localhost|..] == port;
    }
  }

  /** After a successful activation on a ledger of canonical records with
      unique ports and a table of local servers, the target is registered and
      receives traffic, and the backends of every other listed name are down. */
  lemma {:induction false} ActivateExclusive(w: World, version: string, appname: string)
    requires Activated(w, version, appname)
    requires Canonical(SplitLines(w.ledger)) && PortUnique(SplitLines(w.ledger))
    requires AllLocal(w.backends)
    ensures var w' := Activation(w, version, appname).1;
      var lines := SplitLines(w.ledger);
      var names := ImageNames(w.images);
      && PortOf(lines, appname, version).Ok? && PortOf(lines, appname, version).value.Str?
      && var target := Localhost + PortOf(lines, appname, version).value.text;
      && Listed(w'.backends, target)
      && (forall i :: 0 <= i < |w'.backends| && w'.backends[i].server == target ==> !w'.backends[i].down)
      && forall j :: IsOther(names, j, appname, version) ==>
           && PortOf(lines, names[j].0, names[j].1).Ok?
           && PortOf(lines, names[j].0, names[j].1).value.Str?
           && forall i :: 0 <= i < |w'.backends| && w'.backends[i].server == Localhost + PortOf(lines, names[j].0, names[j].1).value.text ==>
                w'.backends[i].down
  {
    var port, started, up, apps := ActivationTrace(w, version, appname);
    var lines := SplitLines(w.ledger);
    var names := ImageNames(w.images);
    var servers := DownPlan(apps, appname, version).servers;
    var downs := DownRequests(servers);
    var listingLines := Split(Listing(Apply(w.backends, up)), '\n');
    AllAppsAgree(w.images, started.containers, listingLines, lines);
    DownsCoverOthers(apps, started.containers, listingLines, lines, appname, version);
    DownsAvoidTarget(apps, started.containers, listingLines, lines, appname, version, port);
    PortOfMeaning(lines, appname, version);
    var line :| 0 <= line < |lines| && HasKey(lines[line], appname, version) && Fields(lines[line])[2] == port;
    NumeralIsPortToken(port);
    UpThenDowns(w.backends, port, servers);
    ApplyOne(w.backends, up);
    var after := ApplyAll(Apply(w.backends, up), downs);
    assert Activation(w, version, appname).1.backends == after;
    forall j | IsOther(names, j, appname, version)
      ensures Localhost + PortOf(lines, names[j].0, names[j].1).value.text in servers
    {
      var k :| 0 <= k < |downs| && downs[k] == Request(Localhost + PortOf(lines, names[j].0, names[j].1).value.text, Down);
    }
  }

  // ---------------------------------------------------------------------------
  // deploy_file
  // ---------------------------------------------------------------------------

  /** The port value the allocator hands over: an int, or `None`. */
  function Allocated(found: Option<nat>): PortValue
  {
    if found.Some? then Int(found.value) else NoneValue
  }

  /** The second half of `deploy_file`, once the port is reserved: build the
      image, run a container publishing the port, add the server to the proxy
      and take it out of traffic. */
  function Install(w: World, name: string, version: string, port: PortValue, buildSucceeds: bool): (Result<string>, World)
  {
    match Build(w.images, name, version, buildSucceeds)
    case Err(e) => (Err(e), w)
    case Ok(images) =>
      var w1 := w.(images := images);
      match AfterRun(w1.images, w1.containers, name, version, port)
      case Err(e) => (Err(e), w1)
      case Ok(containers) =>
        var server := Localhost + Show(port);
        (Ok("file deployed successfully"),
         SendAll(w1.(containers := containers), [Request(server, Add), Request(server, Down)]))
  }

  /** `deploy_file` with the query arguments `name` and `version`; the build's
      success is an input. */
  function Deployment(w: World, name: string, version: string, buildSucceeds: bool): (Result<string>, World)
  {
    if version == "" then (Ok("version is empty"), w)
    else if name == "" then (Ok("app name is empty"), w)
    else
      match FreePort(SplitLines(w.ledger))
      case Err(e) => (Err(e), w)
      case Ok(found) =>
        var port := Allocated(found);
        Install(w.(ledger := Reserve(w.ledger, name, version, port)), name, version, port, buildSucceeds)
  }

  /** Past the argument checks and the allocator, `deploy_file` reserves the
      port it found (or `None`) and installs on it. */
  lemma DeploymentSteps(w: World, name: string, version: string, buildSucceeds: bool)
    requires name != "" && version != ""
    requires FreePort(SplitLines(w.ledger)).Ok?
    ensures var port := Allocated(FreePort(SplitLines(w.ledger)).value);
      Deployment(w, name, version, buildSucceeds)
        == Install(w.(ledger := Reserve(w.ledger, name, version, port)), name, version, port, buildSucceeds)
  {
  }

  /** A successful build always lets the container start, since the new
      image carries the tag it runs; the ledger is not touched again. */
  lemma {:induction false} InstallEffect(w: World, name: string, version: string, port: PortValue)
    ensures var (r, w') := Install(w, name, version, port, true);
      var server := Localhost + Show(port);
      && r == Ok("file deployed successfully")
      && w'.ledger == w.ledger
      && w'.images == Build(w.images, name, version, true).value
      && w'.containers == [Container(Tag(name, version), port, true)] + w.containers
      && w'.sent == w.sent + [Request(server, Add), Request(server, Down)]
      && w'.backends == ApplyAll(w.backends, [Request(server, Add), Request(server, Down)])
  {
    var built := Build(w.images, name, version, true).value;
    BuildEffect(w.images, name, version);
    assert HasTag(built, Tag(name, version)) by {
      assert Tag(name, version) in built[0].tags;
    }
  }

  /** With a free port `p` and a successful build, `deploy_file` appends the
      record `name,version,p` to a ledger whose ports stay unique and canonical,
      names `p` after the new app, tags the new image, starts one container on
      `p`, and leaves `127.0.0.1:p` registered but disconnected, every other
      backend as it was. */
  lemma {:induction false} DeployEffect(w: World, name: string, version: string)
    requires name != "" && version != ""
    requires CleanField(name) && CleanField(version)
    requires Terminated(w.ledger)
    requires Canonical(SplitLines(w.ledger)) && PortUnique(SplitLines(w.ledger))
    requires FreePort(SplitLines(w.ledger)).Ok? && FreePort(SplitLines(w.ledger)).value.Some?
    ensures var (r, w') := Deployment(w, name, version, true);
      var lines := SplitLines(w.ledger);
      var p := FreePort(lines).value.value;
      var record := Record(name, version, NatToString(p));
      var server := Localhost + NatToString(p);
      && r == Ok("file deployed successfully")
      && SplitLines(w'.ledger) == lines + [record]
      && Terminated(w'.ledger)
      && Canonical(SplitLines(w'.ledger)) && PortUnique(SplitLines(w'.ledger))
      && OwnerOf(SplitLines(w'.ledger), NatToString(p)) == Ok(Owner(name, version))
      && ((forall i :: 0 <= i < |lines| ==> !HasKey(lines[i], name, version)) ==>
            PortOf(SplitLines(w'.ledger), name, version) == Ok(Str(NatToString(p))))
      && w'.images == Build(w.images, name, version, true).value
      && w'.containers == [Container(Tag(name, version), Int(p), true)] + w.containers
      && w'.sent == w.sent + [Request(server, Add), Request(server, Down)]
      && Listed(w'.backends, server)
      && (forall i :: 0 <= i < |w'.backends| && w'.backends[i].server == server ==> w'.backends[i].down)
      && (forall i :: 0 <= i < |w.backends| && w.backends[i].server != server ==> w.backends[i] in w'.backends)
  {
    var p := FreePort(SplitLines(w.ledger)).value.value;
    ReserveFreePort(w.ledger, name, version);
    InstallEffect(w.(ledger := Reserve(w.ledger, name, version, Int(p))), name, version, Int(p));
    AddThenDownDisconnected(w.backends, Localhost + NatToString(p));
  }

  /** When every port of the pool is reserved, `deploy_file` still succeeds:
      it reserves the text `None` as the port, publishes the container on an
      unspecified host port and registers `127.0.0.1:None` with the proxy. */
  lemma {:induction false} DeployWhenExhausted(w: World, name: string, version: string)
    requires name != "" && version != ""
    requires FreePort(SplitLines(w.ledger)) == Ok(None)
    ensures var (r, w') := Deployment(w, name, version, true);
      && r == Ok("file deployed successfully")
      && w'.ledger == w.ledger + Record(name, version, "None") + "\n"
      && w'.containers == [Container(Tag(name, version), NoneValue, true)] + w.containers
      && w'.sent == w.sent + [Request(Localhost + "None", Add), Request(Localhost + "None", Down)]
  {
    var w1 := w.(ledger := Reserve(w.ledger, name, version, NoneValue));
    DeploymentSteps(w, name, version, true);
    InstallEffect(w1, name, version, NoneValue);
    assert Show(NoneValue) == "None";
  }

  /** A failed build leaves the reservation in the ledger and nothing else
      changed. */
  lemma {:induction false} DeployBuildFailureKeepsReservation(w: World, name: string, version: string)
    requires name != "" && version != ""
    requires FreePort(SplitLines(w.ledger)).Ok?
    ensures var (r, w') := Deployment(w, name, version, false);
      && r == Err(BuildFailed)
      && w'.ledger == Reserve(w.ledger, name, version, Allocated(FreePort(SplitLines(w.ledger)).value))
      && w'.images == w.images && w'.containers == w.containers
      && w'.backends == w.backends && w'.sent == w.sent
  {
  }

  // ---------------------------------------------------------------------------
  // remove
  // ---------------------------------------------------------------------------

  /** `remove(application)` with the query arguments `appname` and `version`:
      terminate the container, deregister the server, terminate the image,
      release the port named after the server's `:`. */
  function Removal(w: World, server: string, appname: string, version: string): (Result<()>, World)
  {
    match AfterTerminate(w.containers, appname, version)
    case Err(e) => (Err(e), w)
    case Ok(containers) =>
      var w1 := SendAll(w.(containers := containers), [Request(server, Remove)]);
      var (terminated, images) := AfterTerminateImage(w1.images, appname, version);
      var w2 := w1.(images := images);
      if terminated.Err? then (Err(terminated.error), w2)
      else
        var parts := Split(server, ':');
        if |parts| < 2 then (Err(IndexError), w2)
        else
          match Released(w2.ledger, appname, version, parts[1])
          case Err(e) => (Err(e), w2)
          case Ok(ledger) => (Ok(()), w2.(ledger := ledger))
  }

  /** When no step of `remove` raises, each store ends as its own step left it. */
  lemma RemovalTrace(w: World, server: string, appname: string, version: string)
    requires AfterTerminate(w.containers, appname, version).Ok?
    requires AfterTerminateImage(w.images, appname, version).0.Ok?
    requires |Split(server, ':')| >= 2
    requires Released(w.ledger, appname, version, Split(server, ':')[1]).Ok?
    ensures Removal(w, server, appname, version)
         == (Ok(()), World(Released(w.ledger, appname, version, Split(server, ':')[1]).value,
                           ApplyAll(w.backends, [Request(server, Remove)]),
                           w.sent + [Request(server, Remove)],
                           AfterTerminateImage(w.images, appname, version).1,
                           AfterTerminate(w.containers, appname, version).value))
  {
  }

  /** On stores that respect the runtime's and the ledger's invariants, removing
      `127.0.0.1:p` for `(appname, version)` deregisters the server, leaves no
      image named `appname:version`, keeps every other image reference, drops
      exactly the ledger records `appname,version,p` (keeping the rest in order
      and the ports unique), and removes at most one container. */
  lemma {:induction false} RemoveForgets(w: World, port: string, appname: string, version: string)
    requires PortToken(port)
    requires TagsUnique(w.images) && SimpleTags(w.images) && NoColon(appname) && NoColon(version)
    requires WellFormed(SplitLines(w.ledger)) && PortUnique(SplitLines(w.ledger))
    requires AfterTerminate(w.containers, appname, version).Ok?
    ensures var (r, w') := Removal(w, Localhost + port, appname, version);
      var lines := SplitLines(w.ledger);
      && r == Ok(())
      && !Listed(w'.backends, Localhost + port)
      && w'.sent == w.sent + [Request(Localhost + port, Remove)]
      && !HasTag(w'.images, Tag(appname, version))
      && (forall t :: t != Tag(appname, version) ==> (HasTag(w'.images, t) <==> HasTag(w.images, t)))
      && w'.ledger == JoinLines(Kept(lines, appname, version, port))
      && PortUnique(Kept(lines, appname, version, port))
      && (forall x :: x in Kept(lines, appname, version, port) <==> x in lines && !Matches(x, appname, version, port))
      && |w.containers| - 1 <= |w'.containers| <= |w.containers|
  {
    var lines := SplitLines(w.ledger);
    var server := Localhost + port;
    TerminateImageRemovesTag(w.images, appname, version);
    LocalSplit(server) by {
      assert server[..|Localhost|] == Localhost && server[|Localhost|..] == port;
    }
    assert Split(server, ':')[1] == port by {
      assert server[|Localhost|..] == port;
    }
    assert forall i :: 0 <= i < |lines| ==> !Faults(lines[i], appname, version);
    RemovalTrace(w, server, appname, version);
    RemoveDeregisters(w.backends, server);
    ApplyOne(w.backends, Request(server, Remove));
    KeptKeepsInvariants(lines, appname, version, port);
    forall x ensures x in Kept(lines, appname, version, port) <==> x in lines && !Matches(x, appname, version, port) {
      KeptMembers(lines, appname, version, port, x);
    }
    ContainerFromMeaning(w.containers, appname, version, 0);
  }
}
