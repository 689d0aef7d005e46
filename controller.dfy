/** The controller process itself: the three stores it keeps consistent (the
    ledger file, the proxy's backend table with the log of requests sent to
    it, the runtime's images and containers) are fields that its operations
    update in place. Every orchestration is proved to leave the fields as the
    matching function over `World` says. */
module Server {
  import opened Text
  import opened Values
  import opened Ledger
  import opened Proxy
  import opened Docker
  import opened Inventory
  import opened Orchestration

  /** The reply of a step whose value the caller ignores. */
  function Outcome<T>(x: Result<T>): Result<()>
  {
    if x.Ok? then Ok(()) else Err(x.error)
  }

  /** The store after a step: the step's value when it succeeded, the store
      as it was when it raised. */
  function Committed<T>(x: Result<T>, before: T): T
  {
    if x.Ok? then x.value else before
  }

  /** One more `down` extends the run of `down` requests already sent. */
  lemma SendDown(w: World, done: seq<string>, server: string)
    ensures SendAll(SendAll(w, DownRequests(done)), [Request(server, Down)]) == SendAll(w, DownRequests(done + [server]))
  {
    SendAllConcat(w, DownRequests(done), [Request(server, Down)]);
    assert DownRequests(done) + [Request(server, Down)] == DownRequests(done + [server]);
  }

  /** The `down` loop's plan from entry `k` on, in terms of entry `k`. */
  lemma DownPlanStep(apps: seq<App>, k: nat, appname: string, version: string)
    requires k < |apps|
    ensures var here := DownPlan(apps[k..], appname, version);
      var rest := DownPlan(apps[k + 1..], appname, version);
      && (apps[k].appname == appname && apps[k].version == version ==> here == rest)
      && ((apps[k].appname != appname || apps[k].version != version) && !apps[k].port.Str? ==> here == Plan([], true))
      && ((apps[k].appname != appname || apps[k].version != version) && apps[k].port.Str? ==>
            here == Plan([Localhost + apps[k].port.text] + rest.servers, rest.failed))
  {
    assert apps[k..][0] == apps[k];
    assert apps[k..][1..] == apps[k + 1..];
  }

  class Controller {
    var ledger: string
    var backends: seq<Backend>
    var sent: seq<Request>
    var images: seq<Image>
    var containers: seq<Container>

    function State(): World
      reads this
    {
      World(ledger, backends, sent, images, containers)
    }

    constructor (w: World)
      ensures State() == w
    {
      ledger := w.ledger;
      backends := w.backends;
      sent := w.sent;
      images := w.images;
      containers := w.containers;
    }

    // -------------------------------------------------------------------------
    // The ledger file
    // -------------------------------------------------------------------------

    /** `reserve_app_port`: opens the file for appending and writes one
        record. */
    method ReservePort(appname: string, version: string, port: PortValue)
      modifies this`ledger
      ensures ledger == Reserve(old(ledger), appname, version, port)
    {
      ledger := ledger + (appname + "," + version + "," + Show(port)) + "\n";
    }

    /** `release_app_port`: the file is rewritten with the lines the filter
        keeps; an `IndexError` during the filter leaves it as it was. */
    method ReleasePort(appname: string, version: string, port: string) returns (r: Result<()>)
      modifies this`ledger
      ensures r == Outcome(Released(old(ledger), appname, version, port))
      ensures ledger == Committed(Released(old(ledger), appname, version, port), old(ledger))
    {
      var content := ReleasedText(ledger, appname, version, port);
      if content.Err? {
        return Err(content.error);
      }
      ledger := content.value;
      return Ok(());
    }

    // -------------------------------------------------------------------------
    // The proxy
    // -------------------------------------------------------------------------

    /** One admin request: the table takes its effect and the log records it. */
    method Send(req: Request)
      modifies this`backends, this`sent
      ensures State() == SendAll(old(State()), [req])
    {
      ApplyOne(backends, req);
      backends := Apply(backends, req);
      sent := sent + [req];
    }

    /** `down(application)`. */
    method Down(server: string)
      modifies this`backends, this`sent
      ensures State() == SendAll(old(State()), [Request(server, Op.Down)])
    {
      Send(Request(server, Op.Down));
    }

    /** `add(application)`. */
    method Add(server: string)
      modifies this`backends, this`sent
      ensures State() == SendAll(old(State()), [Request(server, Op.Add)])
    {
      Send(Request(server, Op.Add));
    }

    /** `up(application)`: asks the listing whether the port after the `:` is
        known, then sends `up` or `add`. */
    method Up(server: string) returns (r: Result<()>)
      modifies this`backends, this`sent
      ensures r == Outcome(UpRequest(old(backends), server))
      ensures UpRequest(old(backends), server).Ok? ==> State() == SendAll(old(State()), [UpRequest(old(backends), server).value])
      ensures UpRequest(old(backends), server).Err? ==> State() == old(State())
    {
      var parts := Split(server, ':');
      if |parts| < 2 {
        return Err(IndexError);
      }
      var known := DoesConnectionExist(Listing(backends), parts[1]);
      if known.Err? {
        return Err(known.error);
      }
      if known.value {
        Send(Request(server, Op.Up));
      } else {
        Send(Request(server, Op.Add));
      }
      return Ok(());
    }

    /** `add_to_proxy(port)`: `add`, then `down`, for `127.0.0.1:<str(port)>`. */
    method AddToProxy(port: PortValue)
      modifies this`backends, this`sent
      ensures State() == SendAll(old(State()), [Request(Localhost + Show(port), Op.Add), Request(Localhost + Show(port), Op.Down)])
    {
      var server := Localhost + Show(port);
      Add(server);
      Down(server);
      SendAllConcat(old(State()), [Request(server, Op.Add)], [Request(server, Op.Down)]);
    }

    // -------------------------------------------------------------------------
    // The container runtime
    // -------------------------------------------------------------------------

    /** `run_container(appname, version, port)`: starts a container from the
        image `appname:version`, publishing its port 8080 on `port`. */
    method RunContainer(appname: string, version: string, port: PortValue) returns (r: Result<()>)
      modifies this`containers
      ensures r == Outcome(AfterRun(images, old(containers), appname, version, port))
      ensures containers == Committed(AfterRun(images, old(containers), appname, version, port), old(containers))
    {
      var tag := Tag(appname, version);
      if !HasTag(images, tag) {
        return Err(ImageNotFound);
      }
      containers := [Container(tag, port, true)] + containers;
      return Ok(());
    }

    /** `build_docker_image(appname, version)`; whether the build succeeds is
        an input. */
    method BuildImage(appname: string, version: string, succeeds: bool) returns (r: Result<()>)
      modifies this`images
      ensures r == Outcome(Build(old(images), appname, version, succeeds))
      ensures images == Committed(Build(old(images), appname, version, succeeds), old(images))
    {
      if !succeeds {
        return Err(BuildFailed);
      }
      var tag := Tag(appname, version);
      images := [Image([tag])] + Untag(images, tag, false);
      return Ok(());
    }

    /** `client.images.remove(image=tag, force=True)`. */
    method RemoveImageTag(tag: string) returns (r: Result<()>)
      modifies this`images
      ensures r == Outcome(RemoveImage(old(images), tag))
      ensures images == Committed(RemoveImage(old(images), tag), old(images))
    {
      if !HasTag(images, tag) {
        return Err(ImageNotFound);
      }
      images := Untag(images, tag, true);
      return Ok(());
    }

    /** `terminate_container(appname, version)`: kills and removes the first
        container started from `appname:version`, then stops looking. */
    method TerminateContainer(appname: string, version: string) returns (r: Result<()>)
      modifies this`containers
      ensures r == Outcome(AfterTerminate(old(containers), appname, version))
      ensures containers == Committed(AfterTerminate(old(containers), appname, version), old(containers))
    {
      var i := 0;
      while i < |containers|
        invariant 0 <= i <= |containers|
        invariant containers == old(containers)
        invariant ContainerFrom(containers, appname, version, 0) == ContainerFrom(containers, appname, version, i)
      {
        var tagParts := Split(containers[i].image, ':');
        if appname == tagParts[0] {
          if |tagParts| < 2 {
            return Err(IndexError);
          }
          if version == tagParts[1] {
            if !containers[i].live {
              return Err(ContainerNotRunning);
            }
            containers := containers[..i] + containers[i + 1..];
            return Ok(());
          }
        }
        i := i + 1;
      }
      return Ok(());
    }

    /** `terminate_image(appname, version)`: walks the image list taken at the
        start; for an image with a tag naming `appname:version` it force-removes
        that reference and leaves the image's tag loop. */
    method TerminateImage(appname: string, version: string) returns (r: Result<()>)
      modifies this`images
      ensures (r, images) == AfterTerminateImage(old(images), appname, version)
    {
      var snapshot := images;
      var i := 0;
      while i < |snapshot|
        invariant 0 <= i <= |snapshot|
        invariant AfterTerminateImage(old(images), appname, version) == TerminateImageFrom(snapshot, images, appname, version, i)
      {
        var tags := snapshot[i].tags;
        if |tags| > 0 {
          ghost var live := images;
          var removed := false;
          var k := 0;
          while !removed && k < |tags|
            invariant 0 <= k <= |tags|
            invariant !removed ==> images == live && TagsMatch(tags, appname, version) == TagsMatch(tags[k..], appname, version)
            invariant removed ==> TerminateImageFrom(snapshot, live, appname, version, i)
                                  == TerminateImageFrom(snapshot, images, appname, version, i + 1)
          {
            assert tags[k..][1..] == tags[k + 1..];
            var tagParts := Split(tags[k], ':');
            if appname == tagParts[0] {
              if |tagParts| < 2 {
                return Err(IndexError);
              }
              if version == tagParts[1] {
                var gone := RemoveImageTag(Tag(appname, version));
                if gone.Err? {
                  return Err(gone.error);
                }
                removed := true;
              }
            }
            if !removed {
              k := k + 1;
            }
          }
        }
        i := i + 1;
      }
      return Ok(());
    }

    // -------------------------------------------------------------------------
    // activate
    // -------------------------------------------------------------------------

    /** The first half of `activate`: the ledger port, a container unless
        `is_running` says one exists, and the address `127.0.0.1:<port>`. */
    method Start(appname: string, version: string) returns (server: Result<string>)
      modifies this`containers
      ensures (server, State()) == StartTarget(old(State()), appname, version)
    {
      var port := PortForStoppedApp(ledger, appname, version);
      if port.Err? {
        return Err(port.error);
      }
      var running := IsRunning(containers, appname, version);
      if running.Err? {
        return Err(running.error);
      }
      if !running.value {
        var started := RunContainer(appname, version, port.value);
        if started.Err? {
          return Err(started.error);
        }
      }
      if !port.value.Str? {
        return Err(TypeError);
      }
      return Ok(Localhost + port.value.text);
    }

    /** The `for application in applications` loop of `activate`: `down` to
        the port of every entry that is not the target, stopping with a
        `TypeError` at an entry whose port is not text. */
    method DownAll(apps: seq<App>, appname: string, version: string) returns (failed: bool)
      modifies this`backends, this`sent
      ensures failed == DownPlan(apps, appname, version).failed
      ensures State() == SendAll(old(State()), DownRequests(DownPlan(apps, appname, version).servers))
    {
      ghost var w := State();
      ghost var done: seq<string> := [];
      assert apps[0..] == apps;
      for k := 0 to |apps|
        invariant State() == SendAll(w, DownRequests(done))
        invariant DownPlan(apps, appname, version)
                  == Plan(done + DownPlan(apps[k..], appname, version).servers, DownPlan(apps[k..], appname, version).failed)
      {
        DownPlanStep(apps, k, appname, version);
        var app := apps[k];
        if app.appname != appname || app.version != version {
          if !app.port.Str? {
            assert done + [] == done;
            return true;
          }
          var server := Localhost + app.port.text;
          Down(server);
          SendDown(w, done, server);
          assert done + ([server] + DownPlan(apps[k + 1..], appname, version).servers)
                 == done + [server] + DownPlan(apps[k + 1..], appname, version).servers;
          done := done + [server];
        }
      }
      assert done + [] == done;
      return false;
    }

    /** The second half of `activate`: lists the apps, then takes every one
        that is not the target out of traffic. */
    method DisconnectOthers(appname: string, version: string) returns (r: Result<string>)
      modifies this`backends, this`sent
      ensures (r, State()) == DownOthers(old(State()), appname, version)
    {
      var applications := GetAllApps(images, containers, Listing(backends), ledger);
      if applications.Err? {
        return Err(applications.error);
      }
      var failed := DownAll(applications.value, appname, version);
      if failed {
        return Err(TypeError);
      }
      return Ok("activated " + appname + " " + version);
    }

    /** `activate()` with the query arguments `version` and `appname`. */
    method Activate(version: string, appname: string) returns (r: Result<string>)
      modifies this`containers, this`backends, this`sent
      ensures (r, State()) == Activation(old(State()), version, appname)
    {
      if version == "" {
        return Ok("version is empty");
      }
      if appname == "" {
        return Ok("app package name is empty");
      }
      var server := Start(appname, version);
      if server.Err? {
        return Err(server.error);
      }
      var up := Up(server.value);
      if up.Err? {
        return Err(up.error);
      }
      r := DisconnectOthers(appname, version);
    }

    // -------------------------------------------------------------------------
    // deploy_file
    // -------------------------------------------------------------------------

    /** `deploy_file()` with the query arguments `name` and `version`, after
        the upload has been unpacked into the workspace. */
    method Deploy(name: string, version: string, buildSucceeds: bool) returns (r: Result<string>)
      modifies this`ledger, this`images, this`containers, this`backends, this`sent
      ensures (r, State()) == Deployment(old(State()), name, version, buildSucceeds)
    {
      if version == "" {
        return Ok("version is empty");
      }
      if name == "" {
        return Ok("app name is empty");
      }
      var found := AvailablePort(ledger);
      if found.Err? {
        return Err(found.error);
      }
      var port := Allocated(found.value);
      ReservePort(name, version, port);
      var built := BuildImage(name, version, buildSucceeds);
      if built.Err? {
        return Err(built.error);
      }
      var ran := RunContainer(name, version, port);
      if ran.Err? {
        return Err(ran.error);
      }
      AddToProxy(port);
      return Ok("file deployed successfully");
    }

    // -------------------------------------------------------------------------
    // remove
    // -------------------------------------------------------------------------

    /** `remove(application)` with the query arguments `appname` and
        `version`. */
    method Remove(server: string, appname: string, version: string) returns (r: Result<()>)
      modifies this`ledger, this`images, this`containers, this`backends, this`sent
      ensures (r, State()) == Removal(old(State()), server, appname, version)
    {
      var terminated := TerminateContainer(appname, version);
      if terminated.Err? {
        return Err(terminated.error);
      }
      Send(Request(server, Op.Remove));
      var untagged := TerminateImage(appname, version);
      if untagged.Err? {
        return Err(untagged.error);
      }
      var parts := Split(server, ':');
      if |parts| < 2 {
        return Err(IndexError);
      }
      r := ReleasePort(appname, version, parts[1]);
    }
  }
}
