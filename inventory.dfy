/** The inventory the dashboard shows: one entry per image tag, joined with
    the container list (running), the proxy listing (connected) and the ledger
    (port). */
module Inventory {
  import opened Text
  import opened Values
  import opened Ledger
  import opened Proxy
  import opened Docker

  datatype App = App(appname: string, version: string, port: PortValue, connected: bool, running: bool)

  /** The entries one tag contributes: none for an `ubuntu` tag, one otherwise.
      Both name fields are read before the `ubuntu` test. */
  function TagApps(tag: string, containers: seq<Container>, listingLines: seq<string>, ledgerLines: seq<string>): Result<seq<App>>
  {
    var parts := Split(tag, ':');
    if |parts| < 2 then Err(IndexError)
    else if parts[0] == "ubuntu" then Ok([])
    else
      var appname := parts[0];
      var version := parts[1];
      match Running(containers, appname, version)
      case Err(e) => Err(e)
      case Ok(running) =>
        match Connected(listingLines, ledgerLines, appname, version)
        case Err(e) => Err(e)
        case Ok(connected) =>
          match PortOf(ledgerLines, appname, version)
          case Err(e) => Err(e)
          case Ok(port) => Ok([App(appname, version, port, connected, running)])
  }

  function TagsApps(tags: seq<string>, containers: seq<Container>, listingLines: seq<string>, ledgerLines: seq<string>): Result<seq<App>>
  {
    if |tags| == 0 then Ok([])
    else Then(TagApps(tags[0], containers, listingLines, ledgerLines), TagsApps(tags[1..], containers, listingLines, ledgerLines))
  }

  /** What `get_all_apps()` returns: the entries of every tag of every image,
      in list order. */
  function AllApps(images: seq<Image>, containers: seq<Container>, listingLines: seq<string>, ledgerLines: seq<string>): Result<seq<App>>
  {
    if |images| == 0 then Ok([])
    else Then(TagsApps(images[0].tags, containers, listingLines, ledgerLines), AllApps(images[1..], containers, listingLines, ledgerLines))
  }

  /** `get_all_apps()` over the image list, the container list, the proxy
      listing text and the ledger text. */
  method GetAllApps(images: seq<Image>, containers: seq<Container>, listing: string, ledger: string) returns (r: Result<seq<App>>)
    ensures r == AllApps(images, containers, Split(listing, '\n'), SplitLines(ledger))
  {
    ghost var listingLines := Split(listing, '\n');
    ghost var ledgerLines := SplitLines(ledger);
    var apps: seq<App> := [];
    var j := 0;
    assert images[0..] == images;
    PrefixConcat([], [], AllApps(images, containers, listingLines, ledgerLines));
    while j < |images|
      invariant 0 <= j <= |images|
      invariant AllApps(images, containers, listingLines, ledgerLines)
                == Prefix(apps, AllApps(images[j..], containers, listingLines, ledgerLines))
    {
      var image := images[j];
      assert images[j..][1..] == images[j + 1..];
      ghost var later := AllApps(images[j + 1..], containers, listingLines, ledgerLines);
      if |image.tags| > 0 {
        for k := 0 to |image.tags|
          invariant AllApps(images, containers, listingLines, ledgerLines)
                    == Prefix(apps, Then(TagsApps(image.tags[k..], containers, listingLines, ledgerLines), later))
        {
          var tag := image.tags[k];
          assert image.tags[k..][1..] == image.tags[k + 1..];
          ghost var rest := TagsApps(image.tags[k + 1..], containers, listingLines, ledgerLines);
          var tagParts := Split(tag, ':');
          if |tagParts| < 2 {
            return Err(IndexError);
          }
          var appname := tagParts[0];
          var version := tagParts[1];
          if appname != "ubuntu" {
            var running := IsRunning(containers, tagParts[0], tagParts[1]);
            if running.Err? {
              return Err(running.error);
            }
            var connected := IsConnected(listing, ledger, tagParts[0], tagParts[1]);
            if connected.Err? {
              return Err(connected.error);
            }
            var port := PortForStoppedApp(ledger, appname, version);
            if port.Err? {
              return Err(port.error);
            }
            var entry := App(appname, version, port.value, connected.value, running.value);
            assert TagApps(tag, containers, listingLines, ledgerLines) == Ok([entry]);
            ThenPrefix([entry], rest, later);
            PrefixConcat(apps, [entry], Then(rest, later));
            apps := apps + [entry];
          } else {
            assert TagApps(tag, containers, listingLines, ledgerLines) == Ok([]);
            ThenPrefix([], rest, later);
            PrefixConcat([], [], Then(rest, later));
          }
        }
      }
      PrefixConcat([], [], later);
      j := j + 1;
    }
    assert apps + [] == apps;
    return Ok(apps);
  }

  // ---------------------------------------------------------------------------
  // What the inventory says
  // ---------------------------------------------------------------------------

  /** Every entry agrees with the three stores: `running` is `is_running`,
      `connected` is `is_connected` and `port` is the ledger's port for the name. */
  predicate Agrees(app: App, containers: seq<Container>, listingLines: seq<string>, ledgerLines: seq<string>)
  {
    && app.appname != "ubuntu"
    && Running(containers, app.appname, app.version) == Ok(app.running)
    && Connected(listingLines, ledgerLines, app.appname, app.version) == Ok(app.connected)
    && PortOf(ledgerLines, app.appname, app.version) == Ok(app.port)
  }

  /** The `(name, version)` pairs of the non-`ubuntu` tags, in list order. */
  function TagNames(tags: seq<string>): seq<(string, string)>
  {
    if |tags| == 0 then []
    else
      var parts := Split(tags[0], ':');
      (if |parts| >= 2 && parts[0] != "ubuntu" then [(parts[0], parts[1])] else []) + TagNames(tags[1..])
  }

  function ImageNames(images: seq<Image>): seq<(string, string)>
  {
    if |images| == 0 then [] else TagNames(images[0].tags) + ImageNames(images[1..])
  }

  function Names(apps: seq<App>): seq<(string, string)>
  {
    seq(|apps|, k requires 0 <= k < |apps| => (apps[k].appname, apps[k].version))
  }

  lemma NamesConcat(xs: seq<App>, ys: seq<App>)
    ensures Names(xs + ys) == Names(xs) + Names(ys)
  {
  }

  lemma {:induction false} TagAppsAgree(tag: string, containers: seq<Container>, listingLines: seq<string>, ledgerLines: seq<string>)
    ensures var r := TagApps(tag, containers, listingLines, ledgerLines);
      r.Ok? ==>
        && Names(r.value) == TagNames([tag])
        && forall k :: 0 <= k < |r.value| ==> Agrees(r.value[k], containers, listingLines, ledgerLines)
  {
    assert [tag][1..] == [];
  }

  lemma {:induction false} TagsAppsAgree(tags: seq<string>, containers: seq<Container>, listingLines: seq<string>, ledgerLines: seq<string>)
    ensures var r := TagsApps(tags, containers, listingLines, ledgerLines);
      r.Ok? ==>
        && Names(r.value) == TagNames(tags)
        && forall k :: 0 <= k < |r.value| ==> Agrees(r.value[k], containers, listingLines, ledgerLines)
    decreases |tags|
  {
    if |tags| > 0 {
      var r := TagsApps(tags, containers, listingLines, ledgerLines);
      var first := TagApps(tags[0], containers, listingLines, ledgerLines);
      var rest := TagsApps(tags[1..], containers, listingLines, ledgerLines);
      TagAppsAgree(tags[0], containers, listingLines, ledgerLines);
      TagsAppsAgree(tags[1..], containers, listingLines, ledgerLines);
      if r.Ok? {
        assert r.value == first.value + rest.value;
        NamesConcat(first.value, rest.value);
        assert TagNames(tags) == TagNames([tags[0]]) + TagNames(tags[1..]) by {
          assert [tags[0]][1..] == [];
        }
        forall k | 0 <= k < |r.value| ensures Agrees(r.value[k], containers, listingLines, ledgerLines) {
          if k >= |first.value| {
            assert r.value[k] == rest.value[k - |first.value|];
          }
        }
      }
    }
  }

  /** `get_all_apps` lists the non-`ubuntu` tags in order, one entry each, and
      every entry agrees with the container list, the proxy and the ledger. */
  lemma {:induction false} AllAppsAgree(images: seq<Image>, containers: seq<Container>, listingLines: seq<string>, ledgerLines: seq<string>)
    ensures var r := AllApps(images, containers, listingLines, ledgerLines);
      r.Ok? ==>
        && Names(r.value) == ImageNames(images)
        && forall k :: 0 <= k < |r.value| ==> Agrees(r.value[k], containers, listingLines, ledgerLines)
    decreases |images|
  {
    if |images| > 0 {
      var r := AllApps(images, containers, listingLines, ledgerLines);
      var first := TagsApps(images[0].tags, containers, listingLines, ledgerLines);
      var rest := AllApps(images[1..], containers, listingLines, ledgerLines);
      TagsAppsAgree(images[0].tags, containers, listingLines, ledgerLines);
      AllAppsAgree(images[1..], containers, listingLines, ledgerLines);
      if r.Ok? {
        assert r.value == first.value + rest.value;
        NamesConcat(first.value, rest.value);
        forall k | 0 <= k < |r.value| ensures Agrees(r.value[k], containers, listingLines, ledgerLines) {
          if k >= |first.value| {
            assert r.value[k] == rest.value[k - |first.value|];
          }
        }
      }
    }
  }

  /** Every tag and container reference has a version field. */
  predicate Versioned(images: seq<Image>, containers: seq<Container>)
  {
    && (forall i, t :: 0 <= i < |images| && t in images[i].tags ==> |Split(t, ':')| >= 2)
    && (forall j :: 0 <= j < |containers| ==> |Split(containers[j].image, ':')| >= 2)
  }

  lemma {:induction false} RunningTotal(containers: seq<Container>, appname: string, version: string)
    requires forall j :: 0 <= j < |containers| ==> |Split(containers[j].image, ':')| >= 2
    ensures Running(containers, appname, version).Ok?
  {
    ContainerFromMeaning(containers, appname, version, 0);
  }

  lemma {:induction false} TagsAppsTotal(tags: seq<string>, containers: seq<Container>, listingLines: seq<string>, ledgerLines: seq<string>)
    requires forall t :: t in tags ==> |Split(t, ':')| >= 2
    requires forall j :: 0 <= j < |containers| ==> |Split(containers[j].image, ':')| >= 2
    requires Connections(listingLines, ledgerLines).Ok? && WellFormed(ledgerLines)
    ensures TagsApps(tags, containers, listingLines, ledgerLines).Ok?
    decreases |tags|
  {
    if |tags| > 0 {
      var parts := Split(tags[0], ':');
      RunningTotal(containers, parts[0], parts[1]);
      PortOfMeaning(ledgerLines, parts[0], parts[1]);
      TagsAppsTotal(tags[1..], containers, listingLines, ledgerLines);
    }
  }

  /** When every reference has a version, the listing parses and the ledger is
      well formed, `get_all_apps` raises nothing. */
  lemma {:induction false} AllAppsTotal(images: seq<Image>, containers: seq<Container>, listingLines: seq<string>, ledgerLines: seq<string>)
    requires Versioned(images, containers)
    requires Connections(listingLines, ledgerLines).Ok? && WellFormed(ledgerLines)
    ensures AllApps(images, containers, listingLines, ledgerLines).Ok?
    decreases |images|
  {
    if |images| > 0 {
      TagsAppsTotal(images[0].tags, containers, listingLines, ledgerLines);
      assert Versioned(images[1..], containers) by {
        assert forall i :: 0 <= i < |images[1..]| ==> images[1..][i] == images[i + 1];
      }
      AllAppsTotal(images[1..], containers, listingLines, ledgerLines);
    }
  }
}
