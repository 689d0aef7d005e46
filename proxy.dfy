/** The reverse proxy's dynamic upstream as the controller drives it. The
    controller only ever sends admin requests (`add`, `remove`, `up`, `down`
    for a `host:port` server) and reads the verbose listing back as text. The
    proxy itself is modelled as its backend table: each request's effect on
    the table is stated in `Apply`, and the listing is the table printed one
    `server <host:port> ... [down];` line per backend. */
module Proxy {
  import opened Text
  import opened Values
  import opened Ledger

  /** The host every backend the controller creates is registered under. */
  const Localhost: string := "127.0.0.1:"

  /** `"127.0.0.1:" + port`: Python refuses to add an int to a str. */
  function LocalAddress(port: PortValue): Result<string>
  {
    if port.Str? then Ok(Localhost + port.text) else Err(TypeError)
  }

  datatype Op = Add | Remove | Up | Down

  /** One admin request: `?upstream=backends&server=<server>&<op>=`. */
  datatype Request = Request(server: string, op: Op)

  /** One entry of the backend table; `down` entries receive no traffic. */
  datatype Backend = Backend(server: string, down: bool)

  // ---------------------------------------------------------------------------
  // The backend table and the effect of each request on it
  // ---------------------------------------------------------------------------

  predicate Listed(backends: seq<Backend>, server: string)
  {
    exists i :: 0 <= i < |backends| && backends[i].server == server
  }

  function SetDown(backends: seq<Backend>, server: string, down: bool): seq<Backend>
  {
    seq(|backends|, i requires 0 <= i < |backends| =>
      if backends[i].server == server then Backend(server, down) else backends[i])
  }

  function Without(backends: seq<Backend>, server: string): seq<Backend>
  {
    if |backends| == 0 then []
    else if backends[0].server == server then Without(backends[1..], server)
    else [backends[0]] + Without(backends[1..], server)
  }

  /** `add` registers an unknown server, enabled; `remove` deregisters it;
      `up` and `down` enable or disable the entries of a known server. A
      request about a server the table lacks (or an `add` of one it has)
      changes nothing. */
  function Apply(backends: seq<Backend>, req: Request): seq<Backend>
  {
    match req.op
    case Add => if Listed(backends, req.server) then backends else backends + [Backend(req.server, false)]
    case Remove => Without(backends, req.server)
    case Up => SetDown(backends, req.server, false)
    case Down => SetDown(backends, req.server, true)
  }

  /** The table after a sequence of requests, in order. */
  function ApplyAll(backends: seq<Backend>, reqs: seq<Request>): seq<Backend>
    decreases |reqs|
  {
    if |reqs| == 0 then backends else ApplyAll(Apply(backends, reqs[0]), reqs[1..])
  }

  function DownRequests(servers: seq<string>): seq<Request>
  {
    seq(|servers|, i requires 0 <= i < |servers| => Request(servers[i], Down))
  }

  lemma {:induction false} ApplyAllConcat(backends: seq<Backend>, first: seq<Request>, rest: seq<Request>)
    ensures ApplyAll(ApplyAll(backends, first), rest) == ApplyAll(backends, first + rest)
    decreases |first|
  {
    if |first| > 0 {
      assert (first + rest)[1..] == first[1..] + rest;
      ApplyAllConcat(Apply(backends, first[0]), first[1..], rest);
    } else {
      assert first + rest == rest;
    }
  }

  // ---------------------------------------------------------------------------
  // The verbose listing
  // ---------------------------------------------------------------------------

  function ListingFields(b: Backend): seq<string>
  {
    ["server", b.server, "weight=1", "max_fails=1"]
    + (if b.down then ["fail_timeout=10", "down;"] else ["fail_timeout=10;"])
  }

  /** One line of the verbose listing. */
  function ListingLine(b: Backend): string
  {
    Join(ListingFields(b), ' ')
  }

  function ListingLines(backends: seq<Backend>): seq<string>
  {
    seq(|backends|, i requires 0 <= i < |backends| => ListingLine(backends[i]))
  }

  /** The listing text: every line ends in `'\n'`. */
  function Listing(backends: seq<Backend>): string
  {
    Join(ListingLines(backends) + [""], '\n')
  }

  /** A port text that survives the listing's `split(' ')` and `split(':')`. */
  predicate PortToken(p: string)
  {
    ':' !in p && ' ' !in p && '\n' !in p
  }

  /** The server is `127.0.0.1:<port>`, the form every controller call uses. */
  predicate IsLocal(server: string)
  {
    |server| >= |Localhost| && server[..|Localhost|] == Localhost && PortToken(server[|Localhost|..])
  }

  predicate AllLocal(backends: seq<Backend>)
  {
    forall i :: 0 <= i < |backends| ==> IsLocal(backends[i].server)
  }

  function PortText(server: string): string
    requires IsLocal(server)
  {
    server[|Localhost|..]
  }

  // ---------------------------------------------------------------------------
  // Parsing the listing
  // ---------------------------------------------------------------------------

  /** What the parsers take from one non-empty listing line. */
  datatype Entry = Entry(port: string, connected: bool)

  /** The port is the text after the first `:` of the second space-separated
      field; the backend is connected unless the last field is `down;`. */
  function ParseLine(line: string): Result<Entry>
  {
    var parts := Split(line, ' ');
    if |parts| < 2 then Err(IndexError)
    else
      var address := Split(parts[1], ':');
      if |address| < 2 then Err(IndexError)
      else Ok(Entry(address[1], parts[|parts| - 1] != "down;"))
  }

  /** A backend of `get_all_proxy_connections`, named by the ledger's owner of
      its port. */
  datatype Connection = Connection(appname: string, version: string, port: string, connected: bool)

  /** The parse of `get_all_proxy_connections`: one connection per non-empty
      line, empty lines skipped. */
  function Connections(lines: seq<string>, ledgerLines: seq<string>): Result<seq<Connection>>
  {
    if |lines| == 0 then Ok([])
    else if |lines[0]| == 0 then Connections(lines[1..], ledgerLines)
    else
      match ParseLine(lines[0])
      case Err(e) => Err(e)
      case Ok(entry) =>
        match OwnerOf(ledgerLines, entry.port)
        case Err(e) => Err(e)
        case Ok(owner) =>
          Prefix([Connection(owner.appname, owner.version, entry.port, entry.connected)],
                 Connections(lines[1..], ledgerLines))
  }

  /** `get_all_proxy_connections()` on the listing text and the ledger text. */
  method AllProxyConnections(listing: string, ledger: string) returns (r: Result<seq<Connection>>)
    ensures r == Connections(Split(listing, '\n'), SplitLines(ledger))
  {
    var lines := Split(listing, '\n');
    var i := 0;
    var backends: seq<Connection> := [];
    assert lines[0..] == lines;
    PrefixConcat([], [], Connections(lines, SplitLines(ledger)));
    while i < |lines|
      invariant 0 <= i <= |lines|
      invariant Connections(lines, SplitLines(ledger)) == Prefix(backends, Connections(lines[i..], SplitLines(ledger)))
    {
      assert lines[i..][1..] == lines[i + 1..];
      if |lines[i]| > 0 {
        var lineParts := Split(lines[i], ' ');
        if |lineParts| < 2 {
          return Err(IndexError);
        }
        var backendParts := Split(lineParts[1], ':');
        if |backendParts| < 2 {
          return Err(IndexError);
        }
        var port := backendParts[1];
        var status := lineParts[|lineParts| - 1];
        var connected;
        if status == "down;" {
          connected := false;
        } else {
          connected := true;
        }
        var appDetails := AppForPort(ledger, port);
        if appDetails.Err? {
          return Err(appDetails.error);
        }
        var c := Connection(appDetails.value.appname, appDetails.value.version, port, connected);
        assert ParseLine(lines[i]) == Ok(Entry(port, connected));
        assert Connections(lines[i..], SplitLines(ledger)) == Prefix([c], Connections(lines[i + 1..], SplitLines(ledger)));
        PrefixConcat(backends, [c], Connections(lines[i + 1..], SplitLines(ledger)));
        backends := backends + [c];
      }
      i := i + 1;
    }
    assert backends + [] == backends;
    return Ok(backends);
  }

  /** The scan of `does_connection_exists`: true at the first non-empty line
      carrying `port`. */
  function ConnectionExists(lines: seq<string>, port: string): Result<bool>
  {
    if |lines| == 0 then Ok(false)
    else if |lines[0]| == 0 then ConnectionExists(lines[1..], port)
    else
      match ParseLine(lines[0])
      case Err(e) => Err(e)
      case Ok(entry) => if port == entry.port then Ok(true) else ConnectionExists(lines[1..], port)
  }

  /** `does_connection_exists(port)` on the listing text. */
  method DoesConnectionExist(listing: string, port: string) returns (r: Result<bool>)
    ensures r == ConnectionExists(Split(listing, '\n'), port)
  {
    var lines := Split(listing, '\n');
    var i := 0;
    while i < |lines|
      invariant 0 <= i <= |lines|
      invariant ConnectionExists(lines, port) == ConnectionExists(lines[i..], port)
    {
      assert lines[i..][1..] == lines[i + 1..];
      if |lines[i]| > 0 {
        var lineParts := Split(lines[i], ' ');
        if |lineParts| < 2 {
          return Err(IndexError);
        }
        var backendParts := Split(lineParts[1], ':');
        if |backendParts| < 2 {
          return Err(IndexError);
        }
        if port == backendParts[1] {
          return Ok(true);
        }
      }
      i := i + 1;
    }
    return Ok(false);
  }

  /** The non-empty lines of a listing, in order. */
  function NonEmpty(lines: seq<string>): seq<string>
  {
    if |lines| == 0 then []
    else (if |lines[0]| == 0 then [] else [lines[0]]) + NonEmpty(lines[1..])
  }

  predicate AllParse(lines: seq<string>)
  {
    forall k :: 0 <= k < |NonEmpty(lines)| ==> ParseLine(NonEmpty(lines)[k]).Ok?
  }

  /** `get_all_proxy_connections` reports one connection per non-empty line,
      in order, with that line's port and state and the ledger's owner of the
      port; it raises nothing when every non-empty line parses and the ledger
      is well formed. */
  lemma {:induction false} ConnectionsMeaning(lines: seq<string>, ledgerLines: seq<string>)
    ensures var r := Connections(lines, ledgerLines);
      r.Ok? ==>
        && |r.value| == |NonEmpty(lines)|
        && forall k :: 0 <= k < |r.value| ==>
             && ParseLine(NonEmpty(lines)[k]) == Ok(Entry(r.value[k].port, r.value[k].connected))
             && OwnerOf(ledgerLines, r.value[k].port) == Ok(Owner(r.value[k].appname, r.value[k].version))
    ensures AllParse(lines) && WellFormed(ledgerLines) ==> Connections(lines, ledgerLines).Ok?
  {
    ConnectionsShape(lines, ledgerLines);
    if AllParse(lines) && WellFormed(ledgerLines) {
      ConnectionsTotal(lines, ledgerLines);
    }
  }

  /** Each connection comes from the line at its own position: that line's
      port and state, and the ledger's owner of the port. */
  predicate Describes(cs: seq<Connection>, lines: seq<string>, ledgerLines: seq<string>)
  {
    && |cs| == |lines|
    && forall k :: 0 <= k < |cs| ==>
         && ParseLine(lines[k]) == Ok(Entry(cs[k].port, cs[k].connected))
         && OwnerOf(ledgerLines, cs[k].port) == Ok(Owner(cs[k].appname, cs[k].version))
  }

  lemma {:induction false} ConnectionsShape(lines: seq<string>, ledgerLines: seq<string>)
    ensures Connections(lines, ledgerLines).Ok? ==>
      Describes(Connections(lines, ledgerLines).value, NonEmpty(lines), ledgerLines)
    decreases |lines|
  {
    if |lines| > 0 {
      ConnectionsShape(lines[1..], ledgerLines);
      var r := Connections(lines, ledgerLines);
      var rest := Connections(lines[1..], ledgerLines);
      var tail := NonEmpty(lines[1..]);
      if |lines[0]| == 0 {
        assert NonEmpty(lines) == tail;
      } else {
        assert NonEmpty(lines) == [lines[0]] + tail;
        if r.Ok? {
          var entry := ParseLine(lines[0]).value;
          var owner := OwnerOf(ledgerLines, entry.port).value;
          var c := Connection(owner.appname, owner.version, entry.port, entry.connected);
          assert r.value == [c] + rest.value;
          DescribesCons(c, rest.value, lines[0], tail, ledgerLines);
        }
      }
    }
  }

  lemma DescribesCons(c: Connection, cs: seq<Connection>, line: string, lines: seq<string>, ledgerLines: seq<string>)
    requires ParseLine(line) == Ok(Entry(c.port, c.connected))
    requires OwnerOf(ledgerLines, c.port) == Ok(Owner(c.appname, c.version))
    requires Describes(cs, lines, ledgerLines)
    ensures Describes([c] + cs, [line] + lines, ledgerLines)
  {
    forall k | 0 < k < |cs| + 1
      ensures ParseLine(([line] + lines)[k]) == Ok(Entry(([c] + cs)[k].port, ([c] + cs)[k].connected))
      ensures OwnerOf(ledgerLines, ([c] + cs)[k].port) == Ok(Owner(([c] + cs)[k].appname, ([c] + cs)[k].version))
    {
      assert ([c] + cs)[k] == cs[k - 1];
      assert ([line] + lines)[k] == lines[k - 1];
    }
  }

  /** The parse raises nothing when every non-empty line parses and the
      ledger is well formed. */
  lemma {:induction false} ConnectionsTotal(lines: seq<string>, ledgerLines: seq<string>)
    requires AllParse(lines) && WellFormed(ledgerLines)
    ensures Connections(lines, ledgerLines).Ok?
    decreases |lines|
  {
    if |lines| > 0 {
      var tail := NonEmpty(lines[1..]);
      if |lines[0]| == 0 {
        assert NonEmpty(lines) == tail;
      } else {
        assert NonEmpty(lines) == [lines[0]] + tail;
        assert NonEmpty(lines)[0] == lines[0];
        forall k | 0 <= k < |tail| ensures ParseLine(tail[k]).Ok? {
          assert tail[k] == NonEmpty(lines)[k + 1];
        }
        OwnerOfTotal(ledgerLines, ParseLine(lines[0]).value.port);
      }
      ConnectionsTotal(lines[1..], ledgerLines);
    }
  }

  /** `does_connection_exists(port)` answers true exactly when some non-empty
      line carries `port`, scanning up to the first such line; false means
      every non-empty line parsed and none carries it. */
  lemma {:induction false} ConnectionExistsMeaning(lines: seq<string>, port: string)
    ensures ConnectionExists(lines, port) == Ok(true) ==>
      exists k :: 0 <= k < |NonEmpty(lines)| && ParseLine(NonEmpty(lines)[k]).Ok? && ParseLine(NonEmpty(lines)[k]).value.port == port
    ensures ConnectionExists(lines, port) == Ok(false) ==>
      forall k :: 0 <= k < |NonEmpty(lines)| ==> ParseLine(NonEmpty(lines)[k]).Ok? && ParseLine(NonEmpty(lines)[k]).value.port != port
    ensures AllParse(lines) ==> ConnectionExists(lines, port).Ok?
    decreases |lines|
  {
    if |lines| > 0 {
      ConnectionExistsMeaning(lines[1..], port);
      var tail := NonEmpty(lines[1..]);
      if |lines[0]| == 0 {
        assert NonEmpty(lines) == tail;
      } else {
        var all := NonEmpty(lines);
        assert all == [lines[0]] + tail;
        assert all[0] == lines[0];
        assert forall k :: 0 <= k < |tail| ==> all[k + 1] == tail[k];
        if ConnectionExists(lines, port) == Ok(true) && ParseLine(lines[0]).value.port != port {
          var k :| 0 <= k < |tail| && ParseLine(tail[k]).Ok? && ParseLine(tail[k]).value.port == port;
          assert all[k + 1] == tail[k];
        }
        if AllParse(lines) {
          assert AllParse(lines[1..]) by {
            forall k | 0 <= k < |tail| ensures ParseLine(tail[k]).Ok? {
              assert tail[k] == all[k + 1];
            }
          }
        }
        if ConnectionExists(lines, port) == Ok(false) {
          forall k | 0 <= k < |all| ensures ParseLine(all[k]).Ok? && ParseLine(all[k]).value.port != port {
            if k > 0 {
              assert all[k] == tail[k - 1];
            }
          }
        }
      }
    }
  }

  /** The connected flag of the first connection named `(appname, version)`,
      false when there is none. */
  function ConnectedIn(conns: seq<Connection>, appname: string, version: string): bool
  {
    if |conns| == 0 then false
    else if conns[0].appname == appname && conns[0].version == version then conns[0].connected
    else ConnectedIn(conns[1..], appname, version)
  }

  function Connected(lines: seq<string>, ledgerLines: seq<string>, appname: string, version: string): Result<bool>
  {
    match Connections(lines, ledgerLines)
    case Err(e) => Err(e)
    case Ok(conns) => Ok(ConnectedIn(conns, appname, version))
  }

  /** `is_connected(appname, version)`. */
  method IsConnected(listing: string, ledger: string, appname: string, version: string) returns (r: Result<bool>)
    ensures r == Connected(Split(listing, '\n'), SplitLines(ledger), appname, version)
  {
    var proxyBackends := AllProxyConnections(listing, ledger);
    if proxyBackends.Err? {
      return Err(proxyBackends.error);
    }
    var conns := proxyBackends.value;
    for k := 0 to |conns|
      invariant ConnectedIn(conns, appname, version) == ConnectedIn(conns[k..], appname, version)
    {
      assert conns[k..][1..] == conns[k + 1..];
      if conns[k].appname == appname && conns[k].version == version {
        return Ok(conns[k].connected);
      }
    }
    return Ok(false);
  }

  /** The connection reported for a name is the FIRST one carrying it. */
  lemma {:induction false} ConnectedInFirst(conns: seq<Connection>, appname: string, version: string, i: nat)
    requires i < |conns| && conns[i].appname == appname && conns[i].version == version
    requires forall j :: 0 <= j < i ==> conns[j].appname != appname || conns[j].version != version
    ensures ConnectedIn(conns, appname, version) == conns[i].connected
    decreases i
  {
    if i > 0 {
      assert conns[1..][i - 1] == conns[i];
      ConnectedInFirst(conns[1..], appname, version, i - 1);
    }
  }

  /** A name no connection carries is reported as not connected. */
  lemma {:induction false} ConnectedInMiss(conns: seq<Connection>, appname: string, version: string)
    requires forall j :: 0 <= j < |conns| ==> conns[j].appname != appname || conns[j].version != version
    ensures !ConnectedIn(conns, appname, version)
    decreases |conns|
  {
    if |conns| > 0 {
      assert forall j :: 0 <= j < |conns[1..]| ==> conns[1..][j] == conns[j + 1];
      ConnectedInMiss(conns[1..], appname, version);
    }
  }

  // ---------------------------------------------------------------------------
  // The listing printed from the table parses back to the table
  // ---------------------------------------------------------------------------

  lemma {:induction false} LocalSplit(server: string)
    requires IsLocal(server)
    ensures Split(server, ':') == ["127.0.0.1", PortText(server)]
  {
    var p := PortText(server);
    assert server == Localhost + p;
    assert Join(["127.0.0.1", p], ':') == "127.0.0.1" + [':'] + p;
    assert server == Join(["127.0.0.1", p], ':');
    SplitJoin(["127.0.0.1", p], ':');
  }

  lemma {:induction false} LocalAvoids(server: string)
    requires IsLocal(server)
    ensures ' ' !in server && '\n' !in server
  {
    assert server == Localhost + PortText(server);
  }

  /** No field of a listing line holds a space or a newline. */
  lemma ListingFieldsAvoid(b: Backend)
    requires IsLocal(b.server)
    ensures forall i :: 0 <= i < |ListingFields(b)| ==> ' ' !in ListingFields(b)[i] && '\n' !in ListingFields(b)[i]
  {
    LocalAvoids(b.server);
  }

  /** A listing line parses back to its backend's port and state. */
  lemma {:induction false} ListingLineParses(b: Backend)
    requires IsLocal(b.server)
    ensures |ListingLine(b)| > 0
    ensures '\n' !in ListingLine(b)
    ensures ParseLine(ListingLine(b)) == Ok(Entry(PortText(b.server), !b.down))
  {
    var fields := ListingFields(b);
    ListingFieldsAvoid(b);
    SplitJoin(fields, ' ');
    JoinAvoids(fields, ' ', '\n');
    LocalSplit(b.server);
    assert fields[1..][0] == b.server;
    assert |Join(fields, ' ')| >= |fields[0]|;
  }

  /** The listing text splits into one line per backend and a final empty line. */
  lemma {:induction false} ListingSplits(backends: seq<Backend>)
    requires AllLocal(backends)
    ensures Split(Listing(backends), '\n') == ListingLines(backends) + [""]
  {
    var lines := ListingLines(backends) + [""];
    forall i | 0 <= i < |lines| ensures '\n' !in lines[i] {
      if i < |backends| { ListingLineParses(backends[i]); }
    }
    SplitJoin(lines, '\n');
  }

  lemma {:induction false} ListingLinesTail(backends: seq<Backend>)
    requires |backends| > 0
    ensures (ListingLines(backends) + [""])[0] == ListingLine(backends[0])
    ensures (ListingLines(backends) + [""])[1..] == ListingLines(backends[1..]) + [""]
  {
  }

  /** Every backend of the table is reported, in order, with its port, its
      state and the ledger's owner of its port. */
  lemma {:induction false} ConnectionsOfListing(backends: seq<Backend>, ledgerLines: seq<string>)
    requires AllLocal(backends) && WellFormed(ledgerLines)
    ensures var r := Connections(Split(Listing(backends), '\n'), ledgerLines);
      && r.Ok? && |r.value| == |backends|
      && forall k :: 0 <= k < |backends| ==>
           && r.value[k].port == PortText(backends[k].server)
           && r.value[k].connected == !backends[k].down
           && OwnerOf(ledgerLines, r.value[k].port) == Ok(Owner(r.value[k].appname, r.value[k].version))
  {
    ListingSplits(backends);
    ConnectionsOfLines(backends, ledgerLines);
  }

  lemma {:induction false} ConnectionsOfLines(backends: seq<Backend>, ledgerLines: seq<string>)
    requires AllLocal(backends) && WellFormed(ledgerLines)
    ensures var r := Connections(ListingLines(backends) + [""], ledgerLines);
      && r.Ok? && |r.value| == |backends|
      && forall k :: 0 <= k < |backends| ==>
           && r.value[k].port == PortText(backends[k].server)
           && r.value[k].connected == !backends[k].down
           && OwnerOf(ledgerLines, r.value[k].port) == Ok(Owner(r.value[k].appname, r.value[k].version))
    decreases |backends|
  {
    var lines := ListingLines(backends) + [""];
    if |backends| == 0 {
      assert lines == [""];
      assert lines[1..] == [];
    } else {
      ListingLinesTail(backends);
      ListingLineParses(backends[0]);
      var p := PortText(backends[0].server);
      OwnerOfTotal(ledgerLines, p);
      assert AllLocal(backends[1..]) by {
        assert forall i :: 0 <= i < |backends[1..]| ==> backends[1..][i] == backends[i + 1];
      }
      ConnectionsOfLines(backends[1..], ledgerLines);
      var rest := Connections(lines[1..], ledgerLines).value;
      var owner := OwnerOf(ledgerLines, p).value;
      var c := Connection(owner.appname, owner.version, p, !backends[0].down);
      assert Connections(lines, ledgerLines) == Ok([c] + rest);
      forall k | 0 <= k < |backends|
        ensures ([c] + rest)[k].port == PortText(backends[k].server)
        ensures ([c] + rest)[k].connected == !backends[k].down
        ensures OwnerOf(ledgerLines, ([c] + rest)[k].port) == Ok(Owner(([c] + rest)[k].appname, ([c] + rest)[k].version))
      {
        if k > 0 {
          assert ([c] + rest)[k] == rest[k - 1];
          assert backends[1..][k - 1] == backends[k];
        }
      }
    }
  }

  /** On a table of local servers, `does_connection_exists(port)` answers
      whether `127.0.0.1:port` is registered. */
  lemma {:induction false} ConnectionExistsOfListing(backends: seq<Backend>, port: string)
    requires AllLocal(backends)
    ensures ConnectionExists(Split(Listing(backends), '\n'), port) == Ok(Listed(backends, Localhost + port))
  {
    ListingSplits(backends);
    ConnectionExistsOfLines(backends, port);
  }

  lemma {:induction false} ConnectionExistsOfLines(backends: seq<Backend>, port: string)
    requires AllLocal(backends)
    ensures ConnectionExists(ListingLines(backends) + [""], port) == Ok(Listed(backends, Localhost + port))
    decreases |backends|
  {
    var lines := ListingLines(backends) + [""];
    if |backends| == 0 {
      assert lines == [""];
      assert lines[1..] == [];
    } else {
      ListingLinesTail(backends);
      ListingLineParses(backends[0]);
      var b := backends[0];
      assert b.server == Localhost + PortText(b.server);
      assert AllLocal(backends[1..]) by {
        assert forall i :: 0 <= i < |backends[1..]| ==> backends[1..][i] == backends[i + 1];
      }
      ConnectionExistsOfLines(backends[1..], port);
      if port == PortText(b.server) {
        assert backends[0].server == Localhost + port;
      } else {
        assert (Localhost + port)[|Localhost|..] == port;
        assert b.server != Localhost + port;
        assert Listed(backends, Localhost + port) == Listed(backends[1..], Localhost + port) by {
          if Listed(backends, Localhost + port) {
            var i :| 0 <= i < |backends| && backends[i].server == Localhost + port;
            assert i > 0 && backends[1..][i - 1] == backends[i];
          }
          if Listed(backends[1..], Localhost + port) {
            var i :| 0 <= i < |backends[1..]| && backends[1..][i].server == Localhost + port;
            assert backends[i + 1] == backends[1..][i];
          }
        }
      }
    }
  }

  // ---------------------------------------------------------------------------
  // up, add_to_proxy, down
  // ---------------------------------------------------------------------------

  /** The one request `up(server)` sends: `up` when the listing already has a
      backend on the server's port, `add` otherwise. */
  function UpRequest(backends: seq<Backend>, server: string): Result<Request>
  {
    var parts := Split(server, ':');
    if |parts| < 2 then Err(IndexError)
    else
      match ConnectionExists(Split(Listing(backends), '\n'), parts[1])
      case Err(e) => Err(e)
      case Ok(known) => Ok(Request(server, if known then Up else Add))
  }

  /** For a local server, `up` sends `up` when the server is registered and
      `add` when it is not. */
  lemma {:induction false} UpRequestOfLocal(backends: seq<Backend>, port: string)
    requires AllLocal(backends) && PortToken(port)
    ensures UpRequest(backends, Localhost + port)
            == Ok(Request(Localhost + port, if Listed(backends, Localhost + port) then Up else Add))
  {
    var server := Localhost + port;
    assert server[..|Localhost|] == Localhost && server[|Localhost|..] == port;
    LocalSplit(server);
    ConnectionExistsOfListing(backends, port);
  }

  /** After `up` of a local server the server is registered and every entry of
      it is enabled; entries of other servers are kept as they were. */
  lemma {:induction false} UpConnects(backends: seq<Backend>, port: string)
    requires AllLocal(backends) && PortToken(port)
    ensures UpRequest(backends, Localhost + port).Ok?
    ensures var after := Apply(backends, UpRequest(backends, Localhost + port).value);
      && Listed(after, Localhost + port)
      && (forall i :: 0 <= i < |after| && after[i].server == Localhost + port ==> !after[i].down)
      && (forall i :: 0 <= i < |after| && after[i].server != Localhost + port ==> after[i] in backends)
      && (forall i :: 0 <= i < |backends| && backends[i].server != Localhost + port ==> backends[i] in after)
      && AllLocal(after)
  {
    var server := Localhost + port;
    UpRequestOfLocal(backends, port);
    assert server[..|Localhost|] == Localhost && server[|Localhost|..] == port;
    var after := Apply(backends, UpRequest(backends, server).value);
    if Listed(backends, server) {
      var i :| 0 <= i < |backends| && backends[i].server == server;
      assert after[i].server == server;
      forall k | 0 <= k < |backends| && backends[k].server != server ensures backends[k] in after {
        assert after[k] == backends[k];
      }
    } else {
      assert after[|backends|].server == server;
      assert after == backends + [Backend(server, false)];
      forall k | 0 <= k < |backends| && backends[k].server != server ensures backends[k] in after {
        assert after[k] == backends[k];
      }
    }
  }

  /** `add_to_proxy`'s `add` then `down`: the server ends registered and every
      entry of it disabled; entries of other servers are kept as they were. */
  lemma {:induction false} AddThenDownDisconnected(backends: seq<Backend>, server: string)
    ensures var after := ApplyAll(backends, [Request(server, Add), Request(server, Down)]);
      && Listed(after, server)
      && (forall i :: 0 <= i < |after| && after[i].server == server ==> after[i].down)
      && (forall i :: 0 <= i < |after| && after[i].server != server ==> after[i] in backends)
      && (forall i :: 0 <= i < |backends| && backends[i].server != server ==> backends[i] in after)
  {
    var reqs := [Request(server, Add), Request(server, Down)];
    var added := Apply(backends, reqs[0]);
    assert reqs[1..][1..] == [];
    var after := Apply(added, reqs[1]);
    assert ApplyAll(after, reqs[1..][1..]) == after;
    assert ApplyAll(added, reqs[1..]) == after;
    assert ApplyAll(backends, reqs) == after;
    assert Listed(added, server) by {
      if !Listed(backends, server) { assert added[|backends|].server == server; }
    }
    var i :| 0 <= i < |added| && added[i].server == server;
    assert after[i].server == server;
    forall k | 0 <= k < |after| && after[k].server != server ensures after[k] in backends {
      assert after[k] == added[k];
      if k < |backends| { assert added[k] == backends[k]; }
    }
    forall k | 0 <= k < |backends| && backends[k].server != server ensures backends[k] in after {
      assert added[k] == backends[k];
      assert after[k] == added[k];
    }
  }

  /** A run of `down` requests disables exactly the entries of the servers it
      names and leaves every other entry as it was. */
  lemma {:induction false} DownsDisable(backends: seq<Backend>, servers: seq<string>)
    ensures var after := ApplyAll(backends, DownRequests(servers));
      && |after| == |backends|
      && forall i :: 0 <= i < |backends| ==>
           after[i].server == backends[i].server && after[i].down == (backends[i].down || backends[i].server in servers)
    decreases |servers|
  {
    if |servers| > 0 {
      var once := Apply(backends, Request(servers[0], Down));
      assert DownRequests(servers)[1..] == DownRequests(servers[1..]);
      DownsDisable(once, servers[1..]);
      forall i | 0 <= i < |backends|
        ensures backends[i].server in servers <==> backends[i].server == servers[0] || backends[i].server in servers[1..]
      {
        assert servers == [servers[0]] + servers[1..];
      }
    }
  }

  /** `up` (or `add`) for a local server followed by `down` for servers other
      than it: the server ends registered and receiving traffic, and every
      entry of a server that was sent `down` is disabled. */
  lemma {:induction false} UpThenDowns(backends: seq<Backend>, port: string, servers: seq<string>)
    requires AllLocal(backends) && PortToken(port)
    requires Localhost + port !in servers
    ensures UpRequest(backends, Localhost + port).Ok?
    ensures var after := ApplyAll(Apply(backends, UpRequest(backends, Localhost + port).value), DownRequests(servers));
      && Listed(after, Localhost + port)
      && (forall i :: 0 <= i < |after| && after[i].server == Localhost + port ==> !after[i].down)
      && (forall i :: 0 <= i < |after| && after[i].server in servers ==> after[i].down)
  {
    UpConnects(backends, port);
    var up := Apply(backends, UpRequest(backends, Localhost + port).value);
    DownsDisable(up, servers);
    var i :| 0 <= i < |up| && up[i].server == Localhost + port;
    assert ApplyAll(up, DownRequests(servers))[i].server == Localhost + port;
  }

  /** `remove` leaves no entry of the server and keeps all others. */
  lemma {:induction false} RemoveDeregisters(backends: seq<Backend>, server: string)
    ensures var after := Apply(backends, Request(server, Remove));
      && !Listed(after, server)
      && forall b :: b in backends && b.server != server <==> b in after
    decreases |backends|
  {
    if |backends| > 0 {
      RemoveDeregisters(backends[1..], server);
      assert backends == [backends[0]] + backends[1..];
    }
  }
}
