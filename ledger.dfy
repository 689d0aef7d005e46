/** The port ledger: a text file with one `appname,version,port` line per
    reservation. Every operation reads the whole file, splits it into lines
    with `splitlines()` and each line into fields with `split(',')`, and scans
    the lines front to back. A field the split did not produce raises
    `IndexError`, in the order in which the source's `and` evaluates them. */
module Ledger {
  import opened Text
  import opened Values

  /** The allocator tries `PoolBase + 1` up to and including `PoolTop`. */
  const PoolBase: nat := 8300
  const PoolTop: nat := 8500

  /** The fields of a ledger line. */
  function Fields(line: string): seq<string>
  {
    Split(line, ',')
  }

  /** The line `reserve_app_port` writes for a reservation, before its `'\n'`. */
  function Record(appname: string, version: string, port: string): string
  {
    appname + "," + version + "," + port
  }

  /** Every line has the three fields the scans index. */
  predicate WellFormed(lines: seq<string>)
  {
    forall i :: 0 <= i < |lines| ==> |Fields(lines[i])| >= 3
  }

  /** The line is a record of `(appname, version)`. */
  predicate HasKey(line: string, appname: string, version: string)
  {
    var f := Fields(line);
    |f| >= 3 && f[0] == appname && f[1] == version
  }

  /** The line is a record of `port`. */
  predicate HasPort(line: string, port: string)
  {
    var f := Fields(line);
    |f| >= 3 && f[2] == port
  }

  /** No two lines reserve the same port. */
  predicate PortUnique(lines: seq<string>)
  {
    forall i, j :: 0 <= i < j < |lines| && |Fields(lines[i])| >= 3 && |Fields(lines[j])| >= 3 ==>
      Fields(lines[i])[2] != Fields(lines[j])[2]
  }

  /** No two lines reserve a port for the same `(appname, version)`. */
  predicate KeyUnique(lines: seq<string>)
  {
    forall i, j :: 0 <= i < j < |lines| && |Fields(lines[i])| >= 3 && |Fields(lines[j])| >= 3 ==>
      Fields(lines[i])[0] != Fields(lines[j])[0] || Fields(lines[i])[1] != Fields(lines[j])[1]
  }

  /** A field that can be written into the file without adding fields or lines. */
  predicate CleanField(s: string)
  {
    ',' !in s && NoBreaks(s)
  }

  /** Every line is `appname,version,port` with a numeral for the port, the
      form `reserve_app_port` writes when the allocator found a port. */
  predicate Canonical(lines: seq<string>)
  {
    forall i :: 0 <= i < |lines| ==>
      |Fields(lines[i])| == 3 && |Fields(lines[i])[2]| >= 1
      && forall k :: 0 <= k < |Fields(lines[i])[2]| ==> IsDigit(Fields(lines[i])[2][k])
  }

  lemma {:induction false} RecordFields(appname: string, version: string, port: string)
    requires ',' !in appname && ',' !in version && ',' !in port
    ensures Fields(Record(appname, version, port)) == [appname, version, port]
  {
    var parts := [appname, version, port];
    assert parts[1..] == [version, port] && parts[1..][1..] == [port];
    assert Join([port], ',') == port;
    assert Join([version, port], ',') == version + [','] + port;
    assert Join(parts, ',') == appname + [','] + (version + [','] + port);
    assert Record(appname, version, port) == Join(parts, ',');
    SplitJoin(parts, ',');
  }

  // ---------------------------------------------------------------------------
  // is_port_taken
  // ---------------------------------------------------------------------------

  /** The scan of `is_port_taken`: true at the first line whose third field is
      `port`, an `IndexError` at a line without a third field before that. */
  function PortTaken(lines: seq<string>, port: string): Result<bool>
  {
    if |lines| == 0 then Ok(false)
    else
      var f := Fields(lines[0]);
      if |f| < 3 then Err(IndexError)
      else if f[2] == port then Ok(true)
      else PortTaken(lines[1..], port)
  }

  /** `is_port_taken(port)`: reads the ledger and runs the scan. */
  method IsPortTaken(ledger: string, port: nat) returns (r: Result<bool>)
    ensures r == PortTaken(SplitLines(ledger), NatToString(port))
  {
    var content := SplitLines(ledger);
    var text := NatToString(port);
    var i := 0;
    while i < |content|
      invariant 0 <= i <= |content|
      invariant PortTaken(content, text) == PortTaken(content[i..], text)
    {
      assert content[i..][1..] == content[i + 1..];
      var parts := Split(content[i], ',');
      if |parts| < 3 {
        return Err(IndexError);
      }
      if parts[2] == text {
        return Ok(true);
      }
      i := i + 1;
    }
    return Ok(false);
  }

  /** The scan answers true exactly when some line reserves `port`; it answers
      false only when every line is well formed and none reserves `port`; and
      on a well-formed ledger it never raises. */
  lemma {:induction false} PortTakenMeaning(lines: seq<string>, port: string)
    ensures PortTaken(lines, port) == Ok(true) ==> exists i :: 0 <= i < |lines| && HasPort(lines[i], port)
    ensures PortTaken(lines, port) == Ok(false) ==>
      WellFormed(lines) && forall i :: 0 <= i < |lines| ==> !HasPort(lines[i], port)
    ensures WellFormed(lines) ==> PortTaken(lines, port).Ok?
    ensures PortTaken(lines, port).Err? ==> PortTaken(lines, port).error == IndexError
    decreases |lines|
  {
    if |lines| > 0 {
      PortTakenMeaning(lines[1..], port);
      if PortTaken(lines, port) == Ok(true) && !HasPort(lines[0], port) {
        var i :| 0 <= i < |lines[1..]| && HasPort(lines[1..][i], port);
        assert HasPort(lines[i + 1], port);
      }
      if WellFormed(lines) {
        assert forall i :: 0 <= i < |lines[1..]| ==> lines[1..][i] == lines[i + 1];
      }
      if PortTaken(lines, port) == Ok(false) {
        forall i | 0 <= i < |lines| ensures |Fields(lines[i])| >= 3 && !HasPort(lines[i], port) {
          if i > 0 { assert lines[i] == lines[1..][i - 1]; }
        }
      }
    }
  }

  // ---------------------------------------------------------------------------
  // get_available_port
  // ---------------------------------------------------------------------------

  /** The search of `get_available_port` after the counter reached `p`: the
      counter is incremented before each check, so the ports tried are
      `p + 1` up to and including `PoolTop`. */
  function FreeFrom(lines: seq<string>, p: nat): Result<Option<nat>>
    requires PoolBase <= p <= PoolTop
    decreases PoolTop - p
  {
    if p == PoolTop then Ok(None)
    else
      match PortTaken(lines, NatToString(p + 1))
      case Err(e) => Err(e)
      case Ok(taken) => if !taken then Ok(Some(p + 1)) else FreeFrom(lines, p + 1)
  }

  function FreePort(lines: seq<string>): Result<Option<nat>>
  {
    FreeFrom(lines, PoolBase)
  }

  /** `get_available_port()`: the first free port, `None` if all are taken;
      an `IndexError` of the scan propagates. */
  method AvailablePort(ledger: string) returns (r: Result<Option<nat>>)
    ensures r == FreePort(SplitLines(ledger))
  {
    var p := PoolBase;
    while p < PoolTop
      invariant PoolBase <= p <= PoolTop
      invariant FreePort(SplitLines(ledger)) == FreeFrom(SplitLines(ledger), p)
    {
      p := p + 1;
      var taken := IsPortTaken(ledger, p);
      match taken {
        case Err(e) =>
          return Err(e);
        case Ok(t) =>
          if !t {
            return Ok(Some(p));
          }
      }
    }
    return Ok(None);
  }

  /** Some line of the ledger holds port `q`. */
  predicate Held(lines: seq<string>, q: nat)
  {
    exists i :: 0 <= i < |lines| && HasPort(lines[i], NatToString(q))
  }

  /** The allocator returns the least port of `PoolBase + 1 ..= PoolTop` that
      no line reserves, and that port is fresh; `None` means every port of the
      pool is reserved; it raises only on a ledger with a short line. */
  lemma {:induction false} FreePortMeaning(lines: seq<string>)
    ensures FreePort(lines).Ok? && FreePort(lines).value.Some? ==>
      var p := FreePort(lines).value.value;
      && PoolBase < p <= PoolTop
      && (forall i :: 0 <= i < |lines| ==> !HasPort(lines[i], NatToString(p)))
      && (forall q :: PoolBase < q < p ==> Held(lines, q))
    ensures FreePort(lines) == Ok(None) ==> forall q :: PoolBase < q <= PoolTop ==> Held(lines, q)
    ensures FreePort(lines).Err? ==> FreePort(lines).error == IndexError && !WellFormed(lines)
  {
    FreeFromMeaning(lines, PoolBase);
  }

  lemma {:induction false} FreeFromMeaning(lines: seq<string>, p: nat)
    requires PoolBase <= p <= PoolTop
    ensures var r := FreeFrom(lines, p);
      match r
      case Ok(Some(found)) =>
        && p < found <= PoolTop
        && (forall i :: 0 <= i < |lines| ==> !HasPort(lines[i], NatToString(found)))
        && (forall q :: p < q < found ==> Held(lines, q))
      case Ok(None) => forall q :: p < q <= PoolTop ==> Held(lines, q)
      case Err(e) => e == IndexError && !WellFormed(lines)
    decreases PoolTop - p
  {
    if p < PoolTop {
      var next := NatToString(p + 1);
      PortTakenMeaning(lines, next);
      FreeFromMeaning(lines, p + 1);
      match PortTaken(lines, next)
      case Err(_) =>
      case Ok(taken) =>
        if taken {
          assert Held(lines, p + 1);
        }
    }
  }

  // ---------------------------------------------------------------------------
  // get_port_for_stopped_app
  // ---------------------------------------------------------------------------

  /** The scan of `get_port_for_stopped_app`: the port text of the first record
      of `(appname, version)`, the int `0` when there is none. The second field
      is read only when the first matches, the third only on a match. */
  function PortOf(lines: seq<string>, appname: string, version: string): Result<PortValue>
  {
    if |lines| == 0 then Ok(Int(0))
    else
      var f := Fields(lines[0]);
      if f[0] != appname then PortOf(lines[1..], appname, version)
      else if |f| < 2 then Err(IndexError)
      else if f[1] != version then PortOf(lines[1..], appname, version)
      else if |f| < 3 then Err(IndexError)
      else Ok(Str(f[2]))
  }

  /** `get_port_for_stopped_app(appname, version)['port']`. */
  method PortForStoppedApp(ledger: string, appname: string, version: string) returns (r: Result<PortValue>)
    ensures r == PortOf(SplitLines(ledger), appname, version)
  {
    var content := SplitLines(ledger);
    var i := 0;
    while i < |content|
      invariant 0 <= i <= |content|
      invariant PortOf(content, appname, version) == PortOf(content[i..], appname, version)
    {
      assert content[i..][1..] == content[i + 1..];
      var parts := Split(content[i], ',');
      if parts[0] == appname {
        if |parts| < 2 {
          return Err(IndexError);
        }
        if parts[1] == version {
          if |parts| < 3 {
            return Err(IndexError);
          }
          return Ok(Str(parts[2]));
        }
      }
      i := i + 1;
    }
    return Ok(Int(0));
  }

  /** On a well-formed ledger the lookup returns the port of the FIRST record
      of the key. */
  lemma {:induction false} PortOfFirst(lines: seq<string>, appname: string, version: string, i: nat)
    requires WellFormed(lines)
    requires i < |lines| && HasKey(lines[i], appname, version)
    requires forall j :: 0 <= j < i ==> !HasKey(lines[j], appname, version)
    ensures PortOf(lines, appname, version) == Ok(Str(Fields(lines[i])[2]))
    decreases i
  {
    if i > 0 {
      assert !HasKey(lines[0], appname, version);
      assert lines[1..][i - 1] == lines[i];
      PortOfFirst(lines[1..], appname, version, i - 1);
    }
  }

  /** On a well-formed ledger the lookup misses (port `0`) exactly when no
      record has the key; and a port text it returns is that of a record of
      the key. */
  lemma {:induction false} PortOfMeaning(lines: seq<string>, appname: string, version: string)
    ensures WellFormed(lines) ==>
      (PortOf(lines, appname, version) == Ok(Int(0)) <==> forall i :: 0 <= i < |lines| ==> !HasKey(lines[i], appname, version))
    ensures WellFormed(lines) ==> PortOf(lines, appname, version).Ok? && !PortOf(lines, appname, version).value.NoneValue?
    ensures PortOf(lines, appname, version).Ok? && PortOf(lines, appname, version).value.Str? ==>
      exists i :: 0 <= i < |lines| && HasKey(lines[i], appname, version)
                  && Fields(lines[i])[2] == PortOf(lines, appname, version).value.text
    ensures PortOf(lines, appname, version).Ok? && PortOf(lines, appname, version).value.Int? ==>
      PortOf(lines, appname, version).value.number == 0
    decreases |lines|
  {
    if |lines| > 0 {
      var rest := lines[1..];
      PortOfMeaning(rest, appname, version);
      assert forall i :: 0 <= i < |rest| ==> rest[i] == lines[i + 1];
      var r := PortOf(lines, appname, version);
      if r.Ok? && r.value.Str? && !HasKey(lines[0], appname, version) {
        var i :| 0 <= i < |rest| && HasKey(rest[i], appname, version) && Fields(rest[i])[2] == r.value.text;
        assert HasKey(lines[i + 1], appname, version);
      }
      if WellFormed(lines) {
        assert WellFormed(rest);
        if r == Ok(Int(0)) {
          forall i | 0 <= i < |lines| ensures !HasKey(lines[i], appname, version) {
            if i > 0 { assert lines[i] == rest[i - 1]; }
          }
        }
      }
    }
  }

  // ---------------------------------------------------------------------------
  // get_app_for_port
  // ---------------------------------------------------------------------------

  /** What `get_app_for_port` reports about the owner of a port. */
  datatype Owner = Owner(appname: string, version: string)

  /** The scan of `get_app_for_port`: the first record of `port`, the empty
      names when there is none. */
  function OwnerOf(lines: seq<string>, port: string): Result<Owner>
  {
    if |lines| == 0 then Ok(Owner("", ""))
    else
      var f := Fields(lines[0]);
      if |f| < 3 then Err(IndexError)
      else if f[2] == port then Ok(Owner(f[0], f[1]))
      else OwnerOf(lines[1..], port)
  }

  /** `get_app_for_port(port)`, the names of the result. */
  method AppForPort(ledger: string, port: string) returns (r: Result<Owner>)
    ensures r == OwnerOf(SplitLines(ledger), port)
  {
    var content := SplitLines(ledger);
    var i := 0;
    while i < |content|
      invariant 0 <= i <= |content|
      invariant OwnerOf(content, port) == OwnerOf(content[i..], port)
    {
      assert content[i..][1..] == content[i + 1..];
      var parts := Split(content[i], ',');
      if |parts| < 3 {
        return Err(IndexError);
      }
      if parts[2] == port {
        return Ok(Owner(parts[0], parts[1]));
      }
      i := i + 1;
    }
    return Ok(Owner("", ""));
  }

  /** The owner reported is that of the FIRST record of the port. */
  lemma {:induction false} OwnerOfFirst(lines: seq<string>, port: string, i: nat)
    requires WellFormed(lines)
    requires i < |lines| && HasPort(lines[i], port)
    requires forall j :: 0 <= j < i ==> !HasPort(lines[j], port)
    ensures OwnerOf(lines, port) == Ok(Owner(Fields(lines[i])[0], Fields(lines[i])[1]))
    decreases i
  {
    if i > 0 {
      assert !HasPort(lines[0], port);
      assert lines[1..][i - 1] == lines[i];
      OwnerOfFirst(lines[1..], port, i - 1);
    }
  }

  /** On a well-formed ledger without a record of the port the owner is
      reported as the empty names. */
  lemma {:induction false} OwnerOfMiss(lines: seq<string>, port: string)
    requires WellFormed(lines)
    requires forall i :: 0 <= i < |lines| ==> !HasPort(lines[i], port)
    ensures OwnerOf(lines, port) == Ok(Owner("", ""))
    decreases |lines|
  {
    if |lines| > 0 {
      assert forall i :: 0 <= i < |lines[1..]| ==> lines[1..][i] == lines[i + 1];
      OwnerOfMiss(lines[1..], port);
    }
  }

  /** On a well-formed ledger the owner lookup never raises. */
  lemma {:induction false} OwnerOfTotal(lines: seq<string>, port: string)
    requires WellFormed(lines)
    ensures OwnerOf(lines, port).Ok?
    decreases |lines|
  {
    if |lines| > 0 {
      assert forall i :: 0 <= i < |lines[1..]| ==> lines[1..][i] == lines[i + 1];
      OwnerOfTotal(lines[1..], port);
    }
  }

  // ---------------------------------------------------------------------------
  // reserve_app_port
  // ---------------------------------------------------------------------------

  /** `reserve_app_port(appname, version, port)`: appends one line to the file,
      without looking at what is already there. */
  function Reserve(ledger: string, appname: string, version: string, port: PortValue): string
  {
    ledger + Record(appname, version, Show(port)) + "\n"
  }

  /** Reserving on a terminated file adds exactly the new record after all the
      existing lines, which are unchanged. */
  lemma {:induction false} ReserveAppends(ledger: string, appname: string, version: string, port: PortValue)
    requires Terminated(ledger)
    requires NoBreaks(Record(appname, version, Show(port)))
    ensures SplitLines(Reserve(ledger, appname, version, port))
            == SplitLines(ledger) + [Record(appname, version, Show(port))]
    ensures Terminated(Reserve(ledger, appname, version, port))
  {
    var rec := Record(appname, version, Show(port));
    SplitLinesAppend(ledger, rec + "\n");
    SplitLinesLine(rec, "");
    assert rec + "\n" + "" == rec + "\n";
    assert Reserve(ledger, appname, version, port) == ledger + (rec + "\n");
  }

  /** After reserving a port that was free and a key that had no record, both
      lookups find the new record. */
  lemma {:induction false} ReserveThenLookup(lines: seq<string>, appname: string, version: string, port: string)
    requires WellFormed(lines)
    requires ',' !in appname && ',' !in version && ',' !in port
    requires forall i :: 0 <= i < |lines| ==> !HasKey(lines[i], appname, version)
    requires forall i :: 0 <= i < |lines| ==> !HasPort(lines[i], port)
    ensures PortOf(lines + [Record(appname, version, port)], appname, version) == Ok(Str(port))
    ensures OwnerOf(lines + [Record(appname, version, port)], port) == Ok(Owner(appname, version))
  {
    var all := lines + [Record(appname, version, port)];
    RecordFields(appname, version, port);
    assert forall i :: 0 <= i < |lines| ==> all[i] == lines[i];
    PortOfFirst(all, appname, version, |lines|);
    OwnerOfFirst(all, port, |lines|);
  }

  /** There is no duplicate check: reserving a key that already has a record
      leaves the lookup on the older record. */
  lemma {:induction false} ReserveDuplicateShadowed(lines: seq<string>, appname: string, version: string, port: string, i: nat)
    requires WellFormed(lines)
    requires i < |lines| && HasKey(lines[i], appname, version)
    requires forall j :: 0 <= j < i ==> !HasKey(lines[j], appname, version)
    ensures PortOf(lines + [Record(appname, version, port)], appname, version) == PortOf(lines, appname, version)
  {
    var all := lines + [Record(appname, version, port)];
    assert all[i] == lines[i];
    PortOfFirst(lines, appname, version, i);
    if |Fields(Record(appname, version, port))| >= 3 {
      assert WellFormed(all) by {
        forall j | 0 <= j < |all| ensures |Fields(all[j])| >= 3 {
          if j < |lines| { assert all[j] == lines[j]; }
        }
      }
      PortOfFirst(all, appname, version, i);
    } else {
      PortOfPrefix(lines, [Record(appname, version, port)], appname, version, i);
    }
  }

  /** A lookup that hits at index `i` is not affected by lines after `i`. */
  lemma {:induction false} PortOfPrefix(lines: seq<string>, more: seq<string>, appname: string, version: string, i: nat)
    requires i < |lines| && HasKey(lines[i], appname, version)
    requires forall j :: 0 <= j < i ==> !HasKey(lines[j], appname, version) && |Fields(lines[j])| >= 3
    ensures PortOf(lines + more, appname, version) == PortOf(lines, appname, version)
    decreases i
  {
    assert (lines + more)[0] == lines[0];
    if i > 0 {
      assert (lines + more)[1..] == lines[1..] + more;
      assert lines[1..][i - 1] == lines[i];
      PortOfPrefix(lines[1..], more, appname, version, i - 1);
    }
  }

  /** Reserving a port the allocator found free, for identifiers without commas
      or line breaks, keeps the ledger canonical and its ports unique. */
  lemma {:induction false} ReserveKeepsPortsUnique(lines: seq<string>, appname: string, version: string, port: nat)
    requires PortTaken(lines, NatToString(port)) == Ok(false)
    requires PortUnique(lines)
    requires CleanField(appname) && CleanField(version)
    ensures PortUnique(lines + [Record(appname, version, NatToString(port))])
    ensures Canonical(lines) ==> Canonical(lines + [Record(appname, version, NatToString(port))])
  {
    var p := NatToString(port);
    var all := lines + [Record(appname, version, p)];
    PortTakenMeaning(lines, p);
    RecordFields(appname, version, p);
    assert forall i :: 0 <= i < |lines| ==> all[i] == lines[i];
    forall i, j | 0 <= i < j < |all| && |Fields(all[i])| >= 3 && |Fields(all[j])| >= 3
      ensures Fields(all[i])[2] != Fields(all[j])[2]
    {
      if j == |lines| {
        assert !HasPort(lines[i], p);
      }
    }
  }

  lemma {:induction false} RecordNoBreaks(appname: string, version: string, port: string)
    requires CleanField(appname) && CleanField(version)
    requires forall k :: 0 <= k < |port| ==> IsDigit(port[k])
    ensures NoBreaks(Record(appname, version, port)) && CleanField(port)
  {
    var r := Record(appname, version, port);
    forall k | 0 <= k < |r| ensures !IsLineBreak(r[k]) {
      if k < |appname| {
        assert r[k] == appname[k];
      } else if k == |appname| || k == |appname| + |version| + 1 {
        assert r[k] == ',';
      } else if k <= |appname| + |version| {
        assert r[k] == version[k - |appname| - 1];
      } else {
        assert r[k] == port[k - |appname| - |version| - 2];
      }
    }
  }

  /** Appending the record of a port no line holds, for clean identifiers,
      keeps the ledger canonical with unique ports, makes the new key the
      port's owner and, unless the key already had a record, the port the
      key's. */
  lemma {:induction false} FreshRecord(lines: seq<string>, appname: string, version: string, p: nat)
    requires CleanField(appname) && CleanField(version)
    requires Canonical(lines) && PortUnique(lines)
    requires forall i :: 0 <= i < |lines| ==> !HasPort(lines[i], NatToString(p))
    ensures var after := lines + [Record(appname, version, NatToString(p))];
      && Canonical(after) && PortUnique(after)
      && OwnerOf(after, NatToString(p)) == Ok(Owner(appname, version))
      && ((forall i :: 0 <= i < |lines| ==> !HasKey(lines[i], appname, version)) ==>
            PortOf(after, appname, version) == Ok(Str(NatToString(p))))
  {
    var text := NatToString(p);
    var record := Record(appname, version, text);
    RecordNoBreaks(appname, version, text);
    PortTakenMeaning(lines, text);
    assert WellFormed(lines) by {
      assert forall i :: 0 <= i < |lines| ==> |Fields(lines[i])| == 3;
    }
    assert PortTaken(lines, text).Ok?;
    assert !PortTaken(lines, text).value;
    ReserveKeepsPortsUnique(lines, appname, version, p);
    RecordFields(appname, version, text);
    assert OwnerOf(lines + [record], text) == Ok(Owner(appname, version)) by {
      assert HasPort(record, text);
      assert (lines + [record])[|lines|] == record;
      assert WellFormed(lines + [record]);
      OwnerOfFirst(lines + [record], text, |lines|);
    }
    if forall i :: 0 <= i < |lines| ==> !HasKey(lines[i], appname, version) {
      ReserveThenLookup(lines, appname, version, text);
    }
  }

  /** `deploy_file`'s reservation of the port the allocator found: the new
      record follows the old lines, the ledger stays canonical with unique
      ports, the port is owned by the new key and, unless the key already had
      a record, the key's port is the new one. */
  lemma {:induction false} ReserveFreePort(ledger: string, appname: string, version: string)
    requires CleanField(appname) && CleanField(version)
    requires Terminated(ledger)
    requires Canonical(SplitLines(ledger)) && PortUnique(SplitLines(ledger))
    requires FreePort(SplitLines(ledger)).Ok? && FreePort(SplitLines(ledger)).value.Some?
    ensures var lines := SplitLines(ledger);
      var p := FreePort(lines).value.value;
      var after := Reserve(ledger, appname, version, Int(p));
      && SplitLines(after) == lines + [Record(appname, version, NatToString(p))]
      && Terminated(after)
      && Canonical(SplitLines(after)) && PortUnique(SplitLines(after))
      && OwnerOf(SplitLines(after), NatToString(p)) == Ok(Owner(appname, version))
      && ((forall i :: 0 <= i < |lines| ==> !HasKey(lines[i], appname, version)) ==>
            PortOf(SplitLines(after), appname, version) == Ok(Str(NatToString(p))))
  {
    var lines := SplitLines(ledger);
    FreePortMeaning(lines);
    var p := FreePort(lines).value.value;
    RecordNoBreaks(appname, version, NatToString(p));
    ReserveAppends(ledger, appname, version, Int(p));
    FreshRecord(lines, appname, version, p);
  }

  // ---------------------------------------------------------------------------
  // release_app_port
  // ---------------------------------------------------------------------------

  /** The condition under which `release_app_port` drops a line. */
  predicate Matches(line: string, appname: string, version: string, port: string)
  {
    HasKey(line, appname, version) && Fields(line)[2] == port
  }

  /** The line makes the filter condition raise: the first field matches and
      there is no second, or the first two match and there is no third. */
  predicate Faults(line: string, appname: string, version: string)
  {
    var f := Fields(line);
    f[0] == appname && (|f| < 2 || (f[1] == version && |f| < 3))
  }

  /** No line makes the filter condition of `release_app_port` raise. */
  predicate Faultless(lines: seq<string>, appname: string, version: string)
  {
    forall i :: 0 <= i < |lines| ==> !Faults(lines[i], appname, version)
  }

  /** The text `release_app_port` writes back, or the error it raises before
      writing. */
  function Released(ledger: string, appname: string, version: string, port: string): Result<string>
  {
    var lines := SplitLines(ledger);
    if Faultless(lines, appname, version) then Ok(JoinLines(Kept(lines, appname, version, port)))
    else Err(IndexError)
  }

  /** The lines `release_app_port` keeps, in their order. */
  function Kept(lines: seq<string>, appname: string, version: string, port: string): seq<string>
  {
    if |lines| == 0 then []
    else if Matches(lines[0], appname, version, port) then Kept(lines[1..], appname, version, port)
    else [lines[0]] + Kept(lines[1..], appname, version, port)
  }

  /** One more line of the filter: it is kept unless it matches. */
  lemma KeptStep(lines: seq<string>, i: int, appname: string, version: string, port: string)
    requires 0 <= i < |lines|
    ensures Kept(lines[..i + 1], appname, version, port)
         == Kept(lines[..i], appname, version, port)
            + (if Matches(lines[i], appname, version, port) then [] else [lines[i]])
  {
    assert lines[..i + 1] == lines[..i] + [lines[i]];
    KeptConcat(lines[..i], [lines[i]], appname, version, port);
    assert [lines[i]][1..] == [];
  }

  /** `release_app_port(appname, version, port)`: the text written back, or the
      `IndexError` raised before anything is written. */
  method ReleasedText(ledger: string, appname: string, version: string, port: string) returns (r: Result<string>)
    ensures r == Released(ledger, appname, version, port)
  {
    var content := SplitLines(ledger);
    var written := "";
    var i := 0;
    while i < |content|
      invariant 0 <= i <= |content|
      invariant written == JoinLines(Kept(content[..i], appname, version, port))
      invariant forall j :: 0 <= j < i ==> !Faults(content[j], appname, version)
    {
      var parts := Split(content[i], ',');
      if parts[0] == appname && (|parts| < 2 || (parts[1] == version && |parts| < 3)) {
        assert Faults(content[i], appname, version);
        return Err(IndexError);
      }
      var drop := parts[0] == appname && parts[1] == version && parts[2] == port;
      KeptStep(content, i, appname, version, port);
      assert drop == Matches(content[i], appname, version, port);
      ghost var before := Kept(content[..i], appname, version, port);
      if !drop {
        assert Kept(content[..i + 1], appname, version, port) == before + [content[i]];
        JoinLinesAppend(before, content[i]);
        written := written + content[i] + "\n";
      } else {
        assert Kept(content[..i + 1], appname, version, port) == before + [];
        assert before + [] == before;
      }
      i := i + 1;
    }
    assert content[..i] == content;
    return Ok(written);
  }

  /** `release_app_port` raises exactly when some line makes the filter
      condition raise (never on a well-formed ledger); otherwise the file it
      writes reads back as the kept lines. */
  lemma {:induction false} ReleasedMeaning(ledger: string, appname: string, version: string, port: string)
    ensures Released(ledger, appname, version, port).Ok? <==> Faultless(SplitLines(ledger), appname, version)
    ensures Released(ledger, appname, version, port).Err? ==> Released(ledger, appname, version, port).error == IndexError
    ensures WellFormed(SplitLines(ledger)) ==> Released(ledger, appname, version, port).Ok?
    ensures Released(ledger, appname, version, port).Ok? ==>
      && SplitLines(Released(ledger, appname, version, port).value) == Kept(SplitLines(ledger), appname, version, port)
      && Terminated(Released(ledger, appname, version, port).value)
  {
    var lines := SplitLines(ledger);
    var kept := Kept(lines, appname, version, port);
    SplitLinesNoBreaks(ledger);
    forall i | 0 <= i < |kept| ensures NoBreaks(kept[i]) {
      KeptMembers(lines, appname, version, port, kept[i]);
    }
    SplitLinesJoin(kept);
    JoinLinesShape(kept);

  }

  /** Filtering distributes over concatenation: the kept lines stay in their
      original order. */
  lemma {:induction false} KeptConcat(xs: seq<string>, ys: seq<string>, appname: string, version: string, port: string)
    ensures Kept(xs + ys, appname, version, port) == Kept(xs, appname, version, port) + Kept(ys, appname, version, port)
    decreases |xs|
  {
    if |xs| == 0 {
      assert xs + ys == ys;
    } else {
      assert (xs + ys)[0] == xs[0];
      assert (xs + ys)[1..] == xs[1..] + ys;
      KeptConcat(xs[1..], ys, appname, version, port);
    }
  }

  /** A line survives the release exactly when it was there and does not match
      all three of name, version and port: every matching line goes, not only
      the first. */
  lemma {:induction false} KeptMembers(lines: seq<string>, appname: string, version: string, port: string, x: string)
    ensures x in Kept(lines, appname, version, port) <==> x in lines && !Matches(x, appname, version, port)
    decreases |lines|
  {
    if |lines| > 0 {
      KeptMembers(lines[1..], appname, version, port, x);
      assert lines == [lines[0]] + lines[1..];
    }
  }

  /** Releasing a record that is not there is a no-op. */
  lemma {:induction false} KeptNoMatch(lines: seq<string>, appname: string, version: string, port: string)
    requires forall i :: 0 <= i < |lines| ==> !Matches(lines[i], appname, version, port)
    ensures Kept(lines, appname, version, port) == lines
    decreases |lines|
  {
    if |lines| > 0 {
      assert forall i :: 0 <= i < |lines[1..]| ==> lines[1..][i] == lines[i + 1];
      KeptNoMatch(lines[1..], appname, version, port);
      assert [lines[0]] + lines[1..] == lines;
    }
  }

  /** Releasing twice is releasing once. */
  lemma {:induction false} KeptIdempotent(lines: seq<string>, appname: string, version: string, port: string)
    ensures Kept(Kept(lines, appname, version, port), appname, version, port) == Kept(lines, appname, version, port)
  {
    var kept := Kept(lines, appname, version, port);
    forall i | 0 <= i < |kept| ensures !Matches(kept[i], appname, version, port) {
      KeptMembers(lines, appname, version, port, kept[i]);
    }
    KeptNoMatch(kept, appname, version, port);
  }

  /** Each kept line is a line of the input, at an index no smaller than its
      own: the release keeps a subsequence. */
  lemma {:induction false} KeptIndices(lines: seq<string>, appname: string, version: string, port: string)
    returns (idx: seq<nat>)
    ensures |idx| == |Kept(lines, appname, version, port)|
    ensures forall k :: 0 <= k < |idx| ==> idx[k] < |lines| && Kept(lines, appname, version, port)[k] == lines[idx[k]]
    ensures forall k, m :: 0 <= k < m < |idx| ==> idx[k] < idx[m]
    decreases |lines|
  {
    if |lines| == 0 {
      idx := [];
    } else {
      var rest := KeptIndices(lines[1..], appname, version, port);
      var shifted := seq(|rest|, k requires 0 <= k < |rest| => rest[k] + 1);
      if Matches(lines[0], appname, version, port) {
        idx := shifted;
      } else {
        idx := [0] + shifted;
      }
    }
  }

  /** The release keeps the ledger's ports and keys unique and its lines
      well formed. */
  lemma {:induction false} KeptKeepsInvariants(lines: seq<string>, appname: string, version: string, port: string)
    ensures PortUnique(lines) ==> PortUnique(Kept(lines, appname, version, port))
    ensures KeyUnique(lines) ==> KeyUnique(Kept(lines, appname, version, port))
    ensures WellFormed(lines) ==> WellFormed(Kept(lines, appname, version, port))
    ensures Canonical(lines) ==> Canonical(Kept(lines, appname, version, port))
  {
    var kept := Kept(lines, appname, version, port);
    var idx := KeptIndices(lines, appname, version, port);
    assert forall k :: 0 <= k < |kept| ==> kept[k] == lines[idx[k]];
  }
}
