# dipinterface controller, modelled in Dafny

`app.py` is a small Flask controller that deploys web applications as
containers behind a reverse proxy. It keeps three stores consistent:

- the **port ledger** `conf/app_ports`, a text file with one
  `appname,version,port` line per reservation;
- the **proxy's dynamic upstream** `backends`, driven with admin requests
  (`add`, `remove`, `up`, `down` of a `host:port` server) and read back as a
  verbose text listing;
- the **container runtime**: images named by `appname:version` tags and the
  containers started from them.

This project models the controller's logic over abstract stand-ins for the
three stores and proves what each operation does to them.

| file | module | what it holds |
|---|---|---|
| `text.dfy` | `Text` | Python's `str.split(sep)` and `str.splitlines()`, `str(n)` for a natural number, and their round trips |
| `values.dfy` | `Values` | the errors the code can raise (`IndexError`, `TypeError`, and the runtime's failures), `Result`, `Option`, the port values Python passes around (`str`, `int`, `None`) |
| `ledger.dfy` | `Ledger` | the ledger scans `is_port_taken`, `get_app_for_port`, `get_port_for_stopped_app`, the allocator `get_available_port`, `reserve_app_port`, `release_app_port` |
| `proxy.dfy` | `Proxy` | the backend table and each request's effect on it, the listing text, the parsers `get_all_proxy_connections`, `does_connection_exists`, `is_connected`, and the requests `up`, `down`, `add` and `add_to_proxy` send |
| `docker.dfy` | `Docker` | images and containers, `is_running`, `terminate_container`, `run_container`, `build_docker_image`, forced image removal, `terminate_image` |
| `inventory.dfy` | `Inventory` | `get_all_apps`, the join of the three stores |
| `orchestration.dfy` | `Orchestration` | `activate`, `deploy_file` and `remove` as functions from the state of the stores to the reply and the new state, with their properties |
| `controller.dfy` | `Server` | class `Controller` whose fields are the three stores; its methods perform each operation step by step and are proved to end in the state the functions above describe |

Conventions of the model:

- The ledger is its file text; every scan reads it with `splitlines()`
  (`Text.SplitLines`, which knows all of Python's line-break characters and
  treats `\r\n` as one break). A reservation appends text; a release writes
  back the kept lines, each followed by `\n`.
- An index past the end of a `split` result is `Err(IndexError)`, raised at
  the point the code evaluates it: `a == parts[0] and b == parts[1]` reads
  `parts[1]` only when the first comparison held.
- `"127.0.0.1:" + port` with a port that is not a string is `Err(TypeError)`;
  `get_port_for_stopped_app` answers `Int(0)` on a miss, so `activate` of an
  unknown name raises there, after starting a container on port 0 if the
  image exists and no container of it is listed.
- Any step that raises ends the request with that error and keeps the effects
  of the steps before it (a container already started, a port already
  reserved, `down` requests already sent).
- The proxy is its backend table (`seq<Backend>`, each with a `down` flag) plus
  the log of requests sent to it. The controller only reads the listing, so
  the table's response to each request is an assumption of the model, stated
  in `Proxy.Apply`: `add` appends an unknown server, enabled; `remove` drops
  it; `up`/`down` clear/set the flag of its entries. The listing prints one
  `server 127.0.0.1:<port> weight=1 max_fails=1 fail_timeout=10[ down];` line
  per entry, then a final newline.
- Containers keep the image reference they were started from, the published
  host port and whether they still run; listing with `all=True` includes
  stopped containers.
- The runtime lists containers and images newest first, so a container just
  started and an image just built go to the front of their lists
  (`Docker.AfterRun`, `Docker.Build`); the scans of `is_running`,
  `terminate_container`, `terminate_image` and `get_all_apps` meet them
  first.

## Model

| member | source | states |
|---|---|---|
| Text.JoinSplit | app.py:355 | `str.split(sep)`: no piece contains the separator and joining the pieces with it gives back the string |
| Text.SplitJoin | app.py:355 | splitting fields joined with a separator none of them contains gives back the fields |
| Text.SplitLinesJoin | app.py:350-361 | lines without breaks, each written with a trailing `\n`, read back with `splitlines()` as exactly those lines |
| Text.JoinSplitLines | app.py:350-361 | a file whose only breaks are `\n` and which ends in one is rewritten unchanged by reading its lines and writing each with `\n` |
| Text.SplitLinesAppend | app.py:344-345 | appending to a file that ends in a line break adds the appended text's lines after the existing lines |
| Text.SplitLinesNoBreaks | app.py:351 | no line that `splitlines()` returns contains a line break |
| Text.NatToString | app.py:345 | `str(n)` of a natural number is a non-empty string of digits |
| Text.DecimalValueOfNat | app.py:370 | `str(n)` reads back as `n`, so different ports have different texts |
| Ledger.RecordFields | app.py:343-346 | the line written for fields without commas splits back into exactly those three fields |
| Ledger.IsPortTaken | app.py:364-373 | the loop returns the first-match scan `PortTaken` of the ledger's lines for `str(port)` |
| Ledger.PortTakenMeaning | app.py:364-373 | the scan answers true exactly when some line's third field is the port; false means every line has three fields and none holds the port; a well-formed ledger never raises; the only error is `IndexError` |
| Ledger.AvailablePort | app.py:402-408 | the increment-then-check loop from 8300 returns the allocator `FreePort` |
| Ledger.FreePortMeaning | app.py:402-408 | the result is the least port of 8301..8500 that no line holds (every smaller one is held, and no line holds it); `None` means all 200 are held; an error is an `IndexError` on a ledger with a short line |
| Ledger.FreeFromMeaning | app.py:402-408 | the same for the search after the counter reached `p`: least free port of `p+1..8500`, or `None` when all are held |
| Ledger.PortForStoppedApp | app.py:389-399 | the loop returns the first-match lookup `PortOf` |
| Ledger.PortOfFirst | app.py:389-399 | on a well-formed ledger the lookup returns the port text of the first record of `(appname, version)` |
| Ledger.PortOfMeaning | app.py:389-399 | on a well-formed ledger the lookup never raises and answers `0` exactly when no record has the key; a text it answers is the port field of a record of the key; the only integer it answers is `0` |
| Ledger.AppForPort | app.py:376-386 | the loop returns the first-match lookup `OwnerOf` |
| Ledger.OwnerOfFirst | app.py:376-386 | on a well-formed ledger the owner is the name and version of the first record of the port |
| Ledger.OwnerOfMiss | app.py:376-386 | on a well-formed ledger without a record of the port the owner is `('', '')` |
| Ledger.OwnerOfTotal | app.py:376-386 | the owner lookup never raises on a well-formed ledger |
| Ledger.ReserveAppends | app.py:343-346 | on a file ending in a line break, reserving adds exactly the record as a new last line and leaves all earlier lines unchanged, and the file still ends in a line break |
| Ledger.ReserveThenLookup | app.py:343-399 | after reserving a fresh port for a key without a record, with comma-free fields, both lookups find the new record |
| Ledger.ReserveDuplicateShadowed | app.py:343-346 | there is no duplicate check: reserving a key that already has a record appends anyway, and the key lookup keeps answering the older record |
| Ledger.PortOfPrefix | app.py:389-399 | a lookup that hits at line `i` ignores every line after `i` |
| Ledger.ReserveKeepsPortsUnique | app.py:343-346 | reserving a port the scan found free keeps every port held by at most one line, and keeps the ledger canonical |
| Ledger.RecordNoBreaks | app.py:345 | a record of fields free of commas and line breaks with a numeral port contains no line break |
| Ledger.FreshRecord | app.py:343-399 | appending the record of a port no line holds keeps the ledger canonical with unique ports, makes the new key the port's owner and, unless the key already had a record, the port the key's |
| Ledger.ReserveFreePort | app.py:343-408 | the reservation `deploy_file` makes of the port the allocator found: one new last line, ledger still canonical with unique ports, port owned by the new key, and the key's port unless it already had a record |
| Ledger.ReleasedText | app.py:349-361 | the loop computes `Released`: the kept lines each followed by `\n`, or the `IndexError` of the filter |
| Ledger.ReleasedMeaning | app.py:349-361 | the release raises exactly when some line makes the filter condition index a missing field (never on a well-formed ledger, and only with `IndexError`); otherwise the file it writes reads back as the kept lines and ends in a line break |
| Ledger.KeptMembers | app.py:355-357 | a line survives exactly when it was in the ledger and does not match all three of name, version and port, so every matching line is dropped, not just the first |
| Ledger.KeptIndices | app.py:354-358 | the kept lines are a subsequence of the ledger, in their original order |
| Ledger.KeptNoMatch | app.py:349-361 | releasing a record that is not there keeps every line |
| Ledger.KeptIdempotent | app.py:349-361 | releasing twice is releasing once |
| Ledger.KeptConcat | app.py:354-358 | the filter works line by line: it distributes over concatenation |
| Ledger.KeptKeepsInvariants | app.py:349-361 | the release keeps unique ports, unique keys, well-formedness and canonical form |
| Proxy.ApplyAllConcat | app.py:176-195 | sending two runs of requests is sending their concatenation |
| Proxy.AllProxyConnections | app.py:152-173 | the loop returns the parse `Connections` of the listing split on `\n`, with owners from the ledger |
| Proxy.ConnectionsMeaning | app.py:152-173 | one connection per non-empty line, in order, with that line's port (after the `:` of the second space-separated field), connected unless the last field is `down;`, named by the ledger's owner of the port; no error when every non-empty line parses and the ledger is well formed |
| Proxy.DoesConnectionExist | app.py:137-148 | the loop returns the scan `ConnectionExists` |
| Proxy.ConnectionExistsMeaning | app.py:137-148 | true exactly when some non-empty line carries the port; false means every non-empty line parsed and none carries it; no error when every non-empty line parses |
| Proxy.IsConnected | app.py:129-134 | the loop returns the state of the first connection named `(appname, version)`, false when there is none |
| Proxy.ConnectedInFirst | app.py:129-134 | the answer is the state of the first connection with the name |
| Proxy.ConnectedInMiss | app.py:129-134 | with no connection of the name the answer is false |
| Proxy.LocalSplit | app.py:184 | `127.0.0.1:<port>` splits on `:` into the host and the port |
| Proxy.LocalAvoids | app.py:156-158 | a local server name contains no space or newline, so it stays one listing field |
| Proxy.ListingLineParses | app.py:156-163 | the listing line of a local backend parses back to its port and its state |
| Proxy.ListingSplits | app.py:153-154 | the listing of a table of local backends splits into one line per backend and a final empty line |
| Proxy.ConnectionsOfListing | app.py:152-173 | on the listing of a table of local backends and a well-formed ledger, the parse succeeds with one connection per backend, in order, with its port, its state and its owner |
| Proxy.ConnectionExistsOfListing | app.py:137-148 | on the listing of a table of local backends, `does_connection_exists(port)` answers whether `127.0.0.1:port` is registered |
| Proxy.UpRequestOfLocal | app.py:182-189 | `up` of a local server sends exactly one request: `up` when the server is registered, `add` when it is not |
| Proxy.UpConnects | app.py:182-189 | after `up` of a local server it is registered and every entry of it is enabled; other entries are kept; the table stays local |
| Proxy.AddThenDownDisconnected | app.py:263-265 | after `add_to_proxy`'s `add` then `down`, the server is registered and disabled; every other entry is kept |
| Proxy.DownsDisable | app.py:74-77 | a run of `down` requests disables exactly the entries of the servers it names and keeps the table's length and servers |
| Proxy.UpThenDowns | app.py:70-77 | `up` of the target followed by `down` of other servers leaves the target registered and enabled and every server sent `down` disabled |
| Proxy.RemoveDeregisters | app.py:198-206 | `remove` drops every entry of the server and keeps every other entry |
| Docker.TagMatchesSimple | app.py:291-299 | on references with one `:` and colon-free names, the field comparison is equality with `appname:version` |
| Docker.IsRunning | app.py:419-429 | the loop returns the first-match scan `Running` |
| Docker.ContainerFromMeaning | app.py:419-429 | the scan finds the first container started from the reference; a miss means none matched; an error is an `IndexError` at a reference without a version field |
| Docker.RunningMeaning | app.py:419-429 | with simple references, `is_running` holds exactly when some container, running or stopped, was started from `appname:version` |
| Docker.TerminateUndoesRun | app.py:268-304 | `terminate_container` right after `run_container` of the same reference removes exactly the container just started, whatever older containers of it exist |
| Docker.TerminateRemovesFirst | app.py:291-304 | `terminate_container` kills and removes only the first match, keeping every other container (later matches included) in order; a stopped first match makes the kill fail |
| Docker.ContainerFromFirst | app.py:291-304 | the scan from `i` stops at the first match |
| Docker.TerminateMiss | app.py:291-304 | with no match nothing changes |
| Docker.DropTagMembers | app.py:317 | untagging an image keeps exactly its other tags |
| Docker.UntagTags | app.py:284-317 | moving or removing a reference leaves no image with it, keeps every other reference, and never adds images |
| Docker.RemoveImageEffect | app.py:317 | a forced removal succeeds exactly when the reference exists, then removes exactly that reference |
| Docker.BuildEffect | app.py:284-288 | a successful build adds one image at the front of the list, the only one carrying the reference, and keeps every other reference |
| Docker.TagsMatchSimple | app.py:311-316 | on simple tags the inner loop finds a match exactly when the image carries `appname:version` |
| Docker.TerminateImageSkips | app.py:307-320 | images without a matching tag are passed over without change |
| Docker.TerminateImagePrefix | app.py:307-320 | the walk over the snapshot reaches the first matching image with the list unchanged |
| Docker.TerminateImageRemovesTag | app.py:307-320 | with unique simple references, `terminate_image` succeeds, leaves no image named `appname:version` and keeps every other reference |
| Inventory.GetAllApps | app.py:105-126 | the nested loops return `AllApps` of the images, containers, listing and ledger |
| Inventory.NamesConcat | app.py:118-123 | the names of concatenated entry lists are the concatenated names |
| Inventory.TagAppsAgree | app.py:111-123 | one tag contributes no entry when it is `ubuntu` and one entry otherwise, and that entry agrees with `is_running`, `is_connected` and the ledger port |
| Inventory.TagsAppsAgree | app.py:110-123 | the tags of one image contribute their non-`ubuntu` names in order, each agreeing with the three stores |
| Inventory.AllAppsAgree | app.py:105-126 | `get_all_apps` lists exactly the non-`ubuntu` tags of all images in order, never an `ubuntu` one, and every entry agrees with the containers, the proxy and the ledger |
| Inventory.RunningTotal | app.py:419-429 | `is_running` never raises when every container reference has a version field |
| Inventory.TagsAppsTotal | app.py:110-123 | one image's entries are built without error on versioned references, a parsable listing and a well-formed ledger |
| Inventory.AllAppsTotal | app.py:105-126 | `get_all_apps` raises nothing when every reference has a version, the listing parses and the ledger is well formed |
| Orchestration.SendAllConcat | app.py:70-77 | sending runs of requests one after the other is sending their concatenation |
| Orchestration.DownPlanMeaning | app.py:74-77 | the loop sends `down` to the port of every listed entry that is not the exact target, and to no other server |
| Orchestration.ActivationTrace | app.py:57-79 | a successful activation went through: the ledger port of the target (text), a container started only if `is_running` was false, the target's `up`, the listing, and the `down` of the others |
| Orchestration.ActivateEffect | app.py:57-79 | a successful activation keeps the ledger and the images, starts a container on the ledger port exactly when `is_running` was false, sends the target's `up` (or `add`) first and only `down` after it |
| Orchestration.ActivateKeeps | app.py:57-79 | whatever `activate` meets, it never changes the ledger or the images, at most adds one container of the target, in front of the list, and only appends to the request log: the target's `up` or `add` first, then `down` requests |
| Orchestration.DownsCoverOthers | app.py:72-77 | the `down` requests cover the ledger port of every listed name other than the target, and each one is such a port |
| Orchestration.ActivateDownsOthers | app.py:57-79 | `activate` sends `down` to the ledger port of every name `get_all_apps` lists except the exact target (other application names included) and sends no other `down` |
| Orchestration.DistinctKeysDistinctPorts | app.py:389-399 | with unique ledger ports, two different names never have the same port |
| Orchestration.DownsAvoidTarget | app.py:74-77 | with unique ledger ports, no `down` of the loop names the target's own server |
| Orchestration.ActivateExclusive | app.py:57-79 | after a successful activation on a canonical ledger with unique ports, the target is registered and enabled and every other listed name's backends are disabled |
| Orchestration.InstallEffect | app.py:255-259 | after the reservation, a successful build lets the container start on the reserved port, then `add` and `down` are sent; the ledger is not touched again |
| Orchestration.DeployEffect | app.py:233-260 | with a free port `p` and a successful build: the ledger gains exactly the line `name,version,p` and stays canonical with unique ports, `p` is owned by the new app, the new image carries the tag, one container runs on `p`, and `127.0.0.1:p` is registered but disabled, other backends kept |
| Orchestration.DeployWhenExhausted | app.py:233-260 | when every pool port is held, `deploy_file` still answers success: it reserves the text `None`, publishes the container on `None` and registers `127.0.0.1:None` |
| Orchestration.DeployBuildFailureKeepsReservation | app.py:251-255 | a failed build raises after the port was reserved; the reservation stays and nothing else changed |
| Orchestration.RemoveForgets | app.py:198-206 | removing `127.0.0.1:p` deregisters the server, leaves no image named `appname:version` while keeping every other reference, drops exactly the ledger records `appname,version,p` (the rest in order, ports still unique) and removes at most one container |
| Server.SendDown | app.py:74-77 | one more `down` extends the run of `down` requests already sent |
| Server.DownPlanStep | app.py:74-77 | the loop's plan from entry `k` on, in terms of entry `k` |
| Server.Controller.constructor | app.py:9 | the controller process starts on the given ledger text, proxy table, request log, images and containers: its state is exactly that world |
| Server.Controller.ReservePort | app.py:343-346 | the ledger becomes `Reserve` of the old ledger: one record appended |
| Server.Controller.ReleasePort | app.py:349-361 | the ledger becomes the released text, or stays when the filter raises |
| Server.Controller.Send | app.py:176-195 | one request: the table takes its effect, the log records it |
| Server.Controller.Down | app.py:176-179 | sends exactly `down` of the server |
| Server.Controller.Add | app.py:192-195 | sends exactly `add` of the server |
| Server.Controller.Up | app.py:182-189 | sends exactly the request `UpRequest` chooses (`up` or `add`), or nothing when the server has no `:` or the listing does not parse |
| Server.Controller.AddToProxy | app.py:263-265 | sends `add` then `down` of `127.0.0.1:<str(port)>` |
| Server.Controller.RunContainer | app.py:268-271 | puts a running container of `appname:version` on the port at the front of the container list, or raises when the image is missing |
| Server.Controller.BuildImage | app.py:284-288 | the images become `Build`'s result, or stay when the build fails |
| Server.Controller.RemoveImageTag | app.py:317 | the images become the forced removal's result, or stay when the reference is missing |
| Server.Controller.TerminateContainer | app.py:291-304 | the loop leaves the containers as `AfterTerminate` says, with its error |
| Server.Controller.TerminateImage | app.py:307-320 | the loops over the snapshot leave the images as `AfterTerminateImage` says, partial removals kept on error |
| Server.Controller.Start | app.py:67-72 | the first half of `activate` ends as `StartTarget` says |
| Server.Controller.DownAll | app.py:74-77 | the loop sends the `down` requests `DownPlan` lists and reports whether it stopped at a non-text port |
| Server.Controller.DisconnectOthers | app.py:72-79 | the second half of `activate` ends as `DownOthers` says |
| Server.Controller.Activate | app.py:57-79 | reply and new state are `Activation` of the old state, whose properties are the `Activate*` lemmas |
| Server.Controller.Deploy | app.py:233-260 | reply and new state are `Deployment` of the old state, whose properties are the `Deploy*` lemmas |
| Server.Controller.Remove | app.py:198-206 | reply and new state are `Removal` of the old state, whose properties are in `RemoveForgets` |

## Left out

- HTTP routing, the UI pages and redirects (app.py:12-54), and the `backends`
  and status endpoints (app.py:82-101): plumbing, and the status probe is
  network I/O with a timeout. The replies of `up`, `down`, `add` and `remove`
  (the proxy's response text) are not modelled; `Remove` replies `Ok(())`.
- The upload (`request.files`, `secure_filename`, `file.save`), workspace
  creation, asset copy and cleanup, and the Dockerfile template
  (app.py:243-249, 257, 274-281, 323-340, 412-416): filesystem I/O. Whether
  the image build succeeds is an input of `Deploy`.
- The `stop`, `start` and `test` endpoints (app.py:209-230): debug routes built
  from `terminate_container`, `is_running`, the ledger lookup and
  `run_container`, which are modelled.
- Docker's own behaviour beyond the effects stated in `Docker`: registry
  pulls, port-binding conflicts (two containers may publish the same host
  port in the model), the container's command, and `rm=True` intermediate
  containers. A failed kill is the only runtime failure of
  `terminate_container`; `remove()` after a successful kill always succeeds.
- The proxy's behaviour is an assumption (see `Proxy.Apply`); the HTTP
  transport to port 10000 is replaced by the table and the request log.
- Query arguments that are absent: the model takes strings, with `""` for
  `activate`'s and `deploy_file`'s empty or missing arguments; `remove` with
  an absent `appname` or `version` (Python `None`) is not modelled.
- Concurrency: each request runs atomically; the unsynchronised
  read-modify-write of the ledger file by concurrent requests is not modelled.
- File I/O failures (missing ledger file, permissions) are not modelled.
- `Ledger.FreePortMeaning`: the allocator's counter is incremented before
  each check, so 8300 is never tried and 8500 is: the pool is 8301..8500
  inclusive, 200 ports (app.py:402-408).
- `Docker.RunningMeaning`: `is_running` is true for a stopped container too,
  because it lists containers with `all=True`; the model keeps that, so
  `activate` does not restart a stopped target (a later `terminate_container`
  of it then fails on the kill).
- `Orchestration.DeployWhenExhausted`: with no free port the code goes on and
  deploys with the port `None`; the model keeps that behaviour rather than
  correcting it.
- `Orchestration.ActivateExclusive`: stated for a ledger of canonical records
  with unique ports and a table whose servers are all `127.0.0.1:<port>`; on
  other stores (two names sharing a port) `activate` can take its own target
  down again, which `ActivateDownsOthers` still describes exactly.
