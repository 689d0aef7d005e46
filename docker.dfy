/** The container runtime as the controller sees it: the images, each with its
    `name:version` tags, and the containers, each remembering the image
    reference it was started from (`Config.Image`), the host port bound to the
    container's port 8080, and whether it still runs. Listing with `all=True`
    returns stopped containers as well, so a container stays in the list until
    it is removed. */
module Docker {
  import opened Text
  import opened Values

  datatype Image = Image(tags: seq<string>)

  datatype Container = Container(image: string, hostPort: PortValue, live: bool)

  /** The image reference `appname:version`. */
  function Tag(appname: string, version: string): string
  {
    appname + ":" + version
  }

  /** `appname == parts[0] and version == parts[1]` over `tag.split(':')`:
      the second field is read only when the first matched. */
  function TagMatches(tag: string, appname: string, version: string): Result<bool>
  {
    var parts := Split(tag, ':');
    if appname != parts[0] then Ok(false)
    else if |parts| < 2 then Err(IndexError)
    else Ok(version == parts[1])
  }

  /** A reference with exactly one `:`, as every reference the controller
      creates. */
  predicate SimpleTag(tag: string)
  {
    |Split(tag, ':')| == 2
  }

  predicate NoColon(s: string)
  {
    ':' !in s
  }

  /** On simple references and colon-free names the field comparison is
      plain equality with `appname:version`. */
  lemma {:induction false} TagMatchesSimple(tag: string, appname: string, version: string)
    requires SimpleTag(tag) && NoColon(appname) && NoColon(version)
    ensures TagMatches(tag, appname, version) == Ok(tag == Tag(appname, version))
  {
    var parts := Split(tag, ':');
    JoinSplit(tag, ':');
    assert Join(parts, ':') == parts[0] + [':'] + parts[1] by {
      assert parts[1..] == [parts[1]];
    }
    assert Tag(appname, version) == Join([appname, version], ':') by {
      assert [appname, version][1..] == [version];
    }
    SplitJoin([appname, version], ':');
  }

  // ---------------------------------------------------------------------------
  // Containers
  // ---------------------------------------------------------------------------

  /** The index of the first container from `i` on started from
      `appname:version`, scanning in list order. */
  function ContainerFrom(containers: seq<Container>, appname: string, version: string, i: nat): Result<Option<nat>>
    requires i <= |containers|
    decreases |containers| - i
  {
    if i == |containers| then Ok(None)
    else
      match TagMatches(containers[i].image, appname, version)
      case Err(e) => Err(e)
      case Ok(hit) => if hit then Ok(Some(i)) else ContainerFrom(containers, appname, version, i + 1)
  }

  /** What `is_running(appname, version)` answers. */
  function Running(containers: seq<Container>, appname: string, version: string): Result<bool>
  {
    match ContainerFrom(containers, appname, version, 0)
    case Err(e) => Err(e)
    case Ok(found) => Ok(found.Some?)
  }

  /** `is_running(appname, version)` over the `all=True` container list. */
  method IsRunning(containers: seq<Container>, appname: string, version: string) returns (r: Result<bool>)
    ensures r == Running(containers, appname, version)
  {
    var i := 0;
    while i < |containers|
      invariant 0 <= i <= |containers|
      invariant ContainerFrom(containers, appname, version, 0) == ContainerFrom(containers, appname, version, i)
    {
      var tagParts := Split(containers[i].image, ':');
      if appname == tagParts[0] {
        if |tagParts| < 2 {
          return Err(IndexError);
        }
        if version == tagParts[1] {
          return Ok(true);
        }
      }
      i := i + 1;
    }
    return Ok(false);
  }

  /** The scan reports the first matching container, and an error only at a
      container whose reference lacks the version field. */
  lemma {:induction false} ContainerFromMeaning(containers: seq<Container>, appname: string, version: string, i: nat)
    requires i <= |containers|
    ensures var r := ContainerFrom(containers, appname, version, i);
      && (r.Ok? && r.value.Some? ==>
            && i <= r.value.value < |containers|
            && TagMatches(containers[r.value.value].image, appname, version) == Ok(true)
            && forall j :: i <= j < r.value.value ==> TagMatches(containers[j].image, appname, version) == Ok(false))
      && (r == Ok(None) ==>
            forall j :: i <= j < |containers| ==> TagMatches(containers[j].image, appname, version) == Ok(false))
      && (r.Err? ==>
            && r.error == IndexError
            && exists j :: i <= j < |containers| && TagMatches(containers[j].image, appname, version).Err?)
    decreases |containers| - i
  {
    if i < |containers| {
      ContainerFromMeaning(containers, appname, version, i + 1);
    }
  }

  /** With simple references, `is_running` holds exactly when some container
      was started from `appname:version`, running or stopped. */
  lemma {:induction false} RunningMeaning(containers: seq<Container>, appname: string, version: string)
    requires forall j :: 0 <= j < |containers| ==> SimpleTag(containers[j].image)
    requires NoColon(appname) && NoColon(version)
    ensures Running(containers, appname, version)
            == Ok(exists j :: 0 <= j < |containers| && containers[j].image == Tag(appname, version))
  {
    ContainerFromMeaning(containers, appname, version, 0);
    forall j | 0 <= j < |containers|
      ensures TagMatches(containers[j].image, appname, version) == Ok(containers[j].image == Tag(appname, version))
    {
      TagMatchesSimple(containers[j].image, appname, version);
    }
  }

  /** The container list after `terminate_container(appname, version)`: the
      first container started from the reference is killed and removed; killing
      a stopped one fails and changes nothing. */
  function AfterTerminate(containers: seq<Container>, appname: string, version: string): Result<seq<Container>>
  {
    match ContainerFrom(containers, appname, version, 0)
    case Err(e) => Err(e)
    case Ok(found) =>
      if found.None? then Ok(containers)
      else if found.value < |containers| && containers[found.value].live then
        Ok(containers[..found.value] + containers[found.value + 1..])
      else Err(ContainerNotRunning)
  }

  /** `terminate_container` kills and removes the first container started
      from the reference, keeping every other container (later matches
      included) in order; when that first match has stopped, the kill fails. */
  lemma {:induction false} TerminateRemovesFirst(containers: seq<Container>, appname: string, version: string, k: nat)
    requires k < |containers| && TagMatches(containers[k].image, appname, version) == Ok(true)
    requires forall j :: 0 <= j < k ==> TagMatches(containers[j].image, appname, version) == Ok(false)
    ensures AfterTerminate(containers, appname, version)
            == if containers[k].live then Ok(containers[..k] + containers[k + 1..]) else Err(ContainerNotRunning)
  {
    ContainerFromFirst(containers, appname, version, 0, k);
  }

  lemma {:induction false} ContainerFromFirst(containers: seq<Container>, appname: string, version: string, i: nat, k: nat)
    requires i <= k < |containers| && TagMatches(containers[k].image, appname, version) == Ok(true)
    requires forall j :: i <= j < k ==> TagMatches(containers[j].image, appname, version) == Ok(false)
    ensures ContainerFrom(containers, appname, version, i) == Ok(Some(k))
    decreases k - i
  {
    if i < k {
      ContainerFromFirst(containers, appname, version, i + 1, k);
    }
  }

  /** With no container started from the reference, `terminate_container`
      changes nothing. */
  lemma {:induction false} TerminateMiss(containers: seq<Container>, appname: string, version: string)
    requires forall j :: 0 <= j < |containers| ==> TagMatches(containers[j].image, appname, version) == Ok(false)
    ensures AfterTerminate(containers, appname, version) == Ok(containers)
  {
    ContainerFromMeaning(containers, appname, version, 0);
  }

  /** The container list after starting `appname:version` with its host port:
      the image must exist. The runtime lists the newest container first. */
  function AfterRun(images: seq<Image>, containers: seq<Container>, appname: string, version: string, port: PortValue): Result<seq<Container>>
  {
    if HasTag(images, Tag(appname, version)) then Ok([Container(Tag(appname, version), port, true)] + containers)
    else Err(ImageNotFound)
  }

  /** Starting a container and then terminating the same reference removes
      exactly the container just started: it is listed first and running,
      whatever older (possibly stopped) containers of it exist. */
  lemma {:induction false} TerminateUndoesRun(images: seq<Image>, containers: seq<Container>, appname: string, version: string, port: PortValue)
    requires NoColon(appname) && NoColon(version)
    requires AfterRun(images, containers, appname, version, port).Ok?
    ensures AfterTerminate(AfterRun(images, containers, appname, version, port).value, appname, version) == Ok(containers)
  {
    var after := [Container(Tag(appname, version), port, true)] + containers;
    assert Tag(appname, version) == Join([appname, version], ':') by {
      assert [appname, version][1..] == [version];
    }
    SplitJoin([appname, version], ':');
    assert AfterRun(images, containers, appname, version, port).value == after;
    TerminateRemovesFirst(after, appname, version, 0);
    assert after[..0] + after[1..] == containers;
  }

  // ---------------------------------------------------------------------------
  // Images
  // ---------------------------------------------------------------------------

  predicate HasTag(images: seq<Image>, tag: string)
  {
    exists i :: 0 <= i < |images| && tag in images[i].tags
  }

  /** The runtime's invariant: a reference names at most one image. */
  predicate TagsUnique(images: seq<Image>)
  {
    forall i, j, t :: 0 <= i < |images| && 0 <= j < |images| && t in images[i].tags && t in images[j].tags ==> i == j
  }

  predicate SimpleTags(images: seq<Image>)
  {
    forall i, t :: 0 <= i < |images| && t in images[i].tags ==> SimpleTag(t)
  }

  function DropTag(tags: seq<string>, tag: string): seq<string>
  {
    if |tags| == 0 then []
    else if tags[0] == tag then DropTag(tags[1..], tag)
    else [tags[0]] + DropTag(tags[1..], tag)
  }

  /** Removes `tag` from every image carrying it; with `dropEmpty` an image
      left without tags disappears (a forced `rmi`), otherwise it stays as a
      dangling image (a rebuild moving the tag away). */
  function Untag(images: seq<Image>, tag: string, dropEmpty: bool): seq<Image>
  {
    if |images| == 0 then []
    else
      var rest := Untag(images[1..], tag, dropEmpty);
      if tag in images[0].tags then
        var left := DropTag(images[0].tags, tag);
        if dropEmpty && |left| == 0 then rest else [Image(left)] + rest
      else [images[0]] + rest
  }

  /** `client.images.remove(image=tag, force=True)`. */
  function RemoveImage(images: seq<Image>, tag: string): Result<seq<Image>>
  {
    if HasTag(images, tag) then Ok(Untag(images, tag, true)) else Err(ImageNotFound)
  }

  /** `client.images.build(..., tag=appname:version)`: the new image takes the
      reference from any image that had it and is listed first, newest first
      as the runtime lists images. The build's own success is an input. */
  function Build(images: seq<Image>, appname: string, version: string, succeeds: bool): Result<seq<Image>>
  {
    if succeeds then Ok([Image([Tag(appname, version)])] + Untag(images, Tag(appname, version), false))
    else Err(BuildFailed)
  }

  lemma {:induction false} DropTagMembers(tags: seq<string>, tag: string, t: string)
    ensures t in DropTag(tags, tag) <==> t in tags && t != tag
    decreases |tags|
  {
    if |tags| > 0 {
      DropTagMembers(tags[1..], tag, t);
      assert tags == [tags[0]] + tags[1..];
    }
  }

  lemma {:induction false} HasTagCons(image: Image, rest: seq<Image>, t: string)
    ensures HasTag([image] + rest, t) <==> t in image.tags || HasTag(rest, t)
  {
    var all := [image] + rest;
    if HasTag(all, t) {
      var i :| 0 <= i < |all| && t in all[i].tags;
      if i > 0 { assert rest[i - 1] == all[i]; }
    }
    if HasTag(rest, t) {
      var i :| 0 <= i < |rest| && t in rest[i].tags;
      assert all[i + 1] == rest[i];
    }
    if t in image.tags { assert all[0] == image; }
  }

  /** After untagging, no image has the tag and every other tag is still
      carried by some image exactly when it was before. */
  lemma {:induction false} UntagTags(images: seq<Image>, tag: string, dropEmpty: bool, t: string)
    ensures !HasTag(Untag(images, tag, dropEmpty), tag)
    ensures t != tag ==> (HasTag(Untag(images, tag, dropEmpty), t) <==> HasTag(images, t))
    ensures |Untag(images, tag, dropEmpty)| <= |images|
    ensures !dropEmpty ==> |Untag(images, tag, dropEmpty)| == |images|
    decreases |images|
  {
    if |images| > 0 {
      var rest := Untag(images[1..], tag, dropEmpty);
      UntagTags(images[1..], tag, dropEmpty, t);
      assert images == [images[0]] + images[1..];
      HasTagCons(images[0], images[1..], t);
      DropTagMembers(images[0].tags, tag, t);
      DropTagMembers(images[0].tags, tag, tag);
      var left := DropTag(images[0].tags, tag);
      HasTagCons(Image(left), rest, t);
      HasTagCons(Image(left), rest, tag);
      HasTagCons(images[0], rest, t);
      HasTagCons(images[0], rest, tag);
    }
  }

  /** A forced removal of an existing tag succeeds and removes exactly that tag. */
  lemma {:induction false} RemoveImageEffect(images: seq<Image>, tag: string)
    ensures RemoveImage(images, tag).Ok? <==> HasTag(images, tag)
    ensures RemoveImage(images, tag).Ok? ==>
      && !HasTag(RemoveImage(images, tag).value, tag)
      && forall t :: t != tag ==> (HasTag(RemoveImage(images, tag).value, t) <==> HasTag(images, t))
  {
    UntagTags(images, tag, true, tag);
    forall t | t != tag
      ensures HasTag(Untag(images, tag, true), t) <==> HasTag(images, t)
    {
      UntagTags(images, tag, true, t);
    }
  }

  /** After a successful build the new image is the first one and the only one
      with the reference; every other reference is kept. */
  lemma {:induction false} BuildEffect(images: seq<Image>, appname: string, version: string)
    ensures var after := Build(images, appname, version, true).value;
      && |after| == |images| + 1
      && after[0] == Image([Tag(appname, version)])
      && (forall i :: 0 < i < |after| ==> Tag(appname, version) !in after[i].tags)
      && forall t :: t != Tag(appname, version) ==> (HasTag(after, t) <==> HasTag(images, t))
  {
    var tag := Tag(appname, version);
    var untagged := Untag(images, tag, false);
    UntagTags(images, tag, false, tag);
    var after := [Image([tag])] + untagged;
    forall t | t != tag ensures HasTag(after, t) <==> HasTag(images, t) {
      UntagTags(images, tag, false, t);
      HasTagCons(Image([tag]), untagged, t);
    }
    forall i | 0 < i < |after| ensures tag !in after[i].tags {
      assert after[i] == untagged[i - 1];
    }
  }

  // ---------------------------------------------------------------------------
  // terminate_image
  // ---------------------------------------------------------------------------

  /** The inner `for tag in tags` with its `break`: whether some tag of one
      image matches, the first error stopping the scan. */
  function TagsMatch(tags: seq<string>, appname: string, version: string): Result<bool>
  {
    if |tags| == 0 then Ok(false)
    else
      match TagMatches(tags[0], appname, version)
      case Err(e) => Err(e)
      case Ok(hit) => if hit then Ok(true) else TagsMatch(tags[1..], appname, version)
  }

  /** `terminate_image(appname, version)`: the loop walks the image list
      taken before any removal (`snapshot`); each image with a matching tag
      triggers a forced removal of `appname:version` from the current list
      (`live`). The result pairs the outcome with the image list at that
      point: removals made before an error stay made. */
  function TerminateImageFrom(snapshot: seq<Image>, live: seq<Image>, appname: string, version: string, i: nat): (Result<()>, seq<Image>)
    requires i <= |snapshot|
    decreases |snapshot| - i
  {
    if i == |snapshot| then (Ok(()), live)
    else
      match TagsMatch(snapshot[i].tags, appname, version)
      case Err(e) => (Err(e), live)
      case Ok(hit) =>
        if !hit then TerminateImageFrom(snapshot, live, appname, version, i + 1)
        else
          match RemoveImage(live, Tag(appname, version))
          case Err(e) => (Err(e), live)
          case Ok(rest) => TerminateImageFrom(snapshot, rest, appname, version, i + 1)
  }

  function AfterTerminateImage(images: seq<Image>, appname: string, version: string): (Result<()>, seq<Image>)
  {
    TerminateImageFrom(images, images, appname, version, 0)
  }

  lemma {:induction false} TagsMatchSimple(tags: seq<string>, appname: string, version: string)
    requires forall t :: t in tags ==> SimpleTag(t)
    requires NoColon(appname) && NoColon(version)
    ensures TagsMatch(tags, appname, version) == Ok(Tag(appname, version) in tags)
    decreases |tags|
  {
    if |tags| > 0 {
      TagMatchesSimple(tags[0], appname, version);
      TagsMatchSimple(tags[1..], appname, version);
      assert tags == [tags[0]] + tags[1..];
    }
  }

  lemma {:induction false} TerminateImageSkips(snapshot: seq<Image>, live: seq<Image>, appname: string, version: string, i: nat)
    requires i <= |snapshot|
    requires forall j :: i <= j < |snapshot| ==> TagsMatch(snapshot[j].tags, appname, version) == Ok(false)
    ensures TerminateImageFrom(snapshot, live, appname, version, i) == (Ok(()), live)
    decreases |snapshot| - i
  {
    if i < |snapshot| {
      TerminateImageSkips(snapshot, live, appname, version, i + 1);
    }
  }

  /** With unique simple references and colon-free names, `terminate_image`
      succeeds, leaves no image named `appname:version` and keeps every other
      reference. */
  lemma {:induction false} TerminateImageRemovesTag(images: seq<Image>, appname: string, version: string)
    requires TagsUnique(images) && SimpleTags(images)
    requires NoColon(appname) && NoColon(version)
    ensures AfterTerminateImage(images, appname, version).0 == Ok(())
    ensures var after := AfterTerminateImage(images, appname, version).1;
      && !HasTag(after, Tag(appname, version))
      && forall t :: t != Tag(appname, version) ==> (HasTag(after, t) <==> HasTag(images, t))
  {
    var tag := Tag(appname, version);
    forall j | 0 <= j < |images| ensures TagsMatch(images[j].tags, appname, version) == Ok(tag in images[j].tags) {
      TagsMatchSimple(images[j].tags, appname, version);
    }
    if HasTag(images, tag) {
      var k :| 0 <= k < |images| && tag in images[k].tags;
      var rest := Untag(images, tag, true);
      RemoveImageEffect(images, tag);
      TerminateImageSkips(images, rest, appname, version, k + 1);
      TerminateImagePrefix(images, appname, version, k);
    } else {
      TerminateImageSkips(images, images, appname, version, 0);
    }
  }

  lemma {:induction false} TerminateImagePrefix(images: seq<Image>, appname: string, version: string, k: nat)
    requires k <= |images|
    requires forall j :: 0 <= j < k ==> TagsMatch(images[j].tags, appname, version) == Ok(false)
    ensures TerminateImageFrom(images, images, appname, version, 0) == TerminateImageFrom(images, images, appname, version, k)
    decreases k
  {
    if k > 0 {
      TerminateImagePrefix(images, appname, version, k - 1);
    }
  }
}
