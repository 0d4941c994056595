/** The shared-volume allocator of orchestra/fly/volume.go: all logical volumes of a driver
    live on one physical volume that only ever grows. Each call of the Fly API is a
    parameter: its reply, None when the call fails. */
module FlyVolumes {
  import opened Runs
  import opened Sanitize

  class Volume {
    const id: string
    const name: string
    const userFacingName: string
    const path: string

    constructor (id: string, name: string, userFacingName: string)
      ensures this.id == id && this.name == name && this.userFacingName == userFacingName
      ensures path == "/workspace/" + userFacingName
    {
      this.id, this.name, this.userFacingName := id, name, userFacingName;
      path := "/workspace/" + userFacingName;
    }
  }

  /** The size the first volume is created with, in GB. */
  function EffectiveSize(size: int, diskGB: int): int {
    if size > 0 then size else if diskGB > 0 then diskGB else 10
  }

  /** The largest of the first effective size and every later positive size. */
  function LargestSize(sizes: seq<int>, diskGB: int): int
    requires sizes != []
  {
    if |sizes| == 1 then EffectiveSize(sizes[0], diskGB)
    else
      var before, last := LargestSize(sizes[..|sizes| - 1], diskGB), sizes[|sizes| - 1];
      if last > before then last else before
  }

  /** One of the requests asked for it, and none for more. */
  lemma {:induction false} LargestIsLargest(sizes: seq<int>, diskGB: int)
    requires sizes != []
    ensures var largest := LargestSize(sizes, diskGB);
            && largest > 0
            && EffectiveSize(sizes[0], diskGB) <= largest
            && (forall k :: 0 <= k < |sizes| ==> sizes[k] <= largest)
            && (largest == EffectiveSize(sizes[0], diskGB) || exists k :: 0 < k < |sizes| && sizes[k] == largest)
    decreases |sizes|
  {
    if |sizes| > 1 {
      var before := sizes[..|sizes| - 1];
      LargestIsLargest(before, diskGB);
      assert forall k :: 0 <= k < |before| ==> before[k] == sizes[k];
    }
  }

  class Fly {
    const namespace: string
    const diskGB: int
    const lower: char -> char
    var volumeIDs: seq<string>
    var sharedVolumeID: string
    var sharedVolumeSize: int
    var volumes: map<string, Volume>
    /** The sizes of the successful requests for new names, in order. */
    ghost var requested: seq<int>

    ghost predicate Valid()
      reads this
    {
      && (sharedVolumeID == "" <==> requested == [])
      && volumeIDs == (if sharedVolumeID == "" then [] else [sharedVolumeID])
      && (requested == [] ==> volumes == map[])
      && (requested != [] ==> sharedVolumeSize == LargestSize(requested, diskGB))
      && (forall n :: n in volumes ==> Logical(volumes[n], n))
    }

    ghost predicate Logical(v: Volume, n: string)
      reads this
    {
      && v.id == sharedVolumeID && v.userFacingName == n && v.path == "/workspace/" + n
      && v.name == InternalName(n)
    }

    function InternalName(n: string): string {
      Sanitized(namespace + "_" + n, VOLUME_SEPARATOR, VOLUME_LIMIT, lower)
    }

    constructor (namespace: string, diskGB: int, lower: char -> char)
      ensures Valid() && requested == [] && volumes == map[]
      ensures this.namespace == namespace && this.diskGB == diskGB && this.lower == lower
    {
      this.namespace, this.diskGB, this.lower := namespace, diskGB, lower;
      volumeIDs, sharedVolumeID, sharedVolumeSize, volumes := [], "", 0, map[];
      requested := [];
    }

    method CreateSharedVolume(size: int, reply: Option<string>) returns (id: Option<string>)
      modifies this`volumeIDs, this`sharedVolumeID, this`sharedVolumeSize
      ensures id == reply
      ensures reply.None? ==> unchanged(this)
      ensures reply.Some? ==>
                && volumeIDs == old(volumeIDs) + [reply.value]
                && sharedVolumeID == reply.value && sharedVolumeSize == EffectiveSize(size, diskGB)
                && (size > 0 ==> sharedVolumeSize == size)
                && (size <= 0 && diskGB > 0 ==> sharedVolumeSize == diskGB)
                && (size <= 0 && diskGB <= 0 ==> sharedVolumeSize == 10)
    {
      var effective := size;
      if effective <= 0 {
        effective := diskGB;
      }
      if effective <= 0 {
        effective := 10;
      }
      if reply.None? {
        return None;
      }
      volumeIDs := volumeIDs + [reply.value];
      sharedVolumeID := reply.value;
      sharedVolumeSize := effective;
      id := reply;
    }

    method ExtendSharedVolumeIfNeeded(size: int, reply: Option<string>) returns (ok: bool)
      modifies this`sharedVolumeSize
      ensures ok <==> size <= 0 || size <= old(sharedVolumeSize) || reply.Some?
      ensures sharedVolumeSize == if ok && size > 0 && size > old(sharedVolumeSize) then size else old(sharedVolumeSize)
    {
      if size <= 0 {
        return true;
      }
      if size < sharedVolumeSize || size == sharedVolumeSize {
        return true;
      }
      if reply.None? {
        return false;
      }
      sharedVolumeSize := size;
      ok := true;
    }

    /** The first request creates the physical volume, later ones extend it. */
    method Provision(size: int, reply: Option<string>) returns (id: Option<string>)
      requires Valid() && (reply.Some? ==> reply.value != "")
      modifies this`volumeIDs, this`sharedVolumeID, this`sharedVolumeSize, this`requested
      ensures id.None? <==> reply.None? && (old(sharedVolumeID) == "" || size > old(sharedVolumeSize))
      ensures id.None? ==> unchanged(this)
      ensures id.Some? ==>
                && id.value == sharedVolumeID != "" && volumeIDs == [sharedVolumeID]
                && requested == old(requested) + [size] && sharedVolumeSize == LargestSize(requested, diskGB)
      ensures id.Some? && old(sharedVolumeID) == "" ==> id == reply
      ensures old(sharedVolumeID) != "" ==>
                sharedVolumeID == old(sharedVolumeID) && volumeIDs == old(volumeIDs) && sharedVolumeSize >= old(sharedVolumeSize)
    {
      if requested != [] {
        LargestIsLargest(requested, diskGB);
      }
      assert (requested + [size])[..|requested|] == requested;
      if sharedVolumeID == "" {
        id := CreateSharedVolume(size, reply);
        if id.None? {
          return;
        }
      } else {
        var ok := ExtendSharedVolumeIfNeeded(size, reply);
        if !ok {
          return None;
        }
        id := Some(sharedVolumeID);
      }
      requested := requested + [size];
    }

    /** The Fly API never names a volume by the empty string. A failed call changes
        nothing; a known name gives the same object back, whatever size is asked. */
    method CreateVolume(name: string, size: int, reply: Option<string>) returns (v: Option<Volume>)
      requires Valid() && (reply.Some? ==> reply.value != "")
      modifies this
      ensures Valid()
      ensures v.None? <==> name !in old(volumes) && reply.None? && (old(sharedVolumeID) == "" || size > old(sharedVolumeSize))
      ensures v.None? || name in old(volumes) ==> unchanged(this)
      ensures name in old(volumes) ==> v == Some(old(volumes[name]))
      ensures v.Some? && name !in old(volumes) ==>
                && fresh(v.value) && volumes == old(volumes)[name := v.value]
                && requested == old(requested) + [size]
      ensures v.Some? ==> name in volumes && volumes[name] == v.value && v.value.id == sharedVolumeID
      ensures v.Some? && old(sharedVolumeID) == "" ==>
                reply == Some(sharedVolumeID) && sharedVolumeSize == (if size > 0 then size else if diskGB > 0 then diskGB else 10)
      ensures v.Some? ==>
                && v.value.userFacingName == name && v.value.path == "/workspace/" + name
                && v.value.name == Sanitized(namespace + "_" + name, '_', 30, lower)
      ensures old(sharedVolumeID) != "" ==>
                sharedVolumeID == old(sharedVolumeID) && volumeIDs == old(volumeIDs) && sharedVolumeSize >= old(sharedVolumeSize)
    {
      if name in volumes {
        return Some(volumes[name]);
      }
      var sharedID := Provision(size, reply);
      if sharedID.None? {
        return None;
      }
      var internalName := SanitizeVolumeName(namespace + "_" + name, lower);
      var created := new Volume(sharedID.value, internalName, name);
      volumes := volumes[name := created];
      v := Some(created);
    }
  }

  datatype Request = Request(name: string, size: int, reply: Option<string>)

  predicate Known(openers: seq<Request>, name: string) { exists r :: r in openers && r.name == name }

  function Sizes(requests: seq<Request>): seq<int> {
    seq(|requests|, i requires 0 <= i < |requests| => requests[i].size)
  }

  /** A request for a new name fails only when the Fly API has to be called and does not reply. */
  predicate Granted(openers: seq<Request>, r: Request, diskGB: int) {
    Known(openers, r.name) || r.reply.Some? || (openers != [] && r.size <= LargestSize(Sizes(openers), diskGB))
  }

  /** The requests of a series that open a volume: the first granted one for each name. */
  function Opening(requests: seq<Request>, diskGB: int): seq<Request> {
    if requests == [] then []
    else Joined(Opening(requests[..|requests| - 1], diskGB), requests[|requests| - 1], diskGB)
  }

  function Joined(openers: seq<Request>, r: Request, diskGB: int): seq<Request> {
    if Known(openers, r.name) || !Granted(openers, r, diskGB) then openers else openers + [r]
  }

  lemma JoinedIs(openers: seq<Request>, r: Request, diskGB: int)
    ensures var opens := !Known(openers, r.name) && Granted(openers, r, diskGB);
            && Sizes(Joined(openers, r, diskGB)) == Sizes(openers) + (if opens then [r.size] else [])
            && forall name :: Known(Joined(openers, r, diskGB), name) <==> Known(openers, name) || (opens && name == r.name)
  {
  }

  /** The first reply of the Fly API in the series names the physical volume. */
  function Physical(requests: seq<Request>): seq<string> {
    if requests == [] then []
    else Created(Physical(requests[..|requests| - 1]), requests[|requests| - 1])
  }

  function Created(before: seq<string>, r: Request): seq<string> {
    if before == [] && r.reply.Some? then [r.reply.value] else before
  }

  lemma {:induction false} PhysicalIsFirst(requests: seq<Request>)
    requires requests != [] && requests[0].reply.Some?
    ensures Physical(requests) == [requests[0].reply.value]
    decreases |requests|
  {
    if |requests| > 1 {
      PhysicalIsFirst(requests[..|requests| - 1]);
    } else {
      assert Physical(requests[..0]) == [];
    }
  }

  /** When no call of the Fly API fails, the first request for every name opens its volume. */
  lemma {:induction false} NothingRefused(requests: seq<Request>, diskGB: int)
    requires forall k :: 0 <= k < |requests| ==> requests[k].reply.Some?
    ensures forall k :: 0 <= k < |requests| && (forall i :: 0 <= i < k ==> requests[i].name != requests[k].name) ==>
              requests[k] in Opening(requests, diskGB)
    ensures forall r :: r in Opening(requests, diskGB) ==> r in requests
    decreases |requests|
  {
    if requests != [] {
      var n := |requests| - 1;
      var before := requests[..n];
      NothingRefused(before, diskGB);
      assert requests == before + [requests[n]];
      var openers := Opening(before, diskGB);
      assert forall r :: r in openers ==> r in Joined(openers, requests[n], diskGB);
      forall k | 0 <= k < |requests| && (forall i :: 0 <= i < k ==> requests[i].name != requests[k].name)
        ensures requests[k] in Joined(openers, requests[n], diskGB)
      {
        if k < n {
          assert before[k] in openers;
        } else {
          forall r | r in openers ensures r.name != requests[n].name {
            assert r in before;
          }
        }
      }
    }
  }

  /** The size covers every request that opened a volume, and one of them asked for it,
      unless it is what the first was given by default. */
  ghost predicate Fits(openers: seq<Request>, diskGB: int, size: int) {
    && openers != []
    && (forall r :: r in openers ==> r.size <= size)
    && (size == EffectiveSize(openers[0].size, diskGB) || exists r :: r in openers && size == r.size)
  }

  lemma LargestFits(openers: seq<Request>, diskGB: int)
    requires openers != []
    ensures Fits(openers, diskGB, LargestSize(Sizes(openers), diskGB))
  {
    var sizes := Sizes(openers);
    LargestIsLargest(sizes, diskGB);
    forall r | r in openers ensures r.size in sizes {
      var k :| 0 <= k < |openers| && openers[k] == r;
      assert sizes[k] == r.size;
    }
    forall k | 0 <= k < |sizes| ensures openers[k] in openers && openers[k].size == sizes[k] {}
  }

  function Grants(requests: seq<Request>, diskGB: int): seq<bool> {
    seq(|requests|, k requires 0 <= k < |requests| => Granted(Opening(requests[..k], diskGB), requests[k], diskGB))
  }

  /** A call succeeds exactly when its request is granted, and then gives the object that
      is kept under the requested name. */
  ghost predicate Answers(requests: seq<Request>, grants: seq<bool>, results: seq<Option<Volume>>,
                          volumes: map<string, Volume>)
  {
    |results| <= |requests| == |grants| &&
    forall k :: 0 <= k < |results| ==>
      && (results[k].Some? <==> grants[k])
      && (results[k].Some? ==> requests[k].name in volumes && results[k].value == volumes[requests[k].name])
  }

  /** The driver's state in terms of the requests that opened a volume. */
  ghost predicate Tracks(fly: Fly, openers: seq<Request>, physical: seq<string>)
    reads fly
  {
    && fly.Valid() && fly.volumeIDs == physical && fly.requested == Sizes(openers)
    && forall name :: name in fly.volumes <==> Known(openers, name)
  }

  lemma OneVolume(fly: Fly, openers: seq<Request>, physical: seq<string>)
    requires Tracks(fly, openers, physical)
    ensures |fly.volumeIDs| <= 1 && forall name :: name in fly.volumes ==> fly.volumeIDs == [fly.volumes[name].id]
    ensures fly.requested != [] ==> Fits(openers, fly.diskGB, fly.sharedVolumeSize)
  {
    if openers != [] {
      LargestFits(openers, fly.diskGB);
    }
  }

  lemma AnswersGrow(requests: seq<Request>, grants: seq<bool>, results: seq<Option<Volume>>, before: map<string, Volume>,
                    after: map<string, Volume>, v: Option<Volume>)
    requires Answers(requests, grants, results, before) && |results| < |requests|
    requires forall name :: name in before ==> name in after && after[name] == before[name]
    requires v.Some? <==> grants[|results|]
    requires v.Some? ==> requests[|results|].name in after && v.value == after[requests[|results|].name]
    ensures Answers(requests, grants, results + [v], after)
  {
  }

  lemma SeriesStep(requests: seq<Request>, k: nat, diskGB: int)
    requires k < |requests|
    ensures Opening(requests[..k + 1], diskGB) == Joined(Opening(requests[..k], diskGB), requests[k], diskGB)
    ensures Physical(requests[..k + 1]) == Created(Physical(requests[..k]), requests[k])
  {
    assert requests[..k + 1][..k] == requests[..k];
  }

  /** One call of the series. */
  method Serve(fly: Fly, r: Request, ghost openers: seq<Request>, ghost physical: seq<string>) returns (v: Option<Volume>)
    requires Tracks(fly, openers, physical) && (r.reply.Some? ==> r.reply.value != "")
    modifies fly
    ensures Tracks(fly, Joined(openers, r, fly.diskGB), Created(physical, r))
    ensures v.Some? <==> Granted(openers, r, fly.diskGB)
    ensures v.Some? ==> r.name in fly.volumes && v.value == fly.volumes[r.name]
    ensures forall name :: name in old(fly.volumes) ==> name in fly.volumes && fly.volumes[name] == old(fly.volumes)[name]
  {
    JoinedIs(openers, r, fly.diskGB);
    v := fly.CreateVolume(r.name, r.size, r.reply);
  }

  /** Any series of calls creates at most one physical volume, named by the first reply of
      the Fly API, which every logical volume shares; all the volumes handed out for one
      name are one object; and the physical volume is as large as the largest request that
      opened a logical one. */
  method CreateAll(fly: Fly, requests: seq<Request>) returns (results: seq<Option<Volume>>)
    requires fly.Valid() && fly.requested == [] && fly.volumes == map[]
    requires forall k :: 0 <= k < |requests| && requests[k].reply.Some? ==> requests[k].reply.value != ""
    modifies fly
    ensures Tracks(fly, Opening(requests, fly.diskGB), Physical(requests))
    ensures |results| == |requests| && Answers(requests, Grants(requests, fly.diskGB), results, fly.volumes)
    ensures |fly.volumeIDs| <= 1 && forall name :: name in fly.volumes ==> fly.volumeIDs == [fly.volumes[name].id]
    ensures fly.requested != [] ==> Fits(Opening(requests, fly.diskGB), fly.diskGB, fly.sharedVolumeSize)
  {
    results := [];
    ghost var openers, physical := [], [];
    ghost var grants := Grants(requests, fly.diskGB);
    for k := 0 to |requests|
      invariant |results| == k && Tracks(fly, openers, physical)
      invariant openers == Opening(requests[..k], fly.diskGB) && physical == Physical(requests[..k])
      invariant Answers(requests, grants, results, fly.volumes)
    {
      SeriesStep(requests, k, fly.diskGB);
      assert grants[k] == Granted(openers, requests[k], fly.diskGB);
      ghost var before := fly.volumes;
      var v := Serve(fly, requests[k], openers, physical);
      AnswersGrow(requests, grants, results, before, fly.volumes, v);
      results := results + [v];
      openers, physical := Joined(openers, requests[k], fly.diskGB), Created(physical, requests[k]);
    }
    assert requests[..|requests|] == requests;
    OneVolume(fly, openers, physical);
  }

  /** Without failures of the Fly API, every request is served from one volume that is
      large enough for the first request of every name. */
  lemma AllServed(requests: seq<Request>, diskGB: int)
    requires requests != [] && forall k :: 0 <= k < |requests| ==> requests[k].reply.Some?
    ensures Physical(requests) == [requests[0].reply.value]
    ensures forall k :: 0 <= k < |requests| ==> Granted(Opening(requests[..k], diskGB), requests[k], diskGB)
    ensures var openers := Opening(requests, diskGB);
            && openers != []
            && var size := LargestSize(Sizes(openers), diskGB);
            && Fits(openers, diskGB, size)
            && forall k :: 0 <= k < |requests| && (forall i :: 0 <= i < k ==> requests[i].name != requests[k].name) ==>
                 requests[k].size <= size
  {
    PhysicalIsFirst(requests);
    NothingRefused(requests, diskGB);
    assert requests[0] in Opening(requests, diskGB);
    LargestFits(Opening(requests, diskGB), diskGB);
  }
}
