/** Device lookup and the topology wiring done when a controller is created
    (Controller.getFogDeviceById, getCloud, connectWithLatencies). */
module Topology {
  import opened Common
  import opened Entities

  /** `getFogDeviceById`: the position of the first device in list order whose
      id is `id`, or None where the source returns null. */
  function FindDevice(devices: seq<FogDevice>, id: int): (r: Option<nat>)
    ensures r.Some? ==> r.value < |devices| && devices[r.value].id == id
    ensures r.Some? ==> forall k :: 0 <= k < r.value ==> devices[k].id != id
    ensures r.None? <==> forall k :: 0 <= k < |devices| ==> devices[k].id != id
    decreases |devices|
  {
    if devices == [] then None
    else if devices[0].id == id then Some(0)
    else match FindDevice(devices[1..], id)
      case None => None
      case Some(j) => Some(j + 1)
  }

  /** `getCloud`: the position of the first device named "cloud", if any. */
  function GetCloud(devices: seq<FogDevice>): (r: Option<nat>)
    ensures r.Some? ==> r.value < |devices| && devices[r.value].name == "cloud"
    ensures r.Some? ==> forall k :: 0 <= k < r.value ==> devices[k].name != "cloud"
    ensures r.None? <==> forall k :: 0 <= k < |devices| ==> devices[k].name != "cloud"
    decreases |devices|
  {
    if devices == [] then None
    else if devices[0].name == "cloud" then Some(0)
    else match GetCloud(devices[1..])
      case None => None
      case Some(j) => Some(j + 1)
  }

  /** The two writes into a parent: the child's latency and the child's id. */
  function AddChild(parent: FogDevice, childId: int, latency: real): FogDevice {
    parent.(childToLatency := parent.childToLatency[childId := latency],
            childrenIds := parent.childrenIds + [childId])
  }

  /** One pass of the inner loop: link a child to the device named by
      `parentId`, or skip the id if it names no device. */
  function Link(devices: seq<FogDevice>, childId: int, latency: real, parentId: int): (r: seq<FogDevice>)
    ensures |r| == |devices|
  {
    match FindDevice(devices, parentId)
    case None => devices
    case Some(j) => devices[j := AddChild(devices[j], childId, latency)]
  }

  /** The inner loop: link one child to each of its parent ids in turn. */
  function LinkParents(devices: seq<FogDevice>, childId: int, latency: real, parentIds: seq<int>): (r: seq<FogDevice>)
    ensures |r| == |devices|
    decreases |parentIds|
  {
    if parentIds == [] then devices
    else Link(LinkParents(devices, childId, latency, parentIds[..|parentIds| - 1]), childId, latency, parentIds[|parentIds| - 1])
  }

  /** The outer loop: link every child in turn, with its own id, uplink
      latency and parent ids. `connectWithLatencies` is `Wire(ds, ds)`. */
  function Wire(devices: seq<FogDevice>, children: seq<FogDevice>): (r: seq<FogDevice>)
    ensures |r| == |devices|
    decreases |children|
  {
    if children == [] then devices
    else
      var c := children[|children| - 1];
      LinkParents(Wire(devices, children[..|children| - 1]), c.id, c.uplinkLatency, c.parentIds)
  }

  /** Two device records agree on everything but the child tables. */
  ghost predicate SameShape(a: FogDevice, b: FogDevice) {
    a == b.(childToLatency := a.childToLatency, childrenIds := a.childrenIds)
  }

  /** The two device lists agree on everything but the child tables. */
  ghost predicate SameSkeleton(a: seq<FogDevice>, b: seq<FogDevice>) {
    |a| == |b| && forall k :: 0 <= k < |a| ==> SameShape(a[k], b[k])
  }

  /** The child ids a device at position `j` is given for one child: one per
      parent id of the child that resolves to position `j`. */
  function Hits(devices: seq<FogDevice>, childId: int, parentIds: seq<int>, j: nat): seq<int>
    decreases |parentIds|
  {
    if parentIds == [] then []
    else
      Hits(devices, childId, parentIds[..|parentIds| - 1], j)
      + (if FindDevice(devices, parentIds[|parentIds| - 1]) == Some(j) then [childId] else [])
  }

  /** Every child id the device at position `j` is given, children in list order. */
  function LinkedIds(devices: seq<FogDevice>, children: seq<FogDevice>, j: nat): seq<int>
    decreases |children|
  {
    if children == [] then []
    else
      var c := children[|children| - 1];
      LinkedIds(devices, children[..|children| - 1], j) + Hits(devices, c.id, c.parentIds, j)
  }

  lemma {:induction false} SkeletonFind(a: seq<FogDevice>, b: seq<FogDevice>, id: int)
    requires SameSkeleton(a, b)
    ensures FindDevice(a, id) == FindDevice(b, id)
    decreases |a|
  {
    if a != [] && a[0].id != id {
      assert SameSkeleton(a[1..], b[1..]) by {
        forall k | 0 <= k < |a| - 1
          ensures SameShape(a[1..][k], b[1..][k])
        {
          assert a[1..][k] == a[k + 1] && b[1..][k] == b[k + 1];
        }
      }
      SkeletonFind(a[1..], b[1..], id);
    }
  }

  lemma {:induction false} SkeletonHits(a: seq<FogDevice>, b: seq<FogDevice>, childId: int, parentIds: seq<int>, j: nat)
    requires SameSkeleton(a, b)
    ensures Hits(a, childId, parentIds, j) == Hits(b, childId, parentIds, j)
    decreases |parentIds|
  {
    if parentIds != [] {
      SkeletonHits(a, b, childId, parentIds[..|parentIds| - 1], j);
      SkeletonFind(a, b, parentIds[|parentIds| - 1]);
    }
  }

  lemma {:induction false} HitsFound(devices: seq<FogDevice>, childId: int, parentIds: seq<int>, j: nat, p: int)
    requires p in parentIds && FindDevice(devices, p) == Some(j)
    ensures childId in Hits(devices, childId, parentIds, j)
    decreases |parentIds|
  {
    var n := |parentIds| - 1;
    if parentIds[n] != p {
      assert p in parentIds[..n] by {
        var i :| 0 <= i < |parentIds| && parentIds[i] == p;
        assert i < n && parentIds[..n][i] == p;
      }
      HitsFound(devices, childId, parentIds[..n], j, p);
    }
  }

  lemma {:induction false} HitsOnly(devices: seq<FogDevice>, childId: int, parentIds: seq<int>, j: nat)
    ensures forall x :: x in Hits(devices, childId, parentIds, j) <==> x == childId && Hits(devices, childId, parentIds, j) != []
    decreases |parentIds|
  {
    if parentIds != [] {
      HitsOnly(devices, childId, parentIds[..|parentIds| - 1], j);
      var h := Hits(devices, childId, parentIds, j);
      if h != [] {
        assert h[0] in h;
      }
    }
  }

  /** The inner loop changes no record except in its child tables. */
  lemma {:induction false} LinkParentsSkeleton(devices: seq<FogDevice>, childId: int, latency: real, parentIds: seq<int>)
    ensures SameSkeleton(LinkParents(devices, childId, latency, parentIds), devices)
    decreases |parentIds|
  {
    if parentIds != [] {
      var n := |parentIds| - 1;
      var before := LinkParents(devices, childId, latency, parentIds[..n]);
      LinkParentsSkeleton(devices, childId, latency, parentIds[..n]);
      var after := LinkParents(devices, childId, latency, parentIds);
      forall k | 0 <= k < |devices|
        ensures SameShape(after[k], devices[k])
      {
        assert SameShape(before[k], devices[k]);
      }
    }
  }

  /** Closed form of the inner loop at the device at position `j`, child
      ids: it gains the child's id once per parent id resolving to `j`. */
  lemma {:induction false} LinkParentsChildrenAt(devices: seq<FogDevice>, childId: int, latency: real, parentIds: seq<int>, j: nat)
    requires j < |devices|
    ensures LinkParents(devices, childId, latency, parentIds)[j].childrenIds
              == devices[j].childrenIds + Hits(devices, childId, parentIds, j)
    decreases |parentIds|
  {
    if parentIds != [] {
      var n := |parentIds| - 1;
      var p := parentIds[n];
      var before := LinkParents(devices, childId, latency, parentIds[..n]);
      var after := LinkParents(devices, childId, latency, parentIds)[j];
      var h := Hits(devices, childId, parentIds[..n], j);
      LinkParentsChildrenAt(devices, childId, latency, parentIds[..n], j);
      FindUnchanged(devices, childId, latency, parentIds[..n], p);
      if FindDevice(devices, p) == Some(j) {
        assert Hits(devices, childId, parentIds, j) == h + [childId];
        assert after == AddChild(before[j], childId, latency);
        AppendAssoc(devices[j].childrenIds, h, [childId]);
      } else {
        assert Hits(devices, childId, parentIds, j) == h + [];
        assert after == before[j];
      }
    }
  }

  /** Closed form of the inner loop at the device at position `j`, latency
      table: it gains the child's latency if some parent id resolves to `j`. */
  lemma {:induction false} LinkParentsLatencyAt(devices: seq<FogDevice>, childId: int, latency: real, parentIds: seq<int>, j: nat)
    requires j < |devices|
    ensures LinkParents(devices, childId, latency, parentIds)[j].childToLatency
              == if Hits(devices, childId, parentIds, j) == [] then devices[j].childToLatency
                 else devices[j].childToLatency[childId := latency]
    decreases |parentIds|
  {
    if parentIds != [] {
      var n := |parentIds| - 1;
      var p := parentIds[n];
      var before := LinkParents(devices, childId, latency, parentIds[..n]);
      var after := LinkParents(devices, childId, latency, parentIds)[j];
      var h := Hits(devices, childId, parentIds[..n], j);
      LinkParentsLatencyAt(devices, childId, latency, parentIds[..n], j);
      FindUnchanged(devices, childId, latency, parentIds[..n], p);
      if FindDevice(devices, p) == Some(j) {
        assert Hits(devices, childId, parentIds, j) == h + [childId];
        assert after == AddChild(before[j], childId, latency);
        if h != [] {
          var m := devices[j].childToLatency[childId := latency];
          assert m[childId := latency] == m;
        }
      } else {
        assert Hits(devices, childId, parentIds, j) == h + [];
        assert after == before[j];
      }
    }
  }

  /** Linking leaves device lookup as it was. */
  lemma FindUnchanged(devices: seq<FogDevice>, childId: int, latency: real, parentIds: seq<int>, id: int)
    ensures FindDevice(LinkParents(devices, childId, latency, parentIds), id) == FindDevice(devices, id)
  {
    LinkParentsSkeleton(devices, childId, latency, parentIds);
    SkeletonFind(LinkParents(devices, childId, latency, parentIds), devices, id);
  }

  lemma SkeletonTrans(a: seq<FogDevice>, b: seq<FogDevice>, c: seq<FogDevice>)
    requires SameSkeleton(a, b) && SameSkeleton(b, c)
    ensures SameSkeleton(a, c)
  {
    forall k | 0 <= k < |a|
      ensures SameShape(a[k], c[k])
    {
      assert SameShape(a[k], b[k]) && SameShape(b[k], c[k]);
    }
  }

  /** The outer loop changes no record except in its child tables. */
  lemma {:induction false} WireSkeleton(devices: seq<FogDevice>, children: seq<FogDevice>)
    ensures SameSkeleton(Wire(devices, children), devices)
    decreases |children|
  {
    if children != [] {
      var n := |children| - 1;
      var c := children[n];
      WireSkeleton(devices, children[..n]);
      LinkParentsSkeleton(Wire(devices, children[..n]), c.id, c.uplinkLatency, c.parentIds);
      SkeletonTrans(Wire(devices, children), Wire(devices, children[..n]), devices);
    }
  }

  /** Parent ids resolve the same way before and after any part of the wiring. */
  lemma WireKeepsHits(devices: seq<FogDevice>, children: seq<FogDevice>, childId: int, parentIds: seq<int>, j: nat)
    ensures Hits(Wire(devices, children), childId, parentIds, j) == Hits(devices, childId, parentIds, j)
  {
    WireSkeleton(devices, children);
    SkeletonHits(Wire(devices, children), devices, childId, parentIds, j);
  }

  /** Closed form of the outer loop, first half: the device at position `j`
      gains exactly `LinkedIds(devices, children, j)`, in order, as children. */
  lemma {:induction false} WireChildren(devices: seq<FogDevice>, children: seq<FogDevice>, j: nat)
    requires j < |devices|
    ensures Wire(devices, children)[j].childrenIds == devices[j].childrenIds + LinkedIds(devices, children, j)
    decreases |children|
  {
    if children != [] {
      var n := |children| - 1;
      var c := children[n];
      var before := Wire(devices, children[..n]);
      WireChildren(devices, children[..n], j);
      LinkParentsChildrenAt(before, c.id, c.uplinkLatency, c.parentIds, j);
      WireKeepsHits(devices, children[..n], c.id, c.parentIds, j);
      var old_ := devices[j].childrenIds;
      var linked := LinkedIds(devices, children[..n], j);
      var h := Hits(devices, c.id, c.parentIds, j);
      assert Wire(devices, children)[j].childrenIds == (old_ + linked) + h;
      assert LinkedIds(devices, children, j) == linked + h;
      assert (old_ + linked) + h == old_ + (linked + h);
    }
  }

  /** Closed form of the outer loop, second half: the latency table of the
      device at position `j` gains the keys `LinkedIds(devices, children, j)`
      and keeps the value of every other key it had. */
  lemma {:induction false} WireTable(devices: seq<FogDevice>, children: seq<FogDevice>, j: nat)
    requires j < |devices|
    ensures forall k :: k in Wire(devices, children)[j].childToLatency
              <==> k in devices[j].childToLatency || k in LinkedIds(devices, children, j)
    ensures forall k :: k in devices[j].childToLatency && k !in LinkedIds(devices, children, j) ==>
              Wire(devices, children)[j].childToLatency[k] == devices[j].childToLatency[k]
    decreases |children|
  {
    if children != [] {
      var n := |children| - 1;
      var c := children[n];
      var before := Wire(devices, children[..n]);
      WireTable(devices, children[..n], j);
      LinkParentsLatencyAt(before, c.id, c.uplinkLatency, c.parentIds, j);
      WireKeepsHits(devices, children[..n], c.id, c.parentIds, j);
      HitsOnly(devices, c.id, c.parentIds, j);
      var h := Hits(devices, c.id, c.parentIds, j);
      var linked := LinkedIds(devices, children[..n], j);
      var before_ := before[j].childToLatency;
      var after := Wire(devices, children)[j].childToLatency;
      assert LinkedIds(devices, children, j) == linked + h;
      if h == [] {
        assert after == before_;
      } else {
        assert h[0] in h;
        assert after == before_[c.id := c.uplinkLatency];
      }
      forall k
        ensures k in after <==> k in devices[j].childToLatency || k in LinkedIds(devices, children, j)
      {
        assert k in before_ <==> k in devices[j].childToLatency || k in linked;
        assert k in linked + h <==> k in linked || k in h;
      }
      forall k | k in devices[j].childToLatency && k !in LinkedIds(devices, children, j)
        ensures after[k] == devices[j].childToLatency[k]
      {
        assert k !in linked && k !in h;
      }
    }
  }

  /** A device that no child names as a parent comes out of the wiring exactly
      as it went in: nothing is written into a device's tables on its own behalf. */
  lemma WireUntouched(devices: seq<FogDevice>, children: seq<FogDevice>, j: nat)
    requires j < |devices| && LinkedIds(devices, children, j) == []
    ensures Wire(devices, children)[j] == devices[j]
  {
    WireSkeleton(devices, children);
    WireChildren(devices, children, j);
    WireTable(devices, children, j);
    var w := Wire(devices, children)[j];
    assert SameShape(w, devices[j]);
    forall k
      ensures k in w.childToLatency <==> k in devices[j].childToLatency
    {
      assert k !in LinkedIds(devices, children, j);
    }
    assert w.childToLatency.Keys == devices[j].childToLatency.Keys;
    forall k | k in devices[j].childToLatency
      ensures w.childToLatency[k] == devices[j].childToLatency[k]
    {
      assert k !in LinkedIds(devices, children, j);
    }
    assert w.childToLatency == devices[j].childToLatency;
  }

  /** Children with distinct ids: after the wiring, every parent that a child
      names maps the child's id to the child's uplink latency, and lists the
      child among its children. */
  lemma {:induction false} WireLatency(devices: seq<FogDevice>, children: seq<FogDevice>, i: nat, p: int, j: nat)
    requires i < |children| && j < |devices|
    requires forall a, b :: 0 <= a < b < |children| ==> children[a].id != children[b].id
    requires p in children[i].parentIds && FindDevice(devices, p) == Some(j)
    ensures children[i].id in Wire(devices, children)[j].childToLatency
    ensures Wire(devices, children)[j].childToLatency[children[i].id] == children[i].uplinkLatency
    ensures children[i].id in Wire(devices, children)[j].childrenIds
    decreases |children|
  {
    var n := |children| - 1;
    var c := children[n];
    var before := Wire(devices, children[..n]);
    LinkParentsChildrenAt(before, c.id, c.uplinkLatency, c.parentIds, j);
    LinkParentsLatencyAt(before, c.id, c.uplinkLatency, c.parentIds, j);
    WireKeepsHits(devices, children[..n], c.id, c.parentIds, j);
    var h := Hits(devices, c.id, c.parentIds, j);
    var after := Wire(devices, children)[j];
    assert after == LinkParents(before, c.id, c.uplinkLatency, c.parentIds)[j];
    if i == n {
      HitsFound(devices, c.id, c.parentIds, j, p);
      assert after.childToLatency == before[j].childToLatency[c.id := c.uplinkLatency];
      assert after.childrenIds == before[j].childrenIds + h;
    } else {
      assert children[..n][i] == children[i];
      WireLatency(devices, children[..n], i, p, j);
      assert c.id != children[i].id;
      assert after.childrenIds == before[j].childrenIds + h;
    }
  }

  /** Parent ids that name no device are skipped: a child all of whose
      parent ids are unknown leaves every device as it was. */
  lemma {:induction false} LinkParentsSkipsUnknown(devices: seq<FogDevice>, childId: int, latency: real, parentIds: seq<int>)
    requires forall k :: 0 <= k < |parentIds| ==> FindDevice(devices, parentIds[k]).None?
    ensures LinkParents(devices, childId, latency, parentIds) == devices
    decreases |parentIds|
  {
    if parentIds != [] {
      var n := |parentIds| - 1;
      LinkParentsSkipsUnknown(devices, childId, latency, parentIds[..n]);
      assert FindDevice(devices, parentIds[n]).None?;
    }
  }

  /** `connectWithLatencies`: for every device in list order, and every
      parent id of it in list order, write the device's id and uplink
      latency into the parent the id names, if any. */
  method ConnectWithLatencies(devices: seq<FogDevice>) returns (r: seq<FogDevice>)
    ensures r == Wire(devices, devices)
  {
    r := devices;
    var i := 0;
    while i < |devices|
      invariant 0 <= i <= |devices|
      invariant r == Wire(devices, devices[..i])
    {
      WireSkeleton(devices, devices[..i]);
      assert SameShape(r[i], devices[i]);
      var child := r[i];
      ghost var start := r;
      var k := 0;
      while k < |child.parentIds|
        invariant 0 <= k <= |child.parentIds|
        invariant r == LinkParents(start, child.id, child.uplinkLatency, child.parentIds[..k])
      {
        var parentId := child.parentIds[k];
        assert child.parentIds[..k + 1][..k] == child.parentIds[..k];
        match FindDevice(r, parentId) {
          case None =>
          case Some(j) =>
            var latency := child.uplinkLatency;
            r := r[j := AddChild(r[j], child.id, latency)];
        }
        k := k + 1;
      }
      assert child.parentIds[..k] == child.parentIds;
      assert devices[..i + 1][..i] == devices[..i];
      i := i + 1;
    }
    assert devices[..i] == devices;
  }
}
