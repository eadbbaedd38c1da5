/**
 The versioned list of all endpoints of an instance: rebuilt only when pods come or go, while the
 endpoint objects in it are updated in place.
 */
module EndpointCache {

  class Endpoint {
    const id: int
    var status: int
    var lastHeartbeat: real

    constructor (id: int)
      ensures this.id == id
    {
      this.id := id;
      status := 0;
      lastHeartbeat := 0.0;
    }
  }

  datatype Pod = Pod(ip: string, endpoints: seq<Endpoint>)

  /** A pod that registers again keeps its place. */
  function SetPod(pods: seq<Pod>, p: Pod): seq<Pod> {
    if pods == [] then [p]
    else if pods[0].ip == p.ip then [p] + pods[1..]
    else [pods[0]] + SetPod(pods[1..], p)
  }

  function DropPod(pods: seq<Pod>, ip: string): seq<Pod> {
    if pods == [] then []
    else if pods[0].ip == ip then pods[1..]
    else [pods[0]] + DropPod(pods[1..], ip)
  }

  function Selected(endpoints: seq<Endpoint>, multi: bool): seq<Endpoint> {
    if endpoints == [] then []
    else
      var n := |endpoints| - 1;
      Selected(endpoints[..n], multi) + if multi || endpoints[n].id == 0 then [endpoints[n]] else []
  }

  /** All endpoints, or without multiple endpoints only those with id 0. */
  function All(pods: seq<Pod>, multi: bool): seq<Endpoint> {
    if pods == [] then []
    else All(pods[..|pods| - 1], multi) + Selected(pods[|pods| - 1].endpoints, multi)
  }

  predicate HasIp(pods: seq<Pod>, ip: string) {
    exists i :: 0 <= i < |pods| && pods[i].ip == ip
  }

  class Instance {
    const multi: bool
    var pods: seq<Pod>
    var version: nat
    var cached: bool
    var cachedEndpoints: seq<Endpoint>
    var cachedVersion: nat

    /** A cache of the current version is up to date. */
    ghost predicate Valid()
      reads this
    {
      && cachedVersion <= version
      && (cached && cachedVersion == version ==> cachedEndpoints == All(pods, multi))
    }

    constructor (multi: bool)
      ensures Valid() && this.multi == multi && pods == []
    {
      this.multi := multi;
      pods := [];
      version, cachedVersion := 0, 0;
      cached, cachedEndpoints := false, [];
    }

    method AddEndpoints(p: Pod)
      requires Valid()
      modifies this`pods, this`version
      ensures Valid() && pods == SetPod(old(pods), p) && version == old(version) + 1
    {
      pods := SetPod(pods, p);
      version := version + 1;
    }

    method DelEndpoints(ip: string)
      requires Valid()
      modifies this`pods, this`version
      ensures Valid()
      ensures pods == if HasIp(old(pods), ip) then DropPod(old(pods), ip) else old(pods)
      ensures version == if HasIp(old(pods), ip) then old(version) + 1 else old(version)
    {
      if HasIp(pods, ip) {
        pods := DropPod(pods, ip);
        version := version + 1;
      }
    }

    /** An update in place, of an endpoint or of one no longer part of the instance. */
    method UpdateHeartbeat(e: Endpoint, status: int, now: real)
      requires Valid()
      modifies e
      ensures Valid() && e.status == status && e.lastHeartbeat == now
    {
      e.status := status;
      e.lastHeartbeat := now;
    }

    /** The cached answer is the same list of objects a fresh rebuild would give. */
    method GetAllEndpoints() returns (endpoints: seq<Endpoint>)
      requires Valid()
      modifies this`cached, this`cachedEndpoints, this`cachedVersion
      ensures Valid() && endpoints == All(pods, multi) && cached && cachedVersion == version
    {
      if cached && cachedVersion == version {
        return cachedEndpoints;
      }
      endpoints := [];
      for i := 0 to |pods|
        invariant endpoints == All(pods[..i], multi)
      {
        ghost var before := endpoints;
        var es := pods[i].endpoints;
        for j := 0 to |es|
          invariant endpoints == before + Selected(es[..j], multi)
        {
          assert es[..j + 1][..j] == es[..j];
          if multi || es[j].id == 0 {
            endpoints := endpoints + [es[j]];
          }
        }
        assert es[..|es|] == es && pods[..i + 1][..i] == pods[..i];
      }
      assert pods[..|pods|] == pods;
      cached, cachedEndpoints, cachedVersion := true, endpoints, version;
    }
  }

  lemma {:induction false} SelectedCount(endpoints: seq<Endpoint>, multi: bool)
    ensures multi ==> Selected(endpoints, multi) == endpoints
    ensures forall e :: e in Selected(endpoints, multi) <==> e in endpoints && (multi || e.id == 0)
    decreases |endpoints|
  {
    if endpoints != [] {
      var n := |endpoints| - 1;
      SelectedCount(endpoints[..n], multi);
      assert endpoints == endpoints[..n] + [endpoints[n]];
    }
  }

  /** What the list holds: every endpoint of every pod that the mode selects. */
  lemma {:induction false} AllIsEverySelected(pods: seq<Pod>, multi: bool, e: Endpoint)
    ensures e in All(pods, multi) <==> (multi || e.id == 0) && exists i :: 0 <= i < |pods| && e in pods[i].endpoints
    decreases |pods|
  {
    if pods != [] {
      var n := |pods| - 1;
      AllIsEverySelected(pods[..n], multi, e);
      SelectedCount(pods[n].endpoints, multi);
      if i :| 0 <= i < |pods| && e in pods[i].endpoints && i < n {
        assert e in pods[..n][i].endpoints;
      }
    }
  }

  // ---------------------------------------------------------------------------------------------
  // Which endpoints are found under an address
  // ---------------------------------------------------------------------------------------------

  datatype Found = Nothing | Endpoints(endpoints: seq<Endpoint>)

  /** The endpoints of the first pod with the address. */
  function At(pods: seq<Pod>, ip: string): Found {
    if pods == [] then Nothing else if pods[0].ip == ip then Endpoints(pods[0].endpoints) else At(pods[1..], ip)
  }

  predicate DistinctPods(pods: seq<Pod>) {
    forall i, j | 0 <= i < j < |pods| :: pods[i].ip != pods[j].ip
  }

  lemma {:induction false} AtIff(pods: seq<Pod>, ip: string)
    ensures At(pods, ip) == Nothing <==> !HasIp(pods, ip)
  {
    if pods != [] {
      AtIff(pods[1..], ip);
      if HasIp(pods, ip) && pods[0].ip != ip {
        var i :| 0 <= i < |pods| && pods[i].ip == ip;
        assert pods[1..][i - 1].ip == ip;
      }
      if HasIp(pods[1..], ip) {
        var i :| 0 <= i < |pods[1..]| && pods[1..][i].ip == ip;
        assert pods[i + 1].ip == ip;
      }
    }
  }

  /** Adding a pod replaces what is found under its address, and nothing else; known pods keep their order. */
  lemma {:induction false} SetPodFinds(pods: seq<Pod>, p: Pod, ip: string)
    ensures At(SetPod(pods, p), ip) == if ip == p.ip then Endpoints(p.endpoints) else At(pods, ip)
    ensures |SetPod(pods, p)| == if HasIp(pods, p.ip) then |pods| else |pods| + 1
    ensures forall k | 0 <= k < |pods| :: SetPod(pods, p)[k].ip == pods[k].ip
  {
    if pods != [] {
      SetPodFinds(pods[1..], p, ip);
      AtIff(pods, p.ip);
      AtIff(pods[1..], p.ip);
    }
  }

  /** Deleting a pod leaves nothing under its address, and everything else as it was. */
  lemma {:induction false} DropPodFinds(pods: seq<Pod>, gone: string, ip: string)
    requires DistinctPods(pods) && HasIp(pods, gone)
    ensures At(DropPod(pods, gone), ip) == if ip == gone then Nothing else At(pods, ip)
    ensures |DropPod(pods, gone)| == |pods| - 1
  {
    if pods[0].ip == gone {
      AtIff(pods[1..], gone);
    } else {
      var i :| 0 <= i < |pods| && pods[i].ip == gone;
      assert pods[1..][i - 1].ip == gone;
      DropPodFinds(pods[1..], gone, ip);
    }
  }

  lemma {:induction false} SetPodKeepsDistinct(pods: seq<Pod>, p: Pod)
    requires DistinctPods(pods)
    ensures DistinctPods(SetPod(pods, p))
    ensures forall k | 0 <= k < |SetPod(pods, p)| :: SetPod(pods, p)[k].ip == p.ip || (k < |pods| && SetPod(pods, p)[k].ip == pods[k].ip)
  {
    if pods != [] { SetPodKeepsDistinct(pods[1..], p); }
  }

  lemma {:induction false} DropPodKeepsDistinct(pods: seq<Pod>, ip: string)
    requires DistinctPods(pods)
    ensures DistinctPods(DropPod(pods, ip))
    ensures forall k | 0 <= k < |DropPod(pods, ip)| :: HasIp(pods, DropPod(pods, ip)[k].ip)
  {
    if pods != [] && pods[0].ip != ip {
      DropPodKeepsDistinct(pods[1..], ip);
      var rest := DropPod(pods[1..], ip);
      forall k | 0 <= k < |rest| ensures rest[k].ip != pods[0].ip && HasIp(pods, rest[k].ip) {
        var i :| 0 <= i < |pods[1..]| && pods[1..][i].ip == rest[k].ip;
        assert pods[i + 1].ip == rest[k].ip;
      }
      assert HasIp(pods, pods[0].ip);
    }
  }

  // ---------------------------------------------------------------------------------------------
  // The order of the list
  // ---------------------------------------------------------------------------------------------

  /** Pods stand in the list in their order, and the endpoints of a pod in theirs. */
  lemma {:induction false} AllInOrder(a: seq<Pod>, b: seq<Pod>, multi: bool)
    ensures All(a + b, multi) == All(a, multi) + All(b, multi)
    decreases |b|
  {
    if b == [] {
      assert a + b == a;
    } else {
      assert (a + b)[..|a + b| - 1] == a + b[..|b| - 1];
      AllInOrder(a, b[..|b| - 1], multi);
    }
  }

  lemma {:induction false} SelectedInOrder(a: seq<Endpoint>, b: seq<Endpoint>, multi: bool)
    ensures Selected(a + b, multi) == Selected(a, multi) + Selected(b, multi)
    decreases |b|
  {
    if b == [] {
      assert a + b == a;
    } else {
      assert (a + b)[..|a + b| - 1] == a + b[..|b| - 1];
      SelectedInOrder(a, b[..|b| - 1], multi);
    }
  }
}
