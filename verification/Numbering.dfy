/**
 Numbering the endpoints and devices of an instance as its pods register, in any order and possibly more
 than once, without a rank table.
 */
module Numbering {

  datatype Device = Device(local: nat, rank: nat)

  datatype Endpoint = Endpoint(id: nat, ip: string, business: string, mgmt: string, devices: seq<Device>)

  /** A registration; a node manager announces as many management ports as business ports. */
  datatype Msg = Msg(ip: string, business: seq<string>, mgmt: seq<string>, devices: nat, multi: bool) {
    predicate Valid() {
      |business| == |mgmt| && (multi || business != [])
    }
  }

  /** The endpoints of one pod, under its address. */
  datatype Pod = Pod(ip: string, endpoints: seq<Endpoint>)

  function Total(pods: seq<Pod>): nat {
    if pods == [] then 0 else Total(pods[..|pods| - 1]) + |pods[|pods| - 1].endpoints|
  }

  predicate HasPod(pods: seq<Pod>, ip: string) {
    exists i :: 0 <= i < |pods| && pods[i].ip == ip
  }

  // ---------------------------------------------------------------------------------------------
  // Building
  // ---------------------------------------------------------------------------------------------

  function Least(a: nat, b: nat): nat {
    if a <= b then a else b
  }

  /** The devices of an endpoint that starts at a device of its pod; the pod may have too few. */
  function Devices(msg: Msg, start: nat, unit: nat, offset: nat): seq<Device> {
    var n := if start >= msg.devices then 0 else Least(unit, msg.devices - start);
    seq(n, j requires 0 <= j < n => Device(start + j, offset * unit + (start + j)))
  }

  /** How many endpoints a pod gets: one per port, as far as its devices go. */
  function Count(msg: Msg, unit: nat): nat
    requires unit > 0
  {
    if !msg.multi then 1
    else if |msg.business| * unit > msg.devices then msg.devices / unit
    else |msg.business|
  }

  function EndpointOf(msg: Msg, unit: nat, offset: nat, i: nat): Endpoint
    requires msg.Valid() && i < |msg.business|
  {
    Endpoint(offset + i, msg.ip, msg.business[i], msg.mgmt[i], Devices(msg, unit * i, unit, offset))
  }

  lemma CountFits(msg: Msg, unit: nat)
    requires unit > 0 && msg.Valid()
    ensures Count(msg, unit) <= |msg.business|
    ensures msg.multi ==> Count(msg, unit) * unit <= msg.devices
  {
    if msg.multi && |msg.business| * unit > msg.devices {
      Division(msg.devices, unit, |msg.business|);
    }
  }

  lemma Division(d: nat, unit: nat, b: nat)
    requires unit > 0 && b * unit > d
    ensures d / unit <= b && d / unit * unit <= d
  {
    if d / unit > b { MultiplyGrows(b, d / unit, unit); }
  }

  lemma MultiplyGrows(a: nat, b: nat, unit: nat)
    requires a <= b
    ensures a * unit <= b * unit
  {
  }

  method BuildDeviceInfos(msg: Msg, start: nat, unit: nat, offset: nat) returns (devices: seq<Device>)
    ensures devices == Devices(msg, start, unit, offset)
  {
    devices := [];
    for j := 0 to unit
      invariant |devices| == if start >= msg.devices then 0 else Least(j, msg.devices - start)
      invariant forall k | 0 <= k < |devices| :: devices[k] == Device(start + k, offset * unit + (start + k))
    {
      var index := start + j;
      if index < msg.devices {
        devices := devices + [Device(index, offset * unit + index)];
      }
    }
  }

  method BuildMultiEndpoints(msg: Msg, unit: nat, offset: nat) returns (endpoints: seq<Endpoint>)
    requires unit > 0 && msg.Valid() && msg.multi
    ensures |endpoints| == Count(msg, unit) <= |msg.business|
    ensures forall i | 0 <= i < |endpoints| :: endpoints[i] == EndpointOf(msg, unit, offset, i)
  {
    CountFits(msg, unit);
    var needed := |msg.business| * unit;
    var ports := msg.business;
    if needed > msg.devices {
      ports := msg.business[..msg.devices / unit];
    }
    endpoints := [];
    for i := 0 to |ports|
      invariant |endpoints| == i
      invariant forall k | 0 <= k < i :: endpoints[k] == EndpointOf(msg, unit, offset, k)
    {
      var start := unit * i;
      MultiplyGrows(i + 1, |ports|, unit);
      assert (i + 1) * unit == start + unit;
      if start + unit > msg.devices {
        break;
      }
      var devices := BuildDeviceInfos(msg, start, unit, offset);
      endpoints := endpoints + [Endpoint(offset + i, msg.ip, ports[i], msg.mgmt[i], devices)];
    }
  }

  method BuildEndpoints(msg: Msg, unit: nat, offset: nat) returns (endpoints: seq<Endpoint>)
    requires unit > 0 && msg.Valid()
    ensures endpoints == Built(msg, unit, offset)
  {
    CountFits(msg, unit);
    if msg.multi {
      endpoints := BuildMultiEndpoints(msg, unit, offset);
    } else {
      var devices := BuildDeviceInfos(msg, 0, unit, offset);
      endpoints := [Endpoint(offset, msg.ip, msg.business[0], msg.mgmt[0], devices)];
      assert endpoints[0] == EndpointOf(msg, unit, offset, 0);
    }
  }

  function Built(msg: Msg, unit: nat, offset: nat): seq<Endpoint>
    requires unit > 0 && msg.Valid()
  {
    CountFits(msg, unit);
    seq(Count(msg, unit), i requires 0 <= i < Count(msg, unit) => EndpointOf(msg, unit, offset, i))
  }

  // ---------------------------------------------------------------------------------------------
  // Registering
  // ---------------------------------------------------------------------------------------------

  /** A pod that is already known is not registered again. */
  function Registered(pods: seq<Pod>, msg: Msg, unit: nat): seq<Pod>
    requires unit > 0 && msg.Valid()
  {
    if HasPod(pods, msg.ip) then pods else pods + [Pod(msg.ip, Built(msg, unit, Total(pods)))]
  }

  function RegisteredAll(msgs: seq<Msg>, unit: nat): seq<Pod>
    requires unit > 0 && forall i | 0 <= i < |msgs| :: msgs[i].Valid()
  {
    if msgs == [] then [] else Registered(RegisteredAll(msgs[..|msgs| - 1], unit), msgs[|msgs| - 1], unit)
  }

  class Instance {
    const unit: nat
    var pods: seq<Pod>

    constructor (unit: nat)
      requires unit > 0
      ensures this.unit == unit && pods == []
    {
      this.unit := unit;
      pods := [];
    }

    method GetEndpointsNum() returns (n: nat)
      ensures n == Total(pods)
    {
      n := 0;
      for i := 0 to |pods|
        invariant n == Total(pods[..i])
      {
        n := n + |pods[i].endpoints|;
        assert pods[..i + 1][..i] == pods[..i];
      }
      assert pods[..|pods|] == pods;
    }

    method Register(msg: Msg)
      requires unit > 0 && msg.Valid()
      modifies this
      ensures pods == Registered(old(pods), msg, unit)
    {
      if HasPod(pods, msg.ip) {
        return;
      }
      var offset := GetEndpointsNum();
      var endpoints := BuildEndpoints(msg, unit, offset);
      pods := pods + [Pod(msg.ip, endpoints)];
    }
  }

  // ---------------------------------------------------------------------------------------------
  // Numbers are used once
  // ---------------------------------------------------------------------------------------------

  function Endpoints(pods: seq<Pod>): seq<Endpoint> {
    if pods == [] then [] else Endpoints(pods[..|pods| - 1]) + pods[|pods| - 1].endpoints
  }

  function Ranks(endpoints: seq<Endpoint>): seq<nat> {
    if endpoints == [] then []
    else Ranks(endpoints[..|endpoints| - 1]) + RanksOf(endpoints[|endpoints| - 1].devices)
  }

  function RanksOf(devices: seq<Device>): seq<nat> {
    seq(|devices|, j requires 0 <= j < |devices| => devices[j].rank)
  }

  lemma {:induction false} TotalIsLength(pods: seq<Pod>)
    ensures |Endpoints(pods)| == Total(pods)
    decreases |pods|
  {
    if pods != [] { TotalIsLength(pods[..|pods| - 1]); }
  }

  /** Ids count up from zero in the order of registration. */
  predicate Counted(endpoints: seq<Endpoint>) {
    forall k | 0 <= k < |endpoints| :: endpoints[k].id == k
  }

  /** Every endpoint has a full unit of devices, ranked by its id. */
  predicate Ranked(endpoints: seq<Endpoint>, unit: nat) {
    forall k | 0 <= k < |endpoints| :: FullyRanked(endpoints[k], k, unit)
  }

  predicate FullyRanked(e: Endpoint, k: nat, unit: nat) {
    |e.devices| == unit && forall j | 0 <= j < unit :: e.devices[j].rank == k * unit + j
  }

  lemma {:induction false} IdsCount(msgs: seq<Msg>, unit: nat)
    requires unit > 0 && forall i | 0 <= i < |msgs| :: msgs[i].Valid()
    ensures Counted(Endpoints(RegisteredAll(msgs, unit)))
    decreases |msgs|
  {
    if msgs != [] {
      var n := |msgs| - 1;
      var before := RegisteredAll(msgs[..n], unit);
      IdsCount(msgs[..n], unit);
      TotalIsLength(before);
      if !HasPod(before, msgs[n].ip) {
        var after := before + [Pod(msgs[n].ip, Built(msgs[n], unit, Total(before)))];
        assert after[..|before|] == before;
        assert Endpoints(after) == Endpoints(before) + Built(msgs[n], unit, Total(before));
      }
    }
  }

  /** The message gives each of its endpoints a full unit of devices. */
  predicate Roomy(msg: Msg, unit: nat) {
    msg.multi || msg.devices >= unit
  }

  lemma BuiltIsRanked(msg: Msg, unit: nat, offset: nat, i: nat)
    requires unit > 0 && msg.Valid() && Roomy(msg, unit) && i < Count(msg, unit)
    ensures FullyRanked(Built(msg, unit, offset)[i], offset + i, unit)
  {
    CountFits(msg, unit);
    MultiplyGrows(i + 1, Count(msg, unit), unit);
    assert (i + 1) * unit == unit * i + unit;
    assert (offset + i) * unit == offset * unit + unit * i;
  }

  lemma {:induction false} RanksCount(msgs: seq<Msg>, unit: nat)
    requires unit > 0 && forall i | 0 <= i < |msgs| :: msgs[i].Valid()
    requires AllRoomy(msgs, unit)
    ensures Ranked(Endpoints(RegisteredAll(msgs, unit)), unit)
    decreases |msgs|
  {
    if msgs != [] {
      var n := |msgs| - 1;
      AllRoomyBefore(msgs, unit);
      RanksCount(msgs[..n], unit);
      RegisteredLast(msgs, unit);
      if Numbered(msgs, unit, n) {
        RankedLast(RegisteredAll(msgs[..n], unit), msgs[n], unit);
      } else {
        assert Endpoints(RegisteredAll(msgs[..n], unit)) + [] == Endpoints(RegisteredAll(msgs[..n], unit));
      }
    }
  }

  lemma RankedLast(pods: seq<Pod>, msg: Msg, unit: nat)
    requires unit > 0 && msg.Valid() && Roomy(msg, unit) && Ranked(Endpoints(pods), unit)
    ensures Ranked(Endpoints(pods) + Built(msg, unit, Total(pods)), unit)
  {
    TotalIsLength(pods);
    var all := Endpoints(pods) + Built(msg, unit, Total(pods));
    forall k | 0 <= k < |all| ensures FullyRanked(all[k], k, unit) {
      if k >= Total(pods) { BuiltIsRanked(msg, unit, Total(pods), k - Total(pods)); }
    }
  }

  lemma {:induction false} RankedRanks(endpoints: seq<Endpoint>, unit: nat)
    requires Ranked(endpoints, unit)
    ensures |Ranks(endpoints)| == |endpoints| * unit
    ensures forall r | 0 <= r < |endpoints| * unit :: Ranks(endpoints)[r] == r
    decreases |endpoints|
  {
    if endpoints != [] {
      var n := |endpoints| - 1;
      RankedRanks(endpoints[..n], unit);
      assert FullyRanked(endpoints[n], n, unit);
      assert |endpoints| * unit == n * unit + unit;
      var last := RanksOf(endpoints[n].devices);
      forall r | 0 <= r < |endpoints| * unit ensures Ranks(endpoints)[r] == r {
        if r >= n * unit { assert Ranks(endpoints)[r] == last[r - n * unit]; }
      }
    }
  }

  /** The message is the first of its pod, so its endpoints are numbered. */
  predicate Numbered(msgs: seq<Msg>, unit: nat, i: nat)
    requires unit > 0 && forall j | 0 <= j < |msgs| :: msgs[j].Valid()
    requires i < |msgs|
  {
    !HasPod(RegisteredAll(msgs[..i], unit), msgs[i].ip)
  }

  /** Every pod that gets numbered brings a full unit of devices for each endpoint. */
  predicate AllRoomy(msgs: seq<Msg>, unit: nat)
    requires unit > 0 && forall j | 0 <= j < |msgs| :: msgs[j].Valid()
  {
    forall i | 0 <= i < |msgs| :: Numbered(msgs, unit, i) ==> Roomy(msgs[i], unit)
  }

  /** The global ranks are 0 up to n units, each once and in order. */
  predicate RanksFull(endpoints: seq<Endpoint>, unit: nat) {
    |Ranks(endpoints)| == |endpoints| * unit && forall r | 0 <= r < |Ranks(endpoints)| :: Ranks(endpoints)[r] == r
  }

  lemma NumberedBefore(msgs: seq<Msg>, unit: nat, n: nat, i: nat)
    requires unit > 0 && (forall j | 0 <= j < |msgs| :: msgs[j].Valid()) && i < n <= |msgs|
    ensures Numbered(msgs[..n], unit, i) == Numbered(msgs, unit, i) && msgs[..n][i] == msgs[i]
  {
    assert msgs[..n][..i] == msgs[..i];
  }

  lemma AllRoomyBefore(msgs: seq<Msg>, unit: nat)
    requires unit > 0 && msgs != [] && forall j | 0 <= j < |msgs| :: msgs[j].Valid()
    ensures var n := |msgs| - 1;
            AllRoomy(msgs, unit) <==> AllRoomy(msgs[..n], unit) && (Numbered(msgs, unit, n) ==> Roomy(msgs[n], unit))
  {
    var n := |msgs| - 1;
    if AllRoomy(msgs, unit) {
      forall i | 0 <= i < n ensures Numbered(msgs[..n], unit, i) ==> Roomy(msgs[..n][i], unit) {
        NumberedBefore(msgs, unit, n, i);
      }
    }
    if AllRoomy(msgs[..n], unit) && (Numbered(msgs, unit, n) ==> Roomy(msgs[n], unit)) {
      forall i | 0 <= i < |msgs| ensures Numbered(msgs, unit, i) ==> Roomy(msgs[i], unit) {
        if i < n { NumberedBefore(msgs, unit, n, i); }
      }
    }
  }

  /** How many devices the endpoints lack to a full unit each. */
  function Missing(endpoints: seq<Endpoint>, unit: nat): int {
    if endpoints == [] then 0
    else Missing(endpoints[..|endpoints| - 1], unit) + unit - |endpoints[|endpoints| - 1].devices|
  }

  lemma {:induction false} MissingRanks(endpoints: seq<Endpoint>, unit: nat)
    ensures |Ranks(endpoints)| == |endpoints| * unit - Missing(endpoints, unit)
    decreases |endpoints|
  {
    if endpoints != [] {
      var n := |endpoints| - 1;
      MissingRanks(endpoints[..n], unit);
      assert |endpoints| * unit == n * unit + unit;
    }
  }

  lemma {:induction false} MissingAdds(a: seq<Endpoint>, b: seq<Endpoint>, unit: nat)
    ensures Missing(a + b, unit) == Missing(a, unit) + Missing(b, unit)
    decreases |b|
  {
    if b == [] {
      assert a + b == a;
    } else {
      assert (a + b)[..|a| + |b| - 1] == a + b[..|b| - 1];
      MissingAdds(a, b[..|b| - 1], unit);
    }
  }

  /** No endpoint has more than a unit of devices. */
  predicate AtMostUnit(endpoints: seq<Endpoint>, unit: nat) {
    forall k | 0 <= k < |endpoints| :: |endpoints[k].devices| <= unit
  }

  lemma {:induction false} NothingOver(endpoints: seq<Endpoint>, unit: nat)
    requires AtMostUnit(endpoints, unit)
    ensures Missing(endpoints, unit) >= 0
    decreases |endpoints|
  {
    if endpoints != [] { NothingOver(endpoints[..|endpoints| - 1], unit); }
  }

  lemma BuiltAtMost(msg: Msg, unit: nat, offset: nat)
    requires unit > 0 && msg.Valid()
    ensures AtMostUnit(Built(msg, unit, offset), unit)
    ensures Missing(Built(msg, unit, offset), unit) >= 0
    ensures !Roomy(msg, unit) ==> Missing(Built(msg, unit, offset), unit) > 0
  {
    var built := Built(msg, unit, offset);
    NothingOver(built, unit);
    if !Roomy(msg, unit) {
      assert built[..0] == [] && |built| == 1 && |built[0].devices| == msg.devices;
    }
  }

  lemma {:induction false} AllAtMost(msgs: seq<Msg>, unit: nat)
    requires unit > 0 && forall i | 0 <= i < |msgs| :: msgs[i].Valid()
    ensures AtMostUnit(Endpoints(RegisteredAll(msgs, unit)), unit)
    decreases |msgs|
  {
    if msgs != [] {
      var n := |msgs| - 1;
      AllAtMost(msgs[..n], unit);
      RegisteredLast(msgs, unit);
      BuiltAtMost(msgs[n], unit, Total(RegisteredAll(msgs[..n], unit)));
    }
  }

  lemma RegisteredLast(msgs: seq<Msg>, unit: nat)
    requires unit > 0 && msgs != [] && forall i | 0 <= i < |msgs| :: msgs[i].Valid()
    ensures var n := |msgs| - 1;
            var before := RegisteredAll(msgs[..n], unit);
            Endpoints(RegisteredAll(msgs, unit)) ==
            Endpoints(before) + if Numbered(msgs, unit, n) then Built(msgs[n], unit, Total(before)) else []
  {
    var n := |msgs| - 1;
    var before := RegisteredAll(msgs[..n], unit);
    if Numbered(msgs, unit, n) {
      var after := before + [Pod(msgs[n].ip, Built(msgs[n], unit, Total(before)))];
      assert after[..|before|] == before;
    }
  }

  lemma BeforeIsNotOver(msgs: seq<Msg>, unit: nat)
    requires unit > 0 && forall i | 0 <= i < |msgs| :: msgs[i].Valid()
    ensures Missing(Endpoints(RegisteredAll(msgs, unit)), unit) >= 0
  {
    AllAtMost(msgs, unit);
    NothingOver(Endpoints(RegisteredAll(msgs, unit)), unit);
  }

  lemma MissingWithPod(pods: seq<Pod>, msg: Msg, unit: nat)
    requires unit > 0 && msg.Valid()
    ensures var before := Missing(Endpoints(pods), unit);
            var after := Missing(Endpoints(Registered(pods, msg, unit)), unit);
            before <= after && (!HasPod(pods, msg.ip) && !Roomy(msg, unit) ==> before < after)
  {
    if !HasPod(pods, msg.ip) {
      var built := Built(msg, unit, Total(pods));
      var after := pods + [Pod(msg.ip, built)];
      assert after[..|pods|] == pods;
      assert Endpoints(after) == Endpoints(pods) + built;
      BuiltAtMost(msg, unit, Total(pods));
      MissingAdds(Endpoints(pods), built, unit);
    }
  }

  lemma MissingLast(msgs: seq<Msg>, unit: nat)
    requires unit > 0 && msgs != [] && forall i | 0 <= i < |msgs| :: msgs[i].Valid()
    ensures var n := |msgs| - 1;
            var before := Missing(Endpoints(RegisteredAll(msgs[..n], unit)), unit);
            var after := Missing(Endpoints(RegisteredAll(msgs, unit)), unit);
            && 0 <= before <= after
            && (Numbered(msgs, unit, n) && !Roomy(msgs[n], unit) ==> before < after)
  {
    var n := |msgs| - 1;
    BeforeIsNotOver(msgs[..n], unit);
    MissingWithPod(RegisteredAll(msgs[..n], unit), msgs[n], unit);
  }

  /** A pod that is not roomy makes the ranks too few for good. */
  lemma {:induction false} ShortPodLeavesGap(msgs: seq<Msg>, unit: nat)
    requires unit > 0 && forall i | 0 <= i < |msgs| :: msgs[i].Valid()
    requires !AllRoomy(msgs, unit)
    ensures Missing(Endpoints(RegisteredAll(msgs, unit)), unit) > 0
    decreases |msgs|
  {
    MissingLast(msgs, unit);
    if AllRoomy(msgs[..|msgs| - 1], unit) {
      AllRoomyBefore(msgs, unit);
    } else {
      ShortPodLeavesGap(msgs[..|msgs| - 1], unit);
    }
  }

  /**
   After any sequence of registrations: endpoint ids are exactly 0..n-1, each once; and the global ranks
   are exactly 0..n*unit-1, each once, if and only if every pod that gets numbered brings a full unit of
   devices for each endpoint.
   */
  lemma NumbersAreUsedOnce(msgs: seq<Msg>, unit: nat)
    requires unit > 0 && forall i | 0 <= i < |msgs| :: msgs[i].Valid()
    ensures Counted(Endpoints(RegisteredAll(msgs, unit)))
    ensures RanksFull(Endpoints(RegisteredAll(msgs, unit)), unit) <==> AllRoomy(msgs, unit)
  {
    IdsCount(msgs, unit);
    if AllRoomy(msgs, unit) {
      RanksCount(msgs, unit);
      RankedRanks(Endpoints(RegisteredAll(msgs, unit)), unit);
    } else {
      ShortPodLeavesGap(msgs, unit);
      MissingRanks(Endpoints(RegisteredAll(msgs, unit)), unit);
    }
  }

  /** Within a pod of several endpoints the devices are disjoint slices of the pod's own devices. */
  lemma SlicesOfThePod(msg: Msg, unit: nat, offset: nat, i: nat, j: nat)
    requires unit > 0 && msg.Valid() && msg.multi && i < Count(msg, unit) && j < unit
    ensures var e := Built(msg, unit, offset)[i];
            && |e.devices| == unit && e.devices[j].local == i * unit + j < msg.devices
            && e.devices[j].local / unit == i && e.devices[j].local % unit == j
  {
    CountFits(msg, unit);
    MultiplyGrows(i + 1, Count(msg, unit), unit);
    assert (i + 1) * unit == i * unit + unit;
    QuotientOf(i, j, unit);
  }

  lemma QuotientOf(i: nat, j: nat, unit: nat)
    requires j < unit
    ensures (i * unit + j) / unit == i && (i * unit + j) % unit == j
  {
    var n := i * unit + j;
    var q, r := n / unit, n % unit;
    assert n == q * unit + r;
    if q < i { MultiplyGrows(q + 1, i, unit); }
    if q > i { MultiplyGrows(i + 1, q, unit); }
  }

  // ---------------------------------------------------------------------------------------------
  // Ports
  // ---------------------------------------------------------------------------------------------

  /** The pod's endpoints have the address and, in order, the ports of the message. */
  predicate PortsOf(p: Pod, msg: Msg) {
    && p.ip == msg.ip && |p.endpoints| <= |msg.business| && |msg.mgmt| == |msg.business|
    && forall i | 0 <= i < |p.endpoints| ::
         p.endpoints[i].ip == msg.ip && p.endpoints[i].business == msg.business[i] && p.endpoints[i].mgmt == msg.mgmt[i]
  }

  /** The first message about a pod, which is the one that counts. */
  predicate FirstAbout(msgs: seq<Msg>, ip: string, i: nat) {
    i < |msgs| && msgs[i].ip == ip && forall j | 0 <= j < i :: msgs[j].ip != ip
  }

  lemma {:induction false} PodsAreNamed(msgs: seq<Msg>, unit: nat, ip: string)
    requires unit > 0 && forall i | 0 <= i < |msgs| :: msgs[i].Valid()
    ensures HasPod(RegisteredAll(msgs, unit), ip) <==> exists i :: 0 <= i < |msgs| && msgs[i].ip == ip
    decreases |msgs|
  {
    if msgs != [] {
      var n := |msgs| - 1;
      var before := RegisteredAll(msgs[..n], unit);
      PodsAreNamed(msgs[..n], unit, ip);
      if i :| 0 <= i < n && msgs[i].ip == ip { assert msgs[..n][i].ip == ip; }
      if !HasPod(before, msgs[n].ip) {
        var last := Pod(msgs[n].ip, Built(msgs[n], unit, Total(before)));
        assert (before + [last])[|before|] == last;
        if i :| 0 <= i < |before| && before[i].ip == ip { assert (before + [last])[i].ip == ip; }
      }
    }
  }

  /** There is a pod of that address, and any such pod has the ports of the message. */
  predicate HasPorts(pods: seq<Pod>, msg: Msg) {
    HasPod(pods, msg.ip) && forall k | 0 <= k < |pods| && pods[k].ip == msg.ip :: PortsOf(pods[k], msg)
  }

  lemma RegisteredKeepsPorts(pods: seq<Pod>, next: Msg, unit: nat, msg: Msg)
    requires unit > 0 && next.Valid() && HasPorts(pods, msg)
    ensures HasPorts(Registered(pods, next, unit), msg)
  {
    var after := Registered(pods, next, unit);
    var k :| 0 <= k < |pods| && pods[k].ip == msg.ip;
    assert after[k] == pods[k];
  }

  lemma RegisteredBringsPorts(pods: seq<Pod>, msg: Msg, unit: nat)
    requires unit > 0 && msg.Valid() && !HasPod(pods, msg.ip)
    ensures HasPorts(Registered(pods, msg, unit), msg)
  {
    var last := Pod(msg.ip, Built(msg, unit, Total(pods)));
    CountFits(msg, unit);
    assert PortsOf(last, msg);
    assert (pods + [last])[|pods|] == last;
    NotBefore(pods, msg.ip);
  }

  lemma NotBefore(pods: seq<Pod>, ip: string)
    requires !HasPod(pods, ip)
    ensures forall k | 0 <= k < |pods| :: pods[k].ip != ip
  {
  }

  /**
   After any registrations, the pod of every message is there with the ports of the first message about
   it: each endpoint has the business and the management port of its place in that message.
   */
  lemma {:induction false} PortsComeFromFirst(msgs: seq<Msg>, unit: nat, i: nat)
    requires unit > 0 && forall j | 0 <= j < |msgs| :: msgs[j].Valid()
    requires i < |msgs| && FirstAbout(msgs, msgs[i].ip, i)
    ensures HasPorts(RegisteredAll(msgs, unit), msgs[i])
    decreases |msgs|
  {
    var n := |msgs| - 1;
    var before := RegisteredAll(msgs[..n], unit);
    if i < n {
      assert msgs[..n][i] == msgs[i];
      PortsComeFromFirst(msgs[..n], unit, i);
      RegisteredKeepsPorts(before, msgs[n], unit, msgs[i]);
    } else {
      PodsAreNamed(msgs[..n], unit, msgs[n].ip);
      RegisteredBringsPorts(before, msgs[n], unit);
    }
  }

  /** A pod that lacks devices gets as many endpoints as they allow: one more would not fit. */
  lemma CountIsLargest(msg: Msg, unit: nat)
    requires unit > 0 && msg.Valid() && msg.multi
    ensures Count(msg, unit) <= |msg.business| && Count(msg, unit) * unit <= msg.devices
    ensures Count(msg, unit) == |msg.business| || (Count(msg, unit) + 1) * unit > msg.devices
  {
    CountFits(msg, unit);
    var q := msg.devices / unit;
    assert (q + 1) * unit == q * unit + unit;
  }
}
