/**
 Placing all prefill and decode instances of a cluster in one container: device ranges, node-manager
 ports and endpoint ports as offsets of the instance's role and index.
 */
module Tiling {
  import opened Prelude

  datatype Parallel = Parallel(dp: nat, tp: nat, pp: nat) {
    predicate Positive() { dp > 0 && tp > 0 && pp > 0 }

    function Devices(): nat { dp * tp * pp }
  }

  datatype Cluster = Cluster(np: nat, nd: nat, p: Parallel, d: Parallel) {
    predicate Positive() { p.Positive() && d.Positive() }
  }

  /** An instance of the cluster; anything that is not prefill counts as decode. */
  datatype Which = Prefiller(index: nat) | Decoder(index: nat)

  datatype Placement = Placement(managerPort: nat, basePort: nat, device: nat, devices: nat, rpcPort: nat)

  function Place(c: Cluster, w: Which): Placement {
    match w
    case Prefiller(i) =>
      Placement(i, i * c.d.dp * 2, i * c.p.Devices(), c.p.Devices(), i)
    case Decoder(i) =>
      Placement(c.np * c.p.dp + i,
                (c.np * c.p.dp + i * c.d.dp) * 2,
                c.np * c.p.Devices() + i * c.d.Devices(),
                c.d.Devices(),
                c.np + i)
  }

  predicate Exists(c: Cluster, w: Which) {
    match w
    case Prefiller(i) => i < c.np
    case Decoder(i) => i < c.nd
  }

  function Width(c: Cluster, w: Which): nat {
    match w
    case Prefiller(_) => c.p.dp
    case Decoder(_) => c.d.dp
  }

  lemma Below(a: nat, b: nat, unit: nat)
    requires a < b
    ensures a * unit + unit <= b * unit
  {
    var k := b - (a + 1);
    Distributes(a + 1, k, unit);
    Distributes(a, 1, unit);
    assert k * unit >= 0;
  }

  lemma Distributes(a: nat, b: nat, unit: nat)
    ensures (a + b) * unit == a * unit + b * unit
  {
  }

  // ---------------------------------------------------------------------------------------------
  // Devices
  // ---------------------------------------------------------------------------------------------

  function AllDevices(c: Cluster): nat {
    c.np * c.p.Devices() + c.nd * c.d.Devices()
  }

  predicate Uses(c: Cluster, w: Which, x: nat) {
    var at := Place(c, w);
    at.device <= x < at.device + at.devices
  }

  /** The instance that uses a device. */
  function UserOf(c: Cluster, x: nat): Which
    requires c.p.Devices() > 0 && c.d.Devices() > 0
  {
    var split := c.np * c.p.Devices();
    if x < split then Prefiller(x / c.p.Devices()) else Decoder((x - split) / c.d.Devices())
  }

  lemma PositiveDevices(q: Parallel)
    requires q.Positive()
    ensures q.Devices() > 0
  {
    assert q.dp * q.tp > 0;
  }

  lemma RangeOf(x: nat, n: nat, unit: nat)
    requires unit > 0
    ensures x < n * unit <==> x / unit < n
    ensures x / unit * unit <= x < x / unit * unit + unit
  {
    var q := x / unit;
    if q < n { Below(q, n, unit); }
    if q >= n && q > n { Below(n, q, unit); }
  }

  lemma SliceIndex(i: nat, x: nat, unit: nat)
    requires unit > 0
    ensures i * unit <= x < i * unit + unit <==> x / unit == i
  {
    RangeOf(x, i, unit);
    var q := x / unit;
    if q < i { Below(q, i, unit); }
    if q > i { Below(i, q, unit); }
  }

  /**
   Every device of the initial interval is used by exactly one instance, and none beyond it by any.
   */
  lemma DevicesTile(c: Cluster, w: Which, x: nat)
    requires c.Positive() && Exists(c, w)
    ensures c.p.Devices() > 0 && c.d.Devices() > 0
    ensures Uses(c, w, x) <==> x < AllDevices(c) && w == UserOf(c, x)
    ensures x < AllDevices(c) ==> Exists(c, UserOf(c, x))
  {
    PositiveDevices(c.p);
    PositiveDevices(c.d);
    UserExists(c, x);
    match w
    case Prefiller(i) => SliceTiles(0, i, c.np, c.p.Devices(), x);
    case Decoder(i) => SliceTiles(c.np * c.p.Devices(), i, c.nd, c.d.Devices(), x);
  }

  /** A slice of a row of equal slices holds a number exactly if its index is the quotient. */
  lemma SliceTiles(base: nat, i: nat, n: nat, unit: nat, x: nat)
    requires unit > 0 && i < n
    ensures base + i * unit <= x < base + i * unit + unit <==> base <= x < base + n * unit && (x - base) / unit == i
  {
    Below(i, n, unit);
    if x >= base { SliceIndex(i, x - base, unit); }
  }

  lemma UserExists(c: Cluster, x: nat)
    requires c.p.Devices() > 0 && c.d.Devices() > 0
    ensures x < AllDevices(c) <==> Exists(c, UserOf(c, x))
  {
    var split := c.np * c.p.Devices();
    if x < split {
      RangeOf(x, c.np, c.p.Devices());
    } else {
      RangeOf(x - split, c.nd, c.d.Devices());
    }
  }

  // ---------------------------------------------------------------------------------------------
  // Node-manager and RPC ports
  // ---------------------------------------------------------------------------------------------

  lemma ManagerPortsDiffer(c: Cluster, v: Which, w: Which)
    requires c.Positive() && Exists(c, v) && Exists(c, w)
    ensures Place(c, v).managerPort == Place(c, w).managerPort <==> v == w
    ensures Place(c, v).rpcPort == Place(c, w).rpcPort <==> v == w
  {
    AtLeast(c.np, c.p.dp);
  }

  lemma AtLeast(n: nat, unit: nat)
    requires unit > 0
    ensures n <= n * unit
  {
    assert n * (unit - 1) >= 0;
  }

  // ---------------------------------------------------------------------------------------------
  // Endpoint ports
  // ---------------------------------------------------------------------------------------------

  /** The service and management ports of an instance: a pair for each endpoint it may have. */
  predicate Window(c: Cluster, w: Which, port: nat) {
    Place(c, w).basePort <= port < Place(c, w).basePort + 2 * Width(c, w)
  }

  ghost predicate PortsDisjoint(c: Cluster) {
    forall v, w, port :: Exists(c, v) && Exists(c, w) && Window(c, v, port) && Window(c, w, port) ==> v == w
  }

  /** What the number of instances and the sizes must satisfy. */
  predicate PortsFit(c: Cluster) {
    c.np <= 1 || c.p.dp == c.d.dp || (c.nd == 0 && c.d.dp >= c.p.dp)
  }

  lemma DecodeWindowsFit(c: Cluster, v: Which, w: Which, port: nat)
    requires Exists(c, v) && Exists(c, w) && v.Decoder? && w.Decoder?
    requires Window(c, v, port) && Window(c, w, port)
    ensures v == w
  {
    if v.index < w.index { Below(v.index, w.index, c.d.dp); }
    if w.index < v.index { Below(w.index, v.index, c.d.dp); }
  }

  lemma PrefillWindowsFit(c: Cluster, v: Which, w: Which, port: nat)
    requires Exists(c, v) && Exists(c, w) && v.Prefiller? && w.Prefiller?
    requires PortsFit(c) && Window(c, v, port) && Window(c, w, port)
    ensures v == w
  {
    if v.index < w.index { Below(v.index, w.index, c.d.dp); }
    if w.index < v.index { Below(w.index, v.index, c.d.dp); }
  }

  lemma MixedWindowsFit(c: Cluster, v: Which, w: Which, port: nat)
    requires c.Positive() && Exists(c, v) && Exists(c, w) && v.Prefiller? && w.Decoder?
    requires PortsFit(c) && Window(c, v, port)
    ensures !Window(c, w, port)
  {
    if c.np == 1 {
      assert v.index == 0 && 0 * c.d.dp == 0 && c.np * c.p.dp == c.p.dp;
    } else {
      Below(v.index, c.np, c.p.dp);
    }
    assert w.index * c.d.dp >= 0;
  }

  /**
   Endpoint ports of different instances never overlap exactly if there is at most one prefill instance,
   or both roles have the same data-parallel size, or there are only prefill instances and the decode
   size is the larger: the offset of a prefill instance is computed with the decode size.
   */
  lemma PortsDisjointIff(c: Cluster)
    requires c.Positive()
    ensures PortsDisjoint(c) <==> PortsFit(c)
  {
    if PortsFit(c) {
      forall v, w, port | Exists(c, v) && Exists(c, w) && Window(c, v, port) && Window(c, w, port) ensures v == w {
        if v.Decoder? && w.Decoder? { DecodeWindowsFit(c, v, w, port); }
        else if v.Prefiller? && w.Prefiller? { PrefillWindowsFit(c, v, w, port); }
        else if v.Prefiller? { MixedWindowsFit(c, v, w, port); }
        else { MixedWindowsFit(c, w, v, port); }
      }
    } else if c.d.dp < c.p.dp {
      var v, w, port := Prefiller(0), Prefiller(1), c.d.dp * 2;
      assert 0 * c.d.dp == 0 && 1 * c.d.dp == c.d.dp;
      assert Window(c, v, port) && Window(c, w, port);
    } else {
      LastPrefillRunsOver(c);
    }
  }

  /** With a larger decode size the windows of the prefill instances reach into the decode ports. */
  lemma LastPrefillRunsOver(c: Cluster)
    requires c.Positive() && c.np >= 2 && c.nd > 0 && c.d.dp > c.p.dp
    ensures !PortsDisjoint(c)
  {
    var start := c.np * c.p.dp;
    var i := start / c.d.dp;
    ScalesStrictly(c.p.dp, c.d.dp, c.np);
    RangeOf(start, c.np, c.d.dp);
    Distributes(i, 1, c.d.dp);
    assert 0 * c.d.dp == 0;
    if start >= i * c.d.dp + c.p.dp && i + 1 == c.np {
      LastIsFar(c, i);
    }
    var v, port := if start < i * c.d.dp + c.p.dp then Prefiller(i) else Prefiller(i + 1),
                   if start < i * c.d.dp + c.p.dp then start * 2 else (i + 1) * c.d.dp * 2;
    Overlap(c, v, Decoder(0), port);
  }

  lemma Overlap(c: Cluster, v: Which, w: Which, port: nat)
    requires Exists(c, v) && Exists(c, w) && v != w && Window(c, v, port) && Window(c, w, port)
    ensures !PortsDisjoint(c)
  {
  }

  lemma ScalesStrictly(a: nat, b: nat, n: nat)
    requires a < b && n > 0
    ensures n * a < n * b
  {
    assert n * (b - a) > 0;
    assert n * (b - a) == n * b - n * a;
  }

  lemma LastIsFar(c: Cluster, i: nat)
    requires c.np >= 2 && c.d.dp > c.p.dp && i + 1 == c.np
    ensures c.np * c.p.dp < i * c.d.dp + c.p.dp
  {
    ScalesStrictly(c.p.dp, c.d.dp, i);
    assert (i + 1) * c.p.dp == i * c.p.dp + c.p.dp;
  }

  // ---------------------------------------------------------------------------------------------
  // The ports of one instance
  // ---------------------------------------------------------------------------------------------

  /** The number of endpoints of a node, or nothing for a configuration that is refused. */
  function EndpointNum(q: Parallel, deviceNum: nat, multi: bool): Option<nat>
    requires q.tp > 0 && q.pp > 0
  {
    if (multi && deviceNum < q.tp * q.pp) || q.dp < 1 then None
    else if !multi then Some(1)
    else
      assert q.tp * q.pp > 0;
      var fit := deviceNum / (q.tp * q.pp);
      Some(if q.dp <= fit then q.dp else fit)
  }

  method GenerateEndpointPorts(q: Parallel, base: nat, deviceNum: nat, multi: bool)
    returns (ports: Option<(seq<nat>, seq<nat>)>)
    requires q.tp > 0 && q.pp > 0
    ensures ports.Some? <==> EndpointNum(q, deviceNum, multi).Some?
    ensures ports.Some? ==>
      var (service, mgmt) := ports.value;
      && |service| == |mgmt| == EndpointNum(q, deviceNum, multi).value
      && forall i | 0 <= i < |service| :: service[i] == base + i * 2 && mgmt[i] == base + i * 2 + 1
  {
    var n := EndpointNum(q, deviceNum, multi);
    if n == None {
      return None;
    }
    var service := seq(n.value, i => base + i * 2);
    var mgmt := seq(n.value, i => base + i * 2 + 1);
    ports := Some((service, mgmt));
  }

  /** At least one endpoint, and all ports inside the window of the instance. */
  lemma PortsInWindow(c: Cluster, w: Which, deviceNum: nat, multi: bool, i: nat)
    requires c.Positive() && Exists(c, w)
    requires var q := if w.Prefiller? then c.p else c.d;
             var n := EndpointNum(q, deviceNum, multi); n.Some? && i < n.value
    ensures Window(c, w, Place(c, w).basePort + i * 2) && Window(c, w, Place(c, w).basePort + i * 2 + 1)
  {
  }

  // ---------------------------------------------------------------------------------------------
  // The layout
  // ---------------------------------------------------------------------------------------------

  /** The next instance of the same role starts where this one's devices end; decoding follows prefill. */
  lemma NeighboursTouch(c: Cluster, i: nat)
    ensures Place(c, Prefiller(i + 1)).device == Place(c, Prefiller(i)).device + Place(c, Prefiller(i)).devices
    ensures Place(c, Decoder(i + 1)).device == Place(c, Decoder(i)).device + Place(c, Decoder(i)).devices
    ensures Place(c, Prefiller(0)).device == 0 && Place(c, Decoder(0)).device == Place(c, Prefiller(c.np)).device
    ensures Place(c, Prefiller(i)).devices == c.p.dp * c.p.tp * c.p.pp && Place(c, Decoder(i)).devices == c.d.dp * c.d.tp * c.d.pp
  {
    Distributes(i, 1, c.p.Devices());
    Distributes(i, 1, c.d.Devices());
  }

  /** Node-manager and RPC ports go up by one from instance to instance. */
  lemma PortsCountUp(c: Cluster, i: nat)
    ensures Place(c, Prefiller(i)).managerPort == i && Place(c, Prefiller(i)).rpcPort == i
    ensures Place(c, Decoder(i)).rpcPort == Place(c, Prefiller(c.np)).rpcPort + i
    ensures Place(c, Decoder(i)).managerPort == Place(c, Decoder(0)).managerPort + i
    ensures Place(c, Decoder(0)).managerPort == c.np * c.p.dp
  {
  }

  /** A node is refused without devices for one endpoint of many or without data parallelism. */
  lemma RefusedIff(q: Parallel, deviceNum: nat, multi: bool)
    requires q.tp > 0 && q.pp > 0
    ensures EndpointNum(q, deviceNum, multi) == None <==> q.dp == 0 || (multi && deviceNum < q.tp * q.pp)
  {
  }

  /** It has one endpoint, or as many as its devices allow, up to the data-parallel size. */
  lemma EndpointNumIsLargest(q: Parallel, deviceNum: nat, multi: bool)
    requires q.tp > 0 && q.pp > 0 && EndpointNum(q, deviceNum, multi).Some?
    ensures var n := EndpointNum(q, deviceNum, multi).value;
            && 1 <= n <= q.dp
            && (!multi ==> n == 1)
            && (multi ==> n * (q.tp * q.pp) <= deviceNum && (n == q.dp || deviceNum < (n + 1) * (q.tp * q.pp)))
  {
    var unit := q.tp * q.pp;
    assert unit > 0;
    if multi {
      var fit := deviceNum / unit;
      RangeOf(deviceNum, fit, unit);
      Distributes(fit, 1, unit);
      if q.dp < fit { Below(q.dp, fit, unit); }
    }
  }
}
