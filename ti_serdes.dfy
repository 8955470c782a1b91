// Which data bit reaches which serializer input, and which DDR input
// register output drives which sample bit, in the TI DAC and ADC front ends
// of library/ti_data.py. Only the routing is modelled: the vendor primitives'
// parameters and clocking are not.

module TiSerdes {

  /** The signals whose bits are routed. */
  datatype Sig =
    | Mi | Mq | MqD                    // DAC: multiplexed I and Q, Q one cycle late
    | Mi0 | Mq0 | Mi1 | Mq1 | Mq1D     // DAC2X: both sample pairs, Q1 one cycle late
    | Fr                               // the frame word
    | A | B                            // ADC: the two sample fields of the token

  /** Bit `index` of a signal. */
  datatype Bit = Bit(sig: Sig, index: nat)

  /** The serializer a data input belongs to: a lone 4:1 OSERDES2, or the
      master or the slave of a cascaded 8:1 pair. */
  datatype Unit = Single | Master | Slave

  /** Data input D1..D4 of a serializer. */
  datatype Port = D(unit: Unit, n: nat)

  /** One data input and the bit it receives. */
  datatype Connection = Connection(port: Port, bit: Bit)

  /** The input list index a 4:1 serializer port takes its bit from. */
  function Input4(p: Port): int
  {
    p.n - 1
  }

  /** The input list index an 8:1 serializer pair port takes its bit from:
      the master serializes the upper four inputs, the slave the lower four. */
  function Input8(p: Port): int
  {
    if p.unit == Master then p.n + 3 else p.n - 1
  }

  /** A valid data input of a serializer made of the given units. */
  predicate ValidPort(p: Port, units: set<Unit>)
  {
    p.unit in units && 1 <= p.n <= 4
  }

  /** The data inputs of a 4:1 serializer: inputs[k] goes to D(k+1). */
  function Serialize4(inputs: seq<Bit>): (cs: seq<Connection>)
    requires |inputs| == 4
    ensures |cs| == 4
    ensures forall m :: 0 <= m < 4 ==> ValidPort(cs[m].port, {Single}) && cs[m].bit == inputs[Input4(cs[m].port)]
  {
    [Connection(D(Single, 4), inputs[3]),
     Connection(D(Single, 3), inputs[2]),
     Connection(D(Single, 2), inputs[1]),
     Connection(D(Single, 1), inputs[0])]
  }

  /** The data inputs of a cascaded 8:1 serializer pair: inputs[7..4] go to
      the master's D4..D1, inputs[3..0] to the slave's D4..D1. */
  function Serialize8(inputs: seq<Bit>): (cs: seq<Connection>)
    requires |inputs| == 8
    ensures |cs| == 8
    ensures forall m :: 0 <= m < 8 ==> ValidPort(cs[m].port, {Master, Slave}) && cs[m].bit == inputs[Input8(cs[m].port)]
  {
    [Connection(D(Master, 4), inputs[7]),
     Connection(D(Master, 3), inputs[6]),
     Connection(D(Master, 2), inputs[5]),
     Connection(D(Master, 1), inputs[4]),
     Connection(D(Slave, 4), inputs[3]),
     Connection(D(Slave, 3), inputs[2]),
     Connection(D(Slave, 2), inputs[1]),
     Connection(D(Slave, 1), inputs[0])]
  }

  /** Every input of a 4:1 serializer is sent exactly once: the ports are
      distinct and each input index has its port. */
  lemma Serialize4Bijective(inputs: seq<Bit>)
    requires |inputs| == 4
    ensures forall m1, m2 :: 0 <= m1 < m2 < 4 ==> Serialize4(inputs)[m1].port != Serialize4(inputs)[m2].port
    ensures forall k :: 0 <= k < 4 ==> Connection(D(Single, k + 1), inputs[k]) in Serialize4(inputs)
  {
    var cs := Serialize4(inputs);
    forall m1, m2 | 0 <= m1 < m2 < 4
      ensures cs[m1].port != cs[m2].port
    {
      Serialize4At(inputs, m1);
      Serialize4At(inputs, m2);
    }
    forall k | 0 <= k < 4
      ensures Connection(D(Single, k + 1), inputs[k]) in cs
    {
      Serialize4At(inputs, 3 - k);
    }
  }

  /** Connection m of a 4:1 serializer: port D(4-m) takes input 3-m. */
  lemma Serialize4At(inputs: seq<Bit>, m: nat)
    requires |inputs| == 4 && m < 4
    ensures Serialize4(inputs)[m] == Connection(D(Single, 4 - m), inputs[3 - m])
  {
  }

  /** Connection m of an 8:1 serializer pair: the master's ports come first,
      from D4 down, then the slave's; connection m takes input 7-m. */
  lemma Serialize8At(inputs: seq<Bit>, m: nat)
    requires |inputs| == 8 && m < 8
    ensures Serialize8(inputs)[m] == Connection(if m < 4 then D(Master, 4 - m) else D(Slave, 8 - m), inputs[7 - m])
  {
  }

  /** Every input of an 8:1 serializer pair is sent exactly once. */
  lemma Serialize8Bijective(inputs: seq<Bit>)
    requires |inputs| == 8
    ensures forall m1, m2 :: 0 <= m1 < m2 < 8 ==> Serialize8(inputs)[m1].port != Serialize8(inputs)[m2].port
    ensures forall k :: 4 <= k < 8 ==> Connection(D(Master, k - 3), inputs[k]) in Serialize8(inputs)
    ensures forall k :: 0 <= k < 4 ==> Connection(D(Slave, k + 1), inputs[k]) in Serialize8(inputs)
  {
    var cs := Serialize8(inputs);
    forall m1, m2 | 0 <= m1 < m2 < 8
      ensures cs[m1].port != cs[m2].port
    {
      Serialize8At(inputs, m1);
      Serialize8At(inputs, m2);
    }
    forall k | 4 <= k < 8
      ensures Connection(D(Master, k - 3), inputs[k]) in cs
    {
      Serialize8At(inputs, 7 - k);
    }
    forall k | 0 <= k < 4
      ensures Connection(D(Slave, k + 1), inputs[k]) in cs
    {
      Serialize8At(inputs, 7 - k);
    }
  }

  // ---------------------------------------------------------------------
  // DAC and DAC2X output lanes
  // ---------------------------------------------------------------------

  /** The single-rate DAC (4:1 serializers) or the double-rate one (8:1). */
  datatype Variant = Dac | Dac2x

  /** Bits serialized per lane and sample clock. */
  function Ratio(v: Variant): nat
  {
    if v == Dac then 4 else 8
  }

  /** A serializer's output pair: data lane i, or the frame lane. */
  datatype Lane = DataLane(i: nat) | FrameLane

  /** One serializer data input, on its lane, and the bit it sends. */
  datatype Wire = Wire(lane: Lane, port: Port, bit: Bit)

  /** The serializer inputs of data lane i of a DAC with dw lanes. */
  function LaneInputs(v: Variant, dw: nat, i: nat): (bs: seq<Bit>)
    ensures |bs| == Ratio(v)
  {
    if v == Dac then
      [Bit(MqD, i), Bit(Mi, dw + i), Bit(Mi, i), Bit(Mq, dw + i)]
    else
      [Bit(Mq1D, i), Bit(Mi0, dw + i), Bit(Mi0, i), Bit(Mq0, dw + i),
       Bit(Mq0, i), Bit(Mi1, dw + i), Bit(Mi1, i), Bit(Mq1, dw + i)]
  }

  /** The serializer inputs of the frame lane: the frame word, top bit first. */
  function FrameInputs(v: Variant): (bs: seq<Bit>)
    ensures |bs| == Ratio(v)
  {
    if v == Dac then [Bit(Fr, 3), Bit(Fr, 2), Bit(Fr, 1), Bit(Fr, 0)]
    else [Bit(Fr, 7), Bit(Fr, 6), Bit(Fr, 5), Bit(Fr, 4), Bit(Fr, 3), Bit(Fr, 2), Bit(Fr, 1), Bit(Fr, 0)]
  }

  /** The port of connection m of a lane's serializer: D4 down to D1, the
      master's before the slave's. */
  function PortAt(v: Variant, m: nat): Port
    requires m < Ratio(v)
  {
    if v == Dac then D(Single, 4 - m) else if m < 4 then D(Master, 4 - m) else D(Slave, 8 - m)
  }

  /** The connections of a lane's serializer, position by position:
      connection m sends input r-1-m from PortAt(m). */
  function Serialize(v: Variant, inputs: seq<Bit>): (cs: seq<Connection>)
    requires |inputs| == Ratio(v)
    ensures |cs| == Ratio(v)
  {
    seq(Ratio(v), m requires 0 <= m < Ratio(v) => Connection(PortAt(v, m), inputs[Ratio(v) - 1 - m]))
  }

  /** Serialize lists the connections of the variant's primitive. */
  lemma SerializePrimitive(v: Variant, inputs: seq<Bit>)
    requires |inputs| == Ratio(v)
    ensures Serialize(v, inputs) == if v == Dac then Serialize4(inputs) else Serialize8(inputs)
  {
    var cs := if v == Dac then Serialize4(inputs) else Serialize8(inputs);
    forall m | 0 <= m < Ratio(v)
      ensures Serialize(v, inputs)[m] == cs[m]
    {
      if v == Dac {
        Serialize4At(inputs, m);
      } else {
        Serialize8At(inputs, m);
      }
    }
  }

  /** The connections of one serializer, placed on a lane. */
  function OnLane(cs: seq<Connection>, lane: Lane): (ws: seq<Wire>)
    ensures |ws| == |cs|
    ensures forall m :: 0 <= m < |cs| ==> ws[m] == Wire(lane, cs[m].port, cs[m].bit)
  {
    seq(|cs|, m requires 0 <= m < |cs| => Wire(lane, cs[m].port, cs[m].bit))
  }

  /** Lists laid end to end, in order. */
  function Flatten<T>(ss: seq<seq<T>>): seq<T>
  {
    if ss == [] then [] else Flatten(ss[..|ss| - 1]) + ss[|ss| - 1]
  }

  /** n lists of length r hold r * n elements. */
  lemma {:induction false} FlattenLength<T>(ss: seq<seq<T>>, r: nat)
    requires forall i :: 0 <= i < |ss| ==> |ss[i]| == r
    ensures |Flatten(ss)| == r * |ss|
  {
    if ss != [] {
      var prev := ss[..|ss| - 1];
      FlattenLength(prev, r);
      assert r * |ss| == r * |prev| + r;
    }
  }

  /** An element of one of the lists is an element of the flattened list,
      and only those are. */
  lemma {:induction false} InFlatten<T>(ss: seq<seq<T>>, x: T)
    ensures x in Flatten(ss) <==> exists i :: 0 <= i < |ss| && x in ss[i]
  {
    if ss != [] {
      var prev := ss[..|ss| - 1];
      InFlatten(prev, x);
      if x in Flatten(prev) {
        var i :| 0 <= i < |prev| && x in prev[i];
        assert x in ss[i];
      }
      if x in ss[|ss| - 1] {
        assert 0 <= |ss| - 1 < |ss|;
      }
      if exists i :: 0 <= i < |ss| && x in ss[i] {
        var i :| 0 <= i < |ss| && x in ss[i];
        if i < |prev| {
          assert x in prev[i];
        }
      }
    }
  }

  /** The wires of data lane i. */
  function LaneWires(v: Variant, dw: nat, i: nat): (ws: seq<Wire>)
    ensures |ws| == Ratio(v)
  {
    OnLane(Serialize(v, LaneInputs(v, dw, i)), DataLane(i))
  }

  /** The wires of data lanes 0..n-1, lane after lane. */
  function DataLanes(v: Variant, dw: nat, n: nat): seq<Wire>
  {
    Flatten(LaneList(v, dw, n))
  }

  /** The wire lists of data lanes 0..n-1. */
  function LaneList(v: Variant, dw: nat, n: nat): (ss: seq<seq<Wire>>)
    ensures |ss| == n && forall i :: 0 <= i < n ==> ss[i] == LaneWires(v, dw, i)
  {
    seq(n, i requires 0 <= i < n => LaneWires(v, dw, i))
  }

  /** The wires of the frame lane. */
  function FrameWires(v: Variant): (ws: seq<Wire>)
    ensures |ws| == Ratio(v)
  {
    OnLane(Serialize(v, FrameInputs(v)), FrameLane)
  }

  /** All serializer wires of a DAC with dw lanes: the data lanes, then the
      frame lane. */
  function Wiring(v: Variant, dw: nat): seq<Wire>
  {
    DataLanes(v, dw, dw) + FrameWires(v)
  }

  /** One more data lane appends its wires. */
  lemma DataLanesSnoc(v: Variant, dw: nat, i: nat)
    ensures DataLanes(v, dw, i + 1) == DataLanes(v, dw, i) + LaneWires(v, dw, i)
  {
    var ss := LaneList(v, dw, i + 1);
    assert ss[..i] == LaneList(v, dw, i);
  }

  /** Instantiates the serializers of a single-rate DAC with dw lanes. */
  method DacWiring(dw: nat) returns (inst: seq<Wire>)
    ensures inst == Wiring(Dac, dw)
  {
    inst := [];
    for i := 0 to dw
      invariant inst == DataLanes(Dac, dw, i)
    {
      DataLanesSnoc(Dac, dw, i);
      SerializePrimitive(Dac, LaneInputs(Dac, dw, i));
      inst := inst + OnLane(Serialize4([Bit(MqD, i), Bit(Mi, dw + i), Bit(Mi, i), Bit(Mq, dw + i)]), DataLane(i));
    }
    SerializePrimitive(Dac, FrameInputs(Dac));
    inst := inst + OnLane(Serialize4([Bit(Fr, 3), Bit(Fr, 2), Bit(Fr, 1), Bit(Fr, 0)]), FrameLane);
  }

  /** Instantiates the serializer pairs of a double-rate DAC with dw lanes. */
  method Dac2xWiring(dw: nat) returns (inst: seq<Wire>)
    ensures inst == Wiring(Dac2x, dw)
  {
    inst := [];
    for i := 0 to dw
      invariant inst == DataLanes(Dac2x, dw, i)
    {
      DataLanesSnoc(Dac2x, dw, i);
      SerializePrimitive(Dac2x, LaneInputs(Dac2x, dw, i));
      inst := inst + OnLane(Serialize8([Bit(Mq1D, i), Bit(Mi0, dw + i), Bit(Mi0, i), Bit(Mq0, dw + i),
                                        Bit(Mq0, i), Bit(Mi1, dw + i), Bit(Mi1, i), Bit(Mq1, dw + i)]), DataLane(i));
    }
    SerializePrimitive(Dac2x, FrameInputs(Dac2x));
    inst := inst + OnLane(Serialize8([Bit(Fr, 7), Bit(Fr, 6), Bit(Fr, 5), Bit(Fr, 4),
                                      Bit(Fr, 3), Bit(Fr, 2), Bit(Fr, 1), Bit(Fr, 0)]), FrameLane);
  }

  /** The bits a DAC sends: every bit of the multiplexed samples (the low
      half of the last Q through its one-cycle-late copy) and every bit of
      the frame word. */
  predicate Sent(v: Variant, dw: nat, b: Bit)
  {
    var k := b.index;
    if v == Dac then
      match b.sig
      case Mi => k < 2 * dw
      case Mq => dw <= k < 2 * dw
      case MqD => k < dw
      case Fr => k < 4
      case _ => false
    else
      match b.sig
      case Mi0 => k < 2 * dw
      case Mq0 => k < 2 * dw
      case Mi1 => k < 2 * dw
      case Mq1 => dw <= k < 2 * dw
      case Mq1D => k < dw
      case Fr => k < 8
      case _ => false
  }

  /** The position of a lane input within its lane's input list. */
  function InputPos(v: Variant, dw: nat, b: Bit): nat
  {
    var high := b.index >= dw;
    if v == Dac then
      match b.sig
      case MqD => 0
      case Mi => if high then 1 else 2
      case _ => 3
    else
      match b.sig
      case Mq1D => 0
      case Mi0 => if high then 1 else 2
      case Mq0 => if high then 3 else 4
      case Mi1 => if high then 5 else 6
      case _ => 7
  }


  /** The data lane a sample bit leaves on: its index modulo dw. */
  function LaneOf(dw: nat, b: Bit): nat
  {
    if b.index >= dw then b.index - dw else b.index
  }

  /** The position of a serializer port in its connection list: ports are
      listed from D4 down, the master's before the slave's. */
  function SlotOffset(v: Variant, p: Port): int
  {
    if v == Dac || p.unit == Master then 4 - p.n else 8 - p.n
  }

  /** The m-th connection of a lane's serializer sends the input at position
      r-1-m of the lane's input list, on the port SlotOffset puts at m. */
  lemma SerializeAt(v: Variant, inputs: seq<Bit>, m: nat)
    requires |inputs| == Ratio(v) && m < Ratio(v)
    ensures Serialize(v, inputs)[m].bit == inputs[Ratio(v) - 1 - m]
    ensures ValidPort(Serialize(v, inputs)[m].port, if v == Dac then {Single} else {Master, Slave})
    ensures SlotOffset(v, Serialize(v, inputs)[m].port) == m
  {
  }

  /** Input p of data lane i is a sample bit the DAC sends on lane i, and
      InputPos finds it at p. */
  lemma InputAt(v: Variant, dw: nat, i: nat, p: nat)
    requires i < dw && p < Ratio(v)
    ensures var b := LaneInputs(v, dw, i)[p];
      Sent(v, dw, b) && b.sig != Fr && LaneOf(dw, b) == i && InputPos(v, dw, b) == p
  {
  }

  /** Wire m of data lane i sends lane input r-1-m from the port at m. */
  lemma LaneWireAt(v: Variant, dw: nat, i: nat, m: nat)
    requires i < dw && m < Ratio(v)
    ensures var w := LaneWires(v, dw, i)[m];
      && w.lane == DataLane(i) && SlotOffset(v, w.port) == m
      && Sent(v, dw, w.bit) && w.bit.sig != Fr && LaneOf(dw, w.bit) == i
      && InputPos(v, dw, w.bit) == Ratio(v) - 1 - m
  {
    SerializeAt(v, LaneInputs(v, dw, i), m);
    InputAt(v, dw, i, Ratio(v) - 1 - m);
  }

  /** No two wires carry the same bit or use the same port of the same lane. */
  ghost predicate WiresDistinct(ws: seq<Wire>)
  {
    forall j1, j2 :: 0 <= j1 < j2 < |ws| ==>
      ws[j1].bit != ws[j2].bit && (ws[j1].lane, ws[j1].port) != (ws[j2].lane, ws[j2].port)
  }

  /** Two distinct wire lists with nothing in common stay distinct end to end. */
  lemma WiresAppend(a: seq<Wire>, b: seq<Wire>)
    requires WiresDistinct(a) && WiresDistinct(b)
    requires forall x, y :: x in a && y in b ==> x.bit != y.bit && (x.lane, x.port) != (y.lane, y.port)
    ensures WiresDistinct(a + b)
  {
    var s := a + b;
    forall j1, j2 | 0 <= j1 < j2 < |s|
      ensures s[j1].bit != s[j2].bit && (s[j1].lane, s[j1].port) != (s[j2].lane, s[j2].port)
    {
      if j2 < |a| {
        assert s[j1] == a[j1] && s[j2] == a[j2];
      } else if j1 >= |a| {
        assert s[j1] == b[j1 - |a|] && s[j2] == b[j2 - |a|];
      } else {
        assert s[j1] == a[j1] && s[j2] == b[j2 - |a|];
      }
    }
  }

  /** A wire of a data lane below dw, carrying a sample bit sent on that lane. */
  ghost predicate DataWire(v: Variant, dw: nat, w: Wire)
  {
    w.lane.DataLane? && w.lane.i < dw && Sent(v, dw, w.bit) && w.bit.sig != Fr && LaneOf(dw, w.bit) == w.lane.i
  }

  /** Every wire of data lane i carries a sample bit sent on lane i, and the
      lane's wires are distinct. */
  lemma LaneFacts(v: Variant, dw: nat, i: nat)
    requires i < dw
    ensures forall w :: w in LaneWires(v, dw, i) ==> w.lane == DataLane(i) && DataWire(v, dw, w)
    ensures WiresDistinct(LaneWires(v, dw, i))
  {
    var ws := LaneWires(v, dw, i);
    forall m | 0 <= m < |ws|
      ensures ws[m].lane == DataLane(i) && SlotOffset(v, ws[m].port) == m
      ensures DataWire(v, dw, ws[m]) && InputPos(v, dw, ws[m].bit) == Ratio(v) - 1 - m
    {
      LaneWireAt(v, dw, i, m);
    }
  }

  /** Lists of distinct wires, no two of which share a bit or a port, stay
      distinct when flattened. */
  lemma {:induction false} FlattenWires(ss: seq<seq<Wire>>)
    requires forall i :: 0 <= i < |ss| ==> WiresDistinct(ss[i])
    requires forall i1, i2, x, y :: 0 <= i1 < i2 < |ss| && x in ss[i1] && y in ss[i2] ==>
      x.bit != y.bit && (x.lane, x.port) != (y.lane, y.port)
    ensures WiresDistinct(Flatten(ss))
  {
    if ss != [] {
      var prev, last := ss[..|ss| - 1], ss[|ss| - 1];
      FlattenWires(prev);
      forall x: Wire, y: Wire | x in Flatten(prev) && y in last
        ensures x.bit != y.bit && (x.lane, x.port) != (y.lane, y.port)
      {
        InFlatten(prev, x);
        var i :| 0 <= i < |prev| && x in prev[i];
        assert x in ss[i];
      }
      WiresAppend(Flatten(prev), last);
    }
  }

  /** The data lanes below dw hold Ratio wires each. */
  lemma DataLanesLength(v: Variant, dw: nat)
    ensures |DataLanes(v, dw, dw)| == Ratio(v) * dw
  {
    FlattenLength(LaneList(v, dw, dw), Ratio(v));
  }

  /** Every wire of the data lanes below dw carries a sample bit sent on
      its own lane. */
  lemma DataLanesSent(v: Variant, dw: nat)
    ensures forall w :: w in DataLanes(v, dw, dw) ==> DataWire(v, dw, w)
  {
    var ss := LaneList(v, dw, dw);
    forall w: Wire | w in Flatten(ss)
      ensures DataWire(v, dw, w)
    {
      InFlatten(ss, w);
      var i :| 0 <= i < dw && w in ss[i];
      LaneFacts(v, dw, i);
    }
  }

  /** Wires of two different data lanes share neither a bit nor a port. */
  lemma LanesApart(v: Variant, dw: nat, i1: nat, i2: nat, x: Wire, y: Wire)
    requires i1 < i2 < dw && x in LaneWires(v, dw, i1) && y in LaneWires(v, dw, i2)
    ensures x.bit != y.bit && (x.lane, x.port) != (y.lane, y.port)
  {
    LaneFacts(v, dw, i1);
    LaneFacts(v, dw, i2);
  }

  /** The wires of each data lane below dw are distinct. */
  lemma LanesEachDistinct(v: Variant, dw: nat)
    ensures forall i :: 0 <= i < dw ==> WiresDistinct(LaneList(v, dw, dw)[i])
  {
    forall i | 0 <= i < dw
      ensures WiresDistinct(LaneList(v, dw, dw)[i])
    {
      LaneFacts(v, dw, i);
    }
  }

  /** Wires of two different data lanes below dw are apart. */
  lemma LanesCross(v: Variant, dw: nat)
    ensures forall i1, i2, x: Wire, y: Wire :: 0 <= i1 < i2 < dw && x in LaneList(v, dw, dw)[i1] && y in LaneList(v, dw, dw)[i2] ==>
      x.bit != y.bit && (x.lane, x.port) != (y.lane, y.port)
  {
    forall i1, i2, x: Wire, y: Wire | 0 <= i1 < i2 < dw && x in LaneList(v, dw, dw)[i1] && y in LaneList(v, dw, dw)[i2]
      ensures x.bit != y.bit && (x.lane, x.port) != (y.lane, y.port)
    {
      LanesApart(v, dw, i1, i2, x, y);
    }
  }

  /** No two wires of the data lanes below dw share a bit or a port. */
  lemma DataLanesDistinct(v: Variant, dw: nat)
    ensures WiresDistinct(DataLanes(v, dw, dw))
  {
    LanesEachDistinct(v, dw);
    LanesCross(v, dw);
    FlattenWires(LaneList(v, dw, dw));
  }

  /** Wire m of the frame lane carries frame bit m, from the port at m. */
  lemma FrameWireAt(v: Variant, m: nat)
    requires m < Ratio(v)
    ensures FrameWires(v)[m] == Wire(FrameLane, FrameWires(v)[m].port, Bit(Fr, m))
    ensures SlotOffset(v, FrameWires(v)[m].port) == m
  {
    SerializeAt(v, FrameInputs(v), m);
  }

  /** The frame lane carries the frame bits below Ratio, on its own lane. */
  lemma FrameMembers(v: Variant)
    ensures forall w :: w in FrameWires(v) ==> w.lane == FrameLane && w.bit.sig == Fr && w.bit.index < Ratio(v)
  {
    var ws := FrameWires(v);
    forall m | 0 <= m < |ws|
      ensures ws[m].lane == FrameLane && ws[m].bit.sig == Fr && ws[m].bit.index < Ratio(v)
    {
      FrameWireAt(v, m);
    }
  }

  /** No two frame wires share a bit or a port. */
  lemma FrameDistinct(v: Variant)
    ensures WiresDistinct(FrameWires(v))
  {
    var ws := FrameWires(v);
    forall m | 0 <= m < |ws|
      ensures ws[m].bit == Bit(Fr, m) && SlotOffset(v, ws[m].port) == m
    {
      FrameWireAt(v, m);
    }
  }

  /** A sent sample bit sits at position InputPos of the input list of lane
      `index mod dw`. */
  lemma LaneBitSent(v: Variant, dw: nat, b: Bit)
    requires Sent(v, dw, b) && b.sig != Fr
    ensures LaneOf(dw, b) < dw
    ensures InputPos(v, dw, b) < Ratio(v)
    ensures LaneInputs(v, dw, LaneOf(dw, b))[InputPos(v, dw, b)] == b
  {
  }

  /** A sent sample bit is on some wire of the data lanes. */
  lemma LaneBitOnWire(v: Variant, dw: nat, b: Bit)
    requires Sent(v, dw, b) && b.sig != Fr
    ensures exists k :: 0 <= k < |DataLanes(v, dw, dw)| && DataLanes(v, dw, dw)[k].bit == b
  {
    var i := LaneOf(dw, b);
    LaneBitSent(v, dw, b);
    var m := Ratio(v) - 1 - InputPos(v, dw, b);
    SerializeAt(v, LaneInputs(v, dw, i), m);
    var w := LaneWires(v, dw, i)[m];
    assert w.bit == b;
    assert w in LaneList(v, dw, dw)[i];
    InFlatten(LaneList(v, dw, dw), w);
    assert w in DataLanes(v, dw, dw);
  }

  /** Bit b occupies some serializer slot of the wiring. */
  ghost predicate Wired(v: Variant, dw: nat, b: Bit)
  {
    exists j :: 0 <= j < |Wiring(v, dw)| && Wiring(v, dw)[j].bit == b
  }

  /** A sent bit is on some wire. */
  lemma SentOnWire(v: Variant, dw: nat, b: Bit)
    requires Sent(v, dw, b)
    ensures exists j :: 0 <= j < |Wiring(v, dw)| && Wiring(v, dw)[j].bit == b
  {
    var data: seq<Wire>, frame: seq<Wire> := DataLanes(v, dw, dw), FrameWires(v);
    if b.sig == Fr {
      FrameWireAt(v, b.index);
      AppendRight(data, frame, b.index);
      assert Wiring(v, dw)[|data| + b.index].bit == Bit(Fr, b.index) == b;
    } else {
      LaneBitOnWire(v, dw, b);
      var k :| 0 <= k < |data| && data[k].bit == b;
      AppendLeft(data, frame, k);
      assert Wiring(v, dw)[k].bit == b;
    }
  }

  /** Element k of a is element k of a + b. */
  lemma AppendLeft<T>(a: seq<T>, b: seq<T>, k: nat)
    requires k < |a|
    ensures k < |a + b| && (a + b)[k] == a[k]
  {
  }

  /** Element k of b is element |a| + k of a + b. */
  lemma AppendRight<T>(a: seq<T>, b: seq<T>, k: nat)
    requires k < |b|
    ensures |a| + k < |a + b| && (a + b)[|a| + k] == b[k]
  {
  }

  /** Every wire carries a bit the DAC sends. */
  lemma WiringSent(v: Variant, dw: nat)
    ensures forall j :: 0 <= j < |Wiring(v, dw)| ==> Sent(v, dw, Wiring(v, dw)[j].bit)
  {
    var data: seq<Wire>, frame: seq<Wire> := DataLanes(v, dw, dw), FrameWires(v);
    DataLanesSent(v, dw);
    forall j | 0 <= j < |data + frame|
      ensures Sent(v, dw, (data + frame)[j].bit)
    {
      if j < |data| {
        AppendLeft(data, frame, j);
        assert data[j] in data;
      } else {
        AppendRight(data, frame, j - |data|);
        FrameWireAt(v, j - |data|);
      }
    }
  }

  /** No two wires share a bit or a lane and port. */
  lemma WiringDistinct(v: Variant, dw: nat)
    ensures WiresDistinct(Wiring(v, dw))
  {
    var data: seq<Wire>, frame: seq<Wire> := DataLanes(v, dw, dw), FrameWires(v);
    DataLanesSent(v, dw);
    DataLanesDistinct(v, dw);
    FrameMembers(v);
    FrameDistinct(v);
    WiresAppend(data, frame);
  }

  /** The wiring has Ratio wires per data lane and for the frame lane. */
  lemma WiringLength(v: Variant, dw: nat)
    ensures |Wiring(v, dw)| == Ratio(v) * (dw + 1)
  {
    DataLanesLength(v, dw);
    if v == Dac {
      assert 4 * (dw + 1) == 4 * dw + 4;
    } else {
      assert 8 * (dw + 1) == 8 * dw + 8;
    }
  }

  /** Every bit a DAC sends leaves on exactly one serializer input, and every
      serializer input sends exactly one such bit: the wires' bits are
      exactly the sent bits, without repetition, and no two wires share a
      lane and port. */
  lemma WiringBijective(v: Variant, dw: nat)
    ensures |Wiring(v, dw)| == Ratio(v) * (dw + 1)
    ensures forall j :: 0 <= j < |Wiring(v, dw)| ==> Sent(v, dw, Wiring(v, dw)[j].bit)
    ensures forall b :: Sent(v, dw, b) ==> exists j :: 0 <= j < |Wiring(v, dw)| && Wiring(v, dw)[j].bit == b
    ensures forall j1, j2 :: 0 <= j1 < j2 < |Wiring(v, dw)| ==> Wiring(v, dw)[j1].bit != Wiring(v, dw)[j2].bit
    ensures forall j1, j2 :: 0 <= j1 < j2 < |Wiring(v, dw)| ==>
      (Wiring(v, dw)[j1].lane, Wiring(v, dw)[j1].port) != (Wiring(v, dw)[j2].lane, Wiring(v, dw)[j2].port)
  {
    WiringLength(v, dw);
    WiringSent(v, dw);
    forall b | Sent(v, dw, b)
      ensures exists j :: 0 <= j < |Wiring(v, dw)| && Wiring(v, dw)[j].bit == b
    {
      SentOnWire(v, dw, b);
    }
    WiringDistinct(v, dw);
  }

  // ---------------------------------------------------------------------
  // ADC input lanes
  // ---------------------------------------------------------------------

  /** The two ADC channels, each on its own differential lanes. */
  datatype Channel = ChanA | ChanB

  /** The outputs of a DDR input register: Q0 (rising edge), Q1 (falling). */
  datatype DdrOut = Q0 | Q1

  /** One DDR output: the channel and lane of its input, and the token bit
      it drives. */
  datatype Capture = Capture(chan: Channel, lane: nat, q: DdrOut, bit: Bit)

  /** The DDR outputs of ADC lane i: channel A's register drives a[2i+1]
      from Q0 and a[2i] from Q1, channel B's the same bits of b. */
  function AdcLane(i: nat): seq<Capture>
  {
    [Capture(ChanA, i, Q0, Bit(A, 2 * i + 1)), Capture(ChanA, i, Q1, Bit(A, 2 * i)),
     Capture(ChanB, i, Q0, Bit(B, 2 * i + 1)), Capture(ChanB, i, Q1, Bit(B, 2 * i))]
  }

  /** The DDR outputs of lanes 0..n-1, lane after lane. */
  function AdcLanes(n: nat): seq<Capture>
  {
    Flatten(AdcLaneList(n))
  }

  /** The capture lists of lanes 0..n-1. */
  function AdcLaneList(n: nat): (ss: seq<seq<Capture>>)
    ensures |ss| == n && forall i :: 0 <= i < n ==> ss[i] == AdcLane(i)
  {
    seq(n, i requires 0 <= i < n => AdcLane(i))
  }

  /** One more lane appends its captures. */
  lemma AdcLanesSnoc(i: nat)
    ensures AdcLanes(i + 1) == AdcLanes(i) + AdcLane(i)
  {
    var ss := AdcLaneList(i + 1);
    assert ss[..i] == AdcLaneList(i);
  }

  /** The ADC's logic: the strobe held at 1, so that a token is offered every
      cycle, and the DDR input registers of dw lanes. */
  method AdcFragment(dw: nat) returns (stb: bool, inst: seq<Capture>)
    ensures stb
    ensures inst == AdcLanes(dw)
  {
    stb := true;
    inst := [];
    for i := 0 to dw
      invariant inst == AdcLanes(i)
    {
      AdcLanesSnoc(i);
      inst := inst + [Capture(ChanA, i, Q0, Bit(A, 2 * i + 1)), Capture(ChanA, i, Q1, Bit(A, 2 * i)),
                      Capture(ChanB, i, Q0, Bit(B, 2 * i + 1)), Capture(ChanB, i, Q1, Bit(B, 2 * i))];
    }
  }

  /** The DDR output that drives token bit b: the lane is half the bit
      index, odd bits come from Q0 and even ones from Q1. */
  function Driver(b: Bit): (c: Capture)
    requires b.sig == A || b.sig == B
    ensures c.bit == b
  {
    Capture(if b.sig == A then ChanA else ChanB, b.index / 2, if b.index % 2 == 1 then Q0 else Q1, b)
  }

  /** No two captures drive the same bit or use the same DDR output. */
  ghost predicate CapturesDistinct(cs: seq<Capture>)
  {
    forall j1, j2 :: 0 <= j1 < j2 < |cs| ==>
      cs[j1].bit != cs[j2].bit && (cs[j1].chan, cs[j1].lane, cs[j1].q) != (cs[j2].chan, cs[j2].lane, cs[j2].q)
  }

  /** Two distinct capture lists with nothing in common stay distinct end to
      end. */
  lemma CapturesAppend(a: seq<Capture>, b: seq<Capture>)
    requires CapturesDistinct(a) && CapturesDistinct(b)
    requires forall x, y :: x in a && y in b ==> x.bit != y.bit && (x.chan, x.lane, x.q) != (y.chan, y.lane, y.q)
    ensures CapturesDistinct(a + b)
  {
    var s := a + b;
    forall j1, j2 | 0 <= j1 < j2 < |s|
      ensures s[j1].bit != s[j2].bit && (s[j1].chan, s[j1].lane, s[j1].q) != (s[j2].chan, s[j2].lane, s[j2].q)
    {
      if j2 < |a| {
        assert s[j1] == a[j1] && s[j2] == a[j2];
      } else if j1 >= |a| {
        assert s[j1] == b[j1 - |a|] && s[j2] == b[j2 - |a|];
      } else {
        assert s[j1] == a[j1] && s[j2] == b[j2 - |a|];
      }
    }
  }

  /** A capture of lane i drives bit 2i or 2i+1 of a or b, and is the one
      Driver names for that bit. */
  ghost predicate LaneCapture(i: nat, c: Capture)
  {
    (c.bit.sig == A || c.bit.sig == B) && c.lane == i && c.bit.index / 2 == i && Driver(c.bit) == c
  }

  /** The captures of lane i: each is the driver of its bit, and none
      repeats a bit or an output. */
  lemma AdcLaneFacts(i: nat)
    ensures forall c :: c in AdcLane(i) ==> LaneCapture(i, c)
    ensures CapturesDistinct(AdcLane(i))
  {
  }

  /** Lists of distinct captures, no two of which share a bit or an output,
      stay distinct when flattened. */
  lemma {:induction false} FlattenCaptures(ss: seq<seq<Capture>>)
    requires forall i :: 0 <= i < |ss| ==> CapturesDistinct(ss[i])
    requires forall i1, i2, x, y :: 0 <= i1 < i2 < |ss| && x in ss[i1] && y in ss[i2] ==>
      x.bit != y.bit && (x.chan, x.lane, x.q) != (y.chan, y.lane, y.q)
    ensures CapturesDistinct(Flatten(ss))
  {
    if ss != [] {
      var prev, last := ss[..|ss| - 1], ss[|ss| - 1];
      FlattenCaptures(prev);
      forall x: Capture, y: Capture | x in Flatten(prev) && y in last
        ensures x.bit != y.bit && (x.chan, x.lane, x.q) != (y.chan, y.lane, y.q)
      {
        InFlatten(prev, x);
        var i :| 0 <= i < |prev| && x in prev[i];
        assert x in ss[i];
      }
      CapturesAppend(Flatten(prev), last);
    }
  }

  /** Each capture of the lanes below dw is the driver of a bit below 2 dw. */
  lemma AdcCaptured(dw: nat)
    ensures forall c :: c in AdcLanes(dw) ==> LaneCapture(c.lane, c) && c.lane < dw
  {
    var ss := AdcLaneList(dw);
    forall c: Capture | c in Flatten(ss)
      ensures LaneCapture(c.lane, c) && c.lane < dw
    {
      InFlatten(ss, c);
      var i :| 0 <= i < dw && c in ss[i];
      AdcLaneFacts(i);
    }
  }

  /** Every bit below 2 dw of a and b has its driver among the captures. */
  lemma AdcCovered(dw: nat, b: Bit)
    requires (b.sig == A || b.sig == B) && b.index < 2 * dw
    ensures Driver(b) in AdcLanes(dw)
  {
    var i := b.index / 2;
    AdcLaneFacts(i);
    assert Driver(b) in AdcLaneList(dw)[i];
    InFlatten(AdcLaneList(dw), Driver(b));
  }

  /** Captures of two different lanes share neither a bit nor an output. */
  lemma AdcLanesApart(i1: nat, i2: nat, x: Capture, y: Capture)
    requires i1 < i2 && x in AdcLane(i1) && y in AdcLane(i2)
    ensures x.bit != y.bit && (x.chan, x.lane, x.q) != (y.chan, y.lane, y.q)
  {
    AdcLaneFacts(i1);
    AdcLaneFacts(i2);
  }

  /** The captures of each lane below dw are distinct. */
  lemma AdcLanesEachDistinct(dw: nat)
    ensures forall i :: 0 <= i < dw ==> CapturesDistinct(AdcLaneList(dw)[i])
  {
    forall i | 0 <= i < dw
      ensures CapturesDistinct(AdcLaneList(dw)[i])
    {
      AdcLaneFacts(i);
    }
  }

  /** Captures of two different lanes below dw are apart. */
  lemma AdcLanesCross(dw: nat)
    ensures forall i1, i2, x: Capture, y: Capture :: 0 <= i1 < i2 < dw && x in AdcLaneList(dw)[i1] && y in AdcLaneList(dw)[i2] ==>
      x.bit != y.bit && (x.chan, x.lane, x.q) != (y.chan, y.lane, y.q)
  {
    forall i1, i2, x: Capture, y: Capture | 0 <= i1 < i2 < dw && x in AdcLaneList(dw)[i1] && y in AdcLaneList(dw)[i2]
      ensures x.bit != y.bit && (x.chan, x.lane, x.q) != (y.chan, y.lane, y.q)
    {
      AdcLanesApart(i1, i2, x, y);
    }
  }

  /** No two captures of the lanes below dw share a bit or an output. */
  lemma AdcDistinct(dw: nat)
    ensures CapturesDistinct(AdcLanes(dw))
  {
    AdcLanesEachDistinct(dw);
    AdcLanesCross(dw);
    FlattenCaptures(AdcLaneList(dw));
  }

  /** Every bit of both ADC sample fields is driven by exactly one DDR
      output, the one Driver names, and every output drives such a bit. */
  lemma AdcBijective(dw: nat)
    ensures |AdcLanes(dw)| == 4 * dw
    ensures forall j :: 0 <= j < |AdcLanes(dw)| ==>
      var c := AdcLanes(dw)[j];
      && (c.bit.sig == A || c.bit.sig == B)
      && c.bit.index < 2 * dw
      && Driver(c.bit) == c
    ensures forall b: Bit :: (b.sig == A || b.sig == B) && b.index < 2 * dw ==> Driver(b) in AdcLanes(dw)
    ensures forall j1, j2 :: 0 <= j1 < j2 < |AdcLanes(dw)| ==> AdcLanes(dw)[j1].bit != AdcLanes(dw)[j2].bit
    ensures forall j1, j2 :: 0 <= j1 < j2 < |AdcLanes(dw)| ==>
      (AdcLanes(dw)[j1].chan, AdcLanes(dw)[j1].lane, AdcLanes(dw)[j1].q)
      != (AdcLanes(dw)[j2].chan, AdcLanes(dw)[j2].lane, AdcLanes(dw)[j2].q)
  {
    var cs := AdcLanes(dw);
    FlattenLength(AdcLaneList(dw), 4);
    AdcCaptured(dw);
    forall j | 0 <= j < |cs|
      ensures (cs[j].bit.sig == A || cs[j].bit.sig == B) && cs[j].bit.index < 2 * dw && Driver(cs[j].bit) == cs[j]
    {
      assert cs[j] in cs;
    }
    forall b: Bit | (b.sig == A || b.sig == B) && b.index < 2 * dw
      ensures Driver(b) in cs
    {
      AdcCovered(dw, b);
    }
    AdcDistinct(dw);
  }
}
