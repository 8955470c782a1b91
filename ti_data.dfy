// The TI DAC and ADC actors of library/ti_data.py: the DAC's registers and
// sample layout, and the clocked control logic of the single-rate and the
// double-rate DAC (frame divider, frame-pulse latch, test-pattern multiplexer,
// transmit enable and frame word). Which bit goes to which serializer input is
// modelled in ti_serdes.dfy.

module TiData {
  import opened TiSerdes
  import Text

  // ---------------------------------------------------------------------
  // Registers and layouts
  // ---------------------------------------------------------------------

  /** The reset value of the four test-pattern registers. */
  const PatternReset: nat := 0x55aa

  /** A control register: a field the logic reads (with its reset value), or
      a raw register whose write strobe the logic sees. */
  datatype Register = Field(name: string, width: nat, reset: nat) | Raw(name: string, width: nat)

  /** The DAC's registers, in bank order, for a DAC with dw data lanes: the
      test-mode enable, the four test patterns (as wide as a sample field)
      and the frame-pulse request. */
  function DacRegisters(dw: nat): seq<Register>
  {
    [Field("test_pattern_en", 1, 0),
     Field("test_pattern_i0", 2 * dw, PatternReset),
     Field("test_pattern_q0", 2 * dw, PatternReset),
     Field("test_pattern_i1", 2 * dw, PatternReset),
     Field("test_pattern_q1", 2 * dw, PatternReset),
     Raw("pulse_frame", 1)]
  }

  /** The fields of the DAC's sample sink: one I/Q pair, or two for the
      double-rate DAC, each field two bits per data lane wide. */
  function SinkLayout(double: bool, dw: nat): seq<(string, nat)>
  {
    if double then [("i0", 2 * dw), ("q0", 2 * dw), ("i1", 2 * dw), ("q1", 2 * dw)]
    else [("i", 2 * dw), ("q", 2 * dw)]
  }

  /** The fields of the ADC's sample source. */
  function AdcLayout(dw: nat): seq<(string, nat)>
  {
    [("a", 2 * dw), ("b", 2 * dw)]
  }

  /** Register names are unique; the patterns are as wide as a sample field. */
  lemma RegistersWellFormed(dw: nat)
    ensures |DacRegisters(dw)| == 6
    ensures forall k1, k2 :: 0 <= k1 < k2 < 6 ==> DacRegisters(dw)[k1].name != DacRegisters(dw)[k2].name
    ensures forall k :: 1 <= k < 5 ==> DacRegisters(dw)[k].width == SinkLayout(false, dw)[0].1
  {
  }

  /** The sink has two or four fields, with unique names, each 2*dw wide. */
  lemma SinkLayoutWellFormed(double: bool, dw: nat)
    ensures |SinkLayout(double, dw)| == (if double then 4 else 2)
    ensures forall k1, k2 :: 0 <= k1 < k2 < |SinkLayout(double, dw)| ==> SinkLayout(double, dw)[k1].0 != SinkLayout(double, dw)[k2].0
    ensures forall k :: 0 <= k < |SinkLayout(double, dw)| ==> SinkLayout(double, dw)[k].1 == 2 * dw
  {
  }

  function Pow2(n: nat): (p: nat)
    ensures p >= 1
  {
    if n == 0 then 1 else 2 * Pow2(n - 1)
  }

  lemma {:induction false} Pow2Mono(a: nat, b: nat)
    requires a <= b
    ensures Pow2(a) <= Pow2(b)
  {
    if a < b {
      Pow2Mono(a, b - 1);
    }
  }

  /** The pattern reset value needs fifteen bits, so it fits a pattern
      register exactly when the DAC has at least eight data lanes. */
  lemma PatternResetFits(dw: nat)
    ensures PatternReset < Pow2(2 * dw) <==> dw >= 8
  {
    assert Pow2(14) == 16384 && Pow2(16) == 65536;
    if dw >= 8 {
      Pow2Mono(16, 2 * dw);
    } else {
      Pow2Mono(2 * dw, 14);
    }
  }

  /** Every bit of every sample field occupies a slot of the serializer
      wiring: the I
      fields through the multiplexer, the Q fields' upper halves directly
      and their lower halves through the one-cycle-late copy. */
  lemma SampleFieldsSent(dw: nat)
    ensures forall k :: 0 <= k < SinkLayout(false, dw)[0].1 ==>
      Wired(Dac, dw, Bit(Mi, k)) && Wired(Dac, dw, Bit(if k < dw then MqD else Mq, k))
    ensures forall k :: 0 <= k < SinkLayout(true, dw)[0].1 ==>
      && Wired(Dac2x, dw, Bit(Mi0, k)) && Wired(Dac2x, dw, Bit(Mq0, k))
      && Wired(Dac2x, dw, Bit(Mi1, k)) && Wired(Dac2x, dw, Bit(if k < dw then Mq1D else Mq1, k))
  {
    assert SinkLayout(false, dw)[0].1 == 2 * dw && SinkLayout(true, dw)[0].1 == 2 * dw;
    forall k | 0 <= k < 2 * dw
      ensures Wired(Dac, dw, Bit(Mi, k)) && Wired(Dac, dw, Bit(if k < dw then MqD else Mq, k))
      ensures Wired(Dac2x, dw, Bit(Mi0, k)) && Wired(Dac2x, dw, Bit(Mq0, k))
      ensures Wired(Dac2x, dw, Bit(Mi1, k)) && Wired(Dac2x, dw, Bit(if k < dw then Mq1D else Mq1, k))
    {
      SentOnWire(Dac, dw, Bit(Mi, k));
      SentOnWire(Dac, dw, Bit(if k < dw then MqD else Mq, k));
      SentOnWire(Dac2x, dw, Bit(Mi0, k));
      SentOnWire(Dac2x, dw, Bit(Mq0, k));
      SentOnWire(Dac2x, dw, Bit(Mi1, k));
      SentOnWire(Dac2x, dw, Bit(if k < dw then Mq1D else Mq1, k));
    }
  }

  /** Every bit of both ADC sample fields is driven by a DDR output. */
  lemma AdcFieldsDriven(dw: nat)
    ensures forall k :: 0 <= k < AdcLayout(dw)[0].1 ==> Driver(Bit(A, k)) in AdcLanes(dw) && Driver(Bit(B, k)) in AdcLanes(dw)
  {
    AdcBijective(dw);
  }

  // ---------------------------------------------------------------------
  // Clocked control logic
  // ---------------------------------------------------------------------

  /** Cycles of the frame divider: a 3-bit counter in the single-rate DAC,
      a 2-bit one in the double-rate DAC. */
  function Period(v: Variant): nat
  {
    if v == Dac then 8 else 4
  }

  /** The frame word sent on a framing cycle. */
  function FrameMark(v: Variant): nat
  {
    if v == Dac then 0x6 else 0x60
  }

  /** The registers both DACs keep: the frame divider, the frame-pulse latch
      and the transmit enable. */
  datatype Control = Control(frameDiv: nat, pulseFrame: bool, txenable: bool)

  /** What the control logic sees in a cycle: a write to the frame-pulse
      register, the test-mode enable and the sink's strobe. */
  datatype ControlIn = ControlIn(pulseRe: bool, iotest: bool, stb: bool)

  predicate ValidControl(v: Variant, c: Control)
  {
    c.frameDiv < Period(v)
  }

  /** The frame word of a cycle: the mark on a cycle where the divider is at
      zero and a frame is requested, in test mode or offered a sample;
      zero otherwise. */
  function FrameWord(v: Variant, c: Control, x: ControlIn): (fr: nat)
    ensures fr == FrameMark(v) || fr == 0
    ensures fr != 0 <==> c.frameDiv == 0 && (c.pulseFrame || x.iotest || x.stb)
  {
    if c.frameDiv == 0 && (c.pulseFrame || x.iotest || x.stb) then FrameMark(v) else 0
  }

  /** The control registers after a clock edge. The frame-pulse latch is
      cleared on a cycle where the divider is at zero, but a request written
      in the same cycle wins. */
  function ControlNext(v: Variant, c: Control, x: ControlIn): (n: Control)
    requires ValidControl(v, c)
    ensures ValidControl(v, n)
    ensures n.frameDiv == (c.frameDiv + 1) % Period(v)
    ensures n.pulseFrame <==> x.pulseRe || (c.pulseFrame && c.frameDiv != 0)
    ensures n.txenable <==> x.iotest || x.stb
  {
    var pulse := if x.pulseRe then true else if c.frameDiv == 0 then false else c.pulseFrame;
    Control(if c.frameDiv + 1 == Period(v) then 0 else c.frameDiv + 1, pulse, x.iotest || x.stb)
  }

  /** The control registers after a run of cycles. */
  function ControlRun(v: Variant, c: Control, xs: seq<ControlIn>): (n: Control)
    requires ValidControl(v, c)
    ensures ValidControl(v, n)
  {
    if xs == [] then c else ControlNext(v, ControlRun(v, c, xs[..|xs| - 1]), xs[|xs| - 1])
  }

  /** Counting one more cycle modulo the period. */
  lemma ModStep(v: Variant, a: nat)
    ensures (a % Period(v) + 1) % Period(v) == (a + 1) % Period(v)
  {
    var p := Period(v);
    var q, r := a / p, a % p;
    assert a == p * q + r by {
      if v == Dac { assert p == 8; } else { assert p == 4; }
    }
    if r + 1 < p {
      ModUnique(p, q, r + 1, a + 1);
    } else {
      ModUnique(p, q + 1, 0, a + 1);
    }
  }

  /** The remainder of p * q + s is s, for s below p. */
  lemma ModUnique(p: nat, q: nat, s: nat, a: nat)
    requires 0 <= s < p && a == p * q + s
    ensures a % p == s
  {
    var q', s' := a / p, a % p;
    assert p * q' + s' == p * q + s;
    if q' < q {
      Text.MulLe(p, q' + 1, q);
    } else if q' > q {
      Text.MulLe(p, q + 1, q');
    }
  }

  /** The frame divider counts cycles modulo its period. */
  lemma {:induction false} DividerCounts(v: Variant, c: Control, xs: seq<ControlIn>)
    requires ValidControl(v, c)
    ensures ControlRun(v, c, xs).frameDiv == (c.frameDiv + |xs|) % Period(v)
  {
    if xs != [] {
      var n := |xs| - 1;
      DividerCounts(v, c, xs[..n]);
      ModStep(v, c.frameDiv + n);
    }
  }

  /** From f, the divider is at zero again after (P - f) % P cycles. */
  lemma DividerWraps(v: Variant, f: nat, n: nat)
    requires f < Period(v) && n == (Period(v) - f) % Period(v)
    ensures (f + n) % Period(v) == 0
  {
    if v == Dac {
      assert n == if f == 0 then 0 else 8 - f;
    } else {
      assert n == if f == 0 then 0 else 4 - f;
    }
  }

  /** ... and not before: after k of those cycles it is at f + k. */
  lemma DividerBefore(v: Variant, f: nat, n: nat, k: nat)
    requires f < Period(v) && n == (Period(v) - f) % Period(v) && k < n
    ensures (f + k) % Period(v) == f + k != 0
  {
    if v == Dac {
      assert n == if f == 0 then 0 else 8 - f;
    } else {
      assert n == if f == 0 then 0 else 4 - f;
    }
  }

  /** A latched frame pulse survives every cycle in which the divider is not
      at zero. */
  lemma {:induction false} PulseHeld(v: Variant, c: Control, xs: seq<ControlIn>)
    requires ValidControl(v, c) && c.pulseFrame
    requires forall k :: 0 <= k < |xs| ==> ControlRun(v, c, xs[..k]).frameDiv != 0
    ensures ControlRun(v, c, xs).pulseFrame
  {
    if xs != [] {
      var n := |xs| - 1;
      forall k | 0 <= k < n
        ensures ControlRun(v, c, xs[..n][..k]).frameDiv != 0
      {
        assert xs[..n][..k] == xs[..k];
      }
      PulseHeld(v, c, xs[..n]);
    }
  }

  /** A latched frame pulse is sent: when the divider next reaches zero the
      latch is still set, so that cycle's frame word is the mark, whatever
      that cycle's inputs. */
  lemma PulseReachesFrame(v: Variant, c: Control, xs: seq<ControlIn>, x: ControlIn)
    requires ValidControl(v, c) && c.pulseFrame
    requires |xs| == (Period(v) - c.frameDiv) % Period(v)
    ensures ControlRun(v, c, xs).frameDiv == 0
    ensures FrameWord(v, ControlRun(v, c, xs), x) == FrameMark(v)
  {
    var r := ControlRun(v, c, xs);
    assert r.frameDiv == 0 by {
      DividerCounts(v, c, xs);
      DividerWraps(v, c.frameDiv, |xs|);
    }
    assert r.pulseFrame by {
      DividerNonZero(v, c, xs);
      PulseHeld(v, c, xs);
    }
  }

  /** On the way to the divider's next zero, every earlier cycle has it
      away from zero. */
  lemma DividerNonZero(v: Variant, c: Control, xs: seq<ControlIn>)
    requires ValidControl(v, c)
    requires |xs| == (Period(v) - c.frameDiv) % Period(v)
    ensures forall k :: 0 <= k < |xs| ==> ControlRun(v, c, xs[..k]).frameDiv != 0
  {
    forall k | 0 <= k < |xs|
      ensures ControlRun(v, c, xs[..k]).frameDiv != 0
    {
      DividerCounts(v, c, xs[..k]);
      DividerBefore(v, c.frameDiv, |xs|, k);
    }
  }

  /** A frame-pulse request is honoured: after the cycle of the write, the
      frame word is the mark on the next cycle where the divider is at zero. */
  lemma RequestFramed(v: Variant, c: Control, x: ControlIn, xs: seq<ControlIn>, y: ControlIn)
    requires ValidControl(v, c) && x.pulseRe
    requires |xs| == (Period(v) - (c.frameDiv + 1) % Period(v)) % Period(v)
    ensures FrameWord(v, ControlRun(v, ControlNext(v, c, x), xs), y) == FrameMark(v)
  {
    PulseReachesFrame(v, ControlNext(v, c, x), xs, y);
  }

  // ---------------------------------------------------------------------
  // The DAC and the double-rate DAC
  // ---------------------------------------------------------------------

  /** An I/Q sample pair. */
  datatype Sample = Sample(i: nat, q: nat)

  /** The register fields the DACs read: the test-mode enable and the two
      test patterns. */
  datatype Regs = Regs(testPatternEn: bool, pattern0: Sample, pattern1: Sample)

  /** A cycle's inputs of the single-rate DAC: registers, the frame-pulse
      write strobe, the sink's strobe and its token. */
  datatype DacIn = DacIn(regs: Regs, pulseRe: bool, stb: bool, token: Sample)

  /** The single-rate DAC's combinational outputs: the sink's acknowledge,
      the multiplexed sample and the frame word. */
  datatype DacOut = DacOut(ack: bool, m: Sample, fr: nat)

  /** The single-rate DAC's registers: the control registers and the
      multiplexed Q one cycle late. */
  datatype DacState = DacState(control: Control, mqD: nat)

  function DacControlIn(x: DacIn): ControlIn
  {
    ControlIn(x.pulseRe, x.regs.testPatternEn, x.stb)
  }

  /** The single-rate DAC's outputs in a cycle: samples are acknowledged
      only outside test mode; in test mode the patterns alternate, pattern 1
      on odd divider values and pattern 0 on even ones; otherwise the token
      passes. */
  function DacComb(s: DacState, x: DacIn): (o: DacOut)
    ensures o.ack <==> !x.regs.testPatternEn
    ensures x.regs.testPatternEn && s.control.frameDiv % 2 == 1 ==> o.m == x.regs.pattern1
    ensures x.regs.testPatternEn && s.control.frameDiv % 2 == 0 ==> o.m == x.regs.pattern0
    ensures !x.regs.testPatternEn ==> o.m == x.token
    ensures o.fr == FrameWord(Dac, s.control, DacControlIn(x))
  {
    var iotest := x.regs.testPatternEn;
    var m := if iotest then (if s.control.frameDiv % 2 == 1 then x.regs.pattern1 else x.regs.pattern0) else x.token;
    DacOut(!iotest, m, if s.control.frameDiv == 0 && (s.control.pulseFrame || iotest || x.stb) then 0x6 else 0x0)
  }

  /** The single-rate DAC's registers after a clock edge. */
  function DacNext(s: DacState, x: DacIn): (n: DacState)
    requires ValidControl(Dac, s.control)
    ensures n.control == ControlNext(Dac, s.control, DacControlIn(x))
    ensures n.mqD == DacComb(s, x).m.q
  {
    DacState(ControlNext(Dac, s.control, DacControlIn(x)), DacComb(s, x).m.q)
  }

  /** In test mode the token has no effect on the outputs and is not
      acknowledged. */
  lemma DacTestModeIgnoresToken(s: DacState, x: DacIn, t: Sample)
    requires x.regs.testPatternEn
    ensures !DacComb(s, x).ack
    ensures DacComb(s, x) == DacComb(s, x.(token := t))
  {
  }

  /** In test mode the DAC sends pattern 0 then pattern 1 on consecutive
      cycles, starting from an even divider value. */
  lemma DacPatternsAlternate(s: DacState, x: DacIn, y: DacIn)
    requires ValidControl(Dac, s.control) && s.control.frameDiv % 2 == 0
    requires x.regs.testPatternEn && y.regs == x.regs
    ensures DacComb(s, x).m == x.regs.pattern0
    ensures DacComb(DacNext(s, x), y).m == x.regs.pattern1
  {
  }

  /** The single-rate DAC. Its fields are the registers its logic updates
      on every clock edge. */
  class DacLogic {
    var frameDiv: nat
    var pulseFrame: bool
    var txenable: bool
    var mqD: nat

    function State(): DacState
      reads this
    {
      DacState(Control(frameDiv, pulseFrame, txenable), mqD)
    }

    predicate Valid()
      reads this
    {
      ValidControl(Dac, State().control)
    }

    /** All registers start at zero. */
    constructor ()
      ensures Valid()
      ensures State() == DacState(Control(0, false, false), 0)
    {
      frameDiv := 0;
      pulseFrame := false;
      txenable := false;
      mqD := 0;
    }

    /** One clock cycle: returns the cycle's combinational outputs, computed
        from the registers before the edge, and updates the registers. */
    method Step(x: DacIn) returns (o: DacOut)
      requires Valid()
      modifies this
      ensures Valid()
      ensures o == DacComb(old(State()), x)
      ensures State() == DacNext(old(State()), x)
    {
      var iotest := x.regs.testPatternEn;
      var m: Sample;
      if iotest {
        if frameDiv % 2 == 1 {
          m := x.regs.pattern1;
        } else {
          m := x.regs.pattern0;
        }
      } else {
        m := x.token;
      }
      var fr := 0x0;
      if frameDiv == 0 && (pulseFrame || iotest || x.stb) {
        fr := 0x6;
      }
      o := DacOut(!iotest, m, fr);
      if frameDiv == 0 {
        pulseFrame := false;
      }
      if x.pulseRe {
        pulseFrame := true;
      }
      txenable := iotest || x.stb;
      frameDiv := (frameDiv + 1) % 8;
      mqD := m.q;
    }
  }

  /** A cycle's inputs of the double-rate DAC: its token holds two samples. */
  datatype Dac2xIn = Dac2xIn(regs: Regs, pulseRe: bool, stb: bool, token0: Sample, token1: Sample)

  /** The double-rate DAC's combinational outputs. */
  datatype Dac2xOut = Dac2xOut(ack: bool, m0: Sample, m1: Sample, fr: nat)

  /** The double-rate DAC's registers: the control registers and the second
      multiplexed Q one cycle late. */
  datatype Dac2xState = Dac2xState(control: Control, mq1D: nat)

  function Dac2xControlIn(x: Dac2xIn): ControlIn
  {
    ControlIn(x.pulseRe, x.regs.testPatternEn, x.stb)
  }

  /** The double-rate DAC's outputs in a cycle: in test mode both patterns
      are sent in every cycle, otherwise both samples of the token. */
  function Dac2xComb(s: Dac2xState, x: Dac2xIn): (o: Dac2xOut)
    ensures o.ack <==> !x.regs.testPatternEn
    ensures x.regs.testPatternEn ==> o.m0 == x.regs.pattern0 && o.m1 == x.regs.pattern1
    ensures !x.regs.testPatternEn ==> o.m0 == x.token0 && o.m1 == x.token1
    ensures o.fr == FrameWord(Dac2x, s.control, Dac2xControlIn(x))
  {
    var iotest := x.regs.testPatternEn;
    var fr := if s.control.frameDiv == 0 && (s.control.pulseFrame || iotest || x.stb) then 0x60 else 0x00;
    if iotest then Dac2xOut(false, x.regs.pattern0, x.regs.pattern1, fr)
    else Dac2xOut(true, x.token0, x.token1, fr)
  }

  /** The double-rate DAC's registers after a clock edge. */
  function Dac2xNext(s: Dac2xState, x: Dac2xIn): (n: Dac2xState)
    requires ValidControl(Dac2x, s.control)
    ensures n.control == ControlNext(Dac2x, s.control, Dac2xControlIn(x))
    ensures n.mq1D == Dac2xComb(s, x).m1.q
  {
    Dac2xState(ControlNext(Dac2x, s.control, Dac2xControlIn(x)), Dac2xComb(s, x).m1.q)
  }

  /** In test mode the token has no effect on the outputs and is not
      acknowledged. */
  lemma Dac2xTestModeIgnoresToken(s: Dac2xState, x: Dac2xIn, t0: Sample, t1: Sample)
    requires x.regs.testPatternEn
    ensures !Dac2xComb(s, x).ack
    ensures Dac2xComb(s, x) == Dac2xComb(s, x.(token0 := t0, token1 := t1))
  {
  }

  /** The double-rate DAC. */
  class Dac2xLogic {
    var frameDiv: nat
    var pulseFrame: bool
    var txenable: bool
    var mq1D: nat

    function State(): Dac2xState
      reads this
    {
      Dac2xState(Control(frameDiv, pulseFrame, txenable), mq1D)
    }

    predicate Valid()
      reads this
    {
      ValidControl(Dac2x, State().control)
    }

    /** All registers start at zero. */
    constructor ()
      ensures Valid()
      ensures State() == Dac2xState(Control(0, false, false), 0)
    {
      frameDiv := 0;
      pulseFrame := false;
      txenable := false;
      mq1D := 0;
    }

    /** One clock cycle. */
    method Step(x: Dac2xIn) returns (o: Dac2xOut)
      requires Valid()
      modifies this
      ensures Valid()
      ensures o == Dac2xComb(old(State()), x)
      ensures State() == Dac2xNext(old(State()), x)
    {
      var iotest := x.regs.testPatternEn;
      var m0: Sample, m1: Sample;
      if iotest {
        m0, m1 := x.regs.pattern0, x.regs.pattern1;
      } else {
        m0, m1 := x.token0, x.token1;
      }
      var fr := 0x00;
      if frameDiv == 0 && (pulseFrame || iotest || x.stb) {
        fr := 0x60;
      }
      o := Dac2xOut(!iotest, m0, m1, fr);
      if frameDiv == 0 {
        pulseFrame := false;
      }
      if x.pulseRe {
        pulseFrame := true;
      }
      txenable := iotest || x.stb;
      frameDiv := (frameDiv + 1) % 4;
      mq1D := m1.q;
    }
  }
}
