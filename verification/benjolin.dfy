/**
 * The audio-worklet processors of the Benjolin synthesiser: the rungler, an
 * eight-cell shift register clocked sample by sample by one oscillator and
 * fed by the other, and the pitch arithmetic of the oscillator and the
 * filter, up to the clamp that precedes the MIDI-to-frequency conversion.
 */
module Benjolin {
  import opened JsValues

  /** One sample of an input buffer; a read past its end is `undefined`. */
  function Sample(s: seq<real>, i: int): Option<real>
  {
    if 0 <= i < |s| then Some(s[i]) else None
  }

  /** `v > threshold` for a sample; `undefined > threshold` is false. */
  predicate Above(v: Option<real>, threshold: real)
  {
    v.Some? && v.value > threshold
  }

  /** The eight register cells `sh01` .. `sh08`. */
  datatype Registers = Registers(sh01: int, sh02: int, sh03: int, sh04: int,
                                 sh05: int, sh06: int, sh07: int, sh08: int)

  predicate IsBit(b: int)
  {
    b == 0 || b == 1
  }

  /** Every cell holds a bit. */
  predicate Bits(r: Registers)
  {
    IsBit(r.sh01) && IsBit(r.sh02) && IsBit(r.sh03) && IsBit(r.sh04) &&
    IsBit(r.sh05) && IsBit(r.sh06) && IsBit(r.sh07) && IsBit(r.sh08)
  }

  /** `a ^ b` on two bits. */
  function Xor(a: int, b: int): (r: int)
    requires IsBit(a) && IsBit(b)
    ensures IsBit(r) && (r == 1 <==> a != b)
  {
    if a == b then 0 else 1
  }

  /** The `xor` output of one sample: the data pulse as a bit, XOR the first cell before the shift. */
  function XorBit(r: Registers, pulse: Option<real>): (b: int)
    requires Bits(r)
    ensures IsBit(b)
    ensures b == 1 <==> Above(pulse, 0.5) != (r.sh01 == 1)
  {
    Xor(if Above(pulse, 0.5) then 1 else 0, r.sh01)
  }

  /**
   * One sample of the rungler: on a clock pulse the register shifts, with
   * the eight assignments taken in the order written, so that `sh05` is
   * assigned twice and ends with the old `sh02`, while `sh03` is never
   * assigned; without a clock pulse nothing changes.
   */
  function Clock(r: Registers, dataPulse: Option<real>, clockPulse: Option<real>): (r': Registers)
    requires Bits(r)
    ensures Bits(r')
    ensures !Above(clockPulse, 0.0) ==> r' == r
    ensures Above(clockPulse, 0.0) ==>
      r'.sh01 == XorBit(r, dataPulse) && r'.sh02 == r.sh01 && r'.sh03 == r.sh03 &&
      r'.sh04 == r.sh03 && r'.sh05 == r.sh02 && r'.sh06 == r.sh05 &&
      r'.sh07 == r.sh06 && r'.sh08 == r.sh07
  {
    if Above(clockPulse, 0.0) then
      var zz := XorBit(r, dataPulse);
      var r1 := r.(sh08 := r.sh07);
      var r2 := r1.(sh07 := r1.sh06);
      var r3 := r2.(sh06 := r2.sh05);
      var r4 := r3.(sh05 := r3.sh04);
      var r5 := r4.(sh04 := r4.sh03);
      var r6 := r5.(sh05 := r5.sh02);
      var r7 := r6.(sh02 := r6.sh01);
      r7.(sh01 := zz)
    else r
  }

  /** The registers after the first `n` samples of the two pulse buffers. */
  function StateAfter(r: Registers, pls01: seq<real>, pls02: seq<real>, n: nat): (r': Registers)
    requires Bits(r)
    ensures Bits(r')
  {
    if n == 0 then r else Clock(StateAfter(r, pls01, pls02, n - 1), Sample(pls01, n - 1), Sample(pls02, n - 1))
  }

  /** The `run` output of one sample: the last three cells read as a binary fraction. */
  function RunValue(r: Registers): real
  {
    r.sh06 as real / 8.0 + r.sh07 as real / 4.0 + r.sh08 as real / 2.0
  }

  /** With bits in the cells, the `run` output is one of the eighths 0, 1/8, .., 7/8. */
  lemma RunValueRange(r: Registers)
    requires Bits(r)
    ensures 0.0 <= RunValue(r) <= 7.0 / 8.0
    ensures (RunValue(r) * 8.0).Floor as real == RunValue(r) * 8.0
  {
    var k := r.sh06 + 2 * r.sh07 + 4 * r.sh08;
    assert RunValue(r) * 8.0 == k as real;
  }

  /**
   * Cells `sh03` and `sh04` never leave 0 once they hold 0: `sh03` is never
   * assigned and `sh04` only ever receives `sh03`, so the register has six
   * live cells.
   */
  lemma {:induction false} DeadCells(r: Registers, pls01: seq<real>, pls02: seq<real>, n: nat)
    requires Bits(r) && r.sh03 == 0 && r.sh04 == 0
    ensures StateAfter(r, pls01, pls02, n).sh03 == 0 && StateAfter(r, pls01, pls02, n).sh04 == 0
  {
    if n > 0 {
      DeadCells(r, pls01, pls02, n - 1);
    }
  }

  /** No clock pulse in the first `n` samples: the register is where it started. */
  lemma {:induction false} NoClockNoShift(r: Registers, pls01: seq<real>, pls02: seq<real>, n: nat)
    requires Bits(r)
    requires forall i :: 0 <= i < n ==> !Above(Sample(pls02, i), 0.0)
    ensures StateAfter(r, pls01, pls02, n) == r
  {
    if n > 0 {
      NoClockNoShift(r, pls01, pls02, n - 1);
    }
  }

  /** The `xor` output sample at index `i` of a `process` call that starts from `r`. */
  function XorOut(r: Registers, pls01: seq<real>, pls02: seq<real>, i: nat): real
    requires Bits(r)
  {
    XorBit(StateAfter(r, pls01, pls02, i), Sample(pls01, i)) as real
  }

  /** The `run` output sample at index `i` of a `process` call that starts from `r`. */
  function RunOut(r: Registers, pls01: seq<real>, pls02: seq<real>, i: nat): real
    requires Bits(r)
  {
    RunValue(StateAfter(r, pls01, pls02, i + 1))
  }

  /** The `Rungler` processor: its eight cells, updated in place by `process`. */
  class Rungler {
    var sh01: int
    var sh02: int
    var sh03: int
    var sh04: int
    var sh05: int
    var sh06: int
    var sh07: int
    var sh08: int

    function State(): Registers
      reads this
    {
      Registers(sh01, sh02, sh03, sh04, sh05, sh06, sh07, sh08)
    }

    /** The cells hold bits, and the two cells that never receive a new bit hold 0. */
    ghost predicate Valid()
      reads this
    {
      Bits(State()) && sh03 == 0 && sh04 == 0
    }

    constructor()
      ensures Valid() && State() == Registers(0, 0, 0, 0, 0, 0, 0, 0)
    {
      sh01, sh02, sh03, sh04 := 0, 0, 0, 0;
      sh05, sh06, sh07, sh08 := 0, 0, 0, 0;
    }

    /**
     * `process`: for every index of the `run` buffer, compute the `xor`
     * sample from the data pulse and the first cell, shift on a clock
     * pulse, and write the `run` sample from the shifted cells. `xor`
     * writes past the end of its buffer are dropped, as for a typed array.
     */
    method Process(pls01: seq<real>, pls02: seq<real>, run: array<real>, xor: array<real>) returns (keepAlive: bool)
      requires Valid() && run != xor
      modifies this, run, xor
      ensures Valid() && keepAlive
      ensures State() == StateAfter(old(State()), pls01, pls02, run.Length)
      ensures forall i :: 0 <= i < run.Length ==> run[i] == RunOut(old(State()), pls01, pls02, i)
      ensures forall i :: 0 <= i < run.Length && i < xor.Length ==> xor[i] == XorOut(old(State()), pls01, pls02, i)
      ensures forall i :: run.Length <= i < xor.Length ==> xor[i] == old(xor[i])
    {
      ghost var r0 := State();
      var i := 0;
      while i < run.Length
        invariant 0 <= i <= run.Length
        invariant Valid() && State() == StateAfter(r0, pls01, pls02, i)
        invariant forall j :: 0 <= j < i ==> run[j] == RunOut(r0, pls01, pls02, j)
        invariant forall j :: 0 <= j < i && j < xor.Length ==> xor[j] == XorOut(r0, pls01, pls02, j)
        invariant forall j :: run.Length <= j < xor.Length ==> xor[j] == old(xor[j])
      {
        var zz := Tick(Sample(pls01, i), Sample(pls02, i));
        assert zz as real == XorOut(r0, pls01, pls02, i);
        assert State() == StateAfter(r0, pls01, pls02, i + 1);
        if i < xor.Length {
          xor[i] := zz as real;
        }
        run[i] := sh06 as real / 8.0 + sh07 as real / 4.0 + sh08 as real / 2.0;
        assert run[i] == RunOut(r0, pls01, pls02, i);
        i := i + 1;
      }
      keepAlive := true;
    }

    /**
     * The body of the sample loop of `process`, before the `run` sample is
     * written: the `xor` bit, then the shift on a clock pulse.
     */
    method Tick(dataPulse: Option<real>, clockPulse: Option<real>) returns (zz: int)
      requires Valid()
      modifies this
      ensures Valid()
      ensures zz == XorBit(old(State()), dataPulse)
      ensures State() == Clock(old(State()), dataPulse, clockPulse)
    {
      if dataPulse.Some? && dataPulse.value > 0.5 {
        zz := 1;
      } else {
        zz := 0;
      }
      zz := if zz == sh01 then 0 else 1;
      var xx := 0;
      if clockPulse.Some? && clockPulse.value > 0.0 {
        xx := 1;
      } else {
        xx := 0;
      }
      if xx == 1 {
        sh08 := sh07;
        sh07 := sh06;
        sh06 := sh05;
        sh05 := sh04;
        sh04 := sh03;
        sh05 := sh02;
        sh02 := sh01;
        sh01 := zz;
      }
    }
  }

  /** `Math.min(Math.max(v, lo), hi)`; NaN stays NaN. */
  function Clamp(v: Num, lo: real, hi: real): (r: Num)
    requires lo <= hi
    ensures v == NaN <==> r == NaN
    ensures r != NaN ==> r.Finite? && lo <= r.r <= hi
    ensures v.Finite? && lo <= v.r <= hi ==> r == v
  {
    match v
    case NaN => NaN
    case PosInf => Finite(hi)
    case Finite(x) => Finite(if x < lo then lo else if x > hi then hi else x)
  }

  /** `undefined * x` and `undefined + x` are NaN. */
  function SampleNum(v: Option<real>): Num
  {
    if v.Some? then Finite(v.value) else NaN
  }

  /** The oscillator's base pitch from its `FRQ` parameter. */
  function OscFrq(frqParam: real): real
  {
    frqParam / 128.0 * 141.0 - 61.0
  }

  /** The oscillator's pitch modulation depth from its `RUN` parameter. */
  function OscRun(runParam: real): real
  {
    runParam / 2.0
  }

  /** The oscillator's pitch for one `run` sample, clamped to the MIDI range -60 .. 127. */
  function OscPitch(frqParam: real, runParam: real, inRun: Option<real>): (r: Num)
    ensures inRun.Some? ==> r.Finite? && -60.0 <= r.r <= 127.0
    ensures inRun.None? ==> r == NaN
  {
    var v := if inRun.Some? then Finite(inRun.value * OscRun(runParam) + OscFrq(frqParam)) else NaN;
    Clamp(v, -60.0, 127.0)
  }

  /** The FRQ parameter's 0 .. 128 range spans base pitches -61 .. 80. */
  lemma OscFrqRange(frqParam: real)
    requires 0.0 <= frqParam <= 128.0
    ensures -61.0 <= OscFrq(frqParam) <= 80.0
  {
  }

  /**
   * `OscProcessor.process` up to the MIDI-to-frequency step: one clamped
   * pitch per index of the output buffer.
   */
  method OscProcess(frqParam: real, runParam: real, inRun: seq<real>, pitch: array<Num>) returns (keepAlive: bool)
    modifies pitch
    ensures keepAlive
    ensures forall i :: 0 <= i < pitch.Length ==> pitch[i] == OscPitch(frqParam, runParam, Sample(inRun, i))
  {
    var frq := frqParam / 128.0 * 141.0 - 61.0;
    var runDepth := runParam / 2.0;
    var i := 0;
    while i < pitch.Length
      invariant 0 <= i <= pitch.Length
      invariant forall j :: 0 <= j < i ==> pitch[j] == OscPitch(frqParam, runParam, Sample(inRun, j))
    {
      var outValue := if i < |inRun| then Finite(inRun[i] * runDepth + frq) else NaN;
      outValue := Clamp(outValue, -60.0, 127.0);
      pitch[i] := outValue;
      i := i + 1;
    }
    keepAlive := true;
  }

  /** The filter's cutoff pitch for one sample, clamped to the MIDI range 0 .. 127. */
  function FilterPitch(filFrq: real, filRun: real, filSwp: real, inRun: Option<real>, tri: Option<real>): (r: Num)
    ensures inRun.Some? && tri.Some? ==> r.Finite? && 0.0 <= r.r <= 127.0
    ensures inRun.None? || tri.None? ==> r == NaN
  {
    var v := if inRun.Some? && tri.Some? then
      Finite(filFrq + (filRun / 127.0 * inRun.value * 127.0) + (filSwp / 127.0 * tri.value * 127.0))
    else NaN;
    Clamp(v, 0.0, 127.0)
  }

  /**
   * The parameter scaling by 1/127 and the sample scaling by 127 cancel:
   * the unclamped filter pitch is `FIL_FRQ + FIL_RUN * run + FIL_SWP * tri`,
   * and it passes the clamp unchanged when it lies in 0 .. 127.
   */
  lemma FilterPitchUnscaled(filFrq: real, filRun: real, filSwp: real, run: real, tri: real)
    ensures 0.0 <= filFrq + filRun * run + filSwp * tri <= 127.0 ==>
      FilterPitch(filFrq, filRun, filSwp, Some(run), Some(tri)) == Finite(filFrq + filRun * run + filSwp * tri)
  {
    assert filRun / 127.0 * run * 127.0 == filRun * run;
    assert filSwp / 127.0 * tri * 127.0 == filSwp * tri;
  }

  /**
   * `ComputeFilterFreq.process` up to the MIDI-to-frequency step: one
   * clamped cutoff pitch per index of the output buffer.
   */
  method FilterProcess(filFrq: real, filRunParam: real, filSwpParam: real,
                       inRun: seq<real>, tri02: seq<real>, pitch: array<Num>) returns (keepAlive: bool)
    modifies pitch
    ensures keepAlive
    ensures forall i :: 0 <= i < pitch.Length ==>
      pitch[i] == FilterPitch(filFrq, filRunParam, filSwpParam, Sample(inRun, i), Sample(tri02, i))
  {
    var filRun := filRunParam / 127.0;
    var filSwp := filSwpParam / 127.0;
    var i := 0;
    while i < pitch.Length
      invariant 0 <= i <= pitch.Length
      invariant forall j :: 0 <= j < i ==>
        pitch[j] == FilterPitch(filFrq, filRunParam, filSwpParam, Sample(inRun, j), Sample(tri02, j))
    {
      var outValue := if i < |inRun| && i < |tri02| then
        Finite(filFrq + (filRun * inRun[i] * 127.0) + (filSwp * tri02[i] * 127.0))
      else NaN;
      outValue := Clamp(outValue, 0.0, 127.0);
      pitch[i] := outValue;
      i := i + 1;
    }
    keepAlive := true;
  }
}
