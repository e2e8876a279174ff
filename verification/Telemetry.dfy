/** Sample validity, freshness, normalization and the sensory mapping (src/telemetry.rs). */
module Telemetry {
  import opened Prelude
  import opened Float32
  import opened Clock

  datatype TelemetrySource = Nvml | SoftwareFallback | NvmlUnavailable

  datatype SampleValidity = Valid | Missing | Invalid | Stale

  datatype SignalId =
    | GpuTempC
    | VramTempC
    | PowerW
    | VddcrGfxV
    | GpuClockMhz
    | MemClockMhz
    | FanSpeedPct
    | MemUtilPct

  datatype SignalClass = RuntimeInput | SafetyOnly | ObservabilityOnly | Both {
    predicate IncludesRuntimeInput() {
      RuntimeInput? || Both?
    }

    predicate IncludesSafety() {
      SafetyOnly? || Both?
    }
  }

  datatype Normalization = Identity | Linear(lo: real, hi: real)

  datatype SignalSpec = SignalSpec(
    name: string,
    min: real,
    max: real,
    usage: SignalClass,
    normalization: Normalization,
    staleAfterMs: nat)

  const EPSILON: real := 1.0 / 8388608.0
  const SAFETY_EVAL_TICKS: nat := 10

  function Spec(id: SignalId): SignalSpec {
    match id
    case GpuTempC => SignalSpec("gpu_temp_c", 0.0, 125.0, Both, Linear(0.0, 100.0), 2000)
    case VramTempC => SignalSpec("vram_temp_c", 0.0, 125.0, ObservabilityOnly, Linear(0.0, 100.0), 5000)
    case PowerW => SignalSpec("power_w", 0.0, 2000.0, Both, Linear(0.0, 350.0), 2000)
    case VddcrGfxV => SignalSpec("vddcr_gfx_v", 0.4, 1.5, ObservabilityOnly, Linear(0.5, 1.2), 5000)
    case GpuClockMhz => SignalSpec("gpu_clock_mhz", 0.0, 3000.0, RuntimeInput, Linear(0.0, 2500.0), 5000)
    case MemClockMhz => SignalSpec("mem_clock_mhz", 0.0, 12000.0, ObservabilityOnly, Linear(0.0, 10000.0), 5000)
    case FanSpeedPct => SignalSpec("fan_speed_pct", 0.0, 100.0, ObservabilityOnly, Linear(0.0, 100.0), 5000)
    case MemUtilPct => SignalSpec("mem_util_pct", 0.0, 100.0, RuntimeInput, Linear(0.0, 100.0), 5000)
  }

  function Clamp01(v: real): real {
    if v < 0.0 then 0.0 else if v > 1.0 then 1.0 else v
  }

  function Normalize(n: Normalization, value: F32): F32 {
    match n
    case Identity => value
    case Linear(lo, hi) =>
      var span := hi - lo;
      if -EPSILON < span < EPSILON then Finite(0.0)
      else match value
        case Finite(v) => Finite(Clamp01((v - lo) / span))
        case NaN => NaN
        case PosInf => Finite(if span > 0.0 then 1.0 else 0.0)
        case NegInf => Finite(if span > 0.0 then 0.0 else 1.0)
  }

  /** The age limit of a channel; a safety reading may outlive one evaluation but not two. */
  function StaleAfterMs(id: SignalId, cadenceMs: nat): nat {
    if Spec(id).usage.IncludesSafety() then
      SatMul64(SatMul64(if cadenceMs == 0 then 1 else cadenceMs, SAFETY_EVAL_TICKS), 2)
    else
      Spec(id).staleAfterMs
  }

  datatype Sample = Sample(
    signal: SignalId,
    value: Option<F32>,
    observedAt: nat,
    source: TelemetrySource,
    validity: SampleValidity)

  function ValueAndValidity(spec: SignalSpec, raw: Option<F32>, observedAt: nat, now: nat, staleAfterMs: nat)
    : (Option<F32>, SampleValidity)
  {
    match raw
    case None => (None, SampleValidity.Missing)
    case Some(v) =>
      if !v.Finite? then (None, Invalid)
      else if observedAt > now then (raw, Invalid)
      else if v.r < spec.min || v.r > spec.max then (raw, Invalid)
      else if SatSub(now, observedAt) >= staleAfterMs then (raw, Stale)
      else (raw, Valid)
  }

  function SampleFromRaw(id: SignalId, raw: Option<F32>, observedAt: nat, source: TelemetrySource,
                         now: nat, staleAfterMs: nat): Sample
  {
    var vv := ValueAndValidity(Spec(id), raw, observedAt, now, staleAfterMs);
    Sample(id, vv.0, observedAt, source, vv.1)
  }

  function Normalized(s: Sample): Option<F32> {
    if s.validity != Valid || s.value.None? then None
    else Some(Normalize(Spec(s.signal).normalization, s.value.value))
  }

  /** Only a sample that was valid when assessed can be valid later, and only while the frame is fresh. */
  function AtTimeFrom(s: Sample, now: nat, receivedAt: nat, staleAfterMs: nat): Sample {
    if s.value.None? || s.validity != Valid then s
    else s.(validity := if SatSub(now, receivedAt) >= staleAfterMs then Stale else Valid)
  }

  datatype RawTelemetry = RawTelemetry(
    sourceUnixMs: Option<nat>,
    source: TelemetrySource,
    gpuTempC: Option<F32>,
    vramTempC: Option<F32>,
    powerW: Option<F32>,
    vddcrGfxV: Option<F32>,
    gpuClockMhz: Option<F32>,
    memClockMhz: Option<F32>,
    fanSpeedPct: Option<F32>,
    memUtilPct: Option<F32>)
  {
    function Value(id: SignalId): Option<F32> {
      match id
      case GpuTempC => gpuTempC
      case VramTempC => vramTempC
      case PowerW => powerW
      case VddcrGfxV => vddcrGfxV
      case GpuClockMhz => gpuClockMhz
      case MemClockMhz => memClockMhz
      case FanSpeedPct => fanSpeedPct
      case MemUtilPct => memUtilPct
    }
  }

  /** Driver or device unavailable: every channel missing, nothing fabricated. */
  function NvmlUnavailableRaw(observedAt: nat): RawTelemetry {
    RawTelemetry(Some(observedAt), NvmlUnavailable, None, None, None, None, None, None, None, None)
  }

  /** Documented idle estimates, tagged as simulated by their source alone. */
  function SoftwareFallbackRaw(observedAt: nat): RawTelemetry {
    RawTelemetry(Some(observedAt), SoftwareFallback, Some(Finite(35.0)), None, Some(Finite(25.0)), Some(Finite(0.7)),
                 Some(Finite(210.0)), Some(Finite(405.0)), Some(Finite(30.0)), Some(Finite(0.0)))
  }

  datatype TelemetryFrame = TelemetryFrame(
    sessionId: string,
    batchId: U64,
    sourceUnixMs: Option<nat>,
    receivedAtUnixMs: nat,
    sourceTimeStatus: SourceTimeStatus,
    acquiredAt: nat,
    source: TelemetrySource,
    acquisitionCadenceMs: nat,
    gpuTempC: Sample,
    vramTempC: Sample,
    powerW: Sample,
    vddcrGfxV: Sample,
    gpuClockMhz: Sample,
    memClockMhz: Sample,
    fanSpeedPct: Sample,
    memUtilPct: Sample)
  {
    function Samples(): seq<Sample> {
      [gpuTempC, vramTempC, powerW, vddcrGfxV, gpuClockMhz, memClockMhz, fanSpeedPct, memUtilPct]
    }
  }

  function ObservedAt(raw: RawTelemetry, now: nat): nat {
    if raw.sourceUnixMs.Some? then raw.sourceUnixMs.value else now
  }

  function ChannelOf(raw: RawTelemetry, id: SignalId, now: nat, cadenceMs: nat): Sample {
    SampleFromRaw(id, raw.Value(id), ObservedAt(raw, now), raw.source, now, StaleAfterMs(id, cadenceMs))
  }

  function FrameOf(raw: RawTelemetry, timing: FrameTiming, now: nat, cadenceMs: nat): TelemetryFrame {
    TelemetryFrame(
      timing.sessionId,
      timing.batchId,
      timing.sourceUnixMs,
      timing.receivedAtUnixMs,
      timing.sourceTimeStatus,
      timing.receivedAtUnixMs,
      raw.source,
      Max(cadenceMs, 1),
      ChannelOf(raw, GpuTempC, now, cadenceMs),
      ChannelOf(raw, VramTempC, now, cadenceMs),
      ChannelOf(raw, PowerW, now, cadenceMs),
      ChannelOf(raw, VddcrGfxV, now, cadenceMs),
      ChannelOf(raw, GpuClockMhz, now, cadenceMs),
      ChannelOf(raw, MemClockMhz, now, cadenceMs),
      ChannelOf(raw, FanSpeedPct, now, cadenceMs),
      ChannelOf(raw, MemUtilPct, now, cadenceMs))
  }

  /** The frame that assessing `raw` at `now` yields when the clock is in state `c`. */
  function Assessed(raw: RawTelemetry, now: nat, cadenceMs: nat, c: ClockState): TelemetryFrame {
    FrameOf(raw, TimingAt(c, raw.sourceUnixMs, now), now, cadenceMs)
  }

  method AssessWithClock(raw: RawTelemetry, now: nat, cadenceMs: nat, clock: SampleClock)
    returns (frame: TelemetryFrame)
    requires clock.nextBatchId < U64_MAX
    modifies clock
    ensures frame == Assessed(raw, now, cadenceMs, old(clock.View()))
    ensures clock.View() == Ticked(old(clock.View()), raw.sourceUnixMs)
  {
    var timing := clock.Stamp(raw.sourceUnixMs, now);
    frame := FrameOf(raw, timing, now, cadenceMs);
  }

  // ---- what a frame says about its readings ---------------------------------

  /** How old a reading is when it is assessed; negative when it claims to come from the future. */
  function AgeMs(raw: RawTelemetry, now: nat): int {
    if raw.sourceUnixMs.Some? then now - raw.sourceUnixMs.value else 0
  }

  predicate Within(r: Option<F32>, min: real, max: real) {
    r.Some? && r.value.Finite? && min <= r.value.r <= max
  }

  /** A sample and the reading it was made from: the number is kept, and its validity is one of four, exactly. */
  predicate SampleOf(s: Sample, raw: RawTelemetry, r: Option<F32>, now: nat, min: real, max: real, staleAfterMs: nat) {
    var plausible := Within(r, min, max) && AgeMs(raw, now) >= 0;
    && s.value == (if r.Some? && r.value.Finite? then r else None)
    && s.source == raw.source
    && (s.validity == SampleValidity.Missing <==> r.None?)
    && (s.validity == Invalid <==> r.Some? && !plausible)
    && (s.validity == Stale <==> plausible && AgeMs(raw, now) >= staleAfterMs)
    && (s.validity == Valid <==> plausible && AgeMs(raw, now) < staleAfterMs)
  }

  /** Every channel of a frame carries its own reading, judged by its own range and age limit. */
  lemma SamplesCarryTheirReadings(raw: RawTelemetry, now: nat, cadenceMs: nat, c: ClockState)
    ensures var f := Assessed(raw, now, cadenceMs, c);
            var safetyStale := Min(20 * Max(cadenceMs, 1), U64_MAX);
            && SampleOf(f.gpuTempC, raw, raw.gpuTempC, now, 0.0, 125.0, safetyStale)
            && SampleOf(f.powerW, raw, raw.powerW, now, 0.0, 2000.0, safetyStale)
            && SampleOf(f.vramTempC, raw, raw.vramTempC, now, 0.0, 125.0, 5000)
            && SampleOf(f.vddcrGfxV, raw, raw.vddcrGfxV, now, 0.4, 1.5, 5000)
            && SampleOf(f.gpuClockMhz, raw, raw.gpuClockMhz, now, 0.0, 3000.0, 5000)
            && SampleOf(f.memClockMhz, raw, raw.memClockMhz, now, 0.0, 12000.0, 5000)
            && SampleOf(f.fanSpeedPct, raw, raw.fanSpeedPct, now, 0.0, 100.0, 5000)
            && SampleOf(f.memUtilPct, raw, raw.memUtilPct, now, 0.0, 100.0, 5000)
  {
    var safetyStale := Min(20 * Max(cadenceMs, 1), U64_MAX);
    ChannelOfReading(raw, GpuTempC, now, cadenceMs, 0.0, 125.0, safetyStale);
    ChannelOfReading(raw, PowerW, now, cadenceMs, 0.0, 2000.0, safetyStale);
    ChannelOfReading(raw, VramTempC, now, cadenceMs, 0.0, 125.0, 5000);
    ChannelOfReading(raw, VddcrGfxV, now, cadenceMs, 0.4, 1.5, 5000);
    ChannelOfReading(raw, GpuClockMhz, now, cadenceMs, 0.0, 3000.0, 5000);
    ChannelOfReading(raw, MemClockMhz, now, cadenceMs, 0.0, 12000.0, 5000);
    ChannelOfReading(raw, FanSpeedPct, now, cadenceMs, 0.0, 100.0, 5000);
    ChannelOfReading(raw, MemUtilPct, now, cadenceMs, 0.0, 100.0, 5000);
  }

  lemma ChannelOfReading(raw: RawTelemetry, id: SignalId, now: nat, cadenceMs: nat, min: real, max: real, stale: nat)
    requires Spec(id).min == min && Spec(id).max == max && StaleAfterMs(id, cadenceMs) == stale
    ensures SampleOf(ChannelOf(raw, id, now, cadenceMs), raw, raw.Value(id), now, min, max, stale)
  {
  }

  datatype MappedStimulus = MappedStimulus(
    signal: SignalId,
    name: string,
    source: TelemetrySource,
    validity: SampleValidity,
    raw: Option<F32>,
    normalized: Option<F32>,
    staleAfterMs: nat,
    cadenceMs: nat)

  function StimulusFromSample(s: Sample, cadenceMs: nat, staleAfterMs: nat): MappedStimulus {
    MappedStimulus(s.signal, Spec(s.signal).name, s.source, s.validity, s.value, Normalized(s), staleAfterMs, cadenceMs)
  }

  function MappedAt(f: TelemetryFrame, s: Sample, now: nat): MappedStimulus {
    var staleAfterMs := StaleAfterMs(s.signal, f.acquisitionCadenceMs);
    StimulusFromSample(AtTimeFrom(s, now, f.receivedAtUnixMs, staleAfterMs), f.acquisitionCadenceMs, staleAfterMs)
  }

  function RuntimeStimuli(f: TelemetryFrame, samples: seq<Sample>, now: nat): seq<MappedStimulus> {
    if samples == [] then []
    else
      (if Spec(samples[0].signal).usage.IncludesRuntimeInput() then [MappedAt(f, samples[0], now)] else [])
      + RuntimeStimuli(f, samples[1..], now)
  }

  datatype SensoryMapping = SensoryMapping(
    sessionId: string,
    batchId: U64,
    sourceUnixMs: Option<nat>,
    receivedAtUnixMs: nat,
    emittedAtUnixMs: nat,
    sourceTimeStatus: SourceTimeStatus,
    acquisitionSource: TelemetrySource,
    acquisitionCadenceMs: nat,
    stimuli: seq<MappedStimulus>)

  function ToSensoryMappingAt(f: TelemetryFrame, now: nat): SensoryMapping {
    SensoryMapping(f.sessionId, f.batchId, f.sourceUnixMs, f.receivedAtUnixMs, now, f.sourceTimeStatus,
                   f.source, f.acquisitionCadenceMs, RuntimeStimuli(f, f.Samples(), now))
  }

  /** Every field of the frame carries the sample of its own signal. */
  predicate InventoryOrder(f: TelemetryFrame) {
    && f.gpuTempC.signal == GpuTempC && f.vramTempC.signal == VramTempC
    && f.powerW.signal == PowerW && f.vddcrGfxV.signal == VddcrGfxV
    && f.gpuClockMhz.signal == GpuClockMhz && f.memClockMhz.signal == MemClockMhz
    && f.fanSpeedPct.signal == FanSpeedPct && f.memUtilPct.signal == MemUtilPct
  }

  /** Exactly the four runtime-input channels are mapped, in inventory order, with no filler. */
  lemma MappedChannels(f: TelemetryFrame, now: nat)
    requires InventoryOrder(f)
    ensures ToSensoryMappingAt(f, now).stimuli ==
            [MappedAt(f, f.gpuTempC, now), MappedAt(f, f.powerW, now),
             MappedAt(f, f.gpuClockMhz, now), MappedAt(f, f.memUtilPct, now)]
  {
    var s := f.Samples();
    MappedTail(f, now);
    PeelSample(f, s, 3, now);
    PeelSample(f, s, 2, now);
    PeelSample(f, s, 1, now);
    PeelSample(f, s, 0, now);
    assert s[0..] == s;
  }

  lemma MappedTail(f: TelemetryFrame, now: nat)
    requires InventoryOrder(f)
    ensures RuntimeStimuli(f, f.Samples()[4..], now)
         == [MappedAt(f, f.gpuClockMhz, now), MappedAt(f, f.memUtilPct, now)]
  {
    var s := f.Samples();
    PeelSample(f, s, 7, now);
    PeelSample(f, s, 6, now);
    PeelSample(f, s, 5, now);
    PeelSample(f, s, 4, now);
  }

  lemma PeelSample(f: TelemetryFrame, s: seq<Sample>, i: nat, now: nat)
    requires i < |s|
    ensures RuntimeStimuli(f, s[i..], now) ==
            (if Spec(s[i].signal).usage.IncludesRuntimeInput() then [MappedAt(f, s[i], now)] else [])
            + RuntimeStimuli(f, s[i + 1..], now)
  {
    assert s[i..][1..] == s[i + 1..];
  }

  /** A linear scale is affine between its ends and flat beyond them. */
  lemma LinearScale(lo: real, hi: real, v: real)
    requires hi - lo >= EPSILON
    ensures var r := Normalize(Linear(lo, hi), Finite(v));
            && r.Finite?
            && (lo <= v <= hi ==> r.r * (hi - lo) == v - lo)
            && (v < lo ==> r.r == 0.0)
            && (v > hi ==> r.r == 1.0)
    ensures Normalize(Linear(lo, hi), PosInf) == Finite(1.0) && Normalize(Linear(lo, hi), NegInf) == Finite(0.0)
  {
    Quotient(v - lo, hi - lo);
  }

  lemma Quotient(x: real, d: real)
    requires d > 0.0
    ensures (x / d) * d == x
    ensures x < 0.0 <==> x / d < 0.0
    ensures x > d <==> x / d > 1.0
  {
    var q := x / d;
    assert q * d == x;
    SignOfProduct(q, d);
    SignOfProduct(q - 1.0, d);
    assert (q - 1.0) * d == x - d;
  }

  lemma SignOfProduct(q: real, d: real)
    requires d > 0.0
    ensures q < 0.0 <==> q * d < 0.0
    ensures q > 0.0 <==> q * d > 0.0
  {
  }

  /** What a mapping says about its frame besides the channels. */
  lemma MappingCarries(raw: RawTelemetry, t: nat, cadenceMs: nat, c: ClockState, now: nat)
    ensures var m := ToSensoryMappingAt(Assessed(raw, t, cadenceMs, c), now);
            && m.sessionId == c.sessionId && m.batchId == c.nextBatchId
            && m.sourceUnixMs == raw.sourceUnixMs && m.receivedAtUnixMs == t && m.emittedAtUnixMs == now
            && m.acquisitionSource == raw.source && m.acquisitionCadenceMs == Max(cadenceMs, 1)
            && m.sourceTimeStatus == TimingAt(c, raw.sourceUnixMs, t).sourceTimeStatus
  {
  }

  /** A frame is re-mapped at a later instant: freshness is only ever lost. */
  lemma {:induction false} FreshnessIsOnlyLost(f: TelemetryFrame, samples: seq<Sample>, now: nat, later: nat, i: nat)
    requires now <= later
    requires i < |RuntimeStimuli(f, samples, now)|
    ensures |RuntimeStimuli(f, samples, later)| == |RuntimeStimuli(f, samples, now)|
    ensures RuntimeStimuli(f, samples, later)[i].validity == Valid ==>
              RuntimeStimuli(f, samples, now)[i].validity == Valid
    ensures RuntimeStimuli(f, samples, later)[i].normalized.Some? ==>
              RuntimeStimuli(f, samples, later)[i] == RuntimeStimuli(f, samples, now)[i]
  {
    if Spec(samples[0].signal).usage.IncludesRuntimeInput() {
      if i > 0 {
        FreshnessIsOnlyLost(f, samples[1..], now, later, i - 1);
      } else if |RuntimeStimuli(f, samples[1..], now)| > 0 {
        FreshnessIsOnlyLost(f, samples[1..], now, later, 0);
      } else {
        NoStimuliAtAnyTime(f, samples[1..], now, later);
      }
    } else {
      FreshnessIsOnlyLost(f, samples[1..], now, later, i);
    }
  }

  lemma {:induction false} NoStimuliAtAnyTime(f: TelemetryFrame, samples: seq<Sample>, now: nat, later: nat)
    requires RuntimeStimuli(f, samples, now) == []
    ensures RuntimeStimuli(f, samples, later) == []
  {
    if samples != [] {
      NoStimuliAtAnyTime(f, samples[1..], now, later);
    }
  }

  /**
   * Every channel that is mapped with a value came from a finite, in-range
   * reading that was not from the future, and the value lies in [0, 1].
   */
  lemma MappedValueIsNormalized(raw: RawTelemetry, t: nat, cadenceMs: nat, c: ClockState, id: SignalId, now: nat)
    requires Spec(id).usage.IncludesRuntimeInput()
    ensures var f := Assessed(raw, t, cadenceMs, c);
            var m := MappedAt(f, ChannelOf(raw, id, t, cadenceMs), now);
            && (m.normalized.Some? <==> m.validity == Valid)
            && (m.validity == Valid ==>
                  && raw.Value(id).Some? && raw.Value(id).value.Finite?
                  && Spec(id).min <= raw.Value(id).value.r <= Spec(id).max
                  && ObservedAt(raw, t) <= t
                  && SatSub(t, ObservedAt(raw, t)) < m.staleAfterMs
                  && SatSub(now, t) < m.staleAfterMs
                  && m.normalized.value.Finite? && 0.0 <= m.normalized.value.r <= 1.0)
  {
    assert StaleAfterMs(id, Max(cadenceMs, 1)) == StaleAfterMs(id, cadenceMs);
  }
}
