/** From sensory mapping to wire batch (src/publish.rs). */
module Wire {
  import opened Prelude
  import opened Float32
  import Clock
  import opened Telemetry
  import opened Text

  const SOURCE_IDENTITY := "vahtisiru"

  datatype StimulusBatch = StimulusBatch(
    sessionId: Option<string>,
    batchId: U64,
    timestampNs: U64,
    values: seq<F32>,
    validMask: seq<bool>,
    source: string,
    custom: map<string, string>)

  function SourceName(source: TelemetrySource): string {
    match source
    case Nvml => "nvml"
    case SoftwareFallback => "software_fallback"
    case NvmlUnavailable => "nvml_unavailable"
  }

  function ValidityName(v: SampleValidity): string {
    match v
    case Valid => "valid"
    case Missing => "missing"
    case Invalid => "invalid"
    case Stale => "stale"
  }

  /** What a consumer reads back from a validity name. */
  function NamedValidity(name: string): Option<SampleValidity> {
    if name == "valid" then Some(Valid)
    else if name == "missing" then Some(SampleValidity.Missing)
    else if name == "invalid" then Some(Invalid)
    else if name == "stale" then Some(Stale)
    else None
  }

  // ---- the batch -----------------------------------------------------------------

  function MaskedIn(m: MappedStimulus): bool {
    m.validity == Valid && m.normalized.Some?
  }

  function WireValue(m: MappedStimulus): F32 {
    if MaskedIn(m) then m.normalized.value else Finite(0.0)
  }

  function Values(ms: seq<MappedStimulus>): seq<F32> {
    seq(|ms|, i requires 0 <= i < |ms| => WireValue(ms[i]))
  }

  function Mask(ms: seq<MappedStimulus>): seq<bool> {
    seq(|ms|, i requires 0 <= i < |ms| => MaskedIn(ms[i]))
  }

  function Names(ms: seq<MappedStimulus>): seq<string> {
    seq(|ms|, i requires 0 <= i < |ms| => ms[i].name)
  }

  function ValidityNames(ms: seq<MappedStimulus>): seq<string> {
    seq(|ms|, i requires 0 <= i < |ms| => ValidityName(ms[i].validity))
  }

  function StaleNames(ms: seq<MappedStimulus>): seq<string> {
    seq(|ms|, i requires 0 <= i < |ms| => PrintNat(ms[i].staleAfterMs))
  }

  function Provenance(m: SensoryMapping, channels: seq<string>, validity: seq<string>, staleAfter: seq<string>)
    : map<string, string>
  {
    map["acquisition_source" := SourceName(m.acquisitionSource),
        "acquisition_cadence_ms" := PrintNat(m.acquisitionCadenceMs),
        "channels" := Join(channels, ','),
        "validity" := Join(validity, ','),
        "stale_after_ms" := Join(staleAfter, ',')]
  }

  function BatchOf(m: SensoryMapping, sessionId: Option<string>, batchId: U64): StimulusBatch {
    StimulusBatch(sessionId, batchId, SatMul64(m.emittedAtUnixMs, 1000000),
                  Values(m.stimuli), Mask(m.stimuli), SOURCE_IDENTITY,
                  Provenance(m, Names(m.stimuli), ValidityNames(m.stimuli), StaleNames(m.stimuli)))
  }

  lemma ListsAppend(ms: seq<MappedStimulus>, m: MappedStimulus)
    ensures Values(ms + [m]) == Values(ms) + [WireValue(m)] && Mask(ms + [m]) == Mask(ms) + [MaskedIn(m)]
    ensures Names(ms + [m]) == Names(ms) + [m.name]
    ensures ValidityNames(ms + [m]) == ValidityNames(ms) + [ValidityName(m.validity)]
    ensures StaleNames(ms + [m]) == StaleNames(ms) + [PrintNat(m.staleAfterMs)]
  {
  }

  method MappingToStimulusBatch(m: SensoryMapping, sessionId: Option<string>, batchId: U64)
    returns (batch: StimulusBatch)
    ensures batch == BatchOf(m, sessionId, batchId)
  {
    var values: seq<F32> := [];
    var validMask: seq<bool> := [];
    var channels: seq<string> := [];
    var validity: seq<string> := [];
    var staleAfter: seq<string> := [];
    for k := 0 to |m.stimuli|
      invariant values == Values(m.stimuli[..k]) && validMask == Mask(m.stimuli[..k])
      invariant channels == Names(m.stimuli[..k])
      invariant validity == ValidityNames(m.stimuli[..k])
      invariant staleAfter == StaleNames(m.stimuli[..k])
    {
      var stimulus := m.stimuli[k];
      ListsAppend(m.stimuli[..k], stimulus);
      assert m.stimuli[..k + 1] == m.stimuli[..k] + [stimulus];
      channels := channels + [stimulus.name];
      validity := validity + [ValidityName(stimulus.validity)];
      staleAfter := staleAfter + [PrintNat(stimulus.staleAfterMs)];
      match (stimulus.validity, stimulus.normalized) {
        case (Valid, Some(value)) =>
          values := values + [value];
          validMask := validMask + [true];
        case _ =>
          values := values + [Finite(0.0)];
          validMask := validMask + [false];
      }
    }
    assert m.stimuli[..|m.stimuli|] == m.stimuli;
    batch := StimulusBatch(sessionId, batchId, SatMul64(m.emittedAtUnixMs, 1000000), values, validMask,
                           SOURCE_IDENTITY, Provenance(m, channels, validity, staleAfter));
  }

  // ---- faithfulness -----------------------------------------------------------------

  lemma ChannelNameHasNoComma(id: SignalId)
    ensures Without(Spec(id).name, ',')
  {
    match id
    case GpuTempC => assert Without("gpu_temp_c", ',');
    case PowerW => assert Without("power_w", ',');
    case VddcrGfxV => assert Without("vddcr_gfx_v", ',');
    case GpuClockMhz => assert Without("gpu_clock_mhz", ',');
    case MemClockMhz => assert Without("mem_clock_mhz", ',');
    case VramTempC => assert Without("vram_temp_c", ',');
    case FanSpeedPct => assert Without("fan_speed_pct", ',');
    case MemUtilPct => assert Without("mem_util_pct", ',');
  }

  lemma ValidityNameIsReadable(v: SampleValidity)
    ensures Without(ValidityName(v), ',')
    ensures NamedValidity(ValidityName(v)) == Some(v)
  {
  }

  lemma NumbersHaveNoComma(n: nat)
    ensures Without(PrintNat(n), ',')
  {
    PrintedDigits(n);
  }

  /** The joined strings carry the per-channel lists without loss, for any mapping of known channels. */
  lemma ListsAreRecoverable(m: SensoryMapping, sessionId: Option<string>, batchId: U64)
    requires m.stimuli != [] && forall i :: 0 <= i < |m.stimuli| ==> m.stimuli[i].name == Spec(m.stimuli[i].signal).name
    ensures var custom := BatchOf(m, sessionId, batchId).custom;
            && Split(custom["channels"], ',') == Names(m.stimuli)
            && Split(custom["validity"], ',') == ValidityNames(m.stimuli)
            && Split(custom["stale_after_ms"], ',') == StaleNames(m.stimuli)
    ensures forall i :: 0 <= i < |m.stimuli| ==>
              NamedValidity(ValidityNames(m.stimuli)[i]) == Some(m.stimuli[i].validity)
  {
    forall i | 0 <= i < |m.stimuli|
      ensures Without(Names(m.stimuli)[i], ',') && Without(ValidityNames(m.stimuli)[i], ',')
      ensures Without(StaleNames(m.stimuli)[i], ',')
      ensures NamedValidity(ValidityNames(m.stimuli)[i]) == Some(m.stimuli[i].validity)
    {
      ChannelNameHasNoComma(m.stimuli[i].signal);
      ValidityNameIsReadable(m.stimuli[i].validity);
      NumbersHaveNoComma(m.stimuli[i].staleAfterMs);
    }
    SplitOfJoin(Names(m.stimuli), ',');
    SplitOfJoin(ValidityNames(m.stimuli), ',');
    SplitOfJoin(StaleNames(m.stimuli), ',');
  }

  /** One bit per channel, set exactly when the channel is valid; values in [0, 1] behind it, 0 otherwise. */
  ghost predicate FaithfulEntry(m: MappedStimulus, value: F32, bit: bool) {
    && (bit <==> m.validity == Valid)
    && (bit ==> value.Finite? && 0.0 <= value.r <= 1.0)
    && (!bit ==> value == Finite(0.0))
  }

  lemma ChannelOnWire(raw: RawTelemetry, t: nat, cadenceMs: nat, c: Clock.ClockState, id: SignalId, now: nat)
    requires Spec(id).usage.IncludesRuntimeInput()
    ensures var m := MappedAt(Assessed(raw, t, cadenceMs, c), ChannelOf(raw, id, t, cadenceMs), now);
            FaithfulEntry(m, WireValue(m), MaskedIn(m)) && m.name == Spec(id).name && m.signal == id
  {
    MappedValueIsNormalized(raw, t, cadenceMs, c, id, now);
  }

  lemma AssessedStimuli(raw: RawTelemetry, t: nat, cadenceMs: nat, c: Clock.ClockState, now: nat)
    ensures var ms := ToSensoryMappingAt(Assessed(raw, t, cadenceMs, c), now).stimuli;
            && |ms| == 4
            && (forall i :: 0 <= i < 4 ==> FaithfulEntry(ms[i], WireValue(ms[i]), MaskedIn(ms[i])))
            && (forall i :: 0 <= i < 4 ==> ms[i].name == Spec(ms[i].signal).name)
            && Names(ms) == ["gpu_temp_c", "power_w", "gpu_clock_mhz", "mem_util_pct"]
  {
    MappedChannels(Assessed(raw, t, cadenceMs, c), now);
    ChannelOnWire(raw, t, cadenceMs, c, GpuTempC, now);
    ChannelOnWire(raw, t, cadenceMs, c, PowerW, now);
    ChannelOnWire(raw, t, cadenceMs, c, GpuClockMhz, now);
    ChannelOnWire(raw, t, cadenceMs, c, MemUtilPct, now);
  }

  /**
   * A batch made from any assessed frame, at any time: a faithful entry per
   * runtime-input channel, and strings from which the channel names and each
   * channel's validity can be read back.
   */
  lemma BatchIsFaithful(raw: RawTelemetry, t: nat, cadenceMs: nat, c: Clock.ClockState, now: nat,
                        sessionId: Option<string>, batchId: U64)
    ensures var m := ToSensoryMappingAt(Assessed(raw, t, cadenceMs, c), now);
            var b := BatchOf(m, sessionId, batchId);
            && |m.stimuli| == |b.values| == |b.validMask| == |Split(b.custom["validity"], ',')| == 4
            && Split(b.custom["channels"], ',') == ["gpu_temp_c", "power_w", "gpu_clock_mhz", "mem_util_pct"]
            && forall i :: 0 <= i < 4 ==>
                 && FaithfulEntry(m.stimuli[i], b.values[i], b.validMask[i])
                 && NamedValidity(Split(b.custom["validity"], ',')[i]) == Some(m.stimuli[i].validity)
  {
    AssessedStimuli(raw, t, cadenceMs, c, now);
    BatchEntries(ToSensoryMappingAt(Assessed(raw, t, cadenceMs, c), now), sessionId, batchId);
  }

  lemma BatchEntries(m: SensoryMapping, sessionId: Option<string>, batchId: U64)
    requires m.stimuli != [] && forall i :: 0 <= i < |m.stimuli| ==> m.stimuli[i].name == Spec(m.stimuli[i].signal).name
    ensures var b := BatchOf(m, sessionId, batchId);
            && |b.values| == |b.validMask| == |Split(b.custom["validity"], ',')| == |m.stimuli|
            && Split(b.custom["channels"], ',') == Names(m.stimuli)
            && forall i :: 0 <= i < |m.stimuli| ==>
                 && b.values[i] == WireValue(m.stimuli[i]) && b.validMask[i] == MaskedIn(m.stimuli[i])
                 && NamedValidity(Split(b.custom["validity"], ',')[i]) == Some(m.stimuli[i].validity)
  {
    ListsAreRecoverable(m, sessionId, batchId);
  }

  // ---- which numbers --------------------------------------------------------------

  /**
   * A published channel: its bit is set exactly when the reading was in range,
   * not from the future and young enough when assessed, and the frame is young
   * enough now; behind it stands the reading as a fraction of `scale`, at most 1.
   */
  predicate Publishes(value: F32, bit: bool, r: Option<F32>, max: real, scale: real, age: int, held: int,
                      staleAfterMs: nat)
  {
    && (bit <==> Within(r, 0.0, max) && 0 <= age < staleAfterMs && held < staleAfterMs)
    && (bit ==> value.Finite? && value.r * scale == if r.value.r <= scale then r.value.r else scale)
    && (!bit ==> value == Finite(0.0))
  }

  lemma ChannelPublishes(f: TelemetryFrame, s: Sample, now: nat, raw: RawTelemetry, r: Option<F32>,
                         max: real, scale: real, staleAfterMs: nat)
    requires SampleOf(s, raw, r, f.receivedAtUnixMs, 0.0, max, staleAfterMs)
    requires Spec(s.signal).normalization == Linear(0.0, scale) && scale >= 1.0
    requires StaleAfterMs(s.signal, f.acquisitionCadenceMs) == staleAfterMs
    ensures var m := MappedAt(f, s, now);
            && Publishes(WireValue(m), MaskedIn(m), r, max, scale,
                         AgeMs(raw, f.receivedAtUnixMs), now - f.receivedAtUnixMs, staleAfterMs)
            && m.staleAfterMs == staleAfterMs
            && m.signal == s.signal && m.source == raw.source && m.cadenceMs == f.acquisitionCadenceMs
            && m.raw == (if r.Some? && r.value.Finite? then r else None)
  {
    if Within(r, 0.0, max) {
      LinearScale(0.0, scale, r.value.r);
    }
  }

  /** A frame whose runtime-input channels carry the readings of `raw`. */
  predicate FrameOfReadings(f: TelemetryFrame, raw: RawTelemetry, t: nat, cadenceMs: nat) {
    var safetyStale := Min(20 * Max(cadenceMs, 1), U64_MAX);
    && InventoryOrder(f) && f.receivedAtUnixMs == t && f.acquisitionCadenceMs == Max(cadenceMs, 1)
    && SampleOf(f.gpuTempC, raw, raw.gpuTempC, t, 0.0, 125.0, safetyStale)
    && SampleOf(f.powerW, raw, raw.powerW, t, 0.0, 2000.0, safetyStale)
    && SampleOf(f.gpuClockMhz, raw, raw.gpuClockMhz, t, 0.0, 3000.0, 5000)
    && SampleOf(f.memUtilPct, raw, raw.memUtilPct, t, 0.0, 100.0, 5000)
  }

  lemma AssessedIsFrameOfReadings(raw: RawTelemetry, t: nat, cadenceMs: nat, c: Clock.ClockState)
    ensures FrameOfReadings(Assessed(raw, t, cadenceMs, c), raw, t, cadenceMs)
  {
    SamplesCarryTheirReadings(raw, t, cadenceMs, c);
  }

  /** One published channel, the limit it is held to, and the engineering value it came from. */
  predicate Channel(m: MappedStimulus, r: Option<F32>, max: real, scale: real, age: int, held: int, staleAfterMs: nat) {
    && Publishes(WireValue(m), MaskedIn(m), r, max, scale, age, held, staleAfterMs)
    && m.staleAfterMs == staleAfterMs
    && m.raw == (if r.Some? && r.value.Finite? then r else None)
  }

  lemma StimuliOfReadings(f: TelemetryFrame, raw: RawTelemetry, t: nat, cadenceMs: nat, now: nat)
    requires FrameOfReadings(f, raw, t, cadenceMs)
    ensures var ms := ToSensoryMappingAt(f, now).stimuli;
            var age, held := AgeMs(raw, t), now - t;
            var safetyStale := Min(20 * Max(cadenceMs, 1), U64_MAX);
            && |ms| == 4
            && Channel(ms[0], raw.gpuTempC, 125.0, 100.0, age, held, safetyStale)
            && Channel(ms[1], raw.powerW, 2000.0, 350.0, age, held, safetyStale)
            && Channel(ms[2], raw.gpuClockMhz, 3000.0, 2500.0, age, held, 5000)
            && Channel(ms[3], raw.memUtilPct, 100.0, 100.0, age, held, 5000)
            && (forall k :: 0 <= k < 4 ==> ms[k].source == raw.source && ms[k].cadenceMs == Max(cadenceMs, 1))
            && ms[0].signal == GpuTempC && ms[1].signal == PowerW
            && ms[2].signal == GpuClockMhz && ms[3].signal == MemUtilPct
  {
    var safetyStale := Min(20 * Max(cadenceMs, 1), U64_MAX);
    MappedChannels(f, now);
    ChannelPublishes(f, f.gpuTempC, now, raw, raw.gpuTempC, 125.0, 100.0, safetyStale);
    ChannelPublishes(f, f.powerW, now, raw, raw.powerW, 2000.0, 350.0, safetyStale);
    ChannelPublishes(f, f.gpuClockMhz, now, raw, raw.gpuClockMhz, 3000.0, 2500.0, 5000);
    ChannelPublishes(f, f.memUtilPct, now, raw, raw.memUtilPct, 100.0, 100.0, 5000);
  }

  /**
   * What is on the wire, in the units of the sensors: temperature as a fraction
   * of 100 degrees, power of 350 W, graphics clock of 2500 MHz, memory
   * utilization of 100 %, each behind its bit.
   */
  lemma BatchPublishesReadings(raw: RawTelemetry, t: nat, cadenceMs: nat, c: Clock.ClockState, now: nat,
                               sessionId: Option<string>, batchId: U64)
    ensures var b := BatchOf(ToSensoryMappingAt(Assessed(raw, t, cadenceMs, c), now), sessionId, batchId);
            var age, held := AgeMs(raw, t), now - t;
            var safetyStale := Min(20 * Max(cadenceMs, 1), U64_MAX);
            && |b.values| == |b.validMask| == 4
            && Publishes(b.values[0], b.validMask[0], raw.gpuTempC, 125.0, 100.0, age, held, safetyStale)
            && Publishes(b.values[1], b.validMask[1], raw.powerW, 2000.0, 350.0, age, held, safetyStale)
            && Publishes(b.values[2], b.validMask[2], raw.gpuClockMhz, 3000.0, 2500.0, age, held, 5000)
            && Publishes(b.values[3], b.validMask[3], raw.memUtilPct, 100.0, 100.0, age, held, 5000)
  {
    AssessedIsFrameOfReadings(raw, t, cadenceMs, c);
    StimuliOfReadings(Assessed(raw, t, cadenceMs, c), raw, t, cadenceMs, now);
  }

  /** What a batch says about itself, and what a consumer reads back from its strings. */
  lemma BatchDescribesItself(raw: RawTelemetry, t: nat, cadenceMs: nat, c: Clock.ClockState, now: nat,
                             sessionId: Option<string>, batchId: U64)
    requires cadenceMs <= U64_MAX
    ensures var b := BatchOf(ToSensoryMappingAt(Assessed(raw, t, cadenceMs, c), now), sessionId, batchId);
            && b.sessionId == sessionId && b.batchId == batchId && b.source == "vahtisiru"
            && b.timestampNs == Min(now * 1000000, U64_MAX)
            && b.custom.Keys
               == {"acquisition_source", "acquisition_cadence_ms", "channels", "validity", "stale_after_ms"}
            && (b.custom["acquisition_source"] == "nvml" <==> raw.source == Nvml)
            && (b.custom["acquisition_source"] == "software_fallback" <==> raw.source == SoftwareFallback)
            && (b.custom["acquisition_source"] == "nvml_unavailable" <==> raw.source == NvmlUnavailable)
            && ParseU64(b.custom["acquisition_cadence_ms"]) == Some(Max(cadenceMs, 1))
  {
    ParseOfPrint(Max(cadenceMs, 1));
  }

  /** Without a device every channel is masked out and every value is zero: nothing is made up. */
  lemma UnavailableDevicePublishesNothing(observedAt: nat, t: nat, cadenceMs: nat, c: Clock.ClockState, now: nat,
                                          sessionId: Option<string>, batchId: U64)
    ensures var raw := NvmlUnavailableRaw(observedAt);
            var b := BatchOf(ToSensoryMappingAt(Assessed(raw, t, cadenceMs, c), now), sessionId, batchId);
            b.validMask == [false, false, false, false]
            && b.values == [Finite(0.0), Finite(0.0), Finite(0.0), Finite(0.0)]
  {
    BatchPublishesReadings(NvmlUnavailableRaw(observedAt), t, cadenceMs, c, now, sessionId, batchId);
  }

  /** Simulated telemetry, published as it is acquired, carries the documented idle estimates. */
  lemma SoftwareFallbackPublishesEstimates(t: nat, cadenceMs: nat, c: Clock.ClockState,
                                           sessionId: Option<string>, batchId: U64)
    ensures var raw := SoftwareFallbackRaw(t);
            var b := BatchOf(ToSensoryMappingAt(Assessed(raw, t, cadenceMs, c), t), sessionId, batchId);
            && b.validMask == [true, true, true, true]
            && b.values == [Finite(0.35), Finite(25.0 / 350.0), Finite(210.0 / 2500.0), Finite(0.0)]
  {
    BatchPublishesReadings(SoftwareFallbackRaw(t), t, cadenceMs, c, t, sessionId, batchId);
    var b := BatchOf(ToSensoryMappingAt(Assessed(SoftwareFallbackRaw(t), t, cadenceMs, c), t), sessionId, batchId);
    PublishedFresh(b.values[0], b.validMask[0], 35.0, 125.0, 100.0, Min(20 * Max(cadenceMs, 1), U64_MAX));
    PublishedFresh(b.values[1], b.validMask[1], 25.0, 2000.0, 350.0, Min(20 * Max(cadenceMs, 1), U64_MAX));
    PublishedFresh(b.values[2], b.validMask[2], 210.0, 3000.0, 2500.0, 5000);
    PublishedFresh(b.values[3], b.validMask[3], 0.0, 100.0, 100.0, 5000);
  }

  lemma PublishedFresh(value: F32, bit: bool, r: real, max: real, scale: real, staleAfterMs: nat)
    requires Publishes(value, bit, Some(Finite(r)), max, scale, 0, 0, staleAfterMs)
    requires 0.0 <= r <= scale <= max && scale > 0.0 && staleAfterMs > 0
    ensures bit && value == Finite(r / scale)
  {
    Quotient(r, scale);
    SignOfProduct(value.r - r / scale, scale);
    assert (value.r - r / scale) * scale == 0.0;
  }

  lemma StatedLimits(ms: seq<MappedStimulus>, safetyStale: nat)
    requires |ms| == 4 && ms[0].staleAfterMs == ms[1].staleAfterMs == safetyStale
    requires ms[2].staleAfterMs == ms[3].staleAfterMs == 5000
    ensures StaleNames(ms) == [PrintNat(safetyStale), PrintNat(safetyStale), PrintNat(5000), PrintNat(5000)]
  {
  }

  /** The age limits a consumer reads back are the ones the channels are held to. */
  lemma BatchStatesItsLimits(raw: RawTelemetry, t: nat, cadenceMs: nat, c: Clock.ClockState, now: nat,
                             sessionId: Option<string>, batchId: U64)
    ensures var b := BatchOf(ToSensoryMappingAt(Assessed(raw, t, cadenceMs, c), now), sessionId, batchId);
            var limits := Split(b.custom["stale_after_ms"], ',');
            var safetyStale := Min(20 * Max(cadenceMs, 1), U64_MAX);
            && |limits| == 4
            && ParseU64(limits[0]) == ParseU64(limits[1]) == Some(safetyStale)
            && ParseU64(limits[2]) == ParseU64(limits[3]) == Some(5000)
  {
    var m := ToSensoryMappingAt(Assessed(raw, t, cadenceMs, c), now);
    AssessedStimuli(raw, t, cadenceMs, c, now);
    AssessedIsFrameOfReadings(raw, t, cadenceMs, c);
    StimuliOfReadings(Assessed(raw, t, cadenceMs, c), raw, t, cadenceMs, now);
    StatedLimits(m.stimuli, Min(20 * Max(cadenceMs, 1), U64_MAX));
    ListsAreRecoverable(m, sessionId, batchId);
    ParseOfPrint(Min(20 * Max(cadenceMs, 1), U64_MAX));
    ParseOfPrint(5000);
  }

  /** Publishing the same frame later never reveals a channel that was masked out before. */
  lemma MaskOnlyShrinks(f: TelemetryFrame, now: nat, later: nat, i: nat)
    requires now <= later && i < |ToSensoryMappingAt(f, now).stimuli|
    ensures var a, b := ToSensoryMappingAt(f, now).stimuli, ToSensoryMappingAt(f, later).stimuli;
            |a| == |b| && (Mask(b)[i] ==> Mask(a)[i] && Values(b)[i] == Values(a)[i])
  {
    FreshnessIsOnlyLost(f, f.Samples(), now, later, i);
  }
}
