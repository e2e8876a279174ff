/** Stateless classification of one frame (src/safety.rs, `classify_frame_with_policy`). */
module Assessments {
  import opened Prelude
  import opened Float32
  import opened SafetyPolicies
  import Clock
  import opened Telemetry

  datatype AssessmentKind = Simulated | Missing | Invalid | Stale | Critical | Warn | Ok

  datatype Fault = Fault(rank: nat, kind: AssessmentKind)

  function SampleFault(s: Sample): Option<Fault> {
    match s.validity
    case Valid => if s.value.None? then Some(Fault(3, AssessmentKind.Missing)) else None
    case Stale => Some(Fault(1, AssessmentKind.Stale))
    case Invalid => Some(Fault(2, AssessmentKind.Invalid))
    case Missing => Some(Fault(3, AssessmentKind.Missing))
  }

  function WorstSafetyFault(f: TelemetryFrame): Option<AssessmentKind> {
    match (SampleFault(f.gpuTempC), SampleFault(f.powerW))
    case (None, None) => None
    case (Some(a), None) => Some(a.kind)
    case (None, Some(a)) => Some(a.kind)
    case (Some(t), Some(p)) => if t.rank >= p.rank then Some(t.kind) else Some(p.kind)
  }

  function SafetyValue(s: Sample): Result<F32, AssessmentKind> {
    match s.validity
    case Missing => Failure(AssessmentKind.Missing)
    case Invalid => Failure(AssessmentKind.Invalid)
    case Stale => Failure(AssessmentKind.Stale)
    case Valid => if s.value.Some? then Success(s.value.value) else Failure(AssessmentKind.Missing)
  }

  function SafetyReadings(f: TelemetryFrame): Result<(F32, F32), AssessmentKind> {
    match SafetyValue(f.gpuTempC)
    case Failure(kind) => Failure(kind)
    case Success(temp) =>
      match SafetyValue(f.powerW)
      case Failure(kind) => Failure(kind)
      case Success(power) => Success((temp, power))
  }

  function ClassifyReadings(f: TelemetryFrame, policy: SafetyPolicy, temp: F32, power: F32): AssessmentKind {
    if
      || f.acquisitionCadenceMs > policy.config.maxAcquisitionIntervalMs
      || SatSub(f.acquiredAt, f.gpuTempC.observedAt) >= policy.config.maxSampleAgeMs
      || SatSub(f.acquiredAt, f.powerW.observedAt) >= policy.config.maxSampleAgeMs
    then AssessmentKind.Stale
    else match policy.powerLimitsW
      case None => AssessmentKind.Missing
      case Some((powerWarn, powerCritical)) =>
        if Gt(temp, policy.config.tempCriticalC) then Critical
        else if Gt(power, powerCritical) then Critical
        else if Ge(temp, policy.config.tempWarnC) then Warn
        else if Ge(power, powerWarn) then Warn
        else Ok
  }

  function Classify(f: TelemetryFrame, policy: SafetyPolicy): AssessmentKind {
    if f.source == SoftwareFallback then Simulated
    else match WorstSafetyFault(f)
      case Some(kind) => kind
      case None =>
        match SafetyReadings(f)
        case Failure(kind) => kind
        case Success(readings) => ClassifyReadings(f, policy, readings.0, readings.1)
  }

  /** Once the fault check passes, the readings exist: the error branch after it is dead. */
  lemma ReadingsExistAfterFaultCheck(f: TelemetryFrame)
    ensures WorstSafetyFault(f).None? <==> SafetyReadings(f).Success?
  {
  }

  /** Missing beats invalid beats stale, whichever channel carries it. */
  lemma WorstFaultWins(f: TelemetryFrame)
    requires f.source != SoftwareFallback
    ensures var missing := (s: Sample) => s.validity == SampleValidity.Missing
                                           || (s.validity == Valid && s.value.None?);
            var has := (v: SampleValidity) => f.gpuTempC.validity == v || f.powerW.validity == v;
            && (missing(f.gpuTempC) || missing(f.powerW) ==> WorstSafetyFault(f) == Some(AssessmentKind.Missing))
            && (!missing(f.gpuTempC) && !missing(f.powerW) && has(SampleValidity.Invalid) ==>
                  WorstSafetyFault(f) == Some(AssessmentKind.Invalid))
            && (!missing(f.gpuTempC) && !missing(f.powerW)
                && !has(SampleValidity.Invalid) && has(SampleValidity.Stale) ==>
                  WorstSafetyFault(f) == Some(AssessmentKind.Stale))
  {
  }

  /** The safety samples of a frame, whenever each of them was observed. */
  predicate FreshSamples(f: TelemetryFrame, policy: SafetyPolicy) {
    && f.acquisitionCadenceMs <= policy.config.maxAcquisitionIntervalMs
    && f.acquiredAt < f.gpuTempC.observedAt + policy.config.maxSampleAgeMs
    && f.acquiredAt < f.powerW.observedAt + policy.config.maxSampleAgeMs
  }

  /** The same for any frame with two readable samples, however it was made: each sample's own age counts. */
  lemma FrameVerdicts(f: TelemetryFrame, policy: SafetyPolicy)
    requires WellFormed(policy) && f.source != SoftwareFallback
    requires f.gpuTempC.validity.Valid? && f.gpuTempC.value.Some? && f.gpuTempC.value.value.Finite?
    requires f.powerW.validity.Valid? && f.powerW.value.Some? && f.powerW.value.value.Finite?
    ensures var kind, temp, power := Classify(f, policy), f.gpuTempC.value.value.r, f.powerW.value.value.r;
            if !FreshSamples(f, policy) then kind == AssessmentKind.Stale
            else if policy.powerLimitsW.None? then kind == AssessmentKind.Missing
            else
              var (warn, critical) := policy.powerLimitsW.value;
              && (kind == Critical <==> temp > policy.config.tempCriticalC.r || power > critical.r)
              && (kind == Ok <==> temp < policy.config.tempWarnC.r && power < warn.r)
              && (kind == Critical || kind == Warn || kind == Ok)
  {
  }

  // ---- every verdict, in terms of what was read -------------------------------

  predicate Reads(raw: Option<F32>, max: real) {
    raw.Some? && raw.value.Finite? && 0.0 <= raw.value.r <= max
  }

  /** Temperature and power were both read, lie in their ranges, and are not from the future. */
  predicate Plausible(raw: RawTelemetry, now: nat) {
    Reads(raw.gpuTempC, 125.0) && Reads(raw.powerW, 2000.0) && AgeMs(raw, now) >= 0
  }

  /** Young enough for the policy and for twenty acquisitions, which come often enough. */
  predicate Timely(raw: RawTelemetry, now: nat, cadenceMs: nat, policy: SafetyPolicy) {
    && AgeMs(raw, now) < 20 * Max(cadenceMs, 1)
    && AgeMs(raw, now) < policy.config.maxSampleAgeMs
    && Max(cadenceMs, 1) <= policy.config.maxAcquisitionIntervalMs
  }

  /** A real frame that is judged by its values and by nothing else. */
  predicate Judgeable(raw: RawTelemetry, now: nat, cadenceMs: nat, policy: SafetyPolicy) {
    && raw.source != SoftwareFallback
    && Plausible(raw, now) && Timely(raw, now, cadenceMs, policy) && policy.powerLimitsW.Some?
  }

  predicate OverCritical(raw: RawTelemetry, policy: SafetyPolicy)
    requires Reads(raw.gpuTempC, 125.0) && Reads(raw.powerW, 2000.0)
    requires WellFormed(policy) && policy.powerLimitsW.Some?
  {
    || raw.gpuTempC.value.r > policy.config.tempCriticalC.r
    || raw.powerW.value.r > policy.powerLimitsW.value.1.r
  }

  predicate AtWarning(raw: RawTelemetry, policy: SafetyPolicy)
    requires Reads(raw.gpuTempC, 125.0) && Reads(raw.powerW, 2000.0)
    requires WellFormed(policy) && policy.powerLimitsW.Some?
  {
    || raw.gpuTempC.value.r >= policy.config.tempWarnC.r
    || raw.powerW.value.r >= policy.powerLimitsW.value.0.r
  }

  /** Everything that has to be true of the world before a real frame counts as healthy. */
  predicate HealthyConditions(raw: RawTelemetry, now: nat, cadenceMs: nat, policy: SafetyPolicy)
    requires WellFormed(policy)
  {
    Judgeable(raw, now, cadenceMs, policy) && !OverCritical(raw, policy) && !AtWarning(raw, policy)
  }

  /** The one verdict a frame of these readings deserves. */
  function Deserved(raw: RawTelemetry, now: nat, cadenceMs: nat, policy: SafetyPolicy): AssessmentKind
    requires WellFormed(policy)
  {
    if raw.source == SoftwareFallback then Simulated
    else if raw.gpuTempC.None? || raw.powerW.None? then AssessmentKind.Missing
    else if !Plausible(raw, now) then AssessmentKind.Invalid
    else if !Timely(raw, now, cadenceMs, policy) then AssessmentKind.Stale
    else if policy.powerLimitsW.None? then AssessmentKind.Missing
    else if OverCritical(raw, policy) then Critical
    else if AtWarning(raw, policy) then Warn
    else Ok
  }

  /** Assessment followed by classification reaches exactly that verdict, whatever the clock has seen. */
  lemma VerdictIsDeserved(raw: RawTelemetry, now: nat, cadenceMs: nat, c: Clock.ClockState, policy: SafetyPolicy)
    requires WellFormed(policy)
    ensures Classify(Assessed(raw, now, cadenceMs, c), policy) == Deserved(raw, now, cadenceMs, policy)
  {
    var f := Assessed(raw, now, cadenceMs, c);
    StaleLimit(GpuTempC, cadenceMs);
    StaleLimit(PowerW, cadenceMs);
    ValidityOfReading(raw, GpuTempC, now, cadenceMs, 125.0);
    ValidityOfReading(raw, PowerW, now, cadenceMs, 2000.0);
    ReadingsExistAfterFaultCheck(f);
    if raw.source != SoftwareFallback {
      WorstFaultWins(f);
    }
  }

  lemma ValidityOfReading(raw: RawTelemetry, id: SignalId, now: nat, cadenceMs: nat, max: real)
    requires (id == GpuTempC && max == 125.0) || (id == PowerW && max == 2000.0)
    ensures var s := ChannelOf(raw, id, now, cadenceMs);
            && (s.validity.Missing? <==> raw.Value(id).None?)
            && (s.validity.Invalid? <==> raw.Value(id).Some? && !(Reads(raw.Value(id), max) && AgeMs(raw, now) >= 0))
            && (s.validity.Stale? <==>
                  Reads(raw.Value(id), max) && AgeMs(raw, now) >= 0 && AgeMs(raw, now) >= StaleAfterMs(id, cadenceMs))
            && (s.validity.Valid? ==> s.value == raw.Value(id))
  {
  }

  /**
   * Every verdict, exactly. Critical and warning are about the values of a frame
   * that is real, complete, plausible and timely under a policy with power
   * limits; everything short of that is missing, invalid or stale.
   */
  lemma VerdictsExactly(raw: RawTelemetry, now: nat, cadenceMs: nat, c: Clock.ClockState, policy: SafetyPolicy)
    requires WellFormed(policy)
    ensures var kind := Classify(Assessed(raw, now, cadenceMs, c), policy);
            var sensed := raw.source != SoftwareFallback;
            var present := raw.gpuTempC.Some? && raw.powerW.Some?;
            var judgeable := Judgeable(raw, now, cadenceMs, policy);
            && (kind == Simulated <==> raw.source == SoftwareFallback)
            && (kind == AssessmentKind.Missing <==>
                  sensed && (!present || (Plausible(raw, now) && Timely(raw, now, cadenceMs, policy)
                                         && policy.powerLimitsW.None?)))
            && (kind == AssessmentKind.Invalid <==> sensed && present && !Plausible(raw, now))
            && (kind == AssessmentKind.Stale <==>
                  sensed && Plausible(raw, now) && !Timely(raw, now, cadenceMs, policy))
            && (kind == Critical <==> judgeable && OverCritical(raw, policy))
            && (kind == Warn <==> judgeable && !OverCritical(raw, policy) && AtWarning(raw, policy))
            && (kind == Ok <==> judgeable && !OverCritical(raw, policy) && !AtWarning(raw, policy))
  {
    VerdictIsDeserved(raw, now, cadenceMs, c, policy);
  }

  /** Assessment followed by classification says Ok exactly under `HealthyConditions`. */
  lemma HealthAuthorisation(raw: RawTelemetry, now: nat, cadenceMs: nat, c: Clock.ClockState, policy: SafetyPolicy)
    requires WellFormed(policy)
    ensures Classify(Assessed(raw, now, cadenceMs, c), policy) == Ok <==>
              HealthyConditions(raw, now, cadenceMs, policy)
  {
    VerdictIsDeserved(raw, now, cadenceMs, c, policy);
  }

  lemma StaleLimit(id: SignalId, cadenceMs: nat)
    requires id == GpuTempC || id == PowerW
    ensures StaleAfterMs(id, cadenceMs) == Min(20 * Max(cadenceMs, 1), U64_MAX)
  {
  }

  /** What the driver-unavailable and software-only acquisitions always classify as. */
  lemma DegradedAcquisitions(observedAt: nat, now: nat, cadenceMs: nat, c: Clock.ClockState, policy: SafetyPolicy)
    ensures Classify(Assessed(NvmlUnavailableRaw(observedAt), now, cadenceMs, c), policy) == AssessmentKind.Missing
    ensures Classify(Assessed(SoftwareFallbackRaw(observedAt), now, cadenceMs, c), policy) == Simulated
  {
  }

  /**
   * The clock's history never decides safety: duplicate and backward source times
   * change no verdict, and a source time from the future fails closed.
   */
  lemma SourceTimeAndSafety(raw: RawTelemetry, now: nat, cadenceMs: nat, c: Clock.ClockState, c': Clock.ClockState,
                            policy: SafetyPolicy)
    ensures var f := Assessed(raw, now, cadenceMs, c);
            && Classify(f, policy) == Classify(Assessed(raw, now, cadenceMs, c'), policy)
            && (f.sourceTimeStatus.Future? && raw.source != SoftwareFallback ==>
                  Classify(f, policy) == AssessmentKind.Missing || Classify(f, policy) == AssessmentKind.Invalid)
  {
  }

  // ---- severity never drops when things get worse ---------------------------

  function Severity(kind: AssessmentKind): nat {
    if kind == Ok then 0 else if kind == Warn then 1 else 2
  }

  /** `b` reads the same sensor no lower than `a`, and `a` was not negative. */
  predicate RaisedReading(a: Option<F32>, b: Option<F32>) {
    a == b || (a.Some? && b.Some? && a.value.Finite? && b.value.Finite? && 0.0 <= a.value.r <= b.value.r)
  }

  predicate LimitAtMost(a: F32, b: F32) {
    a == b || (a.Finite? && b.Finite? && a.r <= b.r)
  }

  /** Every limit of `tight` is at or below the same limit of `p`. */
  predicate Tightens(tight: SafetyPolicy, p: SafetyPolicy) {
    && LimitAtMost(tight.config.tempWarnC, p.config.tempWarnC)
    && LimitAtMost(tight.config.tempCriticalC, p.config.tempCriticalC)
    && tight.config.maxSampleAgeMs <= p.config.maxSampleAgeMs
    && tight.config.maxAcquisitionIntervalMs <= p.config.maxAcquisitionIntervalMs
    && (tight.powerLimitsW.Some? ==>
          && p.powerLimitsW.Some?
          && LimitAtMost(tight.powerLimitsW.value.0, p.powerLimitsW.value.0)
          && LimitAtMost(tight.powerLimitsW.value.1, p.powerLimitsW.value.1))
  }

  predicate Worsens(raw: RawTelemetry, worse: RawTelemetry) {
    && raw.source == worse.source
    && raw.sourceUnixMs == worse.sourceUnixMs
    && RaisedReading(raw.gpuTempC, worse.gpuTempC)
    && RaisedReading(raw.powerW, worse.powerW)
  }

  /** Hotter, hungrier, older or more strictly judged telemetry is never judged milder. */
  lemma SeverityIsMonotone(raw: RawTelemetry, now: nat, p: SafetyPolicy, c: Clock.ClockState,
                           worse: RawTelemetry, later: nat, tight: SafetyPolicy, c': Clock.ClockState, cadenceMs: nat)
    requires WellFormed(p) && WellFormed(tight) && Tightens(tight, p)
    requires Worsens(raw, worse)
    requires ObservedAt(raw, now) <= now <= later
    ensures Severity(Classify(Assessed(raw, now, cadenceMs, c), p))
         <= Severity(Classify(Assessed(worse, later, cadenceMs, c'), tight))
  {
    var f, g := Assessed(raw, now, cadenceMs, c), Assessed(worse, later, cadenceMs, c');
    if Severity(Classify(g, tight)) < 2 {
      MildMeansValid(worse, later, cadenceMs, c', tight);
      ValidBefore(GpuTempC, raw.gpuTempC, worse.gpuTempC, raw, now, later, cadenceMs);
      ValidBefore(PowerW, raw.powerW, worse.powerW, raw, now, later, cadenceMs);
      ReadingsAreMonotone(f, p, raw.gpuTempC.value, raw.powerW.value,
                          g, tight, worse.gpuTempC.value, worse.powerW.value);
      ValidMeansRead(raw, now, cadenceMs, c, p);
      ValidMeansRead(worse, later, cadenceMs, c', tight);
    }
  }

  /** With both samples valid the verdict is a matter of the readings alone. */
  lemma ValidMeansRead(raw: RawTelemetry, now: nat, cadenceMs: nat, c: Clock.ClockState, p: SafetyPolicy)
    requires raw.source != SoftwareFallback
    requires ChannelOf(raw, GpuTempC, now, cadenceMs).validity == Valid
    requires ChannelOf(raw, PowerW, now, cadenceMs).validity == Valid
    ensures raw.gpuTempC.Some? && raw.powerW.Some?
    ensures var f := Assessed(raw, now, cadenceMs, c);
            Classify(f, p) == ClassifyReadings(f, p, raw.gpuTempC.value, raw.powerW.value)
  {
  }

  lemma ReadingsAreMonotone(f: TelemetryFrame, p: SafetyPolicy, temp: F32, power: F32,
                            g: TelemetryFrame, tight: SafetyPolicy, temp': F32, power': F32)
    requires WellFormed(p) && WellFormed(tight) && Tightens(tight, p)
    requires RaisedReading(Some(temp), Some(temp')) && RaisedReading(Some(power), Some(power'))
    requires temp.Finite? && power.Finite?
    requires f.acquisitionCadenceMs == g.acquisitionCadenceMs
    requires SatSub(f.acquiredAt, f.gpuTempC.observedAt) <= SatSub(g.acquiredAt, g.gpuTempC.observedAt)
    requires SatSub(f.acquiredAt, f.powerW.observedAt) <= SatSub(g.acquiredAt, g.powerW.observedAt)
    ensures Severity(ClassifyReadings(f, p, temp, power)) <= Severity(ClassifyReadings(g, tight, temp', power'))
  {
  }

  /** Anything milder than severity 2 was read from two valid samples. */
  lemma MildMeansValid(raw: RawTelemetry, now: nat, cadenceMs: nat, c: Clock.ClockState, p: SafetyPolicy)
    requires Severity(Classify(Assessed(raw, now, cadenceMs, c), p)) < 2
    ensures ChannelOf(raw, GpuTempC, now, cadenceMs).validity == Valid
    ensures ChannelOf(raw, PowerW, now, cadenceMs).validity == Valid
  {
    ReadingsExistAfterFaultCheck(Assessed(raw, now, cadenceMs, c));
  }

  /** A reading that is still valid when raised and aged was valid to begin with. */
  lemma ValidBefore(id: SignalId, a: Option<F32>, b: Option<F32>, raw: RawTelemetry, now: nat, later: nat,
                    cadenceMs: nat)
    requires Spec(id).min == 0.0 && RaisedReading(a, b) && ObservedAt(raw, now) <= now <= later
    requires ValueAndValidity(Spec(id), b, ObservedAt(raw, later), later, StaleAfterMs(id, cadenceMs)).1 == Valid
    ensures ValueAndValidity(Spec(id), a, ObservedAt(raw, now), now, StaleAfterMs(id, cadenceMs)).1 == Valid
  {
  }
}
