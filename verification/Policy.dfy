/** Validated, device-independent safety configuration (src/safety/policy.rs). */
module SafetyPolicies {
  import opened Prelude
  import opened Float32

  const SAFETY_STALE_AFTER_MS: nat := 2000

  datatype SafetyPolicyConfig = SafetyPolicyConfig(
    tempWarnC: F32,
    tempCriticalC: F32,
    powerWarnW: Option<F32>,
    powerCriticalW: Option<F32>,
    releaseOkStreak: U32,
    maxSampleAgeMs: nat,
    maxAcquisitionIntervalMs: nat)

  datatype LimitSource = Operator | DeviceDefault | Unavailable

  datatype SafetyPolicy = SafetyPolicy(
    config: SafetyPolicyConfig,
    powerLimitsW: Option<(F32, F32)>,
    powerLimitSource: LimitSource)

  datatype PolicyError =
    | TemperatureLimits
    | ReleaseStreak
    | SampleAge
    | AcquisitionInterval
    | DeviceDefaultRange
    | PowerLimitRange
    | PowerAboveDeviceDefault
    | DeviceDefaultTooSmall
    | UnpairedOverrides

  predicate OrderedPositive(a: F32, b: F32) {
    a.Finite? && b.Finite? && Gt(a, Finite(0.0)) && Lt(a, b)
  }

  function Scale(w: F32, factor: real): F32 {
    if w.Finite? then Finite(w.r * factor) else w
  }

  function ResolvePowerLimits(cfg: SafetyPolicyConfig, deviceDefaultW: Option<F32>)
    : Result<(Option<(F32, F32)>, LimitSource), PolicyError>
  {
    match (cfg.powerWarnW, cfg.powerCriticalW)
    case (Some(warn), Some(critical)) =>
      if !OrderedPositive(warn, critical) || Gt(critical, Finite(2000.0)) then Failure(PowerLimitRange)
      else if deviceDefaultW.Some? && Gt(critical, deviceDefaultW.value) then Failure(PowerAboveDeviceDefault)
      else Success((Some((warn, critical)), Operator))
    case (None, None) =>
      (match deviceDefaultW
       case Some(w) =>
         if OrderedPositive(Scale(w, 0.85), w) then Success((Some((Scale(w, 0.85), w)), DeviceDefault))
         else Failure(DeviceDefaultTooSmall)
       case None => Success((None, Unavailable)))
    case _ => Failure(UnpairedOverrides)
  }

  function Resolve(cfg: SafetyPolicyConfig, deviceDefaultW: Option<F32>): Result<SafetyPolicy, PolicyError> {
    if !OrderedPositive(cfg.tempWarnC, cfg.tempCriticalC) || Gt(cfg.tempCriticalC, Finite(125.0)) then
      Failure(TemperatureLimits)
    else if cfg.releaseOkStreak == 0 then
      Failure(ReleaseStreak)
    else if cfg.maxSampleAgeMs == 0 || cfg.maxSampleAgeMs > SAFETY_STALE_AFTER_MS then
      Failure(SampleAge)
    else if cfg.maxAcquisitionIntervalMs == 0 || cfg.maxAcquisitionIntervalMs > cfg.maxSampleAgeMs then
      Failure(AcquisitionInterval)
    else if
      && deviceDefaultW.Some?
      && (!deviceDefaultW.value.Finite? || deviceDefaultW.value.r <= 0.0 || deviceDefaultW.value.r > 2000.0)
    then
      Failure(DeviceDefaultRange)
    else
      match ResolvePowerLimits(cfg, deviceDefaultW)
      case Success(limits) => Success(SafetyPolicy(cfg, limits.0, limits.1))
      case Failure(error) => Failure(error)
  }

  /** What a safety machine may assume about the policy it is given. */
  predicate WellFormed(p: SafetyPolicy) {
    && p.config.tempWarnC.Finite? && p.config.tempCriticalC.Finite?
    && 0.0 < p.config.tempWarnC.r < p.config.tempCriticalC.r <= 125.0
    && p.config.releaseOkStreak >= 1
    && 1 <= p.config.maxAcquisitionIntervalMs <= p.config.maxSampleAgeMs <= 2000
    && WellFormedLimits(p)
  }

  predicate WellFormedLimits(p: SafetyPolicy) {
    match p.powerLimitSource
    case Operator =>
      && p.config.powerWarnW.Some? && p.config.powerCriticalW.Some?
      && p.powerLimitsW == Some((p.config.powerWarnW.value, p.config.powerCriticalW.value))
      && p.powerLimitsW.value.0.Finite? && p.powerLimitsW.value.1.Finite?
      && 0.0 < p.powerLimitsW.value.0.r < p.powerLimitsW.value.1.r <= 2000.0
    case DeviceDefault =>
      && p.config.powerWarnW.None? && p.config.powerCriticalW.None?
      && p.powerLimitsW.Some? && p.powerLimitsW.value.1.Finite?
      && 0.0 < p.powerLimitsW.value.1.r <= 2000.0
      && p.powerLimitsW.value.0 == Finite(0.85 * p.powerLimitsW.value.1.r)
    case Unavailable =>
      p.config.powerWarnW.None? && p.config.powerCriticalW.None? && p.powerLimitsW.None?
  }

  /** The limits of a supervisor started without overrides on a device with no known default. */
  const DEFAULT_POLICY := SafetyPolicy(
    SafetyPolicyConfig(Finite(75.0), Finite(85.0), None, None, 3, SAFETY_STALE_AFTER_MS, 100), None, Unavailable)

  /** A policy that has been validated. */
  type ResolvedPolicy = p: SafetyPolicy | WellFormed(p) witness DEFAULT_POLICY

  /** A policy can come out of `resolve` for some device exactly when it is well formed. */
  lemma ResolvedPoliciesAreTheWellFormedOnes(p: SafetyPolicy)
    ensures WellFormed(p) <==> exists d: Option<F32> :: Resolve(p.config, d) == Success(p)
  {
    if WellFormed(p) {
      var d := if p.powerLimitSource.DeviceDefault? then Some(p.powerLimitsW.value.1) else None;
      assert Resolve(p.config, d) == Success(p);
    }
  }

  // ---- which configurations are accepted -------------------------------------

  predicate Ordered(warn: F32, critical: F32, max: real) {
    warn.Finite? && critical.Finite? && 0.0 < warn.r < critical.r <= max
  }

  predicate InBounds(cfg: SafetyPolicyConfig) {
    && Ordered(cfg.tempWarnC, cfg.tempCriticalC, 125.0)
    && cfg.releaseOkStreak >= 1
    && 1 <= cfg.maxSampleAgeMs <= 2000
    && 1 <= cfg.maxAcquisitionIntervalMs <= cfg.maxSampleAgeMs
  }

  predicate PlausibleDefault(deviceDefaultW: Option<F32>) {
    deviceDefaultW.Some? ==> deviceDefaultW.value.Finite? && 0.0 < deviceDefaultW.value.r <= 2000.0
  }

  /** The operator gave both power limits, and the device can honour them. */
  predicate Overridden(cfg: SafetyPolicyConfig, deviceDefaultW: Option<F32>) {
    && cfg.powerWarnW.Some? && cfg.powerCriticalW.Some?
    && Ordered(cfg.powerWarnW.value, cfg.powerCriticalW.value, 2000.0)
    && (deviceDefaultW.Some? && deviceDefaultW.value.Finite? ==>
          cfg.powerCriticalW.value.r <= deviceDefaultW.value.r)
  }

  predicate NotOverridden(cfg: SafetyPolicyConfig) {
    cfg.powerWarnW.None? && cfg.powerCriticalW.None?
  }

  predicate Acceptable(cfg: SafetyPolicyConfig, deviceDefaultW: Option<F32>) {
    && InBounds(cfg) && PlausibleDefault(deviceDefaultW)
    && (Overridden(cfg, deviceDefaultW) || NotOverridden(cfg))
  }

  /**
   * For every configuration and device: accepted exactly when it is within its
   * bounds and the device's, and then the limits are the operator's, 85 % and
   * 100 % of the device default, or none, with their source named.
   */
  lemma ResolvedExactly(cfg: SafetyPolicyConfig, deviceDefaultW: Option<F32>)
    ensures var r := Resolve(cfg, deviceDefaultW);
            && (r.Success? <==> Acceptable(cfg, deviceDefaultW))
            && (r.Success? ==>
                  && r.value.config == cfg
                  && (cfg.powerWarnW.Some? ==>
                        && cfg.powerCriticalW.Some?
                        && r.value.powerLimitsW == Some((cfg.powerWarnW.value, cfg.powerCriticalW.value))
                        && r.value.powerLimitSource == Operator)
                  && (cfg.powerWarnW.None? && deviceDefaultW.Some? ==>
                        && deviceDefaultW.value.Finite?
                        && r.value.powerLimitsW
                           == Some((Finite(deviceDefaultW.value.r * 85.0 / 100.0), deviceDefaultW.value))
                        && r.value.powerLimitSource == DeviceDefault)
                  && (cfg.powerWarnW.None? && deviceDefaultW.None? ==>
                        r.value.powerLimitsW == None && r.value.powerLimitSource == Unavailable))
  {
  }

  /** Which of the reasons a refusal names: the first that applies, in the order of the checks. */
  lemma RefusedFor(cfg: SafetyPolicyConfig, deviceDefaultW: Option<F32>)
    requires !Acceptable(cfg, deviceDefaultW)
    ensures var e := Resolve(cfg, deviceDefaultW).error;
            if !Ordered(cfg.tempWarnC, cfg.tempCriticalC, 125.0) then e == TemperatureLimits
            else if cfg.releaseOkStreak == 0 then e == ReleaseStreak
            else if !(1 <= cfg.maxSampleAgeMs <= 2000) then e == SampleAge
            else if !InBounds(cfg) then e == AcquisitionInterval
            else if !PlausibleDefault(deviceDefaultW) then e == DeviceDefaultRange
            else if cfg.powerWarnW.Some? != cfg.powerCriticalW.Some? then e == UnpairedOverrides
            else if !Ordered(cfg.powerWarnW.value, cfg.powerCriticalW.value, 2000.0) then e == PowerLimitRange
            else e == PowerAboveDeviceDefault
  {
    ResolvedExactly(cfg, deviceDefaultW);
  }

  /** Whatever its source, an effective critical limit never exceeds a known device default. */
  lemma CriticalPowerNeverExceedsTheDevice(cfg: SafetyPolicyConfig, w: F32)
    requires Resolve(cfg, Some(w)).Success?
    ensures w.Finite? && 0.0 < w.r <= 2000.0
    ensures var limits := Resolve(cfg, Some(w)).value.powerLimitsW;
            limits.Some? && limits.value.1.Finite? && limits.value.1.r <= w.r
  {
  }
}
