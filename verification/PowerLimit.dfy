/**
 * One device power-limit register: who owns its value, what the actuator plans
 * to write, and what a worker does to it (src/safety.rs `classify_power_limit`,
 * src/gpu.rs `plan_brake_apply`, `plan_brake_release`, `NvmlActuator`).
 *
 * NVML reports milliwatts as a `u32` which the relay divides by 1000, so watts
 * stay below 2^24 and the product with the brake fraction is exact in `f32`.
 */
module PowerLimits {
  import opened Prelude
  import opened Float32

  const BRAKE_FRACTION: F32 := Finite(0.5)
  const BRAKE_MATCH_TOLERANCE_W: nat := 2
  const WATTS_MAX: nat := 4294967

  type Watts = w: nat | w <= WATTS_MAX

  datatype PowerLimitObservation =
    | Unreadable
    | AtOrAboveDefault(currentW: Watts, defaultW: Watts)
    | RelayOwnedBrake(currentW: Watts, defaultW: Watts, expectedW: nat)
    | ForeignSubDefaultCap(currentW: Watts, defaultW: Watts, expectedW: nat)

  datatype ActuatorError =
    | PowerLimitUnavailable
    | UnsupportedFraction
    | BelowRelayTarget
    | ForeignCap
    | NotARelayBrake
    | CommandFailed
    | TaskPanicked

  function UnambiguousBrakeTarget(defaultW: Watts, pct: F32): (target: Option<nat>)
    ensures target.Some? ==> 0 < target.value < defaultW
  {
    if !pct.Finite? || pct.r < 0.1 || pct.r >= 1.0 then None
    else
      FloorOfFraction(defaultW, pct.r);
      Unambiguous(defaultW, (defaultW as real * pct.r).Floor as nat)
  }

  /** A product is a target only when its band stays clear of the default's. */
  function Unambiguous(defaultW: Watts, product: nat): (target: Option<nat>)
    ensures target.Some? ==> 0 < target.value < defaultW
  {
    if product > 0 && SatSub(defaultW, product) > 2 * BRAKE_MATCH_TOLERANCE_W then Some(product) else None
  }

  lemma FloorOfFraction(w: nat, r: real)
    requires 0.1 <= r < 1.0
    ensures 0 <= (w as real * r).Floor <= w
  {
    assert 0.0 <= w as real * r <= w as real;
  }

  function ClassifyPowerLimit(currentW: Option<Watts>, defaultW: Option<Watts>, pct: F32): PowerLimitObservation {
    match (currentW, defaultW)
    case (Some(current), Some(default_)) =>
      (match UnambiguousBrakeTarget(default_, pct)
       case None => Unreadable
       case Some(expected) =>
         if AbsDiff(current, expected) <= BRAKE_MATCH_TOLERANCE_W then RelayOwnedBrake(current, default_, expected)
         else if SatAdd32(current, BRAKE_MATCH_TOLERANCE_W) >= default_ then AtOrAboveDefault(current, default_)
         else ForeignSubDefaultCap(current, default_, expected))
    case _ => Unreadable
  }

  function PlanBrakeApply(currentW: Option<Watts>, defaultW: Option<Watts>, pct: F32)
    : Result<Option<Watts>, ActuatorError>
  {
    if pct != BRAKE_FRACTION then Failure(UnsupportedFraction)
    else if currentW.None? || defaultW.None? || currentW.value == 0 || defaultW.value == 0 then
      Failure(PowerLimitUnavailable)
    else
      match UnambiguousBrakeTarget(defaultW.value, pct)
      case None => Failure(PowerLimitUnavailable)
      case Some(target) =>
        if currentW.value < SatSub(target, BRAKE_MATCH_TOLERANCE_W) then Failure(BelowRelayTarget)
        else if AbsDiff(currentW.value, target) <= BRAKE_MATCH_TOLERANCE_W then Success(None)
        else if currentW.value < SatSub(defaultW.value, BRAKE_MATCH_TOLERANCE_W) then Failure(ForeignCap)
        else Success(Some(target))
  }

  function PlanBrakeRelease(currentW: Option<Watts>, defaultW: Option<Watts>): Result<Watts, ActuatorError> {
    if currentW.None? || defaultW.None? || currentW.value == 0 || defaultW.value == 0 then
      Failure(PowerLimitUnavailable)
    else
      var seen := ClassifyPowerLimit(currentW, defaultW, BRAKE_FRACTION);
      if seen.RelayOwnedBrake? && seen.defaultW > 0 && seen.currentW > 0 then Success(seen.defaultW)
      else Failure(NotARelayBrake)
  }

  /** The fixed strategy: half the default, and no target at all for defaults of 8 W or less. */
  lemma BrakeTargetIsHalf(defaultW: Watts)
    ensures UnambiguousBrakeTarget(defaultW, BRAKE_FRACTION) == if defaultW >= 9 then Some(defaultW / 2) else None
  {
    var half := defaultW / 2;
    assert defaultW as real * 0.5 == half as real + (defaultW % 2) as real * 0.5;
    assert (defaultW as real * 0.5).Floor == half;
  }

  /** However the product with the fraction was rounded, the brake band and the default band never touch. */
  lemma BandsAreDisjoint(currentW: Watts, defaultW: Watts, product: nat)
    ensures var target := Unambiguous(defaultW, product);
            target.Some? && AbsDiff(currentW, target.value) <= BRAKE_MATCH_TOLERANCE_W ==>
              AbsDiff(currentW, defaultW) > BRAKE_MATCH_TOLERANCE_W
  {
  }

  /**
   * Classifier and both planners cut the register into the same three parts:
   * apply writes the target, keeps the brake, or refuses; release writes the
   * default only from the relay's own brake.
   */
  lemma PlannersFollowTheClassifier(currentW: Watts, defaultW: Watts)
    requires currentW > 0 && defaultW > 0
    requires UnambiguousBrakeTarget(defaultW, BRAKE_FRACTION).Some?
    ensures var seen := ClassifyPowerLimit(Some(currentW), Some(defaultW), BRAKE_FRACTION);
            var target := UnambiguousBrakeTarget(defaultW, BRAKE_FRACTION).value;
            var apply := PlanBrakeApply(Some(currentW), Some(defaultW), BRAKE_FRACTION);
            var release := PlanBrakeRelease(Some(currentW), Some(defaultW));
            && !seen.Unreadable?
            && (apply == Success(Some(target)) <==> seen.AtOrAboveDefault?)
            && (apply == Success(None) <==> seen.RelayOwnedBrake?)
            && (apply.Failure? <==> seen.ForeignSubDefaultCap?)
            && (release == Success(defaultW) <==> seen.RelayOwnedBrake?)
            && (release.Failure? <==> !seen.RelayOwnedBrake?)
  {
    BrakeTargetIsHalf(defaultW);
  }

  /** The classifier in watts: two either side of half the default, two below the default, or somebody else's. */
  lemma BandsInWatts(currentW: Option<Watts>, defaultW: Option<Watts>)
    ensures var seen := ClassifyPowerLimit(currentW, defaultW, BRAKE_FRACTION);
            if currentW.None? || defaultW.None? || defaultW.value <= 8 then seen == Unreadable
            else
              var w, d, half := currentW.value, defaultW.value, defaultW.value / 2;
              && (seen == RelayOwnedBrake(w, d, half) <==> half - 2 <= w <= half + 2)
              && (seen == AtOrAboveDefault(w, d) <==> w >= d - 2)
              && (seen == ForeignSubDefaultCap(w, d, half) <==> w < half - 2 || half + 2 < w < d - 2)
  {
    if defaultW.Some? {
      BrakeTargetIsHalf(defaultW.value);
    }
  }

  /** What an apply plans, and why it refuses, in watts. */
  lemma ApplyPlanInWatts(currentW: Option<Watts>, defaultW: Option<Watts>, pct: F32)
    ensures var plan := PlanBrakeApply(currentW, defaultW, pct);
            if pct != Finite(0.5) then plan == Failure(UnsupportedFraction)
            else if currentW.None? || currentW.value == 0 || defaultW.None? || defaultW.value <= 8 then
              plan == Failure(PowerLimitUnavailable)
            else
              var w, d, half := currentW.value, defaultW.value, defaultW.value / 2;
              && (plan == Success(Some(half)) <==> w >= d - 2)
              && (plan == Success(None) <==> half - 2 <= w <= half + 2)
              && (plan == Failure(ForeignCap) <==> half + 2 < w < d - 2)
              && (plan == Failure(BelowRelayTarget) <==> w < half - 2)
  {
    if defaultW.Some? {
      BrakeTargetIsHalf(defaultW.value);
    }
  }

  lemma ReleasePlanInWatts(currentW: Option<Watts>, defaultW: Option<Watts>)
    ensures var plan := PlanBrakeRelease(currentW, defaultW);
            if currentW.None? || currentW.value == 0 || defaultW.None? || defaultW.value == 0 then
              plan == Failure(PowerLimitUnavailable)
            else
              var w, d, half := currentW.value, defaultW.value, defaultW.value / 2;
              if d > 8 && half - 2 <= w <= half + 2 then plan == Success(d) else plan == Failure(NotARelayBrake)
  {
    BandsInWatts(currentW, defaultW);
  }

  // ---- the register and the workers that write it ---------------------------

  datatype Device = Device(currentW: Watts, defaultW: Watts)

  /** How the privileged command went; a failed one may still have written the register. */
  datatype CommandOutcome = Completed | Failed(tookEffect: bool)

  /** What the outside world contributes to one actuation attempt. */
  datatype JobInput = JobInput(readCurrent: bool, readDefault: bool, command: CommandOutcome, panics: bool)

  type JobResult = Result<(), ActuatorError>

  datatype JobEnd = JobEnd(dev: Device, result: JobResult)

  function Read(readable: bool, w: Watts): Option<Watts> {
    if readable then Some(w) else None
  }

  function RunCommand(dev: Device, limitW: Watts, command: CommandOutcome): JobEnd {
    match command
    case Completed => JobEnd(dev.(currentW := limitW), Success(()))
    case Failed(tookEffect) => JobEnd(if tookEffect then dev.(currentW := limitW) else dev, Failure(CommandFailed))
  }

  function ApplyBrake(dev: Device, pct: F32, input: JobInput): JobEnd {
    match PlanBrakeApply(Read(input.readCurrent, dev.currentW), Read(input.readDefault, dev.defaultW), pct)
    case Failure(error) => JobEnd(dev, Failure(error))
    case Success(None) => JobEnd(dev, Success(()))
    case Success(Some(target)) => RunCommand(dev, target, input.command)
  }

  function ReleaseBrake(dev: Device, input: JobInput): JobEnd {
    match PlanBrakeRelease(Read(input.readCurrent, dev.currentW), Read(input.readDefault, dev.defaultW))
    case Failure(error) => JobEnd(dev, Failure(error))
    case Success(limitW) => RunCommand(dev, limitW, input.command)
  }

  /** A panicking worker keeps whatever it already wrote and reports an error. */
  function Settled(end: JobEnd, panics: bool): JobEnd {
    if panics then end.(result := Failure(TaskPanicked)) else end
  }

  function ApplyJob(dev: Device, input: JobInput): JobEnd {
    Settled(ApplyBrake(dev, BRAKE_FRACTION, input), input.panics)
  }

  function ReleaseJob(dev: Device, input: JobInput): JobEnd {
    Settled(ReleaseBrake(dev, input), input.panics)
  }

  /** A command that reports failure and wrote nothing, or reports success and wrote. */
  predicate Truthful(input: JobInput) {
    !input.panics && input.command != Failed(true)
  }

  function Seen(dev: Device): PowerLimitObservation {
    ClassifyPowerLimit(Some(dev.currentW), Some(dev.defaultW), BRAKE_FRACTION)
  }

  predicate InBrakeBand(dev: Device) {
    Seen(dev).RelayOwnedBrake?
  }

  /** What any apply worker can do: nothing, or move a limit from the default band onto the target. */
  lemma ApplyJobEffect(dev: Device, input: JobInput)
    ensures var end := ApplyJob(dev, input);
            && (end.dev != dev ==>
                  Seen(dev).AtOrAboveDefault? && InBrakeBand(end.dev) && end.dev == dev.(currentW := dev.defaultW / 2))
            && (end.result.Success? ==> InBrakeBand(end.dev))
            && (Truthful(input) && end.result.Failure? ==> end.dev == dev)
  {
    BrakeTargetIsHalf(dev.defaultW);
  }

  /** What any release worker can do: nothing, or move a limit from the brake band onto the default. */
  lemma ReleaseJobEffect(dev: Device, input: JobInput)
    ensures var end := ReleaseJob(dev, input);
            && (end.dev != dev ==>
                  InBrakeBand(dev) && end.dev == dev.(currentW := dev.defaultW) && !InBrakeBand(end.dev))
            && (end.result.Success? ==>
                  InBrakeBand(dev) && end.dev == dev.(currentW := dev.defaultW) && !InBrakeBand(end.dev))
            && (Truthful(input) && end.result.Failure? ==> end.dev == dev)
  {
    BrakeTargetIsHalf(dev.defaultW);
  }

  /** What a worker reports: its panic, else its plan's refusal, else how the command went. */
  lemma JobReports(dev: Device, input: JobInput)
    ensures var w, d := Read(input.readCurrent, dev.currentW), Read(input.readDefault, dev.defaultW);
            var apply, release := PlanBrakeApply(w, d, BRAKE_FRACTION), PlanBrakeRelease(w, d);
            var a, r := ApplyJob(dev, input).result, ReleaseJob(dev, input).result;
            && (input.panics ==> a == r == Failure(TaskPanicked))
            && (!input.panics && apply.Failure? ==> a == Failure(apply.error))
            && (!input.panics && release.Failure? ==> r == Failure(release.error))
            && (!input.panics && apply.Success? ==>
                  a == if apply.value.Some? && input.command.Failed? then Failure(CommandFailed) else Success(()))
            && (!input.panics && release.Success? ==>
                  r == if input.command.Failed? then Failure(CommandFailed) else Success(()))
  {
  }

  /** Braking and then releasing from at or above the default ends exactly at the default. */
  lemma ApplyThenRelease(dev: Device, apply: JobInput, release: JobInput)
    requires Seen(dev).AtOrAboveDefault? && dev.currentW > 0
    requires apply.readCurrent && apply.readDefault && release.readCurrent && release.readDefault
    requires apply.command.Completed? && release.command.Completed?
    ensures var braked := ApplyJob(dev, apply).dev;
            && InBrakeBand(braked)
            && ReleaseJob(braked, release).dev == Device(dev.defaultW, dev.defaultW)
  {
    BrakeTargetIsHalf(dev.defaultW);
  }

  /** The actuator over one register: read, plan, then run at most one command. */
  class NvmlActuator {
    var currentW: Watts
    const defaultW: Watts

    constructor (currentW: Watts, defaultW: Watts)
      ensures View() == Device(currentW, defaultW)
    {
      this.currentW := currentW;
      this.defaultW := defaultW;
    }

    function View(): Device
      reads this
    {
      Device(currentW, defaultW)
    }

    method RunPowerLimit(limitW: Watts, command: CommandOutcome) returns (result: JobResult)
      modifies this
      ensures JobEnd(View(), result) == RunCommand(old(View()), limitW, command)
    {
      if command.Completed? || command.tookEffect {
        currentW := limitW;
      }
      result := if command.Completed? then Success(()) else Failure(CommandFailed);
    }

    method ApplyEmergencyBrake(pct: F32, input: JobInput) returns (result: JobResult)
      modifies this
      ensures JobEnd(View(), result) == ApplyBrake(old(View()), pct, input)
    {
      var plan := PlanBrakeApply(Read(input.readCurrent, currentW), Read(input.readDefault, defaultW), pct);
      match plan {
        case Failure(error) => result := Failure(error);
        case Success(None) => result := Success(());
        case Success(Some(target)) => result := RunPowerLimit(target, input.command);
      }
    }

    method ReleaseEmergencyBrake(input: JobInput) returns (result: JobResult)
      modifies this
      ensures JobEnd(View(), result) == ReleaseBrake(old(View()), input)
    {
      var plan := PlanBrakeRelease(Read(input.readCurrent, currentW), Read(input.readDefault, defaultW));
      match plan {
        case Failure(error) => result := Failure(error);
        case Success(limitW) => result := RunPowerLimit(limitW, input.command);
      }
    }
  }
}
