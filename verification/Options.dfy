/** Optimization options and the command lines built from them (internal/optimizer/options.go). */
module Options {
  import opened Wrappers
  import opened Decimals

  datatype CompressionMethod = CompressionUnspecified | Draco | OtherCompression

  datatype EventProfile = ProfileUnspecified | EventDracoWebP | EventParticleMesh | OtherProfile

  /** The options as they arrive. */
  datatype EventOptions = EventOptions(compression: CompressionMethod, targetRatioPercent: int, profile: EventProfile)

  datatype Profile = DracoWebP | ParticleMesh

  datatype Options = Options(targetRatioPercent: int, profile: Profile)

  datatype OptionsError = OptionsRequired | NotDraco | RatioOutOfRange | ProfileRequired

  predicate ValidTargetRatioPercent(percent: int) {
    1 <= percent <= 100
  }

  function ProfileFromEvent(profile: EventProfile): Result<Profile, OptionsError> {
    match profile
    case EventDracoWebP => Success(DracoWebP)
    case EventParticleMesh => Success(ParticleMesh)
    case _ => Failure(ProfileRequired)
  }

  function EventValue(profile: Profile): EventProfile {
    match profile
    case DracoWebP => EventDracoWebP
    case ParticleMesh => EventParticleMesh
  }

  function OptionsFromEvent(options: Option<EventOptions>): Result<Options, OptionsError> {
    if options.None? then Failure(OptionsRequired)
    else if options.value.compression != Draco then Failure(NotDraco)
    else if !ValidTargetRatioPercent(options.value.targetRatioPercent) then Failure(RatioOutOfRange)
    else
      match ProfileFromEvent(options.value.profile)
      case Failure(error) => Failure(error)
      case Success(profile) => Success(Options(options.value.targetRatioPercent, profile))
  }

  /** Accepted options are in range, and the event value gives back the profile that was asked for. */
  lemma OptionsFromEventKeeps(options: Option<EventOptions>)
    requires OptionsFromEvent(options).Success?
    ensures var accepted := OptionsFromEvent(options).value;
            && 1 <= accepted.targetRatioPercent <= 100
            && (accepted.profile == ParticleMesh <==> options.value.profile == EventParticleMesh)
            && options.value == EventOptions(Draco, accepted.targetRatioPercent, EventValue(accepted.profile))
  {
  }

  function Abs(n: int): nat {
    if n < 0 then -n else n
  }

  /** percent/100 with two decimals, as strconv.FormatFloat prints that exact decimal. */
  function SimplifyRatioArg(percent: int): string {
    var n := Abs(percent);
    (if percent < 0 then "-" else "") + Digits(n / 100) + "." + [Digit(n / 10 % 10), Digit(n % 10)]
  }

  function SimplifyErrorArg(percent: int): string {
    if percent <= 5 then "0.05"
    else if percent < 10 then "0.02"
    else if percent <= 20 then "0.01"
    else if percent <= 40 then "0.005"
    else "0.001"
  }

  const SIMPLIFY: string := "--simplify"
  const SIMPLIFY_RATIO: string := "--simplify-ratio"
  const SIMPLIFY_ERROR: string := "--simplify-error"

  /** The flags appended to the two paths. */
  function SimplifyFlags(percent: int): seq<string> {
    if percent == 100 then [SIMPLIFY, "false"]
    else [SIMPLIFY_RATIO, SimplifyRatioArg(percent), SIMPLIFY_ERROR, SimplifyErrorArg(percent)]
  }

  function BuildParticleMeshArgs(inputPath: string, outputPath: string, options: Options): seq<string> {
    [inputPath, outputPath] + SimplifyFlags(options.targetRatioPercent)
  }
}
