/**
 The argument parser of scripts/optimize-particle-mesh.mjs, and its agreement
 with the arguments that the service builds for it.

 `number` stands for the script's conversion of a text to a finite number, None
 when the result is not one. Its values are exact reals.
 */
module ParticleArgs {
  import opened Wrappers
  import opened Decimals
  import opened Options

  type Numeral = string -> Option<real>

  datatype Simplify = Off | On(ratio: real, error: real)

  datatype Arguments = Help | Paths(inputPath: string, outputPath: string, simplify: Simplify)

  datatype UsageError = TooFew | MissingValue | OnlyFalse | OutOfRange | UnknownOption | Combined | BothRequired

  /** The options of the script. */
  datatype Flag = SimplifyFlag | RatioFlag | ErrorFlag | Unknown(text: string)

  type Pair = (Flag, string)

  function FlagOf(arg: string): Flag {
    if arg == "--simplify" then SimplifyFlag
    else if arg == "--simplify-ratio" then RatioFlag
    else if arg == "--simplify-error" then ErrorFlag
    else Unknown(arg)
  }

  predicate IsHelp(arg: string) {
    arg == "--help" || arg == "-h"
  }

  function ParseNumber(number: Numeral, value: string, min: real, max: real, minInclusive: bool): Option<real> {
    var parsed := number(value);
    if parsed.None? then None
    else
      var below := if minInclusive then parsed.value < min else parsed.value <= min;
      if below || parsed.value > max then None else parsed
  }

  function RatioOf(number: Numeral, value: string): Option<real> {
    ParseNumber(number, value, 0.0, 1.0, false)
  }

  function ErrorOf(number: Numeral, value: string): Option<real> {
    ParseNumber(number, value, 0.0, 1.0, true)
  }

  // ----- what the flags mean -----

  /** The flags with their values; a last flag without a value is left over. */
  function PairsOf(flags: seq<string>): (pairs: seq<Pair>)
    ensures |pairs| == |flags| / 2
    ensures forall i :: 0 <= i < |pairs| ==> pairs[i] == (FlagOf(flags[2 * i]), flags[2 * i + 1])
  {
    seq(|flags| / 2, i requires 0 <= i < |flags| / 2 => (FlagOf(flags[2 * i]), flags[2 * i + 1]))
  }

  /** What is wrong with a pair by itself. */
  function PairError(number: Numeral, pair: Pair): Option<UsageError> {
    match pair.0
    case SimplifyFlag => if pair.1 == "false" then None else Some(OnlyFalse)
    case RatioFlag => if RatioOf(number, pair.1).Some? then None else Some(OutOfRange)
    case ErrorFlag => if ErrorOf(number, pair.1).Some? then None else Some(OutOfRange)
    case Unknown(_) => Some(UnknownOption)
  }

  /** The value of the last pair with this flag. */
  function LastValue(pairs: seq<Pair>, flag: Flag): (value: Option<string>)
    ensures value.Some? ==> (flag, value.value) in pairs
    ensures value.None? ==> forall pair :: pair in pairs ==> pair.0 != flag
  {
    if pairs == [] then None
    else if pairs[|pairs| - 1].0 == flag then Some(pairs[|pairs| - 1].1)
    else LastValue(pairs[..|pairs| - 1], flag)
  }

  /** What the parser returns for flags that are all good by themselves. */
  function Combine(number: Numeral, inputPath: string, outputPath: string, pairs: seq<Pair>): Result<Arguments, UsageError> {
    var off, ratio, error := LastValue(pairs, SimplifyFlag), LastValue(pairs, RatioFlag), LastValue(pairs, ErrorFlag);
    if off.Some? then
      if ratio.Some? || error.Some? then Failure(Combined) else Success(Paths(inputPath, outputPath, Off))
    else if ratio.None? || error.None? then Failure(BothRequired)
    else
      var r, e := RatioOf(number, ratio.value), ErrorOf(number, error.value);
      if r.None? || e.None? then Failure(OutOfRange) else Success(Paths(inputPath, outputPath, On(r.value, e.value)))
  }

  /** The first pair that is wrong by itself. */
  function FirstError(number: Numeral, pairs: seq<Pair>): (error: Option<UsageError>)
    ensures error.None? <==> forall pair :: pair in pairs ==> PairError(number, pair).None?
  {
    if pairs == [] then None
    else
      var earlier := FirstError(number, pairs[..|pairs| - 1]);
      assert pairs == pairs[..|pairs| - 1] + [pairs[|pairs| - 1]];
      if earlier.Some? then earlier else PairError(number, pairs[|pairs| - 1])
  }

  function Outcome(number: Numeral, argv: seq<string>): Result<Arguments, UsageError> {
    if "--help" in argv || "-h" in argv then Success(Help)
    else if |argv| < 4 then Failure(TooFew)
    else
      var pairs := PairsOf(argv[2..]);
      var error := FirstError(number, pairs);
      if error.Some? then Failure(error.value)
      else if |argv| % 2 != 0 then Failure(MissingValue)
      else Combine(number, argv[0], argv[1], pairs)
  }

  // ----- the code -----

  /** The values seen so far, as the loop's variables hold them. */
  ghost predicate Tracks(number: Numeral, pairs: seq<Pair>, enabled: bool, ratio: Option<real>, error: Option<real>) {
    var off, r, e := LastValue(pairs, SimplifyFlag), LastValue(pairs, RatioFlag), LastValue(pairs, ErrorFlag);
    && (enabled <==> off.None?)
    && ratio == (if r.None? then None else RatioOf(number, r.value)) && (ratio.None? <==> r.None?)
    && error == (if e.None? then None else ErrorOf(number, e.value)) && (error.None? <==> e.None?)
  }

  lemma LastValueSnoc(pairs: seq<Pair>, pair: Pair, flag: Flag)
    ensures LastValue(pairs + [pair], flag) == if pair.0 == flag then Some(pair.1) else LastValue(pairs, flag)
  {
    assert (pairs + [pair])[..|pairs|] == pairs;
  }

  lemma TracksSnoc(number: Numeral, pairs: seq<Pair>, pair: Pair, enabled: bool, ratio: Option<real>, error: Option<real>)
    requires Tracks(number, pairs, enabled, ratio, error) && PairError(number, pair).None?
    ensures Tracks(number, pairs + [pair],
                   enabled && pair.0 != SimplifyFlag,
                   if pair.0 == RatioFlag then RatioOf(number, pair.1) else ratio,
                   if pair.0 == ErrorFlag then ErrorOf(number, pair.1) else error)
  {
    hide LastValue, ParseNumber;
    LastValueSnoc(pairs, pair, SimplifyFlag);
    LastValueSnoc(pairs, pair, RatioFlag);
    LastValueSnoc(pairs, pair, ErrorFlag);
  }

  lemma TracksNext(number: Numeral, pairs: seq<Pair>, n: nat, enabled: bool, ratio: Option<real>, error: Option<real>)
    requires n < |pairs| && Tracks(number, pairs[..n], enabled, ratio, error)
    ensures PairError(number, pairs[n]).None? ==>
              Tracks(number, pairs[..n + 1],
                     enabled && pairs[n].0 != SimplifyFlag,
                     if pairs[n].0 == RatioFlag then RatioOf(number, pairs[n].1) else ratio,
                     if pairs[n].0 == ErrorFlag then ErrorOf(number, pairs[n].1) else error)
  {
    hide Tracks, PairError;
    if PairError(number, pairs[n]).None? {
      TracksSnoc(number, pairs[..n], pairs[n], enabled, ratio, error);
      assert pairs[..n + 1] == pairs[..n] + [pairs[n]];
    }
  }

  lemma {:induction false} FirstErrorAt(number: Numeral, pairs: seq<Pair>, n: nat)
    requires n < |pairs| && FirstError(number, pairs[..n]).None?
    ensures PairError(number, pairs[n]).Some? ==> FirstError(number, pairs) == PairError(number, pairs[n])
    ensures PairError(number, pairs[n]).None? ==> FirstError(number, pairs[..n + 1]).None?
    decreases |pairs|
  {
    hide PairError;
    assert pairs[..n + 1][..n] == pairs[..n];
    if n == |pairs| - 1 {
      assert pairs[..n + 1] == pairs;
    } else {
      assert pairs[..|pairs| - 1][..n] == pairs[..n];
      FirstErrorAt(number, pairs[..|pairs| - 1], n);
    }
  }

  /** The loop has read n pairs, without an error. */
  ghost predicate ReadSoFar(number: Numeral, pairs: seq<Pair>, n: nat, enabled: bool, ratio: Option<real>,
                            error: Option<real>)
  {
    n <= |pairs| && FirstError(number, pairs[..n]).None? && Tracks(number, pairs[..n], enabled, ratio, error)
  }

  lemma NothingRead(number: Numeral, pairs: seq<Pair>)
    ensures ReadSoFar(number, pairs, 0, true, None, None)
  {
  }

  lemma ReadNext(number: Numeral, pairs: seq<Pair>, n: nat, enabled: bool, ratio: Option<real>, error: Option<real>)
    requires n < |pairs| && ReadSoFar(number, pairs, n, enabled, ratio, error)
    ensures PairError(number, pairs[n]).Some? ==> FirstError(number, pairs) == PairError(number, pairs[n])
    ensures PairError(number, pairs[n]).None? ==>
              ReadSoFar(number, pairs, n + 1,
                        enabled && pairs[n].0 != SimplifyFlag,
                        if pairs[n].0 == RatioFlag then RatioOf(number, pairs[n].1) else ratio,
                        if pairs[n].0 == ErrorFlag then ErrorOf(number, pairs[n].1) else error)
  {
    hide FirstError, PairError, Tracks, RatioOf, ErrorOf;
    FirstErrorAt(number, pairs, n);
    TracksNext(number, pairs, n, enabled, ratio, error);
  }

  lemma AllRead(number: Numeral, pairs: seq<Pair>, enabled: bool, ratio: Option<real>, error: Option<real>)
    requires ReadSoFar(number, pairs, |pairs|, enabled, ratio, error)
    ensures FirstError(number, pairs).None? && Tracks(number, pairs, enabled, ratio, error)
  {
    hide FirstError, Tracks;
    assert pairs[..|pairs|] == pairs;
  }

  /** What the loop over the flags stops with. */
  function FlagsError(number: Numeral, flags: seq<string>): Option<UsageError> {
    var error := FirstError(number, PairsOf(flags));
    if error.Some? then error else if |flags| % 2 != 0 then Some(MissingValue) else None
  }

  /** One turn of the loop over the flags. */
  method ParsePair(number: Numeral, flag: Flag, value: string, simplifyEnabled: bool, simplifyRatio: Option<real>,
                   simplifyError: Option<real>)
    returns (failure: Option<UsageError>, enabled: bool, ratio: Option<real>, error: Option<real>)
    ensures failure == PairError(number, (flag, value))
    ensures enabled == (simplifyEnabled && flag != SimplifyFlag)
    ensures ratio == if flag == RatioFlag then RatioOf(number, value) else simplifyRatio
    ensures error == if flag == ErrorFlag then ErrorOf(number, value) else simplifyError
  {
    failure, enabled, ratio, error := None, simplifyEnabled, simplifyRatio, simplifyError;
    match flag {
      case SimplifyFlag =>
        failure := if value != "false" then Some(OnlyFalse) else None;
        enabled := false;
      case RatioFlag =>
        ratio := RatioOf(number, value);
        failure := if ratio.None? then Some(OutOfRange) else None;
      case ErrorFlag =>
        error := ErrorOf(number, value);
        failure := if error.None? then Some(OutOfRange) else None;
      case Unknown(_) =>
        failure := Some(UnknownOption);
    }
  }

  /** The loop over the flags, two at a time. */
  method ParseFlags(number: Numeral, flags: seq<string>)
    returns (failure: Option<UsageError>, simplifyEnabled: bool, simplifyRatio: Option<real>, simplifyError: Option<real>)
    ensures failure == FlagsError(number, flags)
    ensures failure.None? ==> Tracks(number, PairsOf(flags), simplifyEnabled, simplifyRatio, simplifyError)
  {
    failure, simplifyEnabled, simplifyRatio, simplifyError := None, true, None, None;
    ghost var pairs := PairsOf(flags);
    NothingRead(number, pairs);
    hide FirstError, PairError, ParseNumber, RatioOf, ErrorOf, LastValue, FlagOf, Tracks, Outcome, Combine, PairsOf,
      ReadSoFar;
    var index := 0;
    ghost var n := 0;
    while index < |flags|
      invariant 0 <= n <= |pairs| && index == 2 * n <= |flags|
      invariant ReadSoFar(number, pairs, n, simplifyEnabled, simplifyRatio, simplifyError)
      invariant failure.None?
      decreases |flags| - index
    {
      if index + 1 >= |flags| {
        AllRead(number, pairs, simplifyEnabled, simplifyRatio, simplifyError);
        failure := Some(MissingValue);
        return;
      }
      var flag, value := FlagOf(flags[index]), flags[index + 1];
      ReadNext(number, pairs, n, simplifyEnabled, simplifyRatio, simplifyError);
      failure, simplifyEnabled, simplifyRatio, simplifyError :=
        ParsePair(number, flag, value, simplifyEnabled, simplifyRatio, simplifyError);
      if failure.Some? {
        return;
      }
      index, n := index + 2, n + 1;
    }
    AllRead(number, pairs, simplifyEnabled, simplifyRatio, simplifyError);
  }

  method ParseParticleMeshArgs(number: Numeral, argv: seq<string>) returns (r: Result<Arguments, UsageError>)
    ensures r == Outcome(number, argv)
  {
    if "--help" in argv || "-h" in argv {
      return Success(Help);
    }
    if |argv| < 4 {
      return Failure(TooFew);
    }
    hide FirstError, ParseNumber, LastValue, PairsOf, FlagOf;
    var inputPath, outputPath, flags := argv[0], argv[1], argv[2..];
    var failure, simplifyEnabled, simplifyRatio, simplifyError := ParseFlags(number, flags);
    if failure.Some? {
      return Failure(failure.value);
    }
    if !simplifyEnabled {
      if simplifyRatio.Some? || simplifyError.Some? {
        return Failure(Combined);
      }
      return Success(Paths(inputPath, outputPath, Off));
    }
    if simplifyRatio.None? || simplifyError.None? {
      return Failure(BothRequired);
    }
    return Success(Paths(inputPath, outputPath, On(simplifyRatio.value, simplifyError.value)));
  }

  // ----- which arguments are accepted -----

  ghost predicate Uses(pairs: seq<Pair>, flag: Flag) {
    exists pair :: pair in pairs && pair.0 == flag
  }

  /** All values good, and either only `--simplify false` or both bounds. */
  ghost predicate GoodFlags(number: Numeral, pairs: seq<Pair>) {
    && (forall pair :: pair in pairs ==> PairError(number, pair).None?)
    && if Uses(pairs, SimplifyFlag) then !Uses(pairs, RatioFlag) && !Uses(pairs, ErrorFlag)
       else Uses(pairs, RatioFlag) && Uses(pairs, ErrorFlag)
  }

  lemma LastValueUses(pairs: seq<Pair>, flag: Flag)
    ensures LastValue(pairs, flag).Some? <==> Uses(pairs, flag)
  {
    if LastValue(pairs, flag).Some? {
      assert (flag, LastValue(pairs, flag).value).0 == flag;
    }
  }

  predicate AsksForHelp(argv: seq<string>) {
    "--help" in argv || "-h" in argv
  }

  /** The parser shows its help when asked, and otherwise accepts exactly the complete, well-formed flag lists. */
  lemma AcceptsExactly(number: Numeral, argv: seq<string>)
    ensures Outcome(number, argv) == Success(Help) <==> AsksForHelp(argv)
    ensures Outcome(number, argv).Success?
       <==> AsksForHelp(argv) || (|argv| >= 4 && |argv| % 2 == 0 && GoodFlags(number, PairsOf(argv[2..])))
  {
    if |argv| >= 4 && !AsksForHelp(argv) {
      var pairs := PairsOf(argv[2..]);
      hide LastValue, FirstError, ParseNumber;
      LastValueUses(pairs, SimplifyFlag);
      LastValueUses(pairs, RatioFlag);
      LastValueUses(pairs, ErrorFlag);
      if forall pair :: pair in pairs ==> PairError(number, pair).None? {
        GoodLastValues(number, pairs);
      }
    }
  }

  /** The last place where an option is given, counted in pairs after the two paths. */
  ghost predicate GivenLast(argv: seq<string>, option: string, k: nat) {
    && 2 * k + 3 < |argv| && argv[2 * k + 2] == option
    && forall j: nat :: k < j && 2 * j + 3 < |argv| ==> argv[2 * j + 2] != option
  }

  lemma {:induction false} LastPlace(pairs: seq<Pair>, flag: Flag) returns (k: nat)
    requires LastValue(pairs, flag).Some?
    ensures k < |pairs| && pairs[k] == (flag, LastValue(pairs, flag).value)
    ensures forall j: nat :: k < j < |pairs| ==> pairs[j].0 != flag
  {
    k := |pairs| - 1;
    if pairs[k].0 != flag {
      k := LastPlace(pairs[..|pairs| - 1], flag);
    }
  }

  lemma OptionOf(option: string)
    ensures FlagOf(option) == SimplifyFlag <==> option == "--simplify"
    ensures FlagOf(option) == RatioFlag <==> option == "--simplify-ratio"
    ensures FlagOf(option) == ErrorFlag <==> option == "--simplify-error"
  {
  }

  function OptionText(flag: Flag): string {
    match flag
    case SimplifyFlag => "--simplify"
    case RatioFlag => "--simplify-ratio"
    case ErrorFlag => "--simplify-error"
    case Unknown(text) => text
  }

  lemma GivenAt(argv: seq<string>, flag: Flag) returns (k: nat)
    requires |argv| >= 4 && !flag.Unknown? && LastValue(PairsOf(argv[2..]), flag).Some?
    ensures GivenLast(argv, OptionText(flag), k) && argv[2 * k + 3] == LastValue(PairsOf(argv[2..]), flag).value
  {
    var pairs := PairsOf(argv[2..]);
    k := LastPlace(pairs, flag);
    hide LastValue, PairsOf, FlagOf;
    forall option ensures FlagOf(option) == flag <==> option == OptionText(flag) {
      OptionOf(option);
    }
    hide OptionText;
    forall j: nat | k < j && 2 * j + 3 < |argv| ensures argv[2 * j + 2] != OptionText(flag) {
      assert pairs[j].0 == FlagOf(argv[2..][2 * j]);
    }
  }

  /** What accepted arguments come to: the two paths, and the last ratio and cap given, unless simplification is turned off. */
  lemma ReturnsLast(number: Numeral, argv: seq<string>) returns (ratioAt: nat, errorAt: nat, offAt: nat)
    requires Outcome(number, argv).Success? && !AsksForHelp(argv)
    ensures var r := Outcome(number, argv).value;
            && |argv| >= 4 && r.Paths? && r.inputPath == argv[0] && r.outputPath == argv[1]
            && match r.simplify
               case Off => GivenLast(argv, "--simplify", offAt) && argv[2 * offAt + 3] == "false"
               case On(ratio, error) =>
                 && GivenLast(argv, "--simplify-ratio", ratioAt) && number(argv[2 * ratioAt + 3]) == Some(ratio)
                 && GivenLast(argv, "--simplify-error", errorAt) && number(argv[2 * errorAt + 3]) == Some(error)
  {
    AcceptedOutcome(number, argv);
    CombinedMeans(number, argv[0], argv[1], PairsOf(argv[2..]));
    hide Outcome, Combine, FirstError, LastValue, FlagOf, PairsOf, GivenLast, AsksForHelp;
    ratioAt, errorAt, offAt := 0, 0, 0;
    if Outcome(number, argv).value.simplify.Off? {
      offAt := GivenAt(argv, SimplifyFlag);
    } else {
      ratioAt := GivenAt(argv, RatioFlag);
      errorAt := GivenAt(argv, ErrorFlag);
    }
  }

  lemma CombinedMeans(number: Numeral, inputPath: string, outputPath: string, pairs: seq<Pair>)
    requires FirstError(number, pairs).None? && Combine(number, inputPath, outputPath, pairs).Success?
    ensures var r := Combine(number, inputPath, outputPath, pairs).value;
            && r.Paths? && r.inputPath == inputPath && r.outputPath == outputPath
            && match r.simplify
               case Off => LastValue(pairs, SimplifyFlag) == Some("false")
               case On(ratio, error) =>
                 var lastRatio, lastError := LastValue(pairs, RatioFlag), LastValue(pairs, ErrorFlag);
                 && lastRatio.Some? && number(lastRatio.value) == Some(ratio)
                 && lastError.Some? && number(lastError.value) == Some(error)
  {
    hide FirstError, LastValue;
    var off := LastValue(pairs, SimplifyFlag);
    if off.Some? {
      assert PairError(number, (SimplifyFlag, off.value)).None?;
    }
  }

  /** A ratio is any number above 0 up to 1, an error cap any number from 0 to 1. */
  lemma BoundsExactly(number: Numeral, value: string, parsed: real)
    requires number(value) == Some(parsed)
    ensures RatioOf(number, value) == if 0.0 < parsed <= 1.0 then Some(parsed) else None
    ensures ErrorOf(number, value) == if 0.0 <= parsed <= 1.0 then Some(parsed) else None
  {
  }

  lemma GoodLastValues(number: Numeral, pairs: seq<Pair>)
    requires forall pair :: pair in pairs ==> PairError(number, pair).None?
    ensures LastValue(pairs, RatioFlag).Some? ==> RatioOf(number, LastValue(pairs, RatioFlag).value).Some?
    ensures LastValue(pairs, ErrorFlag).Some? ==> ErrorOf(number, LastValue(pairs, ErrorFlag).value).Some?
  {
    hide LastValue, ParseNumber;
    var r, e := LastValue(pairs, RatioFlag), LastValue(pairs, ErrorFlag);
    assert r.Some? ==> PairError(number, (RatioFlag, r.value)).None?;
    assert e.Some? ==> PairError(number, (ErrorFlag, e.value)).None?;
  }

  /** No flag occurs twice. */
  ghost predicate NoRepeats(pairs: seq<Pair>) {
    forall i, j :: 0 <= i < j < |pairs| ==> pairs[i].0 != pairs[j].0
  }

  /** Reordering the pairs never changes whether they are accepted, nor the result unless a flag repeats. */
  lemma OrderOfFlags(number: Numeral, argv: seq<string>, other: seq<string>)
    requires "--help" !in argv && "-h" !in argv && "--help" !in other && "-h" !in other
    requires |argv| == |other| >= 4 && argv[..2] == other[..2]
    requires multiset(PairsOf(argv[2..])) == multiset(PairsOf(other[2..]))
    ensures Outcome(number, argv).Success? <==> Outcome(number, other).Success?
    ensures NoRepeats(PairsOf(argv[2..])) && Outcome(number, argv).Success? ==>
              Outcome(number, other) == Outcome(number, argv)
  {
    hide LastValue, FirstError, ParseNumber, Outcome, PairsOf;
    var pairs, others := PairsOf(argv[2..]), PairsOf(other[2..]);
    SameMembers(pairs, others);
    AcceptsExactly(number, argv);
    AcceptsExactly(number, other);
    if NoRepeats(pairs) && Outcome(number, argv).Success? {
      SameLastValue(pairs, others, SimplifyFlag);
      SameLastValue(pairs, others, RatioFlag);
      SameLastValue(pairs, others, ErrorFlag);
      AcceptedOutcome(number, argv);
      AcceptedOutcome(number, other);
      assert argv[0] == argv[..2][0] == other[0] && argv[1] == argv[..2][1] == other[1];
    }
  }

  lemma AcceptedOutcome(number: Numeral, argv: seq<string>)
    requires "--help" !in argv && "-h" !in argv && Outcome(number, argv).Success?
    ensures |argv| >= 4 && FirstError(number, PairsOf(argv[2..])).None?
    ensures Outcome(number, argv) == Combine(number, argv[0], argv[1], PairsOf(argv[2..]))
  {
    hide Combine, FirstError, PairsOf;
  }

  lemma SameMembers(pairs: seq<Pair>, others: seq<Pair>)
    requires multiset(pairs) == multiset(others)
    ensures forall pair :: pair in pairs <==> pair in others
  {
    forall pair ensures pair in pairs <==> pair in others {
      assert pair in pairs <==> pair in multiset(pairs);
      assert pair in others <==> pair in multiset(others);
    }
  }

  lemma SameLastValue(pairs: seq<Pair>, others: seq<Pair>, flag: Flag)
    requires forall pair :: pair in pairs <==> pair in others
    requires NoRepeats(pairs)
    ensures LastValue(pairs, flag) == LastValue(others, flag)
  {
    hide LastValue;
    var v, w := LastValue(pairs, flag), LastValue(others, flag);
    assert w.Some? ==> (flag, w.value) in others;
    if v.Some? {
      assert (flag, v.value) in others;
      assert (flag, w.value) in pairs;
      var i :| 0 <= i < |pairs| && pairs[i] == (flag, v.value);
      var j :| 0 <= j < |pairs| && pairs[j] == (flag, w.value);
      assert i == j;
    }
  }

  // ----- agreement with the service -----

  /** A decimal with a whole part and a fraction. */
  function DecimalText(negative: bool, whole: string, fraction: string): string {
    (if negative then "-" else "") + whole + "." + fraction
  }

  ghost function DecimalValue(negative: bool, whole: string, fraction: string): real
    requires AllDigits(whole) && AllDigits(fraction)
  {
    var value := DigitsValue(whole) as real + DigitsValue(fraction) as real / PowerOfTen(|fraction|) as real;
    if negative then -value else value
  }

  function PowerOfTen(n: nat): (r: nat)
    ensures r >= 1
  {
    if n == 0 then 1 else 10 * PowerOfTen(n - 1)
  }

  /** All that is asked of the script's number conversion: plain signed decimals. */
  ghost predicate ReadsDecimals(number: Numeral) {
    forall negative, whole, fraction ::
      AllDigits(whole) && AllDigits(fraction) ==>
        number(DecimalText(negative, whole, fraction)) == Some(DecimalValue(negative, whole, fraction))
  }

  /** The error cap as a number. */
  function ErrorCap(percent: int): real {
    if percent <= 5 then 0.05
    else if percent < 10 then 0.02
    else if percent <= 20 then 0.01
    else if percent <= 40 then 0.005
    else 0.001
  }

  function Hundredths(percent: int): real {
    percent as real / 100.0
  }

  /** The ratio with two decimals reads back as a hundredth of the percentage. */
  lemma RatioReadsBack(number: Numeral, percent: int)
    requires ReadsDecimals(number)
    ensures number(SimplifyRatioArg(percent)) == Some(Hundredths(percent))
  {
    hide *;
    RatioText(percent);
    RatioValue(percent);
    var n := Abs(percent);
    ReadsOne(number, percent < 0, Digits(n / 100), Fraction(n));
  }

  lemma ReadsOne(number: Numeral, negative: bool, whole: string, fraction: string)
    requires ReadsDecimals(number)
    requires AllDigits(whole) && AllDigits(fraction)
    ensures number(DecimalText(negative, whole, fraction)) == Some(DecimalValue(negative, whole, fraction))
  {
    hide DecimalValue, DecimalText, AllDigits;
  }

  /** The last two decimal digits. */
  function Fraction(n: nat): string {
    [Digit(n / 10 % 10), Digit(n % 10)]
  }

  lemma RatioText(percent: int)
    ensures var n := Abs(percent);
            && SimplifyRatioArg(percent) == DecimalText(percent < 0, Digits(n / 100), Fraction(n))
            && AllDigits(Digits(n / 100)) && AllDigits(Fraction(n))
  {
    hide Digits, Digit;
  }

  lemma RatioValue(percent: int)
    requires AllDigits(Digits(Abs(percent) / 100)) && AllDigits(Fraction(Abs(percent)))
    ensures DecimalValue(percent < 0, Digits(Abs(percent) / 100), Fraction(Abs(percent))) == Hundredths(percent)
  {
    var n := Abs(percent);
    DigitsRoundTrip(n / 100);
    TwoDigits(n / 10 % 10, n % 10);
    Positional(n);
    assert PowerOfTen(1) == 10 && PowerOfTen(2) == 100;
    hide Digits, DigitsValue, Digit, PowerOfTen, AllDigits;
  }

  lemma Positional(n: nat)
    ensures (n / 100) as real + (10 * (n / 10 % 10) + n % 10) as real / 100.0 == n as real / 100.0
  {
    var rest := 10 * (n / 10 % 10) + n % 10;
    assert n == 100 * (n / 100) + rest;
  }

  lemma TwoDigits(tens: nat, ones: nat)
    requires tens < 10 && ones < 10
    ensures DigitsValue([Digit(tens), Digit(ones)]) == 10 * tens + ones
  {
    var digits := [Digit(tens), Digit(ones)];
    assert digits[..1] == [Digit(tens)] && [Digit(tens)][..0] == "";
    assert DigitsValue([Digit(tens)]) == tens;
  }

  lemma CapReadsBack(number: Numeral, percent: int)
    requires ReadsDecimals(number)
    ensures number(SimplifyErrorArg(percent)) == Some(ErrorCap(percent))
  {
    hide ReadsDecimals;
    CapReads(number, "05", 0.05);
    CapReads(number, "02", 0.02);
    CapReads(number, "01", 0.01);
    CapReads(number, "005", 0.005);
    CapReads(number, "001", 0.001);
    assert "0." + "05" == "0.05" && "0." + "02" == "0.02" && "0." + "01" == "0.01";
    assert "0." + "005" == "0.005" && "0." + "001" == "0.001";
  }

  lemma CapReads(number: Numeral, fraction: string, value: real)
    requires ReadsDecimals(number)
    requires (fraction, value) in [("05", 0.05), ("02", 0.02), ("01", 0.01), ("005", 0.005), ("001", 0.001)]
    ensures number("0." + fraction) == Some(value)
  {
    CapText(fraction, value);
    hide DecimalValue, ReadsDecimals, AllDigits;
    assert DecimalText(false, "0", fraction) == "0." + fraction;
    ReadsOne(number, false, "0", fraction);
  }

  lemma CapText(fraction: string, value: real)
    requires (fraction, value) in [("05", 0.05), ("02", 0.02), ("01", 0.01), ("005", 0.005), ("001", 0.001)]
    ensures AllDigits("0") && AllDigits(fraction)
    ensures DecimalValue(false, "0", fraction) == value
  {
    assert PowerOfTen(0) == 1 && PowerOfTen(1) == 10 && PowerOfTen(2) == 100 && PowerOfTen(3) == 1000;
    var n := |fraction|;
    assert fraction[..n - 1][..n - 2] == fraction[..n - 2];
    assert "0"[..0] == "" && DigitsValue("0") == 0;
    assert DigitsValue(fraction[..n - 1]) == 0;
  }

  /**
   Across the process boundary: for every percentage and every pair of paths
   that are not help flags, the script accepts the service's arguments exactly
   for the percentages the service lets through, and reads back the paths, the
   ratio and the error cap; 100 switches simplification off.
   */
  lemma ArgumentsRoundTrip(number: Numeral, inputPath: string, outputPath: string, options: Options)
    requires ReadsDecimals(number)
    requires !IsHelp(inputPath) && !IsHelp(outputPath)
    ensures var percent := options.targetRatioPercent;
            var r := Outcome(number, BuildParticleMeshArgs(inputPath, outputPath, options));
            && (r.Success? <==> ValidTargetRatioPercent(percent))
            && (r.Success? ==>
                  r.value == Paths(inputPath, outputPath,
                                   if percent == 100 then Off else On(Hundredths(percent), ErrorCap(percent))))
  {
    ArgumentsAreNotHelp(inputPath, outputPath, options);
    FlagsAccepted(number, options.targetRatioPercent);
    hide *;
    PathsThenFlags(inputPath, outputPath, options);
    OutcomeOfPairs(number, BuildParticleMeshArgs(inputPath, outputPath, options));
  }

  lemma PathsThenFlags(inputPath: string, outputPath: string, options: Options)
    ensures var argv := BuildParticleMeshArgs(inputPath, outputPath, options);
            && argv[2..] == SimplifyFlags(options.targetRatioPercent)
            && |argv| >= 4 && |argv| % 2 == 0 && argv[0] == inputPath && argv[1] == outputPath
  {
    hide SimplifyRatioArg, SimplifyErrorArg;
  }

  /** What the built flags amount to, whatever the paths. */
  lemma FlagsAccepted(number: Numeral, percent: int)
    requires ReadsDecimals(number)
    ensures FirstError(number, PairsOf(SimplifyFlags(percent))).None? <==> ValidTargetRatioPercent(percent)
    ensures ValidTargetRatioPercent(percent) ==>
              forall i, o :: Combine(number, i, o, PairsOf(SimplifyFlags(percent)))
                          == Success(Paths(i, o, if percent == 100 then Off
                                                 else On(Hundredths(percent), ErrorCap(percent))))
  {
    BoundsReadBack(number, percent);
    hide SimplifyRatioArg, SimplifyErrorArg, RatioOf, ErrorOf, ReadsDecimals, ErrorCap, PairsOf, Combine, FirstError, SimplifyFlags;
    SkipPairs(number);
    if percent != 100 {
      BoundPairs(number, percent);
    }
  }

  lemma BoundsReadBack(number: Numeral, percent: int)
    requires ReadsDecimals(number)
    ensures RatioOf(number, SimplifyRatioArg(percent))
         == if ValidTargetRatioPercent(percent) then Some(Hundredths(percent)) else None
    ensures ErrorOf(number, SimplifyErrorArg(percent)) == Some(ErrorCap(percent))
  {
    RatioReadsBack(number, percent);
    CapReadsBack(number, percent);
    ErrorCapOrder(percent, percent);
    hide SimplifyRatioArg, SimplifyErrorArg, ReadsDecimals, ErrorCap;
  }

  lemma SkipPairs(number: Numeral)
    ensures FirstError(number, PairsOf(SimplifyFlags(100))).None?
    ensures forall i, o :: Combine(number, i, o, PairsOf(SimplifyFlags(100))) == Success(Paths(i, o, Off))
  {
    FlagNames();
    hide FlagOf, LastValue, FirstError, SimplifyRatioArg, SimplifyErrorArg;
    var pairs := PairsOf(SimplifyFlags(100));
    assert pairs == [(SimplifyFlag, "false")];
    OnePair(number, pairs[0]);
  }

  lemma BoundPairs(number: Numeral, percent: int)
    requires percent != 100
    ensures var pairs, ratio, error := PairsOf(SimplifyFlags(percent)),
                                       RatioOf(number, SimplifyRatioArg(percent)), ErrorOf(number, SimplifyErrorArg(percent));
            && (FirstError(number, pairs).None? <==> ratio.Some? && error.Some?)
            && (FirstError(number, pairs).None? ==>
                  forall i, o :: Combine(number, i, o, pairs) == Success(Paths(i, o, On(ratio.value, error.value))))
  {
    FlagNames();
    hide FlagOf, LastValue, FirstError, ParseNumber, SimplifyRatioArg, SimplifyErrorArg;
    var pairs := PairsOf(SimplifyFlags(percent));
    assert pairs == [(RatioFlag, SimplifyRatioArg(percent)), (ErrorFlag, SimplifyErrorArg(percent))];
    TwoPairs(number, pairs[0], pairs[1]);
  }

  lemma OutcomeOfPairs(number: Numeral, argv: seq<string>)
    requires "--help" !in argv && "-h" !in argv && |argv| >= 4 && |argv| % 2 == 0
    ensures var error := FirstError(number, PairsOf(argv[2..]));
            Outcome(number, argv) == if error.Some? then Failure(error.value)
                                     else Combine(number, argv[0], argv[1], PairsOf(argv[2..]))
  {
    hide FirstError, Combine;
  }

  lemma FlagNames()
    ensures FlagOf(SIMPLIFY) == SimplifyFlag && FlagOf(SIMPLIFY_RATIO) == RatioFlag && FlagOf(SIMPLIFY_ERROR) == ErrorFlag
  {
    assert |SIMPLIFY| == 10 && |SIMPLIFY_RATIO| == 16 && |SIMPLIFY_ERROR| == 16;
    assert SIMPLIFY_RATIO[11] == 'r' && SIMPLIFY_ERROR[11] == 'e';
  }

  lemma OnePair(number: Numeral, pair: Pair)
    ensures FirstError(number, [pair]) == PairError(number, pair)
    ensures forall flag :: LastValue([pair], flag) == if pair.0 == flag then Some(pair.1) else None
  {
    hide PairError;
    assert [pair][..0] == [];
    assert LastValue([], SimplifyFlag) == None;
  }

  lemma TwoPairs(number: Numeral, first: Pair, second: Pair)
    ensures FirstError(number, [first, second])
         == if PairError(number, first).Some? then PairError(number, first) else PairError(number, second)
    ensures forall flag :: LastValue([first, second], flag)
                        == if second.0 == flag then Some(second.1) else if first.0 == flag then Some(first.1) else None
  {
    hide PairError;
    assert [first, second][..1] == [first];
    OnePair(number, first);
  }

  lemma ArgumentsAreNotHelp(inputPath: string, outputPath: string, options: Options)
    requires !IsHelp(inputPath) && !IsHelp(outputPath)
    ensures var argv := BuildParticleMeshArgs(inputPath, outputPath, options);
            "--help" !in argv && "-h" !in argv
  {
    var percent := options.targetRatioPercent;
    var n := Abs(percent);
    var ratio := SimplifyRatioArg(percent);
    assert ratio[|ratio| - 3] == '.' && |ratio| >= 4;
    assert "--help"[3] == 'e' && |"-h"| == 2;
    assert SIMPLIFY[2] == 's' && SIMPLIFY_RATIO[2] == 's' && SIMPLIFY_ERROR[2] == 's' && "--help"[2] == 'h';
  }

  /** Smaller targets never get a tighter error cap, and every cap is one the script takes; the cap has five steps. */
  lemma ErrorCapOrder(percent: int, larger: int)
    requires percent <= larger
    ensures ErrorCap(larger) <= ErrorCap(percent)
    ensures 0.0 < ErrorCap(percent) <= 1.0
    ensures ErrorCap(1) == ErrorCap(5) == 0.05 && ErrorCap(6) == ErrorCap(9) == 0.02
    ensures ErrorCap(10) == ErrorCap(20) == 0.01 && ErrorCap(21) == ErrorCap(40) == 0.005
    ensures ErrorCap(41) == ErrorCap(100) == 0.001
  {
  }
}
