/** The argument parsers of the `#[autometrics(...)]` attribute and of
    objective declarations (autometrics-macros/src/parse.rs). Each is a loop
    that inspects the next token, consumes one argument and updates the
    argument record field by field; each loop is proved equal to a
    recursive specification, and the specification is characterised by
    what it does to a well-formed list of arguments. */
module AutometricsArgsParse {
  import opened Wrappers
  import opened Tokens

  // ---------------------------------------------------------------------
  // `#[autometrics(...)]` arguments

  datatype AutometricsArgs = AutometricsArgs(
    trackConcurrency: bool,
    okIf: Option<Token>,
    errorIf: Option<Token>,
    objective: Option<Token>)

  /** `AutometricsArgs::default()`. */
  const Default := AutometricsArgs(false, None, None, None)

  /** `ExprArg::parse`: the keyword (already peeked), `=`, then an
      expression. */
  function ExprArg(ts: seq<Token>): Result<Token, ParseError>
    requires ts != []
  {
    if |ts| >= 3 && ts[1] == Eq && IsExpression(ts[2]) then Ok(ts[2]) else Err(Unexpected)
  }

  /** The `objective` branch as written: after the keyword it parses an
      expression straight away, so the `=` of `objective = X` is where it
      expects the expression. */
  function ObjectiveArgAsWritten(ts: seq<Token>): Result<Token, ParseError>
    requires ts != []
  {
    if |ts| >= 2 && IsExpression(ts[1]) then Ok(ts[1]) else Err(Unexpected)
  }

  /** The `objective = X` form that the library's documentation and tests
      use is rejected by the branch as written; the corrected branch, which
      reads `objective` like `ok_if` and `error_if`, accepts it. */
  lemma ObjectiveWithEqualsRejected(x: Token)
    requires x.Expr?
    ensures ObjectiveArgAsWritten([Ident("objective"), Eq, x]) == Err(Unexpected)
    ensures ExprArg([Ident("objective"), Eq, x]) == Ok(x)
    ensures ArgsFromAsWritten([Ident("objective"), Eq, x], Default) == Err(Unexpected)
    ensures AutometricsArgsOf([Ident("objective"), Eq, x]) == Ok(Default.(objective := Some(x)))
    ensures ArgsFromAsWritten([Ident("objective"), x], Default) == Ok(Default.(objective := Some(x)))
    ensures AutometricsArgsOf([Ident("objective"), x]) == Err(Unexpected)
  {
    var withEq, bare := [Ident("objective"), Eq, x], [Ident("objective"), x];
    var withObjective := Default.(objective := Some(x));
    assert withEq[3..] == [] && bare[2..] == [];
    assert Step(withEq, Default) == Ok((withObjective, 3));
    assert ArgsFrom(withEq, Default) == ArgsFrom([], withObjective);
    assert StepAsWritten(bare, Default) == Ok((withObjective, 2));
    assert ArgsFromAsWritten(bare, Default) == ArgsFromAsWritten([], withObjective);
  }

  /** One pass of the loop body: the new record and the number of tokens
      consumed. The `objective` branch uses the corrected form. */
  function Step(ts: seq<Token>, args: AutometricsArgs): (r: Result<(AutometricsArgs, nat), ParseError>)
    requires ts != []
    ensures r.Ok? ==> 0 < r.value.1 <= |ts|
  {
    var t := ts[0];
    if t == Ident("track_concurrency") then
      Ok((args.(trackConcurrency := true), 1))
    else if t == Ident("ok_if") then
      if args.okIf.Some? then Err(SingleArgument("ok_if"))
      else if args.errorIf.Some? then Err(OkIfWithErrorIf)
      else match ExprArg(ts)
        case Err(e) => Err(e)
        case Ok(x) => Ok((args.(okIf := Some(x)), 3))
    else if t == Ident("error_if") then
      if args.errorIf.Some? then Err(SingleArgument("error_if"))
      else if args.okIf.Some? then Err(OkIfWithErrorIf)
      else match ExprArg(ts)
        case Err(e) => Err(e)
        case Ok(x) => Ok((args.(errorIf := Some(x)), 3))
    else if t == Ident("objective") then
      if args.objective.Some? then Err(SingleArgument("objective"))
      else match ExprArg(ts)
        case Err(e) => Err(e)
        case Ok(x) => Ok((args.(objective := Some(x)), 3))
    else if t == Comma then
      Ok((args, 1))
    else
      Err(Unexpected)
  }

  /** The loop from a given record to the end of the input. */
  function ArgsFrom(ts: seq<Token>, args: AutometricsArgs): Result<AutometricsArgs, ParseError>
    decreases |ts|
  {
    if ts == [] then Ok(args)
    else match Step(ts, args)
      case Err(e) => Err(e)
      case Ok((next, n)) => ArgsFrom(ts[n..], next)
  }

  /** One pass of the loop body as written: the `objective` branch reads
      the expression right after the keyword and so consumes two tokens;
      every other branch is that of `Step`. */
  function StepAsWritten(ts: seq<Token>, args: AutometricsArgs): (r: Result<(AutometricsArgs, nat), ParseError>)
    requires ts != []
    ensures r.Ok? ==> 0 < r.value.1 <= |ts|
    ensures ts[0] != Ident("objective") ==> r == Step(ts, args)
  {
    if ts[0] == Ident("objective") then
      if args.objective.Some? then Err(SingleArgument("objective"))
      else match ObjectiveArgAsWritten(ts)
        case Err(e) => Err(e)
        case Ok(x) => Ok((args.(objective := Some(x)), 2))
    else Step(ts, args)
  }

  /** The loop as written, from a given record to the end of the input. */
  function ArgsFromAsWritten(ts: seq<Token>, args: AutometricsArgs): Result<AutometricsArgs, ParseError>
    decreases |ts|
  {
    if ts == [] then Ok(args)
    else match StepAsWritten(ts, args)
      case Err(e) => Err(e)
      case Ok((next, n)) => ArgsFromAsWritten(ts[n..], next)
  }

  /** The loop as written and the corrected loop agree on every input in
      which `objective` does not occur. */
  lemma {:induction false} AsWrittenAgreesWithoutObjective(ts: seq<Token>, args: AutometricsArgs)
    requires forall i :: 0 <= i < |ts| ==> ts[i] != Ident("objective")
    ensures ArgsFromAsWritten(ts, args) == ArgsFrom(ts, args)
    decreases |ts|
  {
    if ts != [] {
      match Step(ts, args)
      case Err(_) =>
      case Ok((next, n)) =>
        assert forall i :: 0 <= i < |ts[n..]| ==> ts[n..][i] == ts[n + i];
        AsWrittenAgreesWithoutObjective(ts[n..], next);
    }
  }

  /** What `AutometricsArgs::parse` returns for a token stream. */
  function AutometricsArgsOf(ts: seq<Token>): Result<AutometricsArgs, ParseError> {
    ArgsFrom(ts, Default)
  }

  /** `AutometricsArgs::parse`. */
  method ParseAutometricsArgs(ts: seq<Token>) returns (r: Result<AutometricsArgs, ParseError>)
    ensures r == AutometricsArgsOf(ts)
  {
    var args := Default;
    var i := 0;
    while i < |ts|
      invariant 0 <= i <= |ts|
      invariant ArgsFrom(ts[i..], args) == AutometricsArgsOf(ts)
      decreases |ts| - i
    {
      ghost var start := i;
      var rest := ts[i..];
      var t := ts[i];
      if t == Ident("track_concurrency") {
        args := args.(trackConcurrency := true);
        i := i + 1;
      } else if t == Ident("ok_if") {
        if args.okIf.Some? {
          return Err(SingleArgument("ok_if"));
        }
        if args.errorIf.Some? {
          return Err(OkIfWithErrorIf);
        }
        var x := ExprArg(rest);
        if x.Err? {
          return Err(x.error);
        }
        args := args.(okIf := Some(x.value));
        i := i + 3;
      } else if t == Ident("error_if") {
        if args.errorIf.Some? {
          return Err(SingleArgument("error_if"));
        }
        if args.okIf.Some? {
          return Err(OkIfWithErrorIf);
        }
        var x := ExprArg(rest);
        if x.Err? {
          return Err(x.error);
        }
        args := args.(errorIf := Some(x.value));
        i := i + 3;
      } else if t == Ident("objective") {
        if args.objective.Some? {
          return Err(SingleArgument("objective"));
        }
        var x := ExprArg(rest);
        if x.Err? {
          return Err(x.error);
        }
        args := args.(objective := Some(x.value));
        i := i + 3;
      } else if t == Comma {
        i := i + 1;
      } else {
        return Err(Unexpected);
      }
      assert rest[i - start..] == ts[i..];
    }
    return Ok(args);
  }

  // ---------------------------------------------------------------------
  // What a list of arguments means

  /** One argument as written in the attribute. */
  datatype Argument =
    | TrackConcurrency
    | OkIf(okValue: Token)
    | ErrorIf(errorValue: Token)
    | Objective(objectiveValue: Token)
    | Separator

  function ArgumentTokens(a: Argument): seq<Token> {
    match a
    case TrackConcurrency => [Ident("track_concurrency")]
    case OkIf(x) => [Ident("ok_if"), Eq, x]
    case ErrorIf(x) => [Ident("error_if"), Eq, x]
    case Objective(x) => [Ident("objective"), Eq, x]
    case Separator => [Comma]
  }

  /** The tokens of a list of arguments. */
  function Render(list: seq<Argument>): seq<Token> {
    if list == [] then [] else ArgumentTokens(list[0]) + Render(list[1..])
  }

  /** Every value in the list is an expression. */
  predicate WellFormed(list: seq<Argument>) {
    forall i :: 0 <= i < |list| ==>
      (list[i].OkIf? ==> IsExpression(list[i].okValue)) &&
      (list[i].ErrorIf? ==> IsExpression(list[i].errorValue)) &&
      (list[i].Objective? ==> IsExpression(list[i].objectiveValue))
  }

  datatype Kind = TrackConcurrencyKind | OkIfKind | ErrorIfKind | ObjectiveKind | SeparatorKind

  function KindOf(a: Argument): Kind {
    match a
    case TrackConcurrency => TrackConcurrencyKind
    case OkIf(_) => OkIfKind
    case ErrorIf(_) => ErrorIfKind
    case Objective(_) => ObjectiveKind
    case Separator => SeparatorKind
  }

  function Count(list: seq<Argument>, k: Kind): nat {
    if list == [] then 0 else (if KindOf(list[0]) == k then 1 else 0) + Count(list[1..], k)
  }

  /** The value of the first argument of kind `k` (one of the kinds that
      carry a value). */
  function Find(list: seq<Argument>, k: Kind): Option<Token> {
    if list == [] then None
    else if KindOf(list[0]) == k then
      match list[0]
      case OkIf(x) => Some(x)
      case ErrorIf(x) => Some(x)
      case Objective(x) => Some(x)
      case _ => None
    else Find(list[1..], k)
  }

  function Present(o: Option<Token>): nat {
    if o.Some? then 1 else 0
  }

  function Earlier(first: Option<Token>, later: Option<Token>): Option<Token> {
    if first.Some? then first else later
  }

  /** The parser accepts the rest of the list after `acc`: at most one of
      `ok_if` and `error_if` in all, and at most one `objective`. */
  predicate Accepts(list: seq<Argument>, acc: AutometricsArgs) {
    Count(list, OkIfKind) + Count(list, ErrorIfKind) + Present(acc.okIf) + Present(acc.errorIf) <= 1 &&
    Count(list, ObjectiveKind) + Present(acc.objective) <= 1
  }

  /** The record the list describes on top of `acc`. */
  function Meaning(list: seq<Argument>, acc: AutometricsArgs): AutometricsArgs {
    AutometricsArgs(
      acc.trackConcurrency || Count(list, TrackConcurrencyKind) > 0,
      Earlier(acc.okIf, Find(list, OkIfKind)),
      Earlier(acc.errorIf, Find(list, ErrorIfKind)),
      Earlier(acc.objective, Find(list, ObjectiveKind)))
  }

  /** The effect of one argument on the record, or None when the parser
      refuses it. */
  function Update(a: Argument, acc: AutometricsArgs): Option<AutometricsArgs> {
    match a
    case TrackConcurrency => Some(acc.(trackConcurrency := true))
    case OkIf(x) => if acc.okIf.Some? || acc.errorIf.Some? then None else Some(acc.(okIf := Some(x)))
    case ErrorIf(x) => if acc.okIf.Some? || acc.errorIf.Some? then None else Some(acc.(errorIf := Some(x)))
    case Objective(x) => if acc.objective.Some? then None else Some(acc.(objective := Some(x)))
    case Separator => Some(acc)
  }

  /** The loop body consumes exactly the tokens of one well-formed
      argument. */
  lemma StepRendered(a: Argument, tail: seq<Token>, acc: AutometricsArgs)
    requires (a.OkIf? ==> IsExpression(a.okValue)) && (a.ErrorIf? ==> IsExpression(a.errorValue)) &&
             (a.Objective? ==> IsExpression(a.objectiveValue))
    ensures Step(ArgumentTokens(a) + tail, acc).Ok? <==> Update(a, acc).Some?
    ensures Step(ArgumentTokens(a) + tail, acc).Ok? ==>
      Step(ArgumentTokens(a) + tail, acc).value == (Update(a, acc).value, |ArgumentTokens(a)|)
  {
  }

  /** One argument moves its contribution from the list to the record. */
  lemma UpdateMeaning(list: seq<Argument>, acc: AutometricsArgs)
    requires list != []
    requires Present(acc.okIf) + Present(acc.errorIf) <= 1
    ensures Update(list[0], acc).None? ==> !Accepts(list, acc)
    ensures Update(list[0], acc).Some? ==>
      var next := Update(list[0], acc).value;
      Present(next.okIf) + Present(next.errorIf) <= 1 &&
      (Accepts(list, acc) <==> Accepts(list[1..], next)) &&
      Meaning(list, acc) == Meaning(list[1..], next)
  {
  }

  lemma {:induction false} ArgsFromRendered(list: seq<Argument>, acc: AutometricsArgs)
    requires WellFormed(list)
    requires Present(acc.okIf) + Present(acc.errorIf) <= 1
    ensures ArgsFrom(Render(list), acc).Ok? <==> Accepts(list, acc)
    ensures ArgsFrom(Render(list), acc).Ok? ==> ArgsFrom(Render(list), acc).value == Meaning(list, acc)
    decreases |list|
  {
    if list != [] {
      var a := list[0];
      var rest := list[1..];
      var ts := Render(list);
      assert ts == ArgumentTokens(a) + Render(rest);
      assert ts[|ArgumentTokens(a)|..] == Render(rest);
      assert WellFormed(rest) by {
        forall i | 0 <= i < |rest| ensures rest[i] == list[i + 1] { }
      }
      assert list[0] == a;
      StepRendered(a, Render(rest), acc);
      UpdateMeaning(list, acc);
      if Update(a, acc).Some? {
        ArgsFromRendered(rest, Update(a, acc).value);
      }
    }
  }

  /** Parsing a well-formed list of arguments succeeds exactly when it has
      at most one of `ok_if` and `error_if` (so neither is repeated and they
      never appear together, in either order) and at most one `objective`;
      then `track_concurrency` is set when it appears at least once, the
      other fields hold the values given, and separators anywhere change
      nothing. */
  lemma ParseRendered(list: seq<Argument>)
    requires WellFormed(list)
    ensures AutometricsArgsOf(Render(list)).Ok? <==>
      Count(list, OkIfKind) + Count(list, ErrorIfKind) <= 1 && Count(list, ObjectiveKind) <= 1
    ensures AutometricsArgsOf(Render(list)).Ok? ==>
      AutometricsArgsOf(Render(list)).value ==
        AutometricsArgs(Count(list, TrackConcurrencyKind) > 0, Find(list, OkIfKind), Find(list, ErrorIfKind), Find(list, ObjectiveKind))
  {
    ArgsFromRendered(list, Default);
  }

  /** The error reported for a repeated or conflicting argument. */
  lemma RepeatErrors(args: AutometricsArgs, rest: seq<Token>)
    ensures args.okIf.Some? ==> ArgsFrom([Ident("ok_if")] + rest, args) == Err(SingleArgument("ok_if"))
    ensures args.okIf.None? && args.errorIf.Some? ==> ArgsFrom([Ident("ok_if")] + rest, args) == Err(OkIfWithErrorIf)
    ensures args.errorIf.Some? ==> ArgsFrom([Ident("error_if")] + rest, args) == Err(SingleArgument("error_if"))
    ensures args.errorIf.None? && args.okIf.Some? ==> ArgsFrom([Ident("error_if")] + rest, args) == Err(OkIfWithErrorIf)
    ensures args.objective.Some? ==> ArgsFrom([Ident("objective")] + rest, args) == Err(SingleArgument("objective"))
  {
  }

  /** A token that starts no argument and is not a comma is an error. */
  lemma UnknownTokenRejected(t: Token, rest: seq<Token>, args: AutometricsArgs)
    requires t !in {Ident("track_concurrency"), Ident("ok_if"), Ident("error_if"), Ident("objective"), Comma}
    ensures ArgsFrom([t] + rest, args) == Err(Unexpected)
  {
  }

  // ---------------------------------------------------------------------
  // Objective declarations: `"name", success_rate = N%, latency(P% < T u)`

  datatype TimeUnit = Seconds | Milliseconds

  /** `IntOrFloat::parse`: a numeric literal and the unit its suffix
      names. */
  function IntOrFloat(ts: seq<Token>): Result<(real, Option<TimeUnit>), ParseError> {
    if ts == [] || !ts[0].Number? then Err(Unexpected)
    else if ts[0].suffix == "" then Ok((ts[0].value, None))
    else if ts[0].suffix == "ms" then Ok((ts[0].value, Some(Milliseconds)))
    else if ts[0].suffix == "s" then Ok((ts[0].value, Some(Seconds)))
    else Err(Unexpected)
  }

  /** A suffix is accepted exactly when it is empty, "ms" or "s", and it
      gives no unit, milliseconds or seconds. */
  lemma IntOrFloatSuffix(v: real, suffix: string, rest: seq<Token>)
    ensures IntOrFloat([Number(v, suffix)] + rest).Ok? <==> suffix in {"", "ms", "s"}
    ensures suffix == "" ==> IntOrFloat([Number(v, suffix)] + rest) == Ok((v, None))
    ensures suffix == "ms" ==> IntOrFloat([Number(v, suffix)] + rest) == Ok((v, Some(Milliseconds)))
    ensures suffix == "s" ==> IntOrFloat([Number(v, suffix)] + rest) == Ok((v, Some(Seconds)))
  {
  }

  datatype Latency = Latency(targetSeconds: real, percentile: real)

  /** `Latency::parse` on the contents of the parentheses: a percentage,
      `%`, one of `<=`, `<` and `=`, and a time with its unit. Tokens left
      over inside the parentheses are an error. */
  function LatencyOf(content: seq<Token>): Result<Latency, ParseError> {
    match IntOrFloat(content)
    case Err(e) => Err(e)
    case Ok((percent, _)) =>
      if |content| < 2 || content[1] != Percent then Err(Unexpected)
      else if |content| < 3 || content[2] !in {Le, Lt, Eq} then Err(Unexpected)
      else match IntOrFloat(content[3..])
        case Err(e) => Err(e)
        case Ok((target, unit)) =>
          if unit.None? then Err(MissingTimeUnit)
          else if |content| > 4 then Err(Unexpected)
          else Ok(Latency(if unit == Some(Seconds) then target else target / 1000.0, percent / 100.0))
  }

  datatype ObjectiveArgs = ObjectiveArgs(name: string, successRate: Option<real>, latency: Option<Latency>)

  /** One pass of the `CreateObjectiveArgs` loop body. */
  function ObjectiveStep(ts: seq<Token>, args: ObjectiveArgs): (r: Result<(ObjectiveArgs, nat), ParseError>)
    requires ts != []
    ensures r.Ok? ==> 0 < r.value.1 <= |ts|
  {
    if ts[0] == Ident("success_rate") then
      if |ts| < 2 || ts[1] != Eq then Err(Unexpected)
      else match IntOrFloat(ts[2..])
        case Err(e) => Err(e)
        case Ok((v, _)) =>
          if |ts| < 4 || ts[3] != Percent then Err(Unexpected)
          else Ok((args.(successRate := Some(v / 100.0)), 4))
    else if ts[0] == Ident("latency") then
      if |ts| < 2 || !ts[1].Group? then Err(Unexpected)
      else match LatencyOf(ts[1].content)
        case Err(e) => Err(e)
        case Ok(l) => Ok((args.(latency := Some(l)), 2))
    else if ts[0] == Comma then
      Ok((args, 1))
    else
      Err(Unexpected)
  }

  function ObjectiveArgsFrom(ts: seq<Token>, args: ObjectiveArgs): Result<ObjectiveArgs, ParseError>
    decreases |ts|
  {
    if ts == [] then Ok(args)
    else match ObjectiveStep(ts, args)
      case Err(e) => Err(e)
      case Ok((next, n)) => ObjectiveArgsFrom(ts[n..], next)
  }

  /** What `CreateObjectiveArgs::parse` returns: a string literal naming
      the objective, then the arguments. */
  function ObjectiveArgsOf(ts: seq<Token>): Result<ObjectiveArgs, ParseError> {
    if ts == [] || !ts[0].StrLit? then Err(Unexpected)
    else ObjectiveArgsFrom(ts[1..], ObjectiveArgs(ts[0].text, None, None))
  }

  /** `CreateObjectiveArgs::parse`. */
  method ParseCreateObjectiveArgs(ts: seq<Token>) returns (r: Result<ObjectiveArgs, ParseError>)
    ensures r == ObjectiveArgsOf(ts)
  {
    if ts == [] || !ts[0].StrLit? {
      return Err(Unexpected);
    }
    var args := ObjectiveArgs(ts[0].text, None, None);
    var i := 1;
    while i < |ts|
      invariant 1 <= i <= |ts|
      invariant ObjectiveArgsFrom(ts[i..], args) == ObjectiveArgsOf(ts)
      decreases |ts| - i
    {
      ghost var start := i;
      var rest := ts[i..];
      if ts[i] == Ident("success_rate") {
        if i + 1 >= |ts| || ts[i + 1] != Eq {
          return Err(Unexpected);
        }
        var v := IntOrFloat(ts[i + 2..]);
        if v.Err? {
          return Err(v.error);
        }
        if i + 3 >= |ts| || ts[i + 3] != Percent {
          return Err(Unexpected);
        }
        args := args.(successRate := Some(v.value.0 / 100.0));
        i := i + 4;
      } else if ts[i] == Ident("latency") {
        if i + 1 >= |ts| || !ts[i + 1].Group? {
          return Err(Unexpected);
        }
        var l := LatencyOf(ts[i + 1].content);
        if l.Err? {
          return Err(l.error);
        }
        args := args.(latency := Some(l.value));
        i := i + 2;
      } else if ts[i] == Comma {
        i := i + 1;
      } else {
        return Err(Unexpected);
      }
      assert rest[i - start..] == ts[i..];
    }
    return Ok(args);
  }

  /** One objective argument as written. */
  datatype ObjectiveArgument =
    | SuccessRateArg(rate: real, rateSuffix: string)
    | LatencyArg(percent: real, comparison: Token, target: real, unit: string)
    | ObjectiveSeparator

  function ObjectiveArgumentTokens(a: ObjectiveArgument): seq<Token> {
    match a
    case SuccessRateArg(v, s) => [Ident("success_rate"), Eq, Number(v, s), Percent]
    case LatencyArg(p, op, t, u) => [Ident("latency"), Group([Number(p, ""), Percent, op, Number(t, u)])]
    case ObjectiveSeparator => [Comma]
  }

  function RenderObjective(list: seq<ObjectiveArgument>): seq<Token> {
    if list == [] then [] else ObjectiveArgumentTokens(list[0]) + RenderObjective(list[1..])
  }

  /** The suffixes a literal may carry and the comparisons a latency may
      use. */
  predicate ObjectiveWellFormed(list: seq<ObjectiveArgument>) {
    forall i :: 0 <= i < |list| ==>
      (list[i].SuccessRateArg? ==> list[i].rateSuffix in {"", "ms", "s"}) &&
      (list[i].LatencyArg? ==> list[i].comparison in {Le, Lt, Eq})
  }

  /** Every latency carries a unit of time. */
  predicate LatencyUnitsGiven(list: seq<ObjectiveArgument>) {
    forall i :: 0 <= i < |list| ==> list[i].LatencyArg? ==> list[i].unit in {"s", "ms"}
  }

  /** A latency target in seconds: kept for "s", divided by 1000 for
      "ms". */
  function TargetSeconds(target: real, unit: string): real {
    if unit == "s" then target else target / 1000.0
  }

  function Later<T>(first: Option<T>, later: Option<T>): Option<T> {
    if later.Some? then later else first
  }

  /** The last success rate in the list, as a fraction. */
  function LastSuccessRate(list: seq<ObjectiveArgument>): Option<real> {
    if list == [] then None
    else Later(if list[0].SuccessRateArg? then Some(list[0].rate / 100.0) else None, LastSuccessRate(list[1..]))
  }

  /** The last latency in the list, converted. */
  function LastLatency(list: seq<ObjectiveArgument>): Option<Latency> {
    if list == [] then None
    else
      Later(if list[0].LatencyArg? then Some(Latency(TargetSeconds(list[0].target, list[0].unit), list[0].percent / 100.0)) else None,
            LastLatency(list[1..]))
  }

  /** The effect of one objective argument on the record, or None when
      the parser refuses it. */
  function ObjectiveUpdate(a: ObjectiveArgument, acc: ObjectiveArgs): Option<ObjectiveArgs> {
    match a
    case SuccessRateArg(v, _) => Some(acc.(successRate := Some(v / 100.0)))
    case LatencyArg(p, _, t, u) =>
      if u in {"s", "ms"} then Some(acc.(latency := Some(Latency(TargetSeconds(t, u), p / 100.0)))) else None
    case ObjectiveSeparator => Some(acc)
  }

  lemma ObjectiveStepRendered(a: ObjectiveArgument, tail: seq<Token>, acc: ObjectiveArgs)
    requires a.SuccessRateArg? ==> a.rateSuffix in {"", "ms", "s"}
    requires a.LatencyArg? ==> a.comparison in {Le, Lt, Eq}
    ensures ObjectiveStep(ObjectiveArgumentTokens(a) + tail, acc).Ok? <==> ObjectiveUpdate(a, acc).Some?
    ensures ObjectiveStep(ObjectiveArgumentTokens(a) + tail, acc).Ok? ==>
      ObjectiveStep(ObjectiveArgumentTokens(a) + tail, acc).value == (ObjectiveUpdate(a, acc).value, |ObjectiveArgumentTokens(a)|)
  {
    var ts := ObjectiveArgumentTokens(a) + tail;
    if a.SuccessRateArg? {
      assert ts[2..] == [Number(a.rate, a.rateSuffix), Percent] + tail;
    } else if a.LatencyArg? {
      var content := [Number(a.percent, ""), Percent, a.comparison, Number(a.target, a.unit)];
      assert content[3..] == [Number(a.target, a.unit)];
    }
  }

  lemma {:induction false} ObjectiveArgsFromRendered(list: seq<ObjectiveArgument>, acc: ObjectiveArgs)
    requires ObjectiveWellFormed(list)
    ensures ObjectiveArgsFrom(RenderObjective(list), acc).Ok? <==> LatencyUnitsGiven(list)
    ensures ObjectiveArgsFrom(RenderObjective(list), acc).Ok? ==>
      ObjectiveArgsFrom(RenderObjective(list), acc).value ==
        ObjectiveArgs(acc.name, Later(acc.successRate, LastSuccessRate(list)), Later(acc.latency, LastLatency(list)))
    decreases |list|
  {
    if list != [] {
      var a := list[0];
      var rest := list[1..];
      var ts := RenderObjective(list);
      assert ts == ObjectiveArgumentTokens(a) + RenderObjective(rest);
      assert ts[|ObjectiveArgumentTokens(a)|..] == RenderObjective(rest);
      assert ObjectiveWellFormed(rest) by {
        forall i | 0 <= i < |rest| ensures rest[i] == list[i + 1] { }
      }
      assert LatencyUnitsGiven(list) <==> (a.LatencyArg? ==> a.unit in {"s", "ms"}) && LatencyUnitsGiven(rest) by {
        assert forall i :: 0 < i < |list| ==> list[i] == rest[i - 1];
      }
      assert list[0] == a;
      ObjectiveStepRendered(a, RenderObjective(rest), acc);
      if ObjectiveUpdate(a, acc).Some? {
        ObjectiveArgsFromRendered(rest, ObjectiveUpdate(a, acc).value);
      }
    }
  }

  /** An objective declaration with well-formed arguments parses exactly
      when every latency names its unit of time; a later `success_rate` or
      `latency` overwrites an earlier one without error; the success rate
      is the percentage divided by 100, and the latency target is in
      seconds (milliseconds divided by 1000) with its percentile divided by
      100. */
  lemma ParseObjectiveRendered(name: string, list: seq<ObjectiveArgument>)
    requires ObjectiveWellFormed(list)
    ensures ObjectiveArgsOf([StrLit(name)] + RenderObjective(list)).Ok? <==> LatencyUnitsGiven(list)
    ensures ObjectiveArgsOf([StrLit(name)] + RenderObjective(list)).Ok? ==>
      ObjectiveArgsOf([StrLit(name)] + RenderObjective(list)).value ==
        ObjectiveArgs(name, LastSuccessRate(list), LastLatency(list))
  {
    assert ([StrLit(name)] + RenderObjective(list))[1..] == RenderObjective(list);
    ObjectiveArgsFromRendered(list, ObjectiveArgs(name, None, None));
  }

  /** A latency without a unit of time is refused with its own error, one
      with another suffix with the generic one. */
  lemma LatencyUnitErrors(p: real, op: Token, t: real, unit: string)
    requires op in {Le, Lt, Eq}
    ensures unit == "" ==> LatencyOf([Number(p, ""), Percent, op, Number(t, unit)]) == Err(MissingTimeUnit)
    ensures unit !in {"", "ms", "s"} ==> LatencyOf([Number(p, ""), Percent, op, Number(t, unit)]) == Err(Unexpected)
  {
    assert [Number(p, ""), Percent, op, Number(t, unit)][3..] == [Number(t, unit)];
  }
}
