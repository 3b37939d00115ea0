/** The argument parser of the older attribute generation
    (macros/src/parse.rs): an optional `name = "..."` argument, with commas
    between arguments. The source span the parser records is not
    modelled. */
module NameArgsParse {
  import opened Wrappers
  import opened Tokens

  datatype Args = Args(name: Option<string>)

  /** `StrArg::parse` for the `name` keyword (already peeked): `=` and a
      string literal. */
  function StrArg(ts: seq<Token>): Result<string, ParseError>
    requires ts != []
  {
    if |ts| >= 3 && ts[1] == Eq && ts[2].StrLit? then Ok(ts[2].text) else Err(Unexpected)
  }

  /** One pass of the loop body: the new record and the number of tokens
      consumed. */
  function NameStep(ts: seq<Token>, args: Args): (r: Result<(Args, nat), ParseError>)
    requires ts != []
    ensures r.Ok? ==> 0 < r.value.1 <= |ts|
  {
    if ts[0] == Ident("name") then
      if args.name.Some? then Err(SingleArgument("name"))
      else match StrArg(ts)
        case Err(e) => Err(e)
        case Ok(s) => Ok((args.(name := Some(s)), 3))
    else if ts[0] == Comma then Ok((args, 1))
    else Err(Unexpected)
  }

  function NameArgsFrom(ts: seq<Token>, args: Args): Result<Args, ParseError>
    decreases |ts|
  {
    if ts == [] then Ok(args)
    else match NameStep(ts, args)
      case Err(e) => Err(e)
      case Ok((next, n)) => NameArgsFrom(ts[n..], next)
  }

  /** What `Args::parse` returns for a token stream. */
  function ArgsOf(ts: seq<Token>): Result<Args, ParseError> {
    NameArgsFrom(ts, Args(None))
  }

  /** `Args::parse`. */
  method ParseArgs(ts: seq<Token>) returns (r: Result<Args, ParseError>)
    ensures r == ArgsOf(ts)
  {
    var args := Args(None);
    var i := 0;
    while i < |ts|
      invariant 0 <= i <= |ts|
      invariant NameArgsFrom(ts[i..], args) == ArgsOf(ts)
      decreases |ts| - i
    {
      ghost var start := i;
      var rest := ts[i..];
      if ts[i] == Ident("name") {
        if args.name.Some? {
          return Err(SingleArgument("name"));
        }
        var s := StrArg(rest);
        if s.Err? {
          return Err(s.error);
        }
        args := args.(name := Some(s.value));
        i := i + 3;
      } else if ts[i] == Comma {
        i := i + 1;
      } else {
        return Err(Unexpected);
      }
      assert rest[i - start..] == ts[i..];
    }
    return Ok(args);
  }

  /** One argument as written: `name = "..."` or a separating comma. */
  datatype NameArgument = Name(value: string) | Separator

  function NameArgumentTokens(a: NameArgument): seq<Token> {
    match a
    case Name(s) => [Ident("name"), Eq, StrLit(s)]
    case Separator => [Comma]
  }

  function Render(list: seq<NameArgument>): seq<Token> {
    if list == [] then [] else NameArgumentTokens(list[0]) + Render(list[1..])
  }

  function NameCount(list: seq<NameArgument>): nat {
    if list == [] then 0 else (if list[0].Name? then 1 else 0) + NameCount(list[1..])
  }

  /** The first name in the list. */
  function FirstName(list: seq<NameArgument>): Option<string> {
    if list == [] then None else if list[0].Name? then Some(list[0].value) else FirstName(list[1..])
  }

  lemma {:induction false} NameArgsFromRendered(list: seq<NameArgument>, acc: Args)
    ensures NameArgsFrom(Render(list), acc).Ok? <==> NameCount(list) + (if acc.name.Some? then 1 else 0) <= 1
    ensures NameArgsFrom(Render(list), acc).Ok? ==>
      NameArgsFrom(Render(list), acc).value == Args(if acc.name.Some? then acc.name else FirstName(list))
    decreases |list|
  {
    if list != [] {
      var a := list[0];
      var ts := Render(list);
      assert ts == NameArgumentTokens(a) + Render(list[1..]);
      assert ts[|NameArgumentTokens(a)|..] == Render(list[1..]);
      match a
      case Name(s) =>
        if acc.name.None? {
          assert ts[2] == StrLit(s);
          NameArgsFromRendered(list[1..], Args(Some(s)));
        }
      case Separator =>
        NameArgsFromRendered(list[1..], acc);
    }
  }

  /** Parsing a list of arguments succeeds exactly when `name` appears at
      most once, and then the name is the one given (none for an empty
      list); commas anywhere change nothing. */
  lemma ParseRendered(list: seq<NameArgument>)
    ensures ArgsOf(Render(list)).Ok? <==> NameCount(list) <= 1
    ensures ArgsOf(Render(list)).Ok? ==> ArgsOf(Render(list)).value == Args(FirstName(list))
  {
    NameArgsFromRendered(list, Args(None));
  }

  /** A second `name` is refused with its own error, before its value is
      read, whatever well-formed arguments with one name precede it and
      whatever follows; any token other than `name` and a comma is an
      error. */
  lemma NameErrors(list: seq<NameArgument>, args: Args, t: Token, rest: seq<Token>)
    ensures NameCount(list) == 1 ==> ArgsOf(Render(list) + ([Ident("name")] + rest)) == Err(SingleArgument("name"))
    ensures t != Ident("name") && t != Comma ==> NameArgsFrom([t] + rest, args) == Err(Unexpected)
  {
    if NameCount(list) == 1 {
      SecondNameRefused(list, Args(None), [Ident("name")] + rest);
    }
  }

  /** From a record and a rendered list holding one name between them, a
      further `name` is refused. */
  lemma {:induction false} SecondNameRefused(list: seq<NameArgument>, acc: Args, tail: seq<Token>)
    requires NameCount(list) + (if acc.name.Some? then 1 else 0) == 1
    requires tail != [] && tail[0] == Ident("name")
    ensures NameArgsFrom(Render(list) + tail, acc) == Err(SingleArgument("name"))
    decreases |list|
  {
    var ts := Render(list) + tail;
    if list == [] {
      assert ts == tail;
    } else {
      var a := list[0];
      assert ts == NameArgumentTokens(a) + (Render(list[1..]) + tail);
      assert ts[|NameArgumentTokens(a)|..] == Render(list[1..]) + tail;
      match a
      case Name(s) =>
        assert ts[2] == StrLit(s);
        SecondNameRefused(list[1..], Args(Some(s)), tail);
      case Separator =>
        SecondNameRefused(list[1..], acc, tail);
    }
  }
}
