/** The token streams that the attribute-argument parsers read
    (autometrics-macros/src/parse.rs and macros/src/parse.rs). The Rust
    parser library is not modelled: a stream is a list of abstract tokens,
    a parenthesised group is one token holding its contents, and every
    expression the parsers accept as a value is a single token. */
module Tokens {
  datatype Token =
    | Ident(name: string)             // an identifier, custom keywords included
    | Comma                           // `,`
    | Eq                              // `=`
    | Percent                         // `%`
    | Lt                              // `<`
    | Le                              // `<=`
    | StrLit(text: string)            // a string literal, unescaped
    | Number(value: real, suffix: string)  // an integer or float literal and its suffix
    | Group(content: seq<Token>)      // a parenthesised group
    | Expr(source: string)            // any other complete expression

  /** Tokens that parse as an expression on their own: paths, literals,
      parenthesised groups and other expressions. */
  predicate IsExpression(t: Token) {
    t.Ident? || t.StrLit? || t.Number? || t.Group? || t.Expr?
  }

  /** The ways argument parsing fails. `Unexpected` stands for every error
      the parser library reports for a token that is missing or not the one
      expected. */
  datatype ParseError =
    | Unexpected
    | SingleArgument(keyword: string)  // "expected only a single `keyword` argument"
    | OkIfWithErrorIf                  // "cannot use both `ok_if` and `error_if`"
    | MissingTimeUnit                  // "expected unit of time (s or ms)"
}
