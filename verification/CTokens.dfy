// Tokens of the C lexer in tools/c23_metrics.py: kind, text, line, whether
// blank space precedes the token and whether it is the first of a logical
// line. `start` is the token's offset in the source text; the program does
// not store it, the statements about lines and texts need it.
module CTokens {
  datatype Kind = Id | Num | Str | Punct

  datatype Tok = Tok(kind: Kind, text: string, line: nat, spaceBefore: bool, bol: bool, start: nat)
}
