// The C lexer of tools/c23_metrics.py (lex, _literal): an index loop over the source
// that skips splices, blank space and comments and collects tokens. Lexical elements
// are those of section 6.4 of ISO/IEC 9899:2024, as far as the program reads them.
module C23Lexer {
  import opened Arithmetic
  import opened CTokens

  // ---- characters ------------------------------------------------------------

  /** str.isalpha, str.isdigit and str.isalnum. */
  datatype Classes = Classes(alpha: char -> bool, digit: char -> bool, alnum: char -> bool) {
    /** What the statements need of the Unicode classes. */
    ghost predicate Ok() {
      && (forall c :: alpha(c) ==> alnum(c) && !digit(c))
      && (forall c :: digit(c) ==> alnum(c))
      && (forall c :: Special(c) ==> !alnum(c))
      && (forall c :: Exponent(c) ==> alpha(c))
      && alpha('u') && alpha('U') && alpha('L') && alnum('8')
    }

    predicate Word(c: char) { alnum(c) || c == '_' }

    predicate NumChar(c: char) { alnum(c) || c == '.' || c == '_' || c == '\'' }
  }

  predicate Blank(c: char) { c == ' ' || c == '\t' || c == '\r' || c == '\U{0C}' || c == '\U{0B}' }

  predicate White(c: char) { Blank(c) || c == '\n' }

  predicate Quote(c: char) { c == '\'' || c == '\"' }

  predicate Exponent(c: char) { c == 'e' || c == 'E' || c == 'p' || c == 'P' }

  predicate Sign(c: char) { c == '+' || c == '-' }

  predicate Special(c: char) {
    White(c) || Quote(c) || Sign(c) || c in "\\_./*:<>=!&|%^#"
  }

  const PUNCT3: seq<string> := ["...", "<<=", ">>="]
  const PUNCT2: seq<string> := ["::", "->", "++", "--", "<<", ">>", "<=", ">=", "==", "!=", "&&", "||",
                                "*=", "/=", "%=", "+=", "-=", "&=", "^=", "|=", "##"]
  const PREFIXES: seq<string> := ["u8", "u", "U", "L"]

  predicate At(src: string, i: nat, t: string) {
    i + |t| <= |src| && src[i..i + |t|] == t
  }

  function Newlines(src: string, i: nat, j: nat): nat
    requires i <= |src|
    decreases if j <= |src| then j - i else |src| - i
  {
    if i >= j || i >= |src| then 0 else (if src[i] == '\n' then 1 else 0) + Newlines(src, i + 1, j)
  }

  // ---- where each element ends ------------------------------------------------

  function WordEnd(cl: Classes, src: string, i: nat): (r: nat)
    requires i <= |src|
    ensures i <= r <= |src|
    decreases |src| - i
  {
    if i < |src| && cl.Word(src[i]) then WordEnd(cl, src, i + 1) else i
  }

  function NumEnd(cl: Classes, src: string, i: nat): (r: nat)
    requires i <= |src|
    ensures i <= r <= |src|
    decreases |src| - i
  {
    if i >= |src| then i
    else if Exponent(src[i]) && i + 1 < |src| && Sign(src[i + 1]) then NumEnd(cl, src, i + 2)
    else if cl.NumChar(src[i]) then NumEnd(cl, src, i + 1)
    else i
  }

  /** End of a literal from inside it; past the source when it is not closed. */
  function LiteralEnd(src: string, i: nat, quote: char): (r: nat)
    ensures i <= r && (i <= |src| + 1 ==> r <= |src| + 2)
    decreases |src| + 2 - i
  {
    if i >= |src| || src[i] == quote then i + 1
    else if src[i] == '\\' then LiteralEnd(src, i + 2, quote)
    else if src[i] == '\n' then i
    else LiteralEnd(src, i + 1, quote)
  }

  /** The newline that ends a line comment: one without a backslash before it. */
  function LineCommentEnd(src: string, i: nat): (r: nat)
    requires i <= |src|
    ensures i <= r <= |src|
    decreases |src| - i
  {
    if i < |src| && !(src[i] == '\n' && !(i > 0 && src[i - 1] == '\\')) then LineCommentEnd(src, i + 1) else i
  }

  /** Past the closing of a block comment, or the end of the source. */
  function BlockCommentEnd(src: string, i: nat): (r: nat)
    requires i <= |src|
    ensures i <= r <= |src|
    decreases |src| - i
  {
    if i + 2 > |src| then |src|
    else if src[i] == '*' && src[i + 1] == '/' then i + 2
    else BlockCommentEnd(src, i + 1)
  }

  /** Length of the first listed punctuator at i, or 1. */
  function PunctLength(ps: seq<string>, src: string, i: nat): (r: nat)
    requires i < |src|
    ensures i + r <= |src|
  {
    if ps == [] then 1
    else if At(src, i, ps[0]) then |ps[0]|
    else PunctLength(ps[1..], src, i)
  }

  lemma {:induction false} PunctLengthPositive(ps: seq<string>, src: string, i: nat)
    requires i < |src| && forall k :: 0 <= k < |ps| ==> ps[k] != ""
    ensures PunctLength(ps, src, i) > 0
  {
    if ps == [] {
    } else {
      PunctLengthPositive(ps[1..], src, i);
    }
  }

  // ---- the ends, position by position -------------------------------------------

  lemma {:induction false} WordEndIs(cl: Classes, src: string, i: nat)
    requires i <= |src|
    ensures var r := WordEnd(cl, src, i);
      (forall k :: i <= k < r ==> cl.Word(src[k])) && (r < |src| ==> !cl.Word(src[r]))
    decreases |src| - i
  {
    if i < |src| && cl.Word(src[i]) {
      WordEndIs(cl, src, i + 1);
    }
  }

  /** A character that goes on a pp-number: a sign does right after an exponent letter. */
  predicate NumPart(cl: Classes, src: string, k: nat)
    requires 0 < k < |src|
  {
    cl.NumChar(src[k]) || (Sign(src[k]) && Exponent(src[k - 1]))
  }

  /** The number that begins before i ends at the first character that does not go on it. */
  lemma {:induction false} NumEndIs(cl: Classes, src: string, i: nat)
    requires cl.Ok() && 0 < i <= |src|
    requires i < |src| ==> !(Sign(src[i]) && Exponent(src[i - 1]))
    ensures var r := NumEnd(cl, src, i);
      (forall k :: i <= k < r ==> NumPart(cl, src, k)) && (r < |src| ==> !NumPart(cl, src, r))
    decreases |src| - i
  {
    if i < |src| {
      if Exponent(src[i]) && i + 1 < |src| && Sign(src[i + 1]) {
        NumEndIs(cl, src, i + 2);
      } else if cl.NumChar(src[i]) {
        NumEndIs(cl, src, i + 1);
      }
    }
  }

  /** An odd number of backslashes stands right before k, counted from `from` on. */
  predicate Escaped(src: string, from: nat, k: nat) {
    from < k <= |src| && src[k - 1] == '\\' && !Escaped(src, from, k - 1)
  }

  /** No quote and no newline from `from` up to e, except escaped ones. */
  ghost predicate Inside(src: string, from: nat, e: nat, quote: char) {
    forall k :: from <= k < e && k < |src| && !Escaped(src, from, k) ==> src[k] != quote && src[k] != '\n'
  }

  /** Where a literal whose inside begins at `from` ends: past the first unescaped quote, or at
      an unescaped newline that comes before any, or past the source when there is neither. */
  ghost predicate LiteralStops(src: string, from: nat, r: nat, quote: char) {
    || (from < r <= |src| && src[r - 1] == quote && !Escaped(src, from, r - 1) && Inside(src, from, r - 1, quote))
    || (from <= r < |src| && src[r] == '\n' && !Escaped(src, from, r) && Inside(src, from, r, quote))
    || (r > |src| && Inside(src, from, |src|, quote))
  }

  lemma {:induction false} LiteralEndFrom(src: string, from: nat, i: nat, quote: char)
    requires Quote(quote) && from <= i && !Escaped(src, from, i) && Inside(src, from, i, quote)
    ensures LiteralStops(src, from, LiteralEnd(src, i, quote), quote)
    decreases |src| + 2 - i
  {
    if i >= |src| || src[i] == quote {
    } else if src[i] == '\\' {
      LiteralEndFrom(src, from, i + 2, quote);
    } else if src[i] == '\n' {
    } else {
      LiteralEndFrom(src, from, i + 1, quote);
    }
  }

  lemma LiteralEndIs(src: string, from: nat, quote: char)
    requires Quote(quote)
    ensures LiteralStops(src, from, LiteralEnd(src, from, quote), quote)
  {
    LiteralEndFrom(src, from, from, quote);
  }

  /** A newline that no backslash continues. */
  predicate EndsLine(src: string, k: nat)
    requires k < |src|
  {
    src[k] == '\n' && !(k > 0 && src[k - 1] == '\\')
  }

  lemma {:induction false} LineCommentEndIs(src: string, i: nat)
    requires i <= |src|
    ensures var r := LineCommentEnd(src, i);
      (forall k :: i <= k < r ==> !EndsLine(src, k)) && (r < |src| ==> EndsLine(src, r))
    decreases |src| - i
  {
    if i < |src| && !EndsLine(src, i) {
      LineCommentEndIs(src, i + 1);
    }
  }

  predicate ClosesAt(src: string, k: nat) { k + 1 < |src| && src[k] == '*' && src[k + 1] == '/' }

  lemma {:induction false} BlockCommentEndIs(src: string, i: nat)
    requires i <= |src|
    ensures var r := BlockCommentEnd(src, i);
      || (r >= i + 2 && ClosesAt(src, r - 2) && forall k :: i <= k < r - 2 ==> !ClosesAt(src, k))
      || (r == |src| && forall k :: i <= k < |src| ==> !ClosesAt(src, k))
    decreases |src| - i
  {
    if i + 2 <= |src| && !ClosesAt(src, i) {
      BlockCommentEndIs(src, i + 1);
    }
  }

  /** Longer ones first, none of less than two characters. */
  ghost predicate Listed(ps: seq<string>) {
    && (forall a, b :: 0 <= a < b < |ps| ==> |ps[a]| >= |ps[b]|)
    && (forall a :: 0 <= a < |ps| ==> |ps[a]| >= 2)
  }

  /** The length of a listed punctuator that stands at i and that no longer one does, else 1. */
  lemma {:induction false} PunctLengthIs(ps: seq<string>, src: string, i: nat)
    requires Listed(ps) && i < |src|
    ensures var r := PunctLength(ps, src, i);
      && (forall q :: q in ps && At(src, i, q) ==> |q| <= r)
      && (r == 1 || exists q :: q in ps && At(src, i, q) && |q| == r)
    decreases |ps|
  {
    if ps != [] && !At(src, i, ps[0]) {
      PunctLengthIs(ps[1..], src, i);
      assert forall q :: q in ps <==> q == ps[0] || q in ps[1..];
    }
  }

  lemma PunctuatorsListed()
    ensures Listed(PUNCT3 + PUNCT2)
  {
    var ps := PUNCT3 + PUNCT2;
    forall a | 0 <= a < |ps|
      ensures |ps[a]| == (if a < 3 then 3 else 2)
    {
      assert ps[a] == if a < 3 then PUNCT3[a] else PUNCT2[a - 3];
    }
  }

  /** The characters the lexer tells apart, by their codes. */
  lemma CharactersAre(cl: Classes, c: char)
    ensures Blank(c) <==> c as int in {9, 11, 12, 13, 32}
    ensures Quote(c) <==> c as int in {34, 39}
    ensures Exponent(c) <==> c as int in {69, 80, 101, 112}
    ensures Sign(c) <==> c as int in {43, 45}
    ensures cl.Word(c) <==> cl.alnum(c) || c as int == 95
    ensures cl.NumChar(c) <==> cl.alnum(c) || c as int in {39, 46, 95}
  {
  }

  /** The punctuators of two characters are a doubled sign, an operator before "=", and the arrow;
      those of three are the ellipsis and the assigning shifts. */
  lemma PunctuatorsAre(t: string)
    ensures t in PUNCT2 <==>
      && |t| == 2
      && ((t[1] == '=' && t[0] in "*/%+-&^|<>=!") || (t[0] == t[1] && t[0] in ":+-<>&|#") || t == "->")
    ensures t in PUNCT3 <==> t == "..." || (|t| == 3 && t[0] == t[1] && t[0] in "<>" && t[2] == '=')
  {
    if |t| == 2 {
      assert t == [t[0], t[1]];
    } else if |t| == 3 {
      assert t == [t[0], t[1], t[2]];
    }
  }

  // ---- one turn of the loop ----------------------------------------------------

  /** What the loop finds at a position: something to skip, or a token, and where it ends. */
  datatype Found =
    | Splice(end: nat)
    | Newline(end: nat)
    | Space(end: nat)
    | Comment(end: nat)
    | Token(kind: Kind, end: nat)

  function TokenAt(cl: Classes, src: string, i: nat): (r: Found)
    requires i < |src|
    ensures r.Token?
  {
    var c := src[i];
    if cl.alpha(c) || c == '_' then
      var e := WordEnd(cl, src, i);
      if e < |src| && Quote(src[e]) && src[i..e] in PREFIXES then Token(Str, LiteralEnd(src, e + 1, src[e]))
      else Token(Id, e)
    else if cl.digit(c) || (c == '.' && i + 1 < |src| && cl.digit(src[i + 1])) then Token(Num, NumEnd(cl, src, i + 1))
    else if Quote(c) then Token(Str, LiteralEnd(src, i + 1, c))
    else Token(Punct, i + PunctLength(PUNCT3 + PUNCT2, src, i))
  }

  function FoundAt(cl: Classes, src: string, i: nat): Found
    requires i < |src|
  {
    var c := src[i];
    if c == '\\' && At(src, i + 1, "\n") then Splice(i + 2)
    else if c == '\n' then Newline(i + 1)
    else if Blank(c) then Space(i + 1)
    else if At(src, i, "//") then Comment(LineCommentEnd(src, i))
    else if At(src, i, "/*") then Comment(BlockCommentEnd(src, i + 2))
    else TokenAt(cl, src, i)
  }

  lemma Progress(cl: Classes, src: string, i: nat)
    requires cl.Ok() && i < |src|
    ensures FoundAt(cl, src, i).end > i
  {
    assert forall k :: 0 <= k < |PUNCT3 + PUNCT2| ==> (PUNCT3 + PUNCT2)[k] != "";
    PunctLengthPositive(PUNCT3 + PUNCT2, src, i);
  }

  /** The tokens from position i on, with the line and the two flags before it. */
  function LexFrom(cl: Classes, src: string, i: nat, line: nat, space: bool, bol: bool): seq<Tok>
    requires cl.Ok()
    decreases |src| - i
  {
    if i >= |src| then []
    else
      Progress(cl, src, i);
      match FoundAt(cl, src, i)
      case Splice(e) => LexFrom(cl, src, e, line + 1, space, bol)
      case Newline(e) => LexFrom(cl, src, e, line + 1, true, true)
      case Space(e) => LexFrom(cl, src, e, line, true, bol)
      case Comment(e) => LexFrom(cl, src, e, line + Newlines(src, i, e), true, bol)
      case Token(kind, e) =>
        [Tok(kind, src[i..Min(e, |src|)], line, space, bol, i)]
        + LexFrom(cl, src, e, line + Newlines(src, i, e), false, false)
  }

  lemma LexTurn(cl: Classes, src: string, i: nat, line: nat, space: bool, bol: bool)
    requires cl.Ok() && i < |src|
    ensures LexFrom(cl, src, i, line, space, bol) ==
            match FoundAt(cl, src, i)
            case Splice(e) => LexFrom(cl, src, e, line + 1, space, bol)
            case Newline(e) => LexFrom(cl, src, e, line + 1, true, true)
            case Space(e) => LexFrom(cl, src, e, line, true, bol)
            case Comment(e) => LexFrom(cl, src, e, line + Newlines(src, i, e), true, bol)
            case Token(kind, e) =>
              [Tok(kind, src[i..Min(e, |src|)], line, space, bol, i)]
              + LexFrom(cl, src, e, line + Newlines(src, i, e), false, false)
  {
  }

  lemma LexEnd(cl: Classes, src: string, i: nat, line: nat, space: bool, bol: bool)
    requires cl.Ok() && i >= |src|
    ensures LexFrom(cl, src, i, line, space, bol) == []
  {
  }

  // ---- the program's loops --------------------------------------------------------

  /** _literal: the end of the literal that opens at src[at]. */
  method Literal(src: string, at: nat) returns (i: nat)
    requires at < |src|
    ensures i == LiteralEnd(src, at + 1, src[at])
  {
    var quote := src[at];
    i := at + 1;
    while i < |src| && src[i] != quote
      invariant LiteralEnd(src, i, quote) == LiteralEnd(src, at + 1, quote)
      decreases |src| - i
    {
      if src[i] == '\\' {
        i := i + 1;
      } else if src[i] == '\n' {
        return;
      }
      i := i + 1;
    }
    i := i + 1;
  }

  /** The token at a position where no splice, blank or comment is. */
  method ScanToken(cl: Classes, src: string, start: nat) returns (kind: Kind, i: nat)
    requires cl.Ok() && start < |src|
    ensures Token(kind, i) == TokenAt(cl, src, start)
  {
    var c := src[start];
    i := start;
    if cl.alpha(c) || c == '_' {
      while i < |src| && cl.Word(src[i])
        invariant start <= i <= |src| && WordEnd(cl, src, i) == WordEnd(cl, src, start)
      {
        i := i + 1;
      }
      if i < |src| && Quote(src[i]) && src[start..i] in PREFIXES {
        kind := Str;
        i := Literal(src, i);
      } else {
        kind := Id;
      }
    } else if cl.digit(c) || (c == '.' && i + 1 < |src| && cl.digit(src[i + 1])) {
      kind := Num;
      i := i + 1;
      while i < |src|
        invariant start < i <= |src| && NumEnd(cl, src, i) == NumEnd(cl, src, start + 1)
      {
        if Exponent(src[i]) && i + 1 < |src| && Sign(src[i + 1]) {
          i := i + 2;
        } else if cl.NumChar(src[i]) {
          i := i + 1;
        } else {
          break;
        }
      }
    } else if Quote(c) {
      kind := Str;
      i := Literal(src, start);
    } else {
      kind := Punct;
      i := Punctuator(src, start);
    }
  }

  /** The first listed punctuator, else one character. */
  method Punctuator(src: string, start: nat) returns (i: nat)
    requires start < |src|
    ensures i == start + PunctLength(PUNCT3 + PUNCT2, src, start)
  {
    var ps := PUNCT3 + PUNCT2;
    i := start + 1;
    for k := 0 to |ps|
      invariant i == start + 1 && PunctLength(ps[k..], src, start) == PunctLength(ps, src, start)
    {
      assert ps[k..][0] == ps[k] && ps[k..][1..] == ps[k + 1..];
      if At(src, start, ps[k]) {
        i := start + |ps[k]|;
        return;
      }
    }
  }

  /** End of a comment at start, or start when there is none. */
  method SkipComment(src: string, start: nat) returns (i: nat)
    requires start < |src|
    ensures i == if At(src, start, "//") then LineCommentEnd(src, start)
                 else if At(src, start, "/*") then BlockCommentEnd(src, start + 2)
                 else start
  {
    i := start;
    if At(src, start, "//") {
      while i < |src| && !(src[i] == '\n' && !(i > 0 && src[i - 1] == '\\'))
        invariant start <= i <= |src| && LineCommentEnd(src, i) == LineCommentEnd(src, start)
      {
        i := i + 1;
      }
    } else if At(src, start, "/*") {
      i := start + 2;
      while i + 2 <= |src| && !(src[i] == '*' && src[i + 1] == '/')
        invariant start + 2 <= i <= |src| && BlockCommentEnd(src, i) == BlockCommentEnd(src, start + 2)
      {
        i := i + 1;
      }
      i := if i + 2 <= |src| then i + 2 else |src|;
    }
  }

  method Lex(cl: Classes, src: string) returns (toks: seq<Tok>)
    requires cl.Ok()
    ensures toks == LexFrom(cl, src, 0, 1, false, true)
  {
    hide LineCommentEnd, BlockCommentEnd, TokenAt, Newlines, Classes.Ok, LexFrom;
    toks := [];
    var i: nat, line: nat := 0, 1;
    var space, bol := false, true;
    while i < |src|
      invariant toks + LexFrom(cl, src, i, line, space, bol) == LexFrom(cl, src, 0, 1, false, true)
      decreases |src| - i
    {
      Progress(cl, src, i);
      LexTurn(cl, src, i, line, space, bol);
      var c := src[i];
      if c == '\\' && At(src, i + 1, "\n") {
        i, line := i + 2, line + 1;
        continue;
      }
      if c == '\n' {
        i, line, space, bol := i + 1, line + 1, true, true;
        continue;
      }
      if Blank(c) {
        i, space := i + 1, true;
        continue;
      }
      var start := i;
      if At(src, i, "//") || At(src, i, "/*") {
        i := SkipComment(src, start);
        line, space := line + Newlines(src, start, i), true;
        continue;
      }
      var kind;
      kind, i := ScanToken(cl, src, start);
      var tok := Tok(kind, src[start..Min(i, |src|)], line, space, bol, start);
      ghost var rest := LexFrom(cl, src, i, line + Newlines(src, start, i), false, false);
      assert toks + ([tok] + rest) == (toks + [tok]) + rest;
      toks := toks + [tok];
      line := line + Newlines(src, start, i);
      space, bol := false, false;
    }
    LexEnd(cl, src, i, line, space, bol);
  }

  // ---- lines ------------------------------------------------------------------------

  lemma {:induction false} NewlinesSplit(src: string, i: nat, j: nat, k: nat)
    requires i <= j <= k && i <= |src|
    ensures j <= |src| ==> Newlines(src, i, k) == Newlines(src, i, j) + Newlines(src, j, k)
    decreases j - i
  {
    if i < j && i < |src| {
      NewlinesSplit(src, i + 1, j, k);
    }
  }

  /** The line after what is found at i, from the line before it. */
  lemma LineAfter(cl: Classes, src: string, i: nat)
    requires cl.Ok() && i < |src|
    ensures var f := FoundAt(cl, src, i);
      f.end <= |src| ==>
        Newlines(src, 0, f.end) ==
        Newlines(src, 0, i) + (if f.Splice? || f.Newline? then 1 else if f.Space? then 0 else Newlines(src, i, f.end))
  {
    hide TokenAt, LineCommentEnd, BlockCommentEnd, Classes.Ok;
    Progress(cl, src, i);
    var f := FoundAt(cl, src, i);
    NewlinesSplit(src, 0, i, f.end);
    if f.Splice? {
      assert src[i + 1] == src[i + 1..i + 2][0] == '\n';
      assert Newlines(src, i, i + 2) == Newlines(src, i + 1, i + 2) == 1 + Newlines(src, i + 2, i + 2);
    } else if f.Newline? || f.Space? {
      assert Newlines(src, i, i + 1) == (if src[i] == '\n' then 1 else 0) + Newlines(src, i + 1, i + 1);
    }
  }

  ghost predicate InPlace(src: string, from: nat, t: Tok) {
    && from <= t.start < |src| && t.text != "" && At(src, t.start, t.text)
    && t.line == 1 + Newlines(src, 0, t.start)
  }

  /** Every token is on line 1 + the newlines before it, through splices, comments and
      literals; its text is the source from there on; tokens come in order. */
  lemma {:induction false} TokensInPlace(cl: Classes, src: string, i: nat, line: nat, space: bool, bol: bool, k: nat)
    requires cl.Ok()
    requires i <= |src| ==> line == 1 + Newlines(src, 0, i)
    requires k < |LexFrom(cl, src, i, line, space, bol)|
    ensures var toks := LexFrom(cl, src, i, line, space, bol);
      InPlace(src, i, toks[k]) && (k > 0 ==> toks[k - 1].start + |toks[k - 1].text| <= toks[k].start)
    decreases |src| - i
  {
    hide TokenAt, FoundAt, Newlines, Classes.Ok;
    Progress(cl, src, i);
    LineAfter(cl, src, i);
    match FoundAt(cl, src, i)
    case Splice(e) => TokensInPlace(cl, src, e, line + 1, space, bol, k);
    case Newline(e) => TokensInPlace(cl, src, e, line + 1, true, true, k);
    case Space(e) => TokensInPlace(cl, src, e, line, true, bol, k);
    case Comment(e) => TokensInPlace(cl, src, e, line + Newlines(src, i, e), true, bol, k);
    case Token(kind, e) =>
      if k > 0 {
        TokensInPlace(cl, src, e, line + Newlines(src, i, e), false, false, k - 1);
      }
  }
}
