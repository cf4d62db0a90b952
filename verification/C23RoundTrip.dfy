// What a source says to the lexer of C23Lexer, apart from how it reads it: a list of
// elements, each of which stands whole before the text after it. Lexing such a list gives
// back its tokens, every source is exactly one such list, and no separator is needed
// between neighbours that do not merge.
module C23RoundTrip {
  import opened Arithmetic
  import opened CTokens
  import opened C23Lexer

  // ---- elements -------------------------------------------------------------------

  /** Blank space, a splice, a comment, a token. */
  datatype Element = Ws(c: char) | Cont | Remark(text: string) | Lexeme(kind: Kind, text: string)

  function Text(e: Element): string {
    match e
    case Ws(c) => [c]
    case Cont => "\\\n"
    case Remark(t) => t
    case Lexeme(_, t) => t
  }

  /** To the end of its line, or to the delimiter that closes it; open at the end of the source. */
  ghost predicate CommentStands(t: string, rest: string) {
    || ("//" <= t && (forall k :: 0 <= k < |t| ==> !EndsLine(t, k)) && (rest == "" || EndsLine(t + rest, |t|)))
    || ("/*" <= t && |t| >= 4 && ClosesAt(t, |t| - 2) && forall k :: 2 <= k < |t| - 2 ==> !ClosesAt(t, k))
    || ("/*" <= t && rest == "" && forall k :: 2 <= k < |t| ==> !ClosesAt(t, k))
  }

  predicate WordStart(cl: Classes, c: char) { cl.alpha(c) || c == '_' }

  ghost predicate WordText(cl: Classes, t: string) {
    t != "" && WordStart(cl, t[0]) && forall k :: 0 <= k < |t| ==> cl.Word(t[k])
  }

  /** A word ends before what is no letter, digit or underscore; an encoding prefix also
      needs that no quote follows. */
  ghost predicate WordStands(cl: Classes, t: string, rest: string) {
    WordText(cl, t) && (rest == "" || (!cl.Word(rest[0]) && !(Quote(rest[0]) && t in PREFIXES)))
  }

  ghost predicate NumberStart(cl: Classes, s: string) {
    s != "" && (cl.digit(s[0]) || (s[0] == '.' && |s| > 1 && cl.digit(s[1])))
  }

  ghost predicate NumStands(cl: Classes, t: string, rest: string) {
    && NumberStart(cl, t)
    && (forall k :: 0 < k < |t| ==> NumPart(cl, t, k))
    && (rest == "" || !NumPart(cl, t + rest, |t|))
  }

  /** A literal with its quote at p: closed by the first unescaped one, or open and stopped by
      the end of its line or of the source. */
  ghost predicate InsideStands(t: string, p: nat, rest: string)
    requires p < |t|
  {
    var last := |t| - 1;
    || (last > p && t[last] == t[p] && !Escaped(t, p + 1, last) && Inside(t, p + 1, last, t[p]))
    || (Inside(t, p + 1, |t|, t[p]) && (rest == "" || (rest[0] == '\n' && !Escaped(t, p + 1, |t|))))
  }

  /** An encoding prefix of p characters or none, then the quote. */
  ghost predicate LiteralStands(t: string, p: nat, rest: string) {
    p < |t| && (p == 0 || t[..p] in PREFIXES) && Quote(t[p]) && InsideStands(t, p, rest)
  }

  /** No word, number, literal, blank, splice or comment starts here. */
  ghost predicate OtherStart(cl: Classes, s: string) {
    && s != "" && !WordStart(cl, s[0]) && !NumberStart(cl, s) && !Quote(s[0]) && !White(s[0])
    && !("\\\n" <= s) && !("//" <= s) && !("/*" <= s)
  }

  /** A listed punctuator or a single character, and no longer listed punctuator stands there. */
  ghost predicate PunctStands(cl: Classes, t: string, rest: string) {
    && (t in PUNCT3 + PUNCT2 || |t| == 1) && OtherStart(cl, t + rest)
    && forall q :: q in PUNCT3 + PUNCT2 && q <= t + rest ==> |q| <= |t|
  }

  ghost predicate TokenStands(cl: Classes, kind: Kind, t: string, rest: string) {
    match kind
    case Id => WordStands(cl, t, rest)
    case Num => NumStands(cl, t, rest)
    case Str => exists p :: LiteralStands(t, p, rest)
    case Punct => PunctStands(cl, t, rest)
  }

  /** The element is read whole when this text follows it. */
  ghost predicate Stands(cl: Classes, e: Element, rest: string) {
    match e
    case Ws(c) => White(c)
    case Cont => true
    case Remark(t) => CommentStands(t, rest)
    case Lexeme(kind, t) => TokenStands(cl, kind, t, rest)
  }

  /** What the loop finds at i when it reads this element there. */
  ghost predicate Finds(f: Found, e: Element, n: nat, i: nat) {
    && Min(f.end, n) == i + |Text(e)|
    && match e
       case Ws(c) => if c == '\n' then f.Newline? else f.Space?
       case Cont => f.Splice?
       case Remark(_) => f.Comment?
       case Lexeme(kind, _) => f.Token? && f.kind == kind
  }

  // ---- the text at a position -------------------------------------------------------

  /** At i the source goes on with t and then with rest. */
  ghost predicate Here(src: string, i: nat, t: string, rest: string) {
    i <= |src| && src[i..] == t + rest
  }

  lemma HereIs(src: string, i: nat, t: string, rest: string)
    requires Here(src, i, t, rest)
    ensures i + |t| + |rest| == |src| && src[i..i + |t|] == t && src[i + |t|..] == rest
    ensures forall k :: 0 <= k < |t| ==> src[i + k] == t[k]
    ensures rest != "" ==> src[i + |t|] == rest[0]
  {
    var s := src[i..];
    assert s[..|t|] == t && s[|t|..] == rest;
    assert forall k :: 0 <= k < |t| ==> src[i + k] == s[k];
  }

  lemma TwoAt(src: string, i: nat, t: string)
    requires |t| == 2
    ensures At(src, i, t) <==> i + 1 < |src| && src[i] == t[0] && src[i + 1] == t[1]
    ensures i <= |src| ==> (t <= src[i..] <==> At(src, i, t))
  {
    if i + 1 < |src| {
      assert src[i..i + 2] == [src[i], src[i + 1]];
      assert src[i..][..2] == src[i..i + 2];
    }
  }

  lemma AtIsPrefix(src: string, i: nat, t: string)
    requires i <= |src|
    ensures At(src, i, t) <==> t <= src[i..]
  {
    if i + |t| <= |src| {
      assert src[i..][..|t|] == src[i..i + |t|];
    }
  }

  lemma {:induction false} EscapedHere(src: string, i: nat, t: string, rest: string, from: nat, k: nat)
    requires Here(src, i, t, rest) && k <= |t|
    ensures Escaped(src, i + from, i + k) <==> Escaped(t, from, k)
    decreases k
  {
    HereIs(src, i, t, rest);
    if from < k {
      EscapedHere(src, i, t, rest, from, k - 1);
    }
  }

  lemma InsideHere(src: string, i: nat, t: string, rest: string, from: nat, e: nat, quote: char)
    requires Here(src, i, t, rest) && e <= |t|
    ensures Inside(src, i + from, i + e, quote) <==> Inside(t, from, e, quote)
  {
    hide Escaped;
    HereIs(src, i, t, rest);
    forall k | from <= k < e
      ensures Escaped(src, i + from, i + k) <==> Escaped(t, from, k)
      ensures src[i + k] == t[k]
    {
      EscapedHere(src, i, t, rest, from, k);
    }
    if Inside(t, from, e, quote) {
      forall k | i + from <= k < i + e && !Escaped(src, i + from, k)
        ensures src[k] != quote && src[k] != '\n'
      {
        assert k == i + (k - i) && t[k - i] == src[k];
      }
    }
  }

  // ---- an element is read whole exactly where it stands -------------------------------

  /** Blank space, a splice or a comment starts here. */
  ghost predicate SkipStart(s: string) {
    s != "" && (White(s[0]) || "\\\n" <= s || "//" <= s || "/*" <= s)
  }

  /** What the first characters decide. */
  lemma StartIs(cl: Classes, src: string, i: nat)
    requires cl.Ok() && i < |src|
    ensures var s, f := src[i..], FoundAt(cl, src, i);
      && ("\\\n" <= s ==> f == Splice(i + 2))
      && (s[0] == '\n' ==> f == Newline(i + 1))
      && (Blank(s[0]) ==> f == Space(i + 1))
      && ("//" <= s ==> f == Found.Comment(LineCommentEnd(src, i)))
      && ("/*" <= s ==> f == Found.Comment(BlockCommentEnd(src, i + 2)))
      && (WordStart(cl, s[0]) ==> f == TokenAt(cl, src, i))
      && (NumberStart(cl, s) ==> f == Token(Num, NumEnd(cl, src, i + 1)))
      && (Quote(s[0]) ==> f == Token(Str, LiteralEnd(src, i + 1, s[0])))
      && (OtherStart(cl, s) ==> f == Token(Punct, i + PunctLength(PUNCT3 + PUNCT2, src, i)))
  {
    hide LineCommentEnd, BlockCommentEnd, WordEnd, NumEnd, LiteralEnd, PunctLength, PUNCT3, PUNCT2, PREFIXES;
    TwoAt(src, i, "\\\n");
    TwoAt(src, i, "//");
    TwoAt(src, i, "/*");
    assert At(src, i + 1, "\n") <==> i + 1 < |src| && src[i + 1] == '\n';
  }

  /** Of the five ways to start, a text has exactly one. */
  lemma OneStart(cl: Classes, s: string)
    requires cl.Ok() && s != ""
    ensures var word, num, quote, other, skip :=
        WordStart(cl, s[0]), NumberStart(cl, s), Quote(s[0]), OtherStart(cl, s), SkipStart(s);
      && (word || num || quote || other || skip)
      && (word ==> !num && !quote && !other && !skip) && (num ==> !quote && !other && !skip)
      && (quote ==> !other && !skip) && (other ==> !skip)
  {
  }

  lemma WordTokenIs(cl: Classes, src: string, i: nat)
    requires cl.Ok() && i < |src| && WordStart(cl, src[i])
    ensures var e := WordEnd(cl, src, i);
      FoundAt(cl, src, i) ==
      if e < |src| && Quote(src[e]) && src[i..e] in PREFIXES then Token(Str, LiteralEnd(src, e + 1, src[e]))
      else Token(Id, e)
  {
    hide WordEnd, NumEnd, LiteralEnd, LineCommentEnd, BlockCommentEnd, PunctLength, PUNCT3, PUNCT2, PREFIXES,
         Classes.Ok, FoundAt, NumberStart, OtherStart, Blank;
    assert src[i..][0] == src[i];
    StartIs(cl, src, i);
  }

  lemma WordFound(cl: Classes, src: string, i: nat, t: string, rest: string)
    requires cl.Ok() && i < |src| && Here(src, i, t, rest)
    ensures WordStands(cl, t, rest) <==> Finds(FoundAt(cl, src, i), Lexeme(Id, t), |src|, i)
  {
    hide FoundAt, WordEnd, LiteralEnd, NumEnd, PREFIXES, Classes.Ok, NumberStart, OtherStart, PunctLength, PUNCT3,
         PUNCT2;
    HereIs(src, i, t, rest);
    StartIs(cl, src, i);
    OneStart(cl, src[i..]);
    Progress(cl, src, i);
    assert src[i..][0] == src[i];
    if WordStart(cl, src[i]) {
      WordTokenIs(cl, src, i);
      WordEndIs(cl, src, i);
      var e := WordEnd(cl, src, i);
      if WordStands(cl, t, rest) {
        assert forall k :: i <= k < i + |t| ==> src[k] == t[k - i];
        assert e == i + |t|;
      }
    } else {
      assert FoundAt(cl, src, i).Token? ==> FoundAt(cl, src, i).kind != Id;
    }
  }

  lemma NumEndsHere(cl: Classes, src: string, i: nat, t: string, rest: string)
    requires cl.Ok() && i < |src| && Here(src, i, t, rest) && NumberStart(cl, src[i..])
    ensures NumStands(cl, t, rest) <==> NumEnd(cl, src, i + 1) == i + |t|
  {
    hide NumEnd;
    HereIs(src, i, t, rest);
    NumEndIs(cl, src, i + 1);
    var s := t + rest;
    forall k | 0 < k < |s|
      ensures NumPart(cl, s, k) <==> NumPart(cl, src, i + k)
      ensures k < |t| ==> (NumPart(cl, s, k) <==> NumPart(cl, t, k))
    {
      assert s[k] == src[i + k] && s[k - 1] == src[i + k - 1];
    }
    if NumEnd(cl, src, i + 1) == i + |t| {
      assert |s| > 1 && cl.digit(s[1]) ==> NumPart(cl, s, 1);
      assert NumberStart(cl, t);
    }
    if NumStands(cl, t, rest) {
      forall k | i < k < i + |t|
        ensures NumPart(cl, src, k)
      {
        assert NumPart(cl, s, k - i);
      }
      assert rest != "" ==> !NumPart(cl, src, i + |t|);
    }
  }

  lemma NumFound(cl: Classes, src: string, i: nat, t: string, rest: string)
    requires cl.Ok() && i < |src| && Here(src, i, t, rest)
    ensures NumStands(cl, t, rest) <==> Finds(FoundAt(cl, src, i), Lexeme(Num, t), |src|, i)
  {
    hide FoundAt, NumEnd, WordEnd, LiteralEnd, PREFIXES, OtherStart, PunctLength, PUNCT3, PUNCT2, NumPart, Classes.Ok;
    HereIs(src, i, t, rest);
    StartIs(cl, src, i);
    OneStart(cl, src[i..]);
    Progress(cl, src, i);
    if NumberStart(cl, src[i..]) {
      NumEndsHere(cl, src, i, t, rest);
    } else {
      assert !NumberStart(cl, t);
      assert FoundAt(cl, src, i).Token? ==> FoundAt(cl, src, i).kind != Num;
    }
  }

  lemma PunctFound(cl: Classes, src: string, i: nat, t: string, rest: string)
    requires cl.Ok() && i < |src| && Here(src, i, t, rest)
    ensures PunctStands(cl, t, rest) <==> Finds(FoundAt(cl, src, i), Lexeme(Punct, t), |src|, i)
  {
    hide FoundAt, NumEnd, WordEnd, LiteralEnd, PREFIXES, OtherStart, NumberStart, PunctLength, PUNCT3, PUNCT2,
         Classes.Ok;
    HereIs(src, i, t, rest);
    StartIs(cl, src, i);
    OneStart(cl, src[i..]);
    Progress(cl, src, i);
    if OtherStart(cl, src[i..]) {
      PunctEndsHere(src, i, t, rest);
    } else {
      assert FoundAt(cl, src, i).Token? ==> FoundAt(cl, src, i).kind != Punct;
    }
  }

  lemma PunctEndsHere(src: string, i: nat, t: string, rest: string)
    requires i < |src| && Here(src, i, t, rest)
    ensures (t in PUNCT3 + PUNCT2 || |t| == 1) && (forall q :: q in PUNCT3 + PUNCT2 && q <= t + rest ==> |q| <= |t|)
            <==> PunctLength(PUNCT3 + PUNCT2, src, i) == |t|
  {
    hide PunctLength, PUNCT3, PUNCT2;
    HereIs(src, i, t, rest);
    PunctuatorsListed();
    var ps := PUNCT3 + PUNCT2;
    PunctLengthIs(ps, src, i);
    forall q | q in ps
      ensures |q| >= 2 && (At(src, i, q) <==> q <= t + rest)
    {
      var a :| 0 <= a < |ps| && ps[a] == q;
      AtIsPrefix(src, i, q);
    }
    assert t in ps ==> At(src, i, t);
  }

  /** A literal has one end, or runs past the source. */
  lemma OneStop(src: string, from: nat, r: nat, e: nat, quote: char)
    requires Quote(quote) && LiteralStops(src, from, r, quote) && LiteralStops(src, from, e, quote)
    ensures Min(r, |src| + 1) == Min(e, |src| + 1)
  {
    hide Escaped;
  }

  lemma InsideEndsHere(src: string, i: nat, t: string, p: nat, rest: string)
    requires Here(src, i, t, rest) && p < |t| && Quote(t[p])
    ensures InsideStands(t, p, rest) <==> Min(LiteralEnd(src, i + p + 1, t[p]), |src|) == i + |t|
  {
    hide LiteralEnd, Escaped, Inside;
    HereIs(src, i, t, rest);
    var from, r, e := i + p + 1, LiteralEnd(src, i + p + 1, t[p]), i + |t|;
    LiteralEndIs(src, from, t[p]);
    EscapedHere(src, i, t, rest, p + 1, |t|);
    EscapedHere(src, i, t, rest, p + 1, |t| - 1);
    InsideHere(src, i, t, rest, p + 1, |t|, t[p]);
    InsideHere(src, i, t, rest, p + 1, |t| - 1, t[p]);
    assert i + (p + 1) == from && i + (|t| - 1) == e - 1;
    if InsideStands(t, p, rest) {
      var stop := if LiteralStops(src, from, e, t[p]) then e else |src| + 1;
      assert LiteralStops(src, from, stop, t[p]);
      OneStop(src, from, r, stop, t[p]);
    }
  }

  lemma PrefixIsWord(cl: Classes, w: string)
    requires cl.Ok() && w in PREFIXES
    ensures w != "" && WordStart(cl, w[0]) && forall k :: 0 <= k < |w| ==> cl.Word(w[k])
  {
    var a :| 0 <= a < |PREFIXES| && PREFIXES[a] == w;
  }

  lemma PrefixEndsHere(cl: Classes, src: string, i: nat, t: string, p: nat, rest: string)
    requires cl.Ok() && Here(src, i, t, rest) && 0 < p < |t| && t[..p] in PREFIXES && Quote(t[p])
    ensures WordStart(cl, src[i]) && WordEnd(cl, src, i) == i + p && src[i..i + p] == t[..p] && src[i + p] == t[p]
  {
    hide PREFIXES, WordEnd;
    HereIs(src, i, t, rest);
    PrefixIsWord(cl, t[..p]);
    WordEndIs(cl, src, i);
    assert src[i..i + p] == src[i..i + |t|][..p];
    assert t[0] == t[..p][0];
    forall k | i <= k < i + p
      ensures cl.Word(src[k])
    {
      assert src[k] == src[i..i + p][k - i];
    }
  }

  /** Where the literal at i has its quote: after the word there, or at once. */
  lemma LiteralTokenIs(cl: Classes, src: string, i: nat, p: nat)
    requires cl.Ok() && i + p < |src| && Quote(src[i + p])
    requires p == 0 || (WordStart(cl, src[i]) && WordEnd(cl, src, i) == i + p && src[i..i + p] in PREFIXES)
    ensures FoundAt(cl, src, i) == Token(Str, LiteralEnd(src, i + p + 1, src[i + p]))
  {
    hide WordEnd, LiteralEnd, PREFIXES, Classes.Ok, FoundAt, NumberStart, OtherStart, PUNCT3, PUNCT2;
    if p > 0 {
      WordTokenIs(cl, src, i);
    } else {
      StartIs(cl, src, i);
    }
  }

  lemma LiteralHere(cl: Classes, src: string, i: nat, t: string, p: nat, rest: string)
    requires cl.Ok() && i < |src| && Here(src, i, t, rest) && LiteralStands(t, p, rest)
    ensures Finds(FoundAt(cl, src, i), Lexeme(Str, t), |src|, i)
  {
    hide FoundAt, WordEnd, LiteralEnd, InsideStands, PREFIXES, Classes.Ok, WordStart;
    HereIs(src, i, t, rest);
    InsideEndsHere(src, i, t, p, rest);
    if p > 0 {
      PrefixEndsHere(cl, src, i, t, p, rest);
    }
    LiteralTokenIs(cl, src, i, p);
  }

  /** The literal found at i has its quote after the word there, or at once. */
  lemma LiteralStart(cl: Classes, src: string, i: nat) returns (p: nat)
    requires cl.Ok() && i < |src| && FoundAt(cl, src, i).Token? && FoundAt(cl, src, i).kind == Str
    ensures i + p < |src| && Quote(src[i + p]) && (p == 0 || src[i..i + p] in PREFIXES)
    ensures FoundAt(cl, src, i).end == LiteralEnd(src, i + p + 1, src[i + p])
  {
    hide WordEnd, NumEnd, LiteralEnd, PREFIXES, Classes.Ok, FoundAt, NumberStart, OtherStart, PunctLength, PUNCT3,
         PUNCT2;
    StartIs(cl, src, i);
    OneStart(cl, src[i..]);
    p := 0;
    if WordStart(cl, src[i]) {
      WordTokenIs(cl, src, i);
      p := WordEnd(cl, src, i) - i;
    }
  }

  lemma StrFound(cl: Classes, src: string, i: nat, t: string, rest: string)
    requires cl.Ok() && i < |src| && Here(src, i, t, rest)
    ensures TokenStands(cl, Str, t, rest) <==> Finds(FoundAt(cl, src, i), Lexeme(Str, t), |src|, i)
  {
    hide FoundAt, LiteralEnd, InsideStands, PREFIXES, Classes.Ok;
    if p :| LiteralStands(t, p, rest) {
      LiteralHere(cl, src, i, t, p, rest);
    }
    if Finds(FoundAt(cl, src, i), Lexeme(Str, t), |src|, i) {
      HereIs(src, i, t, rest);
      var p := LiteralStart(cl, src, i);
      assert t[..p] == src[i..i + p];
      InsideEndsHere(src, i, t, p, rest);
      assert LiteralStands(t, p, rest);
    }
  }

  /** An open literal ends at the end of its line, whatever follows. */
  lemma OpenLiteral(src: string, at: nat, e: nat)
    requires at < e < |src| && Quote(src[at]) && Inside(src, at + 1, e, src[at])
    requires src[e] == '\n' && !Escaped(src, at + 1, e)
    ensures LiteralEnd(src, at + 1, src[at]) == e
  {
    LiteralEndIs(src, at + 1, src[at]);
    OneStop(src, at + 1, LiteralEnd(src, at + 1, src[at]), e, src[at]);
  }

  lemma CommentFound(cl: Classes, src: string, i: nat, t: string, rest: string)
    requires cl.Ok() && i < |src| && Here(src, i, t, rest)
    ensures CommentStands(t, rest) <==> Finds(FoundAt(cl, src, i), Remark(t), |src|, i)
  {
    hide FoundAt, WordEnd, NumEnd, LiteralEnd, PREFIXES, Classes.Ok, NumberStart, OtherStart, PunctLength, PUNCT3,
         PUNCT2, LineCommentEnd, BlockCommentEnd;
    HereIs(src, i, t, rest);
    StartIs(cl, src, i);
    OneStart(cl, src[i..]);
    Progress(cl, src, i);
    if t == "" {
    } else if "//" <= src[i..] {
      LineEndsHere(src, i, t, rest);
    } else if "/*" <= src[i..] {
      BlockEndsHere(src, i, t, rest);
    } else {
      assert !FoundAt(cl, src, i).Comment?;
    }
  }

  lemma LineEndsHere(src: string, i: nat, t: string, rest: string)
    requires Here(src, i, t, rest) && t != "" && "//" <= t + rest
    ensures CommentStands(t, rest) <==> LineCommentEnd(src, i) == i + |t|
  {
    hide LineCommentEnd;
    HereIs(src, i, t, rest);
    LineCommentEndIs(src, i);
    var s := t + rest;
    assert s[0] == s[1] == '/';
    forall k | 0 <= k < |s|
      ensures EndsLine(s, k) <==> EndsLine(src, i + k)
      ensures k < |t| ==> (EndsLine(s, k) <==> EndsLine(t, k))
    {
      assert s[k] == src[i + k] && (k > 0 ==> s[k - 1] == src[i + k - 1]);
    }
    var e := LineCommentEnd(src, i);
    assert !("/*" <= t) by {
      assert "/*"[1] == '*';
    }
    if e == i + |t| {
      assert rest != "" ==> EndsLine(s, |t|);
      assert "//" <= t;
    }
    if CommentStands(t, rest) {
      forall k | i <= k < i + |t|
        ensures !EndsLine(src, k)
      {
        assert !EndsLine(s, k - i);
      }
    }
  }

  lemma BlockEndsHere(src: string, i: nat, t: string, rest: string)
    requires Here(src, i, t, rest) && t != "" && "/*" <= t + rest
    ensures CommentStands(t, rest) <==> BlockCommentEnd(src, i + 2) == i + |t|
  {
    hide BlockCommentEnd;
    HereIs(src, i, t, rest);
    BlockCommentEndIs(src, i + 2);
    var s, e := t + rest, BlockCommentEnd(src, i + 2);
    assert s[0] == '/' && s[1] == '*';
    assert !("//" <= t) by {
      assert "//"[1] == '/';
    }
    forall k | 0 <= k < |t| - 1
      ensures ClosesAt(t, k) <==> ClosesAt(src, i + k)
    {
      assert s[k] == src[i + k] && s[k + 1] == src[i + k + 1];
    }
    if CommentStands(t, rest) {
      forall k | i + 2 <= k < i + |t| - 2
        ensures !ClosesAt(src, k)
      {
        assert !ClosesAt(t, k - i);
      }
    }
  }

  /** Neither blank, quote, underscore nor backslash, and of no class. */
  predicate Operator(c: char) { Special(c) && !White(c) && !Quote(c) && c != '_' && c != '\\' }

  const OPERATORS := "./*:<>=!&|+-%^#"

  /** How a listed punctuator starts. */
  lemma PunctuatorStart(t: string)
    requires t in PUNCT3 + PUNCT2
    ensures |t| >= 2 && t[0] in OPERATORS && t[1] != '*' && t[1] != '/' && (t[0] == '.' ==> t[1] == '.')
  {
    var ps := PUNCT3 + PUNCT2;
    var a :| 0 <= a < |ps| && ps[a] == t;
    assert ps[a] == if a < 3 then PUNCT3[a] else PUNCT2[a - 3];
  }

  lemma OperatorsAre(c: char)
    requires c in OPERATORS
    ensures Operator(c)
  {
  }

  lemma OperatorIsNoWord(cl: Classes, c: char)
    requires cl.Ok() && Operator(c)
    ensures !WordStart(cl, c) && !cl.digit(c) && !White(c) && !Quote(c) && c != '\\'
  {
  }

  lemma OperatorStarts(cl: Classes, s: string)
    requires cl.Ok() && |s| >= 2 && Operator(s[0]) && s[1] != '*' && s[1] != '/' && (s[0] == '.' ==> s[1] == '.')
    ensures OtherStart(cl, s)
  {
    hide Classes.Ok, WordStart, Operator, White, Quote;
    OperatorIsNoWord(cl, s[0]);
    assert !("\\\n" <= s) && !("//" <= s) && !("/*" <= s) by {
      assert "\\\n"[0] == '\\' && "//"[1] == '/' && "/*"[1] == '*';
    }
  }

  lemma PunctuatorHere(cl: Classes, src: string, i: nat, p: string)
    requires cl.Ok() && i < |src| && p in PUNCT3 + PUNCT2 && At(src, i, p)
    ensures FoundAt(cl, src, i) == Token(Punct, i + PunctLength(PUNCT3 + PUNCT2, src, i))
  {
    hide *;
    PunctuatorStart(p);
    OperatorsAre(p[0]);
    SameStart(src, i, p);
    OperatorStarts(cl, src[i..]);
    StartIs(cl, src, i);
  }

  lemma SameStart(src: string, i: nat, p: string)
    requires i < |src| && |p| >= 2 && At(src, i, p)
    ensures |src[i..]| >= 2 && src[i..][0] == p[0] && src[i..][1] == p[1]
  {
    AtIsPrefix(src, i, p);
  }

  /** Where a listed punctuator stands, the longest one that does is the token. */
  lemma LongestPunctuator(cl: Classes, src: string, i: nat, p: string)
    requires cl.Ok() && i < |src| && p in PUNCT3 + PUNCT2 && At(src, i, p)
    ensures exists q :: q in PUNCT3 + PUNCT2 && At(src, i, q) && FoundAt(cl, src, i) == Token(Punct, i + |q|)
                        && forall r :: r in PUNCT3 + PUNCT2 && At(src, i, r) ==> |r| <= |q|
  {
    hide FoundAt, PUNCT3, PUNCT2, PunctLength, Classes.Ok;
    PunctuatorHere(cl, src, i, p);
    PunctuatorsListed();
    PunctLengthIs(PUNCT3 + PUNCT2, src, i);
  }

  /** Whatever follows: the loop reads an element whole at i if and only if it stands there. */
  lemma StandsExactly(cl: Classes, src: string, i: nat, e: Element, rest: string)
    requires cl.Ok() && i < |src| && Here(src, i, Text(e), rest)
    ensures Stands(cl, e, rest) <==> Finds(FoundAt(cl, src, i), e, |src|, i)
  {
    hide FoundAt, WordStands, NumStands, PunctStands, LiteralStands, CommentStands, Classes.Ok, NumberStart,
         OtherStart, PUNCT3, PUNCT2, WordStart;
    match e
    case Ws(c) =>
      HereIs(src, i, Text(e), rest);
      StartIs(cl, src, i);
      OneStart(cl, src[i..]);
    case Cont =>
      assert "\\\n" <= src[i..];
      StartIs(cl, src, i);
    case Remark(t) => CommentFound(cl, src, i, t, rest);
    case Lexeme(Id, t) => WordFound(cl, src, i, t, rest);
    case Lexeme(Num, t) => NumFound(cl, src, i, t, rest);
    case Lexeme(Str, t) => StrFound(cl, src, i, t, rest);
    case Lexeme(Punct, t) => PunctFound(cl, src, i, t, rest);
  }

  /** The element read at i, and that it is one. */
  lemma ElementAt(cl: Classes, src: string, i: nat) returns (e: Element)
    requires cl.Ok() && i < |src|
    ensures Min(FoundAt(cl, src, i).end, |src|) == i + |Text(e)| && Here(src, i, Text(e), src[i + |Text(e)|..])
    ensures Stands(cl, e, src[i + |Text(e)|..])
  {
    hide TokenAt, LineCommentEnd, BlockCommentEnd, Stands, Classes.Ok;
    Progress(cl, src, i);
    var f := FoundAt(cl, src, i);
    var t := src[i..Min(f.end, |src|)];
    assert src[i..] == t + src[i + |t|..];
    if f.Splice? {
      assert src[i + 1] == src[i + 1..i + 2][0];
      assert t == "\\\n";
    }
    e := match f
      case Splice(_) => Cont
      case Newline(_) => Ws('\n')
      case Space(_) => Ws(src[i])
      case Comment(_) => Remark(t)
      case Token(kind, _) => Lexeme(kind, t);
    assert Text(e) == t;
    StandsExactly(cl, src, i, e, src[i + |t|..]);
  }

  // ---- the round trip -----------------------------------------------------------------

  /** A list of elements. */
  datatype Reading = End | Then(first: Element, rest: Reading)

  function Print(p: Reading): string {
    if p.End? then "" else Text(p.first) + Print(p.rest)
  }

  /** Every element stands before the text of the ones after it. */
  ghost predicate Sound(cl: Classes, p: Reading) {
    p.Then? ==> Stands(cl, p.first, Print(p.rest)) && Sound(cl, p.rest)
  }

  /** A token without its place: kind, text, blank space before it, first of its line. */
  datatype Shape = Shape(kind: Kind, text: string, spaceBefore: bool, bol: bool)

  function Shapes(toks: seq<Tok>): seq<Shape> {
    seq(|toks|, k requires 0 <= k < |toks| => Shape(toks[k].kind, toks[k].text, toks[k].spaceBefore, toks[k].bol))
  }

  /** The tokens of a list: blank space and comments are space before the next one, a newline
      makes it first of its line, a splice does neither. */
  function Tokens(p: Reading, space: bool, bol: bool): seq<Shape> {
    match p
    case End => []
    case Then(Ws(c), rest) => Tokens(rest, true, bol || c == '\n')
    case Then(Cont, rest) => Tokens(rest, space, bol)
    case Then(Remark(_), rest) => Tokens(rest, true, bol)
    case Then(Lexeme(kind, t), rest) => [Shape(kind, t, space, bol)] + Tokens(rest, false, false)
  }

  lemma NoShapes()
    ensures Shapes([]) == []
  {
  }

  lemma ShapesCons(t: Tok, toks: seq<Tok>)
    ensures Shapes([t] + toks) == [Shape(t.kind, t.text, t.spaceBefore, t.bol)] + Shapes(toks)
  {
  }

  lemma {:induction false} LexPrinted(cl: Classes, src: string, i: nat, p: Reading, line: nat, space: bool, bol: bool)
    requires cl.Ok() && Sound(cl, p) && (i < |src| ==> src[i..] == Print(p)) && (i >= |src| ==> Print(p) == "")
    ensures Shapes(LexFrom(cl, src, i, line, space, bol)) == Tokens(p, space, bol)
    decreases p
  {
    hide LexFrom, FoundAt, Newlines, Shapes, Stands, Classes.Ok;
    if p.End? {
      assert i >= |src|;
      LexEnd(cl, src, i, line, space, bol);
      NoShapes();
    } else {
      var t, rest := Text(p.first), Print(p.rest);
      TextIsSome(cl, p.first, rest);
      HereIs(src, i, t, rest);
      StandsExactly(cl, src, i, p.first, rest);
      LexTurn(cl, src, i, line, space, bol);
      Progress(cl, src, i);
      var f := FoundAt(cl, src, i);
      var l := line + Newlines(src, i, f.end);
      match p.first
      case Ws(c) => LexPrinted(cl, src, f.end, p.rest, if c == '\n' then line + 1 else line, true, bol || c == '\n');
      case Cont => LexPrinted(cl, src, f.end, p.rest, line + 1, space, bol);
      case Remark(_) => LexPrinted(cl, src, f.end, p.rest, l, true, bol);
      case Lexeme(kind, _) =>
        LexPrinted(cl, src, f.end, p.rest, l, false, false);
        ShapesCons(Tok(kind, t, line, space, bol, i), LexFrom(cl, src, f.end, l, false, false));
    }
  }

  lemma TextIsSome(cl: Classes, e: Element, rest: string)
    requires Stands(cl, e, rest)
    ensures Text(e) != ""
  {
    if e.Lexeme? && e.kind == Punct && |e.text| != 1 {
      PunctuatorsListed();
    }
  }

  /** Lexing any list of elements that stand, separated or not, gives back its tokens. */
  lemma RoundTrip(cl: Classes, p: Reading)
    requires cl.Ok() && Sound(cl, p)
    ensures Shapes(LexFrom(cl, Print(p), 0, 1, false, true)) == Tokens(p, false, true)
  {
    hide LexFrom, Shapes, Sound, Tokens, Classes.Ok;
    assert Print(p)[0..] == Print(p);
    LexPrinted(cl, Print(p), 0, p, 1, false, true);
  }

  lemma {:induction false} ReadingFrom(cl: Classes, src: string, i: nat) returns (p: Reading)
    requires cl.Ok() && i <= |src|
    ensures Sound(cl, p) && Print(p) == src[i..]
    decreases |src| - i
  {
    hide FoundAt, Stands, Classes.Ok;
    if i == |src| {
      p := End;
    } else {
      Progress(cl, src, i);
      var e := ElementAt(cl, src, i);
      var rest := ReadingFrom(cl, src, i + |Text(e)|);
      p := Then(e, rest);
    }
  }

  /** Every source is the print of elements that stand. */
  lemma EverySource(cl: Classes, src: string)
    requires cl.Ok()
    ensures exists p :: Sound(cl, p) && Print(p) == src
  {
    var p := ReadingFrom(cl, src, 0);
    assert src[0..] == src;
  }

  /** And of no others. */
  lemma {:induction false} OneReading(cl: Classes, p: Reading, q: Reading)
    requires cl.Ok() && Sound(cl, p) && Sound(cl, q) && Print(p) == Print(q)
    ensures p == q
  {
    hide FoundAt, Stands, Classes.Ok;
    if p.End? || q.End? {
      if p.Then? {
        TextIsSome(cl, p.first, Print(p.rest));
      }
      if q.Then? {
        TextIsSome(cl, q.first, Print(q.rest));
      }
    } else {
      var src := Print(p);
      assert src[0..] == src;
      TextIsSome(cl, p.first, Print(p.rest));
      StandsExactly(cl, src, 0, p.first, Print(p.rest));
      StandsExactly(cl, src, 0, q.first, Print(q.rest));
      HereIs(src, 0, Text(p.first), Print(p.rest));
      HereIs(src, 0, Text(q.first), Print(q.rest));
      OneReading(cl, p.rest, q.rest);
    }
  }

  /** The lexer's answer is these tokens if and only if the source is a list of elements that
      stand whose tokens they are. */
  lemma LexesExactly(cl: Classes, src: string, shapes: seq<Shape>)
    requires cl.Ok()
    ensures Shapes(LexFrom(cl, src, 0, 1, false, true)) == shapes <==>
            exists p :: Sound(cl, p) && Print(p) == src && Tokens(p, false, true) == shapes
  {
    hide LexFrom, Shapes, Sound, Tokens, Print, Classes.Ok;
    EverySource(cl, src);
    var p :| Sound(cl, p) && Print(p) == src;
    RoundTrip(cl, p);
    if q :| Sound(cl, q) && Print(q) == src && Tokens(q, false, true) == shapes {
      RoundTrip(cl, q);
    }
  }
}
