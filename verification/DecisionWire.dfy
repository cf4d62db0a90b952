// The wire format between tools/bench_decision.py (56-58) and the reader of
// tools/bench_decision.c (27-60, 241-250, 417-420): reading what was written.
module DecisionWire {
  import opened Results

  const SIZE_MAX: nat := 0xFFFF_FFFF_FFFF_FFFF
  const INT32_MAX: nat := 0x7FFF_FFFF
  const TOKEN: nat := 23

  datatype Case = Case(prompt: seq<nat>, candidates: seq<nat>)

  // ---- decimal numbers -------------------------------------------------------------

  predicate IsSpace(c: char) { c == ' ' || '\U{9}' <= c <= '\U{d}' }

  predicate IsDigit(c: char) { '0' <= c <= '9' }

  function Digit(n: nat): (c: char)
    requires n < 10
    ensures IsDigit(c)
  {
    '0' + n as char
  }

  function Print(n: nat): (s: string)
    ensures s != "" && forall c <- s :: IsDigit(c)
    decreases n
  {
    if n < 10 then [Digit(n)] else Print(n / 10) + [Digit(n % 10)]
  }

  predicate AllDigits(s: string) { forall c <- s :: IsDigit(c) }

  function Value(s: string): nat
    requires AllDigits(s)
    decreases |s|
  {
    if s == "" then 0
    else
      assert s[|s| - 1] in s && forall c <- s[..|s| - 1] :: c in s;
      Value(s[..|s| - 1]) * 10 + (s[|s| - 1] as nat - '0' as nat)
  }

  function SkipSpaces(s: string): (t: string)
    ensures |t| <= |s| && (t == "" || !IsSpace(t[0]))
    decreases |s|
  {
    if s != "" && IsSpace(s[0]) then SkipSpaces(s[1..]) else s
  }

  /** number(): strtoull in base ten on the whole text, range-checked. A sign that follows
      white space is the C library's to read, a leading minus is refused. */
  function Number(text: string): Option<nat> {
    if text == "" || text[0] == '-' then None
    else
      var t := SkipSpaces(text);
      var signed := t != "" && (t[0] == '+' || t[0] == '-');
      var digits := if signed then t[1..] else t;
      if digits == "" || !AllDigits(digits) || Value(digits) > SIZE_MAX then None
      else if signed && t[0] == '-' then Some((SIZE_MAX + 1 - Value(digits)) % (SIZE_MAX + 1))
      else Some(Value(digits))
  }

  lemma {:induction false} ValuePrint(n: nat)
    ensures Value(Print(n)) == n
    decreases n
  {
    if n >= 10 {
      ValuePrint(n / 10);
      assert Print(n)[..|Print(n)| - 1] == Print(n / 10);
    } else {
      assert Print(n)[..0] == "";
    }
  }

  function Pow10(k: nat): nat
    decreases k
  {
    if k == 0 then 1 else 10 * Pow10(k - 1)
  }

  lemma {:induction false} PrintLength(n: nat, k: nat)
    requires k > 0 && n < Pow10(k)
    ensures |Print(n)| <= k
    decreases k
  {
    if n >= 10 {
      assert k > 1;
      PrintLength(n / 10, k - 1);
    }
  }

  /** Printing and range-checked reading invert each other, also with a plus sign. */
  lemma NumberPrint(n: nat)
    ensures Number(Print(n)) == if n <= SIZE_MAX then Some(n) else None
    ensures Number("+" + Print(n)) == Number(Print(n))
  {
    ValuePrint(n);
    var s := Print(n);
    assert IsDigit(s[0]) by {
      assert s[0] in s;
    }
    assert ("+" + s)[1..] == s;
    assert SkipSpaces(s) == s && SkipSpaces("+" + s) == "+" + s;
    hide Print, Value;
  }

  // ---- tokens --------------------------------------------------------------------------

  /** The leading characters that are not white space, at most `most` of them. */
  function Word(s: string, most: nat): (n: nat)
    ensures n <= |s| && n <= most
    decreases most
  {
    if most == 0 || s == "" || IsSpace(s[0]) then 0 else 1 + Word(s[1..], most - 1)
  }

  datatype Scanned = End | Malformed | Got(value: nat, rest: string)

  /** scan_number(): one token of at most 23 characters, then its value. */
  function ScanNumber(input: string): (r: Scanned)
    ensures r.Got? ==> |r.rest| < |input|
  {
    var t := SkipSpaces(input);
    if t == "" then End
    else
      var n := Word(t, TOKEN);
      match Number(t[..n])
      case None => Malformed
      case Some(value) => Got(value, t[n..])
  }

  /** read_ids() */
  function ReadIds(n: nat, vocab: nat, input: string): (r: Option<(seq<nat>, string)>)
    ensures r.Some? ==> |r.value.1| <= |input|
    decreases n
  {
    if n == 0 then Some(([], input))
    else
      match ReadIds(n - 1, vocab, input)
      case None => None
      case Some(before) =>
        var next := ScanNumber(before.1);
        if !next.Got? || next.value >= vocab || next.value > INT32_MAX then None
        else Some((before.0 + [next.value], next.rest))
  }

  datatype Limits = Limits(promptCap: nat, candidateCap: nat, vocab: nat)

  /** What follows the prompt length of a case. */
  function ReadCase(np: nat, limits: Limits, input: string): (r: Option<(Case, string)>)
    ensures r.Some? ==> |r.value.1| < |input|
  {
    var nc := ScanNumber(input);
    if !nc.Got? || np == 0 || np > limits.promptCap || nc.value == 0 || nc.value > limits.candidateCap then None
    else
      match ReadIds(np, limits.vocab, nc.rest)
      case None => None
      case Some(prompt) =>
        match ReadIds(nc.value, limits.vocab, prompt.1)
        case None => None
        case Some(candidates) => Some((Case(prompt.0, candidates.0), candidates.1))
  }

  datatype ReadError = InvalidCase(index: nat) | MissingInput

  /** The cases of an input, the first of them number `index`. */
  function ReadFrom(limits: Limits, input: string, index: nat): Result<seq<Case>, ReadError>
    decreases |input|
  {
    match ScanNumber(input)
    case End => Ok([])
    case Malformed => Err(MissingInput)
    case Got(np, rest) =>
      match ReadCase(np, limits, rest)
      case None => Err(InvalidCase(index))
      case Some(one) =>
        match ReadFrom(limits, one.1, index + 1)
        case Err(e) => Err(e)
        case Ok(more) => Ok([one.0] + more)
  }

  function Read(limits: Limits, input: string): Result<seq<Case>, ReadError> {
    var r := ReadFrom(limits, input, 0);
    if r == Ok([]) then Err(MissingInput) else r
  }

  method ReadIdsLoop(n: nat, vocab: nat, input: string) returns (ids: seq<nat>, rest: string, ok: bool)
    ensures ok <==> ReadIds(n, vocab, input).Some?
    ensures ok ==> ReadIds(n, vocab, input) == Some((ids, rest))
  {
    hide ScanNumber;
    ids, rest := [], input;
    for i := 0 to n
      invariant ReadIds(i, vocab, input) == Some((ids, rest))
    {
      var next := ScanNumber(rest);
      if !next.Got? || next.value >= vocab || next.value > INT32_MAX {
        ReadIdsFails(n, i + 1, vocab, input);
        return ids, rest, false;
      }
      ids, rest := ids + [next.value], next.rest;
    }
    ok := true;
  }

  lemma {:induction false} ReadIdsFails(n: nat, i: nat, vocab: nat, input: string)
    requires i <= n && ReadIds(i, vocab, input).None?
    ensures ReadIds(n, vocab, input).None?
    decreases n
  {
    hide ScanNumber;
    if i < n {
      ReadIdsFails(n - 1, i, vocab, input);
    }
  }

  function Behind(cases: seq<Case>, rest: Result<seq<Case>, ReadError>): Result<seq<Case>, ReadError> {
    if rest.Err? then rest else Ok(cases + rest.value)
  }

  method ReadOneCase(np: nat, limits: Limits, input: string) returns (c: Case, rest: string, ok: bool)
    ensures ok <==> ReadCase(np, limits, input).Some?
    ensures ok ==> ReadCase(np, limits, input) == Some((c, rest))
  {
    hide ScanNumber, ReadIds;
    c, rest := Case([], []), input;
    var nc := ScanNumber(input);
    if !nc.Got? || np == 0 || np > limits.promptCap || nc.value == 0 || nc.value > limits.candidateCap {
      return c, rest, false;
    }
    var prompt, candidates;
    prompt, rest, ok := ReadIdsLoop(np, limits.vocab, nc.rest);
    if !ok {
      return;
    }
    candidates, rest, ok := ReadIdsLoop(nc.value, limits.vocab, rest);
    c := Case(prompt, candidates);
  }

  method ReadCases(limits: Limits, input: string) returns (r: Result<seq<Case>, ReadError>)
    ensures r == Read(limits, input)
  {
    hide ScanNumber, ReadCase;
    var cases: seq<Case>, rest := [], input;
    var read := ScanNumber(rest);
    BehindNone(ReadFrom(limits, input, 0));
    while read.Got?
      invariant read == ScanNumber(rest)
      invariant ReadFrom(limits, input, 0) == Behind(cases, ReadFrom(limits, rest, |cases|))
      decreases |rest|
    {
      var c, after, ok := ReadOneCase(read.value, limits, read.rest);
      if !ok {
        return Err(InvalidCase(|cases|));
      }
      BehindOne(cases, c, ReadFrom(limits, after, |cases| + 1));
      cases, rest := cases + [c], after;
      read := ScanNumber(rest);
    }
    assert cases + [] == cases;
    r := if read.Malformed? || cases == [] then Err(MissingInput) else Ok(cases);
  }

  lemma BehindNone(rest: Result<seq<Case>, ReadError>)
    ensures Behind([], rest) == rest
  {
    if rest.Ok? {
      assert [] + rest.value == rest.value;
    }
  }

  lemma BehindOne(cases: seq<Case>, c: Case, rest: Result<seq<Case>, ReadError>)
    ensures Behind(cases, Behind([c], rest)) == Behind(cases + [c], rest)
  {
    if rest.Ok? {
      assert cases + ([c] + rest.value) == cases + [c] + rest.value;
    }
  }

  // ---- writing ---------------------------------------------------------------------------

  /** Python's " ".join over the printed numbers. */
  function Spaced(ns: seq<nat>): string
    decreases |ns|
  {
    if ns == [] then "" else if |ns| == 1 then Print(ns[0]) else Print(ns[0]) + " " + Spaced(ns[1..])
  }

  function Numbers(c: Case): seq<nat> { [|c.prompt|, |c.candidates|] + c.prompt + c.candidates }

  /** wire_input() */
  function WireInput(cases: seq<Case>): string
    decreases |cases|
  {
    if cases == [] then "" else Spaced(Numbers(cases[0])) + "\n" + WireInput(cases[1..])
  }

  /** What is left of a line after some of its numbers, before more text. */
  function Rest(ns: seq<nat>, more: string): string
    decreases |ns|
  {
    if ns == [] then "\n" + more else " " + (Print(ns[0]) + Rest(ns[1..], more))
  }

  lemma {:induction false} JoinedRest(ns: seq<nat>, more: string)
    requires ns != []
    ensures Spaced(ns) + "\n" + more == Print(ns[0]) + Rest(ns[1..], more)
    decreases |ns|
  {
    hide Print;
    if |ns| > 1 {
      JoinedRest(ns[1..], more);
      assert Spaced(ns) + "\n" + more == Print(ns[0]) + (" " + (Spaced(ns[1..]) + "\n" + more));
    } else {
      assert Print(ns[0]) + "\n" + more == Print(ns[0]) + ("\n" + more);
    }
  }

  lemma {:induction false} WordOfDigits(s: string, rest: string, most: nat)
    requires AllDigits(s) && |s| <= most && (rest == "" || IsSpace(rest[0]))
    ensures Word(s + rest, most) == |s|
    decreases |s|
  {
    if s == "" {
      assert s + rest == rest;
    } else {
      assert s[0] in s && forall c <- s[1..] :: c in s;
      assert (s + rest)[1..] == s[1..] + rest;
      WordOfDigits(s[1..], rest, most - 1);
    }
  }

  /** A printed number before white space is read back, and nothing else is used up. */
  lemma ScanPrinted(n: nat, rest: string)
    requires n <= SIZE_MAX && (rest == "" || IsSpace(rest[0]))
    ensures ScanNumber(Print(n) + rest) == Got(n, rest)
  {
    SizeFits(n);
    NumberPrint(n);
    WordOfDigits(Print(n), rest, TOKEN);
    hide Print, Number, Word;
    var s := Print(n);
    assert (s + rest)[0] == s[0] && s[0] in s;
    assert SkipSpaces(s + rest) == s + rest;
    assert (s + rest)[..|s|] == s && (s + rest)[|s|..] == rest;
  }

  lemma SizeFits(n: nat)
    requires n <= SIZE_MAX
    ensures |Print(n)| <= TOKEN
  {
    PowTwenty();
    PrintLength(n, 20);
  }

  lemma PowTwenty()
    ensures Pow10(20) > SIZE_MAX
  {
    assert Pow10(5) == 100000;
    assert Pow10(10) == 10000000000;
    assert Pow10(15) == 1000000000000000;
    assert Pow10(20) == 100000000000000000000;
  }

  lemma ScanSkips(c: char, s: string)
    requires IsSpace(c)
    ensures ScanNumber([c] + s) == ScanNumber(s)
  {
    hide Number, Word;
    assert ([c] + s)[1..] == s;
  }

  lemma ScanRest(ns: seq<nat>, more: string)
    requires ns != [] && ns[0] <= SIZE_MAX
    ensures ScanNumber(Rest(ns, more)) == Got(ns[0], Rest(ns[1..], more))
  {
    hide ScanNumber, Print;
    ScanSkips(' ', Print(ns[0]) + Rest(ns[1..], more));
    ScanPrinted(ns[0], Rest(ns[1..], more));
  }

  predicate Readable(ids: seq<nat>, vocab: nat) { forall id <- ids :: id < vocab && id <= INT32_MAX }

  predicate Small(ids: seq<nat>) { forall id <- ids :: id <= SIZE_MAX }

  /** Reading the first i of some numbers. */
  lemma {:induction false} ReadRest(ns: seq<nat>, i: nat, vocab: nat, more: string)
    requires i <= |ns| && Small(ns)
    ensures ReadIds(i, vocab, Rest(ns, more))
         == if Readable(ns[..i], vocab) then Some((ns[..i], Rest(ns[i..], more))) else None
    decreases i
  {
    hide ScanNumber, Rest;
    if i > 0 {
      ReadRest(ns, i - 1, vocab, more);
      assert ns[..i] == ns[..i - 1] + [ns[i - 1]];
      assert ns[i - 1..][0] == ns[i - 1] && ns[i - 1..][1..] == ns[i..];
      assert ns[i - 1] in ns;
      ScanRest(ns[i - 1..], more);
      ReadableOne(ns[..i - 1], ns[i - 1], vocab);
    } else {
      assert ns[0..] == ns;
    }
  }

  lemma ReadableOne(ids: seq<nat>, id: nat, vocab: nat)
    ensures Readable(ids + [id], vocab) <==> Readable(ids, vocab) && id < vocab && id <= INT32_MAX
  {
    assert id in ids + [id] && forall x <- ids :: x in ids + [id];
    assert forall x <- ids + [id] :: x in ids || x == id;
  }

  /** A case that fits the reader's buffers and the vocabulary. */
  predicate Fits(c: Case, limits: Limits) {
    && 0 < |c.prompt| <= limits.promptCap && 0 < |c.candidates| <= limits.candidateCap
    && Readable(c.prompt, limits.vocab) && Readable(c.candidates, limits.vocab)
  }

  /** The lengths and ids of a case are machine numbers. */
  predicate Machine(c: Case) {
    |c.prompt| <= SIZE_MAX && |c.candidates| <= SIZE_MAX && Small(c.prompt) && Small(c.candidates)
  }

  lemma ReadLine(c: Case, limits: Limits, more: string)
    requires Machine(c)
    ensures ReadCase(|c.prompt|, limits, Rest([|c.candidates|] + c.prompt + c.candidates, more))
         == if Fits(c, limits) then Some((c, Rest([], more))) else None
  {
    hide ScanNumber, Rest, ReadIds;
    var ns := [|c.candidates|] + c.prompt + c.candidates;
    ScanRest(ns, more);
    var tail := c.prompt + c.candidates;
    assert ns[1..] == tail;
    ReadRest(tail, |c.prompt|, limits.vocab, more);
    assert tail[..|c.prompt|] == c.prompt && tail[|c.prompt|..] == c.candidates;
    ReadRest(c.candidates, |c.candidates|, limits.vocab, more);
    assert c.candidates[..|c.candidates|] == c.candidates && c.candidates[|c.candidates|..] == [];
  }

  /** The first case that does not fit. */
  function FirstUnfit(cases: seq<Case>, limits: Limits): (i: nat)
    ensures i <= |cases|
    ensures (forall k :: 0 <= k < i ==> Fits(cases[k], limits)) && (i < |cases| ==> !Fits(cases[i], limits))
    decreases |cases|
  {
    if cases == [] || !Fits(cases[0], limits) then 0 else 1 + FirstUnfit(cases[1..], limits)
  }

  lemma WireScan(cases: seq<Case>)
    requires cases != [] && Machine(cases[0])
    ensures ScanNumber(WireInput(cases))
         == Got(|cases[0].prompt|,
                Rest([|cases[0].candidates|] + cases[0].prompt + cases[0].candidates, WireInput(cases[1..])))
  {
    hide ScanNumber, Spaced, Rest, Print, Numbers;
    var c := cases[0];
    var more := WireInput(cases[1..]);
    NumbersRest(c, more);
    RestStarts([|c.candidates|] + c.prompt + c.candidates, more);
    ScanPrinted(|c.prompt|, Rest([|c.candidates|] + c.prompt + c.candidates, more));
  }

  lemma RestStarts(ns: seq<nat>, more: string)
    ensures Rest(ns, more) != "" && IsSpace(Rest(ns, more)[0])
  {
    hide Print;
  }

  lemma NumbersRest(c: Case, more: string)
    ensures Spaced(Numbers(c)) + "\n" + more
         == Print(|c.prompt|) + Rest([|c.candidates|] + c.prompt + c.candidates, more)
  {
    hide Spaced, Print, Rest;
    var ns := Numbers(c);
    JoinedRest(ns, more);
    assert ns[0] == |c.prompt| && ns[1..] == [|c.candidates|] + c.prompt + c.candidates;
  }

  lemma {:induction false} ReadWire(cases: seq<Case>, limits: Limits, index: nat, input: string)
    requires forall c <- cases :: Machine(c)
    requires ScanNumber(input) == ScanNumber(WireInput(cases))
    ensures ReadFrom(limits, input, index)
         == if FirstUnfit(cases, limits) == |cases| then Ok(cases)
             else Err(InvalidCase(index + FirstUnfit(cases, limits)))
    decreases |cases|
  {
    hide ScanNumber, ReadCase, Rest, Fits;
    if cases == [] {
      ScanNothing();
    } else {
      var c := cases[0];
      var more := WireInput(cases[1..]);
      assert Machine(c);
      WireScan(cases);
      hide WireInput, Machine;
      ReadLine(c, limits, more);
      if Fits(c, limits) {
        RestNone(more);
        assert forall d <- cases[1..] :: d in cases;
        ReadWire(cases[1..], limits, index + 1, Rest([], more));
        assert [c] + cases[1..] == cases;
      }
    }
  }

  lemma RestNone(more: string)
    ensures ScanNumber(Rest([], more)) == ScanNumber(more)
  {
    hide ScanNumber;
    ScanSkips('\n', more);
  }

  lemma ScanNothing()
    ensures ScanNumber(WireInput([])) == End
  {
  }

  /** Reading what was written gives the same cases back exactly when every case fits;
      otherwise the reader names the first that does not. */
  lemma RoundTrip(cases: seq<Case>, limits: Limits)
    requires cases != [] && forall c <- cases :: Machine(c)
    ensures (forall c <- cases :: Fits(c, limits)) ==> Read(limits, WireInput(cases)) == Ok(cases)
    ensures !(forall c <- cases :: Fits(c, limits)) ==>
              Read(limits, WireInput(cases)) == Err(InvalidCase(FirstUnfit(cases, limits)))
  {
    hide ReadFrom, WireInput, Fits, Machine;
    ReadWire(cases, limits, 0, WireInput(cases));
    var i := FirstUnfit(cases, limits);
    if i < |cases| {
      assert cases[i] in cases && !Fits(cases[i], limits);
    } else {
      forall c <- cases
        ensures Fits(c, limits)
      {
        var k :| 0 <= k < |cases| && cases[k] == c;
      }
    }
  }

  // ---- what the reader accepts ------------------------------------------------------------

  predicate Spaces(s: string) { forall c <- s :: c in " \t\n\r\U{B}\U{C}" }

  predicate Digits(s: string) { s != "" && forall c <- s :: c in "0123456789" }

  lemma ClassesAre(c: char)
    ensures IsSpace(c) <==> c in " \t\n\r\U{B}\U{C}"
    ensures IsDigit(c) <==> c in "0123456789"
  {
  }

  lemma SpacesAre(s: string)
    ensures Spaces(s) <==> forall c <- s :: IsSpace(c)
    ensures Digits(s) <==> s != "" && AllDigits(s)
  {
    hide IsSpace, IsDigit;
    forall c <- s
      ensures IsSpace(c) <==> c in " \t\n\r\U{B}\U{C}"
      ensures IsDigit(c) <==> c in "0123456789"
    {
      ClassesAre(c);
    }
  }

  /** White space is skipped up to the first other character, or the end. */
  lemma {:induction false} SkipIs(s: string) returns (k: nat)
    ensures k <= |s| && Spaces(s[..k]) && SkipSpaces(s) == s[k..]
    decreases |s|
  {
    hide IsSpace;
    k := 0;
    if s != "" && IsSpace(s[0]) {
      ClassesAre(s[0]);
      k := SkipIs(s[1..]);
      k := k + 1;
      assert s[..k] == [s[0]] + s[1..][..k - 1];
    }
  }

  lemma {:induction false} SkipsTo(s: string, k: nat)
    requires k <= |s| && Spaces(s[..k]) && (k < |s| ==> !IsSpace(s[k]))
    ensures SkipSpaces(s) == s[k..]
    decreases k
  {
    hide IsSpace;
    if k > 0 {
      assert s[0] == s[..k][0];
      ClassesAre(s[0]);
      assert s[1..][..k - 1] == s[..k][1..];
      SkipsTo(s[1..], k - 1);
    } else {
      assert s[0..] == s;
    }
  }

  lemma {:induction false} ValueAppend(a: string, b: string)
    requires AllDigits(a) && AllDigits(b)
    ensures AllDigits(a + b) && Value(a + b) == Value(a) * Pow10(|b|) + Value(b)
    decreases |b|
  {
    assert AllDigits(a + b);
    if b == "" {
      assert a + b == a;
    } else {
      var front, last := b[..|b| - 1], b[|b| - 1];
      assert (a + b)[..|a + b| - 1] == a + front;
      ValueAppend(a, front);
      hide AllDigits;
      TenTimes(Value(a), Pow10(|front|), Value(front), last as nat - '0' as nat);
    }
  }

  lemma TenTimes(a: nat, p: nat, v: nat, d: int)
    ensures (a * p + v) * 10 + d == a * (10 * p) + (v * 10 + d)
  {
  }

  /** The value of digits: each counts ten times what the one after it does. */
  lemma ValueIs(a: string, b: string, c: char)
    requires AllDigits(a) && AllDigits(b) && IsDigit(c)
    ensures AllDigits(a + b) && Value(a + b) == Value(a) * Pow10(|b|) + Value(b)
    ensures Value([c]) == c as nat - '0' as nat
  {
    ValueAppend(a, b);
    assert [c][..0] == "";
  }

  /** White space, a sign or none, and digits of a value below two to the 64th; with a minus
      the C library negates it to that modulus. */
  ghost predicate Spells(text: string, k: nat, sign: string, n: nat) {
    && (sign == "" || sign == "+" || sign == "-")
    && k + |sign| <= |text| && Spaces(text[..k]) && text[k..k + |sign|] == sign
    && var digits := text[k + |sign|..];
       && Digits(digits) && AllDigits(digits) && Value(digits) < 18446744073709551616
       && n == if sign == "-" then (18446744073709551616 - Value(digits)) % 18446744073709551616 else Value(digits)
  }

  /** For every text: it is read as a number if and only if it spells it and does not begin
      with a minus. */
  lemma NumberExactly(text: string, n: nat)
    ensures Number(text) == Some(n)
       <==> text != "" && text[0] != '-' && exists k: nat, sign: string :: Spells(text, k, sign, n)
  {
    hide Value, SkipSpaces;
    if text != "" && text[0] != '-' {
      var k := SkipIs(text);
      var t := text[k..];
      var sign := if t != "" && (t[0] == '+' || t[0] == '-') then [t[0]] else "";
      SpacesAre(t[|sign|..]);
      assert t[|sign|..] == text[k + |sign|..];
      if Number(text) == Some(n) {
        assert text[k..k + |sign|] == sign;
        assert Spells(text, k, sign, n);
      }
      if l: nat, other: string :| Spells(text, l, other, n) {
        SpelledOnce(text, l, other, n);
      }
    }
  }

  lemma SpelledOnce(text: string, k: nat, sign: string, n: nat)
    requires text != "" && text[0] != '-' && Spells(text, k, sign, n)
    ensures Number(text) == Some(n)
  {
    hide Value, SkipSpaces;
    var digits := text[k + |sign|..];
    SpacesAre(digits);
    assert sign != "" ==> text[k..k + |sign|][0] == text[k];
    assert sign == "" ==> text[k] == digits[0] && digits[0] in digits;
    assert !IsSpace(text[k]);
    SkipsTo(text, k);
    var t := text[k..];
    assert t[|sign|..] == digits;
  }

  /** The longest run without white space at the start, cut at 23 characters. */
  lemma {:induction false} WordIs(s: string, most: nat)
    ensures var n := Word(s, most);
      (forall c <- s[..n] :: !IsSpace(c)) && (n == most || n == |s| || IsSpace(s[n]))
    decreases most
  {
    hide IsSpace;
    if most > 0 && s != "" && !IsSpace(s[0]) {
      WordIs(s[1..], most - 1);
      var n := Word(s[1..], most - 1);
      assert s[..n + 1] == [s[0]] + s[1..][..n];
    }
  }

  /** Where one number is read: after white space a word of at most 23 characters that is one. */
  ghost predicate ReadsAt(input: string, k: nat, m: nat, n: nat, rest: string) {
    && k < m <= |input| && m - k <= 23 && Spaces(input[..k]) && (forall c <- input[k..m] :: !Spaces([c]))
    && (m - k == 23 || m == |input| || Spaces([input[m]]))
    && Number(input[k..m]) == Some(n) && rest == input[m..]
  }

  lemma OneSpace(c: char)
    ensures Spaces([c]) <==> IsSpace(c)
  {
    ClassesAre(c);
    assert c in [c];
  }

  /** For every input: which number is read from it, and what is left; and when there is none. */
  lemma ScanExactly(input: string, n: nat, rest: string)
    ensures ScanNumber(input) == End <==> Spaces(input)
    ensures ScanNumber(input) == Got(n, rest) <==> exists k: nat, m: nat :: ReadsAt(input, k, m, n, rest)
  {
    hide IsSpace, Number, Word, SkipSpaces, Spaces;
    var k := SkipIs(input);
    var t := input[k..];
    SpacesPrefix(input, k);
    if t != "" {
      var w := Word(t, TOKEN);
      WordIs(t, TOKEN);
      forall c: char
        ensures Spaces([c]) <==> IsSpace(c)
      {
        OneSpace(c);
      }
      NoEmptyNumber();
      assert t[..w] == input[k..k + w] && t[w..] == input[k + w..];
      if ScanNumber(input) == Got(n, rest) {
        assert ReadsAt(input, k, k + w, n, rest);
      }
    }
    if l: nat, m: nat :| ReadsAt(input, l, m, n, rest) {
      ReadOnce(input, l, m, n, rest);
    }
  }

  lemma NoEmptyNumber()
    ensures Number("") == None
  {
  }

  lemma SpacesPrefix(input: string, k: nat)
    requires k <= |input| && Spaces(input[..k]) && SkipSpaces(input) == input[k..]
    ensures input[k..] == "" <==> Spaces(input)
    ensures k < |input| ==> !IsSpace(input[k])
  {
    hide IsSpace;
    if input[k..] == "" {
      assert input[..k] == input;
    } else {
      assert input[k] == input[k..][0];
      ClassesAre(input[k]);
      assert input[k] in input;
    }
  }

  lemma {:induction false} WordOf(s: string, m: nat, most: nat)
    requires m <= |s| && m <= most && (forall c <- s[..m] :: !IsSpace(c)) && (m == most || m == |s| || IsSpace(s[m]))
    ensures Word(s, most) == m
    decreases m
  {
    hide IsSpace;
    if m > 0 {
      assert s[0] == s[..m][0];
      assert s[1..][..m - 1] == s[..m][1..];
      WordOf(s[1..], m - 1, most - 1);
    }
  }

  lemma ReadOnce(input: string, k: nat, m: nat, n: nat, rest: string)
    requires ReadsAt(input, k, m, n, rest)
    ensures ScanNumber(input) == Got(n, rest)
  {
    hide IsSpace, Number, Word, SkipSpaces, Spaces;
    forall c: char
      ensures Spaces([c]) <==> IsSpace(c)
    {
      OneSpace(c);
    }
    assert input[k] == input[k..m][0];
    SkipsTo(input, k);
    var t := input[k..];
    assert t[..m - k] == input[k..m] && t[m - k..] == rest;
    assert m < |input| ==> t[m - k] == input[m];
    WordOf(t, m - k, TOKEN);
  }

  // ---- the cases of every input ------------------------------------------------------------

  /** These numbers are read one after the other, and this is left. */
  predicate Scans(input: string, ns: seq<nat>, rest: string)
    decreases |ns|
  {
    if ns == [] then input == rest
    else
      var next := ScanNumber(input);
      next.Got? && next.value == ns[0] && Scans(next.rest, ns[1..], rest)
  }

  lemma {:induction false} ScansAppend(input: string, a: seq<nat>, mid: string, b: seq<nat>, rest: string)
    requires Scans(input, a, mid)
    ensures Scans(input, a + b, rest) <==> Scans(mid, b, rest)
    decreases |a|
  {
    hide ScanNumber;
    if a == [] {
      assert a + b == b;
    } else {
      assert (a + b)[1..] == a[1..] + b;
      ScansAppend(ScanNumber(input).rest, a[1..], mid, b, rest);
    }
  }

  lemma {:induction false} ScansFirst(input: string, a: seq<nat>, b: seq<nat>, rest: string) returns (mid: string)
    requires Scans(input, a + b, rest)
    ensures Scans(input, a, mid)
    decreases |a|
  {
    hide ScanNumber;
    if a == [] {
      mid := input;
    } else {
      assert (a + b)[1..] == a[1..] + b;
      mid := ScansFirst(ScanNumber(input).rest, a[1..], b, rest);
    }
  }

  lemma ScansOne(input: string, x: nat, rest: string)
    ensures Scans(input, [x], rest) <==> ScanNumber(input) == Got(x, rest)
  {
    assert [x][1..] == [];
  }

  lemma {:induction false} ReadIdsIs(n: nat, vocab: nat, input: string, ids: seq<nat>, rest: string)
    ensures ReadIds(n, vocab, input) == Some((ids, rest))
       <==> |ids| == n && Readable(ids, vocab) && Scans(input, ids, rest)
    decreases n
  {
    hide ScanNumber, Readable, Scans;
    if n == 0 {
      NoIds(vocab, input, rest);
    } else {
      if ReadIds(n, vocab, input) == Some((ids, rest)) {
        var before := ReadIds(n - 1, vocab, input).value;
        var x := ids[|ids| - 1];
        ReadIdsIs(n - 1, vocab, input, before.0, before.1);
        ScansAppend(input, before.0, before.1, [x], rest);
        ScansOne(before.1, x, rest);
        ReadableOne(before.0, x, vocab);
      }
      if |ids| == n && Readable(ids, vocab) && Scans(input, ids, rest) {
        var front, x := ids[..n - 1], ids[n - 1];
        assert ids == front + [x];
        var mid := ScansFirst(input, front, [x], rest);
        ReadableOne(front, x, vocab);
        ReadIdsIs(n - 1, vocab, input, front, mid);
        ScansAppend(input, front, mid, [x], rest);
        ScansOne(mid, x, rest);
      }
    }
  }

  lemma NoIds(vocab: nat, input: string, rest: string)
    ensures Readable([], vocab) && (Scans(input, [], rest) <==> input == rest)
  {
  }

  lemma ReadCaseIs(np: nat, limits: Limits, input: string, c: Case, rest: string)
    ensures ReadCase(np, limits, input) == Some((c, rest))
       <==> |c.prompt| == np && Fits(c, limits) && Scans(input, [|c.candidates|] + c.prompt + c.candidates, rest)
  {
    hide ScanNumber, ReadIds, Readable, Scans;
    var nc := |c.candidates|;
    if ReadCase(np, limits, input) == Some((c, rest)) {
      var one := ScanNumber(input).rest;
      var two := ReadIds(np, limits.vocab, one).value.1;
      ReadIdsIs(np, limits.vocab, one, c.prompt, two);
      ReadIdsIs(ScanNumber(input).value, limits.vocab, two, c.candidates, rest);
      ScansOne(input, nc, one);
      ScansAppend(input, [nc], one, c.prompt, two);
      ScansAppend(input, [nc] + c.prompt, two, c.candidates, rest);
    }
    if |c.prompt| == np && Fits(c, limits) && Scans(input, [nc] + c.prompt + c.candidates, rest) {
      var two := ScansFirst(input, [nc] + c.prompt, c.candidates, rest);
      var one := ScansFirst(input, [nc], c.prompt, two);
      ScansOne(input, nc, one);
      ScansAppend(input, [nc], one, c.prompt, two);
      ScansAppend(input, [nc] + c.prompt, two, c.candidates, rest);
      ReadIdsIs(np, limits.vocab, one, c.prompt, two);
      ReadIdsIs(nc, limits.vocab, two, c.candidates, rest);
    }
  }

  /** The numbers of some cases: the two lengths and the two lists of each. */
  function AllNumbers(cases: seq<Case>): seq<nat>
    decreases |cases|
  {
    if cases == [] then [] else Numbers(cases[0]) + AllNumbers(cases[1..])
  }

  predicate AllFit(cases: seq<Case>, limits: Limits) { forall c <- cases :: Fits(c, limits) }

  /** So many fitting cases are read, and this is left. */
  predicate ReadsCases(limits: Limits, input: string, cases: seq<Case>, rest: string) {
    AllFit(cases, limits) && Scans(input, AllNumbers(cases), rest)
  }

  /** No fitting case is left, though a number is. */
  ghost predicate NoCase(limits: Limits, input: string) {
    ScanNumber(input).Got? && forall c, rest :: Fits(c, limits) ==> !Scans(input, Numbers(c), rest)
  }

  /** How the reading of the cases from number `index` on ends. */
  ghost predicate EndsSo(limits: Limits, input: string, index: nat, r: Result<seq<Case>, ReadError>) {
    exists cases, rest :: ReadsCases(limits, input, cases, rest) &&
      match r
      case Ok(read) => read == cases && ScanNumber(rest) == End
      case Err(InvalidCase(i)) => i == index + |cases| && NoCase(limits, rest)
      case Err(MissingInput) => ScanNumber(rest) == Malformed
  }

  lemma NumbersSplit(c: Case)
    ensures Numbers(c) == [|c.prompt|] + ([|c.candidates|] + c.prompt + c.candidates)
  {
  }

  lemma CaseRead(limits: Limits, input: string, c: Case, rest: string)
    ensures Fits(c, limits) && Scans(input, Numbers(c), rest)
       <==>
       && ScanNumber(input).Got?
       && ReadCase(ScanNumber(input).value, limits, ScanNumber(input).rest) == Some((c, rest))
  {
    hide ScanNumber, ReadCase, Fits, Scans;
    NumbersSplit(c);
    var tail := [|c.candidates|] + c.prompt + c.candidates;
    if ScanNumber(input).Got? {
      var np, one := ScanNumber(input).value, ScanNumber(input).rest;
      ReadCaseIs(np, limits, one, c, rest);
      ScansOne(input, np, one);
      ScansAppend(input, [np], one, tail, rest);
    }
    if Scans(input, Numbers(c), rest) {
      var one := ScansFirst(input, [|c.prompt|], tail, rest);
      ScansOne(input, |c.prompt|, one);
    }
  }

  lemma OneMoreCase(limits: Limits, input: string, c: Case, mid: string, cases: seq<Case>, rest: string)
    requires Fits(c, limits) && Scans(input, Numbers(c), mid) && ReadsCases(limits, mid, cases, rest)
    ensures ReadsCases(limits, input, [c] + cases, rest)
  {
    hide Fits, Scans;
    assert ([c] + cases)[1..] == cases;
    ScansAppend(input, Numbers(c), mid, AllNumbers(cases), rest);
  }

  lemma NoCases(limits: Limits, input: string)
    ensures ReadsCases(limits, input, [], input)
  {
  }

  lemma {:induction false} ReadFromEnds(limits: Limits, input: string, index: nat)
    ensures EndsSo(limits, input, index, ReadFrom(limits, input, index))
    decreases |input|
  {
    hide ScanNumber, ReadCase, Fits, Scans, ReadsCases, NoCase;
    var r := ReadFrom(limits, input, index);
    NoCases(limits, input);
    match ScanNumber(input)
    case End => assert ReadsCases(limits, input, [], input);
    case Malformed => assert ReadsCases(limits, input, [], input);
    case Got(np, after) =>
      match ReadCase(np, limits, after)
      case None =>
        Refuses(limits, input);
        assert ReadsCases(limits, input, [], input);
      case Some(one) =>
        CaseRead(limits, input, one.0, one.1);
        ReadFromEnds(limits, one.1, index + 1);
        var more := ReadFrom(limits, one.1, index + 1);
        var cases, rest :| ReadsCases(limits, one.1, cases, rest) &&
          match more
          case Ok(read) => read == cases && ScanNumber(rest) == End
          case Err(InvalidCase(i)) => i == index + 1 + |cases| && NoCase(limits, rest)
          case Err(MissingInput) => ScanNumber(rest) == Malformed;
        OneMoreCase(limits, input, one.0, one.1, cases, rest);
        assert ReadsCases(limits, input, [one.0] + cases, rest);
  }

  lemma Refuses(limits: Limits, input: string)
    requires ScanNumber(input).Got? && ReadCase(ScanNumber(input).value, limits, ScanNumber(input).rest) == None
    ensures NoCase(limits, input)
  {
    hide ScanNumber, ReadCase, Fits, Scans, Numbers;
    forall c, rest | Fits(c, limits)
      ensures !Scans(input, Numbers(c), rest)
    {
      CaseRead(limits, input, c, rest);
    }
  }

  /** For every input: the reader answers with the cases whose numbers stand in it, if they all
      fit and nothing else does; else with the number of the first that does not fit, or
      that the input is missing where a word is no number or nothing is there at all. */
  lemma ReadEnds(limits: Limits, input: string)
    ensures var r := Read(limits, input);
      if r == Err(MissingInput) then EndsSo(limits, input, 0, r) || Spaces(input)
      else EndsSo(limits, input, 0, r) && r != Ok([])
  {
    hide ScanNumber, ReadFrom, ReadsCases, NoCase;
    ReadFromEnds(limits, input, 0);
    if ReadFrom(limits, input, 0) == Ok([]) {
      var rest :| ReadsCases(limits, input, [], rest) && ScanNumber(rest) == End;
      NothingRead(limits, input, rest);
      ScanExactly(input, 0, "");
    }
  }

  lemma NothingRead(limits: Limits, input: string, rest: string)
    requires ReadsCases(limits, input, [], rest)
    ensures input == rest
  {
  }
}
