// What the switch counter of SwitchFrames counts on every list of tokens, balanced or not,
// said by the positions of the tokens alone.
module SwitchPositions {
  import opened Results
  import opened CTokens
  import opened SwitchFrames

  // ---- positions ------------------------------------------------------------------------

  /** A token that is this text and no identifier. */
  predicate Is(toks: seq<Tok>, k: int, t: string) { 0 <= k < |toks| && toks[k].kind != Id && toks[k].text == t }

  predicate SwitchAt(toks: seq<Tok>, k: int) { 0 <= k < |toks| && toks[k].kind == Id && toks[k].text == "switch" }

  /** The word `default` with a colon after it. */
  predicate DefaultAt(toks: seq<Tok>, k: int) {
    0 <= k < |toks| - 1 && toks[k].kind == Id && toks[k].text == "default" && toks[k + 1].text == ":"
  }

  /** How many more of these opened than closed before position n. */
  function Depth(toks: seq<Tok>, open: string, close: string, n: nat): int {
    if n == 0 then 0
    else
      Depth(toks, open, close, n - 1)
      + if Is(toks, n - 1, open) then 1 else if Is(toks, n - 1, close) then -1 else 0
  }

  function Braces(toks: seq<Tok>, n: nat): int { Depth(toks, "{", "}", n) }

  function Parens(toks: seq<Tok>, n: nat): int { Depth(toks, "(", ")", n) }

  /** The last switch word before n, which no `;` and no `{` on its depth of parentheses took since. */
  ghost predicate Waits(toks: seq<Tok>, w: nat, n: nat) {
    && w < n && SwitchAt(toks, w)
    && forall k :: w < k < n ==>
         !SwitchAt(toks, k) && ((Is(toks, k, ";") || Is(toks, k, "{")) ==> Parens(toks, k) != Parens(toks, w))
  }

  /** A brace that opens the body of a switch: one waits on its depth of parentheses. */
  ghost predicate OpensBody(toks: seq<Tok>, i: nat) {
    Is(toks, i, "{") && exists w :: Waits(toks, w, i) && Parens(toks, w) == Parens(toks, i)
  }

  /** The brace at i is not closed before n. */
  ghost predicate Open(toks: seq<Tok>, i: nat, n: nat) {
    i < n && forall k :: i < k <= n ==> Braces(toks, k) > Braces(toks, i)
  }

  ghost predicate ClosedAt(toks: seq<Tok>, i: nat, j: nat) {
    Open(toks, i, j) && Is(toks, j, "}") && Braces(toks, j) == Braces(toks, i) + 1
  }

  /** A `default:` directly in the braces opened at i, on their depth of parentheses. */
  ghost predicate HasDefault(toks: seq<Tok>, i: nat, n: nat) {
    exists k ::
      i < k < n && DefaultAt(toks, k) && Braces(toks, k) == Braces(toks, i) + 1 && Parens(toks, k) == Parens(toks, i)
  }

  /** A body of a switch that is closed before n and has a default. */
  ghost predicate Counted(toks: seq<Tok>, i: nat, n: nat) {
    OpensBody(toks, i) && exists j: nat :: j < n && ClosedAt(toks, i, j) && HasDefault(toks, i, j)
  }

  // ---- the machine after so many tokens ----------------------------------------------------

  function After(toks: seq<Tok>, n: nat): State
    requires n <= |toks|
  {
    if n == 0 then START else Step(After(toks, n - 1), SymAt(toks, n - 1))
  }

  lemma {:induction false} RunFrom(toks: seq<Tok>, i: nat)
    requires i <= |toks|
    ensures Run(After(toks, i), SymsFrom(toks, i)) == After(toks, |toks|)
    decreases |toks| - i
  {
    hide Step;
    if i < |toks| {
      RunFrom(toks, i + 1);
    }
  }

  /** The symbol of a token, and what it does to the depths. */
  lemma SymbolIs(toks: seq<Tok>, n: nat)
    requires n < |toks|
    ensures SymAt(toks, n) == SwitchWord <==> SwitchAt(toks, n)
    ensures SymAt(toks, n) == DefaultLabel <==> DefaultAt(toks, n)
    ensures SymAt(toks, n) == LParen <==> Is(toks, n, "(")
    ensures SymAt(toks, n) == RParen <==> Is(toks, n, ")")
    ensures SymAt(toks, n) == LBrace <==> Is(toks, n, "{")
    ensures SymAt(toks, n) == RBrace <==> Is(toks, n, "}")
    ensures SymAt(toks, n) == Semicolon <==> Is(toks, n, ";")
  {
  }

  lemma DepthsAfter(toks: seq<Tok>, n: nat)
    requires n < |toks|
    ensures var s := SymAt(toks, n);
      && Braces(toks, n + 1) == Braces(toks, n) + (if s == LBrace then 1 else if s == RBrace then -1 else 0)
      && Parens(toks, n + 1) == Parens(toks, n) + (if s == LParen then 1 else if s == RParen then -1 else 0)
  {
    hide SymAt, Is;
    SymbolIs(toks, n);
  }

  ghost predicate DepthsAre(toks: seq<Tok>, n: nat, st: State) {
    st.braces == Braces(toks, n) && st.parens == Parens(toks, n)
  }

  /** The pending switch is the one that waits. */
  ghost predicate PendingIs(toks: seq<Tok>, n: nat, st: State) {
    match st.pending
    case None => forall w :: !Waits(toks, w, n)
    case Some(p) => exists w :: Waits(toks, w, n) && Parens(toks, w) == p
  }

  lemma OneWaits(toks: seq<Tok>, v: nat, w: nat, n: nat)
    requires Waits(toks, v, n) && Waits(toks, w, n)
    ensures v == w
  {
  }

  /** Takes the switch that waits since w. */
  ghost predicate Takes(toks: seq<Tok>, w: nat, k: nat) {
    (Is(toks, k, ";") || Is(toks, k, "{")) && Parens(toks, k) == Parens(toks, w)
  }

  lemma WaitsAfter(toks: seq<Tok>, w: nat, n: nat)
    requires n < |toks|
    ensures Waits(toks, w, n) ==> w < n
    ensures w == n ==> (Waits(toks, w, n + 1) <==> SwitchAt(toks, n))
    ensures w != n ==> (Waits(toks, w, n + 1) <==> Waits(toks, w, n) && !SwitchAt(toks, n) && !Takes(toks, w, n))
  {
    hide SwitchAt, Is, Parens;
  }

  lemma PendingAfter(toks: seq<Tok>, n: nat, st: State)
    requires n < |toks| && DepthsAre(toks, n, st) && PendingIs(toks, n, st)
    ensures PendingIs(toks, n + 1, Step(st, SymAt(toks, n)))
  {
    hide SymAt, SwitchAt, Is, Parens, Braces, Waits, Mark;
    SymbolIs(toks, n);
    MarkKeeps(st);
    var t, m := Step(st, SymAt(toks, n)), n + 1;
    WaitsAfter(toks, n, n);
    if SwitchAt(toks, n) {
      assert Waits(toks, n, m);
    } else if st.pending.Some? {
      var w :| Waits(toks, w, n) && Parens(toks, w) == st.pending.value;
      WaitsAfter(toks, w, n);
      assert t.pending == if Takes(toks, w, n) then None else st.pending;
      forall v | Waits(toks, v, m)
        ensures v == w
      {
        WaitsAfter(toks, v, n);
        OneWaits(toks, v, w, n);
      }
    } else {
      forall v
        ensures !Waits(toks, v, m)
      {
        WaitsAfter(toks, v, n);
      }
    }
  }

  lemma MarkKeeps(st: State)
    ensures Mark(st) == st.(frames := Mark(st).frames) && |Mark(st).frames| == |st.frames|
  {
  }

  // ---- the frames --------------------------------------------------------------------------

  /** A body of a switch that is still open. */
  ghost predicate OpenBody(toks: seq<Tok>, i: nat, n: nat) { OpensBody(toks, i) && Open(toks, i, n) }

  /** The frames are those of the open bodies, in order. */
  ghost predicate FramesAre(toks: seq<Tok>, n: nat, st: State, opens: seq<nat>) {
    && |opens| == |st.frames|
    && (forall a, b :: 0 <= a < b < |opens| ==> opens[a] < opens[b])
    && (forall a :: 0 <= a < |opens| ==>
         && OpenBody(toks, opens[a], n)
         && st.frames[a].braces == Braces(toks, opens[a]) + 1 && st.frames[a].parens == Parens(toks, opens[a])
         && (st.frames[a].hasDefault <==> HasDefault(toks, opens[a], n)))
    && (forall i: nat :: OpenBody(toks, i, n) ==> i in opens)
  }

  lemma OpenAfter(toks: seq<Tok>, i: nat, n: nat)
    requires n < |toks|
    ensures Open(toks, i, n) ==> i < n && Braces(toks, n) > Braces(toks, i)
    ensures Open(toks, i, n + 1) <==> (i == n || Open(toks, i, n)) && Braces(toks, n + 1) > Braces(toks, i)
    ensures ClosedAt(toks, i, n) <==>
            Open(toks, i, n) && SymAt(toks, n) == RBrace && Braces(toks, n) == Braces(toks, i) + 1
  {
    hide Braces, Is, SymAt;
    SymbolIs(toks, n);
  }

  lemma DefaultAfter(toks: seq<Tok>, i: nat, n: nat)
    requires n < |toks|
    ensures HasDefault(toks, i, n + 1) <==>
            || HasDefault(toks, i, n)
            || (&& i < n && SymAt(toks, n) == DefaultLabel
                && Braces(toks, n) == Braces(toks, i) + 1 && Parens(toks, n) == Parens(toks, i))
  {
    hide Braces, Parens, DefaultAt, SymAt;
    SymbolIs(toks, n);
  }

  /** Of two open braces the later one is deeper. */
  lemma LaterIsDeeper(toks: seq<Tok>, i: nat, j: nat, n: nat)
    requires Open(toks, i, n) && i < j <= n
    ensures Braces(toks, j) > Braces(toks, i)
  {
    hide Braces;
  }

  /** Only the last open body can be right around position n. */
  lemma OnlyTheLast(toks: seq<Tok>, n: nat, st: State, opens: seq<nat>, a: nat)
    requires FramesAre(toks, n, st, opens) && DepthsAre(toks, n, st) && n < |toks|
    requires a < |opens| && st.frames[a].braces == st.braces
    ensures a == |opens| - 1
  {
    hide Braces, Parens, OpensBody, HasDefault, Open;
    var last := |opens| - 1;
    if a < last {
      OpenAfter(toks, opens[last], n);
      LaterIsDeeper(toks, opens[a], opens[last], n);
    }
  }

  lemma OpensAfter(toks: seq<Tok>, n: nat, st: State)
    requires n < |toks| && DepthsAre(toks, n, st) && PendingIs(toks, n, st)
    ensures OpensBody(toks, n) <==> SymAt(toks, n) == LBrace && st.pending == Some(st.parens)
  {
    hide Is, Parens, SymAt, Waits;
    SymbolIs(toks, n);
    forall v, w | Waits(toks, v, n) && Waits(toks, w, n)
      ensures v == w
    {
      OneWaits(toks, v, w, n);
    }
  }

  /** One token on, an open body stays open unless the token closes it, and the token may open one. */
  lemma StaysOpen(toks: seq<Tok>, i: nat, n: nat)
    requires n < |toks|
    ensures OpenBody(toks, i, n + 1) <==>
            if i == n then OpensBody(toks, n) else OpenBody(toks, i, n) && !ClosedAt(toks, i, n)
  {
    hide Braces, Parens, SymAt, Is;
    OpenAfter(toks, i, n);
    DepthsAfter(toks, n);
    SymbolIs(toks, n);
  }

  /** What becomes of an open body: closed by a brace right around it, marked by a default there. */
  lemma BodyAfter(toks: seq<Tok>, n: nat, st: State, opens: seq<nat>, a: nat)
    requires n < |toks| && DepthsAre(toks, n, st) && FramesAre(toks, n, st, opens) && a < |opens|
    ensures opens[a] < n
    ensures var f, s := st.frames[a], SymAt(toks, n);
      && (OpenBody(toks, opens[a], n + 1) <==> s != RBrace || f.braces != st.braces)
      && (HasDefault(toks, opens[a], n + 1) <==>
           f.hasDefault || (s == DefaultLabel && f.braces == st.braces && f.parens == st.parens))
  {
    hide Braces, Parens, SymAt, OpensBody, HasDefault, Open, ClosedAt;
    OpenAfter(toks, opens[a], n);
    StaysOpen(toks, opens[a], n);
    DefaultAfter(toks, opens[a], n);
  }

  lemma NewBody(toks: seq<Tok>, n: nat)
    requires n < |toks|
    ensures OpenBody(toks, n, n + 1) <==> OpensBody(toks, n)
    ensures !HasDefault(toks, n, n + 1)
  {
    hide Braces, Parens, SymAt, OpensBody, Open, ClosedAt, OpenBody;
    StaysOpen(toks, n, n);
  }

  /** Every body open one token on was open before, or is new. */
  lemma BodiesAfter(toks: seq<Tok>, n: nat, st: State, opens: seq<nat>, i: nat)
    requires n < |toks| && FramesAre(toks, n, st, opens) && OpenBody(toks, i, n + 1)
    ensures i in opens || (i == n && OpensBody(toks, n))
  {
    hide Braces, Parens, SymAt, OpensBody, Open, ClosedAt, OpenBody, HasDefault;
    StaysOpen(toks, i, n);
  }

  lemma FramesPush(toks: seq<Tok>, n: nat, st: State, opens: seq<nat>)
    requires n < |toks| && DepthsAre(toks, n, st) && PendingIs(toks, n, st) && FramesAre(toks, n, st, opens)
    requires OpensBody(toks, n)
    ensures FramesAre(toks, n + 1, Step(st, SymAt(toks, n)), opens + [n])
  {
    hide Braces, Parens, SymAt, OpensBody, HasDefault, OpenBody;
    OpensAfter(toks, n, st);
    NewBody(toks, n);
    var m := n + 1;
    forall a | 0 <= a < |opens|
      ensures opens[a] < n && OpenBody(toks, opens[a], m)
      ensures HasDefault(toks, opens[a], m) <==> st.frames[a].hasDefault
    {
      BodyAfter(toks, n, st, opens, a);
    }
    forall i: nat | OpenBody(toks, i, m)
      ensures i in opens + [n]
    {
      BodiesAfter(toks, n, st, opens, i);
    }
  }

  lemma FramesPop(toks: seq<Tok>, n: nat, st: State, opens: seq<nat>)
    requires n < |toks| && DepthsAre(toks, n, st) && FramesAre(toks, n, st, opens)
    requires SymAt(toks, n) == RBrace && opens != [] && st.frames[|opens| - 1].braces == st.braces
    ensures FramesAre(toks, n + 1, Step(st, SymAt(toks, n)), opens[..|opens| - 1])
  {
    hide Braces, Parens, SymAt, OpensBody, HasDefault, OpenBody;
    var m, last := n + 1, |opens| - 1;
    forall a | 0 <= a < |opens|
      ensures OpenBody(toks, opens[a], m) <==> a != last
      ensures HasDefault(toks, opens[a], m) <==> st.frames[a].hasDefault
    {
      BodyAfter(toks, n, st, opens, a);
      if st.frames[a].braces == st.braces {
        OnlyTheLast(toks, n, st, opens, a);
      }
    }
    NoBody(toks, n);
    forall i: nat | OpenBody(toks, i, m)
      ensures i in opens[..last]
    {
      BodiesAfter(toks, n, st, opens, i);
      var a :| 0 <= a < |opens| && opens[a] == i;
      assert opens[..last][a] == i;
    }
  }

  lemma NoBody(toks: seq<Tok>, n: nat)
    requires n < |toks| && SymAt(toks, n) != LBrace
    ensures !OpensBody(toks, n)
  {
    hide Is, SymAt;
    SymbolIs(toks, n);
  }

  lemma FramesStay(toks: seq<Tok>, n: nat, st: State, opens: seq<nat>)
    requires n < |toks| && DepthsAre(toks, n, st) && PendingIs(toks, n, st) && FramesAre(toks, n, st, opens)
    requires !OpensBody(toks, n)
    requires SymAt(toks, n) == RBrace ==> opens == [] || st.frames[|opens| - 1].braces != st.braces
    ensures FramesAre(toks, n + 1, Step(st, SymAt(toks, n)), opens)
  {
    hide Braces, Parens, SymAt, OpensBody, HasDefault, OpenBody;
    OpensAfter(toks, n, st);
    var m, t, last := n + 1, Step(st, SymAt(toks, n)), |opens| - 1;
    forall a | 0 <= a < |opens|
      ensures OpenBody(toks, opens[a], m)
      ensures t.frames[a].braces == st.frames[a].braces && t.frames[a].parens == st.frames[a].parens
      ensures HasDefault(toks, opens[a], m) <==> t.frames[a].hasDefault
    {
      BodyAfter(toks, n, st, opens, a);
      if st.frames[a].braces == st.braces {
        OnlyTheLast(toks, n, st, opens, a);
      }
    }
    forall i: nat | OpenBody(toks, i, m)
      ensures i in opens
    {
      BodiesAfter(toks, n, st, opens, i);
    }
  }

  // ---- the count -----------------------------------------------------------------------------

  lemma CountedAfter(toks: seq<Tok>, i: nat, n: nat)
    requires n < |toks|
    ensures Counted(toks, i, n + 1) <==>
            Counted(toks, i, n) || (OpensBody(toks, i) && ClosedAt(toks, i, n) && HasDefault(toks, i, n))
  {
    hide ClosedAt, HasDefault, OpensBody;
  }

  lemma ClosedNow(toks: seq<Tok>, i: nat, j: nat, n: nat)
    requires n < |toks| && j < n && ClosedAt(toks, i, j)
    ensures !Open(toks, i, n)
  {
    hide Braces;
    OpenAfter(toks, i, j);
    DepthsAfter(toks, j);
    assert Braces(toks, j + 1) == Braces(toks, i);
  }

  /** A body that is open was not counted yet. */
  lemma NotYet(toks: seq<Tok>, i: nat, n: nat)
    requires n < |toks| && Open(toks, i, n)
    ensures !Counted(toks, i, n)
  {
    hide HasDefault, OpensBody, ClosedAt, Open;
    forall j: nat | j < n
      ensures !ClosedAt(toks, i, j)
    {
      if ClosedAt(toks, i, j) {
        ClosedNow(toks, i, j, n);
      }
    }
  }

  ghost function Bodies(toks: seq<Tok>, n: nat): set<nat> { set i: nat | i < n && Counted(toks, i, n) }

  ghost function Words(toks: seq<Tok>, n: nat): set<nat> { set k: nat | k < n && SwitchAt(toks, k) }

  ghost predicate CountsAre(toks: seq<Tok>, n: nat, st: State) {
    st.switches == |Words(toks, n)| && st.withDefault == |Bodies(toks, n)|
  }

  lemma WordsAfter(toks: seq<Tok>, n: nat, st: State)
    requires n < |toks| && st.switches == |Words(toks, n)|
    ensures Step(st, SymAt(toks, n)).switches == |Words(toks, n + 1)|
  {
    hide SymAt, SwitchAt, Mark;
    SymbolIs(toks, n);
    MarkKeeps(st);
    assert Words(toks, n + 1) == if SwitchAt(toks, n) then Words(toks, n) + {n} else Words(toks, n);
  }

  /** The bodies counted with the next token: the last one, if the token closes it and it is marked. */
  lemma BodiesGrow(toks: seq<Tok>, n: nat, st: State, opens: seq<nat>)
    requires n < |toks| && DepthsAre(toks, n, st) && FramesAre(toks, n, st, opens)
    ensures var last := |opens| - 1;
      var counts :=
        SymAt(toks, n) == RBrace && last >= 0 && st.frames[last].braces == st.braces && st.frames[last].hasDefault;
      && Bodies(toks, n + 1) == (if counts then Bodies(toks, n) + {opens[last]} else Bodies(toks, n))
      && (counts ==> opens[last] !in Bodies(toks, n))
  {
    hide Braces, Parens, SymAt, OpensBody, HasDefault, Open, ClosedAt, Counted;
    var last, m := |opens| - 1, n + 1;
    forall i: nat
      ensures Counted(toks, i, m) <==>
              Counted(toks, i, n) || (OpensBody(toks, i) && ClosedAt(toks, i, n) && HasDefault(toks, i, n))
      ensures ClosedAt(toks, i, n) <==>
              Open(toks, i, n) && SymAt(toks, n) == RBrace && Braces(toks, n) == Braces(toks, i) + 1
      ensures Open(toks, i, n) ==> i < n
    {
      CountedAfter(toks, i, n);
      OpenAfter(toks, i, n);
    }
    NewIsUncounted(toks, n);
    forall i: nat | OpensBody(toks, i) && ClosedAt(toks, i, n)
      ensures last >= 0 && i == opens[last] && st.frames[last].braces == st.braces
    {
      assert OpenBody(toks, i, n);
      var a :| 0 <= a < |opens| && opens[a] == i;
      OnlyTheLast(toks, n, st, opens, a);
    }
    if last >= 0 {
      assert OpenBody(toks, opens[last], n);
      NotYet(toks, opens[last], n);
    }
  }

  lemma NewIsUncounted(toks: seq<Tok>, n: nat)
    ensures !Counted(toks, n, n) && !Counted(toks, n, n + 1)
  {
    hide Braces, HasDefault, OpensBody;
  }

  lemma CountsAfter(toks: seq<Tok>, n: nat, st: State, opens: seq<nat>)
    requires n < |toks| && DepthsAre(toks, n, st) && FramesAre(toks, n, st, opens) && CountsAre(toks, n, st)
    ensures CountsAre(toks, n + 1, Step(st, SymAt(toks, n)))
  {
    hide Braces, Parens, SymAt, OpensBody, HasDefault, Open, Bodies, Words;
    WordsAfter(toks, n, st);
    BodiesGrow(toks, n, st, opens);
    MarkKeeps(st);
  }

  lemma {:induction false} Follows(toks: seq<Tok>, n: nat) returns (opens: seq<nat>)
    requires n <= |toks|
    ensures var st := After(toks, n);
      DepthsAre(toks, n, st) && PendingIs(toks, n, st) && FramesAre(toks, n, st, opens) && CountsAre(toks, n, st)
    decreases n
  {
    hide Step, SymAt, OpensBody, HasDefault, Open, OpenBody, Bodies, Words, Waits, FramesAre, CountsAre, PendingIs;
    if n == 0 {
      opens := [];
      NothingYet(toks);
    } else {
      var k := n - 1;
      var before := Follows(toks, k);
      var st := After(toks, k);
      PendingAfter(toks, k, st);
      CountsAfter(toks, k, st, before);
      opens := FramesAfter(toks, k, st, before);
      DepthsStep(toks, k, st);
    }
  }

  lemma DepthsStep(toks: seq<Tok>, n: nat, st: State)
    requires n < |toks| && DepthsAre(toks, n, st)
    ensures DepthsAre(toks, n + 1, Step(st, SymAt(toks, n)))
  {
    hide SymAt, Braces, Parens;
    DepthsAfter(toks, n);
    MarkKeeps(st);
  }

  lemma NothingYet(toks: seq<Tok>)
    ensures DepthsAre(toks, 0, START) && PendingIs(toks, 0, START)
    ensures FramesAre(toks, 0, START, []) && CountsAre(toks, 0, START)
  {
    assert Bodies(toks, 0) == {} && Words(toks, 0) == {};
  }

  lemma FramesAfter(toks: seq<Tok>, n: nat, st: State, opens: seq<nat>) returns (next: seq<nat>)
    requires n < |toks| && DepthsAre(toks, n, st) && PendingIs(toks, n, st) && FramesAre(toks, n, st, opens)
    ensures FramesAre(toks, n + 1, Step(st, SymAt(toks, n)), next)
  {
    hide Step, SymAt, OpensBody, FramesAre, PendingIs;
    FramesMatch(toks, n, st, opens);
    OpensAfter(toks, n, st);
    if OpensBody(toks, n) {
      FramesPush(toks, n, st, opens);
      next := opens + [n];
    } else if SymAt(toks, n) == RBrace && opens != [] && st.frames[|opens| - 1].braces == st.braces {
      FramesPop(toks, n, st, opens);
      next := opens[..|opens| - 1];
    } else {
      FramesStay(toks, n, st, opens);
      next := opens;
    }
  }

  lemma FramesMatch(toks: seq<Tok>, n: nat, st: State, opens: seq<nat>)
    requires FramesAre(toks, n, st, opens)
    ensures |opens| == |st.frames|
  {
  }

  /** On every list of tokens the pass counts the switch words, and the braces that open the
      body of a switch, are closed and have a default directly inside. */
  lemma CountsExactly(toks: seq<Tok>)
    ensures var end := Run(START, SymsFrom(toks, 0));
      && end.switches == |set k: nat | k < |toks| && SwitchAt(toks, k)|
      && end.withDefault == |set i: nat | i < |toks| && Counted(toks, i, |toks|)|
  {
    hide Run, SymsFrom, After, Counted, FramesAre, PendingIs;
    RunFrom(toks, 0);
    AfterNone(toks);
    var opens := Follows(toks, |toks|);
  }

  lemma AfterNone(toks: seq<Tok>)
    ensures After(toks, 0) == START
  {
  }
}
