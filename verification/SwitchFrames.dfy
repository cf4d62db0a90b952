// The switch counter of tools/c23_metrics.py (count): one pass over the
// tokens with a brace depth, a parenthesis depth, a stack of frames for the
// open switch bodies and one pending switch. The machine is compared with
// trees of nested switches, blocks and parenthesised groups.
module SwitchFrames {
  import opened Results
  import opened CTokens

  // ---- the machine ----------------------------------------------------------

  /** A token as the machine sees it; `DefaultLabel` is a `default` followed by `:`. */
  datatype Sym = SwitchWord | DefaultLabel | LParen | RParen | LBrace | RBrace | Semicolon | Other

  datatype Frame = Frame(braces: int, parens: int, hasDefault: bool)

  datatype State = State(frames: seq<Frame>, braces: int, parens: int, pending: Option<int>,
                         switches: nat, withDefault: nat)

  const START := State([], 0, 0, None, 0, 0)

  function TextAt(toks: seq<Tok>, k: int): string {
    if 0 <= k < |toks| then toks[k].text else ""
  }

  function SymAt(toks: seq<Tok>, i: nat): Sym
    requires i < |toks|
  {
    var s := toks[i].text;
    if toks[i].kind == Id then
      if s == "switch" then SwitchWord
      else if s == "default" && TextAt(toks, i + 1) == ":" then DefaultLabel
      else Other
    else if s == "(" then LParen
    else if s == ")" then RParen
    else if s == ";" then Semicolon
    else if s == "{" then LBrace
    else if s == "}" then RBrace
    else Other
  }

  datatype Syms = Nil | Cons(head: Sym, tail: Syms)

  /** The symbols of the tokens from position i on. */
  function SymsFrom(toks: seq<Tok>, i: nat): Syms
    decreases |toks| - i
  {
    if i >= |toks| then Nil else Cons(SymAt(toks, i), SymsFrom(toks, i + 1))
  }

  /** Sets the default flag of the innermost frame when it is at this very depth. */
  function Mark(st: State): State {
    var k := |st.frames| - 1;
    if k >= 0 && st.frames[k].braces == st.braces && st.frames[k].parens == st.parens then
      st.(frames := st.frames[k := st.frames[k].(hasDefault := true)])
    else st
  }

  function Step(st: State, s: Sym): State {
    match s
    case SwitchWord => st.(switches := st.switches + 1, pending := Some(st.parens))
    case DefaultLabel => Mark(st)
    case LParen => st.(parens := st.parens + 1)
    case RParen => st.(parens := st.parens - 1)
    case Semicolon => if st.pending == Some(st.parens) then st.(pending := None) else st
    case LBrace =>
      var b := st.(braces := st.braces + 1);
      if st.pending == Some(st.parens) then
        b.(frames := st.frames + [Frame(b.braces, st.parens, false)], pending := None)
      else b
    case RBrace =>
      var k := |st.frames| - 1;
      var popped :=
        if k >= 0 && st.frames[k].braces == st.braces then
          st.(frames := st.frames[..k],
          withDefault := st.withDefault + if st.frames[k].hasDefault then 1 else 0)
        else st;
      popped.(braces := st.braces - 1)
    case Other => st
  }

  function Run(st: State, syms: Syms): State
    decreases syms
  {
    match syms
    case Nil => st
    case Cons(s, rest) => Run(Step(st, s), rest)
  }

  // ---- what is being counted ------------------------------------------------

  /** A list of nested token trees; `next` is the rest of the list. `Braced` is
      `switch (cond) { body }`. `Bare` is a switch without braces, with the labels and
      expressions after its condition; a `;` or another switch must follow and end it. */
  datatype Trees =
    | End
    | Word(next: Trees)
    | Semi(next: Trees)
    | Default(next: Trees)
    | Group(inner: Trees, next: Trees)
    | Block(body: Trees, next: Trees)
    | Braced(cond: Trees, body: Trees, next: Trees)
    | Bare(cond: Trees, labels: Trees, next: Trees)

  /** The symbols of a list of trees, followed by `rest`. */
  function Render(t: Trees, rest: Syms): Syms {
    match t
    case End => rest
    case Word(next) => Cons(Other, Render(next, rest))
    case Semi(next) => Cons(Semicolon, Render(next, rest))
    case Default(next) => Cons(DefaultLabel, Render(next, rest))
    case Group(inner, next) => Cons(LParen, Render(inner, Cons(RParen, Render(next, rest))))
    case Block(body, next) => Cons(LBrace, Render(body, Cons(RBrace, Render(next, rest))))
    case Braced(cond, body, next) =>
      Cons(SwitchWord, Cons(LParen, Render(cond, Cons(RParen,
        Cons(LBrace, Render(body, Cons(RBrace, Render(next, rest))))))))
    case Bare(cond, labels, next) =>
      Cons(SwitchWord, Cons(LParen, Render(cond, Cons(RParen, Render(labels, Render(next, rest))))))
  }

  /** Words, `default:` and groups: what a brace-less switch has before its end. */
  predicate LabelLike(t: Trees) {
    match t
    case End => true
    case Word(next) => LabelLike(next)
    case Default(next) => LabelLike(next)
    case Group(_, next) => LabelLike(next)
    case _ => false
  }

  predicate EndsBare(t: Trees) { t.Semi? || t.Braced? || t.Bare? }

  predicate WellFormed(t: Trees) {
    match t
    case End => true
    case Word(next) => WellFormed(next)
    case Semi(next) => WellFormed(next)
    case Default(next) => WellFormed(next)
    case Group(inner, next) => WellFormed(inner) && WellFormed(next)
    case Block(body, next) => WellFormed(body) && WellFormed(next)
    case Braced(cond, body, next) => WellFormed(cond) && WellFormed(body) && WellFormed(next)
    case Bare(cond, labels, next) =>
      WellFormed(cond) && WellFormed(labels) && LabelLike(labels) && WellFormed(next) && EndsBare(next)
  }

  /** The number of switch statements. */
  function Switches(t: Trees): nat {
    match t
    case End => 0
    case Word(next) => Switches(next)
    case Semi(next) => Switches(next)
    case Default(next) => Switches(next)
    case Group(inner, next) => Switches(inner) + Switches(next)
    case Block(body, next) => Switches(body) + Switches(next)
    case Braced(cond, body, next) => 1 + Switches(cond) + Switches(body) + Switches(next)
    case Bare(cond, labels, next) => 1 + Switches(cond) + Switches(labels) + Switches(next)
  }

  /** A `default:` directly in this list, not a brace-less switch's. */
  predicate OwnDefault(t: Trees) {
    match t
    case End => false
    case Default(next) => true
    case _ => OwnDefault(t.next)
  }

  /** A `default:` that the machine attributes to the braces around this list: an own
      one, or one of a brace-less switch. */
  predicate Marks(t: Trees) {
    match t
    case End => false
    case Default(next) => true
    case Bare(_, labels, next) => OwnDefault(labels) || Marks(next)
    case _ => Marks(t.next)
  }

  function One(b: bool): nat { if b then 1 else 0 }

  /** What a braced switch can be counted for. `Own`: it has a default of its own,
      which the metric is documented to count. `Seen`: the machine counts it.
      `Missed`: it has an own default, but its condition holds a switch, which takes
      over the pending switch. `Spurious`: the machine counts it only for the default
      of a brace-less switch in its body. */
  datatype Metric = Own | Seen | Missed | Spurious

  function Weight(m: Metric, cond: Trees, body: Trees): nat {
    var framed := Switches(cond) == 0;
    match m
    case Own => One(OwnDefault(body))
    case Seen => One(framed && Marks(body))
    case Missed => One(!framed && OwnDefault(body))
    case Spurious => One(framed && Marks(body) && !OwnDefault(body))
  }

  /** The number of braced switches of a tree with a metric. */
  function Count(m: Metric, t: Trees): nat {
    match t
    case End => 0
    case Word(next) => Count(m, next)
    case Semi(next) => Count(m, next)
    case Default(next) => Count(m, next)
    case Group(inner, next) => Count(m, inner) + Count(m, next)
    case Block(body, next) => Count(m, body) + Count(m, next)
    case Braced(cond, body, next) => Weight(m, cond, body) + Count(m, cond) + Count(m, body) + Count(m, next)
    case Bare(cond, labels, next) => Count(m, cond) + Count(m, labels) + Count(m, next)
  }

  // ---- the machine on a tree ------------------------------------------------

  ghost predicate Fits(st: State, t: Trees) {
    && (st.frames != [] ==>
          && st.frames[|st.frames| - 1].braces <= st.braces
          && st.frames[|st.frames| - 1].parens <= st.parens)
    && match st.pending
       case None => true
       case Some(p) => p < st.parens || (p == st.parens && (LabelLike(t) || EndsBare(t)))
  }

  /** The state after a tree, from the state before it. */
  ghost function After(st: State, clears: bool, marks: bool, switches: nat, withDefault: nat): State {
    (if marks then Mark(st) else st).(
      pending := if clears then None else st.pending,
      switches := st.switches + switches,
      withDefault := st.withDefault + withDefault)
  }

  /** Whether a tree leaves no switch pending: it holds one, or starts with the `;` that ends it. */
  ghost predicate Clears(st: State, t: Trees) {
    Switches(t) > 0 || (t.Semi? && st.pending == Some(st.parens))
  }

  ghost function AfterTrees(st: State, t: Trees): State {
    After(st, Clears(st, t), Marks(t), Switches(t), Count(Seen, t))
  }

  /** The machine on a rendered tree, whatever follows it. */
  lemma {:induction false} RunTrees(st: State, t: Trees, rest: Syms)
    requires WellFormed(t) && Fits(st, t)
    ensures Run(st, Render(t, rest)) == Run(AfterTrees(st, t), rest)
    decreases t, 2
  {
    hide Run, Mark, Weight;
    match t
    case End =>
    case Word(next) =>
      assert LabelLike(next) ==> !next.Semi?;
      RunLeaf(st, Other, next, rest);
    case Semi(next) => RunLeaf(st, Semicolon, next, rest);
    case Default(next) =>
      assert LabelLike(next) ==> !next.Semi?;
      RunLeaf(st, DefaultLabel, next, rest);
    case _ => RunNested(st, t, rest);
  }

  lemma {:induction false} RunNested(st: State, t: Trees, rest: Syms)
    requires t.Group? || t.Block? || t.Braced? || t.Bare?
    requires WellFormed(t) && Fits(st, t)
    ensures Run(st, Render(t, rest)) == Run(AfterTrees(st, t), rest)
    decreases t, 1
  {
    hide Run, Mark, Weight;
    match t
    case Group(inner, next) => RunGrouped(st, inner, next, rest);
    case Block(body, next) => RunBlocked(st, body, next, rest);
    case Braced(cond, body, next) => RunBraced(st, cond, body, next, rest);
    case Bare(cond, labels, next) => RunBare(st, cond, labels, next, rest);
  }

  lemma {:induction false} RunGrouped(st: State, inner: Trees, next: Trees, rest: Syms)
    requires WellFormed(inner) && WellFormed(next) && Fits(st, Group(inner, next))
    ensures Run(st, Render(Group(inner, next), rest)) == Run(AfterBoth(st, inner, next), rest)
    decreases Group(inner, next), 0
  {
    hide Run, Mark, Weight, Marks, Switches, Count, WellFormed;
    assert LabelLike(next) ==> !next.Semi?;
    RunGroup(st, inner, Render(next, rest));
    RunNext(st, inner, next, rest);
  }

  lemma {:induction false} RunBlocked(st: State, body: Trees, next: Trees, rest: Syms)
    requires WellFormed(body) && WellFormed(next) && Fits(st, Block(body, next))
    ensures Run(st, Render(Block(body, next), rest)) == Run(AfterBoth(st, body, next), rest)
    decreases Block(body, next), 0
  {
    hide Run, Mark, Weight, Marks, Switches, Count, WellFormed;
    RunBlock(st, body, Render(next, rest));
    RunNext(st, body, next, rest);
  }

  /** After an enclosed tree and the next one. */
  ghost function AfterBoth(st: State, inner: Trees, next: Trees): State {
    After(st, Switches(inner) + Switches(next) > 0, Marks(next), Switches(inner) + Switches(next),
          Count(Seen, inner) + Count(Seen, next))
  }

  lemma {:induction false} RunLeaf(st: State, s: Sym, next: Trees, rest: Syms)
    requires s == Other || s == Semicolon || s == DefaultLabel
    requires WellFormed(next) && Fits(st, if s == Semicolon then Semi(next) else next)
    requires s != Semicolon && st.pending == Some(st.parens) ==> !next.Semi?
    ensures Run(st, Cons(s, Render(next, rest))) ==
            Run(After(st, (s == Semicolon && st.pending == Some(st.parens)) || Switches(next) > 0,
                      s == DefaultLabel || Marks(next), Switches(next), Count(Seen, next)), rest)
    decreases next, 3
  {
    hide Run, Render, Marks, Switches, Count, WellFormed, LabelLike;
    MarkTwice(st);
    RunCons(st, s, Render(next, rest));
    RunTrees(Step(st, s), next, rest);
    assert AfterTrees(Step(st, s), next) ==
           After(st, (s == Semicolon && st.pending == Some(st.parens)) || Switches(next) > 0,
                 s == DefaultLabel || Marks(next), Switches(next), Count(Seen, next));
  }

  lemma {:induction false} RunNext(st: State, inner: Trees, next: Trees, rest: Syms)
    requires WellFormed(next) && Fits(AfterGroup(st, inner), next)
    requires st.pending == Some(st.parens) ==> !next.Semi?
    ensures Run(AfterGroup(st, inner), Render(next, rest)) == Run(AfterBoth(st, inner, next), rest)
    decreases next, 3
  {
    hide Run, Render, Marks, Switches, Count, WellFormed, LabelLike, Mark;
    var mid := AfterGroup(st, inner);
    RunTrees(mid, next, rest);
    AfterTwice(st, Switches(inner) > 0, false, Switches(inner), Count(Seen, inner),
               Clears(mid, next), Marks(next), Switches(next), Count(Seen, next));
  }

  lemma RunCons(st: State, s: Sym, rest: Syms)
    ensures Run(st, Cons(s, rest)) == Run(Step(st, s), rest)
  {
  }

  lemma RunNil(st: State)
    ensures Run(st, Nil) == st
  {
  }

  lemma MarkTwice(st: State)
    ensures Mark(Mark(st)) == Mark(st)
  {
  }

  /** A parenthesised group, or a block that is no switch's body. */
  ghost function AfterGroup(st: State, inner: Trees): State {
    After(st, Switches(inner) > 0, false, Switches(inner), Count(Seen, inner))
  }

  lemma {:induction false} RunGroup(st: State, inner: Trees, rest: Syms)
    requires WellFormed(inner) && Fits(st, End)
    ensures Run(st, Cons(LParen, Render(inner, Cons(RParen, rest)))) == Run(AfterGroup(st, inner), rest)
    decreases inner, 3
  {
    hide Run, Render, Marks, Switches, Count, WellFormed, Mark;
    var open := Step(st, LParen);
    RunCons(st, LParen, Render(inner, Cons(RParen, rest)));
    RunTrees(open, inner, Cons(RParen, rest));
    RunCons(AfterTrees(open, inner), RParen, rest);
    CloseGroup(st, Clears(open, inner), Marks(inner), Switches(inner), Count(Seen, inner));
  }

  lemma CloseGroup(st: State, clears: bool, marks: bool, switches: nat, withDefault: nat)
    requires Fits(st, End)
    ensures Step(After(Step(st, LParen), clears, marks, switches, withDefault), RParen) ==
            After(st, clears, false, switches, withDefault)
  {
  }

  lemma {:induction false} RunBlock(st: State, body: Trees, rest: Syms)
    requires WellFormed(body) && Fits(st, End) && st.pending != Some(st.parens)
    ensures Run(st, Cons(LBrace, Render(body, Cons(RBrace, rest)))) == Run(AfterGroup(st, body), rest)
    decreases body, 3
  {
    hide Run, Render, Marks, Switches, Count, WellFormed, Mark;
    var open := Step(st, LBrace);
    RunCons(st, LBrace, Render(body, Cons(RBrace, rest)));
    RunTrees(open, body, Cons(RBrace, rest));
    RunCons(AfterTrees(open, body), RBrace, rest);
    CloseBlock(st, Clears(open, body), Marks(body), Switches(body), Count(Seen, body));
  }

  lemma CloseBlock(st: State, clears: bool, marks: bool, switches: nat, withDefault: nat)
    requires Fits(st, End) && st.pending != Some(st.parens)
    ensures Step(After(Step(st, LBrace), clears, marks, switches, withDefault), RBrace) ==
            After(st, clears, false, switches, withDefault)
  {
  }

  /** The braces of a pending switch: its frame is counted if its body marks it. */
  ghost function AfterFramed(st: State, body: Trees): State {
    After(st, true, false, Switches(body), One(Marks(body)) + Count(Seen, body))
  }

  lemma {:induction false} RunFramed(st: State, body: Trees, rest: Syms)
    requires WellFormed(body) && st.pending == Some(st.parens)
    ensures Run(st, Cons(LBrace, Render(body, Cons(RBrace, rest)))) == Run(AfterFramed(st, body), rest)
    decreases body, 3
  {
    hide Run, Render, Marks, Switches, Count, WellFormed, Mark;
    var open := Step(st, LBrace);
    RunCons(st, LBrace, Render(body, Cons(RBrace, rest)));
    RunTrees(open, body, Cons(RBrace, rest));
    RunCons(AfterTrees(open, body), RBrace, rest);
    CloseFramed(st, Clears(open, body), Marks(body), Switches(body), Count(Seen, body));
  }

  lemma CloseFramed(st: State, clears: bool, marks: bool, switches: nat, withDefault: nat)
    requires st.pending == Some(st.parens)
    ensures Step(After(Step(st, LBrace), clears, marks, switches, withDefault), RBrace) ==
            After(st, true, false, switches, One(marks) + withDefault)
  {
    var inside := After(Step(st, LBrace), clears, marks, switches, withDefault);
    assert inside.frames == st.frames + [Frame(st.braces + 1, st.parens, marks)];
    assert inside.frames[..|st.frames|] == st.frames;
  }

  /** After `switch ( cond )` the switch is pending unless the condition held one. */
  ghost function AfterHead(st: State, cond: Trees): State {
    After(st, false, false, 1 + Switches(cond), Count(Seen, cond)).(
      pending := if Switches(cond) == 0 then Some(st.parens) else None)
  }

  lemma {:induction false} RunHead(st: State, cond: Trees, rest: Syms)
    requires WellFormed(cond) && Fits(st, Braced(cond, End, End))
    ensures Run(st, Cons(SwitchWord, Cons(LParen, Render(cond, Cons(RParen, rest))))) == Run(AfterHead(st, cond), rest)
    decreases cond, 4
  {
    hide Run, Render, Switches, Count, WellFormed;
    RunCons(st, SwitchWord, Cons(LParen, Render(cond, Cons(RParen, rest))));
    RunGroup(Step(st, SwitchWord), cond, rest);
    assert AfterGroup(Step(st, SwitchWord), cond) == AfterHead(st, cond);
  }

  lemma {:induction false} RunBraced(st: State, cond: Trees, body: Trees, next: Trees, rest: Syms)
    requires WellFormed(cond) && WellFormed(body) && WellFormed(next) && Fits(st, Braced(cond, body, next))
    ensures Run(st, Render(Braced(cond, body, next), rest)) ==
            Run(After(st, true, Marks(next), 1 + Switches(cond) + Switches(body) + Switches(next),
                      Weight(Seen, cond, body) + Count(Seen, cond) + Count(Seen, body) + Count(Seen, next)), rest)
    decreases Braced(cond, body, next), 0
  {
    hide Run, Marks, Switches, Count, WellFormed, Mark;
    var c := AfterHead(st, cond);
    var d := if Switches(cond) == 0 then AfterFramed(c, body) else AfterGroup(c, body);
    RunHead(st, cond, Cons(LBrace, Render(body, Cons(RBrace, Render(next, rest)))));
    if Switches(cond) == 0 {
      RunFramed(c, body, Render(next, rest));
    } else {
      RunBlock(c, body, Render(next, rest));
    }
    assert d == After(st, true, false, 1 + Switches(cond) + Switches(body),
                      Weight(Seen, cond, body) + Count(Seen, cond) + Count(Seen, body));
    RunTrees(d, next, rest);
    AfterTwice(st, true, false, 1 + Switches(cond) + Switches(body),
               Weight(Seen, cond, body) + Count(Seen, cond) + Count(Seen, body),
               Clears(d, next), Marks(next), Switches(next), Count(Seen, next));
  }

  lemma {:induction false} RunBare(st: State, cond: Trees, labels: Trees, next: Trees, rest: Syms)
    requires WellFormed(cond) && WellFormed(labels) && LabelLike(labels) && WellFormed(next) && EndsBare(next)
    requires Fits(st, Bare(cond, labels, next))
    ensures Run(st, Render(Bare(cond, labels, next), rest)) ==
            Run(After(st, true, OwnDefault(labels)
                || Marks(next), 1 + Switches(cond) + Switches(labels) + Switches(next),
                      Count(Seen, cond) + Count(Seen, labels) + Count(Seen, next)), rest)
    decreases Bare(cond, labels, next), 0
  {
    hide Run, Marks, OwnDefault, Switches, Count, WellFormed, LabelLike, Weight;
    var c := AfterHead(st, cond);
    var l := AfterTrees(c, labels);
    LabelsMark(labels);
    EndClears(next);
    RunHead(st, cond, Render(labels, Render(next, rest)));
    RunTrees(c, labels, Render(next, rest));
    RunTrees(l, next, rest);
    BareEnds(st, c.pending, Clears(c, labels), Marks(labels), Switches(cond), Switches(labels),
             Count(Seen, cond), Count(Seen, labels), Clears(l, next), Marks(next), Switches(next), Count(Seen, next));
  }

  lemma EndClears(t: Trees)
    requires EndsBare(t)
    ensures t.Semi? || Switches(t) > 0
  {
  }

  lemma BareEnds(st: State, pending: Option<int>, lClears: bool, lMarks: bool, cs: nat, ls: nat, cd: nat, ld: nat,
                 nClears: bool, nMarks: bool, ns: nat, nd: nat)
    requires pending == None || lClears || nClears
    ensures After(After(After(st, false, false, 1 + cs, cd).(pending := pending), lClears, lMarks, ls, ld),
                  nClears, nMarks, ns, nd) ==
            After(st, true, lMarks || nMarks, 1 + cs + ls + ns, cd + ld + nd)
  {
    MarkTwice(st);
  }

  lemma AfterTwice(st: State, c1: bool, m1: bool, s1: nat, d1: nat, c2: bool, m2: bool, s2: nat, d2: nat)
    ensures After(After(st, c1, m1, s1, d1), c2, m2, s2, d2) == After(st, c1 || c2, m1 || m2, s1 + s2, d1 + d2)
  {
    MarkTwice(st);
  }

  lemma LabelsMark(labels: Trees)
    requires LabelLike(labels)
    ensures Marks(labels) == OwnDefault(labels) && !labels.Semi?
  {
  }

  // ---- results ---------------------------------------------------------------

  /** What the machine counts on a tree: switches, and those it sees a default for. */
  function Counted(t: Trees): (nat, nat) {
    var end := Run(START, Render(t, Nil));
    (end.switches, end.withDefault)
  }

  /** On every tree the pass counts every switch, and the braced ones it sees a default for. */
  lemma CountsTree(t: Trees)
    requires WellFormed(t)
    ensures Counted(t) == (Switches(t), Count(Seen, t))
  {
    hide Run, Render, WellFormed, LabelLike, Marks, Count, Switches;
    RunAll(START, t, Nil);
  }

  /** The machine from a state in which no switch is open, on a tree and nothing after it. */
  lemma RunAll(st: State, t: Trees, none: Syms)
    requires WellFormed(t) && st.frames == [] && st.pending == None && none == Nil
    ensures var end := Run(st, Render(t, none));
      end.switches == st.switches + Switches(t) && end.withDefault == st.withDefault + Count(Seen, t)
  {
    hide Run, Render, WellFormed, LabelLike, Marks, Count, Switches, Clears;
    RunTrees(st, t, none);
    RunNil(AfterTrees(st, t));
  }

  /** The metric counts own defaults, less those missed, plus the spurious ones. */
  lemma {:induction false} Accounting(t: Trees)
    ensures Count(Seen, t) + Count(Missed, t) == Count(Own, t) + Count(Spurious, t)
  {
    match t
    case End =>
    case Group(inner, next) => Accounting(inner); Accounting(next);
    case Block(body, next) => Accounting(body); Accounting(next);
    case Braced(cond, body, next) =>
      OwnMarks(body);
      Accounting(cond); Accounting(body); Accounting(next);
    case Bare(cond, labels, next) => Accounting(cond); Accounting(labels); Accounting(next);
    case _ => Accounting(t.next);
  }

  /** For every tree: the metric is the documented one exactly when as many own defaults are
      missed as foreign ones are taken for own. */
  lemma CountsOwnExactly(t: Trees)
    requires WellFormed(t)
    ensures Counted(t).1 == Count(Own, t) <==> Count(Missed, t) == Count(Spurious, t)
  {
    hide *;
    CountsTree(t);
    Accounting(t);
  }

  lemma OwnMarks(t: Trees)
    ensures OwnDefault(t) ==> Marks(t)
  {
  }

  /** No condition of a braced switch holds another switch. */
  predicate PlainConditions(t: Trees) {
    match t
    case End => true
    case Group(inner, next) => PlainConditions(inner) && PlainConditions(next)
    case Block(body, next) => PlainConditions(body) && PlainConditions(next)
    case Braced(cond, body, next) =>
      Switches(cond) == 0 && PlainConditions(cond) && PlainConditions(body) && PlainConditions(next)
    case Bare(cond, labels, next) => PlainConditions(cond) && PlainConditions(labels) && PlainConditions(next)
    case _ => PlainConditions(t.next)
  }

  /** No brace-less switch has a `default:`. */
  predicate BareWithoutDefault(t: Trees) {
    match t
    case End => true
    case Group(inner, next) => BareWithoutDefault(inner) && BareWithoutDefault(next)
    case Block(body, next) => BareWithoutDefault(body) && BareWithoutDefault(next)
    case Braced(cond, body, next) => BareWithoutDefault(cond) && BareWithoutDefault(body) && BareWithoutDefault(next)
    case Bare(cond, labels, next) =>
      !OwnDefault(labels) && BareWithoutDefault(cond) && BareWithoutDefault(labels) && BareWithoutDefault(next)
    case _ => BareWithoutDefault(t.next)
  }

  lemma {:induction false} NothingMissed(t: Trees)
    requires PlainConditions(t)
    ensures Count(Missed, t) == 0
  {
    match t
    case End =>
    case Group(inner, next) => NothingMissed(inner); NothingMissed(next);
    case Block(body, next) => NothingMissed(body); NothingMissed(next);
    case Braced(cond, body, next) => NothingMissed(cond); NothingMissed(body); NothingMissed(next);
    case Bare(cond, labels, next) => NothingMissed(cond); NothingMissed(labels); NothingMissed(next);
    case _ => NothingMissed(t.next);
  }

  lemma {:induction false} NothingSpurious(t: Trees)
    requires BareWithoutDefault(t)
    ensures Count(Spurious, t) == 0 && Marks(t) == OwnDefault(t)
  {
    match t
    case End =>
    case Group(inner, next) => NothingSpurious(inner); NothingSpurious(next);
    case Block(body, next) => NothingSpurious(body); NothingSpurious(next);
    case Braced(cond, body, next) => NothingSpurious(cond); NothingSpurious(body); NothingSpurious(next);
    case Bare(cond, labels, next) => NothingSpurious(cond); NothingSpurious(labels); NothingSpurious(next);
    case _ => NothingSpurious(t.next);
  }

  /** Without those two shapes the metric is exactly the documented one. */
  lemma CountsOwnDefaults(t: Trees)
    requires WellFormed(t) && PlainConditions(t) && BareWithoutDefault(t)
    ensures Counted(t).1 == Count(Own, t)
  {
    hide *;
    CountsTree(t);
    Accounting(t);
    NothingMissed(t);
    NothingSpurious(t);
  }

  /** `switch (({ switch (y) { } })) { default: }`, and any other switch whose condition
      holds one: the default is the switch's own and is not counted. */
  lemma SwitchInConditionIsMissed(cond: Trees, body: Trees, next: Trees)
    requires var t := Braced(cond, body, next); WellFormed(t) && BareWithoutDefault(t)
    requires PlainConditions(cond) && PlainConditions(body) && PlainConditions(next)
    requires Switches(cond) > 0 && OwnDefault(body)
    ensures var t := Braced(cond, body, next); Counted(t).1 == Count(Own, t) - 1
  {
    hide Run, Render;
    var t := Braced(cond, body, next);
    CountsTree(t);
    Accounting(t);
    NothingMissed(cond);
    NothingMissed(body);
    NothingMissed(next);
    NothingSpurious(t);
  }

  /** `switch (x) { switch (y) default: ; }`, whatever else these hold that counts right:
      the outer switch has no default of its own and is counted. */
  lemma BareDefaultIsSpurious(t: Trees)
    requires t.Braced? && t.body.Bare?
    requires WellFormed(t) && PlainConditions(t)
    requires BareWithoutDefault(t.cond) && BareWithoutDefault(t.body.cond) && BareWithoutDefault(t.body.labels)
    requires BareWithoutDefault(t.body.next) && BareWithoutDefault(t.next)
    requires OwnDefault(t.body.labels) && !OwnDefault(t.body.next)
    ensures Counted(t).1 == Count(Own, t) + 1
  {
    hide *;
    BareMarks(t.body);
    NothingSpurious(t.cond);
    NothingSpurious(t.next);
    OneSpurious(t);
    CountsTree(t);
    Accounting(t);
    NothingMissed(t);
  }

  lemma OneSpurious(t: Trees)
    requires t.Braced? && PlainConditions(t) && Marks(t.body) && !OwnDefault(t.body)
    requires Count(Spurious, t.cond) == Count(Spurious, t.body) == Count(Spurious, t.next) == 0
    ensures Count(Spurious, t) == 1
  {
  }

  lemma BareMarks(body: Trees)
    requires body.Bare? && OwnDefault(body.labels) && !OwnDefault(body.next)
    requires BareWithoutDefault(body.cond) && BareWithoutDefault(body.labels) && BareWithoutDefault(body.next)
    ensures Marks(body) && !OwnDefault(body) && Count(Spurious, body) == 0
  {
    NothingSpurious(body.cond);
    NothingSpurious(body.labels);
    NothingSpurious(body.next);
  }

  /** The pass over the tokens, with the program's variables. */
  method CountSwitches(toks: seq<Tok>) returns (switches: nat, withDefault: nat)
    ensures var end := Run(START, SymsFrom(toks, 0)); switches == end.switches && withDefault == end.withDefault
    ensures forall t: Trees :: WellFormed(t) && SymsFrom(toks, 0) == Render(t, Nil) ==>
              switches == Switches(t) && withDefault == Count(Seen, t)
  {
    hide Run;
    var frames: seq<Frame> := [];
    var braces, parens := 0, 0;
    var pending: Option<int> := None;
    switches, withDefault := 0, 0;
    var i := 0;
    while i < |toks|
      invariant 0 <= i <= |toks|
      invariant Run(State(frames, braces, parens, pending, switches, withDefault), SymsFrom(toks, i)) ==
                Run(START, SymsFrom(toks, 0))
    {
      ghost var st := State(frames, braces, parens, pending, switches, withDefault);
      RunCons(st, SymAt(toks, i), SymsFrom(toks, i + 1));
      var s := toks[i].text;
      var top := |frames| - 1;
      if toks[i].kind == Id {
        if s == "switch" {
          switches := switches + 1;
          pending := Some(parens);
        } else if s == "default" && TextAt(toks, i + 1) == ":" && top >= 0
                  && frames[top].braces == braces && frames[top].parens == parens {
          frames := frames[top := frames[top].(hasDefault := true)];
        }
      } else if s == "(" {
        parens := parens + 1;
      } else if s == ")" {
        parens := parens - 1;
      } else if s == ";" && pending.Some? && parens == pending.value {
        pending := None;
      } else if s == "{" {
        braces := braces + 1;
        if pending.Some? && parens == pending.value {
          frames := frames + [Frame(braces, parens, false)];
          pending := None;
        }
      } else if s == "}" {
        if top >= 0 && frames[top].braces == braces {
          if frames[top].hasDefault {
            withDefault := withDefault + 1;
          }
          frames := frames[..top];
        }
        braces := braces - 1;
      }
      assert State(frames, braces, parens, pending, switches, withDefault) == Step(st, SymAt(toks, i));
      i := i + 1;
    }
    RunNil(State(frames, braces, parens, pending, switches, withDefault));
    forall t: Trees | WellFormed(t) && SymsFrom(toks, 0) == Render(t, Nil)
      ensures switches == Switches(t) && withDefault == Count(Seen, t)
    {
      CountsTree(t);
    }
  }
}
