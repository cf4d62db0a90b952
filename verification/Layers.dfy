// The layer checker of tools/check_layers.py: the may-use table and its closure
// check, the compiler's listing of visited headers, the include edges read back
// from it, and the claim that no forbidden include hides behind an include guard.
module Layers {
  import opened Results

  type Layer = string
  type Path = string

  // ---- the table -------------------------------------------------------------

  datatype Declaration = Declaration(name: Layer, mayUse: seq<Layer>)

  datatype TableError = UnknownLayer(layer: Layer, uses: Layer) | NotClosed(layer: Layer, via: Layer)

  /** `uses` is what each layer may use, `prefixes` the path prefixes, longest first,
      `composition` the files that may use more layers. */
  datatype Table = Table(uses: map<Layer, set<Layer>>, prefixes: seq<(Path, Layer)>, composition: map<Path, set<Layer>>)

  function Uses(t: Table, l: Layer): set<Layer> {
    if l in t.uses then t.uses[l] else {}
  }

  ghost predicate Closed(uses: map<Layer, set<Layer>>) {
    forall l, u :: l in uses && u in uses[l] ==> u in uses && uses[u] <= uses[l] + {l}
  }

  /** No layer gains by another's uses. A layer without a declaration uses none. */
  ghost predicate ClosedUses(t: Table) {
    forall l, u :: u in Uses(t, l) ==> Uses(t, u) <= Uses(t, l) + {l}
  }

  lemma ClosedIsEnough(t: Table)
    requires Closed(t.uses)
    ensures ClosedUses(t)
  {
  }

  function AsSet(xs: seq<Layer>): set<Layer> { set x <- xs }

  /** The declarations as a dictionary: the last one of a name counts. */
  function Dictionary(decls: seq<Declaration>): map<Layer, set<Layer>> {
    if decls == [] then map[]
    else
      var k := |decls| - 1;
      Dictionary(decls[..k])[decls[k].name := AsSet(decls[k].mayUse)]
  }

  lemma {:induction false} DictionaryEntry(decls: seq<Declaration>, l: Layer)
    requires l in Dictionary(decls)
    ensures exists d :: d in decls && d.name == l && AsSet(d.mayUse) == Dictionary(decls)[l]
  {
    var k := |decls| - 1;
    if decls[k].name == l {
      assert decls[k] in decls;
    } else {
      DictionaryEntry(decls[..k], l);
      var d :| d in decls[..k] && d.name == l && AsSet(d.mayUse) == Dictionary(decls[..k])[l];
      assert d in decls;
    }
  }

  ghost predicate UseOk(uses: map<Layer, set<Layer>>, d: Declaration, u: Layer) {
    u in uses && uses[u] <= AsSet(d.mayUse) + {d.name}
  }

  /** The check a table must pass to be loaded. */
  method CheckTable(decls: seq<Declaration>) returns (r: Result<map<Layer, set<Layer>>, TableError>)
    ensures r.Ok? <==> forall d <- decls, u <- d.mayUse :: UseOk(Dictionary(decls), d, u)
    ensures r.Ok? ==> r.value == Dictionary(decls) && Closed(r.value)
    ensures r.Err? && r.error.UnknownLayer? ==>
      && r.error.uses !in Dictionary(decls)
      && exists d <- decls :: d.name == r.error.layer && r.error.uses in d.mayUse
    ensures r.Err? && r.error.NotClosed? ==>
      && r.error.via in Dictionary(decls)
      && exists d <- decls :: d.name == r.error.layer && r.error.via in d.mayUse
          && !UseOk(Dictionary(decls), d, r.error.via)
  {
    var uses := Dictionary(decls);
    for i := 0 to |decls|
      invariant forall k, u :: 0 <= k < i && u in decls[k].mayUse ==> UseOk(uses, decls[k], u)
    {
      var d := decls[i];
      for j := 0 to |d.mayUse|
        invariant forall k :: 0 <= k < j ==> UseOk(uses, d, d.mayUse[k])
      {
        var u := d.mayUse[j];
        if u !in uses {
          assert !UseOk(uses, d, u) && d in decls && u in d.mayUse;
          return Err(UnknownLayer(d.name, u));
        }
        if uses[u] - AsSet(d.mayUse) - {d.name} != {} {
          assert !UseOk(uses, d, u) && d in decls && u in d.mayUse;
          return Err(NotClosed(d.name, u));
        }
      }
    }
    ClosedDictionary(decls);
    return Ok(uses);
  }

  lemma ClosedDictionary(decls: seq<Declaration>)
    requires forall d <- decls, u <- d.mayUse :: UseOk(Dictionary(decls), d, u)
    ensures Closed(Dictionary(decls))
  {
    var uses := Dictionary(decls);
    forall l, u | l in uses && u in uses[l]
      ensures u in uses && uses[u] <= uses[l] + {l}
    {
      DictionaryEntry(decls, l);
      var d :| d in decls && d.name == l && AsSet(d.mayUse) == uses[l];
      assert UseOk(uses, d, u);
    }
  }

  /** The last declaration of a name. */
  ghost predicate Declares(decls: seq<Declaration>, k: int, l: Layer) {
    0 <= k < |decls| && decls[k].name == l && forall i :: k < i < |decls| ==> decls[i].name != l
  }

  lemma {:induction false} DictionaryIs(decls: seq<Declaration>, l: Layer) returns (k: int)
    ensures l in Dictionary(decls) <==> exists i :: 0 <= i < |decls| && decls[i].name == l
    ensures l in Dictionary(decls) ==>
      Declares(decls, k, l) && forall u :: u in Dictionary(decls)[l] <==> u in decls[k].mayUse
    decreases |decls|
  {
    k := |decls| - 1;
    if decls == [] {
    } else if decls[k].name != l {
      var front := decls[..k];
      k := DictionaryIs(front, l);
      assert forall i :: 0 <= i < |front| ==> front[i] == decls[i];
    }
  }

  lemma OneDeclares(decls: seq<Declaration>, k: int, i: int, l: Layer)
    requires Declares(decls, k, l) && Declares(decls, i, l)
    ensures k == i
  {
  }

  /** A declaration may use what is declared, and whose uses it lists too. */
  ghost predicate UseListed(decls: seq<Declaration>, i: int, u: Layer)
    requires 0 <= i < |decls|
  {
    exists k :: Declares(decls, k, u) && forall v <- decls[k].mayUse :: v in decls[i].mayUse || v == decls[i].name
  }

  lemma UseOkIs(decls: seq<Declaration>, i: int, u: Layer)
    requires 0 <= i < |decls|
    ensures UseOk(Dictionary(decls), decls[i], u) <==> UseListed(decls, i, u)
  {
    hide Dictionary;
    var k := DictionaryIs(decls, u);
    if UseListed(decls, i, u) {
      var j :| Declares(decls, j, u) && forall v <- decls[j].mayUse :: v in decls[i].mayUse || v == decls[i].name;
      OneDeclares(decls, k, j, u);
    }
    if UseOk(Dictionary(decls), decls[i], u) {
      assert Declares(decls, k, u);
      assert forall v <- decls[k].mayUse :: v in Dictionary(decls)[u];
    }
  }

  /** Which tables are accepted, by their declarations alone. */
  lemma AcceptedExactly(decls: seq<Declaration>)
    ensures (forall d <- decls, u <- d.mayUse :: UseOk(Dictionary(decls), d, u))
       <==> forall i, u :: 0 <= i < |decls| && u in decls[i].mayUse ==> UseListed(decls, i, u)
  {
    hide Dictionary, UseOk, UseListed;
    forall i, u | 0 <= i < |decls|
      ensures UseOk(Dictionary(decls), decls[i], u) <==> UseListed(decls, i, u)
    {
      UseOkIs(decls, i, u);
    }
    if forall i, u :: 0 <= i < |decls| && u in decls[i].mayUse ==> UseListed(decls, i, u) {
      forall d, u | d in decls && u in d.mayUse
        ensures UseOk(Dictionary(decls), d, u)
      {
        var i :| 0 <= i < |decls| && decls[i] == d;
      }
    }
    if forall d <- decls, u <- d.mayUse :: UseOk(Dictionary(decls), d, u) {
      forall i, u | 0 <= i < |decls| && u in decls[i].mayUse
        ensures UseListed(decls, i, u)
      {
        assert decls[i] in decls;
      }
    }
  }

  function LayerOf(prefixes: seq<(Path, Layer)>, path: Path): Option<Layer> {
    if prefixes == [] then None
    else if prefixes[0].0 <= path then Some(prefixes[0].1)
    else LayerOf(prefixes[1..], path)
  }

  ghost predicate LongestFirst(prefixes: seq<(Path, Layer)>) {
    forall i, j :: 0 <= i < j < |prefixes| ==> |prefixes[i].0| >= |prefixes[j].0|
  }

  /** A file's layer is that of a longest matching prefix, and None only without any. */
  lemma {:induction false} LayerOfLongest(prefixes: seq<(Path, Layer)>, path: Path)
    requires LongestFirst(prefixes)
    ensures LayerOf(prefixes, path).None? <==> forall p <- prefixes :: !(p.0 <= path)
    ensures LayerOf(prefixes, path).Some? ==>
              exists p <- prefixes :: p.0 <= path && p.1 == LayerOf(prefixes, path).value
                && forall q <- prefixes :: q.0 <= path ==> |q.0| <= |p.0|
  {
    if prefixes == [] {
    } else {
      var first, rest := prefixes[0], prefixes[1..];
      assert prefixes == [first] + rest;
      if first.0 <= path {
        assert forall q <- prefixes :: |q.0| <= |first.0|;
      } else {
        LayerOfLongest(rest, path);
      }
    }
  }

  predicate Allowed(t: Table, src: Path, dst: Option<Layer>) {
    var own := LayerOf(t.prefixes, src);
    dst.Some? && own.Some? &&
    (dst == own || dst.value in Uses(t, own.value)
     || (src in t.composition && exists c <- t.composition[src] :: dst.value == c || dst.value in Uses(t, c)))
  }

  /** May `src` include `dst`? */
  predicate MayInclude(t: Table, src: Path, dst: Path) {
    Allowed(t, src, LayerOf(t.prefixes, dst))
  }

  /** A layer is a layer itself or one its entry in the table lists. */
  predicate Reaches(t: Table, l: Layer, m: Layer) { m == l || (l in t.uses && m in t.uses[l]) }

  /** A file may include the files its layer reaches, or a layer named for it does. */
  lemma MayIncludeExactly(t: Table, src: Path, dst: Path)
    ensures MayInclude(t, src, dst)
       <==> match (LayerOf(t.prefixes, src), LayerOf(t.prefixes, dst))
            case (Some(l), Some(m)) =>
              Reaches(t, l, m) || exists c :: src in t.composition && c in t.composition[src] && Reaches(t, c, m)
            case _ => false
  {
  }

  /** A path that is a file of the layer and no composition point. */
  predicate FileOf(t: Table, l: Layer, a: Path) { a !in t.composition && LayerOf(t.prefixes, a) == Some(l) }

  /** A plain file may include the files of its layer and of the layers this one may use; a
      file without a layer includes none and is included by none. */
  lemma PlainMayInclude(t: Table, a: Path, dst: Path)
    ensures forall l :: FileOf(t, l, a) ==>
      (MayInclude(t, a, dst) <==> exists m :: LayerOf(t.prefixes, dst) == Some(m) && (m == l || m in Uses(t, l)))
    ensures LayerOf(t.prefixes, a).None? || LayerOf(t.prefixes, dst).None? ==> !MayInclude(t, a, dst)
  {
    if LayerOf(t.prefixes, dst).Some? {
      assert LayerOf(t.prefixes, dst) == Some(LayerOf(t.prefixes, dst).value);
    }
  }

  /** The table in which layer c is named for a file, besides what is named for it already. */
  function Naming(t: Table, src: Path, c: Layer): Table {
    t.(composition := t.composition[src := (if src in t.composition then t.composition[src] else {}) + {c}])
  }

  /** What naming a layer for a file does: the file may include exactly what it could before,
      the files of that layer and those of the layers it may use, which is what a plain file of
      the layer may include. All other files are unaffected. */
  lemma NamingAdds(t: Table, src: Path, c: Layer, dst: Path)
    requires LayerOf(t.prefixes, src).Some?
    ensures MayInclude(Naming(t, src, c), src, dst)
       <==> MayInclude(t, src, dst) || exists m :: LayerOf(t.prefixes, dst) == Some(m) && (m == c || m in Uses(t, c))
    ensures forall plain :: FileOf(t, c, plain) ==>
      (MayInclude(Naming(t, src, c), src, dst) <==> MayInclude(t, src, dst) || MayInclude(t, plain, dst))
    ensures forall a :: a != src ==> (MayInclude(Naming(t, src, c), a, dst) <==> MayInclude(t, a, dst))
  {
    var u := Naming(t, src, c);
    var m := LayerOf(t.prefixes, dst);
    if m.Some? {
      ByEntry(t, src, dst, m.value);
      ByEntry(u, src, dst, m.value);
      var before := if src in t.composition then t.composition[src] else {};
      assert Gives(u, before + {c}, m.value) <==> Gives(u, before, m.value) || m.value == c || m.value in Uses(u, c);
      assert m == Some(m.value);
      forall plain | FileOf(t, c, plain)
        ensures MayInclude(t, plain, dst) <==> m.value == c || m.value in Uses(t, c)
      {
        ByEntry(t, plain, dst, m.value);
      }
      forall a | a != src
        ensures MayInclude(u, a, dst) <==> MayInclude(t, a, dst)
      {
        ByEntry(t, a, dst, m.value);
        ByEntry(u, a, dst, m.value);
      }
    }
  }

  /** A set of layers gives a layer that is in it or that one of them may use. */
  ghost predicate Gives(t: Table, layers: set<Layer>, m: Layer) {
    exists c :: c in layers && (m == c || m in Uses(t, c))
  }

  lemma ByEntry(t: Table, src: Path, dst: Path, m: Layer)
    requires LayerOf(t.prefixes, dst) == Some(m)
    ensures MayInclude(t, src, dst)
       <==> && LayerOf(t.prefixes, src).Some?
            && (|| Gives(t, {LayerOf(t.prefixes, src).value}, m)
                || (src in t.composition && Gives(t, t.composition[src], m)))
  {
    if LayerOf(t.prefixes, src).Some? {
      var own := LayerOf(t.prefixes, src).value;
      assert Gives(t, {own}, m) <==> m == own || m in Uses(t, own) by {
        assert own in {own};
      }
    }
  }

  /** An entry that names nothing gives nothing. */
  lemma EmptyEntryIsNone(t: Table, src: Path, dst: Path)
    requires src !in t.composition
    ensures MayInclude(t.(composition := t.composition[src := {}]), src, dst) <==> MayInclude(t, src, dst)
  {
  }

  /** With a closed table "may include" composes, unless the middle file is a composition point. */
  lemma MayIncludeComposes(t: Table, a: Path, b: Path, c: Path)
    requires ClosedUses(t) && b !in t.composition
    requires MayInclude(t, a, b) && MayInclude(t, b, c)
    ensures MayInclude(t, a, c)
  {
  }

  // ---- the compiler's listing --------------------------------------------------

  datatype File = Inside(path: Path) | System(name: string)

  function Rel(f: File): Option<Path> {
    if f.Inside? then Some(f.path) else None
  }

  /** Opened files in order, each with the files opened inside it. */
  datatype Forest = Empty | Node(file: File, inner: Forest, next: Forest)

  /** A line of the listing: dots and a path, or a message that is not one. */
  datatype Entry = Header(dots: nat, path: Option<Path>) | Message

  datatype Listing = Nothing | Line(entry: Entry, rest: Listing)

  function Print(f: Forest, dots: nat, rest: Listing): Listing {
    match f
    case Empty => rest
    case Node(file, inner, next) =>
      Line(Header(dots, Rel(file)), Print(inner, dots + 1, Print(next, dots, rest)))
  }

  type Edge = (Path, Path)

  function EdgeBetween(a: Option<Path>, b: Option<Path>): set<Edge> {
    if a.Some? && b.Some? then {(a.value, b.value)} else {}
  }

  /** The includes a forest below `parent` shows, both ends inside the repository. */
  function Edges(parent: Option<Path>, f: Forest): set<Edge>
    decreases f
  {
    match f
    case Empty => {}
    case Node(file, inner, next) =>
      EdgeBetween(parent, Rel(file)) + Edges(Rel(file), inner) + Edges(parent, next)
  }

  // ---- reading the listing back ------------------------------------------------

  type Stack = seq<Option<Path>>

  function Cut(stack: Stack, depth: nat): Stack {
    if depth < |stack| then stack[..depth] else stack
  }

  function Top(stack: Stack): Option<Path> {
    if stack == [] then None else stack[|stack| - 1]
  }

  function Push(stack: Stack, e: Entry): Stack {
    match e
    case Message => stack
    case Header(dots, path) => Cut(stack, dots) + [path]
  }

  function Seen(stack: Stack, e: Entry): set<Edge> {
    match e
    case Message => {}
    case Header(dots, path) => EdgeBetween(Top(Cut(stack, dots)), path)
  }

  /** The edges collected from a listing, from a stack on. */
  function Collect(stack: Stack, lines: Listing): set<Edge>
    decreases lines
  {
    match lines
    case Nothing => {}
    case Line(e, rest) => Seen(stack, e) + Collect(Push(stack, e), rest)
  }

  function ListingFrom(lines: seq<Entry>, i: nat): Listing
    decreases |lines| - i
  {
    if i >= |lines| then Nothing else Line(lines[i], ListingFrom(lines, i + 1))
  }

  function WithoutMessages(lines: Listing): Listing {
    match lines
    case Nothing => Nothing
    case Line(e, rest) => if e.Message? then WithoutMessages(rest) else Line(e, WithoutMessages(rest))
  }

  /** The lines that are no messages. */
  function Headers(lines: Listing): seq<Entry> {
    match lines
    case Nothing => []
    case Line(e, rest) => (if e.Header? then [e] else []) + Headers(rest)
  }

  predicate NoMessage(lines: Listing) {
    match lines
    case Nothing => true
    case Line(e, rest) => e.Header? && NoMessage(rest)
  }

  lemma {:induction false} MessagesDoNotCount(stack: Stack, lines: Listing)
    ensures Collect(stack, WithoutMessages(lines)) == Collect(stack, lines)
    ensures NoMessage(WithoutMessages(lines)) && Headers(WithoutMessages(lines)) == Headers(lines)
    decreases lines
  {
    if lines.Line? {
      MessagesDoNotCount(Push(stack, lines.entry), lines.rest);
    }
  }

  /** The stack after a forest printed at `dots`. */
  ghost function StackAfter(stack: Stack, f: Forest, dots: nat): (r: Stack)
    requires |stack| >= dots
    ensures |r| >= dots && r[..dots] == stack[..dots]
    decreases f
  {
    match f
    case Empty => stack
    case Node(file, inner, next) =>
      StackAfter(StackAfter(stack[..dots] + [Rel(file)], inner, dots + 1), next, dots)
  }

  lemma PushDown(stack: Stack, dots: nat, path: Option<Path>)
    requires |stack| >= dots >= 1
    ensures Push(stack, Header(dots, path)) == stack[..dots] + [path]
    ensures Seen(stack, Header(dots, path)) == EdgeBetween(stack[dots - 1], path)
  {
    assert Cut(stack, dots) == stack[..dots];
  }

  lemma {:induction false} CollectForest(stack: Stack, f: Forest, dots: nat, rest: Listing)
    requires |stack| >= dots >= 1
    ensures Collect(stack, Print(f, dots, rest)) ==
            Edges(stack[dots - 1], f) + Collect(StackAfter(stack, f, dots), rest)
    decreases f
  {
    match f
    case Empty =>
    case Node(file, inner, next) =>
      hide Cut, Push, Top;
      var below := stack[..dots] + [Rel(file)];
      PushDown(stack, dots, Rel(file));
      CollectForest(below, inner, dots + 1, Print(next, dots, rest));
      var after := StackAfter(below, inner, dots + 1);
      assert after[dots - 1] == after[..dots + 1][dots - 1] == stack[dots - 1];
      CollectForest(after, next, dots, rest);
  }

  /** Reading a printed tree back gives exactly its edges, whatever messages lie between. */
  lemma IncludeTreeExact(top: Path, f: Forest, lines: Listing)
    requires WithoutMessages(lines) == Print(f, 1, Nothing)
    ensures Collect([Some(top)], lines) == Edges(Some(top), f)
  {
    MessagesDoNotCount([Some(top)], lines);
    CollectForest([Some(top)], f, 1, Nothing);
  }

  lemma CollectLine(stack: Stack, lines: seq<Entry>, i: nat)
    requires i < |lines|
    ensures Collect(stack, ListingFrom(lines, i))
         == Seen(stack, lines[i]) + Collect(Push(stack, lines[i]), ListingFrom(lines, i + 1))
  {
    hide Seen, Push;
  }

  lemma CollectNothing(stack: Stack, lines: seq<Entry>)
    ensures Collect(stack, ListingFrom(lines, |lines|)) == {}
  {
  }

  /** What one line does to the stack and the edges. */
  lemma OneLine(before: Stack, e: Entry, stack: Stack, seen: set<Edge>, edges: set<Edge>)
    requires e.Message? ==> stack == before && edges == seen
    requires e.Header? ==>
      var cut := if e.dots < |before| then before[..e.dots] else before;
      var parent := if cut != [] then cut[|cut| - 1] else None;
      && stack == cut + [e.path]
      && edges == if parent.Some? && e.path.Some? then seen + {(parent.value, e.path.value)} else seen
    ensures stack == Push(before, e) && edges == seen + Seen(before, e)
  {
  }

  method IncludeTree(top: Path, lines: seq<Entry>) returns (edges: set<Edge>)
    ensures edges == Collect([Some(top)], ListingFrom(lines, 0))
    ensures forall f :: WithoutMessages(ListingFrom(lines, 0)) == Print(f, 1, Nothing) ==> edges == Edges(Some(top), f)
  {
    hide Print, Edges, WithoutMessages, Collect, ListingFrom, Push, Seen;
    edges := {};
    var stack: Stack := [Some(top)];
    for i := 0 to |lines|
      invariant edges + Collect(stack, ListingFrom(lines, i)) == Collect([Some(top)], ListingFrom(lines, 0))
    {
      ghost var before, seen := stack, edges;
      CollectLine(stack, lines, i);
      if lines[i].Header? {
        var depth, path := lines[i].dots, lines[i].path;
        if depth < |stack| {
          stack := stack[..depth];
        }
        var parent := if stack != [] then stack[|stack| - 1] else None;
        if parent.Some? && path.Some? {
          edges := edges + {(parent.value, path.value)};
        }
        stack := stack + [path];
      }
      OneLine(before, lines[i], stack, seen, edges);
    }
    CollectNothing(stack, lines);
    forall f | WithoutMessages(ListingFrom(lines, 0)) == Print(f, 1, Nothing)
      ensures edges == Edges(Some(top), f)
    {
      IncludeTreeExact(top, f, ListingFrom(lines, 0));
    }
  }

  // ---- the include-once walk ---------------------------------------------------

  /** The `#include`s of every file, in order. */
  datatype Project = Project(includes: map<File, seq<File>>)

  function IncludesOf(p: Project, f: File): seq<File> {
    if f in p.includes then p.includes[f] else []
  }

  ghost predicate Complete(p: Project) {
    forall f, g :: f in p.includes && g in p.includes[f] ==> g in p.includes
  }

  /** Opens the listed files that are not open yet, depth first; the forest visited and all open files. */
  function Walk(p: Project, gs: seq<File>, visited: set<File>): (r: (Forest, set<File>))
    requires Complete(p) && forall g <- gs :: g in p.includes
    ensures visited <= r.1
    decreases p.includes.Keys - visited, |gs|
  {
    if gs == [] then (Empty, visited)
    else
      assert forall g <- gs[1..] :: g in gs;
      if gs[0] in visited then Walk(p, gs[1..], visited)
      else
        assert gs[0] in p.includes.Keys - visited;
        var (inner, o) := Walk(p, IncludesOf(p, gs[0]), visited + {gs[0]});
        var (next, o') := Walk(p, gs[1..], o);
        (Node(gs[0], inner, next), o')
  }

  /** The edges seen when `root` is compiled: a source, or a header alone. */
  ghost function Shown(p: Project, root: Path): set<Edge>
    requires Complete(p)
  {
    Edges(Some(root), Walk(p, IncludesOf(p, Inside(root)), {Inside(root)}).0)
  }

  function FilesOf(f: Forest): set<File> {
    match f
    case Empty => {}
    case Node(file, inner, next) => {file} + FilesOf(inner) + FilesOf(next)
  }

  /** Exactly the newly visited files are in the forest, and every listed file is open at the end. */
  lemma {:induction false} WalkOpens(p: Project, gs: seq<File>, visited: set<File>)
    requires Complete(p) && forall g <- gs :: g in p.includes
    ensures var (f, o) := Walk(p, gs, visited); o == visited + FilesOf(f) && forall g <- gs :: g in o
    decreases p.includes.Keys - visited, |gs|
  {
    if gs == [] {
    } else {
      assert forall g <- gs :: g == gs[0] || g in gs[1..];
      assert forall g <- gs[1..] :: g in gs;
      if gs[0] in visited {
        WalkOpens(p, gs[1..], visited);
      } else {
        assert gs[0] in p.includes.Keys - visited;
        WalkOpens(p, IncludesOf(p, gs[0]), visited + {gs[0]});
        WalkOpens(p, gs[1..], Walk(p, IncludesOf(p, gs[0]), visited + {gs[0]}).1);
      }
    }
  }

  /** What is shown is really included: no false alarm. */
  lemma {:induction false} ShownAreIncludes(p: Project, parent: Option<Path>, gs: seq<File>, visited: set<File>,
      e: Edge)
    requires Complete(p) && forall g <- gs :: g in p.includes
    requires parent.Some? ==> forall g <- gs :: g in IncludesOf(p, Inside(parent.value))
    requires e in Edges(parent, Walk(p, gs, visited).0)
    ensures Inside(e.1) in IncludesOf(p, Inside(e.0))
    decreases p.includes.Keys - visited, |gs|
  {
    var g, rest := gs[0], gs[1..];
    assert forall h <- rest :: h in gs;
    if g in visited {
      ShownAreIncludes(p, parent, rest, visited, e);
    } else {
      assert g in p.includes.Keys - visited;
      var (inner, o) := Walk(p, IncludesOf(p, g), visited + {g});
      if e in Edges(Rel(g), inner) {
        ShownAreIncludes(p, Rel(g), IncludesOf(p, g), visited + {g}, e);
      } else if e in Edges(parent, Walk(p, rest, o).0) {
        ShownAreIncludes(p, parent, rest, o, e);
      }
    }
  }

  const STUB: Path := "<stub>"

  /** A header compiled alone through a stub shows the same edges, apart from the stub's own. */
  lemma HeaderAlone(p: Project, h: Path)
    requires Complete(p) && Inside(h) in p.includes && Inside(STUB) !in p.includes
    ensures var seen := Edges(Some(STUB), Walk(p, [Inside(h)], {}).0);
      (set e <- seen | e.0 != STUB) == Shown(p, h)
  {
    var gs := [Inside(h)];
    var inner := Walk(p, IncludesOf(p, Inside(h)), {Inside(h)}).0;
    assert gs[1..] == [] && {} + {Inside(h)} == {Inside(h)};
    assert Walk(p, gs, {}).0 == Node(Inside(h), inner, Empty);
    forall e | e in Shown(p, h)
      ensures e.0 != STUB
    {
      ShownAreIncludes(p, Some(h), IncludesOf(p, Inside(h)), {Inside(h)}, e);
    }
  }

  // ---- nothing hides -------------------------------------------------------------

  /** No included file is a composition point, and system headers include none of the repository's. */
  ghost predicate Ordinary(t: Table, p: Project) {
    forall f, g :: f in p.includes && g in p.includes[f] ==>
      (g.Inside? ==> g.path !in t.composition) && (f.System? ==> g.System?)
  }

  ghost predicate Tidy(t: Table, f: Forest) {
    match f
    case Empty => true
    case Node(file, inner, next) =>
      && (if file.Inside? then file.path !in t.composition && Tidy(t, inner) else OnlySystem(inner))
      && Tidy(t, next)
  }

  ghost predicate OnlySystem(f: Forest) {
    forall x <- FilesOf(f) :: x.System?
  }

  lemma {:induction false} WalkTidy(t: Table, p: Project, gs: seq<File>, visited: set<File>)
    requires Complete(p) && Ordinary(t, p) && forall g <- gs :: g in p.includes
    requires forall g <- gs :: g.Inside? ==> g.path !in t.composition
    ensures Tidy(t, Walk(p, gs, visited).0)
    ensures (forall g <- gs :: g.System?) ==> OnlySystem(Walk(p, gs, visited).0)
    decreases p.includes.Keys - visited, |gs|
  {
    if gs == [] {
    } else {
      var g, rest := gs[0], gs[1..];
      assert forall h <- rest :: h in gs;
      if g in visited {
        WalkTidy(t, p, rest, visited);
      } else {
        assert g in p.includes.Keys - visited;
        WalkTidy(t, p, IncludesOf(p, g), visited + {g});
        WalkTidy(t, p, rest, Walk(p, IncludesOf(p, g), visited + {g}).1);
      }
    }
  }

  /** Along a tree of allowed edges the root may include every file of the repository. */
  lemma {:induction false} TreeAllowed(t: Table, root: Path, parent: Path, f: Forest)
    requires ClosedUses(t) && Tidy(t, f)
    requires parent == root || (parent !in t.composition && MayInclude(t, root, parent))
    requires forall e <- Edges(Some(parent), f) :: MayInclude(t, e.0, e.1)
    ensures forall q :: Inside(q) in FilesOf(f) ==> MayInclude(t, root, q)
    decreases f
  {
    match f
    case Empty =>
    case Node(file, inner, next) =>
      if file.Inside? {
        var q := file.path;
        assert (parent, q) in Edges(Some(parent), f);
        if parent != root {
          MayIncludeComposes(t, root, parent, q);
        }
        TreeAllowed(t, root, q, inner);
      }
      TreeAllowed(t, root, parent, next);
  }

  /** If every edge the compiler shows for the analysed sources and headers is allowed, so
      is every include of theirs, also those behind an include guard. */
  lemma NothingHides(t: Table, p: Project, roots: set<Path>)
    requires ClosedUses(t) && Complete(p) && Ordinary(t, p)
    requires forall r, e :: r in roots && e in Shown(p, r) ==> MayInclude(t, e.0, e.1)
    ensures forall r, g :: r in roots && Inside(g) in IncludesOf(p, Inside(r)) && g != r ==> MayInclude(t, r, g)
  {
    forall r, g | r in roots && Inside(g) in IncludesOf(p, Inside(r)) && g != r
      ensures MayInclude(t, r, g)
    {
      NothingHidesFrom(t, p, r, g);
    }
  }

  lemma NothingHidesFrom(t: Table, p: Project, r: Path, g: Path)
    requires ClosedUses(t) && Complete(p) && Ordinary(t, p)
    requires forall e <- Shown(p, r) :: MayInclude(t, e.0, e.1)
    requires Inside(g) in IncludesOf(p, Inside(r)) && g != r
    ensures MayInclude(t, r, g)
  {
    hide MayInclude, ClosedUses;
    var gs := IncludesOf(p, Inside(r));
    WalkOpens(p, gs, {Inside(r)});
    WalkTidy(t, p, gs, {Inside(r)});
    TreeAllowed(t, r, r, Walk(p, gs, {Inside(r)}).0);
  }

  /** Every edge the compiler shows is allowed, and yet one of the roots includes a file it may not. */
  ghost predicate Hides(t: Table, p: Project, roots: set<Path>) {
    && Complete(p) && Ordinary(t, p)
    && (forall r, e :: r in roots && e in Shown(p, r) ==> MayInclude(t, e.0, e.1))
    && exists r, g :: r in roots && Inside(g) in IncludesOf(p, Inside(r)) && g != r && !MayInclude(t, r, g)
  }

  lemma ClosedHidesNothing(t: Table)
    requires ClosedUses(t)
    ensures forall p, roots :: !Hides(t, p, roots)
  {
    hide MayInclude;
    forall p, roots
      ensures !Hides(t, p, roots)
    {
      if Hides(t, p, roots) {
        NothingHides(t, p, roots);
      }
    }
  }

  /** A table that passed the check hides nothing: if every shown edge is allowed, so is every
      include. */
  method LoadTable(decls: seq<Declaration>, prefixes: seq<(Path, Layer)>, composition: map<Path, set<Layer>>)
    returns (table: Option<Table>)
    ensures table.Some? <==> forall d <- decls, u <- d.mayUse :: UseOk(Dictionary(decls), d, u)
    ensures table.Some? ==> table.value == Table(Dictionary(decls), prefixes, composition)
    ensures table.Some? ==> forall p, roots :: !Hides(table.value, p, roots)
  {
    hide MayInclude;
    var uses := CheckTable(decls);
    if uses.Err? {
      return None;
    }
    var t := Table(uses.value, prefixes, composition);
    ClosedIsEnough(t);
    ClosedHidesNothing(t);
    return Some(t);
  }

  // ---- the closure check is needed -------------------------------------------------

  /** `a` includes x and s, x includes s. */
  ghost function Triangle(a: Path, x: File, s: Path): Project {
    Project(map[Inside(a) := [x, Inside(s)], x := [Inside(s)], Inside(s) := []])
  }

  lemma TriangleShown(a: Path, x: File, s: Path)
    requires a != s && x != Inside(a) && x != Inside(s)
    ensures Complete(Triangle(a, x, s))
    ensures Shown(Triangle(a, x, s), a) == EdgeBetween(Some(a), Rel(x)) + EdgeBetween(Rel(x), Some(s))
    ensures Shown(Triangle(a, x, s), s) == {}
    ensures x.Inside? ==> Shown(Triangle(a, x, s), x.path) == {(x.path, s)}
  {
    var p := Triangle(a, x, s);
    var fa, fs := Inside(a), Inside(s);
    assert [x, fs][1..] == [fs] && [fs][1..] == [];
    assert IncludesOf(p, fa) == [x, fs] && IncludesOf(p, x) == [fs] && IncludesOf(p, fs) == [];
    var o := {fa} + {x} + {fs};
    assert Walk(p, [], o) == (Empty, o);
    assert Walk(p, [fs], {fa} + {x}) == (Node(fs, Empty, Empty), o);
    assert Walk(p, [fs], o) == (Empty, o);
    assert Walk(p, [x, fs], {fa}).0 == Node(x, Node(fs, Empty, Empty), Empty);
    assert Walk(p, [fs], {x}).0 == Node(fs, Empty, Empty);
    assert Edges(Rel(x), Node(fs, Empty, Empty)) == EdgeBetween(Rel(x), Some(s));
    assert Shown(p, s) == {};
    if x.Inside? {
      assert Inside(x.path) == x;
      assert Shown(p, x.path) == EdgeBetween(Rel(x), Some(s));
    }
    var tree := Node(x, Node(fs, Empty, Empty), Empty);
    assert Walk(p, IncludesOf(p, Inside(a)), {Inside(a)}).0 == tree;
    assert Edges(Some(a), tree) == EdgeBetween(Some(a), Rel(x)) + Edges(Rel(x), tree.inner) + Edges(Some(a), Empty);
  }

  /** A file of layer l, one of u, one of m: if l may use u, u may use m and l may not use m,
      then the first can include the last unseen, behind the include guard of the second. */
  lemma GapHides(t: Table, a: Path, x: Path, s: Path)
    requires a !in t.composition && x !in t.composition && s !in t.composition
    requires LayerOf(t.prefixes, a).Some? && LayerOf(t.prefixes, x).Some? && LayerOf(t.prefixes, s).Some?
    requires var l, u, m := LayerOf(t.prefixes, a).value, LayerOf(t.prefixes, x).value, LayerOf(t.prefixes, s).value;
      u in Uses(t, l) && m in Uses(t, u) && m !in Uses(t, l) + {l}
    ensures Hides(t, Triangle(a, Inside(x), s), {a, x, s})
  {
    TriangleShown(a, Inside(x), s);
    var p := Triangle(a, Inside(x), s);
    assert Inside(s) in IncludesOf(p, Inside(a)) && !MayInclude(t, a, s);
  }

  /** Every layer that uses another or is used has a file. */
  ghost predicate Populated(t: Table) {
    forall l, u :: u in Uses(t, l) ==> (exists a :: FileOf(t, l, a)) && exists x :: FileOf(t, u, x)
  }

  /** The closure check is exactly what it takes: of the tables whose layers have files, those
      with closed uses are the ones for which no project hides a violation. */
  lemma ClosureNeeded(t: Table)
    requires Populated(t)
    ensures ClosedUses(t) <==> forall p, roots :: !Hides(t, p, roots)
  {
    hide MayInclude;
    if ClosedUses(t) {
      ClosedHidesNothing(t);
    } else {
      var l, u :| u in Uses(t, l) && !(Uses(t, u) <= Uses(t, l) + {l});
      var m :| m in Uses(t, u) && m !in Uses(t, l) + {l};
      var a, x, s :| FileOf(t, l, a) && FileOf(t, u, x) && FileOf(t, m, s);
      GapHides(t, a, x, s);
    }
  }

  /** A composition point that is itself included can hide a violation of its includer. */
  lemma CompositionPointHides(t: Table, a: Path, x: Path, s: Path)
    requires a != x && x != s && a != s && a !in t.composition && x in t.composition
    requires MayInclude(t, a, x) && MayInclude(t, x, s) && !MayInclude(t, a, s)
    ensures var p := Triangle(a, Inside(x), s);
      && Complete(p)
      && (forall r, e :: r in {a, x, s} && e in Shown(p, r) ==> MayInclude(t, e.0, e.1))
      && Inside(s) in IncludesOf(p, Inside(a)) && !MayInclude(t, a, s)
  {
    TriangleShown(a, Inside(x), s);
  }

  /** So can a system header that includes a file of the repository. */
  lemma SystemHeaderHides(t: Table, a: Path, name: string, s: Path)
    requires a != s && !MayInclude(t, a, s)
    ensures var p := Triangle(a, System(name), s);
      && Complete(p)
      && Shown(p, a) == Shown(p, s) == {}
      && Inside(s) in IncludesOf(p, Inside(a)) && !MayInclude(t, a, s)
  {
    TriangleShown(a, System(name), s);
  }
}
