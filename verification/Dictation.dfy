// The reply loop of examples/dictate.c: the ring of the last eight tokens that stops a
// loop, and the line buffer the pieces are appended to.
module Dictation {
  import opened Results

  const DECODE_CAP: nat := 400
  const REPLY_CAP: nat := 4096
  const SPACE: Byte := 0x20

  type Byte = x: int | 0 <= x < 256

  // ---- pieces -----------------------------------------------------------------------

  /** The three bytes of U+2581. */
  predicate Mark(t: seq<Byte>) { |t| >= 3 && t[0] == 0xE2 && t[1] == 0x96 && t[2] == 0x81 }

  /** A piece as shown: U+2581, tabs and line ends as spaces, other control bytes dropped. */
  function Shown(t: seq<Byte>): seq<Byte>
    decreases |t|
  {
    if t == [] then []
    else if Mark(t) then [SPACE] + Shown(t[3..])
    else if t[0] in {9, 10, 13} then [SPACE] + Shown(t[1..])
    else if t[0] >= 0x20 then [t[0]] + Shown(t[1..])
    else Shown(t[1..])
  }

  function Capped(s: seq<Byte>): seq<Byte> { if |s| < REPLY_CAP then s else s[..REPLY_CAP - 1] }

  /** The buffer holds a text as a C string. */
  predicate Holds(line: seq<Byte>, len: nat, text: seq<Byte>) {
    |line| == REPLY_CAP && len == |text| < REPLY_CAP && line[..len] == text && line[len] == 0
  }

  /** What one turn of the loop appends, and how many bytes of the piece it uses. */
  function Head(t: seq<Byte>): (seq<Byte>, nat)
    requires t != []
  {
    if Mark(t) then ([SPACE], 3)
    else if t[0] in {9, 10, 13} then ([SPACE], 1)
    else if t[0] >= 0x20 then ([t[0]], 1)
    else ([], 1)
  }

  lemma ShownHead(t: seq<Byte>)
    requires t != []
    ensures Head(t).1 <= |t|
    ensures Shown(t) == Head(t).0 + Shown(t[Head(t).1..])
  {
  }

  /** Appends as much of a piece as fits and ends the string. */
  method AppendPiece(t: seq<Byte>, line: array<Byte>, len: nat) returns (len': nat)
    requires line.Length == REPLY_CAP && len < REPLY_CAP
    modifies line
    ensures Holds(line[..], len', Capped(old(line[..len]) + Shown(t)))
  {
    hide Shown, Mark;
    len' := len;
    var p := 0;
    ghost var start := line[..len];
    ghost var done: seq<Byte> := [];
    assert t[0..] == t;
    while p < |t| && len' + 1 < REPLY_CAP
      invariant 0 <= p <= |t| && len' < REPLY_CAP
      invariant line[..len'] == start + done
      invariant Shown(t) == done + Shown(t[p..])
      decreases |t| - p
    {
      var (bytes, used) := Head(t[p..]);
      ShownHead(t[p..]);
      assert t[p..][used..] == t[p + used..];
      assert done + (bytes + Shown(t[p + used..])) == (done + bytes) + Shown(t[p + used..]);
      if bytes != [] {
        line[len'] := bytes[0];
        assert line[..len' + 1] == line[..len'] + bytes;
        len' := len' + 1;
      }
      done := done + bytes;
      p := p + used;
    }
    line[len'] := 0;
    assert line[..len'] == start + done;
    if p == |t| {
      assert t[p..] == [];
      ShownNothing();
    }
  }

  lemma ShownNothing()
    ensures Shown([]) == []
  {
  }

  lemma {:induction false} ShownIsPrintable(t: seq<Byte>)
    ensures forall b <- Shown(t) :: b >= 0x20
    ensures |Shown(t)| <= |t|
    decreases |t|
  {
    if t == [] {
    } else {
      ShownHead(t);
      ShownIsPrintable(t[Head(t).1..]);
    }
  }

  predicate Clean(t: seq<Byte>) { forall b <- t :: b >= 0x20 && b != 0xE2 }

  /** A piece of printable bytes without marks is shown as it is. */
  lemma {:induction false} CleanIsKept(t: seq<Byte>)
    requires Clean(t)
    ensures Shown(t) == t
    decreases |t|
  {
    if t == [] {
    } else {
      assert t[0] in t && forall b <- t[1..] :: b in t;
      CleanIsKept(t[1..]);
      assert t == [t[0]] + t[1..];
    }
  }

  /** U+2581 stands at p. */
  predicate MarkAt(t: seq<Byte>, p: int) {
    0 <= p && p + 2 < |t| && t[p] == 0xE2 && t[p + 1] == 0x96 && t[p + 2] == 0x81
  }

  /** What byte p is shown as: its place alone decides. */
  function ByteShown(t: seq<Byte>, p: nat): seq<Byte>
    requires p < |t|
  {
    if MarkAt(t, p) then [0x20]
    else if MarkAt(t, p - 1) || MarkAt(t, p - 2) then []
    else if t[p] == 9 || t[p] == 10 || t[p] == 13 then [0x20]
    else if t[p] < 0x20 then []
    else [t[p]]
  }

  function BytesShown(t: seq<Byte>, p: nat): seq<Byte>
    requires p <= |t|
    decreases |t| - p
  {
    if p == |t| then [] else ByteShown(t, p) + BytesShown(t, p + 1)
  }

  lemma MarkIs(t: seq<Byte>, p: nat)
    requires p <= |t|
    ensures Mark(t[p..]) <==> MarkAt(t, p)
    ensures MarkAt(t, p) ==> BytesShown(t, p) == [0x20] + BytesShown(t, p + 3)
    ensures p < |t| ==> BytesShown(t, p) == ByteShown(t, p) + BytesShown(t, p + 1)
  {
    if MarkAt(t, p) {
      assert BytesShown(t, p + 1) == [] + BytesShown(t, p + 2);
      assert BytesShown(t, p + 2) == [] + BytesShown(t, p + 3);
    }
  }

  lemma {:induction false} ShownFrom(t: seq<Byte>, p: nat)
    requires p <= |t| && !MarkAt(t, p - 1) && !MarkAt(t, p - 2)
    ensures Shown(t[p..]) == BytesShown(t, p)
    decreases |t| - p
  {
    hide BytesShown;
    if p == |t| {
      assert t[p..] == [] && BytesShown(t, p) == [] by {
        NoBytes(t);
      }
      ShownNothing();
    } else {
      MarkIs(t, p);
      assert t[p..][1..] == t[p + 1..];
      if MarkAt(t, p) {
        assert t[p..][3..] == t[p + 3..];
        ShownFrom(t, p + 3);
      } else {
        ShownFrom(t, p + 1);
      }
    }
  }

  lemma NoBytes(t: seq<Byte>)
    ensures BytesShown(t, |t|) == []
  {
  }

  /** A piece is shown byte by byte: U+2581, tabs and line ends as a space, other control
      bytes not at all, everything else as it is. */
  lemma ShownExactly(t: seq<Byte>)
    ensures Shown(t) == BytesShown(t, 0)
  {
    ShownFrom(t, 0);
    assert t[0..] == t;
  }

  // ---- the reply ---------------------------------------------------------------------------

  /** The last eight tokens before and with i repeat with period one or two. */
  predicate Loops(ts: seq<int>, i: int) {
    7 <= i < |ts| && forall k :: i - 5 <= k <= i ==> ts[k] == ts[k - 2]
  }

  /** The reply ends at i: no more tokens, the cap, a stop token, or a loop. */
  predicate Stops(ts: seq<int>, eos: int, turn: int, i: int) {
    i >= |ts| || i >= DECODE_CAP || (i >= 0 && (ts[i] == eos || ts[i] == turn)) || Loops(ts, i)
  }

  ghost predicate FirstStop(ts: seq<int>, eos: int, turn: int, m: int) {
    0 <= m <= |ts| && Stops(ts, eos, turn, m) && forall i :: 0 <= i < m ==> !Stops(ts, eos, turn, i)
  }

  /** The pieces of the tokens, shown one after the other. */
  function Text(ts: seq<int>, piece: int -> seq<Byte>): seq<Byte>
    decreases |ts|
  {
    if ts == [] then [] else Text(ts[..|ts| - 1], piece) + Shown(piece(ts[|ts| - 1]))
  }

  function Trimmed(s: seq<Byte>): seq<Byte> { if s != [] && s[0] == SPACE then s[1..] else s }

  /** The line printed for a reply, without its newline; None when nothing is printed. */
  ghost predicate Prints(ts: seq<int>, eos: int, turn: int, channel: int, piece: int -> seq<Byte>,
      out: Option<seq<Byte>>) {
    exists m :: FirstStop(ts, eos, turn, m) && PrintsAt(ts, channel, piece, m, out)
  }

  /** A reply that starts on the thought channel is dropped, any other is shown up to m. */
  predicate PrintsAt(ts: seq<int>, channel: int, piece: int -> seq<Byte>, m: int, out: Option<seq<Byte>>)
    requires 0 <= m <= |ts|
  {
    if m == 0 || channel < 0 || ts[0] != channel then Printed(Capped(Text(ts[..m], piece)), out) else out == None
  }

  predicate Printed(line: seq<Byte>, out: Option<seq<Byte>>) {
    out == if Trimmed(line) == [] then None else Some(Trimmed(line))
  }

  /** The ring after token i of a reply. */
  predicate Ring(hist: seq<int>, ts: seq<int>, n: nat) {
    |hist| == 8 && n <= |ts| && forall k :: 0 <= k < n && n - 8 <= k ==> hist[k % 8] == ts[k]
  }

  /** The ring's entries for token k and the one two before it agree. */
  predicate Agree(hist: seq<int>, k: int)
    requires |hist| == 8
  {
    hist[k % 8] == hist[(k - 2) % 8]
  }

  method Cycles(hist: array<int>, i: nat) returns (cyc2: bool)
    requires hist.Length == 8 && i >= 7
    ensures cyc2 <==> forall k :: i - 5 <= k <= i ==> Agree(hist[..], k)
  {
    cyc2 := true;
    for k := i - 5 to i + 1
      invariant cyc2 <==> forall j :: i - 5 <= j < k ==> Agree(hist[..], j)
    {
      assert Agree(hist[..], k) <==> hist[k % 8] == hist[(k - 2) % 8];
      cyc2 := cyc2 && hist[k % 8] == hist[(k - 2) % 8];
    }
  }

  lemma RingLoops(hist: seq<int>, ts: seq<int>, i: nat)
    requires 7 <= i < |ts| && Ring(hist, ts, i + 1)
    ensures Loops(ts, i) <==> forall k :: i - 5 <= k <= i ==> Agree(hist, k)
  {
    forall k | i - 5 <= k <= i
      ensures Agree(hist, k) <==> ts[k] == ts[k - 2]
    {
      assert hist[k % 8] == ts[k];
      assert hist[(k - 2) % 8] == ts[k - 2];
    }
  }

  lemma RingNext(hist: seq<int>, ts: seq<int>, i: nat)
    requires i < |ts| && Ring(hist, ts, i)
    ensures Ring(hist[i % 8 := ts[i]], ts, i + 1)
  {
    forall k | 0 <= k < i && i - 7 <= k
      ensures k % 8 != i % 8
    {
    }
  }

  lemma StopsExactly(ts: seq<int>, eos: int, turn: int, i: nat)
    requires i < |ts| && i < DECODE_CAP && ts[i] != eos && ts[i] != turn
    ensures Stops(ts, eos, turn, i) <==> Loops(ts, i)
  {
  }

  lemma EndsReply(ts: seq<int>, eos: int, turn: int, i: nat)
    ensures i >= DECODE_CAP || i >= |ts| || ts[i] == eos || ts[i] == turn ==> Stops(ts, eos, turn, i)
  {
  }

  lemma NoLoopYet(ts: seq<int>, i: nat)
    requires i < 7
    ensures !Loops(ts, i)
  {
  }

  lemma {:induction false} SomeStop(ts: seq<int>, eos: int, turn: int, i: nat) returns (m: nat)
    requires i <= |ts| && forall j :: 0 <= j < i ==> !Stops(ts, eos, turn, j)
    ensures i <= m && FirstStop(ts, eos, turn, m)
    decreases |ts| - i
  {
    hide Loops;
    if Stops(ts, eos, turn, i) {
      m := i;
    } else {
      m := SomeStop(ts, eos, turn, i + 1);
    }
  }

  lemma FirstIsChannel(ts: seq<int>, eos: int, turn: int, channel: int, piece: int -> seq<Byte>)
    requires ts != [] && !Stops(ts, eos, turn, 0) && channel >= 0 && ts[0] == channel
    ensures Prints(ts, eos, turn, channel, piece, None)
  {
    hide Stops, Text;
    var m := SomeStop(ts, eos, turn, 1);
    assert PrintsAt(ts, channel, piece, m, None);
  }

  lemma EmptyStart(ts: seq<int>, piece: int -> seq<Byte>, line: seq<Byte>, hist: seq<int>)
    requires |line| == REPLY_CAP && line[0] == 0 && |hist| == 8
    ensures Holds(line, 0, Capped(Text(ts[..0], piece))) && Ring(hist, ts, 0)
  {
  }

  lemma TextOne(ts: seq<int>, piece: int -> seq<Byte>, i: nat)
    requires i < |ts|
    ensures Text(ts[..i + 1], piece) == Text(ts[..i], piece) + Shown(piece(ts[i]))
  {
    assert ts[..i + 1][..i] == ts[..i];
  }

  lemma CapTwice(a: seq<Byte>, b: seq<Byte>)
    ensures Capped(Capped(a) + b) == Capped(a + b)
  {
    if |a| >= REPLY_CAP {
      assert (Capped(a) + b)[..REPLY_CAP - 1] == (a + b)[..REPLY_CAP - 1];
    }
  }

  /** The reply of one utterance: `ts` is what the session would decode until it fails. */
  method Transcribe(ts: seq<int>, eos: int, turn: int, channel: int, piece: int -> seq<Byte>)
    returns (out: Option<seq<Byte>>)
    ensures Prints(ts, eos, turn, channel, piece, out)
  {
    hide Stops, Loops, Ring, Text, Capped, Shown, Agree;
    var line := new Byte[REPLY_CAP](_ => 0);
    var len: nat := 0;
    var hist := new int[8](_ => 0);
    EmptyStart(ts, piece, line[..], hist[..]);
    var i: nat := 0;
    while i < DECODE_CAP && i < |ts| && ts[i] != eos && ts[i] != turn
      invariant i <= |ts|
      invariant forall j :: 0 <= j < i ==> !Stops(ts, eos, turn, j)
      invariant i > 0 && channel >= 0 ==> ts[0] != channel
      invariant Ring(hist[..], ts, i)
      invariant Holds(line[..], len, Capped(Text(ts[..i], piece)))
      decreases |ts| - i
    {
      StopsExactly(ts, eos, turn, i);
      if i == 0 && channel >= 0 && ts[i] == channel {
        NoLoopYet(ts, 0);
        FirstIsChannel(ts, eos, turn, channel, piece);
        return None;
      }
      RingNext(hist[..], ts, i);
      hist[i % 8] := ts[i];
      var looping := false;
      if i >= 7 {
        looping := Cycles(hist, i);
        RingLoops(hist[..], ts, i);
      } else {
        NoLoopYet(ts, i);
      }
      if looping {
        break;
      }
      TextOne(ts, piece, i);
      CapTwice(Text(ts[..i], piece), Shown(piece(ts[i])));
      len := AppendPiece(piece(ts[i]), line, len);
      i := i + 1;
    }
    EndsReply(ts, eos, turn, i);
    assert FirstStop(ts, eos, turn, i);
    var shown := line[..len];
    var text := if len > 0 && line[0] == SPACE then shown[1..] else shown;
    out := if text == [] then None else Some(text);
    assert PrintsAt(ts, channel, piece, i, out);
  }

  lemma {:induction false} TextIsPrintable(ts: seq<int>, piece: int -> seq<Byte>)
    ensures forall b <- Text(ts, piece) :: b >= 0x20
    decreases |ts|
  {
    if ts == [] {
    } else {
      TextIsPrintable(ts[..|ts| - 1], piece);
      ShownIsPrintable(piece(ts[|ts| - 1]));
    }
  }

  /** Whatever the model replies, at most one line is printed: printable bytes, no line end,
      shorter than the buffer. */
  lemma OneLine(ts: seq<int>, eos: int, turn: int, channel: int, piece: int -> seq<Byte>, line: seq<Byte>)
    requires Prints(ts, eos, turn, channel, piece, Some(line))
    ensures line != [] && |line| < REPLY_CAP && forall b <- line :: b >= 0x20
  {
    hide Stops, Text;
    var m :| FirstStop(ts, eos, turn, m) && PrintsAt(ts, channel, piece, m, Some(line));
    TextIsPrintable(ts[..m], piece);
    var shown := Capped(Text(ts[..m], piece));
    assert Printed(shown, Some(line)) && |shown| < REPLY_CAP;
    assert forall b <- shown :: b in Text(ts[..m], piece);
    assert forall b <- Trimmed(shown) :: b in shown;
  }

  /** A reply in which six tokens from p + 2 on each repeat the one two before is cut at
      p + 7 at the latest, whatever follows. */
  lemma LoopIsCut(ts: seq<int>, eos: int, turn: int, m: nat, p: nat)
    requires FirstStop(ts, eos, turn, m)
    requires p + 7 < |ts| && forall k :: p + 2 <= k <= p + 7 ==> ts[k] == ts[k - 2]
    ensures m <= p + 7
  {
    assert Loops(ts, p + 7);
    assert Stops(ts, eos, turn, p + 7);
  }

  /** Token k and the five before it each repeat the one two before. */
  predicate Repeats(ts: seq<int>, k: int) {
    && 7 <= k < |ts| && ts[k] == ts[k - 2] && ts[k - 1] == ts[k - 3] && ts[k - 2] == ts[k - 4]
    && ts[k - 3] == ts[k - 5] && ts[k - 4] == ts[k - 6] && ts[k - 5] == ts[k - 7]
  }

  lemma LoopsAre(ts: seq<int>, k: int)
    ensures Loops(ts, k) <==> Repeats(ts, k)
  {
  }

  /** A reply ends at the first stop token or sixth repetition, else after 400 tokens or at its end. */
  lemma CutExactly(ts: seq<int>, eos: int, turn: int, m: int)
    ensures FirstStop(ts, eos, turn, m)
       <==> && 0 <= m <= |ts| && m <= 400
            && (m == |ts| || m == 400 || ts[m] == eos || ts[m] == turn || Repeats(ts, m))
            && forall i :: 0 <= i < m ==> ts[i] != eos && ts[i] != turn && !Repeats(ts, i)
  {
    hide Loops, Repeats;
    forall k: int
      ensures Loops(ts, k) <==> Repeats(ts, k)
    {
      LoopsAre(ts, k);
    }
    if FirstStop(ts, eos, turn, m) {
      assert m > 400 ==> Stops(ts, eos, turn, 400);
      forall i | 0 <= i < m
        ensures ts[i] != eos && ts[i] != turn && !Repeats(ts, i)
      {
        assert !Stops(ts, eos, turn, i);
      }
    }
  }

  /** A reply that never repeats so runs to its stop token, its end or the cap. */
  lemma OthersRunOn(ts: seq<int>, eos: int, turn: int, m: nat)
    requires FirstStop(ts, eos, turn, m) && forall i :: !Repeats(ts, i)
    ensures m == |ts| || m == 400 || ts[m] == eos || ts[m] == turn
  {
    hide FirstStop, Repeats;
    CutExactly(ts, eos, turn, m);
  }

  lemma {:induction false} TextAppend(a: seq<int>, b: seq<int>, piece: int -> seq<Byte>)
    ensures Text(a + b, piece) == Text(a, piece) + Text(b, piece)
    decreases |b|
  {
    if b == [] {
      assert a + b == a;
    } else {
      assert (a + b)[..|a + b| - 1] == a + b[..|b| - 1];
      TextAppend(a, b[..|b| - 1], piece);
    }
  }

  /** The text of a reply is that of its parts, one after the other. */
  lemma TextIs(a: seq<int>, b: seq<int>, x: int, piece: int -> seq<Byte>)
    ensures Text(a + b, piece) == Text(a, piece) + Text(b, piece)
    ensures Text([x], piece) == BytesShown(piece(x), 0)
  {
    TextAppend(a, b, piece);
    ShownExactly(piece(x));
    hide Shown, BytesShown;
    assert [x][..0] == [];
  }

  /** What is printed: nothing for a reply that starts on the thought channel; of any other
      the first 4095 bytes of its text, without one leading space, unless that is empty. */
  lemma PrintsExactly(ts: seq<int>, eos: int, turn: int, channel: int, piece: int -> seq<Byte>, m: nat,
      out: Option<seq<Byte>>)
    requires FirstStop(ts, eos, turn, m)
    ensures var text := Text(ts[..m], piece);
      var line := if |text| >= 4096 then text[..4095] else text;
      var shown := if line != [] && line[0] == 0x20 then line[1..] else line;
      Prints(ts, eos, turn, channel, piece, out)
      <==> out == if (m > 0 && channel >= 0 && ts[0] == channel) || shown == [] then None else Some(shown)
  {
    hide Stops, Text;
    forall n | FirstStop(ts, eos, turn, n)
      ensures n == m
    {
      OneStop(ts, eos, turn, m, n);
    }
  }

  lemma OneStop(ts: seq<int>, eos: int, turn: int, m: int, n: int)
    requires FirstStop(ts, eos, turn, m) && FirstStop(ts, eos, turn, n)
    ensures m == n
  {
    hide Stops;
  }
}
