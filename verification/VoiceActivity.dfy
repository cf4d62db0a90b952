// The streaming voice-activity loop of examples/push_to_talk.c and examples/dictate.c,
// against the offline cutting of the same frames into utterances.
module VoiceActivity {
  const FRAME: nat := 320
  const OPEN_FRAMES: nat := 3
  const CLOSE_FRAMES: nat := 40
  const MIN_UTT: nat := 8000
  const MAX_UTT: nat := 448000
  const SIZE_T: int := 0x1_0000_0000_0000_0000

  type Pcm = seq<int>

  /** A frame of samples, whether it is loud, and the session's answers should this frame
      open an utterance (`begun`, and the two held-back frames), be pushed, or end one. */
  datatype Frame = Frame(pcm: Pcm, loud: bool, begun: bool, early0: bool, early1: bool, taken: bool, ended: bool)

  datatype Outcome = Transcribed | Discarded | EndFailed

  /** An utterance the loop closed: the numbers of its first and last frame, the audio the
      session took, the speech length in samples, and what became of it. */
  datatype Turn = Turn(first: nat, last: nat, audio: seq<Pcm>, speech: nat, outcome: Outcome)

  // ---- the offline cutting ------------------------------------------------------------

  /** Three loud frames in a row end at i, all of them heard since `start`. */
  predicate OpensAt(fs: seq<Frame>, start: nat, i: int) {
    start + 2 <= i < |fs| && fs[i - 2].loud && fs[i - 1].loud && fs[i].loud
  }

  ghost predicate FirstOpening(fs: seq<Frame>, start: nat, i: int) {
    OpensAt(fs, start, i) && forall j :: start <= j < i ==> !OpensAt(fs, start, j)
  }

  /** The quiet frames at the end of fs[i..n]. */
  function Quiet(fs: seq<Frame>, i: nat, n: nat): nat
    requires i <= n <= |fs|
    decreases n
  {
    if n == i || fs[n - 1].loud then 0 else Quiet(fs, i, n - 1) + 1
  }

  /** The frames of fs[i..n] the session took. */
  function Taken(fs: seq<Frame>, i: nat, n: nat): seq<Pcm>
    requires i <= n <= |fs|
    decreases n
  {
    if n == i then [] else Taken(fs, i, n - 1) + if fs[n - 1].taken then [fs[n - 1].pcm] else []
  }

  /** The samples counted for an utterance opening at i: two held-back frames and those taken since. */
  function Pushed(fs: seq<Frame>, i: nat, n: nat): nat
    requires i <= n <= |fs|
  {
    FRAME * (2 + |Taken(fs, i, n)|)
  }

  predicate EndsAt(fs: seq<Frame>, i: nat, e: int) {
    i <= e < |fs| && (Quiet(fs, i, e + 1) >= CLOSE_FRAMES || Pushed(fs, i, e + 1) + FRAME > MAX_UTT)
  }

  ghost predicate FirstEnd(fs: seq<Frame>, i: nat, e: int) {
    EndsAt(fs, i, e) && forall j :: i <= j < e ==> !EndsAt(fs, i, j)
  }

  function Audio(fs: seq<Frame>, i: nat, n: nat): seq<Pcm>
    requires 2 <= i < n <= |fs|
  {
    (if fs[i].early0 then [fs[i - 2].pcm] else []) + (if fs[i].early1 then [fs[i - 1].pcm] else []) + Taken(fs, i, n)
  }

  /** The C subtraction of two size_t values. */
  function Speech(fs: seq<Frame>, i: nat, n: nat): nat
    requires i <= n <= |fs|
  {
    (Pushed(fs, i, n) - Quiet(fs, i, n) * FRAME) % SIZE_T
  }

  function Judged(speech: nat, ended: bool): Outcome {
    if !ended then EndFailed else if speech >= MIN_UTT then Transcribed else Discarded
  }

  /** A turn over the utterance that opens at i and ends at e. */
  predicate IsTurn(fs: seq<Frame>, i: nat, e: nat, t: Turn)
    requires 2 <= i <= e < |fs|
  {
    && t.first == i - 2 && t.last == e
    && t.audio == Audio(fs, i, e + 1)
    && t.speech == Speech(fs, i, e + 1)
    && t.outcome == Judged(t.speech, fs[e].ended)
  }

  /** Nothing more is closed: nothing opens, the session refuses to begin, or the stream
      stops before the end. */
  ghost predicate Silent(fs: seq<Frame>, start: nat) {
    forall i :: FirstOpening(fs, start, i) ==> !fs[i].begun || forall e :: !EndsAt(fs, i, e)
  }

  /** The turns of the frames heard from `start` on. */
  ghost predicate Cut(fs: seq<Frame>, start: nat, turns: seq<Turn>)
    decreases |turns|
  {
    if turns == [] then Silent(fs, start)
    else
      var t := turns[0];
      && FirstOpening(fs, start, t.first + 2) && fs[t.first + 2].begun
      && t.first + 2 <= t.last < |fs| && FirstEnd(fs, t.first + 2, t.last)
      && IsTurn(fs, t.first + 2, t.last, t)
      && Cut(fs, t.last + 1, turns[1..])
  }

  /** The same, for turns still being collected: `rest` is where the listening goes on. */
  ghost predicate CutSoFar(fs: seq<Frame>, start: nat, turns: seq<Turn>, rest: nat)
    decreases |turns|
  {
    if turns == [] then start == rest
    else
      var t := turns[0];
      && FirstOpening(fs, start, t.first + 2) && fs[t.first + 2].begun
      && t.first + 2 <= t.last < |fs| && FirstEnd(fs, t.first + 2, t.last)
      && IsTurn(fs, t.first + 2, t.last, t)
      && CutSoFar(fs, t.last + 1, turns[1..], rest)
  }

  lemma {:induction false} CutOneMore(fs: seq<Frame>, start: nat, turns: seq<Turn>, rest: nat, t: Turn)
    requires CutSoFar(fs, start, turns, rest)
    requires FirstOpening(fs, rest, t.first + 2) && fs[t.first + 2].begun
    requires t.first + 2 <= t.last < |fs| && FirstEnd(fs, t.first + 2, t.last)
    requires IsTurn(fs, t.first + 2, t.last, t)
    ensures CutSoFar(fs, start, turns + [t], t.last + 1)
    decreases |turns|
  {
    hide FirstOpening, FirstEnd, IsTurn;
    if turns == [] {
      assert (turns + [t])[1..] == [];
    } else {
      assert (turns + [t])[1..] == turns[1..] + [t];
      CutOneMore(fs, turns[0].last + 1, turns[1..], rest, t);
    }
  }

  lemma {:induction false} CutDone(fs: seq<Frame>, start: nat, turns: seq<Turn>, rest: nat)
    requires CutSoFar(fs, start, turns, rest) && Silent(fs, rest)
    ensures Cut(fs, start, turns)
    decreases |turns|
  {
    hide FirstOpening, FirstEnd, IsTurn, Silent;
    if turns == [] {
    } else {
      CutDone(fs, turns[0].last + 1, turns[1..], rest);
    }
  }

  // ---- the streaming loop ---------------------------------------------------------------

  /** `loud` counts the loud frames in a row before n since `start`; none has opening. */
  ghost predicate Listening(fs: seq<Frame>, start: nat, n: nat, loud: nat) {
    && start <= n <= |fs| && loud < OPEN_FRAMES && loud <= n - start
    && (forall k :: n - loud <= k < n ==> fs[k].loud)
    && (loud < n - start ==> !fs[n - loud - 1].loud)
    && forall j :: start <= j < n ==> !OpensAt(fs, start, j)
  }

  /** The ring holds the loud frames just heard. */
  ghost predicate Held(fs: seq<Frame>, n: nat, loud: nat, ring: seq<Pcm>) {
    && |ring| == OPEN_FRAMES && loud < OPEN_FRAMES && loud <= n <= |fs|
    && forall k :: 0 <= k < loud ==> ring[k] == fs[n - loud + k].pcm
  }

  ghost predicate Speaking(fs: seq<Frame>, i: nat, n: nat, quiet: nat, pushed: nat, audio: seq<Pcm>) {
    && 2 <= i < n <= |fs|
    && quiet == Quiet(fs, i, n) && pushed == Pushed(fs, i, n) && audio == Audio(fs, i, n)
    && forall e :: i <= e < n ==> !EndsAt(fs, i, e)
  }

  method Listen(fs: seq<Frame>) returns (turns: seq<Turn>)
    ensures Cut(fs, 0, turns)
  {
    hide FirstOpening, FirstEnd, EndsAt, IsTurn, Silent, Cut, CutSoFar, Listening, Speaking, Early, OpensAt;
    var pending := new Pcm[OPEN_FRAMES](_ => []);
    var pushed: nat, loud: nat, quiet: nat, inSpeech, opening: nat := 0, 0, 0, false, 0;
    var audio: seq<Pcm> := [];
    ghost var start := 0;
    turns := [];
    StartListening(fs, 0);
    NoTurns(fs, 0);
    for n := 0 to |fs|
      invariant CutSoFar(fs, 0, turns, start)
      invariant !inSpeech ==> Listening(fs, start, n, loud)
      invariant !inSpeech ==> Held(fs, n, loud, pending[..])
      invariant inSpeech ==> Began(fs, start, opening) && opening < n && Speaking(fs, opening, n, quiet, pushed, audio)
    {
      var f := fs[n];
      var open := true;
      if !inSpeech {
        open, loud := Hear(fs, start, n, loud, pending);
        if open {
          if !f.begun {
            BeginFails(fs, start, n);
            CutDone(fs, 0, turns, start);
            return;
          }
          inSpeech, opening, quiet := true, n, 0;
          audio := (if f.early0 then [pending[0]] else []) + (if f.early1 then [pending[1]] else []);
          pushed := 2 * FRAME;
          EarlyIs(fs, n);
        }
      }
      if open {
        BeganOpens(fs, start, opening);
        audio, pushed, quiet := Push(fs, opening, n, audio, pushed, quiet);
        if quiet >= CLOSE_FRAMES || pushed + FRAME > MAX_UTT {
          var t := Close(fs, opening, n, audio, pushed, quiet);
          CutOneMore(fs, 0, turns, start, t);
          turns := turns + [t];
          inSpeech, loud := false, 0;
          start := n + 1;
          StartListening(fs, start);
        } else {
          StillSpeaking(fs, opening, n, audio, pushed, quiet);
        }
      }
    }
    if inSpeech {
      BeganOpens(fs, start, opening);
      NeverEnds(fs, start, opening, quiet, pushed, audio);
    } else {
      NeverOpens(fs, start, loud);
    }
    CutDone(fs, 0, turns, start);
  }

  ghost predicate Began(fs: seq<Frame>, start: nat, i: nat) {
    2 <= i < |fs| && FirstOpening(fs, start, i) && fs[i].begun
  }

  ghost predicate NotEnded(fs: seq<Frame>, i: nat, n: nat) {
    forall e :: i <= e < n ==> !EndsAt(fs, i, e)
  }

  predicate Counted(fs: seq<Frame>, i: nat, n: nat, audio: seq<Pcm>, pushed: nat, quiet: nat) {
    2 <= i < n <= |fs| && quiet == Quiet(fs, i, n) && pushed == Pushed(fs, i, n) && audio == Audio(fs, i, n)
  }

  /** The end of the utterance: its speech without the closing silence decides. */
  method Close(fs: seq<Frame>, opening: nat, n: nat, audio: seq<Pcm>, pushed: nat, quiet: nat) returns (t: Turn)
    requires n < |fs| && Counted(fs, opening, n + 1, audio, pushed, quiet) && NotEnded(fs, opening, n)
    requires quiet >= CLOSE_FRAMES || pushed + FRAME > MAX_UTT
    ensures t.first + 2 == opening && t.last == n
    ensures FirstEnd(fs, opening, n) && IsTurn(fs, opening, n, t)
  {
    hide Quiet, Pushed, Audio;
    var speech := (pushed - quiet * FRAME) % SIZE_T;
    t := Turn(opening - 2, n, audio, speech, Judged(speech, fs[n].ended));
  }

  lemma StillSpeaking(fs: seq<Frame>, i: nat, n: nat, audio: seq<Pcm>, pushed: nat, quiet: nat)
    requires n < |fs| && Counted(fs, i, n + 1, audio, pushed, quiet) && NotEnded(fs, i, n)
    requires quiet < CLOSE_FRAMES && pushed + FRAME <= MAX_UTT
    ensures Speaking(fs, i, n + 1, quiet, pushed, audio)
  {
    hide Quiet, Pushed, Audio;
  }

  lemma BeganOpens(fs: seq<Frame>, start: nat, i: nat)
    requires Began(fs, start, i)
    ensures FirstOpening(fs, start, i) && fs[i].loud
  {
  }

  lemma StartListening(fs: seq<Frame>, n: nat)
    requires n <= |fs|
    ensures Listening(fs, n, n, 0)
  {
  }

  lemma NoTurns(fs: seq<Frame>, start: nat)
    ensures CutSoFar(fs, start, [], start)
  {
  }

  lemma EarlyIs(fs: seq<Frame>, i: nat)
    requires 2 <= i < |fs|
    ensures Early(fs, i) == (if fs[i].early0 then [fs[i - 2].pcm] else [])
            + (if fs[i].early1 then [fs[i - 1].pcm] else [])
  {
  }

  /** One frame while nobody speaks: it goes to the ring, and the third loud one opens. */
  method Hear(fs: seq<Frame>, ghost start: nat, n: nat, loud: nat, pending: array<Pcm>) returns (open: bool, loud': nat)
    requires n < |fs| && pending.Length == OPEN_FRAMES
    requires Listening(fs, start, n, loud)
    requires Held(fs, n, loud, pending[..])
    modifies pending
    ensures open ==> 2 <= n && FirstOpening(fs, start, n) && pending[0] == fs[n - 2].pcm && pending[1] == fs[n - 1].pcm
    ensures !open ==> Listening(fs, start, n + 1, loud')
    ensures !open ==> Held(fs, n + 1, loud', pending[..])
  {
    pending[loud % OPEN_FRAMES] := fs[n].pcm;
    loud' := if fs[n].loud then loud + 1 else 0;
    open := loud' >= OPEN_FRAMES;
  }

  /** One frame of an utterance. */
  method Push(fs: seq<Frame>, i: nat, n: nat, audio: seq<Pcm>, pushed: nat, quiet: nat)
    returns (audio': seq<Pcm>, pushed': nat, quiet': nat)
    requires 2 <= i <= n < |fs| && fs[i].loud
    requires if i == n then quiet == 0 && pushed == 2 * FRAME
             && audio == Early(fs, i) else Speaking(fs, i, n, quiet, pushed, audio)
    ensures Counted(fs, i, n + 1, audio', pushed', quiet') && NotEnded(fs, i, n)
  {
    hide EndsAt;
    RoomForMore(fs, i, n, audio, pushed, quiet);
    audio', pushed' := audio, pushed;
    if pushed + FRAME <= MAX_UTT && fs[n].taken {
      audio' := audio + [fs[n].pcm];
      pushed' := pushed + FRAME;
    }
    quiet' := if fs[n].loud then 0 else quiet + 1;
    TakenOne(fs, i, n);
  }

  lemma TakenOne(fs: seq<Frame>, i: nat, n: nat)
    requires i <= n < |fs|
    ensures Taken(fs, i, n + 1) == if fs[n].taken then Taken(fs, i, n) + [fs[n].pcm] else Taken(fs, i, n)
  {
  }

  lemma RoomForMore(fs: seq<Frame>, i: nat, n: nat, audio: seq<Pcm>, pushed: nat, quiet: nat)
    requires 2 <= i <= n < |fs|
    requires if i == n then pushed == 2 * FRAME else Speaking(fs, i, n, quiet, pushed, audio)
    ensures pushed + FRAME <= MAX_UTT
  {
    hide Quiet, Pushed, Audio;
    if i < n {
      assert !EndsAt(fs, i, n - 1);
    }
  }

  function Early(fs: seq<Frame>, i: nat): seq<Pcm>
    requires 2 <= i < |fs|
  {
    (if fs[i].early0 then [fs[i - 2].pcm] else []) + (if fs[i].early1 then [fs[i - 1].pcm] else [])
  }

  lemma OneOpening(fs: seq<Frame>, start: nat, i: int, j: int)
    requires FirstOpening(fs, start, i) && FirstOpening(fs, start, j)
    ensures i == j
  {
  }

  lemma BeginFails(fs: seq<Frame>, start: nat, n: nat)
    requires FirstOpening(fs, start, n) && !fs[n].begun
    ensures Silent(fs, start)
  {
    forall i | FirstOpening(fs, start, i)
      ensures !fs[i].begun
    {
      OneOpening(fs, start, i, n);
    }
  }

  lemma NeverEnds(fs: seq<Frame>, start: nat, i: nat, quiet: nat, pushed: nat, audio: seq<Pcm>)
    requires FirstOpening(fs, start, i) && Speaking(fs, i, |fs|, quiet, pushed, audio)
    ensures Silent(fs, start)
  {
    forall j, e | FirstOpening(fs, start, j)
      ensures !EndsAt(fs, j, e)
    {
      OneOpening(fs, start, i, j);
    }
  }

  lemma NeverOpens(fs: seq<Frame>, start: nat, loud: nat)
    requires Listening(fs, start, |fs|, loud)
    ensures Silent(fs, start)
  {
    forall i
      ensures !FirstOpening(fs, start, i)
    {
      assert FirstOpening(fs, start, i) ==> OpensAt(fs, start, i);
    }
  }

  // ---- what the cutting means ------------------------------------------------------------------

  /** From one start, one turn. */
  lemma OneTurn(fs: seq<Frame>, start: nat, a: Turn, b: Turn)
    requires FirstOpening(fs, start, a.first + 2) && FirstOpening(fs, start, b.first + 2)
    requires a.first + 2 <= a.last < |fs| && FirstEnd(fs, a.first + 2, a.last) && IsTurn(fs, a.first + 2, a.last, a)
    requires b.first + 2 <= b.last < |fs| && FirstEnd(fs, b.first + 2, b.last) && IsTurn(fs, b.first + 2, b.last, b)
    ensures a == b
  {
    hide EndsAt, FirstOpening, Audio, Speech, Judged;
    OneOpening(fs, start, a.first + 2, b.first + 2);
  }

  lemma BothSilent(fs: seq<Frame>, start: nat, a: seq<Turn>, b: seq<Turn>)
    requires Cut(fs, start, a) && Cut(fs, start, b)
    ensures a == [] <==> b == []
  {
    hide EndsAt, OpensAt, IsTurn;
  }

  /** The cutting of a stream is one list of turns. */
  lemma {:induction false} CutOnce(fs: seq<Frame>, start: nat, a: seq<Turn>, b: seq<Turn>)
    requires Cut(fs, start, a) && Cut(fs, start, b)
    ensures a == b
    decreases |a|
  {
    hide FirstOpening, FirstEnd, IsTurn, Silent;
    BothSilent(fs, start, a, b);
    if a == [] {
    } else {
      OneTurn(fs, start, a[0], b[0]);
      CutOnce(fs, a[0].last + 1, a[1..], b[1..]);
      assert a == [a[0]] + a[1..] && b == [b[0]] + b[1..];
    }
  }

  /** The utterances are disjoint and in the order of the stream. */
  lemma {:induction false} InOrder(fs: seq<Frame>, start: nat, turns: seq<Turn>, j: nat, k: nat)
    requires Cut(fs, start, turns) && j < k < |turns|
    ensures start <= turns[j].first <= turns[j].last < turns[k].first
    decreases |turns|
  {
    hide EndsAt, IsTurn;
    if j > 0 {
      InOrder(fs, turns[0].last + 1, turns[1..], j - 1, k - 1);
    } else if k > 1 {
      InOrder(fs, turns[0].last + 1, turns[1..], 0, k - 1);
    }
  }

  /** Each turn opens at the first three loud frames after the one before it. */
  lemma {:induction false} TurnIs(fs: seq<Frame>, start: nat, turns: seq<Turn>, j: nat)
    requires Cut(fs, start, turns) && j < |turns|
    ensures var t := turns[j];
            FirstOpening(fs, if j == 0 then start else turns[j - 1].last + 1, t.first + 2)
                && FirstEnd(fs, t.first + 2, t.last)
    ensures turns[j].first + 2 <= turns[j].last < |fs|
    ensures IsTurn(fs, turns[j].first + 2, turns[j].last, turns[j])
    decreases |turns|
  {
    hide EndsAt, IsTurn, OpensAt;
    if j == 0 {
    } else {
      TurnIs(fs, turns[0].last + 1, turns[1..], j - 1);
    }
  }

  lemma {:induction false} QuietIs(fs: seq<Frame>, i: nat, n: nat)
    requires i < n <= |fs| && fs[i].loud
    ensures Quiet(fs, i, n) < n - i
    ensures fs[n - Quiet(fs, i, n) - 1].loud
    ensures forall k :: n - Quiet(fs, i, n) <= k < n ==> !fs[k].loud
    decreases n
  {
    if n > i + 1 {
      QuietIs(fs, i, n - 1);
    }
  }

  /** Never more than 28 seconds are counted. */
  lemma PushedBounded(fs: seq<Frame>, i: nat, e: nat)
    requires FirstEnd(fs, i, e)
    ensures Pushed(fs, i, e + 1) <= MAX_UTT
  {
    TakenOne(fs, i, e);
    hide Quiet, Taken;
    if e > i {
      assert !EndsAt(fs, i, e - 1);
    } else {
      assert |Taken(fs, i, i)| == 0;
    }
  }

  // ---- when the session takes every frame ----------------------------------------------------------

  predicate AllTaken(fs: seq<Frame>, i: nat, n: nat)
    requires 2 <= i < n <= |fs|
  {
    fs[i].early0 && fs[i].early1 && forall k :: i <= k < n ==> fs[k].taken
  }

  function Samples(fs: seq<Frame>, from: nat, to: nat): seq<Pcm>
    requires from <= to <= |fs|
  {
    seq(to - from, k requires 0 <= k < to - from => fs[from + k].pcm)
  }

  lemma {:induction false} TakenAll(fs: seq<Frame>, i: nat, n: nat)
    requires i <= n <= |fs| && forall k :: i <= k < n ==> fs[k].taken
    ensures Taken(fs, i, n) == Samples(fs, i, n)
    decreases n
  {
    if n > i {
      TakenAll(fs, i, n - 1);
      assert Samples(fs, i, n) == Samples(fs, i, n - 1) + [fs[n - 1].pcm];
    }
  }

  /** The audio is the stream from the first of the three loud frames, none lost. */
  lemma AudioIsContiguous(fs: seq<Frame>, i: nat, e: nat)
    requires 2 <= i <= e < |fs| && AllTaken(fs, i, e + 1)
    ensures Audio(fs, i, e + 1) == Samples(fs, i - 2, e + 1)
  {
    TakenAll(fs, i, e + 1);
    hide Taken;
    assert Samples(fs, i - 2, e + 1) == [fs[i - 2].pcm] + [fs[i - 1].pcm] + Samples(fs, i, e + 1);
  }

  /** The last loud frame before n. */
  function LastLoud(fs: seq<Frame>, i: nat, n: nat): (k: nat)
    requires i < n <= |fs| && fs[i].loud
    ensures i <= k < n && fs[k].loud && forall j :: k < j < n ==> !fs[j].loud
  {
    QuietIs(fs, i, n);
    n - Quiet(fs, i, n) - 1
  }

  /** The speech length reaches from the first frame to the last loud one, and the
      subtraction does not wrap. */
  lemma SpeechIs(fs: seq<Frame>, i: nat, e: nat)
    requires FirstEnd(fs, i, e) && 2 <= i && fs[i].loud && AllTaken(fs, i, e + 1)
    ensures Pushed(fs, i, e + 1) >= Quiet(fs, i, e + 1) * FRAME
    ensures Speech(fs, i, e + 1) == FRAME * (LastLoud(fs, i, e + 1) - (i - 2) + 1)
  {
    PushedBounded(fs, i, e);
    TakenAll(fs, i, e + 1);
    QuietIs(fs, i, e + 1);
    hide Taken, Quiet, FirstEnd, AllTaken;
  }

  // ---- when it refuses some ------------------------------------------------------------------------------

  /** The frames of an utterance that were refused after its opening. */
  function Refused(fs: seq<Frame>, i: nat, n: nat): (r: nat)
    requires i <= n <= |fs|
    ensures r == n - i - |Taken(fs, i, n)|
    decreases n
  {
    if n == i then 0 else Refused(fs, i, n - 1) + if fs[n - 1].taken then 0 else 1
  }

  /** The subtraction of the closing silence wraps exactly when more frames were refused
      than the utterance has up to its last loud frame; then any blip is transcribed. */
  lemma TranscribedExactly(fs: seq<Frame>, i: nat, e: nat)
    requires FirstEnd(fs, i, e) && 2 <= i && fs[i].loud
    ensures var long := LastLoud(fs, i, e + 1) - (i - 2) + 1;
            var refused := Refused(fs, i, e + 1);
            && (Pushed(fs, i, e + 1) < Quiet(fs, i, e + 1) * FRAME <==> refused > long)
            && (Speech(fs, i, e + 1) >= MIN_UTT <==> refused > long || (long - refused) * FRAME >= MIN_UTT)
  {
    PushedBounded(fs, i, e);
    QuietIs(fs, i, e + 1);
    QuietBounded(fs, i, e);
    hide Taken, Quiet, FirstEnd, Refused;
    var difference := Pushed(fs, i, e + 1) - Quiet(fs, i, e + 1) * FRAME;
    assert difference == FRAME * (LastLoud(fs, i, e + 1) - (i - 2) + 1 - Refused(fs, i, e + 1));
  }

  lemma QuietBounded(fs: seq<Frame>, i: nat, e: nat)
    requires FirstEnd(fs, i, e)
    ensures Quiet(fs, i, e + 1) <= CLOSE_FRAMES
  {
    hide Taken;
    if e > i {
      assert !EndsAt(fs, i, e - 1);
    }
  }

  // ---- a turn by its frames ---------------------------------------------------------------------------

  /** Three loud frames in a row, from k on. */
  predicate ThreeLoud(fs: seq<Frame>, k: nat) {
    k + 2 < |fs| && fs[k].loud && fs[k + 1].loud && fs[k + 2].loud
  }

  /** The first three loud frames from `from` on. */
  ghost predicate OpensFirst(fs: seq<Frame>, from: nat, k: nat) {
    from <= k && ThreeLoud(fs, k) && forall l :: from <= l < k ==> !ThreeLoud(fs, l)
  }

  ghost function RefusedAt(fs: seq<Frame>, i: nat, n: nat): set<nat> {
    set k: nat | i <= k < n && k < |fs| && !fs[k].taken
  }

  /** Forty quiet frames in a row up to e, or 1400 frames that were not refused: 28 seconds. */
  ghost predicate Over(fs: seq<Frame>, first: nat, e: nat) {
    || (e >= first + 42 && forall k :: e - 40 < k <= e && k < |fs| ==> !fs[k].loud)
    || e - first + 1 - |RefusedAt(fs, first + 2, e + 1)| >= 1400
  }

  /** The session has the frame k of an utterance. */
  predicate Kept(fs: seq<Frame>, first: nat, k: nat)
    requires k < |fs| && first + 2 < |fs|
  {
    if k == first then fs[first + 2].early0 else if k == first + 1 then fs[first + 2].early1 else fs[k].taken
  }

  function KeptFrom(fs: seq<Frame>, first: nat, k: nat, n: nat): seq<Pcm>
    requires first + 2 < |fs| && k <= n <= |fs|
    decreases n - k
  {
    if k == n then [] else (if Kept(fs, first, k) then [fs[k].pcm] else []) + KeptFrom(fs, first, k + 1, n)
  }

  lemma OpeningIs(fs: seq<Frame>, start: nat, i: int)
    ensures OpensAt(fs, start, i) <==> i >= start + 2 && ThreeLoud(fs, i - 2)
    ensures FirstOpening(fs, start, i) <==> i >= start + 2 && OpensFirst(fs, start, i - 2)
  {
    if OpensAt(fs, start, i) {
      if forall j :: start <= j < i ==> !OpensAt(fs, start, j) {
        forall l | start <= l < i - 2
          ensures !ThreeLoud(fs, l)
        {
          assert !OpensAt(fs, start, l + 2);
        }
      }
      if j :| start <= j < i && OpensAt(fs, start, j) {
        assert ThreeLoud(fs, j - 2);
      }
    }
  }

  lemma {:induction false} RefusedIs(fs: seq<Frame>, i: nat, n: nat)
    requires i <= n <= |fs|
    ensures |RefusedAt(fs, i, n)| == n - i - |Taken(fs, i, n)|
    decreases n
  {
    if n == i {
      assert RefusedAt(fs, i, n) == {};
    } else {
      RefusedIs(fs, i, n - 1);
      assert RefusedAt(fs, i, n) ==
             if fs[n - 1].taken then RefusedAt(fs, i, n - 1) else RefusedAt(fs, i, n - 1) + {n - 1};
    }
  }

  /** It ends at forty quiet frames in a row or at 28 seconds, whatever was refused. */
  lemma EndIs(fs: seq<Frame>, i: nat, e: nat)
    requires 2 <= i <= e < |fs| && fs[i].loud
    ensures EndsAt(fs, i, e) <==> Over(fs, i - 2, e)
  {
    RefusedIs(fs, i, e + 1);
    QuietIs(fs, i, e + 1);
    hide Taken, Quiet, RefusedAt;
  }

  lemma {:induction false} KeptIs(fs: seq<Frame>, i: nat, n: nat, k: nat)
    requires 2 <= i <= k <= n <= |fs| && i < |fs|
    ensures Taken(fs, i, k) <= Taken(fs, i, n)
    ensures KeptFrom(fs, i - 2, k, n) == Taken(fs, i, n)[|Taken(fs, i, k)|..]
    decreases n - k
  {
    if k == n {
    } else {
      KeptIs(fs, i, n, k + 1);
      TakenOne(fs, i, k);
      var all, now, next := Taken(fs, i, n), Taken(fs, i, k), Taken(fs, i, k + 1);
      assert next == all[..|next|];
      assert now == next[..|now|];
      if fs[k].taken {
        assert all[|now|..] == [all[|now|]] + all[|next|..];
        assert all[|now|] == next[|now|] == fs[k].pcm;
      }
    }
  }

  lemma KeptNext(fs: seq<Frame>, first: nat, k: nat, n: nat)
    requires first + 2 < |fs| && k < n <= |fs|
    ensures KeptFrom(fs, first, k, n)
         == (if Kept(fs, first, k) then [fs[k].pcm] else []) + KeptFrom(fs, first, k + 1, n)
  {
  }

  lemma Regroup(a: seq<Pcm>, b: seq<Pcm>, c: seq<Pcm>)
    ensures (a + b) + c == a + (b + c)
  {
  }

  lemma KeptAfterTwo(fs: seq<Frame>, i: nat, n: nat)
    requires 2 <= i < n <= |fs|
    ensures KeptFrom(fs, i - 2, i, n) == Taken(fs, i, n)
  {
    KeptIs(fs, i, n, i);
    assert Taken(fs, i, i) == [];
  }

  /** The audio is what the session took of the utterance's frames, in order. */
  lemma AudioIs(fs: seq<Frame>, i: nat, n: nat)
    requires 2 <= i < n <= |fs|
    ensures Audio(fs, i, n) == KeptFrom(fs, i - 2, i - 2, n)
  {
    hide Taken, KeptFrom;
    KeptAfterTwo(fs, i, n);
    KeptNext(fs, i - 2, i - 1, n);
    KeptNext(fs, i - 2, i - 2, n);
    Regroup(if fs[i].early0 then [fs[i - 2].pcm] else [],
            if fs[i].early1 then [fs[i - 1].pcm] else [], Taken(fs, i, n));
  }

  /** The last loud frame of a turn. */
  ghost predicate LastLoudOf(fs: seq<Frame>, t: Turn, k: nat) {
    t.first <= k <= t.last < |fs| && fs[k].loud && forall l :: k < l <= t.last ==> !fs[l].loud
  }

  /** Each turn: it opens at the first three loud frames after the one before it, and ends
      when it is first over. Its audio is what the session took. It is transcribed when 25
      frames that were not refused reach to its last loud one, or more were refused than
      these; otherwise it is discarded. */
  lemma TurnExactly(fs: seq<Frame>, turns: seq<Turn>, j: nat, k: nat)
    requires Cut(fs, 0, turns) && j < |turns| && LastLoudOf(fs, turns[j], k)
    ensures var t := turns[j];
      var refused, long := |RefusedAt(fs, t.first + 2, t.last + 1)|, k - t.first + 1;
      && OpensFirst(fs, if j == 0 then 0 else turns[j - 1].last + 1, t.first)
      && t.first + 2 <= t.last < |fs| && fs[t.first + 2].begun
      && Over(fs, t.first, t.last) && (forall e: nat :: t.first + 2 <= e < t.last ==> !Over(fs, t.first, e))
      && t.audio == KeptFrom(fs, t.first, t.first, t.last + 1)
      && (t.outcome == EndFailed <==> !fs[t.last].ended)
      && (t.outcome == Transcribed <==> fs[t.last].ended && (refused > long || long - refused >= 25))
  {
    hide Cut, EndsAt, OpensAt, FirstEnd, FirstOpening, Over, OpensFirst, Speech, Audio, KeptFrom, RefusedAt, Taken,
         Quiet;
    var t, from := turns[j], if j == 0 then 0 else turns[j - 1].last + 1;
    var i := t.first + 2;
    TurnIs(fs, 0, turns, j);
    TurnBegun(fs, 0, turns, j);
    OpeningIs(fs, from, i);
    OpeningIsLoud(fs, from, i);
    AudioIs(fs, i, t.last + 1);
    RefusedIs(fs, i, t.last + 1);
    EndIs(fs, i, t.last);
    FirstEndIs(fs, i, t.last);
    forall e: nat | i <= e < t.last
      ensures !Over(fs, t.first, e)
    {
      EndIs(fs, i, e);
    }
    assert LastLoud(fs, i, t.last + 1) == k;
    TranscribedExactly(fs, i, t.last);
  }

  lemma FirstEndIs(fs: seq<Frame>, i: nat, e: int)
    requires FirstEnd(fs, i, e)
    ensures EndsAt(fs, i, e) && forall j :: i <= j < e ==> !EndsAt(fs, i, j)
  {
  }

  lemma OpeningIsLoud(fs: seq<Frame>, start: nat, i: int)
    requires FirstOpening(fs, start, i)
    ensures fs[i].loud
  {
  }

  lemma {:induction false} TurnBegun(fs: seq<Frame>, start: nat, turns: seq<Turn>, j: nat)
    requires Cut(fs, start, turns) && j < |turns|
    ensures turns[j].first + 2 < |fs| && fs[turns[j].first + 2].begun
    decreases |turns|
  {
    hide EndsAt, IsTurn, OpensAt;
    if j == 0 {
    } else {
      TurnBegun(fs, turns[0].last + 1, turns[1..], j - 1);
    }
  }

  /** After the last turn nothing is over: no three loud frames come, or the session refuses
      the utterance they open, or the stream stops in it. */
  lemma {:induction false} RestIsSilent(fs: seq<Frame>, start: nat, turns: seq<Turn>, k: nat)
    requires Cut(fs, start, turns)
    requires OpensFirst(fs, if turns == [] then start else turns[|turns| - 1].last + 1, k)
    ensures !fs[k + 2].begun || forall e: nat :: k + 2 <= e < |fs| ==> !Over(fs, k, e)
    decreases |turns|
  {
    hide EndsAt, IsTurn, OpensAt, Over, FirstOpening, FirstEnd;
    if turns == [] {
      OpeningIs(fs, start, k + 2);
      forall e: nat | k + 2 <= e < |fs|
        ensures EndsAt(fs, k + 2, e) <==> Over(fs, k, e)
      {
        EndIs(fs, k + 2, e);
      }
    } else {
      RestIsSilent(fs, turns[0].last + 1, turns[1..], k);
    }
  }

  /** A door slam: three loud frames and the silence after them, every push refused. */
  function Slam(): (fs: seq<Frame>)
    ensures |fs| == 43
  {
    seq(43, k => Frame([], k < 3, true, true, true, false, true))
  }

  lemma {:induction false} SlamCounts(n: nat)
    requires 3 <= n <= 43
    ensures Taken(Slam(), 2, n) == [] && Quiet(Slam(), 2, n) == n - 3
    decreases n
  {
    if n > 3 {
      SlamCounts(n - 1);
    } else {
      TakenOne(Slam(), 2, 2);
    }
  }

  lemma SlamEnds(e: nat)
    requires 2 <= e < 43
    ensures EndsAt(Slam(), 2, e) <==> e == 42
  {
    SlamCounts(e + 1);
    hide Taken, Quiet, Slam;
  }

  function SlamTurn(): Turn {
    Turn(0, 42, Audio(Slam(), 2, 43), Speech(Slam(), 2, 43), Judged(Speech(Slam(), 2, 43), true))
  }

  lemma SlamOpens()
    ensures FirstOpening(Slam(), 0, 2) && Slam()[2].begun && Slam()[42].ended && Silent(Slam(), 43)
  {
  }

  lemma SlamLasts()
    ensures FirstEnd(Slam(), 2, 42)
    ensures SlamTurn().outcome.Transcribed? && LastLoud(Slam(), 2, 43) == 2
  {
    SlamCounts(43);
    forall e | 2 <= e < 43
      ensures EndsAt(Slam(), 2, e) <==> e == 42
    {
      SlamEnds(e);
    }
    hide EndsAt, Taken, Quiet, Slam;
  }

  /** It is 60 ms of speech, and it is transcribed. */
  lemma SlamIsTranscribed()
    ensures exists t :: Cut(Slam(), 0, [t]) && t.outcome.Transcribed? && LastLoud(Slam(), 2, 43) == 2
  {
    hide EndsAt, Taken, Quiet, Slam, Speech, Judged, FirstOpening, FirstEnd, LastLoud, Audio;
    var fs := Slam();
    var t := SlamTurn();
    SlamOpens();
    SlamLasts();
    assert IsTurn(fs, 2, 42, t);
    assert [t][1..] == [] && Cut(fs, 43, [t][1..]);
  }
}
