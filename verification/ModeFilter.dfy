// The mode filter of tools/bench_decision.c (117-143): which texts name modes, and which.
module ModeFilter {
  import opened Lists
  import opened Results

  /** Mode names: none is empty, has a comma or repeats another. */
  predicate Names(names: seq<string>) {
    && (forall i :: 0 <= i < |names| ==> names[i] != "" && ',' !in names[i])
    && forall i, j :: 0 <= i < j < |names| ==> names[i] != names[j]
  }

  /** The text before its first comma. */
  function Head(text: string): (w: string)
    ensures w <= text && ',' !in w && (w == text || text[|w|] == ',')
    decreases |text|
  {
    if text == "" || text[0] == ',' then "" else [text[0]] + Head(text[1..])
  }

  /** The names read from a text, after some that are on already; None when it is refused. */
  function Parse(names: seq<string>, text: string, on: seq<string>): Option<seq<string>>
    decreases |text|
  {
    if text == "" then Some(on)
    else
      var w := Head(text);
      if w !in names || w in on then None
      else if w == text then Some(on + [w])
      else if |w| + 1 == |text| then None
      else Parse(names, text[|w| + 1..], on + [w])
  }

  function Joined(ms: seq<string>): string
    decreases |ms|
  {
    if ms == [] then "" else if |ms| == 1 then ms[0] else ms[0] + "," + Joined(ms[1..])
  }

  /** Mode names, none twice. */
  predicate List(names: seq<string>, ms: seq<string>) { Distinct(ms) && forall m <- ms :: m in names }

  lemma NamesIn(names: seq<string>, w: string)
    requires Names(names) && w in names
    ensures w != "" && ',' !in w
  {
  }

  lemma {:induction false} HeadOf(w: string, rest: string)
    requires ',' !in w && (rest == "" || rest[0] == ',')
    ensures Head(w + rest) == w
    decreases |w|
  {
    if w == "" {
      assert w + rest == rest;
    } else {
      assert w[0] in w && forall c <- w[1..] :: c in w;
      assert (w + rest)[1..] == w[1..] + rest;
      HeadOf(w[1..], rest);
      assert [w[0]] + w[1..] == w;
    }
  }

  lemma ListTail(names: seq<string>, on: seq<string>, ms: seq<string>)
    requires ms != [] && List(names, on + ms)
    ensures List(names, (on + [ms[0]]) + ms[1..]) && ms[0] in names && ms[0] !in on
  {
    assert (on + [ms[0]]) + ms[1..] == on + ms;
    assert (on + ms)[|on|] == ms[0] && ms[0] in on + ms;
    forall i | 0 <= i < |on|
      ensures on[i] != ms[0]
    {
      assert (on + ms)[i] == on[i];
    }
  }

  /** A comma-joined list of names is read as that list. */
  lemma {:induction false} ParseJoined(names: seq<string>, on: seq<string>, ms: seq<string>)
    requires Names(names) && List(names, on + ms)
    ensures Parse(names, Joined(ms), on) == Some(on + ms)
    decreases |ms|
  {
    hide List, Names, Head;
    if ms == [] {
      assert on + ms == on;
    } else {
      ListTail(names, on, ms);
      NamesIn(names, ms[0]);
      var w := ms[0];
      var text := Joined(ms);
      assert on + ms == (on + [w]) + ms[1..];
      if |ms| == 1 {
        HeadOf(w, "");
        assert w + "" == w && ms == [w] && Joined(ms) == w;
        assert Parse(names, w, on) == Some(on + [w]);
      } else {
        var rest := Joined(ms[1..]);
        JoinedSome(names, on, ms);
        HeadOf(w, "," + rest);
        assert text == w + ("," + rest);
        assert text[|w| + 1..] == rest;
        ParseJoined(names, on + [w], ms[1..]);
      }
    }
  }

  lemma JoinedSome(names: seq<string>, on: seq<string>, ms: seq<string>)
    requires Names(names) && List(names, on + ms) && |ms| > 1
    ensures Joined(ms[1..]) != ""
  {
    assert ms[1] in on + ms;
    NamesIn(names, ms[1]);
  }

  /** Whatever is read is such a list. */
  lemma {:induction false} ParseIs(names: seq<string>, text: string, on: seq<string>) returns (ms: seq<string>)
    requires Parse(names, text, on).Some? && List(names, on)
    ensures Parse(names, text, on) == Some(on + ms) && List(names, on + ms) && text == Joined(ms)
    decreases |text|
  {
    hide List, Head;
    if text == "" {
      ms := [];
      assert on + ms == on;
    } else {
      var w := Head(text);
      OneMore(names, on, w);
      if w == text {
        ms := [w];
      } else {
        var rest := text[|w| + 1..];
        var more := ParseIs(names, rest, on + [w]);
        ms := [w] + more;
        assert on + ms == (on + [w]) + more;
        assert ms[1..] == more;
        assert text == w + "," + rest;
        assert |ms| > 1;
      }
    }
  }

  lemma OneMore(names: seq<string>, on: seq<string>, w: string)
    requires List(names, on) && w in names && w !in on
    ensures List(names, on + [w])
  {
    forall m <- on + [w]
      ensures m in names
    {
      assert m in on || m == w;
    }
  }

  /** A filter is accepted exactly when it is a non-empty comma-joined list of distinct mode
      names, and then it switches on those. */
  lemma AcceptedExactly(names: seq<string>, text: string, ms: seq<string>)
    requires Names(names)
    ensures List(names, ms) ==> Parse(names, Joined(ms), []) == Some(ms)
    ensures Parse(names, text, []) == Some(ms) ==> List(names, ms) && text == Joined(ms)
  {
    hide List, Names, Parse;
    assert [] + ms == ms;
    if List(names, ms) {
      ParseJoined(names, [], ms);
    }
    if Parse(names, text, []) == Some(ms) {
      EmptyList(names);
      var read := ParseIs(names, text, []);
      assert [] + read == read;
    }
  }

  lemma EmptyList(names: seq<string>)
    ensures List(names, [])
  {
  }

  /** The index of a name, or |names|. */
  method Find(names: seq<string>, w: string) returns (i: nat)
    ensures i <= |names| && (i < |names| ==> names[i] == w) && (i == |names| ==> w !in names)
  {
    i := 0;
    while i < |names| && names[i] != w
      invariant i <= |names| && forall j :: 0 <= j < i ==> names[j] != w
    {
      i := i + 1;
    }
  }

  /** The flags of a list of names. */
  predicate Flags(names: seq<string>, enabled: seq<bool>, on: seq<string>) {
    |enabled| == |names| && forall i :: 0 <= i < |names| ==> (enabled[i] <==> names[i] in on)
  }

  method ParseModes(names: seq<string>, text: string, enabled: array<bool>) returns (ok: bool)
    requires Names(names) && enabled.Length == |names|
    modifies enabled
    ensures ok <==> text != "" && Parse(names, text, []).Some?
    ensures ok ==> Flags(names, enabled[..], Parse(names, text, []).value)
  {
    hide Head, Flags;
    forall i | 0 <= i < enabled.Length {
      enabled[i] := false;
    }
    AllOff(names, enabled[..]);
    var cursor := text;
    ghost var on: seq<string> := [];
    while cursor != ""
      invariant Parse(names, text, []) == Parse(names, cursor, on)
      invariant Flags(names, enabled[..], on)
      decreases |cursor|
    {
      var word := Head(cursor);
      var i := Find(names, word);
      if i == |names| {
        return false;
      }
      FlagIs(names, enabled[..], on, i);
      if enabled[i] {
        return false;
      }
      SwitchOn(names, enabled[..], on, i);
      enabled[i] := true;
      on := on + [word];
      cursor := cursor[|word|..];
      if cursor != "" {
        cursor := cursor[1..];
        if cursor == "" {
          return false;
        }
      }
    }
    ok := cursor != text;
  }

  lemma AllOff(names: seq<string>, enabled: seq<bool>)
    requires |enabled| == |names| && forall i :: 0 <= i < |enabled| ==> !enabled[i]
    ensures Flags(names, enabled, [])
  {
  }

  lemma FlagIs(names: seq<string>, enabled: seq<bool>, on: seq<string>, i: nat)
    requires Flags(names, enabled, on) && i < |names|
    ensures |enabled| == |names| && (enabled[i] <==> names[i] in on)
  {
  }

  lemma SwitchOn(names: seq<string>, enabled: seq<bool>, on: seq<string>, i: nat)
    requires Names(names) && Flags(names, enabled, on) && i < |names|
    ensures Flags(names, enabled[i := true], on + [names[i]])
  {
    forall j | 0 <= j < |names|
      ensures names[j] in on + [names[i]] <==> names[j] in on || j == i
    {
    }
  }
}
