/**
 Cutting streamed model text into clauses for speech: `StreamingSpeechChunker` of
 apps/expression-ui/daily_voice_assistant.py. Removing closed think blocks and cleaning a cut
 for speech are functions the caller gives.
 */
module SpeechChunker {
  import opened Common
  import opened Text

  /** The constructor's clamps give 1 <= low < hard. */
  datatype Limits = Limits(low: int, hard: int)

  function MakeLimits(minChars: int, hardChars: int): Limits {
    Limits(Max(1, minChars), Max(Max(1, minChars) + 1, hardChars))
  }

  predicate Sane(l: Limits) {
    1 <= l.low < l.hard
  }

  predicate Strong(c: char) {
    c in {'\U{3002}', '\U{FF01}', '\U{FF1F}', '!', '?', '\n'}
  }

  predicate Soft(c: char) {
    c in {'\U{FF0C}', '\U{FF1B}', '\U{FF1A}', ',', ';', ':'}
  }

  predicate Boundary(c: char) {
    Strong(c) || Soft(c)
  }

  function Visible(s: string): nat {
    if s == "" then 0 else Visible(s[..|s| - 1]) + if IsSpace(s[|s| - 1]) then 0 else 1
  }

  // ----- where the next cut falls

  /** The scan stops at this character: a boundary with enough text, or the hard limit. */
  predicate Fires(l: Limits, s: string, i: nat)
    requires i < |s|
  {
    var v := Visible(s[..i + 1]);
    (v >= l.low && Boundary(s[i])) || v >= l.hard
  }

  /** The first character the scan stops at. */
  function FirstFire(l: Limits, s: string, from: nat := 0): (r: Option<nat>)
    requires from <= |s|
    ensures r.Some? ==> from <= r.value < |s| && Fires(l, s, r.value)
    ensures forall i | from <= i < |s| && (r.None? || i < r.value) :: !Fires(l, s, i)
    decreases |s| - from
  {
    if from == |s| then None
    else if Fires(l, s, from) then Some(from)
    else FirstFire(l, s, from + 1)
  }

  /** One past the last white space, if there is any. */
  function AfterLastSpace(s: string): (r: Option<nat>)
    ensures r.Some? ==> 0 < r.value <= |s| && IsSpace(s[r.value - 1]) && forall i | r.value <= i < |s| :: !IsSpace(s[i])
    ensures r.None? ==> forall i | 0 <= i < |s| :: !IsSpace(s[i])
  {
    if s == "" then None
    else if IsSpace(s[|s| - 1]) then Some(|s|)
    else AfterLastSpace(s[..|s| - 1])
  }

  /** A boundary is kept with the text before it; at the hard limit the cut goes back to the last space. */
  function CutFor(l: Limits, s: string, i: nat): nat
    requires i < |s|
  {
    if Visible(s[..i + 1]) >= l.low && Boundary(s[i]) then i + 1
    else if AfterLastSpace(s[..i + 1]).Some? then AfterLastSpace(s[..i + 1]).value
    else i + 1
  }

  predicate WordAt(s: string, i: int, word: string) {
    0 <= i && i + |word| <= |s| && s[i..i + |word|] == word
  }

  predicate MarkerAt(s: string, i: int) {
    WordAt(s, i, "[[") || WordAt(s, i, "<think") || WordAt(s, i, "<THINK")
  }

  /** Where the text that may be spoken ends: before the first marker. */
  function SpeakableLength(s: string, from: nat := 0): (n: nat)
    requires from <= |s|
    ensures from <= n <= |s| && (n < |s| ==> MarkerAt(s, n)) && forall i | from <= i < n :: !MarkerAt(s, i)
    decreases |s| - from
  {
    if from == |s| then from
    else if MarkerAt(s, from) then from
    else SpeakableLength(s, from + 1)
  }

  function Decision(l: Limits, buffer: string): (r: Option<nat>)
    ensures r.Some? ==> r.value < SpeakableLength(buffer)
  {
    FirstFire(l, buffer[..SpeakableLength(buffer)])
  }

  /** `_next_cut` */
  function NextCut(l: Limits, buffer: string): (r: Option<nat>)
    ensures r.Some? ==> 0 < r.value <= |buffer|
  {
    var d := Decision(l, buffer);
    if d.None? then None
    else
      var p := buffer[..SpeakableLength(buffer)];
      AfterLastSpaceBound(p[..d.value + 1]);
      Some(CutFor(l, p, d.value))
  }

  lemma AfterLastSpaceBound(s: string)
    ensures AfterLastSpace(s).Some? ==> 0 < AfterLastSpace(s).value <= |s|
  {}

  // ----- feeding text

  datatype Output = Output(cuts: seq<string>, leftover: string)

  /** The loop of `feed`: cut while there is something to cut. */
  function Cuts(l: Limits, buffer: string): Output
    decreases |buffer|
  {
    match NextCut(l, buffer)
    case None => Output([], buffer)
    case Some(n) =>
      var rest := Cuts(l, buffer[n..]);
      Output([buffer[..n]] + rest.cuts, rest.leftover)
  }

  lemma CutsUnfold(l: Limits, buffer: string)
    ensures NextCut(l, buffer).None? ==> Cuts(l, buffer) == Output([], buffer)
    ensures NextCut(l, buffer).Some? ==>
              var n := NextCut(l, buffer).value;
              var rest := Cuts(l, buffer[n..]);
              Cuts(l, buffer) == Output([buffer[..n]] + rest.cuts, rest.leftover)
  {
    hide NextCut;
  }

  function FeedAll(l: Limits, buffer: string, deltas: seq<string>): Output
    decreases |deltas|
  {
    if deltas == [] then Output([], buffer)
    else
      var first := Cuts(l, buffer + deltas[0]);
      var later := FeedAll(l, first.leftover, deltas[1..]);
      Output(first.cuts + later.cuts, later.leftover)
  }

  function Concat(texts: seq<string>): string {
    if texts == [] then "" else texts[0] + Concat(texts[1..])
  }

  lemma {:induction false} ConcatAppend(a: seq<string>, b: seq<string>)
    ensures Concat(a + b) == Concat(a) + Concat(b)
  {
    if a == [] {
      assert a + b == b;
    } else {
      assert a + b == [a[0]] + (a[1..] + b);
      ConcatAppend(a[1..], b);
    }
  }

  // ----- nothing is lost, and every cut is short enough

  lemma {:induction false} VisibleMonotone(s: string, i: nat, j: nat)
    requires i <= j <= |s|
    ensures Visible(s[..i]) <= Visible(s[..j])
    decreases j
  {
    if i < j {
      assert s[..j][..j - 1] == s[..j - 1];
      VisibleMonotone(s, i, j - 1);
    }
  }

  lemma FireVisible(l: Limits, s: string, i: nat)
    requires Sane(l) && FirstFire(l, s) == Some(i)
    ensures Visible(s[..i + 1]) <= l.hard
  {
    assert s[..i + 1][..i] == s[..i];
    if i > 0 {
      assert !Fires(l, s, i - 1);
    }
  }

  lemma CutShortEnough(l: Limits, buffer: string)
    requires Sane(l) && NextCut(l, buffer).Some?
    ensures Visible(buffer[..NextCut(l, buffer).value]) <= l.hard
  {
    var p := buffer[..SpeakableLength(buffer)];
    var i, n := Decision(l, buffer).value, NextCut(l, buffer).value;
    hide FirstFire, SpeakableLength;
    FireVisible(l, p, i);
    AfterLastSpaceBound(p[..i + 1]);
    VisibleMonotone(p, n, i + 1);
    assert p[..n] == buffer[..n];
  }

  ghost predicate WithinLimit(l: Limits, cuts: seq<string>) {
    forall k | 0 <= k < |cuts| :: cuts[k] != "" && Visible(cuts[k]) <= l.hard
  }

  /** The cuts and what is left over are the text, and nothing more can be cut from what is left over. */
  lemma {:induction false} CutsAccountForText(l: Limits, buffer: string)
    ensures var o := Cuts(l, buffer); Concat(o.cuts) + o.leftover == buffer && NextCut(l, o.leftover).None?
    decreases |buffer|
  {
    hide NextCut, Cuts, Concat;
    CutsUnfold(l, buffer);
    if NextCut(l, buffer).Some? {
      var n := NextCut(l, buffer).value;
      CutsAccountForText(l, buffer[n..]);
      var rest := Cuts(l, buffer[n..]);
      ConcatCons(buffer[..n], rest.cuts);
      assert buffer[..n] + Concat(rest.cuts) + rest.leftover == buffer[..n] + (Concat(rest.cuts) + rest.leftover) == buffer;
    } else {
      ConcatNone();
    }
  }

  lemma ConcatNone()
    ensures Concat([]) == ""
  {}

  lemma ConcatCons(head: string, tail: seq<string>)
    ensures Concat([head] + tail) == head + Concat(tail)
  {
    assert ([head] + tail)[1..] == tail;
  }

  /** Every cut is non-empty and has at most `hard` visible characters. */
  lemma {:induction false} CutsWithinLimit(l: Limits, buffer: string)
    requires Sane(l)
    ensures WithinLimit(l, Cuts(l, buffer).cuts)
    decreases |buffer|
  {
    if NextCut(l, buffer).Some? {
      var n := NextCut(l, buffer).value;
      CutShortEnough(l, buffer);
      CutsWithinLimit(l, buffer[n..]);
      hide NextCut, Visible;
    }
  }

  // ----- where exactly the cuts fall

  /** The punctuation after which speech may pause. */
  predicate PauseMark(c: char) {
    || c == '\n' || c == '!' || c == '?' || c == ',' || c == ';' || c == ':' || c == '\U{3002}' || c == '\U{FF01}'
    || c == '\U{FF1F}' || c == '\U{FF0C}' || c == '\U{FF1B}' || c == '\U{FF1A}'
  }

  /** The characters that are not white space. */
  function VisibleSet(s: string): set<int> {
    set i | 0 <= i < |s| && !IsSpace(s[i])
  }

  lemma {:induction false} VisibleCounts(s: string)
    ensures Visible(s) == |VisibleSet(s)|
    decreases |s|
  {
    if s == "" {
      assert VisibleSet(s) == {};
    } else {
      var front, last := s[..|s| - 1], |s| - 1;
      VisibleCounts(front);
      assert forall i | 0 <= i < last :: front[i] == s[i];
      assert VisibleSet(s) == VisibleSet(front) + if IsSpace(s[last]) then {} else {last};
    }
  }

  /** A pause after enough visible characters, or too many of them. */
  predicate StopsAt(l: Limits, s: string, i: nat)
    requires i < |s|
  {
    var n := Visible(s[..i + 1]);
    n >= l.hard || (n >= l.low && PauseMark(s[i]))
  }

  /** Where the text is cut that stops at `i`: after the pause, or after the last white space, or right there. */
  predicate CutsTo(l: Limits, s: string, i: nat, n: nat)
    requires i < |s|
  {
    if n == i + 1 then
      (Visible(s[..i + 1]) >= l.low && PauseMark(s[i])) || IsSpace(s[i]) || forall k | 0 <= k <= i :: !IsSpace(s[k])
    else
      && 0 < n <= i && IsSpace(s[n - 1]) && (forall k | n <= k <= i :: !IsSpace(s[k]))
      && !(Visible(s[..i + 1]) >= l.low && PauseMark(s[i]))
  }

  ghost predicate FirstStop(l: Limits, s: string, i: int) {
    0 <= i < |s| && StopsAt(l, s, i) && forall k | 0 <= k < i :: !StopsAt(l, s, k)
  }

  lemma StopsIffFires(l: Limits, s: string, i: nat)
    requires i < |s|
    ensures StopsAt(l, s, i) <==> Fires(l, s, i)
    ensures Boundary(s[i]) <==> PauseMark(s[i])
  {
    hide Visible;
  }

  lemma CutForIff(l: Limits, s: string, i: nat, n: nat)
    requires i < |s|
    ensures CutFor(l, s, i) == n <==> CutsTo(l, s, i, n)
  {
    hide Visible, AfterLastSpace, Boundary, PauseMark;
    StopsIffFires(l, s, i);
    var p := s[..i + 1];
    assert forall k | 0 <= k <= i :: p[k] == s[k];
    var a := AfterLastSpace(p);
    assert a.Some? ==> 0 < a.value <= |p| && IsSpace(p[a.value - 1]) && forall k | a.value <= k < |p| :: !IsSpace(p[k]);
    assert a.None? ==> forall k | 0 <= k < |p| :: !IsSpace(p[k]);
    hide IsSpace;
  }

  ghost predicate NoStop(l: Limits, s: string) {
    forall i | 0 <= i < |s| :: !StopsAt(l, s, i)
  }

  ghost predicate CutFromStop(l: Limits, s: string, n: nat) {
    exists i :: FirstStop(l, s, i) && CutsTo(l, s, i, n)
  }

  lemma FirstFireStops(l: Limits, s: string)
    ensures FirstFire(l, s).None? <==> NoStop(l, s)
    ensures forall i :: FirstStop(l, s, i) <==> FirstFire(l, s) == Some(i)
  {
    hide StopsAt, Fires, FirstFire;
    forall i | 0 <= i < |s| ensures StopsAt(l, s, i) <==> Fires(l, s, i) {
      StopsIffFires(l, s, i);
    }
    var d := FirstFire(l, s);
    assert d.Some? ==> StopsAt(l, s, d.value);
    forall i | 0 <= i < |s| && (d.None? || i < d.value) ensures !StopsAt(l, s, i) {
      assert !Fires(l, s, i);
    }
  }

  /**
   The next cut is decided at the first character of the speakable text that completes a clause or
   exceeds the hard limit, and falls after it or, if it is no pause, after the last white space
   before it; without such a character there is no cut.
   */
  lemma NextCutIff(l: Limits, buffer: string, n: nat)
    ensures NextCut(l, buffer).None? <==> NoStop(l, buffer[..SpeakableLength(buffer)])
    ensures NextCut(l, buffer) == Some(n) <==> CutFromStop(l, buffer[..SpeakableLength(buffer)], n)
  {
    hide SpeakableLength, CutFor, FirstFire, CutsTo, FirstStop, NoStop;
    var p := buffer[..SpeakableLength(buffer)];
    FirstFireStops(l, p);
    var d := Decision(l, buffer);
    if d.Some? {
      CutForIff(l, p, d.value, n);
      assert FirstStop(l, p, d.value);
    }
  }

  /** The limits are the given ones, raised to one character and to one more than that. */
  lemma LimitsNearest(minChars: int, hardChars: int)
    ensures var l := MakeLimits(minChars, hardChars);
            && Sane(l) && (minChars >= 1 ==> l.low == minChars) && (minChars < 1 ==> l.low == 1)
            && (hardChars > l.low ==> l.hard == hardChars) && (hardChars <= l.low ==> l.hard == l.low + 1)
  {}

  predicate Letters(s: string, i: int, a: char, b: char, c: char, d: char, e: char) {
    0 <= i && i + 6 <= |s| && s[i] == '<' && s[i + 1] == a && s[i + 2] == b && s[i + 3] == c && s[i + 4] == d && s[i + 5] == e
  }

  /** The three markers, character by character. */
  lemma MarkerIff(s: string, i: int)
    ensures MarkerAt(s, i) <==>
              || (0 <= i && i + 2 <= |s| && s[i] == '[' && s[i + 1] == '[')
              || Letters(s, i, 't', 'h', 'i', 'n', 'k') || Letters(s, i, 'T', 'H', 'I', 'N', 'K')
  {
    if 0 <= i && i + 2 <= |s| {
      PairIs(s[i..i + 2]);
    }
    if 0 <= i && i + 6 <= |s| {
      SixIs(s[i..i + 6]);
    }
  }

  lemma PairIs(t: string)
    requires |t| == 2
    ensures t == "[[" <==> t[0] == '[' && t[1] == '['
  {}

  lemma SixIs(t: string)
    requires |t| == 6
    ensures t == "<think" <==> Letters(t, 0, 't', 'h', 'i', 'n', 'k')
    ensures t == "<THINK" <==> Letters(t, 0, 'T', 'H', 'I', 'N', 'K')
  {}

  // ----- fragmentation

  /** The cut depends only on the text up to where the scan stopped. */
  lemma DecisionStable(l: Limits, a: string, x: string)
    requires Decision(l, a).Some? && Decision(l, a).value < SpeakableLength(a + x)
    ensures Decision(l, a + x) == Decision(l, a) && NextCut(l, a + x) == NextCut(l, a)
  {
    hide FirstFire, SpeakableLength;
    var d := Decision(l, a).value;
    var p, q := a[..SpeakableLength(a)], (a + x)[..SpeakableLength(a + x)];
    forall i | 0 <= i <= d ensures p[..i + 1] == q[..i + 1] && Fires(l, p, i) == Fires(l, q, i) {
    }
  }

  /**
   Some cut of the first text was decided at or after the place where a marker begins once the
   second text has arrived.
   */
  predicate SplitSeen(l: Limits, a: string, x: string)
    decreases |a|
  {
    var d := Decision(l, a);
    d.Some? && (d.value >= SpeakableLength(a + x) || SplitSeen(l, a[NextCut(l, a).value..], x))
  }

  /** Cutting after each of two pieces of text gives what cutting after both gives. */
  ghost predicate SplitUnseen(l: Limits, a: string, x: string) {
    var first, joint := Cuts(l, a), Cuts(l, a + x);
    var second := Cuts(l, first.leftover + x);
    joint == Output(first.cuts + second.cuts, second.leftover)
  }

  lemma NoCutUnseen(l: Limits, a: string, x: string)
    requires NextCut(l, a).None?
    ensures SplitUnseen(l, a, x)
  {
    hide NextCut, Cuts;
    CutsUnfold(l, a);
    assert [] + Cuts(l, a + x).cuts == Cuts(l, a + x).cuts;
  }

  lemma {:induction false} SplitHarmless(l: Limits, a: string, x: string)
    requires !SplitSeen(l, a, x)
    ensures SplitUnseen(l, a, x)
    decreases |a|
  {
    hide Cuts, SplitUnseen;
    if NextCut(l, a).Some? {
      var n := NextCut(l, a).value;
      DecisionStable(l, a, x);
      SplitHarmless(l, a[n..], x);
      hide NextCut;
      SplitStep(l, a, x, n);
    } else {
      NoCutUnseen(l, a, x);
    }
  }

  lemma SplitStep(l: Limits, a: string, x: string, n: nat)
    requires NextCut(l, a) == Some(n) && NextCut(l, a + x) == Some(n) && n <= |a|
    ensures SplitUnseen(l, a[n..], x) ==> SplitUnseen(l, a, x)
    ensures |Cuts(l, a + x).cuts| == 1 + |Cuts(l, a[n..] + x).cuts| && |Cuts(l, a).cuts| == 1 + |Cuts(l, a[n..]).cuts|
  {
    hide NextCut, Cuts;
    CutsUnfold(l, a);
    CutsUnfold(l, a + x);
    assert (a + x)[..n] == a[..n] && (a + x)[n..] == a[n..] + x;
    var first := Cuts(l, a[n..]);
    var second := Cuts(l, first.leftover + x);
    assert [a[..n]] + (first.cuts + second.cuts) == [a[..n]] + first.cuts + second.cuts;
  }

  /** Otherwise the first of the two pieces is cut where both together are held back. */
  lemma {:induction false} SplitHarmful(l: Limits, a: string, x: string)
    requires SplitSeen(l, a, x)
    ensures |Cuts(l, a + x).cuts| < |Cuts(l, a).cuts|
    decreases |a|
  {
    hide Cuts;
    var n := NextCut(l, a).value;
    if Decision(l, a).value >= SpeakableLength(a + x) {
      HeldBack(l, a, x);
    } else {
      DecisionStable(l, a, x);
      SplitHarmful(l, a[n..], x);
      hide NextCut;
      SplitStep(l, a, x, n);
    }
  }

  lemma HeldBack(l: Limits, a: string, x: string)
    requires Decision(l, a).Some? && Decision(l, a).value >= SpeakableLength(a + x)
    ensures Cuts(l, a + x) == Output([], a + x) && |Cuts(l, a).cuts| > 0
  {
    hide Cuts;
    NothingFires(l, a, x);
    CutsUnfold(l, a + x);
    CutsUnfold(l, a);
  }

  lemma NothingFires(l: Limits, a: string, x: string)
    requires Decision(l, a).Some? && Decision(l, a).value >= SpeakableLength(a + x)
    ensures Decision(l, a + x).None?
  {
    hide FirstFire, SpeakableLength;
    var p, q := a[..SpeakableLength(a)], (a + x)[..SpeakableLength(a + x)];
    forall i | 0 <= i < |q| ensures !Fires(l, q, i) {
      assert q[..i + 1] == p[..i + 1];
      assert !Fires(l, p, i);
    }
  }

  /** A split goes unnoticed unless a cut was decided on text that turns out to belong to a marker. */
  lemma SplitUnseenIff(l: Limits, a: string, x: string)
    ensures SplitUnseen(l, a, x) <==> !SplitSeen(l, a, x)
  {
    if SplitSeen(l, a, x) {
      SplitHarmful(l, a, x);
    } else {
      SplitHarmless(l, a, x);
    }
  }

  predicate NoMarkerHalved(l: Limits, buffer: string, deltas: seq<string>)
    decreases |deltas|
  {
    deltas == [] ||
    (!SplitSeen(l, buffer + deltas[0], Concat(deltas[1..]))
     && NoMarkerHalved(l, Cuts(l, buffer + deltas[0]).leftover, deltas[1..]))
  }

  /** Cutting piece by piece never makes fewer cuts, and makes more as soon as a split is noticed. */
  lemma {:induction false} FragmentationCuts(l: Limits, buffer: string, deltas: seq<string>)
    requires NextCut(l, buffer).None?
    ensures if NoMarkerHalved(l, buffer, deltas) then FeedAll(l, buffer, deltas) == Cuts(l, buffer + Concat(deltas))
            else |FeedAll(l, buffer, deltas).cuts| > |Cuts(l, buffer + Concat(deltas)).cuts|
    decreases |deltas|
  {
    hide Cuts, NextCut, SplitSeen;
    if deltas == [] {
      assert buffer + "" == buffer;
      CutsUnfold(l, buffer);
    } else {
      var a, x := buffer + deltas[0], Concat(deltas[1..]);
      SplitUnseenIff(l, a, x);
      CutsAccountForText(l, a);
      FragmentationCuts(l, Cuts(l, a).leftover, deltas[1..]);
      assert buffer + Concat(deltas) == a + x;
      if SplitSeen(l, a, x) {
        SplitHarmful(l, a, x);
      }
    }
  }

  /** A fragmentation gives the cuts and the leftover of one feed if and only if no split in it is noticed. */
  lemma FragmentationIff(l: Limits, buffer: string, deltas: seq<string>)
    requires NextCut(l, buffer).None?
    ensures FeedAll(l, buffer, deltas) == Cuts(l, buffer + Concat(deltas)) <==> NoMarkerHalved(l, buffer, deltas)
  {
    FragmentationCuts(l, buffer, deltas);
  }

  /** In particular this holds for every fragmentation of a text that has neither "[" nor "<". */
  lemma PlainFragmentationUnseen(l: Limits, deltas: seq<string>)
    requires Sane(l) && '[' !in Concat(deltas) && '<' !in Concat(deltas)
    ensures FeedAll(l, "", deltas) == Cuts(l, Concat(deltas))
    ensures var o := FeedAll(l, "", deltas); Concat(o.cuts) + o.leftover == Concat(deltas) && WithinLimit(l, o.cuts)
  {
    assert "" + Concat(deltas) == Concat(deltas);
    PlainHalvesNothing(l, "", deltas);
    FragmentationCuts(l, "", deltas);
    CutsAccountForText(l, Concat(deltas));
    CutsWithinLimit(l, Concat(deltas));
  }

  ghost predicate Plain(s: string) {
    '[' !in s && '<' !in s
  }

  lemma PlainSpeakable(s: string)
    requires Plain(s)
    ensures SpeakableLength(s) == |s|
  {
    hide SpeakableLength;
    var n := SpeakableLength(s);
    if n < |s| {
      assert s[n] in s;
      assert "[["[0] == '[' && "<think"[0] == '<' && "<THINK"[0] == '<';
      FirstOf(s, n, "[[");
      FirstOf(s, n, "<think");
      FirstOf(s, n, "<THINK");
    }
  }

  lemma FirstOf(s: string, i: int, word: string)
    requires word != ""
    ensures WordAt(s, i, word) ==> s[i] == word[0]
  {
    if WordAt(s, i, word) {
      assert s[i..i + |word|][0] == s[i];
    }
  }

  lemma {:induction false} PlainSplit(l: Limits, a: string, x: string)
    requires Plain(a) && Plain(x)
    ensures !SplitSeen(l, a, x)
    decreases |a|
  {
    hide Decision;
    assert Plain(a + x);
    PlainSpeakable(a);
    PlainSpeakable(a + x);
    if Decision(l, a).Some? {
      PlainSplit(l, a[NextCut(l, a).value..], x);
    }
  }

  lemma {:induction false} PlainHalvesNothing(l: Limits, buffer: string, deltas: seq<string>)
    requires Plain(buffer) && Plain(Concat(deltas))
    ensures NoMarkerHalved(l, buffer, deltas)
    decreases |deltas|
  {
    if deltas != [] {
      hide SplitSeen, NextCut, Cuts;
      var a, x := buffer + deltas[0], Concat(deltas[1..]);
      assert forall c | c in x :: c in Concat(deltas);
      assert forall c | c in deltas[0] :: c in Concat(deltas);
      PlainSplit(l, a, x);
      CutsAccountForText(l, a);
      assert forall c | c in Cuts(l, a).leftover :: c in a;
      PlainHalvesNothing(l, Cuts(l, a).leftover, deltas[1..]);
    }
  }

  // ----- the two kinds of marker, halved

  lemma BracketsSpeakable()
    ensures SpeakableLength("a[") == 2 && SpeakableLength("a[[") == 1
  {
    hide SpeakableLength;
    var s, t := "a[", "a[[";
    assert t[1..3] == "[[" && MarkerAt(t, 1);
    forall i | 0 <= i < 2 ensures !MarkerAt(s, i) && (i == 0 ==> !MarkerAt(t, i)) {
      FirstOf(s, i, "<think");
      FirstOf(s, i, "<THINK");
      FirstOf(t, i, "<think");
      FirstOf(t, i, "<THINK");
      FirstOf(s, i, "[[");
      FirstOf(t, i, "[[");
    }
  }

  /** The halves of "[[" are spoken when they arrive apart. */
  lemma HalvedMarkerSpoken()
    ensures var l := MakeLimits(1, 2);
            !SplitUnseen(l, "a[", "[") && Cuts(l, "a[").cuts != [] && Cuts(l, "a[[").cuts == []
  {
    hide SpeakableLength, Cuts;
    var l := MakeLimits(1, 2);
    var s := "a[";
    BracketsSpeakable();
    assert s[..1] == "a" && s[..2] == s && Visible("a") == 1 && Visible(s) == 2;
    assert !Fires(l, s, 0) && Fires(l, s, 1);
    assert Decision(l, s) == Some(1);
    assert s + "[" == "a[[";
    HeldBack(l, s, "[");
    SplitUnseenIff(l, s, "[");
  }

  // ----- think blocks

  /** Text in which no tag is closed has no closed think block to remove. */
  ghost predicate RemovesOnlyClosed(strip: string -> string) {
    forall s: string :: !HasCloser(s) ==> strip(s) == s
  }

  predicate HasCloser(s: string) {
    exists i | 0 <= i < |s| - 1 :: s[i] == '<' && s[i + 1] == '/'
  }

  /** `feed` on one text after another, think blocks and empty texts included. */
  function FeedCalls(l: Limits, strip: string -> string, buffer: string, deltas: seq<string>): Output
    decreases |deltas|
  {
    if deltas == [] then Output([], buffer)
    else
      var first := FeedOnce(l, strip, buffer, deltas[0]);
      var later := FeedCalls(l, strip, first.leftover, deltas[1..]);
      Output(first.cuts + later.cuts, later.leftover)
  }

  function FeedOnce(l: Limits, strip: string -> string, buffer: string, delta: string): Output {
    if delta == "" then Output([], buffer) else Cuts(l, strip(buffer + delta))
  }

  /** A feed first removes the think blocks from what was held back and the new text, then cuts what is left. */
  lemma FeedAccounts(l: Limits, strip: string -> string, buffer: string, delta: string)
    ensures var o := FeedOnce(l, strip, buffer, delta);
            && Concat(o.cuts) + o.leftover == (if delta == "" then buffer else strip(buffer + delta))
            && (delta == "" ==> o.cuts == []) && (delta != "" ==> NextCut(l, o.leftover).None?)
  {
    hide Cuts, NextCut, Concat;
    ConcatNone();
    CutsAccountForText(l, strip(buffer + delta));
  }

  lemma CloserInside(s: string, t: string, i: nat)
    requires i + |t| <= |s| && s[i..i + |t|] == t && HasCloser(t)
    ensures HasCloser(s)
  {
    var k :| 0 <= k < |t| - 1 && t[k] == '<' && t[k + 1] == '/';
    assert s[i..i + |t|][k] == s[i + k] && s[i..i + |t|][k + 1] == s[i + k + 1];
  }

  lemma {:induction false} FeedsAsIs(l: Limits, strip: string -> string, buffer: string, deltas: seq<string>)
    requires RemovesOnlyClosed(strip) && NextCut(l, buffer).None? && !HasCloser(buffer + Concat(deltas))
    ensures FeedCalls(l, strip, buffer, deltas) == FeedAll(l, buffer, deltas)
    decreases |deltas|
  {
    hide Cuts, NextCut, HasCloser;
    if deltas != [] {
      var a, x, whole := buffer + deltas[0], Concat(deltas[1..]), buffer + Concat(deltas);
      assert whole == a + x;
      assert whole[0..|a|] == a;
      if HasCloser(a) {
        CloserInside(whole, a, 0);
      }
      CutsAccountForText(l, a);
      CutsUnfold(l, buffer);
      assert deltas[0] == "" ==> a == buffer;
      var rest := Cuts(l, a).leftover;
      var k := |a| - |rest|;
      assert whole[k..k + |rest + x|] == rest + x;
      if HasCloser(rest + x) {
        CloserInside(whole, rest + x, k);
      }
      FeedsAsIs(l, strip, rest, deltas[1..]);
    }
  }

  /**
   For any text in which no tag is closed, markers and unclosed think blocks included: the calls of
   `feed` give the cuts and the leftover of one call if and only if no split in it is noticed.
   */
  lemma FeedCallsIff(l: Limits, strip: string -> string, deltas: seq<string>)
    requires Sane(l) && RemovesOnlyClosed(strip) && !HasCloser(Concat(deltas))
    ensures FeedCalls(l, strip, "", deltas) == FeedCalls(l, strip, "", [Concat(deltas)]) <==> NoMarkerHalved(l, "", deltas)
  {
    hide NextCut, Cuts, NoMarkerHalved, HasCloser;
    EmptyUncut(l);
    assert "" + Concat(deltas) == Concat(deltas);
    FeedsAsIs(l, strip, "", deltas);
    FragmentationIff(l, "", deltas);
    var whole := [Concat(deltas)];
    assert whole[1..] == [] && Concat(whole) == Concat(deltas) + Concat([]) && Concat(deltas) + "" == Concat(deltas);
    FeedsAsIs(l, strip, "", whole);
    assert Cuts(l, Concat(deltas)).cuts + [] == Cuts(l, Concat(deltas)).cuts;
  }

  lemma EmptyUncut(l: Limits)
    requires Sane(l)
    ensures NextCut(l, "").None?
  {
    assert ""[..SpeakableLength("")] == "";
  }

  // ----- the chunker object

  class StreamingSpeechChunker {
    const limits: Limits
    var buffer: string

    constructor (minChars: int, hardChars: int)
      ensures limits == MakeLimits(minChars, hardChars) && Sane(limits) && buffer == ""
    {
      limits, buffer := MakeLimits(minChars, hardChars), "";
    }

    /** The scan of `_next_cut`; the branch that goes back to an earlier soft boundary is never taken. */
    method FindCut() returns (cut: Option<nat>)
      requires Sane(limits)
      ensures cut == NextCut(limits, buffer)
    {
      hide SpeakableLength, Visible, AfterLastSpace, IsSpace;
      NothingVisible();
      var prefix := buffer[..SpeakableLength(buffer)];
      if prefix == "" {
        return None;
      }
      var visible := 0;
      var lastSoft: Option<nat>, lastSoftVisible := None, 0;
      var lastSpace: Option<nat> := None;
      var index := 0;
      while index < |prefix|
        invariant 0 <= index <= |prefix|
        invariant visible == Visible(prefix[..index]) < limits.hard
        invariant lastSpace == AfterLastSpace(prefix[..index])
        invariant lastSoft.Some? ==> lastSoftVisible < limits.low
        invariant forall i | 0 <= i < index :: !Fires(limits, prefix, i)
      {
        var character := prefix[index];
        OneMore(prefix, index);
        if !IsSpace(character) {
          visible := visible + 1;
        } else {
          lastSpace := Some(index + 1);
        }
        if Soft(character) {
          lastSoft, lastSoftVisible := Some(index + 1), visible;
        }
        if visible >= limits.low && (Strong(character) || Soft(character)) {
          assert Fires(limits, prefix, index);
          return Some(index + 1);
        }
        if visible >= limits.hard {
          assert Fires(limits, prefix, index);
          if lastSoft.Some? && lastSoftVisible >= limits.low {
            assert false;
          }
          if lastSpace.Some? {
            return lastSpace;
          }
          return Some(index + 1);
        }
        index := index + 1;
      }
      return None;
    }

    /** `feed`; `clean` stands for `clean_for_speech`, and empty chunks are dropped. */
    method Feed(delta: string, strip: string -> string, clean: string -> string) returns (chunks: seq<string>)
      requires Sane(limits)
      modifies this
      ensures var o := FeedOnce(limits, strip, old(buffer), delta);
              buffer == o.leftover && chunks == Cleaned(clean, o.cuts)
      ensures delta != "" ==> NextCut(limits, buffer).None?
    {
      hide NextCut, Cuts, Cleaned;
      CleanedNone(clean);
      chunks := [];
      if delta == "" {
        return;
      }
      buffer := strip(buffer + delta);
      ghost var whole := Cuts(limits, buffer);
      var cut := FindCut();
      while cut.Some?
        invariant cut == NextCut(limits, buffer)
        invariant whole.leftover == Cuts(limits, buffer).leftover
        invariant Cleaned(clean, whole.cuts) == chunks + Cleaned(clean, Cuts(limits, buffer).cuts)
        decreases |buffer|
      {
        CutsUnfold(limits, buffer);
        CleanedCons(clean, buffer[..cut.value], Cuts(limits, buffer[cut.value..]).cuts);
        var chunk := clean(buffer[..cut.value]);
        buffer := buffer[cut.value..];
        if chunk != "" {
          chunks := chunks + [chunk];
        }
        cut := FindCut();
      }
      CutsUnfold(limits, buffer);
    }
  }

  lemma NothingVisible()
    ensures Visible("") == 0 && AfterLastSpace("") == None
  {}

  /** Scanning one more character. */
  lemma OneMore(s: string, i: nat)
    requires i < |s|
    ensures Visible(s[..i + 1]) == Visible(s[..i]) + if IsSpace(s[i]) then 0 else 1
    ensures AfterLastSpace(s[..i + 1]) == if IsSpace(s[i]) then Some(i + 1) else AfterLastSpace(s[..i])
  {
    assert s[..i + 1][..i] == s[..i];
  }

  lemma CleanedNone(clean: string -> string)
    ensures Cleaned(clean, []) == []
  {}

  function Cleaned(clean: string -> string, cuts: seq<string>): seq<string> {
    if cuts == [] then []
    else (if clean(cuts[0]) != "" then [clean(cuts[0])] else []) + Cleaned(clean, cuts[1..])
  }

  lemma CleanedCons(clean: string -> string, head: string, tail: seq<string>)
    ensures Cleaned(clean, [head] + tail) == (if clean(head) != "" then [clean(head)] else []) + Cleaned(clean, tail)
  {
    assert ([head] + tail)[1..] == tail;
  }

  /** What is spoken are the cleaned cuts in order, without the empty ones. */
  lemma {:induction false} CleanedMore(clean: string -> string, cuts: seq<string>, last: string)
    ensures Cleaned(clean, cuts + [last]) == Cleaned(clean, cuts) + if clean(last) == "" then [] else [clean(last)]
    ensures "" !in Cleaned(clean, cuts)
    decreases |cuts|
  {
    CleanedNone(clean);
    if cuts == [] {
      assert cuts + [last] == [last] + [];
      CleanedCons(clean, last, []);
    } else {
      assert cuts + [last] == [cuts[0]] + (cuts[1..] + [last]) && cuts == [cuts[0]] + cuts[1..];
      CleanedMore(clean, cuts[1..], last);
      CleanedCons(clean, cuts[0], cuts[1..] + [last]);
    }
  }
}
