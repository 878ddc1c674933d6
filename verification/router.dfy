/**
 Intercepting the leading emotion tag of a streamed reply before any text is forwarded
 (apps/expression-ui/response_emotions.py). Letters are compared as ASCII.
 */
module EmotionRouter {
  import opened Common
  import opened Text

  const TAG_PREFIX := "[[emotion:"

  predicate Known(name: string) {
    name in {"thinking", "happy", "love", "proud", "cool", "sad", "cry", "afraid", "angry"}
  }

  // ----- the regular expressions

  function SkipSpaces(s: string, i: nat): (j: nat)
    requires i <= |s|
    ensures i <= j <= |s| && (forall k | i <= k < j :: IsSpace(s[k])) && (j < |s| ==> !IsSpace(s[j]))
    decreases |s| - i
  {
    if i < |s| && IsSpace(s[i]) then SkipSpaces(s, i + 1) else i
  }

  predicate TagLetter(c: char) {
    'a' <= c <= 'z' || 'A' <= c <= 'Z' || c == '_'
  }

  function SkipLetters(s: string, i: nat): (j: nat)
    requires i <= |s|
    ensures i <= j <= |s| && (forall k | i <= k < j :: TagLetter(s[k])) && (j < |s| ==> !TagLetter(s[j]))
    decreases |s| - i
  {
    if i < |s| && TagLetter(s[i]) then SkipLetters(s, i + 1) else i
  }

  /** The text at `i`, ignoring case. */
  predicate WordAt(s: string, i: nat, word: string) {
    i + |word| <= |s| && Lower(s[i..i + |word|]) == word
  }

  /** `\[\[\s*emotion\s*:` at the front: one past the colon. */
  function MatchOpening(s: string): (r: Option<nat>)
    ensures r.Some? ==> 10 <= r.value <= |s|
  {
    if !WordAt(s, 0, "[[") then None
    else
      var i := SkipSpaces(s, 2);
      if !WordAt(s, i, "emotion") then None
      else
        var j := SkipSpaces(s, i + 7);
        if !WordAt(s, j, ":") then None else Some(j + 1)
  }

  datatype Tag = Tag(name: string, end: nat)

  /** `\[\[\s*emotion\s*:\s*([a-z_]+)\s*\]\]` at the front; no part can match in two ways. */
  function MatchTag(s: string): (r: Option<Tag>)
    ensures r.Some? ==> 13 <= r.value.end <= |s| && r.value.name != ""
  {
    var o := MatchOpening(s);
    if o.None? then None
    else
      var i := SkipSpaces(s, o.value);
      var j := SkipLetters(s, i);
      if i == j then None
      else
        var k := SkipSpaces(s, j);
        if !WordAt(s, k, "]]") then None else Some(Tag(Lower(s[i..j]), k + 2))
  }

  /** `[^\]\r\n]{0,48}` */
  function SkipInside(s: string, i: nat, most: nat): (j: nat)
    requires i <= |s|
    ensures i <= j <= |s|
    decreases most
  {
    if i < |s| && most > 0 && s[i] != ']' && s[i] != '\r' && s[i] != '\n' then SkipInside(s, i + 1, most - 1) else i
  }

  /** Removes `^\s*\[\[\s*emotion\s*:[^\]\r\n]{0,48}(?:\]\])?\s*` */
  function DropIncomplete(s: string): string {
    var t := LStrip(s);
    var o := MatchOpening(t);
    if o.None? then s else AfterUnfinished(t, o.value)
  }

  /** What follows the part of a tag that is there, which opens before `o`. */
  function AfterUnfinished(t: string, o: nat): string
    requires o <= |t|
  {
    var i := SkipInside(t, o, 48);
    var j := if WordAt(t, i, "]]") then i + 2 else i;
    t[SkipSpaces(t, j)..]
  }

  datatype Parsed = Parsed(text: string, state: string, source: string)

  /** `parse_response_expression`; `infer` stands for `infer_response_expression`. */
  function Parse(infer: string -> string, s: string): Parsed {
    var t := LStrip(s);
    var m := MatchTag(t);
    if m.Some? then
      var text := Strip(t[m.value.end..]);
      if Known(m.value.name) then Parsed(text, m.value.name, "model_tag")
      else Parsed(text, infer(text), "invalid_tag_fallback")
    else
      var text := Strip(DropIncomplete(s));
      Parsed(text, infer(text), "content_fallback")
  }

  // ----- the router

  /** Calls out of the router, in order. */
  datatype Out = Selected(state: string, source: string) | Forwarded(text: string) | ForwardedEnd

  datatype Router = Router(buffer: string, resolved: bool, state: string)

  const START := Router("", false, "")

  function Resolve(state: string): Router {
    Router("", true, state)
  }

  function ForwardText(text: string): seq<Out> {
    if text == "" then [] else [Forwarded(text)]
  }

  /** What the router makes of the text buffered so far. */
  datatype Verdict = Wait | Choose(state: string, source: string, text: string)

  function Examine(infer: string -> string, buffer: string): Verdict {
    var stripped := LStrip(buffer);
    var m := MatchTag(stripped);
    if m.Some? then
      var known := Known(m.value.name);
      Choose(if known then m.value.name else "thinking", if known then "model_tag" else "invalid_tag",
             LStrip(stripped[m.value.end..]))
    else if MayBecomeTag(stripped) then
      if |stripped| <= 64 && !HasClose(stripped) then Wait
      else
        var p := Parse(infer, stripped);
        Choose(p.state, p.source, p.text)
    else Choose(infer(buffer), "stream_content_fallback", buffer)
  }

  /** `feed`: None is the end marker of a segment. */
  function Feed(infer: string -> string, r: Router, delta: Option<string>): (Router, seq<Out>) {
    if delta.None? then (r, if r.resolved || r.buffer == "" then [ForwardedEnd] else [])
    else if delta.value == "" then (r, [])
    else if r.resolved then (r, [Forwarded(delta.value)])
    else
      match Examine(infer, r.buffer + delta.value)
      case Wait => (r.(buffer := r.buffer + delta.value), [])
      case Choose(state, source, text) => (Resolve(state), [Selected(state, source)] + ForwardText(text))
  }

  /** `TAG_PREFIX.startswith(lowered) or lowered.startswith(TAG_PREFIX)` */
  predicate MayBecomeTag(s: string) {
    Lower(s) <= TAG_PREFIX || TAG_PREFIX <= Lower(s)
  }

  lemma ExamineCases(infer: string -> string, p: string)
    requires MatchTag(LStrip(p)).None?
    ensures var t := LStrip(p);
            Examine(infer, p) ==
            if !MayBecomeTag(t) then Choose(infer(p), "stream_content_fallback", p)
            else if |t| <= 64 && !HasClose(t) then Wait
            else var q := Parse(infer, t); Choose(q.state, q.source, q.text)
  {
    hide LStrip, MatchTag, MayBecomeTag, HasClose, Parse, Known;
  }

  predicate HasClose(s: string) {
    exists i | 0 <= i < |s| - 1 :: s[i] == ']' && s[i + 1] == ']'
  }

  function FeedAll(infer: string -> string, r: Router, deltas: seq<Option<string>>): (Router, seq<Out>)
    decreases |deltas|
  {
    if deltas == [] then (r, [])
    else
      var (r1, out) := Feed(infer, r, deltas[0]);
      var (r2, later) := FeedAll(infer, r1, deltas[1..]);
      (r2, out + later)
  }

  function TextOf(deltas: seq<Option<string>>): string {
    if deltas == [] then "" else (if deltas[0].Some? then deltas[0].value else "") + TextOf(deltas[1..])
  }

  /** `finalize` on the complete reply: the cleaned text, and a new selection only if the state differs. */
  function Finalize(infer: string -> string, r: Router, text: string): (Router, seq<Out>, string) {
    var p := Parse(infer, text);
    if !r.resolved || r.state != p.state then (Resolve(p.state), [Selected(p.state, p.source)], p.text)
    else (r.(buffer := ""), [], p.text)
  }

  // ----- what reaches the listener

  function Selections(out: seq<Out>): seq<(string, string)> {
    if out == [] then [] else SelectionOf(out[0]) + Selections(out[1..])
  }

  function SelectionOf(o: Out): seq<(string, string)> {
    if o.Selected? then [(o.state, o.source)] else []
  }

  function Spoken(out: seq<Out>): string {
    if out == [] then "" else SpokenOf(out[0]) + Spoken(out[1..])
  }

  function SpokenOf(o: Out): string {
    if o.Forwarded? then o.text else ""
  }

  lemma {:induction false} SpokenAppend(a: seq<Out>, b: seq<Out>)
    ensures Spoken(a + b) == Spoken(a) + Spoken(b)
  {
    if a == [] {
      assert a + b == b;
    } else {
      hide SpokenOf;
      assert a + b == [a[0]] + (a[1..] + b);
      SpokenAppend(a[1..], b);
    }
  }

  lemma {:induction false} SelectionsAppend(a: seq<Out>, b: seq<Out>)
    ensures Selections(a + b) == Selections(a) + Selections(b)
  {
    if a == [] {
      assert a + b == b;
    } else {
      hide SelectionOf;
      assert a + b == [a[0]] + (a[1..] + b);
      SelectionsAppend(a[1..], b);
    }
  }

  lemma One(o: Out)
    ensures Spoken([o]) == SpokenOf(o) && Selections([o]) == SelectionOf(o)
  {
    assert [o][1..] == [];
  }

  lemma FeedAllCons(infer: string -> string, r: Router, d: Option<string>, more: seq<Option<string>>)
    ensures var (r1, out) := Feed(infer, r, d);
            FeedAll(infer, r, [d] + more) == (FeedAll(infer, r1, more).0, out + FeedAll(infer, r1, more).1)
  {
    assert ([d] + more)[1..] == more;
  }

  lemma TextCons(d: Option<string>, more: seq<Option<string>>)
    ensures TextOf([d] + more) == (if d.Some? then d.value else "") + TextOf(more)
  {
    assert ([d] + more)[1..] == more;
  }

  /** A resolved router forwards everything as it comes. */
  lemma {:induction false} ResolvedForwards(infer: string -> string, r: Router, deltas: seq<Option<string>>)
    requires r.resolved
    ensures var (r', out) := FeedAll(infer, r, deltas);
            r' == r && Selections(out) == [] && Spoken(out) == TextOf(deltas)
    decreases |deltas|
  {
    if deltas != [] {
      var out, later := Feed(infer, r, deltas[0]).1, FeedAll(infer, r, deltas[1..]).1;
      assert deltas == [deltas[0]] + deltas[1..];
      FeedAllCons(infer, r, deltas[0], deltas[1..]);
      ResolvedForwards(infer, r, deltas[1..]);
      SpokenAppend(out, later);
      SelectionsAppend(out, later);
      if out != [] {
        One(out[0]);
        assert out == [out[0]];
      }
      hide FeedAll, Spoken, Selections;
    }
  }

  // ----- scanning a prefix

  lemma {:induction false} SpacesExtend(s: string, x: string, i: nat)
    requires i <= |s|
    ensures SkipSpaces(s, i) < |s| ==> SkipSpaces(s + x, i) == SkipSpaces(s, i)
    decreases |s| - i
  {
    if i < |s| && IsSpace(s[i]) {
      SpacesExtend(s, x, i + 1);
    }
  }

  lemma {:induction false} LettersExtend(s: string, x: string, i: nat)
    requires i <= |s|
    ensures SkipLetters(s, i) < |s| ==> SkipLetters(s + x, i) == SkipLetters(s, i)
    decreases |s| - i
  {
    if i < |s| && TagLetter(s[i]) {
      LettersExtend(s, x, i + 1);
    }
  }

  lemma WordExtend(s: string, x: string, i: nat, word: string)
    requires WordAt(s, i, word)
    ensures WordAt(s + x, i, word)
  {
    assert (s + x)[i..i + |word|] == s[i..i + |word|];
  }

  lemma OpeningExtend(s: string, x: string)
    requires MatchOpening(s).Some?
    ensures MatchOpening(s + x) == MatchOpening(s)
  {
    hide WordAt, SkipSpaces;
    WordExtend(s, x, 0, "[[");
    SpacesExtend(s, x, 2);
    var i := SkipSpaces(s, 2);
    WordInside(s, i, "emotion");
    WordExtend(s, x, i, "emotion");
    SpacesExtend(s, x, i + 7);
    var j := SkipSpaces(s, i + 7);
    WordInside(s, j, ":");
    WordExtend(s, x, j, ":");
  }

  lemma WordInside(s: string, i: nat, word: string)
    requires WordAt(s, i, word)
    ensures i + |word| <= |s|
  {}

  /** A tag that has been read stays the same when more text follows. */
  lemma TagExtend(s: string, x: string)
    requires MatchTag(s).Some?
    ensures MatchTag(s + x) == MatchTag(s)
  {
    hide WordAt, SkipSpaces, SkipLetters, MatchOpening;
    OpeningExtend(s, x);
    var o := MatchOpening(s).value;
    SpacesExtend(s, x, o);
    var i := SkipSpaces(s, o);
    LettersExtend(s, x, i);
    var j := SkipLetters(s, i);
    SpacesExtend(s, x, j);
    var k := SkipSpaces(s, j);
    WordInside(s, k, "]]");
    WordExtend(s, x, k, "]]");
    assert (s + x)[i..j] == s[i..j];
  }

  /** The whole of `tag` is one tag. */
  predicate IsTag(tag: string) {
    MatchTag(tag).Some? && MatchTag(tag).value.end == |tag|
  }

  lemma OpeningShape(s: string)
    requires MatchOpening(s).Some?
    ensures s[0] == '[' && forall n | 0 <= n < MatchOpening(s).value :: s[n] != ']'
  {
    hide WordAt, SkipSpaces, Lower, IsSpace;
    WordInside(s, 0, "[[");
    var i := SkipSpaces(s, 2);
    WordInside(s, i, "emotion");
    var j := SkipSpaces(s, i + 7);
    WordLetters(s, 0, "[[");
    WordLetters(s, i, "emotion");
    WordLetters(s, j, ":");
    NoBracket();
    forall n | 0 <= n < MatchOpening(s).value ensures s[n] != ']' {
      assert n < 2 || n < i || n < i + 7 || n < j || n == j;
    }
  }

  lemma NoBracket()
    ensures !IsSpace(']') && forall n | 0 <= n < 7 :: "emotion"[n] != ']'
  {}

  lemma TagShape(tag: string)
    requires IsTag(tag)
    ensures |tag| >= 13 && tag[0] == '[' && forall n | 0 <= n < |tag| - 2 :: tag[n] != ']'
  {
    hide SkipSpaces, SkipLetters, WordAt, MatchOpening;
    OpeningShape(tag);
    var o := MatchOpening(tag).value;
    var a := SkipSpaces(tag, o);
    var b := SkipLetters(tag, a);
    var c := SkipSpaces(tag, b);
    forall n | 0 <= n < |tag| - 2 ensures tag[n] != ']' {
      assert n < o || n < a || n < b || n < c;
    }
  }

  lemma WordLetters(s: string, i: nat, word: string)
    requires WordAt(s, i, word)
    ensures forall n | i <= n < i + |word| :: LowerChar(s[n]) == word[n - i]
  {
    forall n | i <= n < i + |word| ensures LowerChar(s[n]) == word[n - i] {
      assert s[i..i + |word|][n - i] == s[n];
    }
  }

  /** A proper prefix of a tag is neither a tag nor closed. */
  lemma PartOfTag(tag: string, q: string)
    requires IsTag(tag) && q <= tag && |q| < |tag|
    ensures MatchTag(q).None? && !HasClose(q)
  {
    TagShape(tag);
    assert tag == q + tag[|q|..];
    if MatchTag(q).Some? {
      TagExtend(q, tag[|q|..]);
    }
    forall i | 0 <= i < |q| - 1 ensures !(q[i] == ']' && q[i + 1] == ']') {
      assert q[i] == tag[i];
    }
  }

  // ----- which tags survive every fragmentation

  /** Written without white space before the colon, and short enough to be waited for. */
  predicate Canonical(tag: string) {
    |tag| <= 65 && TAG_PREFIX <= Lower(tag)
  }

  function TagState(tag: string): string
    requires IsTag(tag)
  {
    if Known(MatchTag(tag).value.name) then MatchTag(tag).value.name else "thinking"
  }

  function TagSource(tag: string): string
    requires IsTag(tag)
  {
    if Known(MatchTag(tag).value.name) then "model_tag" else "invalid_tag"
  }

  lemma Comparable(a: string, b: string, c: string)
    requires a <= c && b <= c
    ensures a <= b || b <= a
  {
    assert a == c[..|a|] && b == c[..|b|];
    if |a| <= |b| {
      assert a == b[..|a|];
    } else {
      assert b == a[..|b|];
    }
  }

  lemma PartMayBecomeTag(tag: string, q: string)
    requires Canonical(tag) && q <= tag && |q| < |tag|
    ensures MayBecomeTag(q) && |q| <= 64
  {
    assert Lower(q) <= Lower(tag);
    Comparable(Lower(q), TAG_PREFIX, Lower(tag));
  }

  /** Part of a canonical tag is buffered in silence. */
  lemma PartExamined(infer: string -> string, head: string, p: string)
    requires IsTag(LStrip(head)) && Canonical(LStrip(head)) && p <= head && |p| < |head|
    ensures Examine(infer, p) == Wait
  {
    hide Examine, IsTag, Canonical, MatchTag, LStrip;
    TagNotEmpty(LStrip(head));
    LStripPart(p, head);
    PartWaits(infer, LStrip(head), p);
  }

  lemma PartWaits(infer: string -> string, tag: string, p: string)
    requires IsTag(tag) && Canonical(tag) && LStrip(p) <= tag && |LStrip(p)| < |tag|
    ensures Examine(infer, p) == Wait
  {
    PartOfTag(tag, LStrip(p));
    PartMayBecomeTag(tag, LStrip(p));
    hide IsTag, Canonical, MatchTag, LStrip, HasClose, MayBecomeTag, Parse;
  }

  lemma TagNotEmpty(tag: string)
    requires IsTag(tag)
    ensures tag != ""
  {
    hide MatchTag;
  }

  /** The text that completes the tag triggers its selection. */
  lemma TagExamined(infer: string -> string, head: string, extra: string)
    requires IsTag(LStrip(head))
    ensures Examine(infer, head + extra)
         == Choose(TagState(LStrip(head)), TagSource(LStrip(head)), LStrip(extra))
  {
    hide MatchTag, LStrip;
    var tag := LStrip(head);
    TagNotEmpty(tag);
    LStripMore(head, extra);
    TagExtend(tag, extra);
    assert (tag + extra)[|tag|..] == extra;
  }

  /** What the listener gets of `rest`: all of it but some leading white space. */
  ghost predicate LosesOnlySpace(rest: string, spoken: string) {
    |spoken| <= |rest| && rest[|rest| - |spoken|..] == spoken && Blank(rest[..|rest| - |spoken|])
  }

  /** No text is forwarded before a selection. */
  predicate SelectsFirst(out: seq<Out>) {
    out != [] && (out[0].Selected? || (out[0].ForwardedEnd? && SelectsFirst(out[1..])))
  }

  ghost predicate RoutesTag(tag: string, rest: string, r: Router, out: seq<Out>)
    requires IsTag(tag)
  {
    && r == Resolve(TagState(tag))
    && Selections(out) == [(TagState(tag), TagSource(tag))]
    && LosesOnlySpace(rest, Spoken(out))
    && SelectsFirst(out)
  }

  /**
   A canonical tag, after any white space and in any fragmentation, selects its label
   exactly once before any text is forwarded, and the rest is forwarded whole but for
   some leading white space.
   */
  lemma {:induction false} CanonicalTagRouted(infer: string -> string, head: string, rest: string, p: string,
                                              deltas: seq<Option<string>>)
    requires IsTag(LStrip(head)) && Canonical(LStrip(head))
    requires p + TextOf(deltas) == head + rest && p <= head && |p| < |head|
    ensures var (r, out) := FeedAll(infer, Router(p, false, ""), deltas); RoutesTag(LStrip(head), rest, r, out)
    decreases |deltas|
  {
    hide IsTag, Canonical, RoutesTag, LStrip, FeedAll, Feed, Examine, TagState, TagSource, Selections, Spoken;
    if deltas == [] {
      TextNone();
    }
    var d, more := deltas[0], deltas[1..];
    assert deltas == [d] + more;
    TextCons(d, more);
    if d.None? || d.value == "" {
      assert "" + TextOf(more) == TextOf(more);
      CanonicalTagRouted(infer, head, rest, p, more);
      SilentStep(infer, LStrip(head), rest, p, d, more);
    } else {
      var q := p + d.value;
      assert q + TextOf(more) == head + rest;
      if |q| < |head| {
        assert q == (head + rest)[..|q|] == head[..|q|];
        CanonicalTagRouted(infer, head, rest, q, more);
        PartExamined(infer, head, q);
        StepWait(infer, p, d, more);
      } else {
        var extra := q[|head|..];
        assert head == (head + rest)[..|head|] == q[..|head|];
        assert rest == (head + rest)[|head|..] == (q + TextOf(more))[|head|..] == extra + TextOf(more);
        assert q == head + extra;
        TagExamined(infer, head, extra);
        StepChoose(infer, p, d, more);
        TagRouted(infer, head, extra, p, d, more);
      }
    }
  }

  lemma TextNone()
    ensures TextOf([]) == ""
  {}

  lemma StepWait(infer: string -> string, p: string, d: Option<string>, more: seq<Option<string>>)
    requires d.Some? && d.value != "" && Examine(infer, p + d.value) == Wait
    ensures FeedAll(infer, Router(p, false, ""), [d] + more) == FeedAll(infer, Router(p + d.value, false, ""), more)
  {
    hide Examine, FeedAll;
    FeedAllCons(infer, Router(p, false, ""), d, more);
    var later := FeedAll(infer, Router(p + d.value, false, ""), more).1;
    assert [] + later == later;
  }

  lemma StepChoose(infer: string -> string, p: string, d: Option<string>, more: seq<Option<string>>)
    requires d.Some? && d.value != "" && Examine(infer, p + d.value).Choose?
    ensures var v := Examine(infer, p + d.value);
            var (r, out) := FeedAll(infer, Router(p, false, ""), [d] + more);
            && r == Resolve(v.state) && Selections(out) == [(v.state, v.source)]
            && Spoken(out) == v.text + TextOf(more) && SelectsFirst(out)
  {
    hide Examine, FeedAll, Selections, Spoken, TextOf;
    var v := Examine(infer, p + d.value);
    FeedAllCons(infer, Router(p, false, ""), d, more);
    ResolvedForwards(infer, Resolve(v.state), more);
    ChoiceHeard(v.state, v.source, v.text, FeedAll(infer, Resolve(v.state), more).1);
  }

  /** An end marker or an empty text before the tag is complete selects nothing and speaks nothing. */
  lemma SilentStep(infer: string -> string, tag: string, rest: string, p: string, d: Option<string>, more: seq<Option<string>>)
    requires IsTag(tag) && (d.None? || d.value == "")
    requires var (r, out) := FeedAll(infer, Router(p, false, ""), more); RoutesTag(tag, rest, r, out)
    ensures var (r, out) := FeedAll(infer, Router(p, false, ""), [d] + more); RoutesTag(tag, rest, r, out)
  {
    hide FeedAll, LosesOnlySpace, IsTag, TagState, TagSource;
    FeedAllCons(infer, Router(p, false, ""), d, more);
    var first := Feed(infer, Router(p, false, ""), d).1;
    var later := FeedAll(infer, Router(p, false, ""), more).1;
    SpokenAppend(first, later);
    SelectionsAppend(first, later);
    if first == [] {
      assert first + later == later;
    } else {
      assert first == [ForwardedEnd];
      One(ForwardedEnd);
      assert (first + later)[1..] == later;
      assert "" + Spoken(later) == Spoken(later) && [] + Selections(later) == Selections(later);
    }
  }

  lemma TagRouted(infer: string -> string, head: string, extra: string, p: string, d: Option<string>, more: seq<Option<string>>)
    requires IsTag(LStrip(head))
    requires var (r, out) := FeedAll(infer, Router(p, false, ""), [d] + more);
             && r == Resolve(TagState(LStrip(head)))
             && Selections(out) == [(TagState(LStrip(head)), TagSource(LStrip(head)))]
             && Spoken(out) == LStrip(extra) + TextOf(more) && SelectsFirst(out)
    ensures var (r, out) := FeedAll(infer, Router(p, false, ""), [d] + more);
            RoutesTag(LStrip(head), extra + TextOf(more), r, out)
  {
    hide FeedAll, IsTag, TagState, TagSource, LStrip, LosesOnlySpace;
    StripLosesSpace(extra, TextOf(more));
  }

  /** A selection, then its text, then text alone. */
  lemma ChoiceHeard(state: string, source: string, text: string, later: seq<Out>)
    requires Selections(later) == []
    ensures var out := [Selected(state, source)] + ForwardText(text) + later;
            Selections(out) == [(state, source)] && Spoken(out) == text + Spoken(later) && SelectsFirst(out)
  {
    hide Spoken, Selections, ForwardText;
    var a, b := [Selected(state, source)], ForwardText(text);
    One(Selected(state, source));
    ForwardHeard(text);
    SelectionsAppend(a, b);
    SelectionsAppend(a + b, later);
    SpokenAppend(a, b);
    SpokenAppend(a + b, later);
    assert (a + b + later)[0] == a[0];
    assert "" + text == text;
    assert [(state, source)] + [] + [] == [(state, source)];
  }

  lemma ForwardHeard(text: string)
    ensures Spoken(ForwardText(text)) == text && Selections(ForwardText(text)) == []
  {
    One(Forwarded(text));
  }

  lemma StripLosesSpace(extra: string, more: string)
    ensures LosesOnlySpace(extra + more, LStrip(extra) + more)
  {
    hide LStrip;
    var kept := LStrip(extra);
    var blank := extra[..|extra| - |kept|];
    assert extra == blank + kept;
    var rest, spoken := extra + more, kept + more;
    assert rest == blank + spoken;
    assert |rest| - |spoken| == |blank|;
    assert rest[|blank|..] == spoken && rest[..|blank|] == blank;
  }

  // ----- exactly the canonical tags survive every fragmentation

  lemma PrefixMismatch(infer: string -> string, tag: string, p: string)
    requires IsTag(tag) && !(TAG_PREFIX <= Lower(tag)) && |tag| >= 13 && LStrip(p) == tag[..10]
    ensures Examine(infer, p) == Choose(infer(p), "stream_content_fallback", p)
  {
    hide Examine, LStrip, MatchTag, HasClose, Parse;
    PartOfTag(tag, tag[..10]);
    ExamineCases(infer, p);
    assert Lower(tag[..10]) == Lower(tag)[..10];
    assert |TAG_PREFIX| == 10;
  }

  lemma TooLong(infer: string -> string, tag: string, p: string)
    requires IsTag(tag) && |tag| > 65 && LStrip(p) == tag[..65]
    ensures Examine(infer, p).Choose? && Examine(infer, p).source !in {"model_tag", "invalid_tag"}
  {
    hide Examine, LStrip, MatchTag, HasClose, MayBecomeTag;
    var q := tag[..65];
    PartOfTag(tag, q);
    TagShape(tag);
    ExamineCases(infer, p);
    StartsVisible(q);
    assert Parse(infer, q).source == "content_fallback";
  }

  lemma StartsVisible(s: string)
    requires s != "" && s[0] == '['
    ensures LStrip(s) == s
  {}

  ghost predicate AlwaysRouted(infer: string -> string, head: string, rest: string)
    requires IsTag(LStrip(head))
  {
    forall deltas | TextOf(deltas) == head + rest ::
      Selections(FeedAll(infer, START, deltas).1) == [(TagState(LStrip(head)), TagSource(LStrip(head)))]
  }

  lemma SplitInTag(infer: string -> string, head: string, rest: string)
    requires IsTag(LStrip(head)) && !Canonical(LStrip(head))
    ensures !AlwaysRouted(infer, head, rest)
  {
    hide Examine, FeedAll, LStrip, IsTag, Canonical, TagState, Selections, Spoken, TextOf;
    var p, tail := BadCut(infer, head);
    TwoPieces(infer, p, tail + rest);
    assert p + (tail + rest) == head + rest;
  }

  /** A beginning of such a head on which the router gives up waiting for a tag. */
  lemma BadCut(infer: string -> string, head: string) returns (p: string, tail: string)
    requires IsTag(LStrip(head)) && !Canonical(LStrip(head))
    ensures p + tail == head && p != ""
    ensures Examine(infer, p).Choose? && Examine(infer, p).source !in {"model_tag", "invalid_tag"}
  {
    hide Examine, LStrip, MatchTag, Lower, IsTag;
    var tag := LStrip(head);
    TagShape(tag);
    var n := if TAG_PREFIX <= Lower(tag) then 65 else 10;
    var cut := |head| - |tag| + n;
    LStripTake(head, n);
    p, tail := head[..cut], head[cut..];
    if n == 10 {
      PrefixMismatch(infer, tag, p);
    } else {
      TooLong(infer, tag, p);
    }
  }

  lemma TwoPieces(infer: string -> string, p: string, q: string)
    requires p != "" && Examine(infer, p).Choose?
    ensures var deltas, v := [Some(p), Some(q)], Examine(infer, p);
            TextOf(deltas) == p + q && Selections(FeedAll(infer, START, deltas).1) == [(v.state, v.source)]
  {
    hide Examine, FeedAll, Selections, Spoken, TextOf;
    assert "" + p == p;
    StepChoose(infer, "", Some(p), [Some(q)]);
    assert [Some(p), Some(q)] == [Some(p)] + [Some(q)];
    TextCons(Some(p), [Some(q)]);
    assert [Some(q)] == [Some(q)] + [];
    TextCons(Some(q), []);
    TextNone();
  }

  /** Whatever follows it, a tag is recognised in every fragmentation if and only if it is canonical. */
  lemma RobustIffCanonical(infer: string -> string, head: string, rest: string)
    requires IsTag(LStrip(head))
    ensures AlwaysRouted(infer, head, rest) <==> Canonical(LStrip(head))
  {
    if Canonical(LStrip(head)) {
      hide FeedAll, Selections, Spoken, LStrip, IsTag, TagState, TagSource, Canonical, LosesOnlySpace, SelectsFirst;
      HeadNotEmpty(head);
      forall deltas | TextOf(deltas) == head + rest
        ensures Selections(FeedAll(infer, START, deltas).1) == [(TagState(LStrip(head)), TagSource(LStrip(head)))]
      {
        assert "" + TextOf(deltas) == head + rest;
        CanonicalTagRouted(infer, head, rest, "", deltas);
      }
    } else {
      SplitInTag(infer, head, rest);
    }
  }

  lemma SpacedOpening()
    ensures MatchOpening("[[ emotion:happy]]") == Some(11)
  {
    var s := "[[ emotion:happy]]";
    assert s[0..2] == "[[" && Lower("[[") == "[[";
    assert SkipSpaces(s, 3) == 3 && SkipSpaces(s, 2) == 3;
    assert s[3..10] == "emotion" && Lower("emotion") == "emotion";
    assert SkipSpaces(s, 10) == 10;
    assert s[10..11] == ":" && Lower(":") == ":";
  }

  lemma SpacedTag()
    ensures MatchTag("[[ emotion:happy]]") == Some(Tag("happy", 18))
  {
    hide MatchOpening, SkipSpaces, SkipLetters, Lower, IsSpace;
    var s := "[[ emotion:happy]]";
    SpacedOpening();
    SpacedParts();
    assert s[11..16] == "happy";
    assert s[16..18] == "]]";
  }

  lemma SpacedParts()
    ensures var s := "[[ emotion:happy]]"; SkipSpaces(s, 11) == 11 && SkipSpaces(s, 16) == 16 && SkipLetters(s, 11) == 16
    ensures Lower("happy") == "happy" && Lower("]]") == "]]"
  {
    LettersTo("[[ emotion:happy]]", 11, 16);
    hide SkipLetters;
  }

  lemma {:induction false} LettersTo(s: string, i: nat, j: nat)
    requires i <= j < |s| && !TagLetter(s[j]) && forall k | i <= k < j :: TagLetter(s[k])
    ensures SkipLetters(s, i) == j
    decreases j - i
  {
    if i < j {
      LettersTo(s, i + 1, j);
    }
  }

  /** A white space after the brackets is enough: the tag is known, and some fragmentation misses it. */
  lemma SpacedTagMissed(infer: string -> string)
    ensures var tag := "[[ emotion:happy]]";
            IsTag(LStrip(tag)) && TagSource(LStrip(tag)) == "model_tag" && !Canonical(LStrip(tag)) && !AlwaysRouted(infer, tag, "")
  {
    var tag := "[[ emotion:happy]]";
    hide MatchTag, AlwaysRouted, LStrip;
    SpacedTag();
    StartsVisible(tag);
    assert Lower(tag)[2] == ' ' && TAG_PREFIX[2] == 'e';
    RobustIffCanonical(infer, tag, "");
  }

  lemma HeadNotEmpty(head: string)
    requires IsTag(LStrip(head))
    ensures |head| > 0
  {
    hide MatchTag;
  }

  // ----- text without a tag

  lemma BlankWaits(infer: string -> string, p: string)
    requires LStrip(p) == ""
    ensures Examine(infer, p) == Wait
  {
    assert Lower("") == "";
    assert !HasClose("");
    hide LStrip, Parse;
  }

  lemma OtherStart(infer: string -> string, p: string)
    requires LStrip(p) != "" && LStrip(p)[0] != '['
    ensures Examine(infer, p) == Choose(infer(p), "stream_content_fallback", p)
  {
    var t := LStrip(p);
    hide LStrip, Parse, HasClose;
    assert MatchTag(t).None? by {
      if WordAt(t, 0, "[[") {
        WordLetters(t, 0, "[[");
      }
    }
    assert Lower(t)[0] != '[';
  }

  /** Text whose first visible character is not "[" is forwarded word for word, after one selection. */
  lemma {:induction false} PlainTextForwarded(infer: string -> string, p: string, deltas: seq<Option<string>>)
    requires LStrip(p) == "" && LStrip(p + TextOf(deltas)) != "" && LStrip(p + TextOf(deltas))[0] != '['
    ensures var out := FeedAll(infer, Router(p, false, ""), deltas).1;
            && Spoken(out) == p + TextOf(deltas) && SelectsFirst(out)
            && |Selections(out)| == 1 && Selections(out)[0].1 == "stream_content_fallback"
    decreases |deltas|
  {
    hide LStrip, FeedAll, Examine, Spoken, Selections;
    NothingMore(p, deltas);
    var d, more := deltas[0], deltas[1..];
    assert deltas == [d] + more;
    TextCons(d, more);
    if d.None? || d.value == "" {
      assert "" + TextOf(more) == TextOf(more);
      PlainTextForwarded(infer, p, more);
      SilentPlain(infer, p, d, more);
    } else {
      var q := p + d.value;
      assert p + TextOf(deltas) == q + TextOf(more);
      if LStrip(q) == "" {
        BlankWaits(infer, q);
        StepWait(infer, p, d, more);
        PlainTextForwarded(infer, q, more);
      } else {
        LStripMore(q, TextOf(more));
        OtherStart(infer, q);
        StepChoose(infer, p, d, more);
      }
    }
  }

  lemma NothingMore(p: string, deltas: seq<Option<string>>)
    ensures deltas == [] ==> p + TextOf(deltas) == p
  {}

  lemma SilentPlain(infer: string -> string, p: string, d: Option<string>, more: seq<Option<string>>)
    requires d.None? || d.value == ""
    requires SelectsFirst(FeedAll(infer, Router(p, false, ""), more).1)
    ensures var out, later := FeedAll(infer, Router(p, false, ""), [d] + more).1, FeedAll(infer, Router(p, false, ""), more).1;
            Spoken(out) == Spoken(later) && Selections(out) == Selections(later) && SelectsFirst(out)
  {
    hide FeedAll;
    FeedAllCons(infer, Router(p, false, ""), d, more);
    var first := Feed(infer, Router(p, false, ""), d).1;
    var later := FeedAll(infer, Router(p, false, ""), more).1;
    SpokenAppend(first, later);
    SelectionsAppend(first, later);
    if first == [] {
      assert first + later == later;
    } else {
      assert first == [ForwardedEnd];
      One(ForwardedEnd);
      assert (first + later)[1..] == later;
      assert "" + Spoken(later) == Spoken(later) && [] + Selections(later) == Selections(later);
    }
  }

  // ----- any text that cannot be a tag, and any text at all

  lemma TagPersists(t: string, u: string)
    requires t <= u
    ensures MatchTag(t).Some? ==> MatchTag(u).Some?
    ensures TAG_PREFIX <= Lower(t) ==> TAG_PREFIX <= Lower(u)
  {
    hide MatchTag;
    assert t + u[|t|..] == u;
    if MatchTag(t).Some? {
      TagExtend(t, u[|t|..]);
    }
    assert Lower(t) == Lower(u)[..|t|];
  }

  /** A beginning of text that neither is nor can become a tag is held back only while it could. */
  lemma UntaggedPart(infer: string -> string, p: string, whole: string)
    requires p <= whole && MatchTag(LStrip(whole)).None? && LStrip(whole) != "" && !MayBecomeTag(LStrip(whole))
    ensures Examine(infer, p) == if MayBecomeTag(LStrip(p)) then Wait else Choose(infer(p), "stream_content_fallback", p)
  {
    hide MatchTag, LStrip, Parse, Examine, HasClose;
    LStripPart(p, whole);
    TagPersists(LStrip(p), LStrip(whole));
    ExamineCases(infer, p);
    if MayBecomeTag(LStrip(p)) {
      PrefixUnclosed(LStrip(p));
    }
  }

  lemma PrefixUnclosed(t: string)
    requires Lower(t) <= TAG_PREFIX
    ensures |t| <= 10 && !HasClose(t)
  {
    forall i | 0 <= i < |t| ensures t[i] != ']' {
      assert Lower(t)[i] == LowerChar(t[i]) && Lower(t)[i] == TAG_PREFIX[i];
    }
  }

  /**
   Text that is no tag and cannot become one, whatever it begins with: it is forwarded word for word in
   every fragmentation, after one selection guessed from its content.
   */
  lemma {:induction false} UntaggedForwarded(infer: string -> string, p: string, deltas: seq<Option<string>>)
    requires var whole := p + TextOf(deltas);
             LStrip(whole) != "" && MatchTag(LStrip(whole)).None? && !MayBecomeTag(LStrip(whole))
    requires MayBecomeTag(LStrip(p))
    ensures var out := FeedAll(infer, Router(p, false, ""), deltas).1;
            && Spoken(out) == p + TextOf(deltas) && SelectsFirst(out)
            && |Selections(out)| == 1 && Selections(out)[0].1 == "stream_content_fallback"
            && exists q :: q <= p + TextOf(deltas) && !MayBecomeTag(LStrip(q)) && Selections(out)[0].0 == infer(q)
    decreases |deltas|
  {
    hide LStrip, FeedAll, Examine, Spoken, Selections, MatchTag, MayBecomeTag;
    NothingMore(p, deltas);
    var d, more := deltas[0], deltas[1..];
    assert deltas == [d] + more;
    TextCons(d, more);
    if d.None? || d.value == "" {
      assert "" + TextOf(more) == TextOf(more);
      UntaggedForwarded(infer, p, more);
      SilentPlain(infer, p, d, more);
    } else {
      var q := p + d.value;
      assert p + TextOf(deltas) == q + TextOf(more);
      UntaggedPart(infer, q, q + TextOf(more));
      if MayBecomeTag(LStrip(q)) {
        StepWait(infer, p, d, more);
        UntaggedForwarded(infer, q, more);
      } else {
        StepChoose(infer, p, d, more);
        assert q <= p + TextOf(deltas);
      }
    }
  }

  /** Whatever arrives, at most one state is ever selected, and nothing is spoken before it. */
  lemma {:induction false} OneSelectionFirst(infer: string -> string, p: string, deltas: seq<Option<string>>)
    ensures var (r, out) := FeedAll(infer, Router(p, false, ""), deltas);
            && |Selections(out)| == (if r.resolved then 1 else 0)
            && (r.resolved ==> SelectsFirst(out) && r.state == Selections(out)[0].0)
            && (!r.resolved ==> Spoken(out) == "")
    decreases |deltas|
  {
    hide FeedAll, Examine, Spoken, Selections, TextOf;
    if deltas == [] {
      NoDeltas(infer, p);
    } else {
      var d, more := deltas[0], deltas[1..];
      assert deltas == [d] + more;
      if d.None? || d.value == "" {
        OneSelectionFirst(infer, p, more);
        SilentAny(infer, p, d, more);
      } else if Examine(infer, p + d.value) == Wait {
        StepWait(infer, p, d, more);
        OneSelectionFirst(infer, p + d.value, more);
      } else {
        StepChoose(infer, p, d, more);
      }
    }
  }

  lemma NoDeltas(infer: string -> string, p: string)
    ensures FeedAll(infer, Router(p, false, ""), []) == (Router(p, false, ""), []) && Selections([]) == [] && Spoken([]) == ""
  {}

  lemma SilentAny(infer: string -> string, p: string, d: Option<string>, more: seq<Option<string>>)
    requires d.None? || d.value == ""
    ensures var (r, out), (r', later) := FeedAll(infer, Router(p, false, ""), [d] + more), FeedAll(infer, Router(p, false, ""), more);
            r == r' && Spoken(out) == Spoken(later) && Selections(out) == Selections(later) && (SelectsFirst(later) ==> SelectsFirst(out))
  {
    hide FeedAll;
    FeedAllCons(infer, Router(p, false, ""), d, more);
    var first := Feed(infer, Router(p, false, ""), d).1;
    var later := FeedAll(infer, Router(p, false, ""), more).1;
    SpokenAppend(first, later);
    SelectionsAppend(first, later);
    if first == [] {
      assert first + later == later;
    } else {
      assert first == [ForwardedEnd];
      One(ForwardedEnd);
      assert (first + later)[1..] == later;
      assert "" + Spoken(later) == Spoken(later) && [] + Selections(later) == Selections(later);
    }
  }

  /** The nine labels that select their own state; a tag with another label selects "thinking". */
  lemma KnownLabels(name: string)
    ensures Known(name) <==>
              || name == "thinking" || name == "happy" || name == "love" || name == "proud" || name == "cool"
              || name == "sad" || name == "cry" || name == "afraid" || name == "angry"
  {}

  // ----- the pattern of a tag, part by part

  predicate SpaceFrom(s: string, i: nat, j: nat) {
    i <= j <= |s| && forall k | i <= k < j :: IsSpace(s[k])
  }

  predicate LettersFrom(s: string, i: nat, j: nat) {
    i < j <= |s| && forall k | i <= k < j :: 'a' <= s[k] <= 'z' || 'A' <= s[k] <= 'Z' || s[k] == '_'
  }

  /** Two brackets, "emotion" at `a` in any case, a colon at `b`, a name from `c` to `d`, two brackets at `e`; white space in between. */
  predicate TagParts(s: string, a: nat, b: nat, c: nat, d: nat, e: nat) {
    && |s| >= 2 && s[0] == '[' && s[1] == '[' && SpaceFrom(s, 2, a)
    && a + 7 <= |s| && Lower(s[a..a + 7]) == "emotion" && SpaceFrom(s, a + 7, b)
    && b < |s| && s[b] == ':' && SpaceFrom(s, b + 1, c)
    && LettersFrom(s, c, d) && SpaceFrom(s, d, e) && e + 2 <= |s| && s[e] == ']' && s[e + 1] == ']'
  }

  lemma {:induction false} SpacesTo(s: string, i: nat, j: nat)
    requires SpaceFrom(s, i, j) && j < |s| && !IsSpace(s[j])
    ensures SkipSpaces(s, i) == j
    decreases j - i
  {
    if i < j {
      SpacesTo(s, i + 1, j);
    }
  }

  lemma PartsMatch(s: string, a: nat, b: nat, c: nat, d: nat, e: nat)
    requires TagParts(s, a, b, c, d, e)
    ensures MatchTag(s) == Some(Tag(Lower(s[c..d]), e + 2))
  {
    hide MatchTag, SkipSpaces, SkipLetters, IsSpace, Lower, WordAt, SpaceFrom, LettersFrom;
    PartsSkipped(s, a, b, c, d, e);
    Brackets();
    assert s[..2] == "[[" && s[b..b + 1] == ":" && s[e..e + 2] == "]]";
    WordIs(s, 0, "[[", "[[");
    WordIs(s, a, "emotion", s[a..a + 7]);
    WordIs(s, b, ":", ":");
    WordIs(s, e, "]]", "]]");
    StagesMatch(s, a, b, c, d, e);
  }

  lemma StagesMatch(s: string, a: nat, b: nat, c: nat, d: nat, e: nat)
    requires 2 <= a && a + 7 <= b && b + 1 <= c < d <= e && e + 2 <= |s|
    requires a == SkipSpaces(s, 2) && b == SkipSpaces(s, a + 7) && c == SkipSpaces(s, b + 1)
    requires d == SkipLetters(s, c) && e == SkipSpaces(s, d)
    requires WordAt(s, 0, "[[") && WordAt(s, a, "emotion") && WordAt(s, b, ":") && WordAt(s, e, "]]")
    ensures MatchTag(s) == Some(Tag(Lower(s[c..d]), e + 2))
  {
    hide SkipSpaces, SkipLetters, IsSpace, Lower, WordAt, TagLetter;
  }

  lemma PartsSkipped(s: string, a: nat, b: nat, c: nat, d: nat, e: nat)
    requires TagParts(s, a, b, c, d, e)
    ensures 2 <= a && a + 7 <= b && b + 1 <= c && c < d <= e && e + 2 <= |s|
    ensures SkipSpaces(s, 2) == a && SkipSpaces(s, a + 7) == b && SkipSpaces(s, b + 1) == c
    ensures SkipLetters(s, c) == d && SkipSpaces(s, d) == e
  {
    hide SkipSpaces, SkipLetters, IsSpace, Lower;
    Visibles(s, a, b, c, d, e);
    SpacesTo(s, 2, a);
    SpacesTo(s, a + 7, b);
    SpacesTo(s, b + 1, c);
    LettersTo(s, c, d);
    SpacesTo(s, d, e);
  }

  lemma WordIs(s: string, i: nat, word: string, w: string)
    requires i + |w| <= |s| && s[i..i + |w|] == w && Lower(w) == word
    ensures WordAt(s, i, word)
  {}

  lemma Brackets()
    ensures Lower("[[") == "[[" && Lower(":") == ":" && Lower("]]") == "]]"
  {}

  /** The characters that end each stretch of white space or letters. */
  lemma Visibles(s: string, a: nat, b: nat, c: nat, d: nat, e: nat)
    requires TagParts(s, a, b, c, d, e)
    ensures !IsSpace(s[a]) && !IsSpace(s[b]) && !IsSpace(s[c]) && !IsSpace(s[e])
    ensures d < |s| && !TagLetter(s[d])
  {
    var w := s[a..a + 7];
    assert Lower(w)[0] == LowerChar(w[0]) && w[0] == s[a];
    assert "emotion"[0] == 'e';
    hide Lower;
  }

  lemma MatchStages(s: string) returns (a: nat, b: nat, c: nat, d: nat, e: nat)
    requires MatchTag(s).Some?
    ensures 2 <= a && a + 7 <= b && b + 1 <= c < d <= e && e + 2 <= |s|
    ensures a == SkipSpaces(s, 2) && b == SkipSpaces(s, a + 7) && c == SkipSpaces(s, b + 1)
    ensures d == SkipLetters(s, c) && e == SkipSpaces(s, d)
    ensures WordAt(s, 0, "[[") && WordAt(s, a, "emotion") && WordAt(s, b, ":") && WordAt(s, e, "]]")
    ensures MatchTag(s) == Some(Tag(Lower(s[c..d]), e + 2))
  {
    hide SkipSpaces, SkipLetters, IsSpace, WordAt, Lower, TagLetter;
    WordInside(s, 0, "[[");
    a := SkipSpaces(s, 2);
    WordInside(s, a, "emotion");
    b := SkipSpaces(s, a + 7);
    WordInside(s, b, ":");
    c := SkipSpaces(s, b + 1);
    d := SkipLetters(s, c);
    e := SkipSpaces(s, d);
    WordInside(s, e, "]]");
  }

  lemma MatchParts(s: string)
    requires MatchTag(s).Some?
    ensures exists a: nat, b: nat, c: nat, d: nat, e: nat ::
              TagParts(s, a, b, c, d, e) && c <= d <= |s| && MatchTag(s) == Some(Tag(Lower(s[c..d]), e + 2))
  {
    hide MatchTag, SkipSpaces, SkipLetters, IsSpace, WordAt, Lower, SpaceFrom, LettersFrom;
    var a, b, c, d, e := MatchStages(s);
    WordAtLower(s, a, "emotion");
    SignsAt(s, b, e);
    StretchesAre(s, 2, a);
    StretchesAre(s, a + 7, b);
    StretchesAre(s, b + 1, c);
    StretchesAre(s, c, d);
    StretchesAre(s, d, e);
    assert TagParts(s, a, b, c, d, e);
  }

  lemma SignsAt(s: string, b: nat, e: nat)
    requires WordAt(s, 0, "[[") && WordAt(s, b, ":") && WordAt(s, e, "]]")
    ensures |s| >= 2 && s[0] == '[' && s[1] == '[' && b < |s| && s[b] == ':' && e + 2 <= |s| && s[e] == ']' && s[e + 1] == ']'
  {
    hide Lower;
    WordLetters(s, 0, "[[");
    WordLetters(s, b, ":");
    WordLetters(s, e, "]]");
    assert LowerChar(s[0]) == "[["[0] && LowerChar(s[0 + 1]) == "[["[1];
    assert LowerChar(s[b]) == ":"[0];
    assert LowerChar(s[e]) == "]]"[0] && LowerChar(s[e + 1]) == "]]"[1];
  }

  lemma StretchesAre(s: string, i: nat, j: nat)
    requires i <= |s|
    ensures j == SkipSpaces(s, i) ==> SpaceFrom(s, i, j)
    ensures j == SkipLetters(s, i) && i < j ==> LettersFrom(s, i, j)
  {
    hide SkipSpaces, SkipLetters, IsSpace;
  }

  lemma WordAtLower(s: string, i: nat, word: string)
    requires WordAt(s, i, word)
    ensures i + |word| <= |s| && Lower(s[i..i + |word|]) == word
  {}

  /** A text begins with a tag exactly if it has these parts. */
  lemma MatchTagIff(s: string, name: string, end: nat)
    ensures MatchTag(s) == Some(Tag(name, end)) <==>
              exists a: nat, b: nat, c: nat, d: nat, e: nat :: TagParts(s, a, b, c, d, e) && c <= d <= |s| && name == Lower(s[c..d]) && end == e + 2
  {
    hide MatchTag, TagParts, Lower;
    if MatchTag(s).Some? {
      MatchParts(s);
    }
    forall a: nat, b: nat, c: nat, d: nat, e: nat | TagParts(s, a, b, c, d, e)
      ensures c <= d <= |s| && MatchTag(s) == Some(Tag(Lower(s[c..d]), e + 2))
    {
      PartsMatch(s, a, b, c, d, e);
      PartsSkipped(s, a, b, c, d, e);
    }
  }

  /** Text that may stand inside a tag that is never closed properly, and where it ends. */
  predicate InsideTag(t: string, i: nat, k: nat) {
    && k <= 48 && i + k <= |t| && (forall j | i <= j < i + k :: t[j] != ']' && t[j] != '\r' && t[j] != '\n')
    && (k == 48 || i + k == |t| || t[i + k] == ']' || t[i + k] == '\r' || t[i + k] == '\n')
  }

  /**
   Of a tag that is never closed properly, its opening goes, at most 48 characters of it up to a
   bracket or line end, brackets that close it, and white space.
   */
  lemma IncompleteDropped(s: string, o: nat, k: nat)
    requires MatchOpening(LStrip(s)) == Some(o) && InsideTag(LStrip(s), o, k)
    ensures var t := LStrip(s);
            o + k <= |t| && DropIncomplete(s) == LStrip(t[AfterInside(t, o + k)..])
  {
    hide LStrip, MatchOpening, InsideTag, AfterInside, AfterUnfinished;
    UnfinishedEnds(LStrip(s), o, k);
  }

  lemma UnfinishedEnds(t: string, o: nat, k: nat)
    requires o <= |t| && InsideTag(t, o, k)
    ensures o + k <= |t| && AfterUnfinished(t, o) == LStrip(t[AfterInside(t, o + k)..])
  {
    hide LStrip, InsideTag, AfterInside, WordAt, SkipInside, SkipSpaces;
    InsideEnds(t, o, k);
    AfterInsideIs(t, o + k);
    SkipIsLStrip(t, AfterInside(t, o + k));
  }

  lemma InsideEnds(t: string, o: nat, k: nat)
    requires InsideTag(t, o, k)
    ensures o + k <= |t| && SkipInside(t, o, 48) == o + k
  {
    InsideTo(t, o, k, 48);
    hide SkipInside;
  }

  lemma AfterInsideIs(t: string, i: nat)
    ensures AfterInside(t, i) == if WordAt(t, i, "]]") then i + 2 else i
  {
    hide WordAt;
    ClosedIff(t, i);
  }

  /** Past the brackets that close a tag there, if they do. */
  function AfterInside(t: string, i: nat): (j: nat)
    ensures i <= |t| ==> j <= |t|
  {
    if i + 2 <= |t| && t[i] == ']' && t[i + 1] == ']' then i + 2 else i
  }

  lemma ClosedIff(t: string, i: nat)
    ensures WordAt(t, i, "]]") <==> i + 2 <= |t| && t[i] == ']' && t[i + 1] == ']'
  {
    Brackets();
    if i + 2 <= |t| {
      var w := t[i..i + 2];
      assert w[0] == t[i] && w[1] == t[i + 1];
      assert Lower(w)[0] == LowerChar(t[i]) && Lower(w)[1] == LowerChar(t[i + 1]);
      if t[i] == ']' && t[i + 1] == ']' {
        assert w == "]]";
      }
    }
  }

  lemma {:induction false} InsideTo(t: string, i: nat, k: nat, most: nat)
    requires k <= most && i + k <= |t| && (forall j | i <= j < i + k :: t[j] != ']' && t[j] != '\r' && t[j] != '\n')
    requires k == most || i + k == |t| || t[i + k] == ']' || t[i + k] == '\r' || t[i + k] == '\n'
    ensures SkipInside(t, i, most) == i + k
    decreases k
  {
    if k > 0 {
      InsideTo(t, i + 1, k - 1, most - 1);
    }
  }

  lemma {:induction false} SkipIsLStrip(t: string, i: nat)
    requires i <= |t|
    ensures t[SkipSpaces(t, i)..] == LStrip(t[i..])
    decreases |t| - i
  {
    if i < |t| && IsSpace(t[i]) {
      SkipIsLStrip(t, i + 1);
      assert t[i..][1..] == t[i + 1..];
    }
  }

  // ----- finalizing

  /** Finalizing the same reply selects nothing again when the label is known. */
  lemma FinalizeAgrees(infer: string -> string, head: string, rest: string)
    requires IsTag(LStrip(head)) && TagSource(LStrip(head)) == "model_tag"
    ensures Finalize(infer, Resolve(TagState(LStrip(head))), head + rest)
         == (Resolve(TagState(LStrip(head))), [], Strip(rest))
  {
    hide MatchTag, LStrip, Strip, DropIncomplete;
    var tag := LStrip(head);
    TagNotEmpty(tag);
    LStripMore(head, rest);
    TagExtend(tag, rest);
    assert (tag + rest)[|tag|..] == rest;
  }

  /** A reply that begins with a tag is the text behind it; a label that is not known is replaced by a guess from that text. */
  lemma TaggedReply(infer: string -> string, s: string, name: string, end: nat, text: string)
    requires MatchTag(LStrip(s)) == Some(Tag(name, end)) && end <= |LStrip(s)| && Stripped(LStrip(s)[end..], text)
    ensures Parse(infer, s) == Parsed(text, if Known(name) then name else infer(text),
                                      if Known(name) then "model_tag" else "invalid_tag_fallback")
  {
    hide LStrip, MatchTag, Strip, Stripped, Known, DropIncomplete;
    StripIff(LStrip(s)[end..], text);
  }

  /** Any other reply loses what there is of an unfinished tag, and its state is guessed. */
  lemma UntaggedReply(infer: string -> string, s: string, text: string)
    requires MatchTag(LStrip(s)).None? && Stripped(DropIncomplete(s), text)
    ensures Parse(infer, s) == Parsed(text, infer(text), "content_fallback")
    ensures MatchOpening(LStrip(s)).None? ==> DropIncomplete(s) == s
  {
    hide LStrip, MatchTag, MatchOpening, Strip, Stripped, SkipInside, SkipSpaces, WordAt;
    StripIff(DropIncomplete(s), text);
  }

  /** Finalizing selects the state of the whole reply unless it is the one already selected, and gives back the cleaned reply. */
  lemma FinalizeSelects(infer: string -> string, r: Router, text: string)
    ensures var (r', out, kept) := Finalize(infer, r, text);
            var p := Parse(infer, text);
            && kept == p.text && r'.resolved && r'.state == p.state && r'.buffer == ""
            && out == if r.resolved && r.state == p.state then [] else [Selected(p.state, p.source)]
  {
    hide Parse;
  }

  /** The end of a segment is passed on unless text is still held back. */
  lemma EndPassed(infer: string -> string, r: Router)
    ensures Feed(infer, r, None) == (r, if !r.resolved && r.buffer != "" then [] else [ForwardedEnd])
  {}

  /** Text is held back exactly while it may still become a tag within 64 characters. */
  lemma WaitsIff(infer: string -> string, r: Router, delta: string)
    requires !r.resolved && delta != ""
    ensures var t := LStrip(r.buffer + delta);
            var r' := Feed(infer, r, Some(delta)).0;
            && (!r'.resolved <==> MatchTag(t).None? && MayBecomeTag(t) && |t| <= 64 && !HasClose(t))
            && (!r'.resolved ==> r'.buffer == r.buffer + delta && Feed(infer, r, Some(delta)).1 == [])
  {
    hide LStrip, MatchTag, MayBecomeTag, HasClose, Known, Parse;
  }

  // ----- the router object

  class ResponseEmotionStreamRouter {
    var buffer: string
    var resolved: bool
    var state: string
    /** The calls made to `downstream` and `on_expression`, in order. */
    var calls: seq<Out>

    function Current(): Router
      reads this
    {
      Router(buffer, resolved, state)
    }

    constructor ()
      ensures Current() == START && calls == []
    {
      buffer, resolved, state, calls := "", false, "", [];
    }

    method Select(state: string, source: string)
      modifies this
      ensures Current() == Router(old(buffer), true, state) && calls == old(calls) + [Selected(state, source)]
    {
      resolved := true;
      this.state := state;
      calls := calls + [Selected(state, source)];
    }

    method FeedDelta(infer: string -> string, delta: Option<string>)
      modifies this
      ensures var (r, out) := Feed(infer, old(Current()), delta); Current() == r && calls == old(calls) + out
    {
      hide Examine;
      if delta.None? {
        if resolved || buffer == "" {
          calls := calls + [ForwardedEnd];
        }
        return;
      }
      if delta.value == "" {
        return;
      }
      if resolved {
        calls := calls + [Forwarded(delta.value)];
        return;
      }
      buffer := buffer + delta.value;
      FeedBuffer(infer);
    }

    /** The rest of `feed`, once the new text is in the buffer. */
    method FeedBuffer(infer: string -> string)
      modifies this
      ensures match Examine(infer, old(buffer))
              case Wait => Current() == old(Current()) && calls == old(calls)
              case Choose(state, source, text) =>
                Current() == Resolve(state) && calls == old(calls) + ([Selected(state, source)] + ForwardText(text))
    {
      hide MatchTag, LStrip, Parse, HasClose, MayBecomeTag, Known;
      var stripped := LStrip(buffer);
      var tag := MatchTag(stripped);
      if tag.Some? {
        var name := tag.value.name;
        var remainder := LStrip(stripped[tag.value.end..]);
        buffer := "";
        Select(if Known(name) then name else "thinking", if Known(name) then "model_tag" else "invalid_tag");
        Forward(remainder);
        return;
      }
      if MayBecomeTag(stripped) {
        if |stripped| <= 64 && !HasClose(stripped) {
          return;
        }
        var parsed := Parse(infer, stripped);
        buffer := "";
        Select(parsed.state, parsed.source);
        Forward(parsed.text);
        return;
      }
      var buffered := buffer;
      buffer := "";
      Select(infer(buffered), "stream_content_fallback");
      Forward(buffered);
    }

    method Forward(text: string)
      modifies this`calls
      ensures calls == old(calls) + ForwardText(text)
    {
      if text != "" {
        calls := calls + [Forwarded(text)];
      }
    }
  }
}
