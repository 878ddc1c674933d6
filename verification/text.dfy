/** The string operations of Python that the models need, on characters one at a time. */
module Text {

  /** `str.isspace` of one character. */
  predicate IsSpace(c: char) {
    var n := c as int;
    || 0x09 <= n <= 0x0D || 0x1C <= n <= 0x20 || n == 0x85 || n == 0xA0 || n == 0x1680
    || 0x2000 <= n <= 0x200A || n == 0x2028 || n == 0x2029 || n == 0x202F || n == 0x205F || n == 0x3000
  }

  ghost predicate Blank(s: string) {
    forall i | 0 <= i < |s| :: IsSpace(s[i])
  }

  function LStrip(s: string): (r: string)
    ensures |r| <= |s| && r == s[|s| - |r|..] && Blank(s[..|s| - |r|])
    ensures r != "" ==> !IsSpace(r[0])
  {
    if s == "" || !IsSpace(s[0]) then s else LStrip(s[1..])
  }

  function RStrip(s: string): (r: string)
    ensures r <= s && Blank(s[|r|..])
    ensures r != "" ==> !IsSpace(r[|r| - 1])
  {
    if s == "" || !IsSpace(s[|s| - 1]) then s
    else
      var front := s[..|s| - 1];
      var r := RStrip(front);
      assert forall i | |r| <= i < |front| :: front[i] == front[|r|..][i - |r|];
      r
  }

  function Strip(s: string): string {
    RStrip(LStrip(s))
  }

  /** No white space at either end. */
  predicate Trim(s: string) {
    s == "" || (!IsSpace(s[0]) && !IsSpace(s[|s| - 1]))
  }

  lemma StripTrims(s: string)
    ensures Trim(Strip(s))
    ensures Trim(s) ==> Strip(s) == s
  {
    var l := LStrip(s);
    var r := RStrip(l);
    if r != "" {
      assert r[0] == l[0];
    }
  }

  /** `t` has no white space at its ends and `s` is `t` with white space around it. */
  ghost predicate Stripped(s: string, t: string) {
    Trim(t) && exists before, after :: Blank(before) && Blank(after) && s == before + t + after
  }

  lemma StripIff(s: string, t: string)
    ensures Strip(s) == t <==> Stripped(s, t)
  {
    hide Strip, Trim, Blank;
    StripTrims(s);
    StripParts(s);
    if Stripped(s, t) {
      var before, after :| Blank(before) && Blank(after) && s == before + t + after;
      assert s == before + (t + after);
      StripAround(before, t, after);
    }
  }

  lemma StripParts(s: string)
    ensures exists before, after :: Blank(before) && Blank(after) && s == before + Strip(s) + after
  {
    hide LStrip, RStrip, Blank;
    var l := LStrip(s);
    var r := RStrip(l);
    var before, after := s[..|s| - |l|], l[|r|..];
    assert s == before + l && l == r + after;
    assert s == before + r + after;
  }

  lemma StripAround(before: string, t: string, after: string)
    requires Trim(t) && Blank(before) && Blank(after)
    ensures Strip(before + (t + after)) == t
  {
    hide IsSpace;
    if t == "" {
      assert before + (t + after) == (before + after) + "";
      LStripBlank(before + after, "");
    } else {
      LStripBlank(before, t + after);
      RStripBlank(t, after);
    }
  }

  lemma {:induction false} LStripBlank(before: string, s: string)
    requires Blank(before) && (s == "" || !IsSpace(s[0]))
    ensures LStrip(before + s) == s
    decreases |before|
  {
    if before == "" {
      assert before + s == s;
    } else {
      assert (before + s)[1..] == before[1..] + s;
      LStripBlank(before[1..], s);
    }
  }

  lemma {:induction false} RStripBlank(s: string, after: string)
    requires Blank(after) && (s == "" || !IsSpace(s[|s| - 1]))
    ensures RStrip(s + after) == s
    decreases |after|
  {
    if after == "" {
      assert s + after == s;
    } else {
      var n := |after| - 1;
      assert (s + after)[..|s + after| - 1] == s + after[..n];
      assert (s + after)[|s + after| - 1] == after[n];
      RStripBlank(s, after[..n]);
    }
  }

  /** Stripping a beginning of `s` gives a beginning of what stripping `s` gives. */
  lemma {:induction false} LStripPart(p: string, s: string)
    requires p <= s && LStrip(s) != ""
    ensures LStrip(p) <= LStrip(s) && (|p| < |s| ==> |LStrip(p)| < |LStrip(s)|)
    decreases |p|
  {
    if p != "" && IsSpace(p[0]) {
      assert p[1..] <= s[1..];
      LStripPart(p[1..], s[1..]);
    }
  }

  lemma {:induction false} LStripTake(s: string, n: nat)
    requires LStrip(s) != "" && n <= |LStrip(s)|
    ensures LStrip(s[..|s| - |LStrip(s)| + n]) == LStrip(s)[..n]
    decreases |s|
  {
    hide LStrip, IsSpace, Blank;
    LStripUnfold(s);
    if s != "" && !IsSpace(s[0]) {
      LStripUnfold(s[..n]);
    } else if s != "" {
      var m := |s| - |LStrip(s)| + n;
      LStripTake(s[1..], n);
      TakeRest(s, m);
      LStripUnfold(s[..m]);
    }
  }

  lemma TakeRest(s: string, m: nat)
    requires 0 < m <= |s|
    ensures s[..m] != "" && s[..m][0] == s[0] && s[..m][1..] == s[1..][..m - 1]
  {}

  lemma LStripUnfold(s: string)
    ensures LStrip(s) == if s == "" || !IsSpace(s[0]) then s else LStrip(s[1..])
  {}

  lemma {:induction false} LStripMore(s: string, x: string)
    requires LStrip(s) != ""
    ensures LStrip(s + x) == LStrip(s) + x
    decreases |s|
  {
    if IsSpace(s[0]) {
      assert (s + x)[1..] == s[1..] + x;
      LStripMore(s[1..], x);
    }
  }

  /** Lower case of the ASCII letters; other characters stand for themselves. */
  function LowerChar(c: char): char {
    if 'A' <= c <= 'Z' then (c as int + 32) as char else c
  }

  function Lower(s: string): (r: string)
    ensures |r| == |s| && forall i | 0 <= i < |s| :: r[i] == LowerChar(s[i])
  {
    seq(|s|, i requires 0 <= i < |s| => LowerChar(s[i]))
  }
}
