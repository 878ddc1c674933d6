/** The text forms of the Workshop contract: package paths, application ids and domain names. */
module WorkshopText {
  import opened Text

  // ----- splitting and joining

  function Split(s: string, sep: char): (parts: seq<string>)
    ensures |parts| >= 1
    decreases |s|
  {
    if s == "" then [""]
    else if s[0] == sep then [""] + Split(s[1..], sep)
    else
      var rest := Split(s[1..], sep);
      [[s[0]] + rest[0]] + rest[1..]
  }

  function Join(parts: seq<string>, sep: char): string {
    if parts == [] then "" else if |parts| == 1 then parts[0] else parts[0] + [sep] + Join(parts[1..], sep)
  }

  ghost predicate Unsplit(parts: seq<string>, sep: char) {
    forall i | 0 <= i < |parts| :: sep !in parts[i]
  }

  lemma {:induction false} SplitParts(s: string, sep: char)
    ensures Unsplit(Split(s, sep), sep) && Join(Split(s, sep), sep) == s
    decreases |s|
  {
    if s != "" {
      SplitParts(s[1..], sep);
      var rest := Split(s[1..], sep);
      if s[0] == sep {
        assert ([""] + rest)[1..] == rest;
        assert "" + [sep] + Join(rest, sep) == s;
      } else {
        var parts := [[s[0]] + rest[0]] + rest[1..];
        assert parts[1..] == rest[1..];
        assert Join(parts, sep) == [s[0]] + Join(rest, sep);
      }
    }
  }

  /** The text before the first separator, and the rest. */
  lemma {:induction false} SplitFirst(head: string, tail: string, sep: char)
    requires sep !in head
    ensures Split(head + [sep] + tail, sep) == [head] + Split(tail, sep)
    decreases |head|
  {
    var s := head + [sep] + tail;
    if head == "" {
      assert s[1..] == tail;
    } else {
      assert s[1..] == head[1..] + [sep] + tail;
      SplitFirst(head[1..], tail, sep);
      assert [s[0]] + head[1..] == head;
    }
  }

  lemma {:induction false} SplitNone(s: string, sep: char)
    requires sep !in s
    ensures Split(s, sep) == [s]
    decreases |s|
  {
    if s != "" {
      SplitNone(s[1..], sep);
      assert [s[0]] + s[1..] == s;
    }
  }

  lemma {:induction false} SplitJoin(parts: seq<string>, sep: char)
    requires Unsplit(parts, sep) && parts != []
    ensures Split(Join(parts, sep), sep) == parts
    decreases |parts|
  {
    if |parts| == 1 {
      SplitNone(parts[0], sep);
    } else {
      SplitJoin(parts[1..], sep);
      SplitFirst(parts[0], Join(parts[1..], sep), sep);
    }
  }

  // ----- package paths

  datatype PathResult = GoodPath(path: string) | InvalidPath | UnsafePath

  /** The components `PurePosixPath` keeps. */
  function Components(parts: seq<string>): seq<string> {
    if parts == [] then []
    else (if parts[0] == "" || parts[0] == "." then [] else [parts[0]]) + Components(parts[1..])
  }

  predicate Kept(part: string) {
    part != "" && part != "." && '/' !in part
  }

  /** `safe_package_path` */
  function SafePath(value: string): PathResult {
    if value == "" || '\0' in value then InvalidPath
    else
      var parts := Components(Split(value, '/'));
      if value[0] == '/' || ".." in parts then UnsafePath
      else if parts == [] then GoodPath(".")
      else GoodPath(Join(parts, '/'))
  }

  lemma {:induction false} ComponentsKept(parts: seq<string>)
    requires Unsplit(parts, '/')
    ensures forall i | 0 <= i < |Components(parts)| :: Kept(Components(parts)[i])
    ensures Components(parts) != [] ==> |Join(Components(parts), '/')| <= |Join(parts, '/')|
    ensures forall c | c in Join(Components(parts), '/') :: c in Join(parts, '/')
    decreases |parts|
  {
    if parts != [] {
      ComponentsKept(parts[1..]);
      var rest := Components(parts[1..]);
      if parts[0] == "" || parts[0] == "." {
        assert Components(parts) == rest;
      } else {
        assert Components(parts) == [parts[0]] + rest && ([parts[0]] + rest)[1..] == rest;
      }
    }
  }

  lemma {:induction false} ComponentsSame(parts: seq<string>)
    requires forall i | 0 <= i < |parts| :: Kept(parts[i])
    ensures Components(parts) == parts
    decreases |parts|
  {
    if parts != [] {
      ComponentsSame(parts[1..]);
    }
  }

  lemma {:induction false} JoinStarts(parts: seq<string>)
    requires parts != [] && forall i | 0 <= i < |parts| :: Kept(parts[i])
    ensures Join(parts, '/') != "" && parts[0] != "" && parts[|parts| - 1] != ""
    ensures Join(parts, '/')[0] == parts[0][0]
    ensures Join(parts, '/')[|Join(parts, '/')| - 1] == parts[|parts| - 1][|parts[|parts| - 1]| - 1]
    decreases |parts|
  {
    if |parts| > 1 {
      JoinStarts(parts[1..]);
      var tail := Join(parts[1..], '/');
      assert parts[1..][|parts[1..]| - 1] == parts[|parts| - 1];
    }
  }

  /** A normalised path is its own normal form and is no longer than the path it comes from. */
  lemma SafePathNormal(value: string)
    requires SafePath(value).GoodPath?
    ensures var p := SafePath(value).path; p != "" && SafePath(p) == GoodPath(p) && |p| <= |value|
  {
    var parts := Components(Split(value, '/'));
    SplitParts(value, '/');
    ComponentsKept(Split(value, '/'));
    if parts == [] {
      assert Split(".", '/') == ["."] by { SplitNone(".", '/'); }
      assert Components(["."]) == [];
    } else {
      var p := Join(parts, '/');
      SplitJoin(parts, '/');
      ComponentsSame(parts);
      JoinStarts(parts);
      assert parts[0][0] in parts[0];
      assert '\0' !in p;
    }
  }

  // ----- application ids and domains

  predicate LowerAlnum(c: char) {
    'a' <= c <= 'z' || '0' <= c <= '9'
  }

  /** `[a-z][a-z0-9]*(?:[.-][a-z0-9]+)+` */
  predicate IsAppId(s: string) {
    && s != "" && 'a' <= s[0] <= 'z' && LowerAlnum(s[|s| - 1])
    && (forall i | 0 <= i < |s| :: LowerAlnum(s[i]) || s[i] == '.' || s[i] == '-')
    && (forall i | 0 <= i < |s| - 1 :: LowerAlnum(s[i]) || LowerAlnum(s[i + 1]))
    && (exists i | 0 <= i < |s| :: !LowerAlnum(s[i]))
  }

  /** `[a-z0-9](?:[a-z0-9-]{0,61}[a-z0-9])?` */
  predicate IsLabel(s: string) {
    && 1 <= |s| <= 63 && LowerAlnum(s[0]) && LowerAlnum(s[|s| - 1])
    && forall i | 0 <= i < |s| :: LowerAlnum(s[i]) || s[i] == '-'
  }

  /** At least two labels, the last of which begins with a letter, in at most 253 characters. */
  predicate IsDomain(s: string) {
    var labels := Split(s, '.');
    && |s| <= 253 && |labels| >= 2
    && (forall i | 0 <= i < |labels| :: IsLabel(labels[i]))
    && 'a' <= labels[|labels| - 1][0] <= 'z'
  }

  function StripDots(s: string): string {
    if s != "" && s[|s| - 1] == '.' then StripDots(s[..|s| - 1]) else s
  }

  lemma LowerSame(s: string)
    requires forall i | 0 <= i < |s| :: !('A' <= s[i] <= 'Z')
    ensures Lower(s) == s
  {}

  lemma AlnumVisible(c: char)
    requires LowerAlnum(c)
    ensures !IsSpace(c) && c != '.'
  {}

  lemma AppIdNormal(s: string)
    requires IsAppId(s)
    ensures Lower(s) == s && Trim(s)
  {
    LowerSame(s);
    AlnumVisible(s[0]);
    AlnumVisible(s[|s| - 1]);
  }

  lemma {:induction false} JoinLabels(labels: seq<string>)
    requires labels != [] && forall i | 0 <= i < |labels| :: IsLabel(labels[i])
    ensures var s := Join(labels, '.');
            && s != "" && LowerAlnum(s[0]) && LowerAlnum(s[|s| - 1])
            && forall i | 0 <= i < |s| :: LowerAlnum(s[i]) || s[i] == '-' || s[i] == '.'
    decreases |labels|
  {
    if |labels| > 1 {
      JoinLabels(labels[1..]);
    }
  }

  lemma DomainNormal(s: string)
    requires IsDomain(s)
    ensures Lower(s) == s && Trim(s) && StripDots(s) == s && 1 <= |s| <= 253
  {
    SplitParts(s, '.');
    JoinLabels(Split(s, '.'));
    VisibleEnds(s);
    LowerSame(s);
  }

  lemma VisibleEnds(s: string)
    requires s != "" && LowerAlnum(s[0]) && LowerAlnum(s[|s| - 1])
    requires forall i | 0 <= i < |s| :: LowerAlnum(s[i]) || s[i] == '-' || s[i] == '.'
    ensures Trim(s) && StripDots(s) == s && forall i | 0 <= i < |s| :: !('A' <= s[i] <= 'Z')
  {
    AlnumVisible(s[0]);
    AlnumVisible(s[|s| - 1]);
  }
}
