/** The regular expressions of the Workshop contract, read as concatenations, against the tests that the model uses. */
module WorkshopPatterns {
  import opened Text
  import opened WorkshopText

  /** `[a-z0-9]+` */
  ghost predicate Word(s: string) {
    s != "" && forall i | 0 <= i < |s| :: LowerAlnum(s[i])
  }

  /** `(?:[.-][a-z0-9]+)*` */
  ghost predicate Tail(s: string)
    decreases |s|
  {
    s == "" || (s[0] in {'.', '-'} && exists n :: 1 < n <= |s| && Word(s[1..n]) && Tail(s[n..]))
  }

  /** `[a-z][a-z0-9]*(?:[.-][a-z0-9]+)+` */
  ghost predicate AppIdPattern(s: string) {
    exists n :: 1 <= n < |s| && 'a' <= s[0] <= 'z' && Word(s[..n]) && Tail(s[n..])
  }

  /** Separators stand between letters or digits, and do not end the text. */
  ghost predicate Separated(s: string) {
    && s != "" && LowerAlnum(s[|s| - 1])
    && (forall i | 0 <= i < |s| :: LowerAlnum(s[i]) || s[i] == '.' || s[i] == '-')
    && (forall i | 0 <= i < |s| - 1 :: LowerAlnum(s[i]) || LowerAlnum(s[i + 1]))
  }

  /** Where the letters and digits from `i` on end. */
  function WordEnd(s: string, i: nat): (n: nat)
    requires i <= |s|
    ensures i <= n <= |s| && (forall k | i <= k < n :: LowerAlnum(s[k])) && (n < |s| ==> !LowerAlnum(s[n]))
    decreases |s| - i
  {
    if i < |s| && LowerAlnum(s[i]) then WordEnd(s, i + 1) else i
  }

  lemma WordOf(s: string, i: nat, n: nat)
    requires i < n <= |s|
    ensures Word(s[i..n]) <==> forall k | i <= k < n :: LowerAlnum(s[k])
  {
    if Word(s[i..n]) {
      forall k | i <= k < n ensures LowerAlnum(s[k]) {
        assert s[i..n][k - i] == s[k];
      }
    }
  }

  lemma RestSeparated(s: string, n: nat)
    requires 0 < n < |s| && (forall k | 1 <= k < n :: LowerAlnum(s[k])) && (LowerAlnum(s[0]) || (n > 1 && s[0] in {'.', '-'}))
    ensures Separated(s) <==> Separated(s[n..])
  {
    var t := s[n..];
    if Separated(t) {
      forall i | 0 <= i < |s| ensures LowerAlnum(s[i]) || s[i] == '.' || s[i] == '-' {
        assert i >= n ==> t[i - n] == s[i];
      }
      forall i | 0 <= i < |s| - 1 ensures LowerAlnum(s[i]) || LowerAlnum(s[i + 1]) {
        assert i >= n ==> t[i - n] == s[i] && t[i + 1 - n] == s[i + 1];
      }
      assert t[|t| - 1] == s[|s| - 1];
    }
  }

  lemma {:induction false} TailIff(s: string)
    ensures Tail(s) <==> s == "" || (!LowerAlnum(s[0]) && Separated(s))
    decreases |s|
  {
    hide Word, Separated;
    if s != "" {
      forall n | 1 < n <= |s| && Word(s[1..n]) && s[0] in {'.', '-'} ensures Tail(s[n..]) ==> Separated(s) && !LowerAlnum(s[0]) {
        WordOf(s, 1, n);
        TailIff(s[n..]);
        WordEndsIt(s, n);
      }
      if !LowerAlnum(s[0]) && Separated(s) {
        var n := WordEnd(s, 1);
        SeparatorFirst(s);
        WordOf(s, 1, n);
        TailIff(s[n..]);
        WordEndsIt(s, n);
      }
    }
  }

  lemma SeparatorFirst(s: string)
    requires Separated(s) && !LowerAlnum(s[0])
    ensures s[0] in {'.', '-'} && |s| > 1 && LowerAlnum(s[1])
  {}

  lemma WordEndsIt(s: string, n: nat)
    requires 1 < n <= |s| && (forall k | 1 <= k < n :: LowerAlnum(s[k])) && s[0] in {'.', '-'}
    ensures Separated(s) <==> s[n..] == "" || Separated(s[n..])
  {
    if n < |s| {
      RestSeparated(s, n);
    }
  }

  /** The pattern of application ids. */
  lemma AppIdIff(s: string)
    ensures IsAppId(s) <==> AppIdPattern(s)
  {
    hide Word, Separated, Tail;
    IsSeparated(s);
    forall n | 1 <= n < |s| && 'a' <= s[0] <= 'z' && Word(s[..n]) && Tail(s[n..]) ensures IsAppId(s) {
      assert s[0..n] == s[..n];
      WordOf(s, 0, n);
      TailIff(s[n..]);
      RestSeparated(s, n);
    }
    if IsAppId(s) {
      var n := WordEnd(s, 0);
      assert s[0..n] == s[..n];
      WordOf(s, 0, n);
      RestSeparated(s, n);
      TailIff(s[n..]);
    }
  }

  lemma IsSeparated(s: string)
    ensures IsAppId(s) <==> Separated(s) && 'a' <= s[0] <= 'z' && exists i | 0 <= i < |s| :: !LowerAlnum(s[i])
  {}

  // ----- domains

  /** `[a-z0-9](?:[a-z0-9-]{0,61}[a-z0-9])?` */
  ghost predicate LabelPattern(s: string) {
    || (|s| == 1 && LowerAlnum(s[0]))
    || (exists middle :: |middle| <= 61 && (forall i | 0 <= i < |middle| :: LowerAlnum(middle[i]) || middle[i] == '-')
          && |s| >= 2 && LowerAlnum(s[0]) && LowerAlnum(s[|s| - 1]) && s == [s[0]] + middle + [s[|s| - 1]])
  }

  lemma LabelIff(s: string)
    ensures IsLabel(s) <==> LabelPattern(s)
  {
    if IsLabel(s) && |s| >= 2 {
      var middle := s[1..|s| - 1];
      assert s == [s[0]] + middle + [s[|s| - 1]];
    }
  }

  /** At most 253 characters: labels and dots, at least one of each, and a last label that begins with a letter. */
  ghost predicate DomainPattern(s: string) {
    && 1 <= |s| <= 253
    && exists labels :: |labels| >= 2 && (forall i | 0 <= i < |labels| :: LabelPattern(labels[i]))
         && labels[|labels| - 1] != "" && 'a' <= labels[|labels| - 1][0] <= 'z' && s == Join(labels, '.')
  }

  lemma NoDots(part: string)
    requires IsLabel(part)
    ensures '.' !in part
  {}

  /** The pattern of domain names. */
  lemma DomainPatternIff(s: string)
    ensures IsDomain(s) <==> DomainPattern(s)
  {
    hide IsDomain, LabelPattern, Join;
    if IsDomain(s) {
      DomainMatches(s);
    }
    forall labels | |labels| >= 2 && (forall i | 0 <= i < |labels| :: LabelPattern(labels[i])) && s == Join(labels, '.')
      && |s| <= 253 && labels[|labels| - 1] != "" && 'a' <= labels[|labels| - 1][0] <= 'z'
      ensures IsDomain(s)
    {
      LabelsMakeDomain(s, labels);
    }
  }

  lemma DomainMatches(s: string)
    requires IsDomain(s)
    ensures DomainPattern(s)
  {
    hide IsLabel, LabelPattern, Join, Split;
    var labels := Split(s, '.');
    SplitParts(s, '.');
    DomainNormal(s);
    forall i | 0 <= i < |labels| ensures LabelPattern(labels[i]) && labels[i] != "" {
      LabelIff(labels[i]);
      LabelSome(labels[i]);
    }
  }

  lemma LabelsMakeDomain(s: string, labels: seq<string>)
    requires |labels| >= 2 && (forall i | 0 <= i < |labels| :: LabelPattern(labels[i])) && s == Join(labels, '.')
    requires |s| <= 253 && labels[|labels| - 1] != "" && 'a' <= labels[|labels| - 1][0] <= 'z'
    ensures IsDomain(s)
  {
    hide IsLabel, LabelPattern, Join, Split;
    forall i | 0 <= i < |labels| ensures IsLabel(labels[i]) && '.' !in labels[i] {
      LabelIff(labels[i]);
      NoDots(labels[i]);
    }
    SplitJoin(labels, '.');
  }

  lemma LabelSome(part: string)
    requires IsLabel(part)
    ensures part != ""
  {}
}
