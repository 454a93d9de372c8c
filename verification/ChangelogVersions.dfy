/** What a release version, a tag and a file name are read as. */
module ChangelogVersions {
  import opened Wrappers
  import opened Text
  import opened Dates
  import opened Changelog
  import opened ChangelogRoundTrip
  import opened ChangelogAccepted

  // --- one pass -----------------------------------------------------------------------

  predicate Gap(c: char) { c == '-' || IsSpace(c) }

  function GapLength(s: string): (n: nat)
    ensures n <= |s| && (n < |s| ==> !Gap(s[n])) && forall i | 0 <= i < n :: Gap(s[i])
  {
    if s != "" && Gap(s[0]) then 1 + GapLength(s[1..]) else 0
  }

  /** Each run of white space and dashes as one dash, and all else as it is. */
  function Dashed(s: string): string
    decreases |s|
  {
    if s == "" then ""
    else if Gap(s[0]) then "-" + Dashed(s[GapLength(s)..])
    else [s[0]] + Dashed(s[1..])
  }

  predicate AllGaps(s: string) {
    forall c <- s :: Gap(c)
  }

  lemma GapOfOne(s: string, k: nat)
    requires k <= |s| && forall i | 0 <= i < k :: Gap(s[i])
    ensures GapLength(s) == k + GapLength(s[k..]) && s[GapLength(s)..] == s[k..][GapLength(s[k..])..]
  {
    if k > 0 {
      GapOfOne(s[1..], k - 1);
      assert s[1..][k - 1..] == s[k..];
    } else {
      assert s[0..] == s;
    }
  }

  lemma SpacesAreGaps(s: string)
    ensures forall i | 0 <= i < Spaces(s) :: IsSpace(s[i])
    ensures Spaces(s) < |s| ==> !IsSpace(s[Spaces(s)])
  {
  }

  /** What tightening makes of the first gap, up to where `rest` starts. */
  ghost predicate TightensTo(s: string, gap: string) {
    gap != "" && AllGaps(gap) && TightenDashes(s) == gap + TightenDashes(s[GapLength(s)..])
  }

  lemma AfterGap(s: string, first: string, rest: string, more: string)
    requires s != "" && first != "" && AllGaps(first) && TightenDashes(s) == first + TightenDashes(rest)
    requires s[GapLength(s)..] == rest[GapLength(rest)..]
    requires TightensTo(rest, more)
    ensures TightensTo(s, first + more)
  {
    var last := TightenDashes(rest[GapLength(rest)..]);
    assert first + (more + last) == (first + more) + last;
  }

  lemma DashAhead(s: string) returns (rest: string)
    requires Spaces(s) < |s| && s[Spaces(s)] == '-'
    ensures |rest| < |s| && TightenDashes(s) == "-" + TightenDashes(rest)
    ensures s[GapLength(s)..] == rest[GapLength(rest)..]
  {
    var k := Spaces(s);
    var after := s[k + 1..];
    rest := after[Spaces(after)..];
    SpacesAreGaps(s);
    SpacesAreGaps(after);
    var n := k + 1 + Spaces(after);
    assert rest == s[n..];
    forall i | 0 <= i < n
      ensures Gap(s[i])
    {
      assert i > k ==> s[i] == after[i - k - 1];
    }
    GapOfOne(s, n);
  }

  lemma SpaceAhead(s: string)
    requires s != "" && Gap(s[0]) && !(Spaces(s) < |s| && s[Spaces(s)] == '-')
    ensures TightenDashes(s) == [s[0]] + TightenDashes(s[1..])
    ensures s[GapLength(s)..] == s[1..][GapLength(s[1..])..]
  {
    GapOfOne(s, 1);
  }

  /** Tightening keeps a run of gaps one, and starts afresh after it. */
  lemma {:induction false} TightenGap(s: string) returns (gap: string)
    requires s != "" && Gap(s[0])
    ensures TightensTo(s, gap)
    decreases |s|
  {
    var rest := s[1..];
    if Spaces(s) < |s| && s[Spaces(s)] == '-' {
      gap := "-";
      rest := DashAhead(s);
    } else {
      gap := [s[0]];
      SpaceAhead(s);
    }
    if rest != "" && Gap(rest[0]) {
      var more := TightenGap(rest);
      AfterGap(s, gap, rest, more);
      gap := gap + more;
    } else {
      assert rest[0..] == rest;
    }
  }

  /** A text that starts with no gap, or none. */
  predicate Solid(s: string) { s != "" ==> !Gap(s[0]) }

  lemma {:induction false} DashGap(gap: string, rest: string) returns (dashes: string)
    requires gap != "" && AllGaps(gap) && Solid(rest)
    ensures dashes != "" && (forall c <- dashes :: c == '-')
    ensures DashSpaces(gap + rest) == dashes + DashSpaces(rest)
    decreases |gap|
  {
    var s := gap + rest;
    assert gap[0] in gap && Gap(gap[0]);
    var n := if IsSpace(gap[0]) then Spaces(s) else 1;
    SpacesAreGaps(s);
    SpacesEnd(gap, rest);
    assert s[n..] == gap[n..] + rest;
    dashes := "-";
    if n < |gap| {
      assert forall c <- gap[n..] :: c in gap;
      var more := DashGap(gap[n..], rest);
      assert "-" + (more + DashSpaces(rest)) == ("-" + more) + DashSpaces(rest);
      dashes := "-" + more;
    } else {
      assert gap[n..] + rest == rest;
    }
  }

  lemma SpacesEnd(gap: string, rest: string)
    requires Solid(rest)
    ensures Spaces(gap + rest) <= |gap|
  {
    SpacesAreGaps(gap + rest);
    assert rest != "" ==> (gap + rest)[|gap|] == rest[0];
  }

  lemma {:induction false} DashesAre(dashes: string, rest: string)
    requires (forall c <- dashes :: c == '-') && (rest != "" ==> rest[0] != '-')
    ensures Dashes(dashes + rest) == |dashes|
  {
    if dashes == "" {
      assert dashes + rest == rest;
    } else {
      assert dashes[0] in dashes && (dashes + rest)[1..] == dashes[1..] + rest;
      assert forall c <- dashes[1..] :: c in dashes;
      DashesAre(dashes[1..], rest);
    }
  }

  lemma SqueezeGap(dashes: string, rest: string)
    requires dashes != "" && (forall c <- dashes :: c == '-') && (rest != "" ==> rest[0] != '-')
    ensures SqueezeDashes(dashes + rest) == "-" + SqueezeDashes(rest)
  {
    DashesAre(dashes, rest);
    assert dashes[0] in dashes;
    assert (dashes + rest)[|dashes|..] == rest;
  }

  lemma TightenStart(s: string)
    requires s != "" && !Gap(s[0])
    ensures TightenDashes(s) == [s[0]] + TightenDashes(s[1..])
  {
  }

  /** The three replacements make of a text what one pass over it does. */
  lemma {:induction false} ThreePassesAreOne(s: string)
    ensures SqueezeDashes(DashSpaces(TightenDashes(s))) == Dashed(s)
    decreases |s|
  {
    if s == "" {
    } else if Gap(s[0]) {
      var rest := s[GapLength(s)..];
      var gap := TightenGap(s);
      ThreePassesAreOne(rest);
      SolidKept(rest);
      var dashes := DashGap(gap, TightenDashes(rest));
      SqueezeGap(dashes, DashSpaces(TightenDashes(rest)));
    } else {
      TightenStart(s);
      ThreePassesAreOne(s[1..]);
      var t := TightenDashes(s);
      assert t[1..] == TightenDashes(s[1..]);
      assert DashSpaces(t)[1..] == DashSpaces(t[1..]);
    }
  }

  lemma SolidKept(s: string)
    requires Solid(s)
    ensures Solid(TightenDashes(s)) && Solid(DashSpaces(TightenDashes(s)))
  {
    if s != "" {
      TightenStart(s);
    }
  }

  // --- versions -----------------------------------------------------------------------------

  /** The raw version, without white space around it and one `v` ahead. */
  function Unprefixed(raw: string): string {
    var s := Strip(raw);
    if "v" <= s then s[1..] else s
  }

  predicate SmallLetterOf(small: char, c: char) {
    if 'A' <= c <= 'Z' then small as int == c as int + 32
    else if c == '\U{212A}' then small == 'k'
    else small == c
  }

  predicate Alphanumeric(c: char) {
    '0' <= c <= '9' || 'a' <= c <= 'z'
  }

  /** The version is `v` and small letters, digits, dots, pluses and dashes, with a
      letter or digit first: those of the raw version, in small letters, with one dash
      for each run of white space and dashes. */
  predicate IsVersionOf(version: string, raw: string) {
    var core := Dashed(Unprefixed(raw));
    && |version| == |core| + 1 && |core| > 0 && version[0] == 'v'
    && (forall i | 0 <= i < |core| :: SmallLetterOf(version[i + 1], core[i]))
    && Alphanumeric(version[1])
    && forall i | 2 <= i < |version| ::
         Alphanumeric(version[i]) || version[i] == '.' || version[i] == '+' || version[i] == '-'
  }

  lemma {:induction false} LowerIsSmall(s: string)
    ensures |Lower(s)| == |s| && forall i | 0 <= i < |s| :: SmallLetterOf(Lower(s)[i], s[i])
  {
    if s != "" {
      LowerIsSmall(s[1..]);
    }
  }

  lemma LowerIsNoCapital(s: string)
    ensures |Lower(s)| == |s| && forall i | 0 <= i < |s| :: !IsUpper(Lower(s)[i])
  {
    LowerIsSmall(s);
  }

  lemma VersionTextIs(s: string)
    requires forall i | 0 <= i < |s| :: !IsUpper(s[i])
    ensures VersionText(s) <==>
            && s != "" && Alphanumeric(s[0])
            && forall i | 1 <= i < |s| :: Alphanumeric(s[i]) || s[i] == '.' || s[i] == '+' || s[i] == '-'
  {
    if VersionText(s) {
      forall i | 1 <= i < |s|
        ensures Alphanumeric(s[i]) || s[i] == '.' || s[i] == '+' || s[i] == '-'
      {
        assert s[i] in s;
      }
    } else if s != "" && Alphanumeric(s[0]) {
      var c :| c in s && !(VersionChar(c) || c == '.' || c == '+' || c == '-');
      var i :| 0 <= i < |s| && s[i] == c;
    }
  }

  lemma CoreIsDashed(raw: string)
    ensures VersionCore(raw) == Lower(Dashed(Unprefixed(raw)))
  {
    ThreePassesAreOne(Unprefixed(raw));
  }

  lemma SameText(a: string, b: string)
    requires |a| == |b| && forall i | 0 <= i < |a| :: a[i] == b[i]
    ensures a == b
  {
  }

  /** The small letters of a text are determined. */
  lemma OnlySmallLetters(version: string, core: string)
    requires |version| == |core| + 1 && version[0] == 'v'
    requires forall i | 0 <= i < |core| :: SmallLetterOf(version[i + 1], core[i])
    ensures version == "v" + Lower(core)
  {
    LowerIsSmall(core);
    forall i | 0 <= i < |version|
      ensures version[i] == ("v" + Lower(core))[i]
    {
      if i > 0 {
        var k := i - 1;
        assert SmallLetterOf(version[k + 1], core[k]) && SmallLetterOf(Lower(core)[k], core[k]);
      }
    }
    SameText(version, "v" + Lower(core));
  }

  lemma SmallLettersAre(core: string)
    requires VersionText(Lower(core))
    ensures var version := "v" + Lower(core);
            && |version| == |core| + 1 && |core| > 0 && version[0] == 'v'
            && (forall i | 0 <= i < |core| :: SmallLetterOf(version[i + 1], core[i]))
            && Alphanumeric(version[1])
            && forall i | 2 <= i < |version| ::
                 Alphanumeric(version[i]) || version[i] == '.' || version[i] == '+' || version[i] == '-'
  {
    LowerIsSmall(core);
    LowerIsNoCapital(core);
    VersionTextIs(Lower(core));
    assert forall i | 0 <= i < |core| :: ("v" + Lower(core))[i + 1] == Lower(core)[i];
    forall i | 2 <= i < |core| + 1
      ensures var c := ("v" + Lower(core))[i]; Alphanumeric(c) || c == '.' || c == '+' || c == '-'
    {
      assert ("v" + Lower(core))[i] == Lower(core)[i - 1];
    }
  }

  lemma VersionTextFrom(version: string, core: string)
    requires |core| > 0 && version == "v" + Lower(core) && Alphanumeric(version[1])
    requires forall i | 2 <= i < |version| ::
               Alphanumeric(version[i]) || version[i] == '.' || version[i] == '+' || version[i] == '-'
    ensures VersionText(Lower(core))
  {
    var lower := Lower(core);
    LowerIsNoCapital(core);
    VersionTextIs(lower);
    forall i | 1 <= i < |lower|
      ensures Alphanumeric(lower[i]) || lower[i] == '.' || lower[i] == '+' || lower[i] == '-'
    {
      assert version[i + 1] == lower[i];
    }
  }

  /** Normalizing gives exactly that, or refuses. */
  lemma NormalizedVersion(raw: string, version: string)
    ensures NormalizeVersion(raw) == Ok(version) <==> IsVersionOf(version, raw)
  {
    var core := Dashed(Unprefixed(raw));
    CoreIsDashed(raw);
    if NormalizeVersion(raw) == Ok(version) {
      SmallLettersAre(core);
    }
    if IsVersionOf(version, raw) {
      OnlySmallLetters(version, core);
      VersionTextFrom(version, core);
    }
  }

  // --- tags and file names --------------------------------------------------------------------

  lemma CratesApart(tag: string)
    ensures !(SYS + "-v" <= tag && MAIN + "-v" <= tag)
  {
    assert (SYS + "-v")[8] == 's' && (MAIN + "-v")[8] == 'v';
  }

  /** A tag is the name of a crate, a dash and a version that starts with `v`. */
  lemma TagIs(tag: string, crate: string, version: string)
    ensures SplitTag(tag) == Ok((crate, version)) <==>
            && (crate == "libosdp-sys" || crate == "libosdp")
            && crate + "-v" <= tag && IsVersionOf(version, tag[|crate| + 1..])
  {
    CratesApart(tag);
    if SYS + "-v" <= tag {
      NormalizedVersion(tag[|SYS| + 1..], version);
    } else if MAIN + "-v" <= tag {
      NormalizedVersion(tag[|MAIN| + 1..], version);
    }
  }
}
