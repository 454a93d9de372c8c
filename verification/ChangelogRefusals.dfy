/** Why a text is refused: what the parser objects to is there. */
module ChangelogRefusals {
  import opened Wrappers
  import opened Text
  import opened Dates
  import opened Changelog
  import opened ChangelogGrammar
  import opened ChangelogMarkers
  import opened ChangelogVersions
  import opened ChangelogReading

  // --- the body ---------------------------------------------------------------------------

  predicate HasHeading(line: string) { Heading(Strip(line)).Some? }

  /** Blank lines, and then a heading or the end. */
  predicate BlankUpTo(lines: seq<string>, i: nat, j: nat) {
    && i <= j <= |lines|
    && (forall k | i <= k < j :: Blank(lines[k]))
    && (j < |lines| ==> HasHeading(lines[j]))
  }

  ghost predicate BlankUntilHeading(lines: seq<string>, i: nat) {
    exists j: nat :: BlankUpTo(lines, i, j)
  }

  /** What these refusals say of the lines of a body. */
  ghost predicate Faulty(lines: seq<string>, e: Refusal) {
    match e
    case NoSubject => BlankUntilHeading(lines, 0)
    case NoSections => forall l <- lines :: !HasHeading(l)
    case BadHeading => exists l <- lines :: !Blank(l) && !HasHeading(l)
    case NotABullet => exists l <- lines :: !Blank(l) && !HasHeading(l) && Bullet(Strip(l)).None?
    case EmptySection =>
      exists i | 0 <= i < |lines| :: HasHeading(lines[i]) && BlankUntilHeading(lines, i + 1)
    case RepeatedSection =>
      exists i, j | 0 <= i < j < |lines| :: HasHeading(lines[i]) && Heading(Strip(lines[i])) == Heading(Strip(lines[j]))
    case _ => false
  }

  predicate InSections(e: Refusal) {
    e.BadHeading? || e.NotABullet? || e.EmptySection? || e.RepeatedSection?
  }

  lemma BlankLater(lines: seq<string>, n: nat, i: nat)
    requires n <= |lines| && BlankUntilHeading(lines[n..], i)
    ensures BlankUntilHeading(lines, n + i)
  {
    var rest := lines[n..];
    var j: nat :| BlankUpTo(rest, i, j);
    forall k | n + i <= k < n + j
      ensures Blank(lines[k])
    {
      assert lines[k] == rest[k - n];
    }
    assert j < |rest| ==> lines[n + j] == rest[j];
    assert BlankUpTo(lines, n + i, n + j);
  }

  lemma EmptyLater(lines: seq<string>, n: nat)
    requires n <= |lines| && Faulty(lines[n..], EmptySection)
    ensures Faulty(lines, EmptySection)
  {
    var rest := lines[n..];
    var i :| 0 <= i < |rest| && HasHeading(rest[i]) && BlankUntilHeading(rest, i + 1);
    BlankLater(lines, n, i + 1);
    assert lines[n + i] == rest[i];
  }

  lemma RepeatLater(lines: seq<string>, n: nat)
    requires n <= |lines| && Faulty(lines[n..], RepeatedSection)
    ensures Faulty(lines, RepeatedSection)
  {
    var rest := lines[n..];
    var i, j :| 0 <= i < j < |rest| && HasHeading(rest[i]) && Heading(Strip(rest[i])) == Heading(Strip(rest[j]));
    assert lines[n + i] == rest[i] && lines[n + j] == rest[j];
  }

  /** A fault further on is a fault. */
  lemma FaultLater(lines: seq<string>, n: nat, e: Refusal)
    requires n <= |lines| && InSections(e) && Faulty(lines[n..], e)
    ensures Faulty(lines, e)
  {
    assert forall l <- lines[n..] :: l in lines;
    match e
    case EmptySection => EmptyLater(lines, n);
    case RepeatedSection => RepeatLater(lines, n);
    case BadHeading =>
    case NotABullet =>
  }

  lemma {:induction false} ItemsFault(lines: seq<string>, items: seq<string>)
    requires Items(lines, items).Err?
    ensures Items(lines, items).error == NotABullet && Faulty(lines, NotABullet)
    decreases |lines|
  {
    var (line, rest) := (lines[0], lines[1..]);
    if Blank(line) {
      ItemsFault(rest, items);
      FaultLater(lines, 1, NotABullet);
    } else if Bullet(Strip(line)).Some? {
      ItemsFault(rest, items + [Bullet(Strip(line)).value]);
      FaultLater(lines, 1, NotABullet);
    } else if items != [] && IsSpace(line[0]) {
      ItemsFault(rest, items[|items| - 1 := items[|items| - 1] + " " + Strip(line)]);
      FaultLater(lines, 1, NotABullet);
    } else {
      assert line in lines;
    }
  }

  lemma BlankAhead(lines: seq<string>)
    requires lines != [] && Blank(lines[0]) && BlankUntilHeading(lines[1..], 0)
    ensures BlankUntilHeading(lines, 0)
  {
    BlankLater(lines, 1, 0);
    var j: nat :| BlankUpTo(lines, 1, j);
    assert BlankUpTo(lines, 0, j);
  }

  /** Where the items of a section end; if there are none, only blank lines came. */
  lemma {:induction false} ItemsEnd(lines: seq<string>, items: seq<string>) returns (n: nat)
    requires Items(lines, items).Ok?
    ensures n <= |lines| && Items(lines, items).value.1 == lines[n..]
    ensures Items(lines, items).value.0 == [] ==> items == [] && BlankUntilHeading(lines, 0)
    decreases |lines|
  {
    if lines == [] || HasHeading(lines[0]) {
      n := 0;
      assert lines[0..] == lines;
      assert BlankUpTo(lines, 0, 0);
    } else {
      var (line, rest) := (lines[0], lines[1..]);
      if Blank(line) && items != [] {
        n := 1;
      } else {
        var now :=
          if Blank(line) then items
          else if Bullet(Strip(line)).Some? then items + [Bullet(Strip(line)).value]
          else items[|items| - 1 := items[|items| - 1] + " " + Strip(line)];
        n := ItemsEnd(rest, now);
        assert rest[n..] == lines[n + 1..];
        n := n + 1;
        if Items(lines, items).value.0 == [] {
          BlankAhead(lines);
        }
      }
    }
  }

  ghost predicate Repeats(lines: seq<string>, seen: set<string>) {
    exists i | 0 <= i < |lines| :: HasHeading(lines[i]) && Heading(Strip(lines[i])).value in seen
  }

  /** The first section and the lines after it, where it is read. */
  lemma SectionEnds(lines: seq<string>, seen: set<string>) returns (n: nat)
    requires lines != [] && OneSection(lines, seen).Ok?
    ensures 0 < n <= |lines| && OneSection(lines, seen).value.1 == lines[n..]
    ensures Heading(Strip(lines[0])) == Some(OneSection(lines, seen).value.0.title)
  {
    n := ItemsEnd(lines[1..], []);
    assert lines[1..][n..] == lines[n + 1..];
    n := n + 1;
  }

  lemma SectionFault(lines: seq<string>, seen: set<string>)
    requires lines != [] && !Blank(lines[0]) && OneSection(lines, seen).Err?
    ensures var e := OneSection(lines, seen).error;
            InSections(e) && (Faulty(lines, e) || (e.RepeatedSection? && Repeats(lines, seen)))
  {
    var rest := lines[1..];
    if HasHeading(lines[0]) && Heading(Strip(lines[0])).value !in seen {
      if Items(rest, []).Err? {
        ItemsFault(rest, []);
        FaultLater(lines, 1, NotABullet);
      } else {
        var n := ItemsEnd(rest, []);
        BlankLater(lines, 1, 0);
      }
    } else if !HasHeading(lines[0]) {
      assert lines[0] in lines;
    }
  }

  lemma {:induction false} SectionsFault(lines: seq<string>, seen: set<string>)
    requires Sections(lines, seen).Err?
    ensures var e := Sections(lines, seen).error;
            InSections(e) && (Faulty(lines, e) || (e.RepeatedSection? && Repeats(lines, seen)))
    decreases |lines|
  {
    SkipBlankShortens(lines);
    var blanks, rest := BlanksApart(lines);
    var k, e := |blanks|, Sections(lines, seen).error;
    assert rest == lines[k..];
    if OneSection(rest, seen).Err? {
      SectionFault(rest, seen);
    } else {
      var n := SectionEnds(rest, seen);
      var title := OneSection(rest, seen).value.0.title;
      SectionsFault(rest[n..], seen + {title});
      if Faulty(rest[n..], e) {
        FaultLater(rest, n, e);
      } else {
        RepeatsLater(rest, n, title, seen);
      }
    }
    if Faulty(rest, e) {
      FaultLater(lines, k, e);
    } else {
      var i :| 0 <= i < |rest| && HasHeading(rest[i]) && Heading(Strip(rest[i])).value in seen;
      assert lines[k + i] == rest[i];
    }
  }

  lemma RepeatsLater(lines: seq<string>, n: nat, title: string, seen: set<string>)
    requires 0 < n <= |lines| && Heading(Strip(lines[0])) == Some(title)
    requires Repeats(lines[n..], seen + {title})
    ensures Faulty(lines, RepeatedSection) || Repeats(lines, seen)
  {
    var rest := lines[n..];
    var i :| 0 <= i < |rest| && HasHeading(rest[i]) && Heading(Strip(rest[i])).value in seen + {title};
    assert lines[n + i] == rest[i];
  }

  /** A body is refused for something in it. */
  lemma BodyFault(body: string)
    requires ParseBody(body).Err?
    ensures Faulty(SkipBlank(SplitLines(body)), ParseBody(body).error)
  {
    var lines := SkipBlank(SplitLines(body));
    var n := SubjectLength(lines);
    SkipBlankStops(SplitLines(body));
    SubjectStops(lines);
    if Strip(Join(lines[..n])) == "" {
      if n > 0 {
        JoinNotBlank(lines[..n]);
      }
      assert BlankUpTo(lines, 0, 0);
    } else if Sections(lines[n..], {}).Err? {
      SectionsFault(lines[n..], {});
      FaultLater(lines, n, ParseBody(body).error);
    } else {
      NoneThenNoHeading(lines, n);
    }
  }

  lemma NoneThenNoHeading(lines: seq<string>, n: nat)
    requires n == SubjectLength(lines) && Sections(lines[n..], {}) == Ok([])
    ensures forall l <- lines :: !HasHeading(l)
  {
    SubjectStops(lines);
    if n < |lines| {
      assert lines[n..][0] == lines[n];
      HeadingNotBlank(lines[n]);
    }
    assert lines[..n] == lines;
  }

  // --- the whole file --------------------------------------------------------------------------

  ghost predicate NoVersion(raw: string) {
    forall version: string :: !IsVersionOf(version, raw)
  }

  /** What the refusals of a file's identity say of its front matter, and of the tag
      asked for. */
  ghost predicate Misidentified(lines: seq<string>, tag: string, e: Refusal, pads: bool) {
    match e
    case MissingKeys =>
      || LastValue(lines, "release_crate").None? || LastValue(lines, "release_date").None?
      || LastValue(lines, "release_version").None?
    case ExtraKeys =>
      exists key: string ::
        && LastValue(lines, key).Some?
        && key != "release_crate" && key != "release_date" && key != "release_version"
    case UnknownCrate =>
      && LastValue(lines, "release_crate").Some?
      && Strip(LastValue(lines, "release_crate").value) != "libosdp-sys"
      && Strip(LastValue(lines, "release_crate").value) != "libosdp"
    case BadVersion =>
      || (LastValue(lines, "release_version").Some? && NoVersion(LastValue(lines, "release_version").value))
      || ("libosdp-sys-v" <= tag && NoVersion(tag[12..]))
      || ("libosdp-v" <= tag && NoVersion(tag[8..]))
    case BadTag => tag != "" && !("libosdp-sys-v" <= tag) && !("libosdp-v" <= tag)
    case WrongTag =>
      exists crate: string, version: string ::
        && SplitTag(tag) == Ok((crate, version))
        && (Some(crate) != Stripped(LastValue(lines, "release_crate"))
            || LastValue(lines, "release_version").None?
            || !IsVersionOf(version, LastValue(lines, "release_version").value))
    case BadDate =>
      LastValue(lines, "release_date").Some? && ToIso(LastValue(lines, "release_date").value, pads).None?
    case _ => false
  }

  function Stripped(s: Option<string>): Option<string> {
    if s.Some? then Some(Strip(s.value)) else None
  }

  lemma RefusedVersion(raw: string)
    ensures NormalizeVersion(raw).Err? ==> NormalizeVersion(raw).error == BadVersion && NoVersion(raw)
  {
    if NormalizeVersion(raw).Err? {
      forall version: string
        ensures !IsVersionOf(version, raw)
      {
        NormalizedVersion(raw, version);
      }
    }
  }

  lemma RefusedTag(tag: string)
    requires SplitTag(tag).Err?
    ensures SplitTag(tag).error.BadTag? ==> !("libosdp-sys-v" <= tag) && !("libosdp-v" <= tag)
    ensures SplitTag(tag).error.BadVersion? ==>
              ("libosdp-sys-v" <= tag && NoVersion(tag[12..])) || ("libosdp-v" <= tag && NoVersion(tag[8..]))
    ensures SplitTag(tag).error.BadTag? || SplitTag(tag).error.BadVersion?
  {
    assert SYS + "-v" == "libosdp-sys-v" && MAIN + "-v" == "libosdp-v" && |SYS| == 11 && |MAIN| == 7;
    if SYS + "-v" <= tag {
      RefusedVersion(tag[|SYS| + 1..]);
    } else if MAIN + "-v" <= tag {
      RefusedVersion(tag[|MAIN| + 1..]);
    }
  }

  lemma IdentityFault(lines: seq<string>, meta: map<string, string>, expected: Option<string>, pads: bool)
    requires forall key: string :: Lookup(meta, key) == LastValue(lines, key)
    requires Identity(meta, expected, pads).Err?
    ensures Misidentified(lines, if expected.Some? then expected.value else "",
                          Identity(meta, expected, pads).error, pads)
  {
    KeysAre();
    var tag := if expected.Some? then expected.value else "";
    assert Lookup(meta, KEY_VERSION) == LastValue(lines, KEY_VERSION);
    assert Lookup(meta, KEY_CRATE) == LastValue(lines, KEY_CRATE);
    assert Lookup(meta, KEY_DATE) == LastValue(lines, KEY_DATE);
    if KEYS <= meta.Keys && !(meta.Keys <= KEYS) {
      var key :| key in meta.Keys && key !in KEYS;
      assert Lookup(meta, key) == LastValue(lines, key);
    } else if meta.Keys == KEYS {
      RefusedVersion(meta[KEY_VERSION]);
      if tag != "" && SplitTag(tag).Err? {
        RefusedTag(tag);
      } else if NormalizeVersion(meta[KEY_VERSION]).Ok? && tag != "" {
        var (crate, version) := SplitTag(tag).value;
        NormalizedVersion(meta[KEY_VERSION], version);
      }
    }
  }

  /** Every refusal of a text is for something that is wrong with it. */
  lemma RefusalIsTrue(text: string, expected: Option<string>, pads: bool)
    requires Parse(text, expected, pads).Err?
    ensures HasMark(text) ==> Parse(text, expected, pads).error == TodoMarkers
    ensures !HasMark(text) && !("---\n" <= text) ==> Parse(text, expected, pads).error == NoFrontMatter
    ensures match Parse(text, expected, pads).error
            case TodoMarkers => HasMark(text)
            case NoFrontMatter => !("---\n" <= text)
            case UnterminatedFrontMatter => "---\n" <= text && forall j | 4 <= j :: !At(text, "\n---\n", j)
            case e =>
              exists front: string, rest: string ::
                && Opens(text, front, rest)
                && (|| (e.BadFrontMatterLine? && exists l <- SplitLines(front) :: !IsField(l))
                    || Misidentified(SplitLines(front), if expected.Some? then expected.value else "", e, pads)
                    || Faulty(SkipBlank(SplitLines(LStripNewlines(rest))), e))
  {
    MarkFound(text);
    if !HasMark(text) && "---\n" <= text {
      FoundFirst(text, FENCE, 4);
      if Find(text, FENCE, 4).Some? {
        var front, rest := OpenedAt(text);
        RefusedParts(text, front, rest, expected, pads);
      }
    }
  }

  lemma RefusedParts(text: string, front: string, rest: string, expected: Option<string>, pads: bool)
    requires Parse(text, expected, pads).Err? && !HasMark(text) && Opens(text, front, rest)
    ensures var e := Parse(text, expected, pads).error;
            && !e.TodoMarkers? && !e.NoFrontMatter? && !e.UnterminatedFrontMatter?
            && (|| (e.BadFrontMatterLine? && exists l <- SplitLines(front) :: !IsField(l))
                || Misidentified(SplitLines(front), if expected.Some? then expected.value else "", e, pads)
                || Faulty(SkipBlank(SplitLines(LStripNewlines(rest))), e))
  {
    MarkFound(text);
    OpensAt(text, front, rest);
    var lines, nothing: map<string, string> := SplitLines(front), map[];
    MetaIs(lines, nothing);
    match Meta(lines, nothing)
    case Err(_) =>
    case Ok(meta) =>
      forall key: string
        ensures Lookup(meta, key) == LastValue(lines, key)
      {
        assert Lookup(nothing, key) == None;
      }
      if Identity(meta, expected, pads).Err? {
        IdentityFault(lines, meta, expected, pads);
      } else {
        BodyFault(LStripNewlines(rest));
      }
  }
}
