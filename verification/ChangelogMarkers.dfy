/** When the printed text of an accepted entry has a TODO marker that the text it
    was read from had not. */
module ChangelogMarkers {
  import opened Wrappers
  import opened Text
  import opened Dates
  import opened Changelog
  import opened ChangelogRoundTrip
  import opened ChangelogAccepted

  const MARKER := "## TODO"

  ghost predicate HasMark(s: string) {
    exists k: nat :: At(s, MARKER, k)
  }

  lemma MarkFound(s: string)
    ensures Find(s, MARKER, 0).Some? <==> HasMark(s)
  {
    FindAt(s, MARKER, 0);
    if HasMark(s) {
      var k: nat :| At(s, MARKER, k);
      FindSome(s, MARKER, 0, k);
    }
  }

  lemma {:induction false} FindSome(s: string, p: string, i: nat, k: nat)
    requires i <= k && At(s, p, k)
    ensures Find(s, p, i).Some?
    decreases k - i
  {
    if i < k {
      FindSome(s, p, i + 1, k);
    }
  }

  // --- where a marker can be -----------------------------------------------------

  lemma MarkerChars()
    ensures |MARKER| == 7 && MARKER[0] == '#' && MARKER[1] == '#' && MARKER[2] == ' ' && MARKER[3..] == "TODO"
    ensures forall i | 0 <= i < 7 && i != 2 :: MARKER[i] != ' ' && MARKER[i] != '\n'
  {
  }

  lemma SliceOfSlice(s: string, lo: nat, hi: nat, from: nat, to: nat)
    requires lo <= hi <= |s| && from <= to <= hi - lo
    ensures s[lo..hi][from..to] == s[lo + from..lo + to]
  {
    var a, b := s[lo..hi][from..to], s[lo + from..lo + to];
    assert |a| == |b|;
    forall i | 0 <= i < |a|
      ensures a[i] == b[i]
    {
      assert a[i] == s[lo..hi][from + i] == s[lo + (from + i)];
    }
  }

  lemma MarkWithin(s: string, lo: nat, hi: nat)
    requires lo <= hi <= |s| && HasMark(s[lo..hi])
    ensures HasMark(s)
  {
    var part := s[lo..hi];
    var k: nat :| At(part, MARKER, k);
    MarkerChars();
    SliceOfSlice(s, lo, hi, k, k + 7);
    assert At(s, MARKER, lo + k);
  }

  lemma MarkIn(a: string, m: string, b: string)
    requires HasMark(m)
    ensures HasMark(a + m + b)
  {
    assert (a + m + b)[|a|..|a| + |m|] == m;
    MarkWithin(a + m + b, |a|, |a| + |m|);
  }

  lemma HashInMark(s: string)
    ensures HasMark(s) ==> '#' in s
  {
    MarkerChars();
    if HasMark(s) {
      var k: nat :| At(s, MARKER, k);
      assert s[k..k + |MARKER|][0] == '#';
      assert s[k] in s;
    }
  }

  /** A marker in two texts with a line feed or a space between them is in one of
      them, or that is the space in it. */
  lemma MarkAcross(a: string, c: char, b: string)
    requires c == '\n' || c == ' '
    ensures HasMark(a + [c] + b) <==>
            HasMark(a) || HasMark(b) || (c == ' ' && EndsHash(a) && StartsTodo(b))
  {
    var s := a + [c] + b;
    if HasMark(a) {
      MarkIn("", a, [c] + b);
      assert "" + a + ([c] + b) == s;
    }
    if HasMark(b) {
      MarkIn(a + [c], b, "");
      assert a + [c] + b + "" == s;
    }
    if c == ' ' && EndsHash(a) && StartsTodo(b) {
      MarkerJoined(a, b);
    }
    if HasMark(s) {
      var k: nat :| At(s, MARKER, k);
      MarkAt(a, c, b, k);
    }
  }

  lemma MarkerJoined(a: string, b: string)
    requires EndsHash(a) && StartsTodo(b)
    ensures HasMark(a + " " + b)
  {
    var s, k := a + " " + b, |a| - 2;
    MarkerChars();
    assert s[k..k + 7] == a[k..] + " " + b[..4];
    assert At(s, MARKER, k);
  }

  lemma MarkAt(a: string, c: char, b: string, k: nat)
    requires At(a + [c] + b, MARKER, k) && (c == '\n' || c == ' ')
    ensures HasMark(a) || HasMark(b) || (c == ' ' && EndsHash(a) && StartsTodo(b))
  {
    var s := a + [c] + b;
    MarkerChars();
    if k + 7 <= |a| {
      assert a[k..k + 7] == s[k..k + 7];
      assert At(a, MARKER, k);
    } else if k > |a| {
      assert b[k - |a| - 1..k - |a| + 6] == s[k..k + 7];
      assert At(b, MARKER, k - |a| - 1);
    } else {
      assert s[k..k + 7][|a| - k] == c;
      assert |a| == k + 2 && c == ' ';
      assert s[k..k + 7][0] == a[k] && s[k..k + 7][1] == a[k + 1];
      assert s[k..k + 7][3..] == b[..4];
    }
  }

  predicate EndsHash(s: string) {
    |s| >= 2 && s[|s| - 2] == '#' && s[|s| - 1] == '#'
  }

  predicate StartsTodo(s: string) {
    "TODO" <= s
  }

  // --- stripping and lines ---------------------------------------------------------

  lemma StripIsPart(s: string)
    ensures exists lo: nat, hi: nat :: lo <= hi <= |s| && Strip(s) == s[lo..hi]
  {
    LStripFirst(s);
    var lo :| 0 <= lo <= |s| && LStrip(s) == s[lo..];
    RStripLast(LStrip(s));
    assert Strip(s) == s[lo..lo + |Strip(s)|];
  }

  lemma NoMarkStripped(s: string)
    requires !HasMark(s)
    ensures !HasMark(Strip(s))
  {
    StripIsPart(s);
    var lo: nat, hi: nat :| lo <= hi <= |s| && Strip(s) == s[lo..hi];
    if HasMark(Strip(s)) {
      MarkWithin(s, lo, hi);
    }
  }

  ghost predicate Marked(ls: seq<string>) {
    exists l <- ls :: HasMark(l)
  }

  lemma MarkedApart(a: seq<string>, b: seq<string>)
    ensures Marked(a + b) <==> Marked(a) || Marked(b)
  {
    if Marked(a) {
      var l :| l in a && HasMark(l);
      assert l in a + b;
    }
    if Marked(b) {
      var l :| l in b && HasMark(l);
      assert l in a + b;
    }
  }

  lemma MarkedOne(l: string)
    ensures Marked([l]) <==> HasMark(l)
  {
    assert l in [l];
  }

  lemma {:induction false} MarkInUnlines(ls: seq<string>)
    ensures HasMark(Unlines(ls)) <==> Marked(ls)
  {
    HashInMark("");
    if ls != [] {
      MarkInUnlines(ls[1..]);
      assert ls == [ls[0]] + ls[1..];
      MarkedApart([ls[0]], ls[1..]);
      MarkedOne(ls[0]);
      MarkAcross(ls[0], '\n', Unlines(ls[1..]));
      assert Unlines(ls) == ls[0] + ['\n'] + Unlines(ls[1..]);
    }
  }

  lemma MarkInJoin(ls: seq<string>)
    requires ls != []
    ensures HasMark(Join(ls)) <==> Marked(ls)
  {
    JoinUnlines(ls);
    MarkInUnlines(ls);
    MarkAcross(Join(ls), '\n', "");
    HashInMark("");
    assert Join(ls) + ['\n'] + "" == Unlines(ls);
  }

  lemma {:induction false} LinesUnmarked(s: string)
    requires !HasMark(s)
    ensures !Marked(SplitLines(s))
    ensures SplitLines(s) != [] ==> SplitLines(s)[0] <= s
    decreases |s|
  {
    if s == "" {
    } else if IsBreak(s[0]) {
      var rest := if |s| > 1 && s[0] == '\r' && s[1] == '\n' then s[2..] else s[1..];
      RestUnmarked(s, |s| - |rest|);
      LinesUnmarked(rest);
      HashInMark("");
      MarkedOne("");
      MarkedApart([""], SplitLines(rest));
    } else {
      RestUnmarked(s, 1);
      LinesUnmarked(s[1..]);
      FirstUnmarked(s, SplitLines(s[1..]));
    }
  }

  lemma FirstUnmarked(s: string, rest: seq<string>)
    requires s != "" && !HasMark(s) && !IsBreak(s[0]) && rest == SplitLines(s[1..])
    requires !Marked(rest) && (rest != [] ==> rest[0] <= s[1..])
    ensures !Marked(SplitLines(s)) && SplitLines(s)[0] <= s
  {
    var first := SplitLines(s)[0];
    assert first == s[..|first|] == s[0..|first|];
    if HasMark(first) {
      MarkWithin(s, 0, |first|);
    }
    assert SplitLines(s) == [first] + if rest == [] then [] else rest[1..];
    MarkedOne(first);
    if rest != [] {
      assert rest == [rest[0]] + rest[1..];
      MarkedApart([rest[0]], rest[1..]);
      MarkedApart([first], rest[1..]);
    }
  }

  lemma RestUnmarked(s: string, from: nat)
    requires !HasMark(s) && from <= |s|
    ensures !HasMark(s[from..])
  {
    if HasMark(s[from..]) {
      assert s[from..|s|] == s[from..];
      MarkWithin(s, from, |s|);
    }
  }

  // --- items and sections --------------------------------------------------------------

  /** Somewhere a line that ends in two hashes is followed by one that starts with
      the word; `prev` is the line before the first. */
  predicate Joins(prev: string, lines: seq<string>)
    decreases |lines|
  {
    lines != [] &&
    ((EndsHash(prev) && StartsTodo(Strip(lines[0]))) || Joins(Strip(lines[0]), lines[1..]))
  }

  /** An item printed as a bullet has a marker exactly if it has one itself. */
  lemma BulletMark(item: string)
    ensures HasMark("- " + item) <==> HasMark(item)
  {
    HashInMark("-");
    MarkAcross("-", ' ', item);
    assert "-" + [' '] + item == "- " + item;
  }

  lemma {:induction false} MarkedBullets(items: seq<string>)
    ensures Marked(Bullets(items)) <==> Marked(items)
  {
    if items != [] {
      BulletMark(items[0]);
      MarkedBullets(items[1..]);
      assert items == [items[0]] + items[1..];
      MarkedApart([items[0]], items[1..]);
      MarkedOne(items[0]);
      MarkedApart(["- " + items[0]], Bullets(items[1..]));
      MarkedOne("- " + items[0]);
    }
  }

  /** What a bullet holds is the end of its line, after the dash and white space. */
  lemma BulletEnds(line: string)
    requires !HasMark(line) && Bullet(Strip(line)).Some?
    ensures var item := Bullet(Strip(line)).value;
            !HasMark(item) && (EndsHash(item) <==> EndsHash(Strip(line)))
    ensures !StartsTodo(Strip(line))
  {
    var stripped := Strip(line);
    NoMarkStripped(line);
    RestUnmarked(stripped, 1);
    NoMarkStripped(stripped[1..]);
    StripTrims(line);
    LStripFirst(stripped[1..]);
    var k :| 0 <= k <= |stripped| - 1 && LStrip(stripped[1..]) == stripped[1..][k..];
    assert stripped[1..][k..] == stripped[k + 1..];
    ItemIsSuffix(stripped, k);
  }

  lemma ItemIsSuffix(stripped: string, k: nat)
    requires |stripped| >= 3 && Trim(stripped) && IsSpace(stripped[1])
    requires k < |stripped| && LStrip(stripped[1..]) == stripped[k + 1..]
    ensures Strip(stripped[1..]) == stripped[k + 1..]
    ensures EndsHash(stripped[k + 1..]) <==> EndsHash(stripped)
  {
    NotBlank(stripped[1..]);
    LStripFirst(stripped[1..]);
    LStripStops(stripped[1..], k);
    assert Trim(stripped[k + 1..]);
  }

  /** Just before where stripping stops there is white space. */
  lemma {:induction false} LStripStops(s: string, k: nat)
    requires k <= |s| && LStrip(s) == s[k..]
    ensures forall i | 0 <= i < k :: IsSpace(s[i])
  {
    if k > 0 {
      assert s[k..] != s by {
        assert |s[k..]| < |s|;
      }
      assert s[1..][k - 1..] == s[k..];
      LStripStops(s[1..], k - 1);
      assert forall i | 1 <= i < k :: s[i] == s[1..][i - 1];
    }
  }

  lemma WrapMark(item: string, line: string)
    requires !HasMark(line) && Strip(line) != ""
    ensures var stripped := Strip(line);
            && (HasMark(item + " " + stripped) <==> HasMark(item) || (EndsHash(item) && StartsTodo(stripped)))
            && (EndsHash(item + " " + stripped) <==> EndsHash(stripped))
  {
    NoMarkStripped(line);
    MarkAcross(item, ' ', Strip(line));
    assert item + [' '] + Strip(line) == item + " " + Strip(line);
  }

  lemma HeadingStarts(line: string)
    requires Heading(Strip(line)).Some?
    ensures !StartsTodo(Strip(line)) && !EndsHash(Strip(line))
  {
    var l := Strip(line);
    assert l[..3][0] == '#' && l[|l| - 1] in l[4..];
  }

  /** Reading items, markers come from joins and nothing else. */
  lemma {:induction false} MarkedItems(lines: seq<string>, items: seq<string>, prev: string)
    requires !Marked(lines) && Items(lines, items).Ok?
    requires EndsHash(prev) <==> items != [] && EndsHash(items[|items| - 1])
    ensures var (out, rest) := Items(lines, items).value;
            Marked(out) || Joins("", rest) <==> Marked(items) || Joins(prev, lines)
    decreases |lines|
  {
    if lines != [] {
      var line, more := lines[0], lines[1..];
      var stripped := Strip(line);
      assert lines == [line] + more;
      MarkedApart([line], more);
      MarkedOne(line);
      if stripped == "" {
        if items == [] {
          MarkedItems(more, items, "");
        }
      } else if Heading(stripped).Some? {
        HeadingStarts(line);
      } else if Bullet(stripped).Some? {
        var item := Bullet(stripped).value;
        BulletEnds(line);
        MarkedApart(items, [item]);
        MarkedOne(item);
        MarkedItems(more, items + [item], stripped);
      } else {
        var n := |items| - 1;
        var item := items[n] + " " + stripped;
        WrapMark(items[n], line);
        assert items == items[..n] + [items[n]] && items[n := item] == items[..n] + [item];
        MarkedApart(items[..n], [items[n]]);
        MarkedApart(items[..n], [item]);
        MarkedOne(items[n]);
        MarkedOne(item);
        MarkedItems(more, items[n := item], stripped);
      }
    }
  }

  ghost predicate MarkedSections(sections: seq<Section>) {
    exists s <- sections :: Marked(s.items)
  }

  lemma {:induction false} JoinsAfterBlank(lines: seq<string>)
    ensures Joins("", lines) <==> Joins("", SkipBlank(lines))
    ensures !Marked(lines) ==> !Marked(SkipBlank(lines))
  {
    if lines != [] && Strip(lines[0]) == "" {
      JoinsAfterBlank(lines[1..]);
      assert lines == [lines[0]] + lines[1..];
      MarkedApart([lines[0]], lines[1..]);
    }
  }

  lemma {:induction false} MarkedBySections(lines: seq<string>, seen: set<string>)
    requires !Marked(lines) && Sections(lines, seen).Ok?
    ensures MarkedSections(Sections(lines, seen).value) <==> Joins("", lines)
    decreases |lines|
  {
    JoinsAfterBlank(lines);
    SkipBlankShortens(lines);
    var from := SkipBlank(lines);
    if from != [] {
      assert from == [from[0]] + from[1..];
      MarkedApart([from[0]], from[1..]);
      HeadingStarts(from[0]);
      var (section, rest) := OneSection(from, seen).value;
      MarkedItems(from[1..], [], Strip(from[0]));
      ItemsLeave(from[1..], []);
      MarkedBySections(rest, seen + {section.title});
      MarkedSectionsApart(section, Sections(rest, seen + {section.title}).value);
    }
  }

  lemma MarkedSectionsApart(section: Section, sections: seq<Section>)
    ensures MarkedSections([section] + sections) <==> Marked(section.items) || MarkedSections(sections)
  {
    if Marked(section.items) {
      assert section in [section] + sections;
    }
    if MarkedSections(sections) {
      var s :| s in sections && Marked(s.items);
      assert s in [section] + sections;
    }
  }

  /** The lines that reading items leaves are among those there were. */
  lemma {:induction false} ItemsLeave(lines: seq<string>, items: seq<string>)
    requires Items(lines, items).Ok? && !Marked(lines)
    ensures !Marked(Items(lines, items).value.1)
    decreases |lines|
  {
    if lines != [] {
      var stripped := Strip(lines[0]);
      assert lines == [lines[0]] + lines[1..];
      MarkedApart([lines[0]], lines[1..]);
      if stripped == "" {
        if items == [] {
          ItemsLeave(lines[1..], items);
        }
      } else if Heading(stripped).Some? {
      } else if Bullet(stripped).Some? {
        ItemsLeave(lines[1..], items + [Bullet(stripped).value]);
      } else {
        var n := |items| - 1;
        ItemsLeave(lines[1..], items[n := items[n] + " " + stripped]);
      }
    }
  }

  // --- the printed text -------------------------------------------------------------------

  lemma FrontMatterUnmarked(e: ReleaseEntry)
    requires ReadEntry(e)
    ensures !HasMark(MetaText(e))
  {
    VersionHasNoHash(e.version);
    CrateHasNoHash(e.crate);
    KeysHaveNoHash();
    assert '#' !in Line(KEY_CRATE, e.crate) && '#' !in Line(KEY_DATE, e.date) && '#' !in Line(KEY_VERSION, e.version);
    HashInMark(MetaText(e));
  }

  lemma VersionHasNoHash(version: string)
    requires NormalizeVersion(version) == Ok(version)
    ensures '#' !in version
  {
    var core := VersionCore(version);
    assert forall c <- version :: c == 'v' || c in core;
  }

  lemma CrateHasNoHash(crate: string)
    requires crate == SYS || crate == MAIN
    ensures '#' !in crate
  {
  }

  lemma KeysHaveNoHash()
    ensures '#' !in KEY_CRATE && '#' !in KEY_DATE && '#' !in KEY_VERSION
  {
  }

  lemma MarkedFenced(meta: string, body: string)
    requires !HasMark(meta)
    ensures HasMark(Fenced(meta, body)) <==> HasMark(body)
  {
    HashInMark("---");
    HashInMark("");
    MarkAcross("", '\n', body);
    MarkAcross("---", '\n', "" + ['\n'] + body);
    MarkAcross(meta, '\n', "---" + ['\n'] + ("" + ['\n'] + body));
    MarkAcross("---", '\n', meta + ['\n'] + ("---" + ['\n'] + ("" + ['\n'] + body)));
    assert Fenced(meta, body) ==
           "---" + ['\n'] + (meta + ['\n'] + ("---" + ['\n'] + ("" + ['\n'] + body)));
  }

  lemma MarkedBodyText(subject: string, sections: seq<Section>)
    ensures HasMark(BodyText(subject, sections)) <==> HasMark(subject) || Marked(Body(sections))
  {
    HashInMark("");
    MarkInUnlines(Body(sections));
    MarkAcross("", '\n', Unlines(Body(sections)));
    MarkAcross(subject, '\n', "" + ['\n'] + Unlines(Body(sections)));
    assert BodyText(subject, sections) == subject + ['\n'] + ("" + ['\n'] + Unlines(Body(sections)));
  }

  ghost predicate MarkedTitles(sections: seq<Section>) {
    exists s <- sections :: HasMark("## " + s.title)
  }

  lemma {:induction false} MarkedBody(sections: seq<Section>)
    requires sections != [] && !MarkedTitles(sections)
    ensures Marked(Body(sections)) <==> MarkedSections(sections)
  {
    var s := sections[0];
    assert s in sections;
    HashInMark("");
    MarkedOne("");
    MarkedOne("## " + s.title);
    MarkedBullets(s.items);
    MarkedApart(["## " + s.title], [""]);
    MarkedApart(["## " + s.title, ""], Bullets(s.items));
    assert ["## " + s.title] + [""] == ["## " + s.title, ""];
    assert sections == [s] + sections[1..];
    MarkedSectionsApart(s, sections[1..]);
    if |sections| > 1 {
      MarkedBody(sections[1..]);
      MarkedApart(["## " + s.title, ""] + Bullets(s.items), [""]);
      MarkedApart(Block(s), Body(sections[1..]));
    }
  }

  /** Titles are read from whole lines. */
  lemma {:induction false} TitlesUnmarked(lines: seq<string>, seen: set<string>)
    requires !Marked(lines) && Sections(lines, seen).Ok?
    ensures !MarkedTitles(Sections(lines, seen).value)
    decreases |lines|
  {
    JoinsAfterBlank(lines);
    SkipBlankShortens(lines);
    var from := SkipBlank(lines);
    if from != [] {
      assert from == [from[0]] + from[1..];
      MarkedApart([from[0]], from[1..]);
      MarkedOne(from[0]);
      NoMarkStripped(from[0]);
      var (section, rest) := OneSection(from, seen).value;
      var line := Strip(from[0]);
      assert line == line[..3] + line[3..] == "## " + section.title;
      ItemsLeave(from[1..], []);
      TitlesUnmarked(rest, seen + {section.title});
    }
  }

  /** The lines of the sections in an accepted text. */
  function SectionLines(text: string): seq<string>
    requires SplitFrontMatter(text).Ok?
  {
    var lines := SkipBlank(SplitLines(SplitFrontMatter(text).value.1));
    lines[SubjectLength(lines)..]
  }

  ghost predicate JoinsMarker(lines: seq<string>) {
    exists i | 0 <= i < |lines| - 1 :: EndsHash(Strip(lines[i])) && StartsTodo(Strip(lines[i + 1]))
  }

  lemma {:induction false} JoinsFound(prev: string, lines: seq<string>)
    ensures Joins(prev, lines) <==>
            (lines != [] && EndsHash(prev) && StartsTodo(Strip(lines[0]))) || JoinsMarker(lines)
    decreases |lines|
  {
    if lines != [] {
      var more := lines[1..];
      JoinsFound(Strip(lines[0]), more);
      if JoinsMarker(more) {
        var i :| 0 <= i < |more| - 1 && EndsHash(Strip(more[i])) && StartsTodo(Strip(more[i + 1]));
        assert lines[i + 1] == more[i] && lines[i + 1 + 1] == more[i + 1];
      }
      if JoinsMarker(lines) {
        var i :| 0 <= i < |lines| - 1 && EndsHash(Strip(lines[i])) && StartsTodo(Strip(lines[i + 1]));
        assert i > 0 ==> more[i - 1] == lines[i] && more[i - 1 + 1] == lines[i + 1];
      }
    }
  }

  lemma {:induction false} LStripNewlinesIsEnd(s: string)
    ensures exists k: nat :: k <= |s| && LStripNewlines(s) == s[k..]
  {
    if s != "" && s[0] == '\n' {
      LStripNewlinesIsEnd(s[1..]);
      var k: nat :| k <= |s[1..]| && LStripNewlines(s[1..]) == s[1..][k..];
      assert s[1..][k..] == s[k + 1..];
    } else {
      assert s == s[0..];
    }
  }

  lemma BodyUnmarked(text: string)
    requires !HasMark(text) && SplitFrontMatter(text).Ok?
    ensures !HasMark(SplitFrontMatter(text).value.1)
  {
    FindAt(text, "\n---\n", 4);
    var end := Find(text, "\n---\n", 4).value;
    RestUnmarked(text, end + 5);
    LStripNewlinesIsEnd(text[end + 5..]);
    var k: nat :| k <= |text[end + 5..]| && LStripNewlines(text[end + 5..]) == text[end + 5..][k..];
    RestUnmarked(text[end + 5..], k);
  }

  lemma SubjectUnmarked(lines: seq<string>)
    requires !Marked(lines) && Strip(Join(lines)) != ""
    ensures !HasMark(Strip(Join(lines)))
  {
    MarkInJoin(lines);
    NoMarkStripped(Join(lines));
  }

  /** Of a body without markers, the lines of the sections alone decide. */
  lemma MarkedByBody(body: string)
    requires !HasMark(body) && ParseBody(body).Ok?
    ensures var (subject, sections) := ParseBody(body).value;
            var lines := SkipBlank(SplitLines(body));
            && !HasMark(subject) && !MarkedTitles(sections)
            && (MarkedSections(sections) <==> JoinsMarker(lines[SubjectLength(lines)..]))
  {
    var lines := SkipBlank(SplitLines(body));
    var n := SubjectLength(lines);
    LinesUnmarked(body);
    JoinsAfterBlank(SplitLines(body));
    assert lines == lines[..n] + lines[n..];
    MarkedApart(lines[..n], lines[n..]);
    SubjectUnmarked(lines[..n]);
    SectionsByLines(lines[n..]);
  }

  lemma SectionsByLines(lines: seq<string>)
    requires !Marked(lines) && Sections(lines, {}).Ok?
    ensures var sections := Sections(lines, {}).value;
            !MarkedTitles(sections) && (MarkedSections(sections) <==> JoinsMarker(lines))
  {
    MarkedBySections(lines, {});
    TitlesUnmarked(lines, {});
    JoinsFound("", lines);
  }

  /** What an accepted text is printed as has a TODO marker exactly if, in the lines
      of its sections, one that ends in two hashes is followed by one that starts
      with the word. */
  lemma MarkerOnlyByJoining(text: string, expected: Option<string>, pads: bool)
    ensures Parse(text, expected, pads).Ok? ==>
              && SplitFrontMatter(text).Ok?
              && (Find(Render(Parse(text, expected, pads).value), MARKER, 0).Some? <==>
                  JoinsMarker(SectionLines(text)))
  {
    if Parse(text, expected, pads).Ok? {
      var e := Parse(text, expected, pads).value;
      ParsedIsGood(text, expected, pads);
      MarkFound(text);
      MarkFound(Render(e));
      BodyUnmarked(text);
      MarkedByBody(SplitFrontMatter(text).value.1);
      RenderedText(e);
      FrontMatterUnmarked(e);
      MarkedFenced(MetaText(e), BodyText(e.subject, e.sections));
      MarkedBodyText(e.subject, e.sections);
      MarkedBody(e.sections);
    }
  }

  /** Printing what was read from an accepted text and reading that back gives the
      same entry, unless joining two of its lines makes a TODO marker, or its date
      is a long one of a year below 1000 and the platform does not pad years. */
  lemma SecondReading(text: string, expected: Option<string>, pads: bool)
    ensures Parse(text, expected, pads).Ok? ==>
              && SplitFrontMatter(text).Ok? && KEY_DATE in SplitFrontMatter(text).value.0
              && (var e, date := Parse(text, expected, pads).value, Strip(SplitFrontMatter(text).value.0[KEY_DATE]);
                  && (IsIsoDate(date) || LongDate(date).Some?)
                  && Parse(Render(e), None, pads) ==
                     if JoinsMarker(SectionLines(text)) then Err(TodoMarkers)
                     else if IsIsoDate(date) || pads || LongDate(date).value.year >= 1000 then Ok(e)
                     else Err(BadDate))
  {
    ParsedIsGood(text, expected, pads);
    ParseRenderParse(text, expected, pads);
    MarkerOnlyByJoining(text, expected, pads);
  }

  // --- a text that shows it --------------------------------------------------------------

  const AFTER := ReleaseEntry(MAIN, "v1.2.3", "2026-01-05", "Subject", [Section("Fixes", ["a ## TODO"])])

  /** A release file whose one bullet is wrapped. */
  function WrappedText(): string {
    Fenced(MetaText(AFTER), Unlines(SUBJECT_LINES + SECTION_LINES))
  }

  lemma VersionIsNormal()
    ensures NormalizeVersion("v1.2.3") == Ok("v1.2.3")
  {
    var core := "1.2.3";
    CoreIsSettled();
    SettledKept(core);
    TrimStrips("v1.2.3");
    CutFirst('v', core);
    assert ['v'] + core == "v1.2.3" && "v" + core == "v1.2.3";
  }

  lemma CoreIsSettled()
    ensures Settled("1.2.3") && VersionText("1.2.3")
  {
    var core := "1.2.3";
    forall c <- core
      ensures (IsDigit(c) || c == '.') && c != '-' && !IsSpace(c) && LowerChar(c) == c
    {
      var i :| 0 <= i < 5 && core[i] == c;
    }
  }

  lemma CutFirst(c: char, s: string)
    ensures ([c] + s)[1..] == s
  {
  }

  lemma SectionLinesRead()
    ensures Sections(SECTION_LINES, {}) == Ok(AFTER.sections)
  {
    var lines := SECTION_LINES;
    HeadingLine("Fixes");
    assert "## " + "Fixes" == "## Fixes";
    assert SkipBlank(lines) == lines;
    assert lines[1..] == [""] + (["- a ##"] + [" TODO"]);
    assert (lines[1..])[1..] == ["- a ##"] + [" TODO"];
    JoiningMakesMarker();
    assert ["- a ##"] + [" TODO"] == ["- a ##", " TODO"];
    assert Sections([], {"Fixes"}) == Ok([]);
    assert [Section("Fixes", ["a ## TODO"])] + [] == AFTER.sections;
  }

  const SUBJECT_LINES := ["Subject", ""]
  const SECTION_LINES := ["## Fixes", "", "- a ##", " TODO"]

  lemma WrappedLines()
    ensures SplitLines(Unlines(SUBJECT_LINES + SECTION_LINES)) == SUBJECT_LINES + SECTION_LINES
  {
    var lines := SUBJECT_LINES + SECTION_LINES;
    SplitUnlines(lines, "");
    assert Unlines(lines) + "" == Unlines(lines) && lines + SplitLines("") == lines;
  }

  lemma SubjectRead()
    ensures var lines := SUBJECT_LINES + SECTION_LINES;
            && SkipBlank(lines) == lines && SubjectLength(lines) == 2
            && Strip(Join(lines[..2])) == "Subject" && lines[2..] == SECTION_LINES
  {
    var lines := SUBJECT_LINES + SECTION_LINES;
    TrimStrips("Subject");
    assert lines[0] == "Subject";
    HeadingLine("Fixes");
    assert "## " + "Fixes" == "## Fixes";
    SubjectEnds(SUBJECT_LINES, SECTION_LINES);
    assert lines[..2] == SUBJECT_LINES && lines[2..] == SECTION_LINES;
    SubjectJoined();
  }

  lemma SubjectJoined()
    ensures Strip(Join(SUBJECT_LINES)) == "Subject"
  {
    assert SUBJECT_LINES[1..] == [""];
    assert Join([""]) == "";
    assert Join(SUBJECT_LINES) == "Subject" + ['\n'];
    StripOfPadded('\n', "Subject");
    TrimStrips("Subject");
  }

  lemma WrappedBodyRead()
    ensures ParseBody(Unlines(SUBJECT_LINES + SECTION_LINES)) == Ok(("Subject", AFTER.sections))
  {
    WrappedLines();
    SubjectRead();
    SectionLinesRead();
  }

  lemma AfterIsGood()
    ensures GoodEntry(AFTER)
  {
    VersionIsNormal();
    SubjectIsFine();
    SectionsAreFine();
    DateIsFine();
    PartsAreGood(AFTER);
  }

  lemma PartsAreGood(e: ReleaseEntry)
    requires e.crate == MAIN && NormalizeVersion(e.version) == Ok(e.version)
    requires IsIsoDate(e.date) && DateText(e.date)
    requires GoodSubject(e.subject) && e.sections != [] && GoodSections(e.sections)
    ensures GoodEntry(e)
  {
  }

  lemma DateIsFine()
    ensures IsIsoDate("2026-01-05") && DateText("2026-01-05")
  {
    DateIsGood("2026-01-05");
  }

  lemma SubjectIsFine()
    ensures GoodSubject("Subject")
  {
    SplitLastLine("Subject");
    TrimStrips("Subject");
  }

  lemma SectionsAreFine()
    ensures AFTER.sections != [] && GoodSections(AFTER.sections)
  {
    assert AFTER.sections[0].items == ["a ## TODO"];
  }

  lemma DateIsGood(date: string)
    requires IsIsoDate(date)
    ensures DateText(date)
  {
    forall c <- date
      ensures IsDigit(c) || c == '-'
    {
      var i :| 0 <= i < 10 && date[i] == c;
    }
  }

  lemma WrappedUnmarked()
    ensures !HasMark(WrappedText())
  {
    AfterIsGood();
    FrontMatterUnmarked(AFTER);
    MarkedFenced(MetaText(AFTER), Unlines(SUBJECT_LINES + SECTION_LINES));
    MarkInUnlines(SUBJECT_LINES + SECTION_LINES);
    EachUnmarked();
  }

  lemma EachUnmarked()
    ensures !Marked(SUBJECT_LINES + SECTION_LINES)
  {
    forall l <- SUBJECT_LINES + SECTION_LINES
      ensures !HasMark(l)
    {
      HashInMark(l);
      HeadingUnmarked();
      if |l| < 7 {
        ShortUnmarked(l);
      }
    }
  }

  lemma ShortUnmarked(l: string)
    requires |l| < 7
    ensures !HasMark(l)
  {
    MarkerChars();
  }

  lemma HeadingUnmarked()
    ensures !HasMark("## Fixes")
  {
    var l := "## Fixes";
    MarkerChars();
    forall k: nat
      ensures !At(l, MARKER, k)
    {
      if k + 7 <= |l| {
        assert l[k..k + 7][1] == l[k + 1] && l[k..k + 7][3..][0] == l[k + 3];
      }
    }
  }

  /** The text is accepted, and what is printed of it is refused. */
  lemma AcceptedTextPrintsRefused(pads: bool)
    ensures Parse(WrappedText(), None, pads) == Ok(AFTER)
    ensures Parse(Render(AFTER), None, pads) == Err(TodoMarkers)
  {
    AfterIsGood();
    WrappedUnmarked();
    MarkFound(WrappedText());
    WrappedAccepted(pads);
    SecondReading(WrappedText(), None, pads);
    WrappedJoins();
  }

  lemma WrappedAccepted(pads: bool)
    requires GoodEntry(AFTER) && Find(WrappedText(), MARKER, 0).None?
    ensures Parse(WrappedText(), None, pads) == Ok(AFTER)
    ensures SplitFrontMatter(WrappedText()) == Ok((MetaOf(AFTER), Unlines(SUBJECT_LINES + SECTION_LINES)))
  {
    var body := Unlines(SUBJECT_LINES + SECTION_LINES);
    assert (SUBJECT_LINES + SECTION_LINES)[0] == "Subject";
    assert body[0] == 'S';
    CrateIsPlain(AFTER.crate);
    DateIsPlain(AFTER.date);
    VersionIsPlain(AFTER.version);
    FrontMatterOfText(AFTER, body);
    IdentityOfMeta(AFTER, None, pads);
    WrappedBodyRead();
  }

  lemma WrappedJoins()
    requires SplitFrontMatter(WrappedText()) == Ok((MetaOf(AFTER), Unlines(SUBJECT_LINES + SECTION_LINES)))
    ensures JoinsMarker(SectionLines(WrappedText()))
  {
    WrappedLines();
    SubjectRead();
    SectionLinesJoin();
  }

  lemma SectionLinesJoin()
    ensures JoinsMarker(SECTION_LINES)
  {
    var lines := SECTION_LINES;
    TrimStrips("- a ##");
    TodoStripped();
    assert EndsHash(Strip(lines[2])) && StartsTodo(Strip(lines[2 + 1]));
  }
}
