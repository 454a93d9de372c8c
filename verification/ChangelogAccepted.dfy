/** Every release file the parser accepts gives a well-formed entry, so that
    printing that entry and reading it back gives it again. */
module ChangelogAccepted {
  import opened Wrappers
  import opened Text
  import opened Dates
  import opened Changelog
  import opened ChangelogRoundTrip

  // --- versions ------------------------------------------------------------

  predicate NoDoubleDash(s: string) {
    forall i | 0 <= i < |s| - 1 :: s[i] != '-' || s[i + 1] != '-'
  }

  /** Text the version passes leave alone. */
  predicate Settled(s: string) {
    NoDoubleDash(s) && forall c <- s :: !IsSpace(c) && LowerChar(c) == c
  }

  lemma DashesStop(s: string)
    ensures Dashes(s) < |s| ==> s[Dashes(s)] != '-'
    ensures s != "" && s[0] == '-' ==> Dashes(s) >= 1
  {
  }

  lemma {:induction false} SqueezedHasNoDouble(s: string)
    ensures NoDoubleDash(SqueezeDashes(s))
    ensures s != "" ==> SqueezeDashes(s) != "" && SqueezeDashes(s)[0] == s[0]
    decreases |s|
  {
    if s != "" {
      DashesStop(s);
      SqueezedHasNoDouble(if s[0] == '-' then s[Dashes(s)..] else s[1..]);
    }
  }

  lemma LowerKeepsShape(s: string)
    ensures |Lower(s)| == |s|
    ensures forall i | 0 <= i < |s| :: Lower(s)[i] == LowerChar(s[i])
  {
  }

  lemma LowerSettles(s: string)
    requires NoDoubleDash(s) && VersionText(Lower(s))
    ensures Settled(Lower(s))
  {
    LowerKeepsShape(s);
    var lower := Lower(s);
    assert NoDoubleDash(lower);
    forall c <- lower ensures !IsSpace(c) && LowerChar(c) == c {
      var i :| 0 <= i < |lower| && lower[i] == c;
      LowerIsLower(s[i]);
      VersionCharIsNoSpace(c);
    }
  }

  lemma LowerIsLower(c: char)
    ensures LowerChar(LowerChar(c)) == LowerChar(c)
  {
  }

  lemma VersionCharIsNoSpace(c: char)
    requires VersionChar(c) || c == '.' || c == '+' || c == '-'
    ensures !IsSpace(c)
  {
  }

  lemma CoreSettled(raw: string)
    requires VersionText(VersionCore(raw))
    ensures Settled(VersionCore(raw))
  {
    var stripped := Strip(raw);
    var v := if stripped != "" && stripped[0] == 'v' then stripped[1..] else stripped;
    SqueezedHasNoDouble(DashSpaces(TightenDashes(v)));
    LowerSettles(SqueezeDashes(DashSpaces(TightenDashes(v))));
  }

  lemma NoSpacesAhead(s: string)
    requires forall c <- s :: !IsSpace(c)
    ensures Spaces(s) == 0
  {
  }

  lemma {:induction false} SettledKept(s: string)
    requires Settled(s)
    ensures TightenDashes(s) == s && DashSpaces(s) == s && SqueezeDashes(s) == s && Lower(s) == s
  {
    if s != "" {
      NoSpacesAhead(s);
      NoSpacesAhead(s[1..]);
      assert s == [s[0]] + s[1..];
      assert s[1..][0..] == s[1..];
      assert forall i | 0 <= i < |s[1..]| :: s[1..][i] == s[i + 1];
      SettledKept(s[1..]);
      if s[0] == '-' {
        assert |s| > 1 ==> s[1] != '-';
        assert Dashes(s[1..]) == 0;
        assert s[Dashes(s)..] == s[1..];
      }
    }
  }

  /** Normalizing twice is normalizing once. */
  lemma NormalizeIsIdempotent(raw: string)
    requires NormalizeVersion(raw).Ok?
    ensures NormalizeVersion(NormalizeVersion(raw).value) == NormalizeVersion(raw)
  {
    var core := VersionCore(raw);
    var v := "v" + core;
    CoreSettled(raw);
    SettledKept(core);
    assert core[|core| - 1] in core;
    TrimStrips(v);
    assert v[1..] == core;
  }

  // --- the subject -----------------------------------------------------------

  /** The text split at line feeds: always at least one line. */
  function Lines(s: string): seq<string> {
    if s == "" then [""]
    else if s[0] == '\n' then [""] + Lines(s[1..])
    else PutFirst(s[0], Lines(s[1..]))
  }

  lemma {:induction false} SplitLinesAreLines(s: string)
    requires OnlyNewlines(s)
    ensures SplitLines(s) == Lines(s) || SplitLines(s) + [""] == Lines(s)
  {
    if |s| == 1 {
      assert s[1..] == "";
      assert [s[0]] + "" == s;
    } else if |s| > 1 {
      SplitLinesAreLines(s[1..]);
      SplitLinesNoBreaks(s[1..]);
      var ls := SplitLines(s[1..]);
      assert PutFirst(s[0], ls + [""]) == PutFirst(s[0], ls) + [""];
      assert [""] + (ls + [""]) == [""] + ls + [""];
    }
  }

  lemma {:induction false} LinesOfLine(l: string, rest: string)
    requires NoBreaks(l)
    ensures Lines(l) == [l] && Lines(l + "\n" + rest) == [l] + Lines(rest)
  {
    var s := l + "\n" + rest;
    if l == "" {
      assert s[1..] == rest;
    } else {
      assert l[0] in l;
      LinesOfLine(l[1..], rest);
      assert s[1..] == l[1..] + "\n" + rest;
      assert l == [l[0]] + l[1..];
    }
  }

  lemma {:induction false} LinesOfJoin(ls: seq<string>)
    requires ls != [] && forall l <- ls :: NoBreaks(l)
    ensures Lines(Join(ls)) == ls && OnlyNewlines(Join(ls))
  {
    if |ls| == 1 {
      LinesOfLine(ls[0], "");
    } else {
      LinesOfJoin(ls[1..]);
      LinesOfLine(ls[0], Join(ls[1..]));
      assert ls == [ls[0]] + ls[1..];
    }
  }

  lemma LinesNotEmpty(s: string)
    ensures Lines(s) != []
  {
  }

  function WithLast(ls: seq<string>, c: char): seq<string>
    requires ls != []
  {
    var n := |ls| - 1;
    if c == '\n' then ls + [""] else ls[..n] + [ls[n] + [c]]
  }

  lemma PutFirstWithLast(x: char, ls: seq<string>, c: char)
    requires ls != []
    ensures PutFirst(x, WithLast(ls, c)) == WithLast(PutFirst(x, ls), c)
  {
    if c != '\n' && |ls| == 1 {
      assert [x] + (ls[0] + [c]) == [x] + ls[0] + [c];
    }
  }

  lemma {:induction false} LinesWithLast(s: string, c: char)
    ensures Lines(s) != [] && Lines(s + [c]) == WithLast(Lines(s), c)
  {
    if s == "" {
      assert s + [c] == [c] && [c][1..] == "";
      assert [c] + "" == "" + [c];
    } else {
      assert (s + [c])[1..] == s[1..] + [c];
      LinesWithLast(s[1..], c);
      PutFirstWithLast(s[0], Lines(s[1..]), c);
    }
  }

  lemma NoHeadingsWithoutLast(s: string, c: char)
    requires IsSpace(c) && NoHeadings(Lines(s + [c]))
    ensures NoHeadings(Lines(s))
  {
    LinesWithLast(s, c);
    var ls := Lines(s);
    var more := Lines(s + [c]);
    forall l <- ls ensures Heading(Strip(l)).None? {
      var i :| 0 <= i < |ls| && ls[i] == l;
      StripOfTrailing(l, c);
      assert more[i] in more;
      assert more[i] == l || more[i] == l + [c];
    }
  }

  lemma NoHeadingsWithoutFirst(s: string)
    requires s != "" && IsSpace(s[0]) && NoHeadings(Lines(s))
    ensures NoHeadings(Lines(s[1..]))
  {
    LinesNotEmpty(s[1..]);
    var ls := Lines(s[1..]);
    var more := Lines(s);
    if s[0] == '\n' {
      assert more == [""] + ls;
    } else {
      assert more == [[s[0]] + ls[0]] + ls[1..];
      StripOfPadded(s[0], ls[0]);
      assert more[0] in more;
      assert forall l <- ls :: l == ls[0] || l in ls[1..];
    }
  }

  lemma {:induction false} LStripKeepsNoHeadings(s: string)
    requires NoHeadings(Lines(s))
    ensures NoHeadings(Lines(LStrip(s)))
  {
    if s != "" && IsSpace(s[0]) {
      NoHeadingsWithoutFirst(s);
      LStripKeepsNoHeadings(s[1..]);
    }
  }

  lemma {:induction false} RStripKeepsNoHeadings(s: string)
    requires NoHeadings(Lines(s))
    ensures NoHeadings(Lines(RStrip(s)))
  {
    if s != "" && IsSpace(s[|s| - 1]) {
      assert s == s[..|s| - 1] + [s[|s| - 1]];
      NoHeadingsWithoutLast(s[..|s| - 1], s[|s| - 1]);
      RStripKeepsNoHeadings(s[..|s| - 1]);
    }
  }

  lemma {:induction false} SubjectHasNoHeadings(lines: seq<string>)
    ensures NoHeadings(lines[..SubjectLength(lines)])
  {
    var n := SubjectLength(lines);
    if n > 0 {
      SubjectHasNoHeadings(lines[1..]);
      assert lines[..n] == [lines[0]] + lines[1..][..n - 1];
    }
  }

  lemma SubjectIsGood(lines: seq<string>)
    requires forall l <- lines :: NoBreaks(l)
    requires Strip(Join(lines[..SubjectLength(lines)])) != ""
    ensures GoodSubject(Strip(Join(lines[..SubjectLength(lines)])))
  {
    var before := lines[..SubjectLength(lines)];
    var text := Join(before);
    var subject := Strip(text);
    SubjectHasNoHeadings(lines);
    LinesOfJoin(before);
    LStripKeepsNoHeadings(text);
    RStripKeepsNoHeadings(LStrip(text));
    StripTrims(text);
    SplitLinesAreLines(subject);
    assert forall l <- SplitLines(subject) :: l in Lines(subject);
  }

  // --- the sections ------------------------------------------------------------

  lemma SkipBlankIsSuffix(lines: seq<string>)
    ensures forall l <- SkipBlank(lines) :: l in lines
  {
  }

  lemma HeadingIsGood(line: string)
    requires Heading(Strip(line)).Some?
    ensures GoodTitle(Heading(Strip(line)).value)
  {
    var stripped := Strip(line);
    var title := stripped[3..];
    StripTrims(line);
    assert title == [stripped[3]] + stripped[4..];
    assert title[|title| - 1] == stripped[|stripped| - 1];
  }

  lemma BulletIsGood(line: string, item: string)
    requires NoBreaks(line) && Bullet(Strip(line)) == Some(item)
    ensures GoodItem(item)
  {
    var stripped := Strip(line);
    StripTrims(line);
    StripTrims(stripped[1..]);
    NotBlank(stripped[1..]);
    assert forall c <- item :: c in stripped[1..] && c in stripped && c in line;
  }

  /** A wrapped bullet, joined onto one line, is still one item. */
  lemma WrappedIsGood(item: string, line: string)
    requires GoodItem(item) && NoBreaks(line) && Strip(line) != ""
    ensures GoodItem(item + " " + Strip(line))
  {
    StripTrims(line);
    var joined := item + " " + Strip(line);
    forall c <- joined ensures !IsBreak(c) {
      assert c in item || c == ' ' || c in Strip(line);
    }
  }

  predicate GoodItems(items: seq<string>) {
    forall item <- items :: GoodItem(item)
  }

  lemma {:induction false} ItemsAreGood(lines: seq<string>, before: seq<string>)
    requires (forall l <- lines :: NoBreaks(l)) && GoodItems(before)
    requires Items(lines, before).Ok?
    ensures GoodItems(Items(lines, before).value.0)
    ensures forall l <- Items(lines, before).value.1 :: l in lines
    decreases |lines|
  {
    if lines != [] {
      var line := lines[0];
      var stripped := Strip(line);
      if stripped == "" {
        if before == [] {
          ItemsAreGood(lines[1..], before);
        }
      } else if Heading(stripped).None? {
        match Bullet(stripped)
        case Some(item) =>
          BulletIsGood(line, item);
          ItemsAreGood(lines[1..], before + [item]);
        case None =>
          var last := before[|before| - 1];
          assert last in before;
          WrappedIsGood(last, line);
          ItemsAreGood(lines[1..], before[|before| - 1 := last + " " + stripped]);
      }
    }
  }

  lemma {:induction false} SectionsAreGood(lines: seq<string>, seen: set<string>)
    requires forall l <- lines :: NoBreaks(l)
    requires Sections(lines, seen).Ok?
    ensures GoodSections(Sections(lines, seen).value)
    ensures forall s <- Sections(lines, seen).value :: s.title !in seen
    decreases |lines|
  {
    SkipBlankShortens(lines);
    SkipBlankIsSuffix(lines);
    var rest := SkipBlank(lines);
    if rest != [] {
      var title := Heading(Strip(rest[0])).value;
      HeadingIsGood(rest[0]);
      ItemsAreGood(rest[1..], []);
      var (items, after) := Items(rest[1..], []).value;
      SectionsAreGood(after, seen + {title});
      var more := Sections(after, seen + {title}).value;
      assert Sections(lines, seen).value == [Section(title, items)] + more;
      forall i, j | 0 <= i < j < |more| + 1
        ensures ([Section(title, items)] + more)[i].title != ([Section(title, items)] + more)[j].title
      {
        assert more[j - 1] in more;
      }
    }
  }

  // --- the law -----------------------------------------------------------------

  lemma BodyIsGood(body: string)
    requires ParseBody(body).Ok?
    ensures GoodSubject(ParseBody(body).value.0)
    ensures ParseBody(body).value.1 != [] && GoodSections(ParseBody(body).value.1)
  {
    var all := SplitLines(body);
    SplitLinesNoBreaks(body);
    SkipBlankIsSuffix(all);
    var lines := SkipBlank(all);
    var n := SubjectLength(lines);
    SubjectIsGood(lines);
    SectionsAreGood(lines[n..], {});
  }

  /** Everything the parser accepts is well-formed; its date is in ISO form, unless
      it is a long date of a year below 1000 that the platform did not pad. */
  lemma ParsedIsGood(text: string, expected: Option<string>, pads: bool)
    ensures Parse(text, expected, pads).Ok? ==>
              && SplitFrontMatter(text).Ok? && KEY_DATE in SplitFrontMatter(text).value.0
              && (var e, raw := Parse(text, expected, pads).value, SplitFrontMatter(text).value.0[KEY_DATE];
                  && ReadEntry(e)
                  && (IsIsoDate(Strip(raw)) || LongDate(Strip(raw)).Some?)
                  && (GoodEntry(e) <==>
                      IsIsoDate(Strip(raw)) || pads || LongDate(Strip(raw)).value.year >= 1000))
  {
    if Parse(text, expected, pads).Ok? {
      var (meta, body) := SplitFrontMatter(text).value;
      NormalizeIsIdempotent(meta[KEY_VERSION]);
      WhenIso(meta[KEY_DATE], pads);
      BodyIsGood(body);
    }
  }

  /** Printing what was read from an accepted file, wrapped bullets and all, and
      reading that back gives the same entry, unless joining lines has made a
      TODO marker, or the year was not padded. */
  lemma ParseRenderParse(text: string, expected: Option<string>, pads: bool)
    ensures Parse(text, expected, pads).Ok? ==>
              var e := Parse(text, expected, pads).value;
              Parse(Render(e), None, pads) == Reread(e)
  {
    ParsedIsGood(text, expected, pads);
    if Parse(text, expected, pads).Ok? {
      ParseOfPrinted(Parse(text, expected, pads).value, None, pads);
    }
  }
}
