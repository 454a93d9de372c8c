/** The grammar of a release file's body: the parser accepts exactly the texts it
    describes, and reads each as what it says. */
module ChangelogGrammar {
  import opened Wrappers
  import opened Text
  import opened Changelog

  // --- kinds of line -----------------------------------------------------------------

  predicate Blank(line: string) { Strip(line) == "" }

  predicate AllBlank(lines: seq<string>) {
    forall l <- lines :: Blank(l)
  }

  /** But for white space around it, the line is two hashes, a blank and the title:
      a capital, and then letters and blanks. */
  predicate IsHeading(line: string, title: string) {
    && Strip(line) == "## " + title
    && |title| >= 2 && 'A' <= title[0] <= 'Z'
    && forall i | 1 <= i < |title| :: 'A' <= title[i] <= 'Z' || 'a' <= title[i] <= 'z' || title[i] == ' '
  }

  lemma HeadingIs(line: string, title: string)
    ensures Heading(Strip(line)) == Some(title) <==> IsHeading(line, title)
  {
    var s := Strip(line);
    if IsHeading(line, title) {
      assert s[3..] == title && s[4..] == title[1..];
    }
    if Heading(s) == Some(title) {
      assert s == s[..3] + s[3..];
      forall i | 1 <= i < |title|
        ensures 'A' <= title[i] <= 'Z' || 'a' <= title[i] <= 'z' || title[i] == ' '
      {
        assert title[i] == s[4..][i - 1] && title[i] in s[4..];
      }
    }
  }

  /** But for white space around it, the line is a dash, white space and the item. */
  predicate IsBullet(line: string, item: string) {
    var s := Strip(line);
    && item != "" && Trim(item)
    && exists k | 2 <= k <= |s| ::
         s[0] == '-' && (forall i | 1 <= i < k :: IsSpace(s[i])) && s[k..] == item
  }

  lemma {:induction false} LStripCuts(s: string, k: nat)
    requires k <= |s| && (forall i | 0 <= i < k :: IsSpace(s[i])) && (k < |s| ==> !IsSpace(s[k]))
    ensures LStrip(s) == s[k..]
  {
    if k > 0 {
      LStripCuts(s[1..], k - 1);
      assert s[1..][k - 1..] == s[k..];
    }
  }

  lemma {:induction false} LStripCutsSpace(s: string) returns (k: nat)
    ensures k <= |s| && (forall i | 0 <= i < k :: IsSpace(s[i])) && LStrip(s) == s[k..]
    ensures k < |s| ==> !IsSpace(s[k])
  {
    if s != "" && IsSpace(s[0]) {
      k := LStripCutsSpace(s[1..]);
      assert s[1..][k..] == s[k + 1..];
      k := k + 1;
    } else {
      k := 0;
    }
  }

  lemma {:induction false} RStripCutsSpace(s: string)
    ensures RStrip(s) <= s && forall i | |RStrip(s)| <= i < |s| :: IsSpace(s[i])
    ensures RStrip(s) != "" ==> !IsSpace(RStrip(s)[|RStrip(s)| - 1])
  {
    if s != "" && IsSpace(s[|s| - 1]) {
      RStripCutsSpace(s[..|s| - 1]);
    }
  }

  /** Stripping takes off white space, all that there is at either end, and nothing
      else. */
  lemma StripCutsSpace(s: string) returns (i: nat, j: nat)
    ensures i <= j <= |s| && Strip(s) == s[i..j] && Trim(s[i..j])
    ensures forall k | 0 <= k < i || j <= k < |s| :: IsSpace(s[k])
  {
    i := LStripCutsSpace(s);
    RStripCutsSpace(s[i..]);
    j := i + |RStrip(s[i..])|;
    assert s[i..][..j - i] == s[i..j];
    forall k | j <= k < |s|
      ensures IsSpace(s[k])
    {
      assert s[k] == s[i..][k - i];
    }
  }

  lemma BulletIs(line: string, item: string)
    ensures Bullet(Strip(line)) == Some(item) <==> IsBullet(line, item)
  {
    var s := Strip(line);
    StripTrims(line);
    if IsBullet(line, item) {
      var k :| 2 <= k <= |s| && s[0] == '-' && (forall i | 1 <= i < k :: IsSpace(s[i])) && s[k..] == item;
      LStripCuts(s[1..], k - 1);
      assert s[1..][k - 1..] == item;
      TrimStrips(item);
      assert RStrip(item) == item;
    }
    if Bullet(s) == Some(item) {
      var k := LStripCutsSpace(s[1..]);
      assert s[1..][k..] == s[k + 1..] && |s| >= 3;
      assert s[|s| - 1] == s[1..][|s| - 2];
      assert RStrip(s[k + 1..]) == s[k + 1..];
      assert forall i | 1 <= i < k + 1 :: s[i] == s[1..][i - 1];
      StripTrims(s[1..]);
    }
  }

  /** An indented line that is neither blank, heading nor bullet: it goes on with the
      bullet above. */
  predicate GoesOn(line: string) {
    line != "" && IsSpace(line[0]) && !Blank(line) && Heading(Strip(line)).None? && Bullet(Strip(line)).None?
  }

  // --- layouts -------------------------------------------------------------------------

  /** A bullet's line, and those that go on with it. */
  datatype ItemLayout = ItemLayout(bullet: string, more: seq<string>)

  datatype SectionLayout = SectionLayout(
    heading: string, blanks: seq<string>, items: seq<ItemLayout>, after: seq<string>)

  predicate IsItem(i: ItemLayout) {
    Bullet(Strip(i.bullet)).Some? && forall l <- i.more :: GoesOn(l)
  }

  predicate AreItems(items: seq<ItemLayout>) {
    forall i <- items :: IsItem(i)
  }

  predicate IsSection(s: SectionLayout) {
    && Heading(Strip(s.heading)).Some? && AllBlank(s.blanks) && s.items != [] && AreItems(s.items)
    && AllBlank(s.after)
  }

  function ItemText(items: seq<ItemLayout>): seq<string> {
    if items == [] then [] else [items[0].bullet] + items[0].more + ItemText(items[1..])
  }

  function SectionText(s: SectionLayout): seq<string> {
    [s.heading] + s.blanks + ItemText(s.items) + s.after
  }

  function TextOf(sections: seq<SectionLayout>): seq<string> {
    if sections == [] then [] else SectionText(sections[0]) + TextOf(sections[1..])
  }

  /** The lines of one item on one line. */
  function OnOneLine(item: string, more: seq<string>): string
    decreases |more|
  {
    if more == [] then item else OnOneLine(item + " " + Strip(more[0]), more[1..])
  }

  function ItemsMeant(items: seq<ItemLayout>): seq<string>
    requires AreItems(items)
  {
    if items == [] then []
    else
      assert IsItem(items[0]);
      [OnOneLine(Bullet(Strip(items[0].bullet)).value, items[0].more)] + ItemsMeant(items[1..])
  }

  function TitleOf(s: SectionLayout): string
    requires IsSection(s)
  {
    Heading(Strip(s.heading)).value
  }

  function Meant(sections: seq<SectionLayout>): seq<Section>
    requires forall s <- sections :: IsSection(s)
  {
    if sections == [] then []
    else [Section(TitleOf(sections[0]), ItemsMeant(sections[0].items))] + Meant(sections[1..])
  }

  /** No title comes twice, or is one of `seen`. */
  ghost predicate Distinct(sections: seq<SectionLayout>, seen: set<string>)
    requires forall s <- sections :: IsSection(s)
  {
    && (forall i | 0 <= i < |sections| :: TitleOf(sections[i]) !in seen)
    && (forall i, j | 0 <= i < j < |sections| :: TitleOf(sections[i]) != TitleOf(sections[j]))
  }

  lemma DistinctFirst(sections: seq<SectionLayout>, seen: set<string>)
    requires sections != [] && forall s <- sections :: IsSection(s)
    ensures Distinct(sections, seen) <==>
            TitleOf(sections[0]) !in seen && Distinct(sections[1..], seen + {TitleOf(sections[0])})
  {
    var rest, first := sections[1..], TitleOf(sections[0]);
    assert forall i | 0 <= i < |rest| :: rest[i] == sections[i + 1];
    if Distinct(rest, seen + {first}) && first !in seen {
      forall i, j | 0 <= i < j < |sections|
        ensures TitleOf(sections[i]) != TitleOf(sections[j])
      {
        assert TitleOf(rest[j - 1]) !in seen + {first};
      }
      forall i | 0 <= i < |sections|
        ensures TitleOf(sections[i]) !in seen
      {
        assert i > 0 ==> TitleOf(rest[i - 1]) !in seen + {first};
      }
    }
  }

  // --- every such text is accepted --------------------------------------------------------

  lemma {:induction false} SkipsBlanks(blanks: seq<string>, rest: seq<string>)
    requires AllBlank(blanks) && (rest != [] ==> !Blank(rest[0]))
    ensures SkipBlank(blanks + rest) == rest
  {
    if blanks == [] {
      assert blanks + rest == rest;
    } else {
      assert Blank(blanks[0]) && (blanks + rest)[1..] == blanks[1..] + rest;
      SkipsBlanks(blanks[1..], rest);
    }
  }

  lemma {:induction false} ItemsAfterBlanks(blanks: seq<string>, rest: seq<string>)
    requires AllBlank(blanks)
    ensures Items(blanks + rest, []) == Items(rest, [])
  {
    if blanks == [] {
      assert blanks + rest == rest;
    } else {
      assert Blank(blanks[0]) && (blanks + rest)[1..] == blanks[1..] + rest;
      ItemsAfterBlanks(blanks[1..], rest);
    }
  }

  lemma {:induction false} ItemGoesOn(more: seq<string>, before: seq<string>, item: string, rest: seq<string>)
    requires forall l <- more :: GoesOn(l)
    ensures Items(more + rest, before + [item]) == Items(rest, before + [OnOneLine(item, more)])
  {
    if more == [] {
      assert more + rest == rest;
    } else {
      var lines, items := more + rest, before + [item];
      assert lines[0] == more[0] && GoesOn(more[0]);
      assert lines[1..] == more[1..] + rest;
      assert items[|items| - 1 := item + " " + Strip(more[0])] == before + [item + " " + Strip(more[0])];
      ItemGoesOn(more[1..], before, item + " " + Strip(more[0]), rest);
    }
  }

  lemma ItemRead(first: ItemLayout, before: seq<string>, rest: seq<string>)
    requires IsItem(first)
    ensures Items([first.bullet] + (first.more + rest), before) ==
            Items(rest, before + [OnOneLine(Bullet(Strip(first.bullet)).value, first.more)])
  {
    var lines := [first.bullet] + (first.more + rest);
    assert lines[1..] == first.more + rest;
    ItemGoesOn(first.more, before, Bullet(Strip(first.bullet)).value, rest);
  }

  lemma ItemTextFirst(items: seq<ItemLayout>, rest: seq<string>)
    requires items != []
    ensures ItemText(items) + rest == [items[0].bullet] + (items[0].more + (ItemText(items[1..]) + rest))
  {
  }

  lemma {:induction false} ItemsRead(items: seq<ItemLayout>, before: seq<string>, rest: seq<string>)
    requires AreItems(items)
    ensures Items(ItemText(items) + rest, before) == Items(rest, before + ItemsMeant(items))
    decreases |items|
  {
    if items == [] {
      assert ItemText(items) + rest == rest && before + ItemsMeant(items) == before;
    } else {
      assert IsItem(items[0]);
      var (first, tail) := (items[0], ItemText(items[1..]) + rest);
      var item := OnOneLine(Bullet(Strip(first.bullet)).value, first.more);
      ItemTextFirst(items, rest);
      assert Items(ItemText(items) + rest, before) == Items(tail, before + [item]) by {
        ItemRead(first, before, tail);
      }
      ItemsRead(items[1..], before + [item], rest);
      MeantFirst(items, before);
    }
  }

  lemma MeantFirst(items: seq<ItemLayout>, before: seq<string>)
    requires items != [] && AreItems(items) && IsItem(items[0])
    ensures AreItems(items[1..])
    ensures before + [OnOneLine(Bullet(Strip(items[0].bullet)).value, items[0].more)] + ItemsMeant(items[1..]) ==
            before + ItemsMeant(items)
  {
  }

  /** What stops the items of a section, and what is left then. */
  lemma ItemsStop(after: seq<string>, rest: seq<string>, items: seq<string>)
    requires items != [] && AllBlank(after)
    requires rest == [] || Heading(Strip(rest[0])).Some?
    ensures Items(after + rest, items) == Ok((items, (if after == [] then [] else after[1..]) + rest))
  {
    if after == [] {
      assert after + rest == rest && [] + rest == rest;
    } else {
      assert Blank(after[0]) && (after + rest)[1..] == after[1..] + rest;
    }
  }

  lemma TextStarts(sections: seq<SectionLayout>)
    requires forall s <- sections :: IsSection(s)
    ensures sections == [] || (TextOf(sections) != [] && Heading(Strip(TextOf(sections)[0])).Some?)
  {
    if sections != [] {
      assert IsSection(sections[0]) && TextOf(sections)[0] == sections[0].heading;
    }
  }

  lemma SectionRead(s: SectionLayout, rest: seq<string>, seen: set<string>)
    requires IsSection(s) && TitleOf(s) !in seen
    requires rest == [] || Heading(Strip(rest[0])).Some?
    ensures OneSection(SectionText(s) + rest, seen) ==
            Ok((Section(TitleOf(s), ItemsMeant(s.items)), (if s.after == [] then [] else s.after[1..]) + rest))
  {
    var lines := SectionText(s) + rest;
    assert lines[1..] == s.blanks + (ItemText(s.items) + (s.after + rest));
    ItemsAfterBlanks(s.blanks, ItemText(s.items) + (s.after + rest));
    ItemsRead(s.items, [], s.after + rest);
    assert [] + ItemsMeant(s.items) == ItemsMeant(s.items);
    ItemsStop(s.after, rest, ItemsMeant(s.items));
  }

  lemma {:induction false} SectionsRead(blanks: seq<string>, sections: seq<SectionLayout>, seen: set<string>)
    requires AllBlank(blanks) && (forall s <- sections :: IsSection(s)) && Distinct(sections, seen)
    ensures Sections(blanks + TextOf(sections), seen) == Ok(Meant(sections))
    decreases |sections|
  {
    TextStarts(sections);
    SkipsBlanks(blanks, TextOf(sections));
    if sections != [] {
      var (s, more) := (sections[0], sections[1..]);
      TextStarts(more);
      DistinctFirst(sections, seen);
      SectionRead(s, TextOf(more), seen);
      SectionsRead(if s.after == [] then [] else s.after[1..], more, seen + {TitleOf(s)});
    }
  }

  // --- no other is -----------------------------------------------------------------------------

  /** The lines that the items of a section were read from, after those of `before`:
      ahead of the first bullet, blank ones, or those that go on with an item there
      was; the bullets with theirs; a blank one; and those that are left. */
  ghost predicate Were(lines: seq<string>, before: seq<string>, got: seq<string>, rest: seq<string>,
                       ahead: seq<string>, items: seq<ItemLayout>, after: seq<string>)
  {
    && AreItems(items) && AllBlank(after)
    && lines == ahead + ItemText(items) + after + rest
    && if before == [] then AllBlank(ahead) && got == ItemsMeant(items)
       else
         && (forall l <- ahead :: GoesOn(l))
         && got == before[..|before| - 1] + [OnOneLine(before[|before| - 1], ahead)] + ItemsMeant(items)
  }

  lemma BulletLines(line: string, lines: seq<string>, ahead: seq<string>, items: seq<ItemLayout>,
                    after: seq<string>, rest: seq<string>)
    requires lines == ahead + ItemText(items) + after + rest
    ensures [line] + lines == [] + ItemText([ItemLayout(line, ahead)] + items) + after + rest
  {
    var all := [ItemLayout(line, ahead)] + items;
    assert all[1..] == items;
    assert ItemText(all) == [line] + ahead + ItemText(items);
  }

  lemma BulletWas(line: string, lines: seq<string>, before: seq<string>, got: seq<string>, rest: seq<string>,
                  ahead: seq<string>, items: seq<ItemLayout>, after: seq<string>)
    requires Bullet(Strip(line)).Some?
    requires Were(lines, before + [Bullet(Strip(line)).value], got, rest, ahead, items, after)
    ensures Were([line] + lines, before, got, rest, [], [ItemLayout(line, ahead)] + items, after)
  {
    var first := ItemLayout(line, ahead);
    var all := [first] + items;
    var item := Bullet(Strip(line)).value;
    assert all[1..] == items && IsItem(first);
    BulletLines(line, lines, ahead, items, after, rest);
    assert (before + [item])[..|before|] == before;
    assert ItemsMeant(all) == [OnOneLine(item, ahead)] + ItemsMeant(items);
    if before != [] {
      assert before == before[..|before| - 1] + [OnOneLine(before[|before| - 1], [])];
    }
  }

  lemma OneMoreAhead(line: string, lines: seq<string>, ahead: seq<string>, text: seq<string>,
                     after: seq<string>, rest: seq<string>)
    requires lines == ahead + text + after + rest
    ensures [line] + lines == ([line] + ahead) + text + after + rest
  {
  }

  lemma MoreWas(line: string, lines: seq<string>, before: seq<string>, got: seq<string>, rest: seq<string>,
                ahead: seq<string>, items: seq<ItemLayout>, after: seq<string>)
    requires before != [] && GoesOn(line)
    requires Were(lines, before[|before| - 1 := before[|before| - 1] + " " + Strip(line)], got, rest,
                  ahead, items, after)
    ensures Were([line] + lines, before, got, rest, [line] + ahead, items, after)
  {
    var now := before[|before| - 1 := before[|before| - 1] + " " + Strip(line)];
    assert now[..|before| - 1] == before[..|before| - 1];
    assert ([line] + ahead)[1..] == ahead;
    OneMoreAhead(line, lines, ahead, ItemText(items), after, rest);
  }

  lemma BlankWas(line: string, lines: seq<string>, got: seq<string>, rest: seq<string>,
                 ahead: seq<string>, items: seq<ItemLayout>, after: seq<string>)
    requires Blank(line) && Were(lines, [], got, rest, ahead, items, after)
    ensures Were([line] + lines, [], got, rest, [line] + ahead, items, after)
  {
    OneMoreAhead(line, lines, ahead, ItemText(items), after, rest);
  }

  /** Only a blank line at most, and what is left. */
  lemma NothingWas(before: seq<string>, rest: seq<string>, after: seq<string>)
    requires AllBlank(after)
    ensures Were(after + rest, before, before, rest, [], [], after)
  {
    assert after + rest == [] + ItemText([]) + after + rest;
    if before != [] {
      assert before == before[..|before| - 1] + [OnOneLine(before[|before| - 1], [])] + ItemsMeant([]);
    }
  }

  lemma {:induction false} ItemsWere(lines: seq<string>, before: seq<string>)
    returns (ahead: seq<string>, items: seq<ItemLayout>, after: seq<string>)
    requires Items(lines, before).Ok?
    ensures Were(lines, before, Items(lines, before).value.0, Items(lines, before).value.1, ahead, items, after)
    decreases |lines|
  {
    ahead, items, after := [], [], [];
    var (got, rest) := Items(lines, before).value;
    if lines == [] || Heading(Strip(lines[0])).Some? {
      NothingWas(before, lines, []);
      assert [] + lines == lines;
    } else {
      var line, tail := lines[0], lines[1..];
      assert lines == [line] + tail;
      if Blank(line) && before != [] {
        after := [line];
        NothingWas(before, tail, after);
      } else if Blank(line) {
        ahead, items, after := ItemsWere(tail, before);
        BlankWas(line, tail, got, rest, ahead, items, after);
        ahead := [line] + ahead;
      } else if Bullet(Strip(line)).Some? {
        ahead, items, after := ItemsWere(tail, before + [Bullet(Strip(line)).value]);
        BulletWas(line, tail, before, got, rest, ahead, items, after);
        ahead, items := [], [ItemLayout(line, ahead)] + items;
      } else {
        ahead, items, after := ItemsWere(tail, before[|before| - 1 := before[|before| - 1] + " " + Strip(line)]);
        MoreWas(line, tail, before, got, rest, ahead, items, after);
        ahead := [line] + ahead;
      }
    }
  }

  lemma {:induction false} BlanksWere(lines: seq<string>) returns (blanks: seq<string>)
    ensures AllBlank(blanks) && lines == blanks + SkipBlank(lines)
  {
    blanks := [];
    if lines != [] && Blank(lines[0]) {
      blanks := BlanksWere(lines[1..]);
      blanks := [lines[0]] + blanks;
    }
  }

  /** The section that was read, with the blank lines up to the next. */
  lemma SectionWas(rest: seq<string>, seen: set<string>, between: seq<string>, next: seq<string>)
    returns (s: SectionLayout)
    requires rest != [] && OneSection(rest, seen).Ok? && OneSection(rest, seen).value.1 == between + next
    requires AllBlank(between)
    ensures IsSection(s) && rest == SectionText(s) + next
    ensures Section(TitleOf(s), ItemsMeant(s.items)) == OneSection(rest, seen).value.0 && TitleOf(s) !in seen
  {
    var ahead, items, after := ItemsWere(rest[1..], []);
    s := SectionLayout(rest[0], ahead, items, after + between);
    assert rest == [rest[0]] + rest[1..];
    assert rest[1..] == ahead + ItemText(items) + after + (between + next);
  }

  lemma {:induction false} SectionsWere(lines: seq<string>, seen: set<string>)
    returns (blanks: seq<string>, sections: seq<SectionLayout>)
    requires Sections(lines, seen).Ok?
    ensures AllBlank(blanks) && (forall s <- sections :: IsSection(s)) && Distinct(sections, seen)
    ensures lines == blanks + TextOf(sections) && Sections(lines, seen).value == Meant(sections)
    decreases |lines|
  {
    blanks := BlanksWere(lines);
    sections := [];
    SkipBlankShortens(lines);
    var rest := SkipBlank(lines);
    if rest != [] {
      var (section, left) := OneSection(rest, seen).value;
      var between, more := SectionsWere(left, seen + {section.title});
      var s := SectionWas(rest, seen, between, TextOf(more));
      sections := [s] + more;
      assert sections[1..] == more;
      DistinctFirst(sections, seen);
    }
  }

  /** The sections of a text are accepted exactly if the text is some blank lines and
      then sections, each a heading, blank lines, bullets that may go on over indented
      lines, and blank lines; and they are read as what that says. */
  lemma SectionsByGrammar(lines: seq<string>, read: seq<Section>)
    ensures Sections(lines, {}) == Ok(read) <==>
            exists blanks: seq<string>, sections: seq<SectionLayout> ::
              && AllBlank(blanks) && (forall s <- sections :: IsSection(s)) && Distinct(sections, {})
              && lines == blanks + TextOf(sections) && read == Meant(sections)
  {
    if Sections(lines, {}) == Ok(read) {
      var blanks, sections := SectionsWere(lines, {});
    }
    forall blanks: seq<string>, sections: seq<SectionLayout> |
        && AllBlank(blanks) && (forall s <- sections :: IsSection(s)) && Distinct(sections, {})
        && lines == blanks + TextOf(sections) && read == Meant(sections)
      ensures Sections(lines, {}) == Ok(read)
    {
      SectionsRead(blanks, sections, {});
    }
  }

  // --- the body ----------------------------------------------------------------------------------

  /** Some blank lines, the subject's lines, of which none is a heading and not all are
      blank, and sections. */
  ghost predicate IsBody(lines: seq<string>, subject: string, read: seq<Section>) {
    exists blanks: seq<string>, about: seq<string>, sections: seq<SectionLayout> ::
      && AllBlank(blanks) && lines == blanks + about + TextOf(sections)
      && about != [] && !Blank(about[0]) && NoHeadings(about) && subject == Strip(Join(about))
      && sections != [] && (forall s <- sections :: IsSection(s)) && Distinct(sections, {})
      && read == Meant(sections)
  }

  lemma {:induction false} SubjectStops(lines: seq<string>)
    ensures var n := SubjectLength(lines);
            && NoHeadings(lines[..n])
            && (n < |lines| ==> Heading(Strip(lines[n])).Some?)
  {
    if lines != [] && Heading(Strip(lines[0])).None? {
      SubjectStops(lines[1..]);
      var n := SubjectLength(lines[1..]);
      assert lines[..n + 1] == [lines[0]] + lines[1..][..n];
    }
  }

  lemma {:induction false} SubjectRuns(about: seq<string>, rest: seq<string>)
    requires NoHeadings(about) && (rest != [] ==> Heading(Strip(rest[0])).Some?)
    ensures SubjectLength(about + rest) == |about|
  {
    if about == [] {
      assert about + rest == rest;
    } else {
      assert (about + rest)[1..] == about[1..] + rest;
      SubjectRuns(about[1..], rest);
    }
  }

  lemma {:induction false} SkipBlankStops(lines: seq<string>)
    ensures SkipBlank(lines) != [] ==> !Blank(SkipBlank(lines)[0])
  {
    if lines != [] && Blank(lines[0]) {
      SkipBlankStops(lines[1..]);
    }
  }

  lemma {:induction false} JoinNotBlank(lines: seq<string>)
    requires lines != [] && !Blank(lines[0])
    ensures Strip(Join(lines)) != ""
  {
    var i, j := StripCutsSpace(lines[0]);
    assert !IsSpace(lines[0][i]) by {
      assert lines[0][i..j] != "" && lines[0][i..j][0] == lines[0][i];
    }
    var a, b := StripCutsSpace(Join(lines));
    assert Join(lines)[i] == lines[0][i];
  }

  lemma BodyRead(blanks: seq<string>, about: seq<string>, sections: seq<SectionLayout>)
    requires AllBlank(blanks) && about != [] && !Blank(about[0]) && NoHeadings(about)
    requires sections != [] && (forall s <- sections :: IsSection(s)) && Distinct(sections, {})
    ensures ParseLines(SkipBlank(blanks + about + TextOf(sections))) == Ok((Strip(Join(about)), Meant(sections)))
  {
    var text := TextOf(sections);
    var rest := about + text;
    assert blanks + about + text == blanks + rest;
    SkipsBlanks(blanks, rest);
    TextStarts(sections);
    SubjectRuns(about, text);
    assert rest[..|about|] == about && rest[|about|..] == text && [] + text == text;
    JoinNotBlank(about);
    SectionsRead([], sections, {});
  }

  lemma BodyWas(lines: seq<string>, subject: string, read: seq<Section>)
    requires ParseLines(SkipBlank(lines)) == Ok((subject, read))
    ensures IsBody(lines, subject, read)
  {
    var blanks, rest := BlanksApart(lines);
    var about, sections := AboutWas(rest, subject, read);
    ThreeParts(lines, blanks, rest, about, TextOf(sections));
    BodyIs(lines, blanks, about, sections);
  }

  lemma ThreeParts(lines: seq<string>, blanks: seq<string>, rest: seq<string>, about: seq<string>, text: seq<string>)
    requires lines == blanks + rest && rest == about + text
    ensures lines == blanks + about + text
  {
  }

  lemma BlanksApart(lines: seq<string>) returns (blanks: seq<string>, rest: seq<string>)
    ensures rest == SkipBlank(lines) && AllBlank(blanks) && lines == blanks + rest
    ensures rest != [] ==> !Blank(rest[0])
  {
    blanks, rest := [], SkipBlank(lines);
    blanks := BlanksWere(lines);
    SkipBlankStops(lines);
  }

  lemma AboutWas(lines: seq<string>, subject: string, read: seq<Section>)
    returns (about: seq<string>, sections: seq<SectionLayout>)
    requires ParseLines(lines) == Ok((subject, read)) && (lines != [] ==> !Blank(lines[0]))
    ensures about != [] && !Blank(about[0]) && NoHeadings(about) && subject == Strip(Join(about))
    ensures sections != [] && (forall s <- sections :: IsSection(s)) && Distinct(sections, {})
    ensures lines == about + TextOf(sections) && read == Meant(sections)
  {
    var n := SubjectLength(lines);
    LinesParsed(lines, subject, read);
    about := AboutOnly(lines, n);
    sections := SectionsAhead(lines[n..]);
    Apart(lines, n);
  }

  lemma LinesParsed(lines: seq<string>, subject: string, read: seq<Section>)
    requires ParseLines(lines) == Ok((subject, read))
    ensures var n := SubjectLength(lines);
            && subject == Strip(Join(lines[..n])) != ""
            && Sections(lines[n..], {}) == Ok(read) && read != []
  {
  }

  lemma Apart(lines: seq<string>, n: nat)
    requires n <= |lines|
    ensures lines == lines[..n] + lines[n..]
  {
  }

  lemma AboutOnly(lines: seq<string>, n: nat) returns (about: seq<string>)
    requires n == SubjectLength(lines) && Strip(Join(lines[..n])) != "" && (lines != [] ==> !Blank(lines[0]))
    ensures about == lines[..n] && about != [] && !Blank(about[0]) && NoHeadings(about)
    ensures n < |lines| ==> Heading(Strip(lines[n])).Some?
  {
    about := lines[..n];
    SubjectStops(lines);
    NothingJoined(lines, n);
  }

  lemma SectionsAhead(lines: seq<string>) returns (sections: seq<SectionLayout>)
    requires Sections(lines, {}).Ok? && (lines != [] ==> Heading(Strip(lines[0])).Some?)
    ensures (forall s <- sections :: IsSection(s)) && Distinct(sections, {})
    ensures lines == TextOf(sections) && Sections(lines, {}).value == Meant(sections)
    ensures sections == [] ==> Sections(lines, {}).value == []
  {
    var blanks;
    blanks, sections := SectionsWere(lines, {});
    NoBlanksAhead(lines, blanks, TextOf(sections));
  }

  lemma NoBlanksAhead(lines: seq<string>, blanks: seq<string>, text: seq<string>)
    requires lines == blanks + text && AllBlank(blanks)
    requires lines != [] ==> Heading(Strip(lines[0])).Some?
    ensures lines == text
  {
    if blanks != [] {
      assert lines[0] == blanks[0];
      HeadingNotBlank(lines[0]);
    }
  }

  lemma BodyIs(lines: seq<string>, blanks: seq<string>, about: seq<string>, sections: seq<SectionLayout>)
    requires lines == blanks + about + TextOf(sections)
    requires AllBlank(blanks) && about != [] && !Blank(about[0]) && NoHeadings(about)
    requires sections != [] && (forall s <- sections :: IsSection(s)) && Distinct(sections, {})
    ensures IsBody(lines, Strip(Join(about)), Meant(sections))
  {
  }

  lemma NothingJoined(lines: seq<string>, n: nat)
    requires n <= |lines| && Strip(Join(lines[..n])) != ""
    ensures n > 0 && lines[..n][0] == lines[0]
  {
  }

  /** A body is accepted exactly if it is of that form. */
  lemma BodyByGrammar(body: string, subject: string, read: seq<Section>)
    ensures ParseBody(body) == Ok((subject, read)) <==> IsBody(SplitLines(body), subject, read)
  {
    var lines := SplitLines(body);
    if ParseBody(body) == Ok((subject, read)) {
      BodyWas(lines, subject, read);
    }
    if IsBody(lines, subject, read) {
      var blanks: seq<string>, about: seq<string>, sections: seq<SectionLayout> :|
        && AllBlank(blanks) && lines == blanks + about + TextOf(sections)
        && about != [] && !Blank(about[0]) && NoHeadings(about) && subject == Strip(Join(about))
        && sections != [] && (forall s <- sections :: IsSection(s)) && Distinct(sections, {})
        && read == Meant(sections);
      BodyRead(blanks, about, sections);
    }
  }

  lemma HeadingNotBlank(line: string)
    ensures Heading(Strip(line)).Some? ==> !Blank(line)
  {
  }
}
