/** Reading back the text of a well-formed entry gives that entry. */
module ChangelogRoundTrip {
  import opened Wrappers
  import opened Text
  import opened Dates
  import opened Changelog

  // --- bullets and sections ------------------------------------------------

  lemma BulletLine(item: string)
    requires GoodItem(item)
    ensures var line := "- " + item;
            && Strip(line) == line && line != "" && Heading(line).None?
            && Bullet(line) == Some(item) && NoBreaks(line)
  {
    var line := "- " + item;
    TrimStrips(line);
    TrimStrips(item);
    assert line[1..] == [' '] + item;
    StripOfPadded(' ', item);
    assert line[..3][0] == '-';
    forall c <- line ensures !IsBreak(c) {
      assert c in "- " || c in item;
    }
  }

  lemma ItemsOfBullet(item: string, before: seq<string>, rest: seq<string>)
    requires GoodItem(item)
    ensures Items(["- " + item] + rest, before) == Items(rest, before + [item])
  {
    BulletLine(item);
    assert (["- " + item] + rest)[1..] == rest;
  }

  lemma {:induction false} ItemsOfBullets(items: seq<string>, before: seq<string>, rest: seq<string>)
    requires forall item <- items :: GoodItem(item)
    ensures Items(Bullets(items) + rest, before) == Items(rest, before + items)
  {
    if items == [] {
      assert Bullets(items) + rest == rest;
      assert before + items == before;
    } else {
      assert Bullets(items) + rest == ["- " + items[0]] + (Bullets(items[1..]) + rest);
      ItemsOfBullet(items[0], before, Bullets(items[1..]) + rest);
      ItemsOfBullets(items[1..], before + [items[0]], rest);
      assert before + [items[0]] + items[1..] == before + items;
    }
  }

  lemma HeadingLine(title: string)
    requires GoodTitle(title)
    ensures var line := "## " + title;
            Strip(line) == line && line != "" && Heading(line) == Some(title) && NoBreaks(line)
  {
    var line := "## " + title;
    assert line[|line| - 1] == title[|title| - 1];
    assert TitleChar(title[|title| - 1]);
    TrimStrips(line);
    assert line[3..] == title && line[4..] == title[1..];
    forall c <- line[4..] ensures TitleChar(c) {
      assert c in title;
    }
    forall c <- line ensures !IsBreak(c) {
      assert c in "## " || c in title;
    }
  }

  /** The lines of the sections, without the blank one at the end. */
  function Body(sections: seq<Section>): seq<string> {
    if sections == [] then []
    else if |sections| == 1 then ["## " + sections[0].title, ""] + Bullets(sections[0].items)
    else Block(sections[0]) + Body(sections[1..])
  }

  lemma {:induction false} BlocksAreBody(sections: seq<Section>)
    requires sections != []
    ensures Blocks(sections) == Body(sections) + [""]
  {
    if |sections| == 1 {
      assert Blocks(sections[1..]) == [];
    } else {
      BlocksAreBody(sections[1..]);
    }
  }

  lemma {:induction false} SectionsOfBody(sections: seq<Section>, seen: set<string>)
    requires sections != [] && GoodSections(sections)
    requires forall s <- sections :: s.title !in seen
    ensures Sections(Body(sections), seen) == Ok(sections)
    decreases |sections|
  {
    var s := sections[0];
    var lines := Body(sections);
    HeadingLine(s.title);
    assert lines[0] == "## " + s.title;
    assert SkipBlank(lines) == lines;
    if |sections| == 1 {
      assert lines[1..] == [""] + (Bullets(s.items) + []);
      ItemsAfterBlank(s.items, []);
      assert Sections([], seen + {s.title}) == Ok([]);
      assert sections == [Section(s.title, s.items)] + [];
    } else {
      var rest := Body(sections[1..]);
      assert lines[1..] == [""] + (Bullets(s.items) + ([""] + rest));
      ItemsAfterBlank(s.items, [""] + rest);
      assert ([""] + rest)[1..] == rest;
      assert Items([""] + rest, s.items) == Ok((s.items, rest));
      SectionsOfBody(sections[1..], seen + {s.title});
      assert sections == [Section(s.title, s.items)] + sections[1..];
    }
  }

  lemma ItemsAfterBlank(items: seq<string>, rest: seq<string>)
    requires forall item <- items :: GoodItem(item)
    ensures Items([""] + (Bullets(items) + rest), []) == Items(rest, items)
  {
    var lines := [""] + (Bullets(items) + rest);
    assert lines[1..] == Bullets(items) + rest;
    ItemsOfBullets(items, [], rest);
    assert [] + items == items;
  }

  // --- the body ----------------------------------------------------------------

  lemma {:induction false} SubjectEnds(before: seq<string>, rest: seq<string>)
    requires NoHeadings(before)
    requires rest != [] && Heading(Strip(rest[0])).Some?
    ensures SubjectLength(before + rest) == |before|
  {
    if before != [] {
      assert (before + rest)[1..] == before[1..] + rest;
      SubjectEnds(before[1..], rest);
    } else {
      assert before + rest == rest;
    }
  }

  lemma {:induction false} BodyHasNoBreaks(sections: seq<Section>)
    requires GoodSections(sections)
    ensures forall l <- Body(sections) :: NoBreaks(l)
  {
    if sections != [] {
      HeadingLine(sections[0].title);
      BulletsHaveNoBreaks(sections[0].items);
      BodyHasNoBreaks(sections[1..]);
    }
  }

  lemma {:induction false} BulletsHaveNoBreaks(items: seq<string>)
    requires forall item <- items :: GoodItem(item)
    ensures forall l <- Bullets(items) :: NoBreaks(l)
  {
    if items != [] {
      BulletLine(items[0]);
      BulletsHaveNoBreaks(items[1..]);
    }
  }

  /** The text after the front matter. */
  function BodyText(subject: string, sections: seq<Section>): string {
    subject + "\n" + "\n" + Unlines(Body(sections))
  }

  lemma LinesOfBodyText(subject: string, sections: seq<Section>)
    requires GoodSubject(subject) && GoodSections(sections)
    ensures SplitLines(BodyText(subject, sections)) == SplitLines(subject) + [""] + Body(sections)
  {
    var lines := SplitLines(subject) + [""] + Body(sections);
    SplitLinesNoBreaks(subject);
    BodyHasNoBreaks(sections);
    LinesOfText(subject);
    UnlinesAppend(SplitLines(subject) + [""], Body(sections));
    UnlinesAppend(SplitLines(subject), [""]);
    assert Unlines([""]) == "\n";
    assert BodyText(subject, sections) == Unlines(lines) + "";
    SplitUnlines(lines, "");
  }

  lemma FirstLineNotBlank(s: string)
    requires s != "" && !IsSpace(s[0])
    ensures SplitLines(s) != [] && Strip(SplitLines(s)[0]) != ""
  {
    NotBlank(SplitLines(s)[0]);
  }

  lemma ParseBodyText(subject: string, sections: seq<Section>)
    requires GoodSubject(subject) && GoodSections(sections) && sections != []
    ensures ParseBody(BodyText(subject, sections)) == Ok((subject, sections))
  {
    var before := SplitLines(subject) + [""];
    var lines := before + Body(sections);
    LinesOfBodyText(subject, sections);
    FirstLineNotBlank(subject);
    assert SkipBlank(lines) == lines;
    HeadingLine(sections[0].title);
    SubjectEnds(before, Body(sections));
    assert lines[..|before|] == before && lines[|before|..] == Body(sections);
    LinesOfText(subject);
    JoinUnlines(before);
    UnlinesAppend(SplitLines(subject), [""]);
    assert Join(before) == (Join(before) + "\n")[..|subject| + 1] == subject + "\n";
    StripOfPadded('\n', subject);
    TrimStrips(subject);
    SectionsOfBody(sections, {});
  }

  // --- the front matter ----------------------------------------------------------

  /** The three lines between the fences, and the text they make. */
  function MetaText(e: ReleaseEntry): string {
    Lines3(Line(KEY_CRATE, e.crate), Line(KEY_DATE, e.date), Line(KEY_VERSION, e.version))
  }

  function Line(key: string, value: string): string {
    key + ": " + value
  }

  function Lines3(a: string, b: string, c: string): string {
    a + "\n" + b + "\n" + c
  }

  function MetaOf(e: ReleaseEntry): map<string, string> {
    map[KEY_CRATE := e.crate, KEY_DATE := e.date, KEY_VERSION := e.version]
  }

  /** A value that front matter gives back as it is. */
  predicate PlainValue(s: string) {
    s != "" && forall c <- s :: !IsSpace(c) && c != '"'
  }

  lemma PlainValueKept(s: string)
    requires PlainValue(s)
    ensures Strip(s) == s && Strip(" " + s) == s && StripQuotes(s) == s && NoBreaks(s)
  {
    TrimStrips(s);
    StripOfPadded(' ', s);
  }

  predicate PlainKey(s: string) {
    s != "" && forall c <- s :: !IsSpace(c) && c != ':'
  }

  lemma KeysArePlain()
    ensures PlainKey(KEY_CRATE) && PlainKey(KEY_DATE) && PlainKey(KEY_VERSION)
  {
    LettersArePlain(KEY_CRATE);
    LettersArePlain(KEY_DATE);
    LettersArePlain(KEY_VERSION);
  }

  lemma LettersArePlain(s: string)
    requires s != "" && forall i | 0 <= i < |s| :: IsLower(s[i]) || s[i] == '_'
    ensures PlainKey(s)
  {
  }

  lemma ColonFound(key: string, value: string)
    requires PlainKey(key)
    ensures Find(Line(key, value), ":", 0) == Some(|key|)
  {
    var line := Line(key, value);
    forall j | 0 <= j < |key| ensures !At(line, ":", j) {
      assert line[j..j + 1][0] == key[j] && key[j] in key;
    }
    assert At(line, ":", |key|);
    FindFirst(line, ":", 0, |key|);
  }

  lemma KeyValueLine(key: string, value: string)
    requires PlainKey(key) && PlainValue(value)
    ensures KeyValue(Line(key, value)) == Ok((key, value))
    ensures Strip(Line(key, value)) != "" && NoBreaks(Line(key, value))
  {
    var line := Line(key, value);
    ColonFound(key, value);
    assert line[..|key|] == key && line[|key| + 1..] == " " + value;
    TrimStrips(key);
    PlainValueKept(value);
    NotBlank(line);
  }

  lemma ThreeLines(a: string, b: string, c: string)
    requires NoBreaks(a) && NoBreaks(b) && NoBreaks(c) && c != ""
    ensures SplitLines(Lines3(a, b, c)) == [a, b, c]
  {
    SplitLastLine(c);
    UnlinesOfTwo(a, b, c);
    SplitUnlines([a, b], c);
    assert [a, b] + [c] == [a, b, c];
  }

  lemma UnlinesOfTwo(a: string, b: string, c: string)
    ensures Unlines([a, b]) + c == Lines3(a, b, c)
  {
    assert [a, b][1..] == [b];
    UnlinesOne(b);
    assert a + "\n" + (b + "\n") == a + "\n" + b + "\n";
  }

  lemma MetaOfLine(key: string, value: string, rest: seq<string>, data: map<string, string>)
    requires PlainKey(key) && PlainValue(value)
    ensures Meta([Line(key, value)] + rest, data) == Meta(rest, data[key := value])
  {
    KeyValueLine(key, value);
    assert ([Line(key, value)] + rest)[1..] == rest;
  }

  ghost predicate PlainIdentity(e: ReleaseEntry) {
    PlainValue(e.crate) && PlainValue(e.date) && PlainValue(e.version)
  }

  lemma MetaOfThree(k1: string, v1: string, k2: string, v2: string, k3: string, v3: string)
    requires PlainKey(k1) && PlainKey(k2) && PlainKey(k3)
    requires PlainValue(v1) && PlainValue(v2) && PlainValue(v3)
    ensures Meta(SplitLines(Lines3(Line(k1, v1), Line(k2, v2), Line(k3, v3))), map[]) ==
            Ok(map[k1 := v1, k2 := v2, k3 := v3])
  {
    var a, b, c := Line(k1, v1), Line(k2, v2), Line(k3, v3);
    KeyValueLine(k1, v1);
    KeyValueLine(k2, v2);
    KeyValueLine(k3, v3);
    ThreeLines(a, b, c);
    MetaOfLines(k1, v1, k2, v2, k3, v3);
    assert [a, b, c] == [a] + ([b] + ([c] + []));
  }

  lemma MetaOfLines(k1: string, v1: string, k2: string, v2: string, k3: string, v3: string)
    requires PlainKey(k1) && PlainKey(k2) && PlainKey(k3)
    requires PlainValue(v1) && PlainValue(v2) && PlainValue(v3)
    ensures Meta([Line(k1, v1)] + ([Line(k2, v2)] + ([Line(k3, v3)] + [])), map[]) ==
            Ok(map[k1 := v1, k2 := v2, k3 := v3])
  {
    MetaOfLine(k1, v1, [Line(k2, v2)] + ([Line(k3, v3)] + []), map[]);
    MetaOfLine(k2, v2, [Line(k3, v3)] + [], map[k1 := v1]);
    MetaOfLine(k3, v3, [], map[k1 := v1, k2 := v2]);
  }

  /** No line after the first starts with a dash. */
  lemma NoFenceInside(a: string, b: string, c: string, i: nat)
    requires NoBreaks(a) && NoBreaks(b) && NoBreaks(c)
    requires b != "" && b[0] != '-' && c != "" && c[0] != '-'
    requires i < |Lines3(a, b, c)| && Lines3(a, b, c)[i] == '\n'
    ensures i + 1 < |Lines3(a, b, c)| && Lines3(a, b, c)[i + 1] != '-'
  {
    CharOfLines(a, b, c, i);
    assert '\n' !in a && '\n' !in b && '\n' !in c;
  }

  lemma CharOfLines(a: string, b: string, c: string, i: nat)
    requires i < |Lines3(a, b, c)|
    ensures var s := Lines3(a, b, c);
            && (i < |a| ==> s[i] in a)
            && (|a| < i < |a| + 1 + |b| ==> s[i] in b)
            && (i > |a| + 1 + |b| ==> s[i] in c)
  {
  }

  function Fenced(meta: string, body: string): string {
    "---\n" + meta + "\n---\n" + "\n" + body
  }

  lemma AtStart(s: string, p: string, i: nat)
    requires |p| >= 2
    ensures At(s, p, i) ==> i + 1 < |s| && s[i] == p[0] && s[i + 1] == p[1]
  {
    if At(s, p, i) {
      assert s[i] == s[i..i + |p|][0] && s[i + 1] == s[i..i + |p|][1];
    }
  }

  lemma FenceFound(meta: string, body: string)
    requires forall i | 0 <= i < |meta| && meta[i] == '\n' :: i + 1 < |meta| && meta[i + 1] != '-'
    ensures Find(Fenced(meta, body), "\n---\n", 4) == Some(4 + |meta|)
  {
    var text, fence := Fenced(meta, body), "\n---\n";
    var k := 4 + |meta|;
    assert text[k..k + 5] == fence;
    forall j | 4 <= j < k ensures !At(text, fence, j) {
      assert text[j] == meta[j - 4];
      assert text[j] == '\n' ==> text[j + 1] == meta[j - 3];
      AtStart(text, fence, j);
    }
    FindFirst(text, fence, 4, k);
  }

  lemma NoFenceInMeta(e: ReleaseEntry, i: nat)
    requires PlainIdentity(e) && i < |MetaText(e)| && MetaText(e)[i] == '\n'
    ensures i + 1 < |MetaText(e)| && MetaText(e)[i + 1] != '-'
  {
    var a, b, c := Line(KEY_CRATE, e.crate), Line(KEY_DATE, e.date), Line(KEY_VERSION, e.version);
    KeysArePlain();
    KeyValueLine(KEY_CRATE, e.crate);
    KeyValueLine(KEY_DATE, e.date);
    KeyValueLine(KEY_VERSION, e.version);
    NoFenceInside(a, b, c, i);
  }

  lemma FrontMatterOfFenced(meta: string, data: map<string, string>, body: string)
    requires forall i | 0 <= i < |meta| && meta[i] == '\n' :: i + 1 < |meta| && meta[i + 1] != '-'
    requires Meta(SplitLines(meta), map[]) == Ok(data)
    requires body != "" && body[0] != '\n'
    ensures SplitFrontMatter(Fenced(meta, body)) == Ok((data, body))
  {
    FenceFound(meta, body);
    FencedParts(meta, body);
    StripOneNewline(body);
  }

  lemma FencedParts(meta: string, body: string)
    ensures var text := Fenced(meta, body);
            && "---\n" <= text && text[4..4 + |meta|] == meta
            && text[4 + |meta| + 5..] == "\n" + body
  {
    var text := Fenced(meta, body);
    assert text[4..4 + |meta|] == meta;
    assert text[4 + |meta| + 5..] == "\n" + body;
  }

  lemma StripOneNewline(body: string)
    requires body != "" && body[0] != '\n'
    ensures LStripNewlines("\n" + body) == body
  {
    assert ("\n" + body)[1..] == body;
  }

  lemma FrontMatterOfText(e: ReleaseEntry, body: string)
    requires PlainIdentity(e) && body != "" && body[0] != '\n'
    ensures SplitFrontMatter(Fenced(MetaText(e), body)) == Ok((MetaOf(e), body))
  {
    var meta := MetaText(e);
    forall i | 0 <= i < |meta| && meta[i] == '\n' ensures i + 1 < |meta| && meta[i + 1] != '-' {
      NoFenceInMeta(e, i);
    }
    KeysArePlain();
    MetaOfThree(KEY_CRATE, e.crate, KEY_DATE, e.date, KEY_VERSION, e.version);
    FrontMatterOfFenced(meta, MetaOf(e), body);
  }

  // --- the identity --------------------------------------------------------------

  lemma VersionIsPlain(version: string)
    requires NormalizeVersion(version) == Ok(version)
    ensures PlainValue(version) && |version| >= 2 && version[0] == 'v'
  {
    var core := VersionCore(version);
    forall c <- version ensures !IsSpace(c) && c != '"' {
      assert c == 'v' || c in core;
    }
  }

  lemma DateIsPlain(date: string)
    requires DateText(date)
    ensures PlainValue(date)
  {
  }

  lemma CrateIsPlain(crate: string)
    requires crate == SYS || crate == MAIN
    ensures PlainValue(crate)
  {
    assert forall i | 0 <= i < |crate| :: IsLower(crate[i]) || crate[i] == '-';
  }

  lemma TagParts(e: ReleaseEntry)
    requires e.crate == SYS || e.crate == MAIN
    requires |e.version| >= 2 && e.version[0] == 'v'
    ensures var n := |e.crate|;
            Tag(e)[n + 1..] == e.version && Tag(e)[n + 2..] == e.version[1..]
    ensures SYS + "-v" <= Tag(e) <==> e.crate == SYS
    ensures MAIN + "-v" <= Tag(e) <==> e.crate == MAIN
  {
    var tag := Tag(e);
    assert tag[..|e.crate| + 2] == e.crate + "-v";
    if e.crate == MAIN {
      assert tag[8] == 'v' && (SYS + "-v")[8] == 's';
    } else {
      assert tag[8] == 's' && (MAIN + "-v")[8] == 'v';
    }
  }

  /** A tag names its own crate, though one crate's name begins the other's. */
  lemma TagRoundTrip(e: ReleaseEntry)
    requires (e.crate == SYS || e.crate == MAIN) && NormalizeVersion(e.version) == Ok(e.version)
    ensures SplitTag(Tag(e)) == Ok((e.crate, e.version))
  {
    VersionIsPlain(e.version);
    TagParts(e);
  }

  lemma IdentityOfMeta(e: ReleaseEntry, expected: Option<string>, pads: bool)
    requires ReadEntry(e) && (expected == None || expected == Some(Tag(e)))
    ensures Identity(MetaOf(e), expected, pads) ==
            if IsIsoDate(e.date) then Ok((e.crate, e.version, e.date)) else Err(BadDate)
  {
    CrateIsPlain(e.crate);
    PlainValueKept(e.crate);
    DateIsPlain(e.date);
    DateTextThroughIso(e.date, pads);
    TagRoundTrip(e);
    MetaByKey(e);
    ExpectedIsMet(e, expected);
  }

  lemma MetaByKey(e: ReleaseEntry)
    ensures MetaOf(e).Keys == KEYS
    ensures MetaOf(e)[KEY_CRATE] == e.crate && MetaOf(e)[KEY_DATE] == e.date && MetaOf(e)[KEY_VERSION] == e.version
  {
    assert |KEY_CRATE| == 13 && |KEY_DATE| == 12 && |KEY_VERSION| == 15;
  }

  lemma ExpectedIsMet(e: ReleaseEntry, expected: Option<string>)
    requires expected == None || expected == Some(Tag(e))
    requires SplitTag(Tag(e)) == Ok((e.crate, e.version))
    ensures Expected(expected, e.crate, e.version) == Ok(())
  {
  }

  // --- the text ------------------------------------------------------------------

  /** What `Render` prints, in the parts the parser takes it apart into. */
  lemma RenderedText(e: ReleaseEntry)
    requires ReadEntry(e)
    ensures Render(e) == Fenced(MetaText(e), BodyText(e.subject, e.sections))
  {
    var parts := Head(e) + [Strip(e.subject), ""] + Blocks(e.sections);
    var text := Fenced(MetaText(e), BodyText(e.subject, e.sections));
    TrimStrips(e.subject);
    BlocksAreBody(e.sections);
    var lines := Head(e) + [e.subject, ""] + Body(e.sections);
    assert parts == lines + [""];
    JoinWithBlank(lines);
    UnlinesOfLines(e);
    LastLineEnds(e.sections);
    RStripOneNewline(text);
  }

  lemma JoinWithBlank(lines: seq<string>)
    ensures Join(lines + [""]) == Unlines(lines)
  {
    var parts := lines + [""];
    JoinUnlines(parts);
    UnlinesAppend(lines, [""]);
    assert Unlines([""]) == "\n";
    assert Join(parts) == (Join(parts) + "\n")[..|Join(parts)|] == Unlines(lines);
  }

  lemma UnlinesOfLines(e: ReleaseEntry)
    ensures Unlines(Head(e) + [e.subject, ""] + Body(e.sections)) ==
            Fenced(MetaText(e), BodyText(e.subject, e.sections))
  {
    UnlinesAppend(Head(e) + [e.subject, ""], Body(e.sections));
    UnlinesAppend(Head(e), [e.subject, ""]);
    assert Unlines([e.subject, ""]) == e.subject + "\n" + "\n" by {
      assert [e.subject, ""][1..] == [""];
      assert Unlines([""]) == "\n";
    }
    UnlinesOfHead(e);
  }

  lemma UnlinesOfHead(e: ReleaseEntry)
    ensures Unlines(Head(e)) == "---\n" + MetaText(e) + "\n---\n" + "\n"
  {
    var a, b, c := Line(KEY_CRATE, e.crate), Line(KEY_DATE, e.date), Line(KEY_VERSION, e.version);
    UnlinesOfThree("---", a, b);
    UnlinesOfThree(c, "---", "");
    UnlinesAppend(["---", a, b], [c, "---", ""]);
    assert Head(e) == ["---", a, b] + [c, "---", ""];
    HeadText(a, b, c);
  }

  lemma HeadText(a: string, b: string, c: string)
    ensures ("---" + "\n" + a + "\n" + b + "\n") + (c + "\n" + "---" + "\n" + "" + "\n") ==
            "---\n" + Lines3(a, b, c) + "\n---\n" + "\n"
  {
    assert "---" + "\n" == "---\n" && "\n" + "---" + "\n" == "\n---\n";
    assert c + "\n" + "---" + "\n" + "" + "\n" == c + "\n---\n" + "\n";
  }

  lemma UnlinesOfThree(a: string, b: string, c: string)
    ensures Unlines([a, b, c]) == a + "\n" + b + "\n" + c + "\n"
  {
    UnlinesOne(a);
    UnlinesOne(b);
    UnlinesOne(c);
    UnlinesAppend([a], [b]);
    UnlinesAppend([a] + [b], [c]);
    assert [a] + [b] + [c] == [a, b, c];
  }

  lemma UnlinesOne(l: string)
    ensures Unlines([l]) == l + "\n"
  {
    assert [l][1..] == [];
  }

  /** The text of the sections ends in a line feed after a bullet. */
  lemma {:induction false} LastLineEnds(sections: seq<Section>)
    requires sections != [] && GoodSections(sections)
    ensures var t := Unlines(Body(sections)); |t| >= 2 && t[|t| - 1] == '\n' && !IsSpace(t[|t| - 2])
  {
    if |sections| == 1 {
      var items := sections[0].items;
      UnlinesAppend(["## " + sections[0].title, ""], Bullets(items));
      LastBulletEnds(items);
    } else {
      LastLineEnds(sections[1..]);
      UnlinesAppend(Block(sections[0]), Body(sections[1..]));
    }
  }

  lemma {:induction false} LastBulletEnds(items: seq<string>)
    requires items != [] && forall item <- items :: GoodItem(item)
    ensures var t := Unlines(Bullets(items)); |t| >= 2 && t[|t| - 1] == '\n' && !IsSpace(t[|t| - 2])
  {
    if |items| == 1 {
      assert Bullets(items) == ["- " + items[0]];
      UnlinesOne("- " + items[0]);
      assert GoodItem(items[0]);
      var t := "- " + items[0] + "\n";
      assert t[|t| - 2] == items[0][|items[0]| - 1];
    } else {
      LastBulletEnds(items[1..]);
      UnlinesAppend(["- " + items[0]], Bullets(items[1..]));
    }
  }

  lemma RStripOneNewline(t: string)
    requires |t| >= 2 && t[|t| - 1] == '\n' && !IsSpace(t[|t| - 2])
    ensures RStrip(t) + "\n" == t
  {
    var front := t[..|t| - 1];
    assert front[|front| - 1] == t[|t| - 2];
    assert RStrip(front) == front;
    assert front + "\n" == t;
  }

  // --- the law -------------------------------------------------------------------

  /** What reading back the text of `e` gives: a text with a TODO marker is
      refused, and so is a date of a year that the platform did not pad. */
  function Reread(e: ReleaseEntry): Parsed<ReleaseEntry> {
    if Find(Render(e), "## TODO", 0).Some? then Err(TodoMarkers)
    else if !IsIsoDate(e.date) then Err(BadDate)
    else Ok(e)
  }

  lemma ParseOfPrinted(e: ReleaseEntry, expected: Option<string>, pads: bool)
    requires ReadEntry(e) && (expected == None || expected == Some(Tag(e)))
    ensures Parse(Render(e), expected, pads) == Reread(e)
  {
    var body := BodyText(e.subject, e.sections);
    RenderedText(e);
    CrateIsPlain(e.crate);
    DateIsPlain(e.date);
    VersionIsPlain(e.version);
    assert body[0] == e.subject[0];
    FrontMatterOfText(e, body);
    IdentityOfMeta(e, expected, pads);
    ParseBodyText(e.subject, e.sections);
  }

  /** Reading back the text of a well-formed entry gives that entry, whether or
      not its tag is asked for, unless the text has a TODO marker; then it is
      refused. */
  lemma ParseOfRender(e: ReleaseEntry, expected: Option<string>, pads: bool)
    requires GoodEntry(e) && (expected == None || expected == Some(Tag(e)))
    ensures Parse(Render(e), expected, pads) ==
            if Find(Render(e), "## TODO", 0).Some? then Err(TodoMarkers) else Ok(e)
  {
    ParseOfPrinted(e, expected, pads);
  }

  lemma FileTagOfPathName(e: ReleaseEntry)
    requires GoodEntry(e)
    ensures FileTag(PathName(e)) == Ok(Tag(e))
  {
    VersionIsPlain(e.version);
    TagParts(e);
    StemOfPathName(e);
    assert e.version[1..] == VersionCore(e.version);
  }

  lemma StemOfPathName(e: ReleaseEntry)
    ensures var name := PathName(e);
            |name| >= 3 && name[|name| - 3..] == ".md" && name[..|name| - 3] == Tag(e)
  {
  }

  /** A well-formed entry, printed to the file named after it, validates. */
  lemma ValidateOfRender(e: ReleaseEntry, pads: bool)
    requires GoodEntry(e) && Find(Render(e), "## TODO", 0).None?
    ensures Validate(PathName(e), Render(e), None, pads) == Ok(e)
  {
    FileTagOfPathName(e);
    ParseOfRender(e, Some(Tag(e)), pads);
  }

  /** Joining a wrapped bullet can make a TODO marker no line has. */
  lemma JoiningMakesMarker()
    ensures Items(["- a ##", " TODO"], []) == Ok((["a ## TODO"], []))
    ensures Find("- a ##", "## TODO", 0) == None && Find(" TODO", "## TODO", 0) == None
    ensures At("- a ## TODO", "## TODO", 4)
  {
    assert |"- a ##"| == 6 && |" TODO"| == 5 && |"## TODO"| == 7;
    ItemsOfBullet("a ##", [], [" TODO"]);
    assert ["- a ##"] + [" TODO"] == ["- a ##", " TODO"];
    assert [] + ["a ##"] == ["a ##"];
    TodoStripped();
    assert "a ##" + " " + "TODO" == "a ## TODO";
    WrappedItem("a ##", " TODO");
  }

  lemma TodoStripped()
    ensures Strip(" TODO") == "TODO"
  {
    StripOfPadded(' ', "TODO");
    TrimStrips("TODO");
    assert [' '] + "TODO" == " TODO";
  }

  lemma WrappedItem(item: string, line: string)
    requires line != "" && IsSpace(line[0]) && Strip(line) != ""
    requires Heading(Strip(line)).None? && Bullet(Strip(line)).None?
    ensures Items([line], [item]) == Ok(([item + " " + Strip(line)], []))
  {
    assert [line][1..] == [];
    assert [item][0 := item + " " + Strip(line)] == [item + " " + Strip(line)];
  }
}
