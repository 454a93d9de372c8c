/** The parser and printer as their source has them: loops that move an index
    over the lines, collect items and append parts. */
module ChangelogTool {
  import opened Wrappers
  import opened Text
  import opened Changelog
  import opened ChangelogRoundTrip

  method ReadFrontMatter(text: string) returns (r: Parsed<(map<string, string>, string)>)
    ensures r == SplitFrontMatter(text)
  {
    if !("---\n" <= text) {
      return Err(NoFrontMatter);
    }
    var found := Find(text, "\n---\n", 4);
    if found.None? {
      return Err(UnterminatedFrontMatter);
    }
    var end := found.value;
    FindAt(text, "\n---\n", 4);
    var lines := SplitLines(text[4..end]);
    var data: map<string, string> := map[];
    var i := 0;
    while i < |lines|
      invariant i <= |lines| && Meta(lines, map[]) == Meta(lines[i..], data)
    {
      assert lines[i..][1..] == lines[i + 1..];
      if Strip(lines[i]) != "" {
        var kv := KeyValue(lines[i]);
        if kv.Err? {
          return Err(kv.error);
        }
        data := data[kv.value.0 := kv.value.1];
      }
      i := i + 1;
    }
    return Ok((data, LStripNewlines(text[end + 5..])));
  }

  /** The items of the section whose heading is before line `start`. */
  method ReadItems(lines: seq<string>, start: nat) returns (r: Parsed<seq<string>>, i: nat)
    requires start <= |lines|
    ensures start <= i <= |lines|
    ensures match Items(lines[start..], [])
            case Err(e) => r == Err(e)
            case Ok((items, rest)) => r == Ok(items) && rest == lines[i..]
  {
    i := start;
    var items: seq<string> := [];
    while i < |lines|
      invariant start <= i <= |lines|
      invariant Items(lines[start..], []) == Items(lines[i..], items)
    {
      assert lines[i..][1..] == lines[i + 1..];
      var stripped := Strip(lines[i]);
      if stripped == "" {
        i := i + 1;
        if items != [] {
          return Ok(items), i;
        }
      } else if Heading(stripped).Some? {
        return Ok(items), i;
      } else {
        var bullet := Bullet(stripped);
        if bullet.Some? {
          items := items + [bullet.value];
        } else if items != [] && IsSpace(lines[i][0]) {
          items := items[|items| - 1 := items[|items| - 1] + " " + stripped];
        } else {
          return Err(NotABullet), i;
        }
        i := i + 1;
      }
    }
    return Ok(items), i;
  }

  /** The section whose heading is line `start`, and the line after it. */
  method ReadSection(lines: seq<string>, start: nat, seen: set<string>)
    returns (r: Parsed<Section>, i: nat)
    requires start < |lines|
    ensures start <= i <= |lines| && (r.Ok? ==> start < i)
    ensures match OneSection(lines[start..], seen)
            case Err(e) => r == Err(e)
            case Ok((section, rest)) => r == Ok(section) && rest == lines[i..]
  {
    i := start;
    assert lines[start..][1..] == lines[start + 1..];
    var title := Heading(Strip(lines[i]));
    if title.None? {
      return Err(BadHeading), i;
    }
    if title.value in seen {
      return Err(RepeatedSection), i;
    }
    var items;
    items, i := ReadItems(lines, i + 1);
    if items.Err? {
      return Err(items.error), i;
    }
    if items.value == [] {
      return Err(EmptySection), i;
    }
    return Ok(Section(title.value, items.value)), i;
  }

  /** `sections` read so far, then what the rest gives. */
  function After(sections: seq<Section>, rest: Parsed<seq<Section>>): Parsed<seq<Section>> {
    match rest
    case Err(e) => Err(e)
    case Ok(more) => Ok(sections + more)
  }

  method ReadSections(lines: seq<string>, start: nat) returns (r: Parsed<seq<Section>>)
    requires start <= |lines|
    ensures r == Sections(lines[start..], {})
  {
    var i := start;
    var sections: seq<Section> := [];
    var seen: set<string> := {};
    AfterNone(Sections(lines[start..], {}));
    while i < |lines|
      invariant start <= i <= |lines|
      invariant Sections(lines[start..], {}) == After(sections, Sections(lines[i..], seen))
    {
      i := SkipBlankLines(lines, i);
      if i >= |lines| {
        assert sections + [] == sections;
        return Ok(sections);
      }
      var section;
      section, i := ReadSection(lines, i, seen);
      if section.Err? {
        return Err(section.error);
      }
      ghost var before := sections;
      seen := seen + {section.value.title};
      sections := sections + [section.value];
      AfterOne(before, section.value, Sections(lines[i..], seen));
    }
    assert sections + [] == sections;
    return Ok(sections);
  }

  lemma AfterNone(rest: Parsed<seq<Section>>)
    ensures After([], rest) == rest
  {
    match rest
    case Err(_) =>
    case Ok(more) => assert [] + more == more;
  }

  lemma AfterOne(sections: seq<Section>, s: Section, rest: Parsed<seq<Section>>)
    ensures After(sections + [s], rest) ==
            After(sections, match rest case Err(e) => Err(e) case Ok(more) => Ok([s] + more))
  {
    match rest
    case Err(_) =>
    case Ok(more) => assert sections + [s] + more == sections + ([s] + more);
  }

  method SkipBlankLines(lines: seq<string>, start: nat) returns (i: nat)
    requires start <= |lines|
    ensures start <= i <= |lines| && lines[i..] == SkipBlank(lines[start..])
  {
    i := start;
    while i < |lines| && Strip(lines[i]) == ""
      invariant start <= i <= |lines| && SkipBlank(lines[start..]) == SkipBlank(lines[i..])
    {
      assert lines[i..][1..] == lines[i + 1..];
      i := i + 1;
    }
  }

  /** The lines from `start` to the first heading, and where that is. */
  method ReadSubject(lines: seq<string>, start: nat) returns (subjectLines: seq<string>, i: nat)
    requires start <= |lines|
    ensures i == start + SubjectLength(lines[start..])
    ensures subjectLines == lines[start..][..i - start] && lines[i..] == lines[start..][i - start..]
  {
    i := start;
    subjectLines := [];
    while i < |lines| && Heading(Strip(lines[i])).None?
      invariant start <= i <= |lines| && subjectLines == lines[start..i]
      invariant SubjectLength(lines[start..]) == i - start + SubjectLength(lines[i..])
    {
      assert lines[i..][1..] == lines[i + 1..];
      subjectLines := subjectLines + [lines[i]];
      i := i + 1;
    }
  }

  method ReadLines(lines: seq<string>, start: nat) returns (r: Parsed<(string, seq<Section>)>)
    requires start <= |lines|
    ensures r == ParseLines(lines[start..])
  {
    var subjectLines, i := ReadSubject(lines, start);
    var subject := Strip(Join(subjectLines));
    if subject == "" {
      return Err(NoSubject);
    }
    var sections := ReadSections(lines, i);
    if sections.Err? {
      return Err(sections.error);
    }
    if sections.value == [] {
      return Err(NoSections);
    }
    return Ok((subject, sections.value));
  }

  method ReadBody(body: string) returns (r: Parsed<(string, seq<Section>)>)
    ensures r == ParseBody(body)
  {
    var lines := SplitLines(body);
    var i := SkipBlankLines(lines, 0);
    assert lines[0..] == lines;
    r := ReadLines(lines, i);
  }

  method ParseMarkdownRelease(text: string, expected: Option<string>, pads: bool)
    returns (r: Parsed<ReleaseEntry>)
    ensures r == Parse(text, expected, pads)
  {
    if Find(text, "## TODO", 0).Some? {
      return Err(TodoMarkers);
    }
    var front := ReadFrontMatter(text);
    if front.Err? {
      return Err(front.error);
    }
    var (meta, body) := front.value;
    var identity := Identity(meta, expected, pads);
    if identity.Err? {
      return Err(identity.error);
    }
    var (crate, version, date) := identity.value;
    var parsed := ReadBody(body);
    if parsed.Err? {
      return Err(parsed.error);
    }
    return Ok(ReleaseEntry(crate, version, date, parsed.value.0, parsed.value.1));
  }

  lemma OneBlockMore(parts: seq<string>, sections: seq<Section>, i: nat)
    requires i < |sections|
    ensures parts + Block(sections[i]) + Blocks(sections[i + 1..]) == parts + Blocks(sections[i..])
  {
    assert sections[i..][1..] == sections[i + 1..];
  }

  method RenderRelease(e: ReleaseEntry) returns (text: string)
    ensures text == Render(e)
  {
    var parts := Head(e) + [Strip(e.subject), ""];
    var i := 0;
    while i < |e.sections|
      invariant i <= |e.sections|
      invariant parts + Blocks(e.sections[i..]) == Head(e) + [Strip(e.subject), ""] + Blocks(e.sections)
    {
      ghost var before := parts;
      var section := e.sections[i];
      parts := parts + ["## " + section.title] + [""];
      ghost var heading := parts;
      var j := 0;
      while j < |section.items|
        invariant j <= |section.items|
        invariant parts + Bullets(section.items[j..]) == heading + Bullets(section.items)
      {
        assert section.items[j..][1..] == section.items[j + 1..];
        parts := parts + ["- " + section.items[j]];
        j := j + 1;
      }
      assert parts == heading + Bullets(section.items);
      parts := parts + [""];
      assert parts == before + Block(section);
      OneBlockMore(before, e.sections, i);
      i := i + 1;
    }
    assert parts == parts + Blocks(e.sections[i..]);
    text := RStrip(Join(parts)) + "\n";
  }
}
