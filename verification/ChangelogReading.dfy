/** Which texts are release files, and the entry each one is for: the parser gives
    exactly that entry, or refuses. */
module ChangelogReading {
  import opened Wrappers
  import opened Text
  import opened Dates
  import opened Changelog
  import opened ChangelogRoundTrip
  import opened ChangelogAccepted
  import opened ChangelogGrammar
  import opened ChangelogMarkers
  import opened ChangelogVersions

  // --- lines of the front matter ---------------------------------------------------------

  lemma {:induction false} LQuotesCut(s: string) returns (i: nat)
    ensures i <= |s| && LStripQuotes(s) == s[i..] && (forall k | 0 <= k < i :: s[k] == '"')
    ensures i < |s| ==> s[i] != '"'
  {
    i := 0;
    if s != "" && s[0] == '"' {
      i := LQuotesCut(s[1..]);
      assert s[1..][i..] == s[i + 1..];
      i := i + 1;
    }
  }

  lemma {:induction false} RQuotesCut(s: string)
    ensures RStripQuotes(s) <= s && forall k | |RStripQuotes(s)| <= k < |s| :: s[k] == '"'
    ensures RStripQuotes(s) != "" ==> RStripQuotes(s)[|RStripQuotes(s)| - 1] != '"'
  {
    if s != "" && s[|s| - 1] == '"' {
      RQuotesCut(s[..|s| - 1]);
    }
  }

  /** Only double quotes are cut off, and all there are at either end. */
  lemma QuotesCut(s: string) returns (i: nat, j: nat)
    ensures i <= j <= |s| && StripQuotes(s) == s[i..j]
    ensures forall k | 0 <= k < i || j <= k < |s| :: s[k] == '"'
    ensures i < j ==> s[i] != '"' && s[j - 1] != '"'
  {
    i := LQuotesCut(s);
    RQuotesCut(s[i..]);
    j := i + |RStripQuotes(s[i..])|;
    assert s[i..][..j - i] == s[i..j];
    forall k | j <= k < |s|
      ensures s[k] == '"'
    {
      assert s[k] == s[i..][k - i];
    }
  }

  /** A line is a key, a colon and a value: the first colon divides them. */
  lemma KeyValueIs(key: string, value: string)
    requires ':' !in key
    ensures KeyValue(key + ":" + value) == Ok((Strip(key), StripQuotes(Strip(value))))
  {
    var line := key + ":" + value;
    assert line[|key|..|key| + 1] == ":";
    forall j | 0 <= j < |key|
      ensures !At(line, ":", j)
    {
      assert line[j..j + 1][0] == key[j] && key[j] in key;
    }
    FindFirst(line, ":", 0, |key|);
    assert line[..|key|] == key && line[|key| + 1..] == value;
  }

  lemma NoKeyWithoutColon(line: string)
    ensures KeyValue(line).Err? <==> ':' !in line
    ensures KeyValue(line).Err? ==> KeyValue(line).error == BadFrontMatterLine
  {
    FindAt(line, ":", 0);
    if ':' in line {
      var i :| 0 <= i < |line| && line[i] == ':';
      assert line[i..i + 1] == ":";
      FindSome(line, ":", 0, i);
    }
    if KeyValue(line).Ok? {
      var i := Find(line, ":", 0).value;
      assert line[i] == line[i..i + 1][0];
    }
  }

  /** The value on the last line that has this key, if any line has it. */
  function LastValue(lines: seq<string>, key: string): Option<string> {
    if lines == [] then None
    else
      var last := lines[|lines| - 1];
      if Strip(last) != "" && KeyValue(last).Ok? && KeyValue(last).value.0 == key
      then Some(KeyValue(last).value.1)
      else LastValue(lines[..|lines| - 1], key)
  }

  lemma {:induction false} LastOfMore(lines: seq<string>, key: string)
    requires lines != []
    ensures LastValue(lines, key) ==
            if LastValue(lines[1..], key).Some? then LastValue(lines[1..], key) else LastValue(lines[..1], key)
    decreases |lines|
  {
    if |lines| > 1 {
      var n := |lines| - 1;
      assert lines[1..][|lines| - 2] == lines[n];
      assert lines[..n][1..] == lines[1..][..n - 1] && lines[..n][..1] == lines[..1];
      LastOfMore(lines[..n], key);
    } else {
      assert lines[..1] == lines;
    }
  }

  predicate IsField(line: string) {
    Strip(line) == "" || ':' in line
  }

  /** The front matter is read exactly if each line that is not blank has a colon; and
      then each key has its last value. */
  lemma {:induction false} MetaIs(lines: seq<string>, data: map<string, string>)
    ensures match Meta(lines, data)
            case Ok(got) =>
              && (forall l <- lines :: IsField(l))
              && forall key: string ::
                   Lookup(got, key) ==
                   if LastValue(lines, key).Some? then LastValue(lines, key) else Lookup(data, key)
            case Err(e) => e == BadFrontMatterLine && exists l <- lines :: !IsField(l)
    decreases |lines|
  {
    if lines != [] {
      NoKeyWithoutColon(lines[0]);
      if IsField(lines[0]) {
        MetaOfFirst(lines, data);
      } else {
        assert lines[0] in lines;
      }
    }
  }

  lemma MetaOfFirst(lines: seq<string>, data: map<string, string>)
    requires lines != [] && IsField(lines[0])
    ensures match Meta(lines, data)
            case Ok(got) =>
              && (forall l <- lines :: IsField(l))
              && forall key: string ::
                   Lookup(got, key) ==
                   if LastValue(lines, key).Some? then LastValue(lines, key) else Lookup(data, key)
            case Err(e) => e == BadFrontMatterLine && exists l <- lines :: !IsField(l)
    decreases |lines|, 0
  {
    NoKeyWithoutColon(lines[0]);
    var now := if Strip(lines[0]) == "" then data else data[KeyValue(lines[0]).value.0 := KeyValue(lines[0]).value.1];
    MetaIs(lines[1..], now);
    match Meta(lines[1..], now)
    case Ok(got) =>
      forall key: string
        ensures Lookup(got, key) ==
                if LastValue(lines, key).Some? then LastValue(lines, key) else Lookup(data, key)
      {
        LastOfMore(lines, key);
        assert lines[..1] == [lines[0]] && [lines[0]][..0] == [];
      }
    case Err(_) =>
      var l :| l in lines[1..] && !IsField(l);
      assert l in lines;
  }

  // --- the front matter -------------------------------------------------------------------

  const FENCE := "\n---\n"

  /** The text starts with a fence, and the next one is right after `front`. */
  ghost predicate Opens(text: string, front: string, rest: string) {
    && text == "---\n" + front + FENCE + rest
    && forall j | 4 <= j < 4 + |front| :: !At(text, FENCE, j)
  }

  lemma {:induction false} FoundFirst(s: string, p: string, i: nat)
    ensures match Find(s, p, i)
            case Some(k) => i <= k && At(s, p, k) && forall j | i <= j < k :: !At(s, p, j)
            case None => forall j | i <= j :: !At(s, p, j)
    decreases |s| - i
  {
    if i + |p| <= |s| && !At(s, p, i) {
      FoundFirst(s, p, i + 1);
    }
  }

  lemma OpensAt(text: string, front: string, rest: string)
    requires Opens(text, front, rest)
    ensures "---\n" <= text && Find(text, FENCE, 4) == Some(4 + |front|)
    ensures text[4..4 + |front|] == front && text[4 + |front| + 5..] == rest
  {
    assert text[4 + |front|..4 + |front| + 5] == FENCE;
    FindFirst(text, FENCE, 4, 4 + |front|);
  }

  lemma Sliced(s: string, i: nat, j: nat, k: nat)
    requires i <= j <= k <= |s|
    ensures s == s[..i] + s[i..j] + s[j..k] + s[k..]
  {
  }

  lemma OpenedAt(text: string) returns (front: string, rest: string)
    requires "---\n" <= text && Find(text, FENCE, 4).Some?
    ensures Opens(text, front, rest)
  {
    FoundFirst(text, FENCE, 4);
    var end := Find(text, FENCE, 4).value;
    front, rest := text[4..end], text[end + 5..];
    Sliced(text, 4, end, end + 5);
    assert text[..4] == "---\n" && text[end..end + 5] == FENCE;
  }

  lemma {:induction false} NewlinesCut(s: string) returns (k: nat)
    ensures k <= |s| && LStripNewlines(s) == s[k..] && (forall i | 0 <= i < k :: s[i] == '\n')
    ensures k < |s| ==> s[k] != '\n'
  {
    k := 0;
    if s != "" && s[0] == '\n' {
      k := NewlinesCut(s[1..]);
      assert s[1..][k..] == s[k + 1..];
      k := k + 1;
    }
  }

  // --- the whole file -----------------------------------------------------------------------

  /** The front matter has the three keys and no others, and they give the entry's
      crate, version and date. */
  ghost predicate Identifies(front: string, e: ReleaseEntry, pads: bool) {
    var lines := SplitLines(front);
    && (forall l <- lines :: IsField(l))
    && (forall key: string ::
          LastValue(lines, key).Some? <==>
          key == "release_crate" || key == "release_date" || key == "release_version")
    && e.crate == Strip(LastValue(lines, "release_crate").value)
    && (e.crate == "libosdp-sys" || e.crate == "libosdp")
    && IsVersionOf(e.version, LastValue(lines, "release_version").value)
    && ToIso(LastValue(lines, "release_date").value, pads) == Some(e.date)
  }

  /** The text has no TODO marker, and is front matter that identifies the entry, and
      a body that is the entry's subject and sections. */
  ghost predicate IsFileOf(text: string, e: ReleaseEntry, pads: bool) {
    && !HasMark(text)
    && exists front: string, rest: string ::
         && Opens(text, front, rest) && Identifies(front, e, pads)
         && IsBody(SplitLines(LStripNewlines(rest)), e.subject, e.sections)
  }

  lemma KeysAre()
    ensures KEY_CRATE == "release_crate" && KEY_DATE == "release_date" && KEY_VERSION == "release_version"
    ensures forall key: string :: key in KEYS <==>
              key == "release_crate" || key == "release_date" || key == "release_version"
    ensures SYS == "libosdp-sys" && MAIN == "libosdp"
  {
  }

  lemma IdentityIs(lines: seq<string>, meta: map<string, string>, e: ReleaseEntry, pads: bool)
    requires forall key: string :: Lookup(meta, key) == LastValue(lines, key)
    ensures Identity(meta, None, pads) == Ok((e.crate, e.version, e.date)) <==>
            && (forall key: string ::
                  LastValue(lines, key).Some? <==>
                  key == "release_crate" || key == "release_date" || key == "release_version")
            && e.crate == Strip(LastValue(lines, "release_crate").value)
            && (e.crate == "libosdp-sys" || e.crate == "libosdp")
            && IsVersionOf(e.version, LastValue(lines, "release_version").value)
            && ToIso(LastValue(lines, "release_date").value, pads) == Some(e.date)
  {
    KeysAre();
    assert forall key: string :: key in meta <==> Lookup(meta, key).Some?;
    if meta.Keys == KEYS {
      assert Lookup(meta, KEY_VERSION) == LastValue(lines, KEY_VERSION);
      assert Lookup(meta, KEY_CRATE) == LastValue(lines, KEY_CRATE);
      assert Lookup(meta, KEY_DATE) == LastValue(lines, KEY_DATE);
      NormalizedVersion(meta[KEY_VERSION], e.version);
    } else {
      var key :| key in meta.Keys + KEYS && !(key in meta && key in KEYS);
      assert Lookup(meta, key) == LastValue(lines, key);
      assert LastValue(lines, key).Some? <==>
             !(key == "release_crate" || key == "release_date" || key == "release_version");
    }
  }

  lemma FileIsRead(text: string, front: string, rest: string, e: ReleaseEntry, pads: bool)
    requires !HasMark(text) && Opens(text, front, rest)
    ensures Parse(text, None, pads) == Ok(e) <==>
            Identifies(front, e, pads) && IsBody(SplitLines(LStripNewlines(rest)), e.subject, e.sections)
  {
    MarkFound(text);
    OpensAt(text, front, rest);
    var lines, nothing: map<string, string> := SplitLines(front), map[];
    MetaIs(lines, nothing);
    BodyByGrammar(LStripNewlines(rest), e.subject, e.sections);
    match Meta(lines, nothing)
    case Err(_) =>
    case Ok(meta) =>
      forall key: string
        ensures Lookup(meta, key) == LastValue(lines, key)
      {
        assert Lookup(nothing, key) == None;
      }
      IdentityIs(lines, meta, e, pads);
  }

  lemma ReadHasFence(text: string, expected: Option<string>, pads: bool)
    requires Parse(text, expected, pads).Ok?
    ensures !HasMark(text) && "---\n" <= text && Find(text, FENCE, 4).Some?
  {
    MarkFound(text);
  }

  lemma ReadWasFile(text: string, e: ReleaseEntry, pads: bool)
    requires Parse(text, None, pads) == Ok(e)
    ensures IsFileOf(text, e, pads)
  {
    ReadHasFence(text, None, pads);
    var front, rest := OpenedAt(text);
    FileIsRead(text, front, rest, e, pads);
    FileIs(text, front, rest, e, pads);
  }

  lemma FileIs(text: string, front: string, rest: string, e: ReleaseEntry, pads: bool)
    requires !HasMark(text) && Opens(text, front, rest) && Identifies(front, e, pads)
    requires IsBody(SplitLines(LStripNewlines(rest)), e.subject, e.sections)
    ensures IsFileOf(text, e, pads)
  {
  }

  lemma FileWasRead(text: string, e: ReleaseEntry, pads: bool)
    requires IsFileOf(text, e, pads)
    ensures Parse(text, None, pads) == Ok(e)
  {
    var front: string, rest: string :|
      && Opens(text, front, rest) && Identifies(front, e, pads)
      && IsBody(SplitLines(LStripNewlines(rest)), e.subject, e.sections);
    FileIsRead(text, front, rest, e, pads);
  }

  /** A text is read as an entry exactly if it is a file of that entry. */
  lemma ParsedIsFileOf(text: string, e: ReleaseEntry, pads: bool)
    ensures Parse(text, None, pads) == Ok(e) <==> IsFileOf(text, e, pads)
  {
    if Parse(text, None, pads) == Ok(e) {
      ReadWasFile(text, e, pads);
    }
    if IsFileOf(text, e, pads) {
      FileWasRead(text, e, pads);
    }
  }

  // --- the tag and the file's name --------------------------------------------------------------

  /** Asking for a tag refuses the entries it does not name, and changes nothing else;
      an empty tag asks for nothing. */
  lemma ParsedUnderTag(text: string, tag: string, e: ReleaseEntry, pads: bool)
    ensures Parse(text, Some(tag), pads) == Ok(e) <==>
            Parse(text, None, pads) == Ok(e) && (tag == "" || SplitTag(tag) == Ok((e.crate, e.version)))
  {
  }

  /** The name of a file is its crate, a dash, a version with its `v`, and `.md`. */
  lemma FileTagIs(name: string, tag: string)
    ensures FileTag(name) == Ok(tag) <==>
            exists crate: string, raw: string, version: string ::
              && (crate == "libosdp-sys" || crate == "libosdp")
              && name == crate + "-v" + raw + ".md" && VersionText(raw)
              && IsVersionOf(version, "v" + raw) && tag == crate + "-" + version
  {
    if FileTag(name) == Ok(tag) {
      var (crate, raw) := FileNameParts(name).value;
      var version := NormalizeVersion(raw).value;
      NormalizedVersion(raw, version);
      assert raw == "v" + raw[1..] && name == crate + "-v" + raw[1..] + ".md";
    }
    if crate: string, raw: string, version: string :|
        && (crate == "libosdp-sys" || crate == "libosdp")
        && name == crate + "-v" + raw + ".md" && VersionText(raw)
        && IsVersionOf(version, "v" + raw) && tag == crate + "-" + version
    {
      NameParts(name, crate, raw);
      NormalizedVersion("v" + raw, version);
    }
  }

  lemma NameParts(name: string, crate: string, raw: string)
    requires crate == "libosdp-sys" || crate == "libosdp"
    requires name == crate + "-v" + raw + ".md" && VersionText(raw)
    ensures FileNameParts(name) == Some((crate, "v" + raw))
  {
    var stem := crate + "-v" + raw;
    assert name[..|name| - 3] == stem && name[|name| - 3..] == ".md";
    assert stem[|crate| + 2..] == raw && stem[|crate| + 1..] == "v" + raw;
    CratesApart(stem);
    assert crate + "-v" <= stem;
  }

  /** A file validates exactly if it is read as an entry whose tag is in its name, and
      that is the one named by the tag asked for, if any is. */
  lemma ValidatedIs(name: string, text: string, expected: Option<string>, e: ReleaseEntry, pads: bool)
    ensures Validate(name, text, expected, pads) == Ok(e) <==>
            && Parse(text, None, pads) == Ok(e) && FileTag(name) == Ok(e.crate + "-" + e.version)
            && (expected.None? || expected.value == "" || SplitTag(expected.value) == Ok((e.crate, e.version)))
  {
    match FileTag(name)
    case Err(_) =>
    case Ok(fileTag) =>
      var want := if expected.None? || expected.value == "" then fileTag else expected.value;
      ParsedUnderTag(text, want, e, pads);
      if Parse(text, None, pads) == Ok(e) {
        ParsedIsGood(text, None, pads);
        TagRoundTrip(e);
      }
  }
}
