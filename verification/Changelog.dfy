/** Release files: the entry one describes, its text, and reading it back. */
module Changelog {
  import opened Wrappers
  import opened Text
  import opened Dates

  datatype Section = Section(title: string, items: seq<string>)

  datatype ReleaseEntry = ReleaseEntry(
    crate: string, version: string, date: string, subject: string, sections: seq<Section>)

  datatype Refusal =
    | TodoMarkers
    | NoFrontMatter
    | UnterminatedFrontMatter
    | BadFrontMatterLine
    | MissingKeys
    | ExtraKeys
    | UnknownCrate
    | BadVersion
    | BadTag
    | WrongTag
    | BadDate
    | NoSubject
    | BadHeading
    | RepeatedSection
    | NotABullet
    | EmptySection
    | NoSections
    | BadFileName

  type Parsed<T> = Result<T, Refusal>

  const SYS := "libosdp-sys"
  const MAIN := "libosdp"

  const KEY_CRATE := "release_crate"
  const KEY_DATE := "release_date"
  const KEY_VERSION := "release_version"

  function Tag(e: ReleaseEntry): string {
    e.crate + "-" + e.version
  }

  // --- versions ------------------------------------------------------------

  /** How many of the first characters are white space, or dashes. */
  function Spaces(s: string): nat
    ensures Spaces(s) <= |s|
  {
    if s != "" && IsSpace(s[0]) then 1 + Spaces(s[1..]) else 0
  }

  function Dashes(s: string): nat
    ensures Dashes(s) <= |s|
  {
    if s != "" && s[0] == '-' then 1 + Dashes(s[1..]) else 0
  }

  /** White space around a dash goes. */
  function TightenDashes(s: string): string
    decreases |s|
  {
    if s == "" then ""
    else
      var k := Spaces(s);
      if k < |s| && s[k] == '-' then
        var after := s[k + 1..];
        "-" + TightenDashes(after[Spaces(after)..])
      else [s[0]] + TightenDashes(s[1..])
  }

  /** A run of white space becomes a dash. */
  function DashSpaces(s: string): string
    decreases |s|
  {
    if s == "" then ""
    else if IsSpace(s[0]) then "-" + DashSpaces(s[Spaces(s)..])
    else [s[0]] + DashSpaces(s[1..])
  }

  /** A run of dashes becomes one. */
  function SqueezeDashes(s: string): string
    decreases |s|
  {
    if s == "" then ""
    else if s[0] == '-' then "-" + SqueezeDashes(s[Dashes(s)..])
    else [s[0]] + SqueezeDashes(s[1..])
  }

  /** Lower case, for the characters whose lower case is in ASCII; the Kelvin sign
      is one. A version with any other is refused, in either case. */
  function LowerChar(c: char): char {
    if IsUpper(c) then c - 'A' + 'a' else if c == '\U{212A}' then 'k' else c
  }

  function Lower(s: string): string {
    if s == "" then ""
    else [LowerChar(s[0])] + Lower(s[1..])
  }

  predicate VersionChar(c: char) {
    IsDigit(c) || IsUpper(c) || IsLower(c)
  }

  predicate VersionText(s: string) {
    && s != "" && VersionChar(s[0])
    && forall c <- s :: VersionChar(c) || c == '.' || c == '+' || c == '-'
  }

  /** What is left of a raw version, its leading `v` aside. */
  function VersionCore(raw: string): string {
    var version := Strip(raw);
    var version := if version != "" && version[0] == 'v' then version[1..] else version;
    Lower(SqueezeDashes(DashSpaces(TightenDashes(version))))
  }

  function NormalizeVersion(raw: string): Parsed<string> {
    var core := VersionCore(raw);
    if VersionText(core) then Ok("v" + core) else Err(BadVersion)
  }

  /** A release tag as its crate and version; the longer crate name wins. */
  function SplitTag(tag: string): Parsed<(string, string)> {
    if SYS + "-v" <= tag then
      match NormalizeVersion(tag[|SYS| + 1..])
      case Ok(version) => Ok((SYS, version))
      case Err(e) => Err(e)
    else if MAIN + "-v" <= tag then
      match NormalizeVersion(tag[|MAIN| + 1..])
      case Ok(version) => Ok((MAIN, version))
      case Err(e) => Err(e)
    else Err(BadTag)
  }

  // --- dates -----------------------------------------------------------------

  /** A date as the entry has it; `pads` says what the platform does to years
      below 1000. */
  function ToIsoDate(raw: string, pads: bool): Parsed<string> {
    match ToIso(raw, pads)
    case Some(date) => Ok(date)
    case None => Err(BadDate)
  }

  // --- front matter ------------------------------------------------------------

  function LStripNewlines(s: string): string {
    if s != "" && s[0] == '\n' then LStripNewlines(s[1..]) else s
  }

  function LStripQuotes(s: string): string {
    if s != "" && s[0] == '"' then LStripQuotes(s[1..]) else s
  }

  function RStripQuotes(s: string): string {
    if s != "" && s[|s| - 1] == '"' then RStripQuotes(s[..|s| - 1]) else s
  }

  function StripQuotes(s: string): string {
    RStripQuotes(LStripQuotes(s))
  }

  /** The key and value on a front matter line that is not blank. */
  function KeyValue(line: string): Parsed<(string, string)> {
    match Find(line, ":", 0)
    case None => Err(BadFrontMatterLine)
    case Some(colon) =>
      FindAt(line, ":", 0);
      Ok((Strip(line[..colon]), StripQuotes(Strip(line[colon + 1..]))))
  }

  function Meta(lines: seq<string>, data: map<string, string>): Parsed<map<string, string>>
    decreases |lines|
  {
    if lines == [] then Ok(data)
    else if Strip(lines[0]) == "" then Meta(lines[1..], data)
    else match KeyValue(lines[0])
      case Err(e) => Err(e)
      case Ok(kv) => Meta(lines[1..], data[kv.0 := kv.1])
  }

  function SplitFrontMatter(text: string): Parsed<(map<string, string>, string)> {
    if !("---\n" <= text) then Err(NoFrontMatter)
    else match Find(text, "\n---\n", 4)
      case None => Err(UnterminatedFrontMatter)
      case Some(end) =>
        FindAt(text, "\n---\n", 4);
        match Meta(SplitLines(text[4..end]), map[])
        case Err(e) => Err(e)
        case Ok(data) => Ok((data, LStripNewlines(text[end + 5..])))
  }

  // --- body ----------------------------------------------------------------------

  predicate TitleChar(c: char) {
    IsUpper(c) || IsLower(c) || c == ' '
  }

  /** The title, when the line is a section heading. */
  function Heading(line: string): Option<string> {
    if |line| >= 5 && line[..3] == "## " && IsUpper(line[3]) && forall c <- line[4..] :: TitleChar(c)
    then Some(line[3..]) else None
  }

  /** The item, when the stripped line is a bullet. */
  function Bullet(stripped: string): Option<string> {
    if |stripped| >= 3 && stripped[0] == '-' && IsSpace(stripped[1])
    then Some(Strip(stripped[1..])) else None
  }

  function SkipBlank(lines: seq<string>): seq<string> {
    if lines != [] && Strip(lines[0]) == "" then SkipBlank(lines[1..]) else lines
  }

  /** How many lines come before the first heading. */
  function SubjectLength(lines: seq<string>): nat
    ensures SubjectLength(lines) <= |lines|
  {
    if lines != [] && Heading(Strip(lines[0])).None? then 1 + SubjectLength(lines[1..]) else 0
  }

  /** The items of a section after those in `items`, and the lines that are
      left: a blank line ends the items once there is one, a heading always. */
  function Items(lines: seq<string>, items: seq<string>): (r: Parsed<(seq<string>, seq<string>)>)
    ensures r.Ok? ==> |r.value.1| <= |lines|
    decreases |lines|
  {
    if lines == [] then Ok((items, []))
    else
      var stripped := Strip(lines[0]);
      if stripped == "" then
        if items != [] then Ok((items, lines[1..])) else Items(lines[1..], items)
      else if Heading(stripped).Some? then Ok((items, lines))
      else match Bullet(stripped)
        case Some(item) => Items(lines[1..], items + [item])
        case None =>
          if items != [] && lines[0] != "" && IsSpace(lines[0][0]) then
            Items(lines[1..], items[|items| - 1 := items[|items| - 1] + " " + stripped])
          else Err(NotABullet)
  }

  /** The section whose heading is the first line, and the lines after it. */
  function OneSection(lines: seq<string>, seen: set<string>): (r: Parsed<(Section, seq<string>)>)
    requires lines != []
    ensures r.Ok? ==> |r.value.1| < |lines|
  {
    match Heading(Strip(lines[0]))
    case None => Err(BadHeading)
    case Some(title) =>
      if title in seen then Err(RepeatedSection)
      else match Items(lines[1..], [])
        case Err(e) => Err(e)
        case Ok((items, rest)) =>
          if items == [] then Err(EmptySection) else Ok((Section(title, items), rest))
  }

  function Sections(lines: seq<string>, seen: set<string>): Parsed<seq<Section>>
    decreases |lines|
  {
    SkipBlankShortens(lines);
    var lines := SkipBlank(lines);
    if lines == [] then Ok([])
    else match OneSection(lines, seen)
      case Err(e) => Err(e)
      case Ok((section, rest)) =>
        match Sections(rest, seen + {section.title})
        case Err(e) => Err(e)
        case Ok(sections) => Ok([section] + sections)
  }

  lemma SkipBlankShortens(lines: seq<string>)
    ensures |SkipBlank(lines)| <= |lines|
  {
  }

  function ParseBody(body: string): Parsed<(string, seq<Section>)> {
    ParseLines(SkipBlank(SplitLines(body)))
  }

  /** The subject block, then the sections. */
  function ParseLines(lines: seq<string>): Parsed<(string, seq<Section>)> {
    var n := SubjectLength(lines);
    var subject := Strip(Join(lines[..n]));
    if subject == "" then Err(NoSubject)
    else match Sections(lines[n..], {})
      case Err(e) => Err(e)
      case Ok(sections) => if sections == [] then Err(NoSections) else Ok((subject, sections))
  }

  const KEYS: set<string> := {KEY_CRATE, KEY_DATE, KEY_VERSION}

  /** The crate, version and date the front matter gives. */
  function Identity(meta: map<string, string>, expected: Option<string>, pads: bool)
    : Parsed<(string, string, string)>
  {
    if !(KEYS <= meta.Keys) then Err(MissingKeys)
    else if !(meta.Keys <= KEYS) then Err(ExtraKeys)
    else
      var crate := Strip(meta[KEY_CRATE]);
      if crate != SYS && crate != MAIN then Err(UnknownCrate)
      else match NormalizeVersion(meta[KEY_VERSION])
        case Err(e) => Err(e)
        case Ok(version) =>
          match Expected(expected, crate, version)
          case Err(e) => Err(e)
          case Ok(_) =>
            match ToIsoDate(meta[KEY_DATE], pads)
            case Err(e) => Err(e)
            case Ok(date) => Ok((crate, version, date))
  }

  /** Whether the entry is the one for tag `expected`; an empty tag asks for
      nothing. */
  function Expected(expected: Option<string>, crate: string, version: string): Parsed<()> {
    if expected.None? || expected.value == "" then Ok(())
    else match SplitTag(expected.value)
      case Err(e) => Err(e)
      case Ok(want) => if want == (crate, version) then Ok(()) else Err(WrongTag)
  }

  function Parse(text: string, expected: Option<string>, pads: bool)
    : Parsed<ReleaseEntry>
  {
    if Find(text, "## TODO", 0).Some? then Err(TodoMarkers)
    else match SplitFrontMatter(text)
      case Err(e) => Err(e)
      case Ok((meta, body)) =>
        match Identity(meta, expected, pads)
        case Err(e) => Err(e)
        case Ok((crate, version, date)) =>
          match ParseBody(body)
          case Err(e) => Err(e)
          case Ok((subject, sections)) => Ok(ReleaseEntry(crate, version, date, subject, sections))
  }

  // --- files -----------------------------------------------------------------------

  function PathName(e: ReleaseEntry): string {
    Tag(e) + ".md"
  }

  /** The crate and raw version that a release file's name is made of. */
  function FileNameParts(name: string): Option<(string, string)> {
    if |name| < 3 || name[|name| - 3..] != ".md" then None
    else
      var stem := name[..|name| - 3];
      if SYS + "-v" <= stem && VersionText(stem[|SYS| + 2..]) then Some((SYS, stem[|SYS| + 1..]))
      else if MAIN + "-v" <= stem && VersionText(stem[|MAIN| + 2..]) then Some((MAIN, stem[|MAIN| + 1..]))
      else None
  }

  function FileTag(name: string): Parsed<string> {
    match FileNameParts(name)
    case None => Err(BadFileName)
    case Some((crate, raw)) =>
      match NormalizeVersion(raw)
      case Err(e) => Err(e)
      case Ok(version) => Ok(crate + "-" + version)
  }

  /** A release file: its entry must be the one its name is for. */
  function Validate(name: string, text: string, expected: Option<string>, pads: bool)
    : Parsed<ReleaseEntry>
  {
    match FileTag(name)
    case Err(e) => Err(e)
    case Ok(fileTag) =>
      var want := if expected.None? || expected.value == "" then fileTag else expected.value;
      match Parse(text, Some(want), pads)
      case Err(e) => Err(e)
      case Ok(entry) => if Tag(entry) != fileTag then Err(WrongTag) else Ok(entry)
  }

  // --- printing --------------------------------------------------------------------

  function Bullets(items: seq<string>): seq<string> {
    if items == [] then [] else ["- " + items[0]] + Bullets(items[1..])
  }

  /** The lines of one section, and of all, with a blank line after each. */
  function Block(section: Section): seq<string> {
    ["## " + section.title, ""] + Bullets(section.items) + [""]
  }

  function Blocks(sections: seq<Section>): seq<string> {
    if sections == [] then [] else Block(sections[0]) + Blocks(sections[1..])
  }

  function Head(e: ReleaseEntry): seq<string> {
    ["---", KEY_CRATE + ": " + e.crate, KEY_DATE + ": " + e.date, KEY_VERSION + ": " + e.version, "---", ""]
  }

  function Render(e: ReleaseEntry): string {
    RStrip(Join(Head(e) + [Strip(e.subject), ""] + Blocks(e.sections))) + "\n"
  }

  // --- well-formed entries -----------------------------------------------------------

  predicate GoodTitle(title: string) {
    && |title| >= 2 && IsUpper(title[0]) && title[|title| - 1] != ' '
    && forall c <- title :: TitleChar(c)
  }

  predicate GoodItem(item: string) {
    item != "" && Trim(item) && NoBreaks(item)
  }

  predicate GoodSections(sections: seq<Section>) {
    && (forall s <- sections :: GoodTitle(s.title) && s.items != [] && forall item <- s.items :: GoodItem(item))
    && (forall i, j | 0 <= i < j < |sections| :: sections[i].title != sections[j].title)
  }

  predicate NoHeadings(lines: seq<string>) {
    forall l <- lines :: Heading(Strip(l)).None?
  }

  predicate GoodSubject(subject: string) {
    subject != "" && Trim(subject) && OnlyNewlines(subject) && NoHeadings(SplitLines(subject))
  }

  /** The entries that can be read from a release file: a known crate, a version
      in normal form, a subject block without headings, and sections with distinct
      titles and bullets of one line. */
  predicate ReadEntry(e: ReleaseEntry) {
    && (e.crate == SYS || e.crate == MAIN)
    && NormalizeVersion(e.version) == Ok(e.version)
    && DateText(e.date)
    && GoodSubject(e.subject)
    && e.sections != [] && GoodSections(e.sections)
  }

  /** Those that a release file can hold have an ISO date, too. */
  predicate GoodEntry(e: ReleaseEntry) {
    ReadEntry(e) && IsIsoDate(e.date)
  }
}
