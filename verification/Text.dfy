/** The string operations the changelog tool relies on: stripping, splitting
    into lines, joining and searching. */
module Text {
  import opened Wrappers

  /** Characters that separate lines for `splitlines`. */
  predicate IsBreak(c: char) {
    var n := c as int;
    0x0a <= n <= 0x0d || 0x1c <= n <= 0x1e || n == 0x85 || n == 0x2028 || n == 0x2029
  }

  /** White space, line breaks included. */
  predicate IsSpace(c: char) {
    var n := c as int;
    || IsBreak(c) || n == 0x09 || n == 0x1f || n == 0x20 || n == 0xa0 || n == 0x1680
    || 0x2000 <= n <= 0x200a || n == 0x202f || n == 0x205f || n == 0x3000
  }

  predicate IsDigit(c: char) { '0' <= c <= '9' }

  predicate IsUpper(c: char) { 'A' <= c <= 'Z' }

  predicate IsLower(c: char) { 'a' <= c <= 'z' }

  // --- stripping ---------------------------------------------------------

  function LStrip(s: string): string {
    if s != "" && IsSpace(s[0]) then LStrip(s[1..]) else s
  }

  function RStrip(s: string): string {
    if s != "" && IsSpace(s[|s| - 1]) then RStrip(s[..|s| - 1]) else s
  }

  function Strip(s: string): string {
    RStrip(LStrip(s))
  }

  /** Neither end is white space. */
  predicate Trim(s: string) {
    s != "" ==> !IsSpace(s[0]) && !IsSpace(s[|s| - 1])
  }

  lemma {:induction false} LStripFirst(s: string)
    ensures LStrip(s) != "" ==> !IsSpace(LStrip(s)[0])
    ensures exists k | 0 <= k <= |s| :: LStrip(s) == s[k..]
  {
    if s != "" && IsSpace(s[0]) {
      LStripFirst(s[1..]);
      var k :| 0 <= k <= |s[1..]| && LStrip(s[1..]) == s[1..][k..];
      assert s[1..][k..] == s[k + 1..];
    } else {
      assert s == s[0..];
    }
  }

  lemma RStripLast(s: string)
    ensures RStrip(s) != "" ==> !IsSpace(RStrip(s)[|RStrip(s)| - 1])
    ensures RStrip(s) <= s
  {
  }

  lemma StripTrims(s: string)
    ensures Trim(Strip(s))
    ensures forall c <- Strip(s) :: c in s
    ensures Strip(Strip(s)) == Strip(s)
  {
    LStripFirst(s);
    RStripLast(LStrip(s));
  }

  lemma TrimStrips(s: string)
    requires Trim(s)
    ensures Strip(s) == s
  {
  }

  /** White space at either end makes no difference. */
  lemma StripOfPadded(c: char, s: string)
    requires IsSpace(c)
    ensures Strip([c] + s) == Strip(s) && Strip(s + [c]) == Strip(s)
  {
    assert ([c] + s)[1..] == s;
    StripOfTrailing(s, c);
  }

  lemma {:induction false} StripOfTrailing(s: string, c: char)
    requires IsSpace(c)
    ensures Strip(s + [c]) == Strip(s)
  {
    if s != "" && IsSpace(s[0]) {
      assert (s + [c])[1..] == s[1..] + [c];
      StripOfTrailing(s[1..], c);
    } else if s == "" {
      assert s + [c] == [c] && [c][1..] == "";
    } else {
      assert (s + [c])[..|s|] == s;
    }
  }

  /** A line that is not blank. */
  lemma {:induction false} NotBlank(s: string)
    requires s != "" && (!IsSpace(s[0]) || !IsSpace(s[|s| - 1]))
    ensures Strip(s) != ""
  {
    if IsSpace(s[0]) {
      assert s[1..] != "";
      NotBlank(s[1..]);
    } else if IsSpace(s[|s| - 1]) {
      RStripKeeps(s);
    }
  }

  lemma RStripKeeps(s: string)
    requires s != "" && !IsSpace(s[0])
    ensures RStrip(s) != ""
  {
  }

  // --- lines -----------------------------------------------------------------

  /** `str.splitlines`: a carriage return and line feed separate once, and a
      separator at the end starts no further line. */
  function SplitLines(s: string): seq<string> {
    if s == "" then []
    else if IsBreak(s[0]) then
      [""] + SplitLines(if |s| > 1 && s[0] == '\r' && s[1] == '\n' then s[2..] else s[1..])
    else if |s| == 1 then [s]
    else PutFirst(s[0], SplitLines(s[1..]))
  }

  /** The lines, with `c` put before the first. */
  function PutFirst(c: char, ls: seq<string>): seq<string> {
    if ls == [] then [[c]] else [[c] + ls[0]] + ls[1..]
  }

  lemma UnlinesPutFirst(c: char, ls: seq<string>)
    requires ls != []
    ensures Unlines(PutFirst(c, ls)) == [c] + Unlines(ls)
  {
    assert PutFirst(c, ls)[1..] == ls[1..];
    assert [c] + ls[0] + "\n" + Unlines(ls[1..]) == [c] + (ls[0] + "\n" + Unlines(ls[1..]));
  }

  predicate NoBreaks(s: string) {
    forall c <- s :: !IsBreak(c)
  }

  /** No separator but line feeds. */
  predicate OnlyNewlines(s: string) {
    forall c <- s :: IsBreak(c) ==> c == '\n'
  }

  lemma {:induction false} SplitLinesNoBreaks(s: string)
    ensures forall l <- SplitLines(s) :: NoBreaks(l)
    ensures s != "" ==> SplitLines(s) != []
  {
    if s != "" {
      if IsBreak(s[0]) {
        SplitLinesNoBreaks(if |s| > 1 && s[0] == '\r' && s[1] == '\n' then s[2..] else s[1..]);
      } else {
        SplitLinesNoBreaks(s[1..]);
        if |s| > 1 {
          var rest := SplitLines(s[1..]);
          assert NoBreaks(rest[0]);
          forall c <- [s[0]] + rest[0] ensures !IsBreak(c) {
            assert c == s[0] || c in rest[0];
          }
        }
      }
    }
  }

  /** The lines, each with its line feed. */
  function Unlines(ls: seq<string>): string {
    if ls == [] then "" else ls[0] + "\n" + Unlines(ls[1..])
  }

  function Join(ls: seq<string>): string {
    if ls == [] then "" else if |ls| == 1 then ls[0] else ls[0] + "\n" + Join(ls[1..])
  }

  lemma {:induction false} SplitLine(l: string, rest: string)
    requires NoBreaks(l)
    ensures SplitLines(l + "\n" + rest) == [l] + SplitLines(rest)
  {
    var s := l + "\n" + rest;
    if l == "" {
      assert s[1..] == rest;
    } else {
      SplitLine(l[1..], rest);
      assert s[1..] == l[1..] + "\n" + rest;
      assert l == [l[0]] + l[1..];
    }
  }

  /** What ends a line: one separator, but for a carriage return and line feed. */
  predicate Ends(sep: string, rest: string) {
    || sep == "\r\n"
    || (|sep| == 1 && IsBreak(sep[0]) && !(sep == "\r" && rest != "" && rest[0] == '\n'))
  }

  /** The first line and the lines after it, whatever separates them. */
  lemma {:induction false} SplitAtBreak(l: string, sep: string, rest: string)
    requires NoBreaks(l) && Ends(sep, rest)
    ensures SplitLines(l + sep + rest) == [l] + SplitLines(rest)
  {
    var s := l + sep + rest;
    if l == "" {
      assert s == sep + rest && s[|sep|..] == rest;
    } else {
      SplitAtBreak(l[1..], sep, rest);
      assert s[1..] == l[1..] + sep + rest;
      assert l == [l[0]] + l[1..];
    }
  }

  const BREAKS := "\n\U{000b}\U{000c}\r\U{001c}\U{001d}\U{001e}\U{0085}\U{2028}\U{2029}"

  lemma SeparatorsAreThese(c: char)
    ensures IsBreak(c) <==> c in BREAKS
    ensures IsSpace(c) <==>
            || c in BREAKS || c in "\t\U{001f} \U{00a0}\U{1680}\U{202f}\U{205f}\U{3000}"
            || '\U{2000}' <= c <= '\U{200a}'
  {
  }

  lemma {:induction false} SplitLastLine(l: string)
    requires NoBreaks(l) && l != ""
    ensures SplitLines(l) == [l]
  {
    if |l| > 1 {
      SplitLastLine(l[1..]);
      assert l == [l[0]] + l[1..];
    }
  }

  lemma {:induction false} SplitUnlines(ls: seq<string>, rest: string)
    requires forall l <- ls :: NoBreaks(l)
    ensures SplitLines(Unlines(ls) + rest) == ls + SplitLines(rest)
  {
    if ls == [] {
      assert Unlines(ls) + rest == rest;
    } else {
      SplitUnlines(ls[1..], rest);
      UnlinesFirst(ls, rest);
      SplitMore(ls[0], ls[1..], Unlines(ls[1..]) + rest, SplitLines(rest));
      assert [ls[0]] + ls[1..] == ls;
    }
  }

  lemma SplitMore(l: string, more: seq<string>, text: string, last: seq<string>)
    requires NoBreaks(l) && SplitLines(text) == more + last
    ensures SplitLines(l + "\n" + text) == [l] + more + last
  {
    SplitLine(l, text);
  }

  lemma UnlinesFirst(ls: seq<string>, rest: string)
    requires ls != []
    ensures Unlines(ls) + rest == ls[0] + "\n" + (Unlines(ls[1..]) + rest)
  {
  }

  lemma {:induction false} UnlinesAppend(a: seq<string>, b: seq<string>)
    ensures Unlines(a + b) == Unlines(a) + Unlines(b)
  {
    if a == [] {
      assert a + b == b;
    } else {
      UnlinesAppend(a[1..], b);
      assert (a + b)[1..] == a[1..] + b;
    }
  }

  lemma {:induction false} JoinUnlines(ls: seq<string>)
    requires ls != []
    ensures Join(ls) + "\n" == Unlines(ls)
  {
    if |ls| == 1 {
      assert ls[1..] == [];
      assert ls[0] + "\n" + "" == ls[0] + "\n";
    } else {
      JoinUnlines(ls[1..]);
      assert Join(ls) + "\n" == ls[0] + "\n" + (Join(ls[1..]) + "\n");
    }
  }

  /** A text whose only separators are line feeds, and that does not end in one,
      is its lines joined. */
  lemma {:induction false} LinesOfText(s: string)
    requires OnlyNewlines(s) && s != "" && s[|s| - 1] != '\n'
    ensures Unlines(SplitLines(s)) == s + "\n" && Join(SplitLines(s)) == s
  {
    if |s| == 1 {
      assert Unlines([s]) == s + "\n";
    } else {
      LinesOfText(s[1..]);
      UnlinesOfMore(s);
    }
    SplitLinesNoBreaks(s);
    JoinUnlines(SplitLines(s));
    assert Join(SplitLines(s)) == (Join(SplitLines(s)) + "\n")[..|s|] == (s + "\n")[..|s|];
  }

  lemma SplitOneMore(s: string)
    requires OnlyNewlines(s) && |s| > 1
    ensures var rest := SplitLines(s[1..]);
            rest != [] && SplitLines(s) == if s[0] == '\n' then [""] + rest else PutFirst(s[0], rest)
  {
    SplitLinesNoBreaks(s[1..]);
  }

  lemma UnlinesOfMore(s: string)
    requires OnlyNewlines(s) && |s| > 1
    requires Unlines(SplitLines(s[1..])) == s[1..] + "\n"
    ensures Unlines(SplitLines(s)) == s + "\n"
  {
    var rest := SplitLines(s[1..]);
    SplitOneMore(s);
    assert s + "\n" == [s[0]] + Unlines(rest);
    if s[0] == '\n' {
      UnlinesEmptyFirst(rest);
    } else {
      UnlinesPutFirst(s[0], rest);
    }
  }

  lemma UnlinesEmptyFirst(ls: seq<string>)
    ensures Unlines([""] + ls) == "\n" + Unlines(ls)
  {
    assert ([""] + ls)[1..] == ls;
    assert "" + "\n" + Unlines(ls) == "\n" + Unlines(ls);
  }

  // --- searching ---------------------------------------------------------------

  predicate At(s: string, p: string, i: nat) {
    i + |p| <= |s| && s[i..i + |p|] == p
  }

  /** `str.find` from `i`. */
  function Find(s: string, p: string, i: nat): Option<nat>
    decreases |s| - i
  {
    if i + |p| > |s| then None
    else if At(s, p, i) then Some(i)
    else Find(s, p, i + 1)
  }

  lemma {:induction false} FindFirst(s: string, p: string, i: nat, k: nat)
    requires i <= k && At(s, p, k)
    requires forall j | i <= j < k :: !At(s, p, j)
    ensures Find(s, p, i) == Some(k)
    decreases k - i
  {
    if i < k {
      FindFirst(s, p, i + 1, k);
    }
  }

  lemma FindAt(s: string, p: string, i: nat)
    ensures match Find(s, p, i)
            case Some(k) => i <= k && At(s, p, k)
            case None => true
    decreases |s| - i
  {
  }
}
