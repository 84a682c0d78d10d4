/** The string methods of Python that the Inspector uses. */
module PythonText {
  /** Whitespace to `str.strip`. */
  predicate IsSpace(c: char) {
    var n := c as int;
    || 0x09 <= n <= 0x0D || 0x1C <= n <= 0x20 || n == 0x85 || n == 0xA0 || n == 0x1680 || 0x2000 <= n <= 0x200A
    || n == 0x2028 || n == 0x2029 || n == 0x202F || n == 0x205F || n == 0x3000
  }

  /** The end of a line to `str.splitlines`. */
  predicate IsBreak(c: char) {
    var n := c as int;
    0x0A <= n <= 0x0D || 0x1C <= n <= 0x1E || n == 0x85 || n == 0x2028 || n == 0x2029
  }

  function LeftStrip(s: string): (r: string)
    ensures |r| <= |s|
  {
    if s != "" && IsSpace(s[0]) then LeftStrip(s[1..]) else s
  }

  function RightStrip(s: string): (r: string)
    ensures |r| <= |s|
  {
    if s != "" && IsSpace(s[|s| - 1]) then RightStrip(s[..|s| - 1]) else s
  }

  function Strip(s: string): string {
    RightStrip(LeftStrip(s))
  }

  predicate Trimmed(s: string) {
    s == "" || (!IsSpace(s[0]) && !IsSpace(s[|s| - 1]))
  }

  lemma {:induction false} RightStripTrims(s: string)
    ensures RightStrip(s) <= s
    ensures RightStrip(s) == "" || !IsSpace(RightStrip(s)[|RightStrip(s)| - 1])
    decreases |s|
  {
    if s != "" && IsSpace(s[|s| - 1]) { RightStripTrims(s[..|s| - 1]); }
  }

  lemma {:induction false} LeftStripTrims(s: string)
    ensures LeftStrip(s) == "" || !IsSpace(LeftStrip(s)[0])
    decreases |s|
  {
    if s != "" && IsSpace(s[0]) { LeftStripTrims(s[1..]); }
  }

  /** Stripping leaves no whitespace at either end, and changes nothing exactly where there is none. */
  lemma StripTrims(s: string)
    ensures Trimmed(Strip(s))
    ensures Strip(s) == s <==> Trimmed(s)
  {
    LeftStripTrims(s);
    RightStripTrims(LeftStrip(s));
  }

  predicate AllSpaces(s: string) {
    forall c <- s :: IsSpace(c)
  }

  lemma {:induction false} LeftStripKeeps(s: string) returns (before: string)
    ensures s == before + LeftStrip(s) && AllSpaces(before)
    decreases |s|
  {
    before := "";
    if s != "" && IsSpace(s[0]) {
      before := LeftStripKeeps(s[1..]);
      before := [s[0]] + before;
    }
  }

  lemma {:induction false} RightStripKeeps(s: string) returns (after: string)
    ensures s == RightStrip(s) + after && AllSpaces(after)
    decreases |s|
  {
    after := "";
    if s != "" && IsSpace(s[|s| - 1]) {
      after := RightStripKeeps(s[..|s| - 1]);
      after := after + [s[|s| - 1]];
    }
  }

  /** What stripping takes away is whitespace, at the two ends. */
  lemma StripTakesSpaces(s: string) returns (before: string, after: string)
    ensures s == before + Strip(s) + after && AllSpaces(before) && AllSpaces(after)
  {
    before := LeftStripKeeps(s);
    after := RightStripKeeps(LeftStrip(s));
  }

  /** `str.replace`: occurrences from the left, not overlapping. */
  function Replace(s: string, old_: string, new_: string): string
    requires old_ != ""
    decreases |s|
  {
    if s == "" then ""
    else if old_ <= s then new_ + Replace(s[|old_|..], old_, new_)
    else [s[0]] + Replace(s[1..], old_, new_)
  }

  /** Backslashes, then double quotes, get a backslash before them. */
  function Escape(value: string): string {
    Replace(Replace(value, "\\", "\\\\"), "\"", "\\\"")
  }

  // ---- Lines -------------------------------------------------------------------------------------------

  predicate OneLine(s: string) {
    forall c <- s :: !IsBreak(c)
  }

  /** The first line break, or the end. */
  function FirstBreak(s: string): (i: nat)
    ensures i <= |s| && OneLine(s[..i])
    ensures i < |s| ==> IsBreak(s[i])
  {
    if s == "" || IsBreak(s[0]) then 0
    else
      assert forall i: nat :: i < |s| ==> s[..i + 1] == [s[0]] + s[1..][..i];
      1 + FirstBreak(s[1..])
  }

  /** `splitlines`: a carriage return and a line feed in a row end one line. */
  function SplitLines(s: string): seq<string>
    decreases |s|
  {
    if s == "" then []
    else
      var i := FirstBreak(s);
      if i == |s| then [s]
      else [s[..i]] + SplitLines(if s[i] == '\r' && i + 1 < |s| && s[i + 1] == '\n' then s[i + 2..] else s[i + 1..])
  }

  /** Each part stripped, those left blank dropped. */
  function Stripped(parts: seq<string>): seq<string> {
    if parts == [] then []
    else (if Strip(parts[0]) != "" then [Strip(parts[0])] else []) + Stripped(parts[1..])
  }

  /** `" ".join`. */
  function Joined(parts: seq<string>): string {
    if parts == [] then "" else if |parts| == 1 then parts[0] else parts[0] + " " + Joined(parts[1..])
  }

  function OnOneLine(code: string): string {
    Joined(Stripped(SplitLines(code)))
  }

  function DropSpaces(s: string): string {
    Replace(Replace(Replace(s, "( ", "("), " )", ")"), ", )", ")")
  }

  /** `inline`. */
  function Inline(code: string): string {
    DropSpaces(OnOneLine(code))
  }

  // ---- The line a text becomes ----------------------------------------------------------------------------

  function Glue(a: string, b: string): string {
    if a == "" then b else if b == "" then a else a + " " + b
  }

  lemma JoinedIsGlued(x: string, parts: seq<string>)
    requires forall part <- parts :: part != ""
    ensures Joined((if x != "" then [x] else []) + parts) == Glue(x, Joined(parts))
    ensures Joined(parts) == "" <==> parts == []
  {
    if parts != [] {
      assert parts[0] in parts;
    }
    if x != "" {
      assert ([x] + parts)[1..] == parts;
    } else {
      assert [] + parts == parts;
    }
  }

  lemma {:induction false} StrippedIsNotBlank(parts: seq<string>)
    ensures forall part <- Stripped(parts) :: part != ""
    decreases |parts|
  {
    if parts != [] { StrippedIsNotBlank(parts[1..]); }
  }

  lemma OneMoreLine(line: string, parts: seq<string>)
    ensures Joined(Stripped([line] + parts)) == Glue(Strip(line), Joined(Stripped(parts)))
  {
    StrippedIsNotBlank(parts);
    JoinedIsGlued(Strip(line), Stripped(parts));
    assert ([line] + parts)[1..] == parts;
  }

  lemma LastLine(s: string)
    requires OneLine(s)
    ensures OnOneLine(s) == Strip(s)
  {
    if s != "" {
      assert FirstBreak(s) == |s|;
      OneMoreLine(s, []);
      assert [s] + [] == [s];
    }
  }

  lemma FirstBreakAt(a: string, c: char, b: string)
    requires OneLine(a) && IsBreak(c)
    ensures FirstBreak(a + [c] + b) == |a|
  {
    var s := a + [c] + b;
    var i := FirstBreak(s);
    assert s[|a|] == c;
  }

  /** A line, its end, and the rest. */
  lemma FirstLine(a: string, c: char, b: string)
    requires OneLine(a) && IsBreak(c)
    ensures OnOneLine(a + [c] + b) == Glue(Strip(a), OnOneLine(b))
  {
    var s := a + [c] + b;
    FirstBreakAt(a, c, b);
    assert s[..|a|] == a && s[|a| + 1..] == b;
    if c == '\r' && b != "" && b[0] == '\n' {
      assert s[|a| + 2..] == b[1..];
      OneMoreLine(a, SplitLines(b[1..]));
      assert b == "" + [b[0]] + b[1..];
      FirstBreakAt("", b[0], b[1..]);
      OneMoreLine("", SplitLines(b[1..]));
      assert b[..0] == "";
      assert SplitLines(b) == [""] + SplitLines(b[1..]);
    } else {
      OneMoreLine(a, SplitLines(b));
    }
  }
}
