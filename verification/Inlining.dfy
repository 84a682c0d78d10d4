/** What putting a locator on one line does to the text it quotes. */
module Inlining {
  import opened PythonText

  // ---- Replacing ---------------------------------------------------------------------------------------

  lemma {:induction false} ReplaceAbsent(s: string, old_: string, new_: string, c: char)
    requires c in old_ && c !in s
    ensures Replace(s, old_, new_) == s
    decreases |s|
  {
    if s != "" {
      assert !(old_ <= s);
      ReplaceAbsent(s[1..], old_, new_, c);
    }
  }

  lemma ReplaceAtStart(rest: string, old_: string, new_: string)
    requires old_ != ""
    ensures Replace(old_ + rest, old_, new_) == new_ + Replace(rest, old_, new_)
  {
    assert (old_ + rest)[|old_|..] == rest;
  }

  lemma ReplaceLater(c: char, rest: string, old_: string, new_: string)
    requires old_ != "" && !(old_ <= [c] + rest)
    ensures Replace([c] + rest, old_, new_) == [c] + Replace(rest, old_, new_)
  {
    assert ([c] + rest)[1..] == rest;
  }

  lemma FourTogether(a: string, b: string, c: string, d: string)
    ensures a + (b + c + d) == (a + b) + c + d
  {
  }

  lemma CutAtCharacter(old_: string, a: string, c: char, b: string)
    requires old_ <= a + [c] + b && c !in old_
    ensures old_ <= a && a == old_ + a[|old_|..] && a + [c] + b == old_ + (a[|old_|..] + [c] + b)
  {
    assert (a + [c] + b)[|a|] == c;
    assert |old_| <= |a|;
  }

  /** No occurrence crosses a character it does not contain. */
  lemma {:induction false} ReplaceAround(a: string, c: char, b: string, old_: string, new_: string)
    requires old_ != "" && c !in old_
    ensures Replace(a + [c] + b, old_, new_) == Replace(a, old_, new_) + [c] + Replace(b, old_, new_)
    decreases |a|
  {
    if a == "" {
      assert a + [c] + b == [c] + b && ([c] + b)[0] == c;
      ReplaceLater(c, b, old_, new_);
    } else if old_ <= a + [c] + b {
      CutAtCharacter(old_, a, c, b);
      var rest := a[|old_|..];
      ReplaceAtStart(rest + [c] + b, old_, new_);
      ReplaceAtStart(rest, old_, new_);
      ReplaceAround(rest, c, b, old_, new_);
      FourTogether(new_, Replace(rest, old_, new_), [c], Replace(b, old_, new_));
    } else {
      var first, rest := a[0], a[1..];
      assert a == [first] + rest;
      FourTogether([first], rest, [c], b);
      ReplaceLater(first, rest + [c] + b, old_, new_);
      ReplaceLater(first, rest, old_, new_);
      ReplaceAround(rest, c, b, old_, new_);
      FourTogether([first], Replace(rest, old_, new_), [c], Replace(b, old_, new_));
    }
  }

  lemma {:induction false} ReplaceOne(s: string, c: char, new_: string)
    ensures Replace(s, [c], new_) == if s == "" then "" else (if s[0] == c then new_ else [s[0]]) + Replace(s[1..], [c], new_)
    decreases |s|
  {
    if s != "" { assert [c] <= s <==> s[0] == c; }
  }

  lemma {:induction false} ReplaceOneAppend(a: string, b: string, c: char, new_: string)
    ensures Replace(a + b, [c], new_) == Replace(a, [c], new_) + Replace(b, [c], new_)
    decreases |a|
  {
    if a == "" {
      assert a + b == b;
    } else {
      assert (a + b)[0] == a[0] && (a + b)[1..] == a[1..] + b;
      ReplaceOne(a + b, c, new_);
      ReplaceOne(a, c, new_);
      ReplaceOneAppend(a[1..], b, c, new_);
    }
  }

  predicate Lacks(s: string, part: string) {
    forall i :: 0 <= i <= |s| ==> !(part <= s[i..])
  }

  /** What is left when an occurrence is replaced is shorter; nothing else changes the text. */
  lemma {:induction false} ReplaceShortens(s: string, old_: string, new_: string)
    requires |new_| < |old_|
    ensures Replace(s, old_, new_) == s || |Replace(s, old_, new_)| < |s|
    ensures Replace(s, old_, new_) == s <==> Lacks(s, old_)
    decreases |s|
  {
    if s == "" {
    } else if old_ <= s {
      ReplaceShortens(s[|old_|..], old_, new_);
      assert old_ <= s[0..];
    } else {
      ReplaceShortens(s[1..], old_, new_);
      assert forall i :: 0 <= i < |s| ==> s[i + 1..] == s[1..][i..];
      if Replace(s[1..], old_, new_) == s[1..] {
        forall i | 0 <= i <= |s| ensures !(old_ <= s[i..]) {
          if i > 0 { assert s[i..] == s[1..][i - 1..]; } else { assert s[0..] == s; }
        }
      } else {
        var i :| 0 <= i <= |s[1..]| && old_ <= s[1..][i..];
        assert s[1..][i..] == s[i + 1..];
        assert Replace(s, old_, new_)[1..] == Replace(s[1..], old_, new_);
      }
    }
  }

  // ---- Escaping --------------------------------------------------------------------------------------------

  function EscapedChar(c: char): string {
    if c == '\\' then "\\\\" else if c == '"' then "\\\"" else [c]
  }

  lemma EscapeAppend(a: string, b: string)
    ensures Escape(a + b) == Escape(a) + Escape(b)
  {
    ReplaceOneAppend(a, b, '\\', "\\\\");
    ReplaceOneAppend(Replace(a, "\\", "\\\\"), Replace(b, "\\", "\\\\"), '"', "\\\"");
  }

  lemma EscapeOne(c: char)
    ensures Escape([c]) == EscapedChar(c)
  {
    ReplaceOne([c], '\\', "\\\\");
    var s := Replace([c], "\\", "\\\\");
    assert s == if c == '\\' then "\\\\" else [c];
    ReplaceOne(s, '"', "\\\"");
    ReplaceOne(s[1..], '"', "\\\"");
  }

  /** Escaping works on each character by itself. */
  lemma EscapeFirst(c: char, rest: string)
    ensures Escape([c] + rest) == EscapedChar(c) + Escape(rest)
  {
    EscapeAppend([c], rest);
    EscapeOne(c);
  }

  lemma {:induction false} OccursInEscaped(s: string, old_: string)
    requires '\\' !in old_ && '"' !in old_
    ensures old_ <= Escape(s) <==> old_ <= s
    decreases |old_|
  {
    if old_ != "" && s != "" {
      assert s == [s[0]] + s[1..];
      EscapeFirst(s[0], s[1..]);
      assert old_[0] in old_;
      if old_[0] == s[0] {
        assert forall c <- old_[1..] :: c in old_;
        OccursInEscaped(s[1..], old_[1..]);
        var e := Escape(s);
        assert e[1..] == Escape(s[1..]);
        assert old_ <= e <==> old_[1..] <= e[1..];
        assert old_ <= s <==> old_[1..] <= s[1..];
      }
    }
  }

  /** Replacing text without quotes or backslashes may as well be done before escaping. */
  lemma {:induction false} ReplaceInEscaped(s: string, old_: string, new_: string)
    requires old_ != "" && '\\' !in old_ && '"' !in old_
    requires '\\' !in new_ && '"' !in new_
    ensures Replace(Escape(s), old_, new_) == Escape(Replace(s, old_, new_))
    decreases |s|
  {
    if s != "" {
      OccursInEscaped(s, old_);
      if old_ <= s {
        var rest := s[|old_|..];
        assert s == old_ + rest;
        EscapeAppend(old_, rest);
        EscapePlain(old_);
        EscapeAppend(new_, Replace(rest, old_, new_));
        EscapePlain(new_);
        assert Escape(s)[|old_|..] == Escape(rest);
        ReplaceInEscaped(rest, old_, new_);
      } else {
        assert s == [s[0]] + s[1..];
        EscapeFirst(s[0], s[1..]);
        EscapeFirst(s[0], Replace(s[1..], old_, new_));
        ReplaceInEscaped(s[1..], old_, new_);
        ReplaceSkips(EscapedChar(s[0]), Escape(s[1..]), old_, new_);
      }
    }
  }

  lemma {:induction false} EscapePlain(s: string)
    requires '\\' !in s && '"' !in s
    ensures Escape(s) == s
    decreases |s|
  {
    if s != "" {
      assert s == [s[0]] + s[1..];
      EscapeFirst(s[0], s[1..]);
      EscapePlain(s[1..]);
    }
  }

  lemma ReplaceSkips(c: string, rest: string, old_: string, new_: string)
    requires 1 <= |c| <= 2 && old_ != "" && !(old_ <= c + rest) && (|c| == 2 ==> old_[0] != c[1])
    ensures Replace(c + rest, old_, new_) == c + Replace(rest, old_, new_)
  {
    var s := c + rest;
    if |c| == 1 {
      assert s[1..] == rest;
    } else {
      assert s[1..][0] == c[1] && s[1..][1..] == rest;
    }
  }

  // ---- Stripping --------------------------------------------------------------------------------------------

  lemma {:induction false} LeftStripAppend(a: string, b: string)
    requires b != "" && !IsSpace(b[0])
    ensures LeftStrip(a + b) == LeftStrip(a) + b
    decreases |a|
  {
    if a == "" {
      assert a + b == b;
    } else {
      assert (a + b)[0] == a[0] && (a + b)[1..] == a[1..] + b;
      LeftStripAppend(a[1..], b);
    }
  }

  lemma {:induction false} RightStripAppend(a: string, b: string)
    requires a != "" && !IsSpace(a[|a| - 1])
    ensures RightStrip(a + b) == a + RightStrip(b)
    decreases |b|
  {
    if b == "" {
      assert a + b == a;
    } else {
      assert (a + b)[|a + b| - 1] == b[|b| - 1] && (a + b)[..|a + b| - 1] == a + b[..|b| - 1];
      RightStripAppend(a, b[..|b| - 1]);
    }
  }

  lemma {:induction false} LeftStripEscaped(s: string)
    ensures LeftStrip(Escape(s)) == Escape(LeftStrip(s))
    decreases |s|
  {
    if s != "" {
      assert s == [s[0]] + s[1..];
      EscapeFirst(s[0], s[1..]);
      if IsSpace(s[0]) {
        assert Escape(s)[1..] == Escape(s[1..]);
        LeftStripEscaped(s[1..]);
      }
    }
  }

  lemma {:induction false} RightStripEscaped(s: string)
    ensures RightStrip(Escape(s)) == Escape(RightStrip(s))
    decreases |s|
  {
    if s != "" {
      var front, last := s[..|s| - 1], s[|s| - 1];
      assert s == front + [last];
      EscapeAppend(front, [last]);
      EscapeOne(last);
      if IsSpace(last) {
        assert Escape(s)[..|Escape(s)| - 1] == Escape(front);
        RightStripEscaped(front);
      }
    }
  }

  lemma StripEscaped(s: string)
    ensures Strip(Escape(s)) == Escape(Strip(s))
    ensures Escape(s) == "" <==> s == ""
  {
    LeftStripEscaped(s);
    RightStripEscaped(LeftStrip(s));
    if s != "" { assert s == [s[0]] + s[1..]; EscapeFirst(s[0], s[1..]); }
  }

  lemma {:induction false} EscapedOneLine(s: string)
    requires OneLine(s)
    ensures OneLine(Escape(s))
    decreases |s|
  {
    if s != "" {
      assert s == [s[0]] + s[1..];
      assert forall c <- s[1..] :: c in s;
      EscapeFirst(s[0], s[1..]);
      EscapedOneLine(s[1..]);
    }
  }

  // ---- A quoted text on one line ---------------------------------------------------------------------------------

  /** A text after a line break, with code behind it. */
  function MendedTail(s: string): string
    decreases |s|
  {
    var i := FirstBreak(s);
    if i == |s| then LeftStrip(s)
    else (if Strip(s[..i]) == "" then "" else Strip(s[..i]) + " ") + MendedTail(s[i + 1..])
  }

  /** A text with code around it: at line breaks, whitespace and blank lines shrink to one space. */
  function Mended(s: string): string {
    var i := FirstBreak(s);
    if i == |s| then s else RightStrip(s[..i]) + " " + MendedTail(s[i + 1..])
  }

  lemma MendedTailAt(a: string, c: char, b: string)
    requires OneLine(a) && IsBreak(c)
    ensures MendedTail(a + [c] + b) == (if Strip(a) == "" then "" else Strip(a) + " ") + MendedTail(b)
  {
    FirstBreakAt(a, c, b);
    assert (a + [c] + b)[..|a|] == a && (a + [c] + b)[|a| + 1..] == b;
  }

  lemma MendedAt(a: string, c: char, b: string)
    requires OneLine(a) && IsBreak(c)
    ensures Mended(a + [c] + b) == RightStrip(a) + " " + MendedTail(b)
  {
    FirstBreakAt(a, c, b);
    assert (a + [c] + b)[..|a|] == a && (a + [c] + b)[|a| + 1..] == b;
  }

  lemma WithoutBreak(s: string)
    requires OneLine(s)
    ensures FirstBreak(s) == |s| && Mended(s) == s && MendedTail(s) == LeftStrip(s)
  {
  }

  lemma AtBreak(s: string) returns (a: string, c: char, b: string)
    requires !OneLine(s)
    ensures OneLine(a) && IsBreak(c) && s == a + [c] + b && |b| < |s|
  {
    var i := FirstBreak(s);
    assert i < |s| by { assert s[..|s|] == s; }
    a, c, b := s[..i], s[i], s[i + 1..];
  }

  lemma {:induction false} MendedTailEscaped(s: string)
    ensures MendedTail(Escape(s)) == Escape(MendedTail(s))
    decreases |s|
  {
    if OneLine(s) {
      EscapedOneLine(s);
      WithoutBreak(s);
      WithoutBreak(Escape(s));
      LeftStripEscaped(s);
    } else {
      var a, c, b := AtBreak(s);
      EscapedAtBreak(a, c, b);
      MendedTailAt(a, c, b);
      MendedTailAt(Escape(a), c, Escape(b));
      MendedTailEscaped(b);
      StripEscaped(a);
      StripEscaped(Strip(a));
      EscapeAppend(Strip(a) + " ", MendedTail(b));
      EscapeAppend(Strip(a), " ");
      EscapePlain(" ");
      assert "" + MendedTail(b) == MendedTail(b);
    }
  }

  lemma EscapedAtBreak(a: string, c: char, b: string)
    requires OneLine(a) && IsBreak(c)
    ensures OneLine(Escape(a)) && Escape(a + [c] + b) == Escape(a) + [c] + Escape(b)
  {
    EscapedOneLine(a);
    EscapeAppend(a + [c], b);
    EscapeAppend(a, [c]);
    EscapeOne(c);
  }

  lemma MendedEscaped(s: string)
    ensures Mended(Escape(s)) == Escape(Mended(s))
  {
    if OneLine(s) {
      EscapedOneLine(s);
      WithoutBreak(s);
      WithoutBreak(Escape(s));
    } else {
      var a, c, b := AtBreak(s);
      EscapedAtBreak(a, c, b);
      MendedAt(a, c, b);
      MendedAt(Escape(a), c, Escape(b));
      MendedTailEscaped(b);
      RightStripEscaped(a);
      EscapeAppend(RightStrip(a) + " ", MendedTail(b));
      EscapeAppend(RightStrip(a), " ");
      EscapePlain(" ");
    }
  }

  // ---- Code on one line ----------------------------------------------------------------------------------------

  lemma TailLine(s: string, post: string)
    requires OneLine(s) && post != "" && OneLine(post) && Trimmed(post)
    ensures OnOneLine(s + post) == LeftStrip(s) + post
  {
    LeftStripAppend(s, post);
    EndsWith(LeftStrip(s), post);
    EndsWith(s, post);
    LastLine(s + post);
  }

  lemma EndsWith(s: string, post: string)
    requires post != "" && Trimmed(post)
    ensures RightStrip(s + post) == s + post
    ensures OneLine(s) && OneLine(post) ==> OneLine(s + post)
  {
    assert (s + post)[|s + post| - 1] == post[|post| - 1];
  }

  lemma GlueBefore(line: string, tail: string, post: string)
    requires post != ""
    ensures Glue(line, tail + post) == (if line == "" then "" else line + " ") + tail + post
  {
    assert line + " " + (tail + post) == line + " " + tail + post;
    assert "" + tail + post == tail + post;
  }

  lemma {:induction false} TailOnOneLine(s: string, post: string)
    requires post != "" && OneLine(post) && Trimmed(post)
    ensures OnOneLine(s + post) == MendedTail(s) + post
    decreases |s|
  {
    if OneLine(s) {
      WithoutBreak(s);
      TailLine(s, post);
    } else {
      var a, c, b := AtBreak(s);
      MendedTailAt(a, c, b);
      assert s + post == a + [c] + (b + post);
      FirstLine(a, c, b + post);
      TailOnOneLine(b, post);
      GlueBefore(Strip(a), MendedTail(b), post);
    }
  }

  lemma TrimmedLine(s: string)
    requires OneLine(s) && Trimmed(s)
    ensures OnOneLine(s) == s
  {
    LastLine(s);
    StripTrims(s);
  }

  lemma HeadStripped(pre: string, a: string)
    requires pre != "" && Trimmed(pre)
    ensures Strip(pre + a) == pre + RightStrip(a)
  {
    RightStripAppend(pre, a);
    assert (pre + a)[0] == pre[0];
    assert LeftStrip(pre + a) == pre + a;
  }

  /** Code with one quoted text in it: code before and after stays, the text is mended. */
  lemma WholeOnOneLine(pre: string, s: string, post: string)
    requires pre != "" && OneLine(pre) && Trimmed(pre)
    requires post != "" && OneLine(post) && Trimmed(post)
    ensures OnOneLine(pre + s + post) == pre + Mended(s) + post
  {
    if OneLine(s) {
      WithoutBreak(s);
      UnbrokenOnOneLine(pre, s, post);
    } else {
      var a, c, b := AtBreak(s);
      MendedAt(a, c, b);
      BrokenOnOneLine(pre, a, c, b, post);
      Regrouped(pre, a, c, b, post);
    }
  }

  lemma Regrouped(pre: string, a: string, c: char, b: string, post: string)
    ensures pre + (a + [c] + b) + post == (pre + a) + [c] + (b + post)
  {
  }

  lemma UnbrokenOnOneLine(pre: string, s: string, post: string)
    requires pre != "" && OneLine(pre) && Trimmed(pre) && OneLine(s)
    requires post != "" && OneLine(post) && Trimmed(post)
    ensures OnOneLine(pre + s + post) == pre + s + post
  {
    var all := pre + s + post;
    assert all[0] == pre[0] && all[|all| - 1] == post[|post| - 1];
    TrimmedLine(all);
  }

  lemma BrokenOnOneLine(pre: string, a: string, c: char, b: string, post: string)
    requires pre != "" && OneLine(pre) && Trimmed(pre)
    requires post != "" && OneLine(post) && Trimmed(post)
    requires OneLine(a) && IsBreak(c)
    ensures OnOneLine((pre + a) + [c] + (b + post)) == pre + (RightStrip(a) + " " + MendedTail(b)) + post
  {
    FirstLine(pre + a, c, b + post);
    HeadStripped(pre, a);
    TailOnOneLine(b, post);
    var head, tail := pre + RightStrip(a), MendedTail(b);
    GlueBefore(head, tail, post);
    FourTogether(pre, RightStrip(a), " ", tail);
  }

  lemma {:induction false} LineAppended(s: string, more: string)
    ensures OnOneLine(s + "\n" + more) == Glue(OnOneLine(s), OnOneLine(more))
    decreases |s|
  {
    if OneLine(s) {
      LastLine(s);
      FirstLine(s, '\n', more);
    } else {
      var a, c, b := AtBreak(s);
      assert s + "\n" + more == a + [c] + (b + "\n" + more);
      FirstLine(a, c, b + "\n" + more);
      FirstLine(a, c, b);
      LineAppended(b, more);
    }
  }

  lemma LeadingSpace(s: string)
    ensures OnOneLine(" " + s) == OnOneLine(s)
  {
    if OneLine(s) {
      LastLine(s);
      LastLine(" " + s);
      SpaceStripped(s);
    } else {
      var a, c, b := AtBreak(s);
      Regrouped(" ", a, c, b, "");
      assert " " + s == (" " + a) + [c] + b;
      FirstLine(" " + a, c, b);
      FirstLine(a, c, b);
      SpaceStripped(a);
    }
  }

  lemma SpaceStripped(s: string)
    ensures Strip(" " + s) == Strip(s)
  {
    assert (" " + s)[0] == ' ' && (" " + s)[1..] == s;
  }

  lemma FourSpaces(s: string)
    ensures "    " + s == " " + (" " + (" " + (" " + s)))
  {
  }

  lemma Indented(s: string)
    ensures OnOneLine("    " + s) == OnOneLine(s)
  {
    FourSpaces(s);
    var once := " " + s;
    var twice := " " + once;
    LeadingSpace(s);
    LeadingSpace(once);
    LeadingSpace(twice);
    LeadingSpace(" " + twice);
  }

  // ---- Dropping spaces ------------------------------------------------------------------------------------------

  /** Other characters keep apart what is done on their two sides. */
  lemma DropSpacesAround(a: string, c: char, b: string)
    requires c != '(' && c != ')' && c != ',' && c != ' '
    ensures DropSpaces(a + [c] + b) == DropSpaces(a) + [c] + DropSpaces(b)
  {
    var a1, b1 := Replace(a, "( ", "("), Replace(b, "( ", "(");
    ReplaceAround(a, c, b, "( ", "(");
    ReplaceAround(a1, c, b1, " )", ")");
    ReplaceAround(Replace(a1, " )", ")"), c, Replace(b1, " )", ")"), ", )", ")");
  }

  lemma NoSpacesToDrop(s: string)
    requires ' ' !in s || ('(' !in s && ')' !in s)
    ensures DropSpaces(s) == s
  {
    var absent := if ' ' in s then '(' else ' ';
    ReplaceAbsent(s, "( ", "(", absent);
    absent := if ' ' in s then ')' else ' ';
    ReplaceAbsent(s, " )", ")", absent);
    ReplaceAbsent(s, ", )", ")", absent);
  }

  lemma {:induction false} ReplaceFirst(a: string, old_: string, new_: string, b: string)
    requires old_ != "" && old_[0] !in a
    ensures Replace(a + old_ + b, old_, new_) == a + new_ + Replace(b, old_, new_)
    decreases |a|
  {
    if a == "" {
      assert a + old_ + b == old_ + b && a + new_ == new_;
      ReplaceAtStart(b, old_, new_);
    } else {
      var first, rest := a[0], a[1..];
      assert a == [first] + rest;
      FourTogether([first], rest, old_, b);
      ReplaceLater(first, rest + old_ + b, old_, new_);
      ReplaceFirst(rest, old_, new_, b);
      FourTogether([first], rest, new_, Replace(b, old_, new_));
    }
  }

  lemma SpaceAfterOpening(a: string, b: string)
    requires ' ' !in a && '(' !in a && ' ' !in b
    ensures DropSpaces(a + "( " + b) == a + "(" + b
  {
    ReplaceFirst(a, "( ", "(", b);
    ReplaceAbsent(b, "( ", "(", ' ');
    var s := a + "(" + b;
    ReplaceAbsent(s, " )", ")", ' ');
    ReplaceAbsent(s, ", )", ")", ' ');
  }

  lemma SpaceBeforeClosing()
    ensures DropSpaces(" )") == ")"
  {
    ReplaceAbsent(" )", "( ", "(", '(');
    ReplaceFirst("", " )", ")", "");
    ReplaceAbsent(")", ", )", ")", ' ');
  }

  lemma DropSpacesEscaped(s: string)
    ensures DropSpaces(Escape(s)) == Escape(DropSpaces(s))
  {
    var s1 := Replace(s, "( ", "(");
    ReplaceInEscaped(s, "( ", "(");
    ReplaceInEscaped(s1, " )", ")");
    ReplaceInEscaped(Replace(s1, " )", ")"), ", )", ")");
  }

  // ---- What is shown for a value ----------------------------------------------------------------------------------

  /** What the displayed code says where the suggestion has `value`. */
  function Shown(value: string): string {
    DropSpaces(Mended(value))
  }

  predicate ShownAsIs(value: string) {
    OneLine(value) && Lacks(value, "( ") && Lacks(value, " )") && Lacks(value, ", )")
  }

  lemma {:induction false} ReplaceOnOneLine(s: string, old_: string, new_: string)
    requires old_ != "" && OneLine(s) && OneLine(new_)
    ensures OneLine(Replace(s, old_, new_))
    decreases |s|
  {
    if s != "" {
      if old_ <= s { ReplaceOnOneLine(s[|old_|..], old_, new_); } else { ReplaceOnOneLine(s[1..], old_, new_); }
    }
  }

  lemma {:induction false} LeftStripPart(s: string)
    ensures forall c <- LeftStrip(s) :: c in s
    decreases |s|
  {
    if s != "" && IsSpace(s[0]) { LeftStripPart(s[1..]); }
  }

  lemma StripPart(s: string)
    ensures forall c <- Strip(s) :: c in s
    ensures forall c <- RightStrip(s) :: c in s
  {
    LeftStripPart(s);
    RightStripTrims(s);
    RightStripTrims(LeftStrip(s));
  }

  lemma {:induction false} MendedTailIsOneLine(s: string)
    ensures OneLine(MendedTail(s))
    decreases |s|
  {
    if OneLine(s) {
      WithoutBreak(s);
      LeftStripPart(s);
    } else {
      var a, c, b := AtBreak(s);
      MendedTailAt(a, c, b);
      StripPart(a);
      MendedTailIsOneLine(b);
    }
  }

  lemma MendedIsOneLine(s: string)
    ensures OneLine(Mended(s))
  {
    if OneLine(s) {
      WithoutBreak(s);
    } else {
      var a, c, b := AtBreak(s);
      MendedAt(a, c, b);
      StripPart(a);
      MendedTailIsOneLine(b);
    }
  }

  lemma ShownIsOneLine(value: string)
    ensures OneLine(Shown(value))
  {
    MendedIsOneLine(value);
    var s := Replace(Mended(value), "( ", "(");
    ReplaceOnOneLine(Mended(value), "( ", "(");
    ReplaceOnOneLine(s, " )", ")");
    ReplaceOnOneLine(Replace(s, " )", ")"), ", )", ")");
  }

  /** A value is shown as it is if and only if it has no line break, and no space that `inline` drops. */
  lemma WhatIsShownAsIs(value: string)
    ensures Shown(value) == value <==> ShownAsIs(value)
  {
    if OneLine(value) {
      WithoutBreak(value);
      var v1 := Replace(value, "( ", "(");
      var v2 := Replace(v1, " )", ")");
      ReplaceShortens(value, "( ", "(");
      ReplaceShortens(v1, " )", ")");
      ReplaceShortens(v2, ", )", ")");
    } else {
      ShownIsOneLine(value);
    }
  }
}
