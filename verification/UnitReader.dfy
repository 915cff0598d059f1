/** The reader of src/cli/doctor.rs on units no printer wrote: indented lines, spaces after the equals
    sign, a program without quotes, line ends of either kind. */
module UnitReader {
  import opened Prelude
  import opened UnitFile
  import opened UnitRoundTrip

  /** Code points with the Unicode property White_Space. */
  const WHITE := {0x9, 0xa, 0xb, 0xc, 0xd, 0x20, 0x85, 0xa0, 0x1680, 0x2000, 0x2001, 0x2002, 0x2003, 0x2004, 0x2005, 0x2006,
                  0x2007, 0x2008, 0x2009, 0x200a, 0x2028, 0x2029, 0x202f, 0x205f, 0x3000}

  predicate Blank(c: char) {
    c as int in WHITE
  }

  predicate AllBlank(t: string) {
    forall i :: 0 <= i < |t| ==> Blank(t[i])
  }

  lemma SpaceIsBlank(c: char)
    ensures IsSpace(c) <==> Blank(c)
  {
  }

  lemma {:induction false} TrimStartSkips(gap: string, t: string)
    requires AllBlank(gap) && (t == "" || !Blank(t[0]))
    ensures TrimStart(gap + t) == t
  {
    if gap == "" {
      assert gap + t == t;
      if t != "" {
        SpaceIsBlank(t[0]);
      }
    } else {
      SpaceIsBlank(gap[0]);
      assert (gap + t)[1..] == gap[1..] + t;
      TrimStartSkips(gap[1..], t);
    }
  }

  lemma {:induction false} WordStops(u: string, v: string)
    requires (forall i :: 0 <= i < |u| ==> !Blank(u[i])) && (v == "" || Blank(v[0]))
    ensures Word(u + v) == u
  {
    if u == "" {
      assert u + v == v;
      if v != "" {
        SpaceIsBlank(v[0]);
      }
    } else {
      SpaceIsBlank(u[0]);
      assert (u + v)[1..] == u[1..] + v;
      WordStops(u[1..], v);
    }
  }

  /** The program's line: a blank margin, the key, a blank gap, the program, and what follows it. */
  function ExecLine(margin: string, gap: string, owl: string, tail: string): string {
    margin + ("ExecStart=" + (gap + (owl + tail)))
  }

  predicate Bare(owl: string) {
    owl != "" && owl[0] != '"' && forall i :: 0 <= i < |owl| ==> !Blank(owl[i])
  }

  lemma LetterIsNotBlank()
    ensures !Blank('E') && !Blank('"') && Blank('\n') && Blank('\r')
  {
  }

  lemma Regroup(gap: string, owl: string, tail: string)
    ensures "ExecStart=" + (gap + (owl + tail)) == ("ExecStart=" + (gap + owl)) + tail
  {
    var key := "ExecStart=";
    assert key + (gap + (owl + tail)) == (key + (gap + owl)) + tail;
  }

  lemma FrontEnds(gap: string, owl: string)
    requires owl != ""
    ensures var front := "ExecStart=" + (gap + owl); front[0] == 'E' && front[|front| - 1] == owl[|owl| - 1]
  {
  }

  lemma PrefixOfFront(front: string, tail: string, t: string) returns (kept: string)
    requires front <= t && t <= front + tail
    ensures kept <= tail && t == front + kept
  {
    kept := t[|front|..];
    assert tail == (front + tail)[|front|..];
  }

  /** The line without what trimming takes from its ends. */
  lemma TrimmedLine(margin: string, gap: string, owl: string, tail: string) returns (kept: string)
    requires AllBlank(margin) && Bare(owl) && (tail == "" || Blank(tail[0]))
    ensures kept <= tail && Trim(ExecLine(margin, gap, owl, tail)) == "ExecStart=" + (gap + (owl + kept))
  {
    LetterIsNotBlank();
    SpaceIsBlank(owl[|owl| - 1]);
    assert !Blank(owl[|owl| - 1]);
    hide Blank, IsSpace, TrimStart, TrimEnd, AllBlank, Bare;
    var front := "ExecStart=" + (gap + owl);
    Regroup(gap, owl, tail);
    FrontEnds(gap, owl);
    TrimStartSkips(margin, front + tail);
    TrimEndKeeps(front + tail, front);
    kept := PrefixOfFront(front, tail, TrimEnd(front + tail));
    Regroup(gap, owl, kept);
  }

  lemma LastOfLine(margin: string, gap: string, owl: string, tail: string)
    requires owl != ""
    ensures var line := ExecLine(margin, gap, owl, tail);
            && line != "" && line[|line| - 1] == (if tail == "" then owl[|owl| - 1] else tail[|tail| - 1])
            && (tail != "" ==> line[..|line| - 1] == ExecLine(margin, gap, owl, tail[..|tail| - 1]))
  {
  }

  lemma OneLine(margin: string, gap: string, owl: string, tail: string)
    requires Bare(owl) && '\n' !in margin && '\n' !in gap && '\n' !in tail
    ensures '\n' !in ExecLine(margin, gap, owl, tail) && owl[|owl| - 1] != '\r'
  {
    LetterIsNotBlank();
    hide Blank;
    assert '\n' !in "ExecStart=" && '\n' !in owl;
  }

  /** `lines` takes the line up to the newline, less a carriage return before it. */
  lemma LineTaken(margin: string, gap: string, owl: string, tail: string, rest: string) returns (tail': string)
    requires Bare(owl) && '\n' !in margin && '\n' !in gap && '\n' !in tail
    ensures LineOf(ExecLine(margin, gap, owl, tail) + ("\n" + rest)) == ExecLine(margin, gap, owl, tail') && tail' <= tail
  {
    var line := ExecLine(margin, gap, owl, tail);
    OneLine(margin, gap, owl, tail);
    LastOfLine(margin, gap, owl, tail);
    BeforeSkips(line, "\n" + rest);
    assert Before("\n" + rest) == "" && line + "" == line;
    hide ExecLine, Bare, Before;
    tail' := if tail != "" && line[|line| - 1] == '\r' then tail[..|tail| - 1] else tail;
  }

  lemma ExecFound(margin: string, gap: string, owl: string, tail: string, rest: string) returns (kept: string)
    requires AllBlank(margin) && Bare(owl) && (tail == "" || Blank(tail[0]))
    requires '\n' !in margin && '\n' !in gap && '\n' !in tail
    ensures kept <= tail && ExecOf(ExecLine(margin, gap, owl, tail) + ("\n" + rest)) == Some(gap + (owl + kept))
  {
    var t := ExecLine(margin, gap, owl, tail) + ("\n" + rest);
    hide Trim, LineOf, ExecLine, Before, Blank, AllBlank, Bare;
    var tail' := LineTaken(margin, gap, owl, tail, rest);
    assert tail' == "" || tail'[0] == tail[0];
    kept := TrimmedLine(margin, gap, owl, tail');
    var line := "ExecStart=" + (gap + (owl + kept));
    assert Trim(LineOf(t)) == line && "ExecStart=" <= line && line[|"ExecStart="|..] == gap + (owl + kept);
  }

  lemma TokenIsBare(gap: string, owl: string, kept: string)
    requires AllBlank(gap) && Bare(owl) && (kept == "" || Blank(kept[0]))
    ensures var exec := TrimStart(gap + (owl + kept)); exec != "" && SystemdUnquote(Token(exec)) == owl
  {
    assert (owl + kept)[0] == owl[0] && !Blank(owl[0]);
    hide Blank, TrimStart, Word, Closing, Replace;
    TrimStartSkips(gap, owl + kept);
    WordStops(owl, kept);
  }

  /** A unit whose program stands without quotes is read up to the first blank after it, whatever the
      margin, the gap and the line end are, if the plist key is nowhere in it. */
  lemma BareProgramIsRead(lines: seq<string>, margin: string, gap: string, owl: string, tail: string, rest: string)
    requires (forall i :: 0 <= i < |lines| ==> Dull(lines[i])) && AllBlank(margin) && AllBlank(gap) && Bare(owl)
    requires '\n' !in margin && '\n' !in gap && '\n' !in tail && (tail == "" || Blank(tail[0]))
    requires var text := WithNewlines(lines) + (ExecLine(margin, gap, owl, tail) + ("\n" + rest)); Find(text, KEY).None?
    ensures ProgramIn(WithNewlines(lines) + (ExecLine(margin, gap, owl, tail) + ("\n" + rest))) == Some(owl)
  {
    var t := ExecLine(margin, gap, owl, tail) + ("\n" + rest);
    hide ExecOf, Find, TrimStart, ExecLine, WithNewlines, Blank, AllBlank, Bare, Dull, Token, SystemdUnquote;
    PassesLines(lines, t);
    var kept := ExecFound(margin, gap, owl, tail, rest);
    assert kept == "" || kept[0] == tail[0];
    TokenIsBare(gap, owl, kept);
  }
}
