/** The reader of the service unit undoes its printer, and exactly when. */
module UnitRoundTrip {
  import opened Prelude
  import opened UnitFile

  // ---- `replace` and `find` over a concatenation ----

  lemma {:induction false} ReplaceSkips(u: string, t: string, pat: string, rep: string)
    requires pat != "" && forall i :: 0 <= i < |u| ==> !(pat <= (u + t)[i..])
    ensures Replace(u + t, pat, rep) == u + Replace(t, pat, rep)
  {
    if u == "" {
      assert u + t == t;
    } else {
      assert (u + t)[1..] == u[1..] + t;
      assert (u + t)[0..] == u + t;
      forall i | 0 <= i < |u| - 1 ensures !(pat <= (u[1..] + t)[i..]) {
        assert (u[1..] + t)[i..] == (u + t)[i + 1..];
      }
      ReplaceSkips(u[1..], t, pat, rep);
    }
  }

  lemma ReplaceHits(t: string, pat: string, rep: string)
    requires pat != ""
    ensures Replace(pat + t, pat, rep) == rep + Replace(t, pat, rep)
  {
    assert (pat + t)[|pat|..] == t;
  }

  lemma {:induction false} ReplaceKeepsLast(t: string, pat: string, rep: string)
    requires pat != "" && t != "" && t[|t| - 1] !in pat
    ensures var r := Replace(t, pat, rep); r != "" && r[|r| - 1] == t[|t| - 1]
    decreases |t|
  {
    if pat <= t {
      assert pat[|pat| - 1] == t[|pat| - 1];
      ReplaceKeepsLast(t[|pat|..], pat, rep);
    } else if 1 < |t| {
      ReplaceKeepsLast(t[1..], pat, rep);
    }
  }

  lemma {:induction false} ReplaceAddsNo(t: string, pat: string, rep: string, c: char)
    requires pat != "" && c !in t && c !in rep
    ensures c !in Replace(t, pat, rep)
    decreases |t|
  {
    if t != "" {
      if pat <= t {
        ReplaceAddsNo(t[|pat|..], pat, rep, c);
      } else {
        ReplaceAddsNo(t[1..], pat, rep, c);
      }
    }
  }

  /** `pat` cannot start anywhere in the piece. */
  predicate StartsElsewhere(piece: string, pat: string) {
    && (exists k :: 0 <= k < |piece| && k < |pat| && piece[k] != pat[k])
    && pat != "" && forall i :: 1 <= i < |piece| ==> piece[i] != pat[0]
  }

  lemma {:induction false} FindSkipsTail(u: string, t: string, pat: string)
    requires pat != "" && pat[0] !in u
    ensures Find(u + t, pat) == Shift(|u|, Find(t, pat))
  {
    if u == "" {
      assert u + t == t;
    } else {
      assert (u + t)[1..] == u[1..] + t;
      FindSkipsTail(u[1..], t, pat);
    }
  }

  lemma FindSkips(u: string, t: string, pat: string)
    requires StartsElsewhere(u, pat)
    ensures Find(u + t, pat) == Shift(|u|, Find(t, pat))
  {
    assert (u + t)[1..] == u[1..] + t;
    FindSkipsTail(u[1..], t, pat);
  }

  lemma {:induction false} FindSkipsAll(pieces: seq<string>, t: string, pat: string)
    requires forall i :: 0 <= i < |pieces| ==> StartsElsewhere(pieces[i], pat)
    ensures Find(Join(pieces) + t, pat) == Shift(|Join(pieces)|, Find(t, pat))
  {
    if pieces == [] {
      assert Join(pieces) + t == t;
    } else {
      FindSkipsAll(pieces[1..], t, pat);
      FindSkips(pieces[0], Join(pieces[1..]) + t, pat);
      assert Join(pieces) + t == pieces[0] + (Join(pieces[1..]) + t);
      hide StartsElsewhere;
    }
  }

  // ---- where a pattern occurs ----

  ghost predicate Occurs(t: string, pat: string) {
    exists i :: 0 <= i <= |t| && pat <= t[i..]
  }

  lemma {:induction false} FindIffOccurs(t: string, pat: string)
    ensures Find(t, pat).Some? <==> Occurs(t, pat)
  {
    assert t[0..] == t;
    if !(pat <= t) && t != "" {
      FindIffOccurs(t[1..], pat);
      if Occurs(t, pat) {
        var i :| 0 <= i <= |t| && pat <= t[i..];
        assert t[1..][i - 1..] == t[i..];
      }
      if Occurs(t[1..], pat) {
        var i :| 0 <= i <= |t[1..]| && pat <= t[1..][i..];
        assert t[1..][i..] == t[i + 1..];
      }
    }
  }

  function Around(u: string, v: string): string {
    u + ['"'] + v
  }

  /** A match that starts before the quote ends before it. */
  lemma NotAcross(u: string, v: string, pat: string, i: nat)
    requires i <= |u| && pat <= Around(u, v)[i..] && '"' !in pat
    ensures pat <= u[i..]
  {
    var t := Around(u, v);
    forall k | i <= k < i + |pat| ensures t[k] in pat {
      assert t[k] == t[i..][k - i] == pat[k - i];
    }
    assert t[|u|] == '"';
    assert forall k :: 0 <= k < |pat| ==> pat[k] == t[i..][k] == u[i..][k];
  }

  lemma OccursAcross(u: string, v: string, pat: string, i: nat)
    requires i <= |Around(u, v)| && pat <= Around(u, v)[i..] && '"' !in pat && pat != ""
    ensures Occurs(u, pat) || Occurs(v, pat)
  {
    if i <= |u| {
      NotAcross(u, v, pat, i);
    } else {
      assert Around(u, v)[i..] == v[i - |u| - 1..];
    }
  }

  lemma {:induction false} FindPast(t: string, n: nat, pat: string)
    requires n <= |t| && forall i :: 0 <= i < n ==> !(pat <= t[i..])
    ensures Find(t, pat) == Shift(n, Find(t[n..], pat))
  {
    assert t[0..] == t;
    if n > 0 {
      forall i | 0 <= i < n - 1 ensures !(pat <= t[1..][i..]) {
        assert t[1..][i..] == t[i + 1..];
      }
      FindPast(t[1..], n - 1, pat);
      assert t[1..][n - 1..] == t[n..];
    }
  }

  lemma FoundBehind(u: string, v: string, pat: string)
    requires !Occurs(u, pat) && '"' !in pat && pat != ""
    ensures Find(Around(u, v), pat) == Shift(|u| + 1, Find(v, pat))
  {
    var t, n := Around(u, v), |u| + 1;
    forall i | 0 <= i < n ensures !(pat <= t[i..]) {
      if pat <= t[i..] {
        NotAcross(u, v, pat, i);
      }
    }
    assert t[n..] == v;
    hide Find, Around;
    FindPast(t, n, pat);
  }

  /** A pattern that is not in front of the quote is split off behind it. */
  lemma SplitAround(u: string, v: string, pat: string)
    requires !Occurs(u, pat) && '"' !in pat && pat != ""
    ensures SplitSecond(Around(u, v), pat) == SplitSecond(v, pat)
  {
    hide Find, SplitFirst, Occurs;
    FoundBehind(u, v, pat);
    if Find(v, pat).Some? {
      var k := Find(v, pat).value;
      assert Around(u, v)[|u| + 1 + k + |pat|..] == v[k + |pat|..];
    }
  }

  /** Across a quote nothing occurs that holds no quote. */
  lemma OccursAround(u: string, v: string, pat: string)
    requires '"' !in pat && pat != ""
    ensures Occurs(Around(u, v), pat) <==> Occurs(u, pat) || Occurs(v, pat)
  {
    var t := Around(u, v);
    if Occurs(t, pat) {
      var i: nat :| 0 <= i <= |t| && pat <= t[i..];
      OccursAcross(u, v, pat, i);
    }
    if Occurs(u, pat) {
      var i :| 0 <= i <= |u| && pat <= u[i..];
      assert t[i..] == u[i..] + (['"'] + v);
    }
    if Occurs(v, pat) {
      var i :| 0 <= i <= |v| && pat <= v[i..];
      assert t[|u| + 1 + i..] == v[i..];
    }
  }

  lemma StartsWhere(t: string, pat: string)
    requires pat != "" && pat[0] !in t
    ensures !Occurs(t, pat)
  {
    forall i | 0 <= i <= |t| ensures !(pat <= t[i..]) {
      assert i < |t| ==> t[i..][0] == t[i];
    }
  }

  // ---- systemd quoting, character by character ----

  function QuotedChar(c: char): string {
    if c == '\\' then "\\\\" else if c == '"' then "\\\"" else [c]
  }

  function Quoted(s: string): string {
    if s == "" then "" else QuotedChar(s[0]) + Quoted(s[1..])
  }

  function Doubled(s: string): string {
    if s == "" then "" else (if s[0] == '\\' then "\\\\" else [s[0]]) + Doubled(s[1..])
  }

  lemma {:induction false} DoublingIsMap(s: string)
    ensures Replace(s, "\\", "\\\\") == Doubled(s)
  {
    if s != "" {
      DoublingIsMap(s[1..]);
      assert s[1..] == s[|"\\"|..];
    }
  }

  lemma {:induction false} QuotingIsMap(s: string)
    ensures Replace(Doubled(s), "\"", "\\\"") == Quoted(s)
  {
    if s != "" {
      QuotingIsMap(s[1..]);
      var rest := Doubled(s[1..]);
      if s[0] == '"' {
        ReplaceHits(rest, "\"", "\\\"");
      } else {
        var u := if s[0] == '\\' then "\\\\" else [s[0]];
        forall i | 0 <= i < |u| ensures !("\"" <= (u + rest)[i..]) {
          assert (u + rest)[i..][0] == u[i];
        }
        ReplaceSkips(u, rest, "\"", "\\\"");
      }
    }
  }

  lemma QuoteIsMap(s: string)
    ensures SystemdQuote(s) == "\"" + Quoted(s) + "\""
  {
    DoublingIsMap(s);
    QuotingIsMap(s);
  }

  lemma QuotedStart(s: string)
    ensures Quoted(s) != "" ==> Quoted(s)[0] != '"'
  {
  }

  lemma {:induction false} UnquotesQuotes(s: string)
    ensures Replace(Quoted(s), "\\\"", "\"") == Doubled(s)
  {
    if s != "" {
      UnquotesQuotes(s[1..]);
      var rest := Quoted(s[1..]);
      if s[0] == '"' {
        ReplaceHits(rest, "\\\"", "\"");
      } else {
        QuotedStart(s[1..]);
        var u := QuotedChar(s[0]);
        forall i | 0 <= i < |u| ensures !("\\\"" <= (u + rest)[i..]) {
          assert (u + rest)[i..][0] == u[i];
          assert i + 1 < |u + rest| ==> (u + rest)[i..][1] == (u + rest)[i + 1];
        }
        ReplaceSkips(u, rest, "\\\"", "\"");
      }
    }
  }

  lemma {:induction false} UnquotesBackslashes(s: string)
    ensures Replace(Doubled(s), "\\\\", "\\") == s
  {
    if s != "" {
      UnquotesBackslashes(s[1..]);
      var rest := Doubled(s[1..]);
      if s[0] == '\\' {
        ReplaceHits(rest, "\\\\", "\\");
      } else {
        assert ([s[0]] + rest)[0..][0] == s[0];
        ReplaceSkips([s[0]], rest, "\\\\", "\\");
      }
    }
  }

  /** The sequential replaces undo each other, for every text. */
  lemma UnquoteUndoesQuote(s: string)
    ensures SystemdUnquote(SystemdQuote(s)) == s
  {
    QuoteIsMap(s);
    UnquotesQuotes(s);
    UnquotesBackslashes(s);
    var token := "\"" + Quoted(s) + "\"";
    assert token[1..|token| - 1] == Quoted(s);
  }

  /** Inside the quoted text a quote always follows a backslash. */
  lemma {:induction false} QuotesAreEscaped(s: string, j: nat)
    requires j < |Quoted(s)| && Quoted(s)[j] == '"'
    ensures 0 < j && Quoted(s)[j - 1] == '\\'
  {
    var n := |QuotedChar(s[0])|;
    if n <= j {
      QuotesAreEscaped(s[1..], j - n);
    }
  }

  lemma {:induction false} QuotedLast(s: string)
    requires s != ""
    ensures Quoted(s) != "" && Quoted(s)[|Quoted(s)| - 1] == s[|s| - 1]
  {
    if |s| > 1 {
      QuotedLast(s[1..]);
    }
  }

  lemma {:induction false} QuotedAddsNo(s: string, c: char)
    requires c !in s && c != '\\' && c != '"'
    ensures c !in Quoted(s)
  {
    if s != "" {
      QuotedAddsNo(s[1..], c);
    }
  }

  // ---- a pattern free of quotes and backslashes occurs in the quoted text iff in the text ----

  predicate Simple(pat: string) {
    pat != "" && '\\' !in pat && '"' !in pat
  }

  lemma {:induction false} PrefixOfQuoted(s: string, pat: string)
    requires '\\' !in pat && '"' !in pat
    ensures pat <= Quoted(s) <==> pat <= s
  {
    if pat != "" && s != "" {
      PrefixOfQuoted(s[1..], pat[1..]);
      var q := Quoted(s);
      if pat <= q {
        assert q[0] == pat[0] && pat[0] in pat;
        assert q[1..] == Quoted(s[1..]);
        assert pat[1..] <= q[1..];
      }
      if pat <= s {
        assert s[0] == pat[0] && pat[0] in pat;
        assert q[1..] == Quoted(s[1..]);
        assert pat[1..] <= s[1..];
      }
    }
  }

  lemma {:induction false} OccursInQuoted(s: string, pat: string)
    requires Simple(pat)
    ensures Occurs(Quoted(s), pat) <==> Occurs(s, pat)
  {
    PrefixOfQuoted(s, pat);
    if s == "" {
      assert Quoted(s) == s;
    } else {
      OccursInQuoted(s[1..], pat);
      OccursFrom(s, pat, 1);
      OccursFrom(Quoted(s), pat, |QuotedChar(s[0])|);
      var u := QuotedChar(s[0]);
      assert Quoted(s)[|u|..] == Quoted(s[1..]);
      assert |u| == 2 ==> Quoted(s)[1..][0] == u[1];
      assert pat[0] in pat;
    }
  }

  /** An occurrence is at one of the first `n` places or after them. */
  lemma OccursFrom(t: string, pat: string, n: nat)
    requires n <= |t| && n <= 2
    ensures Occurs(t, pat) <==>
            (n > 0 && pat <= t) || (n > 1 && pat <= t[1..]) || Occurs(t[n..], pat)
  {
    assert t[0..] == t;
    if Occurs(t, pat) {
      var i :| 0 <= i <= |t| && pat <= t[i..];
      if n <= i {
        assert t[n..][i - n..] == t[i..];
      } else {
        assert i == 0 || i == 1;
      }
    }
    if Occurs(t[n..], pat) {
      var i :| 0 <= i <= |t[n..]| && pat <= t[n..][i..];
      assert t[n..][i..] == t[n + i..];
    }
  }

  // ---- the systemd unit ----

  predicate Holds(owl: string, home: string, pat: string) {
    Find(owl, pat).Some? || Find(home, pat).Some?
  }

  /** Everything before the quoted program, between the two paths, and after them. */
  const SYSTEMD_HEAD := WithNewlines(SYSTEMD_LINES) + "ExecStart="
  const SYSTEMD_MIDDLE := " daemon --home "
  const SYSTEMD_TAIL := "\n" + WithNewlines(SYSTEMD_REST)

  function AfterProgram(home: string): string {
    Around(SYSTEMD_MIDDLE, Around(Quoted(home), SYSTEMD_TAIL))
  }

  lemma SystemdText(owl: string, home: string, log: string)
    ensures UnitText(Linux, owl, home, log) == Around(SYSTEMD_HEAD, Around(Quoted(owl), AfterProgram(home)))
  {
    QuoteIsMap(owl);
    QuoteIsMap(home);
    hide WithNewlines, Quoted;
  }

  lemma {:induction false} LinesAddNo(lines: seq<string>, c: char)
    requires c != '\n' && forall i :: 0 <= i < |lines| ==> c !in lines[i]
    ensures c !in WithNewlines(lines)
  {
    if lines != [] {
      LinesAddNo(lines[1..], c);
    }
  }

  lemma LinesHaveNo(c: char)
    requires c == '<' || c == '&'
    ensures forall i :: 0 <= i < |SYSTEMD_LINES| ==> c !in SYSTEMD_LINES[i]
  {
  }

  lemma HeadHasNo(c: char)
    requires c == '<' || c == '&'
    ensures c !in SYSTEMD_HEAD
  {
    hide WithNewlines, SYSTEMD_LINES;
    LinesHaveNo(c);
    LinesAddNo(SYSTEMD_LINES, c);
  }

  lemma TailHasNo(c: char)
    requires c == '<' || c == '&'
    ensures c !in SYSTEMD_TAIL
  {
    hide WithNewlines;
    LinesAddNo(SYSTEMD_REST, c);
  }

  lemma FrameHasNo(c: char)
    requires c == '<' || c == '&'
    ensures c !in SYSTEMD_HEAD && c !in SYSTEMD_MIDDLE && c !in SYSTEMD_TAIL
  {
    hide SYSTEMD_HEAD, SYSTEMD_TAIL;
    HeadHasNo(c);
    TailHasNo(c);
  }

  /** A tag occurs in the systemd unit iff it occurs in one of the two paths. */
  lemma TagOccurs(owl: string, home: string, log: string, pat: string)
    requires Simple(pat) && pat[0] == '<'
    ensures Find(UnitText(Linux, owl, home, log), pat).Some? <==> Holds(owl, home, pat)
  {
    hide Find, Occurs, Quoted, UnitText, WithNewlines, Around;
    SystemdText(owl, home, log);
    FrameHasNo('<');
    StartsWhere(SYSTEMD_HEAD, pat);
    StartsWhere(SYSTEMD_MIDDLE, pat);
    StartsWhere(SYSTEMD_TAIL, pat);
    FindIffOccurs(UnitText(Linux, owl, home, log), pat);
    FindIffOccurs(owl, pat);
    FindIffOccurs(home, pat);
    OccursInQuoted(owl, pat);
    OccursInQuoted(home, pat);
    OccursAround(SYSTEMD_HEAD, Around(Quoted(owl), AfterProgram(home)), pat);
    OccursAround(Quoted(owl), AfterProgram(home), pat);
    OccursAround(SYSTEMD_MIDDLE, Around(Quoted(home), SYSTEMD_TAIL), pat);
    OccursAround(Quoted(home), SYSTEMD_TAIL, pat);
  }

  // ---- the line with the program ----

  lemma {:induction false} BeforeSkips(u: string, t: string)
    requires '\n' !in u
    ensures Before(u + t) == u + Before(t)
  {
    if u == "" {
      assert u + t == t;
    } else {
      assert (u + t)[1..] == u[1..] + t;
      BeforeSkips(u[1..], t);
    }
  }

  lemma {:induction false} TrimEndKeeps(t: string, u: string)
    requires u != "" && u <= t && !IsSpace(u[|u| - 1])
    ensures u <= TrimEnd(t)
  {
    if IsSpace(t[|t| - 1]) {
      TrimEndKeeps(t[..|t| - 1], u);
    }
  }

  lemma TrimKeeps(t: string, u: string)
    requires u != "" && u <= t && !IsSpace(u[0]) && !IsSpace(u[|u| - 1])
    ensures u <= Trim(t)
  {
    assert t[0] == u[0];
    TrimEndKeeps(t, u);
  }

  /** A line of the frame, which `ExecOf` passes over. */
  predicate Dull(line: string) {
    && '\n' !in line
    && (line == "" || (!IsSpace(line[0]) && !IsSpace(line[|line| - 1]) && line[0] != 'E'))
  }

  lemma DullLine(line: string, t: string)
    requires Dull(line)
    ensures Before(line + "\n" + t) == line && LineOf(line + "\n" + t) == line
  {
    assert line + "\n" + t == line + ("\n" + t);
    BeforeSkips(line, "\n" + t);
  }

  lemma DullTrim(line: string)
    requires Dull(line)
    ensures Trim(line) == line
  {
    if line != "" {
      TrimKeeps(line, line);
    }
  }

  lemma ExecStep(t: string)
    requires |Before(t)| < |t| && !("ExecStart=" <= Trim(LineOf(t)))
    ensures ExecOf(t) == ExecOf(t[|Before(t)| + 1..])
  {
    hide Trim, LineOf, Before, IsSpace;
  }

  lemma DullIsNoExec(line: string)
    requires Dull(line)
    ensures !("ExecStart=" <= line)
  {
    assert "ExecStart="[0] == 'E';
  }

  lemma PassesLine(line: string, t: string)
    requires Dull(line)
    ensures ExecOf(line + "\n" + t) == ExecOf(t)
  {
    hide *;
    var whole := line + "\n" + t;
    DullLine(line, t);
    DullTrim(line);
    DullIsNoExec(line);
    ExecStep(whole);
    assert whole[|line| + 1..] == t;
  }

  lemma {:induction false} PassesLines(lines: seq<string>, t: string)
    requires forall i :: 0 <= i < |lines| ==> Dull(lines[i])
    ensures ExecOf(WithNewlines(lines) + t) == ExecOf(t)
  {
    if lines == [] {
      assert WithNewlines(lines) + t == t;
    } else {
      PassesLines(lines[1..], t);
      PassesLine(lines[0], WithNewlines(lines[1..]) + t);
      assert WithNewlines(lines) + t == lines[0] + "\n" + (WithNewlines(lines[1..]) + t);
      hide ExecOf, Dull;
    }
  }

  lemma FrameIsDull()
    ensures forall i :: 0 <= i < |SYSTEMD_LINES| ==> Dull(SYSTEMD_LINES[i])
  {
  }

  /** What is read after `ExecStart=` starts with whatever the unit has there, up to a quote before
      the first newline. */
  lemma LineStartsWith(v: string, t: string)
    requires '\n' !in v && v != "" && v[|v| - 1] == '"'
    ensures v <= LineOf(v + t)
  {
    BeforeSkips(v, t);
    hide Before;
  }

  lemma ExecReads(whole: string, v: string)
    requires whole != "" && "ExecStart=" <= v && v <= Trim(LineOf(whole))
    ensures ExecOf(whole).Some? && v[|"ExecStart="|..] <= ExecOf(whole).value
  {
    var trimmed := Trim(LineOf(whole));
    assert "ExecStart=" <= trimmed;
    hide Trim, LineOf, Before, IsSpace;
  }

  lemma ExecStartsWith(u: string, t: string)
    requires '\n' !in u && u != "" && u[|u| - 1] == '"'
    ensures ExecOf("ExecStart=" + u + t).Some? && u <= ExecOf("ExecStart=" + u + t).value
  {
    var v, whole := "ExecStart=" + u, "ExecStart=" + u + t;
    assert v[|v| - 1] == u[|u| - 1] == '"' && v[0] == 'E';
    assert !IsSpace('E') && !IsSpace('"');
    assert '\n' !in "ExecStart=";
    assert v[|"ExecStart="|..] == u;
    hide ExecOf, Trim, LineOf, Before, IsSpace;
    LineStartsWith(v, t);
    TrimKeeps(LineOf(whole), v);
    ExecReads(whole, v);
  }

  /** The quoted program and what follows it up to the quote that opens the home. */
  function Shown(owl: string): string {
    Around("", Around(Quoted(owl), SYSTEMD_MIDDLE)) + ['"']
  }

  lemma ShownOneLine(owl: string)
    requires '\n' !in owl
    ensures '\n' !in Shown(owl) && Shown(owl) != "" && Shown(owl)[|Shown(owl)| - 1] == '"'
  {
    QuotedAddsNo(owl, '\n');
    hide Quoted;
    assert '\n' !in SYSTEMD_MIDDLE;
  }

  lemma UnitFromExec(owl: string, home: string, log: string)
    ensures UnitText(Linux, owl, home, log)
            == WithNewlines(SYSTEMD_LINES) + ("ExecStart=" + Shown(owl) + Around(Quoted(home), SYSTEMD_TAIL))
  {
    SystemdText(owl, home, log);
    hide UnitText, Quoted, WithNewlines;
  }

  lemma UnitExec(owl: string, home: string, log: string)
    requires '\n' !in owl
    ensures ExecOf(UnitText(Linux, owl, home, log)).Some?
    ensures Shown(owl) <= ExecOf(UnitText(Linux, owl, home, log)).value
  {
    var rest := Around(Quoted(home), SYSTEMD_TAIL);
    FrameIsDull();
    UnitFromExec(owl, home, log);
    ShownOneLine(owl);
    hide *;
    PassesLines(SYSTEMD_LINES, "ExecStart=" + Shown(owl) + rest);
    ExecStartsWith(Shown(owl), rest);
  }

  // ---- the closing quote ----

  lemma {:induction false} ClosingAt(e: string, k: nat, n: nat)
    requires 1 <= k <= n < |e| && e[n] == '"' && e[n - 1] != '\\'
    requires forall i :: k <= i < n ==> !(e[i] == '"' && e[i - 1] != '\\')
    ensures Closing(e, k) == n
    decreases n - k
  {
    if k < n {
      ClosingAt(e, k + 1, n);
    }
  }

  lemma QuotedInside(owl: string, e: string, i: nat)
    requires Shown(owl) <= e && 1 <= i <= |Quoted(owl)|
    ensures !(e[i] == '"' && e[i - 1] != '\\')
  {
    assert e[i] == Shown(owl)[i] == Quoted(owl)[i - 1];
    if Quoted(owl)[i - 1] == '"' {
      QuotesAreEscaped(owl, i - 1);
      assert e[i - 1] == Shown(owl)[i - 1] == Quoted(owl)[i - 2];
    }
  }

  lemma AroundAt(q: string, m: string)
    ensures var t := Around("", Around(q, m)) + ['"'];
            && |t| == |q| + 3 + |m|
            && t[0] == '"' && t[|q| + 1] == '"' && t[|q| + 2 + |m|] == '"'
            && (|q| > 0 ==> t[|q|] == q[|q| - 1])
            && (forall i :: 0 <= i < |m| ==> t[|q| + 2 + i] == m[i])
            && t[..|q| + 2] == ['"'] + q + ['"']
  {
  }

  lemma ShownAt(owl: string)
    ensures var q := |Quoted(owl)|;
            && |Shown(owl)| == q + 3 + |SYSTEMD_MIDDLE|
            && Shown(owl)[0] == '"' && Shown(owl)[q + 1] == '"' && Shown(owl)[q + 2 + |SYSTEMD_MIDDLE|] == '"'
            && (q > 0 ==> Shown(owl)[q] == Quoted(owl)[q - 1])
            && (forall i :: 0 <= i < |SYSTEMD_MIDDLE| ==> Shown(owl)[q + 2 + i] == SYSTEMD_MIDDLE[i])
            && Shown(owl)[..q + 2] == ['"'] + Quoted(owl) + ['"']
  {
    hide Quoted, Around, SYSTEMD_MIDDLE;
    AroundAt(Quoted(owl), SYSTEMD_MIDDLE);
  }

  lemma TokenOfGood(owl: string, e: string)
    requires Shown(owl) <= e && (owl == "" || owl[|owl| - 1] != '\\')
    ensures Token(e) == SystemdQuote(owl)
  {
    var n := |Quoted(owl)| + 1;
    ShownAt(owl);
    if owl != "" {
      QuotedLast(owl);
    }
    forall i | 1 <= i < n ensures !(e[i] == '"' && e[i - 1] != '\\') {
      QuotedInside(owl, e, i);
    }
    assert e[n] == Shown(owl)[n] && e[n - 1] == Shown(owl)[n - 1];
    ClosingAt(e, 1, n);
    QuoteIsMap(owl);
    assert e[..n + 1] == Shown(owl)[..n + 1];
  }

  lemma MiddlePlain()
    ensures '"' !in SYSTEMD_MIDDLE && SYSTEMD_MIDDLE[|SYSTEMD_MIDDLE| - 1] == ' '
  {
  }

  lemma RunsOn(owl: string, e: string, i: nat)
    requires Shown(owl) <= e && owl != "" && owl[|owl| - 1] == '\\' && 1 <= i < |Quoted(owl)| + 2 + |SYSTEMD_MIDDLE|
    ensures !(e[i] == '"' && e[i - 1] != '\\')
  {
    var q := |Quoted(owl)|;
    ShownAt(owl);
    QuotedLast(owl);
    MiddlePlain();
    assert e[i] == Shown(owl)[i] && e[i - 1] == Shown(owl)[i - 1];
    hide Shown, Quoted;
    if i <= q {
      QuotedInside(owl, e, i);
    } else if q + 1 < i {
      assert e[i] == SYSTEMD_MIDDLE[i - q - 2];
    }
  }

  /** After a trailing backslash the scan runs on to the quote that opens the home. */
  lemma TokenOfBackslash(owl: string, e: string)
    requires Shown(owl) <= e && owl != "" && owl[|owl| - 1] == '\\'
    ensures Token(e) == Shown(owl)
  {
    var n := |Quoted(owl)| + 2 + |SYSTEMD_MIDDLE|;
    ShownAt(owl);
    MiddlePlain();
    hide Shown, Quoted;
    forall i | 1 <= i < n ensures !(e[i] == '"' && e[i - 1] != '\\') {
      RunsOn(owl, e, i);
    }
    assert e[n] == Shown(owl)[n] && e[0] == Shown(owl)[0];
    assert e[n - 1] == Shown(owl)[n - 1] == SYSTEMD_MIDDLE[|SYSTEMD_MIDDLE| - 1];
    ClosingAt(e, 1, n);
    assert e[..n + 1] == Shown(owl);
  }

  lemma BackslashReadsWrong(owl: string)
    requires owl != "" && owl[|owl| - 1] == '\\'
    ensures SystemdUnquote(Shown(owl)) != owl
  {
    ShownAt(owl);
    MiddlePlain();
    var token := Shown(owl);
    var inner := token[1..|token| - 1];
    assert inner[|inner| - 1] == SYSTEMD_MIDDLE[|SYSTEMD_MIDDLE| - 1] == ' ';
    ReplaceKeepsLast(inner, "\\\"", "\"");
    ReplaceKeepsLast(Replace(inner, "\\\"", "\""), "\\\\", "\\");
    hide Replace, Shown;
  }

  lemma UnquoteAddsNo(token: string, c: char)
    requires c !in token && c != '"' && c != '\\'
    ensures c !in SystemdUnquote(token)
  {
    if 2 <= |token| && token[0] == '"' && token[|token| - 1] == '"' {
      var inner := token[1..|token| - 1];
      ReplaceAddsNo(inner, "\\\"", "\"", c);
      ReplaceAddsNo(Replace(inner, "\\\"", "\""), "\\\\", "\\", c);
    }
    hide Replace;
  }

  lemma {:induction false} ExecIsOneLine(t: string)
    ensures ExecOf(t).Some? ==> '\n' !in ExecOf(t).value
    decreases |t|
  {
    if t != "" && !("ExecStart=" <= Trim(LineOf(t))) && |Before(t)| != |t| {
      ExecIsOneLine(t[|Before(t)| + 1..]);
    }
  }

  /** No program the systemd reader returns holds a newline. */
  lemma ProgramIsOneLine(t: string)
    ensures SystemdProgram(t).Some? ==> '\n' !in SystemdProgram(t).value
  {
    ExecIsOneLine(t);
    if SystemdProgram(t).Some? {
      var exec := TrimStart(ExecOf(t).value);
      assert '\n' !in exec && Token(exec) <= exec;
      UnquoteAddsNo(Token(exec), '\n');
    }
    hide ExecOf, Token, SystemdUnquote;
  }

  // ---- the theorems ----

  lemma KeyIsSimple()
    ensures Simple(KEY) && KEY[0] == '<' && Simple("<string>")
  {
  }

  lemma ShownHead(owl: string, e: string)
    requires Shown(owl) <= e
    ensures TrimStart(e) == e && e != ""
  {
    ShownAt(owl);
    assert e[0] == Shown(owl)[0];
  }

  /** With the plist key in neither path, the systemd unit gives back the binary's path exactly
      when that path has no newline and does not end in a backslash. */
  lemma SystemdRoundTrip(owl: string, home: string, log: string)
    requires !Holds(owl, home, KEY)
    ensures ProgramIn(UnitText(Linux, owl, home, log)) == Some(owl)
            <==> '\n' !in owl && (owl == "" || owl[|owl| - 1] != '\\')
  {
    var text := UnitText(Linux, owl, home, log);
    KeyIsSimple();
    TagOccurs(owl, home, log, KEY);
    hide Find, UnitText, Shown, SystemdUnquote, Token, ExecOf;
    assert ProgramIn(text) == SystemdProgram(text);
    if '\n' in owl {
      ProgramIsOneLine(text);
    } else {
      UnitExec(owl, home, log);
      var e := ExecOf(text).value;
      ShownHead(owl, e);
      assert SystemdProgram(text) == Some(SystemdUnquote(Token(e)));
      if owl == "" || owl[|owl| - 1] != '\\' {
        TokenOfGood(owl, e);
        UnquoteUndoesQuote(owl);
      } else {
        TokenOfBackslash(owl, e);
        BackslashReadsWrong(owl);
      }
    }
  }

  /** With the key in one of the paths the reader takes the unit for a plist, and gives nothing
      unless a path also holds `<string>`. */
  lemma KeyInPath(owl: string, home: string, log: string)
    requires Holds(owl, home, KEY) && !Holds(owl, home, "<string>")
    ensures ProgramIn(UnitText(Linux, owl, home, log)) == None
  {
    var text := UnitText(Linux, owl, home, log);
    KeyIsSimple();
    TagOccurs(owl, home, log, KEY);
    TagOccurs(owl, home, log, "<string>");
    hide Find, UnitText, Occurs;
    var args := SplitSecond(text, KEY).value;
    PartOfText(text, args);
    FindIffOccurs(text, "<string>");
    FindIffOccurs(args, "<string>");
  }

  /** What follows the first key is a piece of the text, with no more occurrences than it. */
  lemma PartOfText(text: string, args: string)
    requires SplitSecond(text, KEY) == Some(args)
    ensures Occurs(args, "<string>") ==> Occurs(text, "<string>")
  {
    var i := Find(text, KEY).value;
    var rest := text[i + |KEY|..];
    assert args <= rest;
    if Occurs(args, "<string>") {
      var k :| 0 <= k <= |args| && "<string>" <= args[k..];
      assert args[k..] <= rest[k..];
      assert rest[k..] == text[i + |KEY| + k..];
      hide SplitSecond;
    }
  }

  // ---- exactly which binaries and which homes ----

  function Marks(t: string): nat {
    if t == "" then 0 else (if t[0] == '<' || t[0] == '&' then 1 else 0) + Marks(t[1..])
  }

  lemma {:induction false} MarksAdd(u: string, v: string)
    ensures Marks(u + v) == Marks(u) + Marks(v)
  {
    if u == "" {
      assert u + v == v;
    } else {
      MarksAdd(u[1..], v);
      assert (u + v)[1..] == u[1..] + v;
    }
  }

  lemma MarksOfPart(t: string, i: nat, j: nat)
    requires i <= j <= |t|
    ensures Marks(t[i..j]) <= Marks(t)
  {
    hide Marks;
    assert t == t[..i] + (t[i..j] + t[j..]);
    MarksAdd(t[..i], t[i..j] + t[j..]);
    MarksAdd(t[i..j], t[j..]);
  }

  lemma {:induction false} NoMarks(t: string)
    requires '<' !in t && '&' !in t
    ensures Marks(t) == 0
  {
    if t != "" {
      NoMarks(t[1..]);
    }
  }

  lemma {:induction false} MarksOfReplaced(t: string, pat: string, rep: string)
    requires pat != "" && Marks(rep) <= Marks(pat)
    ensures Marks(Replace(t, pat, rep)) <= Marks(t)
    decreases |t|
  {
    if t == "" {
    } else if pat <= t {
      var tail := t[|pat|..];
      MarksOfReplaced(tail, pat, rep);
      assert t == pat + tail;
      MarksAdd(pat, tail);
      MarksAdd(rep, Replace(tail, pat, rep));
    } else {
      var tail := Replace(t[1..], pat, rep);
      MarksOfReplaced(t[1..], pat, rep);
      assert ([t[0]] + tail)[1..] == tail;
    }
  }

  lemma EntityMarks()
    ensures Marks("&lt;") == 1 && Marks("&gt;") == 1 && Marks("&quot;") == 1 && Marks("&amp;") == 1
    ensures Marks("<") == 1 && Marks(">") == 0 && Marks("\"") == 0 && Marks("&") == 1
  {
    assert "&lt;"[1..] == "lt;" && "&gt;"[1..] == "gt;" && "&quot;"[1..] == "quot;" && "&amp;"[1..] == "amp;";
    NoMarks("lt;");
    NoMarks("gt;");
    NoMarks("quot;");
    NoMarks("amp;");
  }

  /** Unescaping makes no mark out of nothing. */
  lemma MarksOfUnescaped(t: string)
    ensures Marks(XmlUnescape(t)) <= Marks(t)
  {
    EntityMarks();
    hide Marks, Replace;
    var t1 := Replace(t, "&lt;", "<");
    var t2 := Replace(t1, "&gt;", ">");
    var t3 := Replace(t2, "&quot;", "\"");
    MarksOfReplaced(t, "&lt;", "<");
    MarksOfReplaced(t1, "&gt;", ">");
    MarksOfReplaced(t2, "&quot;", "\"");
    MarksOfReplaced(t3, "&amp;", "&");
  }

  lemma {:induction false} MarksOfQuoted(s: string)
    ensures Marks(Quoted(s)) == Marks(s)
  {
    if s != "" {
      MarksOfQuoted(s[1..]);
      MarksAdd(QuotedChar(s[0]), Quoted(s[1..]));
      if s[0] == '\\' || s[0] == '"' {
        NoMarks(QuotedChar(s[0]));
      }
    }
  }

  lemma MarksOfFrame()
    ensures Marks(SYSTEMD_HEAD) == 0 && Marks(SYSTEMD_MIDDLE) == 0 && Marks(SYSTEMD_TAIL) == 0 && Marks(['"']) == 0
  {
    FrameHasNo('<');
    FrameHasNo('&');
    NoMarks(SYSTEMD_HEAD);
    NoMarks(SYSTEMD_MIDDLE);
    NoMarks(SYSTEMD_TAIL);
    NoMarks(['"']);
    hide Marks, WithNewlines;
  }

  lemma MarksAround(u: string, v: string)
    ensures Marks(Around(u, v)) == Marks(u) + Marks(['"']) + Marks(v)
  {
    MarksAdd(u + ['"'], v);
    MarksAdd(u, ['"']);
  }

  lemma MarksOfUnit(owl: string, home: string, log: string)
    ensures Marks(UnitText(Linux, owl, home, log)) == Marks(owl) + Marks(home)
  {
    SystemdText(owl, home, log);
    MarksOfFrame();
    MarksOfQuoted(owl);
    MarksOfQuoted(home);
    hide Marks, UnitText, Quoted, Around, SYSTEMD_HEAD, SYSTEMD_MIDDLE, SYSTEMD_TAIL;
    MarksAround(SYSTEMD_HEAD, Around(Quoted(owl), AfterProgram(home)));
    MarksAround(Quoted(owl), AfterProgram(home));
    MarksAround(SYSTEMD_MIDDLE, Around(Quoted(home), SYSTEMD_TAIL));
    MarksAround(Quoted(home), SYSTEMD_TAIL);
  }

  lemma MarksOfFirst(t: string, pat: string)
    ensures Marks(SplitFirst(t, pat)) <= Marks(t)
  {
    match Find(t, pat) {
      case None =>
      case Some(i) =>
        MarksOfPart(t, 0, i);
        assert t[0..i] == t[..i];
    }
  }

  /** The piece behind the first match has lost at least the marks of the match. */
  lemma MarksOfSecond(t: string, pat: string)
    requires SplitSecond(t, pat).Some?
    ensures Marks(SplitSecond(t, pat).value) + Marks(pat) <= Marks(t)
  {
    var i := Find(t, pat).value;
    var rest := t[i + |pat|..];
    FoundThere(t, pat);
    assert t == t[..i] + (pat + rest);
    MarksAdd(t[..i], pat + rest);
    MarksAdd(pat, rest);
    MarksOfFirst(rest, pat);
  }

  lemma PartOfTail(t: string, k: nat, n: nat)
    requires t != "" && k + n <= |t| - 1
    ensures t[1..][k..k + n] == t[k + 1..k + 1 + n]
  {
  }

  lemma {:induction false} FoundThere(t: string, pat: string)
    requires Find(t, pat).Some?
    ensures var i := Find(t, pat).value; t[i..i + |pat|] == pat
  {
    if !(pat <= t) {
      FoundThere(t[1..], pat);
      PartOfTail(t, Find(t[1..], pat).value, |pat|);
    }
  }

  lemma OneMark(t: string)
    requires '<' !in t && '&' !in t
    ensures Marks("<" + t) == 1
  {
    NoMarks(t);
    assert ("<" + t)[1..] == t;
  }

  lemma TagMarks()
    ensures Marks(KEY) == 2 && Marks("<string>") == 1
  {
    hide Marks;
    assert "<string>" == "<" + "string>" && KEY == ("<" + "key>ProgramArguments") + ("<" + "/key>");
    OneMark("string>");
    OneMark("key>ProgramArguments");
    OneMark("/key>");
    MarksAdd("<" + "key>ProgramArguments", "<" + "/key>");
  }

  /** Read as a plist, a unit gives back at least three marks fewer than its text has. */
  lemma MarksOfLaunchd(t: string)
    requires ProgramIn(t).Some? && SplitSecond(t, KEY).Some?
    ensures Marks(ProgramIn(t).value) + 3 <= Marks(t)
  {
    var args := SplitSecond(t, KEY).value;
    MarksOfSecond(t, KEY);
    var s := SplitSecond(args, "<string>").value;
    MarksOfSecond(args, "<string>");
    MarksOfFirst(s, "</string>");
    MarksOfUnescaped(SplitFirst(s, "</string>"));
    TagMarks();
    hide SplitSecond, SplitFirst, Marks, XmlUnescape;
  }

  /** A path the unit file carries: one line, without the plist key, not ending in a backslash. */
  predicate Plain(owl: string) {
    Find(owl, KEY).None? && '\n' !in owl && (owl == "" || owl[|owl| - 1] != '\\')
  }

  /** Beside a home without the key and with at most two of `<` and `&` the unit carries exactly the
      plain binary paths, and beside any home without the key exactly the plain ones of those that do
      not hold the key themselves. */
  lemma SystemdExactly(owl: string, home: string, log: string)
    requires Find(home, KEY).None? && (Marks(home) <= 2 || Find(owl, KEY).None?)
    ensures ProgramIn(UnitText(Linux, owl, home, log)) == Some(owl) <==> Plain(owl)
  {
    var text := UnitText(Linux, owl, home, log);
    KeyIsSimple();
    hide UnitText, Marks, ProgramIn, Find, Occurs;
    if Find(owl, KEY).None? {
      SystemdRoundTrip(owl, home, log);
    } else {
      TagOccurs(owl, home, log, KEY);
      if ProgramIn(text).Some? {
        MarksOfLaunchd(text);
        MarksOfUnit(owl, home, log);
      }
    }
  }

  /** With the key in the home and not in the binary's path, what is read does not depend on the
      binary at all. */
  lemma HomeDecides(owl: string, home: string, log: string)
    requires Find(home, KEY).Some? && Find(owl, KEY).None?
    ensures SplitSecond(AfterProgram(home), KEY).Some?
    ensures ProgramIn(UnitText(Linux, owl, home, log)) == LaunchdProgram(SplitSecond(AfterProgram(home), KEY).value)
  {
    KeyIsSimple();
    SystemdText(owl, home, log);
    FrameHasNo('<');
    StartsWhere(SYSTEMD_HEAD, KEY);
    OccursInQuoted(owl, KEY);
    FindIffOccurs(owl, KEY);
    TagOccurs(owl, home, log, KEY);
    hide UnitText, Around, Quoted, Occurs, Find, SYSTEMD_HEAD;
    SplitAround(SYSTEMD_HEAD, Around(Quoted(owl), AfterProgram(home)), KEY);
    SplitAround(Quoted(owl), AfterProgram(home), KEY);
    hide LaunchdProgram;
  }

  lemma LettersArePlain()
    ensures Plain("a") && Plain("b")
  {
  }

  /** A home is safe for every plain binary exactly when it does not hold the plist key. */
  lemma HomeIsSafe(home: string, log: string)
    ensures (forall owl :: Plain(owl) ==> ProgramIn(UnitText(Linux, owl, home, log)) == Some(owl))
            <==> Find(home, KEY).None?
  {
    hide ProgramIn, UnitText, Find, LaunchdProgram, AfterProgram;
    if Find(home, KEY).None? {
      forall owl | Plain(owl) ensures ProgramIn(UnitText(Linux, owl, home, log)) == Some(owl) {
        SystemdRoundTrip(owl, home, log);
      }
    } else {
      LettersArePlain();
      HomeDecides("a", home, log);
      HomeDecides("b", home, log);
      assert "a" != "b";
    }
  }

  /** A binary's path is safe beside every home without the plist key exactly when it is plain. */
  lemma OwlIsSafe(owl: string, log: string)
    ensures (forall home :: Find(home, KEY).None? ==> ProgramIn(UnitText(Linux, owl, home, log)) == Some(owl))
            <==> Plain(owl)
  {
    if Plain(owl) {
      forall home | Find(home, KEY).None? ensures ProgramIn(UnitText(Linux, owl, home, log)) == Some(owl) {
        SystemdRoundTrip(owl, home, log);
      }
    } else {
      assert Find("", KEY).None?;
      SystemdExactly(owl, "", log);
    }
    hide ProgramIn, UnitText, Find;
  }

  // ---- the plist ----

  function Entity(c: char): string {
    match c
    case '&' => "&amp;"
    case '<' => "&lt;"
    case '>' => "&gt;"
    case '"' => "&quot;"
    case _ => [c]
  }

  /** The characters of `chars` written as entities. */
  function Escaped(s: string, chars: set<char>): string {
    if s == "" then "" else (if s[0] in chars then Entity(s[0]) else [s[0]]) + Escaped(s[1..], chars)
  }

  lemma {:induction false} EscapesAmpersand(s: string)
    ensures Replace(s, "&", "&amp;") == Escaped(s, {'&'})
  {
    if s != "" {
      EscapesAmpersand(s[1..]);
      assert s[1..] == s[|"&"|..];
    }
  }

  lemma {:induction false} EscapesOne(s: string, c: char, chars: set<char>)
    requires c in {'<', '>', '"'} && c !in chars && chars <= {'&', '<', '>', '"'}
    ensures Replace(Escaped(s, chars), [c], Entity(c)) == Escaped(s, chars + {c})
  {
    if s != "" {
      EscapesOne(s[1..], c, chars);
      var rest := Escaped(s[1..], chars);
      if s[0] == c {
        ReplaceHits(rest, [c], Entity(c));
      } else {
        var u := if s[0] in chars then Entity(s[0]) else [s[0]];
        forall i | 0 <= i < |u| ensures !([c] <= (u + rest)[i..]) {
          assert (u + rest)[i..][0] == u[i];
        }
        ReplaceSkips(u, rest, [c], Entity(c));
      }
    }
  }

  lemma EscapeIsMap(s: string)
    ensures XmlEscape(s) == Escaped(s, {'&', '<', '>', '"'})
  {
    EscapesAmpersand(s);
    EscapesOne(s, '<', {'&'});
    EscapesOne(s, '>', {'&', '<'});
    EscapesOne(s, '"', {'&', '<', '>'});
    assert {'&'} + {'<'} == {'&', '<'} && {'&', '<'} + {'>'} == {'&', '<', '>'};
    assert {'&', '<', '>'} + {'"'} == {'&', '<', '>', '"'};
    hide Replace, Escaped;
  }

  /** No other entity, and no plain character, starts or continues the entity of `c`. */
  lemma EntityElsewhere(x: char, c: char, chars: set<char>, rest: string, i: nat)
    requires c in {'<', '>', '"', '&'} && x != c && chars <= {'&', '<', '>', '"'} && ('&' in chars || c == '&')
    requires var u := if x in chars then Entity(x) else [x]; i < |u|
    ensures var u := if x in chars then Entity(x) else [x]; !(Entity(c) <= (u + rest)[i..])
  {
    var u := if x in chars then Entity(x) else [x];
    assert (u + rest)[i..][0] == u[i];
    assert i + 1 < |u| ==> (u + rest)[i..][1] == u[i + 1];
  }

  lemma {:induction false} UnescapesOne(s: string, c: char, chars: set<char>)
    requires c in {'<', '>', '"', '&'} && c !in chars && chars <= {'&', '<', '>', '"'} && ('&' in chars || c == '&')
    ensures Replace(Escaped(s, chars + {c}), Entity(c), [c]) == Escaped(s, chars)
  {
    if s != "" {
      UnescapesOne(s[1..], c, chars);
      var rest := Escaped(s[1..], chars + {c});
      hide Replace, Entity;
      if s[0] == c {
        EntityNotEmpty(c);
        ReplaceHits(rest, Entity(c), [c]);
      } else {
        var u := if s[0] in chars then Entity(s[0]) else [s[0]];
        forall i: nat | i < |u| ensures !(Entity(c) <= (u + rest)[i..]) {
          EntityElsewhere(s[0], c, chars, rest, i);
        }
        EntityNotEmpty(c);
        ReplaceSkips(u, rest, Entity(c), [c]);
      }
    } else {
      EntityNotEmpty(c);
    }
  }

  lemma EntityNotEmpty(c: char)
    ensures Entity(c) != ""
  {
  }

  lemma {:induction false} EscapedNone(s: string)
    ensures Escaped(s, {}) == s
  {
    if s != "" {
      EscapedNone(s[1..]);
    }
  }

  /** The four replaces undo each other, for every text. */
  lemma UnescapeUndoesEscape(s: string)
    ensures XmlUnescape(XmlEscape(s)) == s
  {
    EscapeIsMap(s);
    UnescapesOne(s, '<', {'&', '>', '"'});
    UnescapesOne(s, '>', {'&', '"'});
    UnescapesOne(s, '"', {'&'});
    UnescapesOne(s, '&', {});
    EscapedNone(s);
    assert {'&', '>', '"'} + {'<'} == {'&', '<', '>', '"'} && {'&', '"'} + {'>'} == {'&', '>', '"'};
    assert {'&'} + {'"'} == {'&', '"'} && {} + {'&'} == {'&'};
    hide Replace, Escaped;
  }

  lemma {:induction false} EscapedHasNoTags(s: string, chars: set<char>)
    requires '<' in chars && chars <= {'&', '<', '>', '"'}
    ensures '<' !in Escaped(s, chars)
  {
    if s != "" {
      EscapedHasNoTags(s[1..], chars);
    }
  }

  // ---- the plist, split ----

  lemma DeclarationHasNoKey()
    ensures forall i :: 0 <= i < 2 ==> StartsElsewhere(PLIST_HEAD[i], KEY)
  {
    assert PLIST_HEAD[0][1] != KEY[1] && PLIST_HEAD[1][1] != KEY[1];
  }

  lemma DoctypeHasNoKey()
    ensures forall i :: 2 <= i < 5 ==> StartsElsewhere(PLIST_HEAD[i], KEY)
  {
    assert PLIST_HEAD[2][0] != KEY[0] && PLIST_HEAD[3][0] != KEY[0] && PLIST_HEAD[4][0] != KEY[0];
  }

  lemma LabelHasNoKey()
    ensures forall i :: 5 <= i < |PLIST_HEAD| ==> StartsElsewhere(PLIST_HEAD[i], KEY)
  {
    assert PLIST_HEAD[5][1] != KEY[1] && PLIST_HEAD[6][1] != KEY[1] && PLIST_HEAD[7][5] != KEY[5];
    assert PLIST_HEAD[8][1] != KEY[1] && PLIST_HEAD[9][1] != KEY[1] && PLIST_HEAD[10][1] != KEY[1];
  }

  lemma HeadHasNoKey()
    ensures forall i :: 0 <= i < |PLIST_HEAD| ==> StartsElsewhere(PLIST_HEAD[i], KEY)
  {
    hide StartsElsewhere;
    DeclarationHasNoKey();
    DoctypeHasNoKey();
    LabelHasNoKey();
  }

  lemma FindHere(t: string, pat: string)
    ensures Find(pat + t, pat) == Some(0)
  {
  }

  /** The text up to the next match of the pattern keeps a front part in which none starts. */
  lemma SplitKeeps(front: string, t: string, pat: string)
    requires Find(front + t, pat) == Shift(|front|, Find(t, pat))
    ensures exists t' :: SplitFirst(front + t, pat) == front + t'
  {
    match Find(t, pat) {
      case None => assert SplitFirst(front + t, pat) == front + t;
      case Some(i) =>
        assert (front + t)[..|front| + i] == front + t[..i];
        assert SplitFirst(front + t, pat) == front + t[..i];
    }
  }

  /** From the key to the tag after the program. */
  function ProgramPieces(owl: string): seq<string> {
    PLIST_ARRAY + ["<string>" + Escaped(owl, {'&', '<', '>', '"'})] + PLIST_AFTER
  }

  lemma ProgramPiecesHaveNoKey(owl: string)
    ensures forall i :: 0 <= i < |ProgramPieces(owl)| ==> StartsElsewhere(ProgramPieces(owl)[i], KEY)
  {
    EscapedHasNoTags(owl, {'&', '<', '>', '"'});
    hide Escaped;
    var ps := ProgramPieces(owl);
    assert ps[0][0] != KEY[0] && ps[1][1] != KEY[1] && ps[2][1] != KEY[1] && ps[3][1] != KEY[1];
  }

  lemma {:induction false} JoinAppend(a: seq<string>, b: seq<string>)
    ensures Join(a + b) == Join(a) + Join(b)
  {
    if a == [] {
      assert a + b == b;
    } else {
      var tail := Join(a[1..]);
      JoinAppend(a[1..], b);
      assert (a + b)[1..] == a[1..] + b && (a + b)[0] == a[0];
      assert Join(a + b) == a[0] + (tail + Join(b)) == (a[0] + tail) + Join(b);
    }
  }

  lemma JoinProgram(owl: string)
    ensures Join(ProgramPieces(owl))
            == Join(PLIST_ARRAY) + ("<string>" + (Escaped(owl, {'&', '<', '>', '"'}) + Join(PLIST_AFTER)))
  {
    var m := ["<string>" + Escaped(owl, {'&', '<', '>', '"'})];
    assert Join(m) == m[0];
    hide Join, Escaped;
    JoinAppend(PLIST_ARRAY, m);
    JoinAppend(PLIST_ARRAY + m, PLIST_AFTER);
  }

  lemma PlistText(owl: string, home: string, log: string)
    ensures UnitText(MacOs, owl, home, log) == Join(PLIST_HEAD) + (KEY + (Join(ProgramPieces(owl)) + PlistRest(home, log)))
  {
    EscapeIsMap(owl);
    JoinProgram(owl);
    hide Join, Escaped, PlistRest, XmlEscape, ProgramPieces;
  }

  /** What is read after the key starts with the program and the tag that closes it. */
  lemma PlistArgs(owl: string, home: string, log: string)
    ensures exists t :: SplitSecond(UnitText(MacOs, owl, home, log), KEY) == Some(Join(ProgramPieces(owl)) + t)
  {
    var front, rest := Join(ProgramPieces(owl)), PlistRest(home, log);
    PlistText(owl, home, log);
    HeadHasNoKey();
    ProgramPiecesHaveNoKey(owl);
    hide Join, Find, UnitText, PlistRest, ProgramPieces, StartsElsewhere, SplitFirst;
    FindSkipsAll(PLIST_HEAD, KEY + (front + rest), KEY);
    FindHere(front + rest, KEY);
    var text := Join(PLIST_HEAD) + (KEY + (front + rest));
    assert text[|Join(PLIST_HEAD)| + |KEY|..] == front + rest;
    FindSkipsAll(ProgramPieces(owl), rest, KEY);
    SplitKeeps(front, rest, KEY);
  }

  lemma ArrayHasNoString()
    ensures forall i :: 0 <= i < |PLIST_ARRAY| ==> StartsElsewhere(PLIST_ARRAY[i], "<string>")
    ensures forall i :: 0 <= i < |PLIST_AFTER| ==> StartsElsewhere(PLIST_AFTER[i], "<string>")
  {
    assert PLIST_ARRAY[0][0] != '<' && PLIST_ARRAY[1][1] != 's' && PLIST_AFTER[0][1] != 's';
  }

  lemma StringKeeps(x: string, t: string)
    requires '<' !in x
    ensures exists t' :: SplitFirst(x + (Join(PLIST_AFTER) + t), "<string>") == x + (Join(PLIST_AFTER) + t')
  {
    ArrayHasNoString();
    hide Join, Find, StartsElsewhere, SplitFirst;
    FindSkipsAll(PLIST_AFTER, t, "<string>");
    FindSkipsTail(x, Join(PLIST_AFTER) + t, "<string>");
    var front := x + Join(PLIST_AFTER);
    assert x + (Join(PLIST_AFTER) + t) == front + t;
    SplitKeeps(front, t, "<string>");
    var t' :| SplitFirst(front + t, "<string>") == front + t';
    assert front + t' == x + (Join(PLIST_AFTER) + t');
  }

  lemma SplitAt(front: string, pat: string, rest: string)
    requires Find(front + (pat + rest), pat) == Some(|front|)
    ensures SplitSecond(front + (pat + rest), pat) == Some(SplitFirst(rest, pat))
  {
    hide Find, SplitFirst;
    Behind(front, pat, rest);
  }

  lemma Behind(front: string, pat: string, rest: string)
    ensures (front + (pat + rest))[|front| + |pat|..] == rest
  {
  }

  /** The first `<string>` after the key is the program. */
  lemma FirstString(owl: string, t: string)
    ensures exists t' :: SplitSecond(Join(ProgramPieces(owl)) + t, "<string>")
                         == Some(Escaped(owl, {'&', '<', '>', '"'}) + (Join(PLIST_AFTER) + t'))
  {
    hide *;
    var x := Escaped(owl, {'&', '<', '>', '"'});
    var rest := x + (Join(PLIST_AFTER) + t);
    JoinProgram(owl);
    ArrayHasNoString();
    EscapedHasNoTags(owl, {'&', '<', '>', '"'});
    FindSkipsAll(PLIST_ARRAY, "<string>" + rest, "<string>");
    FindHere(rest, "<string>");
    ShiftZero(|Join(PLIST_ARRAY)|);
    SplitAt(Join(PLIST_ARRAY), "<string>", rest);
    StringKeeps(x, t);
    assert Join(ProgramPieces(owl)) + t == Join(PLIST_ARRAY) + ("<string>" + rest);
  }

  lemma ShiftZero(n: nat)
    ensures Shift(n, Some(0)) == Some(n)
  {
  }

  /** Up to the closing tag. */
  lemma UpToClosing(x: string, t: string)
    requires '<' !in x
    ensures SplitFirst(x + (Join(PLIST_AFTER) + t), "</string>") == x
  {
    assert Join(PLIST_AFTER) + t == "</string>" + ("\n        " + t);
    FindHere("\n        " + t, "</string>");
    hide Find, Join;
    FindSkipsTail(x, Join(PLIST_AFTER) + t, "</string>");
  }

  /** The plist gives back the binary's path, for every binary and every home. */
  lemma LaunchdRoundTrip(owl: string, home: string, log: string)
    ensures ProgramIn(UnitText(MacOs, owl, home, log)) == Some(owl)
  {
    var x := Escaped(owl, {'&', '<', '>', '"'});
    PlistArgs(owl, home, log);
    var t :| SplitSecond(UnitText(MacOs, owl, home, log), KEY) == Some(Join(ProgramPieces(owl)) + t);
    FirstString(owl, t);
    var t' :| SplitSecond(Join(ProgramPieces(owl)) + t, "<string>") == Some(x + (Join(PLIST_AFTER) + t'));
    EscapedHasNoTags(owl, {'&', '<', '>', '"'});
    UpToClosing(x, t');
    EscapeIsMap(owl);
    UnescapeUndoesEscape(owl);
    hide SplitFirst, SplitSecond, Join, Escaped, XmlEscape, XmlUnescape, UnitText, ProgramPieces;
  }
}
