/** The service unit: the printer of src/cli/install.rs and the reader of src/cli/doctor.rs. Paths
    are taken as their displayed text. */
module UnitFile {
  import opened Prelude

  // ---- text operations of the standard library ----

  function Find(t: string, pat: string): (i: Option<nat>)
    ensures i.Some? ==> i.value + |pat| <= |t|
  {
    if pat <= t then Some(0)
    else if t == "" then None
    else Shift(1, Find(t[1..], pat))
  }

  function Shift(n: nat, i: Option<nat>): Option<nat> {
    match i case None => None case Some(k) => Some(n + k)
  }

  /** `split(pat).next()`. */
  function SplitFirst(t: string, pat: string): string {
    match Find(t, pat) case None => t case Some(i) => t[..i]
  }

  /** `split(pat).nth(1)`. */
  function SplitSecond(t: string, pat: string): Option<string> {
    match Find(t, pat)
    case None => None
    case Some(i) => Some(SplitFirst(t[i + |pat|..], pat))
  }

  /** `replace`: every match, from left to right, without overlap. */
  function Replace(t: string, pat: string, rep: string): string
    requires pat != ""
    decreases |t|
  {
    if t == "" then ""
    else if pat <= t then rep + Replace(t[|pat|..], pat, rep)
    else [t[0]] + Replace(t[1..], pat, rep)
  }

  /** The Unicode White_Space property. */
  predicate IsSpace(c: char) {
    '\U{9}' <= c <= '\U{d}' || c == ' ' || c == '\U{85}' || c == '\U{a0}' || c == '\U{1680}'
    || '\U{2000}' <= c <= '\U{200a}' || c == '\U{2028}' || c == '\U{2029}' || c == '\U{202f}'
    || c == '\U{205f}' || c == '\U{3000}'
  }

  function TrimStart(t: string): (r: string)
    ensures r == "" || !IsSpace(r[0])
    ensures |r| <= |t| && r == t[|t| - |r|..]
  {
    if t != "" && IsSpace(t[0]) then TrimStart(t[1..]) else t
  }

  function TrimEnd(t: string): (r: string)
    ensures r == "" || !IsSpace(r[|r| - 1])
    ensures r <= t
  {
    if t != "" && IsSpace(t[|t| - 1]) then TrimEnd(t[..|t| - 1]) else t
  }

  function Trim(t: string): string {
    TrimEnd(TrimStart(t))
  }

  /** The text before the first space. */
  function Word(t: string): (w: string)
    ensures w <= t
  {
    if t == "" || IsSpace(t[0]) then "" else [t[0]] + Word(t[1..])
  }

  // ---- the printer ----

  function SystemdQuote(s: string): string {
    "\"" + Replace(Replace(s, "\\", "\\\\"), "\"", "\\\"") + "\""
  }

  function XmlEscape(s: string): string {
    Replace(Replace(Replace(Replace(s, "&", "&amp;"), "<", "&lt;"), ">", "&gt;"), "\"", "&quot;")
  }

  datatype Os = MacOs | Linux

  function Join(pieces: seq<string>): string {
    if pieces == [] then "" else pieces[0] + Join(pieces[1..])
  }

  const SYSTEMD_LINES := ["[Unit]", "Description=owlpost daemon (owl daemon)", "After=network-online.target", "", "[Service]"]
  const SYSTEMD_REST := ["Restart=on-failure", "RestartSec=5", "", "[Install]", "WantedBy=default.target"]

  function WithNewlines(lines: seq<string>): string {
    if lines == [] then "" else lines[0] + "\n" + WithNewlines(lines[1..])
  }

  const KEY := "<key>ProgramArguments</key>"

  /** The plist up to the key, from the key to the program and after it, cut so that a `<` only starts a piece. */
  const PLIST_HEAD := [
    "<?xml version=\"1.0\" encoding=\"UTF-8\"?>\n",
    "<!DOCTYPE plist PUBLIC ", "\"-//Apple//DTD PLIST 1.0//EN\" ",
    "\"http://www.apple.com/", "DTDs/PropertyList-1.0.dtd\">\n",
    "<plist version=\"1.0\">\n", "<dict>\n    ", "<key>Label", "</key>\n    ",
    "<string>dev.owlpost.owl", "</string>\n    "]
  const PLIST_ARRAY := ["\n    ", "<array>\n        "]
  const PLIST_AFTER := ["</string>\n        "]

  function PlistRest(home: string, log: string): string {
    "<string>daemon</string>\n        <string>--home</string>\n        <string>" + XmlEscape(home)
    + "</string>\n    </array>\n    <key>RunAtLoad</key>\n    <true/>\n    <key>KeepAlive</key>\n    <true/>\n"
    + "    <key>StandardOutPath</key>\n    <string>" + XmlEscape(log)
    + "</string>\n    <key>StandardErrorPath</key>\n    <string>" + XmlEscape(log)
    + "</string>\n</dict>\n</plist>\n"
  }

  /** `log` is the path of daemon.log under `home`. */
  function UnitText(os: Os, owl: string, home: string, log: string): string {
    match os
    case MacOs =>
      Join(PLIST_HEAD) + (KEY + (Join(PLIST_ARRAY) + ("<string>" + (XmlEscape(owl)
      + (Join(PLIST_AFTER) + PlistRest(home, log))))))
    case Linux =>
      WithNewlines(SYSTEMD_LINES)
      + ("ExecStart=" + SystemdQuote(owl) + " daemon --home " + SystemdQuote(home) + "\n" + WithNewlines(SYSTEMD_REST))
  }

  // ---- the reader ----

  function SystemdUnquote(token: string): string {
    if 2 <= |token| && token[0] == '"' && token[|token| - 1] == '"' then
      Replace(Replace(token[1..|token| - 1], "\\\"", "\""), "\\\\", "\\")
    else token
  }

  function XmlUnescape(s: string): string {
    Replace(Replace(Replace(Replace(s, "&lt;", "<"), "&gt;", ">"), "&quot;", "\""), "&amp;", "&")
  }

  /** A line ends before a newline; a carriage return before that newline is not part of it. */
  function LineOf(t: string): (line: string)
    ensures '\n' !in line
  {
    var upTo := Before(t);
    if |upTo| < |t| && upTo != "" && upTo[|upTo| - 1] == '\r' then upTo[..|upTo| - 1] else upTo
  }

  function Before(t: string): (line: string)
    ensures '\n' !in line && line <= t && (|line| < |t| ==> t[|line|] == '\n')
  {
    if t == "" || t[0] == '\n' then "" else [t[0]] + Before(t[1..])
  }

  /** What follows `ExecStart=` on the first trimmed line that starts with it. */
  function ExecOf(t: string): Option<string>
    decreases |t|
  {
    if t == "" then None
    else if "ExecStart=" <= Trim(LineOf(t)) then Some(Trim(LineOf(t))[|"ExecStart="|..])
    else if |Before(t)| == |t| then None
    else ExecOf(t[|Before(t)| + 1..])
  }

  /** The place, from `end` on, of the first quote without a backslash before it. */
  function Closing(exec: string, end: nat): (e: nat)
    requires 1 <= end
    ensures end <= e && (end <= |exec| ==> e <= |exec|)
    decreases |exec| - end
  {
    if end < |exec| && !(exec[end] == '"' && exec[end - 1] != '\\') then Closing(exec, end + 1) else end
  }

  predicate StartsQuoted(exec: string) {
    exec != "" && exec[0] == '"'
  }

  function Token(exec: string): (token: string)
    ensures token <= exec
  {
    if StartsQuoted(exec) then
      var end := Closing(exec, 1);
      exec[..if end + 1 <= |exec| then end + 1 else |exec|]
    else Word(exec)
  }

  function SystemdProgram(text: string): Option<string> {
    match ExecOf(text)
    case None => None
    case Some(line) =>
      var exec := TrimStart(line);
      if exec == "" then None else Some(SystemdUnquote(Token(exec)))
  }

  function LaunchdProgram(args: string): Option<string> {
    match SplitSecond(args, "<string>")
    case None => None
    case Some(s) => Some(XmlUnescape(SplitFirst(s, "</string>")))
  }

  function ProgramIn(text: string): Option<string> {
    match SplitSecond(text, KEY)
    case Some(args) => LaunchdProgram(args)
    case None => SystemdProgram(text)
  }

  /** `unit_program`, with the loop that looks for the closing quote. */
  method UnitProgram(text: string) returns (program: Option<string>)
    ensures program == ProgramIn(text)
  {
    var args := SplitSecond(text, KEY);
    if args.Some? {
      return LaunchdProgram(args.value);
    }
    var line := ExecOf(text);
    if line.None? {
      return None;
    }
    var exec := TrimStart(line.value);
    var token;
    if StartsQuoted(exec) {
      var end := 1;
      while end < |exec| && !(exec[end] == '"' && exec[end - 1] != '\\')
        invariant 1 <= end <= |exec|
        invariant Closing(exec, end) == Closing(exec, 1)
      {
        end := end + 1;
      }
      token := exec[..if end + 1 <= |exec| then end + 1 else |exec|];
    } else {
      if exec == "" {
        return None;
      }
      token := Word(exec);
    }
    return Some(SystemdUnquote(token));
  }
}
