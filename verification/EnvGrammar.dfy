/**
 The grammar of `node.env` as a one-pass character automaton, following the
 grammar the parser's own documentation gives for systemd's EnvironmentFile.
 */
module EnvGrammar {
  import opened Base

  datatype Entry = Entry(key: string, value: string)

  datatype Fault =
    MissingEquals | InvalidKey | DuplicateKey | TextAfterQuote | UnterminatedQuote

  type Parsed = Result<seq<Entry>, Fault>

  // ---------------------------------------------------------------------
  // Characters and blanks
  // ---------------------------------------------------------------------

  /** `str.isspace`. */
  predicate IsSpace(c: char) {
    var n := c as int;
    n == 0x20 || 0x9 <= n <= 0xD || 0x1C <= n <= 0x1F || n == 0x85 || n == 0xA0 ||
    n == 0x1680 || 0x2000 <= n <= 0x200A || n == 0x2028 || n == 0x2029 || n == 0x202F ||
    n == 0x205F || n == 0x3000
  }

  predicate Blank(s: string) {
    forall i :: 0 <= i < |s| ==> IsSpace(s[i])
  }

  function LStrip(s: string): (r: string)
    ensures |r| <= |s| && s[|s| - |r|..] == r
    ensures Blank(s[..|s| - |r|]) && (r != "" ==> !IsSpace(r[0]))
  {
    if s != "" && IsSpace(s[0]) then
      var r := LStrip(s[1..]);
      assert s[..|s| - |r|] == [s[0]] + s[1..][..|s| - 1 - |r|];
      assert s[|s| - |r|..] == s[1..][|s| - 1 - |r|..];
      r
    else s
  }

  function RStrip(s: string): (r: string)
    ensures r <= s && Blank(s[|r|..])
    ensures r != "" ==> !IsSpace(r[|r| - 1])
  {
    if s != "" && IsSpace(s[|s| - 1]) then
      var r := RStrip(s[..|s| - 1]);
      assert s[|r|..] == s[..|s| - 1][|r|..] + [s[|s| - 1]];
      r
    else s
  }

  /** `str.strip` */
  function Strip(s: string): string {
    RStrip(LStrip(s))
  }

  predicate IsLetter(c: char) {
    'A' <= c <= 'Z' || 'a' <= c <= 'z' || c == '_'
  }

  predicate IsKeyChar(c: char) {
    IsLetter(c) || '0' <= c <= '9'
  }

  /** `[A-Za-z_][A-Za-z0-9_]*` */
  predicate ValidKey(k: string) {
    k != "" && IsLetter(k[0]) && forall i :: 0 <= i < |k| ==> IsKeyChar(k[i])
  }

  predicate HasKey(entries: seq<Entry>, k: string) {
    exists i :: 0 <= i < |entries| && entries[i].key == k
  }

  predicate IsQuote(c: char) {
    c == '"' || c == '\''
  }

  /** The characters a backslash escapes inside double quotes. */
  predicate NeedsEscape(c: char) {
    c == '"' || c == '\\' || c == '$' || c == '`'
  }

  /** A line starting with this character, after blanks, is an entry. */
  predicate StartsEntry(c: char) {
    !IsSpace(c) && c != '#' && c != ';'
  }

  // ---------------------------------------------------------------------
  // The automaton
  // ---------------------------------------------------------------------

  datatype State =
    | LineStart(done: seq<Entry>)
    | Comment(done: seq<Entry>)
    | Key(done: seq<Entry>, key: string)
    | BeforeValue(done: seq<Entry>, key: string)
    | Bare(done: seq<Entry>, key: string, out: string)
    | BareEscape(done: seq<Entry>, key: string, out: string)
    | Quoted(done: seq<Entry>, key: string, quote: char, out: string)
    | QuotedEscape(done: seq<Entry>, key: string, out: string)
    | AfterQuote(done: seq<Entry>, key: string, out: string)
    | Rejected(fault: Fault)

  function KeyEnd(done: seq<Entry>, text: string): State {
    var k := RStrip(text);
    if !ValidKey(k) then Rejected(InvalidKey)
    else if HasKey(done, k) then Rejected(DuplicateKey)
    else BeforeValue(done, k)
  }

  function Step(st: State, c: char): State {
    match st
    case LineStart(done) =>
      if IsSpace(c) then st
      else if !StartsEntry(c) then Comment(done)
      else if c == '=' then KeyEnd(done, "")
      else Key(done, [c])
    case Comment(done) =>
      if c == '\n' then LineStart(done) else st
    case Key(done, key) =>
      if c == '\n' then Rejected(MissingEquals)
      else if c == '=' then KeyEnd(done, key)
      else Key(done, key + [c])
    case BeforeValue(done, key) =>
      if c == '\n' then LineStart(done + [Entry(key, "")])
      else if IsSpace(c) then st
      else if IsQuote(c) then Quoted(done, key, c, "")
      else if c == '\\' then BareEscape(done, key, "")
      else Bare(done, key, [c])
    case Bare(done, key, out) =>
      if c == '\n' then LineStart(done + [Entry(key, RStrip(out))])
      else if c == '\\' then BareEscape(done, key, out)
      else Bare(done, key, out + [c])
    case BareEscape(done, key, out) =>
      if c == '\n' then Bare(done, key, out) else Bare(done, key, out + [c])
    case Quoted(done, key, quote, out) =>
      if c == quote then AfterQuote(done, key, out)
      else if quote == '"' && c == '\\' then QuotedEscape(done, key, out)
      else Quoted(done, key, quote, out + [c])
    case QuotedEscape(done, key, out) =>
      if NeedsEscape(c) then Quoted(done, key, '"', out + [c])
      else if c == '\n' then Quoted(done, key, '"', out)
      else Quoted(done, key, '"', out + ['\\', c])
    case AfterQuote(done, key, out) =>
      if c == '\n' then LineStart(done + [Entry(key, out)])
      else if IsSpace(c) then st
      else Rejected(TextAfterQuote)
    case Rejected(_) => st
  }

  function Finish(st: State): Parsed {
    match st
    case LineStart(done) => Ok(done)
    case Comment(done) => Ok(done)
    case Key(_, _) => Err(MissingEquals)
    case BeforeValue(done, key) => Ok(done + [Entry(key, "")])
    case Bare(done, key, out) => Ok(done + [Entry(key, RStrip(out))])
    case BareEscape(done, key, out) => Ok(done + [Entry(key, RStrip(out))])
    case Quoted(_, _, _, _) => Err(UnterminatedQuote)
    case QuotedEscape(_, _, _) => Err(UnterminatedQuote)
    case AfterQuote(done, key, out) => Ok(done + [Entry(key, out)])
    case Rejected(fault) => Err(fault)
  }

  function Run(st: State, s: string): Parsed
    decreases |s|
  {
    if s == "" then Finish(st) else Run(Step(st, s[0]), s[1..])
  }

  /** The documented meaning of a `node.env` text. */
  function Meaning(text: string): Parsed {
    Run(LineStart([]), text)
  }

  // ---------------------------------------------------------------------
  // What the line-indexed parser reads
  // ---------------------------------------------------------------------

  /** Position of the first newline, or the length of the text. */
  function LineEnd(s: string): (e: nat)
    ensures e <= |s| && '\n' !in s[..e] && (e < |s| ==> s[e] == '\n')
  {
    if s == "" || s[0] == '\n' then 0
    else
      var e := LineEnd(s[1..]);
      assert s[..1 + e] == [s[0]] + s[1..][..e];
      1 + e
  }

  /** The text with the trailing blanks of its first line removed. */
  function TrimLine(s: string): (r: string)
    ensures |r| <= |s|
    ensures s != "" && !IsSpace(s[0]) ==> r != "" && r[0] == s[0]
  {
    var e := LineEnd(s);
    var line := RStrip(s[..e]);
    line + s[e..]
  }

  /** The automaton, except that the first line of each entry is right-trimmed. */
  function Read(st: State, s: string): Parsed
    decreases |s|
  {
    if s == "" then Finish(st)
    else if st.LineStart? && StartsEntry(s[0]) then
      var t := TrimLine(s);
      Read(Step(st, t[0]), t[1..])
    else Read(Step(st, s[0]), s[1..])
  }

  lemma RejectedStays(fault: Fault, s: string)
    ensures Read(Rejected(fault), s) == Err(fault)
    ensures Run(Rejected(fault), s) == Err(fault)
  {
  }
}
