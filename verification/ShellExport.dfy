/**
 The exported settings as shell text, and the shell's own reading of it: token
 recognition and quoting of the Shell Command Language (sections 2.2 and 2.3 of
 POSIX.1-2017). A construct that expands, redirects or joins commands is not
 evaluated; the reading then has no result.
 */
module ShellExport {
  import opened Base
  import opened EnvGrammar
  import opened EnvMeaning

  // ---------------------------------------------------------------------
  // `shlex.quote` and `shell_exports`
  // ---------------------------------------------------------------------

  /** `[\w@%+=:,./-]` in ASCII */
  predicate IsSafe(c: char) {
    IsKeyChar(c) || c == '@' || c == '%' || c == '+' || c == '=' || c == ':' || c == ',' ||
    c == '.' || c == '/' || c == '-'
  }

  /** Every single quote closed, put in double quotes and reopened. */
  function ReplaceQuotes(s: string): string {
    if s == "" then ""
    else (if s[0] == '\'' then "'\"'\"'" else [s[0]]) + ReplaceQuotes(s[1..])
  }

  function Quote(s: string): string {
    if s == "" then "''"
    else if forall i :: 0 <= i < |s| ==> IsSafe(s[i]) then s
    else "'" + ReplaceQuotes(s) + "'"
  }

  function ExportLine(e: Entry): string {
    "export " + e.key + "=" + Quote(e.value) + "\n"
  }

  function ShellExports(entries: seq<Entry>): string {
    if entries == [] then "" else ExportLine(entries[0]) + ShellExports(entries[1..])
  }

  // ---------------------------------------------------------------------
  // The shell
  // ---------------------------------------------------------------------

  type Command = seq<string>

  datatype Reading =
    | Between(commands: seq<Command>, words: Command)
    | Word(commands: seq<Command>, words: Command, word: string)
    | Escaped(commands: seq<Command>, words: Command, word: string)
    | Single(commands: seq<Command>, words: Command, word: string)
    | Double(commands: seq<Command>, words: Command, word: string)
    | DoubleEscaped(commands: seq<Command>, words: Command, word: string)
    | NotEvaluated

  /** Characters that are not plain text outside quotes. */
  predicate IsShellSpecial(c: char) {
    c == '|' || c == '&' || c == ';' || c == '<' || c == '>' || c == '(' || c == ')' ||
    c == '$' || c == '`' || c == '*' || c == '?' || c == '[' || c == ']' || c == '#' ||
    c == '~' || c == '!' || c == '{' || c == '}' || c == '^'
  }

  function EndCommand(commands: seq<Command>, words: Command): Reading {
    Between(if words == [] then commands else commands + [words], [])
  }

  /** One character outside quotes, in a word or between words. */
  function Unquoted(r: Reading, c: char): Reading
    requires r.Between? || r.Word?
  {
    var word := if r.Word? then r.word else "";
    if c == '\'' then Single(r.commands, r.words, word)
    else if c == '"' then Double(r.commands, r.words, word)
    else if c == '\\' then Escaped(r.commands, r.words, word)
    else if IsShellSpecial(c) then NotEvaluated
    else if c == ' ' || c == '\t' then
      Between(r.commands, if r.Word? then r.words + [word] else r.words)
    else if c == '\n' then EndCommand(r.commands, if r.Word? then r.words + [word] else r.words)
    else Word(r.commands, r.words, word + [c])
  }

  function ShellStep(r: Reading, c: char): Reading {
    match r
    case Between(_, _) => Unquoted(r, c)
    case Word(_, _, _) => Unquoted(r, c)
    case Escaped(cs, ws, w) => Word(cs, ws, if c == '\n' then w else w + [c])
    case Single(cs, ws, w) => if c == '\'' then Word(cs, ws, w) else Single(cs, ws, w + [c])
    case Double(cs, ws, w) =>
      if c == '"' then Word(cs, ws, w)
      else if c == '\\' then DoubleEscaped(cs, ws, w)
      else if c == '$' || c == '`' then NotEvaluated
      else Double(cs, ws, w + [c])
    case DoubleEscaped(cs, ws, w) =>
      if c == '\n' then Double(cs, ws, w)
      else if NeedsEscape(c) then Double(cs, ws, w + [c])
      else Double(cs, ws, w + ['\\', c])
    case NotEvaluated => NotEvaluated
  }

  function Shell(r: Reading, text: string): Reading
    decreases |text|
  {
    if text == "" then r else Shell(ShellStep(r, text[0]), text[1..])
  }

  /** The simple commands of a text, or nothing when the model cannot tell. */
  function Commands(text: string): Option<seq<Command>> {
    match Shell(Between([], []), text)
    case Between(cs, ws) => Some(EndCommand(cs, ws).commands)
    case Word(cs, ws, w) => Some(cs + [ws + [w]])
    case _ => None
  }

  /** The variables prefix by `export NAME=value` commands, and by nothing else. */
  function Environment(commands: seq<Command>, env: map<string, string>):
    Option<map<string, string>>
    decreases |commands|
  {
    if commands == [] then Some(env)
    else
      var words := commands[0];
      if |words| == 2 && words[0] == "export" && '=' in words[1] then
        var e := FirstEquals(words[1]);
        if ValidKey(words[1][..e]) then
          Environment(commands[1..], env[words[1][..e] := words[1][e + 1..]])
        else None
      else None
  }

  function FirstEquals(s: string): (e: nat)
    requires '=' in s
    ensures e < |s| && s[e] == '=' && '=' !in s[..e]
  {
    if s[0] == '=' then 0
    else
      var e := FirstEquals(s[1..]);
      assert s[..1 + e] == [s[0]] + s[1..][..e];
      1 + e
  }

  /** The settings as a map, a later entry winning. */
  function Settings(entries: seq<Entry>, env: map<string, string>): map<string, string>
    decreases |entries|
  {
    if entries == [] then env
    else Settings(entries[1..], env[entries[0].key := entries[0].value])
  }

  // ---------------------------------------------------------------------
  // Proofs
  // ---------------------------------------------------------------------

  lemma {:induction false} ShellConcat(r: Reading, x: string, y: string)
    ensures Shell(r, x + y) == Shell(Shell(r, x), y)
    decreases |x|
  {
    if x == "" {
      assert x + y == y;
    } else {
      assert (x + y)[0] == x[0] && (x + y)[1..] == x[1..] + y;
      ShellConcat(ShellStep(r, x[0]), x[1..], y);
    }
  }

  /** Safe characters are plain text. */
  lemma {:induction false} SafeText(r: Reading, s: string)
    requires (r.Between? || r.Word?) && s != ""
    requires forall i :: 0 <= i < |s| ==> IsSafe(s[i])
    ensures Shell(r, s) == Word(r.commands, r.words, (if r.Word? then r.word else "") + s)
    decreases |s|
  {
    var word := if r.Word? then r.word else "";
    assert IsSafe(s[0]);
    var next := Word(r.commands, r.words, word + [s[0]]);
    assert ShellStep(r, s[0]) == next;
    assert word + [s[0]] + s[1..] == word + s;
    if |s| > 1 {
      SafeText(next, s[1..]);
    } else {
      assert s[1..] == "";
    }
  }

  /** Inside single quotes everything but the quote stands for itself. */
  lemma {:induction false} QuotedText(cs: seq<Command>, ws: Command, w: string, s: string)
    ensures Shell(Single(cs, ws, w), ReplaceQuotes(s)) == Single(cs, ws, w + s)
    decreases |s|
  {
    if s == "" {
      assert w + s == w;
    } else {
      var c, more := s[0], ReplaceQuotes(s[1..]);
      assert w + [c] + s[1..] == w + s;
      if c == '\'' {
        ReopenedQuote(cs, ws, w);
        ShellConcat(Single(cs, ws, w), "'\"'\"'", more);
      } else {
        assert ([c] + more)[1..] == more;
      }
      QuotedText(cs, ws, w + [c], s[1..]);
    }
  }

  lemma ReopenedQuote(cs: seq<Command>, ws: Command, w: string)
    ensures Shell(Single(cs, ws, w), "'\"'\"'") == Single(cs, ws, w + ['\''])
  {
    var r := Single(cs, ws, w);
    assert "'\"'\"'"[1..] == "\"'\"'";
    assert "\"'\"'"[1..] == "'\"'";
    assert "'\"'"[1..] == "\"'";
    assert "\"'"[1..] == "'";
    assert "'"[1..] == "";
    assert ShellStep(r, '\'') == Word(cs, ws, w);
    assert ShellStep(Word(cs, ws, w), '"') == Double(cs, ws, w);
    assert ShellStep(Double(cs, ws, w), '\'') == Double(cs, ws, w + ['\'']);
    hide ShellStep;
    assert Shell(r, "'\"'\"'") == Shell(Word(cs, ws, w), "\"'\"'");
    assert Shell(Word(cs, ws, w), "\"'\"'") == Shell(Double(cs, ws, w), "'\"'");
    assert Shell(Double(cs, ws, w), "'\"'") == Shell(Double(cs, ws, w + ['\'']), "\"'");
    CloseAndReopen(cs, ws, w + ['\'']);
  }

  lemma CloseAndReopen(cs: seq<Command>, ws: Command, w: string)
    ensures Shell(Double(cs, ws, w), "\"'") == Single(cs, ws, w)
  {
    assert "\"'"[1..] == "'";
    assert "'"[1..] == "";
    assert Shell(Double(cs, ws, w), "\"'") == Shell(Word(cs, ws, w), "'");
  }

  /** A quoted value adds exactly the value to the word being read. */
  lemma QuoteAddsValue(cs: seq<Command>, ws: Command, w: string, v: string)
    ensures Shell(Word(cs, ws, w), Quote(v)) == Word(cs, ws, w + v)
  {
    if v == "" {
      assert w + v == w;
      assert "''"[1..] == "'" && "'"[1..] == "";
      assert Shell(Word(cs, ws, w), "''") == Shell(Single(cs, ws, w), "'");
    } else if forall i :: 0 <= i < |v| ==> IsSafe(v[i]) {
      SafeText(Word(cs, ws, w), v);
    } else {
      hide IsSafe;
      assert Quote(v) == "'" + (ReplaceQuotes(v) + "'");
      OpenQuote(cs, ws, w, ReplaceQuotes(v) + "'");
      ShellConcat(Single(cs, ws, w), ReplaceQuotes(v), "'");
      QuotedText(cs, ws, w, v);
      assert "'"[1..] == "";
      assert Shell(Single(cs, ws, w + v), "'") == Word(cs, ws, w + v);
    }
  }

  lemma OpenQuote(cs: seq<Command>, ws: Command, w: string, rest: string)
    ensures Shell(Word(cs, ws, w), "'" + rest) == Shell(Single(cs, ws, w), rest)
  {
    assert ("'" + rest)[1..] == rest;
  }

  lemma SafeKey(k: string)
    requires ValidKey(k)
    ensures forall i :: 0 <= i < |k + "="| ==> IsSafe((k + "=")[i])
  {
  }

  lemma BlankEndsWord(cs: seq<Command>, ws: Command, w: string, rest: string)
    ensures Shell(Word(cs, ws, w), " " + rest) == Shell(Between(cs, ws + [w]), rest)
  {
    assert (" " + rest)[1..] == rest;
  }

  lemma CommandWord(cs: seq<Command>, name: string, rest: string)
    requires name != "" && forall i :: 0 <= i < |name| ==> IsSafe(name[i])
    ensures Shell(Between(cs, []), name + (" " + rest)) == Shell(Between(cs, [name]), rest)
  {
    hide IsSafe, Shell;
    ShellConcat(Between(cs, []), name, " " + rest);
    SafeText(Between(cs, []), name);
    assert "" + name == name && [] + [name] == [name];
    BlankEndsWord(cs, [], name, rest);
  }

  lemma KeyWord(cs: seq<Command>, ws: Command, k: string, rest: string)
    requires ValidKey(k)
    ensures Shell(Between(cs, ws), k + "=" + rest) == Shell(Word(cs, ws, k + "="), rest)
  {
    SafeKey(k);
    hide IsSafe, ValidKey;
    ShellConcat(Between(cs, ws), k + "=", rest);
    SafeText(Between(cs, ws), k + "=");
    assert "" + (k + "=") == k + "=";
  }

  lemma EndOfCommand(cs: seq<Command>, ws: Command, w: string)
    ensures Shell(Word(cs, ws, w), "\n") == Between(cs + [ws + [w]], [])
  {
    assert "\n"[1..] == "";
  }

  /** One exported line is one assignment command. */
  lemma ExportedLine(cs: seq<Command>, e: Entry)
    requires ValidKey(e.key)
    ensures Shell(Between(cs, []), ExportLine(e)) ==
            Between(cs + [["export", e.key + "=" + e.value]], [])
  {
    assert forall i :: 0 <= i < |"export"| ==> IsSafe("export"[i]);
    hide ValidKey, Quote, Shell, IsSafe;
    var value := Quote(e.value) + "\n";
    assert ExportLine(e) == "export" + (" " + (e.key + "=" + value));
    CommandWord(cs, "export", e.key + "=" + value);
    KeyWord(cs, ["export"], e.key, value);
    ShellConcat(Word(cs, ["export"], e.key + "="), Quote(e.value), "\n");
    QuoteAddsValue(cs, ["export"], e.key + "=", e.value);
    var word := e.key + "=" + e.value;
    EndOfCommand(cs, ["export"], word);
    assert ["export"] + [word] == ["export", word];
  }

  function Assignments(entries: seq<Entry>): seq<Command> {
    if entries == [] then []
    else [["export", entries[0].key + "=" + entries[0].value]] + Assignments(entries[1..])
  }

  lemma NothingToRead(r: Reading)
    ensures Shell(r, "") == r
  {
  }

  lemma {:induction false} ExportedLines(cs: seq<Command>, entries: seq<Entry>)
    requires forall i :: 0 <= i < |entries| ==> ValidKey(entries[i].key)
    ensures Shell(Between(cs, []), ShellExports(entries)) ==
            Between(cs + Assignments(entries), [])
    decreases |entries|
  {
    hide ValidKey, ExportLine, Shell;
    if entries == [] {
      assert Shell(Between(cs, []), "") == Between(cs, []) by { NothingToRead(Between(cs, [])); }
      assert cs + [] == cs;
    } else {
      var line := [["export", entries[0].key + "=" + entries[0].value]];
      ShellConcat(Between(cs, []), ExportLine(entries[0]), ShellExports(entries[1..]));
      ExportedLine(cs, entries[0]);
      ExportedLines(cs + line, entries[1..]);
      assert cs + line + Assignments(entries[1..]) == cs + Assignments(entries);
    }
  }

  lemma {:induction false} AssignmentsSet(entries: seq<Entry>, env: map<string, string>)
    requires forall i :: 0 <= i < |entries| ==> ValidKey(entries[i].key)
    ensures Environment(Assignments(entries), env) == Some(Settings(entries, env))
    decreases |entries|
  {
    if entries != [] {
      var k, v := entries[0].key, entries[0].value;
      SplitAssignment(k, v);
      assert Assignments(entries)[1..] == Assignments(entries[1..]);
      hide ValidKey;
      AssignmentsSet(entries[1..], env[k := v]);
    }
  }

  lemma SplitAssignment(k: string, v: string)
    requires ValidKey(k)
    ensures var word := k + "=" + v;
            '=' in word && FirstEquals(word) == |k| &&
            word[..FirstEquals(word)] == k && word[FirstEquals(word) + 1..] == v
  {
    FirstEqualsAt(k, v);
  }

  lemma {:induction false} FirstEqualsAt(k: string, v: string)
    requires forall i :: 0 <= i < |k| ==> IsKeyChar(k[i])
    ensures var word := k + "=" + v; '=' in word && FirstEquals(word) == |k|
  {
    var word := k + "=" + v;
    assert word[|k|] == '=';
    if k != "" {
      assert word[0] == k[0] && IsKeyChar(k[0]);
      assert word[1..] == k[1..] + "=" + v;
      FirstEqualsAt(k[1..], v);
    }
  }

  /** Without repeated keys the settings are just the entries. */
  lemma {:induction false} SettingsAreEntries(entries: seq<Entry>, env: map<string, string>,
                                              i: nat)
    requires ProperEntries(entries) && i < |entries|
    ensures entries[i].key in Settings(entries, env) &&
            Settings(entries, env)[entries[i].key] == entries[i].value
    decreases |entries|
  {
    hide ValidKey;
    var env' := env[entries[0].key := entries[0].value];
    if i > 0 {
      SettingsAreEntries(entries[1..], env', i - 1);
    } else {
      SettingsKeep(entries[1..], env', entries[0].key);
    }
  }

  lemma {:induction false} SettingsKeep(entries: seq<Entry>, env: map<string, string>, k: string)
    requires k in env && forall i :: 0 <= i < |entries| ==> entries[i].key != k
    ensures k in Settings(entries, env) && Settings(entries, env)[k] == env[k]
    decreases |entries|
  {
    if entries != [] {
      SettingsKeep(entries[1..], env[entries[0].key := entries[0].value], k);
    }
  }

  /** The value of a key, nothing when there is none. */
  function ValueOf(entries: seq<Entry>, k: string): string {
    if entries == [] then ""
    else if entries[0].key == k then entries[0].value
    else ValueOf(entries[1..], k)
  }

  /** A blank MONITORING_MODE is exported as the default of the role. */
  function ResolvedEntry(e: Entry, role: string): Entry {
    if e.key == "MONITORING_MODE" && e.value == "" then e.(value := MonitoringDefault(role))
    else e
  }

  /** What validation makes of the parsed entries before they are exported. */
  function ResolvedEntries(entries: seq<Entry>): (r: seq<Entry>)
    ensures |r| == |entries|
  {
    var role := ValueOf(entries, "SEISMIC_ROLE");
    seq(|entries|, i requires 0 <= i < |entries| => ResolvedEntry(entries[i], role))
  }

  lemma ResolvedAreProper(entries: seq<Entry>)
    requires ProperEntries(entries)
    ensures ProperEntries(ResolvedEntries(entries))
    ensures forall i :: 0 <= i < |entries| ==>
              ResolvedEntries(entries)[i].key == entries[i].key &&
              ResolvedEntries(entries)[i].value ==
              if entries[i].key == "MONITORING_MODE" && entries[i].value == ""
              then MonitoringDefault(ValueOf(entries, "SEISMIC_ROLE"))
              else entries[i].value
  {
    hide ValidKey, ResolvedEntries;
    var r := ResolvedEntries(entries);
    forall i | 0 <= i < |entries|
      ensures r[i].key == entries[i].key &&
              r[i].value ==
              if entries[i].key == "MONITORING_MODE" && entries[i].value == ""
              then MonitoringDefault(ValueOf(entries, "SEISMIC_ROLE"))
              else entries[i].value
    {
      ResolvedAt(entries, i);
    }
    SameKeysProper(entries, r);
  }

  lemma ResolvedAt(entries: seq<Entry>, i: nat)
    requires i < |entries|
    ensures ResolvedEntries(entries)[i] ==
            ResolvedEntry(entries[i], ValueOf(entries, "SEISMIC_ROLE"))
  {
  }

  lemma SameKeysProper(a: seq<Entry>, b: seq<Entry>)
    requires ProperEntries(a) && |a| == |b|
    requires forall i :: 0 <= i < |a| ==> b[i].key == a[i].key
    ensures ProperEntries(b)
  {
    hide ValidKey;
  }

  /** What a blank MONITORING_MODE stands for in a file with these entries. */
  function ModeFor(entries: seq<Entry>): string {
    if Entry("SEISMIC_ROLE", "validator") in entries then "push"
    else if Entry("SEISMIC_ROLE", "observer") in entries then "off"
    else ""
  }

  lemma {:induction false} ValueIsEntry(entries: seq<Entry>, k: string)
    requires forall i, j :: 0 <= i < j < |entries| ==> entries[i].key != entries[j].key
    ensures forall v :: Entry(k, v) in entries ==> ValueOf(entries, k) == v
    ensures ValueOf(entries, k) != "" ==> Entry(k, ValueOf(entries, k)) in entries
  {
    if entries != [] {
      ValueIsEntry(entries[1..], k);
      forall v | Entry(k, v) in entries
        ensures ValueOf(entries, k) == v
      {
        var i :| 0 <= i < |entries| && entries[i] == Entry(k, v);
        if i > 0 {
          assert entries[1..][i - 1] == entries[i];
        }
      }
    }
  }

  lemma ModeIsDefault(entries: seq<Entry>)
    requires ProperEntries(entries)
    ensures MonitoringDefault(ValueOf(entries, "SEISMIC_ROLE")) == ModeFor(entries)
  {
    hide ValidKey, ValueOf;
    ValueIsEntry(entries, "SEISMIC_ROLE");
    assert |"validator"| == 9 && |"observer"| == 8;
  }

  /**
   From file to shell: whatever text the parser accepts, the shell that reads
   the exported text runs one export for each entry and assigns every parsed key
   its parsed value, except a blank MONITORING_MODE, which gets the default of
   the parsed role.
   */
  lemma ParsedFileReachesShell(text: string)
    ensures var parsed := Read(LineStart([]), text);
            parsed.Ok? ==>
              var resolved := ResolvedEntries(parsed.value);
              && Commands(ShellExports(resolved)) == Some(Assignments(resolved))
              && Environment(Assignments(resolved), map[]).Some?
              && forall i :: 0 <= i < |parsed.value| ==>
                   var env := Environment(Assignments(resolved), map[]).value;
                   var e := parsed.value[i];
                   e.key in env &&
                   env[e.key] == if e.key == "MONITORING_MODE" && e.value == ""
                                 then ModeFor(parsed.value) else e.value
  {
    var parsed := Read(LineStart([]), text);
    AcceptedIsProper(LineStart([]), text);
    if parsed.Ok? {
      ResolvedAreProper(parsed.value);
      ModeIsDefault(parsed.value);
      var resolved := ResolvedEntries(parsed.value);
      hide Read, Commands, Environment, Settings, Assignments, ShellExports, ValidKey,
           ResolvedEntries, ModeFor, MonitoringDefault;
      ExportsReadBack(resolved);
      forall i | 0 <= i < |parsed.value|
        ensures resolved[i].key in Settings(resolved, map[]) &&
                Settings(resolved, map[])[resolved[i].key] == resolved[i].value
      {
        SettingsAreEntries(resolved, map[], i);
      }
    }
  }

  /**
   For all values the shell reads the exported text as one assignment per entry
   and nothing else, and ends up with exactly the exported settings.
   */
  lemma ExportsReadBack(entries: seq<Entry>)
    requires forall i :: 0 <= i < |entries| ==> ValidKey(entries[i].key)
    ensures Commands(ShellExports(entries)) == Some(Assignments(entries))
    ensures Environment(Assignments(entries), map[]) == Some(Settings(entries, map[]))
  {
    ExportedLines([], entries);
    AssignmentsSet(entries, map[]);
    assert [] + Assignments(entries) == Assignments(entries);
  }
}
