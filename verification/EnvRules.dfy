/**
 The rules of the grammar as its documentation lists them, each one for the
 documented meaning and for the parser. They are stated in literal characters:
 which marks start a comment or a quotation, what a backslash does and where,
 what a key is, and which lines are errors.
 */
module EnvRules {
  import opened Base
  import opened EnvGrammar
  import opened NodeEnvParser
  import opened EnvMeaning
  import opened EnvPrinter

  /** The parser's reading, which trims first lines, or the documented one. */
  function Reading(trims: bool, st: State, s: string): Parsed {
    if trims then Read(st, s) else Run(st, s)
  }

  /** The text of an entry as it is read. */
  function Trimmed(trims: bool, s: string): string {
    if trims then TrimLine(s) else s
  }

  /** Blanks as files have them. */
  predicate Gap(s: string) {
    forall c :: c in s ==> c == ' ' || c == '\t'
  }

  predicate LineOver(end: string) {
    end == "" || end[0] == '\n'
  }

  /** What follows an entry: the end of the text, or the next line. */
  function Rest(trims: bool, done: seq<Entry>, end: string): Parsed
    requires LineOver(end)
  {
    if end == "" then Ok(done) else Reading(trims, LineStart(done), end[1..])
  }

  /** Letters, digits and underscores, the first one no digit. */
  predicate KeyText(k: string) {
    k != "" && !('0' <= k[0] <= '9') &&
    forall c :: c in k ==>
      'A' <= c <= 'Z' || 'a' <= c <= 'z' || c == '_' || '0' <= c <= '9'
  }

  predicate Unused(done: seq<Entry>, k: string) {
    forall e :: e in done ==> e.key != k
  }

  function Prefixed(p: string, r: Option<string>): Option<string> {
    match r
    case None => None
    case Some(s) => Some(p + s)
  }

  /** The value between double quotes, unless a quote or a lone backslash ends it. */
  function DoubleQuoted(v: string): Option<string> {
    if v == "" then Some("")
    else if v[0] == '"' then None
    else if v[0] != '\\' then Prefixed([v[0]], DoubleQuoted(v[1..]))
    else if |v| == 1 then None
    else if v[1] == '"' || v[1] == '\\' || v[1] == '$' || v[1] == '`' then
      Prefixed([v[1]], DoubleQuoted(v[2..]))
    else if v[1] == '\n' then DoubleQuoted(v[2..])
    else Prefixed(['\\', v[1]], DoubleQuoted(v[2..]))
  }

  /** The value without quotes, unless a newline or a lone backslash ends it. */
  function Unquoted(v: string): Option<string> {
    if v == "" then Some("")
    else if v[0] == '\n' then None
    else if v[0] != '\\' then Prefixed([v[0]], Unquoted(v[1..]))
    else if |v| == 1 then None
    else if v[1] == '\n' then Unquoted(v[2..])
    else Prefixed([v[1]], Unquoted(v[2..]))
  }

  // ---------------------------------------------------------------------
  // Characters
  // ---------------------------------------------------------------------

  /** Valid keys are what the documentation says they are. */
  lemma KeyTextIsValid(k: string)
    ensures ValidKey(k) <==> KeyText(k)
  {
    if ValidKey(k) {
      forall c | c in k
        ensures IsKeyChar(c)
      {
        var i :| 0 <= i < |k| && k[i] == c;
      }
    }
    if KeyText(k) {
      forall i | 0 <= i < |k|
        ensures IsKeyChar(k[i])
      {
        assert k[i] in k;
      }
      assert k[0] in k;
    }
  }

  /** The characters that count as blanks. */
  lemma BlankCharacters(c: char)
    ensures IsSpace(c) <==>
            c in ['\t', '\n', '\U{B}', '\U{C}', '\r', '\U{1C}', '\U{1D}', '\U{1E}', '\U{1F}',
                  ' ', '\U{85}', '\U{A0}', '\U{1680}', '\U{2000}', '\U{2001}', '\U{2002}',
                  '\U{2003}', '\U{2004}', '\U{2005}', '\U{2006}', '\U{2007}', '\U{2008}',
                  '\U{2009}', '\U{200A}', '\U{2028}', '\U{2029}', '\U{202F}', '\U{205F}',
                  '\U{3000}']
  {
  }

  lemma GapIsBlank(s: string)
    requires Gap(s)
    ensures Blank(s) && '\n' !in s
  {
    forall i | 0 <= i < |s|
      ensures IsSpace(s[i])
    {
      assert s[i] in s;
    }
  }

  // ---------------------------------------------------------------------
  // Both readings, step by step
  // ---------------------------------------------------------------------

  lemma StepBoth(trims: bool, st: State, c: char, rest: string)
    requires !(st.LineStart? && StartsEntry(c))
    ensures Reading(trims, st, [c] + rest) == Reading(trims, Step(st, c), rest)
  {
    assert ([c] + rest)[1..] == rest;
  }

  lemma WalkBoth(trims: bool, st: State, x: string, rest: string)
    requires !st.LineStart? && '\n' !in x
    ensures Reading(trims, st, x + rest) == Reading(trims, Fold(st, x), rest)
  {
    ReadFold(st, x, rest);
    RunFold(st, x, rest);
  }

  lemma RejectedBoth(trims: bool, fault: Fault, s: string)
    ensures Reading(trims, Rejected(fault), s) == Err(fault)
  {
    RejectedStays(fault, s);
  }

  /** Blanks keep this state. */
  predicate Patient(st: State) {
    st.LineStart? || st.BeforeValue? || st.AfterQuote?
  }

  lemma {:induction false} GapBoth(trims: bool, st: State, gap: string, rest: string)
    requires Gap(gap) && Patient(st)
    ensures Reading(trims, st, gap + rest) == Reading(trims, st, rest)
    decreases |gap|
  {
    if gap == "" {
      assert gap + rest == rest;
    } else {
      assert gap[0] in gap && forall c :: c in gap[1..] ==> c in gap;
      assert gap + rest == [gap[0]] + (gap[1..] + rest);
      StepBoth(trims, st, gap[0], gap[1..] + rest);
      GapBoth(trims, st, gap[1..], rest);
    }
  }

  lemma EndOfEntry(trims: bool, st: State, done: seq<Entry>, end: string)
    requires !st.LineStart? && LineOver(end)
    requires Finish(st) == Ok(done) && Step(st, '\n') == LineStart(done)
    ensures Reading(trims, st, end) == Rest(trims, done, end)
  {
    if end != "" {
      assert end == ['\n'] + end[1..];
      StepBoth(trims, st, '\n', end[1..]);
    }
  }

  // ---------------------------------------------------------------------
  // Lines that are no entries
  // ---------------------------------------------------------------------

  /** A blank line is skipped. */
  lemma BlankLineRule(trims: bool, done: seq<Entry>, gap: string, rest: string)
    requires Gap(gap)
    ensures Reading(trims, LineStart(done), gap + "\n" + rest) ==
            Reading(trims, LineStart(done), rest)
  {
    assert gap + "\n" + rest == gap + (['\n'] + rest);
    GapBoth(trims, LineStart(done), gap, ['\n'] + rest);
    StepBoth(trims, LineStart(done), '\n', rest);
  }

  lemma {:induction false} CommentText(trims: bool, done: seq<Entry>, text: string, end: string)
    requires '\n' !in text && LineOver(end)
    ensures Reading(trims, Comment(done), text + end) == Rest(trims, done, end)
    decreases |text|
  {
    if text == "" {
      assert text + end == end;
      EndOfEntry(trims, Comment(done), done, end);
    } else {
      assert text[0] in text && forall c :: c in text[1..] ==> c in text;
      assert text + end == [text[0]] + (text[1..] + end);
      StepBoth(trims, Comment(done), text[0], text[1..] + end);
      CommentText(trims, done, text[1..], end);
    }
  }

  /** A line whose first character after blanks is `#` or `;` is skipped. */
  lemma CommentRule(trims: bool, done: seq<Entry>, gap: string, mark: char, text: string,
                    end: string)
    requires Gap(gap) && (mark == '#' || mark == ';') && '\n' !in text && LineOver(end)
    ensures Reading(trims, LineStart(done), gap + [mark] + text + end) == Rest(trims, done, end)
  {
    assert gap + [mark] + text + end == gap + ([mark] + (text + end));
    GapBoth(trims, LineStart(done), gap, [mark] + (text + end));
    StepBoth(trims, LineStart(done), mark, text + end);
    CommentText(trims, done, text, end);
  }

  // ---------------------------------------------------------------------
  // The key
  // ---------------------------------------------------------------------

  /** Text that can stand before the `=` of an entry, blanks after it included. */
  predicate Name(s: string) {
    '\n' !in s && '=' !in s && (s != "" ==> StartsEntry(s[0]))
  }

  lemma StripHeadless(head: string, line: string)
    requires head != "" && !IsSpace(head[|head| - 1])
    ensures RStrip(head + line) == head + RStrip(line)
  {
    hide IsSpace, RStrip, Blank;
    RStripParts(line);
    SolidEnd(line);
    StripJoined(head, RStrip(line), line[|RStrip(line)|..]);
  }

  lemma StripJoined(head: string, r: string, blanks: string)
    requires head != "" && !IsSpace(head[|head| - 1]) && Blank(blanks)
    requires r != "" ==> !IsSpace(r[|r| - 1])
    ensures RStrip(head + (r + blanks)) == head + r
  {
    assert head + (r + blanks) == (head + r) + blanks;
    hide IsSpace, RStrip, Blank;
    RStripConcat(head + r, blanks);
    RStripEndsSolid(head + r);
  }

  lemma TrimHead(head: string, tail: string)
    requires head != "" && !IsSpace(head[|head| - 1]) && '\n' !in head
    ensures TrimLine(head + tail) == head + TrimLine(tail)
  {
    var e := LineEnd(tail);
    assert tail == tail[..e] + tail[e..];
    hide IsSpace, TrimLine, LineEnd;
    TrimHeadParts(head, tail[..e], tail[e..]);
  }

  lemma TrimHeadParts(head: string, line: string, rest: string)
    requires head != "" && !IsSpace(head[|head| - 1]) && '\n' !in head
    requires '\n' !in line && LineOver(rest)
    ensures TrimLine(head + (line + rest)) == head + TrimLine(line + rest)
  {
    hide IsSpace, RStrip, TrimLine;
    StripHeadless(head, line);
    Regroup(head, line, rest);
    Regroup(head, RStrip(line), rest);
    TrimmedLine(line, rest);
    TrimmedLine(head + line, rest);
  }

  lemma SolidEnd(line: string)
    ensures RStrip(line) != "" ==> !IsSpace(RStrip(line)[|RStrip(line)| - 1])
  {
  }

  /** Up to the `=`, whatever the name. */
  lemma FoldName(done: seq<Entry>, name: string)
    requires Name(name)
    ensures Fold(LineStart(done), name + "=") == KeyEnd(done, name)
  {
    if name == "" {
      assert name + "=" == "=";
      assert Fold(LineStart(done), "=") == Fold(Step(LineStart(done), '='), ""[..]);
    } else {
      var c, more := name[0], name[1..];
      assert c in name && forall d :: d in more ==> d in name;
      assert name + "=" == [c] + (more + "=");
      FoldStep(LineStart(done), c, more + "=");
      assert Step(LineStart(done), c) == Key(done, [c]);
      FoldFold(Key(done, [c]), more, "=");
      FoldKey(done, [c], more);
      assert [c] + more == name;
      assert Fold(Key(done, name), "=") == Step(Key(done, name), '=');
    }
  }

  lemma NameStarts(name: string, tail: string)
    requires Name(name)
    ensures StartsEntry((name + "=" + tail)[0]) && !IsSpace('=') && '\n' !in name + "="
  {
  }

  lemma NameTrimmed(done: seq<Entry>, name: string, text: string)
    requires Name(name)
    ensures Read(LineStart(done), name + "=" + text) ==
            Read(KeyEnd(done, name), TrimLine(text))
  {
    var head, e := name + "=", LineEnd(text);
    var t, rest := text[..e], text[e..];
    NameStarts(name, t);
    assert head + text == (head + t) + rest && text == t + rest;
    hide IsSpace, StartsEntry, RStrip, TrimLine, LineEnd, Read, Step, KeyEnd, Blank;
    StripHeadless(head, t);
    EntryLineBoth(done, head + t, rest);
    FoldFold(LineStart(done), head, RStrip(t));
    FoldName(done, name);
    TrimmedLine(t, rest);
    RStripParts(t);
    KeyEndInside(done, name);
    WalkBoth(true, KeyEnd(done, name), RStrip(t), rest);
  }

  lemma KeyEndInside(done: seq<Entry>, name: string)
    ensures !KeyEnd(done, name).LineStart?
  {
  }

  /** The part of an entry up to its `=`, blanks before and after the name included. */
  lemma NameRule(trims: bool, done: seq<Entry>, gap: string, name: string, text: string)
    requires Gap(gap) && Name(name)
    ensures Reading(trims, LineStart(done), gap + name + "=" + text) ==
            Reading(trims, KeyEnd(done, name), Trimmed(trims, text))
  {
    hide Read, Run, TrimLine, KeyEnd, StartsEntry, IsSpace;
    assert gap + name + "=" + text == gap + (name + "=" + text);
    GapBoth(trims, LineStart(done), gap, name + "=" + text);
    if trims {
      NameTrimmed(done, name, text);
    } else {
      RunFold(LineStart(done), name + "=", text);
      FoldName(done, name);
    }
  }

  lemma KeyIsName(k: string, mid: string)
    requires KeyText(k) && Gap(mid)
    ensures Name(k + mid) && RStrip(k + mid) == k
  {
    KeyTextIsValid(k);
    KeyChars(k);
    GapIsBlank(mid);
    hide IsSpace, RStrip, ValidKey, KeyText;
    RStripConcat(k, mid);
    assert '=' !in mid;
  }

  /** A key, blanks around it and the `=`: what follows is its value. */
  lemma KeyRule(trims: bool, done: seq<Entry>, gap: string, k: string, mid: string, text: string)
    requires Gap(gap) && Gap(mid) && KeyText(k) && Unused(done, k)
    ensures Reading(trims, LineStart(done), gap + k + mid + "=" + text) ==
            Reading(trims, BeforeValue(done, k), Trimmed(trims, text))
  {
    KeyIsName(k, mid);
    KeyTextIsValid(k);
    assert KeyEnd(done, k + mid) == BeforeValue(done, k);
    hide Reading, Trimmed, KeyEnd, RStrip, KeyText;
    assert gap + (k + mid) + "=" + text == gap + k + mid + "=" + text;
    NameRule(trims, done, gap, k + mid, text);
  }

  /** A name that is no key, and a key that was there before, are errors. */
  lemma BadKeyRule(trims: bool, done: seq<Entry>, gap: string, name: string, text: string)
    requires Gap(gap) && Name(name) && !(KeyText(RStrip(name)) && Unused(done, RStrip(name)))
    ensures Reading(trims, LineStart(done), gap + name + "=" + text) ==
            Err(if KeyText(RStrip(name)) then DuplicateKey else InvalidKey)
  {
    KeyTextIsValid(RStrip(name));
    if forall i :: 0 <= i < |done| ==> done[i].key != RStrip(name) {
      assert Unused(done, RStrip(name));
    }
    var fault := if KeyText(RStrip(name)) then DuplicateKey else InvalidKey;
    assert KeyEnd(done, name) == Rejected(fault);
    hide KeyText, Unused, Reading, Trimmed, RStrip, KeyEnd;
    NameRule(trims, done, gap, name, text);
    RejectedBoth(trims, fault, Trimmed(trims, text));
  }

  /** A line that is neither blank nor a comment needs a `=`. */
  lemma MissingEqualsRule(trims: bool, done: seq<Entry>, name: string, end: string)
    requires Name(name) && name != "" && LineOver(end)
    ensures Reading(trims, LineStart(done), name + end) == Err(MissingEquals)
  {
    RStripParts(name);
    var r := RStrip(name);
    EntryLineBoth(done, name, end);
    var blanks := name[|r|..];
    assert forall c :: c in r ==> c in name;
    FoldWholeName(done, r);
    assert forall c :: c in blanks ==> c in name;
    FoldKey(done, r, blanks);
    hide RStrip, IsSpace, StartsEntry, Fold, Blank;
    NameEnds(trims, done, r, end);
    NameEnds(trims, done, r + blanks, end);
  }

  lemma FoldWholeName(done: seq<Entry>, name: string)
    requires Name(name) && name != ""
    ensures Fold(LineStart(done), name) == Key(done, name)
  {
    var c, more := name[0], name[1..];
    assert c in name && forall d :: d in more ==> d in name;
    assert name == [c] + more;
    FoldStep(LineStart(done), c, more);
    assert Step(LineStart(done), c) == Key(done, [c]);
    FoldKey(done, [c], more);
  }

  lemma NameEnds(trims: bool, done: seq<Entry>, name: string, end: string)
    requires LineOver(end)
    ensures Reading(trims, Key(done, name), end) == Err(MissingEquals)
  {
    if end != "" {
      assert end == ['\n'] + end[1..];
      StepBoth(trims, Key(done, name), '\n', end[1..]);
      RejectedBoth(trims, MissingEquals, end[1..]);
    }
  }

  // ---------------------------------------------------------------------
  // The value
  // ---------------------------------------------------------------------

  lemma {:induction false} InSingleQuotes(trims: bool, done: seq<Entry>, k: string, out: string,
                                          v: string, rest: string)
    requires '\'' !in v
    ensures Reading(trims, Quoted(done, k, '\'', out), v + rest) ==
            Reading(trims, Quoted(done, k, '\'', out + v), rest)
    decreases |v|
  {
    if v == "" {
      assert v + rest == rest && out + v == out;
    } else {
      assert v[0] in v && forall c :: c in v[1..] ==> c in v;
      assert v + rest == [v[0]] + (v[1..] + rest);
      assert out + [v[0]] + v[1..] == out + v;
      StepBoth(trims, Quoted(done, k, '\'', out), v[0], v[1..] + rest);
      InSingleQuotes(trims, done, k, out + [v[0]], v[1..], rest);
    }
  }

  lemma {:induction false} InDoubleQuotes(trims: bool, done: seq<Entry>, k: string, out: string,
                                          v: string, rest: string)
    requires DoubleQuoted(v).Some?
    ensures Reading(trims, Quoted(done, k, '"', out), v + rest) ==
            Reading(trims, Quoted(done, k, '"', out + DoubleQuoted(v).value), rest)
    decreases |v|
  {
    hide Reading;
    var st, x := Quoted(done, k, '"', out), DoubleQuoted(v).value;
    if v == "" {
      assert v + rest == rest && out + x == out;
    } else {
      var c, more := v[0], v[1..] + rest;
      assert v + rest == [c] + more;
      StepBoth(trims, st, c, more);
      if c != '\\' {
        assert out + [c] + DoubleQuoted(v[1..]).value == out + x;
        InDoubleQuotes(trims, done, k, out + [c], v[1..], rest);
      } else {
        var d, others := v[1], v[2..];
        var p := if d == '"' || d == '\\' || d == '$' || d == '`' then [d]
                 else if d == '\n' then "" else ['\\', d];
        assert more == [d] + (others + rest);
        StepBoth(trims, QuotedEscape(done, k, out), d, others + rest);
        assert out + "" == out;
        assert Step(QuotedEscape(done, k, out), d) == Quoted(done, k, '"', out + p);
        assert out + p + DoubleQuoted(others).value == out + x;
        InDoubleQuotes(trims, done, k, out + p, others, rest);
      }
    }
  }

  lemma {:induction false} WithoutQuotes(trims: bool, done: seq<Entry>, k: string, out: string,
                                         v: string, rest: string)
    requires Unquoted(v).Some?
    ensures Reading(trims, Bare(done, k, out), v + rest) ==
            Reading(trims, Bare(done, k, out + Unquoted(v).value), rest)
    decreases |v|
  {
    hide Reading;
    var st, x := Bare(done, k, out), Unquoted(v).value;
    if v == "" {
      assert v + rest == rest && out + x == out;
    } else {
      var c, more := v[0], v[1..] + rest;
      assert v + rest == [c] + more;
      StepBoth(trims, st, c, more);
      if c != '\\' {
        assert out + [c] + Unquoted(v[1..]).value == out + x;
        WithoutQuotes(trims, done, k, out + [c], v[1..], rest);
      } else {
        var d, others := v[1], v[2..];
        var p := if d == '\n' then "" else [d];
        assert more == [d] + (others + rest);
        StepBoth(trims, BareEscape(done, k, out), d, others + rest);
        assert out + "" == out;
        assert Step(BareEscape(done, k, out), d) == Bare(done, k, out + p);
        assert out + p + Unquoted(others).value == out + x;
        WithoutQuotes(trims, done, k, out + p, others, rest);
      }
    }
  }

  /** The value of a quotation with this mark, when the text between the marks is one. */
  function Between(quote: char, v: string): Option<string> {
    if quote == '"' then DoubleQuoted(v)
    else if '\'' in v then None else Some(v)
  }

  lemma InQuotes(trims: bool, done: seq<Entry>, k: string, quote: char, v: string, rest: string)
    requires (quote == '"' || quote == '\'') && Between(quote, v).Some?
    ensures Reading(trims, BeforeValue(done, k), [quote] + v + rest) ==
            Reading(trims, Quoted(done, k, quote, Between(quote, v).value), rest)
  {
    hide Reading;
    assert [quote] + v + rest == [quote] + (v + rest);
    StepBoth(trims, BeforeValue(done, k), quote, v + rest);
    if quote == '"' {
      InDoubleQuotes(trims, done, k, "", v, rest);
    } else {
      InSingleQuotes(trims, done, k, "", v, rest);
    }
    assert "" + Between(quote, v).value == Between(quote, v).value;
  }

  /** A quoted value, blanks around it, and the end of the line. */
  lemma QuotedValueRule(trims: bool, done: seq<Entry>, k: string, gap: string, quote: char,
                        v: string, after: string, end: string)
    requires (quote == '"' || quote == '\'') && Between(quote, v).Some?
    requires Gap(gap) && Gap(after) && LineOver(end)
    ensures Reading(trims, BeforeValue(done, k), gap + [quote] + v + [quote] + after + end) ==
            Rest(trims, done + [Entry(k, Between(quote, v).value)], end)
  {
    hide Reading, Rest, Between;
    var x := Between(quote, v).value;
    var tail := [quote] + (after + end);
    assert gap + [quote] + v + [quote] + after + end == gap + ([quote] + v + tail);
    GapBoth(trims, BeforeValue(done, k), gap, [quote] + v + tail);
    InQuotes(trims, done, k, quote, v, tail);
    StepBoth(trims, Quoted(done, k, quote, x), quote, after + end);
    GapBoth(trims, AfterQuote(done, k, x), after, end);
    EndOfEntry(trims, AfterQuote(done, k, x), done + [Entry(k, x)], end);
  }

  /** Text after the closing quote, and a quotation that is not closed, are errors. */
  lemma BadQuoteRule(trims: bool, done: seq<Entry>, k: string, gap: string, quote: char,
                     v: string, after: string, c: char, rest: string)
    requires (quote == '"' || quote == '\'') && Between(quote, v).Some?
    requires Gap(gap) && Gap(after) && !IsSpace(c)
    ensures Reading(trims, BeforeValue(done, k), gap + [quote] + v + [quote] + after + [c] + rest) ==
            Err(TextAfterQuote)
    ensures Reading(trims, BeforeValue(done, k), gap + [quote] + v) == Err(UnterminatedQuote)
  {
    NewlineIsSpace();
    hide Reading, Between, IsSpace;
    var x := Between(quote, v).value;
    var tail := [quote] + (after + ([c] + rest));
    assert gap + [quote] + v + [quote] + after + [c] + rest == gap + ([quote] + v + tail);
    GapBoth(trims, BeforeValue(done, k), gap, [quote] + v + tail);
    InQuotes(trims, done, k, quote, v, tail);
    StepBoth(trims, Quoted(done, k, quote, x), quote, after + ([c] + rest));
    GapBoth(trims, AfterQuote(done, k, x), after, [c] + rest);
    StepBoth(trims, AfterQuote(done, k, x), c, rest);
    RejectedBoth(trims, TextAfterQuote, rest);
    assert gap + [quote] + v == gap + ([quote] + v + "");
    GapBoth(trims, BeforeValue(done, k), gap, [quote] + v + "");
    InQuotes(trims, done, k, quote, v, "");
    NeverClosed(trims, done, k, quote, x);
  }

  lemma NeverClosed(trims: bool, done: seq<Entry>, k: string, quote: char, x: string)
    ensures Reading(trims, Quoted(done, k, quote, x), "") == Err(UnterminatedQuote)
  {
  }

  /** A value without quotes, and the end of the line; trailing blanks are dropped. */
  lemma BareValueRule(trims: bool, done: seq<Entry>, k: string, gap: string, v: string,
                      end: string)
    requires Gap(gap) && LineOver(end) && Unquoted(v).Some?
    requires v != "" ==> v[0] != '"' && v[0] != '\'' && !IsSpace(v[0])
    ensures Reading(trims, BeforeValue(done, k), gap + v + end) ==
            Rest(trims, done + [Entry(k, RStrip(Unquoted(v).value))], end)
  {
    hide Reading, Rest, RStrip, IsSpace;
    var x := Unquoted(v).value;
    assert gap + v + end == gap + (v + end);
    GapBoth(trims, BeforeValue(done, k), gap, v + end);
    if v == "" {
      assert v + end == end;
      NothingStripped();
      EndOfEntry(trims, BeforeValue(done, k), done + [Entry(k, "")], end);
    } else {
      FirstOfBare(trims, done, k, v, end);
      WithoutQuotes(trims, done, k, "", v, end);
      hide Unquoted;
      assert "" + x == x;
      EndOfEntry(trims, Bare(done, k, x), done + [Entry(k, RStrip(x))], end);
    }
  }

  lemma NothingStripped()
    ensures RStrip("") == ""
  {
  }

  /** The first character of a bare value is read like any other one. */
  lemma FirstOfBare(trims: bool, done: seq<Entry>, k: string, v: string, rest: string)
    requires v != "" && v[0] != '"' && v[0] != '\'' && !IsSpace(v[0])
    ensures Reading(trims, BeforeValue(done, k), v + rest) ==
            Reading(trims, Bare(done, k, ""), v + rest)
  {
    NewlineIsSpace();
    assert v + rest == [v[0]] + (v[1..] + rest);
    assert Step(BeforeValue(done, k), v[0]) == Step(Bare(done, k, ""), v[0]) by {
      assert "" + [v[0]] == [v[0]];
      hide IsSpace;
    }
    hide IsSpace, Step, Reading;
    StepBoth(trims, BeforeValue(done, k), v[0], v[1..] + rest);
    StepBoth(trims, Bare(done, k, ""), v[0], v[1..] + rest);
  }

  // ---------------------------------------------------------------------
  // Whole entries
  // ---------------------------------------------------------------------

  lemma Regroup(a: string, b: string, c: string)
    ensures (a + b) + c == a + (b + c)
  {
  }

  /** Trimming the first line does not see what follows it. */
  lemma TrimBefore(x: string, end: string)
    requires LineOver(end)
    ensures TrimLine(x + end) == TrimLine(x) + end
  {
    var e := LineEnd(x);
    assert x == x[..e] + x[e..];
    hide TrimLine, RStrip, LineEnd;
    TrimParts(x[..e], x[e..], end);
  }

  lemma TrimParts(line: string, more: string, end: string)
    requires '\n' !in line && LineOver(more) && LineOver(end)
    ensures TrimLine((line + more) + end) == TrimLine(line + more) + end
  {
    hide TrimLine, RStrip;
    TrimmedLine(line, more);
    TrimmedLine(line, more + end);
    Regroup(line, more, end);
    Regroup(RStrip(line), more, end);
  }

  lemma GapTrimmed(after: string, end: string)
    requires Gap(after) && LineOver(end)
    ensures TrimLine(after + end) == end
  {
    GapIsBlank(after);
    RStripParts(after);
    hide TrimLine, RStrip, IsSpace;
    TrimmedLine(after, end);
  }

  /** The value as it is read: only a first line that is not the last one is trimmed. */
  function AsRead(trims: bool, v: string): string {
    if trims then FirstLineTrimmed(v) else v
  }

  /** Within a value of several lines, only its first line is trimmed. */
  lemma SeveralLinesTrimmed(line: string, more: string, tail: string)
    requires '\n' !in line && more != "" && more[0] == '\n'
    ensures TrimLine((line + more) + tail) == TrimLine(line + more) + tail
  {
    hide TrimLine, RStrip;
    TrimmedLine(line, more);
    TrimmedLine(line, more + tail);
    Regroup(line, more, tail);
    Regroup(RStrip(line), more, tail);
  }

  /** After a value of one line, the blanks behind the closing quote are trimmed. */
  lemma OneLineTrimmed(v: string, close: string, after: string, end: string)
    requires '\n' !in v && close != "" && '\n' !in close && !IsSpace(close[|close| - 1])
    requires Gap(after) && LineOver(end)
    ensures TrimLine(v + (close + (after + end))) == v + (close + end)
  {
    hide TrimLine, IsSpace;
    GapTrimmed(after, end);
    Regroup(v, close, after + end);
    Regroup(v, close, end);
    TrimHead(v + close, after + end);
  }

  lemma TwoParts(v: string, e: nat)
    requires e <= |v|
    ensures v[..e] + v[e..] == v
  {
  }

  lemma SeveralLinesOf(v: string, tail: string)
    requires LineEnd(v) < |v|
    ensures TrimLine(v + tail) == TrimLine(v) + tail
  {
    hide TrimLine, LineEnd, RStrip;
    TwoParts(v, LineEnd(v));
    SeveralLinesTrimmed(v[..LineEnd(v)], v[LineEnd(v)..], tail);
  }

  lemma QuotationTrimmed(quote: char, v: string, after: string, end: string)
    requires (quote == '"' || quote == '\'') && Gap(after) && LineOver(end)
    ensures LineEnd(v) < |v| ==>
              TrimLine(v + ([quote] + (after + end))) ==
              FirstLineTrimmed(v) + ([quote] + (after + end))
    ensures LineEnd(v) == |v| ==>
              TrimLine(v + ([quote] + (after + end))) == FirstLineTrimmed(v) + ([quote] + end)
  {
    assert !IsSpace(quote) && quote != '\n';
    hide TrimLine, IsSpace, Gap;
    if LineEnd(v) < |v| {
      hide LineEnd;
      SeveralLinesOf(v, [quote] + (after + end));
    } else {
      assert v[..LineEnd(v)] == v;
      hide LineEnd;
      OneLineTrimmed(v, [quote], after, end);
    }
  }

  /** An opening quote, its value, the closing one, blanks and the end of the line. */
  function Quotation(gap: string, quote: char, v: string, after: string, end: string): string {
    (gap + [quote]) + (v + ([quote] + (after + end)))
  }

  lemma QuotationSpelled(gap: string, quote: char, v: string, after: string, end: string)
    ensures gap + [quote] + v + [quote] + after + end == Quotation(gap, quote, v, after, end)
  {
    var head, tail := gap + [quote], after + end;
    Regroup(head, v, [quote]);
    Regroup(head + v, [quote], after);
    Regroup(head + v + [quote], after, end);
    Regroup(head + v, [quote], tail);
    Regroup(head, v, [quote] + tail);
  }

  lemma OpenSolid(gap: string, quote: char)
    requires (quote == '"' || quote == '\'') && Gap(gap)
    ensures var head := gap + [quote];
            head != "" && !IsSpace(head[|head| - 1]) && '\n' !in head
  {
    GapIsBlank(gap);
  }

  lemma QuotationRead(trims: bool, gap: string, quote: char, v: string, after: string, end: string)
    requires (quote == '"' || quote == '\'') && Gap(gap) && Gap(after) && LineOver(end)
    ensures Trimmed(trims, Quotation(gap, quote, v, after, end)) ==
            Quotation(gap, quote, AsRead(trims, v),
                      if trims && LineEnd(v) == |v| then "" else after, end)
  {
    hide TrimLine, IsSpace, LineEnd, FirstLineTrimmed, Gap;
    if trims {
      OpenSolid(gap, quote);
      QuotationTrimmed(quote, v, after, end);
      NothingBefore(end);
      TrimHead(gap + [quote], v + ([quote] + (after + end)));
    }
  }

  lemma NothingBefore(end: string)
    ensures "" + end == end
  {
  }

  /**
   An entry with a quoted value: single quotes keep every character but the
   quote, double quotes honour four escapes and drop a backslash-newline.
   */
  lemma QuotedEntryRule(trims: bool, done: seq<Entry>, k: string, mid: string, gap: string,
                        quote: char, v: string, after: string, end: string)
    requires KeyText(k) && Unused(done, k)
    requires Gap(mid) && Gap(gap) && Gap(after) && LineOver(end)
    requires (quote == '"' || quote == '\'') && Between(quote, AsRead(trims, v)).Some?
    ensures Reading(trims, LineStart(done),
                    "" + k + mid + "=" + (gap + [quote] + v + [quote] + after + end)) ==
            Rest(trims, done + [Entry(k, Between(quote, AsRead(trims, v)).value)], end)
  {
    hide Reading, Rest, Between, TrimLine, IsSpace, KeyText, Unused, AsRead, Trimmed, LineEnd,
         Quotation;
    assert Gap("");
    var x, left := AsRead(trims, v), if trims && LineEnd(v) == |v| then "" else after;
    QuotationSpelled(gap, quote, v, after, end);
    KeyRule(trims, done, "", k, mid, gap + [quote] + v + [quote] + after + end);
    QuotationRead(trims, gap, quote, v, after, end);
    QuotationSpelled(gap, quote, x, left, end);
    QuotedValueRule(trims, done, k, gap, quote, x, left, end);
  }

  /**
   An entry with a bare value: a backslash gives the next character as it is and
   continues a line, and trailing blanks are dropped.
   */
  lemma BareEntryRule(trims: bool, done: seq<Entry>, k: string, mid: string, gap: string,
                      v: string, end: string)
    requires KeyText(k) && Unused(done, k) && Gap(mid) && Gap(gap) && LineOver(end)
    requires v != "" && v[0] != '"' && v[0] != '\'' && !IsSpace(v[0])
    requires Unquoted(Trimmed(trims, v)).Some?
    ensures Reading(trims, LineStart(done), "" + k + mid + "=" + (gap + v + end)) ==
            Rest(trims, done + [Entry(k, RStrip(Unquoted(Trimmed(trims, v)).value))], end)
  {
    assert Gap("");
    TrimsToStart(v);
    hide Reading, Rest, TrimLine, IsSpace, KeyText, Unused, RStrip, Unquoted;
    KeyRule(trims, done, "", k, mid, gap + v + end);
    if trims {
      BareTrimmed(gap, v, end);
    }
    BareValueRule(trims, done, k, gap, Trimmed(trims, v), end);
  }

  /** An entry without a value has the empty one. */
  lemma EmptyEntryRule(trims: bool, done: seq<Entry>, k: string, mid: string, gap: string,
                       end: string)
    requires KeyText(k) && Unused(done, k) && Gap(mid) && Gap(gap) && LineOver(end)
    ensures Reading(trims, LineStart(done), "" + k + mid + "=" + (gap + end)) ==
            Rest(trims, done + [Entry(k, "")], end)
  {
    assert Gap("");
    NothingStripped();
    hide Reading, Rest, TrimLine, IsSpace, KeyText, Unused, RStrip;
    KeyRule(trims, done, "", k, mid, gap + end);
    if trims {
      GapTrimmed(gap, end);
      assert "" + "" + end == end;
      BareValueRule(trims, done, k, "", "", end);
    } else {
      assert gap + "" + end == gap + end;
      BareValueRule(trims, done, k, gap, "", end);
    }
  }

  lemma TrimsToStart(v: string)
    requires v != "" && !IsSpace(v[0])
    ensures TrimLine(v) != "" && TrimLine(v)[0] == v[0]
  {
  }

  lemma BareTrimmed(gap: string, v: string, end: string)
    requires Gap(gap) && LineOver(end) && v != "" && !IsSpace(v[0])
    ensures TrimLine(gap + v + end) == gap + TrimLine(v) + end
  {
    GapIsBlank(gap);
    NewlineIsSpace();
    hide TrimLine, IsSpace;
    assert [v[0]] + v[1..] == v;
    BareTrimmedParts(gap, [v[0]], v[1..], end);
  }

  lemma BareTrimmedParts(gap: string, first: string, tail: string, end: string)
    requires '\n' !in gap && '\n' !in first && LineOver(end)
    requires first != "" && !IsSpace(first[|first| - 1])
    ensures TrimLine(gap + (first + tail) + end) == gap + TrimLine(first + tail) + end
  {
    hide TrimLine, IsSpace;
    TrimHead(first, tail);
    TrimBefore(tail, end);
    TrimHead(gap + first, tail + end);
    Regroup(gap, first, tail);
    Regroup(gap + first, tail, end);
    Regroup(gap, first, TrimLine(tail));
    Regroup(gap + first, TrimLine(tail), end);
  }

  /** The documented reading of a single-quoted value, which may span lines. */
  lemma SingleQuotedLine(done: seq<Entry>, k: string, v: string, rest: string)
    requires KeyText(k) && Unused(done, k) && '\'' !in v
    ensures Run(LineStart(done), k + "='" + v + "'\n" + rest) ==
            Run(LineStart(done + [Entry(k, v)]), rest)
    ensures FirstLineTrimmed(v) == v ==>
              Read(LineStart(done), k + "='" + v + "'\n" + rest) ==
              Read(LineStart(done + [Entry(k, v)]), rest)
  {
    SingleQuotedSpelled(k, v, rest);
    hide KeyText, Unused, Run, Read, FirstLineTrimmed;
    assert Gap("") && LineOver("\n" + rest) && ("\n" + rest)[1..] == rest;
    QuotedEntryRule(false, done, k, "", "", '\'', v, "", "\n" + rest);
    if FirstLineTrimmed(v) == v {
      QuotedEntryRule(true, done, k, "", "", '\'', v, "", "\n" + rest);
    }
  }

  lemma SingleQuotedSpelled(k: string, v: string, rest: string)
    ensures k + "='" + v + "'\n" + rest ==
            "" + k + "" + "=" + ("" + ['\''] + v + ['\''] + "" + ("\n" + rest))
  {
    var tail := ['\''] + ("\n" + rest);
    assert "" + k + "" == k && "" + ['\''] + v + ['\''] + "" == ['\''] + v + ['\''];
    Regroup(['\''] + v, ['\''], "\n" + rest);
    assert "'\n" + rest == tail;
    Regroup(k + "='" + v, "'\n", rest);
    Regroup(k + "='", v, tail);
    Regroup(k, "='", v + tail);
    Regroup(k, "=", ['\''] + v + tail);
    Regroup(['\''], v, tail);
    assert "=" + (['\''] + (v + tail)) == "='" + (v + tail);
  }
}
