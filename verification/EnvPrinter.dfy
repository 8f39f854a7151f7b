/**
 Printing entries and reading them back: exactly which values survive.
 */
module EnvPrinter {
  import opened Base
  import opened EnvGrammar
  import opened NodeEnvParser
  import opened EnvMeaning

  /** A value inside double quotes: exactly `"`, `\`, `$` and backtick escaped. */
  function Escape(v: string): string {
    if v == "" then ""
    else (if NeedsEscape(v[0]) then ['\\', v[0]] else [v[0]]) + Escape(v[1..])
  }

  function QuotedLine(e: Entry): string {
    e.key + "=\"" + Escape(e.value) + "\"\n"
  }

  function BareLine(e: Entry): string {
    e.key + "=" + e.value + "\n"
  }

  function QuotedText(entries: seq<Entry>): string {
    if entries == [] then "" else QuotedLine(entries[0]) + QuotedText(entries[1..])
  }

  function BareText(entries: seq<Entry>): string {
    if entries == [] then "" else BareLine(entries[0]) + BareText(entries[1..])
  }

  /** Valid keys, none twice, and none already read. */
  predicate Fresh(done: seq<Entry>, entries: seq<Entry>)
    decreases |entries|
  {
    entries == [] ||
    (ValidKey(entries[0].key) && !HasKey(done, entries[0].key) &&
     Fresh(done + [entries[0]], entries[1..]))
  }

  /** What the parser makes of a multi-line value: its first line is right-trimmed. */
  function FirstLineTrimmed(v: string): string {
    if LineEnd(v) < |v| then TrimLine(v) else v
  }

  function TrimmedEntry(e: Entry): Entry {
    Entry(e.key, FirstLineTrimmed(e.value))
  }

  function TrimmedEntries(entries: seq<Entry>): (r: seq<Entry>)
    ensures |r| == |entries|
    ensures forall i :: 0 <= i < |r| ==> r[i] == TrimmedEntry(entries[i])
  {
    if entries == [] then [] else [TrimmedEntry(entries[0])] + TrimmedEntries(entries[1..])
  }

  // ---------------------------------------------------------------------
  // Reading a key and an escaped value
  // ---------------------------------------------------------------------

  lemma KeyChars(k: string)
    requires ValidKey(k)
    ensures StartsEntry(k[0]) && !IsSpace(k[|k| - 1])
    ensures '\n' !in k && '=' !in k && RStrip(k) == k
  {
    forall i | 0 <= i < |k|
      ensures !IsSpace(k[i]) && k[i] != '\n' && k[i] != '=' && k[i] != '#' && k[i] != ';'
    {
      assert IsKeyChar(k[i]);
    }
    hide IsSpace;
  }

  /** Up to the equals sign, an entry with a fresh valid key. */
  lemma ReadKeyPart(done: seq<Entry>, k: string, rest: string)
    requires ValidKey(k) && !HasKey(done, k)
    ensures Read(Key(done, ""), k + "=" + rest) == Read(BeforeValue(done, k), rest)
  {
    KeyChars(k);
    assert KeyEnd(done, k) == BeforeValue(done, k);
    hide Read, KeyEnd, IsSpace, ValidKey, HasKey;
    var text := k + "=";
    assert text[..|k|] == k && text[|k| + 1..] == "";
    assert '\n' !in text;
    ReadEquals(done, text, |k|, rest);
    assert text[|k| + 1..] + rest == rest;
  }

  /** One character of a value, escaped if it has to be. */
  lemma ReadEscapedChar(done: seq<Entry>, key: string, out: string, c: char, rest: string)
    ensures Read(Quoted(done, key, '"', out),
                 (if NeedsEscape(c) then "\\" else "") + ([c] + rest)) ==
            Read(Quoted(done, key, '"', out + [c]), rest)
  {
    hide Read;
    assert [c][1..] + rest == rest;
    if NeedsEscape(c) {
      ReadStep(Quoted(done, key, '"', out), "\\", [c] + rest);
      assert "\\"[1..] + ([c] + rest) == [c] + rest;
      ReadStep(QuotedEscape(done, key, out), [c], rest);
    } else {
      assert "" + ([c] + rest) == [c] + rest;
      ReadStep(Quoted(done, key, '"', out), [c], rest);
    }
  }

  lemma {:induction false} ReadEscaped(done: seq<Entry>, key: string, out: string, v: string,
                                       rest: string)
    ensures Read(Quoted(done, key, '"', out), Escape(v) + rest) ==
            Read(Quoted(done, key, '"', out + v), rest)
    decreases |v|
  {
    if v == "" {
      assert Escape(v) + rest == rest && out + v == out;
    } else {
      var c, more := v[0], Escape(v[1..]) + rest;
      assert (out + [c]) + v[1..] == out + v;
      assert Escape(v) + rest == (if NeedsEscape(c) then "\\" else "") + ([c] + more);
      ReadEscapedChar(done, key, out, c, more);
      hide Read, Escape;
      ReadEscaped(done, key, out + [c], v[1..], rest);
    }
  }

  lemma ReadQuoteOpen(done: seq<Entry>, key: string, rest: string)
    ensures Read(BeforeValue(done, key), "\"" + rest) == Read(Quoted(done, key, '"', ""), rest)
  {
    hide Read;
    ReadStep(BeforeValue(done, key), "\"", rest);
    assert "\""[1..] + rest == rest;
  }

  lemma ReadQuoteClose(done: seq<Entry>, key: string, out: string, rest: string)
    ensures Read(Quoted(done, key, '"', out), "\"\n" + rest) ==
            Read(LineStart(done + [Entry(key, out)]), rest)
  {
    hide Read;
    ReadStep(Quoted(done, key, '"', out), "\"\n", rest);
    assert "\"\n"[1..] == "\n";
    ReadStep(AfterQuote(done, key, out), "\n", rest);
    assert "\n"[1..] + rest == rest;
  }

  /** An entry already stripped to the state after its first character. */
  lemma ReadQuotedValue(done: seq<Entry>, k: string, v: string, rest: string)
    requires ValidKey(k) && !HasKey(done, k)
    ensures Read(Key(done, ""), k + "=\"" + Escape(v) + "\"\n" + rest) ==
            Read(LineStart(done + [Entry(k, v)]), rest)
  {
    hide Read, ValidKey, HasKey, Escape;
    var tail := "\"\n" + rest;
    ReadKeyPart(done, k, "\"" + (Escape(v) + tail));
    assert k + "=\"" + Escape(v) + "\"\n" + rest == k + "=" + ("\"" + (Escape(v) + tail));
    ReadQuoteOpen(done, k, Escape(v) + tail);
    ReadEscaped(done, k, "", v, tail);
    assert "" + v == v;
    ReadQuoteClose(done, k, v, rest);
  }

  // ---------------------------------------------------------------------
  // The first line of a printed entry
  // ---------------------------------------------------------------------

  lemma {:induction false} EscapeLine(v: string)
    requires '\n' !in v
    ensures '\n' !in Escape(v)
  {
    if v != "" {
      assert v[0] in v;
      assert forall c :: c in v[1..] ==> c in v;
      EscapeLine(v[1..]);
    }
  }

  lemma {:induction false} EscapeConcat(a: string, b: string)
    ensures Escape(a + b) == Escape(a) + Escape(b)
  {
    if a == "" {
      assert a + b == b;
    } else {
      assert (a + b)[0] == a[0] && (a + b)[1..] == a[1..] + b;
      EscapeConcat(a[1..], b);
    }
  }

  lemma {:induction false} EscapeBlanks(b: string)
    requires Blank(b)
    ensures Escape(b) == b
  {
    if b != "" {
      assert !NeedsEscape(b[0]);
      hide IsSpace;
      EscapeBlanks(b[1..]);
    }
  }

  lemma RStripEndsSolid(s: string)
    requires s != "" && !IsSpace(s[|s| - 1])
    ensures RStrip(s) == s
  {
  }

  lemma {:induction false} EscapeEndsSolid(v: string)
    requires v != "" && !IsSpace(v[|v| - 1])
    ensures Escape(v) != "" && !IsSpace(Escape(v)[|Escape(v)| - 1])
  {
    hide IsSpace;
    if |v| > 1 {
      EscapeEndsSolid(v[1..]);
    } else {
      assert Escape(v[1..]) == "";
    }
  }

  /** Trimming a line that ends in an escaped text trims the text itself. */
  lemma TrimEscaped(head: string, segment: string)
    requires head != "" && !IsSpace(head[|head| - 1])
    ensures RStrip(head + Escape(segment)) == head + Escape(RStrip(segment))
  {
    RStripParts(segment);
    hide IsSpace, Escape, RStrip, Blank;
    var t := RStrip(segment);
    var blanks := segment[|t|..];
    EscapeConcat(t, blanks);
    EscapeBlanks(blanks);
    var line := head + Escape(t);
    assert head + Escape(segment) == line + blanks;
    RStripConcat(line, blanks);
    EscapeTrimmed(segment);
    assert line[|line| - 1] ==
           if Escape(t) == "" then head[|head| - 1] else Escape(t)[|Escape(t)| - 1];
    RStripEndsSolid(line);
  }

  lemma EscapeTrimmed(segment: string)
    ensures var e := Escape(RStrip(segment)); e != "" ==> !IsSpace(e[|e| - 1])
  {
    var t := RStrip(segment);
    hide IsSpace, RStrip;
    if t != "" {
      EscapeEndsSolid(t);
    }
  }

  /** Trimming the opening line of a printed multi-line value trims the value's own line. */
  lemma TrimOpenLine(k: string, segment: string)
    ensures RStrip(k + "=\"" + Escape(segment)) == k + "=\"" + Escape(RStrip(segment))
  {
    assert !IsSpace('"');
    hide IsSpace, Escape, RStrip;
    TrimEscaped(k + "=\"", segment);
  }

  /** What the parser reads for one printed entry. */
  lemma ReadQuotedLine(done: seq<Entry>, e: Entry, rest: string)
    requires ValidKey(e.key) && !HasKey(done, e.key)
    ensures Read(LineStart(done), QuotedLine(e) + rest) ==
            Read(LineStart(done + [TrimmedEntry(e)]), rest)
  {
    var k, v := e.key, e.value;
    var n := LineEnd(v);
    if n == |v| {
      OneLine(done, k, v, rest);
    } else {
      assert v == v[..n] + v[n..];
      ManyLines(done, k, v[..n], v[n..], rest);
    }
  }

  lemma SolidLine(line: string)
    requires line != "" && !IsSpace(line[0])
    ensures RStrip(line) != ""
  {
    hide IsSpace;
    RStripParts(line);
  }

  lemma OneLine(done: seq<Entry>, k: string, v: string, rest: string)
    requires ValidKey(k) && !HasKey(done, k) && LineEnd(v) == |v|
    ensures Read(LineStart(done), QuotedLine(Entry(k, v)) + rest) ==
            Read(LineStart(done + [Entry(k, v)]), rest)
  {
    KeyChars(k);
    assert !IsSpace('"');
    assert v[..|v|] == v;
    EscapeLine(v);
    hide IsSpace, Read, Escape, RStrip, LineEnd, HasKey;
    var line := k + "=\"" + Escape(v) + "\"";
    assert line[|line| - 1] == '"';
    RStripEndsSolid(line);
    assert line[0] == k[0];
    assert QuotedLine(Entry(k, v)) + rest == line + ("\n" + rest);
    EntryStart(done, line, "\n" + rest);
    ReadQuotedValue(done, k, v, rest);
    assert k + "=\"" + Escape(v) + "\"\n" + rest == line + ("\n" + rest);
  }

  lemma EscapePlainHead(s: string)
    requires s != "" && !NeedsEscape(s[0])
    ensures Escape(s) != "" && Escape(s)[0] == s[0]
  {
  }

  lemma ManyLines(done: seq<Entry>, k: string, segment: string, more: string, rest: string)
    requires ValidKey(k) && !HasKey(done, k)
    requires '\n' !in segment && more != "" && more[0] == '\n'
    ensures Read(LineStart(done), QuotedLine(Entry(k, segment + more)) + rest) ==
            Read(LineStart(done + [Entry(k, TrimLine(segment + more))]), rest)
  {
    hide IsSpace, Read, Escape, RStrip, LineEnd, HasKey, TrimLine;
    KeyChars(k);
    TrimmedLine(segment, more);
    EscapeLine(segment);
    EscapeConcat(segment, more);
    EscapeConcat(RStrip(segment), more);
    EscapePlainHead(more);
    TrimOpenLine(k, segment);
    var line := k + "=\"" + Escape(segment);
    var tail := Escape(more) + "\"\n" + rest;
    assert line[0] == k[0];
    SolidStart(line, k);
    assert QuotedLine(Entry(k, segment + more)) + rest == line + tail;
    EntryStart(done, line, tail);
    var v := RStrip(segment) + more;
    ReadQuotedValue(done, k, v, rest);
    assert k + "=\"" + Escape(v) + "\"\n" + rest == RStrip(line) + tail;
  }

  lemma SolidStart(line: string, k: string)
    requires line != "" && StartsEntry(line[0])
    ensures RStrip(line) != ""
  {
    SolidLine(line);
  }

  // ---------------------------------------------------------------------
  // Round trips
  // ---------------------------------------------------------------------

  lemma {:induction false} FreshIgnoresValues(a: seq<Entry>, b: seq<Entry>, entries: seq<Entry>)
    requires |a| == |b| && forall i :: 0 <= i < |a| ==> a[i].key == b[i].key
    requires Fresh(a, entries)
    ensures Fresh(b, entries)
    decreases |entries|
  {
    if entries != [] {
      var a', b' := a + [entries[0]], b + [entries[0]];
      assert forall i :: 0 <= i < |a'| ==> a'[i].key == b'[i].key;
      FreshIgnoresValues(a', b', entries[1..]);
    }
  }

  lemma FreshHead(done: seq<Entry>, entries: seq<Entry>)
    requires Fresh(done, entries) && entries != []
    ensures ValidKey(entries[0].key) && !HasKey(done, entries[0].key)
    ensures Fresh(done + [TrimmedEntry(entries[0])], entries[1..])
  {
    var a, b := done + [entries[0]], done + [TrimmedEntry(entries[0])];
    assert forall i :: 0 <= i < |a| ==> a[i].key == b[i].key;
    FreshIgnoresValues(a, b, entries[1..]);
  }

  lemma PrintedStep(done: seq<Entry>, entries: seq<Entry>)
    requires Fresh(done, entries) && entries != []
    ensures Fresh(done + [TrimmedEntry(entries[0])], entries[1..])
    ensures Read(LineStart(done), QuotedText(entries)) ==
            Read(LineStart(done + [TrimmedEntry(entries[0])]), QuotedText(entries[1..]))
    ensures done + [TrimmedEntry(entries[0])] + TrimmedEntries(entries[1..]) ==
            done + TrimmedEntries(entries)
  {
    hide Read, Escape, HasKey, ValidKey, QuotedLine, TrimmedEntry, Fresh;
    FreshHead(done, entries);
    ReadQuotedLine(done, entries[0], QuotedText(entries[1..]));
  }

  /** The parser reads printed entries with the first line of each value trimmed. */
  lemma {:induction false} ReadPrinted(done: seq<Entry>, entries: seq<Entry>)
    requires Fresh(done, entries)
    ensures Read(LineStart(done), QuotedText(entries)) == Ok(done + TrimmedEntries(entries))
    decreases |entries|
  {
    hide Escape, HasKey, ValidKey, QuotedLine, TrimmedEntry, Fresh;
    if entries == [] {
      assert done + [] == done;
    } else {
      PrintedStep(done, entries);
      hide Read;
      ReadPrinted(done + [TrimmedEntry(entries[0])], entries[1..]);
    }
  }

  /**
   Printing every entry in double quotes and parsing the text gives the entries
   back exactly when no multi-line value has blanks at the end of its first
   line. The condition is the whole difference: nothing else is lost.
   */
  lemma PrintParseRoundTrip(entries: seq<Entry>)
    requires Fresh([], entries)
    ensures Read(LineStart([]), QuotedText(entries)) == Ok(entries) <==>
            forall i :: 0 <= i < |entries| ==>
              FirstLineTrimmed(entries[i].value) == entries[i].value
  {
    ReadPrinted([], entries);
    hide Read, FirstLineTrimmed;
    var trimmed := TrimmedEntries(entries);
    assert [] + trimmed == trimmed;
    if forall i :: 0 <= i < |entries| ==>
         FirstLineTrimmed(entries[i].value) == entries[i].value {
      forall i | 0 <= i < |entries|
        ensures trimmed[i] == entries[i]
      {
        assert trimmed[i] == TrimmedEntry(entries[i]);
      }
      assert trimmed == entries;
    }
    if trimmed == entries {
      forall i | 0 <= i < |entries|
        ensures FirstLineTrimmed(entries[i].value) == entries[i].value
      {
        assert trimmed[i] == TrimmedEntry(entries[i]);
      }
    }
  }

  // ---------------------------------------------------------------------
  // The documented meaning of the same text
  // ---------------------------------------------------------------------

  lemma FoldStep(st: State, c: char, rest: string)
    ensures Fold(st, [c] + rest) == Fold(Step(st, c), rest)
  {
    assert ([c] + rest)[1..] == rest;
  }

  lemma {:induction false} FoldKey(done: seq<Entry>, key: string, text: string)
    requires '\n' !in text && '=' !in text
    ensures Fold(Key(done, key), text) == Key(done, key + text)
    decreases |text|
  {
    if text == "" {
      assert key + text == key;
    } else {
      assert text[0] in text;
      assert forall c :: c in text[1..] ==> c in text;
      FoldKey(done, key + [text[0]], text[1..]);
      assert key + [text[0]] + text[1..] == key + text;
    }
  }

  lemma {:induction false} FoldEscaped(done: seq<Entry>, key: string, out: string, v: string)
    ensures Fold(Quoted(done, key, '"', out), Escape(v)) == Quoted(done, key, '"', out + v)
    decreases |v|
  {
    if v == "" {
      assert out + v == out;
    } else {
      var c, more := v[0], Escape(v[1..]);
      assert (out + [c]) + v[1..] == out + v;
      if NeedsEscape(c) {
        assert Escape(v) == ['\\'] + ([c] + more);
        FoldStep(Quoted(done, key, '"', out), '\\', [c] + more);
        FoldStep(QuotedEscape(done, key, out), c, more);
      } else {
        FoldStep(Quoted(done, key, '"', out), c, more);
      }
      FoldEscaped(done, key, out + [c], v[1..]);
    }
  }

  lemma FoldKeyPart(done: seq<Entry>, k: string, rest: string)
    requires ValidKey(k) && !HasKey(done, k)
    ensures Fold(LineStart(done), k + "=" + rest) == Fold(BeforeValue(done, k), rest)
  {
    KeyChars(k);
    assert KeyEnd(done, k) == BeforeValue(done, k);
    assert Step(Key(done, k), '=') == BeforeValue(done, k);
    var text := k + "=" + rest;
    assert "" + [k[0]] == [k[0]];
    assert Step(LineStart(done), text[0]) == Step(Key(done, ""), text[0]);
    assert Fold(LineStart(done), text) == Fold(Key(done, ""), text);
    hide IsSpace, Fold, KeyEnd, Step, ValidKey, HasKey;
    FoldFold(Key(done, ""), k, ['='] + rest);
    assert k + (['='] + rest) == text;
    FoldKey(done, "", k);
    assert "" + k == k;
    FoldStep(Key(done, k), '=', rest);
  }

  lemma FoldQuotedLine(done: seq<Entry>, e: Entry)
    requires ValidKey(e.key) && !HasKey(done, e.key)
    ensures Fold(LineStart(done), QuotedLine(e)) == LineStart(done + [e])
  {
    assert !IsSpace('"');
    hide ValidKey, HasKey, Escape, IsSpace;
    var k, v := e.key, e.value;
    var tail := "\"\n";
    FoldKeyPart(done, k, "\"" + (Escape(v) + tail));
    assert QuotedLine(e) == k + "=" + ("\"" + (Escape(v) + tail));
    FoldStep(BeforeValue(done, k), '"', Escape(v) + tail);
    assert "\"" + (Escape(v) + tail) == ['"'] + (Escape(v) + tail);
    FoldFold(Quoted(done, k, '"', ""), Escape(v), tail);
    FoldEscaped(done, k, "", v);
    assert "" + v == v;
    FoldStep(Quoted(done, k, '"', v), '"', "\n");
    assert tail == ['"'] + "\n";
    FoldStep(AfterQuote(done, k, v), '\n', "");
    assert "\n" == ['\n'] + "";
  }

  /** By the documented grammar printing loses nothing, whatever the values are. */
  lemma {:induction false} GrammarRoundTrip(done: seq<Entry>, entries: seq<Entry>)
    requires Fresh(done, entries)
    ensures Run(LineStart(done), QuotedText(entries)) == Ok(done + entries)
    decreases |entries|
  {
    hide QuotedLine, IsSpace, Escape, ValidKey, HasKey;
    if entries == [] {
      assert done + [] == done;
    } else {
      RunFold(LineStart(done), QuotedLine(entries[0]), QuotedText(entries[1..]));
      FoldQuotedLine(done, entries[0]);
      hide Run;
      GrammarRoundTrip(done + [entries[0]], entries[1..]);
      assert done + [entries[0]] + entries[1..] == done + entries;
    }
  }

  /** On printed texts the parser departs from the grammar exactly when it trims a value. */
  lemma ParserAgreesOnPrinted(entries: seq<Entry>)
    requires Fresh([], entries)
    ensures Read(LineStart([]), QuotedText(entries)) == Meaning(QuotedText(entries)) <==>
            forall i :: 0 <= i < |entries| ==>
              FirstLineTrimmed(entries[i].value) == entries[i].value
  {
    hide Read, Run, FirstLineTrimmed, Fresh;
    PrintParseRoundTrip(entries);
    GrammarRoundTrip([], entries);
    assert [] + entries == entries;
  }

  // ---------------------------------------------------------------------
  // Unquoted values
  // ---------------------------------------------------------------------

  /** Values the unquoted form can carry. */
  predicate Plain(v: string) {
    '\n' !in v && '\\' !in v &&
    (v != "" ==> !IsSpace(v[0]) && !IsSpace(v[|v| - 1]) && !IsQuote(v[0]))
  }

  lemma {:induction false} ReadBareText(done: seq<Entry>, key: string, out: string, v: string,
                                        rest: string)
    requires '\n' !in v && '\\' !in v
    ensures Read(Bare(done, key, out), v + rest) == Read(Bare(done, key, out + v), rest)
    decreases |v|
  {
    if v == "" {
      assert v + rest == rest && out + v == out;
    } else {
      assert v[0] in v;
      assert forall c :: c in v[1..] ==> c in v;
      hide Read;
      ReadStep(Bare(done, key, out), v, rest);
      ReadBareText(done, key, out + [v[0]], v[1..], rest);
      assert out + [v[0]] + v[1..] == out + v;
    }
  }

  lemma ReadPlainValue(done: seq<Entry>, key: string, v: string, rest: string)
    requires Plain(v) && v != ""
    ensures Read(BeforeValue(done, key), v + rest) == Read(Bare(done, key, v), rest)
  {
    hide Read, IsSpace;
    ValueStart(done, key, v, rest);
    ReadBareText(done, key, "", v, rest);
    assert "" + v == v;
  }

  /** The end of an unquoted line commits its value. */
  lemma ReadBareEnd(done: seq<Entry>, key: string, v: string, rest: string)
    requires Plain(v)
    ensures Read(BeforeValue(done, key), v + "\n" + rest) ==
            Read(LineStart(done + [Entry(key, v)]), rest)
  {
    assert RStrip(v) == v;
    hide Read, IsSpace, RStrip;
    assert v + "\n" + rest == v + ("\n" + rest);
    if v == "" {
      assert v + ("\n" + rest) == "\n" + rest;
      ReadStep(BeforeValue(done, key), "\n", rest);
    } else {
      ReadPlainValue(done, key, v, "\n" + rest);
      ReadStep(Bare(done, key, v), "\n", rest);
    }
    assert "\n"[1..] + rest == rest;
  }

  lemma BareLineSolid(k: string, v: string)
    requires Plain(v)
    ensures RStrip(k + "=" + v) == k + "=" + v
  {
    assert !IsSpace('=');
    hide IsSpace, RStrip;
    var line := k + "=" + v;
    assert line[|line| - 1] == if v == "" then '=' else v[|v| - 1];
    RStripEndsSolid(line);
  }

  lemma ReadBareLine(done: seq<Entry>, e: Entry, rest: string)
    requires ValidKey(e.key) && !HasKey(done, e.key) && Plain(e.value)
    ensures Read(LineStart(done), BareLine(e) + rest) == Read(LineStart(done + [e]), rest)
  {
    var k, v := e.key, e.value;
    KeyChars(k);
    hide Read, IsSpace, RStrip, HasKey, ValidKey;
    var line := k + "=" + v;
    BareLineSolid(k, v);
    hide Plain;
    assert line[0] == k[0];
    assert BareLine(e) + rest == line + ("\n" + rest);
    EntryStart(done, line, "\n" + rest);
    assert line + ("\n" + rest) == k + "=" + (v + "\n" + rest);
    ReadKeyPart(done, k, v + "\n" + rest);
    ReadBareEnd(done, k, v, rest);
  }

  /** The unquoted form gives plain values back. */
  lemma {:induction false} BareRoundTrip(done: seq<Entry>, entries: seq<Entry>)
    requires Fresh(done, entries)
    requires forall i :: 0 <= i < |entries| ==> Plain(entries[i].value)
    ensures Read(LineStart(done), BareText(entries)) == Ok(done + entries)
    decreases |entries|
  {
    hide BareLine, ValidKey, HasKey, Plain;
    if entries == [] {
      assert done + [] == done;
    } else {
      ReadBareLine(done, entries[0], BareText(entries[1..]));
      hide Read;
      BareRoundTrip(done + [entries[0]], entries[1..]);
      assert done + [entries[0]] + entries[1..] == done + entries;
    }
  }

  // ---------------------------------------------------------------------
  // Where the parser departs from the grammar
  // ---------------------------------------------------------------------

  /**
   An entry line ending in an escaped blank: by the grammar the entry ends
   there, but the parser takes the backslash for a continuation and goes on
   with the next line as part of the value.
   */
  lemma EscapedBlankJoinsLines(done: seq<Entry>, k: string, v: string, rest: string)
    requires ValidKey(k) && !HasKey(done, k) && Plain(v) && v != ""
    ensures var text := k + "=" + v + "\\ \n" + rest;
            Run(LineStart(done), text) == Run(LineStart(done + [Entry(k, v)]), rest) &&
            Read(LineStart(done), text) == Read(Bare(done, k, v), rest)
  {
    EscapedBlankInGrammar(done, k, v, rest);
    EscapedBlankInParser(done, k, v, rest);
  }

  /** So a text that the grammar rejects is accepted, its last line in the value. */
  lemma EscapedBlankChangesMeaning(done: seq<Entry>, k: string, v: string)
    requires ValidKey(k) && !HasKey(done, k) && Plain(v) && v != ""
    ensures var text := k + "=" + v + "\\ \n" + "x";
            Run(LineStart(done), text) == Err(MissingEquals) &&
            Read(LineStart(done), text) == Ok(done + [Entry(k, v + "x")])
  {
    EscapedBlankJoinsLines(done, k, v, "x");
    assert !IsSpace('x') && StartsEntry('x');
    hide IsSpace;
    assert "x"[1..] == "";
    FoldStep(LineStart(done + [Entry(k, v)]), 'x', "");
    RStripEndsSolid(v + "x");
  }

  lemma {:induction false} FoldBareText(done: seq<Entry>, key: string, out: string, v: string)
    requires '\n' !in v && '\\' !in v
    ensures Fold(Bare(done, key, out), v) == Bare(done, key, out + v)
    decreases |v|
  {
    if v == "" {
      assert out + v == out;
    } else {
      assert v[0] in v;
      assert forall c :: c in v[1..] ==> c in v;
      FoldBareText(done, key, out + [v[0]], v[1..]);
      assert out + [v[0]] + v[1..] == out + v;
    }
  }

  lemma FoldPlainValue(done: seq<Entry>, key: string, v: string)
    requires Plain(v) && v != ""
    ensures Fold(BeforeValue(done, key), v) == Bare(done, key, v)
  {
    assert IsSpace('\n');
    assert v[0] in v;
    assert "" + [v[0]] == [v[0]];
    assert Step(BeforeValue(done, key), v[0]) == Step(Bare(done, key, ""), v[0]);
    assert Fold(BeforeValue(done, key), v) == Fold(Bare(done, key, ""), v);
    FoldBareText(done, key, "", v);
    assert "" + v == v;
  }

  lemma EscapedBlankInGrammar(done: seq<Entry>, k: string, v: string, rest: string)
    requires ValidKey(k) && !HasKey(done, k) && Plain(v) && v != ""
    ensures Run(LineStart(done), k + "=" + v + "\\ \n" + rest) ==
            Run(LineStart(done + [Entry(k, v)]), rest)
  {
    assert Blank(" ");
    assert RStrip(v) == v;
    hide Run, IsSpace, ValidKey, HasKey, RStrip;
    var line := k + "=" + (v + "\\ \n");
    assert k + "=" + v + "\\ \n" + rest == line + rest;
    RunFold(LineStart(done), line, rest);
    FoldKeyPart(done, k, v + "\\ \n");
    FoldFold(BeforeValue(done, k), v, "\\ \n");
    FoldPlainValue(done, k, v);
    assert "\\ \n" == ['\\'] + ([' '] + (['\n'] + ""));
    FoldStep(Bare(done, k, v), '\\', [' '] + (['\n'] + ""));
    FoldStep(BareEscape(done, k, v), ' ', ['\n'] + "");
    assert v + [' '] == v + " ";
    RStripConcat(v, " ");
    FoldStep(Bare(done, k, v + " "), '\n', "");
  }

  lemma EscapedBlankInParser(done: seq<Entry>, k: string, v: string, rest: string)
    requires ValidKey(k) && !HasKey(done, k) && Plain(v) && v != ""
    ensures Read(LineStart(done), k + "=" + v + "\\ \n" + rest) == Read(Bare(done, k, v), rest)
  {
    KeyChars(k);
    assert !IsSpace('\\');
    hide Read, IsSpace, ValidKey, HasKey, RStrip;
    var kept := k + "=" + v + "\\";
    var line := kept + " ";
    assert line[0] == kept[0] == k[0];
    TrimOneBlank(kept);
    assert k + "=" + v + "\\ \n" + rest == line + ("\n" + rest);
    EntryStart(done, line, "\n" + rest);
    assert kept + ("\n" + rest) == k + "=" + (v + ("\\\n" + rest));
    ReadKeyPart(done, k, v + ("\\\n" + rest));
    ReadPlainValue(done, k, v, "\\\n" + rest);
    ReadContinuation(done, k, v, rest);
  }

  lemma ReadContinuation(done: seq<Entry>, key: string, out: string, rest: string)
    ensures Read(Bare(done, key, out), "\\\n" + rest) == Read(Bare(done, key, out), rest)
  {
    hide Read;
    ReadStep(Bare(done, key, out), "\\\n", rest);
    assert "\\\n"[1..] == "\n";
    ReadStep(BareEscape(done, key, out), "\n", rest);
    assert "\n"[1..] + rest == rest;
  }

  /** A line of which trimming removes one blank. */
  lemma TrimOneBlank(kept: string)
    requires kept != "" && !IsSpace(kept[|kept| - 1])
    ensures RStrip(kept + " ") == kept
  {
    assert Blank(" ");
    RStripConcat(kept, " ");
    RStripEndsSolid(kept);
  }
}
