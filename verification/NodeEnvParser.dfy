/**
 The line-indexed parser of `node.env`, loop by loop, proved to read exactly
 what the automaton reads once the first line of each entry is right-trimmed.
 */
module NodeEnvParser {
  import opened Base
  import opened EnvGrammar

  // ---------------------------------------------------------------------
  // Lines
  // ---------------------------------------------------------------------

  /** `text.split("\n")` */
  function Lines(text: string): (r: seq<string>)
    ensures r != []
    ensures forall i :: 0 <= i < |r| ==> '\n' !in r[i]
    decreases |text|
  {
    var e := LineEnd(text);
    if e == |text| then [text] else [text[..e]] + Lines(text[e + 1..])
  }

  /** The text from line `i` on. */
  function From(lines: seq<string>, i: nat): string
    requires i < |lines|
    decreases |lines| - i, 1
  {
    lines[i] + After(lines, i)
  }

  /** The text from the end of line `i` on. */
  function After(lines: seq<string>, i: nat): string
    requires i < |lines|
    decreases |lines| - i, 0
  {
    if i + 1 < |lines| then "\n" + From(lines, i + 1) else ""
  }

  lemma {:induction false} FromCons(line: string, lines: seq<string>, i: nat)
    requires i < |lines|
    ensures From([line] + lines, i + 1) == From(lines, i)
    decreases |lines| - i
  {
    if i + 1 < |lines| {
      FromCons(line, lines, i + 1);
    }
  }

  /** Splitting a text in lines loses nothing. */
  lemma {:induction false} JoinSplit(text: string)
    ensures From(Lines(text), 0) == text
    decreases |text|
  {
    hide From, After;
    var e := LineEnd(text);
    if e == |text| {
      OneLineLeft(text);
    } else {
      var line, more := text[..e], text[e + 1..];
      JoinSplit(more);
      assert Lines(text) == [line] + Lines(more);
      hide Lines, LineEnd;
      FirstOfLines(line, Lines(more));
      assert text == line + ("\n" + more);
    }
  }

  lemma OneLineLeft(line: string)
    ensures From([line], 0) == line
  {
    assert line + "" == line;
  }

  lemma FirstOfLines(line: string, lines: seq<string>)
    requires lines != []
    ensures From([line] + lines, 0) == line + ("\n" + From(lines, 0))
  {
    FromCons(line, lines, 0);
  }

  /** What is left to read after an entry that ended on line `i`. */
  function Next(done: seq<Entry>, lines: seq<string>, i: nat): Parsed {
    if i + 1 < |lines| then Read(LineStart(done), From(lines, i + 1)) else Ok(done)
  }

  // ---------------------------------------------------------------------
  // Reading several characters at once
  // ---------------------------------------------------------------------

  lemma ReadStep(st: State, s: string, rest: string)
    requires s != "" && !(st.LineStart? && StartsEntry(s[0]))
    ensures Read(st, s + rest) == Read(Step(st, s[0]), s[1..] + rest)
  {
    assert (s + rest)[0] == s[0] && (s + rest)[1..] == s[1..] + rest;
  }

  lemma {:induction false} ReadBlanks(st: State, blanks: string, rest: string)
    requires st.LineStart? || st.BeforeValue? || st.AfterQuote?
    requires Blank(blanks) && '\n' !in blanks
    ensures Read(st, blanks + rest) == Read(st, rest)
  {
    if blanks == "" {
      assert blanks + rest == rest;
    } else {
      ReadStep(st, blanks, rest);
      assert blanks[0] in blanks;
      assert forall c :: c in blanks[1..] ==> c in blanks;
      ReadBlanks(st, blanks[1..], rest);
    }
  }

  lemma {:induction false} ReadComment(done: seq<Entry>, text: string, rest: string)
    requires '\n' !in text
    ensures Read(Comment(done), text + rest) == Read(Comment(done), rest)
  {
    if text == "" {
      assert text + rest == rest;
    } else {
      ReadStep(Comment(done), text, rest);
      assert text[0] in text;
      assert forall c :: c in text[1..] ==> c in text;
      ReadComment(done, text[1..], rest);
    }
  }

  lemma {:induction false} ReadKey(done: seq<Entry>, key: string, text: string, rest: string)
    requires '\n' !in text && '=' !in text
    ensures Read(Key(done, key), text + rest) == Read(Key(done, key + text), rest)
    decreases |text|
  {
    if text == "" {
      assert text + rest == rest && key + text == key;
    } else {
      ReadStep(Key(done, key), text, rest);
      assert text[0] in text;
      assert forall c :: c in text[1..] ==> c in text;
      ReadKey(done, key + [text[0]], text[1..], rest);
      assert key + [text[0]] + text[1..] == key + text;
    }
  }

  /** At the end of a line a state that commits an entry moves to the next line. */
  lemma ReadEndOfLine(st: State, done: seq<Entry>, lines: seq<string>, i: nat)
    requires i < |lines|
    requires Step(st, '\n') == LineStart(done) && Finish(st) == Ok(done)
    ensures Read(st, After(lines, i)) == Next(done, lines, i)
  {
    if i + 1 < |lines| {
      assert After(lines, i)[1..] == From(lines, i + 1);
      if st.LineStart? {
        assert !StartsEntry('\n');
      }
    }
  }

  lemma BlankConcat(a: string, b: string)
    ensures Blank(a + b) <==> Blank(a) && Blank(b)
  {
    hide IsSpace;
    if Blank(a + b) {
      forall i | 0 <= i < |a|
        ensures IsSpace(a[i])
      {
        assert a[i] == (a + b)[i];
      }
      forall i | 0 <= i < |b|
        ensures IsSpace(b[i])
      {
        assert b[i] == (a + b)[|a| + i];
      }
    }
  }

  /** A text splits into leading blanks, if any, and a rest that starts otherwise. */
  lemma LStripParts(s: string)
    ensures var r := LStrip(s);
            var blanks := s[..|s| - |r|];
            s == blanks + r && Blank(blanks) && (r == "" <==> Blank(s)) &&
            (r != "" ==> !IsSpace(r[0]))
    ensures '\n' !in s ==> '\n' !in LStrip(s) && '\n' !in s[..|s| - |LStrip(s)|]
  {
    hide IsSpace;
    var r := LStrip(s);
    var blanks := s[..|s| - |r|];
    hide LStrip, RStrip;
    assert s == blanks + r;
    BlankConcat(blanks, r);
    if r != "" {
      assert !Blank(r);
    }
  }

  lemma RStripParts(s: string)
    ensures var r := RStrip(s);
            s == r + s[|r|..] && Blank(s[|r|..]) && (r == "" <==> Blank(s))
    ensures '\n' !in s ==> '\n' !in RStrip(s)
  {
    hide IsSpace;
    var r := RStrip(s);
    hide LStrip, RStrip;
    assert s == r + s[|r|..];
    BlankConcat(r, s[|r|..]);
    if r != "" {
      assert !Blank(r);
    }
  }

  lemma StripBlank(s: string)
    ensures Strip(s) == "" <==> Blank(s)
  {
    hide IsSpace, LStrip, RStrip, Blank;
    var r := LStrip(s);
    LStripParts(s);
    RStripParts(r);
    BlankConcat(s[..|s| - |r|], r);
  }

  lemma StripHead(s: string)
    requires Strip(s) != ""
    ensures LStrip(s) != "" && Strip(s)[0] == LStrip(s)[0]
  {
    hide IsSpace, LStrip, Blank;
    RStripParts(LStrip(s));
  }

  lemma BlanksAfterQuote(done: seq<Entry>, key: string, out: string, blanks: string,
                         lines: seq<string>, i: nat)
    requires i < |lines| && '\n' !in blanks && Blank(blanks)
    ensures Read(AfterQuote(done, key, out), blanks + After(lines, i)) ==
            Next(done + [Entry(key, out)], lines, i)
  {
    hide IsSpace, Read, Next, After, Blank;
    var st := AfterQuote(done, key, out);
    ReadBlanks(st, blanks, After(lines, i));
    ReadEndOfLine(st, done + [Entry(key, out)], lines, i);
  }

  lemma TextFollowsQuote(done: seq<Entry>, key: string, out: string, blanks: string,
                         text: string, rest: string)
    requires '\n' !in blanks && Blank(blanks)
    requires text != "" && !IsSpace(text[0])
    ensures Read(AfterQuote(done, key, out), blanks + text + rest) == Err(TextAfterQuote)
  {
    var st := AfterQuote(done, key, out);
    assert blanks + text + rest == blanks + (text + rest);
    ReadBlanks(st, blanks, text + rest);
    assert IsSpace('\n');
    hide IsSpace, Read, Blank;
    ReadStep(st, text, rest);
    RejectedStays(TextAfterQuote, text[1..] + rest);
  }

  /** After a closing quote only blanks may follow on the line. */
  lemma AfterClosingQuote(done: seq<Entry>, key: string, out: string, text: string,
                          lines: seq<string>, i: nat)
    requires i < |lines| && '\n' !in text
    ensures Read(AfterQuote(done, key, out), text + After(lines, i)) ==
            if Strip(text) == "" then Next(done + [Entry(key, out)], lines, i)
            else Err(TextAfterQuote)
  {
    hide IsSpace, Read, LStrip, RStrip, Strip, Next, Blank, After;
    StripBlank(text);
    LStripParts(text);
    var rest := LStrip(text);
    if rest == "" {
      BlanksAfterQuote(done, key, out, text, lines, i);
    } else {
      TextFollowsQuote(done, key, out, text[..|text| - |rest|], rest, After(lines, i));
    }
  }

  /** What a state inside an entry does at the end of line `i`. */
  lemma ReadNextLine(st: State, lines: seq<string>, i: nat)
    requires i < |lines| && !st.LineStart?
    ensures i + 1 < |lines| ==>
              Read(st, After(lines, i)) ==
              Read(Step(st, '\n'), lines[i + 1] + After(lines, i + 1))
    ensures i + 1 == |lines| ==> Read(st, After(lines, i)) == Finish(st)
  {
    if i + 1 < |lines| {
      assert After(lines, i)[0] == '\n' && After(lines, i)[1..] == From(lines, i + 1);
    }
  }

  // ---------------------------------------------------------------------
  // Values
  // ---------------------------------------------------------------------

  /** `_parse_bare` */
  method ParseBare(lines: seq<string>, start: nat, raw: string,
                   ghost done: seq<Entry>, ghost key: string)
    returns (value: string, index: nat)
    requires start < |lines| && '\n' !in raw
    requires forall i :: 0 <= i < |lines| ==> '\n' !in lines[i]
    ensures start <= index <= |lines|
    ensures Read(Bare(done, key, ""), raw + After(lines, start)) ==
            Next(done + [Entry(key, value)], lines, index)
  {
    hide Read, After, RStrip, IsSpace;
    ghost var meaning := Read(Bare(done, key, ""), raw + After(lines, start));
    var out, current := "", raw;
    index := start;
    while true
      invariant start <= index < |lines| && '\n' !in current
      invariant meaning == Read(Bare(done, key, out), current + After(lines, index))
      decreases |lines| - index
    {
      var position, continued := 0, false;
      assert current[0..] == current;
      while position < |current|
        invariant position <= |current| && !continued
        invariant meaning == Read(Bare(done, key, out), current[position..] + After(lines, index))
        decreases |current| - position
      {
        var c := current[position];
        assert c in current;
        ReadStep(Bare(done, key, out), current[position..], After(lines, index));
        assert current[position..][1..] == current[position + 1..];
        if c == '\\' {
          if position + 1 < |current| {
            assert current[position + 1] in current;
            ReadStep(BareEscape(done, key, out), current[position + 1..], After(lines, index));
            assert current[position + 1..][1..] == current[position + 2..];
            out := out + [current[position + 1]];
            position := position + 2;
            continue;
          }
          assert current[position + 1..] + After(lines, index) == After(lines, index);
          continued := true;
          break;
        }
        out := out + [c];
        position := position + 1;
      }
      if !continued {
        assert current[position..] + After(lines, index) == After(lines, index);
        ReadEndOfLine(Bare(done, key, out), done + [Entry(key, RStrip(out))], lines, index);
        break;
      }
      assert meaning == Read(BareEscape(done, key, out), After(lines, index));
      ReadNextLine(BareEscape(done, key, out), lines, index);
      index := index + 1;
      if index >= |lines| {
        break;
      }
      current := lines[index];
    }
    value := RStrip(out);
  }

  /** Before any other character a backslash in double quotes stays, and so does that one. */
  lemma LiteralBackslash(done: seq<Entry>, key: string, out: string, text: string, rest: string)
    requires text != "" && !NeedsEscape(text[0]) && text[0] != '\n'
    ensures Read(QuotedEscape(done, key, out), text + rest) ==
            Read(Quoted(done, key, '"', out + ['\\']), text + rest)
  {
    hide Read;
    ReadStep(QuotedEscape(done, key, out), text, rest);
    ReadStep(Quoted(done, key, '"', out + ['\\']), text, rest);
    assert out + ['\\', text[0]] == out + ['\\'] + [text[0]];
  }

  /** `_parse_quoted`, `raw` being what follows the opening quote. */
  method ParseQuoted(lines: seq<string>, start: nat, raw: string, quote: char,
                     ghost done: seq<Entry>, ghost key: string)
    returns (r: Result<(string, nat), Fault>)
    requires start < |lines| && '\n' !in raw && IsQuote(quote)
    requires forall i :: 0 <= i < |lines| ==> '\n' !in lines[i]
    ensures r.Ok? ==> start <= r.value.1 < |lines|
    ensures Read(Quoted(done, key, quote, ""), raw + After(lines, start)) ==
            if r.Ok? then Next(done + [Entry(key, r.value.0)], lines, r.value.1) else Err(r.error)
  {
    hide IsSpace, Read, LStrip, RStrip, After;
    ghost var meaning := Read(Quoted(done, key, quote, ""), raw + After(lines, start));
    var out, current, index := "", raw, start;
    while true
      invariant start <= index < |lines| && '\n' !in current
      invariant meaning == Read(Quoted(done, key, quote, out), current + After(lines, index))
      decreases |lines| - index
    {
      ghost var tail := After(lines, index);
      var position, continued := 0, false;
      assert current[0..] == current;
      while position < |current|
        invariant position <= |current| && !continued
        invariant meaning == Read(Quoted(done, key, quote, out), current[position..] + tail)
        decreases |current| - position
      {
        var c := current[position];
        assert c in current;
        ReadStep(Quoted(done, key, quote, out), current[position..], tail);
        assert current[position..][1..] == current[position + 1..];
        if quote == '"' && c == '\\' {
          if position + 1 < |current| {
            var following := current[position + 1];
            assert following in current;
            assert current[position + 1..][1..] == current[position + 2..];
            if NeedsEscape(following) {
              ReadStep(QuotedEscape(done, key, out), current[position + 1..], tail);
              out := out + [following];
              position := position + 2;
              continue;
            }
            LiteralBackslash(done, key, out, current[position + 1..], tail);
          } else {
            assert current[position + 1..] + tail == tail;
            if index + 1 < |lines| {
              continued := true;
              break;
            }
            // A backslash that ends the text leaves the quote open either way.
            ReadNextLine(QuotedEscape(done, key, out), lines, index);
            ReadNextLine(Quoted(done, key, quote, out + [c]), lines, index);
          }
        }
        if c == quote {
          var remainder := Strip(current[position + 1..]);
          AfterClosingQuote(done, key, out, current[position + 1..], lines, index);
          if remainder != "" {
            return Err(TextAfterQuote);
          }
          return Ok((out, index));
        }
        out := out + [c];
        position := position + 1;
      }
      assert !continued ==> current[position..] + tail == tail;
      ReadNextLine(if continued then QuotedEscape(done, key, out)
                   else Quoted(done, key, quote, out), lines, index);
      index := index + 1;
      if index >= |lines| {
        return Err(UnterminatedQuote);
      }
      if !continued {
        out := out + "\n";
      }
      current := lines[index];
    }
  }

  // ---------------------------------------------------------------------
  // Whole lines
  // ---------------------------------------------------------------------

  lemma BlankLine(done: seq<Entry>, lines: seq<string>, i: nat)
    requires i < |lines| && '\n' !in lines[i] && Strip(lines[i]) == ""
    ensures Read(LineStart(done), From(lines, i)) == Next(done, lines, i)
  {
    StripBlank(lines[i]);
    assert IsSpace('\n');
    hide IsSpace, Read, Next, After, Blank, Strip;
    ReadBlanks(LineStart(done), lines[i], After(lines, i));
    ReadEndOfLine(LineStart(done), done, lines, i);
  }

  /** A line without its leading blanks. */
  lemma SkipLeadingBlanks(done: seq<Entry>, lines: seq<string>, i: nat)
    requires i < |lines| && '\n' !in lines[i]
    ensures Read(LineStart(done), From(lines, i)) ==
            Read(LineStart(done), LStrip(lines[i]) + After(lines, i))
    ensures '\n' !in LStrip(lines[i])
  {
    hide IsSpace, Read, LStrip, RStrip, After, Blank;
    var line := lines[i];
    var body := LStrip(line);
    var blanks := line[..|line| - |body|];
    LStripParts(line);
    ReadBlanks(LineStart(done), blanks, body + After(lines, i));
    assert blanks + (body + After(lines, i)) == line + After(lines, i);
  }

  lemma CommentLine(done: seq<Entry>, lines: seq<string>, i: nat)
    requires i < |lines| && '\n' !in lines[i]
    requires Strip(lines[i]) != "" && !StartsEntry(Strip(lines[i])[0])
    ensures Read(LineStart(done), From(lines, i)) == Next(done, lines, i)
  {
    StripHead(lines[i]);
    LStripParts(lines[i]);
    SkipLeadingBlanks(done, lines, i);
    hide IsSpace, Read, Next, After, Blank, Strip, LStrip, RStrip;
    var body := LStrip(lines[i]);
    ReadStep(LineStart(done), body, After(lines, i));
    assert forall c :: c in body[1..] ==> c in body;
    ReadComment(done, body[1..], After(lines, i));
    ReadEndOfLine(Comment(done), done, lines, i);
  }

  lemma {:induction false} LineEndAt(line: string, rest: string)
    requires '\n' !in line && (rest == "" || rest[0] == '\n')
    ensures LineEnd(line + rest) == |line|
  {
    if line == "" {
      assert line + rest == rest;
    } else {
      assert line[0] in line && (line + rest)[0] == line[0];
      assert (line + rest)[1..] == line[1..] + rest;
      assert forall c :: c in line[1..] ==> c in line;
      LineEndAt(line[1..], rest);
    }
  }

  lemma TrimmedLine(body: string, rest: string)
    requires '\n' !in body && (rest == "" || rest[0] == '\n')
    ensures TrimLine(body + rest) == RStrip(body) + rest
  {
    LineEndAt(body, rest);
    assert (body + rest)[..|body|] == body && (body + rest)[|body|..] == rest;
  }

  lemma ReadEntry(done: seq<Entry>, s: string)
    requires s != "" && StartsEntry(s[0])
    ensures TrimLine(s) != "" && TrimLine(s)[0] == s[0]
    ensures Read(LineStart(done), s) == Read(Step(Key(done, ""), s[0]), TrimLine(s)[1..])
  {
    assert IsSpace('\n');
    assert "" + [s[0]] == [s[0]];
    assert Step(LineStart(done), s[0]) == Step(Key(done, ""), s[0]);
    hide IsSpace, TrimLine, Step;
  }

  /** Starting an entry reads its right-trimmed first line as a key being collected. */
  lemma EntryStart(done: seq<Entry>, body: string, rest: string)
    requires body != "" && '\n' !in body && StartsEntry(body[0])
    requires RStrip(body) != "" && (rest == "" || rest[0] == '\n')
    ensures Read(LineStart(done), body + rest) == Read(Key(done, ""), RStrip(body) + rest)
  {
    hide IsSpace, LineEnd, TrimLine, Read, Step, LStrip, RStrip, StartsEntry;
    var stripped := RStrip(body);
    TrimmedLine(body, rest);
    RStripParts(body);
    assert (body + rest)[0] == body[0] == stripped[0];
    ReadEntry(done, body + rest);
    ReadStep(Key(done, ""), stripped, rest);
    assert (stripped + rest)[1..] == stripped[1..] + rest;
  }

  /** An entry's first line is read right-trimmed, as a key being collected. */
  lemma EntryLine(done: seq<Entry>, lines: seq<string>, i: nat)
    requires i < |lines| && '\n' !in lines[i]
    requires Strip(lines[i]) != "" && StartsEntry(Strip(lines[i])[0])
    ensures Read(LineStart(done), From(lines, i)) ==
            Read(Key(done, ""), Strip(lines[i]) + After(lines, i))
    ensures '\n' !in Strip(lines[i])
  {
    StripBlank(lines[i]);
    StripHead(lines[i]);
    RStripParts(LStrip(lines[i]));
    SkipLeadingBlanks(done, lines, i);
    AfterStarts(lines, i);
    hide IsSpace, Blank, LStrip, RStrip, Read, After, StartsEntry;
    EntryStart(done, LStrip(lines[i]), After(lines, i));
  }

  lemma AfterStarts(lines: seq<string>, i: nat)
    requires i < |lines|
    ensures After(lines, i) == "" || After(lines, i)[0] == '\n'
  {
  }

  function IndexOf(s: string, c: char): (i: nat)
    ensures i <= |s| && c !in s[..i] && (i < |s| ==> s[i] == c)
  {
    if s == "" || s[0] == c then 0
    else
      var i := IndexOf(s[1..], c);
      assert s[..1 + i] == [s[0]] + s[1..][..i];
      1 + i
  }

  lemma NoEquals(done: seq<Entry>, text: string, lines: seq<string>, i: nat)
    requires i < |lines| && '\n' !in text && '=' !in text
    ensures Read(Key(done, ""), text + After(lines, i)) == Err(MissingEquals)
  {
    hide Read;
    ReadKey(done, "", text, After(lines, i));
    ReadNextLine(Key(done, text), lines, i);
    assert "" + text == text;
    if i + 1 < |lines| {
      RejectedStays(MissingEquals, lines[i + 1] + After(lines, i + 1));
    }
  }

  lemma ReadEquals(done: seq<Entry>, text: string, e: nat, rest: string)
    requires '\n' !in text && e < |text| && text[e] == '=' && '=' !in text[..e]
    ensures Read(Key(done, ""), text + rest) == Read(KeyEnd(done, text[..e]), text[e + 1..] + rest)
  {
    hide Read, KeyEnd;
    assert forall c :: c in text[..e] ==> c in text;
    ReadKey(done, "", text[..e], text[e..] + rest);
    assert text[..e] + (text[e..] + rest) == text + rest && "" + text[..e] == text[..e];
    ReadStep(Key(done, text[..e]), text[e..], rest);
    assert text[e..][1..] == text[e + 1..];
  }

  lemma EmptyValue(done: seq<Entry>, key: string, lines: seq<string>, i: nat)
    requires i < |lines|
    ensures Read(BeforeValue(done, key), After(lines, i)) == Read(Bare(done, key, ""), After(lines, i))
  {
    assert RStrip("") == "";
    hide IsSpace, Read, After, Next;
    ReadEndOfLine(BeforeValue(done, key), done + [Entry(key, "")], lines, i);
    ReadEndOfLine(Bare(done, key, ""), done + [Entry(key, "")], lines, i);
  }

  lemma ValueStart(done: seq<Entry>, key: string, value: string, rest: string)
    requires value != "" && !IsSpace(value[0])
    ensures Read(BeforeValue(done, key), value + rest) ==
              if IsQuote(value[0]) then Read(Quoted(done, key, value[0], ""), value[1..] + rest)
              else Read(Bare(done, key, ""), value + rest)
  {
    assert IsSpace('\n');
    hide IsSpace, Read;
    ReadStep(BeforeValue(done, key), value, rest);
    ReadStep(Bare(done, key, ""), value, rest);
    assert "" + [value[0]] == [value[0]];
  }

  lemma SkipBlanks(st: State, text: string, rest: string)
    requires st.LineStart? || st.BeforeValue? || st.AfterQuote?
    requires '\n' !in text
    ensures Read(st, text + rest) == Read(st, LStrip(text) + rest)
  {
    LStripParts(text);
    hide IsSpace, Blank, LStrip, Read;
    var blanks := text[..|text| - |LStrip(text)|];
    ReadBlanks(st, blanks, LStrip(text) + rest);
    assert blanks + (LStrip(text) + rest) == text + rest;
  }

  lemma ReadValueStart(done: seq<Entry>, key: string, text: string, lines: seq<string>, i: nat)
    requires i < |lines| && '\n' !in text
    ensures var value := LStrip(text);
            '\n' !in value &&
            Read(BeforeValue(done, key), text + After(lines, i)) ==
              if value != "" && IsQuote(value[0]) then
                Read(Quoted(done, key, value[0], ""), value[1..] + After(lines, i))
              else Read(Bare(done, key, ""), value + After(lines, i))
  {
    var value, rest := LStrip(text), After(lines, i);
    LStripParts(text);
    hide IsSpace, Blank, LStrip, RStrip, Read, After, Next;
    SkipBlanks(BeforeValue(done, key), text, rest);
    if value == "" {
      assert value + rest == rest;
      EmptyValue(done, key, lines, i);
    } else {
      ValueStart(done, key, value, rest);
    }
  }

  /** The value after `=`: quoted or bare, by its first character. */
  method ParseValue(lines: seq<string>, start: nat, text: string,
                    ghost done: seq<Entry>, ghost key: string)
    returns (r: Result<(string, nat), Fault>)
    requires start < |lines| && '\n' !in text
    requires forall i :: 0 <= i < |lines| ==> '\n' !in lines[i]
    ensures r.Ok? ==> start <= r.value.1 <= |lines|
    ensures Read(BeforeValue(done, key), text + After(lines, start)) ==
            if r.Ok? then Next(done + [Entry(key, r.value.0)], lines, r.value.1) else Err(r.error)
  {
    hide Read, After, LStrip, Next;
    ReadValueStart(done, key, text, lines, start);
    var rest := LStrip(text);
    if rest != "" && IsQuote(rest[0]) {
      assert forall c :: c in rest[1..] ==> c in rest;
      r := ParseQuoted(lines, start, rest[1..], rest[0], done, key);
    } else {
      var value, index := ParseBare(lines, start, rest, done, key);
      r := Ok((value, index));
    }
  }

  /**
   `parse`. On every text it gives the entries, or the fault, that the
   automaton gives when the first line of each entry is right-trimmed. Every
   round consumes at least one line.
   */
  method Parse(text: string) returns (r: Parsed)
    ensures r == Read(LineStart([]), text)
  {
    hide Read, Next, After, From, Lines, Step, KeyEnd, LStrip, RStrip, Strip, StartsEntry, IsSpace,
         ValidKey, HasKey, IndexOf;
    var values: seq<Entry> := [];
    var lines := Lines(text);
    JoinSplit(text);
    var index := 0;
    while index < |lines|
      invariant index <= |lines| + 1
      invariant Read(LineStart([]), text) ==
                if index < |lines| then Read(LineStart(values), From(lines, index)) else Ok(values)
      decreases |lines| + 1 - index
    {
      var stripped := Strip(lines[index]);
      if stripped == "" {
        BlankLine(values, lines, index);
        NextStep(values, lines, index);
        index := index + 1;
        continue;
      }
      if !StartsEntry(stripped[0]) {
        CommentLine(values, lines, index);
        NextStep(values, lines, index);
        index := index + 1;
        continue;
      }
      EntryLine(values, lines, index);
      var e := IndexOf(stripped, '=');
      if e == |stripped| {
        assert stripped[..e] == stripped;
        NoEquals(values, stripped, lines, index);
        return Err(MissingEquals);
      }
      var key, rest := Strip(stripped[..e]), stripped[e + 1..];
      ReadEquals(values, stripped, e, After(lines, index));
      KeyIsStripped(values, lines[index], e);
      if !ValidKey(key) {
        RejectedStays(InvalidKey, rest + After(lines, index));
        return Err(InvalidKey);
      }
      if HasKey(values, key) {
        RejectedStays(DuplicateKey, rest + After(lines, index));
        return Err(DuplicateKey);
      }
      assert forall c :: c in rest ==> c in stripped;
      var parsed := ParseValue(lines, index, rest, values, key);
      if parsed.Err? {
        return Err(parsed.error);
      }
      values := values + [Entry(key, parsed.value.0)];
      index := parsed.value.1;
      NextStep(values, lines, index);
      index := index + 1;
    }
    return Ok(values);
  }

  lemma NextStep(done: seq<Entry>, lines: seq<string>, i: nat)
    ensures Next(done, lines, i) ==
            if i + 1 < |lines| then Read(LineStart(done), From(lines, i + 1)) else Ok(done)
  {
  }

  /** The key of a stripped line needs right-trimming only. */
  lemma KeyIsStripped(done: seq<Entry>, line: string, e: nat)
    requires Strip(line) != "" && e < |Strip(line)|
    ensures var key := Strip(Strip(line)[..e]);
            KeyEnd(done, Strip(line)[..e]) ==
              if !ValidKey(key) then Rejected(InvalidKey)
              else if HasKey(done, key) then Rejected(DuplicateKey)
              else BeforeValue(done, key)
  {
    StripHead(line);
    LStripParts(line);
    hide IsSpace, RStrip;
    var text := Strip(line)[..e];
    assert text != "" ==> text[0] == Strip(line)[0];
    assert LStrip(text) == text;
  }
}
