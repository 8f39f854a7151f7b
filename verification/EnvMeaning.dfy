/**
 When the line-indexed parser agrees with the documented grammar, and texts on
 which it does not.
 */
module EnvMeaning {
  import opened Base
  import opened EnvGrammar
  import opened NodeEnvParser

  /** The state after reading a text without trimming. */
  function Fold(st: State, s: string): State
    decreases |s|
  {
    if s == "" then st else Fold(Step(st, s[0]), s[1..])
  }

  /** Blanks before the end of the line make no difference in this state. */
  predicate Settled(st: State) {
    !st.BareEscape? && !st.Quoted? && !st.QuotedEscape?
  }

  /** After the end of a line there is nothing, or a blank line. */
  predicate BlankLineNext(rest: string) {
    rest == "" || Blank(rest[1..][..LineEnd(rest[1..])])
  }

  /**
   Trimming the first line of an entry makes no difference: it has no trailing
   blanks or, once trimmed, ends neither inside quotes nor with an unpaired
   backslash; or it ends with one, and the next line is blank.
   */
  predicate TrimsWell(u: State, line: string, rest: string) {
    RStrip(line) == line || Settled(u) || (u.BareEscape? && BlankLineNext(rest))
  }

  /** Trimming makes no difference at any entry. */
  predicate Clean(st: State, s: string)
    decreases |s|
  {
    if s == "" then true
    else if st.LineStart? && StartsEntry(s[0]) then
      var e := LineEnd(s);
      var line := s[..e];
      assert IsSpace('\n');
      TrimsWell(Fold(st, RStrip(line)), line, s[e..]) && Clean(Fold(st, line), s[e..])
    else Clean(Step(st, s[0]), s[1..])
  }

  /** No line ends in a blank. */
  predicate NoTrailingBlanks(s: string) {
    forall i :: 0 <= i < |s| && IsSpace(s[i]) && s[i] != '\n' ==>
      i + 1 < |s| && s[i + 1] != '\n'
  }

  lemma {:induction false} RunFold(st: State, x: string, y: string)
    ensures Run(st, x + y) == Run(Fold(st, x), y)
    decreases |x|
  {
    if x == "" {
      assert x + y == y;
    } else {
      assert (x + y)[0] == x[0] && (x + y)[1..] == x[1..] + y;
      RunFold(Step(st, x[0]), x[1..], y);
    }
  }

  lemma {:induction false} FoldFold(st: State, x: string, y: string)
    ensures Fold(st, x + y) == Fold(Fold(st, x), y)
    decreases |x|
  {
    if x == "" {
      assert x + y == y;
    } else {
      assert (x + y)[0] == x[0] && (x + y)[1..] == x[1..] + y;
      FoldFold(Step(st, x[0]), x[1..], y);
    }
  }

  lemma InsideLine(st: State, c: char)
    requires !st.LineStart? && c != '\n'
    ensures !Step(st, c).LineStart?
  {
  }

  /** Within a line nothing is trimmed any more. */
  lemma {:induction false} ReadFold(st: State, x: string, y: string)
    requires !st.LineStart? && '\n' !in x
    ensures Read(st, x + y) == Read(Fold(st, x), y) && !Fold(st, x).LineStart?
    decreases |x|
  {
    if x == "" {
      assert x + y == y;
    } else {
      assert x[0] in x;
      assert forall c :: c in x[1..] ==> c in x;
      hide Step;
      ReadStep(st, x, y);
      InsideLine(st, x[0]);
      ReadFold(Step(st, x[0]), x[1..], y);
    }
  }

  lemma {:induction false} RStripConcat(s: string, blanks: string)
    requires Blank(blanks)
    ensures RStrip(s + blanks) == RStrip(s)
  {
    hide IsSpace;
    if blanks == "" {
      assert s + blanks == s;
    } else {
      var last := |blanks| - 1;
      assert (s + blanks)[..|s + blanks| - 1] == s + blanks[..last];
      RStripConcat(s, blanks[..last]);
    }
  }

  lemma BlankTail(blanks: string)
    requires Blank(blanks) && '\n' !in blanks && blanks != ""
    ensures IsSpace(blanks[0]) && blanks[0] != '\n'
    ensures Blank(blanks[1..]) && '\n' !in blanks[1..]
  {
    assert blanks[0] in blanks;
    assert forall d :: d in blanks[1..] ==> d in blanks;
    assert forall i :: 0 <= i < |blanks| - 1 ==> blanks[1..][i] == blanks[i + 1];
  }

  lemma SettledBlank(st: State, c: char)
    requires Settled(st) && !st.LineStart? && !st.Comment? && IsSpace(c) && c != '\n'
    ensures var w := Step(st, c);
            Settled(w) && !w.LineStart? && !w.Comment? && Finish(w) == Finish(st) &&
            Step(w, '\n') == Step(st, '\n')
  {
    assert Blank([c]);
    assert !IsQuote(c) && c != '\\' && c != '=';
    hide IsSpace;
    if st.Bare? {
      RStripConcat(st.out, [c]);
    }
  }

  lemma {:induction false} SettledBlanks(st: State, blanks: string)
    requires Settled(st) && !st.LineStart? && !st.Comment?
    requires Blank(blanks) && '\n' !in blanks
    ensures var w := Fold(st, blanks);
            Settled(w) && !w.LineStart? && Finish(w) == Finish(st) &&
            Step(w, '\n') == Step(st, '\n')
    decreases |blanks|
  {
    if blanks != "" {
      var c := blanks[0];
      BlankTail(blanks);
      SettledBlank(st, c);
      hide IsSpace, Blank, Step, Finish;
      SettledBlanks(Step(st, c), blanks[1..]);
    }
  }

  lemma FirstStepIsKey(done: seq<Entry>, c: char)
    requires StartsEntry(c)
    ensures var st := Step(LineStart(done), c); !st.LineStart? && !st.Comment?
  {
  }

  lemma {:induction false} NoCommentInside(st: State, x: string)
    requires !st.LineStart? && !st.Comment? && '\n' !in x
    ensures !Fold(st, x).LineStart? && !Fold(st, x).Comment?
    decreases |x|
  {
    if x != "" {
      assert x[0] in x;
      assert forall c :: c in x[1..] ==> c in x;
      NoCommentInside(Step(st, x[0]), x[1..]);
    }
  }

  /** The first line of an entry, read by both. */
  lemma EntryLineBoth(done: seq<Entry>, line: string, rest: string)
    requires line != "" && '\n' !in line && StartsEntry(line[0])
    requires rest == "" || rest[0] == '\n'
    ensures RStrip(line) != ""
    ensures var u := Fold(LineStart(done), RStrip(line));
            && !u.LineStart? && !u.Comment?
            && Read(LineStart(done), line + rest) == Read(u, rest)
            && Run(LineStart(done), line + rest) ==
                 Run(Fold(u, line[|RStrip(line)|..]), rest)
            && Fold(LineStart(done), line) == Fold(u, line[|RStrip(line)|..])
  {
    hide IsSpace, Read, Run, Step, LStrip, RStrip, TrimLine, LineEnd, Blank, StartsEntry;
    var t := RStrip(line);
    var blanks := line[|t|..];
    RStripParts(line);
    NotBlankStart(line);
    assert line[0] == t[0];
    FirstStepIsKey(done, t[0]);
    ReadTrimmedLine(done, line, rest);
    assert forall c :: c in t[1..] ==> c in t;
    ReadFold(Step(LineStart(done), t[0]), t[1..], rest);
    NoCommentInside(Step(LineStart(done), t[0]), t[1..]);
    RunFold(LineStart(done), line, rest);
    FoldFold(LineStart(done), t, blanks);
  }

  lemma ReadTrimmedLine(done: seq<Entry>, line: string, rest: string)
    requires line != "" && '\n' !in line && StartsEntry(line[0])
    requires rest == "" || rest[0] == '\n'
    requires RStrip(line) != "" && RStrip(line)[0] == line[0]
    ensures Read(LineStart(done), line + rest) ==
            Read(Step(LineStart(done), line[0]), RStrip(line)[1..] + rest)
  {
    hide IsSpace, Read, Step, RStrip, TrimLine, StartsEntry;
    var t := RStrip(line);
    assert (line + rest)[0] == line[0];
    TrimmedLine(line, rest);
    assert (t + rest)[1..] == t[1..] + rest && (t + rest)[0] == t[0];
    ReadTrimmed(done, line + rest);
  }

  lemma NotBlankStart(line: string)
    requires line != "" && StartsEntry(line[0])
    ensures !Blank(line)
  {
  }

  lemma ReadTrimmed(done: seq<Entry>, s: string)
    requires s != "" && StartsEntry(s[0]) && TrimLine(s) != ""
    ensures Read(LineStart(done), s) == Read(Step(LineStart(done), TrimLine(s)[0]), TrimLine(s)[1..])
  {
    hide TrimLine, Step, IsSpace;
  }

  /** The pieces of a text that starts with an entry. */
  lemma EntryPieces(st: State, s: string)
    requires s != "" && st.LineStart? && StartsEntry(s[0])
    ensures var e := LineEnd(s);
            var line := s[..e];
            && e > 0 && s == line + s[e..] && '\n' !in line && line[0] == s[0]
            && (s[e..] == "" || s[e..][0] == '\n')
            && (Clean(st, s) <==>
                TrimsWell(Fold(st, RStrip(line)), line, s[e..]) && Clean(Fold(st, line), s[e..]))
  {
    assert IsSpace('\n');
  }

  lemma {:induction false} BlanksAtLineStart(done: seq<Entry>, blanks: string, rest: string)
    requires Blank(blanks)
    ensures Run(LineStart(done), blanks + rest) == Run(LineStart(done), rest)
    ensures Clean(LineStart(done), blanks + rest) <==> Clean(LineStart(done), rest)
    decreases |blanks|
  {
    if blanks == "" {
      assert blanks + rest == rest;
    } else {
      var c := blanks[0];
      assert IsSpace(c) && (blanks + rest)[0] == c;
      assert (blanks + rest)[1..] == blanks[1..] + rest;
      assert Blank(blanks[1..]);
      hide IsSpace;
      BlanksAtLineStart(done, blanks[1..], rest);
    }
  }

  /** The blanks after an unpaired backslash end up in the value, and are trimmed there. */
  lemma {:induction false} EscapedBlanks(done: seq<Entry>, key: string, out: string, blanks: string)
    requires Blank(blanks) && '\n' !in blanks
    ensures Fold(Bare(done, key, out), blanks) == Bare(done, key, out + blanks)
    ensures blanks != "" ==>
              Fold(BareEscape(done, key, out), blanks) == Bare(done, key, out + blanks)
    decreases |blanks|
  {
    if blanks == "" {
      assert out + blanks == out;
    } else {
      var c := blanks[0];
      assert IsSpace(c) && c in blanks;
      assert c != '\\';
      assert forall d :: d in blanks[1..] ==> d in blanks;
      assert Blank(blanks[1..]);
      hide IsSpace;
      EscapedBlanks(done, key, out + [c], blanks[1..]);
      assert out + [c] + blanks[1..] == out + blanks;
    }
  }

  /** A continuation onto a blank line adds nothing to the value. */
  lemma ContinueOnBlankLine(done: seq<Entry>, key: string, out: string, blanks: string,
                            rest: string)
    requires Blank(blanks) && '\n' !in blanks && (rest == "" || rest[0] == '\n')
    ensures Read(Bare(done, key, out), blanks + rest) ==
            if rest == "" then Ok(done + [Entry(key, RStrip(out))])
            else Read(LineStart(done + [Entry(key, RStrip(out))]), rest[1..])
  {
    hide Blank, RStrip, IsSpace;
    EscapedBlanks(done, key, out, blanks);
    ReadFold(Bare(done, key, out), blanks, rest);
    RStripConcat(out, blanks);
  }

  /** What follows an escaped blank at the end of a line, for both readings. */
  lemma AfterEscapedBlank(done: seq<Entry>, key: string, out: string, blanks: string, rest: string)
    requires Blank(blanks) && '\n' !in blanks && blanks != ""
    requires rest == "" || rest[0] == '\n'
    ensures var w := Fold(BareEscape(done, key, out), blanks);
            var done' := done + [Entry(key, RStrip(out))];
            if rest == "" then
              Run(w, rest) == Read(BareEscape(done, key, out), rest) == Ok(done')
            else
              && Run(w, rest) == Run(LineStart(done'), rest[1..])
              && Read(BareEscape(done, key, out), rest) == Read(Bare(done, key, out), rest[1..])
              && (Clean(w, rest) <==> Clean(LineStart(done'), rest[1..]))
  {
    hide Blank, RStrip, IsSpace, Read, Run, Clean;
    EscapedBlanks(done, key, out, blanks);
    RStripConcat(out, blanks);
    var w := Bare(done, key, out + blanks);
    if rest == "" {
      AtTheEnd(w);
      AtTheEnd(BareEscape(done, key, out));
    } else {
      OneStep(w, rest);
      OneStep(BareEscape(done, key, out), rest);
    }
  }

  lemma AtTheEnd(st: State)
    ensures Run(st, "") == Read(st, "") == Finish(st)
  {
  }

  lemma OneStep(st: State, s: string)
    requires s != "" && !st.LineStart?
    ensures Run(st, s) == Run(Step(st, s[0]), s[1..])
    ensures Read(st, s) == Read(Step(st, s[0]), s[1..])
    ensures Clean(st, s) <==> Clean(Step(st, s[0]), s[1..])
  {
  }

  /**
   On every clean text the line-indexed parser has exactly the documented
   meaning: the same entries in the same order, or the same fault.
   */
  lemma {:induction false} ReadIsRun(st: State, s: string)
    requires Clean(st, s)
    ensures Read(st, s) == Run(st, s)
    decreases |s|
  {
    if s == "" {
    } else if st.LineStart? && StartsEntry(s[0]) {
      var e := LineEnd(s);
      var line, rest := s[..e], s[e..];
      EntryPieces(st, s);
      EntryLineBoth(st.done, line, rest);
      var u := Fold(st, RStrip(line));
      var blanks := line[|RStrip(line)|..];
      var w := Fold(u, blanks);
      RStripParts(line);
      hide IsSpace, Read, Run, Step, Clean, RStrip, StartsEntry, Blank, BlankLineNext;
      if RStrip(line) == line {
        assert blanks == "";
        ReadIsRun(w, rest);
      } else if Settled(u) {
        ReadIsRun(w, rest);
        SettledBlanks(u, blanks);
        SameAtEndOfLine(u, w, rest);
      } else {
        AfterEscapedBlank(u.done, u.key, u.out, blanks, rest);
        if rest != "" {
          BlankLineResumes(u.done, u.key, u.out, rest);
          var after := rest[1..][LineEnd(rest[1..])..];
          if after != "" {
            ReadIsRun(LineStart(u.done + [Entry(u.key, RStrip(u.out))]), after[1..]);
          }
        }
      }
    } else {
      hide IsSpace, Step;
      ReadIsRun(Step(st, s[0]), s[1..]);
    }
  }

  /** On a blank line the two readings, out of step after an escaped blank, meet again. */
  lemma BlankLineResumes(done: seq<Entry>, key: string, out: string, rest: string)
    requires rest != "" && rest[0] == '\n' && BlankLineNext(rest)
    ensures var done' := done + [Entry(key, RStrip(out))];
            var after := rest[1..][LineEnd(rest[1..])..];
            if after == "" then
              Read(Bare(done, key, out), rest[1..]) == Run(LineStart(done'), rest[1..])
            else
              && Read(Bare(done, key, out), rest[1..]) == Read(LineStart(done'), after[1..])
              && Run(LineStart(done'), rest[1..]) == Run(LineStart(done'), after[1..])
              && (Clean(LineStart(done'), rest[1..]) <==> Clean(LineStart(done'), after[1..]))
  {
    var e := LineEnd(rest[1..]);
    var blanks, after := rest[1..][..e], rest[1..][e..];
    assert rest[1..] == blanks + after;
    NewlineIsSpace();
    hide Blank, RStrip, IsSpace, Read;
    ContinueOnBlankLine(done, key, out, blanks, after);
    var done' := done + [Entry(key, RStrip(out))];
    BlanksAtLineStart(done', blanks, after);
    if after != "" {
      NewlineIsBlank();
      assert after == "\n" + after[1..];
      BlanksAtLineStart(done', "\n", after[1..]);
    }
  }

  lemma NewlineIsBlank()
    ensures Blank("\n")
  {
    NewlineIsSpace();
  }

  lemma SameAtEndOfLine(u: State, w: State, rest: string)
    requires !u.LineStart? && !w.LineStart? && (rest == "" || rest[0] == '\n')
    requires Finish(u) == Finish(w) && Step(u, '\n') == Step(w, '\n')
    ensures Read(u, rest) == Read(w, rest)
  {
  }

  lemma {:induction false} TrimmedIsClean(st: State, s: string)
    requires NoTrailingBlanks(s)
    ensures Clean(st, s)
    decreases |s|
  {
    hide IsSpace;
    if s == "" {
    } else if st.LineStart? && StartsEntry(s[0]) {
      assert IsSpace('\n') by { NewlineIsSpace(); }
      var e := LineEnd(s);
      var line := s[..e];
      assert e > 0;
      assert line[e - 1] == s[e - 1] && line[e - 1] in line;
      assert RStrip(line) == line;
      assert forall i :: 0 <= i < |s| - e ==> s[e..][i] == s[e + i];
      TrimmedIsClean(Fold(st, line), s[e..]);
    } else {
      assert forall i :: 0 <= i < |s| - 1 ==> s[1..][i] == s[1 + i];
      TrimmedIsClean(Step(st, s[0]), s[1..]);
    }
  }

  lemma NewlineIsSpace()
    ensures IsSpace('\n')
  {
  }

  // ---------------------------------------------------------------------
  // On accepted texts there is no other agreement
  // ---------------------------------------------------------------------

  /** Either reading: the parser's, or the grammar's. */
  function Reading(trims: bool, st: State, s: string): Parsed {
    if trims then Read(st, s) else Run(st, s)
  }

  lemma ReadingStep(trims: bool, st: State, s: string)
    requires s != "" && !st.LineStart?
    ensures Reading(trims, st, s) == Reading(trims, Step(st, s[0]), s[1..])
  {
  }

  lemma StepKeepsDone(st: State, c: char)
    requires !st.Rejected?
    ensures var n := Step(st, c);
            n.Rejected? || (st.done <= n.done && (n.done == st.done || n.LineStart?))
  {
  }

  /** Entries once read stay as they are. */
  lemma {:induction false} DoneStays(trims: bool, st: State, s: string)
    requires !st.Rejected?
    ensures Reading(trims, st, s).Ok? ==> st.done <= Reading(trims, st, s).value
    decreases |s|
  {
    hide Step;
    if s == "" {
      FinishKeepsDone(st);
    } else {
      var t := if trims && st.LineStart? && StartsEntry(s[0]) then TrimLine(s) else s;
      hide IsSpace, TrimLine, StartsEntry;
      StepKeepsDone(st, t[0]);
      if Step(st, t[0]).Rejected? {
        RejectedReading(trims, Step(st, t[0]), t[1..]);
      } else {
        DoneStays(trims, Step(st, t[0]), t[1..]);
      }
    }
  }

  lemma FinishKeepsDone(st: State)
    requires !st.Rejected?
    ensures Finish(st).Ok? ==> st.done <= Finish(st).value
  {
  }

  lemma {:induction false} RejectedReading(trims: bool, st: State, s: string)
    requires st.Rejected?
    ensures Reading(trims, st, s).Err?
    decreases |s|
  {
    if s != "" {
      RejectedReading(trims, st, s[1..]);
    }
  }

  /** Inside or right after the same quotes, with values of different lengths so far. */
  predicate InStep(x: State, y: State) {
    (x.Quoted? && y.Quoted? && x.done == y.done && x.key == y.key && x.quote == y.quote &&
     |x.out| != |y.out|) ||
    (x.QuotedEscape? && y.QuotedEscape? && x.done == y.done && x.key == y.key &&
     |x.out| != |y.out|) ||
    (x.AfterQuote? && y.AfterQuote? && x.done == y.done && x.key == y.key &&
     |x.out| != |y.out|)
  }

  /** Such readings never come to the same entries. */
  lemma {:induction false} QuotedValuesDiffer(x: State, y: State, s: string)
    requires InStep(x, y)
    ensures Run(y, s).Ok? ==> Read(x, s) != Run(y, s)
    decreases |s|
  {
    if s == "" {
      if x.AfterQuote? {
        assert Finish(x).value[|x.done|].value == x.out;
        assert Finish(y).value[|y.done|].value == y.out;
      }
    } else {
      var x', y' := Step(x, s[0]), Step(y, s[0]);
      ReadingStep(true, x, s);
      ReadingStep(false, y, s);
      if x'.LineStart? {
        hide Step, Read, Run;
        DoneStays(true, x', s[1..]);
        DoneStays(false, y', s[1..]);
        var r, q := Read(x', s[1..]), Run(y', s[1..]);
        if q.Ok? && r.Ok? {
          assert r.value[|x.done|] == x'.done[|x.done|];
          assert q.value[|x.done|] == y'.done[|x.done|];
        }
      } else if x'.Rejected? {
        RejectedReading(false, y', s[1..]);
      } else {
        hide Step, Read, Run;
        QuotedValuesDiffer(x', y', s[1..]);
      }
    }
  }

  lemma RStripKeeps(s: string, a: string)
    requires a <= s && a != "" && !IsSpace(a[|a| - 1])
    ensures |RStrip(s)| >= |a|
  {
    hide IsSpace;
    var kept := |RStrip(s)|;
    forall i | kept <= i < |s|
      ensures IsSpace(s[i])
    {
      assert s[kept..][i - kept] == s[i];
    }
    assert s[|a| - 1] == a[|a| - 1];
  }

  /** A value read so far, up to a character that is no blank, stays in the value. */
  lemma {:induction false} BareValueGrows(st: State, s: string, a: string)
    requires (st.Bare? || st.BareEscape?) && a <= st.out && a != "" && !IsSpace(a[|a| - 1])
    ensures var r := Read(st, s);
            r.Ok? ==> |r.value| > |st.done| && |r.value[|st.done|].value| >= |a|
    decreases |s|
  {
    hide IsSpace;
    RStripKeeps(st.out, a);
    if s != "" {
      var n := Step(st, s[0]);
      ReadingStep(true, st, s);
      if n.LineStart? {
        hide Step, Read, RStrip;
        DoneStays(true, n, s[1..]);
        assert n.done[|st.done|].value == RStrip(st.out);
      } else {
        hide Step, Read, RStrip;
        BareValueGrows(n, s[1..], a);
      }
    }
  }

  /** No accepted entry starts with a backslash. */
  lemma {:induction false} BackslashIsNoKey(done: seq<Entry>, key: string, s: string)
    requires key != "" && key[0] == '\\'
    ensures Run(Key(done, key), s).Err?
    decreases |s|
  {
    if s != "" {
      if s[0] == '\n' {
        RejectedReading(false, Rejected(MissingEquals), s[1..]);
      } else if s[0] == '=' {
        KeyEndRejects(done, key);
        RejectedReading(false, KeyEnd(done, key), s[1..]);
      } else {
        BackslashIsNoKey(done, key + [s[0]], s[1..]);
      }
    }
  }

  lemma KeyEndRejects(done: seq<Entry>, key: string)
    requires key != "" && key[0] == '\\'
    ensures KeyEnd(done, key).Rejected?
  {
    hide IsSpace;
    var k := RStrip(key);
    assert k != "" ==> k[0] == key[0];
  }

  /** The first character of an accepted line that is not blank is no backslash. */
  lemma LineStartsOtherwise(done: seq<Entry>, c: char, rest: string)
    requires !IsSpace(c) && Run(LineStart(done), [c] + rest).Ok?
    ensures c != '\\'
  {
    assert ([c] + rest)[1..] == rest;
    if c == '\\' {
      BackslashIsNoKey(done, [c], rest);
    }
  }

  /** A line that is not blank: its blanks, and the first character that is none. */
  lemma FirstSolid(line: string, after: string) returns (blanks: string, c: char, more: string)
    requires !Blank(line) && '\n' !in line
    ensures line + after == blanks + ([c] + more) && Blank(blanks) && '\n' !in blanks
    ensures !IsSpace(c) && c != '\n'
  {
    hide IsSpace, Blank, LStrip;
    LStripParts(line);
    var body := LStrip(line);
    blanks, c, more := line[..|line| - |body|], body[0], body[1..] + after;
    assert c in body;
    FirstOfBody(blanks, body, after);
  }

  lemma FirstOfBody(blanks: string, body: string, after: string)
    requires body != ""
    ensures blanks + body + after == blanks + ([body[0]] + (body[1..] + after))
  {
    assert body == [body[0]] + body[1..];
  }

  /** The value goes on with whatever the joined line holds. */
  lemma JoinedValueGrows(done: seq<Entry>, key: string, out: string, blanks: string, c: char,
                         more: string)
    requires Blank(blanks) && '\n' !in blanks && !IsSpace(c) && c != '\n' && c != '\\'
    ensures var r := Read(Bare(done, key, out), blanks + ([c] + more));
            r.Ok? ==> |r.value| > |done| && |r.value[|done|].value| > |out|
  {
    hide IsSpace, Blank, Read;
    EscapedBlanks(done, key, out, blanks);
    ReadFold(Bare(done, key, out), blanks, [c] + more);
    var st := Bare(done, key, out + blanks);
    assert ([c] + more)[1..] == more && ([c] + more)[0] == c;
    ReadingStep(true, st, [c] + more);
    BareValueGrows(Bare(done, key, out + blanks + [c]), more, out + blanks + [c]);
  }

  /**
   An escaped blank at the end of a line, the next line not being blank: the
   parser takes that line into the value.
   */
  lemma JoinedLineDiffers(done: seq<Entry>, key: string, out: string, rest: string)
    requires rest != "" && rest[0] == '\n' && !BlankLineNext(rest)
    ensures var g := Run(LineStart(done + [Entry(key, RStrip(out))]), rest[1..]);
            g.Ok? ==> Read(Bare(done, key, out), rest[1..]) != g
  {
    var end := LineEnd(rest[1..]);
    var blanks, c, more := FirstSolid(rest[1..][..end], rest[1..][end..]);
    assert rest[1..] == rest[1..][..end] + rest[1..][end..];
    hide IsSpace, Blank, RStrip, Read, Run, Clean, BlankLineNext;
    var done' := done + [Entry(key, RStrip(out))];
    BlanksAtLineStart(done', blanks, [c] + more);
    var g := Run(LineStart(done'), rest[1..]);
    if g.Ok? {
      LineStartsOtherwise(done', c, more);
      JoinedValueGrows(done, key, out, blanks, c, more);
      DoneStays(false, LineStart(done'), rest[1..]);
      assert g.value[|done|] == done'[|done|];
    }
  }

  /** The blanks that the parser drops, inside quotes. */
  lemma {:induction false} QuotedBlanks(st: State, blanks: string)
    requires (st.Quoted? && IsQuote(st.quote)) || (st.QuotedEscape? && blanks != "")
    requires Blank(blanks) && '\n' !in blanks
    ensures var quote := if st.Quoted? then st.quote else '"';
            var out := if st.Quoted? then st.out else st.out + ['\\'];
            Fold(st, blanks) == Quoted(st.done, st.key, quote, out + blanks)
    decreases |blanks|
  {
    if blanks == "" {
      assert st.out + blanks == st.out;
    } else {
      var c := blanks[0];
      assert IsSpace(c) && c in blanks;
      assert !IsQuote(c) && !NeedsEscape(c) && c != '\\' && c != '\n';
      assert forall d :: d in blanks[1..] ==> d in blanks;
      assert Blank(blanks[1..]);
      hide IsSpace;
      QuotedBlanks(Step(st, c), blanks[1..]);
      var out := if st.Quoted? then st.out else st.out + ['\\'];
      assert out + [c] + blanks[1..] == out + blanks;
      assert st.QuotedEscape? ==> st.out + ['\\', c] == out + [c];
    }
  }

  /** Where trimming makes a difference at an entry, an accepted text is read otherwise. */
  lemma TrimmedEntryDiffers(u: State, line: string, rest: string)
    requires rest == "" || rest[0] == '\n'
    requires u.Quoted? ==> IsQuote(u.quote)
    requires '\n' !in line && !TrimsWell(u, line, rest)
    ensures var g := Run(Fold(u, line[|RStrip(line)|..]), rest);
            g.Ok? ==> Read(u, rest) != g
  {
    var blanks := line[|RStrip(line)|..];
    RStripParts(line);
    assert blanks != "";
    assert forall c :: c in blanks ==> c in line;
    hide IsSpace, Blank, RStrip, BlankLineNext;
    if u.BareEscape? {
      AfterEscapedBlank(u.done, u.key, u.out, blanks, rest);
      EmptyIsBlankNext();
      JoinedLineDiffers(u.done, u.key, u.out, rest);
    } else {
      QuotedBlanks(u, blanks);
      var w := Fold(u, blanks);
      if u.Quoted? {
        hide Read, Run;
        QuotedValuesDiffer(u, w, rest);
      } else if rest != "" {
        ReadingStep(true, u, rest);
        ReadingStep(false, w, rest);
        assert Step(u, '\n') == Quoted(u.done, u.key, '"', u.out);
        hide Read, Run;
        QuotedValuesDiffer(Step(u, '\n'), Step(w, '\n'), rest[1..]);
      }
    }
  }

  lemma EmptyIsBlankNext()
    ensures BlankLineNext("")
  {
  }

  /** The quotes of a quoted state are quotes. */
  predicate ProperQuote(st: State) {
    st.Quoted? ==> IsQuote(st.quote)
  }

  lemma {:induction false} FoldProperQuote(st: State, s: string)
    requires ProperQuote(st)
    ensures ProperQuote(Fold(st, s))
    decreases |s|
  {
    if s != "" {
      StepProperQuote(st, s[0]);
      hide Step;
      FoldProperQuote(Step(st, s[0]), s[1..]);
    }
  }

  lemma StepProperQuote(st: State, c: char)
    requires ProperQuote(st)
    ensures ProperQuote(Step(st, c))
  {
  }

  /** Where the grammar accepts an unclean text, the parser reads something else. */
  lemma {:induction false} UncleanDiffers(st: State, s: string)
    requires ProperQuote(st) && !Clean(st, s) && Run(st, s).Ok?
    ensures Read(st, s) != Run(st, s)
    decreases |s|
  {
    if st.LineStart? && StartsEntry(s[0]) {
      var e := LineEnd(s);
      var line, rest := s[..e], s[e..];
      EntryPieces(st, s);
      EntryLineBoth(st.done, line, rest);
      var u := Fold(st, RStrip(line));
      var blanks := line[|RStrip(line)|..];
      var w := Fold(u, blanks);
      RStripParts(line);
      FoldProperQuote(st, RStrip(line));
      FoldProperQuote(u, blanks);
      hide IsSpace, Read, Run, Step, Clean, RStrip, StartsEntry, Blank, BlankLineNext, ProperQuote;
      if !TrimsWell(u, line, rest) {
        ProperQuoteIs(u);
        TrimmedEntryDiffers(u, line, rest);
      } else if RStrip(line) == line {
        assert blanks == "";
        UncleanDiffers(w, rest);
      } else if Settled(u) {
        UncleanDiffers(w, rest);
        SettledBlanks(u, blanks);
        SameAtEndOfLine(u, w, rest);
      } else {
        UncleanLater(u, blanks, rest);
        var after := rest[1..][LineEnd(rest[1..])..];
        var done' := u.done + [Entry(u.key, RStrip(u.out))];
        ProperAtLineStart(done');
        UncleanDiffers(LineStart(done'), after[1..]);
      }
    } else {
      StepProperQuote(st, s[0]);
      hide IsSpace, Step, ProperQuote;
      UncleanDiffers(Step(st, s[0]), s[1..]);
    }
  }

  lemma ProperQuoteIs(st: State)
    requires ProperQuote(st)
    ensures st.Quoted? ==> IsQuote(st.quote)
  {
  }

  lemma ProperAtLineStart(done: seq<Entry>)
    ensures ProperQuote(LineStart(done))
  {
  }

  /** After an escaped blank and a blank line, what is unclean comes later. */
  lemma UncleanLater(u: State, blanks: string, rest: string)
    requires u.BareEscape? && Blank(blanks) && '\n' !in blanks && blanks != ""
    requires (rest == "" || rest[0] == '\n') && BlankLineNext(rest)
    requires !Clean(Fold(u, blanks), rest)
    ensures var after := rest[1..][LineEnd(rest[1..])..];
            var done' := u.done + [Entry(u.key, RStrip(u.out))];
            && rest != "" && after != "" && |after| < |rest|
            && !Clean(LineStart(done'), after[1..])
            && Read(u, rest) == Read(LineStart(done'), after[1..])
            && Run(Fold(u, blanks), rest) == Run(LineStart(done'), after[1..])
  {
    NothingIsClean(Fold(u, blanks));
    AfterEscapedBlank(u.done, u.key, u.out, blanks, rest);
    BlankLineResumes(u.done, u.key, u.out, rest);
    var done' := u.done + [Entry(u.key, RStrip(u.out))];
    var text := rest[1..];
    if text[LineEnd(text)..] == "" {
      assert text == text[..LineEnd(text)] + "";
      BlanksAtLineStart(done', text[..LineEnd(text)], "");
      NothingIsClean(LineStart(done'));
    }
  }

  lemma NothingIsClean(st: State)
    ensures Clean(st, "")
  {
  }

  /**
   `parse` and the documented grammar. On every clean text, and so on every text
   no line of which ends in a blank, it returns the documented meaning; and on
   texts that the grammar accepts, only on clean ones.
   */
  method ParseClean(text: string) returns (r: Parsed)
    ensures Clean(LineStart([]), text) ==> r == Meaning(text)
    ensures NoTrailingBlanks(text) ==> r == Meaning(text)
    ensures Meaning(text).Ok? ==> (r == Meaning(text) <==> Clean(LineStart([]), text))
  {
    r := Parse(text);
    if NoTrailingBlanks(text) {
      TrimmedIsClean(LineStart([]), text);
    }
    if Clean(LineStart([]), text) {
      ReadIsRun(LineStart([]), text);
    } else if Meaning(text).Ok? {
      UncleanDiffers(LineStart([]), text);
    }
  }

  // ---------------------------------------------------------------------
  // What an accepted file guarantees
  // ---------------------------------------------------------------------

  /** Valid keys, none of them twice. */
  predicate ProperEntries(entries: seq<Entry>) {
    (forall i :: 0 <= i < |entries| ==> ValidKey(entries[i].key)) &&
    (forall i, j :: 0 <= i < j < |entries| ==> entries[i].key != entries[j].key)
  }

  predicate ProperState(st: State) {
    match st
    case LineStart(done) => ProperEntries(done)
    case Comment(done) => ProperEntries(done)
    case Key(done, _) => ProperEntries(done)
    case BeforeValue(done, key) => ProperNext(done, key)
    case Bare(done, key, _) => ProperNext(done, key)
    case BareEscape(done, key, _) => ProperNext(done, key)
    case Quoted(done, key, _, _) => ProperNext(done, key)
    case QuotedEscape(done, key, _) => ProperNext(done, key)
    case AfterQuote(done, key, _) => ProperNext(done, key)
    case Rejected(_) => true
  }

  predicate ProperNext(done: seq<Entry>, key: string) {
    ProperEntries(done) && ValidKey(key) && !HasKey(done, key)
  }

  lemma ProperCommit(done: seq<Entry>, key: string, value: string)
    requires ProperNext(done, key)
    ensures ProperEntries(done + [Entry(key, value)])
  {
    hide ValidKey;
  }

  lemma ProperStep(st: State, c: char)
    requires ProperState(st)
    ensures ProperState(Step(st, c))
    ensures Finish(st).Ok? ==> ProperEntries(Finish(st).value)
  {
    hide ProperEntries, ValidKey, HasKey, IsSpace, RStrip;
    forall done, key, value | ProperNext(done, key)
      ensures ProperEntries(done + [Entry(key, value)])
    {
      ProperCommit(done, key, value);
    }
  }

  /** Every accepted text yields valid keys and no key twice. */
  lemma {:induction false} AcceptedIsProper(st: State, s: string)
    requires ProperState(st)
    ensures Read(st, s).Ok? ==> ProperEntries(Read(st, s).value)
    decreases |s|
  {
    hide ProperEntries, ProperState, StartsEntry, TrimLine, Step, Finish;
    if s == "" {
      ProperStep(st, '\n');
    } else if st.LineStart? && StartsEntry(s[0]) {
      var t := ReadTrimmedText(s);
      ProperStep(st, t[0]);
      AcceptedIsProper(Step(st, t[0]), t[1..]);
    } else {
      ProperStep(st, s[0]);
      AcceptedIsProper(Step(st, s[0]), s[1..]);
    }
  }

  lemma ReadTrimmedText(s: string) returns (t: string)
    requires s != "" && StartsEntry(s[0])
    ensures t == TrimLine(s) && t != "" && |t| <= |s|
  {
    t := TrimLine(s);
  }
}
