/** Splitting a text at a separator, and joining the pieces again. */
module Pieces {
  predicate Free(s: string, sep: char) {
    forall i :: 0 <= i < |s| ==> s[i] != sep
  }

  /** `s.split(sep)`: the text between separators, empty pieces included. */
  function Split(s: string, sep: char): (r: seq<string>)
    ensures |r| > 0
  {
    if s == [] then [[]]
    else
      var rest := Split(s[1..], sep);
      if s[0] == sep then [[]] + rest else [[s[0]] + rest[0]] + rest[1..]
  }

  /** `sep.join(pieces)` */
  function Joined(pieces: seq<string>, sep: char): string {
    if pieces == [] then ""
    else if |pieces| == 1 then pieces[0]
    else pieces[0] + [sep] + Joined(pieces[1..], sep)
  }

  predicate AllFree(pieces: seq<string>, sep: char) {
    forall i :: 0 <= i < |pieces| ==> Free(pieces[i], sep)
  }

  lemma {:induction false} SplitIsFree(s: string, sep: char)
    ensures AllFree(Split(s, sep), sep)
  {
    if s != [] {
      SplitIsFree(s[1..], sep);
      var r, rest := Split(s, sep), Split(s[1..], sep);
      assert Free(rest[0], sep);
      forall i | 0 <= i < |r|
        ensures Free(r[i], sep)
      {
        if s[0] == sep {
          assert i > 0 ==> r[i] == rest[i - 1];
        } else {
          assert i > 0 ==> r[i] == rest[i];
        }
      }
    }
  }

  lemma {:induction false} FirstPiece(a: string, rest: string, sep: char)
    requires Free(a, sep)
    ensures Split(a + [sep] + rest, sep) == [a] + Split(rest, sep)
  {
    if a == [] {
      assert a + [sep] + rest == [sep] + rest;
      assert ([sep] + rest)[1..] == rest;
    } else {
      FirstPiece(a[1..], rest, sep);
      assert (a + [sep] + rest)[1..] == a[1..] + [sep] + rest;
      assert [a[0]] + a[1..] == a;
    }
  }

  lemma {:induction false} OnlyPiece(a: string, sep: char)
    requires Free(a, sep)
    ensures Split(a, sep) == [a]
  {
    if a != [] {
      OnlyPiece(a[1..], sep);
      assert [a[0]] + a[1..] == a;
    }
  }

  /** Pieces without separators come back; no pieces come back as one empty one. */
  lemma {:induction false} SplitOfJoined(pieces: seq<string>, sep: char)
    requires AllFree(pieces, sep)
    ensures Split(Joined(pieces, sep), sep) == if pieces == [] then [""] else pieces
  {
    if |pieces| == 1 {
      OnlyPiece(pieces[0], sep);
    } else if pieces != [] {
      SplitOfJoined(pieces[1..], sep);
      FirstPiece(pieces[0], Joined(pieces[1..], sep), sep);
      assert pieces == [pieces[0]] + pieces[1..];
    }
  }

  /** Every character of a joined text is the separator or in a piece. */
  lemma {:induction false} JoinedChars(pieces: seq<string>, sep: char, c: char)
    requires c in Joined(pieces, sep)
    ensures c == sep || exists i :: 0 <= i < |pieces| && c in pieces[i]
  {
    if |pieces| > 1 && c != sep && c !in pieces[0] {
      JoinedChars(pieces[1..], sep, c);
      var i :| 0 <= i < |pieces| - 1 && c in pieces[1..][i];
      assert c in pieces[i + 1];
    }
  }
}
