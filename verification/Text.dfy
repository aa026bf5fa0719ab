/** Splitting text at a separator and joining it back, as JavaScript's and Python's `split`/`join` do. */
module Text {

  /** `t.split(sep)` for a one-character separator: always at least one piece. */
  function Split(t: string, sep: char): (r: seq<string>)
    ensures |r| >= 1
  {
    if t == "" then [""]
    else
      var rest := Split(t[1..], sep);
      if t[0] == sep then [""] + rest else [[t[0]] + rest[0]] + rest[1..]
  }

  /** `sep.join(pieces)`. */
  function Join(pieces: seq<string>, sep: char): string
  {
    if pieces == [] then ""
    else if |pieces| == 1 then pieces[0]
    else pieces[0] + [sep] + Join(pieces[1..], sep)
  }

  /** Joining what was split gives the text back. */
  lemma {:induction false} JoinSplit(t: string, sep: char)
    ensures Join(Split(t, sep), sep) == t
  {
    if t != "" {
      JoinSplit(t[1..], sep);
      var rest := Split(t[1..], sep);
      if t[0] == sep {
        assert Split(t, sep)[1..] == rest;
      } else {
        assert Split(t, sep)[1..] == rest[1..];
      }
    }
  }

  /** No piece of a split text holds the separator. */
  lemma {:induction false} SplitPieces(t: string, sep: char)
    ensures forall i :: 0 <= i < |Split(t, sep)| ==> sep !in Split(t, sep)[i]
  {
    if t != "" {
      SplitPieces(t[1..], sep);
    }
  }

  lemma {:induction false} SplitPlain(t: string, sep: char)
    requires sep !in t
    ensures Split(t, sep) == [t]
  {
    if t != "" {
      SplitPlain(t[1..], sep);
      assert t == [t[0]] + t[1..];
    }
  }

  /** Splitting at the first separator. */
  lemma {:induction false} SplitAppend(head: string, tail: string, sep: char)
    requires sep !in head
    ensures Split(head + [sep] + tail, sep) == [head] + Split(tail, sep)
  {
    if head == "" {
      assert head + [sep] + tail == [sep] + tail;
    } else {
      SplitAppend(head[1..], tail, sep);
      var t := head + [sep] + tail;
      assert t[1..] == head[1..] + [sep] + tail && t[0] == head[0];
      assert head == [head[0]] + head[1..];
    }
  }

  /** Splitting what was joined gives the pieces back. */
  lemma {:induction false} SplitJoin(pieces: seq<string>, sep: char)
    requires |pieces| >= 1
    requires forall i :: 0 <= i < |pieces| ==> sep !in pieces[i]
    ensures Split(Join(pieces, sep), sep) == pieces
  {
    if |pieces| == 1 {
      SplitPlain(pieces[0], sep);
    } else {
      SplitJoin(pieces[1..], sep);
      SplitAppend(pieces[0], Join(pieces[1..], sep), sep);
    }
  }
}
