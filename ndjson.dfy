/** Newline-delimited JSON framing as the browser script reads it: the
    pieces `String.prototype.split('\n')` cuts a text into, the blank
    lines it skips, and the fact that the text the server writes for a
    sequence of messages comes back as exactly those messages, one per
    line. */
module Ndjson {
  import opened TextUtil
  import opened Protocol

  /** No line feed in `s`. */
  predicate OneLine(s: string)
  {
    forall i :: 0 <= i < |s| ==> s[i] != '\n'
  }

  /** `s.split('\n')`: the pieces between line feeds, in order; a text
      with `k` line feeds has `k + 1` pieces, the last one being what
      follows the last line feed. */
  function SplitLines(s: string): (r: seq<string>)
    ensures |r| > 0
    decreases |s|
  {
    if s == [] then [[]] else Push(SplitLines(s[..|s| - 1]), s[|s| - 1])
  }

  /** The pieces after one more character: a line feed starts a new,
      empty piece; any other character extends the last piece. */
  function Push(r: seq<string>, c: char): (r': seq<string>)
    requires |r| > 0
    ensures |r'| > 0
  {
    if c == '\n' then r + [[]] else r[..|r| - 1] + [r[|r| - 1] + [c]]
  }

  lemma PushAfter(i: seq<string>, t: seq<string>, c: char)
    requires |t| > 0
    ensures Push(i + t, c) == i + Push(t, c)
  {
    if c != '\n' {
      assert (i + t)[..|i + t| - 1] == i + t[..|t| - 1];
    }
  }

  /** `parts.join('\n')` */
  function JoinLines(parts: seq<string>): string
    requires |parts| > 0
    decreases |parts|
  {
    if |parts| == 1 then parts[0] else JoinLines(parts[..|parts| - 1]) + "\n" + parts[|parts| - 1]
  }

  /** No piece of a split holds a line feed. */
  lemma {:induction false} SplitLinesPieces(s: string)
    ensures forall i :: 0 <= i < |SplitLines(s)| ==> OneLine(SplitLines(s)[i])
    decreases |s|
  {
    if s != [] {
      SplitLinesPieces(s[..|s| - 1]);
    }
  }

  /** A text without a line feed is a single piece. */
  lemma {:induction false} OneLineSplit(s: string)
    requires OneLine(s)
    ensures SplitLines(s) == [s]
    decreases |s|
  {
    if s != [] {
      OneLineSplit(s[..|s| - 1]);
      assert s[..|s| - 1] + [s[|s| - 1]] == s;
    }
  }

  lemma JoinSnoc(parts: seq<string>, x: string)
    requires |parts| > 0
    ensures JoinLines(parts + [x]) == JoinLines(parts) + "\n" + x
  {
    assert (parts + [x])[..|parts|] == parts;
  }

  /** The split of a text with one more character at its end. */
  lemma SplitSnoc(s: string, c: char)
    ensures SplitLines(s + [c]) == Push(SplitLines(s), c)
  {
    assert (s + [c])[..|s|] == s;
  }

  /** Splitting and joining again gives the text back. */
  lemma {:induction false} SplitJoin(s: string)
    ensures JoinLines(SplitLines(s)) == s
    decreases |s|
  {
    if s != [] {
      var s', c := s[..|s| - 1], s[|s| - 1];
      var r := SplitLines(s');
      SplitJoin(s');
      assert s == s' + [c];
      SplitSnoc(s', c);
      if c == '\n' {
        JoinSnoc(r, []);
      } else if |r| > 1 {
        var r' := r[..|r| - 1];
        assert r == r' + [r[|r| - 1]];
        JoinSnoc(r', r[|r| - 1]);
        JoinSnoc(r', r[|r| - 1] + [c]);
      }
    }
  }

  lemma AppendLast(a: string, b: string)
    requires b != []
    ensures a + b == (a + b[..|b| - 1]) + [b[|b| - 1]]
  {
    assert b == b[..|b| - 1] + [b[|b| - 1]];
  }

  /** The split of `a + b`: the complete lines of `a`, then the split of
      `a`'s last piece continued by `b`. This is what lets the browser
      split what it has received so far and keep only the last piece. */
  lemma {:induction false} SplitAppend(a: string, b: string)
    ensures var r := SplitLines(a);
      SplitLines(a + b) == r[..|r| - 1] + SplitLines(r[|r| - 1] + b)
    decreases |b|
  {
    var r := SplitLines(a);
    var l := r[|r| - 1];
    if b == [] {
      assert a + b == a && l + b == l;
      SplitLinesPieces(a);
      OneLineSplit(l);
    } else {
      var b', c := b[..|b| - 1], b[|b| - 1];
      SplitAppend(a, b');
      AppendLast(a, b);
      AppendLast(l, b);
      SplitSnoc(a + b', c);
      SplitSnoc(l + b', c);
      PushAfter(r[..|r| - 1], SplitLines(l + b'), c);
    }
  }

  /** A line feed and a line at the end of a text add that line as a
      last piece. */
  lemma SplitBeforeLine(j: string, last: string)
    requires OneLine(last)
    ensures SplitLines(j + "\n" + last) == SplitLines(j) + [last]
  {
    SplitSnoc(j, '\n');
    SplitAppend(j + "\n", last);
    assert [] + last == last;
    OneLineSplit(last);
  }

  /** Joining pieces without line feeds and splitting again gives the
      pieces back. */
  lemma {:induction false} JoinSplit(parts: seq<string>)
    requires |parts| > 0 && forall i :: 0 <= i < |parts| ==> OneLine(parts[i])
    ensures SplitLines(JoinLines(parts)) == parts
    decreases |parts|
  {
    if |parts| > 1 {
      var init, last := parts[..|parts| - 1], parts[|parts| - 1];
      JoinSplit(init);
      SplitBeforeLine(JoinLines(init), last);
      assert init + [last] == parts;
    } else {
      OneLineSplit(parts[0]);
    }
  }

  /** The lines `if (!line.trim()) continue;` lets through, in order. */
  function NonBlank(lines: seq<string>): (r: seq<string>)
    ensures |r| <= |lines|
    ensures forall i :: 0 <= i < |r| ==> !IsBlank(r[i])
    decreases |lines|
  {
    if lines == [] then []
    else (if IsBlank(lines[0]) then [] else [lines[0]]) + NonBlank(lines[1..])
  }

  lemma {:induction false} NonBlankAppend(a: seq<string>, b: seq<string>)
    ensures NonBlank(a + b) == NonBlank(a) + NonBlank(b)
    decreases |a|
  {
    if a != [] {
      assert (a + b)[1..] == a[1..] + b;
      NonBlankAppend(a[1..], b);
    } else {
      assert a + b == b;
    }
  }

  /** A single line is dropped iff it is blank. */
  lemma NonBlankOne(x: string)
    ensures NonBlank([x]) == (if IsBlank(x) then [] else [x])
  {
    assert [x][1..] == [];
  }

  /** A sequence of non-blank lines passes the filter whole. */
  lemma {:induction false} NonBlankKeeps(lines: seq<string>)
    requires forall i :: 0 <= i < |lines| ==> !IsBlank(lines[i])
    ensures NonBlank(lines) == lines
    decreases |lines|
  {
    if lines != [] {
      NonBlankKeeps(lines[1..]);
    }
  }

  /** A line and its line feed in front of a text split off as one
      piece. */
  lemma SplitAfterLine(s: string, w: string)
    requires OneLine(s)
    ensures SplitLines(s + "\n" + w) == [s] + SplitLines(w)
  {
    OneLineSplit(s);
    assert (s + "\n")[..|s|] == s;
    assert SplitLines(s + "\n") == [s, []];
    SplitAppend(s + "\n", w);
    assert [] + w == w;
  }

  /** A framed sequence of one-line texts splits into those texts
      followed by the empty piece after the final line feed. */
  lemma {:induction false} FrameSplits(texts: seq<string>)
    requires forall i :: 0 <= i < |texts| ==> OneLine(texts[i])
    ensures SplitLines(Frame(texts)) == texts + [[]]
    decreases |texts|
  {
    if texts != [] {
      FrameSplits(texts[1..]);
      SplitAfterLine(texts[0], Frame(texts[1..]));
      assert [texts[0]] + (texts[1..] + [[]]) == texts + [[]];
    }
  }

  /** Framing one-line, non-blank texts and reading them back line by
      line gives the texts, each once and in order. */
  lemma FrameLines(texts: seq<string>)
    requires forall i :: 0 <= i < |texts| ==> OneLine(texts[i]) && !IsBlank(texts[i])
    ensures NonBlank(SplitLines(Frame(texts))) == texts
  {
    FrameSplits(texts);
    NonBlankKeeps(texts);
    NonBlankAppend(texts, [[]]);
  }

  /** The lines the browser handles for a whole stream are the messages,
      each exactly once and in the order written, whatever the chunks it
      arrived in. */
  lemma WireLines(events: seq<Event>)
    ensures NonBlank(SplitLines(Wire(events))) == Serialized(events)
  {
    var texts := Serialized(events);
    forall i | 0 <= i < |texts| ensures OneLine(texts[i]) && !IsBlank(texts[i]) {
      SerializeIsOneLine(events[i]);
      assert !IsJsSpace(texts[i][0]);
    }
    FrameLines(texts);
  }
}
