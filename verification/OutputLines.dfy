/** Lines of retained output (`outputLines`, `lineCount` and the paging of `read`).

A line is identified by the absolute position of its first byte in everything the session ever
produced, so the identifiers survive the trimming of old output. */
module OutputLines {
  import opened Options
  import opened Utf8
  import opened Journal

  datatype Line = Line(sequence: nat, text: string)

  function ByteLength(text: string): nat {
    |EncodeAll(text)|
  }

  /** JavaScript's `split('\n')`. */
  function Split(s: string): (parts: seq<string>)
    ensures parts != []
  {
    if s == "" then [""]
    else
      var rest := Split(s[1..]);
      if s[0] == '\n' then [""] + rest else [[s[0]] + rest[0]] + rest[1..]
  }

  function EndOfLine(s: string): (e: nat)
    ensures e <= |s|
    ensures e < |s| ==> s[e] == '\n'
    ensures forall k | 0 <= k < e :: s[k] != '\n'
  {
    if s == "" || s[0] == '\n' then 0 else 1 + EndOfLine(s[1..])
  }

  /** The lines of `s`, one after another, the first starting at byte `first`. */
  function Lines(s: string, first: nat): seq<Line>
    decreases |s|
  {
    if s == "" then []
    else
      var e := EndOfLine(s);
      if e == |s| then [Line(first, s)]
      else [Line(first, s[..e])] + Lines(s[e + 1..], first + ByteLength(s[..e]) + 1)
  }

  // ----- The method follows the source; Lines is what it means -----

  /** The lines of the parts from `i` on, as the source numbers them. */
  function Numbered(parts: seq<string>, first: nat): seq<Line> {
    if |parts| == 0 || parts == [""] then []
    else [Line(first, parts[0])] + Numbered(parts[1..], first + ByteLength(parts[0]) + if |parts| > 1 then 1 else 0)
  }

  lemma {:induction false} SplitPeels(s: string)
    ensures var e := EndOfLine(s);
            Split(s) == if e == |s| then [s] else [s[..e]] + Split(s[e + 1..])
  {
    if s != "" && s[0] != '\n' {
      var t, e := s[1..], EndOfLine(s);
      SplitPeels(t);
      assert s == [s[0]] + t;
      if e < |s| {
        assert t[..e - 1] == s[..e][1..] && t[e..] == s[e + 1..];
        assert s[..e] == [s[0]] + t[..e - 1];
      }
    }
  }

  lemma {:induction false} NumberedSplit(s: string, first: nat)
    ensures Numbered(Split(s), first) == Lines(s, first)
    decreases |s|
  {
    hide ByteLength;
    SplitPeels(s);
    var e := EndOfLine(s);
    if e < |s| {
      var parts, rest := Split(s), Split(s[e + 1..]);
      assert parts[1..] == rest && parts[0] == s[..e] && |parts| > 1;
      NumberedSplit(s[e + 1..], first + ByteLength(s[..e]) + 1);
    } else {
      assert Numbered([s][1..], first + ByteLength(s)) == [];
    }
  }

  lemma {:induction false} SplitEnds(s: string)
    ensures var parts := Split(s);
            parts[|parts| - 1] == "" <==> s == "" || s[|s| - 1] == '\n'
  {
    if |s| > 0 {
      SplitEnds(s[1..]);
      var rest := Split(s[1..]);
      if |s| > 1 { assert s[1..][|s| - 2] == s[|s| - 1]; }
    }
  }

  lemma NumberedSteps(parts: seq<string>, i: nat, sequence: nat)
    requires i < |parts| && (i + 1 == |parts| ==> parts[i] != "")
    ensures Numbered(parts[i..], sequence) ==
            [Line(sequence, parts[i])]
            + Numbered(parts[i + 1..], sequence + ByteLength(parts[i]) + if i < |parts| - 1 then 1 else 0)
  {
    hide ByteLength;
    var tail := parts[i..];
    assert tail[1..] == parts[i + 1..] && tail[0] == parts[i];
  }

  lemma Regroup(lines: seq<Line>, line: Line, rest: seq<Line>)
    ensures lines + ([line] + rest) == (lines + [line]) + rest
  {
  }

  lemma NumberedEnds(parts: seq<string>, sequence: nat)
    requires parts == [] || parts == [""]
    ensures Numbered(parts, sequence) == []
  {
  }

  /** `outputLines`. */
  method OutputLines(output: string, first: nat) returns (lines: seq<Line>)
    ensures lines == Lines(output, first)
  {
    if output == "" {
      return [];
    }
    var parts := Split(output);
    var count := if output[|output| - 1] == '\n' then |parts| - 1 else |parts|;
    SplitEnds(output);
    NumberedSplit(output, first);
    hide ByteLength, Lines, Split, Numbered;
    lines := [];
    var sequence: nat := first;
    assert parts[0..] == parts;
    for i := 0 to count
      invariant lines + Numbered(parts[i..], sequence) == Lines(output, first)
    {
      NumberedSteps(parts, i, sequence);
      ghost var next: nat := sequence + ByteLength(parts[i]) + if i < |parts| - 1 then 1 else 0;
      Regroup(lines, Line(sequence, parts[i]), Numbered(parts[i + 1..], next));
      lines := lines + [Line(sequence, parts[i])];
      sequence := sequence + ByteLength(parts[i]) + if i < |parts| - 1 then 1 else 0;
    }
    NumberedEnds(parts[count..], sequence);
  }

  // ----- Sequence numbers are byte positions -----

  /** A line starts at `k`: at the beginning, or right after a newline. */
  predicate Starts(s: string, k: nat) {
    k < |s| && (k == 0 || s[k - 1] == '\n')
  }

  /** The line that starts at `k`. */
  function LineAt(s: string, first: nat, k: nat): Line
    requires k < |s|
  {
    Line(first + ByteLength(s[..k]), s[k..][..EndOfLine(s[k..])])
  }

  lemma LineAtShifts(s: string, first: nat, k: nat)
    requires k < |s|
    requires var e := EndOfLine(s); e < |s| && e + 1 <= k
    ensures var e := EndOfLine(s);
            LineAt(s, first, k) == LineAt(s[e + 1..], first + ByteLength(s[..e]) + 1, k - e - 1)
  {
    hide ByteLength, EndOfLine;
    var e := EndOfLine(s);
    var t, j := s[e + 1..], k - e - 1;
    CutAdvances(s[..k], e);
    assert s[..k][..e] == s[..e] && s[..k][e + 1..] == t[..j];
    assert s[k..] == t[j..];
  }

  lemma StartsShifts(s: string, e: nat, k: nat)
    requires e < k && e < |s| && s[e] == '\n'
    ensures Starts(s, k) <==> Starts(s[e + 1..], k - e - 1)
    ensures Starts(s, k) ==> k < |s|
  {
  }

  lemma NewlineIsOneByte()
    ensures EncodeAll("\n") == [NEWLINE]
  {
    assert EncodeAll("\n"[1..]) == [];
  }

  lemma FirstLine(s: string, first: nat)
    requires s != ""
    ensures Starts(s, 0) && LineAt(s, first, 0) == Line(first, s[..EndOfLine(s)]) && Lines(s, first) != []
    ensures Lines(s, first)[0] == LineAt(s, first, 0)
  {
    hide EndOfLine;
    assert s[0..] == s && s[..0] == "";
    EmptyBytes();
    hide ByteLength;
    if EndOfLine(s) == |s| { assert s[..|s|] == s; }
  }

  /** The output after its first line, and where it begins. */
  lemma LaterLines(s: string, first: nat)
    requires EndOfLine(s) < |s|
    ensures var e := EndOfLine(s);
            Lines(s, first) == [Line(first, s[..e])] + Lines(s[e + 1..], first + ByteLength(s[..e]) + 1)
  {
  }

  lemma OnlyLine(s: string, first: nat)
    requires EndOfLine(s) == |s|
    ensures Lines(s, first) == if s == "" then [] else [Line(first, s)]
  {
  }

  /** Every line of the output starts at some position, and its sequence is that byte position. */
  lemma {:induction false} LineHasStart(s: string, first: nat, i: nat) returns (k: nat)
    requires i < |Lines(s, first)|
    ensures Starts(s, k) && Lines(s, first)[i] == LineAt(s, first, k)
    decreases |s|
  {
    hide ByteLength, LineAt, Starts, EndOfLine, Lines;
    var e := EndOfLine(s);
    if e == |s| { OnlyLine(s, first); }
    if i == 0 {
      k := 0;
      FirstLine(s, first);
    } else {
      LaterLines(s, first);
      var j := LineHasStart(s[e + 1..], first + ByteLength(s[..e]) + 1, i - 1);
      k := j + e + 1;
      StartsShifts(s, e, k);
      LineAtShifts(s, first, k);
    }
  }

  /** Every position where a line starts has its line in the output. */
  lemma {:induction false} StartHasLine(s: string, first: nat, k: nat) returns (i: nat)
    requires Starts(s, k)
    ensures i < |Lines(s, first)| && Lines(s, first)[i] == LineAt(s, first, k)
    decreases |s|
  {
    hide ByteLength, LineAt, EndOfLine, Lines;
    var e := EndOfLine(s);
    if k == 0 {
      i := 0;
      FirstLine(s, first);
    } else {
      assert e <= k - 1;
      StartsShifts(s, e, k);
      LaterLines(s, first);
      var j := StartHasLine(s[e + 1..], first + ByteLength(s[..e]) + 1, k - e - 1);
      i := j + 1;
      LineAtShifts(s, first, k);
    }
  }

  lemma EmptyBytes()
    ensures ByteLength("") == 0
  {
  }

  // ----- Trimming -----

  function From(lines: seq<Line>, sequence: nat): seq<Line> {
    if lines == [] then []
    else (if lines[0].sequence >= sequence then [lines[0]] else []) + From(lines[1..], sequence)
  }

  lemma {:induction false} NoneBefore(s: string, first: nat, sequence: nat)
    requires sequence <= first
    ensures From(Lines(s, first), sequence) == Lines(s, first)
    decreases |s|
  {
    hide ByteLength;
    if s != "" {
      var e := EndOfLine(s);
      var lines := Lines(s, first);
      if e < |s| {
        var rest := Lines(s[e + 1..], first + ByteLength(s[..e]) + 1);
        assert lines[1..] == rest;
        NoneBefore(s[e + 1..], first + ByteLength(s[..e]) + 1, sequence);
      }
    }
  }

  /** Every line starting after the cut keeps its text and its sequence when `gone` is trimmed away. */
  lemma {:induction false} TrimmingKeepsLines(gone: string, kept: string, first: nat)
    ensures var cut := first + ByteLength(gone);
            From(Lines(gone + kept, first), cut + 1) == From(Lines(kept, cut), cut + 1)
    decreases |gone|
  {
    hide ByteLength, Lines, From, EndOfLine;
    var s, cut := gone + kept, first + ByteLength(gone);
    if gone == "" {
      assert s == kept;
      EmptyBytes();
    } else {
      var e := EndOfLine(s);
      HeadGoes(s, first, cut + 1);
      if e < |gone| {
        CutAdvances(gone, e);
        assert s[e + 1..] == gone[e + 1..] + kept && s[..e] == gone[..e];
        TrimmingKeepsLines(gone[e + 1..], kept, first + ByteLength(s[..e]) + 1);
      } else {
        EndBeyond(gone, kept);
        HeadGoes(kept, cut, cut + 1);
        if e < |s| {
          BytesConcat(gone, kept[..e - |gone|]);
          assert s[..e] == gone + kept[..e - |gone|] && s[e + 1..] == kept[e - |gone| + 1..];
        }
      }
    }
  }

  /** When the cut falls between lines, the line that starts right at it is kept as well. */
  lemma {:induction false} TrimmingBetweenLines(gone: string, kept: string, first: nat)
    requires gone == "" || gone[|gone| - 1] == '\n'
    ensures var cut := first + ByteLength(gone);
            From(Lines(gone + kept, first), cut) == Lines(kept, cut)
    decreases |gone|
  {
    hide ByteLength, Lines, From, EndOfLine;
    var s, cut := gone + kept, first + ByteLength(gone);
    if gone == "" {
      assert s == kept;
      EmptyBytes();
      NoneBefore(kept, cut, cut);
    } else {
      var e := EndOfLine(s);
      assert s[|gone| - 1] == '\n';
      BytesPositive(gone);
      HeadGoes(s, first, cut);
      CutAdvances(gone, e);
      assert s[e + 1..] == gone[e + 1..] + kept && s[..e] == gone[..e];
      assert gone[e + 1..] != "" ==> gone[e + 1..][|gone| - e - 2] == gone[|gone| - 1];
      TrimmingBetweenLines(gone[e + 1..], kept, first + ByteLength(s[..e]) + 1);
    }
  }

  lemma BytesConcat(a: string, b: string)
    ensures ByteLength(a + b) == ByteLength(a) + ByteLength(b)
  {
    EncodeConcat(a, b);
  }

  lemma BytesPositive(s: string)
    requires s != ""
    ensures ByteLength(s) > 0
  {
  }

  lemma CutAdvances(gone: string, e: nat)
    requires e < |gone| && gone[e] == '\n'
    ensures ByteLength(gone) == ByteLength(gone[..e]) + 1 + ByteLength(gone[e + 1..])
  {
    assert gone == gone[..e] + ("\n" + gone[e + 1..]);
    EncodeConcat(gone[..e], "\n" + gone[e + 1..]);
    EncodeConcat("\n", gone[e + 1..]);
    NewlineIsOneByte();
  }

  /** The first line is filtered out when it starts too early. */
  lemma HeadGoes(s: string, first: nat, sequence: nat)
    requires first < sequence
    ensures var e := EndOfLine(s);
            From(Lines(s, first), sequence) ==
            if e < |s| then From(Lines(s[e + 1..], first + ByteLength(s[..e]) + 1), sequence) else []
  {
    hide ByteLength;
    var e, lines := EndOfLine(s), Lines(s, first);
    if s != "" {
      if e < |s| {
        assert lines[1..] == Lines(s[e + 1..], first + ByteLength(s[..e]) + 1);
      } else {
        assert From(lines[1..], sequence) == [];
      }
    }
  }

  lemma EndBeyond(gone: string, kept: string)
    requires EndOfLine(gone + kept) >= |gone|
    ensures EndOfLine(gone + kept) == |gone| + EndOfLine(kept)
  {
    var e, f := EndOfLine(gone + kept), EndOfLine(kept);
    assert f < |kept| ==> (gone + kept)[|gone| + f] == '\n';
    assert e < |gone + kept| ==> kept[e - |gone|] == '\n';
    assert forall k | 0 <= k < e - |gone| :: kept[k] == (gone + kept)[|gone| + k];
  }

  // ----- Paging -----

  datatype Page = Page(lines: seq<Line>, total: nat, offset: nat, hasMore: bool)

  /** `read`: the lines at or after `sequence`, from `offset` on, at most `limit` of them. */
  function Read(lines: seq<Line>, offset: int, limit: Option<nat>, sequence: Option<nat>): Page {
    var wanted := if sequence.Some? then From(lines, sequence.value) else lines;
    var start := if offset < 0 then 0 else offset;
    var from := if start < |wanted| then start else |wanted|;
    var to := if limit.Some? && start + limit.value < |wanted| then start + limit.value else |wanted|;
    var page := wanted[from..to];
    Page(page, |wanted|, start, start + |page| < |wanted|)
  }

  /** A client that asks for the next page until there is no more. */
  function ByOffset(lines: seq<Line>, offset: nat, limit: nat): seq<Line>
    requires limit > 0
    decreases |lines| - offset
  {
    var page := Read(lines, offset, Some(limit), None);
    page.lines + if page.hasMore && page.lines != [] then ByOffset(lines, offset + |page.lines|, limit) else []
  }

  /** Successive pages yield every line exactly once, in order. */
  lemma {:induction false} PagesCoverAllLines(lines: seq<Line>, offset: nat, limit: nat)
    requires limit > 0 && offset <= |lines|
    ensures ByOffset(lines, offset, limit) == lines[offset..]
    decreases |lines| - offset
  {
    var page := Read(lines, offset, Some(limit), None);
    if page.hasMore && page.lines != [] {
      assert lines[offset..] == page.lines + lines[offset + limit..];
      PagesCoverAllLines(lines, offset + |page.lines|, limit);
    }
  }

  /** A client that continues after the last sequence number it has seen. */
  function BySequence(lines: seq<Line>, sequence: nat, limit: nat, rounds: nat): seq<Line>
    requires limit > 0
    decreases rounds
  {
    var page := Read(lines, 0, Some(limit), Some(sequence));
    if page.hasMore && page.lines != [] && rounds > 0
    then page.lines + BySequence(lines, page.lines[|page.lines| - 1].sequence + 1, limit, rounds - 1)
    else page.lines
  }

  predicate Increasing(lines: seq<Line>) {
    forall i, j | 0 <= i < j < |lines| :: lines[i].sequence < lines[j].sequence
  }

  lemma {:induction false} LinesIncrease(s: string, first: nat)
    ensures Increasing(Lines(s, first)) && NotBefore(Lines(s, first), first)
    decreases |s|
  {
    hide ByteLength, EndOfLine, Lines;
    var e := EndOfLine(s);
    if e < |s| {
      LaterLines(s, first);
      LinesIncrease(s[e + 1..], first + ByteLength(s[..e]) + 1);
    } else {
      OnlyLine(s, first);
    }
  }

  predicate NotBefore(lines: seq<Line>, sequence: nat) {
    forall i | 0 <= i < |lines| :: lines[i].sequence >= sequence
  }

  /** On increasing lines the filter is a suffix. */
  lemma FromIsSuffix(lines: seq<Line>, sequence: nat) returns (n: nat)
    requires Increasing(lines)
    ensures n <= |lines| && From(lines, sequence) == lines[n..]
    ensures forall i | 0 <= i < |lines| :: i < n <==> lines[i].sequence < sequence
  {
    hide From;
    n := |lines|;
    while n > 0 && lines[n - 1].sequence >= sequence
      invariant n <= |lines| && forall i | n <= i < |lines| :: lines[i].sequence >= sequence
    {
      n := n - 1;
    }
    FromSuffix(lines, sequence, n);
  }

  lemma {:induction false} FromSuffix(lines: seq<Line>, sequence: nat, n: nat)
    requires n <= |lines|
    requires forall i | 0 <= i < |lines| :: i < n <==> lines[i].sequence < sequence
    ensures From(lines, sequence) == lines[n..]
  {
    if n == 0 {
      FromAll(lines, sequence);
    } else {
      FromSuffix(lines[1..], sequence, n - 1);
      assert lines[1..][n - 1..] == lines[n..];
    }
  }

  lemma {:induction false} FromAll(lines: seq<Line>, sequence: nat)
    requires forall i | 0 <= i < |lines| :: lines[i].sequence >= sequence
    ensures From(lines, sequence) == lines
  {
    if lines != [] {
      FromAll(lines[1..], sequence);
      assert lines == [lines[0]] + lines[1..];
    }
  }

  /** Pages read by sequence number also yield every line exactly once, in order. */
  lemma {:induction false} CursorCoversAllLines(lines: seq<Line>, sequence: nat, limit: nat, rounds: nat)
    requires limit > 0 && Increasing(lines) && rounds >= |From(lines, sequence)|
    ensures BySequence(lines, sequence, limit, rounds) == From(lines, sequence)
    decreases rounds
  {
    hide From, Increasing;
    var n := FromIsSuffix(lines, sequence);
    if n + limit < |lines| {
      NextCursor(lines, n, limit);
      var next := lines[n + limit - 1].sequence + 1;
      CursorCoversAllLines(lines, next, limit, rounds - 1);
      PageJoins(lines, n, limit);
    } else {
      assert lines[n..][0..] == lines[n..];
    }
  }

  lemma PageJoins(lines: seq<Line>, n: nat, limit: nat)
    requires 0 < limit && n + limit < |lines|
    ensures var page := lines[n..][0..limit];
            page + lines[n + limit..] == lines[n..] && page[|page| - 1] == lines[n + limit - 1]
  {
  }

  /** Asking for what follows the last line of a page gives exactly the lines after it. */
  lemma NextCursor(lines: seq<Line>, n: nat, limit: nat)
    requires Increasing(lines) && 0 < limit && n + limit < |lines|
    ensures From(lines, lines[n + limit - 1].sequence + 1) == lines[n + limit..]
  {
    hide From;
    var m := FromIsSuffix(lines, lines[n + limit - 1].sequence + 1);
    assert lines[n + limit - 1].sequence < lines[n + limit].sequence;
    assert m == n + limit;
  }

  // ----- Counting -----

  /** `lineCount`. */
  function LineCount(s: string): nat {
    if s == "" then 0
    else
      var parts := Split(s);
      if parts[|parts| - 1] == "" then |parts| - 1 else |parts|
  }

  predicate Partial(s: string) {
    s != "" && s[|s| - 1] != '\n'
  }

  lemma {:induction false} SplitCounts(s: string)
    ensures |Split(s)| == 1 + Newlines(EncodeAll(s))
  {
    if s != "" {
      SplitCounts(s[1..]);
      NewlinesConcat(Encode(s[0]), EncodeAll(s[1..]));
      EncodingNewlines(s[0]);
    }
  }

  lemma EncodingNewlines(c: char)
    ensures Newlines(Encode(c)) == if c == '\n' then 1 else 0
  {
    var e := Encode(c);
    EncodingJoins(c);
    NoNewlines(e[1..]);
  }

  lemma {:induction false} NoNewlines(bs: Bytes)
    requires forall i | 0 <= i < |bs| :: bs[i] != NEWLINE
    ensures Newlines(bs) == 0
  {
    if bs != [] { NoNewlines(bs[1..]); }
  }

  lemma {:induction false} EndsAlike(s: string)
    ensures EndsLine(EncodeAll(s)) <==> s != "" && s[|s| - 1] == '\n'
  {
    if s != "" {
      EndsAlike(s[1..]);
      EncodingNewlines(s[0]);
      EncodingJoins(s[0]);
      if |s| > 1 { BytesPositive(s[1..]); }
    }
  }

  /** The daemon's recount from text equals the worker's incremental counters. */
  lemma CountsAgree(s: string, first: nat)
    ensures LineCount(s) == |Lines(s, first)|
    ensures Partial(s) <==> EncodeAll(s) != [] && !EndsLine(EncodeAll(s))
    ensures LineCount(s) == Newlines(EncodeAll(s)) + if Partial(s) then 1 else 0
  {
    SplitCounts(s);
    SplitEnds(s);
    EndsAlike(s);
    NumberedSplit(s, first);
    NumberedLength(Split(s), first);
    if s != "" { BytesPositive(s); }
  }

  lemma {:induction false} NumberedLength(parts: seq<string>, first: nat)
    ensures |Numbered(parts, first)| == if parts != [] && parts[|parts| - 1] == "" then |parts| - 1 else |parts|
    decreases |parts|
  {
    if parts != [] && parts != [""] {
      NumberedLength(parts[1..], first + ByteLength(parts[0]) + if |parts| > 1 then 1 else 0);
      if |parts| > 1 { assert parts[1..][|parts| - 2] == parts[|parts| - 1]; }
    }
  }
}
