/** The worker's size-bounded output journal (`append_output`).

Output is kept as contiguous chunks, in memory and one file per chunk. A PTY session drops its
oldest chunks when the cap is exceeded; an exec session stops accepting output at the cap.
 */
module Journal {
  import opened Options
  import opened Utf8

  const SEGMENT_BYTES: nat := 65536
  const NEWLINE: Byte := 10

  datatype Chunk = Chunk(start: nat, end: nat, data: Bytes)

  function Contents(chunks: seq<Chunk>): Bytes {
    if chunks == [] then [] else chunks[0].data + Contents(chunks[1..])
  }

  function Newlines(bs: Bytes): nat {
    if bs == [] then 0 else (if bs[0] == NEWLINE then 1 else 0) + Newlines(bs[1..])
  }

  /** The chunks cover exactly the sequence numbers from `first` up to `next`. */
  predicate Covers(chunks: seq<Chunk>, first: nat, next: nat) {
    if chunks == [] then first == next
    else
      && chunks[0].start == first && chunks[0].data != [] && chunks[0].end == first + |chunks[0].data|
      && Covers(chunks[1..], chunks[0].end, next)
  }

  /** The files are exactly the chunks, each under its start. */
  ghost predicate Mirrors(disk: map<nat, Chunk>, chunks: seq<Chunk>) {
    && (forall i | 0 <= i < |chunks| :: chunks[i].start in disk && disk[chunks[i].start] == chunks[i])
    && (forall k | k in disk :: exists i :: 0 <= i < |chunks| && chunks[i].start == k)
  }

  // ----- Contents and coverage -----

  lemma {:induction false} ContentsConcat(a: seq<Chunk>, b: seq<Chunk>)
    ensures Contents(a + b) == Contents(a) + Contents(b)
  {
    if a == [] {
      assert a + b == b;
    } else {
      assert (a + b)[1..] == a[1..] + b;
      ContentsConcat(a[1..], b);
    }
  }

  lemma {:induction false} NewlinesConcat(a: Bytes, b: Bytes)
    ensures Newlines(a + b) == Newlines(a) + Newlines(b)
  {
    if a == [] {
      assert a + b == b;
    } else {
      assert (a + b)[1..] == a[1..] + b;
      NewlinesConcat(a[1..], b);
    }
  }

  lemma {:induction false} CoversConcat(a: seq<Chunk>, b: seq<Chunk>, first: nat, mid: nat, next: nat)
    requires Covers(a, first, mid) && Covers(b, mid, next)
    ensures Covers(a + b, first, next)
  {
    if a == [] {
      assert a + b == b;
    } else {
      assert (a + b)[1..] == a[1..] + b;
      CoversConcat(a[1..], b, a[0].end, mid, next);
    }
  }

  lemma {:induction false} CoversFits(chunks: seq<Chunk>, first: nat, next: nat)
    requires Covers(chunks, first, next)
    ensures first <= next && |Contents(chunks)| == next - first
    ensures forall i | 0 <= i < |chunks| ::
              && first <= chunks[i].start < chunks[i].end <= next
              && |chunks[i].data| == chunks[i].end - chunks[i].start
    ensures chunks != [] ==> chunks[|chunks| - 1].end == next
    ensures forall i, j | 0 <= i < j < |chunks| :: chunks[i].end <= chunks[j].start
  {
    if chunks != [] {
      CoversFits(chunks[1..], chunks[0].end, next);
      forall i | 0 <= i < |chunks| ensures first <= chunks[i].start < chunks[i].end <= next &&
          |chunks[i].data| == chunks[i].end - chunks[i].start {
        if i > 0 { assert chunks[i] == chunks[1..][i - 1]; }
      }
      forall i, j | 0 <= i < j < |chunks| ensures chunks[i].end <= chunks[j].start {
        assert chunks[j] == chunks[1..][j - 1];
        if i > 0 { assert chunks[i] == chunks[1..][i - 1]; }
      }
      if |chunks| > 1 { assert chunks[|chunks| - 1] == chunks[1..][|chunks| - 2]; }
    }
  }

  lemma {:induction false} CoversInit(chunks: seq<Chunk>, first: nat, next: nat)
    requires chunks != [] && Covers(chunks, first, next)
    ensures Covers(chunks[..|chunks| - 1], first, chunks[|chunks| - 1].start)
  {
    var n := |chunks| - 1;
    if n > 0 {
      CoversInit(chunks[1..], chunks[0].end, next);
      assert chunks[1..][..n - 1] == chunks[..n][1..];
    }
  }

  // ----- Appending to the chunks -----

  predicate Coalesces(chunks: seq<Chunk>, next: nat, kept: Bytes) {
    chunks != [] && chunks[|chunks| - 1].end == next && |chunks[|chunks| - 1].data| + |kept| <= SEGMENT_BYTES
  }

  /** The chunk that takes `kept`: the last one grown, or a new one. */
  function Taken(chunks: seq<Chunk>, next: nat, kept: Bytes): Chunk {
    if Coalesces(chunks, next, kept) then
      var last := chunks[|chunks| - 1];
      Chunk(last.start, next + |kept|, last.data + kept)
    else Chunk(next, next + |kept|, kept)
  }

  function Pushed(chunks: seq<Chunk>, next: nat, kept: Bytes): seq<Chunk> {
    (if Coalesces(chunks, next, kept) then chunks[..|chunks| - 1] else chunks) + [Taken(chunks, next, kept)]
  }

  /** Growing the last chunk or adding one appends the bytes and keeps coverage and files. */
  lemma PushedCovers(chunks: seq<Chunk>, disk: map<nat, Chunk>, first: nat, next: nat, kept: Bytes)
    requires Covers(chunks, first, next) && Mirrors(disk, chunks) && kept != []
    ensures var c := Taken(chunks, next, kept);
            && Covers(Pushed(chunks, next, kept), first, next + |kept|)
            && Contents(Pushed(chunks, next, kept)) == Contents(chunks) + kept
            && Mirrors(disk[c.start := c], Pushed(chunks, next, kept))
  {
    CoversFits(chunks, first, next);
    if Coalesces(chunks, next, kept) {
      GrownCovers(chunks, disk, first, next, kept);
    } else {
      AddedCovers(chunks, disk, first, next, kept);
    }
  }

  lemma GrownCovers(chunks: seq<Chunk>, disk: map<nat, Chunk>, first: nat, next: nat, kept: Bytes)
    requires Covers(chunks, first, next) && Mirrors(disk, chunks) && kept != [] && chunks != []
    ensures var last, head := chunks[|chunks| - 1], chunks[..|chunks| - 1];
            var c := Chunk(last.start, next + |kept|, last.data + kept);
            && Covers(head + [c], first, next + |kept|)
            && Contents(head + [c]) == Contents(chunks) + kept
            && Mirrors(disk[c.start := c], head + [c])
  {
    hide Contents, Mirrors, Covers;
    var n := |chunks| - 1;
    var head, last := chunks[..n], chunks[n];
    var c := Chunk(last.start, next + |kept|, last.data + kept);
    CoversFits(chunks, first, next);
    CoversInit(chunks, first, next);
    OneCovers(c);
    CoversConcat(head, [c], first, last.start, next + |kept|);
    GrownContents(head, last, c, kept);
    assert head + [last] == chunks;
    assert forall i | 0 <= i < n :: head[i].start != c.start;
    PushedMirrors(chunks, head, disk, c);
  }

  lemma GrownContents(head: seq<Chunk>, last: Chunk, c: Chunk, kept: Bytes)
    requires c.data == last.data + kept
    ensures Contents(head + [c]) == Contents(head + [last]) + kept
  {
    hide Contents;
    ContentsConcat(head, [c]);
    ContentsConcat(head, [last]);
    OneChunk(c);
    OneChunk(last);
  }

  lemma AddedCovers(chunks: seq<Chunk>, disk: map<nat, Chunk>, first: nat, next: nat, kept: Bytes)
    requires Covers(chunks, first, next) && Mirrors(disk, chunks) && kept != []
    ensures var c := Chunk(next, next + |kept|, kept);
            && Covers(chunks + [c], first, next + |kept|)
            && Contents(chunks + [c]) == Contents(chunks) + kept
            && Mirrors(disk[c.start := c], chunks + [c])
  {
    var c := Chunk(next, next + |kept|, kept);
    CoversFits(chunks, first, next);
    hide Contents, Mirrors, Covers;
    OneCovers(c);
    CoversConcat(chunks, [c], first, next, next + |kept|);
    ContentsConcat(chunks, [c]);
    OneChunk(c);
    PushedMirrors(chunks, chunks, disk, c);
  }

  lemma OneCovers(c: Chunk)
    requires c.data != [] && c.end == c.start + |c.data|
    ensures Covers([c], c.start, c.end)
  {
    assert Covers([c][1..], c.end, c.end);
  }

  lemma OneChunk(c: Chunk)
    ensures Contents([c]) == c.data
  {
    assert Contents([c][1..]) == [];
  }

  lemma PushedMirrors(chunks: seq<Chunk>, head: seq<Chunk>, disk: map<nat, Chunk>, c: Chunk)
    requires Mirrors(disk, chunks) && head <= chunks
    requires head == chunks || (|head| == |chunks| - 1 && chunks[|head|].start == c.start)
    requires forall i | 0 <= i < |head| :: head[i].start != c.start
    ensures Mirrors(disk[c.start := c], head + [c])
  {
    var all, files := head + [c], disk[c.start := c];
    forall k | k in files ensures exists i :: 0 <= i < |all| && all[i].start == k {
      if k == c.start {
        assert all[|head|].start == k;
      } else {
        var i :| 0 <= i < |chunks| && chunks[i].start == k;
        assert i < |head| && all[i].start == k;
      }
    }
    forall i | 0 <= i < |all| ensures all[i].start in files && files[all[i].start] == all[i] {
      if i < |head| { assert chunks[i] == all[i]; }
    }
  }

  /** Dropping the oldest chunk drops its bytes and its file. */
  lemma DroppedCovers(chunks: seq<Chunk>, disk: map<nat, Chunk>, first: nat, next: nat)
    requires chunks != [] && Covers(chunks, first, next) && Mirrors(disk, chunks)
    ensures Covers(chunks[1..], chunks[0].end, next)
    ensures Contents(chunks) == chunks[0].data + Contents(chunks[1..])
    ensures Mirrors(disk - {chunks[0].start}, chunks[1..])
  {
    CoversFits(chunks, first, next);
    var rest, files := chunks[1..], disk - {chunks[0].start};
    forall k | k in files ensures exists i :: 0 <= i < |rest| && rest[i].start == k {
      var i :| 0 <= i < |chunks| && chunks[i].start == k;
      assert i > 0 && rest[i - 1] == chunks[i];
    }
    forall i | 0 <= i < |rest| ensures rest[i].start in files && files[rest[i].start] == rest[i] {
      assert rest[i] == chunks[i + 1] && chunks[0].end <= chunks[i + 1].start;
    }
  }

  /** What is left after dropping the oldest chunks of `bytes` bytes until `cap` holds. */
  function Evicted(chunks: seq<Chunk>, bytes: int, cap: nat): seq<Chunk> {
    if bytes <= cap || chunks == [] then chunks else Evicted(chunks[1..], bytes - |chunks[0].data|, cap)
  }

  /** Eviction keeps a run of whole chunks at the end, within the cap, and drops no more than it
      must: putting back the last chunk dropped would exceed the cap. */
  lemma {:induction false} EvictsJustEnough(chunks: seq<Chunk>, cap: nat) returns (n: nat)
    ensures n <= |chunks| && Evicted(chunks, |Contents(chunks)|, cap) == chunks[n..]
    ensures |Contents(chunks[n..])| <= cap
    ensures n > 0 ==> |Contents(chunks[n - 1..])| > cap
  {
    var bytes := |Contents(chunks)|;
    if bytes <= cap || chunks == [] {
      n := 0;
    } else {
      n := EvictsJustEnough(chunks[1..], cap);
      assert chunks[1..][n..] == chunks[n + 1..];
      if n > 0 { assert chunks[1..][n - 1..] == chunks[n..]; }
      n := n + 1;
    }
  }

  // ----- Cutting at a character boundary -----

  /** The longest prefix of at most `limit` bytes that does not end inside a character. */
  function CutAt(data: Bytes, limit: nat): (end: nat)
    ensures end <= limit && end <= |data|
    ensures end == 0 || end == |data| || !Continuation(data[end])
    ensures forall k | end < k <= limit && k < |data| :: Continuation(data[k])
    ensures limit >= |data| ==> end == |data|
  {
    if limit >= |data| then |data|
    else if limit > 0 && Continuation(data[limit]) then CutAt(data, limit - 1)
    else limit
  }

  ghost predicate IsText(bs: Bytes) {
    exists text: string :: bs == EncodeAll(text)
  }

  lemma EncodeNothing()
    ensures EncodeAll("") == []
  {
  }

  lemma {:induction false} EncodeConcat(a: string, b: string)
    ensures EncodeAll(a + b) == EncodeAll(a) + EncodeAll(b)
  {
    if a == "" {
      assert a + b == b;
    } else {
      assert (a + b)[1..] == a[1..] + b;
      EncodeConcat(a[1..], b);
    }
  }

  /** Cutting encoded text leaves encoded text: a prefix of the same characters. */
  lemma {:induction false} CutOfText(text: string, limit: nat)
    ensures exists k :: 0 <= k <= |text| && EncodeAll(text)[..CutAt(EncodeAll(text), limit)] == EncodeAll(text[..k])
    decreases |text|
  {
    hide Encode, CutAt;
    var data := EncodeAll(text);
    var end := CutAt(data, limit);
    if end == 0 {
      assert text[..0] == "" && data[..end] == EncodeAll(text[..0]);
    } else if limit >= |data| {
      assert text[..|text|] == text && data[..end] == EncodeAll(text[..|text|]);
    } else {
      var e, rest := Encode(text[0]), EncodeAll(text[1..]);
      assert data == e + rest;
      CutPastFirst(text[0], rest, limit);
      CutShifts(e, rest, limit);
      CutOfText(text[1..], limit - |e|);
      var k :| 0 <= k <= |text[1..]| && rest[..CutAt(rest, limit - |e|)] == EncodeAll(text[1..][..k]);
      EncodePrefix(text, k);
      assert data[..end] == e + rest[..end - |e|];
    }
  }

  lemma CutPastFirst(c: char, rest: Bytes, limit: nat)
    requires 0 < CutAt(Encode(c) + rest, limit) && limit < |Encode(c) + rest|
    ensures |Encode(c)| <= CutAt(Encode(c) + rest, limit)
  {
    hide Encode, CutAt;
    var e, data := Encode(c), Encode(c) + rest;
    EncodingTail(c);
    assert forall i | 1 <= i < |e| :: data[i] == e[i] && Continuation(data[i]);
  }

  lemma EncodePrefix(text: string, k: nat)
    requires k < |text|
    ensures Encode(text[0]) + EncodeAll(text[1..][..k]) == EncodeAll(text[..k + 1])
  {
    assert text[..k + 1][1..] == text[1..][..k];
  }

  lemma CutIsText(text: string, limit: nat)
    ensures IsText(EncodeAll(text)[..CutAt(EncodeAll(text), limit)])
  {
    CutOfText(text, limit);
  }

  lemma EncodingTail(c: char)
    ensures forall i | 1 <= i < |Encode(c)| :: Continuation(Encode(c)[i])
  {
    EncodingJoins(c);
  }

  lemma {:induction false} CutShifts(front: Bytes, rest: Bytes, limit: nat)
    requires |front| <= limit && CutAt(front + rest, limit) >= |front| > 0
    ensures CutAt(front + rest, limit) == |front| + CutAt(rest, limit - |front|)
    decreases limit
  {
    var data := front + rest;
    if limit > |front| && limit < |data| {
      assert data[limit] == rest[limit - |front|];
      if Continuation(data[limit]) {
        CutShifts(front, rest, limit - 1);
      }
    }
  }

  // ----- The journal -----

  ghost predicate AllText(chunks: seq<Chunk>) {
    forall i | 0 <= i < |chunks| :: IsText(chunks[i].data)
  }

  /** The running totals, the chunks and the files all describe the same bytes. */
  ghost predicate Sound(chunks: seq<Chunk>, disk: map<nat, Chunk>, first: nat, next: nat, bytes: nat, newlines: nat) {
    && Covers(chunks, first, next)
    && Mirrors(disk, chunks)
    && first <= next && bytes == next - first
    && newlines == Newlines(Contents(chunks))
    && AllText(chunks)
  }

  lemma EmptySound()
    ensures Sound([], map[], 0, 0, 0, 0)
  {
  }

  lemma PushSound(chunks: seq<Chunk>, disk: map<nat, Chunk>, first: nat, next: nat, bytes: nat, newlines: nat,
                  kept: Bytes)
    requires Sound(chunks, disk, first, next, bytes, newlines) && kept != [] && IsText(kept)
    ensures var c := Taken(chunks, next, kept);
            && Sound(Pushed(chunks, next, kept), disk[c.start := c], first, next + |kept|, bytes + |kept|,
                     newlines + Newlines(kept))
            && Contents(Pushed(chunks, next, kept)) == Contents(chunks) + kept
  {
    hide Covers, Mirrors, Contents, Newlines, Taken, Pushed, IsText, AllText;
    PushedCovers(chunks, disk, first, next, kept);
    PushedText(chunks, next, kept);
    NewlinesConcat(Contents(chunks), kept);
  }

  lemma PushedText(chunks: seq<Chunk>, next: nat, kept: Bytes)
    requires IsText(kept) && AllText(chunks)
    ensures AllText(Pushed(chunks, next, kept))
  {
    hide IsText;
    if Coalesces(chunks, next, kept) {
      TextConcat(chunks[|chunks| - 1].data, kept);
    }
  }

  lemma TextConcat(a: Bytes, b: Bytes)
    requires IsText(a) && IsText(b)
    ensures IsText(a + b)
  {
    var s: string :| a == EncodeAll(s);
    var t: string :| b == EncodeAll(t);
    EncodeConcat(s, t);
  }

  lemma DropSound(chunks: seq<Chunk>, disk: map<nat, Chunk>, first: nat, next: nat, bytes: nat, newlines: nat)
    requires Sound(chunks, disk, first, next, bytes, newlines) && chunks != []
    ensures var gone := chunks[0];
            && |gone.data| <= bytes && Newlines(gone.data) <= newlines
            && first < gone.end == first + |gone.data| && gone.start in disk
            && Sound(chunks[1..], disk - {gone.start}, gone.end, next, bytes - |gone.data|,
                     newlines - Newlines(gone.data))
            && Contents(chunks) == gone.data + Contents(chunks[1..])
  {
    hide Mirrors, Newlines, IsText, Contents;
    DroppedCovers(chunks, disk, first, next);
    CoversFits(chunks, first, next);
    FirstFiled(chunks, disk);
    NewlinesConcat(chunks[0].data, Contents(chunks[1..]));
  }

  lemma FirstFiled(chunks: seq<Chunk>, disk: map<nat, Chunk>)
    requires Mirrors(disk, chunks) && chunks != []
    ensures chunks[0].start in disk
  {
  }

  /** There is something to evict while the journal is not empty, and the oldest chunk tells where it begins. */
  lemma SoundFirst(chunks: seq<Chunk>, disk: map<nat, Chunk>, first: nat, next: nat, bytes: nat, newlines: nat)
    requires Sound(chunks, disk, first, next, bytes, newlines)
    ensures bytes == |Contents(chunks)| && newlines == Newlines(Contents(chunks))
    ensures chunks == [] ==> bytes == 0 && first == next
    ensures chunks != [] ==> chunks[0].start == first && chunks[|chunks| - 1].end == next && bytes > 0
    ensures chunks != [] ==> (EndsLine(chunks[|chunks| - 1].data) <==> EndsLine(Contents(chunks)))
  {
    CoversFits(chunks, first, next);
    LastByte(chunks, first, next);
  }

  /** The journal holds exactly the end of everything accepted. */
  ghost predicate Retains(chunks: seq<Chunk>, accepted: Bytes, first: nat, next: nat) {
    first <= next == |accepted| && Contents(chunks) == accepted[first..]
  }

  lemma PushRetains(chunks: seq<Chunk>, accepted: Bytes, first: nat, next: nat, kept: Bytes)
    requires Retains(chunks, accepted, first, next)
    requires Contents(Pushed(chunks, next, kept)) == Contents(chunks) + kept
    ensures Retains(Pushed(chunks, next, kept), accepted + kept, first, next + |kept|)
  {
    hide Contents, Pushed;
    assert (accepted + kept)[first..] == accepted[first..] + kept;
  }

  lemma DropRetains(chunks: seq<Chunk>, accepted: Bytes, first: nat, next: nat)
    requires Retains(chunks, accepted, first, next) && chunks != []
    ensures Retains(chunks[1..], accepted, first + |chunks[0].data|, next)
  {
    assert accepted[first + |chunks[0].data|..] == accepted[first..][|chunks[0].data|..];
  }

  datatype Stop = OutputLimit | StorageFailure

  class OutputJournal {
    const pty: bool
    const cap: nat
    var chunks: seq<Chunk>
    var disk: map<nat, Chunk>
    var nextSequence: nat
    var firstRetained: nat
    var retainedBytes: nat
    var retainedNewlines: nat
    var stdout: Bytes
    var stderr: Bytes
    var stdoutTruncated: bool
    var stderrTruncated: bool
    var outputTruncated: bool
    var storageFailed: bool
    ghost var accepted: Bytes  // everything ever journalled

    /** Nothing is promised once storage has failed. */
    ghost predicate Valid()
      reads this
    {
      !storageFailed ==>
        && Sound(chunks, disk, firstRetained, nextSequence, retainedBytes, retainedNewlines)
        && Retains(chunks, accepted, firstRetained, nextSequence) && retainedBytes <= cap
        && (pty ==> (outputTruncated <==> firstRetained > 0))
        && (!pty ==> firstRetained == 0 && |stdout| + |stderr| == retainedBytes)
    }

    constructor (pty: bool, cap: nat)
      ensures Valid() && !storageFailed && accepted == [] && this.pty == pty && this.cap == cap
      ensures stdout == [] && stderr == []
    {
      this.pty, this.cap := pty, cap;
      chunks, disk := [], map[];
      nextSequence, firstRetained, retainedBytes, retainedNewlines := 0, 0, 0, 0;
      stdout, stderr := [], [];
      stdoutTruncated, stderrTruncated, outputTruncated, storageFailed := false, false, false, false;
      accepted := [];
      EmptySound();
    }

    /** What an append keeps: everything for a PTY, what still fits for an exec session. */
    function KeptOf(data: Bytes): Bytes
      reads this
    {
      data[..CutAt(data, if pty then |data| else if retainedBytes > cap then 0 else cap - retainedBytes)]
    }

    /** The chunks once `kept` has been added and, for a PTY, the cap enforced. */
    function After(before: seq<Chunk>, next: nat, kept: Bytes, bytes: nat): seq<Chunk> {
      if pty then Evicted(Pushed(before, next, kept), bytes + |kept|, cap) else Pushed(before, next, kept)
    }

    /** `append_output`. `writeOk` and `stuck` are what the file system does: whether the chunk is
        written, and which files cannot be removed. */
    method Append(toStdout: bool, text: string, writeOk: bool, stuck: set<nat>) returns (stop: Option<Stop>)
      requires Valid()
      modifies this
      ensures Valid()
      ensures old(storageFailed) ==> storageFailed && accepted == old(accepted) && stop.None?
      ensures writeOk && stuck == {} ==> storageFailed == old(storageFailed)
      ensures !old(storageFailed) ==> (stop == Some(StorageFailure) <==> storageFailed)
      ensures !storageFailed ==>
                var kept := old(KeptOf(EncodeAll(text)));
                && accepted == old(accepted) + kept
                && (stop == Some(OutputLimit) <==> kept != EncodeAll(text))
                && (exists k :: 0 <= k <= |text| && kept == EncodeAll(text[..k]))
                && (pty ==> kept == EncodeAll(text))
                && old(nextSequence) <= nextSequence && old(firstRetained) <= firstRetained
                && (old(retainedBytes) + |kept| <= cap ==> firstRetained == old(firstRetained))
                && (kept == [] ==> chunks == old(chunks))
                && (kept != [] ==> chunks == After(old(chunks), old(nextSequence), kept, old(retainedBytes)))
                && (!pty && toStdout ==> stdout == old(stdout) + kept && stderr == old(stderr))
                && (!pty && !toStdout ==> stderr == old(stderr) + kept && stdout == old(stdout))
    {
      hide Sound, Retains, After, EncodeAll, Contents, Newlines, CutAt, Pushed, Taken, IsText;
      stop := None;
      var data := EncodeAll(text);
      ghost var limit := if pty then |data| else if retainedBytes > cap then 0 else cap - retainedBytes;
      CutOfText(text, limit);
      var kept := KeptOf(data);
      assert IsText(kept) by { CutIsText(text, limit); }
      if data == [] || storageFailed {
        return;
      }
      if |kept| != |data| {
        if toStdout { stdoutTruncated := true; } else { stderrTruncated := true; }
        outputTruncated := true;
        stop := Some(OutputLimit);
      }
      if kept == [] {
        return;
      }
      var failed := Store(toStdout, kept, writeOk, stuck);
      if failed {
        stop := Some(StorageFailure);
      }
    }

    /** Journals `kept`: into the last chunk while a segment has room, otherwise as a new chunk. */
    method Store(toStdout: bool, kept: Bytes, writeOk: bool, stuck: set<nat>) returns (failed: bool)
      requires !storageFailed && kept != [] && IsText(kept)
      requires Sound(chunks, disk, firstRetained, nextSequence, retainedBytes, retainedNewlines)
      requires Retains(chunks, accepted, firstRetained, nextSequence)
      requires pty ==> (outputTruncated <==> firstRetained > 0)
      requires !pty ==> firstRetained == 0 && |stdout| + |stderr| == retainedBytes && retainedBytes + |kept| <= cap
      modifies this
      ensures Valid() && failed == storageFailed
      ensures writeOk && stuck == {} ==> !failed
      ensures !failed ==> accepted == old(accepted) + kept
      ensures !failed ==> old(nextSequence) <= nextSequence && old(firstRetained) <= firstRetained
      ensures !failed && old(retainedBytes) + |kept| <= cap ==> firstRetained == old(firstRetained)
      ensures !failed ==> chunks == After(old(chunks), old(nextSequence), kept, old(retainedBytes))
      ensures !failed && !pty && toStdout ==> stdout == old(stdout) + kept && stderr == old(stderr)
      ensures !failed && !pty && !toStdout ==> stderr == old(stderr) + kept && stdout == old(stdout)
    {
      hide Sound, Retains, Contents, Newlines, Pushed, Taken, IsText;
      PushSound(chunks, disk, firstRetained, nextSequence, retainedBytes, retainedNewlines, kept);
      PushRetains(chunks, accepted, firstRetained, nextSequence, kept);
      failed := false;
      var chunk := Taken(chunks, nextSequence, kept);
      var pushed := Pushed(chunks, nextSequence, kept);
      if Coalesces(chunks, nextSequence, kept) {
        chunks := pushed;  // the last chunk grows before it is written
      }
      if !writeOk {
        storageFailed := true;
        return true;
      }
      disk := disk[chunk.start := chunk];
      chunks := pushed;
      nextSequence := nextSequence + |kept|;
      retainedBytes := retainedBytes + |kept|;
      retainedNewlines := retainedNewlines + Newlines(kept);
      accepted := accepted + kept;
      if !pty {
        if toStdout { stdout := stdout + kept; } else { stderr := stderr + kept; }
      } else {
        failed := Evict(stuck);
      }
    }

    /** The eviction loop: whole chunks go, oldest first, until the cap holds again. The list is
        never empty when a chunk is taken from it. */
    method Evict(stuck: set<nat>) returns (failed: bool)
      requires pty && !storageFailed && Retains(chunks, accepted, firstRetained, nextSequence)
      requires Sound(chunks, disk, firstRetained, nextSequence, retainedBytes, retainedNewlines)
      requires outputTruncated <==> firstRetained > 0
      modifies this`chunks, this`disk, this`firstRetained, this`retainedBytes, this`retainedNewlines,
               this`outputTruncated, this`storageFailed
      ensures Valid() && failed == storageFailed
      ensures stuck == {} ==> !failed
      ensures !failed ==> chunks == Evicted(old(chunks), old(retainedBytes), cap)
      ensures !failed ==> old(firstRetained) <= firstRetained
      ensures !failed && old(retainedBytes) <= cap ==> firstRetained == old(firstRetained)
    {
      hide Sound, Retains, Newlines, Contents;
      failed := false;
      ghost var first: nat := firstRetained;
      while retainedBytes > cap
        invariant !failed && !storageFailed
        invariant Evicted(chunks, retainedBytes, cap) == Evicted(old(chunks), old(retainedBytes), cap)
        invariant Sound(chunks, disk, first, nextSequence, retainedBytes, retainedNewlines)
        invariant Retains(chunks, accepted, first, nextSequence)
        invariant (outputTruncated <==> first > 0) && old(firstRetained) <= first
        invariant retainedBytes <= old(retainedBytes)
        invariant old(retainedBytes) <= cap ==> first == old(firstRetained)
        decreases |chunks|
      {
        SoundFirst(chunks, disk, first, nextSequence, retainedBytes, retainedNewlines);
        DropSound(chunks, disk, first, nextSequence, retainedBytes, retainedNewlines);
        var removed := chunks[0];
        DropRetains(chunks, accepted, first, nextSequence);
        chunks := chunks[1..];
        if removed.start in stuck {
          failed, storageFailed := true, true;
          break;
        }
        disk := disk - {removed.start};
        retainedBytes := retainedBytes - |removed.data|;
        retainedNewlines := retainedNewlines - Newlines(removed.data);
        outputTruncated := true;
        first := removed.end;
      }
      if !failed {
        SoundFirst(chunks, disk, first, nextSequence, retainedBytes, retainedNewlines);
      }
      firstRetained := if chunks != [] then chunks[0].start else nextSequence;
    }

    /** The counters reported in a snapshot, from the running totals and the last chunk. */
    function HasPartialLine(): bool
      reads this
    {
      retainedBytes > 0 && !(chunks != [] && EndsLine(chunks[|chunks| - 1].data))
    }

    function LineCount(): nat
      reads this
    {
      retainedNewlines + if HasPartialLine() then 1 else 0
    }

    /** They describe the retained bytes. */
    lemma CountersAreExact()
      requires Valid() && !storageFailed
      ensures firstRetained <= |accepted|
      ensures var out := accepted[firstRetained..];
              && HasPartialLine() == (out != [] && !EndsLine(out))
              && LineCount() == Newlines(out) + if out != [] && !EndsLine(out) then 1 else 0
    {
      SoundFirst(chunks, disk, firstRetained, nextSequence, retainedBytes, retainedNewlines);
    }
  }

  predicate EndsLine(data: Bytes) {
    data != [] && data[|data| - 1] == NEWLINE
  }

  lemma LastByte(chunks: seq<Chunk>, first: nat, next: nat)
    requires Covers(chunks, first, next)
    ensures chunks != [] ==>
              var data := chunks[|chunks| - 1].data;
              var out := Contents(chunks);
              data != [] && out != [] && out[|out| - 1] == data[|data| - 1]
  {
    if chunks != [] {
      var n := |chunks| - 1;
      CoversFits(chunks, first, next);
      assert chunks == chunks[..n] + [chunks[n]];
      ContentsConcat(chunks[..n], [chunks[n]]);
      OneChunk(chunks[n]);
    }
  }
}
