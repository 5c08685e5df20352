/** Loading a PTY session: the daemon reads the worker's journal back and reconciles its record with
it (`migrateSession`, `reconcileSession`, `discardOutputBefore`). */
module SessionLoad {
  import opened Options
  import opened Utf8
  import opened Journal
  import opened OutputLines
  import JournalReader
  import OutputReader
  import Redaction

  /** The journal fields of a session record, as saved and as reconciled. */
  datatype JournalState = JournalState(next: nat, first: nat, bytes: nat, truncated: bool, lines: nat, partial: bool)

  /** What is saved when a session is created. */
  const NothingSaved := JournalState(0, 0, 0, false, 0, false)

  /** `reconcileSession` of the chunks read, with the saved next sequence. */
  function Reconcile(chunks: seq<Chunk>, saved: nat): JournalState {
    var output := Lossy(Contents(chunks));
    var first := if chunks != [] then chunks[0].start else saved;
    var end := if chunks != [] then chunks[|chunks| - 1].end else first;
    JournalState(if saved > end then saved else end, first, ByteLength(output), first > 0, LineCount(output),
                 Partial(output))
  }

  /** The chunks that `discardOutputBefore` keeps. */
  function DropBefore(chunks: seq<Chunk>, sequence: nat): seq<Chunk> {
    if chunks == [] || chunks[0].end > sequence then chunks else DropBefore(chunks[1..], sequence)
  }

  predicate CursorMatches(chunks: seq<Chunk>, saved: JournalState) {
    chunks != [] ==> chunks[|chunks| - 1].end == saved.next
  }

  /** What loading makes of a readable journal: nothing when the cursors differ, and the session is
      then quarantined. */
  function Loaded(chunks: seq<Chunk>, saved: JournalState): Option<JournalState> {
    if !CursorMatches(chunks, saved) then None
    else Some(Reconcile(if saved.truncated then DropBefore(chunks, saved.first) else chunks, saved.next))
  }

  // ----- Discarding -----

  lemma NothingToDrop(sequence: nat)
    ensures DropBefore([], sequence) == []
  {
  }

  lemma {:induction false} DropBeforeKeepsEnd(chunks: seq<Chunk>, sequence: nat, first: nat, next: nat)
    requires Covers(chunks, first, next)
    ensures var kept := DropBefore(chunks, sequence);
            && Covers(kept, if kept == [] then next else kept[0].start, next)
            && (kept != [] ==> kept[|kept| - 1] == chunks[|chunks| - 1])
  {
    if chunks != [] && chunks[0].end <= sequence {
      DropBeforeKeepsEnd(chunks[1..], sequence, chunks[0].end, next);
    }
  }

  function FilesAfter(disk: map<nat, Chunk>, sequence: nat): map<nat, Chunk> {
    map k | k in disk && disk[k].end > sequence :: disk[k]
  }

  /** Chunks are in order, so the files that end later are those of a run of chunks at the end. */
  lemma {:induction false} FilesAfterMirror(disk: map<nat, Chunk>, chunks: seq<Chunk>, sequence: nat, first: nat,
                                            next: nat)
    requires Covers(chunks, first, next) && Mirrors(disk, chunks)
    ensures Mirrors(FilesAfter(disk, sequence), DropBefore(chunks, sequence))
    decreases |chunks|
  {
    if chunks != [] && chunks[0].end <= sequence {
      DroppedCovers(chunks, disk, first, next);
      assert chunks[0].start in disk && disk[chunks[0].start] == chunks[0];
      hide Mirrors, Covers;
      assert FilesAfter(disk, sequence) == FilesAfter(disk - {chunks[0].start}, sequence);
      FilesAfterMirror(disk - {chunks[0].start}, chunks[1..], sequence, chunks[0].end, next);
    } else {
      AllEndLater(disk, chunks, sequence, first, next);
    }
  }

  lemma AllEndLater(disk: map<nat, Chunk>, chunks: seq<Chunk>, sequence: nat, first: nat, next: nat)
    requires Covers(chunks, first, next) && Mirrors(disk, chunks) && (chunks != [] ==> chunks[0].end > sequence)
    ensures FilesAfter(disk, sequence) == disk
  {
    CoversFits(chunks, first, next);
    forall k | k in disk ensures disk[k].end > sequence {
      var i :| 0 <= i < |chunks| && chunks[i].start == k;
      assert disk[k] == chunks[i];
      if i > 0 { assert chunks[0].end <= chunks[i].start; }
    }
  }

  /** `discardOutputBefore`: the files of the chunks that end by then go. */
  method DiscardOutputBefore(disk: map<nat, Chunk>, chunks: seq<Chunk>, sequence: nat) returns (left: map<nat, Chunk>)
    requires Mirrors(disk, chunks)
    ensures left == FilesAfter(disk, sequence)
  {
    left := disk;
    for i := 0 to |chunks|
      invariant forall k | k in left :: k in disk && left[k] == disk[k]
      invariant forall k | k in disk && disk[k].end > sequence :: k in left
      invariant forall j | 0 <= j < i :: chunks[j].start in left ==> chunks[j].end > sequence
    {
      if chunks[i].end <= sequence {
        left := left - {chunks[i].start};
      }
    }
    assert forall k | k in left :: disk[k].end > sequence;
  }

  /** `migrateSession` for a PTY session of the current version. */
  method MigrateSession(disk: map<nat, Chunk>, saved: JournalState) returns (r: Option<JournalState>)
    ensures forall chunks, first, next | Covers(chunks, first, next) && Mirrors(disk, chunks) ::
            r == Loaded(chunks, saved)
  {
    hide Covers, Mirrors, Reconcile, DropBefore;
    var read := JournalReader.ReadChunks(disk);
    if read.None? {
      return None;
    }
    var chunks := read.value;
    if !CursorMatches(chunks, saved) {
      return None;
    }
    if saved.truncated && chunks != [] {
      DropBeforeKeepsEnd(chunks, saved.first, chunks[0].start, chunks[|chunks| - 1].end);
      FilesAfterMirror(disk, chunks, saved.first, chunks[0].start, chunks[|chunks| - 1].end);
      var left := DiscardOutputBefore(disk, chunks, saved.first);
      read := JournalReader.ReadChunks(left);
      if read.None? {
        return None;
      }
      chunks := read.value;
    } else {
      NothingToDrop(saved.first);
    }
    if !CursorMatches(chunks, saved) {
      return None;
    }
    return Some(Reconcile(chunks, saved.next));
  }

  // ----- Against the worker's own numbers -----

  ghost function WorkerState(j: OutputJournal): JournalState
    reads j
  {
    JournalState(j.nextSequence, j.firstRetained, j.retainedBytes, j.outputTruncated, j.LineCount(), j.HasPartialLine())
  }

  lemma {:induction false} ContentsIsText(chunks: seq<Chunk>)
    requires AllText(chunks)
    ensures IsText(Contents(chunks))
  {
    if chunks == [] {
      assert EncodeAll("") == [];
    } else {
      hide IsText;
      ContentsIsText(chunks[1..]);
      TextConcat(chunks[0].data, Contents(chunks[1..]));
    }
  }

  lemma TextReadsBack(bs: Bytes)
    requires IsText(bs)
    ensures EncodeAll(Lossy(bs)) == bs
  {
    var text: string :| bs == EncodeAll(text);
    LossyInvertsEncode(text);
  }

  /** The text of the journal has the bytes, the lines and the partial line that the worker reports. */
  lemma TextAgrees(j: OutputJournal)
    requires j.Valid() && !j.storageFailed
    ensures j.firstRetained <= |j.accepted|
    ensures var output := Lossy(Contents(j.chunks));
            && EncodeAll(output) == j.accepted[j.firstRetained..] == Contents(j.chunks)
            && ByteLength(output) == j.retainedBytes && LineCount(output) == j.LineCount()
            && (Partial(output) <==> j.HasPartialLine())
  {
    hide Lossy, EncodeAll, Newlines, Split, Contents, Covers, Mirrors, IsText, Numbered;
    SoundFirst(j.chunks, j.disk, j.firstRetained, j.nextSequence, j.retainedBytes, j.retainedNewlines);
    ContentsIsText(j.chunks);
    TextReadsBack(Contents(j.chunks));
    CountsAgree(Lossy(Contents(j.chunks)), j.firstRetained);
    j.CountersAreExact();
  }

  /** `readOutput`: whatever a worker journals, the daemon reads back the retained bytes as text. */
  method ReadOutput(j: OutputJournal) returns (output: string)
    requires j.Valid() && !j.storageFailed
    ensures j.firstRetained <= |j.accepted| && EncodeAll(output) == j.accepted[j.firstRetained..]
    ensures LineCount(output) == j.LineCount() && (Partial(output) <==> j.HasPartialLine())
  {
    var read := JournalReader.ReadChunks(j.disk);
    hide Lossy, EncodeAll, Newlines, Split, Contents, Covers, Mirrors, IsText, Numbered;
    TextAgrees(j);
    output := Lossy(Contents(read.value));
  }

  /** A PTY session loads exactly when its journal is empty or its saved cursor is the worker's; and
      it loads with the worker's numbers exactly when the cursor is the worker's and no chunk lies
      before what was saved as retained. */
  lemma LoadsExactly(j: OutputJournal, saved: JournalState)
    requires j.Valid() && !j.storageFailed && j.pty
    ensures Loaded(j.chunks, saved).Some? <==> j.chunks == [] || saved.next == j.nextSequence
    ensures Loaded(j.chunks, saved) == Some(WorkerState(j)) <==>
            saved.next == j.nextSequence && (saved.truncated && j.chunks != [] ==> saved.first < j.chunks[0].end)
  {
    hide Sound, Retains, Lossy, Contents, DropBefore, LineCount, Partial, ByteLength, Loaded;
    SoundFirst(j.chunks, j.disk, j.firstRetained, j.nextSequence, j.retainedBytes, j.retainedNewlines);
    TextAgrees(j);
    SoundCovers(j);
    DropsSome(j.chunks, saved.first, j.firstRetained, j.nextSequence);
    LoadedExactly(j.chunks, saved, WorkerState(j));
  }

  /** For a record saved from any earlier report of the worker, the cursor alone decides. */
  lemma EarlierReportLoadsExactly(j: OutputJournal, saved: JournalState)
    requires j.Valid() && !j.storageFailed && j.pty
    requires saved.first <= j.firstRetained
    ensures Loaded(j.chunks, saved) == Some(WorkerState(j)) <==> saved.next == j.nextSequence
  {
    hide Sound, Retains, Loaded;
    LoadsExactly(j, saved);
    SoundCovers(j);
  }

  /** A worker that has written since the record was saved: the daemon refuses the session. */
  method StaleCursorIsRefused() returns (j: OutputJournal)
    ensures j.Valid() && !j.storageFailed && j.pty && j.accepted != []
    ensures Loaded(j.chunks, NothingSaved).None?
  {
    hide Sound, Retains, Loaded;
    j := new OutputJournal(true, 10);
    SoundCovers(j);
    SizesAgree(j);
    TwoLetters();
    hide EncodeAll;
    var _ := j.Append(true, "ab", true, {});
    SoundCovers(j);
    SizesAgree(j);
    LoadsExactly(j, NothingSaved);
  }

  /** A worker that has evicted everything since: the session loads, with numbers that are not the
      worker's. */
  method EvictedJournalLoadsStale() returns (j: OutputJournal)
    ensures j.Valid() && !j.storageFailed && j.pty
    ensures Loaded(j.chunks, NothingSaved).Some? && Loaded(j.chunks, NothingSaved) != Some(WorkerState(j))
  {
    hide Sound, Retains, Loaded;
    j := new OutputJournal(true, 1);
    SoundCovers(j);
    SizesAgree(j);
    TwoLetters();
    hide EncodeAll;
    assert Evicted(Pushed([], 0, EncodeAll("ab")), 2, 1) == [];
    var _ := j.Append(true, "ab", true, {});
    SoundCovers(j);
    SizesAgree(j);
    LoadsExactly(j, NothingSaved);
  }

  lemma TwoLetters()
    ensures |EncodeAll("ab")| == 2
  {
    assert "ab"[1..] == "b" && "b"[1..] == "";
    assert Encode('a') == [0x61] && Encode('b') == [0x62];
    assert EncodeAll("b") == Encode('b') + EncodeAll("");
  }

  lemma SizesAgree(j: OutputJournal)
    requires j.Valid() && !j.storageFailed
    ensures j.nextSequence == |j.accepted| && j.retainedBytes == j.nextSequence - j.firstRetained <= j.cap
  {
    hide Covers, Mirrors, Contents, Newlines, AllText;
  }

  /** The same on the chunks alone, for the numbers `w` of a worker. */
  lemma LoadedExactly(chunks: seq<Chunk>, saved: JournalState, w: JournalState)
    requires w.first <= w.next && (chunks == [] <==> w.first == w.next)
    requires chunks != [] ==> chunks[0].start == w.first < chunks[0].end && chunks[|chunks| - 1].end == w.next
    requires w == Reconcile(chunks, w.next)
    requires Trimmed(chunks, DropBefore(chunks, saved.first), saved.first, w)
    ensures Loaded(chunks, saved).Some? <==> chunks == [] || saved.next == w.next
    ensures Loaded(chunks, saved) == Some(w) <==>
            saved.next == w.next && (saved.truncated && chunks != [] ==> saved.first < chunks[0].end)
  {
    hide Lossy, Contents, DropBefore, LineCount, Partial, ByteLength;
  }

  /** What discarding leaves: everything, or what starts later. */
  ghost predicate Trimmed(chunks: seq<Chunk>, kept: seq<Chunk>, sequence: nat, w: JournalState) {
    && (chunks == [] || sequence < chunks[0].end ==> kept == chunks)
    && (chunks != [] && chunks[0].end <= sequence && kept != [] ==>
          kept[0].start > w.first && kept[|kept| - 1].end == w.next)
  }

  lemma SoundCovers(j: OutputJournal)
    requires j.Valid() && !j.storageFailed
    ensures Covers(j.chunks, j.firstRetained, j.nextSequence) && j.firstRetained <= j.nextSequence
    ensures j.chunks != [] ==> j.chunks[0].start == j.firstRetained < j.chunks[0].end
    ensures j.chunks != [] <==> j.firstRetained < j.nextSequence
  {
    CoversFits(j.chunks, j.firstRetained, j.nextSequence);
    hide Mirrors, Contents, Newlines, AllText;
  }

  /** Dropping a chunk moves the start. */
  lemma DropsSome(chunks: seq<Chunk>, sequence: nat, first: nat, next: nat)
    requires chunks != [] ==> Covers(chunks, first, next)
    ensures var kept := DropBefore(chunks, sequence);
            && (chunks == [] || sequence < chunks[0].end ==> kept == chunks)
            && (chunks != [] && chunks[0].end <= sequence ==>
                  (kept != [] ==> kept[0].start > first && kept[|kept| - 1].end == next))
  {
    if chunks != [] && chunks[0].end <= sequence {
      var kept := DropBefore(chunks, sequence);
      LaterStart(chunks[1..], sequence, chunks[0].end, next);
    }
  }

  lemma {:induction false} LaterStart(chunks: seq<Chunk>, sequence: nat, first: nat, next: nat)
    requires Covers(chunks, first, next)
    ensures var kept := DropBefore(chunks, sequence);
            kept != [] ==> kept[0].start >= first && kept[|kept| - 1].end == next
  {
    CoversFits(chunks, first, next);
    if chunks != [] && chunks[0].end <= sequence {
      LaterStart(chunks[1..], sequence, chunks[0].end, next);
    }
  }

  // ----- From the child's bytes to what the daemon reads -----

  /** When the bytes of a text end with those of another, the text ends with the other. */
  lemma {:induction false} TextSuffix(whole: string, front: Bytes, back: string) returns (k: nat)
    requires EncodeAll(whole) == front + EncodeAll(back)
    ensures k <= |whole| && back == whole[k..]
    decreases |whole|
  {
    if front == [] {
      assert front + EncodeAll(back) == EncodeAll(back);
      LossyInvertsEncode(whole);
      LossyInvertsEncode(back);
      k := 0;
    } else {
      var e := Encode(whole[0]);
      FrontIsWhole(whole, front, back);
      assert front == e + front[|e|..];
      assert EncodeAll(whole[1..]) == EncodeAll(whole)[|e|..] == front[|e|..] + EncodeAll(back);
      k := TextSuffix(whole[1..], front[|e|..], back);
      k := k + 1;
    }
  }

  /** The cut cannot fall inside the first character: what follows would begin with a continuation byte. */
  lemma FrontIsWhole(whole: string, front: Bytes, back: string)
    requires EncodeAll(whole) == front + EncodeAll(back) && front != []
    ensures whole != "" && |Encode(whole[0])| <= |front| && front[..|Encode(whole[0])|] == Encode(whole[0])
  {
    assert whole != "";
    var e, data := Encode(whole[0]), EncodeAll(whole);
    assert data[..|e|] == e;
    EncodingTail(whole[0]);
    assert forall i | 1 <= i < |e| :: data[i] == e[i] && Continuation(data[i]);
    FirstByte(back);
    assert back != "" ==> data[|front|] == EncodeAll(back)[0];
    assert front <= data && |e| <= |front|;
    assert front[..|e|] == data[..|e|];
  }

  lemma FirstByte(text: string)
    ensures text != "" ==> EncodeAll(text) != [] && !Continuation(EncodeAll(text)[0])
    ensures text == "" ==> EncodeAll(text) == []
  {
    if text != "" { EncodingJoins(text[0]); }
  }

  /** Masked output hides every secret. */
  lemma ClosedHidesSecrets(text: string, secrets: seq<string>, p: int, s: string)
    requires OutputReader.Separable(secrets) && s in secrets
    ensures !Redaction.MatchesAt(Redaction.Close(text, secrets), p, s)
  {
    hide Redaction.MatchesAt, Redaction.Close, Redaction.NoOverlap, Redaction.MarkerFree, Redaction.Kept;
    Redaction.StreamHidesSecrets([text], secrets, p, s);
    Redaction.StreamIsOneShot([text], secrets);
    OneChunkText(text);
  }

  lemma OneChunkText(text: string)
    ensures Redaction.Concat([text]) == text
  {
    assert [text][1..] == [];
    assert Redaction.Concat([text]) == text + Redaction.Concat([]);
  }

  lemma SuffixHides(whole: string, k: nat, p: int, s: string)
    requires k <= |whole| && !Redaction.MatchesAt(whole, k + p, s) && p >= 0
    ensures !Redaction.MatchesAt(whole[k..], p, s)
  {
    if Redaction.MatchesAt(whole[k..], p, s) {
      forall i | 0 <= i < |s| ensures whole[k + p + i] == s[i] {
        assert whole[k..][p + i] == s[i];
      }
    }
  }

  /** A PTY session end to end: whatever the sizes of the reads, the text that the daemon reads back
      is the end of the redacted output, and no secret occurs in it, evictions included. */
  method ReadSession(pieces: seq<Bytes>, secrets: seq<string>, cap: nat) returns (text: string)
    ensures OutputReader.Separable(secrets) ==>
              && (exists k :: 0 <= k <= |Redaction.Close(Lossy(Flatten(pieces)), secrets)|
                              && text == Redaction.Close(Lossy(Flatten(pieces)), secrets)[k..])
              && forall s, p | s in secrets :: !Redaction.MatchesAt(text, p, s)
  {
    hide Sound, Retains, EncodeAll, Lossy, Redaction.Close, Redaction.MatchesAt, OutputReader.Separable;
    var j := new OutputJournal(true, cap);
    var out, _ := OutputReader.ReadStream(pieces, secrets, true, j);
    assert j.accepted == EncodeAll(out);
    text := ReadOutput(j);
    assert EncodeAll(out) == j.accepted[..j.firstRetained] + EncodeAll(text);
    ghost var k := TextSuffix(out, j.accepted[..j.firstRetained], text);
    if OutputReader.Separable(secrets) {
      forall s, p | s in secrets ensures !Redaction.MatchesAt(text, p, s) {
        SuffixIsClean(Lossy(Flatten(pieces)), secrets, k, p, s);
      }
    }
  }

  lemma SuffixIsClean(text: string, secrets: seq<string>, k: nat, p: int, s: string)
    requires OutputReader.Separable(secrets) && s in secrets && k <= |Redaction.Close(text, secrets)|
    ensures !Redaction.MatchesAt(Redaction.Close(text, secrets)[k..], p, s)
  {
    hide OutputReader.Separable, Redaction.Close;
    if p >= 0 {
      ClosedHidesSecrets(text, secrets, k + p, s);
      SuffixHides(Redaction.Close(text, secrets), k, p, s);
    }
  }
}
