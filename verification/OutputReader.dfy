/** The reader threads of the worker: each read goes through the decoder and the redactor, and
the end of the stream flushes both. */
module OutputReader {
  import Utf8
  import Redaction
  import Journal

  ghost predicate Separable(secrets: seq<string>) {
    Redaction.NoOverlap(secrets) && Redaction.MarkerFree(secrets) && Redaction.Kept(secrets)
  }

  /** What has been emitted and what is held back, against the text settled so far. */
  ghost predicate InStep(text: string, m: nat, secrets: seq<string>, out: string, tail: string) {
    && Redaction.CleanCut(text, secrets, m)
    && out == Redaction.Mask(text[..m], secrets)
    && tail == text[m..]
  }

  lemma NothingRead(secrets: seq<string>)
    ensures InStep("", 0, secrets, "", "")
  {
    forall more: string ensures !Redaction.Straddled("" + more, secrets, 0) {
    }
  }

  /** Feeding `data` to the open redactor keeps step. */
  lemma StaysInStep(text: string, m: nat, secrets: seq<string>, out: string, tail: string, data: string)
    returns (n: nat)
    requires Separable(secrets) && InStep(text, m, secrets, out, tail)
    ensures var split := Redaction.OpenSplit(tail + data, secrets);
            InStep(text + data, n, secrets, out + Redaction.Redact((tail + data)[..split], secrets),
                   (tail + data)[split..])
  {
    Redaction.CleanCutExtends(text, data, secrets, m);
    var whole := text + data;
    assert whole[m..] == tail + data && whole[..m] == text[..m];
    n := Redaction.StreamSteps(whole, m, secrets);
  }

  /** Closing the redactor on the last `data` completes the output. */
  lemma EndsInStep(text: string, m: nat, secrets: seq<string>, out: string, tail: string, data: string)
    requires Separable(secrets) && InStep(text, m, secrets, out, tail)
    ensures out + Redaction.Close(tail + data, secrets) == Redaction.Close(text + data, secrets)
  {
    Redaction.CleanCutExtends(text, data, secrets, m);
    var whole := text + data;
    assert whole[m..] == tail + data && whole[..m] == text[..m];
    Redaction.StreamEnds(whole, m, secrets);
  }

  /** The journal works, and a PTY has journalled exactly `out` since `before`. */
  ghost predicate Journalled(journal: Journal.OutputJournal, before: Utf8.Bytes, out: string)
    reads journal
  {
    && journal.Valid() && !journal.storageFailed
    && (journal.pty ==> journal.accepted == before + Utf8.EncodeAll(out))
  }

  lemma NothingJournalled(journal: Journal.OutputJournal)
    requires journal.Valid() && !journal.storageFailed
    ensures Journalled(journal, journal.accepted, "")
  {
    Journal.EncodeNothing();
  }

  method Emit(journal: Journal.OutputJournal, toStdout: bool, piece: string, ghost before: Utf8.Bytes,
              ghost out: string)
    requires Journalled(journal, before, out)
    modifies journal
    ensures Journalled(journal, before, out + piece)
  {
    hide Utf8.EncodeAll, Journal.Sound, Journal.Retains;
    var _ := journal.Append(toStdout, piece, true, {});
    Journal.EncodeConcat(out, piece);
  }

  /** One reader thread over the reads `chunks`, while storage works. Whatever the sizes of the reads,
      the output is the redaction of the lossy decoding of all the bytes, between reads at most three
      bytes and twice the hold are kept back, and a PTY journals exactly that output. */
  method ReadStream(chunks: seq<Utf8.Bytes>, secrets: seq<string>, toStdout: bool, journal: Journal.OutputJournal)
    returns (out: string, pending: nat)
    requires journal.Valid() && !journal.storageFailed
    modifies journal
    ensures Journalled(journal, old(journal.accepted), out)
    ensures Separable(secrets) ==>
              && out == Redaction.Close(Utf8.Lossy(Utf8.Flatten(chunks)), secrets)
              && pending <= 3 + 2 * Redaction.Hold(secrets)
  {
    hide Redaction.OpenSplit, Redaction.Close, Redaction.Redact, Utf8.Lossy, Utf8.Settled, Utf8.Carry;
    NothingJournalled(journal);
    hide Separable, InStep, Journalled;
    var carry: Utf8.Bytes := [];
    var tail: string := "";
    out, pending := "", 0;
    ghost var text: string := "";
    ghost var m: nat := 0;
    NothingRead(secrets);
    assert chunks[0..] == chunks && carry + Utf8.Flatten(chunks) == Utf8.Flatten(chunks);
    assert "" + Utf8.Lossy(Utf8.Flatten(chunks)) == Utf8.Lossy(Utf8.Flatten(chunks));
    for i := 0 to |chunks|
      invariant |carry| <= 3
      invariant Utf8.Lossy(Utf8.Flatten(chunks)) == text + Utf8.Lossy(carry + Utf8.Flatten(chunks[i..]))
      invariant Separable(secrets) ==> InStep(text, m, secrets, out, tail)
      invariant Separable(secrets) ==> pending <= 3 + 2 * Redaction.Hold(secrets)
      invariant Journalled(journal, old(journal.accepted), out)
    {
      ghost var rest := Utf8.Flatten(chunks[i + 1..]);
      assert chunks[i..][1..] == chunks[i + 1..];
      assert carry + (chunks[i] + rest) == (carry + chunks[i]) + rest;
      Utf8.LossySplits(carry + chunks[i], rest);
      ghost var before := tail;
      var decoded, piece;
      decoded, carry := Utf8.DecodeStream(carry, chunks[i]);
      piece, tail := Redaction.RedactStream(decoded, tail, secrets, false);
      if Separable(secrets) {
        m := StaysInStep(text, m, secrets, out, before, decoded);
        TailIsShort(before + decoded, secrets);
      }
      text := text + decoded;
      Emit(journal, toStdout, piece, old(journal.accepted), out);
      out := out + piece;
      pending := if |carry| + |tail| > pending then |carry| + |tail| else pending;
    }
    assert carry + Utf8.Flatten(chunks[|chunks|..]) == carry;
    var flushed := Utf8.Lossy(carry);
    var last, none := Redaction.RedactStream(flushed, tail, secrets, true);
    if Separable(secrets) {
      EndsInStep(text, m, secrets, out, tail, flushed);
    }
    Emit(journal, toStdout, last, old(journal.accepted), out);
    out := out + last;
  }

  lemma TailIsShort(text: string, secrets: seq<string>)
    requires Separable(secrets)
    ensures Redaction.OpenSplit(text, secrets) <= |text|
    ensures |text[Redaction.OpenSplit(text, secrets)..]| <= 2 * Redaction.Hold(secrets)
  {
    Redaction.HoldsBackLittle(text, secrets);
  }
}
