/** Streaming redaction of secrets (`redact`, `redact_tail`, `redact_stream`).

The worker sees its child's text in chunks. It emits what can no longer be part of a secret
and holds the rest back. The reference is one call on the whole text. The two agree for
secrets that cannot overlap, and for a single secret in no other case.
 */
module Redaction {
  import opened Options
  import Utf8

  const MARKER: string := "[REDACTED]"
  const MIN_SECRET: nat := 4

  // ----- The worker's functions -----

  /** `str::replace`: leftmost occurrences first, without overlap. */
  function Replace(text: string, secret: string): string
    requires secret != ""
  {
    if text == "" then ""
    else if secret <= text then MARKER + Replace(text[|secret|..], secret)
    else [text[0]] + Replace(text[1..], secret)
  }

  function Redact(text: string, secrets: seq<string>): string
    decreases |secrets|
  {
    if secrets == [] then text
    else if |Utf8.EncodeAll(secrets[0])| >= MIN_SECRET && secrets[0] != "" then
      Redact(Replace(text, secrets[0]), secrets[1..])
    else Redact(text, secrets[1..])
  }

  predicate HiddenTail(tail: string, secret: string) {
    MIN_SECRET <= |tail| < |secret| && tail <= secret
  }

  function RedactTail(tail: string, secrets: seq<string>): string {
    if exists i :: 0 <= i < |secrets| && HiddenTail(tail, secrets[i]) then MARKER
    else Redact(tail, secrets)
  }

  /** How many characters an unfinished stream always holds back. */
  function Hold(secrets: seq<string>): (h: nat)
    ensures forall s | s in secrets :: |s| - 1 <= h
    ensures h == 0 || exists s :: s in secrets && h == |s| - 1
  {
    if secrets == [] then 0
    else
      var rest := Hold(secrets[1..]);
      var first := if secrets[0] == "" then 0 else |secrets[0]| - 1;
      if first > rest then first else rest
  }

  predicate MatchesAt(text: string, i: int, s: string) {
    0 <= i && i + |s| <= |text| && forall k | 0 <= k < |s| :: text[i + k] == s[k]
  }

  /** One step of the inner loop while the stream is open. */
  function Backed(text: string, s: string, start: nat, split: nat): nat
    requires start <= |text|
  {
    var prefix := if |text| - start < |s| then |text| - start else |s|;
    if start + |s| > split && text[start..start + prefix] == s[..prefix] then start else split
  }

  function BackSecret(text: string, s: string, start: nat, initial: nat, split: nat): (r: nat)
    requires start <= initial <= |text| && split <= initial
    ensures r <= initial
    decreases initial - start
  {
    if start == initial then split
    else BackSecret(text, s, start + 1, initial, Backed(text, s, start, split))
  }

  function BackAll(text: string, secrets: seq<string>, initial: nat, split: nat): (r: nat)
    requires split <= initial <= |text|
    ensures r <= initial
  {
    if secrets == [] then split
    else BackAll(text, secrets[1..], initial, BackSecret(text, secrets[0], 0, initial, split))
  }

  function Initial(text: string, secrets: seq<string>): (i: nat)
    ensures i <= |text|
  {
    if |text| < Hold(secrets) then 0 else |text| - Hold(secrets)
  }

  /** Where an open stream cuts its buffered text. */
  function OpenSplit(text: string, secrets: seq<string>): (r: nat)
    ensures r <= Initial(text, secrets) <= |text|
  {
    BackAll(text, secrets, Initial(text, secrets), Initial(text, secrets))
  }

  predicate InsideFull(text: string, s: string, start: nat) {
    exists full :: 0 <= full <= start < full + |s| && MatchesAt(text, full, s)
  }

  predicate Dangling(text: string, s: string, start: nat)
    requires start <= |text|
  {
    HiddenTail(text[start..], s) && !InsideFull(text, s, start)
  }

  function CloseSecret(text: string, s: string, start: nat, split: nat): (r: nat)
    requires start <= |text| && split <= |text|
    ensures r <= |text|
    decreases |text| - start
  {
    if start == |text| then split
    else CloseSecret(text, s, start + 1, if Dangling(text, s, start) && start < split then start else split)
  }

  function CloseAll(text: string, secrets: seq<string>, split: nat): (r: nat)
    requires split <= |text|
    ensures r <= |text|
  {
    if secrets == [] then split
    else CloseAll(text, secrets[1..], CloseSecret(text, secrets[0], 0, split))
  }

  /** Where a finished stream cuts its buffered text. */
  function CloseSplit(text: string, secrets: seq<string>): (r: nat)
    ensures r <= |text|
  {
    CloseAll(text, secrets, |text|)
  }

  /** `redact_stream` with `finish`: the output for everything still buffered. */
  function Close(text: string, secrets: seq<string>): string {
    var split := CloseSplit(text, secrets);
    Redact(text[..split], secrets) + RedactTail(text[split..], secrets)
  }

  /** The reader: one open call per chunk, then the finishing call. */
  function Stream(tail: string, chunks: seq<string>, secrets: seq<string>): string
    decreases |chunks|
  {
    if chunks == [] then Close(tail, secrets)
    else
      var text := tail + chunks[0];
      var split := OpenSplit(text, secrets);
      Redact(text[..split], secrets) + Stream(text[split..], chunks[1..], secrets)
  }

  function Concat(chunks: seq<string>): string {
    if chunks == [] then "" else chunks[0] + Concat(chunks[1..])
  }

  /** `redact_stream` as the worker writes it: the output and the new tail. */
  method RedactStream(data: string, tail: string, secrets: seq<string>, finish: bool)
    returns (out: string, rest: string)
    ensures !finish ==>
              var text := tail + data;
              var split := OpenSplit(text, secrets);
              out == Redact(text[..split], secrets) && rest == text[split..]
    ensures finish ==> out == Close(tail + data, secrets) && rest == ""
  {
    var combined := tail + data;
    var split: nat := if finish then |combined| else Initial(combined, secrets);
    var initial: nat := split;
    for i := 0 to |secrets|
      invariant split <= initial
      invariant finish ==> CloseAll(combined, secrets, |combined|) == CloseAll(combined, secrets[i..], split)
      invariant !finish ==>
                BackAll(combined, secrets, initial, initial) == BackAll(combined, secrets[i..], initial, split)
    {
      var s := secrets[i];
      assert secrets[i..][1..] == secrets[i + 1..];
      ghost var before: nat := split;
      if finish {
        for start := 0 to |combined|
          invariant split <= initial
          invariant CloseSecret(combined, s, 0, before) == CloseSecret(combined, s, start, split)
        {
          if Dangling(combined, s, start) && start < split {
            split := start;
          }
        }
      } else {
        for start := 0 to initial
          invariant split <= initial
          invariant BackSecret(combined, s, 0, initial, before) == BackSecret(combined, s, start, initial, split)
        {
          split := Backed(combined, s, start, split);
        }
      }
    }
    out := Redact(combined[..split], secrets);
    rest := combined[split..];
    if finish {
      out := out + RedactTail(rest, secrets);
      rest := "";
    }
  }

  // ----- Secrets that cannot overlap -----

  /** `t` laid over `s` from position `d` agrees wherever both have a character. */
  predicate Agree(s: string, t: string, d: nat) {
    forall k | d <= k < |s| && k - d < |t| :: s[k] == t[k - d]
  }

  ghost predicate NoOverlap(secrets: seq<string>) {
    && (forall s | s in secrets :: s != "")
    && (forall s, t, d: nat | s in secrets && t in secrets && d < |s| && Agree(s, t, d) :: s == t && d == 0)
  }

  /** No secret can be found inside or across the marker. */
  ghost predicate MarkerFree(secrets: seq<string>) {
    && (forall s, d: nat | s in secrets && d < |s| :: !Agree(s, MARKER, d))
    && (forall s, d: nat | s in secrets && d < |MARKER| :: !Agree(MARKER, s, d))
  }

  /** What the worker keeps of its bootstrap: secrets of at least four bytes. */
  ghost predicate Kept(secrets: seq<string>) {
    forall s | s in secrets :: s != "" && |Utf8.EncodeAll(s)| >= MIN_SECRET
  }

  ghost predicate Straddled(text: string, secrets: seq<string>, m: int) {
    exists s, a :: s in secrets && MatchesAt(text, a, s) && a < m < a + |s|
  }

  /** Two occurrences that share a position are the same occurrence. */
  lemma OccurrencesAreDisjoint(text: string, secrets: seq<string>, s: string, a: int, t: string, b: int)
    requires NoOverlap(secrets) && s in secrets && t in secrets
    requires MatchesAt(text, a, s) && MatchesAt(text, b, t) && a <= b < a + |s|
    ensures a == b && s == t
  {
    var d := b - a;
    forall k | d <= k < |s| && k - d < |t|
      ensures s[k] == t[k - d]
    {
      assert text[a + k] == s[k] && text[b + (k - d)] == t[k - d];
    }
    assert Agree(s, t, d);
  }

  // ----- The open split -----

  /** `split` is the initial cut, or the start of a secret lying across it. */
  ghost predicate OnSecret(text: string, secrets: seq<string>, initial: nat, split: nat) {
    split == initial || exists s :: s in secrets && MatchesAt(text, split, s) && split < initial < split + |s|
  }

  lemma BackedIsMatch(text: string, secrets: seq<string>, s: string, start: nat, split: nat)
    requires s in secrets && start < Initial(text, secrets)
    ensures Backed(text, s, start, split) == if start + |s| > split && MatchesAt(text, start, s) then start else split
  {
    assert |text| - start >= |s|;
    assert text[start..start + |s|] == s <==> MatchesAt(text, start, s) by {
      if text[start..start + |s|] == s {
        forall k | 0 <= k < |s| ensures text[start + k] == s[k] { assert text[start..start + |s|][k] == s[k]; }
      }
    }
    assert s[..|s|] == s;
  }

  lemma BackedKeepsOnSecret(text: string, secrets: seq<string>, s: string, start: nat, split: nat)
    requires NoOverlap(secrets) && s in secrets && start < Initial(text, secrets)
    requires split <= Initial(text, secrets) && OnSecret(text, secrets, Initial(text, secrets), split)
    ensures OnSecret(text, secrets, Initial(text, secrets), Backed(text, s, start, split))
    ensures split < Initial(text, secrets) ==> Backed(text, s, start, split) == split
    ensures MatchesAt(text, start, s) && start + |s| > Initial(text, secrets) ==> Backed(text, s, start, split) == start
  {
    var initial := Initial(text, secrets);
    BackedIsMatch(text, secrets, s, start, split);
    if split < initial && MatchesAt(text, start, s) && start + |s| > split {
      var u :| u in secrets && MatchesAt(text, split, u) && split < initial < split + |u|;
      if start <= split {
        OccurrencesAreDisjoint(text, secrets, s, start, u, split);
      } else {
        OccurrencesAreDisjoint(text, secrets, u, split, s, start);
      }
    }
  }

  lemma {:induction false} BackSecretFinds(text: string, secrets: seq<string>, s: string, start: nat, split: nat)
    requires NoOverlap(secrets) && s in secrets && start <= Initial(text, secrets)
    requires split <= Initial(text, secrets) && OnSecret(text, secrets, Initial(text, secrets), split)
    ensures var initial := Initial(text, secrets);
            var r := BackSecret(text, s, start, initial, split);
            && OnSecret(text, secrets, initial, r)
            && (split < initial ==> r == split)
            && (forall a | start <= a < initial && MatchesAt(text, a, s) && a + |s| > initial :: r == a)
    decreases Initial(text, secrets) - start
  {
    hide Backed, MatchesAt, NoOverlap, OnSecret;
    if start < Initial(text, secrets) {
      BackedKeepsOnSecret(text, secrets, s, start, split);
      BackSecretFinds(text, secrets, s, start + 1, Backed(text, s, start, split));
    }
  }

  lemma {:induction false} BackAllFinds(text: string, secrets: seq<string>, part: seq<string>, split: nat)
    requires NoOverlap(secrets) && (forall s | s in part :: s in secrets)
    requires split <= Initial(text, secrets) && OnSecret(text, secrets, Initial(text, secrets), split)
    ensures var initial := Initial(text, secrets);
            var r := BackAll(text, part, initial, split);
            && OnSecret(text, secrets, initial, r)
            && (split < initial ==> r == split)
            && (forall s, a | s in part && 0 <= a < initial && MatchesAt(text, a, s) && a + |s| > initial :: r == a)
  {
    if part != [] {
      var initial := Initial(text, secrets);
      BackSecretFinds(text, secrets, part[0], 0, split);
      var next := BackSecret(text, part[0], 0, initial, split);
      BackAllFinds(text, secrets, part[1..], next);
      forall s, a | s in part && 0 <= a < initial && MatchesAt(text, a, s) && a + |s| > initial
        ensures BackAll(text, part, initial, split) == a
      {
        if s != part[0] { assert s in part[1..]; }
      }
    }
  }

  /** The open cut never falls inside a secret, whatever text follows. */
  lemma OpenSplitIsClean(text: string, secrets: seq<string>, more: string)
    requires NoOverlap(secrets)
    ensures !Straddled(text + more, secrets, OpenSplit(text, secrets))
  {
    var initial, r := Initial(text, secrets), OpenSplit(text, secrets);
    BackAllFinds(text, secrets, secrets, initial);
    forall s, a | s in secrets && MatchesAt(text + more, a, s) && a < r < a + |s|
      ensures false
    {
      assert a + |s| <= |text|;
      forall k | 0 <= k < |s| ensures text[a + k] == s[k] { assert (text + more)[a + k] == s[k]; }
      assert MatchesAt(text, a, s);
      if r < initial {
        var u :| u in secrets && MatchesAt(text, r, u) && r < initial < r + |u|;
        OccurrencesAreDisjoint(text, secrets, s, a, u, r);
      }
    }
  }

  /** An open stream holds back fewer than twice the longest secret. */
  lemma HoldsBackLittle(text: string, secrets: seq<string>)
    requires NoOverlap(secrets)
    ensures |text| - OpenSplit(text, secrets) <= 2 * Hold(secrets)
  {
    BackAllFinds(text, secrets, secrets, Initial(text, secrets));
  }

  // ----- Masking: all secrets at once -----

  function Front(text: string, secrets: seq<string>): (s: Option<string>)
    ensures s.Some? ==> s.value in secrets && s.value != "" && s.value <= text
    ensures s.None? ==> forall u | u in secrets && u != "" :: !(u <= text)
  {
    if secrets == [] then None
    else if secrets[0] != "" && secrets[0] <= text then Some(secrets[0])
    else
      assert forall u | u in secrets :: u == secrets[0] || u in secrets[1..];
      Front(text, secrets[1..])
  }

  /** One pass over the text that replaces whichever secret stands at the front. */
  function Mask(text: string, secrets: seq<string>): string {
    if text == "" then ""
    else match Front(text, secrets)
      case Some(s) => MARKER + Mask(text[|s|..], secrets)
      case None => [text[0]] + Mask(text[1..], secrets)
  }

  lemma FrontIsUnique(text: string, secrets: seq<string>, s: string)
    requires NoOverlap(secrets) && s in secrets && s <= text
    ensures Front(text, secrets) == Some(s)
  {
    var u := Front(text, secrets).value;
    assert MatchesAt(text, 0, u) && MatchesAt(text, 0, s);
    OccurrencesAreDisjoint(text, secrets, u, 0, s, 0);
  }

  lemma MatchShifts(text: string, n: nat, i: int, s: string)
    requires n <= |text| && MatchesAt(text[n..], i, s)
    ensures MatchesAt(text, n + i, s)
  {
    forall k | 0 <= k < |s| ensures text[n + i + k] == s[k] { assert text[n..][i + k] == s[k]; }
  }

  lemma StraddleShifts(text: string, secrets: seq<string>, n: nat, m: int)
    requires n <= |text| && n <= m && !Straddled(text, secrets, m)
    ensures !Straddled(text[n..], secrets, m - n)
  {
    forall s, a | s in secrets && MatchesAt(text[n..], a, s) && a < m - n < a + |s|
      ensures false
    {
      MatchShifts(text, n, a, s);
    }
  }

  /** Masking can be done piecewise at any cut that no secret lies across. */
  lemma {:induction false} MaskSplits(x: string, y: string, secrets: seq<string>)
    requires NoOverlap(secrets) && !Straddled(x + y, secrets, |x|)
    ensures Mask(x + y, secrets) == Mask(x, secrets) + Mask(y, secrets)
  {
    if x == "" {
      assert x + y == y;
    } else {
      var front := Front(x + y, secrets);
      if front.Some? {
        var s := front.value;
        assert MatchesAt(x + y, 0, s);
        assert |s| <= |x|;
        assert s <= x;
        FrontIsUnique(x, secrets, s);
        assert (x + y)[|s|..] == x[|s|..] + y;
        StraddleShifts(x + y, secrets, |s|, |x|);
        MaskSplits(x[|s|..], y, secrets);
      } else {
        assert Front(x, secrets).None? by {
          assert forall u | u in secrets && u <= x :: u <= x + y;
        }
        assert (x + y)[1..] == x[1..] + y;
        StraddleShifts(x + y, secrets, 1, |x|);
        MaskSplits(x[1..], y, secrets);
      }
    }
  }

  /** Masked text begins with (part of) a secret only where the text itself does. */
  lemma {:induction false} MaskedPrefix(text: string, done: seq<string>, t: string, j: nat)
    requires MarkerFree([t]) && j <= |t| && t[j..] <= Mask(text, done)
    ensures t[j..] <= text
    decreases |t| - j
  {
    if j < |t| {
      assert t[j..][0] == t[j];
      if Front(text, done).Some? {
        forall k | j <= k < |t| && k - j < |MARKER| ensures t[k] == MARKER[k - j] {
          assert t[j..][k - j] == t[k];
        }
        assert Agree(t, MARKER, j);
        assert false;
      }
      assert t[j..][1..] == t[j + 1..];
      assert t[j + 1..] <= Mask(text[1..], done) by {
        assert Mask(text, done)[1..] == Mask(text[1..], done);
      }
      MaskedPrefix(text[1..], done, t, j + 1);
    }
  }

  /** Replacing a secret leaves a front alone that the secret cannot begin in. */
  lemma {:induction false} ReplaceKeeps(t: string, front: string, rest: string)
    requires t != "" && forall d: nat | d < |front| :: !Agree(front, t, d)
    ensures Replace(front + rest, t) == front + Replace(rest, t)
  {
    var text := front + rest;
    if front == "" {
      assert text == rest;
    } else {
      assert !(t <= text) by {
        assert !Agree(front, t, 0);
      }
      forall d: nat | d < |front[1..]| ensures !Agree(front[1..], t, d) {
        if Agree(front[1..], t, d) {
          forall k | d + 1 <= k < |front| && k - (d + 1) < |t| ensures front[k] == t[k - (d + 1)] {
            assert front[1..][k - 1] == t[k - 1 - d];
          }
          assert Agree(front, t, d + 1);
        }
      }
      assert text[1..] == front[1..] + rest;
      ReplaceKeeps(t, front[1..], rest);
    }
  }

  /** Text that no listed secret starts in passes through the mask. */
  lemma {:induction false} MaskPasses(text: string, done: seq<string>, n: nat)
    requires n <= |text| && forall i | 0 <= i < n :: Front(text[i..], done).None?
    ensures Mask(text, done) == text[..n] + Mask(text[n..], done)
    decreases n
  {
    hide Front;
    assert text[0..] == text;
    if n > 0 {
      forall i | 0 <= i < n - 1 ensures Front(text[1..][i..], done).None? {
        assert text[1..][i..] == text[i + 1..];
      }
      MaskPasses(text[1..], done, n - 1);
      assert text[1..][n - 1..] == text[n..];
      assert text[..n] == [text[0]] + text[1..][..n - 1];
    }
  }

  lemma NoFrontInside(text: string, done: seq<string>, t: string, i: nat)
    requires NoOverlap(done + [t]) && t <= text && i < |t| && Front(text, done).None?
    ensures Front(text[i..], done).None?
  {
    var all := done + [t];
    if Front(text[i..], done).Some? {
      var u := Front(text[i..], done).value;
      forall k | 0 <= k < |u| ensures text[i + k] == u[k] { assert text[i..][k] == u[k]; }
      assert MatchesAt(text, 0, t) && MatchesAt(text, i, u);
      assert t in all && u in all;
      OccurrencesAreDisjoint(text, all, t, 0, u, i);
    }
  }

  /** Replacing one more secret in masked text masks that secret too. */
  lemma {:induction false} ReplaceExtendsMask(text: string, done: seq<string>, t: string)
    requires t != "" && NoOverlap(done + [t]) && MarkerFree([t])
    ensures Replace(Mask(text, done), t) == Mask(text, done + [t])
  {
    var all := done + [t];
    if text != "" {
      if Front(text, done).Some? {
        var s := Front(text, done).value;
        FrontIsUnique(text, all, s);
        ReplaceKeeps(t, MARKER, Mask(text[|s|..], done));
        ReplaceExtendsMask(text[|s|..], done, t);
      } else if t <= text {
        FrontIsUnique(text, all, t);
        forall i | 0 <= i < |t| ensures Front(text[i..], done).None? { NoFrontInside(text, done, t, i); }
        MaskPasses(text, done, |t|);
        assert text[..|t|] == t;
        assert (t + Mask(text[|t|..], done))[|t|..] == Mask(text[|t|..], done);
        ReplaceExtendsMask(text[|t|..], done, t);
      } else {
        assert Front(text, all).None? by {
          assert forall u | u in all :: u in done || u == t;
        }
        if t <= Mask(text, done) {
          assert t[0..] == t;
          MaskedPrefix(text, done, t, 0);
        }
        assert Mask(text, done)[1..] == Mask(text[1..], done);
        ReplaceExtendsMask(text[1..], done, t);
      }
    }
  }

  lemma {:induction false} MaskNothing(text: string)
    ensures Mask(text, []) == text
  {
    if text != "" { MaskNothing(text[1..]); }
  }

  lemma {:induction false} RedactExtendsMask(text: string, done: seq<string>, rest: seq<string>)
    requires NoOverlap(done + rest) && MarkerFree(rest) && Kept(rest)
    ensures Redact(Mask(text, done), rest) == Mask(text, done + rest)
    decreases |rest|
  {
    if rest == [] {
      assert done + rest == done;
    } else {
      var t := rest[0];
      assert done + rest == (done + [t]) + rest[1..];
      assert forall s | s in done + [t] :: s in done + rest;
      assert MarkerFree([t]) by { assert t in rest; }
      ReplaceExtendsMask(text, done, t);
      RedactExtendsMask(text, done + [t], rest[1..]);
    }
  }

  /** The worker replaces its secrets one after the other; the order does not matter. */
  lemma RedactIsMask(text: string, secrets: seq<string>)
    requires NoOverlap(secrets) && MarkerFree(secrets) && Kept(secrets)
    ensures Redact(text, secrets) == Mask(text, secrets)
  {
    MaskNothing(text);
    assert [] + secrets == secrets;
    RedactExtendsMask(text, [], secrets);
  }

  // ----- The stream against one call on the whole text -----

  /** Some proper prefix of a secret, long enough to be hidden, ends the text at `start`. */
  predicate Partial(text: string, secrets: seq<string>, start: nat)
    requires start <= |text|
  {
    exists i :: 0 <= i < |secrets| && HiddenTail(text[start..], secrets[i])
  }

  ghost predicate LeastPartial(text: string, secrets: seq<string>, r: nat) {
    && r <= |text|
    && (r == |text| || Partial(text, secrets, r))
    && forall start: nat | start < r :: !Partial(text, secrets, start)
  }

  /** A trailing partial secret never lies in a whole one. */
  lemma PartialDangles(text: string, secrets: seq<string>, s: string, start: nat)
    requires NoOverlap(secrets) && s in secrets && start <= |text| && HiddenTail(text[start..], s)
    ensures Dangling(text, s, start)
  {
    if InsideFull(text, s, start) {
      var full :| 0 <= full <= start < full + |s| && MatchesAt(text, full, s);
      var d: nat := start - full;
      forall k | d <= k < |s| && k - d < |s| ensures s[k] == s[k - d] {
        assert text[full + k] == s[k];
        assert text[start..][k - d] == s[k - d];
      }
      assert Agree(s, s, d);
    }
  }

  lemma {:induction false} CloseSecretFinds(text: string, secrets: seq<string>, s: string, start: nat, split: nat)
    requires NoOverlap(secrets) && s in secrets && start <= |text| && split <= |text|
    ensures var r := CloseSecret(text, s, start, split);
            && r <= split
            && (r == split || HiddenTail(text[r..], s))
            && (forall b: nat | start <= b < |text| && HiddenTail(text[b..], s) :: r <= b)
    decreases |text| - start
  {
    if start < |text| {
      if HiddenTail(text[start..], s) { PartialDangles(text, secrets, s, start); }
      CloseSecretFinds(text, secrets, s, start + 1, if Dangling(text, s, start) && start < split then start else split);
    }
  }

  lemma {:induction false} CloseAllFinds(text: string, secrets: seq<string>, part: seq<string>, split: nat)
    requires NoOverlap(secrets) && (forall s | s in part :: s in secrets) && split <= |text|
    ensures var r := CloseAll(text, part, split);
            && r <= split
            && (r == split || Partial(text, part, r))
            && (forall b: nat | b < |text| && Partial(text, part, b) :: r <= b)
  {
    if part != [] {
      var next := CloseSecret(text, part[0], 0, split);
      CloseSecretFinds(text, secrets, part[0], 0, split);
      CloseAllFinds(text, secrets, part[1..], next);
      var r := CloseAll(text, part, split);
      if r < next {
        var i :| 0 <= i < |part[1..]| && HiddenTail(text[r..], part[1..][i]);
        assert part[i + 1] == part[1..][i];
      }
      forall b: nat | b < |text| && Partial(text, part, b) ensures r <= b {
        var i :| 0 <= i < |part| && HiddenTail(text[b..], part[i]);
        if i > 0 {
          assert part[1..][i - 1] == part[i];
          assert Partial(text, part[1..], b);
        }
      }
    }
  }

  /** The finishing cut is the start of the longest partial secret that ends the text. */
  lemma CloseSplitIsLeast(text: string, secrets: seq<string>)
    requires NoOverlap(secrets)
    ensures LeastPartial(text, secrets, CloseSplit(text, secrets))
  {
    CloseAllFinds(text, secrets, secrets, |text|);
  }

  lemma LeastPartialIsUnique(text: string, secrets: seq<string>, r: nat, q: nat)
    requires LeastPartial(text, secrets, r) && LeastPartial(text, secrets, q)
    ensures r == q
  {
  }

  /** One call on the whole text: mask it, and hide a partial secret at its end. */
  lemma CloseIsMask(text: string, secrets: seq<string>, r: nat)
    requires NoOverlap(secrets) && MarkerFree(secrets) && Kept(secrets) && LeastPartial(text, secrets, r)
    ensures Close(text, secrets) == Mask(text[..r], secrets) + if r == |text| then "" else MARKER
  {
    CloseSplitIsLeast(text, secrets);
    LeastPartialIsUnique(text, secrets, r, CloseSplit(text, secrets));
    RedactIsMask(text[..r], secrets);
    if r == |text| {
      assert text[r..] == "";
      RedactIsMask("", secrets);
    }
  }

  /** The cut after `m` characters is clean for every continuation of `text`. */
  ghost predicate CleanCut(text: string, secrets: seq<string>, m: nat) {
    m <= |text| && forall more: string :: !Straddled(text + more, secrets, m)
  }

  lemma CleanCutFits(text: string, secrets: seq<string>, m: nat)
    requires CleanCut(text, secrets, m)
    ensures m <= |text|
  {
  }

  lemma CleanCutExtends(text: string, data: string, secrets: seq<string>, m: nat)
    requires CleanCut(text, secrets, m)
    ensures CleanCut(text + data, secrets, m)
  {
    forall more: string ensures !Straddled(text + data + more, secrets, m) {
      assert text + data + more == text + (data + more);
    }
  }

  /** Cutting the text after a clean cut again where the stream does leaves a clean cut. */
  lemma OpenSplitExtendsCleanCut(text: string, secrets: seq<string>, m: nat)
    requires NoOverlap(secrets) && CleanCut(text, secrets, m)
    ensures CleanCut(text, secrets, m + OpenSplit(text[m..], secrets))
  {
    var r := OpenSplit(text[m..], secrets);
    forall more: string ensures !Straddled(text + more, secrets, m + r) {
      forall s, a | s in secrets && MatchesAt(text + more, a, s) && a < m + r < a + |s|
        ensures false
      {
        if a < m {
          assert Straddled(text + more, secrets, m);
        } else {
          assert (text + more)[m..] == text[m..] + more;
          forall k | 0 <= k < |s| ensures (text[m..] + more)[a - m + k] == s[k] {
            assert (text + more)[a + k] == s[k];
            assert (text + more)[m..][a - m + k] == (text + more)[a + k];
          }
          assert MatchesAt(text[m..] + more, a - m, s);
          OpenSplitIsClean(text[m..], secrets, more);
        }
      }
    }
  }

  /** No hidden partial secret starts before a clean cut. */
  lemma PartialAfterCleanCut(text: string, secrets: seq<string>, m: nat, start: nat)
    requires CleanCut(text, secrets, m) && start < m && start <= |text|
    ensures !Partial(text, secrets, start)
  {
    if Partial(text, secrets, start) {
      var i :| 0 <= i < |secrets| && HiddenTail(text[start..], secrets[i]);
      var s := secrets[i];
      var n := |text| - start;
      var more := s[n..];
      forall k | 0 <= k < |s| ensures (text + more)[start + k] == s[k] {
        if k < n { assert text[start..][k] == s[k]; }
      }
      assert MatchesAt(text + more, start, s);
      assert Straddled(text + more, secrets, m);
    }
  }

  lemma LeastPartialShifts(text: string, secrets: seq<string>, m: nat, r: nat)
    requires CleanCut(text, secrets, m) && LeastPartial(text[m..], secrets, r)
    ensures LeastPartial(text, secrets, m + r)
  {
    assert text[m..][r..] == text[m + r..];
    forall start: nat | start < m + r ensures !Partial(text, secrets, start) {
      if start < m {
        PartialAfterCleanCut(text, secrets, m, start);
      } else {
        var b: nat := start - m;
        assert !Partial(text[m..], secrets, b);
        assert text[m..][b..] == text[start..];
      }
    }
  }

  lemma CleanCutIn(text: string, secrets: seq<string>, m: nat, n: nat)
    requires NoOverlap(secrets) && CleanCut(text, secrets, m) && m <= n <= |text|
    ensures Mask(text[..n], secrets) == Mask(text[..m], secrets) + Mask(text[m..n], secrets)
  {
    assert text[..n] == text[..m] + text[m..n];
    forall s, a | s in secrets && MatchesAt(text[..n], a, s) && a < m < a + |s| ensures false {
      forall k | 0 <= k < |s| ensures (text + "")[a + k] == s[k] { assert text[..n][a + k] == s[k]; }
      assert MatchesAt(text + "", a, s);
      assert Straddled(text + "", secrets, m);
    }
    MaskSplits(text[..m], text[m..n], secrets);
  }

  lemma StreamEnds(text: string, m: nat, secrets: seq<string>)
    requires NoOverlap(secrets) && MarkerFree(secrets) && Kept(secrets) && CleanCut(text, secrets, m)
    ensures Mask(text[..m], secrets) + Close(text[m..], secrets) == Close(text, secrets)
  {
    hide Close, Mask, NoOverlap, MarkerFree, Kept, LeastPartial, CloseSplit;
    CleanCutFits(text, secrets, m);
    var r := CloseSplit(text[m..], secrets);
    CloseSplitIsLeast(text[m..], secrets);
    LeastPartialShifts(text, secrets, m, r);
    CloseIsMask(text[m..], secrets, r);
    CloseIsMask(text, secrets, m + r);
    assert text[m..][..r] == text[m..m + r];
    CleanCutIn(text, secrets, m, m + r);
    var end := if m + r == |text| then "" else MARKER;
    assert Mask(text[..m], secrets) + (Mask(text[m..m + r], secrets) + end)
        == Mask(text[..m], secrets) + Mask(text[m..m + r], secrets) + end;
  }

  /** One open call after a clean cut emits the mask of the text it lets go. */
  lemma StreamSteps(text: string, m: nat, secrets: seq<string>) returns (n: nat)
    requires NoOverlap(secrets) && MarkerFree(secrets) && Kept(secrets) && CleanCut(text, secrets, m)
    ensures CleanCut(text, secrets, n) && n == m + OpenSplit(text[m..], secrets)
    ensures text[m..][OpenSplit(text[m..], secrets)..] == text[n..]
    ensures Mask(text[..m], secrets) + Redact(text[m..][..OpenSplit(text[m..], secrets)], secrets)
         == Mask(text[..n], secrets)
  {
    var r := OpenSplit(text[m..], secrets);
    n := m + r;
    OpenSplitExtendsCleanCut(text, secrets, m);
    assert text[m..][..r] == text[m..n];
    RedactIsMask(text[m..n], secrets);
    CleanCutIn(text, secrets, m, n);
  }

  lemma Associate(a: string, b: string, c: string)
    ensures (a + b) + c == a + (b + c)
  {
  }

  lemma StreamUnfolds(tail: string, chunks: seq<string>, secrets: seq<string>)
    requires chunks != []
    ensures var text := tail + chunks[0];
            var split := OpenSplit(text, secrets);
            Stream(tail, chunks, secrets) ==
                Redact(text[..split], secrets) + Stream(text[split..], chunks[1..], secrets)
  {
  }

  /** From any clean cut on, the stream produces what is missing of the whole. */
  lemma {:induction false} StreamContinues(text: string, m: nat, chunks: seq<string>, secrets: seq<string>)
    requires NoOverlap(secrets) && MarkerFree(secrets) && Kept(secrets) && CleanCut(text, secrets, m)
    ensures Mask(text[..m], secrets) + Stream(text[m..], chunks, secrets) == Close(text + Concat(chunks), secrets)
    decreases |chunks|
  {
    hide OpenSplit, Close, CloseSplit, Redact, Mask, NoOverlap, MarkerFree, Kept, CleanCut, Straddled, MatchesAt;
    if chunks == [] {
      assert text + Concat(chunks) == text;
      StreamEnds(text, m, secrets);
    } else {
      hide Stream;
      var whole := text + chunks[0];
      CleanCutExtends(text, chunks[0], secrets, m);
      CleanCutFits(text, secrets, m);
      assert whole[m..] == text[m..] + chunks[0] && whole[..m] == text[..m];
      StreamUnfolds(text[m..], chunks, secrets);
      var n := StreamSteps(whole, m, secrets);
      StreamContinues(whole, n, chunks[1..], secrets);
      Associate(text, chunks[0], Concat(chunks[1..]));
      Associate(Mask(text[..m], secrets), Redact(whole[m..][..n - m], secrets),
                Stream(whole[n..], chunks[1..], secrets));
    }
  }

  /** However the text is cut into chunks, the output is that of one call on the whole text. */
  lemma StreamIsOneShot(chunks: seq<string>, secrets: seq<string>)
    requires NoOverlap(secrets) && MarkerFree(secrets) && Kept(secrets)
    ensures Stream("", chunks, secrets) == Close(Concat(chunks), secrets)
  {
    forall more: string ensures !Straddled("" + more, secrets, 0) {
    }
    StreamContinues("", 0, chunks, secrets);
    assert ""[..0] == "" && ""[0..] == "" && "" + Concat(chunks) == Concat(chunks);
  }

  // ----- What reaches the output -----

  lemma {:induction false} MaskHidesSecret(text: string, secrets: seq<string>, p: int, s: string)
    requires NoOverlap(secrets) && MarkerFree(secrets) && s in secrets
    ensures !MatchesAt(Mask(text, secrets), p, s)
    decreases |text|
  {
    if text != "" && MatchesAt(Mask(text, secrets), p, s) {
      var masked := Mask(text, secrets);
      if Front(text, secrets).Some? {
        var rest := Mask(text[|Front(text, secrets).value|..], secrets);
        if p < |MARKER| {
          forall k | p <= k < |MARKER| && k - p < |s| ensures MARKER[k] == s[k - p] {
            assert masked[p + (k - p)] == s[k - p];
          }
          assert Agree(MARKER, s, p);
        } else {
          assert masked[|MARKER|..] == rest;
          MatchInSuffix(masked, |MARKER|, p, s);
          MaskHidesSecret(text[|Front(text, secrets).value|..], secrets, p - |MARKER|, s);
        }
      } else if p == 0 {
        assert s[0..] == s;
        MaskedPrefix(text, secrets, s, 0);
      } else {
        assert masked[1..] == Mask(text[1..], secrets);
        MatchInSuffix(masked, 1, p, s);
        MaskHidesSecret(text[1..], secrets, p - 1, s);
      }
    }
  }

  lemma MatchInSuffix(text: string, n: nat, p: int, s: string)
    requires n <= p && n <= |text| && MatchesAt(text, p, s)
    ensures MatchesAt(text[n..], p - n, s)
  {
    forall k | 0 <= k < |s| ensures text[n..][p - n + k] == s[k] { assert text[p + k] == s[k]; }
  }

  lemma MarkerAtEndHidesSecret(masked: string, secrets: seq<string>, p: int, s: string)
    requires MarkerFree(secrets) && s in secrets && s != "" && forall q :: !MatchesAt(masked, q, s)
    ensures !MatchesAt(masked + MARKER, p, s)
  {
    var out := masked + MARKER;
    if 0 <= p && p + |s| <= |masked| {
      assert !MatchesAt(masked, p, s);
      var k :| 0 <= k < |s| && masked[p + k] != s[k];
      assert out[p + k] != s[k];
    } else if |masked| <= p && p + |s| <= |out| {
      var d: nat := p - |masked|;
      assert !Agree(MARKER, s, d);
      var k :| d <= k < |MARKER| && k - d < |s| && MARKER[k] != s[k - d];
      assert out[p + (k - d)] != s[k - d];
    } else if 0 <= p && p + |s| <= |out| {
      var d: nat := |masked| - p;
      assert !Agree(s, MARKER, d);
      var k :| d <= k < |s| && k - d < |MARKER| && s[k] != MARKER[k - d];
      assert out[p + k] != s[k];
    }
  }

  lemma KeptIsNonempty(secrets: seq<string>, s: string)
    requires Kept(secrets) && s in secrets
    ensures s != ""
  {
  }

  /** No secret occurs in the output of any stream, not even across the pieces it was emitted in. */
  lemma StreamHidesSecrets(chunks: seq<string>, secrets: seq<string>, p: int, s: string)
    requires NoOverlap(secrets) && MarkerFree(secrets) && Kept(secrets) && s in secrets
    ensures !MatchesAt(Stream("", chunks, secrets), p, s)
  {
    hide Stream, Close, Mask, MatchesAt, NoOverlap, MarkerFree, Kept, LeastPartial;
    assert s != "" by { KeptIsNonempty(secrets, s); }
    var text := Concat(chunks);
    var r := CloseSplit(text, secrets);
    StreamIsOneShot(chunks, secrets);
    CloseSplitIsLeast(text, secrets);
    CloseIsMask(text, secrets, r);
    var masked := Mask(text[..r], secrets);
    forall q ensures !MatchesAt(masked, q, s) { MaskHidesSecret(text[..r], secrets, q, s); }
    MarkerAtEndHidesSecret(masked, secrets, p, s);
    assert masked + "" == masked;
  }

  // ----- A single secret: the exact condition -----

  lemma {:induction false} ReplaceShort(text: string, s: string)
    requires |text| < |s|
    ensures Replace(text, s) == text
  {
    if text != "" { ReplaceShort(text[1..], s); }
  }

  lemma RedactOne(text: string, s: string)
    requires s != "" && Kept([s])
    ensures Redact(text, [s]) == Replace(text, s)
  {
    assert s in [s];
  }

  /** A secret after a proper part of itself: the open cut runs forward to the later occurrence. */
  lemma {:induction false} OpenSplitRunsForward(text: string, s: string, d: nat, start: nat, split: nat)
    requires 2 <= |s| && |text| == d + |s| && text[d..] == s && start <= d && split <= d + 1
    ensures BackSecret(text, s, start, d + 1, split) == d
    decreases d - start
  {
    if start < d {
      OpenSplitRunsForward(text, s, d, start + 1, Backed(text, s, start, split));
    } else {
      assert text[d..d + |s|] == text[d..];
      assert s[..|s|] == s;
    }
  }

  /** A text that ends in a whole secret has no partial one left to hide. */
  lemma {:induction false} NothingDangles(text: string, s: string, d: nat, start: nat)
    requires s != "" && |text| == d + |s| && text[d..] == s && start <= |text|
    ensures CloseSecret(text, s, start, |text|) == |text|
    decreases |text| - start
  {
    if start < |text| {
      if HiddenTail(text[start..], s) {
        forall k | 0 <= k < |s| ensures text[d + k] == s[k] { assert text[d..][k] == s[k]; }
        assert MatchesAt(text, d, s) && d <= start;
        assert InsideFull(text, s, start);
      }
      NothingDangles(text, s, d, start + 1);
    }
  }

  lemma CloseOfWhole(text: string, s: string, d: nat)
    requires Kept([s]) && s != "" && |text| == d + |s| && text[d..] == s
    ensures Close(text, [s]) == Replace(text, s)
  {
    NothingDangles(text, s, d, 0);
    assert CloseAll(text, [s], |text|) == CloseAll(text, [s][1..], CloseSecret(text, s, 0, |text|));
    assert text[..|text|] == text && text[|text|..] == "";
    RedactOne(text, s);
    RedactOne("", s);
  }

  lemma MarkerMoves(s: string, d: nat, rest: string)
    requires 0 < d < |s| && MarkerFree([s])
    ensures s[..d] + MARKER != MARKER + rest
  {
    if d < |MARKER| {
      assert (s[..d] + MARKER)[d] == '[';
      assert (MARKER + rest)[d] == MARKER[d] != '[';
    } else if s[..d] + MARKER == MARKER + rest {
      forall k | 0 <= k < |s| && k - 0 < |MARKER| ensures s[k] == MARKER[k - 0] {
        assert (s[..d] + MARKER)[k] == (MARKER + rest)[k];
      }
      assert s in [s] && Agree(s, MARKER, 0);
    }
  }

  lemma OpenSplitOfOverlap(s: string, d: nat)
    requires 0 < d < |s|
    ensures OpenSplit(s[..d] + s, [s]) == d
  {
    var text := s[..d] + s;
    assert text[d..] == s;
    assert Hold([s]) == |s| - 1 by { assert Hold([s][1..]) == 0; }
    OpenSplitRunsForward(text, s, d, 0, d + 1);
    assert BackAll(text, [s], d + 1, d + 1) == BackAll(text, [s][1..], d + 1, BackSecret(text, s, 0, d + 1, d + 1));
  }

  lemma StreamOfOverlap(s: string, d: nat)
    requires Kept([s]) && 0 < d < |s|
    ensures Stream("", [s[..d] + s], [s]) == s[..d] + MARKER
  {
    hide OpenSplit, Close, Redact, Replace;
    var text := s[..d] + s;
    assert "" + text == text && text[..d] == s[..d] && text[d..] == s;
    OpenSplitOfOverlap(s, d);
    RedactOne(s[..d], s);
    ReplaceShort(s[..d], s);
    ReplaceWhole(s);
    assert s[0..] == s;
    CloseOfWhole(s, s, 0);
    assert [text][1..] == [];
    assert Stream(s, [text][1..], [s]) == MARKER;
  }

  lemma ReplaceWhole(s: string)
    requires s != ""
    ensures Replace(s, s) == MARKER
  {
    assert s[|s|..] == "";
  }

  lemma CloseOfOverlap(s: string, d: nat)
    requires Kept([s]) && 0 < d < |s| && Agree(s, s, d)
    ensures Close(s[..d] + s, [s]) == MARKER + s[|s| - d..]
  {
    hide Close, Redact;
    var text := s[..d] + s;
    assert text[d..] == s;
    CloseOfWhole(text, s, d);
    forall k | 0 <= k < |s| ensures text[k] == s[k] {
      if k >= d { assert s[k] == s[k - d]; }
    }
    assert s <= text;
    assert text[|s|..] == s[|s| - d..];
    ReplaceShort(s[|s| - d..], s);
  }

  /** A secret that overlaps itself after `d` characters: cut `d` characters off, and the chunked
      stream leaks them where one call would have masked the occurrence they start. */
  lemma OverlapBreaksStream(s: string, d: nat)
    requires MarkerFree([s]) && Kept([s]) && 0 < d < |s| && Agree(s, s, d)
    ensures Stream("", [s[..d] + s], [s]) == s[..d] + MARKER
    ensures Close(s[..d] + s, [s]) == MARKER + s[|s| - d..]
    ensures Stream("", [s[..d] + s], [s]) != Close(Concat([s[..d] + s]), [s])
  {
    hide Stream, Close;
    StreamOfOverlap(s, d);
    CloseOfOverlap(s, d);
    MarkerMoves(s, d, s[|s| - d..]);
    var chunks := [s[..d] + s];
    assert Concat(chunks[1..]) == "";
    assert Concat(chunks) == s[..d] + s;
  }

  /** Such secrets exist: "abcabc" overlaps itself after three characters. */
  lemma OverlapExists(s: string, d: nat)
    requires s == "abcabc" && d == 3
    ensures MarkerFree([s]) && Kept([s]) && Agree(s, s, d)
    ensures exists chunks: seq<string> :: Stream("", chunks, [s]) != Close(Concat(chunks), [s])
  {
    hide Stream, Close;
    assert MARKER == "[REDACTED]";
    assert forall t, e: nat | t in [s] && e < |t| :: t[e] != MARKER[0];
    assert forall e: nat | e < |MARKER| :: MARKER[e] != s[0];
    forall t, e: nat | t in [s] && e < |t| ensures !Agree(t, MARKER, e) {
      assert t[e] != MARKER[e - e];
    }
    forall t, e: nat | t in [s] && e < |MARKER| ensures !Agree(MARKER, t, e) {
      assert MARKER[e] != t[e - e];
    }
    LettersEncode(s);
    OverlapBreaksStream(s, d);
  }

  lemma {:induction false} LettersEncode(s: string)
    ensures |Utf8.EncodeAll(s)| >= |s|
  {
    if s != "" { LettersEncode(s[1..]); }
  }

  lemma OneSecretNoOverlap(s: string)
    requires Kept([s]) && forall d | 0 < d < |s| :: !Agree(s, s, d)
    ensures NoOverlap([s])
  {
  }

  /** For one secret, chunking is invisible exactly when the secret does not overlap itself. */
  lemma SingleSecretExact(s: string)
    requires MarkerFree([s]) && Kept([s])
    ensures (forall chunks: seq<string> :: Stream("", chunks, [s]) == Close(Concat(chunks), [s])) <==>
            (forall d | 0 < d < |s| :: !Agree(s, s, d))
  {
    hide Stream, Close, NoOverlap, MarkerFree, Kept, Agree;
    if forall d | 0 < d < |s| :: !Agree(s, s, d) {
      assert NoOverlap([s]) by { OneSecretNoOverlap(s); }
      forall chunks: seq<string> ensures Stream("", chunks, [s]) == Close(Concat(chunks), [s]) {
        StreamIsOneShot(chunks, [s]);
      }
    } else {
      var d :| 0 < d < |s| && Agree(s, s, d);
      OverlapBreaksStream(s, d);
      var chunks := [s[..d] + s];
      assert Stream("", chunks, [s]) != Close(Concat(chunks), [s]);
    }
  }
}
