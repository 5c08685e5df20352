/** The daemon's view of the journal: reading the chunk files back, splitting the text into lines
with absolute sequence numbers, and paging through them. */
module JournalReader {
  import opened Options
  import opened Utf8
  import opened Journal
  import Sets

  // ----- Reading the chunks back -----

  predicate ValidFile(key: nat, c: Chunk) {
    c.start <= c.end && c.data != [] && c.end - c.start == |c.data| && key == c.start
  }

  /** A run of chunks that the continuity test lets through. */
  predicate Linked(chunks: seq<Chunk>) {
    forall i | 1 <= i < |chunks| :: chunks[i - 1].end == chunks[i].start
  }

  ghost predicate Listed(disk: map<nat, Chunk>, rest: set<nat>, chunks: seq<Chunk>) {
    && rest <= disk.Keys
    && (forall i | 0 <= i < |chunks| ::
        chunks[i].start in disk && chunks[i].start !in rest && disk[chunks[i].start] == chunks[i])
    && (forall k | k in disk && k !in rest :: exists i :: 0 <= i < |chunks| && chunks[i].start == k)
    && Ascending(chunks)
    && (forall i, k | 0 <= i < |chunks| && k in rest :: chunks[i].start < k)
    && (forall i | 0 <= i < |chunks| :: ValidFile(chunks[i].start, chunks[i]))
  }

  /** `readOutputChunks`: the files in ascending order, each validated, then tested for gaps.
      It succeeds exactly on the files of a contiguous journal and returns that journal. */
  method ReadChunks(disk: map<nat, Chunk>) returns (r: Option<seq<Chunk>>)
    ensures r.Some? ==> Mirrors(disk, r.value)
    ensures r.Some? && r.value != [] ==> Covers(r.value, r.value[0].start, r.value[|r.value| - 1].end)
    ensures forall chunks, first, next | Covers(chunks, first, next) && Mirrors(disk, chunks) :: r == Some(chunks)
  {
    hide Mirrors, Covers, Listed, ValidFile, Contents;
    var chunks: seq<Chunk> := [];
    var rest := disk.Keys;
    assert Listed(disk, rest, chunks) by { NothingListed(disk); }
    while rest != {}
      invariant rest <= disk.Keys && Listed(disk, rest, chunks)
      decreases |rest|
    {
      var k := Sets.Least(rest);
      if !ValidFile(k, disk[k]) {
        InvalidFileIsForeign(disk, k);
        return None;
      }
      ListNext(disk, rest, chunks, k);
      chunks, rest := chunks + [disk[k]], rest - {k};
    }
    ListedMirrors(disk, chunks);
    var i := 1;
    while i < |chunks|
      invariant 1 <= i
      invariant forall j | 1 <= j < i && j < |chunks| :: chunks[j - 1].end == chunks[j].start
    {
      if chunks[i - 1].end != chunks[i].start {
        GapIsForeign(disk, chunks, i);
        return None;
      }
      i := i + 1;
    }
    if chunks != [] { LinkedCovers(chunks); }
    ListingIsUnique(disk, chunks);
    return Some(chunks);
  }

  lemma NothingListed(disk: map<nat, Chunk>)
    ensures Listed(disk, disk.Keys, [])
  {
  }

  lemma ListNext(disk: map<nat, Chunk>, rest: set<nat>, chunks: seq<Chunk>, k: nat)
    requires Listed(disk, rest, chunks) && k in rest && forall j | j in rest :: k <= j
    requires ValidFile(k, disk[k])
    ensures Listed(disk, rest - {k}, chunks + [disk[k]])
  {
    NextIsListed(disk, rest, chunks, k);
    var all := chunks + [disk[k]];
    assert Ascending(all);
  }

  lemma NextIsListed(disk: map<nat, Chunk>, rest: set<nat>, chunks: seq<Chunk>, k: nat)
    requires Listed(disk, rest, chunks) && k in rest && disk[k].start == k
    ensures var all := chunks + [disk[k]];
            forall key | key in disk && key !in rest - {k} :: exists i :: 0 <= i < |all| && all[i].start == key
  {
    var all := chunks + [disk[k]];
    forall key | key in disk && key !in rest - {k} ensures exists i :: 0 <= i < |all| && all[i].start == key {
      if key == k {
        assert all[|chunks|].start == key;
      } else {
        var i :| 0 <= i < |chunks| && chunks[i].start == key;
        assert all[i].start == key;
      }
    }
  }

  lemma ListedMirrors(disk: map<nat, Chunk>, chunks: seq<Chunk>)
    requires Listed(disk, {}, chunks)
    ensures Mirrors(disk, chunks) && forall i | 0 <= i < |chunks| :: ValidFile(chunks[i].start, chunks[i])
  {
  }

  /** A contiguous journal has only valid files. */
  lemma InvalidFileIsForeign(disk: map<nat, Chunk>, k: nat)
    requires k in disk && !ValidFile(k, disk[k])
    ensures forall chunks, first, next :: !(Covers(chunks, first, next) && Mirrors(disk, chunks))
  {
    forall chunks, first, next ensures !(Covers(chunks, first, next) && Mirrors(disk, chunks)) {
      if Covers(chunks, first, next) && Mirrors(disk, chunks) {
        CoversFits(chunks, first, next);
        assert false;
      }
    }
  }

  predicate Ascending(chunks: seq<Chunk>) {
    forall i, j | 0 <= i < j < |chunks| :: chunks[i].start < chunks[j].start
  }

  /** Two ascending listings of the same files are the same. */
  lemma {:induction false} SameListing(disk: map<nat, Chunk>, a: seq<Chunk>, b: seq<Chunk>)
    requires Mirrors(disk, a) && Mirrors(disk, b) && Ascending(a) && Ascending(b)
    ensures a == b
    decreases |a|
  {
    hide Mirrors, Ascending;
    FirstIsLeast(disk, a);
    FirstIsLeast(disk, b);
    if a != [] && b != [] {
      RestMirrors(disk, a);
      RestMirrors(disk, b);
      SameListing(disk - {a[0].start}, a[1..], b[1..]);
      assert a == [a[0]] + a[1..] && b == [b[0]] + b[1..];
    }
  }

  lemma FirstIsLeast(disk: map<nat, Chunk>, a: seq<Chunk>)
    requires Mirrors(disk, a) && Ascending(a)
    ensures a == [] <==> disk == map[]
    ensures a != [] ==> a[0].start in disk && disk[a[0].start] == a[0] && forall k | k in disk :: a[0].start <= k
  {
    if a == [] {
      assert forall k :: k !in disk;
    } else {
      assert a[0].start in disk;
    }
  }

  lemma RestMirrors(disk: map<nat, Chunk>, a: seq<Chunk>)
    requires Mirrors(disk, a) && a != [] && Ascending(a)
    ensures Mirrors(disk - {a[0].start}, a[1..]) && Ascending(a[1..])
  {
    var files, rest := disk - {a[0].start}, a[1..];
    forall k | k in files ensures exists i :: 0 <= i < |rest| && rest[i].start == k {
      var i :| 0 <= i < |a| && a[i].start == k;
      assert rest[i - 1].start == k;
    }
  }

  lemma ListingIsUnique(disk: map<nat, Chunk>, chunks: seq<Chunk>)
    requires Listed(disk, {}, chunks)
    ensures forall other, first, next | Covers(other, first, next) && Mirrors(disk, other) :: other == chunks
  {
    ListedMirrors(disk, chunks);
    forall other, first, next | Covers(other, first, next) && Mirrors(disk, other) ensures other == chunks {
      CoversFits(other, first, next);
      assert Ascending(other);
      SameListing(disk, other, chunks);
    }
  }

  lemma GapIsForeign(disk: map<nat, Chunk>, chunks: seq<Chunk>, i: nat)
    requires Listed(disk, {}, chunks) && 1 <= i < |chunks| && chunks[i - 1].end != chunks[i].start
    ensures forall other, first, next :: !(Covers(other, first, next) && Mirrors(disk, other))
  {
    ListingIsUnique(disk, chunks);
    forall other, first, next ensures !(Covers(other, first, next) && Mirrors(disk, other)) {
      if Covers(other, first, next) && Mirrors(disk, other) {
        CoversLinked(other, first, next);
        assert false;
      }
    }
  }

  lemma {:induction false} CoversLinked(chunks: seq<Chunk>, first: nat, next: nat)
    requires Covers(chunks, first, next)
    ensures Linked(chunks)
  {
    if chunks != [] {
      CoversLinked(chunks[1..], chunks[0].end, next);
      forall i | 1 <= i < |chunks| ensures chunks[i - 1].end == chunks[i].start {
        assert chunks[i] == chunks[1..][i - 1];
        if i > 1 { assert chunks[i - 1] == chunks[1..][i - 2]; }
      }
    }
  }

  lemma {:induction false} LinkedCovers(chunks: seq<Chunk>)
    requires chunks != [] && Linked(chunks) && forall i | 0 <= i < |chunks| :: ValidFile(chunks[i].start, chunks[i])
    ensures Covers(chunks, chunks[0].start, chunks[|chunks| - 1].end)
    decreases |chunks|
  {
    if |chunks| > 1 {
      var rest := chunks[1..];
      assert forall i | 1 <= i < |rest| :: rest[i - 1] == chunks[i] && rest[i] == chunks[i + 1];
      LinkedCovers(rest);
    }
  }

  // ----- Trimming from the daemon's side -----

  function TotalLength(chunks: seq<Chunk>): int {
    if chunks == [] then 0 else chunks[0].end - chunks[0].start + TotalLength(chunks[1..])
  }

  lemma {:induction false} TotalOfCovers(chunks: seq<Chunk>, first: nat, next: nat)
    requires Covers(chunks, first, next)
    ensures TotalLength(chunks) == |Contents(chunks)| == next - first
  {
    if chunks != [] {
      TotalOfCovers(chunks[1..], chunks[0].end, next);
    }
  }

  /** `retainedOutput`: what the worker's eviction would keep of these chunks, computed from the
      sequence numbers alone. */
  method RetainedOutput(all: seq<Chunk>, cap: nat, ghost start: nat, ghost next: nat)
    returns (dropped: nat, bytes: int, first: nat)
    requires Covers(all, start, next)
    ensures dropped <= |all| && all[dropped..] == Evicted(all, |Contents(all)|, cap)
    ensures bytes == |Contents(all[dropped..])| <= cap
    ensures all != [] ==> Covers(all[dropped..], first, next)
  {
    hide Contents;
    bytes := TotalLength(all);
    TotalOfCovers(all, start, next);
    dropped := 0;
    first := if all != [] then all[0].start else 0;
    assert all[0..] == all;
    while bytes > cap && dropped < |all|
      invariant dropped <= |all| && bytes == TotalLength(all[dropped..]) == |Contents(all[dropped..])|
      invariant all != [] ==> Covers(all[dropped..], first, next)
      invariant Evicted(all[dropped..], bytes, cap) == Evicted(all, |Contents(all)|, cap)
    {
      assert all[dropped..][1..] == all[dropped + 1..];
      assert all[dropped] == all[dropped..][0];
      TotalOfCovers(all[dropped + 1..], all[dropped].end, next);
      bytes := bytes - (all[dropped].end - all[dropped].start);
      first := all[dropped].end;
      dropped := dropped + 1;
    }
    var retained := all[dropped..];
    assert dropped == |all| ==> Contents(retained) == [];
    first := if retained != [] then retained[0].start else first;
  }
}
