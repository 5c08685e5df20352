/** The process-tree scan (`containment_report`): which processes belong to the command, which
have escaped its session, and when the tree may be called empty. */
module Containment {
  import opened Options
  import Sets

  datatype Identity = Identity(pid: nat, start: string)
  datatype Process = Process(pid: nat, ppid: nat, pgid: nat, sid: nat, start: string)
  datatype Scan = Scan(processes: seq<Process>, unreadable: set<nat>)

  function IdentityOf(p: Process): Identity {
    Identity(p.pid, p.start)
  }

  function Pids(ps: seq<Process>): set<nat> {
    set i | 0 <= i < |ps| :: ps[i].pid
  }

  /** The first entry with a pid. */
  function Find(ps: seq<Process>, pid: nat): (r: Option<Process>)
    ensures r.None? <==> pid !in Pids(ps)
    ensures r.Some? ==> r.value in ps && r.value.pid == pid
  {
    if ps == [] then None
    else if ps[0].pid == pid then
      assert ps[0].pid in Pids(ps);
      Some(ps[0])
    else
      assert Pids(ps) == {ps[0].pid} + Pids(ps[1..]) by { PidsSplit(ps); }
      Find(ps[1..], pid)
  }

  lemma PidsSplit(ps: seq<Process>)
    requires ps != []
    ensures Pids(ps) == {ps[0].pid} + Pids(ps[1..])
  {
    forall pid | pid in Pids(ps) ensures pid in {ps[0].pid} + Pids(ps[1..]) {
      var i :| 0 <= i < |ps| && ps[i].pid == pid;
      if i > 0 { assert ps[1..][i - 1].pid == pid; }
    }
    forall pid | pid in Pids(ps[1..]) ensures pid in Pids(ps) {
      var i :| 0 <= i < |ps| - 1 && ps[1..][i].pid == pid;
      assert ps[i + 1].pid == pid;
    }
  }

  // ----- Descent -----

  ghost predicate ChildOf(ps: seq<Process>, child: nat, parent: nat) {
    exists p :: p in ps && p.pid == child && p.ppid == parent
  }

  /** Each pid after the first is a child of the one before it. */
  ghost predicate Descends(ps: seq<Process>, path: seq<nat>) {
    forall i | 0 <= i < |path| - 1 :: ChildOf(ps, path[i + 1], path[i])
  }

  /** Reachable from `root` over parent links. */
  ghost predicate Descendant(ps: seq<Process>, root: nat, pid: nat) {
    exists path :: path != [] && path[0] == root && path[|path| - 1] == pid && Descends(ps, path)
  }

  lemma RootDescends(ps: seq<Process>, root: nat)
    ensures Descendant(ps, root, root)
  {
    var path := [root];
    assert path[|path| - 1] == root && Descends(ps, path);
  }

  lemma ChildDescends(ps: seq<Process>, root: nat, p: Process)
    requires p in ps && Descendant(ps, root, p.ppid)
    ensures Descendant(ps, root, p.pid)
  {
    var path :| path != [] && path[0] == root && path[|path| - 1] == p.ppid && Descends(ps, path);
    var longer := path + [p.pid];
    assert ChildOf(ps, p.pid, p.ppid);
    forall i | 0 <= i < |longer| - 1 ensures ChildOf(ps, longer[i + 1], longer[i]) {
      if i < |path| - 1 { assert longer[i] == path[i] && longer[i + 1] == path[i + 1]; }
    }
    assert longer[0] == root && longer[|longer| - 1] == p.pid;
  }

  /** A set closed under children holds every descendant of its members. */
  lemma {:induction false} ClosedHoldsDescendants(ps: seq<Process>, closed: set<nat>, path: seq<nat>)
    requires path != [] && path[0] in closed && Descends(ps, path)
    requires forall p | p in ps && p.ppid in closed :: p.pid in closed
    ensures path[|path| - 1] in closed
    decreases |path|
  {
    if |path| > 1 {
      assert ChildOf(ps, path[0 + 1], path[0]);
      var rest := path[1..];
      forall i | 0 <= i < |rest| - 1 ensures ChildOf(ps, rest[i + 1], rest[i]) {
        assert rest[i] == path[i + 1] && rest[i + 1] == path[i + 1 + 1];
      }
      ClosedHoldsDescendants(ps, closed, rest);
    }
  }

  function AsSet(s: seq<nat>): set<nat> {
    set i | 0 <= i < |s| :: s[i]
  }

  lemma AsSetConcat(a: seq<nat>, b: seq<nat>)
    ensures AsSet(a + b) == AsSet(a) + AsSet(b)
  {
    assert forall i | 0 <= i < |b| :: (a + b)[|a| + i] == b[i];
    assert forall i | 0 <= i < |a| :: (a + b)[i] == a[i];
  }

  /** The children of `parent` that are not listed yet. */
  function NewChildren(ps: seq<Process>, parent: nat, listed: seq<nat>): (children: seq<nat>)
    ensures forall c | c in children :: c !in listed && exists p :: p in ps && p.pid == c && p.ppid == parent
    ensures forall p | p in ps && p.ppid == parent && p.pid !in listed :: p.pid in children
  {
    if ps == [] then []
    else
      (if ps[0].ppid == parent && ps[0].pid !in listed then [ps[0].pid] else []) + NewChildren(ps[1..], parent, listed)
  }

  /** The worklist search: on any parent graph it ends, with exactly the descendants of the root. */
  method Descendants(ps: seq<Process>, root: nat) returns (descendants: seq<nat>)
    ensures forall pid :: pid in descendants <==> Descendant(ps, root, pid)
  {
    descendants := [root];
    RootDescends(ps, root);
    var index := 0;
    while index < |descendants|
      invariant 0 <= index <= |descendants| && root in descendants
      invariant forall d | d in descendants :: Descendant(ps, root, d)
      invariant forall p | p in ps && p.ppid in descendants[..index] :: p.pid in descendants
      decreases Pids(ps) - AsSet(descendants), |descendants| - index
    {
      var parent := descendants[index];
      var children := NewChildren(ps, parent, descendants);
      forall c | c in children ensures Descendant(ps, root, c) && c in Pids(ps) - AsSet(descendants) {
        var p :| p in ps && p.pid == c && p.ppid == parent;
        ChildDescends(ps, root, p);
        ListedPid(ps, p);
      }
      AsSetConcat(descendants, children);
      Worklist(descendants, children, index);
      if children != [] { assert children[0] in AsSet(children); }
      descendants := descendants + children;
      index := index + 1;
    }
    assert descendants[..index] == descendants;
    forall pid | Descendant(ps, root, pid) ensures pid in descendants {
      var path :| path != [] && path[0] == root && path[|path| - 1] == pid && Descends(ps, path);
      ClosedHoldsDescendants(ps, AsSet(descendants), path);
    }
  }

  lemma ListedPid(ps: seq<Process>, p: Process)
    requires p in ps
    ensures p.pid in Pids(ps)
  {
  }

  lemma Worklist(descendants: seq<nat>, children: seq<nat>, index: nat)
    requires index < |descendants|
    ensures forall x :: x in (descendants + children)[..index + 1] <==>
            x in descendants[..index] || x == descendants[index]
    ensures children == [] ==> descendants + children == descendants
  {
    assert (descendants + children)[..index + 1] == descendants[..index] + [descendants[index]];
  }

  // ----- The report -----

  datatype Status = Unknown | EscapeObserved | Remaining | Empty

  datatype Report = Report(status: Status, rootVerified: bool, group: seq<nat>, session: seq<nat>, escaped: set<nat>)

  function InGroup(ps: seq<Process>, pgid: nat, sid: nat): (r: seq<nat>)
    ensures forall pid :: pid in r <==> exists p :: p in ps && p.pid == pid && p.pgid == pgid && p.sid == sid
  {
    if ps == [] then []
    else (if ps[0].pgid == pgid && ps[0].sid == sid then [ps[0].pid] else []) + InGroup(ps[1..], pgid, sid)
  }

  function InSession(ps: seq<Process>, sid: nat): (r: seq<nat>)
    ensures forall pid :: pid in r <==> exists p :: p in ps && p.pid == pid && p.sid == sid
  {
    if ps == [] then [] else (if ps[0].sid == sid then [ps[0].pid] else []) + InSession(ps[1..], sid)
  }

  /** Processes still in the group or in the session. */
  function Candidates(ps: seq<Process>, pgid: nat, sid: nat): (r: seq<Process>)
    ensures forall p :: p in r <==> p in ps && (p.pgid == pgid || p.sid == sid)
  {
    if ps == [] then []
    else (if ps[0].pgid == pgid || ps[0].sid == sid then [ps[0]] else []) + Candidates(ps[1..], pgid, sid)
  }

  /** Those of them that were seen while the root was verified. */
  function Verified(ps: seq<Process>, known: map<nat, Identity>): (r: seq<Process>)
    ensures forall p :: p in r <==> p in ps && p.pid in known && known[p.pid] == IdentityOf(p)
    ensures |r| <= |ps| && (|r| == |ps| <==> forall p | p in ps :: p.pid in known && known[p.pid] == IdentityOf(p))
  {
    if ps == [] then []
    else
      (if ps[0].pid in known && known[ps[0].pid] == IdentityOf(ps[0]) then [ps[0]] else []) + Verified(ps[1..], known)
  }

  function Members(ps: seq<Process>): (r: seq<nat>)
    ensures |r| == |ps|
  {
    if ps == [] then [] else [ps[0].pid] + Members(ps[1..])
  }

  function MembersOfGroup(ps: seq<Process>, pgid: nat): seq<nat> {
    if ps == [] then [] else (if ps[0].pgid == pgid then [ps[0].pid] else []) + MembersOfGroup(ps[1..], pgid)
  }

  /** A recorded escape whose pid now belongs to another process. */
  predicate Reused(escaped: map<nat, Identity>, ps: seq<Process>, pid: nat) {
    pid in escaped && Find(ps, pid).Some? && IdentityOf(Find(ps, pid).value) != escaped[pid]
  }

  /** The escapes after a complete scan: those gone are dropped, in ascending order of pid up to the
      first that has been reused. */
  ghost predicate Resolved(escaped: map<nat, Identity>, ps: seq<Process>, after: map<nat, Identity>, reused: bool) {
    && (reused <==> exists pid :: Reused(escaped, ps, pid))
    && (forall pid | pid in after :: pid in escaped && after[pid] == escaped[pid])
    && (forall pid | pid in escaped ::
          pid !in after <==> pid !in Pids(ps) && forall other: nat | other < pid :: !Reused(escaped, ps, other))
  }

  /** What a scan of the live tree adds: the descendants of the root that are listed outside its session. */
  ghost predicate NewEscape(ps: seq<Process>, root: nat, sid: nat, pid: nat) {
    Descendant(ps, root, pid) && pid in Pids(ps) && pid !in InSession(ps, sid)
  }

  /** What the scan of a live tree leaves. */
  ghost predicate Live(ps: seq<Process>, root: nat, pgid: nat, sid: nat, known: map<nat, Identity>,
                       escaped: map<nat, Identity>,
                       known': map<nat, Identity>, escaped': map<nat, Identity>, r: Report) {
    && Recorded(ps, root, sid, escaped, escaped')
    && Noted(ps, sid, known, known')
    && r == Report(if escaped'.Keys != {} then EscapeObserved else Remaining, true, InGroup(ps, pgid, sid),
                   InSession(ps, sid), escaped'.Keys)
  }

  /** The new escapes, and only those, join the record, each under its identity. */
  ghost predicate Recorded(ps: seq<Process>, root: nat, sid: nat, escaped: map<nat, Identity>,
                           escaped': map<nat, Identity>) {
    && (forall pid :: pid in escaped' <==> pid in escaped || NewEscape(ps, root, sid, pid))
    && (forall pid | NewEscape(ps, root, sid, pid) :: escaped'[pid] == IdentityOf(Find(ps, pid).value))
    && (forall pid | pid in escaped && !NewEscape(ps, root, sid, pid) :: escaped'[pid] == escaped[pid])
  }

  /** Everything in the session becomes known, under its identity. */
  ghost predicate Noted(ps: seq<Process>, sid: nat, known: map<nat, Identity>, known': map<nat, Identity>) {
    && (forall pid :: pid in known' <==> pid in known || pid in InSession(ps, sid))
    && (forall pid | pid in known' :: Kept(ps, sid, known, pid, known'[pid]))
  }

  /** An identity is as it was known, or that of a process of the session. */
  ghost predicate Kept(ps: seq<Process>, sid: nat, known: map<nat, Identity>, pid: nat, identity: Identity) {
    || (pid in known && identity == known[pid] && pid !in InSession(ps, sid))
    || exists p :: p in ps && p.pid == pid && p.sid == sid && identity == IdentityOf(p)
  }

  /** What is reported once the root is gone. */
  ghost predicate Gone(ps: seq<Process>, pgid: nat, sid: nat, known: map<nat, Identity>, escaped: map<nat, Identity>,
                       r: Report) {
    var verified := Verified(Candidates(ps, pgid, sid), known);
    && r.escaped == escaped.Keys && !r.rootVerified && r.group == MembersOfGroup(verified, pgid)
    && r.session == Members(verified)
    && (r.status.Unknown? <==> exists p :: p in ps && Stray(p, pgid, sid, known))
    && (r.status.EscapeObserved? ==> escaped != map[])
    && (r.status.Empty? <==> escaped == map[] && forall p | p in ps :: p.pgid != pgid && p.sid != sid)
    && (r.status.Remaining? ==> escaped == map[])
  }

  /** In the group or the session, but never seen while the root was verified. */
  predicate Stray(p: Process, pgid: nat, sid: nat, known: map<nat, Identity>) {
    (p.pgid == pgid || p.sid == sid) && !(p.pid in known && known[p.pid] == IdentityOf(p))
  }

  /** The root's pid is listed, but not as the root, or not in its group and session. */
  predicate RootMismatch(ps: seq<Process>, root: Identity, pgid: Option<nat>, sid: Option<nat>) {
    var listed := Find(ps, root.pid);
    listed.Some? && (IdentityOf(listed.value) != root
                     || (pgid.Some? && sid.Some? && (listed.value.pgid != pgid.value || listed.value.sid != sid.value)))
  }

  /** What one scan does to the records, and what it reports. */
  ghost predicate Scanned(scan: Scan, root: Identity, pgid: Option<nat>, sid: Option<nat>,
                          known: map<nat, Identity>, escaped: map<nat, Identity>,
                          known': map<nat, Identity>, escaped': map<nat, Identity>, r: Report) {
    if scan.unreadable != {}
        then known' == known && escaped' == escaped && r == Report(Unknown, false, [], [], escaped.Keys)
    else
      var ps := scan.processes;
      exists mid, reused :: Resolved(escaped, ps, mid, reused) &&
        if reused || RootMismatch(ps, root, pgid, sid)
            then known' == known && escaped' == mid && r == Report(Unknown, false, [], [], mid.Keys)
        else if pgid.None? || sid.None?
            then known' == known && escaped' == mid && r == Report(Unknown, false, [], [], {})
        else if root.pid in Pids(ps) then Live(ps, root.pid, pgid.value, sid.value, known, mid, known', escaped', r)
        else known' == known && escaped' == mid && Gone(ps, pgid.value, sid.value, known, mid, r)
  }

  class Containment {
    const root: Identity
    const pgid: Option<nat>
    const sid: Option<nat>
    var known: map<nat, Identity>
    var escaped: map<nat, Identity>

    constructor (root: Identity, pgid: Option<nat>, sid: Option<nat>)
      ensures this.root == root && this.pgid == pgid && this.sid == sid
      ensures known == map[] && escaped == map[]
    {
      this.root, this.pgid, this.sid := root, pgid, sid;
      known, escaped := map[], map[];
    }

    /** Drops the escapes that a complete scan no longer lists, stopping at a reused pid. */
    method ResolveEscapes(ps: seq<Process>) returns (reused: bool)
      modifies this`escaped
      ensures Resolved(old(escaped), ps, escaped, reused)
    {
      reused := false;
      var rest := escaped.Keys;
      ghost var before := escaped;
      while rest != {}
        invariant rest <= before.Keys && !reused
        invariant forall pid | pid in before && pid !in rest ::
                  !Reused(before, ps, pid) && (forall other | other in rest :: pid < other)
        invariant forall pid | pid in escaped :: pid in before && escaped[pid] == before[pid]
        invariant forall pid | pid in before :: pid !in escaped <==> pid !in rest && pid !in Pids(ps)
        decreases |rest|
      {
        var pid := Sets.Least(rest);
        var found := Find(ps, pid);
        if found.Some? && IdentityOf(found.value) != escaped[pid] {
          reused := true;
          assert Reused(before, ps, pid);
          return;
        }
        if found.None? {
          escaped := escaped - {pid};
        }
        rest := rest - {pid};
      }
    }

    /** `containment_report_from_scan`. */
    method ReportFromScan(scan: Scan) returns (r: Report)
      modifies this
      ensures Scanned(scan, root, pgid, sid, old(known), old(escaped), known, escaped, r)
    {
      hide Resolved, Live, Gone;
      var ps := scan.processes;
      if scan.unreadable != {} {
        return Report(Unknown, false, [], [], escaped.Keys);
      }
      var reused := ResolveEscapes(ps);
      if reused {
        return Report(Unknown, false, [], [], escaped.Keys);
      }
      var listed := Find(ps, root.pid);
      if listed.Some? && IdentityOf(listed.value) != root {
        return Report(Unknown, false, [], [], escaped.Keys);
      }
      if pgid.None? || sid.None? {
        return Report(Unknown, false, [], [], {});
      }
      if listed.Some? {
        if listed.value.pgid != pgid.value || listed.value.sid != sid.value {
          return Report(Unknown, false, [], [], escaped.Keys);
        }
        r := ReportLive(ps);
        return;
      }
      r := ReportGone(ps);
    }

    /** With the identified root listed: what is in the session is noted, and the descendants
        outside it are recorded as escapes. */
    method ReportLive(ps: seq<Process>) returns (r: Report)
      requires pgid.Some? && sid.Some?
      modifies this
      ensures Live(ps, root.pid, pgid.value, sid.value, old(known), old(escaped), known, escaped, r)
    {
      hide Noted, Recorded, RecordedOf, InGroup, InSession;
      var group, session := InGroup(ps, pgid.value, sid.value), InSession(ps, sid.value);
      GroupInSession(ps, pgid.value, sid.value);
      NoteSession(ps);
      ghost var noted := known;
      var descendants := Descendants(ps, root.pid);
      ghost var before := escaped;
      NoneRecorded(ps, session, escaped);
      for i := 0 to |descendants|
        invariant known == noted && RecordedOf(ps, session, descendants[..i], before, escaped)
      {
        var pid := descendants[i];
        RecordOne(ps, session, descendants[..i], pid, before, escaped);
        assert descendants[..i + 1] == descendants[..i] + [pid];
        if pid !in group && pid !in session {
          var process := Find(ps, pid);
          if process.Some? {
            escaped := escaped[pid := IdentityOf(process.value)];
          }
        }
      }
      assert descendants[..|descendants|] == descendants;
      AllRecorded(ps, root.pid, sid.value, descendants, before, escaped);
      return Report(if escaped.Keys != {} then EscapeObserved else Remaining, true, group, session, escaped.Keys);
    }

    method NoteSession(ps: seq<Process>)
      requires sid.Some?
      modifies this`known
      ensures Noted(ps, sid.value, old(known), known)
    {
      ghost var before := known;
      for i := 0 to |ps|
        invariant Noted(ps[..i], sid.value, before, known)
      {
        NoteOne(ps[..i], ps[i], sid.value, before, known);
        if ps[i].sid == sid.value {
          known := known[ps[i].pid := IdentityOf(ps[i])];
        }
        assert ps[..i + 1] == ps[..i] + [ps[i]];
      }
      assert ps[..|ps|] == ps;
    }

    /** Without the root: only processes seen before count as the command's, any other process in
        its group or session makes the report unknown. */
    method ReportGone(ps: seq<Process>) returns (r: Report)
      requires pgid.Some? && sid.Some?
      ensures Gone(ps, pgid.value, sid.value, known, escaped, r)
    {
      var candidates := Candidates(ps, pgid.value, sid.value);
      var verified := Verified(candidates, known);
      var group, session := MembersOfGroup(verified, pgid.value), Members(verified);
      var status :=
        if |candidates| != |verified| then Unknown
        else if escaped.Keys != {} then EscapeObserved
        else if group == [] && session == [] then Empty
        else Remaining;
      assert verified == [] ==> group == [];
      assert |candidates| == |verified| <==> forall p | p in ps && (p.pgid == pgid.value || p.sid == sid.value) ::
             !Stray(p, pgid.value, sid.value, known);
      return Report(status, false, group, session, escaped.Keys);
    }
  }

  lemma GroupInSession(ps: seq<Process>, pgid: nat, sid: nat)
    ensures forall pid | pid in InGroup(ps, pgid, sid) :: pid in InSession(ps, sid)
  {
  }

  predicate Outside(ps: seq<Process>, session: seq<nat>, pid: nat) {
    pid in Pids(ps) && pid !in session
  }

  /** The record after the first of the descendants. */
  ghost predicate RecordedOf(ps: seq<Process>, session: seq<nat>, listed: seq<nat>, escaped: map<nat, Identity>,
                             escaped': map<nat, Identity>) {
    && (forall pid :: pid in escaped' <==> pid in escaped || (pid in listed && Outside(ps, session, pid)))
    && (forall pid | pid in listed && Outside(ps, session, pid) :: escaped'[pid] == IdentityOf(Find(ps, pid).value))
    && (forall pid | pid in escaped && !(pid in listed && Outside(ps, session, pid)) :: escaped'[pid] == escaped[pid])
  }

  lemma NoneRecorded(ps: seq<Process>, session: seq<nat>, escaped: map<nat, Identity>)
    ensures RecordedOf(ps, session, [], escaped, escaped)
  {
  }

  lemma RecordOne(ps: seq<Process>, session: seq<nat>, listed: seq<nat>, pid: nat, escaped: map<nat, Identity>,
                  escaped': map<nat, Identity>)
    requires RecordedOf(ps, session, listed, escaped, escaped')
    ensures var after := if Outside(ps, session, pid) then escaped'[pid := IdentityOf(Find(ps, pid).value)]
            else escaped';
            RecordedOf(ps, session, listed + [pid], escaped, after)
  {
    hide Outside, Find;
  }

  lemma AllRecorded(ps: seq<Process>, root: nat, sid: nat, descendants: seq<nat>, escaped: map<nat, Identity>,
                    escaped': map<nat, Identity>)
    requires RecordedOf(ps, InSession(ps, sid), descendants, escaped, escaped')
    requires forall pid :: pid in descendants <==> Descendant(ps, root, pid)
    ensures Recorded(ps, root, sid, escaped, escaped')
  {
    hide Descendant, Find, InSession;
  }

  lemma SessionGrows(ps: seq<Process>, p: Process, sid: nat, pid: nat)
    ensures pid in InSession(ps + [p], sid) <==> pid in InSession(ps, sid) || (p.sid == sid && p.pid == pid)
  {
    assert forall q :: q in ps + [p] <==> q in ps || q == p;
  }

  lemma NoteOne(ps: seq<Process>, p: Process, sid: nat, known: map<nat, Identity>, known': map<nat, Identity>)
    requires Noted(ps, sid, known, known')
    ensures Noted(ps + [p], sid, known, if p.sid == sid then known'[p.pid := IdentityOf(p)] else known')
  {
    var more, after := ps + [p], if p.sid == sid then known'[p.pid := IdentityOf(p)] else known';
    forall pid
      ensures pid in after <==> pid in known || pid in InSession(more, sid)
      ensures pid in after ==> Kept(more, sid, known, pid, after[pid])
    {
      SessionGrows(ps, p, sid, pid);
      hide InSession;
      if p.sid == sid && p.pid == pid {
        assert p in more;
      } else if pid in after {
        assert Kept(ps, sid, known, pid, after[pid]);
        KeptGrows(ps, p, sid, known, pid, after[pid]);
      }
    }
  }

  lemma KeptGrows(ps: seq<Process>, p: Process, sid: nat, known: map<nat, Identity>, pid: nat, identity: Identity)
    requires Kept(ps, sid, known, pid, identity) && !(p.sid == sid && p.pid == pid)
    ensures Kept(ps + [p], sid, known, pid, identity)
  {
    SessionGrows(ps, p, sid, pid);
    assert forall q | q in ps :: q in ps + [p];
  }

  // ----- Over whole runs -----

  /** Once recorded, an escape stays on record until a complete scan lacks its pid; and an empty
      report comes only from a complete scan without the root, without any process in the group or
      the session, and with no escape on record. */
  lemma EmptyIsEarned(scan: Scan, root: Identity, pgid: Option<nat>, sid: Option<nat>,
                      known: map<nat, Identity>, escaped: map<nat, Identity>, known': map<nat, Identity>,
                          escaped': map<nat, Identity>, r: Report)
    requires Scanned(scan, root, pgid, sid, known, escaped, known', escaped', r)
    ensures forall pid | pid in escaped && !Clears(scan, pid) :: pid in escaped'
    ensures r.status.Empty? ==>
              && scan.unreadable == {} && root.pid !in Pids(scan.processes) && escaped' == map[] && pgid.Some?
              && sid.Some?
              && forall p | p in scan.processes :: p.pgid != pgid.value && p.sid != sid.value
  {
    hide NewEscape, Noted, InGroup, InSession;
  }

  /** A complete scan with the identified root in its place, and no recorded pid reused, leaves on
      record exactly the old escapes still listed and the descendants outside the session. */
  lemma LiveScanRecordsExactly(scan: Scan, root: Identity, pgid: nat, sid: nat,
                               known: map<nat, Identity>, escaped: map<nat, Identity>, known': map<nat, Identity>,
                                   escaped': map<nat, Identity>, r: Report)
    requires Scanned(scan, root, Some(pgid), Some(sid), known, escaped, known', escaped', r)
    requires scan.unreadable == {} && root.pid in Pids(scan.processes) &&
             !RootMismatch(scan.processes, root, Some(pgid), Some(sid))
    requires forall pid :: !Reused(escaped, scan.processes, pid)
    ensures forall pid :: pid in escaped' <==>
              (pid in escaped && pid in Pids(scan.processes)) || NewEscape(scan.processes, root.pid, sid, pid)
    ensures r.rootVerified && (r.status.EscapeObserved? <==> escaped' != map[]) &&
            (r.status.Remaining? <==> escaped' == map[])
  {
    hide NewEscape, Noted, InGroup, InSession, Reused, RootMismatch;
  }

  /** A complete scan that does not list the pid. */
  predicate Clears(scan: Scan, pid: nat) {
    scan.unreadable == {} && pid !in Pids(scan.processes)
  }

  datatype Step = Step(scan: Scan, known: map<nat, Identity>, escaped: map<nat, Identity>, report: Report)

  /** Successive scans, each from the records the last one left. */
  ghost predicate IsRun(run: seq<Step>, root: Identity, pgid: Option<nat>, sid: Option<nat>) {
    forall i | 0 <= i < |run| - 1 ::
      Scanned(run[i + 1].scan, root, pgid, sid, run[i].known, run[i].escaped, run[i + 1].known, run[i + 1].escaped,
              run[i + 1].report)
  }

  /** From the scan that records an escape, no report says empty until a complete scan lacks its pid. */
  lemma {:induction false} EscapeBlocksEmpty(run: seq<Step>, root: Identity, pgid: Option<nat>, sid: Option<nat>,
                                             pid: nat, i: nat, k: nat)
    requires IsRun(run, root, pgid, sid) && i < k < |run| && pid in run[i].escaped
    requires forall j | i < j <= k :: !Clears(run[j].scan, pid)
    ensures pid in run[k].escaped && !run[k].report.status.Empty?
    decreases k
  {
    if k > i + 1 { EscapeBlocksEmpty(run, root, pgid, sid, pid, i, k - 1); }
    var a, b := run[k - 1], run[(k - 1) + 1];
    hide Scanned, Clears;
    EmptyIsEarned(b.scan, root, pgid, sid, a.known, a.escaped, b.known, b.escaped, b.report);
  }
}
