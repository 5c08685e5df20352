/** Whole runs of the registry: the caps hold after every sequence of calls in which sessions behave. */
module RegistryRuns {
  import opened Tallies
  import opened Registry

  datatype Call = Reserve(record: Record, maxPerOwner: nat) | Release(id: string) | Settle(record: Record)

  /** The tables, and for every session recorded in them the record last seen. */
  datatype Ledger = Ledger(slots: Slots, seen: map<string, Record>)

  /** What a call does to the tables, as the methods above are proved to do it. */
  function Made(l: Ledger, call: Call, limits: Limits, darwin: bool): Ledger {
    match call
    case Reserve(r, maxPerOwner) =>
      var bytes := OutputReservation(r, darwin);
      if Admits(limits, l.slots, r.owner, bytes, maxPerOwner)
      then Ledger(Reserved(l.slots, r.id, r.owner, bytes), l.seen[r.id := r])
      else l
    case Release(id) => Ledger(Released(l.slots, id), l.seen - {id})
    case Settle(r) => Ledger(Settled(l.slots, r, darwin), if r.id in l.seen then l.seen[r.id := r] else l.seen)
  }

  function MadeAll(l: Ledger, calls: seq<Call>, limits: Limits, darwin: bool): Ledger
    decreases |calls|
  {
    if calls == [] then l else MadeAll(Made(l, calls[0], limits, darwin), calls[1..], limits, darwin)
  }

  function Limit(r: Record): nat {
    if r.outputLimit.Some? then r.outputLimit.value else MAX_OUTPUT_BYTES
  }

  /** A later version of a record: its limit stays, its output stays within it, and once it has settled
      it stays settled with no more output. */
  predicate Later(before: Record, r: Record, darwin: bool) {
    && Limit(r) == Limit(before) && r.outputBytes <= Limit(r)
    && (!OccupiesSlot(before, darwin) ==> !OccupiesSlot(r, darwin) && r.outputBytes <= before.outputBytes)
  }

  /** A new session has a new id; a known one only moves on; owners have at most `most` sessions. */
  predicate Lawful(l: Ledger, call: Call, most: nat, darwin: bool) {
    match call
    case Reserve(r, maxPerOwner) => r.id !in l.seen && r.outputBytes <= Limit(r) && maxPerOwner <= most
    case Release(_) => true
    case Settle(r) => r.id in l.seen ==> Later(l.seen[r.id], r, darwin)
  }

  predicate LawfulRun(l: Ledger, calls: seq<Call>, limits: Limits, most: nat, darwin: bool)
    decreases |calls|
  {
    calls != [] ==>
      && Lawful(l, calls[0], most, darwin)
      && LawfulRun(Made(l, calls[0], limits, darwin), calls[1..], limits, most, darwin)
  }

  /** What is reserved for a session is what its record last seen asks for. */
  ghost predicate Tracked(l: Ledger, darwin: bool) {
    && l.seen.Keys == l.slots.recordOwner.Keys
    && forall id | id in l.seen :: TrackedAt(l, id, darwin)
  }

  ghost predicate TrackedAt(l: Ledger, id: string, darwin: bool)
    requires id in l.seen
  {
    && l.seen[id].outputBytes <= Limit(l.seen[id])
    && Get(l.slots.outputBySession, id) == OutputReservation(l.seen[id], darwin)
  }

  ghost predicate OwnersWithin(index: map<string, set<string>>, most: nat) {
    forall o :: |Members(index, o)| <= most
  }

  ghost predicate Kept(l: Ledger, limits: Limits, most: nat, darwin: bool) {
    SlotsOk(l.slots) && SlotCaps(limits, l.slots) && OwnersWithin(l.slots.ownerSlots, most) && Tracked(l, darwin)
  }

  /** A later record never asks for more than is reserved. */
  lemma LaterAsksNoMore(before: Record, r: Record, darwin: bool)
    requires Later(before, r, darwin) && before.outputBytes <= Limit(before)
    ensures OutputReservation(r, darwin) <= OutputReservation(before, darwin)
  {
    hide OccupiesSlot;
  }

  lemma GetPut(m: map<string, nat>, k: string, v: nat)
    ensures forall h :: Get(Put(m, k, v), h) == if h == k then v else Get(m, h)
  {
    var after := Put(m, k, v);
    forall h ensures Get(after, h) == if h == k then v else Get(m, h) {
      if h != k { assert h in after <==> h in m; }
    }
  }

  lemma JoinsWithin(index: map<string, set<string>>, g: string, id: string, most: nat)
    requires |Members(index, g)| < most && OwnersWithin(index, most)
    ensures OwnersWithin(Joined(index, g, id), most)
  {
    hide Members, Joined;
    JoinedMembers(index, g, id);
  }

  lemma DepartsWithin(index: map<string, set<string>>, g: string, id: string, most: nat)
    requires OwnersWithin(index, most)
    ensures OwnersWithin(Departed(index, g, id), most)
  {
    hide Members, Departed;
    DepartedMembers(index, g, id);
    forall h ensures |Members(Departed(index, g, id), h)| <= most {
      FewerIds(Members(index, h), id);
    }
  }

  lemma ReservedParts(s: Slots, id: string, owner: string, bytes: nat)
    ensures var t := Reserved(s, id, owner, bytes);
            && t.ownerSlots == Joined(s.ownerSlots, owner, id)
            && t.recordOwner == s.recordOwner[id := owner]
            && t.outputBySession == Put(s.outputBySession, id, bytes)
  {
    hide Joined, Put, Get;
  }

  lemma ReserveKept(l: Ledger, r: Record, maxPerOwner: nat, limits: Limits, most: nat, darwin: bool)
    requires Kept(l, limits, most, darwin) && Lawful(l, Reserve(r, maxPerOwner), most, darwin)
    ensures Kept(Made(l, Reserve(r, maxPerOwner), limits, darwin), limits, most, darwin)
  {
    var bytes := OutputReservation(r, darwin);
    hide SlotsOk, SlotCaps, OutputReservation, Members, Get, Reserved, Joined, Put, Limit, OwnersWithin;
    if Admits(limits, l.slots, r.owner, bytes, maxPerOwner) {
      ReserveKeepsCaps(limits, l.slots, r.id, r.owner, bytes);
      ReservedParts(l.slots, r.id, r.owner, bytes);
      OneMore(l.slots.ownerSlots, r.owner, r.id, maxPerOwner, most);
      TrackedMoves(l, Made(l, Reserve(r, maxPerOwner), limits, darwin), r, darwin);
    }
  }

  lemma OneMore(index: map<string, set<string>>, g: string, id: string, cap: nat, most: nat)
    requires |Members(index, g)| < cap <= most && OwnersWithin(index, most)
    ensures OwnersWithin(Joined(index, g, id), most)
  {
    JoinsWithin(index, g, id, most);
  }

  /** One record is seen anew, and its amount with it. */
  lemma TrackedMoves(l: Ledger, after: Ledger, r: Record, darwin: bool)
    requires Tracked(l, darwin) && r.outputBytes <= Limit(r)
    requires after.seen == l.seen[r.id := r] && after.slots.recordOwner.Keys == l.slots.recordOwner.Keys + {r.id}
    requires after.slots.outputBySession == Put(l.slots.outputBySession, r.id, OutputReservation(r, darwin))
    ensures Tracked(after, darwin)
  {
    hide OutputReservation, Limit;
    GetPut(l.slots.outputBySession, r.id, OutputReservation(r, darwin));
    hide Get, Put;
    forall id | id in after.seen ensures TrackedAt(after, id, darwin) {
      if id != r.id { assert TrackedAt(l, id, darwin); }
    }
  }

  lemma TrackedLeaves(l: Ledger, after: Ledger, id: string, darwin: bool)
    requires Tracked(l, darwin)
    requires after.seen == l.seen - {id} && after.slots.recordOwner.Keys == l.slots.recordOwner.Keys - {id}
    requires after.slots.outputBySession == Put(l.slots.outputBySession, id, 0) || after.slots == l.slots
    ensures Tracked(after, darwin)
  {
    hide OutputReservation, Limit;
    GetPut(l.slots.outputBySession, id, 0);
    hide Get, Put;
    forall k | k in after.seen ensures TrackedAt(after, k, darwin) {
      assert TrackedAt(l, k, darwin);
    }
  }

  lemma ReleasedParts(s: Slots, id: string)
    ensures var t := Released(s, id);
            && t.ownerSlots == (if id in s.slotOwner then Departed(s.ownerSlots, s.slotOwner[id], id) else s.ownerSlots)
            && t.recordOwner == s.recordOwner - {id}
            && t.outputBySession == if id in s.recordOwner then Put(s.outputBySession, id, 0) else s.outputBySession
  {
    hide Departed, Put, Get;
    if id !in s.recordOwner { assert s.recordOwner - {id} == s.recordOwner; }
  }

  lemma ReleaseKept(l: Ledger, id: string, limits: Limits, most: nat, darwin: bool)
    requires Kept(l, limits, most, darwin)
    ensures Kept(Made(l, Release(id), limits, darwin), limits, most, darwin)
  {
    hide SlotsOk, SlotCaps, OutputReservation, Members, Get, Departed, Put, Released, Limit, OwnersWithin;
    ReleasedOk(limits, l.slots, id);
    ReleasedParts(l.slots, id);
    if id in l.slots.slotOwner { DepartsWithin(l.slots.ownerSlots, l.slots.slotOwner[id], id, most); }
    if id in l.slots.recordOwner {
      TrackedLeaves(l, Made(l, Release(id), limits, darwin), id, darwin);
    } else {
      assert l.seen - {id} == l.seen && l.slots.recordOwner - {id} == l.slots.recordOwner;
      SameTracked(l, Made(l, Release(id), limits, darwin), darwin);
    }
  }

  lemma SameTracked(l: Ledger, after: Ledger, darwin: bool)
    requires Tracked(l, darwin) && after.seen == l.seen
    requires after.slots.recordOwner == l.slots.recordOwner && after.slots.outputBySession == l.slots.outputBySession
    ensures Tracked(after, darwin)
  {
    hide OutputReservation, Limit, Get;
    forall id | id in after.seen ensures TrackedAt(after, id, darwin) {
      assert TrackedAt(l, id, darwin);
    }
  }

  lemma SettledParts(s: Slots, r: Record, darwin: bool)
    requires SlotsOk(s)
    ensures var t := Settled(s, r, darwin);
            && t.recordOwner == s.recordOwner
            && (t.ownerSlots == s.ownerSlots
                || (r.id in s.slotOwner && t.ownerSlots == Departed(s.ownerSlots, s.slotOwner[r.id], r.id)))
            && (r.id in s.recordOwner ==>
                  t.outputBySession == Put(s.outputBySession, r.id, OutputReservation(r, darwin)))
            && (r.id !in s.recordOwner ==> t == s)
  {
    NoSlotWithoutRecord(s);
    hide SlotsOk, OccupiesSlot, OutputReservation, Departed, Put, Get;
  }

  lemma SettleKept(l: Ledger, r: Record, limits: Limits, most: nat, darwin: bool)
    requires Kept(l, limits, most, darwin) && Lawful(l, Settle(r), most, darwin)
    ensures Kept(Made(l, Settle(r), limits, darwin), limits, most, darwin)
  {
    hide SlotsOk, SlotCaps, OutputReservation, OccupiesSlot, Members, Get, Departed, Put, Settled, OwnersWithin;
    SettledParts(l.slots, r, darwin);
    if r.id in l.seen {
      assert TrackedAt(l, r.id, darwin);
      LaterAsksNoMore(l.seen[r.id], r, darwin);
      SettledOk(limits, l.slots, r, darwin);
      if r.id in l.slots.slotOwner { DepartsWithin(l.slots.ownerSlots, l.slots.slotOwner[r.id], r.id, most); }
      hide Limit;
      assert l.slots.recordOwner.Keys == l.slots.recordOwner.Keys + {r.id};
      TrackedMoves(l, Made(l, Settle(r), limits, darwin), r, darwin);
    }
  }

  lemma NoSlotWithoutRecord(s: Slots)
    requires SlotsOk(s)
    ensures forall id | id in s.slotOwner :: id in s.recordOwner
  {
  }

  /** Over every sequence of calls in which output stays within its limit and settled sessions stay
      settled, all caps hold at the end as they did at the start, also that on each owner's sessions. */
  lemma {:induction false} RunKeepsCaps(l: Ledger, calls: seq<Call>, limits: Limits, most: nat, darwin: bool)
    requires Kept(l, limits, most, darwin) && LawfulRun(l, calls, limits, most, darwin)
    ensures Kept(MadeAll(l, calls, limits, darwin), limits, most, darwin)
    decreases |calls|
  {
    hide Kept, Made, Lawful;
    if calls != [] {
      match calls[0]
      case Reserve(r, maxPerOwner) => ReserveKept(l, r, maxPerOwner, limits, most, darwin);
      case Release(id) => ReleaseKept(l, id, limits, most, darwin);
      case Settle(r) => SettleKept(l, r, limits, most, darwin);
    }
    if calls != [] { RunKeepsCaps(Made(l, calls[0], limits, darwin), calls[1..], limits, most, darwin); }
  }

  lemma NothingKept(limits: Limits, most: nat, darwin: bool)
    ensures Kept(Ledger(NoSlots, map[]), limits, most, darwin)
  {
    NothingHeld(limits);
  }

  /** So every registry that starts empty keeps its caps, whatever is called in whatever order. */
  lemma CapsHold(calls: seq<Call>, limits: Limits, most: nat, darwin: bool)
    requires LawfulRun(Ledger(NoSlots, map[]), calls, limits, most, darwin)
    ensures var s := MadeAll(Ledger(NoSlots, map[]), calls, limits, darwin).slots;
            SlotsOk(s) && SlotCaps(limits, s) && OwnersWithin(s.ownerSlots, most)
  {
    NothingKept(limits, most, darwin);
    hide SlotsOk, SlotCaps, OwnersWithin, Tracked;
    RunKeepsCaps(Ledger(NoSlots, map[]), calls, limits, most, darwin);
  }
}
