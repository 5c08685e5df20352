/** Quota accounting (`SessionRegistry`): which sessions hold slots and records, how much output is
reserved for them, and which waits and queued inputs are outstanding. */
module Registry {
  import opened Options
  import opened Tallies

  const MAX_OUTPUT_BYTES: nat := 64 * 1024 * 1024

  datatype Limits = Limits(
    maxActiveSessions: nat, maxRecordsPerOwner: nat, maxRecords: nat,
    maxWaitsPerSession: nat, maxWaitsPerOwner: nat, maxWaits: nat,
    maxInputPerSession: nat, maxInputPerOwner: nat, maxInput: nat,
    maxOutputPerOwner: nat, maxOutput: nat)

  /** What the registry looks at in a session record. */
  datatype Record = Record(
    id: string, owner: string, drained: bool, terminationConfirmed: bool, directChildExited: bool,
    confirmedNoChild: bool, outputLimit: Option<nat>, outputBytes: nat)

  predicate OccupiesSlot(r: Record, darwin: bool) {
    !((r.terminationConfirmed && r.directChildExited && (r.drained || darwin)) || r.confirmedNoChild)
  }

  function OutputReservation(r: Record, darwin: bool): nat {
    var limit := if r.outputLimit.Some? then r.outputLimit.value else MAX_OUTPUT_BYTES;
    if OccupiesSlot(r, darwin) && limit > r.outputBytes then limit else r.outputBytes
  }

  class SessionReservation {
    const id: string
    var committed: bool
    var released: bool

    constructor (id: string)
      ensures this.id == id && !committed && !released
    {
      this.id, committed, released := id, false, false;
    }
  }

  /** What a caller holds for a wait or for queued input. The flag that marks it released is kept in
      the registry's `released` sets, by ticket number. */
  datatype WaitTicket = WaitTicket(id: nat, session: string, owner: string)
  datatype InputTicket = InputTicket(id: nat, session: string, owner: string, bytes: nat)

  // ----- Waits -----

  datatype Waits = Waits(bySession: map<string, set<nat>>, byOwner: map<string, set<nat>>, ids: set<nat>, next: nat)

  function SessionOfWait(open: map<nat, WaitTicket>): map<nat, string> {
    map id | id in open :: open[id].session
  }

  function OwnerOfWait(open: map<nat, WaitTicket>): map<nat, string> {
    map id | id in open :: open[id].owner
  }

  /** The waits counted are those outstanding, each under its session and its owner, within the limits. */
  ghost predicate WaitsOk(limits: Limits, w: Waits, open: map<nat, WaitTicket>) {
    && Indexed(w.bySession, SessionOfWait(open)) && Indexed(w.byOwner, OwnerOfWait(open))
    && w.ids == open.Keys
    && Numbered(open, w.next)
    && Below(w.bySession, limits.maxWaitsPerSession) && Below(w.byOwner, limits.maxWaitsPerOwner)
    && |w.ids| <= limits.maxWaits
  }

  ghost predicate Numbered(open: map<nat, WaitTicket>, next: nat) {
    forall id | id in open :: id < next && open[id].id == id
  }

  /** No group has more members than the cap. */
  ghost predicate Below(index: map<string, set<nat>>, cap: nat) {
    forall g :: |Members(index, g)| <= cap
  }

  /** No group has a larger amount than the cap. */
  ghost predicate Under(totals: map<string, nat>, cap: nat) {
    forall g :: Get(totals, g) <= cap
  }

  predicate WaitAdmitted(limits: Limits, w: Waits, session: string, owner: string) {
    && |Members(w.bySession, session)| < limits.maxWaitsPerSession
    && |Members(w.byOwner, owner)| < limits.maxWaitsPerOwner
    && |w.ids| < limits.maxWaits
  }

  function WithWait(w: Waits, session: string, owner: string): Waits {
    Waits(Joined(w.bySession, session, w.next), Joined(w.byOwner, owner, w.next), w.ids + {w.next}, w.next + 1)
  }

  function WithoutWait(w: Waits, t: WaitTicket): Waits {
    w.(bySession := Departed(w.bySession, t.session, t.id), byOwner := Departed(w.byOwner, t.owner, t.id),
       ids := w.ids - {t.id})
  }

  lemma WaitNumbers(limits: Limits, w: Waits, open: map<nat, WaitTicket>)
    requires WaitsOk(limits, w, open)
    ensures forall id | id in open :: id < w.next
  {
  }

  lemma NumbersJoin(open: map<nat, WaitTicket>, next: nat, t: WaitTicket)
    requires Numbered(open, next) && t.id == next
    ensures next !in open && Numbered(open[next := t], next + 1)
    ensures open.Keys + {next} == open[next := t].Keys && |open.Keys + {next}| == |open.Keys| + 1
  {
  }

  lemma WaitMaps(open: map<nat, WaitTicket>, t: WaitTicket)
    ensures SessionOfWait(open[t.id := t]) == SessionOfWait(open)[t.id := t.session]
    ensures OwnerOfWait(open[t.id := t]) == OwnerOfWait(open)[t.id := t.owner]
    ensures SessionOfWait(open - {t.id}) == SessionOfWait(open) - {t.id}
    ensures OwnerOfWait(open - {t.id}) == OwnerOfWait(open) - {t.id}
    ensures t.id in SessionOfWait(open) <==> t.id in open
    ensures t.id in OwnerOfWait(open) <==> t.id in open
    ensures t.id in open ==>
            SessionOfWait(open)[t.id] == open[t.id].session && OwnerOfWait(open)[t.id] == open[t.id].owner
  {
  }

  lemma JoinsBelow(index: map<string, set<nat>>, g: string, id: nat, cap: nat)
    requires |Members(index, g)| < cap && Below(index, cap)
    ensures Below(Joined(index, g, id), cap)
  {
    hide Members, Joined;
    JoinedMembers(index, g, id);
  }

  lemma DepartsBelow(index: map<string, set<nat>>, g: string, id: nat, cap: nat)
    requires Below(index, cap)
    ensures Below(Departed(index, g, id), cap)
  {
    hide Members, Departed;
    DepartedMembers(index, g, id);
    forall h ensures |Members(Departed(index, g, id), h)| <= cap {
      Fewer(Members(index, h), id);
    }
  }

  lemma WaitJoins(limits: Limits, w: Waits, open: map<nat, WaitTicket>, session: string, owner: string)
    requires WaitsOk(limits, w, open) && WaitAdmitted(limits, w, session, owner)
    ensures w.next !in open
    ensures WaitsOk(limits, WithWait(w, session, owner), open[w.next := WaitTicket(w.next, session, owner)])
  {
    hide Indexed, Members, Joined, SessionOfWait, OwnerOfWait, Below, Numbered;
    NumbersJoin(open, w.next, WaitTicket(w.next, session, owner));
    WaitMaps(open, WaitTicket(w.next, session, owner));
    IndexedJoins(w.bySession, SessionOfWait(open), session, w.next);
    IndexedJoins(w.byOwner, OwnerOfWait(open), owner, w.next);
    JoinsBelow(w.bySession, session, w.next, limits.maxWaitsPerSession);
    JoinsBelow(w.byOwner, owner, w.next, limits.maxWaitsPerOwner);
  }

  lemma WaitDeparts(limits: Limits, w: Waits, open: map<nat, WaitTicket>, t: WaitTicket)
    requires WaitsOk(limits, w, open) && t.id in open && open[t.id] == t
    ensures WaitsOk(limits, WithoutWait(w, t), open - {t.id})
  {
    hide Indexed, Members, Departed, SessionOfWait, OwnerOfWait, Below;
    WaitMaps(open, t);
    IndexedDeparts(w.bySession, SessionOfWait(open), t.id);
    IndexedDeparts(w.byOwner, OwnerOfWait(open), t.id);
    DepartsBelow(w.bySession, t.session, t.id, limits.maxWaitsPerSession);
    DepartsBelow(w.byOwner, t.owner, t.id, limits.maxWaitsPerOwner);
    Fewer(w.ids, t.id);
  }

  lemma Fewer(s: set<nat>, id: nat)
    ensures |s - {id}| <= |s|
  {
    if id !in s { assert s - {id} == s; }
  }

  // ----- Queued input -----

  datatype Queued = Queued(bySession: map<string, nat>, byOwner: map<string, nat>, total: int)

  function BytesOf(open: map<nat, InputTicket>): map<nat, nat> {
    map id | id in open :: open[id].bytes
  }

  function SessionOfInput(open: map<nat, InputTicket>): map<nat, string> {
    map id | id in open :: open[id].session
  }

  function OwnerOfInput(open: map<nat, InputTicket>): map<nat, string> {
    map id | id in open :: open[id].owner
  }

  /** The bytes counted are those outstanding, each under its session and its owner, within the limits. */
  ghost predicate InputOk(limits: Limits, q: Queued, open: map<nat, InputTicket>) {
    && Grouped(q.bySession, BytesOf(open), SessionOfInput(open))
    && Grouped(q.byOwner, BytesOf(open), OwnerOfInput(open))
    && (forall id | id in open :: open[id].id == id)
    && q.total == Sum(BytesOf(open)) <= limits.maxInput
    && Under(q.bySession, limits.maxInputPerSession) && Under(q.byOwner, limits.maxInputPerOwner)
  }

  predicate InputAdmitted(limits: Limits, q: Queued, session: string, owner: string, bytes: nat) {
    && Get(q.bySession, session) + bytes <= limits.maxInputPerSession
    && Get(q.byOwner, owner) + bytes <= limits.maxInputPerOwner
    && q.total + bytes <= limits.maxInput
  }

  function WithInput(q: Queued, session: string, owner: string, bytes: nat): Queued {
    Queued(q.bySession[session := Get(q.bySession, session) + bytes],
           q.byOwner[owner := Get(q.byOwner, owner) + bytes], q.total + bytes)
  }

  function Subtract(values: map<string, nat>, key: string, amount: nat): map<string, nat> {
    var next := Get(values, key) - amount;
    if next <= 0 then values - {key} else values[key := next]
  }

  function WithoutInput(q: Queued, t: InputTicket): Queued {
    Queued(Subtract(q.bySession, t.session, t.bytes), Subtract(q.byOwner, t.owner, t.bytes), q.total - t.bytes)
  }

  lemma InputMaps(open: map<nat, InputTicket>, t: InputTicket)
    ensures BytesOf(open[t.id := t]) == BytesOf(open)[t.id := t.bytes]
    ensures SessionOfInput(open[t.id := t]) == SessionOfInput(open)[t.id := t.session]
    ensures OwnerOfInput(open[t.id := t]) == OwnerOfInput(open)[t.id := t.owner]
    ensures BytesOf(open - {t.id}) == BytesOf(open) - {t.id}
    ensures SessionOfInput(open - {t.id}) == SessionOfInput(open) - {t.id}
    ensures OwnerOfInput(open - {t.id}) == OwnerOfInput(open) - {t.id}
  {
  }

  lemma InputKeys(open: map<nat, InputTicket>, t: InputTicket)
    ensures BytesOf(open).Keys == SessionOfInput(open).Keys == OwnerOfInput(open).Keys == open.Keys
    ensures t.id in open ==>
              && Get(BytesOf(open), t.id) == open[t.id].bytes
              && SessionOfInput(open)[t.id] == open[t.id].session && OwnerOfInput(open)[t.id] == open[t.id].owner
    ensures t.id !in open ==> Get(BytesOf(open), t.id) == 0
  {
  }

  lemma InputJoins(limits: Limits, q: Queued, open: map<nat, InputTicket>, t: InputTicket)
    requires InputOk(limits, q, open) && t.id !in open && InputAdmitted(limits, q, t.session, t.owner, t.bytes)
    ensures InputOk(limits, WithInput(q, t.session, t.owner, t.bytes), open[t.id := t])
  {
    hide Grouped, Sum, BytesOf, SessionOfInput, OwnerOfInput, Get, Under;
    InputMaps(open, t);
    InputKeys(open, t);
    GroupedJoins(q.bySession, BytesOf(open), SessionOfInput(open), t.id, t.session, t.bytes);
    GroupedJoins(q.byOwner, BytesOf(open), OwnerOfInput(open), t.id, t.owner, t.bytes);
    SumPut(BytesOf(open), t.id, t.bytes);
    SetBelow(q.bySession, t.session, Get(q.bySession, t.session) + t.bytes, limits.maxInputPerSession);
    SetBelow(q.byOwner, t.owner, Get(q.byOwner, t.owner) + t.bytes, limits.maxInputPerOwner);
  }

  lemma SetBelow(m: map<string, nat>, k: string, v: nat, cap: nat)
    requires v <= cap && Under(m, cap)
    ensures Under(m[k := v], cap)
  {
    var after := m[k := v];
    forall h ensures Get(after, h) <= cap {
      assert Get(m, h) <= cap;
      if h == k { assert after[h] == v; } else { assert h in after <==> h in m; }
    }
  }

  lemma InputDeparts(limits: Limits, q: Queued, open: map<nat, InputTicket>, t: InputTicket)
    requires InputOk(limits, q, open) && t.id in open && open[t.id] == t
    ensures InputOk(limits, WithoutInput(q, t), open - {t.id})
  {
    hide Grouped, Sum, BytesOf, SessionOfInput, OwnerOfInput, Subtract, Put, Get;
    InputMaps(open, t);
    InputKeys(open, t);
    GroupedDeparts(q.bySession, BytesOf(open), SessionOfInput(open), t.id);
    GroupedDeparts(q.byOwner, BytesOf(open), OwnerOfInput(open), t.id);
    SubtractIsPut(q.bySession, t.session, t.bytes);
    SubtractIsPut(q.byOwner, t.owner, t.bytes);
    SumPut(BytesOf(open), t.id, 0);
  }

  lemma SubtractIsPut(values: map<string, nat>, key: string, amount: nat)
    requires amount <= Get(values, key)
    ensures Subtract(values, key, amount) == Put(values, key, Get(values, key) - amount)
  {
  }

  // ----- Slots, records and output -----

  /** The tables behind slots, records and reserved output. */
  datatype Slots = Slots(
    ownerSlots: map<string, set<string>>, slotOwner: map<string, string>,
    recordsByOwner: map<string, set<string>>, recordOwner: map<string, string>,
    outputBySession: map<string, nat>, outputByOwner: map<string, nat>, outputTotal: int)

  const NoSlots := Slots(map[], map[], map[], map[], map[], map[], 0)

  ghost predicate SlotsOk(s: Slots) {
    && Indexed(s.ownerSlots, s.slotOwner) && Indexed(s.recordsByOwner, s.recordOwner)
    && (forall id | id in s.slotOwner :: id in s.recordOwner && s.recordOwner[id] == s.slotOwner[id])
    && Grouped(s.outputByOwner, s.outputBySession, s.recordOwner)
    && s.outputTotal == Sum(s.outputBySession)
  }

  ghost predicate SlotCaps(limits: Limits, s: Slots) {
    && |s.slotOwner| <= limits.maxActiveSessions
    && |s.recordOwner| <= limits.maxRecords
    && (forall o :: |Members(s.recordsByOwner, o)| <= limits.maxRecordsPerOwner)
    && Under(s.outputByOwner, limits.maxOutputPerOwner)
    && s.outputTotal <= limits.maxOutput
  }

  function WithActive(s: Slots, id: string, owner: string): Slots {
    s.(ownerSlots := Joined(s.ownerSlots, owner, id), slotOwner := s.slotOwner[id := owner])
  }

  function WithRecord(s: Slots, id: string, owner: string): Slots {
    s.(recordsByOwner := Joined(s.recordsByOwner, owner, id), recordOwner := s.recordOwner[id := owner])
  }

  /** The owner's total moves by as much as the session's own amount. */
  function WithOutput(s: Slots, id: string, owner: string, bytes: nat): Slots {
    var next := Get(s.outputByOwner, owner) + bytes - Get(s.outputBySession, id);
    s.(outputBySession := Put(s.outputBySession, id, bytes),
       outputByOwner := Put(s.outputByOwner, owner, if next < 0 then 0 else next),
       outputTotal := s.outputTotal + bytes - Get(s.outputBySession, id))
  }

  function WithoutActive(s: Slots, id: string): Slots {
    if id !in s.slotOwner then s
    else s.(ownerSlots := Departed(s.ownerSlots, s.slotOwner[id], id), slotOwner := s.slotOwner - {id})
  }

  function WithoutRecord(s: Slots, id: string): Slots {
    if id !in s.recordOwner then s
    else
      WithOutput(s, id, s.recordOwner[id], 0).(
        recordsByOwner := Departed(s.recordsByOwner, s.recordOwner[id], id), recordOwner := s.recordOwner - {id})
  }

  lemma WithRecordOk(s: Slots, id: string, owner: string)
    requires SlotsOk(s) && (id in s.recordOwner ==> s.recordOwner[id] == owner)
    ensures SlotsOk(WithRecord(s, id, owner))
  {
    hide Indexed, Joined;
    IndexedJoins(s.recordsByOwner, s.recordOwner, owner, id);
    if id in s.recordOwner {
      assert s.recordOwner[id := owner] == s.recordOwner;
    } else {
      assert id !in s.outputBySession;
      hide Grouped;
      GroupedMembers(s.outputByOwner, s.outputBySession, s.recordOwner, id, owner);
    }
  }

  lemma WithActiveOk(s: Slots, id: string, owner: string)
    requires SlotsOk(s) && id in s.recordOwner && s.recordOwner[id] == owner
    ensures SlotsOk(WithActive(s, id, owner))
  {
    hide Indexed, Joined, Grouped;
    IndexedJoins(s.ownerSlots, s.slotOwner, owner, id);
  }

  lemma WithOutputOk(s: Slots, id: string, owner: string, bytes: nat)
    requires SlotsOk(s) && id in s.recordOwner && s.recordOwner[id] == owner
    ensures SlotsOk(WithOutput(s, id, owner, bytes))
    ensures WithOutput(s, id, owner, bytes).outputTotal + Get(s.outputBySession, id) == s.outputTotal + bytes
    ensures forall o ::
              Get(WithOutput(s, id, owner, bytes).outputByOwner, o)
              + (if o == owner then Get(s.outputBySession, id) else 0)
              == Get(s.outputByOwner, o) + if o == owner then bytes else 0
  {
    var after := WithOutput(s, id, owner, bytes);
    WithinGroup(s.outputByOwner, s.outputBySession, s.recordOwner, id);
    hide Indexed, Grouped;
    SumPut(s.outputBySession, id, bytes);
    GroupedPut(s.outputByOwner, s.outputBySession, s.recordOwner, id, bytes, after.outputByOwner);
  }

  lemma WithoutActiveOk(s: Slots, id: string)
    requires SlotsOk(s)
    ensures SlotsOk(WithoutActive(s, id)) && id !in WithoutActive(s, id).slotOwner
  {
    hide Indexed, Departed, Grouped;
    if id in s.slotOwner { IndexedDeparts(s.ownerSlots, s.slotOwner, id); }
  }

  lemma WithoutRecordOk(s: Slots, id: string)
    requires SlotsOk(s) && id !in s.slotOwner
    ensures SlotsOk(WithoutRecord(s, id))
    ensures forall o :: Get(WithoutRecord(s, id).outputByOwner, o) <= Get(s.outputByOwner, o)
    ensures WithoutRecord(s, id).outputTotal <= s.outputTotal
  {
    if id in s.recordOwner {
      var t := WithOutput(s, id, s.recordOwner[id], 0);
      WithOutputOk(s, id, s.recordOwner[id], 0);
      PutZero(s.outputBySession, id);
      assert id !in t.outputBySession && t.slotOwner == s.slotOwner && t.recordOwner == s.recordOwner;
      hide SlotsOk, WithOutput, Get;
      UnrecordOk(t, id);
    }
  }

  lemma UnrecordOk(s: Slots, id: string)
    requires SlotsOk(s) && id in s.recordOwner && id !in s.slotOwner && id !in s.outputBySession
    ensures SlotsOk(s.(recordsByOwner := Departed(s.recordsByOwner, s.recordOwner[id], id),
                       recordOwner := s.recordOwner - {id}))
  {
    hide Indexed, Departed, Grouped;
    IndexedDeparts(s.recordsByOwner, s.recordOwner, id);
    GroupedMembers(s.outputByOwner, s.outputBySession, s.recordOwner, id, "");
  }

  lemma PutZero(m: map<string, nat>, k: string)
    ensures Put(m, k, 0) == m - {k}
  {
  }

  // ----- Caps -----

  lemma WithoutActiveCaps(limits: Limits, s: Slots, id: string)
    requires SlotCaps(limits, s)
    ensures SlotCaps(limits, WithoutActive(s, id))
  {
    hide Members, Get;
    FewerKeys(s.slotOwner, id);
  }

  lemma WithoutRecordCaps(limits: Limits, s: Slots, id: string)
    requires SlotsOk(s) && SlotCaps(limits, s) && id !in s.slotOwner
    ensures SlotCaps(limits, WithoutRecord(s, id))
  {
    hide SlotsOk, Get, Put, Members, Departed;
    FewerKeys(s.recordOwner, id);
    if id in s.recordOwner {
      WithoutRecordOk(s, id);
      var owner := s.recordOwner[id];
      DepartedMembers(s.recordsByOwner, owner, id);
      forall o ensures |Members(Departed(s.recordsByOwner, owner, id), o)| <= limits.maxRecordsPerOwner {
        FewerIds(Members(s.recordsByOwner, o), id);
      }
    }
  }

  lemma FewerKeys(m: map<string, string>, id: string)
    ensures |m - {id}| <= |m|
  {
    assert (m - {id}).Keys == m.Keys - {id};
    FewerIds(m.Keys, id);
  }

  lemma FewerIds(s: set<string>, id: string)
    ensures |s - {id}| <= |s|
  {
    if id !in s { assert s - {id} == s; }
  }

  /** A reservation within the limits keeps them. */
  lemma ReserveKeepsCaps(limits: Limits, s: Slots, id: string, owner: string, bytes: nat)
    requires SlotsOk(s) && SlotCaps(limits, s) && (id in s.recordOwner ==> s.recordOwner[id] == owner)
    requires |s.slotOwner| < limits.maxActiveSessions && |s.recordOwner| < limits.maxRecords
    requires |Members(s.recordsByOwner, owner)| < limits.maxRecordsPerOwner
    requires Get(s.outputByOwner, owner) + bytes <= limits.maxOutputPerOwner &&
             s.outputTotal + bytes <= limits.maxOutput
    ensures SlotsOk(Reserved(s, id, owner, bytes)) && SlotCaps(limits, Reserved(s, id, owner, bytes))
  {
    hide SlotsOk, Joined, Put, Get, Members;
    var t := WithActive(WithRecord(s, id, owner), id, owner);
    WithRecordOk(s, id, owner);
    WithActiveOk(WithRecord(s, id, owner), id, owner);
    WithOutputOk(t, id, owner, bytes);
    JoinedMembers(s.recordsByOwner, owner, id);
    MovedUnder(s.outputByOwner, WithOutput(t, id, owner, bytes).outputByOwner, owner, bytes,
               Get(t.outputBySession, id), limits.maxOutputPerOwner);
  }

  lemma MovedUnder(before: map<string, nat>, after: map<string, nat>, owner: string, more: nat, less: nat, cap: nat)
    requires Under(before, cap) && Get(before, owner) + more <= cap
    requires forall o ::
             Get(after, o) + (if o == owner then less else 0) == Get(before, o) + if o == owner then more else 0
    ensures Under(after, cap)
  {
    hide Get;
  }

  /** The limits leave room for one more session of this owner. */
  predicate Admits(limits: Limits, s: Slots, owner: string, bytes: nat, maxSessionsPerOwner: nat) {
    && |Members(s.ownerSlots, owner)| < maxSessionsPerOwner && |s.slotOwner| < limits.maxActiveSessions
    && |Members(s.recordsByOwner, owner)| < limits.maxRecordsPerOwner && |s.recordOwner| < limits.maxRecords
    && Get(s.outputByOwner, owner) + bytes <= limits.maxOutputPerOwner && s.outputTotal + bytes <= limits.maxOutput
  }

  /** Reserving takes a slot, a record and the output it may need. */
  function Reserved(s: Slots, id: string, owner: string, bytes: nat): Slots {
    WithOutput(WithActive(WithRecord(s, id, owner), id, owner), id, owner, bytes)
  }

  /** Releasing gives back all three. */
  function Released(s: Slots, id: string): Slots {
    WithoutRecord(WithoutActive(s, id), id)
  }

  /** A record that has settled gives back its slot, and its output counts as it now stands. */
  function Settled(s: Slots, r: Record, darwin: bool): Slots {
    var t := if OccupiesSlot(r, darwin) then s else WithoutActive(s, r.id);
    if r.id in t.recordOwner then WithOutput(t, r.id, t.recordOwner[r.id], OutputReservation(r, darwin)) else t
  }

  lemma ReleasedOk(limits: Limits, s: Slots, id: string)
    requires SlotsOk(s)
    ensures SlotsOk(Released(s, id)) && id !in Released(s, id).slotOwner && id !in Released(s, id).recordOwner
    ensures SlotCaps(limits, s) ==> SlotCaps(limits, Released(s, id))
  {
    hide SlotsOk, SlotCaps;
    WithoutActiveOk(s, id);
    WithoutRecordOk(WithoutActive(s, id), id);
    if SlotCaps(limits, s) {
      WithoutActiveCaps(limits, s, id);
      WithoutRecordCaps(limits, WithoutActive(s, id), id);
    }
  }

  /** While a record's output stays within what is reserved for it, settling keeps the caps. */
  lemma SettledOk(limits: Limits, s: Slots, r: Record, darwin: bool)
    requires SlotsOk(s)
    ensures SlotsOk(Settled(s, r, darwin))
    ensures SlotCaps(limits, s) && OutputReservation(r, darwin) <= Get(s.outputBySession, r.id) ==>
            SlotCaps(limits, Settled(s, r, darwin))
  {
    hide SlotsOk, SlotCaps, OutputReservation, OccupiesSlot, WithOutput;
    var t := if OccupiesSlot(r, darwin) then s else WithoutActive(s, r.id);
    WithoutActiveOk(s, r.id);
    if r.id in t.recordOwner { WithOutputOk(t, r.id, t.recordOwner[r.id], OutputReservation(r, darwin)); }
    if SlotCaps(limits, s) {
      WithoutActiveCaps(limits, s, r.id);
      if r.id in t.recordOwner && OutputReservation(r, darwin) <= Get(s.outputBySession, r.id) {
        OutputKeepsCaps(limits, t, r.id, t.recordOwner[r.id], OutputReservation(r, darwin));
      }
    }
  }

  lemma OutputKeepsCaps(limits: Limits, s: Slots, id: string, owner: string, bytes: nat)
    requires SlotsOk(s) && SlotCaps(limits, s) && id in s.recordOwner && s.recordOwner[id] == owner
    requires bytes <= Get(s.outputBySession, id)
    ensures SlotCaps(limits, WithOutput(s, id, owner, bytes))
  {
    hide SlotsOk, Get, Put, Members;
    WithOutputOk(s, id, owner, bytes);
    assert Under(WithOutput(s, id, owner, bytes).outputByOwner, limits.maxOutputPerOwner) by {
      hide WithOutput;
    }
  }

  /** What the totals mean: each is the sum of its per-owner table, and the output total also of
      what is reserved session by session. */
  lemma TotalsAddUp(s: Slots)
    requires SlotsOk(s)
    ensures Sum(Sizes(s.ownerSlots)) == |s.slotOwner| && Sum(Sizes(s.recordsByOwner)) == |s.recordOwner|
    ensures s.outputTotal == Sum(s.outputBySession) == Sum(s.outputByOwner)
  {
    hide Indexed, Grouped, Sum, Sizes;
    IndexedCounts(s.ownerSlots, s.slotOwner);
    IndexedCounts(s.recordsByOwner, s.recordOwner);
    GroupsAddUp(s.outputByOwner, s.outputBySession, s.recordOwner);
  }

  /** And so are the totals of waits and of queued input, over the outstanding reservations. */
  lemma OutstandingAddUp(limits: Limits, w: Waits, waits: map<nat, WaitTicket>, q: Queued,
                         inputs: map<nat, InputTicket>)
    requires WaitsOk(limits, w, waits) && InputOk(limits, q, inputs)
    ensures Sum(Sizes(w.bySession)) == Sum(Sizes(w.byOwner)) == |w.ids| == |waits|
    ensures q.total == Sum(BytesOf(inputs)) == Sum(q.bySession) == Sum(q.byOwner)
  {
    hide Indexed, Grouped, Sum, Sizes;
    IndexedCounts(w.bySession, SessionOfWait(waits));
    IndexedCounts(w.byOwner, OwnerOfWait(waits));
    assert SessionOfWait(waits).Keys == OwnerOfWait(waits).Keys == waits.Keys;
    GroupsAddUp(q.bySession, BytesOf(inputs), SessionOfInput(inputs));
    GroupsAddUp(q.byOwner, BytesOf(inputs), OwnerOfInput(inputs));
  }

  /** Releasing undoes a reservation of a new session. */
  lemma ReleaseUndoesReserve(s: Slots, id: string, owner: string, bytes: nat)
    requires SlotsOk(s) && id !in s.recordOwner
    ensures var t := Released(Reserved(s, id, owner, bytes), id);
            && t.slotOwner == s.slotOwner && t.recordOwner == s.recordOwner
            && t.outputBySession == s.outputBySession && t.outputTotal == s.outputTotal
            && SameGroups(t.ownerSlots, s.ownerSlots) && SameGroups(t.recordsByOwner, s.recordsByOwner)
  {
    ReservedOk(s, id, owner, bytes);
    ReleasedTables(s, id, owner, bytes);
    var r := Reserved(s, id, owner, bytes);
    ReleasedOk(Limits(0, 0, 0, 0, 0, 0, 0, 0, 0, 0, 0), r, id);
    SameIndexes(s, Released(r, id));
  }

  lemma ReleasedTables(s: Slots, id: string, owner: string, bytes: nat)
    requires SlotsOk(s) && id !in s.recordOwner
    ensures var t := Released(Reserved(s, id, owner, bytes), id);
            && t.slotOwner == s.slotOwner && t.recordOwner == s.recordOwner
            && t.outputBySession == s.outputBySession && t.outputTotal == s.outputTotal
  {
    assert id !in s.slotOwner && id !in s.outputBySession;
    hide SlotsOk, Joined, Departed;
    assert s.slotOwner[id := owner] - {id} == s.slotOwner && s.recordOwner[id := owner] - {id} == s.recordOwner;
    assert Put(Put(s.outputBySession, id, bytes), id, 0) == s.outputBySession;
  }

  /** Two indexes with the same members in every group. */
  ghost predicate SameGroups(a: map<string, set<string>>, b: map<string, set<string>>) {
    forall g :: Members(a, g) == Members(b, g)
  }

  /** An index is determined by what it indexes. */
  lemma SameIndexes(s: Slots, t: Slots)
    requires SlotsOk(s) && SlotsOk(t) && s.slotOwner == t.slotOwner && s.recordOwner == t.recordOwner
    ensures SameGroups(t.ownerSlots, s.ownerSlots) && SameGroups(t.recordsByOwner, s.recordsByOwner)
  {
    hide Grouped, Sum, Members;
    forall o
      ensures Members(t.ownerSlots, o) == Members(s.ownerSlots, o)
      ensures Members(t.recordsByOwner, o) == Members(s.recordsByOwner, o)
    {
      SameMembers(s.ownerSlots, t.ownerSlots, s.slotOwner, o);
      SameMembers(s.recordsByOwner, t.recordsByOwner, s.recordOwner, o);
    }
  }

  lemma SameMembers(a: map<string, set<string>>, b: map<string, set<string>>, groupOf: map<string, string>, g: string)
    requires Indexed(a, groupOf) && Indexed(b, groupOf)
    ensures Members(a, g) == Members(b, g)
  {
    hide Members;
    forall k ensures k in Members(a, g) <==> k in Members(b, g) {
      if k in Members(a, g) || k in Members(b, g) {
        assert groupOf[k] == g && k in Members(a, groupOf[k]) && k in Members(b, groupOf[k]);
      }
    }
  }

  // ----- The registry -----

  class SessionRegistry {
    const limits: Limits
    const darwin: bool
    var records: map<string, Record>
    var ownerSlots: map<string, set<string>>
    var slotOwner: map<string, string>
    var recordsByOwner: map<string, set<string>>
    var recordOwner: map<string, string>
    var outputBySession: map<string, nat>
    var outputByOwner: map<string, nat>
    var outputTotal: int
    var waitsBySession: map<string, set<nat>>
    var waitsByOwner: map<string, set<nat>>
    var waits: set<nat>
    var nextWaitId: nat
    var inputBySession: map<string, nat>
    var inputByOwner: map<string, nat>
    var inputBytes: int
    var releasedWaits: set<nat>
    var releasedInput: set<nat>
    var nextInput: nat
    ghost var openWaits: map<nat, WaitTicket>
    ghost var openInput: map<nat, InputTicket>

    ghost function Held(): Slots
      reads this
    {
      Slots(ownerSlots, slotOwner, recordsByOwner, recordOwner, outputBySession, outputByOwner, outputTotal)
    }

    function Waiting(): Waits
      reads this`waitsBySession, this`waitsByOwner, this`waits, this`nextWaitId
    {
      Waits(waitsBySession, waitsByOwner, waits, nextWaitId)
    }

    function Queue(): Queued
      reads this`inputBySession, this`inputByOwner, this`inputBytes
    {
      Queued(inputBySession, inputByOwner, inputBytes)
    }

    ghost predicate WaitsCounted()
      reads this`waitsBySession, this`waitsByOwner, this`waits, this`nextWaitId, this`releasedWaits, this`openWaits
    {
      && WaitsOk(limits, Waiting(), openWaits)
      && openWaits.Keys !! releasedWaits && forall id | id in releasedWaits :: id < nextWaitId
    }

    ghost predicate InputCounted()
      reads this`inputBySession, this`inputByOwner, this`inputBytes, this`nextInput, this`releasedInput, this`openInput
    {
      && InputOk(limits, Queue(), openInput)
      && openInput.Keys !! releasedInput && forall id | id in openInput || id in releasedInput :: id < nextInput
    }

    ghost predicate Valid()
      reads this
    {
      SlotsOk(Held()) && WaitsCounted() && InputCounted()
    }

    constructor (limits: Limits, darwin: bool)
      ensures Valid() && Held() == NoSlots && openWaits == map[] && openInput == map[]
      ensures this.limits == limits && this.darwin == darwin && SlotCaps(limits, Held())
    {
      this.limits, this.darwin, records := limits, darwin, map[];
      ownerSlots, slotOwner, recordsByOwner, recordOwner := map[], map[], map[], map[];
      outputBySession, outputByOwner, outputTotal := map[], map[], 0;
      waitsBySession, waitsByOwner, waits, nextWaitId := map[], map[], {}, 0;
      inputBySession, inputByOwner, inputBytes := map[], map[], 0;
      releasedWaits, releasedInput, nextInput, openWaits, openInput := {}, {}, 0, map[], map[];
      new;
      NothingHeld(limits);
      NothingOutstanding(limits);
      hide SlotsOk, SlotCaps, WaitsOk, InputOk;
    }

    method AddActive(id: string, owner: string)
      modifies this`ownerSlots, this`slotOwner
      ensures Held() == WithActive(old(Held()), id, owner)
    {
      ownerSlots := ownerSlots[owner := Members(ownerSlots, owner) + {id}];
      slotOwner := slotOwner[id := owner];
    }

    method AddRecord(id: string, owner: string)
      modifies this`recordsByOwner, this`recordOwner
      ensures Held() == WithRecord(old(Held()), id, owner)
    {
      recordsByOwner := recordsByOwner[owner := Members(recordsByOwner, owner) + {id}];
      recordOwner := recordOwner[id := owner];
    }

    method SetOutput(id: string, owner: string, bytes: nat)
      requires Get(outputBySession, id) <= Get(outputByOwner, owner)
      modifies this`outputBySession, this`outputByOwner, this`outputTotal
      ensures Held() == WithOutput(old(Held()), id, owner, bytes)
    {
      var delta := bytes - Get(outputBySession, id);
      var next := Get(outputByOwner, owner) + delta;
      if bytes == 0 {
        outputBySession := outputBySession - {id};
      } else {
        outputBySession := outputBySession[id := bytes];
      }
      outputTotal := outputTotal + delta;
      if next == 0 {
        outputByOwner := outputByOwner - {owner};
      } else {
        outputByOwner := outputByOwner[owner := next];
      }
    }

    method ReleaseActive(id: string)
      modifies this`ownerSlots, this`slotOwner
      ensures Held() == WithoutActive(old(Held()), id)
    {
      if id !in slotOwner {
        return;
      }
      var owner := slotOwner[id];
      var slots := Members(ownerSlots, owner) - {id};
      if slots == {} {
        ownerSlots := ownerSlots - {owner};
      } else {
        ownerSlots := ownerSlots[owner := slots];
      }
      slotOwner := slotOwner - {id};
    }

    method Take(id: string, owner: string, output: nat)
      requires Get(outputBySession, id) <= Get(outputByOwner, owner)
      modifies this`ownerSlots, this`slotOwner, this`recordsByOwner, this`recordOwner, this`outputBySession,
               this`outputByOwner, this`outputTotal
      ensures Held() == Reserved(old(Held()), id, owner, output)
    {
      hide WithActive, WithRecord, WithOutput;
      Commute(Held(), id, owner);
      AddActive(id, owner);
      AddRecord(id, owner);
      SetOutput(id, owner, output);
    }

    method TryTake(r: Record, maxSessionsPerOwner: nat) returns (taken: bool)
      requires Valid() && (r.id in recordOwner ==> recordOwner[r.id] == r.owner)
      modifies this`ownerSlots, this`slotOwner, this`recordsByOwner, this`recordOwner, this`outputBySession,
               this`outputByOwner, this`outputTotal
      ensures Valid()
      ensures Held() == if taken then Reserved(old(Held()), r.id, r.owner, OutputReservation(r, darwin))
              else old(Held())
      ensures taken == Admits(limits, old(Held()), r.owner, OutputReservation(r, darwin), maxSessionsPerOwner)
      ensures old(SlotCaps(limits, Held())) ==> SlotCaps(limits, Held())
    {
      hide WaitsCounted, InputCounted, SlotsOk, SlotCaps, Reserved, OutputReservation;
      var output := OutputReservation(r, darwin);
      taken := false;
      if |Members(ownerSlots, r.owner)| >= maxSessionsPerOwner || |slotOwner| >= limits.maxActiveSessions {
        return;
      }
      if |Members(recordsByOwner, r.owner)| >= limits.maxRecordsPerOwner || |recordOwner| >= limits.maxRecords {
        return;
      }
      if Get(outputByOwner, r.owner) + output > limits.maxOutputPerOwner || outputTotal + output > limits.maxOutput {
        return;
      }
      TakeOk(limits, Held(), r.id, r.owner, output);
      Take(r.id, r.owner, output);
      taken := true;
    }

    /** `reserve`: refused without any change, or all of slot, record and output. An id is only
        ever used for one owner. */
    method Reserve(r: Record, maxSessionsPerOwner: nat) returns (reservation: Option<SessionReservation>)
      requires Valid() && (r.id in recordOwner ==> recordOwner[r.id] == r.owner)
      modifies this`ownerSlots, this`slotOwner, this`recordsByOwner, this`recordOwner, this`outputBySession,
               this`outputByOwner, this`outputTotal
      ensures Valid()
      ensures reservation.Some? ==>
              fresh(reservation.value) && reservation.value.id == r.id && !reservation.value.released
      ensures Held() == if reservation.Some? then Reserved(old(Held()), r.id, r.owner, OutputReservation(r, darwin))
              else old(Held())
      ensures reservation.Some? ==
              Admits(limits, old(Held()), r.owner, OutputReservation(r, darwin), maxSessionsPerOwner)
      ensures old(SlotCaps(limits, Held())) ==> SlotCaps(limits, Held())
    {
      hide WaitsCounted, InputCounted, SlotsOk, SlotCaps, Reserved, OutputReservation, Admits;
      var taken := TryTake(r, maxSessionsPerOwner);
      if !taken {
        return None;
      }
      var made := new SessionReservation(r.id);
      reservation := Some(made);
    }

    method RemoveRecord(id: string)
      requires id in recordOwner ==> Get(outputBySession, id) <= Get(outputByOwner, recordOwner[id])
      modifies this`recordsByOwner, this`recordOwner, this`outputBySession, this`outputByOwner, this`outputTotal
      ensures Held() == WithoutRecord(old(Held()), id)
    {
      if id !in recordOwner {
        return;
      }
      var owner := recordOwner[id];
      var remaining := Members(recordsByOwner, owner) - {id};
      if remaining == {} {
        recordsByOwner := recordsByOwner - {owner};
      } else {
        recordsByOwner := recordsByOwner[owner := remaining];
      }
      recordOwner := recordOwner - {id};
      SetOutput(id, owner, 0);
    }

    /** `release`: gives back slot, record and output. */
    method Release(id: string)
      requires Valid()
      modifies this`ownerSlots, this`slotOwner, this`recordsByOwner, this`recordOwner, this`outputBySession,
               this`outputByOwner, this`outputTotal
      ensures Valid() && Held() == Released(old(Held()), id)
      ensures old(SlotCaps(limits, Held())) ==> SlotCaps(limits, Held())
    {
      hide WaitsCounted, InputCounted, SlotCaps, SlotsOk, WithoutActive, WithoutRecord;
      ReleasedOk(limits, Held(), id);
      WithoutActiveOk(Held(), id);
      ReleaseActive(id);
      OutputWithin(Held(), id);
      RemoveRecord(id);
    }

    /** `commit`: only a reservation that is still open. */
    method Commit(reservation: SessionReservation) returns (ok: bool)
      modifies reservation
      ensures ok == (!old(reservation.committed) && !old(reservation.released))
      ensures reservation.released == old(reservation.released) &&
              reservation.committed == (old(reservation.committed) || ok)
    {
      ok := !reservation.committed && !reservation.released;
      if ok { reservation.committed := true; }
    }

    method AddSession(r: Record)
      requires r.id in recordOwner ==> recordOwner[r.id] == r.owner
      requires Get(outputBySession, r.id) <= Get(outputByOwner, r.owner)
      modifies this`ownerSlots, this`slotOwner, this`recordsByOwner, this`recordOwner, this`outputBySession,
               this`outputByOwner, this`outputTotal
      ensures Held() == Added(old(Held()), r, darwin)
    {
      hide OccupiesSlot, OutputReservation;
      AddRecord(r.id, r.owner);
      if OccupiesSlot(r, darwin) {
        AddActive(r.id, r.owner);
      }
      SetOutput(r.id, r.owner, OutputReservation(r, darwin));
    }

    method Clear()
      modifies this`ownerSlots, this`slotOwner, this`recordsByOwner, this`recordOwner, this`outputBySession,
               this`outputByOwner, this`outputTotal
      ensures Held() == NoSlots
    {
      ownerSlots, slotOwner, recordsByOwner, recordOwner := map[], map[], map[], map[];
      outputBySession, outputByOwner, outputTotal := map[], map[], 0;
    }

    method Refill()
      requires forall id | id in records :: records[id].id == id
      modifies this`ownerSlots, this`slotOwner, this`recordsByOwner, this`recordOwner, this`outputBySession,
               this`outputByOwner, this`outputTotal
      ensures SlotsOk(Held()) && Rebuilt(Held(), records, records.Keys, darwin)
    {
      hide SlotsOk, SlotCaps, Rebuilt, Parted, Added, OccupiesSlot, OutputReservation;
      Clear();
      NothingHeld(limits);
      NothingRebuilt(records, darwin);
      PartStarts(records.Keys);
      var rest := records.Keys;
      ghost var done := {};
      while rest != {}
        invariant Parted(records.Keys, done, rest)
        invariant SlotsOk(Held()) && Rebuilt(Held(), records, done, darwin)
        decreases |rest|
      {
        var id :| id in rest;
        PartMoves(records.Keys, done, rest, id);
        RebuildStep(Held(), records, done, id, darwin);
        AddSession(records[id]);
        rest, done := rest - {id}, done + {id};
      }
      PartEnds(records.Keys, done);
    }

    method RefillValid()
      requires Valid() && forall id | id in records :: records[id].id == id
      modifies this`ownerSlots, this`slotOwner, this`recordsByOwner, this`recordOwner, this`outputBySession,
               this`outputByOwner, this`outputTotal
      ensures Valid() && Rebuilt(Held(), records, records.Keys, darwin)
    {
      hide SlotsOk, WaitsCounted, InputCounted, Rebuilt;
      Refill();
    }

    /** `rebuildSlots`: whatever the tables were before, they are exactly those of the records held. */
    method RebuildSlots()
      requires Valid() && forall id | id in records :: records[id].id == id
      modifies this`ownerSlots, this`slotOwner, this`recordsByOwner, this`recordOwner, this`outputBySession,
               this`outputByOwner, this`outputTotal
      ensures Valid()
      ensures recordOwner == map id | id in records :: records[id].owner
      ensures slotOwner == map id | id in records && OccupiesSlot(records[id], darwin) :: records[id].owner
      ensures forall id ::
                Get(outputBySession, id) == if id in records then OutputReservation(records[id], darwin) else 0
    {
      hide SlotsOk, WaitsCounted, InputCounted, Rebuilt, OccupiesSlot, OutputReservation;
      RefillValid();
      RebuiltAll(Held(), records, darwin);
    }

    /** `releaseReservation`: the second release changes nothing. */
    method ReleaseReservation(reservation: SessionReservation)
      requires Valid()
      modifies this`ownerSlots, this`slotOwner, this`recordsByOwner, this`recordOwner, this`outputBySession,
               this`outputByOwner, this`outputTotal, reservation
      ensures Valid() && reservation.released
      ensures Held() == if old(reservation.released) then old(Held()) else Released(old(Held()), reservation.id)
    {
      if reservation.released {
        return;
      }
      reservation.released := true;
      Release(reservation.id);
    }

    /** `releaseIfSettled`. */
    method ReleaseIfSettled(r: Record)
      requires Valid()
      modifies this`ownerSlots, this`slotOwner, this`recordsByOwner, this`recordOwner, this`outputBySession,
               this`outputByOwner, this`outputTotal
      ensures Valid() && Held() == Settled(old(Held()), r, darwin)
      ensures old(SlotCaps(limits, Held())) && OutputReservation(r, darwin) <= Get(old(outputBySession), r.id) ==>
              SlotCaps(limits, Held())
    {
      hide WaitsCounted, InputCounted, SlotCaps, SlotsOk, OutputReservation, OccupiesSlot, WithoutActive, WithOutput;
      SettledOk(limits, Held(), r, darwin);
      WithoutActiveOk(Held(), r.id);
      if !OccupiesSlot(r, darwin) {
        ReleaseActive(r.id);
      }
      OutputWithin(Held(), r.id);
      if r.id in recordOwner {
        SetOutput(r.id, recordOwner[r.id], OutputReservation(r, darwin));
      }
    }

    method TakeWait(session: string, owner: string)
      modifies this`waitsBySession, this`waitsByOwner, this`waits, this`nextWaitId
      ensures Waiting() == WithWait(old(Waiting()), session, owner)
    {
      waitsBySession := waitsBySession[session := Members(waitsBySession, session) + {nextWaitId}];
      waitsByOwner := waitsByOwner[owner := Members(waitsByOwner, owner) + {nextWaitId}];
      waits := waits + {nextWaitId};
      nextWaitId := nextWaitId + 1;
    }

    method DropWait(t: WaitTicket)
      modifies this`waitsBySession, this`waitsByOwner, this`waits
      ensures Waiting() == WithoutWait(old(Waiting()), t)
    {
      waits := waits - {t.id};
      var bySession := Members(waitsBySession, t.session) - {t.id};
      waitsBySession := if bySession == {} then waitsBySession - {t.session}
          else waitsBySession[t.session := bySession];
      var byOwner := Members(waitsByOwner, t.owner) - {t.id};
      waitsByOwner := if byOwner == {} then waitsByOwner - {t.owner} else waitsByOwner[t.owner := byOwner];
    }

    /** `reserveWait`: one more wait, counted under its session and its owner. */
    method ReserveWait(session: string, owner: string) returns (reservation: Option<WaitTicket>)
      requires Valid()
      modifies this`waitsBySession, this`waitsByOwner, this`waits, this`nextWaitId, this`openWaits
      ensures Valid() && reservation.Some? == WaitAdmitted(limits, old(Waiting()), session, owner)
      ensures reservation.None? ==> Waiting() == old(Waiting()) && openWaits == old(openWaits)
      ensures reservation.Some? ==>
                var t := reservation.value;
                t.session == session && t.owner == owner && t.id !in old(openWaits) &&
                    openWaits == old(openWaits)[t.id := t]
    {
      hide SlotsOk, WaitsOk, InputCounted, Members, WithoutWait;
      if |Members(waitsBySession, session)| >= limits.maxWaitsPerSession ||
          |Members(waitsByOwner, owner)| >= limits.maxWaitsPerOwner
         || |waits| >= limits.maxWaits {
        return None;
      }
      WaitJoins(limits, Waiting(), openWaits, session, owner);
      WaitNumbers(limits, Waiting(), openWaits);
      var t := WaitTicket(nextWaitId, session, owner);
      TakeWait(session, owner);
      openWaits := openWaits[t.id := t];
      return Some(t);
    }

    /** `releaseWait`: the second release changes nothing. */
    method ReleaseWait(t: WaitTicket)
      requires Valid() && (t.id in releasedWaits || (t.id in openWaits && openWaits[t.id] == t))
      modifies this`waitsBySession, this`waitsByOwner, this`waits, this`releasedWaits, this`openWaits
      ensures Valid() && t.id in releasedWaits
      ensures t.id in old(releasedWaits) ==> Waiting() == old(Waiting()) && openWaits == old(openWaits)
      ensures t.id !in old(releasedWaits) ==> openWaits == old(openWaits) - {t.id}
    {
      hide SlotsOk, WaitsOk, InputCounted, Members, WithoutWait;
      if t.id in releasedWaits {
        return;
      }
      WaitDeparts(limits, Waiting(), openWaits, t);
      WaitNumbers(limits, Waiting(), openWaits);
      releasedWaits := releasedWaits + {t.id};
      DropWait(t);
      openWaits := openWaits - {t.id};
    }

    method TakeInput(session: string, owner: string, bytes: nat)
      modifies this`inputBySession, this`inputByOwner, this`inputBytes
      ensures Queue() == WithInput(old(Queue()), session, owner, bytes)
    {
      inputBySession := inputBySession[session := Get(inputBySession, session) + bytes];
      inputByOwner := inputByOwner[owner := Get(inputByOwner, owner) + bytes];
      inputBytes := inputBytes + bytes;
    }

    method DropInput(t: InputTicket)
      modifies this`inputBySession, this`inputByOwner, this`inputBytes
      ensures Queue() == WithoutInput(old(Queue()), t)
    {
      inputBySession := Subtract(inputBySession, t.session, t.bytes);
      inputByOwner := Subtract(inputByOwner, t.owner, t.bytes);
      inputBytes := inputBytes - t.bytes;
    }

    /** `reserveInput`: so many more bytes, counted under the session and the owner. */
    method ReserveInput(session: string, owner: string, bytes: nat) returns (reservation: Option<InputTicket>)
      requires Valid()
      modifies this`inputBySession, this`inputByOwner, this`inputBytes, this`nextInput, this`openInput
      ensures Valid() && reservation.Some? == InputAdmitted(limits, old(Queue()), session, owner, bytes)
      ensures reservation.None? ==> Queue() == old(Queue()) && openInput == old(openInput)
      ensures reservation.Some? ==>
                var t := reservation.value;
                && t.session == session && t.owner == owner && t.bytes == bytes
                && t.id !in old(openInput) && openInput == old(openInput)[t.id := t]
    {
      hide SlotsOk, InputOk, WaitsCounted, Get, Subtract;
      if Get(inputBySession, session) + bytes > limits.maxInputPerSession ||
          Get(inputByOwner, owner) + bytes > limits.maxInputPerOwner
         || inputBytes + bytes > limits.maxInput {
        return None;
      }
      var t := InputTicket(nextInput, session, owner, bytes);
      InputJoins(limits, Queue(), openInput, t);
      nextInput := nextInput + 1;
      TakeInput(session, owner, bytes);
      openInput := openInput[t.id := t];
      return Some(t);
    }

    /** `releaseInput`: the second release changes nothing. */
    method ReleaseInput(t: InputTicket)
      requires Valid() && (t.id in releasedInput || (t.id in openInput && openInput[t.id] == t))
      modifies this`inputBySession, this`inputByOwner, this`inputBytes, this`releasedInput, this`openInput
      ensures Valid() && t.id in releasedInput
      ensures t.id in old(releasedInput) ==> Queue() == old(Queue()) && openInput == old(openInput)
      ensures t.id !in old(releasedInput) ==>
              openInput == old(openInput) - {t.id} && inputBytes == old(inputBytes) - t.bytes
    {
      hide SlotsOk, InputOk, WaitsCounted, Get, Subtract;
      if t.id in releasedInput {
        return;
      }
      InputDeparts(limits, Queue(), openInput, t);
      releasedInput := releasedInput + {t.id};
      DropInput(t);
      openInput := openInput - {t.id};
    }
  }

  ghost predicate RecordsRebuilt(recordOwner: map<string, string>, records: map<string, Record>, done: set<string>) {
    recordOwner.Keys == done <= records.Keys && forall id | id in done :: recordOwner[id] == records[id].owner
  }

  ghost predicate SlotsRebuilt(slotOwner: map<string, string>, records: map<string, Record>, done: set<string>,
                               darwin: bool)
    requires done <= records.Keys
  {
    && (forall id :: id in slotOwner <==> id in done && OccupiesSlot(records[id], darwin))
    && (forall id | id in slotOwner :: slotOwner[id] == records[id].owner)
  }

  ghost predicate OutputRebuilt(output: map<string, nat>, records: map<string, Record>, done: set<string>, darwin: bool)
    requires done <= records.Keys
  {
    forall id :: Get(output, id) == if id in done then OutputReservation(records[id], darwin) else 0
  }

  /** The tables are exactly those of the records done so far. */
  ghost predicate Rebuilt(s: Slots, records: map<string, Record>, done: set<string>, darwin: bool) {
    RecordsRebuilt(s.recordOwner, records, done) && SlotsRebuilt(s.slotOwner, records, done, darwin) &&
        OutputRebuilt(s.outputBySession, records, done, darwin)
  }

  function Added(s: Slots, r: Record, darwin: bool): Slots {
    var t := WithRecord(s, r.id, r.owner);
    WithOutput(if OccupiesSlot(r, darwin) then WithActive(t, r.id, r.owner) else t, r.id, r.owner,
               OutputReservation(r, darwin))
  }

  lemma RebuildStep(s: Slots, records: map<string, Record>, done: set<string>, id: string, darwin: bool)
    requires SlotsOk(s) && Rebuilt(s, records, done, darwin) && id in records && id !in done && records[id].id == id
    ensures var r := records[id];
            && r.id !in s.recordOwner && Get(s.outputBySession, r.id) <= Get(s.outputByOwner, r.owner)
            && SlotsOk(Added(s, r, darwin)) && Rebuilt(Added(s, r, darwin), records, done + {id}, darwin)
  {
    var r := records[id];
    hide SlotsOk, OccupiesSlot, OutputReservation, Added, Put, RecordsRebuilt, SlotsRebuilt, OutputRebuilt;
    RecordRebuilt(s.recordOwner, records, done, id);
    AddedOk(s, r, darwin);
    AddedTables(s, r, darwin);
    SlotRebuilt(s.slotOwner, records, done, id, darwin);
    AmountRebuilt(s.outputBySession, records, done, id, darwin);
  }

  lemma AddedOk(s: Slots, r: Record, darwin: bool)
    requires SlotsOk(s) && r.id !in s.recordOwner
    ensures SlotsOk(Added(s, r, darwin)) && Get(s.outputBySession, r.id) <= Get(s.outputByOwner, r.owner)
  {
    hide SlotsOk, OccupiesSlot, OutputReservation, WithOutput, Joined;
    var t := WithRecord(s, r.id, r.owner);
    WithRecordOk(s, r.id, r.owner);
    OutputWithin(t, r.id);
    WithActiveOk(t, r.id, r.owner);
    WithOutputOk(if OccupiesSlot(r, darwin) then WithActive(t, r.id, r.owner) else t, r.id, r.owner,
                 OutputReservation(r, darwin));
  }

  lemma AddedTables(s: Slots, r: Record, darwin: bool)
    ensures var t := Added(s, r, darwin);
            && t.recordOwner == s.recordOwner[r.id := r.owner]
            && t.slotOwner == (if OccupiesSlot(r, darwin) then s.slotOwner[r.id := r.owner] else s.slotOwner)
            && t.outputBySession == Put(s.outputBySession, r.id, OutputReservation(r, darwin))
  {
    hide OccupiesSlot, OutputReservation, Joined, Put, Get;
  }

  lemma NothingRebuilt(records: map<string, Record>, darwin: bool)
    ensures Rebuilt(NoSlots, records, {}, darwin)
  {
  }

  /** What has been dealt with and what is left. */
  ghost predicate Parted(all: set<string>, done: set<string>, rest: set<string>) {
    done + rest == all && done !! rest
  }

  lemma PartStarts(all: set<string>)
    ensures Parted(all, {}, all)
  {
  }

  lemma PartMoves(all: set<string>, done: set<string>, rest: set<string>, id: string)
    requires Parted(all, done, rest) && id in rest
    ensures Parted(all, done + {id}, rest - {id}) && id in all && id !in done && |rest - {id}| < |rest|
  {
  }

  lemma PartEnds(all: set<string>, done: set<string>)
    requires Parted(all, done, {})
    ensures done == all
  {
  }

  lemma RecordRebuilt(recordOwner: map<string, string>, records: map<string, Record>, done: set<string>, id: string)
    requires RecordsRebuilt(recordOwner, records, done) && id in records && id !in done
    ensures id !in recordOwner && done <= records.Keys &&
            RecordsRebuilt(recordOwner[id := records[id].owner], records, done + {id})
  {
  }

  lemma SlotRebuilt(slotOwner: map<string, string>, records: map<string, Record>, done: set<string>, id: string,
                    darwin: bool)
    requires done <= records.Keys && SlotsRebuilt(slotOwner, records, done, darwin) && id in records && id !in done
    ensures var after := if OccupiesSlot(records[id], darwin) then slotOwner[id := records[id].owner] else slotOwner;
            SlotsRebuilt(after, records, done + {id}, darwin)
  {
    hide OccupiesSlot;
  }

  lemma AmountRebuilt(output: map<string, nat>, records: map<string, Record>, done: set<string>, id: string,
                      darwin: bool)
    requires done <= records.Keys && OutputRebuilt(output, records, done, darwin) && id in records && id !in done
    ensures OutputRebuilt(Put(output, id, OutputReservation(records[id], darwin)), records, done + {id}, darwin)
  {
    hide OutputReservation;
    var bytes := OutputReservation(records[id], darwin);
    var after := Put(output, id, bytes);
    forall k ensures Get(after, k) == if k in done + {id} then OutputReservation(records[k], darwin) else 0 {
      assert Get(output, k) == if k in done then OutputReservation(records[k], darwin) else 0;
      if k == id { assert Get(after, k) == bytes; } else { assert k in after <==> k in output; }
    }
  }

  lemma RebuiltAll(s: Slots, records: map<string, Record>, darwin: bool)
    requires Rebuilt(s, records, records.Keys, darwin)
    ensures s.recordOwner == map id | id in records :: records[id].owner
    ensures s.slotOwner == map id | id in records && OccupiesSlot(records[id], darwin) :: records[id].owner
    ensures forall id ::
            Get(s.outputBySession, id) == if id in records then OutputReservation(records[id], darwin) else 0
  {
    hide OccupiesSlot, OutputReservation;
  }

  lemma NothingHeld(limits: Limits)
    ensures SlotsOk(NoSlots) && SlotCaps(limits, NoSlots)
  {
    NoAmounts<string>();
    hide Grouped, Sum;
  }

  lemma NothingOutstanding(limits: Limits)
    ensures WaitsOk(limits, Waits(map[], map[], {}, 0), map[]) && InputOk(limits, Queued(map[], map[], 0), map[])
  {
    NoAmounts<nat>();
    hide Grouped, Sum;
    assert BytesOf(map[]) == map[] && SessionOfInput(map[]) == map[] && OwnerOfInput(map[]) == map[];
  }

  lemma NoAmounts<K>()
    ensures Grouped<K>(map[], map[], map[]) && Sum<K>(map[]) == 0
  {
    assert forall g :: InGroup<K>(map[], map[], g) == map[];
  }

  lemma OutputWithin(s: Slots, id: string)
    requires SlotsOk(s)
    ensures id in s.recordOwner ==> Get(s.outputBySession, id) <= Get(s.outputByOwner, s.recordOwner[id])
  {
    if id in s.recordOwner { WithinGroup(s.outputByOwner, s.outputBySession, s.recordOwner, id); }
  }

  lemma ReservedOk(s: Slots, id: string, owner: string, bytes: nat)
    requires SlotsOk(s) && (id in s.recordOwner ==> s.recordOwner[id] == owner)
    ensures SlotsOk(Reserved(s, id, owner, bytes))
    ensures Get(s.outputBySession, id) <= Get(s.outputByOwner, owner)
  {
    var t := WithRecord(s, id, owner);
    WithRecordOk(s, id, owner);
    WithinGroup(t.outputByOwner, t.outputBySession, t.recordOwner, id);
    hide SlotsOk;
    WithActiveOk(t, id, owner);
    WithOutputOk(WithActive(t, id, owner), id, owner, bytes);
  }

  /** A reservation that the limits admit. */
  lemma TakeOk(limits: Limits, s: Slots, id: string, owner: string, bytes: nat)
    requires SlotsOk(s) && (id in s.recordOwner ==> s.recordOwner[id] == owner)
    requires |s.slotOwner| < limits.maxActiveSessions && |s.recordOwner| < limits.maxRecords
    requires |Members(s.recordsByOwner, owner)| < limits.maxRecordsPerOwner
    requires Get(s.outputByOwner, owner) + bytes <= limits.maxOutputPerOwner &&
             s.outputTotal + bytes <= limits.maxOutput
    ensures SlotsOk(Reserved(s, id, owner, bytes)) && Get(s.outputBySession, id) <= Get(s.outputByOwner, owner)
    ensures SlotCaps(limits, s) ==> SlotCaps(limits, Reserved(s, id, owner, bytes))
  {
    hide SlotsOk, SlotCaps, Reserved, Members, Get;
    ReservedOk(s, id, owner, bytes);
    if SlotCaps(limits, s) { ReserveKeepsCaps(limits, s, id, owner, bytes); }
  }

  lemma Commute(s: Slots, id: string, owner: string)
    ensures WithRecord(WithActive(s, id, owner), id, owner) == WithActive(WithRecord(s, id, owner), id, owner)
    ensures WithRecord(WithActive(s, id, owner), id, owner).outputBySession == s.outputBySession
    ensures WithRecord(WithActive(s, id, owner), id, owner).outputByOwner == s.outputByOwner
  {
  }
}
