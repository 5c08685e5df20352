/** The approval ledger: requests are claimed under a lease, decided with the claim token, and
consumed once; a session approval leaves a grant that matching requests reuse.

The ledger is on disk and the claim tokens are in memory. A call that refuses writes nothing, but
the tokens it deleted stay deleted; a write that throws may have taken effect all the same. A claim
stores its token, and a decision deletes its token, in a step of its own after the write has
returned. Times are milliseconds. The log is history: nothing in the server reads it. */
module Approvals {
  import opened Options

  type Id = nat
  type Token = nat

  const CLAIM_LEASE: int := 5000
  const MIN_UI_LEASE_SECONDS: int := 2
  const MAX_UI_LEASE_SECONDS: int := 5
  const MAX_EXPIRY_SECONDS: int := 3600
  const SESSION_GRANT: int := 24 * 60 * 60 * 1000

  datatype Owner = Owner(parentSession: string, projectDirectory: string)
  datatype Intent = Intent(command: string, reason: Option<string>, capability: string, workdir: string)

  /** The SHA-256 digest of an intent, taken to be injective. */
  datatype Digest = Digest(of: Intent)

  datatype Status =
    | Pending | Claimed | NativeFallback | ApprovedOnce | ApprovedSession | Rejected | Cancelled | Expired | Consumed

  datatype Decision = ApproveOnce | ApproveSession | Reject

  function StatusOf(decision: Decision): Status {
    match decision
    case ApproveOnce => ApprovedOnce
    case ApproveSession => ApprovedSession
    case Reject => Rejected
  }

  /** What is fixed when a request is made. */
  datatype Terms = Terms(owner: Owner, digest: Digest, capability: string, workdir: string)

  datatype Request = Request(terms: Terms, expiresAt: int, status: Status, uiEligible: bool,
                             uiExpiresAt: Option<int>, claimExpiresAt: Option<int>)
  datatype Grant = Grant(terms: Terms, expiresAt: int)

  datatype Event =
    | Asked(id: Id, terms: Terms, expiresAt: int)
    | Claim(id: Id, token: Token, lease: int)
    | Decided(id: Id, token: Token, decision: Decision, at: int)
    | NativelyApproved(id: Id, at: int)
    | Withdrawn(id: Id)
    | Spent(id: Id, terms: Terms, at: int)
    | Issued(grant: Id, request: Id, terms: Terms, expiresAt: int)
    | Revoked(grant: Id)
    | Reused(terms: Terms, at: int)

  datatype State = State(
    requests: map<Id, Request>,
    grants: map<Id, Grant>,
    tokens: map<Id, Token>,
    stores: set<(Id, Token)>,  // claims whose token is still to be stored
    drops: set<Id>,            // decisions whose token is still to be deleted
    clock: int,
    log: seq<Event>)

  const Empty := State(map[], map[], map[], {}, {}, 0, [])

  // ----- Operations -----

  datatype Op =
    | Create(owner: Owner, id: Id, intent: Intent, expirySeconds: int, uiLease: Option<int>)
    | Prepare(owner: Owner, id: Id, intent: Intent, expirySeconds: int, uiLease: Option<int>)
    | ClaimRequest(owner: Owner, id: Id, token: Token)
    | Decide(owner: Owner, id: Id, token: Token, decision: Decision, grant: Id)
    | Consume(owner: Owner, id: Id, intent: Intent)
    | NativeApprove(owner: Owner, id: Id)
    | RevokeGrant(owner: Owner, grant: Id)
    | Cancel(owner: Owner, id: Id)
    | Cleanup(owner: Owner)
    | ReadStatus(owner: Owner, id: Id)
    | ListRequests
    | ListGrants

  datatype Reply = Refused | Answer(status: Status) | Claimant(token: Token) | Listing

  /** What an operation makes of the ledger it read. */
  datatype Edit = Edit(requests: map<Id, Request>, grants: map<Id, Grant>, dropped: set<Id>, events: seq<Event>,
                       reply: Reply)

  function TermsOf(owner: Owner, intent: Intent): Terms {
    Terms(owner, Digest(intent), intent.capability, intent.workdir)
  }

  predicate ValidAsk(expirySeconds: int, uiLease: Option<int>) {
    && 0 < expirySeconds <= MAX_EXPIRY_SECONDS
    && (uiLease.Some? ==> MIN_UI_LEASE_SECONDS <= uiLease.value <= MAX_UI_LEASE_SECONDS)
  }

  function NewRequest(terms: Terms, now: int, expirySeconds: int, uiLease: Option<int>): Request {
    Request(terms, now + expirySeconds * 1000, Pending, uiLease.Some?,
            if uiLease.Some? then Some(now + uiLease.value * 1000) else None, None)
  }

  predicate Open(status: Status) {
    status.Pending? || status.Claimed? || status.NativeFallback? || status.ApprovedOnce?
  }

  /** A missing time compares false both ways. */
  predicate Past(time: Option<int>, now: int) {
    time.Some? && time.value <= now
  }

  predicate Future(time: Option<int>, now: int) {
    time.Some? && time.value > now
  }

  /** `refreshApproval`. */
  function Refresh(r: Request, now: int): Request {
    if Open(r.status) && r.expiresAt <= now then
      r.(status := Expired, claimExpiresAt := None)
    else if r.status.Pending? && r.uiEligible && Past(r.uiExpiresAt, now) then
      r.(status := NativeFallback, uiEligible := false, uiExpiresAt := None)
    else if r.status.Claimed? && Past(r.claimExpiresAt, now) then
      r.(status := NativeFallback, uiEligible := false, uiExpiresAt := None, claimExpiresAt := None)
    else r
  }

  predicate RefreshDropsToken(r: Request, now: int) {
    (Open(r.status) && r.expiresAt <= now) || (r.status.Claimed? && Past(r.claimExpiresAt, now))
  }

  function Dropped(r: Request, id: Id, now: int): set<Id> {
    if RefreshDropsToken(r, now) then {id} else {}
  }

  predicate Owned(requests: map<Id, Request>, owner: Owner, id: Id) {
    id in requests && requests[id].terms.owner == owner
  }

  function LiveGrants(grants: map<Id, Grant>, now: int): map<Id, Grant> {
    map g | g in grants && grants[g].expiresAt > now :: grants[g]
  }

  /** Some live grant has the same owner, digest, capability and directory. */
  predicate Granted(grants: map<Id, Grant>, terms: Terms, now: int) {
    exists g | g in grants :: grants[g].terms == terms && grants[g].expiresAt > now
  }

  function Refusal(s: State, dropped: set<Id>): Edit {
    Edit(s.requests, s.grants, dropped, [], Refused)
  }

  function CreateEdit(s: State, id: Id, terms: Terms, now: int, expirySeconds: int, uiLease: Option<int>): Edit {
    var r := NewRequest(terms, now, expirySeconds, uiLease);
    Edit(s.requests[id := r], s.grants, {}, [Asked(id, terms, r.expiresAt)], Answer(Pending))
  }

  function PrepareEdit(s: State, id: Id, terms: Terms, now: int, expirySeconds: int, uiLease: Option<int>): Edit {
    var live := LiveGrants(s.grants, now);
    if Granted(live, terms, now) then
      Edit(s.requests, live, {}, [Reused(terms, now)], Answer(ApprovedSession))
    else
      CreateEdit(s, id, terms, now, expirySeconds, uiLease).(grants := live)
  }

  function ClaimEdit(s: State, id: Id, r: Request, dropped: set<Id>, token: Token, later: int): Edit {
    if r.status.Pending? && r.uiEligible && Future(r.uiExpiresAt, later) then
      Edit(s.requests[id := r.(status := Claimed, claimExpiresAt := Some(later + CLAIM_LEASE))], s.grants, dropped,
           [Claim(id, token, later + CLAIM_LEASE)], Claimant(token))
    else Edit(s.requests[id := r], s.grants, dropped, [], Answer(r.status))
  }

  function DecideEdit(s: State, id: Id, r: Request, dropped: set<Id>, token: Token, decision: Decision, g: Id,
                      now: int, later: int): Edit {
    if id !in s.tokens - dropped || s.tokens[id] != token then Refusal(s, dropped)
    else if !r.status.Claimed? then Edit(s.requests[id := r], s.grants, dropped, [], Answer(r.status))
    else
      var decided := Decided(id, token, decision, now);
      match decision
      case ApproveOnce =>
        Edit(s.requests[id := r.(status := ApprovedOnce, claimExpiresAt := None)], s.grants, dropped, [decided],
             Answer(ApprovedOnce))
      case Reject =>
        Edit(s.requests[id := r.(status := Rejected, claimExpiresAt := None)], s.grants, dropped, [decided],
             Answer(Rejected))
      case ApproveSession =>
        var expiry := later + SESSION_GRANT;
        Edit(s.requests[id := r.(status := ApprovedSession, claimExpiresAt := None)],
             s.grants[g := Grant(r.terms, expiry)], dropped,
             [decided, Issued(g, id, r.terms, expiry)], Answer(ApprovedSession))
  }

  function ConsumeEdit(s: State, id: Id, r: Request, dropped: set<Id>, intent: Intent, now: int, later: int): Edit {
    var requests := s.requests[id := r];
    if r.terms.digest != Digest(intent) then Refusal(s, dropped)
    else match r.status
      case Rejected | Cancelled | Expired => Edit(requests, s.grants, dropped, [], Answer(r.status))
      case ApprovedOnce =>
        Edit(s.requests[id := r.(status := Consumed)], s.grants, dropped, [Spent(id, r.terms, now)], Answer(Consumed))
      case Consumed => Refusal(s, dropped)
      case _ =>
        if Granted(s.grants, r.terms, later) then
          Edit(requests, s.grants, dropped, [Reused(r.terms, later)], Answer(ApprovedSession))
        else Edit(requests, s.grants, dropped, [], Answer(Rejected))
  }

  function NativeEdit(s: State, id: Id, r: Request, dropped: set<Id>, now: int): Edit {
    if r.status.NativeFallback? || (r.status.Pending? && !r.uiEligible) then
      Edit(s.requests[id := r.(status := ApprovedOnce)], s.grants, dropped, [NativelyApproved(id, now)],
           Answer(ApprovedOnce))
    else Edit(s.requests[id := r], s.grants, dropped, [], Answer(r.status))
  }

  function CancelEdit(s: State, id: Id, r: Request, dropped: set<Id>): Edit {
    if Open(r.status) then
      Edit(s.requests[id := r.(status := Cancelled, claimExpiresAt := None)], s.grants, dropped + {id},
           [Withdrawn(id)], Answer(Cancelled))
    else Edit(s.requests[id := r], s.grants, dropped, [], Answer(r.status))
  }

  /** `now` is the clock while the request is refreshed, `later` the clock afterwards. */
  function Perform(s: State, op: Op, now: int, later: int): Edit {
    match op
    case Create(owner, id, intent, expirySeconds, uiLease) =>
      if !ValidAsk(expirySeconds, uiLease) then Refusal(s, {})
      else CreateEdit(s, id, TermsOf(owner, intent), now, expirySeconds, uiLease)
    case Prepare(owner, id, intent, expirySeconds, uiLease) =>
      if !ValidAsk(expirySeconds, uiLease) then Refusal(s, {})
      else PrepareEdit(s, id, TermsOf(owner, intent), now, expirySeconds, uiLease)
    case RevokeGrant(owner, g) =>
      if g !in s.grants || s.grants[g].terms.owner != owner then Refusal(s, {})
      else Edit(s.requests, s.grants - {g}, {}, [Revoked(g)], Listing)
    case Cleanup(owner) =>
      Edit(map id | id in s.requests && s.requests[id].terms.owner != owner :: s.requests[id],
           map g | g in s.grants && s.grants[g].terms.owner != owner :: s.grants[g],
           set id | id in s.requests && s.requests[id].terms.owner == owner, [], Listing)
    case ListRequests =>
      Edit(map id | id in s.requests :: Refresh(s.requests[id], now), s.grants,
           set id | id in s.requests && RefreshDropsToken(s.requests[id], now), [], Listing)
    case ListGrants =>
      Edit(s.requests, LiveGrants(s.grants, now), {}, [], Listing)
    case _ =>
      if !Owned(s.requests, op.owner, op.id) then Refusal(s, {})
      else
        var r := Refresh(s.requests[op.id], now);
        var dropped := Dropped(s.requests[op.id], op.id, now);
        match op
        case ClaimRequest(_, id, token) => ClaimEdit(s, id, r, dropped, token, later)
        case Decide(_, id, token, decision, g) => DecideEdit(s, id, r, dropped, token, decision, g, now, later)
        case Consume(_, id, intent) => ConsumeEdit(s, id, r, dropped, intent, now, later)
        case NativeApprove(_, id) => NativeEdit(s, id, r, dropped, now)
        case Cancel(_, id) => CancelEdit(s, id, r, dropped)
        case _ => Edit(s.requests[op.id := r], s.grants, dropped, [], Answer(r.status))
  }

  // ----- Steps -----

  /** How the write of the ledger ends: it can throw before or after the new file is in place. */
  datatype Saving = Saved | NotSaved | SavedButThrew

  datatype Step =
    | Call(op: Op, now: int, later: int, saving: Saving)
    | StoreToken(id: Id, token: Token)
    | DropToken(id: Id)
    | Restart

  ghost predicate RequestUnused(log: seq<Event>, id: Id) {
    forall e | e in log && (e.Asked? || e.Claim? || e.Decided? || e.NativelyApproved? || e.Withdrawn? || e.Spent?) ::
        e.id != id
  }

  ghost predicate GrantUnused(log: seq<Event>, g: Id) {
    forall e | e in log && (e.Issued? || e.Revoked?) :: e.grant != g
  }

  ghost predicate TokenUnused(log: seq<Event>, token: Token) {
    forall e | e in log && e.Claim? :: e.token != token
  }

  /** Fresh identifiers are random and never repeat; the clock does not go back. */
  ghost predicate Enabled(s: State, step: Step) {
    match step
    case Call(op, now, later, _) =>
      && s.clock <= now <= later
      && (op.Create? || op.Prepare? ==> op.id !in s.requests && RequestUnused(s.log, op.id))
      && (op.ClaimRequest? ==> TokenUnused(s.log, op.token))
      && (op.Decide? ==> op.grant !in s.grants && GrantUnused(s.log, op.grant))
    case StoreToken(id, token) => (id, token) in s.stores
    case DropToken(id) => id in s.drops
    case Restart => true
  }

  /** The end of a call: what is written, and what the caller still has to do. */
  function Commit(s: State, op: Op, e: Edit, later: int, saving: Saving): State {
    var kept := s.(tokens := s.tokens - e.dropped, clock := later);
    if e.reply.Refused? || saving.NotSaved? then kept
    else
      var ledger := kept.(requests := e.requests, grants := e.grants, log := s.log + e.events);
      if saving.SavedButThrew? then ledger
      else ledger.(
        stores := if op.ClaimRequest? && e.reply.Claimant? then s.stores + {(op.id, e.reply.token)} else s.stores,
        drops := if op.Decide? && e.reply.Answer? && !e.reply.status.Claimed? then s.drops + {op.id} else s.drops)
  }

  function Apply(s: State, step: Step): State {
    match step
    case Call(op, now, later, saving) => Commit(s, op, Perform(s, op, now, later), later, saving)
    case StoreToken(id, token) => s.(stores := s.stores - {(id, token)}, tokens := s.tokens[id := token])
    case DropToken(id) => s.(drops := s.drops - {id}, tokens := s.tokens - {id})
    case Restart => s.(stores := {}, drops := {}, tokens := map[])
  }

  /** What the caller gets: an answer only if the write returned. */
  function ReplyOf(s: State, op: Op, now: int, later: int, saving: Saving): Reply {
    if saving.Saved? then Perform(s, op, now, later).reply else Refused
  }

  ghost predicate IsRun(run: seq<State>) {
    && run != [] && run[0] == Empty
    && forall i | 0 <= i < |run| - 1 :: Next(run[i], run[i + 1])
  }

  ghost predicate Next(s: State, t: State) {
    exists step :: Enabled(s, step) && t == Apply(s, step)
  }
}
