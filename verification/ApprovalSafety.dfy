/** Every approval that the ledger grants is explained by what happened before it. */
module ApprovalSafety {
  import opened Options
  import opened Approvals

  // ----- What the history must look like -----

  ghost predicate NoClaim(log: seq<Event>, id: Id) {
    forall e | e in log && e.Claim? :: e.id != id
  }

  ghost predicate NoVerdict(log: seq<Event>, id: Id) {
    forall e | e in log && (e.Decided? || e.NativelyApproved?) :: e.id != id
  }

  ghost predicate NotSpent(log: seq<Event>, id: Id) {
    forall e | e in log && e.Spent? :: e.id != id
  }

  ghost predicate Approved(log: seq<Event>, id: Id) {
    exists e :: e in log && (e.NativelyApproved? || (e.Decided? && e.decision.ApproveOnce?)) && e.id == id
  }

  ghost predicate AskedWith(log: seq<Event>, id: Id, terms: Terms, before: int) {
    exists expiry :: Asked(id, terms, expiry) in log && before < expiry
  }

  ghost predicate ClaimedWith(log: seq<Event>, id: Id, token: Token) {
    exists lease :: Claim(id, token, lease) in log
  }

  /** The capability and the directory are those of the digested intent. */
  predicate Coherent(terms: Terms) {
    terms == TermsOf(terms.owner, terms.digest.of)
  }

  /** Event `e` may follow the events `h`. */
  ghost predicate Justified(h: seq<Event>, e: Event) {
    match e
    case Asked(id, terms, _) => RequestUnused(h, id) && Coherent(terms)
    case Claim(id, token, _) => NoClaim(h, id) && TokenUnused(h, token) && NoVerdict(h, id)
    case Decided(id, token, _, at) => NoVerdict(h, id) && exists lease :: Claim(id, token, lease) in h && at < lease
    case NativelyApproved(id, _) => NoVerdict(h, id)
    case Withdrawn(id) => NotSpent(h, id)
    case Spent(id, terms, at) => NotSpent(h, id) && Withdrawn(id) !in h && Approved(h, id) &&
        AskedWith(h, id, terms, at)
    case Issued(g, id, terms, _) =>
      && GrantUnused(h, g)
      && (exists token, at :: Decided(id, token, ApproveSession, at) in h)
      && (exists expiry :: Asked(id, terms, expiry) in h)
    case Revoked(_) => true
    case Reused(terms, at) => exists g, id, expiry ::
        Issued(g, id, terms, expiry) in h && at < expiry && Revoked(g) !in h
  }

  ghost predicate Explained(log: seq<Event>) {
    log == [] || (Explained(log[..|log| - 1]) && Justified(log[..|log| - 1], log[|log| - 1]))
  }

  lemma ExplainedGrows(log: seq<Event>, e: Event)
    requires Explained(log) && Justified(log, e)
    ensures Explained(log + [e])
  {
    assert (log + [e])[..|log|] == log;
  }

  /** Every event is justified by those before it. */
  lemma {:induction false} ExplainedAt(log: seq<Event>, k: nat)
    requires Explained(log) && k < |log|
    ensures Justified(log[..k], log[k])
  {
    var n := |log| - 1;
    if k < n {
      ExplainedAt(log[..n], k);
      assert log[..n][..k] == log[..k];
    }
  }

  predicate Once(a: Event, b: Event) {
    || (a.Claim? && b.Claim? && a.id == b.id)
    || (a.Spent? && b.Spent? && a.id == b.id)
    || ((a.Decided? || a.NativelyApproved?) && (b.Decided? || b.NativelyApproved?) && a.id == b.id)
    || (a.Claim? && b.Claim? && a.token == b.token)
    || (a.Issued? && b.Issued? && a.grant == b.grant)
  }

  /** A request is claimed, decided and consumed at most once, and a token or a grant belongs to
      one claim or one decision. */
  lemma AtMostOnce(log: seq<Event>, i: nat, j: nat)
    requires Explained(log) && i < j < |log|
    ensures !Once(log[i], log[j])
  {
    ExplainedAt(log, j);
    assert log[..j][i] == log[i];
  }

  // ----- What ties the ledger to the history -----

  ghost predicate RequestOk(log: seq<Event>, id: Id, r: Request) {
    && Asked(id, r.terms, r.expiresAt) in log && Coherent(r.terms)
    && (r.status.Pending? ==> NoClaim(log, id))
    && (r.status.Claimed? ==> r.claimExpiresAt.Some? && exists token :: Claim(id, token, r.claimExpiresAt.value) in log)
    && (r.status.Pending? || r.status.Claimed? || r.status.NativeFallback? ==> NoVerdict(log, id))
    && (r.status.ApprovedOnce? ==> Approved(log, id))
    && (!r.status.Consumed? ==> NotSpent(log, id))
    && (Withdrawn(id) in log ==> r.status.Cancelled?)
  }

  ghost predicate GrantOk(log: seq<Event>, g: Id, grant: Grant) {
    Revoked(g) !in log && exists id :: Issued(g, id, grant.terms, grant.expiresAt) in log
  }

  ghost predicate LedgerOk(log: seq<Event>, requests: map<Id, Request>, grants: map<Id, Grant>) {
    && Explained(log)
    && (forall id | id in requests :: RequestOk(log, id, requests[id]))
    && (forall g | g in grants :: GrantOk(log, g, grants[g]))
  }

  ghost predicate TokensOk(log: seq<Event>, tokens: map<Id, Token>, stores: set<(Id, Token)>) {
    && (forall id | id in tokens :: ClaimedWith(log, id, tokens[id]))
    && (forall pair | pair in stores :: ClaimedWith(log, pair.0, pair.1))
  }

  ghost predicate Inv(s: State) {
    LedgerOk(s.log, s.requests, s.grants) && TokensOk(s.log, s.tokens, s.stores)
  }

  // ----- Frames -----

  predicate AboutRequest(e: Event, id: Id) {
    (e.Asked? || e.Claim? || e.Decided? || e.NativelyApproved? || e.Withdrawn? || e.Spent?) && e.id == id
  }

  lemma RequestFrame(log: seq<Event>, id: Id, r: Request, e: Event)
    requires RequestOk(log, id, r) && !AboutRequest(e, id)
    ensures RequestOk(log + [e], id, r)
  {
    if r.status.Claimed? {
      var token :| Claim(id, token, r.claimExpiresAt.value) in log;
      assert Claim(id, token, r.claimExpiresAt.value) in log + [e];
    }
    if r.status.ApprovedOnce? { ApprovedGrows(log, id, e); }
  }

  lemma ApprovedGrows(log: seq<Event>, id: Id, e: Event)
    requires Approved(log, id)
    ensures Approved(log + [e], id)
  {
    var a :| a in log && (a.NativelyApproved? || (a.Decided? && a.decision.ApproveOnce?)) && a.id == id;
    assert a in log + [e];
  }

  lemma GrantFrame(log: seq<Event>, g: Id, grant: Grant, e: Event)
    requires GrantOk(log, g, grant) && e != Revoked(g)
    ensures GrantOk(log + [e], g, grant)
  {
    var id :| Issued(g, id, grant.terms, grant.expiresAt) in log;
    assert Issued(g, id, grant.terms, grant.expiresAt) in log + [e];
  }

  lemma ClaimedFrame(log: seq<Event>, id: Id, token: Token, e: Event)
    requires ClaimedWith(log, id, token)
    ensures ClaimedWith(log + [e], id, token)
  {
    var lease :| Claim(id, token, lease) in log;
    assert Claim(id, token, lease) in log + [e];
  }

  lemma TokensFrame(log: seq<Event>, tokens: map<Id, Token>, stores: set<(Id, Token)>, e: Event)
    requires TokensOk(log, tokens, stores)
    ensures TokensOk(log + [e], tokens, stores)
  {
    hide ClaimedWith;
    forall id | id in tokens ensures ClaimedWith(log + [e], id, tokens[id]) {
      ClaimedFrame(log, id, tokens[id], e);
    }
    forall pair | pair in stores ensures ClaimedWith(log + [e], pair.0, pair.1) {
      ClaimedFrame(log, pair.0, pair.1, e);
    }
  }

  /** One event about one request. */
  lemma RequestMoves(log: seq<Event>, requests: map<Id, Request>, grants: map<Id, Grant>, id: Id, r: Request, e: Event)
    requires LedgerOk(log, requests, grants)
    requires forall other | other != id :: !AboutRequest(e, other)
    requires !e.Revoked? && Justified(log, e) && RequestOk(log + [e], id, r)
    ensures LedgerOk(log + [e], requests[id := r], grants)
  {
    hide RequestOk, GrantOk, Explained, Justified, AboutRequest;
    ExplainedGrows(log, e);
    forall other | other in requests && other != id ensures RequestOk(log + [e], other, requests[other]) {
      RequestFrame(log, other, requests[other], e);
    }
    forall g | g in grants ensures GrantOk(log + [e], g, grants[g]) {
      GrantFrame(log, g, grants[g], e);
    }
  }

  /** One event about one grant; a revoked grant goes away. */
  lemma GrantMoves(log: seq<Event>, requests: map<Id, Request>, grants: map<Id, Grant>, e: Event)
    requires LedgerOk(log, requests, grants) && Justified(log, e)
    requires e.Issued? || e.Reused? || (e.Revoked? && e.grant !in grants)
    ensures LedgerOk(log + [e], requests, grants)
  {
    hide RequestOk, GrantOk, Explained, Justified;
    ExplainedGrows(log, e);
    forall id | id in requests ensures RequestOk(log + [e], id, requests[id]) {
      RequestFrame(log, id, requests[id], e);
    }
    forall g | g in grants ensures GrantOk(log + [e], g, grants[g]) {
      GrantFrame(log, g, grants[g], e);
    }
  }

  lemma RefreshOk(log: seq<Event>, id: Id, r: Request, now: int)
    requires RequestOk(log, id, r)
    ensures RequestOk(log, id, Refresh(r, now))
    ensures Refresh(r, now).terms == r.terms && Refresh(r, now).expiresAt == r.expiresAt
    ensures Open(Refresh(r, now).status) ==> now < r.expiresAt
    ensures Refresh(r, now).status.Claimed? ==>
            Refresh(r, now) == r && r.claimExpiresAt.Some? && now < r.claimExpiresAt.value
  {
  }

  // ----- One lemma per operation, on a request that is already refreshed -----

  lemma AskOk(s: State, id: Id, terms: Terms, now: int, expirySeconds: int, uiLease: Option<int>)
    requires Inv(s) && id !in s.requests && RequestUnused(s.log, id) && Coherent(terms)
    ensures var e := CreateEdit(s, id, terms, now, expirySeconds, uiLease);
            LedgerOk(s.log + e.events, e.requests, e.grants) && |e.events| == 1
  {
    var r := NewRequest(terms, now, expirySeconds, uiLease);
    var e := Asked(id, terms, r.expiresAt);
    assert RequestOk(s.log + [e], id, r);
    hide Explained, GrantOk;
    RequestMoves(s.log, s.requests, s.grants, id, r, e);
  }

  lemma ClaimOk(s: State, id: Id, r: Request, token: Token, later: int)
    requires Inv(s) && id in s.requests && RequestOk(s.log, id, r) && TokenUnused(s.log, token) && r.status.Pending?
    ensures var lease := later + CLAIM_LEASE;
            var after := r.(status := Claimed, claimExpiresAt := Some(lease));
            LedgerOk(s.log + [Claim(id, token, lease)], s.requests[id := after], s.grants)
  {
    var lease := later + CLAIM_LEASE;
    var after := r.(status := Claimed, claimExpiresAt := Some(lease));
    var e := Claim(id, token, lease);
    assert RequestOk(s.log + [e], id, after) by { assert Claim(id, token, lease) in s.log + [e]; }
    hide Explained, GrantOk, RequestOk;
    RequestMoves(s.log, s.requests, s.grants, id, after, e);
  }

  /** The token in the table is the one of the request's only claim, so the lease still runs. */
  lemma DecisionIsJustified(s: State, id: Id, r: Request, token: Token, decision: Decision, now: int)
    requires Inv(s) && RequestOk(s.log, id, r) && r.status.Claimed? && now < r.claimExpiresAt.value
    requires id in s.tokens && s.tokens[id] == token
    ensures Justified(s.log, Decided(id, token, decision, now))
  {
    var lease :| Claim(id, token, lease) in s.log;
    var other :| Claim(id, other, r.claimExpiresAt.value) in s.log;
    var i :| 0 <= i < |s.log| && s.log[i] == Claim(id, token, lease);
    var j :| 0 <= j < |s.log| && s.log[j] == Claim(id, other, r.claimExpiresAt.value);
    if i < j { AtMostOnce(s.log, i, j); }
    if j < i { AtMostOnce(s.log, j, i); }
  }

  lemma DecideOk(s: State, id: Id, r: Request, token: Token, decision: Decision, now: int)
    requires Inv(s) && id in s.requests && RequestOk(s.log, id, r)
    requires r.status.Claimed? && now < r.claimExpiresAt.value
    requires id in s.tokens && s.tokens[id] == token
    ensures var after := r.(status := StatusOf(decision), claimExpiresAt := None);
            LedgerOk(s.log + [Decided(id, token, decision, now)], s.requests[id := after], s.grants)
  {
    var e := Decided(id, token, decision, now);
    var after := r.(status := StatusOf(decision), claimExpiresAt := None);
    assert RequestOk(s.log + [e], id, after) by { assert e in s.log + [e]; }
    DecisionIsJustified(s, id, r, token, decision, now);
    hide Explained, GrantOk, RequestOk, Justified;
    RequestMoves(s.log, s.requests, s.grants, id, after, e);
  }

  lemma IssueOk(log: seq<Event>, requests: map<Id, Request>, grants: map<Id, Grant>, id: Id, g: Id, token: Token,
                at: int, expiry: int)
    requires LedgerOk(log, requests, grants) && id in requests && GrantUnused(log, g) && g !in grants
    requires Decided(id, token, ApproveSession, at) in log
    ensures var terms := requests[id].terms;
            LedgerOk(log + [Issued(g, id, terms, expiry)], requests, grants[g := Grant(terms, expiry)])
  {
    var terms := requests[id].terms;
    var e := Issued(g, id, terms, expiry);
    assert Asked(id, terms, requests[id].expiresAt) in log;
    assert Justified(log, e);
    assert GrantOk(log + [e], g, Grant(terms, expiry)) by { assert e in log + [e]; }
    hide Explained, GrantOk, RequestOk, Justified;
    GrantMoves(log, requests, grants, e);
  }

  lemma SpendOk(s: State, id: Id, r: Request, now: int)
    requires Inv(s) && id in s.requests && RequestOk(s.log, id, r) && r.status.ApprovedOnce? && now < r.expiresAt
    ensures LedgerOk(s.log + [Spent(id, r.terms, now)], s.requests[id := r.(status := Consumed)], s.grants)
  {
    var e, after := Spent(id, r.terms, now), r.(status := Consumed);
    assert Justified(s.log, e);
    assert RequestOk(s.log + [e], id, after);
    hide Explained, GrantOk, RequestOk, Justified;
    RequestMoves(s.log, s.requests, s.grants, id, after, e);
  }

  lemma ReuseOk(log: seq<Event>, requests: map<Id, Request>, grants: map<Id, Grant>, terms: Terms, at: int)
    requires LedgerOk(log, requests, grants) && Granted(grants, terms, at)
    ensures LedgerOk(log + [Reused(terms, at)], requests, grants)
  {
    var g :| g in grants && grants[g].terms == terms && grants[g].expiresAt > at;
    assert GrantOk(log, g, grants[g]);
    assert Justified(log, Reused(terms, at));
    hide Explained, GrantOk, RequestOk, Justified;
    GrantMoves(log, requests, grants, Reused(terms, at));
  }

  lemma NativeOk(s: State, id: Id, r: Request, now: int)
    requires Inv(s) && id in s.requests && RequestOk(s.log, id, r) && (r.status.NativeFallback? || r.status.Pending?)
    ensures LedgerOk(s.log + [NativelyApproved(id, now)], s.requests[id := r.(status := ApprovedOnce)], s.grants)
  {
    var e, after := NativelyApproved(id, now), r.(status := ApprovedOnce);
    assert RequestOk(s.log + [e], id, after) by { assert e in s.log + [e]; }
    hide Explained, GrantOk, RequestOk;
    RequestMoves(s.log, s.requests, s.grants, id, after, e);
  }

  lemma CancelOk(s: State, id: Id, r: Request)
    requires Inv(s) && id in s.requests && RequestOk(s.log, id, r) && Open(r.status)
    ensures LedgerOk(s.log + [Withdrawn(id)], s.requests[id := r.(status := Cancelled, claimExpiresAt := None)],
                     s.grants)
  {
    var e, after := Withdrawn(id), r.(status := Cancelled, claimExpiresAt := None);
    assert RequestOk(s.log + [e], id, after);
    hide Explained, GrantOk, RequestOk;
    RequestMoves(s.log, s.requests, s.grants, id, after, e);
  }

  lemma SetOk(log: seq<Event>, requests: map<Id, Request>, grants: map<Id, Grant>, id: Id, r: Request)
    requires LedgerOk(log, requests, grants) && RequestOk(log, id, r)
    ensures LedgerOk(log + [], requests[id := r], grants)
  {
    assert log + [] == log;
  }

  lemma FewerOk(log: seq<Event>, requests: map<Id, Request>, grants: map<Id, Grant>, r: map<Id, Request>,
                g: map<Id, Grant>)
    requires LedgerOk(log, requests, grants)
    requires forall id | id in r ::
             id in requests && (r[id] == requests[id] || exists now :: r[id] == Refresh(requests[id], now))
    requires forall k | k in g :: k in grants && g[k] == grants[k]
    ensures LedgerOk(log, r, g)
  {
    hide Explained, GrantOk, RequestOk, Refresh;
    forall id | id in r ensures RequestOk(log, id, r[id]) {
      if r[id] != requests[id] {
        var now :| r[id] == Refresh(requests[id], now);
        RefreshOk(log, id, requests[id], now);
      }
    }
  }

  // ----- Whole operations -----

  ghost predicate EditOk(s: State, e: Edit) {
    e.reply.Refused? || LedgerOk(s.log + e.events, e.requests, e.grants)
  }

  lemma CreateKeeps(s: State, owner: Owner, id: Id, intent: Intent, expirySeconds: int, uiLease: Option<int>,
                    now: int, later: int)
    requires Inv(s) && id !in s.requests && RequestUnused(s.log, id)
    ensures EditOk(s, Perform(s, Create(owner, id, intent, expirySeconds, uiLease), now, later))
  {
    hide LedgerOk, TokensOk, RequestUnused, CreateEdit;
    AskOk(s, id, TermsOf(owner, intent), now, expirySeconds, uiLease);
  }

  lemma PrepareKeeps(s: State, owner: Owner, id: Id, intent: Intent, expirySeconds: int, uiLease: Option<int>,
                     now: int, later: int)
    requires Inv(s) && id !in s.requests && RequestUnused(s.log, id)
    ensures EditOk(s, Perform(s, Prepare(owner, id, intent, expirySeconds, uiLease), now, later))
  {
    var live, terms := LiveGrants(s.grants, now), TermsOf(owner, intent);
    FewerOk(s.log, s.requests, s.grants, s.requests, live);
    hide LedgerOk, TokensOk, RequestUnused;
    if Granted(live, terms, now) { ReuseOk(s.log, s.requests, live, terms, now); }
    AskOk(s.(grants := live), id, terms, now, expirySeconds, uiLease);
  }

  lemma ClaimKeeps(s: State, owner: Owner, id: Id, token: Token, now: int, later: int)
    requires Inv(s) && TokenUnused(s.log, token)
    ensures EditOk(s, Perform(s, ClaimRequest(owner, id, token), now, later))
  {
    if Owned(s.requests, owner, id) {
      var r := Refresh(s.requests[id], now);
      RefreshOk(s.log, id, s.requests[id], now);
      hide LedgerOk, TokensOk, RequestOk, Refresh, TokenUnused, RefreshDropsToken;
      if r.status.Pending? { ClaimOk(s, id, r, token, later); }
      SetOk(s.log, s.requests, s.grants, id, r);
    }
  }

  lemma DecideKeeps(s: State, owner: Owner, id: Id, token: Token, decision: Decision, g: Id, now: int, later: int)
    requires Inv(s) && g !in s.grants && GrantUnused(s.log, g)
    ensures EditOk(s, Perform(s, Decide(owner, id, token, decision, g), now, later))
  {
    if Owned(s.requests, owner, id) {
      var r := Refresh(s.requests[id], now);
      RefreshOk(s.log, id, s.requests[id], now);
      hide LedgerOk, TokensOk, RequestOk, Refresh, GrantUnused, RefreshDropsToken;
      SetOk(s.log, s.requests, s.grants, id, r);
      if r.status.Claimed? && id in s.tokens && s.tokens[id] == token {
        DecideOk(s, id, r, token, decision, now);
        if decision.ApproveSession? {
          SessionOk(s, id, r, token, g, now, later + SESSION_GRANT);
        }
      }
    }
  }

  lemma SessionOk(s: State, id: Id, r: Request, token: Token, g: Id, now: int, expiry: int)
    requires id in s.requests && g !in s.grants && GrantUnused(s.log, g)
    requires LedgerOk(s.log + [Decided(id, token, ApproveSession, now)],
                      s.requests[id := r.(status := ApprovedSession, claimExpiresAt := None)], s.grants)
    ensures LedgerOk(s.log + [Decided(id, token, ApproveSession, now), Issued(g, id, r.terms, expiry)],
                     s.requests[id := r.(status := ApprovedSession, claimExpiresAt := None)],
                         s.grants[g := Grant(r.terms, expiry)])
  {
    var d := Decided(id, token, ApproveSession, now);
    var after := r.(status := ApprovedSession, claimExpiresAt := None);
    assert s.log + [d, Issued(g, id, r.terms, expiry)] == (s.log + [d]) + [Issued(g, id, r.terms, expiry)];
    assert d in s.log + [d] && GrantUnused(s.log + [d], g);
    hide LedgerOk, GrantUnused;
    IssueOk(s.log + [d], s.requests[id := after], s.grants, id, g, token, now, expiry);
  }

  lemma ConsumeKeeps(s: State, owner: Owner, id: Id, intent: Intent, now: int, later: int)
    requires Inv(s)
    ensures EditOk(s, Perform(s, Consume(owner, id, intent), now, later))
  {
    if Owned(s.requests, owner, id) {
      var r := Refresh(s.requests[id], now);
      RefreshOk(s.log, id, s.requests[id], now);
      hide LedgerOk, TokensOk, RequestOk, Refresh, RefreshDropsToken;
      SetOk(s.log, s.requests, s.grants, id, r);
      NothingAdded(s.log);
      if r.status.ApprovedOnce? { SpendOk(s, id, r, now); }
      if Granted(s.grants, r.terms, later) { ReuseOk(s.log, s.requests[id := r], s.grants, r.terms, later); }
    }
  }

  lemma NothingAdded(log: seq<Event>)
    ensures log + [] == log
  {
  }

  lemma NativeKeeps(s: State, owner: Owner, id: Id, now: int, later: int)
    requires Inv(s)
    ensures EditOk(s, Perform(s, NativeApprove(owner, id), now, later))
  {
    if Owned(s.requests, owner, id) {
      var r := Refresh(s.requests[id], now);
      RefreshOk(s.log, id, s.requests[id], now);
      hide LedgerOk, TokensOk, RequestOk, Refresh, RefreshDropsToken;
      SetOk(s.log, s.requests, s.grants, id, r);
      if r.status.NativeFallback? || r.status.Pending? { NativeOk(s, id, r, now); }
    }
  }

  lemma CancelKeeps(s: State, owner: Owner, id: Id, now: int, later: int)
    requires Inv(s)
    ensures EditOk(s, Perform(s, Cancel(owner, id), now, later))
  {
    if Owned(s.requests, owner, id) {
      var r := Refresh(s.requests[id], now);
      RefreshOk(s.log, id, s.requests[id], now);
      hide LedgerOk, TokensOk, RequestOk, Refresh, RefreshDropsToken;
      SetOk(s.log, s.requests, s.grants, id, r);
      if Open(r.status) { CancelOk(s, id, r); }
    }
  }

  lemma StatusKeeps(s: State, owner: Owner, id: Id, now: int, later: int)
    requires Inv(s)
    ensures EditOk(s, Perform(s, ReadStatus(owner, id), now, later))
  {
    if Owned(s.requests, owner, id) {
      RefreshOk(s.log, id, s.requests[id], now);
      hide LedgerOk, TokensOk, RequestOk, Refresh, RefreshDropsToken;
      SetOk(s.log, s.requests, s.grants, id, Refresh(s.requests[id], now));
    }
  }

  lemma RevokeKeeps(s: State, owner: Owner, g: Id, now: int, later: int)
    requires Inv(s)
    ensures EditOk(s, Perform(s, RevokeGrant(owner, g), now, later))
  {
    hide RequestOk, GrantOk, Explained;
    FewerOk(s.log, s.requests, s.grants, s.requests, s.grants - {g});
    hide LedgerOk, TokensOk;
    GrantMoves(s.log, s.requests, s.grants - {g}, Revoked(g));
  }

  lemma CleanupKeeps(s: State, owner: Owner, now: int, later: int)
    requires Inv(s)
    ensures EditOk(s, Perform(s, Cleanup(owner), now, later))
  {
    var e := Perform(s, Cleanup(owner), now, later);
    hide RequestOk, GrantOk, Explained, Refresh;
    NothingAdded(s.log);
    FewerOk(s.log, s.requests, s.grants, e.requests, e.grants);
  }

  lemma ListsKeep(s: State, now: int, later: int)
    requires Inv(s)
    ensures EditOk(s, Perform(s, ListRequests, now, later))
    ensures EditOk(s, Perform(s, ListGrants, now, later))
  {
    hide RequestOk, GrantOk, Explained, Refresh;
    NothingAdded(s.log);
    FewerOk(s.log, s.requests, s.grants, map id | id in s.requests :: Refresh(s.requests[id], now), s.grants);
    FewerOk(s.log, s.requests, s.grants, s.requests, LiveGrants(s.grants, now));
  }

  lemma PerformKeeps(s: State, op: Op, now: int, later: int, saving: Saving)
    requires Inv(s) && Enabled(s, Call(op, now, later, saving))
    ensures EditOk(s, Perform(s, op, now, later))
  {
    hide Inv, Perform, EditOk, RequestUnused, TokenUnused, GrantUnused;
    match op
    case Create(owner, id, intent, expirySeconds, uiLease) => CreateKeeps(s, owner, id, intent, expirySeconds,
                                                                          uiLease, now, later);
    case Prepare(owner, id, intent, expirySeconds, uiLease) => PrepareKeeps(s, owner, id, intent, expirySeconds,
                                                                            uiLease, now, later);
    case ClaimRequest(owner, id, token) => ClaimKeeps(s, owner, id, token, now, later);
    case Decide(owner, id, token, decision, g) => DecideKeeps(s, owner, id, token, decision, g, now, later);
    case Consume(owner, id, intent) => ConsumeKeeps(s, owner, id, intent, now, later);
    case NativeApprove(owner, id) => NativeKeeps(s, owner, id, now, later);
    case RevokeGrant(owner, g) => RevokeKeeps(s, owner, g, now, later);
    case Cancel(owner, id) => CancelKeeps(s, owner, id, now, later);
    case Cleanup(owner) => CleanupKeeps(s, owner, now, later);
    case ReadStatus(owner, id) => StatusKeeps(s, owner, id, now, later);
    case ListRequests => ListsKeep(s, now, later);
    case ListGrants => ListsKeep(s, now, later);
  }

  /** At most two events, and a token is handed out only with its claim. */
  lemma PerformShape(s: State, op: Op, now: int, later: int)
    ensures var e := Perform(s, op, now, later);
            |e.events| <= 2 && (e.reply.Claimant? ==> op.ClaimRequest? && exists lease ::
                                e.events == [Claim(op.id, e.reply.token, lease)])
  {
    hide Refresh, RefreshDropsToken;
    if op.ClaimRequest? && Owned(s.requests, op.owner, op.id) {
      var e := Perform(s, op, now, later);
      assert e.reply.Claimant? ==> e.events == [Claim(op.id, e.reply.token, later + CLAIM_LEASE)];
    }
  }

  lemma {:induction false} TokensGrow(log: seq<Event>, more: seq<Event>, tokens: map<Id, Token>,
                                      stores: set<(Id, Token)>)
    requires TokensOk(log, tokens, stores) && |more| <= 2
    ensures TokensOk(log + more, tokens, stores)
  {
    hide TokensOk;
    if |more| == 0 {
      assert log + more == log;
    } else if |more| == 1 {
      TokensFrame(log, tokens, stores, more[0]);
      assert more == [more[0]];
    } else {
      TokensFrame(log, tokens, stores, more[0]);
      TokensFrame(log + [more[0]], tokens, stores, more[1]);
      assert log + more == log + [more[0]] + [more[1]];
    }
  }

  lemma CallKeepsInv(s: State, op: Op, now: int, later: int, saving: Saving)
    requires Inv(s) && Enabled(s, Call(op, now, later, saving))
    ensures Inv(Apply(s, Call(op, now, later, saving)))
  {
    PerformKeeps(s, op, now, later, saving);
    PerformShape(s, op, now, later);
    hide Perform, LedgerOk, ClaimedWith, Enabled;
    var e := Perform(s, op, now, later);
    var tokens := s.tokens - e.dropped;
    assert TokensOk(s.log, tokens, s.stores);
    TokensGrow(s.log, e.events, tokens, s.stores);
    if e.reply.Claimant? {
      assert ClaimedWith(s.log + e.events, op.id, e.reply.token) by { NewClaim(s.log, e.events, op.id, e.reply.token); }
    }
  }

  lemma NewClaim(log: seq<Event>, events: seq<Event>, id: Id, token: Token)
    requires exists lease :: events == [Claim(id, token, lease)]
    ensures ClaimedWith(log + events, id, token)
  {
    var lease :| events == [Claim(id, token, lease)];
    assert Claim(id, token, lease) in log + events;
  }

  lemma StepKeepsInv(s: State, step: Step)
    requires Inv(s) && Enabled(s, step)
    ensures Inv(Apply(s, step))
  {
    match step
    case Call(op, now, later, saving) => CallKeepsInv(s, op, now, later, saving);
    case StoreToken(id, token) =>
    case DropToken(id) =>
    case Restart =>
  }

  lemma {:induction false} RunKeepsInv(run: seq<State>, n: nat)
    requires IsRun(run) && n < |run|
    ensures Inv(run[n])
  {
    if n > 0 {
      RunKeepsInv(run, n - 1);
      assert Next(run[n - 1], run[n]);
      var step :| Enabled(run[n - 1], step) && run[n] == Apply(run[n - 1], step);
      hide Inv, Enabled, Apply;
      StepKeepsInv(run[n - 1], step);
    }
  }

  // ----- Main results -----

  /** In every reachable state every event is justified by those before it. */
  lemma RunIsExplained(run: seq<State>, n: nat, k: nat)
    requires IsRun(run) && n < |run| && k < |run[n].log|
    ensures Justified(run[n].log[..k], run[n].log[k])
  {
    RunKeepsInv(run, n);
    hide Justified, RequestOk, GrantOk, TokensOk;
    ExplainedAt(run[n].log, k);
  }

  /** No request is claimed twice, decided twice or consumed twice, whatever the schedule. */
  lemma RunNeverRepeats(run: seq<State>, n: nat, i: nat, j: nat)
    requires IsRun(run) && n < |run| && i < j < |run[n].log|
    ensures !Once(run[n].log[i], run[n].log[j])
  {
    RunKeepsInv(run, n);
    hide Justified, RequestOk, GrantOk, TokensOk;
    AtMostOnce(run[n].log, i, j);
  }

  /** A decision with the token of the request's only claim, made while the claim lasted. */
  ghost predicate DecidedByClaimant(log: seq<Event>, id: Id, decision: Decision) {
    exists token, at, lease ::
      Decided(id, token, decision, at) in log && Claim(id, token, lease) in log && at < lease &&
          OnlyClaim(log, id, token)
  }

  ghost predicate OnlyClaim(log: seq<Event>, id: Id, token: Token) {
    forall e | e in log && e.Claim? && (e.id == id || e.token == token) :: e.id == id && e.token == token
  }

  lemma DecisionTraces(log: seq<Event>, id: Id, token: Token, decision: Decision, at: int)
    requires Explained(log) && Decided(id, token, decision, at) in log
    ensures DecidedByClaimant(log, id, decision)
  {
    var k :| 0 <= k < |log| && log[k] == Decided(id, token, decision, at);
    ExplainedAt(log, k);
    var lease :| Claim(id, token, lease) in log[..k] && at < lease;
    assert Claim(id, token, lease) in log;
    ClaimIsOnly(log, id, token, lease);
  }

  lemma ClaimIsOnly(log: seq<Event>, id: Id, token: Token, lease: int)
    requires Explained(log) && Claim(id, token, lease) in log
    ensures OnlyClaim(log, id, token)
  {
    hide Explained;
    var k :| 0 <= k < |log| && log[k] == Claim(id, token, lease);
    forall e | e in log && e.Claim? && (e.id == id || e.token == token) ensures e.id == id && e.token == token {
      var j :| 0 <= j < |log| && log[j] == e;
      if j < k { AtMostOnce(log, j, k); }
      if k < j { AtMostOnce(log, k, j); }
    }
  }

  /** What entitles `owner` to run `intent` once, under request `id`. */
  ghost predicate EntitledOnce(log: seq<Event>, id: Id, terms: Terms, at: int) {
    && AskedWith(log, id, terms, at)
    && NotSpent(log, id) && Withdrawn(id) !in log
    && (DecidedByClaimant(log, id, ApproveOnce) || exists when :: NativelyApproved(id, when) in log)
  }

  /** What entitles to run it under a grant: issued by a decision on a request with the same terms,
      not revoked and not expired. */
  ghost predicate EntitledByGrant(log: seq<Event>, terms: Terms, at: int) {
    exists g, id, expiry, asked ::
      && Issued(g, id, terms, expiry) in log && at < expiry && Revoked(g) !in log
      && Asked(id, terms, asked) in log && DecidedByClaimant(log, id, ApproveSession)
  }

  lemma ApprovalTraces(log: seq<Event>, id: Id)
    requires Explained(log) && Approved(log, id)
    ensures DecidedByClaimant(log, id, ApproveOnce) || exists when :: NativelyApproved(id, when) in log
  {
    var e :| e in log && (e.NativelyApproved? || (e.Decided? && e.decision.ApproveOnce?)) && e.id == id;
    hide Explained, DecidedByClaimant;
    if e.Decided? {
      assert e == Decided(id, e.token, ApproveOnce, e.at);
      DecisionTraces(log, id, e.token, ApproveOnce, e.at);
    } else {
      assert e == NativelyApproved(id, e.at);
    }
  }

  lemma GrantTraces(s: State, terms: Terms, at: int)
    requires Inv(s) && Granted(s.grants, terms, at)
    ensures EntitledByGrant(s.log, terms, at)
  {
    var g :| g in s.grants && s.grants[g].terms == terms && s.grants[g].expiresAt > at;
    var log, grant := s.log, s.grants[g];
    assert GrantOk(log, g, grant);
    var id :| Issued(g, id, terms, grant.expiresAt) in log;
    var k :| 0 <= k < |log| && log[k] == Issued(g, id, terms, grant.expiresAt);
    hide DecidedByClaimant, RequestOk, TokensOk;
    ExplainedAt(log, k);
    var token, when :| Decided(id, token, ApproveSession, when) in log[..k];
    var asked :| Asked(id, terms, asked) in log[..k];
    assert Decided(id, token, ApproveSession, when) in log && Asked(id, terms, asked) in log;
    DecisionTraces(log, id, token, ApproveSession, when);
  }

  lemma OnceTraces(s: State, id: Id, now: int)
    requires Inv(s) && id in s.requests
    ensures var r := Refresh(s.requests[id], now);
            && r.terms == s.requests[id].terms && Coherent(r.terms)
            && (r.status.ApprovedOnce? ==> EntitledOnce(s.log, id, r.terms, now))
  {
    RefreshOk(s.log, id, s.requests[id], now);
    if Refresh(s.requests[id], now).status.ApprovedOnce? {
      hide Explained, DecidedByClaimant;
      ApprovalTraces(s.log, id);
    }
  }

  lemma CoherentTerms(terms: Terms, owner: Owner, intent: Intent)
    requires Coherent(terms) && terms.owner == owner && terms.digest == Digest(intent)
    ensures terms == TermsOf(owner, intent)
  {
  }

  ghost predicate Reachable(s: State) {
    exists run :: IsRun(run) && run[|run| - 1] == s
  }

  lemma ReachableInv(s: State)
    requires Reachable(s)
    ensures Inv(s)
  {
    var run :| IsRun(run) && run[|run| - 1] == s;
    RunKeepsInv(run, |run| - 1);
  }

  /** A consume call answers that the command may run only when that is entitled: once by an
      approval of this request, or under a live grant for the same owner, digest, capability and
      directory; and the use is then on record. */
  lemma ConsumeIsEntitled(s: State, owner: Owner, id: Id, intent: Intent, now: int, later: int)
    requires Reachable(s)
    ensures var e := Perform(s, Consume(owner, id, intent), now, later);
            var terms := TermsOf(owner, intent);
            && (e.reply == Answer(Consumed) ==>
                EntitledOnce(s.log, id, terms, now) && e.events == [Spent(id, terms, now)])
            && (e.reply == Answer(ApprovedSession) ==>
                EntitledByGrant(s.log, terms, later) && e.events == [Reused(terms, later)])
  {
    ReachableInv(s);
    hide Reachable;
    if Owned(s.requests, owner, id) && s.requests[id].terms.digest == Digest(intent) {
      OnceTraces(s, id, now);
      var r := Refresh(s.requests[id], now);
      hide Inv, EntitledOnce, EntitledByGrant, Refresh, RefreshDropsToken, Coherent;
      assert r.terms == TermsOf(owner, intent) by { CoherentTerms(r.terms, owner, intent); }
      if Granted(s.grants, r.terms, later) { GrantTraces(s, r.terms, later); }
    }
  }

  /** Preparing answers that no request is needed only under such a grant. */
  lemma PrepareIsEntitled(s: State, owner: Owner, id: Id, intent: Intent, expirySeconds: int, uiLease: Option<int>,
                          now: int, later: int)
    requires Reachable(s)
    ensures var e := Perform(s, Prepare(owner, id, intent, expirySeconds, uiLease), now, later);
            var terms := TermsOf(owner, intent);
            e.reply == Answer(ApprovedSession) ==>
                EntitledByGrant(s.log, terms, now) && e.events == [Reused(terms, now)]
  {
    ReachableInv(s);
    hide Inv, EntitledByGrant, Reachable;
    var terms := TermsOf(owner, intent);
    if Granted(LiveGrants(s.grants, now), terms, now) {
      assert Granted(s.grants, terms, now);
      GrantTraces(s, terms, now);
    }
  }

  // ----- Approvals do go through -----

  lemma AskedFor(s: State, owner: Owner, intent: Intent, id: Id, expiry: int, lease: int, t0: int)
    requires ValidAsk(expiry, Some(lease))
    ensures var asked := Apply(s, Call(Create(owner, id, intent, expiry, Some(lease)), t0, t0, Saved));
            && id in asked.requests && asked.tokens == s.tokens - {}
            && asked.requests[id] == NewRequest(TermsOf(owner, intent), t0, expiry, Some(lease))
  {
  }

  lemma ClaimedInTime(s: State, owner: Owner, id: Id, token: Token, t: int)
    requires Owned(s.requests, owner, id) && s.requests[id].status.Pending? && s.requests[id].uiEligible
    requires t < s.requests[id].expiresAt && Future(s.requests[id].uiExpiresAt, t)
    ensures var claimed := Apply(s, Call(ClaimRequest(owner, id, token), t, t, Saved));
            && (id, token) in claimed.stores && id in claimed.requests
            && claimed.requests[id] == s.requests[id].(status := Claimed, claimExpiresAt := Some(t + CLAIM_LEASE))
  {
    assert Refresh(s.requests[id], t) == s.requests[id];
  }

  lemma DecidedInTime(s: State, owner: Owner, id: Id, token: Token, decision: Decision, g: Id, t: int)
    requires Owned(s.requests, owner, id) && s.requests[id].status.Claimed?
    requires t < s.requests[id].expiresAt && Future(s.requests[id].claimExpiresAt, t)
    requires id in s.tokens && s.tokens[id] == token
    ensures var decided := Apply(s, Call(Decide(owner, id, token, decision, g), t, t, Saved));
            && id in decided.requests
            && decided.requests[id] == s.requests[id].(status := StatusOf(decision), claimExpiresAt := None)
            && (decision.ApproveSession? ==>
                decided.grants == s.grants[g := Grant(s.requests[id].terms, t + SESSION_GRANT)])
            && (forall other | other in s.requests && other != id ::
                  other in decided.requests && decided.requests[other] == s.requests[other])
  {
    assert Refresh(s.requests[id], t) == s.requests[id] && !RefreshDropsToken(s.requests[id], t);
    assert id in s.tokens - {};
  }

  lemma ConsumedInTime(s: State, owner: Owner, id: Id, intent: Intent, t: int, later: int)
    requires Owned(s.requests, owner, id) && s.requests[id].terms == TermsOf(owner, intent)
    requires s.requests[id].status.ApprovedOnce? && t < s.requests[id].expiresAt
    ensures Perform(s, Consume(owner, id, intent), t, t).reply == Answer(Consumed)
    ensures var consumed := Apply(s, Call(Consume(owner, id, intent), t, t, Saved));
            Perform(consumed, Consume(owner, id, intent), later, later).reply == Refused
  {
    var r := s.requests[id];
    assert Refresh(r, t) == r;
    var consumed := Apply(s, Call(Consume(owner, id, intent), t, t, Saved));
    assert consumed.requests[id] == r.(status := Consumed);
    assert Refresh(consumed.requests[id], later) == consumed.requests[id];
  }

  /** A request asked through the UI, claimed before its UI lease ends, decided once with its token
      before the claim's lease ends, and consumed before it expires is granted, exactly once. */
  lemma ApproveOnceGoesThrough(s: State, owner: Owner, intent: Intent, id: Id, token: Token, g: Id,
                               expiry: int, lease: int, t0: int, t1: int, t2: int, t3: int, t4: int)
    requires ValidAsk(expiry, Some(lease)) && s.clock <= t0 <= t1 <= t2 <= t3 <= t4
    requires t1 < t0 + lease * 1000 && t2 < t1 + CLAIM_LEASE && t3 < t0 + expiry * 1000
    ensures var asked := Apply(s, Call(Create(owner, id, intent, expiry, Some(lease)), t0, t0, Saved));
            var claimed := Apply(asked, Call(ClaimRequest(owner, id, token), t1, t1, Saved));
            var stored := Apply(claimed, StoreToken(id, token));
            var decided := Apply(stored, Call(Decide(owner, id, token, ApproveOnce, g), t2, t2, Saved));
            var consumed := Apply(decided, Call(Consume(owner, id, intent), t3, t3, Saved));
            && (id, token) in claimed.stores
            && Perform(decided, Consume(owner, id, intent), t3, t3).reply == Answer(Consumed)
            && Perform(consumed, Consume(owner, id, intent), t4, t4).reply == Refused
  {
    var asked := Apply(s, Call(Create(owner, id, intent, expiry, Some(lease)), t0, t0, Saved));
    var claimed := Apply(asked, Call(ClaimRequest(owner, id, token), t1, t1, Saved));
    var stored := Apply(claimed, StoreToken(id, token));
    var decided := Apply(stored, Call(Decide(owner, id, token, ApproveOnce, g), t2, t2, Saved));
    assert stored.tokens == claimed.tokens[id := token] && stored.requests == claimed.requests;
    hide Apply, Perform;
    AskedFor(s, owner, intent, id, expiry, lease, t0);
    ClaimedInTime(asked, owner, id, token, t1);
    DecidedInTime(stored, owner, id, token, ApproveOnce, g, t2);
    ConsumedInTime(decided, owner, id, intent, t3, t4);
  }

  lemma CoveredByGrant(s: State, owner: Owner, id: Id, intent: Intent, u: int)
    requires Owned(s.requests, owner, id) && s.requests[id].terms == TermsOf(owner, intent)
    requires var status := Refresh(s.requests[id], u).status;
             status.Pending? || status.Claimed? || status.NativeFallback? || status.ApprovedSession?
    ensures Perform(s, Consume(owner, id, intent), u, u).reply ==
            Answer(if Granted(s.grants, TermsOf(owner, intent), u) then ApprovedSession else Rejected)
  {
    hide Granted, RefreshDropsToken;
    assert Refresh(s.requests[id], u).terms == s.requests[id].terms;
  }

  /** A session approval lets through every later request of the same owner with the same intent that
      is still open, or need not be made at all, until its grant expires or is revoked. */
  lemma ApproveSessionGoesThrough(s: State, owner: Owner, intent: Intent, id: Id, token: Token, g: Id, t: int, u: int)
    requires Owned(s.requests, owner, id) && s.requests[id].terms == TermsOf(owner, intent)
    requires s.requests[id].status.Claimed?
    requires t < s.requests[id].expiresAt && Future(s.requests[id].claimExpiresAt, t)
    requires id in s.tokens && s.tokens[id] == token && g !in s.grants && t <= u < t + SESSION_GRANT
    ensures var decided := Apply(s, Call(Decide(owner, id, token, ApproveSession, g), t, t, Saved));
            && (forall other, expiry, lease | ValidAsk(expiry, lease) ::
                  Perform(decided, Prepare(owner, other, intent, expiry, lease), u, u).reply == Answer(ApprovedSession))
            && (forall other | OpenFor(decided, owner, other, intent, u) ::
                  Perform(decided, Consume(owner, other, intent), u, u).reply == Answer(ApprovedSession))
            && OpenFor(decided, owner, id, intent, u)
            && (!Granted(s.grants, TermsOf(owner, intent), u) ==>
                  var revoked := Apply(decided, Call(RevokeGrant(owner, g), u, u, Saved));
                  forall other | OpenFor(decided, owner, other, intent, u) ::
                    Perform(revoked, Consume(owner, other, intent), u, u).reply == Answer(Rejected))
  {
    var terms := TermsOf(owner, intent);
    var decided := Apply(s, Call(Decide(owner, id, token, ApproveSession, g), t, t, Saved));
    DecidedInTime(s, owner, id, token, ApproveSession, g, t);
    assert decided.grants[g] == Grant(terms, t + SESSION_GRANT);
    assert Granted(decided.grants, terms, u);
    assert g in LiveGrants(decided.grants, u);
    assert Granted(LiveGrants(decided.grants, u), terms, u);
    var revoked := Apply(decided, Call(RevokeGrant(owner, g), u, u, Saved));
    assert revoked.requests == decided.requests && revoked.grants == decided.grants - {g} == s.grants;
    hide Apply, Granted, LiveGrants;
    forall other | OpenFor(decided, owner, other, intent, u)
      ensures Perform(decided, Consume(owner, other, intent), u, u).reply == Answer(ApprovedSession)
      ensures !Granted(s.grants, terms, u) ==>
              Perform(revoked, Consume(owner, other, intent), u, u).reply == Answer(Rejected)
    {
      hide Perform;
      CoveredByGrant(decided, owner, other, intent, u);
      CoveredByGrant(revoked, owner, other, intent, u);
    }
  }

  /** A request of this owner and intent that has not been answered otherwise. */
  predicate OpenFor(s: State, owner: Owner, id: Id, intent: Intent, u: int) {
    Owned(s.requests, owner, id) && s.requests[id].terms == TermsOf(owner, intent)
    && var status := Refresh(s.requests[id], u).status;
       status.Pending? || status.Claimed? || status.NativeFallback? || status.ApprovedSession?
  }
}
