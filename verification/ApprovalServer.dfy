/** The approval operations as the server performs them: on the ledger it read, in place, writing
it back at the end. Each is proved to be the step of the same name of the protocol. */
module ApprovalServer {
  import opened Options
  import opened Approvals

  class Server {
    var requests: map<Id, Request>
    var grants: map<Id, Grant>
    var tokens: map<Id, Token>
    ghost var stores: set<(Id, Token)>
    ghost var drops: set<Id>
    ghost var clock: int
    ghost var log: seq<Event>

    ghost function Snapshot(): State
      reads this
    {
      State(requests, grants, tokens, stores, drops, clock, log)
    }

    constructor ()
      ensures Snapshot() == Empty
    {
      requests, grants, tokens := map[], map[], map[];
      stores, drops, clock, log := {}, {}, 0, [];
    }

    /** `refreshApproval`: the refreshed request, and its token gone if the claim has ended. */
    method Refreshed(id: Id, now: int) returns (r: Request)
      requires id in requests
      modifies this`tokens
      ensures r == Refresh(requests[id], now)
      ensures tokens == old(tokens) - Dropped(requests[id], id, now)
    {
      r := requests[id];
      if Open(r.status) && r.expiresAt <= now {
        r := r.(status := Expired, claimExpiresAt := None);
        tokens := tokens - {id};
      } else if r.status.Pending? && r.uiEligible && Past(r.uiExpiresAt, now) {
        r := r.(status := NativeFallback, uiEligible := false, uiExpiresAt := None);
      } else if r.status.Claimed? && Past(r.claimExpiresAt, now) {
        r := r.(status := NativeFallback, uiEligible := false, uiExpiresAt := None, claimExpiresAt := None);
        tokens := tokens - {id};
      }
      assert old(tokens) - {} == old(tokens);
    }

    /** The end of `withApprovals`, and of the operation that called it: the ledger is written, and only
        a write that returns lets the caller go on. */
    method WriteBack(ghost before: State, ghost op: Op, ghost e: Edit, newRequests: map<Id, Request>,
                     newGrants: map<Id, Grant>,
                     answer: Reply, later: int, saving: Saving) returns (reply: Reply)
      requires e == Edit(newRequests, newGrants, e.dropped, e.events, answer) && !answer.Refused?
      requires Snapshot() == before.(tokens := before.tokens - e.dropped, clock := later)
      modifies this
      ensures Snapshot() == Commit(before, op, e, later, saving)
      ensures reply == if saving.Saved? then answer else Refused
    {
      if saving.NotSaved? {
        return Refused;
      }
      requests, grants, log := newRequests, newGrants, log + e.events;
      if saving.SavedButThrew? {
        return Refused;
      }
      if op.ClaimRequest? && answer.Claimant? { stores := stores + {(op.id, answer.token)}; }
      if op.Decide? && answer.Answer? && !answer.status.Claimed? { drops := drops + {op.id}; }
      return answer;
    }

    method Prepare(owner: Owner, id: Id, intent: Intent, expirySeconds: int, uiLease: Option<int>,
                   now: int, later: int, saving: Saving) returns (reply: Reply)
      modifies this
      ensures var op := Op.Prepare(owner, id, intent, expirySeconds, uiLease);
              && Snapshot() == Apply(old(Snapshot()), Call(op, now, later, saving))
              && reply == ReplyOf(old(Snapshot()), op, now, later, saving)
    {
      hide Perform, Granted, LiveGrants, Commit;
      ghost var before, op := Snapshot(), Op.Prepare(owner, id, intent, expirySeconds, uiLease);
      ghost var e := Perform(before, op, now, later);
      PrepareUnfolds(before, owner, id, intent, expirySeconds, uiLease, now, later);
      RefusalCommits(before, op, {}, later, saving);
      clock := later;
      assert tokens - {} == tokens;
      if !(0 < expirySeconds <= MAX_EXPIRY_SECONDS) {
        return Refused;
      }
      if uiLease.Some? && !(MIN_UI_LEASE_SECONDS <= uiLease.value <= MAX_UI_LEASE_SECONDS) {
        return Refused;
      }
      var terms := TermsOf(owner, intent);
      var live := LiveGrants(grants, now);
      if Granted(live, terms, now) {
        reply := WriteBack(before, op, e, requests, live, Answer(ApprovedSession), later, saving);
        return;
      }
      var r := Request(terms, now + expirySeconds * 1000, Pending, false, None, None);
      if uiLease.Some? {
        r := r.(uiEligible := true, uiExpiresAt := Some(now + uiLease.value * 1000));
      }
      reply := WriteBack(before, op, e, requests[id := r], live, Answer(Pending), later, saving);
    }

    method Claim(owner: Owner, id: Id, token: Token, now: int, later: int, saving: Saving) returns (reply: Reply)
      modifies this
      ensures var op := ClaimRequest(owner, id, token);
              && Snapshot() == Apply(old(Snapshot()), Call(op, now, later, saving))
              && reply == ReplyOf(old(Snapshot()), op, now, later, saving)
    {
      hide Refresh, Dropped, Perform, Commit;
      ghost var before, op := Snapshot(), ClaimRequest(owner, id, token);
      ghost var e := Perform(before, op, now, later);
      ClaimUnfolds(before, owner, id, token, now, later);
      RefusalCommits(before, op, {}, later, saving);
      clock := later;
      assert tokens - {} == tokens;
      if id !in requests || requests[id].terms.owner != owner {
        return Refused;
      }
      var r := Refreshed(id, now);
      var answer := Answer(r.status);
      if r.status.Pending? && r.uiEligible && Future(r.uiExpiresAt, later) {
        r := r.(status := Claimed, claimExpiresAt := Some(later + CLAIM_LEASE));
        answer := Claimant(token);
      }
      reply := WriteBack(before, op, e, requests[id := r], grants, answer, later, saving);
    }

    method Decide(owner: Owner, id: Id, token: Token, decision: Decision, grant: Id, now: int, later: int,
                  saving: Saving)
      returns (reply: Reply)
      modifies this
      ensures var op := Op.Decide(owner, id, token, decision, grant);
              && Snapshot() == Apply(old(Snapshot()), Call(op, now, later, saving))
              && reply == ReplyOf(old(Snapshot()), op, now, later, saving)
    {
      hide Refresh, Dropped, Perform, Commit;
      ghost var before, op := Snapshot(), Op.Decide(owner, id, token, decision, grant);
      ghost var e := Perform(before, op, now, later);
      DecideUnfolds(before, owner, id, token, decision, grant, now, later);
      RefusalCommits(before, op, e.dropped, later, saving);
      clock := later;
      assert tokens - {} == tokens;
      if id !in requests || requests[id].terms.owner != owner {
        return Refused;
      }
      var r := Refreshed(id, now);
      if id !in tokens || tokens[id] != token {
        return Refused;
      }
      var newGrants := grants;
      if r.status.Claimed? {
        r := r.(status := StatusOf(decision), claimExpiresAt := None);
        if r.status.ApprovedSession? {
          newGrants := grants[grant := Grant(r.terms, later + SESSION_GRANT)];
        }
      }
      reply := WriteBack(before, op, e, requests[id := r], newGrants, Answer(r.status), later, saving);
    }

    method Consume(owner: Owner, id: Id, intent: Intent, now: int, later: int, saving: Saving) returns (reply: Reply)
      modifies this
      ensures var op := Op.Consume(owner, id, intent);
              && Snapshot() == Apply(old(Snapshot()), Call(op, now, later, saving))
              && reply == ReplyOf(old(Snapshot()), op, now, later, saving)
    {
      hide Refresh, Dropped, Perform, Commit, Granted;
      ghost var before, op := Snapshot(), Op.Consume(owner, id, intent);
      ghost var e := Perform(before, op, now, later);
      ConsumeUnfolds(before, owner, id, intent, now, later);
      RefusalCommits(before, op, e.dropped, later, saving);
      clock := later;
      assert tokens - {} == tokens;
      if id !in requests || requests[id].terms.owner != owner {
        return Refused;
      }
      var r := Refreshed(id, now);
      if r.terms.digest != Digest(intent) || r.status.Consumed? {
        return Refused;
      }
      var answer := Answer(r.status);
      if r.status.ApprovedOnce? {
        r := r.(status := Consumed);
        answer := Answer(Consumed);
      } else if !(r.status.Rejected? || r.status.Cancelled? || r.status.Expired?) {
        answer := Answer(if Granted(grants, r.terms, later) then ApprovedSession else Rejected);
      }
      reply := WriteBack(before, op, e, requests[id := r], grants, answer, later, saving);
    }

    method NativeApprove(owner: Owner, id: Id, now: int, later: int, saving: Saving) returns (reply: Reply)
      modifies this
      ensures var op := Op.NativeApprove(owner, id);
              && Snapshot() == Apply(old(Snapshot()), Call(op, now, later, saving))
              && reply == ReplyOf(old(Snapshot()), op, now, later, saving)
    {
      hide Refresh, Dropped, Perform, Commit;
      ghost var before, op := Snapshot(), Op.NativeApprove(owner, id);
      ghost var e := Perform(before, op, now, later);
      NativeUnfolds(before, owner, id, now, later);
      RefusalCommits(before, op, {}, later, saving);
      clock := later;
      assert tokens - {} == tokens;
      if id !in requests || requests[id].terms.owner != owner {
        return Refused;
      }
      var r := Refreshed(id, now);
      if r.status.NativeFallback? || (r.status.Pending? && !r.uiEligible) {
        r := r.(status := ApprovedOnce);
      }
      reply := WriteBack(before, op, e, requests[id := r], grants, Answer(r.status), later, saving);
    }

    method Cancel(owner: Owner, id: Id, now: int, later: int, saving: Saving) returns (reply: Reply)
      modifies this
      ensures var op := Op.Cancel(owner, id);
              && Snapshot() == Apply(old(Snapshot()), Call(op, now, later, saving))
              && reply == ReplyOf(old(Snapshot()), op, now, later, saving)
    {
      hide Refresh, Dropped, Perform, Commit, Open;
      ghost var before, op := Snapshot(), Op.Cancel(owner, id);
      ghost var e := Perform(before, op, now, later);
      CancelUnfolds(before, owner, id, now, later);
      RefusalCommits(before, op, {}, later, saving);
      clock := later;
      assert tokens - {} == tokens;
      if id !in requests || requests[id].terms.owner != owner {
        return Refused;
      }
      var r := Refreshed(id, now);
      if Open(r.status) {
        r := r.(status := Cancelled, claimExpiresAt := None);
        ghost var dropped := Dropped(requests[id], id, now);
        assert before.tokens - (dropped + {id}) == (before.tokens - dropped) - {id};
        tokens := tokens - {id};
      }
      reply := WriteBack(before, op, e, requests[id := r], grants, Answer(r.status), later, saving);
    }

    /** The continuation of a claim, once the ledger is written. */
    method StoreClaimToken(id: Id, token: Token)
      requires (id, token) in stores
      modifies this
      ensures Snapshot() == Apply(old(Snapshot()), StoreToken(id, token))
    {
      stores := stores - {(id, token)};
      tokens := tokens[id := token];
    }

    /** The continuation of a decision, once the ledger is written. */
    method DropClaimToken(id: Id)
      requires id in drops
      modifies this
      ensures Snapshot() == Apply(old(Snapshot()), DropToken(id))
    {
      drops := drops - {id};
      tokens := tokens - {id};
    }
  }

  // ----- The branch of the protocol that each operation follows -----

  lemma RefusalCommits(s: State, op: Op, dropped: set<Id>, later: int, saving: Saving)
    ensures Commit(s, op, Refusal(s, dropped), later, saving) == s.(tokens := s.tokens - dropped, clock := later)
  {
  }

  lemma PrepareUnfolds(s: State, owner: Owner, id: Id, intent: Intent, expirySeconds: int, uiLease: Option<int>,
                       now: int, later: int)
    ensures Perform(s, Op.Prepare(owner, id, intent, expirySeconds, uiLease), now, later) ==
            if !ValidAsk(expirySeconds, uiLease) then Refusal(s, {})
            else PrepareEdit(s, id, TermsOf(owner, intent), now, expirySeconds, uiLease)
  {
  }

  lemma ClaimUnfolds(s: State, owner: Owner, id: Id, token: Token, now: int, later: int)
    ensures Perform(s, ClaimRequest(owner, id, token), now, later) ==
            if !Owned(s.requests, owner, id) then Refusal(s, {})
            else ClaimEdit(s, id, Refresh(s.requests[id], now), Dropped(s.requests[id], id, now), token, later)
  {
  }

  lemma DecideUnfolds(s: State, owner: Owner, id: Id, token: Token, decision: Decision, g: Id, now: int, later: int)
    ensures Perform(s, Op.Decide(owner, id, token, decision, g), now, later) ==
            if !Owned(s.requests, owner, id) then Refusal(s, {})
            else DecideEdit(s, id, Refresh(s.requests[id], now), Dropped(s.requests[id], id, now), token, decision, g,
                            now, later)
  {
  }

  lemma ConsumeUnfolds(s: State, owner: Owner, id: Id, intent: Intent, now: int, later: int)
    ensures Perform(s, Op.Consume(owner, id, intent), now, later) ==
            if !Owned(s.requests, owner, id) then Refusal(s, {})
            else ConsumeEdit(s, id, Refresh(s.requests[id], now), Dropped(s.requests[id], id, now), intent, now, later)
  {
  }

  lemma NativeUnfolds(s: State, owner: Owner, id: Id, now: int, later: int)
    ensures Perform(s, Op.NativeApprove(owner, id), now, later) ==
            if !Owned(s.requests, owner, id) then Refusal(s, {})
            else NativeEdit(s, id, Refresh(s.requests[id], now), Dropped(s.requests[id], id, now), now)
  {
  }

  lemma CancelUnfolds(s: State, owner: Owner, id: Id, now: int, later: int)
    ensures Perform(s, Op.Cancel(owner, id), now, later) ==
            if !Owned(s.requests, owner, id) then Refusal(s, {})
            else CancelEdit(s, id, Refresh(s.requests[id], now), Dropped(s.requests[id], id, now))
  {
  }
}
