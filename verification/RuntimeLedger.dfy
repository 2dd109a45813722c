/**
 The runtime ledger and the authorization ledger as one object over the tables of a Store.
 Each method issues its statements one after another; the specification of the whole
 transaction is the corresponding function of `Ledger`.
 */
module RuntimeLedger {
  import opened Prelude
  import opened L = Ledger

  class Store {
    var events: map<EventId, Event>
    var sessions: map<SessionId, Session>
    var tokens: map<TokenId, Token>
    var consumptions: map<Digest, Consumption>
    var pruned: int
    var binding: Option<Binding>

    function Tables(): Db
      reads this
    {
      Db(events, sessions, tokens, consumptions, pruned, binding)
    }

    constructor (db: Db)
      ensures Tables() == db
    {
      events, sessions, tokens, consumptions := db.events, db.sessions, db.tokens, db.consumptions;
      pruned, binding := db.pruned, db.binding;
    }

    method Rollback(saved: Db)
      modifies this
      ensures Tables() == saved
    {
      events, sessions, tokens, consumptions := saved.events, saved.sessions, saved.tokens, saved.consumptions;
      pruned, binding := saved.pruned, saved.binding;
    }

    // ---------------------------------------------------------------- runtime ledger

    method CapturePrompt(id: EventId, session: SessionId, scope: ScopeKey, now: int) returns (r: Result<Event, Error>)
      modifies this
      ensures var spec := Capture(old(Tables()), id, session, scope, now);
              if spec.Ok? then Tables() == spec.value && r == Ok(Event(session, scope, now))
              else Tables() == old(Tables()) && r == Err(spec.error)
      ensures r.Ok? ==> id in events && Resolve(Tables(), id, scope, now).Ok?
    {
      if session in sessions && sessions[session].scope != scope { return Err(ScopeMismatch); }
      if id in events { return Err(IntegrityError); }
      events := events[id := Event(session, scope, now)];
      if session !in sessions {
        sessions := sessions[session := Session(scope, Some(id), now)];
      } else {
        sessions := sessions[session := sessions[session].(last := Some(id), seen := now)];
      }
      PruneTables(now);
      r := Ok(Event(session, scope, now));
    }

    /** Expired tokens, idle sessions, then old events no token cites, with their dependants. */
    method PruneTables(now: int)
      modifies this
      ensures Tables() == Prune(old(Tables()), now)
    {
      if pruned > now - PRUNE_INTERVAL { return; }
      tokens := map t | t in tokens && tokens[t].expires > now :: tokens[t];
      sessions := map s | s in sessions && sessions[s].seen >= now - SESSION_RETENTION :: sessions[s];
      var cited := set t | t in tokens :: tokens[t].event;
      var doomed := set e | e in events && events[e].created < now - EVENT_RETENTION && e !in cited;
      assert doomed == Expired(Tables(), now);
      DeleteEvents(doomed);
      pruned := now;
    }

    method DeleteEvents(doomed: set<EventId>)
      modifies this
      ensures Tables() == DropEvents(old(Tables()), doomed)
    {
      events := events - doomed;
      tokens := map t | t in tokens && tokens[t].event !in doomed :: tokens[t];
      consumptions := map d | d in consumptions && consumptions[d].event !in doomed :: consumptions[d];
      sessions := map s | s in sessions :: ForgetEvent(sessions[s], doomed);
    }

    /**
     A prompt resolves exactly when some session names it as its current prompt and it is
     young enough and of the scope; only a wrong scope is told apart from the other failures.
     */
    method ResolveApprovalEvent(id: EventId, scope: ScopeKey, now: int) returns (r: Result<Approval, Error>)
      ensures r == Resolve(Tables(), id, scope, now)
      ensures r.Ok? <==> exists s :: CurrentPrompt(Tables(), s, id, now) && events[id].scope == scope
      ensures r == Err(ScopeMismatch) <==> exists s :: CurrentPrompt(Tables(), s, id, now) && events[id].scope != scope
      ensures r.Err? ==> r.error in {ApprovalInvalid, ScopeMismatch}
      ensures r.Ok? ==>
                CurrentPrompt(Tables(), r.value.session, id, now) && r.value == Approval(id, r.value.session, scope)
    {
      if id !in events || events[id].session !in sessions || sessions[events[id].session].last != Some(id) {
        return Err(ApprovalInvalid);
      }
      var event := events[id];
      assert event.created >= now - EVENT_RETENTION ==> CurrentPrompt(Tables(), event.session, id, now);
      if event.created < now - EVENT_RETENTION { return Err(ApprovalInvalid); }
      if event.scope != scope { return Err(ScopeMismatch); }
      r := Ok(Approval(id, event.session, scope));
    }

    /** Resolve on the clock of the call; insert in a transaction of its own. */
    method CreateProposal(id: EventId, scope: ScopeKey, token: TokenId, proposal: Proposal, replace: bool, clock: int,
                          now: int)
      returns (r: Result<Token, Error>)
      modifies this
      ensures var resolved := Resolve(old(Tables()), id, scope, clock);
              if resolved.Err? then Tables() == old(Tables()) && r == Err(resolved.error)
              else
                var spec := L.CreateProposal(old(Tables()), token, resolved.value, proposal, replace, now);
                if spec.Err? then Tables() == old(Tables()) && r == Err(spec.error)
                else Tables() == spec.value && r == Ok(spec.value.tokens[token])
      ensures r.Ok? ==>
                && r.value.event == id && id in events && r.value.session == events[id].session
                && r.value.scope == scope && r.value.proposal == proposal
                && r.value.created == now && r.value.expires == now + 24 * 3600
                && token in tokens && tokens[token] == r.value
                && (forall t :: t in tokens && tokens[t].session == r.value.session ==> t == token)
      ensures r == Err(ProposalPending) ==>
                !replace && id in events
                && exists t :: t in tokens && tokens[t].session == events[id].session
      ensures forall t :: t in old(tokens) && t !in tokens ==>
                r.Ok? && replace && old(tokens)[t].session == r.value.session
      ensures forall t :: t in old(tokens) && t in tokens && t != token ==> tokens[t] == old(tokens)[t]
      ensures Tables() == old(Tables()).(tokens := tokens)
    {
      var resolved := ResolveApprovalEvent(id, scope, clock);
      if resolved.Err? { return Err(resolved.error); }
      var a := resolved.value;
      var saved := Tables();
      var pending := set t | t in tokens && tokens[t].session == a.session;
      if pending != {} && !replace {
        assert exists t :: t in pending;
        return Err(ProposalPending);
      }
      assert pending == {} ==> forall t :: t in tokens ==> t !in pending;
      if replace {
        tokens := map t | t in tokens && tokens[t].session != a.session :: tokens[t];
      }
      assert tokens == map t | t in saved.tokens && saved.tokens[t].session != a.session :: saved.tokens[t];
      if token in tokens || a.event !in events {
        Rollback(saved);
        return Err(IntegrityError);
      }
      tokens := tokens[token := Token(a.event, a.session, a.scope, proposal, now, now + PROPOSAL_TTL)];
      r := Ok(tokens[token]);
    }

    /**
     The one pending token of the approving prompt's session, if unexpired, in scope and, when
     a proposal is given, made for exactly that proposal.
     */
    method PendingForApproval(id: EventId, scope: ScopeKey, proposal: Option<Proposal>, clock: int, now: int)
      returns (r: Result<(Approval, TokenId), Error>)
      requires Wellformed(Tables())
      ensures r.Ok? ==>
                && CurrentPrompt(Tables(), r.value.0.session, id, clock) && events[id].scope == scope
                && r.value.0 == Approval(id, r.value.0.session, scope) && r.value.1 in tokens
                && PendingFor(tokens[r.value.1], r.value.0.session, scope, proposal, now)
      ensures r.Ok? ==>
                forall t :: t in tokens && PendingFor(tokens[t], r.value.0.session, scope, proposal, now) ==>
                  t == r.value.1
      ensures r.Err? ==>
                forall s, t :: CurrentPrompt(Tables(), s, id, clock) && events[id].scope == scope && t in tokens ==>
                  !PendingFor(tokens[t], s, scope, proposal, now)
    {
      var resolved := ResolveApprovalEvent(id, scope, clock);
      if resolved.Err? { return Err(resolved.error); }
      var a := resolved.value;
      var pending := set t | t in tokens && tokens[t].session == a.session;
      if pending == {} {
        assert forall t :: t in tokens ==> t !in pending;
        return Err(ProposalInvalid);
      }
      var t :| t in pending;
      if tokens[t].scope != scope || tokens[t].expires <= now { return Err(ProposalInvalid); }
      if proposal.Some? && tokens[t].proposal != proposal.value { return Err(ProposalInvalid); }
      r := Ok((a, t));
    }

    method DeleteProposal(token: TokenId) returns (r: Result<(), Error>)
      modifies this
      ensures var spec := L.DeleteProposal(old(Tables()), token);
              if spec.Ok? then Tables() == spec.value && r.Ok? else Tables() == old(Tables()) && r == Err(spec.error)
    {
      if token !in tokens { return Err(ProposalInvalid); }
      tokens := tokens - {token};
      r := Ok(());
    }

    // ---------------------------------------------------------------- authorization ledger

    method ValidateApproval(id: EventId, scope: ScopeKey, now: int) returns (r: Result<Approval, Error>)
      ensures r == Validate(Tables(), id, scope, now)
      ensures r.Ok? <==>
              && (exists s :: CurrentPrompt(Tables(), s, id, now)) && events[id].scope == scope
              && forall d :: d in consumptions ==> consumptions[d].event != id
      ensures r.Ok? ==> id in events && r.value == Approval(id, events[id].session, scope)
    {
      r := ResolveApprovalEvent(id, scope, now);
      if r.Ok? && exists d | d in consumptions :: consumptions[d].event == id {
        r := Err(ApprovalInvalid);
      }
    }

    /**
     In a well-formed Store an approval is consumed exactly when its prompt is unspent and
     eligible and its transaction has no row yet; then one row is added, and none is lost.
     */
    method ConsumeApproval(a: Approval, operation: string, tx: Option<TxId>, now: int) returns (r: Result<(), Error>)
      modifies this
      ensures var spec := Consume(old(Tables()), a, operation, tx, now);
              if spec.Ok? then Tables() == spec.value && r.Ok? else Tables() == old(Tables()) && r == Err(spec.error)
      ensures Wellformed(old(Tables())) ==>
                (r.Ok? <==>
                   && MayApprove(old(Tables()), a, now)
                   && (forall d :: d in old(consumptions) ==> old(consumptions)[d].event != a.event)
                   && (tx.Some? ==> forall d :: d in old(consumptions) ==> old(consumptions)[d].tx != tx))
      ensures r.Ok? ==> |consumptions| == |old(consumptions)| + 1 && Consumed(Tables(), a.event)
      ensures forall d :: d in old(consumptions) ==> d in consumptions && consumptions[d] == old(consumptions)[d]
      ensures forall d :: d in consumptions && d !in old(consumptions) ==>
                consumptions[d] == Consumption(a.event, a.session, a.scope, operation, tx, now)
      ensures Tables() == old(Tables()).(consumptions := consumptions)
    {
      EligibleMeans(Tables(), a, now);
      if RefDigest(a.event) in consumptions && Wellformed(Tables()) {
        RefDigestInjective(a.event, consumptions[RefDigest(a.event)].event);
      }
      if exists d | d in consumptions :: consumptions[d].event == a.event { return Err(ApprovalInvalid); }
      if !Eligible(Tables(), a, now) { return Err(ApprovalInvalid); }
      var key := RefDigest(a.event);
      if key in consumptions || (tx.Some? && exists d | d in consumptions :: consumptions[d].tx == tx) {
        return Err(ApprovalInvalid);
      }
      consumptions := consumptions[key := Consumption(a.event, a.session, a.scope, operation, tx, now)];
      assert key in consumptions && consumptions[key].event == a.event;
      r := Ok(());
    }

    /** The database side of a confirmation, deployment, revocation or discard: all or nothing. */
    method SettleRequest(q: Request) returns (r: Result<(), Error>)
      modifies this
      ensures var spec := Settle(old(Tables()), q);
              if spec.Ok? then Tables() == spec.value && r.Ok? else Tables() == old(Tables()) && r == Err(spec.error)
    {
      var saved := Tables();
      r := Ok(());
      if q.pending.Some? {
        r := DeleteProposal(q.pending.value);
      }
      if r.Ok? {
        r := ConsumeApproval(q.approval, q.operation, q.tx, q.now);
      }
      if r.Ok? && q.rebind.Some? {
        if binding.None? {
          r := Err(BindingMissing);
        } else {
          binding := Some(Binding(q.rebind.value, q.rebind.value));
        }
      }
      if r.Err? { Rollback(saved); }
    }

    /** Discarding a proposal spends the prompt that asked for it. */
    method DiscardProposal(id: EventId, scope: ScopeKey, now: int) returns (r: Result<(), Error>)
      requires Wellformed(Tables())
      modifies this
      ensures r.Err? ==> Tables() == old(Tables())
      ensures r.Ok? <==>
              exists s, t :: t in old(tokens) && PendingFor(old(tokens)[t], s, scope, None, now)
                             && MayApprove(old(Tables()), Approval(id, s, scope), now)
                             && forall d :: d in old(consumptions) ==> old(consumptions)[d].event != id
      ensures r.Ok? ==>
                id in events
                && var row := Consumption(id, events[id].session, scope, "proposal.discard", None, now);
                exists d :: d in consumptions && d !in old(consumptions) && consumptions[d] == row
      ensures r.Ok? ==> Consumed(Tables(), id) && !Consumed(old(Tables()), id)
      ensures r.Ok? ==> id in events && exists t :: t in old(tokens) && tokens == old(tokens) - {t}
                                                  && old(tokens)[t].session == events[id].session
      ensures r.Ok? ==> events == old(events) && sessions == old(sessions) && binding == old(binding)
    {
      var approval := ValidateApproval(id, scope, now);
      if approval.Err? { return Err(approval.error); }
      var found := PendingForApproval(id, scope, None, now, now);
      if found.Err? { return Err(found.error); }
      var q := Request(Some(found.value.1), approval.value, "proposal.discard", None, None, now);
      r := SettleRequest(q);
      SettleExactly(old(Tables()), q);
      if r.Ok? {
        SettleEffect(old(Tables()), q);
        assert RefDigest(id) in consumptions && consumptions[RefDigest(id)].event == id;
      }
    }
  }

  /** The session's token, of the scope, not yet expired, and made for the given proposal. */
  ghost predicate PendingFor(t: Token, s: SessionId, scope: ScopeKey, proposal: Option<Proposal>, now: int) {
    && t.session == s && t.scope == scope && now < t.expires
    && (proposal.Some? ==> t.proposal == proposal.value)
  }

  /**
   A proposal and the look for it: made at `now`, it is found by any current prompt of its
   session for a day, and after that by none.
   */
  method ProposalLivesADay(db: Db, id: EventId, asking: EventId, scope: ScopeKey, token: TokenId, proposal: Proposal,
                           replace: bool, clock: int, now: int, later: int, at: int)
    returns (made: Result<Token, Error>, found: Result<(Approval, TokenId), Error>)
    requires Wellformed(db)
    ensures made.Ok? && CurrentPrompt(db, made.value.session, asking, later) && db.events[asking].scope == scope ==>
              && (found.Ok? <==> at < now + 24 * 3600)
              && (found.Ok? ==> found.value.1 == token)
  {
    var store := new Store(db);
    made := store.CreateProposal(id, scope, token, proposal, replace, clock, now);
    if made.Ok? {
      ProposeKeeps(db, token, Approval(id, made.value.session, scope), proposal, replace, now);
    }
    found := store.PendingForApproval(asking, scope, Some(proposal), later, at);
    assert made.Ok? && CurrentPrompt(db, made.value.session, asking, later) ==>
             CurrentPrompt(store.Tables(), made.value.session, asking, later);
  }

  /**
   In a Store whose sessions point home, validating and then consuming at once agree: an
   approval is handed out exactly when its consumption would be accepted.
   */
  lemma ValidateAgreesWithConsume(db: Db, id: EventId, scope: ScopeKey, operation: string, now: int)
    requires Wellformed(db) && Current(db)
    ensures Validate(db, id, scope, now).Ok? <==>
            id in db.events && db.events[id].scope == scope
            && Consume(db, Approval(id, db.events[id].session, scope), operation, None, now).Ok?
    ensures Validate(db, id, scope, now).Ok? ==>
              Validate(db, id, scope, now).value == Approval(id, db.events[id].session, scope)
  {
    if id in db.events && db.events[id].session in db.sessions {
      assert PointsHome(db, db.events[id].session);
    }
    if RefDigest(id) in db.consumptions {
      RefDigestInjective(id, db.consumptions[RefDigest(id)].event);
    }
  }
}
