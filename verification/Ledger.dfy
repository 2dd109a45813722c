/**
 The approval ledger: the tables of the Core Store, the operations that change them, and
 what every run of those operations keeps. A table is a map from its primary key; a
 transaction is a function that either returns the new tables or an error (rolled back).
 */
module Ledger {
  import opened Prelude

  type EventId = string
  type SessionId = string
  type ScopeKey = string
  type TokenId = string
  type TxId = string

  // Times are seconds.
  const HOUR: int := 3600
  const DAY: int := 24 * HOUR
  const EVENT_RETENTION: int := 7 * DAY
  const SESSION_RETENTION: int := 7 * DAY
  const PROPOSAL_TTL: int := 24 * HOUR
  const PRUNE_INTERVAL: int := HOUR

  datatype Event = Event(session: SessionId, scope: ScopeKey, created: int)
  datatype Session = Session(scope: ScopeKey, last: Option<EventId>, seen: int)
  /** What a token binds: the digest of the proposed rule, its scope and its target. */
  datatype Proposal = Proposal(digest: Digest, scope: string, target: string)
  datatype Token = Token(event: EventId, session: SessionId, scope: ScopeKey, proposal: Proposal,
                         created: int, expires: int)
  datatype Consumption = Consumption(event: EventId, session: SessionId, scope: ScopeKey,
                                     operation: string, tx: Option<TxId>, at: int)
  datatype Binding = Binding(source: Digest, target: Digest)

  datatype Db = Db(
    events: map<EventId, Event>,
    sessions: map<SessionId, Session>,
    tokens: map<TokenId, Token>,
    consumptions: map<Digest, Consumption>,
    pruned: int,
    binding: Option<Binding>)

  /** What `validate` hands out: the event and the row it was read from. */
  datatype Approval = Approval(event: EventId, session: SessionId, scope: ScopeKey)

  datatype Error =
    | ScopeMismatch | ApprovalInvalid | ProposalPending | ProposalInvalid
    | IntegrityError | BindingMissing

  function EmptyDb(now: int): Db {
    Db(map[], map[], map[], map[], now, None)
  }

  /** The primary key of a consumption row: the hash of the canonical reference. */
  function RefDigest(id: EventId): Digest {
    Sha256("user_prompt:" + id)
  }

  lemma RefDigestInjective(a: EventId, b: EventId)
    requires RefDigest(a) == RefDigest(b)
    ensures a == b
  {
    var p := "user_prompt:";
    assert (p + a)[|p|..] == a && (p + b)[|p|..] == b;
  }

  predicate Consumed(db: Db, id: EventId) {
    exists d | d in db.consumptions :: db.consumptions[d].event == id
  }

  predicate TxRecorded(db: Db, tx: TxId) {
    exists d | d in db.consumptions :: db.consumptions[d].tx == Some(tx)
  }

  // ------------------------------------------------------------------ operations

  /** `DELETE FROM prompt_events`, with the CASCADE and SET NULL of the foreign keys. */
  function DropEvents(db: Db, doomed: set<EventId>): Db {
    db.(events := db.events - doomed,
        tokens := map t | t in db.tokens && db.tokens[t].event !in doomed :: db.tokens[t],
        consumptions := map d | d in db.consumptions && db.consumptions[d].event !in doomed :: db.consumptions[d],
        sessions := map s | s in db.sessions :: ForgetEvent(db.sessions[s], doomed))
  }

  function ForgetEvent(row: Session, doomed: set<EventId>): Session {
    if row.last.Some? && row.last.value in doomed then row.(last := None) else row
  }

  /** The events no token cites that are older than the retention window. */
  function Expired(db: Db, now: int): set<EventId> {
    set e | e in db.events && db.events[e].created < now - EVENT_RETENTION
            && (forall t | t in db.tokens :: db.tokens[t].event != e)
  }

  function Prune(db: Db, now: int): Db {
    if db.pruned > now - PRUNE_INTERVAL then db
    else
      var live := db.(
        tokens := map t | t in db.tokens && db.tokens[t].expires > now :: db.tokens[t],
        sessions := map s | s in db.sessions && db.sessions[s].seen >= now - SESSION_RETENTION :: db.sessions[s]);
      DropEvents(live, Expired(live, now)).(pruned := now)
  }

  function Capture(db: Db, id: EventId, session: SessionId, scope: ScopeKey, now: int): Result<Db, Error> {
    if session in db.sessions && db.sessions[session].scope != scope then Err(ScopeMismatch)
    else if id in db.events then Err(IntegrityError)
    else
      Ok(Prune(db.(events := db.events[id := Event(session, scope, now)],
                   sessions := db.sessions[session := Session(scope, Some(id), now)]), now))
  }

  /** The current prompt of its session, young enough and in the caller's scope. */
  function Resolve(db: Db, id: EventId, scope: ScopeKey, now: int): Result<Approval, Error> {
    if !(id in db.events && db.events[id].session in db.sessions
         && db.sessions[db.events[id].session].last == Some(id)) then Err(ApprovalInvalid)
    else if db.events[id].created < now - EVENT_RETENTION then Err(ApprovalInvalid)
    else if db.events[id].scope != scope then Err(ScopeMismatch)
    else Ok(Approval(id, db.events[id].session, scope))
  }

  function Validate(db: Db, id: EventId, scope: ScopeKey, now: int): Result<Approval, Error> {
    match Resolve(db, id, scope, now)
    case Err(e) => Err(e)
    case Ok(a) =>
      if Consumed(db, id) then Err(ApprovalInvalid) else Ok(a)
  }

  /** The transaction of `create_proposal`; `a` was resolved earlier, perhaps on older tables. */
  function CreateProposal(db: Db, token: TokenId, a: Approval, proposal: Proposal, replace: bool, now: int)
    : Result<Db, Error>
  {
    if (exists t | t in db.tokens :: db.tokens[t].session == a.session) && !replace then Err(ProposalPending)
    else
      var kept := map t | t in db.tokens && db.tokens[t].session != a.session :: db.tokens[t];
      if token in kept || a.event !in db.events then Err(IntegrityError)
      else Ok(db.(tokens := kept[token := Token(a.event, a.session, a.scope, proposal, now, now + PROPOSAL_TTL)]))
  }

  function DeleteProposal(db: Db, token: TokenId): Result<Db, Error> {
    if token in db.tokens then Ok(db.(tokens := db.tokens - {token})) else Err(ProposalInvalid)
  }

  /** What the conditional INSERT asks of the tables at the moment of consumption. */
  predicate Eligible(db: Db, a: Approval, now: int) {
    && a.event in db.events
    && db.events[a.event].session in db.sessions
    && db.sessions[db.events[a.event].session].last == Some(a.event)
    && db.events[a.event].session == a.session
    && db.events[a.event].scope == a.scope
    && db.sessions[db.events[a.event].session].scope == db.events[a.event].scope
    && db.events[a.event].created >= now - EVENT_RETENTION
  }

  function Consume(db: Db, a: Approval, operation: string, tx: Option<TxId>, now: int): Result<Db, Error> {
    if Consumed(db, a.event) then Err(ApprovalInvalid)
    else if !Eligible(db, a, now) then Err(ApprovalInvalid)
    else if RefDigest(a.event) in db.consumptions then Err(ApprovalInvalid)
    else if tx.Some? && TxRecorded(db, tx.value) then Err(ApprovalInvalid)
    else Ok(db.(consumptions := db.consumptions[
                  RefDigest(a.event) := Consumption(a.event, a.session, a.scope, operation, tx, now)]))
  }

  function Rebind(db: Db, after: Digest): Result<Db, Error> {
    if db.binding.None? then Err(BindingMissing) else Ok(db.(binding := Some(Binding(after, after))))
  }

  /** What one database transaction settles: an optional pending token, the approval, the binding. */
  datatype Request = Request(pending: Option<TokenId>, approval: Approval, operation: string,
                             tx: Option<TxId>, rebind: Option<Digest>, now: int)

  function Settle(db: Db, r: Request): Result<Db, Error> {
    var deleted := if r.pending.Some? then DeleteProposal(db, r.pending.value) else Ok(db);
    if deleted.Err? then deleted
    else
      var spent := Consume(deleted.value, r.approval, r.operation, r.tx, r.now);
      if spent.Err? || r.rebind.None? then spent else Rebind(spent.value, r.rebind.value)
  }

  // ------------------------------------------------------------------ what the operations mean, row by row

  /** The session's own current prompt, at most seven days old. */
  ghost predicate CurrentPrompt(db: Db, s: SessionId, id: EventId, now: int) {
    && s in db.sessions && db.sessions[s].last == Some(id)
    && id in db.events && db.events[id].session == s && db.events[id].created >= now - 7 * 24 * 3600
  }

  /** An approval that may be spent: a current prompt, in its own scope and its session's. */
  ghost predicate MayApprove(db: Db, a: Approval, now: int) {
    && CurrentPrompt(db, a.session, a.event, now)
    && db.events[a.event].scope == a.scope && db.sessions[a.session].scope == a.scope
  }

  lemma EligibleMeans(db: Db, a: Approval, now: int)
    ensures Eligible(db, a, now) <==> MayApprove(db, a, now)
  {
  }

  /** A prompt is refused for a session of another scope, and otherwise becomes its session's newest. */
  lemma CaptureExactly(db: Db, id: EventId, session: SessionId, scope: ScopeKey, now: int)
    ensures var r := Capture(db, id, session, scope, now);
            var other := session in db.sessions && db.sessions[session].scope != scope;
            && (r == Err(ScopeMismatch) <==> other)
            && (r == Err(IntegrityError) <==> !other && id in db.events)
            && (r.Ok? <==> !other && id !in db.events)
    ensures var r := Capture(db, id, session, scope, now);
            r.Ok? ==>
              && id in r.value.events && r.value.events[id] == Event(session, scope, now)
              && session in r.value.sessions && r.value.sessions[session] == Session(scope, Some(id), now)
    ensures var r := Capture(db, id, session, scope, now);
            r.Ok? && db.pruned > now - 3600 ==>
              && r.value.events == db.events[id := Event(session, scope, now)]
              && r.value.sessions == db.sessions[session := Session(scope, Some(id), now)]
              && r.value == db.(events := r.value.events, sessions := r.value.sessions)
    ensures var r := Capture(db, id, session, scope, now);
            r.Ok? && db.pruned <= now - 3600 ==>
              r.value == Prune(db.(events := db.events[id := Event(session, scope, now)],
                                   sessions := db.sessions[session := Session(scope, Some(id), now)]), now)
  {
  }

  /**
   A proposal: refused while its session has one, unless that is to be replaced; then the one
   token of its session, good for a day. The tokens of other sessions stay.
   */
  lemma ProposeExactly(db: Db, token: TokenId, a: Approval, proposal: Proposal, replace: bool, now: int)
    ensures var r := CreateProposal(db, token, a, proposal, replace, now);
            var pending := exists t :: t in db.tokens && db.tokens[t].session == a.session;
            && (r == Err(ProposalPending) <==> pending && !replace)
            && (r == Err(IntegrityError) <==>
                  !(pending && !replace)
                  && ((token in db.tokens && db.tokens[token].session != a.session) || a.event !in db.events))
            && (r.Err? ==> r.error in {ProposalPending, IntegrityError})
    ensures var r := CreateProposal(db, token, a, proposal, replace, now);
            r.Ok? ==>
              && r.value == db.(tokens := r.value.tokens) && token in r.value.tokens
              && (forall t :: t in r.value.tokens && t != token <==>
                    t in db.tokens && t != token && db.tokens[t].session != a.session)
              && (forall t :: t in r.value.tokens && t != token ==> r.value.tokens[t] == db.tokens[t])
              && GoodForADay(r.value.tokens[token], a, proposal, now)
  {
  }

  ghost predicate GoodForADay(t: Token, a: Approval, proposal: Proposal, now: int) {
    && t.event == a.event && t.session == a.session && t.scope == a.scope && t.proposal == proposal
    && t.created == now && t.expires == now + 24 * 3600
  }

  /** A settlement goes through exactly when all three of its parts do. */
  lemma SettleExactly(db: Db, r: Request)
    requires Wellformed(db)
    ensures Settle(db, r).Ok? <==>
            && (r.pending.Some? ==> r.pending.value in db.tokens)
            && MayApprove(db, r.approval, r.now)
            && (forall d :: d in db.consumptions ==> db.consumptions[d].event != r.approval.event)
            && (r.tx.Some? ==> forall d :: d in db.consumptions ==> db.consumptions[d].tx != r.tx)
            && (r.rebind.Some? ==> db.binding.Some?)
    ensures Settle(db, r).Ok? ==>
              && Settle(db, r).value.tokens == (if r.pending.Some? then db.tokens - {r.pending.value} else db.tokens)
              && Settle(db, r).value.pruned == db.pruned
    ensures Settle(db, r) == Err(ProposalInvalid) <==> r.pending.Some? && r.pending.value !in db.tokens
    ensures Settle(db, r) == Err(BindingMissing) ==> r.rebind.Some? && db.binding.None?
  {
    EligibleMeans(db, r.approval, r.now);
    if RefDigest(r.approval.event) in db.consumptions {
      RefDigestInjective(r.approval.event, db.consumptions[RefDigest(r.approval.event)].event);
    }
  }

  // ------------------------------------------------------------------ runs

  /** One transaction of any executor. Prompt ids are drawn fresh; a clash is no step. */
  datatype Op =
    | DoCapture(id: EventId, session: SessionId, scope: ScopeKey, now: int)
    | DoPropose(token: TokenId, approval: Approval, proposal: Proposal, replace: bool, now: int)
    | DoSettle(request: Request)

  /** The tables, every prompt id ever drawn, and every consumption ever made, in order. */
  datatype Sys = Sys(db: Db, issued: set<EventId>, history: seq<EventId>)

  function Start(db: Db): Sys {
    Sys(db, db.events.Keys, [])
  }

  function Attempt(db: Db, op: Op): Result<Db, Error> {
    match op
    case DoCapture(id, session, scope, now) => Capture(db, id, session, scope, now)
    case DoPropose(token, a, proposal, replace, now) => CreateProposal(db, token, a, proposal, replace, now)
    case DoSettle(r) => Settle(db, r)
  }

  function Exec(s: Sys, op: Op): Sys {
    if op.DoCapture? && op.id in s.issued then s
    else
      match Attempt(s.db, op)
      case Err(_) => s
      case Ok(db) =>
        Sys(db,
            if op.DoCapture? then s.issued + {op.id} else s.issued,
            if op.DoSettle? then s.history + [op.request.approval.event] else s.history)
  }

  function Run(s: Sys, ops: seq<Op>): Sys {
    if ops == [] then s else Exec(Run(s, ops[..|ops| - 1]), ops[|ops| - 1])
  }

  // ------------------------------------------------------------------ invariants

  /** Keys and foreign keys: what the schema and the writers keep in every Store. */
  ghost predicate Wellformed(db: Db) {
    && (forall s :: s in db.sessions && db.sessions[s].last.Some? ==> db.sessions[s].last.value in db.events)
    && (forall t :: t in db.tokens ==> db.tokens[t].event in db.events)
    && (forall t, u :: t in db.tokens && u in db.tokens && db.tokens[t].session == db.tokens[u].session ==> t == u)
    && (forall d :: d in db.consumptions ==>
          db.consumptions[d].event in db.events && d == RefDigest(db.consumptions[d].event))
    && (forall d, e ::
          (d in db.consumptions && e in db.consumptions
           && db.consumptions[d].tx.Some? && db.consumptions[d].tx == db.consumptions[e].tx) ==> d == e)
  }

  /** Every session points at its own newest prompt. */
  ghost predicate Current(db: Db) {
    forall s :: s in db.sessions ==> PointsHome(db, s)
  }

  ghost predicate PointsHome(db: Db, s: SessionId)
    requires s in db.sessions
  {
    var row := db.sessions[s];
    && row.last.Some?
    && row.last.value in db.events
    && db.events[row.last.value] == Event(s, row.scope, row.seen)
  }

  ghost predicate Inv(s: Sys) {
    && Wellformed(s.db)
    && s.db.events.Keys <= s.issued
    && (forall i :: 0 <= i < |s.history| ==> s.history[i] in s.issued && SpentOrGone(s.db, s.history[i]))
    && Distinct(s.history)
  }

  ghost predicate SpentOrGone(db: Db, id: EventId) {
    Consumed(db, id) || id !in db.events
  }

  // ------------------------------------------------------------------ preservation

  lemma PruneWellformed(db: Db, now: int)
    requires Wellformed(db)
    ensures Wellformed(Prune(db, now))
    ensures Prune(db, now).events.Keys <= db.events.Keys
    ensures Prune(db, now).binding == db.binding
  {
  }

  lemma PruneCurrent(db: Db, now: int)
    requires Wellformed(db) && Current(db)
    ensures Current(Prune(db, now))
  {
    var after := Prune(db, now);
    forall s | s in after.sessions
      ensures PointsHome(after, s)
    {
      assert s in db.sessions && PointsHome(db, s);
    }
  }

  /** A consumption row goes only when its event goes. */
  lemma PruneKeepsRows(db: Db, now: int, d: Digest)
    requires d in db.consumptions
    ensures d in Prune(db, now).consumptions ==> Prune(db, now).consumptions[d] == db.consumptions[d]
    ensures d in Prune(db, now).consumptions || db.consumptions[d].event !in Prune(db, now).events
  {
  }

  lemma CaptureKeeps(db: Db, id: EventId, session: SessionId, scope: ScopeKey, now: int)
    requires Wellformed(db) && Capture(db, id, session, scope, now).Ok?
    ensures Wellformed(Capture(db, id, session, scope, now).value)
    ensures Capture(db, id, session, scope, now).value.events.Keys <= db.events.Keys + {id}
    ensures Current(db) ==> Current(Capture(db, id, session, scope, now).value)
  {
    var mid := db.(events := db.events[id := Event(session, scope, now)],
                   sessions := db.sessions[session := Session(scope, Some(id), now)]);
    PruneWellformed(mid, now);
    if Current(db) {
      forall s | s in mid.sessions ensures PointsHome(mid, s) {
        if s != session { assert PointsHome(db, s); }
      }
      PruneCurrent(mid, now);
    }
  }

  lemma ProposeKeeps(db: Db, token: TokenId, a: Approval, proposal: Proposal, replace: bool, now: int)
    requires Wellformed(db) && CreateProposal(db, token, a, proposal, replace, now).Ok?
    ensures Wellformed(CreateProposal(db, token, a, proposal, replace, now).value)
  {
  }

  lemma ConsumeKeeps(db: Db, a: Approval, operation: string, tx: Option<TxId>, now: int)
    requires Wellformed(db) && Consume(db, a, operation, tx, now).Ok?
    ensures Wellformed(Consume(db, a, operation, tx, now).value)
  {
    var row := Consumption(a.event, a.session, a.scope, operation, tx, now);
    var after := Consume(db, a, operation, tx, now).value;
    assert after == db.(consumptions := db.consumptions[RefDigest(a.event) := row]);
    forall d | d in db.consumptions
      ensures db.consumptions[d].event != a.event && (tx.Some? ==> db.consumptions[d].tx != tx)
    {
    }
  }

  /** Settling writes one row, under the approval's own key, and touches no event or session. */
  lemma SettleEffect(db: Db, r: Request)
    requires Settle(db, r).Ok?
    ensures Settle(db, r).value.events == db.events && Settle(db, r).value.sessions == db.sessions
    ensures Settle(db, r).value.consumptions ==
            db.consumptions[RefDigest(r.approval.event) :=
              Consumption(r.approval.event, r.approval.session, r.approval.scope, r.operation, r.tx, r.now)]
    ensures !Consumed(db, r.approval.event) && Eligible(db, r.approval, r.now)
    ensures RefDigest(r.approval.event) !in db.consumptions
    ensures r.tx.Some? ==> !TxRecorded(db, r.tx.value)
    ensures Settle(db, r).value.binding ==
            if r.rebind.Some? then Some(Binding(r.rebind.value, r.rebind.value)) else db.binding
    ensures r.rebind.Some? ==> db.binding.Some?
  {
    var mid := if r.pending.Some? then DeleteProposal(db, r.pending.value).value else db;
    assert Consume(mid, r.approval, r.operation, r.tx, r.now).Ok?;
  }

  lemma SettleKeeps(db: Db, r: Request)
    requires Wellformed(db) && Settle(db, r).Ok?
    ensures Wellformed(Settle(db, r).value)
  {
    var mid := if r.pending.Some? then DeleteProposal(db, r.pending.value).value else db;
    assert Wellformed(mid);
    ConsumeKeeps(mid, r.approval, r.operation, r.tx, r.now);
  }

  // ------------------------------------------------------------------ what every run keeps

  lemma ExecInv(s: Sys, op: Op)
    requires Inv(s)
    ensures Inv(Exec(s, op))
  {
    var s' := Exec(s, op);
    if s' == s { return; }
    match op
    case DoCapture(id, session, scope, now) =>
      CaptureKeeps(s.db, id, session, scope, now);
      forall i | 0 <= i < |s.history| ensures SpentOrGone(s'.db, s.history[i]) {
        CaptureKeepsSpent(s.db, op, s.history[i]);
      }
    case DoPropose(token, a, proposal, replace, now) =>
      ProposeKeeps(s.db, token, a, proposal, replace, now);
      forall i | 0 <= i < |s.history| ensures SpentOrGone(s'.db, s.history[i]) {
        if d :| d in s.db.consumptions && s.db.consumptions[d].event == s.history[i] {
          assert d in s'.db.consumptions && s'.db.consumptions[d].event == s.history[i];
        }
      }
    case DoSettle(r) =>
      SettleKeeps(s.db, r);
      SettleEffect(s.db, r);
      SettleHistory(s, r);
  }

  /** A spent prompt stays spent or leaves with its row, whatever is captured and pruned. */
  lemma CaptureKeepsSpent(db: Db, op: Op, e: EventId)
    requires Wellformed(db) && op.DoCapture? && e != op.id
    requires Attempt(db, op).Ok? && SpentOrGone(db, e)
    ensures SpentOrGone(Attempt(db, op).value, e)
  {
    var after := Attempt(db, op).value;
    var mid := db.(events := db.events[op.id := Event(op.session, op.scope, op.now)],
                   sessions := db.sessions[op.session := Session(op.scope, Some(op.id), op.now)]);
    PruneWellformed(mid, op.now);
    if e in after.events {
      var d :| d in db.consumptions && db.consumptions[d].event == e;
      PruneKeepsRows(mid, op.now, d);
      assert d in after.consumptions && after.consumptions[d].event == e;
    }
  }

  lemma SettleHistory(s: Sys, r: Request)
    requires Inv(s) && Settle(s.db, r).Ok?
    ensures var s' := Exec(s, DoSettle(r));
            && Distinct(s'.history)
            && forall i :: 0 <= i < |s'.history| ==> s'.history[i] in s'.issued && SpentOrGone(s'.db, s'.history[i])
  {
    SettleEffect(s.db, r);
    var s' := Exec(s, DoSettle(r));
    assert RefDigest(r.approval.event) in s'.db.consumptions;
    forall i | 0 <= i < |s.history|
      ensures s.history[i] != r.approval.event && SpentOrGone(s'.db, s.history[i])
    {
      assert SpentOrGone(s.db, s.history[i]);
      if d :| d in s.db.consumptions && s.db.consumptions[d].event == s.history[i] {
        assert d in s'.db.consumptions && s'.db.consumptions[d].event == s.history[i];
      }
    }
  }

  lemma {:induction false} RunInv(s: Sys, ops: seq<Op>)
    requires Inv(s)
    ensures Inv(Run(s, ops))
  {
    if ops != [] {
      RunInv(s, ops[..|ops| - 1]);
      ExecInv(Run(s, ops[..|ops| - 1]), ops[|ops| - 1]);
    }
  }

  /** Over any run of any executors, pruning included, no prompt is consumed twice. */
  lemma ConsumedAtMostOnce(db: Db, ops: seq<Op>)
    requires Wellformed(db)
    ensures Distinct(Run(Start(db), ops).history)
  {
    RunInv(Start(db), ops);
  }

  /** What a consumption recorded during a run could rely on when it happened. */
  ghost predicate SpentProperly(db: Db, op: Op) {
    && op.DoSettle? && MayApprove(db, op.request.approval, op.request.now)
    && forall d :: d in db.consumptions ==> db.consumptions[d].event != op.request.approval.event
  }

  /**
   Each entry of the history was written by a step of the run, made on tables where that prompt
   was unspent, the current prompt of its session, in scope and inside the retention window.
   */
  lemma {:induction false} ConsumedOnlyWhenCurrent(s: Sys, ops: seq<Op>, k: nat)
    requires |s.history| <= k < |Run(s, ops).history|
    ensures exists i :: 0 <= i < |ops| && SpentProperly(Run(s, ops[..i]).db, ops[i])
                        && ops[i].request.approval.event == Run(s, ops).history[k]
  {
    var n := |ops| - 1;
    var before := Run(s, ops[..n]);
    if k < |before.history| {
      ConsumedOnlyWhenCurrent(s, ops[..n], k);
      var i :| 0 <= i < n && SpentProperly(Run(s, ops[..n][..i]).db, ops[..n][i])
               && ops[..n][i].request.approval.event == before.history[k];
      assert ops[..n][..i] == ops[..i];
      assert SpentProperly(Run(s, ops[..i]).db, ops[i]);
    } else {
      SettleEffect(before.db, ops[n].request);
      EligibleMeans(before.db, ops[n].request.approval, ops[n].request.now);
      assert SpentProperly(Run(s, ops[..n]).db, ops[n]);
    }
  }

  lemma {:induction false} RunCurrent(s: Sys, ops: seq<Op>)
    requires Inv(s) && Current(s.db)
    ensures Current(Run(s, ops).db)
  {
    if ops != [] {
      var n := |ops| - 1;
      var before := Run(s, ops[..n]);
      RunInv(s, ops[..n]);
      RunCurrent(s, ops[..n]);
      match ops[n]
      case DoCapture(id, session, scope, now) =>
        if Capture(before.db, id, session, scope, now).Ok? { CaptureKeeps(before.db, id, session, scope, now); }
      case DoPropose(_, _, _, _, _) =>
        assert forall t :: t in Exec(before, ops[n]).db.sessions ==> PointsHome(before.db, t);
      case DoSettle(r) =>
        if Settle(before.db, r).Ok? { SettleEffect(before.db, r); }
        assert forall t :: t in Exec(before, ops[n]).db.sessions ==> PointsHome(before.db, t);
    }
  }

  /** A token that has not expired stays through any number of captures with their pruning. */
  lemma {:induction false} TokenStays(s: Sys, ops: seq<Op>, t: TokenId)
    requires Inv(s) && t in s.db.tokens
    requires forall i :: 0 <= i < |ops| ==> ops[i].DoCapture? && ops[i].now < s.db.tokens[t].expires
    ensures t in Run(s, ops).db.tokens && Run(s, ops).db.tokens[t] == s.db.tokens[t]
  {
    if ops != [] {
      var n := |ops| - 1;
      TokenStays(s, ops[..n], t);
      RunInv(s, ops[..n]);
      var before, op := Run(s, ops[..n]), ops[n];
      var mid := before.db.(events := before.db.events[op.id := Event(op.session, op.scope, op.now)],
                            sessions := before.db.sessions[op.session := Session(op.scope, Some(op.id), op.now)]);
      if Capture(before.db, op.id, op.session, op.scope, op.now).Ok? {
        assert Wellformed(mid);
        PruneWaits(mid, op.now);
        if mid.pruned <= op.now - 3600 { PruneRemovesExactly(mid, op.now); }
      }
    }
  }

  /** Every consumption a run leaves is one it recorded, or one that was there before it. */
  lemma {:induction false} RowsAreHistory(s: Sys, ops: seq<Op>, d: Digest)
    requires d in Run(s, ops).db.consumptions
    ensures d in s.db.consumptions || Run(s, ops).db.consumptions[d].event in Run(s, ops).history
    ensures d in s.db.consumptions ==>
              Run(s, ops).db.consumptions[d] == s.db.consumptions[d]
              || Run(s, ops).db.consumptions[d].event in Run(s, ops).history
  {
    if ops != [] {
      var n := |ops| - 1;
      var before, after, op := Run(s, ops[..n]), Run(s, ops), ops[n];
      if op.DoSettle? && after != before { SettleEffect(before.db, op.request); }
      if d in before.db.consumptions && after.db.consumptions[d] == before.db.consumptions[d] {
        RowsAreHistory(s, ops[..n], d);
        assert before.history <= after.history;
      }
    }
  }

  /** A Store that began empty: sessions point at their own newest prompt, one token a session. */
  lemma StoreConsistent(start: int, ops: seq<Op>)
    ensures var db := Run(Start(EmptyDb(start)), ops).db;
            && (forall s :: s in db.sessions ==> PointsHome(db, s))
            && (forall t, u :: t in db.tokens && u in db.tokens && db.tokens[t].session == db.tokens[u].session ==>
                  t == u)
            && (forall t :: t in db.tokens ==> db.tokens[t].event in db.events)
  {
    RunInv(Start(EmptyDb(start)), ops);
    RunCurrent(Start(EmptyDb(start)), ops);
  }

  /** Within an hour of the last pruning nothing is pruned. */
  lemma PruneWaits(db: Db, now: int)
    ensures db.pruned > now - 3600 ==> Prune(db, now) == db
    ensures db.pruned <= now - 3600 ==> Prune(db, now).pruned == now && Prune(db, now).binding == db.binding
  {
  }

  /** A session is kept exactly when it was seen in the last seven days, and forgets a prompt that is gone. */
  lemma PruneKeepsSessions(db: Db, now: int)
    requires Wellformed(db) && db.pruned <= now - 3600
    ensures var after := Prune(db, now);
            && (forall s :: s in after.sessions <==> s in db.sessions && db.sessions[s].seen >= now - 7 * 24 * 3600)
            && (forall s :: s in after.sessions ==>
                  after.sessions[s] == db.sessions[s].(last := after.sessions[s].last))
            && (forall s :: s in after.sessions ==>
                  after.sessions[s].last ==
                  if db.sessions[s].last.Some? && db.sessions[s].last.value in after.events then db.sessions[s].last
                  else None)
  {
  }

  /**
   Pruning, exactly. A token leaves only by expiring; an event leaves only when it is past the
   window and cited by no unexpired token; a consumption leaves only with its event.
   */
  lemma PruneRemovesExactly(db: Db, now: int)
    requires Wellformed(db) && db.pruned <= now - 3600
    ensures var after := Prune(db, now);
            && (forall t :: t in after.tokens <==> t in db.tokens && db.tokens[t].expires > now)
            && (forall t :: t in after.tokens ==> after.tokens[t] == db.tokens[t] && db.tokens[t].event in after.events)
            && (forall e :: e in after.events <==>
                  e in db.events && (db.events[e].created >= now - 7 * 24 * 3600
                                     || exists t :: t in after.tokens && db.tokens[t].event == e))
            && (forall e :: e in after.events ==> after.events[e] == db.events[e])
            && (forall d :: d in after.consumptions <==>
                  d in db.consumptions && db.consumptions[d].event in after.events)
            && (forall d :: d in after.consumptions ==> after.consumptions[d] == db.consumptions[d])
  {
    var live := db.(
      tokens := map t | t in db.tokens && db.tokens[t].expires > now :: db.tokens[t],
      sessions := map s | s in db.sessions && db.sessions[s].seen >= now - SESSION_RETENTION :: db.sessions[s]);
    var doomed := Expired(live, now);
    var after := Prune(db, now);
    assert after == DropEvents(live, doomed).(pruned := now);
    forall t ensures t in after.tokens <==> t in db.tokens && db.tokens[t].expires > now {
      if t in live.tokens { assert live.tokens[t].event !in doomed; }
    }
  }

  // ------------------------------------------------------------------ prompts that can never approve again

  /** Absent, spent, or the current prompt of no session. */
  ghost predicate Dead(db: Db, id: EventId) {
    id !in db.events || Consumed(db, id) || NotCurrent(db, id)
  }

  ghost predicate NotCurrent(db: Db, id: EventId) {
    forall s :: s in db.sessions ==> db.sessions[s].last != Some(id)
  }

  lemma DeadNeverValidates(db: Db, id: EventId, scope: ScopeKey, now: int)
    requires Dead(db, id)
    ensures Validate(db, id, scope, now).Err?
  {
    if d :| d in db.consumptions && db.consumptions[d].event == id { }
  }

  lemma DeadNeverSettles(db: Db, r: Request)
    requires Dead(db, r.approval.event)
    ensures Settle(db, r).Err?
  {
    if Settle(db, r).Ok? { SettleEffect(db, r); }
  }

  lemma ExecDead(s: Sys, op: Op, id: EventId)
    requires Inv(s) && id in s.issued && Dead(s.db, id)
    ensures Inv(Exec(s, op)) && id in Exec(s, op).issued && Dead(Exec(s, op).db, id)
  {
    ExecInv(s, op);
    var s' := Exec(s, op);
    if s' == s { return; }
    match op
    case DoCapture(new_, session, scope, now) =>
      CaptureKeeps(s.db, new_, session, scope, now);
      if SpentOrGone(s.db, id) {
        CaptureKeepsSpent(s.db, op, id);
      } else {
        assert NotCurrent(s'.db, id);
      }
    case DoPropose(_, _, _, _, _) =>
      assert s'.db.events == s.db.events && s'.db.sessions == s.db.sessions;
      assert s'.db.consumptions == s.db.consumptions;
    case DoSettle(r) =>
      SettleEffect(s.db, r);
      if d :| d in s.db.consumptions && s.db.consumptions[d].event == id {
        assert d in s'.db.consumptions && s'.db.consumptions[d].event == id;
      }
  }

  /** Once dead, a prompt stays dead over every later run, and no executor can spend it. */
  lemma {:induction false} DeadForever(s: Sys, ops: seq<Op>, id: EventId)
    requires Inv(s) && id in s.issued && Dead(s.db, id)
    ensures Inv(Run(s, ops)) && Dead(Run(s, ops).db, id) && id in Run(s, ops).issued
    ensures forall scope, now :: Validate(Run(s, ops).db, id, scope, now).Err?
    ensures forall r: Request :: r.approval.event == id ==> Settle(Run(s, ops).db, r).Err?
  {
    if ops != [] {
      DeadForever(s, ops[..|ops| - 1], id);
      ExecDead(Run(s, ops[..|ops| - 1]), ops[|ops| - 1], id);
    }
    forall scope, now ensures Validate(Run(s, ops).db, id, scope, now).Err? {
      DeadNeverValidates(Run(s, ops).db, id, scope, now);
    }
    forall r: Request | r.approval.event == id ensures Settle(Run(s, ops).db, r).Err? {
      DeadNeverSettles(Run(s, ops).db, r);
    }
  }
}
