/**
 Migration of a legacy Store: events, sessions and consumptions are copied row by row, and no
 prompt that could have been spent in the legacy Store can approve anything in the new one.
 */
module Cutover {
  import opened Prelude
  import L = Ledger

  /** A legacy event row; `digest` is false when no prompt hash can be read from it. */
  datatype LegacyEvent = LegacyEvent(id: L.EventId, prompt: bool, session: L.SessionId, scope: L.ScopeKey,
                                     digest: bool, created: int)
  datatype LegacySession = LegacySession(session: L.SessionId, scope: L.ScopeKey, last: Option<L.EventId>, seen: int)

  /** A legacy state row whose key is `approval_ref:` and a hash. */
  datatype LegacyConsumption = LegacyConsumption(key: Digest, operation: string, updated: int)

  datatype Legacy = Legacy(
    events: seq<LegacyEvent>,
    sessions: seq<LegacySession>,
    state: seq<LegacyConsumption>,
    binding: Option<L.Binding>)

  /** Primary keys of the legacy tables. */
  ghost predicate Keyed(s: Legacy) {
    && (forall i, j :: 0 <= i < j < |s.events| ==> s.events[i].id != s.events[j].id)
    && (forall i, j :: 0 <= i < j < |s.sessions| ==> s.sessions[i].session != s.sessions[j].session)
    && (forall i, j :: 0 <= i < j < |s.state| ==> s.state[i].key != s.state[j].key)
  }

  /** The consumption can be attributed: its key is the canonical hash of a known prompt. */
  ghost predicate Attributable(s: Legacy, key: Digest) {
    exists i :: 0 <= i < |s.events| && s.events[i].prompt && L.RefDigest(s.events[i].id) == key
  }

  /** Spent under its own key, or possibly spent: an unattributable key is not older than the prompt. */
  ghost predicate SpentInLegacy(s: Legacy, e: LegacyEvent) {
    || (exists i :: 0 <= i < |s.state| && s.state[i].key == L.RefDigest(e.id))
    || (exists i :: 0 <= i < |s.state| && !Attributable(s, s.state[i].key) && s.state[i].updated >= e.created)
  }

  // ------------------------------------------------------------------ the copies

  ghost predicate Copied(e: LegacyEvent, cutoff: int) {
    e.prompt && e.created >= cutoff && e.digest
  }

  ghost predicate EventsCopied(s: Legacy, events: map<L.EventId, L.Event>, cutoff: int) {
    && (forall id :: id in events ==>
          exists i :: 0 <= i < |s.events| && s.events[i].id == id && Copied(s.events[i], cutoff))
    && (forall i :: 0 <= i < |s.events| && Copied(s.events[i], cutoff) ==>
          s.events[i].id in events
          && events[s.events[i].id] == L.Event(s.events[i].session, s.events[i].scope, s.events[i].created))
  }

  method CopyEvents(s: Legacy, cutoff: int) returns (events: map<L.EventId, L.Event>, count: nat)
    requires Keyed(s)
    ensures EventsCopied(s, events, cutoff)
    ensures count == |events|
  {
    events, count := map[], 0;
    for k := 0 to |s.events|
      invariant CopiedUpTo(s, events, cutoff, k) && count == |events|
    {
      var row := s.events[k];
      CopiedOne(s, events, cutoff, k);
      if row.prompt && row.created >= cutoff && row.digest {
        events := events[row.id := L.Event(row.session, row.scope, row.created)];
        count := count + 1;
      }
    }
  }

  ghost predicate CopiedUpTo(s: Legacy, events: map<L.EventId, L.Event>, cutoff: int, k: int)
    requires 0 <= k <= |s.events|
  {
    && (forall id :: id in events ==> exists i :: 0 <= i < k && s.events[i].id == id && Copied(s.events[i], cutoff))
    && (forall i :: 0 <= i < k && Copied(s.events[i], cutoff) ==>
          s.events[i].id in events
          && events[s.events[i].id] == L.Event(s.events[i].session, s.events[i].scope, s.events[i].created))
  }

  lemma CopiedOne(s: Legacy, events: map<L.EventId, L.Event>, cutoff: int, k: nat)
    requires Keyed(s) && k < |s.events| && CopiedUpTo(s, events, cutoff, k)
    ensures s.events[k].id !in events
    ensures var row := s.events[k];
            var copy := L.Event(row.session, row.scope, row.created);
            CopiedUpTo(s, if Copied(row, cutoff) then events[row.id := copy] else events, cutoff, k + 1)
  {
    var row := s.events[k];
    forall i | 0 <= i < k ensures s.events[i].id != row.id { }
  }

  ghost predicate LatestUnknown(s: Legacy, latest: Option<int>) {
    && (forall i :: 0 <= i < |s.state| && !Attributable(s, s.state[i].key) ==>
          latest.Some? && s.state[i].updated <= latest.value)
    && (latest.Some? ==>
          exists i :: 0 <= i < |s.state| && !Attributable(s, s.state[i].key) && s.state[i].updated == latest.value)
  }

  /** The latest time of a consumption no known prompt explains. */
  method ConsumptionCutoff(s: Legacy) returns (latest: Option<int>)
    ensures LatestUnknown(s, latest)
  {
    var known: set<Digest> := {};
    for k := 0 to |s.events|
      invariant forall key :: key in known <==>
                  exists i :: 0 <= i < k && s.events[i].prompt && L.RefDigest(s.events[i].id) == key
    {
      if s.events[k].prompt { known := known + {L.RefDigest(s.events[k].id)}; }
    }
    assert forall key :: key in known <==> Attributable(s, key);
    latest := None;
    for k := 0 to |s.state|
      invariant forall i :: 0 <= i < k && !Attributable(s, s.state[i].key) ==>
                  latest.Some? && s.state[i].updated <= latest.value
      invariant latest.Some? ==>
                  exists i :: 0 <= i < k && !Attributable(s, s.state[i].key) && s.state[i].updated == latest.value
    {
      if s.state[k].key !in known && (latest.None? || latest.value < s.state[k].updated) {
        latest := Some(s.state[k].updated);
      }
    }
  }

  /** The pointer survives only to a copied prompt newer than every unattributable consumption. */
  ghost function KeptPointer(row: LegacySession, events: map<L.EventId, L.Event>, unknown: Option<int>)
    : Option<L.EventId>
  {
    if row.last.Some? && row.last.value in events && (unknown.None? || events[row.last.value].created > unknown.value)
    then row.last else None
  }

  ghost predicate SessionsCopied(s: Legacy, sessions: map<L.SessionId, L.Session>, events: map<L.EventId, L.Event>,
                                 latest: Option<int>, cutoff: int) {
    && (forall x :: x in sessions ==>
          exists i :: 0 <= i < |s.sessions| && s.sessions[i].session == x && s.sessions[i].seen >= cutoff)
    && (forall i :: 0 <= i < |s.sessions| && s.sessions[i].seen >= cutoff ==>
          s.sessions[i].session in sessions && sessions[s.sessions[i].session] ==
          L.Session(s.sessions[i].scope, KeptPointer(s.sessions[i], events, latest), s.sessions[i].seen))
  }

  method CopySessions(s: Legacy, events: map<L.EventId, L.Event>, cutoff: int)
    returns (sessions: map<L.SessionId, L.Session>)
    requires Keyed(s)
    ensures exists latest :: LatestUnknown(s, latest) && SessionsCopied(s, sessions, events, latest, cutoff)
  {
    var latest := ConsumptionCutoff(s);
    var recent := set id | id in events && (latest.None? || events[id].created > latest.value);
    sessions := map[];
    for k := 0 to |s.sessions|
      invariant forall x :: x in sessions <==>
                  exists i :: 0 <= i < k && s.sessions[i].session == x && s.sessions[i].seen >= cutoff
      invariant forall i :: 0 <= i < k && s.sessions[i].seen >= cutoff ==>
                  s.sessions[i].session in sessions && sessions[s.sessions[i].session] ==
                  L.Session(s.sessions[i].scope, KeptPointer(s.sessions[i], events, latest), s.sessions[i].seen)
    {
      var row := s.sessions[k];
      if row.seen >= cutoff {
        var pointer := if row.last.Some? && row.last.value in recent then row.last else None;
        sessions := sessions[row.session := L.Session(row.scope, pointer, row.seen)];
      }
    }
    assert SessionsCopied(s, sessions, events, latest, cutoff);
  }

  ghost predicate RowsCopied(s: Legacy, events: map<L.EventId, L.Event>, rows: map<Digest, L.Consumption>) {
    && (forall d :: d in rows ==>
          rows[d].event in events && d == L.RefDigest(rows[d].event) && rows[d].tx.None? && StateHas(s, d))
    && (forall id :: id in events && StateHas(s, L.RefDigest(id)) ==>
          L.RefDigest(id) in rows && rows[L.RefDigest(id)].event == id)
    && (forall d :: d in rows ==> rows[d].event in events && RowFrom(s, events[rows[d].event], d, rows[d]))
  }

  /** The row says what the legacy state said, or only that it is from there, and when. */
  ghost predicate RowFrom(s: Legacy, e: L.Event, key: Digest, row: L.Consumption) {
    && row.session == e.session && row.scope == e.scope && row.tx.None?
    && exists i :: 0 <= i < |s.state| && s.state[i].key == key && row.at == s.state[i].updated
                   && row.operation == if s.state[i].operation != "" then s.state[i].operation else "legacy"
  }

  method CopyApprovals(s: Legacy, events: map<L.EventId, L.Event>)
    returns (rows: map<Digest, L.Consumption>, copied: nat)
    requires Keyed(s)
    ensures RowsCopied(s, events, rows)
    ensures copied == |rows|
  {
    var state := StateByKey(s);
    rows, copied := map[], 0;
    var pending := events.Keys;
    while pending != {}
      invariant pending <= events.Keys && copied == |rows|
      invariant RowsUpTo(s, events, rows, pending)
      invariant forall d :: d in rows ==> rows[d].event in events && RowFrom(s, events[rows[d].event], d, rows[d])
      decreases pending
    {
      var id :| id in pending;
      var key := L.RefDigest(id);
      if key in state {
        var row := L.Consumption(id, events[id].session, events[id].scope,
                                 if state[key].operation == "" then "legacy" else state[key].operation,
                                 None, state[key].updated);
        assert RowFrom(s, events[id], key, row);
        RowsUpToNext(s, events, rows, pending, id, row);
        rows := rows[key := row];
        copied := copied + 1;
      }
      pending := pending - {id};
    }
  }

  ghost predicate RowsUpTo(s: Legacy, events: map<L.EventId, L.Event>, rows: map<Digest, L.Consumption>,
                               pending: set<L.EventId>) {
    && (forall d :: d in rows ==> rows[d].event in events.Keys - pending && d == L.RefDigest(rows[d].event)
                                  && rows[d].tx.None? && StateHas(s, d))
    && (forall id :: id in events && id !in pending && StateHas(s, L.RefDigest(id)) ==>
          L.RefDigest(id) in rows && rows[L.RefDigest(id)].event == id)
  }

  lemma RowsUpToNext(s: Legacy, events: map<L.EventId, L.Event>, rows: map<Digest, L.Consumption>,
                     pending: set<L.EventId>, id: L.EventId, row: L.Consumption)
    requires RowsUpTo(s, events, rows, pending) && id in pending && id in events
    requires row.event == id && row.tx.None? && StateHas(s, L.RefDigest(id))
    ensures L.RefDigest(id) !in rows
    ensures RowsUpTo(s, events, rows[L.RefDigest(id) := row], pending - {id})
  {
    hide StateHas;
    forall other | other in events && other != id ensures L.RefDigest(other) != L.RefDigest(id) {
      if L.RefDigest(other) == L.RefDigest(id) { L.RefDigestInjective(id, other); }
    }
  }

  ghost predicate StateHas(s: Legacy, key: Digest) {
    exists i :: 0 <= i < |s.state| && s.state[i].key == key
  }

  method StateByKey(s: Legacy) returns (m: map<Digest, LegacyConsumption>)
    ensures forall key :: key in m <==> StateHas(s, key)
    ensures forall key :: key in m ==> m[key] in s.state && m[key].key == key
  {
    m := map[];
    for k := 0 to |s.state|
      invariant forall key :: key in m ==> m[key] in s.state && m[key].key == key
      invariant forall key :: key in m <==> exists i :: 0 <= i < k && s.state[i].key == key
    {
      m := m[s.state[k].key := s.state[k]];
    }
  }

  // ------------------------------------------------------------------ the migration

  /** What the new Store holds, stated against the legacy rows; `approval` paid for the cutover. */
  ghost predicate Migrated(s: Legacy, db: L.Db, approval: L.EventId, now: int) {
    && (forall i :: 0 <= i < |s.events| && Copied(s.events[i], now - 7 * 24 * 3600) ==>
          s.events[i].id in db.events
          && db.events[s.events[i].id] == L.Event(s.events[i].session, s.events[i].scope, s.events[i].created))
    && (forall id :: id in db.events ==>
          exists i :: 0 <= i < |s.events| && s.events[i].id == id && Copied(s.events[i], now - 7 * 24 * 3600))
    && (forall x :: x in db.sessions ==>
          exists i :: 0 <= i < |s.sessions| && s.sessions[i].session == x && SessionCopied(s, db, i, now))
    && (forall i :: 0 <= i < |s.sessions| && s.sessions[i].seen >= now - 7 * 24 * 3600 ==>
          SessionCopied(s, db, i, now))
    && (forall id :: L.Consumed(db, id) <==> id in db.events && (id == approval || StateHas(s, L.RefDigest(id))))
    && (forall d :: d in db.consumptions && db.consumptions[d].event != approval ==>
          db.consumptions[d].event in db.events
          && RowFrom(s, db.events[db.consumptions[d].event], d, db.consumptions[d]))
    && db.tokens == map[] && db.pruned == now && L.Wellformed(db)
  }

  /** No unattributable consumption is stamped at or after `created`. */
  ghost predicate NewerThanUnknown(s: Legacy, created: int) {
    forall i :: 0 <= i < |s.state| && !Attributable(s, s.state[i].key) ==> s.state[i].updated < created
  }

  ghost predicate SessionCopied(s: Legacy, db: L.Db, i: int, now: int)
    requires 0 <= i < |s.sessions|
  {
    var row := s.sessions[i];
    && row.seen >= now - 7 * 24 * 3600
    && row.session in db.sessions
    && db.sessions[row.session].scope == row.scope && db.sessions[row.session].seen == row.seen
    && (var last := row.last;
        var kept := last.Some? && last.value in db.events && NewerThanUnknown(s, db.events[last.value].created);
        db.sessions[row.session].last == if kept then row.last else None)
  }

  /** The row by which the approval pays for the cutover. */
  ghost function Payment(a: L.Approval, tx: L.TxId, now: int): L.Consumption {
    L.Consumption(a.event, a.session, a.scope, "maintenance.core_cutover", Some(tx), now)
  }

  method Migrate(s: Legacy, approval: L.Approval, tx: L.TxId, now: int) returns (r: Result<L.Db, L.Error>)
    requires Keyed(s)
    ensures r.Ok? ==> Migrated(s, r.value, approval.event, now)
    ensures r.Ok? ==> L.TxRecorded(r.value, tx) && r.value.binding == s.binding
    ensures r.Ok? ==>
              && L.RefDigest(approval.event) in r.value.consumptions
              && r.value.consumptions[L.RefDigest(approval.event)] == Payment(approval, tx, now)
    ensures r.Err? <==> StateHas(s, L.RefDigest(approval.event))
                        || !exists i :: (0 <= i < |s.events| && s.events[i].id == approval.event
                                         && Copied(s.events[i], now - 7 * 24 * 3600))
  {
    var events, _ := CopyEvents(s, now - L.EVENT_RETENTION);
    var sessions := CopySessions(s, events, now - L.SESSION_RETENTION);
    var rows, _ := CopyApprovals(s, events);
    var key := L.RefDigest(approval.event);
    if key in rows { L.RefDigestInjective(approval.event, rows[key].event); }
    if key in rows || approval.event !in events { return Err(L.IntegrityError); }
    var paid := rows[key := L.Consumption(approval.event, approval.session, approval.scope,
                                          "maintenance.core_cutover", Some(tx), now)];
    var db := L.Db(events, sessions, map[], paid, now, s.binding);
    assert paid[key].tx == Some(tx);
    MigratedHolds(s, db, rows, paid[key], now);
    r := Ok(db);
  }

  lemma MigratedHolds(s: Legacy, db: L.Db, rows: map<Digest, L.Consumption>, payment: L.Consumption, now: int)
    requires EventsCopied(s, db.events, now - L.EVENT_RETENTION) && RowsCopied(s, db.events, rows)
    requires exists latest :: LatestUnknown(s, latest)
                              && SessionsCopied(s, db.sessions, db.events, latest, now - L.SESSION_RETENTION)
    requires payment.event in db.events && L.RefDigest(payment.event) !in rows
    requires db.tokens == map[] && db.pruned == now && db.consumptions == rows[L.RefDigest(payment.event) := payment]
    ensures Migrated(s, db, payment.event, now)
  {
    SessionsMigrated(s, db, now);
    ConsumptionsCopied(s, db, rows, payment.event);
    PaidWellformed(db, rows, payment);
    hide L.Wellformed, SessionsCopied, SessionCopied, LatestUnknown, StateHas, RowFrom, L.Consumed;
  }

  lemma PaidWellformed(db: L.Db, rows: map<Digest, L.Consumption>, payment: L.Consumption)
    requires forall x :: x in db.sessions && db.sessions[x].last.Some? ==> db.sessions[x].last.value in db.events
    requires forall d :: d in rows ==> rows[d].event in db.events && d == L.RefDigest(rows[d].event) && rows[d].tx.None?
    requires payment.event in db.events && db.tokens == map[]
    requires db.consumptions == rows[L.RefDigest(payment.event) := payment]
    ensures L.Wellformed(db)
  {
  }

  lemma SessionsMigrated(s: Legacy, db: L.Db, now: int)
    requires exists latest :: LatestUnknown(s, latest)
                              && SessionsCopied(s, db.sessions, db.events, latest, now - L.SESSION_RETENTION)
    ensures forall i :: 0 <= i < |s.sessions| && s.sessions[i].seen >= now - L.SESSION_RETENTION ==>
            SessionCopied(s, db, i, now)
    ensures forall x :: x in db.sessions ==>
              exists i :: 0 <= i < |s.sessions| && s.sessions[i].session == x && SessionCopied(s, db, i, now)
    ensures forall x :: x in db.sessions && db.sessions[x].last.Some? ==> db.sessions[x].last.value in db.events
  {
    var latest :| LatestUnknown(s, latest)
               && SessionsCopied(s, db.sessions, db.events, latest, now - L.SESSION_RETENTION);
    forall i | 0 <= i < |s.sessions| && s.sessions[i].seen >= now - L.SESSION_RETENTION
      ensures SessionCopied(s, db, i, now)
    {
      var row := s.sessions[i];
      if row.last.Some? && row.last.value in db.events {
        assert NewerThanUnknown(s, db.events[row.last.value].created) <==>
               latest.None? || db.events[row.last.value].created > latest.value;
      }
    }
    forall x | x in db.sessions
      ensures exists i :: 0 <= i < |s.sessions| && s.sessions[i].session == x && SessionCopied(s, db, i, now)
    {
      var i :| 0 <= i < |s.sessions| && s.sessions[i].session == x && s.sessions[i].seen >= now - L.SESSION_RETENTION;
      assert SessionCopied(s, db, i, now);
    }
  }

  lemma ConsumptionsCopied(s: Legacy, db: L.Db, rows: map<Digest, L.Consumption>, approval: L.EventId)
    requires RowsCopied(s, db.events, rows) && approval in db.events
    requires L.RefDigest(approval) in db.consumptions && db.consumptions[L.RefDigest(approval)].event == approval
    requires forall d :: d != L.RefDigest(approval) ==>
               (d in db.consumptions <==> d in rows) && (d in rows ==> db.consumptions[d] == rows[d])
    ensures forall id :: L.Consumed(db, id) <==> id in db.events && (id == approval || StateHas(s, L.RefDigest(id)))
  {
    forall id ensures L.Consumed(db, id) <==> id in db.events && (id == approval || StateHas(s, L.RefDigest(id))) {
      if id in db.events && id != approval && StateHas(s, L.RefDigest(id)) {
        if L.RefDigest(id) == L.RefDigest(approval) { L.RefDigestInjective(id, approval); }
        assert db.consumptions[L.RefDigest(id)].event == id;
      }
    }
  }

  // ------------------------------------------------------------------ no revival

  lemma SameIdSameEvent(s: Legacy, c: int, k: int)
    requires Keyed(s) && 0 <= c < |s.events| && 0 <= k < |s.events| && s.events[c].id == s.events[k].id
    ensures c == k
  {
  }

  /** Spent in the legacy Store: absent, spent or current nowhere in the new one. */
  lemma SpentIsDead(s: Legacy, db: L.Db, approval: L.EventId, now: int, k: nat)
    requires Keyed(s) && Migrated(s, db, approval, now) && k < |s.events| && SpentInLegacy(s, s.events[k])
    ensures L.Dead(db, s.events[k].id)
  {
    hide Keyed, L.Wellformed;
    var e := s.events[k];
    if e.id in db.events && !L.Consumed(db, e.id) {
      assert !StateHas(s, L.RefDigest(e.id));
      var u :| 0 <= u < |s.state| && !Attributable(s, s.state[u].key) && s.state[u].updated >= e.created;
      var c :| 0 <= c < |s.events| && s.events[c].id == e.id && Copied(s.events[c], now - L.EVENT_RETENTION);
      SameIdSameEvent(s, c, k);
      assert !NewerThanUnknown(s, e.created);
      forall x | x in db.sessions ensures db.sessions[x].last != Some(e.id) {
        var i :| 0 <= i < |s.sessions| && s.sessions[i].session == x && SessionCopied(s, db, i, now);
      }
    }
  }

  function LegacyIds(s: Legacy): set<L.EventId> {
    set i | 0 <= i < |s.events| :: s.events[i].id
  }

  /**
   Migration never revives a spent approval: after it, and after every later run of captures,
   proposals, settlements and pruning, no executor can validate or spend that prompt.
   */
  lemma SpentNeverRevives(s: Legacy, db: L.Db, approval: L.EventId, now: int, k: nat, ops: seq<L.Op>)
    requires Keyed(s) && Migrated(s, db, approval, now) && k < |s.events|
    requires SpentInLegacy(s, s.events[k]) || s.events[k].id == approval
    ensures var later := L.Run(L.Sys(db, LegacyIds(s), []), ops).db; var id := s.events[k].id;
            && (forall scope, at :: L.Validate(later, id, scope, at).Err?)
            && (forall r: L.Request :: r.approval.event == id ==> L.Settle(later, r).Err?)
  {
    var start := L.Sys(db, LegacyIds(s), []);
    forall id | id in db.events ensures id in LegacyIds(s) {
      var i :| 0 <= i < |s.events| && s.events[i].id == id && Copied(s.events[i], now - L.EVENT_RETENTION);
    }
    if SpentInLegacy(s, s.events[k]) {
      SpentIsDead(s, db, approval, now, k);
    }
    L.DeadForever(start, ops, s.events[k].id);
  }

  /**
   And it keeps everything else: a legacy prompt can approve right after the migration exactly
   when it was copied, its session was retained and still pointed at it, it was not spent, it is
   newer than every consumption nobody can attribute, and it did not pay for the cutover.
   */
  lemma MigrationKeepsTheRest(s: Legacy, db: L.Db, approval: L.EventId, now: int, k: nat, scope: L.ScopeKey)
    requires Keyed(s) && Migrated(s, db, approval, now) && k < |s.events|
    ensures var e := s.events[k];
            L.Validate(db, e.id, scope, now).Ok? <==>
              && Copied(e, now - 7 * 24 * 3600) && e.scope == scope
              && e.id != approval && !SpentInLegacy(s, e)
              && exists i :: 0 <= i < |s.sessions| && s.sessions[i].session == e.session
                             && s.sessions[i].seen >= now - 7 * 24 * 3600 && s.sessions[i].last == Some(e.id)
  {
    hide L.Wellformed;
    var e := s.events[k];
    if e.id in db.events {
      var c :| 0 <= c < |s.events| && s.events[c].id == e.id && Copied(s.events[c], now - L.EVENT_RETENTION);
      SameIdSameEvent(s, c, k);
      if SpentInLegacy(s, e) || e.id == approval {
        if SpentInLegacy(s, e) { SpentIsDead(s, db, approval, now, k); }
        L.DeadNeverValidates(db, e.id, scope, now);
      } else {
        assert !StateHas(s, L.RefDigest(e.id)) && !L.Consumed(db, e.id);
        assert NewerThanUnknown(s, e.created);
        if e.session in db.sessions {
          var i :| 0 <= i < |s.sessions| && s.sessions[i].session == e.session && SessionCopied(s, db, i, now);
        }
      }
    }
  }

  // ------------------------------------------------------------------ the approval that pays

  /** Event `i` and session `j` make an approval for the cutover. */
  ghost predicate PaysFor(s: Legacy, i: int, j: int, id: L.EventId, scope: L.ScopeKey, clock: int) {
    && 0 <= i < |s.events| && 0 <= j < |s.sessions|
    && s.events[i].id == id && s.events[i].prompt && !SpentInLegacy(s, s.events[i])
    && s.sessions[j].session == s.events[i].session && s.sessions[j].last == Some(id)
    && s.events[i].scope == scope && s.events[i].created >= clock - 7 * 24 * 3600
  }

  /** The guard on the approval for the cutover itself, read from the legacy rows. */
  method ValidateLegacyApproval(s: Legacy, id: L.EventId, scope: L.ScopeKey, clock: int)
    returns (r: Result<L.Approval, L.Error>)
    requires Keyed(s)
    ensures r.Ok? <==> exists i, j :: PaysFor(s, i, j, id, scope, clock)
    ensures r.Ok? ==>
              exists i, j :: PaysFor(s, i, j, id, scope, clock) && r.value == L.Approval(id, s.events[i].session, scope)
  {
    var i := 0;
    while i < |s.events| && !(s.events[i].id == id && s.events[i].prompt)
      invariant 0 <= i <= |s.events| && forall k :: 0 <= k < i ==> !(s.events[k].id == id && s.events[k].prompt)
    {
      i := i + 1;
    }
    if i == |s.events| { return Err(L.ApprovalInvalid); }
    var e := s.events[i];
    var j := 0;
    while j < |s.sessions| && s.sessions[j].session != e.session
      invariant 0 <= j <= |s.sessions| && forall k :: 0 <= k < j ==> s.sessions[k].session != e.session
    {
      j := j + 1;
    }
    OnlyPair(s, i, j, id, scope, clock);
    if j == |s.sessions| || s.sessions[j].last != Some(id) || e.scope != scope
       || e.created < clock - L.EVENT_RETENTION {
      return Err(L.ApprovalInvalid);
    }
    var state := StateByKey(s);
    if L.RefDigest(id) in state { return Err(L.ApprovalInvalid); }
    var unknown := ConsumptionCutoff(s);
    if unknown.Some? && e.created <= unknown.value { return Err(L.ApprovalInvalid); }
    assert PaysFor(s, i, j, id, scope, clock);
    r := Ok(L.Approval(id, e.session, scope));
  }

  /** Rows have keys: no other event and session could make the approval. */
  lemma OnlyPair(s: Legacy, i: nat, j: nat, id: L.EventId, scope: L.ScopeKey, clock: int)
    requires Keyed(s) && i < |s.events| && s.events[i].id == id && j <= |s.sessions|
    requires j < |s.sessions| ==> s.sessions[j].session == s.events[i].session
    requires forall k :: 0 <= k < j ==> s.sessions[k].session != s.events[i].session
    ensures forall a, b :: PaysFor(s, a, b, id, scope, clock) ==> a == i && b == j
  {
    hide SpentInLegacy;
  }
}
