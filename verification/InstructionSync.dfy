/**
 Writing one published document to every host: a loop over the hosts, and on failure a
 rollback in reverse order. The recovery record stays whenever the rollback is incomplete,
 and blocks every later synchronization.
 */
module InstructionSync {
  import opened Prelude
  import opened Faults

  type Name = string

  datatype Binding = Binding(root: Text, commit: Text, sourceHash: Digest, targetHash: Digest, updated: int)

  /** A host: its document, and its Store, which may hold no binding. */
  datatype Host = Host(file: Option<Text>, store: Option<Option<Binding>>, shadowed: bool)

  function BindingOf(h: Host): Option<Binding> {
    if h.store.Some? then h.store.value else None
  }

  datatype Saved = Saved(before: Option<Text>, binding: Option<Binding>, storeExisted: bool)

  datatype Recovery = Recovery(hosts: map<Name, Saved>, config: Option<Text>, after: Digest)

  /** `cleanup`: committed, but removing the record failed. `RecordStuck`: restored, and the same. */
  datatype Outcome =
    | Blocked | Refused | Planned | Crashed
    | Applied(cleanup: bool)
    | RolledBack
    | Incomplete(errors: set<Name>, configFailed: bool)
    | RecordStuck

  type Hosts = map<Name, Host>

  /** Everything a synchronization reads and writes on the device. */
  datatype World = World(hosts: Hosts, config: Option<Text>, record: Option<Recovery>)

  /** One line of the plan a person reviews: what the host holds, and its binding. */
  datatype Line = Line(before: Option<Digest>, noop: bool, binding: Option<Binding>)

  /** The reviewed plan; the hash given back when applying determines all of it. */
  datatype Preview = Preview(commit: Text, content: Digest, lines: map<Name, Line>, config: Option<Digest>,
                             accepted: map<Name, Digest>)

  function DigestOf(file: Option<Text>): Option<Digest> {
    if file.Some? then Some(Sha256(file.value)) else None
  }

  function LineOf(h: Host, data: Text): Line {
    Line(DigestOf(h.file), h.file == Some(data), BindingOf(h))
  }

  function PreviewOf(w: World, commit: Text, data: Text, accepted: map<Name, Digest>): Preview {
    Preview(commit, Sha256(data),
            map n | n in w.hosts :: LineOf(w.hosts[n], data),
            DigestOf(w.config), accepted)
  }

  /** What the second look under the lock compares; a Store made meanwhile goes unnoticed. */
  predicate SameAsSeen(w: World, seen: World) {
    && w.record.None? && w.config == seen.config
    && forall n :: n in w.hosts ==>
         n in seen.hosts && w.hosts[n].file == seen.hosts[n].file
         && BindingOf(w.hosts[n]) == BindingOf(seen.hosts[n]) && !w.hosts[n].shadowed
  }

  // ------------------------------------------------------------------ what the guards are for

  ghost predicate NoRow(store: Option<Option<Binding>>) {
    store.None? || store.value.None?
  }

  ghost predicate LastDeployed(h: Host, file: Text) {
    !NoRow(h.store) && h.store.value.value.targetHash == Sha256(file)
  }

  /** A document that is neither empty, nor the new one, nor the last one deployed there, and nobody accepted. */
  ghost predicate LocalEdit(h: Host, n: Name, data: Text, accepted: map<Name, Digest>) {
    h.file.Some? && h.file.value != "" && h.file.value != data && n !in accepted && !LastDeployed(h, h.file.value)
  }

  /** Content was accepted for a host already bound, or other content than stands there. */
  ghost predicate BadAdoption(h: Host, n: Name, accepted: map<Name, Digest>) {
    n in accepted && (!NoRow(h.store) || h.file.None? || accepted[n] != Sha256(h.file.value))
  }

  ghost predicate MustRefuse(hosts: Hosts, data: Text, accepted: map<Name, Digest>) {
    || data == ""
    || (exists n :: n in accepted && n !in hosts)
    || (exists n :: n in hosts
                    && (hosts[n].shadowed || BadAdoption(hosts[n], n, accepted)
                        || LocalEdit(hosts[n], n, data, accepted)))
  }

  /** Anything the second look must notice. */
  ghost predicate ChangedSince(w: World, seen: World)
    requires w.hosts.Keys == seen.hosts.Keys
  {
    || w.record.Some? || w.config != seen.config
    || (exists n :: n in w.hosts
                    && (w.hosts[n].shadowed || w.hosts[n].file != seen.hosts[n].file
                        || (w.hosts[n].store != seen.hosts[n].store
                            && !(NoRow(w.hosts[n].store) && NoRow(seen.hosts[n].store)))))
  }

  /** Every host is bound to the new row, whatever the time in it, and holds the new document. */
  ghost predicate AllNew(hosts: Hosts, row: Binding, data: Text, foreign: Edits) {
    forall n :: n in hosts ==>
      && !NoRow(hosts[n].store)
      && (var b := hosts[n].store.value.value;
          && b.root == row.root && b.commit == row.commit
          && b.sourceHash == row.sourceHash && b.targetHash == row.targetHash)
      && (n !in foreign ==> hosts[n].file == Some(data))
  }

  ghost predicate AllOld(hosts: Hosts, was: Hosts, foreign: Edits)
    requires hosts.Keys == was.Keys
  {
    forall n :: n in hosts ==>
      hosts[n].store == was[n].store && (n !in foreign ==> hosts[n].file == was[n].file)
  }

  /** What another program wrote, neither old nor new, is still there. */
  ghost predicate ForeignSafe(hosts: Hosts, was: Hosts, data: Text, foreign: Edits)
    requires hosts.Keys == was.Keys
  {
    forall n :: n in hosts && n in foreign && foreign[n] != was[n].file && foreign[n] != Some(data) ==>
      hosts[n].file == foreign[n]
  }

  /** Enough to put everything back by hand. */
  ghost predicate ExactRecord(r: Recovery, w: World, data: Text) {
    && r.config == w.config && r.after == Sha256(data) && r.hosts.Keys == w.hosts.Keys
    && forall n :: n in w.hosts ==>
         && r.hosts[n].before == w.hosts[n].file && r.hosts[n].storeExisted == w.hosts[n].store.Some?
         && r.hosts[n].binding == if NoRow(w.hosts[n].store) then None else w.hosts[n].store.value
  }

  /** How a transaction that began on `w` may leave the device. */
  ghost predicate EndsWell(o: Outcome, w: World, now: World, row: Binding, data: Text, config': Text, foreign: Edits) {
    && w.hosts.Keys == now.hosts.Keys && ForeignSafe(now.hosts, w.hosts, data, foreign)
    && (var applied := AllNew(now.hosts, row, data, foreign) && now.config == Some(config');
        var restored := AllOld(now.hosts, w.hosts, foreign) && now.config == w.config;
        var kept := now.record.Some? && ExactRecord(now.record.value, w, data);
        match o
        case Blocked => false
        case Planned => false
        case Applied(cleanup) => applied && (!cleanup ==> now.record.None?)
        case RolledBack => restored && now.record.None?
        case Refused => restored
        case RecordStuck => restored
        case Incomplete(_, _) => kept
        case Crashed => applied || restored || kept)
  }

  lemma PreviewDetermines(w: World, w': World, commit: Text, commit': Text, data: Text, data': Text,
                          accepted: map<Name, Digest>, accepted': map<Name, Digest>)
    requires w.hosts.Keys == w'.hosts.Keys
    ensures PreviewOf(w, commit, data, accepted) == PreviewOf(w', commit', data', accepted') <==>
            && commit == commit' && data == data' && accepted == accepted' && w.config == w'.config
            && forall n :: n in w.hosts ==>
                 && w.hosts[n].file == w'.hosts[n].file
                 && (w.hosts[n].store == w'.hosts[n].store || (NoRow(w.hosts[n].store) && NoRow(w'.hosts[n].store)))
  {
    var a, b := PreviewOf(w, commit, data, accepted), PreviewOf(w', commit', data', accepted');
    forall n | n in w.hosts
      ensures data == data' ==>
                (LineOf(w.hosts[n], data) == LineOf(w'.hosts[n], data') <==>
                   && w.hosts[n].file == w'.hosts[n].file
                   && (w.hosts[n].store == w'.hosts[n].store || (NoRow(w.hosts[n].store) && NoRow(w'.hosts[n].store))))
    {
    }
    if a == b {
      forall n | n in w.hosts ensures LineOf(w.hosts[n], data) == LineOf(w'.hosts[n], data') {
        assert a.lines[n] == b.lines[n];
      }
    } else if data == data' && (forall n :: n in w.hosts ==> LineOf(w.hosts[n], data) == LineOf(w'.hosts[n], data')) {
      assert a.lines == b.lines;
    }
  }

  /** What one synchronization writes, and what it found before. */
  datatype Plan = Plan(names: seq<Name>, data: Text, row: Binding, config: Text, found: Recovery)

  ghost predicate Sensible(p: Plan, hosts: Hosts) {
    && (forall i, j :: 0 <= i < j < |p.names| ==> p.names[i] != p.names[j])
    && (forall n :: n in p.names <==> n in hosts) && p.found.hosts.Keys == hosts.Keys
    && p.row.targetHash == Sha256(p.data) && p.row.sourceHash == Sha256(p.data)
  }

  function Known(p: Plan, n: Name): set<Option<Text>>
    requires n in p.found.hosts
  {
    {p.found.hosts[n].before, Some(p.data)}
  }

  function StoreBefore(p: Plan, n: Name): Option<Option<Binding>>
    requires n in p.found.hosts
  {
    if p.found.hosts[n].storeExisted then Some(p.found.hosts[n].binding) else None
  }

  /** Equal in everything but the time. */
  predicate SameBinding(a: Binding, b: Binding) {
    a.(updated := 0) == b.(updated := 0)
  }

  predicate Bound(h: Host, row: Binding) {
    BindingOf(h).Some? && SameBinding(BindingOf(h).value, row)
  }

  // ------------------------------------------------------------------ what is true of the hosts

  /** Bytes that some other program wrote last, and that are neither old nor new, are still there. */
  ghost predicate ForeignKept(p: Plan, hosts: Hosts, foreign: Edits)
    requires p.found.hosts.Keys == hosts.Keys
  {
    forall n :: n in foreign && n in hosts && foreign[n] !in Known(p, n) ==> hosts[n].file == foreign[n]
  }

  ghost predicate AsBefore(p: Plan, h: Host, n: Name, foreign: Edits)
    requires n in p.found.hosts
  {
    h.store == StoreBefore(p, n) && (n !in foreign ==> h.file == p.found.hosts[n].before)
  }

  ghost predicate Updated(p: Plan, h: Host, n: Name, foreign: Edits) {
    Bound(h, p.row) && (n !in foreign ==> h.file == Some(p.data))
  }

  /** A host the loop has begun on: old or new document, and its Store is not lost. */
  ghost predicate Undoable(p: Plan, h: Host, n: Name, foreign: Edits)
    requires n in p.found.hosts
  {
    && (n !in foreign ==> h.file in Known(p, n))
    && (p.found.hosts[n].storeExisted ==> h.store.Some?)
  }

  ghost predicate AllAsBefore(p: Plan, hosts: Hosts, foreign: Edits)
    requires p.found.hosts.Keys == hosts.Keys
  {
    forall n :: n in hosts ==> AsBefore(p, hosts[n], n, foreign)
  }

  ghost predicate AllUpdated(p: Plan, hosts: Hosts, foreign: Edits) {
    forall n :: n in hosts ==> Updated(p, hosts[n], n, foreign)
  }

  /** The first `k` hosts were begun on, the others are as they were found. */
  ghost predicate BegunOn(p: Plan, hosts: Hosts, foreign: Edits, k: nat)
    requires p.found.hosts.Keys == hosts.Keys && k <= |p.names| && forall n :: n in p.names ==> n in hosts
  {
    && (forall i :: 0 <= i < k ==> Undoable(p, hosts[p.names[i]], p.names[i], foreign))
    && (forall i :: k <= i < |p.names| ==> AsBefore(p, hosts[p.names[i]], p.names[i], foreign))
  }

  ghost predicate DoneWith(p: Plan, hosts: Hosts, foreign: Edits, k: nat)
    requires k <= |p.names| && forall n :: n in p.names ==> n in hosts
  {
    forall i :: 0 <= i < k ==> Updated(p, hosts[p.names[i]], p.names[i], foreign)
  }

  /** Where the loop stands: it has begun on the first `b` hosts and finished the first `d`. */
  ghost predicate Progress(p: Plan, hosts: Hosts, foreign: Edits, b: nat, d: nat) {
    && Sensible(p, hosts) && d <= b <= |p.names|
    && BegunOn(p, hosts, foreign, b) && DoneWith(p, hosts, foreign, d) && ForeignKept(p, hosts, foreign)
  }

  /** Where the rollback stands: hosts from number `i` on are restored, apart from those in error. */
  ghost predicate Undoing(p: Plan, hosts: Hosts, foreign: Edits, i: nat, errors: set<Name>) {
    && Sensible(p, hosts) && i <= |p.names| && ForeignKept(p, hosts, foreign)
    && (forall j :: 0 <= j < i ==> Undoable(p, hosts[p.names[j]], p.names[j], foreign))
    && (forall j :: i <= j < |p.names| ==> p.names[j] in errors || AsBefore(p, hosts[p.names[j]], p.names[j], foreign))
  }

  // ------------------------------------------------------------------ edits by other programs

  type Edits = map<Name, Option<Text>>

  /** The next edit of a script; an empty script holds none. */
  function NextEdit(edits: seq<Edits>): Edits {
    if edits == [] then map[] else edits[0]
  }

  function Edited(hosts: Hosts, edit: Edits): Hosts {
    map n | n in hosts :: if n in edit then hosts[n].(file := edit[n]) else hosts[n]
  }

  lemma EditKeepsProgress(p: Plan, hosts: Hosts, foreign: Edits, e: Edits, b: nat, d: nat)
    requires Progress(p, hosts, foreign, b, d)
    ensures Progress(p, Edited(hosts, e), foreign + e, b, d)
  {
    forall i | 0 <= i < |p.names| ensures EditedOne(p, hosts, foreign, e, p.names[i]) { }
  }

  /** An edit changes one document at most, and marks it. */
  ghost predicate EditedOne(p: Plan, hosts: Hosts, foreign: Edits, e: Edits, n: Name)
    requires n in hosts && n in p.found.hosts
  {
    var h := Edited(hosts, e)[n];
    && h == hosts[n].(file := h.file)
    && (n !in foreign + e ==> h == hosts[n] && n !in foreign)
    && (n !in e ==> h == hosts[n])
  }

  lemma EditKeepsUndoing(p: Plan, hosts: Hosts, foreign: Edits, e: Edits, i: nat, errors: set<Name>)
    requires Undoing(p, hosts, foreign, i, errors)
    ensures Undoing(p, Edited(hosts, e), foreign + e, i, errors)
  {
  }

  /** Writing one host, unless another program's bytes stand there. */
  ghost predicate MayBecome(p: Plan, h: Host, n: Name, foreign: Edits)
    requires n in p.found.hosts
  {
    n in foreign && foreign[n] !in Known(p, n) ==> h.file == foreign[n]
  }

  lemma ChangeHost(p: Plan, hosts: Hosts, foreign: Edits, k: nat, b: nat, h: Host)
    requires Progress(p, hosts, foreign, b, k) && k <= b <= k + 1 <= |p.names|
    requires Undoable(p, h, p.names[k], foreign) && MayBecome(p, h, p.names[k], foreign)
    ensures Progress(p, hosts[p.names[k] := h], foreign, k + 1, k)
    ensures Updated(p, h, p.names[k], foreign) ==> Progress(p, hosts[p.names[k] := h], foreign, k + 1, k + 1)
  {
  }

  /** A host found as it was holds nobody else's bytes. */
  lemma FreeToWrite(p: Plan, hosts: Hosts, foreign: Edits, k: nat)
    requires Progress(p, hosts, foreign, k, k) && k < |p.names|
    requires hosts[p.names[k]].file == p.found.hosts[p.names[k]].before
    ensures p.names[k] in foreign ==> foreign[p.names[k]] in Known(p, p.names[k])
    ensures p.found.hosts[p.names[k]].storeExisted ==> hosts[p.names[k]].store.Some?
  {
  }

  lemma RestoreHost(p: Plan, hosts: Hosts, foreign: Edits, i: nat, errors: set<Name>, h: Host)
    requires Undoing(p, hosts, foreign, i + 1, errors) && i < |p.names| && MayBecome(p, h, p.names[i], foreign)
    ensures AsBefore(p, h, p.names[i], foreign) ==> Undoing(p, hosts[p.names[i] := h], foreign, i, errors)
    ensures Undoing(p, hosts[p.names[i] := h], foreign, i, errors + {p.names[i]})
  {
  }

  class Device {
    var hosts: Hosts
    var config: Option<Text>
    var record: Option<Recovery>
    var fates: seq<Fate>
    var edits: seq<Edits>
    ghost var foreign: Edits
    ghost var dead: bool

    constructor (hosts: Hosts, config: Option<Text>, fates: seq<Fate>, edits: seq<Edits>)
      ensures this.hosts == hosts && this.config == config && record.None?
      ensures this.fates == fates && this.edits == edits && foreign == map[] && !dead
    {
      this.hosts, this.config, record := hosts, config, None;
      this.fates, this.edits, foreign, dead := fates, edits, map[], false;
    }

    ghost predicate Undisturbed()
      reads this
    {
      Calm(fates) && edits == []
    }

    /** Nobody else writes, and at most one effect fails. */
    ghost predicate Lucky()
      reads this
    {
      Tame(fates) && edits == []
    }

    /** Other programs may write the hosts' documents here. */
    method Interleave()
      modifies this`hosts, this`edits, this`foreign
      ensures hosts.Keys == old(hosts).Keys
      ensures hosts == Edited(old(hosts), NextEdit(old(edits))) && foreign == old(foreign) + NextEdit(old(edits))
      ensures old(edits) == [] ==> edits == [] && hosts == old(hosts) && foreign == old(foreign)
    {
      hosts, foreign := Edited(hosts, NextEdit(edits)), foreign + NextEdit(edits);
      if edits != [] { edits := edits[1..]; }
    }

    method Glance() returns (s: Signal)
      requires !dead
      modifies this`fates, this`dead
      ensures fates == LaterFates(old(fates)) && (dead <==> s.Died?)
      ensures s.Done? <==> NextFate(old(fates)) == Proceed
      ensures s.Died? <==> NextFate(old(fates)) == Die
    {
      s := match NextFate(fates)
        case Proceed => Done
        case Die => Died
        case _ => Raised;
      fates, dead := LaterFates(fates), s.Died?;
    }

    /** One atomic replacement of a document, a Store, the configuration or the record. */
    method Effect(hosts': Hosts, config': Option<Text>, record': Option<Recovery>) returns (s: Signal)
      requires !dead
      modifies this`hosts, this`config, this`record, this`fates, this`dead
      ensures fates == LaterFates(old(fates)) && (dead <==> s.Died?)
      ensures s.Done? <==> NextFate(old(fates)) == Proceed
      ensures s.Died? <==> NextFate(old(fates)) == Die
      ensures if NextFate(old(fates)) in {Proceed, RaiseAfter}
              then hosts == hosts' && config == config' && record == record'
              else hosts == old(hosts) && config == old(config) && record == old(record)
    {
      var f := NextFate(fates);
      fates, dead := LaterFates(fates), f.Die?;
      if f.Die? { return Died; }
      if f.RaiseBefore? { return Raised; }
      hosts, config, record := hosts', config', record';
      s := if f.RaiseAfter? then Raised else Done;
    }

    method WriteFile(n: Name, data: Option<Text>) returns (s: Signal)
      requires n in hosts && !dead
      modifies this`hosts, this`config, this`record, this`fates, this`dead
      ensures config == old(config) && record == old(record)
      ensures hosts == if NextFate(old(fates)) in {Proceed, RaiseAfter}
                       then old(hosts)[n := old(hosts)[n].(file := data)] else old(hosts)
      ensures fates == LaterFates(old(fates)) && (dead <==> s.Died?)
      ensures s.Done? <==> NextFate(old(fates)) == Proceed
      ensures s.Died? <==> NextFate(old(fates)) == Die
    {
      s := Effect(hosts[n := hosts[n].(file := data)], config, record);
    }

    method WriteStore(n: Name, store: Option<Option<Binding>>) returns (s: Signal)
      requires n in hosts && !dead
      modifies this`hosts, this`config, this`record, this`fates, this`dead
      ensures config == old(config) && record == old(record)
      ensures hosts == if NextFate(old(fates)) in {Proceed, RaiseAfter}
                       then old(hosts)[n := old(hosts)[n].(store := store)] else old(hosts)
      ensures fates == LaterFates(old(fates)) && (dead <==> s.Died?)
      ensures s.Done? <==> NextFate(old(fates)) == Proceed
      ensures s.Died? <==> NextFate(old(fates)) == Die
    {
      s := Effect(hosts[n := hosts[n].(store := store)], config, record);
    }

    /** A missing Store is created first, then the row is replaced in one transaction. */
    method SetBinding(n: Name, row: Option<Binding>) returns (s: Signal)
      requires n in hosts && !dead
      modifies this`hosts, this`config, this`record, this`fates, this`dead
      ensures config == old(config) && record == old(record)
      ensures hosts.Keys == old(hosts).Keys && hosts == old(hosts)[n := old(hosts)[n].(store := hosts[n].store)]
      ensures old(hosts)[n].store.Some? ==> hosts[n].store.Some?
      ensures s.Done? ==> hosts[n].store == Some(row)
      ensures s.Done? ==>
                fates == if old(hosts)[n].store.None? then LaterFates(LaterFates(old(fates)))
                         else LaterFates(old(fates))
      ensures dead <==> s.Died?
      ensures Calm(old(fates)) ==> Calm(fates) && s == Done
      ensures Tame(old(fates)) ==> Tame(fates) && !s.Died? && (s.Raised? ==> Calm(fates))
    {
      s := Done;
      if hosts[n].store.None? {
        s := WriteStore(n, Some(None));
      }
      if s.Done? {
        s := WriteStore(n, Some(row));
      }
    }

    // ---------------------------------------------------------------- forward

    /** The checks before a host's write; nothing happens between them and the write. */
    predicate StillAsFound(p: Plan, n: Name)
      requires n in hosts && n in p.found.hosts
      reads this`hosts
    {
      hosts[n].file == p.found.hosts[n].before && BindingOf(hosts[n]) == p.found.hosts[n].binding && !hosts[n].shadowed
    }

    method BeginHost(p: Plan, k: nat) returns (s: Signal)
      requires Progress(p, hosts, foreign, k, k) && k < |p.names| && !dead
      modifies this`hosts, this`fates, this`edits, this`foreign, this`dead
      ensures Progress(p, hosts, foreign, k, k) && (dead <==> s.Died?)
      ensures var n := p.names[k];
              && n in hosts && n in p.found.hosts
              && (s.Done? <==> && NextFate(old(fates)) == Proceed && hosts[n].file == p.found.hosts[n].before
                               && BindingOf(hosts[n]) == p.found.hosts[n].binding && !hosts[n].shadowed)
      ensures old(edits) == [] ==> edits == [] && hosts == old(hosts) && foreign == old(foreign)
      ensures fates == LaterFates(old(fates)) && (s.Died? <==> NextFate(old(fates)) == Die)
    {
      hide Progress;
      ghost var was, marks, e := hosts, foreign, NextEdit(edits);
      Interleave();
      EditKeepsProgress(p, was, marks, e, k, k);
      s := Glance();
      HasNames(p, hosts, foreign, k, k);
      if s.Done? && !StillAsFound(p, p.names[k]) { s := Raised; }
    }

    lemma HasNames(p: Plan, hosts: Hosts, foreign: Edits, b: nat, d: nat)
      requires Progress(p, hosts, foreign, b, d)
      ensures forall i :: 0 <= i < |p.names| ==> p.names[i] in hosts && p.names[i] in p.found.hosts
    {
    }

    lemma KeepsNames(p: Plan, hosts: Hosts, foreign: Edits, k: nat)
      requires Progress(p, hosts, foreign, k + 1, k + 1)
      ensures Progress(p, hosts, foreign, k + 1, k) && p.names[k] in hosts
    {
    }

    /** The host holds the new document and a binding with its hash. */
    ghost predicate ReadBack(p: Plan, n: Name)
      reads this`hosts
    {
      n in hosts && hosts[n].file == Some(p.data) && !NoRow(hosts[n].store)
      && hosts[n].store.value.value.targetHash == p.row.targetHash
    }

    method UpdateHost(p: Plan, k: nat) returns (s: Signal)
      requires Progress(p, hosts, foreign, k, k) && k < |p.names| && StillAsFound(p, p.names[k]) && !dead
      modifies this
      ensures config == old(config) && record == old(record) && (dead <==> s.Died?)
      ensures s.Done? ==> Progress(p, hosts, foreign, k + 1, k + 1) && ReadBack(p, p.names[k])
      ensures !s.Done? ==> Progress(p, hosts, foreign, k + 1, k)
      ensures old(Undisturbed()) ==> s == Done && Undisturbed()
      ensures old(Lucky()) ==> Lucky() && foreign == old(foreign) && !s.Died? && (s.Raised? ==> Calm(fates))
      ensures old(Lucky()) ==> forall n :: n in hosts && n != p.names[k] ==> hosts[n] == old(hosts)[n]
    {
      hide Progress;
      HasNames(p, hosts, foreign, k, k);
      s := WriteHost(p, k);
      if !s.Done? { return; }
      ghost var was, marks, e := hosts, foreign, NextEdit(edits);
      Interleave();
      EditKeepsProgress(p, was, marks, e, k + 1, k + 1);
      KeepsNames(p, hosts, foreign, k);
      s := Glance();
      if s.Done? && (hosts[p.names[k]].file != Some(p.data) || !TargetBound(hosts[p.names[k]], p.row.targetHash)) {
        s := Raised;
      }
    }

    method WriteHost(p: Plan, k: nat) returns (s: Signal)
      requires Progress(p, hosts, foreign, k, k) && k < |p.names| && StillAsFound(p, p.names[k]) && !dead
      modifies this`hosts, this`config, this`record, this`fates, this`dead
      ensures config == old(config) && record == old(record) && (dead <==> s.Died?)
      ensures s.Done? ==> Progress(p, hosts, foreign, k + 1, k + 1)
      ensures s.Done? ==> hosts[p.names[k]].file == Some(p.data) && Bound(hosts[p.names[k]], p.row)
      ensures !s.Done? ==> Progress(p, hosts, foreign, k + 1, k)
      ensures Calm(old(fates)) ==> s == Done && Calm(fates)
      ensures Tame(old(fates)) ==> Tame(fates) && !s.Died? && (s.Raised? ==> Calm(fates))
      ensures hosts.Keys == old(hosts).Keys && forall n :: n in hosts && n != p.names[k] ==> hosts[n] == old(hosts)[n]
    {
      hide Progress;
      var n := p.names[k];
      HasNames(p, hosts, foreign, k, k);
      FreeToWrite(p, hosts, foreign, k);
      s := Done;
      if hosts[n].file != Some(p.data) {
        s := WriteFile(n, Some(p.data));
      }
      if s.Done? && !Bound(hosts[n], p.row) {
        s := SetBinding(n, Some(p.row));
      }
      ChangeHost(p, old(hosts), foreign, k, k, hosts[n]);
      assert hosts == old(hosts)[n := hosts[n]];
    }

    /** What the loop has made true is what a rollback needs, and at the end what was wanted. */
    lemma ProgressStands(p: Plan, hosts: Hosts, foreign: Edits, b: nat, d: nat)
      requires Progress(p, hosts, foreign, b, d)
      ensures Sensible(p, hosts) && ForeignKept(p, hosts, foreign) && Undoing(p, hosts, foreign, b, {})
      ensures d == |p.names| ==> AllUpdated(p, hosts, foreign)
    {
    }

    /** Everything from number `k` on still passes its checks. */
    ghost predicate RestAsFound(p: Plan, k: nat)
      reads this`hosts
    {
      forall i :: k <= i < |p.names| ==>
        p.names[i] in hosts && p.names[i] in p.found.hosts && StillAsFound(p, p.names[i])
    }

    method ForwardHost(p: Plan, k: nat) returns (s: Signal, begun: nat)
      requires Progress(p, hosts, foreign, k, k) && k < |p.names| && !dead
      modifies this
      ensures config == old(config) && record == old(record) && (dead <==> s.Died?)
      ensures s.Done? ==> begun == k + 1 && Progress(p, hosts, foreign, k + 1, k + 1) && ReadBack(p, p.names[k])
      ensures !s.Done? ==> Undoing(p, hosts, foreign, begun, {})
      ensures old(Undisturbed()) && old(RestAsFound(p, k)) ==> s == Done && Undisturbed()
      ensures old(Lucky()) ==> Lucky() && foreign == old(foreign) && !s.Died?
      ensures old(Lucky()) && old(RestAsFound(p, k)) ==> if s.Done? then RestAsFound(p, k + 1) else Calm(fates)
    {
      hide Progress, Undoing;
      begun := k;
      ProgressStands(p, hosts, foreign, k, k);
      s := BeginHost(p, k);
      ProgressStands(p, hosts, foreign, k, k);
      if !s.Done? { return; }
      ghost var was := hosts;
      s := UpdateHost(p, k);
      begun := k + 1;
      ProgressStands(p, hosts, foreign, k + 1, if s.Done? then k + 1 else k);
      assert forall i :: k < i < |p.names| ==> p.names[i] != p.names[k];
    }

    /** The loop over the hosts and the configuration; `begun` tells how far it got. */
    method Forward(p: Plan) returns (s: Signal, begun: nat)
      requires Progress(p, hosts, foreign, 0, 0) && foreign == map[] && !dead
      modifies this
      ensures record == old(record) && (dead <==> s.Died?)
      ensures Sensible(p, hosts) && begun <= |p.names|
      ensures s.Done? ==> AllUpdated(p, hosts, foreign) && ForeignKept(p, hosts, foreign) && config == Some(p.config)
      ensures !s.Done? ==> Undoing(p, hosts, foreign, begun, {})
      ensures old(Undisturbed()) && old(RestAsFound(p, 0)) ==> s == Done && Undisturbed()
      ensures old(Lucky()) ==> Lucky() && foreign == map[] && !s.Died?
      ensures old(Lucky()) && old(RestAsFound(p, 0)) && s.Raised? ==> Calm(fates)
    {
      hide Progress, RestAsFound;
      begun := 0;
      while begun < |p.names|
        invariant begun <= |p.names| && Progress(p, hosts, foreign, begun, begun)
        invariant record == old(record) && config == old(config) && !dead
        invariant old(Undisturbed()) && old(RestAsFound(p, 0)) ==> Undisturbed()
        invariant old(Lucky()) ==> Lucky() && foreign == map[]
        invariant old(Lucky()) && old(RestAsFound(p, 0)) ==> RestAsFound(p, begun)
      {
        s, begun := ForwardHost(p, begun);
        if !s.Done? { return; }
      }
      ProgressStands(p, hosts, foreign, begun, begun);
      s := Done;
      if config != Some(p.config) {
        s := Effect(hosts, Some(p.config), record);
      }
      if s.Done? {
        s := Glance();
      }
    }

    // ---------------------------------------------------------------- rollback

    lemma StandsAt(p: Plan, hosts: Hosts, foreign: Edits, i: nat, errors: set<Name>)
      requires Undoing(p, hosts, foreign, i, errors)
      ensures Sensible(p, hosts) && ForeignKept(p, hosts, foreign)
      ensures i <= |p.names| && forall j :: 0 <= j < |p.names| ==> p.names[j] in hosts && p.names[j] in p.found.hosts
    {
    }

    method RollbackHost(p: Plan, i: nat, ghost errors: set<Name>) returns (s: Signal)
      requires Undoing(p, hosts, foreign, i + 1, errors) && i < |p.names| && !dead
      modifies this
      ensures config == old(config) && record == old(record) && (dead <==> s.Died?)
      ensures s.Done? ==> Undoing(p, hosts, foreign, i, errors)
      ensures !s.Done? ==> Undoing(p, hosts, foreign, i, errors + {p.names[i]})
      ensures old(Undisturbed()) ==> Undisturbed() && foreign == old(foreign) && !s.Died?
      ensures old(Undisturbed()) ==> (s.Raised? <==> Strange(p, old(hosts), p.names[i]))
      ensures old(Undisturbed()) ==> forall n :: n in hosts && n != p.names[i] ==>
                                       n in old(hosts) && hosts[n] == old(hosts)[n]
    {
      hide Undoing, Sensible, ForeignKept, Tame, Calm;
      StandsAt(p, hosts, foreign, i + 1, errors);
      var n := p.names[i];
      ghost var was, marks, e := hosts, foreign, NextEdit(edits);
      Interleave();
      EditKeepsUndoing(p, was, marks, e, i + 1, errors);
      StandsAt(p, hosts, foreign, i + 1, errors);
      ghost var found := hosts;
      s := Glance();
      if s.Done? && hosts[n].file !in Known(p, n) { s := Raised; }
      if s.Done? {
        s := RestoreBytes(p, n);
      }
      RestoreHost(p, found, foreign, i, errors, hosts[n]);
      assert hosts == found[n := hosts[n]];
    }

    method RestoreBytes(p: Plan, n: Name) returns (s: Signal)
      requires n in hosts && n in p.found.hosts && !dead
      modifies this`hosts, this`config, this`record, this`fates, this`dead
      ensures config == old(config) && record == old(record) && (dead <==> s.Died?)
      ensures Calm(old(fates)) ==> Calm(fates) && s == Done
      ensures hosts.Keys == old(hosts).Keys && hosts == old(hosts)[n := hosts[n]]
      ensures hosts[n].file in {old(hosts)[n].file, p.found.hosts[n].before}
      ensures s.Done? ==> hosts[n].file == p.found.hosts[n].before && hosts[n].store == StoreBefore(p, n)
    {
      s := WriteFile(n, p.found.hosts[n].before);
      if !s.Done? { return; }
      if p.found.hosts[n].storeExisted {
        s := SetBinding(n, p.found.hosts[n].binding);
      } else {
        s := WriteStore(n, None);
      }
    }

    /** A document that is neither the old nor the new one. */
    ghost predicate Strange(p: Plan, hosts: Hosts, n: Name) {
      n in hosts && n in p.found.hosts && hosts[n].file != p.found.hosts[n].before && hosts[n].file != Some(p.data)
    }

    /** Which of the first hosts hold what somebody else wrote. */
    ghost function StrangeAmong(p: Plan, hosts: Hosts, from: nat, to: nat): set<Name>
      requires from <= to <= |p.names|
    {
      set j | from <= j < to && Strange(p, hosts, p.names[j]) :: p.names[j]
    }

    lemma NoneStrange(p: Plan, hosts: Hosts, i: nat)
      requires i <= |p.names|
      ensures StrangeAmong(p, hosts, i, i) == {}
    {
    }

    lemma StrangeStep(p: Plan, hosts: Hosts, i: nat, to: nat)
      requires i < to <= |p.names|
      ensures StrangeAmong(p, hosts, i, to)
           == StrangeAmong(p, hosts, i + 1, to) + if Strange(p, hosts, p.names[i]) then {p.names[i]} else {}
    {
    }

    /** Where nobody else wrote, nothing is strange. */
    lemma NothingStrange(p: Plan, hosts: Hosts, begun: nat)
      requires Undoing(p, hosts, map[], begun, {})
      ensures StrangeAmong(p, hosts, 0, begun) == {}
    {
    }

    lemma AllUndone(p: Plan, hosts: Hosts, foreign: Edits)
      requires Undoing(p, hosts, foreign, 0, {})
      ensures AllAsBefore(p, hosts, foreign)
    {
    }

    lemma StartsAsBefore(p: Plan, hosts: Hosts, foreign: Edits)
      requires Progress(p, hosts, foreign, 0, 0)
      ensures Sensible(p, hosts) && ForeignKept(p, hosts, foreign) && AllAsBefore(p, hosts, foreign)
    {
    }

    method Rollback(p: Plan, begun: nat) returns (o: Outcome)
      requires Undoing(p, hosts, foreign, begun, {}) && record == Some(p.found) && !dead
      modifies this
      ensures dead <==> o.Crashed?
      ensures old(Undisturbed()) ==>
                begun <= |p.names|
                && (var strange := StrangeAmong(p, old(hosts), 0, begun);
                    o == if strange == {} then RolledBack else Incomplete(strange, false))
      ensures Sensible(p, hosts) && ForeignKept(p, hosts, foreign)
      ensures o.Crashed? || o.RolledBack? || o.Incomplete? || o.RecordStuck?
      ensures o.RolledBack? || o.RecordStuck? ==> AllAsBefore(p, hosts, foreign) && config == p.found.config
      ensures o.RolledBack? ==> record.None?
      ensures o.Incomplete? ==> record == Some(p.found) && (o.errors != {} || o.configFailed)
      ensures record == Some(p.found) || (AllAsBefore(p, hosts, foreign) && config == p.found.config)
    {
      hide Undoing, AllAsBefore, ForeignKept, StrangeAmong;
      var errors: set<Name> := {};
      StandsAt(p, hosts, foreign, begun, {});
      NoneStrange(p, hosts, begun);
      var i := begun;
      var s;
      while i > 0
        invariant 0 <= i <= begun <= |p.names| && Undoing(p, hosts, foreign, i, errors) && record == old(record)
        invariant !dead
        invariant old(Undisturbed()) ==> Undisturbed() && errors == StrangeAmong(p, old(hosts), i, begun)
        invariant old(Undisturbed()) ==> forall j :: 0 <= j < i ==>
                    p.names[j] in hosts && p.names[j] in old(hosts) && hosts[p.names[j]] == old(hosts)[p.names[j]]
      {
        i := i - 1;
        StrangeStep(p, old(hosts), i, begun);
        s := RollbackHost(p, i, errors);
        StandsAt(p, hosts, foreign, i, if s.Done? then errors else errors + {p.names[i]});
        if s.Died? { return Crashed; }
        if s.Raised? { errors := errors + {p.names[i]}; }
      }
      StandsAt(p, hosts, foreign, 0, errors);
      if errors == {} { AllUndone(p, hosts, foreign); }
      s := Effect(hosts, p.found.config, record);
      if s.Died? { return Crashed; }
      if errors != {} || s.Raised? { return Incomplete(errors, s.Raised?); }
      s := Effect(hosts, config, None);
      if !s.Done? { return if s.Died? then Crashed else RecordStuck; }
      s := Glance();
      o := if s.Died? then Crashed else RolledBack;
    }

    // ---------------------------------------------------------------- the whole transaction

    /**
     Every run ends in one of three ways: all hosts and bindings updated, or everything as it
     was, or the record kept with what was there before. Bytes another program wrote, neither
     old nor new, survive all of them.
     */
    method Apply(p: Plan) returns (o: Outcome)
      requires Progress(p, hosts, foreign, 0, 0) && foreign == map[]
      requires record.None? && config == p.found.config && !dead
      modifies this
      ensures dead <==> o.Crashed?
      ensures !o.Blocked? && !o.Planned? && Sensible(p, hosts) && ForeignKept(p, hosts, foreign)
      ensures || (AllUpdated(p, hosts, foreign) && config == Some(p.config))
              || (AllAsBefore(p, hosts, foreign) && config == p.found.config)
              || record == Some(p.found)
      ensures o.Applied? ==> AllUpdated(p, hosts, foreign) && config == Some(p.config) && (!o.cleanup ==> record.None?)
      ensures o.RolledBack? ==> AllAsBefore(p, hosts, foreign) && config == p.found.config && record.None?
      ensures o.RecordStuck? || o.Refused? ==> AllAsBefore(p, hosts, foreign) && config == p.found.config
      ensures o.Incomplete? ==> record == Some(p.found)
      ensures old(Undisturbed()) && old(RestAsFound(p, 0)) ==> o == Applied(false)
      ensures old(Lucky()) && old(RestAsFound(p, 0)) ==> o.Applied? || o.RolledBack? || o.Refused?
    {
      hide Progress, Undoing, AllAsBefore, AllUpdated, ForeignKept, RestAsFound, StrangeAmong, Calm, Tame;
      StartsAsBefore(p, hosts, foreign);
      var s := Effect(hosts, config, Some(p.found));
      if !s.Done? {
        return if s.Died? then Crashed else Refused;
      }
      var begun;
      s, begun := Forward(p);
      if !s.Done? { StandsAt(p, hosts, foreign, begun, {}); }
      if s.Died? { return Crashed; }
      if s.Raised? {
        if foreign == map[] { NothingStrange(p, hosts, begun); }
        o := Rollback(p, begun);
        return;
      }
      s := Effect(hosts, config, None);
      o := if s.Died? then Crashed else Applied(s.Raised?);
    }

    /** A host whose document is neither the new one nor the last one deployed, nor expressly accepted. */
    predicate Drifted(n: Name, data: Text, accepted: map<Name, Digest>)
      requires n in hosts
      reads this
    {
      var now, binding := hosts[n].file, BindingOf(hosts[n]);
      || hosts[n].shadowed
      || (n in accepted && (now.None? || Sha256(now.value) != accepted[n]))
      || (now.Some? && now.value != "" && now.value != data && n !in accepted
          && (binding.None? || Sha256(now.value) != binding.value.targetHash))
    }

    predicate AnyDrifted(data: Text, accepted: map<Name, Digest>)
      reads this
    {
      exists n :: n in hosts && Drifted(n, data, accepted)
    }

    /** A host is enrolled with existing content only before its first binding. */
    predicate Adoptable(accepted: map<Name, Digest>)
      reads this
    {
      forall n :: n in accepted ==> n in hosts && BindingOf(hosts[n]).None?
    }

    predicate Permitted(data: Text, accepted: map<Name, Digest>)
      reads this
    {
      record.None? && Adoptable(accepted) && data != "" && !AnyDrifted(data, accepted)
    }

    lemma PermittedMeans(data: Text, accepted: map<Name, Digest>)
      ensures Permitted(data, accepted) <==> record.None? && !MustRefuse(hosts, data, accepted)
    {
      if Permitted(data, accepted) {
        forall n | n in hosts
          ensures !hosts[n].shadowed && !BadAdoption(hosts[n], n, accepted) && !LocalEdit(hosts[n], n, data, accepted)
        {
          assert !Drifted(n, data, accepted);
        }
      } else if record.None? && !MustRefuse(hosts, data, accepted) {
        forall n | n in hosts ensures !Drifted(n, data, accepted) {
          assert !BadAdoption(hosts[n], n, accepted) && !LocalEdit(hosts[n], n, data, accepted);
        }
      }
    }

    function Now(): World
      reads this
    {
      World(hosts, config, record)
    }

    /** Waiting for the locks; other executors leave the device as `w`. */
    method Wait(w: World)
      modifies this`hosts, this`config, this`record
      ensures Now() == w
    {
      hosts, config, record := w.hosts, w.config, w.record;
    }

    /** What both looks saw is where the transaction may start, and is what was reviewed. */
    lemma SeenTwice(p: Plan, w: World, seen: World, accepted: map<Name, Digest>)
      requires SameAsSeen(w, seen) && w.hosts.Keys == seen.hosts.Keys
      requires p.found == Found(w.hosts, w.config, p.data) && Sensible(p, w.hosts)
      ensures Progress(p, w.hosts, map[], 0, 0) && p.found.config == w.config && w.record.None?
      ensures OldAsReviewed(p, PreviewOf(seen, p.row.commit, p.data, accepted))
      ensures Now() == w ==> RestAsFound(p, 0)
    {
    }

    lemma UnchangedIsSame(data: Text, accepted: map<Name, Digest>)
      requires Permitted(data, accepted)
      ensures SameAsSeen(Now(), Now())
    {
      forall n | n in hosts ensures !hosts[n].shadowed { assert !Drifted(n, data, accepted); }
    }

    /**
     The guards of `synchronize`, the comparison with the reviewed plan, and, once the locks are
     taken, a second look; then the transaction on what both looks saw. `w` is what the second
     look finds, and may be anything.
     */
    method Synchronize(names: seq<Name>, data: Text, row: Binding, config': Text, accepted: map<Name, Digest>,
                       apply: bool, reviewed: Option<Preview>, w: World)
      returns (o: Outcome, ghost p: Plan)
      requires forall n :: n in names <==> n in hosts
      requires forall i, j :: 0 <= i < j < |names| ==> names[i] != names[j]
      requires row.targetHash == Sha256(data) && row.sourceHash == Sha256(data) && foreign == map[]
      requires w.hosts.Keys == hosts.Keys && !dead
      modifies this
      ensures dead <==> o.Crashed?
      ensures p == Plan(names, data, row, config', Found(w.hosts, w.config, data))
      ensures old(record).Some? ==> o == Blocked
      ensures old(record).None? && MustRefuse(old(hosts), data, accepted) ==> o == Refused
      ensures o.Planned? <==> old(record).None? && !MustRefuse(old(hosts), data, accepted) && !apply
      ensures var preview := PreviewOf(old(Now()), row.commit, data, accepted);
              var goesOn := old(record).None? && !MustRefuse(old(hosts), data, accepted) && apply
                            && reviewed == Some(preview);
              && (!goesOn ==> Now() == old(Now()) && (o.Refused? || o.Blocked? || o.Planned?))
              && (goesOn && ChangedSince(w, old(Now())) ==> Now() == w && o == Refused)
              && (goesOn && !ChangedSince(w, old(Now())) ==>
                    EndsWell(o, w, Now(), row, data, config', foreign) && OldAsReviewed(p, preview))
      ensures (old(Undisturbed()) && w == old(Now()) && old(record).None? && !MustRefuse(old(hosts), data, accepted)
               && apply && reviewed == Some(PreviewOf(w, row.commit, data, accepted))) ==> o == Applied(false)
      ensures old(Lucky()) && w == old(Now()) ==> !o.Incomplete? && !o.RecordStuck? && !o.Crashed?
    {
      hide Permitted, PreviewOf, SameAsSeen, Progress, OldAsReviewed, AllUpdated, AllAsBefore, ForeignKept, AllNew,
           AllOld, ForeignSafe, ExactRecord, MustRefuse, ChangedSince, RestAsFound;
      PermittedMeans(data, accepted);
      var found := Found(w.hosts, w.config, data);
      p := Plan(names, data, row, config', found);
      if record.Some? { return Blocked, p; }
      if !Permitted(data, accepted) { return Refused, p; }
      if !apply { return Planned, p; }
      var seen := Now();
      SameMeans(w, seen);
      if w == seen { UnchangedIsSame(data, accepted); }
      if reviewed != Some(PreviewOf(seen, row.commit, data, accepted)) { return Refused, p; }
      Wait(w);
      if !SameAsSeen(w, seen) { return Refused, p; }
      SeenTwice(p, w, seen, accepted);
      o := Apply(Plan(names, data, row, config', found));
      InRows(p, w, hosts, foreign);
    }
  }

  /** The results of the transaction, read off the rows and documents themselves. */
  lemma InRows(p: Plan, w: World, hosts: Hosts, foreign: Edits)
    requires p.found == Found(w.hosts, w.config, p.data) && w.hosts.Keys == hosts.Keys
    ensures AllUpdated(p, hosts, foreign) <==> AllNew(hosts, p.row, p.data, foreign)
    ensures AllAsBefore(p, hosts, foreign) <==> AllOld(hosts, w.hosts, foreign)
    ensures ForeignKept(p, hosts, foreign) <==> ForeignSafe(hosts, w.hosts, p.data, foreign)
    ensures ExactRecord(p.found, w, p.data) && p.found.config == w.config
  {
    hide AllUpdated, AllNew, AllAsBefore, AllOld, ForeignKept, ForeignSafe;
    NewInRows(p, hosts, foreign);
    OldInRows(p, w, hosts, foreign);
    SafeInRows(p, w, hosts, foreign);
  }

  lemma NewInRows(p: Plan, hosts: Hosts, foreign: Edits)
    ensures AllUpdated(p, hosts, foreign) <==> AllNew(hosts, p.row, p.data, foreign)
  {
  }

  lemma OldInRows(p: Plan, w: World, hosts: Hosts, foreign: Edits)
    requires p.found == Found(w.hosts, w.config, p.data) && w.hosts.Keys == hosts.Keys
    ensures AllAsBefore(p, hosts, foreign) <==> AllOld(hosts, w.hosts, foreign)
  {
  }

  lemma SafeInRows(p: Plan, w: World, hosts: Hosts, foreign: Edits)
    requires p.found == Found(w.hosts, w.config, p.data) && w.hosts.Keys == hosts.Keys
    ensures ForeignKept(p, hosts, foreign) <==> ForeignSafe(hosts, w.hosts, p.data, foreign)
  {
  }

  lemma SameMeans(w: World, seen: World)
    requires w.hosts.Keys == seen.hosts.Keys
    ensures SameAsSeen(w, seen) <==> !ChangedSince(w, seen)
  {
  }

  /** What the transaction replaces, and would restore, is what was reviewed. */
  ghost predicate OldAsReviewed(p: Plan, preview: Preview) {
    && preview.lines.Keys == p.found.hosts.Keys && DigestOf(p.found.config) == preview.config
    && forall n :: n in p.found.hosts ==>
         DigestOf(p.found.hosts[n].before) == preview.lines[n].before
         && p.found.hosts[n].binding == preview.lines[n].binding
  }

  predicate TargetBound(h: Host, digest: Digest) {
    BindingOf(h).Some? && BindingOf(h).value.targetHash == digest
  }

  /** The recovery record: exact bytes, bindings, and which Stores existed. */
  function Found(hosts: Hosts, config: Option<Text>, data: Text): Recovery {
    Recovery(map n | n in hosts :: Saved(hosts[n].file, BindingOf(hosts[n]), hosts[n].store.Some?),
             config, Sha256(data))
  }
}
