/**
 Rewriting a hook document: the sidecar's own commands are taken out wherever they stand and
 put back in two places; everything foreign stays. Which commands are the sidecar's is an
 abstract predicate on JSON values.
 */
module Hooks {
  import opened Prelude

  datatype Json =
    | Null
    | Boolean(b: bool)
    | Number(n: int)
    | String(s: string)
    | List(items: seq<Json>)
    | Object(fields: map<string, Json>)

  type Fields = map<string, Json>

  type Recognizer = Json -> bool

  const PROMPT: string := "UserPromptSubmit"
  const COMPACT: string := "SessionStart"

  // ------------------------------------------------------------------ entries

  /** The commands of a list that are the sidecar's, or those that are not. */
  function Pick(own: Recognizer, commands: seq<Json>, which: bool): seq<Json> {
    if commands == [] then []
    else (if own(commands[0]) == which then [commands[0]] else []) + Pick(own, commands[1..], which)
  }

  /** An entry that groups commands. */
  predicate Grouped(entry: Json) {
    entry.Object? && "hooks" in entry.fields && entry.fields["hooks"].List?
  }

  function Commands(entry: Json): seq<Json>
    requires Grouped(entry)
  {
    entry.fields["hooks"].items
  }

  function WithCommands(entry: Json, commands: seq<Json>): Json
    requires Grouped(entry)
  {
    Object(entry.fields["hooks" := List(commands)])
  }

  /** What is left of one entry: itself, fewer commands, or nothing. */
  function Foreign(own: Recognizer, entry: Json): seq<Json> {
    if !Grouped(entry) then [entry]
    else
      var rest := Pick(own, Commands(entry), false);
      if rest == [] then [] else [WithCommands(entry, rest)]
  }

  function ForeignEntries(own: Recognizer, entries: seq<Json>): seq<Json> {
    if entries == [] then [] else Foreign(own, entries[0]) + ForeignEntries(own, entries[1..])
  }

  function Without(own: Recognizer, value: Json): seq<Json> {
    if value.List? then ForeignEntries(own, value.items) else [value]
  }

  /** What the fingerprint sees of one entry: its sidecar commands only. */
  function Sidecar(own: Recognizer, entry: Json): seq<Json> {
    if !Grouped(entry) then []
    else
      var mine := Pick(own, Commands(entry), true);
      if mine == [] then [] else [WithCommands(entry, mine)]
  }

  function SidecarEntries(own: Recognizer, entries: seq<Json>): seq<Json> {
    if entries == [] then [] else Sidecar(own, entries[0]) + SidecarEntries(own, entries[1..])
  }

  // ------------------------------------------------------------------ documents

  function HooksOf(document: Fields): Fields {
    if "hooks" in document && document["hooks"].Object? then document["hooks"].fields else map[]
  }

  function ForeignHooks(own: Recognizer, hooks: Fields): Fields {
    map e | e in hooks && Without(own, hooks[e]) != [] :: List(Without(own, hooks[e]))
  }

  function Items(hooks: Fields, event: string): seq<Json> {
    if event in hooks && hooks[event].List? then hooks[event].items else []
  }

  function Append(hooks: Fields, event: string, entry: Json): Fields {
    hooks[event := List(Items(hooks, event) + [entry])]
  }

  function PromptEntry(command: Json): Json {
    Object(map["hooks" := List([command])])
  }

  function CompactEntry(command: Json): Json {
    Object(map["matcher" := String("^compact$"), "hooks" := List([command])])
  }

  function DesiredHooks(own: Recognizer, hooks: Fields, command: Json): Fields {
    Append(Append(ForeignHooks(own, hooks), PROMPT, PromptEntry(command)), COMPACT, CompactEntry(command))
  }

  function Rewrite(own: Recognizer, document: Fields, command: Json): Fields {
    document["hooks" := Object(DesiredHooks(own, HooksOf(document), command))]
  }

  /** What the doctor fingerprints. */
  function SidecarPart(own: Recognizer, document: Fields): Fields {
    PartOf(own, HooksOf(document))
  }

  function PartOf(own: Recognizer, hooks: Fields): Fields {
    map e | e in hooks && SidecarEntries(own, Items(hooks, e)) != [] :: List(SidecarEntries(own, Items(hooks, e)))
  }

  /** The fingerprint every installation of this command should have. */
  function Expected(command: Json): Fields {
    map[PROMPT := List([PromptEntry(command)]), COMPACT := List([CompactEntry(command)])]
  }

  // ------------------------------------------------------------------ what survives, position by position

  ghost predicate Ascending(at: seq<int>, n: int) {
    (forall i :: 0 <= i < |at| ==> 0 <= at[i] < n) && forall i, j :: 0 <= i < j < |at| ==> at[i] < at[j]
  }

  /** `kept` are the foreign commands of a list, in their order. */
  ghost predicate ForeignAt(own: Recognizer, commands: seq<Json>, kept: seq<Json>, at: seq<int>) {
    && Ascending(at, |commands|) && |at| == |kept| && (forall i :: 0 <= i < |at| ==> kept[i] == commands[at[i]])
    && forall j :: 0 <= j < |commands| ==> (j in at <==> !own(commands[j]))
  }

  /** One entry and what is left of it: a group loses the sidecar's commands and keeps all other fields. */
  ghost predicate LeftOf(own: Recognizer, before: Json, after: Json) {
    if before.Object? && "hooks" in before.fields && before.fields["hooks"].List? then
      && after.Object? && after.fields.Keys == before.fields.Keys
      && (forall k :: k in before.fields && k != "hooks" ==> after.fields[k] == before.fields[k])
      && after.fields["hooks"].List?
      && exists at :: ForeignAt(own, before.fields["hooks"].items, after.fields["hooks"].items, at)
    else after == before
  }

  /** Something in the entry is not the sidecar's. */
  ghost predicate HasForeign(own: Recognizer, entry: Json) {
    entry.Object? && "hooks" in entry.fields && entry.fields["hooks"].List? ==>
      exists c :: c in entry.fields["hooks"].items && !own(c)
  }

  /** `kept` is what is left of the entries of a list, in their order. */
  ghost predicate LeftAt(own: Recognizer, entries: seq<Json>, kept: seq<Json>, at: seq<int>) {
    && Ascending(at, |entries|) && |at| == |kept|
    && (forall i :: 0 <= i < |at| ==> LeftOf(own, entries[at[i]], kept[i]))
    && forall j :: 0 <= j < |entries| ==> (j in at <==> HasForeign(own, entries[j]))
  }

  ghost predicate KeptOfEvent(own: Recognizer, value: Json, kept: seq<Json>) {
    if value.List? then exists at :: LeftAt(own, value.items, kept, at) else kept == [value]
  }

  /** The entries the sidecar adds for itself. */
  ghost function Added(e: string, command: Json): seq<Json> {
    if e == "UserPromptSubmit" then [Object(map["hooks" := List([command])])]
    else if e == "SessionStart" then [Object(map["matcher" := String("^compact$"), "hooks" := List([command])])]
    else []
  }

  ghost predicate EventIs(own: Recognizer, before: Fields, after: Fields, command: Json, e: string, kept: seq<Json>) {
    && (if e in before then KeptOfEvent(own, before[e], kept) else kept == [])
    && (e in after <==> kept + Added(e, command) != [])
    && (e in after ==> after[e] == List(kept + Added(e, command)))
  }

  ghost predicate EventRewritten(own: Recognizer, before: Fields, after: Fields, command: Json, e: string) {
    exists kept :: EventIs(own, before, after, command, e, kept)
  }

  /** Everything outside the hooks stays, and every event keeps what is foreign and gets what is the sidecar's. */
  ghost predicate Rewritten(own: Recognizer, existing: Fields, document: Fields, command: Json) {
    && document.Keys == existing.Keys + {"hooks"}
    && (forall k :: k in existing && k != "hooks" ==> document[k] == existing[k])
    && document["hooks"].Object?
    && (var before := if "hooks" in existing && existing["hooks"].Object? then existing["hooks"].fields else map[];
        forall e :: EventRewritten(own, before, document["hooks"].fields, command, e))
  }

  /** The positions one further on, after the first if that is kept. */
  function Shifted(first: bool, at: seq<int>): seq<int> {
    (if first then [0] else []) + seq(|at|, i requires 0 <= i < |at| => at[i] + 1)
  }

  lemma ShiftedAt(first: bool, at: seq<int>)
    ensures var k, all := if first then 1 else 0, Shifted(first, at);
            && |all| == |at| + k && (first ==> all[0] == 0)
            && (forall i :: 0 <= i < |at| ==> all[i + k] == at[i] + 1)
            && (forall i :: k <= i < |all| ==> all[i] == at[i - k] + 1)
  {
  }

  lemma ShiftedHas(first: bool, at: seq<int>, n: nat)
    requires Ascending(at, n)
    ensures Ascending(Shifted(first, at), n + 1)
    ensures forall j :: j in Shifted(first, at) <==> (j == 0 && first) || j - 1 in at
  {
    ShiftedAt(first, at);
    hide Shifted;
    var all, k := Shifted(first, at), if first then 1 else 0;
    forall j | j - 1 in at ensures j in all {
      var i :| 0 <= i < |at| && at[i] == j - 1;
      assert all[i + k] == j;
    }
    forall j | j in all ensures (j == 0 && first) || j - 1 in at {
      var i :| 0 <= i < |all| && all[i] == j;
      if i >= k { assert at[i - k] == j - 1; }
    }
  }

  lemma {:induction false} PickExactly(own: Recognizer, commands: seq<Json>) returns (at: seq<int>)
    ensures ForeignAt(own, commands, Pick(own, commands, false), at)
  {
    if commands == [] {
      at := [];
    } else {
      var rest := PickExactly(own, commands[1..]);
      at := Shifted(!own(commands[0]), rest);
      PickShifts(own, commands, Pick(own, commands[1..], false), rest);
      hide ForeignAt, Shifted;
    }
  }

  lemma PickShifts(own: Recognizer, commands: seq<Json>, kept: seq<Json>, rest: seq<int>)
    requires commands != [] && ForeignAt(own, commands[1..], kept, rest)
    ensures ForeignAt(own, commands, (if own(commands[0]) then [] else [commands[0]]) + kept,
                      Shifted(!own(commands[0]), rest))
  {
    var first := !own(commands[0]);
    ShiftedAt(first, rest);
    ShiftedHas(first, rest, |commands| - 1);
    hide Shifted;
    var at, k := Shifted(first, rest), if first then 1 else 0;
    var all := (if first then [commands[0]] else []) + kept;
    forall i | k <= i < |at| ensures all[i] == commands[at[i]] {
      assert commands[1..][rest[i - k]] == commands[rest[i - k] + 1];
    }
    forall j | 0 < j < |commands| ensures j in at <==> !own(commands[j]) {
      assert commands[1..][j - 1] == commands[j];
    }
  }

  lemma PickForeign(own: Recognizer, commands: seq<Json>, at: seq<int>)
    requires ForeignAt(own, commands, Pick(own, commands, false), at)
    ensures Pick(own, commands, false) != [] <==> exists c :: c in commands && !own(c)
  {
    hide Pick;
    if c :| c in commands && !own(c) {
      var j :| 0 <= j < |commands| && commands[j] == c;
      assert j in at;
    }
    if at != [] { assert at[0] in at && commands[at[0]] in commands; }
  }

  lemma ForeignExactly(own: Recognizer, entry: Json)
    ensures HasForeign(own, entry) ==> |Foreign(own, entry)| == 1 && LeftOf(own, entry, Foreign(own, entry)[0])
    ensures !HasForeign(own, entry) ==> Foreign(own, entry) == []
  {
    if Grouped(entry) {
      var at := PickExactly(own, Commands(entry));
      PickForeign(own, Commands(entry), at);
      hide Pick, ForeignAt;
    }
  }

  /** One entry more in front, and what is left of it. */
  lemma ShiftedLeft(own: Recognizer, entries: seq<Json>, head: seq<Json>, kept: seq<Json>, rest: seq<int>)
    requires entries != [] && LeftAt(own, entries[1..], kept, rest)
    requires |head| == (if HasForeign(own, entries[0]) then 1 else 0)
    requires head != [] ==> LeftOf(own, entries[0], head[0])
    ensures LeftAt(own, entries, head + kept, Shifted(HasForeign(own, entries[0]), rest))
  {
    hide LeftOf, HasForeign;
    var first := HasForeign(own, entries[0]);
    ShiftedHas(first, rest, |entries| - 1);
    ShiftedAt(first, rest);
    forall i | 0 <= i < |Shifted(first, rest)|
      ensures LeftOf(own, entries[Shifted(first, rest)[i]], (head + kept)[i])
    {
      if i >= |head| { assert LeftOf(own, entries[1..][rest[i - |head|]], kept[i - |head|]); }
      ShiftedOne(own, entries, head, kept, rest, i);
    }
    hide Shifted;
    forall j | 0 <= j < |entries| ensures j in Shifted(first, rest) <==> HasForeign(own, entries[j]) {
      if j > 0 { assert entries[1..][j - 1] == entries[j]; }
    }
  }

  lemma ShiftedOne(own: Recognizer, entries: seq<Json>, head: seq<Json>, kept: seq<Json>, rest: seq<int>, i: nat)
    requires entries != [] && |rest| == |kept| && i < |head| + |kept|
    requires |head| == (if HasForeign(own, entries[0]) then 1 else 0)
    requires head != [] ==> LeftOf(own, entries[0], head[0])
    requires i >= |head| ==> 0 <= rest[i - |head|] < |entries| - 1
                             && LeftOf(own, entries[rest[i - |head|] + 1], kept[i - |head|])
    ensures var all := Shifted(HasForeign(own, entries[0]), rest);
            i < |all| && 0 <= all[i] < |entries| && LeftOf(own, entries[all[i]], (head + kept)[i])
  {
    hide LeftOf, HasForeign;
    ShiftedAt(HasForeign(own, entries[0]), rest);
    hide Shifted;
  }

  lemma {:induction false} EntriesExactly(own: Recognizer, entries: seq<Json>) returns (at: seq<int>)
    ensures LeftAt(own, entries, ForeignEntries(own, entries), at)
  {
    hide LeftOf, HasForeign, Foreign;
    if entries == [] {
      at := [];
    } else {
      var rest := EntriesExactly(own, entries[1..]);
      ForeignExactly(own, entries[0]);
      ShiftedLeft(own, entries, Foreign(own, entries[0]), ForeignEntries(own, entries[1..]), rest);
      at := Shifted(HasForeign(own, entries[0]), rest);
    }
  }

  lemma WithoutExactly(own: Recognizer, value: Json)
    ensures KeptOfEvent(own, value, Without(own, value))
  {
    if value.List? { var at := EntriesExactly(own, value.items); }
  }

  lemma EventExactly(own: Recognizer, hooks: Fields, command: Json, e: string)
    ensures EventRewritten(own, hooks, DesiredHooks(own, hooks, command), command, e)
  {
    hide Without, KeptOfEvent;
    var kept := if e in hooks then Without(own, hooks[e]) else [];
    if e in hooks { WithoutExactly(own, hooks[e]); }
    DesiredAt(own, hooks, command, e);
    assert Added(e, command) == OwnFor(e, command);
    hide DesiredHooks, Added, OwnFor;
    assert EventIs(own, hooks, DesiredHooks(own, hooks, command), command, e, kept);
  }

  lemma RewriteExactly(own: Recognizer, document: Fields, command: Json)
    ensures Rewritten(own, document, Rewrite(own, document, command), command)
  {
    hide DesiredHooks, EventRewritten;
    forall e ensures EventRewritten(own, HooksOf(document), DesiredHooks(own, HooksOf(document), command), command, e) {
      EventExactly(own, HooksOf(document), command, e);
    }
  }

  // ------------------------------------------------------------------ the loops

  method KeepForeign(own: Recognizer, entry: Json) returns (kept: seq<Json>)
    ensures kept == Foreign(own, entry)
  {
    if !Grouped(entry) {
      return [entry];
    }
    var remaining := Pick(own, Commands(entry), false);
    kept := if remaining == [] then [] else [WithCommands(entry, remaining)];
  }

  method WithoutSidecarHooks(own: Recognizer, value: Json) returns (kept: seq<Json>)
    ensures kept == Without(own, value)
    ensures KeptOfEvent(own, value, kept)
  {
    WithoutExactly(own, value);
    hide KeptOfEvent;
    if !value.List? {
      return [value];
    }
    hide Foreign;
    kept := [];
    var rest := value.items;
    while rest != []
      invariant kept + ForeignEntries(own, rest) == ForeignEntries(own, value.items)
      decreases |rest|
    {
      var more := KeepForeign(own, rest[0]);
      assert kept + (more + ForeignEntries(own, rest[1..])) == (kept + more) + ForeignEntries(own, rest[1..]);
      kept := kept + more;
      rest := rest[1..];
    }
  }

  /** The events not pending are filtered, the others still as they were. */
  ghost predicate Filtered(own: Recognizer, before: Fields, hooks: Fields, pending: set<string>) {
    && (forall e :: e in hooks <==> e in before && (e in pending || Without(own, before[e]) != []))
    && (forall e :: e in hooks ==> hooks[e] == if e in pending then before[e] else List(Without(own, before[e])))
  }

  method FilterHooks(own: Recognizer, before: Fields) returns (hooks: Fields)
    ensures hooks == ForeignHooks(own, before)
  {
    hide Without;
    hooks := before;
    var pending := before.Keys;
    while pending != {}
      invariant pending <= before.Keys && Filtered(own, before, hooks, pending)
    {
      var event :| event in pending;
      pending := pending - {event};
      var filtered := WithoutSidecarHooks(own, hooks[event]);
      hooks := if filtered != [] then hooks[event := List(filtered)] else hooks - {event};
    }
  }

  method DesiredHooksDocument(own: Recognizer, existing: Fields, command: Json) returns (document: Fields)
    ensures document == Rewrite(own, existing, command)
    ensures Rewritten(own, existing, document, command)
  {
    hide Rewritten, Without;
    var hooks := FilterHooks(own, HooksOf(existing));
    hooks := Append(hooks, PROMPT, PromptEntry(command));
    hooks := Append(hooks, COMPACT, CompactEntry(command));
    document := existing["hooks" := Object(hooks)];
    RewriteExactly(own, existing, command);
  }

  // ------------------------------------------------------------------ filtering

  lemma {:induction false} PickOnly(own: Recognizer, commands: seq<Json>, which: bool)
    ensures forall c :: c in Pick(own, commands, which) ==> own(c) == which
  {
    if commands != [] { PickOnly(own, commands[1..], which); }
  }

  lemma {:induction false} PickAll(own: Recognizer, commands: seq<Json>, which: bool)
    requires forall c :: c in commands ==> own(c) == which
    ensures Pick(own, commands, which) == commands && Pick(own, commands, !which) == []
  {
    if commands != [] {
      PickAll(own, commands[1..], which);
      assert commands == [commands[0]] + commands[1..];
    }
  }

  /** What is foreign in an entry has nothing of the sidecar's left, and is not changed again. */
  lemma ForeignSettles(own: Recognizer, entry: Json)
    ensures forall x :: x in Foreign(own, entry) && Grouped(entry) ==> Foreign(own, x) == [x] && Sidecar(own, x) == []
  {
    if Grouped(entry) {
      var rest := Pick(own, Commands(entry), false);
      PickOnly(own, Commands(entry), false);
      PickAll(own, rest, false);
      if rest != [] {
        var x := WithCommands(entry, rest);
        assert Commands(x) == rest && WithCommands(x, rest) == x;
      }
    }
  }

  lemma Regroup<T>(a: seq<T>, b: seq<T>, c: seq<T>)
    ensures a + (b + c) == (a + b) + c
  {
  }

  lemma {:induction false} ForeignInSum(own: Recognizer, a: seq<Json>, b: seq<Json>)
    ensures ForeignEntries(own, a + b) == ForeignEntries(own, a) + ForeignEntries(own, b)
    ensures SidecarEntries(own, a + b) == SidecarEntries(own, a) + SidecarEntries(own, b)
  {
    hide Foreign, Sidecar;
    if a == [] {
      assert a + b == b;
    } else {
      ForeignInSum(own, a[1..], b);
      assert (a + b)[1..] == a[1..] + b && (a + b)[0] == a[0];
      Regroup(Foreign(own, a[0]), ForeignEntries(own, a[1..]), ForeignEntries(own, b));
      Regroup(Sidecar(own, a[0]), SidecarEntries(own, a[1..]), SidecarEntries(own, b));
    }
  }

  lemma {:induction false} ForeignTwice(own: Recognizer, entries: seq<Json>)
    ensures ForeignEntries(own, ForeignEntries(own, entries)) == ForeignEntries(own, entries)
    ensures SidecarEntries(own, ForeignEntries(own, entries)) == []
  {
    if entries != [] {
      var first, rest := Foreign(own, entries[0]), ForeignEntries(own, entries[1..]);
      ForeignTwice(own, entries[1..]);
      ForeignInSum(own, first, rest);
      ForeignSettles(own, entries[0]);
      if first != [] {
        assert first == [first[0]] && first[1..] == [];
        assert Foreign(own, first[0]) == first && Sidecar(own, first[0]) == [];
      }
    }
  }

  // ------------------------------------------------------------------ the two own entries

  lemma OwnEntries(own: Recognizer, command: Json)
    requires own(command)
    ensures Foreign(own, PromptEntry(command)) == [] && Sidecar(own, PromptEntry(command)) == [PromptEntry(command)]
    ensures Foreign(own, CompactEntry(command)) == [] && Sidecar(own, CompactEntry(command)) == [CompactEntry(command)]
  {
    var commands := [command];
    assert Pick(own, commands, true) == commands && Pick(own, commands, false) == [] by {
      PickAll(own, commands, true);
    }
    assert Commands(PromptEntry(command)) == commands && Commands(CompactEntry(command)) == commands;
    assert WithCommands(PromptEntry(command), commands) == PromptEntry(command);
    assert WithCommands(CompactEntry(command), commands) == CompactEntry(command);
  }

  function OwnFor(event: string, command: Json): seq<Json> {
    if event == PROMPT then [PromptEntry(command)] else if event == COMPACT then [CompactEntry(command)] else []
  }

  /** Each event after the rewriting: its foreign entries, then the sidecar's own. */
  lemma DesiredAt(own: Recognizer, hooks: Fields, command: Json, e: string)
    ensures var after := DesiredHooks(own, hooks, command);
            var items := (if e in hooks then Without(own, hooks[e]) else []) + OwnFor(e, command);
            && (e in after <==> items != []) && (e in after ==> after[e] == List(items)) && Items(after, e) == items
  {
    var kept := ForeignHooks(own, hooks);
    assert PROMPT != COMPACT;
    assert Items(kept, e) == if e in hooks then Without(own, hooks[e]) else [];
  }

  lemma OwnForOnly(own: Recognizer, command: Json, e: string)
    requires own(command)
    ensures ForeignEntries(own, OwnFor(e, command)) == []
            && SidecarEntries(own, OwnFor(e, command)) == OwnFor(e, command)
  {
    OwnEntries(own, command);
    if OwnFor(e, command) != [] { assert OwnFor(e, command)[1..] == []; }
  }

  // ------------------------------------------------------------------ rewriting twice

  /** An event value that is not a list stays in the document; the next rewriting sees it as an entry. */
  ghost predicate LooseValuesForeign(own: Recognizer, hooks: Fields) {
    forall e :: e in hooks && !hooks[e].List? ==> Foreign(own, hooks[e]) == [hooks[e]]
  }

  lemma WithoutTwice(own: Recognizer, value: Json)
    ensures ForeignEntries(own, Without(own, value)) == Without(own, value) <==>
            value.List? || Foreign(own, value) == [value]
    ensures SidecarEntries(own, Without(own, value)) == if value.List? then [] else Sidecar(own, value)
  {
    if value.List? {
      ForeignTwice(own, value.items);
    } else {
      assert [value][1..] == [];
    }
  }

  lemma AgainItems(own: Recognizer, hooks: Fields, command: Json, e: string)
    requires own(command)
    ensures var once := DesiredHooks(own, hooks, command);
            var base := if e in hooks then Without(own, hooks[e]) else [];
            && Items(once, e) == base + OwnFor(e, command)
            && Items(DesiredHooks(own, once, command), e) == ForeignEntries(own, base) + OwnFor(e, command)
  {
    var once := DesiredHooks(own, hooks, command);
    var base, mine := if e in hooks then Without(own, hooks[e]) else [], OwnFor(e, command);
    DesiredAt(own, hooks, command, e);
    DesiredAt(own, once, command, e);
    OwnForOnly(own, command, e);
    ForeignInSum(own, base, mine);
  }

  lemma AgainAt(own: Recognizer, hooks: Fields, command: Json, e: string)
    requires own(command)
    ensures var once := DesiredHooks(own, hooks, command); var twice := DesiredHooks(own, once, command);
            Items(twice, e) == Items(once, e) <==> e !in hooks || hooks[e].List? || Foreign(own, hooks[e]) == [hooks[e]]
  {
    AgainItems(own, hooks, command, e);
    if e in hooks { WithoutTwice(own, hooks[e]); }
    var base := if e in hooks then Without(own, hooks[e]) else [];
    hide DesiredHooks, Items, OwnFor;
    SameFront(ForeignEntries(own, base), base, OwnFor(e, command));
  }

  lemma SameFront<T>(a: seq<T>, b: seq<T>, c: seq<T>)
    ensures a + c == b + c <==> a == b
  {
    if a + c == b + c {
      assert |a| == |b|;
      assert (a + c)[..|a|] == a && (b + c)[..|b|] == b;
    }
  }

  /**
   Rewriting a document twice is rewriting it once, exactly when no event that is not a list
   holds a sidecar command or an empty command list.
   */
  lemma RewriteTwice(own: Recognizer, document: Fields, command: Json)
    requires own(command)
    ensures Rewrite(own, Rewrite(own, document, command), command) == Rewrite(own, document, command) <==>
            LooseValuesForeign(own, HooksOf(document))
  {
    var hooks := HooksOf(document);
    TwiceIsOnce(own, hooks, command);
    var once := DesiredHooks(own, hooks, command);
    var twice := DesiredHooks(own, once, command);
    hide DesiredHooks;
    assert HooksOf(Rewrite(own, document, command)) == once;
    var a, b := document["hooks" := Object(once)], document["hooks" := Object(twice)];
    assert a["hooks" := Object(twice)] == b;
    assert a["hooks"] == Object(once) && b["hooks"] == Object(twice);
  }

  lemma TwiceIsOnce(own: Recognizer, hooks: Fields, command: Json)
    requires own(command)
    ensures DesiredHooks(own, DesiredHooks(own, hooks, command), command) == DesiredHooks(own, hooks, command) <==>
            LooseValuesForeign(own, hooks)
  {
    var once := DesiredHooks(own, hooks, command);
    var twice := DesiredHooks(own, once, command);
    forall e { AgainAt(own, hooks, command, e); }
    DesiredListed(own, hooks, command);
    DesiredListed(own, once, command);
    hide DesiredHooks, Items, Foreign;
    SameFields(twice, once);
  }

  /** Every event has a list, and none is empty. */
  ghost predicate Listed(hooks: Fields) {
    forall e :: (e in hooks <==> Items(hooks, e) != []) && (e in hooks ==> hooks[e] == List(Items(hooks, e)))
  }

  lemma DesiredListed(own: Recognizer, hooks: Fields, command: Json)
    ensures Listed(DesiredHooks(own, hooks, command))
  {
    forall e { DesiredAt(own, hooks, command, e); }
    hide DesiredHooks, Items;
  }

  lemma SameFields(a: Fields, b: Fields)
    requires Listed(a) && Listed(b)
    ensures a == b <==> forall e :: Items(a, e) == Items(b, e)
  {
    hide Items;
    if forall e :: Items(a, e) == Items(b, e) {
      forall e ensures e in a <==> e in b { assert Items(a, e) == Items(b, e); }
      forall e | e in a ensures a[e] == b[e] { assert Items(a, e) == Items(b, e); }
    }
  }

  // ------------------------------------------------------------------ the fingerprint

  ghost predicate LooseValuesPlain(own: Recognizer, hooks: Fields) {
    forall e :: LooseSidecar(own, hooks, e) == []
  }

  lemma PartAt(own: Recognizer, document: Fields, command: Json, e: string)
    requires own(command)
    ensures var hooks := HooksOf(document);
            SidecarEntries(own, Items(HooksOf(Rewrite(own, document, command)), e)) ==
            LooseSidecar(own, hooks, e) + OwnFor(e, command)
  {
    var hooks := HooksOf(document);
    var base, mine := if e in hooks then Without(own, hooks[e]) else [], OwnFor(e, command);
    DesiredAt(own, hooks, command, e);
    OwnForOnly(own, command, e);
    ForeignInSum(own, base, mine);
    if e in hooks { WithoutTwice(own, hooks[e]); }
  }

  /**
   The fingerprint of a rewritten document is that of a fresh installation, whatever the
   document held before, exactly when no event that is not a list holds a sidecar command.
   */
  lemma FingerprintFixed(own: Recognizer, document: Fields, command: Json)
    requires own(command)
    ensures SidecarPart(own, Rewrite(own, document, command)) == Expected(command) <==>
            LooseValuesPlain(own, HooksOf(document))
  {
    hide PartOf, Items, Rewrite, Sidecar;
    var hooks, part := HooksOf(document), SidecarPart(own, Rewrite(own, document, command));
    forall e ensures Items(part, e) == Items(Expected(command), e) <==> LooseSidecar(own, hooks, e) == [] {
      FingerprintAt(own, document, command, e);
    }
    PartListed(own, HooksOf(Rewrite(own, document, command)));
    ExpectedListed(command);
    SameFields(part, Expected(command));
  }

  lemma FingerprintAt(own: Recognizer, document: Fields, command: Json, e: string)
    requires own(command)
    ensures var part := SidecarPart(own, Rewrite(own, document, command));
            Items(part, e) == Items(Expected(command), e) <==> LooseSidecar(own, HooksOf(document), e) == []
  {
    var loose, mine := LooseSidecar(own, HooksOf(document), e), OwnFor(e, command);
    DesiredAt(own, HooksOf(document), command, e);
    PartAt(own, document, command, e);
    assert Items(SidecarPart(own, Rewrite(own, document, command)), e) == loose + mine;
    assert PROMPT != COMPACT;
    assert Items(Expected(command), e) == mine;
    assert [] + mine == mine;
    SameFront(loose, [], mine);
  }

  lemma PartListed(own: Recognizer, hooks: Fields)
    ensures Listed(PartOf(own, hooks))
  {
  }

  lemma ExpectedListed(command: Json)
    ensures Listed(Expected(command))
  {
    assert PROMPT != COMPACT;
  }

  /** What the fingerprint would see of an event value that is not a list. */
  function LooseSidecar(own: Recognizer, hooks: Fields, e: string): seq<Json> {
    if e in hooks && !hooks[e].List? then Sidecar(own, hooks[e]) else []
  }

  // ------------------------------------------------------------------ foreign commands

  function CommandsOf(own: Recognizer, entry: Json, which: bool): seq<Json> {
    if Grouped(entry) then Pick(own, Commands(entry), which) else if which then [] else [entry]
  }

  /** The foreign things of a list, in order: single commands, and entries that hold none. Or the sidecar's. */
  function CommandsIn(own: Recognizer, entries: seq<Json>, which: bool): seq<Json> {
    if entries == [] then [] else CommandsOf(own, entries[0], which) + CommandsIn(own, entries[1..], which)
  }

  lemma {:induction false} CommandsInSum(own: Recognizer, a: seq<Json>, b: seq<Json>, which: bool)
    ensures CommandsIn(own, a + b, which) == CommandsIn(own, a, which) + CommandsIn(own, b, which)
  {
    hide CommandsOf;
    if a == [] {
      assert a + b == b;
    } else {
      CommandsInSum(own, a[1..], b, which);
      assert (a + b)[1..] == a[1..] + b && (a + b)[0] == a[0];
      Regroup(CommandsOf(own, a[0], which), CommandsIn(own, a[1..], which), CommandsIn(own, b, which));
    }
  }

  lemma {:induction false} ForeignStays(own: Recognizer, entries: seq<Json>)
    ensures CommandsIn(own, ForeignEntries(own, entries), false) == CommandsIn(own, entries, false)
    ensures CommandsIn(own, ForeignEntries(own, entries), true) == []
  {
    if entries != [] {
      var first, rest := Foreign(own, entries[0]), ForeignEntries(own, entries[1..]);
      ForeignStays(own, entries[1..]);
      CommandsInSum(own, first, rest, false);
      CommandsInSum(own, first, rest, true);
      if first != [] { assert first == [first[0]] && first[1..] == []; }
      if Grouped(entries[0]) {
        var kept := Pick(own, Commands(entries[0]), false);
        PickOnly(own, Commands(entries[0]), false);
        PickAll(own, kept, false);
      }
    }
  }

  /** Rewriting keeps every event's foreign commands in order, and leaves two sidecar commands in all. */
  lemma RewriteKeepsForeign(own: Recognizer, document: Fields, command: Json, e: string)
    requires own(command) && (e in HooksOf(document) ==> HooksOf(document)[e].List?)
    ensures var after := HooksOf(Rewrite(own, document, command));
            && CommandsIn(own, Items(after, e), false) == CommandsIn(own, Items(HooksOf(document), e), false)
            && CommandsIn(own, Items(after, e), true) == if e in {PROMPT, COMPACT} then [command] else []
  {
    var hooks := HooksOf(document);
    var base, mine := if e in hooks then Without(own, hooks[e]) else [], OwnFor(e, command);
    DesiredAt(own, hooks, command, e);
    CommandsInSum(own, base, mine, false);
    CommandsInSum(own, base, mine, true);
    if e in hooks { ForeignStays(own, hooks[e].items); }
    PickAll(own, [command], true);
    if mine != [] { assert mine[1..] == [] && Commands(mine[0]) == [command]; }
  }

  // ------------------------------------------------------------------ values outside lists

  const OWN_COMMAND: Json := Object(map["command" := String("agent-memory-sidecar")])

  function OnlyOwn(): Recognizer {
    (command: Json) => command == OWN_COMMAND
  }

  /** A document in which one event holds a group of commands, not a list of groups. */
  function LooseDocument(commands: seq<Json>): Fields {
    map["hooks" := Object(map["Stop" := Object(map["hooks" := List(commands)])])]
  }

  lemma LooseGroup(commands: seq<Json>)
    ensures HooksOf(LooseDocument(commands)) == map["Stop" := Object(map["hooks" := List(commands)])]
    ensures Grouped(HooksOf(LooseDocument(commands))["Stop"])
            && Commands(HooksOf(LooseDocument(commands))["Stop"]) == commands
  {
  }

  /** A sidecar command there survives the first rewriting, not the second, and changes the fingerprint. */
  lemma LooseCommandEscapes()
    ensures var own, d := OnlyOwn(), LooseDocument([OWN_COMMAND]);
            && Rewrite(own, Rewrite(own, d, OWN_COMMAND), OWN_COMMAND) != Rewrite(own, d, OWN_COMMAND)
            && SidecarPart(own, Rewrite(own, d, OWN_COMMAND)) != Expected(OWN_COMMAND)
  {
    var own, d := OnlyOwn(), LooseDocument([OWN_COMMAND]);
    LooseGroup([OWN_COMMAND]);
    PickAll(own, [OWN_COMMAND], true);
    var v := HooksOf(d)["Stop"];
    assert Foreign(own, v) == [] && Sidecar(own, v) != [];
    assert LooseSidecar(own, HooksOf(d), "Stop") != [];
    hide Rewrite, SidecarPart, Expected;
    RewriteTwice(own, d, OWN_COMMAND);
    FingerprintFixed(own, d, OWN_COMMAND);
  }

  /** An empty list of commands there is lost by the second rewriting only; the fingerprint is right. */
  lemma LooseEmptyGroupIsLost()
    ensures var own, d := OnlyOwn(), LooseDocument([]);
            && Rewrite(own, Rewrite(own, d, OWN_COMMAND), OWN_COMMAND) != Rewrite(own, d, OWN_COMMAND)
            && SidecarPart(own, Rewrite(own, d, OWN_COMMAND)) == Expected(OWN_COMMAND)
  {
    var own, d := OnlyOwn(), LooseDocument([]);
    LooseGroup([]);
    var v := HooksOf(d)["Stop"];
    assert Foreign(own, v) == [] && Sidecar(own, v) == [];
    forall e ensures LooseSidecar(own, HooksOf(d), e) == [] { }
    hide Rewrite, SidecarPart, Expected;
    RewriteTwice(own, d, OWN_COMMAND);
    FingerprintFixed(own, d, OWN_COMMAND);
  }
}
