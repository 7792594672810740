/**
 Who may do what: actors with their grants, record scope on the write side and on the read side, standing
 permissions and the decision itself.

 The tables of role defaults and client scopes, fnmatch and lower-casing are parameters (Rules).
 */
module Policy {
  import opened Wrappers

  type Id = string
  type Time = int

  datatype Kind = User | Agent | External | System

  datatype Actor = Actor(
    kind: Kind,
    userId: Option<Id>,
    role: string,
    assignedOnly: bool,             // scope == "assigned"
    perms: map<string, bool>,
    clientId: Option<Id>,
    clientScopes: set<string>,
    clientVehicles: seq<Id>)        // client_record_scope.vehicle_ids; empty is unrestricted

  datatype Rules = Rules(
    matches: (string, string) -> bool,
    lower: string -> string,
    clientScope: map<string, string>,
    roleDefaults: map<string, map<string, bool>>)

  const OWNER := "owner"

  predicate Flag(perms: map<string, bool>, key: string) { key in perms && perms[key] }

  predicate HasPerm(rules: Rules, a: Actor, perm: Option<string>) {
    perm.None? || a.kind.System? ||
    (Flag(a.perms, perm.value) &&
     (a.kind.External? ==> perm.value in rules.clientScope && rules.clientScope[perm.value] in a.clientScopes))
  }

  // ---- effective permissions -------------------------------------------------------------------

  predicate OwnerLocked(key: string) {
    key == "tasks.verify" || key == "team" || key == "approve" || key == "permissions" || key == "settings" ||
    key == "connections" || key == "inbox.send" || key == "listings.publish" || key == "parts.order" || key == "finance.write"
  }

  function Defaults(rules: Rules, role: string): map<string, bool>
    requires "mechanic" in rules.roleDefaults
  {
    if role in rules.roleDefaults then rules.roleDefaults[role] else rules.roleDefaults["mechanic"]
  }

  /** Overrides change known keys only, and for anybody but an owner not the locked ones. */
  predicate MayOverride(role: string, key: string) { role == OWNER || !OwnerLocked(key) }

  function Effective(base: map<string, bool>, role: string, overrides: map<string, bool>, k: string): bool
    requires k in base
  {
    if k in overrides && MayOverride(role, k) then overrides[k] else base[k]
  }

  method EffectivePerms(rules: Rules, role: string, overrides: map<string, bool>) returns (perms: map<string, bool>)
    requires "mechanic" in rules.roleDefaults
    ensures perms.Keys == Defaults(rules, role).Keys
    ensures forall k <- perms :: perms[k] == Effective(Defaults(rules, role), role, overrides, k)
    ensures forall k <- perms :: k !in overrides ==>
      perms[k] == if role in rules.roleDefaults then rules.roleDefaults[role][k] else rules.roleDefaults["mechanic"][k]
    ensures forall k <- perms :: k in overrides && role == "owner" ==> perms[k] == overrides[k]
    ensures forall k <- perms :: k in overrides && role != "owner" ==>
      if k == "tasks.verify" || k == "team" || k == "approve" || k == "permissions" || k == "settings" || k == "connections" ||
         k == "inbox.send" || k == "listings.publish" || k == "parts.order" || k == "finance.write"
      then perms[k] == Defaults(rules, role)[k] else perms[k] == overrides[k]
  {
    var base := Defaults(rules, role);
    perms := base;
    var todo := overrides.Keys;
    while todo != {}
      invariant todo <= overrides.Keys
      invariant perms.Keys == base.Keys
      invariant forall k <- perms :: perms[k] == if k in todo then base[k] else Effective(base, role, overrides, k)
    {
      var k :| k in todo;
      todo := todo - {k};
      if OwnerLocked(k) && role != OWNER {
        continue;
      }
      if k in perms {
        perms := perms[k := overrides[k]];
      }
    }
  }

  // ---- record scope ----------------------------------------------------------------------------

  datatype RecordKind = Vehicle | Task | Conversation | Draft | Other

  datatype Record = Record(kind: RecordKind, id: Id)

  datatype Thread = Thread(vehicles: set<Id>, personal: bool)

  datatype TaskRow = TaskRow(owner: Option<Id>, vehicle: Option<Id>)

  datatype ScopeReason =
    | OutsideClientScope(record: Record)
    | NotAssigned(record: Record)
    | PersonalAccount(record: Record)

  /** Anybody without vehicles.all is limited to what is assigned to them. */
  predicate Limited(a: Actor) {
    (a.kind.User? || a.kind.Agent?) && (a.assignedOnly || !Flag(a.perms, "vehicles.all"))
  }

  predicate Falsy(id: Option<Id>) { id.None? || id.value == "" }

  /** _assigned_sets. */
  function AssignedVehicles(tasks: map<Id, TaskRow>, a: Actor): set<Id> {
    if !Limited(a) || Falsy(a.userId) then {}
    else set t <- tasks | tasks[t].owner == a.userId && !Falsy(tasks[t].vehicle) :: tasks[t].vehicle.value
  }

  function AssignedTasks(tasks: map<Id, TaskRow>, a: Actor): set<Id> {
    if !Limited(a) || Falsy(a.userId) then {} else set t <- tasks | tasks[t].owner == a.userId
  }

  predicate CanSeePersonal(a: Actor) {
    a.kind.System? || ((a.kind.User? || a.kind.Agent?) && a.role == OWNER)
  }

  predicate IsThread(r: Record, threads: map<Id, Thread>) {
    (r.kind.Conversation? || r.kind.Draft?) && r.id in threads
  }

  predicate Linked(r: Record, threads: map<Id, Thread>, to: set<Id>) {
    IsThread(r, threads) && threads[r.id].vehicles != {} && threads[r.id].vehicles * to == {}
  }

  /** visible_vehicle_ids: None is unrestricted. Comparing with a missing user id selects the unowned tasks. */
  function VisibleVehicles(tasks: map<Id, TaskRow>, a: Actor): Option<set<Id>> {
    if a.kind.External? && a.clientVehicles != [] then Some(set v <- a.clientVehicles)
    else if Limited(a) then Some(set t <- tasks | tasks[t].owner == a.userId && tasks[t].vehicle.Some? :: tasks[t].vehicle.value)
    else None
  }

  /** visible_vehicle_ids. Nobody but a client with listed vehicles and a limited person or agent is restricted: the one to
      the vehicles listed, the other to those with a task of theirs. */
  method VisibleVehicleIds(tasks: map<Id, TaskRow>, a: Actor) returns (limit: Option<set<Id>>)
    ensures limit == VisibleVehicles(tasks, a)
    ensures limit.Some? <==>
      if a.kind.External? then a.clientVehicles != []
      else !a.kind.System? && (a.assignedOnly || "vehicles.all" !in a.perms || !a.perms["vehicles.all"])
    ensures limit.Some? && a.kind.External? ==> forall v :: v in limit.value <==> v in a.clientVehicles
    ensures limit.Some? && !a.kind.External? ==>
      forall v :: v in limit.value <==> exists t :: t in tasks && tasks[t].owner == a.userId && tasks[t].vehicle == Some(v)
  {
    limit := None;
    if a.kind.External? && a.clientVehicles != [] {
      limit := Some(set v <- a.clientVehicles);
    }
    if (a.kind.User? || a.kind.Agent?) && (a.assignedOnly || !Flag(a.perms, "vehicles.all")) {
      var mine := set t <- tasks | tasks[t].owner == a.userId && tasks[t].vehicle.Some? :: tasks[t].vehicle.value;
      limit := Some(mine);      // no actor is limited by a client grant as well
    }
  }

  /** The reasons one record adds, in the order of the three loops. */
  function ClientReason(a: Actor, r: Record, threads: map<Id, Thread>): seq<ScopeReason> {
    if a.kind.External? && a.clientVehicles != [] &&
       ((r.kind.Vehicle? && r.id !in a.clientVehicles) || Linked(r, threads, set v <- a.clientVehicles))
    then [OutsideClientScope(r)] else []
  }

  function AssignmentReason(a: Actor, r: Record, vehicles: set<Id>, tasks: set<Id>, threads: map<Id, Thread>): seq<ScopeReason> {
    if Limited(a) &&
       ((r.kind.Vehicle? && r.id !in vehicles) || (r.kind.Task? && r.id !in tasks) || Linked(r, threads, vehicles))
    then [NotAssigned(r)] else []
  }

  function PersonalReason(a: Actor, r: Record, threads: map<Id, Thread>): seq<ScopeReason> {
    if !CanSeePersonal(a) && IsThread(r, threads) && threads[r.id].personal then [PersonalAccount(r)] else []
  }

  function Each(records: seq<Record>, reason: Record -> seq<ScopeReason>): seq<ScopeReason> {
    if records == [] then [] else Each(records[..|records| - 1], reason) + reason(records[|records| - 1])
  }

  function ScopeReasons(a: Actor, records: seq<Record>, vehicles: set<Id>, tasks: set<Id>, threads: map<Id, Thread>): seq<ScopeReason> {
    Each(records, r => ClientReason(a, r, threads)) +
    Each(records, r => AssignmentReason(a, r, vehicles, tasks, threads)) +
    Each(records, r => PersonalReason(a, r, threads))
  }

  lemma EachSnoc(records: seq<Record>, i: nat, reason: Record -> seq<ScopeReason>)
    requires i < |records|
    ensures Each(records[..i + 1], reason) == Each(records[..i], reason) + reason(records[i])
  {
    assert records[..i + 1][..i] == records[..i];
  }

  /** check_record_scope. */
  method CheckRecordScope(a: Actor, records: seq<Record>, vehicles: set<Id>, tasks: set<Id>, threads: map<Id, Thread>)
    returns (reasons: seq<ScopeReason>)
    ensures reasons == ScopeReasons(a, records, vehicles, tasks, threads)
  {
    var client := ClientPass(a, records, threads);
    var work := AssignmentPass(a, records, vehicles, tasks, threads);
    var personal := PersonalPass(a, records, threads);
    reasons := client + work + personal;
  }

  method ClientPass(a: Actor, records: seq<Record>, threads: map<Id, Thread>) returns (reasons: seq<ScopeReason>)
    ensures reasons == Each(records, r => ClientReason(a, r, threads))
  {
    ghost var reason := r => ClientReason(a, r, threads);
    reasons := [];
    var limit := set v <- a.clientVehicles;
    var i := 0;
    while i < |records|
      invariant 0 <= i <= |records|
      invariant reasons == Each(records[..i], reason)
    {
      var r := records[i];
      EachSnoc(records, i, reason);
      if a.kind.External? && a.clientVehicles != [] {
        if r.kind.Vehicle? && r.id !in limit {
          reasons := reasons + [OutsideClientScope(r)];
        }
        if (r.kind.Conversation? || r.kind.Draft?) && r.id in threads {
          var linked := threads[r.id].vehicles;
          if linked != {} && linked * limit == {} {
            reasons := reasons + [OutsideClientScope(r)];
          }
        }
      }
      i := i + 1;
    }
    assert records[..|records|] == records;
  }

  method AssignmentPass(a: Actor, records: seq<Record>, vehicles: set<Id>, tasks: set<Id>, threads: map<Id, Thread>)
    returns (reasons: seq<ScopeReason>)
    ensures reasons == Each(records, r => AssignmentReason(a, r, vehicles, tasks, threads))
  {
    ghost var reason := r => AssignmentReason(a, r, vehicles, tasks, threads);
    reasons := [];
    var i := 0;
    while i < |records|
      invariant 0 <= i <= |records|
      invariant reasons == Each(records[..i], reason)
    {
      var r := records[i];
      EachSnoc(records, i, reason);
      if Limited(a) {
        if r.kind.Vehicle? && r.id !in vehicles {
          reasons := reasons + [NotAssigned(r)];
        }
        if r.kind.Task? && r.id !in tasks {
          reasons := reasons + [NotAssigned(r)];
        }
        if (r.kind.Conversation? || r.kind.Draft?) && r.id in threads {
          var linked := threads[r.id].vehicles;
          if linked != {} && linked * vehicles == {} {
            reasons := reasons + [NotAssigned(r)];
          }
        }
      }
      i := i + 1;
    }
    assert records[..|records|] == records;
  }

  method PersonalPass(a: Actor, records: seq<Record>, threads: map<Id, Thread>) returns (reasons: seq<ScopeReason>)
    ensures reasons == Each(records, r => PersonalReason(a, r, threads))
  {
    ghost var reason := r => PersonalReason(a, r, threads);
    reasons := [];
    var i := 0;
    while i < |records|
      invariant 0 <= i <= |records|
      invariant reasons == Each(records[..i], reason)
    {
      var r := records[i];
      EachSnoc(records, i, reason);
      if !CanSeePersonal(a) && (r.kind.Conversation? || r.kind.Draft?) && r.id in threads && threads[r.id].personal {
        reasons := reasons + [PersonalAccount(r)];
      }
      i := i + 1;
    }
    assert records[..|records|] == records;
  }

  lemma {:induction false} EachEmpty(records: seq<Record>, reason: Record -> seq<ScopeReason>)
    ensures Each(records, reason) == [] <==> forall r <- records :: reason(r) == []
  {
    if records != [] {
      var front := records[..|records| - 1];
      EachEmpty(front, reason);
      assert records == front + [records[|records| - 1]];
    }
  }

  lemma {:induction false} EachMember(records: seq<Record>, reason: Record -> seq<ScopeReason>, x: ScopeReason)
    ensures x in Each(records, reason) <==> exists r :: r in records && x in reason(r)
  {
    if records != [] {
      var front, last := records[..|records| - 1], records[|records| - 1];
      EachMember(front, reason, x);
      assert records == front + [last];
      assert forall r :: r in records <==> r in front || r == last;
    }
  }

  /** The record is a known conversation or draft that is linked to vehicles, but to none of these. */
  predicate LinkedElsewhere(r: Record, threads: map<Id, Thread>, to: set<Id>) {
    (r.kind.Conversation? || r.kind.Draft?) && r.id in threads && threads[r.id].vehicles != {} &&
    forall v :: v in threads[r.id].vehicles ==> v !in to
  }

  /** A client with listed vehicles may not touch other vehicles, nor threads that are linked to other vehicles only. */
  predicate OutsideClient(a: Actor, r: Record, threads: map<Id, Thread>) {
    a.kind.External? && a.clientVehicles != [] &&
    ((r.kind.Vehicle? && r.id !in a.clientVehicles) || LinkedElsewhere(r, threads, set v <- a.clientVehicles))
  }

  /** A person or agent with the assigned scope, or without vehicles.all, may not touch vehicles and tasks that are not
      assigned to them, nor threads that are linked to such vehicles only. */
  predicate OutsideAssignment(a: Actor, r: Record, vehicles: set<Id>, tasks: set<Id>, threads: map<Id, Thread>) {
    (a.kind.User? || a.kind.Agent?) && (a.assignedOnly || "vehicles.all" !in a.perms || !a.perms["vehicles.all"]) &&
    ((r.kind.Vehicle? && r.id !in vehicles) || (r.kind.Task? && r.id !in tasks) || LinkedElsewhere(r, threads, vehicles))
  }

  /** Threads on a personal account are for the system and for an owner, in person or through an agent. */
  predicate OutsidePersonal(a: Actor, r: Record, threads: map<Id, Thread>) {
    (r.kind.Conversation? || r.kind.Draft?) && r.id in threads && threads[r.id].personal &&
    (a.kind.External? || ((a.kind.User? || a.kind.Agent?) && a.role != "owner"))
  }

  lemma LinkedIsElsewhere(r: Record, threads: map<Id, Thread>, to: set<Id>)
    ensures Linked(r, threads, to) <==> LinkedElsewhere(r, threads, to)
  {
    if IsThread(r, threads) {
      var linked := threads[r.id].vehicles;
      forall v | v in linked && v in to ensures v in linked * to {}
      if v :| v in linked * to { assert v in linked && v in to; }
    }
  }

  /** The reasons name exactly the records that are out of scope, each for the rule it breaks. */
  lemma ReasonsAreExact(a: Actor, records: seq<Record>, vehicles: set<Id>, tasks: set<Id>, threads: map<Id, Thread>, r: Record)
    ensures var reasons := ScopeReasons(a, records, vehicles, tasks, threads);
      && (OutsideClientScope(r) in reasons <==> r in records && OutsideClient(a, r, threads))
      && (NotAssigned(r) in reasons <==> r in records && OutsideAssignment(a, r, vehicles, tasks, threads))
      && (PersonalAccount(r) in reasons <==> r in records && OutsidePersonal(a, r, threads))
  {
    LinkedIsElsewhere(r, threads, set v <- a.clientVehicles);
    LinkedIsElsewhere(r, threads, vehicles);
    ReasonsOfRules(a, records, vehicles, tasks, threads, OutsideClientScope(r));
    ReasonsOfRules(a, records, vehicles, tasks, threads, NotAssigned(r));
    ReasonsOfRules(a, records, vehicles, tasks, threads, PersonalAccount(r));
  }

  predicate Named(a: Actor, x: ScopeReason, vehicles: set<Id>, tasks: set<Id>, threads: map<Id, Thread>) {
    || x in ClientReason(a, x.record, threads)
    || x in AssignmentReason(a, x.record, vehicles, tasks, threads)
    || x in PersonalReason(a, x.record, threads)
  }

  lemma ReasonsOfRules(a: Actor, records: seq<Record>, vehicles: set<Id>, tasks: set<Id>, threads: map<Id, Thread>, x: ScopeReason)
    ensures x in ScopeReasons(a, records, vehicles, tasks, threads) <==> x.record in records && Named(a, x, vehicles, tasks, threads)
  {
    EachMember(records, r => ClientReason(a, r, threads), x);
    EachMember(records, r => AssignmentReason(a, r, vehicles, tasks, threads), x);
    EachMember(records, r => PersonalReason(a, r, threads), x);
  }

  predicate InScope(a: Actor, r: Record, vehicles: set<Id>, tasks: set<Id>, threads: map<Id, Thread>) {
    && ClientReason(a, r, threads) == []
    && AssignmentReason(a, r, vehicles, tasks, threads) == []
    && PersonalReason(a, r, threads) == []
  }

  lemma NoReasonsExactlyInScope(a: Actor, records: seq<Record>, vehicles: set<Id>, tasks: set<Id>, threads: map<Id, Thread>)
    ensures ScopeReasons(a, records, vehicles, tasks, threads) == [] <==>
      forall r <- records :: InScope(a, r, vehicles, tasks, threads)
  {
    EachEmpty(records, r => ClientReason(a, r, threads));
    EachEmpty(records, r => AssignmentReason(a, r, vehicles, tasks, threads));
    EachEmpty(records, r => PersonalReason(a, r, threads));
  }

  // ---- writing and reading agree ---------------------------------------------------------------

  /** The reasons dispatch computes for an actor over the task table. */
  function DispatchReasons(tasks: map<Id, TaskRow>, a: Actor, records: seq<Record>, threads: map<Id, Thread>): seq<ScopeReason> {
    ScopeReasons(a, records, AssignedVehicles(tasks, a), AssignedTasks(tasks, a), threads)
  }

  predicate Sees(tasks: map<Id, TaskRow>, a: Actor, vehicle: Id) {
    VisibleVehicles(tasks, a).None? || vehicle in VisibleVehicles(tasks, a).value
  }

  lemma OneRecord(tasks: map<Id, TaskRow>, a: Actor, r: Record, threads: map<Id, Thread>)
    ensures DispatchReasons(tasks, a, [r], threads) == [] <==>
      InScope(a, r, AssignedVehicles(tasks, a), AssignedTasks(tasks, a), threads)
  {
    NoReasonsExactlyInScope(a, [r], AssignedVehicles(tasks, a), AssignedTasks(tasks, a), threads);
  }

  /** Write scope is read scope: a vehicle may be written to exactly when it is visible, except to a limited person
      or agent without a user id, who sees the vehicles of unowned tasks but may write to none. */
  lemma WriteScopeIsReadScope(tasks: map<Id, TaskRow>, a: Actor, vehicle: Id, threads: map<Id, Thread>)
    requires vehicle != ""      // dispatch drops empty ids
    ensures (DispatchReasons(tasks, a, [Record(Vehicle, vehicle)], threads) == [] <==> Sees(tasks, a, vehicle)) <==>
      !(Limited(a) && Falsy(a.userId) && exists t :: t in tasks && tasks[t].owner == a.userId && tasks[t].vehicle == Some(vehicle))
  {
    OneRecord(tasks, a, Record(Vehicle, vehicle), threads);
    var seen := VisibleVehicles(tasks, a);
    if Limited(a) {
      assert vehicle in seen.value <==> exists t :: t in tasks && tasks[t].owner == a.userId && tasks[t].vehicle == Some(vehicle);
      if !Falsy(a.userId) {
        assert vehicle in AssignedVehicles(tasks, a) <==> vehicle in seen.value;
      }
    }
  }

  /** A task may be written to by anybody who is not limited, and otherwise exactly by the owner of its row. */
  lemma TaskScopeIsOwnership(tasks: map<Id, TaskRow>, a: Actor, task: Id, threads: map<Id, Thread>)
    ensures DispatchReasons(tasks, a, [Record(Task, task)], threads) == [] <==>
      || a.kind.System? || a.kind.External?
      || (!a.assignedOnly && "vehicles.all" in a.perms && a.perms["vehicles.all"])
      || (a.userId.Some? && a.userId.value != "" && task in tasks && tasks[task].owner == a.userId)
  {
    OneRecord(tasks, a, Record(Task, task), threads);
  }

  /** A conversation or draft may be written to exactly when it is unlinked or linked to a visible vehicle, and
      not on a personal account that is hidden from the actor. */
  lemma ThreadScopeIsReadScope(tasks: map<Id, TaskRow>, a: Actor, r: Record, threads: map<Id, Thread>)
    requires IsThread(r, threads) && (Limited(a) ==> !Falsy(a.userId)) && "" !in threads[r.id].vehicles
    ensures DispatchReasons(tasks, a, [r], threads) == [] <==>
      && (threads[r.id].personal ==> a.kind.System? || (!a.kind.External? && a.role == "owner"))
      && (threads[r.id].vehicles == {} || exists v :: v in threads[r.id].vehicles && Sees(tasks, a, v))
  {
    OneRecord(tasks, a, r, threads);
    var linked := threads[r.id].vehicles;
    if Limited(a) {
      UnlinkedMeans(r, threads, AssignedVehicles(tasks, a));
      forall v | v in linked ensures v in AssignedVehicles(tasks, a) <==> Sees(tasks, a, v) {
        AssignedIsVisible(tasks, a, v);
      }
    } else if a.kind.External? && a.clientVehicles != [] {
      UnlinkedMeans(r, threads, set v <- a.clientVehicles);
      assert forall v :: v in linked ==> (v in (set w <- a.clientVehicles) <==> Sees(tasks, a, v));
    } else {
      assert VisibleVehicles(tasks, a).None?;
      if linked != {} {
        var v :| v in linked;
        assert Sees(tasks, a, v);
      }
    }
  }

  lemma UnlinkedMeans(r: Record, threads: map<Id, Thread>, to: set<Id>)
    requires IsThread(r, threads)
    ensures !Linked(r, threads, to) <==> threads[r.id].vehicles == {} || exists v :: v in threads[r.id].vehicles && v in to
  {
    var linked := threads[r.id].vehicles;
    forall v | v in linked && v in to ensures v in linked * to {}
    if v :| v in linked * to {
      assert v in linked && v in to;
    }
  }

  lemma AssignedIsVisible(tasks: map<Id, TaskRow>, a: Actor, v: Id)
    requires Limited(a) && !Falsy(a.userId) && v != ""
    ensures v in AssignedVehicles(tasks, a) <==> Sees(tasks, a, v)
  {
    if v in VisibleVehicles(tasks, a).value {
      var t :| t in tasks && tasks[t].owner == a.userId && tasks[t].vehicle == Some(v);
    }
  }
}
