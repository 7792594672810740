/** The policy decision: who may run a command right now, with an approval or a standing permission. */
module Decisions {
  import opened Wrappers
  import opened Policy

  datatype ActionClass = Read | Internal | Consequential | OwnerOnly | ForbiddenForAgents

  datatype Command = Command(name: string, perm: Option<string>, actionClass: ActionClass, workflow: Option<string>)

  /** What a command reports about its payload. Amounts are in minor units. */
  datatype Info = Info(
    recipients: seq<string>, amount: Option<int>, currency: string, records: seq<Id>, fields: seq<string>)

  /** An active standing permission; an empty string or list means no restriction. */
  datatype Standing = Standing(
    id: Id, pattern: string, effectiveFrom: Option<Time>, expiresAt: Option<Time>,
    subjectKind: string, subjectId: Option<Id>, workflow: string,
    recipients: seq<string>, domains: seq<string>, currency: string,
    perActionLimit: Option<int>, cumulativeLimit: Option<int>, usedAmount: int, reservedAmount: int,
    perDay: nat, usedCount: nat, allowedRecords: seq<Id>, fields: seq<string>)

  datatype Approval = Approval(status: string, commandName: string)

  datatype Why =
    | AutomationPaused | UnavailableToAgents | OutOfScope(scope: seq<ScopeReason>) | MissingPermission
    | AuthorizedWork | OwnerAction | OwnerDecisionRequired | NotTheOwner
    | ApprovalIs(status: string) | ApprovalForOther | ExactApproval | StandingPermission
    | Expired(id: Id) | Recipient | Domain | Currency | ActionLimit | CumulativeLimit | RateLimit | RecordOutside | FieldOutside
    | NothingCovers

  datatype Outcome = Blocked | NeedsReview | Allowed

  datatype Decision = Decision(outcome: Outcome, reasons: seq<Why>, permission: Option<Id>)

  // ---- standing permissions --------------------------------------------------------------------

  /** r.split("@")[-1]. */
  function DomainOf(address: string): string {
    if address == "" then "" else
    var last := address[|address| - 1];
    if last == '@' then "" else DomainOf(address[..|address| - 1]) + [last]
  }

  predicate In(rules: Rules, x: string, list: seq<string>) {
    exists y :: y in list && rules.lower(y) == rules.lower(x)
  }

  /** What a permission says to a request: it covers it, it does not concern it, or it refuses it for a reason. */
  datatype Verdict = Covers | Unrelated | Refuses(why: Why)

  predicate Concerns(rules: Rules, p: Standing, now: Time, command: Command) {
    && rules.matches(p.pattern, command.name)
    && (p.effectiveFrom.Some? ==> p.effectiveFrom.value <= now)
  }

  predicate ForSubject(p: Standing, a: Actor) {
    && (p.subjectKind == "user" ==> p.subjectId == a.userId)
    && (p.subjectKind == "client" ==> p.subjectId == a.clientId)
  }

  function AmountVerdict(p: Standing, info: Info): Verdict {
    if info.amount.None? then Covers
    else if info.currency != "" && p.currency != "" && info.currency != p.currency then Refuses(Currency)
    else if p.perActionLimit.Some? && info.amount.value > p.perActionLimit.value then Refuses(ActionLimit)
    else if p.cumulativeLimit.Some? && p.usedAmount + p.reservedAmount + info.amount.value > p.cumulativeLimit.value
      then Refuses(CumulativeLimit)
    else Covers
  }

  function Judge(rules: Rules, p: Standing, now: Time, a: Actor, command: Command, info: Info): Verdict {
    if !Concerns(rules, p, now, command) then Unrelated
    else if p.expiresAt.Some? && p.expiresAt.value <= now then Refuses(Expired(p.id))
    else if !ForSubject(p, a) then Unrelated
    else if p.workflow != "" && command.workflow.Some? && command.workflow.value != p.workflow then Unrelated
    else if p.recipients != [] && exists r :: r in info.recipients && !In(rules, r, p.recipients) then Refuses(Recipient)
    else if p.domains != [] && exists r :: r in info.recipients && !In(rules, DomainOf(r), p.domains) then Refuses(Domain)
    else if AmountVerdict(p, info).Refuses? then AmountVerdict(p, info)
    else if p.perDay > 0 && p.usedCount >= p.perDay then Refuses(RateLimit)
    else if p.allowedRecords != [] && exists r :: r in info.records && r !in p.allowedRecords then Refuses(RecordOutside)
    else if p.fields != [] && exists f :: f in info.fields && f !in p.fields then Refuses(FieldOutside)
    else Covers
  }

  /** The limits an owner may put on a permission, each one checked on its own. */
  ghost predicate WithinLimits(rules: Rules, p: Standing, now: Time, a: Actor, command: Command, info: Info) {
    && rules.matches(p.pattern, command.name)
    && (p.effectiveFrom.Some? ==> p.effectiveFrom.value <= now) && (p.expiresAt.Some? ==> now < p.expiresAt.value)
    && (p.subjectKind == "user" ==> p.subjectId == a.userId) && (p.subjectKind == "client" ==> p.subjectId == a.clientId)
    && (p.workflow != "" && command.workflow.Some? ==> command.workflow.value == p.workflow)
    && (p.recipients != [] ==> forall r :: r in info.recipients ==> exists y :: y in p.recipients && rules.lower(y) == rules.lower(r))
    && (p.domains != [] ==> forall r :: r in info.recipients ==> exists y :: y in p.domains && rules.lower(y) == rules.lower(DomainOf(r)))
    && (info.amount.Some? ==>
          && (p.perActionLimit.Some? ==> info.amount.value <= p.perActionLimit.value)
          && (p.cumulativeLimit.Some? ==> p.usedAmount + p.reservedAmount + info.amount.value <= p.cumulativeLimit.value)
          && (info.currency != "" && p.currency != "" ==> info.currency == p.currency))
    && (p.perDay > 0 ==> p.usedCount < p.perDay)
    && (p.allowedRecords != [] ==> forall r :: r in info.records ==> r in p.allowedRecords)
    && (p.fields != [] ==> forall f :: f in info.fields ==> f in p.fields)
  }

  /** A permission covers a request exactly when every one of its limits is met. */
  lemma CoversExactlyWithinLimits(rules: Rules, p: Standing, now: Time, a: Actor, command: Command, info: Info)
    ensures Judge(rules, p, now, a, command, info).Covers? <==> WithinLimits(rules, p, now, a, command, info)
  {
    if p.recipients != [] && exists r :: r in info.recipients && !In(rules, r, p.recipients) {
    } else if p.domains != [] && exists r :: r in info.recipients && !In(rules, DomainOf(r), p.domains) {
    } else if p.allowedRecords != [] && exists r :: r in info.records && r !in p.allowedRecords {
    } else if p.fields != [] && exists f :: f in info.fields && f !in p.fields {
    }
  }

  /** The limit that a refusal names is one that the request does not meet. */
  ghost predicate Fails(rules: Rules, p: Standing, now: Time, info: Info, why: Why) {
    match why
    case Expired(id) => id == p.id && p.expiresAt.Some? && p.expiresAt.value <= now
    case Recipient => exists r :: r in info.recipients && !In(rules, r, p.recipients)
    case Domain => exists r :: r in info.recipients && !In(rules, DomainOf(r), p.domains)
    case Currency => info.amount.Some? && info.currency != p.currency
    case ActionLimit => info.amount.Some? && p.perActionLimit.Some? && info.amount.value > p.perActionLimit.value
    case CumulativeLimit =>
      info.amount.Some? && p.cumulativeLimit.Some? && p.usedAmount + p.reservedAmount + info.amount.value > p.cumulativeLimit.value
    case RateLimit => p.perDay > 0 && p.usedCount >= p.perDay
    case RecordOutside => exists r :: r in info.records && r !in p.allowedRecords
    case FieldOutside => exists f :: f in info.fields && f !in p.fields
    case _ => false
  }

  lemma RefusalNamesAFailedLimit(rules: Rules, p: Standing, now: Time, a: Actor, command: Command, info: Info)
    ensures Judge(rules, p, now, a, command, info).Refuses? ==>
      Fails(rules, p, now, info, Judge(rules, p, now, a, command, info).why) && rules.matches(p.pattern, command.name)
  {
  }

  /** The reasons for finding no permission are those of the rows that refuse, all of them. */
  lemma {:induction false} RefusalsAreThoseOfTheRows(rules: Rules, rows: seq<Standing>, now: Time, a: Actor, command: Command, info: Info, why: Why)
    ensures why in Refusals(rules, rows, now, a, command, info) <==>
      exists i :: 0 <= i < |rows| && Judge(rules, rows[i], now, a, command, info) == Refuses(why)
  {
    if rows != [] {
      var front, last := rows[..|rows| - 1], rows[|rows| - 1];
      RefusalsAreThoseOfTheRows(rules, front, now, a, command, info, why);
      if i :| 0 <= i < |rows| && Judge(rules, rows[i], now, a, command, info) == Refuses(why) {
        assert i < |front| ==> front[i] == rows[i];
      }
    }
  }

  /** The domain of an address is what follows its last '@', and the whole text when there is none. */
  lemma {:induction false} DomainIsAfterTheLastAt(local: string, domain: string)
    requires '@' !in domain
    ensures DomainOf(local + "@" + domain) == domain && DomainOf(domain) == domain
  {
    if domain == "" {
      assert (local + "@" + domain)[|local|] == '@';
    } else {
      var front, last := domain[..|domain| - 1], domain[|domain| - 1];
      assert last != '@' by { assert last in domain; }
      DomainIsAfterTheLastAt(local, front);
      assert (local + "@" + domain)[..|local + "@" + domain| - 1] == local + "@" + front;
      assert domain == front + [last];
    }
  }

  /** The first permission that covers the request, in row order, or how many rows there are. */
  function FirstCovering(rules: Rules, rows: seq<Standing>, now: Time, a: Actor, command: Command, info: Info): (i: nat)
    ensures i <= |rows|
    ensures i < |rows| ==> Judge(rules, rows[i], now, a, command, info).Covers?
    ensures forall j :: 0 <= j < i ==> !Judge(rules, rows[j], now, a, command, info).Covers?
  {
    if rows == [] || Judge(rules, rows[0], now, a, command, info).Covers? then 0
    else 1 + FirstCovering(rules, rows[1..], now, a, command, info)
  }

  function Refusals(rules: Rules, rows: seq<Standing>, now: Time, a: Actor, command: Command, info: Info): seq<Why> {
    if rows == [] then [] else
    var front := Refusals(rules, rows[..|rows| - 1], now, a, command, info);
    match Judge(rules, rows[|rows| - 1], now, a, command, info)
    case Refuses(why) => front + [why]
    case _ => front
  }

  /** _find_standing_permission. */
  method FindStandingPermission(rules: Rules, rows: seq<Standing>, now: Time, a: Actor, command: Command, info: Info)
    returns (found: Option<Standing>, reasons: seq<Why>)
    ensures var i := FirstCovering(rules, rows, now, a, command, info);
      found == (if i < |rows| then Some(rows[i]) else None) && reasons == Refusals(rules, rows[..i], now, a, command, info)
  {
    reasons := [];
    ghost var first := FirstCovering(rules, rows, now, a, command, info);
    var i := 0;
    while i < |rows|
      invariant 0 <= i <= first
      invariant reasons == Refusals(rules, rows[..i], now, a, command, info)
    {
      assert rows[..i + 1][..i] == rows[..i];
      var verdict := Judge(rules, rows[i], now, a, command, info);
      if verdict.Covers? {
        return Some(rows[i]), reasons;
      }
      if verdict.Refuses? {
        reasons := reasons + [verdict.why];
      }
      i := i + 1;
    }
    found := None;
  }

  // ---- the decision ----------------------------------------------------------------------------

  /** The state of the database that a decision reads. */
  datatype World = World(
    paused: set<string>, tasks: map<Id, TaskRow>, threads: map<Id, Thread>, standing: seq<Standing>, now: Time)

  datatype Request = Request(command: Command, info: Info, records: seq<Record>, approval: Option<Approval>)

  predicate Paused(w: World, command: Command) {
    "global" in w.paused ||
    ("workflow:" + (if command.workflow.Some? && command.workflow.value != "" then command.workflow.value else command.name)) in w.paused
  }

  predicate Executable(status: string) { status == "approved" || status == "queued" || status == "executing" }

  function ByApproval(approval: Approval, command: Command): Decision {
    if !Executable(approval.status) then Decision(Blocked, [ApprovalIs(approval.status)], None)
    else if approval.commandName != command.name then Decision(Blocked, [ApprovalForOther], None)
    else Decision(Allowed, [ExactApproval], None)
  }

  function ByStandingPermission(rules: Rules, w: World, a: Actor, q: Request): Decision {
    var i := FirstCovering(rules, w.standing, w.now, a, q.command, q.info);
    if i < |w.standing| then Decision(Allowed, [StandingPermission], Some(w.standing[i].id))
    else
      var why := Refusals(rules, w.standing, w.now, a, q.command, q.info);
      var reasons := if why != [] then why else [NothingCovers];
      Decision(if a.kind.External? && !HasPerm(rules, a, q.command.perm) then Blocked else NeedsReview, reasons, None)
  }

  function OwnerDecision(a: Actor): Decision {
    if a.kind.User? && a.role == OWNER then Decision(Allowed, [OwnerAction], None)
    else if a.kind.Agent? && a.role == OWNER then Decision(NeedsReview, [OwnerDecisionRequired], None)
    else Decision(Blocked, [NotTheOwner], None)
  }

  /** The decision about an actor who is in scope and has the permission. */
  function ByActionClass(rules: Rules, w: World, a: Actor, q: Request): Decision {
    var act := q.command.actionClass;
    if act.Read? || act.Internal? then Decision(Allowed, [AuthorizedWork], None)
    else if act.OwnerOnly? then OwnerDecision(a)
    else if q.approval.Some? then ByApproval(q.approval.value, q.command)
    else ByStandingPermission(rules, w, a, q)
  }

  /** evaluate, with the record scope that dispatch computes. */
  function Evaluate(rules: Rules, w: World, a: Actor, q: Request): Decision {
    var act := q.command.actionClass;
    var scope := DispatchReasons(w.tasks, a, q.records, w.threads);
    if !a.kind.User? && !act.Read? && Paused(w, q.command) then Decision(Blocked, [AutomationPaused], None)
    else if act.ForbiddenForAgents? && !a.kind.User? then Decision(Blocked, [UnavailableToAgents], None)
    else if scope != [] then Decision(Blocked, [OutOfScope(scope)], None)
    else if !HasPerm(rules, a, q.command.perm) then Decision(Blocked, [MissingPermission], None)
    else ByActionClass(rules, w, a, q)
  }

  function Rank(o: Outcome): nat {
    match o case Blocked => 0 case NeedsReview => 1 case Allowed => 2
  }

  // ---- fewer grants never decide better --------------------------------------------------------

  ghost predicate FewerFlags(p: map<string, bool>, q: map<string, bool>) {
    forall k :: Flag(p, k) ==> Flag(q, k)
  }

  /** The same actor with permissions or client scopes taken away. */
  ghost predicate FewerGrants(a: Actor, b: Actor) {
    && FewerFlags(a.perms, b.perms) && a.clientScopes <= b.clientScopes
    && a == b.(perms := a.perms, clientScopes := a.clientScopes)
  }

  /** An agent with at most the grants of a person, acting for that person. */
  ghost predicate ActsFor(agent: Actor, person: Actor) {
    && agent.kind.Agent? && person.kind.User?
    && FewerGrants(agent.(kind := User), person)
  }

  lemma FewerGrantsFewerPerms(rules: Rules, a: Actor, b: Actor, perm: Option<string>)
    requires FewerGrants(a, b)
    ensures HasPerm(rules, a, perm) ==> HasPerm(rules, b, perm)
  {
  }

  lemma FewerGrantsLessScope(w: World, a: Actor, b: Actor, records: seq<Record>)
    requires FewerGrants(a, b)
    ensures DispatchReasons(w.tasks, a, records, w.threads) == [] ==> DispatchReasons(w.tasks, b, records, w.threads) == []
  {
    var va, ta := AssignedVehicles(w.tasks, a), AssignedTasks(w.tasks, a);
    var vb, tb := AssignedVehicles(w.tasks, b), AssignedTasks(w.tasks, b);
    NoReasonsExactlyInScope(a, records, va, ta, w.threads);
    NoReasonsExactlyInScope(b, records, vb, tb, w.threads);
    if Limited(b) { assert va == vb && ta == tb; }
    forall r <- records ensures InScope(a, r, va, ta, w.threads) ==> InScope(b, r, vb, tb, w.threads) {}
  }

  lemma {:induction false} SameSubjectSameStanding(rules: Rules, rows: seq<Standing>, now: Time, a: Actor, b: Actor, command: Command, info: Info)
    requires a.userId == b.userId && a.clientId == b.clientId
    ensures FirstCovering(rules, rows, now, a, command, info) == FirstCovering(rules, rows, now, b, command, info)
  {
    if rows != [] {
      SameSubjectSameStanding(rules, rows[1..], now, a, b, command, info);
      assert Judge(rules, rows[0], now, a, command, info) == Judge(rules, rows[0], now, b, command, info);
    }
  }

  /** Taking away any permissions and client scopes never raises the outcome: not for any command, payload, approval
      or set of standing permissions. */
  lemma FewerGrantsNeverDecideBetter(rules: Rules, w: World, a: Actor, b: Actor, q: Request)
    requires FewerGrants(a, b)
    ensures Rank(Evaluate(rules, w, a, q).outcome) <= Rank(Evaluate(rules, w, b, q).outcome)
  {
    FewerGrantsFewerPerms(rules, a, b, q.command.perm);
    FewerGrantsLessScope(w, a, b, q.records);
    if HasPerm(rules, a, q.command.perm) {
      FewerGrantsSameClass(rules, w, a, b, q);
    }
  }

  lemma FewerGrantsSameClass(rules: Rules, w: World, a: Actor, b: Actor, q: Request)
    requires FewerGrants(a, b) && HasPerm(rules, a, q.command.perm)
    ensures Rank(ByActionClass(rules, w, a, q).outcome) == Rank(ByActionClass(rules, w, b, q).outcome)
  {
    FewerGrantsFewerPerms(rules, a, b, q.command.perm);
    SameSubjectSameStanding(rules, w.standing, w.now, a, b, q.command, q.info);
  }

  lemma {:induction false} EachSame(records: seq<Record>, f: Record -> seq<ScopeReason>, g: Record -> seq<ScopeReason>)
    requires forall r :: f(r) == g(r)
    ensures Each(records, f) == Each(records, g)
  {
    if records != [] { EachSame(records[..|records| - 1], f, g); }
  }

  /** An agent is in scope exactly where the person with the same grants is. */
  lemma AgentScopeIsPersonScope(w: World, agent: Actor, records: seq<Record>)
    requires agent.kind.Agent?
    ensures DispatchReasons(w.tasks, agent, records, w.threads) == DispatchReasons(w.tasks, agent.(kind := User), records, w.threads)
  {
    var person := agent.(kind := User);
    var va, ta := AssignedVehicles(w.tasks, agent), AssignedTasks(w.tasks, agent);
    assert va == AssignedVehicles(w.tasks, person) && ta == AssignedTasks(w.tasks, person);
    EachSame(records, r => ClientReason(agent, r, w.threads), r => ClientReason(person, r, w.threads));
    EachSame(records, r => AssignmentReason(agent, r, va, ta, w.threads), r => AssignmentReason(person, r, va, ta, w.threads));
    EachSame(records, r => PersonalReason(agent, r, w.threads), r => PersonalReason(person, r, w.threads));
  }

  lemma AgentBelowItsTwinByClass(rules: Rules, w: World, agent: Actor, q: Request)
    requires agent.kind.Agent?
    ensures Rank(ByActionClass(rules, w, agent, q).outcome) <= Rank(ByActionClass(rules, w, agent.(kind := User), q).outcome)
  {
    SameSubjectSameStanding(rules, w.standing, w.now, agent, agent.(kind := User), q.command, q.info);
  }

  lemma AgentBelowItsTwin(rules: Rules, w: World, agent: Actor, q: Request)
    requires agent.kind.Agent?
    ensures Rank(Evaluate(rules, w, agent, q).outcome) <= Rank(Evaluate(rules, w, agent.(kind := User), q).outcome)
  {
    AgentScopeIsPersonScope(w, agent, q.records);
    AgentBelowItsTwinByClass(rules, w, agent, q);
  }

  /** An agent acting for a person never gets a higher outcome than that person. */
  lemma AgentNeverExceedsItsPerson(rules: Rules, w: World, agent: Actor, person: Actor, q: Request)
    requires ActsFor(agent, person)
    ensures Rank(Evaluate(rules, w, agent, q).outcome) <= Rank(Evaluate(rules, w, person, q).outcome)
  {
    AgentBelowItsTwin(rules, w, agent, q);
    FewerGrantsNeverDecideBetter(rules, w, agent.(kind := User), person, q);
  }

  // ---- the actor of a mission ------------------------------------------------------------------

  /** A person of the team, with the effective permissions of today. */
  datatype Person = Person(id: Id, role: string, assignedOnly: bool, perms: map<string, bool>, active: bool)

  function SignedIn(p: Person): Actor {
    Actor(User, Some(p.id), p.role, p.assignedOnly, p.perms, None, {}, [])
  }

  /** The permissions that are frozen onto a mission. */
  function Granted(perms: map<string, bool>): set<string> { set k <- perms | perms[k] }

  function Frozen(perms: map<string, bool>, frozen: set<string>): map<string, bool> {
    map k <- perms :: perms[k] && k in frozen
  }

  /** actor_for_mission for a person's mission: today's permissions, cut down to those the mission was created
      with. There is no actor when the person is not active any more, and the actor is the system when the row is gone. */
  function MissionActor(person: Option<Person>, frozen: set<string>): Option<Actor> {
    match person
    case None => Some(Actor(System, None, "system", false, map[], None, {}, []))
    case Some(p) =>
      if !p.active then None
      else Some(Actor(Agent, Some(p.id), p.role, p.assignedOnly, Frozen(p.perms, frozen), None, {}, []))
  }

  /** A mission's agent has a permission exactly when its person has it today and had it at creation, and no command
      is decided better for it than for the person. */
  lemma MissionAgentNeverExceedsItsPerson(rules: Rules, w: World, p: Person, frozen: set<string>, q: Request)
    ensures MissionActor(Some(p), frozen).None? <==> !p.active
    ensures p.active ==> var a := MissionActor(Some(p), frozen).value;
      && Rank(Evaluate(rules, w, a, q).outcome) <= Rank(Evaluate(rules, w, SignedIn(p), q).outcome)
      && a.kind.Agent? && a.userId == Some(p.id) && a.role == p.role && a.assignedOnly == p.assignedOnly && a.clientId.None?
      && forall k :: Flag(a.perms, k) <==> Flag(p.perms, k) && k in frozen
  {
    if p.active {
      AgentNeverExceedsItsPerson(rules, w, MissionActor(Some(p), frozen).value, SignedIn(p), q);
    }
  }

  /** A connected client with the grant it has today; its permissions are those of its owner. */
  datatype Client = Client(id: Id, ownerId: Id, ownerRole: string, perms: map<string, bool>, scopes: set<string>, vehicles: seq<Id>, active: bool)

  function Connected(c: Client): Actor {
    Actor(External, Some(c.ownerId), c.ownerRole, false, c.perms, Some(c.id), c.scopes, c.vehicles)
  }

  /** actor_for_mission for a client's mission: permissions and scopes are cut down to those at creation. */
  function ClientMissionActor(client: Option<Client>, perms: set<string>, scopes: set<string>): Option<Actor> {
    if client.None? || !client.value.active then None
    else
      var c := client.value;
      Some(Connected(c).(perms := Frozen(c.perms, perms), clientScopes := c.scopes * scopes))
  }

  /** A client's mission runs only for an active client, with exactly the permissions and scopes the client has today and
      had at creation, and no command is decided better for it than for the client itself. */
  lemma ClientMissionNeverExceedsItsClient(rules: Rules, w: World, client: Option<Client>, perms: set<string>, scopes: set<string>, q: Request)
    ensures ClientMissionActor(client, perms, scopes).Some? <==> client.Some? && client.value.active
    ensures ClientMissionActor(client, perms, scopes).Some? ==> var a := ClientMissionActor(client, perms, scopes).value;
      && Rank(Evaluate(rules, w, a, q).outcome) <= Rank(Evaluate(rules, w, Connected(client.value), q).outcome)
      && a.kind.External? && a.userId == Some(client.value.ownerId) && a.role == client.value.ownerRole
      && a.clientId == Some(client.value.id) && a.clientVehicles == client.value.vehicles
      && (forall k :: Flag(a.perms, k) <==> Flag(client.value.perms, k) && k in perms)
      && (forall k :: k in a.clientScopes <==> k in client.value.scopes && k in scopes)
  {
    if client.Some? && client.value.active {
      FewerGrantsNeverDecideBetter(rules, w, ClientMissionActor(client, perms, scopes).value, Connected(client.value), q);
    }
  }

  // ---- what a mission can gain -----------------------------------------------------------------

  /** No command is ever decided better for a than for b. */
  ghost predicate NeverDecidesBetter(rules: Rules, a: Actor, b: Actor) {
    forall w: World, q: Request :: Rank(Evaluate(rules, w, a, q).outcome) <= Rank(Evaluate(rules, w, b, q).outcome)
  }

  /** The agent has no permission that was does not have, becomes no owner and loses no limit on its records. */
  ghost predicate NoWider(a: Actor, was: Actor) {
    && FewerFlags(a.perms, was.perms)
    && (a.role == OWNER ==> was.role == OWNER)
    && (Limited(was) ==> Limited(a))
  }

  lemma NoWiderScope(w: World, a: Actor, was: Actor, records: seq<Record>)
    requires a.kind.Agent? && was.kind.Agent? && a.userId == was.userId && NoWider(a, was)
    ensures DispatchReasons(w.tasks, a, records, w.threads) == [] ==> DispatchReasons(w.tasks, was, records, w.threads) == []
  {
    var va, ta := AssignedVehicles(w.tasks, a), AssignedTasks(w.tasks, a);
    var vb, tb := AssignedVehicles(w.tasks, was), AssignedTasks(w.tasks, was);
    NoReasonsExactlyInScope(a, records, va, ta, w.threads);
    NoReasonsExactlyInScope(was, records, vb, tb, w.threads);
    if Limited(was) { assert va == vb && ta == tb; }
    forall r <- records ensures InScope(a, r, va, ta, w.threads) ==> InScope(was, r, vb, tb, w.threads) {}
  }

  lemma NoWiderClass(rules: Rules, w: World, a: Actor, was: Actor, q: Request)
    requires a.kind.Agent? && was.kind.Agent? && a.userId == was.userId && a.clientId == was.clientId && NoWider(a, was)
    ensures Rank(ByActionClass(rules, w, a, q).outcome) <= Rank(ByActionClass(rules, w, was, q).outcome)
  {
    SameSubjectSameStanding(rules, w.standing, w.now, a, was, q.command, q.info);
  }

  lemma NoWiderNeverDecidesBetter(rules: Rules, w: World, a: Actor, was: Actor, q: Request)
    requires a.kind.Agent? && was.kind.Agent? && a.userId == was.userId && a.clientId == was.clientId && NoWider(a, was)
    ensures Rank(Evaluate(rules, w, a, q).outcome) <= Rank(Evaluate(rules, w, was, q).outcome)
  {
    NoWiderScope(w, a, was, q.records);
    NoWiderClass(rules, w, a, was, q);
  }

  const QUIET_WORLD: World := World({}, map[], map[], [], 0)

  const NO_INFO: Info := Info([], None, "", [], [])

  /** The outcome for an agent in an empty database, of a command about these records. */
  lemma InQuietWorld(rules: Rules, a: Actor, q: Request)
    requires a.kind.Agent? || a.kind.System?
    ensures Evaluate(rules, QUIET_WORLD, a, q).outcome ==
      if q.command.actionClass.ForbiddenForAgents? || !(forall r <- q.records :: InScope(a, r, {}, {}, map[])) ||
         !HasPerm(rules, a, q.command.perm)
      then Blocked else ByActionClass(rules, QUIET_WORLD, a, q).outcome
  {
    var v, t := AssignedVehicles(map[], a), AssignedTasks(map[], a);
    assert v == {} && t == {};
    NoReasonsExactlyInScope(a, q.records, v, t, map[]);
  }

  /** A person promoted to owner may prepare owner-only commands that were blocked. */
  lemma OwnerDecidesBetter(rules: Rules, a: Actor, was: Actor)
    requires a.kind.Agent? && was.kind.Agent? && a.role == OWNER && was.role != OWNER
    ensures !NeverDecidesBetter(rules, a, was)
  {
    var q := Request(Command("c", None, OwnerOnly, None), NO_INFO, [], None);
    InQuietWorld(rules, a, q);
    InQuietWorld(rules, was, q);
    assert Rank(Evaluate(rules, QUIET_WORLD, a, q).outcome) > Rank(Evaluate(rules, QUIET_WORLD, was, q).outcome);
  }

  lemma UnlimitedIsInScope(a: Actor, v: Id)
    requires a.kind.Agent?
    ensures InScope(a, Record(Vehicle, v), {}, {}, map[]) <==> !Limited(a)
  {
  }

  /** A person who is not limited any more may write to vehicles that were out of scope. */
  lemma UnlimitedDecidesBetter(rules: Rules, a: Actor, was: Actor)
    requires a.kind.Agent? && was.kind.Agent? && !Limited(a) && Limited(was)
    ensures !NeverDecidesBetter(rules, a, was)
  {
    var q := Request(Command("c", None, Internal, None), NO_INFO, [Record(Vehicle, "v")], None);
    InQuietWorld(rules, a, q);
    InQuietWorld(rules, was, q);
    UnlimitedIsInScope(a, "v");
    UnlimitedIsInScope(was, "v");
    assert q.records[0] in q.records;
    assert Rank(Evaluate(rules, QUIET_WORLD, a, q).outcome) > Rank(Evaluate(rules, QUIET_WORLD, was, q).outcome);
  }

  lemma {:induction false} LongerName(names: set<string>) returns (n: nat)
    ensures forall k <- names :: |k| < n
    decreases |names|
  {
    if k :| k in names {
      var m := LongerName(names - {k});
      n := if |k| < m then m else |k| + 1;
      assert names == names - {k} + {k};
    } else {
      n := 0;
    }
  }

  /** The system decides better than any agent: it needs no permission. */
  lemma SystemDecidesBetter(rules: Rules, a: Actor, was: Actor)
    requires a.kind.System? && was.kind.Agent?
    ensures !NeverDecidesBetter(rules, a, was)
  {
    var n := LongerName(was.perms.Keys);
    var key := seq(n, i => 'x');
    assert key !in was.perms.Keys;
    var q := Request(Command("c", Some(key), Internal, None), NO_INFO, [], None);
    InQuietWorld(rules, a, q);
    InQuietWorld(rules, was, q);
    assert Rank(Evaluate(rules, QUIET_WORLD, a, q).outcome) > Rank(Evaluate(rules, QUIET_WORLD, was, q).outcome);
  }

  /** What the person must be today for the mission to have gained nothing. */
  ghost predicate GainsNothing(was: Person, now: Option<Person>)
    requires was.active
  {
    && now.Some?
    && (now.value.active ==>
          && (now.value.role == OWNER ==> was.role == OWNER)
          && (Limited(MissionActor(Some(was), Granted(was.perms)).value) ==> Limited(MissionActor(now, Granted(was.perms)).value)))
  }

  /** A mission created for a person never decides better than on the day it was created exactly when the person's row is
      still there and the person, if active, has not become owner and has not lost the limit on records. Permissions
      gained since never matter. */
  lemma MissionGainsNothingExactly(rules: Rules, was: Person, now: Option<Person>)
    requires was.active && (now.Some? ==> now.value.id == was.id)
    ensures var created, today := MissionActor(Some(was), Granted(was.perms)).value, MissionActor(now, Granted(was.perms));
      (today.None? || NeverDecidesBetter(rules, today.value, created)) <==> GainsNothing(was, now)
  {
    var created, today := MissionActor(Some(was), Granted(was.perms)).value, MissionActor(now, Granted(was.perms));
    if now.None? {
      SystemDecidesBetter(rules, today.value, created);
    } else if today.Some? {
      if !GainsNothing(was, now) {
        if today.value.role == OWNER && created.role != OWNER {
          OwnerDecidesBetter(rules, today.value, created);
        } else {
          UnlimitedDecidesBetter(rules, today.value, created);
        }
      } else {
        assert NoWider(today.value, created);
        forall w: World, q: Request
          ensures Rank(Evaluate(rules, w, today.value, q).outcome) <= Rank(Evaluate(rules, w, created, q).outcome)
        {
          NoWiderNeverDecidesBetter(rules, w, today.value, created, q);
        }
      }
    }
  }

  /** When the person's row is gone the mission acts as the system, which needs no permission and has no record
      scope: internal work is then allowed whatever the mission was created with, unless automation is paused. */
  lemma MissionWithoutPersonActsAsSystem(rules: Rules, w: World, frozen: set<string>, q: Request)
    requires q.command.actionClass.Internal?
    ensures Evaluate(rules, w, MissionActor(None, frozen).value, q).outcome == if Paused(w, q.command) then Blocked else Allowed
  {
    var a := MissionActor(None, frozen).value;
    NoReasonsExactlyInScope(a, q.records, AssignedVehicles(w.tasks, a), AssignedTasks(w.tasks, a), w.threads);
    forall r <- q.records ensures InScope(a, r, AssignedVehicles(w.tasks, a), AssignedTasks(w.tasks, a), w.threads) {}
  }

  // ---- what an allowed decision rests on -------------------------------------------------------

  /** A consequential command is allowed exactly when the actor is unpaused, in scope and permitted, and either an
      executable approval names the command or, without an approval, some standing permission is within all its limits. */
  lemma ConsequentialIsBacked(rules: Rules, w: World, a: Actor, q: Request)
    requires q.command.actionClass.Consequential?
    ensures Evaluate(rules, w, a, q).outcome.Allowed? <==>
      && (a.kind.User? || !Paused(w, q.command))
      && DispatchReasons(w.tasks, a, q.records, w.threads) == []
      && HasPerm(rules, a, q.command.perm)
      && (if q.approval.Some? then Executable(q.approval.value.status) && q.approval.value.commandName == q.command.name
          else exists p :: p in w.standing && WithinLimits(rules, p, w.now, a, q.command, q.info))
  {
    var i := FirstCovering(rules, w.standing, w.now, a, q.command, q.info);
    if i < |w.standing| {
      CoversExactlyWithinLimits(rules, w.standing[i], w.now, a, q.command, q.info);
      assert w.standing[i] in w.standing;
    } else {
      forall p | p in w.standing ensures !WithinLimits(rules, p, w.now, a, q.command, q.info) {
        CoversExactlyWithinLimits(rules, p, w.now, a, q.command, q.info);
      }
    }
  }

  /** Whoever is not a person is paused by the global switch and by the one of the command's workflow, or of the command
      itself when it has none. */
  lemma PausedExactlyByItsSwitches(w: World, command: Command)
    ensures Paused(w, command) <==>
      || "global" in w.paused
      || (command.workflow.Some? && command.workflow.value != "" && "workflow:" + command.workflow.value in w.paused)
      || ((command.workflow.None? || command.workflow.value == "") && "workflow:" + command.name in w.paused)
  {
  }

  /** Who has a permission, kind by kind. */
  lemma PermissionByKind(rules: Rules, a: Actor, perm: string)
    ensures a.kind.System? ==> HasPerm(rules, a, Some(perm))
    ensures a.kind.User? || a.kind.Agent? ==> (HasPerm(rules, a, Some(perm)) <==> perm in a.perms && a.perms[perm])
    ensures a.kind.External? ==> (HasPerm(rules, a, Some(perm)) <==>
      perm in a.perms && a.perms[perm] && perm in rules.clientScope && rules.clientScope[perm] in a.clientScopes)
    ensures HasPerm(rules, a, None)
  {
  }

  /** What every decision needs first: no pause, for whoever is not a person, every record in scope, and the permission. */
  predicate Admitted(rules: Rules, w: World, a: Actor, q: Request) {
    && (a.kind.User? || q.command.actionClass.Read? || !Paused(w, q.command))
    && DispatchReasons(w.tasks, a, q.records, w.threads) == []
    && HasPerm(rules, a, q.command.perm)
  }

  /** Whoever is not admitted is told the first thing that is missing. */
  lemma RefusalsSayWhy(rules: Rules, w: World, a: Actor, q: Request)
    ensures var d := Evaluate(rules, w, a, q);
      var paused := !a.kind.User? && !q.command.actionClass.Read? && Paused(w, q.command);
      var forbidden := q.command.actionClass.ForbiddenForAgents? && !a.kind.User?;
      var scope := DispatchReasons(w.tasks, a, q.records, w.threads);
      && (AutomationPaused in d.reasons <==> paused)
      && (UnavailableToAgents in d.reasons <==> forbidden && !paused)
      && (forall s :: OutOfScope(s) in d.reasons ==> s == scope && s != [])
      && (!paused && !forbidden && scope != [] ==> OutOfScope(scope) in d.reasons)
      && (!paused && !forbidden && scope == [] && !HasPerm(rules, a, q.command.perm) ==> d.reasons == [MissingPermission])
  {
    RefusalsNameLimits(rules, w.standing, w.now, a, q.command, q.info);
  }

  predicate NamesALimit(why: Why) {
    || why.Expired? || why.Recipient? || why.Domain? || why.Currency? || why.ActionLimit? || why.CumulativeLimit?
    || why.RateLimit? || why.RecordOutside? || why.FieldOutside?
  }

  lemma {:induction false} RefusalsNameLimits(rules: Rules, rows: seq<Standing>, now: Time, a: Actor, command: Command, info: Info)
    ensures forall why <- Refusals(rules, rows, now, a, command, info) :: NamesALimit(why)
  {
    if rows != [] {
      RefusalsNameLimits(rules, rows[..|rows| - 1], now, a, command, info);
      RefusalNamesAFailedLimit(rules, rows[|rows| - 1], now, a, command, info);
    }
  }

  /** Reading and internal work is allowed exactly to those who are admitted, and blocked for everybody else: it is never
      sent to review. */
  lemma OrdinaryWorkIsDecided(rules: Rules, w: World, a: Actor, q: Request)
    requires q.command.actionClass.Read? || q.command.actionClass.Internal?
    ensures Evaluate(rules, w, a, q).outcome == if Admitted(rules, w, a, q) then Allowed else Blocked
  {
  }

  /** An owner's action is allowed to the owner in person, prepared for review by the owner's agent, and blocked for
      everybody else. */
  lemma OwnerActionsAreDecided(rules: Rules, w: World, a: Actor, q: Request)
    requires q.command.actionClass.OwnerOnly?
    ensures Evaluate(rules, w, a, q).outcome ==
      if !Admitted(rules, w, a, q) || a.role != "owner" then Blocked
      else if a.kind.User? then Allowed else if a.kind.Agent? then NeedsReview else Blocked
  {
  }

  /** Some standing permission is within all its limits for this request. */
  ghost predicate Covered(rules: Rules, w: World, a: Actor, q: Request) {
    exists p :: p in w.standing && WithinLimits(rules, p, w.now, a, q.command, q.info)
  }

  /** A consequential command, or one forbidden to agents that a person runs: with an approval it is allowed exactly when the
      approval can be executed and names the command, and blocked otherwise; without one it is allowed exactly when a
      standing permission covers it, and sent to review otherwise. */
  lemma ConsequentialWorkIsDecided(rules: Rules, w: World, a: Actor, q: Request)
    requires q.command.actionClass.Consequential? || (q.command.actionClass.ForbiddenForAgents? && a.kind.User?)
    ensures Evaluate(rules, w, a, q).outcome ==
      if !Admitted(rules, w, a, q) then Blocked
      else if q.approval.Some? then
        (if (q.approval.value.status == "approved" || q.approval.value.status == "queued" || q.approval.value.status == "executing") &&
            q.approval.value.commandName == q.command.name then Allowed else Blocked)
      else if Covered(rules, w, a, q) then Allowed else NeedsReview
  {
    CoveredExactlyWhenFound(rules, w, a, q);
  }

  lemma CoveredExactlyWhenFound(rules: Rules, w: World, a: Actor, q: Request)
    ensures Covered(rules, w, a, q) <==> FirstCovering(rules, w.standing, w.now, a, q.command, q.info) < |w.standing|
  {
    var i := FirstCovering(rules, w.standing, w.now, a, q.command, q.info);
    if i < |w.standing| {
      CoversExactlyWithinLimits(rules, w.standing[i], w.now, a, q.command, q.info);
      assert w.standing[i] in w.standing;
    } else {
      forall p | p in w.standing ensures !WithinLimits(rules, p, w.now, a, q.command, q.info) {
        CoversExactlyWithinLimits(rules, p, w.now, a, q.command, q.info);
      }
    }
  }

  ghost predicate FirstWithin(rules: Rules, w: World, a: Actor, q: Request, i: nat) {
    && i < |w.standing| && WithinLimits(rules, w.standing[i], w.now, a, q.command, q.info)
    && forall j :: 0 <= j < i ==> !WithinLimits(rules, w.standing[j], w.now, a, q.command, q.info)
  }

  ghost predicate IsFirstWithin(rules: Rules, w: World, a: Actor, q: Request, id: Id) {
    exists i :: 0 <= i < |w.standing| && id == w.standing[i].id && FirstWithin(rules, w, a, q, i)
  }

  /** A decision names a standing permission exactly when it rests on one, and then the first one in the table that is within
      its limits: that is the permission whose use is reserved. */
  lemma NamesTheFirstCovering(rules: Rules, w: World, a: Actor, q: Request)
    ensures var d := Evaluate(rules, w, a, q);
      d.permission.Some? ==> d.outcome.Allowed? && IsFirstWithin(rules, w, a, q, d.permission.value)
    ensures q.command.actionClass.Consequential? && q.approval.None? && Evaluate(rules, w, a, q).outcome.Allowed? ==>
      Evaluate(rules, w, a, q).permission.Some?
  {
    var i := FirstCovering(rules, w.standing, w.now, a, q.command, q.info);
    if i < |w.standing| {
      CoversExactlyWithinLimits(rules, w.standing[i], w.now, a, q.command, q.info);
    }
    forall j | 0 <= j < i ensures !WithinLimits(rules, w.standing[j], w.now, a, q.command, q.info) {
      CoversExactlyWithinLimits(rules, w.standing[j], w.now, a, q.command, q.info);
    }
  }

  /** Only a person can run what is forbidden to agents, and only the owner in person is allowed an owner's action. */
  lemma HumanOnly(rules: Rules, w: World, a: Actor, q: Request)
    ensures q.command.actionClass.ForbiddenForAgents? && !a.kind.User? ==> Evaluate(rules, w, a, q).outcome.Blocked?
    ensures q.command.actionClass.OwnerOnly? ==>
      (Evaluate(rules, w, a, q).outcome.Allowed? <==>
        a.kind.User? && a.role == OWNER && HasPerm(rules, a, q.command.perm) &&
        DispatchReasons(w.tasks, a, q.records, w.threads) == [])
  {
  }
}
