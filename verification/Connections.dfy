/**
 * What makes an arrow between departments acceptable, beside the arrows there are already, and when
 * a whole graph of them is imported.
 */
module Connections {
  import opened Shared
  import opened ConnectionGraph

  type Errors = seq<ValidationError>

  datatype Connection = Connection(
    id: string, officeId: string, edge: Edge, enabled: bool, rules: map<string, Json>, createdAt: int)

  function KindName(k: Kind): string {
    match k
    case ReportsTo => "reports_to"
    case Collaborates => "collaborates"
    case Handoff => "handoff"
    case Reviews => "reviews"
    case EscalatesTo => "escalates_to"
    case Watches => "watches"
    case Unknown(text) => text
  }

  lemma NamesDiffer()
    ensures forall a, b :: IsKind(a) && IsKind(b) && a != b ==> KindName(a) != KindName(b)
  {
    assert "reports_to"[1] == 'e' && "reviews"[1] == 'e' && "reports_to"[2] == 'p' && "reviews"[2] == 'v';
    assert "collaborates"[0] == 'c' && "handoff"[0] == 'h' && "escalates_to"[0] == 'e' && "watches"[0] == 'w';
  }

  /** The kind a request's value names, if it names one. */
  function KindFrom(value: Json): (k: Kind)
    ensures forall kind :: IsKind(kind) ==> (value == Str(KindName(kind)) <==> k == kind)
  {
    NamesDiffer();
    if !value.Str? then Unknown("")
    else if value.s == "reports_to" then ReportsTo
    else if value.s == "collaborates" then Collaborates
    else if value.s == "handoff" then Handoff
    else if value.s == "reviews" then Reviews
    else if value.s == "escalates_to" then EscalatesTo
    else if value.s == "watches" then Watches
    else Unknown(value.s)
  }

  const KIND_NAMES := "reports_to, collaborates, handoff, reviews, escalates_to, watches"

  function Edges(cs: seq<Connection>): (es: seq<Edge>)
    ensures |es| == |cs| && forall i :: 0 <= i < |cs| ==> es[i] == cs[i].edge
  {
    seq(|cs|, i requires 0 <= i < |cs| => cs[i].edge)
  }

  ghost function EdgeSet(es: seq<Edge>): set<Edge> {
    set e | e in es
  }

  lemma EdgeSetAtIndices(es: seq<Edge>)
    ensures EdgeSet(es) == EdgesAt(es, Indices(|es|))
  {
  }

  // ---- Reachability by depth-first search -----------------------------------

  function Successors(adjacency: map<DepartmentId, seq<DepartmentId>>, x: DepartmentId): seq<DepartmentId> {
    if x in adjacency then adjacency[x] else []
  }

  method AdjacencyOf(edges: seq<Edge>, kind: Kind) returns (adjacency: map<DepartmentId, seq<DepartmentId>>)
    ensures forall x, y :: y in Successors(adjacency, x) <==> Edge(x, y, kind) in EdgeSet(edges)
  {
    adjacency := map[];
    for i := 0 to |edges|
      invariant forall x, y :: y in Successors(adjacency, x) <==> Edge(x, y, kind) in EdgeSet(edges[..i])
    {
      var e := edges[i];
      assert EdgeSet(edges[..i + 1]) == EdgeSet(edges[..i]) + {e} by {
        assert edges[..i + 1] == edges[..i] + [e];
      }
      if e.kind != kind { continue; }
      adjacency := adjacency[e.fromId := Successors(adjacency, e.fromId) + [e.toId]];
    }
    assert edges[..|edges|] == edges;
  }

  /**
   * Where a search stands: everything met is reachable and among `nodes`, the target has not been
   * passed over, and nothing is forgotten: what a seen department leads to is seen or waiting.
   */
  ghost predicate Searching(
    E: set<Edge>, kind: Kind, nodes: set<DepartmentId>, source: DepartmentId, target: DepartmentId,
    seen: set<DepartmentId>, stack: seq<DepartmentId>)
  {
    && seen <= nodes
    && (forall x :: x in stack ==> x in nodes && Reaches(E, kind, source, x))
    && (forall x :: x in seen ==> Reaches(E, kind, source, x))
    && (source in seen || source in stack)
    && target !in seen
    && (forall x, y :: x in seen && Edge(x, y, kind) in E ==> y in seen || y in stack)
  }

  lemma SkipKeepsSearching(
    E: set<Edge>, kind: Kind, nodes: set<DepartmentId>, source: DepartmentId, target: DepartmentId,
    seen: set<DepartmentId>, rest: seq<DepartmentId>, current: DepartmentId)
    requires Searching(E, kind, nodes, source, target, seen, rest + [current]) && current in seen
    ensures Searching(E, kind, nodes, source, target, seen, rest)
  {
  }

  lemma VisitKeepsSearching(
    E: set<Edge>, kind: Kind, nodes: set<DepartmentId>, source: DepartmentId, target: DepartmentId,
    seen: set<DepartmentId>, rest: seq<DepartmentId>, current: DepartmentId, next: seq<DepartmentId>)
    requires Searching(E, kind, nodes, source, target, seen, rest + [current]) && current != target
    requires forall y :: y in next <==> Edge(current, y, kind) in E
    requires forall y :: y in next ==> y in nodes
    ensures Searching(E, kind, nodes, source, target, seen + {current}, rest + next)
  {
    var stack, stack' := rest + [current], rest + next;
    assert forall x :: x in stack <==> x in rest || x == current;
    assert forall x :: x in stack' <==> x in rest || x in next;
    forall y | y in next ensures Reaches(E, kind, source, y) {
      ReachesAlong(E, kind, current, y);
      ReachesTransitively(E, kind, source, current, y);
    }
  }

  /** Depth-first, from `source`, along the edges of one kind, until `target` is met or nothing is left. */
  method HasPath(edges: seq<Edge>, kind: Kind, source: DepartmentId, target: DepartmentId) returns (found: bool)
    ensures found <==> Reaches(EdgeSet(edges), kind, source, target)
  {
    ghost var E := EdgeSet(edges);
    ghost var nodes := {source} + set e | e in E :: e.toId;
    var adjacency := AdjacencyOf(edges, kind);
    var seen: set<DepartmentId> := {};
    var stack := [source];
    ReachesItself(E, kind, source);
    while stack != []
      invariant Searching(E, kind, nodes, source, target, seen, stack)
      decreases nodes - seen, |stack|
    {
      var n := |stack| - 1;
      var current := stack[n];
      var rest := stack[..n];
      assert stack == rest + [current] && current in stack;
      if current == target { return true; }
      if current in seen {
        SkipKeepsSearching(E, kind, nodes, source, target, seen, rest, current);
        stack := rest;
        continue;
      }
      var next := Successors(adjacency, current);
      VisitKeepsSearching(E, kind, nodes, source, target, seen, rest, current, next);
      seen, stack := seen + {current}, rest + next;
    }
    if Reaches(E, kind, source, target) {
      var p :| Joins(E, kind, p, source, target);
      ClosedSetHoldsWalk(E, kind, seen, p);
    }
    return false;
  }

  // ---- One edge ---------------------------------------------------------------

  function At(path: string, field: string): string {
    if |path| > 0 then path + "." + field else field
  }

  function UnknownKind(path: string): ValidationError {
    ValidationError(At(path, "kind"), "must be one of " + KIND_NAMES)
  }

  function SelfConnection(path: string): ValidationError {
    ValidationError(path, "a department cannot connect to itself")
  }

  function UnknownDepartment(path: string, department: DepartmentId): ValidationError {
    ValidationError(path, "unknown department \"" + department + "\"")
  }

  function AlreadyExists(path: string, kind: Kind): ValidationError {
    ValidationError(path, "a " + KindName(kind) + " connection between these departments already exists")
  }

  function WouldCycle(path: string, kind: Kind): ValidationError {
    ValidationError(path, "adding this " + KindName(kind) + " connection would create a cycle")
  }

  /** Every problem with one edge beside the edges `before`, in the order they are reported. */
  ghost function EdgeErrors(e: Edge, departments: set<DepartmentId>, before: set<Edge>, path: string): Errors {
    if !IsKind(e.kind) then
      [UnknownKind(path)]
    else if e.fromId == e.toId then
      [SelfConnection(path)]
    else if e.fromId !in departments || e.toId !in departments then
      (if e.fromId in departments then []
       else [UnknownDepartment(At(path, "fromId"), e.fromId)]) +
      (if e.toId in departments then []
       else [UnknownDepartment(At(path, "toId"), e.toId)])
    else if exists b :: b in before && SameEdge(b, e) then
      [AlreadyExists(path, e.kind)]
    else if IsAcyclicKind(e.kind) && Reaches(before, e.kind, e.toId, e.fromId) then
      [WouldCycle(path, e.kind)]
    else []
  }

  /** Everything wrong with an edge, given the departments there are and the edges it would join. */
  method ValidateEdge(e: Edge, departments: set<DepartmentId>, before: seq<Edge>, path: string)
    returns (errors: Errors)
    ensures errors == EdgeErrors(e, departments, EdgeSet(before), path)
    ensures errors == [] <==> Fits(e, departments, EdgeSet(before))
  {
    errors := [];
    if !IsKind(e.kind) {
      return [UnknownKind(path)];
    }
    if e.fromId == e.toId {
      return [SelfConnection(path)];
    }
    if e.fromId !in departments {
      errors := errors + [UnknownDepartment(At(path, "fromId"), e.fromId)];
    }
    if e.toId !in departments {
      errors := errors + [UnknownDepartment(At(path, "toId"), e.toId)];
    }
    if |errors| > 0 { return; }
    if exists b :: b in before && SameEdge(b, e) {
      assert exists b :: b in EdgeSet(before) && SameEdge(b, e);
      return [AlreadyExists(path, e.kind)];
    }
    if IsAcyclicKind(e.kind) {
      var closes := HasPath(before, e.kind, e.toId, e.fromId);
      if closes {
        errors := [WouldCycle(path, e.kind)];
      }
    }
  }

  /** Each end that is no department's is reported where it is, once the kind and the two ends make sense. */
  lemma UnknownEndsAreReported(e: Edge, departments: set<DepartmentId>, before: set<Edge>)
    requires IsKind(e.kind) && e.fromId != e.toId
    ensures var errors := EdgeErrors(e, departments, before, "");
      && (ValidationError("fromId", "unknown department \"" + e.fromId + "\"") in errors <==> e.fromId !in departments)
      && (ValidationError("toId", "unknown department \"" + e.toId + "\"") in errors <==> e.toId !in departments)
  {
    assert "fromId" != "toId" by { assert "fromId"[0] != "toId"[0]; }
    assert SelfConnection("").path == "" && AlreadyExists("", e.kind).path == "" && WouldCycle("", e.kind).path == "";
  }

  /** The first thing wrong with an edge beyond its ends, and where it is said. */
  lemma EdgeErrorsSay(e: Edge, departments: set<DepartmentId>, before: set<Edge>, path: string)
    ensures var errors, within := EdgeErrors(e, departments, before, path), if path == "" then "" else path + ".";
      && (!IsKind(e.kind) ==> errors == [ValidationError(within + "kind",
           "must be one of " + "reports_to, collaborates, handoff, reviews, escalates_to, watches")])
      && (IsKind(e.kind) && e.fromId == e.toId ==>
           errors == [ValidationError(path, "a department cannot connect to itself")])
      && (IsKind(e.kind) && e.fromId != e.toId && e.fromId in departments && e.toId in departments ==>
           (forall b :: b in before && b.kind == e.kind && (b.fromId, b.toId) == (e.fromId, e.toId) ==>
              errors == [ValidationError(path,
                "a " + KindName(e.kind) + " connection between these departments already exists")])
           && (errors != [] && (forall b :: b in before ==> !SameEdge(b, e)) ==>
              errors == [ValidationError(path, "adding this " + KindName(e.kind) + " connection would create a cycle")]))
  {
    assert path == "" ==> "" + "kind" == "kind";
  }

  // ---- The whole graph --------------------------------------------------------

  /** What the import check says of the edge at index `i`. */
  ghost function ErrorsAt(cs: seq<Edge>, departments: set<DepartmentId>, i: nat): Errors
    requires i < |cs|
  {
    EdgeErrors(cs[i], departments, EdgesAt(cs, Kept(cs, departments, i)), "connections[" + Decimal(i) + "]")
  }

  ghost function PerEdge(cs: seq<Edge>, departments: set<DepartmentId>): (r: seq<Errors>)
    ensures |r| == |cs| && forall i :: 0 <= i < |cs| ==> r[i] == ErrorsAt(cs, departments, i)
  {
    seq(|cs|, i requires 0 <= i < |cs| => ErrorsAt(cs, departments, i))
  }

  /** What the import check says of the whole list, edge by edge. */
  ghost function GraphErrors(cs: seq<Edge>, departments: set<DepartmentId>): Errors {
    Flatten(PerEdge(cs, departments))
  }

  lemma NoErrorIffFits(e: Edge, departments: set<DepartmentId>, before: set<Edge>, path: string)
    ensures EdgeErrors(e, departments, before, path) == [] <==> Fits(e, departments, before)
  {
  }

  lemma NoErrorIffKept(cs: seq<Edge>, departments: set<DepartmentId>, i: nat)
    requires i < |cs|
    ensures ErrorsAt(cs, departments, i) == [] <==> i in Kept(cs, departments, |cs|)
  {
    NoErrorIffFits(cs[i], departments, EdgesAt(cs, Kept(cs, departments, i)), "connections[" + Decimal(i) + "]");
    KeptIsWellFormed(cs, departments, i);
    KeptGrows(cs, departments, i + 1, |cs|);
  }

  /** The import check is silent exactly about lists that are well-formed as a whole. */
  lemma SilentIffWellFormed(cs: seq<Edge>, departments: set<DepartmentId>)
    ensures GraphErrors(cs, departments) == [] <==> WellFormed(cs, departments)
  {
    var per, kept := PerEdge(cs, departments), Kept(cs, departments, |cs|);
    FlattenEmpty(per);
    forall i | 0 <= i < |cs| ensures per[i] == [] <==> i in kept {
      NoErrorIffKept(cs, departments, i);
    }
    KeptIsWellFormed(cs, departments, |cs|);
    AllKeptIffWellFormed(cs, departments);
  }

  /** The edges without an error form a well-formed graph that no other edge of the list can join. */
  lemma BlamelessEdgesAreMaximal(cs: seq<Edge>, departments: set<DepartmentId>, blameless: set<nat>)
    requires forall i: nat :: i in blameless <==> i < |cs| && ErrorsAt(cs, departments, i) == []
    ensures WellFormedOn(cs, blameless, departments)
    ensures forall S :: blameless < S ==> !WellFormedOn(cs, S, departments)
  {
    var kept := Kept(cs, departments, |cs|);
    KeptIsWellFormed(cs, departments, |cs|);
    forall i | 0 <= i < |cs| ensures i in blameless <==> i in kept {
      NoErrorIffKept(cs, departments, i);
    }
    assert blameless == kept;
    forall S | kept < S ensures !WellFormedOn(cs, S, departments) {
      KeptIsMaximal(cs, departments, S);
    }
  }

  lemma VerdictIgnoresOrder(a: seq<Edge>, b: seq<Edge>, departments: set<DepartmentId>)
    requires multiset(a) == multiset(b)
    ensures GraphErrors(a, departments) == [] <==> GraphErrors(b, departments) == []
  {
    SilentIffWellFormed(a, departments);
    SilentIffWellFormed(b, departments);
    WellFormedIgnoresOrder(a, b, departments);
  }

  lemma AcceptingOneMore(cs: seq<Edge>, departments: set<DepartmentId>, i: nat)
    requires i < |cs|
    ensures EdgesAt(cs, Kept(cs, departments, i + 1))
         == EdgesAt(cs, Kept(cs, departments, i)) + if ErrorsAt(cs, departments, i) == [] then {cs[i]} else {}
  {
  }

  /** The import check: the accepted edges so far are what the next one has to fit beside. */
  method ValidateConnectionGraph(connections: seq<Connection>, departments: set<DepartmentId>)
    returns (errors: Errors)
    ensures errors == GraphErrors(Edges(connections), departments)
    ensures errors == [] <==> WellFormed(Edges(connections), departments)
  {
    ghost var cs := Edges(connections);
    ghost var per := PerEdge(cs, departments);
    FlattenAll(per);
    errors := [];
    var accepted: seq<Edge> := [];
    for i := 0 to |connections|
      invariant errors == Flatten(per[..i])
      invariant EdgeSet(accepted) == EdgesAt(cs, Kept(cs, departments, i))
    {
      AcceptingOneMore(cs, departments, i);
      FlattenOneMore(per, i);
      var edgeErrors := ValidateEdge(connections[i].edge, departments, accepted, "connections[" + Decimal(i) + "]");
      if |edgeErrors| == 0 {
        EdgeSetGrows(accepted, connections[i].edge);
        accepted := accepted + [connections[i].edge];
      }
      errors := errors + edgeErrors;
    }
    SilentIffWellFormed(cs, departments);
  }

  lemma EdgeSetGrows(es: seq<Edge>, e: Edge)
    ensures EdgeSet(es + [e]) == EdgeSet(es) + {e}
  {
  }

  // ---- Rules ------------------------------------------------------------------

  datatype Assignment = Named(employeeId: string) | Skill(skill: string) | Bench(benchId: string) | Anyone

  const MOMENT_NAMES := "work_started, work_finished, work_went_wrong, decision_wanted"

  predicate IsWatchableMoment(value: Json) {
    value.Str? && value.s in ["work_started", "work_finished", "work_went_wrong", "decision_wanted"]
  }

  function Refused<T>(path: string, message: string): Result<T, Errors> {
    Err([ValidationError(path, message)])
  }

  predicate Given(value: Json) { !value.Undefined? }

  predicate SomeText(value: Json) { value.Str? && |value.s| > 0 }

  function ParseHandoffAssignment(raw: Json): Result<Assignment, Errors> {
    if raw.Undefined? then Ok(Anyone)
    else if !raw.Obj? then Refused("assign", "must be an object")
    else
      var named, skill, bench := raw.Field("named"), raw.Field("skill"), raw.Field("bench");
      if (Given(named) && Given(skill)) || (Given(named) && Given(bench)) || (Given(skill) && Given(bench)) then
        Refused("assign", "name somebody, a skill, or a bench \U{2014} not more than one")
      else if Given(bench) then
        if SomeText(bench) then Ok(Bench(bench.s)) else Refused("assign.bench", "must be a bench id")
      else if Given(named) then
        if SomeText(named) then Ok(Named(named.s)) else Refused("assign.named", "must be an employee id")
      else if Given(skill) then
        if SomeText(skill) then Ok(Skill(skill.s)) else Refused("assign.skill", "must be a skill")
      else Refused("assign", "say who takes the work: name somebody, a skill, or a bench")
  }

  /** The i-th of the three answers is a complete one and neither of the others is given. */
  predicate OnlyAnswer(fields: seq<Json>, i: nat)
    requires |fields| == 3 && i < 3
  {
    fields[i].Str? && fields[i].s != "" && forall j :: 0 <= j < 3 && j != i ==> fields[j].Undefined?
  }

  /** Work is assigned by exactly one complete answer, or by none at all when nothing is said. */
  lemma AssignmentIsOneAnswer(raw: Json)
    ensures var fields := [raw.Field("named"), raw.Field("skill"), raw.Field("bench")];
      ParseHandoffAssignment(raw).Ok? <==>
        raw.Undefined? ||
        (raw.Obj? && exists i :: 0 <= i < 3 && OnlyAnswer(fields, i))
    ensures ParseHandoffAssignment(raw).Ok? && raw.Obj? ==>
      match ParseHandoffAssignment(raw).value
      case Named(id) => raw.Field("named") == Str(id)
      case Skill(skill) => raw.Field("skill") == Str(skill)
      case Bench(id) => raw.Field("bench") == Str(id)
      case Anyone => false
    ensures raw.Undefined? ==> ParseHandoffAssignment(raw) == Ok(Anyone)
  {
    var fields := [raw.Field("named"), raw.Field("skill"), raw.Field("bench")];
    assert fields[0] == raw.Field("named") && fields[1] == raw.Field("skill") && fields[2] == raw.Field("bench");
    assert (exists i :: 0 <= i < 3 && OnlyAnswer(fields, i)) <==>
      OnlyAnswer(fields, 0) || OnlyAnswer(fields, 1) || OnlyAnswer(fields, 2);
  }

  /** What is said of who takes the work, and where, when it is not one complete answer. */
  lemma AssignmentErrorsSay(raw: Json)
    requires !raw.Undefined?
    ensures var named, skill, bench := raw.Field("named"), raw.Field("skill"), raw.Field("bench");
      var given := (if named.Undefined? then 0 else 1) + (if skill.Undefined? then 0 else 1) +
                   (if bench.Undefined? then 0 else 1);
      ParseHandoffAssignment(raw).Err? ==>
        ParseHandoffAssignment(raw).error ==
          if !raw.Obj? then [ValidationError("assign", "must be an object")]
          else if given > 1 then
            [ValidationError("assign", "name somebody, a skill, or a bench \U{2014} not more than one")]
          else if given == 0 then
            [ValidationError("assign", "say who takes the work: name somebody, a skill, or a bench")]
          else if !bench.Undefined? then [ValidationError("assign.bench", "must be a bench id")]
          else if !named.Undefined? then [ValidationError("assign.named", "must be an employee id")]
          else [ValidationError("assign.skill", "must be a skill")]
  {
  }

  function RecordField(fields: map<string, Json>, name: string): Json {
    Obj(fields).Field(name)
  }

  function ParseHandoffRules(rules: map<string, Json>): Result<Assignment, Errors> {
    ParseHandoffAssignment(RecordField(rules, "assign"))
  }

  function ParseWatchRules(rules: map<string, Json>): Result<(seq<Json>, Assignment), Errors> {
    var raw := RecordField(rules, "for");
    if !raw.Arr? || raw.items == [] then
      Refused("for", "must say what it watches for: " + MOMENT_NAMES)
    else if !(forall m :: m in raw.items ==> IsWatchableMoment(m)) then
      Refused("for", "must each be one of " + MOMENT_NAMES)
    else
      match ParseHandoffAssignment(RecordField(rules, "assign"))
      case Err(errors) => Err(errors)
      case Ok(assign) => Ok((raw.items, assign))
  }

  /**
   * A watch is accepted exactly when it lists moments, and nothing but moments, and says properly who
   * takes the work; it then stands for just these.
   */
  lemma WatchesListMoments(rules: map<string, Json>)
    ensures ParseWatchRules(rules).Ok? <==>
      && "for" in rules && rules["for"].Arr? && rules["for"].items != []
      && (forall m :: m in rules["for"].items ==>
           m in [Str("work_started"), Str("work_finished"), Str("work_went_wrong"), Str("decision_wanted")])
      && ParseHandoffAssignment(Obj(rules).Field("assign")).Ok?
    ensures ParseWatchRules(rules).Ok? ==>
      ParseWatchRules(rules).value == (rules["for"].items, ParseHandoffAssignment(Obj(rules).Field("assign")).value)
    ensures ParseHandoffRules(rules) == ParseHandoffAssignment(Obj(rules).Field("assign"))
  {
    assert forall m: Json :: IsWatchableMoment(m) <==>
      m in [Str("work_started"), Str("work_finished"), Str("work_went_wrong"), Str("decision_wanted")];
  }

  /** Only a handoff and a watching arrow interpret their rules. */
  function RuleErrors(kind: Kind, rules: Json): Errors {
    if !rules.Obj? then [ValidationError("rules", "must be an object")]
    else if kind.Watches? then
      match ParseWatchRules(rules.fields)
      case Err(errors) => PrefixErrors("rules", errors)
      case Ok(_) => []
    else if kind.Handoff? then
      match ParseHandoffRules(rules.fields)
      case Err(errors) => PrefixErrors("rules", errors)
      case Ok(_) => []
    else []
  }

  function EnabledErrors(enabled: Json): Errors {
    if enabled.Bool? then [] else [ValidationError("enabled", "must be true or false")]
  }

  /** What is said of a switch and of a handoff's rules, and where; of who takes the work it is said under the rules. */
  lemma SwitchAndRulesErrorsSay(kind: Kind, enabled: Json, rules: Json)
    ensures EnabledErrors(enabled) ==
      if enabled.Bool? then [] else [ValidationError("enabled", "must be true or false")]
    ensures !rules.Obj? ==> RuleErrors(kind, rules) == [ValidationError("rules", "must be an object")]
    ensures kind.Handoff? && rules.Obj? && ParseHandoffAssignment(rules.Field("assign")).Err? ==>
      var error := ParseHandoffAssignment(rules.Field("assign")).error[0];
      RuleErrors(kind, rules) == [ValidationError("rules" + "." + error.path, error.message)]
  {
    OneErrorWithAPath(rules.Field("assign"));
  }

  lemma OneErrorWithAPath(raw: Json)
    ensures ParseHandoffAssignment(raw).Err? ==>
      |ParseHandoffAssignment(raw).error| == 1 && ParseHandoffAssignment(raw).error[0].path != ""
  {
  }

  /** What is said of a watching arrow's rules. */
  lemma WatchErrorsSay(rules: map<string, Json>)
    ensures var moments, assign := Obj(rules).Field("for"), ParseHandoffAssignment(Obj(rules).Field("assign"));
      RuleErrors(Watches, Obj(rules)) == (
        if !moments.Arr? || moments.items == [] then
          [ValidationError("rules" + "." + "for", "must say what it watches for: " + MOMENT_NAMES)]
        else if exists m :: m in moments.items && !IsWatchableMoment(m) then
          [ValidationError("rules" + "." + "for", "must each be one of " + MOMENT_NAMES)]
        else if assign.Ok? then []
        else [ValidationError("rules" + "." + assign.error[0].path, assign.error[0].message)])
  {
    OneErrorWithAPath(Obj(rules).Field("assign"));
  }

  /** A handoff or a watching arrow with nothing reported against its rules is one the engine can read. */
  lemma UnreportedRulesAreRead(kind: Kind, rules: map<string, Json>)
    ensures kind.Handoff? ==> (RuleErrors(kind, Obj(rules)) == [] <==> ParseHandoffRules(rules).Ok?)
    ensures kind.Watches? ==> (RuleErrors(kind, Obj(rules)) == [] <==> ParseWatchRules(rules).Ok?)
    ensures !kind.Handoff? && !kind.Watches? ==> RuleErrors(kind, Obj(rules)) == []
  {
    assert ParseHandoffRules(rules).Err? ==> |ParseHandoffRules(rules).error| == 1;
    assert ParseWatchRules(rules).Err? ==> |ParseWatchRules(rules).error| == 1;
  }

  // ---- Creating and changing one connection ------------------------------------

  datatype CreateInput = CreateInput(officeId: string, edge: Edge, enabled: Json, rules: Json)

  datatype Changes = Changes(enabled: Json, rules: Json)

  ghost function CreateErrors(input: CreateInput, departments: set<DepartmentId>, before: set<Edge>): Errors {
    EdgeErrors(input.edge, departments, before, "") +
    EnabledErrors(input.enabled.OrElse(Bool(true))) +
    RuleErrors(input.edge.kind, input.rules.OrElse(Obj(map[])))
  }

  method CreateConnection(
    input: CreateInput, departments: set<DepartmentId>, existing: seq<Connection>, id: string, now: int)
    returns (r: Result<Connection, Errors>)
    ensures r.Err? <==> CreateErrors(input, departments, EdgeSet(Edges(existing))) != []
    ensures r.Err? ==> r.error == CreateErrors(input, departments, EdgeSet(Edges(existing)))
    ensures r.Ok? ==> input.enabled.OrElse(Bool(true)).Bool? && input.rules.OrElse(Obj(map[])).Obj?
    ensures r.Ok? ==> r.value == Connection(id, input.officeId, input.edge,
      input.enabled.OrElse(Bool(true)).b, input.rules.OrElse(Obj(map[])).fields, now)
  {
    var errors := ValidateEdge(input.edge, departments, Edges(existing), "");
    var rules := input.rules.OrElse(Obj(map[]));
    var enabled := input.enabled.OrElse(Bool(true));
    errors := errors + EnabledErrors(enabled) + RuleErrors(input.edge.kind, rules);
    if |errors| > 0 { return Err(errors); }
    return Ok(Connection(id, input.officeId, input.edge, enabled.b, rules.fields, now));
  }

  /** What a connection-creating request asks for: ends that are no text are no department's. */
  function InputFrom(officeId: string, body: Json): (input: CreateInput)
    ensures AskedFor(body, input.edge) && input.officeId == officeId
    ensures body.Field("enabled").Bool? ==> input.enabled == body.Field("enabled")
    ensures !body.Field("enabled").Bool? ==> input.enabled == Undefined
    ensures input.rules == body.Field("rules")
  {
    var enabled := body.Field("enabled");
    CreateInput(officeId,
      Edge(TextIn(body.Field("fromId")), TextIn(body.Field("toId")), KindFrom(body.Field("kind"))),
      if enabled.Bool? then enabled else Undefined,
      body.Field("rules"))
  }

  /** An edge goes from the department a body names as where it is from to the one it names as where it is to. */
  ghost predicate AskedFor(body: Json, edge: Edge) {
    && (forall a :: body.Field("fromId") == Str(a) ==> edge.fromId == a)
    && (!body.Field("fromId").Str? ==> edge.fromId == "")
    && (forall a :: body.Field("toId") == Str(a) ==> edge.toId == a)
    && (!body.Field("toId").Str? ==> edge.toId == "")
    && (forall k :: IsKind(k) ==> (body.Field("kind") == Str(KindName(k)) <==> edge.kind == k))
  }

  function TextIn(value: Json): string {
    if value.Str? then value.s else ""
  }

  predicate HasGoodRules(c: Connection) {
    RuleErrors(c.edge.kind, Obj(c.rules)) == []
  }

  function ChangeErrors(connection: Connection, changes: Changes): Errors {
    EnabledErrors(changes.enabled.OrElse(Bool(connection.enabled))) +
    RuleErrors(connection.edge.kind, changes.rules.OrElse(Obj(connection.rules)))
  }

  /** A changed arrow joins what it joined before and is of the kind it was: only its switch and rules change. */
  function UpdateConnection(connection: Connection, changes: Changes): (r: Result<Connection, Errors>)
    ensures r.Ok? <==> ChangeErrors(connection, changes) == []
    ensures r.Err? ==> r.error == ChangeErrors(connection, changes)
    ensures r.Ok? ==> r.value == connection.(enabled := r.value.enabled, rules := r.value.rules) && HasGoodRules(r.value)
    ensures r.Ok? ==> Bool(r.value.enabled) == changes.enabled.OrElse(Bool(connection.enabled))
    ensures r.Ok? ==> Obj(r.value.rules) == changes.rules.OrElse(Obj(connection.rules))
  {
    var enabled := changes.enabled.OrElse(Bool(connection.enabled));
    var rules := changes.rules.OrElse(Obj(connection.rules));
    var errors := EnabledErrors(enabled) + RuleErrors(connection.edge.kind, rules);
    if |errors| > 0 || !enabled.Bool? || !rules.Obj? then Err(errors)
    else Ok(connection.(enabled := enabled.b, rules := rules.fields))
  }

  function Merged(first: Changes, second: Changes): Changes {
    Changes(second.enabled.OrElse(first.enabled), second.rules.OrElse(first.rules))
  }

  /**
   * What is absent is left alone, the later of two changes wins, and two accepted changes are one
   * change that says both.
   */
  lemma ChangesCompose(c: Connection, first: Changes, second: Changes)
    requires HasGoodRules(c)
    ensures UpdateConnection(c, Changes(Undefined, Undefined)) == Ok(c) == UpdateConnection(c, Changes(Null, Null))
    ensures UpdateConnection(c, first).Ok? ==> HasGoodRules(UpdateConnection(c, first).value)
    ensures UpdateConnection(c, first).Ok? ==>
      UpdateConnection(UpdateConnection(c, first).value, second) == UpdateConnection(c, Merged(first, second))
  {
  }
}
