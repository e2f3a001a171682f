/**
 * An office's departments and arrows over time: what every operation on them keeps, and what an
 * arrow is really checked against.
 */
module OfficeConnections {
  import opened Shared
  import opened Sorting
  import opened Pages
  import opened ConnectionGraph
  import opened Connections

  function Keep(cs: seq<Connection>, p: Connection -> bool): (r: seq<Connection>)
    ensures forall c :: c in r <==> c in cs && p(c)
  {
    if cs == [] then []
    else
      var rest := Keep(cs[..|cs| - 1], p);
      var last := cs[|cs| - 1];
      assert forall c :: c in cs <==> c in cs[..|cs| - 1] || c == last;
      if p(last) then rest + [last] else rest
  }

  function Replaced(cs: seq<Connection>, c: Connection): (r: seq<Connection>)
    ensures |r| == |cs|
    ensures forall i :: 0 <= i < |cs| ==> r[i] == if cs[i].id == c.id then c else cs[i]
  {
    seq(|cs|, i requires 0 <= i < |cs| => if cs[i].id == c.id then c else cs[i])
  }

  function Find(cs: seq<Connection>, id: string): (r: Option<Connection>)
    ensures r.Some? ==> r.value in cs && r.value.id == id
    ensures r.None? ==> forall c :: c in cs ==> c.id != id
  {
    if cs == [] then None else if cs[0].id == id then Some(cs[0]) else Find(cs[1..], id)
  }

  /** What an office holds that its arrows are checked against; these are in the order of their ids. */
  datatype Office = Office(
    departments: map<DepartmentId, string>,
    employees: map<string, DepartmentId>,
    connections: seq<Connection>)

  datatype Op =
    | Create(input: CreateInput, id: string, now: int)
    | Update(id: string, changes: Changes)
    | Delete(id: string)
    | RemoveDepartment(departmentId: DepartmentId)              // the canvas's
    | AddDepartment(departmentId: DepartmentId, name: string)
    | DeleteRow(departmentId: DepartmentId)                     // the server's

  predicate IdAfter(a: Connection, b: Connection) { Below(b.id, a.id) }

  ghost predicate DistinctIds(cs: seq<Connection>) {
    forall i, j :: 0 <= i < j < |cs| ==> cs[i].id != cs[j].id
  }

  ghost predicate InIdOrder(cs: seq<Connection>) {
    Ordered(IdAfter, cs) && DistinctIds(cs)
  }

  ghost predicate OfficeWellFormed(o: Office) {
    && WellFormed(Edges(o.connections), o.departments.Keys)
    && InIdOrder(o.connections)
    && forall c :: c in o.connections ==> HasGoodRules(c)
  }

  predicate Touches(c: Connection, department: DepartmentId) {
    c.edge.fromId == department || c.edge.toId == department
  }

  function StaffOf(o: Office, department: DepartmentId): set<string> {
    set e | e in o.employees && o.employees[e] == department
  }

  /** New ids are never ids already in use. */
  predicate FreshFor(o: Office, op: Op) {
    op.Create? ==> forall c :: c in o.connections ==> c.id != op.id
  }

  /** What the server tells a creation to check against: a page of departments and a page of arrows. */
  ghost function ReadErrors(o: Office, input: CreateInput): Errors {
    CreateErrors(input, FirstIds(o.departments.Keys), EdgeSet(Edges(FirstPage(o.connections))))
  }

  function Created(input: CreateInput, id: string, now: int): Connection
    requires input.enabled.OrElse(Bool(true)).Bool? && input.rules.OrElse(Obj(map[])).Obj?
  {
    Connection(id, input.officeId, input.edge, input.enabled.OrElse(Bool(true)).b,
      input.rules.OrElse(Obj(map[])).fields, now)
  }

  /** An arrow is created while a page holds all there are. */
  predicate OnePage(o: Office, op: Op) {
    op.Create? ==> |o.connections| <= PAGE_SIZE
  }

  /** The server's own deletion of a department is harmless while no arrow touches it. */
  predicate Guarded(o: Office, op: Op) {
    op.DeleteRow? ==> forall c :: c in o.connections ==> !Touches(c, op.departmentId)
  }

  /** The office after one operation; a refused operation changes nothing. */
  ghost function After(o: Office, op: Op): Office {
    match op
    case Create(input, id, now) =>
      if ReadErrors(o, input) != [] then o
      else o.(connections := Insert(IdAfter, o.connections, Created(input, id, now)))
    case Update(id, changes) =>
      (match Find(o.connections, id)
       case None => o
       case Some(c) =>
         match UpdateConnection(c, changes)
         case Err(_) => o
         case Ok(updated) => o.(connections := Replaced(o.connections, updated)))
    case Delete(id) => o.(connections := Keep(o.connections, (c: Connection) => c.id != id))
    case RemoveDepartment(d) =>
      if d !in o.departments || StaffOf(o, d) != {} then o
      else o.(departments := o.departments - {d},
              connections := Keep(o.connections, (c: Connection) => !Touches(c, d)))
    case AddDepartment(d, name) => o.(departments := o.departments[d := name])
    case DeleteRow(d) => o.(departments := o.departments - {d})
  }

  lemma EdgesAppend(cs: seq<Connection>, c: Connection)
    ensures Edges(cs + [c]) == Edges(cs) + [c.edge]
  {
  }

  lemma {:induction false} KeepIsSubBag(cs: seq<Connection>, p: Connection -> bool)
    ensures multiset(Edges(Keep(cs, p))) <= multiset(Edges(cs))
  {
    if cs != [] {
      var init, last := cs[..|cs| - 1], cs[|cs| - 1];
      KeepIsSubBag(init, p);
      assert cs == init + [last];
      EdgesAppend(init, last);
      EdgesAppend(Keep(init, p), last);
    }
  }

  lemma {:induction false} KeepKeepsIdOrder(cs: seq<Connection>, p: Connection -> bool)
    requires InIdOrder(cs)
    ensures InIdOrder(Keep(cs, p))
  {
    if cs != [] {
      var init, last := cs[..|cs| - 1], cs[|cs| - 1];
      KeepKeepsIdOrder(init, p);
      forall c | c in Keep(init, p) ensures c.id != last.id && !IdAfter(c, last) {
        var i :| 0 <= i < |init| && init[i] == c;
        assert cs[i] == c;
      }
      IdOrderGrows(Keep(init, p), last);
    }
  }

  lemma IdOrderGrows(cs: seq<Connection>, last: Connection)
    requires InIdOrder(cs) && forall c :: c in cs ==> c.id != last.id && !IdAfter(c, last)
    ensures InIdOrder(cs + [last])
  {
  }

  lemma IdAfterIsOrdering()
    ensures Ordering(IdAfter)
  {
    forall a: Connection, b: Connection | IdAfter(a, b) ensures !IdAfter(b, a) {
      BelowIsStrict(a.id, b.id);
    }
    forall a: Connection, b: Connection, c: Connection | !IdAfter(a, b) && !IdAfter(b, c) ensures !IdAfter(a, c) {
      if IdAfter(a, c) {
        BelowSkips(c.id, b.id, a.id);
      }
    }
  }

  lemma {:induction false} InsertIsDistinct(cs: seq<Connection>, c: Connection)
    requires DistinctIds(cs) && forall other :: other in cs ==> other.id != c.id
    ensures DistinctIds(Insert(IdAfter, cs, c))
  {
    var n := |cs| - 1;
    if cs != [] && IdAfter(cs[n], c) {
      InsertIsDistinct(cs[..n], c);
      InsertAdds(IdAfter, cs[..n], c);
      var front := Insert(IdAfter, cs[..n], c);
      forall i | 0 <= i < |front| ensures front[i].id != cs[n].id {
        assert front[i] in multiset(front);
        assert front[i] in cs[..n] || front[i] == c;
      }
    }
  }

  lemma InsertKeepsIdOrder(cs: seq<Connection>, c: Connection)
    requires InIdOrder(cs) && forall other :: other in cs ==> other.id != c.id
    ensures InIdOrder(Insert(IdAfter, cs, c))
  {
    IdAfterIsOrdering();
    InsertOrders(IdAfter, cs, c);
    InsertIsDistinct(cs, c);
  }

  lemma {:induction false} EdgesOfInsert(cs: seq<Connection>, c: Connection)
    ensures multiset(Edges(Insert(IdAfter, cs, c))) == multiset(Edges(cs) + [c.edge])
  {
    if cs == [] || !IdAfter(cs[|cs| - 1], c) {
      EdgesAppend(cs, c);
    } else {
      var init, last := cs[..|cs| - 1], cs[|cs| - 1];
      assert cs == init + [last];
      EdgesOfInsert(init, c);
      EdgesAppend(init, last);
      EdgesAppend(Insert(IdAfter, init, c), last);
    }
  }

  /** Ids stay in order whatever is done, so that a page stays the first of them. */
  lemma IdsStayInOrder(o: Office, op: Op)
    requires InIdOrder(o.connections) && FreshFor(o, op)
    ensures InIdOrder(After(o, op).connections)
  {
    match op
    case Create(input, id, now) =>
      if ReadErrors(o, input) == [] { InsertKeepsIdOrder(o.connections, Created(input, id, now)); }
    case Update(id, changes) =>
      var found := Find(o.connections, id);
      if found.Some? && UpdateConnection(found.value, changes).Ok? {
        ReplacingKeepsEdges(o.connections, found.value, UpdateConnection(found.value, changes).value);
      }
    case Delete(id) => KeepKeepsIdOrder(o.connections, (c: Connection) => c.id != id);
    case RemoveDepartment(d) => KeepKeepsIdOrder(o.connections, (c: Connection) => !Touches(c, d));
    case AddDepartment(d, name) =>
    case DeleteRow(d) =>
  }

  /**
   * Every operation keeps an office well-formed, but for a row deleted from under an arrow, and for
   * arrows created where there are more than a page.
   */
  lemma StepKeepsWellFormed(o: Office, op: Op)
    requires OfficeWellFormed(o) && FreshFor(o, op) && OnePage(o, op)
    ensures OfficeWellFormed(After(o, op)) <==> Guarded(o, op)
  {
    match op
    case Create(input, id, now) => CreateKeepsOffice(o, input, id, now);
    case Update(id, changes) => UpdateKeepsEdges(o, id, changes);
    case Delete(id) => KeepingSome(o, (c: Connection) => c.id != id, o.departments);
    case RemoveDepartment(d) =>
      if After(o, op) != o {
        KeepingSome(o, (c: Connection) => !Touches(c, d), o.departments - {d});
      }
    case AddDepartment(d, name) => AddingKeepsOffice(o, d, name);
    case DeleteRow(d) => RowDeletionNeedsNoArrows(o, d);
  }

  lemma InsertKeepsWellFormed(cs: seq<Connection>, c: Connection, departments: set<DepartmentId>)
    requires WellFormed(Edges(cs), departments)
    ensures WellFormed(Edges(Insert(IdAfter, cs, c)), departments) <==> Fits(c.edge, departments, EdgeSet(Edges(cs)))
  {
    CreateKeepsWellFormed(Edges(cs), departments, c.edge);
    EdgesOfInsert(cs, c);
    WellFormedIgnoresOrder(Edges(Insert(IdAfter, cs, c)), Edges(cs) + [c.edge], departments);
  }

  lemma InsertKeepsGoodRules(cs: seq<Connection>, c: Connection)
    requires HasGoodRules(c) && forall other :: other in cs ==> HasGoodRules(other)
    ensures forall other :: other in Insert(IdAfter, cs, c) ==> HasGoodRules(other)
  {
    InsertAdds(IdAfter, cs, c);
    forall other | other in Insert(IdAfter, cs, c) ensures other in cs || other == c {
      assert other in multiset(Insert(IdAfter, cs, c));
    }
  }

  /** An arrow that passes leaves a well-formed office exactly when it fits beside all the arrows there are. */
  lemma CreateOutcome(o: Office, input: CreateInput, id: string, now: int)
    requires OfficeWellFormed(o) && FreshFor(o, Create(input, id, now))
    ensures OfficeWellFormed(After(o, Create(input, id, now))) <==>
      ReadErrors(o, input) != [] || Fits(input.edge, o.departments.Keys, EdgeSet(Edges(o.connections)))
  {
    if ReadErrors(o, input) == [] {
      var c := Created(input, id, now);
      InsertKeepsWellFormed(o.connections, c, o.departments.Keys);
      InsertKeepsIdOrder(o.connections, c);
      InsertKeepsGoodRules(o.connections, c);
    }
  }

  lemma ReadErrorsMeanFits(o: Office, input: CreateInput)
    requires ReadErrors(o, input) == []
    ensures Fits(input.edge, FirstIds(o.departments.Keys), EdgeSet(Edges(FirstPage(o.connections))))
  {
    NoErrorIffFits(input.edge, FirstIds(o.departments.Keys), EdgeSet(Edges(FirstPage(o.connections))), "");
  }

  lemma CreateKeepsOffice(o: Office, input: CreateInput, id: string, now: int)
    requires OfficeWellFormed(o) && FreshFor(o, Create(input, id, now)) && |o.connections| <= PAGE_SIZE
    ensures OfficeWellFormed(After(o, Create(input, id, now)))
  {
    CreateOutcome(o, input, id, now);
    if ReadErrors(o, input) == [] {
      ReadErrorsMeanFits(o, input);
    }
  }

  // ---- More arrows than a page ------------------------------------------------------

  lemma PageOfEdges(cs: seq<Connection>)
    ensures EdgeSet(Edges(FirstPage(cs))) == EdgesAt(Edges(cs), Indices(|FirstPage(cs)|))
  {
    var page := FirstPage(cs);
    EdgeSetAtIndices(Edges(page));
    assert forall i :: 0 <= i < |page| ==> Edges(page)[i] == Edges(cs)[i];
  }

  /** Rules that every kind accepts. */
  function RulesFor(kind: Kind): Json {
    if kind.Watches? then Obj(map["for" := Arr([Str("work_started")])]) else Undefined
  }

  function Asking(e: Edge): CreateInput {
    CreateInput("", e, Undefined, RulesFor(e.kind))
  }

  lemma AskingIsInOrder(e: Edge, departments: set<DepartmentId>, before: set<Edge>)
    ensures CreateErrors(Asking(e), departments, before) == [] <==> Fits(e, departments, before)
  {
    NoErrorIffFits(e, departments, before, "");
    assert IsWatchableMoment(Str("work_started"));
    assert RuleErrors(e.kind, Asking(e).rules.OrElse(Obj(map[]))) == [];
  }

  function UnusedId(cs: seq<Connection>): (id: string)
    ensures forall c :: c in cs ==> |c.id| < |id|
  {
    if cs == [] then "x"
    else
      var rest, last := UnusedId(cs[..|cs| - 1]), cs[|cs| - 1];
      assert forall c :: c in cs <==> c in cs[..|cs| - 1] || c == last;
      rest + last.id
  }

  /** Whether the two pages a creation is checked against overlook anything. */
  ghost predicate PagesOverlook(o: Office) {
    Overlooks(Edges(o.connections), |FirstPage(o.connections)|, FirstIds(o.departments.Keys))
  }

  ghost predicate Spoils(o: Office, input: CreateInput, id: string) {
    FreshFor(o, Create(input, id, 0)) && !OfficeWellFormed(After(o, Create(input, id, 0)))
  }

  lemma SpoilingIsMisfit(o: Office, input: CreateInput, id: string)
    requires OfficeWellFormed(o) && FreshFor(o, Create(input, id, 0))
    ensures Spoils(o, input, id) <==>
      ReadErrors(o, input) == [] &&
      Misfit(Edges(o.connections), |FirstPage(o.connections)|, FirstIds(o.departments.Keys), o.departments.Keys, input.edge)
  {
    CreateOutcome(o, input, id, 0);
    PageOfEdges(o.connections);
    EdgeSetAtIndices(Edges(o.connections));
    if ReadErrors(o, input) == [] {
      ReadErrorsMeanFits(o, input);
    }
  }

  /**
   * Some arrow that would spoil a well-formed office is accepted, if and only if the pages it is
   * checked against overlook an arrow, or a path, between departments they hold.
   */
  lemma SomeArrowSpoilsIffPagesOverlook(o: Office)
    requires OfficeWellFormed(o)
    ensures (exists input, id :: Spoils(o, input, id)) <==> PagesOverlook(o)
  {
    var cs, D, read := Edges(o.connections), o.departments.Keys, FirstIds(o.departments.Keys);
    PartialCheckFailsIffItOverlooks(cs, |FirstPage(o.connections)|, read, D);
    if input, id :| Spoils(o, input, id) {
      SpoilingIsMisfit(o, input, id);
    }
    if PagesOverlook(o) {
      var e :| Misfit(cs, |FirstPage(o.connections)|, read, D, e);
      PageOfEdges(o.connections);
      AskingIsInOrder(e, read, EdgeSet(Edges(FirstPage(o.connections))));
      SpoilingIsMisfit(o, Asking(e), UnusedId(o.connections));
    }
  }

  /** With no more departments than a page, that is if and only if there are more arrows than a page. */
  lemma SomeArrowSpoilsIffMoreThanAPage(o: Office)
    requires OfficeWellFormed(o) && |o.departments| <= PAGE_SIZE
    ensures (exists input, id :: Spoils(o, input, id)) <==> |o.connections| > PAGE_SIZE
  {
    SomeArrowSpoilsIffPagesOverlook(o);
    OnePageOfIds(o.departments.Keys);
    UnreadEdgesAreOverlooked(Edges(o.connections), |FirstPage(o.connections)|, o.departments.Keys);
  }

  lemma AddingKeepsOffice(o: Office, d: DepartmentId, name: string)
    requires OfficeWellFormed(o)
    ensures OfficeWellFormed(After(o, AddDepartment(d, name)))
  {
    var cs := Edges(o.connections);
    WellFormedEnds(cs, o.departments.Keys);
    SubBagWellFormed(cs, cs, o.departments.Keys, o.departments[d := name].Keys);
  }

  /** Dropping arrows keeps an office well-formed while the rest have their departments. */
  lemma KeepingSome(o: Office, p: Connection -> bool, departments: map<DepartmentId, string>)
    requires OfficeWellFormed(o)
    requires forall c ::
      (p(c) && c.edge.fromId in o.departments && c.edge.toId in o.departments) ==>
      (c.edge.fromId in departments && c.edge.toId in departments)
    ensures OfficeWellFormed(o.(departments := departments, connections := Keep(o.connections, p)))
  {
    var cs, r := Edges(o.connections), Keep(o.connections, p);
    KeepIsSubBag(o.connections, p);
    KeepKeepsIdOrder(o.connections, p);
    WellFormedEnds(cs, o.departments.Keys);
    KeptEdgesStay(o.connections, p);
    SubBagWellFormed(cs, Edges(r), o.departments.Keys, departments.Keys);
  }

  lemma KeptEdgesStay(cs: seq<Connection>, p: Connection -> bool)
    ensures forall e :: e in Edges(Keep(cs, p)) ==> exists c :: c in cs && p(c) && c.edge == e
    ensures forall e :: e in Edges(Keep(cs, p)) ==> e in Edges(cs)
  {
  }

  lemma CreateKeepsWellFormed(cs: seq<Edge>, departments: set<DepartmentId>, e: Edge)
    requires WellFormed(cs, departments)
    ensures Fits(e, departments, EdgeSet(cs)) <==> WellFormed(cs + [e], departments)
  {
    var all := cs + [e];
    EdgeSetAtIndices(cs);
    assert EdgesAt(all, Indices(|cs|)) == EdgesAt(cs, Indices(|cs|)) by {
      assert forall i :: 0 <= i < |cs| ==> all[i] == cs[i];
    }
    assert WellFormedOn(all, Indices(|cs|), departments);
    assert Indices(|all|) == Indices(|cs|) + {|cs|};
    FitsIsGlobal(all, Indices(|cs|), |cs|, departments);
  }

  lemma ReplacingKeepsEdges(cs: seq<Connection>, found: Connection, updated: Connection)
    requires InIdOrder(cs) && found in cs && updated.id == found.id && updated.edge == found.edge
    ensures Edges(Replaced(cs, updated)) == Edges(cs) && InIdOrder(Replaced(cs, updated))
  {
  }

  lemma UpdateKeepsEdges(o: Office, id: string, changes: Changes)
    requires OfficeWellFormed(o)
    ensures OfficeWellFormed(After(o, Update(id, changes)))
  {
    var found := Find(o.connections, id);
    if found.Some? && UpdateConnection(found.value, changes).Ok? {
      ReplacingKeepsEdges(o.connections, found.value, UpdateConnection(found.value, changes).value);
    }
  }

  ghost function AfterAll(o: Office, ops: seq<Op>): Office {
    if ops == [] then o else After(AfterAll(o, ops[..|ops| - 1]), ops[|ops| - 1])
  }

  ghost predicate AllFresh(o: Office, ops: seq<Op>) {
    ops != [] ==> AllFresh(o, ops[..|ops| - 1]) && FreshFor(AfterAll(o, ops[..|ops| - 1]), ops[|ops| - 1])
  }

  /** The office is well-formed to begin with and after every operation of the run. */
  ghost predicate WellFormedThroughout(o: Office, ops: seq<Op>) {
    OfficeWellFormed(AfterAll(o, ops)) && (ops != [] ==> WellFormedThroughout(o, ops[..|ops| - 1]))
  }

  /** No arrow touches a department at the moment its row is deleted. */
  ghost predicate GuardedThroughout(o: Office, ops: seq<Op>) {
    ops != [] ==>
      GuardedThroughout(o, ops[..|ops| - 1]) && Guarded(AfterAll(o, ops[..|ops| - 1]), ops[|ops| - 1])
  }

  /** Arrows are only created while a page holds all there are. */
  ghost predicate OnePageThroughout(o: Office, ops: seq<Op>) {
    ops != [] ==>
      OnePageThroughout(o, ops[..|ops| - 1]) && OnePage(AfterAll(o, ops[..|ops| - 1]), ops[|ops| - 1])
  }

  /**
   * Every run of creating, changing and deleting arrows and of adding and removing departments, in
   * which arrows are created beside a page of others at most, keeps the office well-formed
   * throughout; with rows deleted by the server in it, it does so if and only if no arrow ever
   * touches a department whose row is deleted.
   */
  lemma {:induction false} RunKeepsWellFormed(o: Office, ops: seq<Op>)
    requires OfficeWellFormed(o) && AllFresh(o, ops) && OnePageThroughout(o, ops)
    ensures WellFormedThroughout(o, ops) <==> GuardedThroughout(o, ops)
  {
    if ops != [] {
      RunKeepsWellFormed(o, ops[..|ops| - 1]);
      if WellFormedThroughout(o, ops[..|ops| - 1]) {
        StepKeepsWellFormed(AfterAll(o, ops[..|ops| - 1]), ops[|ops| - 1]);
      }
    }
  }

  /**
   * The server's own deletion of a department row leaves the arrows in place, so the graph stays
   * well-formed exactly when no arrow touches the department.
   */
  lemma RowDeletionNeedsNoArrows(o: Office, d: DepartmentId)
    requires OfficeWellFormed(o)
    ensures OfficeWellFormed(o.(departments := o.departments - {d}))
       <==> forall c :: c in o.connections ==> !Touches(c, d)
  {
    var cs, D := Edges(o.connections), o.departments.Keys;
    WellFormedEnds(cs, D);
    if forall c :: c in o.connections ==> !Touches(c, d) {
      assert forall i :: 0 <= i < |cs| ==> o.connections[i] in o.connections;
      SubBagWellFormed(cs, cs, D, D - {d});
    } else {
      var c :| c in o.connections && Touches(c, d);
      var i :| 0 <= i < |cs| && o.connections[i] == c;
      assert i in Indices(|cs|) && !Known(cs[i], D - {d});
    }
  }

  lemma NothingToDelete(cs: seq<Connection>, id: string)
    requires Find(cs, id).None?
    ensures Keep(cs, (c: Connection) => c.id != id) == cs
  {
    KeepEverything(cs, (c: Connection) => c.id != id);
  }

  lemma {:induction false} KeepEverything(cs: seq<Connection>, p: Connection -> bool)
    requires forall c :: c in cs ==> p(c)
    ensures Keep(cs, p) == cs
  {
    if cs != [] {
      assert cs == cs[..|cs| - 1] + [cs[|cs| - 1]];
      KeepEverything(cs[..|cs| - 1], p);
    }
  }

  datatype Reply = Missing | Conflict(current: Connection) | Invalid(errors: Errors) | Saved(connection: Connection)

  /** The office's arrows as the server and the canvas keep them: fields replaced in place. */
  class OfficeGraph {
    const officeId: string
    var departments: map<DepartmentId, string>
    var employees: map<string, DepartmentId>
    var connections: seq<Connection>

    ghost function View(): Office
      reads this
    {
      Office(departments, employees, connections)
    }

    constructor (officeId: string)
      ensures this.officeId == officeId && View() == Office(map[], map[], [])
      ensures OfficeWellFormed(View())
    {
      this.officeId := officeId;
      departments, employees, connections := map[], map[], [];
      new;
      assert EdgesAt([], Indices(0)) == {};
    }

    /** The body is checked against a page of departments and a page of arrows. */
    method Create(body: Json, id: string, now: int) returns (r: Result<Connection, Errors>)
      requires InIdOrder(connections) && FreshFor(View(), Op.Create(InputFrom(officeId, body), id, now))
      modifies this`connections
      ensures View() == After(old(View()), Op.Create(InputFrom(officeId, body), id, now)) && InIdOrder(connections)
      ensures old(OfficeWellFormed(View())) && |old(connections)| <= PAGE_SIZE ==> OfficeWellFormed(View())
      ensures r.Ok? <==> ReadErrors(old(View()), InputFrom(officeId, body)) == []
      ensures r.Err? ==> r.error == ReadErrors(old(View()), InputFrom(officeId, body))
      ensures r.Ok? ==> multiset(connections) == multiset(old(connections)) + multiset{r.value}
      ensures r.Ok? ==> r.value.id == id && r.value.officeId == officeId && r.value.createdAt == now
      ensures r.Ok? ==> AskedFor(body, r.value.edge)
      ensures r.Ok? ==> r.value.enabled == (if body.Field("enabled").Bool? then body.Field("enabled").b else true)
      ensures r.Ok? ==> Obj(r.value.rules) == body.Field("rules").OrElse(Obj(map[]))
    {
      var input := InputFrom(officeId, body);
      CreatingKeeps(input, id, now);
      r := CreateConnection(input, FirstIds(departments.Keys), FirstPage(connections), id, now);
      if r.Ok? {
        InsertAdds(IdAfter, connections, r.value);
        connections := Insert(IdAfter, connections, r.value);
      }
    }

    /** `stale` is the answer to whether the arrow may have changed since the offset the request claims. */
    method Update(id: string, stale: bool, changes: Changes) returns (r: Reply)
      requires InIdOrder(connections)
      modifies this`connections
      ensures View() == if r.Saved? then After(old(View()), Op.Update(id, changes)) else old(View())
      ensures InIdOrder(connections) && (old(OfficeWellFormed(View())) ==> OfficeWellFormed(View()))
      ensures r.Missing? <==> forall c :: c in old(connections) ==> c.id != id
      ensures !r.Missing? ==> (r.Conflict? <==> stale)
      ensures r.Conflict? ==> r.current in old(connections) && r.current.id == id
      ensures r.Invalid? ==> exists c :: c in old(connections) && c.id == id && UpdateConnection(c, changes) == Err(r.errors)
      ensures r.Saved? ==> exists c :: c in old(connections) && c.id == id && UpdateConnection(c, changes) == Ok(r.connection)
      ensures r.Saved? ==> |connections| == |old(connections)| && forall i :: 0 <= i < |connections| ==>
        connections[i] == if old(connections)[i].id == id then r.connection else old(connections)[i]
    {
      Keeps(Op.Update(id, changes));
      var found := Find(connections, id);
      if found.None? { return Missing; }
      if stale { return Conflict(found.value); }
      var updated := UpdateConnection(found.value, changes);
      if updated.Err? { return Invalid(updated.error); }
      connections := Replaced(connections, updated.value);
      return Saved(updated.value);
    }

    method Delete(id: string) returns (found: bool)
      requires InIdOrder(connections)
      modifies this`connections
      ensures View() == After(old(View()), Op.Delete(id))
      ensures InIdOrder(connections) && (old(OfficeWellFormed(View())) ==> OfficeWellFormed(View()))
      ensures found <==> exists c :: c in old(connections) && c.id == id
      ensures forall c :: c in connections <==> c in old(connections) && c.id != id
    {
      Keeps(Op.Delete(id));
      if Find(connections, id).None? {
        NothingToDelete(connections, id);
        return false;
      }
      connections := Keep(connections, (c: Connection) => c.id != id);
      return true;
    }

    lemma CreatingKeeps(input: CreateInput, id: string, now: int)
      requires InIdOrder(connections) && FreshFor(View(), Op.Create(input, id, now))
      ensures InIdOrder(After(View(), Op.Create(input, id, now)).connections)
      ensures OfficeWellFormed(View()) && |connections| <= PAGE_SIZE ==>
        OfficeWellFormed(After(View(), Op.Create(input, id, now)))
    {
      IdsStayInOrder(View(), Op.Create(input, id, now));
      if OfficeWellFormed(View()) && |connections| <= PAGE_SIZE {
        StepKeepsWellFormed(View(), Op.Create(input, id, now));
      }
    }

    /** What any operation but the creation of an arrow keeps. */
    lemma Keeps(op: Op)
      requires InIdOrder(connections) && !op.Create?
      ensures InIdOrder(After(View(), op).connections)
      ensures OfficeWellFormed(View()) ==> (OfficeWellFormed(After(View(), op)) <==> Guarded(View(), op))
    {
      IdsStayInOrder(View(), op);
      if OfficeWellFormed(View()) {
        StepKeepsWellFormed(View(), op);
      }
    }

    /** A department is created under a new id. */
    method AddDepartment(id: DepartmentId, name: string)
      requires InIdOrder(connections) && id !in departments
      modifies this`departments
      ensures View() == After(old(View()), Op.AddDepartment(id, name)) && departments == old(departments)[id := name]
      ensures old(OfficeWellFormed(View())) ==> OfficeWellFormed(View())
    {
      Keeps(Op.AddDepartment(id, name));
      departments := departments[id := name];
    }

    /** The server's deletion of a department: the arrows stay as they are. */
    method DeleteRow(id: DepartmentId) returns (found: bool)
      requires InIdOrder(connections)
      modifies this`departments
      ensures View() == After(old(View()), Op.DeleteRow(id)) && (found <==> id in old(departments))
      ensures departments == old(departments) - {id}
      ensures old(OfficeWellFormed(View())) ==>
        (OfficeWellFormed(View()) <==> Guarded(old(View()), Op.DeleteRow(id)))
    {
      Keeps(Op.DeleteRow(id));
      found := id in departments;
      departments := departments - {id};
    }

    method RemoveDepartment(id: DepartmentId) returns (r: Result<(), Errors>)
      requires InIdOrder(connections)
      modifies this`departments, this`connections
      ensures View() == After(old(View()), Op.RemoveDepartment(id))
      ensures InIdOrder(connections) && (old(OfficeWellFormed(View())) ==> OfficeWellFormed(View()))
      ensures r.Ok? <==> id in old(departments) && forall e :: e in employees ==> employees[e] != id
      ensures r.Ok? ==> departments == old(departments) - {id}
      ensures r.Ok? ==> forall c :: c in connections <==> c in old(connections) && c.edge.fromId != id && c.edge.toId != id
      ensures r.Err? ==> View() == old(View())
    {
      Keeps(Op.RemoveDepartment(id));
      if id !in departments {
        return Err([ValidationError("id", "no such department")]);
      }
      var staff := set e | e in employees && employees[e] == id;
      assert forall e :: e in employees && employees[e] == id ==> e in staff;
      if |staff| > 0 {
        return Err([ValidationError("employees", departments[id] + " still has " + Decimal(|staff|) + " " +
          (if |staff| == 1 then "person" else "people") + " in it")]);
      }
      departments := departments - {id};
      connections := Keep(connections, (c: Connection) => !Touches(c, id));
      return Ok(());
    }
  }

  // ---- One arrow too many ---------------------------------------------------------------

  function Name(n: nat): (s: string)
    ensures |s| == n
  {
    seq(n, _ => 'x')
  }

  function Names(n: nat): set<string> {
    if n == 0 then {} else Names(n - 1) + {Name(n - 1)}
  }

  lemma {:induction false} NamesAre(n: nat)
    ensures |Names(n)| == n && forall i: nat :: Name(i) in Names(n) <==> i < n
    ensures forall s :: s in Names(n) ==> s == Name(|s|)
  {
    if n > 0 {
      NamesAre(n - 1);
      forall i: nat ensures Name(i) in Names(n) <==> i < n {
        assert Name(i) == Name(n - 1) ==> |Name(i)| == n - 1;
      }
    }
  }

  lemma {:induction false} LongerIsAfter(m: nat, n: nat)
    requires m <= n
    ensures !Below(Name(n), Name(m))
    decreases m
  {
    if m > 0 {
      assert Name(n)[1..] == Name(n - 1) && Name(m)[1..] == Name(m - 1);
      LongerIsAfter(m - 1, n - 1);
    }
  }

  /** One arrow more than `n`, all from one of `n` departments to the others: two of these twice. */
  function Arrow(n: nat, i: nat): Connection {
    Connection(Name(i), "",
      if i + 1 < n then Edge(Name(0), Name(1 + i), Handoff) else Edge(Name(0), Name(if i < n then 1 else 2), Reviews),
      true, map[], 0)
  }

  function Arrows(n: nat): (r: seq<Connection>)
    ensures |r| == n + 1 && forall i :: 0 <= i <= n ==> r[i] == Arrow(n, i)
  {
    seq(n + 1, i requires 0 <= i <= n => Arrow(n, i))
  }

  function Crowded(n: nat): Office {
    Office(map d | d in Names(n) :: "", map[], Arrows(n))
  }

  lemma ArrowsAreApart(n: nat, i: nat, j: nat)
    requires i <= n && j <= n && i != j
    ensures !SameEdge(Arrow(n, i).edge, Arrow(n, j).edge)
  {
    var e, f := Arrow(n, i).edge, Arrow(n, j).edge;
    assert e.toId == f.toId ==> |e.toId| == |f.toId|;
  }

  lemma ArrowIsKnown(n: nat, i: nat)
    requires i <= n && 3 <= n
    ensures Known(Arrow(n, i).edge, Names(n))
  {
    NamesAre(n);
    var e := Arrow(n, i).edge;
    assert |e.fromId| == 0 < |e.toId| < n;
  }

  lemma ArrowsAreWellFormed(n: nat, cs: seq<Edge>)
    requires 3 <= n && |cs| == n + 1 && forall i :: 0 <= i <= n ==> cs[i] == Arrow(n, i).edge
    ensures WellFormed(cs, Names(n))
  {
    forall i | i in Indices(n + 1) ensures Known(cs[i], Names(n)) {
      ArrowIsKnown(n, i);
    }
    forall i, j | i in Indices(n + 1) && j in Indices(n + 1) && i != j ensures !SameEdge(cs[i], cs[j]) {
      ArrowsAreApart(n, i, j);
    }
    forall k | IsAcyclicKind(k) ensures Acyclic(EdgesAt(cs, Indices(n + 1)), k) {
      NoneOfTheKind(EdgesAt(cs, Indices(n + 1)), k);
    }
  }

  lemma NoneOfTheKind(E: set<Edge>, k: Kind)
    requires forall e :: e in E ==> e.kind != k
    ensures Acyclic(E, k)
  {
  }

  lemma ArrowsAreInIdOrder(n: nat, cs: seq<Connection>)
    requires |cs| == n + 1 && forall i :: 0 <= i <= n ==> cs[i] == Arrow(n, i)
    ensures InIdOrder(cs)
  {
    forall i, j | 0 <= i < j <= n ensures !IdAfter(cs[i], cs[j]) && cs[i].id != cs[j].id {
      LongerIsAfter(i, j);
      assert |cs[i].id| == i && |cs[j].id| == j;
    }
  }

  lemma ArrowRulesAreGood(n: nat, cs: seq<Connection>)
    requires |cs| == n + 1 && forall i :: 0 <= i <= n ==> cs[i] == Arrow(n, i)
    ensures forall c :: c in cs ==> HasGoodRules(c)
  {
  }

  lemma CrowdedIsWellFormed(n: nat)
    requires 3 <= n
    ensures OfficeWellFormed(Crowded(n)) && Crowded(n).departments.Keys == Names(n) && |Names(n)| == n
  {
    var cs := Arrows(n);
    NamesAre(n);
    assert Crowded(n).departments.Keys == Names(n);
    ArrowsAreWellFormed(n, Edges(cs));
    ArrowsAreInIdOrder(n, cs);
    ArrowRulesAreGood(n, cs);
  }

  lemma LastIsMisfit(n: nat, cs: seq<Edge>)
    requires 3 <= n && cs == Edges(Arrows(n)) && WellFormed(cs, Names(n))
    ensures Misfit(cs, n, Names(n), Names(n), Arrow(n, n).edge)
  {
    ArrowIsKnown(n, n);
    UnreadEdgeFitsAgain(cs, n, Names(n), Names(n), n);
  }

  /** The last of these arrows, one more than a page, is accepted a second time. */
  lemma AnArrowIsAcceptedTwice(n: nat, again: CreateInput)
    requires n == PAGE_SIZE && again == Asking(Arrow(n, n).edge)
    ensures Spoils(Crowded(n), again, UnusedId(Arrows(n)))
  {
    var o := Crowded(n);
    CrowdedIsWellFormed(n);
    OnePageOfIds(o.departments.Keys);
    PageOfEdges(o.connections);
    LastIsMisfit(n, Edges(o.connections));
    AskingIsInOrder(again.edge, o.departments.Keys, EdgeSet(Edges(FirstPage(o.connections))));
    SpoilingIsMisfit(o, again, UnusedId(o.connections));
  }
}
