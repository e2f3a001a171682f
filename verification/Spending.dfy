/** What the levels of an office have spent, as far as the server reads it, and how they stand. */
module Spending {
  import opened Shared
  import opened Sorting
  import opened Pages
  import opened Budget

  /**
   * A metered call, filed under the office its own attribution names; a cost that is not a number is
   * no cost. Its id, which is drawn at random, stands for its place in the order of ids.
   */
  datatype Row = Row(id: int, officeId: string, employeeId: Option<string>, at: int, cost: Option<real>)

  datatype Employee = Employee(id: string, departmentId: string, budget: Option<Budget>)

  datatype Level = OfficeLevel | DepartmentLevel(id: string) | EmployeeLevel(id: string)

  /**
   * One office as its usage route sees it: its own budget, the departments and people of the store,
   * whichever office they are in and the people in the order of their ids, and when the current day
   * and month began where it is.
   */
  datatype Office = Office(
    id: string,
    budget: Option<Budget>,
    departments: map<string, Option<Budget>>,
    employees: seq<Employee>,
    dayStart: int,
    monthStart: int)

  datatype Stand = Stand(level: Level, standing: Standing, spentUsd: real, limitUsd: real)

  ghost predicate OwnIds(employees: seq<Employee>) {
    forall e, e' :: e in employees && e' in employees && e.id == e'.id ==> e == e'
  }

  function EmployeeOf(employees: seq<Employee>, id: string): (r: Option<Employee>)
    ensures r.Some? ==> r.value.id == id
  {
    if employees == [] then None
    else if employees[0].id == id then Some(employees[0])
    else EmployeeOf(employees[1..], id)
  }

  function Staff(employees: seq<Employee>, departmentId: string): seq<Employee> {
    if employees == [] then []
    else
      var n := |employees| - 1;
      if employees[n].departmentId == departmentId then Staff(employees[..n], departmentId) + [employees[n]]
      else Staff(employees[..n], departmentId)
  }

  function BudgetOf(office: Office, level: Level): Option<Budget> {
    match level
    case OfficeLevel => office.budget
    case DepartmentLevel(id) => if id in office.departments then office.departments[id] else None
    case EmployeeLevel(id) =>
      match EmployeeOf(office.employees, id)
      case None => None
      case Some(employee) => employee.budget
  }

  /** Whose calls a level pays for; a room's people are a page of its staff. */
  predicate Pays(office: Office, level: Level, employeeId: Option<string>) {
    match level
    case OfficeLevel => true
    case DepartmentLevel(id) =>
      employeeId.Some? && EmployeeOf(FirstPage(Staff(office.employees, id)), employeeId.value).Some?
    case EmployeeLevel(id) => employeeId == Some(id)
  }

  function Since(office: Office, period: Period): int {
    match period case Day => office.dayStart case Month => office.monthStart
  }

  // ---- What is stored, and what of it is read ---------------------------------------

  predicate IdAfter(a: Row, b: Row) { a.id > b.id }

  /** What is stored, in the order of ids, each its own. */
  ghost predicate Sorted(rows: seq<Row>) {
    forall i, j :: 0 <= i < j < |rows| ==> rows[i].id < rows[j].id
  }

  /** A row's id is used by no other. */
  ghost predicate Fresh(rows: seq<Row>, row: Row) {
    forall r :: r in rows ==> r.id != row.id
  }

  function Put(rows: seq<Row>, row: Row): seq<Row> {
    Insert(IdAfter, rows, row)
  }

  function Filed(rows: seq<Row>, officeId: string): seq<Row> {
    if rows == [] then []
    else
      var n := |rows| - 1;
      if rows[n].officeId == officeId then Filed(rows[..n], officeId) + [rows[n]] else Filed(rows[..n], officeId)
  }

  /** What a usage route reads of an office's rows. */
  function Read(rows: seq<Row>, officeId: string): seq<Row> {
    FirstPage(Filed(rows, officeId))
  }

  function CostAt(office: Office, since: int, level: Level, row: Row): real {
    if row.at < since || !Pays(office, level, row.employeeId) || row.cost.None? then 0.0 else row.cost.value
  }

  function Total(office: Office, rows: seq<Row>, since: int, level: Level): real {
    if rows == [] then 0.0
    else Total(office, rows[..|rows| - 1], since, level) + CostAt(office, since, level, rows[|rows| - 1])
  }

  /** What the server takes a level to have spent. */
  function Spent(office: Office, rows: seq<Row>, since: int, level: Level): real {
    Total(office, Read(rows, office.id), since, level)
  }

  method SpentFor(office: Office, rows: seq<Row>, since: int, level: Level) returns (total: real)
    ensures total == Spent(office, rows, since, level)
  {
    var page := Read(rows, office.id);
    total := 0.0;
    for i := 0 to |page|
      invariant total == Total(office, page[..i], since, level)
    {
      assert page[..i + 1][..i] == page[..i];
      var row := page[i];
      if row.at < since || !Pays(office, level, row.employeeId) { continue; }
      if row.cost.Some? {
        total := total + row.cost.value;
      }
    }
    assert page[..|page|] == page;
  }

  /** How a level stands in the eyes of the server: the standard every announcement is judged by. */
  function StandingOf(office: Office, rows: seq<Row>, level: Level): Standing {
    var budget := BudgetOf(office, level);
    if budget.None? then Within
    else BudgetStanding(budget, Spent(office, rows, Since(office, budget.value.period), level))
  }

  /** Who might have to pay for a call, from the office down. */
  function LevelsFor(office: Office, employeeId: Option<string>): seq<Level> {
    [OfficeLevel] +
    if employeeId.None? then []
    else
      match EmployeeOf(office.employees, employeeId.value)
      case None => []
      case Some(employee) => [DepartmentLevel(employee.departmentId), EmployeeLevel(employee.id)]
  }

  function StandOf(office: Office, rows: seq<Row>, level: Level): Stand
    requires BudgetOf(office, level).Some?
  {
    var budget := BudgetOf(office, level).value;
    Stand(level, StandingOf(office, rows, level), Spent(office, rows, Since(office, budget.period), level), budget.limitUsd)
  }

  /** A level without a budget stands nowhere and is passed over. */
  function StandsAmong(office: Office, rows: seq<Row>, levels: seq<Level>): seq<Stand> {
    if levels == [] then []
    else
      var level := levels[|levels| - 1];
      var others := StandsAmong(office, rows, levels[..|levels| - 1]);
      if BudgetOf(office, level).Some? then others + [StandOf(office, rows, level)] else others
  }

  method Standings(office: Office, rows: seq<Row>, employeeId: Option<string>) returns (out: seq<Stand>)
    ensures out == StandsAmong(office, rows, LevelsFor(office, employeeId))
  {
    var levels := LevelsFor(office, employeeId);
    out := [];
    for i := 0 to |levels|
      invariant out == StandsAmong(office, rows, levels[..i])
    {
      assert levels[..i + 1][..i] == levels[..i];
      var budget := BudgetOf(office, levels[i]);
      if budget.Some? {
        var spent := SpentFor(office, rows, Since(office, budget.value.period), levels[i]);
        out := out + [Stand(levels[i], BudgetStanding(budget, spent), spent, budget.value.limitUsd)];
      }
    }
    assert levels[..|levels|] == levels;
  }

  // ---- One more record ------------------------------------------------------------

  lemma IdAfterIsOrdering()
    ensures Ordering(IdAfter)
  {
  }

  lemma {:induction false} TotalAfterInsert(office: Office, rows: seq<Row>, row: Row, since: int, level: Level)
    ensures Total(office, Insert(IdAfter, rows, row), since, level)
         == Total(office, rows, since, level) + CostAt(office, since, level, row)
  {
    var n := |rows| - 1;
    if rows == [] || !IdAfter(rows[n], row) {
      assert (rows + [row])[..|rows|] == rows;
    } else {
      TotalAfterInsert(office, rows[..n], row, since, level);
      var front := Insert(IdAfter, rows[..n], row);
      assert (front + [rows[n]])[..|front|] == front;
    }
  }

  lemma {:induction false} FiledMembers(rows: seq<Row>, officeId: string)
    ensures forall x :: x in Filed(rows, officeId) <==> x in rows && x.officeId == officeId
  {
    if rows != [] {
      var n := |rows| - 1;
      FiledMembers(rows[..n], officeId);
      assert forall x :: x in rows <==> x in rows[..n] || x == rows[n];
    }
  }

  lemma {:induction false} FiledIsSorted(rows: seq<Row>, officeId: string)
    requires Sorted(rows)
    ensures Sorted(Filed(rows, officeId))
  {
    if rows != [] {
      var n := |rows| - 1;
      FiledIsSorted(rows[..n], officeId);
      var front := Filed(rows[..n], officeId);
      FiledMembers(rows[..n], officeId);
      forall i | 0 <= i < |front| ensures front[i].id < rows[n].id {
        assert front[i] in rows[..n];
      }
    }
  }

  lemma FiledOneMore(rows: seq<Row>, row: Row, officeId: string)
    ensures Filed(rows + [row], officeId)
         == if row.officeId == officeId then Filed(rows, officeId) + [row] else Filed(rows, officeId)
  {
    assert (rows + [row])[..|rows|] == rows;
  }

  lemma PutBefore(rows: seq<Row>, last: Row, row: Row)
    requires IdAfter(last, row)
    ensures Put(rows + [last], row) == Put(rows, row) + [last]
  {
    assert (rows + [last])[..|rows|] == rows;
  }

  lemma PutLast(rows: seq<Row>, row: Row)
    requires forall r :: r in rows ==> !IdAfter(r, row)
    ensures Put(rows, row) == rows + [row]
  {
    assert rows != [] ==> rows[|rows| - 1] in rows;
  }

  /** A stored row is filed in its place among its office's, and is nothing to any other office. */
  ghost predicate FiledInPlace(rows: seq<Row>, row: Row, officeId: string) {
    Filed(Put(rows, row), officeId)
      == if row.officeId == officeId then Put(Filed(rows, officeId), row) else Filed(rows, officeId)
  }

  lemma FiledLast(rows: seq<Row>, row: Row, officeId: string)
    requires forall r :: r in rows ==> !IdAfter(r, row)
    ensures FiledInPlace(rows, row, officeId)
  {
    PutLast(rows, row);
    FiledOneMore(rows, row, officeId);
    FiledMembers(rows, officeId);
    PutLast(Filed(rows, officeId), row);
  }

  lemma FiledFurtherOn(init: seq<Row>, last: Row, row: Row, officeId: string)
    requires IdAfter(last, row) && FiledInPlace(init, row, officeId)
    ensures FiledInPlace(init + [last], row, officeId)
  {
    PutBefore(init, last, row);
    FiledOneMore(Put(init, row), last, officeId);
    FiledOneMore(init, last, officeId);
    PutBefore(Filed(init, officeId), last, row);
  }

  lemma {:induction false} FiledAfterPut(rows: seq<Row>, row: Row, officeId: string)
    requires Sorted(rows)
    ensures FiledInPlace(rows, row, officeId)
  {
    if rows != [] && IdAfter(rows[|rows| - 1], row) {
      var init, last := rows[..|rows| - 1], rows[|rows| - 1];
      assert rows == init + [last];
      FiledAfterPut(init, row, officeId);
      FiledFurtherOn(init, last, row, officeId);
    } else {
      NoneIsAfter(rows, row);
      FiledLast(rows, row, officeId);
    }
  }

  lemma NoneIsAfter(rows: seq<Row>, row: Row)
    requires Sorted(rows) && (rows != [] ==> !IdAfter(rows[|rows| - 1], row))
    ensures forall r :: r in rows ==> !IdAfter(r, row)
  {
    forall r | r in rows ensures !IdAfter(r, row) {
      var i :| 0 <= i < |rows| && rows[i] == r;
    }
  }

  lemma PutKeepsSorted(rows: seq<Row>, row: Row)
    requires Sorted(rows) && Fresh(rows, row)
    ensures Sorted(Put(rows, row)) && multiset(Put(rows, row)) == multiset(rows) + multiset{row}
  {
    IdAfterIsOrdering();
    InsertOrders(IdAfter, rows, row);
    InsertAdds(IdAfter, rows, row);
    PutIsDistinct(rows, row);
  }

  lemma {:induction false} PutIsDistinct(rows: seq<Row>, row: Row)
    requires Sorted(rows) && Fresh(rows, row)
    ensures forall i, j :: 0 <= i < j < |Put(rows, row)| ==> Put(rows, row)[i].id != Put(rows, row)[j].id
  {
    var n := |rows| - 1;
    if rows != [] && IdAfter(rows[n], row) {
      PutIsDistinct(rows[..n], row);
      InsertAdds(IdAfter, rows[..n], row);
      var front := Put(rows[..n], row);
      forall i | 0 <= i < |front| ensures front[i].id != rows[n].id {
        assert front[i] in multiset(front);
        assert front[i] in rows[..n] || front[i] == row;
      }
    }
  }

  /** How many of an office's rows there are. */
  function Count(rows: seq<Row>, officeId: string): nat {
    |Filed(rows, officeId)|
  }

  lemma CountAfterPut(rows: seq<Row>, row: Row, officeId: string)
    requires Sorted(rows)
    ensures Count(Put(rows, row), officeId) == Count(rows, officeId) + if row.officeId == officeId then 1 else 0
  {
    FiledAfterPut(rows, row, officeId);
    if row.officeId == officeId {
      var filed := Filed(rows, officeId);
      InsertAdds(IdAfter, filed, row);
    }
  }

  /** Whether a row of an office with a full page comes after everything on it. */
  predicate PastThePage(rows: seq<Row>, row: Row) {
    var filed := Filed(rows, row.officeId);
    |filed| >= PAGE_SIZE && filed[PAGE_SIZE - 1].id <= row.id
  }

  /** The row that a row before the end of a full page pushes off it. */
  function PushedOff(rows: seq<Row>, officeId: string): Row
    requires Count(rows, officeId) >= PAGE_SIZE
  {
    Filed(rows, officeId)[PAGE_SIZE - 1]
  }

  /**
   * What a record does to the spending the server counts: its own cost is added, unless it is past
   * the page and never counted; and on a full page the row it pushes off is counted no longer.
   */
  lemma SpentAfterPut(office: Office, rows: seq<Row>, row: Row, since: int, level: Level)
    requires Sorted(rows)
    ensures var before := Spent(office, rows, since, level);
      var own := CostAt(office, since, level, row);
      Spent(office, Put(rows, row), since, level) ==
        if row.officeId != office.id || PastThePage(rows, row) then before
        else if Count(rows, office.id) < PAGE_SIZE then before + own
        else before + own - CostAt(office, since, level, PushedOff(rows, office.id))
  {
    ReadAfterPut(rows, row, office.id);
    if row.officeId == office.id && !PastThePage(rows, row) {
      if Count(rows, office.id) < PAGE_SIZE {
        TotalAfterInsert(office, Read(rows, office.id), row, since, level);
      } else {
        var filed := Filed(rows, office.id);
        TotalAfterInsert(office, filed[..PAGE_SIZE - 1], row, since, level);
        LastOfThePage(office, filed, since, level);
      }
    }
  }

  lemma LastOfThePage(office: Office, filed: seq<Row>, since: int, level: Level)
    requires |filed| >= PAGE_SIZE
    ensures Total(office, FirstPage(filed), since, level)
         == Total(office, filed[..PAGE_SIZE - 1], since, level) + CostAt(office, since, level, filed[PAGE_SIZE - 1])
  {
    assert FirstPage(filed) == filed[..PAGE_SIZE];
    assert filed[..PAGE_SIZE][..PAGE_SIZE - 1] == filed[..PAGE_SIZE - 1];
  }

  lemma ReadAfterPut(rows: seq<Row>, row: Row, officeId: string)
    requires Sorted(rows)
    ensures Read(Put(rows, row), officeId) ==
      if row.officeId != officeId || PastThePage(rows, row) then Read(rows, officeId)
      else if Count(rows, officeId) < PAGE_SIZE then Put(Read(rows, officeId), row)
      else Put(Filed(rows, officeId)[..PAGE_SIZE - 1], row)
  {
    FiledAfterPut(rows, row, officeId);
    if row.officeId == officeId {
      IdAfterIsOrdering();
      FiledIsSorted(rows, officeId);
      PageAfterInsert(IdAfter, Filed(rows, officeId), row);
    }
  }

  /** An id below every id in use. */
  function NextId(rows: seq<Row>): int {
    if rows == [] then 0 else rows[0].id - 1
  }

  /**
   * Some record of no negative cost makes a level seem to have spent less, if and only if at least a
   * page of rows is filed under the office and the last on the page costs the level something.
   */
  lemma SpendingCanSeemToFall(office: Office, rows: seq<Row>, since: int, level: Level)
    requires Sorted(rows)
    ensures (exists row :: Fresh(rows, row) && NoRefund(row)
                           && Spent(office, Put(rows, row), since, level) < Spent(office, rows, since, level))
       <==> Count(rows, office.id) >= PAGE_SIZE && CostAt(office, since, level, PushedOff(rows, office.id)) > 0.0
  {
    forall row | NoRefund(row) && Spent(office, Put(rows, row), since, level) < Spent(office, rows, since, level)
      ensures Count(rows, office.id) >= PAGE_SIZE && CostAt(office, since, level, PushedOff(rows, office.id)) > 0.0
    {
      SpentAfterPut(office, rows, row, since, level);
    }
    if Count(rows, office.id) >= PAGE_SIZE && CostAt(office, since, level, PushedOff(rows, office.id)) > 0.0 {
      var row := Row(NextId(rows), office.id, None, 0, None);
      FiledMembers(rows, office.id);
      assert PushedOff(rows, office.id) in Filed(rows, office.id);
      SpentAfterPut(office, rows, row, since, level);
      assert Fresh(rows, row) && NoRefund(row);
    }
  }

  predicate NoRefund(row: Row) {
    row.cost.Some? ==> row.cost.value >= 0.0
  }

  /** Past the page nothing is counted: such a record changes how no level of any office stands. */
  lemma PastThePageNothingCounts(office: Office, rows: seq<Row>, row: Row, level: Level)
    requires Sorted(rows) && PastThePage(rows, row)
    ensures StandingOf(office, Put(rows, row), level) == StandingOf(office, rows, level)
  {
    var budget := BudgetOf(office, level);
    if budget.Some? {
      SpentAfterPut(office, rows, row, Since(office, budget.value.period), level);
    }
  }

  /**
   * A record changes how a level of an office stands only if it is filed under that office, and,
   * while the office's rows fit a page, only if the level is the office itself or the room or person
   * the record names.
   */
  lemma OthersStand(office: Office, before: seq<Row>, row: Row, level: Level)
    requires Sorted(before) && OwnIds(office.employees)
    requires row.officeId != office.id
          || (Count(before, office.id) < PAGE_SIZE && level !in LevelsFor(office, row.employeeId))
    ensures StandingOf(office, Put(before, row), level) == StandingOf(office, before, level)
  {
    var budget := BudgetOf(office, level);
    if budget.Some? {
      if row.officeId == office.id {
        NotCompared(office, row, level);
      }
      SpentAfterPut(office, before, row, Since(office, budget.value.period), level);
    }
  }

  lemma {:induction false} EmployeeOfIs(employees: seq<Employee>, id: string)
    ensures EmployeeOf(employees, id).Some? ==> EmployeeOf(employees, id).value in employees
    ensures EmployeeOf(employees, id).None? ==> forall e :: e in employees ==> e.id != id
  {
    if employees != [] {
      EmployeeOfIs(employees[1..], id);
    }
  }

  lemma {:induction false} StaffMembers(employees: seq<Employee>, departmentId: string)
    ensures forall e :: e in Staff(employees, departmentId) <==> e in employees && e.departmentId == departmentId
  {
    if employees != [] {
      var n := |employees| - 1;
      StaffMembers(employees[..n], departmentId);
      assert forall e :: e in employees <==> e in employees[..n] || e == employees[n];
    }
  }

  /** Who a room pays for is somebody of the store who works in it. */
  lemma PaidByTheRoom(office: Office, departmentId: string, id: string)
    requires OwnIds(office.employees) && Pays(office, DepartmentLevel(departmentId), Some(id))
    ensures EmployeeOf(office.employees, id).Some?
         && EmployeeOf(office.employees, id).value.departmentId == departmentId
  {
    var page := FirstPage(Staff(office.employees, departmentId));
    EmployeeOfIs(page, id);
    StaffMembers(office.employees, departmentId);
    EmployeeOfIs(office.employees, id);
    var e := EmployeeOf(page, id).value;
    assert e in Staff(office.employees, departmentId);
  }

  /**
   * The office pays for every call, a person for their own, and a room for those of the people on the first page of
   * its staff and of nobody past it.
   */
  lemma WhoPays(office: Office, level: Level, employeeId: Option<string>)
    ensures Pays(office, level, employeeId) <==>
      match level
      case OfficeLevel => true
      case DepartmentLevel(id) =>
        exists e :: e in FirstPage(Staff(office.employees, id)) && employeeId == Some(e.id)
      case EmployeeLevel(id) => employeeId == Some(id)
  {
    if level.DepartmentLevel? && employeeId.Some? {
      EmployeeOfIs(FirstPage(Staff(office.employees, level.id)), employeeId.value);
    }
  }

  /** A call concerns the office, the person it names if the store knows them, and the room they work in. */
  lemma WhoIsCompared(office: Office, employeeId: Option<string>, level: Level)
    ensures level in LevelsFor(office, employeeId) ==>
      match level
      case OfficeLevel => true
      case DepartmentLevel(id) => exists e :: e in office.employees && employeeId == Some(e.id) && e.departmentId == id
      case EmployeeLevel(id) => employeeId == Some(id) && exists e :: e in office.employees && e.id == id
    ensures OfficeLevel in LevelsFor(office, employeeId)
    ensures OwnIds(office.employees) ==> forall e :: e in office.employees && employeeId == Some(e.id) ==>
      DepartmentLevel(e.departmentId) in LevelsFor(office, employeeId)
      && EmployeeLevel(e.id) in LevelsFor(office, employeeId)
  {
    var levels := LevelsFor(office, employeeId);
    assert levels[0] == OfficeLevel;
    if employeeId.Some? {
      EmployeeOfIs(office.employees, employeeId.value);
      if EmployeeOf(office.employees, employeeId.value).Some? {
        var employee := EmployeeOf(office.employees, employeeId.value).value;
        assert levels[1] == DepartmentLevel(employee.departmentId) && levels[2] == EmployeeLevel(employee.id);
      }
    }
  }

  // ---- What a stand says -----------------------------------------------------------

  /** The calls made since then that a level pays for. */
  function Counted(office: Office, level: Level, since: int): Row -> bool {
    (row: Row) => row.at >= since && Pays(office, level, row.employeeId)
  }

  /** What rows cost in all; one whose cost is not known costs nothing. */
  function Costs(rows: seq<Row>): real {
    if rows == [] then 0.0
    else Costs(rows[..|rows| - 1]) + match rows[|rows| - 1].cost { case None => 0.0 case Some(usd) => usd }
  }

  lemma {:induction false} TotalIsCosts(office: Office, rows: seq<Row>, since: int, level: Level)
    ensures Total(office, rows, since, level) == Costs(Picked(rows, Counted(office, level, since)))
  {
    if rows != [] {
      var before, row := rows[..|rows| - 1], rows[|rows| - 1];
      TotalIsCosts(office, before, since, level);
      var counted := Picked(before, Counted(office, level, since));
      assert (counted + [row])[..|counted|] == counted;
    }
  }

  /**
   * A level with a budget stands by what the calls on the office's page cost it since the budget's current day or
   * month began, and its stand says so beside the limit.
   */
  lemma StandSays(office: Office, rows: seq<Row>, level: Level)
    requires BudgetOf(office, level).Some?
    ensures var budget, stand := BudgetOf(office, level).value, StandOf(office, rows, level);
      var start := if budget.period.Day? then office.dayStart else office.monthStart;
      var spent := Costs(Picked(FirstPage(Filed(rows, office.id)), Counted(office, level, start)));
      && stand.level == level && stand.spentUsd == spent && stand.limitUsd == budget.limitUsd
      && stand.standing == StandingOf(office, rows, level)
      && (stand.standing == Over <==> spent >= budget.limitUsd)
      && (stand.standing == Warn <==>
            budget.warnAtUsd.Some? && spent >= budget.warnAtUsd.value && spent < budget.limitUsd)
  {
    var budget := BudgetOf(office, level).value;
    var start := if budget.period.Day? then office.dayStart else office.monthStart;
    TotalIsCosts(office, Read(rows, office.id), start, level);
  }

  /** A level's budget is the office's own, the room's, or the person's. */
  lemma BudgetsAre(office: Office, level: Level, budget: Budget)
    requires OwnIds(office.employees)
    ensures BudgetOf(office, level) == Some(budget) <==>
      match level
      case OfficeLevel => office.budget == Some(budget)
      case DepartmentLevel(id) => id in office.departments && office.departments[id] == Some(budget)
      case EmployeeLevel(id) => exists e :: e in office.employees && e.id == id && e.budget == Some(budget)
  {
    if level.EmployeeLevel? {
      EmployeeOfIs(office.employees, level.id);
    }
  }

  lemma NotCompared(office: Office, row: Row, level: Level)
    requires OwnIds(office.employees)
    requires BudgetOf(office, level).Some? && level !in LevelsFor(office, row.employeeId)
    ensures !Pays(office, level, row.employeeId)
  {
    var levels := LevelsFor(office, row.employeeId);
    assert levels[0] == OfficeLevel;
    if row.employeeId.Some? && EmployeeOf(office.employees, row.employeeId.value).Some? {
      var employee := EmployeeOf(office.employees, row.employeeId.value).value;
      assert levels[1] == DepartmentLevel(employee.departmentId) && levels[2] == EmployeeLevel(employee.id);
    }
    if level.DepartmentLevel? && row.employeeId.Some? && Pays(office, level, row.employeeId) {
      PaidByTheRoom(office, level.id, row.employeeId.value);
    }
  }
}
