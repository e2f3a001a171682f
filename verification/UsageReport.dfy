/** The spend report: groups, totals and rankings of metered calls, over exact arithmetic. */
module UsageReport {
  import opened Shared
  import opened Sorting

  datatype SpendRow = SpendRow(name: string, detail: Option<string>, usd: real, calls: int, unpricedCalls: int)

  /** A metered call, with what can be read out of its event. */
  datatype Usage = Usage(
    employeeId: Option<string>, taskId: Option<string>, at: int, model: Option<string>, cost: Option<real>, ms: int)

  datatype Person = Person(name: string, departmentId: string, model: string)

  datatype Task = Task(title: string, done: bool)

  datatype Filter = Filter(departmentId: Option<string>, since: Option<int>)

  datatype Input = Input(
    departments: map<string, string>, people: map<string, Person>, tasks: map<string, Task>,
    usage: seq<Usage>, filter: Filter)

  datatype Line = Line(at: int, who: string, model: string, taskTitle: string, usd: Option<real>, ms: int)

  datatype Report = Report(
    totalUsd: real, calls: int, unpricedCalls: int, completedTasks: nat, usdPerCompletedTask: Option<real>,
    byEmployee: seq<SpendRow>, byDepartment: seq<SpendRow>, byModel: seq<SpendRow>, lines: seq<Line>)

  const GONE := "Someone who has left"
  const NO_MODEL := "\U{2014}"

  // ---- Sums -------------------------------------------------------------------------

  datatype Sums = Sums(usd: real, calls: int, unpriced: int)

  const ZERO := Sums(0.0, 0, 0)

  function Plus(a: Sums, b: Sums): Sums { Sums(a.usd + b.usd, a.calls + b.calls, a.unpriced + b.unpriced) }

  function OfCall(cost: Option<real>): Sums {
    if cost.None? then Sums(0.0, 1, 1) else Sums(cost.value, 1, 0)
  }

  /** The three ways calls are grouped. */
  datatype Grouping = ByEmployee | ByDepartment | ByModel

  function PersonOf(input: Input, u: Usage): Option<Person> {
    if u.employeeId.Some? && u.employeeId.value in input.people then Some(input.people[u.employeeId.value]) else None
  }

  function ModelOf(u: Usage): string { if u.model.Some? then u.model.value else NO_MODEL }

  /** The group a call belongs to; a department is reached through the person. */
  function GroupOf(input: Input, g: Grouping, u: Usage): Option<string> {
    match g
    case ByEmployee => u.employeeId
    case ByDepartment =>
      (match PersonOf(input, u)
       case None => None
       case Some(person) => Some(person.departmentId))
    case ByModel => Some(ModelOf(u))
  }

  /** What a group is called, and something to say beside it. */
  function Naming(input: Input, g: Grouping, key: string): (string, Option<string>) {
    match g
    case ByEmployee =>
      if key in input.people then (input.people[key].name, Some(input.people[key].model)) else (GONE, None)
    case ByDepartment => (if key in input.departments then input.departments[key] else GONE, None)
    case ByModel => (key, None)
  }

  /** What a call adds to the sum of a group. */
  function ShareOf(input: Input, g: Grouping, u: Usage, key: Option<string>): Sums {
    if GroupOf(input, g, u) == key then OfCall(u.cost) else ZERO
  }

  /** What the calls of one group come to. */
  function SumOf(input: Input, g: Grouping, rows: seq<Usage>, key: Option<string>): Sums {
    if rows == [] then ZERO
    else
      Plus(SumOf(input, g, rows[..|rows| - 1], key), ShareOf(input, g, rows[|rows| - 1], key))
  }

  /** What all the calls come to. */
  function SumAll(rows: seq<Usage>): Sums {
    if rows == [] then ZERO else Plus(SumAll(rows[..|rows| - 1]), OfCall(rows[|rows| - 1].cost))
  }

  /** The calls of a group: those that name the person, whose person works in the department, or made with the model. */
  function Belonging(input: Input, g: Grouping, key: string): Usage -> bool {
    match g
    case ByEmployee => (u: Usage) => u.employeeId == Some(key)
    case ByDepartment => (u: Usage) =>
      u.employeeId.Some? && u.employeeId.value in input.people && input.people[u.employeeId.value].departmentId == key
    case ByModel => (u: Usage) => u.model == Some(key) || (u.model.None? && key == "\U{2014}")
  }

  lemma BelongingIsGroup(input: Input, g: Grouping, u: Usage, key: string)
    ensures Belonging(input, g, key)(u) <==> GroupOf(input, g, u) == Some(key)
  {
  }

  /** A group's sum is what exactly its own calls come to. */
  lemma {:induction false} GroupsAreTheirCalls(input: Input, g: Grouping, rows: seq<Usage>, key: string)
    ensures SumOf(input, g, rows, Some(key)) == SumAll(Picked(rows, Belonging(input, g, key)))
  {
    if rows != [] {
      var before, u := rows[..|rows| - 1], rows[|rows| - 1];
      GroupsAreTheirCalls(input, g, before, key);
      BelongingIsGroup(input, g, u, key);
      SumOneMore(Picked(before, Belonging(input, g, key)), u);
      PlusZero(SumOf(input, g, before, Some(key)));
    }
  }

  lemma SumOneMore(rows: seq<Usage>, u: Usage)
    ensures SumAll(rows + [u]) == Plus(SumAll(rows), OfCall(u.cost))
  {
    assert (rows + [u])[..|rows|] == rows;
  }

  function SumsIn(row: SpendRow): Sums { Sums(row.usd, row.calls, row.unpricedCalls) }

  function SumRows(rows: seq<SpendRow>): Sums {
    if rows == [] then ZERO else Plus(SumRows(rows[..|rows| - 1]), SumsIn(rows[|rows| - 1]))
  }

  // ---- Running totals, kept in the order their keys were first met --------------------

  type Totals = seq<(string, SpendRow)>

  function PlaceOf(totals: Totals, key: string): (i: nat)
    ensures i <= |totals|
    ensures i < |totals| ==> totals[i].0 == key
    ensures forall j :: 0 <= j < i ==> totals[j].0 != key
  {
    if totals == [] then 0
    else
      var n := |totals| - 1;
      var i := PlaceOf(totals[..n], key);
      if i < n then i else if totals[n].0 == key then n else n + 1
  }

  function Increased(row: SpendRow, usd: Option<real>): SpendRow {
    row.(usd := row.usd + (if usd.Some? then usd.value else 0.0),
         calls := row.calls + 1,
         unpricedCalls := row.unpricedCalls + if usd.None? then 1 else 0)
  }

  function Add(totals: Totals, key: string, name: string, detail: Option<string>, usd: Option<real>): Totals {
    var i := PlaceOf(totals, key);
    if i < |totals| then totals[i := (key, Increased(totals[i].1, usd))]
    else totals + [(key, Increased(SpendRow(name, detail, 0.0, 0, 0), usd))]
  }

  function Values(totals: Totals): (r: seq<SpendRow>)
    ensures |r| == |totals| && forall i :: 0 <= i < |r| ==> r[i] == totals[i].1
  {
    seq(|totals|, i requires 0 <= i < |totals| => totals[i].1)
  }

  /** The row a key has, if any. */
  function RowFor(totals: Totals, key: string): Option<SpendRow> {
    var i := PlaceOf(totals, key);
    if i < |totals| then Some(totals[i].1) else None
  }

  lemma AddMovesOneRow(
    totals: Totals, k: string, name: string, detail: Option<string>, usd: Option<real>, key: string)
    ensures RowFor(Add(totals, k, name, detail, usd), key) ==
      if key != k then RowFor(totals, key)
      else
        match RowFor(totals, k)
        case Some(row) => Some(Increased(row, usd))
        case None => Some(Increased(SpendRow(name, detail, 0.0, 0, 0), usd))
  {
    var t := Add(totals, k, name, detail, usd);
    var i, i' := PlaceOf(totals, key), PlaceOf(t, key);
    if PlaceOf(totals, k) < |totals| {
      SameKeysSamePlace(totals, t, key);
    } else {
      AppendedPlace(totals, t[|totals|], key);
    }
  }

  lemma SameKeysSamePlace(a: Totals, b: Totals, key: string)
    requires |a| == |b| && forall i :: 0 <= i < |a| ==> a[i].0 == b[i].0
    ensures PlaceOf(a, key) == PlaceOf(b, key)
  {
  }

  lemma AppendedPlace(totals: Totals, entry: (string, SpendRow), key: string)
    ensures PlaceOf(totals + [entry], key) ==
      if PlaceOf(totals, key) < |totals| then PlaceOf(totals, key)
      else if entry.0 == key then |totals| else |totals| + 1
  {
  }

  function AddCall(input: Input, g: Grouping, totals: Totals, u: Usage): Totals {
    match GroupOf(input, g, u)
    case None => totals
    case Some(key) => Add(totals, key, Naming(input, g, key).0, Naming(input, g, key).1, u.cost)
  }

  function Tally(input: Input, g: Grouping, rows: seq<Usage>): Totals {
    if rows == [] then [] else AddCall(input, g, Tally(input, g, rows[..|rows| - 1]), rows[|rows| - 1])
  }

  /** The row of a key holds this sum, under the group's name; no row means no calls. */
  ghost predicate HoldsSum(input: Input, g: Grouping, totals: Totals, key: string, sum: Sums) {
    HoldsIn(RowFor(totals, key), Naming(input, g, key), sum)
  }

  predicate HoldsIn(row: Option<SpendRow>, called: (string, Option<string>), sum: Sums) {
    match row
    case None => sum == ZERO
    case Some(row) => SumsIn(row) == sum && row.calls > 0 && (row.name, row.detail) == called
  }

  lemma IncreasedHolds(row: Option<SpendRow>, called: (string, Option<string>), sum: Sums, cost: Option<real>)
    requires HoldsIn(row, called, sum)
    ensures var base := if row.Some? then row.value else SpendRow(called.0, called.1, 0.0, 0, 0);
      HoldsIn(Some(Increased(base, cost)), called, Plus(sum, OfCall(cost)))
  {
  }

  /** A call changes the row of its own group and no other. */
  lemma RowAfterCall(input: Input, g: Grouping, totals: Totals, u: Usage, key: string)
    ensures GroupOf(input, g, u) != Some(key) ==> RowFor(AddCall(input, g, totals, u), key) == RowFor(totals, key)
    ensures GroupOf(input, g, u) == Some(key) ==>
      var called, row := Naming(input, g, key), RowFor(totals, key);
      var base := if row.Some? then row.value else SpendRow(called.0, called.1, 0.0, 0, 0);
      RowFor(AddCall(input, g, totals, u), key) == Some(Increased(base, u.cost))
  {
    if GroupOf(input, g, u).Some? {
      var k := GroupOf(input, g, u).value;
      AddMovesOneRow(totals, k, Naming(input, g, k).0, Naming(input, g, k).1, u.cost, key);
    }
  }

  lemma AddCallHolds(input: Input, g: Grouping, totals: Totals, u: Usage, key: string, sum: Sums)
    requires HoldsSum(input, g, totals, key, sum)
    ensures HoldsSum(input, g, AddCall(input, g, totals, u), key, Plus(sum, ShareOf(input, g, u, Some(key))))
  {
    RowAfterCall(input, g, totals, u, key);
    if GroupOf(input, g, u) == Some(key) {
      IncreasedHolds(RowFor(totals, key), Naming(input, g, key), sum, u.cost);
    } else {
      PlusZero(sum);
    }
  }

  lemma PlusZero(a: Sums)
    ensures Plus(a, ZERO) == a
  {
  }

  lemma {:induction false} TallyHolds(input: Input, g: Grouping, rows: seq<Usage>, key: string)
    ensures HoldsSum(input, g, Tally(input, g, rows), key, SumOf(input, g, rows, Some(key)))
  {
    if rows != [] {
      var before, u := rows[..|rows| - 1], rows[|rows| - 1];
      TallyHolds(input, g, before, key);
      AddCallHolds(input, g, Tally(input, g, before), u, key, SumOf(input, g, before, Some(key)));
    }
  }

  /**
   * A group has a row exactly when it has calls, and the row holds what they come to: a person under their name with
   * their model, a department under its name, a model as it is called, and whoever has gone as such.
   */
  lemma TallyHoldsItsGroups(input: Input, g: Grouping, rows: seq<Usage>, key: string)
    ensures var sum := SumAll(Picked(rows, Belonging(input, g, key)));
      match RowFor(Tally(input, g, rows), key)
      case None => sum == ZERO
      case Some(row) =>
        && SumsIn(row) == sum && row.calls > 0
        && (g.ByEmployee? && key in input.people ==>
              row.name == input.people[key].name && row.detail == Some(input.people[key].model))
        && (g.ByDepartment? && key in input.departments ==> row.name == input.departments[key])
        && ((g.ByEmployee? && key !in input.people) || (g.ByDepartment? && key !in input.departments) ==>
              row.name == "Someone who has left")
        && (g.ByModel? ==> row.name == key)
        && (row.detail.Some? ==> g.ByEmployee? && key in input.people)
  {
    TallyHolds(input, g, rows, key);
    GroupsAreTheirCalls(input, g, rows, key);
  }

  lemma {:induction false} SumAfterUpdate(rows: seq<SpendRow>, i: nat, row: SpendRow, more: Sums)
    requires i < |rows| && SumsIn(row) == Plus(SumsIn(rows[i]), more)
    ensures SumRows(rows[i := row]) == Plus(SumRows(rows), more)
  {
    var n := |rows| - 1;
    if i < n {
      SumAfterUpdate(rows[..n], i, row, more);
      assert rows[i := row][..n] == rows[..n][i := row];
    } else {
      assert rows[i := row][..n] == rows[..n];
    }
  }

  /** What the rows of a tally come to. */
  function SumTotals(totals: Totals): Sums {
    SumRows(Values(totals))
  }

  lemma AddConserves(totals: Totals, key: string, name: string, detail: Option<string>, usd: Option<real>)
    ensures SumTotals(Add(totals, key, name, detail, usd)) == Plus(SumTotals(totals), OfCall(usd))
  {
    var i := PlaceOf(totals, key);
    var t := Add(totals, key, name, detail, usd);
    if i < |totals| {
      assert Values(t) == Values(totals)[i := Increased(totals[i].1, usd)];
      SumAfterUpdate(Values(totals), i, Increased(totals[i].1, usd), OfCall(usd));
    } else {
      assert Values(t)[..|totals|] == Values(totals);
    }
  }

  /** The rows of a tally and the calls it could not attribute come to everything. */
  lemma {:induction false} TallyConserves(input: Input, g: Grouping, rows: seq<Usage>)
    ensures Plus(SumTotals(Tally(input, g, rows)), SumOf(input, g, rows, None)) == SumAll(rows)
  {
    if rows == [] {
      assert Values([]) == [];
    } else {
      var before, u := rows[..|rows| - 1], rows[|rows| - 1];
      TallyConserves(input, g, before);
      ConservesOneMore(input, g, Tally(input, g, before), u, SumOf(input, g, before, None), SumAll(before));
    }
  }

  lemma ConservesOneMore(input: Input, g: Grouping, totals: Totals, u: Usage, loose: Sums, all: Sums)
    requires Plus(SumTotals(totals), loose) == all
    ensures Plus(SumTotals(AddCall(input, g, totals, u)), Plus(loose, ShareOf(input, g, u, None)))
         == Plus(all, OfCall(u.cost))
  {
    AddCallConserves(input, g, totals, u);
    PlusShares(SumTotals(totals), loose, OfCall(u.cost));
    assert ShareOf(input, g, u, None) == if GroupOf(input, g, u).Some? then ZERO else OfCall(u.cost);
  }

  lemma PlusShares(a: Sums, b: Sums, x: Sums)
    ensures Plus(Plus(a, x), Plus(b, ZERO)) == Plus(Plus(a, b), x)
    ensures Plus(Plus(a, ZERO), Plus(b, x)) == Plus(Plus(a, b), x)
  {
  }

  lemma AddCallConserves(input: Input, g: Grouping, totals: Totals, u: Usage)
    ensures SumTotals(AddCall(input, g, totals, u))
         == Plus(SumTotals(totals), if GroupOf(input, g, u).Some? then OfCall(u.cost) else ZERO)
  {
    match GroupOf(input, g, u)
    case None => PlusZero(SumTotals(totals));
    case Some(key) => AddConserves(totals, key, Naming(input, g, key).0, Naming(input, g, key).1, u.cost);
  }

  // ---- Ranking ------------------------------------------------------------------------

  predicate SpendsLess(a: SpendRow, b: SpendRow) { a.usd < b.usd }

  /** Biggest first. */
  function Ranked(totals: Totals): seq<SpendRow> {
    Sort(SpendsLess, Values(totals))
  }

  lemma {:induction false} SumAfterInsert(rows: seq<SpendRow>, row: SpendRow)
    ensures SumRows(Insert(SpendsLess, rows, row)) == Plus(SumRows(rows), SumsIn(row))
  {
    var n := |rows| - 1;
    if rows == [] || !SpendsLess(rows[n], row) {
      assert (rows + [row])[..|rows|] == rows;
    } else {
      SumAfterInsert(rows[..n], row);
      var front := Insert(SpendsLess, rows[..n], row);
      assert (front + [rows[n]])[..|front|] == front;
    }
  }

  lemma {:induction false} SortConserves(rows: seq<SpendRow>)
    ensures SumRows(Sort(SpendsLess, rows)) == SumRows(rows)
  {
    if rows != [] {
      SortConserves(rows[..|rows| - 1]);
      SumAfterInsert(Sort(SpendsLess, rows[..|rows| - 1]), rows[|rows| - 1]);
    }
  }

  /** Rows of one amount. */
  function Of(usd: real): SpendRow -> bool { (row: SpendRow) => row.usd == usd }

  /** A ranking lists its groups once each, the most expensive first and ties in the order they were first met. */
  lemma RankingIsDescending(totals: Totals, usd: real)
    ensures multiset(Ranked(totals)) == multiset(Values(totals))
    ensures forall i, j :: 0 <= i < j < |Ranked(totals)| ==> Ranked(totals)[i].usd >= Ranked(totals)[j].usd
    ensures Picked(Ranked(totals), Of(usd)) == Picked(Values(totals), Of(usd))
  {
    SortOrders(SpendsLess, Values(totals));
    SortIsStable(SpendsLess, Values(totals), Of(usd));
  }

  // ---- The report -----------------------------------------------------------------------

  predicate Kept(input: Input, u: Usage) {
    (input.filter.since.None? || u.at >= input.filter.since.value) &&
    (input.filter.departmentId.None? || GroupOf(input, ByDepartment, u) == input.filter.departmentId)
  }

  function Filtered(input: Input, usage: seq<Usage>): (r: seq<Usage>)
    ensures forall u :: u in r <==> u in usage && Kept(input, u)
  {
    if usage == [] then []
    else
      var n := |usage| - 1;
      assert forall u :: u in usage <==> u in usage[..n] || u == usage[n];
      Filtered(input, usage[..n]) + if Kept(input, usage[n]) then [usage[n]] else []
  }

  /**
   * The filter leaves exactly the calls made at or after the moment it names, if any, by the people of the department
   * it names, if any, as often as each is there.
   */
  lemma {:induction false} FilterLeaves(input: Input, usage: seq<Usage>, u: Usage)
    ensures multiset(Filtered(input, usage))[u] ==
      if (input.filter.since.Some? && u.at < input.filter.since.value) ||
         (input.filter.departmentId.Some? && !Belonging(input, ByDepartment, input.filter.departmentId.value)(u))
      then 0 else multiset(usage)[u]
  {
    if usage != [] {
      var before, last := usage[..|usage| - 1], usage[|usage| - 1];
      FilterLeaves(input, before, u);
      FilteredOneMore(input, usage);
      CountOneMore(before, last, u);
      CountOneMore(Filtered(input, before), last, u);
      assert usage == before + [last];
      if last == u && input.filter.departmentId.Some? {
        BelongingIsGroup(input, ByDepartment, u, input.filter.departmentId.value);
      }
    }
  }

  lemma CountOneMore(rows: seq<Usage>, last: Usage, u: Usage)
    ensures multiset(rows + [last])[u] == multiset(rows)[u] + if last == u then 1 else 0
  {
  }

  function LineOf(input: Input, u: Usage): Line {
    Line(u.at,
      if u.employeeId.None? then "Nobody in particular"
      else if PersonOf(input, u).Some? then PersonOf(input, u).value.name else GONE,
      ModelOf(u),
      if u.taskId.Some? && u.taskId.value in input.tasks then input.tasks[u.taskId.value].title else "",
      u.cost, u.ms)
  }

  function LinesOf(input: Input, rows: seq<Usage>): (r: seq<Line>)
    ensures |r| == |rows|
  {
    if rows == [] then [] else LinesOf(input, rows[..|rows| - 1]) + [LineOf(input, rows[|rows| - 1])]
  }

  /** What stands on the line of each call. */
  lemma {:induction false} LinesSay(input: Input, rows: seq<Usage>, i: nat)
    requires i < |rows|
    ensures var line, u := LinesOf(input, rows)[i], rows[i];
      && line.at == u.at && line.usd == u.cost && line.ms == u.ms
      && (u.employeeId.None? ==> line.who == "Nobody in particular")
      && (u.employeeId.Some? && u.employeeId.value in input.people ==>
            line.who == input.people[u.employeeId.value].name)
      && (u.employeeId.Some? && u.employeeId.value !in input.people ==> line.who == "Someone who has left")
      && line.model == (if u.model.Some? then u.model.value else "\U{2014}")
      && line.taskTitle ==
           (if u.taskId.Some? && u.taskId.value in input.tasks then input.tasks[u.taskId.value].title else "")
  {
    if i < |rows| - 1 {
      LinesSay(input, rows[..|rows| - 1], i);
    }
  }

  predicate IsFinished(input: Input, u: Usage) {
    u.taskId.Some? && u.taskId.value in input.tasks && input.tasks[u.taskId.value].done
  }

  function FinishedTasks(input: Input, rows: seq<Usage>): set<string> {
    if rows == [] then {}
    else
      var last := rows[|rows| - 1];
      FinishedTasks(input, rows[..|rows| - 1]) + if IsFinished(input, last) then {last.taskId.value} else {}
  }

  function FinishedUsd(input: Input, rows: seq<Usage>): real {
    if rows == [] then 0.0
    else
      var last := rows[|rows| - 1];
      FinishedUsd(input, rows[..|rows| - 1]) +
      if IsFinished(input, last) && last.cost.Some? then last.cost.value else 0.0
  }

  /** The finished tasks are those of the calls' tasks that are done. */
  lemma {:induction false} FinishedTasksAre(input: Input, rows: seq<Usage>, id: string)
    ensures id in FinishedTasks(input, rows) <==>
      id in input.tasks && input.tasks[id].done && exists u :: u in rows && u.taskId == Some(id)
  {
    if rows != [] {
      var before, last := rows[..|rows| - 1], rows[|rows| - 1];
      FinishedTasksAre(input, before, id);
      assert rows == before + [last];
    }
  }

  /** The calls made for a task that is done. */
  function ForWorkDone(input: Input): Usage -> bool {
    (u: Usage) => u.taskId.Some? && u.taskId.value in input.tasks && input.tasks[u.taskId.value].done
  }

  lemma {:induction false} FinishedUsdIs(input: Input, rows: seq<Usage>)
    ensures FinishedUsd(input, rows) == SumAll(Picked(rows, ForWorkDone(input))).usd
  {
    if rows != [] {
      var before, last := rows[..|rows| - 1], rows[|rows| - 1];
      FinishedUsdIs(input, before);
      SumOneMore(Picked(before, ForWorkDone(input)), last);
    }
  }

  predicate Older(a: Line, b: Line) { a.at < b.at }

  /** The report, group by group. */
  function ReportOf(input: Input): Report {
    var rows := Filtered(input, input.usage);
    var all, finished := SumAll(rows), FinishedTasks(input, rows);
    Report(all.usd, all.calls, all.unpriced, |finished|,
      if |finished| == 0 then None else Some(FinishedUsd(input, rows) / |finished| as real),
      Ranked(Tally(input, ByEmployee, rows)),
      Ranked(Tally(input, ByDepartment, rows)),
      Ranked(Tally(input, ByModel, rows)),
      Sort(Older, LinesOf(input, rows)))
  }

  lemma {:induction false} CallsAreRows(rows: seq<Usage>)
    ensures SumAll(rows).calls == |rows| && SumAll(rows).unpriced == |Picked(rows, (u: Usage) => u.cost.None?)|
  {
    if rows != [] {
      CallsAreRows(rows[..|rows| - 1]);
    }
  }

  /** The tasks the calls were made for that are done. */
  function WorkDone(input: Input, rows: seq<Usage>): set<string> {
    set u | u in rows && ForWorkDone(input)(u) :: u.taskId.value
  }

  lemma FinishedIsWorkDone(input: Input, rows: seq<Usage>)
    ensures FinishedTasks(input, rows) == WorkDone(input, rows)
  {
    forall id ensures id in FinishedTasks(input, rows) <==> id in WorkDone(input, rows) {
      FinishedTasksAre(input, rows, id);
    }
  }

  /** What a finished task cost on average: only the calls for tasks that are done, over those tasks. */
  lemma AverageIsOfWorkDone(input: Input)
    ensures var report, rows := ReportOf(input), Filtered(input, input.usage);
      && report.completedTasks == |WorkDone(input, rows)|
      && report.usdPerCompletedTask ==
           if report.completedTasks == 0 then None
           else Some(SumAll(Picked(rows, ForWorkDone(input))).usd / report.completedTasks as real)
  {
    FinishedIsWorkDone(input, Filtered(input, input.usage));
    FinishedUsdIs(input, Filtered(input, input.usage));
  }

  /** Everything one pass over the rows keeps. */
  datatype Running = Running(
    totalUsd: real, unpricedCalls: int, byEmployee: Totals, byDepartment: Totals, byModel: Totals,
    lines: seq<Line>, finishedTasks: set<string>, finishedUsd: real)

  function RunningAt(input: Input, rows: seq<Usage>): Running {
    Running(SumAll(rows).usd, SumAll(rows).unpriced,
      Tally(input, ByEmployee, rows), Tally(input, ByDepartment, rows), Tally(input, ByModel, rows),
      LinesOf(input, rows), FinishedTasks(input, rows), FinishedUsd(input, rows))
  }

  /** What one more call makes of everything kept. */
  function Advanced(input: Input, before: Running, u: Usage): Running {
    Running(
      before.totalUsd + (if u.cost.Some? then u.cost.value else 0.0),
      before.unpricedCalls + (if u.cost.None? then 1 else 0),
      AddCall(input, ByEmployee, before.byEmployee, u),
      AddCall(input, ByDepartment, before.byDepartment, u),
      AddCall(input, ByModel, before.byModel, u),
      before.lines + [LineOf(input, u)],
      before.finishedTasks + (if IsFinished(input, u) then {u.taskId.value} else {}),
      before.finishedUsd + (if IsFinished(input, u) && u.cost.Some? then u.cost.value else 0.0))
  }

  lemma OneMoreRow(input: Input, rows: seq<Usage>, i: nat)
    requires i < |rows|
    ensures RunningAt(input, rows[..i + 1]) == Advanced(input, RunningAt(input, rows[..i]), rows[i])
  {
    assert rows[..i + 1][..i] == rows[..i];
  }

  /** One call, added to every running total: the person, the person's department, the model, and the whole. */
  method Meter(input: Input, before: Running, u: Usage) returns (after: Running)
    ensures after == Advanced(input, before, u)
  {
    after := before;
    if u.cost.None? {
      after := after.(unpricedCalls := after.unpricedCalls + 1);
    } else {
      after := after.(totalUsd := after.totalUsd + u.cost.value);
    }
    after := after.(lines := after.lines + [LineOf(input, u)]);
    if IsFinished(input, u) {
      after := after.(finishedTasks := after.finishedTasks + {u.taskId.value},
                      finishedUsd := after.finishedUsd + if u.cost.Some? then u.cost.value else 0.0);
    }
    var person := PersonOf(input, u);
    if u.employeeId.Some? {
      after := after.(byEmployee := Add(after.byEmployee, u.employeeId.value,
        if person.Some? then person.value.name else GONE,
        if person.Some? then Some(person.value.model) else None, u.cost));
      if person.Some? {
        var id := person.value.departmentId;
        after := after.(byDepartment := Add(after.byDepartment, id,
          if id in input.departments then input.departments[id] else GONE, None, u.cost));
      }
    }
    after := after.(byModel := Add(after.byModel, ModelOf(u), ModelOf(u), None, u.cost));
  }

  /** One pass over the rows, keeping every running total at once. */
  method BuildReport(input: Input) returns (report: Report)
    ensures report == ReportOf(input)
  {
    var rows := Filtered(input, input.usage);
    var now := Running(0.0, 0, [], [], [], [], {}, 0.0);
    for i := 0 to |rows|
      invariant now == RunningAt(input, rows[..i])
    {
      OneMoreRow(input, rows, i);
      now := Meter(input, now, rows[i]);
    }
    assert rows[..|rows|] == rows;
    CallsAreRows(rows);
    var tasks := |now.finishedTasks|;
    return Report(now.totalUsd, |rows|, now.unpricedCalls, tasks,
      if tasks == 0 then None else Some(now.finishedUsd / tasks as real),
      Ranked(now.byEmployee), Ranked(now.byDepartment), Ranked(now.byModel), Sort(Older, now.lines));
  }

  // ---- Conservation -----------------------------------------------------------------------

  function TotalOf(report: Report): Sums { Sums(report.totalUsd, report.calls, report.unpricedCalls) }

  lemma OlderIsOrdering()
    ensures Ordering(Older)
  {
  }

  /** Lines of one moment. */
  function At(at: int): Line -> bool { (line: Line) => line.at == at }

  /** Every call the filter left has its line, the newest first and those of one moment in the order they came in. */
  lemma LinesAreNewestFirst(input: Input, at: int)
    ensures var lines, rows := ReportOf(input).lines, Filtered(input, input.usage);
      && multiset(lines) == multiset(LinesOf(input, rows))
      && (forall i, j :: 0 <= i < j < |lines| ==> lines[i].at >= lines[j].at)
      && Picked(lines, At(at)) == Picked(LinesOf(input, rows), At(at))
  {
    OlderIsOrdering();
    SortOrders(Older, LinesOf(input, Filtered(input, input.usage)));
    SortIsStable(Older, LinesOf(input, Filtered(input, input.usage)), At(at));
  }

  /** What the lines show as spent, how many they are, and how many show no cost. */
  function SumLines(lines: seq<Line>): Sums {
    if lines == [] then ZERO else Plus(SumLines(lines[..|lines| - 1]), Shown(lines[|lines| - 1]))
  }

  function Shown(line: Line): Sums {
    match line.usd case None => Sums(0.0, 1, 1) case Some(usd) => Sums(usd, 1, 0)
  }

  lemma {:induction false} SumOfLinesOf(input: Input, rows: seq<Usage>)
    ensures SumLines(LinesOf(input, rows)) == SumAll(rows)
  {
    if rows != [] {
      SumOfLinesOf(input, rows[..|rows| - 1]);
      var lines := LinesOf(input, rows);
      assert lines[..|lines| - 1] == LinesOf(input, rows[..|rows| - 1]);
    }
  }

  lemma {:induction false} LinesAfterInsert(lines: seq<Line>, line: Line)
    ensures SumLines(Insert(Older, lines, line)) == Plus(SumLines(lines), Shown(line))
  {
    var n := |lines| - 1;
    if lines == [] || !Older(lines[n], line) {
      assert (lines + [line])[..|lines|] == lines;
    } else {
      LinesAfterInsert(lines[..n], line);
      var front := Insert(Older, lines[..n], line);
      assert (front + [lines[n]])[..|front|] == front;
    }
  }

  lemma {:induction false} SortedLinesConserve(lines: seq<Line>)
    ensures SumLines(Sort(Older, lines)) == SumLines(lines)
  {
    if lines != [] {
      SortedLinesConserve(lines[..|lines| - 1]);
      LinesAfterInsert(Sort(Older, lines[..|lines| - 1]), lines[|lines| - 1]);
    }
  }

  /** The lines add up to the report's own totals. */
  lemma LinesAddUp(input: Input)
    ensures SumLines(ReportOf(input).lines) == TotalOf(ReportOf(input))
  {
    var rows := Filtered(input, input.usage);
    SumOfLinesOf(input, rows);
    SortedLinesConserve(LinesOf(input, rows));
  }

  lemma RankedConserves(input: Input, g: Grouping, rows: seq<Usage>)
    ensures Plus(SumRows(Ranked(Tally(input, g, rows))), SumOf(input, g, rows, None)) == SumAll(rows)
  {
    SortConserves(Values(Tally(input, g, rows)));
    TallyConserves(input, g, rows);
  }

  lemma {:induction false} NothingUnmodelled(input: Input, rows: seq<Usage>)
    ensures SumOf(input, ByModel, rows, None) == ZERO
  {
    if rows != [] {
      NothingUnmodelled(input, rows[..|rows| - 1]);
    }
  }

  /**
   * Money, calls and unpriced calls are all conserved: the models account for everything, and so
   * do the employees and the departments with the calls that could not be laid at anyone's door.
   */
  lemma ReportConserves(input: Input)
    ensures var report, rows := ReportOf(input), Filtered(input, input.usage);
      && SumRows(report.byModel) == TotalOf(report)
      && Plus(SumRows(report.byEmployee), SumOf(input, ByEmployee, rows, None)) == TotalOf(report)
      && Plus(SumRows(report.byDepartment), SumOf(input, ByDepartment, rows, None)) == TotalOf(report)
      && report.calls == |rows|
  {
    var rows := Filtered(input, input.usage);
    RankedConserves(input, ByModel, rows);
    RankedConserves(input, ByEmployee, rows);
    RankedConserves(input, ByDepartment, rows);
    NothingUnmodelled(input, rows);
    CallsAreRows(rows);
  }

  function Narrowed(input: Input, department: string): Input {
    input.(filter := input.filter.(departmentId := Some(department)))
  }

  lemma NarrowingKeeps(input: Input, department: string, u: Usage)
    requires input.filter.departmentId.None?
    ensures Kept(Narrowed(input, department), u)
       <==> Kept(input, u) && GroupOf(input, ByDepartment, u) == Some(department)
  {
  }

  lemma SumAppend(input: Input, rows: seq<Usage>, u: Usage, key: Option<string>)
    ensures SumOf(input, ByDepartment, rows + [u], key)
         == Plus(SumOf(input, ByDepartment, rows, key), ShareOf(input, ByDepartment, u, key))
  {
    assert (rows + [u])[..|rows|] == rows;
  }

  lemma {:induction false} FilteringIsGrouping(input: Input, department: string, usage: seq<Usage>)
    requires input.filter.departmentId.None?
    ensures SumAll(Filtered(Narrowed(input, department), usage))
         == SumOf(input, ByDepartment, Filtered(input, usage), Some(department))
  {
    if usage != [] {
      var before, u := usage[..|usage| - 1], usage[|usage| - 1];
      FilteringIsGrouping(input, department, before);
      NarrowingKeeps(input, department, u);
      var a, b := Filtered(Narrowed(input, department), before), Filtered(input, before);
      SumOneMore(a, u);
      SumAppend(input, b, u, Some(department));
      PlusZero(SumAll(a));
      FilteredOneMore(input, usage);
      FilteredOneMore(Narrowed(input, department), usage);
    }
  }

  lemma FilteredOneMore(input: Input, usage: seq<Usage>)
    requires usage != []
    ensures var before, u := usage[..|usage| - 1], usage[|usage| - 1];
      Filtered(input, usage) == if Kept(input, u) then Filtered(input, before) + [u] else Filtered(input, before)
  {
  }

  /**
   * The report narrowed to one department totals exactly that department's row in the report of
   * everything, and nothing when it has no row there.
   */
  lemma NarrowedReportIsTheRow(input: Input, department: string)
    requires input.filter.departmentId.None?
    ensures var total := TotalOf(ReportOf(Narrowed(input, department)));
      match RowFor(Tally(input, ByDepartment, Filtered(input, input.usage)), department)
      case None => total == ZERO
      case Some(row) => total == SumsIn(row) && row in ReportOf(input).byDepartment && row.calls > 0
  {
    var rows := Filtered(input, input.usage);
    var t := Tally(input, ByDepartment, rows);
    FilteringIsGrouping(input, department, input.usage);
    TallyHolds(input, ByDepartment, rows, department);
    RankingIsDescending(t, 0.0);
    var i := PlaceOf(t, department);
    if i < |t| {
      assert Values(t)[i] in multiset(Values(t));
      assert Values(t)[i] in multiset(Ranked(t));
    }
  }
}
