/** Saying so once when a call takes a level of an office across a threshold of its budget. */
module BudgetWarnings {
  import opened Shared
  import opened Sorting
  import opened Pages
  import opened Budget
  import opened Spending

  /** The new stand of a level that one record takes to another standing than within its budget. */
  function CrossingOf(office: Office, before: seq<Row>, row: Row, level: Level): (r: Option<Stand>)
    ensures r.Some? ==> r.value.level == level
  {
    var now := StandingOf(office, Put(before, row), level);
    if BudgetOf(office, level).Some? && now != Within && now != StandingOf(office, before, level)
    then Some(StandOf(office, Put(before, row), level)) else None
  }

  /** What one record makes the office announce, given how things stood before it. */
  function Crossings(office: Office, before: seq<Row>, row: Row, levels: seq<Level>): seq<Stand> {
    if levels == [] then []
    else
      var others := Crossings(office, before, row, levels[..|levels| - 1]);
      match CrossingOf(office, before, row, levels[|levels| - 1])
      case None => others
      case Some(stand) => others + [stand]
  }

  lemma {:induction false} StandsAligned(office: Office, a: seq<Row>, b: seq<Row>, levels: seq<Level>)
    ensures |StandsAmong(office, a, levels)| == |StandsAmong(office, b, levels)|
    ensures forall i :: 0 <= i < |StandsAmong(office, a, levels)| ==>
      var level := StandsAmong(office, a, levels)[i].level;
      && BudgetOf(office, level).Some?
      && StandsAmong(office, b, levels)[i].level == level
      && StandsAmong(office, a, levels)[i] == StandOf(office, a, level)
      && StandsAmong(office, b, levels)[i] == StandOf(office, b, level)
  {
    if levels != [] {
      StandsAligned(office, a, b, levels[..|levels| - 1]);
    }
  }

  /** The crossings picked out of two lists of stands, side by side. */
  function Changed(before: seq<Stand>, after: seq<Stand>): seq<Stand>
    requires |before| == |after|
  {
    if after == [] then []
    else
      var n := |after| - 1;
      var others := Changed(before[..n], after[..n]);
      if after[n].standing != before[n].standing && after[n].standing != Within then others + [after[n]] else others
  }

  lemma {:induction false} ChangedAreCrossings(office: Office, before: seq<Row>, row: Row, levels: seq<Level>)
    ensures |StandsAmong(office, before, levels)| == |StandsAmong(office, Put(before, row), levels)|
    ensures Changed(StandsAmong(office, before, levels), StandsAmong(office, Put(before, row), levels))
         == Crossings(office, before, row, levels)
  {
    StandsAligned(office, before, Put(before, row), levels);
    if levels != [] {
      var n := |levels| - 1;
      ChangedAreCrossings(office, before, row, levels[..n]);
      var a, b := StandsAmong(office, before, levels[..n]), StandsAmong(office, Put(before, row), levels[..n]);
      if BudgetOf(office, levels[n]).Some? {
        var x, y := StandOf(office, before, levels[n]), StandOf(office, Put(before, row), levels[n]);
        assert (a + [x])[..|a|] == a && (b + [y])[..|b|] == b;
      } else {
        assert StandsAmong(office, before, levels) == a && StandsAmong(office, Put(before, row), levels) == b;
      }
    }
  }

  /** The offices of the store, each under its own id. */
  ghost predicate Keyed(offices: map<string, Office>) {
    forall f :: f in offices ==> offices[f].id == f && OwnIds(offices[f].employees)
  }

  /** A warning is published on the stream of the office whose route was posted to. */
  datatype Warning = Warning(officeId: string, stand: Stand)

  function WarningsOf(officeId: string, stands: seq<Stand>): (r: seq<Warning>)
    ensures |r| == |stands| && forall i :: 0 <= i < |r| ==> r[i] == Warning(officeId, stands[i])
  {
    seq(|stands|, i requires 0 <= i < |stands| => Warning(officeId, stands[i]))
  }

  /** A usage record posted to the route of an office, which need not be the one it is filed under. */
  datatype Post = Post(route: string, row: Row)

  /** What one post makes the server announce: only the route's office is compared. */
  function Announced(offices: map<string, Office>, before: seq<Row>, post: Post): seq<Warning> {
    if post.route !in offices then []
    else
      var office := offices[post.route];
      WarningsOf(post.route, Crossings(office, before, post.row, LevelsFor(office, post.row.employeeId)))
  }

  /** A post to a route that exists is stored, under whatever office it names. */
  function RowsAfter(offices: map<string, Office>, before: seq<Row>, post: Post): seq<Row> {
    if post.route in offices then Put(before, post.row) else before
  }

  datatype Reply = Missing | Refused(errors: seq<ValidationError>) | Created(row: Row)

  class UsageRoutes {
    const offices: map<string, Office>
    var rows: seq<Row>
    /** Every warning published, in order. */
    var warned: seq<Warning>

    constructor (offices: map<string, Office>, rows: seq<Row>)
      ensures this.offices == offices && this.rows == rows && warned == []
    {
      this.offices, this.rows, warned := offices, rows, [];
    }

    /** Records one call, if the body made a record, and warns about each level it takes across a threshold. */
    method PostUsage(route: string, record: Result<Row, seq<ValidationError>>) returns (r: Reply)
      modifies this
      ensures r == if route !in offices then Missing
                   else if record.Err? then Refused(record.error) else Created(record.value)
      ensures r.Created? ==>
        && rows == RowsAfter(offices, old(rows), Post(route, record.value))
        && warned == old(warned) + Announced(offices, old(rows), Post(route, record.value))
      ensures !r.Created? ==> rows == old(rows) && warned == old(warned)
    {
      if route !in offices { return Missing; }
      if record.Err? { return Refused(record.error); }
      var office, row := offices[route], record.value;
      var before := Standings(office, rows, row.employeeId);
      rows := Put(rows, row);
      var after := Standings(office, rows, row.employeeId);
      ChangedAreCrossings(office, old(rows), row, LevelsFor(office, row.employeeId));
      WarnAbout(route, before, after);
      return Created(row);
    }

    /** A level that stands where it stood, or within its budget, is nothing to speak of. */
    method WarnAbout(officeId: string, before: seq<Stand>, after: seq<Stand>)
      requires |before| == |after|
      modifies this`warned
      ensures warned == old(warned) + WarningsOf(officeId, Changed(before, after))
    {
      for i := 0 to |after|
        invariant warned == old(warned) + WarningsOf(officeId, Changed(before[..i], after[..i]))
      {
        assert before[..i + 1][..i] == before[..i] && after[..i + 1][..i] == after[..i];
        if before[i].standing == after[i].standing { continue; }
        if after[i].standing == Within { continue; }
        warned := warned + [Warning(officeId, after[i])];
      }
      assert before[..|after|] == before && after[..|after|] == after;
    }
  }

  // ---- One record --------------------------------------------------------------------

  lemma {:induction false} CrossingsAre(office: Office, before: seq<Row>, row: Row, levels: seq<Level>, w: Stand)
    ensures w in Crossings(office, before, row, levels) <==>
      w.level in levels && CrossingOf(office, before, row, w.level) == Some(w)
  {
    if levels != [] {
      var n := |levels| - 1;
      CrossingsAre(office, before, row, levels[..n], w);
      assert w.level in levels <==> w.level in levels[..n] || w.level == levels[n];
    }
  }

  // ---- Whole runs ------------------------------------------------------------------

  /** What is stored after the first `n` posts of a run. */
  function Stored(offices: map<string, Office>, rows: seq<Row>, posts: seq<Post>, n: nat): seq<Row>
    requires n <= |posts|
  {
    if n == 0 then rows else RowsAfter(offices, Stored(offices, rows, posts, n - 1), posts[n - 1])
  }

  /** How a level of an office stands after the first `n` posts of a run. */
  function StandsAfter(
    offices: map<string, Office>, rows: seq<Row>, posts: seq<Post>, n: nat, f: string, level: Level): Standing
    requires n <= |posts| && f in offices
  {
    StandingOf(offices[f], Stored(offices, rows, posts, n), level)
  }

  /** Costs are never negative. */
  predicate NoRefunds(posts: seq<Post>) {
    forall i :: 0 <= i < |posts| ==> NoRefund(posts[i].row)
  }

  /** What is stored at first is in order, and every post brings an id of its own. */
  ghost predicate InOrder(rows: seq<Row>, posts: seq<Post>) {
    && Sorted(rows)
    && (forall i :: 0 <= i < |posts| ==> Fresh(rows, posts[i].row))
    && (forall i, j :: 0 <= i < j < |posts| ==> posts[i].row.id != posts[j].row.id)
  }

  lemma {:induction false} StoredInOrder(offices: map<string, Office>, rows: seq<Row>, posts: seq<Post>, n: nat)
    requires InOrder(rows, posts) && n <= |posts|
    ensures Sorted(Stored(offices, rows, posts, n))
    ensures forall i :: n <= i < |posts| ==> Fresh(Stored(offices, rows, posts, n), posts[i].row)
  {
    if n > 0 {
      StoredInOrder(offices, rows, posts, n - 1);
      var before, row := Stored(offices, rows, posts, n - 1), posts[n - 1].row;
      PutKeepsSorted(before, row);
      forall i, r | n <= i < |posts| && r in Put(before, row) ensures r.id != posts[i].row.id {
        assert r in multiset(Put(before, row));
        assert r in before || r == row;
      }
    }
  }

  /** The rows filed under an office after `n` posts still fit one page. */
  predicate FitsAPage(offices: map<string, Office>, rows: seq<Row>, posts: seq<Post>, n: nat, f: string)
    requires n <= |posts|
  {
    Count(Stored(offices, rows, posts, n), f) <= PAGE_SIZE
  }

  lemma CountOneMore(offices: map<string, Office>, rows: seq<Row>, posts: seq<Post>, n: nat, f: string)
    requires InOrder(rows, posts) && n < |posts|
    ensures Count(Stored(offices, rows, posts, n + 1), f)
         == Count(Stored(offices, rows, posts, n), f)
            + if posts[n].route in offices && posts[n].row.officeId == f then 1 else 0
  {
    StoredInOrder(offices, rows, posts, n);
    CountAfterPut(Stored(offices, rows, posts, n), posts[n].row, f);
  }

  lemma {:induction false} CountGrows(
    offices: map<string, Office>, rows: seq<Row>, posts: seq<Post>, m: nat, n: nat, f: string)
    requires InOrder(rows, posts) && m <= n <= |posts|
    ensures Count(Stored(offices, rows, posts, m), f) <= Count(Stored(offices, rows, posts, n), f)
  {
    if m < n {
      CountGrows(offices, rows, posts, m, n - 1, f);
      CountOneMore(offices, rows, posts, n - 1, f);
    }
  }

  lemma FittedBefore(
    offices: map<string, Office>, rows: seq<Row>, posts: seq<Post>, m: nat, n: nat, f: string)
    requires InOrder(rows, posts) && m <= n <= |posts| && FitsAPage(offices, rows, posts, n, f)
    ensures FitsAPage(offices, rows, posts, m, f)
    ensures m < n && posts[m].route in offices && posts[m].row.officeId == f ==>
      Count(Stored(offices, rows, posts, m), f) < PAGE_SIZE
  {
    CountGrows(offices, rows, posts, m, n, f);
    if m < n {
      CountGrows(offices, rows, posts, m + 1, n, f);
      CountOneMore(offices, rows, posts, m, f);
    }
  }

  /** How a level of an office stands at the start of a run and after each of its posts. */
  function Course(
    offices: map<string, Office>, rows: seq<Row>, posts: seq<Post>, f: string, level: Level): (course: seq<Standing>)
    requires f in offices
    ensures |course| == |posts| + 1
    ensures forall n :: 0 <= n <= |posts| ==> course[n] == StandsAfter(offices, rows, posts, n, f, level)
  {
    seq(|posts| + 1, n requires 0 <= n <= |posts| => StandsAfter(offices, rows, posts, n, f, level))
  }

  predicate TakesAt(course: seq<Standing>, i: nat, standing: Standing)
    requires i + 1 < |course|
  {
    standing != Within && course[i] != standing && course[i + 1] == standing
  }

  ghost predicate Rising(course: seq<Standing>, n: nat)
    requires n < |course|
  {
    forall i, j :: 0 <= i <= j <= n ==> Rank(course[i]) <= Rank(course[j])
  }

  lemma RisesOnce(course: seq<Standing>, i: nat, j: nat, standing: Standing)
    requires i < j && j + 1 < |course| && Rising(course, j + 1)
    ensures !(TakesAt(course, i, standing) && TakesAt(course, j, standing))
  {
    assert Rank(course[i + 1]) <= Rank(course[j]) <= Rank(course[j + 1]);
  }

  /** A course that ends where it did not begin was taken there by some post. */
  lemma {:induction false} SomeStepTakes(course: seq<Standing>, n: nat, standing: Standing) returns (i: nat)
    requires n < |course| && standing != Within && course[0] != standing && course[n] == standing
    ensures i < n && TakesAt(course, i, standing)
  {
    if course[n - 1] == standing {
      i := SomeStepTakes(course, n - 1, standing);
    } else {
      i := n - 1;
    }
  }

  /** The i-th post of a run takes a level of an office to a standing other than within its budget. */
  ghost predicate Takes(
    offices: map<string, Office>, rows: seq<Row>, posts: seq<Post>, i: nat, f: string, level: Level, standing: Standing)
    requires i < |posts| && f in offices
  {
    TakesAt(Course(offices, rows, posts, f, level), i, standing)
  }

  /** The i-th post of a run announces that a level of an office has come to a standing. */
  ghost predicate Announces(
    offices: map<string, Office>, rows: seq<Row>, posts: seq<Post>, i: nat, f: string, level: Level, standing: Standing)
    requires i < |posts|
  {
    exists w :: w in Announced(offices, Stored(offices, rows, posts, i), posts[i])
      && w.officeId == f && w.stand.level == level && w.stand.standing == standing
  }

  lemma AnnouncedAre(offices: map<string, Office>, before: seq<Row>, post: Post, w: Warning)
    ensures w in Announced(offices, before, post) <==>
      post.route in offices && w.officeId == post.route &&
      w.stand in Crossings(
        offices[post.route], before, post.row, LevelsFor(offices[post.route], post.row.employeeId))
  {
    if post.route in offices {
      var office := offices[post.route];
      var stands := Crossings(office, before, post.row, LevelsFor(office, post.row.employeeId));
      var warnings := WarningsOf(post.route, stands);
      if w.officeId == post.route && w.stand in stands {
        var i :| 0 <= i < |stands| && stands[i] == w.stand;
        assert warnings[i] == w;
      }
    }
  }

  /** A warning goes to the office posted to and says how its level stands with the record stored. */
  lemma WarningsSay(offices: map<string, Office>, before: seq<Row>, post: Post, w: Warning)
    requires w in Announced(offices, before, post)
    ensures w.officeId == post.route && post.route in offices
    ensures var office := offices[post.route];
      && BudgetOf(office, w.stand.level).Some?
      && w.stand == StandOf(office, Put(before, post.row), w.stand.level)
  {
    AnnouncedAre(offices, before, post, w);
    var office := offices[post.route];
    CrossingsAre(office, before, post.row, LevelsFor(office, post.row.employeeId), w.stand);
  }

  /**
   * A level of an office is announced exactly by the posts to that office's own route whose record
   * names the level, when they take it to a new standing other than within its budget.
   */
  lemma AnnouncedExactlyAtTheCrossing(
    offices: map<string, Office>, rows: seq<Row>, posts: seq<Post>, i: nat, f: string, level: Level, standing: Standing)
    requires i < |posts| && f in offices
    ensures Announces(offices, rows, posts, i, f, level, standing) <==>
      && posts[i].route == f && level in LevelsFor(offices[f], posts[i].row.employeeId)
      && Takes(offices, rows, posts, i, f, level, standing)
  {
    var before, post, office := Stored(offices, rows, posts, i), posts[i], offices[f];
    var levels := LevelsFor(office, post.row.employeeId);
    forall w ensures w in Announced(offices, before, post) && w.officeId == f <==>
        w.officeId == f && post.route == f && w.stand in Crossings(office, before, post.row, levels)
    {
      AnnouncedAre(offices, before, post, w);
    }
    if post.route == f {
      RecordAnnounces(office, before, post.row, levels, level, standing);
      assert forall stand :: stand in Crossings(office, before, post.row, levels) ==>
        Warning(f, stand) in Announced(offices, before, post);
    }
  }

  /** The same of one record and the levels compared for it. */
  lemma RecordAnnounces(
    office: Office, before: seq<Row>, row: Row, levels: seq<Level>, level: Level, standing: Standing)
    ensures (exists stand :: stand in Crossings(office, before, row, levels)
                             && stand.level == level && stand.standing == standing)
       <==> level in levels && standing != Within && StandingOf(office, before, level) != standing
            && StandingOf(office, Put(before, row), level) == standing
  {
    if BudgetOf(office, level).Some? {
      CrossingsAre(office, before, row, levels, StandOf(office, Put(before, row), level));
    }
    forall stand | stand in Crossings(office, before, row, levels) && stand.level == level
      ensures level in levels && BudgetOf(office, level).Some? && stand == StandOf(office, Put(before, row), level)
      ensures stand.standing != Within && stand.standing != StandingOf(office, before, level)
    {
      CrossingsAre(office, before, row, levels, stand);
    }
  }

  /**
   * Only a record filed under an office takes a level of that office anywhere, and while the
   * office's rows fit a page only one that names the level.
   */
  lemma TakenByItsOwnRows(
    offices: map<string, Office>, rows: seq<Row>, posts: seq<Post>, i: nat, f: string, level: Level)
    requires Keyed(offices) && InOrder(rows, posts) && i < |posts| && f in offices
    requires StandsAfter(offices, rows, posts, i + 1, f, level) != StandsAfter(offices, rows, posts, i, f, level)
    ensures posts[i].route in offices && posts[i].row.officeId == f
    ensures FitsAPage(offices, rows, posts, i + 1, f) ==> level in LevelsFor(offices[f], posts[i].row.employeeId)
  {
    var before, row := Stored(offices, rows, posts, i), posts[i].row;
    StoredInOrder(offices, rows, posts, i);
    if row.officeId != f {
      OthersStand(offices[f], before, row, level);
    } else if FitsAPage(offices, rows, posts, i + 1, f) && level !in LevelsFor(offices[f], row.employeeId) {
      CountAfterPut(before, row, f);
      OthersStand(offices[f], before, row, level);
    }
  }

  /**
   * The record that takes a level somewhere is announced if and only if it is posted to the route
   * of the office it is filed under, which nothing checks, and names the level, which while the
   * office's rows fit a page it does.
   */
  lemma AnnouncedIffFiledWhereItIsPosted(
    offices: map<string, Office>, rows: seq<Row>, posts: seq<Post>, i: nat, f: string, level: Level, standing: Standing)
    requires Keyed(offices) && InOrder(rows, posts) && i < |posts| && f in offices
    requires Takes(offices, rows, posts, i, f, level, standing)
    ensures Announces(offices, rows, posts, i, f, level, standing) <==>
      posts[i].route == posts[i].row.officeId && level in LevelsFor(offices[f], posts[i].row.employeeId)
    ensures FitsAPage(offices, rows, posts, i + 1, f) ==>
      (Announces(offices, rows, posts, i, f, level, standing) <==> posts[i].route == posts[i].row.officeId)
  {
    AnnouncedExactlyAtTheCrossing(offices, rows, posts, i, f, level, standing);
    TakenByItsOwnRows(offices, rows, posts, i, f, level);
  }

  lemma {:induction false} StandingOnlyRises(
    offices: map<string, Office>, rows: seq<Row>, posts: seq<Post>, i: nat, j: nat, f: string, level: Level)
    requires Keyed(offices) && InOrder(rows, posts) && NoRefunds(posts) && i <= j <= |posts| && f in offices
    requires FitsAPage(offices, rows, posts, j, f)
    ensures Rank(StandsAfter(offices, rows, posts, i, f, level)) <= Rank(StandsAfter(offices, rows, posts, j, f, level))
  {
    if i < j {
      FittedBefore(offices, rows, posts, j - 1, j, f);
      StandingOnlyRises(offices, rows, posts, i, j - 1, f, level);
      if posts[j - 1].route in offices {
        StoredInOrder(offices, rows, posts, j - 1);
        RecordOnlyRaises(offices[f], Stored(offices, rows, posts, j - 1), posts[j - 1].row, level);
      }
    }
  }

  lemma RecordOnlyRaises(office: Office, before: seq<Row>, row: Row, level: Level)
    requires Sorted(before) && NoRefund(row)
    requires row.officeId == office.id ==> Count(before, office.id) < PAGE_SIZE
    ensures Rank(StandingOf(office, before, level)) <= Rank(StandingOf(office, Put(before, row), level))
  {
    var budget := BudgetOf(office, level);
    if budget.Some? {
      var since := Since(office, budget.value.period);
      SpentAfterPut(office, before, row, since, level);
      SpendingMoreNeverHelps(
        budget, Spent(office, before, since, level), Spent(office, Put(before, row), since, level));
    }
  }

  /** In a run inside one period, a level of an office whose rows fit a page is taken to a standing at most once. */
  lemma TakenAtMostOnce(
    offices: map<string, Office>, rows: seq<Row>, posts: seq<Post>, i: nat, j: nat,
    f: string, level: Level, standing: Standing)
    requires Keyed(offices) && InOrder(rows, posts) && NoRefunds(posts) && i < j < |posts| && f in offices
    requires FitsAPage(offices, rows, posts, j + 1, f)
    ensures !(Takes(offices, rows, posts, i, f, level, standing) && Takes(offices, rows, posts, j, f, level, standing))
  {
    var course := Course(offices, rows, posts, f, level);
    forall m, n | 0 <= m <= n <= j + 1 ensures Rank(course[m]) <= Rank(course[n]) {
      FittedBefore(offices, rows, posts, n, j + 1, f);
      StandingOnlyRises(offices, rows, posts, m, n, f, level);
    }
    RisesOnce(course, i, j, standing);
  }

  /** So no level of such an office is announced twice for the same standing. */
  lemma AnnouncedAtMostOnce(
    offices: map<string, Office>, rows: seq<Row>, posts: seq<Post>, i: nat, j: nat,
    f: string, level: Level, standing: Standing)
    requires Keyed(offices) && InOrder(rows, posts) && NoRefunds(posts) && i < j < |posts| && f in offices
    requires FitsAPage(offices, rows, posts, j + 1, f)
    ensures !(Announces(offices, rows, posts, i, f, level, standing)
              && Announces(offices, rows, posts, j, f, level, standing))
  {
    AnnouncedExactlyAtTheCrossing(offices, rows, posts, i, f, level, standing);
    AnnouncedExactlyAtTheCrossing(offices, rows, posts, j, f, level, standing);
    TakenAtMostOnce(offices, rows, posts, i, j, f, level, standing);
  }

  /**
   * A standing a level of an office whose rows fit a page ends up in was reached by one of the
   * posts, unless the run began there; the run announced it if and only if that post was filed
   * where it was posted.
   */
  lemma NothingElseGoesUnannounced(
    offices: map<string, Office>, rows: seq<Row>, posts: seq<Post>, f: string, level: Level) returns (i: nat)
    requires Keyed(offices) && InOrder(rows, posts) && NoRefunds(posts) && f in offices
    requires FitsAPage(offices, rows, posts, |posts|, f)
    requires StandsAfter(offices, rows, posts, |posts|, f, level) != Within
    requires StandsAfter(offices, rows, posts, |posts|, f, level) != StandsAfter(offices, rows, posts, 0, f, level)
    ensures var standing := StandsAfter(offices, rows, posts, |posts|, f, level);
      && i < |posts| && Takes(offices, rows, posts, i, f, level, standing)
      && ((exists j: nat :: j < |posts| && Announces(offices, rows, posts, j, f, level, standing)) <==>
          posts[i].route == posts[i].row.officeId)
  {
    var standing := StandsAfter(offices, rows, posts, |posts|, f, level);
    i := SomeStepTakes(Course(offices, rows, posts, f, level), |posts|, standing);
    FittedBefore(offices, rows, posts, i + 1, |posts|, f);
    AnnouncedIffFiledWhereItIsPosted(offices, rows, posts, i, f, level, standing);
    AnnouncedThereOrNowhere(offices, rows, posts, i, f, level, standing);
  }

  lemma AnnouncedThereOrNowhere(
    offices: map<string, Office>, rows: seq<Row>, posts: seq<Post>, i: nat, f: string, level: Level, standing: Standing)
    requires Keyed(offices) && InOrder(rows, posts) && NoRefunds(posts) && f in offices
    requires FitsAPage(offices, rows, posts, |posts|, f)
    requires i < |posts| && Takes(offices, rows, posts, i, f, level, standing)
    ensures (exists j: nat :: j < |posts| && Announces(offices, rows, posts, j, f, level, standing)) <==>
      Announces(offices, rows, posts, i, f, level, standing)
  {
    forall j: nat | j < |posts| && j != i ensures !Announces(offices, rows, posts, j, f, level, standing) {
      AnnouncedOnlyThere(offices, rows, posts, i, j, f, level, standing);
    }
  }

  lemma TakenOnlyThere(
    offices: map<string, Office>, rows: seq<Row>, posts: seq<Post>, i: nat, j: nat,
    f: string, level: Level, standing: Standing)
    requires Keyed(offices) && InOrder(rows, posts) && NoRefunds(posts) && f in offices
    requires FitsAPage(offices, rows, posts, |posts|, f)
    requires i < |posts| && j < |posts| && i != j
    ensures !(Takes(offices, rows, posts, i, f, level, standing) && Takes(offices, rows, posts, j, f, level, standing))
  {
    if i < j {
      FittedBefore(offices, rows, posts, j + 1, |posts|, f);
      TakenAtMostOnce(offices, rows, posts, i, j, f, level, standing);
    } else {
      FittedBefore(offices, rows, posts, i + 1, |posts|, f);
      TakenAtMostOnce(offices, rows, posts, j, i, f, level, standing);
    }
  }

  lemma AnnouncedOnlyThere(
    offices: map<string, Office>, rows: seq<Row>, posts: seq<Post>, i: nat, j: nat,
    f: string, level: Level, standing: Standing)
    requires Keyed(offices) && InOrder(rows, posts) && NoRefunds(posts) && f in offices
    requires FitsAPage(offices, rows, posts, |posts|, f)
    requires i < |posts| && j < |posts| && i != j && Takes(offices, rows, posts, i, f, level, standing)
    ensures !Announces(offices, rows, posts, j, f, level, standing)
  {
    TakenOnlyThere(offices, rows, posts, i, j, f, level, standing);
    AnnouncedExactlyAtTheCrossing(offices, rows, posts, j, f, level, standing);
  }

  /** When every record filed under such an office is posted to its route, every such standing is announced. */
  lemma NothingGoesUnannounced(
    offices: map<string, Office>, rows: seq<Row>, posts: seq<Post>, f: string, level: Level) returns (i: nat)
    requires Keyed(offices) && InOrder(rows, posts) && f in offices
    requires FitsAPage(offices, rows, posts, |posts|, f)
    requires forall p :: p in posts && p.row.officeId == f ==> p.route == f
    requires StandsAfter(offices, rows, posts, |posts|, f, level) != Within
    requires StandsAfter(offices, rows, posts, |posts|, f, level) != StandsAfter(offices, rows, posts, 0, f, level)
    ensures i < |posts|
    ensures Announces(offices, rows, posts, i, f, level, StandsAfter(offices, rows, posts, |posts|, f, level))
  {
    var standing := StandsAfter(offices, rows, posts, |posts|, f, level);
    i := SomeStepTakes(Course(offices, rows, posts, f, level), |posts|, standing);
    FittedBefore(offices, rows, posts, i + 1, |posts|, f);
    TakenByItsOwnRows(offices, rows, posts, i, f, level);
    AnnouncedExactlyAtTheCrossing(offices, rows, posts, i, f, level, standing);
  }

  // ---- A post that goes unannounced ----------------------------------------------------

  function Plain(id: string, budget: Option<Budget>): Office {
    Office(id, budget, map[], [], 0, 0)
  }

  /** Ten dollars a day at office B, spent by one call that is posted to office A. */
  const MISROUTED := Post("A", Row(0, "B", None, 0, Some(10.0)))

  const TWO_OFFICES := map["A" := Plain("A", None), "B" := Plain("B", Some(Budget(10.0, None, Day)))]

  lemma TwoOfficesAreKeyed()
    ensures Keyed(TWO_OFFICES) && "A" != "B"
  {
    assert "A"[0] != "B"[0];
  }

  lemma MisroutedAtOnce(posts: seq<Post>)
    requires posts != [] && posts[0] == MISROUTED
    ensures StandsAfter(TWO_OFFICES, [], posts, 0, "B", OfficeLevel) == Within
    ensures StandsAfter(TWO_OFFICES, [], posts, 1, "B", OfficeLevel) == Over
  {
    TwoOfficesAreKeyed();
    StoredOneMore(TWO_OFFICES, [], posts, 0);
    SpentAfterPut(TWO_OFFICES["B"], [], MISROUTED.row, 0, OfficeLevel);
    StandsBy([], 0.0);
    StandsBy(Put([], MISROUTED.row), 10.0);
  }

  /**
   * Office B is over its budget, and neither this post nor any after it, wherever posted, ever says
   * so, while B's rows fit a page.
   */
  lemma MisroutedSpendIsSilent(more: seq<Post>, j: nat)
    requires InOrder([], [MISROUTED] + more) && NoRefunds(more) && j < |more| + 1
    requires FitsAPage(TWO_OFFICES, [], [MISROUTED] + more, |more| + 1, "B")
    ensures Takes(TWO_OFFICES, [], [MISROUTED] + more, 0, "B", OfficeLevel, Over)
    ensures StandsAfter(TWO_OFFICES, [], [MISROUTED] + more, |more| + 1, "B", OfficeLevel) == Over
    ensures !Announces(TWO_OFFICES, [], [MISROUTED] + more, j, "B", OfficeLevel, Over)
  {
    var posts := [MISROUTED] + more;
    TwoOfficesAreKeyed();
    MisroutedAtOnce(posts);
    assert NoRefunds(posts);
    StandingOnlyRises(TWO_OFFICES, [], posts, 1, |posts|, "B", OfficeLevel);
    AnnouncedExactlyAtTheCrossing(TWO_OFFICES, [], posts, j, "B", OfficeLevel, Over);
    if j > 0 {
      TakenOnlyThere(TWO_OFFICES, [], posts, 0, j, "B", OfficeLevel, Over);
    }
  }

  // ---- A page that is full -------------------------------------------------------------

  /** The rows with ids from 1 to `n`, each a call of twenty cents at office B. */
  function TwentyCents(n: nat): (rows: seq<Row>)
    ensures |rows| == n
    ensures forall i :: 0 <= i < n ==> rows[i] == Row(i + 1, "B", None, 0, Some(0.2))
  {
    seq(n, i requires 0 <= i < n => Row(i + 1, "B", None, 0, Some(0.2)))
  }

  lemma {:induction false} AllAreFiled(rows: seq<Row>, officeId: string)
    requires forall r :: r in rows ==> r.officeId == officeId
    ensures Filed(rows, officeId) == rows
  {
    if rows != [] {
      AllAreFiled(rows[..|rows| - 1], officeId);
      assert rows == rows[..|rows| - 1] + [rows[|rows| - 1]];
    }
  }

  lemma {:induction false} TotalOfTwentyCents(n: nat)
    ensures Total(TWO_OFFICES["B"], TwentyCents(n), 0, OfficeLevel) == 0.2 * n as real
  {
    if n > 0 {
      TotalOfTwentyCents(n - 1);
      assert TwentyCents(n)[..n - 1] == TwentyCents(n - 1);
    }
  }

  lemma TwentyCentsSpent(n: nat)
    requires n <= PAGE_SIZE
    ensures Sorted(TwentyCents(n)) && Count(TwentyCents(n), "B") == n && Filed(TwentyCents(n), "B") == TwentyCents(n)
    ensures Spent(TWO_OFFICES["B"], TwentyCents(n), 0, OfficeLevel) == 0.2 * n as real
  {
    AllAreFiled(TwentyCents(n), "B");
    TotalOfTwentyCents(n);
  }

  /** The last twenty cents of ten dollars; a free call; and forty cents more, all at office B. */
  const LAST := Post("B", Row(50, "B", None, 0, Some(0.2)))
  const FREE := Post("B", Row(0, "B", None, 0, Some(0.0)))
  const MORE := Post("B", Row(-1, "B", None, 0, Some(0.4)))

  lemma StandsBy(rows: seq<Row>, spent: real)
    requires Spent(TWO_OFFICES["B"], rows, 0, OfficeLevel) == spent
    ensures StandingOf(TWO_OFFICES["B"], rows, OfficeLevel) == if spent >= 10.0 then Over else Within
  {
  }

  lemma Filling(some: seq<Row>, full: seq<Row>)
    requires some == TwentyCents(49) && full == TwentyCents(50)
    ensures Sorted(some) && Put(some, LAST.row) == full
    ensures StandingOf(TWO_OFFICES["B"], some, OfficeLevel) == Within
    ensures StandingOf(TWO_OFFICES["B"], full, OfficeLevel) == Over
  {
    TwentyCentsSpent(49);
    TwentyCentsSpent(50);
    StandsBy(some, 9.8);
    StandsBy(full, 10.0);
    PutLast(some, LAST.row);
  }

  lemma Pushing(full: seq<Row>, pushed: seq<Row>)
    requires full == TwentyCents(50) && pushed == Put(full, FREE.row)
    ensures pushed == [FREE.row] + full && Spent(TWO_OFFICES["B"], pushed, 0, OfficeLevel) == 9.8
    ensures StandingOf(TWO_OFFICES["B"], pushed, OfficeLevel) == Within
  {
    TwentyCentsSpent(50);
    SpentAfterPut(TWO_OFFICES["B"], full, FREE.row, 0, OfficeLevel);
    StandsBy(pushed, 9.8);
    LowestGoesFirst(full, FREE.row);
  }

  lemma Overflowing(pushed: seq<Row>)
    requires pushed == [FREE.row] + TwentyCents(50) && Spent(TWO_OFFICES["B"], pushed, 0, OfficeLevel) == 9.8
    ensures StandingOf(TWO_OFFICES["B"], Put(pushed, MORE.row), OfficeLevel) == Over
  {
    AllAreFiled(pushed, "B");
    SpentAfterPut(TWO_OFFICES["B"], pushed, MORE.row, 0, OfficeLevel);
    StandsBy(Put(pushed, MORE.row), 10.0);
  }

  lemma StoredOneMore(offices: map<string, Office>, rows: seq<Row>, posts: seq<Post>, n: nat)
    requires n < |posts| && posts[n].route in offices
    ensures Stored(offices, rows, posts, 0) == rows
    ensures Stored(offices, rows, posts, n + 1) == Put(Stored(offices, rows, posts, n), posts[n].row)
  {
  }

  lemma OverflowingRun(rows: seq<Row>, posts: seq<Post>)
    requires rows == TwentyCents(49) && posts == [LAST, FREE, MORE]
    ensures Sorted(rows)
    ensures StandsAfter(TWO_OFFICES, rows, posts, 0, "B", OfficeLevel) == Within
    ensures StandsAfter(TWO_OFFICES, rows, posts, 1, "B", OfficeLevel) == Over
    ensures StandsAfter(TWO_OFFICES, rows, posts, 2, "B", OfficeLevel) == Within
    ensures StandsAfter(TWO_OFFICES, rows, posts, 3, "B", OfficeLevel) == Over
  {
    TwoOfficesAreKeyed();
    StoredOneMore(TWO_OFFICES, rows, posts, 0);
    StoredOneMore(TWO_OFFICES, rows, posts, 1);
    StoredOneMore(TWO_OFFICES, rows, posts, 2);
    var full := Stored(TWO_OFFICES, rows, posts, 1);
    var pushed := Stored(TWO_OFFICES, rows, posts, 2);
    Filling(rows, TwentyCents(50));
    Pushing(full, pushed);
    Overflowing(pushed);
  }

  lemma OverflowingInOrder(rows: seq<Row>, posts: seq<Post>)
    requires rows == TwentyCents(49) && posts == [LAST, FREE, MORE]
    ensures InOrder(rows, posts) && NoRefunds(posts)
  {
  }

  /**
   * With fifty records at ten dollars in all, one free record with the lowest id makes an office that
   * was over its budget seem within it, and the next one announces that it is over a second time.
   */
  lemma AFullPageAnnouncesTwice(rows: seq<Row>, posts: seq<Post>)
    requires rows == TwentyCents(49) && posts == [LAST, FREE, MORE]
    ensures InOrder(rows, posts) && NoRefunds(posts)
    ensures StandsAfter(TWO_OFFICES, rows, posts, 2, "B", OfficeLevel) == Within
    ensures Announces(TWO_OFFICES, rows, posts, 0, "B", OfficeLevel, Over)
    ensures Announces(TWO_OFFICES, rows, posts, 2, "B", OfficeLevel, Over)
  {
    OverflowingInOrder(rows, posts);
    OverflowingRun(rows, posts);
    AnnouncedExactlyAtTheCrossing(TWO_OFFICES, rows, posts, 0, "B", OfficeLevel, Over);
    AnnouncedExactlyAtTheCrossing(TWO_OFFICES, rows, posts, 2, "B", OfficeLevel, Over);
    assert LevelsFor(TWO_OFFICES["B"], None)[0] == OfficeLevel;
  }

  lemma {:induction false} LowestGoesFirst(rows: seq<Row>, row: Row)
    requires forall r :: r in rows ==> IdAfter(r, row)
    ensures Put(rows, row) == [row] + rows
  {
    if rows != [] {
      LowestGoesFirst(rows[..|rows| - 1], row);
      assert rows == rows[..|rows| - 1] + [rows[|rows| - 1]];
    }
  }
}
