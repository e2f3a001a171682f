/** Benches: who on one of them is given the next piece of work, and which lists of them are accepted. */
module Bench {
  import opened Shared
  import opened Sorting
  import opened Pages

  type EmployeeId = string
  type Errors = seq<ValidationError>

  datatype Strategy = RoundRobin | Shootout | OtherStrategy(text: string)

  datatype Bench = Bench(
    id: string, name: string, memberIds: seq<EmployeeId>, strategy: Strategy, judgeId: Option<EmployeeId>)

  datatype Status = Active | Paused | Terminated

  datatype Member = Member(id: EmployeeId, status: Status)

  /** A task's id stands for its place in the order `localeCompare` gives ids. */
  datatype Placement = Placement(id: int, assigneeId: Option<EmployeeId>, benchId: Option<string>, createdAt: int)

  // ---- Whose turn it is ------------------------------------------------------

  function CanWork(members: seq<Member>): set<EmployeeId> {
    set m | m in members && m.status.Active? :: m.id
  }

  function Filtered(ids: seq<EmployeeId>, allowed: set<EmployeeId>): (r: seq<EmployeeId>)
    ensures forall x :: x in r <==> x in ids && x in allowed
  {
    if ids == [] then []
    else
      var n := |ids| - 1;
      assert forall x :: x in ids <==> x in ids[..n] || x == ids[n];
      Filtered(ids[..n], allowed) + if ids[n] in allowed then [ids[n]] else []
  }

  /** The bench's own order, narrowed to whoever can take work. */
  function Turn(bench: Bench, members: seq<Member>): seq<EmployeeId> {
    Filtered(bench.memberIds, CanWork(members))
  }

  function IndexOf(s: seq<EmployeeId>, x: EmployeeId): (i: int)
    ensures -1 <= i < |s|
    ensures i >= 0 ==> s[i] == x && x !in s[..i]
    ensures i == -1 ==> x !in s
  {
    if s == [] then -1
    else
      var n := |s| - 1;
      var i := IndexOf(s[..n], x);
      if i >= 0 then i else if s[n] == x then n else -1
  }

  predicate Newer(a: Placement, b: Placement) {
    a.createdAt > b.createdAt || (a.createdAt == b.createdAt && a.id > b.id)
  }

  function Own(bench: Bench, placed: seq<Placement>): (r: seq<Placement>)
    ensures forall p :: p in r <==> p in placed && p.benchId == Some(bench.id)
  {
    if placed == [] then []
    else
      var n := |placed| - 1;
      assert forall p :: p in placed <==> p in placed[..n] || p == placed[n];
      Own(bench, placed[..n]) + if placed[n].benchId == Some(bench.id) then [placed[n]] else []
  }

  function Newest(bench: Bench, placed: seq<Placement>): Option<Placement> {
    var sorted := Sort(Newer, Own(bench, placed));
    if sorted == [] then None else Some(sorted[|sorted| - 1])
  }

  /** Where the last placement left the turn, or -1 when it says nothing about it. */
  function LastAt(turn: seq<EmployeeId>, newest: Option<Placement>): (i: int)
    ensures -1 <= i < |turn|
  {
    if newest.None? || newest.value.assigneeId.None? then -1 else IndexOf(turn, newest.value.assigneeId.value)
  }

  function NextFromBench(bench: Bench, members: seq<Member>, placed: seq<Placement>): Option<EmployeeId> {
    NextInTurn(Turn(bench, members), Newest(bench, placed))
  }

  /** The place after the newest placement's, or the top when that says nothing. */
  function NextInTurn(turn: seq<EmployeeId>, newest: Option<Placement>): Option<EmployeeId> {
    if turn == [] then None else Some(turn[(LastAt(turn, newest) + 1) % |turn|])
  }

  datatype Choice = One(employeeId: EmployeeId) | Every(employeeIds: seq<EmployeeId>) | Nobody

  function PlaceOnBench(bench: Bench, members: seq<Member>, placed: seq<Placement>): Choice {
    if bench.strategy.Shootout? then
      var entrants := Filtered(bench.memberIds, CanWork(members));
      if entrants == [] then Nobody else Every(entrants)
    else
      match NextFromBench(bench, members, placed)
      case None => Nobody
      case Some(id) => One(id)
  }

  /** Nobody is chosen exactly when no member can take work, and nobody is ever chosen from outside the bench. */
  lemma ChoiceIsAmongActive(bench: Bench, members: seq<Member>, placed: seq<Placement>)
    ensures var choice := PlaceOnBench(bench, members, placed);
      && (choice.Nobody? <==> forall id :: id in bench.memberIds ==> Member(id, Active) !in members)
      && (choice.One? ==>
           && !bench.strategy.Shootout?
           && choice.employeeId in bench.memberIds && Member(choice.employeeId, Active) in members)
      && (choice.Every? ==>
           && bench.strategy.Shootout?
           && forall id :: id in choice.employeeIds <==> id in bench.memberIds && Member(id, Active) in members)
  {
    var turn := Turn(bench, members);
    assert forall id :: id in CanWork(members) <==> Member(id, Active) in members;
    assert turn == [] <==> forall id :: id in bench.memberIds ==> Member(id, Active) !in members by {
      if turn != [] { assert turn[0] in turn; }
    }
  }

  /** `some` are ids of `all`, each once, in the order `all` has them. */
  ghost predicate InOrderOf(some: seq<EmployeeId>, all: seq<EmployeeId>) {
    && (forall i :: 0 <= i < |some| ==> some[i] in all)
    && (forall i, j :: 0 <= i < j < |some| ==> IndexOf(all, some[i]) < IndexOf(all, some[j]))
  }

  lemma {:induction false} FilteredInOrder(ids: seq<EmployeeId>, allowed: set<EmployeeId>)
    requires NoRepeats(ids)
    ensures InOrderOf(Filtered(ids, allowed), ids)
  {
    if ids != [] {
      var n := |ids| - 1;
      FilteredInOrder(ids[..n], allowed);
      var front := Filtered(ids[..n], allowed);
      forall x | x in front ensures IndexOf(ids, x) == IndexOf(ids[..n], x) < n {
        assert x in ids[..n];
      }
      assert ids[n] !in ids[..n];
      assert IndexOf(ids, ids[n]) == n;
    }
  }

  /** The turn is every member that can take work, once, in the order of the bench; a shootout goes to just these. */
  lemma TurnIsTheBenchInOrder(bench: Bench, members: seq<Member>, placed: seq<Placement>)
    requires NoRepeats(bench.memberIds)
    ensures var turn := Turn(bench, members);
      && InOrderOf(turn, bench.memberIds) && NoRepeats(turn)
      && (forall id :: id in turn <==> id in bench.memberIds && Member(id, Active) in members)
      && (bench.strategy.Shootout? && turn != [] ==> PlaceOnBench(bench, members, placed) == Every(turn))
  {
    FilteredInOrder(bench.memberIds, CanWork(members));
    FilteredNoRepeats(bench.memberIds, CanWork(members));
    assert forall id :: id in CanWork(members) <==> Member(id, Active) in members;
  }

  // ---- The newest placement ---------------------------------------------------

  lemma NewerIsOrdering()
    ensures Ordering(Newer)
  {
  }

  /** Nothing the bench placed is newer than the placement its turn is read from. */
  lemma NewestIsNewest(bench: Bench, placed: seq<Placement>)
    ensures Newest(bench, placed).None? <==> forall p :: p in placed ==> p.benchId != Some(bench.id)
    ensures Newest(bench, placed).Some? ==>
      Newest(bench, placed).value in Own(bench, placed) &&
      forall p :: p in Own(bench, placed) ==> !Newer(p, Newest(bench, placed).value)
  {
    var own := Own(bench, placed);
    var sorted := Sort(Newer, own);
    NewerIsOrdering();
    SortOrders(Newer, own);
    SameBagSameMembers(sorted, own);
    if sorted == [] {
      assert own == [] by { assert |multiset(own)| == |multiset(sorted)|; }
    } else {
      assert sorted[|sorted| - 1] in sorted;
      LastIsNotAfter(sorted);
    }
  }

  lemma SameBagSameMembers(a: seq<Placement>, b: seq<Placement>)
    requires multiset(a) == multiset(b)
    ensures forall p :: p in a <==> p in b
  {
    forall p ensures p in a <==> p in b {
      assert p in a <==> p in multiset(a);
      assert p in b <==> p in multiset(b);
    }
  }

  lemma LastIsNotAfter(sorted: seq<Placement>)
    requires sorted != [] && Ordered(Newer, sorted)
    ensures forall p :: p in sorted ==> !Newer(p, sorted[|sorted| - 1])
  {
  }

  /** Among placements with ids of their own, only one is newest. */
  lemma OnlyOneNewest(bench: Bench, placed: seq<Placement>, p: Placement)
    requires forall a, b :: a in Own(bench, placed) && b in Own(bench, placed) && a.id == b.id ==> a == b
    requires p in Own(bench, placed) && forall q :: q in Own(bench, placed) ==> !Newer(q, p)
    ensures Newest(bench, placed) == Some(p)
  {
    NewestIsNewest(bench, placed);
  }

  /**
   * A turn starts at the top when the newest placement says nothing about it: it does not exist,
   * has no assignee, or has one who cannot take work now.
   */
  lemma NothingToFollowStartsAtTop(bench: Bench, members: seq<Member>, placed: seq<Placement>)
    requires Turn(bench, members) != []
    requires forall p :: IsNewest(bench, placed, p) ==>
      p.assigneeId.None? || p.assigneeId.value !in Turn(bench, members)
    ensures NextFromBench(bench, members, placed) == Some(Turn(bench, members)[0])
  {
    NewestIsNewest(bench, placed);
    var newest := Newest(bench, placed);
    assert newest.Some? ==> IsNewest(bench, placed, newest.value);
    assert LastAt(Turn(bench, members), newest) == -1;
  }

  ghost predicate IsNewest(bench: Bench, placed: seq<Placement>, p: Placement) {
    p in Own(bench, placed) && forall q :: q in Own(bench, placed) ==> !Newer(q, p)
  }

  /** The turn does not depend on the order the placements are handed over in. */
  lemma TurnIgnoresOrder(bench: Bench, members: seq<Member>, a: seq<Placement>, b: seq<Placement>)
    requires multiset(a) == multiset(b)
    requires forall p, q :: p in a && q in a && p.id == q.id ==> p == q
    ensures NextFromBench(bench, members, a) == NextFromBench(bench, members, b)
  {
    SameBagSameMembers(a, b);
    NewestIsNewest(bench, a);
    NewestIsNewest(bench, b);
    if Newest(bench, a).Some? {
      OnlyOneNewest(bench, b, Newest(bench, a).value);
    }
  }

  // ---- Fairness over whole runs ------------------------------------------------

  ghost predicate NoRepeats(s: seq<EmployeeId>) {
    forall i, j :: 0 <= i < j < |s| ==> s[i] != s[j]
  }

  lemma {:induction false} FilteredNoRepeats(ids: seq<EmployeeId>, allowed: set<EmployeeId>)
    requires NoRepeats(ids)
    ensures NoRepeats(Filtered(ids, allowed))
  {
    if ids != [] {
      var n := |ids| - 1;
      FilteredNoRepeats(ids[..n], allowed);
      var rest := Filtered(ids[..n], allowed);
      forall i | 0 <= i < |rest| ensures rest[i] != ids[n] {
        assert rest[i] in ids[..n];
      }
    }
  }

  /**
   * `ps` is work landing in the room after `earlier`: what this bench places goes to the one person
   * it answers with and is newer than everything it placed before; anything else may be anything.
   */
  ghost predicate Placing(bench: Bench, members: seq<Member>, earlier: seq<Placement>, ps: seq<Placement>) {
    ps == [] ||
    var n := |ps| - 1;
    Placing(bench, members, earlier, ps[..n]) && PlacedRightly(bench, members, earlier + ps[..n], ps[n])
  }

  ghost predicate PlacedRightly(bench: Bench, members: seq<Member>, before: seq<Placement>, p: Placement) {
    p.benchId == Some(bench.id) ==>
      PlacedWith(PlaceOnBench(bench, members, before), p) && Latest(bench, before, p)
  }

  /** A piece of work went to the one person the bench answered with, or to nobody. */
  predicate PlacedWith(choice: Choice, p: Placement) {
    match choice
    case One(id) => p.assigneeId == Some(id)
    case Nobody => p.assigneeId == None
    case Every(_) => false
  }

  /** Of a bench that is no shootout the answer is whoever is next. */
  lemma PlacedWithWhoeverIsNext(bench: Bench, members: seq<Member>, before: seq<Placement>, p: Placement)
    requires PlacedWith(PlaceOnBench(bench, members, before), p)
    ensures p.assigneeId == NextFromBench(bench, members, before)
  {
  }

  /** Who the bench gave work to, in order. */
  function Given(bench: Bench, ps: seq<Placement>): seq<Option<EmployeeId>> {
    if ps == [] then []
    else Given(bench, ps[..|ps| - 1]) +
         if ps[|ps| - 1].benchId == Some(bench.id) then [ps[|ps| - 1].assigneeId] else []
  }

  /** A stored cursor, moved on by one placement. */
  function Step(cursor: nat, m: nat): (r: nat)
    requires cursor < m
    ensures r < m
  {
    if cursor + 1 == m then 0 else cursor + 1
  }

  function CursorAfter(cursor: nat, n: nat, m: nat): (r: nat)
    requires cursor < m
    ensures r < m
  {
    if n == 0 then cursor else Step(CursorAfter(cursor, n - 1, m), m)
  }

  /** What a stored cursor starting at `cursor` and stepping round the turn hands out. */
  function Rotation(turn: seq<EmployeeId>, cursor: nat, n: nat): (r: seq<Option<EmployeeId>>)
    requires cursor < |turn|
    ensures |r| == n
  {
    if n == 0 then []
    else Rotation(turn, cursor, n - 1) + [Some(turn[CursorAfter(cursor, n - 1, |turn|)])]
  }

  function Cursor(bench: Bench, members: seq<Member>, earlier: seq<Placement>): (r: nat)
    requires Turn(bench, members) != []
    ensures r < |Turn(bench, members)|
  {
    var turn := Turn(bench, members);
    (LastAt(turn, Newest(bench, earlier)) + 1) % |turn|
  }

  lemma StepIsModular(cursor: nat, m: nat)
    requires cursor < m
    ensures (cursor + 1) % m == Step(cursor, m)
  {
  }

  /** Newer than everything the bench placed before. */
  ghost predicate Latest(bench: Bench, before: seq<Placement>, p: Placement) {
    forall q :: q in Own(bench, before) ==> Newer(p, q)
  }

  lemma OwnAppend(bench: Bench, a: seq<Placement>, p: Placement)
    ensures Own(bench, a + [p]) == Own(bench, a) + if p.benchId == Some(bench.id) then [p] else []
  {
  }

  /** A placement newer than all the bench made before is the newest. */
  lemma LatestIsNewest(bench: Bench, before: seq<Placement>, p: Placement)
    requires p.benchId == Some(bench.id)
    requires Latest(bench, before, p)
    ensures Newest(bench, before + [p]) == Some(p)
  {
    OwnAppend(bench, before, p);
    NewestIsNewest(bench, before + [p]);
    assert p in before + [p];
    var newest := Newest(bench, before + [p]).value;
    assert newest == p || newest in Own(bench, before);
  }

  /** The newest placement passes the turn to whoever comes after the person it went to. */
  lemma TurnPasses(bench: Bench, members: seq<Member>, before: seq<Placement>, p: Placement, at: nat)
    requires NoRepeats(bench.memberIds) && at < |Turn(bench, members)|
    requires p.benchId == Some(bench.id) && p.assigneeId == Some(Turn(bench, members)[at])
    requires Latest(bench, before, p)
    ensures NextFromBench(bench, members, before + [p])
         == Some(Turn(bench, members)[Step(at, |Turn(bench, members)|)])
  {
    var turn := Turn(bench, members);
    LatestIsNewest(bench, before, p);
    FilteredNoRepeats(bench.memberIds, CanWork(members));
    assert IndexOf(turn, turn[at]) == at;
    StepIsModular(at, |turn|);
  }

  lemma OthersDoNotMatter(bench: Bench, members: seq<Member>, before: seq<Placement>, p: Placement)
    requires p.benchId != Some(bench.id)
    ensures NextFromBench(bench, members, before + [p]) == NextFromBench(bench, members, before)
  {
    OwnAppend(bench, before, p);
    assert Own(bench, before + [p]) == Own(bench, before);
    assert Newest(bench, before + [p]) == Newest(bench, before);
  }

  /** A cursor that started at `start` has handed out `given`, and points to `next`. */
  ghost predicate AtCursor(
    turn: seq<EmployeeId>, start: nat, given: seq<Option<EmployeeId>>, next: Option<EmployeeId>)
    requires start < |turn|
  {
    given == Rotation(turn, start, |given|) && next == Some(turn[CursorAfter(start, |given|, |turn|)])
  }

  /** `ps` went to whoever a cursor starting at `start` pointed to, and the turn is now where it points. */
  ghost predicate FollowsCursor(
    bench: Bench, members: seq<Member>, earlier: seq<Placement>, ps: seq<Placement>, start: nat)
    requires start < |Turn(bench, members)|
  {
    AtCursor(Turn(bench, members), start, Given(bench, ps), NextFromBench(bench, members, earlier + ps))
  }

  /**
   * While the roster stands, the turn read off past work is a stored cursor: the bench's
   * placements are the cursor's, however other work is interleaved, and so is whoever is next.
   */
  lemma {:induction false} DerivedTurnIsCursor(
    bench: Bench, members: seq<Member>, earlier: seq<Placement>, ps: seq<Placement>)
    requires NoRepeats(bench.memberIds) && Turn(bench, members) != []
    requires Placing(bench, members, earlier, ps)
    ensures FollowsCursor(bench, members, earlier, ps, Cursor(bench, members, earlier))
  {
    var start := Cursor(bench, members, earlier);
    if ps == [] {
      assert earlier + ps == earlier;
    } else {
      DerivedTurnIsCursor(bench, members, earlier, ps[..|ps| - 1]);
      CursorStep(bench, members, earlier, ps, start);
    }
  }

  lemma GivenOneMore(bench: Bench, ps: seq<Placement>)
    requires ps != []
    ensures var before, p := ps[..|ps| - 1], ps[|ps| - 1];
      Given(bench, ps) == Given(bench, before) + if p.benchId == Some(bench.id) then [p.assigneeId] else []
  {
  }

  lemma CursorStep(bench: Bench, members: seq<Member>, earlier: seq<Placement>, ps: seq<Placement>, start: nat)
    requires NoRepeats(bench.memberIds) && start < |Turn(bench, members)|
    requires ps != [] && PlacedRightly(bench, members, earlier + ps[..|ps| - 1], ps[|ps| - 1])
    requires FollowsCursor(bench, members, earlier, ps[..|ps| - 1], start)
    ensures FollowsCursor(bench, members, earlier, ps, start)
  {
    var k := |ps| - 1;
    var p, before := ps[k], earlier + ps[..k];
    assert earlier + ps == before + [p];
    GivenOneMore(bench, ps);
    if p.benchId == Some(bench.id) {
      PlacedWithWhoeverIsNext(bench, members, before, p);
      OwnCursorStep(bench, members, before, Given(bench, ps[..k]), p, start);
    } else {
      OthersDoNotMatter(bench, members, before, p);
      assert Given(bench, ps) == Given(bench, ps[..k]);
    }
  }

  lemma OwnCursorStep(
    bench: Bench, members: seq<Member>, before: seq<Placement>, given: seq<Option<EmployeeId>>, p: Placement, start: nat)
    requires NoRepeats(bench.memberIds) && start < |Turn(bench, members)|
    requires p.benchId == Some(bench.id) && Latest(bench, before, p)
    requires p.assigneeId == NextFromBench(bench, members, before)
    requires AtCursor(Turn(bench, members), start, given, NextFromBench(bench, members, before))
    ensures AtCursor(Turn(bench, members), start, given + [p.assigneeId], NextFromBench(bench, members, before + [p]))
  {
    TurnPasses(bench, members, before, p, CursorAfter(start, |given|, |Turn(bench, members)|));
  }

  lemma {:induction false} RotationJoin(turn: seq<EmployeeId>, cursor: nat, a: nat, b: nat, n: nat)
    requires cursor < |turn| && a + b == n
    ensures CursorAfter(cursor, n, |turn|) == CursorAfter(CursorAfter(cursor, a, |turn|), b, |turn|)
    ensures Rotation(turn, cursor, n)
         == Rotation(turn, cursor, a) + Rotation(turn, CursorAfter(cursor, a, |turn|), b)
  {
    if b > 0 {
      RotationJoin(turn, cursor, a, b - 1, n - 1);
    }
  }

  function Somes(s: seq<EmployeeId>): (r: seq<Option<EmployeeId>>)
    ensures |r| == |s| && forall i :: 0 <= i < |s| ==> r[i] == Some(s[i])
  {
    seq(|s|, i requires 0 <= i < |s| => Some(s[i]))
  }

  lemma {:induction false} CountOfSomes(s: seq<EmployeeId>, x: EmployeeId)
    requires NoRepeats(s)
    ensures multiset(Somes(s))[Some(x)] == if x in s then 1 else 0
  {
    if s != [] {
      var n := |s| - 1;
      CountOfSomes(s[..n], x);
      assert Somes(s) == Somes(s[..n]) + [Some(s[n])];
      assert s == s[..n] + [s[n]];
    }
  }

  lemma {:induction false} RotationStraight(turn: seq<EmployeeId>, cursor: nat, k: nat)
    requires cursor < |turn| && cursor + k <= |turn|
    ensures Rotation(turn, cursor, k) == Somes(turn)[cursor..cursor + k]
    ensures CursorAfter(cursor, k, |turn|) == if cursor + k == |turn| then 0 else cursor + k
  {
    if k > 0 {
      RotationStraight(turn, cursor, k - 1);
    }
  }

  /** A full round runs to the end of the turn and then wraps to where it began. */
  lemma RoundWraps(turn: seq<EmployeeId>, cursor: nat, k: nat, m: nat)
    requires cursor < m && k + cursor == m == |turn|
    ensures Rotation(turn, cursor, m) == Somes(turn)[cursor..] + Somes(turn)[..cursor]
    ensures CursorAfter(cursor, m, m) == cursor
  {
    RotationStraight(turn, cursor, k);
    RotationStraight(turn, 0, cursor);
    RotationJoin(turn, cursor, k, cursor, m);
  }

  lemma SwapHalves<T>(s: seq<T>, k: nat)
    requires k <= |s|
    ensures multiset(s[k..] + s[..k]) == multiset(s)
  {
    assert s == s[..k] + s[k..];
  }

  /** One full round of the cursor, from anywhere, is everybody once. */
  lemma RoundIsEverybody(turn: seq<EmployeeId>, cursor: nat, m: nat)
    requires cursor < m == |turn|
    ensures multiset(Rotation(turn, cursor, m)) == multiset(Somes(turn))
  {
    RoundWraps(turn, cursor, m - cursor, m);
    SwapHalves(Somes(turn), cursor);
  }

  /** How many placements went to somebody. */
  function Count(given: seq<Option<EmployeeId>>, x: EmployeeId): nat {
    multiset(given)[Some(x)]
  }

  lemma RoundCounts(turn: seq<EmployeeId>, cursor: nat, m: nat, x: EmployeeId)
    requires NoRepeats(turn) && x in turn && cursor < m == |turn|
    ensures Count(Rotation(turn, cursor, m), x) == 1
  {
    RoundIsEverybody(turn, cursor, m);
    CountOfSomes(turn, x);
  }

  lemma CountSplits(a: seq<Option<EmployeeId>>, b: seq<Option<EmployeeId>>, x: EmployeeId)
    ensures Count(a + b, x) == Count(a, x) + Count(b, x)
  {
  }

  lemma RotationCounts(turn: seq<EmployeeId>, cursor: nat, a: nat, b: nat, n: nat, x: EmployeeId)
    requires cursor < |turn| && a + b == n
    ensures Count(Rotation(turn, cursor, n), x)
         == Count(Rotation(turn, cursor, a), x) + Count(Rotation(turn, CursorAfter(cursor, a, |turn|), b), x)
  {
    RotationJoin(turn, cursor, a, b, n);
    CountSplits(Rotation(turn, cursor, a), Rotation(turn, CursorAfter(cursor, a, |turn|), b), x);
  }

  lemma RotationParts(turn: seq<EmployeeId>, cursor: nat, a: nat, b: nat, n: nat)
    requires cursor < |turn| && a + b == n
    ensures Rotation(turn, cursor, n)[..a] == Rotation(turn, cursor, a)
    ensures Rotation(turn, cursor, n)[a..] == Rotation(turn, CursorAfter(cursor, a, |turn|), b)
  {
    RotationJoin(turn, cursor, a, b, n);
  }

  /** Any full window of a rotation is a round of its own. */
  lemma WindowIsARound(turn: seq<EmployeeId>, cursor: nat, k: nat, m: nat, rest: nat, n: nat)
    requires cursor < |turn| == m && k + (m + rest) == n
    ensures Rotation(turn, cursor, n)[k..k + m] == Rotation(turn, CursorAfter(cursor, k, m), m)
  {
    var given := Rotation(turn, cursor, n);
    RotationParts(turn, cursor, k, m + rest, n);
    RotationParts(turn, CursorAfter(cursor, k, m), m, rest, m + rest);
    assert given[k..k + m] == given[k..][..m];
  }

  lemma WithinARound(turn: seq<EmployeeId>, cursor: nat, n: nat, m: nat, x: EmployeeId)
    requires NoRepeats(turn) && x in turn && cursor < m == |turn| && n <= m
    ensures Count(Rotation(turn, cursor, n), x) <= 1
  {
    RoundCounts(turn, cursor, m, x);
    RotationCounts(turn, cursor, n, m - n, m, x);
  }

  lemma RoundThenRest(turn: seq<EmployeeId>, cursor: nat, m: nat, rest: nat, n: nat, x: EmployeeId)
    requires NoRepeats(turn) && x in turn && cursor < m == |turn| && m + rest == n
    ensures Count(Rotation(turn, cursor, n), x) == 1 + Count(Rotation(turn, cursor, rest), x)
  {
    RoundWraps(turn, cursor, m - cursor, m);
    RotationCounts(turn, cursor, m, rest, n, x);
    RoundCounts(turn, cursor, m, x);
  }

  /** A stored cursor never lets two people drift two placements apart. */
  lemma {:induction false} RotationIsEven(turn: seq<EmployeeId>, cursor: nat, n: nat, x: EmployeeId, y: EmployeeId)
    requires NoRepeats(turn) && x in turn && y in turn && cursor < |turn|
    ensures Count(Rotation(turn, cursor, n), x) <= Count(Rotation(turn, cursor, n), y) + 1
    decreases n
  {
    var m := |turn|;
    if n < m {
      WithinARound(turn, cursor, n, m, x);
    } else {
      var rest := n - m;
      RotationIsEven(turn, cursor, rest, x, y);
      RoundThenRest(turn, cursor, m, rest, n, x);
      RoundThenRest(turn, cursor, m, rest, n, y);
    }
  }

  lemma {:induction false} RotationHandsToMembers(turn: seq<EmployeeId>, cursor: nat, n: nat)
    requires cursor < |turn|
    ensures forall g :: g in Rotation(turn, cursor, n) ==> g.Some? && g.value in turn
  {
    if n > 0 {
      RotationHandsToMembers(turn, cursor, n - 1);
    }
  }

  /** The placements from the k-th on, one for each member, went to every member once. */
  ghost predicate RoundFrom(given: seq<Option<EmployeeId>>, k: nat, turn: seq<EmployeeId>)
    requires k + |turn| <= |given|
  {
    forall x :: x in turn ==> Count(given[k..k + |turn|], x) == 1
  }

  /**
   * Any m placements in a row went to each of the m members of the turn exactly once, and nobody was
   * ever given two placements more than anybody else, or from outside the turn.
   */
  ghost predicate Fair(turn: seq<EmployeeId>, given: seq<Option<EmployeeId>>) {
    && (forall k: nat :: k + |turn| <= |given| ==> RoundFrom(given, k, turn))
    && (forall x, y :: x in turn && y in turn ==> Count(given, x) <= Count(given, y) + 1)
    && (forall g :: g in given ==> g.Some? && g.value in turn)
  }

  lemma {:induction false} RotationIsFair(turn: seq<EmployeeId>, cursor: nat, n: nat)
    requires NoRepeats(turn) && cursor < |turn|
    ensures Fair(turn, Rotation(turn, cursor, n))
  {
    var given := Rotation(turn, cursor, n);
    forall k: nat | k + |turn| <= |given| ensures RoundFrom(given, k, turn) {
      WindowIsARound(turn, cursor, k, |turn|, n - k - |turn|, n);
      forall x | x in turn ensures Count(given[k..k + |turn|], x) == 1 {
        RoundCounts(turn, CursorAfter(cursor, k, |turn|), |turn|, x);
      }
    }
    forall x, y | x in turn && y in turn
      ensures Count(given, x) <= Count(given, y) + 1
    {
      RotationIsEven(turn, cursor, n, x, y);
    }
    RotationHandsToMembers(turn, cursor, n);
  }

  // ---- What the server hands over ------------------------------------------------------

  predicate TaskAfter(a: Placement, b: Placement) { a.id > b.id }

  /** The server reads the room's work a page at a time, and hands over the first page. */
  function Handed(placed: seq<Placement>): seq<Placement> {
    FirstPage(Sort(TaskAfter, placed))
  }

  /** The same as `Placing`, with the turn read off what the server hands over. */
  ghost predicate PlacingByPage(bench: Bench, members: seq<Member>, earlier: seq<Placement>, ps: seq<Placement>) {
    ps == [] ||
    var n := |ps| - 1;
    PlacingByPage(bench, members, earlier, ps[..n]) &&
    (ps[n].benchId == Some(bench.id) ==>
      && PlacedWith(PlaceOnBench(bench, members, Handed(earlier + ps[..n])), ps[n])
      && Latest(bench, earlier + ps[..n], ps[n]))
  }

  ghost predicate OwnTaskIds(placed: seq<Placement>) {
    forall p, q :: p in placed && q in placed && p.id == q.id ==> p == q
  }

  lemma TaskAfterIsOrdering()
    ensures Ordering(TaskAfter)
  {
  }

  /** While the room's work fits a page the turn is read off all of it. */
  lemma OnePageIsEverything(bench: Bench, members: seq<Member>, placed: seq<Placement>)
    requires |placed| <= PAGE_SIZE && OwnTaskIds(placed)
    ensures NextFromBench(bench, members, Handed(placed)) == NextFromBench(bench, members, placed)
    ensures PlaceOnBench(bench, members, Handed(placed)) == PlaceOnBench(bench, members, placed)
  {
    TaskAfterIsOrdering();
    SortOrders(TaskAfter, placed);
    var sorted := Sort(TaskAfter, placed);
    assert |sorted| == |multiset(sorted)| == |multiset(placed)| == |placed|;
    TurnIgnoresOrder(bench, members, placed, sorted);
  }

  lemma {:induction false} PlacingOnOnePage(
    bench: Bench, members: seq<Member>, earlier: seq<Placement>, ps: seq<Placement>)
    requires PlacingByPage(bench, members, earlier, ps)
    requires |earlier| + |ps| <= PAGE_SIZE + 1 && OwnTaskIds(earlier + ps)
    ensures Placing(bench, members, earlier, ps)
  {
    if ps != [] {
      var n := |ps| - 1;
      var before := earlier + ps[..n];
      forall p | p in before ensures p in earlier + ps {
        assert earlier + ps == before + [ps[n]];
      }
      PlacingOnOnePage(bench, members, earlier, ps[..n]);
      OnePageIsEverything(bench, members, before);
    }
  }

  lemma LaterTaskStaysOff(placed: seq<Placement>, p: Placement)
    requires |placed| >= PAGE_SIZE && forall q :: q in placed ==> q.id < p.id
    ensures Handed(placed + [p]) == Handed(placed)
  {
    var sorted := Sort(TaskAfter, placed);
    TaskAfterIsOrdering();
    SortOrders(TaskAfter, placed);
    assert |sorted| == |multiset(sorted)| == |multiset(placed)| == |placed|;
    SameBagSameMembers(sorted, placed);
    assert sorted[PAGE_SIZE - 1] in sorted;
    PageAfterInsert(TaskAfter, sorted, p);
    assert (placed + [p])[..|placed|] == placed;
  }

  /**
   * In a room with more work than a page, a task placed under a later id does not pass the turn on:
   * the next one goes to the same person.
   */
  lemma PastAPageTheTurnStands(bench: Bench, members: seq<Member>, placed: seq<Placement>, p: Placement)
    requires |placed| >= PAGE_SIZE && forall q :: q in placed ==> q.id < p.id
    ensures NextFromBench(bench, members, Handed(placed + [p])) == NextFromBench(bench, members, Handed(placed))
    ensures PlaceOnBench(bench, members, Handed(placed + [p])) == PlaceOnBench(bench, members, Handed(placed))
  {
    LaterTaskStaysOff(placed, p);
  }

  // ---- What a list of benches must look like -----------------------------------

  function At(index: nat): string {
    "benches[" + Decimal(index) + "]"
  }

  function Seen(bench: Bench, seen: map<string, string>, n: nat): map<string, string>
    requires n <= |bench.memberIds|
  {
    if n == 0 then seen
    else
      var before := Seen(bench, seen, n - 1);
      if bench.memberIds[n - 1] in before then before else before[bench.memberIds[n - 1] := bench.name]
  }

  function AlreadySeated(index: nat, position: nat, id: EmployeeId, bench: string): ValidationError {
    ValidationError(At(index) + ".memberIds[" + Decimal(position) + "]",
      "\"" + id + "\" is already on the \"" + bench + "\" bench")
  }

  function PerMember(bench: Bench, index: nat, seen: map<string, string>): (r: seq<Errors>)
    ensures |r| == |bench.memberIds|
    ensures forall i :: 0 <= i < |r| ==> r[i] == MemberError(bench, index, seen, i)
  {
    seq(|bench.memberIds|, i requires 0 <= i < |bench.memberIds| => MemberError(bench, index, seen, i))
  }

  function MemberError(bench: Bench, index: nat, seen: map<string, string>, i: nat): Errors
    requires i < |bench.memberIds|
  {
    var id, before := bench.memberIds[i], Seen(bench, seen, i);
    if id in before then [AlreadySeated(index, i, id, before[id])] else []
  }

  function MemberErrors(bench: Bench, index: nat, seen: map<string, string>): Errors {
    Flatten(PerMember(bench, index, seen))
  }

  function OwnErrors(bench: Bench, index: nat, seenIds: set<string>): Errors {
    (if Trim(bench.name) == "" then [ValidationError(At(index) + ".name", "must not be empty")] else []) +
    (if bench.id == "" then [ValidationError(At(index) + ".id", "must be an id")]
     else if bench.id in seenIds then [ValidationError(At(index) + ".id", "duplicate bench id \"" + bench.id + "\"")]
     else []) +
    (if bench.strategy.OtherStrategy?
     then [ValidationError(At(index) + ".strategy", "must be one of round_robin, shootout")] else []) +
    (if bench.judgeId.Some? && bench.judgeId.value in bench.memberIds
     then [ValidationError(At(index) + ".judgeId", "\"" + bench.judgeId.value + "\" is on this bench, so cannot judge it")]
     else [])
  }

  /** What is said of a bench of its own, and where. */
  lemma OwnErrorsSay(bench: Bench, index: nat, seenIds: set<string>, e: ValidationError)
    ensures var path := "benches[" + Decimal(index) + "]";
      e in OwnErrors(bench, index, seenIds) <==>
        || (Trim(bench.name) == "" && e == ValidationError(path + ".name", "must not be empty"))
        || (bench.id == "" && e == ValidationError(path + ".id", "must be an id"))
        || (bench.id != "" && bench.id in seenIds
            && e == ValidationError(path + ".id", "duplicate bench id \"" + bench.id + "\""))
        || (bench.strategy.OtherStrategy?
            && e == ValidationError(path + ".strategy", "must be one of round_robin, shootout"))
        || (bench.judgeId.Some? && bench.judgeId.value in bench.memberIds
            && e == ValidationError(path + ".judgeId",
                 "\"" + bench.judgeId.value + "\" is on this bench, so cannot judge it"))
  {
  }

  /** Whoever has a seat has it on the bench they were first named on. */
  lemma {:induction false} SeatedOn(bench: Bench, seen: map<string, string>, n: nat, id: EmployeeId)
    requires n <= |bench.memberIds|
    ensures id in Seen(bench, seen, n) <==> id in seen || id in bench.memberIds[..n]
    ensures id in seen ==> Seen(bench, seen, n)[id] == seen[id]
    ensures id !in seen && id in bench.memberIds[..n] ==> Seen(bench, seen, n)[id] == bench.name
  {
    if n > 0 {
      SeatedOn(bench, seen, n - 1, id);
      assert bench.memberIds[..n] == bench.memberIds[..n - 1] + [bench.memberIds[n - 1]];
    }
  }

  /** A second seat is reported where it stands, with the bench that has the first. */
  lemma MemberErrorSays(bench: Bench, index: nat, seen: map<string, string>, i: nat)
    requires i < |bench.memberIds|
    ensures var id, path := bench.memberIds[i], "benches[" + Decimal(index) + "]";
      MemberError(bench, index, seen, i) ==
        if id !in seen && id !in bench.memberIds[..i] then []
        else [ValidationError(path + ".memberIds[" + Decimal(i) + "]",
                "\"" + id + "\" is already on the \"" + (if id in seen then seen[id] else bench.name) + "\" bench")]
  {
    SeatedOn(bench, seen, i, bench.memberIds[i]);
  }

  function SeenBefore(benches: seq<Bench>, n: nat): map<string, string>
    requires n <= |benches|
  {
    if n == 0 then map[] else Seen(benches[n - 1], SeenBefore(benches, n - 1), |benches[n - 1].memberIds|)
  }

  function OneBenchErrors(benches: seq<Bench>, n: nat): Errors
    requires n < |benches|
  {
    OwnErrors(benches[n], n, IdsBefore(benches, n)) +
    MemberErrors(benches[n], n, SeenBefore(benches, n))
  }

  function PerBench(benches: seq<Bench>): (r: seq<Errors>)
    ensures |r| == |benches| && forall i :: 0 <= i < |benches| ==> r[i] == OneBenchErrors(benches, i)
  {
    seq(|benches|, i requires 0 <= i < |benches| => OneBenchErrors(benches, i))
  }

  ghost predicate Sound(b: Bench) {
    && Trim(b.name) != "" && b.id != "" && !b.strategy.OtherStrategy?
    && (b.judgeId.Some? ==> b.judgeId.value !in b.memberIds)
    && NoRepeats(b.memberIds)
  }

  ghost predicate Apart(a: Bench, b: Bench) {
    a.id != b.id && forall x :: x in a.memberIds ==> x !in b.memberIds
  }

  /** A bench is sound by itself, and shares neither id nor members with any before it. */
  ghost predicate Fits(benches: seq<Bench>, i: nat)
    requires i < |benches|
  {
    Sound(benches[i]) && forall j :: 0 <= j < i ==> Apart(benches[j], benches[i])
  }

  /** Every bench is sound, ids are distinct, and nobody sits on two seats anywhere. */
  ghost predicate Shape(benches: seq<Bench>) {
    forall i :: 0 <= i < |benches| ==> Fits(benches, i)
  }

  lemma SeenKeys(bench: Bench, seen: map<string, string>, n: nat)
    requires n <= |bench.memberIds|
    ensures forall x :: x in Seen(bench, seen, n) <==> x in seen || x in bench.memberIds[..n]
  {
    forall x ensures x in Seen(bench, seen, n) <==> x in seen || x in bench.memberIds[..n] {
      SeatedOn(bench, seen, n, x);
    }
  }

  lemma EachOnce(ids: seq<EmployeeId>)
    ensures NoRepeats(ids) <==> forall i :: 0 <= i < |ids| ==> ids[i] !in ids[..i]
  {
  }

  /** A bench's members pass when nobody is on it twice or was seated before. */
  lemma MembersCheck(bench: Bench, index: nat, seen: map<string, string>)
    ensures MemberErrors(bench, index, seen) == []
       <==> NoRepeats(bench.memberIds) && forall x :: x in bench.memberIds ==> x !in seen
  {
    var ids, per := bench.memberIds, PerMember(bench, index, seen);
    FlattenEmpty(per);
    forall i | 0 <= i < |ids| ensures per[i] == [] <==> ids[i] !in seen && ids[i] !in ids[..i] {
      SeenKeys(bench, seen, i);
    }
    EachOnce(ids);
  }

  lemma {:induction false} SeenBeforeIs(benches: seq<Bench>, n: nat)
    requires n <= |benches|
    ensures forall x :: x in SeenBefore(benches, n) <==> exists i :: 0 <= i < n && x in benches[i].memberIds
  {
    if n > 0 {
      var b := benches[n - 1];
      SeenBeforeIs(benches, n - 1);
      SeenKeys(b, SeenBefore(benches, n - 1), |b.memberIds|);
      assert b.memberIds[..|b.memberIds|] == b.memberIds;
    }
  }

  lemma SeenByNone(benches: seq<Bench>, n: nat)
    requires n < |benches|
    ensures (forall x :: x in benches[n].memberIds ==> x !in SeenBefore(benches, n))
       <==> forall i, x :: 0 <= i < n && x in benches[i].memberIds ==> x !in benches[n].memberIds
  {
    SeenBeforeIs(benches, n);
  }

  lemma BenchCheck(benches: seq<Bench>, n: nat)
    requires n < |benches|
    ensures OneBenchErrors(benches, n) == [] <==> Fits(benches, n)
  {
    var b, seen := benches[n], SeenBefore(benches, n);
    var ids := IdsBefore(benches, n);
    assert |OneBenchErrors(benches, n)| == |OwnErrors(b, n, ids)| + |MemberErrors(b, n, seen)|;
    MembersCheck(b, n, seen);
    SeenByNone(benches, n);
    assert b.id in ids <==> exists i :: 0 <= i < n && benches[i].id == b.id;
  }

  /** The checks one bench at a time find nothing exactly when the whole list has the shape. */
  lemma ShapeIffNoErrors(benches: seq<Bench>)
    ensures Flatten(PerBench(benches)) == [] <==> Shape(benches)
  {
    var per := PerBench(benches);
    FlattenEmpty(per);
    forall i | 0 <= i < |benches| ensures per[i] == [] <==> Fits(benches, i) {
      BenchCheck(benches, i);
    }
    assert Shape(benches) ==> forall i :: 0 <= i < |per| ==> per[i] == [];
  }

  /** Every bench of an accepted list shares its work fairly among whoever on it can work. */
  lemma AcceptedBenchIsFair(
    benches: seq<Bench>, k: nat, members: seq<Member>, earlier: seq<Placement>, ps: seq<Placement>)
    requires k < |benches| && Shape(benches) && Turn(benches[k], members) != []
    requires Placing(benches[k], members, earlier, ps)
    ensures Fair(Turn(benches[k], members), Given(benches[k], ps))
  {
    var bench := benches[k];
    assert Fits(benches, k);
    DerivedTurnIsCursor(bench, members, earlier, ps);
    FilteredNoRepeats(bench.memberIds, CanWork(members));
    RotationIsFair(Turn(bench, members), Cursor(bench, members, earlier), |Given(bench, ps)|);
  }

  /** So does every such bench at the server, while the work in its room fits a page. */
  lemma AcceptedBenchIsFairOnOnePage(
    benches: seq<Bench>, k: nat, members: seq<Member>, earlier: seq<Placement>, ps: seq<Placement>)
    requires k < |benches| && Shape(benches) && Turn(benches[k], members) != []
    requires PlacingByPage(benches[k], members, earlier, ps)
    requires |earlier| + |ps| <= PAGE_SIZE + 1 && OwnTaskIds(earlier + ps)
    ensures Fair(Turn(benches[k], members), Given(benches[k], ps))
  {
    PlacingOnOnePage(benches[k], members, earlier, ps);
    AcceptedBenchIsFair(benches, k, members, earlier, ps);
  }

  /** One seat: taken, unless somebody already has the person. */
  method SeatOne(bench: Bench, index: nat, ghost seen: map<string, string>, position: nat, before: map<string, string>)
    returns (found: Errors, after: map<string, string>)
    requires position < |bench.memberIds| && before == Seen(bench, seen, position)
    ensures found == MemberError(bench, index, seen, position) && after == Seen(bench, seen, position + 1)
  {
    var id := bench.memberIds[position];
    found, after := [], before;
    if id in before {
      found := [AlreadySeated(index, position, id, before[id])];
    } else {
      after := before[id := bench.name];
    }
  }

  /** One bench's members, each checked against everyone seated before. */
  method SeatMembers(bench: Bench, index: nat, seen: map<string, string>) returns (errors: Errors, after: map<string, string>)
    ensures errors == MemberErrors(bench, index, seen)
    ensures after == Seen(bench, seen, |bench.memberIds|)
  {
    ghost var per := PerMember(bench, index, seen);
    FlattenAll(per);
    errors, after := [], seen;
    for position := 0 to |bench.memberIds|
      invariant after == Seen(bench, seen, position)
      invariant errors == Flatten(per[..position])
    {
      FlattenOneMore(per, position);
      var found;
      found, after := SeatOne(bench, index, seen, position, after);
      errors := errors + found;
    }
  }

  function IdsBefore(benches: seq<Bench>, n: nat): set<string>
    requires n <= |benches|
  {
    set i | 0 <= i < n :: benches[i].id
  }

  /** Checks one bench against the ones before it, and takes its id and seats. */
  method CheckBench(benches: seq<Bench>, index: nat, seenIds: set<string>, seenMembers: map<string, string>)
    returns (errors: Errors, ids: set<string>, seats: map<string, string>)
    requires index < |benches|
    requires seenIds == IdsBefore(benches, index) && seenMembers == SeenBefore(benches, index)
    ensures errors == OneBenchErrors(benches, index)
    ensures ids == IdsBefore(benches, index + 1) && seats == SeenBefore(benches, index + 1)
  {
    var bench := benches[index];
    var seatErrors;
    seatErrors, seats := SeatMembers(bench, index, seenMembers);
    errors := OwnErrors(bench, index, seenIds) + seatErrors;
    ids := seenIds + {bench.id};
  }

  /** The benches as they are kept: as given, with their names trimmed. */
  function Trimmed(benches: seq<Bench>): (r: seq<Bench>)
    ensures |r| == |benches|
    ensures forall i :: 0 <= i < |benches| ==> r[i] == benches[i].(name := Trim(benches[i].name))
  {
    seq(|benches|, i requires 0 <= i < |benches| => benches[i].(name := Trim(benches[i].name)))
  }

  method ValidateBenchShape(benches: seq<Bench>) returns (r: Result<seq<Bench>, Errors>)
    ensures r.Ok? <==> Shape(benches)
    ensures r.Err? ==> r.error == Flatten(PerBench(benches))
    ensures r.Ok? ==> r.value == Trimmed(benches)
  {
    ghost var per := PerBench(benches);
    FlattenAll(per);
    var errors: Errors := [];
    var seenIds: set<string> := {};
    var seenMembers: map<string, string> := map[];
    for index := 0 to |benches|
      invariant errors == Flatten(per[..index])
      invariant seenIds == IdsBefore(benches, index)
      invariant seenMembers == SeenBefore(benches, index)
    {
      FlattenOneMore(per, index);
      var found;
      found, seenIds, seenMembers := CheckBench(benches, index, seenIds, seenMembers);
      errors := errors + found;
    }
    ShapeIffNoErrors(benches);
    if |errors| > 0 { return Err(errors); }
    return Ok(Trimmed(benches));
  }
}
