/**
 * What a well-formed set of arrows between departments is, stated without reference to any
 * order of insertion, and the graph theory that checking one arrow at a time rests on.
 */
module ConnectionGraph {

  type DepartmentId = string

  /** The six kinds of connection; `Unknown` is any other value a request may carry. */
  datatype Kind =
    | ReportsTo | Collaborates | Handoff | Reviews | EscalatesTo | Watches
    | Unknown(text: string)

  datatype Edge = Edge(fromId: DepartmentId, toId: DepartmentId, kind: Kind)

  predicate IsKind(k: Kind) { !k.Unknown? }

  /** Lines of command: following them must never lead back. */
  predicate IsAcyclicKind(k: Kind) { k.ReportsTo? || k.EscalatesTo? }

  /** Drawn in either direction, such an arrow means the same. */
  predicate IsUndirectedKind(k: Kind) { k.Collaborates? }

  predicate SameEdge(a: Edge, b: Edge) {
    a.kind == b.kind &&
    ((a.fromId == b.fromId && a.toId == b.toId) ||
     (IsUndirectedKind(a.kind) && a.fromId == b.toId && a.toId == b.fromId))
  }

  // ---- Walks and reachability ----------------------------------------------

  /** The departments of `p`, in order, are joined by edges of kind `k`. */
  ghost predicate Walk(E: set<Edge>, k: Kind, p: seq<DepartmentId>) {
    |p| > 0 && (|p| > 1 ==> Edge(p[0], p[1], k) in E && Walk(E, k, p[1..]))
  }

  ghost predicate Joins(E: set<Edge>, k: Kind, p: seq<DepartmentId>, a: DepartmentId, b: DepartmentId) {
    Walk(E, k, p) && p[0] == a && p[|p| - 1] == b
  }

  /** A possibly empty directed path of kind `k` leads from `a` to `b`. */
  ghost predicate Reaches(E: set<Edge>, k: Kind, a: DepartmentId, b: DepartmentId) {
    exists p :: Joins(E, k, p, a, b)
  }

  /** No walk of one step or more comes back to where it started. */
  ghost predicate Acyclic(E: set<Edge>, k: Kind) {
    forall p :: Walk(E, k, p) && |p| >= 2 ==> p[0] != p[|p| - 1]
  }

  lemma ReachesItself(E: set<Edge>, k: Kind, a: DepartmentId)
    ensures Reaches(E, k, a, a)
  {
    assert Joins(E, k, [a], a, a);
  }

  lemma {:induction false} WalkJoin(E: set<Edge>, k: Kind, p: seq<DepartmentId>, q: seq<DepartmentId>)
    requires Walk(E, k, p) && Walk(E, k, q) && p[|p| - 1] == q[0]
    ensures Walk(E, k, p + q[1..])
    ensures (p + q[1..])[|p| + |q| - 2] == q[|q| - 1]
  {
    if |p| == 1 {
      assert p + q[1..] == q;
    } else {
      WalkJoin(E, k, p[1..], q);
      assert (p + q[1..])[1..] == p[1..] + q[1..];
    }
  }

  lemma ReachesTransitively(E: set<Edge>, k: Kind, a: DepartmentId, b: DepartmentId, c: DepartmentId)
    requires Reaches(E, k, a, b) && Reaches(E, k, b, c)
    ensures Reaches(E, k, a, c)
  {
    var p :| Joins(E, k, p, a, b);
    var q :| Joins(E, k, q, b, c);
    WalkJoin(E, k, p, q);
    assert Joins(E, k, p + q[1..], a, c);
  }

  lemma ReachesAlong(E: set<Edge>, k: Kind, a: DepartmentId, b: DepartmentId)
    requires Edge(a, b, k) in E
    ensures Reaches(E, k, a, b)
  {
    assert Walk(E, k, [a, b][1..]);
    assert Joins(E, k, [a, b], a, b);
  }

  lemma {:induction false} WalkMonotone(E: set<Edge>, F: set<Edge>, k: Kind, p: seq<DepartmentId>)
    requires E <= F && Walk(E, k, p)
    ensures Walk(F, k, p)
  {
    if |p| > 1 {
      WalkMonotone(E, F, k, p[1..]);
    }
  }

  lemma AcyclicAntitone(E: set<Edge>, F: set<Edge>, k: Kind)
    requires E <= F && Acyclic(F, k)
    ensures Acyclic(E, k)
  {
    forall p | Walk(E, k, p) && |p| >= 2 ensures p[0] != p[|p| - 1] {
      WalkMonotone(E, F, k, p);
    }
  }

  /** A set closed under successors holds everything reachable from its members. */
  lemma {:induction false} ClosedSetHoldsWalk(E: set<Edge>, k: Kind, S: set<DepartmentId>, p: seq<DepartmentId>)
    requires forall x, y :: x in S && Edge(x, y, k) in E ==> y in S
    requires Walk(E, k, p) && p[0] in S
    ensures p[|p| - 1] in S
  {
    if |p| > 1 {
      ClosedSetHoldsWalk(E, k, S, p[1..]);
    }
  }

  // ---- One insertion --------------------------------------------------------

  /**
   * A walk through E and one more edge either never uses that edge, or splits into a walk in E
   * to where the edge starts and a walk in E from where it ends.
   */
  lemma {:induction false} SplitAtNewEdge(E: set<Edge>, e: Edge, k: Kind, p: seq<DepartmentId>)
    requires Walk(E + {e}, k, p)
    ensures Walk(E, k, p)
         || (e.kind == k && Reaches(E, k, p[0], e.fromId) && Reaches(E, k, e.toId, p[|p| - 1]))
  {
    if |p| > 1 {
      var rest := p[1..];
      SplitAtNewEdge(E, e, k, rest);
      if Edge(p[0], p[1], k) in E {
        if !Walk(E, k, rest) {
          ReachesAlong(E, k, p[0], p[1]);
          ReachesTransitively(E, k, p[0], p[1], e.fromId);
        }
      } else {
        ReachesItself(E, k, p[0]);
        if Walk(E, k, rest) {
          assert Joins(E, k, rest, e.toId, p[|p| - 1]);
        }
      }
    }
  }

  /** An acyclic graph stays acyclic under one more edge exactly when the edge closes no path. */
  lemma InsertionKeepsAcyclic(E: set<Edge>, e: Edge)
    requires Acyclic(E, e.kind)
    ensures Acyclic(E + {e}, e.kind) <==> !Reaches(E, e.kind, e.toId, e.fromId)
  {
    var k, F := e.kind, E + {e};
    if Reaches(E, k, e.toId, e.fromId) {
      var p :| Joins(E, k, p, e.toId, e.fromId);
      WalkMonotone(E, F, k, p);
      var q := [e.fromId] + p;
      assert q[1..] == p;
      assert Walk(F, k, q) && q[0] == q[|q| - 1];
    } else {
      forall p | Walk(F, k, p) && |p| >= 2 ensures p[0] != p[|p| - 1] {
        SplitAtNewEdge(E, e, k, p);
        if p[0] == p[|p| - 1] && !Walk(E, k, p) {
          ReachesTransitively(E, k, e.toId, p[0], e.fromId);
        }
      }
    }
  }

  /** Edges of another kind are not seen. */
  lemma {:induction false} OtherKindUnseen(E: set<Edge>, e: Edge, k: Kind, p: seq<DepartmentId>)
    requires e.kind != k && Walk(E + {e}, k, p)
    ensures Walk(E, k, p)
  {
    if |p| > 1 {
      OtherKindUnseen(E, e, k, p[1..]);
    }
  }

  // ---- Well-formed lists of edges ------------------------------------------

  ghost function EdgesAt(cs: seq<Edge>, S: set<nat>): set<Edge> {
    set i: nat | i in S && i < |cs| :: cs[i]
  }

  /** {0, ..., n - 1} */
  ghost function Indices(n: nat): (r: set<nat>)
    ensures forall i: nat :: i in r <==> i < n
  {
    if n == 0 then {} else Indices(n - 1) + {n - 1}
  }

  predicate Known(e: Edge, departments: set<DepartmentId>) {
    IsKind(e.kind) && e.fromId != e.toId && e.fromId in departments && e.toId in departments
  }

  /**
   * The edges of `cs` at the indices in `S`, taken all together, form a well-formed graph: known
   * ends and kinds, no self-edge, no two same edges, no cycle where cycles are forbidden.
   */
  ghost predicate WellFormedOn(cs: seq<Edge>, S: set<nat>, departments: set<DepartmentId>) {
    && (forall i :: i in S ==> i < |cs| && Known(cs[i], departments))
    && (forall i, j :: i in S && j in S && i != j ==> !SameEdge(cs[i], cs[j]))
    && (forall k :: IsAcyclicKind(k) ==> Acyclic(EdgesAt(cs, S), k))
  }

  ghost predicate WellFormed(cs: seq<Edge>, departments: set<DepartmentId>) {
    WellFormedOn(cs, Indices(|cs|), departments)
  }

  /**
   * Said of the edges themselves: their ends are known and not the same; no two join the same
   * departments the same way, nor, for collaboration, either way; and neither reporting nor escalating
   * ever leads back to where it started. Nothing is asked of the other kinds' paths.
   */
  lemma WellFormedInFull(cs: seq<Edge>, departments: set<DepartmentId>)
    ensures WellFormed(cs, departments) <==>
      && (forall i :: 0 <= i < |cs| ==>
           && cs[i].kind in [ReportsTo, Collaborates, Handoff, Reviews, EscalatesTo, Watches]
           && cs[i].fromId != cs[i].toId && cs[i].fromId in departments && cs[i].toId in departments)
      && (forall i, j :: 0 <= i < |cs| && 0 <= j < |cs| && i != j && cs[i].kind == cs[j].kind ==>
           && (cs[i].fromId != cs[j].fromId || cs[i].toId != cs[j].toId)
           && (cs[i].kind == Collaborates ==> cs[i].fromId != cs[j].toId || cs[i].toId != cs[j].fromId))
      && Acyclic(EdgesAt(cs, Indices(|cs|)), ReportsTo)
      && Acyclic(EdgesAt(cs, Indices(|cs|)), EscalatesTo)
  {
    assert forall i :: i in Indices(|cs|) <==> 0 <= i < |cs|;
    assert forall k :: IsAcyclicKind(k) <==> k == ReportsTo || k == EscalatesTo;
    assert forall k :: IsKind(k) <==> k in [ReportsTo, Collaborates, Handoff, Reviews, EscalatesTo, Watches];
  }

  lemma WellFormedAntitone(cs: seq<Edge>, S: set<nat>, T: set<nat>, departments: set<DepartmentId>)
    requires S <= T && WellFormedOn(cs, T, departments)
    ensures WellFormedOn(cs, S, departments)
  {
    forall k | IsAcyclicKind(k) ensures Acyclic(EdgesAt(cs, S), k) {
      AcyclicAntitone(EdgesAt(cs, S), EdgesAt(cs, T), k);
    }
  }

  /** What is asked of one edge beside the edges already there. */
  ghost predicate Fits(e: Edge, departments: set<DepartmentId>, before: set<Edge>) {
    && Known(e, departments)
    && (forall b :: b in before ==> !SameEdge(b, e))
    && (IsAcyclicKind(e.kind) ==> !Reaches(before, e.kind, e.toId, e.fromId))
  }

  /** Beside a well-formed graph, the one-edge check is the whole-graph check. */
  lemma FitsIsGlobal(cs: seq<Edge>, S: set<nat>, n: nat, departments: set<DepartmentId>)
    requires WellFormedOn(cs, S, departments) && n < |cs| && n !in S
    ensures Fits(cs[n], departments, EdgesAt(cs, S)) <==> WellFormedOn(cs, S + {n}, departments)
  {
    var e, E := cs[n], EdgesAt(cs, S);
    assert EdgesAt(cs, S + {n}) == E + {e};
    forall k | IsAcyclicKind(k) && e.kind != k ensures Acyclic(E + {e}, k) {
      forall p | Walk(E + {e}, k, p) && |p| >= 2 ensures p[0] != p[|p| - 1] {
        OtherKindUnseen(E, e, k, p);
      }
    }
    if Known(e, departments) && IsAcyclicKind(e.kind) {
      InsertionKeepsAcyclic(E, e);
    }
    if WellFormedOn(cs, S + {n}, departments) {
      forall b | b in E ensures !SameEdge(b, e) {
        var i :| i in S && i < |cs| && cs[i] == b;
        assert i in S + {n} && n in S + {n};
      }
      assert n in S + {n};
    }
    if Fits(e, departments, E) {
      forall i, j | i in S + {n} && j in S + {n} && i != j ensures !SameEdge(cs[i], cs[j]) {
        if i == n {
          assert cs[j] in E;
        } else if j == n {
          assert cs[i] in E;
        }
      }
    }
  }

  // ---- Taking the edges one at a time --------------------------------------

  /** The indices below `n` whose edge fitted beside the ones kept before it. */
  ghost function Kept(cs: seq<Edge>, departments: set<DepartmentId>, n: nat): set<nat>
    requires n <= |cs|
  {
    if n == 0 then {}
    else
      var before := Kept(cs, departments, n - 1);
      if Fits(cs[n - 1], departments, EdgesAt(cs, before)) then before + {n - 1} else before
  }

  lemma {:induction false} KeptIsWellFormed(cs: seq<Edge>, departments: set<DepartmentId>, n: nat)
    requires n <= |cs|
    ensures Kept(cs, departments, n) <= Indices(n)
    ensures WellFormedOn(cs, Kept(cs, departments, n), departments)
  {
    if n == 0 {
      assert EdgesAt(cs, {}) == {};
    } else {
      KeptIsWellFormed(cs, departments, n - 1);
      FitsIsGlobal(cs, Kept(cs, departments, n - 1), n - 1, departments);
    }
  }

  lemma {:induction false} KeptGrows(cs: seq<Edge>, departments: set<DepartmentId>, m: nat, n: nat)
    requires m <= n <= |cs|
    ensures Kept(cs, departments, m) <= Kept(cs, departments, n)
    ensures forall i :: i < m ==> (i in Kept(cs, departments, m) <==> i in Kept(cs, departments, n))
  {
    if m < n {
      KeptGrows(cs, departments, m, n - 1);
    }
  }

  /** Every edge is kept exactly when the whole list is well-formed. */
  lemma AllKeptIffWellFormed(cs: seq<Edge>, departments: set<DepartmentId>)
    ensures Kept(cs, departments, |cs|) == Indices(|cs|) <==> WellFormed(cs, departments)
  {
    KeptIsWellFormed(cs, departments, |cs|);
    if WellFormed(cs, departments) {
      WellFormedKeepsAll(cs, departments, |cs|);
    }
  }

  lemma {:induction false} WellFormedKeepsAll(cs: seq<Edge>, departments: set<DepartmentId>, n: nat)
    requires n <= |cs| && WellFormed(cs, departments)
    ensures Kept(cs, departments, n) == Indices(n)
  {
    if n > 0 {
      WellFormedKeepsAll(cs, departments, n - 1);
      assert Indices(n) == Indices(n - 1) + {n - 1};
      WellFormedAntitone(cs, Indices(n), Indices(|cs|), departments);
      WellFormedAntitone(cs, Indices(n - 1), Indices(|cs|), departments);
      FitsIsGlobal(cs, Indices(n - 1), n - 1, departments);
    }
  }

  /** The kept edges cannot be extended: no larger choice from the list is well-formed. */
  lemma KeptIsMaximal(cs: seq<Edge>, departments: set<DepartmentId>, S: set<nat>)
    requires Kept(cs, departments, |cs|) < S
    ensures !WellFormedOn(cs, S, departments)
  {
    var K := Kept(cs, departments, |cs|);
    var i :| i in S && i !in K;
    if WellFormedOn(cs, S, departments) {
      var before := Kept(cs, departments, i);
      KeptGrows(cs, departments, i, |cs|);
      KeptGrows(cs, departments, i + 1, |cs|);
      KeptIsWellFormed(cs, departments, i);
      WellFormedAntitone(cs, before + {i}, S, departments);
      FitsIsGlobal(cs, before, i, departments);
      assert false;
    }
  }

  // ---- The order of the list ------------------------------------------------

  lemma RepeatCounts(cs: seq<Edge>, i: nat, j: nat)
    requires i < j < |cs| && cs[i] == cs[j]
    ensures multiset(cs)[cs[i]] >= 2
  {
    assert cs == cs[..j] + cs[j..];
    assert cs[i] in cs[..j] && cs[j] in cs[j..];
    assert cs[..j][i] == cs[i] && cs[j..][0] == cs[j];
    assert multiset(cs) == multiset(cs[..j]) + multiset(cs[j..]);
  }

  lemma {:induction false} CountRepeats(cs: seq<Edge>, e: Edge) returns (i: nat, j: nat)
    requires multiset(cs)[e] >= 2
    ensures i < j < |cs| && cs[i] == cs[j] == e
  {
    var n := |cs| - 1;
    assert cs == cs[..n] + [cs[n]];
    if cs[n] == e {
      assert e in multiset(cs[..n]);
      i :| 0 <= i < n && cs[i] == e;
      j := n;
    } else {
      i, j := CountRepeats(cs[..n], e);
    }
  }

  /** No two entries are the same edge, said without indices. */
  ghost predicate TwinFree(m: multiset<Edge>) {
    && (forall e :: e in m ==> m[e] == 1)
    && (forall e, f :: e in m && f in m && e != f ==> !SameEdge(e, f))
  }

  lemma TwinFreeIsOrderFree(cs: seq<Edge>)
    ensures TwinFree(multiset(cs))
       <==> (forall i, j :: 0 <= i < |cs| && 0 <= j < |cs| && i != j ==> !SameEdge(cs[i], cs[j]))
  {
    if TwinFree(multiset(cs)) {
      forall i, j | 0 <= i < |cs| && 0 <= j < |cs| && i != j ensures !SameEdge(cs[i], cs[j]) {
        assert cs[i] in multiset(cs) && cs[j] in multiset(cs);
        if cs[i] == cs[j] {
          RepeatCounts(cs, if i < j then i else j, if i < j then j else i);
        }
      }
    } else if e :| e in multiset(cs) && multiset(cs)[e] != 1 {
      var i, j := CountRepeats(cs, e);
    } else {
      var e, f :| e in multiset(cs) && f in multiset(cs) && e != f && SameEdge(e, f);
      var i :| 0 <= i < |cs| && cs[i] == e;
      var j :| 0 <= j < |cs| && cs[j] == f;
    }
  }

  lemma EdgesFromSubBag(a: seq<Edge>, b: seq<Edge>)
    requires multiset(b) <= multiset(a)
    ensures EdgesAt(b, Indices(|b|)) <= EdgesAt(a, Indices(|a|))
    ensures forall e :: e in b ==> e in a
  {
    forall e | e in b ensures e in EdgesAt(a, Indices(|a|)) && e in a {
      assert e in multiset(a);
      var i :| 0 <= i < |a| && a[i] == e;
      assert i in Indices(|a|);
    }
  }

  /** Any choice of the edges of a well-formed graph, in any order, is well-formed while its ends are known. */
  lemma SubBagWellFormed(a: seq<Edge>, b: seq<Edge>, before: set<DepartmentId>, after: set<DepartmentId>)
    requires WellFormed(a, before) && multiset(b) <= multiset(a)
    requires forall e :: e in b ==> e.fromId in after && e.toId in after
    ensures WellFormed(b, after)
  {
    EdgesFromSubBag(a, b);
    assert forall i, j :: 0 <= i < |b| && 0 <= j < |b| && i != j ==> !SameEdge(b[i], b[j]) by {
      TwinFreeIsOrderFree(a);
      TwinFreeIsOrderFree(b);
      assert forall i, j :: 0 <= i < |a| && 0 <= j < |a| && i != j ==> !SameEdge(a[i], a[j]) by {
        forall i, j | 0 <= i < |a| && 0 <= j < |a| && i != j ensures !SameEdge(a[i], a[j]) {
          assert i in Indices(|a|) && j in Indices(|a|);
        }
      }
    }
    forall i | i in Indices(|b|) ensures Known(b[i], after) {
      assert b[i] in b;
      var j :| 0 <= j < |a| && a[j] == b[i];
      assert j in Indices(|a|);
    }
    forall k | IsAcyclicKind(k) ensures Acyclic(EdgesAt(b, Indices(|b|)), k) {
      AcyclicAntitone(EdgesAt(b, Indices(|b|)), EdgesAt(a, Indices(|a|)), k);
    }
  }

  /** Whether a list is well-formed does not depend on the order it is written in. */
  lemma WellFormedIgnoresOrder(a: seq<Edge>, b: seq<Edge>, departments: set<DepartmentId>)
    requires multiset(a) == multiset(b)
    ensures WellFormed(a, departments) <==> WellFormed(b, departments)
  {
    EdgesFromSubBag(a, b);
    EdgesFromSubBag(b, a);
    if WellFormed(a, departments) {
      WellFormedEnds(a, departments);
      SubBagWellFormed(a, b, departments, departments);
    }
    if WellFormed(b, departments) {
      WellFormedEnds(b, departments);
      SubBagWellFormed(b, a, departments, departments);
    }
  }

  lemma WellFormedEnds(cs: seq<Edge>, departments: set<DepartmentId>)
    requires WellFormed(cs, departments)
    ensures forall e :: e in cs ==> Known(e, departments)
  {
  }

  // ---- Checking against some of the edges ---------------------------------------------

  predicate EndsIn(e: Edge, departments: set<DepartmentId>) {
    e.fromId in departments && e.toId in departments
  }

  ghost predicate UnreadPath(E: set<Edge>, read: set<Edge>, departments: set<DepartmentId>,
                             k: Kind, a: DepartmentId, b: DepartmentId)
  {
    IsAcyclicKind(k) && a in departments && b in departments && a != b && Reaches(E, k, a, b) && !Reaches(read, k, a, b)
  }

  /**
   * Of the edges `cs` only the first `n` are read, and of the departments only `departments`: then an
   * unread edge joins two of these, or a path between two of these, of a kind that must not lead
   * back, cannot be followed without unread edges.
   */
  ghost predicate Overlooks(cs: seq<Edge>, n: nat, departments: set<DepartmentId>)
    requires n <= |cs|
  {
    || (exists i :: n <= i < |cs| && EndsIn(cs[i], departments))
    || (exists k, a, b :: UnreadPath(EdgesAt(cs, Indices(|cs|)), EdgesAt(cs, Indices(n)), departments, k, a, b))
  }

  /** An edge that fits beside the edges read, but not beside all. */
  ghost predicate Misfit(cs: seq<Edge>, n: nat, read: set<DepartmentId>, departments: set<DepartmentId>, e: Edge)
    requires n <= |cs|
  {
    Fits(e, read, EdgesAt(cs, Indices(n))) && !Fits(e, departments, EdgesAt(cs, Indices(|cs|)))
  }

  lemma FewerAreFewer(cs: seq<Edge>, n: nat)
    requires n <= |cs|
    ensures EdgesAt(cs, Indices(n)) <= EdgesAt(cs, Indices(|cs|))
  {
  }

  /** An unread edge between departments that are read passes a second time. */
  lemma UnreadEdgeFitsAgain(
    cs: seq<Edge>, n: nat, read: set<DepartmentId>, departments: set<DepartmentId>, i: nat)
    requires WellFormed(cs, departments) && read <= departments && n <= i < |cs| && EndsIn(cs[i], read)
    ensures Misfit(cs, n, read, departments, cs[i])
  {
    var e, E := cs[i], EdgesAt(cs, Indices(|cs|));
    FewerAreFewer(cs, n);
    assert i in Indices(|cs|) && SameEdge(e, e) && e in E;
    forall b | b in EdgesAt(cs, Indices(n)) ensures !SameEdge(b, e) {
      var j :| j in Indices(n) && j < |cs| && cs[j] == b;
      assert j in Indices(|cs|) && j != i;
    }
    if IsAcyclicKind(e.kind) {
      NoWayBack(E, e);
      if Reaches(EdgesAt(cs, Indices(n)), e.kind, e.toId, e.fromId) {
        ReachesMore(EdgesAt(cs, Indices(n)), E, e.kind, e.toId, e.fromId);
      }
    }
  }

  lemma ReachesMore(E: set<Edge>, F: set<Edge>, k: Kind, a: DepartmentId, b: DepartmentId)
    requires E <= F && Reaches(E, k, a, b)
    ensures Reaches(F, k, a, b)
  {
    var p :| Joins(E, k, p, a, b);
    WalkMonotone(E, F, k, p);
    assert Joins(F, k, p, a, b);
  }

  lemma NoWayBack(E: set<Edge>, e: Edge)
    requires Acyclic(E, e.kind) && e in E
    ensures !Reaches(E, e.kind, e.toId, e.fromId)
  {
    assert E + {e} == E;
    InsertionKeepsAcyclic(E, e);
  }

  /** The edge that leads back along an unread path passes, and closes a cycle. */
  lemma UnreadPathIsClosed(
    cs: seq<Edge>, n: nat, read: set<DepartmentId>, departments: set<DepartmentId>,
    k: Kind, a: DepartmentId, b: DepartmentId)
    requires WellFormed(cs, departments) && read <= departments && n <= |cs|
    requires UnreadPath(EdgesAt(cs, Indices(|cs|)), EdgesAt(cs, Indices(n)), read, k, a, b)
    ensures Misfit(cs, n, read, departments, Edge(b, a, k))
  {
    var e, E, F := Edge(b, a, k), EdgesAt(cs, Indices(|cs|)), EdgesAt(cs, Indices(n));
    FewerAreFewer(cs, n);
    forall c | c in F ensures !SameEdge(c, e) {
      if SameEdge(c, e) {
        assert c == e;
        NoWayBack(E, e);
      }
    }
  }

  /** What fits beside the edges read but not beside all is an edge of one of these two sorts. */
  lemma MisfitIsOverlooked(
    cs: seq<Edge>, n: nat, read: set<DepartmentId>, departments: set<DepartmentId>, e: Edge)
    requires read <= departments && n <= |cs| && Misfit(cs, n, read, departments, e)
    ensures Overlooks(cs, n, read)
  {
    var E, F := EdgesAt(cs, Indices(|cs|)), EdgesAt(cs, Indices(n));
    if b :| b in E && SameEdge(b, e) {
      var i :| i in Indices(|cs|) && i < |cs| && cs[i] == b;
      assert i in Indices(n) ==> b in F;
      assert EndsIn(cs[i], read);
    } else {
      assert UnreadPath(E, F, read, e.kind, e.toId, e.fromId);
    }
  }

  /**
   * Checked against the first `n` edges and against `read` of the departments, some edge that would
   * spoil the graph passes, if and only if these overlook something.
   */
  lemma PartialCheckFailsIffItOverlooks(
    cs: seq<Edge>, n: nat, read: set<DepartmentId>, departments: set<DepartmentId>)
    requires WellFormed(cs, departments) && read <= departments && n <= |cs|
    ensures (exists e :: Misfit(cs, n, read, departments, e)) <==> Overlooks(cs, n, read)
  {
    if e :| Misfit(cs, n, read, departments, e) {
      MisfitIsOverlooked(cs, n, read, departments, e);
    }
    if i :| n <= i < |cs| && EndsIn(cs[i], read) {
      UnreadEdgeFitsAgain(cs, n, read, departments, i);
    } else if k, a, b :| UnreadPath(EdgesAt(cs, Indices(|cs|)), EdgesAt(cs, Indices(n)), read, k, a, b) {
      UnreadPathIsClosed(cs, n, read, departments, k, a, b);
    }
  }

  /** With every department read, that is if and only if some edge is not. */
  lemma UnreadEdgesAreOverlooked(cs: seq<Edge>, n: nat, departments: set<DepartmentId>)
    requires WellFormed(cs, departments) && n <= |cs|
    ensures Overlooks(cs, n, departments) <==> n < |cs|
  {
    if n < |cs| {
      assert n in Indices(|cs|) && EndsIn(cs[n], departments);
    }
  }
}
