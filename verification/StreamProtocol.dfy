/**
 * One office's event stream from end to end, within one life of the server: publishing into the
 * bounded log, sockets that are opened, accepted, delivered from, cut short and replaced, and
 * the client's record of what it has seen.
 */
module StreamProtocol {
  import opened Shared
  import opened EventLog
  import Client = OfficeStream

  datatype Message = Gap | Ev(event: OfficeEvent)

  /**
   * One socket, from both ends. `sent` is what can still reach or has reached the client, of
   * which `got` messages have arrived. `base` is bookkeeping: the published count when a gap
   * notice was sent, otherwise the offset asked for.
   */
  datatype Link = Link(
    since: nat, accepted: bool, subscribed: bool, gapped: bool, base: nat,
    sent: seq<Message>, got: nat)

  datatype World = World(
    limit: nat,
    history: seq<OfficeEvent>,
    client: Client.StreamState,
    links: seq<Link>,
    handed: set<OfficeEvent>,   // passed to onEvent
    gapUpTo: nat,               // the most that had been published when a received gap notice was sent
    applying: set<nat>,         // offsets handed over whose handling has not finished
    seen: nat)                  // the store's seenOffset

  datatype Step =
    | Publish(officeId: string, at: int, data: map<string, Json>)
    | Accept(i: nat)
    | Deliver(i: nat)
    | Lose(i: nat, keep: nat)     // the connection breaks: only the first `keep` messages get through
    | Unsubscribe(i: nat)         // the server hears that the socket closed
    | Applied(offset: nat)        // the canvas finishes with an event and records its offset
    | Gone(i: nat)
    | Timer(fired: nat)
    | CloseStream

  // ---- What the server sends -------------------------------------------------

  function Events(history: seq<OfficeEvent>): (r: seq<Message>)
    ensures |r| == |history| && forall i :: 0 <= i < |r| ==> r[i] == Ev(history[i])
  {
    seq(|history|, i requires 0 <= i < |history| => Ev(history[i]))
  }

  /** The first messages on a new socket: the replay, or the notice that there can be none. */
  function CatchUp(events: seq<OfficeEvent>, since: int): seq<Message> {
    if CanReplay(events, since) then Events(After(events, since)) else [Gap]
  }

  function Opened(w: World, client: Client.StreamState): World {
    w.(client := client,
       links := if |client.asked| > |w.links| then w.links + [Link(w.seen, false, false, false, w.seen, [], 0)]
                else w.links)
  }

  function Broadcast(links: seq<Link>, event: OfficeEvent): (r: seq<Link>)
    ensures |r| == |links|
    ensures forall i :: 0 <= i < |links| ==>
      r[i] == if links[i].subscribed then links[i].(sent := links[i].sent + [Ev(event)]) else links[i]
  {
    seq(|links|, i requires 0 <= i < |links| =>
      if links[i].subscribed then links[i].(sent := links[i].sent + [Ev(event)]) else links[i])
  }

  function Accepted(l: Link, history: seq<OfficeEvent>, limit: nat): Link {
    var kept := Tail(history, limit);
    var gapped := !CanReplay(kept, l.since);
    l.(accepted := true, subscribed := true, gapped := gapped,
       base := if gapped then |history| else l.since,
       sent := CatchUp(kept, l.since))
  }

  /** The world after one step; a step that cannot happen changes nothing. */
  function Next(w: World, step: Step): World {
    match step
    case Publish(officeId, at, data) =>
      var event := OfficeEvent(|w.history| + 1, officeId, at, data);
      w.(history := w.history + [event], links := Broadcast(w.links, event))
    case Accept(i) =>
      if i < |w.links| && !w.links[i].accepted
      then w.(links := w.links[i := Accepted(w.links[i], w.history, w.limit)]) else w
    case Deliver(i) =>
      if i < |w.links| && w.links[i].got < |w.links[i].sent| then
        var l := w.links[i];
        var received := w.(links := w.links[i := l.(got := l.got + 1)]);
        match l.sent[l.got]
        case Gap => received.(gapUpTo := if w.gapUpTo < l.base then l.base else w.gapUpTo)
        case Ev(event) => received.(handed := w.handed + {event}, applying := w.applying + {event.offset})
      else w
    case Lose(i, keep) =>
      if i < |w.links| && w.links[i].got <= keep <= |w.links[i].sent|
      then w.(links := w.links[i := w.links[i].(sent := w.links[i].sent[..keep], subscribed := false)]) else w
    case Unsubscribe(i) =>
      if i < |w.links| then w.(links := w.links[i := w.links[i].(subscribed := false)]) else w
    case Applied(offset) =>
      if offset in w.applying
      then w.(applying := w.applying - {offset}, seen := if w.seen < offset then offset else w.seen) else w
    case Gone(i) =>
      if i < |w.links| then w.(client := Client.Next(w.client, Client.SocketGone(i))) else w
    case Timer(fired) =>
      if fired in w.client.pending
      then Opened(w, Client.Next(w.client, Client.TimerFired(fired, w.seen))) else w
    case CloseStream => w.(client := Client.Next(w.client, Client.CloseCalled))
  }

  /** A fresh canvas opening its stream onto an office with any history behind it. */
  function Initial(limit: nat, history: seq<OfficeEvent>): World {
    World(limit, history, Client.Start(0), [Link(0, false, false, false, 0, [], 0)], {}, 0, {}, 0)
  }

  function Run(w: World, steps: seq<Step>): World {
    if steps == [] then w else Next(Run(w, steps[..|steps| - 1]), steps[|steps| - 1])
  }

  // ---- What every run keeps ----------------------------------------------------

  /** The event with this offset was handed over, or a notice sent after it was published arrived. */
  ghost predicate Covered(w: World, offset: nat) {
    offset <= w.gapUpTo || exists e :: e in w.handed && e.offset == offset
  }

  ghost predicate CoveredUpTo(w: World, offset: nat) {
    forall o: nat :: 1 <= o <= offset ==> Covered(w, o)
  }

  function Notices(l: Link): nat { if l.gapped then 1 else 0 }

  /** Where a socket has brought the client: what it asked for, then whatever arrived on it. */
  function Position(l: Link): int {
    if l.got == 0 then l.since else l.base + l.got - Notices(l)
  }

  /** What a socket carries: at most one leading notice, then consecutive events from `base` on. */
  ghost predicate CarriesRun(l: Link, history: seq<OfficeEvent>) {
    && l.got <= |l.sent|
    && l.base + |l.sent| - Notices(l) <= |history|
    && l.base <= |history|
    && (!l.gapped ==> l.base == l.since)
    && (!l.accepted ==> l.sent == [] && !l.subscribed && !l.gapped)
    && (forall i :: 0 <= i < |l.sent| ==>
         l.sent[i] == if i < Notices(l) then Gap else Ev(history[l.base + i - Notices(l)]))
    && (l.subscribed ==> |l.sent| == Notices(l) + |history| - l.base)
  }

  ghost predicate LinkInvariant(w: World, l: Link) {
    && CarriesRun(l, w.history)
    && (Position(l) >= 0 ==> CoveredUpTo(w, Position(l)))
  }

  /** What has been handed over is recorded once it is finished with, and nothing else is. */
  ghost predicate Recorded(w: World) {
    && (forall e :: e in w.handed && e.offset !in w.applying ==> e.offset <= w.seen)
    && (w.seen == 0 || exists e :: e in w.handed && e.offset == w.seen)
  }

  ghost predicate Invariant(w: World) {
    && w.limit >= 1
    && IsHistory(w.history)
    && |w.links| == |w.client.asked|
    && Client.StreamInvariant(w.client)
    && (forall i :: 0 <= i < |w.links| ==> w.links[i].since == w.client.asked[i] && LinkInvariant(w, w.links[i]))
    && (forall e :: e in w.handed ==> e in w.history && CoveredUpTo(w, e.offset))
    && (forall o :: o in w.applying ==> exists e :: e in w.handed && e.offset == o)
    && Recorded(w)
    && w.gapUpTo <= |w.history|
    && w.seen <= |w.history|
    && CoveredUpTo(w, w.seen)
  }

  lemma InitialInvariant(limit: nat, history: seq<OfficeEvent>)
    requires limit >= 1 && IsHistory(history)
    ensures Invariant(Initial(limit, history))
  {
  }

  /** More handed over, or a later notice, uncovers nothing. */
  lemma CoverageGrows(w: World, w': World, offset: nat)
    requires w.handed <= w'.handed && w.gapUpTo <= w'.gapUpTo && CoveredUpTo(w, offset)
    ensures CoveredUpTo(w', offset)
  {
    forall o: nat | 1 <= o <= offset ensures Covered(w', o) {
      assert Covered(w, o);
    }
  }

  lemma PublishKeepsRun(l: Link, history: seq<OfficeEvent>, event: OfficeEvent)
    requires CarriesRun(l, history)
    ensures CarriesRun(if l.subscribed then l.(sent := l.sent + [Ev(event)]) else l, history + [event])
  {
  }

  lemma PublishKeeps(w: World, step: Step)
    requires Invariant(w) && step.Publish?
    ensures Invariant(Next(w, step))
  {
    var w' := Next(w, step);
    var event := w'.history[|w.history|];
    forall i | 0 <= i < |w.links|
      ensures w'.links[i].since == w'.client.asked[i] && LinkInvariant(w', w'.links[i])
    {
      PublishKeepsRun(w.links[i], w.history, event);
      if Position(w.links[i]) >= 0 { CoverageGrows(w, w', Position(w.links[i])); }
    }
    forall e | e in w'.handed ensures e in w'.history && CoveredUpTo(w', e.offset) {
      CoverageGrows(w, w', e.offset);
    }
    CoverageGrows(w, w', w.seen);
  }

  /** What is sent when a socket is accepted is a run that ends at the newest event. */
  lemma AcceptedCarriesRun(l: Link, history: seq<OfficeEvent>, limit: nat)
    requires limit >= 1 && IsHistory(history) && CarriesRun(l, history) && !l.accepted
    ensures CarriesRun(Accepted(l, history, limit), history)
    ensures var l' := Accepted(l, history, limit);
      && l'.accepted && l'.subscribed && l'.since == l.since && l'.got == l.got
      && l'.sent == (if Discarded(|history|, limit) > l.since then [Gap] else Events(Suffix(history, l.since)))
      && (l'.gapped <==> Discarded(|history|, limit) > l.since)
  {
    ReplayIsFullSuffix(history, limit, l.since);
  }

  /** A step that changes one link and hands nothing over. */
  lemma RelinkKeeps(w: World, i: nat, l: Link)
    requires Invariant(w) && i < |w.links|
    requires l.since == w.links[i].since && CarriesRun(l, w.history) && Position(l) == Position(w.links[i])
    ensures Invariant(w.(links := w.links[i := l]))
  {
    var w' := w.(links := w.links[i := l]);
    forall j | 0 <= j < |w'.links|
      ensures w'.links[j].since == w'.client.asked[j] && LinkInvariant(w', w'.links[j])
    {
      if Position(w.links[j]) >= 0 { CoverageGrows(w, w', Position(w.links[j])); }
    }
    forall e | e in w'.handed ensures CoveredUpTo(w', e.offset) { CoverageGrows(w, w', e.offset); }
    CoverageGrows(w, w', w.seen);
  }

  lemma DeliverKeeps(w: World, i: nat)
    requires Invariant(w) && i < |w.links| && w.links[i].got < |w.links[i].sent|
    ensures Invariant(Next(w, Deliver(i)))
  {
    var w' := Next(w, Deliver(i));
    DeliverHandsOver(w, i);
    DeliverRecords(w, i);
    forall j | 0 <= j < |w'.links|
      ensures w'.links[j].since == w'.client.asked[j] && LinkInvariant(w', w'.links[j])
    {
      if j == i { DeliveredLink(w, i); } else { OtherLink(w, i, j); }
    }
    CoverageGrows(w, w', w.seen);
  }

  lemma DeliverRecords(w: World, i: nat)
    requires Invariant(w) && i < |w.links| && w.links[i].got < |w.links[i].sent|
    ensures Recorded(Next(w, Deliver(i)))
  {
  }

  lemma DeliveredLink(w: World, i: nat)
    requires Invariant(w) && i < |w.links| && w.links[i].got < |w.links[i].sent|
    ensures LinkInvariant(Next(w, Deliver(i)), Next(w, Deliver(i)).links[i])
  {
    DeliverAdvances(w, i);
  }

  lemma OtherLink(w: World, i: nat, j: nat)
    requires Invariant(w) && i < |w.links| && w.links[i].got < |w.links[i].sent| && j < |w.links| && j != i
    ensures LinkInvariant(Next(w, Deliver(i)), Next(w, Deliver(i)).links[j])
  {
    if Position(w.links[j]) >= 0 { CoverageGrows(w, Next(w, Deliver(i)), Position(w.links[j])); }
  }

  /** What is handed over was published, with everything before it covered, and is then being applied. */
  lemma DeliverHandsOver(w: World, i: nat)
    requires Invariant(w) && i < |w.links| && w.links[i].got < |w.links[i].sent|
    ensures var w' := Next(w, Deliver(i));
      && (forall e :: e in w'.handed ==> e in w'.history && CoveredUpTo(w', e.offset))
      && (forall o :: o in w'.applying ==> exists e :: e in w'.handed && e.offset == o)
  {
    var w' := Next(w, Deliver(i));
    var l, l' := w.links[i], w'.links[i];
    DeliverAdvances(w, i);
    forall e | e in w'.handed ensures e in w'.history && CoveredUpTo(w', e.offset) {
      if e in w.handed {
        CoverageGrows(w, w', e.offset);
      } else {
        assert l.sent[l.got] == Ev(e) && e.offset == Position(l');
      }
    }
    forall o | o in w'.applying ensures exists e :: e in w'.handed && e.offset == o {
      if o in w.applying {
        var e :| e in w.handed && e.offset == o;
        assert e in w'.handed;
      }
    }
  }

  /** Each delivery moves a socket's position on without leaving anything behind it uncovered. */
  lemma DeliverAdvances(w: World, i: nat)
    requires Invariant(w) && i < |w.links| && w.links[i].got < |w.links[i].sent|
    ensures var l' := Next(w, Deliver(i)).links[i];
      && Position(l') >= 0 && CoveredUpTo(Next(w, Deliver(i)), Position(l'))
      && l'.got == w.links[i].got + 1 && l'.sent == w.links[i].sent
  {
    var w' := Next(w, Deliver(i));
    var l, l' := w.links[i], w'.links[i];
    if l.sent[l.got].Gap? {
      assert Position(l') == l.base;
    } else {
      var event := l.sent[l.got].event;
      assert Position(l') == Position(l) + 1 == event.offset;
      CoverageGrows(w, w', Position(l));
      assert event in w'.handed;
    }
  }

  /** The client moves on, opening at most one socket, from the offset seen by then. */
  lemma OpenedKeeps(w: World, client: Client.StreamState)
    requires Invariant(w) && Client.StreamInvariant(client)
    requires client.asked == w.client.asked || client.asked == w.client.asked + [w.seen]
    ensures Invariant(Opened(w, client))
  {
    var w' := Opened(w, client);
    forall j | 0 <= j < |w'.links|
      ensures w'.links[j].since == w'.client.asked[j] && LinkInvariant(w', w'.links[j])
    {
      if j < |w.links| {
        if Position(w.links[j]) >= 0 { CoverageGrows(w, w', Position(w.links[j])); }
      } else {
        CoverageGrows(w, w', w.seen);
      }
    }
    forall e | e in w'.handed ensures CoveredUpTo(w', e.offset) { CoverageGrows(w, w', e.offset); }
    CoverageGrows(w, w', w.seen);
  }

  lemma GoneKeeps(w: World, i: nat)
    requires Invariant(w) && i < |w.links|
    ensures Invariant(Next(w, Gone(i)))
  {
    Client.StepKeepsOneHope(w.client, Client.SocketGone(i));
    OpenedKeeps(w, Client.Next(w.client, Client.SocketGone(i)));
  }

  lemma TimerKeeps(w: World, fired: nat)
    requires Invariant(w) && fired in w.client.pending
    ensures Invariant(Next(w, Timer(fired)))
  {
    Client.StepKeepsOneHope(w.client, Client.TimerFired(fired, w.seen));
    OpenedKeeps(w, Client.Next(w.client, Client.TimerFired(fired, w.seen)));
  }

  lemma CloseKeeps(w: World)
    requires Invariant(w)
    ensures Invariant(Next(w, CloseStream))
  {
    Client.StepKeepsOneHope(w.client, Client.CloseCalled);
    OpenedKeeps(w, Client.Next(w.client, Client.CloseCalled));
  }

  lemma AppliedKeeps(w: World, offset: nat)
    requires Invariant(w) && offset in w.applying
    ensures Invariant(Next(w, Applied(offset)))
  {
    var w' := Next(w, Applied(offset));
    var e :| e in w.handed && e.offset == offset;
    forall j | 0 <= j < |w'.links| ensures LinkInvariant(w', w'.links[j]) {
      if Position(w.links[j]) >= 0 { CoverageGrows(w, w', Position(w.links[j])); }
    }
    forall e | e in w'.handed ensures CoveredUpTo(w', e.offset) { CoverageGrows(w, w', e.offset); }
    CoverageGrows(w, w', w'.seen);
  }

  lemma AcceptKeeps(w: World, i: nat)
    requires Invariant(w)
    ensures Invariant(Next(w, Accept(i)))
  {
    if i < |w.links| && !w.links[i].accepted {
      AcceptedCarriesRun(w.links[i], w.history, w.limit);
      RelinkKeeps(w, i, Accepted(w.links[i], w.history, w.limit));
    }
  }

  lemma LoseKeeps(w: World, i: nat, keep: nat)
    requires Invariant(w)
    ensures Invariant(Next(w, Lose(i, keep)))
  {
    if i < |w.links| && w.links[i].got <= keep <= |w.links[i].sent| {
      RelinkKeeps(w, i, w.links[i].(sent := w.links[i].sent[..keep], subscribed := false));
    }
  }

  lemma UnsubscribeKeeps(w: World, i: nat)
    requires Invariant(w)
    ensures Invariant(Next(w, Unsubscribe(i)))
  {
    if i < |w.links| {
      RelinkKeeps(w, i, w.links[i].(subscribed := false));
    }
  }

  lemma StepKeeps(w: World, step: Step)
    requires Invariant(w)
    ensures Invariant(Next(w, step))
  {
    match step
    case Publish(_, _, _) => PublishKeeps(w, step);
    case Accept(i) => AcceptKeeps(w, i);
    case Deliver(i) => if i < |w.links| && w.links[i].got < |w.links[i].sent| { DeliverKeeps(w, i); }
    case Lose(i, keep) => LoseKeeps(w, i, keep);
    case Unsubscribe(i) => UnsubscribeKeeps(w, i);
    case Applied(offset) => if offset in w.applying { AppliedKeeps(w, offset); }
    case Gone(i) => if i < |w.links| { GoneKeeps(w, i); }
    case Timer(fired) => if fired in w.client.pending { TimerKeeps(w, fired); }
    case CloseStream => CloseKeeps(w);
  }

  lemma {:induction false} RunKeeps(w: World, steps: seq<Step>)
    requires Invariant(w)
    ensures Invariant(Run(w, steps))
  {
    if steps != [] {
      RunKeeps(w, steps[..|steps| - 1]);
      StepKeeps(Run(w, steps[..|steps| - 1]), steps[|steps| - 1]);
    }
  }

  // ---- What a client can rely on -----------------------------------------------

  /**
   * Whatever happened, every offset up to the one the canvas has recorded was handed to it as the
   * very event published under that offset, or is covered by a gap notice that arrived and was
   * sent after that event was published.
   */
  lemma NothingSeenWasMissed(limit: nat, history: seq<OfficeEvent>, steps: seq<Step>, offset: nat)
    requires limit >= 1 && IsHistory(history)
    requires 1 <= offset <= Run(Initial(limit, history), steps).seen
    ensures var w := Run(Initial(limit, history), steps);
      offset <= |w.history| && (w.history[offset - 1] in w.handed || offset <= w.gapUpTo <= |w.history|)
  {
    InitialInvariant(limit, history);
    RunKeeps(Initial(limit, history), steps);
    var w := Run(Initial(limit, history), steps);
    assert Covered(w, offset);
    if offset > w.gapUpTo {
      var e :| e in w.handed && e.offset == offset;
      var i :| 0 <= i < |w.history| && w.history[i] == e;
      assert i == offset - 1;
    }
  }

  /**
   * What arrives on one socket is at most one notice and then a run of consecutive events with no
   * gap and no repeat, beginning right after the offset asked for, or after everything published
   * when the notice was sent. While the server keeps the socket it has sent everything since.
   */
  lemma EachSocketCarriesARun(limit: nat, history: seq<OfficeEvent>, steps: seq<Step>, i: nat)
    requires limit >= 1 && IsHistory(history)
    requires i < |Run(Initial(limit, history), steps).links|
    ensures var w := Run(Initial(limit, history), steps);
      var l := w.links[i];
      var notices := if l.gapped then [Gap] else [];
      && |w.links| == |w.client.asked| && l.since == w.client.asked[i]
      && (l.gapped || l.base == l.since)
      && l.got <= |l.sent| && l.base <= |w.history|
      && l.sent <= notices + Events(w.history[l.base..])
      && (l.subscribed ==> l.sent == notices + Events(w.history[l.base..]))
  {
    InitialInvariant(limit, history);
    RunKeeps(Initial(limit, history), steps);
    var w := Run(Initial(limit, history), steps);
    RunInSlices(w.links[i], w.history);
  }

  lemma RunInSlices(l: Link, history: seq<OfficeEvent>)
    requires CarriesRun(l, history)
    ensures var whole := (if l.gapped then [Gap] else []) + Events(history[l.base..]);
      l.sent <= whole && (l.subscribed ==> l.sent == whole)
  {
  }

  /** Finishing with an event records it, and what has been recorded never goes back. */
  lemma SeenNeverFalls(w: World, step: Step)
    ensures Next(w, step).seen >= w.seen
    ensures step.Applied? && step.offset in w.applying ==>
      Next(w, step).seen >= step.offset && step.offset !in Next(w, step).applying
  {
  }

  /**
   * In every run, whatever was handed over and finished with is recorded, and what is recorded is the
   * offset of an event that was handed over, or still 0.
   */
  lemma SeenIsWhatWasFinished(limit: nat, history: seq<OfficeEvent>, steps: seq<Step>)
    requires limit >= 1 && IsHistory(history)
    ensures var w := Run(Initial(limit, history), steps);
      && (forall e :: e in w.handed && e.offset !in w.applying ==> e.offset <= w.seen)
      && (w.seen == 0 || exists e :: e in w.handed && e.offset == w.seen)
  {
    InitialInvariant(limit, history);
    RunKeeps(Initial(limit, history), steps);
  }

  /** The world once everything sent on a socket has arrived. */
  function DeliverAll(w: World, i: nat): World
    requires i < |w.links|
    decreases if w.links[i].got < |w.links[i].sent| then |w.links[i].sent| - w.links[i].got else 0
  {
    if w.links[i].got < |w.links[i].sent| then DeliverAll(Next(w, Deliver(i)), i) else w
  }

  /** Nothing stays behind on a socket the server keeps: once all of it has arrived, everything published is covered. */
  lemma {:induction false} DeliveringCatchesUp(w: World, i: nat)
    requires Invariant(w) && i < |w.links| && w.links[i].subscribed
    ensures var w' := DeliverAll(w, i);
      && Invariant(w') && w'.history == w.history && w'.seen == w.seen
      && i < |w'.links| && w'.links[i].got == |w'.links[i].sent|
      && CoveredUpTo(w', |w.history|)
    decreases |w.links[i].sent| - w.links[i].got
  {
    if w.links[i].got < |w.links[i].sent| {
      DeliverKeeps(w, i);
      DeliveringCatchesUp(Next(w, Deliver(i)), i);
    } else {
      assert LinkInvariant(w, w.links[i]);
      assert Position(w.links[i]) == |w.history|;
    }
  }

  /** A client that has also finished with all it was handed has recorded the newest event, or was told of a gap after it. */
  lemma FinishingCatchesUp(w: World, i: nat)
    requires Invariant(w) && i < |w.links| && w.links[i].subscribed && w.links[i].got == |w.links[i].sent|
    requires w.applying == {}
    ensures w.seen == |w.history| || w.gapUpTo == |w.history|
  {
    DeliveringCatchesUp(w, i);
    if |w.history| > 0 {
      assert Covered(w, |w.history|);
    }
  }

  /** A run is its steps, one after another. */
  lemma RunIsItsSteps(w: World, steps: seq<Step>, step: Step)
    ensures Run(w, []) == w && Run(w, steps + [step]) == Next(Run(w, steps), step)
  {
    assert (steps + [step])[..|steps|] == steps;
  }

  /** What the server does: it publishes, and it takes a socket and loses it again, one socket at a time. */
  lemma ServerSteps(w: World, i: nat, keep: nat, officeId: string, at: int, data: map<string, Json>)
    requires Invariant(w)
    ensures Next(w, Publish(officeId, at, data)).history ==
      w.history + [OfficeEvent(|w.history| + 1, officeId, at, data)]
    ensures i < |w.links| && !w.links[i].accepted ==>
      var l := Next(w, Accept(i)).links[i];
      && l.accepted && l.subscribed && Next(w, Accept(i)).links == w.links[i := l]
      && l.sent == if Discarded(|w.history|, w.limit) > l.since then [Gap] else Events(Suffix(w.history, l.since))
    ensures i < |w.links| ==> Next(w, Unsubscribe(i)).links == w.links[i := w.links[i].(subscribed := false)]
    ensures i < |w.links| && w.links[i].got <= keep <= |w.links[i].sent| ==>
      Next(w, Lose(i, keep)).links ==
        w.links[i := w.links[i].(sent := w.links[i].sent[..keep], subscribed := false)]
  {
    if i < |w.links| && !w.links[i].accepted {
      AcceptedCarriesRun(w.links[i], w.history, w.limit);
    }
  }

  /** What the client does: a socket that goes leaves a timer, a timer asks for a socket from what was seen by then. */
  lemma ClientSteps(w: World, i: nat, fired: nat)
    requires Client.StreamInvariant(w.client) && |w.links| == |w.client.asked|
    ensures i < |w.links| && i !in w.client.retried && w.client.wanted ==>
      Next(w, Gone(i)).client.pending == {w.client.timersMade}
    ensures fired in w.client.pending && w.client.wanted ==>
      && Next(w, Timer(fired)).client.asked == w.client.asked + [w.seen]
      && Next(w, Timer(fired)).links == w.links + [Link(w.seen, false, false, false, w.seen, [], 0)]
  {
    if i < |w.links| && i !in w.client.retried && w.client.wanted {
      Client.AGoneSocketIsReplaced(w.client, i, w.seen);
    }
  }

  lemma ClosingStops(w: World)
    requires Client.StreamInvariant(w.client)
    ensures !Next(w, CloseStream).client.wanted && Next(w, CloseStream).client.pending == {}
  {
    Client.StepKeepsOneHope(w.client, Client.CloseCalled);
  }

  /** In every run a wanted stream has one way to go on, and a closed one has none. */
  lemma StreamStaysAlive(limit: nat, history: seq<OfficeEvent>, steps: seq<Step>)
    requires limit >= 1 && IsHistory(history)
    ensures var client := Run(Initial(limit, history), steps).client;
      if client.wanted then |client.pending| + |Client.Unretried(client)| == 1 else client.pending == {}
  {
    InitialInvariant(limit, history);
    RunKeeps(Initial(limit, history), steps);
  }

  // ---- The wire -------------------------------------------------------------------

  /** A message as JSON, the way both ends of the socket write and read it. */
  function Encoded(m: Message): Json {
    match m
    case Gap => Obj(map["type" := Str("gap"), "message" := Str("too far behind to be caught up; reload the office")])
    case Ev(e) => Obj(map["offset" := Num(e.offset as real), "officeId" := Str(e.officeId),
                          "at" := Num(e.at as real), "data" := Obj(e.data)])
  }

  /** The client takes every notice for a notice and every event for that event, whatever its data. */
  lemma WireIsUnderstood(m: Message)
    ensures m.Gap? ==> Client.Read(Some(Encoded(m))) == Client.GapNotice
    ensures m.Ev? ==> Client.Read(Some(Encoded(m))) == Client.Event(Encoded(m))
    ensures m.Ev? ==> Encoded(m).Field("offset") == Num(m.event.offset as real)
  {
  }

  /** The server's side of accepting a socket, in one step: catch up, then subscribe. */
  method AcceptSocket(log: OfficeEventLog, officeId: string, since: Option<int>, socket: nat)
    returns (sent: seq<Message>)
    requires log.Valid()
    modifies log
    ensures log.Valid() && forall f :: log.History(f) == old(log.History(f))
    ensures sent == CatchUp(Tail(log.History(officeId), log.historyLimit), if since.Some? then since.value else 0)
    ensures log.Listeners(officeId) == old(log.Listeners(officeId)) + {socket}
    ensures log.heard == old(log.heard)
  {
    var offset := if since.Some? then since.value else 0;
    var reaches := log.CanReplayFrom(officeId, offset);
    if !reaches {
      sent := [Gap];
    } else {
      var missed := log.Since(officeId, offset);
      sent := Events(missed);
    }
    log.Subscribe(officeId, socket);
  }
}
