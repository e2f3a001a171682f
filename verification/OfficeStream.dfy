/** The client's end of the event stream: one socket at a time, reopened after it goes away. */
module OfficeStream {
  import opened Shared

  /**
   * What the client's closure holds, with the sockets and timers it has made numbered in order:
   * `asked[i]` is the offset socket `i` asked to resume from.
   */
  datatype StreamState = StreamState(
    socket: Option<nat>,
    timer: Option<nat>,
    wanted: bool,
    asked: seq<nat>,
    retried: set<nat>,
    timersMade: nat,
    pending: set<nat>)

  datatype Happening =
    | SocketGone(sock: nat)             // onclose or onerror, any number of times
    | TimerFired(fired: nat, since: nat)  // `since` is what the canvas has seen by then
    | CloseCalled

  function Connected(s: StreamState, since: nat): StreamState {
    if !s.wanted then s
    else s.(socket := Some(|s.asked|), asked := s.asked + [since])
  }

  function Start(since: nat): StreamState {
    Connected(StreamState(None, None, true, [], {}, 0, {}), since)
  }

  /** `clearTimeout`: harmless for a timer that has fired already. */
  function Cleared(s: StreamState): set<nat> {
    if s.timer.Some? then s.pending - {s.timer.value} else s.pending
  }

  function Retried(s: StreamState, sock: nat): StreamState {
    if !s.wanted || sock in s.retried then s
    else s.(retried := s.retried + {sock},
            pending := Cleared(s) + {s.timersMade},
            timer := Some(s.timersMade),
            timersMade := s.timersMade + 1)
  }

  /** Only a socket that exists can go and only a pending timer can fire. */
  predicate Possible(s: StreamState, h: Happening) {
    match h
    case SocketGone(sock) => sock < |s.asked|
    case TimerFired(t, _) => t in s.pending
    case CloseCalled => true
  }

  function Next(s: StreamState, h: Happening): StreamState {
    match h
    case SocketGone(sock) => Retried(s, sock)
    case TimerFired(t, since) => Connected(s.(pending := s.pending - {t}), since)
    case CloseCalled => s.(wanted := false, pending := Cleared(s))
  }

  function Unretried(s: StreamState): (r: set<nat>)
    ensures forall i: nat :: i in r <==> i < |s.asked| && i !in s.retried
  {
    set i | 0 <= i < |s.asked| && i !in s.retried
  }

  /** While the stream is wanted it is kept up by exactly one thing: a pending timer or a live socket. */
  ghost predicate OneHope(s: StreamState) {
    s.wanted ==> |s.pending| + |Unretried(s)| == 1
  }

  ghost predicate StreamInvariant(s: StreamState) {
    && (forall i :: i in s.retried ==> i < |s.asked|)
    && (forall t :: t in s.pending ==> s.timer == Some(t))
    && (!s.wanted ==> s.pending == {})
    && (s.wanted && s.pending != {} ==> Unretried(s) == {})
    && (s.wanted && s.pending == {} ==> |s.asked| > 0 && Unretried(s) == {|s.asked| - 1})
    && OneHope(s)
  }

  lemma StartHasOneHope(since: nat)
    ensures StreamInvariant(Start(since))
  {
  }

  lemma StepKeepsOneHope(s: StreamState, h: Happening)
    requires StreamInvariant(s) && Possible(s, h)
    ensures StreamInvariant(Next(s, h))
  {
    var s' := Next(s, h);
    match h
    case SocketGone(sock) =>
      if s' != s {
        assert sock in Unretried(s) && s.pending == {};
        assert s'.pending == {s.timersMade};
        assert Unretried(s') == {};
      }
    case TimerFired(t, since) =>
      assert s.pending == {t} && s'.pending == {};
      assert Unretried(s) == {};
      assert Unretried(s') == {|s.asked|};
    case CloseCalled =>
      assert s'.pending == {};
  }

  ghost predicate PossibleRun(s: StreamState, hs: seq<Happening>)
    decreases |hs|
  {
    hs == [] || (Possible(s, hs[0]) && PossibleRun(Next(s, hs[0]), hs[1..]))
  }

  function Run(s: StreamState, hs: seq<Happening>): StreamState
    decreases |hs|
  {
    if hs == [] then s else Run(Next(s, hs[0]), hs[1..])
  }

  lemma {:induction false} RunFrom(s: StreamState, hs: seq<Happening>)
    requires StreamInvariant(s) && PossibleRun(s, hs)
    ensures StreamInvariant(Run(s, hs))
    ensures !s.wanted ==> Run(s, hs).asked == s.asked && !Run(s, hs).wanted
    decreases |hs|
  {
    if hs != [] {
      StepKeepsOneHope(s, hs[0]);
      RunFrom(Next(s, hs[0]), hs[1..]);
    }
  }

  /**
   * However often sockets report that they have gone, the stream is kept up by exactly one
   * pending timer or one socket that has not retried.
   */
  lemma EveryRunHasOneHope(since: nat, hs: seq<Happening>)
    requires PossibleRun(Start(since), hs)
    ensures OneHope(Run(Start(since), hs))
  {
    StartHasOneHope(since);
    RunFrom(Start(since), hs);
  }

  lemma {:induction false} RunJoin(s: StreamState, before: seq<Happening>, after: seq<Happening>)
    requires PossibleRun(s, before + after)
    ensures PossibleRun(s, before) && PossibleRun(Run(s, before), after)
    ensures Run(s, before + after) == Run(Run(s, before), after)
    decreases |before|
  {
    if before == [] {
      assert before + after == after;
    } else {
      assert (before + after)[1..] == before[1..] + after;
      RunJoin(Next(s, before[0]), before[1..], after);
    }
  }

  /** Once the stream has been closed, nothing that can still happen opens another socket. */
  lemma NothingOpensAfterClose(since: nat, before: seq<Happening>, after: seq<Happening>)
    requires PossibleRun(Start(since), before + [CloseCalled] + after)
    ensures Run(Start(since), before + [CloseCalled] + after).asked == Run(Start(since), before).asked
  {
    var closing := before + [CloseCalled];
    RunJoin(Start(since), closing, after);
    RunJoin(Start(since), before, [CloseCalled]);
    StartHasOneHope(since);
    RunFrom(Start(since), before);
    var s := Run(Start(since), before);
    assert Run(s, [CloseCalled]) == Next(s, CloseCalled) by {
      assert [CloseCalled][1..] == [];
    }
    StepKeepsOneHope(s, CloseCalled);
    RunFrom(Next(s, CloseCalled), after);
  }

  /**
   * A socket of a wanted stream that goes for the first time leaves a timer pending, and that timer
   * opens the next socket, from the offset of that moment.
   */
  lemma AGoneSocketIsReplaced(s: StreamState, sock: nat, since: nat)
    requires StreamInvariant(s) && s.wanted && sock < |s.asked| && sock !in s.retried
    ensures var gone := Next(s, SocketGone(sock));
      var t := s.timersMade;
      && gone.pending == {t} && gone.asked == s.asked && sock in gone.retried && gone.wanted
      && var again := Next(gone, TimerFired(t, since));
         again.asked == s.asked + [since] && again.socket == Some(|s.asked|) && again.pending == {} && again.wanted
  {
    assert sock in Unretried(s) && s.pending == {};
  }

  // ---- What a message is ------------------------------------------------------

  datatype Reading = GapNotice | Event(record: Json) | NotForUs

  /** `payload` is what the message parsed to, if it parsed. */
  function Read(payload: Option<Json>): Reading {
    if payload.None? || !(payload.value.Obj? || payload.value.Arr?) then NotForUs
    else if payload.value.Field("type") == Str("gap") then GapNotice
    else if !payload.value.Field("offset").Num? then NotForUs
    else Event(payload.value)
  }

  /** The closure's variables, reassigned by the socket's and the timer's callbacks. */
  class Stream {
    var socket: Option<nat>
    var timer: Option<nat>
    var wanted: bool
    var asked: seq<nat>
    var retried: set<nat>
    var timersMade: nat
    var pending: set<nat>
    /** What has been handed to `onEvent`, and how often `onGap` was called. */
    var handed: seq<Json>
    var gaps: nat
    /** The sockets this end has closed. */
    var ended: set<nat>

    ghost function View(): StreamState
      reads this
    {
      StreamState(socket, timer, wanted, asked, retried, timersMade, pending)
    }

    constructor (since: nat)
      ensures View() == Start(since) && StreamInvariant(View())
      ensures handed == [] && gaps == 0 && ended == {}
    {
      socket, timer, wanted := None, None, true;
      asked, retried, timersMade, pending := [], {}, 0, {};
      handed, gaps, ended := [], 0, {};
      new;
      Connect(since);
      StartHasOneHope(since);
    }

    method Connect(since: nat)
      modifies this`socket, this`asked
      ensures View() == Connected(old(View()), since)
    {
      if !wanted { return; }
      socket := Some(|asked|);
      asked := asked + [since];
    }

    method ClearTimer()
      modifies this`pending
      ensures pending == Cleared(old(View()))
    {
      if timer.Some? { pending := pending - {timer.value}; }
    }

    method OnGone(sock: nat)
      requires StreamInvariant(View()) && Possible(View(), SocketGone(sock))
      modifies this`retried, this`pending, this`timer, this`timersMade
      ensures View() == Next(old(View()), SocketGone(sock)) && StreamInvariant(View())
    {
      ghost var next := Next(View(), SocketGone(sock));
      StepKeepsOneHope(View(), SocketGone(sock));
      if !wanted || sock in retried { return; }
      retried := retried + {sock};
      ClearTimer();
      timer := Some(timersMade);
      pending := pending + {timersMade};
      timersMade := timersMade + 1;
      assert View() == next;
    }

    method OnTimer(fired: nat, since: nat)
      requires StreamInvariant(View()) && Possible(View(), TimerFired(fired, since))
      modifies this`pending, this`socket, this`asked
      ensures View() == Next(old(View()), TimerFired(fired, since)) && StreamInvariant(View())
    {
      StepKeepsOneHope(View(), TimerFired(fired, since));
      pending := pending - {fired};
      Connect(since);
    }

    method OnMessage(payload: Option<Json>)
      modifies this`handed, this`gaps
      ensures handed == old(handed) + match Read(payload) { case Event(record) => [record] case _ => [] }
      ensures gaps == old(gaps) + if Read(payload).GapNotice? then 1 else 0
      ensures payload.Some? && payload.value.Field("type") == Str("gap") ==> gaps == old(gaps) + 1 && handed == old(handed)
      ensures payload.Some? && payload.value.Field("type") != Str("gap") ==>
        && gaps == old(gaps)
        && handed == old(handed) + if payload.value.Field("offset").Num? then [payload.value] else []
      ensures payload.None? ==> gaps == old(gaps) && handed == old(handed)
    {
      if payload.None? || !(payload.value.Obj? || payload.value.Arr?) { return; }
      var record := payload.value;
      if record.Field("type") == Str("gap") {
        gaps := gaps + 1;
        return;
      }
      if !record.Field("offset").Num? { return; }
      handed := handed + [record];
    }

    method Close()
      requires StreamInvariant(View())
      modifies this`wanted, this`pending, this`ended
      ensures View() == Next(old(View()), CloseCalled) && StreamInvariant(View())
      ensures !wanted && pending == {}
      ensures ended == old(ended) + if socket.Some? then {socket.value} else {}
    {
      StepKeepsOneHope(View(), CloseCalled);
      StopTrying();
      if socket.Some? { ended := ended + {socket.value}; }
    }

    method StopTrying()
      modifies this`wanted, this`pending
      ensures View() == Next(old(View()), CloseCalled)
    {
      wanted := false;
      ClearTimer();
    }
  }
}
