/**
 * The event log of each office: it keeps a bounded tail of each office's events,
 * tied to the unbounded history it is a tail of.
 */
module EventLog {
  import opened Shared

  datatype OfficeEvent = OfficeEvent(offset: nat, officeId: string, at: int, data: map<string, Json>)

  const DEFAULT_HISTORY_LIMIT := 500

  /** What the server holds for one office. */
  datatype Channel = Channel(events: seq<OfficeEvent>, nextOffset: nat, listeners: set<nat>)

  const NEW_CHANNEL := Channel([], 1, {})

  predicate Concerns(event: OfficeEvent, entityId: string) {
    "id" in event.data && event.data["id"] == Str(entityId)
  }

  // ---- The unbounded history -----------------------------------------------

  /** Offsets count from 1 without a break. */
  ghost predicate IsHistory(history: seq<OfficeEvent>) {
    forall i :: 0 <= i < |history| ==> history[i].offset == i + 1
  }

  /** How many events of a history of `n` a log bounded by `limit` has let go. */
  function Discarded(n: nat, limit: nat): nat {
    if n <= limit then 0 else n - limit
  }

  function Tail(history: seq<OfficeEvent>, limit: nat): seq<OfficeEvent> {
    history[Discarded(|history|, limit)..]
  }

  /** Everything published after `offset`. */
  function Suffix(history: seq<OfficeEvent>, offset: nat): seq<OfficeEvent> {
    if offset <= |history| then history[offset..] else []
  }

  ghost predicate ChangedAfter(history: seq<OfficeEvent>, entityId: string, offset: nat) {
    exists e :: e in Suffix(history, offset) && Concerns(e, entityId)
  }

  /** An entity is changed after an offset by an event at a later one whose data names it by its id. */
  lemma ChangedAfterIs(history: seq<OfficeEvent>, entityId: string, offset: nat)
    requires IsHistory(history)
    ensures ChangedAfter(history, entityId, offset) <==>
      exists e :: e in history && e.offset > offset && "id" in e.data && e.data["id"] == Str(entityId)
  {
    forall e ensures e in Suffix(history, offset) <==> e in history && e.offset > offset {
      if e in history && e.offset > offset {
        var i :| 0 <= i < |history| && history[i] == e;
        assert Suffix(history, offset)[i - offset] == e;
      }
    }
  }

  // ---- What the bounded log answers ----------------------------------------

  function After(events: seq<OfficeEvent>, offset: int): (r: seq<OfficeEvent>)
    ensures forall e :: e in r <==> e in events && e.offset > offset
  {
    if events == [] then []
    else
      var rest := After(events[1..], offset);
      assert forall e :: e in events <==> e == events[0] || e in events[1..];
      if events[0].offset > offset then [events[0]] + rest else rest
  }

  predicate CanReplay(events: seq<OfficeEvent>, offset: int) {
    events == [] || offset >= events[0].offset - 1
  }

  predicate Changed(events: seq<OfficeEvent>, entityId: string, offset: int) {
    !CanReplay(events, offset) || exists e :: e in After(events, offset) && Concerns(e, entityId)
  }

  lemma {:induction false} AfterKeepsLater(events: seq<OfficeEvent>, offset: int)
    requires forall i :: 0 <= i < |events| ==> events[i].offset > offset
    ensures After(events, offset) == events
  {
    if events != [] {
      AfterKeepsLater(events[1..], offset);
    }
  }

  /** Filtering a run of consecutive offsets by offset cuts it at that offset. */
  lemma {:induction false} AfterIsSuffix(history: seq<OfficeEvent>, start: nat, offset: nat)
    requires IsHistory(history) && start <= |history|
    ensures After(history[start..], offset) == Suffix(history, if offset < start then start else offset)
    decreases |history| - start
  {
    if start < |history| {
      assert history[start..][1..] == history[start + 1..];
      if offset <= start {
        AfterKeepsLater(history[start..], offset);
      } else {
        AfterIsSuffix(history, start + 1, offset);
      }
    }
  }

  /**
   * For an offset some client can have seen, the bounded log can replay exactly when nothing
   * after it was discarded, and what it replays then is the full suffix of the history.
   */
  lemma ReplayIsFullSuffix(history: seq<OfficeEvent>, limit: nat, offset: nat)
    requires IsHistory(history) && limit >= 1 && offset <= |history|
    ensures CanReplay(Tail(history, limit), offset) <==> Discarded(|history|, limit) <= offset
    ensures CanReplay(Tail(history, limit), offset) ==> After(Tail(history, limit), offset) == Suffix(history, offset)
  {
    AfterIsSuffix(history, Discarded(|history|, limit), offset);
  }

  /** Whether something changed after an offset, as the bounded log answers it. */
  lemma ChangedMeansLostOrChanged(history: seq<OfficeEvent>, limit: nat, entityId: string, offset: nat)
    requires IsHistory(history) && limit >= 1 && offset <= |history|
    ensures Changed(Tail(history, limit), entityId, offset)
       <==> Discarded(|history|, limit) > offset || ChangedAfter(history, entityId, offset)
  {
  }

  /** An offset nobody was ever given is never refused: the log has nothing after it to object with. */
  lemma OffsetsAheadAreNeverRefused(history: seq<OfficeEvent>, limit: nat, entityId: string, offset: nat)
    requires IsHistory(history) && limit >= 1 && offset > |history|
    ensures !Changed(Tail(history, limit), entityId, offset)
  {
  }

  // ---- The log itself --------------------------------------------------------

  /** The channel is the bounded image of the history. */
  ghost predicate Mirrors(channel: Channel, history: seq<OfficeEvent>, limit: nat) {
    && IsHistory(history)
    && channel.events == Tail(history, limit)
    && channel.nextOffset == |history| + 1
  }

  lemma NewChannelMirrors(limit: nat)
    ensures Mirrors(NEW_CHANNEL, [], limit)
  {
  }

  lemma PublishMirrors(channel: Channel, history: seq<OfficeEvent>, limit: nat, event: OfficeEvent)
    requires limit >= 1 && Mirrors(channel, history, limit) && event.offset == channel.nextOffset
    ensures var grown := channel.events + [event];
      var events := if |grown| > limit then grown[|grown| - limit..] else grown;
      Mirrors(Channel(events, channel.nextOffset + 1, channel.listeners), history + [event], limit)
  {
  }

  /** Every office's channel is the image of its history. */
  ghost predicate AllMirror(channels: map<string, Channel>, histories: map<string, seq<OfficeEvent>>, limit: nat) {
    channels.Keys == histories.Keys && forall f :: f in histories ==> Mirrors(channels[f], histories[f], limit)
  }

  lemma ReplacingMirrors(
    channels: map<string, Channel>, histories: map<string, seq<OfficeEvent>>, limit: nat,
    f: string, channel: Channel, history: seq<OfficeEvent>)
    requires AllMirror(channels, histories, limit) && Mirrors(channel, history, limit)
    ensures AllMirror(channels[f := channel], histories[f := history], limit)
  {
  }

  lemma OneMirrors(channels: map<string, Channel>, histories: map<string, seq<OfficeEvent>>, limit: nat, f: string)
    requires AllMirror(channels, histories, limit) && f in channels
    ensures f in histories && channels[f].events == Tail(histories[f], limit)
    ensures channels[f].nextOffset == |histories[f]| + 1 && Mirrors(channels[f], histories[f], limit)
  {
  }

  class OfficeEventLog {
    const historyLimit: nat
    var channels: map<string, Channel>
    /** Everything each listener has been handed, in order. */
    var heard: map<nat, seq<OfficeEvent>>
    ghost var histories: map<string, seq<OfficeEvent>>

    ghost predicate Valid()
      reads this
    {
      historyLimit >= 1 && AllMirror(channels, histories, historyLimit)
    }

    ghost function History(officeId: string): seq<OfficeEvent>
      reads this
    {
      if officeId in histories then histories[officeId] else []
    }

    ghost function Listeners(officeId: string): set<nat>
      reads this
    {
      if officeId in channels then channels[officeId].listeners else {}
    }

    function Heard(listener: nat): seq<OfficeEvent>
      reads this
    {
      if listener in heard then heard[listener] else []
    }

    constructor (limit: Option<int>)
      ensures Valid()
      ensures limit.None? ==> historyLimit == DEFAULT_HISTORY_LIMIT
      ensures limit.Some? ==> historyLimit == if limit.value < 1 then 1 else limit.value
      ensures forall f :: History(f) == [] && Listeners(f) == {}
      ensures forall l :: Heard(l) == []
    {
      var wanted := if limit.Some? then limit.value else DEFAULT_HISTORY_LIMIT;
      historyLimit := if wanted < 1 then 1 else wanted;
      channels, heard, histories := map[], map[], map[];
    }

    method ChannelFor(officeId: string) returns (channel: Channel)
      requires Valid()
      modifies this`channels, this`histories
      ensures Valid() && officeId in channels && channel == channels[officeId]
      ensures channel.events == Tail(History(officeId), historyLimit) && channel.nextOffset == |History(officeId)| + 1
      ensures forall f :: History(f) == old(History(f)) && Listeners(f) == old(Listeners(f))
    {
      if officeId !in channels {
        NewChannelMirrors(historyLimit);
        ReplacingMirrors(channels, histories, historyLimit, officeId, NEW_CHANNEL, []);
        channels := channels[officeId := NEW_CHANNEL];
        histories := histories[officeId := []];
      }
      channel := channels[officeId];
      OneMirrors(channels, histories, historyLimit, officeId);
    }

    method Publish(officeId: string, now: int, data: map<string, Json>) returns (event: OfficeEvent)
      requires Valid()
      modifies this
      ensures Valid()
      ensures event == OfficeEvent(|old(History(officeId))| + 1, officeId, now, data)
      ensures History(officeId) == old(History(officeId)) + [event]
      ensures forall f :: f != officeId ==> History(f) == old(History(f))
      ensures forall f :: Listeners(f) == old(Listeners(f))
      ensures forall l :: Heard(l) == old(Heard(l)) + if l in Listeners(officeId) then [event] else []
    {
      var channel := ChannelFor(officeId);
      event := OfficeEvent(channel.nextOffset, officeId, now, data);
      Push(officeId, event);
      Tell(channel.listeners, event);
    }

    /** Pushes an event onto its office's channel, and lets go of what is past the limit. */
    method Push(officeId: string, event: OfficeEvent)
      requires Valid() && officeId in channels && event.offset == channels[officeId].nextOffset
      modifies this`channels, this`histories
      ensures Valid()
      ensures History(officeId) == old(History(officeId)) + [event]
      ensures forall f :: f != officeId ==> History(f) == old(History(f))
      ensures forall f :: Listeners(f) == old(Listeners(f))
    {
      OneMirrors(channels, histories, historyLimit, officeId);
      PublishMirrors(channels[officeId], histories[officeId], historyLimit, event);
      var channel := channels[officeId];
      var events := channel.events + [event];
      if |events| > historyLimit {
        events := events[|events| - historyLimit..];
      }
      channel := Channel(events, channel.nextOffset + 1, channel.listeners);
      ReplacingMirrors(channels, histories, historyLimit, officeId, channel, histories[officeId] + [event]);
      channels := channels[officeId := channel];
      histories := histories[officeId := histories[officeId] + [event]];
    }

    /** Hands an event to every listener; one that throws stops nobody else hearing about it. */
    method Tell(listeners: set<nat>, event: OfficeEvent)
      modifies this`heard
      ensures forall l :: Heard(l) == old(Heard(l)) + if l in listeners then [event] else []
    {
      var left := listeners;
      while left != {}
        invariant left <= listeners
        invariant forall l :: Heard(l) == old(Heard(l)) + if l in listeners - left then [event] else []
        decreases left
      {
        var l :| l in left;
        heard := heard[l := Heard(l) + [event]];
        left := left - {l};
      }
    }

    /** The kept events a client at this offset has not seen. */
    method Since(officeId: string, offset: int) returns (r: seq<OfficeEvent>)
      requires Valid()
      modifies this`channels, this`histories
      ensures Valid() && forall f :: History(f) == old(History(f)) && Listeners(f) == old(Listeners(f))
      ensures r == After(Tail(History(officeId), historyLimit), offset)
    {
      var channel := ChannelFor(officeId);
      r := After(channel.events, offset);
    }

    /** Whether what is kept begins early enough for a client at this offset. */
    method CanReplayFrom(officeId: string, offset: int) returns (r: bool)
      requires Valid()
      modifies this`channels, this`histories
      ensures Valid() && forall f :: History(f) == old(History(f)) && Listeners(f) == old(Listeners(f))
      ensures r == CanReplay(Tail(History(officeId), historyLimit), offset)
    {
      var channel := ChannelFor(officeId);
      if |channel.events| == 0 { return true; }
      return offset >= channel.events[0].offset - 1;
    }

    /** Whether an edit made at this offset might undo somebody else's. */
    method ChangedSince(officeId: string, entityId: string, offset: int) returns (r: bool)
      requires Valid()
      modifies this`channels, this`histories
      ensures Valid() && forall f :: History(f) == old(History(f)) && Listeners(f) == old(Listeners(f))
      ensures r == Changed(Tail(History(officeId), historyLimit), entityId, offset)
      ensures 0 <= offset <= |History(officeId)| ==>
        (r <==> Discarded(|History(officeId)|, historyLimit) > offset
                || ChangedAfter(History(officeId), entityId, offset))
    {
      if 0 <= offset <= |History(officeId)| {
        ChangedMeansLostOrChanged(History(officeId), historyLimit, entityId, offset);
      }
      var reaches := CanReplayFrom(officeId, offset);
      if !reaches { return true; }
      var later := Since(officeId, offset);
      return exists e :: e in later && Concerns(e, entityId);
    }

    method Subscribe(officeId: string, listener: nat)
      requires Valid()
      modifies this`channels, this`histories
      ensures Valid() && forall f :: History(f) == old(History(f))
      ensures forall f :: Listeners(f) == old(Listeners(f)) + if f == officeId then {listener} else {}
    {
      var channel := ChannelFor(officeId);
      Relisten(officeId, channel.listeners + {listener});
    }

    /** What the function returned by subscribing does. */
    method Unsubscribe(officeId: string, listener: nat)
      requires Valid()
      modifies this`channels
      ensures Valid() && forall f :: History(f) == old(History(f))
      ensures forall f :: Listeners(f) == old(Listeners(f)) - if f == officeId then {listener} else {}
    {
      if officeId in channels {
        Relisten(officeId, channels[officeId].listeners - {listener});
      }
    }

    method Relisten(officeId: string, listeners: set<nat>)
      requires Valid() && officeId in channels
      modifies this`channels
      ensures Valid() && channels == old(channels)[officeId := old(channels)[officeId].(listeners := listeners)]
    {
      OneMirrors(channels, histories, historyLimit, officeId);
      var channel := channels[officeId].(listeners := listeners);
      ReplacingMirrors(channels, histories, historyLimit, officeId, channel, histories[officeId]);
      channels := channels[officeId := channel];
      assert histories == histories[officeId := histories[officeId]];
    }
  }
}
