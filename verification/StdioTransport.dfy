/** Talking to an MCP server over its standard streams: one JSON message per line, answers matched to requests by id. */
module StdioTransport {
  import opened Shared

  // ---- Framing -----------------------------------------------------------------

  function NewlineAt(s: string): (k: int)
    ensures -1 <= k < |s|
    ensures k >= 0 ==> s[k] == '\n' && '\n' !in s[..k]
    ensures k == -1 ==> '\n' !in s
  {
    if s == "" then -1
    else if s[0] == '\n' then 0
    else
      var k := NewlineAt(s[1..]);
      if k < 0 then -1 else
        assert forall i :: 0 < i < k + 1 ==> s[i] == s[1..][i - 1];
        k + 1
  }

  /** A stream read so far: the lines that have ended, and the one that has not. */
  datatype Cut = Cut(lines: seq<string>, rest: string)

  const NOTHING_READ := Cut([], "")

  function Read(c: Cut, ch: char): Cut {
    if ch == '\n' then Cut(c.lines + [c.rest], "") else c.(rest := c.rest + [ch])
  }

  /** Reading on, one character at a time. */
  function ReadOn(c: Cut, s: string): Cut {
    if s == "" then c else Read(ReadOn(c, s[..|s| - 1]), s[|s| - 1])
  }

  function Terminated(lines: seq<string>): string {
    if lines == [] then "" else Terminated(lines[..|lines| - 1]) + lines[|lines| - 1] + "\n"
  }

  lemma {:induction false} ReadOnJoin(c: Cut, a: string, b: string)
    ensures ReadOn(c, a + b) == ReadOn(ReadOn(c, a), b)
  {
    if b == "" {
      assert a + b == a;
    } else {
      assert (a + b)[..|a + b| - 1] == a + b[..|b| - 1];
      ReadOnJoin(c, a, b[..|b| - 1]);
    }
  }

  lemma {:induction false} ReadOnPlain(c: Cut, s: string)
    requires '\n' !in s
    ensures ReadOn(c, s) == c.(rest := c.rest + s)
  {
    if s == "" {
      assert c.rest + s == c.rest;
    } else {
      ReadOnPlain(c, s[..|s| - 1]);
      assert s == s[..|s| - 1] + [s[|s| - 1]];
      assert c.rest + s == c.rest + s[..|s| - 1] + [s[|s| - 1]];
    }
  }

  lemma ReadOneLine(lines: seq<string>, line: string, more: string)
    requires '\n' !in line
    ensures ReadOn(Cut(lines, ""), line + "\n" + more) == ReadOn(Cut(lines + [line], ""), more)
  {
    ReadOnJoin(Cut(lines, ""), line + "\n", more);
    ReadOnJoin(Cut(lines, ""), line, "\n");
    ReadOnPlain(Cut(lines, ""), line);
    assert "" + line == line;
    assert "\n"[..0] == "";
  }

  lemma ReadFirstLine(lines: seq<string>, s: string)
    requires NewlineAt(s) >= 0
    ensures var k := NewlineAt(s);
      ReadOn(Cut(lines, ""), s) == ReadOn(Cut(lines + [s[..k]], ""), s[k + 1..])
  {
    var k := NewlineAt(s);
    var line, more := s[..k], s[k + 1..];
    assert s[k] == "\n"[0];
    assert s == line + "\n" + more;
    ReadOneLine(lines, line, more);
  }

  ghost predicate Unbroken(lines: seq<string>) {
    forall i :: 0 <= i < |lines| ==> '\n' !in lines[i]
  }

  lemma {:induction false} CutHoldsNoNewline(s: string)
    ensures '\n' !in ReadOn(NOTHING_READ, s).rest && Unbroken(ReadOn(NOTHING_READ, s).lines)
  {
    if s != "" {
      CutHoldsNoNewline(s[..|s| - 1]);
    }
  }

  function Whole(c: Cut): string {
    Terminated(c.lines) + c.rest
  }

  lemma ReadAddsOneCharacter(c: Cut, ch: char)
    ensures Whole(Read(c, ch)) == Whole(c) + [ch]
  {
  }

  /** The lines, each with its newline put back, and the rest are the stream again. */
  lemma {:induction false} CutLosesNothing(s: string)
    ensures Whole(ReadOn(NOTHING_READ, s)) == s
  {
    if s != "" {
      var init, last := s[..|s| - 1], s[|s| - 1];
      calc {
        Whole(ReadOn(NOTHING_READ, s));
        Whole(Read(ReadOn(NOTHING_READ, init), last));
        { ReadAddsOneCharacter(ReadOn(NOTHING_READ, init), last); }
        Whole(ReadOn(NOTHING_READ, init)) + [last];
        { CutLosesNothing(init); }
        init + [last];
        s;
      }
    }
  }

  lemma ReadOneMoreLine(before: string, lines: seq<string>, line: string)
    requires ReadOn(NOTHING_READ, before) == Cut(lines, "") && '\n' !in line
    ensures ReadOn(NOTHING_READ, before + line + "\n") == Cut(lines + [line], "")
  {
    ReadOnJoin(NOTHING_READ, before + line, "\n");
    ReadOnJoin(NOTHING_READ, before, line);
    ReadOnPlain(Cut(lines, ""), line);
    assert "" + line == line;
    assert "\n"[..0] == "";
  }

  lemma {:induction false} WholeLines(lines: seq<string>)
    requires Unbroken(lines)
    ensures ReadOn(NOTHING_READ, Terminated(lines)) == Cut(lines, "")
  {
    if lines != [] {
      var init, last := lines[..|lines| - 1], lines[|lines| - 1];
      WholeLines(init);
      ReadOneMoreLine(Terminated(init), init, last);
      assert lines == init + [last];
    }
  }

  /** And there is only one such cut. */
  lemma CutIsUnique(lines: seq<string>, rest: string)
    requires Unbroken(lines) && '\n' !in rest
    ensures ReadOn(NOTHING_READ, Whole(Cut(lines, rest))) == Cut(lines, rest)
  {
    WholeLines(lines);
    ReadOnJoin(NOTHING_READ, Terminated(lines), rest);
    ReadOnPlain(Cut(lines, ""), rest);
    assert "" + rest == rest;
  }

  function Joined(chunks: seq<string>): string {
    if chunks == [] then "" else Joined(chunks[..|chunks| - 1]) + chunks[|chunks| - 1]
  }

  /** What has been taken and what is kept back are the cut of everything that ever arrived. */
  ghost predicate Framed(chunks: seq<string>, taken: seq<string>, buffer: string) {
    ReadOn(NOTHING_READ, Joined(chunks)) == Cut(taken, buffer)
  }

  /**
   * Framing does not depend on how the stream was cut into chunks: the lines taken are its
   * newline-terminated lines in order, what is kept back is the rest, and nothing is lost.
   */
  lemma FramingIsTheWholeStream(chunks: seq<string>, taken: seq<string>, buffer: string)
    ensures Framed(chunks, taken, buffer)
       <==> Unbroken(taken) && '\n' !in buffer && Terminated(taken) + buffer == Joined(chunks)
  {
    CutHoldsNoNewline(Joined(chunks));
    CutLosesNothing(Joined(chunks));
    if Unbroken(taken) && '\n' !in buffer && Terminated(taken) + buffer == Joined(chunks) {
      CutIsUnique(taken, buffer);
    }
  }

  lemma AllReadPlain(taken: seq<string>, buffer: string)
    requires '\n' !in buffer
    ensures ReadOn(Cut(taken, ""), buffer) == Cut(taken, buffer)
  {
    ReadOnPlain(Cut(taken, ""), buffer);
    assert "" + buffer == buffer;
  }

  /** Reading on from what was kept back and one more chunk is reading the whole stream. */
  lemma ChunkBoundariesVanish(chunks: seq<string>, taken: seq<string>, buffer: string, chunk: string)
    requires Framed(chunks, taken, buffer)
    ensures ReadOn(Cut(taken, ""), buffer + chunk) == ReadOn(NOTHING_READ, Joined(chunks + [chunk]))
  {
    CutHoldsNoNewline(Joined(chunks));
    AllReadPlain(taken, buffer);
    ReadOnJoin(Cut(taken, ""), buffer, chunk);
    ReadOnJoin(NOTHING_READ, Joined(chunks), chunk);
    assert (chunks + [chunk])[..|chunks|] == chunks;
  }

  // ---- The kept end of the server's own logging -----------------------------------

  const MAX_STDERR_CHARS := 2000

  function LastChars(s: string): string {
    if |s| <= MAX_STDERR_CHARS then s else s[|s| - MAX_STDERR_CHARS..]
  }

  lemma KeepingTheEnd(before: string, chunk: string)
    ensures LastChars(LastChars(before) + chunk) == LastChars(before + chunk)
  {
  }

  // ---- Correlation ------------------------------------------------------------------

  datatype Outcome = Resolved(message: Json) | Rejected(reason: string)

  ghost predicate NoIdTwice(issued: seq<Json>) {
    forall i, j :: 0 <= i < j < |issued| ==> issued[i] != issued[j]
  }

  ghost predicate InFlight(issued: seq<Json>, waiting: map<Json, nat>, n: nat) {
    n < |issued| && issued[n] in waiting && waiting[issued[n]] == n
  }

  /** Every request is either settled or waiting under its own id, and not both. */
  ghost predicate Correlated(issued: seq<Json>, waiting: map<Json, nat>, outcomes: map<nat, Outcome>) {
    && (forall n {:trigger InFlight(issued, waiting, n)} :: 0 <= n < |issued| && n !in outcomes ==>
         InFlight(issued, waiting, n))
    && (forall id :: id in waiting ==> waiting[id] !in outcomes)
  }

  /** The books of the transport agree: what waits was asked, and what was answered bears its own id. */
  ghost predicate Matches(issued: seq<Json>, waiting: map<Json, nat>, outcomes: map<nat, Outcome>) {
    && (forall id :: id in waiting ==> id.Num? && waiting[id] < |issued| && issued[waiting[id]] == id)
    && (forall n :: n in outcomes ==> n < |issued|)
    && (forall n :: n in outcomes && outcomes[n].Resolved? ==> outcomes[n].message.Field("id") == issued[n])
    && (NoIdTwice(issued) ==> Correlated(issued, waiting, outcomes))
  }

  function SettledWith(outcomes: map<nat, Outcome>, n: nat, outcome: Outcome): map<nat, Outcome> {
    if n in outcomes then outcomes else outcomes[n := outcome]
  }

  lemma AskKeepsMatching(issued: seq<Json>, waiting: map<Json, nat>, outcomes: map<nat, Outcome>, id: real)
    requires Matches(issued, waiting, outcomes)
    ensures Matches(issued + [Num(id)], waiting[Num(id) := |issued|], outcomes)
    ensures NoIdTwice(issued + [Num(id)]) ==> Num(id) !in waiting
  {
    var issued', waiting' := issued + [Num(id)], waiting[Num(id) := |issued|];
    if NoIdTwice(issued') {
      forall i, j | 0 <= i < j < |issued| ensures issued[i] != issued[j] {
        assert issued'[i] != issued'[j];
      }
      forall other | other in waiting ensures other != Num(id) {
        assert issued'[waiting[other]] != issued'[|issued|];
      }
      forall n | 0 <= n < |issued'| && n !in outcomes ensures InFlight(issued', waiting', n) {
        assert n < |issued| ==> InFlight(issued, waiting, n);
      }
    }
  }

  /** Settling a request under its own id and no longer waiting for it keeps the books. */
  lemma SettleKeepsMatching(
    issued: seq<Json>, waiting: map<Json, nat>, outcomes: map<nat, Outcome>, n: nat, outcome: Outcome)
    requires Matches(issued, waiting, outcomes) && n < |issued|
    requires outcome.Resolved? ==> outcome.message.Field("id") == issued[n]
    ensures Matches(issued, waiting - {issued[n]}, SettledWith(outcomes, n, outcome))
  {
    var waiting', outcomes' := waiting - {issued[n]}, SettledWith(outcomes, n, outcome);
    if NoIdTwice(issued) {
      forall k | 0 <= k < |issued| && k !in outcomes' ensures InFlight(issued, waiting', k) {
        assert InFlight(issued, waiting, k);
      }
    }
  }

  lemma RejectAllKeepsMatching(
    issued: seq<Json>, waiting: map<Json, nat>, outcomes: map<nat, Outcome>, outcomes': map<nat, Outcome>)
    requires Matches(issued, waiting, outcomes)
    requires forall n :: n in outcomes ==> n in outcomes' && outcomes'[n] == outcomes[n]
    requires forall n :: n in outcomes' && n !in outcomes ==> n < |issued| && outcomes'[n].Rejected?
    requires forall id :: id in waiting ==> waiting[id] in outcomes'
    ensures Matches(issued, map[], outcomes')
    ensures NoIdTwice(issued) ==> forall n :: 0 <= n < |issued| ==> n in outcomes'
  {
    if NoIdTwice(issued) {
      forall n | 0 <= n < |issued| ensures n in outcomes' {
        assert n !in outcomes ==> InFlight(issued, waiting, n);
      }
    }
  }

  // ---- What lines do to the books -----------------------------------------------------

  /** The id a line answers to, if it is a message with one. */
  function Answers(parse: string -> Option<Json>, line: string): Option<Json> {
    var parsed := parse(line);
    if Trim(line) == "" || parsed.None? || parsed.value.Field("id").Undefined? || parsed.value.Field("id").Null?
    then None else Some(parsed.value.Field("id"))
  }

  /** The notification a line carries, if it is one. */
  function Notifies(parse: string -> Option<Json>, line: string): Option<Json> {
    var parsed := parse(line);
    if Trim(line) != "" && parsed.Some? && Answers(parse, line).None? && parsed.value.Field("method").Str?
    then parsed else None
  }

  /** Who waits for what, what has been settled, and what has been handed to the notification handler. */
  datatype Books = Books(waiting: map<Json, nat>, outcomes: map<nat, Outcome>, notified: seq<Json>)

  /** One line settles the request whose id it bears, or tells the handler something, or does nothing. */
  function Took(parse: string -> Option<Json>, b: Books, line: string): Books {
    match Answers(parse, line)
    case None =>
      var told := Notifies(parse, line);
      b.(notified := b.notified + if told.Some? then [told.value] else [])
    case Some(id) =>
      if id !in b.waiting then b
      else b.(waiting := b.waiting - {id},
              outcomes := SettledWith(b.outcomes, b.waiting[id], Resolved(parse(line).value)))
  }

  function TookAll(parse: string -> Option<Json>, b: Books, lines: seq<string>): Books {
    if lines == [] then b
    else Took(parse, TookAll(parse, b, lines[..|lines| - 1]), lines[|lines| - 1])
  }

  lemma TookOneMore(parse: string -> Option<Json>, b: Books, lines: seq<string>, line: string)
    ensures TookAll(parse, b, lines + [line]) == Took(parse, TookAll(parse, b, lines), line)
  {
  }

  /** What one line leaves settled or told stays so. */
  lemma TookOnlyAdds(parse: string -> Option<Json>, b: Books, line: string)
    ensures var b' := Took(parse, b, line);
      && b.notified <= b'.notified
      && (forall n :: n in b.outcomes ==> n in b'.outcomes && b'.outcomes[n] == b.outcomes[n])
      && (forall n :: n in b'.outcomes && n !in b.outcomes ==>
           b'.outcomes[n].Resolved? && parse(line) == Some(b'.outcomes[n].message))
  {
  }

  /** A line is a message that bears this id. */
  predicate Bears(parse: string -> Option<Json>, line: string, id: Json) {
    Trim(line) != "" && parse(line).Some? && parse(line).value.Field("id") == id && !id.Undefined? && !id.Null?
  }

  /**
   * An answer to a request that waits settles it with the very message and ends its waiting; a call
   * without an id is told once; and any other line changes nothing.
   */
  ghost predicate TakenRight(parse: string -> Option<Json>, b: Books, line: string, b': Books) {
    && (forall id :: Bears(parse, line, id) && id in b.waiting ==>
         && b'.waiting == b.waiting - {id} && b'.notified == b.notified
         && (b.waiting[id] in b.outcomes ==> b'.outcomes == b.outcomes)
         && (b.waiting[id] !in b.outcomes ==>
              b'.outcomes == b.outcomes[b.waiting[id] := Resolved(parse(line).value)]))
    && (Tells(parse, line) ==> b' == b.(notified := b.notified + [parse(line).value]))
    && (!Tells(parse, line) && (forall id :: Bears(parse, line, id) ==> id !in b.waiting) ==> b' == b)
  }

  /** A line is a call of the server's own: it names a method, and no request it would answer. */
  predicate Tells(parse: string -> Option<Json>, line: string) {
    && Trim(line) != "" && parse(line).Some? && parse(line).value.Field("method").Str?
    && (parse(line).value.Field("id").Undefined? || parse(line).value.Field("id").Null?)
  }

  lemma TookIsRight(parse: string -> Option<Json>, b: Books, line: string)
    ensures TakenRight(parse, b, line, Took(parse, b, line))
  {
  }

  /** No two ids wait for one request. */
  ghost predicate OneToOne(waiting: map<Json, nat>) {
    forall id, other :: id in waiting && other in waiting && waiting[id] == waiting[other] ==> id == other
  }

  /** Lines that do not bear an id leave the request waiting under it as it is. */
  lemma {:induction false} OthersLeaveItWaiting(parse: string -> Option<Json>, b: Books, lines: seq<string>, id: Json)
    requires OneToOne(b.waiting) && id in b.waiting && b.waiting[id] !in b.outcomes
    requires forall i :: 0 <= i < |lines| ==> !Bears(parse, lines[i], id)
    ensures var b' := TookAll(parse, b, lines);
      && OneToOne(b'.waiting) && id in b'.waiting && b'.waiting[id] == b.waiting[id] && b.waiting[id] !in b'.outcomes
  {
    if lines != [] {
      OthersLeaveItWaiting(parse, b, lines[..|lines| - 1], id);
    }
  }

  lemma {:induction false} SettledStays(parse: string -> Option<Json>, b: Books, lines: seq<string>, id: Json, n: nat)
    requires n in b.outcomes && id !in b.waiting
    ensures n in TookAll(parse, b, lines).outcomes && TookAll(parse, b, lines).outcomes[n] == b.outcomes[n]
    ensures id !in TookAll(parse, b, lines).waiting
  {
    if lines != [] {
      SettledStays(parse, b, lines[..|lines| - 1], id, n);
    }
  }

  /** The k-th of the lines is the first that bears an id. */
  predicate FirstToBear(parse: string -> Option<Json>, lines: seq<string>, k: nat, id: Json) {
    k < |lines| && Bears(parse, lines[k], id) && forall i :: 0 <= i < k ==> !Bears(parse, lines[i], id)
  }

  lemma AnswerSettles(parse: string -> Option<Json>, b: Books, before: seq<string>, line: string, id: Json)
    requires OneToOne(b.waiting) && id in b.waiting && b.waiting[id] !in b.outcomes
    requires Bears(parse, line, id) && forall i :: 0 <= i < |before| ==> !Bears(parse, before[i], id)
    ensures var b' := TookAll(parse, b, before + [line]);
      && id !in b'.waiting && b.waiting[id] in b'.outcomes
      && b'.outcomes[b.waiting[id]] == Resolved(parse(line).value)
  {
    OthersLeaveItWaiting(parse, b, before, id);
    TookOneMore(parse, b, before, line);
  }

  /** A request that waits is settled by the first of the lines that answers it. */
  lemma FirstAnswerSettles(parse: string -> Option<Json>, b: Books, lines: seq<string>, k: nat, id: Json)
    requires OneToOne(b.waiting) && id in b.waiting && b.waiting[id] !in b.outcomes
    requires FirstToBear(parse, lines, k, id)
    ensures var b' := TookAll(parse, b, lines);
      && id !in b'.waiting && b.waiting[id] in b'.outcomes
      && b'.outcomes[b.waiting[id]] == Resolved(parse(lines[k]).value)
  {
    var upTo, rest := lines[..k] + [lines[k]], lines[k + 1..];
    assert lines == upTo + rest;
    AnswerSettles(parse, b, lines[..k], lines[k], id);
    SettledStays(parse, TookAll(parse, b, upTo), rest, id, b.waiting[id]);
    TookInTwoGoes(parse, b, upTo, rest);
  }

  /** Every request that waited and has an answer among the lines is settled by the first of them. */
  ghost predicate FirstAnswersSettle(parse: string -> Option<Json>, b: Books, lines: seq<string>, b': Books) {
    forall id, k: nat :: id in b.waiting && b.waiting[id] !in b.outcomes && FirstToBear(parse, lines, k, id) ==>
      && id !in b'.waiting && b.waiting[id] in b'.outcomes
      && b'.outcomes[b.waiting[id]] == Resolved(parse(lines[k]).value)
  }

  lemma LinesSettle(parse: string -> Option<Json>, issued: seq<Json>, b: Books, lines: seq<string>)
    requires Matches(issued, b.waiting, b.outcomes)
    ensures FirstAnswersSettle(parse, b, lines, TookAll(parse, b, lines))
  {
    forall id, other | id in b.waiting && other in b.waiting && b.waiting[id] == b.waiting[other] ensures id == other {
      assert issued[b.waiting[id]] == id;
    }
    forall id, k: nat | id in b.waiting && b.waiting[id] !in b.outcomes && FirstToBear(parse, lines, k, id)
      ensures var b' := TookAll(parse, b, lines);
        && id !in b'.waiting && b.waiting[id] in b'.outcomes
        && b'.outcomes[b.waiting[id]] == Resolved(parse(lines[k]).value)
    {
      FirstAnswerSettles(parse, b, lines, k, id);
    }
  }

  lemma TookKeepsMatching(parse: string -> Option<Json>, issued: seq<Json>, b: Books, line: string)
    requires Matches(issued, b.waiting, b.outcomes)
    ensures Matches(issued, Took(parse, b, line).waiting, Took(parse, b, line).outcomes)
  {
    var id := Answers(parse, line);
    if id.Some? && id.value in b.waiting {
      SettleKeepsMatching(issued, b.waiting, b.outcomes, b.waiting[id.value], Resolved(parse(line).value));
    }
  }

  /** Lines taken together and lines taken in two goes come to the same. */
  lemma {:induction false} TookInTwoGoes(parse: string -> Option<Json>, b: Books, a: seq<string>, c: seq<string>)
    ensures TookAll(parse, b, a + c) == TookAll(parse, TookAll(parse, b, a), c)
  {
    if c == [] {
      assert a + c == a;
    } else {
      TookInTwoGoes(parse, b, a, c[..|c| - 1]);
      assert (a + c)[..|a + c| - 1] == a + c[..|c| - 1];
    }
  }

  /** One chunk: the lines it completes are taken at once, and the rest is kept back. */
  function Fed(parse: string -> Option<Json>, b: Books, kept: string, chunk: string): (Books, string) {
    var cut := ReadOn(NOTHING_READ, kept + chunk);
    (TookAll(parse, b, cut.lines), cut.rest)
  }

  /** The transport fed a stream in chunks. */
  function FedTo(parse: string -> Option<Json>, b: Books, chunks: seq<string>): (Books, string) {
    if chunks == [] then (b, "")
    else
      var (before, kept) := FedTo(parse, b, chunks[..|chunks| - 1]);
      Fed(parse, before, kept, chunks[|chunks| - 1])
  }

  lemma {:induction false} LinesGoOn(lines: seq<string>, s: string)
    ensures ReadOn(Cut(lines, ""), s) == Cut(lines + ReadOn(NOTHING_READ, s).lines, ReadOn(NOTHING_READ, s).rest)
  {
    if s != "" {
      LinesGoOn(lines, s[..|s| - 1]);
      var c := ReadOn(NOTHING_READ, s[..|s| - 1]);
      assert (lines + c.lines) + [c.rest] == lines + (c.lines + [c.rest]);
    }
  }

  /** With no newline left, what was taken of a chunk and what is kept back are the chunk's own cut. */
  lemma ChunkEnds(before: seq<string>, s: string, taken: seq<string>, buffer: string)
    requires before <= taken && '\n' !in buffer && ReadOn(Cut(taken, ""), buffer) == ReadOn(Cut(before, ""), s)
    ensures ReadOn(Cut(before, ""), s) == Cut(taken, buffer)
    ensures ReadOn(NOTHING_READ, s) == Cut(taken[|before|..], buffer)
  {
    AllReadPlain(taken, buffer);
    LinesGoOn(before, s);
  }

  lemma {:induction false} FeedingIsTakingTheLines(parse: string -> Option<Json>, b: Books, chunks: seq<string>)
    ensures var cut := ReadOn(NOTHING_READ, Joined(chunks));
      FedTo(parse, b, chunks) == (TookAll(parse, b, cut.lines), cut.rest)
  {
    if chunks != [] {
      var before, chunk := chunks[..|chunks| - 1], chunks[|chunks| - 1];
      FeedingIsTakingTheLines(parse, b, before);
      var cut := ReadOn(NOTHING_READ, Joined(before));
      assert chunks == before + [chunk];
      ChunkBoundariesVanish(before, cut.lines, cut.rest, chunk);
      LinesGoOn(cut.lines, cut.rest + chunk);
      TookInTwoGoes(parse, b, cut.lines, ReadOn(NOTHING_READ, cut.rest + chunk).lines);
    }
  }

  /** However a stream is cut, the same requests are settled by the same answers and the same is told. */
  lemma ChunkingSettlesNothingElse(parse: string -> Option<Json>, b: Books, one: seq<string>, other: seq<string>)
    requires Joined(one) == Joined(other)
    ensures FedTo(parse, b, one) == FedTo(parse, b, other)
  {
    FeedingIsTakingTheLines(parse, b, one);
    FeedingIsTakingTheLines(parse, b, other);
  }

  /** The reason, and what the server itself said last when it said anything. */
  function FailureMessage(reason: string, logged: string): string {
    if |logged| == 0 then reason else reason + ". It said: " + Trim(logged)
  }

  class Transport {
    /** What `JSON.parse` makes of a line, if it does not throw. */
    const parse: string -> Option<Json>
    const command: string

    var child: Option<nat>
    var spawned: nat
    var closedBecause: Option<string>
    var logged: string
    var buffer: string
    var waiting: map<Json, nat>
    /** The id of each request made, in order: a request is known by its place here. */
    var issued: seq<Json>
    /** How each request's promise was settled. */
    var outcomes: map<nat, Outcome>
    /** What has been handed to the notification handler. */
    var notified: seq<Json>

    ghost var stdout: seq<string>  // every chunk ever received
    ghost var stderr: string       // every character ever received
    ghost var taken: seq<string>   // every line passed to `Take`

    // The four things every callback keeps. Each method asks for and restores the ones whose
    // fields it changes; its `modifies` clause leaves the others' fields alone.

    ghost predicate Framing()
      reads this`stdout, this`taken, this`buffer
    {
      Framed(stdout, taken, buffer)
    }

    ghost predicate Logging()
      reads this`stderr, this`logged
    {
      logged == LastChars(stderr)
    }

    ghost predicate Matching()
      reads this`issued, this`waiting, this`outcomes
    {
      Matches(issued, waiting, outcomes)
    }

    /** Once the process has gone there is none, and nobody waits for one. */
    ghost predicate Ending()
      reads this`closedBecause, this`child, this`waiting
    {
      closedBecause.Some? ==> child.None? && waiting == map[]
    }

    constructor (command: string, parse: string -> Option<Json>)
      ensures Framing() && Logging() && Matching() && Ending() && this.parse == parse && this.command == command
      ensures outcomes == map[] && waiting == map[] && spawned == 0 && closedBecause.None?
    {
      this.command, this.parse := command, parse;
      child, spawned, closedBecause, logged, buffer := None, 0, None, "", "";
      waiting, outcomes, notified := map[], map[], [];
      issued, stdout, stderr, taken := [], [], "", [];
    }

    /** A promise is settled by the first answer or failure it is given. */
    method Settle(n: nat, outcome: Outcome)
      modifies this`outcomes
      ensures outcomes == SettledWith(old(outcomes), n, outcome)
    {
      if n !in outcomes {
        outcomes := outcomes[n := outcome];
      }
    }

    /** The process could not be run, or has gone: nobody waits for it any longer. */
    method Fail(reason: string)
      requires Matching()
      modifies this`closedBecause, this`outcomes, this`waiting
      ensures Matching() && waiting == map[] && closedBecause == Some(reason)
      ensures forall n :: n in old(outcomes) ==> n in outcomes && outcomes[n] == old(outcomes)[n]
      ensures NoIdTwice(issued) ==> forall n :: 0 <= n < |issued| ==> n in outcomes
      ensures forall n :: n in outcomes && n !in old(outcomes) ==>
        outcomes[n] == Rejected(if logged == "" then reason else reason + ". It said: " + Trim(logged))
      ensures forall id :: id in old(waiting) ==> old(waiting[id]) in outcomes
    {
      closedBecause := Some(reason);
      var message := FailureMessage(reason, logged);
      var left := waiting.Keys;
      while left != {}
        invariant left <= waiting.Keys
        invariant forall n :: n in old(outcomes) ==> n in outcomes && outcomes[n] == old(outcomes)[n]
        invariant forall n :: n in outcomes && n !in old(outcomes) ==> outcomes[n] == Rejected(message)
        invariant forall n :: n in outcomes ==> n < |issued|
        invariant forall id :: id in waiting && id !in left ==> waiting[id] in outcomes
        decreases left
        modifies this`outcomes
      {
        var id :| id in left;
        Settle(waiting[id], Rejected(message));
        left := left - {id};
      }
      RejectAllKeepsMatching(issued, waiting, old(outcomes), outcomes);
      waiting := map[];
    }

    ghost function View(): Books
      reads this`waiting, this`outcomes, this`notified
    {
      Books(waiting, outcomes, notified)
    }

    /** One line of stdout. */
    method Take(line: string)
      requires Matching() && Ending()
      modifies this`outcomes, this`waiting, this`notified, this`taken
      ensures Matching() && Ending() && taken == old(taken) + [line]
      ensures View() == Took(parse, old(View()), line) && TakenRight(parse, old(View()), line, View())
    {
      TookIsRight(parse, View(), line);
      TookKeepsMatching(parse, issued, View(), line);
      taken := taken + [line];
      if Trim(line) == "" { return; }
      var parsed := parse(line);
      if parsed.None? { return; }
      var message := parsed.value;
      if !message.Obj? && !message.Arr? { return; }
      var id := message.Field("id");
      if id.Undefined? || id.Null? {
        if message.Field("method").Str? {
          notified := notified + [message];
        }
        return;
      }
      if id !in waiting { return; }
      var pending := waiting[id];
      waiting := waiting - {id};
      Settle(pending, Resolved(message));
    }

    /** Where taking the lines of a stream has got to: `whole` is what it comes to, `b` where it began. */
    ghost predicate Taking(b: Books, start: nat, whole: Cut)
      reads this`taken, this`buffer, this`waiting, this`outcomes, this`notified
    {
      && ReadOn(Cut(taken, ""), buffer) == whole
      && start <= |taken| && View() == TookAll(parse, b, taken[start..])
    }

    /** Takes the first line off the buffer. */
    method TakeFirst(newline: nat, ghost b: Books, ghost start: nat, ghost whole: Cut)
      requires Matching() && Ending() && newline == NewlineAt(buffer) && Taking(b, start, whole)
      modifies this`buffer, this`outcomes, this`waiting, this`notified, this`taken
      ensures Matching() && Ending() && Taking(b, start, whole) && |buffer| < |old(buffer)|
      ensures old(taken) <= taken
    {
      ReadFirstLine(taken, buffer);
      TookOneMore(parse, b, taken[start..], buffer[..newline]);
      Take(buffer[..newline]);
      buffer := buffer[newline + 1..];
      assert taken[start..] == old(taken)[start..] + [taken[|taken| - 1]];
    }

    /** A chunk of stdout, cut anywhere: every line it completes is taken, in order. */
    method OnStdout(chunk: string)
      requires Framing() && Matching() && Ending()
      modifies this`buffer, this`outcomes, this`waiting, this`notified, this`taken, this`stdout
      ensures Framing() && Matching() && Ending() && stdout == old(stdout) + [chunk]
      ensures (View(), buffer) == Fed(parse, old(View()), old(buffer), chunk)
      ensures FirstAnswersSettle(parse, old(View()), ReadOn(NOTHING_READ, old(buffer) + chunk).lines, View())
    {
      ghost var whole, start, b := ReadOn(NOTHING_READ, Joined(stdout + [chunk])), |taken|, View();
      LinesSettle(parse, issued, b, ReadOn(NOTHING_READ, buffer + chunk).lines);
      ChunkBoundariesVanish(stdout, taken, buffer, chunk);
      stdout := stdout + [chunk];
      buffer := buffer + chunk;
      var newline := NewlineAt(buffer);
      while newline >= 0
        invariant Matching() && Ending() && newline == NewlineAt(buffer)
        invariant Taking(b, start, whole) && old(taken) <= taken
        decreases |buffer|
        modifies this`buffer, this`outcomes, this`waiting, this`notified, this`taken
      {
        TakeFirst(newline, b, start, whole);
        newline := NewlineAt(buffer);
      }
      ChunkEnds(old(taken), old(buffer) + chunk, taken, buffer);
    }

    method OnStderr(chunk: string)
      requires Logging()
      modifies this`logged, this`stderr
      ensures Logging() && stderr == old(stderr) + chunk
      ensures |stderr| <= 2_000 ==> logged == stderr
      ensures |stderr| > 2_000 ==> logged == stderr[|stderr| - 2_000..]
    {
      KeepingTheEnd(stderr, chunk);
      stderr := stderr + chunk;
      logged := LastChars(logged + chunk);
    }

    /** `error` and `close` events of the process: either way it is gone for good. */
    method OnGone(why: string)
      requires Matching()
      modifies this`child, this`closedBecause, this`outcomes, this`waiting
      ensures Matching() && Ending() && child.None? && closedBecause == Some(command + why) && waiting == map[]
      ensures NoIdTwice(issued) ==> forall n :: 0 <= n < |issued| ==> n in outcomes
      ensures forall n :: n in old(outcomes) ==> n in outcomes && outcomes[n] == old(outcomes)[n]
      ensures forall n :: n in outcomes && n !in old(outcomes) ==>
        outcomes[n] == Rejected(if logged == "" then command + why else command + why + ". It said: " + Trim(logged))
    {
      child := None;
      Fail(command + why);
    }

    /** Starts the process for the first message; a process that has gone is not started again. */
    method Start() returns (ok: bool)
      modifies this`child, this`spawned
      ensures ok <==> old(child).Some? || closedBecause.None?
      ensures ok ==> child.Some?
      ensures spawned == old(spawned) + if ok && old(child).None? then 1 else 0
      ensures !ok ==> child == old(child)
    {
      if child.Some? { return true; }
      if closedBecause.Some? { return false; }
      child := Some(spawned);
      spawned := spawned + 1;
      return true;
    }

    /** The n-th request could not be written, at once or after the fact. */
    method OnWriteError(n: nat, reason: string)
      requires Matching() && n < |issued|
      modifies this`waiting, this`outcomes
      ensures Matching() && (old(Ending()) ==> Ending()) && waiting == old(waiting) - {issued[n]}
      ensures outcomes == if n in old(outcomes) then old(outcomes) else old(outcomes)[n := Rejected(reason)]
    {
      SettleKeepsMatching(issued, waiting, outcomes, n, Rejected(reason));
      waiting := waiting - {issued[n]};
      Settle(n, Rejected(reason));
    }

    /** A process that has gone takes no request: it is settled at once, and still nobody waits. */
    method Request(id: real) returns (n: nat)
      requires Matching() && Ending()
      modifies this`issued, this`waiting, this`outcomes, this`child, this`spawned
      ensures Matching() && Ending() && n == |old(issued)| && issued == old(issued) + [Num(id)]
      ensures closedBecause.Some? ==>
        child.None? && outcomes == old(outcomes)[n := Rejected(closedBecause.value)] && waiting == map[]
      ensures closedBecause.None? ==>
        child.Some? && outcomes == old(outcomes) && waiting == old(waiting)[Num(id) := n]
      ensures spawned == old(spawned) + if closedBecause.None? && old(child).None? then 1 else 0
    {
      AskKeepsMatching(issued, waiting, outcomes, id);
      n := |issued|;
      issued := issued + [Num(id)];
      waiting := waiting[Num(id) := n];
      var ok := Start();
      if !ok {
        OnWriteError(n, closedBecause.value);
      }
    }

    method Close() returns (ended: bool)
      requires Ending()
      modifies this`child
      ensures Ending() && child.None? && (ended <==> old(child).Some?)
    {
      ended := child.Some?;
      child := None;
    }
  }
}
