/** Speaking MCP over a request/response transport: one handshake, then tool calls. */
module McpSession {
  import opened Shared
  import StdioTransport

  const MCP_PROTOCOL_VERSION := "2025-06-18"
  const KNOWN_PROTOCOL_VERSIONS := ["2025-11-25", MCP_PROTOCOL_VERSION, "2025-03-26", "2024-11-05"]
  const MAX_TOOL_PAGES := 20

  function NotSpoken(version: string): string {
    "this office does not speak MCP " + version + "; it knows 2025-11-25, 2025-06-18, 2025-03-26, 2024-11-05"
  }

  /** A message handed to the transport, in the order they were handed over. */
  datatype Sent = Asked(id: nat, name: string, params: Json) | Notified(name: string)

  /** What a request came back with: a result, or the server's error. */
  type Reply = Result<Json, string>

  // ---- The handshake ------------------------------------------------------------

  datatype Handshake =
    | NotBegun
    | Asking        // initialize has been sent
    | Announcing    // its answer was accepted, notifications/initialized has been sent
    | Ready
    | Broken(why: string)

  function Text(value: Json): Option<string> {
    if value.Str? && |value.s| > 0 then Some(value.s) else None
  }

  predicate IsToolRequest(m: Sent) {
    m.Asked? && m.name in ["tools/list", "tools/call"]
  }

  const INITIALIZED := Notified("notifications/initialized")

  /** Request ids count up from 1 in the order they are sent; `nextId` is the next one. */
  ghost predicate IdsCount(sent: seq<Sent>, nextId: nat) {
    if sent == [] then nextId == 1
    else
      var before, last := sent[..|sent| - 1], sent[|sent| - 1];
      if last.Asked? then last.id + 1 == nextId && IdsCount(before, last.id) else IdsCount(before, nextId)
  }

  ghost predicate OnlyToolsFrom(sent: seq<Sent>, start: nat) {
    |sent| <= start ||
    (IsToolRequest(sent[|sent| - 1]) && OnlyToolsFrom(sent[..|sent| - 1], start))
  }

  /** What has been sent at each point of the handshake. */
  ghost predicate InOrder(sent: seq<Sent>, handshake: Handshake) {
    && (sent == [] <==> handshake.NotBegun?)
    && (|sent| > 0 ==> sent[0].Asked? && sent[0].name == "initialize")
    && (handshake.Asking? ==> |sent| == 1)
    && (handshake.Announcing? ==> |sent| == 2)
    && (handshake.Ready? ==> |sent| >= 2)
    && (|sent| > 1 ==> sent[1] == INITIALIZED)
    && OnlyToolsFrom(sent, 2)
  }

  /** No tool is listed or called before the two steps of the handshake have been sent, or anything else after. */
  lemma {:induction false} ToolsComeAfterHandshake(sent: seq<Sent>, handshake: Handshake, i: nat)
    requires InOrder(sent, handshake) && i < |sent|
    ensures IsToolRequest(sent[i]) <==> i >= 2
    ensures i >= 2 ==> sent[0].Asked? && sent[0].name == "initialize" && sent[1] == INITIALIZED
  {
    assert "initialize" !in ["tools/list", "tools/call"] by {
      assert "initialize"[0] != "tools/list"[0];
    }
    if i >= 2 {
      OnlyToolsAt(sent, i);
    }
  }

  lemma {:induction false} OnlyToolsAt(sent: seq<Sent>, i: nat)
    requires OnlyToolsFrom(sent, 2) && 2 <= i < |sent|
    ensures IsToolRequest(sent[i])
  {
    if i < |sent| - 1 {
      OnlyToolsAt(sent[..|sent| - 1], i);
    }
  }

  /** A session never uses a request id twice, which is what lets the transport match answers by id. */
  lemma {:induction false} IdsNeverRepeat(sent: seq<Sent>, nextId: nat, i: nat, j: nat)
    requires IdsCount(sent, nextId) && i < j < |sent| && sent[i].Asked? && sent[j].Asked?
    ensures sent[i].id < sent[j].id < nextId
  {
    var n := |sent| - 1;
    var before, last := sent[..n], sent[n];
    if j == n {
      IdsBelow(before, last.id, i);
    } else {
      IdsNeverRepeat(before, if last.Asked? then last.id else nextId, i, j);
    }
  }

  /** The ids of the requests sent, in order, as the transport is asked to carry them. */
  function IdsOf(sent: seq<Sent>): seq<Json> {
    if sent == [] then []
    else IdsOf(sent[..|sent| - 1]) + if sent[|sent| - 1].Asked? then [Num(sent[|sent| - 1].id as real)] else []
  }

  lemma {:induction false} IdsAreBelow(sent: seq<Sent>, nextId: nat)
    requires IdsCount(sent, nextId)
    ensures forall i :: 0 <= i < |IdsOf(sent)| ==> IdsOf(sent)[i].Num? && IdsOf(sent)[i].n < nextId as real
  {
    if sent != [] {
      var last := sent[|sent| - 1];
      IdsAreBelow(sent[..|sent| - 1], if last.Asked? then last.id else nextId);
    }
  }

  /** Every request is carried under its own id. */
  lemma {:induction false} IdsAreCarried(sent: seq<Sent>, i: nat)
    requires i < |sent| && sent[i].Asked?
    ensures Num(sent[i].id as real) in IdsOf(sent)
  {
    if i < |sent| - 1 {
      IdsAreCarried(sent[..|sent| - 1], i);
    }
  }

  /** So the transport never carries an id twice, which is what its own bookkeeping rests on. */
  lemma {:induction false} TransportSeesNoIdTwice(sent: seq<Sent>, nextId: nat)
    requires IdsCount(sent, nextId)
    ensures StdioTransport.NoIdTwice(IdsOf(sent))
  {
    if sent != [] {
      var before, last := sent[..|sent| - 1], sent[|sent| - 1];
      TransportSeesNoIdTwice(before, if last.Asked? then last.id else nextId);
      if last.Asked? {
        IdsAreBelow(before, last.id);
      }
    }
  }

  lemma {:induction false} IdsBelow(sent: seq<Sent>, nextId: nat, i: nat)
    requires IdsCount(sent, nextId) && i < |sent| && sent[i].Asked?
    ensures 1 <= sent[i].id < nextId
    decreases |sent|
  {
    var n := |sent| - 1;
    var last := sent[n];
    if i < n {
      IdsBelow(sent[..n], if last.Asked? then last.id else nextId, i);
    } else {
      NextIdIsPositive(sent[..n], last.id);
    }
  }

  lemma {:induction false} NextIdIsPositive(sent: seq<Sent>, nextId: nat)
    requires IdsCount(sent, nextId)
    ensures nextId >= 1
  {
    if sent != [] && !sent[|sent| - 1].Asked? {
      NextIdIsPositive(sent[..|sent| - 1], nextId);
    }
  }

  // ---- Tools -----------------------------------------------------------------------

  datatype Tool = Tool(name: string, description: Option<string>, inputSchema: Json)

  /** A listed tool; an entry without a name is none. */
  function ToolFrom(raw: Json): Option<Tool> {
    var name := Text(raw.Field("name"));
    if name.None? then None
    else
      var schema := raw.Field("inputSchema");
      Some(Tool(name.value, Text(raw.Field("description")),
        if schema.Obj? then schema else Obj(map["type" := Str("object"), "properties" := Obj(map[])])))
  }

  function ToolsFrom(raws: seq<Json>): seq<Tool> {
    if raws == [] then []
    else ToolsFrom(raws[..|raws| - 1]) +
         match ToolFrom(raws[|raws| - 1]) { case None => [] case Some(tool) => [tool] }
  }

  /** The tools on one page; a page that is not a record, or lists nothing, has none. */
  function Listed(page: Json): seq<Tool> {
    if page.Field("tools").Arr? then ToolsFrom(page.Field("tools").items) else []
  }

  /** An entry with a name is a tool of that name, with its description if it has one and a schema in any case. */
  lemma ToolIs(raw: Json, name: string)
    ensures raw.Field("name") == Str(name) && name != "" ==>
      var description, schema := raw.Field("description"), raw.Field("inputSchema");
      && ToolFrom(raw).Some? && ToolFrom(raw).value.name == name
      && ToolFrom(raw).value.description ==
           (if description.Str? && description.s != "" then Some(description.s) else None)
      && ToolFrom(raw).value.inputSchema ==
           (if schema.Obj? then schema else Obj(map["type" := Str("object"), "properties" := Obj(map[])]))
    ensures (forall n :: n != "" ==> raw.Field("name") != Str(n)) ==> ToolFrom(raw).None?
  {
    if ToolFrom(raw).Some? {
      assert raw.Field("name") == Str(ToolFrom(raw).value.name);
    }
  }

  /** The tools on a page are those of its entries, in their order. */
  lemma ToolsOneMore(raws: seq<Json>, raw: Json)
    ensures ToolsFrom([]) == []
    ensures ToolsFrom(raws + [raw]) ==
      if ToolFrom(raw).Some? then ToolsFrom(raws) + [ToolFrom(raw).value] else ToolsFrom(raws)
    ensures Listed(Obj(map["tools" := Arr(raws)])) == ToolsFrom(raws) && Listed(Obj(map["tools" := raw])) ==
      if raw.Arr? then ToolsFrom(raw.items) else []
  {
    assert (raws + [raw])[..|raws|] == raws;
  }

  function NextCursor(page: Json): Option<string> {
    Text(page.Field("nextCursor"))
  }

  function CursorParams(cursor: Option<string>): Json {
    Obj(if cursor.None? then map[] else map["cursor" := Str(cursor.value)])
  }

  /**
   * What the server will answer to each page asked for in turn. Nothing is assumed of it; the
   * client never asks for more pages than these.
   */
  type Answers = a: seq<Reply> | |a| == MAX_TOOL_PAGES witness seq(MAX_TOOL_PAGES, i => Err(""))

  /** The cursor the n-th page is asked for with: the one the page before it named. */
  function CursorAt(answers: Answers, n: nat): Option<string>
    requires n <= |answers|
  {
    if n == 0 || answers[n - 1].Err? then None else NextCursor(answers[n - 1].value)
  }

  /** A page with no next cursor, or with the cursor it was asked for with, is the last one. */
  predicate IsLast(answers: Answers, n: nat)
    requires n < |answers|
  {
    answers[n].Ok? &&
    (NextCursor(answers[n].value).None? || NextCursor(answers[n].value) == CursorAt(answers, n))
  }

  /** A page is the last when it names no next cursor in a text, or the very one that the page before it named. */
  lemma LastPageIs(answers: Answers, n: nat)
    requires n < |answers| && answers[n].Ok?
    ensures var next := answers[n].value.Field("nextCursor");
      IsLast(answers, n) <==>
        || !next.Str? || next.s == ""
        || (n > 0 && answers[n - 1].Ok? && answers[n - 1].value.Field("nextCursor") == next)
  {
  }

  function ToolsOfPages(answers: Answers, n: nat): seq<Tool>
    requires n <= |answers|
  {
    if n == 0 then []
    else ToolsOfPages(answers, n - 1) + if answers[n - 1].Ok? then Listed(answers[n - 1].value) else []
  }

  /** What another call of the session asks for while a listing waits. */
  datatype ToolRequest = ListRequest(params: Json) | CallRequest(params: Json) {
    function Name(): string { if ListRequest? then "tools/list" else "tools/call" }
  }

  /** What other calls send before each page is asked for. */
  type Meanwhile = m: seq<seq<ToolRequest>> | |m| == MAX_TOOL_PAGES witness seq(MAX_TOOL_PAGES, i => [])

  function Requests(id: nat, others: seq<ToolRequest>): (r: seq<Sent>)
    ensures |r| == |others|
    ensures forall i :: 0 <= i < |r| ==> r[i] == Asked(id + i, others[i].Name(), others[i].params)
  {
    seq(|others|, i requires 0 <= i < |others| => Asked(id + i, others[i].Name(), others[i].params))
  }

  /** What is sent up to the request for the n-th page, with ids from `id` on. */
  function Sending(answers: Answers, meanwhile: Meanwhile, id: nat, n: nat): seq<Sent>
    requires n <= |answers|
  {
    if n == 0 then []
    else SendingMore(answers, meanwhile[n - 1], id, n - 1, Sending(answers, meanwhile, id, n - 1))
  }

  /** One more page asked for, after what other calls send before it. */
  function SendingMore(answers: Answers, others: seq<ToolRequest>, id: nat, page: nat, before: seq<Sent>): seq<Sent>
    requires page < |answers|
  {
    before + Requests(id + |before|, others) + [PageRequest(answers, id + |before| + |others|, page)]
  }

  function PageRequest(answers: Answers, id: nat, page: nat): Sent
    requires page < |answers|
  {
    Asked(id, "tools/list", CursorParams(CursorAt(answers, page)))
  }

  /** The first page is asked for without a cursor, and each one after it with the one the page before it named. */
  lemma PageRequestIs(answers: Answers, id: nat, page: nat, cursor: string)
    requires page < |answers|
    ensures PageRequest(answers, id, 0) == Asked(id, "tools/list", Obj(map[]))
    ensures page > 0 && answers[page - 1].Ok? && cursor != ""
            && answers[page - 1].value.Field("nextCursor") == Str(cursor) ==>
      PageRequest(answers, id, page) == Asked(id, "tools/list", Obj(map["cursor" := Str(cursor)]))
  {
  }

  /** The id a page is asked for under. */
  function PageId(answers: Answers, meanwhile: Meanwhile, id: nat, page: nat): nat
    requires page < |answers|
  {
    id + |Sending(answers, meanwhile, id, page)| + |meanwhile[page]|
  }

  /** The pages are asked for in order, each under a higher id, however other requests come between. */
  lemma {:induction false} PagesAreAskedForInOrder(
    answers: Answers, meanwhile: Meanwhile, id: nat, m: nat, n: nat)
    requires m < n <= |answers|
    ensures PageRequest(answers, PageId(answers, meanwhile, id, m), m) in Sending(answers, meanwhile, id, n)
    ensures n < |answers| ==> PageId(answers, meanwhile, id, m) < PageId(answers, meanwhile, id, n)
    ensures PageId(answers, meanwhile, id, m) < id + |Sending(answers, meanwhile, id, n)|
  {
    var before := Sending(answers, meanwhile, id, n - 1);
    var all := Sending(answers, meanwhile, id, n);
    if m < n - 1 {
      PagesAreAskedForInOrder(answers, meanwhile, id, m, n - 1);
      assert PageRequest(answers, PageId(answers, meanwhile, id, m), m) in before;
    } else {
      assert all[|all| - 1] == PageRequest(answers, PageId(answers, meanwhile, id, m), m);
    }
  }

  lemma RequestsAre(id: nat, others: seq<ToolRequest>, i: nat)
    requires i < |others|
    ensures Requests(id, others)[i] ==
      Asked(id + i, if others[i].ListRequest? then "tools/list" else "tools/call", others[i].params)
  {
  }

  lemma RequestsOneMore(id: nat, others: seq<ToolRequest>, i: nat)
    requires i < |others|
    ensures Requests(id, others[..i + 1]) == Requests(id, others[..i]) + [Asked(id + i, others[i].Name(), others[i].params)]
  {
  }

  lemma Regroup(a: seq<Sent>, b: seq<Sent>, c: seq<Sent>)
    ensures a + b + c == a + (b + c)
  {
  }

  ghost predicate GoesOnPast(answers: Answers, n: nat)
    requires n <= |answers|
  {
    forall i :: 0 <= i < n ==> answers[i].Ok? && !IsLast(answers, i)
  }

  /**
   * A listing that asked for `n` pages: it went on only past pages that were not the last, and
   * ended at the last page, at the twentieth, or at one the server refused.
   */
  ghost predicate ListingEnds(answers: Answers, n: nat, r: Result<seq<Tool>, string>) {
    && 1 <= n <= |answers|
    && GoesOnPast(answers, n - 1)
    && match r
       case Ok(tools) =>
         answers[n - 1].Ok? && tools == ToolsOfPages(answers, n) && (IsLast(answers, n - 1) || n == MAX_TOOL_PAGES)
       case Err(error) => answers[n - 1] == Err(error)
  }

  /** What following the pages from the n-th on comes to: the outcome, and how many were asked for in all. */
  function Followed(answers: Answers, n: nat, tools: seq<Tool>): (Result<seq<Tool>, string>, nat)
    requires n <= |answers|
    decreases |answers| - n
  {
    if n == |answers| then (Ok(tools), n)
    else
      match answers[n]
      case Err(error) => (Err(error), n + 1)
      case Ok(page) =>
        var all := tools + Listed(page);
        if NextCursor(page).None? || NextCursor(page) == CursorAt(answers, n) then (Ok(all), n + 1)
        else Followed(answers, n + 1, all)
  }

  /** Paging always stops within twenty pages, and then holds exactly the tools of the pages it saw. */
  lemma {:induction false} PagingEnds(answers: Answers, n: nat)
    requires n <= |answers| && GoesOnPast(answers, n)
    ensures var (r, pages) := Followed(answers, n, ToolsOfPages(answers, n)); ListingEnds(answers, pages, r)
    decreases |answers| - n
  {
    if n < |answers| && answers[n].Ok? && !IsLast(answers, n) {
      PagingEnds(answers, n + 1);
    }
  }

  class Session {
    var nextId: nat
    var agreed: Option<string>
    var handshake: Handshake
    var sent: seq<Sent>

    ghost predicate Valid()
      reads this
    {
      IdsCount(sent, nextId) && InOrder(sent, handshake)
    }

    constructor ()
      ensures Valid() && handshake.NotBegun? && agreed.None? && sent == []
    {
      nextId, agreed, handshake, sent := 1, None, NotBegun, [];
    }

    method Ask(name: string, params: Json)
      requires IdsCount(sent, nextId)
      modifies this`nextId, this`sent
      ensures nextId == old(nextId) + 1 && IdsCount(sent, nextId)
      ensures sent == old(sent) + [Asked(old(nextId), name, params)]
    {
      sent := sent + [Asked(nextId, name, params)];
      nextId := nextId + 1;
    }

    /** A request about tools, which only a finished handshake lets through. */
    method AskTools(name: string, params: Json)
      requires Valid() && handshake.Ready? && name in ["tools/list", "tools/call"]
      modifies this`nextId, this`sent
      ensures Valid() && nextId == old(nextId) + 1
      ensures sent == old(sent) + [Asked(old(nextId), name, params)]
    {
      Ask(name, params);
      assert IsToolRequest(sent[|sent| - 1]);
    }

    /** What every operation does first; only the first one begins the handshake. */
    method Begin(clientName: string)
      requires Valid()
      modifies this`nextId, this`sent, this`handshake
      ensures Valid() && !handshake.NotBegun?
      ensures old(handshake).NotBegun? ==> handshake.Asking? && sent == [Asked(old(nextId), "initialize", Obj(map[
        "protocolVersion" := Str("2025-06-18"),
        "capabilities" := Obj(map[]),
        "clientInfo" := Obj(map["name" := Str(clientName), "version" := Str("0.0.1")])]))]
      ensures !old(handshake).NotBegun? ==> handshake == old(handshake) && sent == old(sent)
    {
      if handshake.NotBegun? {
        Ask("initialize", Obj(map[
          "protocolVersion" := Str(MCP_PROTOCOL_VERSION),
          "capabilities" := Obj(map[]),
          "clientInfo" := Obj(map["name" := Str(clientName), "version" := Str("0.0.1")])]));
        handshake := Asking;
      }
    }

    /** The server has answered `initialize`. */
    method OnInitializeReply(reply: Reply)
      requires Valid() && handshake.Asking?
      modifies this`handshake, this`agreed, this`sent
      ensures Valid() && (handshake.Announcing? || handshake.Broken?)
      ensures handshake.Announcing? <==>
        reply.Ok? && (Text(reply.value.Field("protocolVersion")).None?
                      || Text(reply.value.Field("protocolVersion")).value in KNOWN_PROTOCOL_VERSIONS)
      ensures handshake.Announcing? ==>
        && sent == old(sent) + [Notified("notifications/initialized")]
        && agreed == Some(if reply.value.Field("protocolVersion").Str? && reply.value.Field("protocolVersion").s != ""
                          then reply.value.Field("protocolVersion").s else "2025-06-18")
      ensures handshake.Broken? ==> sent == old(sent) && agreed == old(agreed)
      ensures handshake.Broken? && reply.Err? ==> handshake.why == reply.error
      ensures handshake.Broken? && reply.Ok? ==>
        handshake.why == NotSpoken(Text(reply.value.Field("protocolVersion")).value)
    {
      if reply.Err? {
        handshake := Broken(reply.error);
        return;
      }
      var version := Text(reply.value.Field("protocolVersion"));
      if version.Some? && version.value !in KNOWN_PROTOCOL_VERSIONS {
        handshake := Broken(NotSpoken(version.value));
        return;
      }
      assert MCP_PROTOCOL_VERSION == KNOWN_PROTOCOL_VERSIONS[1];
      agreed := Some(if version.Some? then version.value else MCP_PROTOCOL_VERSION);
      sent := sent + [INITIALIZED];
      handshake := Announcing;
    }

    /** Writing the announcement finished, one way or the other. */
    method OnAnnounced(ok: bool)
      requires Valid() && handshake.Announcing?
      modifies this`handshake
      ensures Valid() && (if ok then handshake.Ready? else handshake.Broken?)
    {
      handshake := if ok then Ready else Broken("the announcement could not be sent");
    }

    /**
     * Calling a tool, from where the handshake it waited for has been settled: a broken handshake
     * fails the call without sending anything.
     */
    method CallTool(name: string, input: Json) returns (asked: bool)
      requires Valid() && (handshake.Ready? || handshake.Broken?)
      modifies this`nextId, this`sent
      ensures Valid() && (asked <==> handshake.Ready?)
      ensures sent == old(sent) +
        if asked then [Asked(old(nextId), "tools/call", Obj(map["name" := Str(name), "arguments" := input]))] else []
    {
      if handshake.Broken? { return false; }
      AskTools("tools/call", Obj(map["name" := Str(name), "arguments" := input]));
      return true;
    }

    /** Other calls of the session send what they have to ask. */
    method AskOthers(others: seq<ToolRequest>)
      requires Valid() && handshake.Ready?
      modifies this`nextId, this`sent
      ensures Valid() && nextId == old(nextId) + |others|
      ensures sent == old(sent) + Requests(old(nextId), others)
    {
      ghost var start, before := nextId, sent;
      for i := 0 to |others|
        invariant Valid() && handshake.Ready? && nextId == start + i
        invariant sent == before + Requests(start, others[..i])
        modifies this`nextId, this`sent
      {
        RequestsOneMore(start, others, i);
        Regroup(before, Requests(start, others[..i]), [Asked(start + i, others[i].Name(), others[i].params)]);
        AskTools(others[i].Name(), others[i].params);
      }
      assert others[..|others|] == others;
    }

    /** Asks for one more page; `start` and `before` are where the listing began. */
    method AskPage(answers: Answers, meanwhile: Meanwhile, page: nat, cursor: Option<string>,
                   ghost start: nat, ghost before: seq<Sent>)
      requires Valid() && handshake.Ready? && page < |answers| && cursor == CursorAt(answers, page)
      requires sent == before + Sending(answers, meanwhile, start, page) && nextId == start + |sent| - |before|
      modifies this`nextId, this`sent
      ensures Valid() && sent == before + Sending(answers, meanwhile, start, page + 1)
      ensures nextId == start + |sent| - |before|
    {
      AskOneMore(answers, meanwhile[page], page, cursor, start, before, Sending(answers, meanwhile, start, page));
    }

    method AskOneMore(answers: Answers, others: seq<ToolRequest>, page: nat, cursor: Option<string>,
                      ghost start: nat, ghost before: seq<Sent>, ghost listing: seq<Sent>)
      requires Valid() && handshake.Ready? && page < |answers| && cursor == CursorAt(answers, page)
      requires sent == before + listing && nextId == start + |listing|
      modifies this`nextId, this`sent
      ensures Valid() && sent == before + SendingMore(answers, others, start, page, listing)
      ensures nextId == start + |sent| - |before|
    {
      ghost var asked := Requests(start + |listing|, others);
      ghost var page' := PageRequest(answers, start + |listing| + |others|, page);
      Regroup(before, listing, asked);
      Regroup(before, listing + asked, [page']);
      AskOthers(others);
      AskTools("tools/list", CursorParams(cursor));
    }

    /**
     * Listing the tools, page after page, in the order they are listed, while other calls send what
     * they like in between.
     */
    method ListTools(answers: Answers, meanwhile: Meanwhile) returns (r: Result<seq<Tool>, string>, pages: nat)
      requires Valid() && (handshake.Ready? || handshake.Broken?)
      modifies this`nextId, this`sent
      ensures Valid() && pages <= |answers|
      ensures (r, pages) == if handshake.Ready? then Followed(answers, 0, []) else (Err(handshake.why), 0)
      ensures sent == old(sent) + Sending(answers, meanwhile, old(nextId), pages)
    {
      if handshake.Broken? { return Err(handshake.why), 0; }
      var tools: seq<Tool> := [];
      var cursor: Option<string> := None;
      ghost var start, before := nextId, sent;
      pages := 0;
      while pages < MAX_TOOL_PAGES
        invariant Valid() && nextId == start + |sent| - |before| && pages <= |answers|
        invariant sent == before + Sending(answers, meanwhile, start, pages)
        invariant cursor == CursorAt(answers, pages)
        invariant Followed(answers, pages, tools) == Followed(answers, 0, [])
        modifies this`nextId, this`sent
      {
        AskPage(answers, meanwhile, pages, cursor, start, before);
        var reply := answers[pages];
        pages := pages + 1;
        if reply.Err? { return Err(reply.error), pages; }
        tools := tools + Listed(reply.value);
        var next := NextCursor(reply.value);
        if next.None? || next == cursor { return Ok(tools), pages; }
        cursor := next;
      }
      r := Ok(tools);
    }
  }
}
