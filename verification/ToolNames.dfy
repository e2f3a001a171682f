/** Naming tools for a model, splitting the names again, and routing a call to the connector behind it. */
module ToolNames {
  import opened Shared

  type Errors = seq<ValidationError>

  predicate IsAlphanumeric(c: char) { 'a' <= c <= 'z' || '0' <= c <= '9' }

  /** Letters, digits and inner hyphens, and no more than 64 of them. */
  predicate IsConnectorName(s: string) {
    1 <= |s| <= 64 && IsAlphanumeric(s[0]) && IsAlphanumeric(s[|s| - 1]) &&
    forall i :: 0 <= i < |s| ==> IsAlphanumeric(s[i]) || s[i] == '-'
  }

  /** By code: a name is of small letters, digits and hyphens, 64 at most, and has no hyphen at either end. */
  lemma ConnectorNamesAre(s: string)
    ensures IsConnectorName(s) <==>
      && 0 < |s| < 65 && s[0] as int != 45 && s[|s| - 1] as int != 45
      && forall i :: 0 <= i < |s| ==>
           97 <= s[i] as int < 123 || 48 <= s[i] as int < 58 || s[i] as int == 45
  {
  }

  const SEPARATOR := "__"

  function WireName(connector: string, tool: string): string {
    connector + SEPARATOR + tool
  }

  predicate SeparatorAt(s: string, i: nat) {
    i + 2 <= |s| && s[i] == '_' && s[i + 1] == '_'
  }

  /** Where the first separator begins, or -1. */
  function SeparatorIn(s: string): (i: int)
    ensures -1 <= i < |s|
    ensures i >= 0 ==> SeparatorAt(s, i) && forall j :: 0 <= j < i ==> !SeparatorAt(s, j)
    ensures i == -1 ==> forall j :: 0 <= j ==> !SeparatorAt(s, j)
  {
    if |s| < 2 then -1
    else if SeparatorAt(s, 0) then 0
    else
      var i := SeparatorIn(s[1..]);
      assert forall j :: 1 <= j ==> (SeparatorAt(s, j) <==> SeparatorAt(s[1..], j - 1));
      if i < 0 then -1 else i + 1
  }

  datatype Split = Split(connector: string, tool: string)

  function SplitWireName(wire: string): Option<Split> {
    var at := SeparatorIn(wire);
    if at <= 0 then None
    else
      var tool := wire[at + 2..];
      if tool == "" then None else Some(Split(wire[..at], tool))
  }

  lemma SeparatorFollowsName(connector: string, tool: string)
    requires IsConnectorName(connector)
    ensures SeparatorIn(WireName(connector, tool)) == |connector|
    ensures WireName(connector, tool)[..|connector|] == connector
    ensures WireName(connector, tool)[|connector| + 2..] == tool
  {
    var wire := WireName(connector, tool);
    assert wire[|connector|] == SEPARATOR[0] && wire[|connector| + 1] == SEPARATOR[1];
    assert SeparatorAt(wire, |connector|);
    forall j | 0 <= j < |connector| ensures !SeparatorAt(wire, j) {
      assert wire[j] == connector[j];
    }
  }

  /** A wire name always splits into the pair it was made of, whatever the tool is called. */
  lemma SplitUndoesWireName(connector: string, tool: string)
    requires IsConnectorName(connector) && tool != ""
    ensures SplitWireName(WireName(connector, tool)) == Some(Split(connector, tool))
  {
    SeparatorFollowsName(connector, tool);
  }

  /** Any pair is read back from its name exactly when neither is empty and the name's first separator is its own. */
  lemma SplitsBackIff(connector: string, tool: string)
    ensures SplitWireName(WireName(connector, tool)) == Some(Split(connector, tool)) <==>
      connector != "" && tool != "" && forall j :: 0 <= j < |connector| ==> !SeparatorAt(connector + "_", j)
  {
    var wire := WireName(connector, tool);
    assert wire[|connector|] == SEPARATOR[0] && wire[|connector| + 1] == SEPARATOR[1];
    assert SeparatorAt(wire, |connector|);
    forall j | 0 <= j < |connector| ensures SeparatorAt(wire, j) <==> SeparatorAt(connector + "_", j) {
      assert wire[j] == connector[j] && (connector + "_")[j] == connector[j];
      assert wire[j + 1] == (connector + "_")[j + 1];
    }
    assert wire[..|connector|] == connector && wire[|connector| + 2..] == tool;
  }

  /** Two different tools are never offered under one name. */
  lemma WireNamesAreInjective(c1: string, t1: string, c2: string, t2: string)
    requires IsConnectorName(c1) && IsConnectorName(c2)
    requires WireName(c1, t1) == WireName(c2, t2)
    ensures c1 == c2 && t1 == t2
  {
    SeparatorFollowsName(c1, t1);
    SeparatorFollowsName(c2, t2);
  }

  // ---- The brokers' own way to the tool ----------------------------------------------

  /** `s.split("__")` */
  function SplitAll(s: string): (parts: seq<string>)
    ensures |parts| >= 1
    decreases |s|
  {
    var at := SeparatorIn(s);
    if at < 0 then [s] else [s[..at]] + SplitAll(s[at + 2..])
  }

  /** `parts.join("__")` */
  function JoinAll(parts: seq<string>): string {
    if parts == [] then "" else if |parts| == 1 then parts[0] else parts[0] + SEPARATOR + JoinAll(parts[1..])
  }

  function BrokerTool(wire: string): string {
    JoinAll(SplitAll(wire)[1..])
  }

  lemma CutAtSeparator(s: string, at: nat)
    requires SeparatorAt(s, at)
    ensures s == s[..at] + SEPARATOR + s[at + 2..]
  {
  }

  lemma {:induction false} JoinUndoesSplit(s: string)
    ensures JoinAll(SplitAll(s)) == s
    decreases |s|
  {
    var at := SeparatorIn(s);
    if at >= 0 {
      JoinUndoesSplit(s[at + 2..]);
      assert SplitAll(s)[1..] == SplitAll(s[at + 2..]);
      CutAtSeparator(s, at);
    }
  }

  /** The broker behind a connector reads the same tool out of the name, even one with separators in it. */
  lemma BrokerReadsTheSameTool(connector: string, tool: string)
    requires IsConnectorName(connector)
    ensures BrokerTool(WireName(connector, tool)) == tool
  {
    SeparatorFollowsName(connector, tool);
    var wire := WireName(connector, tool);
    JoinUndoesSplit(tool);
    assert SplitAll(wire)[1..] == SplitAll(tool);
  }

  // ---- Which tool names are accepted -----------------------------------------------------

  predicate HasSeparator(s: string) { SeparatorIn(s) >= 0 }

  function NotAToolName(path: string): ValidationError {
    ValidationError(path, "must be a non-empty tool name other than \"*\"")
  }

  function HoldsSeparator(path: string): ValidationError {
    ValidationError(path, "must not contain \"__\", which separates a connector from its tool")
  }

  function Duplicate(path: string, tool: string): ValidationError {
    ValidationError(path, "duplicate tool \"" + tool + "\"")
  }

  function PathOf(index: nat): string {
    "tools[" + Decimal(index) + "]"
  }

  /** What is wrong with one name, if anything. */
  function ToolError(tools: seq<string>, i: nat): Errors
    requires i < |tools|
  {
    if tools[i] == "" || tools[i] == "*" then [NotAToolName(PathOf(i))]
    else if HasSeparator(tools[i]) then [HoldsSeparator(PathOf(i))]
    else if tools[i] in tools[..i] then [Duplicate(PathOf(i), tools[i])]
    else []
  }

  function PerTool(tools: seq<string>): (r: seq<Errors>)
    ensures |r| == |tools| && forall i :: 0 <= i < |tools| ==> r[i] == ToolError(tools, i)
  {
    seq(|tools|, i requires 0 <= i < |tools| => ToolError(tools, i))
  }

  /** A name that splits off unambiguously and that no tool before it has. */
  ghost predicate GoodTool(tools: seq<string>, i: nat)
    requires i < |tools|
  {
    tools[i] != "" && tools[i] != "*" && !HasSeparator(tools[i]) && forall j :: 0 <= j < i ==> tools[j] != tools[i]
  }

  /** One error at most, which names the place and the first thing wrong there. */
  lemma NoErrorIffGoodTool(tools: seq<string>, i: nat)
    requires i < |tools|
    ensures ToolError(tools, i) == [] <==> GoodTool(tools, i)
    ensures !GoodTool(tools, i) ==> ToolError(tools, i) == [ValidationError("tools[" + Decimal(i) + "]",
      if tools[i] == "" || tools[i] == "*" then "must be a non-empty tool name other than \"*\""
      else if SeparatorIn(tools[i]) >= 0 then "must not contain \"__\", which separates a connector from its tool"
      else "duplicate tool \"" + tools[i] + "\"")]
  {
  }

  lemma NoErrorIffGood(tools: seq<string>)
    ensures Flatten(PerTool(tools)) == [] <==> forall i :: 0 <= i < |tools| ==> GoodTool(tools, i)
  {
    var per := PerTool(tools);
    FlattenEmpty(per);
    forall i | 0 <= i < |tools| ensures per[i] == [] <==> GoodTool(tools, i) {
      NoErrorIffGoodTool(tools, i);
    }
    assert (forall i :: 0 <= i < |tools| ==> GoodTool(tools, i)) ==> forall i :: 0 <= i < |per| ==> per[i] == [];
  }

  /** One name: refused for what it is, for the separator in it, or for being there already. */
  method CheckTool(tools: seq<string>, index: nat, seen: set<string>) returns (found: Errors)
    requires index < |tools| && forall t :: t in seen <==> t in tools[..index]
    ensures found == ToolError(tools, index)
  {
    var tool := tools[index];
    found := [];
    if tool == "" || tool == "*" {
      found := [NotAToolName(PathOf(index))];
    } else if HasSeparator(tool) {
      found := [HoldsSeparator(PathOf(index))];
    } else if tool in seen {
      found := [Duplicate(PathOf(index), tool)];
    }
  }

  lemma SeenOneMore(tools: seq<string>, index: nat, seen: set<string>)
    requires index < |tools| && forall t :: t in seen <==> t in tools[..index]
    ensures forall t :: t in seen + {tools[index]} <==> t in tools[..index + 1]
  {
    assert tools[..index + 1] == tools[..index] + [tools[index]];
  }

  method ValidateToolNames(tools: seq<string>) returns (errors: Errors)
    ensures errors == Flatten(PerTool(tools))
    ensures errors == [] <==> forall i :: 0 <= i < |tools| ==> GoodTool(tools, i)
  {
    ghost var per := PerTool(tools);
    FlattenAll(per);
    errors := [];
    var seen: set<string> := {};
    for index := 0 to |tools|
      invariant errors == Flatten(per[..index])
      invariant forall t :: t in seen <==> t in tools[..index]
    {
      FlattenOneMore(per, index);
      var found := CheckTool(tools, index, seen);
      errors := errors + found;
      SeenOneMore(tools, index, seen);
      seen := seen + {tools[index]};
    }
    NoErrorIffGood(tools);
  }

  // ---- Routing ---------------------------------------------------------------------------

  datatype Kind = Web | Mcp | OtherKind(text: string)

  datatype Connector = Connector(id: string, name: string, kind: Kind, enabled: bool)

  /** Switched on, and of a kind something here can perform. */
  predicate Performs(c: Connector) { c.enabled && !c.kind.OtherKind? }

  /** The last connector of a name that is switched on and a web search or an MCP server. */
  ghost predicate IsLastOf(connectors: seq<Connector>, name: string, i: nat) {
    && i < |connectors| && connectors[i].name == name
    && connectors[i].enabled && (connectors[i].kind.Web? || connectors[i].kind.Mcp?)
    && forall c :: c in connectors[i + 1..] && c.name == name ==> !c.enabled || c.kind.OtherKind?
  }

  /** A name leads to the last performing connector of it, as in a map that later entries overwrite. */
  ghost predicate Holds(byName: map<string, string>, connectors: seq<Connector>, name: string) {
    if name in byName then
      exists i: nat :: IsLastOf(connectors, name, i) && byName[name] == connectors[i].id
    else
      forall c :: c in connectors && c.name == name ==> !c.enabled || c.kind.OtherKind?
  }

  class OfficeBroker {
    /** The id of the connector each name leads to. */
    var byName: map<string, string>

    constructor (connectors: seq<Connector>)
      ensures forall name :: Holds(byName, connectors, name)
    {
      var names: map<string, string> := map[];
      for k := 0 to |connectors|
        invariant forall name :: Holds(names, connectors[..k], name)
      {
        var c := connectors[k];
        ghost var before := names;
        if Performs(c) {
          names := names[c.name := c.id];
        }
        ghost var soFar := connectors[..k + 1];
        assert soFar == connectors[..k] + [c];
        forall name ensures Holds(names, soFar, name) {
          OneMoreConnector(before, names, connectors[..k], c, name);
        }
      }
      assert connectors[..|connectors|] == connectors;
      byName := names;
    }

    /** Which connector a call goes to, and the tool its broker will read; nothing for an unknown name. */
    method Call(wire: string) returns (r: Option<(string, string)>)
      ensures forall connector, tool ::
        IsConnectorName(connector) && tool != "" && wire == connector + "__" + tool ==>
          r == if connector in byName then Some((byName[connector], tool)) else None
      ensures r.None? <==> SplitWireName(wire).None? || SplitWireName(wire).value.connector !in byName
    {
      forall connector, tool | IsConnectorName(connector) && tool != "" && wire == connector + "__" + tool
        ensures SplitWireName(wire) == Some(Split(connector, tool)) && BrokerTool(wire) == tool
      {
        SplitUndoesWireName(connector, tool);
        BrokerReadsTheSameTool(connector, tool);
      }
      var split := SplitWireName(wire);
      if split.None? || split.value.connector !in byName { return None; }
      return Some((byName[split.value.connector], BrokerTool(wire)));
    }
  }

  lemma OneMoreConnector(
    before: map<string, string>, after: map<string, string>, connectors: seq<Connector>, c: Connector, name: string)
    requires Holds(before, connectors, name)
    requires after == if Performs(c) then before[c.name := c.id] else before
    ensures Holds(after, connectors + [c], name)
  {
    var all := connectors + [c];
    if name in after {
      if Performs(c) && c.name == name {
        assert IsLastOf(all, name, |connectors|);
      } else {
        var i: nat :| IsLastOf(connectors, name, i) && before[name] == connectors[i].id;
        assert all[i + 1..] == connectors[i + 1..] + [c];
        assert IsLastOf(all, name, i);
      }
    }
  }

  /** With names of their own, every connector that can be performed is the one its name leads to. */
  lemma NamesLeadHome(byName: map<string, string>, connectors: seq<Connector>, k: nat)
    requires k < |connectors| && Holds(byName, connectors, connectors[k].name)
    requires forall i, j :: 0 <= i < j < |connectors| ==> connectors[i].name != connectors[j].name
    ensures connectors[k].name in byName <==>
      connectors[k].enabled && (connectors[k].kind.Web? || connectors[k].kind.Mcp?)
    ensures connectors[k].name in byName ==> byName[connectors[k].name] == connectors[k].id
  {
    var name := connectors[k].name;
    if name in byName {
      var i: nat :| IsLastOf(connectors, name, i) && byName[name] == connectors[i].id;
      assert i == k;
    } else {
      assert connectors[k] in connectors;
    }
  }
}
