/** The MCP entities both authorization middlewares consume: tools with tag sets, the decoded
    claims of a bearer token, the server's tool manager, and the outcome of a tool call. */
module McpTools {
  import opened Values
  import opened Text

  /** A registered tool: its name and its tags (FastMCP keeps tags as a set). */
  datatype Tool = Tool(name: string, tags: set<string>)

  /** The three claims the middlewares read from a decoded access token (RFC 7519 claims sent as
      a bearer token per section 2.1 of RFC 6750); None is a claim that is absent. */
  datatype Claims = Claims(roles: Option<seq<string>>, upn: Option<string>, oid: Option<string>)

  const NoClaims := Claims(None, None, None)

  /** What the request carries: no bearer token (or an empty one), a token whose decoding
      raised, or the decoded claims. Signature checking happens upstream and is not modelled. */
  datatype BearerToken = NoToken | Undecodable | Decoded(claims: Claims)

  /** A tool call either goes on to the next handler or is refused with `PermissionError`. */
  datatype CallDecision = Forwarded(toolName: string) | PermissionDenied(toolName: string)

  /** The names of `tools`. */
  function Names(tools: seq<Tool>): (names: set<string>)
    ensures forall t :: t in tools ==> t.name in names
    ensures forall n :: n in names ==> exists t :: t in tools && t.name == n
  {
    set t | t in tools :: t.name
  }

  /** The names the pruning loop removes from the tool manager: those of the listed tools whose
      name is not among the names of the kept tools. */
  function RemovedNames(listed: seq<Tool>, kept: seq<Tool>): (removed: set<string>)
    ensures forall n :: n in removed <==> n !in Names(kept) && exists t :: t in listed && t.name == n
  {
    set t | t in listed && t.name !in Names(kept) :: t.name
  }

  /** Python's `any(tag in tool.tags for tag in tags)`. */
  predicate HasAnyTag(tool: Tool, tags: seq<string>) {
    exists tag :: tag in tags && tag in tool.tags
  }

  predicate IsAdminTool(name: string) {
    StartsWith(name, "admin_")
  }

  /** No tool occurs twice. */
  predicate NoDuplicates(tools: seq<Tool>) {
    forall i, j :: 0 <= i < j < |tools| ==> tools[i] != tools[j]
  }

  /** The server's tool manager, reduced to the names it still serves. */
  class ToolManager {
    var names: set<string>

    constructor (names: set<string>)
      ensures this.names == names
    {
      this.names := names;
    }

    /** `remove_tool(name)`. */
    method RemoveTool(name: string)
      modifies this
      ensures names == old(names) - {name}
    {
      names := names - {name};
    }
  }
}
