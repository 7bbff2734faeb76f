/** The backend's role-based authorization middleware (`AuthorizationMiddleware`) and its
    companion filters (`RoleBasedToolFilter`). The middleware keeps the claims of the last
    request in its own fields; the tool listing is filtered by mapping each role to the tags it
    grants, and a tool call is refused only for `admin_` tools without the admin role. */
module Authorization {
  import opened Values
  import opened Text
  import opened McpTools
  import TokenStore

  const TaskRead: string := "Task.Read"
  const TaskWrite: string := "Task.Write"
  const TaskDelete: string := "Task.Delete"
  const TaskAll: string := "Task.All"
  const AdminRole: string := "MCPServer.Admin"

  /** The role-to-tags table used when none (or an empty one) is given. */
  function DefaultRoleMappings(): map<string, seq<string>> {
    map[TaskRead := ["read", "view", "get", "list"],
        TaskWrite := ["write", "create", "update", "edit", "post", "put"],
        TaskDelete := ["delete", "remove", "destroy"],
        TaskAll := ["*"],
        AdminRole := ["admin", "config", "manage"]]
  }

  /** Python's `role_mappings or default`: an absent or empty table falls back to the default. */
  function EffectiveMappings(given: Option<map<string, seq<string>>>): (m: map<string, seq<string>>)
    ensures given.Some? && given.value != map[] ==> m == given.value
    ensures given.None? || given.value == map[] ==> m == DefaultRoleMappings()
  {
    if given.Some? && given.value != map[] then given.value else DefaultRoleMappings()
  }

  /** The roles `on_request` reads from the claims, `[]` when the claim is absent. */
  function RolesOf(claims: Claims): seq<string> {
    if claims.roles.Some? then claims.roles.value else []
  }

  // ---------------------------------------------------------------------------------------
  // Specification of the tool listing filter
  // ---------------------------------------------------------------------------------------

  /** One pass of the inner loop: append, in order, each tool of `tools` that carries one of
      `tags` and is not yet in `acc`. */
  function AddMatching(acc: seq<Tool>, tools: seq<Tool>, tags: seq<string>): seq<Tool>
    decreases |tools|
  {
    if tools == [] then acc
    else
      var next := if HasAnyTag(tools[0], tags) && tools[0] !in acc then acc + [tools[0]] else acc;
      AddMatching(next, tools[1..], tags)
  }

  /** The outer loop from accumulator `acc`: `Task.All` ends it with the whole listing; a mapped
      role adds its matching tools; any other role adds nothing. */
  function Granted(roles: seq<string>, mappings: map<string, seq<string>>, tools: seq<Tool>, acc: seq<Tool>): seq<Tool>
    decreases |roles|
  {
    if roles == [] then acc
    else if roles[0] == TaskAll then tools
    else
      var next := if roles[0] in mappings then AddMatching(acc, tools, mappings[roles[0]]) else acc;
      Granted(roles[1..], mappings, tools, next)
  }

  /** The listing a user with `roles` is shown: nothing without roles. */
  function VisibleTools(roles: seq<string>, mappings: map<string, seq<string>>, tools: seq<Tool>): seq<Tool> {
    if roles == [] then [] else Granted(roles, mappings, tools, [])
  }

  /** The tags the roles grant together (`get_user_permissions`'s "permissions"). */
  function EffectivePermissions(roles: seq<string>, mappings: map<string, seq<string>>): set<string> {
    set r, tag | r in roles && r in mappings && tag in mappings[r] :: tag
  }

  lemma {:induction false} AddMatchingMembership(acc: seq<Tool>, tools: seq<Tool>, tags: seq<string>)
    ensures forall t :: t in AddMatching(acc, tools, tags) <==> t in acc || (t in tools && HasAnyTag(t, tags))
    decreases |tools|
  {
    if tools != [] {
      var next := if HasAnyTag(tools[0], tags) && tools[0] !in acc then acc + [tools[0]] else acc;
      AddMatchingMembership(next, tools[1..], tags);
      assert tools == [tools[0]] + tools[1..];
    }
  }

  lemma {:induction false} AddMatchingNoDuplicates(acc: seq<Tool>, tools: seq<Tool>, tags: seq<string>)
    requires NoDuplicates(acc)
    ensures NoDuplicates(AddMatching(acc, tools, tags))
    decreases |tools|
  {
    if tools != [] {
      var next := if HasAnyTag(tools[0], tags) && tools[0] !in acc then acc + [tools[0]] else acc;
      assert NoDuplicates(next);
      AddMatchingNoDuplicates(next, tools[1..], tags);
    }
  }

  lemma {:induction false} GrantedWithTaskAll(roles: seq<string>, mappings: map<string, seq<string>>, tools: seq<Tool>, acc: seq<Tool>)
    requires TaskAll in roles
    ensures Granted(roles, mappings, tools, acc) == tools
    decreases |roles|
  {
    if roles[0] != TaskAll {
      var next := if roles[0] in mappings then AddMatching(acc, tools, mappings[roles[0]]) else acc;
      GrantedWithTaskAll(roles[1..], mappings, tools, next);
    }
  }

  lemma {:induction false} GrantedMembership(roles: seq<string>, mappings: map<string, seq<string>>, tools: seq<Tool>, acc: seq<Tool>)
    requires TaskAll !in roles
    ensures forall t :: t in Granted(roles, mappings, tools, acc) <==>
      t in acc || (t in tools && exists r :: r in roles && r in mappings && HasAnyTag(t, mappings[r]))
    decreases |roles|
  {
    if roles != [] {
      var next := if roles[0] in mappings then AddMatching(acc, tools, mappings[roles[0]]) else acc;
      if roles[0] in mappings {
        AddMatchingMembership(acc, tools, mappings[roles[0]]);
      }
      GrantedMembership(roles[1..], mappings, tools, next);
      assert roles == [roles[0]] + roles[1..];
    }
  }

  lemma {:induction false} GrantedNoDuplicates(roles: seq<string>, mappings: map<string, seq<string>>, tools: seq<Tool>, acc: seq<Tool>)
    requires TaskAll !in roles && NoDuplicates(acc)
    ensures NoDuplicates(Granted(roles, mappings, tools, acc))
    decreases |roles|
  {
    if roles != [] {
      var next := if roles[0] in mappings then AddMatching(acc, tools, mappings[roles[0]]) else acc;
      if roles[0] in mappings {
        AddMatchingNoDuplicates(acc, tools, mappings[roles[0]]);
      }
      GrantedNoDuplicates(roles[1..], mappings, tools, next);
    }
  }

  /** `Task.All` anywhere among the roles shows the listing exactly as it came, whatever the
      roles before it had collected. */
  lemma TaskAllSeesEverything(roles: seq<string>, mappings: map<string, seq<string>>, tools: seq<Tool>)
    requires TaskAll in roles
    ensures VisibleTools(roles, mappings, tools) == tools
  {
    GrantedWithTaskAll(roles, mappings, tools, []);
  }

  /** Without `Task.All`, a tool is shown exactly when it is listed and one of the user's mapped
      roles grants one of its tags; roles missing from the table grant nothing. */
  lemma VisibleToolsMembership(roles: seq<string>, mappings: map<string, seq<string>>, tools: seq<Tool>, t: Tool)
    requires TaskAll !in roles
    ensures t in VisibleTools(roles, mappings, tools) <==>
      t in tools && exists r :: r in roles && r in mappings && HasAnyTag(t, mappings[r])
  {
    GrantedMembership(roles, mappings, tools, []);
  }

  /** Without `Task.All`, a tool granted by several roles is shown once. */
  lemma VisibleToolsNoDuplicates(roles: seq<string>, mappings: map<string, seq<string>>, tools: seq<Tool>)
    requires TaskAll !in roles
    ensures NoDuplicates(VisibleTools(roles, mappings, tools))
  {
    GrantedNoDuplicates(roles, mappings, tools, []);
  }

  /** The listing filter and `get_user_permissions` agree: without `Task.All`, a listed tool is
      shown exactly when one of its tags is among the user's effective permissions. */
  lemma VisibleIffTagPermitted(roles: seq<string>, mappings: map<string, seq<string>>, tools: seq<Tool>, t: Tool)
    requires TaskAll !in roles
    ensures t in VisibleTools(roles, mappings, tools) <==>
      t in tools && exists tag :: tag in t.tags && tag in EffectivePermissions(roles, mappings)
  {
    VisibleToolsMembership(roles, mappings, tools, t);
    if t in tools && exists tag :: tag in t.tags && tag in EffectivePermissions(roles, mappings) {
      var tag :| tag in t.tags && tag in EffectivePermissions(roles, mappings);
      var r :| r in roles && r in mappings && tag in mappings[r];
      assert HasAnyTag(t, mappings[r]);
    }
  }

  // ---------------------------------------------------------------------------------------
  // Specification of the tool-call check
  // ---------------------------------------------------------------------------------------

  /** What `on_call_tool` does with a call: a call without a message is named "unknown", and an
      `admin_` tool needs the admin role; nothing else is checked, in particular not the tags. */
  function CallDecisionFor(roles: seq<string>, message: Option<string>): (d: CallDecision)
    ensures d.toolName == (if message.Some? then message.value else "unknown")
    ensures d.PermissionDenied? <==> IsAdminTool(d.toolName) && AdminRole !in roles
  {
    var name := if message.Some? then message.value else "unknown";
    if IsAdminTool(name) && AdminRole !in roles then PermissionDenied(name) else Forwarded(name)
  }

  /** A tool hidden from a reader's listing is still run when called by name: the call check
      does not re-apply the tag filter. */
  lemma HiddenToolStillCallable()
    ensures var deleteTool := Tool("delete_city", {"delete"});
      deleteTool !in VisibleTools([TaskRead], DefaultRoleMappings(), [deleteTool]) &&
      CallDecisionFor([TaskRead], Some("delete_city")) == Forwarded("delete_city")
  {
    var deleteTool := Tool("delete_city", {"delete"});
    VisibleToolsMembership([TaskRead], DefaultRoleMappings(), [deleteTool], deleteTool);
    assert !HasAnyTag(deleteTool, DefaultRoleMappings()[TaskRead]);
    assert "delete_city"[0] != "admin_"[0];
  }

  /** Conversely, `Task.All` lists an admin tool that the call check then refuses. */
  lemma ListedAdminToolRefused()
    ensures var stats := Tool("admin_stats", {"admin"});
      stats in VisibleTools([TaskAll], DefaultRoleMappings(), [stats]) &&
      CallDecisionFor([TaskAll], Some("admin_stats")) == PermissionDenied("admin_stats")
  {
    TaskAllSeesEverything([TaskAll], DefaultRoleMappings(), [Tool("admin_stats", {"admin"})]);
    assert StartsWith("admin_stats", "admin_");
  }

  /** A call with no message is let through under the name "unknown". */
  lemma MissingMessageForwarded(roles: seq<string>)
    ensures CallDecisionFor(roles, None) == Forwarded("unknown")
  {
    assert !StartsWith("unknown", "admin_") by {
      assert "unknown"[0] != "admin_"[0];
    }
  }

  /** The summary `get_user_permissions` answers. */
  datatype Permissions = Permissions(userId: Option<string>, oid: Option<string>, roles: seq<string>,
                                     permissions: set<string>)

  class AuthorizationMiddleware {
    const roleMappings: map<string, seq<string>>
    const tokenStore: TokenStore.RedisTokenStore?
    var claims: Claims
    var roles: seq<string>
    var userId: Option<string>
    var oid: Option<string>

    constructor (tokenStore: TokenStore.RedisTokenStore?, roleMappings: Option<map<string, seq<string>>>)
      ensures this.tokenStore == tokenStore && this.roleMappings == EffectiveMappings(roleMappings)
      ensures claims == NoClaims && roles == [] && userId == None && oid == None
    {
      this.tokenStore := tokenStore;
      this.roleMappings := EffectiveMappings(roleMappings);
      claims := NoClaims;
      roles := [];
      userId := None;
      oid := None;
    }

    /** `on_request`: a decoded token replaces the user context; a token that fails to decode
        clears it; a request without a token leaves the previous request's context in place. */
    method OnRequest(token: BearerToken)
      modifies this
      ensures token.NoToken? ==>
        claims == old(claims) && roles == old(roles) && userId == old(userId) && oid == old(oid)
      ensures token.Undecodable? ==> claims == NoClaims && roles == [] && userId == None && oid == None
      ensures token.Decoded? ==>
        claims == token.claims && roles == RolesOf(token.claims) &&
        userId == token.claims.upn && oid == token.claims.oid
    {
      match token
      case NoToken =>
      case Undecodable =>
        claims := NoClaims;
        roles := [];
        userId := None;
        oid := None;
      case Decoded(c) =>
        claims := c;
        roles := RolesOf(c);
        userId := c.upn;
        oid := c.oid;
    }

    /** `on_list_tools`: the listing filtered by the user's roles, in the order of the roles and
        then of the listing. When there are roles and a tool manager is reachable, every listed
        tool whose name is not shown is removed from it; without roles nothing is removed. */
    method OnListTools(result: seq<Tool>, manager: ToolManager?) returns (filtered: seq<Tool>)
      modifies manager
      ensures filtered == VisibleTools(roles, roleMappings, result)
      ensures manager != null && roles != [] ==>
        manager.names == old(manager.names) - RemovedNames(result, filtered)
      ensures manager != null && roles == [] ==> manager.names == old(manager.names)
    {
      if roles == [] {
        return [];
      }
      filtered := [];
      var i := 0;
      while i < |roles|
        invariant 0 <= i <= |roles|
        invariant Granted(roles, roleMappings, result, []) == Granted(roles[i..], roleMappings, result, filtered)
      {
        var role := roles[i];
        assert roles[i..][1..] == roles[i + 1..];
        if role == TaskAll {
          filtered := result;
          break;
        } else if role in roleMappings {
          var allowedTags := roleMappings[role];
          ghost var before := filtered;
          var j := 0;
          while j < |result|
            invariant 0 <= j <= |result|
            invariant AddMatching(before, result, allowedTags) == AddMatching(filtered, result[j..], allowedTags)
          {
            var tool := result[j];
            assert result[j..][1..] == result[j + 1..];
            if HasAnyTag(tool, allowedTags) && tool !in filtered {
              filtered := filtered + [tool];
            }
            j := j + 1;
          }
        }
        i := i + 1;
      }
      if manager != null {
        var availableToolNames := Names(filtered);
        for k := 0 to |result|
          invariant manager.names == old(manager.names) - RemovedNames(result[..k], filtered)
        {
          assert result[..k + 1] == result[..k] + [result[k]];
          if result[k].name !in availableToolNames {
            manager.RemoveTool(result[k].name);
          }
        }
        assert result[..|result|] == result;
      }
    }

    /** `on_call_tool`. */
    method OnCallTool(message: Option<string>) returns (d: CallDecision)
      ensures d == CallDecisionFor(roles, message)
    {
      var toolName := if message.Some? then message.value else "unknown";
      if IsAdminTool(toolName) && AdminRole !in roles {
        d := PermissionDenied(toolName);
      } else {
        d := Forwarded(toolName);
      }
    }

    /** `has_role`: the role is one of the current user's. */
    function HasRole(requiredRole: string): (r: bool)
      reads this
      ensures r <==> exists i :: 0 <= i < |roles| && roles[i] == requiredRole
    {
      requiredRole in roles
    }

    /** `has_any_role`: some required role is held. */
    function HasAnyRole(requiredRoles: seq<string>): (r: bool)
      reads this
      ensures r <==> exists i :: 0 <= i < |requiredRoles| && HasRole(requiredRoles[i])
      ensures requiredRoles == [] ==> !r
    {
      exists role :: role in requiredRoles && role in roles
    }

    /** `get_user_permissions`: the user context and the union of the tags of every mapped role,
        duplicates dropped. */
    method GetUserPermissions() returns (p: Permissions)
      ensures p.userId == userId && p.oid == oid && p.roles == roles
      ensures p.permissions == EffectivePermissions(roles, roleMappings)
    {
      var permissions: set<string> := {};
      for i := 0 to |roles|
        invariant permissions == EffectivePermissions(roles[..i], roleMappings)
      {
        assert roles[..i + 1] == roles[..i] + [roles[i]];
        if roles[i] in roleMappings {
          permissions := permissions + set tag | tag in roleMappings[roles[i]];
        }
      }
      assert roles[..|roles|] == roles;
      p := Permissions(userId, oid, roles, permissions);
    }

    /** `validate_token_freshness`: True exactly when there is an oid and a store, and the
        stored record is fresh and expires more than five minutes from now. */
    method ValidateTokenFreshness() returns (isFresh: bool)
      modifies if tokenStore != null then {tokenStore.client} else {}
      ensures isFresh <==>
        oid.Some? && oid.value != "" && tokenStore != null && tokenStore.client.reachable &&
        old(tokenStore.FreshRecord(oid.value)).Some? &&
        old(tokenStore.FreshRecord(oid.value)).value["expires_at"].i > tokenStore.client.now + 300
      ensures tokenStore != null ==>
        (tokenStore.client.now == old(tokenStore.client.now) &&
         tokenStore.client.reachable == old(tokenStore.client.reachable))
      ensures tokenStore != null && (oid.None? || oid.value == "") ==>
        tokenStore.client.entries == old(tokenStore.client.entries)
      ensures tokenStore != null && oid.Some? && oid.value != "" ==>
        tokenStore.client.entries == old(tokenStore.EntriesAfterLoad(oid.value))
    {
      if oid.None? || oid.value == "" || tokenStore == null {
        return false;
      }
      var tokenData := tokenStore.LoadToken(oid.value);
      if tokenData.None? || tokenData.value == map[] {
        return false;
      }
      var expiresAt := Get(tokenData.value, "expires_at");
      isFresh := expiresAt.Int? && expiresAt.i > tokenStore.client.now + 300;
    }
  }

  /** `has_any_role` of a single role is `has_role`, and of a concatenation is the disjunction. */
  lemma HasAnyRoleDecomposes(m: AuthorizationMiddleware, a: seq<string>, b: seq<string>, r: string)
    ensures m.HasAnyRole([r]) == m.HasRole(r)
    ensures m.HasAnyRole(a + b) == (m.HasAnyRole(a) || m.HasAnyRole(b))
  {
    if m.HasAnyRole([r]) {
      var x :| x in [r] && x in m.roles;
    }
  }

  /** A request without a token after an authenticated one keeps the earlier user's roles, so
      that user's admin calls still go through. */
  method StaleContextKeepsAdmin(m: AuthorizationMiddleware) returns (d: CallDecision)
    modifies m
    ensures d == Forwarded("admin_reset")
  {
    m.OnRequest(Decoded(Claims(Some([AdminRole]), Some("admin@example.com"), Some("oid-1"))));
    m.OnRequest(NoToken);
    d := m.OnCallTool(Some("admin_reset"));
  }

  // ---------------------------------------------------------------------------------------
  // RoleBasedToolFilter
  // ---------------------------------------------------------------------------------------

  /** The roles that may see a tool of each sensitivity level; an unknown level admits nobody. */
  function AllowedRoles(level: string): seq<string> {
    if level == "public" then [TaskRead, TaskWrite, TaskAll]
    else if level == "internal" then [TaskWrite, TaskAll, AdminRole]
    else if level == "confidential" then [TaskAll, AdminRole]
    else if level == "restricted" then [AdminRole]
    else []
  }

  /** A tool missing from the sensitivity map is public. */
  function LevelOf(name: string, sensitivityMap: map<string, string>): string {
    if name in sensitivityMap then sensitivityMap[name] else "public"
  }

  predicate Admitted(tool: Tool, userRoles: seq<string>, sensitivityMap: map<string, string>) {
    exists role :: role in AllowedRoles(LevelOf(tool.name, sensitivityMap)) && role in userRoles
  }

  /** The tools of `tools` the roles admit, in their order. */
  function AdmittedTools(tools: seq<Tool>, userRoles: seq<string>, sensitivityMap: map<string, string>): seq<Tool> {
    if tools == [] then []
    else
      var last := tools[|tools| - 1];
      AdmittedTools(tools[..|tools| - 1], userRoles, sensitivityMap) +
      (if Admitted(last, userRoles, sensitivityMap) then [last] else [])
  }

  /** `filter_by_sensitivity`. */
  method FilterBySensitivity(tools: seq<Tool>, userRoles: seq<string>, sensitivityMap: map<string, string>)
    returns (filtered: seq<Tool>)
    ensures filtered == AdmittedTools(tools, userRoles, sensitivityMap)
  {
    filtered := [];
    for i := 0 to |tools|
      invariant filtered == AdmittedTools(tools[..i], userRoles, sensitivityMap)
    {
      assert tools[..i + 1][..i] == tools[..i];
      var toolSensitivity := LevelOf(tools[i].name, sensitivityMap);
      var allowedRoles := AllowedRoles(toolSensitivity);
      if exists role :: role in allowedRoles && role in userRoles {
        filtered := filtered + [tools[i]];
      }
    }
    assert tools[..|tools|] == tools;
  }

  lemma {:induction false} AdmittedToolsMembership(tools: seq<Tool>, userRoles: seq<string>, sensitivityMap: map<string, string>)
    ensures forall t :: t in AdmittedTools(tools, userRoles, sensitivityMap) <==>
      t in tools && Admitted(t, userRoles, sensitivityMap)
  {
    if tools != [] {
      AdmittedToolsMembership(tools[..|tools| - 1], userRoles, sensitivityMap);
      assert tools == tools[..|tools| - 1] + [tools[|tools| - 1]];
    }
  }

  /** Filtering keeps the order: it distributes over concatenation. */
  lemma {:induction false} AdmittedToolsConcat(a: seq<Tool>, b: seq<Tool>, userRoles: seq<string>, sensitivityMap: map<string, string>)
    ensures AdmittedTools(a + b, userRoles, sensitivityMap) ==
      AdmittedTools(a, userRoles, sensitivityMap) + AdmittedTools(b, userRoles, sensitivityMap)
    decreases |b|
  {
    if b == [] {
      assert a + b == a;
    } else {
      var b' := b[..|b| - 1];
      AdmittedToolsConcat(a, b', userRoles, sensitivityMap);
      assert (a + b)[..|a + b| - 1] == a + b';
      assert (a + b)[|a + b| - 1] == b[|b| - 1];
    }
  }

  /** The admin role alone does not see public tools: "public" admits only the `Task.*` roles
      that read, write or do everything. */
  lemma AdminAloneMissesPublicTools(tool: Tool, sensitivityMap: map<string, string>)
    requires tool.name !in sensitivityMap
    ensures !Admitted(tool, [AdminRole], sensitivityMap)
  {
  }

  /** A level outside the four known ones admits nobody. */
  lemma UnknownLevelAdmitsNobody(tool: Tool, userRoles: seq<string>, sensitivityMap: map<string, string>)
    requires LevelOf(tool.name, sensitivityMap) !in {"public", "internal", "confidential", "restricted"}
    ensures !Admitted(tool, userRoles, sensitivityMap)
  {
  }

  /** The tools whose name does not start with `admin_`, in order. */
  function WithoutAdminTools(tools: seq<Tool>): (r: seq<Tool>)
    ensures forall t :: t in r <==> t in tools && !IsAdminTool(t.name)
    ensures |r| <= |tools|
  {
    if tools == [] then []
    else (if IsAdminTool(tools[0].name) then [] else [tools[0]]) + WithoutAdminTools(tools[1..])
  }

  /** The `admin_` filter keeps order and repeats: it distributes over concatenation, so together
      with the membership of one-tool lists it is the in-order filter. */
  lemma {:induction false} WithoutAdminToolsConcat(a: seq<Tool>, b: seq<Tool>)
    ensures WithoutAdminTools(a + b) == WithoutAdminTools(a) + WithoutAdminTools(b)
    decreases |a|
  {
    if a == [] {
      assert a + b == b;
    } else {
      WithoutAdminToolsConcat(a[1..], b);
      ConsTail(a, b);
      WithoutAdminToolsCons(a);
      WithoutAdminToolsCons(a + b);
      var head := if IsAdminTool(a[0].name) then [] else [a[0]];
      ConcatAssoc(head, WithoutAdminTools(a[1..]), WithoutAdminTools(b));
    }
  }

  /** `filter_by_context`: from 9 to 17 o'clock inclusive every tool stays; at other hours the
      `admin_` tools are dropped. The context argument is not consulted. */
  function FilterByContext(tools: seq<Tool>, hour: int): (r: seq<Tool>)
    ensures 9 <= hour <= 17 ==> r == tools
    ensures forall t :: t in r <==> t in tools && (9 <= hour <= 17 || !IsAdminTool(t.name))
  {
    if !(9 <= hour <= 17) then WithoutAdminTools(tools) else tools
  }

  /** The `admin_` filter decides the first tool, then filters the rest. */
  lemma WithoutAdminToolsCons(tools: seq<Tool>)
    requires tools != []
    ensures WithoutAdminTools(tools) ==
      (if IsAdminTool(tools[0].name) then [] else [tools[0]]) + WithoutAdminTools(tools[1..])
  {
  }

  /** The first element and the rest of a concatenation with a non-empty left part. */
  lemma ConsTail<T>(a: seq<T>, b: seq<T>)
    requires a != []
    ensures (a + b)[0] == a[0] && (a + b)[1..] == a[1..] + b
  {
  }

  lemma ConcatAssoc<T>(x: seq<T>, y: seq<T>, z: seq<T>)
    ensures x + (y + z) == (x + y) + z
  {
  }

  /** At every hour the context filter keeps order and repeats. */
  lemma FilterByContextConcat(a: seq<Tool>, b: seq<Tool>, hour: int)
    ensures FilterByContext(a + b, hour) == FilterByContext(a, hour) + FilterByContext(b, hour)
  {
    WithoutAdminToolsConcat(a, b);
  }
}
