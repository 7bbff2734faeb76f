/** The example tree's authorization middleware. It catches nothing: a request without a
    decodable token raises, and so does a tool listing for a user whose token carried no roles
    claim. Only `Task.Read`, `Task.Write` and `Task.All` are recognised, matched against the
    tags "read" and "write". Python's list aliasing is kept: after `Task.All` the filtered list
    IS the listing, so a later role appends to both. */
module ExampleAuthorization {
  import opened Values
  import opened McpTools
  import Authorization

  const TaskRead: string := "Task.Read"
  const TaskWrite: string := "Task.Write"
  const TaskAll: string := "Task.All"

  /** A Python list of tools, shared by reference. */
  class ToolList {
    var items: seq<Tool>

    constructor (items: seq<Tool>)
      ensures this.items == items
    {
      this.items := items;
    }
  }

  /** `[t for t in tools if tag in t.tags]`. */
  function Tagged(tools: seq<Tool>, tag: string): (r: seq<Tool>)
    ensures forall t :: t in r <==> t in tools && tag in t.tags
    ensures |r| <= |tools|
  {
    if tools == [] then []
    else (if tag in tools[0].tags then [tools[0]] else []) + Tagged(tools[1..], tag)
  }

  /** The tag filter keeps order and repeats: it distributes over concatenation, so together with
      the membership of one-tool lists it is the in-order filter. */
  lemma {:induction false} TaggedConcat(a: seq<Tool>, b: seq<Tool>, tag: string)
    ensures Tagged(a + b, tag) == Tagged(a, tag) + Tagged(b, tag)
    decreases |a|
  {
    if a == [] {
      assert a + b == b;
    } else {
      TaggedConcat(a[1..], b, tag);
      Authorization.ConsTail(a, b);
      TaggedCons(a, tag);
      TaggedCons(a + b, tag);
      var head := if tag in a[0].tags then [a[0]] else [];
      Authorization.ConcatAssoc(head, Tagged(a[1..], tag), Tagged(b, tag));
    }
  }

  /** One step of the filter on a non-empty list. */
  lemma TaggedCons(tools: seq<Tool>, tag: string)
    requires tools != []
    ensures Tagged(tools, tag) == (if tag in tools[0].tags then [tools[0]] else []) + Tagged(tools[1..], tag)
  {
  }

  /** The state of the listing loop: the filtered list, the listing, and whether the two names
      refer to one list. */
  datatype Lists = Lists(filtered: seq<Tool>, result: seq<Tool>, aliased: bool)

  /** Two aliased names always show the same contents. */
  predicate Consistent(s: Lists) {
    s.aliased ==> s.filtered == s.result
  }

  /** `filtered_tools.extend(ext)`, which also grows the listing when the two are one list. */
  function Extend(s: Lists, ext: seq<Tool>): Lists {
    if s.aliased then Lists(s.filtered + ext, s.result + ext, true)
    else Lists(s.filtered + ext, s.result, false)
  }

  /** One role: the three `if`s of the loop body, in their order. */
  function ExampleStep(s: Lists, role: string): Lists {
    var s1 := if role == TaskWrite then Extend(s, Tagged(s.result, "write")) else s;
    var s2 := if role == TaskRead then Extend(s1, Tagged(s1.result, "read")) else s1;
    if role == TaskAll then Lists(s2.result, s2.result, true) else s2
  }

  /** The loop over the roles, from state `s`. */
  function ExampleListing(roles: seq<string>, s: Lists): Lists
    decreases |roles|
  {
    if roles == [] then s else ExampleListing(roles[1..], ExampleStep(s, roles[0]))
  }

  /** The state the loop starts from: an empty filtered list beside the listing. */
  function Start(tools: seq<Tool>): Lists {
    Lists([], tools, false)
  }

  /** The tool is granted by "read" or "write" through a role the user holds. */
  predicate GrantedByRoles(t: Tool, roles: seq<string>) {
    (TaskWrite in roles && "write" in t.tags) || (TaskRead in roles && "read" in t.tags)
  }

  lemma {:induction false} ListingWithoutTaskAll(roles: seq<string>, s: Lists)
    requires TaskAll !in roles && !s.aliased
    ensures var f := ExampleListing(roles, s);
      !f.aliased && f.result == s.result &&
      forall t :: t in f.filtered <==> t in s.filtered || (t in s.result && GrantedByRoles(t, roles))
    decreases |roles|
  {
    if roles != [] {
      ListingWithoutTaskAll(roles[1..], ExampleStep(s, roles[0]));
      assert roles == [roles[0]] + roles[1..];
    }
  }

  lemma {:induction false} ListingStaysAliased(roles: seq<string>, s: Lists)
    requires s.aliased && Consistent(s)
    ensures var f := ExampleListing(roles, s);
      f.aliased && Consistent(f) && |s.result| <= |f.result| && f.result[..|s.result|] == s.result
    decreases |roles|
  {
    if roles != [] {
      var n := ExampleStep(s, roles[0]);
      ListingStaysAliased(roles[1..], n);
      var f := ExampleListing(roles, s);
      assert f.result[..|n.result|][..|s.result|] == s.result;
    }
  }

  lemma {:induction false} ListingWithTaskAll(roles: seq<string>, s: Lists)
    requires TaskAll in roles && Consistent(s)
    ensures var f := ExampleListing(roles, s);
      f.aliased && f.filtered == f.result && |s.result| <= |f.result| && f.result[..|s.result|] == s.result
    decreases |roles|
  {
    var n := ExampleStep(s, roles[0]);
    if roles[0] == TaskAll {
      ListingStaysAliased(roles[1..], n);
    } else {
      ListingWithTaskAll(roles[1..], n);
      var f := ExampleListing(roles, s);
      assert f.result[..|n.result|][..|s.result|] == s.result;
    }
  }

  /** Without `Task.All` the listing is left alone and a tool is shown exactly when a held
      `Task.Read` or `Task.Write` grants its "read" or "write" tag; every other role, the
      admin role included, grants nothing. */
  lemma ListingMembership(roles: seq<string>, tools: seq<Tool>)
    requires TaskAll !in roles
    ensures var f := ExampleListing(roles, Start(tools));
      f.result == tools && forall t :: t in f.filtered <==> t in tools && GrantedByRoles(t, roles)
  {
    ListingWithoutTaskAll(roles, Start(tools));
  }

  /** With `Task.All` the answer is the listing itself, which starts with every listed tool and
      has grown by whatever the later roles appended to it. */
  lemma TaskAllAnswersGrownListing(roles: seq<string>, tools: seq<Tool>)
    requires TaskAll in roles
    ensures var f := ExampleListing(roles, Start(tools));
      f.filtered == f.result && |tools| <= |f.result| && f.result[..|tools|] == tools
  {
    ListingWithTaskAll(roles, Start(tools));
  }

  /** Unlike the backend filter, a tool granted by two roles is shown twice. */
  lemma ReadWriteToolShownTwice()
    ensures var t := Tool("update_note", {"read", "write"});
      ExampleListing([TaskRead, TaskWrite], Start([t])).filtered == [t, t]
  {
    var t := Tool("update_note", {"read", "write"});
    var s1 := ExampleStep(Start([t]), TaskRead);
    assert Tagged([t], "read") == [t] && Tagged([t], "write") == [t];
    assert s1 == Lists([t], [t], false);
    var s2 := ExampleStep(s1, TaskWrite);
    assert s2 == Lists([t, t], [t], false);
    assert [TaskRead, TaskWrite][1..] == [TaskWrite];
    assert ExampleListing([TaskWrite], s1) == ExampleListing([], s2) == s2;
  }

  /** `Task.All` followed by `Task.Read` lists every read tool a second time. */
  lemma TaskAllThenReadRepeatsReadTools()
    ensures var t := Tool("get_forecast", {"read"});
      ExampleListing([TaskAll, TaskRead], Start([t])).filtered == [t, t]
  {
    var t := Tool("get_forecast", {"read"});
    var s1 := ExampleStep(Start([t]), TaskAll);
    assert s1 == Lists([t], [t], true);
    assert Tagged([t], "read") == [t];
    var s2 := ExampleStep(s1, TaskRead);
    assert s2 == Lists([t, t], [t, t], true);
    assert [TaskAll, TaskRead][1..] == [TaskRead];
    assert ExampleListing([TaskRead], s1) == ExampleListing([], s2) == s2;
  }

  class AuthorizationMiddleware {
    var claims: Option<Claims>
    var roles: Option<seq<string>>
    var userId: Option<string>
    var oid: Option<string>

    /** Before the first request no user context exists; reading it raises. */
    constructor ()
      ensures claims == None && roles == None && userId == None && oid == None
    {
      claims := None;
      roles := None;
      userId := None;
      oid := None;
    }

    /** `on_request`: a decoded token sets the user context (the roles stay None when the claim
        is absent); a missing or undecodable token raises and leaves the context as it was. */
    method OnRequest(token: BearerToken) returns (s: Status)
      modifies this
      ensures s == Completed <==> token.Decoded?
      ensures token.Decoded? ==>
        claims == Some(token.claims) && roles == token.claims.roles &&
        userId == token.claims.upn && oid == token.claims.oid
      ensures !token.Decoded? ==>
        claims == old(claims) && roles == old(roles) && userId == old(userId) && oid == old(oid)
    {
      match token
      case Decoded(c) =>
        claims := Some(c);
        roles := c.roles;
        userId := c.upn;
        oid := c.oid;
        s := Completed;
      case _ =>
        s := Raised;
    }

    /** `on_list_tools`: raises without roles; otherwise answers the filtered list, which is the
        listing object itself once `Task.All` was met, and removes from the tool manager every
        tool of the (possibly grown) listing whose name is not shown. */
    method OnListTools(result: ToolList, manager: ToolManager?) returns (r: Outcome<ToolList>)
      modifies result, manager
      ensures roles.None? ==>
        r == RaisedError && result.items == old(result.items) &&
        (manager != null ==> manager.names == old(manager.names))
      ensures roles.Some? ==>
        r.Returned? &&
        var f := ExampleListing(roles.value, Start(old(result.items)));
        r.value.items == f.filtered && result.items == f.result && (f.aliased <==> r.value == result) &&
        (manager != null ==> manager.names == old(manager.names) - RemovedNames(f.result, f.filtered))
    {
      if roles.None? {
        return RaisedError;
      }
      var rs := roles.value;
      ghost var start := Start(result.items);
      var filtered := new ToolList([]);
      ghost var ownList := filtered;
      var i := 0;
      while i < |rs|
        invariant 0 <= i <= |rs|
        invariant filtered == result || filtered == ownList
        invariant ExampleListing(rs, start) ==
          ExampleListing(rs[i..], Lists(filtered.items, result.items, filtered == result))
        invariant Consistent(Lists(filtered.items, result.items, filtered == result))
        modifies result, ownList
      {
        var role := rs[i];
        assert rs[i..][1..] == rs[i + 1..];
        if role == TaskWrite {
          filtered.items := filtered.items + Tagged(result.items, "write");
        }
        if role == TaskRead {
          filtered.items := filtered.items + Tagged(result.items, "read");
        }
        if role == TaskAll {
          filtered := result;
        }
        i := i + 1;
      }
      assert rs[i..] == [];
      if manager != null {
        var kept := filtered.items;
        var availableToolNames := Names(kept);
        var listing := result.items;
        for k := 0 to |listing|
          invariant manager.names == old(manager.names) - RemovedNames(listing[..k], kept)
          modifies manager
        {
          assert listing[..k + 1] == listing[..k] + [listing[k]];
          if listing[k].name !in availableToolNames {
            manager.RemoveTool(listing[k].name);
          }
        }
        assert listing[..|listing|] == listing;
      }
      r := Returned(filtered);
    }

    /** `on_call_tool`: every call goes on; the metadata lookup only prints. */
    method OnCallTool(toolName: string) returns (d: CallDecision)
      ensures d == Forwarded(toolName)
    {
      d := Forwarded(toolName);
    }
  }

  /** With an empty roles claim the example shows nothing and prunes every listed tool from the
      tool manager, where the backend shows nothing and prunes none. */
  lemma EmptyRolesPruneEverything(tools: seq<Tool>)
    ensures ExampleListing([], Start(tools)).filtered == []
    ensures RemovedNames(ExampleListing([], Start(tools)).result, ExampleListing([], Start(tools)).filtered) == Names(tools)
  {
  }

  /** The example forwards an `admin_` call that the backend middleware, holding the same
      roles, refuses for lack of the admin role. */
  method AdminCallContrast(backend: Authorization.AuthorizationMiddleware, example: AuthorizationMiddleware, name: string)
    returns (backendDecision: CallDecision, exampleDecision: CallDecision)
    requires IsAdminTool(name) && Authorization.AdminRole !in backend.roles
    ensures backendDecision == PermissionDenied(name) && exampleDecision == Forwarded(name)
  {
    backendDecision := backend.OnCallTool(Some(name));
    exampleDecision := example.OnCallTool(name);
  }
}
