/** The tools offered to the model: the built-in ones, and those of the MCP servers that run. */
module Registry {
  import opened Wrappers
  import opened Bytes

  type Name = seq<byte>

  const READ: Name := [114, 101, 97, 100]
  const WRITE: Name := [119, 114, 105, 116, 101]
  const EDIT: Name := [101, 100, 105, 116]
  const SHELL: Name := [115, 104, 101, 108, 108]
  const BUILTINS: seq<Name> := [READ, WRITE, EDIT, SHELL]

  const LONGEST: nat := 64   // of a function name
  const MAX_PAGES: nat := 100
  const PREFIX: Name := [109, 99, 112, 95, 95]  // "mcp__"
  const GAP: Name := [95, 95]  // "__"

  predicate IsSafe(c: byte) { 97 <= c <= 122 || 65 <= c <= 90 || 48 <= c <= 57 || c == 95 || c == 45 }

  /** What the model may be offered as a function name. */
  predicate WellNamed(n: Name) { 1 <= |n| <= LONGEST && forall i :: 0 <= i < |n| ==> IsSafe(n[i]) }

  /** `s` with each other character as '_'. */
  function Safe(s: Name): Name { seq(|s|, i requires 0 <= i < |s| => if IsSafe(s[i]) then s[i] else 95) }

  /** The name under which a server's tool is offered. */
  function Exposed(server: Name, tool: Name): Name { First(PREFIX + Safe(server) + GAP + Safe(tool), LONGEST) }

  /** One page of a server's tools; an entry without a name is None. */
  datatype Page = Page(tools: seq<Option<Name>>, more: bool)

  predicate Distinct(s: seq<Name>) { forall i, j :: 0 <= i < j < |s| ==> s[i] != s[j] }

  lemma FirstOfFirst(a: Name, b: Name, n: nat)
    ensures First(First(a, n) + b, n) == First(a + b, n)
  {
  }

  lemma SafeIsSafe(s: Name)
    ensures (forall i :: 0 <= i < |s| ==> IsSafe(s[i])) ==> Safe(s) == s
    ensures forall i :: 0 <= i < |s| ==> IsSafe(Safe(s)[i])
  {
  }

  /** "mcp__", the server, "__" and the tool, with '_' for what is not allowed, cut to 64 characters. */
  lemma ExposedReads(server: Name, tool: Name)
    ensures |Safe(tool)| == |tool| && forall i :: 0 <= i < |tool| ==>
      Safe(tool)[i] == if ('a' as int <= tool[i] <= 'z' as int) || ('A' as int <= tool[i] <= 'Z' as int)
        || ('0' as int <= tool[i] <= '9' as int) || tool[i] == '_' as int || tool[i] == '-' as int then tool[i] else '_' as int
    ensures Exposed(server, tool) == First(Ascii("mcp__") + Safe(server) + Ascii("__") + Safe(tool), 64)
  {
    assert Ascii("mcp__") == PREFIX && Ascii("__") == GAP;
  }

  /** An offered name is well-formed, and none of the built-in ones. */
  lemma ExposedIsWellNamed(server: Name, tool: Name)
    ensures WellNamed(Exposed(server, tool)) && Exposed(server, tool) !in BUILTINS
  {
    SafeIsSafe(server);
    SafeIsSafe(tool);
    var all := PREFIX + Safe(server) + GAP + Safe(tool);
    assert forall i :: 0 <= i < |all| ==> IsSafe(all[i]);
    var e := Exposed(server, tool);
    assert e[0] == 109;
  }

  /** Append `s` to `out`, made safe, as far as a buffer of `cap` bytes goes. */
  method AddSafe(out: Name, cap: nat, s: Name) returns (r: Name)
    requires |out| < cap
    ensures r == First(out + Safe(s), cap - 1)
  {
    r := out;
    var i := 0;
    while i < |s| && |r| + 1 < cap
      invariant i <= |s| && r == out + Safe(s[..i]) && |r| < cap
    {
      assert Safe(s[..i]) + [if IsSafe(s[i]) then s[i] else 95] == Safe(s[..i + 1]);
      r := r + [if IsSafe(s[i]) then s[i] else 95];
      i := i + 1;
    }
    assert Safe(s)[..i] == Safe(s[..i]);
  }

  method Expose(server: Name, tool: Name) returns (e: Name)
    ensures e == Exposed(server, tool)
  {
    SafeIsSafe(GAP);
    e := AddSafe(PREFIX, LONGEST + 1, server);
    FirstOfFirst(PREFIX + Safe(server), GAP, LONGEST);
    FirstOfFirst(PREFIX + Safe(server) + GAP, Safe(tool), LONGEST);
    e := AddSafe(e, LONGEST + 1, GAP);
    e := AddSafe(e, LONGEST + 1, tool);
  }

  class Server {
    const name: Name
    var tools: map<Name, Name>  // offered name -> the server's own name

    constructor (name: Name)
      ensures this.name == name && tools == map[]
    {
      this.name := name;
      tools := map[];
    }
  }

  /** The names without those in `gone`, in order. */
  function Without(names: seq<Name>, gone: set<Name>): seq<Name> {
    if names == [] then []
    else Without(names[..|names| - 1], gone) + if names[|names| - 1] in gone then [] else [names[|names| - 1]]
  }

  // ---- what is offered, as values ----

  datatype Owner = Owner(name: Name, tools: map<Name, Name>)

  predicate OwnsFor(o: Owner, k: Name) { k in o.tools && k == Exposed(o.name, o.tools[k]) }

  predicate Owned(owners: seq<Owner>, n: Name) { exists i :: 0 <= i < |owners| && n in owners[i].tools }

  /** The names offered are distinct: the built-in ones, then those the owners expose, each
      exposed by one owner. */
  ghost predicate Consistent(tools: seq<Name>, owners: seq<Owner>) {
    && Distinct(tools) && BUILTINS <= tools
    && (forall i, k {:trigger k in owners[i].tools} :: 0 <= i < |owners| && k in owners[i].tools ==>
      k in tools && OwnsFor(owners[i], k))
    && (forall n :: n in tools && n !in BUILTINS ==> Owned(owners, n))
    && (forall i, j, k {:trigger k in owners[i].tools, k in owners[j].tools} ::
      0 <= i < j < |owners| && k in owners[i].tools ==> k !in owners[j].tools)
  }

  /** All names offered can be: well-formed and at most 64 long. */
  lemma OfferedAreWellNamed(tools: seq<Name>, owners: seq<Owner>)
    requires Consistent(tools, owners)
    ensures forall n :: n in tools ==> WellNamed(n)
  {
    forall n | n in tools ensures WellNamed(n) {
      if n !in BUILTINS {
        var i :| 0 <= i < |owners| && n in owners[i].tools;
        assert OwnsFor(owners[i], n);
        ExposedIsWellNamed(owners[i].name, owners[i].tools[n]);
      }
    }
  }

  lemma ConsistentStart(tools: seq<Name>, owners: seq<Owner>, name: Name)
    requires Consistent(tools, owners)
    ensures Consistent(tools, [Owner(name, map[])] + owners)
  {
    hide Distinct, BUILTINS, OwnsFor;
    var all := [Owner(name, map[])] + owners;
    assert forall i {:trigger all[i]} :: 1 <= i < |all| ==> all[i] == owners[i - 1];
    OwnedStart(owners, name);
    hide Owned;
    forall i, k {:trigger k in all[i].tools} | 0 <= i < |all| && k in all[i].tools ensures k in tools && OwnsFor(all[i], k) {
      assert k in owners[i - 1].tools;
    }
    forall i, j, k {:trigger k in all[i].tools, k in all[j].tools} | 0 <= i < j < |all| && k in all[i].tools
      ensures k !in all[j].tools
    {
      assert k in owners[i - 1].tools;
    }
  }

  lemma OwnedStart(owners: seq<Owner>, name: Name)
    ensures forall n :: Owned(owners, n) ==> Owned([Owner(name, map[])] + owners, n)
  {
    var all := [Owner(name, map[])] + owners;
    forall n | Owned(owners, n) ensures Owned(all, n) {
      var i :| 0 <= i < |owners| && n in owners[i].tools;
      assert all[i + 1] == owners[i];
    }
  }

  lemma ConsistentAdd(tools: seq<Name>, owners: seq<Owner>, tool: Name)
    requires Consistent(tools, owners) && owners != [] && Exposed(owners[0].name, tool) !in tools
    ensures
      var e := Exposed(owners[0].name, tool);
      Consistent(tools + [e], owners[0 := Owner(owners[0].name, owners[0].tools[e := tool])])
  {
    var e := Exposed(owners[0].name, tool);
    var now, more := owners[0 := Owner(owners[0].name, owners[0].tools[e := tool])], tools + [e];
    OwnedMore(owners, e, tool);
    ExposedIsWellNamed(owners[0].name, tool);
    hide Exposed, BUILTINS, WellNamed, Owned;
    assert now[0].tools.Keys == owners[0].tools.Keys + {e};
  }

  lemma OwnedMore(owners: seq<Owner>, e: Name, tool: Name)
    requires owners != []
    ensures
      var now := owners[0 := Owner(owners[0].name, owners[0].tools[e := tool])];
      Owned(now, e) && forall n :: Owned(owners, n) ==> Owned(now, n)
  {
    var now := owners[0 := Owner(owners[0].name, owners[0].tools[e := tool])];
    assert e in now[0].tools;
    forall n | Owned(owners, n) ensures Owned(now, n) {
      var i :| 0 <= i < |owners| && n in owners[i].tools;
      assert n in now[i].tools;
    }
  }

  lemma {:induction false} WithoutIs(names: seq<Name>, gone: set<Name>)
    ensures forall n :: n in Without(names, gone) <==> n in names && n !in gone
    ensures Distinct(names) ==> Distinct(Without(names, gone))
  {
    if names != [] {
      var most := names[..|names| - 1];
      WithoutIs(most, gone);
    }
  }

  lemma {:induction false} WithoutConcat(a: seq<Name>, b: seq<Name>, gone: set<Name>)
    ensures Without(a + b, gone) == Without(a, gone) + Without(b, gone)
    decreases |b|
  {
    if b == [] {
      assert a + b == a;
    } else {
      assert (a + b)[..|a + b| - 1] == a + b[..|b| - 1];
      WithoutConcat(a, b[..|b| - 1], gone);
    }
  }

  lemma {:induction false} WithoutNone(names: seq<Name>, gone: set<Name>)
    requires forall n :: n in names ==> n !in gone
    ensures Without(names, gone) == names
  {
    if names != [] { WithoutNone(names[..|names| - 1], gone); }
  }

  function Minus<T>(s: seq<T>, i: nat): seq<T>
    requires i < |s|
  {
    s[..i] + s[i + 1..]
  }

  lemma BuiltinsStay(tools: seq<Name>, owners: seq<Owner>, i: nat)
    requires Consistent(tools, owners) && i < |owners|
    ensures BUILTINS <= Without(tools, owners[i].tools.Keys)
  {
    var gone := owners[i].tools.Keys;
    forall n | n in BUILTINS ensures n !in gone {
      if n in gone {
        assert OwnsFor(owners[i], n);
        ExposedIsWellNamed(owners[i].name, owners[i].tools[n]);
      }
    }
    WithoutNone(BUILTINS, gone);
    WithoutConcat(BUILTINS, tools[4..], gone);
    assert BUILTINS + tools[4..] == tools;
  }

  lemma ConsistentDrop(tools: seq<Name>, owners: seq<Owner>, i: nat)
    requires Consistent(tools, owners) && i < |owners|
    ensures Consistent(Without(tools, owners[i].tools.Keys), Minus(owners, i))
  {
    var gone := owners[i].tools.Keys;
    BuiltinsStay(tools, owners, i);
    WithoutIs(tools, gone);
    OwnedMinus(owners, i);
    MinusKeeps(tools, owners, i);
    hide Without, Exposed, BUILTINS, OwnsFor, Owned, Minus;
  }

  lemma OwnedMinus(owners: seq<Owner>, i: nat)
    requires i < |owners|
    ensures forall n :: Owned(owners, n) && n !in owners[i].tools ==> Owned(Minus(owners, i), n)
  {
    var now := Minus(owners, i);
    forall n | Owned(owners, n) && n !in owners[i].tools ensures Owned(now, n) {
      var o :| 0 <= o < |owners| && n in owners[o].tools;
      assert n in now[if o < i then o else o - 1].tools;
    }
  }

  lemma MinusKeeps(tools: seq<Name>, owners: seq<Owner>, i: nat)
    requires Consistent(tools, owners) && i < |owners|
    ensures var now := Minus(owners, i);
      && (forall j, k {:trigger k in now[j].tools} :: 0 <= j < |now| && k in now[j].tools ==>
        k in tools && k !in owners[i].tools && OwnsFor(now[j], k))
      && (forall j, o, k {:trigger k in now[j].tools, k in now[o].tools} ::
        0 <= j < o < |now| && k in now[j].tools ==> k !in now[o].tools)
  {
    hide OwnsFor, BUILTINS, Minus;
    var now := Minus(owners, i);
    assert |now| == |owners| - 1 && forall j {:trigger now[j]} :: 0 <= j < |now| ==> now[j] == owners[AsBefore(j, i)] by {
      MinusIs(owners, i);
    }
    forall j, k {:trigger k in now[j].tools} | 0 <= j < |now| && k in now[j].tools
      ensures k in tools && k !in owners[i].tools && OwnsFor(now[j], k)
    {
      assert k in owners[AsBefore(j, i)].tools;
    }
    forall j, o, k {:trigger k in now[j].tools, k in now[o].tools} | 0 <= j < o < |now| && k in now[j].tools
      ensures k !in now[o].tools
    {
      assert k in owners[AsBefore(j, i)].tools;
    }
  }

  /** The place that the owner at `j`, once the one at `i` is gone, had before. */
  function AsBefore(j: nat, i: nat): nat { if j < i then j else j + 1 }

  lemma MinusIs<T>(s: seq<T>, i: nat)
    requires i < |s|
    ensures
      var now := Minus(s, i);
      |now| == |s| - 1 && forall j {:trigger now[j]} :: 0 <= j < |now| ==> now[j] == s[AsBefore(j, i)]
  {
  }

  // ---- the agent's tools and servers ----

  class Agent {
    var tools: seq<Name>
    var servers: seq<Server>  // running, newest first

    ghost function Owners(): (r: seq<Owner>)
      reads `servers, servers
      ensures |r| == |servers|
    {
      var ss := servers;
      seq(|ss|, i requires 0 <= i < |ss| reads ss => Owner(ss[i].name, ss[i].tools))
    }

    ghost predicate Valid()
      reads this, servers
    {
      && (forall i, j :: 0 <= i < j < |servers| ==> servers[i] != servers[j])
      && Consistent(tools, Owners())
    }

    constructor ()
      ensures Valid() && tools == BUILTINS && servers == []
    {
      tools, servers := BUILTINS, [];
      new;
      assert Owners() == [];
    }

    method HasTool(name: Name) returns (r: bool)
      ensures r <==> name in tools
    {
      for i := 0 to |tools|
        invariant name !in tools[..i]
      {
        if tools[i] == name { return true; }
      }
      assert tools[..|tools|] == tools;
      r := false;
    }

    /** Offer one more tool of the newest server, unless its name is taken. */
    method AddTool(s: Server, tool: Name)
      requires Valid() && servers != [] && s == servers[0]
      modifies `tools, s
      ensures Valid()
      ensures var e := Exposed(s.name, tool);
        if e in old(tools) then tools == old(tools) && s.tools == old(s.tools)
        else tools == old(tools) + [e] && s.tools == old(s.tools)[e := tool]
    {
      var e := Expose(s.name, tool);
      var taken := HasTool(e);
      if taken { return; }
      ghost var owners := Owners();
      ConsistentAdd(tools, owners, tool);
      hide Consistent, Exposed;
      tools := tools + [e];
      s.tools := s.tools[e := tool];
      assert Owners() == owners[0 := Owner(s.name, owners[0].tools[e := tool])];
    }

    /** The server at `at` is gone, and exactly its tools with it. */
    method Drop(s: Server, ghost at: nat)
      requires Valid() && at < |servers| && servers[at] == s
      modifies `tools, `servers
      ensures Valid() && servers == Minus(old(servers), at) && tools == Without(old(tools), s.tools.Keys)
    {
      ghost var owners := Owners();
      ConsistentDrop(tools, owners, at);
      hide Consistent;
      var i := 0;
      while i < |servers| && servers[i] != s
        invariant i <= at
      {
        i := i + 1;
      }
      servers := servers[..i] + servers[i + 1..];
      RemoveTools(s);
      assert Owners() == Minus(owners, at);
    }

    method RemoveTools(s: Server)
      modifies `tools
      ensures tools == Without(old(tools), s.tools.Keys)
    {
      var i := |tools|;
      assert tools[..i] == tools && tools[i..] == [];
      while i > 0
        invariant 0 <= i <= |old(tools)| && i <= |tools| && tools[..i] == old(tools)[..i]
        invariant Without(old(tools), s.tools.Keys) == Without(tools[..i], s.tools.Keys) + tools[i..]
      {
        i := i - 1;
        assert tools[..i + 1][..i] == tools[..i];
        if tools[i] in s.tools {
          tools := tools[..i] + tools[i + 1..];
        }
      }
    }

    /** Offer the server's tools, page by page: `replies` are its answers to tools/list, where None, or no
        answer, is a failure. It succeeds exactly when a page without a next one comes among the first
        100, and no failure before it. */
    method ListTools(s: Server, replies: seq<Option<Page>>) returns (ok: bool, ghost n: nat)
      requires Valid() && servers != [] && s == servers[0] && s.tools == map[]
      modifies `tools, s
      ensures Valid() && Grown(old(tools), s)
      ensures ok <==> Complete(replies)
      ensures ok ==> 0 < n <= |replies| && replies[n - 1].Some? && !replies[n - 1].value.more
      ensures AllOffered(tools, s.name, replies, n)
    {
      StartsGrown(s);
      var pages := 0;
      NoPages(tools, s.name, replies);
      hide Valid, Consistent, Exposed, Without, Grown, AllOffered, Complete, MoreUpTo;
      while pages < MAX_PAGES
        invariant Valid() && servers == old(servers) && Grown(old(tools), s) && pages <= MAX_PAGES && pages <= |replies|
        invariant MoreUpTo(replies, pages) && AllOffered(tools, s.name, replies, pages)
      {
        n := pages;
        MoreOrLast(replies, pages);
        if pages == |replies| || replies[pages].None? { return false, n; }
        ListPage(s, replies, pages, old(tools));
        pages := pages + 1;
        n := pages;
        if !replies[pages - 1].value.more { return true, n; }
      }
      TooManyPages(replies);
      return false, pages;
    }

    /** The tools of one more page are offered. */
    method ListPage(s: Server, replies: seq<Option<Page>>, page: nat, ghost base: seq<Name>)
      requires Valid() && servers != [] && s == servers[0] && Grown(base, s)
      requires page < |replies| && replies[page].Some? && AllOffered(tools, s.name, replies, page)
      modifies `tools, s
      ensures Valid() && Grown(base, s) && AllOffered(tools, s.name, replies, page + 1)
    {
      hide Valid, Grown, AllOffered, PageOffered;
      ghost var before := tools;
      AddPage(s, replies[page].value.tools, base);
      OfferedMore(before, tools, s.name, replies, page);
    }

    lemma StartsGrown(s: Server)
      requires s.tools == map[]
      ensures Grown(tools, s)
    {
      assert s.tools.Keys == {};
      WithoutNone(tools, {});
    }

    method AddPage(s: Server, listed: seq<Option<Name>>, ghost base: seq<Name>)
      requires Valid() && servers != [] && s == servers[0] && Grown(base, s)
      modifies `tools, s
      ensures Valid() && Grown(base, s) && old(tools) <= tools
      ensures PageOffered(tools, s.name, listed)
    {
      hide Consistent, Exposed, Without;
      for i := 0 to |listed|
        invariant Valid() && Grown(base, s) && old(tools) <= tools
        invariant forall j :: 0 <= j < i && listed[j].Some? ==> Exposed(s.name, listed[j].value) in tools
      {
        if listed[i].Some? { AddOne(s, listed[i].value, base); }
      }
    }

    /** The tools offered are those of `base`, and then those of `s`. */
    ghost predicate Grown(base: seq<Name>, s: Server)
      reads `tools, s
    {
      base <= tools && Without(tools, s.tools.Keys) == base && s.tools.Keys <= (set n | n in tools)
    }

    method AddOne(s: Server, tool: Name, ghost base: seq<Name>)
      requires Valid() && servers != [] && s == servers[0] && Grown(base, s)
      modifies `tools, s
      ensures Valid() && Grown(base, s) && old(tools) <= tools && Exposed(s.name, tool) in tools
    {
      ghost var e, was, keys := Exposed(s.name, tool), tools, s.tools.Keys;
      AddTool(s, tool);
      if e !in was {
        assert s.tools.Keys == keys + {e};
        WithoutAlso(was, keys, e);
        WithoutConcat(was, [e], keys + {e});
      }
    }

    /** Start a server and offer its tools: that succeeds exactly when it answers initialize and lists all
        its tools. One that fails, at whatever page, leaves no trace. */
    method Start(name: Name, answers: bool, replies: seq<Option<Page>>) returns (ok: bool)
      requires Valid()
      modifies `tools, `servers
      ensures Valid() && (ok <==> answers && Complete(replies))
      ensures !ok ==> tools == old(tools) && servers == old(servers)
      ensures ok ==> old(tools) <= tools && |servers| > 0 && fresh(servers[0]) && servers[1..] == old(servers)
      ensures ok ==> servers[0].name == name && Without(tools, servers[0].tools.Keys) == old(tools)
      ensures ok ==> exists n :: 0 < n <= |replies| && replies[n - 1].Some? && !replies[n - 1].value.more && AllOffered(tools, name, replies, n)
    {
      var s := new Server(name);
      ConsistentStart(tools, Owners(), name);
      ghost var owners := Owners();
      servers := [s] + servers;
      assert Owners() == [Owner(name, map[])] + owners;
      hide Consistent, Without, Complete;
      ok := false;
      if answers {
        ghost var n;
        ok, n := ListTools(s, replies);
        assert ok ==> AllOffered(tools, name, replies, n);
      } else {
        WithoutNone(tools, {});
        assert s.tools.Keys == {};
      }
      if !ok { Drop(s, 0); }
    }

    method Stop()
      requires Valid()
      modifies `tools, `servers
      ensures Valid() && servers == [] && tools == BUILTINS
    {
      while servers != []
        invariant Valid()
        decreases |servers|
      {
        Drop(servers[0], 0);
      }
      OnlyBuiltins(tools);
    }

    /** Every offered name but the built-in ones has one server, and a name of its own there. */
    method ServerOf(name: Name) returns (s: Server?, tool: Name)
      requires Valid()
      ensures s == null <==> name !in tools || name in BUILTINS
      ensures s != null ==> s in servers && name in s.tools && tool == s.tools[name] && name == Exposed(s.name, tool)
      ensures s != null ==> forall t :: t in servers && name in t.tools ==> t == s
    {
      tool := [];
      for i := 0 to |servers|
        invariant forall j :: 0 <= j < i ==> name !in servers[j].tools
      {
        if name in servers[i].tools {
          RouteIsUnique(i, name);
          return servers[i], servers[i].tools[name];
        }
      }
      NoRoute(name);
      s := null;
    }

    lemma RouteIsUnique(i: nat, name: Name)
      requires Valid() && i < |servers| && name in servers[i].tools
      ensures name in tools && name !in BUILTINS && name == Exposed(servers[i].name, servers[i].tools[name])
      ensures forall t :: t in servers && name in t.tools ==> t == servers[i]
    {
      var owners := Owners();
      OwnerIsUnique(tools, owners, i, name);
      hide Consistent;
      forall t | t in servers && name in t.tools ensures t == servers[i] {
        var j :| 0 <= j < |servers| && servers[j] == t;
        assert name in owners[j].tools;
      }
    }

    lemma NoRoute(name: Name)
      requires Valid() && forall j :: 0 <= j < |servers| ==> name !in servers[j].tools
      ensures name !in tools || name in BUILTINS
    {
      assert !Owned(Owners(), name);
    }
  }

  /** Every tool on the first `n` pages is offered, or its name was taken already. */
  predicate AllOffered(tools: seq<Name>, name: Name, replies: seq<Option<Page>>, n: nat) {
    n <= |replies| && forall p :: 0 <= p < n && replies[p].Some? ==> PageOffered(tools, name, replies[p].value.tools)
  }

  predicate PageOffered(tools: seq<Name>, name: Name, listed: seq<Option<Name>>) {
    forall t :: t in listed && t.Some? ==> Exposed(name, t.value) in tools
  }

  /** Up to 100 pages, all answered, of which the last and no other is without a next one. */
  predicate Complete(replies: seq<Option<Page>>) {
    exists n :: 0 <= n < |replies| && n < 100 && IsLast(replies, n) && MoreUpTo(replies, n)
  }

  predicate IsLast(replies: seq<Option<Page>>, n: nat)
    requires n < |replies|
  {
    replies[n].Some? && !replies[n].value.more
  }

  predicate MoreUpTo(replies: seq<Option<Page>>, n: nat) {
    n <= |replies| && forall p :: 0 <= p < n ==> replies[p].Some? && replies[p].value.more
  }

  lemma NoPages(tools: seq<Name>, name: Name, replies: seq<Option<Page>>)
    ensures MoreUpTo(replies, 0) && AllOffered(tools, name, replies, 0)
  {
  }

  /** After pages that all have a next one, the next answer decides. */
  lemma MoreOrLast(replies: seq<Option<Page>>, n: nat)
    requires MoreUpTo(replies, n) && n < 100
    ensures n == |replies| || replies[n].None? ==> !Complete(replies)
    ensures n < |replies| && replies[n].Some? && replies[n].value.more ==> MoreUpTo(replies, n + 1)
    ensures n < |replies| && replies[n].Some? && !replies[n].value.more ==> Complete(replies)
  {
    if n < |replies| && replies[n].Some? && !replies[n].value.more { assert IsLast(replies, n); }
  }

  lemma TooManyPages(replies: seq<Option<Page>>)
    requires MoreUpTo(replies, 100)
    ensures !Complete(replies)
  {
  }

  lemma OfferedMore(before: seq<Name>, tools: seq<Name>, name: Name, replies: seq<Option<Page>>, n: nat)
    requires before <= tools && AllOffered(before, name, replies, n) && n < |replies| && replies[n].Some?
    requires PageOffered(tools, name, replies[n].value.tools)
    ensures AllOffered(tools, name, replies, n + 1)
  {
    hide Exposed;
  }

  lemma OwnerIsUnique(tools: seq<Name>, owners: seq<Owner>, i: nat, name: Name)
    requires Consistent(tools, owners) && i < |owners| && name in owners[i].tools
    ensures name in tools && name !in BUILTINS && name == Exposed(owners[i].name, owners[i].tools[name])
    ensures forall j :: 0 <= j < |owners| && name in owners[j].tools ==> j == i
  {
    assert OwnsFor(owners[i], name);
    ExposedIsWellNamed(owners[i].name, owners[i].tools[name]);
    hide Exposed, BUILTINS, WellNamed;
  }

  lemma LaterIsNoBuiltin(tools: seq<Name>, n: nat)
    requires Distinct(tools) && BUILTINS <= tools && 4 <= n < |tools|
    ensures tools[n] !in BUILTINS
  {
    assert forall j :: 0 <= j < 4 ==> BUILTINS[j] == tools[j] && tools[j] != tools[n];
  }

  /** Without owners only the built-in names are offered. */
  lemma OnlyBuiltins(tools: seq<Name>)
    requires Consistent(tools, [])
    ensures tools == BUILTINS
  {
    assert forall i :: 0 <= i < |tools| ==> tools[i] in BUILTINS;
    if |tools| > 4 { LaterIsNoBuiltin(tools, 4); }
  }

  lemma {:induction false} WithoutAlso(names: seq<Name>, gone: set<Name>, e: Name)
    requires e !in names
    ensures Without(names, gone + {e}) == Without(names, gone)
  {
    if names != [] { WithoutAlso(names[..|names| - 1], gone, e); }
  }
}
