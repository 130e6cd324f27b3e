/** The addon registry of `internal/addon/loader.go`: three views of one list of
    tools, filled file by file and replaced as a whole by `Reload`. */
module AddonRegistry {
  import opened Text

  datatype Tool = Tool(namespace: string, name: string, server: string, scope: string, definition: string)

  function FullName(t: Tool): string { t.namespace + "__" + t.name }

  /** One tool definition as read: its text and whether it passes `validateTool`. */
  datatype ToolDef = ToolDef(name: string, definition: string, valid: bool)

  /** One addon file after reading: `None` if it cannot be read or parsed, its
      `parent_server` is empty or does not resolve to a namespace. */
  datatype AddonFile = AddonFile(server: string, namespace: string, scope: string, tools: seq<ToolDef>)

  function Resolved(f: AddonFile, d: ToolDef): Tool {
    Tool(f.namespace, d.name, f.server, f.scope, d.definition)
  }

  predicate Known(all: seq<Tool>, full: string) { exists i :: 0 <= i < |all| && FullName(all[i]) == full }

  predicate Refused(all: seq<Tool>, f: AddonFile, d: ToolDef) {
    !d.valid || Known(all, FullName(Resolved(f, d)))
  }

  /** Adding the tools of a file in order; `None` at the first invalid or duplicate one. */
  function AddTools(all: seq<Tool>, f: AddonFile, defs: seq<ToolDef>): Option<seq<Tool>>
    decreases |defs|
  {
    if defs == [] then Some(all)
    else if Refused(all, f, defs[0]) then None
    else AddTools(all + [Resolved(f, defs[0])], f, defs[1..])
  }

  /** `now` holds the file's tools up to the first one that is refused. */
  predicate StoppedAt(before: seq<Tool>, f: AddonFile, now: seq<Tool>) {
    exists k | 0 <= k < |f.tools| :: Some(now) == AddTools(before, f, f.tools[..k]) && Refused(now, f, f.tools[k])
  }

  lemma {:induction false} AddOneMore(all: seq<Tool>, f: AddonFile, defs: seq<ToolDef>, d: ToolDef)
    requires AddTools(all, f, defs).Some? && !Refused(AddTools(all, f, defs).value, f, d)
    ensures AddTools(all, f, defs + [d]) == Some(AddTools(all, f, defs).value + [Resolved(f, d)])
    decreases |defs|
  {
    if defs == [] {
      assert ([d])[1..] == [];
      assert defs + [d] == [d];
    } else {
      AddOneMore(all + [Resolved(f, defs[0])], f, defs[1..], d);
      assert (defs + [d])[1..] == defs[1..] + [d];
    }
  }

  /** Loading a directory: the files in order, or nothing at all. */
  function LoadAll(all: seq<Tool>, files: seq<Option<AddonFile>>): Option<seq<Tool>>
    decreases |files|
  {
    if files == [] then Some(all)
    else if files[0].None? then None
    else
      match AddTools(all, files[0].value, files[0].value.tools)
      case None => None
      case Some(more) => LoadAll(more, files[1..])
  }

  function InNamespace(all: seq<Tool>, ns: string): seq<Tool> {
    if all == [] then []
    else InNamespace(all[..|all| - 1], ns) + (if all[|all| - 1].namespace == ns then [all[|all| - 1]] else [])
  }

  /** No two tools of a list share a full name. */
  ghost predicate Distinct(all: seq<Tool>) {
    forall i, j :: 0 <= i < j < |all| ==> FullName(all[i]) != FullName(all[j])
  }

  ghost predicate NameView(byFullName: map<string, Tool>, all: seq<Tool>) {
    && (forall full :: full in byFullName <==> Known(all, full))
    && (forall full :: full in byFullName ==> byFullName[full] in all && FullName(byFullName[full]) == full)
  }

  ghost predicate SpaceView(byNamespace: map<string, seq<Tool>>, all: seq<Tool>) {
    && (forall ns :: ns in byNamespace <==> InNamespace(all, ns) != [])
    && (forall ns :: ns in byNamespace ==> byNamespace[ns] == InNamespace(all, ns))
  }

  lemma AddDistinct(all: seq<Tool>, t: Tool)
    requires Distinct(all) && !Known(all, FullName(t))
    ensures Distinct(all + [t])
  {
    forall i, j | 0 <= i < j < |all + [t]| ensures FullName((all + [t])[i]) != FullName((all + [t])[j]) {
      assert FullName(all[i]) != FullName(t);
    }
  }

  lemma AddName(byFullName: map<string, Tool>, all: seq<Tool>, t: Tool)
    requires NameView(byFullName, all)
    ensures NameView(byFullName[FullName(t) := t], all + [t])
  {
    var more := all + [t];
    forall full ensures full in byFullName[FullName(t) := t] <==> Known(more, full) {
      if Known(all, full) {
        var i :| 0 <= i < |all| && FullName(all[i]) == full;
        assert FullName(more[i]) == full;
      }
      if full == FullName(t) { assert FullName(more[|all|]) == full; }
    }
  }

  lemma AddSpace(byNamespace: map<string, seq<Tool>>, all: seq<Tool>, t: Tool)
    requires SpaceView(byNamespace, all)
    ensures var listed := if t.namespace in byNamespace then byNamespace[t.namespace] else [];
      SpaceView(byNamespace[t.namespace := listed + [t]], all + [t])
  {
    assert (all + [t])[..|all|] == all;
  }

  /** Lookup by full name gives the one tool that has it. */
  lemma LookupIsExact(byFullName: map<string, Tool>, all: seq<Tool>, i: nat)
    requires Distinct(all) && NameView(byFullName, all) && i < |all|
    ensures FullName(all[i]) in byFullName && byFullName[FullName(all[i])] == all[i]
  {
    var full := FullName(all[i]);
    assert Known(all, full);
    var j :| 0 <= j < |all| && all[j] == byFullName[full];
  }

  /** The namespaces partition the registry: a tool is listed under its own
      namespace and no other, and the lists together hold as many tools as there are. */
  lemma {:induction false} NamespaceHolds(all: seq<Tool>, ns: string, t: Tool)
    ensures t in InNamespace(all, ns) <==> t in all && t.namespace == ns
    ensures multiset(InNamespace(all, ns))[t] == if t.namespace == ns then multiset(all)[t] else 0
  {
    if all != [] {
      var front, last := all[..|all| - 1], all[|all| - 1];
      NamespaceHolds(front, ns, t);
      assert all == front + [last];
    }
  }

  lemma {:induction false} LoadedDistinct(all: seq<Tool>, files: seq<Option<AddonFile>>)
    requires Distinct(all) && LoadAll(all, files).Some?
    ensures Distinct(LoadAll(all, files).value) && all <= LoadAll(all, files).value
    decreases |files|
  {
    if files != [] {
      AddedDistinct(all, files[0].value, files[0].value.tools);
      LoadedDistinct(AddTools(all, files[0].value, files[0].value.tools).value, files[1..]);
    }
  }

  lemma {:induction false} AddedDistinct(all: seq<Tool>, f: AddonFile, defs: seq<ToolDef>)
    requires Distinct(all) && AddTools(all, f, defs).Some?
    ensures Distinct(AddTools(all, f, defs).value) && all <= AddTools(all, f, defs).value
    decreases |defs|
  {
    if defs != [] {
      AddDistinct(all, Resolved(f, defs[0]));
      AddedDistinct(all + [Resolved(f, defs[0])], f, defs[1..]);
    }
  }

  class Registry {
    var byFullName: map<string, Tool>
    var byNamespace: map<string, seq<Tool>>
    var all: seq<Tool>

    /** The three views agree. */
    ghost predicate Valid()
      reads this
    {
      Distinct(all) && NameView(byFullName, all) && SpaceView(byNamespace, all)
    }

    constructor ()
      ensures Valid() && all == []
    {
      byFullName, byNamespace, all := map[], map[], [];
    }

    /** Enters one tool into the three views. */
    method Add(rt: Tool)
      requires Valid() && !Known(all, FullName(rt))
      modifies this
      ensures Valid() && all == old(all) + [rt]
    {
      AddDistinct(all, rt);
      AddName(byFullName, all, rt);
      AddSpace(byNamespace, all, rt);
      var listed := if rt.namespace in byNamespace then byNamespace[rt.namespace] else [];
      ghost var names, spaces := byFullName[FullName(rt) := rt], byNamespace[rt.namespace := listed + [rt]];
      assert Distinct(all + [rt]) && NameView(names, all + [rt]) && SpaceView(spaces, all + [rt]);
      byFullName := byFullName[FullName(rt) := rt];
      byNamespace := byNamespace[rt.namespace := listed + [rt]];
      all := all + [rt];
      assert byFullName == names && byNamespace == spaces;
    }

    /** `loadFile`: adds the file's tools, or stops at the first it refuses and keeps
        those before it. */
    method LoadFile(f: AddonFile) returns (ok: bool)
      requires Valid()
      modifies this
      ensures Valid() && old(all) <= all
      ensures ok <==> AddTools(old(all), f, f.tools).Some?
      ensures ok ==> Some(all) == AddTools(old(all), f, f.tools)
      ensures !ok ==> StoppedAt(old(all), f, all)
    {
      for i := 0 to |f.tools|
        invariant Valid() && old(all) <= all
        invariant AddTools(all, f, f.tools[i..]) == AddTools(old(all), f, f.tools)
        invariant Some(all) == AddTools(old(all), f, f.tools[..i])
      {
        var td := f.tools[i];
        assert f.tools[i..][1..] == f.tools[i + 1..];
        if !td.valid { return false; }
        var rt := Resolved(f, td);
        if FullName(rt) in byFullName { return false; }
        AddOneMore(old(all), f, f.tools[..i], td);
        assert f.tools[..i] + [td] == f.tools[..i + 1];
        Add(rt);
      }
      assert f.tools[..|f.tools|] == f.tools;
      return true;
    }

    /** `Reload`: the registry becomes what the directory holds, in all three
        views at once, or stays exactly as it was. */
    method Reload(files: seq<Option<AddonFile>>) returns (ok: bool)
      requires Valid()
      modifies this
      ensures Valid()
      ensures ok <==> LoadAll([], files).Some?
      ensures ok ==> Some(all) == LoadAll([], files)
      ensures !ok ==> all == old(all) && byFullName == old(byFullName) && byNamespace == old(byNamespace)
    {
      var loaded := LoadDir(files);
      if loaded == null { return false; }
      byFullName, byNamespace, all := loaded.byFullName, loaded.byNamespace, loaded.all;
      return true;
    }

    /** A namespace's tools; none for one that was never loaded. */
    method ToolsForNamespace(ns: string) returns (tools: seq<Tool>)
      requires Valid()
      ensures tools == InNamespace(all, ns)
    {
      tools := if ns in byNamespace then byNamespace[ns] else [];
    }
  }

  /** `LoadDir`: a registry of every file's tools, or null. */
  method LoadDir(files: seq<Option<AddonFile>>) returns (r: Registry?)
    ensures r == null <==> LoadAll([], files).None?
    ensures r != null ==> fresh(r) && r.Valid() && Some(r.all) == LoadAll([], files)
  {
    var reg := new Registry();
    for i := 0 to |files|
      invariant reg.Valid() && fresh(reg)
      invariant LoadAll(reg.all, files[i..]) == LoadAll([], files)
    {
      assert files[i..][1..] == files[i + 1..];
      if files[i].None? { return null; }
      var ok := reg.LoadFile(files[i].value);
      if !ok { return null; }
    }
    return reg;
  }
}
