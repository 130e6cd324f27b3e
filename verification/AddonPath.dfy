/** Placeholder rewriting of `internal/addon/openapi_endpoints.go`: `{name}` tokens
    of an OpenAPI path become the executor's `{{slug}}` form, one scan per
    path parameter, at import and again when the tool definition is built. */
module AddonPath {
  import opened Text
  import opened AddonSlug

  /** The position of the first closing brace. */
  function CloseAt(s: string): (r: Option<nat>)
    ensures r.Some? ==> r.value < |s| && s[r.value] == '}'
  {
    if s == "" then None
    else if s[0] == '}' then Some(0)
    else match CloseAt(s[1..]) case None => None case Some(k) => Some(k + 1)
  }

  lemma {:induction false} CloseIsFirst(s: string)
    requires CloseAt(s).Some?
    ensures '}' !in s[..CloseAt(s).value]
  {
    if s[0] != '}' {
      var k := CloseAt(s[1..]).value;
      CloseIsFirst(s[1..]);
      assert s[..k + 1] == [s[0]] + s[1..][..k];
    }
  }

  function Slot(name: string): string { "{" + ("{" + name + "}" + "}") }

  /** One scan for one parameter. */
  function Rewrite(path: string, name: string): string
    decreases |path|
  {
    if path == "" then ""
    else if path[0] != '{' then [path[0]] + Rewrite(path[1..], name)
    else
      match CloseAt(path)
      case None => path
      case Some(end) =>
        (if SlugParam(path[1..end]) == name then Slot(name) else path[..end + 1]) + Rewrite(path[end + 1..], name)
  }

  lemma {:induction false} RewriteChar(c: char, rest: string, name: string)
    requires c != '{'
    ensures Rewrite([c] + rest, name) == [c] + Rewrite(rest, name)
  {
    assert ([c] + rest)[1..] == rest;
  }

  lemma RewriteUnclosed(path: string, name: string)
    requires path != "" && path[0] == '{' && CloseAt(path).None?
    ensures Rewrite(path, name) == path
  {
  }

  /** What a scan writes for the token that the text starts with. */
  function Written(path: string, end: nat, name: string): string
    requires 0 < end < |path|
  {
    if SlugParam(path[1..end]) == name then Slot(name) else path[..end + 1]
  }

  lemma RewriteClosed(path: string, end: nat, name: string)
    requires path != "" && path[0] == '{' && CloseAt(path) == Some(end)
    ensures 0 < end < |path| && Rewrite(path, name) == Written(path, end, name) + Rewrite(path[end + 1..], name)
  {
  }

  method RewriteLoop(path: string, name: string) returns (out: string)
    ensures out == Rewrite(path, name)
  {
    out := "";
    var rest := path;
    while rest != ""
      invariant out + Rewrite(rest, name) == Rewrite(path, name)
      decreases |rest|
    {
      if rest[0] != '{' {
        RewriteChar(rest[0], rest[1..], name);
        assert rest == [rest[0]] + rest[1..];
        Assoc(out, [rest[0]], Rewrite(rest[1..], name));
        out, rest := out + [rest[0]], rest[1..];
      } else {
        var close := CloseAt(rest);
        if close.None? {
          RewriteUnclosed(rest, name);
          return out + rest;
        }
        var end := close.value;
        RewriteClosed(rest, end, name);
        Assoc(out, Written(rest, end, name), Rewrite(rest[end + 1..], name));
        if SlugParam(rest[1..end]) == name {
          out := out + Slot(name);
        } else {
          out := out + rest[..end + 1];
        }
        rest := rest[end + 1..];
      }
    }
  }

  /** `rewriteURLPlaceholders`: a scan per path parameter, in order. */
  function RewriteAll(path: string, names: seq<string>): string
    decreases |names|
  {
    if names == [] then path else RewriteAll(Rewrite(path, names[0]), names[1..])
  }

  /* ---- Braces ---- */

  function Bars(n: nat): string { if n == 0 then "" else "}" + Bars(n - 1) }

  /** A replaced token with the braces that trail it. */
  function Used(name: string, n: nat): string { Slot(name) + Bars(n) }

  function Token(t: string): string { "{" + (t + "}") }

  lemma {:induction false} CloseRest(s: string)
    requires s != "" && s[0] != '}' && CloseAt(s[1..]).Some?
    ensures CloseAt(s) == Some(CloseAt(s[1..]).value + 1)
  {
  }

  lemma ConsParts(c: char, s: string)
    ensures [c] + s != "" && ([c] + s)[0] == c && ([c] + s)[1..] == s
  {
  }

  lemma {:induction false} CloseStep(c: char, s: string)
    requires c != '}' && CloseAt(s).Some?
    ensures CloseAt([c] + s) == Some(CloseAt(s).value + 1)
  {
    ConsParts(c, s);
    CloseRest([c] + s);
  }

  lemma CloseHere(rest: string)
    ensures CloseAt("}" + rest) == Some(0)
  {
  }

  lemma {:induction false} CloseAfter(t: string, y: string)
    requires '}' !in t && CloseAt(y) == Some(0)
    ensures CloseAt(t + y) == Some(|t|)
  {
    if t == "" {
      assert t + y == y;
    } else {
      CloseAfter(t[1..], y);
      assert t + y == [t[0]] + (t[1..] + y);
      CloseStep(t[0], t[1..] + y);
    }
  }

  lemma CloseIs(t: string, rest: string)
    requires '}' !in t
    ensures CloseAt("{" + (t + ("}" + rest))) == Some(|t| + 1)
  {
    CloseHere(rest);
    CloseAfter(t, "}" + rest);
    CloseStep('{', t + ("}" + rest));
  }

  lemma {:induction false} BarsLength(n: nat)
    ensures |Bars(n)| == n
  {
    if n > 0 { BarsLength(n - 1); }
  }

  predicate SplitsAt(path: string, t: string, rest: string) {
    && path != "" && path[0] == '{' && '}' !in t && CloseAt(path) == Some(|t| + 1)
    && path[1..|t| + 1] == t && path[|t| + 2..] == rest
  }

  lemma FirstToken(path: string) returns (t: string, rest: string)
    requires path != "" && path[0] == '{' && CloseAt(path).Some?
    ensures SplitsAt(path, t, rest) && |rest| < |path|
  {
    var end := CloseAt(path).value;
    t, rest := path[1..end], path[end + 1..];
    CloseIsFirst(path);
    assert forall i :: 0 <= i < |t| ==> t[i] == path[..end][i + 1];
  }

  lemma TokenSplit(path: string, t: string, rest: string)
    requires SplitsAt(path, t, rest)
    ensures path == "{" + (t + ("}" + rest))
  {
    assert path == [path[0]] + (path[1..|t| + 1] + ([path[|t| + 1]] + path[|t| + 2..]));
  }

  lemma TokenJoin(t: string, rest: string, y: string)
    ensures "{" + (t + ("}" + rest)) + y == "{" + (t + ("}" + (rest + y)))
    ensures Token(t) + rest == "{" + (t + ("}" + rest))
  {
  }

  lemma SplitsToken(t: string, rest: string)
    requires '}' !in t
    ensures SplitsAt("{" + (t + ("}" + rest)), t, rest)
  {
    var s := "{" + (t + ("}" + rest));
    CloseIs(t, rest);
    assert s[1..|t| + 1] == t && s[|t| + 2..] == rest;
  }

  /** The first closing brace of a slot closes the token; `tail` is what follows it. */
  lemma SlotSplit(p: string, n: nat, rest: string)
    ensures Used(p, n) + rest == "{" + (("{" + p) + ("}" + (Bars(n + 1) + rest)))
  {
    assert Bars(n + 1) == "}" + Bars(n);
  }

  lemma SlotJoin(p: string, n: nat, rest: string)
    ensures "{" + (("{" + p) + "}") + (Bars(n + 1) + rest) == Used(p, n) + rest
  {
    assert Bars(n + 1) == "}" + Bars(n);
  }

  lemma NameHasNoBrace(t: string)
    requires '}' !in t
    ensures '}' !in SlugParam(t)
  {
    SlugSpec(t);
  }

  /* ---- One scan over what others have written ---- */

  lemma RewriteToken(t: string, rest: string, name: string)
    requires '}' !in t
    ensures Rewrite("{" + (t + ("}" + rest)), name) ==
      (if SlugParam(t) == name then Slot(name) else "{" + (t + "}")) + Rewrite(rest, name)
  {
    var s := "{" + (t + ("}" + rest));
    CloseIs(t, rest);
    assert s[1..|t| + 1] == t;
    assert s[..|t| + 2] == "{" + (t + "}");
    assert s[|t| + 2..] == rest;
  }

  lemma {:induction false} RewriteBars(n: nat, rest: string, name: string)
    ensures Rewrite(Bars(n) + rest, name) == Bars(n) + Rewrite(rest, name)
  {
    if n == 0 {
      assert Bars(n) + rest == rest;
    } else {
      RewriteBars(n - 1, rest, name);
      RewriteChar('}', Bars(n - 1) + rest, name);
      Assoc(['}'], Bars(n - 1), rest);
      Assoc(['}'], Bars(n - 1), Rewrite(rest, name));
    }
  }

  /** What a later scan makes of a token that was replaced. */
  function Seen(name: string): string { SlugParam("{" + name) }

  /** Whether a second scan for a name matches it again. */
  predicate Again(name: string) { Seen(name) == name }

  lemma SeenHasNoBrace(p: string)
    requires '}' !in p
    ensures '}' !in Seen(p)
  {
    NameHasNoBrace("{" + p);
  }

  /** A scan over an earlier replacement sees the token `{name`. */
  lemma RewriteUsed(p: string, n: nat, rest: string, name: string)
    requires '}' !in p
    ensures Rewrite(Used(p, n) + rest, name) ==
      (if Seen(p) == name then Used(name, n + 1) else Used(p, n)) + Rewrite(rest, name)
  {
    SlotSplit(p, n, rest);
    assert '}' !in "{" + p;
    RewriteToken("{" + p, Bars(n + 1) + rest, name);
    RewriteBars(n + 1, rest, name);
    if Seen(p) == name {
      Assoc(Slot(name), Bars(n + 1), Rewrite(rest, name));
    } else {
      SlotJoin(p, n, Rewrite(rest, name));
    }
  }

  /** What the scans have made of a token: nothing yet, or a slot and the stray closing
      braces behind it. */
  datatype Mark = Raw | Slotted(name: string, strays: nat)

  function Scan(m: Mark, t: string, name: string): Mark {
    match m
    case Raw => if SlugParam(t) == name then Slotted(name, 0) else Raw
    case Slotted(p, n) => if Seen(p) == name then Slotted(name, n + 1) else m
  }

  function Scans(m: Mark, t: string, names: seq<string>): Mark
    decreases |names|
  {
    if names == [] then m else Scans(Scan(m, t, names[0]), t, names[1..])
  }

  /** A token after a scan for each of the names in turn. */
  function Final(t: string, names: seq<string>): Mark { Scans(Raw, t, names) }

  function Show(t: string, m: Mark): string {
    match m case Raw => Token(t) case Slotted(p, n) => Used(p, n)
  }

  /** The path with each of its tokens as the scans leave it. */
  function Expand(path: string, names: seq<string>): string
    decreases |path|
  {
    if path == "" then ""
    else if path[0] != '{' then [path[0]] + Expand(path[1..], names)
    else
      match CloseAt(path)
      case None => path
      case Some(end) => Show(path[1..end], Final(path[1..end], names)) + Expand(path[end + 1..], names)
  }

  predicate MarkOk(m: Mark) { m.Slotted? ==> '}' !in m.name }

  lemma {:induction false} ScansOk(m: Mark, t: string, names: seq<string>)
    requires '}' !in t && MarkOk(m)
    ensures MarkOk(Scans(m, t, names))
    decreases |names|
  {
    if names != [] {
      NameHasNoBrace(t);
      if m.Slotted? { SeenHasNoBrace(m.name); }
      ScansOk(Scan(m, t, names[0]), t, names[1..]);
    }
  }

  lemma {:induction false} ScansNamed(m: Mark, t: string, names: seq<string>)
    ensures var n := Scans(m, t, names); n.Slotted? ==> n.name in names || n == m
    decreases |names|
  {
    if names != [] { ScansNamed(Scan(m, t, names[0]), t, names[1..]); }
  }

  lemma ListParts(a: seq<string>, b: seq<string>)
    requires a != []
    ensures a + b != [] && (a + b)[0] == a[0] && (a + b)[1..] == a[1..] + b
  {
  }

  lemma {:induction false} ScansStep(m: Mark, t: string, names: seq<string>)
    requires names != []
    ensures Scans(m, t, names) == Scans(Scan(m, t, names[0]), t, names[1..])
  {
  }

  lemma {:induction false} ScansAppend(m: Mark, t: string, a: seq<string>, b: seq<string>)
    ensures Scans(m, t, a + b) == Scans(Scans(m, t, a), t, b)
    decreases |a|
  {
    if a == [] {
      assert a + b == b;
    } else {
      ListParts(a, b);
      ScansStep(m, t, a + b);
      ScansStep(m, t, a);
      ScansAppend(Scan(m, t, a[0]), t, a[1..], b);
    }
  }

  lemma OneScan(m: Mark, t: string, name: string)
    ensures Scans(m, t, [name]) == Scan(m, t, name)
  {
    assert [name][1..] == [];
    assert Scans(Scan(m, t, name), t, []) == Scan(m, t, name);
  }

  lemma NoBars(name: string)
    ensures Used(name, 0) == Slot(name)
  {
    assert Bars(0) == "";
  }

  /** One scan over a token in whatever state. */
  lemma RewriteShown(t: string, m: Mark, rest: string, name: string)
    requires '}' !in t && MarkOk(m)
    ensures Rewrite(Show(t, m) + rest, name) == Show(t, Scan(m, t, name)) + Rewrite(rest, name)
  {
    match m
    case Raw =>
      TokenJoin(t, rest, "");
      RewriteToken(t, rest, name);
      NoBars(name);
    case Slotted(p, n) =>
      RewriteUsed(p, n, rest, name);
  }

  lemma ExpandToken(path: string, t: string, rest: string, names: seq<string>)
    requires SplitsAt(path, t, rest)
    ensures Expand(path, names) == Show(t, Final(t, names)) + Expand(rest, names)
  {
  }

  /** One more scan over a path. */
  lemma {:induction false} ScanExpanded(path: string, names: seq<string>, name: string)
    ensures Rewrite(Expand(path, names), name) == Expand(path, names + [name])
    decreases |path|
  {
    if path == "" {
    } else if path[0] != '{' {
      ScanExpanded(path[1..], names, name);
      RewriteChar(path[0], Expand(path[1..], names), name);
    } else if CloseAt(path).None? {
      RewriteUnclosed(path, name);
    } else {
      var t, rest := FirstToken(path);
      ScanExpanded(rest, names, name);
      ExpandToken(path, t, rest, names);
      ExpandToken(path, t, rest, names + [name]);
      ScansOk(Raw, t, names);
      RewriteShown(t, Final(t, names), Expand(rest, names), name);
      ScansAppend(Raw, t, names, [name]);
      OneScan(Final(t, names), t, name);
    }
  }

  lemma {:induction false} ExpandNone(path: string)
    ensures Expand(path, []) == path
    decreases |path|
  {
    if path != "" {
      if path[0] != '{' {
        ExpandNone(path[1..]);
      } else if CloseAt(path).Some? {
        var t, rest := FirstToken(path);
        ExpandNone(rest);
        ExpandToken(path, t, rest, []);
        TokenSplit(path, t, rest);
        TokenJoin(t, rest, "");
      }
    }
  }

  lemma ShiftList(done: seq<string>, names: seq<string>)
    requires names != []
    ensures done + [names[0]] + names[1..] == done + names
  {
  }

  lemma {:induction false} ScansExpanded(path: string, done: seq<string>, names: seq<string>)
    ensures RewriteAll(Expand(path, done), names) == Expand(path, done + names)
    decreases |names|
  {
    if names == [] {
      assert done + names == done;
    } else {
      ScanExpanded(path, done, names[0]);
      ScansExpanded(path, done + [names[0]], names[1..]);
      ShiftList(done, names);
    }
  }

  /** The scans treat every token of a path on its own: for any path and any list of
      names, whatever they repeat or turn into. */
  lemma RewriteIsExpand(path: string, names: seq<string>)
    ensures RewriteAll(path, names) == Expand(path, names)
  {
    ExpandNone(path);
    ScansExpanded(path, [], names);
    assert [] + names == names;
  }

  /* ---- When a token comes out as it should ---- */

  /** What is scanned for after the first scan for a name. */
  function AfterFirst(names: seq<string>, p: string): seq<string> {
    if names == [] then [] else if names[0] == p then names[1..] else AfterFirst(names[1..], p)
  }

  lemma {:induction false} StraysStay(m: Mark, t: string, names: seq<string>)
    requires m.Slotted? && m.strays > 0
    ensures Scans(m, t, names).Slotted? && Scans(m, t, names).strays > 0
    decreases |names|
  {
    if names != [] { StraysStay(Scan(m, t, names[0]), t, names[1..]); }
  }

  lemma {:induction false} SlotStaysIff(t: string, p: string, names: seq<string>)
    ensures Scans(Slotted(p, 0), t, names) == Slotted(p, 0) <==> Seen(p) !in names
    ensures Scans(Slotted(p, 0), t, names) != Slotted(p, 0) ==>
      Scans(Slotted(p, 0), t, names).Slotted? && Scans(Slotted(p, 0), t, names).strays > 0
    decreases |names|
  {
    if names != [] {
      if names[0] == Seen(p) {
        StraysStay(Slotted(names[0], 1), t, names[1..]);
      } else {
        SlotStaysIff(t, p, names[1..]);
      }
    }
  }

  /** A token is left alone if its name is not scanned for; else it becomes its own slot
      exactly when no later scan is for what that slot turns into, and otherwise it ends
      with stray braces. */
  lemma {:induction false} FinalIff(t: string, names: seq<string>)
    ensures var p := SlugParam(t);
      && (Final(t, names) == Raw <==> p !in names)
      && (p in names ==> (Final(t, names) == Slotted(p, 0) <==> Seen(p) !in AfterFirst(names, p)))
      && (p in names && Final(t, names) != Slotted(p, 0) ==> Final(t, names).Slotted? && Final(t, names).strays > 0)
    decreases |names|
  {
    if names != [] {
      var p := SlugParam(t);
      if names[0] == p {
        SlotStaysIff(t, p, names[1..]);
      } else {
        FinalIff(t, names[1..]);
      }
    }
  }

  lemma UsedParts(p: string, n: nat)
    ensures |Used(p, n)| == |p| + 4 + n && Used(p, n)[2..|p| + 2] == p
  {
    BarsLength(n);
    assert Slot(p)[2..|p| + 2] == p;
  }

  lemma CloseUsed(p: string, n: nat)
    requires '}' !in p
    ensures CloseAt(Used(p, n)) == Some(|p| + 2)
  {
    SlotSplit(p, n, "");
    CloseIs("{" + p, Bars(n + 1) + "");
    assert Used(p, n) + "" == Used(p, n);
  }

  /** Slots and their strays can be told apart. */
  lemma UsedApart(q: string, m: nat, p: string, n: nat)
    requires '}' !in q && '}' !in p && Used(q, m) == Used(p, n)
    ensures q == p && m == n
  {
    CloseUsed(q, m);
    CloseUsed(p, n);
    UsedParts(q, m);
    UsedParts(p, n);
  }

  predicate IsToken(t: string, name: string) { '}' !in t && SlugParam(t) == name }

  /** A name that some token of a path can have. */
  ghost predicate Formed(name: string) { exists t :: IsToken(t, name) }

  lemma RewriteAlone(t: string, names: seq<string>)
    requires '}' !in t
    ensures RewriteAll(Token(t), names) == Show(t, Final(t, names)) && MarkOk(Final(t, names))
  {
    RewriteIsExpand(Token(t), names);
    TokenJoin(t, "", "");
    assert Token(t) == "{" + (t + ("}" + ""));
    SplitsToken(t, "");
    ExpandToken(Token(t), t, "", names);
    assert Show(t, Final(t, names)) + "" == Show(t, Final(t, names));
    ScansOk(Raw, t, names);
  }

  /** All recognised tokens of a path replaced, each once. */
  function Once(path: string, names: seq<string>): string
    decreases |path|
  {
    if path == "" then ""
    else if path[0] != '{' then [path[0]] + Once(path[1..], names)
    else
      match CloseAt(path)
      case None => path
      case Some(end) =>
        var p := SlugParam(path[1..end]);
        (if p in names then Slot(p) else path[..end + 1]) + Once(path[end + 1..], names)
  }

  lemma OnceToken(path: string, t: string, rest: string, names: seq<string>)
    requires SplitsAt(path, t, rest)
    ensures Once(path, names) == (if SlugParam(t) in names then Slot(SlugParam(t)) else Token(t)) + Once(rest, names)
  {
    assert path[..|t| + 2] == Token(t);
  }

  /** No name of the list turns into one that is scanned for later. */
  ghost predicate Clear(names: seq<string>) {
    forall p :: p in names && Formed(p) ==> Seen(p) !in AfterFirst(names, p)
  }

  lemma ClearFinal(t: string, names: seq<string>)
    requires Clear(names) && '}' !in t
    ensures Show(t, Final(t, names)) == if SlugParam(t) in names then Slot(SlugParam(t)) else Token(t)
  {
    assert IsToken(t, SlugParam(t));
    FinalIff(t, names);
    NoBars(SlugParam(t));
  }

  lemma {:induction false} ExpandOnce(path: string, names: seq<string>)
    requires Clear(names)
    ensures Expand(path, names) == Once(path, names)
    decreases |path|
  {
    if path != "" {
      if path[0] != '{' {
        ExpandOnce(path[1..], names);
      } else if CloseAt(path).Some? {
        var t, rest := FirstToken(path);
        ExpandOnce(rest, names);
        ExpandToken(path, t, rest, names);
        OnceToken(path, t, rest, names);
        ClearFinal(t, names);
      }
    }
  }

  /** Importing rewrites every recognised token exactly once. */
  lemma ImportRewrites(path: string, names: seq<string>)
    requires Clear(names)
    ensures RewriteAll(path, names) == Once(path, names)
  {
    RewriteIsExpand(path, names);
    ExpandOnce(path, names);
  }

  lemma UnclearBreaks(t: string, names: seq<string>)
    requires '}' !in t && SlugParam(t) in names && Seen(SlugParam(t)) in AfterFirst(names, SlugParam(t))
    ensures RewriteAll(Token(t), names) != Once(Token(t), names)
  {
    var p := SlugParam(t);
    RewriteAlone(t, names);
    FinalIff(t, names);
    NameHasNoBrace(t);
    assert Token(t) == "{" + (t + ("}" + ""));
    SplitsToken(t, "");
    OnceToken(Token(t), t, "", names);
    assert Slot(p) + "" == Slot(p);
    NoBars(p);
    var m := Final(t, names);
    if Used(m.name, m.strays) == Used(p, 0) { UsedApart(m.name, m.strays, p, 0); }
  }

  /** The scans replace every recognised token of every path exactly once if and only
      if no name of the list turns into one that is scanned for later. */
  lemma ImportRewritesIff(names: seq<string>)
    ensures (forall path: string :: RewriteAll(path, names) == Once(path, names)) <==> Clear(names)
  {
    if Clear(names) {
      forall path: string ensures RewriteAll(path, names) == Once(path, names) {
        ImportRewrites(path, names);
      }
    } else {
      var p :| p in names && Formed(p) && Seen(p) in AfterFirst(names, p);
      var t :| IsToken(t, p);
      UnclearBreaks(t, names);
    }
  }

  /* ---- The order of the names ---- */

  predicate Distinct(names: seq<string>) {
    forall i, j :: 0 <= i < j < |names| ==> names[i] != names[j]
  }

  /** No name of the list turns into another one. */
  ghost predicate Apart(names: seq<string>) {
    forall p :: p in names && Formed(p) && Seen(p) in names ==> Again(p)
  }

  ghost predicate Reorders(names: seq<string>, other: seq<string>) {
    Distinct(names) && Distinct(other) && (forall p :: p in names <==> p in other)
  }

  lemma {:induction false} AfterFirstAt(names: seq<string>, i: nat)
    requires Distinct(names) && i < |names|
    ensures AfterFirst(names, names[i]) == names[i + 1..] && names[i] !in names[i + 1..]
  {
    if i > 0 {
      assert forall j :: 0 <= j < |names[1..]| ==> names[1..][j] == names[j + 1];
      AfterFirstAt(names[1..], i - 1);
      assert names[1..][i..] == names[i + 1..];
    }
  }

  lemma ApartIsClear(names: seq<string>, other: seq<string>)
    requires Reorders(names, other) && Apart(names)
    ensures Clear(other)
  {
    forall p | p in other && Formed(p) ensures Seen(p) !in AfterFirst(other, p) {
      var i :| 0 <= i < |other| && other[i] == p;
      AfterFirstAt(other, i);
      assert forall q :: q in other[i + 1..] ==> q in other;
    }
  }

  lemma {:induction false} OnceSame(path: string, names: seq<string>, other: seq<string>)
    requires forall p :: p in names <==> p in other
    ensures Once(path, names) == Once(path, other)
    decreases |path|
  {
    if path != "" {
      if path[0] != '{' {
        OnceSame(path[1..], names, other);
      } else if CloseAt(path).Some? {
        OnceSame(path[CloseAt(path).value + 1..], names, other);
      }
    }
  }

  lemma OrderIsIrrelevant(path: string, names: seq<string>, other: seq<string>)
    requires Reorders(names, other) && Apart(names)
    ensures RewriteAll(path, names) == RewriteAll(path, other)
  {
    ApartIsClear(names, other);
    ApartIsClear(names, names);
    ImportRewrites(path, names);
    ImportRewrites(path, other);
    OnceSame(path, names, other);
  }

  function Swapped(names: seq<string>, i: nat, j: nat): seq<string>
    requires i < |names| && j < |names|
  {
    names[i := names[j]][j := names[i]]
  }

  lemma SwappedReorders(names: seq<string>, i: nat, j: nat)
    requires Distinct(names) && i < |names| && j < |names|
    ensures Reorders(names, Swapped(names, i, j))
  {
    var other := Swapped(names, i, j);
    forall p | p in names ensures p in other {
      var k :| 0 <= k < |names| && names[k] == p;
      assert other[if k == i then j else if k == j then i else k] == p;
    }
  }

  /** Whether a name's own slot survives depends on where it stands in the list. */
  lemma SurvivesIff(t: string, names: seq<string>, i: nat, j: nat)
    requires Distinct(names) && i < |names| && j < |names| && IsToken(t, names[i]) && Seen(names[i]) == names[j]
    ensures RewriteAll(Token(t), names) == Used(names[i], 0) <==> j <= i
  {
    RewriteAlone(t, names);
    FinalIff(t, names);
    AfterFirstAt(names, i);
    NameHasNoBrace(t);
    if i < j { assert names[i + 1..][j - i - 1] == names[j]; }
    var m := Final(t, names);
    assert m.Slotted?;
    if Used(m.name, m.strays) == Used(names[i], 0) { UsedApart(m.name, m.strays, names[i], 0); }
  }

  lemma OrderCanMatter(names: seq<string>) returns (path: string, other: seq<string>)
    requires Distinct(names) && !Apart(names)
    ensures Reorders(names, other) && RewriteAll(path, names) != RewriteAll(path, other)
  {
    var p :| p in names && Formed(p) && Seen(p) in names && !Again(p);
    var i :| 0 <= i < |names| && names[i] == p;
    var j :| 0 <= j < |names| && names[j] == Seen(p);
    var t :| IsToken(t, p);
    path, other := Token(t), Swapped(names, i, j);
    SwappedReorders(names, i, j);
    SurvivesIff(t, names, i, j);
    SurvivesIff(t, other, j, i);
  }

  /** The order of the parameters is irrelevant on every path if and only if no name
      turns into another under a later scan. */
  lemma OrderIrrelevantIff(names: seq<string>)
    requires Distinct(names)
    ensures Apart(names) <==> forall path: string, other: seq<string> ::
      Reorders(names, other) ==> RewriteAll(path, names) == RewriteAll(path, other)
  {
    if Apart(names) {
      forall path: string, other: seq<string> | Reorders(names, other)
        ensures RewriteAll(path, names) == RewriteAll(path, other)
      {
        OrderIsIrrelevant(path, names, other);
      }
    } else {
      var path, other := OrderCanMatter(names);
    }
  }

  /** Names that slugging leaves alone turn into no other name, and a second scan
      matches each of them again. */
  lemma StableIsAgain(name: string)
    requires SlugShape(name) && name[|name| - 1] != '_'
    ensures Again(name)
  {
    SlugOfBraced(name);
    SlugTwice(name);
  }

  lemma CutSlug(name: string)
    requires SlugShape(name) && name[|name| - 1] != '_' && |name| == MAX_SLUG - 1
    ensures Slug(name + "_a") == name + "_" && SlugShape(name + "_") && '}' !in name + "_a"
  {
    var cut, t := name + "_", name + "_a";
    assert Tidy(t);
    SquashSame(t, false);
    assert TrimFront(t) == t && TrimBack(t) == t && Led(t) == t;
    assert t[..MAX_SLUG] == cut;
  }

  /** A slug that the length limit cut just after an underscore turns into the slug
      without it, so a document that declares both is sensitive to their order. */
  lemma CutNamesClash(name: string)
    requires SlugShape(name) && name[|name| - 1] != '_' && |name| == MAX_SLUG - 1
    ensures !Apart([name + "_", name])
  {
    var cut, t := name + "_", name + "_a";
    CutSlug(name);
    SlugOfBraced(cut);
    SlugTwice(cut);
    assert cut[..|cut| - 1] == name;
    assert IsToken(t, cut);
    assert cut in [cut, name] && Seen(cut) in [cut, name] && Seen(cut) != cut;
  }

  /* ---- Any number of scans ---- */

  function Passes(path: string, name: string, k: nat): string {
    if k == 0 then path else Rewrite(Passes(path, name, k - 1), name)
  }

  function Repeat(name: string, k: nat): seq<string> { if k == 0 then [] else Repeat(name, k - 1) + [name] }

  /** A token after k scans for one name. */
  function KthMark(t: string, name: string, k: nat): Mark
    requires k > 0
  {
    if SlugParam(t) == name then Slotted(name, if Again(name) then k - 1 else 0) else Raw
  }

  lemma {:induction false} RepeatFinal(t: string, name: string, k: nat)
    requires k > 0
    ensures Final(t, Repeat(name, k)) == KthMark(t, name, k)
  {
    ScansAppend(Raw, t, Repeat(name, k - 1), [name]);
    OneScan(Final(t, Repeat(name, k - 1)), t, name);
    if k > 1 { RepeatFinal(t, name, k - 1); }
  }

  /** After k scans for one parameter each of its tokens is the slot, followed by
      exactly k - 1 stray closing braces if a later scan matches the name again and by
      none if it does not; nothing else has changed. */
  lemma {:induction false} PassesLeaveStrays(path: string, name: string, k: nat)
    ensures Passes(path, name, k) == Expand(path, Repeat(name, k))
    ensures k > 0 ==> forall t :: Final(t, Repeat(name, k)) == KthMark(t, name, k)
  {
    if k == 0 {
      ExpandNone(path);
    } else {
      PassesLeaveStrays(path, name, k - 1);
      ScanExpanded(path, Repeat(name, k - 1), name);
      forall t ensures Final(t, Repeat(name, k)) == KthMark(t, name, k) {
        RepeatFinal(t, name, k);
      }
    }
  }

  /* ---- Texts that the scans leave alone ---- */

  /** How many tokens of the path name one of the parameters. */
  function Hits(path: string, names: seq<string>): nat
    decreases |path|
  {
    if path == "" then 0
    else if path[0] != '{' then Hits(path[1..], names)
    else
      match CloseAt(path)
      case None => 0
      case Some(end) => (if SlugParam(path[1..end]) in names then 1 else 0) + Hits(path[end + 1..], names)
  }

  lemma HitsToken(path: string, t: string, rest: string, names: seq<string>)
    requires SplitsAt(path, t, rest)
    ensures Hits(path, names) == (if SlugParam(t) in names then 1 else 0) + Hits(rest, names)
  {
  }

  lemma {:induction false} NoHits(path: string, names: seq<string>)
    requires Hits(path, names) == 0
    ensures Expand(path, names) == path
    decreases |path|
  {
    if path != "" {
      if path[0] != '{' {
        NoHits(path[1..], names);
      } else if CloseAt(path).Some? {
        var t, rest := FirstToken(path);
        HitsToken(path, t, rest, names);
        NoHits(rest, names);
        ExpandToken(path, t, rest, names);
        FinalIff(t, names);
        TokenSplit(path, t, rest);
        TokenJoin(t, rest, "");
      }
    }
  }

  lemma BarsOut(n: nat, s: string)
    ensures Bars(n) + ("}" + s) == "}" + (Bars(n) + s)
  {
    if n > 0 {
      BarsOut(n - 1, s);
      Assoc("}", Bars(n - 1), "}" + s);
      Assoc("}", Bars(n - 1), s);
    }
  }

  /** An expansion is never its own text shifted by braces. */
  lemma {:induction false} NoShift(r: string, n: nat, names: seq<string>)
    requires n > 0
    ensures Bars(n) + Expand(r, names) != r
    decreases |r|
  {
    var shifted := Bars(n) + Expand(r, names);
    assert Bars(n) == "}" + Bars(n - 1);
    assert shifted[0] == '}';
    if r != "" && r[0] == '}' {
      NoShift(r[1..], n, names);
      assert Expand(r, names) == "}" + Expand(r[1..], names);
      BarsOut(n, Expand(r[1..], names));
      assert shifted[1..] == Bars(n) + Expand(r[1..], names);
    }
  }

  lemma HitChanges(t: string, rest: string, p: string, n: nat, more: string)
    requires '}' !in t && '}' !in p && Bars(n + 1) + more != rest
    ensures Used(p, n) + more != "{" + (t + ("}" + rest))
  {
    var a, b := Used(p, n) + more, "{" + (t + ("}" + rest));
    SlotSplit(p, n, more);
    CloseIs("{" + p, Bars(n + 1) + more);
    CloseIs(t, rest);
    assert b[|t| + 2..] == rest;
    assert a[|p| + 3..] == Bars(n + 1) + more;
  }

  lemma SameFront(a: string, b: string, c: string)
    requires b != c
    ensures a + b != a + c
  {
    assert (a + b)[|a|..] == b && (a + c)[|a|..] == c;
  }

  lemma {:induction false} SomeHits(path: string, names: seq<string>)
    requires Hits(path, names) > 0
    ensures Expand(path, names) != path
    decreases |path|
  {
    if path[0] != '{' {
      SomeHits(path[1..], names);
      assert Expand(path, names)[1..] == Expand(path[1..], names);
    } else {
      var t, rest := FirstToken(path);
      HitsToken(path, t, rest, names);
      ExpandToken(path, t, rest, names);
      TokenSplit(path, t, rest);
      FinalIff(t, names);
      ScansOk(Raw, t, names);
      if SlugParam(t) in names {
        var m := Final(t, names);
        NoShift(rest, m.strays + 1, names);
        HitChanges(t, rest, m.name, m.strays, Expand(rest, names));
      } else {
        SomeHits(rest, names);
        TokenJoin(t, rest, "");
        SameFront(Token(t), Expand(rest, names), rest);
      }
    }
  }

  /** The scans leave a text as it is exactly when it holds no recognised token. */
  lemma ScanKeepsIff(s: string, names: seq<string>)
    ensures RewriteAll(s, names) == s <==> Hits(s, names) == 0
  {
    RewriteIsExpand(s, names);
    if Hits(s, names) == 0 { NoHits(s, names); } else { SomeHits(s, names); }
  }

  /* ---- Building an imported endpoint ---- */

  /** Every opening brace is closed. */
  predicate Closed(s: string)
    decreases |s|
  {
    if s == "" then true
    else if s[0] != '{' then Closed(s[1..])
    else match CloseAt(s) case None => false case Some(end) => Closed(s[end + 1..])
  }

  /** A closed text and what follows it are expanded one after the other. */
  lemma {:induction false} ExpandJoin(base: string, y: string, names: seq<string>)
    requires Closed(base)
    ensures Expand(base + y, names) == Expand(base, names) + Expand(y, names)
    decreases |base|
  {
    if base == "" {
      assert base + y == y;
    } else if base[0] != '{' {
      var c, rest := base[0], base[1..];
      ExpandJoin(rest, y, names);
      assert (base + y)[1..] == rest + y;
      Assoc([c], Expand(rest, names), Expand(y, names));
    } else {
      var t, rest := FirstToken(base);
      TokenSplit(base, t, rest);
      TokenJoin(t, rest, y);
      ExpandJoin(rest, y, names);
      SplitsToken(t, rest + y);
      ExpandToken(base + y, t, rest + y, names);
      ExpandToken(base, t, rest, names);
      Assoc(Show(t, Final(t, names)), Expand(rest, names), Expand(y, names));
    }
  }

  lemma {:induction false} ClosedBars(n: nat, rest: string)
    ensures Closed(Bars(n) + rest) == Closed(rest)
  {
    if n == 0 {
      assert Bars(n) + rest == rest;
    } else {
      ClosedBars(n - 1, rest);
      assert (Bars(n) + rest)[1..] == Bars(n - 1) + rest;
    }
  }

  lemma ClosedToken(t: string, rest: string)
    requires '}' !in t
    ensures Closed("{" + (t + ("}" + rest))) == Closed(rest)
  {
    CloseIs(t, rest);
    assert ("{" + (t + ("}" + rest)))[|t| + 2..] == rest;
  }

  lemma ClosedShown(t: string, m: Mark, rest: string)
    requires '}' !in t && MarkOk(m)
    ensures Closed(Show(t, m) + rest) == Closed(rest)
  {
    match m
    case Raw =>
      TokenJoin(t, rest, "");
      ClosedToken(t, rest);
    case Slotted(p, n) =>
      SlotSplit(p, n, rest);
      ClosedToken("{" + p, Bars(n + 1) + rest);
      ClosedBars(n + 1, rest);
  }

  lemma {:induction false} ClosedExpand(base: string, names: seq<string>)
    requires Closed(base)
    ensures Closed(Expand(base, names))
    decreases |base|
  {
    if base != "" {
      if base[0] != '{' {
        ClosedExpand(base[1..], names);
        assert Expand(base, names)[1..] == Expand(base[1..], names);
      } else {
        var t, rest := FirstToken(base);
        ClosedExpand(rest, names);
        ExpandToken(base, t, rest, names);
        ScansOk(Raw, t, names);
        ClosedShown(t, Final(t, names), Expand(rest, names));
      }
    }
  }

  lemma ScanOneAll(s: string, name: string)
    ensures Rewrite(s, name) == Expand(s, [name])
  {
    ExpandNone(s);
    ScanExpanded(s, [], name);
    assert [] + [name] == [name];
  }

  lemma RewriteStep(base: string, y: string, done: seq<string>, before: seq<string>, name: string)
    requires Closed(base)
    ensures Rewrite(Expand(base, done) + Expand(y, before), name)
      == Expand(base, done + [name]) + Expand(y, before + [name])
  {
    ClosedExpand(base, done);
    ScanOneAll(Expand(base, done) + Expand(y, before), name);
    ExpandJoin(Expand(base, done), Expand(y, before), [name]);
    ScanOneAll(Expand(base, done), name);
    ScanOneAll(Expand(y, before), name);
    ScanExpanded(base, done, name);
    ScanExpanded(y, before, name);
  }

  lemma {:induction false} RewriteJoin(base: string, y: string, done: seq<string>, before: seq<string>,
                                       names: seq<string>)
    requires Closed(base)
    ensures RewriteAll(Expand(base, done) + Expand(y, before), names)
      == Expand(base, done + names) + Expand(y, before + names)
    decreases |names|
  {
    if names == [] {
      assert done + names == done && before + names == before;
    } else {
      RewriteStep(base, y, done, before, names[0]);
      RewriteJoin(base, y, done + [names[0]], before + [names[0]], names[1..]);
      ShiftList(done, names);
      ShiftList(before, names);
    }
  }

  /** Building an imported endpoint scans the base URL once and the path twice. */
  lemma BuildRewritesAgain(base: string, path: string, names: seq<string>)
    requires Closed(base)
    ensures RewriteAll(base + RewriteAll(path, names), names) == Expand(base, names) + Expand(path, names + names)
  {
    RewriteIsExpand(path, names);
    ExpandNone(base);
    RewriteJoin(base, path, [], names, names);
    assert [] + names == names;
  }

  lemma {:induction false} AfterFirstAppend(a: seq<string>, b: seq<string>, p: string)
    requires p in a
    ensures AfterFirst(a + b, p) == AfterFirst(a, p) + b
    decreases |a|
  {
    assert (a + b)[1..] == a[1..] + b;
    if a[0] != p { AfterFirstAppend(a[1..], b, p); }
  }

  lemma {:induction false} AfterFirstIn(names: seq<string>, p: string, q: string)
    requires q in AfterFirst(names, p)
    ensures q in names
  {
    if names[0] != p { AfterFirstIn(names[1..], p, q); }
  }

  lemma AfterFirstBoth(names: seq<string>, p: string, q: string)
    requires p in names
    ensures q in AfterFirst(names + names, p) <==> q in names
  {
    AfterFirstAppend(names, names, p);
    if q in AfterFirst(names, p) { AfterFirstIn(names, p, q); }
  }

  /** What the second scan of a path does to its tokens: a recognised one comes out as
      its own slot exactly when its slot does not turn into a name of the list, and with
      stray braces otherwise. */
  lemma TwiceIff(t: string, names: seq<string>)
    requires SlugParam(t) in names
    ensures var p := SlugParam(t); var m := Final(t, names + names);
      && m.Slotted? && (m == Slotted(p, 0) <==> Seen(p) !in names) && (m != Slotted(p, 0) ==> m.strays > 0)
  {
    var p := SlugParam(t);
    FinalIff(t, names + names);
    AfterFirstBoth(names, p, Seen(p));
  }

  /** How many recognised tokens of the path are matched again once replaced. */
  function Rematched(path: string, names: seq<string>): nat
    decreases |path|
  {
    if path == "" then 0
    else if path[0] != '{' then Rematched(path[1..], names)
    else
      match CloseAt(path)
      case None => 0
      case Some(end) =>
        var m := Final(path[1..end], names);
        (if m.Slotted? && Seen(m.name) in names then 1 else 0) + Rematched(path[end + 1..], names)
  }

  lemma RematchedToken(path: string, t: string, rest: string, names: seq<string>)
    requires SplitsAt(path, t, rest)
    ensures var m := Final(t, names);
      Rematched(path, names) == (if m.Slotted? && Seen(m.name) in names then 1 else 0) + Rematched(rest, names)
  {
  }

  lemma {:induction false} HitsChar(c: char, rest: string, names: seq<string>)
    requires c != '{'
    ensures Hits([c] + rest, names) == Hits(rest, names)
  {
    assert ([c] + rest)[1..] == rest;
  }

  lemma HitsOfToken(t: string, rest: string, names: seq<string>)
    requires '}' !in t
    ensures Hits("{" + (t + ("}" + rest)), names) == (if SlugParam(t) in names then 1 else 0) + Hits(rest, names)
  {
    var s := "{" + (t + ("}" + rest));
    CloseIs(t, rest);
    assert s[1..|t| + 1] == t && s[|t| + 2..] == rest;
  }

  lemma {:induction false} HitsBars(n: nat, rest: string, names: seq<string>)
    ensures Hits(Bars(n) + rest, names) == Hits(rest, names)
  {
    if n == 0 {
      assert Bars(n) + rest == rest;
    } else {
      HitsBars(n - 1, rest, names);
      assert (Bars(n) + rest)[1..] == Bars(n - 1) + rest;
    }
  }

  /** The name a further scan sees in a token. */
  function NextName(t: string, m: Mark): string { if m.Raw? then SlugParam(t) else Seen(m.name) }

  lemma HitsUsed(p: string, n: nat, rest: string, names: seq<string>)
    requires '}' !in p
    ensures Hits(Used(p, n) + rest, names) == (if Seen(p) in names then 1 else 0) + Hits(rest, names)
  {
    SlotSplit(p, n, rest);
    HitsOfToken("{" + p, Bars(n + 1) + rest, names);
    HitsBars(n + 1, rest, names);
  }

  lemma HitsShown(t: string, m: Mark, rest: string, names: seq<string>)
    requires '}' !in t && MarkOk(m)
    ensures Hits(Show(t, m) + rest, names) == (if NextName(t, m) in names then 1 else 0) + Hits(rest, names)
  {
    if m.Raw? {
      TokenJoin(t, rest, "");
      HitsOfToken(t, rest, names);
    } else {
      HitsUsed(m.name, m.strays, rest, names);
    }
  }

  lemma {:induction false} HitsJoin(base: string, y: string, names: seq<string>)
    requires Closed(base)
    ensures Hits(base + y, names) == Hits(base, names) + Hits(y, names)
    decreases |base|
  {
    if base == "" {
      assert base + y == y;
    } else if base[0] != '{' {
      HitsJoin(base[1..], y, names);
      assert (base + y)[1..] == base[1..] + y;
    } else {
      var t, rest := FirstToken(base);
      TokenSplit(base, t, rest);
      TokenJoin(t, rest, y);
      HitsJoin(rest, y, names);
      HitsOfToken(t, rest + y, names);
      HitsOfToken(t, rest, names);
    }
  }

  lemma {:induction false} HitsOfImport(path: string, names: seq<string>)
    ensures Hits(Expand(path, names), names) == Rematched(path, names)
    decreases |path|
  {
    if path == "" {
    } else if path[0] != '{' {
      HitsOfImport(path[1..], names);
      HitsChar(path[0], Expand(path[1..], names), names);
    } else if CloseAt(path).Some? {
      var t, rest := FirstToken(path);
      HitsOfImport(rest, names);
      RematchedToken(path, t, rest, names);
      ExpandToken(path, t, rest, names);
      FinalIff(t, names);
      ScansOk(Raw, t, names);
      HitsShown(t, Final(t, names), Expand(rest, names), names);
    }
  }

  /** Building keeps what the import wrote exactly when the joined URL holds no recognised
      token. With a closed base URL those are its own tokens and the tokens of the path
      whose names are matched again once replaced. */
  lemma BuildKeepsImportIff(base: string, path: string, names: seq<string>)
    ensures var url := base + RewriteAll(path, names);
      && (RewriteAll(url, names) == url <==> Hits(url, names) == 0)
      && (Closed(base) ==> Hits(url, names) == Hits(base, names) + Rematched(path, names))
  {
    RewriteIsExpand(path, names);
    ScanKeepsIff(base + RewriteAll(path, names), names);
    if Closed(base) { HitsJoin(base, RewriteAll(path, names), names); }
    HitsOfImport(path, names);
  }

  /* ---- The parameters of an operation ---- */

  /** A parameter by its slug and its location. */
  datatype Param = Param(name: string, location: string)

  predicate Named(ps: seq<Param>, name: string) { exists i :: 0 <= i < |ps| && ps[i].name == name }

  /** The first parameter of each non-empty name. */
  function Kept(ps: seq<Param>): seq<Param> {
    if ps == [] then []
    else
      var before, p := Kept(ps[..|ps| - 1]), ps[|ps| - 1];
      if p.name == "" || Named(before, p.name) then before else before + [p]
  }

  method CollectParams(ps: seq<Param>) returns (out: seq<Param>)
    ensures out == Kept(ps)
  {
    out := [];
    var seen: set<string> := {};
    for i := 0 to |ps|
      invariant out == Kept(ps[..i]) && forall name :: name in seen <==> Named(out, name)
    {
      assert ps[..i + 1][..i] == ps[..i];
      var p := ps[i];
      if p.name == "" || p.name in seen { continue; }
      seen := seen + {p.name};
      ghost var before := out;
      out := out + [p];
      forall name ensures Named(out, name) <==> Named(before, name) || name == p.name {
        NamedAppend(before, p, name);
      }
    }
    assert ps[..|ps|] == ps;
  }

  lemma NamedAppend(ps: seq<Param>, p: Param, name: string)
    ensures Named(ps + [p], name) <==> Named(ps, name) || p.name == name
  {
    if Named(ps, name) {
      var i :| 0 <= i < |ps| && ps[i].name == name;
      assert (ps + [p])[i].name == name;
    }
    assert (ps + [p])[|ps|] == p;
  }

  /** The names `rewriteURLPlaceholders` scans for. */
  function PathNames(ps: seq<Param>): seq<string> {
    if ps == [] then []
    else PathNames(ps[..|ps| - 1]) + (if ps[|ps| - 1].location == "path" then [ps[|ps| - 1].name] else [])
  }

  lemma {:induction false} PathNamesNamed(ps: seq<Param>, name: string)
    requires name in PathNames(ps)
    ensures Named(ps, name)
  {
    var n := |ps| - 1;
    if name in PathNames(ps[..n]) {
      PathNamesNamed(ps[..n], name);
      var i :| 0 <= i < |ps[..n]| && ps[..n][i].name == name;
      assert ps[i].name == name;
    } else {
      assert ps[n].name == name;
    }
  }

  /** No name is scanned for twice in one pass, whatever the document declares. */
  lemma {:induction false} PathNamesDistinct(ps: seq<Param>)
    ensures Distinct(PathNames(Kept(ps)))
  {
    if ps != [] {
      var n := |ps| - 1;
      var before, p := Kept(ps[..n]), ps[n];
      PathNamesDistinct(ps[..n]);
      if p.name != "" && !Named(before, p.name) {
        assert (before + [p])[..|before|] == before;
        if p.name in PathNames(before) { PathNamesNamed(before, p.name); }
        AppendDistinct(PathNames(before), p.name);
      }
    }
  }

  lemma AppendDistinct(names: seq<string>, name: string)
    requires Distinct(names) && name !in names
    ensures Distinct(names + [name]) && Distinct(names + [])
  {
    assert names + [] == names;
  }
}
