/** The query string and the body of a tool call, from
    `internal/addon/executor.go`: which argument goes where, and what the server
    reads back. */
module AddonQuery {
  import opened Text
  import opened AddonRequest

  /** A query parameter of the tool: its key and its value template. */
  datatype QueryDef = QueryDef(key: seq<Byte>, template: seq<Byte>)

  /* ---- Escaping ---- */

  function EscapeByte(c: Byte): (s: string)
    ensures |s| > 0 && '&' !in s && '=' !in s && '#' !in s && '?' !in s
  {
    if Unreserved(c) then [c] else if c == ' ' then "+" else Percent(c)
  }

  function QueryEscape(s: seq<Byte>): (r: string)
    ensures '&' !in r && '=' !in r && '#' !in r && '?' !in r
  {
    if s == [] then "" else EscapeByte(s[0]) + QueryEscape(s[1..])
  }

  /** A reader's inverse; `None` for a malformed escape. */
  function Unescape(s: string): Option<string>
    decreases |s|
  {
    if s == "" then Some("")
    else if s[0] == '+' then Both(Some(" "), Unescape(s[1..]))
    else if s[0] != '%' then Both(Some([s[0]]), Unescape(s[1..]))
    else if |s| < 3 || HexValue(s[1]).None? || HexValue(s[2]).None? then None
    else Both(Some([(HexValue(s[1]).value * 16 + HexValue(s[2]).value) as char]), Unescape(s[3..]))
  }

  lemma HexRoundTrip(d: nat)
    requires d < 16
    ensures HexValue(HexDigit(d)) == Some(d)
  {
  }

  lemma UnescapeByte(c: Byte, rest: string)
    ensures Unescape(EscapeByte(c) + rest) == Both(Some([c]), Unescape(rest))
  {
    var e := EscapeByte(c);
    assert (e + rest)[|e|..] == rest;
    if !Unreserved(c) && c != ' ' {
      HexRoundTrip(c as int / 16);
      HexRoundTrip(c as int % 16);
      assert (e + rest)[1] == e[1] && (e + rest)[2] == e[2];
    }
  }

  lemma {:induction false} EscapeRoundTrip(s: seq<Byte>)
    ensures Unescape(QueryEscape(s)) == Some(s)
  {
    if s != [] {
      EscapeRoundTrip(s[1..]);
      UnescapeByte(s[0], QueryEscape(s[1..]));
      assert [s[0]] + s[1..] == s;
    }
  }

  /* ---- The query string ---- */

  datatype Pair = Pair(key: seq<Byte>, value: seq<Byte>)

  function Part(p: Pair): string { QueryEscape(p.key) + ("=" + QueryEscape(p.value)) }

  function Encode(ps: seq<Pair>): string {
    if ps == [] then "" else if |ps| == 1 then Part(ps[0]) else Part(ps[0]) + ("&" + Encode(ps[1..]))
  }

  /** The length of the text before the first `c`. */
  function Until(s: string, c: char): (n: nat)
    ensures n <= |s| && c !in s[..n] && (n < |s| ==> s[n] == c)
  {
    if s == "" || s[0] == c then 0
    else
      var n := Until(s[1..], c);
      assert s[..n + 1] == [s[0]] + s[1..][..n];
      n + 1
  }

  function ReadSegment(s: string): (Option<string>, Option<string>) {
    var k := Until(s, '=');
    (Unescape(s[..k]), Unescape(if k < |s| then s[k + 1..] else ""))
  }

  /** What a server reads: the non-empty segments between ampersands, each split at
      its first equals sign. */
  function Parse(s: string): seq<(Option<string>, Option<string>)>
    decreases |s|
  {
    if s == "" then []
    else
      var n := Until(s, '&');
      (if n == 0 then [] else [ReadSegment(s[..n])]) + (if n < |s| then Parse(s[n + 1..]) else [])
  }

  lemma {:induction false} UntilIs(a: string, c: char, rest: string)
    requires c !in a && (rest == "" || rest[0] == c)
    ensures Until(a + rest, c) == |a|
  {
    if a == "" {
      assert a + rest == rest;
    } else {
      UntilIs(a[1..], c, rest);
      assert (a + rest)[1..] == a[1..] + rest;
    }
  }

  lemma ReadPart(p: Pair)
    ensures ReadSegment(Part(p)) == (Some(p.key), Some(p.value))
  {
    var key, value := QueryEscape(p.key), QueryEscape(p.value);
    UntilIs(key, '=', "=" + value);
    assert Part(p)[..|key|] == key && Part(p)[|key| + 1..] == value;
    EscapeRoundTrip(p.key);
    EscapeRoundTrip(p.value);
  }

  lemma ParseLast(part: string)
    requires part != "" && '&' !in part
    ensures Parse(part) == [ReadSegment(part)]
  {
    UntilIs(part, '&', "");
    assert part + "" == part && part[..|part|] == part;
  }

  lemma ParseMore(part: string, more: string)
    requires '&' !in part
    ensures Parse(part + ("&" + more)) == (if part == "" then [] else [ReadSegment(part)]) + Parse(more)
  {
    var s := part + ("&" + more);
    UntilIs(part, '&', "&" + more);
    assert s != "" && |part| < |s|;
    assert s[..|part|] == part;
    assert s[|part| + 1..] == more;
  }

  function Read(ps: seq<Pair>): seq<(Option<string>, Option<string>)> {
    if ps == [] then [] else [(Some(ps[0].key), Some(ps[0].value))] + Read(ps[1..])
  }

  /** Whatever the keys and values hold, and in whatever order they are written,
      the server reads back exactly the pairs that were sent. */
  lemma {:induction false} QueryRoundTrip(ps: seq<Pair>)
    ensures Parse(Encode(ps)) == Read(ps)
  {
    if |ps| == 1 {
      ReadPart(ps[0]);
      ParseLast(Part(ps[0]));
      assert ps[1..] == [];
    } else if |ps| > 1 {
      QueryRoundTrip(ps[1..]);
      ReadPart(ps[0]);
      ParseMore(Part(ps[0]), Encode(ps[1..]));
    }
  }

  /** Two queries joined by an ampersand are read one after the other. */
  lemma {:induction false} ParseJoin(a: string, b: string)
    ensures Parse(a + ("&" + b)) == Parse(a) + Parse(b)
    decreases |a|
  {
    var n := Until(a, '&');
    if n == |a| {
      assert a[..n] == a;
      ParseMore(a, b);
      if a == "" { assert Parse(a) + Parse(b) == Parse(b); } else { ParseLast(a); }
    } else {
      var head, rest := a[..n], a[n + 1..];
      assert a == head + ("&" + rest);
      assert a + ("&" + b) == head + ("&" + (rest + ("&" + b)));
      ParseMore(head, rest);
      ParseMore(head, rest + ("&" + b));
      ParseJoin(rest, b);
      SeqAssoc(if head == "" then [] else [ReadSegment(head)], Parse(rest), Parse(b));
    }
  }

  lemma SeqAssoc<T>(a: seq<T>, b: seq<T>, c: seq<T>)
    ensures (a + b) + c == a + (b + c)
  {
  }

  /* ---- Routing ---- */

  /** A value template with its placeholders filled in, missing ones left empty. */
  function Resolve(t: seq<Byte>, args: Args): seq<Byte>
    decreases |t|
  {
    if t == [] then []
    else
      match Placeholder(t)
      case Some(name) => (if name in args then args[name] else []) + Resolve(t[|name| + 4..], args)
      case None => [t[0]] + Resolve(t[1..], args)
  }

  /** The names a template mentions. */
  function Names(t: string): set<string>
    decreases |t|
  {
    if t == "" then {}
    else
      match Placeholder(t)
      case Some(name) => {name} + Names(t[|name| + 4..])
      case None => Names(t[1..])
  }

  function Pairs(defs: seq<QueryDef>, args: Args): seq<Pair> {
    if defs == [] then []
    else
      var d := defs[|defs| - 1];
      var value := Resolve(d.template, args);
      Pairs(defs[..|defs| - 1], args) + (if value == [] then [] else [Pair(d.key, value)])
  }

  function NamesAll(defs: seq<QueryDef>): set<string> {
    if defs == [] then {} else NamesAll(defs[..|defs| - 1]) + Names(defs[|defs| - 1].template)
  }

  /** `strings.Join(parts, "&")`. */
  function Glue(parts: seq<string>): string {
    if parts == [] then "" else if |parts| == 1 then parts[0] else parts[0] + ("&" + Glue(parts[1..]))
  }

  function Parts(ps: seq<Pair>): (r: seq<string>)
    ensures |r| == |ps|
  {
    if ps == [] then [] else [Part(ps[0])] + Parts(ps[1..])
  }

  lemma {:induction false} PartsAppend(ps: seq<Pair>, p: Pair)
    ensures Parts(ps + [p]) == Parts(ps) + [Part(p)]
  {
    if ps == [] {
      assert ps + [p] == [p];
      assert [p][1..] == [];
    } else {
      PartsAppend(ps[1..], p);
      assert (ps + [p])[1..] == ps[1..] + [p];
    }
  }

  lemma {:induction false} GlueParts(ps: seq<Pair>)
    ensures Glue(Parts(ps)) == Encode(ps)
  {
    if |ps| > 1 {
      GlueParts(ps[1..]);
      assert Parts(ps)[1..] == Parts(ps[1..]);
    }
  }

  /** `appendQueryParams`, for any order in which the map of definitions is walked:
      the URL grows by exactly the encoding of the non-empty parameters, and the
      arguments any template mentions are consumed. */
  method AppendQueryParams(url: string, defs: seq<QueryDef>, args: Args, used: set<string>)
    returns (out: string, consumed: set<string>)
    ensures out == FullUrl(url, Pairs(defs, args))
    ensures consumed == used + NamesAll(defs) * args.Keys
  {
    var parts: seq<string> := [];
    consumed := used;
    for i := 0 to |defs|
      invariant parts == Parts(Pairs(defs[..i], args))
      invariant consumed == used + NamesAll(defs[..i]) * args.Keys
    {
      assert defs[..i + 1][..i] == defs[..i];
      var d := defs[i];
      var value := Resolve(d.template, args);
      consumed := consumed + Names(d.template) * args.Keys;
      if value != [] {
        PartsAppend(Pairs(defs[..i], args), Pair(d.key, value));
        parts := parts + [QueryEscape(d.key) + ("=" + QueryEscape(value))];
      } else {
        assert Pairs(defs[..i], args) + [] == Pairs(defs[..i], args);
      }
    }
    assert defs[..|defs|] == defs;
    if parts == [] { return url, consumed; }
    GlueParts(Pairs(defs, args));
    out := url + ((if '?' in url then "&" else "?") + Glue(parts));
  }

  /* ---- What the server sees of it ---- */

  /** The URL with its query appended, as `AppendQueryParams` builds it. */
  function FullUrl(url: string, ps: seq<Pair>): string {
    if ps == [] then url else url + ((if '?' in url then "&" else "?") + Encode(ps))
  }

  /** The query of a URL, by section 3 of RFC 3986: from the first question mark up to
      the first hash. */
  function QueryOf(u: string): string {
    var bare := u[..Until(u, '#')];
    var k := Until(bare, '?');
    if k < |bare| then bare[k + 1..] else ""
  }

  lemma {:induction false} EncodePlain(ps: seq<Pair>)
    ensures '#' !in Encode(ps) && '?' !in Encode(ps)
  {
    if |ps| > 1 { EncodePlain(ps[1..]); }
  }

  lemma {:induction false} UntilAll(s: string, c: char)
    requires c !in s
    ensures Until(s, c) == |s|
  {
    if s != "" { UntilAll(s[1..], c); }
  }

  lemma {:induction false} UntilInside(a: string, b: string, c: char)
    requires c in a
    ensures Until(a + b, c) == Until(a, c) < |a|
  {
    if a[0] != c {
      UntilInside(a[1..], b, c);
      assert (a + b)[1..] == a[1..] + b;
    }
  }

  lemma QueryOfPlain(u: string)
    requires '#' !in u
    ensures QueryOf(u) == var k := Until(u, '?'); if k < |u| then u[k + 1..] else ""
  {
    UntilAll(u, '#');
    assert u[..|u|] == u;
  }

  /** A URL that has no query yet. */
  lemma FreshQuery(url: string, e: string)
    requires '#' !in url && '#' !in e && '?' !in url
    ensures QueryOf(url + ("?" + e)) == e && QueryOf(url) == ""
  {
    var u := url + ("?" + e);
    QueryOfPlain(u);
    QueryOfPlain(url);
    UntilIs(url, '?', "?" + e);
    UntilAll(url, '?');
    assert u[|url| + 1..] == e;
  }

  lemma TailAfter(a: string, b: string, k: nat)
    requires k < |a|
    ensures (a + b)[k + 1..] == a[k + 1..] + b
  {
  }

  /** A URL that has one already. */
  lemma LongerQuery(url: string, more: string)
    requires '#' !in url && '#' !in more && '?' in url
    ensures QueryOf(url + more) == QueryOf(url) + more
  {
    assert '#' !in url + more;
    QueryOfPlain(url + more);
    QueryOfPlain(url);
    UntilInside(url, more, '?');
    TailAfter(url, more, Until(url, '?'));
  }

  /** For a URL without a fragment the server reads what the URL said before and then
      exactly the pairs that were sent, whatever bytes they hold. */
  lemma QueryArrives(url: string, ps: seq<Pair>)
    requires '#' !in url
    ensures Parse(QueryOf(FullUrl(url, ps))) == Parse(QueryOf(url)) + Read(ps)
  {
    if ps == [] {
      assert Parse(QueryOf(url)) + Read([]) == Parse(QueryOf(url));
    } else {
      EncodePlain(ps);
      QueryRoundTrip(ps);
      if '?' in url {
        LongerQuery(url, "&" + Encode(ps));
        ParseJoin(QueryOf(url), Encode(ps));
      } else {
        FreshQuery(url, Encode(ps));
        assert Parse(QueryOf(url)) + Read(ps) == Read(ps);
      }
    }
  }

  /** With a fragment in the URL the pairs land behind the hash and are never sent. */
  lemma FragmentSwallows(url: string, ps: seq<Pair>)
    requires '#' in url
    ensures QueryOf(FullUrl(url, ps)) == QueryOf(url)
  {
    if ps != [] {
      var tail := (if '?' in url then "&" else "?") + Encode(ps);
      UntilInside(url, tail, '#');
      assert (url + tail)[..Until(url, '#')] == url[..Until(url, '#')];
    }
  }

  lemma {:induction false} ReadLength(ps: seq<Pair>)
    ensures |Read(ps)| == |ps|
  {
    if ps != [] { ReadLength(ps[1..]); }
  }

  /** The pairs arrive exactly when there are none or the URL has no fragment. */
  lemma QueryArrivesIff(url: string, defs: seq<QueryDef>, args: Args)
    ensures var ps := Pairs(defs, args);
      Parse(QueryOf(FullUrl(url, ps))) == Parse(QueryOf(url)) + Read(ps) <==> ps == [] || '#' !in url
  {
    var ps := Pairs(defs, args);
    ReadLength(ps);
    if '#' in url {
      FragmentSwallows(url, ps);
      assert |Parse(QueryOf(url)) + Read(ps)| == |Parse(QueryOf(url))| + |ps|;
      if ps == [] { assert Parse(QueryOf(url)) + [] == Parse(QueryOf(url)); }
    } else {
      QueryArrives(url, ps);
    }
  }

  lemma {:induction false} PairsAppend(a: seq<QueryDef>, b: seq<QueryDef>, args: Args)
    ensures Pairs(a + b, args) == Pairs(a, args) + Pairs(b, args)
    decreases |b|
  {
    if b == [] {
      assert a + b == a;
    } else {
      var n := |b| - 1;
      PairsAppend(a, b[..n], args);
      assert (a + b)[..|a + b| - 1] == a + b[..n] && (a + b)[|a + b| - 1] == b[n];
    }
  }

  /** The order in which the map of definitions is walked only reorders the pairs. */
  lemma {:induction false} PairsPermuted(a: seq<QueryDef>, b: seq<QueryDef>, args: Args)
    requires multiset(a) == multiset(b)
    ensures multiset(Pairs(a, args)) == multiset(Pairs(b, args))
    decreases |a|
  {
    if a == [] {
      assert |multiset(b)| == 0;
    } else {
      var k := Find(a, b);
      SplitAt(a, b, k);
      PairsPermuted(a[1..], b[..k] + b[k + 1..], args);
      PairsAppend([a[0]], a[1..], args);
      PairsAppend(b[..k], b[k + 1..], args);
      PairsAppend(b[..k], [b[k]] + b[k + 1..], args);
      PairsAppend([b[k]], b[k + 1..], args);
      assert a == [a[0]] + a[1..];
    }
  }

  /* ---- Body and request ---- */

  /** `buildBody`: what no placeholder consumed. */
  method BuildBody(args: Args, consumed: set<string>) returns (body: Args)
    ensures body.Keys == args.Keys - consumed
    ensures forall k :: k in body ==> body[k] == args[k]
  {
    body := map[];
    var left := args.Keys;
    while left != {}
      invariant left <= args.Keys && body.Keys == (args.Keys - left) - consumed
      invariant forall k :: k in body ==> body[k] == args[k]
      decreases left
    {
      var k :| k in left;
      left := left - {k};
      if k !in consumed { body := body[k := args[k]]; }
    }
  }

  function Upper(c: char): char {
    if 'a' <= c <= 'z' then (c as int - 32) as char else if c == '\U{017F}' then 'S' else c
  }

  function UpperAll(s: string): string { if s == "" then "" else [Upper(s[0])] + UpperAll(s[1..]) }

  predicate MethodHasBody(verb: string) { verb == "POST" || verb == "PUT" || verb == "PATCH" }

  /** Whether a tool's calls carry a body at all. */
  predicate CarriesBody(verb: string, mapping: string) { MethodHasBody(UpperAll(verb)) && mapping != "none" }

  datatype Tool = Tool(verb: string, template: string, defs: seq<QueryDef>, mapping: string)

  /** What goes out; no body if the tool has none to send. */
  datatype Request = Request(url: string, body: Option<Args>)

  /** Every argument of a call goes where its name says: if the tool carries a body, an
      argument is in it exactly when no placeholder of the URL or of a query template
      names it, and there is no body when none is left; otherwise there never is one. */
  method RouteArguments(tool: Tool, args: Args) returns (r: Option<Request>)
    ensures r.None? <==> Substitute(tool.template, args).None?
    ensures r.Some? ==> r.value.url == FullUrl(Substitute(tool.template, args).value, Pairs(tool.defs, args))
    ensures r.Some? ==>
      var left := args.Keys - Names(tool.template) - NamesAll(tool.defs);
      && (r.value.body.Some? <==> CarriesBody(tool.verb, tool.mapping) && left != {})
      && (r.value.body.Some? ==>
            r.value.body.value.Keys == left && forall k :: k in left ==> r.value.body.value[k] == args[k])
  {
    var url := Substitute(tool.template, args);
    if url.None? { return None; }
    var full, consumed := AppendQueryParams(url.value, tool.defs, args, Names(tool.template) * args.Keys);
    if !CarriesBody(tool.verb, tool.mapping) { return Some(Request(full, None)); }
    var body := BuildBody(args, consumed);
    assert body.Keys == args.Keys - Names(tool.template) - NamesAll(tool.defs);
    if body.Keys == {} { return Some(Request(full, None)); }
    return Some(Request(full, Some(body)));
  }

  /** The server reads the parameters of a routed call exactly when there are none or the
      tool's URL template has no hash: no argument can bring one in. */
  lemma RoutedQueryArrivesIff(tool: Tool, args: Args)
    requires Substitute(tool.template, args).Some?
    ensures var url := Substitute(tool.template, args).value; var ps := Pairs(tool.defs, args);
      Parse(QueryOf(FullUrl(url, ps))) == Parse(QueryOf(url)) + Read(ps) <==> ps == [] || '#' !in tool.template
  {
    var url := Substitute(tool.template, args).value;
    QueryArrivesIff(url, tool.defs, args);
    SubstituteKeepsStructure(tool.template, args, '#');
    OccursIff(url, '#');
    OccursIff(tool.template, '#');
  }
}
