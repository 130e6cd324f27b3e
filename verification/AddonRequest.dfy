/** How the executor of `internal/addon/executor.go` routes a call's arguments
    into the URL, the query string and the body. Text is one character per byte
    of its UTF-8 form. */
module AddonRequest {
  import opened Text
  import opened AddonSlug
  import opened AddonPath

  type Byte = c: char | (c as int) < 256 witness 'a'
  type Args = map<string, seq<Byte>>

  /* ---- Percent-encoding, as package net/url does it ---- */

  predicate Unreserved(c: char) {
    'a' <= c <= 'z' || 'A' <= c <= 'Z' || '0' <= c <= '9' || c == '-' || c == '_' || c == '.' || c == '~'
  }

  predicate PathSafe(c: char) {
    Unreserved(c) || c == '$' || c == '&' || c == '+' || c == '=' || c == ':' || c == '@'
  }

  function HexDigit(d: nat): (c: char)
    requires d < 16
    ensures '0' <= c <= '9' || 'A' <= c <= 'F'
  {
    if d < 10 then ('0' as int + d) as char else ('A' as int + d - 10) as char
  }

  function Percent(c: Byte): (s: string)
    ensures |s| == 3
  {
    ['%', HexDigit(c as int / 16), HexDigit(c as int % 16)]
  }

  function PathEscape(s: seq<Byte>): string {
    if s == [] then "" else (if PathSafe(s[0]) then [s[0]] else Percent(s[0])) + PathEscape(s[1..])
  }

  /* ---- The URL ---- */

  predicate WordChar(c: char) { 'a' <= c <= 'z' || 'A' <= c <= 'Z' || '0' <= c <= '9' || c == '_' }

  function WordLength(s: string): (n: nat)
    ensures n <= |s|
  {
    if s != "" && WordChar(s[0]) then 1 + WordLength(s[1..]) else 0
  }

  /** The name of a `{{name}}` placeholder at the start of the text. */
  function Placeholder(s: string): (r: Option<string>)
    ensures r.Some? ==> |r.value| + 4 <= |s|
  {
    if |s| < 2 || s[0] != '{' || s[1] != '{' then None
    else
      var n := WordLength(s[2..]);
      if n == 0 || |s| < n + 4 || s[n + 2] != '}' || s[n + 3] != '}' then None else Some(s[2..n + 2])
  }

  predicate Suspicious(s: seq<Byte>) {
    '\r' in s || '\n' in s || exists i :: 0 < i < |s| && s[i - 1] == '.' && s[i] == '.'
  }

  function Both(a: Option<string>, b: Option<string>): Option<string> {
    if a.Some? && b.Some? then Some(a.value + b.value) else None
  }

  /** `substituteURL`: `None` if any placeholder has no value or a refused one. */
  function Substitute(t: string, args: Args): Option<string>
    decreases |t|
  {
    if t == "" then Some("")
    else
      match Placeholder(t)
      case Some(name) =>
        if name !in args || Suspicious(args[name]) then None
        else Both(Some(PathEscape(args[name])), Substitute(t[|name| + 4..], args))
      case None => Both(Some([t[0]]), Substitute(t[1..], args))
  }

  function Occurrences(s: string, c: char): nat {
    if s == "" then 0 else (if s[0] == c then 1 else 0) + Occurrences(s[1..], c)
  }

  lemma {:induction false} OccurrencesAppend(a: string, b: string, c: char)
    ensures Occurrences(a + b, c) == Occurrences(a, c) + Occurrences(b, c)
  {
    if a == "" {
      assert a + b == b;
    } else {
      OccurrencesAppend(a[1..], b, c);
      assert (a + b)[1..] == a[1..] + b;
    }
  }

  lemma {:induction false} OccursIff(s: string, c: char)
    ensures c in s <==> Occurrences(s, c) > 0
  {
    if s != "" { OccursIff(s[1..], c); }
  }

  lemma {:induction false} NoOccurrence(s: string, c: char)
    requires c !in s
    ensures Occurrences(s, c) == 0
  {
    if s != "" { NoOccurrence(s[1..], c); }
  }

  /** The characters that delimit the parts of a URL. */
  predicate Delimiter(c: char) { c == '/' || c == '?' || c == '#' }

  lemma {:induction false} EscapeHasNone(s: seq<Byte>, c: char)
    requires Delimiter(c)
    ensures c !in PathEscape(s)
  {
    if s != [] { EscapeHasNone(s[1..], c); }
  }

  lemma {:induction false} WordRun(s: string)
    ensures forall i :: 0 <= i < WordLength(s) ==> WordChar(s[i])
  {
    if s != "" && WordChar(s[0]) {
      WordRun(s[1..]);
      assert forall i :: 0 < i < WordLength(s) ==> s[i] == s[1..][i - 1];
    }
  }

  lemma PlaceholderShape(t: string)
    requires Placeholder(t).Some?
    ensures var n := |Placeholder(t).value|;
      forall c :: Delimiter(c) ==> c !in t[..n + 4]
  {
    WordRun(t[2..]);
    var n := |Placeholder(t).value|;
    forall i | 0 <= i < n + 4 ensures !Delimiter(t[i]) {
      if 2 <= i < n + 2 { assert t[i] == t[2..][i - 2]; }
    }
  }

  lemma PlaceholderCounts(t: string, value: seq<Byte>, rest: string, c: char)
    requires Delimiter(c) && Placeholder(t).Some?
    ensures Occurrences(t, c) == Occurrences(t[|Placeholder(t).value| + 4..], c)
    ensures Occurrences(PathEscape(value) + rest, c) == Occurrences(rest, c)
  {
    var n := |Placeholder(t).value| + 4;
    PlaceholderShape(t);
    NoOccurrence(t[..n], c);
    OccurrencesAppend(t[..n], t[n..], c);
    assert t == t[..n] + t[n..];
    EscapeHasNone(value, c);
    NoOccurrence(PathEscape(value), c);
    OccurrencesAppend(PathEscape(value), rest, c);
  }

  /** Whatever the arguments are, the request keeps the template's path segments:
      no value adds or removes a slash, a question mark or a hash. */
  lemma {:induction false} SubstituteKeepsStructure(t: string, args: Args, c: char)
    requires Delimiter(c) && Substitute(t, args).Some?
    ensures Occurrences(Substitute(t, args).value, c) == Occurrences(t, c)
    decreases |t|
  {
    if t != "" {
      match Placeholder(t)
      case Some(name) =>
        var rest := t[|name| + 4..];
        SubstituteKeepsStructure(rest, args, c);
        PlaceholderCounts(t, args[name], Substitute(rest, args).value, c);
      case None =>
        SubstituteKeepsStructure(t[1..], args, c);
        OccurrencesAppend([t[0]], Substitute(t[1..], args).value, c);
        assert [t[0]][1..] == "";
    }
  }

  /* ---- From the imported path to the request ---- */

  predicate Word(name: string) { name != "" && forall i :: 0 <= i < |name| ==> WordChar(name[i]) }

  /** Names without an opening brace. */
  predicate Braceless(names: seq<string>) { forall i :: 0 <= i < |names| ==> '{' !in names[i] }

  /** A token that holds a further opening brace is a recognised one. */
  predicate Plain(path: string, names: seq<string>)
    decreases |path|
  {
    if path == "" then true
    else if path[0] != '{' then Plain(path[1..], names)
    else
      match CloseAt(path)
      case None => true
      case Some(end) => ('{' in path[1..end] ==> SlugParam(path[1..end]) in names) && Plain(path[end + 1..], names)
  }

  /** No usable argument for a placeholder. */
  predicate Lacks(args: Args, name: string) { name !in args || Suspicious(args[name]) }

  /** What a token becomes in the request: its slot's argument and the braces that trail
      it. The executor does not see a slot whose name is no word and leaves it as it is. */
  function Filled(t: string, m: Mark, args: Args): Option<string> {
    match m
    case Raw => Some(Token(t))
    case Slotted(p, n) =>
      if !Word(p) then Some(Used(p, n))
      else if Lacks(args, p) then None
      else Some(PathEscape(args[p]) + Bars(n))
  }

  /** The path with each of its own tokens filled as the scans for `names` leave them. */
  function Direct(path: string, names: seq<string>, args: Args): Option<string>
    decreases |path|
  {
    if path == "" then Some("")
    else if path[0] != '{' then Both(Some([path[0]]), Direct(path[1..], names, args))
    else
      match CloseAt(path)
      case None => Some(path)
      case Some(end) =>
        Both(Filled(path[1..end], Final(path[1..end], names), args), Direct(path[end + 1..], names, args))
  }

  lemma DirectToken(path: string, t: string, rest: string, names: seq<string>, args: Args)
    requires SplitsAt(path, t, rest)
    ensures Direct(path, names, args) == Both(Filled(t, Final(t, names), args), Direct(rest, names, args))
  {
  }

  lemma PlainToken(path: string, t: string, rest: string, names: seq<string>)
    requires SplitsAt(path, t, rest) && Plain(path, names)
    ensures ('{' in t ==> SlugParam(t) in names) && Plain(rest, names)
  {
  }

  lemma {:induction false} SubstituteChar(c: char, rest: string, args: Args)
    requires c != '{' || rest == "" || rest[0] != '{'
    ensures Substitute([c] + rest, args) == Both(Some([c]), Substitute(rest, args))
  {
    assert ([c] + rest)[1..] == rest;
    assert rest != "" ==> ([c] + rest)[1] == rest[0];
  }

  lemma BothEmpty(b: Option<string>)
    ensures Both(Some(""), b) == b == Both(b, Some(""))
  {
    if b.Some? { assert "" + b.value == b.value == b.value + ""; }
  }

  lemma BothAssoc(a: Option<string>, b: Option<string>, c: Option<string>)
    ensures Both(a, Both(b, c)) == Both(Both(a, b), c)
  {
    if a.Some? && b.Some? && c.Some? { Assoc(a.value, b.value, c.value); }
  }

  lemma {:induction false} SubstituteText(a: string, rest: string, args: Args)
    requires '{' !in a
    ensures Substitute(a + rest, args) == Both(Some(a), Substitute(rest, args))
  {
    if a == "" {
      assert a + rest == rest;
      BothEmpty(Substitute(rest, args));
    } else {
      SubstituteText(a[1..], rest, args);
      SubstituteChar(a[0], a[1..] + rest, args);
      assert [a[0]] + (a[1..] + rest) == a + rest;
      BothAssoc(Some([a[0]]), Some(a[1..]), Substitute(rest, args));
      assert [a[0]] + a[1..] == a;
    }
  }

  /** A text without a closing brace holds no placeholder. */
  lemma {:induction false} SubstituteUnclosed(s: string, args: Args)
    requires '}' !in s
    ensures Substitute(s, args) == Some(s)
  {
    if s != "" {
      SubstituteUnclosed(s[1..], args);
      assert [s[0]] + s[1..] == s;
    }
  }

  lemma {:induction false} CloseMissing(s: string)
    requires CloseAt(s).None?
    ensures '}' !in s
  {
    if s != "" {
      CloseMissing(s[1..]);
      assert s == [s[0]] + s[1..];
    }
  }

  lemma {:induction false} WordLengthOf(name: string, rest: string)
    requires forall i :: 0 <= i < |name| ==> WordChar(name[i])
    requires rest != "" && !WordChar(rest[0])
    ensures WordLength(name + rest) == |name|
  {
    if name == "" {
      assert name + rest == rest;
    } else {
      WordLengthOf(name[1..], rest);
      assert (name + rest)[1..] == name[1..] + rest;
    }
  }

  lemma PlaceholderOf(name: string, rest: string)
    requires Word(name)
    ensures Placeholder(Slot(name) + rest) == Some(name)
    ensures (Slot(name) + rest)[|name| + 4..] == rest
  {
    var s := Slot(name) + rest;
    var tail := "}" + ("}" + rest);
    WordLengthOf(name, tail);
    assert s[2..] == name + tail;
    assert s[2..|name| + 2] == name;
  }

  /** The run of word characters of a text ends before the text does if not all of it
      is one. */
  lemma {:induction false} WordStops(name: string, rest: string)
    requires exists i :: 0 <= i < |name| && !WordChar(name[i])
    ensures WordLength(name + rest) < |name| && !WordChar(name[WordLength(name + rest)])
  {
    if WordChar(name[0]) {
      var i :| 0 <= i < |name| && !WordChar(name[i]);
      assert name[1..][i - 1] == name[i];
      WordStops(name[1..], rest);
      assert (name + rest)[1..] == name[1..] + rest;
    }
  }

  /** A slot whose name is no word is no placeholder. */
  lemma NoPlaceholder(name: string, rest: string)
    requires !Word(name) && '}' !in name
    ensures Placeholder(Slot(name) + rest).None?
  {
    var s := Slot(name) + rest;
    var tail := "}" + ("}" + rest);
    assert s[2..] == name + tail;
    if name == "" {
      assert s[2..][0] == '}';
    } else {
      WordStops(name, tail);
      var n := WordLength(name + tail);
      assert s[n + 2] == name[n];
    }
  }

  lemma {:induction false} BarsPlain(n: nat)
    ensures '{' !in Bars(n)
  {
    if n > 0 { BarsPlain(n - 1); }
  }

  lemma {:induction false} SubstituteStep(s: string, args: Args)
    requires s != "" && Placeholder(s).None?
    ensures Substitute(s, args) == Both(Some([s[0]]), Substitute(s[1..], args))
  {
  }

  lemma {:induction false} SubstitutePlaceholder(s: string, name: string, args: Args)
    requires s != "" && Placeholder(s) == Some(name)
    ensures Substitute(s, args) ==
      if name !in args || Suspicious(args[name]) then None
      else Both(Some(PathEscape(args[name])), Substitute(s[|name| + 4..], args))
  {
  }

  lemma SubstituteWord(name: string, n: nat, rest: string, args: Args)
    requires Word(name)
    ensures Substitute(Used(name, n) + rest, args) ==
      if Lacks(args, name) then None
      else Both(Some(PathEscape(args[name]) + Bars(n)), Substitute(rest, args))
  {
    Assoc(Slot(name), Bars(n), rest);
    PlaceholderOf(name, Bars(n) + rest);
    SubstitutePlaceholder(Slot(name) + (Bars(n) + rest), name, args);
    BarsPlain(n);
    SubstituteText(Bars(n), rest, args);
    if name in args { BothAssoc(Some(PathEscape(args[name])), Some(Bars(n)), Substitute(rest, args)); }
  }

  lemma LiteralSplit(name: string, n: nat, rest: string)
    ensures var inner := name + ("}" + ("}" + Bars(n)));
      && Used(name, n) == "{" + ("{" + inner)
      && (Used(name, n) + rest)[0] == '{'
      && (Used(name, n) + rest)[1..] == "{" + (inner + rest)
      && inner + rest != "" && (inner + rest)[0] == inner[0]
  {
  }

  lemma SubstituteLiteral(name: string, n: nat, rest: string, args: Args)
    requires !Word(name) && '}' !in name && '{' !in name
    ensures Substitute(Used(name, n) + rest, args) == Both(Some(Used(name, n)), Substitute(rest, args))
  {
    var inner := name + ("}" + ("}" + Bars(n)));
    BarsPlain(n);
    assert '{' !in inner;
    LiteralSplit(name, n, rest);
    NoPlaceholder(name, Bars(n) + rest);
    Assoc(Slot(name), Bars(n), rest);
    SubstituteStep(Used(name, n) + rest, args);
    SubstituteChar('{', inner + rest, args);
    SubstituteText(inner, rest, args);
    BothAssoc(Some("{"), Some(inner), Substitute(rest, args));
    BothAssoc(Some("{"), Some("{" + inner), Substitute(rest, args));
  }

  lemma SubstituteToken(t: string, rest: string, args: Args)
    requires '{' !in t
    ensures Substitute(Token(t) + rest, args) == Both(Some(Token(t)), Substitute(rest, args))
  {
    var a := t + "}";
    SubstituteText(a, rest, args);
    SubstituteChar('{', a + rest, args);
    assert Token(t) + rest == ['{'] + (a + rest);
    BothAssoc(Some("{"), Some(a), Substitute(rest, args));
  }

  lemma SubstituteShown(t: string, m: Mark, more: string, args: Args)
    requires m.Raw? ==> '{' !in t
    requires m.Slotted? ==> '{' !in m.name && '}' !in m.name
    ensures Substitute(Show(t, m) + more, args) == Both(Filled(t, m, args), Substitute(more, args))
  {
    match m
    case Raw => SubstituteToken(t, more, args);
    case Slotted(p, n) =>
      if Word(p) { SubstituteWord(p, n, more, args); } else { SubstituteLiteral(p, n, more, args); }
  }

  /** The states a token of a plain path can be in after the scans. */
  lemma FinalPlain(t: string, names: seq<string>, scanned: seq<string>)
    requires '}' !in t && ('{' in t ==> SlugParam(t) in names) && Braceless(names)
    requires forall p :: p in scanned <==> p in names
    ensures var m := Final(t, scanned);
      (m.Raw? ==> '{' !in t) && (m.Slotted? ==> '{' !in m.name && '}' !in m.name)
  {
    FinalIff(t, scanned);
    ScansOk(Raw, t, scanned);
    ScansNamed(Raw, t, scanned);
  }

  /** The executor's substitution over an expanded, closed path is direct filling of the
      path's own tokens, refusals included; what follows is substituted on its own. */
  lemma {:induction false} SubstituteJoin(path: string, names: seq<string>, more: string, args: Args)
    requires Closed(path) && Plain(path, names) && Braceless(names)
    ensures Substitute(Expand(path, names) + more, args) == Both(Direct(path, names, args), Substitute(more, args))
    decreases |path|
  {
    if path == "" {
      assert "" + more == more;
      BothEmpty(Substitute(more, args));
    } else if path[0] != '{' {
      var c, rest := path[0], path[1..];
      SubstituteJoin(rest, names, more, args);
      Assoc([c], Expand(rest, names), more);
      SubstituteChar(c, Expand(rest, names) + more, args);
      BothAssoc(Some([c]), Direct(rest, names, args), Substitute(more, args));
    } else {
      var t, rest := FirstToken(path);
      var m := Final(t, names);
      PlainToken(path, t, rest, names);
      SubstituteJoin(rest, names, more, args);
      ExpandToken(path, t, rest, names);
      DirectToken(path, t, rest, names, args);
      FinalPlain(t, names, names);
      Assoc(Show(t, m), Expand(rest, names), more);
      SubstituteShown(t, m, Expand(rest, names) + more, args);
      BothAssoc(Filled(t, m, args), Direct(rest, names, args), Substitute(more, args));
    }
  }

  lemma {:induction false} SubstituteExpanded(path: string, names: seq<string>, scanned: seq<string>, args: Args)
    requires Plain(path, names) && Braceless(names) && forall p :: p in scanned <==> p in names
    ensures Substitute(Expand(path, scanned), args) == Direct(path, scanned, args)
    decreases |path|
  {
    if path == "" {
    } else if path[0] != '{' {
      SubstituteExpanded(path[1..], names, scanned, args);
      SubstituteChar(path[0], Expand(path[1..], scanned), args);
    } else if CloseAt(path).None? {
      CloseMissing(path);
      SubstituteUnclosed(path, args);
    } else {
      var t, rest := FirstToken(path);
      PlainToken(path, t, rest, names);
      SubstituteExpanded(rest, names, scanned, args);
      ExpandToken(path, t, rest, scanned);
      DirectToken(path, t, rest, scanned, args);
      FinalPlain(t, names, scanned);
      SubstituteShown(t, Final(t, scanned), Expand(rest, scanned), args);
    }
  }

  /** A path rewritten once and then called. */
  lemma RewriteThenSubstitute(path: string, names: seq<string>, args: Args)
    requires Plain(path, names) && Braceless(names)
    ensures Substitute(RewriteAll(path, names), args) == Direct(path, names, args)
  {
    RewriteIsExpand(path, names);
    SubstituteExpanded(path, names, names, args);
  }

  /** An imported, built and called endpoint: the tokens of the base URL are filled after
      one round of scans, those of the path after two. */
  lemma ImportedCall(base: string, path: string, names: seq<string>, args: Args)
    requires Closed(base) && Plain(base, names) && Plain(path, names) && Braceless(names)
    ensures Substitute(RewriteAll(base + RewriteAll(path, names), names), args)
      == Both(Direct(base, names, args), Direct(path, names + names, args))
  {
    BuildRewritesAgain(base, path, names);
    SubstituteJoin(base, names, Expand(path, names + names), args);
    assert forall p :: p in names + names <==> p in names;
    SubstituteExpanded(path, names, names + names, args);
  }

  /* ---- When that is the URL the document describes ---- */

  function MeantToken(t: string, names: seq<string>, args: Args): Option<string> {
    if SlugParam(t) !in names then Some(Token(t))
    else if Lacks(args, SlugParam(t)) then None
    else Some(PathEscape(args[SlugParam(t)]))
  }

  /** The URL an OpenAPI path describes: each recognised token gives way to its
      argument, and a missing or refused one refuses the call. */
  function Meant(path: string, names: seq<string>, args: Args): Option<string>
    decreases |path|
  {
    if path == "" then Some("")
    else if path[0] != '{' then Both(Some([path[0]]), Meant(path[1..], names, args))
    else
      match CloseAt(path)
      case None => Some(path)
      case Some(end) => Both(MeantToken(path[1..end], names, args), Meant(path[end + 1..], names, args))
  }

  /** What is scanned for before a call: the names once, or twice. */
  function Rounds(names: seq<string>, twice: bool): seq<string> { if twice then names + names else names }

  /** A recognised token that comes out wrong: its name is no word, or its slot turns into
      a name that is scanned for later. */
  predicate Spoilt(t: string, names: seq<string>, twice: bool) {
    var p := SlugParam(t);
    p in names && (!Word(p) || Seen(p) in (if twice then names else AfterFirst(names, p)))
  }

  /** How many tokens of a path do. */
  function SpoiltIn(path: string, names: seq<string>, twice: bool): nat
    decreases |path|
  {
    if path == "" then 0
    else if path[0] != '{' then SpoiltIn(path[1..], names, twice)
    else
      match CloseAt(path)
      case None => 0
      case Some(end) => (if Spoilt(path[1..end], names, twice) then 1 else 0) + SpoiltIn(path[end + 1..], names, twice)
  }

  /** Some token asks for an argument that is missing or refused: by its own name... */
  predicate MeantRefused(path: string, names: seq<string>, args: Args)
    decreases |path|
  {
    if path == "" then false
    else if path[0] != '{' then MeantRefused(path[1..], names, args)
    else
      match CloseAt(path)
      case None => false
      case Some(end) =>
        var p := SlugParam(path[1..end]);
        (p in names && Lacks(args, p)) || MeantRefused(path[end + 1..], names, args)
  }

  /** ... or by the name, if it is a word, of the slot that the scans leave. */
  predicate CallRefused(path: string, scanned: seq<string>, args: Args)
    decreases |path|
  {
    if path == "" then false
    else if path[0] != '{' then CallRefused(path[1..], scanned, args)
    else
      match CloseAt(path)
      case None => false
      case Some(end) =>
        var m := Final(path[1..end], scanned);
        (m.Slotted? && Word(m.name) && Lacks(args, m.name)) || CallRefused(path[end + 1..], scanned, args)
  }

  lemma {:induction false} RefusedIff(path: string, names: seq<string>, scanned: seq<string>, args: Args)
    ensures Meant(path, names, args).None? <==> MeantRefused(path, names, args)
    ensures Direct(path, scanned, args).None? <==> CallRefused(path, scanned, args)
    decreases |path|
  {
    if path != "" {
      if path[0] != '{' {
        RefusedIff(path[1..], names, scanned, args);
      } else if CloseAt(path).Some? {
        RefusedIff(path[CloseAt(path).value + 1..], names, scanned, args);
      }
    }
  }

  lemma {:induction false} EscapeHasNoBar(s: seq<Byte>)
    ensures Occurrences(PathEscape(s), '}') == 0
  {
    if s != [] {
      EscapeHasNoBar(s[1..]);
      var head := if PathSafe(s[0]) then [s[0]] else Percent(s[0]);
      NoOccurrence(head, '}');
      OccurrencesAppend(head, PathEscape(s[1..]), '}');
    }
  }

  lemma {:induction false} BarsAre(n: nat)
    ensures Occurrences(Bars(n), '}') == n
  {
    if n > 0 {
      BarsAre(n - 1);
      assert Bars(n)[1..] == Bars(n - 1);
    }
  }

  lemma SlotBars(name: string, n: nat)
    ensures Occurrences(Used(name, n), '}') >= n + 2
  {
    var front, back := "{" + ("{" + name), "}" + ("}" + Bars(n));
    assert Used(name, n) == front + back;
    OccurrencesAppend(front, back, '}');
    BarsAre(n + 2);
    assert Bars(n + 2) == "}" + Bars(n + 1) && Bars(n + 1) == "}" + Bars(n);
  }

  /** How two results compare: they agree if nothing is spoilt; otherwise, if there are
      two, the first has more closing braces. */
  predicate Compares(sent: Option<string>, meant: Option<string>, spoilt: nat) {
    && (spoilt == 0 ==> sent == meant)
    && (spoilt > 0 && sent.Some? && meant.Some? ==> Occurrences(sent.value, '}') > Occurrences(meant.value, '}'))
  }

  lemma FilledBars(t: string, m: Mark, args: Args)
    requires m.Slotted? && Filled(t, m, args).Some?
    ensures Occurrences(Filled(t, m, args).value, '}') >= m.strays
    ensures !Word(m.name) ==> Occurrences(Filled(t, m, args).value, '}') > 0
  {
    if Word(m.name) {
      BarsAre(m.strays);
      OccurrencesAppend(PathEscape(args[m.name]), Bars(m.strays), '}');
    } else {
      SlotBars(m.name, m.strays);
    }
  }

  lemma TokenSpoilt(t: string, names: seq<string>, twice: bool, args: Args)
    ensures Compares(Filled(t, Final(t, Rounds(names, twice)), args), MeantToken(t, names, args),
                     if Spoilt(t, names, twice) then 1 else 0)
  {
    var p, m := SlugParam(t), Final(t, Rounds(names, twice));
    if twice {
      FinalIff(t, names + names);
      if p in names { TwiceIff(t, names); }
    } else {
      FinalIff(t, names);
    }
    if p in names {
      if p in args {
        EscapeHasNoBar(args[p]);
        assert PathEscape(args[p]) + Bars(0) == PathEscape(args[p]);
      }
      if Filled(t, m, args).Some? { FilledBars(t, m, args); }
    }
  }

  lemma SpoiltToken(path: string, t: string, rest: string, names: seq<string>, twice: bool, args: Args)
    requires SplitsAt(path, t, rest)
    ensures SpoiltIn(path, names, twice) == (if Spoilt(t, names, twice) then 1 else 0) + SpoiltIn(rest, names, twice)
    ensures Meant(path, names, args) == Both(MeantToken(t, names, args), Meant(rest, names, args))
  {
  }

  lemma ComparesBoth(a: Option<string>, b: Option<string>, m: nat, c: Option<string>, d: Option<string>, n: nat)
    requires Compares(a, b, m) && Compares(c, d, n)
    ensures Compares(Both(a, c), Both(b, d), m + n)
  {
    if a.Some? && c.Some? { OccurrencesAppend(a.value, c.value, '}'); }
    if b.Some? && d.Some? { OccurrencesAppend(b.value, d.value, '}'); }
  }

  lemma {:induction false} PathSpoilt(path: string, names: seq<string>, twice: bool, args: Args)
    ensures Compares(Direct(path, Rounds(names, twice), args), Meant(path, names, args), SpoiltIn(path, names, twice))
    decreases |path|
  {
    var scanned := Rounds(names, twice);
    if path == "" {
    } else if path[0] != '{' {
      PathSpoilt(path[1..], names, twice, args);
      var c := Some([path[0]]);
      ComparesBoth(c, c, 0, Direct(path[1..], scanned, args), Meant(path[1..], names, args),
                   SpoiltIn(path[1..], names, twice));
    } else if CloseAt(path).Some? {
      var t, rest := FirstToken(path);
      PathSpoilt(rest, names, twice, args);
      TokenSpoilt(t, names, twice, args);
      DirectToken(path, t, rest, scanned, args);
      SpoiltToken(path, t, rest, names, twice, args);
      ComparesBoth(Filled(t, Final(t, scanned), args), MeantToken(t, names, args),
                   if Spoilt(t, names, twice) then 1 else 0,
                   Direct(rest, scanned, args), Meant(rest, names, args), SpoiltIn(rest, names, twice));
    }
  }

  /** A path rewritten once reaches the URL it describes exactly when no recognised token
      is spoilt, or both its own names and the slots left refuse the call. */
  lemma RewrittenCallIsRightIff(path: string, names: seq<string>, args: Args)
    requires Plain(path, names) && Braceless(names)
    ensures Substitute(RewriteAll(path, names), args) == Meant(path, names, args)
      <==> SpoiltIn(path, names, false) == 0 || (MeantRefused(path, names, args) && CallRefused(path, names, args))
  {
    RewriteThenSubstitute(path, names, args);
    PathSpoilt(path, names, false, args);
    RefusedIff(path, names, names, args);
  }

  /** An imported, built and called endpoint reaches the URL its document describes if
      and only if no recognised token of the base URL or the path is spoilt, or both its
      own names and the slots left refuse the call. */
  lemma ImportedCallIsRightIff(base: string, path: string, names: seq<string>, args: Args)
    requires Closed(base) && Plain(base, names) && Plain(path, names) && Braceless(names)
    ensures var sent := Substitute(RewriteAll(base + RewriteAll(path, names), names), args);
      var spoilt := SpoiltIn(base, names, false) + SpoiltIn(path, names, true);
      var unwanted := MeantRefused(base, names, args) || MeantRefused(path, names, args);
      var refused := CallRefused(base, names, args) || CallRefused(path, names + names, args);
      sent == Both(Meant(base, names, args), Meant(path, names, args)) <==> spoilt == 0 || (unwanted && refused)
  {
    ImportedCall(base, path, names, args);
    PathSpoilt(base, names, false, args);
    PathSpoilt(path, names, true, args);
    RefusedIff(base, names, names, args);
    RefusedIff(path, names, names + names, args);
    ComparesBoth(Direct(base, names, args), Meant(base, names, args), SpoiltIn(base, names, false),
                 Direct(path, names + names, args), Meant(path, names, args), SpoiltIn(path, names, true));
  }
}
