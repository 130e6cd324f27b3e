/** The promises of the rules block: Sync settles, tells the truth, keeps the
    text around the block, and every other reader of the block agrees with it. */
module RulesTheorems {
  import opened Text
  import opened RulesBlock
  import opened RulesProofs

  /** Text that a block can follow without being swallowed by an earlier marker. */
  ghost predicate ClearBefore(pre: string) {
    pre == "" || (pre[|pre| - 1] == '\n' && !HasBeginLine(pre[..|pre| - 1], true))
  }

  lemma FindAfterClear(pre: string, rest: string)
    requires ClearBefore(pre) && FindBlock(rest, true).Some? && FindBlock(rest, true).value.before == ""
    ensures FindBlock(pre + rest, true) == Some(FindBlock(rest, true).value.(before := pre))
  {
    if pre == "" {
      assert pre + rest == rest;
    } else {
      var q := pre[..|pre| - 1];
      assert pre == q + "\n";
      FindPast(q, rest, true);
      assert q + "\n" + "" == pre;
    }
  }

  /** A block written after clear text is found again, exactly. */
  lemma WrittenIsFound(pre: string, version: nat, b: string, post: string)
    requires ClearBefore(pre) && EndTail(post).Some?
    requires b != "" && !RegexSpace(b[0]) && !Contains(b, MARK)
    ensures FindBlock(pre + Block(version, b) + post, true) ==
            Some(Found(pre, Decimal(version), b + "\n", EndTail(post).value))
  {
    ParseRendered(version, b, post);
    FindAfterClear(pre, Block(version, b) + post);
    Assoc(pre, Block(version, b), post);
  }

  lemma TextEnds(c: Content, url: string)
    requires c.Good()
    ensures c.Text(url) != "" && c.Text(url)[0] == c.head[0]
    ensures !RegexSpace(c.Text(url)[0])
  {}

  lemma TextHasLine(c: Content, w: string)
    ensures Contains(c.Text(w) + "\n", LABEL + w)
  {
    ContainsAt(c.head + "\n", LABEL + w, c.tail + "\n");
    assert c.head + "\n" + (LABEL + w) + (c.tail + "\n") == c.Text(w) + "\n";
  }

  lemma WrittenIsCurrent(f: Found, version: nat, w: string, c: Content)
    requires c.Good() && version < TWO63 && NewlineFree(w)
    requires f.digits == Decimal(version) && f.body == c.Text(w) + "\n"
    ensures Current(f, version, c)
  {
    ParseVersionRoundTrip(version);
    DefaultUrlShape();
    SameBody(c, w, DEFAULT_URL);
  }

  lemma SameBody(c: Content, w: string, d: string)
    requires c.Good() && NewlineFree(w) && NewlineFree(d)
    ensures NormalizeBody(c.Text(w) + "\n") == NormalizeBody(c.Text(d)) == CanonText(c)
  {
    NormalizeRendered(c, w);
    NormalizeRendered(c, d);
  }

  lemma DefaultUrlShape()
    ensures forall i :: 0 <= i < |DEFAULT_URL| ==> DEFAULT_URL[i] != '\n' && DEFAULT_URL[i] != '<'
  {}

  /** Once a block carries this version, this content and this URL, Sync stops. */
  lemma SettledBlock(text: string, f: Found, version: nat, url: string, w: string, c: Content)
    requires c.Good() && version < TWO63 && NewlineFree(w)
    requires FindBlock(text, true) == Some(f) && f.digits == Decimal(version) && f.body == c.Text(w) + "\n"
    requires url == "" || url == w
    ensures Sync(Present(text), version, url, c) == SyncResult(Present(text), false)
  {
    WrittenIsCurrent(f, version, w, c);
    TextHasLine(c, w);
  }

  /** The text a writing Sync leaves, when it puts the block between `pre` and `post`. */
  lemma WrittenSettles(pre: string, version: nat, url: string, w: string, c: Content, post: string)
    requires c.Good() && version < TWO63 && PlainUrl(w) && w != ""
    requires ClearBefore(pre) && EndTail(post).Some?
    requires url == "" || url == w
    ensures var text := pre + Block(version, c.Text(w)) + post;
      Sync(Present(text), version, url, c) == SyncResult(Present(text), false)
  {
    TextEnds(c, w);
    BodyMarkFree(c, w);
    WrittenIsFound(pre, version, c.Text(w), post);
    var text := pre + Block(version, c.Text(w)) + post;
    SettledBlock(text, FindBlock(text, true).value, version, url, w, c);
  }

  /* ---- Where the block goes ---- */

  /** A marker line with no END marker to close it. */
  predicate Unpaired(file: File) {
    && file.Present? && FindBlock(file.text, true).None?
    && HasBeginLine(TrimRight(file.text, TrimmedFromFile), true)
  }

  /** The URL a writing Sync puts on the Dashboard line ("" for the default). */
  function WrittenUrl(file: File, url: string): string {
    if file.Present? && FindBlock(file.text, true).Some? then EffectiveUrl(FindBlock(file.text, true).value, url)
    else url
  }

  lemma {:induction false} TakeLineNewlineFree(s: string)
    ensures NewlineFree(TakeLine(s))
  {
    if s != "" && s[0] != '\n' { TakeLineNewlineFree(s[1..]); }
  }

  lemma {:induction false} TrimLeftNewlineFree(s: string)
    requires NewlineFree(s)
    ensures NewlineFree(TrimLeft(s, UnicodeSpace))
  {
    if s != "" && UnicodeSpace(s[0]) { TrimLeftNewlineFree(s[1..]); }
  }

  lemma {:induction false} InstalledUrlNewlineFree(s: string, bol: bool)
    ensures NewlineFree(InstalledUrl(s, bol))
  {
    if s == "" {
    } else if bol && LABEL <= s {
      TakeLineNewlineFree(s[|LABEL|..]);
      TrimLeftNewlineFree(" " + TakeLine(s[|LABEL|..]));
    } else {
      InstalledUrlNewlineFree(s[1..], s[0] == '\n');
    }
  }

  lemma MatchBefore(q: string, x: string, before: string)
    requires before == q + "\n" && ParseBlock(x).Some?
    requires FindBlock(before + x, true).Some? && FindBlock(before + x, true).value.before == before
    ensures ClearBefore(before)
  {
    NoBeginLineBefore(q, x, true);
    assert before[..|before| - 1] == q;
  }

  lemma ParseTail(x: string)
    requires ParseBlock(x).Some?
    ensures EndTail(ParseBlock(x).value.after).Some?
  {
    SplitTail(AfterLastNewline(Header(x).value.1).value);
  }

  /** A found block splits the text in front of it. */
  lemma FoundParts(text: string, f: Found) returns (x: string)
    requires FindBlock(text, true) == Some(f)
    ensures text == f.before + x && ParseBlock(x) == Some(f.(before := ""))
    ensures f.before != "" ==> f.before[|f.before| - 1] == '\n'
  {
    FindDecomposes(text, true);
    x := text[|f.before|..];
  }

  /** The text around a match: clear before it, and a tail a block can end at. */
  lemma MatchSurroundings(text: string)
    requires FindBlock(text, true).Some?
    ensures var f := FindBlock(text, true).value; ClearBefore(f.before) && EndTail(f.after).Some?
  {
    var f := FindBlock(text, true).value;
    var x := FoundParts(text, f);
    ParseTail(x);
    if f.before != "" { MatchBefore(f.before[..|f.before| - 1], x, f.before); }
  }

  lemma {:induction false} SplitTail(s: string)
    requires SplitAtEnd(s).Some?
    ensures EndTail(SplitAtEnd(s).value.after).Some?
  {
    if END <= s && EndTail(s[|END|..]).Some? {
      EndTailShape(s[|END|..]);
    } else if s[0] == '\n' && END <= s[1..] && EndTail(s[1..][|END|..]).Some? {
      EndTailShape(s[1..][|END|..]);
    } else {
      SplitTail(s[1..]);
    }
  }

  lemma ReplacedShape(f: Found, version: nat, w: string, c: Content)
    requires c.Good()
    ensures Replaced(f, ApplyDashboard(Render(version, c), w)) ==
            f.before + Block(version, c.Text(UrlOrDefault(w))) + f.after
  {
    RenderedShape(version, c, w);
    TrimmedBlock(version, c.Text(UrlOrDefault(w)));
  }

  function AppendPrefix(text: string): string {
    var t := TrimRight(text, TrimmedFromFile);
    if t == "" then "" else t + "\n\n"
  }

  lemma AppendedShape(text: string, version: nat, w: string, c: Content)
    requires c.Good()
    ensures Appended(text, ApplyDashboard(Render(version, c), w)) ==
            AppendPrefix(text) + Block(version, c.Text(UrlOrDefault(w))) + "\n"
  {
    RenderedShape(version, c, w);
    var t := TrimRight(text, TrimmedFromFile);
    Assoc(AppendPrefix(text), Block(version, c.Text(UrlOrDefault(w))), "\n");
    assert t == "" ==> t + "" == "";
  }

  /** Where a Sync that writes puts the block. */
  function WrittenBefore(file: File): string {
    match file
    case Missing => ""
    case Present(text) =>
      match FindBlock(text, true)
      case None => AppendPrefix(text)
      case Some(f) => f.before
  }

  function WrittenAfter(file: File): string {
    if file.Present? && FindBlock(file.text, true).Some? then FindBlock(file.text, true).value.after else "\n"
  }

  /** A Sync that writes leaves one rendered block between those two stretches. */
  lemma WrittenShape(file: File, version: nat, url: string, c: Content)
    requires c.Good() && Sync(file, version, url, c).changed
    ensures var b := c.Text(UrlOrDefault(WrittenUrl(file, url)));
      Sync(file, version, url, c).file == Present(WrittenBefore(file) + Block(version, b) + WrittenAfter(file))
  {
    match file
    case Missing =>
      RenderedShape(version, c, url);
      assert "" + Block(version, c.Text(UrlOrDefault(url))) == Block(version, c.Text(UrlOrDefault(url)));
    case Present(text) =>
      match FindBlock(text, true)
      case None => AppendedShape(text, version, url, c);
      case Some(f) => ReplacedShape(f, version, EffectiveUrl(f, url), c);
  }

  lemma WrittenSurroundings(file: File)
    ensures EndTail(WrittenAfter(file)).Some?
    ensures !Unpaired(file) ==> ClearBefore(WrittenBefore(file))
  {
    if file.Present? && FindBlock(file.text, true).Some? {
      MatchSurroundings(file.text);
    } else {
      assert "\n"[1..] == "" && Blank("") && Blank("\n");
      if file.Present? && AppendPrefix(file.text) != "" && !Unpaired(file) {
        ClearAfterNewline(TrimRight(file.text, TrimmedFromFile));
      }
    }
  }

  lemma ClearAfterNewline(t: string)
    requires !HasBeginLine(t, true)
    ensures ClearBefore(t + "\n\n")
  {
    assert (t + "\n\n")[..|t + "\n\n"| - 1] == t + "\n";
    NoBeginLineNewline(t, true);
  }

  lemma {:induction false} NoBeginLineNewline(t: string, bol: bool)
    requires !HasBeginLine(t, bol)
    ensures !HasBeginLine(t + "\n", bol)
  {
    if t == "" {
      assert t + "\n" == "\n" && "\n"[1..] == "";
      assert !(BEGIN <= "\n");
    } else {
      assert (t + "\n")[0] == t[0] && (t + "\n")[1..] == t[1..] + "\n";
      NoBeginLineNewline(t[1..], t[0] == '\n');
      if bol {
        HeaderLocal(t, "\n");
        if Header(t).Some? { SpaceRunLocal(Header(t).value.1, "\n"); }
      }
    }
  }

  /* ---- Sync settles, and says so ---- */

  lemma NoLessThan(s: string)
    requires forall i :: 0 <= i < |s| ==> s[i] != '<'
    ensures !Contains(s, MARK)
  {
    MarkFreeFront(s, "");
    assert s + "" == s;
  }

  lemma UrlOrDefaultPlain(url: string)
    requires PlainUrl(url)
    ensures PlainUrl(UrlOrDefault(url)) && UrlOrDefault(url) != ""
  {
    if url == "" {
      DefaultUrlShape();
      NoLessThan(UrlOrDefault(url));
    }
  }

  /** What a caller must supply: a version `%d` and `\d+` agree on, and a URL
      that fits on the Dashboard line. */
  ghost predicate Admissible(file: File, version: int, url: string, c: Content) {
    && c.Good() && 0 <= version < TWO63
    && PlainUrl(url) && !Contains(WrittenUrl(file, url), MARK)
  }

  lemma WrittenUrlPlain(file: File, version: int, url: string, c: Content)
    requires Admissible(file, version, url, c)
    ensures PlainUrl(WrittenUrl(file, url)) && (url != "" ==> WrittenUrl(file, url) == url)
  {
    if file.Present? && FindBlock(file.text, true).Some? && url == "" {
      InstalledUrlNewlineFree(FindBlock(file.text, true).value.body, true);
    }
  }

  /** A second Sync changes nothing. */
  lemma SyncSettles(file: File, version: int, url: string, c: Content)
    requires Admissible(file, version, url, c) && !Unpaired(file)
    ensures var r := Sync(file, version, url, c); Sync(r.file, version, url, c) == SyncResult(r.file, false)
  {
    if Sync(file, version, url, c).changed {
      WrittenUrlPlain(file, version, url, c);
      var w := UrlOrDefault(WrittenUrl(file, url));
      UrlOrDefaultPlain(WrittenUrl(file, url));
      WrittenShape(file, version, url, c);
      WrittenSurroundings(file);
      WrittenSettles(WrittenBefore(file), version, url, w, c, WrittenAfter(file));
    }
  }

  /* ---- An unpaired marker line keeps Sync from settling ---- */

  lemma HeaderExtends(t: string, x: string)
    requires Header(t).Some?
    ensures Header(t + x) == Some((Header(t).value.0, Header(t).value.1 + x))
  {
    var (d, r) := Header(t).value;
    assert t == BEGIN + (d + (ARROW + r));
    assert t + x == BEGIN + (d + (ARROW + (r + x)));
    HeaderOf(d, r + x);
  }

  /** END can close a match in `g`, a blank line and `rest` only where it could in `g + ws`. */
  lemma EndNotBefore(g: string, ws: string, rest: string)
    requires Blank(ws) && rest != "" && !RegexSpace(rest[0])
    ensures EndsHere(g + ("\n" + ("\n" + rest))) ==> EndsHere(g + ws)
  {
    var y := "\n" + ("\n" + rest);
    if EndsHere(g + y) {
      PrefixLocal(g, y, END);
      var h := g[|END|..];
      assert (g + y)[|END|..] == h + y;
      assert (g + ws)[|END|..] == h + ws;
      if Blank(h) {
        BlankApp(h, ws);
      } else {
        SpaceRunLocal(h, y);
        SpaceRunLocal(h, ws);
      }
    }
  }

  /** A blank line in front of text that does not start with END. */
  lemma SplitTwoNewlines(rest: string)
    requires !EndsHere(rest) && SplitAtEnd(rest).Some?
    ensures SplitAtEnd("\n" + ("\n" + rest)) ==
      Some(SplitAtEnd(rest).value.(text := "\n" + ("\n" + SplitAtEnd(rest).value.text)))
  {
    NewlineNoEnd(rest);
    NewlineNoEnd("\n" + rest);
    SplitStep('\n', rest);
    SplitStep('\n', "\n" + rest);
  }

  lemma SplitNoneTail(g: string, ws: string)
    requires SplitAtEnd(g + ws).None? && g != ""
    ensures SplitAtEnd(g[1..] + ws).None? && !EndsHere(g + ws) && (g[0] == '\n' ==> !EndsHere(g[1..] + ws))
  {
    assert (g + ws)[0] == g[0] && (g + ws)[1..] == g[1..] + ws;
  }

  lemma {:induction false} SplitNoneExtends(g: string, ws: string, rest: string)
    requires SplitAtEnd(g + ws).None? && Blank(ws)
    requires rest != "" && !RegexSpace(rest[0]) && !(END <= rest) && SplitAtEnd(rest).Some?
    ensures SplitAtEnd(g + ("\n" + ("\n" + rest))) ==
            Some(SplitAtEnd(rest).value.(text := g + ("\n" + ("\n" + SplitAtEnd(rest).value.text))))
  {
    var y, b := "\n" + ("\n" + rest), "\n" + ("\n" + SplitAtEnd(rest).value.text);
    if g == "" {
      SplitTwoNewlines(rest);
      assert g + y == y && g + b == b;
    } else {
      SplitNoneTail(g, ws);
      SplitNoneExtends(g[1..], ws, rest);
      EndNotBefore(g, ws, rest);
      EndNotBefore(g[1..], ws, rest);
      assert g + y == [g[0]] + (g[1..] + y);
      SplitStep(g[0], g[1..] + y);
      assert [g[0]] + (g[1..] + b) == g + b;
    }
  }

  lemma StartsNone(a: string, y: string)
    requires NoneStartsIn(a, END, y) && !(END <= y)
    ensures !EndsHere(a + y)
  {
    if a == "" { assert a + y == y; }
  }

  lemma {:induction false} SplitPast(a: string, y: string)
    requires NoneStartsIn(a, END, y) && !(END <= y) && SplitAtEnd(y).Some?
    ensures SplitAtEnd(a + y) == Some(SplitAtEnd(y).value.(text := a + SplitAtEnd(y).value.text))
  {
    var text := SplitAtEnd(y).value.text;
    if a == "" {
      assert a + y == y && a + text == text;
    } else {
      StartsNone(a, y);
      StartsNone(a[1..], y);
      SplitPast(a[1..], y);
      assert a + y == [a[0]] + (a[1..] + y);
      SplitStep(a[0], a[1..] + y);
      assert [a[0]] + (a[1..] + text) == a + text;
    }
  }

  /** A rendered block up to its END marker. */
  function Opened(version: nat, b: string): string { Opening(version) + b }

  lemma NoEndInOpening(version: nat, y: string)
    ensures NoneStartsIn(Opening(version), END, y)
  {
    var m := Opening(version);
    assert m[0] == '<' && forall i :: 1 <= i < |m| ==> m[i] != '<';
    NoneStartsFront(m[1..], "", END, y);
    assert m[1..] + "" == m[1..];
    assert (m + y)[15] == BEGIN[15] != END[15];
  }

  lemma BlockOpened(version: nat, b: string, post: string)
    ensures Block(version, b) + post == Opening(version) + (b + "\n\n" + END + post)
  {}

  lemma SplitOpened(version: nat, b: string, post: string)
    requires !Contains(b, MARK) && EndTail(post).Some?
    ensures SplitAtEnd(Block(version, b) + post) == Some(Body(Opened(version, b) + "\n", EndTail(post).value))
  {
    var y := b + "\n\n" + END + post;
    SplitMarkerFree(b, post);
    NoEndInOpening(version, y);
    BlankLineApart(b, END, post);
    MarkerNotAt(b, "\n" + ("\n" + (END + post)));
    SplitBehind(Opening(version), y, b + "\n", EndTail(post).value);
    BlockOpened(version, b, post);
    Assoc(Opening(version), b, "\n");
  }

  lemma SplitBehind(a: string, y: string, text: string, after: string)
    requires NoneStartsIn(a, END, y) && !(END <= y) && SplitAtEnd(y) == Some(Body(text, after))
    ensures SplitAtEnd(a + y) == Some(Body(a + text, after))
  {
    SplitPast(a, y);
  }

  lemma OpeningFront(version: nat, rest: string)
    ensures Opening(version) + rest != "" && (Opening(version) + rest)[0] == '<' && !(END <= Opening(version) + rest)
    ensures MARK <= Opening(version) + rest
  {
    assert (Opening(version) + rest)[15] == BEGIN[15] != END[15];
  }

  /** Text that a stray marker line in front of it would take for its body. */
  ghost predicate Swallowed(rest: string, k: string) {
    && rest != "" && !RegexSpace(rest[0]) && !(END <= rest)
    && SplitAtEnd(rest) == Some(Body(k, ""))
  }

  ghost predicate LineEnd(z: string) { z == "" || z[|z| - 1] == '\n' }

  /** A line that is no marker line does not become one by what follows it. */
  lemma NotBeginNoParse(t: string, rest: string)
    requires !BeginLine(t) && rest != "" && rest[0] == '\n'
    ensures ParseBlock(t + rest).None?
  {
    HeaderLocal(t, rest);
    if Header(t).Some? { SpaceRunLocal(Header(t).value.1, rest); }
  }

  lemma FindStep(c: char, t: string, bol: bool)
    requires (bol ==> ParseBlock([c] + t).None?) && FindBlock(t, c == '\n').Some?
    ensures var f := FindBlock(t, c == '\n').value;
      FindBlock([c] + t, bol) == Some(f.(before := [c] + f.before))
  {
    assert ([c] + t)[1..] == t;
  }

  lemma FindNoneTail(t: string, ws: string, bol: bool)
    requires t != "" && FindBlock(t + ws, bol).None?
    ensures FindBlock(t[1..] + ws, t[0] == '\n').None? && (bol ==> ParseBlock(t + ws).None?)
  {
    assert (t + ws)[0] == t[0] && (t + ws)[1..] == t[1..] + ws;
  }

  /** A match that a stray marker line of `t` opens, and that runs to the end. */
  ghost predicate OpensAt(f: Option<Found>, t: string, body: string) {
    && f.Some? && f.value.body == body && f.value.after == ""
    && f.value.before <= t && BeginLine(t[|f.value.before|..])
  }

  lemma OpensLater(f: Found, c: char, t: string, body: string)
    requires OpensAt(Some(f), t, body)
    ensures OpensAt(Some(f.(before := [c] + f.before)), [c] + t, body)
  {
    assert ([c] + t)[|f.before| + 1..] == t[|f.before|..];
    assert [c] + f.before <= [c] + t;
  }

  /** A text from its first marker line on. */
  function StrayTail(t: string, bol: bool): string {
    if t == "" || (bol && BeginLine(t)) then t else StrayTail(t[1..], t[0] == '\n')
  }

  lemma {:induction false} StrayStep(t: string, bol: bool)
    requires t != "" && !(bol && BeginLine(t))
    ensures StrayTail(t, bol) == StrayTail(t[1..], t[0] == '\n')
  {
  }

  /** What of a file's own text a stray marker line takes for its body. */
  predicate LeftInside(stray: string, z: string) {
    && Header(stray).Some?
    && var r := Header(stray).value.1;
       if Blank(r) then z == "" else AfterLastNewline(r).Some? && z == AfterLastNewline(r).value + ("\n" + "\n")
  }

  /** The stray line is further on. */
  lemma UnpairedLater(t: string, rest: string, z: string, k: string, bol: bool)
    requires t != "" && !(bol && BeginLine(t)) && rest != "" && rest[0] == '\n'
    requires OpensAt(FindBlock(t[1..] + rest, t[0] == '\n'), t[1..], z + k)
    ensures OpensAt(FindBlock(t + rest, bol), t, z + k)
  {
    var c, tail := t[0], t[1..];
    assert t == [c] + tail;
    Assoc([c], tail, rest);
    if bol { NotBeginNoParse(t, rest); }
    FindStep(c, tail + rest, bol);
    OpensLater(FindBlock(tail + rest, c == '\n').value, c, tail, z + k);
  }

  /** In an appended file the stray marker line opens the match, and its body
      runs on into what was appended. */
  lemma {:induction false} UnpairedFind(t: string, ws: string, rest: string, k: string, bol: bool) returns (z: string)
    requires HasBeginLine(t, bol) && FindBlock(t + ws, bol).None? && Blank(ws) && Swallowed(rest, k)
    ensures OpensAt(FindBlock(t + ("\n" + ("\n" + rest)), bol), t, z + k) && LineEnd(z)
    ensures LeftInside(StrayTail(t, bol), z)
  {
    FindNoneTail(t, ws, bol);
    if bol && BeginLine(t) {
      z := BeginLineBody(t, ws, rest, k);
      assert t[0..] == t;
    } else {
      z := UnpairedFind(t[1..], ws, rest, k, t[0] == '\n');
      UnpairedLater(t, "\n" + ("\n" + rest), z, k, bol);
      StrayStep(t, bol);
    }
  }

  lemma BeginLineBody(t: string, ws: string, rest: string, k: string) returns (z: string)
    requires BeginLine(t) && ParseBlock(t + ws).None? && Blank(ws) && Swallowed(rest, k)
    ensures var f := ParseBlock(t + ("\n" + ("\n" + rest)));
      f.Some? && f.value.before == "" && f.value.body == z + k && f.value.after == ""
    ensures LineEnd(z) && LeftInside(t, z)
  {
    HeaderLocal(t, "\n" + ("\n" + rest));
    HeaderExtends(t, ws);
    z := OpenLineBody(Header(t).value.1, ws, rest, k);
  }

  /** From the end of a stray marker on: its body is what is left of its own file,
      a blank line and what was appended. */
  lemma OpenLineBody(r: string, ws: string, rest: string, k: string) returns (z: string)
    requires AfterLastNewline(r).Some? || Blank(r)
    requires AfterLastNewline(r + ws).Some? ==> SplitAtEnd(AfterLastNewline(r + ws).value).None?
    requires Blank(ws) && Swallowed(rest, k)
    ensures var inner := AfterLastNewline(r + ("\n" + ("\n" + rest)));
      inner.Some? && SplitAtEnd(inner.value) == Some(Body(z + k, ""))
    ensures LineEnd(z)
    ensures if Blank(r) then z == "" else AfterLastNewline(r).Some? && z == AfterLastNewline(r).value + ("\n" + "\n")
  {
    if Blank(r) {
      z := "";
      BlankThenGap(r, rest);
      assert "" + k == k;
    } else {
      var z0 := AfterLastNewline(r).value;
      SpaceRunLocal(r, "\n" + ("\n" + rest));
      SpaceRunLocal(r, ws);
      SplitNoneExtends(z0, ws, rest);
      z := z0 + ("\n" + "\n");
      assert z0 + ("\n" + ("\n" + k)) == z + k;
    }
  }

  lemma BlankThenGap(r: string, rest: string)
    requires Blank(r) && rest != "" && !RegexSpace(rest[0])
    ensures AfterLastNewline(r + ("\n" + ("\n" + rest))) == Some(rest)
  {
    assert Blank("\n") by { assert "\n"[1..] == "" && Blank(""); }
    BlankApp(r, "\n");
    BlankRun(r + "\n", rest);
    assert r + "\n" + "\n" + rest == r + ("\n" + ("\n" + rest));
  }

  lemma AppendedSwallowed(version: nat, b: string)
    requires !Contains(b, MARK)
    ensures Swallowed(Block(version, b) + "\n", Opened(version, b) + "\n")
  {
    assert EndTail("\n") == Some("") by { assert "\n"[1..] == "" && Blank(""); }
    SplitOpened(version, b, "\n");
    BlockOpened(version, b, "\n");
    OpeningFront(version, b + "\n\n" + END + "\n");
  }

  /* ---- A body holding a marker is never current ---- */

  lemma {:induction false} TrimLeftOver(z: string, k: string)
    requires k != "" && !UnicodeSpace(k[0])
    ensures TrimLeft(z + k, UnicodeSpace) == TrimLeft(z, UnicodeSpace) + k
    ensures |TrimLeft(z, UnicodeSpace)| <= |z| && z[|z| - |TrimLeft(z, UnicodeSpace)|..] == TrimLeft(z, UnicodeSpace)
  {
    if z == "" {
      assert z + k == k;
    } else {
      assert (z + k)[0] == z[0] && (z + k)[1..] == z[1..] + k;
      if UnicodeSpace(z[0]) { TrimLeftOver(z[1..], k); }
    }
  }

  lemma {:induction false} CanonFront(p: string, y: string)
    requires NewlineFree(p)
    ensures Canon(p + y, false) == p + Canon(y, false)
  {
    if p == "" {
      assert p + y == y;
    } else {
      assert (p + y)[0] == p[0] && (p + y)[1..] == p[1..] + y;
      CanonFront(p[1..], y);
    }
  }

  lemma CanonKeepsMarker(k: string)
    requires MARK <= k
    ensures Contains(Canon(k, true), MARK)
  {
    assert !(LABEL <= k) by { assert k[0] == MARK[0]; }
    assert Canon(k, true) == Canon(k, false);
    assert k == MARK + k[|MARK|..];
    CanonFront(MARK, k[|MARK|..]);
  }

  lemma {:induction false} ContainsBehind(a: string, s: string, p: string)
    requires Contains(s, p)
    ensures Contains(a + s, p)
  {
    if a == "" {
      assert a + s == s;
    } else {
      ContainsBehind(a[1..], s, p);
      assert (a + s)[1..] == a[1..] + s;
    }
  }

  lemma TrimAround(z: string, k: string)
    requires k != "" && !UnicodeSpace(k[0]) && !UnicodeSpace(k[|k| - 1])
    ensures TrimSpace(z + (k + "\n")) == TrimLeft(z, UnicodeSpace) + k
  {
    var y := TrimLeft(z, UnicodeSpace) + k;
    assert (k + "\n")[0] == k[0];
    TrimLeftOver(z, k + "\n");
    Assoc(TrimLeft(z, UnicodeSpace), k, "\n");
    assert (y + "\n")[..|y|] == y && (y + "\n")[|y|] == '\n';
    assert y[|y| - 1] == k[|k| - 1];
    assert TrimRight(y, UnicodeSpace) == y;
  }

  lemma NormalizeKeeps(z: string, k: string, p: string)
    requires (z == "" || z[|z| - 1] == '\n') && Contains(Canon(k, true), p)
    requires k != "" && !UnicodeSpace(k[0]) && !UnicodeSpace(k[|k| - 1])
    ensures Contains(NormalizeBody(z + (k + "\n")), p)
  {
    TrimAround(z, k);
    TrimLeftOver(z, k);
    CanonLines(TrimLeft(z, UnicodeSpace), k, p);
  }

  /** Normalising a body keeps a marker that starts one of its lines. */
  lemma NormalizeKeepsMarker(z: string, k: string)
    requires z == "" || z[|z| - 1] == '\n'
    requires MARK <= k && !UnicodeSpace(k[|k| - 1])
    ensures Contains(NormalizeBody(z + (k + "\n")), MARK)
  {
    assert k[0] == MARK[0];
    CanonKeepsMarker(k);
    NormalizeKeeps(z, k, MARK);
  }

  lemma CanonLines(z: string, k: string, p: string)
    requires (z == "" || z[|z| - 1] == '\n') && Contains(Canon(k, true), p)
    ensures Contains(Canon(z + k, true), p)
  {
    if z == "" {
      assert z + k == k;
    } else {
      var y := z[..|z| - 1];
      assert z + k == y + ("\n" + k);
      CanonJoin(y, k, true);
      BehindNewline(Canon(y, true), Canon(k, true), p);
    }
  }

  lemma BehindNewline(a: string, s: string, p: string)
    requires Contains(s, p)
    ensures Contains(a + ("\n" + s), p)
  {
    ContainsBehind("\n", s, p);
    ContainsBehind(a, "\n" + s, p);
  }

  lemma WantHasNoMarker(c: Content, u: string, d: string)
    requires c.Good() && u == "<URL>" && NewlineFree(d)
    ensures !Contains(NormalizeBody(c.Text(d)), MARK)
  {
    assert !Contains(u, MARK) by { assert !Contains(u[1..], MARK) by { NoLessThan(u[1..]); } }
    BodyMarkFree(c, u);
    NormalizeRendered(c, d);
  }

  lemma NotCurrentWithMarker(f: Found, z: string, version: nat, b: string, c: Content, v: int)
    requires c.Good() && (z == "" || z[|z| - 1] == '\n')
    requires b != "" && !UnicodeSpace(b[|b| - 1]) && f.body == z + (Opened(version, b) + "\n")
    ensures !Current(f, v, c)
  {
    OpeningFront(version, b);
    NormalizeKeepsMarker(z, Opened(version, b));
    DefaultUrlShape();
    WantHasNoMarker(c, "<URL>", DEFAULT_URL);
  }

  lemma {:induction false} TrimRightBlank(s: string)
    ensures s == TrimRight(s, TrimmedFromFile) + s[|TrimRight(s, TrimmedFromFile)|..]
    ensures Blank(s[|TrimRight(s, TrimmedFromFile)|..])
  {
    AllTrimmedBlank(s[|TrimRight(s, TrimmedFromFile)|..]);
  }

  lemma {:induction false} AllTrimmedBlank(w: string)
    requires forall i :: 0 <= i < |w| ==> TrimmedFromFile(w[i])
    ensures Blank(w)
  {
    if w != "" {
      assert TrimmedFromFile(w[0]);
      AllTrimmedBlank(w[1..]);
    }
  }

  /** What one Sync makes of a file with an unpaired marker line: the next one finds
      that line as the start of the block it replaces. */
  lemma UnpairedThenFound(file: File, version: int, url: string, c: Content) returns (z: string)
    requires Admissible(file, version, url, c) && Unpaired(file)
    ensures LeftInside(StrayTail(TrimRight(file.text, TrimmedFromFile), true), z)
    ensures var r := Sync(file, version, url, c); var t := TrimRight(file.text, TrimmedFromFile);
      && r.changed && r.file.Present? && FindBlock(r.file.text, true).Some?
      && var f := FindBlock(r.file.text, true).value;
         && f.before <= t && BeginLine(t[|f.before|..]) && f.after == "" && !Current(f, version, c)
         && f.body == z + (Opened(version, c.Text(UrlOrDefault(url))) + "\n")
  {
    var t := TrimRight(file.text, TrimmedFromFile);
    var w := UrlOrDefault(url);
    TrimRightBlank(file.text);
    UrlOrDefaultPlain(url);
    BodyMarkFree(c, w);
    var rest := Block(version, c.Text(w)) + "\n";
    AppendedSwallowed(version, c.Text(w));
    z := UnpairedFind(t, file.text[|t|..], rest, Opened(version, c.Text(w)) + "\n", true);
    WrittenShape(file, version, url, c);
    Assoc(t + "\n\n", Block(version, c.Text(w)), "\n");
    var text := t + "\n\n" + rest;
    TwoNewlines(t, rest);
    TextLast(c, w);
    NotCurrentWithMarker(FindBlock(text, true).value, z, version, c.Text(w), c, version);
  }

  /** With an unpaired marker line the second Sync writes again. */
  lemma UnpairedSyncsTwice(file: File, version: int, url: string, c: Content)
    requires Admissible(file, version, url, c) && Unpaired(file)
    ensures var r := Sync(file, version, url, c); r.changed && Sync(r.file, version, url, c).changed
  {
    var z := UnpairedThenFound(file, version, url, c);
  }

  lemma TwoNewlines(t: string, rest: string)
    ensures t + "\n\n" + rest == t + ("\n" + ("\n" + rest))
  {
    assert "\n\n" == "\n" + "\n";
  }

  lemma TextLast(c: Content, w: string)
    requires c.Good()
    ensures c.Text(w) != "" && !UnicodeSpace(c.Text(w)[|c.Text(w)| - 1])
  {
    assert c.Text(w)[|c.Text(w)| - 1] == c.tail[|c.tail| - 1];
  }

  /** Sync settles after one call exactly when no marker line lacks its END. */
  lemma SyncIdempotentIff(file: File, version: int, url: string, c: Content)
    requires Admissible(file, version, url, c)
    ensures var r := Sync(file, version, url, c);
      Sync(r.file, version, url, c) == SyncResult(r.file, false) <==> !Unpaired(file)
  {
    if Unpaired(file) {
      UnpairedSyncsTwice(file, version, url, c);
    } else {
      SyncSettles(file, version, url, c);
    }
  }

  /** `changed` is true exactly when the file differs afterwards. */
  lemma SyncHonest(file: File, version: int, url: string, c: Content)
    requires Admissible(file, version, url, c)
    ensures var r := Sync(file, version, url, c); r.changed <==> r.file != file
  {
    var r := Sync(file, version, url, c);
    if r.changed && r.file == file {
      if Unpaired(file) {
        WrittenShape(file, version, url, c);
        var b := Block(version, c.Text(UrlOrDefault(url)));
        assert |file.text| == |AppendPrefix(file.text) + b + "\n"|;
        AppendGrows(file.text, b);
      } else {
        SyncSettles(file, version, url, c);
      }
    }
  }

  lemma AppendGrows(text: string, b: string)
    requires b != "" && b[|b| - 1] == '>'
    ensures text != AppendPrefix(text) + b + "\n"
  {
    var t := TrimRight(text, TrimmedFromFile);
    var n := AppendPrefix(text) + b + "\n";
    assert n[|n| - 2] == '>';
  }

  /* ---- The other readers agree ---- */

  /** Status says "up to date" exactly when a plain Sync is a no-op. */
  lemma StatusAgreesWithSync(file: File, version: int, c: Content)
    requires Admissible(file, version, "", c)
    ensures Status(file, version, c).upToDate <==> Sync(file, version, "", c).file == file
    ensures Status(file, version, c).present <==> file.Present? && FindBlock(file.text, true).Some?
  {
    SyncHonest(file, version, "", c);
  }

  lemma BlockInjective(pre: string, version: nat, c: Content, u: string, w: string, post: string)
    requires pre + Block(version, c.Text(u)) + post == pre + Block(version, c.Text(w)) + post
    ensures u == w
  {
    var a := Opening(version) + (c.head + "\n" + LABEL);
    var z := c.tail + ("\n\n" + END);
    BlockApart2(version, c, u);
    BlockApart2(version, c, w);
    Cancel(pre + a, u, w, z + post);
    assert pre + (a + u + z) + post == pre + a + u + (z + post);
    assert pre + (a + w + z) + post == pre + a + w + (z + post);
  }

  lemma BlockApart2(version: nat, c: Content, url: string)
    ensures Block(version, c.Text(url)) ==
            (Opening(version) + (c.head + "\n" + LABEL)) + url + (c.tail + ("\n\n" + END))
  {}

  lemma Cancel(a: string, u: string, w: string, z: string)
    ensures a + u + z == a + w + z ==> u == w
  {
    if a + u + z == a + w + z {
      assert |a + u + z| == |a| + |u| + |z| && |a + w + z| == |a| + |w| + |z|;
      assert u == (a + u + z)[|a|..|a| + |u|];
      assert w == (a + w + z)[|a|..|a| + |w|];
    }
  }

  /** DryRun predicts whether Sync writes; it predicts the bytes exactly when no
      custom URL is installed. */
  lemma DryRunAgreesWithSync(file: File, version: int, c: Content)
    requires Admissible(file, version, "", c)
    ensures DryRun(file, version, c).wouldChange == Sync(file, version, "", c).changed
    ensures DryRun(file, version, c).wouldChange ==>
      (Present(DryRun(file, version, c).newText) == Sync(file, version, "", c).file <==>
       UrlOrDefault(WrittenUrl(file, "")) == DEFAULT_URL)
  {
    if DryRun(file, version, c).wouldChange {
      var w := UrlOrDefault(WrittenUrl(file, ""));
      WrittenShape(file, version, "", c);
      DryRunShape(file, version, c);
      if Present(DryRun(file, version, c).newText) == Sync(file, version, "", c).file {
        BlockInjective(WrittenBefore(file), version, c, DEFAULT_URL, w, WrittenAfter(file));
      }
    }
  }

  lemma DryRunShape(file: File, version: nat, c: Content)
    requires c.Good() && DryRun(file, version, c).wouldChange
    ensures DryRun(file, version, c).newText ==
            WrittenBefore(file) + Block(version, c.Text(DEFAULT_URL)) + WrittenAfter(file)
  {
    match file
    case Missing =>
      assert "" + Block(version, c.Text(DEFAULT_URL)) == Block(version, c.Text(DEFAULT_URL));
    case Present(text) =>
      match FindBlock(text, true)
      case None => AppendedShape(text, version, "", c);
      case Some(f) => ReplacedShape(f, version, "", c);
  }

  /* ---- `rules diff` ---- */

  lemma {:induction false} FromFirstPast(a: string, p: string, rest: string)
    requires NoneStartsIn(a, p, rest) && p <= rest
    ensures FromFirst(a + rest, p) == Some(rest)
  {
    if a == "" {
      assert a + rest == rest;
    } else {
      assert (a + rest)[1..] == a[1..] + rest;
      FromFirstPast(a[1..], p, rest);
    }
  }

  lemma UpToStep(c: char, t: string, p: string)
    requires !(p <= [c] + t) && UpToFirst(t, p).Some?
    ensures UpToFirst([c] + t, p) == Some([c] + UpToFirst(t, p).value)
  {
    assert ([c] + t)[1..] == t;
  }

  lemma {:induction false} UpToFirstIn(a: string, p: string, y: string)
    requires p <= y && NoneStartsIn(a, p, y)
    ensures UpToFirst(a + y, p) == Some(a + p)
  {
    if a == "" {
      assert a + y == y && a + p == p;
    } else {
      UpToFirstIn(a[1..], p, y);
      assert a + y == [a[0]] + (a[1..] + y);
      UpToStep(a[0], a[1..] + y, p);
      assert [a[0]] + (a[1..] + p) == a + p;
    }
  }

  lemma UpToFirstPast(a: string, p: string, post: string)
    requires NoneStartsIn(a, p, p + post)
    ensures UpToFirst(a + (p + post), p) == Some(a + p)
  {
    UpToFirstIn(a, p, p + post);
  }

  lemma {:induction false} NoneStartsMarkerFree(b: string, rest: string)
    requires !Contains(b, MARK) && rest != "" && rest[0] == '\n'
    ensures NoneStartsIn(b, END, rest)
  {
    if b != "" {
      MarkerNotAt(b, rest);
      NoneStartsMarkerFree(b[1..], rest);
    }
  }

  lemma {:induction false} NoneStartsChain(a: string, b: string, p: string, rest: string)
    requires NoneStartsIn(a, p, b + rest) && NoneStartsIn(b, p, rest)
    ensures NoneStartsIn(a + b, p, rest)
  {
    if a == "" {
      assert a + b == b;
    } else {
      assert (a + b)[1..] == a[1..] + b && a + b + rest == a + (b + rest);
      NoneStartsChain(a[1..], b, p, rest);
    }
  }

  lemma NoEndInBody(b: string, post: string)
    requires !Contains(b, MARK)
    ensures NoneStartsIn(b + "\n\n", END, END + post)
  {
    var nl := "\n\n";
    NoneStartsMarkerFree(b, nl + (END + post));
    NoneStartsFront(nl, "", END, END + post);
    assert nl + "" == nl;
    NoneStartsChain(b, nl, END, END + post);
  }

  lemma EndFirstInBlock(version: nat, b: string, post: string)
    requires !Contains(b, MARK)
    ensures UpToFirst(Block(version, b) + post, END) == Some(Block(version, b))
  {
    var m := Opening(version);
    var body := b + "\n\n";
    NoEndInBody(b, post);
    NoEndInOpening(version, body + (END + post));
    NoneStartsChain(m, body, END, END + post);
    UpToFirstPast(m + body, END, post);
    BlockEnds(version, b, post);
  }

  lemma BlockEnds(version: nat, b: string, post: string)
    ensures Block(version, b) + post == Opening(version) + (b + "\n\n") + (END + post)
    ensures Block(version, b) == Opening(version) + (b + "\n\n") + END
  {}

  lemma BlockBegins(version: nat, b: string, post: string)
    ensures BEGIN <= Block(version, b) + post && |BEGIN| <= |Block(version, b)|
  {}

  lemma ReadWritten(pre: string, version: nat, b: string, post: string)
    requires !Contains(b, MARK) && NoneStartsIn(pre, BEGIN, Block(version, b) + post)
    ensures ReadBlockOrEmpty(Present(pre + Block(version, b) + post)) == Block(version, b) + "\n"
  {
    Assoc(pre, Block(version, b), post);
    BlockBegins(version, b, post);
    FromFirstPast(pre, BEGIN, Block(version, b) + post);
    EndFirstInBlock(version, b, post);
  }

  /** After a Sync that writes the default URL, `rules diff` reads back exactly the
      rendered block, if no BEGIN text comes before it. */
  lemma DiffReadsRendered(file: File, version: int, url: string, c: Content)
    requires Admissible(file, version, url, c) && Sync(file, version, url, c).changed
    requires UrlOrDefault(WrittenUrl(file, url)) == DEFAULT_URL
    requires NoneStartsIn(WrittenBefore(file), BEGIN, Render(version, c))
    ensures ReadBlockOrEmpty(Sync(file, version, url, c).file) == Render(version, c)
  {
    WrittenShape(file, version, url, c);
    DefaultUrlShape();
    NoLessThan(DEFAULT_URL);
    BodyMarkFree(c, DEFAULT_URL);
    var block := Block(version, c.Text(DEFAULT_URL));
    BeginUnaffected(WrittenBefore(file), block, "\n", WrittenAfter(file));
    ReadWritten(WrittenBefore(file), version, c.Text(DEFAULT_URL), WrittenAfter(file));
  }

  lemma {:induction false} BeginUnaffected(pre: string, block: string, p1: string, p2: string)
    requires |BEGIN| <= |block| && NoneStartsIn(pre, BEGIN, block + p1)
    ensures NoneStartsIn(pre, BEGIN, block + p2)
  {
    if pre != "" {
      BeginUnaffected(pre[1..], block, p1, p2);
      assert (pre + (block + p1))[..|BEGIN|] == (pre + block)[..|BEGIN|] == (pre + (block + p2))[..|BEGIN|];
    }
  }

  /* ---- What replacing keeps ---- */

  /** From the body of a match to its end. */
  function InnerText(f: Found, nl: string, trail: string): string {
    f.body + (nl + (END + (trail + f.after)))
  }

  /** The pattern as a plain decomposition of the text. */
  ghost predicate IsMatch(text: string, f: Found, gap: string, nl: string, trail: string) {
    && text == f.before + (BEGIN + (f.digits + (ARROW + (gap + InnerText(f, nl, trail)))))
    && (f.before == "" || f.before[|f.before| - 1] == '\n')
    && f.digits != "" && (forall i :: 0 <= i < |f.digits| ==> IsDigit(f.digits[i]))
    && Blank(gap) && gap != "" && gap[|gap| - 1] == '\n'
    && (nl == "" || nl == "\n") && Blank(trail)
    && (f.after == "" || f.after[0] == '\n')
  }

  lemma EndShape(s: string) returns (trail: string)
    requires END <= s && EndTail(s[|END|..]).Some?
    ensures var after := EndTail(s[|END|..]).value;
      s == END + (trail + after) && Blank(trail) && (after == "" || after[0] == '\n')
  {
    var r := s[|END|..];
    EndTailShape(r);
    var after := EndTail(r).value;
    trail := r[..|r| - |after|];
    assert r == trail + after && s == END + r;
  }

  lemma {:induction false} SplitShape(s: string) returns (nl: string, trail: string)
    requires SplitAtEnd(s).Some?
    ensures var b := SplitAtEnd(s).value;
      && s == b.text + (nl + (END + (trail + b.after)))
      && (nl == "" || nl == "\n") && Blank(trail) && (b.after == "" || b.after[0] == '\n')
  {
    if END <= s && EndTail(s[|END|..]).Some? {
      nl := "";
      trail := EndShape(s);
    } else if s[0] == '\n' && END <= s[1..] && EndTail(s[1..][|END|..]).Some? {
      nl := "\n";
      trail := EndShape(s[1..]);
      assert s == "\n" + s[1..];
    } else {
      nl, trail := SplitShape(s[1..]);
      assert s == [s[0]] + s[1..];
      Assoc([s[0]], SplitAtEnd(s[1..]).value.text, nl + (END + (trail + SplitAtEnd(s[1..]).value.after)));
    }
  }

  lemma {:induction false} AfterLastNewlineEnds(s: string)
    requires AfterLastNewline(s).Some?
    ensures var r := AfterLastNewline(s).value; |r| < |s| && s[|s| - |r| - 1] == '\n'
  {
    if AfterLastNewline(s[1..]).Some? { AfterLastNewlineEnds(s[1..]); }
  }

  lemma HeaderShape(x: string)
    requires Header(x).Some?
    ensures x == BEGIN + (Header(x).value.0 + (ARROW + Header(x).value.1))
    ensures Header(x).value.0 != "" && forall i :: 0 <= i < |Header(x).value.0| ==> IsDigit(Header(x).value.0[i])
  {}

  lemma ParseIsMatch(x: string) returns (gap: string, nl: string, trail: string)
    requires ParseBlock(x).Some?
    ensures var f := ParseBlock(x).value;
      && x == BEGIN + (f.digits + (ARROW + (gap + InnerText(f, nl, trail))))
      && Blank(gap) && gap != "" && gap[|gap| - 1] == '\n'
      && (nl == "" || nl == "\n") && Blank(trail)
      && (f.after == "" || f.after[0] == '\n')
  {
    HeaderShape(x);
    var rest := Header(x).value.1;
    gap := GapOf(rest);
    nl, trail := SplitShape(AfterLastNewline(rest).value);
  }

  lemma GapOf(rest: string) returns (gap: string)
    requires AfterLastNewline(rest).Some?
    ensures rest == gap + AfterLastNewline(rest).value && Blank(gap) && gap != "" && gap[|gap| - 1] == '\n'
  {
    var inner := AfterLastNewline(rest).value;
    AfterLastNewlineShape(rest);
    AfterLastNewlineEnds(rest);
    gap := rest[..|rest| - |inner|];
  }

  /** A match splits the text as the pattern says, so that replacing it keeps every
      byte before the block and, after END, everything past the spaces it swallows. */
  lemma FoundIsMatch(text: string) returns (gap: string, nl: string, trail: string)
    requires FindBlock(text, true).Some?
    ensures IsMatch(text, FindBlock(text, true).value, gap, nl, trail)
  {
    var f := FindBlock(text, true).value;
    var x := FoundParts(text, f);
    HeaderShape(x);
    gap, nl, trail := ParseIsMatch(x);
  }

  lemma {:induction false} GreedyGap(gap: string, inner: string) returns (y: string)
    requires Blank(gap) && gap != "" && gap[|gap| - 1] == '\n'
    ensures AfterLastNewline(gap + inner).Some?
    ensures |y| <= |inner| && AfterLastNewline(gap + inner).value == inner[|y|..] && y == inner[..|y|] && Blank(y)
  {
    var s := gap + inner;
    assert s[0] == gap[0] && s[1..] == gap[1..] + inner;
    if |gap| == 1 {
      assert gap[1..] + inner == inner;
      if AfterLastNewline(inner).Some? {
        AfterLastNewlineShape(inner);
        y := inner[..|inner| - |AfterLastNewline(inner).value|];
      } else {
        y := "";
      }
    } else {
      y := GreedyGap(gap[1..], inner);
    }
  }

  lemma EndTailAfter(trail: string, after: string)
    requires Blank(trail) && (after == "" || after[0] == '\n')
    ensures EndTail(trail + after).Some?
  {
    BlankApp(trail, after);
    if after != "" && !Blank(after) { NewlineInRun(trail, after); }
  }

  lemma {:induction false} NewlineInRun(p: string, after: string)
    requires Blank(p) && after != "" && after[0] == '\n'
    ensures FromLastNewline(p + after).Some?
  {
    if p == "" {
      assert p + after == after;
    } else {
      assert (p + after)[0] == p[0] && (p + after)[1..] == p[1..] + after;
      NewlineInRun(p[1..], after);
    }
  }

  /** The greedy gap never runs past the END marker. */
  lemma BlankStopsAtEnd(a: string, e: string, y: string)
    requires e != "" && e[0] == '<' && y <= a + e && Blank(y)
    ensures |y| <= |a|
  {
    if |y| > |a| {
      assert y[|a|] == (a + e)[|a|] == '<';
      NotBlankAt(y, |a|);
    }
  }

  lemma {:induction false} NotBlankAt(y: string, k: nat)
    requires k < |y| && !RegexSpace(y[k])
    ensures !Blank(y)
  {
    if RegexSpace(y[0]) { NotBlankAt(y[1..], k - 1); }
  }

  /** Past any gap in front of it, a text that holds END still splits. */
  lemma GapSplits(gap: string, a: string, e: string)
    requires Blank(gap) && gap != "" && gap[|gap| - 1] == '\n'
    requires e != "" && e[0] == '<' && EndsHere(e)
    ensures var inner := AfterLastNewline(gap + (a + e)); inner.Some? && SplitAtEnd(inner.value).Some?
  {
    var y := GreedyGap(gap, a + e);
    BlankStopsAtEnd(a, e, y);
    assert (a + e)[|y|..] == a[|y|..] + e;
    SplitMonotone(a[|y|..], e);
  }

  lemma InnerSplits(f: Found, gap: string, nl: string, trail: string)
    requires Blank(gap) && gap != "" && gap[|gap| - 1] == '\n' && Blank(trail) && (f.after == "" || f.after[0] == '\n')
    ensures var inner := AfterLastNewline(gap + InnerText(f, nl, trail)); inner.Some? && SplitAtEnd(inner.value).Some?
  {
    var e := END + (trail + f.after);
    EndTailAfter(trail, f.after);
    EndsAt(trail + f.after);
    Assoc(f.body, nl, e);
    GapSplits(gap, f.body + nl, e);
  }

  /** No match of the pattern starts before the one that is found. */
  lemma MatchIsFound(text: string, f: Found, gap: string, nl: string, trail: string)
    requires IsMatch(text, f, gap, nl, trail)
    ensures FindBlock(text, true).Some? && |FindBlock(text, true).value.before| <= |f.before|
  {
    var x := BEGIN + (f.digits + (ARROW + (gap + InnerText(f, nl, trail))));
    HeaderOf(f.digits, gap + InnerText(f, nl, trail));
    InnerSplits(f, gap, nl, trail);
    FindAtOrBefore(f.before, x, true);
  }

  lemma {:induction false} FindAtOrBefore(before: string, x: string, bol: bool)
    requires ParseBlock(x).Some? && (if before == "" then bol else before[|before| - 1] == '\n')
    ensures FindBlock(before + x, bol).Some? && |FindBlock(before + x, bol).value.before| <= |before|
  {
    if before == "" {
      assert before + x == x;
    } else {
      var s := before + x;
      assert s[0] == before[0] && s[1..] == before[1..] + x;
      FindAtOrBefore(before[1..], x, before[0] == '\n');
    }
  }

  /** The split stops at the first place it can. */
  lemma {:induction false} SplitMinimal(a: string, nl: string, e: string)
    requires EndsHere(e) && (nl == "" || nl == "\n")
    ensures SplitAtEnd(a + (nl + e)).Some? && |SplitAtEnd(a + (nl + e)).value.text| <= |a|
  {
    var s := a + (nl + e);
    if a == "" {
      assert s == nl + e;
      if nl == "\n" { assert s[1..] == e; } else { assert nl + e == e; }
    } else {
      SplitMinimal(a[1..], nl, e);
      assert s[1..] == a[1..] + (nl + e);
    }
  }

  lemma GapMinimal(gap: string, a: string, nl: string, e: string)
    requires Blank(gap) && gap != "" && gap[|gap| - 1] == '\n'
    requires e != "" && e[0] == '<' && EndsHere(e) && (nl == "" || nl == "\n")
    ensures var inner := AfterLastNewline(gap + (a + (nl + e)));
      inner.Some? && SplitAtEnd(inner.value).Some? && |SplitAtEnd(inner.value).value.text| <= |a|
  {
    var y := GreedyGap(gap, a + (nl + e));
    Assoc(a, nl, e);
    BlankStopsAtEnd(a + nl, e, y);
    if |y| <= |a| {
      assert (a + (nl + e))[|y|..] == a[|y|..] + (nl + e);
      SplitMinimal(a[|y|..], nl, e);
    } else {
      assert (a + (nl + e))[|y|..] == e;
    }
  }

  lemma ParseMinimal(x: string, f: Found, gap: string, nl: string, trail: string)
    requires x == BEGIN + (f.digits + (ARROW + (gap + InnerText(f, nl, trail))))
    requires f.digits != "" && (forall i :: 0 <= i < |f.digits| ==> IsDigit(f.digits[i]))
    requires Blank(gap) && gap != "" && gap[|gap| - 1] == '\n' && (nl == "" || nl == "\n")
    requires Blank(trail) && (f.after == "" || f.after[0] == '\n')
    ensures ParseBlock(x).Some? && |ParseBlock(x).value.body| <= |f.body|
  {
    EndTailAfter(trail, f.after);
    EndsAt(trail + f.after);
    GapMinimal(gap, f.body, nl, END + (trail + f.after));
    HeaderOf(f.digits, gap + InnerText(f, nl, trail));
  }

  /** The body is lazy: of all the ways the pattern matches at the place of the block
      that is found, none has a shorter body. */
  lemma BodyIsShortest(text: string, f: Found, gap: string, nl: string, trail: string)
    requires IsMatch(text, f, gap, nl, trail) && FindBlock(text, true).Some?
    requires FindBlock(text, true).value.before == f.before
    ensures |FindBlock(text, true).value.body| <= |f.body|
  {
    var found := FindBlock(text, true).value;
    var x := FoundParts(text, found);
    var y := BEGIN + (f.digits + (ARROW + (gap + InnerText(f, nl, trail))));
    assert (f.before + x)[|f.before|..] == x && (f.before + y)[|f.before|..] == y;
    ParseMinimal(x, f, gap, nl, trail);
  }

  /** A Sync over an existing block swaps the match for the rendered block and
      keeps the text on both sides of it. */
  lemma SyncKeepsSurroundings(text: string, version: int, url: string, c: Content)
    returns (gap: string, nl: string, trail: string)
    requires Admissible(Present(text), version, url, c)
    requires FindBlock(text, true).Some? && Sync(Present(text), version, url, c).changed
    ensures var f := FindBlock(text, true).value;
      && IsMatch(text, f, gap, nl, trail)
      && Sync(Present(text), version, url, c).file ==
         Present(f.before + Block(version, c.Text(UrlOrDefault(EffectiveUrl(f, url)))) + f.after)
  {
    gap, nl, trail := FoundIsMatch(text);
    WrittenShape(Present(text), version, url, c);
  }

  /* ---- When a requested URL is enforced ---- */

  lemma {:induction false} ContainsPrefix(s: string, p: string, q: string)
    requires Contains(s, p + q)
    ensures Contains(s, p)
  {
    if p + q <= s {
      assert (p + q)[..|p|] == p;
    } else {
      ContainsPrefix(s[1..], p, q);
    }
  }

  lemma {:induction false} NotContainsJoin(a: string, b: string, lit: string)
    requires NewlineFree(lit) && !Contains(a, lit) && !Contains(b, lit) && b != "" && b[0] == '\n'
    ensures !Contains(a + b, lit)
  {
    if a == "" {
      assert a + b == b;
    } else {
      NotContainsJoin(a[1..], b, lit);
      assert (a + b)[1..] == a[1..] + b;
      if lit <= a + b { PrefixLocal(a, b, lit); }
    }
  }

  lemma {:induction false} NotContainsFront(a: string, rest: string, p: string)
    requires NoneStartsIn(a, p, rest) && !Contains(rest, p)
    ensures !Contains(a + rest, p)
  {
    if a == "" {
      assert a + rest == rest;
    } else {
      NotContainsFront(a[1..], rest, p);
      assert (a + rest)[1..] == a[1..] + rest;
    }
  }

  lemma {:induction false} NoneStartsForall(a: string, p: string, rest: string)
    requires forall k :: 0 <= k < |a| ==> !(p <= a[k..] + rest)
    ensures NoneStartsIn(a, p, rest)
  {
    if a != "" {
      assert a[0..] == a;
      forall k | 0 <= k < |a[1..]| ensures !(p <= a[1..][k..] + rest) {
        assert a[1..][k..] == a[k + 1..];
      }
      NoneStartsForall(a[1..], p, rest);
    }
  }

  lemma LabelOverlapsNothing(rest: string)
    ensures NoneStartsIn(LABEL[1..], LABEL, rest)
  {
    var a := LABEL[1..];
    forall k | 0 <= k < |a| ensures !(LABEL <= a[k..] + rest) {
      var s := a[k..] + rest;
      assert s[0] == LABEL[k + 1];
      if |s| >= 3 { assert !(s[0] == LABEL[0] && s[1] == LABEL[1] && s[2] == LABEL[2]); }
    }
    NoneStartsForall(a, LABEL, rest);
  }

  lemma LineStartsIff(u: string, w: string, end: string)
    requires NewlineFree(u) && end != "" && end[0] == '\n'
    ensures LABEL + u <= LABEL + (w + end) <==> u <= w
  {
    var s := LABEL + (w + end);
    assert s[|LABEL|..] == w + end;
    if LABEL + u <= s {
      assert u <= w + end;
      PrefixLocal(w, end, u);
    }
    if u <= w { assert w + end == u + (w[|u|..] + end); }
  }

  lemma LineHoldsOneLabel(u: string, rest: string)
    requires !Contains(rest, LABEL)
    ensures !Contains((LABEL + rest)[1..], LABEL + u)
  {
    LabelOverlapsNothing(rest);
    NotContainsFront(LABEL[1..], rest, LABEL);
    assert (LABEL + rest)[1..] == LABEL[1..] + rest;
    if Contains(LABEL[1..] + rest, LABEL + u) { ContainsPrefix(LABEL[1..] + rest, LABEL, u); }
  }

  lemma LineContainsIff(u: string, w: string, end: string)
    requires NewlineFree(u) && NewlineFree(w) && !Contains(w, LABEL) && !Contains(end, LABEL)
    requires end != "" && end[0] == '\n'
    ensures Contains(LABEL + (w + end), LABEL + u) <==> u <= w
  {
    NotContainsJoin(w, end, LABEL);
    LineStartsIff(u, w, end);
    LineHoldsOneLabel(u, w + end);
  }

  lemma TextContainsIff(c: Content, u: string, w: string)
    requires c.Good() && NewlineFree(u) && NewlineFree(w) && !Contains(w, LABEL)
    ensures Contains(c.Text(w) + "\n", LABEL + u) <==> u <= w
  {
    var end := c.tail + "\n";
    var line := LABEL + (w + end);
    assert !Contains("\n", LABEL) by { assert "\n"[1..] == ""; }
    NotContainsJoin(c.tail, "\n", LABEL);
    LineContainsIff(u, w, end);
    LineApart(c, w);
    assert c.Text(w) + "\n" == c.head + ("\n" + line);
    if Contains(line, LABEL + u) {
      ContainsBehind("\n", line, LABEL + u);
      ContainsBehind(c.head, "\n" + line, LABEL + u);
    } else {
      if Contains(c.head, LABEL + u) { ContainsPrefix(c.head, LABEL, u); }
      assert ("\n" + line)[1..] == line;
      NotContainsJoin(c.head, "\n" + line, LABEL + u);
    }
  }

  /** A current block whose Dashboard line shows `w` is rewritten to a requested
      URL `u` exactly when `u` is not a prefix of `w`. A different `u` that is a
      prefix (port 3333 against an installed port 33330) is therefore never written. */
  lemma UrlEnforcedIff(pre: string, version: int, w: string, u: string, c: Content, post: string)
    requires c.Good() && 0 <= version < TWO63 && ClearBefore(pre) && EndTail(post).Some?
    requires PlainUrl(w) && w != "" && !Contains(w, LABEL) && PlainUrl(u) && u != ""
    ensures var file := Present(pre + Block(version, c.Text(w)) + post);
      Sync(file, version, u, c).changed <==> !(u <= w)
  {
    var text := pre + Block(version, c.Text(w)) + post;
    TextEnds(c, w);
    BodyMarkFree(c, w);
    WrittenIsFound(pre, version, c.Text(w), post);
    WrittenIsCurrent(FindBlock(text, true).value, version, w, c);
    TextContainsIff(c, u, w);
  }

  lemma {:induction false} FindNeedsBegin(s: string, bol: bool)
    requires NoneStartsIn(s, BEGIN, "")
    ensures FindBlock(s, bol).None?
  {
    if s != "" {
      assert s + "" == s;
      FindNeedsBegin(s[1..], s[0] == '\n');
    }
  }

  lemma {:induction false} NoBeginInMarkerFree(b: string, rest: string)
    requires !Contains(b, MARK) && rest != "" && rest[0] == '\n'
    ensures NoneStartsIn(b, BEGIN, rest)
  {
    if b != "" {
      assert BEGIN[..|MARK|] == MARK;
      if BEGIN <= b + rest { PrefixLocal(b, rest, BEGIN); }
      NoBeginInMarkerFree(b[1..], rest);
    }
  }

  lemma NoBeginInClosing(rest: string)
    requires rest == "\n\n" + END + "\n"
    ensures NoneStartsIn(rest, BEGIN, "")
  {
    forall k | 0 <= k < |rest| ensures !(BEGIN <= rest[k..] + "") {
      var s := rest[k..] + "";
      assert s[0] == rest[k] && (k != 2 ==> s[0] != BEGIN[0]);
      if k == 2 { assert s[15] == END[15] != BEGIN[15]; }
    }
    NoneStartsForall(rest, BEGIN, "");
  }

  /** Between the markers' first characters no other BEGIN marker starts. */
  lemma NoSecondBegin(m: string, b: string, rest: string)
    requires (forall i :: 0 <= i < |m| ==> m[i] != '<') && !Contains(b, MARK) && rest == "\n\n" + END + "\n"
    ensures NoneStartsIn(m + (b + rest), BEGIN, "")
  {
    NoBeginInClosing(rest);
    assert rest + "" == rest;
    NoBeginInMarkerFree(b, rest + "");
    NoneStartsChain(b, rest, BEGIN, "");
    NoneStartsFront(m, b + rest, BEGIN, "");
  }

  /** Every copy of the BEGIN text is followed by a minus sign. */
  predicate OnlyNegative(s: string) {
    s == "" || ((BEGIN <= s ==> |s| > |BEGIN| && s[|BEGIN|] == '-') && OnlyNegative(s[1..]))
  }

  lemma {:induction false} NegativeUnfound(s: string, bol: bool)
    requires OnlyNegative(s)
    ensures FindBlock(s, bol).None?
  {
    if s != "" {
      NegativeUnfound(s[1..], s[0] == '\n');
      if BEGIN <= s { NegativeHeader(s); }
    }
  }

  lemma {:induction false} NegativeJoin(a: string, b: string)
    requires OnlyNegative(a) && OnlyNegative(b) && b != "" && b[0] == '\n'
    ensures OnlyNegative(a + b)
  {
    if a == "" {
      assert a + b == b;
    } else {
      NegativeJoin(a[1..], b);
      assert (a + b)[1..] == a[1..] + b;
      if BEGIN <= a + b {
        PrefixLocal(a, b, BEGIN);
        assert (a + b)[|BEGIN|] == a[|BEGIN|];
      }
    }
  }

  lemma {:induction false} NegativePrefix(s: string, n: nat)
    requires OnlyNegative(s) && n < |s| && s[n] == '\n'
    ensures OnlyNegative(s[..n])
    decreases n
  {
    if n > 0 {
      NegativePrefix(s[1..], n - 1);
      assert s[..n][1..] == s[1..][..n - 1];
      if BEGIN <= s[..n] {
        assert BEGIN <= s;
        assert s[|BEGIN|] == '-' && |BEGIN| <= n;
      }
    }
  }

  lemma {:induction false} NoBeginNegative(s: string)
    requires NoneStartsIn(s, BEGIN, "")
    ensures OnlyNegative(s)
  {
    if s != "" {
      NoBeginNegative(s[1..]);
      assert s + "" == s;
    }
  }

  lemma NegativeBlock(version: int, b: string)
    requires version < 0 && !Contains(b, MARK)
    ensures OnlyNegative(Block(version, b) + "\n")
  {
    var t := NegativeTail(version, b);
    NegativeHead(version);
    NoSecondBegin(BEGIN[1..] + DecimalInt(version) + ARROW + "\n\n", b, "\n\n" + END + "\n");
    NoBeginNegative(t);
    NegativeApart(version, b);
    MinusAt(version, b + ("\n\n" + END + "\n"));
    NegativeCons(t);
  }

  lemma NegativeCons(t: string)
    requires OnlyNegative(t) && |"<" + t| > |BEGIN| && ("<" + t)[|BEGIN|] == '-'
    ensures OnlyNegative("<" + t)
  {
    assert ("<" + t)[1..] == t;
  }

  /** A file and what each further Sync makes of it. */
  ghost predicate Syncs(files: seq<File>, version: int, url: string, c: Content) {
    forall i :: 0 <= i < |files| - 1 ==> files[i + 1] == Sync(files[i], version, url, c).file
  }

  /** A file that Syncs of a negative version have been appended to. */
  predicate Piled(text: string, version: int, b: string) {
    OnlyNegative(text) && EndsIn(text, Block(version, b) + "\n")
  }

  predicate EndsIn(s: string, t: string) { |s| >= |t| && s[|s| - |t|..] == t }

  lemma EndsAppend(front: string, t: string)
    ensures EndsIn(front + t, t)
  {
  }

  lemma PileTrim(front: string, block: string)
    requires block != "" && block[|block| - 1] == '>'
    ensures TrimRight(front + block + "\n", TrimmedFromFile) == front + block
  {
    var s := front + block;
    assert (s + "\n")[..|s|] == s && s[|s| - 1] == '>';
    assert TrimRight(s, TrimmedFromFile) == s;
  }

  lemma BlockLast(version: int, b: string)
    ensures Block(version, b) != "" && Block(version, b)[|Block(version, b)| - 1] == '>'
  {
    var a := BEGIN + DecimalInt(version) + ARROW + "\n\n" + b + "\n\n";
    assert Block(version, b) == a + END;
  }

  lemma PileGrows(text: string, version: int, b: string)
    requires version < 0 && !Contains(b, MARK) && Piled(text, version, b)
    ensures var next := Appended(text, Block(version, b) + "\n");
      Piled(next, version, b) && |next| > |text| && FindBlock(text, true).None?
  {
    NegativeUnfound(text, true);
    var block := Block(version, b) + "\n";
    var front := text[..|text| - |block|];
    assert text == front + block;
    Assoc(front, Block(version, b), "\n");
    BlockLast(version, b);
    var s := front + Block(version, b);
    PileTrim(front, Block(version, b));
    NegativePrefix(text, |s|);
    assert text[..|s|] == s;
    NegativeBlock(version, b);
    PileJoin(s, block);
    EndsAppend(s + "\n\n", block);
  }

  lemma PileJoin(s: string, block: string)
    requires OnlyNegative(s) && OnlyNegative(block)
    ensures OnlyNegative(s + "\n\n" + block)
  {
    var gap := "\n" + ("\n" + block);
    NegativeNewline(block);
    NegativeNewline("\n" + block);
    NegativeJoin(s, gap);
    TwoNewlines(s, block);
  }

  lemma NegativeNewline(t: string)
    requires OnlyNegative(t)
    ensures OnlyNegative("\n" + t)
  {
    assert ("\n" + t)[1..] == t && ("\n" + t)[0] != BEGIN[0];
  }

  predicate PiledFile(file: File, version: int, c: Content) {
    file.Present? && Piled(file.text, version, c.Text(DEFAULT_URL))
  }

  lemma PiledSync(file: File, version: int, c: Content)
    requires c.Good() && version < 0 && PiledFile(file, version, c)
    ensures var r := Sync(file, version, "", c); r.changed && r.file != file && PiledFile(r.file, version, c)
  {
    DefaultUrlShape();
    NoLessThan(DEFAULT_URL);
    BodyMarkFree(c, DEFAULT_URL);
    PileGrows(file.text, version, c.Text(DEFAULT_URL));
  }

  lemma FirstPile(version: int, c: Content)
    requires c.Good() && version < 0
    ensures PiledFile(Sync(Missing, version, "", c).file, version, c)
  {
    var b := c.Text(DEFAULT_URL);
    DefaultUrlShape();
    NoLessThan(DEFAULT_URL);
    BodyMarkFree(c, DEFAULT_URL);
    NegativeBlock(version, b);
  }

  lemma {:induction false} StillPiled(files: seq<File>, version: int, c: Content, n: nat)
    requires c.Good() && version < 0 && Syncs(files, version, "", c) && 0 < n < |files| && files[0] == Missing
    ensures PiledFile(files[n], version, c)
    decreases n
  {
    if n == 1 {
      FirstPile(version, c);
    } else {
      StillPiled(files, version, c, n - 1);
      PiledSync(files[n - 1], version, c);
    }
    assert files[n] == Sync(files[n - 1], version, "", c).file;
  }

  /** A negative version prints as `v-1`, which the pattern does not read back: into a
      fresh file every Sync, however many came before, appends one more block. */
  lemma NegativeNeverSettles(files: seq<File>, version: int, c: Content, n: nat)
    requires c.Good() && version < 0 && Syncs(files, version, "", c) && n < |files| && files[0] == Missing
    ensures Sync(files[n], version, "", c).changed && Sync(files[n], version, "", c).file != files[n]
  {
    if n > 0 {
      StillPiled(files, version, c, n);
      PiledSync(files[n], version, c);
    }
  }

  lemma NegativeHeader(s: string)
    requires |s| > |BEGIN| && s[|BEGIN|] == '-'
    ensures ParseBlock(s).None?
  {
    assert s[|BEGIN|..][0] == '-';
  }

  /** What follows the first character of a block with a negative version. */
  function NegativeTail(version: int, b: string): string {
    (BEGIN[1..] + DecimalInt(version) + ARROW + "\n\n") + (b + ("\n\n" + END + "\n"))
  }

  lemma NegativeHead(version: int)
    requires version < 0
    ensures var m := BEGIN[1..] + DecimalInt(version) + ARROW + "\n\n"; forall i :: 0 <= i < |m| ==> m[i] != '<'
  {
    var d := DecimalInt(version);
    assert d == "-" + Decimal(-version);
    assert forall i :: 0 <= i < |d| ==> d[i] != '<';
    assert forall i :: 0 <= i < |BEGIN[1..]| ==> BEGIN[1..][i] != '<';
  }

  lemma MinusAt(version: int, rest: string)
    requires version < 0
    ensures var s := "<" + ((BEGIN[1..] + DecimalInt(version) + ARROW + "\n\n") + rest);
      |s| > |BEGIN| && s[|BEGIN|] == '-'
  {
    var h, d := BEGIN[1..], DecimalInt(version);
    assert d[0] == '-';
    assert (h + d + ARROW + "\n\n")[|h|] == d[0];
  }

  lemma NegativeApart(version: int, b: string)
    ensures Block(version, b) + "\n" == "<" + NegativeTail(version, b)
  {
    assert BEGIN == "<" + BEGIN[1..];
    PiecesApart("<", BEGIN[1..], DecimalInt(version), ARROW, "\n\n", b, END, "\n");
  }

  lemma PiecesApart(c: string, h: string, d: string, a: string, g: string, b: string, e: string, n: string)
    ensures (c + h) + d + a + g + b + g + e + n == c + ((h + d + a + g) + (b + (g + e + n)))
  {
    Assoc(c, h, d);
    Assoc(c, h + d, a);
    Assoc(c, h + d + a, g);
    var m := h + d + a + g;
    Assoc(c + m + b, g, e);
    Assoc(c + m + b, g + e, n);
    Assoc(c + m, b, g + e + n);
    Assoc(c, m, b + (g + e + n));
  }
}
