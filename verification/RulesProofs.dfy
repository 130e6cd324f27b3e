/** Finding a block that was written, and what Sync, Status, DryRun and
    `rules diff` agree on. */
module RulesProofs {
  import opened Text
  import opened RulesBlock

  /* ---- Newline-free literals stay on one side of a newline ---- */

  ghost predicate NewlineFree(s: string) { forall i :: 0 <= i < |s| ==> s[i] != '\n' }

  /** A newline-free literal cannot reach across a newline. */
  lemma PrefixLocal(p: string, rest: string, lit: string)
    requires NewlineFree(lit) && rest != "" && rest[0] == '\n' && lit <= p + rest
    ensures lit <= p
  {
    assert (p + rest)[|p|] == '\n';
    assert forall i :: 0 <= i < |lit| ==> lit[i] == (p + rest)[i];
    assert (p + rest)[..|lit|] == p[..|lit|];
  }

  lemma {:induction false} TakeDigitsApp(d: string, rest: string)
    requires forall i :: 0 <= i < |d| ==> IsDigit(d[i])
    requires rest == "" || !IsDigit(rest[0])
    ensures TakeDigits(d + rest) == d
  {
    if d == "" {
      assert d + rest == rest;
    } else {
      assert (d + rest)[1..] == d[1..] + rest;
      TakeDigitsApp(d[1..], rest);
    }
  }

  lemma {:induction false} TakeDigitsLocal(p: string, rest: string)
    requires rest != "" && rest[0] == '\n'
    ensures TakeDigits(p + rest) == TakeDigits(p)
  {
    if p == "" {
      assert p + rest == rest;
    } else if IsDigit(p[0]) {
      assert (p + rest)[1..] == p[1..] + rest;
      TakeDigitsLocal(p[1..], rest);
    } else {
      assert (p + rest)[0] == p[0];
    }
  }

  /** A marker line followed by a newline is the same marker line before it. */
  lemma HeaderLocal(p: string, rest: string)
    requires rest != "" && rest[0] == '\n'
    ensures Header(p + rest).Some? <==> Header(p).Some?
    ensures Header(p).Some? ==> Header(p + rest) == Some((Header(p).value.0, Header(p).value.1 + rest))
  {
    if BEGIN <= p + rest { PrefixLocal(p, rest, BEGIN); }
    if BEGIN <= p {
      assert (p + rest)[..|BEGIN|] == p[..|BEGIN|];
      var r := p[|BEGIN|..];
      assert (p + rest)[|BEGIN|..] == r + rest;
      TakeDigitsLocal(r, rest);
      var d := TakeDigits(r);
      assert (r + rest)[|d|..] == r[|d|..] + rest;
      if ARROW <= r[|d|..] + rest { PrefixLocal(r[|d|..], rest, ARROW); }
      if ARROW <= r[|d|..] {
        assert (r[|d|..] + rest)[..|ARROW|] == r[|d|..][..|ARROW|];
        assert (r[|d|..] + rest)[|ARROW|..] == r[|d|..][|ARROW|..] + rest;
      }
    }
  }

  /* ---- Space runs ---- */

  lemma {:induction false} SpaceRunLocal(p: string, rest: string)
    requires !Blank(p)
    ensures AfterLastNewline(p).Some? ==> AfterLastNewline(p + rest) == Some(AfterLastNewline(p).value + rest)
    ensures AfterLastNewline(p).None? ==> AfterLastNewline(p + rest).None?
    ensures FromLastNewline(p).Some? ==> FromLastNewline(p + rest) == Some(FromLastNewline(p).value + rest)
    ensures FromLastNewline(p).None? ==> FromLastNewline(p + rest).None?
    ensures !Blank(p + rest)
  {
    assert p != "";
    assert (p + rest)[0] == p[0] && (p + rest)[1..] == p[1..] + rest;
    if RegexSpace(p[0]) { SpaceRunLocal(p[1..], rest); }
  }

  /** A blank stretch that ends in a newline is swallowed whole. */
  lemma {:induction false} BlankRun(p: string, rest: string)
    requires Blank(p) && rest != "" && !RegexSpace(rest[0])
    ensures AfterLastNewline(p + "\n" + rest) == Some(rest)
    ensures FromLastNewline(p + "\n" + rest) == Some("\n" + rest)
    ensures !Blank(p + "\n" + rest)
  {
    var s := p + "\n" + rest;
    if p == "" {
      assert s == "\n" + rest && s[1..] == rest;
      assert !Blank(rest);
    } else {
      assert s[0] == p[0] && s[1..] == p[1..] + "\n" + rest;
      BlankRun(p[1..], rest);
    }
  }

  lemma {:induction false} BlankApp(p: string, q: string)
    requires Blank(p)
    ensures Blank(p + q) <==> Blank(q)
  {
    if p == "" {
      assert p + q == q;
    } else {
      assert (p + q)[0] == p[0] && (p + q)[1..] == p[1..] + q;
      BlankApp(p[1..], q);
    }
  }

  /** What follows END never loses more than a space run. */
  lemma {:induction false} FromLastNewlineShape(s: string)
    ensures FromLastNewline(s).Some? ==>
      && var r := FromLastNewline(s).value;
      && |r| <= |s| && s[|s| - |r|..] == r && r != "" && r[0] == '\n' && Blank(s[..|s| - |r|])
    ensures s != "" && s[0] == '\n' ==> FromLastNewline(s).Some?
  {
    if s != "" && RegexSpace(s[0]) {
      FromLastNewlineShape(s[1..]);
      if FromLastNewline(s[1..]).Some? {
        var r := FromLastNewline(s[1..]).value;
        assert s[|s| - |r|..] == s[1..][|s| - 1 - |r|..];
        assert s[..|s| - |r|][1..] == s[1..][..|s| - 1 - |r|];
      }
    }
  }

  lemma EndTailShape(s: string)
    requires EndTail(s).Some?
    ensures var r := EndTail(s).value;
      && |r| <= |s| && s[|s| - |r|..] == r && (r == "" || r[0] == '\n') && Blank(s[..|s| - |r|])
      && EndTail(r).Some?
  {
    if Blank(s) {
      assert s[..|s|] == s;
      assert Blank("");
    } else {
      FromLastNewlineShape(s);
      FromLastNewlineShape(FromLastNewline(s).value);
    }
  }

  /* ---- Looking for the block ---- */

  /** Text without a marker line before a newline does not hide the block after it. */
  lemma {:induction false} FindPast(q: string, rest: string, bol: bool)
    requires !HasBeginLine(q, bol)
    ensures var f := FindBlock(rest, true);
      FindBlock(q + "\n" + rest, bol) ==
      (if f.Some? then Some(f.value.(before := q + "\n" + f.value.before)) else None)
  {
    var s := q + "\n" + rest;
    if q == "" {
      assert s == "\n" + rest && s[1..] == rest;
      assert !(BEGIN <= s) by { assert s[0] == '\n'; }
    } else {
      assert s[0] == q[0] && s[1..] == q[1..] + "\n" + rest;
      FindPast(q[1..], rest, q[0] == '\n');
      if bol {
        assert !BeginLine(q);
        assert q + ("\n" + rest) == s;
        HeaderLocal(q, "\n" + rest);
        if Header(q).Some? {
          SpaceRunLocal(Header(q).value.1, "\n" + rest);
        }
        assert ParseBlock(s).None?;
      }
      if FindBlock(rest, true).Some? {
        var b := FindBlock(rest, true).value.before;
        assert [q[0]] + (q[1..] + "\n" + b) == q + "\n" + b;
      }
    }
  }

  /** One character further, where END neither starts nor starts behind a newline. */
  lemma SplitStep(c: char, t: string)
    requires !EndsHere([c] + t) && (c == '\n' ==> !EndsHere(t)) && SplitAtEnd(t).Some?
    ensures SplitAtEnd([c] + t) == Some(SplitAtEnd(t).value.(text := [c] + SplitAtEnd(t).value.text))
  {
    assert ([c] + t)[1..] == t;
  }

  lemma EndsAt(post: string)
    requires EndTail(post).Some?
    ensures EndsHere(END + post) && SplitAtEnd(END + post) == Some(Body("", EndTail(post).value))
  {
    assert (END + post)[|END|..] == post;
  }

  lemma NewlineNoEnd(t: string)
    ensures !EndsHere("\n" + t)
  {
    assert ("\n" + t)[0] == '\n' != END[0];
  }

  /** The blank line in front of END: one newline is body, the other is not. */
  lemma SplitBlankLine(post: string)
    requires EndTail(post).Some?
    ensures SplitAtEnd("\n" + ("\n" + (END + post))) == Some(Body("\n", EndTail(post).value))
  {
    var e := END + post;
    EndsAt(post);
    NewlineNoEnd(e);
    NewlineNoEnd("\n" + e);
    assert ("\n" + e)[1..] == e;
    assert SplitAtEnd("\n" + e) == Some(Body("", EndTail(post).value));
    SplitStep('\n', "\n" + e);
    assert ['\n'] + "" == "\n";
  }

  lemma {:induction false} SplitFree(b: string, rest: string)
    requires !Contains(b, MARK) && rest != "" && rest[0] == '\n' && SplitAtEnd(rest).Some?
    ensures SplitAtEnd(b + rest) == Some(SplitAtEnd(rest).value.(text := b + SplitAtEnd(rest).value.text))
  {
    var text := SplitAtEnd(rest).value.text;
    if b == "" {
      assert b + rest == rest && b + text == text;
    } else {
      MarkerNotAt(b, rest);
      MarkerNotAt(b[1..], rest);
      SplitFree(b[1..], rest);
      assert b + rest == [b[0]] + (b[1..] + rest);
      SplitStep(b[0], b[1..] + rest);
      assert [b[0]] + (b[1..] + text) == b + text;
    }
  }

  /** Marker-free text in front of END belongs to the body. */
  lemma SplitMarkerFree(b: string, post: string)
    requires !Contains(b, MARK) && EndTail(post).Some?
    ensures SplitAtEnd(b + "\n\n" + END + post) == Some(Body(b + "\n", EndTail(post).value))
  {
    var rest := "\n" + ("\n" + (END + post));
    SplitBlankLine(post);
    SplitFree(b, rest);
    BlankLineApart(b, END, post);
  }

  lemma BlankLineApart(b: string, e: string, post: string)
    ensures b + "\n\n" + e + post == b + ("\n" + ("\n" + (e + post)))
  {
    assert "\n\n" == "\n" + "\n";
  }

  lemma MarkerNotAt(b: string, rest: string)
    requires !Contains(b, MARK) && rest != "" && rest[0] == '\n'
    ensures !(END <= b + rest)
  {
    if END <= b + rest {
      assert END[..|MARK|] == MARK;
      assert (b + rest)[..|MARK|] == MARK;
      PrefixLocal(b, rest, MARK);
      assert false;
    }
  }

  lemma HeaderOf(d: string, rest: string)
    requires d != "" && forall i :: 0 <= i < |d| ==> IsDigit(d[i])
    ensures Header(BEGIN + (d + (ARROW + rest))) == Some((d, rest))
  {
    var r := d + (ARROW + rest);
    assert (BEGIN + r)[|BEGIN|..] == r;
    TakeDigitsApp(d, ARROW + rest);
    assert r[|d|..] == ARROW + rest;
    assert (ARROW + rest)[|ARROW|..] == rest;
  }

  lemma ParseIs(d: string, rest: string, inner: string)
    requires d != "" && (forall i :: 0 <= i < |d| ==> IsDigit(d[i]))
    requires AfterLastNewline(rest) == Some(inner) && SplitAtEnd(inner).Some?
    ensures var s := BEGIN + (d + (ARROW + rest)); var b := SplitAtEnd(inner).value;
      ParseBlock(s) == Some(Found("", d, b.text, b.after)) && s != ""
  {
    HeaderOf(d, rest);
  }

  /** A rendered block parses back to its version digits and body. */
  lemma ParseRendered(version: nat, b: string, post: string)
    requires b != "" && !RegexSpace(b[0]) && !Contains(b, MARK) && EndTail(post).Some?
    ensures FindBlock(Block(version, b) + post, true) ==
            Some(Found("", Decimal(version), b + "\n", EndTail(post).value))
  {
    var inner := b + "\n\n" + END + post;
    BlockApart(version, b, post);
    assert inner[0] == b[0];
    BlankLineGap(inner);
    SplitMarkerFree(b, post);
    ParseIs(Decimal(version), "\n" + "\n" + inner, inner);
  }

  lemma BlankLineGap(inner: string)
    requires inner != "" && !RegexSpace(inner[0])
    ensures AfterLastNewline("\n" + "\n" + inner) == Some(inner)
  {
    assert "\n"[1..] == "" && Blank("");
    BlankRun("\n", inner);
  }

  lemma BlockApart(version: nat, b: string, post: string)
    ensures Block(version, b) + post ==
            BEGIN + (Decimal(version) + (ARROW + ("\n" + "\n" + (b + "\n\n" + END + post))))
  {
    assert "\n\n" == "\n" + "\n";
  }

  /* ---- What a match says about the text around it ---- */

  lemma {:induction false} FindDecomposes(s: string, bol: bool)
    requires FindBlock(s, bol).Some?
    ensures var f := FindBlock(s, bol).value;
      && f.before <= s && ParseBlock(s[|f.before|..]) == Some(f.(before := ""))
      && (f.before == "" ==> bol)
      && (f.before != "" ==> f.before[|f.before| - 1] == '\n')
  {
    if !(bol && ParseBlock(s).Some?) {
      FindDecomposes(s[1..], s[0] == '\n');
      var g := FindBlock(s[1..], s[0] == '\n').value;
      assert s == [s[0]] + s[1..];
      assert s[1..][|g.before|..] == s[|g.before| + 1..];
    } else {
      assert s[0..] == s;
    }
  }

  lemma {:induction false} AfterLastNewlineShape(s: string)
    requires AfterLastNewline(s).Some?
    ensures var r := AfterLastNewline(s).value; |r| < |s| && s[|s| - |r|..] == r && Blank(s[..|s| - |r|])
  {
    if AfterLastNewline(s[1..]).Some? {
      AfterLastNewlineShape(s[1..]);
      var r := AfterLastNewline(s[1..]).value;
      assert s[|s| - |r|..] == s[1..][|s| - 1 - |r|..];
      assert s[..|s| - |r|][1..] == s[1..][..|s| - 1 - |r|];
    } else {
      assert s[..1] == ['\n'] && s[..1][1..] == "";
    }
  }

  lemma {:induction false} SplitMonotone(a: string, y: string)
    requires SplitAtEnd(y).Some?
    ensures SplitAtEnd(a + y).Some?
  {
    if a == "" {
      assert a + y == y;
    } else {
      SplitMonotone(a[1..], y);
      assert (a + y)[1..] == a[1..] + y;
    }
  }

  /** END lies in the text of a match, whatever is put in front of it. */
  lemma SplitOverBlock(a: string, x: string)
    requires ParseBlock(x).Some?
    ensures SplitAtEnd(a + x).Some?
  {
    var (d, rest) := Header(x).value;
    AfterLastNewlineShape(rest);
    var inner := AfterLastNewline(rest).value;
    var k := |x| - |inner|;
    assert x[k..] == inner;
    assert a + x == a + x[..k] + inner;
    SplitMonotone(a + x[..k], inner);
  }

  lemma BeginLineThenBlock(q: string, x: string)
    requires BeginLine(q) && ParseBlock(x).Some?
    ensures ParseBlock(q + "\n" + x).Some?
  {
    Assoc(q, "\n", x);
    HeaderLocal(q, "\n" + x);
    GapThenBlock(Header(q).value.1, x);
  }

  lemma GapThenBlock(r: string, x: string)
    requires (AfterLastNewline(r).Some? || Blank(r)) && ParseBlock(x).Some?
    ensures var inner := AfterLastNewline(r + ("\n" + x)); inner.Some? && SplitAtEnd(inner.value).Some?
  {
    if Blank(r) {
      Assoc(r, "\n", x);
      assert x[0] == '<';
      BlankRun(r, x);
      SplitOverBlock("", x);
      assert "" + x == x;
    } else {
      SpaceRunLocal(r, "\n" + x);
      var z := AfterLastNewline(r).value;
      SplitOverBlock(z + "\n", x);
      Assoc(z, "\n", x);
    }
  }

  /** The leftmost match leaves no marker line before it. */
  lemma {:induction false} NoBeginLineBefore(q: string, x: string, bol: bool)
    requires ParseBlock(x).Some?
    requires FindBlock(q + "\n" + x, bol).Some? && FindBlock(q + "\n" + x, bol).value.before == q + "\n"
    ensures !HasBeginLine(q, bol)
  {
    if q != "" {
      var s := q + "\n" + x;
      assert s[0] == q[0] && s[1..] == q[1..] + "\n" + x;
      if bol && BeginLine(q) { BeginLineThenBlock(q, x); }
      assert (q + "\n")[1..] == q[1..] + "\n";
      NoBeginLineBefore(q[1..], x, q[0] == '\n');
    }
  }

  /* ---- Rendering ---- */

  lemma {:induction false} NoneStartsFront(m: string, a: string, p: string, rest: string)
    requires p != "" && (forall i :: 0 <= i < |m| ==> m[i] != p[0]) && NoneStartsIn(a, p, rest)
    ensures NoneStartsIn(m + a, p, rest)
  {
    if m == "" {
      assert m + a == a;
    } else {
      NoneStartsFront(m[1..], a, p, rest);
      assert (m + a)[1..] == m[1..] + a;
      assert (m + a + rest)[0] == m[0];
    }
  }

  lemma {:induction false} NoneStartsLonger(a: string, p: string, rest: string, more: string)
    requires |p| <= |rest| && NoneStartsIn(a, p, rest)
    ensures NoneStartsIn(a, p, rest + more)
  {
    if a != "" {
      NoneStartsLonger(a[1..], p, rest, more);
      assert (a + (rest + more))[..|p|] == (a + rest)[..|p|];
    }
  }

  ghost predicate PlainUrl(url: string) { NewlineFree(url) && !Contains(url, MARK) }

  lemma FirstUrlOfBlock(m: string, c: Content, more: string)
    requires c.Good() && forall i :: 0 <= i < |m| ==> m[i] != 'h'
    ensures NoneStartsIn(m + (c.head + "\n" + LABEL), DEFAULT_URL, DEFAULT_URL + (c.tail + more))
  {
    var a := c.head + "\n" + LABEL;
    NoneStartsLonger(a, DEFAULT_URL, DEFAULT_URL + c.tail, more);
    NoneStartsFront(m, a, DEFAULT_URL, DEFAULT_URL + c.tail + more);
    assert DEFAULT_URL + c.tail + more == DEFAULT_URL + (c.tail + more);
  }

  function Opening(version: nat): string { BEGIN + Decimal(version) + ARROW + "\n\n" }

  lemma OpeningShape(version: nat)
    ensures forall i :: 0 <= i < |Opening(version)| ==> Opening(version)[i] != 'h'
  {}

  lemma BlockAroundUrl(version: nat, c: Content, url: string)
    ensures Block(version, c.Text(url)) + "\n" ==
            (Opening(version) + (c.head + "\n" + LABEL)) + url + (c.tail + ("\n\n" + END + "\n"))
  {}

  /** The Dashboard swap touches the Dashboard line and nothing else. */
  lemma RenderedShape(version: nat, c: Content, url: string)
    requires c.Good()
    ensures ApplyDashboard(Render(version, c), url) == Block(version, c.Text(UrlOrDefault(url))) + "\n"
  {
    if url != "" && url != DEFAULT_URL {
      var more := "\n\n" + END + "\n";
      OpeningShape(version);
      FirstUrlOfBlock(Opening(version), c, more);
      ReplaceFirstAt(Opening(version) + (c.head + "\n" + LABEL), DEFAULT_URL, c.tail + more, url);
      BlockAroundUrl(version, c, DEFAULT_URL);
      BlockAroundUrl(version, c, url);
    }
  }

  lemma TrimmedBlock(version: nat, b: string)
    ensures TrimRight(Block(version, b) + "\n", c => c == '\n') == Block(version, b)
  {
    var s := Block(version, b);
    assert s[|s| - 1] == END[|END| - 1];
    assert (s + "\n")[..|s + "\n"| - 1] == s;
  }

  /* ---- Normalising ---- */

  lemma {:induction false} DropLineApp(a: string, rest: string)
    requires rest != "" && rest[0] == '\n'
    ensures DropLine(a + rest) == DropLine(a) + rest
    ensures NewlineFree(a) ==> DropLine(a) == "" && TakeLine(a + rest) == a
  {
    if a == "" {
      assert a + rest == rest;
    } else {
      assert (a + rest)[0] == a[0] && (a + rest)[1..] == a[1..] + rest;
      if a[0] != '\n' { DropLineApp(a[1..], rest); }
    }
  }

  lemma {:induction false} CanonSplit(a: string, rest: string, bol: bool)
    requires rest != "" && rest[0] == '\n'
    ensures Canon(a + rest, bol) == Canon(a, bol) + Canon(rest, false)
    decreases |a|
  {
    var s := a + rest;
    if a == "" {
      assert s == rest;
    } else if bol && LABEL <= a {
      var r := a[|LABEL|..];
      assert LABEL <= s && s[|LABEL|..] == r + rest;
      DropLineApp(r, rest);
      CanonSplit(DropLine(r), rest, false);
    } else {
      if bol && LABEL <= s { PrefixLocal(a, rest, LABEL); }
      assert s[0] == a[0] && s[1..] == a[1..] + rest;
      CanonSplit(a[1..], rest, a[0] == '\n');
    }
  }

  lemma {:induction false} CanonFree(a: string, bol: bool)
    requires !Contains(a, LABEL)
    ensures Canon(a, bol) == a
  {
    if a != "" { CanonFree(a[1..], a[0] == '\n'); }
  }

  function CanonText(c: Content): string { c.Text("<URL>") }

  lemma CanonLabelLine(url: string, tail: string)
    requires NewlineFree(url) && tail != "" && tail[0] == '\n' && !Contains(tail, LABEL)
    ensures Canon(LABEL + (url + tail), true) == LABEL + "<URL>" + tail
  {
    var line := LABEL + (url + tail);
    assert line[|LABEL|..] == url + tail;
    DropLineApp(url, tail);
    assert "" + tail == tail;
    CanonFree(tail, false);
  }

  lemma CanonNewline(x: string)
    ensures Canon("\n" + x, false) == "\n" + Canon(x, true)
  {
    assert ("\n" + x)[1..] == x;
  }

  /** Lines are compared one by one. */
  lemma CanonJoin(a: string, line: string, bol: bool)
    ensures Canon(a + ("\n" + line), bol) == Canon(a, bol) + ("\n" + Canon(line, true))
  {
    CanonSplit(a, "\n" + line, bol);
    CanonNewline(line);
  }

  lemma CanonRendered(c: Content, url: string)
    requires c.Good() && NewlineFree(url)
    ensures Canon(c.Text(url), true) == CanonText(c)
  {
    var line := LABEL + (url + c.tail);
    LineApart(c, url);
    CanonJoin(c.head, line, true);
    CanonFree(c.head, true);
    CanonLabelLine(url, c.tail);
    LineApart(c, "<URL>");
    Assoc(LABEL, "<URL>", c.tail);
  }

  lemma LineApart(c: Content, url: string)
    ensures c.Text(url) == c.head + ("\n" + (LABEL + (url + c.tail)))
  {}

  lemma TrimSpaceId(s: string)
    requires s != "" && !UnicodeSpace(s[0]) && !UnicodeSpace(s[|s| - 1])
    ensures TrimSpace(s) == s && TrimSpace(s + "\n") == s
  {
    assert (s + "\n")[0] == s[0];
    assert (s + "\n")[..|s + "\n"| - 1] == s;
  }

  lemma NormalizeRendered(c: Content, url: string)
    requires c.Good() && NewlineFree(url)
    ensures NormalizeBody(c.Text(url)) == NormalizeBody(c.Text(url) + "\n") == CanonText(c)
  {
    var t := c.Text(url);
    assert t[0] == c.head[0] && t[|t| - 1] == c.tail[|c.tail| - 1];
    TrimSpaceId(t);
    CanonRendered(c, url);
  }

  /* ---- Marker-free bodies ---- */

  lemma {:induction false} MarkFreeJoin(a: string, b: string)
    requires !Contains(a, MARK) && !Contains(b, MARK) && b != "" && b[0] == '\n'
    ensures !Contains(a + b, MARK)
  {
    if a == "" {
      assert a + b == b;
    } else {
      MarkFreeJoin(a[1..], b);
      assert (a + b)[1..] == a[1..] + b;
      if MARK <= a + b { PrefixLocal(a, b, MARK); assert false; }
    }
  }

  lemma {:induction false} MarkFreeFront(a: string, b: string)
    requires (forall i :: 0 <= i < |a| ==> a[i] != '<') && !Contains(b, MARK)
    ensures !Contains(a + b, MARK)
  {
    if a == "" {
      assert a + b == b;
    } else {
      MarkFreeFront(a[1..], b);
      assert (a + b)[1..] == a[1..] + b && (a + b)[0] == a[0];
    }
  }

  lemma BodyMarkFree(c: Content, url: string)
    requires c.Good() && PlainUrl(url)
    ensures !Contains(c.Text(url), MARK)
  {
    MarkFreeJoin(url, c.tail);
    var front := "\n" + LABEL;
    var rest := front + (url + c.tail);
    MarkFreeFront(front, url + c.tail);
    assert rest[0] == '\n';
    MarkFreeJoin(c.head, rest);
    TextApart(c, url);
  }

  lemma TextApart(c: Content, url: string)
    ensures c.Text(url) == c.head + ("\n" + LABEL + (url + c.tail))
  {}

  /* ---- Versions ---- */

  lemma {:induction false} ParseVersionSnoc(a: string, d: nat, n: int)
    requires d < 10 && forall i :: 0 <= i < |a| ==> IsDigit(a[i])
    ensures ParseVersionFrom(a + [Digit(d)], n) == Wrap64(ParseVersionFrom(a, n) * 10 + d)
  {
    var s := a + [Digit(d)];
    if a == "" {
      assert s == [Digit(d)] && s[1..] == "";
    } else {
      assert s[0] == a[0] && s[1..] == a[1..] + [Digit(d)];
      ParseVersionSnoc(a[1..], d, Wrap64(n * 10 + (a[0] as int - '0' as int)));
    }
  }

  lemma {:induction false} ParseVersionRoundTrip(v: nat)
    requires v < TWO63
    ensures ParseVersion(Decimal(v)) == v
  {
    if v < 10 {
      assert Decimal(v) == "" + [Digit(v)];
      ParseVersionSnoc("", v, 0);
    } else {
      ParseVersionRoundTrip(v / 10);
      ParseVersionSnoc(Decimal(v / 10), v % 10, 0);
    }
  }
}
