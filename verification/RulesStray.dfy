/** A rules file with a marker line that has no END: how Sync settles on it, and what of
    the user's text that costs. */
module RulesStray {
  import opened Text
  import opened RulesBlock
  import opened RulesProofs
  import opened RulesTheorems

  /* ---- Which URL the second Sync takes over ---- */

  /** Text without an asterisk holds no Dashboard line. */
  lemma {:induction false} SkipsTo(a: string, y: string, bol: bool)
    requires LABEL[0] !in a && a != "" && a[|a| - 1] == '\n'
    ensures InstalledUrl(a + y, bol) == InstalledUrl(y, true)
  {
    assert (a + y)[0] == a[0] && (a + y)[1..] == a[1..] + y;
    if |a| == 1 {
      assert a[1..] + y == y;
    } else {
      SkipsTo(a[1..], y, a[0] == '\n');
    }
  }

  lemma {:induction false} TakeLineLocal(a: string, y: string)
    requires y != "" && y[0] == '\n'
    ensures TakeLine(a + y) == TakeLine(a)
  {
    if a == "" {
      assert a + y == y;
    } else {
      assert (a + y)[0] == a[0] && (a + y)[1..] == a[1..] + y;
      TakeLineLocal(a[1..], y);
    }
  }

  lemma LabelLocal(a: string, y: string)
    requires y != "" && y[0] == '\n'
    ensures LABEL <= a + y <==> LABEL <= a
  {
    if LABEL <= a + y { PrefixLocal(a, y, LABEL); }
    if LABEL <= a { assert (a + y)[..|LABEL|] == a[..|LABEL|]; }
  }

  /** The first Dashboard line is in the lines before, or in those after. */
  lemma {:induction false} UrlBeforeOrAfter(a: string, y: string, bol: bool)
    ensures InstalledUrl(a + ("\n" + y), bol) == InstalledUrl(a, bol)
      || InstalledUrl(a + ("\n" + y), bol) == InstalledUrl(y, true)
  {
    var s := a + ("\n" + y);
    if a == "" {
      assert s == "\n" + y;
      SkipsTo("\n", y, bol);
    } else {
      LabelLocal(a, "\n" + y);
      if bol && LABEL <= a {
        assert s[|LABEL|..] == a[|LABEL|..] + ("\n" + y);
        TakeLineLocal(a[|LABEL|..], "\n" + y);
      } else {
        assert s[0] == a[0] && s[1..] == a[1..] + ("\n" + y);
        UrlBeforeOrAfter(a[1..], y, a[0] == '\n');
      }
    }
  }

  lemma {:induction false} PartMarkFree(a: string, s: string)
    requires a <= s && !Contains(s, MARK)
    ensures !Contains(a, MARK)
  {
    if a != "" { PartMarkFree(a[1..], s[1..]); }
  }

  lemma {:induction false} TrimLeftMarkFree(s: string)
    requires !Contains(s, MARK)
    ensures !Contains(TrimLeft(s, UnicodeSpace), MARK)
  {
    if s != "" && UnicodeSpace(s[0]) { TrimLeftMarkFree(s[1..]); }
  }

  lemma {:induction false} TakeLineIsPrefix(s: string)
    ensures TakeLine(s) <= s
  {
    if s != "" && s[0] != '\n' { TakeLineIsPrefix(s[1..]); }
  }

  lemma {:induction false} SuffixMarkFree(s: string, n: nat)
    requires n <= |s| && !Contains(s, MARK)
    ensures !Contains(s[n..], MARK)
  {
    if n > 0 {
      SuffixMarkFree(s[1..], n - 1);
      assert s[1..][n - 1..] == s[n..];
    } else {
      assert s[0..] == s;
    }
  }

  lemma {:induction false} UrlMarkFree(s: string, bol: bool)
    requires !Contains(s, MARK)
    ensures !Contains(InstalledUrl(s, bol), MARK)
  {
    if s == "" {
    } else if bol && LABEL <= s {
      var line := TakeLine(s[|LABEL|..]);
      SuffixMarkFree(s, |LABEL|);
      TakeLineIsPrefix(s[|LABEL|..]);
      PartMarkFree(line, s[|LABEL|..]);
      MarkFreeFront(" ", line);
      TrimLeftMarkFree(" " + line);
      PartMarkFree(TrimSpace(" " + line), TrimLeft(" " + line, UnicodeSpace));
    } else {
      UrlMarkFree(s[1..], s[0] == '\n');
    }
  }

  lemma {:induction false} BlankIsPlain(s: string)
    requires Blank(s)
    ensures LABEL[0] !in s
  {
    if s != "" { BlankIsPlain(s[1..]); }
  }

  lemma {:induction false} GapEnds(s: string)
    requires AfterLastNewline(s).Some?
    ensures |AfterLastNewline(s).value| < |s| && s[|s| - |AfterLastNewline(s).value| - 1] == '\n'
  {
    AfterLastNewlineShape(s);
    if AfterLastNewline(s[1..]).Some? { GapEnds(s[1..]); }
  }

  lemma FourPieces(c: char, b: string, d: string, e: string, g: string)
    requires c !in b && c !in d && c !in e && c !in g && g != ""
    ensures var a := b + (d + (e + g)); c !in a && a != "" && a[|a| - 1] == g[|g| - 1]
  {
  }

  lemma FrontApart(b: string, d: string, e: string, g: string, rest: string)
    ensures b + (d + (e + (g + rest))) == (b + (d + (e + g))) + rest
  {
    Assoc(e, g, rest);
    Assoc(d, e + g, rest);
    Assoc(b, d + (e + g), rest);
  }

  /** The blank stretch between a marker and the body it opens. */
  lemma GapOf(r: string) returns (gap: string)
    requires AfterLastNewline(r).Some?
    ensures r == gap + AfterLastNewline(r).value && gap != "" && gap[|gap| - 1] == '\n' && LABEL[0] !in gap
  {
    AfterLastNewlineShape(r);
    GapEnds(r);
    gap := r[..|r| - |AfterLastNewline(r).value|];
    BlankIsPlain(gap);
  }

  lemma MarkerIsPlain(d: string)
    requires forall i :: 0 <= i < |d| ==> IsDigit(d[i])
    ensures LABEL[0] !in BEGIN && LABEL[0] !in d && LABEL[0] !in ARROW
  {
  }

  /** From the stray marker line on, the first Dashboard line is the first one of the
      text that the line takes for its body. */
  lemma StrayUrl(stray: string)
    requires Header(stray).Some? && AfterLastNewline(Header(stray).value.1).Some?
    ensures InstalledUrl(stray, true) == InstalledUrl(AfterLastNewline(Header(stray).value.1).value, true)
  {
    var d, r := Header(stray).value.0, Header(stray).value.1;
    HeaderShape(stray);
    var gap := GapOf(r);
    MarkerIsPlain(d);
    StrayApart(stray, BEGIN, d, ARROW, gap, AfterLastNewline(r).value);
  }

  lemma {:induction false} StrayApart(stray: string, b: string, d: string, e: string, gap: string, inner: string)
    requires stray == b + (d + (e + (gap + inner))) && gap != "" && gap[|gap| - 1] == '\n'
    requires LABEL[0] !in b && LABEL[0] !in d && LABEL[0] !in e && LABEL[0] !in gap
    ensures InstalledUrl(stray, true) == InstalledUrl(inner, true)
  {
    FrontApart(b, d, e, gap, inner);
    FourPieces(LABEL[0], b, d, e, gap);
    SkipsTo(b + (d + (e + gap)), inner, true);
  }

  lemma OpenedUrl(version: nat, b: string)
    requires !Contains(b, MARK)
    ensures !Contains(InstalledUrl(Opened(version, b) + "\n", true), MARK)
  {
    var a := Opening(version);
    assert LABEL[0] !in Decimal(version) && LABEL[0] !in BEGIN && LABEL[0] !in ARROW;
    assert a[|a| - 1] == '\n' && LABEL[0] !in a;
    Assoc(a, b, "\n");
    SkipsTo(a, b + "\n", true);
    assert !Contains("\n", MARK) by { NoLessThan("\n"); }
    MarkFreeJoin(b, "\n");
    UrlMarkFree(b + "\n", true);
  }

  /** Across a blank line the first Dashboard line is before it or after it. */
  lemma {:induction false} UrlAroundBlank(inner: string, k: string)
    ensures var u := InstalledUrl(inner + ("\n" + "\n") + k, true);
      u == InstalledUrl(inner, true) || u == InstalledUrl(k, true)
  {
    Assoc(inner, "\n" + "\n", k);
    Assoc("\n", "\n", k);
    UrlBeforeOrAfter(inner, "\n" + k, true);
    SkipsTo("\n", k, true);
  }

  lemma {:induction false} SwallowedUrl(stray: string, z: string, k: string)
    requires LeftInside(stray, z)
    requires !Contains(InstalledUrl(stray, true), MARK) && !Contains(InstalledUrl(k, true), MARK)
    ensures !Contains(InstalledUrl(z + k, true), MARK)
  {
    var r := Header(stray).value.1;
    if Blank(r) {
      assert z + k == k;
    } else {
      StrayUrl(stray);
      UrlAroundBlank(AfterLastNewline(r).value, k);
    }
  }

  /* ---- Settling ---- */

  /** The URL that Sync will find on the first Dashboard line behind the stray marker, if
      none is requested, holds no marker of its own. */
  ghost predicate PlainStray(file: File, url: string)
    requires file.Present?
  {
    url != "" || !Contains(InstalledUrl(StrayTail(TrimRight(file.text, TrimmedFromFile), true), true), MARK)
  }

  lemma StaysAdmissible(file: File, version: int, url: string, c: Content)
    requires Admissible(file, version, url, c) && Unpaired(file) && PlainStray(file, url)
    ensures Admissible(Sync(file, version, url, c).file, version, url, c)
  {
    if url == "" {
      var z := UnpairedThenFound(file, version, url, c);
      var b := c.Text(UrlOrDefault(url));
      UrlOrDefaultPlain(url);
      BodyMarkFree(c, UrlOrDefault(url));
      OpenedUrl(version, b);
      SwallowedUrl(StrayTail(TrimRight(file.text, TrimmedFromFile), true), z, Opened(version, b) + "\n");
    }
  }

  /** The second Sync takes the user's text from the stray marker line to the end of the
      file with it, and after it Sync has settled: two calls are always enough. */
  lemma UnpairedSettlesInTwo(file: File, version: int, url: string, c: Content) returns (before: string)
    requires Admissible(file, version, url, c) && Unpaired(file) && PlainStray(file, url)
    ensures var first := Sync(file, version, url, c).file; var second := Sync(first, version, url, c).file;
      && before <= TrimRight(file.text, TrimmedFromFile)
      && BeginLine(TrimRight(file.text, TrimmedFromFile)[|before|..])
      && second == Present(before + Block(version, c.Text(UrlOrDefault(WrittenUrl(first, url)))))
      && Sync(second, version, url, c) == SyncResult(second, false)
  {
    var z := UnpairedThenFound(file, version, url, c);
    StaysAdmissible(file, version, url, c);
    var first := Sync(file, version, url, c).file;
    before := FindBlock(first.text, true).value.before;
    WrittenShape(first, version, url, c);
    var b := before + Block(version, c.Text(UrlOrDefault(WrittenUrl(first, url))));
    assert b + "" == b;
    SyncSettles(first, version, url, c);
  }

  /* ---- There are such files and such content ---- */

  lemma {:induction false} NoBlockLater(s: string)
    requires NewlineFree(s)
    ensures FindBlock(s, false).None?
  {
    if s != "" { NoBlockLater(s[1..]); }
  }

  lemma {:induction false} NoUrl(s: string, bol: bool)
    requires LABEL[0] !in s
    ensures InstalledUrl(s, bol) == ""
  {
    if s != "" { NoUrl(s[1..], s[0] == '\n'); }
  }

  /** A line that is only a header is no block, and opens a marker line. */
  lemma HeaderAlone(s: string)
    requires Header(s).Some? && Header(s).value.1 == "" && NewlineFree(s) && s != ""
    ensures FindBlock(s, true).None? && HasBeginLine(s, true) && StrayTail(s, true) == s
  {
    assert AfterLastNewline("").None? && Blank("");
    NoBlockLater(s[1..]);
  }

  lemma HeaderText(d: string)
    requires forall i :: 0 <= i < |d| ==> IsDigit(d[i])
    ensures var s := BEGIN + (d + (ARROW + "")); NewlineFree(s) && LABEL[0] !in s && s != "" && s[|s| - 1] == '>'
  {
    var t := ARROW + "";
    assert t == ARROW && t[|t| - 1] == '>';
    assert (d + t)[|d + t| - 1] == t[|t| - 1];
    assert NewlineFree(BEGIN) && NewlineFree(ARROW) && LABEL[0] !in BEGIN && LABEL[0] !in ARROW;
  }

  lemma NotTrimmed(s: string)
    requires s != "" && s[|s| - 1] == '>'
    ensures TrimRight(s, TrimmedFromFile) == s
  {
  }

  /** A marker line alone is unpaired. */
  lemma StrayExists(d: string)
    requires d != "" && forall i :: 0 <= i < |d| ==> IsDigit(d[i])
    ensures var file := Present(BEGIN + (d + (ARROW + ""))); Unpaired(file) && PlainStray(file, "")
  {
    var s := BEGIN + (d + (ARROW + ""));
    HeaderOf(d, "");
    HeaderText(d);
    HeaderAlone(s);
    NotTrimmed(s);
    NoUrl(s, true);
    assert !Contains("", MARK);
  }

  lemma {:induction false} NoStar(s: string)
    requires LABEL[0] !in s
    ensures !Contains(s, LABEL)
  {
    if s != "" { NoStar(s[1..]); }
  }

  /** No default URL starts in a text where no `h` is followed by a `t`. */
  lemma {:induction false} NoUrlStarts(a: string, rest: string)
    requires forall i :: 0 <= i < |a| && a[i] == 'h' ==> i + 1 < |a| && a[i + 1] != 't'
    ensures NoneStartsIn(a, DEFAULT_URL, rest)
  {
    if a != "" {
      assert forall i :: 0 <= i < |a[1..]| ==> a[1..][i] == a[i + 1];
      NoUrlStarts(a[1..], rest);
      assert DEFAULT_URL[0] == 'h' && DEFAULT_URL[1] == 't';
    }
  }

  lemma GoodExists()
    ensures Content("Rules", "\nDone").Good()
  {
    var head, tail := "Rules", "\nDone";
    NoLessThan(head);
    NoLessThan(tail);
    NoStar(head);
    NoStar(tail);
    NoUrlStarts(head + "\n" + LABEL, DEFAULT_URL + tail);
  }
}
