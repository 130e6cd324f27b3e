/** `slugifyName` and `slugifyParam` of `internal/addon/openapi_slug.go`. */
module AddonSlug {
  import opened Text

  /** Lower-casing, as far as it can produce a lower-case ASCII letter: the Kelvin
      sign and the dotted capital I are the two non-ASCII letters that do. */
  function Lower(c: char): char {
    if 'A' <= c <= 'Z' then (c as int + 32) as char
    else if c == '\U{212A}' then 'k'
    else if c == '\U{0130}' then 'i'
    else c
  }

  predicate IsLetter(c: char) { 'a' <= c <= 'z' }
  predicate Alnum(c: char) { IsLetter(c) || IsDigit(c) }

  /** Every run of other characters as one underscore; `inRun` says one is open. */
  function Squash(s: string, inRun: bool): string {
    if s == "" then ""
    else if Alnum(Lower(s[0])) then [Lower(s[0])] + Squash(s[1..], false)
    else (if inRun then "" else "_") + Squash(s[1..], true)
  }

  function TrimFront(s: string): string {
    if s != "" && s[0] == '_' then TrimFront(s[1..]) else s
  }

  function TrimBack(s: string): string {
    if s != "" && s[|s| - 1] == '_' then TrimBack(s[..|s| - 1]) else s
  }

  const MAX_SLUG := 62

  /** A leading digit is not allowed. */
  function Led(t: string): string { if t != "" && IsDigit(t[0]) then "x_" + t else t }

  function Cut(u: string): string { if |u| > MAX_SLUG then u[..MAX_SLUG] else u }

  /** The slug before the length limit is applied. */
  function Whole(s: string): string { Led(TrimBack(TrimFront(Squash(s, false)))) }

  function Slug(s: string): string { Cut(Whole(s)) }

  function SlugParam(s: string): string { if Slug(s) == "" then s else Slug(s) }

  /* ---- The shape of a slug ---- */

  /** Slug characters with no two underscores together. */
  predicate Tidy(s: string) {
    && (forall i :: 0 <= i < |s| ==> Alnum(s[i]) || s[i] == '_')
    && (forall i :: 0 < i < |s| ==> !(s[i - 1] == '_' && s[i] == '_'))
  }

  /** A slug: tidy, led by a letter, within the limit. */
  predicate SlugShape(s: string) { s != "" && Tidy(s) && IsLetter(s[0]) && |s| <= MAX_SLUG }

  lemma {:induction false} SquashTidy(s: string, inRun: bool)
    ensures Tidy(Squash(s, inRun))
    ensures inRun && Squash(s, inRun) != "" ==> Squash(s, inRun)[0] != '_'
  {
    if s != "" {
      var rest := Squash(s[1..], !Alnum(Lower(s[0])));
      SquashTidy(s[1..], !Alnum(Lower(s[0])));
      if Alnum(Lower(s[0])) {
        TidyCons(Lower(s[0]), rest);
      } else if !inRun {
        TidyCons('_', rest);
      } else {
        assert "" + rest == rest;
      }
    }
  }

  lemma TidyCons(c: char, rest: string)
    requires Tidy(rest) && (Alnum(c) || (c == '_' && (rest == "" || rest[0] != '_')))
    ensures Tidy([c] + rest)
  {
    var s := [c] + rest;
    assert forall i :: 0 < i < |s| ==> s[i] == rest[i - 1];
    forall i | 0 < i < |s| ensures !(s[i - 1] == '_' && s[i] == '_') {
      if i > 1 { assert s[i - 1] == rest[i - 2]; }
    }
  }

  lemma {:induction false} TrimTidy(s: string)
    requires Tidy(s)
    ensures var t := TrimBack(TrimFront(s)); Tidy(t) && (t != "" ==> t[0] != '_' && t[|t| - 1] != '_')
    ensures OnlyBars(s) <==> TrimBack(TrimFront(s)) == ""
  {
    FrontTidy(s);
    BackTidy(TrimFront(s));
  }

  lemma {:induction false} FrontTidy(s: string)
    requires Tidy(s)
    ensures Tidy(TrimFront(s)) && (TrimFront(s) != "" ==> TrimFront(s)[0] != '_')
    ensures OnlyBars(s) <==> TrimFront(s) == ""
  {
    if s != "" && s[0] == '_' {
      assert forall i :: 0 <= i < |s[1..]| ==> s[1..][i] == s[i + 1];
      assert Tidy(s[1..]) by {
        forall i | 0 < i < |s[1..]| ensures !(s[1..][i - 1] == '_' && s[1..][i] == '_') {
          assert !(s[i] == '_' && s[i + 1] == '_');
        }
      }
      FrontTidy(s[1..]);
      assert forall i :: 0 < i < |s| ==> s[i] == s[1..][i - 1];
    }
  }

  lemma {:induction false} BackTidy(s: string)
    requires Tidy(s) && (s != "" ==> s[0] != '_')
    ensures var t := TrimBack(s); Tidy(t) && (t != "" ==> t[0] != '_' && t[|t| - 1] != '_')
    ensures s == "" <==> TrimBack(s) == ""
  {
    if s != "" && s[|s| - 1] == '_' { BackTidy(s[..|s| - 1]); }
  }

  /** What the input offers a slug. */
  predicate Usable(s: string) { exists i :: 0 <= i < |s| && Alnum(Lower(s[i])) }

  predicate OnlyBars(s: string) { forall i :: 0 <= i < |s| ==> s[i] == '_' }

  lemma {:induction false} SquashUsable(s: string, inRun: bool)
    ensures Usable(s) <==> !OnlyBars(Squash(s, inRun))
  {
    if s != "" {
      var q, rest := Squash(s, inRun), Squash(s[1..], !Alnum(Lower(s[0])));
      SquashUsable(s[1..], !Alnum(Lower(s[0])));
      assert forall i :: 0 < i < |s| ==> s[i] == s[1..][i - 1];
      if Usable(s[1..]) {
        var i :| 0 <= i < |s[1..]| && Alnum(Lower(s[1..][i]));
        assert s[i + 1] == s[1..][i];
        var j :| 0 <= j < |rest| && rest[j] != '_';
        assert q[j + |q| - |rest|] == rest[j];
      }
      if Alnum(Lower(s[0])) { assert q[0] != '_'; }
      if !OnlyBars(q) {
        var i :| 0 <= i < |q| && q[i] != '_';
        if i >= |q| - |rest| { assert rest[i - (|q| - |rest|)] == q[i]; }
      }
    }
  }

  lemma LedTidy(t: string)
    requires Tidy(t) && (t != "" ==> t[0] != '_')
    ensures Tidy(Led(t)) && (Led(t) == "" <==> t == "") && (Led(t) != "" ==> IsLetter(Led(t)[0]))
  {
    if t != "" && IsDigit(t[0]) {
      TidyCons('_', t);
      TidyCons('x', ['_'] + t);
      assert "x_" + t == ['x'] + (['_'] + t);
    }
  }

  lemma CutShape(u: string)
    requires Tidy(u) && (u != "" ==> IsLetter(u[0]))
    ensures Cut(u) == "" <==> u == ""
    ensures u != "" ==> SlugShape(Cut(u))
  {
  }

  /** A slug is empty exactly when the input has no letter or digit; otherwise it
      has the shape the validator asks for, save that it may be one letter long. */
  lemma SlugSpec(s: string)
    ensures Slug(s) == "" <==> !Usable(s)
    ensures Slug(s) != "" ==> SlugShape(Slug(s))
  {
    var q := Squash(s, false);
    SquashTidy(s, false);
    SquashUsable(s, false);
    TrimTidy(q);
    LedTidy(TrimBack(TrimFront(q)));
    CutShape(Led(TrimBack(TrimFront(q))));
  }

  /* ---- Slugging twice ---- */

  lemma {:induction false} SquashSame(s: string, inRun: bool)
    requires Tidy(s) && !(inRun && s != "" && s[0] == '_')
    ensures Squash(s, inRun) == s
  {
    if s != "" {
      assert forall i :: 0 <= i < |s[1..]| ==> s[1..][i] == s[i + 1];
      forall i | 0 < i < |s[1..]| ensures !(s[1..][i - 1] == '_' && s[1..][i] == '_') {
        assert !(s[i] == '_' && s[i + 1] == '_');
      }
      if s[0] == '_' && |s| > 1 { assert !(s[0] == '_' && s[1] == '_'); }
      SquashSame(s[1..], s[0] == '_');
    }
  }

  /** Slugging a slug changes it exactly when the length limit cut it just after
      an underscore, and then it only drops that underscore. */
  lemma SlugTwice(s: string)
    requires SlugShape(s)
    ensures Slug(s) == s <==> s[|s| - 1] != '_'
    ensures s[|s| - 1] == '_' ==> Slug(s) == s[..|s| - 1]
  {
    SquashSame(s, false);
    if s[|s| - 1] == '_' {
      assert |s| > 1;
      assert s[|s| - 2] != '_';
      var t := s[..|s| - 1];
      assert t[|t| - 1] == s[|s| - 2];
      assert TrimBack(s) == TrimBack(t) == t;
    }
  }

  /** Before the limit a slug never ends in an underscore. */
  lemma WholeEnd(s: string)
    requires Usable(s)
    ensures Whole(s) != "" && Whole(s)[|Whole(s)| - 1] != '_'
  {
    var t := TrimBack(TrimFront(Squash(s, false)));
    SquashTidy(s, false);
    SquashUsable(s, false);
    TrimTidy(Squash(s, false));
    assert Led(t)[|Led(t)| - 1] == t[|t| - 1];
  }

  /** Slugging is idempotent on an input exactly when the length limit does not cut
      its slug just after an underscore. */
  lemma SlugIdempotentIff(s: string)
    requires Usable(s)
    ensures Slug(Slug(s)) == Slug(s) <==> |Whole(s)| <= MAX_SLUG || Whole(s)[MAX_SLUG - 1] != '_'
    ensures Slug(s) != "" && (Slug(s)[|Slug(s)| - 1] == '_' <==> Slug(Slug(s)) != Slug(s))
  {
    SlugSpec(s);
    SlugTwice(Slug(s));
    WholeEnd(s);
  }

  /** Slugging settles after two applications at most. */
  lemma SlugStabilises(s: string)
    ensures Slug(Slug(Slug(s))) == Slug(Slug(s))
  {
    SlugSpec(s);
    if Slug(s) == "" {
      SlugSpec("");
    } else {
      SlugTwice(Slug(s));
      SlugSpec(Slug(s));
      var t := Slug(s);
      if t[|t| - 1] == '_' {
        TidyEnd(t);
        SlugTwice(Slug(t));
      }
    }
  }

  /** A tidy text loses at most one underscore at its end. */
  lemma TidyEnd(s: string)
    requires Tidy(s) && |s| > 1 && s[|s| - 1] == '_'
    ensures s[|s| - 2] != '_'
  {
  }

  /** A brace in front does not change a slug. */
  lemma SlugOfBraced(s: string)
    requires SlugShape(s)
    ensures Slug("{" + s) == Slug(s)
  {
    SquashSame(s, false);
    SquashSame(s, true);
    assert ("{" + s)[1..] == s;
    assert Squash("{" + s, false) == "_" + s;
    assert ("_" + s)[1..] == s;
    assert TrimFront("_" + s) == TrimFront(s);
  }
}
