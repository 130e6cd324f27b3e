/** Text the components share: decimal numerals as `%d` prints them, substring
    search, and the space classes of Go's `regexp` and `strings` packages. */
module Text {

  datatype Option<+T> = None | Some(value: T)

  /* ---- Decimal numerals ---- */

  function Digit(d: nat): (c: char)
    requires d < 10
    ensures '0' <= c <= '9' && c as int == '0' as int + d
  {
    ('0' as int + d) as char
  }

  predicate IsDigit(c: char) { '0' as int <= c as int <= '9' as int }

  /** `%d` of a non-negative number. */
  function Decimal(n: nat): (s: string)
    ensures |s| > 0 && forall i :: 0 <= i < |s| ==> IsDigit(s[i])
  {
    if n < 10 then [Digit(n)] else Decimal(n / 10) + [Digit(n % 10)]
  }

  /** `%d` of any integer. */
  function DecimalInt(n: int): (s: string) {
    if n < 0 then "-" + Decimal(-n) else Decimal(n)
  }

  /** The number a run of digits denotes. */
  function DigitsValue(s: string): nat
    requires forall i :: 0 <= i < |s| ==> IsDigit(s[i])
  {
    if s == "" then 0
    else
      assert IsDigit(s[|s| - 1]);
      DigitsValue(s[..|s| - 1]) * 10 + (s[|s| - 1] as int - '0' as int)
  }

  lemma {:induction false} DecimalRoundTrip(n: nat)
    ensures DigitsValue(Decimal(n)) == n
  {
    if n >= 10 {
      DecimalRoundTrip(n / 10);
      assert Decimal(n)[..|Decimal(n)| - 1] == Decimal(n / 10);
    } else {
      assert Decimal(n)[..0] == "";
    }
  }

  /** The value of a hexadecimal digit. */
  function HexValue(c: char): (d: Option<nat>)
    ensures d.Some? ==> d.value < 16
  {
    if '0' <= c <= '9' then Some(c as int - '0' as int)
    else if 'a' <= c <= 'f' then Some(c as int - 'a' as int + 10)
    else if 'A' <= c <= 'F' then Some(c as int - 'A' as int + 10)
    else None
  }

  lemma DecimalIntInjective(a: int, b: int)
    requires DecimalInt(a) == DecimalInt(b)
    ensures a == b
  {
    if a < 0 { assert DecimalInt(a)[0] == '-'; assert DecimalInt(a)[1..] == Decimal(-a); }
    if b < 0 { assert DecimalInt(b)[0] == '-'; assert DecimalInt(b)[1..] == Decimal(-b); }
    DecimalRoundTrip(if a < 0 then -a else a);
    DecimalRoundTrip(if b < 0 then -b else b);
  }

  /* ---- Space classes ---- */

  /** `\s` of Go's regular expressions. */
  predicate RegexSpace(c: char) {
    c == ' ' || c == '\t' || c == '\n' || c == '\r' || c == '\U{c}'
  }

  /** What `strings.TrimSpace` removes. */
  predicate UnicodeSpace(c: char) {
    || RegexSpace(c)
    || c == '\U{b}' || c == '\U{85}' || c == '\U{a0}' || c == '\U{1680}'
    || '\U{2000}' <= c <= '\U{200a}'
    || c == '\U{2028}' || c == '\U{2029}' || c == '\U{202f}' || c == '\U{205f}' || c == '\U{3000}'
  }

  function TrimLeft(s: string, cut: char -> bool): (r: string)
    ensures r != "" ==> !cut(r[0])
  {
    if s != "" && cut(s[0]) then TrimLeft(s[1..], cut) else s
  }

  function TrimRight(s: string, cut: char -> bool): (r: string)
    ensures r <= s
    ensures r != "" ==> !cut(r[|r| - 1])
    ensures forall i :: |r| <= i < |s| ==> cut(s[i])
  {
    if s != "" && cut(s[|s| - 1]) then TrimRight(s[..|s| - 1], cut) else s
  }

  function TrimSpace(s: string): string {
    TrimRight(TrimLeft(s, UnicodeSpace), UnicodeSpace)
  }

  /* ---- Substrings ---- */

  lemma Assoc(a: string, b: string, c: string)
    ensures a + b + c == a + (b + c)
  {}

  /** `strings.Contains`. */
  predicate Contains(s: string, p: string) {
    p <= s || (s != "" && Contains(s[1..], p))
  }

  lemma {:induction false} ContainsAt(a: string, p: string, b: string)
    ensures Contains(a + p + b, p)
  {
    if a == "" {
      assert a + p + b == p + b;
    } else {
      ContainsAt(a[1..], p, b);
      assert (a + p + b)[1..] == a[1..] + p + b;
    }
  }

  /** `strings.Replace(s, old, new, 1)`. */
  function ReplaceFirst(s: string, old_: string, new_: string): string
    requires old_ != ""
  {
    if s == "" then ""
    else if old_ <= s then new_ + s[|old_|..]
    else [s[0]] + ReplaceFirst(s[1..], old_, new_)
  }

  /** No copy of `p` starts inside `a` when `a` is followed by `rest`. */
  predicate NoneStartsIn(a: string, p: string, rest: string) {
    a == "" || (!(p <= a + rest) && NoneStartsIn(a[1..], p, rest))
  }

  lemma {:induction false} ReplaceFirstAt(a: string, old_: string, b: string, new_: string)
    requires old_ != "" && NoneStartsIn(a, old_, old_ + b)
    ensures ReplaceFirst(a + old_ + b, old_, new_) == a + new_ + b
  {
    if a == "" {
      assert a + old_ + b == old_ + b;
      assert (old_ + b)[|old_|..] == b;
      assert a + new_ + b == new_ + b;
    } else {
      assert a + (old_ + b) == a + old_ + b;
      assert (a + old_ + b)[1..] == a[1..] + old_ + b;
      ReplaceFirstAt(a[1..], old_, b, new_);
      assert [a[0]] + (a[1..] + new_ + b) == a + new_ + b;
    }
  }

  /* ---- Permutations ---- */

  lemma Find<T>(a: seq<T>, b: seq<T>) returns (k: nat)
    requires a != [] && multiset(a) == multiset(b)
    ensures k < |b| && b[k] == a[0]
  {
    assert a[0] in multiset(b);
    k :| 0 <= k < |b| && b[k] == a[0];
  }

  lemma SplitAt<T>(a: seq<T>, b: seq<T>, k: nat)
    requires a != [] && k < |b| && b[k] == a[0] && multiset(a) == multiset(b)
    ensures b == b[..k] + ([b[k]] + b[k + 1..])
    ensures multiset(a[1..]) == multiset(b[..k] + b[k + 1..])
  {
    assert b == b[..k] + ([b[k]] + b[k + 1..]);
    assert a == [a[0]] + a[1..];
    calc {
      multiset(a[1..]);
      multiset(a) - multiset{a[0]};
      multiset(b[..k] + ([b[k]] + b[k + 1..])) - multiset{a[0]};
      multiset(b[..k]) + multiset(b[k + 1..]);
    }
  }
}
