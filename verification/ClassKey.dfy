/** The class marker of an incident task: how `jsonQuote` of
    `cmd/mcplexer/monitoring_baseline_wire.go` writes it into the meta blob, and
    what a JSON reader gets back. */
module ClassKey {
  import opened Text

  predicate IsBreak(c: char) { c == '\n' || c == '\r' || c == '\t' }
  predicate IsControl(c: char) { (c as int) < 0x20 }

  function QuoteChar(c: char): string {
    if c == '"' || c == '\\' then ['\\', c] else if IsBreak(c) then " " else [c]
  }

  function QuoteBody(s: string): string {
    if s == "" then "" else QuoteChar(s[0]) + QuoteBody(s[1..])
  }

  function JsonQuote(s: string): string { "\"" + (QuoteBody(s) + "\"") }

  method JsonQuoteLoop(s: string) returns (out: string)
    ensures out == JsonQuote(s)
  {
    out := "\"";
    for i := 0 to |s|
      invariant out + (QuoteBody(s[i..]) + "\"") == JsonQuote(s)
    {
      ghost var before := out;
      assert s[i..][1..] == s[i + 1..];
      var r := s[i];
      if r == '"' || r == '\\' {
        out := out + ['\\', r];
      } else if r == '\n' || r == '\r' || r == '\t' {
        out := out + [' '];
      } else {
        out := out + [r];
      }
      assert out == before + QuoteChar(s[i]);
      Assoc4(before, QuoteChar(s[i]), QuoteBody(s[i + 1..]), "\"");
    }
    assert s[|s|..] == "";
    out := out + "\"";
  }

  lemma Assoc4(a: string, b: string, c: string, d: string)
    ensures a + ((b + c) + d) == (a + b) + (c + d)
  {
  }

  /* ---- Reading a JSON string: section 7 of RFC 8259 ---- */

  function SimpleEscape(c: char): Option<char> {
    if c == '"' || c == '\\' || c == '/' then Some(c)
    else if c == 'b' then Some('\U{0008}')
    else if c == 'f' then Some('\U{000C}')
    else if c == 'n' then Some('\n')
    else if c == 'r' then Some('\r')
    else if c == 't' then Some('\t')
    else None
  }

  /** The character of a four-digit escape; surrogate halves are not read. */
  function UnicodeEscape(s: string): Option<char>
    requires |s| == 4
  {
    var a, b, c, d := HexValue(s[0]), HexValue(s[1]), HexValue(s[2]), HexValue(s[3]);
    if a.None? || b.None? || c.None? || d.None? then None
    else
      var n := ((a.value * 16 + b.value) * 16 + c.value) * 16 + d.value;
      if n < 0xD800 || 0xE000 <= n < 0x10000 then Some(n as char) else None
  }

  function Prepend(c: char, rest: Option<string>): Option<string> {
    match rest case None => None case Some(t) => Some([c] + t)
  }

  /** The characters up to the closing quote, which must end the text. */
  function ReadBody(s: string): Option<string>
    decreases |s|
  {
    if s == "" then None
    else if s[0] == '"' then (if |s| == 1 then Some("") else None)
    else if s[0] == '\\' then
      if |s| >= 2 && SimpleEscape(s[1]).Some? then Prepend(SimpleEscape(s[1]).value, ReadBody(s[2..]))
      else if |s| >= 6 && s[1] == 'u' && UnicodeEscape(s[2..6]).Some?
      then Prepend(UnicodeEscape(s[2..6]).value, ReadBody(s[6..]))
      else None
    else if IsControl(s[0]) then None
    else Prepend(s[0], ReadBody(s[1..]))
  }

  function ReadString(s: string): Option<string> {
    if s == "" || s[0] != '"' then None else ReadBody(s[1..])
  }

  /* ---- What comes back ---- */

  /** Line breaks and tabs as the spaces they were written as. */
  function Spaced(s: string): string {
    if s == "" then "" else [if IsBreak(s[0]) then ' ' else s[0]] + Spaced(s[1..])
  }

  /** A control character that is written raw, which no JSON reader accepts. */
  predicate Unreadable(s: string) { exists i :: 0 <= i < |s| && IsControl(s[i]) && !IsBreak(s[i]) }

  predicate Clean(s: string) { forall i :: 0 <= i < |s| ==> !IsControl(s[i]) }

  /** The class a reader finds for a key: what `json_extract` gives the unique index. */
  function Stored(key: string): Option<string> { ReadString(JsonQuote(key)) }

  lemma {:induction false} ReadQuoted(s: string)
    ensures ReadBody(QuoteBody(s) + "\"") == if Unreadable(s) then None else Some(Spaced(s))
  {
    if s == "" {
      assert QuoteBody(s) + "\"" == "\"";
    } else {
      var rest := QuoteBody(s[1..]) + "\"";
      ReadQuoted(s[1..]);
      UnreadableTail(s);
      if s[0] == '"' || s[0] == '\\' {
        assert QuoteBody(s) + "\"" == ['\\', s[0]] + rest;
        assert (['\\', s[0]] + rest)[2..] == rest;
      } else {
        var c := if IsBreak(s[0]) then ' ' else s[0];
        assert QuoteBody(s) + "\"" == [c] + rest;
        assert ([c] + rest)[1..] == rest;
      }
    }
  }

  lemma UnreadableTail(s: string)
    requires s != ""
    ensures Unreadable(s) <==> (IsControl(s[0]) && !IsBreak(s[0])) || Unreadable(s[1..])
  {
    assert forall i :: 0 < i < |s| ==> s[i] == s[1..][i - 1];
    if Unreadable(s[1..]) {
      var i :| 0 <= i < |s[1..]| && IsControl(s[1..][i]) && !IsBreak(s[1..][i]);
      assert s[i + 1] == s[1..][i];
    }
  }

  lemma {:induction false} SpacedSame(s: string)
    ensures Spaced(s) == s <==> forall i :: 0 <= i < |s| ==> !IsBreak(s[i])
    ensures |Spaced(s)| == |s|
    ensures forall i :: 0 <= i < |Spaced(s)| ==> !IsBreak(Spaced(s)[i])
  {
    if s != "" {
      SpacedSame(s[1..]);
      assert forall i :: 0 < i < |s| ==> s[i] == s[1..][i - 1];
      assert Spaced(s)[1..] == Spaced(s[1..]);
      if Spaced(s) == s { assert Spaced(s[1..]) == s[1..]; }
      if forall i :: 0 <= i < |s| ==> !IsBreak(s[i]) {
        forall i | 0 <= i < |s[1..]| ensures !IsBreak(s[1..][i]) { assert s[1..][i] == s[i + 1]; }
      }
    }
  }

  /** What is stored for any key: nothing readable, or the key with its line
      breaks and tabs turned into spaces. */
  lemma StoredIs(key: string)
    ensures Stored(key) == if Unreadable(key) then None else Some(Spaced(key))
  {
    ReadQuoted(key);
    assert JsonQuote(key)[1..] == QuoteBody(key) + "\"";
  }

  /** A key comes back as itself exactly when it holds no control character. */
  lemma QuoteRoundTripIff(key: string)
    ensures Stored(key) == Some(key) <==> Clean(key)
  {
    StoredIs(key);
    SpacedSame(key);
    if Clean(key) {
      assert forall i :: 0 <= i < |key| ==> !IsBreak(key[i]);
    }
  }

  /** A key byte by byte: the characters it encodes, and each byte that encodes none. */
  datatype Unit = Rune(c: char) | Bad(byte: nat)

  /** What ranging over such a key yields: the replacement character for a bad byte. */
  function Runes(key: seq<Unit>): string {
    if key == [] then "" else [if key[0].Rune? then key[0].c else '\U{FFFD}'] + Runes(key[1..])
  }

  function Units(s: string): seq<Unit> {
    if s == "" then [] else [Rune(s[0])] + Units(s[1..])
  }

  predicate WellEncoded(key: seq<Unit>) { forall i :: 0 <= i < |key| ==> key[i].Rune? }

  lemma {:induction false} UnitsOfRunes(key: seq<Unit>)
    requires WellEncoded(key)
    ensures Units(Runes(key)) == key
  {
    if key != [] { UnitsOfRunes(key[1..]); }
  }

  lemma {:induction false} RunesOfUnits(s: string)
    ensures WellEncoded(Units(s)) && Runes(Units(s)) == s
  {
    if s != "" {
      RunesOfUnits(s[1..]);
      assert Units(s)[1..] == Units(s[1..]);
    }
  }

  /** Any key, badly encoded ones included, comes back as itself exactly when all of it
      encodes characters and none is a control character. */
  lemma KeyRoundTripIff(key: seq<Unit>)
    ensures (Stored(Runes(key)).Some? && Units(Stored(Runes(key)).value) == key)
      <==> WellEncoded(key) && Clean(Runes(key))
  {
    QuoteRoundTripIff(Runes(key));
    if WellEncoded(key) { UnitsOfRunes(key); }
    if Stored(Runes(key)).Some? { RunesOfUnits(Stored(Runes(key)).value); }
  }

  /** What is stored never holds a line break or a tab, so a key that does is
      never found by its own text. */
  lemma StoredHasNoBreak(key: string)
    requires Stored(key).Some?
    ensures forall i :: 0 <= i < |Stored(key).value| ==> !IsBreak(Stored(key).value[i])
    ensures Clean(Stored(key).value)
    ensures Stored(key).value == "" <==> key == ""
  {
    StoredIs(key);
    SpacedSame(key);
    SpacedClean(key);
  }

  lemma {:induction false} SpacedClean(s: string)
    requires !Unreadable(s)
    ensures Clean(Spaced(s))
  {
    if s != "" {
      UnreadableTail(s);
      SpacedClean(s[1..]);
      assert !(IsControl(s[0]) && !IsBreak(s[0])) by { assert s[0] == s[0]; }
      assert Spaced(s)[1..] == Spaced(s[1..]);
      assert forall i :: 0 < i < |Spaced(s)| ==> Spaced(s)[i] == Spaced(s[1..])[i - 1];
    }
  }
}
