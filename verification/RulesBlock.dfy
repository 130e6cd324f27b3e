/** The marker-bounded block of an agent rules file: rendering it, finding it
    again with the pattern of `internal/agentrules/writer.go`, and replacing it.

    A file is a `string`; every recogniser below works on the text that is left,
    so "the rest of the file" is an argument rather than an index. */
module RulesBlock {
  import opened Text

  const MARK := "<!-- MCPLEXER:"
  const BEGIN := "<!-- MCPLEXER:BEGIN v"
  const ARROW := " -->"
  const END := "<!-- MCPLEXER:END -->"
  const LABEL := "**Dashboard:** "
  const DEFAULT_URL := "http://localhost:3333"

  /* ---- The pattern: ^BEGIN(\d+) -->\s*\n(.*?)\n?END\s*$ with m and s set ---- */

  function TakeDigits(s: string): (d: string)
    ensures d <= s && forall i :: 0 <= i < |d| ==> IsDigit(d[i])
  {
    if s != "" && IsDigit(s[0]) then [s[0]] + TakeDigits(s[1..]) else ""
  }

  predicate Blank(s: string) { TrimLeft(s, RegexSpace) == "" }

  /** Greedy `\s*\n`: what follows the last newline of the leading space run. */
  function AfterLastNewline(s: string): Option<string> {
    if s == "" || !RegexSpace(s[0]) then None
    else
      match AfterLastNewline(s[1..])
      case Some(r) => Some(r)
      case None => if s[0] == '\n' then Some(s[1..]) else None
  }

  /** As above, but `$` leaves that newline in place. */
  function FromLastNewline(s: string): Option<string> {
    if s == "" || !RegexSpace(s[0]) then None
    else
      match FromLastNewline(s[1..])
      case Some(r) => Some(r)
      case None => if s[0] == '\n' then Some(s) else None
  }

  /** Greedy `\s*$` after END: what the match leaves behind, if it can end. */
  function EndTail(s: string): Option<string> {
    if Blank(s) then Some("") else FromLastNewline(s)
  }

  datatype Body = Body(text: string, after: string)

  /** END starts here and the match can end after it. */
  predicate EndsHere(s: string) { END <= s && EndTail(s[|END|..]).Some? }

  /** Lazy `(.*?)\n?END\s*$`. */
  function SplitAtEnd(s: string): Option<Body> {
    if EndsHere(s) then Some(Body("", EndTail(s[|END|..]).value))
    else if s == "" then None
    else if s[0] == '\n' && EndsHere(s[1..]) then Some(Body("", EndTail(s[1..][|END|..]).value))
    else
      match SplitAtEnd(s[1..])
      case Some(b) => Some(b.(text := [s[0]] + b.text))
      case None => None
  }

  /** The digits of a BEGIN marker that starts `s`, and the text after ` -->`. */
  function Header(s: string): Option<(string, string)> {
    if !(BEGIN <= s) then None
    else
      var r := s[|BEGIN|..];
      var d := TakeDigits(r);
      if d == "" || !(ARROW <= r[|d|..]) then None else Some((d, r[|d|..][|ARROW|..]))
  }

  datatype Found = Found(before: string, digits: string, body: string, after: string)

  function ParseBlock(s: string): Option<Found> {
    match Header(s)
    case None => None
    case Some((d, rest)) =>
      match AfterLastNewline(rest)
      case None => None
      case Some(inner) =>
        match SplitAtEnd(inner)
        case None => None
        case Some(b) => Some(Found("", d, b.text, b.after))
  }

  /** `markerRegex.FindSubmatchIndex`: the leftmost match; `bol` says whether
      `s` starts a line. */
  function FindBlock(s: string, bol: bool): Option<Found> {
    if s == "" then None
    else if bol && ParseBlock(s).Some? then ParseBlock(s)
    else
      match FindBlock(s[1..], s[0] == '\n')
      case Some(f) => Some(f.(before := [s[0]] + f.before))
      case None => None
  }

  /** A line holding a BEGIN marker and nothing else. */
  predicate BeginLine(s: string) {
    match Header(s)
    case None => false
    case Some((_, rest)) => AfterLastNewline(rest).Some? || Blank(rest)
  }

  predicate HasBeginLine(s: string, bol: bool) {
    s != "" && ((bol && BeginLine(s)) || HasBeginLine(s[1..], s[0] == '\n'))
  }

  /* ---- Rendering ---- */

  /** The text of one content version around its single Dashboard line. */
  datatype Content = Content(head: string, tail: string) {
    function Text(url: string): string {
      head + "\n" + LABEL + url + tail
    }

    ghost predicate Good() {
      && head != "" && !UnicodeSpace(head[0])
      && tail != "" && tail[0] == '\n' && !UnicodeSpace(tail[|tail| - 1])
      && !Contains(head, MARK) && !Contains(tail, MARK)
      && !Contains(head, LABEL) && !Contains(tail, LABEL)
      && NoneStartsIn(head + "\n" + LABEL, DEFAULT_URL, DEFAULT_URL + tail)
    }
  }

  function Block(version: int, body: string): string {
    BEGIN + DecimalInt(version) + ARROW + "\n\n" + body + "\n\n" + END
  }

  function Render(version: int, c: Content): string {
    Block(version, c.Text(DEFAULT_URL)) + "\n"
  }

  function ApplyDashboard(s: string, url: string): string {
    if url == "" || url == DEFAULT_URL then s else ReplaceFirst(s, DEFAULT_URL, url)
  }

  function UrlOrDefault(url: string): string { if url == "" then DEFAULT_URL else url }

  /* ---- Comparing ---- */

  function DropLine(s: string): (r: string)
    ensures |r| <= |s|
  {
    if s == "" || s[0] == '\n' then s else DropLine(s[1..])
  }

  function TakeLine(s: string): string {
    if s == "" || s[0] == '\n' then "" else [s[0]] + TakeLine(s[1..])
  }

  /** `dashboardLineRegex.ReplaceAll(s, "**Dashboard:** <URL>")`. */
  function Canon(s: string, bol: bool): string
    decreases |s|
  {
    if s == "" then ""
    else if bol && LABEL <= s then LABEL + "<URL>" + Canon(DropLine(s[|LABEL|..]), false)
    else [s[0]] + Canon(s[1..], s[0] == '\n')
  }

  function NormalizeBody(s: string): string { Canon(TrimSpace(s), true) }

  /** The URL on the first Dashboard line, trimmed; "" when there is none. */
  function InstalledUrl(s: string, bol: bool): string {
    if s == "" then ""
    else if bol && LABEL <= s then TrimSpace(" " + TakeLine(s[|LABEL|..]))
    else InstalledUrl(s[1..], s[0] == '\n')
  }

  const TWO63: int := 0x8000_0000_0000_0000
  const TWO64: int := 0x1_0000_0000_0000_0000

  /** Wrap-around of Go's 64-bit `int`. */
  function Wrap64(x: int): int { (x + TWO63) % TWO64 - TWO63 }

  function ParseVersionFrom(b: string, n: int): int {
    if b == "" then n
    else if !IsDigit(b[0]) then -1
    else ParseVersionFrom(b[1..], Wrap64(n * 10 + (b[0] as int - '0' as int)))
  }

  function ParseVersion(b: string): int { ParseVersionFrom(b, 0) }

  /* ---- Sync, Status, DryRun and the diff reader ---- */

  datatype File = Missing | Present(text: string)
  datatype SyncResult = SyncResult(file: File, changed: bool)

  predicate TrimmedFromFile(c: char) { c == ' ' || c == '\t' || c == '\n' || c == '\r' }

  predicate Current(f: Found, version: int, c: Content) {
    ParseVersion(f.digits) == version && NormalizeBody(f.body) == NormalizeBody(c.Text(DEFAULT_URL))
  }

  function Appended(text: string, block: string): string {
    var trimmed := TrimRight(text, TrimmedFromFile);
    trimmed + (if trimmed != "" then "\n\n" else "") + block
  }

  function Replaced(f: Found, block: string): string {
    f.before + TrimRight(block, c => c == '\n') + f.after
  }

  function EffectiveUrl(f: Found, url: string): string {
    if url == "" then InstalledUrl(f.body, true) else url
  }

  /** What `syncBlock` leaves in the file and returns. */
  function Sync(file: File, version: int, url: string, c: Content): SyncResult {
    match file
    case Missing => SyncResult(Present(ApplyDashboard(Render(version, c), url)), true)
    case Present(text) =>
      match FindBlock(text, true)
      case None => SyncResult(Present(Appended(text, ApplyDashboard(Render(version, c), url))), true)
      case Some(f) =>
        if Current(f, version, c) && (url == "" || Contains(f.body, LABEL + url)) then SyncResult(file, false)
        else SyncResult(Present(Replaced(f, ApplyDashboard(Render(version, c), EffectiveUrl(f, url)))), true)
  }

  datatype StatusResult = StatusResult(present: bool, version: int, upToDate: bool)

  function Status(file: File, version: int, c: Content): StatusResult {
    match file
    case Missing => StatusResult(false, 0, false)
    case Present(text) =>
      match FindBlock(text, true)
      case None => StatusResult(false, 0, false)
      case Some(f) => StatusResult(true, ParseVersion(f.digits), Current(f, version, c))
  }

  datatype DryRunResult = DryRunResult(wouldChange: bool, markersFound: bool, oldText: string, newText: string)

  function DryRun(file: File, version: int, c: Content): DryRunResult {
    match file
    case Missing => DryRunResult(true, false, "", Render(version, c))
    case Present(text) =>
      match FindBlock(text, true)
      case None => DryRunResult(true, false, text, Appended(text, Render(version, c)))
      case Some(f) =>
        if Current(f, version, c) then DryRunResult(false, true, text, "")
        else DryRunResult(true, true, text, Replaced(f, Render(version, c)))
  }

  /** The suffix of `s` at the first copy of `p`. */
  function FromFirst(s: string, p: string): Option<string> {
    if p <= s then Some(s) else if s == "" then None else FromFirst(s[1..], p)
  }

  /** The prefix of `s` up to the first copy of `p`, that copy included. */
  function UpToFirst(s: string, p: string): Option<string> {
    if p <= s then Some(p)
    else if s == "" then None
    else match UpToFirst(s[1..], p) case Some(r) => Some([s[0]] + r) case None => None
  }

  /** `readBlockOrEmpty`: the block as `rules diff` reads it, without the pattern. */
  function ReadBlockOrEmpty(file: File): string {
    match file
    case Missing => ""
    case Present(text) =>
      match FromFirst(text, BEGIN)
      case None => ""
      case Some(s) => match UpToFirst(s, END) case None => "" case Some(b) => b + "\n"
  }
}
