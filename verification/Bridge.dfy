/** The stdio-to-socket bridge of `cmd/mcplexer/connect.go`, as a transition
    system: one stdin queue, successive daemon connections, a captured handshake.

    Every `Event` is one atomic move of the main loop, of a session's writer or
    reader goroutine, or of the environment; a run may take any enabled event. */
module Bridge {
  import opened Text

  /* ---- Messages ---- */

  datatype Params = NoParams | NullParams | OtherParams | Fields(fields: map<string, string>)

  /** A line of stdin. `typed` says whether the JSON-RPC envelope decodes;
      `others` are the members the envelope does not know. */
  datatype Line =
    | Empty
    | TooLong
    | Plain(text: string)
    | Rpc(name: string, typed: bool, params: Params, others: string)

  predicate IsInitialize(l: Line) { l.Rpc? && l.name == "initialize" }
  predicate IsInitialized(l: Line) { l.Rpc? && l.name == "notifications/initialized" }

  /** `readLines`: empty lines are skipped; a line over the scanner's limit ends
      the stream as EOF does. */
  function ReadLines(input: seq<Line>): seq<Line> {
    if input == [] || input[0].TooLong? then []
    else if input[0].Empty? then ReadLines(input[1..])
    else [input[0]] + ReadLines(input[1..])
  }

  /** The scanner loop: what it puts on the channel before closing it. */
  method ReadLinesLoop(input: seq<Line>) returns (sent: seq<Line>)
    ensures sent == ReadLines(input)
  {
    sent := [];
    for i := 0 to |input|
      invariant sent + ReadLines(input[i..]) == ReadLines(input)
    {
      assert input[i..][1..] == input[i + 1..];
      if input[i].TooLong? { return; }
      if input[i].Empty? { continue; }
      ghost var before := sent;
      sent := sent + [input[i]];
      assert before + ([input[i]] + ReadLines(input[i + 1..])) == sent + ReadLines(input[i + 1..]);
    }
  }

  function RootFor(cwd: string): string { "file://" + cwd }

  /** `maybeInjectRoots`. `None` is the write to a nil map that `"params": null` leads to. */
  function InjectRoots(l: Line, cwd: string): Option<Line> {
    if cwd == "" || !l.Rpc? || !l.typed || l.name != "initialize" then Some(l)
    else
      match l.params
      case NoParams => Some(l)
      case OtherParams => Some(l)
      case NullParams => None
      case Fields(fs) =>
        if "roots" in fs then Some(l)
        else Some(l.(params := Fields(fs["roots" := RootFor(cwd)]), others := ""))
  }

  /* ---- What the connections should carry ---- */

  /** The handshake as captured from the lines handled so far. */
  function FirstInit(ls: seq<Line>, cwd: string): Option<Line> {
    if ls == [] then None
    else
      var before := FirstInit(ls[..|ls| - 1], cwd);
      if before.Some? || !IsInitialize(ls[|ls| - 1]) then before
      else InjectRoots(ls[|ls| - 1], cwd)
  }

  function FirstNotif(ls: seq<Line>): Option<Line> {
    if ls == [] then None
    else
      var before := FirstNotif(ls[..|ls| - 1]);
      if before.Some? || !IsInitialized(ls[|ls| - 1]) then before else Some(ls[|ls| - 1])
  }

  /** The frame a line becomes after the lines `before` it. */
  function FrameFor(before: seq<Line>, l: Line, cwd: string): Line {
    if IsInitialize(l) && FirstInit(before, cwd).None? && InjectRoots(l, cwd).Some?
    then InjectRoots(l, cwd).value else l
  }

  /** The lines as frames: the first initialize carries the injected roots. */
  function Frames(ls: seq<Line>, cwd: string): (fs: seq<Line>)
    ensures |fs| == |ls|
  {
    if ls == [] then []
    else Frames(ls[..|ls| - 1], cwd) + [FrameFor(ls[..|ls| - 1], ls[|ls| - 1], cwd)]
  }

  /* ---- State ---- */

  datatype Exit = StdinClosed | WriteFailed | Stopped
  datatype Writer = NoWriter | Waiting | Holding(msg: Line) | Exited(why: Exit)

  /** One frame handed to `conn.Write`. */
  datatype Attempt = Attempt(frame: Line, live: bool, ok: bool)

  /** One dialled connection. `openReq` and `openNotif` are what was captured when
      it was dialled; `read` counts the bytes taken from it, `skipped` those of
      them that were the discarded handshake response. */
  datatype Conn = Conn(
    wire: seq<Attempt>, arrived: string, read: nat, skipped: nat,
    writer: Writer, stop: bool, reading: bool, readDone: bool,
    replay: bool, openReq: Option<Line>, openNotif: Option<Line>)

  datatype Phase =
    | Dialing | SendInit | AwaitInit | SendNotif
    | Session | AwaitWriter | Draining | Returned | Crashed

  datatype State = State(
    lines: seq<Line>, cwd: string, taken: nat,
    phase: Phase, cancelled: bool, firstConnect: bool,
    initReq: Option<Line>, initNotif: Option<Line>,
    conns: seq<Conn>, out: seq<(nat, char)>)

  function Init(input: seq<Line>, cwd: string): State {
    State(ReadLines(input), cwd, 0, Dialing, false, true, None, None, [], [])
  }

  predicate Live(w: Writer) { w.Waiting? || w.Holding? }

  function Last(s: State): int { |s.conns| - 1 }

  predicate Open(s: State) { s.conns != [] }

  function Current(s: State): Conn
    requires Open(s)
  {
    s.conns[Last(s)]
  }

  function WithConn(s: State, i: nat, c: Conn): State
    requires i < |s.conns|
  {
    s.(conns := s.conns[i := c])
  }

  function WithCurrent(s: State, c: Conn): State
    requires Open(s)
  {
    WithConn(s, Last(s), c)
  }

  /* ---- Events ---- */

  datatype Event =
    | Cancel                        // ctx is cancelled
    | Arrive(conn: nat, text: string) // bytes from the daemon
    | LoopCancelled | DialFails     // the loop or the dial notices ctx
    | DialOk
    | InitSent(ok: bool) | InitAnswered(ok: bool) | NotifSent(ok: bool)
    | Take(conn: nat)               // a writer receives a line
    | SeeEof(conn: nat) | SeeStop(conn: nat) // it sees the closed channel, or sessionDone
    | Send(conn: nat, ok: bool)     // it handles the line it holds
    | Copy(conn: nat, count: nat) | CopyEnd(conn: nat)
    | SessionCancelled | ReadEnded | WriterEnded | WriterJoined | DrainEnds

  /** The position after the first newline, if there is one. */
  function AfterNewline(s: string): Option<nat> {
    if s == "" then None
    else if s[0] == '\n' then Some(1)
    else match AfterNewline(s[1..]) case None => None case Some(k) => Some(k + 1)
  }

  predicate Enabled(s: State, e: Event) {
    match e
    case Cancel => !s.phase.Crashed?
    case Arrive(c, _) => c < |s.conns| && !s.phase.Crashed?
    case LoopCancelled => s.phase.Dialing? && s.cancelled
    case DialFails => s.phase.Dialing? && s.cancelled
    case DialOk => s.phase.Dialing?
    case InitSent(_) => s.phase.SendInit? && Open(s) && s.initReq.Some?
    case InitAnswered(ok) => s.phase.AwaitInit? && Open(s) && (ok ==> AfterNewline(Current(s).arrived).Some?)
    case NotifSent(_) => s.phase.SendNotif? && Open(s)
    case Take(c) => c < |s.conns| && s.conns[c].writer.Waiting? && s.taken < |s.lines| && !s.phase.Crashed?
    case SeeEof(c) => c < |s.conns| && s.conns[c].writer.Waiting? && s.taken == |s.lines| && !s.phase.Crashed?
    case SeeStop(c) => c < |s.conns| && s.conns[c].writer.Waiting? && s.conns[c].stop && !s.phase.Crashed?
    case Send(c, _) => c < |s.conns| && s.conns[c].writer.Holding? && !s.phase.Crashed?
    case Copy(c, n) =>
      && c < |s.conns| && s.conns[c].reading && !s.conns[c].readDone && !s.phase.Crashed?
      && 0 < n && s.conns[c].read + n <= |s.conns[c].arrived|
    case CopyEnd(c) => c < |s.conns| && s.conns[c].reading && !s.conns[c].readDone && !s.phase.Crashed?
    case SessionCancelled => s.phase.Session? && s.cancelled
    case ReadEnded => s.phase.Session? && Open(s) && Current(s).readDone
    case WriterEnded => s.phase.Session? && Open(s) && Current(s).writer.Exited?
    case WriterJoined => s.phase.AwaitWriter? && Open(s) && Current(s).writer.Exited?
    case DrainEnds => s.phase.Draining?
  }

  /** Bytes written to the client, each with the connection it came from. */
  function Tagged(c: nat, text: string): seq<(nat, char)> {
    if text == "" then [] else [(c, text[0])] + Tagged(c, text[1..])
  }

  function NewConn(s: State): Conn {
    var replay := !s.firstConnect && s.initReq.Some?;
    Conn([], "", 0, 0, NoWriter, false, false, false, replay, s.initReq, s.initNotif)
  }

  /** `bridgeSessionOut` starts its two goroutines. */
  function StartSession(s: State): State
    requires Open(s)
  {
    WithCurrent(s, Current(s).(writer := Waiting, reading := true)).(phase := Session)
  }

  /** The tail of the loop body after a session. */
  function EndSession(s: State): State {
    s.(firstConnect := false, phase := if s.cancelled then Returned else Dialing)
  }

  function Attempted(c: Conn, frame: Line, live: bool, ok: bool): Conn {
    c.(wire := c.wire + [Attempt(frame, live, ok)])
  }

  function Handle(s: State, i: nat, ok: bool): State
    requires i < |s.conns| && s.conns[i].writer.Holding?
  {
    var c := s.conns[i];
    var msg := c.writer.msg;
    var next := if ok then Waiting else Exited(WriteFailed);
    if s.initReq.None? && IsInitialize(msg) then
      match InjectRoots(msg, s.cwd)
      case None => s.(phase := Crashed)
      case Some(f) => WithConn(s, i, Attempted(c, f, true, ok).(writer := next)).(initReq := Some(f))
    else
      var notif := if s.initNotif.None? && IsInitialized(msg) then Some(msg) else s.initNotif;
      WithConn(s, i, Attempted(c, msg, true, ok).(writer := next)).(initNotif := notif)
  }

  function Step(s: State, e: Event): State
    requires Enabled(s, e)
  {
    match e
    case Cancel => s.(cancelled := true)
    case Arrive(c, t) => WithConn(s, c, s.conns[c].(arrived := s.conns[c].arrived + t))
    case LoopCancelled => s.(phase := Returned)
    case DialFails => s.(phase := Returned)
    case DialOk =>
      var t := s.(conns := s.conns + [NewConn(s)]);
      if NewConn(s).replay then t.(phase := SendInit) else StartSession(t)
    case InitSent(ok) =>
      WithCurrent(s, Attempted(Current(s), s.initReq.value, false, ok)).(phase := if ok then AwaitInit else Dialing)
    case InitAnswered(ok) =>
      if !ok then s.(phase := Dialing)
      else
        var k := AfterNewline(Current(s).arrived).value;
        WithCurrent(s, Current(s).(read := k, skipped := k)).(phase := SendNotif)
    case NotifSent(ok) =>
      if s.initNotif.None? then StartSession(s)
      else StartSession(WithCurrent(s, Attempted(Current(s), s.initNotif.value, false, ok)))
    case Take(c) =>
      WithConn(s, c, s.conns[c].(writer := Holding(s.lines[s.taken]))).(taken := s.taken + 1)
    case SeeEof(c) => WithConn(s, c, s.conns[c].(writer := Exited(StdinClosed)))
    case SeeStop(c) => WithConn(s, c, s.conns[c].(writer := Exited(Stopped)))
    case Send(c, ok) => Handle(s, c, ok)
    case Copy(c, n) =>
      var k := s.conns[c];
      WithConn(s, c, k.(read := k.read + n)).(out := s.out + Tagged(c, k.arrived[k.read..k.read + n]))
    case CopyEnd(c) => WithConn(s, c, s.conns[c].(readDone := true))
    case SessionCancelled => EndSession(s)
    case ReadEnded => WithCurrent(s, Current(s).(stop := true)).(phase := AwaitWriter)
    case WriterEnded =>
      if Current(s).writer.why.StdinClosed? then s.(phase := Draining) else EndSession(s)
    case WriterJoined => EndSession(s)
    case DrainEnds => s.(phase := Returned)
  }

  ghost predicate Next(s: State, t: State) { exists e :: Enabled(s, e) && t == Step(s, e) }

  ghost predicate LinkedAt(run: seq<State>, i: int)
    requires 0 < i < |run|
  {
    Next(run[i - 1], run[i])
  }

  /** A run: states linked by enabled events, from the start of the bridge. */
  ghost predicate IsRun(run: seq<State>, input: seq<Line>, cwd: string) {
    && run != [] && run[0] == Init(input, cwd)
    && forall i :: 0 < i < |run| ==> LinkedAt(run, i)
  }
}
