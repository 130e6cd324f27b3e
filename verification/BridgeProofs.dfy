/** What every run of the bridge keeps, whatever drops, write errors, reconnects
    and cancellations it goes through. */
module BridgeProofs {
  import opened Text
  import opened Bridge

  /* ---- Reading a state ---- */

  function LiveOf(wire: seq<Attempt>): seq<Line> {
    if wire == [] then []
    else LiveOf(wire[..|wire| - 1]) + (if wire[|wire| - 1].live then [wire[|wire| - 1].frame] else [])
  }

  /** The live frames handed to `conn.Write`, over all connections. */
  function LiveFrames(conns: seq<Conn>): seq<Line> {
    if conns == [] then [] else LiveFrames(conns[..|conns| - 1]) + LiveOf(conns[|conns| - 1].wire)
  }

  /** The client's bytes that came from connection `c`. */
  function From(out: seq<(nat, char)>, c: nat): string {
    if out == [] then ""
    else From(out[..|out| - 1], c) + (if out[|out| - 1].0 == c then [out[|out| - 1].1] else "")
  }

  /** How many lines have been fully handled by a writer. */
  function Handled(s: State): int {
    if Open(s) && Current(s).writer.Holding? then s.taken - 1 else s.taken
  }

  /* ---- The invariant ---- */

  /** Only the newest connection can have a live writer, and only from its session on. */
  ghost predicate OneWriter(s: State) {
    && (forall c :: 0 <= c < Last(s) ==> !Live(s.conns[c].writer))
    && (Open(s) && Live(Current(s).writer) ==>
          s.phase.Session? || s.phase.AwaitWriter? || s.phase.Returned? || s.phase.Crashed?)
    && (s.phase.SendInit? || s.phase.AwaitInit? || s.phase.SendNotif? ==>
          Open(s) && Current(s).writer.NoWriter? && Current(s).replay && !s.firstConnect)
    && (s.phase.Session? || s.phase.AwaitWriter? ==> Open(s) && !Current(s).writer.NoWriter?)
    && (s.phase.Dialing? && s.firstConnect ==> s.conns == [])
  }

  /** The lines handled so far determine every live frame and the captures. */
  ghost predicate FramesOk(s: State) {
    && s.taken <= |s.lines|
    && (Open(s) && Current(s).writer.Holding? ==> s.taken > 0 && Current(s).writer.msg == s.lines[s.taken - 1])
    && 0 <= Handled(s)
    && var done := s.lines[..Handled(s)];
       && LiveFrames(s.conns) == Frames(done, s.cwd)
       && s.initReq == FirstInit(done, s.cwd)
       && s.initNotif == FirstNotif(done)
  }

  /** How many replayed frames a connection opens with. */
  function ReplayCount(c: Conn): nat {
    if !c.replay then 0 else if c.openNotif.Some? then 2 else 1
  }

  /** The replay comes first, is exactly what was captured, and everything after it is live. */
  ghost predicate WireOk(c: Conn) {
    && (c.replay <==> c.openReq.Some?)
    && (c.replay && |c.wire| > 0 ==> c.wire[0].frame == c.openReq.value && !c.wire[0].live)
    && (c.replay && |c.wire| > 1 && c.openNotif.Some? ==> c.wire[1].frame == c.openNotif.value && !c.wire[1].live)
    && (forall i :: ReplayCount(c) <= i < |c.wire| ==> c.wire[i].live)
    && (!c.writer.NoWriter? ==> ReplayCount(c) <= |c.wire|)
  }

  ghost predicate HandshakeOk(s: State) {
    && (forall c :: 0 <= c < |s.conns| ==>
          && WireOk(s.conns[c])
          && (s.conns[c].openReq.Some? ==> s.conns[c].openReq == s.initReq)
          && (s.conns[c].openNotif.Some? ==> s.conns[c].openNotif == s.initNotif))
    && (s.phase.SendInit? ==> Open(s) && Current(s).wire == [])
    && (s.phase.AwaitInit? || s.phase.SendNotif? ==> Open(s) && |Current(s).wire| == 1)
    && (s.phase.SendInit? || s.phase.AwaitInit? || s.phase.SendNotif? ==>
          Open(s) && Current(s).openReq == s.initReq && Current(s).openNotif == s.initNotif)
  }

  /** Of a connection the client gets everything read after the discarded first line. */
  ghost predicate ReadOk(c: Conn) {
    && c.skipped <= c.read <= |c.arrived|
    && (c.skipped == 0 || AfterNewline(c.arrived) == Some(c.skipped))
    && (c.skipped > 0 ==> c.replay) && (c.reading && c.replay ==> c.skipped > 0)
    && (!c.reading ==> c.read == c.skipped)
    && (c.writer.NoWriter? <==> !c.reading)
  }

  ghost predicate OutputOk(s: State) {
    && (forall c :: 0 <= c < |s.conns| ==>
          && ReadOk(s.conns[c])
          && From(s.out, c) == s.conns[c].arrived[s.conns[c].skipped..s.conns[c].read])
    && (forall c: nat :: |s.conns| <= c ==> From(s.out, c) == "")
    && (s.phase.SendInit? || s.phase.AwaitInit? ==> Open(s) && Current(s).skipped == 0)
    && (s.phase.SendNotif? ==> Open(s) && Current(s).skipped > 0)
  }

  ghost predicate Inv(s: State) { OneWriter(s) && FramesOk(s) && HandshakeOk(s) && OutputOk(s) }

  /* ---- Helpers ---- */

  lemma LiveFramesSame(a: seq<Conn>, b: seq<Conn>)
    requires |a| == |b| && forall i :: 0 <= i < |a| ==> LiveOf(a[i].wire) == LiveOf(b[i].wire)
    ensures LiveFrames(a) == LiveFrames(b)
  {
    if a != [] { LiveFramesSame(a[..|a| - 1], b[..|b| - 1]); }
  }

  lemma LiveFramesAttempt(conns: seq<Conn>, c: Conn, frame: Line, live: bool, ok: bool)
    requires conns != [] && c.wire == conns[|conns| - 1].wire + [Attempt(frame, live, ok)]
    ensures LiveFrames(conns[|conns| - 1 := c]) == LiveFrames(conns) + (if live then [frame] else [])
  {
    var d := conns[|conns| - 1 := c];
    assert d[..|d| - 1] == conns[..|conns| - 1];
    assert c.wire[..|c.wire| - 1] == conns[|conns| - 1].wire;
  }

  lemma LiveFramesOpened(conns: seq<Conn>, c: Conn)
    requires c.wire == []
    ensures LiveFrames(conns + [c]) == LiveFrames(conns)
  {
    assert (conns + [c])[..|conns|] == conns;
  }

  lemma {:induction false} FromTagged(out: seq<(nat, char)>, k: nat, text: string, c: nat)
    ensures From(out + Tagged(k, text), c) == From(out, c) + (if k == c then text else "")
    decreases |text|
  {
    if text == "" {
      assert out + Tagged(k, text) == out;
    } else {
      var out' := out + [(k, text[0])];
      assert out + Tagged(k, text) == out' + Tagged(k, text[1..]);
      assert out'[..|out'| - 1] == out;
      FromTagged(out', k, text[1..], c);
      assert text == [text[0]] + text[1..];
    }
  }

  lemma {:induction false} AfterNewlineStays(s: string, t: string)
    requires AfterNewline(s).Some?
    ensures AfterNewline(s).value <= |s| && AfterNewline(s + t) == AfterNewline(s)
  {
    assert (s + t)[0] == s[0];
    if s[0] != '\n' {
      assert (s + t)[1..] == s[1..] + t;
      AfterNewlineStays(s[1..], t);
    }
  }

  /* ---- Every step keeps the invariant ---- */

  lemma InitInv(input: seq<Line>, cwd: string)
    ensures Inv(Init(input, cwd))
  {}

  /** Events of the main loop that touch no connection. */
  predicate LoopOnly(e: Event) {
    e.Cancel? || e.LoopCancelled? || e.DialFails? || e.SessionCancelled? || e.WriterEnded? || e.WriterJoined?
    || e.DrainEnds?
  }

  lemma LoopOneWriter(s: State, e: Event)
    requires OneWriter(s) && Enabled(s, e) && LoopOnly(e)
    ensures OneWriter(Step(s, e))
  {}

  /** Moves of one connection's goroutines, or of the daemon on it. */
  lemma ConnOneWriter(s: State, t: State, i: nat)
    requires OneWriter(s) && i < |s.conns| == |t.conns| && t.conns == s.conns[i := t.conns[i]]
    requires t.phase == s.phase && t.firstConnect == s.firstConnect && t.conns[i].replay == s.conns[i].replay
    requires Live(t.conns[i].writer) ==> Live(s.conns[i].writer)
    requires t.conns[i].writer.NoWriter? <==> s.conns[i].writer.NoWriter?
    ensures OneWriter(t)
  {}

  lemma OpenOneWriter(s: State, e: Event)
    requires OneWriter(s) && Enabled(s, e)
    requires e.DialOk? || e.InitSent? || e.InitAnswered? || e.NotifSent? || e.ReadEnded?
    ensures OneWriter(Step(s, e))
  {}

  lemma SendOneWriter(s: State, c: nat, ok: bool)
    requires OneWriter(s) && Enabled(s, Send(c, ok))
    ensures OneWriter(Step(s, Send(c, ok)))
  {
    var t := Step(s, Send(c, ok));
    if !t.phase.Crashed? {
      HandleShape(s, c, ok);
      ConnOneWriter(s, t, c);
    }
  }

  lemma StepOneWriter(s: State, e: Event)
    requires OneWriter(s) && Enabled(s, e)
    ensures OneWriter(Step(s, e))
  {
    match e
    case Send(c, ok) => SendOneWriter(s, c, ok);
    case Take(c) => ConnOneWriter(s, Step(s, Take(c)), c);
    case SeeEof(c) => ConnOneWriter(s, Step(s, SeeEof(c)), c);
    case SeeStop(c) => ConnOneWriter(s, Step(s, SeeStop(c)), c);
    case Arrive(c, text) => ConnOneWriter(s, Step(s, Arrive(c, text)), c);
    case Copy(c, n) => ConnOneWriter(s, Step(s, Copy(c, n)), c);
    case CopyEnd(c) => ConnOneWriter(s, Step(s, CopyEnd(c)), c);
    case _ => if LoopOnly(e) { LoopOneWriter(s, e); } else { OpenOneWriter(s, e); }
  }

  predicate Opening(p: Phase) { p.SendInit? || p.AwaitInit? || p.SendNotif? }

  /** Events that hand no frame to a connection, open none and take no line. */
  predicate Quiet(e: Event) {
    !(e.Take? || e.Send? || e.InitSent? || e.NotifSent? || e.DialOk? || e.Arrive? || e.Copy? || e.InitAnswered?)
  }

  /** What a quiet event leaves alone. */
  lemma QuietStep(s: State, e: Event)
    requires OneWriter(s) && Enabled(s, e) && Quiet(e)
    ensures var t := Step(s, e);
      && s.lines == t.lines && s.cwd == t.cwd && |s.conns| == |t.conns| && s.out == t.out
      && s.taken == t.taken && s.initReq == t.initReq && s.initNotif == t.initNotif
      && (Opening(t.phase) ==> t.phase == s.phase)
    ensures var t := Step(s, e); |s.conns| == |t.conns| && forall i :: 0 <= i < |s.conns| ==>
      && var (c, d) := (s.conns[i], t.conns[i]);
      && d == c.(writer := d.writer, stop := d.stop, readDone := d.readDone)
      && (d.writer == c.writer || (c.writer.Waiting? && d.writer.Exited?))
  {}

  /* ---- Live frames and captures ---- */

  lemma QuietFrames(s: State, t: State)
    requires FramesOk(s) && s.lines == t.lines && s.cwd == t.cwd && |s.conns| == |t.conns|
    requires s.taken == t.taken && s.initReq == t.initReq && s.initNotif == t.initNotif
    requires forall i :: 0 <= i < |s.conns| ==>
      && s.conns[i].wire == t.conns[i].wire
      && (s.conns[i].writer == t.conns[i].writer || (!s.conns[i].writer.Holding? && !t.conns[i].writer.Holding?))
    ensures FramesOk(t)
  {
    LiveFramesSame(s.conns, t.conns);
  }

  lemma TakeFrames(s: State, c: nat)
    requires OneWriter(s) && FramesOk(s) && Enabled(s, Take(c))
    ensures FramesOk(Step(s, Take(c)))
  {
    LiveFramesSame(s.conns, Step(s, Take(c)).conns);
  }

  lemma WriterIsLast(s: State, c: nat)
    requires OneWriter(s) && c < |s.conns| && Live(s.conns[c].writer)
    ensures c == Last(s) && !Opening(s.phase)
  {}

  lemma HandleShape(s: State, i: nat, ok: bool)
    requires i < |s.conns| && s.conns[i].writer.Holding? && !Handle(s, i, ok).phase.Crashed?
    ensures var t := Handle(s, i, ok); var msg := s.conns[i].writer.msg;
      var f := if s.initReq.None? && IsInitialize(msg) then InjectRoots(msg, s.cwd).value else msg;
      && t.conns == s.conns[i := t.conns[i]] && !t.conns[i].writer.Holding? && !t.conns[i].writer.NoWriter?
      && t.conns[i] == s.conns[i].(writer := t.conns[i].writer, wire := s.conns[i].wire + [Attempt(f, true, ok)])
      && t == s.(conns := t.conns, initReq := t.initReq, initNotif := t.initNotif)
      && (s.initReq.Some? ==> t.initReq == s.initReq) && (s.initNotif.Some? ==> t.initNotif == s.initNotif)
  {}

  /** What handling a line captures. */
  lemma HandleCaptures(s: State, i: nat, ok: bool)
    requires i < |s.conns| && s.conns[i].writer.Holding? && !Handle(s, i, ok).phase.Crashed?
    ensures var t := Handle(s, i, ok); var msg := s.conns[i].writer.msg;
      && t.initReq == (if s.initReq.Some? || !IsInitialize(msg) then s.initReq else InjectRoots(msg, s.cwd))
      && t.initNotif == (if s.initNotif.Some? || !IsInitialized(msg) then s.initNotif else Some(msg))
  {}

  lemma CapturesStep(ls: seq<Line>, l: Line, cwd: string)
    ensures FirstInit(ls + [l], cwd) ==
      if FirstInit(ls, cwd).Some? || !IsInitialize(l) then FirstInit(ls, cwd) else InjectRoots(l, cwd)
    ensures FirstNotif(ls + [l]) == if FirstNotif(ls).Some? || !IsInitialized(l) then FirstNotif(ls) else Some(l)
    ensures Frames(ls + [l], cwd) == Frames(ls, cwd) + [FrameFor(ls, l, cwd)]
  {
    assert (ls + [l])[..|ls|] == ls;
  }

  lemma HandledFrames(s: State, c: nat, ok: bool)
    requires Open(s) && c == Last(s) && s.conns[c].writer.Holding? && FramesOk(s)
    requires !Handle(s, c, ok).phase.Crashed?
    ensures FramesOk(Handle(s, c, ok))
  {
    var t := Handle(s, c, ok);
    var before, msg := s.lines[..s.taken - 1], s.lines[s.taken - 1];
    assert Handled(s) == s.taken - 1 && Current(s).writer.msg == msg;
    HandleShape(s, c, ok);
    HandleCaptures(s, c, ok);
    CapturesStep(before, msg, s.cwd);
    LiveFramesAttempt(s.conns, t.conns[c], FrameFor(before, msg, s.cwd), true, ok);
    SentOk(s, t, before, msg);
  }

  lemma SendFrames(s: State, c: nat, ok: bool)
    requires OneWriter(s) && FramesOk(s) && Enabled(s, Send(c, ok))
    ensures FramesOk(Step(s, Send(c, ok)))
  {
    WriterIsLast(s, c);
    if !Handle(s, c, ok).phase.Crashed? { HandledFrames(s, c, ok); }
  }

  lemma SentOk(s: State, t: State, before: seq<Line>, msg: Line)
    requires 0 < s.taken <= |s.lines| && before == s.lines[..s.taken - 1] && msg == s.lines[s.taken - 1]
    requires t.lines == s.lines && t.cwd == s.cwd && t.taken == s.taken
    requires Open(t) && !Current(t).writer.Holding?
    requires LiveFrames(t.conns) == Frames(before + [msg], s.cwd)
    requires t.initReq == FirstInit(before + [msg], s.cwd) && t.initNotif == FirstNotif(before + [msg])
    ensures FramesOk(t)
  {
    assert s.lines[..s.taken] == before + [msg];
  }

  lemma InitSentFrames(s: State, ok: bool)
    requires OneWriter(s) && FramesOk(s) && Enabled(s, InitSent(ok))
    ensures FramesOk(Step(s, InitSent(ok)))
  {
    LiveFramesAttempt(s.conns, Current(Step(s, InitSent(ok))), s.initReq.value, false, ok);
  }

  lemma NotifSentFrames(s: State, ok: bool)
    requires OneWriter(s) && FramesOk(s) && Enabled(s, NotifSent(ok))
    ensures FramesOk(Step(s, NotifSent(ok)))
  {
    var t := Step(s, NotifSent(ok));
    if s.initNotif.Some? {
      LiveFramesAttempt(s.conns, Current(t), s.initNotif.value, false, ok);
      assert t.conns == s.conns[Last(s) := Current(t)];
    } else {
      LiveFramesSame(s.conns, t.conns);
    }
  }

  lemma DialFrames(s: State)
    requires OneWriter(s) && FramesOk(s) && Enabled(s, DialOk)
    ensures FramesOk(Step(s, DialOk))
  {
    var t := Step(s, DialOk);
    LiveFramesOpened(s.conns, NewConn(s));
    LiveFramesSame(s.conns + [NewConn(s)], t.conns);
  }

  lemma ArriveFrames(s: State, c: nat, text: string)
    requires FramesOk(s) && Enabled(s, Arrive(c, text))
    ensures FramesOk(Step(s, Arrive(c, text)))
  {
    QuietFrames(s, Step(s, Arrive(c, text)));
  }

  lemma CopyFrames(s: State, c: nat, n: nat)
    requires FramesOk(s) && Enabled(s, Copy(c, n))
    ensures FramesOk(Step(s, Copy(c, n)))
  {
    QuietFrames(s, Step(s, Copy(c, n)));
  }

  lemma AnsweredFrames(s: State, ok: bool)
    requires FramesOk(s) && Enabled(s, InitAnswered(ok))
    ensures FramesOk(Step(s, InitAnswered(ok)))
  {
    QuietFrames(s, Step(s, InitAnswered(ok)));
  }

  lemma QuietStepFrames(s: State, e: Event)
    requires OneWriter(s) && FramesOk(s) && Enabled(s, e) && Quiet(e)
    ensures FramesOk(Step(s, e))
  {
    QuietStep(s, e);
    QuietFrames(s, Step(s, e));
  }

  lemma StepFrames(s: State, e: Event)
    requires OneWriter(s) && FramesOk(s) && Enabled(s, e)
    ensures FramesOk(Step(s, e))
  {
    if Quiet(e) {
      QuietStepFrames(s, e);
    } else {
      match e
      case Take(c) => TakeFrames(s, c);
      case Send(c, ok) => SendFrames(s, c, ok);
      case InitSent(ok) => InitSentFrames(s, ok);
      case NotifSent(ok) => NotifSentFrames(s, ok);
      case DialOk => DialFrames(s);
      case Arrive(c, text) => ArriveFrames(s, c, text);
      case Copy(c, n) => CopyFrames(s, c, n);
      case InitAnswered(ok) => AnsweredFrames(s, ok);
    }
  }

  /* ---- Handshakes ---- */

  ghost predicate ConnHandshakeOk(s: State, c: Conn) {
    && WireOk(c)
    && (c.openReq.Some? ==> c.openReq == s.initReq)
    && (c.openNotif.Some? ==> c.openNotif == s.initNotif)
  }

  lemma QuietHandshake(s: State, t: State)
    requires HandshakeOk(s) && |s.conns| == |t.conns| && s.initReq == t.initReq && s.initNotif == t.initNotif
    requires forall i :: 0 <= i < |s.conns| ==>
      && var (c, d) := (s.conns[i], t.conns[i]);
      && c.wire == d.wire && c.replay == d.replay && c.openReq == d.openReq && c.openNotif == d.openNotif
      && (c.writer.NoWriter? ==> d.writer.NoWriter?)
    requires t.phase == s.phase || !Opening(t.phase) || (s.phase.AwaitInit? && t.phase.SendNotif?)
    ensures HandshakeOk(t)
  {}

  lemma SendHandshake(s: State, c: nat, ok: bool)
    requires OneWriter(s) && HandshakeOk(s) && Enabled(s, Send(c, ok))
    ensures HandshakeOk(Step(s, Send(c, ok)))
  {
    var t := Step(s, Send(c, ok));
    WriterIsLast(s, c);
    if !t.phase.Crashed? {
      HandleShape(s, c, ok);
      forall i | 0 <= i < |s.conns| ensures ConnHandshakeOk(t, t.conns[i]) {
        assert ConnHandshakeOk(s, s.conns[i]);
        if i == c { LiveExtends(s.conns[c], t.conns[c]); }
      }
    }
  }

  lemma LiveExtends(c: Conn, d: Conn)
    requires WireOk(c) && !c.writer.NoWriter? && |d.wire| == |c.wire| + 1 && d.wire[..|c.wire|] == c.wire
    requires d.wire[|c.wire|].live && d.replay == c.replay && d.openReq == c.openReq && d.openNotif == c.openNotif
    ensures WireOk(d)
  {
    assert forall i :: 0 <= i < |c.wire| ==> d.wire[i] == c.wire[i];
  }

  lemma TakeHandshake(s: State, c: nat)
    requires OneWriter(s) && HandshakeOk(s) && Enabled(s, Take(c))
    ensures HandshakeOk(Step(s, Take(c)))
  {
    QuietHandshake(s, Step(s, Take(c)));
  }

  lemma ArriveHandshake(s: State, c: nat, text: string)
    requires OneWriter(s) && HandshakeOk(s) && Enabled(s, Arrive(c, text))
    ensures HandshakeOk(Step(s, Arrive(c, text)))
  {
    QuietHandshake(s, Step(s, Arrive(c, text)));
  }

  lemma CopyHandshake(s: State, c: nat, n: nat)
    requires OneWriter(s) && HandshakeOk(s) && Enabled(s, Copy(c, n))
    ensures HandshakeOk(Step(s, Copy(c, n)))
  {
    QuietHandshake(s, Step(s, Copy(c, n)));
  }

  lemma AnsweredHandshake(s: State, ok: bool)
    requires OneWriter(s) && HandshakeOk(s) && Enabled(s, InitAnswered(ok))
    ensures HandshakeOk(Step(s, InitAnswered(ok)))
  {
    QuietHandshake(s, Step(s, InitAnswered(ok)));
  }

  lemma SmallHandshake(s: State, e: Event)
    requires OneWriter(s) && HandshakeOk(s) && Enabled(s, e)
    requires e.Take? || e.Arrive? || e.Copy? || e.InitAnswered?
    ensures HandshakeOk(Step(s, e))
  {
    match e
    case Take(c) => TakeHandshake(s, c);
    case Arrive(c, text) => ArriveHandshake(s, c, text);
    case Copy(c, n) => CopyHandshake(s, c, n);
    case InitAnswered(ok) => AnsweredHandshake(s, ok);
  }

  lemma QuietStepHandshake(s: State, e: Event)
    requires OneWriter(s) && HandshakeOk(s) && Enabled(s, e) && Quiet(e)
    ensures HandshakeOk(Step(s, e))
  {
    QuietStep(s, e);
    QuietHandshake(s, Step(s, e));
  }

  lemma OpeningHandshake(s: State, e: Event)
    requires OneWriter(s) && HandshakeOk(s) && Enabled(s, e) && (e.InitSent? || e.NotifSent?)
    ensures HandshakeOk(Step(s, e))
  {
    var t := Step(s, e);
    forall i | 0 <= i < |s.conns| ensures ConnHandshakeOk(t, t.conns[i]) {
      assert ConnHandshakeOk(s, s.conns[i]);
    }
  }

  lemma DialHandshake(s: State)
    requires OneWriter(s) && FramesOk(s) && HandshakeOk(s) && Enabled(s, DialOk)
    ensures HandshakeOk(Step(s, DialOk))
  {
    var t := Step(s, DialOk);
    if s.firstConnect { assert s.lines[..s.taken] == s.lines[..Handled(s)]; NoFramesNoCapture(s); }
    forall i | 0 <= i < |t.conns| ensures ConnHandshakeOk(t, t.conns[i]) {
      if i < |s.conns| { assert ConnHandshakeOk(s, s.conns[i]); }
    }
  }

  /** Before the first connection nothing has been captured. */
  lemma NoFramesNoCapture(s: State)
    requires FramesOk(s) && s.conns == []
    ensures s.initReq.None? && s.initNotif.None?
  {
    assert |Frames(s.lines[..Handled(s)], s.cwd)| == 0;
    assert s.lines[..Handled(s)] == [];
  }

  lemma StepHandshake(s: State, e: Event)
    requires OneWriter(s) && FramesOk(s) && HandshakeOk(s) && Enabled(s, e)
    ensures HandshakeOk(Step(s, e))
  {
    if Quiet(e) {
      QuietStepHandshake(s, e);
    } else if e.Send? {
      SendHandshake(s, e.conn, e.ok);
    } else if e.InitSent? || e.NotifSent? {
      OpeningHandshake(s, e);
    } else if e.DialOk? {
      DialHandshake(s);
    } else {
      SmallHandshake(s, e);
    }
  }

  /* ---- Output ---- */

  lemma QuietOutput(s: State, t: State)
    requires OutputOk(s) && s.out == t.out && |s.conns| == |t.conns|
    requires forall i :: 0 <= i < |s.conns| ==>
      && s.conns[i].arrived == t.conns[i].arrived && s.conns[i].read == t.conns[i].read
      && s.conns[i].skipped == t.conns[i].skipped && ReadOk(t.conns[i])
    requires t.phase == s.phase || !Opening(t.phase) || (s.phase.SendInit? && t.phase.AwaitInit?)
    ensures OutputOk(t)
  {}

  lemma ArriveOutput(s: State, c: nat, text: string)
    requires OutputOk(s) && Enabled(s, Arrive(c, text))
    ensures OutputOk(Step(s, Arrive(c, text)))
  {
    ArrivedConn(s.conns[c], text);
    ArrivedOutput(s, Step(s, Arrive(c, text)), c, text);
  }

  lemma ArrivedConn(k: Conn, text: string)
    requires ReadOk(k)
    ensures ReadOk(k.(arrived := k.arrived + text))
    ensures (k.arrived + text)[k.skipped..k.read] == k.arrived[k.skipped..k.read]
  {
    if k.skipped > 0 { AfterNewlineStays(k.arrived, text); }
  }

  lemma ArrivedOutput(s: State, t: State, c: nat, text: string)
    requires OutputOk(s) && c < |s.conns|
    requires var k := s.conns[c]; var d := k.(arrived := k.arrived + text);
      t == WithConn(s, c, d) && ReadOk(d) && d.arrived[d.skipped..d.read] == k.arrived[k.skipped..k.read]
    ensures OutputOk(t)
  {}

  lemma CopiedConn(k: Conn, d: Conn, n: nat, got: string)
    requires ReadOk(k) && k.reading && k.read + n <= |k.arrived| && d == k.(read := k.read + n)
    requires got == k.arrived[k.skipped..k.read]
    ensures ReadOk(d) && got + k.arrived[k.read..k.read + n] == d.arrived[d.skipped..d.read]
  {
    Adjacent(k.arrived, k.skipped, k.read, k.read + n);
  }

  lemma CopyOutput(s: State, c: nat, n: nat)
    requires OutputOk(s) && Enabled(s, Copy(c, n))
    ensures OutputOk(Step(s, Copy(c, n)))
  {
    var k := s.conns[c];
    var t := Step(s, Copy(c, n));
    forall i: nat ensures From(t.out, i) == From(s.out, i) + (if c == i then k.arrived[k.read..k.read + n] else "") {
      FromTagged(s.out, c, k.arrived[k.read..k.read + n], i);
    }
    CopiedConn(k, t.conns[c], n, From(s.out, c));
    assert t.conns == s.conns[c := t.conns[c]] && t.phase == s.phase;
    OutputAt(s, t, c);
  }

  /** Only connection `c` has moved. */
  lemma OutputAt(s: State, t: State, c: nat)
    requires OutputOk(s) && c < |s.conns| == |t.conns| && t.conns == s.conns[c := t.conns[c]] && t.phase == s.phase
    requires ReadOk(t.conns[c]) && From(t.out, c) == t.conns[c].arrived[t.conns[c].skipped..t.conns[c].read]
    requires t.conns[c].skipped == s.conns[c].skipped
    requires forall i: nat :: i != c ==> From(t.out, i) == From(s.out, i)
    ensures OutputOk(t)
  {}

  lemma Adjacent(s: string, i: nat, j: nat, k: nat)
    requires i <= j <= k <= |s|
    ensures s[i..j] + s[j..k] == s[i..k]
  {}

  lemma AnsweredOutput(s: State, ok: bool)
    requires OneWriter(s) && OutputOk(s) && Enabled(s, InitAnswered(ok))
    ensures OutputOk(Step(s, InitAnswered(ok)))
  {
    if ok {
      var k := Current(s);
      AfterNewlineStays(k.arrived, "");
      AfterNewlinePositive(k.arrived);
      assert k.arrived[k.skipped..k.read] == "";
    } else {
      QuietOutput(s, Step(s, InitAnswered(ok)));
    }
  }

  lemma AfterNewlinePositive(s: string)
    requires AfterNewline(s).Some?
    ensures AfterNewline(s).value > 0
  {}

  lemma OpenedOutput(s: State, t: State)
    requires OutputOk(s) && s.out == t.out && |t.conns| == |s.conns| + 1
    requires forall i :: 0 <= i < |s.conns| ==> t.conns[i] == s.conns[i]
    requires var c := t.conns[|s.conns|]; c.arrived == "" && c.read == 0 && c.skipped == 0 && ReadOk(c)
    requires t.phase.SendInit? || !Opening(t.phase)
    ensures OutputOk(t)
  {}

  lemma DialOutput(s: State)
    requires OneWriter(s) && OutputOk(s) && Enabled(s, DialOk)
    ensures OutputOk(Step(s, DialOk))
  {
    var t := Step(s, DialOk);
    var c := t.conns[|s.conns|];
    assert forall i :: 0 <= i < |s.conns| ==> t.conns[i] == s.conns[i];
    assert c.arrived == "" && c.read == 0 && c.skipped == 0 && ReadOk(c);
    OpenedOutput(s, t);
  }

  /** A connection as its session starts, after the replay if there was one. */
  lemma StartedOutput(s: State, t: State, wire: seq<Attempt>)
    requires OutputOk(s) && Open(s) && s.phase.SendNotif? && ReadOk(Current(s)) && !Current(s).reading
    requires t == WithCurrent(s, Current(s).(wire := wire, writer := Waiting, reading := true)).(phase := Session)
    ensures OutputOk(t)
  {
    assert ReadOk(Current(t));
    QuietOutput(s, t);
  }

  lemma NotifOutput(s: State, ok: bool)
    requires OneWriter(s) && OutputOk(s) && Enabled(s, NotifSent(ok))
    ensures OutputOk(Step(s, NotifSent(ok)))
  {
    var c := Current(s);
    assert ReadOk(c);
    StartedOutput(s, Step(s, NotifSent(ok)),
      if s.initNotif.None? then c.wire else c.wire + [Attempt(s.initNotif.value, false, ok)]);
  }

  lemma SendOutput(s: State, c: nat, ok: bool)
    requires OutputOk(s) && Enabled(s, Send(c, ok))
    ensures OutputOk(Step(s, Send(c, ok)))
  {
    var t := Step(s, Send(c, ok));
    if !t.phase.Crashed? {
      HandleShape(s, c, ok);
      assert ReadOk(s.conns[c]);
      QuietOutput(s, t);
    }
  }

  lemma SmallOutput(s: State, e: Event)
    requires OneWriter(s) && OutputOk(s) && Enabled(s, e) && (e.Take? || e.InitSent?)
    ensures OutputOk(Step(s, e))
  {
    match e
    case Take(c) => QuietOutput(s, Step(s, Take(c)));
    case InitSent(ok) => QuietOutput(s, Step(s, InitSent(ok)));
  }

  lemma QuietStepOutput(s: State, e: Event)
    requires OneWriter(s) && OutputOk(s) && Enabled(s, e) && Quiet(e)
    ensures OutputOk(Step(s, e))
  {
    QuietStep(s, e);
    QuietOutput(s, Step(s, e));
  }

  lemma StepOutput(s: State, e: Event)
    requires OneWriter(s) && OutputOk(s) && Enabled(s, e)
    ensures OutputOk(Step(s, e))
  {
    if Quiet(e) {
      QuietStepOutput(s, e);
    } else if e.Take? || e.InitSent? {
      SmallOutput(s, e);
    } else {
      match e
      case Arrive(c, text) => ArriveOutput(s, c, text);
      case Copy(c, n) => CopyOutput(s, c, n);
      case InitAnswered(ok) => AnsweredOutput(s, ok);
      case DialOk => DialOutput(s);
      case NotifSent(ok) => NotifOutput(s, ok);
      case Send(c, ok) => SendOutput(s, c, ok);
    }
  }

  lemma StepInv(s: State, e: Event)
    requires Inv(s) && Enabled(s, e)
    ensures Inv(Step(s, e))
  {
    StepOneWriter(s, e);
    StepFrames(s, e);
    StepHandshake(s, e);
    StepOutput(s, e);
  }

  /* ---- Theorems over runs ---- */

  lemma {:induction false} RunInv(run: seq<State>, input: seq<Line>, cwd: string, i: nat)
    requires IsRun(run, input, cwd) && i < |run|
    ensures Inv(run[i]) && run[i].lines == ReadLines(input) && run[i].cwd == cwd
  {
    if i == 0 {
      InitInv(input, cwd);
    } else {
      RunInv(run, input, cwd, i - 1);
      assert LinkedAt(run, i);
      NextInv(run[i - 1], run[i]);
    }
  }

  lemma NextInv(s: State, t: State)
    requires Inv(s) && Next(s, t)
    ensures Inv(t) && t.lines == s.lines && t.cwd == s.cwd
  {
    var e :| Enabled(s, e) && t == Step(s, e);
    StepInv(s, e);
    StepKeepsInput(s, e);
  }

  lemma StepKeepsInput(s: State, e: Event)
    requires Enabled(s, e)
    ensures Step(s, e).lines == s.lines && Step(s, e).cwd == s.cwd
  {}

  /** At most one writer is live, in any state of any run. */
  lemma AtMostOneWriter(run: seq<State>, input: seq<Line>, cwd: string, i: nat, c: nat, d: nat)
    requires IsRun(run, input, cwd) && i < |run| && c < |run[i].conns| && d < |run[i].conns|
    requires Live(run[i].conns[c].writer) && Live(run[i].conns[d].writer)
    ensures c == d
  {
    RunInv(run, input, cwd, i);
  }

  /** The live frames over all connections are the stdin lines in order, each handed
      to one Write once; at most the last line taken is still on its way. */
  lemma LiveFramesArePrefix(run: seq<State>, input: seq<Line>, cwd: string, i: nat)
    requires IsRun(run, input, cwd) && i < |run|
    ensures var s := run[i]; var n := |LiveFrames(s.conns)|;
      && n <= s.taken <= n + 1 && s.taken <= |ReadLines(input)|
      && LiveFrames(s.conns) == Frames(ReadLines(input)[..n], cwd)
      && (s.taken == n + 1 ==> exists c :: 0 <= c < |s.conns| && s.conns[c].writer == Holding(ReadLines(input)[n]))
  {
    RunInv(run, input, cwd, i);
    var s := run[i];
    if Handled(s) == s.taken - 1 {
      assert s.conns[Last(s)].writer == Holding(ReadLines(input)[s.taken - 1]);
    }
  }

  lemma {:induction false} FirstInitStays(ls: seq<Line>, cwd: string, n: nat)
    requires n <= |ls| && FirstInit(ls[..n], cwd).Some?
    ensures FirstInit(ls, cwd) == FirstInit(ls[..n], cwd)
    decreases |ls|
  {
    if n < |ls| {
      assert ls[..|ls| - 1][..n] == ls[..n];
      FirstInitStays(ls[..|ls| - 1], cwd, n);
    } else {
      assert ls[..n] == ls;
    }
  }

  lemma RunOneWriter(run: seq<State>, input: seq<Line>, cwd: string, i: nat)
    requires IsRun(run, input, cwd) && i < |run|
    ensures OneWriter(run[i])
  {
    RunInv(run, input, cwd, i);
  }

  lemma RunHandshake(run: seq<State>, input: seq<Line>, cwd: string, i: nat)
    requires IsRun(run, input, cwd) && i < |run|
    ensures HandshakeOk(run[i])
  {
    RunInv(run, input, cwd, i);
  }

  lemma RunOutput(run: seq<State>, input: seq<Line>, cwd: string, i: nat)
    requires IsRun(run, input, cwd) && i < |run|
    ensures OutputOk(run[i])
  {
    RunInv(run, input, cwd, i);
  }

  /** How many lines are handled never goes down. */
  lemma {:induction false} HandledGrows(run: seq<State>, input: seq<Line>, cwd: string, i: nat, j: nat)
    requires IsRun(run, input, cwd) && i <= j < |run|
    ensures Handled(run[i]) <= Handled(run[j])
  {
    if i < j {
      HandledGrows(run, input, cwd, i, j - 1);
      RunHandled(run, input, cwd, j);
    }
  }

  lemma RunHandled(run: seq<State>, input: seq<Line>, cwd: string, j: nat)
    requires IsRun(run, input, cwd) && 0 < j < |run|
    ensures Handled(run[j - 1]) <= Handled(run[j])
  {
    RunOneWriter(run, input, cwd, j - 1);
    assert LinkedAt(run, j);
    NextHandled(run[j - 1], run[j]);
  }

  lemma NextHandled(s: State, t: State)
    requires OneWriter(s) && Next(s, t)
    ensures Handled(s) <= Handled(t)
  {
    var e :| Enabled(s, e) && t == Step(s, e);
    HandledStep(s, e);
  }

  lemma HandledStep(s: State, e: Event)
    requires OneWriter(s) && Enabled(s, e)
    ensures Handled(s) <= Handled(Step(s, e))
  {
    if Quiet(e) { QuietStep(s, e); }
    else if e.Send? { WriterIsLast(s, e.conn); HandleGrows(s, e.conn, e.ok); }
    else if e.Take? { WriterIsLast(s, e.conn); }
  }

  lemma HandleGrows(s: State, c: nat, ok: bool)
    requires c < |s.conns| && c == Last(s) && s.conns[c].writer.Holding?
    ensures Handled(s) <= Handled(Handle(s, c, ok))
  {
    if !Handle(s, c, ok).phase.Crashed? { HandleShape(s, c, ok); }
  }

  /** The captured initialize is written once and never replaced; it is the first
      initialize line with its roots injected. */
  lemma CapturedOnce(run: seq<State>, input: seq<Line>, cwd: string, i: nat, j: nat)
    requires IsRun(run, input, cwd) && i <= j < |run| && run[i].initReq.Some?
    ensures run[j].initReq == run[i].initReq
    ensures run[j].initReq == FirstInit(ReadLines(input), cwd)
  {
    RunInv(run, input, cwd, i);
    RunInv(run, input, cwd, j);
    HandledGrows(run, input, cwd, i, j);
    var ls := ReadLines(input);
    FirstInitStays(ls, cwd, Handled(run[i]));
    assert ls[..Handled(run[j])][..Handled(run[i])] == ls[..Handled(run[i])];
    FirstInitStays(ls[..Handled(run[j])], cwd, Handled(run[i]));
  }

  lemma WireFacts(k: Conn)
    requires WireOk(k)
    ensures forall n :: 0 <= n < |k.wire| ==>
      (k.wire[n].live <==> n >= (if k.openReq.None? then 0 else if k.openNotif.Some? then 2 else 1))
  {}

  /** A connection dialled after the capture carries the captured initialize first,
      then the captured notification if there is one, and only then live frames; a
      connection dialled before it carries live frames only. */
  lemma ReplayComesFirst(run: seq<State>, input: seq<Line>, cwd: string, i: nat, c: nat)
    requires IsRun(run, input, cwd) && i < |run| && c < |run[i].conns|
    ensures var k := run[i].conns[c];
      && (k.openReq.Some? ==> k.openReq == run[i].initReq)
      && (k.openReq.Some? && |k.wire| > 0 ==> k.wire[0].frame == run[i].initReq.value && !k.wire[0].live)
      && (k.openReq.Some? && k.openNotif.Some? && |k.wire| > 1 ==>
            Some(k.wire[1].frame) == run[i].initNotif && !k.wire[1].live)
      && forall n :: 0 <= n < |k.wire| ==>
           (k.wire[n].live <==> n >= (if k.openReq.None? then 0 else if k.openNotif.Some? then 2 else 1))
  {
    RunHandshake(run, input, cwd, i);
    WireFacts(run[i].conns[c]);
  }

  /** Everything behind the first newline. */
  function DropFirstLine(s: string): string {
    match AfterNewline(s)
    case None => ""
    case Some(k) => if k <= |s| then s[k..] else ""
  }

  lemma {:induction false} AfterNewlineIn(s: string, n: nat)
    requires n <= |s| && AfterNewline(s).Some? && AfterNewline(s).value <= n
    ensures AfterNewline(s[..n]) == AfterNewline(s)
  {
    AfterNewlinePositive(s);
    if s[0] != '\n' {
      assert s[..n][1..] == s[1..][..n - 1];
      AfterNewlineIn(s[1..], n - 1);
    }
  }

  /** What the client should have of a connection: nothing before its session, then
      every byte read, less the first line when the handshake was replayed on it. */
  function ClientShare(k: Conn): string {
    if !k.reading || k.read > |k.arrived| then ""
    else if k.replay then DropFirstLine(k.arrived[..k.read])
    else k.arrived[..k.read]
  }

  lemma ReadFacts(k: Conn)
    requires ReadOk(k)
    ensures k.arrived[k.skipped..k.read] == ClientShare(k)
  {
    if k.reading && k.replay {
      AfterNewlineIn(k.arrived, k.read);
      assert k.arrived[..k.read][k.skipped..] == k.arrived[k.skipped..k.read];
    }
  }

  /** The client's bytes, connection by connection, are exactly those shares. */
  lemma OutputIsDaemonBytes(run: seq<State>, input: seq<Line>, cwd: string, i: nat, c: nat)
    requires IsRun(run, input, cwd) && i < |run|
    ensures From(run[i].out, c) == if c < |run[i].conns| then ClientShare(run[i].conns[c]) else ""
  {
    RunOutput(run, input, cwd, i);
    if c < |run[i].conns| { ReadFacts(run[i].conns[c]); }
  }
}
