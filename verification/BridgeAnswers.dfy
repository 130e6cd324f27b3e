/** Whether and how the client of the bridge gets an answer to its handshake. A line of
    the daemon is recognised as the answer by its content, as a JSON-RPC client does it. */
module BridgeAnswers {
  import opened Text
  import opened Bridge
  import opened BridgeProofs

  /* ---- How connections grow ---- */

  /** How a connection may change: its wire and its bytes only grow, what it was
      dialled with stays, and a finished reader reads no more. */
  ghost predicate ConnGrows(c: Conn, d: Conn) {
    && c.wire <= d.wire && c.openReq == d.openReq && c.arrived <= d.arrived && c.read <= d.read
    && (c.reading && c.readDone ==> d.reading && d.readDone && d.read == c.read)
  }

  ghost predicate ConnsGrow(s: State, t: State) {
    && |s.conns| <= |t.conns| && (forall i :: 0 <= i < |s.conns| ==> ConnGrows(s.conns[i], t.conns[i]))
    && (forall i :: |s.conns| <= i < |t.conns| ==> t.conns[i].openReq == s.initReq && t.conns[i].wire == [])
  }

  lemma OneConnGrows(s: State, t: State, i: nat)
    requires i < |s.conns| == |t.conns| && t.conns == s.conns[i := t.conns[i]] && ConnGrows(s.conns[i], t.conns[i])
    ensures ConnsGrow(s, t)
  {}

  lemma QuietGrows(s: State, e: Event)
    requires OneWriter(s) && Enabled(s, e) && Quiet(e)
    ensures ConnsGrow(s, Step(s, e))
  {
    match e
    case SeeEof(c) => OneConnGrows(s, Step(s, SeeEof(c)), c);
    case SeeStop(c) => OneConnGrows(s, Step(s, SeeStop(c)), c);
    case CopyEnd(c) => OneConnGrows(s, Step(s, CopyEnd(c)), c);
    case ReadEnded => OneConnGrows(s, Step(s, ReadEnded), Last(s));
    case _ =>
  }

  lemma SendGrows(s: State, c: nat, ok: bool)
    requires Enabled(s, Send(c, ok))
    ensures ConnsGrow(s, Step(s, Send(c, ok)))
  {
    if !Handle(s, c, ok).phase.Crashed? {
      HandleShape(s, c, ok);
      OneConnGrows(s, Handle(s, c, ok), c);
    }
  }

  lemma InitSentGrows(s: State, ok: bool)
    requires Enabled(s, InitSent(ok))
    ensures ConnsGrow(s, Step(s, InitSent(ok)))
  {
    OneConnGrows(s, Step(s, InitSent(ok)), Last(s));
  }

  /** The newest connection as its session starts. */
  lemma StartedGrows(s: State, t: State, wire: seq<Attempt>)
    requires Open(s) && !Current(s).reading && Current(s).wire <= wire
    requires t == WithCurrent(s, Current(s).(wire := wire, writer := Waiting, reading := true)).(phase := Session)
    ensures ConnsGrow(s, t)
  {
    OneConnGrows(s, t, Last(s));
  }

  lemma NotifSentGrows(s: State, ok: bool)
    requires Enabled(s, NotifSent(ok)) && !Current(s).reading
    ensures ConnsGrow(s, Step(s, NotifSent(ok)))
  {
    var c := Current(s);
    StartedGrows(s, Step(s, NotifSent(ok)),
      if s.initNotif.None? then c.wire else c.wire + [Attempt(s.initNotif.value, false, ok)]);
  }

  lemma ReadGrows(s: State, e: Event)
    requires OneWriter(s) && OutputOk(s) && Enabled(s, e) && (e.Take? || e.Arrive? || e.Copy? || e.InitAnswered?)
    ensures ConnsGrow(s, Step(s, e))
  {
    match e
    case Take(c) => OneConnGrows(s, Step(s, Take(c)), c);
    case Arrive(c, text) => OneConnGrows(s, Step(s, Arrive(c, text)), c);
    case Copy(c, n) => OneConnGrows(s, Step(s, Copy(c, n)), c);
    case InitAnswered(ok) =>
      if ok {
        assert ReadOk(Current(s));
        OneConnGrows(s, Step(s, InitAnswered(ok)), Last(s));
      }
  }

  lemma StepGrows(s: State, e: Event)
    requires OneWriter(s) && OutputOk(s) && Enabled(s, e)
    ensures ConnsGrow(s, Step(s, e))
  {
    if Quiet(e) {
      QuietGrows(s, e);
    } else {
      match e
      case Send(c, ok) => SendGrows(s, c, ok);
      case InitSent(ok) => InitSentGrows(s, ok);
      case NotifSent(ok) => assert ReadOk(Current(s)); NotifSentGrows(s, ok);
      case DialOk =>
      case _ => ReadGrows(s, e);
    }
  }

  predicate HasInitialize(wire: seq<Attempt>) { exists n :: 0 <= n < |wire| && IsInitialize(wire[n].frame) }

  /** Before the capture no initialize has been attempted and nothing is replayed. */
  ghost predicate NotYet(s: State) {
    s.initReq.None? ==>
      forall c :: 0 <= c < |s.conns| ==> s.conns[c].openReq.None? && !HasInitialize(s.conns[c].wire)
  }

  /** The captured handshake has one live attempt: the first initialize on any wire,
      number `n` on connection `c`. Exactly the connections after `c` replay it. */
  ghost predicate CapturedAt(s: State, c: nat, n: nat) {
    && s.initReq.Some? && c < |s.conns| && n < |s.conns[c].wire|
    && s.conns[c].wire[n].frame == s.initReq.value && s.conns[c].wire[n].live
    && !HasInitialize(s.conns[c].wire[..n])
    && (forall d :: 0 <= d < c ==> !HasInitialize(s.conns[d].wire))
    && (forall d :: 0 <= d < |s.conns| ==> (s.conns[d].openReq.None? <==> d <= c))
  }

  lemma CaptureKept(s: State, t: State, c: nat, n: nat)
    requires CapturedAt(s, c, n) && ConnsGrow(s, t) && t.initReq == s.initReq && |t.conns| >= |s.conns|
    requires forall d :: 0 <= d < c ==> t.conns[d].wire == s.conns[d].wire
    ensures CapturedAt(t, c, n)
  {
    assert ConnGrows(s.conns[c], t.conns[c]);
    assert t.conns[c].wire[..n] == s.conns[c].wire[..n];
    forall d | 0 <= d < |t.conns| ensures t.conns[d].openReq.None? <==> d <= c {
      if d < |s.conns| { assert ConnGrows(s.conns[d], t.conns[d]); }
    }
  }

  lemma SmallStep(s: State, e: Event, d: nat)
    requires Enabled(s, e) && (e.Take? || e.Arrive? || e.Copy? || e.InitAnswered?) && d < |s.conns|
    ensures d < |Step(s, e).conns| && Step(s, e).conns[d].wire == s.conns[d].wire
  {
  }

  lemma OpeningStep(s: State, e: Event, d: nat)
    requires Enabled(s, e) && (e.InitSent? || e.NotifSent? || e.DialOk?) && d < Last(s)
    ensures d < |Step(s, e).conns| && Step(s, e).conns[d].wire == s.conns[d].wire
  {
  }

  /** Only the newest connection's wire can grow. */
  lemma OldWires(s: State, e: Event, d: nat)
    requires OneWriter(s) && Enabled(s, e) && d < Last(s)
    ensures d < |Step(s, e).conns| && Step(s, e).conns[d].wire == s.conns[d].wire
  {
    if Quiet(e) {
      QuietStep(s, e);
    } else if e.Send? {
      WriterIsLast(s, e.conn);
      if !Handle(s, e.conn, e.ok).phase.Crashed? { HandleShape(s, e.conn, e.ok); }
    } else if e.InitSent? || e.NotifSent? || e.DialOk? {
      OpeningStep(s, e, d);
    } else {
      SmallStep(s, e, d);
    }
  }

  lemma CaptureStep(s: State, e: Event, c: nat, n: nat)
    requires OneWriter(s) && OutputOk(s) && CapturedAt(s, c, n) && Enabled(s, e)
    ensures CapturedAt(Step(s, e), c, n)
  {
    var t := Step(s, e);
    StepGrows(s, e);
    forall d | 0 <= d < c ensures t.conns[d].wire == s.conns[d].wire { OldWires(s, e, d); }
    StepKeepsCapture(s, e);
    CaptureKept(s, t, c, n);
  }

  lemma StepKeepsCapture(s: State, e: Event)
    requires Enabled(s, e) && s.initReq.Some?
    ensures Step(s, e).initReq == s.initReq
  {
    if e.Send? && !Handle(s, e.conn, e.ok).phase.Crashed? { HandleShape(s, e.conn, e.ok); }
  }

  lemma InjectedIsInitialize(l: Line, cwd: string)
    requires IsInitialize(l) && InjectRoots(l, cwd).Some?
    ensures IsInitialize(InjectRoots(l, cwd).value)
  {}

  lemma AppendInitialize(wire: seq<Attempt>, a: Attempt)
    ensures HasInitialize(wire + [a]) <==> HasInitialize(wire) || IsInitialize(a.frame)
  {
    if HasInitialize(wire) {
      var n :| 0 <= n < |wire| && IsInitialize(wire[n].frame);
      assert (wire + [a])[n] == wire[n];
    }
    assert (wire + [a])[|wire|] == a;
  }

  /** The step that captures, and the steps before it. */
  lemma FirstCapture(s: State, c: nat, ok: bool)
    requires OneWriter(s) && NotYet(s) && s.initReq.None? && Enabled(s, Send(c, ok))
    requires !Handle(s, c, ok).phase.Crashed?
    ensures var t := Handle(s, c, ok);
      NotYet(t) && (t.initReq.Some? ==> CapturedAt(t, c, |s.conns[c].wire|))
  {
    WriterIsLast(s, c);
    HandleShape(s, c, ok);
    HandleCaptures(s, c, ok);
    var t, msg, wire := Handle(s, c, ok), s.conns[c].writer.msg, s.conns[c].wire;
    var a := t.conns[c].wire[|wire|];
    assert t.conns[c].wire == wire + [a];
    AppendInitialize(wire, a);
    assert t.conns[c].wire[..|wire|] == wire;
  }

  lemma NotYetStep(s: State, e: Event)
    requires OneWriter(s) && OutputOk(s) && NotYet(s) && s.initReq.None? && Enabled(s, e) && !e.Send?
    requires HandshakeOk(s)
    ensures Step(s, e).initReq.None? && NotYet(Step(s, e))
  {
    StepGrows(s, e);
    var t := Step(s, e);
    forall d | 0 <= d < |t.conns| ensures t.conns[d].openReq.None? && !HasInitialize(t.conns[d].wire) {
      if d < |s.conns| { WiresWithoutSend(s, e, d); }
    }
  }

  lemma WiresWithoutSend(s: State, e: Event, d: nat)
    requires Enabled(s, e) && !e.Send? && s.initReq.None? && d < |s.conns| && !HasInitialize(s.conns[d].wire)
    requires OneWriter(s) && HandshakeOk(s)
    ensures d < |Step(s, e).conns| && !HasInitialize(Step(s, e).conns[d].wire)
  {
  }

  /** Where the capture stands in a state of a run. */
  lemma {:induction false} RunCapture(run: seq<State>, input: seq<Line>, cwd: string, i: nat)
    requires IsRun(run, input, cwd) && i < |run|
    ensures NotYet(run[i])
    ensures run[i].initReq.Some? ==> exists c, n :: CapturedAt(run[i], c, n)
  {
    if i > 0 {
      RunCapture(run, input, cwd, i - 1);
      RunInv(run, input, cwd, i - 1);
      assert LinkedAt(run, i);
      NextCapture(run[i - 1], run[i]);
    }
  }

  lemma NextCapture(s: State, t: State)
    requires Inv(s) && Next(s, t) && NotYet(s) && (s.initReq.Some? ==> exists c, n :: CapturedAt(s, c, n))
    ensures NotYet(t) && (t.initReq.Some? ==> exists c, n :: CapturedAt(t, c, n))
  {
    if s.initReq.Some? {
      var c, n :| CapturedAt(s, c, n);
      NextCaptureStays(s, t, c, n);
    } else {
      NextFirstCapture(s, t);
    }
  }

  lemma NextFirstCapture(s: State, t: State)
    requires OneWriter(s) && OutputOk(s) && HandshakeOk(s) && Next(s, t) && NotYet(s) && s.initReq.None?
    ensures NotYet(t) && (t.initReq.Some? ==> exists c, n :: CapturedAt(t, c, n))
  {
    var e :| Enabled(s, e) && t == Step(s, e);
    if !e.Send? {
      NotYetStep(s, e);
    } else {
      SendCapture(s, e.conn, e.ok);
    }
  }

  lemma SendCapture(s: State, c: nat, ok: bool)
    requires OneWriter(s) && NotYet(s) && s.initReq.None? && Enabled(s, Send(c, ok))
    ensures var t := Handle(s, c, ok); NotYet(t) && (t.initReq.Some? ==> exists d, n :: CapturedAt(t, d, n))
  {
    if !Handle(s, c, ok).phase.Crashed? { FirstCapture(s, c, ok); }
  }

  lemma NextCaptureStays(s: State, t: State, c: nat, n: nat)
    requires OneWriter(s) && OutputOk(s) && Next(s, t) && CapturedAt(s, c, n)
    ensures CapturedAt(t, c, n) && ConnGrows(s.conns[c], t.conns[c])
  {
    var e :| Enabled(s, e) && t == Step(s, e);
    CaptureStep(s, e, c, n);
    StepGrows(s, e);
  }

  lemma RunStep(run: seq<State>, input: seq<Line>, cwd: string, j: nat) returns (s: State, t: State)
    requires IsRun(run, input, cwd) && 0 < j < |run|
    ensures s == run[j - 1] && t == run[j] && OneWriter(s) && OutputOk(s) && Next(s, t)
  {
    s, t := run[j - 1], run[j];
    RunInv(run, input, cwd, j - 1);
    assert LinkedAt(run, j);
  }

  lemma RunNextCapture(run: seq<State>, input: seq<Line>, cwd: string, j: nat, c: nat, n: nat)
    requires IsRun(run, input, cwd) && 0 < j < |run| && CapturedAt(run[j - 1], c, n)
    ensures CapturedAt(run[j], c, n) && ConnGrows(run[j - 1].conns[c], run[j].conns[c])
  {
    var s, t := RunStep(run, input, cwd, j);
    NextCaptureStays(s, t, c, n);
  }

  /** The connection a capture stands on, as far as later states are concerned. */
  ghost predicate CapturedOn(s: State, t: State, c: nat, n: nat) {
    CapturedAt(s, c, n) && CapturedAt(t, c, n) && ConnGrows(s.conns[c], t.conns[c])
  }

  lemma CapturedOnNext(s: State, t: State, u: State, c: nat, n: nat)
    requires CapturedOn(s, t, c, n) && CapturedAt(u, c, n) && ConnGrows(t.conns[c], u.conns[c])
    ensures CapturedOn(s, u, c, n)
  {
    GrowsOn(s.conns[c], t.conns[c], u.conns[c]);
  }

  lemma CapturedOnSelf(s: State, c: nat, n: nat)
    requires CapturedAt(s, c, n)
    ensures CapturedOn(s, s, c, n)
  {
    GrowsFrom(s.conns[c]);
  }

  lemma {:induction false} CaptureStays(run: seq<State>, input: seq<Line>, cwd: string, i: nat, j: nat, c: nat, n: nat)
    requires IsRun(run, input, cwd) && i <= j < |run| && CapturedAt(run[i], c, n)
    ensures CapturedOn(run[i], run[j], c, n)
    decreases j
  {
    if i == j {
      CapturedOnSelf(run[i], c, n);
    } else {
      CaptureStays(run, input, cwd, i, j - 1, c, n);
      RunNextCapture(run, input, cwd, j, c, n);
      CapturedOnNext(run[i], run[j - 1], run[j], c, n);
    }
  }

  lemma GrowsOn(a: Conn, b: Conn, c: Conn)
    requires ConnGrows(a, b) && ConnGrows(b, c)
    ensures ConnGrows(a, c)
  {}

  lemma GrowsFrom(a: Conn)
    ensures ConnGrows(a, a)
  {}

  /* ---- Live attempts of the captured frame ---- */

  function Times(fs: seq<Line>, f: Line): nat {
    if fs == [] then 0 else Times(fs[..|fs| - 1], f) + (if fs[|fs| - 1] == f then 1 else 0)
  }

  lemma {:induction false} TimesAppend(a: seq<Line>, b: seq<Line>, f: Line)
    ensures Times(a + b, f) == Times(a, f) + Times(b, f)
    decreases |b|
  {
    if b == [] {
      assert a + b == a;
    } else {
      TimesAppend(a, b[..|b| - 1], f);
      assert (a + b)[..|a + b| - 1] == a + b[..|b| - 1];
    }
  }

  predicate LiveAt(wire: seq<Attempt>, n: nat, f: Line) { n < |wire| && wire[n].live && wire[n].frame == f }

  lemma {:induction false} LiveOnce(wire: seq<Attempt>, n: nat, f: Line)
    requires LiveAt(wire, n, f)
    ensures Times(LiveOf(wire), f) >= 1
  {
    var front, last := wire[..|wire| - 1], wire[|wire| - 1];
    TimesAppend(LiveOf(front), if last.live then [last.frame] else [], f);
    if n < |front| { LiveOnce(front, n, f); }
  }

  lemma {:induction false} LiveTwice(wire: seq<Attempt>, m: nat, n: nat, f: Line)
    requires m < n && LiveAt(wire, m, f) && LiveAt(wire, n, f)
    ensures Times(LiveOf(wire), f) >= 2
  {
    var front, last := wire[..|wire| - 1], wire[|wire| - 1];
    TimesAppend(LiveOf(front), if last.live then [last.frame] else [], f);
    if n < |front| { LiveTwice(front, m, n, f); } else { LiveOnce(front, m, f); }
  }

  lemma {:induction false} ConnOnce(conns: seq<Conn>, c: nat, f: Line)
    requires c < |conns|
    ensures Times(LiveFrames(conns), f) >= Times(LiveOf(conns[c].wire), f)
  {
    var front, last := conns[..|conns| - 1], conns[|conns| - 1];
    TimesAppend(LiveFrames(front), LiveOf(last.wire), f);
    if c < |front| { ConnOnce(front, c, f); }
  }

  lemma {:induction false} ConnTwice(conns: seq<Conn>, c: nat, d: nat, f: Line)
    requires c < d < |conns|
    ensures Times(LiveFrames(conns), f) >= Times(LiveOf(conns[c].wire), f) + Times(LiveOf(conns[d].wire), f)
  {
    var front, last := conns[..|conns| - 1], conns[|conns| - 1];
    TimesAppend(LiveFrames(front), LiveOf(last.wire), f);
    if d < |front| { ConnTwice(front, c, d, f); } else { ConnOnce(front, c, f); }
  }

  lemma {:induction false} FramesPrefix(ls: seq<Line>, cwd: string, n: nat, f: Line)
    requires n <= |ls|
    ensures Times(Frames(ls[..n], cwd), f) <= Times(Frames(ls, cwd), f)
  {
    if n == |ls| {
      assert ls[..n] == ls;
    } else {
      var front := ls[..|ls| - 1];
      assert front[..n] == ls[..n];
      FramesPrefix(front, cwd, n, f);
      TimesAppend(Frames(front, cwd), [FrameFor(front, ls[|ls| - 1], cwd)], f);
    }
  }

  /** The client sends the frame once. */
  predicate SentOnce(input: seq<Line>, cwd: string, f: Line) { Times(Frames(ReadLines(input), cwd), f) <= 1 }

  /** A frame that the client sends once has one live attempt, on one connection, in
      every state of every run; all its other attempts are replays. */
  lemma OneLiveAttempt(run: seq<State>, input: seq<Line>, cwd: string, i: nat, f: Line, c: nat, n: nat, d: nat, m: nat)
    requires IsRun(run, input, cwd) && i < |run| && SentOnce(input, cwd, f)
    requires c < |run[i].conns| && LiveAt(run[i].conns[c].wire, n, f)
    requires d < |run[i].conns| && LiveAt(run[i].conns[d].wire, m, f)
    ensures c == d && n == m
  {
    var s := run[i];
    LiveFramesArePrefix(run, input, cwd, i);
    FramesPrefix(ReadLines(input), cwd, |LiveFrames(s.conns)|, f);
    LiveOnce(s.conns[c].wire, n, f);
    LiveOnce(s.conns[d].wire, m, f);
    if c < d { ConnTwice(s.conns, c, d, f); } else if d < c { ConnTwice(s.conns, d, c, f); }
    ConnOnce(s.conns, c, f);
    if n < m && c == d { LiveTwice(s.conns[c].wire, n, m, f); }
    if m < n && c == d { LiveTwice(s.conns[c].wire, m, n, f); }
  }

  /* ---- Answers ---- */

  predicate IsLine(s: string) { s != "" && AfterNewline(s) == Some(|s|) }

  predicate AtLineStart(s: string) { s == "" || s[|s| - 1] == '\n' }

  /** A full line of a text that answers the handshake. */
  predicate AnswerAt(text: string, i: nat, j: nat, answers: string -> bool) {
    i < j <= |text| && AtLineStart(text[..i]) && IsLine(text[i..j]) && answers(text[i..j])
  }

  /** What the client got from some connection holds such a line. */
  ghost predicate ClientHasAnswer(s: State, answers: string -> bool) {
    exists d: nat, i: nat, j: nat :: AnswerAt(From(s.out, d), i, j, answers)
  }

  /** The reader of a connection has read such a line in full, and it was not the line
      that is discarded where the handshake was replayed. */
  predicate Passed(k: Conn, i: nat, j: nat, answers: string -> bool) {
    AnswerAt(k.arrived, i, j, answers) && j <= k.read && (k.openReq.Some? ==> i > 0)
  }

  /** Behind the first newline of a text every line starts after its first line. */
  lemma {:induction false} FirstLineEnds(s: string, p: nat)
    requires 0 < p <= |s| && s[p - 1] == '\n'
    ensures AfterNewline(s).Some? && AfterNewline(s).value <= p
  {
    if s[0] != '\n' { FirstLineEnds(s[1..], p - 1); }
  }

  lemma {:induction false} NewlineBefore(s: string)
    requires AfterNewline(s).Some?
    ensures 0 < AfterNewline(s).value <= |s| && s[AfterNewline(s).value - 1] == '\n'
  {
    if s[0] != '\n' { NewlineBefore(s[1..]); }
  }

  lemma SliceOf(s: string, i: nat, j: nat, a: nat, b: nat)
    requires i <= a <= b <= j <= |s|
    ensures s[i..j][a - i..b - i] == s[a..b]
  {
    var whole := s[i..j];
    assert forall p :: a <= p < b ==> whole[p - i] == s[p];
    assert forall p :: 0 <= p < b - a ==> whole[a - i..b - i][p] == whole[a - i + p] == s[a..b][p];
  }

  /** A line of the text behind the first `k` bytes, seen in the whole text. */
  lemma AnswerInWhole(text: string, k: nat, n: nat, i: nat, j: nat, answers: string -> bool)
    requires k <= n <= |text| && (k == 0 || text[k - 1] == '\n') && AnswerAt(text[k..n], i, j, answers)
    ensures AnswerAt(text, k + i, k + j, answers)
  {
    SliceOf(text, k, n, k + i, k + j);
    if i > 0 { assert text[k..n][..i][i - 1] == text[k + i - 1] == text[..k + i][k + i - 1]; }
    else if k > 0 { assert text[..k][k - 1] == text[k - 1]; }
  }

  lemma AnswerInPart(text: string, k: nat, n: nat, i: nat, j: nat, answers: string -> bool)
    requires k <= i && j <= n <= |text| && AnswerAt(text, i, j, answers)
    ensures AnswerAt(text[k..n], i - k, j - k, answers)
  {
    SliceOf(text, k, n, i, j);
    if i > k { assert text[k..n][..i - k][i - k - 1] == text[i - 1] == text[..i][i - 1]; }
  }

  lemma ReachedPasses(s: State, d: nat, i: nat, j: nat, answers: string -> bool)
    requires OutputOk(s) && HandshakeOk(s) && AnswerAt(From(s.out, d), i, j, answers)
    ensures d < |s.conns| && Passed(s.conns[d], s.conns[d].skipped + i, s.conns[d].skipped + j, answers)
  {
    var k := s.conns[d];
    assert ReadOk(k) && WireOk(k);
    if k.skipped > 0 { NewlineBefore(k.arrived); }
    AnswerInWhole(k.arrived, k.skipped, k.read, i, j, answers);
  }

  lemma PassedReaches(s: State, d: nat, i: nat, j: nat, answers: string -> bool)
    requires OutputOk(s) && HandshakeOk(s) && d < |s.conns| && Passed(s.conns[d], i, j, answers)
    ensures s.conns[d].skipped <= i
    ensures AnswerAt(From(s.out, d), i - s.conns[d].skipped, j - s.conns[d].skipped, answers)
  {
    var k := s.conns[d];
    assert ReadOk(k) && WireOk(k);
    if i > 0 {
      assert k.arrived[..i][i - 1] == k.arrived[i - 1];
      FirstLineEnds(k.arrived, i);
    }
    AnswerInPart(k.arrived, k.skipped, k.read, i, j, answers);
  }

  /** In every state of every run: the client has an answer to the handshake if and only
      if the daemon sent one that was read in full and was not the first line of a
      connection on which the handshake was replayed. */
  lemma AnsweredIff(run: seq<State>, input: seq<Line>, cwd: string, n: nat, answers: string -> bool)
    requires IsRun(run, input, cwd) && n < |run|
    ensures ClientHasAnswer(run[n], answers)
      <==> exists d: nat, i: nat, j: nat :: d < |run[n].conns| && Passed(run[n].conns[d], i, j, answers)
  {
    var s := run[n];
    RunHandshake(run, input, cwd, n);
    RunOutput(run, input, cwd, n);
    if ClientHasAnswer(s, answers) {
      var d: nat, i: nat, j: nat :| AnswerAt(From(s.out, d), i, j, answers);
      ReachedPasses(s, d, i, j, answers);
    }
    if exists d: nat, i: nat, j: nat :: d < |s.conns| && Passed(s.conns[d], i, j, answers) {
      var d: nat, i: nat, j: nat :| d < |s.conns| && Passed(s.conns[d], i, j, answers);
      PassedReaches(s, d, i, j, answers);
    }
  }

  /* ---- With the daemon the bridge takes for granted ---- */

  /** The captured frame was handed to the connection live. */
  ghost predicate AskedLive(s: State, d: nat) {
    s.initReq.Some? && d < |s.conns| && exists m: nat :: LiveAt(s.conns[d].wire, m, s.initReq.value)
  }

  /** The daemon answers the handshake only where it was sent, and answers a replayed one
      with its first line. */
  ghost predicate Mannerly(s: State, answers: string -> bool) {
    forall d: nat, i: nat, j: nat :: d < |s.conns| && AnswerAt(s.conns[d].arrived, i, j, answers) ==>
      AskedLive(s, d) || (s.conns[d].openReq.Some? && i == 0)
  }

  /** The reader of a connection has read an answer in full. */
  ghost predicate ReadAnswer(k: Conn, answers: string -> bool) {
    exists i: nat, j: nat :: AnswerAt(k.arrived, i, j, answers) && j <= k.read
  }

  /** With such a daemon and a client that sends its initialize once: in every state
      after the capture the client has an answer if and only if the reader of the one
      connection that carried the live attempt has read one in full. */
  lemma MannerlyAnsweredIff(run: seq<State>, input: seq<Line>, cwd: string, n: nat, c: nat, m: nat,
                            answers: string -> bool)
    requires IsRun(run, input, cwd) && n < |run| && CapturedAt(run[n], c, m)
    requires SentOnce(input, cwd, run[n].initReq.value) && Mannerly(run[n], answers)
    ensures ClientHasAnswer(run[n], answers) <==> ReadAnswer(run[n].conns[c], answers)
  {
    var s := run[n];
    AnsweredIff(run, input, cwd, n, answers);
    if ClientHasAnswer(s, answers) {
      var d: nat, i: nat, j: nat :| d < |s.conns| && Passed(s.conns[d], i, j, answers);
      var o: nat :| LiveAt(s.conns[d].wire, o, s.initReq.value);
      OneLiveAttempt(run, input, cwd, n, s.initReq.value, c, m, d, o);
    }
    if ReadAnswer(s.conns[c], answers) {
      var i: nat, j: nat :| AnswerAt(s.conns[c].arrived, i, j, answers) && j <= s.conns[c].read;
      assert Passed(s.conns[c], i, j, answers);
    }
  }

  lemma AnswerInPrefix(text: string, longer: string, i: nat, j: nat, answers: string -> bool)
    requires text <= longer && j <= |text| && AnswerAt(longer, i, j, answers)
    ensures AnswerAt(text, i, j, answers)
  {
    assert longer[..i] == text[..i] && longer[i..j] == text[i..j];
  }

  /** A finished reader has what it will ever have. */
  lemma ReadNoMore(k: Conn, d: Conn, answers: string -> bool)
    requires ReadOk(k) && ConnGrows(k, d) && k.reading && k.readDone
    ensures ReadAnswer(d, answers) ==> ReadAnswer(k, answers)
  {
    if ReadAnswer(d, answers) {
      var i: nat, j: nat :| AnswerAt(d.arrived, i, j, answers) && j <= d.read;
      AnswerInPrefix(k.arrived, d.arrived, i, j, answers);
    }
  }

  /** Once the reader of that connection is done without one, for whatever reason, no
      later state of the run has an answer for the client. */
  lemma AnswerLostForGood(run: seq<State>, input: seq<Line>, cwd: string, n: nat, later: nat, c: nat, m: nat,
                          answers: string -> bool)
    requires IsRun(run, input, cwd) && n <= later < |run| && CapturedAt(run[n], c, m)
    requires SentOnce(input, cwd, run[n].initReq.value) && Mannerly(run[later], answers)
    requires run[n].conns[c].reading && run[n].conns[c].readDone && !ReadAnswer(run[n].conns[c], answers)
    ensures !ClientHasAnswer(run[later], answers)
  {
    CaptureStays(run, input, cwd, n, later, c, m);
    CapturedOnce(run, input, cwd, n, later);
    RunOutput(run, input, cwd, n);
    ReadNoMore(run[n].conns[c], run[later].conns[c], answers);
    MannerlyAnsweredIff(run, input, cwd, later, c, m, answers);
  }
}
