/** Runs of the bridge that show where it fails its client: the input that stops the
    process, and handshakes whose answer is lost or comes by chance. */
module BridgeRuns {
  import opened Text
  import opened Bridge
  import opened BridgeProofs
  import opened BridgeAnswers

  /* ---- Building runs ---- */

  lemma Stepped(s: State, e: Event, t: State)
    requires Enabled(s, e) && t == Step(s, e)
    ensures Next(s, t)
  {
  }

  lemma Extend(run: seq<State>, input: seq<Line>, cwd: string, t: State)
    requires IsRun(run, input, cwd) && Next(run[|run| - 1], t)
    ensures IsRun(run + [t], input, cwd)
  {
    forall i | 0 < i < |run + [t]| ensures LinkedAt(run + [t], i) {
      if i < |run| { assert LinkedAt(run, i); }
    }
  }

  /* ---- Where the bridge gives up ---- */

  ghost predicate CrashOk(s: State) {
    s.phase.Crashed? ==>
      && Open(s) && Current(s).writer.Holding? && InjectRoots(Current(s).writer.msg, s.cwd).None?
      && IsInitialize(Current(s).writer.msg) && s.initReq.None?
  }

  lemma StepCrash(s: State, e: Event)
    requires OneWriter(s) && CrashOk(s) && Enabled(s, e)
    ensures CrashOk(Step(s, e))
  {
    if e.Send? {
      WriterIsLast(s, e.conn);
      if !Handle(s, e.conn, e.ok).phase.Crashed? { HandleShape(s, e.conn, e.ok); }
    }
  }

  lemma {:induction false} RunCrash(run: seq<State>, input: seq<Line>, cwd: string, i: nat)
    requires IsRun(run, input, cwd) && i < |run|
    ensures CrashOk(run[i])
  {
    if i > 0 {
      RunCrash(run, input, cwd, i - 1);
      RunOneWriter(run, input, cwd, i - 1);
      assert LinkedAt(run, i);
      NextCrash(run[i - 1], run[i]);
    }
  }

  lemma NextCrash(s: State, t: State)
    requires OneWriter(s) && CrashOk(s) && Next(s, t)
    ensures CrashOk(t)
  {
    var e :| Enabled(s, e) && t == Step(s, e);
    StepCrash(s, e);
  }

  /** The first initialize among the lines. */
  predicate FirstAt(ls: seq<Line>, k: nat) {
    k < |ls| && IsInitialize(ls[k]) && forall j :: 0 <= j < k ==> !IsInitialize(ls[j])
  }

  /** The line that `maybeInjectRoots` cannot take: the envelope decodes, the params
      are null, and there is a directory to inject. */
  predicate Fatal(l: Line, cwd: string) { IsInitialize(l) && l.typed && l.params.NullParams? && cwd != "" }

  lemma FatalIff(l: Line, cwd: string)
    requires IsInitialize(l)
    ensures InjectRoots(l, cwd).None? <==> Fatal(l, cwd)
  {}

  lemma {:induction false} UncapturedIsFatal(ls: seq<Line>, cwd: string, j: nat)
    requires FirstInit(ls, cwd).None? && j < |ls| && IsInitialize(ls[j])
    ensures Fatal(ls[j], cwd)
  {
    FatalIff(ls[j], cwd);
    var front := ls[..|ls| - 1];
    if j < |front| {
      assert front[j] == ls[j];
      UncapturedIsFatal(front, cwd, j);
    }
  }

  lemma {:induction false} SomeFirst(ls: seq<Line>, k: nat) returns (j: nat)
    requires k < |ls| && IsInitialize(ls[k])
    ensures j <= k && FirstAt(ls, j)
  {
    if exists i :: 0 <= i < k && IsInitialize(ls[i]) {
      var i :| 0 <= i < k && IsInitialize(ls[i]);
      j := SomeFirst(ls, i);
    } else {
      j := k;
    }
  }

  /** A crash means that the first initialize on stdin was fatal. */
  lemma CrashMeansFatal(run: seq<State>, input: seq<Line>, cwd: string, i: nat)
    requires IsRun(run, input, cwd) && i < |run| && run[i].phase.Crashed?
    ensures exists k: nat :: FirstAt(ReadLines(input), k) && Fatal(ReadLines(input)[k], cwd)
  {
    RunCrash(run, input, cwd, i);
    RunInv(run, input, cwd, i);
    var ls, k := ReadLines(input), run[i].taken - 1;
    assert ls[k] == Current(run[i]).writer.msg;
    FatalIff(ls[k], cwd);
    var j := SomeFirst(ls, k);
    if j < k {
      assert ls[..k][j] == ls[j];
      UncapturedIsFatal(ls[..k], cwd, j);
    }
    assert FirstAt(ls, j) && Fatal(ls[j], cwd);
  }

  /** Handling the first initialize stops the process exactly when it is fatal. */
  lemma HandlingCrashesIff(run: seq<State>, input: seq<Line>, cwd: string, i: nat, c: nat, ok: bool)
    requires IsRun(run, input, cwd) && i < |run| && Enabled(run[i], Send(c, ok))
    requires run[i].initReq.None? && IsInitialize(run[i].conns[c].writer.msg)
    ensures Step(run[i], Send(c, ok)).phase.Crashed? <==> Fatal(run[i].conns[c].writer.msg, cwd)
  {
    RunInv(run, input, cwd, i);
    FatalIff(run[i].conns[c].writer.msg, cwd);
  }

  /** The session of the first connection after `k` lines, none of them an initialize. */
  ghost predicate Serving(s: State, input: seq<Line>, cwd: string, k: nat) {
    && s.phase.Session? && |s.conns| == 1 && s.conns[0].writer.Waiting? && s.initReq.None?
    && s.lines == ReadLines(input) && s.cwd == cwd && s.taken == k
  }

  lemma {:induction false} ServesLines(input: seq<Line>, cwd: string, k: nat) returns (run: seq<State>)
    requires k <= |ReadLines(input)| && forall j :: 0 <= j < k ==> !IsInitialize(ReadLines(input)[j])
    ensures IsRun(run, input, cwd) && Serving(run[|run| - 1], input, cwd, k)
  {
    if k == 0 {
      var s := Init(input, cwd);
      run := [s];
      Stepped(s, DialOk, Step(s, DialOk));
      Extend(run, input, cwd, Step(s, DialOk));
      run := run + [Step(s, DialOk)];
    } else {
      run := ServesLines(input, cwd, k - 1);
      var s := run[|run| - 1];
      var t := Step(s, Take(0));
      Stepped(s, Take(0), t);
      Extend(run, input, cwd, t);
      var u := Step(t, Send(0, true));
      Stepped(t, Send(0, true), u);
      Extend(run + [t], input, cwd, u);
      ServesOne(s, t, u, input, cwd, k);
      run := run + [t] + [u];
    }
  }

  lemma ServesOne(s: State, t: State, u: State, input: seq<Line>, cwd: string, k: nat)
    requires 0 < k <= |ReadLines(input)| && Serving(s, input, cwd, k - 1) && !IsInitialize(ReadLines(input)[k - 1])
    requires Enabled(s, Take(0)) && t == Step(s, Take(0)) && Enabled(t, Send(0, true)) && u == Step(t, Send(0, true))
    ensures Serving(u, input, cwd, k)
  {}

  ghost predicate FatalInput(input: seq<Line>, cwd: string) {
    exists k: nat :: FirstAt(ReadLines(input), k) && Fatal(ReadLines(input)[k], cwd)
  }

  ghost predicate CrashesAt(run: seq<State>, input: seq<Line>, cwd: string, i: nat) {
    IsRun(run, input, cwd) && i < |run| && run[i].phase.Crashed?
  }

  /** Some run stops the process if and only if the first initialize on stdin is fatal. */
  lemma CrashReachableIff(input: seq<Line>, cwd: string)
    ensures (exists run, i :: CrashesAt(run, input, cwd, i)) <==> FatalInput(input, cwd)
  {
    if FatalInput(input, cwd) {
      var k: nat :| FirstAt(ReadLines(input), k) && Fatal(ReadLines(input)[k], cwd);
      var run := CrashRun(input, cwd, k);
      assert CrashesAt(run, input, cwd, |run| - 1);
    }
    forall run, i | CrashesAt(run, input, cwd, i) ensures FatalInput(input, cwd) {
      CrashMeansFatal(run, input, cwd, i);
    }
  }

  lemma CrashRun(input: seq<Line>, cwd: string, k: nat) returns (run: seq<State>)
    requires FirstAt(ReadLines(input), k) && Fatal(ReadLines(input)[k], cwd)
    ensures IsRun(run, input, cwd) && run[|run| - 1].phase.Crashed?
  {
    run := ServesLines(input, cwd, k);
    var s := run[|run| - 1];
    var t := Step(s, Take(0));
    Stepped(s, Take(0), t);
    Extend(run, input, cwd, t);
    FatalIff(ReadLines(input)[k], cwd);
    var u := Step(t, Send(0, true));
    Stepped(t, Send(0, true), u);
    Extend(run + [t], input, cwd, u);
    run := run + [t] + [u];
  }

  /* ---- A handshake that is never answered ---- */

  lemma SendsHandshake(s: State, init: Line, frame: Line, ok: bool)
    requires s.conns == [Conn([], "", 0, 0, Holding(init), false, true, false, false, None, None)]
    requires s.initReq.None? && IsInitialize(init) && InjectRoots(init, s.cwd) == Some(frame)
    ensures Handle(s, 0, ok) == s.(initReq := Some(frame), conns :=
      [Conn([Attempt(frame, true, ok)], "", 0, 0, if ok then Waiting else Exited(WriteFailed),
            false, true, false, false, None, None)])
  {
    var c := s.conns[0];
    assert c.wire + [Attempt(frame, true, ok)] == [Attempt(frame, true, ok)];
  }

  /** From the start to the one Write of the handshake. */
  lemma FirstWrite(init: Line, cwd: string, frame: Line, ok: bool) returns (run: seq<State>)
    requires IsInitialize(init) && InjectRoots(init, cwd) == Some(frame)
    ensures IsRun(run, [init], cwd)
    ensures run[|run| - 1] == State([init], cwd, 1, Session, false, true, Some(frame), None,
      [Conn([Attempt(frame, true, ok)], "", 0, 0, if ok then Waiting else Exited(WriteFailed),
            false, true, false, false, None, None)], [])
  {
    assert ReadLines([init]) == [init] + ReadLines([]);
    var c := Conn([], "", 0, 0, Waiting, false, true, false, false, None, None);
    var s0 := State([init], cwd, 0, Dialing, false, true, None, None, [], []);
    var s1 := s0.(phase := Session, conns := [c]);
    var s2 := s1.(taken := 1, conns := [c.(writer := Holding(init))]);
    Stepped(s0, DialOk, s1);
    Extend([s0], [init], cwd, s1);
    Stepped(s1, Take(0), s2);
    Extend([s0] + [s1], [init], cwd, s2);
    SendsHandshake(s2, init, frame, ok);
    Stepped(s2, Send(0, ok), Handle(s2, 0, ok));
    Extend([s0] + [s1] + [s2], [init], cwd, Handle(s2, 0, ok));
    run := [s0] + [s1] + [s2] + [Handle(s2, 0, ok)];
  }

  /** The daemon drops before answering: the reader ends, then the writer is stopped. */
  lemma DaemonDrops(run: seq<State>, input: seq<Line>, cwd: string, s: State, c: Conn) returns (longer: seq<State>)
    requires IsRun(run, input, cwd) && run[|run| - 1] == s && s.phase.Session? && !s.cancelled && s.conns == [c]
    requires c.writer.Waiting? && c.reading && !c.readDone
    ensures IsRun(longer, input, cwd)
    ensures longer[|longer| - 1] == s.(firstConnect := false, phase := Dialing,
      conns := [c.(readDone := true, stop := true, writer := Exited(Stopped))])
  {
    var s1 := s.(conns := [c.(readDone := true)]);
    Stepped(s, CopyEnd(0), s1);
    Extend(run, input, cwd, s1);
    var s2 := s1.(conns := [c.(readDone := true, stop := true)], phase := AwaitWriter);
    Stepped(s1, ReadEnded, s2);
    Extend(run + [s1], input, cwd, s2);
    var s3 := s2.(conns := [c.(readDone := true, stop := true, writer := Exited(Stopped))]);
    Stepped(s2, SeeStop(0), s3);
    Extend(run + [s1] + [s2], input, cwd, s3);
    var s4 := s3.(firstConnect := false, phase := Dialing);
    Stepped(s3, WriterJoined, s4);
    Extend(run + [s1] + [s2] + [s3], input, cwd, s4);
    longer := run + [s1] + [s2] + [s3] + [s4];
  }

  /** The session ends: the Write failed, or the daemon dropped before answering. */
  lemma FirstDrop(init: Line, cwd: string, frame: Line, ok: bool) returns (run: seq<State>, k: Conn)
    requires IsInitialize(init) && InjectRoots(init, cwd) == Some(frame)
    ensures IsRun(run, [init], cwd) && k.wire == [Attempt(frame, true, ok)] && k.openReq.None? && k.arrived == ""
    ensures run[|run| - 1] == State([init], cwd, 1, Dialing, false, false, Some(frame), None, [k], [])
  {
    run := FirstWrite(init, cwd, frame, ok);
    var s := run[|run| - 1];
    if !ok {
      k := s.conns[0];
      var t := s.(firstConnect := false, phase := Dialing);
      Stepped(s, WriterEnded, t);
      Extend(run, [init], cwd, t);
      run := run + [t];
    } else {
      run := DaemonDrops(run, [init], cwd, s, s.conns[0]);
      k := s.conns[0].(readDone := true, stop := true, writer := Exited(Stopped));
    }
  }

  /** The second connection, right after the handshake was replayed on it. */
  function Replayed(frame: Line): Conn {
    Conn([Attempt(frame, false, true)], "", 0, 0, NoWriter, false, false, false, true, Some(frame), None)
  }

  lemma Redials(init: Line, cwd: string, frame: Line, ok: bool) returns (run: seq<State>, k: Conn)
    requires IsInitialize(init) && InjectRoots(init, cwd) == Some(frame)
    ensures IsRun(run, [init], cwd) && k.wire == [Attempt(frame, true, ok)] && k.openReq.None? && k.arrived == ""
    ensures run[|run| - 1] ==
      State([init], cwd, 1, AwaitInit, false, false, Some(frame), None, [k, Replayed(frame)], [])
  {
    run, k := FirstDrop(init, cwd, frame, ok);
    var s := run[|run| - 1];
    var bare := Replayed(frame).(wire := []);
    var t := s.(phase := SendInit, conns := [k, bare]);
    Stepped(s, DialOk, t);
    Extend(run, [init], cwd, t);
    var u := s.(phase := AwaitInit, conns := [k, Replayed(frame)]);
    assert Attempted(bare, frame, false, true) == Replayed(frame);
    Stepped(t, InitSent(true), u);
    Extend(run + [t], [init], cwd, u);
    run := run + [t] + [u];
  }

  /** A connection whose first line has been discarded, as its session starts. */
  function Discarded(c: Conn, line: string): Conn {
    c.(arrived := line, read := |line|, skipped := |line|, writer := Waiting, reading := true)
  }

  lemma {:induction false} LineArrives(s: State, k: Conn, c: Conn, line: string)
    requires !s.phase.Crashed? && s.conns == [k, c]
    ensures Next(s, s.(conns := [k, c.(arrived := c.arrived + line)]))
  {
    Stepped(s, Arrive(1, line), s.(conns := [k, c.(arrived := c.arrived + line)]));
  }

  lemma {:induction false} LineDiscarded(s: State, k: Conn, d: Conn)
    requires s.phase.AwaitInit? && s.conns == [k, d] && IsLine(d.arrived)
    ensures Next(s, s.(phase := SendNotif, conns := [k, d.(read := |d.arrived|, skipped := |d.arrived|)]))
  {
    Stepped(s, InitAnswered(true),
      s.(phase := SendNotif, conns := [k, d.(read := |d.arrived|, skipped := |d.arrived|)]));
  }

  lemma SessionStarts(s: State, k: Conn, d: Conn)
    requires s.phase.SendNotif? && s.conns == [k, d] && s.initNotif.None?
    ensures Next(s, s.(phase := Session, conns := [k, d.(writer := Waiting, reading := true)]))
  {
    Stepped(s, NotifSent(true), s.(phase := Session, conns := [k, d.(writer := Waiting, reading := true)]));
  }

  /** The daemon sends a line, the bridge discards it and starts the session. */
  lemma {:induction false} Discards(run: seq<State>, input: seq<Line>, cwd: string, k: Conn, c: Conn, line: string)
    returns (longer: seq<State>)
    requires IsRun(run, input, cwd) && c.arrived == "" && IsLine(line)
    requires var s := run[|run| - 1]; s.phase.AwaitInit? && s.conns == [k, c] && s.initNotif.None?
    ensures IsRun(longer, input, cwd)
    ensures longer[|longer| - 1] == run[|run| - 1].(phase := Session, conns := [k, Discarded(c, line)])
  {
    var s, d := run[|run| - 1], c.(arrived := line);
    assert "" + line == line;
    var s1 := s.(conns := [k, d]);
    LineArrives(s, k, c, line);
    Extend(run, input, cwd, s1);
    var s2 := s.(phase := SendNotif, conns := [k, d.(read := |line|, skipped := |line|)]);
    LineDiscarded(s1, k, d);
    Extend(run + [s1], input, cwd, s2);
    var s3 := s.(phase := Session, conns := [k, Discarded(c, line)]);
    SessionStarts(s2, k, d.(read := |line|, skipped := |line|));
    Extend(run + [s1] + [s2], input, cwd, s3);
    longer := run + [s1] + [s2] + [s3];
  }

  lemma OneLineOnce(init: Line, cwd: string, frame: Line)
    requires IsInitialize(init)
    ensures SentOnce([init], cwd, frame)
  {
    assert ReadLines([init]) == [init] + ReadLines([]);
    assert |Frames(ReadLines([init]), cwd)| == 1;
  }

  lemma Silent(s: State, answers: string -> bool)
    requires s.out == []
    ensures !ClientHasAnswer(s, answers)
  {
    forall d: nat ensures From(s.out, d) == "" {
    }
  }

  /** A line answers only as a whole. */
  lemma OnlyLine(line: string, i: nat, j: nat, answers: string -> bool)
    requires IsLine(line) && AnswerAt(line, i, j, answers)
    ensures i == 0
  {
    if i > 0 {
      assert line[..i][i - 1] == line[i - 1];
      FirstLineEnds(line, i);
    }
  }

  /** Whether the live Write of an initialize fails or succeeds, the daemon may go
      before its answer is read: then the answer comes on the next connection, where it
      is discarded as the answer to a replay, and the client gets nothing. */
  lemma LostInitialize(init: Line, cwd: string, frame: Line, answer: string, ok: bool, answers: string -> bool)
    returns (run: seq<State>)
    requires IsInitialize(init) && InjectRoots(init, cwd) == Some(frame) && IsLine(answer) && answers(answer)
    ensures IsRun(run, [init], cwd) && SentOnce([init], cwd, frame)
    ensures var s := run[|run| - 1];
      && s.phase.Session? && s.taken == |s.lines| && |s.conns| == 2 && Mannerly(s, answers)
      && s.conns[0].wire == [Attempt(frame, true, ok)]
      && s.conns[1].wire == [Attempt(frame, false, true)]
      && s.conns[1].arrived == answer && AnswerAt(answer, 0, |answer|, answers) && !ClientHasAnswer(s, answers)
  {
    OneLineOnce(init, cwd, frame);
    var k;
    run, k := Redials(init, cwd, frame, ok);
    run := Discards(run, [init], cwd, k, Replayed(frame), answer);
    var s := run[|run| - 1];
    Silent(s, answers);
    assert answer[..0] == "" && answer[0..|answer|] == answer;
    forall d: nat, i: nat, j: nat | d < |s.conns| && AnswerAt(s.conns[d].arrived, i, j, answers)
      ensures s.conns[d].openReq.Some? && i == 0
    {
      OnlyLine(answer, i, j, answers);
    }
  }

  lemma {:induction false} AnswerRead(s: State, k: Conn, d: Conn, text: string, answer: string)
    requires !s.phase.Crashed? && s.conns == [k, d] && s.out == [] && d.reading && !d.readDone
    requires answer != "" && d.arrived == text + answer && d.read == |text|
    ensures Next(s, s.(conns := [k, d.(read := |text| + |answer|)], out := Tagged(1, answer)))
  {
    assert d.arrived[|text|..|text| + |answer|] == answer;
    assert [] + Tagged(1, answer) == Tagged(1, answer);
    Stepped(s, Copy(1, |answer|), s.(conns := [k, d.(read := |text| + |answer|)], out := Tagged(1, answer)));
  }

  lemma {:induction false} TaggedFrom(c: nat, text: string)
    ensures From(Tagged(c, text), c) == text
  {
    FromTagged([], c, text, c);
    assert [] + Tagged(c, text) == Tagged(c, text) && "" + text == text;
  }

  lemma FirstCaptured(s: State, frame: Line)
    requires |s.conns| == 2 && s.initReq == Some(frame) && s.conns[0].openReq.None? && s.conns[1].openReq.Some?
    requires |s.conns[0].wire| == 1 && s.conns[0].wire[0].frame == frame && s.conns[0].wire[0].live
    ensures CapturedAt(s, 0, 0)
  {
    assert s.conns[0].wire[..0] == [];
  }

  /** If the daemon says anything else first on the new connection, that line is
      discarded instead and the answer to the replay reaches the client after all. */
  lemma {:induction false} AnsweredByChance(init: Line, cwd: string, frame: Line, note: string, answer: string,
                                            answers: string -> bool)
    returns (run: seq<State>)
    requires IsInitialize(init) && InjectRoots(init, cwd) == Some(frame)
    requires IsLine(note) && IsLine(answer) && answers(answer)
    ensures IsRun(run, [init], cwd) && SentOnce([init], cwd, frame)
    ensures var s := run[|run| - 1];
      && |s.conns| == 2 && CapturedAt(s, 0, 0) && !ReadAnswer(s.conns[0], answers)
      && From(s.out, 1) == answer && ClientHasAnswer(s, answers)
  {
    OneLineOnce(init, cwd, frame);
    var k;
    run, k := Redials(init, cwd, frame, true);
    run := Discards(run, [init], cwd, k, Replayed(frame), note);
    var s, c := run[|run| - 1], Discarded(Replayed(frame), note);
    var d := c.(arrived := note + answer);
    var t := s.(conns := [k, d]);
    LineArrives(s, k, c, answer);
    Extend(run, [init], cwd, t);
    AnswerRead(t, k, d, note, answer);
    var u := t.(conns := [k, d.(read := |note| + |answer|)], out := Tagged(1, answer));
    Extend(run + [t], [init], cwd, u);
    run := run + [t] + [u];
    TaggedFrom(1, answer);
    assert answer[..0] == "" && answer[0..|answer|] == answer;
    assert AnswerAt(From(u.out, 1), 0, |answer|, answers);
    FirstCaptured(u, frame);
  }
}
