/** What the cursor of a mirror promises over every run of catch-up, with any number
    of pulls at once: exactly when it keeps that promise, and what it costs when not. */
module CatchUpProofs {
  import opened Text
  import opened TaskSync
  import opened CatchUp

  /* ---- Rows and pages ---- */

  predicate Ascending(rows: seq<HomeRow>) {
    rows == [] || ((forall r :: r in rows[1..] ==> rows[0].hlc < r.hlc) && Ascending(rows[1..]))
  }

  ghost predicate Distinct(rows: seq<HomeRow>) {
    forall r, q :: r in rows && q in rows && r.task == q.task ==> r == q
  }

  lemma {:induction false} WithoutSpec(rows: seq<HomeRow>, t: string)
    requires Ascending(rows)
    ensures Ascending(Without(rows, t))
    ensures forall r :: r in Without(rows, t) <==> r in rows && r.task != t
  {
    if rows != [] {
      WithoutSpec(rows[1..], t);
      if rows[0].task != t { assert Without(rows, t)[1..] == Without(rows[1..], t); }
    }
  }

  lemma {:induction false} VisibleSpec(rows: seq<HomeRow>)
    requires Ascending(rows)
    ensures Ascending(Visible(rows))
    ensures forall r :: r in Visible(rows) <==> r in rows && r.visible
  {
    if rows != [] {
      VisibleSpec(rows[1..]);
      if rows[0].visible { assert Visible(rows)[1..] == Visible(rows[1..]); }
    }
  }

  lemma {:induction false} AfterSpec(rows: seq<HomeRow>, since: Hlc)
    requires Ascending(rows)
    ensures Ascending(After(rows, since))
    ensures forall r :: r in After(rows, since) <==> r in rows && r.hlc > since
  {
    if rows != [] {
      AfterSpec(rows[1..], since);
      if rows[0].hlc > since { assert After(rows, since)[1..] == After(rows[1..], since); }
    }
  }

  lemma {:induction false} AppendAscending(a: seq<HomeRow>, b: seq<HomeRow>)
    requires Ascending(a) && Ascending(b)
    requires forall r, q :: r in a && q in b ==> r.hlc < q.hlc
    ensures Ascending(a + b)
  {
    if a == [] {
      assert a + b == b;
    } else {
      AppendAscending(a[1..], b);
      assert (a + b)[1..] == a[1..] + b;
    }
  }

  lemma {:induction false} LastIsMax(rows: seq<HomeRow>)
    requires rows != [] && Ascending(rows)
    ensures forall r :: r in rows ==> r.hlc <= rows[|rows| - 1].hlc
  {
    if |rows| > 1 {
      LastIsMax(rows[1..]);
      assert rows[|rows| - 1] in rows[1..];
    }
  }

  /** Nothing the limit cuts off comes before what it keeps. */
  lemma {:induction false} TakeSpec(rows: seq<HomeRow>, n: nat)
    requires Ascending(rows)
    ensures Ascending(Take(rows, n))
    ensures forall r :: r in Take(rows, n) ==> r in rows
    ensures forall r, q :: r in rows && q in Take(rows, n) && r.hlc <= q.hlc ==> r in Take(rows, n)
  {
    if 0 < n < |rows| {
      TakeSpec(rows[1..], n - 1);
      var t := Take(rows[1..], n - 1);
      assert t == rows[1..][..n - 1];
      assert Take(rows, n) == [rows[0]] + t && Take(rows, n)[1..] == t;
    }
  }

  /** A page is the readable part of what comes after the watermark, and it skips
      nothing readable up to its last row. */
  lemma PageSpec(rows: seq<HomeRow>, since: Hlc, batch: nat)
    requires Ascending(rows)
    ensures var page := PageRows(After(rows, since), batch);
      && Ascending(page)
      && (forall r :: r in page ==> r in rows && r.visible && r.hlc > since)
      && (forall r :: page != [] && r in rows && r.visible && since < r.hlc <= page[|page| - 1].hlc ==> r in page)
  {
    var later := After(rows, since);
    AfterSpec(rows, since);
    TakeSpec(later, batch);
    VisibleSpec(Take(later, batch));
    var page := PageRows(later, batch);
    if page != [] { assert page[|page| - 1] in page; }
  }

  /* ---- The invariant ---- */

  ghost predicate HomeOk(rows: seq<HomeRow>, clock: Hlc) {
    && Ascending(rows) && Distinct(rows)
    && forall r :: r in rows ==> r.task != "" && 0 < r.hlc <= clock
  }

  /** A frame carries a revision the home has or had: never a newer one. */
  ghost predicate Behind(inflight: seq<HomeRow>, rows: seq<HomeRow>) {
    forall e, r :: e in inflight && r in rows ==>
      (e.task == r.task ==> e.hlc <= r.hlc) && (e.hlc == r.hlc ==> e == r)
  }

  ghost predicate FlightOk(s: Session, rows: seq<HomeRow>, clock: Hlc) {
    && s.since <= clock && Ascending(s.inflight) && Behind(s.inflight, rows)
    && (forall e :: e in s.inflight ==> e.task != "" && e.visible && 0 < e.hlc <= s.since)
    && (s.acking.Some? ==>
          s.acking.value.hlc <= s.since && forall e :: e in s.inflight ==> s.acking.value.hlc < e.hlc)
  }

  /** No revision in the mirror is ahead of the home's. */
  ghost predicate MirrorBehind(rows: seq<HomeRow>, clock: Hlc, tasks: map<string, Row>, l: Link) {
    && (forall t :: t in tasks && tasks[t].ws == l.ws ==> tasks[t].hlc <= clock)
    && (forall r :: r in rows && r.task in tasks && tasks[r.task].ws == l.ws ==> tasks[r.task].hlc <= r.hlc)
  }

  ghost predicate Shape(w: World, l: Link) {
    && HomeOk(w.rows, w.clock) && Cursor(w.mirror, l) <= w.clock
    && MirrorBehind(w.rows, w.clock, w.mirror.tasks, l)
    && forall i :: 0 <= i < |w.sessions| ==> FlightOk(w.sessions[i], w.rows, w.clock)
  }

  /** Where a readable row up to a pull's watermark can be. */
  ghost predicate Accounted(s: Session, rows: seq<HomeRow>, tasks: map<string, Row>, displaced: set<HomeRow>, l: Link) {
    forall r :: r in rows && r.visible && r.hlc <= s.since ==>
      Mirrored(tasks, r, l) || r in s.inflight || r in s.skipped || r in displaced
  }

  ghost predicate AllAccounted(w: World, l: Link) {
    forall i :: 0 <= i < |w.sessions| ==> Accounted(w.sessions[i], w.rows, w.mirror.tasks, w.displaced, l)
  }

  ghost predicate Inv(w: World, l: Link) { Shape(w, l) && AllAccounted(w, l) && Covered(w, l) }

  /* ---- The home ---- */

  lemma WriteHome(w: World, t: string, v: bool)
    requires HomeOk(w.rows, w.clock) && t != ""
    ensures HomeOk(Without(w.rows, t) + [HomeRow(t, w.clock + 1, v)], w.clock + 1)
    ensures forall r :: r in Without(w.rows, t) + [HomeRow(t, w.clock + 1, v)] <==>
      (r in w.rows && r.task != t) || r == HomeRow(t, w.clock + 1, v)
  {
    WithoutSpec(w.rows, t);
    var last := [HomeRow(t, w.clock + 1, v)];
    assert last[1..] == [];
    AppendAscending(Without(w.rows, t), last);
  }

  lemma FlightLater(s: Session, rows: seq<HomeRow>, clock: Hlc, next: seq<HomeRow>, t: string, v: bool)
    requires FlightOk(s, rows, clock)
    requires forall r :: r in next <==> (r in rows && r.task != t) || r == HomeRow(t, clock + 1, v)
    ensures FlightOk(s, next, clock + 1)
  {
  }

  lemma WriteShape(w: World, t: string, v: bool, l: Link, batch: nat)
    requires Shape(w, l) && t != ""
    ensures Shape(Next(w, HomeWrite(t, v), l, batch), l)
  {
    WriteHome(w, t, v);
    var n := Next(w, HomeWrite(t, v), l, batch);
    forall i | 0 <= i < |n.sessions| ensures FlightOk(n.sessions[i], n.rows, n.clock) {
      FlightLater(w.sessions[i], w.rows, w.clock, n.rows, t, v);
    }
  }

  lemma WriteAccounted(w: World, t: string, v: bool, l: Link, batch: nat)
    requires Inv(w, l) && t != ""
    ensures AllAccounted(Next(w, HomeWrite(t, v), l, batch), l) && Covered(Next(w, HomeWrite(t, v), l, batch), l)
  {
    WriteHome(w, t, v);
  }

  lemma DropKeeps(w: World, t: string, l: Link, batch: nat)
    requires Shape(w, l)
    ensures Shape(Next(w, HomeDrop(t), l, batch), l)
    ensures AllAccounted(w, l) && Covered(w, l) ==>
      AllAccounted(Next(w, HomeDrop(t), l, batch), l) && Covered(Next(w, HomeDrop(t), l, batch), l)
  {
    WithoutSpec(w.rows, t);
  }

  /* ---- Pulls ---- */

  lemma OpenKeeps(w: World, l: Link, batch: nat)
    requires Shape(w, l) && IsActive(w.mirror, l)
    ensures Shape(Next(w, Open, l, batch), l)
    ensures AllAccounted(w, l) && Covered(w, l) ==>
      AllAccounted(Next(w, Open, l, batch), l) && Covered(Next(w, Open, l, batch), l)
  {
  }

  lemma ClosedSession(rows: seq<HomeRow>, clock: Hlc, tasks: map<string, Row>, displaced: set<HomeRow>, l: Link)
    requires HomeOk(rows, clock)
    ensures FlightOk(Session(0, false, [], None, {}), rows, clock)
    ensures Accounted(Session(0, false, [], None, {}), rows, tasks, displaced, l)
  {
  }

  lemma CloseShape(w: World, i: nat, l: Link, batch: nat)
    requires Shape(w, l) && i < |w.sessions|
    ensures Shape(Next(w, Close(i), l, batch), l)
  {
    ClosedSession(w.rows, w.clock, w.mirror.tasks, w.displaced, l);
  }

  lemma CloseAccounted(w: World, i: nat, l: Link, batch: nat)
    requires HomeOk(w.rows, w.clock) && i < |w.sessions| && AllAccounted(w, l) && Covered(w, l)
    ensures AllAccounted(Next(w, Close(i), l, batch), l) && Covered(Next(w, Close(i), l, batch), l)
  {
    ClosedSession(w.rows, w.clock, w.mirror.tasks, w.displaced, l);
  }

  lemma PageFlight(s: Session, rows: seq<HomeRow>, clock: Hlc, page: seq<HomeRow>, batch: nat)
    requires HomeOk(rows, clock) && FlightOk(s, rows, clock) && Ascending(page)
    requires forall r :: r in page ==> r in rows && r.visible && r.hlc > s.since
    ensures FlightOk(AfterPage(s, page, batch), rows, clock)
  {
    if page != [] {
      AppendAscending(s.inflight, page);
      PageBehind(s.inflight, rows, page);
      PageBounds(s, rows, clock, page);
    }
  }

  lemma PageBounds(s: Session, rows: seq<HomeRow>, clock: Hlc, page: seq<HomeRow>)
    requires HomeOk(rows, clock) && FlightOk(s, rows, clock) && Ascending(page) && page != []
    requires forall r :: r in page ==> r in rows && r.visible && r.hlc > s.since
    ensures s.since < page[|page| - 1].hlc <= clock
    ensures forall e :: e in s.inflight + page ==> e.task != "" && e.visible && 0 < e.hlc <= page[|page| - 1].hlc
    ensures s.acking.Some? ==> forall e :: e in s.inflight + page ==> s.acking.value.hlc < e.hlc
  {
    LastIsMax(page);
    assert page[|page| - 1] in page;
  }

  lemma PageBehind(inflight: seq<HomeRow>, rows: seq<HomeRow>, page: seq<HomeRow>)
    requires Ascending(rows) && Distinct(rows) && Behind(inflight, rows) && forall r :: r in page ==> r in rows
    ensures Behind(inflight + page, rows)
  {
    forall e, r | e in page && r in rows && e.hlc == r.hlc ensures e == r { SameStamp(rows, e, r); }
  }

  lemma {:induction false} SameStamp(rows: seq<HomeRow>, e: HomeRow, r: HomeRow)
    requires Ascending(rows) && e in rows && r in rows && e.hlc == r.hlc
    ensures e == r
  {
    if e != rows[0] && r != rows[0] { SameStamp(rows[1..], e, r); }
  }

  lemma PageAccounts(s: Session, rows: seq<HomeRow>, tasks: map<string, Row>, displaced: set<HomeRow>, l: Link,
                     batch: nat)
    requires Ascending(rows) && Accounted(s, rows, tasks, displaced, l)
    ensures Accounted(AfterPage(s, PageRows(After(rows, s.since), batch), batch), rows, tasks, displaced, l)
  {
    PageSpec(rows, s.since, batch);
  }

  lemma PageKeeps(w: World, i: nat, l: Link, batch: nat)
    requires Shape(w, l) && Enabled(w, Page(i), l)
    ensures Shape(Next(w, Page(i), l, batch), l)
    ensures AllAccounted(w, l) && Covered(w, l) ==>
      AllAccounted(Next(w, Page(i), l, batch), l) && Covered(Next(w, Page(i), l, batch), l)
  {
    var s := w.sessions[i];
    PageSpec(w.rows, s.since, batch);
    PageFlight(s, w.rows, w.clock, PageRows(After(w.rows, s.since), batch), batch);
    if AllAccounted(w, l) { PageAccounts(s, w.rows, w.mirror.tasks, w.displaced, l, batch); }
  }

  /* ---- Handling a frame ---- */

  function Written(tasks: map<string, Row>, e: HomeRow, l: Link): map<string, Row> {
    if e.task in tasks && tasks[e.task].ws != l.ws then tasks else tasks[e.task := Row(l.ws, e.hlc)]
  }

  lemma WriteEffect(m: Mirror, e: HomeRow, f: Fault, l: Link)
    requires Writes(m, e, f, l)
    ensures ApplyTask(m.tasks, EventOf(e, l)).value == Written(m.tasks, e, l)
  {
  }

  /** What a write does to any row: it brings its own in, takes the displaced ones
      out, and leaves the others as they were. */
  lemma WrittenRows(rows: seq<HomeRow>, tasks: map<string, Row>, e: HomeRow, r: HomeRow, l: Link)
    requires r in rows
    ensures Mirrored(Written(tasks, e, l), e, l)
    ensures r in Displaces(rows, tasks, e, l) ==> !Mirrored(Written(tasks, e, l), r, l)
    ensures Mirrored(tasks, r, l) && r !in Displaces(rows, tasks, e, l) ==> Mirrored(Written(tasks, e, l), r, l)
    ensures !Mirrored(tasks, r, l) && (r.task != e.task || r.hlc != e.hlc) ==> !Mirrored(Written(tasks, e, l), r, l)
  {
  }

  lemma HeadFlight(s: Session, rows: seq<HomeRow>, clock: Hlc)
    requires FlightOk(s, rows, clock) && s.inflight != []
    ensures var e := s.inflight[0];
      e in s.inflight && forall x :: x in s.inflight[1..] ==> x in s.inflight && e.hlc < x.hlc
    ensures forall acking: Option<HomeRow>, skipped :: acking.None? || acking == Some(s.inflight[0]) ==>
      FlightOk(s.(inflight := s.inflight[1..], acking := acking, skipped := skipped), rows, clock)
  {
  }

  lemma HandleShape(w: World, i: nat, f: Fault, l: Link, batch: nat)
    requires Shape(w, l) && Enabled(w, Handle(i, f), l)
    ensures Shape(Next(w, Handle(i, f), l, batch), l)
  {
    var s := w.sessions[i];
    HeadFlight(s, w.rows, w.clock);
    if Writes(w.mirror, s.inflight[0], f, l) { WriteEffect(w.mirror, s.inflight[0], f, l); }
  }

  lemma SkipAccounts(s: Session, rows: seq<HomeRow>, tasks: map<string, Row>, displaced: set<HomeRow>, l: Link)
    requires Accounted(s, rows, tasks, displaced, l) && s.inflight != []
    ensures var left := s.(inflight := s.inflight[1..], skipped := s.skipped + {s.inflight[0]});
      Accounted(left, rows, tasks, displaced, l)
  {
    assert forall r :: r in s.inflight ==> r == s.inflight[0] || r in s.inflight[1..];
  }

  lemma WriteAccounts(s: Session, rows: seq<HomeRow>, tasks: map<string, Row>, displaced: set<HomeRow>, e: HomeRow,
                      l: Link)
    requires Accounted(s, rows, tasks, displaced, l)
    ensures Accounted(s, rows, Written(tasks, e, l), displaced + Displaces(rows, tasks, e, l), l)
  {
    forall r | r in rows && r.visible && r.hlc <= s.since
      ensures Mirrored(Written(tasks, e, l), r, l) || r in s.inflight || r in s.skipped
        || r in displaced + Displaces(rows, tasks, e, l)
    {
      WrittenRows(rows, tasks, e, r, l);
    }
  }

  lemma HeadAccounts(s: Session, rows: seq<HomeRow>, tasks: map<string, Row>, displaced: set<HomeRow>,
                     acking: Option<HomeRow>, l: Link)
    requires s.inflight != [] && Accounted(s, rows, tasks, displaced, l) && Mirrored(tasks, s.inflight[0], l)
    ensures Accounted(s.(inflight := s.inflight[1..], acking := acking), rows, tasks, displaced, l)
  {
    assert forall r :: r in s.inflight ==> r == s.inflight[0] || r in s.inflight[1..];
  }

  lemma HandleAccounts(w: World, i: nat, f: Fault, l: Link, batch: nat)
    requires AllAccounted(w, l) && Enabled(w, Handle(i, f), l)
    ensures AllAccounted(Next(w, Handle(i, f), l, batch), l)
  {
    var s, n := w.sessions[i], Next(w, Handle(i, f), l, batch);
    var e := s.inflight[0];
    if !Writes(w.mirror, e, f, l) {
      SkipAccounts(s, w.rows, w.mirror.tasks, w.displaced, l);
    } else {
      WriteEffect(w.mirror, e, f, l);
      forall k | 0 <= k < |n.sessions| ensures Accounted(n.sessions[k], n.rows, n.mirror.tasks, n.displaced, l) {
        WriteAccounts(w.sessions[k], w.rows, w.mirror.tasks, w.displaced, e, l);
        if k == i {
          HeadAccounts(s, n.rows, n.mirror.tasks, n.displaced, n.sessions[i].acking, l);
        }
      }
    }
  }

  /** Writing a frame leaves the cursor honest unless it regresses a covered row. */
  lemma HandleCoveredIff(w: World, i: nat, f: Fault, l: Link, batch: nat)
    requires Covered(w, l) && Enabled(w, Handle(i, f), l)
    ensures Covered(Next(w, Handle(i, f), l, batch), l) <==> !Regresses(w, Handle(i, f), l)
  {
    var e := w.sessions[i].inflight[0];
    if Writes(w.mirror, e, f, l) {
      WriteEffect(w.mirror, e, f, l);
      var gone := Displaces(w.rows, w.mirror.tasks, e, l);
      forall r | r in w.rows && Mirrored(w.mirror.tasks, r, l)
        ensures Mirrored(Written(w.mirror.tasks, e, l), r, l) <==> r !in gone
      {
        WrittenRows(w.rows, w.mirror.tasks, e, r, l);
      }
    }
  }

  /* ---- Acknowledging ---- */

  lemma AckEffect(w: World, i: nat, ok: bool, l: Link, batch: nat)
    requires Enabled(w, Ack(i, ok), l)
    ensures var n := Next(w, Ack(i, ok), l, batch); var h := w.sessions[i].acking.value.hlc;
      && n == WithSession(w, i, w.sessions[i].(acking := None)).(mirror := n.mirror)
      && n.mirror.tasks == w.mirror.tasks
      && Cursor(n.mirror, l) ==
           (if ok && IsActive(w.mirror, l) && Cursor(w.mirror, l) < h then h else Cursor(w.mirror, l))
  {
  }

  lemma AckShape(w: World, i: nat, ok: bool, l: Link, batch: nat)
    requires Shape(w, l) && Enabled(w, Ack(i, ok), l)
    ensures Shape(Next(w, Ack(i, ok), l, batch), l)
  {
    AckEffect(w, i, ok, l, batch);
    assert FlightOk(w.sessions[i], w.rows, w.clock);
  }

  lemma AckAccounts(w: World, i: nat, ok: bool, l: Link, batch: nat)
    requires AllAccounted(w, l) && Enabled(w, Ack(i, ok), l)
    ensures AllAccounted(Next(w, Ack(i, ok), l, batch), l)
  {
    AckEffect(w, i, ok, l, batch);
    assert Accounted(w.sessions[i], w.rows, w.mirror.tasks, w.displaced, l);
  }

  /** An acknowledgement leaves the cursor honest unless it overtakes an owed row. */
  lemma AckCoveredIff(w: World, i: nat, ok: bool, l: Link, batch: nat)
    requires Inv(w, l) && Enabled(w, Ack(i, ok), l)
    ensures Covered(Next(w, Ack(i, ok), l, batch), l) <==> !Overtakes(w, Ack(i, ok), l)
  {
    AckEffect(w, i, ok, l, batch);
    var s := w.sessions[i];
    assert FlightOk(s, w.rows, w.clock) && Accounted(s, w.rows, w.mirror.tasks, w.displaced, l);
  }

  /* ---- Every step ---- */

  lemma ReceiptEffect(w: World, a: Access, l: Link, batch: nat)
    ensures var n := Next(w, Receipt(a), l, batch);
      n.mirror.tasks == w.mirror.tasks && Cursor(n.mirror, l) == Cursor(w.mirror, l) && n == w.(mirror := n.mirror)
  {
  }

  lemma StepShape(w: World, s: Step, l: Link, batch: nat)
    requires Shape(w, l) && Enabled(w, s, l)
    ensures Shape(Next(w, s, l, batch), l)
  {
    match s
    case HomeWrite(t, v) => WriteShape(w, t, v, l, batch);
    case HomeDrop(t) => DropKeeps(w, t, l, batch);
    case Open => OpenKeeps(w, l, batch);
    case Page(i) => PageKeeps(w, i, l, batch);
    case Close(i) => CloseShape(w, i, l, batch);
    case Handle(i, f) => HandleShape(w, i, f, l, batch);
    case Ack(i, ok) => AckShape(w, i, ok, l, batch);
    case Receipt(a) => ReceiptEffect(w, a, l, batch);
  }

  /** Whether a step breaks the promise can be read off the world before it. */
  ghost predicate Breaks(w: World, s: Step, l: Link)
    requires Enabled(w, s, l)
  {
    Overtakes(w, s, l) || Regresses(w, s, l)
  }

  lemma StepCoveredIff(w: World, s: Step, l: Link, batch: nat)
    requires Inv(w, l) && Enabled(w, s, l)
    ensures Covered(Next(w, s, l, batch), l) <==> !Breaks(w, s, l)
    ensures AllAccounted(Next(w, s, l, batch), l)
  {
    match s
    case HomeWrite(t, v) => WriteAccounted(w, t, v, l, batch);
    case HomeDrop(t) => DropKeeps(w, t, l, batch);
    case Open => OpenKeeps(w, l, batch);
    case Page(i) => PageKeeps(w, i, l, batch);
    case Close(i) => CloseAccounted(w, i, l, batch);
    case Handle(i, f) => HandleAccounts(w, i, f, l, batch); HandleCoveredIff(w, i, f, l, batch);
    case Ack(i, ok) => AckAccounts(w, i, ok, l, batch); AckCoveredIff(w, i, ok, l, batch);
    case Receipt(a) => ReceiptEffect(w, a, l, batch);
  }

  /* ---- Runs ---- */

  predicate Possible(w: World, steps: seq<Step>, l: Link, batch: nat)
    decreases |steps|
  {
    steps == [] || (Enabled(w, steps[0], l) && Possible(Next(w, steps[0], l, batch), steps[1..], l, batch))
  }

  function RunFrom(w: World, steps: seq<Step>, l: Link, batch: nat): World
    requires Possible(w, steps, l, batch)
    decreases |steps|
  {
    if steps == [] then w else RunFrom(Next(w, steps[0], l, batch), steps[1..], l, batch)
  }

  /** The cursor is honest now and after every step. */
  ghost predicate CoveredThroughout(w: World, steps: seq<Step>, l: Link, batch: nat)
    requires Possible(w, steps, l, batch)
    decreases |steps|
  {
    Covered(w, l) && (steps == [] || CoveredThroughout(Next(w, steps[0], l, batch), steps[1..], l, batch))
  }

  /** No step of the run overtakes an owed row or regresses a covered one. */
  ghost predicate NeverBreaks(w: World, steps: seq<Step>, l: Link, batch: nat)
    requires Possible(w, steps, l, batch)
    decreases |steps|
  {
    steps == [] || (!Breaks(w, steps[0], l) && NeverBreaks(Next(w, steps[0], l, batch), steps[1..], l, batch))
  }

  /** The start: a home with well-stamped rows, a mirror that holds none of them. */
  ghost predicate Start(w: World, l: Link) {
    && HomeOk(w.rows, w.clock) && w.sessions == [] && w.displaced == {} && Cursor(w.mirror, l) == 0
    && forall t :: t in w.mirror.tasks ==> w.mirror.tasks[t].ws != l.ws
  }

  lemma {:induction false} RunHonestIff(w: World, steps: seq<Step>, l: Link, batch: nat)
    requires Inv(w, l) && Possible(w, steps, l, batch)
    ensures CoveredThroughout(w, steps, l, batch) <==> NeverBreaks(w, steps, l, batch)
    decreases |steps|
  {
    if steps != [] {
      StepCoveredIff(w, steps[0], l, batch);
      StepShape(w, steps[0], l, batch);
      if !Breaks(w, steps[0], l) { RunHonestIff(Next(w, steps[0], l, batch), steps[1..], l, batch); }
    }
  }

  /** Through any interleaving of home writes, overlapping pulls, broken streams,
      store faults and receipts, the mirror holds the current revision of every
      readable row at or below its cursor, at every point, if and only if no
      acknowledgement overtakes an owed row and no write regresses a covered one. */
  lemma CursorHonestIff(w: World, steps: seq<Step>, l: Link, batch: nat)
    requires Start(w, l) && Possible(w, steps, l, batch)
    ensures CoveredThroughout(w, steps, l, batch) <==> NeverBreaks(w, steps, l, batch)
  {
    RunHonestIff(w, steps, l, batch);
  }

  /* ---- One pull at a time ---- */

  predicate Idle(s: Session) { !s.more && s.inflight == [] && s.acking.None? }

  /** At most this pull is at work. */
  predicate Alone(w: World, i: nat) { forall k :: 0 <= k < |w.sessions| && k != i ==> Idle(w.sessions[k]) }

  ghost predicate Solo(w: World) { exists i: nat :: Alone(w, i) }

  /** No pull starts while another one is at work. */
  ghost predicate OneAtATime(w: World, steps: seq<Step>, l: Link, batch: nat)
    requires Possible(w, steps, l, batch)
    decreases |steps|
  {
    steps != [] ==>
      && (steps[0].Open? ==> forall k :: 0 <= k < |w.sessions| ==> Idle(w.sessions[k]))
      && OneAtATime(Next(w, steps[0], l, batch), steps[1..], l, batch)
  }

  /** No frame under way is older than what the mirror holds of its task. */
  ghost predicate InOrder(inflight: seq<HomeRow>, tasks: map<string, Row>, l: Link) {
    forall e :: e in inflight && e.task in tasks && tasks[e.task].ws == l.ws ==> tasks[e.task].hlc <= e.hlc
  }

  ghost predicate AllInOrder(w: World, l: Link) {
    forall i :: 0 <= i < |w.sessions| ==> InOrder(w.sessions[i].inflight, w.mirror.tasks, l)
  }

  lemma SoloStep(w: World, s: Step, l: Link, batch: nat)
    requires Solo(w) && Enabled(w, s, l)
    requires s.Open? ==> forall k :: 0 <= k < |w.sessions| ==> Idle(w.sessions[k])
    ensures Solo(Next(w, s, l, batch))
  {
    var i: nat :| Alone(w, i);
    var n := Next(w, s, l, batch);
    if s.Open? {
      assert Alone(n, |w.sessions|);
    } else {
      assert Alone(n, i);
    }
  }

  lemma HandleInOrder(w: World, i: nat, f: Fault, l: Link, batch: nat)
    requires Shape(w, l) && AllInOrder(w, l) && Solo(w) && Enabled(w, Handle(i, f), l)
    ensures AllInOrder(Next(w, Handle(i, f), l, batch), l)
  {
    var s, n := w.sessions[i], Next(w, Handle(i, f), l, batch);
    HeadFlight(s, w.rows, w.clock);
    assert InOrder(s.inflight, w.mirror.tasks, l);
    if Writes(w.mirror, s.inflight[0], f, l) { WriteEffect(w.mirror, s.inflight[0], f, l); }
    forall k | 0 <= k < |n.sessions| ensures InOrder(n.sessions[k].inflight, n.mirror.tasks, l) {
      assert InOrder(w.sessions[k].inflight, w.mirror.tasks, l);
      if k != i { OthersIdle(w, i, k); }
    }
  }

  lemma OthersIdle(w: World, i: nat, k: nat)
    requires Solo(w) && i < |w.sessions| && k < |w.sessions| && k != i && !Idle(w.sessions[i])
    ensures Idle(w.sessions[k])
  {
    var j: nat :| Alone(w, j);
  }

  lemma PageInOrder(w: World, i: nat, l: Link, batch: nat)
    requires Shape(w, l) && AllInOrder(w, l) && Enabled(w, Page(i), l)
    ensures AllInOrder(Next(w, Page(i), l, batch), l)
  {
    var s := w.sessions[i];
    assert InOrder(s.inflight, w.mirror.tasks, l);
    PageSpec(w.rows, s.since, batch);
  }

  lemma StepInOrder(w: World, s: Step, l: Link, batch: nat)
    requires Shape(w, l) && AllInOrder(w, l) && Solo(w) && Enabled(w, s, l)
    ensures AllInOrder(Next(w, s, l, batch), l)
  {
    match s
    case Page(i) => PageInOrder(w, i, l, batch);
    case Handle(i, f) => HandleInOrder(w, i, f, l, batch);
    case Ack(i, ok) => AckEffect(w, i, ok, l, batch); assert InOrder(w.sessions[i].inflight, w.mirror.tasks, l);
    case Receipt(a) => ReceiptEffect(w, a, l, batch);
    case HomeWrite(_, _) =>
    case HomeDrop(_) =>
    case Open =>
    case Close(_) =>
  }

  /** Frames in order displace nothing and regress nothing. */
  lemma InOrderNeverRegresses(w: World, s: Step, l: Link, batch: nat)
    requires Shape(w, l) && AllInOrder(w, l) && Enabled(w, s, l)
    ensures !Regresses(w, s, l) && Next(w, s, l, batch).displaced == w.displaced
  {
    if s.Handle? {
      var t := w.sessions[s.pull];
      var e := t.inflight[0];
      assert FlightOk(t, w.rows, w.clock) && InOrder(t.inflight, w.mirror.tasks, l) && e in t.inflight;
      assert Displaces(w.rows, w.mirror.tasks, e, l) == {};
    }
  }

  /** The cursor moves past a row still owed that this pull failed to write. */
  ghost predicate LeavesBehind(w: World, s: Step, l: Link)
    requires Enabled(w, s, l)
  {
    && s.Ack? && s.ok && IsActive(w.mirror, l)
    && exists r :: r in w.sessions[s.pull].skipped && Owed(w, r, l) && r.hlc <= w.sessions[s.pull].acking.value.hlc
  }

  ghost predicate NeverLeavesBehind(w: World, steps: seq<Step>, l: Link, batch: nat)
    requires Possible(w, steps, l, batch)
    decreases |steps|
  {
    steps == []
    || (!LeavesBehind(w, steps[0], l) && NeverLeavesBehind(Next(w, steps[0], l, batch), steps[1..], l, batch))
  }

  lemma SoloBreaksIff(w: World, s: Step, l: Link, batch: nat)
    requires Shape(w, l) && AllInOrder(w, l) && w.displaced == {} && Enabled(w, s, l)
    ensures Breaks(w, s, l) <==> LeavesBehind(w, s, l)
  {
    InOrderNeverRegresses(w, s, l, batch);
    if s.Ack? { assert w.sessions[s.pull].skipped + w.displaced == w.sessions[s.pull].skipped; }
  }

  lemma {:induction false} SoloNeverBreaksIff(w: World, steps: seq<Step>, l: Link, batch: nat)
    requires Shape(w, l) && AllInOrder(w, l) && Solo(w) && w.displaced == {}
    requires Possible(w, steps, l, batch) && OneAtATime(w, steps, l, batch)
    ensures NeverBreaks(w, steps, l, batch) <==> NeverLeavesBehind(w, steps, l, batch)
    decreases |steps|
  {
    if steps != [] {
      SoloBreaksIff(w, steps[0], l, batch);
      InOrderNeverRegresses(w, steps[0], l, batch);
      StepShape(w, steps[0], l, batch);
      StepInOrder(w, steps[0], l, batch);
      SoloStep(w, steps[0], l, batch);
      SoloNeverBreaksIff(Next(w, steps[0], l, batch), steps[1..], l, batch);
    }
  }

  /** If pulls never overlap, failed writes are all that can break the promise: the
      cursor is honest throughout iff no acknowledgement leaves behind a row that the
      same pull failed to write and that is still owed. */
  lemma OnePullHonestIff(w: World, steps: seq<Step>, l: Link, batch: nat)
    requires Start(w, l) && Possible(w, steps, l, batch) && OneAtATime(w, steps, l, batch)
    ensures CoveredThroughout(w, steps, l, batch) <==> NeverLeavesBehind(w, steps, l, batch)
  {
    CursorHonestIff(w, steps, l, batch);
    assert Alone(w, 0);
    SoloNeverBreaksIff(w, steps, l, batch);
  }

  /* ---- One pull's frames ---- */

  /** The sink handles the next frame of a pull and acknowledges what it wrote. */
  function Receive(w: World, i: nat, f: Fault, l: Link, batch: nat): World
    requires Enabled(w, Handle(i, f), l)
  {
    var n := Next(w, Handle(i, f), l, batch);
    if n.sessions[i].acking.Some? then Next(n, Ack(i, true), l, batch) else n
  }

  predicate Ready(w: World, i: nat, fs: seq<Fault>) {
    i < |w.sessions| && |fs| <= |w.sessions[i].inflight| && w.sessions[i].acking.None?
  }

  function Receives(w: World, i: nat, fs: seq<Fault>, l: Link, batch: nat): World
    requires Ready(w, i, fs)
    decreases |fs|
  {
    if fs == [] then w else Receives(Receive(w, i, fs[0], l, batch), i, fs[1..], l, batch)
  }

  /** The sink's `ApplyRemoteEvent` on one frame after the other. */
  function Applied(m: Mirror, frames: seq<HomeRow>, fs: seq<Fault>, l: Link): Mirror
    requires |fs| <= |frames|
    decreases |fs|
  {
    if fs == [] then m
    else Applied(ApplyEvent(m, l.home, EventOf(frames[0], l), fs[0]).0, frames[1..], fs[1..], l)
  }

  /** With nothing in between, the write and cursor steps of a pull's frames are those
      calls of the sink, whatever faults they meet. */
  lemma {:induction false} PullIsApplied(w: World, i: nat, fs: seq<Fault>, l: Link, batch: nat)
    requires Ready(w, i, fs)
    ensures Receives(w, i, fs, l, batch).mirror == Applied(w.mirror, w.sessions[i].inflight, fs, l)
    decreases |fs|
  {
    if fs != [] {
      HandleThenAck(w, i, fs[0], l, batch);
      PullIsApplied(Receive(w, i, fs[0], l, batch), i, fs[1..], l, batch);
    }
  }

  /** The link is up: frames are admitted. */
  predicate Able(m: Mirror, l: Link) { l.ws != "" && Admits(m, l.home, l.ws) }

  /** The last of the frames that is written for a task. */
  function LastWrite(frames: seq<HomeRow>, fs: seq<Fault>, t: string): Option<HomeRow>
    requires |fs| <= |frames|
    decreases |fs|
  {
    if fs == [] then None
    else
      var rest := LastWrite(frames[1..], fs[1..], t);
      if rest.None? && fs[0] != BeforeWrite && frames[0].task == t then Some(frames[0]) else rest
  }

  /** How far the acknowledged frames take the cursor. */
  function Reach(cursor: Hlc, frames: seq<HomeRow>, fs: seq<Fault>): Hlc
    requires |fs| <= |frames|
    decreases |fs|
  {
    if fs == [] then cursor
    else Reach(if fs[0] == NoFault && cursor < frames[0].hlc then frames[0].hlc else cursor, frames[1..], fs[1..])
  }

  /** A row is settled by the frames: the last one written for its task carries its
      current revision, or none is written and the mirror had it before. */
  predicate Settled(tasks: map<string, Row>, frames: seq<HomeRow>, fs: seq<Fault>, r: HomeRow, l: Link)
    requires |fs| <= |frames|
  {
    var last := LastWrite(frames, fs, r.task);
    if last.None? then Mirrored(tasks, r, l)
    else last.value.hlc == r.hlc || (r.task in tasks && tasks[r.task].ws != l.ws)
  }

  /** What one frame of a pull does. */
  ghost predicate Received(w: World, n: World, i: nat, f: Fault, l: Link)
    requires i < |w.sessions| && w.sessions[i].inflight != []
  {
    var s := w.sessions[i];
    var e := s.inflight[0];
    && Shape(n, l) && Able(n.mirror, l) && |n.sessions| == |w.sessions| && n.rows == w.rows
    && n.sessions[i].acking.None? && n.sessions[i].inflight == s.inflight[1..]
    && n.mirror.tasks == (if f == BeforeWrite then w.mirror.tasks else Written(w.mirror.tasks, e, l))
    && Cursor(n.mirror, l) == (if f == NoFault && Cursor(w.mirror, l) < e.hlc then e.hlc else Cursor(w.mirror, l))
  }

  lemma WritesUnlessFault(m: Mirror, e: HomeRow, f: Fault, l: Link)
    requires Able(m, l) && e.task != "" && e.hlc > 0
    ensures Writes(m, e, f, l) <==> f != BeforeWrite
  {
  }

  lemma HandleReceives(w: World, i: nat, f: Fault, l: Link, batch: nat)
    requires Shape(w, l) && Enabled(w, Handle(i, f), l) && Able(w.mirror, l)
    ensures var n := Next(w, Handle(i, f), l, batch); var s := w.sessions[i]; var e := s.inflight[0];
      && |n.sessions| == |w.sessions| && n.rows == w.rows && n.sessions[i].inflight == s.inflight[1..]
      && n.sessions[i].acking == (if f == NoFault then Some(e) else None)
      && n.mirror.members == w.mirror.members
      && n.mirror.tasks == (if f == BeforeWrite then w.mirror.tasks else Written(w.mirror.tasks, e, l))
  {
    var s := w.sessions[i];
    assert FlightOk(s, w.rows, w.clock) && s.inflight[0] in s.inflight;
    WritesUnlessFault(w.mirror, s.inflight[0], f, l);
    if f != BeforeWrite { WriteEffect(w.mirror, s.inflight[0], f, l); }
  }

  lemma AckReceives(w: World, i: nat, l: Link, batch: nat)
    requires Shape(w, l) && Enabled(w, Ack(i, true), l) && Able(w.mirror, l)
    ensures var n := Next(w, Ack(i, true), l, batch); var s := w.sessions[i];
      && Shape(n, l) && Able(n.mirror, l) && |n.sessions| == |w.sessions| && n.rows == w.rows
      && n.sessions[i] == s.(acking := None) && n.mirror.tasks == w.mirror.tasks
      && Cursor(n.mirror, l) ==
           (if Cursor(w.mirror, l) < s.acking.value.hlc then s.acking.value.hlc else Cursor(w.mirror, l))
  {
    AckEffect(w, i, true, l, batch);
    AckShape(w, i, true, l, batch);
  }

  lemma ReceiveEffect(w: World, i: nat, f: Fault, l: Link, batch: nat)
    requires Shape(w, l) && Enabled(w, Handle(i, f), l) && Able(w.mirror, l)
    ensures Received(w, Receive(w, i, f, l, batch), i, f, l)
  {
    HandleReceives(w, i, f, l, batch);
    HandleShape(w, i, f, l, batch);
    if f == NoFault { AckReceives(Next(w, Handle(i, f), l, batch), i, l, batch); }
  }

  lemma SettledStep(tasks: map<string, Row>, frames: seq<HomeRow>, fs: seq<Fault>, r: HomeRow, l: Link)
    requires 0 < |fs| <= |frames|
    ensures var next := if fs[0] == BeforeWrite then tasks else Written(tasks, frames[0], l);
      Settled(tasks, frames, fs, r, l) <==> Settled(next, frames[1..], fs[1..], r, l)
  {
  }

  /** Every readable row that the cursor covers once the frames are through is settled. */
  ghost predicate AllSettled(w: World, frames: seq<HomeRow>, fs: seq<Fault>, l: Link)
    requires |fs| <= |frames|
  {
    forall r :: r in w.rows && r.visible && r.hlc <= Reach(Cursor(w.mirror, l), frames, fs) ==>
      Settled(w.mirror.tasks, frames, fs, r, l)
  }

  /** A pull leaves the cursor honest exactly when every readable row up to the last stamp
      it acknowledges is settled by its frames. This is from any state: redelivered and
      older frames, rows rewritten since they were read, rows lost before. A frame that
      fails counts only if its row is current, not mirrored and not written again. */
  lemma {:induction false} SessionHonestIff(w: World, i: nat, fs: seq<Fault>, l: Link, batch: nat)
    requires Shape(w, l) && Ready(w, i, fs) && Able(w.mirror, l)
    ensures Covered(Receives(w, i, fs, l, batch), l) <==> AllSettled(w, w.sessions[i].inflight, fs, l)
    decreases |fs|
  {
    if fs != [] {
      var frames, n := w.sessions[i].inflight, Receive(w, i, fs[0], l, batch);
      ReceiveEffect(w, i, fs[0], l, batch);
      SessionHonestIff(n, i, fs[1..], l, batch);
      forall r ensures Settled(w.mirror.tasks, frames, fs, r, l)
        <==> Settled(n.mirror.tasks, frames[1..], fs[1..], r, l)
      {
        SettledStep(w.mirror.tasks, frames, fs, r, l);
      }
    }
  }

  /* ---- The price of an overtaken or regressed row ---- */

  /** A readable row the mirror does not hold, at or below the cursor, that no frame
      carries and no pull's next page can. */
  ghost predicate Lost(w: World, r: HomeRow, l: Link) {
    && Owed(w, r, l) && r.hlc <= Cursor(w.mirror, l)
    && forall i :: 0 <= i < |w.sessions| ==> OutOfReach(w.sessions[i], r)
  }

  predicate OutOfReach(s: Session, r: HomeRow) { r !in s.inflight && (r.hlc <= s.since || !s.more) }

  predicate Touches(s: Step, t: string) {
    (s.HomeWrite? && s.task == t) || (s.HomeDrop? && s.task == t)
  }

  lemma HandleLoses(w: World, i: nat, f: Fault, r: HomeRow, l: Link, batch: nat)
    requires Shape(w, l) && Enabled(w, Handle(i, f), l) && Lost(w, r, l)
    ensures Lost(Next(w, Handle(i, f), l, batch), r, l)
  {
    var s := w.sessions[i];
    var e := s.inflight[0];
    HeadFlight(s, w.rows, w.clock);
    assert OutOfReach(s, r) && FlightOk(s, w.rows, w.clock);
    if Writes(w.mirror, e, f, l) {
      WriteEffect(w.mirror, e, f, l);
      assert e.hlc == r.hlc ==> e == r;
      WrittenRows(w.rows, w.mirror.tasks, e, r, l);
    }
  }

  lemma PageLoses(w: World, i: nat, r: HomeRow, l: Link, batch: nat)
    requires Shape(w, l) && Enabled(w, Page(i), l) && Lost(w, r, l)
    ensures Lost(Next(w, Page(i), l, batch), r, l)
  {
    var s := w.sessions[i];
    assert OutOfReach(s, r);
    var page := PageRows(After(w.rows, s.since), batch);
    PageSpec(w.rows, s.since, batch);
    if page != [] { assert page[|page| - 1] in page; }
  }

  lemma StepLoses(w: World, s: Step, r: HomeRow, l: Link, batch: nat)
    requires Shape(w, l) && Enabled(w, s, l) && Lost(w, r, l) && !Touches(s, r.task)
    ensures Lost(Next(w, s, l, batch), r, l)
  {
    match s
    case HomeWrite(t, v) => WriteHome(w, t, v);
    case HomeDrop(t) => WithoutSpec(w.rows, t);
    case Page(i) => PageLoses(w, i, r, l, batch);
    case Handle(i, f) => HandleLoses(w, i, f, r, l, batch);
    case Ack(i, ok) => AckEffect(w, i, ok, l, batch); assert OutOfReach(w.sessions[i], r);
    case Receipt(a) => ReceiptEffect(w, a, l, batch);
    case Open =>
    case Close(_) =>
  }

  /** A lost row stays lost: no pull, however many and whatever else happens, brings
      it to the mirror until the home itself writes that task again. */
  lemma {:induction false} LostForGood(w: World, steps: seq<Step>, r: HomeRow, l: Link, batch: nat)
    requires Shape(w, l) && Possible(w, steps, l, batch) && Lost(w, r, l)
    requires forall i :: 0 <= i < |steps| ==> !Touches(steps[i], r.task)
    ensures Lost(RunFrom(w, steps, l, batch), r, l)
    decreases |steps|
  {
    if steps != [] {
      StepLoses(w, steps[0], r, l, batch);
      StepShape(w, steps[0], l, batch);
      LostForGood(Next(w, steps[0], l, batch), steps[1..], r, l, batch);
    }
  }

  /** Without overlap, a row that an acknowledgement leaves behind is lost at that moment. */
  lemma LeftBehindIsLost(w: World, i: nat, l: Link, batch: nat) returns (r: HomeRow)
    requires Shape(w, l) && Solo(w) && Enabled(w, Ack(i, true), l) && LeavesBehind(w, Ack(i, true), l)
    ensures r in w.sessions[i].skipped && Lost(Next(w, Ack(i, true), l, batch), r, l)
  {
    var s, n := w.sessions[i], Next(w, Ack(i, true), l, batch);
    r :| r in s.skipped && Owed(w, r, l) && r.hlc <= s.acking.value.hlc;
    AckEffect(w, i, true, l, batch);
    assert FlightOk(s, w.rows, w.clock);
    forall k | 0 <= k < |n.sessions| ensures OutOfReach(n.sessions[k], r) {
      if k != i { OthersIdle(w, i, k); }
    }
  }

  /** So from then on it never arrives, whatever pulls follow, until the home itself
      writes that task again. */
  lemma LeftBehindForGood(w: World, i: nat, later: seq<Step>, l: Link, batch: nat) returns (r: HomeRow)
    requires Shape(w, l) && Solo(w) && Enabled(w, Ack(i, true), l) && LeavesBehind(w, Ack(i, true), l)
    requires Possible(Next(w, Ack(i, true), l, batch), later, l, batch)
    ensures r in w.sessions[i].skipped
    ensures (forall k :: 0 <= k < |later| ==> !Touches(later[k], r.task)) ==>
      Lost(RunFrom(Next(w, Ack(i, true), l, batch), later, l, batch), r, l)
  {
    r := LeftBehindIsLost(w, i, l, batch);
    StepShape(w, Ack(i, true), l, batch);
    if forall k :: 0 <= k < |later| ==> !Touches(later[k], r.task) {
      LostForGood(Next(w, Ack(i, true), l, batch), later, r, l, batch);
    }
  }

  /* ---- One pull and one failed write ---- */

  lemma Unroll(w: World, s: Step, rest: seq<Step>, l: Link, batch: nat)
    requires Enabled(w, s, l) && Possible(Next(w, s, l, batch), rest, l, batch)
    ensures Possible(w, [s] + rest, l, batch)
    ensures RunFrom(w, [s] + rest, l, batch) == RunFrom(Next(w, s, l, batch), rest, l, batch)
  {
    assert ([s] + rest)[1..] == rest;
  }

  lemma {:induction false} RunAppend(w: World, a: seq<Step>, b: seq<Step>, l: Link, batch: nat)
    requires Possible(w, a, l, batch) && Possible(RunFrom(w, a, l, batch), b, l, batch)
    ensures Possible(w, a + b, l, batch)
    ensures RunFrom(w, a + b, l, batch) == RunFrom(RunFrom(w, a, l, batch), b, l, batch)
    decreases |a|
  {
    if a == [] {
      assert a + b == b;
    } else {
      var n := Next(w, a[0], l, batch);
      RunAppend(n, a[1..], b, l, batch);
      Unroll(w, a[0], a[1..] + b, l, batch);
      assert [a[0]] + (a[1..] + b) == a + b;
    }
  }

  lemma TwoRowPage(a: HomeRow, b: HomeRow, batch: nat)
    requires a.visible && b.visible && 0 < a.hlc && 0 < b.hlc && batch > 1
    ensures PageRows(After([a, b], 0), batch) == [a, b]
  {
    assert [a, b][1..] == [b] && [b][1..] == [];
    assert After([b], 0) == [b] + After([], 0) == [b];
    assert After([a, b], 0) == [a] + After([b], 0) == [a, b];
    assert Visible([b]) == [b] + Visible([]) == [b];
    assert Visible([a, b]) == [a] + Visible([b]) == [a, b];
  }

  /** The pull has read both rows. */
  lemma TwoRows(w: World, t: string, u: string, l: Link, batch: nat) returns (steps: seq<Step>)
    requires w.rows == [] && w.clock == 0 && w.sessions == [] && IsActive(w.mirror, l) && Cursor(w.mirror, l) == 0
    requires t != "" && u != "" && t != u && batch > 1
    ensures Possible(w, steps, l, batch)
    ensures RunFrom(w, steps, l, batch) ==
      w.(rows := [HomeRow(t, 1, true), HomeRow(u, 2, true)], clock := 2,
         sessions := [Session(2, 2 >= batch, [HomeRow(t, 1, true), HomeRow(u, 2, true)], None, {})])
  {
    var a, b := HomeRow(t, 1, true), HomeRow(u, 2, true);
    var w1 := w.(rows := [a], clock := 1);
    var w2 := w.(rows := [a, b], clock := 2);
    var w3 := w2.(sessions := [Session(0, true, [], None, {})]);
    var w4 := w2.(sessions := [Session(2, 2 >= batch, [a, b], None, {})]);
    TwoRowPage(a, b, batch);
    assert [] + [a, b] == [a, b];
    assert AfterPage(Session(0, true, [], None, {}), [a, b], batch) == w4.sessions[0];
    assert Without([a], u) == [a] by { assert [a][1..] == []; }
    assert Next(w, HomeWrite(t, true), l, batch) == w1;
    assert Next(w1, HomeWrite(u, true), l, batch) == w2;
    assert Next(w2, Open, l, batch) == w3;
    assert Next(w3, Page(0), l, batch) == w4;
    var s3 := [Page(0)] + [];
    var s2 := [Open] + s3;
    var s1 := [HomeWrite(u, true)] + s2;
    Unroll(w3, Page(0), [], l, batch);
    Unroll(w2, Open, s3, l, batch);
    Unroll(w1, HomeWrite(u, true), s2, l, batch);
    Unroll(w, HomeWrite(t, true), s1, l, batch);
    steps := [HomeWrite(t, true)] + s1;
  }

  /** The write of the first frame fails. */
  lemma FirstFails(w: World, a: HomeRow, b: HomeRow, l: Link, batch: nat)
    requires |w.sessions| == 1 && w.sessions[0].acking.None? && w.sessions[0].inflight == [a, b]
    ensures Enabled(w, Handle(0, BeforeWrite), l)
    ensures Next(w, Handle(0, BeforeWrite), l, batch) ==
      w.(sessions := [w.sessions[0].(inflight := [b], skipped := w.sessions[0].skipped + {a})])
  {
  }

  /** The second frame is written and acknowledged, past the first. */
  lemma SecondPasses(w: World, a: HomeRow, b: HomeRow, l: Link, batch: nat)
    requires a in w.rows && a.visible && 0 < a.hlc < b.hlc && a.task != b.task && b.task != ""
    requires a.task !in w.mirror.tasks && b.task !in w.mirror.tasks && Able(w.mirror, l) && Cursor(w.mirror, l) == 0
    requires |w.sessions| == 1 && w.sessions[0].acking.None? && w.sessions[0].inflight == [b]
    requires a.hlc <= w.sessions[0].since
    ensures Enabled(w, Handle(0, NoFault), l)
    ensures var n := Next(w, Handle(0, NoFault), l, batch);
      Enabled(n, Ack(0, true), l) && |n.sessions| == 1 && Lost(Next(n, Ack(0, true), l, batch), a, l)
  {
    WritesUnlessFault(w.mirror, b, NoFault, l);
    WriteEffect(w.mirror, b, NoFault, l);
    AckEffect(Next(w, Handle(0, NoFault), l, batch), 0, true, l, batch);
  }

  /** One pull, two rows, the write of the first fails: the cursor ends past it, and it
      is lost. */
  lemma FailedWriteLoses(w: World, t: string, u: string, l: Link, batch: nat) returns (steps: seq<Step>)
    requires w.rows == [] && w.clock == 0 && Start(w, l) && Able(w.mirror, l)
    requires t != "" && u != "" && t != u && t !in w.mirror.tasks && u !in w.mirror.tasks && batch > 1
    ensures Possible(w, steps, l, batch)
    ensures |RunFrom(w, steps, l, batch).sessions| == 1
    ensures Lost(RunFrom(w, steps, l, batch), HomeRow(t, 1, true), l)
    ensures !Covered(RunFrom(w, steps, l, batch), l)
  {
    var a, b := HomeRow(t, 1, true), HomeRow(u, 2, true);
    var first := TwoRows(w, t, u, l, batch);
    var w1 := RunFrom(w, first, l, batch);
    FirstFails(w1, a, b, l, batch);
    var w2 := Next(w1, Handle(0, BeforeWrite), l, batch);
    SecondPasses(w2, a, b, l, batch);
    var w3 := Next(w2, Handle(0, NoFault), l, batch);
    var s2 := [Ack(0, true)] + [];
    var s1 := [Handle(0, NoFault)] + s2;
    Unroll(w3, Ack(0, true), [], l, batch);
    Unroll(w2, Handle(0, NoFault), s2, l, batch);
    Unroll(w1, Handle(0, BeforeWrite), s1, l, batch);
    RunAppend(w, first, [Handle(0, BeforeWrite)] + s1, l, batch);
    steps := first + ([Handle(0, BeforeWrite)] + s1);
  }

  /* ---- Two pulls and no failure ---- */

  lemma OnePage(r: HomeRow, since: Hlc, batch: nat)
    requires r.visible && r.hlc > since && batch > 0
    ensures PageRows(After([r], since), batch) == [r]
  {
    assert [r][1..] == [];
    assert After([r], since) == [r] + After([], since);
    assert Visible([r]) == [r] + Visible([]);
  }

  function Pulled(r: HomeRow, batch: nat): Session { Session(r.hlc, 1 >= batch, [r], None, {}) }

  /** Rows read by a pull before and by another after the home rewrote a task. */
  lemma TwoPulls(w: World, t: string, l: Link, batch: nat) returns (steps: seq<Step>)
    requires w.rows == [] && w.clock == 0 && w.sessions == [] && IsActive(w.mirror, l) && Cursor(w.mirror, l) == 0
    requires t != "" && batch > 0
    ensures Possible(w, steps, l, batch)
    ensures RunFrom(w, steps, l, batch) ==
      w.(rows := [HomeRow(t, 2, true)], clock := 2,
         sessions := [Pulled(HomeRow(t, 1, true), batch), Pulled(HomeRow(t, 2, true), batch)])
    ensures forall i :: 0 <= i < |steps| ==> !steps[i].Handle? && !steps[i].Ack?
  {
    var r1, r2 := HomeRow(t, 1, true), HomeRow(t, 2, true);
    var new_ := Session(0, true, [], None, {});
    var w1 := w.(rows := [r1], clock := 1);
    var w2 := w1.(sessions := [new_]);
    var w3 := w2.(sessions := [Pulled(r1, batch)]);
    var w4 := w3.(rows := [r2], clock := 2);
    var w5 := w4.(sessions := [Pulled(r1, batch), new_]);
    var w6 := w4.(sessions := [Pulled(r1, batch), Pulled(r2, batch)]);
    OnePage(r1, 0, batch);
    OnePage(r2, 0, batch);
    assert Without([r1], t) == [] by { assert [r1][1..] == []; }
    assert Next(w, HomeWrite(t, true), l, batch) == w1;
    assert Next(w1, Open, l, batch) == w2;
    assert Next(w2, Page(0), l, batch) == w3;
    assert Next(w3, HomeWrite(t, true), l, batch) == w4;
    assert Next(w4, Open, l, batch) == w5;
    assert Next(w5, Page(1), l, batch) == w6;
    var s5 := [Page(1)] + [];
    var s4 := [Open] + s5;
    var s3 := [HomeWrite(t, true)] + s4;
    var s2 := [Page(0)] + s3;
    var s1 := [Open] + s2;
    Unroll(w5, Page(1), [], l, batch);
    Unroll(w4, Open, s5, l, batch);
    Unroll(w3, HomeWrite(t, true), s4, l, batch);
    Unroll(w2, Page(0), s3, l, batch);
    Unroll(w1, Open, s2, l, batch);
    Unroll(w, HomeWrite(t, true), s1, l, batch);
    steps := [HomeWrite(t, true)] + s1;
  }

  /** The newer pull delivers first; then the older one writes the old revision back. */
  lemma LateFrame(w: World, t: string, l: Link, batch: nat) returns (steps: seq<Step>)
    requires w.rows == [HomeRow(t, 2, true)] && t != "" && t !in w.mirror.tasks
    requires w.sessions == [Pulled(HomeRow(t, 1, true), batch), Pulled(HomeRow(t, 2, true), batch)]
    requires Able(w.mirror, l) && Cursor(w.mirror, l) == 0
    ensures Possible(w, steps, l, batch) && !Covered(RunFrom(w, steps, l, batch), l)
    ensures steps == [Handle(1, NoFault), Ack(1, true), Handle(0, NoFault), Ack(0, true)]
  {
    var w1 := Next(w, Handle(1, NoFault), l, batch);
    assert w1.mirror.tasks[t] == Row(l.ws, 2);
    var w2 := Next(w1, Ack(1, true), l, batch);
    assert Cursor(w2.mirror, l) == 2;
    var w3 := Next(w2, Handle(0, NoFault), l, batch);
    assert w3.mirror.tasks[t] == Row(l.ws, 1);
    var w4 := Next(w3, Ack(0, true), l, batch);
    assert Cursor(w4.mirror, l) == 2 && !Mirrored(w4.mirror.tasks, HomeRow(t, 2, true), l);
    var s3 := [Ack(0, true)] + [];
    var s2 := [Handle(0, NoFault)] + s3;
    var s1 := [Ack(1, true)] + s2;
    Unroll(w3, Ack(0, true), [], l, batch);
    Unroll(w2, Handle(0, NoFault), s3, l, batch);
    Unroll(w1, Ack(1, true), s2, l, batch);
    Unroll(w, Handle(1, NoFault), s1, l, batch);
    steps := [Handle(1, NoFault)] + s1;
  }

  /** Two overlapping pulls, every store call successful: the cursor ends past a row
      whose current revision the mirror does not hold. */
  lemma OverlapRegresses(w: World, t: string, l: Link, batch: nat) returns (steps: seq<Step>)
    requires w.rows == [] && w.clock == 0 && Start(w, l) && Able(w.mirror, l)
    requires t != "" && t !in w.mirror.tasks && batch > 0
    ensures Possible(w, steps, l, batch) && !Covered(RunFrom(w, steps, l, batch), l)
    ensures forall i :: 0 <= i < |steps| ==>
      (steps[i].Handle? ==> steps[i].fault == NoFault) && (steps[i].Ack? ==> steps[i].ok)
  {
    var first := TwoPulls(w, t, l, batch);
    var second := LateFrame(RunFrom(w, first, l, batch), t, l, batch);
    RunAppend(w, first, second, l, batch);
    steps := first + second;
  }
}
