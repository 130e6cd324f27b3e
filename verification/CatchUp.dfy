/** Catch-up between one home workspace and its mirror: the home writes and pages
    rows out, frames are in flight, the sink applies them and moves the cursor the
    next session starts from. Any interleaving of these steps is a run. */
module CatchUp {
  import opened Text
  import opened TaskSync

  /** A live task row at home; `visible` says the mirror's principal may read it. */
  datatype HomeRow = HomeRow(task: string, hlc: Hlc, visible: bool)

  /** The two ends of the link: the mirror's workspace and the home's peer id. */
  datatype Link = Link(ws: string, home: string)

  /** One pull from the home. `since` is the server's watermark, `more` whether it
      will ask for another page, `inflight` the rows read into frames not yet
      handled, `acking` a row written but not yet acknowledged in the cursor,
      `skipped` the rows of frames that were passed over unwritten. */
  datatype Session = Session(
    since: Hlc, more: bool, inflight: seq<HomeRow>, acking: Option<HomeRow>, skipped: set<HomeRow>)

  /** Any number of pulls run at once: the ticker, the reconnect hook and the HTTP
      handler each start their own. `displaced` are revisions that were mirrored
      until a frame with an older one was written over them. */
  datatype World = World(
    rows: seq<HomeRow>, clock: Hlc, mirror: Mirror, sessions: seq<Session>, displaced: set<HomeRow>)

  /* ---- The home's pages ---- */

  function Visible(rows: seq<HomeRow>): seq<HomeRow> {
    if rows == [] then []
    else if rows[0].visible then [rows[0]] + Visible(rows[1..])
    else Visible(rows[1..])
  }

  /** The store query: rows stamped after `since`, in stamp order. */
  function After(rows: seq<HomeRow>, since: Hlc): seq<HomeRow> {
    if rows == [] then []
    else if rows[0].hlc > since then [rows[0]] + After(rows[1..], since)
    else After(rows[1..], since)
  }

  function Take(rows: seq<HomeRow>, n: nat): seq<HomeRow> {
    if n < |rows| then rows[..n] else rows
  }

  /** The events of one page: the limit is applied before the read check. */
  function PageRows(rows: seq<HomeRow>, batch: nat): seq<HomeRow> {
    Visible(Take(rows, batch))
  }

  /** A row's title is never empty; which one it is does not matter here. */
  const TITLE := "title"

  function EventOf(r: HomeRow, l: Link): Event { Event(r.task, l.ws, r.hlc, TITLE) }

  function Without(rows: seq<HomeRow>, task: string): seq<HomeRow> {
    if rows == [] then []
    else if rows[0].task == task then Without(rows[1..], task)
    else [rows[0]] + Without(rows[1..], task)
  }

  /* ---- Steps ---- */

  datatype Step =
    | HomeWrite(task: string, visible: bool) | HomeDrop(task: string)
    | Open                                  // a pull reads the cursor and dials
    | Page(pull: nat) | Close(pull: nat)    // the next page; the stream ends or breaks
    | Handle(pull: nat, fault: Fault)       // the sink admits the next frame and writes its row
    | Ack(pull: nat, ok: bool)              // it advances the cursor
    | Receipt(access: Access)

  predicate Enabled(w: World, s: Step, l: Link) {
    match s
    case HomeWrite(t, _) => t != ""
    case HomeDrop(_) => true
    case Open => IsActive(w.mirror, l)
    case Page(i) => i < |w.sessions| && w.sessions[i].more
    case Close(i) => i < |w.sessions|
    case Handle(i, _) => i < |w.sessions| && w.sessions[i].inflight != [] && w.sessions[i].acking.None?
    case Ack(i, _) => i < |w.sessions| && w.sessions[i].acking.Some?
    case Receipt(_) => true
  }

  predicate IsActive(m: Mirror, l: Link) { l.ws in m.members && m.members[l.ws].status == Active }

  function Cursor(m: Mirror, l: Link): Hlc {
    if l.ws in m.members then m.members[l.ws].cursor else 0
  }

  /** The mirror holds this revision (or its id belongs to another workspace). */
  predicate Mirrored(tasks: map<string, Row>, r: HomeRow, l: Link) {
    r.task in tasks && (tasks[r.task].ws != l.ws || tasks[r.task].hlc == r.hlc)
  }

  /** Whether handling a frame writes its row. */
  predicate Writes(m: Mirror, e: HomeRow, f: Fault, l: Link) {
    Admits(m, l.home, l.ws) && f != BeforeWrite && ApplyTask(m.tasks, EventOf(e, l)).Some?
  }

  /** Current revisions that writing this frame takes out of the mirror. */
  function Displaces(rows: seq<HomeRow>, tasks: map<string, Row>, e: HomeRow, l: Link): set<HomeRow> {
    set r | r in rows && r.task == e.task && r.hlc != e.hlc && Mirrored(tasks, r, l) && tasks[r.task].ws == l.ws
  }

  function WithSession(w: World, i: nat, s: Session): World
    requires i < |w.sessions|
  {
    w.(sessions := w.sessions[i := s])
  }

  function AfterPage(s: Session, page: seq<HomeRow>, batch: nat): Session {
    if page == [] then s.(more := false)
    else s.(inflight := s.inflight + page, since := page[|page| - 1].hlc, more := |page| >= batch)
  }

  function Next(w: World, s: Step, l: Link, batch: nat): World
    requires Enabled(w, s, l)
  {
    match s
    case HomeWrite(t, v) =>
      w.(rows := Without(w.rows, t) + [HomeRow(t, w.clock + 1, v)], clock := w.clock + 1)
    case HomeDrop(t) => w.(rows := Without(w.rows, t))
    case Open => w.(sessions := w.sessions + [Session(Cursor(w.mirror, l), true, [], None, {})])
    case Page(i) =>
      WithSession(w, i, AfterPage(w.sessions[i], PageRows(After(w.rows, w.sessions[i].since), batch), batch))
    case Close(i) => WithSession(w, i, Session(0, false, [], None, {}))
    case Handle(i, f) =>
      var t := w.sessions[i];
      var e := t.inflight[0];
      if !Writes(w.mirror, e, f, l) then
        WithSession(w, i, t.(inflight := t.inflight[1..], skipped := t.skipped + {e}))
      else
        WithSession(w, i, t.(inflight := t.inflight[1..], acking := if f == AfterWrite then None else Some(e)))
          .(mirror := w.mirror.(tasks := ApplyTask(w.mirror.tasks, EventOf(e, l)).value),
            displaced := w.displaced + Displaces(w.rows, w.mirror.tasks, e, l))
    case Ack(i, ok) =>
      var t := w.sessions[i];
      var quiet := WithSession(w, i, t.(acking := None));
      if !ok || !IsActive(w.mirror, l) then quiet
      else
        quiet.(mirror := w.mirror.(members :=
          w.mirror.members[l.ws := Advance(w.mirror.members[l.ws], t.acking.value.hlc)]))
    case Receipt(a) => w.(mirror := ApplyAccess(w.mirror, l.home, a, NoFault).0)
  }

  /** With nothing in between, handling and acknowledging a frame is the sink's
      `ApplyRemoteEvent` on it. */
  lemma HandleThenAck(w: World, i: nat, f: Fault, l: Link, batch: nat)
    requires Enabled(w, Handle(i, f), l)
    ensures var n := Next(w, Handle(i, f), l, batch);
      var done := if n.sessions[i].acking.Some? then Next(n, Ack(i, true), l, batch) else n;
      done.mirror == ApplyEvent(w.mirror, l.home, EventOf(w.sessions[i].inflight[0], l), f).0
  {
  }

  /* ---- What the cursor promises ---- */

  /** Everything readable at or below the cursor is in the mirror, at its current revision. */
  ghost predicate Covered(w: World, l: Link) {
    forall r :: r in w.rows && r.visible && r.hlc <= Cursor(w.mirror, l) ==> Mirrored(w.mirror.tasks, r, l)
  }

  /** A row the mirror ought to hold and does not. */
  predicate Owed(w: World, r: HomeRow, l: Link) {
    r in w.rows && r.visible && !Mirrored(w.mirror.tasks, r, l)
  }

  /** The cursor moves past a row still owed that this pull failed to write, or that
      an older frame took out of the mirror. */
  ghost predicate Overtakes(w: World, s: Step, l: Link)
    requires Enabled(w, s, l)
  {
    && s.Ack? && s.ok && IsActive(w.mirror, l)
    && exists r :: r in w.sessions[s.pull].skipped + w.displaced
        && Owed(w, r, l) && r.hlc <= w.sessions[s.pull].acking.value.hlc
  }

  /** An older frame is written over a current revision the cursor already covers. */
  ghost predicate Regresses(w: World, s: Step, l: Link)
    requires Enabled(w, s, l)
  {
    && s.Handle? && Writes(w.mirror, w.sessions[s.pull].inflight[0], s.fault, l)
    && exists r :: r in Displaces(w.rows, w.mirror.tasks, w.sessions[s.pull].inflight[0], l)
        && r.visible && r.hlc <= Cursor(w.mirror, l)
  }
}
