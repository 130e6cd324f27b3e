/** The election of the canonical task of a monitoring class, run by any number
    of anomaly and baseline ensurers at once against one task store. Each step is
    one store call; any interleaving is a run. */
module Election {
  import opened Text
  import opened ClassKey

  /** A task row with its class marker as the store reads it. A row's id is its
      position, so rows are in order of creation. */
  datatype Row = Row(ws: string, cls: string, closed: bool, live: bool)

  datatype Kind = Anomaly | Baseline

  datatype Progress =
    | Looking | Creating | Adopting | Reopening(id: nat)
    | Elected(id: nat)
    | NoTask // a nil error with an empty id
    | Error

  datatype Caller = Caller(kind: Kind, ws: string, key: string, at: Progress)

  datatype State = State(rows: seq<Row>, callers: seq<Caller>)

  /** The unique index: among live rows, a non-empty class names one row per workspace. */
  predicate Taken(rows: seq<Row>, ws: string, cls: string) {
    exists i :: 0 <= i < |rows| && Matches(rows, i, ws, cls)
  }

  predicate Matches(rows: seq<Row>, i: nat, ws: string, cls: string) {
    i < |rows| && rows[i].live && rows[i].ws == ws && rows[i].cls == cls
  }

  /** What a lookup may answer: a matching live row, or nothing if there is none. */
  predicate MayFind(rows: seq<Row>, ws: string, cls: string, found: Option<nat>) {
    match found
    case Some(i) => Matches(rows, i, ws, cls)
    case None => !Taken(rows, ws, cls)
  }

  datatype Step =
    | Start(kind: Kind, ws: string, key: string)
    | Look(caller: nat, found: Option<nat>) | Create(caller: nat)
    | Adopt(caller: nat, found: Option<nat>) | Reopen(caller: nat)
    | Fail(caller: nat)     // the store call the caller is at returns an error
    | Close(row: nat) | Delete(row: nat)

  predicate Running(p: Progress) { p.Looking? || p.Creating? || p.Adopting? || p.Reopening? }

  predicate Enabled(s: State, e: Step) {
    match e
    case Start(_, _, _) => true
    case Look(c, found) =>
      c < |s.callers| && s.callers[c].at.Looking? && MayFind(s.rows, s.callers[c].ws, s.callers[c].key, found)
    case Create(c) => c < |s.callers| && s.callers[c].at.Creating?
    case Adopt(c, found) =>
      c < |s.callers| && s.callers[c].at.Adopting? && MayFind(s.rows, s.callers[c].ws, s.callers[c].key, found)
    case Reopen(c) => c < |s.callers| && s.callers[c].at.Reopening? && s.callers[c].at.id < |s.rows|
    case Fail(c) => c < |s.callers| && Running(s.callers[c].at)
    case Close(r) => r < |s.rows|
    case Delete(r) => r < |s.rows|
  }

  /** The guard on a workspace or a key that is only space. */
  predicate Unnamed(s: string) { TrimSpace(s) == "" }

  /** Using a row: an anomaly reopens it if it was closed. */
  function Use(kind: Kind, rows: seq<Row>, id: nat): Progress
    requires id < |rows|
  {
    if kind.Anomaly? && rows[id].closed then Reopening(id) else Elected(id)
  }

  function Moved(s: State, c: nat, at: Progress): State
    requires c < |s.callers|
  {
    s.(callers := s.callers[c := s.callers[c].(at := at)])
  }

  function Next(s: State, e: Step): State
    requires Enabled(s, e)
  {
    match e
    case Start(kind, ws, key) =>
      var at := if kind.Anomaly? && (Unnamed(ws) || Unnamed(key)) then Error else Looking;
      s.(callers := s.callers + [Caller(kind, ws, key, at)])
    case Look(c, found) =>
      Moved(s, c, if found.None? then Creating else Use(s.callers[c].kind, s.rows, found.value))
    case Create(c) =>
      var k := s.callers[c];
      if Stored(k.key).None? then Moved(s, c, Error)
      else if Stored(k.key).value != "" && Taken(s.rows, k.ws, Stored(k.key).value) then Moved(s, c, Adopting)
      else Moved(s, c, Elected(|s.rows|)).(rows := s.rows + [Row(k.ws, Stored(k.key).value, false, true)])
    case Adopt(c, found) =>
      Moved(s, c,
        if found.Some? then Use(s.callers[c].kind, s.rows, found.value)
        else if s.callers[c].kind.Anomaly? then Error else NoTask)
    case Reopen(c) =>
      var id := s.callers[c].at.id;
      if !s.rows[id].live then Moved(s, c, Error)
      else Moved(s, c, Elected(id)).(rows := s.rows[id := s.rows[id].(closed := false)])
    case Fail(c) => Moved(s, c, Error)
    case Close(r) => s.(rows := s.rows[r := s.rows[r].(closed := true)])
    case Delete(r) => s.(rows := s.rows[r := s.rows[r].(live := false)])
  }

  predicate Possible(s: State, steps: seq<Step>)
    decreases |steps|
  {
    steps == [] || (Enabled(s, steps[0]) && Possible(Next(s, steps[0]), steps[1..]))
  }

  function Run(s: State, steps: seq<Step>): State
    requires Possible(s, steps)
    decreases |steps|
  {
    if steps == [] then s else Run(Next(s, steps[0]), steps[1..])
  }

  /* ---- One canonical row ---- */

  /** Two live rows of one non-empty class. */
  predicate Twins(rows: seq<Row>, i: nat, j: nat) {
    && i < |rows| && j < |rows| && rows[i].live && rows[j].live
    && rows[i].ws == rows[j].ws && rows[i].cls == rows[j].cls && rows[i].cls != ""
  }

  ghost predicate Unique(s: State) {
    forall i: nat, j: nat :: Twins(s.rows, i, j) ==> i == j
  }

  /** The row a caller settled on carries its workspace and its class. */
  predicate Settled(s: State, k: Caller) {
    k.at.Elected? || k.at.Reopening? ==>
      && k.at.id < |s.rows| && s.rows[k.at.id].ws == k.ws
      && (s.rows[k.at.id].cls == k.key || Stored(k.key) == Some(s.rows[k.at.id].cls))
  }

  /** A caller told the class is taken. */
  ghost predicate Raced(s: State, k: Caller) {
    k.at.Adopting? ==> Stored(k.key).Some? && Stored(k.key).value != ""
  }

  ghost predicate Inv(s: State) {
    && Unique(s)
    && (forall i :: 0 <= i < |s.rows| ==> Clean(s.rows[i].cls))
    && (forall c :: 0 <= c < |s.callers| ==> Settled(s, s.callers[c]) && Raced(s, s.callers[c]))
  }

  /** No live row is deleted: ids, workspaces and classes only accumulate. */
  predicate Deletes(steps: seq<Step>) { exists i :: 0 <= i < |steps| && steps[i].Delete? }

  /** Rows keep their place, workspace and class. */
  ghost predicate Extends(s: State, t: State) {
    && |s.rows| <= |t.rows|
    && forall i :: 0 <= i < |s.rows| ==> t.rows[i].ws == s.rows[i].ws && t.rows[i].cls == s.rows[i].cls
  }

  lemma StepExtends(s: State, e: Step)
    requires Enabled(s, e)
    ensures Extends(s, Next(s, e))
  {
  }

  lemma CreateUnique(s: State, c: nat)
    requires Inv(s) && Enabled(s, Create(c))
    ensures Unique(Next(s, Create(c)))
    ensures forall i :: 0 <= i < |Next(s, Create(c)).rows| ==> Clean(Next(s, Create(c)).rows[i].cls)
  {
    var k := s.callers[c];
    var n := Next(s, Create(c));
    if Stored(k.key).Some? { StoredHasNoBreak(k.key); }
    forall i: nat, j: nat | Twins(n.rows, i, j) ensures i == j {
      if i < |s.rows| && j < |s.rows| {
        assert Twins(s.rows, i, j);
      } else if i != j {
        assert Matches(s.rows, if i < |s.rows| then i else j, k.ws, n.rows[i].cls);
      }
    }
  }

  lemma StepUnique(s: State, e: Step)
    requires Inv(s) && Enabled(s, e)
    ensures Unique(Next(s, e))
    ensures forall i :: 0 <= i < |Next(s, e).rows| ==> Clean(Next(s, e).rows[i].cls)
  {
    if e.Create? {
      CreateUnique(s, e.caller);
    } else {
      forall i: nat, j: nat | Twins(Next(s, e).rows, i, j) ensures i == j { assert Twins(s.rows, i, j); }
    }
  }

  lemma SettledKeeps(s: State, t: State, k: Caller)
    requires Settled(s, k) && Extends(s, t)
    ensures Settled(t, k)
  {
  }

  /** The caller a step moves, if any. */
  predicate Moves(e: Step, c: nat) {
    match e
    case Look(d, _) => c == d
    case Create(d) => c == d
    case Adopt(d, _) => c == d
    case Reopen(d) => c == d
    case Fail(d) => c == d
    case _ => false
  }

  lemma MoverSettled(s: State, e: Step, c: nat)
    requires Enabled(s, e) && Moves(e, c) && Settled(s, s.callers[c]) && Raced(s, s.callers[c])
    ensures Settled(Next(s, e), Next(s, e).callers[c]) && Raced(Next(s, e), Next(s, e).callers[c])
  {
  }

  lemma StepSettled(s: State, e: Step, c: nat)
    requires Inv(s) && Enabled(s, e) && c < |Next(s, e).callers|
    ensures Settled(Next(s, e), Next(s, e).callers[c]) && Raced(Next(s, e), Next(s, e).callers[c])
  {
    if c < |s.callers| {
      assert Settled(s, s.callers[c]) && Raced(s, s.callers[c]);
      if Moves(e, c) {
        MoverSettled(s, e, c);
      } else {
        assert Next(s, e).callers[c] == s.callers[c];
        StepExtends(s, e);
        SettledKeeps(s, Next(s, e), s.callers[c]);
      }
    }
  }

  /** When an anomaly settles on a task, that task is open: a class that fires
      again after it was resolved is reopened before its id is handed out. */
  lemma AnomalySettles(s: State, e: Step, c: nat)
    requires Enabled(s, e) && Moves(e, c) && s.callers[c].kind.Anomaly? && Next(s, e).callers[c].at.Elected?
    ensures var id := Next(s, e).callers[c].at.id; id < |Next(s, e).rows| && !Next(s, e).rows[id].closed
  {
  }

  /** If caller `c` is an anomaly that has a task, the task is open. */
  predicate HoldsOpen(s: State, c: nat) {
    c < |s.callers| && s.callers[c].kind.Anomaly? && s.callers[c].at.Elected? ==>
      s.callers[c].at.id < |s.rows| && !s.rows[s.callers[c].at.id].closed
  }

  /** Somebody closes a task while caller `c` has it. */
  predicate ClosedUnder(s: State, steps: seq<Step>, c: nat)
    requires Possible(s, steps)
    decreases |steps|
  {
    steps != [] &&
    ((steps[0].Close? && c < |s.callers| && s.callers[c].at == Elected(steps[0].row))
     || ClosedUnder(Next(s, steps[0]), steps[1..], c))
  }

  lemma StaysOpen(s: State, e: Step, c: nat)
    requires Enabled(s, e) && HoldsOpen(s, c)
    requires !(e.Close? && c < |s.callers| && s.callers[c].at == Elected(e.row))
    ensures HoldsOpen(Next(s, e), c)
  {
    if c < |s.callers| && Moves(e, c) && s.callers[c].kind.Anomaly? && Next(s, e).callers[c].at.Elected? {
      AnomalySettles(s, e, c);
    }
  }

  /** Over any run the task an anomaly has settled on is open until somebody closes it
      under that caller. */
  lemma {:induction false} AnomalyTaskIsOpen(s: State, steps: seq<Step>, c: nat)
    requires Possible(s, steps) && HoldsOpen(s, c) && !ClosedUnder(s, steps, c)
    ensures HoldsOpen(Run(s, steps), c)
    decreases |steps|
  {
    if steps != [] {
      StaysOpen(s, steps[0], c);
      AnomalyTaskIsOpen(Next(s, steps[0]), steps[1..], c);
    }
  }

  lemma StepInv(s: State, e: Step)
    requires Inv(s) && Enabled(s, e)
    ensures Inv(Next(s, e))
  {
    StepUnique(s, e);
    forall c | 0 <= c < |Next(s, e).callers|
      ensures Settled(Next(s, e), Next(s, e).callers[c]) && Raced(Next(s, e), Next(s, e).callers[c])
    {
      StepSettled(s, e, c);
    }
  }

  lemma {:induction false} RunInv(s: State, steps: seq<Step>)
    requires Inv(s) && Possible(s, steps)
    ensures Inv(Run(s, steps))
    decreases |steps|
  {
    if steps != [] {
      StepInv(s, steps[0]);
      RunInv(Next(s, steps[0]), steps[1..]);
    }
  }

  /** However the ensurers interleave, a class never has two live tasks. */
  lemma OneTaskPerClass(steps: seq<Step>, i: nat, j: nat)
    requires Possible(State([], []), steps)
    requires var s := Run(State([], []), steps);
      && i < |s.rows| && j < |s.rows| && s.rows[i].live && s.rows[j].live
      && s.rows[i].ws == s.rows[j].ws && s.rows[i].cls == s.rows[j].cls && s.rows[i].cls != ""
    ensures i == j
  {
    RunInv(State([], []), steps);
    assert Twins(Run(State([], []), steps).rows, i, j);
  }

  /* ---- All callers agree ---- */

  predicate AllLive(s: State) { forall i :: 0 <= i < |s.rows| ==> s.rows[i].live }

  lemma {:induction false} RunLive(s: State, steps: seq<Step>)
    requires Possible(s, steps) && AllLive(s) && !Deletes(steps)
    ensures AllLive(Run(s, steps))
    decreases |steps|
  {
    if steps != [] {
      assert !steps[0].Delete?;
      assert forall i :: 0 <= i < |steps[1..]| ==> steps[1..][i] == steps[i + 1];
      assert AllLive(Next(s, steps[0]));
      RunLive(Next(s, steps[0]), steps[1..]);
    }
  }

  /** Every ensurer that gets a task for a readable class, of either kind and at
      whatever point of the run, gets the same one, so long as none is deleted. */
  lemma CallersAgree(steps: seq<Step>, a: nat, b: nat)
    requires Possible(State([], []), steps) && !Deletes(steps)
    requires var s := Run(State([], []), steps);
      && a < |s.callers| && b < |s.callers| && s.callers[a].at.Elected? && s.callers[b].at.Elected?
      && s.callers[a].ws == s.callers[b].ws && s.callers[a].key == s.callers[b].key
      && s.callers[a].key != "" && Clean(s.callers[a].key)
    ensures var s := Run(State([], []), steps); s.callers[a].at.id == s.callers[b].at.id
  {
    RunInv(State([], []), steps);
    RunLive(State([], []), steps);
    var s := Run(State([], []), steps);
    QuoteRoundTripIff(s.callers[a].key);
    assert Settled(s, s.callers[a]) && Settled(s, s.callers[b]);
    assert Twins(s.rows, s.callers[a].at.id, s.callers[b].at.id);
  }

  /* ---- A lost race is always recovered, for readable classes ---- */

  /** A caller that lost the race to create a readable class. */
  ghost predicate WinnerThere(s: State) {
    forall c :: 0 <= c < |s.callers| && s.callers[c].at.Adopting? ==>
      Stored(s.callers[c].key).Some? && Taken(s.rows, s.callers[c].ws, Stored(s.callers[c].key).value)
  }

  lemma TakenStays(s: State, e: Step, ws: string, cls: string)
    requires Enabled(s, e) && !e.Delete? && Taken(s.rows, ws, cls)
    ensures Taken(Next(s, e).rows, ws, cls)
  {
    var i :| 0 <= i < |s.rows| && Matches(s.rows, i, ws, cls);
    assert Matches(Next(s, e).rows, i, ws, cls);
  }

  lemma StepWinner(s: State, e: Step)
    requires WinnerThere(s) && Enabled(s, e) && !e.Delete?
    ensures WinnerThere(Next(s, e))
  {
    var n := Next(s, e);
    forall c | 0 <= c < |n.callers| && n.callers[c].at.Adopting?
      ensures Stored(n.callers[c].key).Some? && Taken(n.rows, n.callers[c].ws, Stored(n.callers[c].key).value)
    {
      if c < |s.callers| && s.callers[c].at.Adopting? {
        TakenStays(s, e, n.callers[c].ws, Stored(n.callers[c].key).value);
      }
    }
  }

  lemma {:induction false} RunWinner(s: State, steps: seq<Step>)
    requires Possible(s, steps) && WinnerThere(s) && !Deletes(steps)
    ensures WinnerThere(Run(s, steps))
    decreases |steps|
  {
    if steps != [] {
      assert !steps[0].Delete?;
      assert forall i :: 0 <= i < |steps[1..]| ==> steps[1..][i] == steps[i + 1];
      StepWinner(s, steps[0]);
      RunWinner(Next(s, steps[0]), steps[1..]);
    }
  }

  /** A caller that lost the race finds the winner's row if and only if its key is
      readable as written: no control character in it. For any other key the
      lookup answers nothing, whoever is asking. */
  lemma AdoptFindsIff(steps: seq<Step>, c: nat)
    requires Possible(State([], []), steps) && !Deletes(steps)
    requires var s := Run(State([], []), steps); c < |s.callers| && s.callers[c].at.Adopting?
    ensures var s := Run(State([], []), steps);
      Taken(s.rows, s.callers[c].ws, s.callers[c].key) <==> Clean(s.callers[c].key)
  {
    RunInv(State([], []), steps);
    RunWinner(State([], []), steps);
    var k := Run(State([], []), steps).callers[c];
    QuoteRoundTripIff(k.key);
  }

  /* ---- One caller at a time ---- */

  /** A caller runs from its lookup to its end with no interference and no error. */
  function Solo(s: State, c: nat, found: Option<nat>): State
    requires Enabled(s, Look(c, found))
  {
    var t := Next(s, Look(c, found));
    if t.callers[c].at.Reopening? then Next(t, Reopen(c))
    else if t.callers[c].at.Elected? then t
    else
      var u := Next(t, Create(c));
      if u.callers[c].at.Adopting? then Next(u, Adopt(c, None)) else u
  }

  /** The second election of a class returns the first one's task exactly when
      the key holds no control character. With a line break or a tab in it the
      first call stores the key spaced, and the next one comes back without a
      task: an error from the anomaly path, an empty id from the baseline path. */
  lemma ElectTwice(s: State, c: nat, d: nat, again: Option<nat>)
    requires Inv(s) && c != d && Enabled(s, Look(c, None)) && Solo(s, c, None).callers[c].at.Elected?
    requires d < |s.callers| && s.callers[d].ws == s.callers[c].ws && s.callers[d].key == s.callers[c].key
    requires Enabled(Solo(s, c, None), Look(d, again))
    ensures var first := Solo(s, c, None); var second := Solo(first, d, again);
      second.callers[d].at ==
        if Clean(s.callers[c].key) then first.callers[c].at
        else if s.callers[d].kind.Anomaly? then Error else NoTask
  {
    var ws, key := s.callers[c].ws, s.callers[c].key;
    var rows, id := Solo(s, c, None).rows, |s.rows|;
    QuoteRoundTripIff(key);
    StoredHasNoBreak(key);
    assert rows == s.rows + [Row(ws, Stored(key).value, false, true)];
    assert Matches(rows, id, ws, Stored(key).value);
    if again.Some? && again.value < |s.rows| {
      assert Matches(s.rows, again.value, ws, key);
    }
  }
}
