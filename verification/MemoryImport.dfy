/** Importing memories from peers, from `cmd/mcplexer/memory_share_wire.go`: the
    look-then-write import, the offer table, and the scopes that admit a request.
    Imports may overlap; rows may be deleted or superseded at any time. */
module MemoryImport {
  import opened Text

  /** A memory row with its provenance. It stops being live when it is deleted or
      superseded; a row's id is its position. */
  datatype Row = Row(peer: string, remote: string, ws: string, name: string, fact: bool, live: bool)

  /** What arrives: the sender, the sender's id for it, and where it lands. */
  datatype Payload = Payload(peer: string, remote: string, ws: string, name: string, fact: bool)

  datatype Progress = Looking | Writing | Imported(id: nat) | Refused

  datatype Import = Import(payload: Payload, at: Progress)

  datatype State = State(rows: seq<Row>, imports: seq<Import>)

  datatype Step =
    | Start(payload: Payload)
    | Look(index: nat, found: Option<nat>) // the lookup answers
    | LookFails(index: nat)                // a failed lookup reads as "not found"
    | Write(index: nat) | WriteFails(index: nat)
    | Retire(row: nat)                      // deleted, or superseded by another fact

  predicate Holds(rows: seq<Row>, i: nat, peer: string, remote: string) {
    i < |rows| && rows[i].live && rows[i].peer == peer && rows[i].remote == remote
  }

  /** What a lookup by provenance may answer. */
  predicate MayFind(rows: seq<Row>, peer: string, remote: string, found: Option<nat>) {
    match found
    case Some(i) => Holds(rows, i, peer, remote)
    case None => forall i :: 0 <= i < |rows| ==> !Holds(rows, i, peer, remote)
  }

  predicate At(s: State, i: nat, p: Progress) { i < |s.imports| && s.imports[i].at == p }

  predicate Enabled(s: State, e: Step) {
    match e
    case Start(_) => true
    case Look(i, found) =>
      At(s, i, Looking) && MayFind(s.rows, s.imports[i].payload.peer, s.imports[i].payload.remote, found)
    case LookFails(i) => At(s, i, Looking)
    case Write(i) => At(s, i, Writing)
    case WriteFails(i) => At(s, i, Writing)
    case Retire(r) => r < |s.rows|
  }

  /** A fact takes over from the live fact of the same name and workspace. */
  predicate Supersedes(p: Payload, r: Row) { p.fact && r.fact && r.ws == p.ws && r.name == p.name }

  function Superseded(rows: seq<Row>, p: Payload): (out: seq<Row>)
    ensures |out| == |rows|
    ensures forall i :: 0 <= i < |rows| ==>
      out[i] == if Supersedes(p, rows[i]) then rows[i].(live := false) else rows[i]
  {
    if rows == [] then []
    else
      [if Supersedes(p, rows[0]) then rows[0].(live := false) else rows[0]] + Superseded(rows[1..], p)
  }

  function Moved(s: State, i: nat, at: Progress): State
    requires i < |s.imports|
  {
    s.(imports := s.imports[i := s.imports[i].(at := at)])
  }

  function Next(s: State, e: Step): State
    requires Enabled(s, e)
  {
    match e
    case Start(p) => s.(imports := s.imports + [Import(p, Looking)])
    case Look(i, found) => Moved(s, i, if found.Some? then Imported(found.value) else Writing)
    case LookFails(i) => Moved(s, i, Writing)
    case Write(i) =>
      var p := s.imports[i].payload;
      Moved(s, i, Imported(|s.rows|))
        .(rows := Superseded(s.rows, p) + [Row(p.peer, p.remote, p.ws, p.name, p.fact, true)])
    case WriteFails(i) => Moved(s, i, Refused)
    case Retire(r) => s.(rows := s.rows[r := s.rows[r].(live := false)])
  }

  /* ---- One live row per source memory ---- */

  ghost predicate Unique(rows: seq<Row>) {
    forall i: nat, j: nat, peer, remote :: Holds(rows, i, peer, remote) && Holds(rows, j, peer, remote) ==> i == j
  }

  predicate SameSource(a: Payload, b: Payload) { a.peer == b.peer && a.remote == b.remote }

  /** An import that has looked and found nothing is alone, and still right. */
  ghost predicate Alone(s: State, i: nat)
    requires i < |s.imports|
  {
    s.imports[i].at.Writing? ==>
      && (forall r: nat :: !Holds(s.rows, r, s.imports[i].payload.peer, s.imports[i].payload.remote))
      && (forall j :: 0 <= j < |s.imports| && j != i && s.imports[j].at.Writing? ==>
            !SameSource(s.imports[i].payload, s.imports[j].payload))
  }

  ghost predicate Inv(s: State) {
    Unique(s.rows) && forall i :: 0 <= i < |s.imports| ==> Alone(s, i)
  }

  /** A step keeps to one import at a time per source memory: its lookup works,
      and no other import of the same memory stands between lookup and write. */
  ghost predicate OneAtATime(s: State, e: Step)
    requires Enabled(s, e)
  {
    && !e.LookFails?
    && (e.Look? && e.found.None? ==>
          forall j :: 0 <= j < |s.imports| && s.imports[j].at.Writing? ==>
            !SameSource(s.imports[e.index].payload, s.imports[j].payload))
  }

  lemma HoldsAfterWrite(s: State, i: nat, r: nat, peer: string, remote: string)
    requires Enabled(s, Write(i)) && Holds(Next(s, Write(i)).rows, r, peer, remote)
    ensures r < |s.rows| ==> Holds(s.rows, r, peer, remote)
    ensures r >= |s.rows| ==>
      r == |s.rows| && s.imports[i].payload.peer == peer && s.imports[i].payload.remote == remote
  {
  }

  lemma WriteInv(s: State, i: nat)
    requires Inv(s) && Enabled(s, Write(i))
    ensures Inv(Next(s, Write(i)))
  {
    var n := Next(s, Write(i));
    assert Alone(s, i);
    forall a: nat, b: nat, peer, remote | Holds(n.rows, a, peer, remote) && Holds(n.rows, b, peer, remote)
      ensures a == b
    {
      HoldsAfterWrite(s, i, a, peer, remote);
      HoldsAfterWrite(s, i, b, peer, remote);
    }
    forall k | 0 <= k < |n.imports| ensures Alone(n, k) {
      assert Alone(s, k);
      var p := s.imports[k].payload;
      if n.imports[k].at.Writing? {
        forall r: nat ensures !Holds(n.rows, r, p.peer, p.remote) {
          if Holds(n.rows, r, p.peer, p.remote) { HoldsAfterWrite(s, i, r, p.peer, p.remote); }
        }
      }
    }
  }

  lemma LookInv(s: State, i: nat, found: Option<nat>)
    requires Inv(s) && Enabled(s, Look(i, found)) && OneAtATime(s, Look(i, found))
    ensures Inv(Next(s, Look(i, found)))
  {
    var n := Next(s, Look(i, found));
    forall k | 0 <= k < |n.imports| ensures Alone(n, k) { assert Alone(s, k); }
  }

  lemma RetireInv(s: State, row: nat)
    requires Inv(s) && Enabled(s, Retire(row))
    ensures Inv(Next(s, Retire(row)))
  {
    var n := Next(s, Retire(row));
    assert forall r: nat, peer, remote :: Holds(n.rows, r, peer, remote) ==> Holds(s.rows, r, peer, remote);
    forall k | 0 <= k < |n.imports| ensures Alone(n, k) { assert Alone(s, k); }
  }

  lemma StepInv(s: State, e: Step)
    requires Inv(s) && Enabled(s, e) && OneAtATime(s, e)
    ensures Inv(Next(s, e))
  {
    match e
    case Look(i, found) => LookInv(s, i, found);
    case Write(i) => WriteInv(s, i);
    case Retire(r) => RetireInv(s, r);
    case Start(p) =>
      forall k | 0 <= k < |Next(s, e).imports| ensures Alone(Next(s, e), k) {
        if k < |s.imports| { assert Alone(s, k); }
      }
    case WriteFails(i) =>
      forall k | 0 <= k < |Next(s, e).imports| ensures Alone(Next(s, e), k) { assert Alone(s, k); }
  }

  predicate Possible(s: State, steps: seq<Step>)
    decreases |steps|
  {
    steps == [] || (Enabled(s, steps[0]) && Possible(Next(s, steps[0]), steps[1..]))
  }

  function Run(s: State, steps: seq<Step>): State
    requires Possible(s, steps)
    decreases |steps|
  {
    if steps == [] then s else Run(Next(s, steps[0]), steps[1..])
  }

  ghost predicate Orderly(s: State, steps: seq<Step>)
    requires Possible(s, steps)
    decreases |steps|
  {
    steps == [] || (OneAtATime(s, steps[0]) && Orderly(Next(s, steps[0]), steps[1..]))
  }

  lemma {:induction false} RunInv(s: State, steps: seq<Step>)
    requires Inv(s) && Possible(s, steps) && Orderly(s, steps)
    ensures Inv(Run(s, steps))
    decreases |steps|
  {
    if steps != [] {
      StepInv(s, steps[0]);
      RunInv(Next(s, steps[0]), steps[1..]);
    }
  }

  /** Over any orderly run, however many times a memory is pulled and by whichever
      path, there is never more than one live row for it. */
  lemma ImportedOnce(steps: seq<Step>, i: nat, j: nat, peer: string, remote: string)
    requires Possible(State([], []), steps) && Orderly(State([], []), steps)
    requires var rows := Run(State([], []), steps).rows; Holds(rows, i, peer, remote) && Holds(rows, j, peer, remote)
    ensures i == j
  {
    RunInv(State([], []), steps);
  }

  /* ---- When there are two ---- */

  /** A write that finds a live row of its memory and does not take it over. */
  ghost predicate Doubles(s: State, e: Step)
    requires Enabled(s, e)
  {
    e.Write? &&
      var p := s.imports[e.index].payload;
      exists r: nat :: Holds(s.rows, r, p.peer, p.remote) && !Supersedes(p, s.rows[r])
  }

  lemma WriteUniqueIff(s: State, i: nat)
    requires Unique(s.rows) && Enabled(s, Write(i))
    ensures Unique(Next(s, Write(i)).rows) <==> !Doubles(s, Write(i))
  {
    var p, n := s.imports[i].payload, Next(s, Write(i));
    assert Holds(n.rows, |s.rows|, p.peer, p.remote);
    if Unique(n.rows) {
      forall r: nat | Holds(s.rows, r, p.peer, p.remote) ensures Supersedes(p, s.rows[r]) {
        if !Supersedes(p, s.rows[r]) { assert Holds(n.rows, r, p.peer, p.remote); }
      }
    } else {
      var a: nat, b: nat, peer, remote :| Holds(n.rows, a, peer, remote) && Holds(n.rows, b, peer, remote) && a != b;
      HoldsAfterWrite(s, i, a, peer, remote);
      HoldsAfterWrite(s, i, b, peer, remote);
    }
  }

  lemma StepUniqueIff(s: State, e: Step)
    requires Unique(s.rows) && Enabled(s, e)
    ensures Unique(Next(s, e).rows) <==> !Doubles(s, e)
  {
    if e.Write? {
      WriteUniqueIff(s, e.index);
    } else if e.Retire? {
      var n := Next(s, e);
      assert forall r: nat, peer, remote :: Holds(n.rows, r, peer, remote) ==> Holds(s.rows, r, peer, remote);
    }
  }

  ghost predicate UniqueThroughout(s: State, steps: seq<Step>)
    requires Possible(s, steps)
    decreases |steps|
  {
    Unique(s.rows) && (steps == [] || UniqueThroughout(Next(s, steps[0]), steps[1..]))
  }

  ghost predicate NeverDoubles(s: State, steps: seq<Step>)
    requires Possible(s, steps)
    decreases |steps|
  {
    steps == [] || (!Doubles(s, steps[0]) && NeverDoubles(Next(s, steps[0]), steps[1..]))
  }

  /** Over any run, overlapping imports, failed lookups, deletions and supersessions
      included: there is at most one live row per source memory at every point if and
      only if no write comes upon a live row of its memory that it does not take over. */
  lemma {:induction false} OneRowIff(s: State, steps: seq<Step>)
    requires Unique(s.rows) && Possible(s, steps)
    ensures UniqueThroughout(s, steps) <==> NeverDoubles(s, steps)
    decreases |steps|
  {
    if steps != [] {
      StepUniqueIff(s, steps[0]);
      if !Doubles(s, steps[0]) { OneRowIff(Next(s, steps[0]), steps[1..]); }
    }
  }

  /** Rows keep their provenance, place and name for good. */
  ghost predicate SameRow(a: Row, b: Row) { a == b.(live := a.live) }

  lemma {:induction false} RowsStay(s: State, steps: seq<Step>, id: nat)
    requires Possible(s, steps) && id < |s.rows|
    ensures id < |Run(s, steps).rows| && SameRow(s.rows[id], Run(s, steps).rows[id])
    decreases |steps|
  {
    if steps != [] {
      assert SameRow(s.rows[id], Next(s, steps[0]).rows[id]);
      RowsStay(Next(s, steps[0]), steps[1..], id);
    }
  }

  /** What the later of two payloads takes over from the earlier one. */
  predicate TakesOver(later: Payload, earlier: Payload) {
    later.fact && earlier.fact && later.ws == earlier.ws && later.name == earlier.name
  }

  /** Two imports of one memory that overlap, or of which the later one's lookup
      failed: import `i` writes, anything happens while its row stays live, import `j`
      writes. Both rows are live afterwards exactly when the later payload does not
      take over the earlier one's row. */
  lemma OverlapDoublesIff(s: State, i: nat, mid: seq<Step>, j: nat)
    requires Enabled(s, Write(i)) && Possible(Next(s, Write(i)), mid)
    requires var u := Run(Next(s, Write(i)), mid);
      && Enabled(u, Write(j)) && |s.rows| < |u.rows| && u.rows[|s.rows|].live
      && SameSource(s.imports[i].payload, u.imports[j].payload)
    ensures var u := Run(Next(s, Write(i)), mid); var n := Next(u, Write(j));
      var p := s.imports[i].payload; var q := u.imports[j].payload;
      && Holds(n.rows, |u.rows|, p.peer, p.remote)
      && (Holds(n.rows, |s.rows|, p.peer, p.remote) <==> !TakesOver(q, p))
  {
    RowsStay(Next(s, Write(i)), mid, |s.rows|);
  }

  lemma Unroll(s: State, e: Step, rest: seq<Step>)
    requires Enabled(s, e) && Possible(Next(s, e), rest)
    ensures Possible(s, [e] + rest) && Run(s, [e] + rest) == Run(Next(s, e), rest)
  {
    assert ([e] + rest)[1..] == rest;
  }

  function RowOf(p: Payload): Row { Row(p.peer, p.remote, p.ws, p.name, p.fact, true) }

  /** The second write, beside the first one's row. */
  lemma SecondWrite(s: State, p: Payload, q: Payload)
    requires SameSource(p, q) && s == State([RowOf(p)], [Import(p, Imported(0)), Import(q, Writing)])
    ensures Enabled(s, Write(1))
    ensures var rows := Next(s, Write(1)).rows;
      && |rows| == 2 && Holds(rows, 1, p.peer, p.remote)
      && (Holds(rows, 0, p.peer, p.remote) <==> !TakesOver(q, p))
  {
  }

  /** Both imports look at an empty store. */
  lemma BothLook(p: Payload, q: Payload)
    requires SameSource(p, q)
    ensures var start := State([], [Import(p, Looking), Import(q, Looking)]);
      var middle := State([], [Import(p, Writing), Import(q, Looking)]);
      && Enabled(start, Look(0, None)) && Next(start, Look(0, None)) == middle
      && Enabled(middle, Look(1, None))
      && Next(middle, Look(1, None)) == State([], [Import(p, Writing), Import(q, Writing)])
  {
  }

  lemma {:induction false} RunAppend(s: State, a: seq<Step>, b: seq<Step>)
    requires Possible(s, a) && Possible(Run(s, a), b)
    ensures Possible(s, a + b) && Run(s, a + b) == Run(Run(s, a), b)
    decreases |a|
  {
    if a == [] {
      assert a + b == b;
    } else {
      RunAppend(Next(s, a[0]), a[1..], b);
      Unroll(s, a[0], a[1..] + b);
      assert [a[0]] + (a[1..] + b) == a + b;
    }
  }

  /** Two imports start and look. */
  lemma OverlapLooks(p: Payload, q: Payload) returns (steps: seq<Step>)
    requires SameSource(p, q)
    ensures Possible(State([], []), steps)
    ensures Run(State([], []), steps) == State([], [Import(p, Writing), Import(q, Writing)])
    ensures forall i :: 0 <= i < |steps| ==> steps[i].Start? || steps[i].Look?
  {
    var s0 := State([], []);
    var s1 := State([], [Import(p, Looking)]);
    var s2 := State([], [Import(p, Looking), Import(q, Looking)]);
    var s3 := State([], [Import(p, Writing), Import(q, Looking)]);
    assert Next(s0, Start(p)) == s1;
    assert Next(s1, Start(q)) == s2;
    BothLook(p, q);
    var t3 := [Look(1, None)] + [];
    var t2 := [Look(0, None)] + t3;
    var t1 := [Start(q)] + t2;
    Unroll(s3, Look(1, None), []);
    Unroll(s2, Look(0, None), t3);
    Unroll(s1, Start(q), t2);
    Unroll(s0, Start(p), t1);
    steps := [Start(p)] + t1;
  }

  /** Both write. */
  lemma OverlapWrites(p: Payload, q: Payload) returns (steps: seq<Step>)
    requires SameSource(p, q)
    ensures var s := State([], [Import(p, Writing), Import(q, Writing)]);
      && Possible(s, steps)
      && var rows := Run(s, steps).rows;
         && |rows| == 2 && Holds(rows, 1, p.peer, p.remote)
         && (Holds(rows, 0, p.peer, p.remote) <==> !TakesOver(q, p))
    ensures forall i :: 0 <= i < |steps| ==> steps[i].Write?
  {
    var s := State([], [Import(p, Writing), Import(q, Writing)]);
    var t := State([RowOf(p)], [Import(p, Imported(0)), Import(q, Writing)]);
    assert Next(s, Write(0)) == t by { assert Superseded([], p) == []; }
    SecondWrite(t, p, q);
    Unroll(t, Write(1), []);
    Unroll(s, Write(0), [Write(1)] + []);
    steps := [Write(0)] + ([Write(1)] + []);
  }

  /** From an empty store: two imports of one memory look before either writes. */
  lemma OverlapFromEmpty(p: Payload, q: Payload) returns (steps: seq<Step>)
    requires SameSource(p, q)
    ensures Possible(State([], []), steps) && forall i :: 0 <= i < |steps| ==> !steps[i].LookFails? && !steps[i].Retire?
    ensures var rows := Run(State([], []), steps).rows;
      && |rows| == 2 && Holds(rows, 1, p.peer, p.remote)
      && (Holds(rows, 0, p.peer, p.remote) <==> !TakesOver(q, p))
  {
    var looks := OverlapLooks(p, q);
    var writes := OverlapWrites(p, q);
    RunAppend(State([], []), looks, writes);
    steps := looks + writes;
  }

  /** From an empty store, one after the other, with the second lookup failing. */
  lemma FailedLookupFromEmpty(p: Payload, q: Payload) returns (steps: seq<Step>)
    requires SameSource(p, q)
    ensures Possible(State([], []), steps)
    ensures var rows := Run(State([], []), steps).rows;
      && |rows| == 2 && Holds(rows, 1, p.peer, p.remote)
      && (Holds(rows, 0, p.peer, p.remote) <==> !TakesOver(q, p))
  {
    var s0 := State([], []);
    var s1 := State([], [Import(p, Looking)]);
    var s2 := State([], [Import(p, Writing)]);
    var s3 := State([RowOf(p)], [Import(p, Imported(0))]);
    var s4 := State([RowOf(p)], [Import(p, Imported(0)), Import(q, Looking)]);
    var s5 := State([RowOf(p)], [Import(p, Imported(0)), Import(q, Writing)]);
    assert Next(s0, Start(p)) == s1;
    assert Next(s1, Look(0, None)) == s2;
    assert Next(s2, Write(0)) == s3 by { assert Superseded([], p) == []; }
    assert Next(s3, Start(q)) == s4;
    assert Next(s4, LookFails(1)) == s5;
    SecondWrite(s5, p, q);
    var t5 := [Write(1)] + [];
    var t4 := [LookFails(1)] + t5;
    var t3 := [Start(q)] + t4;
    var t2 := [Write(0)] + t3;
    var t1 := [Look(0, None)] + t2;
    Unroll(s5, Write(1), []);
    Unroll(s4, LookFails(1), t5);
    Unroll(s3, Start(q), t4);
    Unroll(s2, Write(0), t3);
    Unroll(s1, Look(0, None), t2);
    Unroll(s0, Start(p), t1);
    steps := [Start(p)] + t1;
  }

  lemma LookReturnsIff(s: State, i: nat, id: nat, found: Option<nat>)
    requires Unique(s.rows) && Enabled(s, Look(i, found)) && id < |s.rows|
    requires s.rows[id].peer == s.imports[i].payload.peer && s.rows[id].remote == s.imports[i].payload.remote
    ensures Next(s, Look(i, found)).imports[i].at == Imported(id) <==> s.rows[id].live
  {
    var p := s.imports[i].payload;
    if s.rows[id].live { assert Holds(s.rows, id, p.peer, p.remote); }
  }

  /** A step that takes a row out: its deletion, or a fact that takes over from it. */
  predicate TakesOut(s: State, e: Step, id: nat)
    requires Enabled(s, e) && id < |s.rows|
  {
    e == Retire(id) || (e.Write? && Supersedes(s.imports[e.index].payload, s.rows[id]))
  }

  predicate TakenOut(s: State, steps: seq<Step>, id: nat)
    requires Possible(s, steps) && id < |s.rows|
    decreases |steps|
  {
    steps != [] && (TakesOut(s, steps[0], id) || TakenOut(Next(s, steps[0]), steps[1..], id))
  }

  lemma {:induction false} LiveIff(s: State, steps: seq<Step>, id: nat)
    requires Possible(s, steps) && id < |s.rows|
    ensures id < |Run(s, steps).rows| && (Run(s, steps).rows[id].live <==> s.rows[id].live && !TakenOut(s, steps, id))
    decreases |steps|
  {
    if steps != [] {
      var n := Next(s, steps[0]);
      assert n.rows[id].live <==> s.rows[id].live && !TakesOut(s, steps[0], id);
      LiveIff(n, steps[1..], id);
    }
  }

  lemma {:induction false} StillUnique(s: State, steps: seq<Step>)
    requires Unique(s.rows) && Possible(s, steps) && NeverDoubles(s, steps)
    ensures Unique(Run(s, steps).rows)
    decreases |steps|
  {
    if steps != [] {
      StepUniqueIff(s, steps[0]);
      StillUnique(Next(s, steps[0]), steps[1..]);
    }
  }

  /** Import `i` writes its row, anything happens that leaves one row per memory, then
      import `j` of the same memory looks: it gives back the row that `i` wrote if and
      only if that row was neither deleted nor taken over in between. */
  lemma RepeatReturnsSameIff(s: State, i: nat, mid: seq<Step>, j: nat, found: Option<nat>)
    requires Unique(s.rows) && Enabled(s, Write(i)) && !Doubles(s, Write(i))
    requires var w := Next(s, Write(i)); Possible(w, mid) && NeverDoubles(w, mid)
    requires var u := Run(Next(s, Write(i)), mid);
      Enabled(u, Look(j, found)) && SameSource(s.imports[i].payload, u.imports[j].payload)
    ensures var w := Next(s, Write(i)); var n := Next(Run(w, mid), Look(j, found));
      n.imports[j].at == w.imports[i].at <==> !TakenOut(w, mid, |s.rows|)
  {
    var w := Next(s, Write(i));
    StepUniqueIff(s, Write(i));
    StillUnique(w, mid);
    RowsStay(w, mid, |s.rows|);
    LiveIff(w, mid, |s.rows|);
    LookReturnsIff(Run(w, mid), j, |s.rows|, found);
  }

  /* ---- Offers ---- */

  /** A row of the offer table, keyed by peer and remote id. */
  datatype Offer = Offer(acceptedAs: Option<string>, declined: bool)

  type Offers = map<(string, string), Offer>

  datatype OfferEvent =
    | Offered(peer: string, remote: string)
    | Pulled(peer: string, remote: string, local: string)
    | Declined(peer: string, remote: string)

  function Update(t: Offers, e: OfferEvent): Offers {
    var k := (e.peer, e.remote);
    match e
    case Offered(_, _) => if k in t then t else t[k := Offer(None, false)]
    case Pulled(_, _, local) =>
      if local == "" || k !in t || t[k].acceptedAs.Some? || t[k].declined then t
      else t[k := t[k].(acceptedAs := Some(local))]
    case Declined(_, _) =>
      if k !in t || t[k].acceptedAs.Some? || t[k].declined then t else t[k := t[k].(declined := true)]
  }

  function UpdateAll(t: Offers, es: seq<OfferEvent>): Offers
    decreases |es|
  {
    if es == [] then t else UpdateAll(Update(t, es[0]), es[1..])
  }

  predicate AlreadyImported(t: Offers, peer: string, remote: string) {
    (peer, remote) in t && t[(peer, remote)].acceptedAs.Some?
  }

  /** `ShouldAutoPull` when the offer list can be read. */
  predicate ShouldAutoPull(t: Offers, sameUser: bool, off: bool, peer: string, remote: string) {
    sameUser && !off && !AlreadyImported(t, peer, remote)
  }

  /** Once a pull has been recorded the memory is never pulled again, whatever is
      offered, pulled or declined afterwards. */
  lemma {:induction false} NeverPulledAgain(t: Offers, es: seq<OfferEvent>, peer: string, remote: string)
    requires AlreadyImported(t, peer, remote)
    ensures UpdateAll(t, es).Keys >= t.Keys && (peer, remote) in UpdateAll(t, es)
    ensures UpdateAll(t, es)[(peer, remote)] == t[(peer, remote)]
    ensures forall sameUser, off :: !ShouldAutoPull(UpdateAll(t, es), sameUser, off, peer, remote)
    decreases |es|
  {
    if es != [] { NeverPulledAgain(Update(t, es[0]), es[1..], peer, remote); }
  }

  /** A declined offer is never marked imported, so every new offer of it from one's
      own machine is pulled again: declining does not stop silent replication. */
  lemma {:induction false} DeclinedKeepsPulling(t: Offers, es: seq<OfferEvent>, peer: string, remote: string)
    requires (peer, remote) in t && t[(peer, remote)] == Offer(None, true)
    ensures (peer, remote) in UpdateAll(t, es) && UpdateAll(t, es)[(peer, remote)] == Offer(None, true)
    ensures ShouldAutoPull(UpdateAll(t, es), true, false, peer, remote)
    decreases |es|
  {
    if es != [] { DeclinedKeepsPulling(Update(t, es[0]), es[1..], peer, remote); }
  }

  /* ---- Scopes ---- */

  const BARE := "mesh.memory_request"
  const PREFIX := "mesh.memory_request:"

  predicate PerWorkspace(s: string) { |s| > |PREFIX| && s[..|PREFIX|] == PREFIX }

  function Workspaces(scopes: seq<string>): seq<string> {
    if scopes == [] then []
    else
      var s := scopes[|scopes| - 1];
      Workspaces(scopes[..|scopes| - 1]) + (if PerWorkspace(s) then [s[|PREFIX|..]] else [])
  }

  /** `allowedWorkspacesFromScopes`: a wildcard anywhere admits everything; else
      the named workspaces, in order, and the global rows if the bare scope is held. */
  method AllowedWorkspaces(scopes: seq<string>) returns (ids: seq<string>, allowGlobal: bool, wildcard: bool)
    ensures wildcard <==> PREFIX + "*" in scopes
    ensures wildcard ==> ids == [] && allowGlobal
    ensures !wildcard ==> ids == Workspaces(scopes) && "*" !in ids && (allowGlobal <==> BARE in scopes)
  {
    ids, allowGlobal, wildcard := [], false, false;
    for i := 0 to |scopes|
      invariant !wildcard && ids == Workspaces(scopes[..i]) && "*" !in ids
      invariant PREFIX + "*" !in scopes[..i] && (allowGlobal <==> BARE in scopes[..i])
    {
      var s := scopes[i];
      assert scopes[..i + 1][..i] == scopes[..i];
      if s == BARE {
        allowGlobal := true;
      } else if PerWorkspace(s) {
        assert s == PREFIX + s[|PREFIX|..];
        if s[|PREFIX|..] == "*" { return [], true, true; }
        ids := ids + [s[|PREFIX|..]];
      }
    }
    assert scopes[..|scopes|] == scopes;
  }
}
