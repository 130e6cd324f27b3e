/** Due-task notifications: the scanner of `cmd/mcplexer/task_due_notify.go` and
    the assignment bridge of `cmd/mcplexer/task_notify.go` announce tasks and
    leave receipts in one store. Each publish and each store call is a step; the
    two goroutines interleave freely and the process may stop at any point. */
module DueNotices {
  const SECOND: nat := 1000000000

  /** What a receipt is for: a task and the second it was due. */
  datatype Pair = Pair(task: string, second: nat)

  datatype Scan =
    | Idle
    | Checking(todo: seq<Pair>, pending: seq<Pair>) // asking for receipts
    | Recording(todo: seq<Pair>)                     // published, writing receipts

  /** `due` and `assigns` count the announcements of each pair by the scanner and
      by the bridge; `kept` and `lost` the scanner's receipts that were written,
      and those that failed or were cut off. */
  datatype State = State(
    receipts: set<Pair>, scan: Scan, bridge: seq<Pair>,
    due: multiset<Pair>, assigns: multiset<Pair>, kept: multiset<Pair>, lost: multiset<Pair>)

  datatype Step =
    | Begin(list: seq<Pair>)                 // the due tasks are listed
    | Check(ok: bool) | Publish | Record(ok: bool)
    | AssignPublish(pair: Pair) | AssignRecord(ok: bool)
    | Stop                                   // the process ends; the store stays

  predicate Distinct(ps: seq<Pair>) { forall i, j :: 0 <= i < j < |ps| ==> ps[i] != ps[j] }

  predicate Enabled(s: State, e: Step) {
    match e
    case Begin(list) => s.scan.Idle? && Distinct(list)
    case Check(_) => s.scan.Checking? && s.scan.todo != []
    case Publish => s.scan.Checking? && s.scan.todo == []
    case Record(_) => s.scan.Recording? && s.scan.todo != []
    case AssignPublish(_) => s.bridge == []
    case AssignRecord(_) => s.bridge != []
    case Stop => true
  }

  function Next(s: State, e: Step): State
    requires Enabled(s, e)
  {
    match e
    case Begin(list) => s.(scan := Checking(list, []))
    case Check(ok) =>
      var p := s.scan.todo[0];
      if !ok then s.(scan := Idle)
      else
        s.(scan := Checking(s.scan.todo[1..], if p in s.receipts then s.scan.pending else s.scan.pending + [p]))
    case Publish =>
      if s.scan.pending == [] then s.(scan := Idle)
      else s.(scan := Recording(s.scan.pending), due := s.due + multiset(s.scan.pending))
    case Record(ok) =>
      var p := s.scan.todo[0];
      var rest := if |s.scan.todo| == 1 then Idle else Recording(s.scan.todo[1..]);
      if ok then s.(scan := rest, receipts := s.receipts + {p}, kept := s.kept + multiset{p})
      else s.(scan := rest, lost := s.lost + multiset{p})
    case AssignPublish(p) => s.(bridge := [p], assigns := s.assigns + multiset{p})
    case AssignRecord(ok) =>
      s.(bridge := s.bridge[1..], receipts := if ok then s.receipts + {s.bridge[0]} else s.receipts)
    case Stop =>
      var cut := if s.scan.Recording? then multiset(s.scan.todo) else multiset{};
      s.(scan := Idle, bridge := [], lost := s.lost + cut)
  }

  predicate Possible(s: State, steps: seq<Step>)
    decreases |steps|
  {
    steps == [] || (Enabled(s, steps[0]) && Possible(Next(s, steps[0]), steps[1..]))
  }

  function Run(s: State, steps: seq<Step>): State
    requires Possible(s, steps)
    decreases |steps|
  {
    if steps == [] then s else Run(Next(s, steps[0]), steps[1..])
  }

  function Init(): State { State({}, Idle, [], multiset{}, multiset{}, multiset{}, multiset{}) }

  /* ---- What every state keeps ---- */

  function Open(s: State): multiset<Pair> { if s.scan.Recording? then multiset(s.scan.todo) else multiset{} }

  /** The pairs a scan has in hand and has not written a receipt for. */
  function InHand(scan: Scan): seq<Pair> {
    match scan
    case Idle => []
    case Checking(todo, pending) => pending + todo
    case Recording(todo) => todo
  }

  /** Every announcement of the scanner is settled, lost or still open. */
  ghost predicate Balanced(s: State) { s.due == s.kept + s.lost + Open(s) }

  ghost predicate Backed(s: State) {
    && (forall p :: p in s.kept ==> s.kept[p] == 1 && p in s.receipts)
    && (forall p :: p in s.receipts ==> p in s.due || p in s.assigns)
    && (forall i :: 0 <= i < |s.bridge| ==> s.bridge[i] in s.assigns)
  }

  ghost predicate HandOk(s: State) {
    && Distinct(InHand(s.scan))
    && (s.scan.Checking? ==> forall p :: p in s.scan.pending ==> p !in s.kept)
    && (s.scan.Recording? ==> forall p :: p in s.scan.todo ==> p !in s.kept && p in s.due)
  }

  ghost predicate Inv(s: State) { Balanced(s) && Backed(s) && HandOk(s) }

  lemma CheckInv(s: State, ok: bool)
    requires Inv(s) && Enabled(s, Check(ok))
    ensures Inv(Next(s, Check(ok)))
  {
    var n := Next(s, Check(ok));
    if ok {
      var p, todo, pending := s.scan.todo[0], s.scan.todo, s.scan.pending;
      assert InHand(s.scan) == pending + todo;
      if p in s.receipts {
        SkipOne(pending, todo);
      } else {
        assert InHand(n.scan) == pending + [p] + todo[1..] == pending + todo;
      }
    }
  }

  lemma SkipOne(a: seq<Pair>, b: seq<Pair>)
    requires b != [] && Distinct(a + b)
    ensures Distinct(a + b[1..])
  {
    var s, t := a + b, a + b[1..];
    forall i, j | 0 <= i < j < |t| ensures t[i] != t[j] {
      assert t[i] == s[if i < |a| then i else i + 1];
      assert t[j] == s[if j < |a| then j else j + 1];
    }
  }

  lemma PublishInv(s: State)
    requires Inv(s) && Enabled(s, Publish)
    ensures Inv(Next(s, Publish))
  {
    var pending := s.scan.pending;
    assert InHand(s.scan) == pending + [] == pending;
    forall p | p in pending ensures p in s.due + multiset(pending) {}
  }

  lemma RecordInv(s: State, ok: bool)
    requires Inv(s) && Enabled(s, Record(ok))
    ensures Inv(Next(s, Record(ok)))
  {
    var todo, n := s.scan.todo, Next(s, Record(ok));
    var p := todo[0];
    assert todo == [p] + todo[1..];
    assert Open(n) == multiset(todo[1..]) by { if |todo| == 1 { assert todo[1..] == []; } }
    assert p !in todo[1..];
    assert forall x :: x in todo[1..] ==> x in todo;
    forall i, j | 0 <= i < j < |todo[1..]| ensures todo[1..][i] != todo[1..][j] {
      assert todo[i + 1] != todo[j + 1];
    }
    RecordBalanced(s, ok);
  }

  lemma RecordBalanced(s: State, ok: bool)
    requires Balanced(s) && Enabled(s, Record(ok))
    ensures Balanced(Next(s, Record(ok)))
  {
    var todo := s.scan.todo;
    assert todo == [todo[0]] + todo[1..];
    if |todo| == 1 { assert todo[1..] == []; }
  }

  lemma BeginInv(s: State, list: seq<Pair>)
    requires Inv(s) && Enabled(s, Begin(list))
    ensures Inv(Next(s, Begin(list)))
  {
    assert [] + list == list;
  }

  lemma AssignPublishInv(s: State, p: Pair)
    requires Inv(s) && Enabled(s, AssignPublish(p))
    ensures Inv(Next(s, AssignPublish(p)))
  {
  }

  lemma AssignRecordInv(s: State, ok: bool)
    requires Inv(s) && Enabled(s, AssignRecord(ok))
    ensures Inv(Next(s, AssignRecord(ok)))
  {
    assert s.bridge[0] in s.assigns;
  }

  lemma StopInv(s: State)
    requires Inv(s)
    ensures Inv(Next(s, Stop))
  {
  }

  lemma StepInv(s: State, e: Step)
    requires Inv(s) && Enabled(s, e)
    ensures Inv(Next(s, e))
  {
    match e
    case Begin(list) => BeginInv(s, list);
    case Check(ok) => CheckInv(s, ok);
    case Publish => PublishInv(s);
    case Record(ok) => RecordInv(s, ok);
    case AssignPublish(p) => AssignPublishInv(s, p);
    case AssignRecord(ok) => AssignRecordInv(s, ok);
    case Stop => StopInv(s);
  }

  lemma {:induction false} RunInv(s: State, steps: seq<Step>)
    requires Inv(s) && Possible(s, steps)
    ensures Inv(Run(s, steps))
    decreases |steps|
  {
    if steps != [] {
      StepInv(s, steps[0]);
      RunInv(Next(s, steps[0]), steps[1..]);
    }
  }

  /** A receipt is only ever left for something that was announced. */
  lemma ReceiptMeansAnnounced(steps: seq<Step>, p: Pair)
    requires Possible(Init(), steps) && p in Run(Init(), steps).receipts
    ensures var s := Run(Init(), steps); s.due[p] + s.assigns[p] >= 1
  {
    RunInv(Init(), steps);
  }

  /** Over any run, restarts included, the scanner announces a due task at most
      once more than the number of its receipts that were lost. */
  lemma AnnouncedAtMostOnceMore(steps: seq<Step>, p: Pair)
    requires Possible(Init(), steps)
    ensures var s := Run(Init(), steps); s.due[p] <= s.lost[p] + 1
  {
    RunInv(Init(), steps);
    var s := Run(Init(), steps);
    if s.scan.Recording? && p in s.scan.todo {
      assert p !in s.kept;
      OnceInSeq(s.scan.todo, p);
    }
  }

  lemma {:induction false} OnceInSeq(ps: seq<Pair>, p: Pair)
    requires Distinct(ps)
    ensures multiset(ps)[p] <= 1
  {
    if ps != [] {
      assert ps == [ps[0]] + ps[1..];
      forall i, j | 0 <= i < j < |ps[1..]| ensures ps[1..][i] != ps[1..][j] { assert ps[i + 1] != ps[j + 1]; }
      OnceInSeq(ps[1..], p);
      if p == ps[0] {
        assert forall i :: 0 <= i < |ps[1..]| ==> ps[1..][i] == ps[i + 1];
        assert p !in ps[1..];
      }
    }
  }

  /* ---- A receipt silences the scanner ---- */

  /** The pair has a receipt and no scan has yet decided to announce it. */
  ghost predicate Silenced(s: State, p: Pair) {
    && p in s.receipts
    && (s.scan.Checking? ==> p !in s.scan.pending)
  }

  lemma {:induction false} SilencedForGood(s: State, steps: seq<Step>, p: Pair)
    requires Possible(s, steps) && Silenced(s, p)
    ensures Silenced(Run(s, steps), p) && Run(s, steps).due[p] == s.due[p]
    decreases |steps|
  {
    if steps != [] {
      var n := Next(s, steps[0]);
      if steps[0].Publish? { assert multiset(s.scan.pending)[p] == 0; }
      assert Silenced(n, p) && n.due[p] == s.due[p];
      SilencedForGood(n, steps[1..], p);
    }
  }

  lemma Unroll(s: State, e: Step, rest: seq<Step>)
    requires Enabled(s, e) && Possible(Next(s, e), rest)
    ensures Possible(s, [e] + rest) && Run(s, [e] + rest) == Run(Next(s, e), rest)
  {
    assert ([e] + rest)[1..] == rest;
  }

  lemma {:induction false} RunAppend(s: State, a: seq<Step>, b: seq<Step>)
    requires Possible(s, a) && Possible(Run(s, a), b)
    ensures Possible(s, a + b) && Run(s, a + b) == Run(Run(s, a), b)
    decreases |a|
  {
    if a == [] {
      assert a + b == b;
    } else {
      var e, rest := a[0], a[1..];
      assert Run(s, a) == Run(Next(s, e), rest);
      RunAppend(Next(s, e), rest, b);
      Unroll(s, e, rest + b);
      assert [e] + (rest + b) == a + b;
    }
  }

  /** A scan of one due task whose receipt cannot be written. */
  function Missed(p: Pair): seq<Step> {
    [Begin([p])] + ([Check(true)] + ([Publish] + ([Record(false)] + [])))
  }

  lemma MissedOnce(s: State, p: Pair)
    requires s.scan.Idle? && p !in s.receipts
    ensures Possible(s, Missed(p))
    ensures Run(s, Missed(p)) == s.(due := s.due + multiset{p}, lost := s.lost + multiset{p})
  {
    var s1 := s.(scan := Checking([p], []));
    var s2 := s.(scan := Checking([], [p]));
    var s3 := s.(scan := Recording([p]), due := s.due + multiset{p});
    var s4 := s.(due := s.due + multiset{p}, lost := s.lost + multiset{p});
    assert Next(s, Begin([p])) == s1;
    assert Next(s1, Check(true)) == s2 by { assert [] + [p] == [p] && [p][1..] == []; }
    assert Next(s2, Publish) == s3 by { assert multiset([p]) == multiset{p}; }
    assert Next(s3, Record(false)) == s4;
    Unroll(s3, Record(false), []);
    Unroll(s2, Publish, [Record(false)] + []);
    Unroll(s1, Check(true), [Publish] + ([Record(false)] + []));
    Unroll(s, Begin([p]), [Check(true)] + ([Publish] + ([Record(false)] + [])));
  }

  /** Announcing at most once is not what the code promises: as long as the receipt
      cannot be written, every scan announces it again, any number of times. */
  lemma {:induction false} AnnouncedManyTimes(p: Pair, n: nat) returns (steps: seq<Step>)
    ensures Possible(Init(), steps)
    ensures var s := Run(Init(), steps);
      s.due[p] == n && s.lost[p] == n && s.scan.Idle? && p !in s.receipts
  {
    if n == 0 {
      steps := [];
    } else {
      var before := AnnouncedManyTimes(p, n - 1);
      MissedOnce(Run(Init(), before), p);
      RunAppend(Init(), before, Missed(p));
      steps := before + Missed(p);
    }
  }

  /* ---- A whole scan, whatever runs beside it ---- */

  /** A step that is no store error of the scanner, no restart and no new scan. */
  predicate Faultless(e: Step) { e != Check(false) && e != Record(false) && !e.Stop? && !e.Begin? }

  predicate AllFaultless(steps: seq<Step>) { forall i :: 0 <= i < |steps| ==> Faultless(steps[i]) }

  /** The pairs the scanner asks about, in the order it asks. */
  function Checked(s: State, steps: seq<Step>): seq<Pair>
    requires Possible(s, steps)
    decreases |steps|
  {
    if steps == [] then []
    else (if steps[0].Check? then [s.scan.todo[0]] else []) + Checked(Next(s, steps[0]), steps[1..])
  }

  /** Those of them that had no receipt at the moment of their own check. */
  function Unreceipted(s: State, steps: seq<Step>): seq<Pair>
    requires Possible(s, steps)
    decreases |steps|
  {
    if steps == [] then []
    else
      (if steps[0].Check? && s.scan.todo[0] !in s.receipts then [s.scan.todo[0]] else [])
        + Unreceipted(Next(s, steps[0]), steps[1..])
  }

  function Todo(scan: Scan): seq<Pair> { if scan.Checking? then scan.todo else [] }
  function Pending(scan: Scan): seq<Pair> { if scan.Checking? then scan.pending else [] }

  /** How often a pair occurs. */
  function Times(ps: seq<Pair>, p: Pair): nat {
    if ps == [] then 0 else (if ps[0] == p then 1 else 0) + Times(ps[1..], p)
  }

  lemma {:induction false} TimesAppend(a: seq<Pair>, b: seq<Pair>, p: Pair)
    ensures Times(a + b, p) == Times(a, p) + Times(b, p)
  {
    if a == [] {
      assert a + b == b;
    } else {
      TimesAppend(a[1..], b, p);
      assert (a + b)[1..] == a[1..] + b;
    }
  }

  lemma {:induction false} TimesIs(ps: seq<Pair>, p: Pair)
    ensures Times(ps, p) == multiset(ps)[p] && (p in ps <==> Times(ps, p) > 0)
  {
    if ps != [] {
      TimesIs(ps[1..], p);
      assert ps == [ps[0]] + ps[1..];
    }
  }

  /** From a point of a scan to its end, as one pair sees it: what is asked, how often
      the pair is announced, and that everything in hand gets a receipt. */
  ghost predicate Ends(scan: Scan, receipts: set<Pair>, due: nat, checked: seq<Pair>, found: nat,
                       endReceipts: set<Pair>, endDue: nat, p: Pair)
  {
    && checked == Todo(scan) && endDue == due + Times(Pending(scan), p) + found
    && receipts <= endReceipts && forall q :: q in InHand(scan) ==> q in endReceipts
  }

  lemma EndsCheck(todo: seq<Pair>, pending: seq<Pair>, more: seq<Pair>, receipts: set<Pair>, due: nat,
                  checked: seq<Pair>, found: nat, endReceipts: set<Pair>, endDue: nat, p: Pair)
    requires todo != [] && more == (if todo[0] in receipts then pending else pending + [todo[0]])
    requires Ends(Checking(todo[1..], more), receipts, due, checked, found, endReceipts, endDue, p)
    ensures Ends(Checking(todo, pending), receipts, due, [todo[0]] + checked,
                 (if todo[0] !in receipts && todo[0] == p then 1 else 0) + found, endReceipts, endDue, p)
  {
    TimesAppend(pending, [todo[0]], p);
    assert [todo[0]][1..] == [];
    assert todo == [todo[0]] + todo[1..];
  }

  lemma EndsRecord(todo: seq<Pair>, receipts: set<Pair>, due: nat, checked: seq<Pair>, found: nat,
                   endReceipts: set<Pair>, endDue: nat, p: Pair)
    requires todo != []
    requires Ends(if |todo| == 1 then Idle else Recording(todo[1..]), receipts + {todo[0]}, due,
                  checked, found, endReceipts, endDue, p)
    ensures Ends(Recording(todo), receipts, due, checked, found, endReceipts, endDue, p)
  {
    assert todo == [todo[0]] + todo[1..];
  }

  ghost predicate Finishes(s: State, steps: seq<Step>, p: Pair)
    requires Possible(s, steps)
  {
    Ends(s.scan, s.receipts, s.due[p], Checked(s, steps), Times(Unreceipted(s, steps), p),
         Run(s, steps).receipts, Run(s, steps).due[p], p)
  }

  lemma Traced(s: State, e: Step, rest: seq<Step>, p: Pair)
    requires Enabled(s, e) && Possible(Next(s, e), rest)
    ensures Possible(s, [e] + rest) && Run(s, [e] + rest) == Run(Next(s, e), rest)
    ensures Checked(s, [e] + rest) == (if e.Check? then [s.scan.todo[0]] else []) + Checked(Next(s, e), rest)
    ensures Times(Unreceipted(s, [e] + rest), p) ==
      (if e.Check? && s.scan.todo[0] !in s.receipts && s.scan.todo[0] == p then 1 else 0)
        + Times(Unreceipted(Next(s, e), rest), p)
  {
    Unroll(s, e, rest);
    assert ([e] + rest)[1..] == rest;
    var head := if e.Check? && s.scan.todo[0] !in s.receipts then [s.scan.todo[0]] else [];
    TimesAppend(head, Unreceipted(Next(s, e), rest), p);
    assert head != [] ==> head[1..] == [];
  }

  lemma FinishCheck(s: State, rest: seq<Step>, p: Pair)
    requires Enabled(s, Check(true)) && Possible(Next(s, Check(true)), rest) && Finishes(Next(s, Check(true)), rest, p)
    ensures Possible(s, [Check(true)] + rest) && Finishes(s, [Check(true)] + rest, p)
  {
    Traced(s, Check(true), rest, p);
    var n := Next(s, Check(true));
    var t := Run(n, rest);
    EndsCheck(s.scan.todo, s.scan.pending, n.scan.pending, s.receipts, s.due[p],
      Checked(n, rest), Times(Unreceipted(n, rest), p), t.receipts, t.due[p], p);
  }

  lemma FinishPublish(s: State, rest: seq<Step>, p: Pair)
    requires Enabled(s, Publish) && Possible(Next(s, Publish), rest) && Finishes(Next(s, Publish), rest, p)
    ensures Possible(s, [Publish] + rest) && Finishes(s, [Publish] + rest, p)
  {
    Traced(s, Publish, rest, p);
    var none: seq<Pair> := [];
    assert none + Checked(Next(s, Publish), rest) == Checked(Next(s, Publish), rest);
    TimesIs(s.scan.pending, p);
    assert s.scan.pending + s.scan.todo == s.scan.pending;
  }

  lemma FinishRecord(s: State, rest: seq<Step>, p: Pair)
    requires Enabled(s, Record(true)) && Possible(Next(s, Record(true)), rest)
    requires Finishes(Next(s, Record(true)), rest, p)
    ensures Possible(s, [Record(true)] + rest) && Finishes(s, [Record(true)] + rest, p)
  {
    Traced(s, Record(true), rest, p);
    var n := Next(s, Record(true));
    var none: seq<Pair> := [];
    assert none + Checked(n, rest) == Checked(n, rest);
    EndsRecord(s.scan.todo, s.receipts, s.due[p], Checked(n, rest), Times(Unreceipted(n, rest), p),
      Run(n, rest).receipts, Run(n, rest).due[p], p);
  }

  lemma FinishAssign(s: State, e: Step, rest: seq<Step>, p: Pair)
    requires Enabled(s, e) && (e.AssignPublish? || e.AssignRecord?) && Possible(Next(s, e), rest)
    requires Finishes(Next(s, e), rest, p)
    ensures Possible(s, [e] + rest) && Finishes(s, [e] + rest, p)
  {
    Traced(s, e, rest, p);
    var none: seq<Pair> := [];
    assert none + Checked(Next(s, e), rest) == Checked(Next(s, e), rest);
  }

  lemma {:induction false} ScanFinishes(s: State, steps: seq<Step>, p: Pair)
    requires Possible(s, steps) && AllFaultless(steps) && Run(s, steps).scan.Idle?
    ensures Finishes(s, steps, p)
    decreases |steps|
  {
    if steps != [] {
      var e, rest := steps[0], steps[1..];
      assert Faultless(e) && AllFaultless(rest);
      ScanFinishes(Next(s, e), rest, p);
      assert steps == [e] + rest;
      match e
      case Check(_) => FinishCheck(s, rest, p);
      case Publish => FinishPublish(s, rest, p);
      case Record(_) => FinishRecord(s, rest, p);
      case AssignPublish(_) => FinishAssign(s, e, rest, p);
      case AssignRecord(_) => FinishAssign(s, e, rest, p);
    }
  }

  lemma {:induction false} UnreceiptedOnce(s: State, steps: seq<Step>, p: Pair)
    requires Possible(s, steps)
    ensures Times(Unreceipted(s, steps), p) <= Times(Checked(s, steps), p)
    decreases |steps|
  {
    if steps != [] {
      var e, rest := steps[0], steps[1..];
      UnreceiptedOnce(Next(s, e), rest, p);
      assert steps == [e] + rest;
      Traced(s, e, rest, p);
      var head := if e.Check? then [s.scan.todo[0]] else [];
      TimesAppend(head, Checked(Next(s, e), rest), p);
      assert head != [] ==> head[1..] == [];
    }
  }

  /** A scan without an error of its own, interleaved in any way with assignments:
      it asks about exactly the listed pairs, in order; a pair is announced, once, if
      and only if it had no receipt when its own check ran; and at the end every listed
      pair has a receipt. */
  lemma ErrorFreeScan(s: State, list: seq<Pair>, steps: seq<Step>, p: Pair)
    requires Enabled(s, Begin(list)) && Possible(Next(s, Begin(list)), steps) && AllFaultless(steps)
    requires Run(Next(s, Begin(list)), steps).scan.Idle?
    ensures var b := Next(s, Begin(list)); var t := Run(b, steps);
      && Checked(b, steps) == list
      && t.due[p] == s.due[p] + (if p in Unreceipted(b, steps) then 1 else 0)
      && (p in Unreceipted(b, steps) ==> p in list)
      && (p in list ==> p in t.receipts)
  {
    var b := Next(s, Begin(list));
    ScanFinishes(b, steps, p);
    UnreceiptedOnce(b, steps, p);
    TimesIs(Unreceipted(b, steps), p);
    TimesIs(list, p);
    OnceInSeq(list, p);
    assert [] + list == list;
  }

  /* ---- Listing the due tasks ---- */

  datatype Task = Task(id: string, open: bool, human: bool, hasAssignee: bool, due: int)

  /** `humanTaskIsDue`; a task with no due date has a negative one here. */
  predicate IsDue(t: Task, now: nat) { t.open && t.human && t.hasAssignee && 0 <= t.due <= now }

  /** The receipt key: due times are cut to the second. */
  function PairOf(t: Task): Pair
    requires 0 <= t.due
  {
    Pair(t.id, t.due / SECOND)
  }

  const PAGE_SIZE: nat := 500

  function DueOnly(rows: seq<Task>, now: nat): seq<Task> {
    if rows == [] then []
    else DueOnly(rows[..|rows| - 1], now) + (if IsDue(rows[|rows| - 1], now) then [rows[|rows| - 1]] else [])
  }

  /** One page of the store's listing. */
  function PageAt(rows: seq<Task>, offset: nat): seq<Task> {
    if offset >= |rows| then []
    else if offset + PAGE_SIZE < |rows| then rows[offset..offset + PAGE_SIZE]
    else rows[offset..]
  }

  /** The pairs a scan lists. */
  function PairsOf(rows: seq<Task>): (ps: seq<Pair>)
    requires forall i :: 0 <= i < |rows| ==> 0 <= rows[i].due
    ensures |ps| == |rows| && forall i :: 0 <= i < |ps| ==> ps[i] == PairOf(rows[i])
  {
    if rows == [] then [] else [PairOf(rows[0])] + PairsOf(rows[1..])
  }

  lemma {:induction false} DueOnlySpec(rows: seq<Task>, now: nat)
    ensures forall t :: t in DueOnly(rows, now) <==> t in rows && IsDue(t, now)
    ensures DistinctIds(rows) ==> DistinctIds(DueOnly(rows, now))
  {
    if rows != [] {
      var front, last := rows[..|rows| - 1], rows[|rows| - 1];
      DueOnlySpec(front, now);
      assert rows == front + [last];
      if DistinctIds(rows) && IsDue(last, now) {
        forall i | 0 <= i < |DueOnly(front, now)| ensures DueOnly(front, now)[i].id != last.id {
          assert DueOnly(front, now)[i] in front;
        }
      }
    }
  }

  predicate DistinctIds(rows: seq<Task>) { forall i, j :: 0 <= i < j < |rows| ==> rows[i].id != rows[j].id }

  /** A listing of distinct tasks is a list a scan can begin with. */
  lemma ListingBegins(rows: seq<Task>, now: nat)
    requires DistinctIds(rows)
    ensures (forall i :: 0 <= i < |DueOnly(rows, now)| ==> 0 <= DueOnly(rows, now)[i].due)
      && Distinct(PairsOf(DueOnly(rows, now)))
  {
    DueOnlySpec(rows, now);
    var due := DueOnly(rows, now);
    assert forall i :: 0 <= i < |due| ==> due[i] in due;
  }

  /** `listDueHumanTasks`: whatever the number of rows, exactly the due ones, in
      listing order, each once. */
  method ListDue(rows: seq<Task>, now: nat) returns (out: seq<Task>)
    ensures out == DueOnly(rows, now)
  {
    out := [];
    var offset := 0;
    while true
      invariant offset <= |rows| && out == DueOnly(rows[..offset], now)
      decreases |rows| - offset
    {
      var page := PageAt(rows, offset);
      for i := 0 to |page|
        invariant offset + |page| <= |rows| && out == DueOnly(rows[..offset + i], now)
      {
        assert rows[..offset + i + 1][..offset + i] == rows[..offset + i];
        assert page[i] == rows[offset + i];
        if IsDue(page[i], now) { out := out + [page[i]]; }
      }
      if |page| < PAGE_SIZE {
        assert rows[..|rows|] == rows;
        return;
      }
      offset := offset + PAGE_SIZE;
    }
  }
}
