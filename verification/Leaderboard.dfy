/** The A/B arm leaderboard of `internal/api/concierge_handler.go`: chat-turn
    signals counted per arm, then sorted in place. */
module Leaderboard {
  import opened Text

  datatype Label = Confirmation | Correction | Frustration | Neutral | Redirect | Escalation | Unknown(text: string)

  /** A stored chat-turn signal. Times are instants after the zero time, which is 0. */
  datatype Turn = Turn(worker: string, version: int, verdict: Label, at: int)

  /** A signal under the arm it counts for. */
  datatype Signal = Signal(arm: string, caption: string, verdict: Label, at: int)

  datatype ArmRow = ArmRow(id: string, caption: string, wins: nat, losses: nat, draws: nat, lastUsed: int)

  datatype Bucket = Bucket(row: ArmRow, total: nat)

  function ArmId(r: Turn): string { r.worker + (":v" + DecimalInt(r.version)) }

  function ArmLabel(r: Turn): string { "v" + DecimalInt(r.version) }

  function Keyed(r: Turn): Signal { Signal(ArmId(r), ArmLabel(r), r.verdict, r.at) }

  function Map<S, T>(rows: seq<S>, f: S -> T): (out: seq<T>)
    ensures |out| == |rows|
  {
    if rows == [] then [] else [f(rows[0])] + Map(rows[1..], f)
  }

  function AllKeyed(rows: seq<Turn>): (s: seq<Signal>)
    ensures |s| == |rows|
  {
    Map(rows, Keyed)
  }

  /* ---- What an arm has earned ---- */

  datatype Outcome = Win | Loss | Draw | Other

  /** How a label scores; a label the switch does not know scores nothing. */
  function Score(l: Label): Outcome {
    match l
    case Confirmation => Win
    case Correction => Loss
    case Frustration => Loss
    case Neutral => Draw
    case Redirect => Draw
    case Escalation => Draw
    case Unknown(_) => Other
  }

  function Add(b: Bucket, r: Signal): Bucket {
    Bucket(
      b.row.(wins := b.row.wins + (if Score(r.verdict) == Win then 1 else 0),
             losses := b.row.losses + (if Score(r.verdict) == Loss then 1 else 0),
             draws := b.row.draws + (if Score(r.verdict) == Draw then 1 else 0),
             lastUsed := if r.at > b.row.lastUsed then r.at else b.row.lastUsed),
      b.total + 1)
  }

  function Empty(r: Signal): Bucket { Bucket(ArmRow(r.arm, r.caption, 0, 0, 0, 0), 0) }

  /** What is counted: signals of one outcome, or all of them. */
  datatype Query = Scored(o: Outcome) | All

  predicate Hit(r: Signal, id: string, q: Query) {
    r.arm == id && (q.All? || Score(r.verdict) == q.o)
  }

  function One(b: bool): nat { if b then 1 else 0 }

  /** How many signals of an arm answer a query. */
  function Count(rows: seq<Signal>, id: string, q: Query): nat {
    if rows == [] then 0 else One(Hit(rows[0], id, q)) + Count(rows[1..], id, q)
  }

  /** The latest signal of an arm, or the zero time if none is later. */
  ghost predicate IsLast(rows: seq<Signal>, id: string, t: int) {
    && 0 <= t && (forall r :: r in rows && r.arm == id ==> r.at <= t)
    && (t > 0 ==> exists r :: r in rows && r.arm == id && r.at == t)
  }

  ghost predicate Present(rows: seq<Signal>, id: string) { exists r :: r in rows && r.arm == id }

  /** The rollup of one arm, stated from the signals alone. */
  ghost predicate IsBucket(rows: seq<Signal>, id: string, b: Bucket) {
    && b.row.id == id && Captioned(rows, id, b.row.caption) && Counts(rows, id, b)
    && IsLast(rows, id, b.row.lastUsed)
  }

  /* ---- Arm ids ---- */

  lemma {:induction false} DecimalNoColon(n: nat)
    ensures ':' !in Decimal(n)
  {
    if n >= 10 { DecimalNoColon(n / 10); }
  }

  /** An id determines its worker and its version, whatever characters the worker
      id holds. */
  lemma ArmIdInjective(a: Turn, b: Turn)
    requires ArmId(a) == ArmId(b)
    ensures a.worker == b.worker && a.version == b.version
  {
    var s, t := DecimalInt(a.version), DecimalInt(b.version);
    DecimalNoColon(if a.version < 0 then -a.version else a.version);
    DecimalNoColon(if b.version < 0 then -b.version else b.version);
    SuffixAfterColon(a.worker, s, b.worker, t);
    DecimalIntInjective(a.version, b.version);
  }

  /** Signals of one arm carry one caption. */
  ghost predicate Consistent(rows: seq<Signal>) {
    forall r, s :: r in rows && s in rows && r.arm == s.arm ==> r.caption == s.caption
  }

  lemma {:induction false} MapFrom<S, T>(rows: seq<S>, f: S -> T, t: T)
    requires t in Map(rows, f)
    ensures exists r :: r in rows && t == f(r)
  {
    if t == f(rows[0]) {
      assert rows[0] in rows;
    } else {
      assert t in Map(rows, f)[1..];
      MapFrom(rows[1..], f, t);
      var r :| r in rows[1..] && t == f(r);
      assert r in rows;
    }
  }

  lemma KeyedConsistent(rows: seq<Turn>)
    ensures Consistent(AllKeyed(rows))
  {
    var all := AllKeyed(rows);
    forall r, s | r in all && s in all && r.arm == s.arm ensures r.caption == s.caption {
      MapFrom(rows, Keyed, r);
      MapFrom(rows, Keyed, s);
      var x :| x in rows && r == Keyed(x);
      var y :| y in rows && s == Keyed(y);
      ArmIdInjective(x, y);
    }
  }

  lemma {:induction false} MapAppend<S, T>(a: seq<S>, b: seq<S>, f: S -> T)
    ensures Map(a + b, f) == Map(a, f) + Map(b, f)
  {
    if a == [] {
      assert a + b == b;
    } else {
      MapAppend(a[1..], b, f);
      assert (a + b)[1..] == a[1..] + b;
    }
  }

  lemma {:induction false} MapPermuted<S, T>(a: seq<S>, b: seq<S>, f: S -> T)
    requires multiset(a) == multiset(b)
    ensures multiset(Map(a, f)) == multiset(Map(b, f))
    decreases |a|
  {
    if a == [] {
      assert |multiset(b)| == 0;
    } else {
      var k := Find(a, b);
      SplitAt(a, b, k);
      MapPermuted(a[1..], b[..k] + b[k + 1..], f);
      MapAppend(b[..k], b[k + 1..], f);
      MapAppend(b[..k], [b[k]] + b[k + 1..], f);
      assert ([b[k]] + b[k + 1..])[1..] == b[k + 1..];
    }
  }

  lemma SuffixAfterColon(a: string, s: string, b: string, t: string)
    requires a + (":v" + s) == b + (":v" + t) && ':' !in s && ':' !in t
    ensures a == b && s == t
  {
    var w := a + (":v" + s);
    assert w[|a|] == ':' && w[|b|] == ':';
    assert forall i :: |a| < i < |w| ==> w[i] == (":v" + s)[i - |a|];
    assert forall i :: |b| < i < |w| ==> w[i] == (":v" + t)[i - |b|];
    assert |a| == |b|;
    assert w[..|a|] == a && w[..|b|] == b;
    assert w[|a| + 2..] == s && w[|b| + 2..] == t;
  }

  /* ---- The order ---- */

  /** Byte order of strings. */
  predicate Before(a: string, b: string) {
    b != "" && (a == "" || a[0] < b[0] || (a[0] == b[0] && Before(a[1..], b[1..])))
  }

  lemma {:induction false} BeforeTotal(a: string, b: string)
    ensures a == b || Before(a, b) || Before(b, a)
  {
    if a != "" && b != "" && a[0] == b[0] {
      BeforeTotal(a[1..], b[1..]);
      assert a == [a[0]] + a[1..] && b == [b[0]] + b[1..];
    }
  }

  lemma {:induction false} BeforeStrict(a: string, b: string)
    requires Before(a, b)
    ensures !Before(b, a)
  {
    if a != "" && a[0] == b[0] { BeforeStrict(a[1..], b[1..]); }
  }

  lemma {:induction false} BeforeTransitive(a: string, b: string, c: string)
    requires Before(a, b) && Before(b, c)
    ensures Before(a, c)
  {
    if a != "" && a[0] == b[0] == c[0] { BeforeTransitive(a[1..], b[1..], c[1..]); }
  }

  /** Wins, then evidence, then id. */
  predicate ArmLess(a: Bucket, b: Bucket) {
    if a.row.wins != b.row.wins then a.row.wins > b.row.wins
    else if a.total != b.total then a.total > b.total
    else Before(a.row.id, b.row.id)
  }

  lemma LessTransitive(a: Bucket, b: Bucket, c: Bucket)
    requires ArmLess(a, b) && ArmLess(b, c)
    ensures ArmLess(a, c)
  {
    if a.row.wins == b.row.wins == c.row.wins && a.total == b.total == c.total {
      BeforeTransitive(a.row.id, b.row.id, c.row.id);
    }
  }

  lemma LessTotal(a: Bucket, b: Bucket)
    requires a.row.id != b.row.id
    ensures ArmLess(a, b) <==> !ArmLess(b, a)
  {
    BeforeTotal(a.row.id, b.row.id);
    if Before(a.row.id, b.row.id) { BeforeStrict(a.row.id, b.row.id); }
    if Before(b.row.id, a.row.id) { BeforeStrict(b.row.id, a.row.id); }
  }

  ghost predicate Sorted(s: seq<Bucket>) {
    forall i, j :: 0 <= i < j < |s| ==> ArmLess(s[i], s[j])
  }

  ghost predicate DistinctIds(s: seq<Bucket>) {
    forall i, j :: 0 <= i < j < |s| ==> s[i].row.id != s[j].row.id
  }

  /* ---- The sort ---- */

  /** The prefix up to `i` is in order, but for the element now at `j`, which is
      only known to belong before everything between it and `i`. */
  ghost predicate Sinking(s: seq<Bucket>, i: nat, j: nat)
    requires j <= i < |s|
  {
    && (forall x, y :: 0 <= x < y <= i && x != j && y != j ==> ArmLess(s[x], s[y]))
    && (forall y :: j < y <= i ==> ArmLess(s[j], s[y]))
  }

  function Swapped(s: seq<Bucket>, j: nat): (t: seq<Bucket>)
    requires 0 < j < |s|
    ensures |t| == |s|
  {
    s[j - 1 := s[j]][j := s[j - 1]]
  }

  lemma SwapKeeps(s: seq<Bucket>, j: nat)
    requires 0 < j < |s|
    ensures multiset(Swapped(s, j)) == multiset(s)
    ensures DistinctIds(s) ==> DistinctIds(Swapped(s, j))
  {
  }

  lemma SwapSinks(s: seq<Bucket>, i: nat, j: nat)
    requires 0 < j <= i < |s| && DistinctIds(s) && Sinking(s, i, j) && !ArmLess(s[j - 1], s[j])
    ensures Sinking(Swapped(s, j), i, j - 1)
  {
    var t := Swapped(s, j);
    LessTotal(s[j - 1], s[j]);
    forall x, y | 0 <= x < y <= i && x != j - 1 && y != j - 1 ensures ArmLess(t[x], t[y]) {
      if x == j { assert ArmLess(s[j - 1], s[y]); }
      if y == j { assert ArmLess(s[x], s[j - 1]); }
    }
  }

  lemma SinkDone(s: seq<Bucket>, i: nat, j: nat)
    requires j <= i < |s| && Sinking(s, i, j) && (j == 0 || ArmLess(s[j - 1], s[j]))
    ensures Sorted(s[..i + 1])
  {
    forall x, y | 0 <= x < y <= i ensures ArmLess(s[x], s[y]) {
      if y == j && x < j - 1 { LessTransitive(s[x], s[j - 1], s[j]); }
    }
  }

  /** `sortArms`: in place, to the one order of the same arms. */
  method SortArms(a: array<Bucket>)
    requires DistinctIds(a[..])
    modifies a
    ensures Sorted(a[..]) && multiset(a[..]) == multiset(old(a[..]))
  {
    if a.Length == 0 { return; }
    var i := 1;
    while i < a.Length
      invariant 1 <= i <= a.Length
      invariant Sorted(a[..i]) && DistinctIds(a[..])
      invariant multiset(a[..]) == multiset(old(a[..]))
    {
      var j := i;
      assert Sinking(a[..], i, i) by { assert forall k :: 0 <= k < i ==> a[..i][k] == a[..][k]; }
      while j > 0
        invariant 0 <= j <= i && Sinking(a[..], i, j) && DistinctIds(a[..])
        invariant multiset(a[..]) == multiset(old(a[..]))
      {
        if ArmLess(a[j - 1], a[j]) { break; }
        SwapKeeps(a[..], j);
        SwapSinks(a[..], i, j);
        ghost var swapped := Swapped(a[..], j);
        a[j - 1], a[j] := a[j], a[j - 1];
        assert a[..] == swapped;
        j := j - 1;
      }
      SinkDone(a[..], i, j);
      assert a[..][..i + 1] == a[..i + 1];
      i := i + 1;
    }
    assert a[..a.Length] == a[..];
  }

  /* ---- The board ---- */

  ghost predicate AggOk(rows: seq<Signal>, agg: map<string, Bucket>) {
    && (forall id :: id in agg <==> Present(rows, id))
    && (forall id :: id in agg ==> IsBucket(rows, id, agg[id]))
  }

  /** The leaderboard: one rollup per arm that has a signal, in order. */
  ghost predicate IsBoard(rows: seq<Signal>, board: seq<Bucket>) {
    && Sorted(board) && DistinctIds(board)
    && (forall id :: Present(rows, id) <==> exists i :: 0 <= i < |board| && board[i].row.id == id)
    && (forall i :: 0 <= i < |board| ==> IsBucket(rows, board[i].row.id, board[i]))
  }

  function Updated(agg: map<string, Bucket>, r: Signal): map<string, Bucket> {
    agg[r.arm := Add(if r.arm in agg then agg[r.arm] else Empty(r), r)]
  }

  lemma AddSignal(rows: seq<Signal>, agg: map<string, Bucket>, r: Signal)
    requires AggOk(rows, agg)
    ensures AggOk(rows + [r], Updated(agg, r))
  {
    var id, more := r.arm, rows + [r];
    assert forall x :: x in more <==> x in rows || x == r;
    forall key ensures key in Updated(agg, r) <==> Present(more, key) {
      if Present(rows, key) {
        var x :| x in rows && x.arm == key;
        assert x in more;
      }
    }
    forall key | key in Updated(agg, r) ensures IsBucket(more, key, Updated(agg, r)[key]) {
      if key != id {
        OtherArm(rows, r, key, agg[key]);
      } else if id in agg {
        SameArm(rows, r, agg[id]);
      } else {
        EmptyCounts(rows, r);
        SameArm(rows, r, Empty(r));
      }
    }
  }

  lemma {:induction false} CountAppend(a: seq<Signal>, b: seq<Signal>, id: string, q: Query)
    ensures Count(a + b, id, q) == Count(a, id, q) + Count(b, id, q)
  {
    if a == [] {
      assert a + b == b;
    } else {
      CountAppend(a[1..], b, id, q);
      assert (a + b)[1..] == a[1..] + b;
    }
  }

  lemma CountAdd(rows: seq<Signal>, r: Signal, id: string, q: Query)
    ensures Count(rows + [r], id, q) == Count(rows, id, q) + One(Hit(r, id, q))
  {
    CountAppend(rows, [r], id, q);
    assert [r][1..] == [];
  }

  /** The four counts of a bucket. */
  ghost predicate Counts(rows: seq<Signal>, id: string, b: Bucket) {
    && b.row.wins == Count(rows, id, Scored(Win)) && b.row.losses == Count(rows, id, Scored(Loss))
    && b.row.draws == Count(rows, id, Scored(Draw)) && b.total == Count(rows, id, All)
  }

  ghost predicate Captioned(rows: seq<Signal>, id: string, caption: string) {
    exists r :: r in rows && r.arm == id && caption == r.caption
  }

  lemma CountsOther(rows: seq<Signal>, r: Signal, id: string, b: Bucket)
    requires Counts(rows, id, b) && r.arm != id
    ensures Counts(rows + [r], id, b)
  {
    CountAdd(rows, r, id, Scored(Win));
    CountAdd(rows, r, id, Scored(Loss));
    CountAdd(rows, r, id, Scored(Draw));
    CountAdd(rows, r, id, All);
  }

  lemma CountsSame(rows: seq<Signal>, r: Signal, b: Bucket)
    requires Counts(rows, r.arm, b)
    ensures Counts(rows + [r], r.arm, Add(b, r))
  {
    CountAdd(rows, r, r.arm, Scored(Win));
    CountAdd(rows, r, r.arm, Scored(Loss));
    CountAdd(rows, r, r.arm, Scored(Draw));
    CountAdd(rows, r, r.arm, All);
  }

  lemma LastAdd(rows: seq<Signal>, r: Signal, id: string, t: int)
    requires IsLast(rows, id, t)
    ensures IsLast(rows + [r], id, if r.arm == id && r.at > t then r.at else t)
  {
    var more := rows + [r];
    assert forall x :: x in more <==> x in rows || x == r;
    if t > 0 {
      var y :| y in rows && y.arm == id && y.at == t;
      assert y in more;
    }
  }

  lemma CaptionAdd(rows: seq<Signal>, r: Signal, id: string, caption: string)
    requires Captioned(rows, id, caption) || (id == r.arm && caption == r.caption)
    ensures Captioned(rows + [r], id, caption)
  {
    var more := rows + [r];
    if Captioned(rows, id, caption) {
      var x :| x in rows && x.arm == id && caption == x.caption;
      assert x in more;
    } else {
      assert r in more;
    }
  }

  lemma {:induction false} NoSignals(rows: seq<Signal>, id: string, q: Query)
    requires !Present(rows, id)
    ensures Count(rows, id, q) == 0
  {
    if rows != [] {
      assert rows[0] in rows;
      assert forall x :: x in rows[1..] ==> x in rows;
      NoSignals(rows[1..], id, q);
    }
  }

  lemma EmptyCounts(rows: seq<Signal>, r: Signal)
    requires !Present(rows, r.arm)
    ensures Counts(rows, r.arm, Empty(r)) && IsLast(rows, r.arm, 0)
  {
    NoSignals(rows, r.arm, Scored(Win));
    NoSignals(rows, r.arm, Scored(Loss));
    NoSignals(rows, r.arm, Scored(Draw));
    NoSignals(rows, r.arm, All);
  }

  lemma OtherArm(rows: seq<Signal>, r: Signal, id: string, b: Bucket)
    requires IsBucket(rows, id, b) && r.arm != id
    ensures IsBucket(rows + [r], id, b)
  {
    CountsOther(rows, r, id, b);
    CaptionAdd(rows, r, id, b.row.caption);
    LastAdd(rows, r, id, b.row.lastUsed);
  }

  lemma SameArm(rows: seq<Signal>, r: Signal, b: Bucket)
    requires b.row.id == r.arm && Counts(rows, r.arm, b) && IsLast(rows, r.arm, b.row.lastUsed)
    requires b.row.caption == r.caption || Captioned(rows, r.arm, b.row.caption)
    ensures IsBucket(rows + [r], r.arm, Add(b, r))
  {
    CountsSame(rows, r, b);
    CaptionAdd(rows, r, r.arm, b.row.caption);
    LastAdd(rows, r, r.arm, b.row.lastUsed);
  }

  function RowsOf(board: seq<Bucket>): (rs: seq<ArmRow>)
    ensures |rs| == |board| && forall i :: 0 <= i < |rs| ==> rs[i] == board[i].row
  {
    seq(|board|, i requires 0 <= i < |board| => board[i].row)
  }

  /** The reduction: a bucket per arm, in whatever order the map is walked. */
  method Reduce(rows: seq<Turn>) returns (agg: map<string, Bucket>)
    ensures AggOk(AllKeyed(rows), agg)
  {
    agg := map[];
    for n := 0 to |rows|
      invariant AggOk(AllKeyed(rows[..n]), agg)
    {
      var r := Keyed(rows[n]);
      AddSignal(AllKeyed(rows[..n]), agg, r);
      OneMore(rows, n);
      agg := agg[r.arm := Add(if r.arm in agg then agg[r.arm] else Empty(r), r)];
    }
    assert rows[..|rows|] == rows;
  }

  lemma OneMore(rows: seq<Turn>, n: nat)
    requires n < |rows|
    ensures AllKeyed(rows[..n + 1]) == AllKeyed(rows[..n]) + [Keyed(rows[n])]
  {
    MapAppend(rows[..n], [rows[n]], Keyed);
    assert rows[..n + 1] == rows[..n] + [rows[n]];
    assert [rows[n]][1..] == [];
  }

  ghost predicate Lists(agg: map<string, Bucket>, left: set<string>, out: seq<Bucket>) {
    && DistinctIds(out)
    && (forall i :: 0 <= i < |out| ==> out[i].row.id in agg && out[i].row.id !in left && agg[out[i].row.id] == out[i])
    && (forall id :: id in agg && id !in left ==> agg[id] in out)
  }

  method ListBuckets(agg: map<string, Bucket>) returns (out: seq<Bucket>)
    requires forall id :: id in agg ==> agg[id].row.id == id
    ensures Lists(agg, {}, out)
  {
    out := [];
    var left := agg.Keys;
    while left != {}
      invariant left <= agg.Keys && Lists(agg, left, out)
      decreases left
    {
      var id :| id in left;
      left := left - {id};
      out := out + [agg[id]];
    }
  }

  lemma ListedBoard(rows: seq<Signal>, agg: map<string, Bucket>, out: seq<Bucket>, board: seq<Bucket>)
    requires AggOk(rows, agg) && Lists(agg, {}, out) && multiset(board) == multiset(out) && Sorted(board)
    ensures IsBoard(rows, board)
  {
    forall i, j | 0 <= i < j < |board| ensures board[i].row.id != board[j].row.id {
      SortedOnce(board, i, j);
      assert board[i] in multiset(out) && board[j] in multiset(out);
    }
    forall i | 0 <= i < |board| ensures board[i].row.id in agg && IsBucket(rows, board[i].row.id, board[i]) {
      assert board[i] in multiset(out);
    }
    forall id | Present(rows, id) ensures exists i :: 0 <= i < |board| && board[i].row.id == id {
      assert agg[id] in multiset(board);
    }
  }

  lemma SortedOnce(board: seq<Bucket>, i: nat, j: nat)
    requires Sorted(board) && i < j < |board|
    ensures board[i] != board[j]
  {
    if board[i] == board[j] {
      Irreflexive(board[i]);
    }
  }

  lemma Irreflexive(a: Bucket)
    ensures !ArmLess(a, a)
  {
    if Before(a.row.id, a.row.id) { BeforeStrict(a.row.id, a.row.id); }
  }

  /** `buildArmLeaderboard`: the rows of the board of these signals. */
  method BuildArmLeaderboard(rows: seq<Turn>) returns (out: seq<ArmRow>)
    ensures exists board :: IsBoard(AllKeyed(rows), board) && out == RowsOf(board)
  {
    var agg := Reduce(rows);
    var listed := ListBuckets(agg);
    var a := new Bucket[|listed|](i requires 0 <= i < |listed| => listed[i]);
    assert a[..] == listed;
    SortArms(a);
    ListedBoard(AllKeyed(rows), agg, listed, a[..]);
    out := RowsOf(a[..]);
  }

  /* ---- One board per set of signals ---- */

  lemma BucketUnique(rows: seq<Signal>, id: string, a: Bucket, b: Bucket)
    requires Consistent(rows) && IsBucket(rows, id, a) && IsBucket(rows, id, b)
    ensures a == b
  {
  }

  lemma {:induction false} SortedUnique(a: seq<Bucket>, b: seq<Bucket>)
    requires Sorted(a) && Sorted(b) && forall x :: x in a <==> x in b
    ensures a == b
  {
    assert b != [] ==> b[0] in b;
    if a != [] {
      assert a[0] in b && b[0] in a;
      FirstSame(a, b);
      forall x ensures x in a[1..] <==> x in b[1..] {
        assert x in a <==> x == a[0] || x in a[1..];
        assert x in b <==> x == b[0] || x in b[1..];
        FirstOnce(a);
        FirstOnce(b);
      }
      SortedUnique(a[1..], b[1..]);
      assert a == [a[0]] + a[1..] && b == [b[0]] + b[1..];
    }
  }

  lemma FirstOnce(a: seq<Bucket>)
    requires a != [] && Sorted(a)
    ensures a[0] !in a[1..]
  {
    forall k | 0 <= k < |a[1..]| ensures a[1..][k] != a[0] {
      SortedOnce(a, 0, k + 1);
    }
  }

  lemma FirstSame(a: seq<Bucket>, b: seq<Bucket>)
    requires a != [] && b != [] && Sorted(a) && Sorted(b) && a[0] in b && b[0] in a
    ensures a[0] == b[0]
  {
    var i :| 0 <= i < |a| && a[i] == b[0];
    var j :| 0 <= j < |b| && b[j] == a[0];
    if i > 0 && j > 0 {
      LessTransitive(a[0], a[i], a[0]);
      Irreflexive(a[0]);
    }
  }

  lemma {:induction false} CountPermuted(a: seq<Signal>, b: seq<Signal>, id: string, q: Query)
    requires multiset(a) == multiset(b)
    ensures Count(a, id, q) == Count(b, id, q)
    decreases |a|
  {
    if a == [] {
      assert |multiset(b)| == 0;
    } else {
      var k := Find(a, b);
      var left, right := b[..k], b[k + 1..];
      SplitAt(a, b, k);
      CountPermuted(a[1..], left + right, id, q);
      CountAppend(left, right, id, q);
      CountAppend(left, [b[k]] + right, id, q);
      assert ([b[k]] + right)[1..] == right;
    }
  }

  lemma BucketPermuted(rows: seq<Signal>, other: seq<Signal>, id: string, b: Bucket)
    requires multiset(rows) == multiset(other) && IsBucket(rows, id, b)
    ensures IsBucket(other, id, b)
  {
    CountPermuted(rows, other, id, Scored(Win));
    CountPermuted(rows, other, id, Scored(Loss));
    CountPermuted(rows, other, id, Scored(Draw));
    CountPermuted(rows, other, id, All);
    SameSignals(rows, other);
  }

  lemma SameSignals(rows: seq<Signal>, other: seq<Signal>)
    requires multiset(rows) == multiset(other)
    ensures forall r :: r in rows <==> r in other
  {
    assert forall r :: r in rows <==> r in multiset(rows);
    assert forall r :: r in other <==> r in multiset(other);
  }

  /** The board depends on the signals only as a collection: not on the order the
      store lists them in, nor on the order the map of arms is walked in. */
  lemma BoardUnique(rows: seq<Turn>, other: seq<Turn>, a: seq<Bucket>, b: seq<Bucket>)
    requires multiset(rows) == multiset(other) && IsBoard(AllKeyed(rows), a) && IsBoard(AllKeyed(other), b)
    ensures a == b
  {
    MapPermuted(rows, other, Keyed);
    KeyedConsistent(rows);
    KeyedConsistent(other);
    BoardWithin(AllKeyed(rows), AllKeyed(other), a, b);
    BoardWithin(AllKeyed(other), AllKeyed(rows), b, a);
    SortedUnique(a, b);
  }

  lemma BoardWithin(rows: seq<Signal>, other: seq<Signal>, a: seq<Bucket>, b: seq<Bucket>)
    requires multiset(rows) == multiset(other) && IsBoard(rows, a) && IsBoard(other, b) && Consistent(other)
    ensures forall x :: x in a ==> x in b
  {
    SameSignals(rows, other);
    forall x | x in a ensures x in b {
      var i :| 0 <= i < |a| && a[i] == x;
      var r :| r in rows && r.arm == x.row.id;
      assert Present(other, x.row.id);
      var j :| 0 <= j < |b| && b[j].row.id == x.row.id;
      BucketPermuted(rows, other, x.row.id, x);
      BucketUnique(other, x.row.id, x, b[j]);
    }
  }

  /* ---- Conservation ---- */

  function SumTotals(board: seq<Bucket>): nat {
    if board == [] then 0 else SumTotals(board[..|board| - 1]) + board[|board| - 1].total
  }

  /** The totals of the arms of a board, counted over any signals. */
  function SumOver(rows: seq<Signal>, board: seq<Bucket>): nat {
    if board == [] then 0 else SumOver(rows, board[..|board| - 1]) + Count(rows, board[|board| - 1].row.id, All)
  }

  lemma {:induction false} SumAdd(rows: seq<Signal>, r: Signal, board: seq<Bucket>)
    requires DistinctIds(board)
    ensures SumOver(rows + [r], board) == SumOver(rows, board) + One(Listed(board, r.arm))
  {
    if board != [] {
      var n := |board| - 1;
      SumAdd(rows, r, board[..n]);
      CountAdd(rows, r, board[n].row.id, All);
      assert Listed(board, r.arm) <==> Listed(board[..n], r.arm) || board[n].row.id == r.arm;
      assert Listed(board[..n], r.arm) ==> board[n].row.id != r.arm;
    }
  }

  predicate Listed(board: seq<Bucket>, id: string) { exists i :: 0 <= i < |board| && board[i].row.id == id }

  lemma {:induction false} SumEmpty(board: seq<Bucket>)
    ensures SumOver([], board) == 0
  {
    if board != [] { SumEmpty(board[..|board| - 1]); }
  }

  lemma {:induction false} SumSignals(rows: seq<Signal>, board: seq<Bucket>)
    requires DistinctIds(board) && forall r :: r in rows ==> Listed(board, r.arm)
    ensures SumOver(rows, board) == |rows|
  {
    if rows == [] {
      SumEmpty(board);
    } else {
      var front, r := rows[..|rows| - 1], rows[|rows| - 1];
      assert rows == front + [r];
      SumSignals(front, board);
      SumAdd(front, r, board);
    }
  }

  lemma {:induction false} SumIsOver(rows: seq<Signal>, board: seq<Bucket>)
    requires forall i :: 0 <= i < |board| ==> board[i].total == Count(rows, board[i].row.id, All)
    ensures SumTotals(board) == SumOver(rows, board)
  {
    if board != [] { SumIsOver(rows, board[..|board| - 1]); }
  }

  /** No signal is lost or counted twice: the arms' totals add up to the signals. */
  lemma TotalsAddUp(rows: seq<Turn>, board: seq<Bucket>)
    requires IsBoard(AllKeyed(rows), board)
    ensures SumTotals(board) == |rows|
  {
    var all := AllKeyed(rows);
    forall r | r in all ensures Listed(board, r.arm) {
      assert Present(all, r.arm);
    }
    SumSignals(all, board);
    SumIsOver(all, board);
  }

  lemma {:induction false} VerdictsSplit(rows: seq<Signal>, id: string)
    ensures Count(rows, id, All) == Count(rows, id, Scored(Win)) + Count(rows, id, Scored(Loss))
      + Count(rows, id, Scored(Draw)) + Count(rows, id, Scored(Other))
    ensures Count(rows, id, Scored(Other)) == 0 <==> forall r :: r in rows && r.arm == id ==> !r.verdict.Unknown?
  {
    if rows != [] {
      VerdictsSplit(rows[1..], id);
      assert forall x :: x in rows <==> x in rows[1..] || x == rows[0];
    }
  }

  /** Wins, losses and draws account for every signal of an arm exactly when none
      of its signals has a label the switch does not know. */
  lemma VerdictsAddUpIff(rows: seq<Signal>, b: Bucket)
    requires IsBucket(rows, b.row.id, b)
    ensures b.row.wins + b.row.losses + b.row.draws <= b.total
    ensures b.row.wins + b.row.losses + b.row.draws == b.total
      <==> forall r :: r in rows && r.arm == b.row.id ==> !r.verdict.Unknown?
  {
    VerdictsSplit(rows, b.row.id);
  }
}
