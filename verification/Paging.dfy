/** How far repeated catch-up sessions get, when nothing fails and the home is
    quiet: `streamWorkspace` stops at the first short page, and a page is short
    whenever the read check removes a row the limit had already counted. */
module Paging {
  import opened TaskSync
  import opened CatchUp

  /** The rows one session sends, given the rows after its watermark. */
  function Stream(rows: seq<HomeRow>, batch: nat): seq<HomeRow>
    requires batch > 0
    decreases |rows|
  {
    var page := PageRows(rows, batch);
    if |page| < batch || |rows| < batch then page else page + Stream(rows[batch..], batch)
  }

  /** How many rows lie at or before the last row a session sends. */
  function Consumed(rows: seq<HomeRow>, batch: nat): (n: nat)
    requires batch > 0
    ensures n <= |rows|
    decreases |rows|
  {
    var page := PageRows(rows, batch);
    if |page| < batch || |rows| < batch then LastVisible(Take(rows, batch))
    else batch + Consumed(rows[batch..], batch)
  }

  /** One past the last readable row, 0 if there is none. */
  function LastVisible(rows: seq<HomeRow>): (n: nat)
    ensures n <= |rows|
  {
    if rows == [] then 0
    else if rows[|rows| - 1].visible then |rows|
    else LastVisible(rows[..|rows| - 1])
  }

  /** Everything session after session sends, until one sends nothing. */
  function Delivered(rows: seq<HomeRow>, batch: nat): seq<HomeRow>
    requires batch > 0
    decreases |rows|
  {
    var n := Consumed(rows, batch);
    if n == 0 then [] else Stream(rows, batch) + Delivered(rows[n..], batch)
  }

  /** The loop of `streamWorkspace` over the pages of the store. */
  method StreamWorkspace(rows: seq<HomeRow>, batch: nat) returns (sent: seq<HomeRow>)
    requires batch > 0
    ensures sent == Stream(rows, batch)
  {
    sent := [];
    var rest := rows;
    while true
      invariant sent + Stream(rest, batch) == Stream(rows, batch)
      decreases |rest|
    {
      var page := PageRows(rest, batch);
      VisibleLength(Take(rest, batch));
      if |page| == 0 { return; }
      sent := sent + page;
      if |page| < batch { return; }
      FullPage(rest, batch);
      if |rest| == batch { EmptyStream(batch); }
      rest := rest[batch..];
    }
  }

  lemma {:induction false} VisibleLength(rows: seq<HomeRow>)
    ensures |Visible(rows)| <= |rows|
    ensures |Visible(rows)| == |rows| ==> Visible(rows) == rows
  {
    if rows != [] { VisibleLength(rows[1..]); }
  }

  /** A full page is the whole of what the limit let through. */
  lemma FullPage(rows: seq<HomeRow>, batch: nat)
    requires batch > 0 && |PageRows(rows, batch)| >= batch
    ensures |rows| >= batch && PageRows(rows, batch) == rows[..batch]
  {
    VisibleLength(Take(rows, batch));
    assert |rows| == batch ==> rows[..batch] == rows;
  }

  lemma EmptyStream(batch: nat)
    requires batch > 0
    ensures Stream([], batch) == []
  {
  }

  lemma {:induction false} VisibleAppend(a: seq<HomeRow>, b: seq<HomeRow>)
    ensures Visible(a + b) == Visible(a) + Visible(b)
  {
    if a == [] {
      assert a + b == b;
    } else {
      VisibleAppend(a[1..], b);
      assert (a + b)[1..] == a[1..] + b;
    }
  }

  lemma {:induction false} LastVisibleSpec(rows: seq<HomeRow>)
    ensures var n := LastVisible(rows);
      && Visible(rows[..n]) == Visible(rows) && Visible(rows[n..]) == [] && (n > 0 ==> rows[n - 1].visible)
  {
    if rows != [] && !rows[|rows| - 1].visible {
      var front, n := rows[..|rows| - 1], LastVisible(rows);
      LastVisibleSpec(front);
      VisibleAppend(front, rows[|rows| - 1..]);
      assert rows == front + rows[|rows| - 1..];
      assert rows[..n] == front[..n];
      VisibleAppend(front[n..], rows[|rows| - 1..]);
      assert rows[n..] == front[n..] + rows[|rows| - 1..];
    } else {
      assert rows[..|rows|] == rows;
    }
  }

  /** `batch` rows in a row that the mirror may not read. */
  predicate Wall(rows: seq<HomeRow>, k: nat, batch: nat) {
    k + batch <= |rows| && forall i :: k <= i < k + batch ==> !rows[i].visible
  }

  lemma {:induction false} NoneVisible(rows: seq<HomeRow>)
    ensures Visible(rows) == [] <==> forall i :: 0 <= i < |rows| ==> !rows[i].visible
  {
    if rows != [] {
      NoneVisible(rows[1..]);
      assert forall i :: 0 < i < |rows| ==> rows[i] == rows[1..][i - 1];
    }
  }

  /** What one session sends is everything readable up to the last row it sends,
      and no wall begins before that row. */
  ghost predicate SendsUpTo(rows: seq<HomeRow>, batch: nat, sent: seq<HomeRow>, n: nat) {
    && n <= |rows| && sent == Visible(rows[..n]) && (n > 0 ==> rows[n - 1].visible)
    && (forall k :: 0 <= k < n ==> !Wall(rows, k, batch))
  }

  lemma LastPage(rows: seq<HomeRow>, batch: nat)
    requires batch > 0
    ensures SendsUpTo(rows, batch, PageRows(rows, batch), LastVisible(Take(rows, batch)))
  {
    var head := Take(rows, batch);
    var n := LastVisible(head);
    LastVisibleSpec(head);
    assert rows[..n] == head[..n];
    forall k | 0 <= k < n ensures !Wall(rows, k, batch) {
      assert k <= n - 1 < k + batch;
    }
  }

  lemma MorePages(rows: seq<HomeRow>, batch: nat, sent: seq<HomeRow>, m: nat)
    requires 0 < batch <= |rows| && Visible(rows[..batch]) == rows[..batch]
    requires SendsUpTo(rows[batch..], batch, sent, m)
    ensures SendsUpTo(rows, batch, rows[..batch] + sent, batch + m)
  {
    var rest, n := rows[batch..], batch + m;
    VisibleAppend(rows[..batch], rest[..m]);
    assert rows[..n] == rows[..batch] + rest[..m];
    AllVisible(rows[..batch]);
    assert rows[n - 1] == if m > 0 then rest[m - 1] else rows[..batch][batch - 1];
    forall k | 0 <= k < n ensures !Wall(rows, k, batch) {
      if k < batch {
        assert rows[k] == rows[..batch][k];
      } else if Wall(rows, k, batch) {
        WallShift(rows, k, batch);
      }
    }
  }

  lemma {:induction false} StreamSpec(rows: seq<HomeRow>, batch: nat)
    requires batch > 0
    ensures SendsUpTo(rows, batch, Stream(rows, batch), Consumed(rows, batch))
    decreases |rows|
  {
    if |PageRows(rows, batch)| < batch || |rows| < batch {
      LastPage(rows, batch);
    } else {
      FullPage(rows, batch);
      StreamSpec(rows[batch..], batch);
      FullTake(rows, batch);
      MorePages(rows, batch, Stream(rows[batch..], batch), Consumed(rows[batch..], batch));
    }
  }

  lemma FullTake(rows: seq<HomeRow>, batch: nat)
    requires batch <= |rows|
    ensures Take(rows, batch) == rows[..batch]
  {
    if |rows| == batch { assert rows[..batch] == rows; }
  }

  lemma {:induction false} AllVisible(rows: seq<HomeRow>)
    requires Visible(rows) == rows
    ensures forall i :: 0 <= i < |rows| ==> rows[i].visible
  {
    if rows != [] {
      VisibleLength(rows[1..]);
      AllVisible(rows[1..]);
      assert forall i :: 0 < i < |rows| ==> rows[i] == rows[1..][i - 1];
    }
  }

  lemma WallShift(rows: seq<HomeRow>, k: nat, n: nat)
    requires n <= k && Wall(rows, k, n)
    ensures Wall(rows[n..], k - n, n)
  {
  }

  /** The catch-up stalls: a wall stands before a row the mirror may read. */
  ghost predicate Stalled(rows: seq<HomeRow>, batch: nat) {
    exists k: nat :: Wall(rows, k, batch) && Visible(rows[k + batch..]) != []
  }

  lemma StalledAfter(rows: seq<HomeRow>, n: nat, batch: nat)
    requires n <= |rows| && forall k :: 0 <= k < n ==> !Wall(rows, k, batch)
    ensures Stalled(rows, batch) <==> Stalled(rows[n..], batch)
  {
    if Stalled(rows, batch) {
      var k: nat :| Wall(rows, k, batch) && Visible(rows[k + batch..]) != [];
      assert Wall(rows[n..], k - n, batch);
      assert rows[n..][k - n + batch..] == rows[k + batch..];
    }
    if Stalled(rows[n..], batch) {
      var k: nat :| Wall(rows[n..], k, batch) && Visible(rows[n..][k + batch..]) != [];
      assert forall i :: k + n <= i < k + n + batch ==> rows[i] == rows[n..][i - n];
      assert Wall(rows, k + n, batch);
      assert rows[n..][k + batch..] == rows[k + n + batch..];
    }
  }

  /** Sessions that never fail deliver every readable row if and only if no
      `batch` consecutive unreadable rows stand before a readable one. */
  lemma {:induction false} CatchUpCompleteIff(rows: seq<HomeRow>, batch: nat)
    requires batch > 0
    ensures Delivered(rows, batch) == Visible(rows) <==> !Stalled(rows, batch)
    decreases |rows|
  {
    var n := Consumed(rows, batch);
    StreamSpec(rows, batch);
    if n == 0 {
      Stuck(rows, batch);
    } else {
      assert rows == rows[..n] + rows[n..];
      VisibleAppend(rows[..n], rows[n..]);
      CatchUpCompleteIff(rows[n..], batch);
      StalledAfter(rows, n, batch);
      SamePrefix(Stream(rows, batch), Delivered(rows[n..], batch), Visible(rows[n..]));
    }
  }

  lemma SamePrefix(a: seq<HomeRow>, b: seq<HomeRow>, c: seq<HomeRow>)
    ensures a + b == a + c <==> b == c
  {
    assert (a + b)[|a|..] == b && (a + c)[|a|..] == c;
  }

  lemma Stuck(rows: seq<HomeRow>, batch: nat)
    requires batch > 0 && Consumed(rows, batch) == 0
    ensures Visible(rows) == [] <==> !Stalled(rows, batch)
  {
    var head := Take(rows, batch);
    LastVisibleSpec(head);
    VisibleLength(head);
    assert head[0..] == head;
    NoneVisible(head);
    NoneVisible(rows);
    if |rows| >= batch {
      assert head == rows[..batch];
      assert forall i :: 0 <= i < batch ==> rows[i] == head[i];
      assert Wall(rows, 0, batch);
      VisibleAppend(head, rows[batch..]);
      assert rows == head + rows[batch..];
    }
    if Stalled(rows, batch) {
      var k: nat :| Wall(rows, k, batch) && Visible(rows[k + batch..]) != [];
      NoneVisible(rows[k + batch..]);
    }
  }
}
