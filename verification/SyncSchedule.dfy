/** The pull schedule of `cmd/mcplexer/task_sync_sched.go` and the serving side
    of `cmd/mcplexer/task_sync_wire.go`. */
module SyncSchedule {
  import opened Text
  import opened TaskSync

  const MAX_WORKSPACES_PER_HELLO: nat := 256

  /** One line of a Hello: the remote workspace, the local one and the cursor. */
  datatype Ask = Ask(remote: string, local: string, since: Hlc)

  /** A membership row as the store lists it, with its local workspace. */
  datatype Listed = Listed(local: string, row: Membership)

  predicate Eligible(m: Listed, only: string) {
    && m.row.status == Active && m.row.home != "" && m.row.remote != "" && m.local != ""
    && (only == "" || m.row.home == only)
  }

  /** What one peer is asked for: its eligible memberships, in listing order. */
  function AsksOf(ms: seq<Listed>, only: string, peer: string): seq<Ask> {
    if ms == [] then []
    else
      var m := ms[|ms| - 1];
      AsksOf(ms[..|ms| - 1], only, peer)
        + (if Eligible(m, only) && m.row.home == peer then [Ask(m.row.remote, m.local, m.row.cursor)] else [])
  }

  /** Grouping by peer: a peer appears exactly when it is asked for something. */
  method LinkedWorkspacesByPeer(ms: seq<Listed>, only: string) returns (out: map<string, seq<Ask>>)
    ensures forall p :: p in out <==> AsksOf(ms, only, p) != []
    ensures forall p :: p in out ==> out[p] == AsksOf(ms, only, p)
  {
    out := map[];
    for i := 0 to |ms|
      invariant forall p :: p in out <==> AsksOf(ms[..i], only, p) != []
      invariant forall p :: p in out ==> out[p] == AsksOf(ms[..i], only, p)
    {
      assert ms[..i + 1][..i] == ms[..i];
      var m := ms[i];
      if m.row.status != Active || m.row.home == "" || m.row.remote == "" || m.local == "" { continue; }
      if only != "" && m.row.home != only { continue; }
      var asked := if m.row.home in out then out[m.row.home] else [];
      out := out[m.row.home := asked + [Ask(m.row.remote, m.local, m.row.cursor)]];
    }
    assert ms[..|ms|] == ms;
  }

  /** Nothing is asked of a peer but its own active, fully named memberships. */
  lemma {:induction false} AskedOnlyOfHome(ms: seq<Listed>, only: string, peer: string, a: Ask)
    ensures a in AsksOf(ms, only, peer) <==>
      exists m :: m in ms && Eligible(m, only) && m.row.home == peer && a == Ask(m.row.remote, m.local, m.row.cursor)
  {
    if ms != [] {
      AskedOnlyOfHome(ms[..|ms| - 1], only, peer, a);
      assert forall m :: m in ms <==> m in ms[..|ms| - 1] || m == ms[|ms| - 1];
    }
  }

  function Concat(hellos: seq<seq<Ask>>): seq<Ask> {
    if hellos == [] then [] else Concat(hellos[..|hellos| - 1]) + hellos[|hellos| - 1]
  }

  /** Hellos within the protocol's limit, every one but the last full. */
  predicate Chunked(hellos: seq<seq<Ask>>) {
    && (forall i :: 0 <= i < |hellos| ==> 0 < |hellos[i]| <= MAX_WORKSPACES_PER_HELLO)
    && (forall i :: 0 <= i < |hellos| - 1 ==> |hellos[i]| == MAX_WORKSPACES_PER_HELLO)
  }

  lemma OneMoreHello(hellos: seq<seq<Ask>>, chunk: seq<Ask>)
    requires Chunked(hellos) && 0 < |chunk| <= MAX_WORKSPACES_PER_HELLO
    requires hellos == [] || |hellos[|hellos| - 1]| == MAX_WORKSPACES_PER_HELLO
    ensures Chunked(hellos + [chunk]) && Concat(hellos + [chunk]) == Concat(hellos) + chunk
  {
    assert (hellos + [chunk])[..|hellos|] == hellos;
  }

  /** `syncPeer`, with the outcome of each dial and of the outbox retry given, `None`
      if there is no outbox: the Hellos tried are cut from the list in order, each
      within the protocol's limit; the outbox is retried exactly when no dial fails,
      else the last Hello tried is the first that failed; a failing retry fails the
      call. */
  method SyncPeer(asks: seq<Ask>, dialOk: nat -> bool, outbox: Option<bool>)
    returns (hellos: seq<seq<Ask>>, retried: bool, ok: bool)
    ensures Concat(hellos) <= asks
    ensures Chunked(hellos)
    ensures forall i :: 0 <= i < |hellos| - 1 ==> dialOk(i)
    ensures retried <==> Concat(hellos) == asks && (hellos == [] || dialOk(|hellos| - 1)) && outbox.Some?
    ensures ok <==> Concat(hellos) == asks && (hellos == [] || dialOk(|hellos| - 1)) && outbox != Some(false)
  {
    hellos, retried, ok := [], false, false;
    var start := 0;
    while start < |asks|
      invariant 0 <= start <= |asks| && !ok && !retried
      invariant Concat(hellos) == asks[..start]
      invariant Chunked(hellos) && forall i :: 0 <= i < |hellos| ==> dialOk(i)
      invariant start < |asks| ==> hellos == [] || |hellos[|hellos| - 1]| == MAX_WORKSPACES_PER_HELLO
    {
      var end := start + MAX_WORKSPACES_PER_HELLO;
      if end > |asks| { end := |asks|; }
      var chunk := asks[start..end];
      OneMoreHello(hellos, chunk);
      assert asks[..start] + chunk == asks[..end];
      hellos := hellos + [chunk];
      start := end;
      if !dialOk(|hellos| - 1) { return; }
    }
    assert asks[..|asks|] == asks;
    retried, ok := outbox.Some?, outbox != Some(false);
  }

  /* ---- Serving ---- */

  /** What the authoriser and the ledger say of one row. */
  datatype Verdict = Readable | Unreadable | OtherWorkspace | CheckFails | LedgerFails

  datatype TaskRow = TaskRow(task: string, hlc: Hlc)

  predicate Fatal(v: Verdict) { v.CheckFails? || v.LedgerFails? }

  function Readables(rows: seq<TaskRow>, verdict: TaskRow -> Verdict): seq<TaskRow> {
    if rows == [] then []
    else
      Readables(rows[..|rows| - 1], verdict) + (if verdict(rows[|rows| - 1]).Readable? then [rows[|rows| - 1]] else [])
  }

  class Source {
    /** The disclosure ledger, in the order rows were recorded. */
    var ledger: seq<TaskRow>

    constructor ()
      ensures ledger == []
    {
      ledger := [];
    }

    /** `ListTasksSinceHLC` after its query: every row it returns has been written
        to the ledger by this very call, and nothing else has; on a failure
        nothing is returned, and the ledger keeps what was recorded before it. */
    method List(rows: seq<TaskRow>, verdict: TaskRow -> Verdict) returns (sent: Option<seq<TaskRow>>)
      modifies this
      ensures old(ledger) <= ledger
      ensures sent.Some? <==> forall i :: 0 <= i < |rows| ==> !Fatal(verdict(rows[i]))
      ensures sent.Some? ==> sent.value == Readables(rows, verdict) && ledger == old(ledger) + sent.value
      ensures sent.None? ==>
        exists k :: 0 <= k < |rows| && Fatal(verdict(rows[k])) && ledger == old(ledger) + Readables(rows[..k], verdict)
          && forall j :: 0 <= j < k ==> !Fatal(verdict(rows[j]))
    {
      var out := [];
      for i := 0 to |rows|
        invariant out == Readables(rows[..i], verdict) && ledger == old(ledger) + out
        invariant forall j :: 0 <= j < i ==> !Fatal(verdict(rows[j]))
      {
        assert rows[..i + 1][..i] == rows[..i];
        var v := verdict(rows[i]);
        if v.Unreadable? || v.OtherWorkspace? { continue; }
        if v.CheckFails? || v.LedgerFails? { return None; }
        ledger := ledger + [rows[i]];
        out := out + [rows[i]];
      }
      assert rows[..|rows|] == rows;
      return Some(out);
    }
  }
}
