/** The receiving side of task gossip: the memberships of a mirror daemon, the
    mirror rows, and the sink of `cmd/mcplexer/task_sync_wire.go` that admits
    events and access receipts from peers. */
module TaskSync {
  import opened Text

  /** A hybrid logical clock stamp. Stamps are only compared; 0 is the empty one. */
  type Hlc = nat

  datatype Status = Active | Revoked

  /** A membership row; the map that holds it is keyed by local workspace. */
  datatype Membership = Membership(
    share: string, home: string, remote: string,
    caps: set<string>, epoch: int, status: Status, cursor: Hlc)

  datatype Event = Event(task: string, ws: string, hlc: Hlc, title: string)

  datatype AccessStatus = GrantActive | GrantRevoked | GrantOther

  datatype Access = Access(
    share: string, remote: string, ws: string, epoch: int, caps: set<string>, status: AccessStatus)

  /** A mirror row: its workspace and the home revision it holds. */
  datatype Row = Row(ws: string, hlc: Hlc)

  datatype Mirror = Mirror(members: map<string, Membership>, tasks: map<string, Row>)

  datatype Outcome = Ok | Denied | Failed

  /** Where a store call fails: before the row is written, or after it but before
      the cursor is. */
  datatype Fault = NoFault | BeforeWrite | AfterWrite

  predicate Admits(m: Mirror, from: string, ws: string) {
    ws in m.members && m.members[ws].status == Active && m.members[ws].home == from
  }

  /** `ApplyAuthoritativeRemoteEvent`; `None` is an error before the row is written. */
  function ApplyTask(tasks: map<string, Row>, e: Event): Option<map<string, Row>> {
    if e.task == "" || e.hlc == 0 || e.ws == "" then None
    else if e.task in tasks then
      if tasks[e.task].ws != e.ws then Some(tasks) else Some(tasks[e.task := Row(e.ws, e.hlc)])
    else if e.title == "" then None
    else Some(tasks[e.task := Row(e.ws, e.hlc)])
  }

  function Advance(mb: Membership, hlc: Hlc): Membership {
    if mb.cursor < hlc then mb.(cursor := hlc) else mb
  }

  function ApplyEvent(m: Mirror, from: string, e: Event, f: Fault): (Mirror, Outcome) {
    if !Admits(m, from, e.ws) then (m, Denied)
    else if f == BeforeWrite || ApplyTask(m.tasks, e).None? then (m, Failed)
    else
      var written := m.(tasks := ApplyTask(m.tasks, e).value);
      if f == AfterWrite then (written, Failed)
      else (written.(members := m.members[e.ws := Advance(m.members[e.ws], e.hlc)]), Ok)
  }

  predicate Named(m: Mirror, from: string, a: Access) {
    && a.ws != "" && a.ws in m.members
    && m.members[a.ws].home == from && m.members[a.ws].share == a.share && m.members[a.ws].remote == a.remote
  }

  function ApplyAccess(m: Mirror, from: string, a: Access, f: Fault): (Mirror, Outcome) {
    if !Named(m, from, a) then (m, Denied)
    else
      var mb := m.members[a.ws];
      if a.status.GrantRevoked? then
        if f != NoFault then (m, Failed)
        else (m.(members := m.members[a.ws := mb.(status := Revoked)]), Ok)
      else if !a.status.GrantActive? || a.epoch < mb.epoch then (m, Denied)
      else if f != NoFault || a.epoch < 1 then (m, Failed)
      else (m.(members := m.members[a.ws := mb.(caps := a.caps, epoch := a.epoch, status := Active)]), Ok)
  }

  /** The sink over its stores, as the wire layer holds it. */
  class Sink {
    var members: map<string, Membership>
    var tasks: map<string, Row>

    constructor (m: Mirror)
      ensures State() == m
    {
      members, tasks := m.members, m.tasks;
    }

    function State(): Mirror
      reads this
    {
      Mirror(members, tasks)
    }

    method ApplyRemoteEvent(from: string, e: Event, f: Fault) returns (o: Outcome)
      modifies this
      ensures (State(), o) == ApplyEvent(old(State()), from, e, f)
    {
      if e.ws !in members || members[e.ws].status != Active || members[e.ws].home != from { return Denied; }
      var membership := members[e.ws];
      var applied := ApplyTask(tasks, e);
      if f == BeforeWrite || applied.None? { return Failed; }
      tasks := applied.value;
      if f == AfterWrite { return Failed; }
      if membership.cursor < e.hlc { membership := membership.(cursor := e.hlc); }
      members := members[e.ws := membership];
      return Ok;
    }

    method ApplyWorkspaceAccess(from: string, a: Access, f: Fault) returns (o: Outcome)
      modifies this`members
      ensures (State(), o) == ApplyAccess(old(State()), from, a, f)
    {
      if a.ws == "" || a.ws !in members { return Denied; }
      var membership := members[a.ws];
      if membership.home != from || membership.share != a.share || membership.remote != a.remote { return Denied; }
      if a.status.GrantRevoked? {
        if f != NoFault { return Failed; }
        members := members[a.ws := membership.(status := Revoked)];
        return Ok;
      }
      if !a.status.GrantActive? || a.epoch < membership.epoch { return Denied; }
      if f != NoFault || a.epoch < 1 { return Failed; }
      members := members[a.ws := membership.(caps := a.caps, epoch := a.epoch, status := Active)];
      return Ok;
    }
  }

  /* ---- Runs of messages from any peers ---- */

  datatype Msg =
    | EventMsg(from: string, event: Event, fault: Fault)
    | AccessMsg(from: string, access: Access, fault: Fault)

  function Deliver(m: Mirror, msg: Msg): Mirror {
    match msg
    case EventMsg(from, e, f) => ApplyEvent(m, from, e, f).0
    case AccessMsg(from, a, f) => ApplyAccess(m, from, a, f).0
  }

  function DeliverAll(m: Mirror, msgs: seq<Msg>): Mirror
    decreases |msgs|
  {
    if msgs == [] then m else DeliverAll(Deliver(m, msgs[0]), msgs[1..])
  }

  /** What the local workspace holds: its membership and its rows. */
  ghost predicate SameWorkspace(m: Mirror, n: Mirror, ws: string) {
    && (ws in m.members <==> ws in n.members)
    && (ws in m.members ==> m.members[ws] == n.members[ws])
    && SameRows(m, n, ws)
  }

  ghost predicate SameRows(m: Mirror, n: Mirror, ws: string) {
    && (forall t :: t in m.tasks && m.tasks[t].ws == ws ==> t in n.tasks && n.tasks[t] == m.tasks[t])
    && (forall t :: t in n.tasks && n.tasks[t].ws == ws ==> t in m.tasks && n.tasks[t] == m.tasks[t])
  }

  /** Only the home peer moves a workspace: whatever everyone else sends, in any
      order and with any fault, its membership and its rows stay as they are. */
  lemma {:induction false} OnlyHomeMoves(m: Mirror, msgs: seq<Msg>, ws: string)
    requires forall i :: 0 <= i < |msgs| && ws in m.members ==> msgs[i].from != m.members[ws].home
    ensures SameWorkspace(m, DeliverAll(m, msgs), ws)
    decreases |msgs|
  {
    if msgs != [] {
      OnlyHomeMovesOnce(m, msgs[0], ws);
      OnlyHomeMoves(Deliver(m, msgs[0]), msgs[1..], ws);
    }
  }

  lemma OnlyHomeMovesOnce(m: Mirror, msg: Msg, ws: string)
    requires ws in m.members ==> msg.from != m.members[ws].home
    ensures SameWorkspace(m, Deliver(m, msg), ws)
  {
  }

  /** Over any run a membership keeps its identity, and its epoch and cursor only grow. */
  ghost predicate Grown(a: Membership, b: Membership) {
    a.share == b.share && a.home == b.home && a.remote == b.remote && a.epoch <= b.epoch && a.cursor <= b.cursor
  }

  lemma {:induction false} MembershipsGrow(m: Mirror, msgs: seq<Msg>)
    ensures DeliverAll(m, msgs).members.Keys == m.members.Keys
    ensures forall ws :: ws in m.members ==> Grown(m.members[ws], DeliverAll(m, msgs).members[ws])
    decreases |msgs|
  {
    if msgs != [] {
      var n := Deliver(m, msgs[0]);
      assert n.members.Keys == m.members.Keys;
      MembershipsGrow(n, msgs[1..]);
      forall ws | ws in m.members ensures Grown(m.members[ws], DeliverAll(m, msgs).members[ws]) {
        assert Grown(m.members[ws], n.members[ws]);
        assert Grown(n.members[ws], DeliverAll(n, msgs[1..]).members[ws]);
      }
    }
  }

  /** A receipt that names this membership: from its home, for its share and its
      remote workspace. */
  predicate NamesMembership(mb: Membership, ws: string, msg: Msg) {
    && msg.AccessMsg? && msg.access.ws == ws && msg.from == mb.home
    && msg.access.share == mb.share && msg.access.remote == mb.remote
  }

  ghost predicate SameGrant(a: Membership, b: Membership) {
    a.status == b.status && a.caps == b.caps && a.epoch == b.epoch
  }

  lemma GrantKept(m: Mirror, msg: Msg, ws: string)
    requires ws in m.members && !NamesMembership(m.members[ws], ws, msg)
    ensures ws in Deliver(m, msg).members && SameGrant(m.members[ws], Deliver(m, msg).members[ws])
    ensures Grown(m.members[ws], Deliver(m, msg).members[ws])
  {
  }

  /** Status, capabilities and epoch change only through receipts that name the
      membership: nothing else anyone sends, the home included, touches them. */
  lemma {:induction false} GrantsMoveOnlyWhenNamed(m: Mirror, msgs: seq<Msg>, ws: string)
    requires ws in m.members && forall i :: 0 <= i < |msgs| ==> !NamesMembership(m.members[ws], ws, msgs[i])
    ensures ws in DeliverAll(m, msgs).members && SameGrant(m.members[ws], DeliverAll(m, msgs).members[ws])
    decreases |msgs|
  {
    if msgs != [] {
      GrantKept(m, msgs[0], ws);
      GrantsMoveOnlyWhenNamed(Deliver(m, msgs[0]), msgs[1..], ws);
    }
  }

  /** At no point of the run is an event of this workspace admitted. */
  predicate NoneAdmitted(m: Mirror, msgs: seq<Msg>, ws: string)
    decreases |msgs|
  {
    msgs != [] ==>
      && !(msgs[0].EventMsg? && msgs[0].event.ws == ws && Admits(m, msgs[0].from, ws))
      && NoneAdmitted(Deliver(m, msgs[0]), msgs[1..], ws)
  }

  /** The cursor and the rows of a workspace change only through events that are
      admitted when they arrive, whatever receipts come in between. */
  lemma {:induction false} CursorMovesOnlyWhenAdmitted(m: Mirror, msgs: seq<Msg>, ws: string)
    requires ws in m.members && NoneAdmitted(m, msgs, ws)
    ensures ws in DeliverAll(m, msgs).members && DeliverAll(m, msgs).members[ws].cursor == m.members[ws].cursor
    ensures SameRows(m, DeliverAll(m, msgs), ws)
    decreases |msgs|
  {
    if msgs != [] {
      var n := Deliver(m, msgs[0]);
      assert ws in n.members && n.members[ws].cursor == m.members[ws].cursor && SameRows(m, n, ws);
      CursorMovesOnlyWhenAdmitted(n, msgs[1..], ws);
    }
  }

  /** The one kind of message that can bring a revoked membership back. */
  predicate Reactivates(mb: Membership, ws: string, msg: Msg) {
    && msg.AccessMsg? && msg.fault == NoFault && msg.access.ws == ws && ws != ""
    && msg.from == mb.home && msg.access.share == mb.share && msg.access.remote == mb.remote
    && msg.access.status.GrantActive? && msg.access.epoch >= mb.epoch && msg.access.epoch >= 1
  }

  lemma RevokedOnce(m: Mirror, msg: Msg, ws: string)
    requires ws in m.members && m.members[ws].status == Revoked
    ensures var n := Deliver(m, msg);
      && ws in n.members && (n.members[ws].status == Revoked <==> !Reactivates(m.members[ws], ws, msg))
      && (n.members[ws].status == Revoked ==> n.members[ws] == m.members[ws])
      && SameRows(m, n, ws)
  {
  }

  /** Revoked now and after every message of the run. */
  predicate RevokedThroughout(m: Mirror, msgs: seq<Msg>, ws: string)
    decreases |msgs|
  {
    && ws in m.members && m.members[ws].status == Revoked
    && (msgs == [] || RevokedThroughout(Deliver(m, msgs[0]), msgs[1..], ws))
  }

  /** A revoked workspace stays revoked through a run exactly when no message of
      the run is an active receipt from its home, for its own share, at its epoch
      or later; and while it does, none of its rows change. */
  lemma {:induction false} RevokedUntilRegranted(m: Mirror, msgs: seq<Msg>, ws: string)
    requires ws in m.members && m.members[ws].status == Revoked
    ensures RevokedThroughout(m, msgs, ws)
      <==> (forall i :: 0 <= i < |msgs| ==> !Reactivates(m.members[ws], ws, msgs[i]))
    ensures RevokedThroughout(m, msgs, ws) ==> SameWorkspace(m, DeliverAll(m, msgs), ws)
    decreases |msgs|
  {
    if msgs != [] {
      RevokedOnce(m, msgs[0], ws);
      if !Reactivates(m.members[ws], ws, msgs[0]) {
        RevokedUntilRegranted(Deliver(m, msgs[0]), msgs[1..], ws);
        assert forall i :: 0 < i < |msgs| ==> msgs[i] == msgs[1..][i - 1];
      }
    }
  }

  lemma RowChanges(m: Mirror, msg: Msg, t: string)
    requires t in Deliver(m, msg).tasks
    requires t in m.tasks ==> m.tasks[t] != Deliver(m, msg).tasks[t]
    ensures msg.EventMsg? && msg.event.task == t && Admits(m, msg.from, msg.event.ws)
    ensures Deliver(m, msg).tasks[t] == Row(msg.event.ws, msg.event.hlc)
    ensures t in m.tasks ==> m.tasks[t].ws == msg.event.ws
  {
  }

  lemma {:induction false} DeliverLast(m: Mirror, msgs: seq<Msg>, last: Msg)
    ensures DeliverAll(m, msgs + [last]) == Deliver(DeliverAll(m, msgs), last)
    decreases |msgs|
  {
    if msgs == [] {
      assert msgs + [last] == [last] && [last][1..] == [];
    } else {
      DeliverLast(Deliver(m, msgs[0]), msgs[1..], last);
      assert (msgs + [last])[1..] == msgs[1..] + [last];
    }
  }

  /** Over any run a row ends up different only through an event that was admitted when
      it arrived, its workspace active and the sender that workspace's home; the row is
      that event's revision, and it never moves to another workspace. */
  lemma {:induction false} RowChangeIsAdmitted(m: Mirror, msgs: seq<Msg>, t: string) returns (k: nat)
    requires t in DeliverAll(m, msgs).tasks
    requires t in m.tasks ==> m.tasks[t] != DeliverAll(m, msgs).tasks[t]
    ensures k < |msgs| && msgs[k].EventMsg? && msgs[k].event.task == t
    ensures Admits(DeliverAll(m, msgs[..k]), msgs[k].from, msgs[k].event.ws)
    ensures DeliverAll(m, msgs).tasks[t] == Row(msgs[k].event.ws, msgs[k].event.hlc)
    ensures t in m.tasks ==> m.tasks[t].ws == msgs[k].event.ws
    decreases |msgs|
  {
    var n := |msgs| - 1;
    var before := DeliverAll(m, msgs[..n]);
    DeliverLast(m, msgs[..n], msgs[n]);
    assert msgs[..n] + [msgs[n]] == msgs;
    if t in before.tasks && before.tasks[t] == DeliverAll(m, msgs).tasks[t] {
      k := RowChangeIsAdmitted(m, msgs[..n], t);
      assert msgs[..n][..k] == msgs[..k];
    } else {
      k := n;
      RowChanges(before, msgs[n], t);
      RowsStayPut(m, msgs[..n], t);
    }
  }

  /** A row stays and keeps its workspace. */
  lemma {:induction false} RowsStayPut(m: Mirror, msgs: seq<Msg>, t: string)
    ensures t in m.tasks ==> t in DeliverAll(m, msgs).tasks && DeliverAll(m, msgs).tasks[t].ws == m.tasks[t].ws
    decreases |msgs|
  {
    if msgs != [] { RowsStayPut(Deliver(m, msgs[0]), msgs[1..], t); }
  }
}
