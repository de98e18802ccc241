/**
 A rotation and its queue. Between two steps a rotation lives on only as a job; here its steps,
 the queue's statements, crashes and operators come in any order, over the protocol's states and
 the queue's rows. A step is one event, whatever it did; anything may come between a step, the
 job it queues next, and the outcome recorded for its own.
 */
module RotationQueue {
  import opened Options
  import opened RotationProtocol
  import opened RotationSafety
  import opened RotationTheorems
  import Queue = JobQueue
  import Runner = JobSafety

  datatype Idem = StepKey(rotation: nat, state: State, wave: nat) | OtherKey(name: string)

  type Table = Queue.Table<Idem>
  type Row = Queue.Job<Idem>
  type JobId = Queue.JobId

  /** What the process running a job still has to do: the step, queueing the next, recording the outcome. */
  datatype Owes = Stepping | Asking | Outcome(verdict: Runner.Verdict)

  datatype Sys = Sys(w: World, rows: Table, busy: map<JobId, Owes>)

  /** How a step ends: the process dies in it, it asks for another, has nothing more to do, fails, or fails for good. */
  datatype End = Dies | Asks | Ends | Errs | GivesUp

  datatype Event =
    | Rotate(a: RunAction) | Enqueue(id: JobId, at: int)
    | Begin(job: JobId, worker: Queue.Worker, at: int) | Step(job: JobId, acts: seq<Action>, end: End)
    | Next(job: JobId, id: JobId, at: int) | Record(job: JobId, at: int, until: int) | Die(job: JobId)
    | Reap(at: int, ttl: int) | Cancel(job: JobId) | Other(id: JobId, row: Row)

  // ---- the jobs of one rotation ----

  predicate Ours(rotation: nat, key: Option<Idem>) {
    key.Some? && key.value.StepKey? && key.value.rotation == rotation
  }

  predicate OurLive(rotation: nat, rows: Table, j: JobId) {
    j in rows && Queue.Live(rows[j]) && Ours(rotation, rows[j].key)
  }

  ghost predicate HasLive(rotation: nat, rows: Table) {
    exists j :: OurLive(rotation, rows, j)
  }

  function Current(rotation: nat, w: World): Idem {
    StepKey(rotation, w.r.state, w.r.wave)
  }

  /** The job is live and keyed for this step. */
  predicate Due(rows: Table, j: JobId, key: Idem) {
    j in rows && Queue.Live(rows[j]) && rows[j].key == Some(key)
  }

  ghost predicate HasDue(rows: Table, key: Idem) {
    exists j :: Due(rows, j, key)
  }

  function NewJob(key: Idem, at: int): Row {
    Queue.Job(Some(key), "rotation.step", Queue.Queued, 50, 0, 3, at, None, None)
  }

  /** EnqueueNext: nothing for a finished rotation, nor when a live job has the key. */
  ghost function Enqueued(rotation: nat, s: Sys, id: JobId, at: int): Table {
    var key := Current(rotation, s.w);
    if Finished(s.w.r.state) || HasDue(s.rows, key) then s.rows else s.rows[id := NewJob(key, at)]
  }

  predicate Spent(row: Row) {
    row.attempts >= row.maxAttempts
  }

  /** What recording an outcome makes of the job's row. */
  ghost function Recorded(rows: Table, j: JobId, verdict: Runner.Verdict, at: int, until: int): Row
    requires j in rows
  {
    var was := rows[j];
    match verdict
    case Returned => Queue.Unlocked(was, Queue.Succeeded)
    case Permanent =>
      if was.state == Queue.Succeeded || was.state == Queue.Cancelled then was
      else Queue.Unlocked(was, Queue.Dead).(runAfter := at)
    case Transient =>
      if Queue.Retried(was) == Queue.Queued && Queue.Clashes(rows, j, was.key) then was
      else Queue.Unlocked(was, Queue.Retried(was)).(runAfter := until)
  }

  predicate Early(w: World) {
    w.r.state == Soaking && w.r.soakUntil.Some? && w.now < w.r.soakUntil.value
  }

  /** The outcomes a step may have: it moves the rotation on before it asks for more, unless it woke early. */
  predicate EndsAs(c: Config, w: World, v: World, end: End) {
    match end
    case Dies | Errs => true
    case Asks => !Finished(v.r.state) && v.r.state != Awaiting && (Rank(c, v) < Rank(c, w) || (v == w && Early(w)))
    case Ends => Finished(v.r.state) || v.r.state == Awaiting
    case GivesUp => v.r.state == Failed
  }

  /** Start asks for a planned rotation, approval has just made it planned, the minute tick for a closed soak. */
  predicate MayEnqueue(w: World) {
    w.r.state == Planned || (w.r.state == Soaking && w.r.soakUntil.Some? && w.r.soakUntil.value <= w.now)
  }

  ghost predicate Can(c: Config, rotation: nat, s: Sys, ev: Event) {
    match ev
    case Rotate(a) => (a.Tick? || a == Approve || a == Halt(Aborted)) && RunEnabled(c, s.w, a)
    case Enqueue(id, _) => id !in s.rows && MayEnqueue(s.w)
    case Begin(j, _, at) =>
      j in s.rows && Ours(rotation, s.rows[j].key) && Queue.Runnable(s.rows[j], {}, at) && j !in s.busy
    case Step(j, acts, end) =>
      && j in s.busy && s.busy[j] == Stepping
      && var v := Run(c, s.w, acts); v.Some? && v.value.h.pc == Idle && EndsAs(c, s.w, v.value, end)
    case Next(j, id, _) => j in s.busy && s.busy[j] == Asking && id !in s.rows
    case Record(j, _, _) => j in s.busy && s.busy[j].Outcome? && j in s.rows
    case Die(j) => j in s.busy
    case Reap(_, _) => true
    case Cancel(j) => OurLive(rotation, s.rows, j)
    case Other(id, row) => (id in s.rows ==> !Ours(rotation, s.rows[id].key)) && !Ours(rotation, row.key)
  }

  ghost function After(c: Config, rotation: nat, s: Sys, ev: Event): Sys
    requires Can(c, rotation, s, ev)
  {
    match ev
    case Rotate(a) => s.(w := RunEffect(c, s.w, a))
    case Enqueue(id, at) => s.(rows := Enqueued(rotation, s, id, at))
    case Begin(j, worker, at) => s.(rows := s.rows[j := Queue.Leased(s.rows[j], worker, at)], busy := s.busy[j := Stepping])
    case Step(j, acts, end) =>
      var v := Run(c, s.w, acts).value;
      s.(w := v, busy :=
        match end
        case Dies => s.busy - {j}
        case Asks => s.busy[j := Asking]
        case Ends => s.busy[j := Outcome(Runner.Returned)]
        case Errs => s.busy[j := Outcome(Runner.Transient)]
        case GivesUp => s.busy[j := Outcome(Runner.Permanent)])
    case Next(j, id, at) => s.(rows := Enqueued(rotation, s, id, at), busy := s.busy[j := Outcome(Runner.Returned)])
    case Record(j, at, until) =>
      s.(rows := s.rows[j := Recorded(s.rows, j, s.busy[j].verdict, at, until)], busy := s.busy - {j})
    case Die(j) => s.(busy := s.busy - {j})
    case Reap(at, ttl) => s.(rows := map i | i in s.rows :: Queue.Reaped(s.rows[i], at, ttl))
    case Cancel(j) => s.(rows := s.rows[j := s.rows[j].(state := Queue.Cancelled)])
    case Other(id, row) => s.(rows := s.rows[id := row])
  }

  ghost function Play(c: Config, rotation: nat, s: Sys, trace: seq<Event>): Option<Sys> {
    if trace == [] then Some(s)
    else
      match Play(c, rotation, s, trace[..|trace| - 1])
      case None => None
      case Some(v) =>
        if Can(c, rotation, v, trace[|trace| - 1]) then Some(After(c, rotation, v, trace[|trace| - 1])) else None
  }

  /** A rotation just planned: no job is its own yet. */
  ghost predicate Planned0(c: Config, rotation: nat, s: Sys) {
    && Init(c, s.w) && s.busy == map[]
    && forall j :: j in s.rows ==> !Ours(rotation, s.rows[j].key)
  }

  // ---- what every sequence of events keeps ----

  ghost predicate UniqueSteps(rotation: nat, rows: Table) {
    forall i, j :: OurLive(rotation, rows, i) && OurLive(rotation, rows, j) && i != j ==> rows[i].key != rows[j].key
  }

  function KeyRank(c: Config, key: Option<Idem>): int
    requires key.Some? && key.value.StepKey?
  {
    RankOf(c, key.value.state, key.value.wave, false)
  }

  /** No job is keyed by a state still to come. */
  ghost predicate KeysInv(c: Config, rotation: nat, s: Sys) {
    forall j :: j in s.rows && Ours(rotation, s.rows[j].key) ==>
      KeyRank(c, s.rows[j].key) >= Rank(c, s.w) && s.w.r.state != Awaiting
  }

  /** A process past its step has left the state its job was for, unless the step woke early. */
  ghost predicate BusyInv(c: Config, rotation: nat, s: Sys) {
    forall j :: j in s.busy ==>
      && j in s.rows && Ours(rotation, s.rows[j].key)
      && (s.busy[j] == Asking || s.busy[j] == Outcome(Runner.Returned) ==>
          Finished(s.w.r.state) || KeyRank(c, s.rows[j].key) > Rank(c, s.w) || s.w.r.state == Soaking)
      && (s.busy[j] == Outcome(Runner.Permanent) ==> Finished(s.w.r.state))
  }

  ghost predicate SysInv(c: Config, rotation: nat, s: Sys) {
    && Inv(c, s.w) && s.w.h.pc == Idle
    && UniqueSteps(rotation, s.rows) && KeysInv(c, rotation, s) && BusyInv(c, rotation, s)
  }

  lemma StartIsSound(c: Config, rotation: nat, s: Sys)
    requires Planned0(c, rotation, s)
    ensures SysInv(c, rotation, s)
  {
    InvInit(c, s.w);
    hide Inv;
  }

  /** The rotation moves on, if at all; the rows and processes stay. */
  lemma Moved(c: Config, rotation: nat, s: Sys, more: seq<Action>, v: World)
    requires SysInv(c, rotation, s) && Run(c, s.w, more) == Some(v) && v.h.pc == Idle
    ensures SysInv(c, rotation, s.(w := v))
    ensures Finished(s.w.r.state) ==> Finished(v.r.state)
  {
    hide Inv, Run, Rank;
    RankRun(c, s.w, more, v);
    RankOfFinished(c, s.w);
    RankOfFinished(c, v);
    AwaitingIsFirst(c, s.w, v);
    ParametersOf(c, v);
    SoakingIsLow(c, s.w, v);
  }

  lemma AwaitingIsFirst(c: Config, w: World, v: World)
    requires Rank(c, v) <= Rank(c, w)
    ensures v.r.state == Awaiting ==> w.r.state == Awaiting
  {}

  /** Nothing but the soak has its rank. */
  lemma SoakingIsLow(c: Config, w: World, v: World)
    requires v.r.wave <= c.lastWave && Rank(c, v) <= Rank(c, w)
    ensures w.r.state == Soaking ==> v.r.state == Soaking || Finished(v.r.state) || Rank(c, v) < Rank(c, w)
  {}

  lemma RunOne(c: Config, w: World, a: RunAction)
    requires RunEnabled(c, w, a)
    ensures Run(c, w, [OnRun(a)]) == Some(RunEffect(c, w, a))
  {
    hide RunEnabled, RunEffect;
    var acts := [OnRun(a)];
    assert acts[..0] == [] && Enabled(c, w, acts[0]);
    assert Run(c, w, acts[..0]) == Some(w);
  }

  lemma Rotated(c: Config, rotation: nat, s: Sys, a: RunAction)
    requires SysInv(c, rotation, s) && Can(c, rotation, s, Rotate(a))
    ensures SysInv(c, rotation, After(c, rotation, s, Rotate(a)))
  {
    RunOne(c, s.w, a);
    hide Inv, Run, UniqueSteps, KeysInv, BusyInv;
    Moved(c, rotation, s, [OnRun(a)], RunEffect(c, s.w, a));
  }

  lemma Stepped(c: Config, rotation: nat, s: Sys, j: JobId, acts: seq<Action>, end: End)
    requires SysInv(c, rotation, s) && Can(c, rotation, s, Step(j, acts, end))
    ensures SysInv(c, rotation, After(c, rotation, s, Step(j, acts, end)))
  {
    hide Inv, Run, Rank, KeyRank, UniqueSteps;
    var v := Run(c, s.w, acts).value;
    Moved(c, rotation, s, acts, v);
    RankOfFinished(c, s.w);
    RankOfFinished(c, v);
    RankRun(c, s.w, acts, v);
    assert KeyRank(c, s.rows[j].key) >= Rank(c, s.w) && s.w.r.state != Awaiting;
    assert v.r.state != Awaiting;
  }

  lemma EnqueuedKeeps(c: Config, rotation: nat, s: Sys, id: JobId, at: int)
    requires SysInv(c, rotation, s) && id !in s.rows && s.w.r.state != Awaiting
    ensures SysInv(c, rotation, s.(rows := Enqueued(rotation, s, id, at)))
    ensures forall j :: j in s.rows ==> j in Enqueued(rotation, s, id, at) && Enqueued(rotation, s, id, at)[j] == s.rows[j]
    ensures !Finished(s.w.r.state) ==> HasDue(Enqueued(rotation, s, id, at), Current(rotation, s.w))
  {
    hide Inv;
    var rows, key := Enqueued(rotation, s, id, at), Current(rotation, s.w);
    assert RankOf(c, key.state, key.wave, false) == Rank(c, s.w);
    if rows != s.rows {
      assert Due(rows, id, key);
      forall j: JobId | OurLive(rotation, rows, j) && j != id ensures rows[j].key != rows[id].key {
        assert !Due(s.rows, j, key);
      }
      forall i: JobId, j: JobId | OurLive(rotation, rows, i) && OurLive(rotation, rows, j) && i != j ensures rows[i].key != rows[j].key {
        if i != id && j != id { assert OurLive(rotation, s.rows, i) && OurLive(rotation, s.rows, j); }
      }
    }
  }

  /** Rows whose keys stay, and that come alive only where no other job has the key. */
  lemma RowsKeep(c: Config, rotation: nat, s: Sys, rows: Table)
    requires SysInv(c, rotation, s) && rows.Keys == s.rows.Keys
    requires forall j :: j in rows ==> rows[j].key == s.rows[j].key || (!Ours(rotation, rows[j].key) && !Ours(rotation, s.rows[j].key))
    requires forall j :: OurLive(rotation, rows, j) && !OurLive(rotation, s.rows, j) ==>
      forall i :: i in s.rows && i != j ==> rows[i] == s.rows[i] && !(Queue.Live(s.rows[i]) && s.rows[i].key == rows[j].key)
    ensures SysInv(c, rotation, s.(rows := rows))
  {
    hide Inv, Rank, KeyRank;
    forall i: JobId, j: JobId | OurLive(rotation, rows, i) && OurLive(rotation, rows, j) && i != j ensures rows[i].key != rows[j].key {
      if OurLive(rotation, s.rows, i) && OurLive(rotation, s.rows, j) {}
    }
  }

  lemma EventKeeps(c: Config, rotation: nat, s: Sys, ev: Event)
    requires SysInv(c, rotation, s) && Can(c, rotation, s, ev)
    ensures SysInv(c, rotation, After(c, rotation, s, ev))
  {
    match ev
    case Rotate(a) => Rotated(c, rotation, s, a);
    case Step(j, acts, end) => Stepped(c, rotation, s, j, acts, end);
    case Enqueue(id, at) => EnqueuedKeeps(c, rotation, s, id, at);
    case Next(j, id, at) => NextKeeps(c, rotation, s, j, id, at);
    case Other(id, row) => OtherKeeps(c, rotation, s, id, row);
    case _ => QueueKeeps(c, rotation, s, ev);
  }

  lemma NextKeeps(c: Config, rotation: nat, s: Sys, j: JobId, id: JobId, at: int)
    requires SysInv(c, rotation, s) && Can(c, rotation, s, Next(j, id, at))
    ensures SysInv(c, rotation, After(c, rotation, s, Next(j, id, at)))
  {
    assert j in s.rows && Ours(rotation, s.rows[j].key);
    EnqueuedKeeps(c, rotation, s, id, at);
    hide SysInv, Enqueued;
    AskedKeeps(c, rotation, s.(rows := Enqueued(rotation, s, id, at)), j);
  }

  lemma AskedKeeps(c: Config, rotation: nat, s: Sys, j: JobId)
    requires SysInv(c, rotation, s) && j in s.busy && s.busy[j] == Asking
    ensures SysInv(c, rotation, s.(busy := s.busy[j := Outcome(Runner.Returned)]))
  {
    hide Inv, Rank, KeyRank;
  }

  lemma OtherKeeps(c: Config, rotation: nat, s: Sys, id: JobId, row: Row)
    requires SysInv(c, rotation, s) && Can(c, rotation, s, Other(id, row))
    ensures SysInv(c, rotation, After(c, rotation, s, Other(id, row)))
  {
    hide SysInv;
    ForeignRow(c, rotation, s, id, row);
  }

  lemma ForeignRow(c: Config, rotation: nat, s: Sys, id: JobId, row: Row)
    requires SysInv(c, rotation, s) && (id in s.rows ==> !Ours(rotation, s.rows[id].key)) && !Ours(rotation, row.key)
    ensures SysInv(c, rotation, s.(rows := s.rows[id := row]))
  {
    hide Inv, Rank, KeyRank, Ours;
    var rows := s.rows[id := row];
    assert forall j :: j in rows && Ours(rotation, rows[j].key) ==> j in s.rows && rows[j] == s.rows[j];
  }

  /** Processes end, or begin a step. */
  lemma BusyKeeps(c: Config, rotation: nat, s: Sys, busy: map<JobId, Owes>)
    requires SysInv(c, rotation, s)
    requires forall j :: j in busy ==>
      (j in s.busy && busy[j] == s.busy[j]) || (busy[j] == Stepping && j in s.rows && Ours(rotation, s.rows[j].key))
    ensures SysInv(c, rotation, s.(busy := busy))
  {
    hide Inv, Rank, KeyRank;
  }

  lemma QueueKeeps(c: Config, rotation: nat, s: Sys, ev: Event)
    requires SysInv(c, rotation, s) && Can(c, rotation, s, ev)
    requires ev.Begin? || ev.Record? || ev.Die? || ev.Reap? || ev.Cancel?
    ensures SysInv(c, rotation, After(c, rotation, s, ev))
  {
    hide SysInv, RunEnabled, RunEffect;
    var v := After(c, rotation, s, ev);
    if ev.Record? { RecordRows(c, rotation, s, ev); } else { PlainRows(c, rotation, s, ev); }
    BusyRows(c, rotation, s, ev);
    hide Can, After;
    RowsKeep(c, rotation, s, v.rows);
    BusyKeeps(c, rotation, s.(rows := v.rows), v.busy);
  }

  /** A lease, a release or a cancellation makes no job live. */
  lemma PlainRows(c: Config, rotation: nat, s: Sys, ev: Event)
    requires Can(c, rotation, s, ev) && (ev.Begin? || ev.Die? || ev.Reap? || ev.Cancel?)
    ensures var rows := After(c, rotation, s, ev).rows;
      rows.Keys == s.rows.Keys && forall j :: j in rows ==>
        rows[j].key == s.rows[j].key && (OurLive(rotation, rows, j) ==> OurLive(rotation, s.rows, j))
  {}

  /** The last word on a job changes that job alone, and makes it live only where no other has its key. */
  lemma RecordRows(c: Config, rotation: nat, s: Sys, ev: Event)
    requires SysInv(c, rotation, s) && Can(c, rotation, s, ev) && ev.Record?
    ensures var rows := After(c, rotation, s, ev).rows;
      && rows.Keys == s.rows.Keys && (forall j :: j in rows ==> rows[j].key == s.rows[j].key)
      && forall j :: OurLive(rotation, rows, j) && !OurLive(rotation, s.rows, j) ==>
        forall i :: i in s.rows && i != j ==> rows[i] == s.rows[i] && !(Queue.Live(s.rows[i]) && s.rows[i].key == rows[j].key)
  {
    hide Inv, KeysInv, BusyInv, UniqueSteps;
  }

  lemma BusyRows(c: Config, rotation: nat, s: Sys, ev: Event)
    requires Can(c, rotation, s, ev) && (ev.Begin? || ev.Record? || ev.Die? || ev.Reap? || ev.Cancel?)
    ensures var v := After(c, rotation, s, ev);
      && v == s.(rows := v.rows, busy := v.busy)
      && forall j :: j in v.busy ==>
        (j in s.busy && v.busy[j] == s.busy[j]) || (v.busy[j] == Stepping && j in s.rows && Ours(rotation, s.rows[j].key))
  {}

  lemma {:induction false} TraceKeeps(c: Config, rotation: nat, s0: Sys, trace: seq<Event>, s: Sys)
    requires Planned0(c, rotation, s0) && Play(c, rotation, s0, trace) == Some(s)
    ensures SysInv(c, rotation, s)
  {
    hide SysInv, Can, After, Planned0;
    if trace == [] {
      StartIsSound(c, rotation, s0);
    } else {
      var n := |trace| - 1;
      var v := Play(c, rotation, s0, trace[..n]).value;
      TraceKeeps(c, rotation, s0, trace[..n], v);
      EventKeeps(c, rotation, v, trace[n]);
    }
  }
}
