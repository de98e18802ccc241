/**
 The hand-off from step to step: exactly when a rotation has a live job, what alone can lose it,
 and how many steps there are, over every sequence of events.
 */
module RotationHandOff {
  import opened Options
  import opened RotationProtocol
  import opened RotationSafety
  import opened RotationTheorems
  import opened RotationQueue
  import Queue = JobQueue
  import Runner = JobSafety

  // ---- when a rotation has a job, exactly ----

  /** The event puts a job of the rotation in the queue, or finds it there: queueing, or a retry that revives a dead row. */
  ghost predicate Gains(rotation: nat, s: Sys, ev: Event) {
    match ev
    case Enqueue(_, _) => true
    case Next(_, _, _) => !Finished(s.w.r.state)
    case Record(j, _, _) =>
      && j in s.busy && s.busy[j] == Outcome(Runner.Transient) && j in s.rows
      && !Queue.Live(s.rows[j]) && Ours(rotation, s.rows[j].key) && !Spent(s.rows[j]) && !Queue.Clashes(s.rows, j, s.rows[j].key)
    case _ => false
  }

  /**
   The event takes this job out of the queue: its step returned or failed for good, its last
   attempt failed, its lease ran out on its last attempt, or an operator cancelled it.
   */
  predicate Takes(s: Sys, ev: Event, j: JobId)
    requires j in s.rows
  {
    match ev
    case Record(i, _, _) => i == j && j in s.busy && s.busy[j].Outcome? && (s.busy[j].verdict == Runner.Transient ==> Spent(s.rows[j]))
    case Reap(at, ttl) => Queue.Stalled(s.rows[j], at, ttl) && Spent(s.rows[j])
    case Cancel(i) => i == j
    case _ => false
  }

  /** After an event the rotation has a live job exactly if the event gave it one or took not all it had. */
  lemma EventDecides(c: Config, rotation: nat, s: Sys, ev: Event)
    requires SysInv(c, rotation, s) && Can(c, rotation, s, ev)
    ensures HasLive(rotation, After(c, rotation, s, ev).rows)
      <==> Gains(rotation, s, ev) || exists j :: OurLive(rotation, s.rows, j) && !Takes(s, ev, j)
  {
    hide SysInv, RunEnabled, RunEffect, Run, EndsAs, Enqueued, Recorded;
    match ev
    case Enqueue(id, at) => QueuedIsLive(c, rotation, s, id, at);
    case Next(j, id, at) => NextDecides(c, rotation, s, j, id, at);
    case Record(j, at, until) => RecordDecides(c, rotation, s, j, at, until);
    case Rotate(_) => SameRowsDecide(rotation, s, ev);
    case Step(_, _, _) => SameRowsDecide(rotation, s, ev);
    case Die(_) => SameRowsDecide(rotation, s, ev);
    case _ => QueueDecides(c, rotation, s, ev);
  }

  lemma SameRowsDecide(rotation: nat, s: Sys, ev: Event)
    requires ev.Rotate? || ev.Step? || ev.Die?
    ensures HasLive(rotation, s.rows) <==> Gains(rotation, s, ev) || exists j :: OurLive(rotation, s.rows, j) && !Takes(s, ev, j)
  {
    if j :| OurLive(rotation, s.rows, j) { assert !Takes(s, ev, j); }
  }

  lemma QueuedIsLive(c: Config, rotation: nat, s: Sys, id: JobId, at: int)
    requires SysInv(c, rotation, s) && id !in s.rows && !Finished(s.w.r.state) && s.w.r.state != Awaiting
    ensures HasLive(rotation, Enqueued(rotation, s, id, at))
  {
    EnqueuedKeeps(c, rotation, s, id, at);
    hide SysInv, Enqueued;
    var j :| Due(Enqueued(rotation, s, id, at), j, Current(rotation, s.w));
    assert OurLive(rotation, Enqueued(rotation, s, id, at), j);
  }

  lemma NextDecides(c: Config, rotation: nat, s: Sys, j: JobId, id: JobId, at: int)
    requires SysInv(c, rotation, s) && Can(c, rotation, s, Next(j, id, at))
    ensures var ev := Next(j, id, at);
      (HasLive(rotation, Enqueued(rotation, s, id, at))
       <==> Gains(rotation, s, ev) || exists i :: OurLive(rotation, s.rows, i) && !Takes(s, ev, i))
  {
    if Finished(s.w.r.state) {
      if i :| OurLive(rotation, s.rows, i) { assert !Takes(s, Next(j, id, at), i); }
    } else {
      assert s.w.r.state != Awaiting by {
        hide Inv, Rank, KeyRank;
        assert j in s.rows && Ours(rotation, s.rows[j].key);
      }
      QueuedIsLive(c, rotation, s, id, at);
    }
  }

  lemma RecordDecides(c: Config, rotation: nat, s: Sys, j: JobId, at: int, until: int)
    requires SysInv(c, rotation, s) && Can(c, rotation, s, Record(j, at, until))
    ensures var ev := Record(j, at, until);
      (HasLive(rotation, After(c, rotation, s, ev).rows)
       <==> Gains(rotation, s, ev) || exists i :: OurLive(rotation, s.rows, i) && !Takes(s, ev, i))
  {
    hide SysInv, Can, After, Recorded, Takes, Gains;
    var ev := Record(j, at, until);
    var rows := After(c, rotation, s, ev).rows;
    RecordKeepsOthers(c, rotation, s, j, at, until);
    RecordedLife(c, rotation, s, j, at, until);
    if i :| OurLive(rotation, rows, i) {
      if i != j { assert OurLive(rotation, s.rows, i) && !Takes(s, ev, i); }
    }
    if i :| OurLive(rotation, s.rows, i) && !Takes(s, ev, i) { assert OurLive(rotation, rows, i); }
    if Gains(rotation, s, ev) { assert OurLive(rotation, rows, j); }
  }

  lemma RecordKeepsOthers(c: Config, rotation: nat, s: Sys, j: JobId, at: int, until: int)
    requires SysInv(c, rotation, s) && Can(c, rotation, s, Record(j, at, until))
    ensures var ev := Record(j, at, until);
      var rows := After(c, rotation, s, ev).rows;
      forall i :: i != j ==> (i in rows <==> i in s.rows) && (i in rows ==> rows[i] == s.rows[i])
  {
    hide Inv, Rank, KeyRank;
  }

  /** The job itself is live afterwards if it was kept or revived; no other is taken. */
  lemma RecordedLife(c: Config, rotation: nat, s: Sys, j: JobId, at: int, until: int)
    requires SysInv(c, rotation, s) && Can(c, rotation, s, Record(j, at, until))
    ensures var ev := Record(j, at, until);
      && (OurLive(rotation, After(c, rotation, s, ev).rows, j) <==>
          Gains(rotation, s, ev) || (OurLive(rotation, s.rows, j) && !Takes(s, ev, j)))
      && forall i :: i in s.rows && i != j ==> !Takes(s, ev, i)
  {
    hide Inv, Rank, KeyRank, KeysInv;
    assert Ours(rotation, s.rows[j].key);
    forall i | i in s.rows && i != j && Queue.Live(s.rows[i]) && s.rows[i].key == s.rows[j].key
      ensures !OurLive(rotation, s.rows, j)
    {
      assert OurLive(rotation, s.rows, i);
    }
  }

  lemma QueueDecides(c: Config, rotation: nat, s: Sys, ev: Event)
    requires Can(c, rotation, s, ev) && (ev.Begin? || ev.Reap? || ev.Cancel? || ev.Other?)
    ensures HasLive(rotation, After(c, rotation, s, ev).rows)
      <==> Gains(rotation, s, ev) || exists j :: OurLive(rotation, s.rows, j) && !Takes(s, ev, j)
  {
    var rows := After(c, rotation, s, ev).rows;
    assert forall j :: OurLive(rotation, rows, j) <==> OurLive(rotation, s.rows, j) && !Takes(s, ev, j);
    if j :| OurLive(rotation, s.rows, j) && !Takes(s, ev, j) { assert OurLive(rotation, rows, j); }
  }

  /** What the trace's events did, one by one. */
  ghost predicate GainsAt(c: Config, rotation: nat, s0: Sys, trace: seq<Event>, i: nat)
    requires i < |trace|
  {
    var s := Play(c, rotation, s0, trace[..i]);
    s.Some? && Gains(rotation, s.value, trace[i])
  }

  /** The event took every live job the rotation had, and gave it none. */
  ghost predicate StrandsAt(c: Config, rotation: nat, s0: Sys, trace: seq<Event>, i: nat)
    requires i < |trace|
  {
    var s := Play(c, rotation, s0, trace[..i]);
    s.Some? && !Gains(rotation, s.value, trace[i])
      && forall j :: OurLive(rotation, s.value.rows, j) ==> Takes(s.value, trace[i], j)
  }

  /**
   Over every sequence of events: the rotation has a live job exactly when some event queued one
   and no later event took the last.
   */
  lemma {:induction false} LiveExactly(c: Config, rotation: nat, s0: Sys, trace: seq<Event>, s: Sys)
    requires Planned0(c, rotation, s0) && Play(c, rotation, s0, trace) == Some(s)
    ensures HasLive(rotation, s.rows) <==>
      exists i :: 0 <= i < |trace| && GainsAt(c, rotation, s0, trace, i)
        && forall k :: i < k < |trace| ==> !StrandsAt(c, rotation, s0, trace, k)
  {
    hide Can, After, Gains, Takes, SysInv;
    if trace != [] {
      var n := |trace| - 1;
      var v := Play(c, rotation, s0, trace[..n]).value;
      TraceKeeps(c, rotation, s0, trace[..n], v);
      LiveExactly(c, rotation, s0, trace[..n], v);
      EventDecides(c, rotation, v, trace[n]);
      forall i | 0 <= i < n
        ensures GainsAt(c, rotation, s0, trace, i) == GainsAt(c, rotation, s0, trace[..n], i)
        ensures StrandsAt(c, rotation, s0, trace, i) == StrandsAt(c, rotation, s0, trace[..n], i)
      {
        assert trace[..n][..i] == trace[..i];
      }
      LastDecides(c, rotation, s0, trace, v);
    }
  }

  lemma LastDecides(c: Config, rotation: nat, s0: Sys, trace: seq<Event>, v: Sys)
    requires trace != []
    requires var n := |trace| - 1; Play(c, rotation, s0, trace[..n]) == Some(v)
    ensures var n := |trace| - 1;
      GainsAt(c, rotation, s0, trace, n) == Gains(rotation, v, trace[n])
      && (StrandsAt(c, rotation, s0, trace, n) <==>
          !Gains(rotation, v, trace[n]) && forall j :: OurLive(rotation, v.rows, j) ==> Takes(v, trace[n], j))
  {
    hide Can, After, Gains, Takes;
  }

  // ---- what can lose it ----

  /**
   The four ways a job that is still needed leaves the queue: a step that woke early is recorded
   as done, its last attempt fails, its lease runs out on its last attempt, it is cancelled.
   */
  ghost predicate Loses(rotation: nat, s: Sys, ev: Event) {
    match ev
    case Record(j, _, _) =>
      && j in s.busy && OurLive(rotation, s.rows, j)
      && ((s.busy[j] == Outcome(Runner.Returned) && s.rows[j].key == Some(Current(rotation, s.w)))
          || (s.busy[j] == Outcome(Runner.Transient) && Spent(s.rows[j])))
    case Reap(at, ttl) => exists j :: OurLive(rotation, s.rows, j) && Takes(s, ev, j)
    case Cancel(_) => true
    case _ => false
  }

  /** Recorded as done on the state the rotation is still in: the step woke early. */
  lemma LostEarly(c: Config, rotation: nat, s: Sys, j: JobId)
    requires SysInv(c, rotation, s) && j in s.busy && s.busy[j] == Outcome(Runner.Returned)
    requires j in s.rows && s.rows[j].key == Some(Current(rotation, s.w)) && !Finished(s.w.r.state)
    ensures s.w.r.state == Soaking
  {
    hide Inv;
  }

  /** Its work is done: the step it was for has been left behind, and the next one queued. */
  predicate Done(rotation: nat, s: Sys, j: JobId)
    requires j in s.rows
  {
    j in s.busy && s.busy[j] == Outcome(Runner.Returned) && s.rows[j].key != Some(Current(rotation, s.w))
  }

  predicate Needed(rotation: nat, s: Sys, j: JobId) {
    OurLive(rotation, s.rows, j) && !Done(rotation, s, j)
  }

  ghost predicate Kept(rotation: nat, s: Sys) {
    Finished(s.w.r.state) || exists j :: Needed(rotation, s, j)
  }

  /** A process that has not queued the next step yet still has its job. */
  ghost predicate Held(rotation: nat, s: Sys) {
    forall j :: j in s.busy && (s.busy[j] == Stepping || s.busy[j] == Asking) ==> OurLive(rotation, s.rows, j)
  }

  lemma SparedEvent(c: Config, rotation: nat, s: Sys, ev: Event)
    requires SysInv(c, rotation, s) && Can(c, rotation, s, ev) && Held(rotation, s) && !Loses(rotation, s, ev)
    ensures Held(rotation, After(c, rotation, s, ev))
    ensures Kept(rotation, s) || ev.Enqueue? ==> Kept(rotation, After(c, rotation, s, ev))
  {
    match ev
    case Rotate(a) => SparedRotate(c, rotation, s, a);
    case Step(j, acts, end) => SparedStep(c, rotation, s, j, acts, end);
    case Enqueue(id, at) => SparedQueue(c, rotation, s, id, at);
    case Next(j, id, at) => SparedNext(c, rotation, s, j, id, at);
    case _ => SparedRow(c, rotation, s, ev);
  }

  lemma SparedRotate(c: Config, rotation: nat, s: Sys, a: RunAction)
    requires SysInv(c, rotation, s) && Can(c, rotation, s, Rotate(a)) && Held(rotation, s)
    ensures Held(rotation, After(c, rotation, s, Rotate(a)))
    ensures Kept(rotation, s) ==> Kept(rotation, After(c, rotation, s, Rotate(a)))
  {
    hide UniqueSteps, BusyInv, Inv, KeyRank, Rank, NoneIn, NoRow, Tolerable, TallyOf;
    if j :| Needed(rotation, s, j) {
      assert j in s.rows && Ours(rotation, s.rows[j].key);
      assert !Finished(After(c, rotation, s, Rotate(a)).w.r.state) ==> Needed(rotation, After(c, rotation, s, Rotate(a)), j);
    }
  }

  lemma SparedStep(c: Config, rotation: nat, s: Sys, j: JobId, acts: seq<Action>, end: End)
    requires SysInv(c, rotation, s) && Can(c, rotation, s, Step(j, acts, end)) && Held(rotation, s)
    ensures Held(rotation, After(c, rotation, s, Step(j, acts, end)))
    ensures Kept(rotation, After(c, rotation, s, Step(j, acts, end)))
  {
    hide SysInv, Run, EndsAs, Rank, KeyRank;
    var v := After(c, rotation, s, Step(j, acts, end));
    Stepped(c, rotation, s, j, acts, end);
    assert OurLive(rotation, s.rows, j);
    NotAwaiting(c, rotation, v, j);
    StepLeavesJob(c, rotation, s, j, acts, end);
  }

  /** A rotation with a job of its own, live or not, was approved. */
  lemma NotAwaiting(c: Config, rotation: nat, s: Sys, j: JobId)
    requires SysInv(c, rotation, s) && j in s.rows && Ours(rotation, s.rows[j].key)
    ensures s.w.r.state != Awaiting
  {
    hide Inv, Rank, KeyRank;
  }

  lemma StepLeavesJob(c: Config, rotation: nat, s: Sys, j: JobId, acts: seq<Action>, end: End)
    requires Can(c, rotation, s, Step(j, acts, end)) && OurLive(rotation, s.rows, j)
    requires After(c, rotation, s, Step(j, acts, end)).w.r.state != Awaiting
    ensures var v := After(c, rotation, s, Step(j, acts, end)); Finished(v.w.r.state) || Needed(rotation, v, j)
  {
    hide Run;
  }

  lemma SparedQueue(c: Config, rotation: nat, s: Sys, id: JobId, at: int)
    requires SysInv(c, rotation, s) && Can(c, rotation, s, Enqueue(id, at)) && Held(rotation, s)
    ensures Held(rotation, After(c, rotation, s, Enqueue(id, at))) && Kept(rotation, After(c, rotation, s, Enqueue(id, at)))
  {
    hide SysInv, Enqueued;
    EnqueuedKeeps(c, rotation, s, id, at);
    var v := After(c, rotation, s, Enqueue(id, at));
    var j :| Due(v.rows, j, Current(rotation, s.w));
    assert Needed(rotation, v, j);
    forall j | j in v.busy && (v.busy[j] == Stepping || v.busy[j] == Asking) ensures OurLive(rotation, v.rows, j) {
      assert OurLive(rotation, s.rows, j);
    }
  }

  lemma SparedNext(c: Config, rotation: nat, s: Sys, j: JobId, id: JobId, at: int)
    requires SysInv(c, rotation, s) && Can(c, rotation, s, Next(j, id, at)) && Held(rotation, s)
    ensures Held(rotation, After(c, rotation, s, Next(j, id, at))) && Kept(rotation, After(c, rotation, s, Next(j, id, at)))
  {
    hide SysInv, Enqueued;
    assert OurLive(rotation, s.rows, j);
    NotAwaiting(c, rotation, s, j);
    EnqueuedKeeps(c, rotation, s, id, at);
    var v := After(c, rotation, s, Next(j, id, at));
    if !Finished(s.w.r.state) {
      var i :| Due(v.rows, i, Current(rotation, s.w));
      assert Needed(rotation, v, i);
    }
    forall i | i in v.busy && (v.busy[i] == Stepping || v.busy[i] == Asking) ensures OurLive(rotation, v.rows, i) {
      assert OurLive(rotation, s.rows, i);
    }
  }

  /** A statement of the queue that loses nothing leaves every needed job needed. */
  lemma SparedRow(c: Config, rotation: nat, s: Sys, ev: Event)
    requires SysInv(c, rotation, s) && Can(c, rotation, s, ev) && Held(rotation, s) && !Loses(rotation, s, ev)
    requires ev.Begin? || ev.Record? || ev.Die? || ev.Reap? || ev.Other?
    ensures Held(rotation, After(c, rotation, s, ev))
    ensures Kept(rotation, s) ==> Kept(rotation, After(c, rotation, s, ev))
  {
    var v := After(c, rotation, s, ev);
    forall j | Needed(rotation, s, j) && !Finished(s.w.r.state) ensures Needed(rotation, v, j) {
      StaysNeeded(c, rotation, s, ev, j);
    }
    forall j | j in v.busy && (v.busy[j] == Stepping || v.busy[j] == Asking) ensures OurLive(rotation, v.rows, j) {
      StaysHeld(c, rotation, s, ev, j);
    }
  }

  lemma StaysNeeded(c: Config, rotation: nat, s: Sys, ev: Event, j: JobId)
    requires SysInv(c, rotation, s) && Can(c, rotation, s, ev) && !Loses(rotation, s, ev)
    requires ev.Begin? || ev.Record? || ev.Die? || ev.Reap? || ev.Other?
    requires Needed(rotation, s, j) && !Finished(s.w.r.state)
    ensures Needed(rotation, After(c, rotation, s, ev), j)
  {
    hide Inv, Rank, KeyRank, KeysInv;
    if ev.Record? && ev.job == j { RecordedLife(c, rotation, s, j, ev.at, ev.until); }
  }

  lemma StaysHeld(c: Config, rotation: nat, s: Sys, ev: Event, j: JobId)
    requires SysInv(c, rotation, s) && Can(c, rotation, s, ev) && Held(rotation, s) && !Loses(rotation, s, ev)
    requires ev.Begin? || ev.Record? || ev.Die? || ev.Reap? || ev.Other?
    requires var v := After(c, rotation, s, ev); j in v.busy && (v.busy[j] == Stepping || v.busy[j] == Asking)
    ensures OurLive(rotation, After(c, rotation, s, ev).rows, j)
  {
    hide Inv, Rank, KeyRank, KeysInv, UniqueSteps, Recorded;
  }

  /** No event of the trace loses a job. */
  ghost predicate Spared(c: Config, rotation: nat, s0: Sys, trace: seq<Event>) {
    forall i, v :: 0 <= i < |trace| && Play(c, rotation, s0, trace[..i]) == Some(v) ==> !Loses(rotation, v, trace[i])
  }

  /**
   Over every sequence of events, crashes anywhere included: once started, a rotation has a live
   job until it is finished, unless a step woke early, a last attempt was spent by an error or an
   expired lease, or an operator cancelled a job.
   */
  lemma {:induction false} NeverStranded(c: Config, rotation: nat, s0: Sys, trace: seq<Event>, s: Sys)
    requires Planned0(c, rotation, s0) && Play(c, rotation, s0, trace) == Some(s) && Spared(c, rotation, s0, trace)
    ensures Held(rotation, s)
    ensures (exists i :: 0 <= i < |trace| && trace[i].Enqueue?) ==>
      Kept(rotation, s) && (Finished(s.w.r.state) || HasLive(rotation, s.rows))
  {
    hide Can, After, SysInv, Loses, Kept, Held, Planned0;
    if trace == [] {
      assert Held(rotation, s) by { NobodyYet(c, rotation, s); }
    }
    if trace != [] {
      var n := |trace| - 1;
      var v := Play(c, rotation, s0, trace[..n]).value;
      forall i, u | 0 <= i < n && Play(c, rotation, s0, trace[..n][..i]) == Some(u) ensures !Loses(rotation, u, trace[..n][i]) {
        assert trace[..n][..i] == trace[..i];
      }
      NeverStranded(c, rotation, s0, trace[..n], v);
      TraceKeeps(c, rotation, s0, trace[..n], v);
      assert !Loses(rotation, v, trace[n]);
      SparedEvent(c, rotation, v, trace[n]);
      if i :| 0 <= i < |trace| && trace[i].Enqueue? && i < n { assert trace[..n][i].Enqueue?; }
    }
    if Kept(rotation, s) { NeededIsLive(rotation, s); }
  }

  lemma NobodyYet(c: Config, rotation: nat, s: Sys)
    requires Planned0(c, rotation, s)
    ensures Held(rotation, s)
  {}

  lemma NeededIsLive(rotation: nat, s: Sys)
    requires Kept(rotation, s)
    ensures Finished(s.w.r.state) || HasLive(rotation, s.rows)
  {
    if j :| Needed(rotation, s, j) { assert OurLive(rotation, s.rows, j); }
  }

  /** The minute tick brings back a rotation whose soak is over, whatever became of its job. */
  lemma TickRestores(c: Config, rotation: nat, s: Sys, id: JobId, at: int)
    requires SysInv(c, rotation, s) && id !in s.rows
    requires s.w.r.state == Soaking && s.w.r.soakUntil.Some? && s.w.r.soakUntil.value <= s.w.now
    ensures Can(c, rotation, s, Enqueue(id, at)) && HasLive(rotation, After(c, rotation, s, Enqueue(id, at)).rows)
  {
    hide SysInv;
    QueuedIsLive(c, rotation, s, id, at);
  }

  // ---- steps ----

  /** How many steps moved the rotation on and asked for another. */
  ghost function Advances(c: Config, rotation: nat, s0: Sys, trace: seq<Event>): nat {
    if trace == [] then 0
    else
      var n := |trace| - 1;
      Advances(c, rotation, s0, trace[..n]) +
        match Play(c, rotation, s0, trace[..n])
        case Some(s) => if Advancing(c, s, trace[n]) then 1 else 0
        case None => 0
  }

  ghost predicate Advancing(c: Config, s: Sys, ev: Event) {
    ev.Step? && ev.end == Asks && var v := Run(c, s.w, ev.acts); v.Some? && Rank(c, v.value) < Rank(c, s.w)
  }

  /** Advancing steps still to come; approval is not one. */
  function ToGo(c: Config, w: World): int {
    if w.r.state == Awaiting then RankOf(c, Planned, 0, false) else Rank(c, w)
  }

  /**
   However many steps fail, wake early, die or are run again, no more than 2 * waves + 5 move the
   rotation on, and fewer while it is unfinished.
   */
  lemma {:induction false} StepsAreBounded(c: Config, rotation: nat, s0: Sys, trace: seq<Event>, s: Sys)
    requires Planned0(c, rotation, s0) && Play(c, rotation, s0, trace) == Some(s)
    ensures Advances(c, rotation, s0, trace) + ToGo(c, s.w) <= 2 * (c.lastWave + 1) + 5
    ensures ToGo(c, s.w) >= if Finished(s.w.r.state) then 0 else 1
  {
    TraceKeeps(c, rotation, s0, trace, s);
    GoesOn(c, s);
    hide Can, After, SysInv, Rank, ToGo;
    if trace == [] {
      AtFirst(c, s0);
    } else {
      var n := |trace| - 1;
      var v := Play(c, rotation, s0, trace[..n]).value;
      TraceKeeps(c, rotation, s0, trace[..n], v);
      StepsAreBounded(c, rotation, s0, trace[..n], v);
      OneCloser(c, rotation, v, trace[n]);
    }
  }

  lemma AtFirst(c: Config, s: Sys)
    requires Init(c, s.w)
    ensures ToGo(c, s.w) == 2 * (c.lastWave + 1) + 5
  {}

  lemma GoesOn(c: Config, s: Sys)
    requires Inv(c, s.w)
    ensures ToGo(c, s.w) >= if Finished(s.w.r.state) then 0 else 1
  {
    RankOfFinished(c, s.w);
    hide Inv;
  }

  lemma OneCloser(c: Config, rotation: nat, s: Sys, ev: Event)
    requires SysInv(c, rotation, s) && Can(c, rotation, s, ev)
    ensures ToGo(c, After(c, rotation, s, ev).w) + (if Advancing(c, s, ev) then 1 else 0) <= ToGo(c, s.w)
  {
    match ev
    case Rotate(a) =>
      RunOne(c, s.w, a);
      Closer(c, s.w, [OnRun(a)], RunEffect(c, s.w, a));
    case Step(j, acts, end) =>
      assert s.w.r.state != Awaiting by {
        hide Inv, Run, Rank, KeyRank;
        assert j in s.rows && Ours(rotation, s.rows[j].key);
      }
      Closer(c, s.w, acts, Run(c, s.w, acts).value);
      StaysApproved(c, s.w, acts, Run(c, s.w, acts).value);
    case _ =>
  }

  lemma StaysApproved(c: Config, w: World, more: seq<Action>, v: World)
    requires Inv(c, w) && Run(c, w, more) == Some(v) && w.r.state != Awaiting
    ensures v.r.state != Awaiting && Rank(c, v) <= Rank(c, w)
  {
    RankRun(c, w, more, v);
    AwaitingIsFirst(c, w, v);
    hide Inv;
  }

  lemma Closer(c: Config, w: World, more: seq<Action>, v: World)
    requires Inv(c, w) && Run(c, w, more) == Some(v)
    ensures ToGo(c, v) <= ToGo(c, w)
  {
    RankRun(c, w, more, v);
    AwaitingIsFirst(c, w, v);
    ParametersOf(c, v);
    hide Inv, Run;
  }

  // ---- a run that ends badly ----

  lemma Further(c: Config, rotation: nat, s0: Sys, trace: seq<Event>, s: Sys, ev: Event)
    requires Play(c, rotation, s0, trace) == Some(s) && Can(c, rotation, s, ev)
    ensures Play(c, rotation, s0, trace + [ev]) == Some(After(c, rotation, s, ev))
  {
    hide Can, After;
    assert (trace + [ev])[..|trace|] == trace;
  }

  /** The rotation's only job, waiting, after so many attempts. */
  ghost predicate OnlyJob(rotation: nat, s: Sys, id: JobId, attempts: nat, state: Queue.JobState) {
    && s.busy == map[] && id in s.rows && Ours(rotation, s.rows[id].key)
    && s.rows[id].state == state && s.rows[id].attempts == attempts && s.rows[id].maxAttempts == 3
    && forall j :: j in s.rows && j != id ==> !Ours(rotation, s.rows[j].key)
  }

  /** A worker leases the job and dies before its step; the reaper finds the lease expired. */
  lemma Death(c: Config, rotation: nat, s0: Sys, start: seq<Event>, s: Sys, id: JobId, worker: Queue.Worker, n: nat)
    returns (trace: seq<Event>, v: Sys)
    requires Play(c, rotation, s0, start) == Some(s) && OnlyJob(rotation, s, id, n, Queue.Queued) && n < 3
    requires forall ev :: ev in start ==> !ev.Step?
    ensures Play(c, rotation, s0, trace) == Some(v) && v.w == s.w && start <= trace
    ensures OnlyJob(rotation, v, id, n + 1, if n == 2 then Queue.Dead else Queue.Queued)
    ensures forall ev :: ev in trace ==> !ev.Step?
  {
    hide Play;
    var at := s.rows[id].runAfter;
    var a, b, d := Begin(id, worker, at), Die(id), Reap(at + 2, 1);
    Further(c, rotation, s0, start, s, a);
    var s1 := After(c, rotation, s, a);
    Further(c, rotation, s0, start + [a], s1, b);
    var s2 := After(c, rotation, s1, b);
    Further(c, rotation, s0, start + [a] + [b], s2, d);
    trace, v := start + [a] + [b] + [d], After(c, rotation, s2, d);
  }

  /** Three workers die on the job of a rotation just started: it is stranded, and no step ever ran. */
  lemma ThreeDeathsStrand(c: Config, rotation: nat, s0: Sys, id: JobId, worker: Queue.Worker)
    returns (trace: seq<Event>, s: Sys)
    requires Planned0(c, rotation, s0) && s0.w.r.state == Planned && id !in s0.rows
    ensures Play(c, rotation, s0, trace) == Some(s) && s.w == s0.w && !HasLive(rotation, s.rows)
    ensures Enqueue(id, 0) in trace && forall ev :: ev in trace ==> !ev.Step?
  {
    hide Can, After, OnlyJob, Play;
    var v := JustStarted(c, rotation, s0, id);
    trace, s := Death(c, rotation, s0, [Enqueue(id, 0)], v, id, worker, 0);
    trace, s := Death(c, rotation, s0, trace, s, id, worker, 1);
    trace, s := Death(c, rotation, s0, trace, s, id, worker, 2);
    NoneAlive(rotation, s, id);
    assert trace[0] == Enqueue(id, 0);
  }

  lemma JustStarted(c: Config, rotation: nat, s0: Sys, id: JobId) returns (s: Sys)
    requires Planned0(c, rotation, s0) && s0.w.r.state == Planned && id !in s0.rows
    ensures Play(c, rotation, s0, [Enqueue(id, 0)]) == Some(s) && s.w == s0.w && OnlyJob(rotation, s, id, 0, Queue.Queued)
  {
    assert !HasDue(s0.rows, Current(rotation, s0.w));
    assert Play(c, rotation, s0, []) == Some(s0);
    hide Play, Init;
    Further(c, rotation, s0, [], s0, Enqueue(id, 0));
    assert [] + [Enqueue(id, 0)] == [Enqueue(id, 0)];
    s := After(c, rotation, s0, Enqueue(id, 0));
  }

  lemma NoneAlive(rotation: nat, s: Sys, id: JobId)
    requires OnlyJob(rotation, s, id, 3, Queue.Dead)
    ensures !HasLive(rotation, s.rows)
  {}
}
