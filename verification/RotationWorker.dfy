/**
 The worker: leases step jobs, runs one step, queues the next under a key made of the state it
 left, and records the outcome. It may die between any two of these. Every method performs
 events of the rotation's queue only, which carries that module's theorems over to every worker.
 */
module RotationWorker {
  import opened Options
  import opened RotationProtocol
  import opened RotationSafety
  import opened RotationTheorems
  import opened RotationQueue
  import opened RotationHandOff
  import opened RotationEngine
  import Queue = JobQueue
  import Runner = JobSafety

  /** Two runs of one protocol, one the continuation of the other: the rest is a run from where the first stood. */
  lemma {:induction false} RestOfRun(c: Config, w0: World, log: seq<Action>, w: World, more: seq<Action>, v: World)
    requires Run(c, w0, log) == Some(w) && Run(c, w0, log + more) == Some(v)
    ensures Run(c, w, more) == Some(v)
  {
    hide Enabled, Effect;
    if more == [] {
      assert log + more == log;
    } else {
      var n := |more| - 1;
      assert (log + more)[..|log + more| - 1] == log + more[..n] && (log + more)[|log + more| - 1] == more[n];
      RestOfRun(c, w0, log, w, more[..n], Run(c, w0, log + more[..n]).value);
    }
  }

  /** A key of a state left behind is not the key of the present one. */
  lemma NothingDue(c: Config, rotation: nat, s: Sys, v: World)
    requires SysInv(c, rotation, s) && Rank(c, v) < Rank(c, s.w) && v.h.pc == Idle
    ensures !HasDue(s.rows, Current(rotation, v))
  {
    hide Inv;
  }

  /** What becomes of the one job that is due decides whether any is left. */
  lemma OnlyDue(rotation: nat, before: Table, after: Table, job: JobId, key: Idem)
    requires UniqueSteps(rotation, before) && Due(before, job, key) && Ours(rotation, Some(key))
    requires after.Keys == before.Keys && after[job].key == before[job].key
    requires forall j :: j in after && j != job ==> after[j] == before[j]
    ensures HasDue(after, key) <==> Queue.Live(after[job])
  {
    assert Due(after, job, key) <==> Queue.Live(after[job]);
    forall j: JobId | j != job ensures !Due(after, j, key) {
      if j in before && Queue.Live(before[j]) && before[j].key == Some(key) {
        assert OurLive(rotation, before, j) && OurLive(rotation, before, job);
      }
    }
  }

  class Worker {
    const rotation: nat
    const engine: Engine
    const jobs: Queue.Jobs<Idem>
    ghost const s0: Sys
    ghost var busy: map<JobId, Owes>
    ghost var trace: seq<Event>

    ghost function S(): Sys
      reads this, engine, jobs
    {
      Sys(engine.W(), jobs.rows, busy)
    }

    /** What has happened so far is a sequence of events from a rotation just planned. */
    ghost predicate Valid()
      reads this, engine, jobs
    {
      && engine.Valid() && jobs.Valid()
      && Planned0(engine.c, rotation, s0) && Play(engine.c, rotation, s0, trace) == Some(S())
    }

    /** A rotation just planned has no jobs. */
    constructor (rotation: nat, engine: Engine, jobs: Queue.Jobs<Idem>)
      requires engine.Valid() && jobs.Valid() && Init(engine.c, engine.W())
      requires forall j :: j in jobs.rows ==> !Ours(rotation, jobs.rows[j].key)
      ensures this.rotation == rotation && this.engine == engine && this.jobs == jobs
      ensures Valid() && trace == [] && busy == map[]
    {
      this.rotation, this.engine, this.jobs, this.busy, this.trace := rotation, engine, jobs, map[], [];
      this.s0 := Sys(engine.W(), jobs.rows, map[]);
    }

    /** Records that the changes since s make up one event. */
    ghost method Did(s: Sys, ev: Event)
      requires engine.Valid() && jobs.Valid() && Planned0(engine.c, rotation, s0)
      requires Play(engine.c, rotation, s0, trace) == Some(s) && Can(engine.c, rotation, s, ev)
      requires engine.W() == After(engine.c, rotation, s, ev).w && jobs.rows == After(engine.c, rotation, s, ev).rows
      modifies this`busy, this`trace
      ensures Valid() && S() == After(engine.c, rotation, s, ev) && trace == old(trace) + [ev]
    {
      hide Can, After, Planned0, Reaches;
      Further(engine.c, rotation, s0, trace, s, ev);
      busy := After(engine.c, rotation, s, ev).busy;
      trace := trace + [ev];
    }

    lemma Sound()
      requires Valid()
      ensures SysInv(engine.c, rotation, S()) && engine.h.pc == Idle
    {
      TraceKeeps(engine.c, rotation, s0, trace, S());
      hide Inv, UniqueSteps, KeysInv, BusyInv;
    }

    ghost predicate HasLiveStep()
      reads engine, jobs
    {
      HasDue(jobs.rows, Current(rotation, engine.W()))
    }

    method EnqueueNext(id: JobId, delay: int)
      requires engine.Valid() && jobs.Valid() && id !in jobs.rows
      modifies jobs
      ensures jobs.Valid() && jobs.now == old(jobs.now)
      ensures jobs.rows == Enqueued(rotation, old(S()), id, jobs.now + delay)
      ensures Finished(engine.r.state) || old(HasLiveStep()) ==> jobs.rows == old(jobs.rows)
      ensures !Finished(engine.r.state) ==> HasLiveStep()
    {
      hide Reaches, Queue.UniqueKeys, Queue.TableMoves, Queue.Clashes;
      if Finished(engine.r.state) {
        return;
      }
      var key := StepKey(rotation, engine.r.state, engine.r.wave);
      ClashIsDue(jobs.rows, id, key);
      var job := jobs.Enqueue(id, Some(key), "rotation.step", 50, 3, Some(jobs.now + delay));
      assert Due(jobs.rows, job, key);
    }

    // ---- requests ----

    method Start(id: JobId) returns (ok: bool)
      requires Valid() && id !in jobs.rows
      modifies jobs, this`busy, this`trace
      ensures Valid() && (ok <==> engine.r.state == Planned) && (ok ==> HasLiveStep())
    {
      hide Reaches, Planned0, Play, Enqueued;
      ok := engine.r.state == Planned;
      if ok {
        ghost var s := S();
        EnqueueNext(id, 0);
        Did(s, Enqueue(id, jobs.now));
      }
    }

    /** Two writes: the state, then the job; the process may die between them. */
    method Approve(id: JobId) returns (ok: bool, queued: bool)
      requires Valid() && id !in jobs.rows
      modifies engine, jobs, this`busy, this`trace
      ensures Valid() && (ok <==> old(engine.r.state) == Awaiting) && (ok ==> engine.r.state == Planned)
      ensures (queued ==> ok && HasLiveStep()) && (!ok ==> jobs.rows == old(jobs.rows))
    {
      hide Reaches, Planned0, Play, Enqueued;
      hide SysInv;
      Sound();
      ghost var s := S();
      ok := engine.Approve();
      if !ok {
        return false, false;
      }
      Did(s, Rotate(RunAction.Approve));
      queued := *;
      if queued {
        s := S();
        EnqueueNext(id, 0);
        Did(s, Enqueue(id, jobs.now));
      }
    }

    method Abort() returns (ok: bool)
      requires Valid()
      modifies engine, this`busy, this`trace
      ensures Valid() && (ok <==> !Finished(old(engine.r.state))) && (ok ==> engine.r.state == Aborted)
    {
      hide Reaches, Planned0, Play;
      hide SysInv;
      Sound();
      ghost var s := S();
      ok := engine.Abort();
      if ok {
        Did(s, Rotate(Halt(Aborted)));
      }
    }

    method Tick(d: nat)
      requires Valid()
      modifies engine, jobs, this`busy, this`trace
      ensures Valid() && jobs.now == old(jobs.now) + d && jobs.rows == old(jobs.rows)
    {
      hide Reaches, Planned0, Play;
      ghost var s := S();
      engine.Tick(d);
      jobs.now := jobs.now + d;
      Did(s, Rotate(RunAction.Tick(d)));
    }

    /** The minute tick: a soak whose window has closed gets a job if it lost its own. */
    method TickSoak(id: JobId)
      requires Valid() && id !in jobs.rows
      modifies jobs, this`busy, this`trace
      ensures Valid()
      ensures engine.r.state == Soaking && engine.r.soakUntil.Some? && engine.r.soakUntil.value <= engine.now ==> HasLiveStep()
    {
      hide Reaches, Planned0, Play, Enqueued;
      if engine.r.state == Soaking && engine.r.soakUntil.Some? && engine.r.soakUntil.value <= engine.now {
        ghost var s := S();
        EnqueueNext(id, 0);
        Did(s, Enqueue(id, jobs.now));
      }
    }

    // ---- the queue around it ----

    /**
     A runner leases the next step job. A job a process still runs has a fresh lease, so it is
     not waiting in the queue.
     */
    method Lease(w: Queue.Worker) returns (job: Option<JobId>)
      requires Valid() && forall j :: j in busy && j in jobs.rows ==> jobs.rows[j].state != Queue.Queued
      modifies jobs, this`busy, this`trace
      ensures Valid() && jobs.now == old(jobs.now) && jobs.rows.Keys == old(jobs.rows.Keys)
      ensures job.Some? ==> job.value in jobs.rows && jobs.rows[job.value] == Queue.Leased(old(jobs.rows)[job.value], w, jobs.now)
      ensures job.Some? && Ours(rotation, jobs.rows[job.value].key) ==> busy == old(busy)[job.value := Stepping]
      ensures job.None? ==> forall j :: j in jobs.rows ==> !Queue.Runnable(jobs.rows[j], {"rotation.step"}, jobs.now)
    {
      hide Reaches, Planned0, Play, Queue.UniqueKeys, Queue.TableMoves;
      ghost var s := S();
      var leased := jobs.Dequeue(w, {"rotation.step"}, 1);
      if leased == [] {
        assert jobs.rows == s.rows;
        return None;
      }
      var j := leased[0];
      assert j in leased && leased == [j];
      assert jobs.rows == s.rows[j := Queue.Leased(s.rows[j], w, jobs.now)];
      if Ours(rotation, jobs.rows[j].key) {
        Did(s, Begin(j, w, jobs.now));
      } else {
        Did(s, Other(j, jobs.rows[j]));
      }
      return Some(j);
    }

    method Reap(ttl: int)
      requires Valid()
      modifies jobs, this`busy, this`trace
      ensures Valid() && jobs.rows.Keys == old(jobs.rows.Keys)
      ensures forall i :: i in jobs.rows ==> jobs.rows[i] == Queue.Reaped(old(jobs.rows)[i], jobs.now, ttl)
    {
      hide Reaches, Planned0, Play, Queue.UniqueKeys, Queue.TableMoves;
      ghost var s := S();
      var _ := jobs.ReapStalled(ttl);
      assert jobs.rows == map i | i in s.rows :: Queue.Reaped(s.rows[i], jobs.now, ttl);
      Did(s, RotationQueue.Reap(jobs.now, ttl));
    }

    method Cancel(j: JobId) returns (ok: bool)
      requires Valid()
      modifies jobs, this`busy, this`trace
      ensures Valid() && (ok <==> old(j in jobs.rows && Queue.Live(jobs.rows[j])))
      ensures jobs.rows == if ok then old(jobs.rows)[j := old(jobs.rows)[j].(state := Queue.Cancelled)] else old(jobs.rows)
    {
      hide Reaches, Planned0, Play, Queue.UniqueKeys, Queue.TableMoves;
      ghost var s := S();
      ok := jobs.Cancel(j);
      if ok {
        if Ours(rotation, jobs.rows[j].key) {
          Did(s, RotationQueue.Cancel(j));
        } else {
          Did(s, Other(j, jobs.rows[j]));
        }
      }
    }

    /** The process running this job dies. */
    ghost method Die(j: JobId)
      requires Valid() && j in busy
      modifies this`busy, this`trace
      ensures Valid() && busy == old(busy) - {j}
    {
      hide Reaches, Planned0, Play;
      Did(S(), RotationQueue.Die(j));
    }

    // ---- one job ----

    /** One step, and the last word on one that can never succeed. */
    method TakeStep(job: JobId, newKey: Key) returns (end: End)
      requires Valid() && newKey !in engine.status && job in busy && busy[job] == Stepping
      modifies engine, this`busy, this`trace
      ensures Valid() && busy == old(busy)[job := if end == Asks then Asking else Outcome(Verdict(end))]
      ensures end != Dies && engine.h.pc == Idle
      ensures end == Asks ==> !Finished(engine.r.state) && engine.r.state != Awaiting
      ensures end == Asks ==> if old(engine.Early()) then engine.W() == old(engine.W()) else Rank(engine.c, engine.W()) < old(Rank(engine.c, engine.W()))
      ensures end == Errs ==> engine.W() == old(engine.W())
      ensures end == GivesUp ==> engine.r.state == Failed
      ensures end == Ends ==> (Finished(engine.r.state) || engine.r.state == Awaiting) && !old(engine.Early())
    {
      hide Reaches, Planned0, Play, Rank, Visited, Members, InStates, Run, SysInv;
      Sound();
      ghost var s, log := S(), engine.log;
      var requeue, err := engine.Step(newKey);
      NotAgain(engine.c, engine.w0, log, s.w, engine.log, engine.W());
      if err {
        var permanent: bool := *;
        if permanent {
          engine.FailRotation();
          end := GivesUp;
        } else {
          end := Errs;
        }
      } else {
        end := if requeue then Asks else Ends;
      }
      ghost var acts := engine.log[|log|..];
      assert engine.log == log + acts;
      Continued(engine.c, engine.w0, log, s.w, acts, engine.W());
      Did(s, Step(job, acts, end));
    }

    /**
     The handler of a leased step job. Unless the rotation is over, waits for approval, woke
     early or the step failed, it leaves a second job queued for the state it left: the key of
     the leased job, which is still live, is never in the way. A failure that cannot heal ends
     the rotation; any other leaves it as it was, for the retry. The process may die once the
     step is taken, before it queues anything.
     */
    method HandleRotationStep(job: JobId, newKey: Key, id: JobId) returns (verdict: Runner.Verdict, alive: bool)
      requires Valid() && newKey !in engine.status && id !in jobs.rows && job in busy && busy[job] == Stepping
      modifies engine, jobs, this`busy, this`trace
      ensures Valid() && jobs.now == old(jobs.now)
      ensures busy == if alive then old(busy)[job := Outcome(verdict)] else old(busy) - {job}
      ensures alive && verdict == Runner.Returned && !old(engine.Early()) && !Finished(engine.r.state) && engine.r.state != Awaiting ==>
        && id != job && id in jobs.rows && jobs.rows[id].state == Queue.Queued
        && jobs.rows[id].key == Some(Current(rotation, engine.W()))
      ensures alive && old(engine.Early()) && verdict == Runner.Returned ==> HasLiveStep() && engine.W() == old(engine.W())
      ensures old(engine.Early()) && old(HasLiveStep()) ==> jobs.rows == old(jobs.rows)
      ensures !alive || verdict != Runner.Returned ==> jobs.rows == old(jobs.rows)
      ensures alive && verdict == Runner.Permanent ==> engine.r.state == Failed
      ensures alive && verdict == Runner.Transient ==> engine.W() == old(engine.W())
      ensures forall j :: j in old(jobs.rows) ==> j in jobs.rows && jobs.rows[j] == old(jobs.rows)[j]
    {
      hide Reaches, Planned0, Play, Rank, SysInv, Queue.UniqueKeys, Queue.TableMoves;
      Sound();
      InQueue(job);
      ghost var before := S();
      var end := TakeStep(job, newKey);
      verdict := Verdict(end);
      alive := *;
      if !alive {
        Die(job);
        return;
      }
      if end == Asks {
        if Rank(engine.c, engine.W()) < Rank(engine.c, before.w) {
          NothingDue(engine.c, rotation, before, engine.W());
        }
        QueueNext(job, id);
      }
    }

    /** What a step that asked for another queues: a soak for when it ends, anything else for now. */
    method QueueNext(job: JobId, id: JobId)
      requires Valid() && id !in jobs.rows && job in busy && busy[job] == Asking
      modifies jobs, this`busy, this`trace
      ensures Valid() && jobs.now == old(jobs.now) && busy == old(busy)[job := Outcome(Runner.Returned)]
      ensures Finished(engine.r.state) || old(HasLiveStep()) ==> jobs.rows == old(jobs.rows)
      ensures !Finished(engine.r.state) ==> HasLiveStep()
      ensures !Finished(engine.r.state) && !old(HasLiveStep()) ==>
        exists at :: jobs.rows == old(jobs.rows)[id := NewJob(Current(rotation, engine.W()), at)]
    {
      hide Reaches, Planned0, Play;
      ghost var s := S();
      var delay := if engine.r.state == Soaking && engine.r.soakUntil.Some? then engine.r.soakUntil.value - engine.now else 0;
      EnqueueNext(id, delay);
      Did(s, Next(job, id, jobs.now + delay));
    }

    lemma InQueue(job: JobId)
      requires SysInv(engine.c, rotation, S()) && job in busy
      ensures job in jobs.rows && Ours(rotation, jobs.rows[job].key)
    {
      hide Inv, UniqueSteps, KeysInv;
    }

    /** The runner records how its job ended. */
    method EndJob(job: JobId, verdict: Runner.Verdict, base: nat, max: nat, jitter: nat)
      requires Valid() && job in busy && busy[job] == Outcome(verdict)
      modifies jobs, this`busy, this`trace
      ensures Valid() && busy == old(busy) - {job} && jobs.rows.Keys == old(jobs.rows.Keys)
      ensures job in jobs.rows && jobs.rows[job].key == old(jobs.rows)[job].key
      ensures forall j :: j in jobs.rows && j != job ==> jobs.rows[j] == old(jobs.rows)[j]
      ensures old(Queue.Live(jobs.rows[job])) ==>
        (Queue.Live(jobs.rows[job]) <==> verdict == Runner.Transient && !Spent(old(jobs.rows)[job]))
    {
      hide Reaches, Planned0, Play, SysInv, Queue.TableMoves, Queue.UniqueKeys;
      Sound();
      InQueue(job);
      ghost var s := S();
      NoClash(engine.c, rotation, s, job);
      hide Queue.Clashes;
      Runner.Execute(jobs, job, true, verdict, base, max, jitter);
      assert jobs.rows == s.rows[job := Recorded(s.rows, job, verdict, jobs.now, jobs.rows[job].runAfter)];
      Did(s, Record(job, jobs.now, jobs.rows[job].runAfter));
    }

    /**
     The handler and then the runner's verdict on its job, if the process lives that long. Left
     alone with the job that was due, the rotation goes on to have a live job, except after an
     early wake-up and after the last attempt of a step that fails with an error that might heal.
     */
    method RunStep(job: JobId, newKey: Key, id: JobId, base: nat, max: nat, jitter: nat)
      returns (verdict: Runner.Verdict, recorded: bool)
      requires Valid() && newKey !in engine.status && id !in jobs.rows && job in busy && busy[job] == Stepping
      modifies engine, jobs, this`busy, this`trace
      ensures Valid() && busy == old(busy) - {job}
      ensures recorded && old(Due(jobs.rows, job, Current(rotation, engine.W()))) ==>
        Finished(engine.r.state) || engine.r.state == Awaiting || (HasLiveStep() <==>
          !(old(engine.Early()) && verdict == Runner.Returned)
          && !(verdict == Runner.Transient && Spent(old(jobs.rows)[job])))
    {
      hide Reaches, Planned0, Play, SysInv, Rank, Queue.UniqueKeys, Queue.TableMoves;
      Sound();
      InQueue(job);
      ghost var before, key := S(), Current(rotation, engine.W());
      ghost var again := engine.Early();
      var alive;
      verdict, alive := HandleRotationStep(job, newKey, id);
      recorded := *;
      if !alive {
        return verdict, false;
      }
      if !recorded {
        Die(job);
        return;
      }
      ghost var handled := jobs.rows;
      EndJob(job, verdict, base, max, jitter);
      if Due(before.rows, job, key) && !Finished(engine.r.state) && engine.r.state != Awaiting {
        if again || verdict == Runner.Transient {
          OneStepEach(engine.c, rotation, before);
          OnlyDue(rotation, before.rows, jobs.rows, job, key);
        } else {
          assert Due(jobs.rows, id, Current(rotation, engine.W()));
        }
      }
    }

    // ---- over everything that has happened ----

    /** Exactly when the rotation has a live job. */
    lemma HasJob()
      requires Valid()
      ensures HasLive(rotation, jobs.rows) <==>
        exists i :: 0 <= i < |trace| && GainsAt(engine.c, rotation, s0, trace, i)
          && forall k :: i < k < |trace| ==> !StrandsAt(engine.c, rotation, s0, trace, k)
    {
      hide Reaches, Planned0, Play, GainsAt, StrandsAt;
      LiveExactly(engine.c, rotation, s0, trace, S());
    }

    /** Once started it has one until it is finished, unless an event lost a job it still needed. */
    lemma KeepsJob()
      requires Valid() && Spared(engine.c, rotation, s0, trace)
      requires exists i :: 0 <= i < |trace| && trace[i].Enqueue?
      ensures Finished(engine.r.state) || HasLive(rotation, jobs.rows)
    {
      hide Reaches, Planned0, Play, Spared, Kept, Held;
      NeverStranded(engine.c, rotation, s0, trace, S());
    }

    /** However many steps fail, wake early, die or are run again, no more than 2 * waves + 5 move the rotation on. */
    lemma IsBounded()
      requires Valid()
      ensures Advances(engine.c, rotation, s0, trace) <= 2 * (engine.c.lastWave + 1) + 5
      ensures !Finished(engine.r.state) ==> Advances(engine.c, rotation, s0, trace) < 2 * (engine.c.lastWave + 1) + 5
    {
      hide Reaches, Planned0, Play, Advances, ToGo;
      StepsAreBounded(engine.c, rotation, s0, trace, S());
    }
  }

  lemma OneStepEach(c: Config, rotation: nat, s: Sys)
    requires SysInv(c, rotation, s)
    ensures UniqueSteps(rotation, s.rows)
  {}

  /** No other live job has the key of a live job of the rotation. */
  lemma NoClash(c: Config, rotation: nat, s: Sys, job: JobId)
    requires SysInv(c, rotation, s)
    ensures OurLive(rotation, s.rows, job) ==> !Queue.Clashes(s.rows, job, s.rows[job].key)
  {
    hide Inv, KeysInv, BusyInv;
    forall i: JobId | i in s.rows && i != job && Queue.Live(s.rows[i]) && OurLive(rotation, s.rows, job)
      ensures s.rows[i].key != s.rows[job].key
    {
      if Ours(rotation, s.rows[i].key) { assert OurLive(rotation, s.rows, i); }
    }
  }

  function Verdict(end: End): Runner.Verdict {
    match end
    case Errs => Runner.Transient
    case GivesUp => Runner.Permanent
    case _ => Runner.Returned
  }

  /** A rotation never goes back to waiting for approval. */
  lemma NotAgain(c: Config, w0: World, log: seq<Action>, w: World, more: seq<Action>, v: World)
    requires Reaches(c, w0, log, w) && Reaches(c, w0, more, v) && log <= more
    ensures w.r.state != Awaiting ==> v.r.state != Awaiting
  {
    assert more == log + more[|log|..];
    RestOfRun(c, w0, log, w, more[|log|..], v);
    InvRun(c, w0, log, w);
    hide Run, Inv, Reaches;
    if w.r.state != Awaiting { StaysApproved(c, w, more[|log|..], v); }
  }

  lemma Continued(c: Config, w0: World, log: seq<Action>, w: World, more: seq<Action>, v: World)
    requires Reaches(c, w0, log, w) && Reaches(c, w0, log + more, v)
    ensures Run(c, w, more) == Some(v)
  {
    RestOfRun(c, w0, log, w, more, v);
  }

  lemma ClashIsDue(rows: Table, id: JobId, key: Idem)
    requires id !in rows
    ensures Queue.Clashes(rows, id, Some(key)) <==> HasDue(rows, key)
  {
    if Queue.Clashes(rows, id, Some(key)) {
      var j :| j in rows && j != id && Queue.Live(rows[j]) && rows[j].key == Some(key);
      assert Due(rows, j, key);
    }
  }
}
