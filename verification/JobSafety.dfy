/** Attempt budgets over every history of the queue, and one executor at a time while leases are kept fresh. */
module JobSafety {
  import opened Arithmetic
  import opened Bits
  import opened Options
  import opened JobQueue

  // ---- the attempt budget ----

  /** A history: the table at each moment, and the clock when the next statement ran. */
  datatype Moment<K> = Moment(rows: Table<K>, now: int)

  ghost predicate History<K>(h: seq<Moment<K>>) {
    forall k :: 0 <= k < |h| - 1 ==> TableMoves(h[k].rows, h[k + 1].rows, h[k].now)
  }

  function Budget<K>(j: Job<K>): nat {
    if j.maxAttempts < 1 then 1 else j.maxAttempts
  }

  ghost predicate LeasedAt<K>(h: seq<Moment<K>>, k: nat, id: JobId)
    requires k + 1 < |h|
  {
    id in h[k].rows && id in h[k + 1].rows && Leases(h[k].rows[id], h[k + 1].rows[id], h[k].now)
  }

  /** How often the job was leased in a history. */
  ghost function LeaseCount<K>(h: seq<Moment<K>>, id: JobId): nat {
    if |h| < 2 then 0
    else LeaseCount(h[..|h| - 1], id) + if LeasedAt(h, |h| - 2, id) then 1 else 0
  }

  predicate WithinBudget<K>(j: Job<K>) {
    && j.attempts <= Budget(j)
    && (j.state == Queued ==> j.attempts < Budget(j))
  }

  lemma MovesKeepBudget<K>(j: Job<K>, v: Job<K>, now: int)
    requires WithinBudget(j) && Moves(j, v, now)
    ensures WithinBudget(v) && v.maxAttempts == j.maxAttempts
    ensures v.attempts == j.attempts + if Leases(j, v, now) then 1 else 0
  {}

  /**
   Whatever statements interleave, including writes by workers that have lost their lease, a job
   is leased once per counted attempt and never more often than its budget.
   */
  lemma {:induction false} LeasesWithinBudget<K>(h: seq<Moment<K>>, id: JobId)
    requires h != [] && History(h) && id in h[0].rows && IsNew(h[0].rows[id])
    ensures id in h[|h| - 1].rows && WithinBudget(h[|h| - 1].rows[id])
    ensures h[|h| - 1].rows[id].attempts == LeaseCount(h, id) <= Budget(h[0].rows[id])
    ensures h[|h| - 1].rows[id].maxAttempts == h[0].rows[id].maxAttempts
  {
    if |h| > 1 {
      var n := |h| - 1;
      LeasesWithinBudget(h[..n], id);
      assert TableMoves(h[n - 1].rows, h[n].rows, h[n - 1].now);
      MovesKeepBudget(h[n - 1].rows[id], h[n].rows[id], h[n - 1].now);
    }
  }

  // ---- executors ----

  type Exec = nat

  /** One handler call: the job it runs, the runner's identity, and when its lease was last refreshed. */
  datatype Execution = Execution(job: JobId, worker: Worker, beat: int)

  datatype Pool<K> = Pool(rows: Table<K>, now: int, running: map<Exec, Execution>)

  datatype Event<K> =
    | Tick(d: nat) | Insert(id: JobId, job: Job<K>) | Lease(e: Exec, id: JobId, w: Worker) | Beat(e: Exec)
    | Finish(e: Exec) | Retry(e: Exec, backoff: int) | Abandon(e: Exec) | Die(e: Exec)
    | Stop(id: JobId) | Reap

  ghost predicate Can<K>(s: Pool<K>, ev: Event<K>) {
    match ev
    case Tick(_) => true
    case Insert(id, job) => id !in s.rows && IsNew(job)
    case Lease(e, id, _) => e !in s.running && id in s.rows && s.rows[id].state == Queued && s.rows[id].runAfter <= s.now
    case Beat(e) => e in s.running
    case Finish(e) => e in s.running
    case Retry(e, _) => e in s.running
    case Abandon(e) => e in s.running
    case Die(e) => e in s.running
    case Stop(id) => id in s.rows && Live(s.rows[id])
    case Reap => true
  }

  function Ended<K>(s: Pool<K>, e: Exec): Pool<K> {
    s.(running := s.running - {e})
  }

  function WithJob<K>(s: Pool<K>, id: JobId, j: Job<K>): Pool<K> {
    if id in s.rows then s.(rows := s.rows[id := j]) else s
  }

  ghost function After<K>(s: Pool<K>, ev: Event<K>, ttl: int): Pool<K>
    requires Can(s, ev)
  {
    match ev
    case Tick(d) => s.(now := s.now + d)
    case Insert(id, job) => s.(rows := s.rows[id := job])
    case Lease(e, id, w) =>
      WithJob(s, id, Leased(s.rows[id], w, s.now)).(running := s.running[e := Execution(id, w, s.now)])
    case Beat(e) =>
      var x := s.running[e];
      var s' := s.(running := s.running[e := x.(beat := s.now)]);
      if x.job in s.rows && s.rows[x.job].lockedBy == Some(x.worker) && s.rows[x.job].state == Running
      then WithJob(s', x.job, s.rows[x.job].(lockedAt := Some(s.now))) else s'
    case Finish(e) =>
      var id := s.running[e].job;
      if id in s.rows then Ended(WithJob(s, id, Unlocked(s.rows[id], Succeeded)), e) else Ended(s, e)
    case Retry(e, backoff) =>
      var id := s.running[e].job;
      if id !in s.rows || (Retried(s.rows[id]) == Queued && Clashes(s.rows, id, s.rows[id].key)) then Ended(s, e)
      else Ended(WithJob(s, id, Unlocked(s.rows[id], Retried(s.rows[id])).(runAfter := s.now + backoff)), e)
    case Abandon(e) =>
      var id := s.running[e].job;
      if id in s.rows && s.rows[id].state != Succeeded && s.rows[id].state != Cancelled
      then Ended(WithJob(s, id, Unlocked(s.rows[id], Dead).(runAfter := s.now)), e) else Ended(s, e)
    case Die(e) => Ended(s, e)
    case Stop(id) => WithJob(s, id, s.rows[id].(state := Cancelled))
    case Reap => s.(rows := map i | i in s.rows :: Reaped(s.rows[i], s.now, ttl))
  }

  /** Any run at all: a handler may fall behind, lose its lease to the reaper, and still finish. */
  ghost function Play<K>(s: Pool<K>, events: seq<Event<K>>, ttl: int): Option<Pool<K>> {
    if events == [] then Some(s)
    else
      match Play(s, events[..|events| - 1], ttl)
      case None => None
      case Some(v) => if Can(v, events[|events| - 1]) then Some(After(v, events[|events| - 1], ttl)) else None
  }

  /** The clock never gets more than ttl past the last heartbeat of a running handler. */
  ghost predicate InTime<K>(s: Pool<K>, ev: Event<K>, ttl: int) {
    ev.Tick? ==> forall e :: e in s.running ==> s.now + ev.d <= s.running[e].beat + ttl
  }

  /** A run whose handlers all refresh their leases within the ttl. */
  ghost predicate Timely<K>(s: Pool<K>, events: seq<Event<K>>, ttl: int)
    requires Play(s, events, ttl).Some?
  {
    events == [] ||
      var before := events[..|events| - 1];
      Timely(s, before, ttl) && InTime(Play(s, before, ttl).value, events[|events| - 1], ttl)
  }

  /** Every event is one of the queue's statements, so the budget above covers these runs too. */
  lemma EventIsAStatement<K>(s: Pool<K>, ev: Event<K>, ttl: int)
    requires Can(s, ev)
    ensures TableMoves(s.rows, After(s, ev, ttl).rows, s.now)
  {
    hide Clashes;
  }

  /** A handler still holds its lease, or the job was cancelled under it. */
  ghost predicate Holds<K>(s: Pool<K>, e: Exec, ttl: int)
    requires e in s.running
  {
    var x := s.running[e];
    && x.job in s.rows && x.beat <= s.now <= x.beat + ttl
    && var j := s.rows[x.job];
    || j.state == Cancelled
    || (j.state == Running && j.lockedBy == Some(x.worker) && j.lockedAt.Some? && x.beat <= j.lockedAt.value)
  }

  ghost predicate Exclusive<K>(s: Pool<K>, ttl: int) {
    && (forall e :: e in s.running ==> Holds(s, e, ttl))
    && (forall e, f :: e in s.running && f in s.running && s.running[e].job == s.running[f].job ==> e == f)
  }

  lemma EventKeepsHold<K>(s: Pool<K>, ev: Event<K>, ttl: int, e: Exec)
    requires 0 <= ttl && Exclusive(s, ttl) && Can(s, ev) && InTime(s, ev, ttl) && e in After(s, ev, ttl).running
    ensures Holds(After(s, ev, ttl), e, ttl)
  {
    hide Clashes;
    if e in s.running { assert Holds(s, e, ttl); }
  }

  lemma EventKeepsApart<K>(s: Pool<K>, ev: Event<K>, ttl: int, e: Exec, f: Exec)
    requires Exclusive(s, ttl) && Can(s, ev) && e in After(s, ev, ttl).running && f in After(s, ev, ttl).running
    requires After(s, ev, ttl).running[e].job == After(s, ev, ttl).running[f].job
    ensures e == f
  {
    hide Clashes;
    if e in s.running { assert Holds(s, e, ttl); }
    if f in s.running { assert Holds(s, f, ttl); }
  }

  lemma EventKeepsExclusive<K>(s: Pool<K>, ev: Event<K>, ttl: int)
    requires 0 <= ttl && Exclusive(s, ttl) && Can(s, ev) && InTime(s, ev, ttl)
    ensures Exclusive(After(s, ev, ttl), ttl)
  {
    var v := After(s, ev, ttl);
    forall e | e in v.running ensures Holds(v, e, ttl) {
      EventKeepsHold(s, ev, ttl, e);
    }
    forall e, f | e in v.running && f in v.running && v.running[e].job == v.running[f].job ensures e == f {
      EventKeepsApart(s, ev, ttl, e, f);
    }
    hide Can, After, Holds, InTime;
  }

  /**
   If every running handler refreshes its lease within the ttl, no two handlers ever run the
   same job at once, whatever is enqueued, cancelled, reaped, retried or killed meanwhile.
   */
  lemma {:induction false} OneExecutor<K>(s: Pool<K>, events: seq<Event<K>>, ttl: int, v: Pool<K>, e: Exec, f: Exec)
    requires 0 <= ttl && s.running == map[] && Play(s, events, ttl) == Some(v) && Timely(s, events, ttl)
    requires e in v.running && f in v.running && v.running[e].job == v.running[f].job
    ensures e == f
  {
    AlwaysExclusive(s, events, ttl, v);
  }

  lemma {:induction false} AlwaysExclusive<K>(s: Pool<K>, events: seq<Event<K>>, ttl: int, v: Pool<K>)
    requires 0 <= ttl && s.running == map[] && Play(s, events, ttl) == Some(v) && Timely(s, events, ttl)
    ensures Exclusive(v, ttl)
  {
    hide Can, After, Exclusive, InTime;
    if events == [] {
      NobodyRuns(s, ttl);
    } else {
      var n := |events| - 1;
      var u := Play(s, events[..n], ttl).value;
      AlwaysExclusive(s, events[..n], ttl, u);
      EventKeepsExclusive(u, events[n], ttl);
    }
  }

  lemma NobodyRuns<K>(s: Pool<K>, ttl: int)
    requires s.running == map[]
    ensures Exclusive(s, ttl)
  {}

  // ---- when a finished job moves ----

  /** The job is not to run again. */
  predicate Terminal<K>(j: Job<K>) {
    j.state == Succeeded || j.state == Cancelled || j.state == Dead
  }

  /** The handler that makes the event runs the job. */
  predicate Writes<K>(s: Pool<K>, ev: Event<K>, id: JobId) {
    (ev.Finish? || ev.Retry?) && ev.e in s.running && s.running[ev.e].job == id
  }

  /** The unique index refuses the requeueing of the job. */
  predicate Refused<K(==)>(s: Pool<K>, ev: Event<K>, id: JobId)
    requires id in s.rows
  {
    ev.Retry? && Retried(s.rows[id]) == Queued && Clashes(s.rows, id, s.rows[id].key)
  }

  /** Where a handler of the job that comes back would leave it. */
  function Outcome<K>(j: Job<K>, ev: Event<K>): JobState
    requires ev.Finish? || ev.Retry?
  {
    if ev.Finish? then Succeeded else Retried(j)
  }

  /**
   A finished job changes state exactly when a handler of it, however late, returns or fails, and
   what that writes is another state. No lease needs to be held.
   */
  lemma FinishedMoves<K>(s: Pool<K>, ev: Event<K>, ttl: int, id: JobId)
    requires Can(s, ev) && id in s.rows && Terminal(s.rows[id])
    ensures id in After(s, ev, ttl).rows
    ensures After(s, ev, ttl).rows[id].state != s.rows[id].state
      <==> Writes(s, ev, id) && !Refused(s, ev, id) && Outcome(s.rows[id], ev) != s.rows[id].state
  {
    hide Clashes;
  }

  /** While leases are kept fresh, such a handler was cancelled, and every word of it counts. */
  lemma CancelledMoves<K>(s: Pool<K>, ev: Event<K>, ttl: int, id: JobId)
    requires 0 <= ttl && Exclusive(s, ttl) && Can(s, ev) && id in s.rows && Terminal(s.rows[id])
    ensures id in After(s, ev, ttl).rows
    ensures After(s, ev, ttl).rows[id].state != s.rows[id].state <==> Writes(s, ev, id) && !Refused(s, ev, id)
    ensures After(s, ev, ttl).rows[id].state != s.rows[id].state ==> s.rows[id].state == Cancelled
  {
    hide After, Clashes;
    FinishedMoves(s, ev, ttl, id);
    if Writes(s, ev, id) {
      assert Holds(s, ev.e, ttl);
      assert s.rows[id].state == Cancelled;
    }
  }

  ghost predicate Unattended<K>(s: Pool<K>, id: JobId) {
    forall e :: e in s.running ==> s.running[e].job != id
  }

  lemma StaysUnattended<K>(s: Pool<K>, ev: Event<K>, ttl: int, id: JobId)
    requires Can(s, ev) && id in s.rows && Terminal(s.rows[id]) && Unattended(s, id)
    ensures Unattended(After(s, ev, ttl), id)
  {
    hide Clashes;
  }

  /** A finished job without a handler keeps its state in every run, timely or not. */
  lemma {:induction false} UnattendedIsFinal<K>(s: Pool<K>, events: seq<Event<K>>, ttl: int, v: Pool<K>, id: JobId)
    requires id in s.rows && Terminal(s.rows[id]) && Unattended(s, id) && Play(s, events, ttl) == Some(v)
    ensures id in v.rows && v.rows[id].state == s.rows[id].state && Unattended(v, id)
  {
    hide Can, After, Unattended;
    if events != [] {
      var n := |events| - 1;
      var u := Play(s, events[..n], ttl).value;
      UnattendedIsFinal(s, events[..n], ttl, u, id);
      StaysUnattended(u, events[n], ttl, id);
      Attended(u, events[n], ttl, id);
    }
  }

  lemma Attended<K>(s: Pool<K>, ev: Event<K>, ttl: int, id: JobId)
    requires Can(s, ev) && id in s.rows && Terminal(s.rows[id]) && Unattended(s, id)
    ensures id in After(s, ev, ttl).rows && After(s, ev, ttl).rows[id].state == s.rows[id].state
  {
    FinishedMoves(s, ev, ttl, id);
    hide Can, After;
  }

  /** Some continuation of the run leaves the job in another state. */
  ghost predicate CanStillMove<K(!new)>(s: Pool<K>, ttl: int, id: JobId)
    requires id in s.rows
  {
    exists events :: Moved(s, events, ttl, id)
  }

  ghost predicate Moved<K>(s: Pool<K>, events: seq<Event<K>>, ttl: int, id: JobId)
    requires id in s.rows
  {
    var v := Play(s, events, ttl);
    v.Some? && Timely(s, events, ttl) && id in v.value.rows && v.value.rows[id].state != s.rows[id].state
  }

  /**
   The exact condition. While leases are kept fresh, the state of a finished job is final unless
   it was cancelled under a handler that has not come back: then, and only then, it can change.
   */
  lemma FinalUnlessAttended<K(!new)>(s: Pool<K>, before: seq<Event<K>>, ttl: int, v: Pool<K>, id: JobId)
    requires 0 <= ttl && s.running == map[] && Play(s, before, ttl) == Some(v) && Timely(s, before, ttl)
    requires id in v.rows && Terminal(v.rows[id])
    ensures CanStillMove(v, ttl, id) <==> !Unattended(v, id)
    ensures CanStillMove(v, ttl, id) ==> v.rows[id].state == Cancelled
  {
    AlwaysExclusive(s, before, ttl, v);
    if Unattended(v, id) {
      forall events | Play(v, events, ttl).Some? ensures !Moved(v, events, ttl, id) {
        UnattendedIsFinal(v, events, ttl, Play(v, events, ttl).value, id);
      }
    } else {
      var e :| e in v.running && v.running[e].job == id;
      Returns(v, e, ttl, id);
      assert Moved(v, [Finish(e)], ttl, id);
    }
  }

  lemma Returns<K>(v: Pool<K>, e: Exec, ttl: int, id: JobId)
    requires 0 <= ttl && Exclusive(v, ttl) && e in v.running && v.running[e].job == id
    requires id in v.rows && Terminal(v.rows[id])
    ensures v.rows[id].state == Cancelled && Moved(v, [Finish(e)], ttl, id)
  {
    assert Holds(v, e, ttl);
    Once(v, Finish(e), ttl);
  }

  lemma Once<K>(s: Pool<K>, ev: Event<K>, ttl: int)
    requires Can(s, ev)
    ensures Play(s, [ev], ttl) == Some(After(s, ev, ttl))
    ensures InTime(s, ev, ttl) ==> Timely(s, [ev], ttl)
  {
    hide Can, After, InTime;
    assert [ev][..0] == [];
    assert Play(s, [], ttl) == Some(s);
  }

  /** One more event of a run. */
  lemma Then<K>(s: Pool<K>, events: seq<Event<K>>, ttl: int, v: Pool<K>, ev: Event<K>, w: Pool<K>)
    returns (more: seq<Event<K>>)
    requires Play(s, events, ttl) == Some(v) && Can(v, ev) && After(v, ev, ttl) == w
    ensures Play(s, more, ttl) == Some(w)
    ensures Timely(s, events, ttl) && InTime(v, ev, ttl) ==> Timely(s, more, ttl)
  {
    hide Can, After, InTime;
    more := events + [ev];
    assert more[..|events|] == events;
  }

  function Sample(): Job<nat> {
    Job(None, "sample", Queued, 0, 0, 5, 0, None, None)
  }

  const FRESH: Pool<nat> := Pool(map[], 0, map[])

  /** The pool with the sample job alone. */
  function Only(j: Job<nat>, now: int, running: map<Exec, Execution>): Pool<nat> {
    Pool(map[1 := j], now, running)
  }

  /** The sample is enqueued, and worker 7 leases it. */
  lemma SampleLeased(ttl: int) returns (events: seq<Event<nat>>)
    ensures var v := Only(Leased(Sample(), 7, 0), 0, map[2 := Execution(1, 7, 0)]);
      Play(FRESH, events, ttl) == Some(v) && Timely(FRESH, events, ttl)
  {
    events := [];
    assert Play(FRESH, events, ttl) == Some(FRESH) && Timely(FRESH, events, ttl);
    hide Play, Timely;
    var queued := Only(Sample(), 0, map[]);
    events := Then(FRESH, events, ttl, FRESH, Insert(1, Sample()), queued);
    events := Then(FRESH, events, ttl, queued, Lease(2, 1, 7), Only(Leased(Sample(), 7, 0), 0, map[2 := Execution(1, 7, 0)]));
  }

  /** Cancelled under a running handler, a job succeeds when the handler returns and is queued again when it fails. */
  lemma CancelledJobMoves(ttl: int) returns (events: seq<Event<nat>>, v: Pool<nat>)
    requires 0 <= ttl
    ensures Play(FRESH, events, ttl) == Some(v) && Timely(FRESH, events, ttl)
    ensures 1 in v.rows && v.rows[1].state == Cancelled
    ensures Can(v, Finish(2)) && After(v, Finish(2), ttl).rows[1].state == Succeeded
    ensures Can(v, Retry(2, 0)) && After(v, Retry(2, 0), ttl).rows[1].state == Queued
  {
    hide Play, Timely;
    events := SampleLeased(ttl);
    var leased := Leased(Sample(), 7, 0);
    var held := map[2 := Execution(1, 7, 0)];
    v := Only(leased.(state := Cancelled), 0, held);
    events := Then(FRESH, events, ttl, Only(leased, 0, held), Stop(1), v);
  }

  /** The handler misses its heartbeats, the job is reaped, and a second worker leases it. */
  lemma LeaseLost(ttl: int) returns (events: seq<Event<nat>>, v: Pool<nat>)
    requires 0 <= ttl
    ensures Play(FRESH, events, ttl) == Some(v)
    ensures v.running == map[2 := Execution(1, 7, 0), 3 := Execution(1, 8, ttl + 1)]
    ensures v.rows == map[1 := Sample().(state := Running, attempts := 2, lockedBy := Some(8), lockedAt := Some(ttl + 1))]
  {
    hide Play, Timely;
    events := SampleLeased(ttl);
    var leased := Leased(Sample(), 7, 0);
    var held := map[2 := Execution(1, 7, 0)];
    var late := Only(leased, ttl + 1, held);
    events := Then(FRESH, events, ttl, Only(leased, 0, held), Tick(ttl + 1), late);
    var again := Only(Unlocked(leased, Queued), ttl + 1, held);
    ReapsSample(leased, ttl, held);
    events := Then(FRESH, events, ttl, late, Reap, again);
    v := Only(Leased(Unlocked(leased, Queued), 8, ttl + 1), ttl + 1, held[3 := Execution(1, 8, ttl + 1)]);
    events := Then(FRESH, events, ttl, again, Lease(3, 1, 8), v);
  }

  lemma ReapsSample(leased: Job<nat>, ttl: int, held: map<Exec, Execution>)
    requires leased == Leased(Sample(), 7, 0)
    ensures After(Only(leased, ttl + 1, held), Reap, ttl) == Only(Unlocked(leased, Queued), ttl + 1, held)
  {}

  /**
   A worker that lost its lease moves a finished job: the second worker's success is queued again
   when the first fails, and the second worker's refusal for good succeeds when the first returns.
   */
  lemma StaleHandlerMoves(ttl: int) returns (events: seq<Event<nat>>, v: Pool<nat>, dying: seq<Event<nat>>, u: Pool<nat>)
    requires 0 <= ttl
    ensures Play(FRESH, events, ttl) == Some(v) && 1 in v.rows && v.rows[1].state == Succeeded
    ensures Can(v, Retry(2, 0)) && After(v, Retry(2, 0), ttl).rows[1].state == Queued
    ensures Play(FRESH, dying, ttl) == Some(u) && 1 in u.rows && u.rows[1].state == Dead
    ensures Can(u, Finish(2)) && After(u, Finish(2), ttl).rows[1].state == Succeeded
  {
    hide Play, Timely;
    var lost, w := LeaseLost(ttl);
    v, u := After(w, Finish(3), ttl), After(w, Abandon(3), ttl);
    events := Then(FRESH, lost, ttl, w, Finish(3), v);
    dying := Then(FRESH, lost, ttl, w, Abandon(3), u);
  }

  // ---- the retry delay ----

  lemma {:induction false} Exp2Grows(a: nat, b: nat)
    requires a <= b
    ensures 1 <= Exp2(a) <= Exp2(b)
  {
    if a < b { Exp2Grows(a, b - 1); } else if a > 0 { Exp2Grows(a - 1, a - 1); }
  }

  /** base * 2^(attempt - 1), capped at max, plus a jitter of at most a quarter. */
  method Backoff(attempt: int, base: nat, max: nat, jitter: nat) returns (delay: nat)
    ensures var exact := base * Exp2(if attempt < 1 then 0 else attempt - 1);
      var capped := if exact > max then max else exact;
      delay == capped + jitter % (capped / 4 + 1)
  {
    var n := if attempt < 1 then 1 else attempt;
    delay := base;
    var i := 1;
    while i < n && delay < max
      invariant 1 <= i <= n && delay == base * Exp2(i - 1)
      decreases n - i
    {
      delay := delay * 2;
      i := i + 1;
    }
    Capped(base, max, i - 1, n - 1);
    if delay > max {
      delay := max;
    }
    delay := delay + jitter % (delay / 4 + 1);
  }

  /** Once the cap is reached, further doubling changes nothing. */
  lemma Capped(base: nat, max: nat, i: nat, n: nat)
    requires i <= n && (i == n || base * Exp2(i) >= max)
    ensures base * Exp2(i) == base * Exp2(n) || (base * Exp2(i) >= max && base * Exp2(n) >= max)
  {
    Exp2Grows(i, n);
    MulMonotone(Exp2(i), Exp2(n), base);
  }

  // ---- the runner's last word on a job ----

  datatype Verdict = Returned | Permanent | Transient

  /** A missing handler requeues; an error is retried later unless it can never heal. */
  method Execute<K(==)>(jobs: Jobs<K>, id: JobId, handled: bool, verdict: Verdict, base: nat, max: nat, jitter: nat)
    requires jobs.Valid() && id in jobs.rows
    modifies jobs`rows
    ensures jobs.Valid() && TableMoves(old(jobs.rows), jobs.rows, jobs.now) && jobs.rows.Keys == old(jobs.rows.Keys)
    ensures forall j :: j in old(jobs.rows) && j != id ==> j in jobs.rows && jobs.rows[j] == old(jobs.rows)[j]
    ensures id in jobs.rows && var was, now := old(jobs.rows)[id], jobs.rows[id];
      if handled && verdict == Returned then now == Unlocked(was, Succeeded)
      else if handled && verdict == Permanent then
        now == if was.state == Succeeded || was.state == Cancelled then was else Unlocked(was, Dead).(runAfter := jobs.now)
      else if Retried(was) == Queued && Clashes(old(jobs.rows), id, was.key) then now == was
      else
        var exact := base * Exp2(if was.attempts < 1 then 0 else was.attempts - 1);
        var capped := if exact > max then max else exact;
        var delay := if handled then capped + jitter % (capped / 4 + 1) else 60_000_000_000;
        now == was.(state := if was.attempts < was.maxAttempts then Queued else Dead, lockedBy := None, lockedAt := None,
                    runAfter := jobs.now + delay)
  {
    hide Clashes, TableMoves, UniqueKeys, Exp2;
    if !handled {
      var _, _ := jobs.Fail(id, 60_000_000_000);
      return;
    }
    match verdict
    case Returned => var _ := jobs.Succeed(id);
    case Permanent => var _ := jobs.Kill(id);
    case Transient =>
      var delay := Backoff(jobs.rows[id].attempts, base, max, jitter);
      var _, _ := jobs.Fail(id, delay);
  }
}
