/** The durable queue: each operation is one guarded update of job rows. */
module JobQueue {
  import opened Options

  type JobId = nat
  type Worker = nat

  datatype JobState = Queued | Running | Succeeded | JobFailed | Cancelled | Dead

  datatype Job<K> = Job(key: Option<K>, kind: string, state: JobState, priority: int, attempts: nat, maxAttempts: int,
                        runAfter: int, lockedBy: Option<Worker>, lockedAt: Option<int>)

  type Table<K> = map<JobId, Job<K>>

  // ---- what each statement does to a row ----

  predicate Live<K>(j: Job<K>) {
    j.state == Queued || j.state == Running
  }

  predicate Runnable<K>(j: Job<K>, kinds: set<string>, now: int) {
    j.state == Queued && j.runAfter <= now && (kinds == {} || j.kind in kinds)
  }

  /** ORDER BY priority, run_after */
  predicate Before<K>(a: Job<K>, b: Job<K>) {
    a.priority < b.priority || (a.priority == b.priority && a.runAfter <= b.runAfter)
  }

  function Leased<K>(j: Job<K>, w: Worker, now: int): Job<K> {
    j.(state := Running, attempts := j.attempts + 1, lockedBy := Some(w), lockedAt := Some(now))
  }

  function Unlocked<K>(j: Job<K>, s: JobState): Job<K> {
    j.(state := s, lockedBy := None, lockedAt := None)
  }

  /** Queued again while the budget lasts, then dead. */
  function Retried<K>(j: Job<K>): JobState {
    if j.attempts >= j.maxAttempts then Dead else Queued
  }

  predicate Stalled<K>(j: Job<K>, now: int, ttl: int) {
    j.state == Running && j.lockedAt.Some? && j.lockedAt.value < now - ttl
  }

  function Reaped<K>(j: Job<K>, now: int, ttl: int): Job<K> {
    if Stalled(j, now, ttl) then Unlocked(j, Retried(j)) else j
  }

  /** The partial unique index over queued and running rows. */
  ghost predicate UniqueKeys<K>(rows: Table<K>) {
    forall i, j :: i in rows && j in rows && i != j && Live(rows[i]) && Live(rows[j]) && rows[i].key.Some? ==>
      rows[i].key != rows[j].key
  }

  /** All that any statement can do to one row. */
  predicate Leases<K(==)>(j: Job<K>, v: Job<K>, now: int) {
    j.state == Queued && j.runAfter <= now && v.lockedBy.Some? && v == Leased(j, v.lockedBy.value, now)
  }

  predicate Moves<K(==)>(j: Job<K>, v: Job<K>, now: int) {
    || v == j
    || Leases(j, v, now)
    || v == Unlocked(j, Succeeded)
    || v == Unlocked(j, Retried(j)).(runAfter := v.runAfter)
    || (j.state != Succeeded && j.state != Cancelled && v == Unlocked(j, Dead).(runAfter := now))
    || (Live(j) && v == j.(state := Cancelled))
    || (j.state == Running && v == j.(lockedAt := Some(now)))
  }

  predicate IsNew<K>(j: Job<K>) {
    j.state == Queued && j.attempts == 0
  }

  ghost predicate TableMoves<K>(rows: Table<K>, after: Table<K>, now: int) {
    && (forall i :: i in rows ==> i in after && Moves(rows[i], after[i], now))
    && (forall i :: i in after && i !in rows ==> IsNew(after[i]))
  }

  lemma SameKeys<K>(rows: Table<K>, after: Table<K>)
    requires UniqueKeys(rows) && after.Keys == rows.Keys
    requires forall i :: i in rows ==> after[i].key == rows[i].key && (Live(after[i]) ==> Live(rows[i]))
    ensures UniqueKeys(after)
  {}

  lemma CanLease<K>(j: Job<K>, kinds: set<string>, w: Worker, now: int)
    requires Runnable(j, kinds, now)
    ensures Leases(j, Leased(j, w, now), now) && Live(j)
  {}

  predicate Clashes<K(==)>(rows: Table<K>, id: JobId, key: Option<K>) {
    key.Some? && exists j :: j in rows && j != id && Live(rows[j]) && rows[j].key == key
  }

  class Jobs<K(==)> {
    var rows: Table<K>
    var now: int

    ghost predicate Valid()
      reads this
    {
      UniqueKeys(rows)
    }

    constructor ()
      ensures Valid() && rows == map[] && now == 0
    {
      rows := map[];
      now := 0;
    }

    /** A live job with the same key is returned instead of a duplicate. */
    method Enqueue(id: JobId, key: Option<K>, kind: string, priority: int, maxAttempts: int, runAfter: Option<int>)
      returns (job: JobId)
      requires Valid() && id !in rows
      modifies this`rows
      ensures TableMoves(old(rows), rows, now)
      ensures Valid() && job in rows && rows[job].state in {Queued, Running} && (key.Some? ==> rows[job].key == key)
      ensures if key.Some? && exists j :: j in old(rows) && old(rows)[j].state in {Queued, Running} && old(rows)[j].key == key
        then rows == old(rows)
        else job == id && rows == old(rows)[id := Job(key, kind, Queued, if priority == 0 then 100 else priority, 0,
                                                      if maxAttempts == 0 then 5 else maxAttempts,
                                                      if runAfter.None? then now else runAfter.value, None, None)]
    {
      if Clashes(rows, id, key) {
        job :| job in rows && job != id && Live(rows[job]) && rows[job].key == key;
        return;
      }
      rows := rows[id := Job(key, kind, Queued, if priority == 0 then 100 else priority, 0,
                             if maxAttempts == 0 then 5 else maxAttempts,
                             if runAfter.None? then now else runAfter.value, None, None)];
      return id;
    }

    /** The best `limit` runnable rows, each leased to the worker. */
    method Dequeue(w: Worker, kinds: set<string>, limit: int) returns (leased: seq<JobId>)
      requires Valid()
      modifies this`rows
      ensures TableMoves(old(rows), rows, now)
      ensures Valid() && rows.Keys == old(rows.Keys)
      ensures forall i, j :: 0 <= i < j < |leased| ==> leased[i] != leased[j]
      ensures forall i :: i in leased ==> i in old(rows) && Runnable(old(rows)[i], kinds, now)
      ensures forall i :: i in leased ==>
        && old(rows)[i].state == Queued && old(rows)[i].runAfter <= now && (kinds == {} || old(rows)[i].kind in kinds)
      ensures forall i :: i in rows ==> rows[i] == if i in leased then Leased(old(rows)[i], w, now) else old(rows)[i]
      ensures forall i :: i in leased ==> rows[i] == old(rows)[i].(state := Running, attempts := old(rows)[i].attempts + 1,
                                                                   lockedBy := Some(w), lockedAt := Some(now))
      ensures |leased| <= if limit <= 0 then 1 else limit
      ensures forall i, j :: i in leased && j in old(rows) && j !in leased && old(rows)[j].state == Queued
                             && old(rows)[j].runAfter <= now && (kinds == {} || old(rows)[j].kind in kinds) ==>
        && |leased| == (if limit <= 0 then 1 else limit)
        && (|| old(rows)[i].priority < old(rows)[j].priority
            || (old(rows)[i].priority == old(rows)[j].priority && old(rows)[i].runAfter <= old(rows)[j].runAfter))
      ensures leased == [] ==> forall j :: j in old(rows) ==> !Runnable(old(rows)[j], kinds, now)
      ensures leased == [] ==> forall j :: j in old(rows) && old(rows)[j].state == Queued && old(rows)[j].runAfter <= now ==>
        kinds != {} && old(rows)[j].kind !in kinds
    {
      hide UniqueKeys;
      leased := Select(kinds, if limit <= 0 then 1 else limit);
      rows := map i | i in rows :: if i in leased then Leased(rows[i], w, now) else rows[i];
      forall i | i in old(rows) ensures Moves(old(rows)[i], rows[i], now) {
        if i in leased { CanLease(old(rows)[i], kinds, w, now); }
      }
      forall i | i in old(rows) && i in leased ensures Live(old(rows)[i]) { CanLease(old(rows)[i], kinds, w, now); }
      SameKeys(old(rows), rows);
    }

    /** The subquery: the first `want` runnable rows in priority order. */
    method Select(kinds: set<string>, want: nat) returns (out: seq<JobId>)
      requires want > 0
      ensures forall i, j :: 0 <= i < j < |out| ==> out[i] != out[j]
      ensures forall i :: i in out ==> i in rows && Runnable(rows[i], kinds, now)
      ensures |out| <= want
      ensures forall i, j :: i in out && j in rows && j !in out && Runnable(rows[j], kinds, now) ==>
        |out| == want && Before(rows[i], rows[j])
      ensures out == [] ==> forall j :: j in rows ==> !Runnable(rows[j], kinds, now)
    {
      hide Before, Runnable;
      out := [];
      var left := set i | i in rows && Runnable(rows[i], kinds, now);
      while |out| < want && left != {}
        invariant |out| <= want
        invariant forall i :: i in rows && Runnable(rows[i], kinds, now) ==> i in left || i in out
        invariant forall i :: i in left ==> i in rows && Runnable(rows[i], kinds, now) && i !in out
        invariant forall i :: i in out ==> i in rows && Runnable(rows[i], kinds, now)
        invariant forall i, j :: 0 <= i < j < |out| ==> out[i] != out[j]
        invariant forall i, j :: i in out && j in left ==> Before(rows[i], rows[j])
        decreases left
      {
        var best := Best(left);
        assert forall i :: i in rows && Runnable(rows[i], kinds, now) && i != best ==> i in left - {best} || i in out;
        out := out + [best];
        left := left - {best};
      }
    }

    method Best(of: set<JobId>) returns (best: JobId)
      requires of != {} && of <= rows.Keys
      ensures best in of && forall j :: j in of ==> Before(rows[best], rows[j])
    {
      best :| best in of;
      var rest := of - {best};
      while rest != {}
        invariant rest <= of && best in of
        invariant forall j :: j in of && j !in rest ==> Before(rows[best], rows[j])
        decreases |rest|
      {
        var j :| j in rest;
        rest := rest - {j};
        if !Before(rows[best], rows[j]) {
          best := j;
        }
      }
    }

    /** No guard on the state: the last writer wins. */
    method Succeed(id: JobId) returns (ok: bool)
      requires Valid()
      modifies this`rows
      ensures TableMoves(old(rows), rows, now)
      ensures Valid() && ok == (id in old(rows))
      ensures rows == if ok then old(rows)[id := old(rows)[id].(state := Succeeded, lockedBy := None, lockedAt := None)]
        else old(rows)
    {
      ok := id in rows;
      if ok {
        rows := rows[id := Unlocked(rows[id], Succeeded)];
      }
    }

    /** No guard on the state either, but the unique index may refuse to revive a row. */
    method Fail(id: JobId, backoff: int) returns (ok: bool, dead: bool)
      requires Valid()
      modifies this`rows
      ensures TableMoves(old(rows), rows, now)
      ensures Valid()
      ensures ok <==>
        id in old(rows) && !(old(rows)[id].attempts < old(rows)[id].maxAttempts && Clashes(old(rows), id, old(rows)[id].key))
      ensures ok ==> (dead <==> old(rows)[id].attempts >= old(rows)[id].maxAttempts)
      ensures ok ==> rows == old(rows)[id := old(rows)[id].(state := if dead then Dead else Queued, lockedBy := None,
                                                           lockedAt := None, runAfter := now + backoff)]
      ensures !ok ==> rows == old(rows)
    {
      if id !in rows || (Retried(rows[id]) == Queued && Clashes(rows, id, rows[id].key)) {
        return false, false;
      }
      dead := Retried(rows[id]) == Dead;
      rows := rows[id := Unlocked(rows[id], Retried(rows[id])).(runAfter := now + backoff)];
      return true, dead;
    }

    method Kill(id: JobId) returns (ok: bool)
      requires Valid()
      modifies this`rows
      ensures TableMoves(old(rows), rows, now)
      ensures Valid()
      ensures ok <==> id in old(rows) && old(rows)[id].state != Succeeded && old(rows)[id].state != Cancelled
      ensures rows == if ok then old(rows)[id := old(rows)[id].(state := Dead, lockedBy := None, lockedAt := None, runAfter := now)]
        else old(rows)
    {
      ok := id in rows && rows[id].state != Succeeded && rows[id].state != Cancelled;
      if ok {
        rows := rows[id := Unlocked(rows[id], Dead).(runAfter := now)];
      }
    }

    /** The lease columns stay as they are. */
    method Cancel(id: JobId) returns (ok: bool)
      requires Valid()
      modifies this`rows
      ensures TableMoves(old(rows), rows, now)
      ensures Valid() && (ok <==> id in old(rows) && old(rows)[id].state in {Queued, Running})
      ensures rows == if ok then old(rows)[id := old(rows)[id].(state := Cancelled)] else old(rows)
    {
      ok := id in rows && Live(rows[id]);
      if ok {
        rows := rows[id := rows[id].(state := Cancelled)];
      }
    }

    method Heartbeat(id: JobId, w: Worker)
      requires Valid()
      modifies this`rows
      ensures TableMoves(old(rows), rows, now)
      ensures Valid()
      ensures rows == if id in old(rows) && old(rows)[id].lockedBy == Some(w) && old(rows)[id].state == Running
        then old(rows)[id := old(rows)[id].(lockedAt := Some(now))] else old(rows)
    {
      if id in rows && rows[id].lockedBy == Some(w) && rows[id].state == Running {
        rows := rows[id := rows[id].(lockedAt := Some(now))];
      }
    }

    method ReapStalled(ttl: int) returns (count: nat)
      requires Valid()
      modifies this`rows
      ensures TableMoves(old(rows), rows, now)
      ensures Valid() && rows.Keys == old(rows.Keys)
      ensures forall i :: i in rows ==> rows[i] == Reaped(old(rows)[i], now, ttl)
      ensures forall i :: i in rows ==>
        var j := old(rows)[i];
        rows[i] == if j.state == Running && j.lockedAt.Some? && j.lockedAt.value < now - ttl
                   then j.(state := if j.attempts < j.maxAttempts then Queued else Dead, lockedBy := None, lockedAt := None)
                   else j
      ensures count == |set i | i in old(rows) && Stalled(old(rows)[i], now, ttl)|
    {
      count := |set i | i in rows && Stalled(rows[i], now, ttl)|;
      rows := map i | i in rows :: Reaped(rows[i], now, ttl);
    }
  }
}
