/** Planning: which logins go first. */
module RotationPlan {
  import opened Arithmetic
  import opened RotationProtocol
  import opened RotationEngine

  type Target = nat

  datatype Assignment = Assignment(principal: Principal, target: Target)

  ghost predicate Distinct(all: seq<Assignment>) {
    forall i, j :: 0 <= i < j < |all| ==> all[i].principal != all[j].principal
  }

  predicate Flagged(all: seq<Assignment>, flagged: set<Target>) {
    exists i :: 0 <= i < |all| && all[i].target in flagged
  }

  /** A percentage of the fleet, rounded up. */
  function Want(n: nat, percent: int): int {
    (n * percent + 99) / 100
  }

  lemma WantRoundsUp(n: nat, percent: int)
    requires n > 0 && percent > 0
    ensures 1 <= Want(n, percent) && n * percent <= 100 * Want(n, percent) < n * percent + 100
  {
    MulMonotone(1, n, percent);
  }

  lemma WantOfNothing(percent: int)
    ensures Want(0, percent) == 0
  {}

  function TargetsOf(all: seq<Assignment>, n: nat): set<Target>
    requires n <= |all|
  {
    set i | 0 <= i < n :: all[i].target
  }

  lemma TargetsNext(all: seq<Assignment>, i: nat)
    requires i < |all|
    ensures TargetsOf(all, i + 1) == TargetsOf(all, i) + {all[i].target}
  {}

  lemma TargetsFlagged(all: seq<Assignment>, flagged: set<Target>)
    ensures Flagged(all, flagged) <==> TargetsOf(all, |all|) * flagged != {}
  {
    if i :| 0 <= i < |all| && all[i].target in flagged {
      assert all[i].target in TargetsOf(all, |all|) * flagged;
    }
  }

  /** The targets flagged as canaries if there are any, else a slice of the fleet. */
  function Canaries(all: seq<Assignment>, flagged: set<Target>, percent: int): set<Target> {
    if Flagged(all, flagged) then TargetsOf(all, |all|) * flagged
    else if percent <= 0 || Want(|all|, percent) >= |all| then {}
    else TargetsOf(all, Want(|all|, percent))
  }

  /**
   Which targets go first, told host by host: the flagged ones if any is; otherwise those of the
   leading hosts, as many as make up the percentage, unless that takes in the last host too.
   */
  ghost predicate GoesFirst(all: seq<Assignment>, flagged: set<Target>, percent: int, t: Target) {
    if exists i :: 0 <= i < |all| && all[i].target in flagged then t in flagged
    else
      && percent > 0 && |all| * percent <= 100 * (|all| - 1)
      && exists j :: 0 <= j < |all| && all[j].target == t && 100 * j < |all| * percent
  }

  lemma CanariesGoFirst(all: seq<Assignment>, flagged: set<Target>, percent: int, i: nat)
    requires i < |all|
    ensures all[i].target in Canaries(all, flagged, percent) <==> GoesFirst(all, flagged, percent, all[i].target)
  {
    var t := all[i].target;
    if percent > 0 && !Flagged(all, flagged) {
      WantRoundsUp(|all|, percent);
      var want := Want(|all|, percent);
      hide Want;
      if want < |all| {
        assert forall j: nat :: 100 * j < |all| * percent <==> j < want;
        if t in TargetsOf(all, want) {
          var j :| 0 <= j < want && all[j].target == t;
        }
      }
    }
  }

  lemma CanariesAreTargets(all: seq<Assignment>, flagged: set<Target>, percent: int)
    ensures forall t :: t in Canaries(all, flagged, percent) ==> exists i :: 0 <= i < |all| && all[i].target == t
  {
    if |all| > 0 && percent > 0 { WantRoundsUp(|all|, percent); } else { WantOfNothing(percent); }
  }

  /** Every target that goes first is in wave 0, and every other in wave 1 unless nobody goes first. */
  ghost predicate FirstGoFirst(rows: map<Principal, Progress>, all: seq<Assignment>, flagged: set<Target>, percent: int) {
    forall i :: 0 <= i < |all| ==>
      && all[i].principal in rows
      && rows[all[i].principal] == Progress(
          if GoesFirst(all, flagged, percent, all[i].target)
             || !exists j :: 0 <= j < |all| && GoesFirst(all, flagged, percent, all[j].target) then 0 else 1,
          RtPending)
  }

  lemma WavesAreTold(rows: map<Principal, Progress>, all: seq<Assignment>, flagged: set<Target>, percent: int)
    requires AsPlanned(rows, all, flagged, percent)
    ensures FirstGoFirst(rows, all, flagged, percent)
  {
    hide Canaries, GoesFirst;
    forall j | 0 <= j < |all|
      ensures all[j].target in Canaries(all, flagged, percent) <==> GoesFirst(all, flagged, percent, all[j].target)
    {
      CanariesGoFirst(all, flagged, percent, j);
    }
  }

  /**
   A positive percentage yields a canary unless what it leaves over is less than one host: a small
   fleet goes in one wave however low the percentage.
   */
  lemma CanaryExists(all: seq<Assignment>, flagged: set<Target>, percent: int)
    ensures Canaries(all, flagged, percent) != {} <==>
      Flagged(all, flagged) || (percent > 0 && |all| * (100 - percent) >= 100)
  {
    TargetsFlagged(all, flagged);
    assert |all| * (100 - percent) == 100 * |all| - |all| * percent;
    if percent > 0 && 0 < |all| {
      WantRoundsUp(|all|, percent);
      if Want(|all|, percent) < |all| {
        assert all[0].target in TargetsOf(all, Want(|all|, percent));
      }
    }
  }

  /** One host at ten per cent: the comment promises a canary, and there is none. */
  lemma NoCanary(a: Assignment)
    ensures Canaries([a], {}, 10) == {}
  {
    CanaryExists([a], {}, 10);
  }

  method CanarySet(all: seq<Assignment>, flagged: set<Target>, percent: int) returns (out: set<Target>)
    ensures out == Canaries(all, flagged, percent)
    ensures forall t :: t in out ==> exists i :: 0 <= i < |all| && all[i].target == t
    ensures forall i :: 0 <= i < |all| ==> (all[i].target in out <==> GoesFirst(all, flagged, percent, all[i].target))
  {
    hide TargetsOf, Flagged, Want, GoesFirst;
    CanariesAreTargets(all, flagged, percent);
    forall i | 0 <= i < |all|
      ensures all[i].target in Canaries(all, flagged, percent) <==> GoesFirst(all, flagged, percent, all[i].target)
    {
      CanariesGoFirst(all, flagged, percent, i);
    }
    TargetsFlagged(all, flagged);
    out := {};
    NoTargets(all);
    for i := 0 to |all|
      invariant out == TargetsOf(all, i) * flagged
    {
      TargetsNext(all, i);
      if all[i].target in flagged {
        out := out + {all[i].target};
      }
    }
    if out != {} || |all| == 0 || percent <= 0 {
      assert |all| == 0 ==> out == Canaries(all, flagged, percent) by {
        WantOfNothing(percent);
      }
      return;
    }
    WantRoundsUp(|all|, percent);
    var want := Want(|all|, percent);
    if want >= |all| {
      return;
    }
    for i := 0 to want
      invariant out == TargetsOf(all, i)
    {
      TargetsNext(all, i);
      out := out + {all[i].target};
    }
  }

  lemma NoTargets(all: seq<Assignment>)
    ensures TargetsOf(all, 0) == {}
  {}

  /** The rows added for the first n assignments. */
  function Planned(all: seq<Assignment>, n: nat, canaries: set<Target>): map<Principal, Progress>
    requires n <= |all|
  {
    if n == 0 then map[]
    else
      var a := all[n - 1];
      Planned(all, n - 1, canaries)[a.principal := Progress(if a.target in canaries then 0 else 1, RtPending)]
  }

  lemma {:induction false} PlannedRow(all: seq<Assignment>, n: nat, canaries: set<Target>)
    requires n <= |all| && Distinct(all)
    ensures forall p :: p in Planned(all, n, canaries) <==> exists i :: 0 <= i < n && all[i].principal == p
    ensures forall i :: 0 <= i < n ==>
      && all[i].principal in Planned(all, n, canaries)
      && Planned(all, n, canaries)[all[i].principal] == Progress(if all[i].target in canaries then 0 else 1, RtPending)
  {
    if n > 0 {
      PlannedRow(all, n - 1, canaries);
      assert all[n - 1].principal in Planned(all, n, canaries);
    }
  }

  /** Every row renumbered into wave 0. */
  function Collapse(rows: map<Principal, Progress>): map<Principal, Progress> {
    map p | p in rows :: rows[p].(wave := 0)
  }

  ghost predicate HasWave(rows: map<Principal, Progress>, wave: nat) {
    exists p :: p in rows && rows[p].wave == wave
  }

  predicate AnyTarget(all: seq<Assignment>, n: nat, canaries: set<Target>, canary: bool)
    requires n <= |all|
  {
    exists i :: 0 <= i < n && (all[i].target in canaries) == canary
  }

  lemma WavesPresent(all: seq<Assignment>, canaries: set<Target>)
    requires Distinct(all)
    ensures HasWave(Planned(all, |all|, canaries), 0) <==> AnyTarget(all, |all|, canaries, true)
    ensures HasWave(Planned(all, |all|, canaries), 1) <==> AnyTarget(all, |all|, canaries, false)
  {
    PlannedRow(all, |all|, canaries);
    hide Planned;
    if i :| 0 <= i < |all| && (all[i].target in canaries) == true {
      assert Planned(all, |all|, canaries)[all[i].principal].wave == 0;
    }
    if i :| 0 <= i < |all| && (all[i].target in canaries) == false {
      assert Planned(all, |all|, canaries)[all[i].principal].wave == 1;
    }
  }

  /** Where a target goes: the wave depends on the target alone, so none is split. */
  function WaveOf(all: seq<Assignment>, flagged: set<Target>, percent: int, t: Target): nat {
    var canaries := Canaries(all, flagged, percent);
    if t !in canaries && AnyTarget(all, |all|, canaries, true) then 1 else 0
  }

  ghost predicate AsPlanned(rows: map<Principal, Progress>, all: seq<Assignment>, flagged: set<Target>, percent: int) {
    forall i :: 0 <= i < |all| ==>
      && all[i].principal in rows
      && rows[all[i].principal] == Progress(WaveOf(all, flagged, percent, all[i].target), RtPending)
  }

  /** The highest wave of any row. */
  function Last(rows: map<Principal, Progress>): nat {
    if exists p :: p in rows && rows[p].wave == 1 then 1 else 0
  }

  /** One row at a time, canaries in wave 0 and the rest in wave 1; the process may die after any of them. */
  method AddRows(all: seq<Assignment>, chosen: set<Target>)
    returns (rows: map<Principal, Progress>, written: nat, first: nat, second: nat)
    ensures written <= |all| && rows == Planned(all, written, chosen)
    ensures first > 0 <==> AnyTarget(all, written, chosen, true)
    ensures second > 0 <==> AnyTarget(all, written, chosen, false)
  {
    hide Planned;
    rows, written, first, second := map[], 0, 0, 0;
    NothingPlanned(all, chosen);
    while written < |all|
      invariant written <= |all| && rows == Planned(all, written, chosen)
      invariant first > 0 <==> AnyTarget(all, written, chosen, true)
      invariant second > 0 <==> AnyTarget(all, written, chosen, false)
    {
      var alive: bool := *;
      if !alive {
        return;
      }
      PlannedNext(all, written, chosen);
      if all[written].target in chosen {
        rows := rows[all[written].principal := Progress(0, RtPending)];
        first := first + 1;
      } else {
        rows := rows[all[written].principal := Progress(1, RtPending)];
        second := second + 1;
      }
      written := written + 1;
    }
  }

  /** Rewrites each row into wave 0; the process may die after any of them. */
  method CollapseWaves(before: map<Principal, Progress>) returns (rows: map<Principal, Progress>, whole: bool)
    ensures rows.Keys == before.Keys
    ensures forall p :: p in rows ==> rows[p] == before[p] || rows[p] == before[p].(wave := 0)
    ensures whole ==> rows == Collapse(before)
  {
    rows, whole := before, true;
    var targets := Engine.Listing(before.Keys);
    for i := 0 to |targets|
      invariant rows.Keys == before.Keys
      invariant forall p :: p in rows ==> rows[p] == before[p] || rows[p] == before[p].(wave := 0)
      invariant forall p :: p in targets[..i] ==> p in rows && rows[p].wave == 0
    {
      var alive: bool := *;
      if !alive {
        return rows, false;
      }
      assert targets[i] in targets && targets[..i + 1] == targets[..i] + [targets[i]];
      rows := rows[targets[i] := rows[targets[i]].(wave := 0)];
    }
    assert targets[..|targets|] == targets;
  }

  /**
   Canaries in wave 0 and the rest in wave 1, or everyone in wave 0 when there are no canaries.
   Left to finish, it leaves no wave empty and splits no target between waves. Interrupted, it
   has written the rows of the first assignments only, or renumbered some of them.
   */
  method PlanWaves(all: seq<Assignment>, flagged: set<Target>, percent: int)
    returns (rows: map<Principal, Progress>, lastWave: nat, written: nat, whole: bool)
    requires Distinct(all)
    ensures written <= |all| && (whole ==> written == |all|)
    ensures forall p :: p in rows <==> exists i :: 0 <= i < written && all[i].principal == p
    ensures lastWave <= 1 && forall p :: p in rows ==> rows[p].state == RtPending && rows[p].wave <= lastWave
    ensures lastWave == 0 || HasWave(rows, lastWave)
    ensures forall i :: 0 <= i < written && all[i].target in Canaries(all, flagged, percent) ==> rows[all[i].principal].wave == 0
    ensures whole && rows != map[] ==> HasWave(rows, 0)
    ensures whole ==> AsPlanned(rows, all, flagged, percent)
  {
    hide Planned, Canaries, AsPlanned;
    var chosen := CanarySet(all, flagged, percent);
    var first, second;
    rows, written, first, second := AddRows(all, chosen);
    PlannedRow(all, written, chosen);
    whole := written == |all|;
    if whole {
      AddedAsPlanned(all, flagged, percent);
      if first == 0 && second > 0 {
        rows, whole := CollapseWaves(rows);
      }
    }
    lastWave := Last(rows);
  }

  lemma AddedAsPlanned(all: seq<Assignment>, flagged: set<Target>, percent: int)
    requires Distinct(all)
    ensures var canaries := Canaries(all, flagged, percent);
      var rows := Planned(all, |all|, canaries);
      if AnyTarget(all, |all|, canaries, true) || !AnyTarget(all, |all|, canaries, false)
      then AsPlanned(rows, all, flagged, percent) && (rows != map[] ==> HasWave(rows, 0))
      else AsPlanned(Collapse(rows), all, flagged, percent) && HasWave(Collapse(rows), 0)
  {
    hide Planned, Canaries;
    var canaries := Canaries(all, flagged, percent);
    var rows := Planned(all, |all|, canaries);
    PlannedRow(all, |all|, canaries);
    WavesPresent(all, canaries);
    if rows != map[] {
      var p := Inhabited(rows);
      var i :| 0 <= i < |all| && all[i].principal == p;
      assert AnyTarget(all, |all|, canaries, all[i].target in canaries);
      if !AnyTarget(all, |all|, canaries, true) { Collapsed(rows); }
    }
  }

  lemma NothingPlanned(all: seq<Assignment>, canaries: set<Target>)
    ensures Planned(all, 0, canaries) == map[]
  {}

  lemma PlannedNext(all: seq<Assignment>, i: nat, canaries: set<Target>)
    requires i < |all|
    ensures Planned(all, i + 1, canaries)
      == Planned(all, i, canaries)[all[i].principal := Progress(if all[i].target in canaries then 0 else 1, RtPending)]
    ensures forall b :: AnyTarget(all, i + 1, canaries, b) <==> AnyTarget(all, i, canaries, b) || (all[i].target in canaries) == b
  {
    forall b ensures AnyTarget(all, i + 1, canaries, b) <==> AnyTarget(all, i, canaries, b) || (all[i].target in canaries) == b {
      AnyTargetNext(all, i, canaries, b);
    }
    hide AnyTarget;
  }

  lemma AnyTargetNext(all: seq<Assignment>, i: nat, canaries: set<Target>, b: bool)
    requires i < |all|
    ensures AnyTarget(all, i + 1, canaries, b) <==> AnyTarget(all, i, canaries, b) || (all[i].target in canaries) == b
  {
    if AnyTarget(all, i + 1, canaries, b) {
      var j :| 0 <= j < i + 1 && (all[j].target in canaries) == b;
      if j < i { assert AnyTarget(all, i, canaries, b); }
    }
    if AnyTarget(all, i, canaries, b) {
      var j :| 0 <= j < i && (all[j].target in canaries) == b;
      assert 0 <= j < i + 1;
    }
    if (all[i].target in canaries) == b {
      assert 0 <= i < i + 1;
    }
  }

  lemma Inhabited(rows: map<Principal, Progress>) returns (p: Principal)
    requires rows != map[]
    ensures p in rows
  {
    assert rows.Keys != {};
    p :| p in rows.Keys;
  }

  lemma Collapsed(rows: map<Principal, Progress>)
    requires HasWave(rows, 1)
    ensures HasWave(Collapse(rows), 0)
  {
    var p :| p in rows && rows[p].wave == 1;
    assert Collapse(rows)[p].wave == 0;
  }

  /** The assignments are listed a bounded number at a time, and only the first page is read. */
  const LIMIT := 1000

  /**
   A rotation over the logins the key is assigned to, or the first thousand of them. A
   break-glass key, or one already retired or destroyed, is refused. The rotation exists before
   its rows do: a process that dies on the way leaves a plan that can be started, with `written`
   of the rows. It covers every login exactly when that is all of them.
   */
  method Plan(all: seq<Assignment>, flagged: set<Target>, percent: int, oldKey: Key, breakGlass: bool, approval: bool,
              dryRun: bool, threshold: int, soak: int, granted: map<Principal, set<Key>>, status: map<Key, KeyStatus>,
              installed: map<Principal, set<Key>>, consumers: map<Consumer, Sink>, now: int)
    returns (e: Engine?, written: nat, whole: bool)
    requires Distinct(all) && oldKey in status && installed.Keys == granted.Keys
    requires forall p :: p in granted && oldKey in granted[p] <==> exists i :: 0 <= i < |all| && all[i].principal == p
    requires forall p :: p in granted && oldKey in granted[p] ==> granted[p] <= status.Keys && oldKey in installed[p]
    ensures e == null <==> breakGlass || status[oldKey] == KeyRetired || status[oldKey] == KeyDestroyed
    ensures written <= |all| && written <= 1000 && (e != null && whole ==> written == if |all| <= 1000 then |all| else 1000)
    ensures e != null ==>
      && fresh(e) && e.Valid() && e.h.pc == Idle && e.w0 == e.W() && e.c.lastWave <= 1
      && (forall p :: p in e.rows <==> exists i :: 0 <= i < written && all[i].principal == p)
      && (Assigned(e.c, e.w0) == e.rows.Keys <==> written == |all|)
      && e.c.oldKey == oldKey && e.c.dryRun == dryRun && e.c.threshold == threshold && e.c.soak == soak
      && e.granted == granted && e.status == status && e.installed == installed && e.consumers == consumers
      && (e.r.state == State.Planned || (approval && e.r.state == Awaiting))
      && (written > 0 || whole ==> (e.r.state == Awaiting <==> approval))
    ensures e != null && whole ==>
      && (e.rows != map[] ==> HasWave(e.rows, 0) && HasWave(e.rows, e.c.lastWave))
      && AsPlanned(e.rows, all[..written], flagged, percent)
    ensures e != null && whole ==> FirstGoFirst(e.rows, all[..written], flagged, percent)
  {
    if breakGlass || status[oldKey] == KeyRetired || status[oldKey] == KeyDestroyed {
      return null, 0, false;
    }
    hide Reaches, AsPlanned, HasWave, Assigned, FirstGoFirst;
    var current := Page(all);
    var alive: bool := *;
    if !alive {
      var none := Config(oldKey, dryRun, threshold, soak, 0);
      e := Create(none, false, |current|, all, 0, map[], granted, status, installed, consumers, now);
      return e, 0, false;
    }
    var rows, lastWave;
    rows, lastWave, written, whole := PlanWaves(current, flagged, percent);
    assert current[..|current|] == current;
    var c := Config(oldKey, dryRun, threshold, soak, lastWave);
    if whole { WavesAreTold(rows, current, flagged, percent); }
    e := Create(c, approval, |current|, all, written, rows, granted, status, installed, consumers, now);
  }

  function Page(all: seq<Assignment>): (current: seq<Assignment>)
    ensures |current| == if |all| <= LIMIT then |all| else LIMIT
    ensures forall i :: 0 <= i < |current| ==> current[i] == all[i]
    ensures forall n :: 0 <= n <= |current| ==> current[..n] == all[..n]
  {
    if |all| > LIMIT then all[..LIMIT] else all
  }

  /** The rotation over the rows written for the first `written` assignments. */
  method Create(c: Config, approval: bool, total: nat, all: seq<Assignment>, written: nat, rows: map<Principal, Progress>,
                granted: map<Principal, set<Key>>, status: map<Key, KeyStatus>, installed: map<Principal, set<Key>>,
                consumers: map<Consumer, Sink>, now: int)
    returns (e: Engine)
    requires Distinct(all) && installed.Keys == granted.Keys && written <= |all|
    requires c.oldKey in status && status[c.oldKey] != KeyRetired && status[c.oldKey] != KeyDestroyed
    requires forall p :: p in granted && c.oldKey in granted[p] <==> exists i :: 0 <= i < |all| && all[i].principal == p
    requires forall p :: p in granted && c.oldKey in granted[p] ==> granted[p] <= status.Keys && c.oldKey in installed[p]
    requires forall p :: p in rows <==> exists i :: 0 <= i < written && all[i].principal == p
    requires forall p :: p in rows ==> rows[p].state == RtPending && rows[p].wave <= c.lastWave
    requires c.lastWave == 0 || HasWave(rows, c.lastWave)
    ensures fresh(e) && e.Valid() && e.h.pc == Idle && e.w0 == e.W() && e.c == c && e.rows == rows
    ensures Assigned(e.c, e.w0) == e.rows.Keys <==> written == |all|
    ensures e.granted == granted && e.status == status && e.installed == installed && e.consumers == consumers
    ensures e.r.state == if approval then Awaiting else State.Planned
  {
    hide Reaches;
    Covered(all, granted, c.oldKey, rows.Keys, written);
    e := new Engine(c, approval, total, rows, granted, status, installed, consumers, now);
  }

  /** The first n rows are all the assigned logins exactly when n is all of them. */
  lemma Covered(all: seq<Assignment>, granted: map<Principal, set<Key>>, oldKey: Key, rows: set<Principal>, n: nat)
    requires Distinct(all) && n <= |all|
    requires forall p :: p in granted && oldKey in granted[p] <==> exists i :: 0 <= i < |all| && all[i].principal == p
    requires forall p :: p in rows <==> exists i :: 0 <= i < n && all[i].principal == p
    ensures rows <= (set p | p in granted && oldKey in granted[p])
    ensures (set p | p in granted && oldKey in granted[p]) == rows <==> n == |all|
  {
    if n < |all| {
      assert all[n].principal !in rows;
      assert all[n].principal in granted;
    }
  }
}
