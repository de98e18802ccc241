/** What the protocol promises, over every run from a plan. */
module RotationTheorems {
  import opened Options
  import opened Arithmetic
  import opened RotationProtocol
  import opened RotationSafety
  import opened RotationWindows

  /**
   Add before remove. Wherever a run stands, and wherever it crashed, a login still accepts the
   old key unless the new one was proven there, and then it accepts the new one.
   */
  lemma AddBeforeRemove(c: Config, w0: World, log: seq<Action>, w: World, p: Principal)
    requires Reaches(c, w0, log, w) && p in w0.rows
    ensures p in w.rows && p in w.installed
    ensures p !in w.h.proven ==> c.oldKey in w.installed[p]
    ensures p in w.h.proven ==> w.r.newKey.Some? && w.r.newKey.value in w.installed[p]
  {
    InvRun(c, w0, log, w);
    SameRows(c, w0, log, w);
    assert Safe(c, w, p);
  }

  lemma {:induction false} SameRows(c: Config, w0: World, log: seq<Action>, w: World)
    requires Run(c, w0, log) == Some(w)
    ensures w.rows.Keys == w0.rows.Keys
  {
    hide Enabled, Effect;
    if log != [] {
      var v := Run(c, w0, log[..|log| - 1]).value;
      SameRows(c, w0, log[..|log| - 1], v);
      StepRows(c, v, log[|log| - 1]);
    }
  }

  lemma StepRows(c: Config, w: World, a: Action)
    requires Enabled(c, w, a)
    ensures Effect(c, w, a).rows.Keys == w.rows.Keys
  {
    hide RunEnabled, SinkEnabled, RunEffect, SinkEffect, TallyOf, Desired, Converged;
    match a
    case OnRun(run) => RunKeepsRows(c, w, run);
    case OnRow(_, _) =>
    case OnSinks(sink) => SinkKeepsRows(c, w, sink);
  }

  lemma SinkKeepsRows(c: Config, w: World, a: SinkAction)
    requires SinkEnabled(w, a)
    ensures SinkEffect(c, w, a).rows == w.rows
    ensures SinkEffect(c, w, a).installed == w.installed && SinkEffect(c, w, a).granted == w.granted
  {}

  lemma RunKeepsHosts(c: Config, w: World, a: RunAction)
    requires RunEnabled(c, w, a)
    ensures RunEffect(c, w, a).installed == w.installed && RunEffect(c, w, a).granted == w.granted
    ensures RunEffect(c, w, a).consumers == w.consumers
  {
    hide NoneIn, NoRow, Tolerable, TallyOf;
  }

  lemma OnlyPruningRemoves(c: Config, w: World, q: Principal, a: RowAction, p: Principal)
    requires RowEnabled(c, w, q, a) && p in w.installed
    ensures p in RowEffect(c, w, q, a).installed
    ensures !(w.installed[p] <= RowEffect(c, w, q, a).installed[p]) ==> p == q && a == Prune
  {
    hide TallyOf, Desired;
  }

  /**
   The only way a login loses the old key: pruning, after the new key was proven there and still
   is accepted, after the soak. Whether a consumer is left behind was settled when the soak step
   was taken, at `soak`: one still depends on the old key exactly if one was bound to it then, and
   every other consumer that held the old key has received the new one. Unless a crash cut the
   promotion short, none is left behind.
   */
  lemma OldKeyLeaves(c: Config, w0: World, log: seq<Action>, w: World, a: Action, p: Principal)
    returns (i: nat, soak: World)
    requires Reaches(c, w0, log, w) && Enabled(c, w, a)
    requires p in w.installed && c.oldKey in w.installed[p]
    requires p !in Effect(c, w, a).installed || c.oldKey !in Effect(c, w, a).installed[p]
    ensures a == OnRow(p, Prune) && p in w.rows && w.rows[p].state == RtVerified && p in w.h.proven
    ensures w.r.newKey.Some? && p in Effect(c, w, a).installed && w.r.newKey.value in Effect(c, w, a).installed[p]
    ensures w.r.state == Retiring && w.r.soakUntil.Some? && w.r.soakUntil.value <= w.now
    ensures i < |log| && log[i] == OnRun(BeginSoak) && Run(c, w0, log[..i]) == Some(soak) && In(soak, Promoting)
    ensures BoundTo(w.consumers, c.oldKey) == BoundTo(soak.consumers, c.oldKey)
    ensures forall k :: k in BoundTo(w0.consumers, c.oldKey) ==>
      (Handed(w, k) <==> k !in BoundTo(soak.consumers, c.oldKey))
    ensures PromotionWindow !in w.h.torn ==>
      BoundTo(w.consumers, c.oldKey) == {} && forall k :: k in w.h.owed ==> Handed(w, k)
  {
    InvRun(c, w0, log, w);
    WindowRun(c, w0, log, w);
    hide Inv, WindowInv, RunEffect, RunEnabled, SinkEffect, SinkEnabled;
    match a
    case OnRun(run) => RunKeepsHosts(c, w, run);
    case OnSinks(sink) => SinkKeepsRows(c, w, sink);
    case OnRow(q, row) =>
      OnlyPruningRemoves(c, w, q, row, p);
      PruningIsSafe(c, w, p);
      i, soak := SoakSettles(c, w0, log, w);
      ServedOrBound(c, w0, log, w);
  }

  lemma PruningIsSafe(c: Config, w: World, p: Principal)
    requires Inv(c, w) && WindowInv(c, w) && RowEnabled(c, w, p, Prune)
    ensures p in w.rows && w.rows[p].state == RtVerified && p in w.h.proven
    ensures w.r.newKey.Some? && p in RowEffect(c, w, p, Prune).installed
    ensures w.r.newKey.value in RowEffect(c, w, p, Prune).installed[p]
    ensures w.r.state == Retiring && w.r.soakUntil.Some? && w.r.soakUntil.value <= w.now
    ensures PromotionWindow !in w.h.torn ==>
      BoundTo(w.consumers, c.oldKey) == {} && forall k :: k in w.h.owed ==> Handed(w, k)
  {
    var v := RowEffect(c, w, p, Prune);
    RowStep(c, w, p, Prune);
    assert v.r == w.r && v.h == w.h && v.rows == w.rows && p in w.rows && w.rows[p].state == RtVerified;
    hide RowEffect, RowEnabled, Inv, WindowInv;
    LoginSafe(c, w, p);
    LoginSafe(c, v, p);
    RetiringIsReady(c, w);
  }

  lemma LoginSafe(c: Config, w: World, p: Principal)
    requires Inv(c, w) && p in w.rows
    ensures Safe(c, w, p)
  {}

  lemma RetiringIsReady(c: Config, w: World)
    requires Inv(c, w) && WindowInv(c, w) && In(w, Retiring)
    ensures w.r.soakUntil.Some? && w.r.soakUntil.value <= w.now
    ensures PromotionWindow !in w.h.torn ==>
      BoundTo(w.consumers, c.oldKey) == {} && forall k :: k in w.h.owed ==> Handed(w, k)
  {
    hide HostInv, KeyInv, Shape, RetiredInv, WaveInv, GateInv, HonestInv;
  }

  // ---- the other keys ----

  /**
   What any action does to the keys a login accepts: a deployment adds the keys that are assigned
   to it and not revoked, compromised or destroyed; pruning also takes away every other key the
   store knows; and nothing else changes a host.
   */
  lemma KeysOnHost(c: Config, w: World, a: Action, p: Principal, k: Key)
    requires Enabled(c, w, a) && p in w.installed
    ensures p in Effect(c, w, a).installed
    ensures
      var current := p in w.granted && k in w.granted[p] && k in w.status
        && w.status[k] != KeyRevoked && w.status[k] != KeyCompromised && w.status[k] != KeyDestroyed;
      k in Effect(c, w, a).installed[p] <==>
        if a == OnRow(p, Push) then k in w.installed[p] || current
        else if a == OnRow(p, Prune) then current || (k in w.installed[p] && k !in w.status)
        else k in w.installed[p]
  {
    hide RunEffect, RunEnabled, SinkEffect, SinkEnabled, TallyOf;
    match a
    case OnRun(run) => RunKeepsHosts(c, w, run);
    case OnRow(_, _) =>
    case OnSinks(sink) => SinkKeepsRows(c, w, sink);
  }

  /** No action takes away another key: one that is assigned to the login and not withdrawn, or that the store does not know. */
  lemma OtherKeysStay(c: Config, w: World, a: Action, p: Principal, k: Key)
    requires Enabled(c, w, a) && k != c.oldKey && p in w.installed && k in w.installed[p]
    requires k in w.status ==>
      && p in w.granted && k in w.granted[p]
      && w.status[k] != KeyRevoked && w.status[k] != KeyCompromised && w.status[k] != KeyDestroyed
    ensures p in Effect(c, w, a).installed && k in Effect(c, w, a).installed[p]
  {
    hide Enabled, Effect;
    KeysOnHost(c, w, a, p, k);
  }

  /** Only the old key loses an assignment, and no key is withdrawn. */
  lemma OtherKeysHold(c: Config, w: World, a: Action, p: Principal, k: Key)
    requires Enabled(c, w, a) && k != c.oldKey && k in w.status
    requires w.status[k] != KeyRevoked && w.status[k] != KeyCompromised && w.status[k] != KeyDestroyed
    ensures var v := Effect(c, w, a);
      k in v.status && v.status[k] != KeyRevoked && v.status[k] != KeyCompromised && v.status[k] != KeyDestroyed
    ensures p in w.granted && k in w.granted[p] ==> p in Effect(c, w, a).granted && k in Effect(c, w, a).granted[p]
  {
    hide RunEffect, RunEnabled, RowEffect, RowEnabled, SinkEffect, SinkEnabled;
    match a
    case OnRun(run) => RunHolds(c, w, run, k); RunKeepsHosts(c, w, run);
    case OnRow(q, row) => RowHolds(c, w, q, row, p, k);
    case OnSinks(sink) => SinkHolds(c, w, sink, k); SinkKeepsRows(c, w, sink);
  }

  /** A status is left alone, or becomes another that a deployable key may have. */
  predicate StatusHolds(w: World, v: World, k: Key) {
    k in w.status ==> k in v.status && (v.status[k] == w.status[k] || v.status[k] in {KeyPending, KeyActive, KeyRetiring})
  }

  lemma RunHolds(c: Config, w: World, a: RunAction, k: Key)
    requires RunEnabled(c, w, a) && k != c.oldKey
    ensures StatusHolds(w, RunEffect(c, w, a), k)
  {
    hide TallyOf, NoneIn, NoRow, Tolerable;
  }

  lemma RowHolds(c: Config, w: World, q: Principal, a: RowAction, p: Principal, k: Key)
    requires RowEnabled(c, w, q, a) && k != c.oldKey
    ensures StatusHolds(w, RowEffect(c, w, q, a), k)
    ensures p in w.granted && k in w.granted[p] ==>
      p in RowEffect(c, w, q, a).granted && k in RowEffect(c, w, q, a).granted[p]
  {
    hide TallyOf, Desired, Converged;
  }

  lemma SinkHolds(c: Config, w: World, a: SinkAction, k: Key)
    requires SinkEnabled(w, a)
    ensures StatusHolds(w, SinkEffect(c, w, a), k)
  {
    hide BoundTo;
  }

  /** Over a whole run, from any state. */
  lemma {:induction false} OtherKeysLast(c: Config, w: World, log: seq<Action>, v: World, p: Principal, k: Key)
    requires Run(c, w, log) == Some(v) && k != c.oldKey && p in w.installed && k in w.installed[p]
    requires p in w.granted && k in w.granted[p]
    requires k in w.status && w.status[k] != KeyRevoked && w.status[k] != KeyCompromised && w.status[k] != KeyDestroyed
    ensures p in v.installed && k in v.installed[p] && p in v.granted && k in v.granted[p]
    ensures k in v.status && v.status[k] != KeyRevoked && v.status[k] != KeyCompromised && v.status[k] != KeyDestroyed
  {
    hide Enabled, Effect;
    if log != [] {
      var u := Run(c, w, log[..|log| - 1]).value;
      var a := log[|log| - 1];
      OtherKeysLast(c, w, log[..|log| - 1], u, p, k);
      OtherKeysStay(c, u, a, p, k);
      OtherKeysHold(c, u, a, p, k);
    }
  }

  // ---- the consumers ----

  /** Once the soak has begun no consumer changes until the old key is gone: the soak step is what decides. */
  lemma {:induction false} SoakSettles(c: Config, w0: World, log: seq<Action>, w: World) returns (i: nat, soak: World)
    requires Reaches(c, w0, log, w) && (w.r.state == Soaking || w.r.state == Retiring)
    ensures i < |log| && log[i] == OnRun(BeginSoak) && Run(c, w0, log[..i]) == Some(soak) && In(soak, Promoting)
    ensures w.consumers == soak.consumers
  {
    hide Enabled, Effect, Inv;
    var n := |log| - 1;
    var v := Run(c, w0, log[..n]).value;
    InvRun(c, w0, log[..n], v);
    IntoSoak(c, v, log[n]);
    hide Init;
    if v.r.state == Soaking || v.r.state == Retiring {
      i, soak := SoakSettles(c, w0, log[..n], v);
      assert log[..n][..i] == log[..i];
    } else {
      i, soak := n, v;
    }
  }

  lemma IntoSoak(c: Config, w: World, a: Action)
    requires Inv(c, w) && Enabled(c, w, a) && (Effect(c, w, a).r.state == Soaking || Effect(c, w, a).r.state == Retiring)
    ensures Effect(c, w, a).consumers == w.consumers
    ensures w.r.state == Soaking || w.r.state == Retiring || (a == OnRun(BeginSoak) && In(w, Promoting))
  {
    hide RunEnabled, RunEffect, RowEnabled, RowEffect, SinkEnabled, SinkEffect;
    match a
    case OnRun(run) => RunIntoSoak(c, w, run);
    case OnRow(p, row) => RowKeepsState(c, w, p, row);
    case OnSinks(sink) => NoSinkIntoSoak(c, w, sink);
  }

  lemma RowKeepsState(c: Config, w: World, p: Principal, a: RowAction)
    requires RowEnabled(c, w, p, a)
    ensures RowEffect(c, w, p, a).r.state == w.r.state && RowEffect(c, w, p, a).consumers == w.consumers
  {
    hide TallyOf, Desired, Converged;
  }

  lemma RunIntoSoak(c: Config, w: World, a: RunAction)
    requires RunEnabled(c, w, a) && (RunEffect(c, w, a).r.state == Soaking || RunEffect(c, w, a).r.state == Retiring)
    ensures RunEffect(c, w, a).consumers == w.consumers
    ensures w.r.state == Soaking || w.r.state == Retiring || (a == BeginSoak && In(w, Promoting))
  {
    hide NoneIn, NoRow, Tolerable, TallyOf;
  }

  lemma NoSinkIntoSoak(c: Config, w: World, a: SinkAction)
    requires PcInv(c, w) && SinkEnabled(w, a)
    ensures SinkEffect(c, w, a).r.state != Soaking && SinkEffect(c, w, a).r.state != Retiring
  {
    hide BoundTo;
  }

  /** A consumer holds the key it held at first, or has received the new one. */
  ghost predicate SinkKept(w0: World, w: World, k: Consumer)
    requires k in w0.consumers
  {
    && k in w.consumers && w.consumers[k].enabled == w0.consumers[k].enabled
    && (w.consumers[k].key == w0.consumers[k].key || Handed(w, k))
  }

  lemma {:induction false} ServedOrBound(c: Config, w0: World, log: seq<Action>, w: World)
    requires Reaches(c, w0, log, w)
    ensures forall k :: k in w0.consumers ==> SinkKept(w0, w, k)
    ensures forall k :: k in BoundTo(w0.consumers, c.oldKey) ==> (Handed(w, k) <==> k !in BoundTo(w.consumers, c.oldKey))
  {
    InvRun(c, w0, log, w);
    if log != [] {
      var n := |log| - 1;
      var v := Run(c, w0, log[..n]).value;
      ServedOrBound(c, w0, log[..n], v);
      InvRun(c, w0, log[..n], v);
      forall k | k in w0.consumers ensures SinkKept(w0, w, k) {
        assert SinkKept(w0, v, k);
        StepKeepsSink(c, w0, v, log[n], k);
      }
    }
    hide Shape, HostInv, PcInv, RetiredInv, SoakInv, Reaches, Run;
  }

  lemma StepKeepsSink(c: Config, w0: World, w: World, a: Action, k: Consumer)
    requires Inv(c, w) && Enabled(c, w, a) && k in w0.consumers && SinkKept(w0, w, k)
    ensures SinkKept(w0, Effect(c, w, a), k)
  {
    hide Inv, RunEnabled, RunEffect, RowEnabled, RowEffect, SinkEnabled, SinkEffect;
    match a
    case OnRun(run) => RunSinks(c, w, run);
    case OnRow(p, row) => RowSinks(c, w, p, row);
    case OnSinks(sink) => SinkKeepsSink(c, w0, w, sink, k);
  }

  lemma SinkKeepsSink(c: Config, w0: World, w: World, a: SinkAction, k: Consumer)
    requires SinkEnabled(w, a) && k in w0.consumers && SinkKept(w0, w, k)
    ensures SinkKept(w0, SinkEffect(c, w, a), k)
  {
    hide BoundTo;
  }

  // ---- retirement ----

  /** A login without a row is left exactly as it was. */
  lemma {:induction false} RowlessIsUntouched(c: Config, w0: World, log: seq<Action>, w: World)
    requires Reaches(c, w0, log, w)
    ensures w.rows.Keys == w0.rows.Keys
    ensures forall p :: p in w0.installed && p !in w0.rows ==> p in w.installed && w.installed[p] == w0.installed[p]
  {
    SameRows(c, w0, log, w);
    if log != [] {
      var v := Run(c, w0, log[..|log| - 1]).value;
      RowlessIsUntouched(c, w0, log[..|log| - 1], v);
      forall p | p in w0.installed && p !in w0.rows ensures p in w.installed && w.installed[p] == w0.installed[p] {
        RowlessStep(c, v, log[|log| - 1], p);
      }
    }
  }

  lemma RowlessStep(c: Config, w: World, a: Action, p: Principal)
    requires Enabled(c, w, a) && p in w.installed && p !in w.rows
    ensures p in Effect(c, w, a).installed && Effect(c, w, a).installed[p] == w.installed[p]
  {
    hide RunEnabled, RunEffect, SinkEnabled, SinkEffect, TallyOf, Desired, Converged;
    match a
    case OnRun(run) => RunKeepsHosts(c, w, run);
    case OnSinks(sink) => SinkKeepsRows(c, w, sink);
    case OnRow(_, _) =>
  }

  lemma RowsAfterRetirement(c: Config, w: World)
    requires Inv(c, w) && c.oldKey in w.status && w.status[c.oldKey] == KeyRetired
    ensures forall p :: p in w.rows ==>
      && p in w.installed && (c.oldKey !in w.installed[p] <==> w.rows[p].state == RtRetired)
      && (w.rows[p].state == RtPending || w.rows[p].state == RtStaged || w.rows[p].state == RtRetired)
  {
    hide KeyInv, PcInv, Shape;
    forall p | p in w.rows
      ensures p in w.installed
      ensures c.oldKey !in w.installed[p] <==> w.rows[p].state == RtRetired
      ensures w.rows[p].state == RtPending || w.rows[p].state == RtStaged || w.rows[p].state == RtRetired
    {
      assert Safe(c, w, p);
    }
  }

  /**
   Honest retirement. A key reported retired is gone from every login it was assigned to exactly
   when each of them has a row and none is left pending or staged. Only a crash between the two
   writes of a wave advance leaves such a row; only Plan leaves out a login.
   */
  lemma HonestRetirement(c: Config, w0: World, log: seq<Action>, w: World)
    requires Reaches(c, w0, log, w) && c.oldKey in w.status && w.status[c.oldKey] == KeyRetired
    ensures (forall p :: p in Assigned(c, w0) ==> p in w.installed && c.oldKey !in w.installed[p])
      <==> Assigned(c, w0) == w.rows.Keys && NoRow(w.rows, RtPending) && NoRow(w.rows, RtStaged)
    ensures WaveWindow !in w.h.torn ==>
      forall p :: p in w.rows ==> w.rows[p].state == RtRetired && p in w.installed && c.oldKey !in w.installed[p]
  {
    hide Reaches, Inv, WindowInv;
    InvRun(c, w0, log, w);
    WindowRun(c, w0, log, w);
    RowlessIsUntouched(c, w0, log, w);
    RowsAfterRetirement(c, w);
    RowsAreAssigned(c, w0, log, w);
    HonestRows(c, w);
    forall p | p in Assigned(c, w0) && p !in w.rows ensures p in w.installed && c.oldKey in w.installed[p] {
      assert p in w0.installed && c.oldKey in w0.installed[p];
    }
  }

  lemma RowsAreAssigned(c: Config, w0: World, log: seq<Action>, w: World)
    requires Reaches(c, w0, log, w)
    ensures w.rows.Keys <= Assigned(c, w0)
    ensures forall p :: p in Assigned(c, w0) ==> p in w0.installed && c.oldKey in w0.installed[p]
  {
    SameRows(c, w0, log, w);
    hide Run, TallyOf;
  }

  lemma HonestRows(c: Config, w: World)
    requires WindowInv(c, w) && c.oldKey in w.status && w.status[c.oldKey] == KeyRetired
    ensures WaveWindow !in w.h.torn ==> forall p :: p in w.rows ==> w.rows[p].state == RtRetired
  {
    hide WaveInv, GateInv, PromotionInv;
  }

  /** A completed run leaves only retired and failed logins, and any failed one keeps the key from being retired. */
  lemma CompletedIsSettled(c: Config, w0: World, log: seq<Action>, w: World)
    requires Reaches(c, w0, log, w) && w.r.state == Completed && !c.dryRun
    ensures c.oldKey in w.status
    ensures w.status[c.oldKey] == KeyRetired <==> NoRow(w.rows, RtFailed)
    ensures PromotionWindow !in w.h.torn && !NoRow(w.rows, RtFailed) ==> w.status[c.oldKey] == KeyRetiring
    ensures WaveWindow !in w.h.torn ==>
      forall p :: p in w.rows ==> w.rows[p].state == RtRetired || w.rows[p].state == RtFailed
  {
    hide Reaches, HostInv, WaveInv, GateInv, HonestInv, HandOver, TallyOf, AllPending;
    InvRun(c, w0, log, w);
    WindowRun(c, w0, log, w);
    if WaveWindow !in w.h.torn { CompletedRows(c, w); }
  }

  lemma CompletedRows(c: Config, w: World)
    requires WaveInv(c, w) && w.r.state == Completed && !c.dryRun
    ensures forall p :: p in w.rows ==> w.rows[p].state == RtRetired || w.rows[p].state == RtFailed
  {
    forall p | p in w.rows ensures w.rows[p].state == RtRetired || w.rows[p].state == RtFailed {
      assert Placed(c, w, w.rows[p]);
    }
  }

  /**
   With at most two waves, a wave advance cut by a crash has already reached the last wave, and
   staging is over.
   */
  ghost predicate CutAtLastWave(c: Config, w: World) {
    && (w.h.pc == Advancing ==> w.r.state == Verifying && w.r.wave >= c.lastWave)
    && (WaveWindow in w.h.torn ==>
        && w.r.wave >= c.lastWave && w.h.pc != Advancing
        && w.r.state != Staging && w.r.state != Planned && w.r.state != Awaiting)
  }

  lemma RunCut(c: Config, w: World, a: RunAction)
    requires RunEnabled(c, w, a) && CutAtLastWave(c, w) && c.lastWave <= 1
    ensures CutAtLastWave(c, RunEffect(c, w, a))
  {
    hide NoneIn, NoRow, Tolerable, TallyOf;
  }

  lemma RowCut(c: Config, w: World, p: Principal, a: RowAction)
    requires RowEnabled(c, w, p, a) && CutAtLastWave(c, w)
    ensures CutAtLastWave(c, RowEffect(c, w, p, a))
  {
    hide TallyOf, Desired, Converged;
  }

  lemma SinkCut(c: Config, w: World, a: SinkAction)
    requires SinkEnabled(w, a) && CutAtLastWave(c, w)
    ensures CutAtLastWave(c, SinkEffect(c, w, a))
  {}

  lemma {:induction false} AlwaysCutAtLastWave(c: Config, w0: World, log: seq<Action>, w: World)
    requires Reaches(c, w0, log, w) && c.lastWave <= 1
    ensures CutAtLastWave(c, w)
  {
    hide CutAtLastWave, RunEnabled, RowEnabled, SinkEnabled, RunEffect, RowEffect, SinkEffect;
    if log == [] {
      NothingCut(c, w0);
    } else {
      var n := |log| - 1;
      var v := Run(c, w0, log[..n]).value;
      hide Init;
      AlwaysCutAtLastWave(c, w0, log[..n], v);
      match log[n]
      case OnRun(a) => RunCut(c, v, a);
      case OnRow(p, a) => RowCut(c, v, p, a);
      case OnSinks(a) => SinkCut(c, v, a);
    }
  }

  lemma NothingCut(c: Config, w: World)
    requires Init(c, w)
    ensures CutAtLastWave(c, w)
  {
    hide AllPending, TallyOf;
  }

  /**
   The wave gate. A row leaves pending only while its own wave runs, with every earlier wave
   verified or failed and the failures there within the threshold. Plans have at most two waves,
   and then it holds wherever a crash falls.
   */
  lemma WaveGate(c: Config, w0: World, log: seq<Action>, w: World, a: Action, p: Principal)
    requires Reaches(c, w0, log, w) && Enabled(c, w, a) && (c.lastWave <= 1 || WaveWindow !in w.h.torn)
    requires p in w.rows && w.rows[p].state == RtPending
    requires p in Effect(c, w, a).rows && Effect(c, w, a).rows[p].state != RtPending
    ensures w.r.state == Staging && w.rows[p].wave == w.r.wave
    ensures forall q :: q in w.rows && w.rows[q].wave < w.rows[p].wave ==>
      w.rows[q].state == RtVerified || w.rows[q].state == RtFailed
    ensures var failures := |EarlierFailures(w.rows, w.rows[p].wave)|;
      failures == 0 || failures * 100 < (c.threshold + 1) * |w.rows|
  {
    InvRun(c, w0, log, w);
    WindowRun(c, w0, log, w);
    hide Inv, RunEffect, RunEnabled, SinkEffect, SinkEnabled, RowEffect, RowEnabled, Placed, GateInv, Tolerable, EarlierFailures;
    match a
    case OnRun(run) => RunKeepsRows(c, w, run);
    case OnSinks(sink) => SinkKeepsRows(c, w, sink);
    case OnRow(q, row) =>
      LeavesPending(c, w, q, row, p);
      if c.lastWave <= 1 { AlwaysCutAtLastWave(c, w0, log, w); }
      assert WaveWindow !in w.h.torn;
      forall q | q in w.rows && w.rows[q].wave < w.r.wave ensures w.rows[q].state == RtVerified || w.rows[q].state == RtFailed {
        assert Placed(c, w, w.rows[q]);
        EarlierIsSettled(c, w, w.rows[q]);
      }
      GateMeans(c, w);
  }

  lemma LeavesPending(c: Config, w: World, q: Principal, a: RowAction, p: Principal)
    requires RowEnabled(c, w, q, a) && p in w.rows && w.rows[p].state == RtPending
    requires p in RowEffect(c, w, q, a).rows && RowEffect(c, w, q, a).rows[p].state != RtPending
    ensures At(w, Staging, p, RtPending)
  {
    hide TallyOf, Desired, Converged;
  }

  lemma EarlierIsSettled(c: Config, w: World, x: Progress)
    requires Placed(c, w, x) && w.r.state == Staging && x.wave < w.r.wave
    ensures x.state == RtVerified || x.state == RtFailed
  {}

  lemma GateMeans(c: Config, w: World)
    requires Inv(c, w) && GateInv(c, w) && w.r.state == Staging && |w.rows| > 0
    ensures var failures := |EarlierFailures(w.rows, w.r.wave)|;
      failures == 0 || failures * 100 < (c.threshold + 1) * |w.rows|
  {
    TolerableMeans(c, |EarlierFailures(w.rows, w.r.wave)|, w.rows);
    hide HostInv, AllPending, PcInv, RetiredInv, SoakInv, TallyOf, Tolerable, EarlierFailures;
  }

  /** The integer percentage is within the threshold exactly when failures * 100 < (threshold + 1) * total. */
  lemma TolerableMeans(c: Config, failed: nat, rows: map<Principal, Progress>)
    requires |rows| > 0
    ensures Tolerable(c, failed, |rows|) <==> failed == 0 || failed * 100 < (c.threshold + 1) * |rows|
  {
    DivideBound(failed * 100, |rows|, c.threshold);
  }

  lemma DivideBound(a: nat, b: nat, t: int)
    requires b > 0
    ensures a / b <= t <==> a < (t + 1) * b
  {
    var q, r := a / b, a % b;
    assert a == q * b + r;
    if q <= t {
      MulMonotone(q + 1, t + 1, b);
    } else {
      MulMonotone(t + 1, q, b);
    }
  }

  /**
   A finished rotation stays finished, and no row, host, consumer or key changes. Its state does
   exactly if a step left over in the queue is refused for good, and then it reads failed.
   */
  lemma FinishedIsFinal(c: Config, w0: World, log: seq<Action>, w: World, more: seq<Action>, v: World)
    requires Reaches(c, w0, log, w) && Finished(w.r.state) && Run(c, w, more) == Some(v)
    ensures Finished(v.r.state) && w.now <= v.now && v == w.(now := v.now, r := w.r.(state := v.r.state))
    ensures v.r.state == if OnRun(Halt(Failed)) in more then Failed else w.r.state
  {
    InvRun(c, w0, log, w);
    FinishedRuns(c, w, more, v);
  }

  lemma {:induction false} FinishedRuns(c: Config, w: World, more: seq<Action>, v: World)
    requires PcInv(c, w) && Finished(w.r.state) && Run(c, w, more) == Some(v)
    ensures PcInv(c, v) && Finished(v.r.state) && w.now <= v.now && v == w.(now := v.now, r := w.r.(state := v.r.state))
    ensures v.r.state == if OnRun(Halt(Failed)) in more then Failed else w.r.state
  {
    hide PcInv, Enabled, Effect;
    if more != [] {
      var n := |more| - 1;
      var u := Run(c, w, more[..n]).value;
      FinishedRuns(c, w, more[..n], u);
      FinishedStep(c, u, more[n]);
      FinishedPc(c, u, v);
      assert more == more[..n] + [more[n]];
    }
  }

  lemma FinishedPc(c: Config, w: World, v: World)
    requires PcInv(c, w) && Finished(w.r.state) && Finished(v.r.state) && v == w.(now := v.now, r := w.r.(state := v.r.state))
    ensures PcInv(c, v)
  {}

  lemma FinishedStep(c: Config, w: World, a: Action)
    requires PcInv(c, w) && Finished(w.r.state) && Enabled(c, w, a)
    ensures var v := Effect(c, w, a);
      && w.now <= v.now && v == w.(now := v.now, r := w.r.(state := v.r.state))
      && v.r.state == if a == OnRun(Halt(Failed)) then Failed else w.r.state
  {
    hide RunEffect, RunEnabled, RowEffect, RowEnabled, SinkEffect, SinkEnabled;
    match a
    case OnRun(run) => FinishedRun(c, w, run);
    case OnRow(p, row) => RowNeedsLive(c, w, p, row);
    case OnSinks(sink) => SinkNeedsLive(c, w, sink);
  }

  lemma FinishedRun(c: Config, w: World, a: RunAction)
    requires PcInv(c, w) && Finished(w.r.state) && RunEnabled(c, w, a)
    ensures var v := RunEffect(c, w, a);
      && w.now <= v.now && v == w.(now := v.now, r := w.r.(state := v.r.state))
      && v.r.state == if a == Halt(Failed) then Failed else w.r.state
  {
    hide TallyOf, NoneIn, NoRow, Tolerable;
  }

  /** A consumer that cannot take the new key ends the run with both keys accepted wherever it was staged. */
  lemma FailedHandover(c: Config, w0: World, log: seq<Action>, w: World)
    requires Reaches(c, w0, log, w) && Enabled(c, w, OnSinks(HandoverFailed))
    ensures Finished(Effect(c, w, OnSinks(HandoverFailed)).r.state)
    ensures forall p :: p in w.rows ==> p in w.installed && c.oldKey in w.installed[p]
    ensures forall p :: p in w.h.proven ==> p in w.installed && w.r.newKey.Some? && w.r.newKey.value in w.installed[p]
  {
    hide Reaches;
    InvRun(c, w0, log, w);
    hide RunEnabled, RunEffect, RowEnabled, RowEffect;
    KeysOfSafe(c, w);
    PreRetirement(c, w);
  }

  lemma KeysOfSafe(c: Config, w: World)
    requires Inv(c, w)
    ensures forall p :: p in w.rows ==> p in w.installed && (PreRetire(w.r.state) ==> c.oldKey in w.installed[p])
    ensures forall p :: p in w.h.proven ==> p in w.installed && w.r.newKey.Some? && w.r.newKey.value in w.installed[p]
  {
    hide KeyInv, PcInv, RetiredInv, SoakInv, TallyOf;
    forall p | p in w.rows
      ensures p in w.installed && (PreRetire(w.r.state) ==> c.oldKey in w.installed[p])
      ensures p in w.h.proven ==> w.r.newKey.Some? && w.r.newKey.value in w.installed[p]
    {
      assert Safe(c, w, p);
    }
  }

  lemma PreRetirement(c: Config, w: World)
    requires Inv(c, w) && SinkEnabled(w, HandoverFailed)
    ensures PreRetire(w.r.state)
  {
    hide Shape, KeyInv, HostInv, RetiredInv, SoakInv;
  }

  // ---- dry runs ----

  /** The planned step would find a successor already named. */
  predicate Named(w: World) {
    In(w, Planned) && w.r.newKey.Some?
  }

  /** A dry run grants nothing and touches no host, unless a planned step found a successor already named. */
  lemma {:induction false} DryRunTouchesNothing(c: Config, w0: World, log: seq<Action>, w: World)
    requires Reaches(c, w0, log, w) && c.dryRun
    requires forall i, v :: 0 <= i < |log| && Run(c, w0, log[..i]) == Some(v) ==> !Named(v)
    ensures !Live(w.r.state)
    ensures w.installed == w0.installed && w.granted == w0.granted && w.consumers == w0.consumers
  {
    hide Enabled, Effect, Inv, Named;
    if log == [] {
      NotLiveYet(c, w);
    } else {
      hide Init;
      var n := |log| - 1;
      var v := Run(c, w0, log[..n]).value;
      InvRun(c, w0, log[..n], v);
      forall i, u | 0 <= i < n && Run(c, w0, log[..n][..i]) == Some(u) ensures !Named(u) {
        assert log[..n][..i] == log[..i];
      }
      DryRunTouchesNothing(c, w0, log[..n], v);
      assert !Named(v);
      DryStep(c, v, log[n]);
    }
  }

  lemma NotLiveYet(c: Config, w: World)
    requires Init(c, w)
    ensures !Live(w.r.state)
  {
    hide TallyOf;
  }

  lemma DryStep(c: Config, w: World, a: Action)
    requires Inv(c, w) && !Live(w.r.state) && !Named(w) && Enabled(c, w, a)
    ensures var v := Effect(c, w, a);
      !Live(v.r.state) && v.installed == w.installed && v.granted == w.granted && v.consumers == w.consumers
  {
    hide RunEffect, RunEnabled, RowEffect, RowEnabled, SinkEffect, SinkEnabled;
    match a
    case OnRun(run) => RunKeepsHosts(c, w, run); StaysDry(c, w, run);
    case OnRow(p, row) => RowNeedsLive(c, w, p, row);
    case OnSinks(sink) => SinkNeedsLive(c, w, sink);
  }

  lemma StaysDry(c: Config, w: World, a: RunAction)
    requires PcInv(c, w) && !Live(w.r.state) && !Named(w) && RunEnabled(c, w, a)
    ensures !Live(RunEffect(c, w, a).r.state)
  {
    hide NoneIn, NoRow, Tolerable, TallyOf;
  }

  /** A run in which nothing crashes and that reaches the fleet. */
  ghost predicate Carries(c: Config, w: World, more: seq<Action>, v: World) {
    OnRun(Crash) !in more && Run(c, w, more) == Some(v) && Live(v.r.state)
  }

  /**
   Whether a planned step carries a dry run out is decided by the stored row: exactly when a
   successor is already named can an uninterrupted run from there reach the fleet.
   */
  lemma DryRunIsDecided(c: Config, w0: World, log: seq<Action>, w: World)
    requires Reaches(c, w0, log, w) && c.dryRun && In(w, Planned)
    ensures (exists more, v :: Carries(c, w, more, v)) <==> w.r.newKey.Some?
  {
    hide Reaches, Enabled, Effect;
    if w.r.newKey.Some? {
      OpeningCarries(c, w);
    } else {
      forall more, v ensures !Carries(c, w, more, v) {
        if Carries(c, w, more, v) { DryRunStops(c, w, more, v); }
      }
    }
  }

  lemma OpeningCarries(c: Config, w: World)
    requires c.dryRun && In(w, Planned) && w.r.newKey.Some?
    ensures exists more, v :: Carries(c, w, more, v)
  {
    hide RowEffect, RowEnabled, SinkEffect, SinkEnabled;
    var more, v := [OnRun(Open)], RunEffect(c, w, Open);
    assert Enabled(c, w, OnRun(Open)) && more[..0] == [];
    assert Run(c, w, []) == Some(w) && Run(c, w, more) == Some(v);
    assert Carries(c, w, more, v);
  }

  /** On its way from an unnamed plan to its end. */
  predicate Stopping(w: World) {
    || (w.r.state == Planned && (w.h.pc == DryStop || (w.r.newKey.None? && (w.h.pc == Idle || w.h.pc.Generated?))))
    || (Finished(w.r.state) && w.h.pc == Idle)
  }

  lemma {:induction false} DryRunStops(c: Config, w: World, more: seq<Action>, v: World)
    requires c.dryRun && In(w, Planned) && w.r.newKey.None? && OnRun(Crash) !in more && Run(c, w, more) == Some(v)
    ensures Stopping(v) && v.installed == w.installed && v.granted == w.granted && v.consumers == w.consumers
  {
    if more != [] {
      var n := |more| - 1;
      var u := Run(c, w, more[..n]).value;
      assert more[n] in more;
      DryRunStops(c, w, more[..n], u);
      StoppingStep(c, u, more[n]);
    }
  }

  lemma StoppingStep(c: Config, w: World, a: Action)
    requires c.dryRun && Stopping(w) && Enabled(c, w, a) && a != OnRun(Crash)
    ensures var v := Effect(c, w, a);
      Stopping(v) && v.installed == w.installed && v.granted == w.granted && v.consumers == w.consumers
  {
    hide RowEffect, RowEnabled, RunEffect, RunEnabled, SinkEffect;
    match a
    case OnRun(run) =>
      RunKeepsHosts(c, w, run);
      StoppingRun(c, w, run);
    case OnRow(p, row) => RowNeedsLive(c, w, p, row);
    case OnSinks(_) =>
  }

  lemma StoppingRun(c: Config, w: World, a: RunAction)
    requires c.dryRun && Stopping(w) && RunEnabled(c, w, a) && a != Crash
    ensures Stopping(RunEffect(c, w, a))
  {
    hide NoneIn, NoRow, Tolerable, TallyOf;
  }

  lemma RowNeedsLive(c: Config, w: World, p: Principal, a: RowAction)
    requires RowEnabled(c, w, p, a)
    ensures Live(w.r.state)
  {
    hide Desired, Converged;
  }

  lemma SinkNeedsLive(c: Config, w: World, a: SinkAction)
    requires SinkEnabled(w, a) && PcInv(c, w)
    ensures Live(w.r.state)
  {}

  // ---- progress ----

  function Rank(c: Config, w: World): int {
    RankOf(c, w.r.state, w.r.wave, w.h.pc == Advancing)
  }

  /** Advancing steps still to come. A wave advance under way counts as done. */
  function RankOf(c: Config, s: State, wave: nat, advancing: bool): int {
    match s
    case Awaiting => 2 * (c.lastWave + 1) + 6
    case Planned => 2 * (c.lastWave + 1) + 5
    case Staging => 2 * (c.lastWave - wave) + 6
    case Verifying => 2 * (c.lastWave - wave) + if advancing then 6 else 5
    case Staged | Verified => 4
    case Promoting => 3
    case Soaking => 2
    case Retiring => 1
    case _ => 0
  }

  /** No action, crash or interference moves a rotation back. */
  lemma RankNeverGrows(c: Config, w0: World, log: seq<Action>, w: World, a: Action)
    requires Reaches(c, w0, log, w) && Enabled(c, w, a)
    ensures 0 <= Rank(c, Effect(c, w, a)) <= Rank(c, w)
  {
    hide Reaches, Enabled, Effect, Inv, Rank;
    InvRun(c, w0, log, w);
    RankStep(c, w, a);
  }

  lemma RankStep(c: Config, w: World, a: Action)
    requires Inv(c, w) && Enabled(c, w, a)
    ensures 0 <= Rank(c, Effect(c, w, a)) <= Rank(c, w)
  {
    hide Inv, RunEffect, RunEnabled, RowEffect, RowEnabled, SinkEffect, SinkEnabled, Rank;
    match a
    case OnRun(run) => ParametersOf(c, w); RunRank(c, w, run);
    case OnRow(p, row) => RowRank(c, w, p, row);
    case OnSinks(sink) => SinkRank(c, w, sink);
  }

  /** Any further run keeps the invariant and moves the rotation on, if at all. */
  lemma {:induction false} RankRun(c: Config, w: World, more: seq<Action>, v: World)
    requires Inv(c, w) && Run(c, w, more) == Some(v)
    ensures Inv(c, v) && Rank(c, v) <= Rank(c, w)
  {
    hide Inv, Enabled, Effect, Rank;
    if more != [] {
      var n := |more| - 1;
      var u := Run(c, w, more[..n]).value;
      RankRun(c, w, more[..n], u);
      InvStep(c, u, more[n]);
      RankStep(c, u, more[n]);
    }
  }

  /** At rank 0 it is finished. */
  lemma RankOfFinished(c: Config, w: World)
    requires Inv(c, w)
    ensures 0 <= Rank(c, w) && (Rank(c, w) == 0 <==> Finished(w.r.state))
  {
    ParametersOf(c, w);
    hide Inv;
  }

  lemma ParametersOf(c: Config, w: World)
    requires Inv(c, w)
    ensures KeyInv(c, w) && PcInv(c, w) && w.r.wave <= c.lastWave
  {}

  lemma RunRank(c: Config, w: World, a: RunAction)
    requires KeyInv(c, w) && PcInv(c, w) && w.r.wave <= c.lastWave && RunEnabled(c, w, a)
    ensures 0 <= Rank(c, RunEffect(c, w, a)) <= Rank(c, w)
  {
    hide TallyOf, NoneIn, NoRow, Tolerable, AllPending;
  }

  lemma RowRank(c: Config, w: World, p: Principal, a: RowAction)
    requires Inv(c, w) && RowEnabled(c, w, p, a)
    ensures 0 <= Rank(c, RowEffect(c, w, p, a)) == Rank(c, w)
  {
    hide HostInv, RetiredInv, SoakInv, TallyOf, AllPending, Desired, Converged;
  }

  lemma SinkRank(c: Config, w: World, a: SinkAction)
    requires Inv(c, w) && SinkEnabled(w, a)
    ensures 0 <= Rank(c, SinkEffect(c, w, a)) <= Rank(c, w)
  {
    hide HostInv, RetiredInv, SoakInv, TallyOf, AllPending, BoundTo;
  }
}
