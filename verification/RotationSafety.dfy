/** What every state of every run satisfies, whatever crashes and whatever fails. */
module RotationSafety {
  import opened Options
  import opened RotationProtocol

  // ---- the invariants ----

  predicate Live(s: State) {
    s == Staging || s == Staged || s == Verifying || s == Verified || s == Promoting || s == Soaking || s == Retiring
  }

  predicate PreRetire(s: State) {
    s == Planned || s == Awaiting || (Live(s) && s != Retiring)
  }

  ghost predicate Shape(c: Config, w: World) {
    && w.h.proven <= w.rows.Keys && c.oldKey in w.status && w.r.wave <= c.lastWave
    && w.r.tally == TallyOf(w.rows) && (w.r.newKey.Some? ==> w.r.total == |w.rows|)
  }

  ghost predicate AllPending(rows: map<Principal, Progress>) {
    forall p :: p in rows ==> rows[p].state == RtPending
  }

  ghost predicate KeyInv(c: Config, w: World) {
    var n := w.r.newKey;
    && (n.Some? ==>
        n.value in w.status && n.value != c.oldKey && (w.status[n.value] == KeyPending || w.status[n.value] == KeyActive))
    && (Live(w.r.state) ==> n.Some?)
    && (n.None? || w.r.state == Planned || w.r.state == Awaiting ==>
        w.h.proven == {} && w.r.wave == 0 && AllPending(w.rows))
    && (w.r.state == Awaiting ==> n.None?)
    && w.r.state != RolledBack && w.r.state != Staged
  }

  ghost predicate PcInv(c: Config, w: World) {
    match w.h.pc
    case Idle => true
    case Generated(k) =>
      && w.r.state == Planned && w.r.newKey.None? && k in w.status && k != c.oldKey && w.status[k] == KeyPending
    case DryStop => w.r.state == Planned && w.r.newKey.Some? && c.dryRun
    case Advancing => w.r.state == Verifying && w.r.wave <= c.lastWave
    case Promoted | Activated => w.r.state == Promoting
    case Handing(todo) => w.r.state == Promoting && todo <= w.h.owed
  }

  /** One login: the old key until the new one is proven, and the new one ever after. */
  ghost predicate Safe(c: Config, w: World, p: Principal) {
    && p in w.rows && p in w.granted && p in w.installed
    && w.granted[p] <= w.status.Keys && w.rows[p].wave <= c.lastWave
    && var n, s := w.r.newKey, w.rows[p].state;
    && (p !in w.h.proven || PreRetire(w.r.state) || s == RtPending || s == RtStaged ==> c.oldKey in w.installed[p])
    && (p in w.h.proven || s == RtStaged ==> n.Some? && n.value in w.granted[p] && n.value in w.installed[p])
    && (s == RtVerified || s == RtRetired ==> p in w.h.proven)
    && (s == RtRetired ==> c.oldKey !in w.installed[p] && c.oldKey !in w.granted[p])
  }

  ghost predicate HostInv(c: Config, w: World) {
    forall p :: p in w.rows ==> Safe(c, w, p)
  }

  ghost predicate RetiredInv(c: Config, w: World)
    requires c.oldKey in w.status
  {
    && (w.status[c.oldKey] == KeyRetired ==>
      && (w.r.state == Retiring || Finished(w.r.state))
      && NoRow(w.rows, RtVerified) && NoRow(w.rows, RtFailed))
    && (w.r.state == Completed && !c.dryRun && NoRow(w.rows, RtFailed) ==> w.status[c.oldKey] == KeyRetired)
  }

  ghost predicate SoakInv(w: World) {
    && (w.r.state == Soaking ==> w.r.soakUntil.Some?)
    && (w.r.state == Retiring ==> w.r.soakUntil.Some? && w.r.soakUntil.value <= w.now)
  }

  ghost predicate Inv(c: Config, w: World) {
    Shape(c, w) && KeyInv(c, w) && PcInv(c, w) && HostInv(c, w) && RetiredInv(c, w) && SoakInv(w)
  }

  // ---- each action keeps them ----

  /** Nothing about the logins changed, and no phase before retirement was re-entered. */
  ghost predicate Quiet(c: Config, w: World, v: World) {
    && v.rows == w.rows && v.granted == w.granted && v.installed == w.installed && v.h.proven == w.h.proven
    && (w.r.newKey.Some? ==> v.r.newKey == w.r.newKey)
    && (v.r.newKey.Some? ==> v.r.total == |v.rows|) && v.r.tally == w.r.tally && w.status.Keys <= v.status.Keys && v.r.wave <= c.lastWave
    && (PreRetire(v.r.state) ==> PreRetire(w.r.state))
  }

  lemma QuietKeepsLogins(c: Config, w: World, v: World)
    requires Shape(c, w) && HostInv(c, w) && Quiet(c, w, v)
    ensures Shape(c, v) && HostInv(c, v)
  {
    hide TallyOf;
    forall p | p in v.rows ensures Safe(c, v, p) { assert Safe(c, w, p); }
  }

  lemma RunStep(c: Config, w: World, a: RunAction)
    requires Inv(c, w) && RunEnabled(c, w, a)
    ensures Inv(c, RunEffect(c, w, a))
  {
    hide RunEffect, RunEnabled, KeyInv, PcInv, RetiredInv, SoakInv, TallyOf, HostInv, Quiet;
    RunQuiet(c, w, a);
    QuietKeepsLogins(c, w, RunEffect(c, w, a));
    RunKeys(c, w, a);
    RunRetired(c, w, a);
  }

  /** No run action touches a login. */
  lemma RunQuiet(c: Config, w: World, a: RunAction)
    requires Inv(c, w) && RunEnabled(c, w, a)
    ensures Quiet(c, w, RunEffect(c, w, a))
  {
    RunStays(c, w, a);
    RunRise(c, w, a);
    hide Inv, RunEnabled, RunEffect;
  }

  lemma RunStays(c: Config, w: World, a: RunAction)
    requires RunEnabled(c, w, a)
    ensures var v := RunEffect(c, w, a);
      && v.rows == w.rows && v.granted == w.granted && v.installed == w.installed && v.h.proven == w.h.proven
      && v.r.tally == w.r.tally
  {
    hide NoneIn, NoRow, TallyOf, Tolerable;
  }

  lemma RunRise(c: Config, w: World, a: RunAction)
    requires Inv(c, w) && RunEnabled(c, w, a)
    ensures var v := RunEffect(c, w, a);
      && (w.r.newKey.Some? ==> v.r.newKey == w.r.newKey)
      && (v.r.newKey.Some? ==> v.r.total == |w.rows|) && w.status.Keys <= v.status.Keys && v.r.wave <= c.lastWave
      && (PreRetire(v.r.state) ==> PreRetire(w.r.state))
  {
    hide KeyInv, HostInv, RetiredInv, SoakInv, NoneIn, NoRow, TallyOf, Tolerable, AllPending;
  }

  lemma RunKeys(c: Config, w: World, a: RunAction)
    requires Inv(c, w) && RunEnabled(c, w, a)
    ensures KeyInv(c, RunEffect(c, w, a)) && PcInv(c, RunEffect(c, w, a))
  {
    hide HostInv, RetiredInv, SoakInv, NoneIn, NoRow, TallyOf, Tolerable, AllPending;
  }

  lemma RunRetired(c: Config, w: World, a: RunAction)
    requires Inv(c, w) && RunEnabled(c, w, a) && Shape(c, RunEffect(c, w, a))
    ensures RetiredInv(c, RunEffect(c, w, a)) && SoakInv(RunEffect(c, w, a))
  {
    hide HostInv, NoneIn, TallyOf, Tolerable, NoRow, KeyInv, Shape;
  }

  /** The part of the invariant that speaks of logins. */
  ghost predicate LoginInv(c: Config, w: World) {
    Shape(c, w) && KeyInv(c, w) && PcInv(c, w) && HostInv(c, w)
  }

  lemma RowStep(c: Config, w: World, p: Principal, a: RowAction)
    requires Inv(c, w) && RowEnabled(c, w, p, a)
    ensures Inv(c, RowEffect(c, w, p, a))
  {
    RowRetired(c, w, p, a);
    match a
    case Bind | Unbind => GrantStep(c, w, p, a);
    case Push | Prune => KeysStep(c, w, p, a);
    case Authenticate => Authenticated(c, w, p);
    case ActivateKey(k) => KeyActivated(c, w, p, k);
    case _ => MarkStep(c, w, p, a);
  }

  lemma RowRetired(c: Config, w: World, p: Principal, a: RowAction)
    requires Inv(c, w) && RowEnabled(c, w, p, a)
    ensures c.oldKey in RowEffect(c, w, p, a).status
    ensures RetiredInv(c, RowEffect(c, w, p, a)) && SoakInv(RowEffect(c, w, p, a))
  {
    hide HostInv, NoneIn, TallyOf, Tolerable, Converged, Desired, KeyInv, PcInv;
  }

  lemma MarkStep(c: Config, w: World, p: Principal, a: RowAction)
    requires Inv(c, w) && RowEnabled(c, w, p, a)
    requires a.MarkStaged? || a.MarkUnstaged? || a.MarkVerified? || a.MarkUnverified? || a.MarkRetired? || a.MarkUnretired?
    ensures LoginInv(c, RowEffect(c, w, p, a))
  {
    var v := RowEffect(c, w, p, a);
    assert v == WithRow(w, p, v.rows[p].state) && Live(w.r.state) && w.h.pc == Idle;
    MarkSafe(c, w, p, a);
    hide Inv, RowEffect, RowEnabled, WithRow, Safe, Live, KeyInv, PcInv;
    OtherMarks(c, w, p, v.rows[p].state);
  }

  lemma OtherMarks(c: Config, w: World, p: Principal, s: RowState)
    requires Inv(c, w) && Live(w.r.state) && w.h.pc == Idle && p in w.rows
    ensures var v := WithRow(w, p, s);
      Shape(c, v) && KeyInv(c, v) && PcInv(c, v) && forall q :: q in w.rows && q != p ==> Safe(c, v, q)
  {
    var v := WithRow(w, p, s);
    hide TallyOf, RetiredInv, SoakInv;
    forall q | q in w.rows && q != p ensures Safe(c, v, q) { assert Safe(c, w, q); }
  }

  lemma MarkSafe(c: Config, w: World, p: Principal, a: RowAction)
    requires Inv(c, w) && RowEnabled(c, w, p, a)
    requires a.MarkStaged? || a.MarkUnstaged? || a.MarkVerified? || a.MarkUnverified? || a.MarkRetired? || a.MarkUnretired?
    ensures Safe(c, RowEffect(c, w, p, a), p)
  {
    hide TallyOf, RetiredInv, SoakInv, Shape, Converged, Desired, AllPending;
    assert Safe(c, w, p);
    if a.MarkStaged? { MarkedStaged(c, w, p); }
    if a.MarkRetired? { MarkedRetired(c, w, p); }
    hide HostInv, PcInv;
  }

  /** A staged login has both keys. */
  lemma MarkedStaged(c: Config, w: World, p: Principal)
    requires Inv(c, w) && RowEnabled(c, w, p, MarkStaged)
    ensures c.oldKey in w.installed[p] && w.r.newKey.value in w.installed[p]
  {
    assert Safe(c, w, p);
    assert w.r.newKey.value in Desired(w, p);
  }

  /** A login converged with pruning, and no longer assigned the old key, does not accept it. */
  lemma MarkedRetired(c: Config, w: World, p: Principal)
    requires Inv(c, w) && RowEnabled(c, w, p, MarkRetired)
    ensures c.oldKey !in w.installed[p]
  {
    assert c.oldKey !in Desired(w, p) && c.oldKey in w.status;
  }

  lemma GrantStep(c: Config, w: World, p: Principal, a: RowAction)
    requires Inv(c, w) && RowEnabled(c, w, p, a) && (a.Bind? || a.Unbind?)
    ensures LoginInv(c, RowEffect(c, w, p, a))
  {
    var v := RowEffect(c, w, p, a);
    hide TallyOf, RetiredInv, SoakInv;
    forall q | q in w.rows ensures Safe(c, v, q) { assert Safe(c, w, q); }
  }

  lemma KeysStep(c: Config, w: World, p: Principal, a: RowAction)
    requires Inv(c, w) && RowEnabled(c, w, p, a) && (a.Push? || a.Prune?)
    ensures LoginInv(c, RowEffect(c, w, p, a))
  {
    var v := RowEffect(c, w, p, a);
    hide TallyOf, RetiredInv, SoakInv;
    forall q | q in w.rows ensures Safe(c, v, q) { assert Safe(c, w, q); }
  }

  lemma Authenticated(c: Config, w: World, p: Principal)
    requires Inv(c, w) && RowEnabled(c, w, p, Authenticate)
    ensures LoginInv(c, RowEffect(c, w, p, Authenticate))
  {
    var v := RowEffect(c, w, p, Authenticate);
    hide TallyOf, RetiredInv, SoakInv;
    forall q | q in w.rows ensures Safe(c, v, q) { assert Safe(c, w, q); }
  }

  lemma KeyActivated(c: Config, w: World, p: Principal, k: Key)
    requires Inv(c, w) && RowEnabled(c, w, p, ActivateKey(k))
    ensures LoginInv(c, RowEffect(c, w, p, ActivateKey(k)))
  {
    var v := RowEffect(c, w, p, ActivateKey(k));
    hide TallyOf, RetiredInv, SoakInv;
    forall q | q in w.rows ensures Safe(c, v, q) { assert Safe(c, w, q); }
  }

  lemma SinkStep(c: Config, w: World, a: SinkAction)
    requires Inv(c, w) && SinkEnabled(w, a)
    ensures Inv(c, SinkEffect(c, w, a))
  {
    hide SinkEffect, SinkEnabled, KeyInv, PcInv, RetiredInv, SoakInv, TallyOf, HostInv, Quiet;
    SinkQuiet(c, w, a);
    QuietKeepsLogins(c, w, SinkEffect(c, w, a));
    SinkKeys(c, w, a);
    SinkRetired(c, w, a);
  }

  lemma SinkQuiet(c: Config, w: World, a: SinkAction)
    requires Inv(c, w) && SinkEnabled(w, a)
    ensures Quiet(c, w, SinkEffect(c, w, a))
  {
    hide HostInv, RetiredInv, SoakInv, NoRow, TallyOf, BoundTo, AllPending;
  }

  lemma SinkKeys(c: Config, w: World, a: SinkAction)
    requires Inv(c, w) && SinkEnabled(w, a)
    ensures KeyInv(c, SinkEffect(c, w, a)) && PcInv(c, SinkEffect(c, w, a))
  {
    hide HostInv, RetiredInv, SoakInv, NoRow, TallyOf, BoundTo, AllPending;
  }

  lemma SinkRetired(c: Config, w: World, a: SinkAction)
    requires Inv(c, w) && SinkEnabled(w, a) && Shape(c, SinkEffect(c, w, a))
    ensures RetiredInv(c, SinkEffect(c, w, a)) && SoakInv(SinkEffect(c, w, a))
  {
    hide HostInv, TallyOf, NoRow, KeyInv, Shape, BoundTo;
  }

  lemma InvStep(c: Config, w: World, a: Action)
    requires Inv(c, w) && Enabled(c, w, a)
    ensures Inv(c, Effect(c, w, a))
  {
    hide Inv, RunEnabled, RowEnabled, SinkEnabled, RunEffect, RowEffect, SinkEffect;
    match a
    case OnRun(run) => RunStep(c, w, run);
    case OnRow(p, row) => RowStep(c, w, p, row);
    case OnSinks(sink) => SinkStep(c, w, sink);
  }

  lemma InvInit(c: Config, w: World)
    requires Init(c, w)
    ensures Inv(c, w)
  {
    hide TallyOf;
    forall p | p in w.rows ensures Safe(c, w, p) { assert p in Assigned(c, w); }
  }

  lemma {:induction false} InvRun(c: Config, w0: World, log: seq<Action>, w: World)
    requires Reaches(c, w0, log, w)
    ensures Inv(c, w)
  {
    hide Inv, Enabled, Effect, Init;
    if log == [] {
      InvInit(c, w0);
    } else {
      var v := Run(c, w0, log[..|log| - 1]).value;
      InvRun(c, w0, log[..|log| - 1], v);
      InvStep(c, v, log[|log| - 1]);
    }
  }
}
