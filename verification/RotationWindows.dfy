/** What further holds as long as no crash falls between the writes of one transition. */
module RotationWindows {
  import opened Options
  import opened RotationProtocol
  import opened RotationSafety

  // ---- waves ----

  /** Where a row may stand: waves before the current one are settled, later ones untouched. */
  ghost predicate Placed(c: Config, w: World, x: Progress) {
    var settled := x.state == RtVerified || x.state == RtFailed;
    match w.r.state
    case Staging =>
      && (x.wave < w.r.wave ==> settled)
      && (x.wave == w.r.wave ==> x.state == RtPending || x.state == RtStaged || x.state == RtFailed)
      && (x.wave > w.r.wave ==> x.state == RtPending)
    case Verifying =>
      && (x.wave < w.r.wave ==> settled)
      && (x.wave == w.r.wave ==> if w.h.pc == Advancing then x.state == RtPending else settled || x.state == RtStaged)
      && (x.wave > w.r.wave ==> x.state == RtPending)
    case Staged | Verified | Promoting | Soaking => settled
    case Retiring => settled || x.state == RtRetired
    case Completed => c.dryRun || x.state == RtRetired || x.state == RtFailed
    case _ => true
  }

  ghost predicate WaveInv(c: Config, w: World) {
    forall p :: p in w.rows ==> Placed(c, w, w.rows[p])
  }

  /** With no row skipped, a key reported retired has every row retired. */
  ghost predicate HonestInv(c: Config, w: World) {
    StatusIs(w, Some(c.oldKey), KeyRetired) ==> forall p :: p in w.rows ==> w.rows[p].state == RtRetired
  }

  function EarlierFailures(rows: map<Principal, Progress>, wave: nat): set<Principal> {
    set p | p in rows && rows[p].wave < wave && rows[p].state == RtFailed
  }

  /** The failures before the current wave were within the threshold. */
  ghost predicate GateInv(c: Config, w: World) {
    w.r.state == Staging || w.r.state == Verifying ==>
      Tolerable(c, |EarlierFailures(w.rows, w.r.wave)|, w.r.total)
  }

  // ---- promotion ----

  ghost predicate Handed(w: World, k: Consumer) {
    w.r.newKey.Some? && k in w.consumers && w.consumers[k].Has(w.r.newKey.value)
  }

  ghost predicate StatusIs(w: World, k: Option<Key>, s: KeyStatus) {
    k.Some? && k.value in w.status && w.status[k.value] == s
  }

  /** Everyone owed the new key has it, or is still to be served. */
  ghost predicate HandOver(c: Config, w: World, todo: set<Consumer>) {
    && (forall k :: k in w.h.owed && k !in todo ==> Handed(w, k))
    && (forall k :: k in w.consumers && w.consumers[k].enabled && w.consumers[k].key == c.oldKey ==> k in todo)
    && StatusIs(w, w.r.newKey, KeyActive)
  }

  predicate PastPromotion(c: Config, w: World) {
    w.r.state == Promoting || w.r.state == Soaking || w.r.state == Retiring || (w.r.state == Completed && !c.dryRun)
  }

  ghost predicate PromotionInv(c: Config, w: World) {
    match w.h.pc
    case Promoted => true
    case Activated => StatusIs(w, w.r.newKey, KeyActive)
    case Handing(todo) => HandOver(c, w, todo) && StatusIs(w, Some(c.oldKey), KeyRetiring)
    case _ =>
      PastPromotion(c, w) ==>
        HandOver(c, w, {}) && (StatusIs(w, Some(c.oldKey), KeyRetiring) || StatusIs(w, Some(c.oldKey), KeyRetired))
  }

  ghost predicate WindowInv(c: Config, w: World) {
    && (WaveWindow !in w.h.torn ==> WaveInv(c, w) && GateInv(c, w) && HonestInv(c, w))
    && (PromotionWindow !in w.h.torn ==> PromotionInv(c, w))
  }

  // ---- each action keeps them ----

  lemma RunPlaced(c: Config, w: World, a: RunAction, p: Principal)
    requires KeyInv(c, w) && PcInv(c, w) && RunEnabled(c, w, a)
    requires p in w.rows && Placed(c, w, w.rows[p]) && w.rows[p].wave <= c.lastWave
    requires WaveWindow !in RunEffect(c, w, a).h.torn
    ensures Placed(c, RunEffect(c, w, a), w.rows[p])
  {
    hide TallyOf, Tolerable, AllPending, NoneIn, NoRow;
    IsPending(w, p);
    NotHere(w, p, RtPending);
    NotHere(w, p, RtStaged);
    NowhereHere(w, p, RtVerified);
    NowhereHere(w, p, RtFailed);
    match a
    case ToVerifying =>
    case NextWave =>
    case Restage =>
    case ToVerified =>
    case Complete =>
    case Crash =>
    case _ =>
  }

  lemma IsPending(w: World, p: Principal)
    requires p in w.rows
    ensures AllPending(w.rows) ==> w.rows[p].state == RtPending
  {}

  lemma NotHere(w: World, p: Principal, s: RowState)
    requires p in w.rows
    ensures NoneIn(w.rows, w.r.wave, s) && w.rows[p].wave == w.r.wave ==> w.rows[p].state != s
  {}

  lemma NowhereHere(w: World, p: Principal, s: RowState)
    requires p in w.rows
    ensures NoRow(w.rows, s) ==> w.rows[p].state != s
  {}

  lemma NoFailures(c: Config, total: nat)
    ensures Tolerable(c, 0, total)
  {}

  lemma RunGate(c: Config, w: World, a: RunAction)
    requires Inv(c, w) && WaveInv(c, w) && GateInv(c, w) && RunEnabled(c, w, a)
    ensures GateInv(c, RunEffect(c, w, a))
  {
    if a.NextWave? {
      GateNext(c, w);
    } else if a.Open? {
      GateOpen(c, w);
    } else {
      GateFrame(c, w, a);
      hide Inv, EarlierFailures, Tolerable, RunEffect, RunEnabled;
    }
  }

  lemma GateNext(c: Config, w: World)
    requires Inv(c, w) && WaveInv(c, w) && RunEnabled(c, w, NextWave)
    ensures GateInv(c, RunEffect(c, w, NextWave))
  {
    hide HostInv, KeyInv, PcInv, RetiredInv, SoakInv, EarlierFailures, TallyOf, Tolerable, NoneIn, WaveInv;
    WholeTally(c, w);
  }

  lemma GateOpen(c: Config, w: World)
    requires Inv(c, w) && RunEnabled(c, w, Open)
    ensures GateInv(c, RunEffect(c, w, Open))
  {
    hide HostInv, PcInv, RetiredInv, SoakInv, TallyOf, Tolerable, AllPending;
    assert EarlierFailures(w.rows, 0) == {};
    NoFailures(c, w.r.total);
  }

  lemma GateFrame(c: Config, w: World, a: RunAction)
    requires KeyInv(c, w) && PcInv(c, w) && RunEnabled(c, w, a) && !a.NextWave? && !a.Open?
    ensures var v := RunEffect(c, w, a);
      v.r.state == Staging || v.r.state == Verifying ==>
        && (w.r.state == Staging || w.r.state == Verifying)
        && v.rows == w.rows && v.r.wave == w.r.wave && v.r.total == w.r.total
  {
    hide TallyOf, Tolerable, NoneIn, NoRow, AllPending;
  }

  /** At the gate, every failure so far is in this wave or before it. */
  lemma WholeTally(c: Config, w: World)
    requires WaveInv(c, w) && In(w, Verifying)
    ensures |EarlierFailures(w.rows, w.r.wave + 1)| == TallyOf(w.rows).failed
  {
    forall p | p in w.rows ensures w.rows[p].state == RtFailed ==> w.rows[p].wave < w.r.wave + 1 {
      assert Placed(c, w, w.rows[p]);
    }
    assert EarlierFailures(w.rows, w.r.wave + 1) == InStates(w.rows, {RtFailed});
  }

  lemma RunHonest(c: Config, w: World, a: RunAction)
    requires Inv(c, w) && WaveInv(c, w) && HonestInv(c, w) && RunEnabled(c, w, a)
    ensures HonestInv(c, RunEffect(c, w, a))
  {
    hide HostInv, SoakInv, TallyOf, Tolerable, AllPending, NoneIn;
    if a.RetireKey? {
      forall p | p in w.rows ensures w.rows[p].state == RtRetired { assert Placed(c, w, w.rows[p]); }
    }
    hide WaveInv;
  }

  lemma RowHonest(c: Config, w: World, p: Principal, a: RowAction)
    requires HonestInv(c, w) && RowEnabled(c, w, p, a)
    ensures HonestInv(c, RowEffect(c, w, p, a))
  {
    hide TallyOf, Converged, Desired;
  }

  lemma SinkHonest(c: Config, w: World, a: SinkAction)
    requires Inv(c, w) && HonestInv(c, w) && SinkEnabled(w, a)
    ensures HonestInv(c, SinkEffect(c, w, a))
  {
    hide HostInv, RetiredInv, SoakInv, TallyOf, AllPending, BoundTo;
  }

  lemma RowWaves(c: Config, w: World, p: Principal, a: RowAction)
    requires Inv(c, w) && WaveInv(c, w) && GateInv(c, w) && RowEnabled(c, w, p, a)
    ensures WaveInv(c, RowEffect(c, w, p, a)) && GateInv(c, RowEffect(c, w, p, a))
  {
    hide Inv, WaveInv, GateInv;
    RowPlaced(c, w, p, a);
    RowGate(c, w, p, a);
  }

  lemma RowPlaced(c: Config, w: World, p: Principal, a: RowAction)
    requires Inv(c, w) && WaveInv(c, w) && RowEnabled(c, w, p, a)
    ensures WaveInv(c, RowEffect(c, w, p, a))
  {
    hide HostInv, RetiredInv, SoakInv, KeyInv, Converged, Desired, TallyOf, Tolerable, AllPending;
    var v := RowEffect(c, w, p, a);
    forall q | q in v.rows ensures Placed(c, v, v.rows[q]) { assert Placed(c, w, w.rows[q]); }
  }

  /** No row of an earlier wave fails any more before retirement. */
  lemma RowGate(c: Config, w: World, p: Principal, a: RowAction)
    requires Inv(c, w) && GateInv(c, w) && RowEnabled(c, w, p, a)
    ensures GateInv(c, RowEffect(c, w, p, a))
  {
    hide HostInv, RetiredInv, SoakInv, KeyInv, PcInv, Converged, Desired, TallyOf, Tolerable, AllPending;
    var v := RowEffect(c, w, p, a);
    if v.r.state == Staging || v.r.state == Verifying {
      assert EarlierFailures(v.rows, v.r.wave) == EarlierFailures(w.rows, w.r.wave);
    }
  }

  /** Run actions leave the consumers alone, and of the two keys only retire the old one. */
  ghost predicate SinksKept(c: Config, w: World, v: World) {
    && v.consumers == w.consumers && v.h.owed == w.h.owed
    && (w.r.newKey.Some? ==> v.r.newKey == w.r.newKey)
    && (StatusIs(w, w.r.newKey, KeyActive) ==> StatusIs(v, w.r.newKey, KeyActive))
  }

  lemma RunSinks(c: Config, w: World, a: RunAction)
    requires Inv(c, w) && RunEnabled(c, w, a)
    ensures SinksKept(c, w, RunEffect(c, w, a))
    ensures StatusIs(w, Some(c.oldKey), KeyRetiring) || StatusIs(w, Some(c.oldKey), KeyRetired) ==>
      var v := RunEffect(c, w, a); StatusIs(v, Some(c.oldKey), KeyRetiring) || StatusIs(v, Some(c.oldKey), KeyRetired)
    ensures StatusIs(w, Some(c.oldKey), KeyRetiring) && !In(w, Retiring) ==>
      StatusIs(RunEffect(c, w, a), Some(c.oldKey), KeyRetiring)
  {
    hide HostInv, RetiredInv, SoakInv, NoneIn, NoRow, Tolerable, AllPending, TallyOf, Shape;
  }

  lemma HandOverKept(c: Config, w: World, v: World, todo: set<Consumer>)
    requires SinksKept(c, w, v) && HandOver(c, w, todo)
    ensures HandOver(c, v, todo)
  {
    forall k | k in v.h.owed && k !in todo ensures Handed(v, k) { assert Handed(w, k); }
  }

  lemma RunPromotion(c: Config, w: World, a: RunAction)
    requires Inv(c, w) && PromotionInv(c, w) && RunEnabled(c, w, a)
    requires PromotionWindow !in RunEffect(c, w, a).h.torn
    ensures PromotionInv(c, RunEffect(c, w, a))
  {
    hide Shape, HostInv, RetiredInv, SoakInv, NoneIn, NoRow, Tolerable, AllPending, TallyOf, HandOver, StatusIs;
    var v := RunEffect(c, w, a);
    RunSinks(c, w, a);
    if HandOver(c, w, {}) { HandOverKept(c, w, v, {}); }
    if w.h.pc.Handing? && HandOver(c, w, w.h.pc.todo) { HandOverKept(c, w, v, w.h.pc.todo); }
  }

  lemma RowPromotion(c: Config, w: World, p: Principal, a: RowAction)
    requires Inv(c, w) && PromotionInv(c, w) && RowEnabled(c, w, p, a)
    ensures PromotionInv(c, RowEffect(c, w, p, a))
  {
    hide HostInv, RetiredInv, SoakInv, Tolerable, AllPending, TallyOf, Converged, Desired, HandOver;
    RowSinks(c, w, p, a);
    hide StatusIs, SinksKept;
    if HandOver(c, w, {}) { HandOverKept(c, w, RowEffect(c, w, p, a), {}); }
  }

  lemma RowSinks(c: Config, w: World, p: Principal, a: RowAction)
    requires RowEnabled(c, w, p, a)
    ensures SinksKept(c, w, RowEffect(c, w, p, a))
    ensures forall s :: StatusIs(w, Some(c.oldKey), s) == StatusIs(RowEffect(c, w, p, a), Some(c.oldKey), s)
  {
    hide TallyOf, Converged, Desired;
  }

  lemma SinkPromotion(c: Config, w: World, a: SinkAction)
    requires Inv(c, w) && PromotionInv(c, w) && SinkEnabled(w, a)
    ensures PromotionInv(c, SinkEffect(c, w, a))
  {
    hide HostInv, RetiredInv, SoakInv, AllPending, TallyOf;
  }

  lemma SinkWaves(c: Config, w: World, a: SinkAction)
    requires Inv(c, w) && WaveInv(c, w) && GateInv(c, w) && SinkEnabled(w, a)
    ensures WaveInv(c, SinkEffect(c, w, a)) && GateInv(c, SinkEffect(c, w, a))
  {
    hide HostInv, RetiredInv, SoakInv, AllPending, TallyOf, BoundTo, Tolerable, EarlierFailures;
    var v := SinkEffect(c, w, a);
    forall p | p in v.rows ensures Placed(c, v, v.rows[p]) { assert Placed(c, w, w.rows[p]); }
  }

  lemma RunKeepsRows(c: Config, w: World, a: RunAction)
    requires RunEnabled(c, w, a)
    ensures RunEffect(c, w, a).rows == w.rows && w.h.torn <= RunEffect(c, w, a).h.torn
  {
    hide NoneIn, NoRow, Tolerable, TallyOf;
  }

  lemma WaveBound(c: Config, w: World, p: Principal)
    requires Safe(c, w, p)
    ensures w.rows[p].wave <= c.lastWave
  {}

  lemma RunWindows(c: Config, w: World, a: RunAction)
    requires Inv(c, w) && WindowInv(c, w) && RunEnabled(c, w, a)
    ensures WindowInv(c, RunEffect(c, w, a))
  {
    var v := RunEffect(c, w, a);
    RunKeepsRows(c, w, a);
    hide GateInv, HonestInv, PromotionInv, RunEffect, RunEnabled, Placed, Safe, KeyInv, PcInv, RetiredInv, SoakInv, Shape;
    if WaveWindow !in v.h.torn {
      forall p | p in w.rows ensures Placed(c, v, w.rows[p]) {
        assert Safe(c, w, p) && Placed(c, w, w.rows[p]);
        WaveBound(c, w, p);
        RunPlaced(c, w, a, p);
      }
      RunGate(c, w, a);
      RunHonest(c, w, a);
    }
    if PromotionWindow !in v.h.torn { RunPromotion(c, w, a); }
  }

  lemma RowWindows(c: Config, w: World, p: Principal, a: RowAction)
    requires Inv(c, w) && WindowInv(c, w) && RowEnabled(c, w, p, a)
    ensures WindowInv(c, RowEffect(c, w, p, a))
  {
    assert RowEffect(c, w, p, a).h.torn == w.h.torn;
    hide Inv, GateInv, HonestInv, PromotionInv, WaveInv, RowEffect, RowEnabled;
    if WaveWindow !in w.h.torn { RowWaves(c, w, p, a); RowHonest(c, w, p, a); }
    if PromotionWindow !in w.h.torn { RowPromotion(c, w, p, a); }
  }

  lemma SinkWindows(c: Config, w: World, a: SinkAction)
    requires Inv(c, w) && WindowInv(c, w) && SinkEnabled(w, a)
    ensures WindowInv(c, SinkEffect(c, w, a))
  {
    assert SinkEffect(c, w, a).h.torn == w.h.torn;
    hide Inv, GateInv, HonestInv, PromotionInv, WaveInv, SinkEffect, SinkEnabled;
    if WaveWindow !in w.h.torn { SinkWaves(c, w, a); SinkHonest(c, w, a); }
    if PromotionWindow !in w.h.torn { SinkPromotion(c, w, a); }
  }

  lemma WindowStep(c: Config, w: World, a: Action)
    requires Inv(c, w) && WindowInv(c, w) && Enabled(c, w, a)
    ensures WindowInv(c, Effect(c, w, a))
  {
    hide Inv, WindowInv, RunEffect, RowEffect, SinkEffect, RunEnabled, RowEnabled, SinkEnabled;
    match a
    case OnRun(run) => RunWindows(c, w, run);
    case OnRow(p, row) => RowWindows(c, w, p, row);
    case OnSinks(sink) => SinkWindows(c, w, sink);
  }

  lemma WindowInit(c: Config, w: World)
    requires Init(c, w)
    ensures WindowInv(c, w)
  {}

  lemma {:induction false} WindowRun(c: Config, w0: World, log: seq<Action>, w: World)
    requires Reaches(c, w0, log, w)
    ensures WindowInv(c, w)
  {
    hide Inv, WindowInv, Enabled, Effect, Init;
    if log == [] {
      WindowInit(c, w0);
    } else {
      var v := Run(c, w0, log[..|log| - 1]).value;
      WindowRun(c, w0, log[..|log| - 1], v);
      InvRun(c, w0, log[..|log| - 1], v);
      WindowStep(c, v, log[|log| - 1]);
    }
  }
}
