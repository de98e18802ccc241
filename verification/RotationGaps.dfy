/**
 Runs that end badly. In three of them a crash between two writes leaves work that no later step
 picks up; in one Plan has left a login out; in one a finished rotation is written once more.
 Each breaks a promise that holds exactly when that does not happen.
 */
module RotationGaps {
  import opened Options
  import opened RotationProtocol

  const OLD: Key := 1
  const NEW: Key := 2
  const FIRST: Principal := 10
  const SECOND: Principal := 20
  const PIPELINE: Consumer := 30

  // Extending a run by one action.

  lemma Go(c: Config, w0: World, log: seq<Action>, w: World, a: RunAction, v: World) returns (more: seq<Action>)
    requires Reaches(c, w0, log, w) && RunEnabled(c, w, a) && RunEffect(c, w, a) == v
    ensures Reaches(c, w0, more, v)
  {
    more := log + [OnRun(a)];
    assert Enabled(c, w, OnRun(a)) && Effect(c, w, OnRun(a)) == v;
    hide Enabled, Effect, Init;
    assert more[..|log|] == log;
  }

  lemma GoRow(c: Config, w0: World, log: seq<Action>, w: World, p: Principal, a: RowAction, v: World) returns (more: seq<Action>)
    requires Reaches(c, w0, log, w) && RowEnabled(c, w, p, a) && RowEffect(c, w, p, a) == v
    ensures Reaches(c, w0, more, v)
  {
    more := log + [OnRow(p, a)];
    assert Enabled(c, w, OnRow(p, a)) && Effect(c, w, OnRow(p, a)) == v;
    hide Enabled, Effect, Init;
    assert more[..|log|] == log;
  }

  lemma GoSinks(c: Config, w0: World, log: seq<Action>, w: World, a: SinkAction, v: World) returns (more: seq<Action>)
    requires Reaches(c, w0, log, w) && SinkEnabled(w, a) && SinkEffect(c, w, a) == v
    ensures Reaches(c, w0, more, v)
  {
    more := log + [OnSinks(a)];
    assert Enabled(c, w, OnSinks(a)) && Effect(c, w, OnSinks(a)) == v;
    hide Enabled, Effect, Init;
    assert more[..|log|] == log;
  }

  lemma Began(c: Config, w0: World)
    requires Init(c, w0)
    ensures Reaches(c, w0, [], w0)
  {}

  lemma NoneFailed(rows: map<Principal, Progress>)
    requires NoRow(rows, RtFailed)
    ensures TallyOf(rows).failed == 0
  {
    assert InStates(rows, {RtFailed}) == {};
  }

  // ---- two logins: a crash between their waves, or a row only for the first ----

  function Rows(planned: bool, first: RowState): map<Principal, Progress> {
    if planned then map[FIRST := Progress(0, first), SECOND := Progress(1, RtPending)] else map[FIRST := Progress(0, first)]
  }

  function Top(planned: bool): nat {
    if planned then 1 else 0
  }

  function Fleet(planned: bool): Config {
    Config(OLD, false, 0, 0, Top(planned))
  }

  /** If the second login has a row, its wave is the one that gets cut. */
  function Cut(planned: bool): set<Window> {
    if planned then {WaveWindow} else {}
  }

  /** The first login is at `first`; the second is as it was before, planned for or not. */
  function Waves(planned: bool, state: State, wave: nat, first: RowState, granted: set<Key>, installed: set<Key>,
                 status: map<Key, KeyStatus>, soakUntil: Option<int>, h: History): World {
    World(Rotation(state, wave, if NEW in status then Some(NEW) else None, soakUntil, Top(planned) + 1, TallyOf(Rows(planned, first))),
          Rows(planned, first), map[FIRST := granted, SECOND := {OLD}], status,
          map[FIRST := installed, SECOND := {OLD}], map[], 0, h)
  }

  const START: map<Key, KeyStatus> := map[OLD := KeyActive]
  const GENERATED: map<Key, KeyStatus> := map[OLD := KeyActive, NEW := KeyPending]
  const SWAPPED: map<Key, KeyStatus> := map[OLD := KeyRetiring, NEW := KeyActive]
  const ENDED: map<Key, KeyStatus> := map[OLD := KeyRetired, NEW := KeyActive]

  function Calm(torn: set<Window>, proven: set<Principal>): History {
    History(Idle, proven, {}, torn)
  }

  lemma Updates(planned: bool)
    ensures forall x: RowState :: FIRST in Rows(planned, x) && Rows(planned, x)[FIRST] == Progress(0, x)
    ensures forall x: RowState, z: RowState :: Rows(planned, x)[FIRST := Progress(0, z)] == Rows(planned, z)
    ensures forall x: set<Key>, y: set<Key>, z: set<Key> ::
      map[FIRST := x, SECOND := y][FIRST := z] == map[FIRST := z, SECOND := y]
    ensures {OLD} + {NEW} == {OLD, NEW} && {OLD, NEW} - {OLD} == {NEW}
  {}

  lemma Nowhere(planned: bool, x: RowState, wave: nat, s: RowState)
    requires s != RtPending && s != x
    ensures NoneIn(Rows(planned, x), wave, s) && NoRow(Rows(planned, x), s)
    ensures TallyOf(Rows(planned, x)).failed == if x == RtFailed then TallyOf(Rows(planned, x)).failed else 0
  {
    if x != RtFailed { NoneFailed(Rows(planned, x)); }
  }

  lemma WavesInit(planned: bool, w0: World)
    requires w0 == Waves(planned, Planned, 0, RtPending, {OLD}, {OLD}, START, None, Calm({}, {}))
    ensures Init(Fleet(planned), w0)
  {
    hide TallyOf;
    RowCount(planned);
    assert w0.granted.Keys == w0.installed.Keys == {FIRST, SECOND};
    if planned { assert w0.rows[SECOND].wave == 1; }
  }

  lemma RowCount(planned: bool)
    ensures var rows := Rows(planned, RtPending); |rows| == Top(planned) + 1 && rows.Keys <= {FIRST, SECOND}
  {
    var rows := Rows(planned, RtPending);
    if planned {
      assert rows.Keys == {FIRST, SECOND} && |rows| == |rows.Keys|;
    } else {
      assert rows.Keys == {FIRST} && |rows| == |rows.Keys|;
    }
  }

  lemma WavesStart(planned: bool) returns (w0: World, log: seq<Action>)
    ensures SECOND in Assigned(Fleet(planned), w0)
    ensures Reaches(Fleet(planned), w0, log, Waves(planned, Staging, 0, RtPending, {OLD}, {OLD}, GENERATED, None, Calm({}, {})))
  {
    hide TallyOf, Init, Run;
    Updates(planned);
    w0 := Waves(planned, Planned, 0, RtPending, {OLD}, {OLD}, START, None, Calm({}, {}));
    WavesInit(planned, w0);
    Began(Fleet(planned), w0);
    log := [];
    var w1 := w0.(status := GENERATED, h := w0.h.(pc := Generated(NEW)));
    log := Go(Fleet(planned), w0, log, w0, Generate(NEW), w1);
    var w2 := Waves(planned, Planned, 0, RtPending, {OLD}, {OLD}, GENERATED, None, Calm({}, {}));
    RowCount(planned);
    log := Go(Fleet(planned), w0, log, w1, RecordKey, w2);
    log := Go(Fleet(planned), w0, log, w2, Open, Waves(planned, Staging, 0, RtPending, {OLD}, {OLD}, GENERATED, None, Calm({}, {})));
  }

  /** The first wave is staged and verified; the process dies between writing the wave and the state. */
  lemma WavesTorn(planned: bool, w0: World, start: seq<Action>) returns (log: seq<Action>)
    requires Reaches(Fleet(planned), w0, start, Waves(planned, Staging, 0, RtPending, {OLD}, {OLD}, GENERATED, None, Calm({}, {})))
    ensures Reaches(Fleet(planned), w0, log,
      Waves(planned, Verifying, Top(planned), RtVerified, {OLD, NEW}, {OLD, NEW}, GENERATED, None, Calm(Cut(planned), {FIRST})))
  {
    hide TallyOf, Init, Run, Rows;
    Updates(planned);
    log := start;
    var both := {OLD, NEW};
    var a := Waves(planned, Staging, 0, RtPending, {OLD}, {OLD}, GENERATED, None, Calm({}, {}));
    var b := Waves(planned, Staging, 0, RtPending, both, {OLD}, GENERATED, None, Calm({}, {}));
    log := GoRow(Fleet(planned), w0, log, a, FIRST, Bind, b);
    assert Desired(b, FIRST) == both;
    var d := Waves(planned, Staging, 0, RtPending, both, both, GENERATED, None, Calm({}, {}));
    log := GoRow(Fleet(planned), w0, log, b, FIRST, Push, d);
    var e := Waves(planned, Staging, 0, RtStaged, both, both, GENERATED, None, Calm({}, {}));
    log := GoRow(Fleet(planned), w0, log, d, FIRST, MarkStaged, e);
    log := WavesVerified(planned, w0, log);
  }

  lemma FirstStaged(planned: bool)
    ensures NoneIn(Rows(planned, RtStaged), 0, RtPending) && TallyOf(Rows(planned, RtStaged)).failed == 0
  {
    NoneFailed(Rows(planned, RtStaged));
  }

  lemma WavesVerified(planned: bool, w0: World, start: seq<Action>) returns (log: seq<Action>)
    requires Reaches(Fleet(planned), w0, start, Waves(planned, Staging, 0, RtStaged, {OLD, NEW}, {OLD, NEW}, GENERATED, None, Calm({}, {})))
    ensures Reaches(Fleet(planned), w0, log,
      Waves(planned, Verifying, Top(planned), RtVerified, {OLD, NEW}, {OLD, NEW}, GENERATED, None, Calm(Cut(planned), {FIRST})))
  {
    hide TallyOf, Init, Run, Rows;
    Updates(planned);
    log := start;
    var both := {OLD, NEW};
    var a := Waves(planned, Staging, 0, RtStaged, both, both, GENERATED, None, Calm({}, {}));
    var b := a.(r := a.r.(state := Verifying));
    FirstStaged(planned);
    log := Go(Fleet(planned), w0, log, a, ToVerifying, b);
    var d := b.(h := Calm({}, {FIRST}));
    log := GoRow(Fleet(planned), w0, log, b, FIRST, Authenticate, d);
    var e := Waves(planned, Verifying, 0, RtVerified, both, both, GENERATED, None, Calm({}, {FIRST}));
    log := GoRow(Fleet(planned), w0, log, d, FIRST, MarkVerified, e);
    Nowhere(planned, RtVerified, 0, RtStaged);
    if planned {
      var f := e.(r := e.r.(wave := 1), h := e.h.(pc := Advancing));
      log := Go(Fleet(planned), w0, log, e, NextWave, f);
      log := Go(Fleet(planned), w0, log, f, Crash,
                Waves(planned, Verifying, 1, RtVerified, both, both, GENERATED, None, Calm({WaveWindow}, {FIRST})));
    }
  }

  /** Nothing is staged in the last wave, and the next step goes on to promotion. */
  lemma WavesPromoted(planned: bool, w0: World, start: seq<Action>) returns (log: seq<Action>)
    requires Reaches(Fleet(planned), w0, start,
      Waves(planned, Verifying, Top(planned), RtVerified, {OLD, NEW}, {OLD, NEW}, GENERATED, None, Calm(Cut(planned), {FIRST})))
    ensures Reaches(Fleet(planned), w0, log,
      Waves(planned, Retiring, Top(planned), RtVerified, {OLD, NEW}, {OLD, NEW}, SWAPPED, Some(0), Calm(Cut(planned), {FIRST})))
  {
    hide TallyOf, Init, Run, Rows;
    var both := {OLD, NEW};
    var a := Waves(planned, Verifying, Top(planned), RtVerified, both, both, GENERATED, None, Calm(Cut(planned), {FIRST}));
    Nowhere(planned, RtVerified, Top(planned), RtStaged);
    var b := a.(r := a.r.(state := Verified));
    log := Go(Fleet(planned), w0, start, a, ToVerified, b);
    log := WavesSwapped(planned, w0, log);
    log := WavesSoaked(planned, w0, log);
  }

  lemma WavesSwapped(planned: bool, w0: World, start: seq<Action>) returns (log: seq<Action>)
    requires Reaches(Fleet(planned), w0, start,
      Waves(planned, Verified, Top(planned), RtVerified, {OLD, NEW}, {OLD, NEW}, GENERATED, None, Calm(Cut(planned), {FIRST})))
    ensures Reaches(Fleet(planned), w0, log,
      Waves(planned, Promoting, Top(planned), RtVerified, {OLD, NEW}, {OLD, NEW}, SWAPPED, None, Calm(Cut(planned), {FIRST})))
  {
    hide TallyOf, Init, Run, Rows;
    var both := {OLD, NEW};
    var b := Waves(planned, Verified, Top(planned), RtVerified, both, both, GENERATED, None, Calm(Cut(planned), {FIRST}));
    var d := b.(r := b.r.(state := Promoting), h := b.h.(pc := Promoted));
    log := GoSinks(Fleet(planned), w0, start, b, Promote, d);
    var e := d.(status := map[OLD := KeyActive, NEW := KeyActive], h := d.h.(pc := Activated));
    log := GoSinks(Fleet(planned), w0, log, d, Activate, e);
    log := WavesHanded(planned, w0, log, e);
  }

  lemma WavesHanded(planned: bool, w0: World, start: seq<Action>, e: World) returns (log: seq<Action>)
    requires e == Waves(planned, Promoting, Top(planned), RtVerified, {OLD, NEW}, {OLD, NEW},
                        map[OLD := KeyActive, NEW := KeyActive], None, Calm(Cut(planned), {FIRST}).(pc := Activated))
    requires Reaches(Fleet(planned), w0, start, e)
    ensures Reaches(Fleet(planned), w0, log,
      Waves(planned, Promoting, Top(planned), RtVerified, {OLD, NEW}, {OLD, NEW}, SWAPPED, None, Calm(Cut(planned), {FIRST})))
  {
    hide TallyOf, Init, Run, Rows;
    var both := {OLD, NEW};
    assert BoundTo(e.consumers, OLD) == {};
    var f := e.(status := SWAPPED, h := e.h.(pc := Handing({})));
    log := GoSinks(Fleet(planned), w0, start, e, Demote, f);
    var g := Waves(planned, Promoting, Top(planned), RtVerified, both, both, SWAPPED, None, Calm(Cut(planned), {FIRST}));
    log := GoSinks(Fleet(planned), w0, log, f, HandoverDone, g);
  }

  lemma WavesSoaked(planned: bool, w0: World, start: seq<Action>) returns (log: seq<Action>)
    requires Reaches(Fleet(planned), w0, start,
      Waves(planned, Promoting, Top(planned), RtVerified, {OLD, NEW}, {OLD, NEW}, SWAPPED, None, Calm(Cut(planned), {FIRST})))
    ensures Reaches(Fleet(planned), w0, log,
      Waves(planned, Retiring, Top(planned), RtVerified, {OLD, NEW}, {OLD, NEW}, SWAPPED, Some(0), Calm(Cut(planned), {FIRST})))
  {
    hide TallyOf, Init, Run, Rows;
    Updates(planned);
    log := start;
    var a := Waves(planned, Promoting, Top(planned), RtVerified, {OLD, NEW}, {OLD, NEW}, SWAPPED, None, Calm(Cut(planned), {FIRST}));
    var b := a.(r := a.r.(soakUntil := Some(0)));
    log := Go(Fleet(planned), w0, log, a, SetSoak, b);
    var d := b.(r := b.r.(state := Soaking));
    log := Go(Fleet(planned), w0, log, b, BeginSoak, d);
    log := Go(Fleet(planned), w0, log, d, EndSoak, d.(r := d.r.(state := Retiring)));
  }

  lemma WavesRetired(planned: bool, w0: World, start: seq<Action>) returns (log: seq<Action>)
    requires Reaches(Fleet(planned), w0, start,
      Waves(planned, Retiring, Top(planned), RtVerified, {OLD, NEW}, {OLD, NEW}, SWAPPED, Some(0), Calm(Cut(planned), {FIRST})))
    ensures Reaches(Fleet(planned), w0, log, Waves(planned, Retiring, Top(planned), RtRetired, {NEW}, {NEW}, SWAPPED, Some(0), Calm(Cut(planned), {FIRST})))
  {
    hide TallyOf, Init, Run, Rows;
    Updates(planned);
    log := start;
    var torn := Calm(Cut(planned), {FIRST});
    var a := Waves(planned, Retiring, Top(planned), RtVerified, {OLD, NEW}, {OLD, NEW}, SWAPPED, Some(0), torn);
    var b := Waves(planned, Retiring, Top(planned), RtVerified, {NEW}, {OLD, NEW}, SWAPPED, Some(0), torn);
    log := GoRow(Fleet(planned), w0, log, a, FIRST, Unbind, b);
    assert Desired(b, FIRST) == {NEW} && SWAPPED.Keys == {OLD, NEW};
    assert Converged({OLD, NEW}, {NEW}, true, {OLD, NEW}) == {NEW};
    var d := Waves(planned, Retiring, Top(planned), RtVerified, {NEW}, {NEW}, SWAPPED, Some(0), torn);
    log := GoRow(Fleet(planned), w0, log, b, FIRST, Prune, d);
    log := WavesMarked(planned, w0, log, d);
  }

  lemma WavesMarked(planned: bool, w0: World, start: seq<Action>, d: World) returns (log: seq<Action>)
    requires d == Waves(planned, Retiring, Top(planned), RtVerified, {NEW}, {NEW}, SWAPPED, Some(0), Calm(Cut(planned), {FIRST}))
    requires Reaches(Fleet(planned), w0, start, d)
    ensures Reaches(Fleet(planned), w0, log,
      Waves(planned, Retiring, Top(planned), RtRetired, {NEW}, {NEW}, SWAPPED, Some(0), Calm(Cut(planned), {FIRST})))
  {
    hide TallyOf, Init, Run, Rows;
    Updates(planned);
    assert Desired(d, FIRST) == {NEW} && SWAPPED.Keys == {OLD, NEW};
    assert Converged({NEW}, {NEW}, true, {OLD, NEW}) == {NEW};
    log := GoRow(Fleet(planned), w0, start, d, FIRST, MarkRetired,
                 Waves(planned, Retiring, Top(planned), RtRetired, {NEW}, {NEW}, SWAPPED, Some(0), Calm(Cut(planned), {FIRST})));
  }

  lemma WavesEnded(planned: bool, w0: World, start: seq<Action>) returns (log: seq<Action>, w: World)
    requires Reaches(Fleet(planned), w0, start, Waves(planned, Retiring, Top(planned), RtRetired, {NEW}, {NEW}, SWAPPED, Some(0), Calm(Cut(planned), {FIRST})))
    ensures Reaches(Fleet(planned), w0, log, w)
    ensures w.r.state == Completed && OLD in w.status && w.status[OLD] == KeyRetired
    ensures w.rows == Rows(planned, RtRetired) && w.h.torn == Cut(planned)
    ensures SECOND in w.installed && OLD in w.installed[SECOND]
  {
    hide TallyOf, Init, Run, Rows;
    log := start;
    var a := Waves(planned, Retiring, Top(planned), RtRetired, {NEW}, {NEW}, SWAPPED, Some(0), Calm(Cut(planned), {FIRST}));
    Nowhere(planned, RtRetired, 0, RtVerified);
    Nowhere(planned, RtRetired, 0, RtFailed);
    var b := a.(status := ENDED);
    log := Go(Fleet(planned), w0, log, a, RetireKey, b);
    w := b.(r := b.r.(state := Completed));
    log := Go(Fleet(planned), w0, log, b, Complete, w);
  }

  lemma WavesRun(planned: bool) returns (w0: World, log: seq<Action>, w: World)
    ensures Reaches(Fleet(planned), w0, log, w)
    ensures w.r.state == Completed && OLD in w.status && w.status[OLD] == KeyRetired
    ensures w.rows == Rows(planned, RtRetired) && SECOND in Assigned(Fleet(planned), w0)
    ensures SECOND in w.installed && OLD in w.installed[SECOND]
    ensures w.h.torn == Cut(planned)
  {
    hide Waves, Reaches;
    w0, log := WavesStart(planned);
    log := WavesTorn(planned, w0, log);
    log := WavesPromoted(planned, w0, log);
    log := WavesRetired(planned, w0, log);
    log, w := WavesEnded(planned, w0, log);
  }

  /**
   A crash between the two writes of a wave advance: the run completes and reports the old key
   retired, while a login whose row is still pending accepts it.
   */
  lemma RetiredButStillAccepted() returns (w0: World, log: seq<Action>, w: World)
    ensures Reaches(Fleet(true), w0, log, w)
    ensures w.r.state == Completed && OLD in w.status && w.status[OLD] == KeyRetired
    ensures SECOND in w.rows && w.rows[SECOND].state == RtPending
    ensures SECOND in w.installed && OLD in w.installed[SECOND]
  {
    hide Reaches;
    w0, log, w := WavesRun(true);
  }

  /**
   A plan that stopped before its last row, or at its thousandth: nothing crashes after it, the
   run completes and reports the old key retired, while an assigned login without a row accepts it.
   */
  lemma LoginLeftOut() returns (w0: World, log: seq<Action>, w: World)
    ensures Reaches(Fleet(false), w0, log, w) && w.h.torn == {}
    ensures w.r.state == Completed && OLD in w.status && w.status[OLD] == KeyRetired
    ensures SECOND in Assigned(Fleet(false), w0) && SECOND !in w.rows
    ensures SECOND in w.installed && OLD in w.installed[SECOND]
  {
    hide Reaches;
    w0, log, w := WavesRun(false);
  }

  // ---- one login and one consumer ----

  function Single(dryRun: bool): Config {
    Config(OLD, dryRun, 0, 0, 0)
  }

  function One(state: State, s: RowState, granted: set<Key>, installed: set<Key>,
               status: map<Key, KeyStatus>, soakUntil: Option<int>, h: History): World {
    var rows := map[FIRST := Progress(0, s)];
    World(Rotation(state, 0, if NEW in status then Some(NEW) else None, soakUntil, 1, TallyOf(rows)),
          rows, map[FIRST := granted], status, map[FIRST := installed], map[PIPELINE := Sink(OLD, true, false, {})], 0, h)
  }

  lemma OneUpdates()
    ensures forall x: Progress, z: Progress :: map[FIRST := x][FIRST := z] == map[FIRST := z]
    ensures forall x: set<Key>, z: set<Key> :: map[FIRST := x][FIRST := z] == map[FIRST := z]
    ensures {OLD} + {NEW} == {OLD, NEW} && {OLD, NEW} - {OLD} == {NEW}
  {}

  lemma OneInit(dryRun: bool)
    ensures Init(Single(dryRun), One(Planned, RtPending, {OLD}, {OLD}, START, None, Calm({}, {})))
  {
    hide TallyOf;
    assert |map[FIRST := Progress(0, RtPending)]| == 1;
  }

  /** The key is generated and named; a dry run dies there, before it is marked completed. */
  lemma OneStart(dryRun: bool) returns (w0: World, log: seq<Action>)
    ensures w0.installed == map[FIRST := {OLD}]
    ensures Reaches(Single(dryRun), w0, log,
      One(Staging, RtPending, {OLD}, {OLD}, GENERATED, None, Calm({}, {})))
  {
    hide TallyOf, Init, Run;
    w0 := One(Planned, RtPending, {OLD}, {OLD}, START, None, Calm({}, {}));
    OneInit(dryRun);
    Began(Single(dryRun), w0);
    log := [];
    var a := w0.(status := GENERATED, h := w0.h.(pc := Generated(NEW)));
    log := Go(Single(dryRun), w0, log, w0, Generate(NEW), a);
    assert |map[FIRST := Progress(0, RtPending)]| == 1;
    var b := a.(r := a.r.(newKey := Some(NEW)), h := a.h.(pc := if dryRun then DryStop else Idle));
    log := Go(Single(dryRun), w0, log, a, RecordKey, b);
    var d := b.(h := Calm({}, {}));
    log := Go(Single(dryRun), w0, log, b, Crash, d);
    log := Go(Single(dryRun), w0, log, d, Open, d.(r := d.r.(state := Staging)));
  }

  lemma OneStaged(dryRun: bool, w0: World, start: seq<Action>, torn: set<Window>) returns (log: seq<Action>)
    requires Reaches(Single(dryRun), w0, start, One(Staging, RtPending, {OLD}, {OLD}, GENERATED, None, Calm(torn, {})))
    ensures Reaches(Single(dryRun), w0, log, One(Staging, RtStaged, {OLD, NEW}, {OLD, NEW}, GENERATED, None, Calm(torn, {})))
  {
    hide TallyOf, Init, Run;
    OneUpdates();
    log := start;
    var both := {OLD, NEW};
    var a := One(Staging, RtPending, {OLD}, {OLD}, GENERATED, None, Calm(torn, {}));
    var b := One(Staging, RtPending, both, {OLD}, GENERATED, None, Calm(torn, {}));
    log := GoRow(Single(dryRun), w0, log, a, FIRST, Bind, b);
    assert Desired(b, FIRST) == both;
    var d := One(Staging, RtPending, both, both, GENERATED, None, Calm(torn, {}));
    log := GoRow(Single(dryRun), w0, log, b, FIRST, Push, d);
    log := GoRow(Single(dryRun), w0, log, d, FIRST, MarkStaged, One(Staging, RtStaged, both, both, GENERATED, None, Calm(torn, {})));
  }

  /** A dry run that dies before it is marked completed is carried out on the fleet by the retry. */
  lemma DryRunDeploys() returns (w0: World, log: seq<Action>, w: World)
    ensures Single(true).dryRun && Reaches(Single(true), w0, log, w)
    ensures FIRST in w0.installed && FIRST in w.installed && w.installed[FIRST] != w0.installed[FIRST]
  {
    hide Reaches;
    w0, log := OneStart(true);
    log := OneStaged(true, w0, log, {});
    w := One(Staging, RtStaged, {OLD, NEW}, {OLD, NEW}, GENERATED, None, Calm({}, {}));
  }

  lemma OneVerified(w0: World, start: seq<Action>) returns (log: seq<Action>)
    requires Reaches(Single(false), w0, start, One(Staging, RtStaged, {OLD, NEW}, {OLD, NEW}, GENERATED, None, Calm({}, {})))
    ensures Reaches(Single(false), w0, log, One(Verifying, RtVerified, {OLD, NEW}, {OLD, NEW}, GENERATED, None, Calm({}, {FIRST})))
  {
    hide TallyOf, Init, Run;
    OneUpdates();
    log := start;
    var both := {OLD, NEW};
    var a := One(Staging, RtStaged, both, both, GENERATED, None, Calm({}, {}));
    NoneFailed(a.rows);
    var b := a.(r := a.r.(state := Verifying));
    log := Go(Single(false), w0, log, a, ToVerifying, b);
    var d := b.(h := Calm({}, {FIRST}));
    log := GoRow(Single(false), w0, log, b, FIRST, Authenticate, d);
    var e := One(Verifying, RtVerified, both, both, GENERATED, None, Calm({}, {FIRST}));
    log := GoRow(Single(false), w0, log, d, FIRST, MarkVerified, e);
  }

  lemma OnePromotable(w0: World, start: seq<Action>) returns (log: seq<Action>)
    requires Reaches(Single(false), w0, start, One(Verifying, RtVerified, {OLD, NEW}, {OLD, NEW}, GENERATED, None, Calm({}, {FIRST})))
    ensures Reaches(Single(false), w0, log, One(Verified, RtVerified, {OLD, NEW}, {OLD, NEW}, GENERATED, None, Calm({}, {FIRST})))
  {
    hide TallyOf, Init, Run;
    var v := One(Verifying, RtVerified, {OLD, NEW}, {OLD, NEW}, GENERATED, None, Calm({}, {FIRST}));
    NoneFailed(v.rows);
    log := Go(Single(false), w0, start, v, ToVerified, v.(r := v.r.(state := Verified)));
  }

  /** The process dies right after writing the promoting state; the next step opens the soak. */
  lemma OneSoaked(w0: World, start: seq<Action>) returns (log: seq<Action>)
    requires Reaches(Single(false), w0, start, One(Verified, RtVerified, {OLD, NEW}, {OLD, NEW}, GENERATED, None, Calm({}, {FIRST})))
    ensures Reaches(Single(false), w0, log,
      One(Retiring, RtVerified, {OLD, NEW}, {OLD, NEW}, GENERATED, Some(0), Calm({PromotionWindow}, {FIRST})))
  {
    hide TallyOf, Init, Run;
    var a := One(Verified, RtVerified, {OLD, NEW}, {OLD, NEW}, GENERATED, None, Calm({}, {FIRST}));
    var b := a.(r := a.r.(state := Promoting), h := a.h.(pc := Promoted));
    log := GoSinks(Single(false), w0, start, a, Promote, b);
    var d := b.(h := Calm({PromotionWindow}, {FIRST}));
    log := Go(Single(false), w0, log, b, Crash, d);
    var e := d.(r := d.r.(soakUntil := Some(0)));
    log := Go(Single(false), w0, log, d, SetSoak, e);
    var f := e.(r := e.r.(state := Soaking));
    log := Go(Single(false), w0, log, e, BeginSoak, f);
    log := Go(Single(false), w0, log, f, EndSoak, f.(r := f.r.(state := Retiring)));
  }

  lemma OnePruned(w0: World, start: seq<Action>) returns (log: seq<Action>)
    requires Reaches(Single(false), w0, start,
      One(Retiring, RtVerified, {OLD, NEW}, {OLD, NEW}, GENERATED, Some(0), Calm({PromotionWindow}, {FIRST})))
    ensures Reaches(Single(false), w0, log,
      One(Retiring, RtVerified, {NEW}, {NEW}, GENERATED, Some(0), Calm({PromotionWindow}, {FIRST})))
  {
    hide TallyOf, Init, Run;
    OneUpdates();
    log := start;
    var torn := Calm({PromotionWindow}, {FIRST});
    var a := One(Retiring, RtVerified, {OLD, NEW}, {OLD, NEW}, GENERATED, Some(0), torn);
    var b := One(Retiring, RtVerified, {NEW}, {OLD, NEW}, GENERATED, Some(0), torn);
    log := GoRow(Single(false), w0, log, a, FIRST, Unbind, b);
    assert Desired(b, FIRST) == {NEW} && GENERATED.Keys == {OLD, NEW};
    assert Converged({OLD, NEW}, {NEW}, true, {OLD, NEW}) == {NEW};
    log := GoRow(Single(false), w0, log, b, FIRST, Prune, One(Retiring, RtVerified, {NEW}, {NEW}, GENERATED, Some(0), torn));
  }

  // ---- a step left over in the queue ----

  /** A dry run completes; a step left over is refused because whoever started it is gone, and it reads failed. */
  lemma FinishedOverwritten() returns (w0: World, log: seq<Action>, w: World, v: World)
    ensures Reaches(Single(true), w0, log, w) && w.r.state == Completed
    ensures Enabled(Single(true), w, OnRun(Halt(Failed))) && Effect(Single(true), w, OnRun(Halt(Failed))) == v
    ensures v.r.state == Failed
  {
    hide TallyOf, Init, Run;
    w0 := One(Planned, RtPending, {OLD}, {OLD}, START, None, Calm({}, {}));
    OneInit(true);
    Began(Single(true), w0);
    log := [];
    var a := w0.(status := GENERATED, h := w0.h.(pc := Generated(NEW)));
    log := Go(Single(true), w0, log, w0, Generate(NEW), a);
    assert |map[FIRST := Progress(0, RtPending)]| == 1;
    var b := a.(r := a.r.(newKey := Some(NEW)), h := a.h.(pc := DryStop));
    log := Go(Single(true), w0, log, a, RecordKey, b);
    w := b.(r := b.r.(state := Completed), h := Calm({}, {}));
    log := Go(Single(true), w0, log, b, StopDry, w);
    v := w.(r := w.r.(state := Failed));
  }

  /** A crash right after the promoting state is written: a login loses the key its consumer still depends on. */
  lemma ConsumerLeftBehind() returns (w0: World, log: seq<Action>, w: World)
    ensures Reaches(Single(false), w0, log, w)
    ensures FIRST in w.installed && OLD !in w.installed[FIRST]
    ensures PIPELINE in w.consumers && w.consumers[PIPELINE] == Sink(OLD, true, false, {})
  {
    hide Reaches;
    w0, log := OneStart(false);
    log := OneStaged(false, w0, log, {});
    log := OneVerified(w0, log);
    log := OnePromotable(w0, log);
    log := OneSoaked(w0, log);
    log := OnePruned(w0, log);
    w := One(Retiring, RtVerified, {NEW}, {NEW}, GENERATED, Some(0), Calm({PromotionWindow}, {FIRST}));
  }
}
