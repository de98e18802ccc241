/**
 Key rotation by add-before-remove, as a transition system over everything that outlives a
 process: the database rows, the clock, and the keys each login accepts. One action is one
 store write or one effect on a host or consumer, so a crash may fall between any two.
 */
module RotationProtocol {
  import opened Options

  type Key = nat
  type Principal = nat
  type Consumer = nat

  datatype State =
    | Planned | Awaiting | Staging | Staged | Verifying | Verified | Promoting | Soaking | Retiring
    | Completed | Aborted | RolledBack | Failed

  datatype RowState = RtPending | RtStaged | RtVerified | RtRetired | RtFailed

  datatype KeyStatus =
    | KeyPending | KeyStaged | KeyActive | KeyRetiring | KeyRetired | KeyRevoked | KeyCompromised | KeyDestroyed

  predicate Finished(s: State) {
    s == Completed || s == Aborted || s == RolledBack || s == Failed
  }

  /** One rotation_targets row; there is one per login the old key is assigned to. */
  datatype Progress = Progress(wave: nat, state: RowState)

  datatype Tally = Tally(staged: nat, verified: nat, retired: nat, failed: nat)

  datatype Rotation = Rotation(state: State, wave: nat, newKey: Option<Key>, soakUntil: Option<int>,
                               total: nat, tally: Tally)

  /** A system that holds the private half of a key: pushed to it, or fetched by it whenever it is bound to one. */
  datatype Sink = Sink(key: Key, enabled: bool, pull: bool, received: set<Key>) {
    /** It is bound to the key and can have its private half. */
    predicate Has(k: Key) {
      key == k && (pull || k in received)
    }
  }

  /** How far the running process is through a transition of several writes; lost in a crash. */
  datatype Pc = Idle | Generated(key: Key) | DryStop | Advancing | Promoted | Activated | Handing(todo: set<Consumer>)

  /** The two places past planning where resuming after a crash does not pick up what was left undone. */
  datatype Window = WaveWindow | PromotionWindow

  /** proven: logins where a fresh authentication with the new key succeeded; owed: consumers to be handed it. */
  datatype History = History(pc: Pc, proven: set<Principal>, owed: set<Consumer>, torn: set<Window>)

  datatype World = World(r: Rotation, rows: map<Principal, Progress>, granted: map<Principal, set<Key>>,
                         status: map<Key, KeyStatus>, installed: map<Principal, set<Key>>,
                         consumers: map<Consumer, Sink>, now: int, h: History)

  datatype Config = Config(oldKey: Key, dryRun: bool, threshold: int, soak: int, lastWave: nat)

  /** The rotation as a whole, and its surroundings. */
  datatype RunAction =
    | Tick(d: nat) | Crash | Approve | Halt(to: State)
    | Generate(key: Key) | RecordKey | StopDry | Open
    | ToVerifying | NextWave | Restage | ToVerified
    | SetSoak | BeginSoak | EndSoak | RetireKey | Complete

  /** One login: stage, verify, retire. */
  datatype RowAction =
    | Bind | Push | MarkStaged | MarkUnstaged
    | Authenticate | MarkVerified | MarkUnverified
    | Unbind | Prune | ActivateKey(key: Key) | MarkRetired | MarkUnretired

  /** Promotion and the hand-over of the private half. */
  datatype SinkAction = Promote | Activate | Demote | Deliver(k: Consumer) | Rebind(k: Consumer) | HandoverFailed | HandoverDone

  datatype Action = OnRun(run: RunAction) | OnRow(p: Principal, row: RowAction) | OnSinks(sink: SinkAction)

  // ---- what the rows say ----

  function InStates(rows: map<Principal, Progress>, states: set<RowState>): set<Principal> {
    set p | p in rows && rows[p].state in states
  }

  function TallyOf(rows: map<Principal, Progress>): Tally {
    Tally(|InStates(rows, {RtStaged, RtVerified, RtRetired})|, |InStates(rows, {RtVerified, RtRetired})|,
          |InStates(rows, {RtRetired})|, |InStates(rows, {RtFailed})|)
  }

  ghost predicate NoneIn(rows: map<Principal, Progress>, wave: nat, s: RowState) {
    forall p :: p in rows ==> rows[p] != Progress(wave, s)
  }

  ghost predicate NoRow(rows: map<Principal, Progress>, s: RowState) {
    forall p :: p in rows ==> rows[p].state != s
  }

  /** The failure rate is within the threshold; integer percent, as the engine computes it. */
  predicate Tolerable(c: Config, failed: nat, total: nat) {
    total == 0 || failed == 0 || failed * 100 / total <= c.threshold
  }

  // ---- deploying ----

  predicate Deployable(s: KeyStatus) {
    s != KeyRevoked && s != KeyCompromised && s != KeyDestroyed
  }

  function Desired(w: World, p: Principal): set<Key>
    requires p in w.granted
  {
    set k | k in w.granted[p] && k in w.status && Deployable(w.status[k])
  }

  /** What Apply leaves on a host. Only keys the store knows are pruned. */
  function Converged<K(==)>(installed: set<K>, desired: set<K>, prune: bool, managed: set<K>): set<K> {
    if prune then (installed + desired) - (managed - desired) else installed + desired
  }

  // ---- the transition system ----

  predicate In(w: World, state: State) {
    w.h.pc == Idle && w.r.state == state
  }

  /** The row of p, if any of its tables has one. */
  predicate HasRow(w: World, p: Principal) {
    w.r.newKey.Some? && p in w.rows && p in w.granted && p in w.installed
  }

  /** The row of p is in the current wave and in state s, and the rotation is at `state`. */
  predicate At(w: World, state: State, p: Principal, s: RowState) {
    In(w, state) && HasRow(w, p) && w.rows[p] == Progress(w.r.wave, s)
  }

  predicate AtRetiring(w: World, p: Principal) {
    In(w, Retiring) && HasRow(w, p) && w.rows[p].state == RtVerified
  }

  ghost predicate WaveDone(c: Config, w: World, state: State, s: RowState) {
    In(w, state) && NoneIn(w.rows, w.r.wave, s) && Tolerable(c, w.r.tally.failed, w.r.total)
  }

  ghost predicate RunEnabled(c: Config, w: World, a: RunAction) {
    match a
    case Tick(_) => true
    case Crash => true
    case Approve => In(w, Awaiting)
    case Halt(to) => w.h.pc == Idle && (to == Failed || (to == Aborted && !Finished(w.r.state)))
    case Generate(k) => In(w, Planned) && w.r.newKey.None? && k !in w.status
    case RecordKey => w.h.pc.Generated? && w.r.state == Planned
    case StopDry => w.h.pc == DryStop
    case Open => In(w, Planned) && w.r.newKey.Some?
    case ToVerifying => WaveDone(c, w, Staging, RtPending)
    case NextWave => WaveDone(c, w, Verifying, RtStaged) && w.r.wave < c.lastWave
    case Restage => w.h.pc == Advancing
    case ToVerified => WaveDone(c, w, Verifying, RtStaged) && w.r.wave >= c.lastWave
    case SetSoak => In(w, Promoting)
    case BeginSoak => In(w, Promoting) && w.r.soakUntil.Some?
    case EndSoak => In(w, Soaking) && (w.r.soakUntil.Some? ==> w.r.soakUntil.value <= w.now)
    case RetireKey => In(w, Retiring) && NoRow(w.rows, RtVerified) && NoRow(w.rows, RtFailed)
    case Complete =>
      && In(w, Retiring) && NoRow(w.rows, RtVerified)
      && (NoRow(w.rows, RtFailed) ==> c.oldKey in w.status && w.status[c.oldKey] == KeyRetired)
  }

  predicate RowEnabled(c: Config, w: World, p: Principal, a: RowAction) {
    match a
    case Bind => At(w, Staging, p, RtPending)
    case Push => At(w, Staging, p, RtPending) && w.r.newKey.value in w.granted[p]
    case MarkStaged =>
      At(w, Staging, p, RtPending) && w.r.newKey.value in w.granted[p] && Desired(w, p) <= w.installed[p]
    case MarkUnstaged => At(w, Staging, p, RtPending)
    case Authenticate => At(w, Verifying, p, RtStaged) && w.r.newKey.value in w.installed[p]
    case MarkVerified => At(w, Verifying, p, RtStaged) && p in w.h.proven
    case MarkUnverified => At(w, Verifying, p, RtStaged)
    case Unbind => AtRetiring(w, p)
    case Prune =>
      && AtRetiring(w, p) && c.oldKey !in w.granted[p]
      && Converged(w.installed[p], Desired(w, p), true, w.status.Keys) != {}
    case ActivateKey(k) =>
      && AtRetiring(w, p) && c.oldKey !in w.granted[p] && k in w.granted[p]
      && k in w.status && (w.status[k] == KeyPending || w.status[k] == KeyStaged)
    case MarkRetired =>
      && AtRetiring(w, p) && c.oldKey !in w.granted[p]
      && w.installed[p] == Converged(w.installed[p], Desired(w, p), true, w.status.Keys)
    case MarkUnretired => AtRetiring(w, p)
  }

  predicate SinkEnabled(w: World, a: SinkAction) {
    var pc := w.h.pc;
    match a
    case Promote => (In(w, Staged) || In(w, Verified)) && w.r.newKey.Some?
    case Activate => pc == Promoted && w.r.newKey.Some?
    case Demote => pc == Activated
    case Deliver(k) => pc.Handing? && k in pc.todo && k in w.consumers && w.r.newKey.Some?
    case Rebind(k) =>
      && pc.Handing? && k in pc.todo && k in w.consumers && w.r.newKey.Some?
      && (w.consumers[k].pull || w.r.newKey.value in w.consumers[k].received)
    case HandoverFailed => pc.Handing? && pc.todo != {}
    case HandoverDone => pc == Handing({})
  }

  ghost predicate Enabled(c: Config, w: World, a: Action) {
    match a
    case OnRun(run) => RunEnabled(c, w, run)
    case OnRow(p, row) => RowEnabled(c, w, p, row)
    case OnSinks(sink) => SinkEnabled(w, sink)
  }

  function WithState(w: World, s: State): World {
    w.(r := w.r.(state := s))
  }

  function WithPc(w: World, pc: Pc): World {
    w.(h := w.h.(pc := pc))
  }

  function WithRow(w: World, p: Principal, s: RowState): World
    requires p in w.rows
  {
    var rows := w.rows[p := w.rows[p].(state := s)];
    w.(rows := rows, r := w.r.(tally := TallyOf(rows)))
  }

  function WithKeys(w: World, p: Principal, keys: set<Key>): World {
    w.(installed := w.installed[p := keys])
  }

  function WithGrants(w: World, p: Principal, keys: set<Key>): World {
    w.(granted := w.granted[p := keys])
  }

  function WithStatus(w: World, k: Key, s: KeyStatus): World {
    w.(status := w.status[k := s])
  }

  /** The window a crash at this point falls into, if any. */
  function Torn(pc: Pc): set<Window> {
    match pc
    case Advancing => {WaveWindow}
    case Promoted | Activated => {PromotionWindow}
    case Handing(todo) => if todo == {} then {} else {PromotionWindow}
    case _ => {}
  }

  ghost function RunEffect(c: Config, w: World, a: RunAction): World
    requires RunEnabled(c, w, a)
  {
    match a
    case Tick(d) => w.(now := w.now + d)
    case Crash => w.(h := w.h.(pc := Idle, torn := w.h.torn + Torn(w.h.pc)))
    case Approve => WithState(w, Planned)
    case Halt(to) => WithState(w, to)
    case Generate(k) => WithPc(WithStatus(w, k, KeyPending), Generated(k))
    case RecordKey =>
      WithPc(w.(r := w.r.(newKey := Some(w.h.pc.key), total := |w.rows|)), if c.dryRun then DryStop else Idle)
    case StopDry => WithPc(WithState(w, Completed), Idle)
    case Open => WithState(w, Staging)
    case ToVerifying => WithState(w, Verifying)
    case NextWave => WithPc(w.(r := w.r.(wave := w.r.wave + 1)), Advancing)
    case Restage => WithPc(WithState(w, Staging), Idle)
    case ToVerified => WithState(w, Verified)
    case SetSoak => w.(r := w.r.(soakUntil := Some(w.now + c.soak)))
    case BeginSoak => WithState(w, Soaking)
    case EndSoak => WithState(w, Retiring)
    case RetireKey => WithStatus(w, c.oldKey, KeyRetired)
    case Complete => WithState(w, Completed)
  }

  function RowEffect(c: Config, w: World, p: Principal, a: RowAction): World
    requires RowEnabled(c, w, p, a)
  {
    match a
    case Bind => WithGrants(w, p, w.granted[p] + {w.r.newKey.value})
    case Push => WithKeys(w, p, Converged(w.installed[p], Desired(w, p), false, w.status.Keys))
    case MarkStaged => WithRow(w, p, RtStaged)
    case MarkUnstaged => WithRow(w, p, RtFailed)
    case Authenticate => w.(h := w.h.(proven := w.h.proven + {p}))
    case MarkVerified => WithRow(w, p, RtVerified)
    case MarkUnverified => WithRow(w, p, RtFailed)
    case Unbind => WithGrants(w, p, w.granted[p] - {c.oldKey})
    case Prune => WithKeys(w, p, Converged(w.installed[p], Desired(w, p), true, w.status.Keys))
    case ActivateKey(k) => WithStatus(w, k, KeyActive)
    case MarkRetired => WithRow(w, p, RtRetired)
    case MarkUnretired => WithRow(w, p, RtFailed)
  }

  function BoundTo(consumers: map<Consumer, Sink>, key: Key): set<Consumer> {
    set k | k in consumers && consumers[k].enabled && consumers[k].key == key
  }

  function SinkEffect(c: Config, w: World, a: SinkAction): World
    requires SinkEnabled(w, a)
  {
    match a
    case Promote => WithPc(WithState(w, Promoting), Promoted)
    case Activate => WithPc(WithStatus(w, w.r.newKey.value, KeyActive), Activated)
    case Demote =>
      var owed := BoundTo(w.consumers, c.oldKey);
      WithStatus(w, c.oldKey, KeyRetiring).(h := w.h.(pc := Handing(owed), owed := owed))
    case Deliver(k) =>
      var sink := w.consumers[k];
      w.(consumers := w.consumers[k := sink.(received := sink.received + {w.r.newKey.value})])
    case Rebind(k) =>
      var consumers := w.consumers[k := w.consumers[k].(key := w.r.newKey.value)];
      WithPc(w.(consumers := consumers), Handing(w.h.pc.todo - {k}))
    case HandoverFailed => WithPc(WithState(w, Failed), Idle)
    case HandoverDone => WithPc(w, Idle)
  }

  ghost function Effect(c: Config, w: World, a: Action): World
    requires Enabled(c, w, a)
  {
    match a
    case OnRun(run) => RunEffect(c, w, run)
    case OnRow(p, row) => RowEffect(c, w, p, row)
    case OnSinks(sink) => SinkEffect(c, w, sink)
  }

  /** The logins the old key is assigned to. */
  function Assigned(c: Config, w: World): set<Principal> {
    set p | p in w.granted && c.oldKey in w.granted[p]
  }

  /**
   What Plan leaves behind, on hosts that hold the old key wherever it is assigned. A row may be
   missing: Plan reads a bounded list and may be interrupted.
   */
  ghost predicate Init(c: Config, w: World) {
    && (w.r.state == Planned || w.r.state == Awaiting)
    && w.r.wave == 0 && w.r.newKey.None? && w.r.soakUntil.None? && w.r.tally == TallyOf(w.rows)
    && w.granted.Keys == w.installed.Keys && w.rows.Keys <= Assigned(c, w)
    && (forall p :: p in Assigned(c, w) ==> c.oldKey in w.installed[p])
    && (forall p :: p in w.rows ==>
        w.rows[p].state == RtPending && w.rows[p].wave <= c.lastWave && w.granted[p] <= w.status.Keys)
    && (c.lastWave == 0 || exists p :: p in w.rows && w.rows[p].wave == c.lastWave)
    && c.oldKey in w.status && w.status[c.oldKey] != KeyRetired && w.status[c.oldKey] != KeyDestroyed
    && w.h == History(Idle, {}, {}, {})
  }

  ghost function Run(c: Config, w: World, log: seq<Action>): Option<World> {
    if log == [] then Some(w)
    else
      match Run(c, w, log[..|log| - 1])
      case None => None
      case Some(v) => if Enabled(c, v, log[|log| - 1]) then Some(Effect(c, v, log[|log| - 1])) else None
  }

  /** w is the state after a run of the protocol from a plan, with crashes anywhere. */
  ghost predicate Reaches(c: Config, w0: World, log: seq<Action>, w: World) {
    Init(c, w0) && Run(c, w0, log) == Some(w)
  }
}
