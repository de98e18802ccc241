/**
 The engine: every step is a loop of store writes and effects on hosts and consumers, each of
 which is recorded as one action of the protocol. What the protocol promises of every run
 therefore holds wherever a step is interrupted.
 */
module RotationEngine {
  import opened Options
  import opened RotationProtocol
  import opened RotationSafety
  import opened RotationWindows
  import opened RotationTheorems

  lemma Snoc(c: Config, w0: World, log: seq<Action>, w: World, a: Action)
    requires Reaches(c, w0, log, w) && Enabled(c, w, a)
    ensures Reaches(c, w0, log + [a], Effect(c, w, a))
  {
    hide Enabled, Effect, Init;
    assert (log + [a])[..|log|] == log;
  }

  /** What a reachable state lets a step rely on. */
  lemma Ready(c: Config, w0: World, log: seq<Action>, w: World)
    requires Reaches(c, w0, log, w)
    ensures forall p :: p in w.rows ==> p in w.granted && p in w.installed
    ensures Live(w.r.state) ==> w.r.newKey.Some?
    ensures w.r.newKey.Some? ==> w.r.total == |w.rows|
    ensures w.r.tally == TallyOf(w.rows) && w.r.wave <= c.lastWave
    ensures w.r.state != Staged && w.r.state != RolledBack
    ensures w.r.state == Soaking ==> w.r.soakUntil.Some?
  {
    InvRun(c, w0, log, w);
    forall p | p in w.rows ensures p in w.granted && p in w.installed { assert Safe(c, w, p); }
    hide HostInv, RetiredInv, PcInv, TallyOf, AllPending, Reaches;
  }

  lemma RowIsReady(c: Config, w0: World, log: seq<Action>, w: World, p: Principal)
    requires Reaches(c, w0, log, w) && Live(w.r.state) && p in w.rows
    ensures HasRow(w, p)
  {
    hide Reaches;
    Ready(c, w0, log, w);
  }

  lemma NeverStaged(c: Config, w0: World, log: seq<Action>, w: World)
    requires Reaches(c, w0, log, w)
    ensures w.r.state != Staged && w.r.state != RolledBack
  {
    hide Reaches;
    Ready(c, w0, log, w);
  }

  lemma KeyIsNamed(c: Config, w0: World, log: seq<Action>, w: World)
    requires Reaches(c, w0, log, w) && Live(w.r.state)
    ensures w.r.newKey.Some?
  {
    hide Reaches;
    Ready(c, w0, log, w);
  }

  /** A step visits every row of the wave that was `from`, leaves it in one of `to`, and touches no other. */
  ghost predicate Visited(before: map<Principal, Progress>, after: map<Principal, Progress>, done: set<Principal>, to: set<RowState>) {
    && after.Keys == before.Keys
    && forall p :: p in after ==>
        if p in done then after[p].wave == before[p].wave && after[p].state in to else after[p] == before[p]
  }

  function Members(rows: map<Principal, Progress>, wave: nat, s: RowState): set<Principal> {
    set p | p in rows && rows[p] == Progress(wave, s)
  }

  lemma AreMembers(rows: map<Principal, Progress>, wave: nat, s: RowState)
    ensures Members(rows, wave, s) <= rows.Keys
    ensures forall p :: p in Members(rows, wave, s) ==> rows[p] == Progress(wave, s)
  {}

  /** Which rows a step visits, and what it may make of them. */
  ghost predicate RowsMoved(w: World, rows: map<Principal, Progress>) {
    match w.r.state
    case Staging => Visited(w.rows, rows, Members(w.rows, w.r.wave, RtPending), {RtStaged, RtFailed})
    case Verifying => Visited(w.rows, rows, Members(w.rows, w.r.wave, RtStaged), {RtVerified, RtFailed})
    case Retiring => Visited(w.rows, rows, InStates(w.rows, {RtVerified}), {RtRetired, RtFailed})
    case _ => rows == w.rows
  }

  function Prefix(s: seq<Principal>, n: nat): set<Principal>
    requires n <= |s|
  {
    set i | 0 <= i < n :: s[i]
  }

  ghost predicate Lists(s: seq<Principal>, of: set<Principal>) {
    && (forall i, j :: 0 <= i < j < |s| ==> s[i] != s[j])
    && (forall p :: p in s <==> p in of)
  }

  // A loop over the rows a query listed.

  lemma VisitStart(rows: map<Principal, Progress>, s: seq<Principal>, to: set<RowState>)
    ensures Visited(rows, rows, Prefix(s, 0), to) && ProvenIn(Prefix(s, 0), rows) == {}
  {}

  lemma VisitRow(before: map<Principal, Progress>, mid: map<Principal, Progress>, s: seq<Principal>, of: set<Principal>,
                 i: nat, to: set<RowState>)
    requires i < |s| && Lists(s, of) && of <= before.Keys && Visited(before, mid, Prefix(s, i), to)
    ensures s[i] in of && s[i] in mid && mid[s[i]] == before[s[i]]
  {
    assert s[i] in s;
  }

  lemma VisitNext(before: map<Principal, Progress>, mid: map<Principal, Progress>, after: map<Principal, Progress>,
                  s: seq<Principal>, of: set<Principal>, i: nat, to: set<RowState>)
    requires i < |s| && Lists(s, of) && of <= before.Keys && Visited(before, mid, Prefix(s, i), to)
    requires s[i] in mid && s[i] in before && exists x :: x in to && after == mid[s[i] := Progress(before[s[i]].wave, x)]
    ensures Visited(before, after, Prefix(s, i + 1), to)
    ensures ProvenIn(Prefix(s, i + 1), after) == ProvenIn(Prefix(s, i), mid) + if after[s[i]].state == RtVerified then {s[i]} else {}
  {
    assert Prefix(s, i + 1) == Prefix(s, i) + {s[i]} && s[i] !in Prefix(s, i);
  }

  lemma AllListed(s: seq<Principal>, of: set<Principal>)
    requires Lists(s, of)
    ensures Prefix(s, |s|) == of
  {}

  lemma VisitEnd(before: map<Principal, Progress>, after: map<Principal, Progress>, s: seq<Principal>, of: set<Principal>,
                 to: set<RowState>)
    requires Lists(s, of) && Visited(before, after, Prefix(s, |s|), to)
    ensures Visited(before, after, of, to) && Prefix(s, |s|) == of
  {
    AllListed(s, of);
  }

  lemma NoneLeft(before: map<Principal, Progress>, after: map<Principal, Progress>, wave: nat, s: RowState, to: set<RowState>)
    requires Visited(before, after, Members(before, wave, s), to) && s !in to
    ensures NoneIn(after, wave, s)
  {}

  lemma Union(a: set<Principal>, b: set<Principal>, c: set<Principal>)
    ensures (a + b) + c == a + (b + c)
  {}

  /** Those of a wave that were proven in this pass. */
  function ProvenIn(done: set<Principal>, rows: map<Principal, Progress>): set<Principal> {
    set p | p in done && p in rows && rows[p].state == RtVerified
  }

  /** Only keys among `keys` that were waiting to be proven have changed, and they have become active. */
  ghost predicate Proven(before: map<Key, KeyStatus>, after: map<Key, KeyStatus>, keys: set<Key>) {
    forall k :: k in before ==>
      && k in after
      && (after[k] == before[k] || (k in keys && (before[k] == KeyPending || before[k] == KeyStaged) && after[k] == KeyActive))
  }

  lemma NothingProven(status: map<Key, KeyStatus>, keys: set<Key>)
    ensures Proven(status, status, keys)
  {}

  // ---- what the outside world says ----

  /** Everything the engine learns of hosts, consumers, keys and permissions is one of these answers. */
  datatype Answer =
    | Permitted | Forbidden | KeyMade | KeyNotMade | VaultOpen | VaultSealed
    | Capable(p: Principal) | Incapable(p: Principal) | Applied(p: Principal) | NotApplied(p: Principal)
    | Authenticated(p: Principal, key: Key) | NotAuthenticated(p: Principal, key: Key)
    | PrivateHeld(key: Key) | NoPrivate(key: Key) | Delivered(sink: Consumer) | NotDelivered(sink: Consumer)

  /** The answer was given since the first n. */
  ghost predicate Heard(answers: seq<Answer>, n: nat, a: Answer) {
    exists i :: n <= i < |answers| && answers[i] == a
  }

  lemma HeardSince(before: seq<Answer>, after: seq<Answer>, n: nat, m: nat, a: Answer)
    requires before <= after && m <= n && Heard(before, n, a)
    ensures Heard(after, m, a)
  {
    var i :| n <= i < |before| && before[i] == a;
    assert after[i] == a;
  }

  /** A row is staged because its host was converged, and failed because it was not or could not be. */
  ghost predicate StagedAsHeard(p: Principal, s: RowState, answers: seq<Answer>, n: nat) {
    if s == RtStaged then Heard(answers, n, Applied(p))
    else Heard(answers, n, Incapable(p)) || Heard(answers, n, NotApplied(p))
  }

  /** A row is verified because the key just authenticated there, and failed because it did not. */
  ghost predicate VerifiedAsHeard(p: Principal, s: RowState, key: Key, answers: seq<Answer>, n: nat) {
    Heard(answers, n, if s == RtVerified then Authenticated(p, key) else NotAuthenticated(p, key))
  }

  /** The keys a login is left with: assigned to it, not the old one, and not revoked, compromised or destroyed. */
  ghost function Remaining(oldKey: Key, granted: map<Principal, set<Key>>, status: map<Key, KeyStatus>, p: Principal): set<Key> {
    if p !in granted then {}
    else set k | k in granted[p] && k != oldKey && k in status
                 && status[k] != KeyRevoked && status[k] != KeyCompromised && status[k] != KeyDestroyed
  }

  /**
   A row is retired because its host was converged and every remaining key whose private half is
   held then authenticated there, and failed because the host was not converged or one of them did not.
   */
  ghost predicate RetiredAsHeard(p: Principal, s: RowState, keys: set<Key>, answers: seq<Answer>, n: nat) {
    if s == RtRetired then
      && Heard(answers, n, Applied(p))
      && forall k :: k in keys ==> Tried(answers, n, p, k)
    else Heard(answers, n, NotApplied(p)) || exists k :: k in keys && Heard(answers, n, NotAuthenticated(p, k))
  }

  ghost predicate StagingsHeard(rows: map<Principal, Progress>, done: set<Principal>, answers: seq<Answer>, n: nat) {
    forall p :: p in done && p in rows ==> StagedAsHeard(p, rows[p].state, answers, n)
  }

  ghost predicate VerificationsHeard(rows: map<Principal, Progress>, done: set<Principal>, key: Key, answers: seq<Answer>, n: nat) {
    forall p :: p in done && p in rows ==> VerifiedAsHeard(p, rows[p].state, key, answers, n)
  }

  lemma NobodyYet(s: seq<Principal>)
    ensures Prefix(s, 0) == {}
    ensures forall rows, answers, n :: StagingsHeard(rows, Prefix(s, 0), answers, n)
    ensures forall rows, key, answers, n :: VerificationsHeard(rows, Prefix(s, 0), key, answers, n)
  {}

  lemma NoSinksYet(sinks: seq<Consumer>)
    ensures Prefix(sinks, 0) == {}
  {}

  lemma NextSink(sinks: seq<Consumer>, i: nat)
    requires i < |sinks| && forall j, k :: 0 <= j < k < |sinks| ==> sinks[j] != sinks[k]
    ensures Prefix(sinks, i + 1) == Prefix(sinks, i) + {sinks[i]} && sinks[i] !in Prefix(sinks, i) && sinks[i] in sinks
  {}

  lemma AllHanded(w: World)
    requires w.r.newKey.Some? && forall k :: k in w.h.owed ==> k in w.consumers && w.consumers[k].Has(w.r.newKey.value)
    ensures forall k :: k in w.h.owed ==> Handed(w, k)
  {}

  /** Exactly the enabled consumers of the old key have moved to the new one, and can have its private half. */
  lemma Rebound(before: map<Consumer, Sink>, after: map<Consumer, Sink>, oldKey: Key, newKey: Key, err: bool)
    requires after.Keys == before.Keys && forall k :: k in after && k !in BoundTo(before, oldKey) ==> after[k] == before[k]
    requires !err ==> forall k :: k in BoundTo(before, oldKey) ==> k in after && after[k].Has(newKey)
    ensures forall k :: k in after && !(before[k].enabled && before[k].key == oldKey) ==> after[k] == before[k]
    ensures !err ==> forall k :: k in before && before[k].enabled && before[k].key == oldKey ==>
      after[k].key == newKey && (after[k].pull || newKey in after[k].received)
  {}

  // What was heard stays heard.

  lemma StagedStill(p: Principal, s: RowState, before: seq<Answer>, after: seq<Answer>, n: nat, m: nat)
    requires before <= after && m <= n && StagedAsHeard(p, s, before, n)
    ensures StagedAsHeard(p, s, after, m)
  {
    hide Heard;
    if Heard(before, n, Applied(p)) { HeardSince(before, after, n, m, Applied(p)); }
    if Heard(before, n, NotApplied(p)) { HeardSince(before, after, n, m, NotApplied(p)); }
    if Heard(before, n, Incapable(p)) { HeardSince(before, after, n, m, Incapable(p)); }
  }

  lemma VerifiedStill(p: Principal, s: RowState, key: Key, before: seq<Answer>, after: seq<Answer>, n: nat, m: nat)
    requires before <= after && m <= n && VerifiedAsHeard(p, s, key, before, n)
    ensures VerifiedAsHeard(p, s, key, after, m)
  {
    HeardSince(before, after, n, m, if s == RtVerified then Authenticated(p, key) else NotAuthenticated(p, key));
  }

  lemma RetiredStill(p: Principal, s: RowState, keys: set<Key>, before: seq<Answer>, after: seq<Answer>, n: nat, m: nat)
    requires before <= after && m <= n && RetiredAsHeard(p, s, keys, before, n)
    ensures RetiredAsHeard(p, s, keys, after, m)
  {
    hide Heard;
    forall a | Heard(before, n, a) ensures Heard(after, m, a) { HeardSince(before, after, n, m, a); }
  }

  lemma StagingGoesOn(s: seq<Principal>, i: nat, mid: map<Principal, Progress>, rows: map<Principal, Progress>,
                      before: seq<Answer>, answers: seq<Answer>, n: nat)
    requires i < |s| && before <= answers && n <= |before|
    requires s[i] in rows && s[i] in mid && rows.Keys == mid.Keys && forall p :: p in rows && p != s[i] ==> rows[p] == mid[p]
    requires StagingsHeard(mid, Prefix(s, i), before, n) && StagedAsHeard(s[i], rows[s[i]].state, answers, |before|)
    ensures StagingsHeard(rows, Prefix(s, i + 1), answers, n)
  {
    hide StagedAsHeard;
    forall p | p in Prefix(s, i + 1) && p in rows ensures StagedAsHeard(p, rows[p].state, answers, n) {
      if p == s[i] {
        StagedStill(p, rows[p].state, answers, answers, |before|, n);
      } else {
        assert p in Prefix(s, i);
        StagedStill(p, rows[p].state, before, answers, n, n);
      }
    }
  }

  lemma VerifyingGoesOn(s: seq<Principal>, i: nat, mid: map<Principal, Progress>, rows: map<Principal, Progress>,
                        before: seq<Answer>, answers: seq<Answer>, key: Key, n: nat)
    requires i < |s| && before <= answers && n <= |before|
    requires s[i] in rows && s[i] in mid && rows.Keys == mid.Keys && forall p :: p in rows && p != s[i] ==> rows[p] == mid[p]
    requires VerificationsHeard(mid, Prefix(s, i), key, before, n) && VerifiedAsHeard(s[i], rows[s[i]].state, key, answers, |before|)
    ensures VerificationsHeard(rows, Prefix(s, i + 1), key, answers, n)
  {
    hide VerifiedAsHeard;
    forall p | p in Prefix(s, i + 1) && p in rows ensures VerifiedAsHeard(p, rows[p].state, key, answers, n) {
      if p == s[i] {
        VerifiedStill(p, rows[p].state, key, answers, answers, |before|, n);
      } else {
        assert p in Prefix(s, i);
        VerifiedStill(p, rows[p].state, key, before, answers, n, n);
      }
    }
  }

  lemma VerifyNext(start: map<Principal, Progress>, mid: map<Principal, Progress>, rows: map<Principal, Progress>,
                   s: seq<Principal>, of: set<Principal>, i: nat, before: seq<Answer>, answers: seq<Answer>, key: Key, n: nat,
                   proven: set<Principal>)
    requires i < |s| && Lists(s, of) && of <= start.Keys && Visited(start, mid, Prefix(s, i), {RtVerified, RtFailed})
    requires s[i] in mid && s[i] in start && s[i] in rows
    requires exists x :: x in {RtVerified, RtFailed} && rows == mid[s[i] := Progress(start[s[i]].wave, x)]
    requires before <= answers && n <= |before|
    requires VerificationsHeard(mid, Prefix(s, i), key, before, n) && VerifiedAsHeard(s[i], rows[s[i]].state, key, answers, |before|)
    ensures Visited(start, rows, Prefix(s, i + 1), {RtVerified, RtFailed})
    ensures VerificationsHeard(rows, Prefix(s, i + 1), key, answers, n)
    ensures proven + ProvenIn(Prefix(s, i + 1), rows)
      == proven + ProvenIn(Prefix(s, i), mid) + if rows[s[i]].state == RtVerified then {s[i]} else {}
  {
    hide VerificationsHeard, VerifiedAsHeard, Visited, Prefix, ProvenIn;
    VerifyingGoesOn(s, i, mid, rows, before, answers, key, n);
    VisitNext(start, mid, rows, s, of, i, {RtVerified, RtFailed});
    Union(proven, ProvenIn(Prefix(s, i), mid), if rows[s[i]].state == RtVerified then {s[i]} else {});
  }

  lemma VerifyingStands(done: set<Principal>, rows: map<Principal, Progress>, answers: seq<Answer>, key: Key, n: nat, m: nat)
    requires m <= n && VerificationsHeard(rows, done, key, answers, n)
    ensures VerificationsHeard(rows, done, key, answers, m)
  {
    hide VerifiedAsHeard;
    forall p | p in done && p in rows ensures VerifiedAsHeard(p, rows[p].state, key, answers, m) {
      VerifiedStill(p, rows[p].state, key, answers, answers, n, m);
    }
  }

  lemma StagingStands(done: set<Principal>, rows: map<Principal, Progress>, answers: seq<Answer>, n: nat, m: nat)
    requires m <= n && StagingsHeard(rows, done, answers, n)
    ensures StagingsHeard(rows, done, answers, m)
  {
    hide StagedAsHeard;
    forall p | p in done && p in rows ensures StagedAsHeard(p, rows[p].state, answers, m) {
      StagedStill(p, rows[p].state, answers, answers, n, m);
    }
  }

  lemma RetiringStands(oldKey: Key, before: map<Principal, Progress>, granted: map<Principal, set<Key>>,
                       status: map<Key, KeyStatus>, rows: map<Principal, Progress>, done: set<Principal>,
                       answers: seq<Answer>, n: nat, m: nat)
    requires m <= n && RetirementsHeard(oldKey, before, granted, status, rows, done, answers, n)
    ensures RetirementsHeard(oldKey, before, granted, status, rows, done, answers, m)
  {
    hide RetiredAsHeard, Remaining;
    forall p | p in done && p in before && before[p].state == RtVerified && p in rows
      ensures RetiredAsHeard(p, rows[p].state, Remaining(oldKey, granted, status, p), answers, m)
    {
      RetiredStill(p, rows[p].state, Remaining(oldKey, granted, status, p), answers, answers, n, m);
    }
  }

  /** Every row that a step moves has the outcome that was heard of it during the step. */
  ghost predicate OutcomesHeard(c: Config, w: World, rows: map<Principal, Progress>, newKey: Option<Key>,
                                answers: seq<Answer>, n: nat) {
    match w.r.state
    case Staging => StagingsHeard(rows, Members(w.rows, w.r.wave, RtPending), answers, n)
    case Verifying => newKey.Some? && VerificationsHeard(rows, Members(w.rows, w.r.wave, RtStaged), newKey.value, answers, n)
    case Retiring => RetirementsHeard(c.oldKey, w.rows, w.granted, w.status, rows, w.rows.Keys, answers, n)
    case _ => true
  }

  lemma OutcomesStand(c: Config, w: World, rows: map<Principal, Progress>, newKey: Option<Key>, answers: seq<Answer>, n: nat, m: nat)
    requires m <= n && OutcomesHeard(c, w, rows, newKey, answers, n)
    ensures OutcomesHeard(c, w, rows, newKey, answers, m)
  {
    hide StagingsHeard, VerificationsHeard, RetirementsHeard, Members;
    match w.r.state
    case Staging => StagingStands(Members(w.rows, w.r.wave, RtPending), rows, answers, n, m);
    case Verifying => VerifyingStands(Members(w.rows, w.r.wave, RtStaged), rows, answers, newKey.value, n, m);
    case Retiring => RetiringStands(c.oldKey, w.rows, w.granted, w.status, rows, w.rows.Keys, answers, n, m);
    case _ =>
  }

  lemma NothingMoved(c: Config, w: World, newKey: Option<Key>, answers: seq<Answer>, n: nat)
    requires Finished(w.r.state) || w.r.state == Awaiting
    ensures OutcomesHeard(c, w, w.rows, newKey, answers, n) && RowsMoved(w, w.rows)
  {}

  /** Why a step fails before it changes anything. */
  ghost predicate FailedAsHeard(answers: seq<Answer>, n: nat) {
    Heard(answers, n, Forbidden) || Heard(answers, n, KeyNotMade) || Heard(answers, n, VaultSealed)
  }

  lemma IsForbidden(answers: seq<Answer>, n: nat)
    requires n < |answers| && answers[n] == Forbidden
    ensures FailedAsHeard(answers, n)
  {
    LastHeard(answers, n, n);
  }

  lemma FailureStands(answers: seq<Answer>, n: nat, m: nat)
    requires m <= n && FailedAsHeard(answers, n)
    ensures FailedAsHeard(answers, m)
  {
    hide Heard;
    forall a | Heard(answers, n, a) ensures Heard(answers, m, a) { HeardSince(answers, answers, n, m, a); }
  }

  /** The key authenticated at the login, or there is no private half to try it with. */
  ghost predicate Tried(answers: seq<Answer>, n: nat, p: Principal, k: Key) {
    Heard(answers, n, Authenticated(p, k)) || Heard(answers, n, NoPrivate(k))
  }

  lemma HeardBefore(before: seq<Answer>, after: seq<Answer>, n: nat, p: Principal)
    requires before <= after && n <= |before|
    ensures forall a :: Heard(before, n, a) ==> Heard(after, n, a)
    ensures forall a :: Heard(after, |before|, a) ==> Heard(after, n, a)
    ensures forall k :: Tried(before, n, p, k) || Tried(after, |before|, p, k) ==> Tried(after, n, p, k)
  {
    forall a | Heard(before, n, a) ensures Heard(after, n, a) { HeardSince(before, after, n, n, a); }
    forall a | Heard(after, |before|, a) ensures Heard(after, n, a) { HeardSince(after, after, |before|, n, a); }
    hide Heard;
  }

  lemma AlsoProven(before: map<Key, KeyStatus>, mid: map<Key, KeyStatus>, after: map<Key, KeyStatus>, keys: set<Key>, k: Key)
    requires Proven(before, mid, keys) && mid.Keys == before.Keys
    requires after == mid || (k in keys && k in mid && (mid[k] == KeyPending || mid[k] == KeyStaged) && after == mid[k := KeyActive])
    ensures Proven(before, after, keys)
  {}

  lemma LastHeard(answers: seq<Answer>, n: nat, i: nat)
    requires n <= i < |answers|
    ensures Heard(answers, n, answers[i])
  {}

  /** Taking the old key away and finding that keys work changes no login's remaining keys. */
  ghost predicate SameRemaining(oldKey: Key, granted: map<Principal, set<Key>>, status: map<Key, KeyStatus>,
                                granted': map<Principal, set<Key>>, status': map<Key, KeyStatus>) {
    forall p :: Remaining(oldKey, granted', status', p) == Remaining(oldKey, granted, status, p)
  }

  lemma OneUnbound(oldKey: Key, granted: map<Principal, set<Key>>, status: map<Key, KeyStatus>, status': map<Key, KeyStatus>,
                   p: Principal)
    requires p in granted && status'.Keys == status.Keys && Proven(status, status', status.Keys)
    ensures SameRemaining(oldKey, granted, status, granted[p := granted[p] - {oldKey}], status')
  {
    forall q ensures Remaining(oldKey, granted[p := granted[p] - {oldKey}], status', q) == Remaining(oldKey, granted, status, q) {}
  }

  lemma NotConverged(start: seq<Answer>, p: Principal, keys: set<Key>)
    ensures RetiredAsHeard(p, RtFailed, keys, start + [NotApplied(p)], |start|)
  {
    LastHeard(start + [NotApplied(p)], |start|, |start|);
  }

  lemma ProvenAmong(before: map<Key, KeyStatus>, after: map<Key, KeyStatus>, keys: set<Key>)
    requires Proven(before, after, keys)
    ensures Proven(before, after, before.Keys)
  {}

  lemma TriedAll(start: seq<Answer>, applied: seq<Answer>, answers: seq<Answer>, p: Principal, err: bool, keys: set<Key>)
    requires applied == start + [Applied(p)] && applied <= answers
    requires err ==> exists k :: k in keys && Heard(answers, |applied|, NotAuthenticated(p, k))
    requires !err ==> forall k :: k in keys ==> Tried(answers, |applied|, p, k)
    ensures RetiredAsHeard(p, if err then RtFailed else RtRetired, keys, answers, |start|)
  {
    LastHeard(answers, |start|, |start|);
    hide Heard;
    forall a | Heard(answers, |applied|, a) ensures Heard(answers, |start|, a) {
      HeardSince(answers, answers, |applied|, |start|, a);
    }
  }

  /** The rows of the verified logins among `done` have the outcome that was heard of them. */
  ghost predicate RetirementsHeard(oldKey: Key, before: map<Principal, Progress>, granted: map<Principal, set<Key>>,
                                   status: map<Key, KeyStatus>, rows: map<Principal, Progress>, done: set<Principal>,
                                   answers: seq<Answer>, n: nat) {
    forall p :: p in done && p in before && before[p].state == RtVerified && p in rows ==>
      RetiredAsHeard(p, rows[p].state, Remaining(oldKey, granted, status, p), answers, n)
  }

  lemma RetiringGoesOn(oldKey: Key, start: map<Principal, Progress>, granted: map<Principal, set<Key>>, status: map<Key, KeyStatus>,
                       s: seq<Principal>, i: nat, mid: map<Principal, Progress>, rows: map<Principal, Progress>,
                       before: seq<Answer>, answers: seq<Answer>, n: nat)
    requires i < |s| && before <= answers && n <= |before| && s[i] in start && s[i] in mid
    requires rows.Keys == mid.Keys && forall p :: p in rows && p != s[i] ==> rows[p] == mid[p]
    requires RetirementsHeard(oldKey, start, granted, status, mid, Prefix(s, i), before, n)
    requires start[s[i]].state == RtVerified ==>
      RetiredAsHeard(s[i], rows[s[i]].state, Remaining(oldKey, granted, status, s[i]), answers, |before|)
    ensures RetirementsHeard(oldKey, start, granted, status, rows, Prefix(s, i + 1), answers, n)
  {
    hide RetiredAsHeard, Remaining;
    forall p | p in Prefix(s, i + 1) && p in start && start[p].state == RtVerified && p in rows
      ensures RetiredAsHeard(p, rows[p].state, Remaining(oldKey, granted, status, p), answers, n)
    {
      if p == s[i] {
        RetiredStill(p, rows[p].state, Remaining(oldKey, granted, status, p), answers, answers, |before|, n);
      } else {
        assert p in Prefix(s, i);
        RetiredStill(p, rows[p].state, Remaining(oldKey, granted, status, p), before, answers, n, n);
      }
    }
  }

  lemma NoneRetired(oldKey: Key, rows: map<Principal, Progress>, granted: map<Principal, set<Key>>, status: map<Key, KeyStatus>,
                    s: seq<Principal>, answers: seq<Answer>, n: nat)
    ensures SameRemaining(oldKey, granted, status, granted, status)
    ensures RetirementsHeard(oldKey, rows, granted, status, rows, Prefix(s, 0), answers, n)
  {}

  lemma StillRemaining(oldKey: Key, g: map<Principal, set<Key>>, s: map<Key, KeyStatus>, g': map<Principal, set<Key>>,
                       s': map<Key, KeyStatus>, p: Principal)
    requires SameRemaining(oldKey, g, s, g', s')
    ensures Remaining(oldKey, g', s', p) == Remaining(oldKey, g, s, p)
  {}

  lemma SameRemainingTwice(oldKey: Key, g: map<Principal, set<Key>>, s: map<Key, KeyStatus>, g': map<Principal, set<Key>>,
                           s': map<Key, KeyStatus>, p: Principal, s'': map<Key, KeyStatus>)
    requires SameRemaining(oldKey, g, s, g', s') && p in g' && s''.Keys == s'.Keys && Proven(s', s'', s'.Keys)
    ensures SameRemaining(oldKey, g, s, g'[p := g'[p] - {oldKey}], s'')
  {
    OneUnbound(oldKey, g', s', s'', p);
    hide Remaining;
  }

  class Engine {
    const c: Config
    ghost const w0: World
    var r: Rotation
    var rows: map<Principal, Progress>
    var granted: map<Principal, set<Key>>
    var status: map<Key, KeyStatus>
    var installed: map<Principal, set<Key>>
    var consumers: map<Consumer, Sink>
    var now: int
    ghost var h: History
    ghost var log: seq<Action>
    ghost var answers: seq<Answer>

    ghost function W(): World
      reads this
    {
      World(r, rows, granted, status, installed, consumers, now, h)
    }

    ghost predicate Valid()
      reads this
    {
      Reaches(c, w0, log, W())
    }

    /** A planned rotation, over logins that accept the old key wherever it is assigned. */
    constructor (c: Config, approval: bool, total: nat, rows: map<Principal, Progress>, granted: map<Principal, set<Key>>,
                 status: map<Key, KeyStatus>, installed: map<Principal, set<Key>>, consumers: map<Consumer, Sink>, now: int)
      requires rows.Keys <= granted.Keys == installed.Keys
      requires forall p :: p in granted && c.oldKey in granted[p] ==> c.oldKey in installed[p]
      requires forall p :: p in rows ==>
        && rows[p].state == RtPending && rows[p].wave <= c.lastWave
        && c.oldKey in granted[p] && granted[p] <= status.Keys
      requires c.lastWave == 0 || exists p :: p in rows && rows[p].wave == c.lastWave
      requires c.oldKey in status && status[c.oldKey] != KeyRetired && status[c.oldKey] != KeyDestroyed
      ensures this.c == c && this.rows == rows && this.granted == granted && this.status == status
      ensures this.installed == installed && this.consumers == consumers && this.now == now && r.total == total
      ensures Valid() && log == [] && answers == [] && w0 == W() && h.pc == Idle
      ensures r.state == if approval then Awaiting else Planned
    {
      this.c, this.rows, this.granted, this.status := c, rows, granted, status;
      this.installed, this.consumers, this.now := installed, consumers, now;
      r := Rotation(if approval then Awaiting else Planned, 0, None, None, total, TallyOf(rows));
      h := History(Idle, {}, {}, {});
      log, answers := [], [];
      w0 := World(Rotation(if approval then Awaiting else Planned, 0, None, None, total, TallyOf(rows)),
                  rows, granted, status, installed, consumers, now, History(Idle, {}, {}, {}));
    }

    /** Records that the writes since w make up one action. */
    ghost method Did(w: World, a: Action)
      requires Reaches(c, w0, log, w) && Enabled(c, w, a) && W() == Effect(c, w, a).(h := w.h)
      modifies this`h, this`log
      ensures Valid() && W() == Effect(c, w, a) && log == old(log) + [a]
    {
      Snoc(c, w0, log, w, a);
      hide Reaches, Enabled;
      h := Effect(c, w, a).h;
      log := log + [a];
    }

    // ---- the store ----

    /** UPDATE ... WHERE state = ANY(from); an empty list is no guard. */
    method SetRotationState(from: set<State>, to: State) returns (ok: bool)
      modifies this`r
      ensures ok <==> from == {} || old(r.state) in from
      ensures r == if ok then old(r).(state := to) else old(r)
    {
      ok := from == {} || r.state in from;
      if ok {
        r := r.(state := to);
      }
    }

    /** One row, and the counters recomputed from all of them. */
    method SetRotationTargetState(p: Principal, s: RowState)
      requires p in rows
      modifies this`r, this`rows
      ensures rows == old(rows)[p := old(rows)[p].(state := s)]
      ensures r == old(r).(tally := TallyOf(rows))
      ensures r.tally.staged == |set q | q in rows && rows[q].state in {RtStaged, RtVerified, RtRetired}|
      ensures r.tally.verified == |set q | q in rows && rows[q].state in {RtVerified, RtRetired}|
      ensures r.tally.retired == |set q | q in rows && rows[q].state == RtRetired|
      ensures r.tally.failed == |set q | q in rows && rows[q].state == RtFailed|
    {
      rows := rows[p := rows[p].(state := s)];
      r := r.(tally := TallyOf(rows));
      assert InStates(rows, {RtStaged, RtVerified, RtRetired})
        == set q | q in rows && rows[q].state in {RtStaged, RtVerified, RtRetired};
      assert InStates(rows, {RtVerified, RtRetired}) == set q | q in rows && rows[q].state in {RtVerified, RtRetired};
      assert InStates(rows, {RtRetired}) == set q | q in rows && rows[q].state == RtRetired;
      assert InStates(rows, {RtFailed}) == set q | q in rows && rows[q].state == RtFailed;
    }

    /** The members of one wave in a given state. */
    method WaveTargets(wave: nat, s: RowState) returns (out: seq<Principal>)
      ensures Lists(out, Members(rows, wave, s))
    {
      out := Listing(Members(rows, wave, s));
    }

    method ListRotationTargets() returns (out: seq<Principal>)
      ensures Lists(out, rows.Keys)
    {
      out := Listing(rows.Keys);
    }

    /** Some order of a query's rows. */
    static method Listing(s: set<Principal>) returns (out: seq<Principal>)
      ensures Lists(out, s)
    {
      out := [];
      var rest := s;
      while rest != {}
        invariant rest <= s
        invariant forall p :: p in out <==> p in s && p !in rest
        invariant forall i, j :: 0 <= i < j < |out| ==> out[i] != out[j]
        decreases |rest|
      {
        var p :| p in rest;
        out := out + [p];
        rest := rest - {p};
      }
    }

    method MaxWave() returns (m: nat)
      ensures forall p :: p in rows ==> rows[p].wave <= m
      ensures m == 0 || exists p :: p in rows && rows[p].wave == m
    {
      m := 0;
      var all := ListRotationTargets();
      for i := 0 to |all|
        invariant forall k :: 0 <= k < i ==> rows[all[k]].wave <= m
        invariant m == 0 || exists p :: p in rows && rows[p].wave == m
      {
        assert all[i] in rows;
        if m < rows[all[i]].wave {
          m := rows[all[i]].wave;
        }
      }
    }

    // ---- hosts and consumers, which may fail ----

    /** A question that the model leaves open. */
    method Ask(ghost yes: Answer, ghost no: Answer) returns (ok: bool)
      modifies this`answers
      ensures answers == old(answers) + [if ok then yes else no]
    {
      ok := *;
      answers := answers + [if ok then yes else no];
    }

    /** A file written is read back; a failed Apply leaves it wholly as it was or wholly converged. */
    method Apply(p: Principal, desired: set<Key>, prune: bool) returns (err: bool)
      requires p in installed
      modifies this`installed, this`answers
      ensures answers == old(answers) + [if err then NotApplied(p) else Applied(p)]
      ensures var after := Converged(old(installed)[p], desired, prune, status.Keys);
        && (installed == old(installed) || (after != {} && installed == old(installed)[p := after]))
        && (!err ==> p in installed && installed[p] == after)
      ensures p in installed && forall k :: k in installed[p] ==> k in old(installed)[p] || k in desired
      ensures forall k :: k in old(installed)[p] && k !in installed[p] ==> prune && k in status && k !in desired
      ensures !err ==> forall k :: k in desired ==> k in installed[p]
      ensures !err && prune ==> forall k :: k in installed[p] && k in status ==> k in desired
    {
      var after := Converged(installed[p], desired, prune, status.Keys);
      var reachable: bool := *;
      err := !reachable || after == {};
      if !err && after != installed[p] {
        var written: bool := *;
        if written {
          installed := installed[p := after];
        }
        var confirmed: bool := *;
        err := !written || !confirmed;
      }
      answers := answers + [if err then NotApplied(p) else Applied(p)];
    }

    /** A fresh connection with the given key; success means the host accepts it. */
    method Verify(p: Principal, key: Key) returns (err: bool)
      requires p in installed
      modifies this`answers
      ensures !err ==> key in installed[p]
      ensures answers == old(answers) + [if err then NotAuthenticated(p, key) else Authenticated(p, key)]
    {
      var reachable: bool := *;
      err := !reachable || key !in installed[p];
      answers := answers + [if err then NotAuthenticated(p, key) else Authenticated(p, key)];
    }

    /** What a deployment to this login converges on: every key assigned to it but the revoked, compromised and destroyed. */
    method DesiredKeys(p: Principal) returns (desired: set<Key>)
      requires p in granted
      ensures desired == Desired(W(), p)
      ensures forall k :: k in desired <==>
        k in granted[p] && k in status && status[k] != KeyRevoked && status[k] != KeyCompromised && status[k] != KeyDestroyed
    {
      var assignments := Listing(granted[p]);
      desired := {};
      for i := 0 to |assignments|
        invariant forall k :: k in desired <==> k in assignments[..i] && k in status && Deployable(status[k])
      {
        var k := assignments[i];
        assert assignments[..i + 1] == assignments[..i] + [k];
        if k in status {
          match status[k]
          case KeyRevoked | KeyCompromised | KeyDestroyed =>
          case _ => desired := desired + {k};
        }
      }
      assert assignments[..|assignments|] == assignments;
    }

    // ---- one login ----

    /** Binds the new key and converges without pruning, so both keys are live afterwards. */
    method StageOne(p: Principal) returns (err: bool)
      requires Valid() && At(W(), Staging, p, RtPending)
      modifies this`granted, this`installed, this`h, this`log, this`answers
      ensures Valid() && h == old(h) && old(log) <= log && old(answers) <= answers
      ensures HasRow(W(), p) && (!err ==> RowEnabled(c, W(), p, MarkStaged))
      ensures StagedAsHeard(p, if err then RtFailed else RtStaged, answers, |old(answers)|)
    {
      hide Reaches, TallyOf, RunEnabled, SinkEnabled, RunEffect, SinkEffect, Heard, Desired;
      var capable := Ask(Capable(p), Incapable(p));
      LastHeard(answers, |old(answers)|, |old(answers)|);
      if !capable {
        return true;
      }
      BindNew(p);
      var desired := DesiredKeys(p);
      err := ConvergeAdded(p, desired);
      LastHeard(answers, |old(answers)|, |old(answers)| + 1);
    }

    method BindNew(p: Principal)
      requires Valid() && At(W(), Staging, p, RtPending)
      modifies this`granted, this`h, this`log
      ensures Valid() && h == old(h) && old(log) <= log
      ensures At(W(), Staging, p, RtPending) && r.newKey.value in granted[p]
    {
      hide Reaches, TallyOf, Desired, Converged;
      ghost var w := W();
      granted := granted[p := granted[p] + {r.newKey.value}];
      Did(w, OnRow(p, Bind));
    }

    method ConvergeAdded(p: Principal, desired: set<Key>) returns (err: bool)
      requires Valid() && At(W(), Staging, p, RtPending) && r.newKey.value in granted[p] && desired == Desired(W(), p)
      modifies this`installed, this`h, this`log, this`answers
      ensures Valid() && h == old(h) && old(log) <= log && At(W(), Staging, p, RtPending)
      ensures answers == old(answers) + [if err then NotApplied(p) else Applied(p)]
      ensures !err ==> Desired(W(), p) <= installed[p]
    {
      hide Reaches, TallyOf, RunEnabled, SinkEnabled, RunEffect, SinkEffect;
      ghost var w := W();
      err := Apply(p, desired, false);
      if installed != w.installed {
        Did(w, OnRow(p, Push));
      }
      assert Desired(W(), p) == desired;
      hide Desired;
    }

    // ---- the steps ----

    /** One row's outcome. */
    method Mark(p: Principal, s: RowState, ghost a: RowAction)
      requires Valid() && RowEnabled(c, W(), p, a) && p in rows && RowEffect(c, W(), p, a) == WithRow(W(), p, s)
      modifies this`r, this`rows, this`h, this`log
      ensures Valid() && h == old(h) && old(log) <= log
      ensures rows == old(rows)[p := old(rows)[p].(state := s)] && r == old(r).(tally := TallyOf(rows))
    {
      hide Reaches, TallyOf, RowEnabled, RowEffect;
      ghost var w := W();
      SetRotationTargetState(p, s);
      Did(w, OnRow(p, a));
    }

    /** A guarded change of state that the protocol defines. */
    method Move(from: set<State>, to: State, ghost a: RunAction)
      requires Valid() && RunEnabled(c, W(), a) && RunEffect(c, W(), a) == WithState(W(), to)
      requires from == {} || r.state in from
      modifies this`r, this`h, this`log
      ensures Valid() && h == old(h) && old(log) <= log
      ensures r == old(r).(state := to)
    {
      hide Reaches, RunEnabled, RunEffect;
      ghost var w := W();
      var _ := SetRotationState(from, to);
      Did(w, OnRun(a));
    }

    /** Ends the run when the failure rate is above the threshold. */
    method AbortOnThreshold() returns (abort: bool)
      requires Valid() && h.pc == Idle && !Finished(r.state)
      modifies this`r, this`h, this`log
      ensures Valid() && h == old(h) && old(log) <= log
      ensures abort <==> !Tolerable(c, old(r.tally.failed), old(r.total))
      ensures r == if abort then old(r).(state := Aborted) else old(r)
    {
      if r.total == 0 || r.tally.failed == 0 {
        return false;
      }
      var rate := r.tally.failed * 100 / r.total;
      if rate <= c.threshold {
        return false;
      }
      hide Reaches;
      Move({}, Aborted, Halt(Aborted));
      return true;
    }

    method StageRow(p: Principal)
      requires Valid() && At(W(), Staging, p, RtPending)
      modifies this`r, this`rows, this`granted, this`status, this`installed, this`consumers, this`h, this`log, this`answers
      ensures Valid() && h == old(h) && old(log) <= log && old(answers) <= answers
      ensures p in rows && StagedAsHeard(p, rows[p].state, answers, |old(answers)|)
      ensures rows == old(rows)[p := Progress(r.wave, RtStaged)] || rows == old(rows)[p := Progress(r.wave, RtFailed)]
      ensures r == old(r).(tally := TallyOf(rows))
    {
      hide Reaches, TallyOf, Desired;
      var err := StageOne(p);
      if err {
        Mark(p, RtFailed, MarkUnstaged);
      } else {
        Mark(p, RtStaged, MarkStaged);
      }
    }

    method StepStaging() returns (requeue: bool)
      requires Valid() && In(W(), Staging)
      modifies this`r, this`rows, this`granted, this`status, this`installed, this`consumers, this`h, this`log, this`answers
      ensures Valid() && h == old(h) && old(log) <= log && old(answers) <= answers
      ensures StagingsHeard(rows, Members(old(rows), old(r.wave), RtPending), answers, |old(answers)|)
      ensures Visited(old(rows), rows, Members(old(rows), old(r.wave), RtPending), {RtStaged, RtFailed})
      ensures requeue <==> Tolerable(c, r.tally.failed, r.total)
      ensures r.state == (if requeue then Verifying else Aborted) && r.wave == old(r.wave)
    {
      hide Reaches, TallyOf, Tolerable, RowEffect, RunEffect, SinkEffect, RunEnabled, RowEnabled, SinkEnabled,
        Visited, NoneIn, Members, StagingsHeard;
      StageWave();
      var abort := AbortOnThreshold();
      if abort {
        return false;
      }
      CanVerify(c, W());
      Move({Staging}, Verifying, ToVerifying);
      return true;
    }

    method StageWave()
      requires Valid() && In(W(), Staging)
      modifies this`r, this`rows, this`granted, this`status, this`installed, this`consumers, this`h, this`log, this`answers
      ensures Valid() && h == old(h) && old(log) <= log && old(answers) <= answers && r == old(r).(tally := r.tally)
      ensures StagingsHeard(rows, Members(old(rows), old(r.wave), RtPending), answers, |old(answers)|)
      ensures Visited(old(rows), rows, Members(old(rows), old(r.wave), RtPending), {RtStaged, RtFailed})
      ensures NoneIn(rows, r.wave, RtPending)
    {
      hide Reaches, TallyOf, RowEffect, RunEffect, SinkEffect, RunEnabled, RowEnabled, SinkEnabled,
        Visited, Prefix, Lists, NoneIn, Members, StagingsHeard, StagedAsHeard, HasRow;
      var pending := WaveTargets(r.wave, RtPending);
      ghost var to, members := {RtStaged, RtFailed}, Members(rows, r.wave, RtPending);
      AreMembers(rows, r.wave, RtPending);
      VisitStart(rows, pending, to);
      NobodyYet(pending);
      for i := 0 to |pending|
        invariant Valid() && h == old(h) && old(log) <= log && old(answers) <= answers
        invariant r == old(r).(tally := r.tally)
        invariant Visited(old(rows), rows, Prefix(pending, i), to)
        invariant StagingsHeard(rows, Prefix(pending, i), answers, |old(answers)|)
      {
        VisitRow(old(rows), rows, pending, members, i, to);
        RowIsReady(c, w0, log, W(), pending[i]);
        ghost var mid, before := rows, answers;
        StageRow(pending[i]);
        StagingGoesOn(pending, i, mid, rows, before, answers, |old(answers)|);
        VisitNext(old(rows), mid, rows, pending, members, i, to);
      }
      VisitEnd(old(rows), rows, pending, members, to);
      NoneLeft(old(rows), rows, r.wave, RtPending, to);
    }

    method VerifyRow(p: Principal)
      requires Valid() && At(W(), Verifying, p, RtStaged)
      modifies this`r, this`rows, this`h, this`log, this`answers
      ensures Valid() && old(log) <= log && old(answers) <= answers
      ensures p in rows && r.newKey.Some? && VerifiedAsHeard(p, rows[p].state, r.newKey.value, answers, |old(answers)|)
      ensures r == old(r).(tally := TallyOf(rows))
      ensures exists x :: x in {RtVerified, RtFailed} && rows == old(rows)[p := Progress(r.wave, x)]
      ensures h == old(h).(proven := old(h).proven + if rows[p].state == RtVerified then {p} else {})
    {
      hide Reaches, TallyOf;
      var err := Verify(p, r.newKey.value);
      assert answers[|old(answers)|] == if err then NotAuthenticated(p, r.newKey.value) else Authenticated(p, r.newKey.value);
      if err {
        Mark(p, RtFailed, MarkUnverified);
      } else {
        ghost var w := W();
        Did(w, OnRow(p, Authenticate));
        Mark(p, RtVerified, MarkVerified);
      }
    }

    method StepVerifying() returns (requeue: bool, err: bool)
      requires Valid() && In(W(), Verifying)
      modifies this`r, this`rows, this`granted, this`status, this`installed, this`consumers, this`h, this`log, this`answers
      ensures Valid() && h == old(h).(proven := h.proven) && old(log) <= log && old(answers) <= answers
      ensures err ==> !requeue && W() == old(W()) && Heard(answers, |old(answers)|, VaultSealed)
      ensures !err ==>
        && r.newKey.Some?
        && VerificationsHeard(rows, Members(old(rows), old(r.wave), RtStaged), r.newKey.value, answers, |old(answers)|)
      ensures !err ==>
        && Visited(old(rows), rows, Members(old(rows), old(r.wave), RtStaged), {RtVerified, RtFailed})
        && h.proven == old(h.proven) + ProvenIn(Members(old(rows), old(r.wave), RtStaged), rows)
        && (requeue <==> Tolerable(c, r.tally.failed, r.total))
        && (!requeue ==> r.state == Aborted)
        && (requeue ==>
            if old(r.wave) < c.lastWave then r.state == Staging && r.wave == old(r.wave) + 1
            else r.state == Verified && r.wave == old(r.wave))
    {
      hide Reaches, TallyOf, Tolerable, RowEffect, RunEffect, SinkEffect, RunEnabled, RowEnabled, SinkEnabled;
      var unsealed := Ask(VaultOpen, VaultSealed);
      if !unsealed {
        assert answers[|old(answers)|] == VaultSealed;
        return false, true;
      }
      ghost var asked := answers;
      VerifyWave();
      VerifyingStands(Members(old(rows), old(r.wave), RtStaged), rows, answers, r.newKey.value, |asked|, |old(answers)|);
      var abort := AbortOnThreshold();
      if abort {
        return false, false;
      }
      var maxWave := MaxWave();
      LastWave(c, w0, log, W(), maxWave);
      CanFinishVerifying(c, W());
      if r.wave < maxWave {
        AdvanceWave();
        return true, false;
      }
      Move({Verifying}, Verified, ToVerified);
      return true, false;
    }

    method VerifyWave()
      requires Valid() && In(W(), Verifying)
      modifies this`r, this`rows, this`h, this`log, this`answers
      ensures Valid() && old(log) <= log && r == old(r).(tally := r.tally) && h == old(h).(proven := h.proven)
      ensures old(answers) <= answers && r.newKey.Some?
      ensures VerificationsHeard(rows, Members(old(rows), old(r.wave), RtStaged), r.newKey.value, answers, |old(answers)|)
      ensures Visited(old(rows), rows, Members(old(rows), old(r.wave), RtStaged), {RtVerified, RtFailed})
      ensures NoneIn(rows, r.wave, RtStaged)
      ensures h.proven == old(h.proven)
        + ProvenIn(Members(old(rows), old(r.wave), RtStaged), rows)
    {
      hide Reaches, TallyOf, RowEffect, RunEffect, SinkEffect, RunEnabled, RowEnabled, SinkEnabled,
        Visited, ProvenIn, Prefix, Lists, NoneIn, Members, VerificationsHeard, VerifiedAsHeard, HasRow;
      var staged := WaveTargets(r.wave, RtStaged);
      ghost var to, members := {RtVerified, RtFailed}, Members(rows, r.wave, RtStaged);
      AreMembers(rows, r.wave, RtStaged);
      VisitStart(rows, staged, to);
      NobodyYet(staged);
      KeyIsNamed(c, w0, log, W());
      ghost var key := r.newKey.value;
      for i := 0 to |staged|
        invariant Valid() && old(log) <= log && r == old(r).(tally := r.tally) && h == old(h).(proven := h.proven)
        invariant Visited(old(rows), rows, Prefix(staged, i), to)
        invariant old(answers) <= answers
        invariant VerificationsHeard(rows, Prefix(staged, i), key, answers, |old(answers)|)
        invariant h.proven == old(h.proven) + ProvenIn(Prefix(staged, i), rows)
      {
        VisitRow(old(rows), rows, staged, members, i, to);
        RowIsReady(c, w0, log, W(), staged[i]);
        ghost var mid, before := rows, answers;
        VerifyRow(staged[i]);
        VerifyNext(old(rows), mid, rows, staged, members, i, before, answers, key, |old(answers)|, old(h.proven));
      }
      VisitEnd(old(rows), rows, staged, members, to);
      NoneLeft(old(rows), rows, r.wave, RtStaged, to);
    }

    /** Two writes: the wave, then the state. */
    method AdvanceWave()
      requires Valid() && RunEnabled(c, W(), NextWave)
      requires RunEffect(c, W(), NextWave) == WithPc(W().(r := r.(wave := r.wave + 1)), Advancing)
      requires In(W(), Verifying)
      modifies this`r, this`h, this`log
      ensures Valid() && h == old(h) && old(log) <= log
      ensures r == old(r).(wave := old(r.wave) + 1, state := Staging)
    {
      hide Reaches, NoneIn, Tolerable, TallyOf, SinkEnabled, SinkEffect, RowEnabled, RowEffect;
      ghost var w := W();
      r := r.(wave := r.wave + 1);
      Did(w, OnRun(NextWave));
      w := W();
      var _ := SetRotationState({Verifying}, Staging);
      Did(w, OnRun(Restage));
    }

    method NameKey(id: Key)
      requires Valid() && In(W(), Planned) && id !in status && r.newKey.None?
      modifies this`status, this`r, this`h, this`log
      ensures Valid() && h == old(h).(pc := if c.dryRun then DryStop else Idle) && old(log) <= log
      ensures r == old(r).(newKey := Some(id), total := |rows|) && status == old(status)[id := KeyPending]
    {
      hide Reaches, TallyOf, NoneIn, NoRow, Tolerable, RowEnabled, RowEffect, SinkEnabled, SinkEffect;
      ghost var w := W();
      status := status[id := KeyPending];
      Did(w, OnRun(Generate(id)));
      w := W();
      r := r.(newKey := Some(id), total := |rows|);
      Did(w, OnRun(RecordKey));
    }

    /** Names the successor and opens the run; `id` is the identifier drawn for it. */
    method StepPlanned(id: Key) returns (requeue: bool, err: bool)
      requires Valid() && In(W(), Planned) && id !in status
      modifies this`r, this`rows, this`granted, this`status, this`installed, this`consumers, this`h, this`log, this`answers
      ensures Valid() && h == old(h) && old(log) <= log && old(answers) <= answers
      ensures rows == old(rows) && installed == old(installed) && granted == old(granted)
      ensures err ==> !requeue && W() == old(W()) && Heard(answers, |old(answers)|, KeyNotMade)
      ensures !err ==>
        && r.newKey == (if old(r.newKey).Some? then old(r.newKey) else Some(id))
        && r.state == (if old(r.newKey).None? && c.dryRun then Completed else Staging)
        && (requeue <==> r.state == Staging) && r.wave == old(r.wave)
    {
      hide Reaches, TallyOf, NoneIn, NoRow, Tolerable, RowEnabled, RowEffect, SinkEnabled, SinkEffect;
      if r.newKey.Some? {
        Move({Planned}, Staging, Open);
        return true, false;
      }
      var generated := Ask(KeyMade, KeyNotMade);
      if !generated {
        assert answers[|old(answers)|] == KeyNotMade;
        return false, true;
      }
      NameKey(id);
      if c.dryRun {
        ghost var w := W();
        var _ := SetRotationState({}, Completed);
        Did(w, OnRun(StopDry));
        return false, false;
      }
      Move({Planned}, Staging, Open);
      return true, false;
    }

    /** Delivers first, records second; to a consumer that fetches its key there is nothing to deliver. */
    method RebindConsumer(k: Consumer) returns (err: bool)
      requires Valid() && h.pc.Handing? && k in h.pc.todo && k in consumers && r.newKey.Some?
      modifies this`consumers, this`h, this`log, this`answers
      ensures Valid() && old(log) <= log && consumers.Keys == old(consumers.Keys)
      ensures answers == old(answers) + [if err then NotDelivered(k) else Delivered(k)]
      ensures forall j :: j in consumers && j != k ==> consumers[j] == old(consumers)[j]
      ensures err ==> h == old(h) && consumers[k].(received := {}) == old(consumers)[k].(received := {})
      ensures !err ==> h == old(h).(pc := Handing(old(h).pc.todo - {k})) && consumers[k].Has(r.newKey.value)
    {
      hide Reaches, RunEnabled, RowEnabled, RunEffect, RowEffect;
      var delivered := Ask(Delivered(k), NotDelivered(k));
      if !delivered {
        return true;
      }
      ghost var w := W();
      if !consumers[k].pull {
        consumers := consumers[k := consumers[k].(received := consumers[k].received + {r.newKey.value})];
        Did(w, OnSinks(Deliver(k)));
        w := W();
      }
      consumers := consumers[k := consumers[k].(key := r.newKey.value)];
      Did(w, OnSinks(Rebind(k)));
      return false;
    }

    /** The new key becomes active, the old one retiring; the hand-over begins. */
    method Swap()
      requires Valid() && In(W(), Verified) && r.newKey.Some?
      modifies this`r, this`status, this`h, this`log
      ensures Valid() && old(log) <= log && r == old(r).(state := Promoting)
      ensures h == old(h).(pc := Handing(BoundTo(consumers, c.oldKey)), owed := BoundTo(consumers, c.oldKey))
      ensures status == old(status)[r.newKey.value := KeyActive][c.oldKey := KeyRetiring]
    {
      hide Reaches, RunEnabled, RowEnabled, RunEffect, RowEffect, BoundTo;
      ghost var w := W();
      var _ := SetRotationState({Staged, Verified}, Promoting);
      Did(w, OnSinks(Promote));
      w := W();
      status := status[r.newKey.value := KeyActive];
      Did(w, OnSinks(Activate));
      w := W();
      status := status[c.oldKey := KeyRetiring];
      Did(w, OnSinks(Demote));
    }

    /** Every enabled consumer of the old key, in some order, until one cannot take the new key. */
    method HandOver() returns (err: bool)
      requires Valid() && r.newKey.Some? && h.pc == Handing(BoundTo(consumers, c.oldKey))
      modifies this`consumers, this`h, this`log, this`answers
      ensures Valid() && old(log) <= log && consumers.Keys == old(consumers.Keys) && old(answers) <= answers
      ensures err ==> exists k :: k in BoundTo(old(consumers), c.oldKey) && Heard(answers, |old(answers)|, NotDelivered(k))
      ensures h == old(h).(pc := h.pc) && h.pc.Handing? && (err <==> h.pc.todo != {})
      ensures forall k :: k in consumers && k !in BoundTo(old(consumers), c.oldKey) ==> consumers[k] == old(consumers)[k]
      ensures !err ==> forall k :: k in BoundTo(old(consumers), c.oldKey) ==> k in consumers && consumers[k].Has(r.newKey.value)
    {
      hide Reaches, RunEnabled, RowEnabled, RunEffect, RowEffect, SinkEnabled, SinkEffect, Heard, Prefix;
      ghost var owed := BoundTo(consumers, c.oldKey);
      var sinks := Listing(set k | k in consumers && consumers[k].key == c.oldKey);
      NoSinksYet(sinks);
      for i := 0 to |sinks|
        invariant Valid() && old(log) <= log && consumers.Keys == old(consumers.Keys) && old(answers) <= answers
        invariant h == old(h).(pc := Handing(owed - Prefix(sinks, i)))
        invariant forall k :: k in owed && k in Prefix(sinks, i) ==> k in consumers && consumers[k].Has(r.newKey.value)
        invariant forall k :: k in consumers && (k !in owed || k !in Prefix(sinks, i)) ==> consumers[k] == old(consumers)[k]
      {
        var k := sinks[i];
        NextSink(sinks, i);
        if consumers[k].enabled {
          err := RebindConsumer(k);
          if err {
            LastHeard(answers, |old(answers)|, |answers| - 1);
            return true;
          }
          assert owed - Prefix(sinks, i + 1) == (owed - Prefix(sinks, i)) - {k};
        } else {
          assert owed - Prefix(sinks, i + 1) == owed - Prefix(sinks, i);
        }
      }
      AllListed(sinks, set k | k in old(consumers) && old(consumers)[k].key == c.oldKey);
      assert owed - Prefix(sinks, |sinks|) == {};
      return false;
    }

    method StepPromote() returns (requeue: bool)
      requires Valid() && In(W(), Verified)
      modifies this`r, this`rows, this`granted, this`status, this`installed, this`consumers, this`h, this`log, this`answers
      ensures Valid() && h == old(h).(owed := BoundTo(old(consumers), c.oldKey)) && old(log) <= log
      ensures rows == old(rows) && installed == old(installed) && granted == old(granted)
      ensures r == old(r).(state := if requeue then Promoting else Failed)
      ensures old(answers) <= answers && r.newKey.Some? && consumers.Keys == old(consumers.Keys)
      ensures !requeue ==> exists k :: k in h.owed && Heard(answers, |old(answers)|, NotDelivered(k))
      ensures forall k :: k in consumers && !(old(consumers)[k].enabled && old(consumers)[k].key == c.oldKey) ==>
        consumers[k] == old(consumers)[k]
      ensures requeue ==> forall k :: k in old(consumers) && old(consumers)[k].enabled && old(consumers)[k].key == c.oldKey ==>
        consumers[k].key == r.newKey.value && (consumers[k].pull || r.newKey.value in consumers[k].received)
      ensures requeue ==> forall k :: k in h.owed ==> Handed(W(), k)
    {
      hide Reaches, RunEnabled, RowEnabled, SinkEnabled, RunEffect, RowEffect, SinkEffect, BoundTo, Heard, Handed;
      KeyIsNamed(c, w0, log, W());
      Swap();
      ghost var sinks := consumers;
      var err := HandOver();
      Rebound(sinks, consumers, c.oldKey, r.newKey.value, err);
      EndHandOver(err);
      if !err { AllHanded(W()); }
      return !err;
    }

    method EndHandOver(err: bool)
      requires Valid() && h.pc.Handing? && (err <==> h.pc.todo != {}) && r.state == Promoting
      modifies this`r, this`h, this`log
      ensures Valid() && h == old(h).(pc := Idle) && old(log) <= log
      ensures r == old(r).(state := if err then Failed else Promoting)
    {
      hide Reaches, RunEnabled, RowEnabled, RunEffect, RowEffect, BoundTo;
      ghost var w := W();
      if err {
        var _ := SetRotationState({}, Failed);
        Did(w, OnSinks(HandoverFailed));
      } else {
        Did(w, OnSinks(HandoverDone));
      }
    }

    method StepSoak() returns (requeue: bool)
      requires Valid() && In(W(), Promoting)
      modifies this`r, this`h, this`log
      ensures Valid() && h == old(h) && old(log) <= log && requeue
      ensures r == old(r).(state := Soaking, soakUntil := Some(now + c.soak))
    {
      hide Reaches, TallyOf, NoneIn, NoRow, Tolerable, RowEnabled, RowEffect, SinkEnabled, SinkEffect;
      ghost var w := W();
      r := r.(soakUntil := Some(now + c.soak));
      Did(w, OnRun(SetSoak));
      Move({Promoting}, Soaking, BeginSoak);
      return true;
    }

    /** Before the window closes nothing happens but asking to be woken again. */
    method StepSoakWait() returns (requeue: bool)
      requires Valid() && In(W(), Soaking)
      modifies this`r, this`h, this`log
      ensures Valid() && h == old(h) && old(log) <= log && requeue
      ensures r == if r.soakUntil.Some? && now < r.soakUntil.value then old(r) else old(r).(state := Retiring)
    {
      hide Reaches, TallyOf, NoneIn, NoRow, Tolerable, RowEnabled, RowEffect, SinkEnabled, SinkEffect;
      if r.soakUntil.Some? && now < r.soakUntil.value {
        return true;
      }
      Move({Soaking}, Retiring, EndSoak);
      return true;
    }

    /** Authenticates with every key the login should accept; a pending or staged key that works becomes active. */
    method VerifyAssignments(p: Principal, desired: set<Key>) returns (failed: bool)
      requires Valid() && AtRetiring(W(), p) && c.oldKey !in granted[p] && desired <= granted[p]
      modifies this`status, this`h, this`log, this`answers
      ensures Valid() && h == old(h) && old(log) <= log && status.Keys == old(status.Keys) && old(answers) <= answers
      ensures Desired(W(), p) == old(Desired(W(), p))
      ensures Proven(old(status), status, desired * installed[p])
      ensures failed ==> exists k :: k in desired && Heard(answers, |old(answers)|, NotAuthenticated(p, k))
      ensures !failed ==> forall k :: k in desired ==> Tried(answers, |old(answers)|, p, k)
    {
      hide Reaches, TallyOf, RunEnabled, SinkEnabled, RunEffect, SinkEffect, RowEnabled, RowEffect, Proven, Heard, Tried, Desired;
      failed := false;
      var rest := desired;
      ghost var n := |answers|;
      NothingProven(status, desired * installed[p]);
      while rest != {}
        invariant Valid() && h == old(h) && old(log) <= log && status.Keys == old(status.Keys) && rest <= desired
        invariant old(answers) <= answers
        invariant Desired(W(), p) == old(Desired(W(), p))
        invariant Proven(old(status), status, desired * installed[p])
        invariant failed ==> exists k :: k in desired && Heard(answers, n, NotAuthenticated(p, k))
        invariant !failed ==> forall k :: k in desired - rest ==> Tried(answers, n, p, k)
        decreases |rest|
      {
        var k :| k in rest;
        ghost var before, mid := answers, status;
        var refused := TryKey(p, k);
        AlsoProven(old(status), mid, status, desired * installed[p], k);
        HeardBefore(before, answers, n, p);
        failed := failed || refused;
        rest := rest - {k};
      }
    }

    /** One of them; a key whose private half is not held is passed over. */
    method TryKey(p: Principal, k: Key) returns (refused: bool)
      requires Valid() && AtRetiring(W(), p) && c.oldKey !in granted[p] && k in granted[p]
      modifies this`status, this`h, this`log, this`answers
      ensures Valid() && h == old(h) && old(log) <= log && status.Keys == old(status.Keys) && old(answers) <= answers
      ensures AtRetiring(W(), p) && Desired(W(), p) == old(Desired(W(), p))
      ensures status == old(status) || (k in installed[p] && k in old(status)
        && (old(status)[k] == KeyPending || old(status)[k] == KeyStaged) && status == old(status)[k := KeyActive])
      ensures if refused then Heard(answers, |old(answers)|, NotAuthenticated(p, k)) else Tried(answers, |old(answers)|, p, k)
    {
      hide Reaches, TallyOf, RunEnabled, SinkEnabled, RunEffect, SinkEffect, RowEffect, Heard, Desired;
      ghost var n := |answers|;
      var held := Ask(PrivateHeld(k), NoPrivate(k));
      LastHeard(answers, n, n);
      if !held {
        return false;
      }
      refused := Verify(p, k);
      LastHeard(answers, n, n + 1);
      if !refused && k in status && (status[k] == KeyPending || status[k] == KeyStaged) {
        ActivateOne(p, k);
      }
    }

    method ActivateOne(p: Principal, k: Key)
      requires Valid() && RowEnabled(c, W(), p, ActivateKey(k))
      modifies this`status, this`h, this`log
      ensures Valid() && h == old(h) && old(log) <= log && status == old(status)[k := KeyActive]
      ensures AtRetiring(W(), p) && Desired(W(), p) == old(Desired(W(), p))
    {
      hide Reaches, TallyOf, RunEnabled, SinkEnabled, RunEffect, SinkEffect;
      ghost var w := W();
      status := status[k := KeyActive];
      Did(w, OnRow(p, ActivateKey(k)));
    }

    method UnbindOld(p: Principal)
      requires Valid() && AtRetiring(W(), p)
      modifies this`granted, this`h, this`log
      ensures Valid() && h == old(h) && old(log) <= log
      ensures AtRetiring(W(), p) && c.oldKey !in granted[p]
      ensures granted == old(granted)[p := old(granted)[p] - {c.oldKey}]
    {
      hide Reaches, TallyOf, Desired, Converged;
      ghost var w := W();
      granted := granted[p := granted[p] - {c.oldKey}];
      Did(w, OnRow(p, Unbind));
    }

    /** Unbinds the old key and converges with pruning; then the remaining keys must still work. */
    method RetireOne(p: Principal) returns (err: bool)
      requires Valid() && AtRetiring(W(), p)
      modifies this`granted, this`installed, this`status, this`h, this`log, this`answers
      ensures Valid() && h == old(h) && old(log) <= log && status.Keys == old(status.Keys) && old(answers) <= answers
      ensures AtRetiring(W(), p)
      ensures granted == old(granted)[p := old(granted)[p] - {c.oldKey}] && Proven(old(status), status, old(status.Keys))
      ensures RetiredAsHeard(p, if err then RtFailed else RtRetired, Remaining(c.oldKey, old(granted), old(status), p),
                             answers, |old(answers)|)
      ensures !err ==> c.oldKey !in granted[p] && installed[p] == Converged(installed[p], Desired(W(), p), true, status.Keys)
    {
      hide Reaches, TallyOf, RunEnabled, RowEnabled, SinkEnabled, RunEffect, RowEffect, SinkEffect, Converged;
      hide Heard, Tried, RetiredAsHeard, Proven, Desired;
      UnbindOld(p);
      var desired := DesiredKeys(p);
      assert desired == Remaining(c.oldKey, old(granted), old(status), p);
      hide Remaining;
      NothingProven(status, status.Keys);
      err := ConvergePruned(p, desired);
      if err {
        NotConverged(old(answers), p, desired);
        return true;
      }
      ghost var applied := answers;
      err := VerifyAssignments(p, desired);
      TriedAll(old(answers), applied, answers, p, err, desired);
      ProvenAmong(old(status), status, desired * installed[p]);
    }

    method ConvergePruned(p: Principal, desired: set<Key>) returns (err: bool)
      requires Valid() && AtRetiring(W(), p) && c.oldKey !in granted[p] && desired == Desired(W(), p)
      modifies this`installed, this`h, this`log, this`answers
      ensures Valid() && h == old(h) && old(log) <= log && AtRetiring(W(), p)
      ensures answers == old(answers) + [if err then NotApplied(p) else Applied(p)]
      ensures desired == Desired(W(), p)
      ensures !err ==> installed[p] == Converged(installed[p], desired, true, status.Keys)
    {
      hide Reaches, TallyOf, RunEnabled, SinkEnabled, RunEffect, SinkEffect;
      ghost var w := W();
      err := Apply(p, desired, true);
      assert Desired(W(), p) == desired;
      hide Desired;
      if installed != w.installed {
        Did(w, OnRow(p, Prune));
      }
    }

    method RetireRow(p: Principal)
      requires Valid() && AtRetiring(W(), p)
      modifies this`r, this`rows, this`granted, this`status, this`installed, this`consumers, this`h, this`log, this`answers
      ensures Valid() && h == old(h) && old(log) <= log && status.Keys == old(status.Keys) && old(answers) <= answers
      ensures granted == old(granted)[p := old(granted)[p] - {c.oldKey}] && Proven(old(status), status, old(status.Keys))
      ensures p in rows && RetiredAsHeard(p, rows[p].state, Remaining(c.oldKey, old(granted), old(status), p), answers, |old(answers)|)
      ensures exists x :: x in {RtRetired, RtFailed} && rows == old(rows)[p := Progress(old(rows)[p].wave, x)]
      ensures r == old(r).(tally := TallyOf(rows))
    {
      hide Reaches, TallyOf, Desired, Converged, Heard, RetiredAsHeard, Proven, Remaining;
      var err := RetireOne(p);
      if err {
        Mark(p, RtFailed, MarkUnretired);
      } else {
        Mark(p, RtRetired, MarkRetired);
      }
    }

    /** Every verified login loses the old key or fails; the key is retired only if none failed. */
    method StepRetire() returns (requeue: bool)
      requires Valid() && In(W(), Retiring)
      modifies this`r, this`rows, this`granted, this`status, this`installed, this`consumers, this`h, this`log, this`answers
      ensures Valid() && h == old(h) && old(log) <= log && !requeue && old(answers) <= answers
      ensures RetirementsHeard(c.oldKey, old(rows), old(granted), old(status), rows, old(rows.Keys), answers, |old(answers)|)
      ensures Visited(old(rows), rows, InStates(old(rows), {RtVerified}), {RtRetired, RtFailed})
      ensures r.state == Completed && r.wave == old(r.wave)
      ensures c.oldKey in status && (status[c.oldKey] == KeyRetired <==> NoRow(rows, RtFailed))
    {
      hide Reaches, TallyOf, RunEnabled, RowEnabled, SinkEnabled, RunEffect, RowEffect, SinkEffect;
      var failed := RetireRows();
      RetiringKey(c, w0, log, W());
      if failed == 0 {
        CanRetire(c, W());
        ghost var w := W();
        status := status[c.oldKey := KeyRetired];
        Did(w, OnRun(RetireKey));
      }
      CanComplete(c, W());
      Move({Retiring}, Completed, Complete);
      return false;
    }

    /** The loop; the count is of rows that never verified and of those that failed here. */
    method RetireRows() returns (failed: nat)
      requires Valid() && In(W(), Retiring)
      modifies this`r, this`rows, this`granted, this`status, this`installed, this`consumers, this`h, this`log, this`answers
      ensures Valid() && h == old(h) && old(log) <= log && r == old(r).(tally := r.tally) && old(answers) <= answers
      ensures RetirementsHeard(c.oldKey, old(rows), old(granted), old(status), rows, old(rows.Keys), answers, |old(answers)|)
      ensures Visited(old(rows), rows, InStates(old(rows), {RtVerified}), {RtRetired, RtFailed})
      ensures NoRow(rows, RtVerified) && (failed == 0 <==> NoRow(rows, RtFailed))
    {
      hide Reaches, TallyOf, RunEnabled, RowEnabled, SinkEnabled, RunEffect, RowEffect, SinkEffect, Lists;
      hide Prefix, InStates, Visited, RetiredSoFar, NoFailedIn, SameRemaining, RetirementsHeard, RetiredAsHeard, Remaining, Proven;
      var all := ListRotationTargets();
      failed := 0;
      NoneSeen(rows, all);
      NoneRetired(c.oldKey, rows, granted, status, all, answers, |answers|);
      for i := 0 to |all|
        invariant Valid() && h == old(h) && old(log) <= log && r == old(r).(tally := r.tally)
        invariant RetiredSoFar(old(rows), rows, Prefix(all, i))
        invariant old(answers) <= answers && SameRemaining(c.oldKey, old(granted), old(status), granted, status)
        invariant RetirementsHeard(c.oldKey, old(rows), old(granted), old(status), rows, Prefix(all, i), answers, |old(answers)|)
        invariant failed == 0 <==> NoFailedIn(rows, Prefix(all, i))
      {
        var p := all[i];
        Unseen(old(rows), rows, all, i);
        ghost var mid, before := rows, answers;
        if rows[p].state == RtVerified {
          RowIsReady(c, w0, log, W(), p);
          ghost var g, st := granted, status;
          RetireRow(p);
          StillRemaining(c.oldKey, old(granted), old(status), g, st, p);
          SameRemainingTwice(c.oldKey, old(granted), old(status), g, st, p, status);
        }
        if rows[p].state == RtFailed {
          failed := failed + 1;
        }
        Seen(old(rows), mid, rows, all, i);
        RetiringGoesOn(c.oldKey, old(rows), old(granted), old(status), all, i, mid, rows, before, answers, |old(answers)|);
      }
      AllListed(all, old(rows.Keys));
      AllSeen(old(rows), rows);
    }

    // ---- requests and the step dispatcher ----

    method Approve() returns (ok: bool)
      requires Valid() && h.pc == Idle
      modifies this`r, this`h, this`log
      ensures Valid() && h == old(h) && old(log) <= log
      ensures ok <==> old(r.state) == Awaiting
      ensures r == if ok then old(r).(state := Planned) else old(r)
    {
      hide Reaches;
      ok := r.state == Awaiting;
      if ok {
        Move({Awaiting}, Planned, RunAction.Approve);
      }
    }

    method Abort() returns (ok: bool)
      requires Valid() && h.pc == Idle
      modifies this`r, this`h, this`log
      ensures Valid() && h == old(h) && old(log) <= log
      ensures ok <==> old(r.state) !in {Completed, Aborted, RolledBack, Failed}
      ensures r == if ok then old(r).(state := Aborted) else old(r)
    {
      hide Reaches;
      ok := !Finished(r.state);
      if ok {
        Move({}, Aborted, Halt(Aborted));
      }
    }

    /** The worker's last word on a step that can never succeed. It asks for no state: a finished run is overwritten. */
    method FailRotation()
      requires Valid() && h.pc == Idle
      modifies this`r, this`h, this`log
      ensures Valid() && h == old(h) && old(log) <= log
      ensures r == old(r).(state := Failed)
    {
      hide Reaches;
      Move({}, Failed, Halt(Failed));
    }

    method Tick(d: nat)
      requires Valid()
      modifies this`now, this`h, this`log
      ensures Valid() && h == old(h) && old(log) <= log && now == old(now) + d
    {
      hide Reaches;
      ghost var w := W();
      now := now + d;
      Did(w, OnRun(RunAction.Tick(d)));
    }

    /** The process dies, wherever it was, and another takes over: only what is stored survives. */
    ghost method Restart()
      requires Valid()
      modifies this`h, this`log
      ensures Valid() && h.pc == Idle && old(log) <= log
      ensures h.torn == old(h.torn) + Torn(old(h.pc)) && h.proven == old(h.proven) && h.owed == old(h.owed)
    {
      hide Reaches;
      Did(W().(h := h), OnRun(Crash));
    }

    /** Still inside the soak window: the step only asks to be woken again. */
    predicate Early()
      reads this`r, this`now
    {
      r.state == Soaking && r.soakUntil.Some? && now < r.soakUntil.value
    }

    /**
     One step. It leaves no transition half done; it advances the rotation by one rank when it
     asks for another step, unless it woke early; and otherwise the rotation is finished, waits
     for approval, or the step failed before changing anything. Before it looks at the rotation it
     may be refused, because whoever started it is gone.
     */
    method Step(id: Key) returns (requeue: bool, err: bool)
      requires Valid() && h.pc == Idle && id !in status
      modifies this`r, this`rows, this`granted, this`status, this`installed, this`consumers, this`h, this`log, this`answers
      ensures Valid() && h.pc == Idle && h.torn == old(h.torn) && old(log) <= log && now == old(now) && old(answers) <= answers
      ensures if err then FailedAsHeard(answers, |old(answers)|)
        else OutcomesHeard(c, old(W()), rows, r.newKey, answers, |old(answers)|)
      ensures err ==> !requeue && W() == old(W())
      ensures Finished(old(r.state)) && !err ==> !requeue && W() == old(W())
      ensures old(Early()) && !err ==> requeue && W() == old(W())
      ensures requeue && !old(Early()) ==> 0 <= Rank(c, W()) < old(Rank(c, W()))
      ensures requeue ==> !Finished(r.state) && old(r.state) != Awaiting
      ensures !requeue && !err ==> Finished(r.state) || (r.state == Awaiting && W() == old(W()))
      ensures !err ==> RowsMoved(old(W()), rows)
    {
      hide Reaches, TallyOf, Visited, Members, InStates, Handed, Tolerable, NoRow, BoundTo, Rank;
      hide OutcomesHeard, FailedAsHeard, RowsMoved;
      NeverStaged(c, w0, log, W());
      ghost var n := |answers|;
      ghost var start, early := W(), Early();
      var permitted := Ask(Permitted, Forbidden);
      assert W() == start && Early() == early;
      if !permitted {
        IsForbidden(answers, n);
        return false, true;
      }
      if Finished(r.state) || r.state == Awaiting {
        NothingMoved(c, start, r.newKey, answers, n);
        return false, false;
      }
      if r.state == Planned || r.state == Staging || r.state == Verifying {
        requeue, err := StepDeploying(id);
        if err { FailureStands(answers, n + 1, n); }
      } else {
        requeue := StepReplacing();
        err := false;
      }
      if !err { OutcomesStand(c, start, rows, r.newKey, answers, n + 1, n); }
    }

    /** The steps that add the new key. */
    method StepDeploying(id: Key) returns (requeue: bool, err: bool)
      requires Valid() && h.pc == Idle && id !in status
      requires r.state == Planned || r.state == Staging || r.state == Verifying
      modifies this`r, this`rows, this`granted, this`status, this`installed, this`consumers, this`h, this`log, this`answers
      ensures Valid() && h.pc == Idle && h.torn == old(h.torn) && old(log) <= log && old(answers) <= answers
      ensures err ==> !requeue && W() == old(W()) && FailedAsHeard(answers, |old(answers)|)
      ensures !err ==> OutcomesHeard(c, old(W()), rows, r.newKey, answers, |old(answers)|)
      ensures requeue ==> 0 <= Rank(c, W()) < old(Rank(c, W())) && !Finished(r.state)
      ensures !requeue && !err ==> Finished(r.state)
      ensures !err ==> RowsMoved(old(W()), rows)
    {
      hide Reaches, TallyOf, Visited, Members, Tolerable, StagingsHeard, VerificationsHeard, Heard;
      Ready(c, w0, log, W());
      if r.state == Planned {
        requeue, err := StepPlanned(id);
      } else if r.state == Staging {
        requeue := StepStaging();
        err := false;
      } else {
        requeue, err := StepVerifying();
      }
      Ready(c, w0, log, W());
    }

    /** The steps that hand over, wait, and remove the old key. */
    method StepReplacing() returns (requeue: bool)
      requires Valid() && h.pc == Idle
      requires r.state == Verified || r.state == Promoting || r.state == Soaking || r.state == Retiring
      modifies this`r, this`rows, this`granted, this`status, this`installed, this`consumers, this`h, this`log, this`answers
      ensures Valid() && h.pc == Idle && h.torn == old(h.torn) && old(log) <= log && old(answers) <= answers
      ensures OutcomesHeard(c, old(W()), rows, r.newKey, answers, |old(answers)|)
      ensures old(Early()) ==> requeue && W() == old(W())
      ensures requeue && !old(Early()) ==> 0 <= Rank(c, W()) < old(Rank(c, W()))
      ensures requeue <==> !Finished(r.state)
      ensures RowsMoved(old(W()), rows)
    {
      hide Reaches, TallyOf, Visited, InStates, Handed, NoRow, BoundTo, RetirementsHeard;
      if r.state == Verified {
        requeue := StepPromote();
      } else if r.state == Promoting {
        requeue := StepSoak();
      } else if r.state == Soaking {
        requeue := StepSoakWait();
      } else {
        requeue := StepRetire();
      }
    }
  }

  /** Whatever an engine has been through, every login of its run can still be reached. */
  lemma AccessIsKept(e: Engine, p: Principal)
    requires e.Valid() && p in e.rows
    ensures p in e.installed
    ensures e.c.oldKey in e.installed[p] || (e.r.newKey.Some? && e.r.newKey.value in e.installed[p] && p in e.h.proven)
  {
    RotationTheorems.SameRows(e.c, e.w0, e.log, e.W());
    AddBeforeRemove(e.c, e.w0, e.log, e.W(), p);
  }

  /** And no other key is lost: one that was assigned to the login, installed and not withdrawn is still all three. */
  lemma OthersAreKept(e: Engine, p: Principal, k: Key)
    requires e.Valid() && k != e.c.oldKey && p in e.w0.installed && k in e.w0.installed[p]
    requires p in e.w0.granted && k in e.w0.granted[p]
    requires k in e.w0.status && e.w0.status[k] !in {KeyRevoked, KeyCompromised, KeyDestroyed}
    ensures p in e.installed && k in e.installed[p]
    ensures p in e.granted && k in e.granted[p]
    ensures k in e.status && e.status[k] !in {KeyRevoked, KeyCompromised, KeyDestroyed}
  {
    OtherKeysLast(e.c, e.w0, e.log, e.W(), p, k);
  }

  // ---- when the protocol allows a move ----

  /** After the rows in `done`: the verified ones are retired or failed, and nothing else has moved. */
  ghost predicate RetiredSoFar(before: map<Principal, Progress>, after: map<Principal, Progress>, done: set<Principal>) {
    Visited(before, after, InStates(before, {RtVerified}) * done, {RtRetired, RtFailed})
  }

  ghost predicate NoFailedIn(rows: map<Principal, Progress>, done: set<Principal>) {
    forall p :: p in done && p in rows ==> rows[p].state != RtFailed
  }

  lemma NoneSeen(rows: map<Principal, Progress>, s: seq<Principal>)
    ensures RetiredSoFar(rows, rows, Prefix(s, 0)) && NoFailedIn(rows, Prefix(s, 0))
  {}

  lemma Unseen(before: map<Principal, Progress>, mid: map<Principal, Progress>, s: seq<Principal>, i: nat)
    requires i < |s| && Lists(s, before.Keys) && RetiredSoFar(before, mid, Prefix(s, i))
    ensures s[i] in before && s[i] in mid && mid[s[i]] == before[s[i]]
  {
    assert s[i] in s && s[i] !in Prefix(s, i);
  }

  lemma Seen(before: map<Principal, Progress>, mid: map<Principal, Progress>, after: map<Principal, Progress>,
             s: seq<Principal>, i: nat)
    requires i < |s| && Lists(s, before.Keys) && RetiredSoFar(before, mid, Prefix(s, i))
    requires s[i] in before
    requires if before[s[i]].state == RtVerified
      then exists x :: x in {RtRetired, RtFailed} && after == mid[s[i] := Progress(before[s[i]].wave, x)]
      else after == mid
    ensures RetiredSoFar(before, after, Prefix(s, i + 1)) && s[i] in after
    ensures NoFailedIn(after, Prefix(s, i + 1)) <==> NoFailedIn(mid, Prefix(s, i)) && after[s[i]].state != RtFailed
  {
    assert Prefix(s, i + 1) == Prefix(s, i) + {s[i]} && s[i] !in Prefix(s, i);
  }

  lemma AllSeen(before: map<Principal, Progress>, after: map<Principal, Progress>)
    requires RetiredSoFar(before, after, before.Keys)
    ensures Visited(before, after, InStates(before, {RtVerified}), {RtRetired, RtFailed}) && NoRow(after, RtVerified)
    ensures NoFailedIn(after, before.Keys) <==> NoRow(after, RtFailed)
  {
    assert InStates(before, {RtVerified}) * before.Keys == InStates(before, {RtVerified});
  }

  lemma RetiringKey(c: Config, w0: World, log: seq<Action>, w: World)
    requires Reaches(c, w0, log, w)
    ensures c.oldKey in w.status && (w.status[c.oldKey] == KeyRetired ==> NoRow(w.rows, RtFailed))
  {
    InvRun(c, w0, log, w);
  }

  lemma CanRetire(c: Config, w: World)
    requires In(w, Retiring) && NoRow(w.rows, RtVerified) && NoRow(w.rows, RtFailed)
    ensures RunEnabled(c, w, RetireKey) && RunEffect(c, w, RetireKey) == WithStatus(w, c.oldKey, KeyRetired)
  {}

  lemma CanComplete(c: Config, w: World)
    requires In(w, Retiring) && NoRow(w.rows, RtVerified)
    requires NoRow(w.rows, RtFailed) ==> c.oldKey in w.status && w.status[c.oldKey] == KeyRetired
    ensures RunEnabled(c, w, Complete) && RunEffect(c, w, Complete) == WithState(w, Completed)
  {}

  lemma CanVerify(c: Config, w: World)
    requires In(w, Staging) && NoneIn(w.rows, w.r.wave, RtPending) && Tolerable(c, w.r.tally.failed, w.r.total)
    ensures RunEnabled(c, w, ToVerifying) && RunEffect(c, w, ToVerifying) == WithState(w, Verifying)
  {}

  lemma CanFinishVerifying(c: Config, w: World)
    requires In(w, Verifying) && NoneIn(w.rows, w.r.wave, RtStaged) && Tolerable(c, w.r.tally.failed, w.r.total)
    ensures w.r.wave < c.lastWave ==>
      RunEnabled(c, w, NextWave) && RunEffect(c, w, NextWave) == WithPc(w.(r := w.r.(wave := w.r.wave + 1)), Advancing)
    ensures w.r.wave >= c.lastWave ==> RunEnabled(c, w, ToVerified) && RunEffect(c, w, ToVerified) == WithState(w, Verified)
  {}

  /** The number of waves, as a query computes it, is the plan's. */
  lemma LastWave(c: Config, w0: World, log: seq<Action>, w: World, m: nat)
    requires Reaches(c, w0, log, w)
    requires forall p :: p in w.rows ==> w.rows[p].wave <= m
    requires m == 0 || exists p :: p in w.rows && w.rows[p].wave == m
    ensures m == c.lastWave
  {
    WavesAreFixed(c, w0, log, w);
  }

  lemma {:induction false} WavesAreFixed(c: Config, w0: World, log: seq<Action>, w: World)
    requires Run(c, w0, log) == Some(w)
    ensures w.rows.Keys == w0.rows.Keys && forall p :: p in w.rows ==> w.rows[p].wave == w0.rows[p].wave
  {
    hide Enabled, Effect;
    if log != [] {
      var v := Run(c, w0, log[..|log| - 1]).value;
      WavesAreFixed(c, w0, log[..|log| - 1], v);
      StepKeepsWaves(c, v, log[|log| - 1]);
    }
  }

  lemma StepKeepsWaves(c: Config, w: World, a: Action)
    requires Enabled(c, w, a)
    ensures var v := Effect(c, w, a);
      v.rows.Keys == w.rows.Keys && forall p :: p in v.rows ==> v.rows[p].wave == w.rows[p].wave
  {
    hide RunEnabled, SinkEnabled, RunEffect, SinkEffect, TallyOf, Desired, Converged;
    match a
    case OnRun(run) => RunKeepsRows(c, w, run);
    case OnRow(_, _) =>
    case OnSinks(sink) => SinkKeepsRows(c, w, sink);
  }
}
