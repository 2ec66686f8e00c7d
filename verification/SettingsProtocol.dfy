/** Concurrent requests on the settings store: every database and cache call is a step of its own, and
    steps of different requests, and writes of other processes, come in any order. */
module SettingsProtocol {
  import opened Base
  import opened SettingsMerge
  import opened S = SettingsStore
  import opened Runs

  type Tid = Uuid
  type Bundle = map<string, Json>

  /** Where a bundle comes from: it was read as version `version` at time `read`. */
  datatype Origin = Origin(version: nat, read: nat)

  /** A resolve looks into the cache, reads the row, puts the bundle. A patch reads the row, writes it,
      drops the cache entry, and then resolves (`refill`, the system scope) or answers what it wrote. */
  datatype Task =
    | Looking(key: Key)
    | Missed(key: Key)
    | Holding(key: Key, values: Bundle, origin: Origin)
    | Merging(key: Key, base: Json, patch: Json, refill: bool)
    | Written(key: Key, values: Bundle, origin: Origin, refill: bool)

  datatype Cached = Cached(values: Bundle, origin: Origin, put: nat)

  /** A request was answered `values` at time `time`; `put` is when they were put into the cache, or
      answered if they never were. */
  datatype Answer = Answer(key: Key, values: Bundle, origin: Origin, put: nat, time: nat)

  datatype State = State(
    log: seq<Version>,
    cache: map<Key, Cached>,
    tasks: map<Tid, Task>,
    answers: seq<Answer>,
    now: nat)

  datatype Step =
    | Start(t: Tid, key: Key)
    | Look(t: Tid)
    | Read(t: Tid)
    | Put(t: Tid)
    | Fetch(t: Tid, key: Key, patch: Json, refill: bool)
    | Upsert(t: Tid)
    | Invalidate(t: Tid)
    | Foreign(key: Key, overrides: Json)
    | Fail(t: Tid)
    | Tick(ms: nat)

  /** The overrides stored now. */
  function Current(s: State): map<Key, Json> { if s.log == [] then map[] else s.log[|s.log| - 1].stored }

  predicate IsFresh(s: State, key: Key) { key in s.cache && s.now < s.cache[key].put + CACHE_TTL_MS }

  predicate Enabled(s: State, step: Step) {
    match step
    case Start(t, _) => t !in s.tasks
    case Look(t) => t in s.tasks && s.tasks[t].Looking?
    case Read(t) => t in s.tasks && s.tasks[t].Missed? && s.log != []
    case Put(t) => t in s.tasks && s.tasks[t].Holding?
    case Fetch(t, _, _, _) => t !in s.tasks
    case Upsert(t) => t in s.tasks && s.tasks[t].Merging?
    case Invalidate(t) => t in s.tasks && s.tasks[t].Written?
    case Foreign(_, _) => true
    case Fail(t) => t in s.tasks
    case Tick(_) => true
  }

  function Move(s: State, t: Tid, task: Task): State { s.(tasks := s.tasks[t := task]) }

  function Reply(s: State, t: Tid, a: Answer): State {
    s.(tasks := s.tasks - {t}, answers := s.answers + [a])
  }

  function Store(s: State, key: Key, overrides: Json): State {
    s.(log := s.log + [Version(s.now, Current(s)[key := overrides])])
  }

  function After(scope: Scope, s: State, step: Step): State
    requires Enabled(s, step)
  {
    match step
    case Start(t, key) => Move(s, t, Looking(key))
    case Look(t) =>
      var key := s.tasks[t].key;
      if IsFresh(s, key) then
        var c := s.cache[key];
        Reply(s, t, Answer(key, c.values, c.origin, c.put, s.now))
      else Move(s, t, Missed(key))
    case Read(t) =>
      var key := s.tasks[t].key;
      Move(s, t, Holding(key, Effective(scope, Current(s), key), Origin(|s.log| - 1, s.now)))
    case Put(t) =>
      var k := s.tasks[t];
      Reply(s, t, Answer(k.key, k.values, k.origin, s.now, s.now))
        .(cache := s.cache[k.key := Cached(k.values, k.origin, s.now)])
    case Fetch(t, key, patch, refill) =>
      Move(s, t, Merging(key, Stored(Current(s), key), patch, refill))
    case Upsert(t) =>
      var k := s.tasks[t];
      var overrides := ApplyPatch(k.base, k.patch);
      Move(Store(s, k.key, overrides), t,
           Written(k.key, MergeAndClamp(scope, overrides), Origin(|s.log|, s.now), k.refill))
    case Invalidate(t) =>
      var k := s.tasks[t];
      var dropped := s.(cache := s.cache - {k.key});
      if k.refill then Move(dropped, t, Looking(k.key))
      else Reply(dropped, t, Answer(k.key, k.values, k.origin, s.now, s.now))
    case Foreign(key, overrides) => Store(s, key, overrides)
    case Fail(t) => s.(tasks := s.tasks - {t})
    case Tick(ms) => s.(now := s.now + ms)
  }

  ghost predicate Init(s: State) {
    s.cache == map[] && s.tasks == map[] && s.answers == [] && |s.log| == 1 && s.log[0].since <= s.now
  }

  // ---- Where bundles come from -------------------------------------------------------------

  /** `values` was the effective bundle for `key` at the time it was read. */
  ghost predicate Genuine(scope: Scope, log: seq<Version>, key: Key, values: Bundle, o: Origin) {
    InForce(log, o.version, o.read) && values == Effective(scope, log[o.version].stored, key)
  }

  ghost predicate LogOk(s: State) {
    && s.log != [] && s.log[|s.log| - 1].since <= s.now
    && (forall i, j :: 0 <= i < j < |s.log| ==> s.log[i].since <= s.log[j].since)
  }

  ghost predicate TaskOk(scope: Scope, s: State, k: Task) {
    k.Holding? || k.Written? ==> k.origin.read <= s.now && Genuine(scope, s.log, k.key, k.values, k.origin)
  }

  ghost predicate CachedOk(scope: Scope, s: State, key: Key, c: Cached) {
    c.origin.read <= c.put <= s.now && Genuine(scope, s.log, key, c.values, c.origin)
  }

  /** An answer was in force when it was read, and was put into the cache less than ten seconds ago. */
  ghost predicate AnswerOk(scope: Scope, s: State, a: Answer) {
    && Genuine(scope, s.log, a.key, a.values, a.origin)
    && a.origin.read <= a.put <= a.time < a.put + CACHE_TTL_MS && a.time <= s.now
  }

  ghost predicate Inv(scope: Scope, s: State) {
    && LogOk(s)
    && (forall t :: t in s.tasks ==> TaskOk(scope, s, s.tasks[t]))
    && (forall key :: key in s.cache ==> CachedOk(scope, s, key, s.cache[key]))
    && (forall i :: 0 <= i < |s.answers| ==> AnswerOk(scope, s, s.answers[i]))
  }

  /** The log is extended at its end, at the current time, and time goes on. */
  ghost predicate Later(s: State, s': State) {
    && s.log <= s'.log && s.now <= s'.now
    && (forall i :: |s.log| <= i < |s'.log| ==> s'.log[i].since == s.now)
  }

  lemma StaysGenuine(scope: Scope, s: State, s': State, key: Key, values: Bundle, o: Origin)
    requires Later(s, s') && o.read <= s.now && Genuine(scope, s.log, key, values, o)
    ensures Genuine(scope, s'.log, key, values, o)
  {
  }

  lemma StepLater(scope: Scope, s: State, step: Step)
    requires LogOk(s) && Enabled(s, step)
    ensures Later(s, After(scope, s, step)) && LogOk(After(scope, s, step))
  {
  }

  lemma OldStayOk(scope: Scope, s: State, s': State)
    requires Inv(scope, s) && Later(s, s')
    ensures forall t :: t in s.tasks ==> TaskOk(scope, s', s.tasks[t])
    ensures forall key :: key in s.cache ==> CachedOk(scope, s', key, s.cache[key])
    ensures forall i :: 0 <= i < |s.answers| ==> AnswerOk(scope, s', s.answers[i])
  {
    forall t | t in s.tasks && (s.tasks[t].Holding? || s.tasks[t].Written?) ensures TaskOk(scope, s', s.tasks[t]) {
      StaysGenuine(scope, s, s', s.tasks[t].key, s.tasks[t].values, s.tasks[t].origin);
    }
    forall key | key in s.cache ensures CachedOk(scope, s', key, s.cache[key]) {
      StaysGenuine(scope, s, s', key, s.cache[key].values, s.cache[key].origin);
    }
    forall i | 0 <= i < |s.answers| ensures AnswerOk(scope, s', s.answers[i]) {
      StaysGenuine(scope, s, s', s.answers[i].key, s.answers[i].values, s.answers[i].origin);
    }
  }

  lemma StepTasks(scope: Scope, s: State, step: Step)
    requires Inv(scope, s) && Enabled(s, step) && Later(s, After(scope, s, step))
    requires forall t :: t in s.tasks ==> TaskOk(scope, After(scope, s, step), s.tasks[t])
    ensures var s' := After(scope, s, step); forall t :: t in s'.tasks ==> TaskOk(scope, s', s'.tasks[t])
  {
  }

  lemma StepCache(scope: Scope, s: State, step: Step)
    requires Inv(scope, s) && Enabled(s, step)
    requires forall key :: key in s.cache ==> CachedOk(scope, After(scope, s, step), key, s.cache[key])
    ensures var s' := After(scope, s, step); forall key :: key in s'.cache ==> CachedOk(scope, s', key, s'.cache[key])
  {
  }

  lemma StepAnswers(scope: Scope, s: State, step: Step)
    requires Inv(scope, s) && Enabled(s, step)
    requires forall i :: 0 <= i < |s.answers| ==> AnswerOk(scope, After(scope, s, step), s.answers[i])
    ensures var s' := After(scope, s, step); forall i :: 0 <= i < |s'.answers| ==> AnswerOk(scope, s', s'.answers[i])
  {
  }

  /** Every step keeps the invariant. */
  lemma StepInv(scope: Scope, s: State, step: Step)
    requires Inv(scope, s) && Enabled(s, step)
    ensures Inv(scope, After(scope, s, step))
  {
    StepLater(scope, s, step);
    OldStayOk(scope, s, After(scope, s, step));
    StepTasks(scope, s, step);
    StepCache(scope, s, step);
    StepAnswers(scope, s, step);
  }

  // ---- Runs --------------------------------------------------------------------------------

  type History = Run<State, Step>

  ghost predicate IsRun(scope: Scope, r: History) {
    && |r.states| == |r.steps| + 1 && Init(r.states[0])
    && forall i :: 0 <= i < |r.steps| ==>
         Enabled(r.states[i], r.steps[i]) && r.states[i + 1] == After(scope, r.states[i], r.steps[i])
  }

  lemma {:induction false} RunInv(scope: Scope, r: History, i: nat)
    requires IsRun(scope, r) && i < |r.states|
    ensures Inv(scope, r.states[i])
  {
    if i == 0 {
    } else {
      RunInv(scope, r, i - 1);
      StepInv(scope, r.states[i - 1], r.steps[i - 1]);
    }
  }

  /** In every run every answer was in force when its row was read, and is at most ten seconds older
      than the time between that read and the put. */
  lemma AnswersAreRecent(scope: Scope, r: History, i: nat, n: nat)
    requires IsRun(scope, r) && i < |r.states| && n < |r.states[i].answers|
    ensures var a := r.states[i].answers[n];
      && Genuine(scope, r.states[i].log, a.key, a.values, a.origin)
      && a.time - a.origin.read < 10_000 + (a.put - a.origin.read)
  {
    RunInv(scope, r, i);
  }

  /** No write of `key` later than time `last`. */
  ghost predicate QuietSince(log: seq<Version>, key: Key, last: nat) {
    forall n :: 0 < n < |log| && log[n].since > last ==> Stored(log[n].stored, key) == Stored(log[n - 1].stored, key)
  }

  lemma {:induction false} QuietKeeps(log: seq<Version>, key: Key, last: nat, i: nat, j: nat)
    requires i <= j < |log| && QuietSince(log, key, last) && (forall n :: i < n < |log| ==> log[n].since > last)
    ensures Stored(log[i].stored, key) == Stored(log[j].stored, key)
    decreases j
  {
    if i == j {
    } else {
      QuietKeeps(log, key, last, i, j - 1);
    }
  }

  /** When no read takes longer than `delay` to be put, every answer from ten seconds plus `delay` after
      the last write of its key on is the current bundle. */
  lemma CurrentAgain(scope: Scope, r: History, i: nat, n: nat, last: nat, delay: nat)
    requires IsRun(scope, r) && i < |r.states| && n < |r.states[i].answers|
    requires var a := r.states[i].answers[n];
      && QuietSince(r.states[i].log, a.key, last)
      && a.put - a.origin.read <= delay && a.time >= last + 10_000 + delay
    ensures var s := r.states[i];
      s.answers[n].values == Effective(scope, Current(s), s.answers[n].key)
  {
    var s := r.states[i];
    var a := s.answers[n];
    RunInv(scope, r, i);
    forall m | a.origin.version < m < |s.log| ensures s.log[m].since > last {
      LaterThanRead(s, a.origin, m);
    }
    QuietKeeps(s.log, a.key, last, a.origin.version, |s.log| - 1);
  }

  lemma LaterThanRead(s: State, o: Origin, m: nat)
    requires LogOk(s) && InForce(s.log, o.version, o.read) && o.version < m < |s.log|
    ensures s.log[m].since >= o.read
  {
    if m > o.version + 1 {
      assert s.log[o.version + 1].since <= s.log[m].since;
    }
  }

  // ---- When an answer can be stale -----------------------------------------------------------

  /** The task holds a bundle it will answer or put. */
  predicate Holds(k: Task) { k.Holding? || (k.Written? && !k.refill) }

  /** Whatever is cached and fresh for `key`, or on its way to the cache or to a caller, is what the
      store says now. */
  ghost predicate AllCurrent(scope: Scope, s: State, key: Key)
  {
    && (IsFresh(s, key) ==> s.cache[key].values == Effective(scope, Current(s), key))
    && (forall t :: t in s.tasks && Holds(s.tasks[t]) && s.tasks[t].key == key ==>
          s.tasks[t].values == Effective(scope, Current(s), key))
  }

  predicate Writes(step: Step) { step.Upsert? || step.Foreign? }

  /** `r'` continues `r` without another write. */
  ghost predicate ContinuesQuietly(scope: Scope, r: History, r': History) {
    && IsRun(scope, r) && IsRun(scope, r') && Prolongs(r, r')
    && (forall i :: |r.steps| <= i < |r'.steps| ==> !Writes(r'.steps[i]))
  }

  /** A request for `key` was answered since state `s` with something else than the current bundle. */
  ghost predicate StaleSince(scope: Scope, s: State, s': State, key: Key)
  {
    exists n :: |s.answers| <= n < |s'.answers| && s'.answers[n].key == key
      && s'.answers[n].values != Effective(scope, Current(s'), key)
  }

  lemma QuietStep(scope: Scope, s: State, step: Step, key: Key)
    requires Enabled(s, step) && !Writes(step) && AllCurrent(scope, s, key)
    ensures var s' := After(scope, s, step);
      && s'.log == s.log && s.answers <= s'.answers && AllCurrent(scope, s', key)
      && !StaleSince(scope, s, s', key)
  {
  }

  /** While nobody writes, a store and cache that agree keep agreeing. */
  lemma {:induction false} QuietRun(scope: Scope, r: History, r': History, k: nat, key: Key)
    requires ContinuesQuietly(scope, r, r') && |r.states| <= k + 1 <= |r'.states| && AllCurrent(scope, Now(r), key)
    ensures var s, s' := Now(r), r'.states[k];
      && s'.log == s.log && s.answers <= s'.answers && AllCurrent(scope, s', key)
      && !StaleSince(scope, s, s', key)
    decreases k
  {
    if k + 1 == |r.states| {
      assert r'.states[k] == Now(r);
    } else {
      QuietRun(scope, r, r', k - 1, key);
      QuietStep(scope, r'.states[k - 1], r'.steps[k - 1], key);
      StaleSplits(scope, Now(r), r'.states[k - 1], r'.states[k], key);
    }
  }

  lemma StaleSplits(scope: Scope, a: State, b: State, c: State, key: Key)
    requires c.log == b.log && a.answers <= b.answers <= c.answers
    requires !StaleSince(scope, a, b, key) && !StaleSince(scope, b, c, key)
    ensures !StaleSince(scope, a, c, key)
  {
    forall n | |a.answers| <= n < |c.answers| && c.answers[n].key == key
      ensures c.answers[n].values == Effective(scope, Current(c), key)
    {
      if n < |b.answers| { assert c.answers[n] == b.answers[n]; }
    }
  }

  lemma Continue(scope: Scope, r: History, step: Step) returns (r': History)
    requires IsRun(scope, r) && Enabled(Now(r), step)
    ensures IsRun(scope, r') && Prolongs(r, r') && r'.steps == r.steps + [step]
    ensures Now(r') == After(scope, Now(r), step)
  {
    r' := Run(r.states + [After(scope, Now(r), step)], r.steps + [step]);
  }

  /** A fresh entry is answered to whoever asks next. */
  lemma HitAnswers(scope: Scope, r: History, t: Tid, key: Key) returns (r': History)
    requires IsRun(scope, r) && t !in Now(r).tasks && IsFresh(Now(r), key)
    ensures IsRun(scope, r') && Prolongs(r, r') && r'.steps == r.steps + [Start(t, key), Look(t)]
    ensures Now(r').log == Now(r).log && |Now(r').answers| == |Now(r).answers| + 1
    ensures var a := Now(r').answers[|Now(r).answers|]; a.key == key && a.values == Now(r).cache[key].values
  {
    r' := Continue(scope, r, Start(t, key));
    r' := Continue(scope, r', Look(t));
  }

  /** A held bundle is what its request answers next. */
  lemma HeldAnswers(scope: Scope, r: History, t: Tid) returns (r': History, step: Step)
    requires IsRun(scope, r) && t in Now(r).tasks && Holds(Now(r).tasks[t])
    ensures IsRun(scope, r') && Prolongs(r, r') && r'.steps == r.steps + [step] && !Writes(step)
    ensures Now(r').log == Now(r).log && |Now(r').answers| == |Now(r).answers| + 1
    ensures var a := Now(r').answers[|Now(r).answers|];
      a.key == Now(r).tasks[t].key && a.values == Now(r).tasks[t].values
  {
    step := if Now(r).tasks[t].Holding? then Put(t) else Invalidate(t);
    r' := Continue(scope, r, step);
  }

  /** In every run, when nobody writes any more, a stale answer can still come exactly when a stale
      bundle is fresh in the cache or held by a request. */
  lemma StaleAnswerIff(scope: Scope, r: History, key: Key, t: Tid)
    requires IsRun(scope, r) && t !in Now(r).tasks
    ensures (exists r' :: ContinuesQuietly(scope, r, r') && StaleSince(scope, Now(r), Now(r'), key))
       <==> !AllCurrent(scope, Now(r), key)
  {
    var s := Now(r);
    if AllCurrent(scope, s, key) {
      forall r' | ContinuesQuietly(scope, r, r')
        ensures !StaleSince(scope, s, Now(r'), key)
      {
        QuietRun(scope, r, r', |r'.states| - 1, key);
      }
    } else {
      var r' := StaleComes(scope, r, key, t);
    }
  }

  lemma StaleComes(scope: Scope, r: History, key: Key, t: Tid) returns (r': History)
    requires IsRun(scope, r) && t !in Now(r).tasks && !AllCurrent(scope, Now(r), key)
    ensures ContinuesQuietly(scope, r, r') && StaleSince(scope, Now(r), Now(r'), key)
  {
    var s := Now(r);
    if IsFresh(s, key) && s.cache[key].values != Effective(scope, Current(s), key) {
      r' := HitAnswers(scope, r, t, key);
    } else {
      var u :| u in s.tasks && Holds(s.tasks[u]) && s.tasks[u].key == key
        && s.tasks[u].values != Effective(scope, Current(s), key);
      var step;
      r', step := HeldAnswers(scope, r, u);
    }
    assert Now(r').answers[|s.answers|].key == key;
  }

  /** The failing interleaving needs no second process: a resolve that has read its row is overtaken by
      a whole patch and then puts what it read, and the next request gets that. */
  lemma OvertakenRead(scope: Scope, r: History, t: Tid, u: Tid, v: Tid, patch: Json) returns (r': History)
    requires IsRun(scope, r) && t in Now(r).tasks && Now(r).tasks[t].Holding?
    requires u != v && u !in Now(r).tasks && v !in Now(r).tasks
    requires var k := Now(r).tasks[t];
      MergeAndClamp(scope, ApplyPatch(Stored(Current(Now(r)), k.key), patch)) != k.values
    ensures var k := Now(r).tasks[t];
      && IsRun(scope, r')
      && r'.steps == r.steps
        + [Fetch(u, k.key, patch, false), Upsert(u), Invalidate(u), Put(t), Start(v, k.key), Look(v)]
    ensures StaleSince(scope, Now(r), Now(r'), Now(r).tasks[t].key)
  {
    var k := Now(r).tasks[t];
    var p := PatchAndPut(scope, r, t, u, patch);
    r' := HitAnswers(scope, p, v, k.key);
    assert Now(r').answers[|Now(p).answers|].key == k.key;
  }

  lemma PatchAndPut(scope: Scope, r: History, t: Tid, u: Tid, patch: Json) returns (r': History)
    requires IsRun(scope, r) && t in Now(r).tasks && Now(r).tasks[t].Holding?
    requires u !in Now(r).tasks
    ensures var k := Now(r).tasks[t];
      && IsRun(scope, r')
      && r'.steps == r.steps + [Fetch(u, k.key, patch, false), Upsert(u), Invalidate(u), Put(t)]
    ensures var k, s' := Now(r).tasks[t], Now(r');
      && IsFresh(s', k.key) && s'.cache[k.key].values == k.values
      && Stored(Current(s'), k.key) == ApplyPatch(Stored(Current(Now(r)), k.key), patch)
      && s'.tasks.Keys == Now(r).tasks.Keys - {t} && |Now(r).answers| <= |s'.answers|
  {
    var k := Now(r).tasks[t];
    r' := Continue(scope, r, Fetch(u, k.key, patch, false));
    r' := Continue(scope, r', Upsert(u));
    r' := Continue(scope, r', Invalidate(u));
    r' := Continue(scope, r', Put(t));
  }

  // ---- Patches that overlap --------------------------------------------------------------------

  /** What a patch does not touch, its write leaves as it is stored exactly when that has not changed
      since the patch read the row. */
  lemma UpsertKeepsIff(scope: Scope, s: State, t: Tid, path: seq<string>)
    requires Enabled(s, Upsert(t)) && !Touches(s.tasks[t].patch, path)
    ensures var k, s' := s.tasks[t], After(scope, s, Upsert(t));
      Lookup(Stored(Current(s'), k.key), path) == Lookup(Stored(Current(s), k.key), path)
      <==> Lookup(k.base, path) == Lookup(Stored(Current(s), k.key), path)
  {
    UntouchedUnchanged(s.tasks[t].base, s.tasks[t].patch, path);
  }

  /** Two patches that both read before either writes: the first one's change is lost. */
  lemma LostPatch(scope: Scope, r: History, t: Tid, u: Tid, key: Key, first: Json, second: Json) returns (r': History)
    requires IsRun(scope, r) && t != u && t !in Now(r).tasks && u !in Now(r).tasks
    ensures IsRun(scope, r')
    ensures r'.steps == r.steps + [Fetch(t, key, first, true), Fetch(u, key, second, true), Upsert(t), Upsert(u)]
    ensures Stored(Current(Now(r')), key) == ApplyPatch(Stored(Current(Now(r)), key), second)
  {
    r' := BothFetch(scope, r, t, u, key, first, second);
    r' := Continue(scope, r', Upsert(t));
    r' := Continue(scope, r', Upsert(u));
  }

  lemma BothFetch(scope: Scope, r: History, t: Tid, u: Tid, key: Key, first: Json, second: Json) returns (r': History)
    requires IsRun(scope, r) && t != u && t !in Now(r).tasks && u !in Now(r).tasks
    ensures IsRun(scope, r')
    ensures r'.steps == r.steps + [Fetch(t, key, first, true), Fetch(u, key, second, true)]
    ensures var base := Stored(Current(Now(r)), key);
      Now(r').tasks == Now(r).tasks[t := Merging(key, base, first, true)][u := Merging(key, base, second, true)]
  {
    r' := Continue(scope, r, Fetch(t, key, first, true));
    r' := Continue(scope, r', Fetch(u, key, second, true));
  }
}
