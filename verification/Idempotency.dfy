/** Two-phase idempotency keys of document creation, as an interleaving of cache calls. */
module Idempotency {
  import opened Base
  import opened Runs
  import opened KeyStore

  type Tid = Uuid

  const PENDING_TTL_SECS: nat := 60
  const RESPONSE_TTL_SECS: nat := 86_400

  /** What the cache holds under an idempotency key. */
  datatype Mark = Pending | Response(body: string)

  /** A request with an idempotency key: inside `create_document_inner` since it reserved the key,
      or about to read the key it could not reserve. */
  datatype Task = Inside(key: string, since: nat) | Reading(key: string)

  datatype Outcome = Created(body: string) | Replayed(body: string) | Conflict | Failed

  /** `answers` records what every request was answered, in order. */
  datatype State = State(
    store: Store<Mark>,
    tasks: map<Tid, Task>,
    now: nat,
    answers: seq<(string, Outcome)>)

  datatype Step =
    | Reserve(t: Tid, key: string)
    | Read(t: Tid)
    | Succeed(t: Tid, body: string)
    | Fail(t: Tid)
    | Die(t: Tid)
    | Tick(secs: nat)

  predicate Enabled(s: State, step: Step) {
    match step
    case Reserve(t, _) => t !in s.tasks
    case Read(t) => t in s.tasks && s.tasks[t].Reading?
    case Succeed(t, _) => t in s.tasks && s.tasks[t].Inside?
    case Fail(t) => t in s.tasks && s.tasks[t].Inside?
    case Die(t) => t in s.tasks
    case Tick(_) => true
  }

  function Answer(s: State, t: Tid, o: Outcome): State
    requires t in s.tasks
  {
    s.(tasks := s.tasks - {t}, answers := s.answers + [(s.tasks[t].key, o)])
  }

  function After(s: State, step: Step): State
    requires Enabled(s, step)
  {
    match step
    case Reserve(t, key) =>
      s.(store := SetNx(s.store, s.now, key, Pending, PENDING_TTL_SECS),
         tasks := s.tasks[t := if Get(s.store, s.now, key).None? then Inside(key, s.now) else Reading(key)])
    case Read(t) =>
      var found: Option<Mark> := Get(s.store, s.now, s.tasks[t].key);
      if found.Some? && found.value.Response? then Answer(s, t, Replayed(found.value.body))
      else Answer(s, t, Conflict)
    case Succeed(t, body) =>
      var stored := SetWithTtl(s.store, s.now, s.tasks[t].key, Response(body), RESPONSE_TTL_SECS);
      Answer(s, t, Created(body)).(store := stored)
    case Fail(t) => Answer(s, t, Failed).(store := Del(s.store, s.tasks[t].key))
    case Die(t) => s.(tasks := s.tasks - {t})
    case Tick(secs) => s.(now := s.now + secs)
  }

  ghost predicate Init(s: State) { s.tasks == map[] && s.answers == [] }

  /** Request `t` is inside for `key`. */
  predicate InsideFor(s: State, t: Tid, key: string) {
    t in s.tasks && s.tasks[t].Inside? && s.tasks[t].key == key
  }

  ghost predicate AtMostOne(s: State, key: string) {
    forall t, u :: InsideFor(s, t, key) && InsideFor(s, u, key) ==> t == u
  }

  ghost predicate NobodyInside(s: State, key: string) { forall t :: !InsideFor(s, t, key) }

  /** At most one request is inside for `key`, and it owns the key's pending mark. */
  ghost predicate Inv(s: State, key: string) {
    && AtMostOne(s, key)
    && forall t :: InsideFor(s, t, key) ==>
         key in s.store && s.store[key] == Entry(Pending, s.tasks[t].since + PENDING_TTL_SECS)
  }

  /** The step reserves `key` while a request inside for it has outlived its reservation. */
  ghost predicate ReservesLate(s: State, step: Step, key: string) {
    && step.Reserve? && step.key == key
    && exists t :: InsideFor(s, t, key) && s.now >= s.tasks[t].since + 60
  }

  /** Every other step keeps the invariant of a key; that one puts a second request inside. */
  lemma StepInv(s: State, step: Step, key: string)
    requires Inv(s, key) && Enabled(s, step)
    ensures !ReservesLate(s, step, key) ==> Inv(After(s, step), key)
    ensures ReservesLate(s, step, key) ==> !AtMostOne(After(s, step), key)
  {
    if ReservesLate(s, step, key) {
      var t :| InsideFor(s, t, key) && s.now >= s.tasks[t].since + 60;
      assert InsideFor(After(s, step), t, key) && InsideFor(After(s, step), step.t, key);
    } else {
      forall t | InsideFor(After(s, step), t, key)
        ensures InsideFor(s, t, key) || (step.Reserve? && step.t == t && NobodyInside(s, key))
      {
      }
    }
  }

  // ---- Runs --------------------------------------------------------------------------------

  type History = Run<State, Step>

  ghost predicate IsRun(r: History) {
    && |r.states| == |r.steps| + 1 && Init(r.states[0])
    && forall i :: 0 <= i < |r.steps| ==>
         Enabled(r.states[i], r.steps[i]) && r.states[i + 1] == After(r.states[i], r.steps[i])
  }

  ghost predicate Continues(r: History, r': History) {
    IsRun(r) && IsRun(r') && Prolongs(r, r')
  }

  lemma Continue(r: History, step: Step) returns (r': History)
    requires IsRun(r) && Enabled(Now(r), step)
    ensures Continues(r, r') && Now(r') == After(Now(r), step)
    ensures r' == Run(r.states + [Now(r')], r.steps + [step])
  {
    r' := Run(r.states + [After(Now(r), step)], r.steps + [step]);
  }

  /** The run up to and including its first `n` states. */
  ghost function Until(r: History, n: nat): (p: History)
    requires IsRun(r) && 0 < n <= |r.states|
    ensures IsRun(p) && |p.states| == n && Now(p) == r.states[n - 1]
  {
    Run(r.states[..n], r.steps[..n - 1])
  }

  // ---- Who is inside -------------------------------------------------------------------------

  /** Up to state `n` there is never more than one request inside for `key`. */
  ghost predicate Single(r: History, n: nat, key: string)
    requires n < |r.states|
  {
    forall i :: 0 <= i <= n ==> AtMostOne(r.states[i], key)
  }

  /** Up to state `n` nobody reserves `key` while a request inside for it is late. Requests for other
      keys, and late ones that nobody collides with, do not matter. */
  ghost predicate Punctual(r: History, n: nat, key: string)
    requires n <= |r.states| && n <= |r.steps|
  {
    forall i :: 0 <= i < n ==> !ReservesLate(r.states[i], r.steps[i], key)
  }

  lemma {:induction false} RunInv(r: History, n: nat, key: string)
    requires IsRun(r) && n < |r.states| && Punctual(r, n, key)
    ensures Inv(r.states[n], key)
  {
    if n == 0 {
    } else {
      RunInv(r, n - 1, key);
      StepInv(r.states[n - 1], r.steps[n - 1], key);
    }
  }

  /** In every run there is at most one request inside for a key exactly as long as nobody reserves
      the key while a late request is inside for it. */
  lemma {:induction false} AtMostOneInside(r: History, n: nat, key: string)
    requires IsRun(r) && n < |r.states|
    ensures Single(r, n, key) <==> Punctual(r, n, key)
  {
    if n == 0 {
      RunInv(r, 0, key);
    } else {
      AtMostOneInside(r, n - 1, key);
      assert Single(r, n, key) <==> Single(r, n - 1, key) && AtMostOne(r.states[n], key);
      assert Punctual(r, n, key) <==> Punctual(r, n - 1, key) && !ReservesLate(r.states[n - 1], r.steps[n - 1], key);
      if Punctual(r, n - 1, key) {
        RunInv(r, n - 1, key);
        StepInv(r.states[n - 1], r.steps[n - 1], key);
      }
    }
  }

  /** As long as that lasts, a second request is admitted for the key of a request inside exactly when
      that request has outlived its reservation. */
  lemma AdmittedIffLate(r: History, n: nat, key: string, t: Tid, u: Tid)
    requires IsRun(r) && n < |r.states| && Punctual(r, n, key)
    requires InsideFor(r.states[n], t, key) && u !in r.states[n].tasks
    ensures var s := r.states[n];
      InsideFor(After(s, Reserve(u, key)), u, key) <==> s.now >= s.tasks[t].since + 60
  {
    RunInv(r, n, key);
  }

  /** It does not last: a second request can be inside with a fresh reservation. */
  lemma DoubleHappens(t: Tid, u: Tid, key: string) returns (r: History)
    requires t != u
    ensures IsRun(r) && InsideFor(Now(r), t, key) && InsideFor(Now(r), u, key) && Now(r).tasks[u].since == Now(r).now
  {
    r := Run([State(map[], map[], 0, [])], []);
    r := Continue(r, Reserve(t, key));
    r := Continue(r, Tick(PENDING_TTL_SECS));
    r := Continue(r, Reserve(u, key));
  }

  /** From then on, in every run, being in time protects nobody: when one of two requests fails, it
      deletes the mark of the other, and the next request gets inside at once. */
  lemma FailureAdmits(r: History, t: Tid, u: Tid, key: string) returns (r': History)
    requires IsRun(r) && t != u && InsideFor(Now(r), t, key) && InsideFor(Now(r), u, key)
    ensures Continues(r, r') && Now(r').now == Now(r).now
    ensures Now(r').tasks == Now(r).tasks[t := Inside(key, Now(r).now)]
  {
    r' := Continue(r, Fail(t));
    r' := Continue(r', Reserve(t, key));
  }

  // ---- What is stored ------------------------------------------------------------------------

  /** The response `body` is stored under `key` until time `expires`. */
  ghost predicate IsStored(s: State, key: string, body: string, expires: nat) {
    key in s.store && s.store[key] == Entry(Response(body), expires)
  }

  lemma {:induction false} RunStored(r: History, i: nat, k: nat, key: string, body: string, expires: nat)
    requires IsRun(r) && i <= k < |r.states| && r.states[k].now < expires
    requires IsStored(r.states[i], key, body, expires) && NobodyInside(r.states[i], key)
    ensures IsStored(r.states[k], key, body, expires) && NobodyInside(r.states[k], key)
    decreases k
  {
    if i == k {
    } else {
      assert r.states[k - 1].now <= r.states[k].now;
      RunStored(r, i, k - 1, key, body, expires);
      StepStored(r.states[k - 1], r.steps[k - 1], key, body, expires);
    }
  }

  lemma StepStored(s: State, step: Step, key: string, body: string, expires: nat)
    requires Enabled(s, step) && s.now < expires && IsStored(s, key, body, expires) && NobodyInside(s, key)
    ensures IsStored(After(s, step), key, body, expires) && NobodyInside(After(s, step), key)
  {
    forall t ensures !InsideFor(After(s, step), t, key) {
      assert !InsideFor(s, t, key);
    }
    if step.Succeed? || step.Fail? {
      assert !InsideFor(s, step.t, key);
    }
  }

  /** Whatever follows, the response is stored until it expires. */
  ghost predicate Stays(r: History, key: string, body: string, expires: nat) {
    forall r' :: Continues(r, r') && Now(r').now < expires ==> IsStored(Now(r'), key, body, expires)
  }

  /** In every run a stored response stays until it expires, whatever follows, exactly when nobody is
      inside for its key any more. */
  lemma StoredStays(r: History, key: string, body: string, expires: nat)
    requires IsRun(r) && IsStored(Now(r), key, body, expires) && Now(r).now < expires
    ensures Stays(r, key, body, expires) <==> NobodyInside(Now(r), key)
  {
    if t :| InsideFor(Now(r), t, key) {
      var r' := Continue(r, Fail(t));
      assert !IsStored(Now(r'), key, body, expires);
    } else {
      forall r' | Continues(r, r') && Now(r').now < expires ensures IsStored(Now(r'), key, body, expires) {
        RunStored(r', |r.states| - 1, |r'.states| - 1, key, body, expires);
      }
    }
  }

  /** Until it expires, nobody gets inside for that key again, and whoever reads the key is answered
      with exactly the stored body. */
  lemma ReplayedExactly(r: History, i: nat, k: nat, key: string, body: string, expires: nat)
    requires IsRun(r) && i <= k < |r.steps| && r.states[k].now < expires
    requires IsStored(r.states[i], key, body, expires) && NobodyInside(r.states[i], key)
    ensures NobodyInside(r.states[k], key)
    ensures r.steps[k].Reserve? && r.steps[k].key == key ==>
      r.states[k + 1].tasks[r.steps[k].t] == Reading(key)
    ensures ReadsAt(r, k, key) ==> r.states[k + 1].answers == r.states[k].answers + [(key, Replayed(body))]
  {
    RunStored(r, i, k, key, body, expires);
  }

  /** Step `k` is a request that could not reserve `key` reading it. */
  ghost predicate ReadsAt(r: History, k: nat, key: string)
    requires IsRun(r) && k < |r.steps|
  {
    r.steps[k].Read? && r.states[k].tasks[r.steps[k].t].key == key
  }

  /** Step `i` is the request inside for `key` finishing with `body`. */
  ghost predicate CreatesAt(r: History, i: nat, key: string, body: string)
    requires IsRun(r) && i < |r.steps|
  {
    r.steps[i].Succeed? && r.steps[i].body == body && r.states[i].tasks[r.steps[i].t].key == key
  }

  /** Whatever happens after step `i`, for a day whoever reads the key is answered with `body`. */
  ghost predicate IsReplayed(r: History, i: nat, key: string, body: string)
    requires IsRun(r) && i < |r.steps|
  {
    forall r', k | Continues(Until(r, i + 2), r') && i < k < |r'.steps| && ReadsAt(r', k, key)
      && r'.states[k].now < r.states[i].now + 86_400
      :: r'.states[k + 1].answers == r'.states[k].answers + [(key, Replayed(body))]
  }

  /** In every run, for a day whoever reads the key gets the very body its creator was answered with,
      whatever follows, exactly when the creator was the only request inside. */
  lemma CreatedIsReplayed(r: History, i: nat, key: string, body: string)
    requires IsRun(r) && i < |r.steps| && CreatesAt(r, i, key, body)
    ensures r.states[i + 1].answers == r.states[i].answers + [(key, Created(body))]
    ensures IsReplayed(r, i, key, body) <==> AtMostOne(r.states[i], key)
  {
    var p, t := Until(r, i + 2), r.steps[i].t;
    assert InsideFor(r.states[i], t, key);
    if AtMostOne(r.states[i], key) {
      LastOneLeaves(r.states[i], r.steps[i], key);
      forall r', k | Continues(p, r') && i < k < |r'.steps| && ReadsAt(r', k, key)
        && r'.states[k].now < r.states[i].now + 86_400
        ensures r'.states[k + 1].answers == r'.states[k].answers + [(key, Replayed(body))]
      {
        assert r'.states[i + 1] == Now(p);
        ReplayedExactly(r', i + 1, k, key, body, r.states[i].now + RESPONSE_TTL_SECS);
      }
    } else {
      var u :| InsideFor(r.states[i], u, key) && u != t;
      var r' := Overwrite(p, u, key, body + "!");
      assert |body + "!"| != |body|;
      assert r'.states[i + 4].answers[|r'.states[i + 3].answers|] == (key, Replayed(body + "!"));
    }
  }

  lemma LastOneLeaves(s: State, step: Step, key: string)
    requires Enabled(s, step) && step.Succeed? && s.tasks[step.t].key == key && AtMostOne(s, key)
    ensures NobodyInside(After(s, step), key)
  {
    forall u ensures !InsideFor(After(s, step), u, key) {
      assert InsideFor(s, step.t, key) && (InsideFor(s, u, key) ==> u == step.t);
    }
  }

  /** Another request inside stores its own response, and a reader gets that one. */
  lemma Overwrite(r: History, u: Tid, key: string, other: string) returns (r': History)
    requires IsRun(r) && InsideFor(Now(r), u, key)
    ensures var n := |r.steps|;
      && Continues(r, r') && |r'.steps| == n + 3 && ReadsAt(r', n + 2, key)
      && r'.states[n + 2].now == Now(r).now
      && r'.states[n + 3].answers == r'.states[n + 2].answers + [(key, Replayed(other))]
  {
    r' := Continue(r, Succeed(u, other));
    r' := Continue(r', Reserve(u, key));
    r' := Continue(r', Read(u));
  }

  /** A failed attempt releases its key, late or not: the next request for it gets inside. */
  lemma FailureReleases(r: History, i: nat, u: Tid)
    requires IsRun(r) && i < |r.steps| && r.steps[i].Fail? && u !in r.states[i + 1].tasks
    ensures var key := r.states[i].tasks[r.steps[i].t].key; var s := r.states[i + 1];
      After(s, Reserve(u, key)).tasks[u] == Inside(key, s.now)
  {
  }

  // ---- Attempts that die ---------------------------------------------------------------------

  /** The pending mark of an attempt that is no more. */
  ghost predicate Abandoned(s: State, key: string, expires: nat) {
    key in s.store && s.store[key] == Entry(Pending, expires) && NobodyInside(s, key)
  }

  /** A request for `key` gets inside at step `m`, after the mark has expired. */
  ghost predicate TakesOver(r: History, m: nat, key: string, expires: nat)
    requires IsRun(r) && m < |r.steps|
  {
    && r.steps[m].Reserve? && r.steps[m].key == key
    && r.states[m].now >= expires && r.states[m + 1].tasks[r.steps[m].t].Inside?
  }

  /** That happens between positions `i` and `k`. */
  ghost predicate TakenOver(r: History, i: nat, k: nat, key: string, expires: nat)
    requires IsRun(r) && k <= |r.steps|
  {
    exists m :: i <= m < k && TakesOver(r, m, key, expires)
  }

  lemma StepAbandoned(s: State, step: Step, key: string, expires: nat)
    requires Abandoned(s, key, expires) && Enabled(s, step)
    ensures Abandoned(After(s, step), key, expires)
      || (step.Reserve? && step.key == key && s.now >= expires && After(s, step).tasks[step.t].Inside?)
  {
    forall t | !InsideFor(s, t, key) ensures InsideFor(After(s, step), t, key) ==>
      step.Reserve? && step.key == key && s.now >= expires && step.t == t
    {
    }
    if step.Succeed? || step.Fail? {
      assert !InsideFor(s, step.t, key);
    }
  }

  lemma {:induction false} RunAbandoned(r: History, i: nat, k: nat, key: string, expires: nat)
    requires IsRun(r) && i <= k < |r.states| && Abandoned(r.states[i], key, expires)
    ensures Abandoned(r.states[k], key, expires) || TakenOver(r, i, k, key, expires)
    decreases k
  {
    if i == k {
    } else {
      RunAbandoned(r, i, k - 1, key, expires);
      if Abandoned(r.states[k - 1], key, expires) {
        StepAbandoned(r.states[k - 1], r.steps[k - 1], key, expires);
        assert Abandoned(r.states[k], key, expires) || TakesOver(r, k - 1, key, expires);
      }
    }
  }

  /** An attempt that dies inside blocks its key for the rest of its sixty seconds and no longer: until
      then a reader gets a conflict, from then on the next request gets inside, unless one already
      did. */
  lemma DeathFreesKey(r: History, i: nat, k: nat, u: Tid)
    requires IsRun(r) && i < k < |r.states| && r.steps[i].Die? && r.states[i].tasks[r.steps[i].t].Inside?
    requires Punctual(r, i, r.states[i].tasks[r.steps[i].t].key) && u !in r.states[k].tasks
    ensures var s, dead := r.states[k], r.states[i].tasks[r.steps[i].t];
      || TakenOver(r, i + 1, k, dead.key, dead.since + 60)
      || (After(s, Reserve(u, dead.key)).tasks[u].Inside? <==> s.now >= dead.since + 60)
  {
    var dead := r.states[i].tasks[r.steps[i].t];
    assert InsideFor(r.states[i], r.steps[i].t, dead.key);
    RunInv(r, i, dead.key);
    assert Abandoned(r.states[i + 1], dead.key, dead.since + PENDING_TTL_SECS);
    RunAbandoned(r, i + 1, k, dead.key, dead.since + PENDING_TTL_SECS);
  }

  // ---- The handler's cache calls ----------------------------------------------------------------

  /** The cache holds what the protocol state says. */
  ghost predicate Backs(cache: Cache<Mark>, s: State)
    reads cache
  {
    cache.entries == s.store && cache.now == s.now
  }

  /** Reserving the key is the protocol's first step: the answer says whether the request is inside. */
  method ReserveKey(cache: Cache<Mark>, key: string, ghost s: State, ghost t: Tid) returns (inside: bool)
    requires Backs(cache, s) && Enabled(s, Reserve(t, key))
    modifies cache`entries
    ensures Backs(cache, After(s, Reserve(t, key)))
    ensures inside <==> After(s, Reserve(t, key)).tasks[t].Inside?
  {
    inside := cache.Reserve(key, Pending, PENDING_TTL_SECS);
  }

  /** A request that was not let in answers the stored response or a conflict. */
  method AnswerReader(cache: Cache<Mark>, key: string, ghost s: State, ghost t: Tid) returns (o: Outcome)
    requires Backs(cache, s) && Enabled(s, Read(t)) && s.tasks[t].key == key
    ensures Backs(cache, After(s, Read(t))) && After(s, Read(t)).answers == s.answers + [(key, o)]
  {
    var found := cache.Read(key);
    match found {
      case Some(Response(body)) => o := Replayed(body);
      case _ => o := Conflict;
    }
  }

  /** Storing the response ends a successful attempt. */
  method StoreResponse(cache: Cache<Mark>, key: string, body: string, ghost s: State, ghost t: Tid)
    requires Backs(cache, s) && Enabled(s, Succeed(t, body)) && s.tasks[t].key == key
    modifies cache`entries
    ensures Backs(cache, After(s, Succeed(t, body)))
  {
    cache.Write(key, Response(body), RESPONSE_TTL_SECS);
  }

  /** Releasing the reservation ends a failed one. */
  method ReleaseKey(cache: Cache<Mark>, key: string, ghost s: State, ghost t: Tid)
    requires Backs(cache, s) && Enabled(s, Fail(t)) && s.tasks[t].key == key
    modifies cache`entries
    ensures Backs(cache, After(s, Fail(t)))
  {
    cache.Remove(key);
  }
}
