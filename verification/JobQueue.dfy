/** The job stream: producers that enqueue, workers that read, reclaim, process and acknowledge,
    crashes at any point. */
module JobQueue {
  import opened Base
  import opened Runs

  type Job = Uuid
  type Consumer = Uuid
  type Tid = Uuid

  /** A pending entry idle this long counts as abandoned. */
  const CLAIM_MIN_IDLE_MS: nat := 300_000

  /** `enqueue` between its calls: row inserted, then `queued` published, then XADD. */
  datatype Producer = Inserted(job: Job) | Announced(job: Job)

  /** A worker reads, runs `process` on an entry it got at time `start`, then acknowledges it. */
  datatype Worker = Idle | Busy(entry: nat, start: nat) | Finished(entry: nat, start: nat)

  datatype Delivery = Delivery(owner: Consumer, since: nat)

  datatype Event = Queued(job: Job) | Progress(job: Job)

  /** Entries are numbered in stream order; those below `cursor` have been delivered. `finished`
      records the entries on which some worker ran `process` to its end; `jobs` and `consumers`
      record every job row and every consumer name ever used. */
  datatype State = State(
    stream: seq<Job>,
    cursor: nat,
    pending: map<nat, Delivery>,
    acked: set<nat>,
    finished: set<nat>,
    producers: map<Tid, Producer>,
    workers: map<Consumer, Worker>,
    jobs: set<Job>,
    consumers: set<Consumer>,
    events: seq<Event>,
    clock: nat)

  datatype Step =
    | Insert(p: Tid, job: Job)
    | Announce(p: Tid)
    | Add(p: Tid)
    | ProducerFails(p: Tid)
    | Spawn(c: Consumer)
    | Deliver(c: Consumer, decoded: bool)
    | Claim(c: Consumer, entry: nat, decoded: bool)
    | Report(c: Consumer)
    | Finish(c: Consumer)
    | Ack(c: Consumer)
    | AckFails(c: Consumer)
    | Crash(c: Consumer)
    | Tick(ms: nat)

  predicate Is(s: State, c: Consumer, w: Worker) { c in s.workers && s.workers[c] == w }

  predicate IsBusy(s: State, c: Consumer) { c in s.workers && s.workers[c].Busy? }

  predicate IsFinished(s: State, c: Consumer) { c in s.workers && s.workers[c].Finished? }

  predicate Stale(s: State, e: nat) {
    e in s.pending && s.pending[e].since + CLAIM_MIN_IDLE_MS <= s.clock
  }

  /** XAUTOCLAIM from the start of the pending list, one entry at a time. */
  predicate FirstStale(s: State, e: nat) {
    Stale(s, e) && forall f :: f in s.pending && f < e ==> !Stale(s, f)
  }

  predicate Enabled(s: State, step: Step) {
    match step
    case Insert(p, job) => p !in s.producers && job !in s.jobs
    case Announce(p) => p in s.producers && s.producers[p].Inserted?
    case Add(p) => p in s.producers && s.producers[p].Announced?
    case ProducerFails(p) => p in s.producers
    case Spawn(c) => c !in s.consumers
    case Deliver(c, _) => Is(s, c, Idle) && s.cursor < |s.stream|
    case Claim(c, e, _) => Is(s, c, Idle) && FirstStale(s, e)
    case Report(c) => IsBusy(s, c) && s.workers[c].entry < |s.stream|
    case Finish(c) => IsBusy(s, c)
    case Ack(c) => IsFinished(s, c)
    case AckFails(c) => IsFinished(s, c)
    case Crash(c) => c in s.workers
    case Tick(_) => true
  }

  /** An entry is handed to `c`; if it cannot be decoded, or the reply is lost, the server has
      recorded the delivery but the worker stays idle. */
  function HandOut(s: State, c: Consumer, e: nat, decoded: bool): State {
    s.(pending := s.pending[e := Delivery(c, s.clock)],
       workers := if decoded then s.workers[c := Busy(e, s.clock)] else s.workers)
  }

  function After(s: State, step: Step): State
    requires Enabled(s, step)
  {
    match step
    case Insert(p, job) => s.(producers := s.producers[p := Inserted(job)], jobs := s.jobs + {job})
    case Announce(p) =>
      var job := s.producers[p].job;
      s.(producers := s.producers[p := Announced(job)], events := s.events + [Queued(job)])
    case Add(p) => s.(producers := s.producers - {p}, stream := s.stream + [s.producers[p].job])
    case ProducerFails(p) => s.(producers := s.producers - {p})
    case Spawn(c) => s.(workers := s.workers[c := Idle], consumers := s.consumers + {c})
    case Deliver(c, decoded) => HandOut(s, c, s.cursor, decoded).(cursor := s.cursor + 1)
    case Claim(c, e, decoded) => HandOut(s, c, e, decoded)
    case Report(c) => s.(events := s.events + [Progress(s.stream[s.workers[c].entry])])
    case Finish(c) =>
      var w := s.workers[c];
      s.(workers := s.workers[c := Finished(w.entry, w.start)], finished := s.finished + {w.entry})
    case Ack(c) =>
      var e := s.workers[c].entry;
      s.(workers := s.workers[c := Idle], pending := s.pending - {e},
         acked := if e in s.pending then s.acked + {e} else s.acked)
    case AckFails(c) => s.(workers := s.workers[c := Idle])
    case Crash(c) => s.(workers := s.workers - {c})
    case Tick(ms) => s.(clock := s.clock + ms)
  }

  ghost predicate Init(s: State) {
    s == State([], 0, map[], {}, {}, map[], map[], {}, {}, [], 0)
  }

  // ---- The invariant -----------------------------------------------------------------------

  /** Every entry is undelivered, pending with its one owner, or acknowledged; never two of these. */
  ghost predicate PartitionOk(s: State) {
    && s.cursor <= |s.stream|
    && (forall e: nat :: e < s.cursor <==> e in s.pending || e in s.acked)
    && (forall e :: e in s.pending ==> e !in s.acked)
    && (forall e :: e in s.acked ==> e in s.finished)
    && (forall e :: e in s.finished ==> e < s.cursor)
  }

  /** Workers work on delivered entries; one done with `process` has left a record. */
  ghost predicate BusyOk(s: State) {
    && s.workers.Keys <= s.consumers
    && (forall c :: c in s.workers && !s.workers[c].Idle? ==>
          s.workers[c].entry < s.cursor && s.workers[c].start <= s.clock)
    && (forall c :: IsFinished(s, c) ==> s.workers[c].entry in s.finished)
  }

  /** A worker has had its entry no longer than the entry's last delivery. */
  ghost predicate DeliveriesOk(s: State) {
    && (forall e :: e in s.pending ==> s.pending[e].since <= s.clock)
    && (forall c :: c in s.workers && !s.workers[c].Idle? && s.workers[c].entry in s.pending ==>
          s.workers[c].start <= s.pending[s.workers[c].entry].since)
  }

  ghost predicate WorkersOk(s: State) { BusyOk(s) && DeliveriesOk(s) }

  /** Two workers on one entry started at least the reclaim time apart. */
  ghost predicate ApartOk(s: State) {
    forall c, d | c in s.workers && d in s.workers && c != d && !s.workers[c].Idle? && !s.workers[d].Idle? ::
      s.workers[c].entry == s.workers[d].entry ==>
        s.workers[c].start + CLAIM_MIN_IDLE_MS <= s.workers[d].start
        || s.workers[d].start + CLAIM_MIN_IDLE_MS <= s.workers[c].start
  }

  ghost predicate AnnouncedBefore(events: seq<Event>, job: Job, n: nat)
    requires n <= |events|
  {
    exists i :: 0 <= i < n && events[i] == Queued(job)
  }

  /** Whatever is on the stream or about to be was announced, and no worker event comes before its
      job's announcement. */
  ghost predicate EventsOk(s: State) {
    && (forall e :: 0 <= e < |s.stream| ==> AnnouncedBefore(s.events, s.stream[e], |s.events|))
    && (forall p :: p in s.producers && s.producers[p].Announced? ==>
          AnnouncedBefore(s.events, s.producers[p].job, |s.events|))
    && (forall k :: 0 <= k < |s.events| && s.events[k].Progress? ==> AnnouncedBefore(s.events, s.events[k].job, k))
  }

  /** A job is in one place: with one producer or in one entry. */
  ghost predicate PlacesOk(s: State) {
    && (forall p :: p in s.producers ==> s.producers[p].job in s.jobs)
    && (forall e :: 0 <= e < |s.stream| ==> s.stream[e] in s.jobs)
    && (forall p, q | p in s.producers && q in s.producers :: s.producers[p].job == s.producers[q].job ==> p == q)
    && (forall p, e | p in s.producers && 0 <= e < |s.stream| :: s.producers[p].job != s.stream[e])
    && (forall e, f :: 0 <= e < f < |s.stream| ==> s.stream[e] != s.stream[f])
  }

  /** A job is announced at most once, and not before its producer gets there. */
  ghost predicate QueuedOnce(s: State) {
    && (forall k :: 0 <= k < |s.events| ==> s.events[k].job in s.jobs)
    && (forall p, k | p in s.producers && s.producers[p].Inserted? && 0 <= k < |s.events| ::
          s.events[k].job != s.producers[p].job)
    && (forall i, k :: 0 <= i < k < |s.events| && s.events[i].Queued? ==> s.events[k] != s.events[i])
  }

  ghost predicate JobsOk(s: State) { PlacesOk(s) && QueuedOnce(s) }

  ghost predicate Inv(s: State) {
    PartitionOk(s) && WorkersOk(s) && ApartOk(s) && EventsOk(s) && JobsOk(s)
  }

  lemma InitInv(s: State)
    requires Init(s)
    ensures Inv(s)
  {
  }

  lemma StepPartition(s: State, step: Step)
    requires PartitionOk(s) && WorkersOk(s) && Enabled(s, step)
    ensures PartitionOk(After(s, step))
  {
  }

  lemma StepBusy(s: State, step: Step)
    requires PartitionOk(s) && BusyOk(s) && Enabled(s, step)
    ensures BusyOk(After(s, step))
  {
  }

  lemma StepDeliveries(s: State, step: Step)
    requires PartitionOk(s) && WorkersOk(s) && Enabled(s, step)
    ensures DeliveriesOk(After(s, step))
  {
  }

  lemma StepApart(s: State, step: Step)
    requires PartitionOk(s) && WorkersOk(s) && ApartOk(s) && Enabled(s, step)
    ensures ApartOk(After(s, step))
  {
  }

  lemma MoreEvents(events: seq<Event>, more: seq<Event>, job: Job, n: nat, m: nat)
    requires n <= |events| && n <= m <= |events + more| && AnnouncedBefore(events, job, n)
    ensures AnnouncedBefore(events + more, job, m)
  {
    var i :| 0 <= i < n && events[i] == Queued(job);
    assert (events + more)[i] == Queued(job);
  }

  lemma StepEvents(s: State, step: Step)
    requires EventsOk(s) && Enabled(s, step)
    ensures EventsOk(After(s, step))
  {
    var s' := After(s, step);
    var more := s'.events[|s.events|..];
    assert s'.events == s.events + more;
    forall job, n: nat, m: nat | n <= |s.events| && n <= m <= |s'.events| && AnnouncedBefore(s.events, job, n)
      ensures AnnouncedBefore(s'.events, job, m)
    {
      MoreEvents(s.events, more, job, n, m);
    }
    if step.Announce? {
      assert s'.events[|s.events|] == Queued(s.producers[step.p].job);
    }
  }

  lemma StepPlaces(s: State, step: Step)
    requires PlacesOk(s) && Enabled(s, step)
    ensures PlacesOk(After(s, step))
  {
  }

  lemma StepQueued(s: State, step: Step)
    requires JobsOk(s) && Enabled(s, step)
    ensures QueuedOnce(After(s, step))
  {
  }

  /** Every step keeps the invariant. */
  lemma StepInv(s: State, step: Step)
    requires Inv(s) && Enabled(s, step)
    ensures Inv(After(s, step))
  {
    StepPartition(s, step);
    StepBusy(s, step);
    StepDeliveries(s, step);
    StepApart(s, step);
    StepEvents(s, step);
    StepPlaces(s, step);
    StepQueued(s, step);
  }

  // ---- Runs --------------------------------------------------------------------------------

  type History = Run<State, Step>

  ghost predicate IsRun(r: History) {
    && |r.states| == |r.steps| + 1 && Init(r.states[0])
    && forall i :: 0 <= i < |r.steps| ==>
         Enabled(r.states[i], r.steps[i]) && r.states[i + 1] == After(r.states[i], r.steps[i])
  }

  lemma {:induction false} RunInv(r: History, i: nat)
    requires IsRun(r) && i < |r.states|
    ensures Inv(r.states[i])
  {
    if i == 0 {
      InitInv(r.states[0]);
    } else {
      RunInv(r, i - 1);
      StepInv(r.states[i - 1], r.steps[i - 1]);
    }
  }

  ghost predicate Undelivered(s: State, e: nat) { s.cursor <= e < |s.stream| }

  /** In every reachable state every entry of the stream is exactly one of undelivered, pending and
      acknowledged. */
  lemma EntryIsOneOf(r: History, i: nat, e: nat)
    requires IsRun(r) && i < |r.states| && e < |r.states[i].stream|
    ensures var s := r.states[i];
      || (Undelivered(s, e) && e !in s.pending && e !in s.acked)
      || (!Undelivered(s, e) && e in s.pending && e !in s.acked)
      || (!Undelivered(s, e) && e !in s.pending && e in s.acked)
  {
    RunInv(r, i);
  }

  /** Step `k` is some worker reaching the end of `process` on entry `e`. */
  ghost predicate FinishesAt(r: History, k: nat, e: nat)
    requires IsRun(r) && k < |r.steps|
  {
    r.steps[k].Finish? && IsBusy(r.states[k], r.steps[k].c) && r.states[k].workers[r.steps[k].c].entry == e
  }

  lemma {:induction false} FinishedHasStep(r: History, i: nat, e: nat) returns (k: nat)
    requires IsRun(r) && i < |r.states| && e in r.states[i].finished
    ensures k < i && k < |r.steps| && FinishesAt(r, k, e)
  {
    if i > 0 && e in r.states[i - 1].finished {
      k := FinishedHasStep(r, i - 1, e);
    } else {
      k := i - 1;
    }
  }

  /** An entry is acknowledged only after some worker ran `process` on it to the end. */
  lemma AckedAfterFinish(r: History, i: nat, e: nat)
    requires IsRun(r) && i < |r.states| && e in r.states[i].acked
    ensures exists k :: 0 <= k < i && k < |r.steps| && FinishesAt(r, k, e)
  {
    RunInv(r, i);
    var k := FinishedHasStep(r, i, e);
  }

  /** The first event of a job is its one `queued`: every event of a worker comes after it. */
  lemma QueuedComesFirst(r: History, i: nat, k: nat)
    requires IsRun(r) && i < |r.states| && k < |r.states[i].events| && r.states[i].events[k].Progress?
    ensures exists q :: 0 <= q < k && r.states[i].events[q] == Queued(r.states[i].events[k].job)
    ensures forall q :: k < q < |r.states[i].events| ==>
      r.states[i].events[q] != Queued(r.states[i].events[k].job)
  {
    RunInv(r, i);
    var events := r.states[i].events;
    assert AnnouncedBefore(events, events[k].job, k);
    var q :| 0 <= q < k && events[q] == Queued(events[k].job);
  }

  /** Two workers are on the same entry only if one of them started at least 300 s before the
      other: a run that takes less than the reclaim time is never doubled while it lasts. */
  lemma OverlapNeedsTimeout(r: History, i: nat, c: Consumer, d: Consumer)
    requires IsRun(r) && i < |r.states| && c != d
    requires c in r.states[i].workers && !r.states[i].workers[c].Idle?
    requires d in r.states[i].workers && !r.states[i].workers[d].Idle?
    requires r.states[i].workers[c].entry == r.states[i].workers[d].entry
    ensures var w, v := r.states[i].workers[c], r.states[i].workers[d];
      (w.start <= v.start ==> w.start + 300_000 <= r.states[i].clock)
      && (v.start <= w.start ==> v.start + 300_000 <= r.states[i].clock)
  {
    RunInv(r, i);
  }

  // ---- No entry is lost --------------------------------------------------------------------

  ghost predicate Continues(r: History, r': History) {
    IsRun(r) && IsRun(r') && Prolongs(r, r')
  }

  lemma Continue(r: History, step: Step) returns (r': History)
    requires IsRun(r) && Enabled(Now(r), step)
    ensures Continues(r, r') && Now(r') == After(Now(r), step)
  {
    r' := Run(r.states + [After(Now(r), step)], r.steps + [step]);
  }

  lemma StreamGrows(s: State, step: Step)
    requires Enabled(s, step)
    ensures s.stream <= After(s, step).stream
  {
  }

  lemma StaysOnStream(r: History, k: nat, e: nat)
    requires IsRun(r) && k < |r.steps| && e < |r.states[k].stream|
    ensures e < |r.states[k + 1].stream| && r.states[k + 1].stream[e] == r.states[k].stream[e]
  {
    StreamGrows(r.states[k], r.steps[k]);
  }

  lemma Waiting(s: State, e: nat)
    requires PartitionOk(s) && e < |s.stream|
    ensures Undelivered(s, e) || e in s.pending || e in s.finished
  {
  }

  /** Whatever crashes, an entry once on the stream is later still waiting (undelivered or pending)
      or was processed to the end. */
  lemma {:induction false} NeverLost(r: History, i: nat, k: nat, e: nat)
    requires IsRun(r) && i <= k < |r.states| && e < |r.states[i].stream|
    ensures e < |r.states[k].stream| && r.states[k].stream[e] == r.states[i].stream[e]
    ensures Undelivered(r.states[k], e) || e in r.states[k].pending || e in r.states[k].finished
    decreases k
  {
    RunInv(r, k);
    if i == k {
    } else {
      NeverLost(r, i, k - 1, e);
      StaysOnStream(r, k - 1, e);
    }
    Waiting(r.states[k], e);
  }

  ghost predicate AllStale(s: State) { forall e :: e in s.pending ==> Stale(s, e) }

  lemma {:induction false} LowestPending(s: State, e: nat) returns (f: nat)
    requires e in s.pending
    ensures f <= e && f in s.pending && forall g :: g in s.pending ==> f <= g
  {
    if g :| g in s.pending && g < e {
      f := LowestPending(s, g);
    } else {
      f := e;
    }
  }

  /** The sweep: reclaim, process and acknowledge the oldest entry until it is `e`'s turn. */
  lemma {:induction false} SweepReaches(r: History, e: nat, c: Consumer) returns (r': History)
    requires IsRun(r) && e in Now(r).pending && AllStale(Now(r)) && Is(Now(r), c, Idle)
    ensures Continues(r, r') && e in Now(r').acked
    decreases |Now(r).pending|
  {
    var f := LowestPending(Now(r), e);
    var swept := SweepOne(r, f, c);
    if f == e {
      r' := swept;
    } else {
      r' := SweepReaches(swept, e, c);
    }
  }

  lemma SweepOne(r: History, f: nat, c: Consumer) returns (r': History)
    requires IsRun(r) && FirstStale(Now(r), f) && Is(Now(r), c, Idle)
    ensures Continues(r, r') && f in Now(r').acked && Is(Now(r'), c, Idle)
    ensures Now(r').pending == Now(r).pending - {f} && Now(r').clock == Now(r).clock
    ensures Now(r').workers == Now(r).workers
  {
    r' := Continue(r, Claim(c, f, true));
    r' := Continue(r', Finish(c));
    r' := Continue(r', Ack(c));
  }

  /** However an entry came to be pending, a fresh worker's sweep can still reclaim, finish and
      acknowledge it: no crash strands it. */
  lemma PendingIsRecoverable(r: History, e: nat, c: Consumer) returns (r': History)
    requires IsRun(r) && e in Now(r).pending && c !in Now(r).consumers
    ensures Continues(r, r') && e in Now(r').acked
  {
    RunInv(r, |r.states| - 1);
    r' := Continue(r, Spawn(c));
    r' := Continue(r', Tick(CLAIM_MIN_IDLE_MS));
    r' := SweepReaches(r', e, c);
  }

  // ---- Two workers on one entry --------------------------------------------------------------

  /** Worker `c` is running `process` on entry `e`. */
  predicate On(s: State, c: Consumer, e: nat) { IsBusy(s, c) && s.workers[c].entry == e }

  lemma {:induction false} LowestStale(s: State, e: nat) returns (f: nat)
    requires Stale(s, e)
    ensures f <= e && FirstStale(s, f)
  {
    if g :| g in s.pending && g < e && Stale(s, g) {
      f := LowestStale(s, g);
    } else {
      f := e;
    }
  }

  /** The sweep of another worker arrives at an entry that is still being processed. */
  lemma {:induction false} SweepMeets(r: History, c: Consumer, d: Consumer, e: nat) returns (r': History)
    requires IsRun(r) && On(Now(r), c, e) && Stale(Now(r), e) && Is(Now(r), d, Idle)
    ensures Continues(r, r') && Now(r').clock == Now(r).clock && On(Now(r'), c, e) && On(Now(r'), d, e)
    decreases |Now(r).pending|
  {
    var f := LowestStale(Now(r), e);
    if f == e {
      r' := Continue(r, Claim(d, e, true));
    } else {
      var swept := SweepOne(r, f, d);
      r' := SweepMeets(swept, c, d, e);
    }
  }

  /** `d` may be handed an entry sooner or later: it runs, or its name is still to be used. */
  predicate CanTake(s: State, d: Consumer) { d in s.workers || d !in s.consumers }

  /** Such a worker can get idle without touching the pending list. */
  lemma GetIdle(r: History, d: Consumer) returns (r': History)
    requires IsRun(r) && CanTake(Now(r), d)
    ensures Continues(r, r') && Is(Now(r'), d, Idle)
    ensures Now(r').pending == Now(r).pending && Now(r').clock == Now(r).clock
    ensures forall c :: c in Now(r).workers && c != d ==> Is(Now(r'), c, Now(r).workers[c])
  {
    r' := r;
    if d !in Now(r).workers {
      r' := Continue(r', Spawn(d));
    } else {
      if IsBusy(Now(r'), d) {
        r' := Continue(r', Finish(d));
      }
      if IsFinished(Now(r'), d) {
        r' := Continue(r', AckFails(d));
      }
    }
  }

  /** Whoever is busy on a pending entry can be joined by any other worker at any time from 300 s after
      the entry's last delivery on. This needs a reclaim scan that sees the whole pending list: one that
      looks at its head only may not get to an entry behind many fresh ones. */
  lemma OverlapReached(r: History, c: Consumer, d: Consumer, time: nat) returns (r': History)
    requires IsRun(r) && IsBusy(Now(r), c) && Now(r).workers[c].entry in Now(r).pending
    requires CanTake(Now(r), d) && !On(Now(r), d, Now(r).workers[c].entry)
    requires time >= Now(r).clock && time >= Now(r).pending[Now(r).workers[c].entry].since + CLAIM_MIN_IDLE_MS
    ensures var e := Now(r).workers[c].entry;
      Continues(r, r') && Now(r').clock == time && On(Now(r'), c, e) && On(Now(r'), d, e)
  {
    r' := GetIdle(r, d);
    r' := Continue(r', Tick(time - Now(r).clock));
    r' := SweepMeets(r', c, d, Now(r).workers[c].entry);
  }

  /** Entry `e`, if it is pending, has not been delivered since `since`, and `d` is not on it. */
  ghost predicate Undisturbed(s: State, e: nat, since: nat, d: Consumer) {
    && e < s.cursor && !On(s, d, e)
    && (e in s.pending ==> s.pending[e].since == since)
  }

  lemma StepUndisturbed(s: State, step: Step, e: nat, since: nat, d: Consumer)
    requires Enabled(s, step) && Undisturbed(s, e, since, d) && s.clock < since + CLAIM_MIN_IDLE_MS
    ensures Undisturbed(After(s, step), e, since, d)
  {
  }

  /** Until the reclaim time has passed nobody joins. */
  lemma {:induction false} RunUndisturbed(r: History, i: nat, k: nat, e: nat, since: nat, d: Consumer)
    requires IsRun(r) && i <= k < |r.states| && Undisturbed(r.states[i], e, since, d)
    requires r.states[k].clock < since + CLAIM_MIN_IDLE_MS
    ensures Undisturbed(r.states[k], e, since, d)
    decreases k
  {
    if i == k {
    } else {
      ClockStep(r, k - 1);
      RunUndisturbed(r, i, k - 1, e, since, d);
      StepUndisturbed(r.states[k - 1], r.steps[k - 1], e, since, d);
    }
  }

  /** Entry `e` was acknowledged and `d` is not on it. */
  ghost predicate Gone(s: State, e: nat, d: Consumer) { e < s.cursor && !On(s, d, e) && e !in s.pending }

  lemma StepGone(s: State, step: Step, e: nat, d: Consumer)
    requires Enabled(s, step) && Gone(s, e, d)
    ensures Gone(After(s, step), e, d)
  {
  }

  /** An acknowledged entry is never handed out again. */
  lemma {:induction false} RunGone(r: History, i: nat, k: nat, e: nat, d: Consumer)
    requires IsRun(r) && i <= k < |r.states| && Gone(r.states[i], e, d)
    ensures Gone(r.states[k], e, d)
    decreases k
  {
    if i == k {
    } else {
      RunGone(r, i, k - 1, e, d);
      StepGone(r.states[k - 1], r.steps[k - 1], e, d);
    }
  }

  lemma ClockStep(r: History, k: nat)
    requires IsRun(r) && k < |r.steps|
    ensures r.states[k].clock <= r.states[k + 1].clock
  {
  }

  lemma {:induction false} ClockGrows(r: History, i: nat, k: nat)
    requires IsRun(r) && i <= k < |r.states|
    ensures r.states[i].clock <= r.states[k].clock
    decreases k
  {
    if i == k {
    } else {
      ClockGrows(r, i, k - 1);
      ClockStep(r, k - 1);
    }
  }

  lemma StepCrashed(s: State, step: Step, d: Consumer)
    requires Enabled(s, step) && s.workers.Keys <= s.consumers && !CanTake(s, d)
    ensures !CanTake(After(s, step), d)
  {
  }

  /** A crashed worker's name is never used again. */
  lemma {:induction false} RunCrashed(r: History, i: nat, k: nat, d: Consumer)
    requires IsRun(r) && i <= k < |r.states| && !CanTake(r.states[i], d)
    ensures !CanTake(r.states[k], d)
    decreases k
  {
    if i == k {
    } else {
      RunCrashed(r, i, k - 1, d);
      RunInv(r, k - 1);
      StepCrashed(r.states[k - 1], r.steps[k - 1], d);
    }
  }

  /** In every run, while a worker is busy on an entry, one that is not on it can newly join at a given
      time exactly when it has not crashed, the entry is still pending, and its last delivery is at
      least 300 s back then. */
  lemma OverlapIff(r: History, c: Consumer, d: Consumer, time: nat)
    requires IsRun(r) && IsBusy(Now(r), c) && !On(Now(r), d, Now(r).workers[c].entry)
    ensures var s := Now(r); var e := s.workers[c].entry;
      (exists r' :: Continues(r, r') && Now(r').clock == time && On(Now(r'), c, e) && On(Now(r'), d, e))
      <==> (CanTake(s, d) && e in s.pending && time >= s.clock && time >= s.pending[e].since + 300_000)
  {
    var s := Now(r);
    var e := s.workers[c].entry;
    RunInv(r, |r.states| - 1);
    if CanTake(s, d) && e in s.pending && time >= s.clock && time >= s.pending[e].since + CLAIM_MIN_IDLE_MS {
      var r' := OverlapReached(r, c, d, time);
    }
    forall r' | Continues(r, r') && On(Now(r'), d, e)
      ensures CanTake(s, d) && e in s.pending && Now(r').clock >= s.clock
      ensures Now(r').clock >= s.pending[e].since + CLAIM_MIN_IDLE_MS
    {
      OverlapWaits(r, r', d, e);
    }
  }

  lemma OverlapWaits(r: History, r': History, d: Consumer, e: nat)
    requires Continues(r, r') && e < Now(r).cursor && !On(Now(r), d, e) && On(Now(r'), d, e)
    ensures CanTake(Now(r), d) && e in Now(r).pending && Now(r').clock >= Now(r).clock
    ensures Now(r').clock >= Now(r).pending[e].since + CLAIM_MIN_IDLE_MS
  {
    var i, k := |r.states| - 1, |r'.states| - 1;
    assert r'.states[i] == Now(r);
    ClockGrows(r', i, k);
    if !CanTake(Now(r), d) {
      RunCrashed(r', i, k, d);
    } else if e !in Now(r).pending {
      RunGone(r', i, k, e, d);
    } else if Now(r').clock < Now(r).pending[e].since + CLAIM_MIN_IDLE_MS {
      RunUndisturbed(r', i, k, e, Now(r).pending[e].since, d);
    }
  }
}
