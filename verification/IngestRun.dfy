/** One ingest run: the stages it publishes, the document statuses it writes, and what it enqueues. */
module IngestRun {
  import opened Base

  datatype DocStatus = IndexedDoc | NeedsReviewDoc | FailedDoc

  datatype Stage = Stage(status: string, progress: int)

  const STAGES: seq<Stage> := [
    Stage("extract", 10), Stage("parse", 28), Stage("chunk", 40), Stage("contextualize", 60),
    Stage("embed", 85), Stage("index", 95), Stage("done", 100)]

  const FAILED := Stage("failed", 0)

  /** What a run leaves behind, in order: updates of its `jobs` row, progress events, document status
      writes, and the follow-up job. */
  datatype Effect = JobRow(stage: Stage) | Event(stage: Stage) | Document(status: DocStatus) | KnowledgeBuild

  /** How far `publish_progress` got: it writes the row, then publishes on one or two channels. */
  datatype Publish = Nothing | RowOnly | PartlySent | Sent

  /** The outcome of every call the run makes to the outside. `cancelled[i]` is what the check before
      stage `i` read, if the read worked; `persisted` is the persist transaction's review flag. */
  datatype World = World(
    payloadOk: bool,
    rowFound: bool,
    cancelled: seq<Option<bool>>,
    published: seq<Publish>,
    bytesOk: bool,
    parseOk: bool,
    persisted: Option<bool>,
    embedOk: bool,
    statusOk: bool,
    markOk: bool,
    failureSent: Publish,
    autoTopics: bool,
    enqueueOk: bool)

  predicate Complete(w: World) { |w.cancelled| == 7 && |w.published| == 7 }

  // ---- What a run does, as a list of actions ------------------------------------------------

  datatype Action = LoadRow | Announce(i: nat) | FetchBytes | Parse | Persist | Embed | WriteStatus

  /** The actions of `ingest_inner` that can end it. */
  const PIPELINE: seq<Action> := [
    LoadRow, Announce(0), FetchBytes, Announce(1), Parse, Announce(2), Persist, Announce(3), Embed,
    Announce(4), Announce(5), WriteStatus, Announce(6)]

  function PublishEffects(p: Publish, stage: Stage): seq<Effect> {
    match p
    case Nothing => []
    case RowOnly => [JobRow(stage)]
    case _ => [JobRow(stage), Event(stage)]
  }

  predicate Stops(w: World, i: nat)
    requires Complete(w) && i < 7
  {
    w.cancelled[i] == Some(true)
  }

  function FinalStatus(w: World): DocStatus {
    if w.persisted == Some(true) || !w.embedOk then NeedsReviewDoc else IndexedDoc
  }

  function Effects(w: World, a: Action): seq<Effect>
    requires Complete(w)
  {
    match a
    case Announce(i) => if i >= 7 || Stops(w, i) then [] else PublishEffects(w.published[i], STAGES[i])
    case WriteStatus => if w.statusOk then [Document(FinalStatus(w))] else []
    case _ => []
  }

  predicate Succeeds(w: World, a: Action)
    requires Complete(w)
  {
    match a
    case LoadRow => w.rowFound
    case Announce(i) => i < 7 && !Stops(w, i) && w.published[i] == Sent
    case FetchBytes => w.bytesOk
    case Parse => w.parseOk
    case Persist => w.persisted.Some?
    case Embed => true
    case WriteStatus => w.statusOk
  }

  /** Perform actions up to and including the first that fails. */
  function Perform(w: World, actions: seq<Action>): seq<Effect>
    requires Complete(w)
  {
    if actions == [] then []
    else Effects(w, actions[0]) + (if Succeeds(w, actions[0]) then Perform(w, actions[1..]) else [])
  }

  predicate AllSucceed(w: World, actions: seq<Action>)
    requires Complete(w)
  {
    actions == [] || (Succeeds(w, actions[0]) && AllSucceed(w, actions[1..]))
  }

  function FailureEffects(w: World): seq<Effect> {
    (if w.markOk then [Document(FailedDoc)] else []) + PublishEffects(w.failureSent, FAILED)
  }

  function FollowUp(w: World): seq<Effect> {
    if FinalStatus(w) == IndexedDoc && w.autoTopics && w.enqueueOk then [KnowledgeBuild] else []
  }

  /** Everything a run leaves behind. */
  function Trace(w: World): seq<Effect>
    requires Complete(w)
  {
    if !w.payloadOk then []
    else if AllSucceed(w, PIPELINE) then Perform(w, PIPELINE) + FollowUp(w)
    else Perform(w, PIPELINE) + FailureEffects(w)
  }

  predicate Succeeded(w: World)
    requires Complete(w)
  {
    w.payloadOk && AllSucceed(w, PIPELINE)
  }

  /** `log` is what the first `k` actions left behind, and all of them succeeded. */
  ghost predicate Reached(w: World, k: nat, log: seq<Effect>)
    requires Complete(w)
  {
    k <= |PIPELINE| && AllSucceed(w, PIPELINE[..k]) && log == Perform(w, PIPELINE[..k])
  }

  lemma {:induction false} PerformSplits(w: World, done: seq<Action>, rest: seq<Action>)
    requires Complete(w)
    ensures AllSucceed(w, done + rest) == (AllSucceed(w, done) && AllSucceed(w, rest))
    ensures AllSucceed(w, done) ==> Perform(w, done + rest) == Perform(w, done) + Perform(w, rest)
  {
    if done == [] {
      assert done + rest == rest;
    } else {
      assert (done + rest)[1..] == done[1..] + rest;
      PerformSplits(w, done[1..], rest);
    }
  }

  /** Action `k` succeeded: its effects are appended. */
  lemma GoOn(w: World, k: nat, log: seq<Effect>)
    requires Complete(w) && Reached(w, k, log) && k < |PIPELINE| && Succeeds(w, PIPELINE[k])
    ensures Reached(w, k + 1, log + Effects(w, PIPELINE[k]))
  {
    PerformOne(w, PIPELINE[..k], PIPELINE[k]);
    TakeOneMore(PIPELINE, k);
  }

  lemma TakeOneMore<T>(s: seq<T>, k: nat)
    requires k < |s|
    ensures s[..k + 1] == s[..k] + [s[k]]
  {
  }

  lemma PerformOne(w: World, done: seq<Action>, a: Action)
    requires Complete(w) && AllSucceed(w, done)
    ensures AllSucceed(w, done + [a]) == Succeeds(w, a)
    ensures Succeeds(w, a) ==> Perform(w, done + [a]) == Perform(w, done) + Effects(w, a)
  {
    PerformSplits(w, done, [a]);
    assert Perform(w, [a]) == Effects(w, a) + [] == Effects(w, a);
  }

  /** Action `k` failed: the pipeline ends with what it left behind. */
  lemma StopAt(w: World, k: nat, log: seq<Effect>)
    requires Complete(w) && Reached(w, k, log) && k < |PIPELINE| && !Succeeds(w, PIPELINE[k])
    ensures !AllSucceed(w, PIPELINE) && Perform(w, PIPELINE) == log + Effects(w, PIPELINE[k])
  {
    PerformSplits(w, PIPELINE[..k], PIPELINE[k..]);
    assert PIPELINE == PIPELINE[..k] + PIPELINE[k..];
    assert PIPELINE[k..][0] == PIPELINE[k];
  }

  // ---- The run, statement by statement --------------------------------------------------------

  class Run {
    const w: World
    var log: seq<Effect>

    constructor (w: World)
      requires Complete(w)
      ensures this.w == w && log == []
    {
      this.w, log := w, [];
    }

    method PublishProgress(p: Publish, stage: Stage) returns (ok: bool)
      modifies this`log
      ensures log == old(log) + PublishEffects(p, stage) && ok == (p == Sent)
    {
      if p == Nothing { return false; }
      log := log + [JobRow(stage)];
      if p == RowOnly { return false; }
      log := log + [Event(stage)];
      return p == Sent;
    }

    /** `stage`: give up when the job was cancelled (an unreadable status counts as not cancelled),
        else publish. */
    method EnterStage(i: nat) returns (ok: bool)
      requires Complete(w) && i < 7
      modifies this`log
      ensures log == old(log) + Effects(w, Announce(i)) && ok == Succeeds(w, Announce(i))
    {
      var cancelled := match w.cancelled[i] case Some(c) => c case None => false;
      if cancelled { return false; }
      ok := PublishProgress(w.published[i], STAGES[i]);
    }

    /** A call that leaves nothing behind: only its outcome matters. */
    method Call(ghost k: nat, ok: bool)
      requires Complete(w) && k < |PIPELINE| && Reached(w, k, log)
      requires Effects(w, PIPELINE[k]) == [] && ok == Succeeds(w, PIPELINE[k])
      ensures ok ==> Reached(w, k + 1, log)
      ensures !ok ==> Stopped()
    {
      assert log + [] == log;
      if ok { GoOn(w, k, log); } else { StopAt(w, k, log); }
    }

    /** The pipeline ended before its last action. */
    ghost predicate Stopped()
      requires Complete(w)
      reads this
    {
      !AllSucceed(w, PIPELINE) && log == Perform(w, PIPELINE)
    }

    method Enter(ghost k: nat, i: nat) returns (ok: bool)
      requires Complete(w) && k < |PIPELINE| && PIPELINE[k] == Announce(i) && i < 7 && Reached(w, k, log)
      modifies this`log
      ensures ok ==> Reached(w, k + 1, log)
      ensures !ok ==> Stopped()
    {
      ghost var before := log;
      ok := EnterStage(i);
      if ok { GoOn(w, k, before); } else { StopAt(w, k, before); }
    }

    /** `ingest_inner` up to the download of the document. */
    method Fetch() returns (ok: bool)
      requires Complete(w) && log == []
      modifies this`log
      ensures if ok then Reached(w, 3, log) else Stopped()
    {
      Call(0, w.rowFound);
      if !w.rowFound { return false; }
      ok := Enter(1, 0);
      if !ok { return; }
      Call(2, w.bytesOk);
      ok := w.bytesOk;
    }

    /** From the parse stage to the persist transaction. */
    method ParseAndPersist() returns (ok: bool)
      requires Complete(w) && Reached(w, 3, log)
      modifies this`log
      ensures if ok then Reached(w, 7, log) else Stopped()
    {
      ok := Enter(3, 1);
      if !ok { return; }
      Call(4, w.parseOk);
      if !w.parseOk { return false; }
      ok := Enter(5, 2);
      if !ok { return; }
      ok := w.persisted.Some?;
      Call(6, ok);
    }

    /** From the contextualize stage to done; a failed embedding does not end the run. */
    method Index() returns (ok: bool)
      requires Complete(w) && Reached(w, 7, log)
      modifies this`log
      ensures if ok then Reached(w, 13, log) else Stopped()
    {
      ok := Enter(7, 3);
      if !ok { return; }
      Call(8, true);
      ok := Enter(9, 4);
      if !ok { return; }
      ok := Enter(10, 5);
      if !ok { return; }
      ghost var before := log;
      if !w.statusOk {
        StopAt(w, 11, before);
        return false;
      }
      log := log + [Document(if w.persisted == Some(true) || !w.embedOk then NeedsReviewDoc else IndexedDoc)];
      GoOn(w, 11, before);
      ok := Enter(12, 6);
    }

    /** `run_ingest`: the pipeline, then the best-effort follow-up or the best-effort failure marks. */
    method RunIngest() returns (ok: bool)
      requires Complete(w) && log == []
      modifies this`log
      ensures log == Trace(w) && ok == Succeeded(w)
    {
      if !w.payloadOk { return false; }
      ok := Fetch();
      if ok {
        ok := ParseAndPersist();
      }
      if ok {
        ok := Index();
      }
      if ok {
        assert PIPELINE[..13] == PIPELINE;
        if FinalStatus(w) == IndexedDoc && w.autoTopics && w.enqueueOk {
          log := log + [KnowledgeBuild];
        }
      } else {
        MarkFailed();
      }
    }

    /** The best-effort failure marks. */
    method MarkFailed()
      modifies this`log
      ensures log == old(log) + FailureEffects(w)
    {
      if w.markOk {
        log := log + [Document(FailedDoc)];
      }
      var _ := PublishProgress(w.failureSent, FAILED);
    }
  }

  // ---- What every run guarantees -----------------------------------------------------------------

  /** Where a stage is recorded: in the `jobs` row, or in the events about the job. */
  datatype Record = Rows | Events

  function StageIn(record: Record, e: Effect): seq<Stage> {
    match e
    case JobRow(stage) => if record == Rows then [stage] else []
    case Event(stage) => if record == Events then [stage] else []
    case _ => []
  }

  function StatusOf(e: Effect): seq<DocStatus> { if e.Document? then [e.status] else [] }

  function Recorded(record: Record, log: seq<Effect>): seq<Stage> {
    if log == [] then [] else StageIn(record, log[0]) + Recorded(record, log[1..])
  }

  /** The stages whose events were published, in order. */
  function Published(log: seq<Effect>): seq<Stage> { Recorded(Events, log) }

  /** The stages the `jobs` row went through, in order. */
  function JobRows(log: seq<Effect>): seq<Stage> { Recorded(Rows, log) }

  /** The document statuses written, in order. */
  function Statuses(log: seq<Effect>): seq<DocStatus> {
    if log == [] then [] else StatusOf(log[0]) + Statuses(log[1..])
  }

  lemma {:induction false} RecordedConcat(record: Record, a: seq<Effect>, b: seq<Effect>)
    ensures Recorded(record, a + b) == Recorded(record, a) + Recorded(record, b)
  {
    if a == [] {
      assert a + b == b;
    } else {
      assert (a + b)[1..] == a[1..] + b;
      RecordedConcat(record, a[1..], b);
      ConcatAssociates(StageIn(record, a[0]), Recorded(record, a[1..]), Recorded(record, b));
    }
  }

  lemma {:induction false} StatusesConcat(a: seq<Effect>, b: seq<Effect>)
    ensures Statuses(a + b) == Statuses(a) + Statuses(b)
  {
    if a == [] {
      assert a + b == b;
    } else {
      assert (a + b)[1..] == a[1..] + b;
      StatusesConcat(a[1..], b);
      ConcatAssociates(StatusOf(a[0]), Statuses(a[1..]), Statuses(b));
    }
  }

  predicate Reaches(record: Record, p: Publish) {
    p == PartlySent || p == Sent || (p == RowOnly && record == Rows)
  }

  lemma PublishFacts(record: Record, p: Publish, stage: Stage)
    ensures Recorded(record, PublishEffects(p, stage)) == if Reaches(record, p) then [stage] else []
    ensures Statuses(PublishEffects(p, stage)) == [] && KnowledgeBuild !in PublishEffects(p, stage)
  {
    var row, event := [JobRow(stage)], [Event(stage)];
    assert Recorded(record, row) == if record == Rows then [stage] else [];
    assert Recorded(record, event) == if record == Events then [stage] else [];
    assert Statuses(row) == [] && Statuses(event) == [];
    assert [JobRow(stage), Event(stage)] == row + event;
    RecordedConcat(record, row, event);
    StatusesConcat(row, event);
  }

  function StageOf(a: Action): seq<Stage> { if a.Announce? && a.i < 7 then [STAGES[a.i]] else [] }

  /** The stages the actions announce, in order. */
  function StagesOf(actions: seq<Action>): seq<Stage> {
    if actions == [] then [] else StageOf(actions[0]) + StagesOf(actions[1..])
  }

  lemma OneAction(record: Record, w: World, a: Action)
    requires Complete(w)
    ensures Recorded(record, Effects(w, a)) <= StageOf(a)
    ensures Succeeds(w, a) ==> Recorded(record, Effects(w, a)) == StageOf(a)
    ensures KnowledgeBuild !in Effects(w, a)
    ensures Statuses(Effects(w, a)) == StatusesOf(w, a)
  {
    if a.Announce? && a.i < 7 {
      PublishFacts(record, w.published[a.i], STAGES[a.i]);
    }
  }

  function StatusesOf(w: World, a: Action): seq<DocStatus> {
    if a.WriteStatus? && w.statusOk then [FinalStatus(w)] else []
  }

  /** What is recorded is a prefix of what the actions announce, all of it if none fails. */
  lemma {:induction false} RecordsPrefix(record: Record, w: World, actions: seq<Action>)
    requires Complete(w)
    ensures Recorded(record, Perform(w, actions)) <= StagesOf(actions)
    ensures AllSucceed(w, actions) ==> Recorded(record, Perform(w, actions)) == StagesOf(actions)
    ensures KnowledgeBuild !in Perform(w, actions)
  {
    if actions == [] {
    } else {
      var a, rest := actions[0], actions[1..];
      var more := if Succeeds(w, a) then Perform(w, rest) else [];
      OneAction(record, w, a);
      RecordsPrefix(record, w, rest);
      RecordedConcat(record, Effects(w, a), more);
      PrefixConcat(Recorded(record, Effects(w, a)), StageOf(a), Succeeds(w, a),
                   Recorded(record, Perform(w, rest)), StagesOf(rest));
    }
  }

  lemma PrefixConcat<T>(a: seq<T>, x: seq<T>, whole: bool, b: seq<T>, y: seq<T>)
    requires a <= x && b <= y && (whole ==> a == x)
    ensures a + (if whole then b else []) <= x + y
  {
    assert a + [] == a;
  }

  function AllStatuses(w: World, actions: seq<Action>): seq<DocStatus> {
    if actions == [] then [] else StatusesOf(w, actions[0]) + AllStatuses(w, actions[1..])
  }

  lemma {:induction false} WritesStatuses(w: World, actions: seq<Action>)
    requires Complete(w) && AllSucceed(w, actions)
    ensures Statuses(Perform(w, actions)) == AllStatuses(w, actions)
  {
    if actions == [] {
    } else {
      OneAction(Events, w, actions[0]);
      WritesStatuses(w, actions[1..]);
      StatusesConcat(Effects(w, actions[0]), Perform(w, actions[1..]));
    }
  }

  /** How many stages the actions before position `k` announce. */
  function AnnouncedBefore(k: nat): nat {
    if k <= 1 then 0 else if k <= 3 then 1 else if k <= 5 then 2 else if k <= 7 then 3
    else if k <= 9 then 4 else if k <= 10 then 5 else if k <= 12 then 6 else 7
  }

  lemma {:induction false} StagesConcat(a: seq<Action>, b: seq<Action>)
    ensures StagesOf(a + b) == StagesOf(a) + StagesOf(b)
  {
    if a == [] {
      assert a + b == b;
    } else {
      assert (a + b)[1..] == a[1..] + b;
      StagesConcat(a[1..], b);
    }
  }

  lemma {:induction false} StagesUpTo(k: nat)
    requires k <= 13
    ensures StagesOf(PIPELINE[..k]) == STAGES[..AnnouncedBefore(k)]
  {
    if k == 0 {
    } else {
      StagesUpTo(k - 1);
      TakeOneMore(PIPELINE, k - 1);
      StagesConcat(PIPELINE[..k - 1], [PIPELINE[k - 1]]);
      StagesOfOne(PIPELINE[k - 1]);
      OneStage(k - 1);
    }
  }

  lemma StagesOfOne(a: Action)
    ensures StagesOf([a]) == StageOf(a)
  {
    assert StageOf(a) + [] == StageOf(a);
  }

  lemma OneStage(k: nat)
    requires k < 13
    ensures STAGES[..AnnouncedBefore(k + 1)] == STAGES[..AnnouncedBefore(k)] + StageOf(PIPELINE[k])
  {
  }

  lemma {:induction false} StatusesSnoc(w: World, actions: seq<Action>, a: Action)
    ensures AllStatuses(w, actions + [a]) == AllStatuses(w, actions) + StatusesOf(w, a)
  {
    if actions == [] {
      assert [] + [a] == [a];
    } else {
      assert (actions + [a])[1..] == actions[1..] + [a];
      StatusesSnoc(w, actions[1..], a);
    }
  }

  lemma {:induction false} StatusesUpTo(w: World, k: nat)
    requires k <= 13
    ensures AllStatuses(w, PIPELINE[..k]) == if k >= 12 then StatusesOf(w, WriteStatus) else []
  {
    if k == 0 {
    } else {
      StatusesUpTo(w, k - 1);
      TakeOneMore(PIPELINE, k - 1);
      StatusesSnoc(w, PIPELINE[..k - 1], PIPELINE[k - 1]);
      OneStatus(w, k - 1);
    }
  }

  lemma OneStatus(w: World, k: nat)
    requires k < 13
    ensures k != 11 ==> StatusesOf(w, PIPELINE[k]) == []
    ensures PIPELINE[11] == WriteStatus
  {
  }

  lemma PipelineAnnounces()
    ensures StagesOf(PIPELINE) == STAGES
  {
    StagesUpTo(13);
    Whole(PIPELINE);
    Whole(STAGES);
  }

  lemma Whole<T>(s: seq<T>)
    ensures s[..|s|] == s
  {
  }

  lemma RecordsSome(record: Record, w: World, actions: seq<Action>, stages: seq<Stage>) returns (n: nat)
    requires Complete(w) && StagesOf(actions) == stages
    ensures n <= |stages| && Recorded(record, Perform(w, actions)) == stages[..n]
    ensures AllSucceed(w, actions) ==> n == |stages|
    ensures KnowledgeBuild !in Perform(w, actions)
  {
    RecordsPrefix(record, w, actions);
    n := |Recorded(record, Perform(w, actions))|;
  }

  lemma PipelineRecords(record: Record, w: World) returns (n: nat)
    requires Complete(w)
    ensures n <= 7 && Recorded(record, Perform(w, PIPELINE)) == STAGES[..n] && (AllSucceed(w, PIPELINE) ==> n == 7)
    ensures KnowledgeBuild !in Perform(w, PIPELINE)
  {
    PipelineAnnounces();
    n := RecordsSome(record, w, PIPELINE, STAGES);
  }

  lemma PipelineWrites(w: World)
    requires Complete(w) && AllSucceed(w, PIPELINE)
    ensures Statuses(Perform(w, PIPELINE)) == [FinalStatus(w)]
  {
    WritesStatuses(w, PIPELINE);
    StatusesUpTo(w, 13);
    assert PIPELINE[..13] == PIPELINE;
    SucceededHere(w, PIPELINE[..11], WriteStatus, PIPELINE[12..]);
  }

  // ---- The guarantees ----------------------------------------------------------------------------

  /** Both the row and the events go through a prefix of 10, 28, 40, 60, 85, 95, 100, the row never
      behind the events and at most one stage ahead; a run that fails after its payload was read may add
      `failed` to each, and nothing comes after that. */
  lemma StagesInOrder(w: World) returns (m: nat, n: nat)
    requires Complete(w)
    ensures n <= m <= 7 && m <= n + 1
    ensures JobRows(Trace(w)) == STAGES[..m] + FailedIn(Rows, w)
    ensures Published(Trace(w)) == STAGES[..n] + FailedIn(Events, w)
    ensures Succeeded(w) ==> n == 7
  {
    m := RecordedInOrder(Rows, w);
    n := RecordedInOrder(Events, w);
    RowLeads(w, PIPELINE);
    assert !w.payloadOk ==> m == n == 0;
  }

  /** What the failure marks add to a record. */
  function FailedIn(record: Record, w: World): seq<Stage>
    requires Complete(w)
  {
    if w.payloadOk && !Succeeded(w) && Reaches(record, w.failureSent) then [FAILED] else []
  }

  lemma RecordedInOrder(record: Record, w: World) returns (n: nat)
    requires Complete(w)
    ensures n <= 7 && Recorded(record, Trace(w)) == STAGES[..n] + FailedIn(record, w)
    ensures n == if w.payloadOk then |Recorded(record, Perform(w, PIPELINE))| else 0
    ensures Succeeded(w) ==> n == 7
  {
    n := PipelineRecords(record, w);
    FailureFacts(record, w);
    RecordedConcat(record, Perform(w, PIPELINE), FailureEffects(w));
    RecordedConcat(record, Perform(w, PIPELINE), FollowUp(w));
    if !w.payloadOk {
      n := 0;
    }
  }

  /** Every event follows its row, and only the last row can be without its event. */
  lemma {:induction false} RowLeads(w: World, actions: seq<Action>)
    requires Complete(w)
    ensures var log := Perform(w, actions);
      |Published(log)| <= |JobRows(log)| <= |Published(log)| + 1
  {
    if actions == [] {
    } else {
      var a := actions[0];
      var more := if Succeeds(w, a) then Perform(w, actions[1..]) else [];
      RowLeads(w, actions[1..]);
      RowLeadsOnce(w, a);
      RecordedConcat(Rows, Effects(w, a), more);
      RecordedConcat(Events, Effects(w, a), more);
    }
  }

  lemma RowLeadsOnce(w: World, a: Action)
    requires Complete(w)
    ensures |Published(Effects(w, a))| <= |JobRows(Effects(w, a))| <= 1
    ensures Succeeds(w, a) ==> |Published(Effects(w, a))| == |JobRows(Effects(w, a))|
  {
    OneAction(Rows, w, a);
    OneAction(Events, w, a);
    if a.Announce? && a.i < 7 {
      PublishFacts(Rows, w.published[a.i], STAGES[a.i]);
      PublishFacts(Events, w.published[a.i], STAGES[a.i]);
    }
  }

  predicate EndsAs(stages: seq<Stage>, stage: Stage) { stages != [] && stages[|stages| - 1] == stage }

  /** The last job row a full run writes is `done` with 100. That of any run is `failed` with 0 exactly
      when the run fails after its payload was read and that row can be written; before, it leaves nothing. */
  lemma LastJobRow(w: World)
    requires Complete(w)
    ensures Succeeded(w) ==> EndsAs(JobRows(Trace(w)), Stage("done", 100))
    ensures EndsAs(JobRows(Trace(w)), Stage("failed", 0)) <==>
      w.payloadOk && !Succeeded(w) && w.failureSent != Nothing
    ensures !w.payloadOk ==> Trace(w) == []
  {
    var m, n := StagesInOrder(w);
    StagesBefore(0);
  }

  lemma FailureFacts(record: Record, w: World)
    ensures Recorded(record, FailureEffects(w)) == if Reaches(record, w.failureSent) then [FAILED] else []
    ensures Statuses(FailureEffects(w)) == if w.markOk then [FailedDoc] else []
    ensures KnowledgeBuild !in FailureEffects(w)
  {
    var mark: seq<Effect> := if w.markOk then [Document(FailedDoc)] else [];
    PublishFacts(record, w.failureSent, FAILED);
    RecordedConcat(record, mark, PublishEffects(w.failureSent, FAILED));
    StatusesConcat(mark, PublishEffects(w.failureSent, FAILED));
  }

  /** A full run writes one document status: indexed exactly when the persist step asked for no review
      and the embedding worked, else needs-review. */
  lemma FullRunStatus(w: World)
    requires Complete(w) && Succeeded(w)
    ensures Statuses(Trace(w)) == [if w.persisted == Some(false) && w.embedOk then IndexedDoc else NeedsReviewDoc]
  {
    SucceededIff(w);
    FinalIs(w);
    PipelineWrites(w);
    StatusesConcat(Perform(w, PIPELINE), FollowUp(w));
  }

  lemma FinalIs(w: World)
    requires w.persisted.Some?
    ensures FinalStatus(w) == if w.persisted == Some(false) && w.embedOk then IndexedDoc else NeedsReviewDoc
  {
    if w.persisted.value {
      assert w.persisted == Some(true);
    } else {
      assert w.persisted == Some(false);
    }
  }

  lemma SucceededHere(w: World, before: seq<Action>, a: Action, after: seq<Action>)
    requires Complete(w) && PIPELINE == before + [a] + after && AllSucceed(w, PIPELINE)
    ensures Succeeds(w, a)
  {
    PerformSplits(w, before + [a], after);
    PerformSplits(w, before, [a]);
  }

  /** Where stage `i` is announced. */
  function PositionOf(i: nat): nat
    requires i < 7
    ensures PositionOf(i) < 13 && PIPELINE[PositionOf(i)] == Announce(i)
  {
    [1, 3, 5, 7, 9, 10, 12][i]
  }

  lemma SucceededAt(w: World, k: nat)
    requires Complete(w) && AllSucceed(w, PIPELINE) && k < 13
    ensures Succeeds(w, PIPELINE[k])
  {
    assert PIPELINE == PIPELINE[..k] + [PIPELINE[k]] + PIPELINE[k + 1..];
    SucceededHere(w, PIPELINE[..k], PIPELINE[k], PIPELINE[k + 1..]);
  }

  lemma {:induction false} AllSucceedIff(w: World, actions: seq<Action>)
    requires Complete(w)
    ensures AllSucceed(w, actions) <==> forall k :: 0 <= k < |actions| ==> Succeeds(w, actions[k])
  {
    if actions == [] {
    } else {
      AllSucceedIff(w, actions[1..]);
      assert forall k :: 1 <= k < |actions| ==> actions[k] == actions[1..][k - 1];
      assert forall k :: 0 <= k < |actions[1..]| ==> actions[1..][k] == actions[k + 1];
    }
  }

  /** Everything a run depends on. A failed embedding, a failed mark and a failed enqueue do not count. */
  lemma SucceededIff(w: World)
    requires Complete(w)
    ensures Succeeded(w) <==>
      && w.payloadOk && w.rowFound && w.bytesOk && w.parseOk && w.persisted.Some? && w.statusOk
      && forall i :: 0 <= i < 7 ==> w.cancelled[i] != Some(true) && w.published[i] == Sent
  {
    AllSucceedIff(w, PIPELINE);
    if AllSucceed(w, PIPELINE) {
      forall i | 0 <= i < 7 ensures Succeeds(w, Announce(i)) {
        assert Succeeds(w, PIPELINE[PositionOf(i)]);
      }
      assert Succeeds(w, PIPELINE[0]) && Succeeds(w, PIPELINE[2]) && Succeeds(w, PIPELINE[4]);
      assert Succeeds(w, PIPELINE[6]) && Succeeds(w, PIPELINE[11]);
    }
  }

  lemma PerformFrom(w: World, k: nat)
    requires Complete(w) && AllSucceed(w, PIPELINE) && k < 13
    ensures Perform(w, PIPELINE[k..]) == Effects(w, PIPELINE[k]) + Perform(w, PIPELINE[k + 1..])
  {
    SucceededAt(w, k);
    assert PIPELINE[k..][0] == PIPELINE[k] && PIPELINE[k..][1..] == PIPELINE[k + 1..];
  }

  /** The row and the event of a stage. */
  function Marks(status: string, progress: int): seq<Effect> {
    [JobRow(Stage(status, progress)), Event(Stage(status, progress))]
  }

  /** A full run leaves, in this order: the six stages up to 95, the document status, the last stage,
      and the follow-up job. */
  lemma FullRunTrace(w: World)
    requires Complete(w) && Succeeded(w)
    ensures Trace(w) == Marks("extract", 10) + (Marks("parse", 28) + (Marks("chunk", 40)
      + (Marks("contextualize", 60) + (Marks("embed", 85) + (Marks("index", 95) + ([Document(FinalStatus(w))]
      + Marks("done", 100))))))) + FollowUp(w)
  {
    FullRunStart(w);
    FullRunEnd(w);
  }

  lemma StageFrom(w: World, k: nat, i: nat)
    requires Complete(w) && AllSucceed(w, PIPELINE) && k < 13 && i < 7 && PIPELINE[k] == Announce(i)
    ensures Perform(w, PIPELINE[k..]) == Marks(STAGES[i].status, STAGES[i].progress) + Perform(w, PIPELINE[k + 1..])
  {
    PerformFrom(w, k);
    SucceededAt(w, k);
  }

  lemma QuietFrom(w: World, k: nat)
    requires Complete(w) && AllSucceed(w, PIPELINE) && k < 13 && Effects(w, PIPELINE[k]) == []
    ensures Perform(w, PIPELINE[k..]) == Perform(w, PIPELINE[k + 1..])
  {
    PerformFrom(w, k);
    assert [] + Perform(w, PIPELINE[k + 1..]) == Perform(w, PIPELINE[k + 1..]);
  }

  lemma FullRunStart(w: World)
    requires Complete(w) && Succeeded(w)
    ensures Perform(w, PIPELINE) == Marks("extract", 10) + (Marks("parse", 28) + (Marks("chunk", 40)
      + Perform(w, PIPELINE[7..])))
  {
    QuietFrom(w, 6);
    StageFrom(w, 5, 2);
    QuietFrom(w, 4);
    StageFrom(w, 3, 1);
    QuietFrom(w, 2);
    StageFrom(w, 1, 0);
    QuietFrom(w, 0);
    assert PIPELINE[0..] == PIPELINE;
  }

  lemma FullRunEnd(w: World)
    requires Complete(w) && Succeeded(w)
    ensures Perform(w, PIPELINE[7..]) == Marks("contextualize", 60) + (Marks("embed", 85)
      + (Marks("index", 95) + ([Document(FinalStatus(w))] + Marks("done", 100))))
  {
    StageFrom(w, 12, 6);
    assert PIPELINE[13..] == [] && Perform(w, []) == [] && Marks("done", 100) + [] == Marks("done", 100);
    PerformFrom(w, 11);
    SucceededAt(w, 11);
    StageFrom(w, 10, 5);
    StageFrom(w, 9, 4);
    QuietFrom(w, 8);
    StageFrom(w, 7, 3);
  }

  lemma PerformStops(w: World, before: seq<Action>, a: Action, after: seq<Action>)
    requires Complete(w) && !Succeeds(w, a) && Effects(w, a) == []
    ensures !AllSucceed(w, before + ([a] + after)) && Perform(w, before + ([a] + after)) == Perform(w, before)
    decreases |before|
  {
    if before == [] {
      assert before + ([a] + after) == [a] + after;
    } else {
      assert (before + ([a] + after))[1..] == before[1..] + ([a] + after);
      PerformStops(w, before[1..], a, after);
    }
  }

  /** Where a run gets to: no stage without the document's row, at most one when the bytes cannot be
      fetched, two when the parser fails, three when the persist transaction does, six when the status
      cannot be written. */
  lemma StopsAfter(w: World, record: Record) returns (n: nat)
    requires Complete(w)
    ensures n <= 7 && Recorded(record, Trace(w)) == STAGES[..n] + FailedIn(record, w)
    ensures (!w.rowFound ==> n == 0) && (!w.bytesOk ==> n <= 1) && (!w.parseOk ==> n <= 2)
    ensures (w.persisted.None? ==> n <= 3) && (!w.statusOk ==> n <= 6)
  {
    n := RecordedInOrder(record, w);
    if !w.rowFound { StopsAt(record, w, 0); }
    if !w.bytesOk { StopsAt(record, w, 2); }
    if !w.parseOk { StopsAt(record, w, 4); }
    if w.persisted.None? { StopsAt(record, w, 6); }
    if !w.statusOk { StopsAt(record, w, 11); }
  }

  lemma StopsAt(record: Record, w: World, k: nat)
    requires Complete(w) && k < 13 && !Succeeds(w, PIPELINE[k]) && Effects(w, PIPELINE[k]) == []
    ensures |Recorded(record, Perform(w, PIPELINE))| <= AnnouncedBefore(k)
  {
    var before, after := PIPELINE[..k], PIPELINE[k + 1..];
    assert PIPELINE == before + ([PIPELINE[k]] + after);
    PerformStops(w, before, PIPELINE[k], after);
    StagesUpTo(k);
    var n := RecordsSome(record, w, before, STAGES[..AnnouncedBefore(k)]);
  }

  function Progress(stages: seq<Stage>): seq<int> { seq(|stages|, i requires 0 <= i < |stages| => stages[i].progress) }

  /** The progress numbers of a run's row, and of its events, are the first so many of these, strictly
      increasing, until a failure resets them to 0. */
  lemma ProgressGrows(w: World, record: Record) returns (n: nat)
    requires Complete(w)
    ensures n <= 7
    ensures Progress(Recorded(record, Trace(w))) == [10, 28, 40, 60, 85, 95, 100][..n] + Progress(FailedIn(record, w))
    ensures Progress(FailedIn(record, w)) == [] || Progress(FailedIn(record, w)) == [0]
  {
    n := RecordedInOrder(record, w);
    assert Progress(STAGES[..n]) == [10, 28, 40, 60, 85, 95, 100][..n];
  }

  /** A failed run leaves the document `failed`, if that write works, even when an earlier step had
      already marked it indexed. */
  lemma FailedRunStatus(w: World)
    requires Complete(w) && w.payloadOk && !Succeeded(w) && w.markOk
    ensures Statuses(Trace(w)) != [] && Statuses(Trace(w))[|Statuses(Trace(w))| - 1] == FailedDoc
  {
    FailureFacts(Events, w);
    StatusesConcat(Perform(w, PIPELINE), FailureEffects(w));
  }

  /** A check that reads `cancelled` before stage `i` ends the run: neither that stage nor a later one
      is published, and nothing is enqueued. */
  lemma CancelledStops(w: World, i: nat)
    requires Complete(w) && i < 7 && Stops(w, i)
    ensures !Succeeded(w) && KnowledgeBuild !in Trace(w)
    ensures forall j :: i <= j < 7 ==> STAGES[j] !in Published(Trace(w))
  {
    var k := PositionOf(i);
    var before, after := PIPELINE[..k], PIPELINE[k + 1..];
    assert PIPELINE == before + ([Announce(i)] + after);
    PerformStops(w, before, Announce(i), after);
    StagesBefore(i);
    FailureFacts(Events, w);
    var n := RecordsSome(Events, w, before, STAGES[..i]);
    RecordedConcat(Events, Perform(w, before), FailureEffects(w));
    NotAmong(i, n);
  }

  lemma NotAmong(i: nat, n: nat)
    requires n <= i < 7
    ensures forall j :: i <= j < 7 ==> STAGES[j] !in STAGES[..i][..n] && STAGES[j] != FAILED
  {
  }

  lemma StagesBefore(i: nat)
    requires i < 7
    ensures StagesOf(PIPELINE[..PositionOf(i)]) == STAGES[..i]
    ensures FAILED !in STAGES && forall j, k :: 0 <= j < k < 7 ==> STAGES[j] != STAGES[k]
  {
    StagesUpTo(PositionOf(i));
  }

  /** The knowledge build is enqueued exactly by a full run that left the document indexed, when the
      organisation wants topics and the enqueue works. */
  lemma KnowledgeBuildIff(w: World)
    requires Complete(w)
    ensures KnowledgeBuild in Trace(w) <==>
      Succeeded(w) && w.persisted == Some(false) && w.embedOk && w.autoTopics && w.enqueueOk
  {
    var n := PipelineRecords(Events, w);
    FailureFacts(Events, w);
    if Succeeded(w) {
      SucceededIff(w);
      FinalIs(w);
      assert Trace(w) == Perform(w, PIPELINE) + FollowUp(w);
      assert KnowledgeBuild in Trace(w) <==> KnowledgeBuild in FollowUp(w);
    } else if w.payloadOk {
      assert Trace(w) == Perform(w, PIPELINE) + FailureEffects(w);
    }
  }

  /** The knowledge build is enqueued only by a run that published every stage up to `done` and left
      the document indexed; it is then the run's last effect. */
  lemma KnowledgeBuildIsLast(w: World)
    requires Complete(w) && KnowledgeBuild in Trace(w)
    ensures Succeeded(w) && FinalStatus(w) == IndexedDoc && Published(Trace(w)) == STAGES
    ensures Trace(w) == Perform(w, PIPELINE) + [KnowledgeBuild] && KnowledgeBuild !in Perform(w, PIPELINE)
  {
    var _ := PipelineRecords(Events, w);
    FailureFacts(Events, w);
    var m, n := StagesInOrder(w);
    assert STAGES[..7] == STAGES;
  }
}
