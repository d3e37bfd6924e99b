/**
 * The task stream of one agent, read by any number of workers in one consumer group
 * (src/agent_worker.go:119-201, 561-593): how often a task runs, and that it ends.
 */
module TaskQueue {
  import opened Text

  type TaskId = string

  datatype Task = Task(id: TaskId, retryCount: int, maxRetries: int)

  /**
   * A message is unread; or delivered to a worker that runs it, has seen it fail, has put its successor into the
   * stream, or has sent its result; or acknowledged. A stuck message is delivered for good, and nobody works on it.
   */
  datatype Phase =
    | Unread
    | Executing(worker: nat)
    | Failing(worker: nat)
    | Readded(worker: nat)
    | Done(worker: nat)
    | Acked
    | Stuck

  /** A message without a task is malformed. */
  datatype Entry = Entry(task: Option<Task>, phase: Phase)

  /** How a task was submitted, and which message is its newest copy. */
  datatype History = History(initial: Task, latest: nat)

  /**
   * The stream, the group's read position, the message that each worker has in hand, and the tasks whose results
   * were sent or that were given up.
   */
  datatype Queue = Queue(
    entries: seq<Entry>, next: nat, workers: seq<Option<nat>>,
    submitted: map<TaskId, History>, completed: set<TaskId>, abandoned: set<TaskId>)

  datatype Action =
    | Submit(task: Task)
    | SubmitMalformed
    | Read(worker: nat)
    | Succeed(worker: nat)
    | Fail(worker: nat)
    | Retry(worker: nat)
    | Acknowledge(worker: nat)
    | Crash(worker: nat)

  // ----- Steps -----

  function WithPhase(q: Queue, i: nat, phase: Phase): Queue
    requires i < |q.entries|
  {
    q.(entries := q.entries[i := q.entries[i].(phase := phase)])
  }

  /** Worker w has a message in hand whose phase is such. */
  predicate Has(q: Queue, w: nat) {
    w < |q.workers| && q.workers[w].Some? && q.workers[w].value < |q.entries| && q.entries[q.workers[w].value].task.Some?
  }

  /** XADD. IDs of new tasks are fresh. */
  function SubmitStep(q: Queue, task: Task): Queue {
    if task.id in q.submitted then q
    else q.(entries := q.entries + [Entry(Some(task), Unread)],
            submitted := q.submitted[task.id := History(task, |q.entries|)])
  }

  /** XREADGROUP of one new message; a malformed one fails at once and is neither retried nor acknowledged. */
  function ReadStep(q: Queue, w: nat): Queue {
    if w >= |q.workers| || q.workers[w].Some? || q.next >= |q.entries| then q
    else if q.entries[q.next].task.None? then WithPhase(q, q.next, Stuck).(next := q.next + 1)
    else WithPhase(q, q.next, Executing(w)).(next := q.next + 1, workers := q.workers[w := Some(q.next)])
  }

  /** handleMessage without an error: the result is sent, the message not acknowledged yet. */
  function SucceedStep(q: Queue, w: nat): Queue {
    if !Has(q, w) || q.entries[q.workers[w].value].phase != Executing(w) then q
    else
      var i := q.workers[w].value;
      WithPhase(q, i, Done(w)).(completed := q.completed + {q.entries[i].task.value.id})
  }

  function FailStep(q: Queue, w: nat): Queue {
    if !Has(q, w) || q.entries[q.workers[w].value].phase != Executing(w) then q
    else WithPhase(q, q.workers[w].value, Failing(w))
  }

  /** retryMessage up to its XADD, or to its end when the task is given up. */
  function RetryStep(q: Queue, w: nat): Queue {
    if !Has(q, w) || q.entries[q.workers[w].value].phase != Failing(w) then q
    else
      var i := q.workers[w].value;
      var task := q.entries[i].task.value;
      var again := task.(retryCount := task.retryCount + 1);
      if again.retryCount >= again.maxRetries then
        WithPhase(q, i, Acked).(workers := q.workers[w := None], abandoned := q.abandoned + {task.id})
      else
        var marked := WithPhase(q, i, Readded(w));
        marked.(entries := marked.entries + [Entry(Some(again), Unread)],
                submitted := if task.id in q.submitted
                             then q.submitted[task.id := q.submitted[task.id].(latest := |q.entries|)] else q.submitted)
  }

  /** The XACK behind a result, or behind a successor. */
  function AcknowledgeStep(q: Queue, w: nat): Queue {
    if !Has(q, w) || q.entries[q.workers[w].value].phase !in {Readded(w), Done(w)} then q
    else WithPhase(q, q.workers[w].value, Acked).(workers := q.workers[w := None])
  }

  /** The worker's process ends; another one may take its place, with nothing in hand. */
  function CrashStep(q: Queue, w: nat): Queue {
    if !Has(q, w) then q
    else WithPhase(q, q.workers[w].value, Stuck).(workers := q.workers[w := None])
  }

  function Step(q: Queue, a: Action): Queue {
    match a
    case Submit(task) => SubmitStep(q, task)
    case SubmitMalformed => q.(entries := q.entries + [Entry(None, Unread)])
    case Read(w) => ReadStep(q, w)
    case Succeed(w) => SucceedStep(q, w)
    case Fail(w) => FailStep(q, w)
    case Retry(w) => RetryStep(q, w)
    case Acknowledge(w) => AcknowledgeStep(q, w)
    case Crash(w) => CrashStep(q, w)
  }

  function Run(q: Queue, actions: seq<Action>): Queue {
    if actions == [] then q else Step(Run(q, actions[..|actions| - 1]), actions[|actions| - 1])
  }

  function Start(workers: nat): Queue {
    Queue([], 0, seq(workers, _ => None), map[], {}, {})
  }

  // ----- What holds in every state -----

  /** The task may still run because of this message. */
  predicate Live(e: Entry) {
    e.task.Some? && (e.phase.Unread? || e.phase.Executing? || e.phase.Failing?)
  }

  function Holder(phase: Phase): Option<nat> {
    match phase
    case Executing(w) => Some(w)
    case Failing(w) => Some(w)
    case Readded(w) => Some(w)
    case Done(w) => Some(w)
    case _ => None
  }

  predicate IsCopy(e: Entry, id: TaskId) {
    e.task.Some? && e.task.value.id == id
  }

  /** How many messages of a list carry the task. */
  function Copies(entries: seq<Entry>, id: TaskId): nat {
    if entries == [] then 0
    else Copies(entries[..|entries| - 1], id) + if IsCopy(entries[|entries| - 1], id) then 1 else 0
  }

  /** The newest copy of a task was delivered, nobody works on it, and no result was sent. */
  predicate Lost(q: Queue, id: TaskId) {
    && id in q.submitted && id !in q.completed && q.submitted[id].latest < |q.entries|
    && q.entries[q.submitted[id].latest].phase == Stuck
  }

  predicate Settled(q: Queue, id: TaskId) {
    id in q.completed || id in q.abandoned || Lost(q, id)
  }

  /** Messages up to the read position are delivered, the others are not; a delivered malformed one is stuck. */
  ghost predicate InOrder(q: Queue) {
    && q.next <= |q.entries|
    && (forall i :: 0 <= i < |q.entries| ==> (q.entries[i].phase.Unread? <==> i >= q.next))
    && forall i :: 0 <= i < q.next && q.entries[i].task.None? ==> q.entries[i].phase == Stuck
  }

  /** Each worker has at most one message in hand, and each message is in at most one hand. */
  ghost predicate InHand(q: Queue) {
    && (forall w: nat :: w < |q.workers| && q.workers[w].Some? ==>
          q.workers[w].value < |q.entries| && q.entries[q.workers[w].value].task.Some?
          && Holder(q.entries[q.workers[w].value].phase) == Some(w))
    && forall i :: 0 <= i < |q.entries| && Holder(q.entries[i].phase).Some? ==>
         var w := Holder(q.entries[i].phase).value;
         w < |q.workers| && q.workers[w] == Some(i)
  }

  /** A copy is the task as submitted, but for a retry count that says how many copies came before. */
  ghost predicate Numbered(q: Queue, i: nat)
    requires i < |q.entries|
  {
    q.entries[i].task.Some? ==>
      var t := q.entries[i].task.value;
      var before := Copies(q.entries[..i], t.id);
      && t.id in q.submitted
      && t == q.submitted[t.id].initial.(retryCount := q.submitted[t.id].initial.retryCount + before)
      && (before > 0 ==> t.retryCount < t.maxRetries)
      && i <= q.submitted[t.id].latest
      && (i < q.submitted[t.id].latest ==> !Live(q.entries[i]))
  }

  /** The newest copy of a task is live exactly until the task is completed, given up or lost. */
  ghost predicate Tracked(q: Queue, id: TaskId)
    requires id in q.submitted
  {
    var i := q.submitted[id].latest;
    && i < |q.entries| && IsCopy(q.entries[i], id) && q.submitted[id].initial.id == id
    && (Live(q.entries[i]) <==> !Settled(q, id))
    && (id in q.abandoned ==>
          q.entries[i].phase == Acked && q.entries[i].task.value.retryCount + 1 >= q.entries[i].task.value.maxRetries)
  }

  ghost predicate Inv(q: Queue) {
    && InOrder(q) && InHand(q)
    && (forall i: nat :: i < |q.entries| ==> Numbered(q, i))
    && (forall id :: id in q.submitted ==> Tracked(q, id))
    && q.completed + q.abandoned <= q.submitted.Keys && q.completed !! q.abandoned
  }

  // ----- Counting copies -----

  lemma {:induction false} CopiesDependOnTasks(a: seq<Entry>, b: seq<Entry>, id: TaskId)
    requires |a| == |b| && forall i :: 0 <= i < |a| ==> a[i].task == b[i].task
    ensures Copies(a, id) == Copies(b, id)
  {
    if a != [] {
      CopiesDependOnTasks(a[..|a| - 1], b[..|b| - 1], id);
    }
  }

  /** A message with a new phase is no other copy. */
  lemma {:induction false} PhaseKeepsNumbered(q: Queue, i: nat, phase: Phase, j: nat)
    requires i < |q.entries| && j < |q.entries| && Numbered(q, j)
    requires j == i ==> (Live(q.entries[i].(phase := phase)) ==> Live(q.entries[i]))
    ensures Numbered(WithPhase(q, i, phase), j)
  {
    var q' := WithPhase(q, i, phase);
    if q.entries[j].task.Some? {
      CopiesDependOnTasks(q.entries[..j], q'.entries[..j], q.entries[j].task.value.id);
    }
  }

  /** Numbered speaks of entries and submissions only. */
  lemma {:induction false} NumberedFrame(q: Queue, q': Queue, j: nat)
    requires j < |q.entries| && q'.entries == q.entries && q'.submitted == q.submitted && Numbered(q, j)
    ensures Numbered(q', j)
  {
  }

  /** If a count is positive, some message is the last one that counts. */
  lemma {:induction false} LastCopy(entries: seq<Entry>, id: TaskId) returns (i: nat)
    requires Copies(entries, id) > 0
    ensures i < |entries| && IsCopy(entries[i], id) && Copies(entries[..i], id) + 1 == Copies(entries, id)
  {
    var n := |entries| - 1;
    if IsCopy(entries[n], id) {
      i := n;
    } else {
      i := LastCopy(entries[..n], id);
      assert entries[..n][..i] == entries[..i];
    }
  }

  lemma {:induction false} NoCopies(entries: seq<Entry>, id: TaskId)
    requires forall i :: 0 <= i < |entries| ==> !IsCopy(entries[i], id)
    ensures Copies(entries, id) == 0
  {
    if Copies(entries, id) > 0 {
      var i := LastCopy(entries, id);
    }
  }

  // ----- Every step keeps the invariant -----

  /** A message gets another phase, but stays as live or as dead as it was. */
  lemma {:induction false} PhaseStepKeeps(q: Queue, i: nat, phase: Phase, q': Queue)
    requires Inv(q) && i < |q.entries| && q'.entries == WithPhase(q, i, phase).entries
    requires q'.submitted == q.submitted
    requires q'.completed == q.completed && q'.abandoned == q.abandoned
    requires Live(q.entries[i].(phase := phase)) == Live(q.entries[i]) && q.entries[i].phase !in {Acked, Stuck}
    requires InOrder(q') && InHand(q')
    ensures Inv(q')
  {
    forall j: nat | j < |q'.entries| ensures Numbered(q', j) {
      PhaseKeepsNumbered(q, i, phase, j);
      NumberedFrame(WithPhase(q, i, phase), q', j);
    }
    forall o | o in q'.submitted ensures Tracked(q', o) {
      assert Tracked(q, o);
    }
  }

  /** The newest copy of a task dies, and the task is settled. */
  lemma {:induction false} SettleStepKeeps(q: Queue, i: nat, phase: Phase, q': Queue)
    requires Inv(q) && i < |q.entries| && q'.entries == WithPhase(q, i, phase).entries
    requires q'.submitted == q.submitted
    requires Live(q.entries[i]) && !Live(q.entries[i].(phase := phase))
    requires InOrder(q') && InHand(q')
    requires var t := q.entries[i].task.value;
             || (q'.completed == q.completed + {t.id} && q'.abandoned == q.abandoned)
             || (q'.completed == q.completed && q'.abandoned == q.abandoned && phase == Stuck)
             || (q'.completed == q.completed && q'.abandoned == q.abandoned + {t.id} && phase == Acked
                 && t.retryCount + 1 >= t.maxRetries)
    ensures Inv(q')
  {
    var id := q.entries[i].task.value.id;
    assert Numbered(q, i) && Tracked(q, id);
    forall j: nat | j < |q'.entries| ensures Numbered(q', j) {
      PhaseKeepsNumbered(q, i, phase, j);
      NumberedFrame(WithPhase(q, i, phase), q', j);
    }
    forall o | o in q'.submitted ensures Tracked(q', o) {
      assert Tracked(q, o);
      if o != id {
        assert !IsCopy(q.entries[i], o);
      }
    }
  }

  lemma {:induction false} SubmitNumbered(q: Queue, task: Task, j: nat)
    requires Inv(q) && task.id !in q.submitted && j <= |q.entries|
    ensures Numbered(SubmitStep(q, task), j)
  {
    var q', n := SubmitStep(q, task), |q.entries|;
    if j < n {
      assert Numbered(q, j) && q'.entries[..j] == q.entries[..j];
    } else {
      forall i | 0 <= i < n ensures !IsCopy(q.entries[i], task.id) {
        assert Numbered(q, i);
      }
      NoCopies(q.entries, task.id);
      assert q'.entries[..n] == q.entries;
    }
  }

  lemma {:induction false} SubmitTracked(q: Queue, task: Task, id: TaskId)
    requires Inv(q) && task.id !in q.submitted && (id == task.id || id in q.submitted)
    ensures id in SubmitStep(q, task).submitted && Tracked(SubmitStep(q, task), id)
  {
    if id != task.id {
      assert Tracked(q, id);
    }
  }

  lemma {:induction false} SubmitKeeps(q: Queue, task: Task)
    requires Inv(q)
    ensures Inv(SubmitStep(q, task))
  {
    var q' := SubmitStep(q, task);
    if task.id !in q.submitted {
      forall j: nat | j < |q'.entries| ensures Numbered(q', j) {
        SubmitNumbered(q, task, j);
      }
      forall o | o in q'.submitted ensures Tracked(q', o) {
        SubmitTracked(q, task, o);
      }
    }
  }

  lemma {:induction false} SubmitMalformedKeeps(q: Queue)
    requires Inv(q)
    ensures Inv(Step(q, SubmitMalformed))
  {
    var q', n := Step(q, SubmitMalformed), |q.entries|;
    forall j: nat | j < n + 1 ensures Numbered(q', j) {
      if j < n {
        assert Numbered(q, j) && q'.entries[..j] == q.entries[..j];
      }
    }
    forall o | o in q'.submitted ensures Tracked(q', o) {
      assert Tracked(q, o);
    }
  }

  lemma {:induction false} ReadKeeps(q: Queue, w: nat)
    requires Inv(q)
    ensures Inv(ReadStep(q, w))
  {
    var q' := ReadStep(q, w);
    if w < |q.workers| && q.workers[w].None? && q.next < |q.entries| {
      PhaseStepKeeps(q, q.next, if q.entries[q.next].task.None? then Stuck else Executing(w), q');
    }
  }

  lemma {:induction false} SucceedKeeps(q: Queue, w: nat)
    requires Inv(q)
    ensures Inv(SucceedStep(q, w))
  {
    if Has(q, w) && q.entries[q.workers[w].value].phase == Executing(w) {
      SettleStepKeeps(q, q.workers[w].value, Done(w), SucceedStep(q, w));
    }
  }

  lemma {:induction false} FailKeeps(q: Queue, w: nat)
    requires Inv(q)
    ensures Inv(FailStep(q, w))
  {
    if Has(q, w) && q.entries[q.workers[w].value].phase == Executing(w) {
      PhaseStepKeeps(q, q.workers[w].value, Failing(w), FailStep(q, w));
    }
  }

  lemma {:induction false} AcknowledgeKeeps(q: Queue, w: nat)
    requires Inv(q)
    ensures Inv(AcknowledgeStep(q, w))
  {
    if Has(q, w) && q.entries[q.workers[w].value].phase in {Readded(w), Done(w)} {
      PhaseStepKeeps(q, q.workers[w].value, Acked, AcknowledgeStep(q, w));
    }
  }

  lemma {:induction false} CrashKeeps(q: Queue, w: nat)
    requires Inv(q)
    ensures Inv(CrashStep(q, w))
  {
    if Has(q, w) {
      var i := q.workers[w].value;
      if Live(q.entries[i]) {
        SettleStepKeeps(q, i, Stuck, CrashStep(q, w));
      } else {
        PhaseStepKeeps(q, i, Stuck, CrashStep(q, w));
      }
    }
  }

  /** The appended copy of a retry carries the next number. */
  lemma {:induction false} NewCopyNumbered(q: Queue, i: nat, t: Task, phase: Phase, q': Queue)
    requires i < |q.entries| && q.entries[i].task == Some(t) && t.id in q.submitted && q.submitted[t.id].latest == i
    requires Tracked(q, t.id) && forall j: nat :: j < |q.entries| ==> Numbered(q, j)
    requires t.retryCount + 1 < t.maxRetries
    requires var again := Entry(Some(t.(retryCount := t.retryCount + 1)), Unread);
             && q'.entries == WithPhase(q, i, phase).entries + [again]
             && q'.submitted == q.submitted[t.id := q.submitted[t.id].(latest := |q.entries|)]
    ensures Numbered(q', |q.entries|)
  {
    var marked := WithPhase(q, i, phase).entries;
    assert q'.entries[..|q.entries|] == marked;
    assert Numbered(q, i);
    CopiesDependOnTasks(q.entries, marked, t.id);
    CopiesUpToLatest(q, t.id);
  }

  lemma {:induction false} OldCopyNumbered(q: Queue, i: nat, id: TaskId, phase: Phase, q': Queue, j: nat)
    requires i < |q.entries| && j < |q.entries| && Numbered(q, j) && id in q.submitted && q.submitted[id].latest == i
    requires IsCopy(q.entries[i], id) && !Live(q.entries[i].(phase := phase))
    requires WithPhase(q, i, phase).entries <= q'.entries
    requires q'.submitted == q.submitted[id := q.submitted[id].(latest := |q.entries|)]
    ensures Numbered(q', j)
  {
    if q.entries[j].task.Some? {
      CopiesDependOnTasks(q.entries[..j], q'.entries[..j], q.entries[j].task.value.id);
    }
  }

  lemma {:induction false} ReaddInOrder(q: Queue, w: nat)
    requires InOrder(q) && Has(q, w) && q.entries[q.workers[w].value].phase == Failing(w)
    ensures InOrder(RetryStep(q, w))
  {
  }

  lemma {:induction false} ReaddInHand(q: Queue, w: nat)
    requires InHand(q) && Has(q, w) && q.entries[q.workers[w].value].phase == Failing(w)
    ensures InHand(RetryStep(q, w))
  {
  }

  lemma {:induction false} ReaddTracked(q: Queue, i: nat, t: Task, phase: Phase, q': Queue, id: TaskId)
    requires i < |q.entries| && q.entries[i].task == Some(t) && t.id in q.submitted && q.submitted[t.id].latest == i
    requires Live(q.entries[i]) && id in q.submitted && Tracked(q, id) && Tracked(q, t.id)
    requires q'.entries == WithPhase(q, i, phase).entries + [Entry(Some(t.(retryCount := t.retryCount + 1)), Unread)]
    requires q'.submitted == q.submitted[t.id := q.submitted[t.id].(latest := |q.entries|)]
    requires q'.completed == q.completed && q'.abandoned == q.abandoned
    ensures Tracked(q', id)
  {
  }

  /** A retry: the failed copy dies, and the next one is appended, with the next retry count. */
  lemma {:induction false} ReaddKeeps(q: Queue, w: nat)
    requires Inv(q) && Has(q, w) && q.entries[q.workers[w].value].phase == Failing(w)
    requires var t := q.entries[q.workers[w].value].task.value;
             t.retryCount + 1 < t.maxRetries
    ensures Inv(RetryStep(q, w))
  {
    var i, n, q' := q.workers[w].value, |q.entries|, RetryStep(q, w);
    var t := q.entries[i].task.value;
    assert Numbered(q, i) && Tracked(q, t.id);
    ReaddInOrder(q, w);
    ReaddInHand(q, w);
    NewCopyNumbered(q, i, t, Readded(w), q');
    forall j: nat | j < n + 1 ensures Numbered(q', j) {
      if j < n {
        OldCopyNumbered(q, i, t.id, Readded(w), q', j);
      }
    }
    forall o | o in q'.submitted ensures Tracked(q', o) {
      ReaddTracked(q, i, t, Readded(w), q', o);
    }
  }

  /** No copy comes behind the newest one. */
  lemma {:induction false} CopiesUpToLatest(q: Queue, id: TaskId)
    requires id in q.submitted && Tracked(q, id)
    requires forall i: nat :: i < |q.entries| ==> Numbered(q, i)
    ensures Copies(q.entries, id) == Copies(q.entries[..q.submitted[id].latest], id) + 1
  {
    CopiesStop(q, id, |q.entries|);
    assert q.entries[..|q.entries|] == q.entries;
  }

  lemma {:induction false} CopiesStop(q: Queue, id: TaskId, n: nat)
    requires id in q.submitted && Tracked(q, id) && q.submitted[id].latest < n <= |q.entries|
    requires forall i: nat :: i < |q.entries| ==> Numbered(q, i)
    ensures Copies(q.entries[..n], id) == Copies(q.entries[..q.submitted[id].latest], id) + 1
  {
    assert q.entries[..n][..n - 1] == q.entries[..n - 1];
    if n - 1 > q.submitted[id].latest {
      assert Numbered(q, n - 1);
      CopiesStop(q, id, n - 1);
    }
  }

  lemma {:induction false} RetryKeeps(q: Queue, w: nat)
    requires Inv(q)
    ensures Inv(RetryStep(q, w))
  {
    if Has(q, w) && q.entries[q.workers[w].value].phase == Failing(w) {
      var i := q.workers[w].value;
      var t := q.entries[i].task.value;
      if t.retryCount + 1 >= t.maxRetries {
        SettleStepKeeps(q, i, Acked, RetryStep(q, w));
      } else {
        ReaddKeeps(q, w);
      }
    }
  }

  lemma {:induction false} StepKeeps(q: Queue, a: Action)
    requires Inv(q)
    ensures Inv(Step(q, a))
  {
    match a {
      case Submit(task) => SubmitKeeps(q, task);
      case SubmitMalformed => SubmitMalformedKeeps(q);
      case Read(w) => ReadKeeps(q, w);
      case Succeed(w) => SucceedKeeps(q, w);
      case Fail(w) => FailKeeps(q, w);
      case Retry(w) => RetryKeeps(q, w);
      case Acknowledge(w) => AcknowledgeKeeps(q, w);
      case Crash(w) => CrashKeeps(q, w);
    }
  }

  lemma {:induction false} RunKeeps(q: Queue, actions: seq<Action>)
    requires Inv(q)
    ensures Inv(Run(q, actions))
  {
    if actions != [] {
      RunKeeps(q, actions[..|actions| - 1]);
      StepKeeps(Run(q, actions[..|actions| - 1]), actions[|actions| - 1]);
    }
  }

  // ----- What follows for every run -----

  /** At most one message of a task is live, so no two workers ever run it at once. */
  lemma {:induction false} OneLiveCopy(workers: nat, actions: seq<Action>, i: nat, j: nat)
    requires var q := Run(Start(workers), actions);
             i < |q.entries| && j < |q.entries| && Live(q.entries[i]) && Live(q.entries[j])
             && q.entries[i].task.value.id == q.entries[j].task.value.id
    ensures i == j
  {
    RunKeeps(Start(workers), actions);
    var q := Run(Start(workers), actions);
    assert Numbered(q, i) && Numbered(q, j);
  }

  function Attempts(t: Task): nat {
    if t.maxRetries - t.retryCount > 1 then t.maxRetries - t.retryCount else 1
  }

  /** How often a task was given to a worker. */
  function Executions(q: Queue, id: TaskId): nat
    requires q.next <= |q.entries|
  {
    Copies(q.entries[..q.next], id)
  }

  /** A task runs at most as often as its retry limit allows, and at least once if the limit allows none. */
  lemma {:induction false} ExecutionsAreBounded(workers: nat, actions: seq<Action>, id: TaskId)
    ensures var q := Run(Start(workers), actions);
            && q.next <= |q.entries|
            && (id in q.submitted ==> Executions(q, id) <= Attempts(q.submitted[id].initial))
            && (id !in q.submitted ==> Executions(q, id) == 0)
  {
    RunKeeps(Start(workers), actions);
    var q := Run(Start(workers), actions);
    if Executions(q, id) > 0 {
      var i := LastCopy(q.entries[..q.next], id);
      assert q.entries[..q.next][..i] == q.entries[..i];
      assert Numbered(q, i);
    }
  }

  /** A task is only given up after exactly that many runs, the last of which failed. */
  lemma {:induction false} AbandonedAfterAllAttempts(workers: nat, actions: seq<Action>, id: TaskId)
    requires id in Run(Start(workers), actions).abandoned
    ensures var q := Run(Start(workers), actions);
            && q.next <= |q.entries| && id in q.submitted
            && Executions(q, id) == Attempts(q.submitted[id].initial)
            && id !in q.completed
  {
    RunKeeps(Start(workers), actions);
    var q := Run(Start(workers), actions);
    assert Tracked(q, id);
    var i := q.submitted[id].latest;
    assert Numbered(q, i);
    CopiesStop(q, id, q.next);
  }

  // ----- Termination -----

  /** What a message may still cause: four steps an attempt. */
  function Weight(e: Entry): nat {
    match e.task
    case None => if e.phase.Unread? then 1 else 0
    case Some(t) =>
      match e.phase
      case Unread => 4 * Attempts(t)
      case Executing(_) => 4 * Attempts(t) - 1
      case Failing(_) => 4 * Attempts(t) - 2
      case Readded(_) => 1
      case Done(_) => 1
      case _ => 0
  }

  function Remaining(entries: seq<Entry>): nat {
    if entries == [] then 0 else Remaining(entries[..|entries| - 1]) + Weight(entries[|entries| - 1])
  }

  lemma {:induction false} RemainingUpdate(entries: seq<Entry>, i: nat, e: Entry)
    requires i < |entries|
    ensures Remaining(entries[i := e]) + Weight(entries[i]) == Remaining(entries) + Weight(e)
  {
    var n := |entries| - 1;
    if i < n {
      RemainingUpdate(entries[..n], i, e);
      assert entries[i := e][..n] == entries[..n][i := e];
    } else {
      assert entries[i := e][..n] == entries[..n];
    }
  }

  /** A message gets a phase with less ahead of it. */
  lemma {:induction false} PhaseEnds(q: Queue, i: nat, phase: Phase)
    requires i < |q.entries| && Weight(q.entries[i].(phase := phase)) < Weight(q.entries[i])
    ensures Remaining(WithPhase(q, i, phase).entries) < Remaining(q.entries)
  {
    RemainingUpdate(q.entries, i, q.entries[i].(phase := phase));
  }

  lemma {:induction false} ReadEnds(q: Queue, w: nat)
    requires Inv(q) && ReadStep(q, w) != q
    ensures Remaining(ReadStep(q, w).entries) < Remaining(q.entries)
  {
    PhaseEnds(q, q.next, if q.entries[q.next].task.None? then Stuck else Executing(w));
  }

  /** Every step but a submission that does anything lowers the measure. */
  lemma {:induction false} StepsEnd(q: Queue, a: Action)
    requires Inv(q) && !a.Submit? && !a.SubmitMalformed? && Step(q, a) != q
    ensures Remaining(Step(q, a).entries) < Remaining(q.entries)
  {
    match a {
      case Read(w) => ReadEnds(q, w);
      case Succeed(w) => PhaseEnds(q, q.workers[w].value, Done(w));
      case Fail(w) => PhaseEnds(q, q.workers[w].value, Failing(w));
      case Retry(w) => RetryEnds(q, w);
      case Acknowledge(w) => PhaseEnds(q, q.workers[w].value, Acked);
      case Crash(w) => PhaseEnds(q, q.workers[w].value, Stuck);
    }
  }

  lemma {:induction false} RetryEnds(q: Queue, w: nat)
    requires Inv(q) && RetryStep(q, w) != q
    ensures Remaining(RetryStep(q, w).entries) < Remaining(q.entries)
  {
    var i := q.workers[w].value;
    var t := q.entries[i].task.value;
    if t.retryCount + 1 >= t.maxRetries {
      RemainingUpdate(q.entries, i, q.entries[i].(phase := Acked));
    } else {
      RemainingReadd(q.entries, i, w, t);
    }
  }

  lemma {:induction false} RemainingReadd(entries: seq<Entry>, i: nat, w: nat, t: Task)
    requires i < |entries| && entries[i] == Entry(Some(t), Failing(w)) && t.retryCount + 1 < t.maxRetries
    ensures Remaining(entries[i := Entry(Some(t), Readded(w))] + [Entry(Some(t.(retryCount := t.retryCount + 1)), Unread)])
            < Remaining(entries)
  {
    var marked := entries[i := Entry(Some(t), Readded(w))];
    var again := Entry(Some(t.(retryCount := t.retryCount + 1)), Unread);
    RemainingUpdate(entries, i, Entry(Some(t), Readded(w)));
    assert (marked + [again])[..|marked|] == marked;
  }

  /** The worker can do something. */
  predicate CanAct(q: Queue, w: nat) {
    || Step(q, Read(w)) != q || Step(q, Succeed(w)) != q || Step(q, Fail(w)) != q
    || Step(q, Retry(w)) != q || Step(q, Acknowledge(w)) != q
  }

  lemma {:induction false} BusyWorkerActs(q: Queue, w: nat)
    requires InHand(q) && w < |q.workers| && q.workers[w].Some?
    ensures CanAct(q, w)
  {
    var i := q.workers[w].value;
    match q.entries[i].phase {
      case Executing(_) => assert Step(q, Succeed(w)).entries[i].phase != Executing(w);
      case Failing(_) => assert Step(q, Retry(w)).entries[i].phase != Failing(w);
      case Readded(_) => assert Step(q, Acknowledge(w)).workers[w].None?;
      case Done(_) => assert Step(q, Acknowledge(w)).workers[w].None?;
    }
  }

  lemma {:induction false} UnreadIsRead(q: Queue, w: nat)
    requires InOrder(q) && w < |q.workers| && q.workers[w].None? && q.next < |q.entries|
    ensures CanAct(q, w)
  {
    assert Step(q, Read(w)).next == q.next + 1;
  }

  /**
   * As long as a task is not completed, given up, or lost with its worker, some worker can act. So when
   * nobody can, which StepsEnd says will happen, every task has ended.
   */
  lemma {:induction false} UnsettledTasksMove(q: Queue, id: TaskId)
    requires Inv(q) && |q.workers| > 0 && id in q.submitted && !Settled(q, id)
    ensures exists w: nat :: w < |q.workers| && CanAct(q, w)
  {
    assert Tracked(q, id);
    var i := q.submitted[id].latest;
    if q.entries[i].phase.Unread? {
      if q.workers[0].Some? {
        BusyWorkerActs(q, 0);
      } else {
        UnreadIsRead(q, 0);
      }
    } else {
      BusyWorkerActs(q, Holder(q.entries[i].phase).value);
    }
  }

  /** No step changes what a message carries. */
  lemma {:induction false} TasksStay(q: Queue, a: Action)
    ensures |q.entries| <= |Step(q, a).entries|
    ensures forall j :: 0 <= j < |q.entries| ==> Step(q, a).entries[j].task == q.entries[j].task
  {
  }

  /** Only the newest copy of a task that is not settled is ever replaced. */
  lemma {:induction false} LatestStays(q: Queue, a: Action, id: TaskId)
    requires Inv(q) && id in q.submitted && Settled(q, id)
    ensures id in Step(q, a).submitted && Step(q, a).submitted[id] == q.submitted[id]
  {
    assert Tracked(q, id);
    if a.Retry? && Has(q, a.worker) {
      assert Numbered(q, q.workers[a.worker].value);
    }
  }

  lemma {:induction false} SettledExecutions(q: Queue, id: TaskId)
    requires Inv(q) && id in q.submitted && Settled(q, id)
    ensures q.submitted[id].latest < q.next <= |q.entries|
    ensures Executions(q, id) == Copies(q.entries[..q.submitted[id].latest], id) + 1
  {
    assert Tracked(q, id);
    CopiesStop(q, id, q.next);
  }

  lemma {:induction false} SettledStep(q: Queue, a: Action, id: TaskId)
    requires Inv(q) && Settled(q, id)
    ensures Settled(Step(q, a), id) && (Lost(q, id) ==> Lost(Step(q, a), id))
    ensures Step(q, a).next <= |Step(q, a).entries| && Executions(Step(q, a), id) == Executions(q, id)
  {
    SettledStays(q, a, id);
    StepKeeps(q, a);
    LatestStays(q, a, id);
    TasksStay(q, a);
    SettledExecutions(q, id);
    SettledExecutions(Step(q, a), id);
    var i := q.submitted[id].latest;
    CopiesDependOnTasks(q.entries[..i], Step(q, a).entries[..i], id);
  }

  /** A settled task is never run again; in particular not one that was lost because its worker crashed. */
  lemma {:induction false} SettledForGood(q: Queue, actions: seq<Action>, id: TaskId)
    requires Inv(q) && Settled(q, id)
    ensures var q' := Run(q, actions);
            && Settled(q', id) && (Lost(q, id) ==> Lost(q', id))
            && q'.next <= |q'.entries| && Executions(q', id) == Executions(q, id)
  {
    if actions != [] {
      var n := |actions| - 1;
      SettledForGood(q, actions[..n], id);
      RunKeeps(q, actions[..n]);
      SettledStep(Run(q, actions[..n]), actions[n], id);
    }
  }

  lemma {:induction false} SettledStays(q: Queue, a: Action, id: TaskId)
    requires Inv(q) && Settled(q, id)
    ensures Settled(Step(q, a), id) && (Lost(q, id) ==> Lost(Step(q, a), id))
  {
    if Lost(q, id) {
      LostStays(q, a, id);
    }
  }

  /** A worker only ever completes or hands on what it has in hand, and what is lost is in nobody's hand. */
  lemma {:induction false} LostStays(q: Queue, a: Action, id: TaskId)
    requires Inv(q) && Lost(q, id)
    ensures Lost(Step(q, a), id)
  {
    LatestStays(q, a, id);
    StuckStays(q, a, q.submitted[id].latest);
    LostIsNotCompleted(q, a, id);
  }

  lemma {:induction false} StuckStays(q: Queue, a: Action, i: nat)
    requires Inv(q) && i < |q.entries| && q.entries[i].phase == Stuck
    ensures i < |Step(q, a).entries| && Step(q, a).entries[i].phase == Stuck
  {
  }

  lemma {:induction false} LostIsNotCompleted(q: Queue, a: Action, id: TaskId)
    requires Inv(q) && Lost(q, id)
    ensures id !in Step(q, a).completed
  {
    assert Tracked(q, id);
    if a.Succeed? && Has(q, a.worker) {
      assert Numbered(q, q.workers[a.worker].value);
    }
  }

  // ----- What crashes and malformed messages leave behind -----

  /** The step is the crash of a worker that has message i in hand. */
  predicate CrashHits(q: Queue, a: Action, i: nat) {
    a.Crash? && Has(q, a.worker) && q.workers[a.worker] == Some(i)
  }

  /** The step is the crash of a worker that runs a message of the task, or has seen it fail. */
  predicate CrashLoses(q: Queue, a: Action, id: TaskId) {
    && a.Crash? && Has(q, a.worker) && IsCopy(q.entries[q.workers[a.worker].value], id)
    && q.entries[q.workers[a.worker].value].phase in {Executing(a.worker), Failing(a.worker)}
  }

  /** The k-th step of a run hits the message, or loses the task. */
  predicate HitAt(q: Queue, actions: seq<Action>, k: nat, i: nat)
    requires k < |actions|
  {
    CrashHits(Run(q, actions[..k]), actions[k], i)
  }

  ghost predicate HitInRun(q: Queue, actions: seq<Action>, i: nat) {
    exists k: nat :: k < |actions| && HitAt(q, actions, k, i)
  }

  lemma {:induction false} HitAtPrefix(q: Queue, actions: seq<Action>, k: nat, n: nat, i: nat)
    requires k < n <= |actions|
    ensures HitAt(q, actions[..n], k, i) <==> HitAt(q, actions, k, i)
  {
    assert actions[..n][..k] == actions[..k];
  }

  lemma {:induction false} HitInLongerRun(q: Queue, actions: seq<Action>, i: nat)
    requires actions != []
    ensures var n := |actions| - 1;
            HitInRun(q, actions, i) <==> HitInRun(q, actions[..n], i) || HitAt(q, actions, n, i)
  {
    var n := |actions| - 1;
    forall k: nat | k < n ensures HitAt(q, actions[..n], k, i) <==> HitAt(q, actions, k, i) {
      HitAtPrefix(q, actions, k, n, i);
    }
  }

  predicate LostAt(q: Queue, actions: seq<Action>, k: nat, id: TaskId)
    requires k < |actions|
  {
    CrashLoses(Run(q, actions[..k]), actions[k], id)
  }

  ghost predicate LostInRun(q: Queue, actions: seq<Action>, id: TaskId) {
    exists k: nat :: k < |actions| && LostAt(q, actions, k, id)
  }

  lemma {:induction false} LostAtPrefix(q: Queue, actions: seq<Action>, k: nat, n: nat, id: TaskId)
    requires k < n <= |actions|
    ensures LostAt(q, actions[..n], k, id) <==> LostAt(q, actions, k, id)
  {
    assert actions[..n][..k] == actions[..k];
  }

  lemma {:induction false} LostInLongerRun(q: Queue, actions: seq<Action>, id: TaskId)
    requires actions != []
    ensures var n := |actions| - 1;
            LostInRun(q, actions, id) <==> LostInRun(q, actions[..n], id) || LostAt(q, actions, n, id)
  {
    var n := |actions| - 1;
    forall k: nat | k < n ensures LostAt(q, actions[..n], k, id) <==> LostAt(q, actions, k, id) {
      LostAtPrefix(q, actions, k, n, id);
    }
  }

  lemma {:induction false} CrashDoesLose(q: Queue, a: Action, id: TaskId)
    requires Inv(q) && CrashLoses(q, a, id)
    ensures Lost(Step(q, a), id)
  {
    assert Numbered(q, q.workers[a.worker].value) && Tracked(q, id);
  }

  lemma {:induction false} OnlyCrashLoses(q: Queue, a: Action, id: TaskId)
    requires Inv(q) && Lost(Step(q, a), id) && !Lost(q, id)
    ensures CrashLoses(q, a, id)
  {
    if id in q.submitted {
      assert Tracked(q, id);
    }
  }

  lemma {:induction false} LostStep(q: Queue, a: Action, id: TaskId)
    requires Inv(q)
    ensures Lost(Step(q, a), id) <==> Lost(q, id) || CrashLoses(q, a, id)
  {
    if Lost(q, id) {
      LostStays(q, a, id);
    } else if CrashLoses(q, a, id) {
      CrashDoesLose(q, a, id);
    } else if Lost(Step(q, a), id) {
      OnlyCrashLoses(q, a, id);
    }
  }

  /**
   * A task ends up delivered, without a result, and in nobody's hands exactly if some crash hit a worker that was
   * running it or had seen it fail. A crash behind the result, or behind the successor of a retry, loses nothing.
   */
  lemma {:induction false} LostIff(workers: nat, actions: seq<Action>, id: TaskId)
    ensures Lost(Run(Start(workers), actions), id) <==> LostInRun(Start(workers), actions, id)
  {
    if actions != [] {
      var n := |actions| - 1;
      LostIff(workers, actions[..n], id);
      LostInLongerRun(Start(workers), actions, id);
      RunKeeps(Start(workers), actions[..n]);
      LostStep(Run(Start(workers), actions[..n]), actions[n], id);
    }
  }

  lemma {:induction false} LostIsUnfinished(q: Queue, id: TaskId)
    requires Inv(q) && Lost(q, id)
    ensures id !in q.completed && id !in q.abandoned
  {
    assert Tracked(q, id);
  }

  /**
   * So when no worker can act any more, a submitted task is neither completed nor given up if and only if a crash
   * hit a worker that was running it or had seen it fail.
   */
  lemma {:induction false} UnfinishedIff(workers: nat, actions: seq<Action>, id: TaskId)
    requires var q := Run(Start(workers), actions);
             id in q.submitted && |q.workers| > 0 && forall w: nat :: w < |q.workers| ==> !CanAct(q, w)
    ensures var q := Run(Start(workers), actions);
            id !in q.completed && id !in q.abandoned <==> LostInRun(Start(workers), actions, id)
  {
    var q := Run(Start(workers), actions);
    RunKeeps(Start(workers), actions);
    LostIff(workers, actions, id);
    if Lost(q, id) {
      LostIsUnfinished(q, id);
    } else if !Settled(q, id) {
      UnsettledTasksMove(q, id);
    }
  }

  /** A message with a task gets stuck in the step that crashes its worker, and stays so. */
  lemma {:induction false} StuckStep(q: Queue, a: Action, i: nat)
    requires Inv(q) && i < |Step(q, a).entries| && Step(q, a).entries[i].task.Some?
    ensures Step(q, a).entries[i].phase == Stuck
            <==> (i < |q.entries| && q.entries[i].phase == Stuck) || CrashHits(q, a, i)
  {
  }

  lemma {:induction false} StuckIff(workers: nat, actions: seq<Action>, i: nat)
    requires i < |Run(Start(workers), actions).entries| && Run(Start(workers), actions).entries[i].task.Some?
    ensures Run(Start(workers), actions).entries[i].phase == Stuck <==> HitInRun(Start(workers), actions, i)
  {
    var n, q0 := |actions| - 1, Start(workers);
    var before := Run(q0, actions[..n]);
    RunKeeps(q0, actions[..n]);
    HitInLongerRun(q0, actions, i);
    StuckStep(before, actions[n], i);
    TasksStay(before, actions[n]);
    if i < |before.entries| {
      StuckIff(workers, actions[..n], i);
    } else {
      NotHitYet(workers, actions[..n], i);
    }
  }

  /** A message that is not in the stream yet cannot have been in anybody's hand. */
  lemma {:induction false} NotHitYet(workers: nat, actions: seq<Action>, i: nat)
    requires i >= |Run(Start(workers), actions).entries|
    ensures !HitInRun(Start(workers), actions, i)
  {
    if actions != [] {
      var n := |actions| - 1;
      TasksStay(Run(Start(workers), actions[..n]), actions[n]);
      NotHitYet(workers, actions[..n], i);
      HitInLongerRun(Start(workers), actions, i);
    }
  }

  /** Nobody has a message in hand when nobody can act, so a delivered message is acknowledged or stuck. */
  lemma {:induction false} DeliveredAtRest(q: Queue, i: nat)
    requires Inv(q) && i < q.next && forall w: nat :: w < |q.workers| ==> !CanAct(q, w)
    ensures q.entries[i].phase == Acked || q.entries[i].phase == Stuck
  {
    var holder := Holder(q.entries[i].phase);
    if holder.Some? {
      BusyWorkerActs(q, holder.value);
    }
  }

  /**
   * When no worker can act any more, a delivered message is acknowledged if and only if it is well-formed and
   * no crash hit a worker that had it in hand.
   */
  lemma {:induction false} AcknowledgedIff(workers: nat, actions: seq<Action>, i: nat)
    requires var q := Run(Start(workers), actions);
             i < q.next && forall w: nat :: w < |q.workers| ==> !CanAct(q, w)
    ensures var q := Run(Start(workers), actions);
            && q.next <= |q.entries|
            && (q.entries[i].phase == Acked <==> q.entries[i].task.Some? && !HitInRun(Start(workers), actions, i))
  {
    var q := Run(Start(workers), actions);
    RunKeeps(Start(workers), actions);
    DeliveredAtRest(q, i);
    if q.entries[i].task.Some? {
      StuckIff(workers, actions, i);
    }
  }

  /**
   * Without crashes, therefore, no task is lost, and when no worker can act any more, every task is completed or
   * given up, and exactly the malformed messages stay unacknowledged.
   */
  lemma {:induction false} WithoutCrashes(workers: nat, actions: seq<Action>)
    requires forall k :: 0 <= k < |actions| ==> !actions[k].Crash?
    ensures var q := Run(Start(workers), actions);
            && (forall id :: !Lost(q, id)) && q.next <= |q.entries|
            && (|q.workers| > 0 && (forall w: nat :: w < |q.workers| ==> !CanAct(q, w)) ==>
                  && (forall id :: id in q.submitted ==> id in q.completed || id in q.abandoned)
                  && forall i: nat :: i < q.next ==> (q.entries[i].phase == Acked <==> q.entries[i].task.Some?))
  {
    var q := Run(Start(workers), actions);
    RunKeeps(Start(workers), actions);
    forall id ensures !Lost(q, id) {
      LostIff(workers, actions, id);
    }
    if |q.workers| > 0 && forall w: nat :: w < |q.workers| ==> !CanAct(q, w) {
      forall id | id in q.submitted ensures id in q.completed || id in q.abandoned {
        UnfinishedIff(workers, actions, id);
      }
      forall i: nat | i < q.next ensures q.entries[i].phase == Acked <==> q.entries[i].task.Some? {
        AcknowledgedIff(workers, actions, i);
      }
    }
  }

  /** In every run a malformed message is stuck from its delivery on, and never acknowledged. */
  lemma {:induction false} MalformedIsStuck(workers: nat, actions: seq<Action>, i: nat)
    requires i < |Run(Start(workers), actions).entries| && Run(Start(workers), actions).entries[i].task.None?
    ensures var q := Run(Start(workers), actions);
            q.entries[i].phase == if i < q.next then Stuck else Unread
  {
    RunKeeps(Start(workers), actions);
  }

  // ----- What was submitted, completed and given up, by the run's own actions -----

  predicate HappensAt(q: Queue, actions: seq<Action>, k: nat, happens: (Queue, Action) -> bool)
    requires k < |actions|
  {
    happens(Run(q, actions[..k]), actions[k])
  }

  ghost predicate Ever(q: Queue, actions: seq<Action>, happens: (Queue, Action) -> bool) {
    exists k: nat :: k < |actions| && HappensAt(q, actions, k, happens)
  }

  lemma {:induction false} EverNext(q: Queue, actions: seq<Action>, happens: (Queue, Action) -> bool)
    requires actions != []
    ensures var n := |actions| - 1;
            Ever(q, actions, happens) <==> Ever(q, actions[..n], happens) || HappensAt(q, actions, n, happens)
  {
    var n := |actions| - 1;
    forall k: nat | k < n ensures HappensAt(q, actions[..n], k, happens) <==> HappensAt(q, actions, k, happens) {
      assert actions[..n][..k] == actions[..k];
    }
  }

  /** A worker's handler of the task returns without an error. */
  function Completes(id: TaskId): (Queue, Action) -> bool {
    (q: Queue, a: Action) =>
      a.Succeed? && Has(q, a.worker) && IsCopy(q.entries[q.workers[a.worker].value], id)
      && q.entries[q.workers[a.worker].value].phase == Executing(a.worker)
  }

  /** A worker puts the task aside that it has seen fail, because its limit allows no further attempt. */
  function GivesUp(id: TaskId): (Queue, Action) -> bool {
    (q: Queue, a: Action) =>
      a.Retry? && Has(q, a.worker) && IsCopy(q.entries[q.workers[a.worker].value], id)
      && q.entries[q.workers[a.worker].value].phase == Failing(a.worker)
      && var task := q.entries[q.workers[a.worker].value].task.value; task.retryCount + 1 >= task.maxRetries
  }

  lemma {:induction false} CompletedStep(q: Queue, a: Action, id: TaskId)
    ensures id in Step(q, a).completed <==> id in q.completed || Completes(id)(q, a)
  {
  }

  lemma {:induction false} AbandonedStep(q: Queue, a: Action, id: TaskId)
    ensures id in Step(q, a).abandoned <==> id in q.abandoned || GivesUp(id)(q, a)
  {
  }

  /** A task is completed exactly if some worker that was running it succeeded. */
  lemma {:induction false} CompletedIff(workers: nat, actions: seq<Action>, id: TaskId)
    ensures id in Run(Start(workers), actions).completed <==> Ever(Start(workers), actions, Completes(id))
  {
    if actions != [] {
      var n := |actions| - 1;
      CompletedIff(workers, actions[..n], id);
      EverNext(Start(workers), actions, Completes(id));
      CompletedStep(Run(Start(workers), actions[..n]), actions[n], id);
    }
  }

  /** And it is given up exactly if some worker that had seen it fail found its limit reached. */
  lemma {:induction false} AbandonedIff(workers: nat, actions: seq<Action>, id: TaskId)
    ensures id in Run(Start(workers), actions).abandoned <==> Ever(Start(workers), actions, GivesUp(id))
  {
    if actions != [] {
      var n := |actions| - 1;
      AbandonedIff(workers, actions[..n], id);
      EverNext(Start(workers), actions, GivesUp(id));
      AbandonedStep(Run(Start(workers), actions[..n]), actions[n], id);
    }
  }

  /** The task of the first submission of an ID; later ones of the same ID are not submissions of new tasks. */
  function FirstTask(actions: seq<Action>, id: TaskId): Option<Task> {
    if actions == [] then None
    else if actions[0].Submit? && actions[0].task.id == id then Some(actions[0].task)
    else FirstTask(actions[1..], id)
  }

  lemma {:induction false} FirstTaskNext(actions: seq<Action>, a: Action, id: TaskId)
    ensures FirstTask(actions + [a], id)
         == if FirstTask(actions, id).Some? then FirstTask(actions, id)
            else if a.Submit? && a.task.id == id then Some(a.task) else None
  {
    if actions == [] {
      assert (actions + [a])[0] == a && (actions + [a])[1..] == [];
    } else {
      assert (actions + [a])[0] == actions[0] && (actions + [a])[1..] == actions[1..] + [a];
      FirstTaskNext(actions[1..], a, id);
    }
  }

  lemma {:induction false} SubmittedStep(q: Queue, a: Action, id: TaskId)
    ensures var q' := Step(q, a);
            if id in q.submitted then id in q'.submitted && q'.submitted[id].initial == q.submitted[id].initial
            else if a.Submit? && a.task.id == id then id in q'.submitted && q'.submitted[id].initial == a.task
            else id !in q'.submitted
  {
  }

  /** What the queue goes by is what was submitted. */
  lemma {:induction false} SubmittedIff(workers: nat, actions: seq<Action>, id: TaskId)
    ensures var q := Run(Start(workers), actions);
            && (id in q.submitted <==> FirstTask(actions, id).Some?)
            && (id in q.submitted ==> FirstTask(actions, id) == Some(q.submitted[id].initial))
  {
    if actions != [] {
      var n := |actions| - 1;
      assert actions == actions[..n] + [actions[n]];
      SubmittedIff(workers, actions[..n], id);
      FirstTaskNext(actions[..n], actions[n], id);
      SubmittedStep(Run(Start(workers), actions[..n]), actions[n], id);
    }
  }

  /** How many messages of a list carry no task, and how many such messages were submitted. */
  function Malformed(entries: seq<Entry>): nat {
    if entries == [] then 0
    else Malformed(entries[..|entries| - 1]) + if entries[|entries| - 1].task.None? then 1 else 0
  }

  function MalformedSubmissions(actions: seq<Action>): nat {
    if actions == [] then 0
    else MalformedSubmissions(actions[..|actions| - 1]) + if actions[|actions| - 1].SubmitMalformed? then 1 else 0
  }

  lemma {:induction false} MalformedDependsOnTasks(a: seq<Entry>, b: seq<Entry>)
    requires |a| == |b| && forall i :: 0 <= i < |a| ==> a[i].task == b[i].task
    ensures Malformed(a) == Malformed(b)
  {
    if a != [] {
      MalformedDependsOnTasks(a[..|a| - 1], b[..|b| - 1]);
    }
  }

  /** A step adds at most one message, and one without a task only if that is what was submitted. */
  lemma {:induction false} EntriesStep(q: Queue, a: Action)
    ensures var entries := Step(q, a).entries;
            && |q.entries| <= |entries| <= |q.entries| + 1
            && (a.SubmitMalformed? <==> |entries| > |q.entries| && entries[|q.entries|].task.None?)
  {
  }

  lemma {:induction false} MalformedStep(q: Queue, a: Action)
    ensures Malformed(Step(q, a).entries) == Malformed(q.entries) + if a.SubmitMalformed? then 1 else 0
  {
    var n, entries := |q.entries|, Step(q, a).entries;
    EntriesStep(q, a);
    TasksStay(q, a);
    MalformedDependsOnTasks(q.entries, entries[..n]);
    assert |entries| == n ==> entries[..n] == entries;
  }

  lemma {:induction false} MalformedAreSubmitted(workers: nat, actions: seq<Action>)
    ensures Malformed(Run(Start(workers), actions).entries) == MalformedSubmissions(actions)
  {
    if actions != [] {
      var n := |actions| - 1;
      MalformedAreSubmitted(workers, actions[..n]);
      MalformedStep(Run(Start(workers), actions[..n]), actions[n]);
    }
  }

  // ----- The worker's loop body -----

  /** Message i, which failed in worker w, is given up, or acknowledged behind its successor. */
  function Retried(q: Queue, w: nat, i: nat): Queue
    requires w < |q.workers| && i < |q.entries|
  {
    match q.entries[i].task
    case None => q
    case Some(t) =>
      var idle := q.(workers := q.workers[w := None], entries := q.entries[i := Entry(Some(t), Acked)]);
      if t.retryCount + 1 >= t.maxRetries then idle.(abandoned := q.abandoned + {t.id})
      else idle.(entries := idle.entries + [Entry(Some(t.(retryCount := t.retryCount + 1)), Unread)],
                 submitted := if t.id in q.submitted
                              then q.submitted[t.id := q.submitted[t.id].(latest := |q.entries|)] else q.submitted)
  }

  /** One message, if there is one, is read and completed, or fails. */
  function Processed(q: Queue, w: nat, succeeds: Task -> bool): Queue
    requires w < |q.workers|
  {
    if q.next >= |q.entries| then q
    else
      var read := q.(next := q.next + 1);
      match q.entries[q.next].task
      case None => read.(entries := q.entries[q.next := Entry(None, Stuck)])
      case Some(t) =>
        if succeeds(t) then
          read.(entries := q.entries[q.next := Entry(Some(t), Acked)], completed := q.completed + {t.id})
        else Retried(read, w, q.next)
  }

  lemma {:induction false} RetrySteps(q: Queue, w: nat, i: nat)
    requires w < |q.workers| && i < |q.entries| && q.workers[w] == Some(i)
    requires q.entries[i].task.Some? && q.entries[i].phase == Failing(w)
    ensures w < |RetryStep(q, w).workers|
    ensures Retried(q, w, i) == if RetryStep(q, w).workers[w].Some? then AcknowledgeStep(RetryStep(q, w), w) else RetryStep(q, w)
  {
    var t := q.entries[i].task.value;
    if t.retryCount + 1 < t.maxRetries {
      assert AcknowledgeStep(RetryStep(q, w), w).entries == Retried(q, w, i).entries;
    }
  }

  lemma {:induction false} ProcessSteps(q: Queue, w: nat, succeeds: Task -> bool)
    requires w < |q.workers| && q.workers[w].None? && q.next < |q.entries|
    ensures var q1 := ReadStep(q, w);
            match q.entries[q.next].task
            case None => Processed(q, w, succeeds) == q1
            case Some(t) =>
              && w < |FailStep(q1, w).workers| && q.next < |FailStep(q1, w).entries|
              && FailStep(q1, w).workers[w] == Some(q.next)
              && FailStep(q1, w).entries[q.next] == Entry(Some(t), Failing(w))
              && Processed(q, w, succeeds)
                 == if succeeds(t) then AcknowledgeStep(SucceedStep(q1, w), w) else Retried(FailStep(q1, w), w, q.next)
  {
    var q1 := ReadStep(q, w);
    if q.entries[q.next].task.Some? {
      assert q.workers[w := Some(q.next)][w := None] == q.workers;
      var t := q.entries[q.next].task.value;
      var acked := q.entries[q.next := Entry(Some(t), Acked)];
      assert q1.entries[q.next := Entry(Some(t), Acked)] == acked;
      assert FailStep(q1, w).entries[q.next := Entry(Some(t), Acked)] == acked;
      assert q.workers[w := None] == q.workers;
    }
  }

  /** The stream as one consumer group sees it. */
  class TaskStream {
    var queue: Queue

    constructor (workers: nat)
      ensures Inv(queue) && queue == Start(workers)
    {
      queue := Start(workers);
    }
  }

  class TaskWorker {
    const consumer: nat
    const stream: TaskStream

    constructor (consumer: nat, stream: TaskStream)
      ensures this.consumer == consumer && this.stream == stream
    {
      this.consumer := consumer;
      this.stream := stream;
    }

    /** Give up or put the task back with one more retry counted; a malformed message is left as it is. */
    method RetryMessage(i: nat)
      requires Inv(stream.queue) && consumer < |stream.queue.workers| && i < |stream.queue.entries|
      requires stream.queue.entries[i].task.Some? ==>
                 stream.queue.workers[consumer] == Some(i) && stream.queue.entries[i].phase == Failing(consumer)
      modifies stream
      ensures Inv(stream.queue) && stream.queue == Retried(old(stream.queue), consumer, i)
    {
      if stream.queue.entries[i].task.None? {
        return;
      }
      RetrySteps(stream.queue, consumer, i);
      RetryKeeps(stream.queue, consumer);
      stream.queue := RetryStep(stream.queue, consumer);
      if stream.queue.workers[consumer].Some? {
        AcknowledgeKeeps(stream.queue, consumer);
        stream.queue := AcknowledgeStep(stream.queue, consumer);
      }
    }

    /** Read one message and handle it; succeeds says whether the invocation of a task's agent does. */
    method ProcessMessages(succeeds: Task -> bool)
      requires Inv(stream.queue) && consumer < |stream.queue.workers| && stream.queue.workers[consumer].None?
      modifies stream
      ensures Inv(stream.queue) && stream.queue == Processed(old(stream.queue), consumer, succeeds)
    {
      var i := stream.queue.next;
      if i == |stream.queue.entries| {
        return;
      }
      var task := stream.queue.entries[i].task;
      ProcessSteps(stream.queue, consumer, succeeds);
      ReadKeeps(stream.queue, consumer);
      stream.queue := ReadStep(stream.queue, consumer);
      if task.None? {
        RetryMessage(i);
      } else if succeeds(task.value) {
        SucceedKeeps(stream.queue, consumer);
        stream.queue := SucceedStep(stream.queue, consumer);
        AcknowledgeKeeps(stream.queue, consumer);
        stream.queue := AcknowledgeStep(stream.queue, consumer);
      } else {
        FailKeeps(stream.queue, consumer);
        stream.queue := FailStep(stream.queue, consumer);
        RetryMessage(i);
      }
    }
  }
}
