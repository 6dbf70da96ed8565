/** The off-io sender queue: many producers, one consumer that releases the lock while a task runs. */
module SendQueue {

  const MAX_SEND_QUEUE: nat := 4096

  /** Program points of sender_loop. At Top, WaitTest and Drain it holds g_send_q_mu. */
  datatype Pc<T> = NotStarted | Top | WaitTest | Asleep | Drain | Busy(task: T) | Exited

  datatype Fate = Taken | Dropped

  /** `enqueued` is every task ever pushed and `left[i]` the fate of the i-th once it has left the queue. */
  datatype History<T> = History(enqueued: seq<T>, left: seq<Fate>, ran: seq<T>, entered: bool)

  datatype State<T> = State(q: seq<T>, running: bool, pc: Pc<T>, hist: History<T>)

  datatype Event<T> = Enqueue(task: T) | Stop | SenderStep

  predicate LockFree<T>(s: State<T>) { !s.pc.Top? && !s.pc.WaitTest? && !s.pc.Drain? }

  function Init<T>(): State<T> {
    State([], true, NotStarted, History([], [], [], false))
  }

  /** enqueue_send_task: past the cap the oldest task goes. */
  function AfterEnqueue<T>(s: State<T>, task: T): State<T> {
    var full := |s.q| >= MAX_SEND_QUEUE;
    s.(q := (if full then s.q[1..] else s.q) + [task],
       hist := s.hist.(enqueued := s.hist.enqueued + [task],
                       left := if full then s.hist.left + [Dropped] else s.hist.left))
  }

  /** The next atomic piece of sender_loop. */
  function AfterSenderStep<T>(s: State<T>): State<T> {
    match s.pc
    case NotStarted => s.(pc := Top)
    case Top => if s.running then s.(pc := WaitTest, hist := s.hist.(entered := true)) else s.(pc := Exited)
    case WaitTest => s.(pc := if !s.running || s.q != [] then Drain else Asleep)
    case Asleep => s.(pc := WaitTest)
    case Drain =>
      if s.q == [] then s.(pc := Top)
      else s.(q := s.q[1..], pc := Busy(s.q[0]), hist := s.hist.(left := s.hist.left + [Taken]))
    case Busy(task) => s.(pc := Drain, hist := s.hist.(ran := s.hist.ran + [task]))
    case Exited => s
  }

  function Next<T>(s: State<T>, e: Event<T>): State<T> {
    match e
    case Enqueue(task) => if LockFree(s) then AfterEnqueue(s, task) else s
    case Stop => s.(running := false)
    case SenderStep => AfterSenderStep(s)
  }

  function Run<T>(es: seq<Event<T>>): State<T> {
    if es == [] then Init() else Next(Run(es[..|es| - 1]), es[|es| - 1])
  }

  // ---- FIFO ----------------------------------------------------------------

  /** The tasks the consumer took, in enqueue order. */
  function TakenOf<T>(tasks: seq<T>, fates: seq<Fate>): seq<T>
    requires |tasks| == |fates|
  {
    if tasks == [] then []
    else
      var n := |tasks| - 1;
      TakenOf(tasks[..n], fates[..n]) + (if fates[n].Taken? then [tasks[n]] else [])
  }

  ghost predicate Inv<T>(s: State<T>) {
    && |s.q| <= MAX_SEND_QUEUE
    && |s.hist.left| <= |s.hist.enqueued|
    && s.q == s.hist.enqueued[|s.hist.left|..]
    && TakenOf(s.hist.enqueued[..|s.hist.left|], s.hist.left) == s.hist.ran + (if s.pc.Busy? then [s.pc.task] else [])
    && (forall i :: 0 <= i < |s.hist.left| && s.hist.left[i].Dropped? ==> i + MAX_SEND_QUEUE < |s.hist.enqueued|)
    && (s.pc.NotStarted? ==> !s.hist.entered)
    && (s.pc.Top? && s.hist.entered ==> s.q == [])
  }

  lemma TakenOfSnoc<T>(tasks: seq<T>, fates: seq<Fate>, task: T, fate: Fate)
    requires |tasks| == |fates|
    ensures TakenOf(tasks + [task], fates + [fate]) == TakenOf(tasks, fates) + (if fate.Taken? then [task] else [])
  {
    assert (tasks + [task])[..|tasks|] == tasks && (fates + [fate])[..|fates|] == fates;
  }

  lemma EnqueueKeepsInv<T>(s: State<T>, task: T)
    requires Inv(s) && LockFree(s)
    ensures Inv(AfterEnqueue(s, task))
  {
    if |s.q| >= MAX_SEND_QUEUE {
      FullQueueKeepsInv(s, task);
    } else {
      var n := |s.hist.left|;
      assert (s.hist.enqueued + [task])[..n] == s.hist.enqueued[..n];
      assert (s.hist.enqueued + [task])[n..] == s.hist.enqueued[n..] + [task];
    }
  }

  lemma FullQueueKeepsInv<T>(s: State<T>, task: T)
    requires Inv(s) && LockFree(s) && |s.q| >= MAX_SEND_QUEUE
    ensures Inv(AfterEnqueue(s, task))
  {
    var n, tasks := |s.hist.left|, s.hist.enqueued + [task];
    assert tasks[..n + 1] == s.hist.enqueued[..n] + [s.q[0]];
    assert tasks[n + 1..] == s.q[1..] + [task];
    TakenOfSnoc(s.hist.enqueued[..n], s.hist.left, s.q[0], Dropped);
  }

  lemma SenderStepKeepsInv<T>(s: State<T>)
    requires Inv(s)
    ensures Inv(AfterSenderStep(s))
  {
    if s.pc.Drain? && s.q != [] {
      var n := |s.hist.left|;
      assert s.hist.enqueued[..n + 1] == s.hist.enqueued[..n] + [s.q[0]];
      TakenOfSnoc(s.hist.enqueued[..n], s.hist.left, s.q[0], Taken);
    }
  }

  lemma NextKeepsInv<T>(s: State<T>, e: Event<T>)
    requires Inv(s)
    ensures Inv(Next(s, e))
  {
    match e
    case Enqueue(task) => if LockFree(s) { EnqueueKeepsInv(s, task); }
    case Stop =>
    case SenderStep => SenderStepKeepsInv(s);
  }

  lemma {:induction false} RunKeepsInv<T>(es: seq<Event<T>>)
    ensures Inv(Run(es))
  {
    if es != [] {
      RunKeepsInv(es[..|es| - 1]);
      NextKeepsInv(Run(es[..|es| - 1]), es[|es| - 1]);
    }
  }

  /** Under any interleaving the tasks already gone are a prefix of the enqueue order, the queue is exactly the
      rest and never longer than the cap, what ran is the taken part of that prefix in order, each once, and
      a dropped task always has 4096 newer ones behind it. */
  lemma Fifo<T>(es: seq<Event<T>>)
    ensures
      var s := Run(es);
      var n := |s.hist.left|;
      && n + |s.q| == |s.hist.enqueued| && |s.q| <= MAX_SEND_QUEUE
      && s.q == s.hist.enqueued[n..]
      && s.hist.ran <= TakenOf(s.hist.enqueued[..n], s.hist.left)
      && |TakenOf(s.hist.enqueued[..n], s.hist.left)| <= |s.hist.ran| + 1
      && forall i :: 0 <= i < n && s.hist.left[i].Dropped? ==> i + MAX_SEND_QUEUE < |s.hist.enqueued|
  {
    RunKeepsInv(es);
  }

  /** Only a full queue drops, and then only its oldest task. */
  lemma DropsOnlyOldestOfFull<T>(es: seq<Event<T>>, e: Event<T>)
    requires Next(Run(es), e).hist.left == Run(es).hist.left + [Dropped]
    ensures e.Enqueue? && |Run(es).q| == MAX_SEND_QUEUE
    ensures |Run(es).hist.left| < |Run(es).hist.enqueued| && Run(es).q[0] == Run(es).hist.enqueued[|Run(es).hist.left|]
    ensures Next(Run(es), e).q == Run(es).q[1..] + [e.task]
  {
    RunKeepsInv(es);
    var s := Run(es);
    assert |s.hist.left + [Dropped]| == |s.hist.left| + 1;
    assert (s.hist.left + [Dropped])[|s.hist.left|] == Dropped;
  }

  // ---- Shutdown --------------------------------------------------------------

  function SenderSteps<T>(es: seq<Event<T>>): nat {
    if es == [] then 0 else SenderSteps(es[..|es| - 1]) + (if es[|es| - 1].SenderStep? then 1 else 0)
  }

  ghost predicate Stopped<T>(es: seq<Event<T>>) { exists i :: 0 <= i < |es| && es[i].Stop? }

  /** The sender's second step, its first test of g_sender_running, came before any stop. */
  ghost predicate StartedInTime<T>(es: seq<Event<T>>) {
    es != [] &&
      var p := es[..|es| - 1];
      StartedInTime(p) || (es[|es| - 1].SenderStep? && SenderSteps(p) == 1 && !Stopped(p))
  }

  /** Before its first successful test the sender takes nothing, and a full queue only trades its oldest task. */
  lemma {:induction false} NothingTakenBeforeStart<T>(es: seq<Event<T>>)
    ensures
      var s := Run(es);
      && (s.running <==> !Stopped(es))
      && (s.hist.entered <==> StartedInTime(es))
      && (!s.hist.entered ==>
            && (s.hist.enqueued != [] ==> s.q != [])
            && (s.pc.NotStarted? <==> SenderSteps(es) == 0)
            && (s.pc.Top? <==> SenderSteps(es) == 1)
            && (s.pc.NotStarted? || s.pc.Top? || s.pc.Exited?))
      && (s.hist.entered ==> SenderSteps(es) > 1)
  {
    if es != [] {
      NothingTakenBeforeStart(es[..|es| - 1]);
      assert Stopped(es) <==> Stopped(es[..|es| - 1]) || es[|es| - 1].Stop? by {
        if Stopped(es[..|es| - 1]) {
          var i :| 0 <= i < |es| - 1 && es[..|es| - 1][i].Stop?;
          assert es[i].Stop?;
        }
      }
    }
  }

  /** Whenever the thread exits, work is left behind if and only if something had been enqueued and the stop came
      before the loop's first test; in every other run shutdown drains the queue. */
  lemma ExitLeavesWorkIff<T>(es: seq<Event<T>>)
    requires Run(es).pc.Top? && AfterSenderStep(Run(es)).pc.Exited?
    ensures Run(es).q != [] <==> Run(es).hist.enqueued != [] && !StartedInTime(es)
  {
    RunKeepsInv(es);
    NothingTakenBeforeStart(es);
  }

  lemma StopBeforeStartAbandons<T>(task: T, es: seq<Event<T>>)
    requires es == [Enqueue(task), Stop, SenderStep, SenderStep]
    ensures Run(es).pc.Exited? && Run(es).q == [task]
  {
    assert es[..3] == [Enqueue(task), Stop, SenderStep];
    assert es[..3][..2] == [Enqueue(task), Stop];
    assert es[..3][..2][..1] == [Enqueue(task)];
    assert Run(es[..3][..2][..1]) == AfterEnqueue(Init(), task);
    assert Run(es[..3]).pc.Top? && !Run(es[..3]).running;
  }

  // ---- Progress ----------------------------------------------------------------

  /** The sender thread alone, for n steps. */
  function Alone<T>(s: State<T>, n: nat): State<T>
    decreases n
  {
    if n == 0 then s else Alone(AfterSenderStep(s), n - 1)
  }

  lemma {:induction false} AloneThen<T>(s: State<T>, m: nat, n: nat)
    ensures Alone(s, m + n) == Alone(Alone(s, m), n)
    decreases m
  {
    if m > 0 {
      AloneThen(AfterSenderStep(s), m - 1, n);
    }
  }

  /** The thread is inside its loop, or will be: it has not exited, and no stop came before it started. */
  predicate AtWork<T>(s: State<T>) { !s.pc.Exited? && (s.hist.entered || s.running) }

  /** The tasks it owes: the one in hand and the queue. */
  function Owed<T>(s: State<T>): seq<T> { InHand(s) + s.q }

  /** Its steps before it takes from a nonempty queue, or finishes the task in hand. */
  function Lead<T>(s: State<T>): nat {
    match s.pc
    case NotStarted => 3
    case Top => 2
    case Asleep => 2
    case WaitTest => 1
    case Busy(_) => 1
    case Drain => 0
    case Exited => 0
  }

  function InHand<T>(s: State<T>): seq<T> { if s.pc.Busy? then [s.pc.task] else [] }

  lemma LeadsToDrain<T>(s: State<T>)
    requires !s.pc.Exited? && Owed(s) != [] && (s.pc.NotStarted? || s.pc.Top? ==> s.running)
    ensures Alone(s, Lead(s)).pc.Drain? && Alone(s, Lead(s)).q == s.q
    ensures Alone(s, Lead(s)).hist.ran == s.hist.ran + InHand(s)
  {
    match s.pc
    case NotStarted => ThreeStepsAlone(s);
    case Top => TwoStepsAlone(s);
    case Asleep => TwoStepsAlone(s);
    case WaitTest => OneStepAlone(s);
    case Busy(_) => OneStepAlone(s);
    case Drain =>
  }

  /** A thread at work that owes a task and has not entered its loop finds itself running. */
  lemma AtWorkRuns<T>(es: seq<Event<T>>)
    requires AtWork(Run(es)) && Owed(Run(es)) != []
    ensures var s := Run(es); !s.pc.Exited? && (s.pc.NotStarted? || s.pc.Top? ==> s.running)
  {
    RunKeepsInv(es);
  }

  lemma OneStepAlone<T>(s: State<T>)
    ensures Alone(s, 1) == AfterSenderStep(s) == Next(s, SenderStep)
  {
  }

  lemma TwoStepsAlone<T>(s: State<T>)
    ensures Alone(s, 2) == AfterSenderStep(AfterSenderStep(s))
  {
  }

  lemma ThreeStepsAlone<T>(s: State<T>)
    ensures Alone(s, 3) == AfterSenderStep(AfterSenderStep(AfterSenderStep(s)))
  {
  }

  lemma {:induction false} DrainRunsAll<T>(s: State<T>)
    requires s.pc.Drain?
    ensures Alone(s, 2 * |s.q|).q == [] && Alone(s, 2 * |s.q|).pc.Drain?
    ensures Alone(s, 2 * |s.q|).hist.ran == s.hist.ran + s.q
    decreases |s.q|
  {
    if s.q == [] {
      assert s.hist.ran + [] == s.hist.ran;
    } else {
      var t := AfterSenderStep(AfterSenderStep(s));
      assert Alone(s, 2 * |s.q|) == Alone(t, 2 * |s.q| - 2);
      DrainRunsAll(t);
      assert s.hist.ran + [s.q[0]] + s.q[1..] == s.hist.ran + s.q;
    }
  }

  function OnlySender<T>(n: nat): (es: seq<Event<T>>)
    ensures |es| == n
  {
    if n == 0 then [] else OnlySender(n - 1) + [SenderStep]
  }

  lemma {:induction false} AloneIsRun<T>(es: seq<Event<T>>, n: nat)
    ensures Run(es + OnlySender(n)) == Alone(Run(es), n)
  {
    if n == 0 {
      assert es + [] == es;
    } else {
      AloneIsRun(es, n - 1);
      AloneThen(Run(es), n - 1, 1);
      OneStepAlone(Alone(Run(es), n - 1));
      RunSnoc(es + OnlySender(n - 1), SenderStep);
      assert es + OnlySender(n) == es + OnlySender(n - 1) + [SenderStep];
    }
  }

  lemma RunSnoc<T>(es: seq<Event<T>>, e: Event<T>)
    ensures Run(es + [e]) == Next(Run(es), e)
  {
    assert (es + [e])[..|es|] == es;
  }

  /** From every reachable state the oldest task is taken within four steps of the sender, and run by the next:
      nothing but the sender's own steps is needed. */
  lemma NextTaskRuns<T>(es: seq<Event<T>>)
    requires AtWork(Run(es)) && Run(es).q != []
    ensures
      var s := Run(es);
      var taken := Run(es + OnlySender(Lead(s) + 1));
      && Lead(s) + 1 <= 4
      && taken.pc == Busy(s.q[0]) && taken.q == s.q[1..]
      && Run(es + OnlySender(Lead(s) + 2)).hist.ran == s.hist.ran + InHand(s) + [s.q[0]]
  {
    var s := Run(es);
    AtWorkRuns(es);
    LeadsToDrain(s);
    AloneIsRun(es, Lead(s) + 1);
    AloneIsRun(es, Lead(s) + 2);
    AloneThen(s, Lead(s), 1);
    AloneThen(s, Lead(s), 2);
    TakesOne(Alone(s, Lead(s)));
  }

  lemma TakesOne<T>(d: State<T>)
    requires d.pc.Drain? && d.q != []
    ensures Alone(d, 1).pc == Busy(d.q[0]) && Alone(d, 1).q == d.q[1..]
    ensures Alone(d, 2).hist.ran == d.hist.ran + [d.q[0]]
  {
    assert Alone(d, 1) == AfterSenderStep(d);
    assert Alone(d, 2) == AfterSenderStep(AfterSenderStep(d));
  }

  lemma DrainsAlone<T>(s: State<T>, n: nat)
    requires !s.pc.Exited? && Owed(s) != [] && (s.pc.NotStarted? || s.pc.Top? ==> s.running)
    requires n == Lead(s) + 2 * |s.q|
    ensures Alone(s, n).q == [] && !Alone(s, n).pc.Busy? && Alone(s, n).hist.ran == s.hist.ran + Owed(s)
  {
    LeadsToDrain(s);
    var d := Alone(s, Lead(s));
    AloneThen(s, Lead(s), 2 * |d.q|);
    DrainRunsAll(d);
    assert s.hist.ran + InHand(s) + s.q == s.hist.ran + Owed(s);
  }

  /** And all that is queued runs, in order, within three steps and two more for each task. */
  lemma QueueDrains<T>(es: seq<Event<T>>, n: nat)
    requires AtWork(Run(es)) && Owed(Run(es)) != [] && n == Lead(Run(es)) + 2 * |Run(es).q|
    ensures n <= 3 + 2 * |Run(es).q|
    ensures Run(es + OnlySender(n)).q == [] && !Run(es + OnlySender(n)).pc.Busy?
    ensures Run(es + OnlySender(n)).hist.ran == Run(es).hist.ran + Owed(Run(es))
  {
    AtWorkRuns(es);
    DrainsAlone(Run(es), n);
    AloneIsRun(es, n);
  }

  // ---- The queue, updated in place -----------------------------------------

  class Sender<T> {
    var q: seq<T>        // g_send_q
    var running: bool    // g_sender_running
    var pc: Pc<T>
    ghost var hist: History<T>

    ghost function View(): State<T>
      reads this
    {
      State(q, running, pc, hist)
    }

    constructor ()
      ensures View() == Init()
    {
      q, running, pc, hist := [], true, NotStarted, History([], [], [], false);
    }

    method EnqueueSendTask(task: T)
      requires LockFree(View())
      modifies this
      ensures View() == Next(old(View()), Enqueue(task))
    {
      if |q| >= MAX_SEND_QUEUE {
        q := q[1..];
        hist := hist.(left := hist.left + [Dropped]);
      }
      q := q + [task];
      hist := hist.(enqueued := hist.enqueued + [task]);
    }

    method StopSender()
      modifies this`running
      ensures View() == Next(old(View()), Stop)
    {
      running := false;
    }

    /** sender_loop up to its next unlock, lock or test. */
    method Step()
      modifies this
      ensures View() == Next(old(View()), SenderStep)
    {
      match pc {
        case NotStarted =>
          pc := Top;
        case Top =>
          if running {
            pc := WaitTest;
            hist := hist.(entered := true);
          } else {
            pc := Exited;
          }
        case WaitTest =>
          pc := if !running || q != [] then Drain else Asleep;
        case Asleep =>
          pc := WaitTest;
        case Drain =>
          if q == [] {
            pc := Top;
          } else {
            pc := Busy(q[0]);
            q := q[1..];
            hist := hist.(left := hist.left + [Taken]);
          }
        case Busy(task) =>
          pc := Drain;
          hist := hist.(ran := hist.ran + [task]);
        case Exited =>
      }
    }
  }
}
