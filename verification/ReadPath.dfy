/** The read path of one CTR client: its event queue, its semaphore and its read timer together, under every
    interleaving of interrupt-handler posts, readers entering, waking, testing, cancelling and dequeuing, and
    timers firing. All readers share one timer field: starting a read overwrites it, a reader that comes back
    from swait cancels whatever timer it names, and a timer that fires clears it and resets the semaphore. A
    reader that finds it cleared leaves without an event. Queueing is on. */
module ReadPath {
  import Q = ClientQueue
  import S = SemaphoreRuns
  import opened Semaphore

  datatype State<T> = State(
    sem: S.State,
    queue: Q.Run<T>,
    timeout: bool,            // ccon->Timeout is non-zero
    timer: nat,               // ccon->Timer, 0 for none
    pending: set<nat>,        // timers that the kernel will fire unless they are cancelled
    passed: set<Ticket>,      // readers past the test of ccon->Timer
    ready: set<Ticket>,       // ... and past CancelTimeout
    tested: set<Ticket>,      // ... and past the test of queue->Size
    served: set<Ticket>,      // readers that have dequeued
    turned: set<Ticket>,      // readers that found the queue empty: EINTR
    expired: set<Ticket>,     // readers that found no timer: ETIME
    underflow: bool)          // a dequeue ran on an empty queue; the model ends there

  datatype Step<T> =
    | Post(x: T)
    | Overflow
    | SetTimeout(on: bool)
    | Arm(h: nat)                        // CtrDrvrRead starts timer h; 0 if none is available: EBUSY
    | Enter(signalled: bool)             // it reaches swait
    | Wake(t: Ticket, signalled: bool)   // a sleeping reader is scheduled
    | TimerTest(t: Ticket)               // `if (ccon->Timer)` after swait
    | Cancel(t: Ticket)                  // CancelTimeout
    | SizeTest(t: Ticket)                // `if (queue->Size)`
    | Dequeue(t: Ticket)
    | Fire(h: nat)                       // ReadTimeout

  function Start<T>(blank: T, timeout: bool): State<T> {
    State(S.Init(0), Q.Start(blank), timeout, 0, {}, {}, {}, {}, {}, {}, {}, false)
  }

  predicate Admitted<T>(s: State<T>, t: Ticket) {
    t < |s.sem.phases| && s.sem.phases[t] == S.Returned(Acquired)
  }

  function Apply<T>(s: State<T>, step: Step<T>): State<T>
    requires s.queue.ring.Valid() && s.queue.ring.size <= |s.queue.posted|
  {
    match step
    case Post(x) =>
      s.(queue := Q.Apply(s.queue, Q.Post(x)),
         sem := if s.queue.ring.Full() then s.sem else S.Apply(s.sem, S.Signal(1)))
    case Overflow => s.(queue := Q.Apply(s.queue, Q.Overflow))
    case SetTimeout(on) => s.(timeout := on)
    case Arm(h) =>
      if !s.timeout || h in s.pending then s
      else if h == 0 then s.(timer := 0)
      else s.(timer := h, pending := s.pending + {h})
    case Enter(signalled) => s.(sem := S.Apply(s.sem, S.Down(signalled, false)))
    case Wake(t, signalled) => s.(sem := S.Apply(s.sem, S.Resume(t, signalled, false)))
    case TimerTest(t) =>
      if !Admitted(s, t) || t in s.passed || t in s.expired then s
      else if s.timeout && s.timer == 0 then s.(expired := s.expired + {t})
      else s.(passed := s.passed + {t}, ready := if s.timeout then s.ready else s.ready + {t})
    case Cancel(t) =>
      if t !in s.passed || t in s.ready then s
      else s.(ready := s.ready + {t}, pending := s.pending - {s.timer}, timer := 0)
    case SizeTest(t) =>
      if t !in s.ready || t in s.tested || t in s.turned then s
      else if s.queue.ring.size == 0 then s.(turned := s.turned + {t})
      else s.(tested := s.tested + {t})
    case Dequeue(t) =>
      if t !in s.tested || t in s.served then s
      else if s.queue.ring.size == 0 then s.(underflow := true)
      else s.(queue := Q.Apply(s.queue, Q.Pop), served := s.served + {t})
    case Fire(h) =>
      if h !in s.pending then s
      else s.(pending := s.pending - {h}, timer := 0, sem := S.Apply(s.sem, S.SReset))
  }

  // ---------- what every step keeps ----------

  ghost predicate Inv<T>(s: State<T>) {
    && S.Inv(s.sem)
    && Q.Inv(s.queue)
    && s.sem.initial == 0
    && s.sem.signals == |s.queue.posted| - s.queue.lost
    && |s.served| == |s.queue.taken|
    && s.served <= s.tested <= s.ready <= s.passed
    && s.turned <= s.ready && s.turned !! s.tested && s.passed !! s.expired
    && (forall t :: t in s.passed || t in s.expired ==> Admitted(s, t))
  }

  /** A semaphore step takes no admitted reader back. */
  lemma SemStep<T>(s: State<T>, step: S.Step)
    requires Inv(s)
    ensures S.Inv(S.Apply(s.sem, step))
    ensures forall t :: Admitted(s, t) ==> Admitted(s.(sem := S.Apply(s.sem, step)), t)
  {
    S.StepKeepsInv(s.sem, step);
    if step.Signal? { S.UpNShrinks(s.sem.core, step.n); }
    forall t | Admitted(s, t) ensures t !in s.sem.core.waitList {
      assert !S.WaitingAt(s.sem, t);
    }
  }

  /** A step that only moves a reader on, or sets the timer. */
  predicate Local<T>(step: Step<T>) {
    step.SetTimeout? || step.Arm? || step.TimerTest? || step.Cancel? || step.SizeTest?
  }

  lemma LocalKeepsInv<T>(s: State<T>, step: Step<T>)
    requires Inv(s) && Local(step)
    ensures s.queue.ring.Valid() && s.queue.ring.size <= |s.queue.posted| && Inv(Apply(s, step))
  {
    QueueOk(s);
    hide S.Inv, Q.Inv, S.Apply, Q.Apply;
  }

  lemma QueueKeepsInv<T>(s: State<T>, step: Step<T>)
    requires Inv(s) && (step.Post? || step.Overflow? || step.Dequeue?)
    ensures s.queue.ring.Valid() && s.queue.ring.size <= |s.queue.posted| && Inv(Apply(s, step))
  {
    QueueOk(s);
    hide S.Inv, Q.Inv, S.Apply, Q.Apply;
    match step
    case Post(x) =>
      PostCounts(s, x);
      SemStep(s, S.Signal(1));
    case Overflow => OverflowCounts(s);
    case Dequeue(t) => if t in s.tested && t !in s.served && s.queue.ring.size > 0 { PopCounts(s); }
    case _ =>
  }

  lemma CallKeepsInv<T>(s: State<T>, step: Step<T>)
    requires Inv(s) && (step.Enter? || step.Wake? || step.Fire?)
    ensures s.queue.ring.Valid() && s.queue.ring.size <= |s.queue.posted| && Inv(Apply(s, step))
  {
    QueueOk(s);
    hide S.Inv, Q.Inv, S.Apply, Q.Apply;
    match step
    case Enter(signalled) => CallCounts(s, S.Down(signalled, false));
    case Wake(t, signalled) => CallCounts(s, S.Resume(t, signalled, false));
    case Fire(h) => CallCounts(s, S.SReset);
    case _ =>
  }

  lemma StepKeepsInv<T>(s: State<T>, step: Step<T>)
    requires Inv(s)
    ensures s.queue.ring.Valid() && s.queue.ring.size <= |s.queue.posted| && Inv(Apply(s, step))
  {
    hide Inv, Apply;
    if Local(step) {
      LocalKeepsInv(s, step);
    } else if step.Post? || step.Overflow? || step.Dequeue? {
      QueueKeepsInv(s, step);
    } else {
      CallKeepsInv(s, step);
    }
  }

  lemma QueueOk<T>(s: State<T>)
    requires Inv(s)
    ensures s.queue.ring.Valid() && s.queue.ring.size <= |s.queue.posted|
  {
  }

  lemma PostCounts<T>(s: State<T>, x: T)
    requires Inv(s)
    ensures s.queue.ring.Valid()
    ensures var q := Q.Apply(s.queue, Q.Post(x));
            && Q.Inv(q) && q.taken == s.queue.taken
            && |q.posted| - q.lost == |s.queue.posted| - s.queue.lost + if s.queue.ring.Full() then 0 else 1
    ensures S.Apply(s.sem, S.Signal(1)).initial == 0 && S.Apply(s.sem, S.Signal(1)).signals == s.sem.signals + 1
  {
    Q.ApplyKeepsInv(s.queue, Q.Post(x));
  }

  lemma OverflowCounts<T>(s: State<T>)
    requires Inv(s)
    ensures s.queue.ring.Valid()
    ensures var q := Q.Apply(s.queue, Q.Overflow);
            Q.Inv(q) && q.taken == s.queue.taken && q.posted == s.queue.posted && q.lost == s.queue.lost
  {
    Q.ApplyKeepsInv(s.queue, Q.Overflow);
  }

  lemma PopCounts<T>(s: State<T>)
    requires Inv(s) && s.queue.ring.size > 0
    ensures s.queue.ring.Valid()
    ensures var q := Q.Apply(s.queue, Q.Pop);
            Q.Inv(q) && |q.taken| == |s.queue.taken| + 1 && q.posted == s.queue.posted && q.lost == s.queue.lost
  {
    Q.ApplyKeepsInv(s.queue, Q.Pop);
  }

  lemma CallCounts<T>(s: State<T>, step: S.Step)
    requires Inv(s) && (step.Down? || step.Resume? || step.SReset?)
    ensures var r := S.Apply(s.sem, step); S.Inv(r) && r.initial == s.sem.initial && r.signals == s.sem.signals
    ensures forall t :: Admitted(s, t) ==> Admitted(s.(sem := S.Apply(s.sem, step)), t)
  {
    SemStep(s, step);
  }

  function Run<T>(s: State<T>, steps: seq<Step<T>>): State<T>
    requires Inv(s)
    decreases |steps|
  {
    if steps == [] then s else
      StepKeepsInv(s, steps[0]);
      Run(Apply(s, steps[0]), steps[1..])
  }

  lemma {:induction false} RunKeepsInv<T>(s: State<T>, steps: seq<Step<T>>)
    requires Inv(s)
    ensures Inv(Run(s, steps))
    decreases |steps|
  {
    if steps != [] {
      StepKeepsInv(s, steps[0]);
      RunKeepsInv(Apply(s, steps[0]), steps[1..]);
    }
  }

  lemma StartInv<T>(blank: T, timeout: bool)
    ensures Inv(Start(blank, timeout))
  {
    hide S.Inv, Q.Inv;
    QueueStarts(blank);
    SemaphoreStarts();
  }

  lemma QueueStarts<T>(blank: T)
    ensures Q.Inv(Q.Start(blank))
  {
    assert Q.Start(blank).ring.Contents() == [];
  }

  lemma SemaphoreStarts()
    ensures S.Inv(S.Init(0))
  {
    assert forall t: Ticket :: !S.WaitingAt(S.Init(0), t) && !S.GrantedAt(S.Init(0), t);
  }

  // ---------- the ledger ----------

  /** Readers that hold a grant and have neither dequeued nor left. */
  function UnderWay<T>(s: State<T>): int { |s.sem.grants| - |s.served| - |s.turned| - |s.expired| }

  /** Queued events that no token and no reader stands for; negative if it is the other way round. */
  function Stranded<T>(s: State<T>): int { s.queue.ring.size - s.sem.core.count - UnderWay(s) }

  lemma LedgerOf<T>(s: State<T>)
    requires Inv(s)
    ensures Stranded(s) == |s.expired| + |s.turned| + s.sem.resetDiscards - s.sem.resetWakeUps
  {
  }

  /** In every state of every run, timers firing and all: the queued events are the tokens, the readers
      under way, the reads that left empty-handed and the tokens that timers discarded, less the readers
      that timers woke. */
  lemma Ledger<T>(blank: T, timeout: bool, steps: seq<Step<T>>)
    ensures Inv(Start(blank, timeout))
    ensures var s := Run(Start(blank, timeout), steps);
            !s.underflow ==>
              && s.queue.ring.size + s.sem.resetWakeUps ==
                 s.sem.core.count + UnderWay(s) + |s.expired| + |s.turned| + s.sem.resetDiscards
              && |s.queue.posted| == |s.served| + s.queue.ring.size + s.queue.lost
  {
    StartInv(blank, timeout);
    RunKeepsInv(Start(blank, timeout), steps);
    LedgerOf(Run(Start(blank, timeout), steps));
  }

  /** The events readers get are posts, in posting order, and each post is served, queued or missed. */
  lemma ReadersGetPostsInOrder<T>(blank: T, timeout: bool, steps: seq<Step<T>>)
    ensures Inv(Start(blank, timeout))
    ensures var s := Run(Start(blank, timeout), steps);
            !s.underflow ==>
              && |s.queue.taken| == |s.served| == |s.queue.readAt|
              && (forall i, j :: 0 <= i < j < |s.queue.readAt| ==> s.queue.readAt[i] < s.queue.readAt[j])
              && (forall i :: 0 <= i < |s.queue.taken| ==> s.queue.readAt[i] < |s.queue.posted|
                                                           && s.queue.taken[i] == s.queue.posted[s.queue.readAt[i]])
              && |s.queue.posted| == |s.served| + s.queue.ring.size + s.queue.lost
  {
    StartInv(blank, timeout);
    RunKeepsInv(Start(blank, timeout), steps);
  }

  // ---------- runs in which no timer fires ----------

  ghost predicate Quiet<T>(s: State<T>) {
    Inv(s) && s.sem.resetWakeUps == s.sem.resetDiscards == 0 && s.turned == {} && !s.underflow
  }

  lemma {:induction false} DistinctCount(s: seq<Ticket>, a: set<Ticket>)
    requires S.Increasing(s) && forall t :: t in a ==> t in s
    ensures |a| <= |s|
    decreases |s|
  {
    if s == [] {
      assert a == {};
    } else {
      var last := s[|s| - 1];
      assert s == s[..|s| - 1] + [last];
      DistinctCount(s[..|s| - 1], a - {last});
    }
  }

  /** A reader under way is one more than those that have finished. */
  lemma ReaderCounts<T>(s: State<T>, t: Ticket)
    requires Inv(s) && t in s.passed && t !in s.served && t !in s.turned
    ensures UnderWay(s) > 0
  {
    var done := s.served + s.turned + s.expired;
    assert |done| == |s.served| + |s.turned| + |s.expired| by {
      assert s.served !! s.turned && (s.served + s.turned) !! s.expired;
      assert |s.served + s.turned| == |s.served| + |s.turned|;
    }
    forall u | u in done + {t} ensures u in s.sem.grants {
      assert Admitted(s, u) && S.GrantedAt(s.sem, u);
    }
    DistinctCount(s.sem.grants, done + {t});
  }

  lemma NoResets(s: S.State, step: S.Step)
    requires !step.SReset?
    ensures var r := S.Apply(s, step); r.resetWakeUps == s.resetWakeUps && r.resetDiscards == s.resetDiscards
  {
  }

  lemma QuietStep<T>(s: State<T>, step: Step<T>)
    requires Quiet(s) && !step.Fire?
    ensures s.queue.ring.Valid() && s.queue.ring.size <= |s.queue.posted| && Quiet(Apply(s, step))
  {
    hide Inv, S.Apply, Q.Apply;
    assert s.queue.ring.Valid() && s.queue.ring.size <= |s.queue.posted| by { QueueOk(s); }
    StepKeepsInv(s, step);
    match step
    case Post(x) => NoResets(s.sem, S.Signal(1));
    case Enter(signalled) => NoResets(s.sem, S.Down(signalled, false));
    case Wake(t, signalled) => NoResets(s.sem, S.Resume(t, signalled, false));
    case SizeTest(t) => HasEvent(s, t);
    case Dequeue(t) => HasEvent(s, t);
    case _ =>
  }

  /** While no timer has fired, a reader that gets as far as the queue finds an event there. */
  lemma HasEvent<T>(s: State<T>, t: Ticket)
    requires Quiet(s)
    ensures t in s.passed && t !in s.served ==> s.queue.ring.size > 0
    ensures s.served <= s.tested <= s.passed && s.ready <= s.passed
  {
    if t in s.passed && t !in s.served {
      LedgerOf(s);
      ReaderCounts(s, t);
    }
  }

  lemma {:induction false} QuietRun<T>(s: State<T>, steps: seq<Step<T>>)
    requires Quiet(s) && forall i :: 0 <= i < |steps| ==> !steps[i].Fire?
    ensures Quiet(Run(s, steps))
    decreases |steps|
  {
    hide Quiet, Inv;
    QuietInv(s);
    QueueOk(s);
    if steps != [] {
      QuietStep(s, steps[0]);
      StepKeepsInv(s, steps[0]);
      QuietRun(Apply(s, steps[0]), steps[1..]);
    }
  }

  lemma QuietInv<T>(s: State<T>)
    requires Quiet(s)
    ensures Inv(s)
  {
  }

  /** A granted reader that tests the timer with timeouts on finds one running: the guard of the ETIME branch. */
  predicate FindsTimer<T>(s: State<T>, step: Step<T>) {
    step.TimerTest? && Admitted(s, step.t) && step.t !in s.passed && step.t !in s.expired ==> !(s.timeout && s.timer == 0)
  }

  /** ... at every step of a run. */
  predicate TimersHeld<T>(s: State<T>, steps: seq<Step<T>>)
    requires Inv(s)
    decreases |steps|
  {
    steps == [] || (FindsTimer(s, steps[0]) && (StepKeepsInv(s, steps[0]); TimersHeld(Apply(s, steps[0]), steps[1..])))
  }

  lemma ExpiredGrows<T>(s: State<T>, step: Step<T>)
    requires Inv(s)
    ensures s.queue.ring.Valid() && s.queue.ring.size <= |s.queue.posted|
    ensures s.expired <= Apply(s, step).expired && (Apply(s, step).expired == s.expired <==> FindsTimer(s, step))
  {
    QueueOk(s);
    hide Inv, S.Apply, Q.Apply;
  }

  lemma {:induction false} ExpiredIff<T>(s: State<T>, steps: seq<Step<T>>)
    requires Inv(s)
    ensures s.expired <= Run(s, steps).expired && (Run(s, steps).expired == s.expired <==> TimersHeld(s, steps))
    decreases |steps|
  {
    hide Inv, Apply, FindsTimer;
    if steps != [] {
      ExpiredGrows(s, steps[0]);
      StepKeepsInv(s, steps[0]);
      ExpiredIff(Apply(s, steps[0]), steps[1..]);
    }
  }

  /** In every run in which no timer fires, no reader is turned away from an empty queue, no dequeue runs on one,
      and the events that neither a token nor a reader stands for are as many as the reads that left with ETIME.
      So tokens and events match if and only if no granted reader ever tested a timer that was gone. */
  lemma WithoutFire<T>(blank: T, timeout: bool, steps: seq<Step<T>>)
    requires forall i :: 0 <= i < |steps| ==> !steps[i].Fire?
    ensures Inv(Start(blank, timeout))
    ensures var s := Run(Start(blank, timeout), steps);
            && s.turned == {} && !s.underflow
            && s.queue.ring.size == s.sem.core.count + UnderWay(s) + |s.expired|
            && (s.queue.ring.size == s.sem.core.count + UnderWay(s) <==> TimersHeld(Start(blank, timeout), steps))
  {
    StartInv(blank, timeout);
    QuietRun(Start(blank, timeout), steps);
    LedgerOf(Run(Start(blank, timeout), steps));
    ExpiredIff(Start(blank, timeout), steps);
    assert |Run(Start(blank, timeout), steps).expired| == 0 <==> Run(Start(blank, timeout), steps).expired == {};
  }

  // ---------- runs without read timeouts ----------

  ghost predicate Untimed<T>(s: State<T>) { Quiet(s) && !s.timeout && s.pending == {} && s.expired == {} }

  lemma UntimedStep<T>(s: State<T>, step: Step<T>)
    requires Untimed(s) && !(step.SetTimeout? && step.on)
    ensures Inv(s) && s.queue.ring.Valid() && s.queue.ring.size <= |s.queue.posted| && Untimed(Apply(s, step))
  {
    hide Quiet, Inv, S.Apply, Q.Apply;
    QuietInv(s);
    QueueOk(s);
    if !step.Fire? { QuietStep(s, step); }
  }

  lemma {:induction false} UntimedRun<T>(s: State<T>, steps: seq<Step<T>>)
    requires Inv(s) && Untimed(s) && forall i :: 0 <= i < |steps| ==> !(steps[i].SetTimeout? && steps[i].on)
    ensures Untimed(Run(s, steps))
    decreases |steps|
  {
    hide Untimed, Inv;
    if steps != [] {
      QueueOk(s);
      StepKeepsInv(s, steps[0]);
      UntimedStep(s, steps[0]);
      UntimedRun(Apply(s, steps[0]), steps[1..]);
    }
  }

  /** While read timeouts are off, in every state of every run, including through queue overflow, the tokens in
      the semaphore plus the readers granted but not yet served are exactly the events queued. So no reader is
      turned away, a dequeue never runs on an empty queue, and no reader sleeps while an event is unclaimed. */
  lemma TokensMatchEvents<T>(blank: T, steps: seq<Step<T>>)
    requires forall i :: 0 <= i < |steps| ==> !(steps[i].SetTimeout? && steps[i].on)
    ensures Inv(Start(blank, false))
    ensures var s := Run(Start(blank, false), steps);
            && s.sem.core.count + UnderWay(s) == s.queue.ring.size
            && s.turned == s.expired == {} && !s.underflow
            && (forall t :: t in s.tested && t !in s.served ==> s.queue.ring.size > 0)
            && (s.sem.core.waitList != [] ==> s.queue.ring.size == UnderWay(s))
  {
    hide Inv;
    StartInv(blank, false);
    UntimedRun(Start(blank, false), steps);
    var s := Run(Start(blank, false), steps);
    QuietInv(s);
    LedgerOf(s);
    OneOrOther(s);
    forall t | t in s.tested && t !in s.served ensures s.queue.ring.size > 0 { HasEvent(s, t); }
  }

  // ---------- what a timer strands ----------

  /** Readers that hold a grant and have not tested the timer yet. */
  function Undecided<T>(s: State<T>): int { |s.sem.grants| - |s.passed| - |s.expired| }

  /** Each of these readers runs on to its test of the timer. */
  function RunOn<T>(ts: seq<Ticket>): seq<Step<T>> {
    if ts == [] then [] else [Wake(ts[0], false), TimerTest(ts[0])] + RunOn(ts[1..])
  }

  function Without(g: seq<Ticket>, a: set<Ticket>): (r: seq<Ticket>)
    ensures forall t :: t in r <==> t in g && t !in a
  {
    if g == [] then [] else
      var rest := Without(g[..|g| - 1], a);
      if g[|g| - 1] in a then rest else rest + [g[|g| - 1]]
  }

  lemma {:induction false} WithoutCount(g: seq<Ticket>, a: set<Ticket>)
    requires S.Increasing(g) && forall t :: t in a ==> t in g
    ensures |Without(g, a)| == |g| - |a| && S.Increasing(Without(g, a))
    decreases |g|
  {
    hide Without, S.Increasing;
    WithoutStep(g, a);
    if g == [] {
      assert a == {};
      NoneIncreasing();
    } else {
      var front, last := g[..|g| - 1], g[|g| - 1];
      var b := a - {last};
      FrontOf(g);
      WithoutCount(front, b);
      WithoutSame(front, a, b);
      if last !in a {
        assert b == a;
        S.AppendIncreasing(Without(front, a), last);
      }
    }
  }

  lemma WithoutStep(g: seq<Ticket>, a: set<Ticket>)
    ensures Without(g, a) ==
            if g == [] then [] else
              var rest := Without(g[..|g| - 1], a);
              if g[|g| - 1] in a then rest else rest + [g[|g| - 1]]
  {
  }

  lemma NoneIncreasing()
    ensures S.Increasing([])
  {
  }

  lemma FrontOf(g: seq<Ticket>)
    requires S.Increasing(g) && g != []
    ensures var front, last := g[..|g| - 1], g[|g| - 1];
            && S.Increasing(front) && (forall t :: t in front ==> t < last)
            && forall t :: t in g <==> t in front || t == last
  {
    assert g == g[..|g| - 1] + [g[|g| - 1]];
  }

  lemma {:induction false} WithoutSame(g: seq<Ticket>, a: set<Ticket>, b: set<Ticket>)
    requires forall t :: t in g ==> (t in a <==> t in b)
    ensures Without(g, a) == Without(g, b)
    decreases |g|
  {
    if g != [] {
      assert g[|g| - 1] in g;
      WithoutSame(g[..|g| - 1], a, b);
    }
  }

  /** A reader with a grant that has not tested the timer. */
  predicate Holds<T>(s: State<T>, t: Ticket) { S.GrantedAt(s.sem, t) && t !in s.passed && t !in s.expired }

  lemma ResumeGranted(s: S.State, t: Ticket)
    requires S.GrantedAt(s, t)
    ensures S.Apply(s, S.Resume(t, false, false)) == s.(phases := s.phases[t := S.Returned(Acquired)])
  {
    assert s.phases[t] == S.Returned(Acquired) ==> s.phases[t := S.Returned(Acquired)] == s.phases;
  }

  /** The timer is gone: such a reader runs on and leaves. */
  lemma OneExpires<T>(s: State<T>, t: Ticket)
    requires Inv(s) && s.timeout && s.timer == 0 && Holds(s, t)
    ensures Inv(Apply(s, Wake(t, false)))
    ensures var r := Apply(Apply(s, Wake(t, false)), TimerTest(t));
            && Inv(r) && r == s.(sem := s.sem.(phases := s.sem.phases[t := S.Returned(Acquired)]), expired := s.expired + {t})
            && |r.expired| == |s.expired| + 1
            && forall u :: u != t && Holds(s, u) ==> Holds(r, u)
  {
    hide S.Inv, Q.Inv;
    StepKeepsInv(s, Wake(t, false));
    QueueOk(s);
    ResumeGranted(s.sem, t);
    StepKeepsInv(Apply(s, Wake(t, false)), TimerTest(t));
  }

  lemma RunTwo<T>(s: State<T>, a: Step<T>, b: Step<T>, rest: seq<Step<T>>)
    requires Inv(s)
    ensures Inv(Apply(s, a)) && Inv(Apply(Apply(s, a), b))
    ensures Run(s, [a, b] + rest) == Run(Apply(Apply(s, a), b), rest)
  {
    hide Inv, Apply;
    QueueOk(s);
    StepKeepsInv(s, a);
    QueueOk(Apply(s, a));
    StepKeepsInv(Apply(s, a), b);
    var steps := [a, b] + rest;
    assert steps[1..] == [b] + rest && ([b] + rest)[1..] == rest;
  }

  lemma {:induction false} AllExpire<T>(s: State<T>, ts: seq<Ticket>)
    requires Inv(s) && s.timeout && s.timer == 0 && S.Increasing(ts) && forall t :: t in ts ==> Holds(s, t)
    ensures var r := Run(s, RunOn(ts));
            && Inv(r) && |r.expired| == |s.expired| + |ts|
            && r == s.(sem := s.sem.(phases := r.sem.phases), expired := r.expired)
    decreases |ts|
  {
    hide Inv, Apply;
    if ts != [] {
      OneExpires(s, ts[0]);
      QueueOk(s);
      QueueOk(Apply(s, Wake(ts[0], false)));
      RunTwo(s, Wake(ts[0], false), TimerTest(ts[0]), RunOn(ts[1..]));
      AllExpire(Apply(Apply(s, Wake(ts[0], false)), TimerTest(ts[0])), ts[1..]);
    }
  }

  /** What ReadTimeout itself does to the books: it discards the tokens, or wakes the waiters. */
  lemma FireCounts<T>(s: State<T>, h: nat)
    requires Inv(s) && h in s.pending
    ensures var f := Apply(s, Fire(h));
            && Inv(f) && f == s.(sem := f.sem, pending := s.pending - {h}, timer := 0)
            && (s.sem.core.count > 0 ==> f.sem.grants == s.sem.grants && Stranded(f) == Stranded(s) + s.sem.core.count)
            && (s.sem.core.count == 0 ==>
                  && |f.sem.grants| == |s.sem.grants| + |s.sem.core.waitList|
                  && Stranded(f) == Stranded(s) - |s.sem.core.waitList|)
  {
    StepKeepsInv(s, Fire(h));
    LedgerOf(s);
    LedgerOf(Apply(s, Fire(h)));
  }

  lemma UndecidedAre<T>(s: State<T>)
    requires Inv(s)
    ensures var ts := Without(s.sem.grants, s.passed + s.expired);
            S.Increasing(ts) && |ts| == Undecided(s) && forall t :: t in ts ==> Holds(s, t)
  {
    var decided := s.passed + s.expired;
    assert |decided| == |s.passed| + |s.expired|;
    forall t | t in decided ensures t in s.sem.grants {
      assert Admitted(s, t) && S.GrantedAt(s.sem, t);
    }
    WithoutCount(s.sem.grants, decided);
    forall t | t in s.sem.grants ensures S.GrantedAt(s.sem, t) {}
  }

  lemma Nested<T>(s: State<T>)
    requires Inv(s)
    ensures s.served <= s.tested <= s.ready <= s.passed && s.turned <= s.ready
  {
  }

  lemma OneOrOther<T>(s: State<T>)
    requires Inv(s)
    ensures s.sem.core.count > 0 ==> s.sem.core.waitList == []
  {
  }

  /** Every reader that holds a grant and has not tested the timer runs on to its test. */
  function RunOut<T>(s: State<T>): State<T>
    requires Inv(s)
  {
    Run(s, RunOn(Without(s.sem.grants, s.passed + s.expired)))
  }

  /** The timer is gone: each of them leaves, and strands an event. */
  lemma TimerGone<T>(s: State<T>)
    requires Inv(s) && s.timeout && s.timer == 0
    ensures var r := RunOut(s);
            Undecided(r) == 0 && r.queue == s.queue && Stranded(r) == Stranded(s) + Undecided(s)
  {
    hide Inv;
    UndecidedAre(s);
    AllExpire(s, Without(s.sem.grants, s.passed + s.expired));
    LedgerOf(s);
    LedgerOf(RunOut(s));
  }

  /** A timer that fires, and the readers it affects running on: the events stranded by it are exactly the
      unclaimed tokens and the readers that had been granted one but had not tested the timer. Waiting readers
      that it wakes do not count, they leave with neither token nor event. So it strands nothing if and only
      if it finds no token and no such reader. */
  lemma FireStrands<T>(s: State<T>, h: nat)
    requires Inv(s) && s.timeout && h in s.pending
    ensures var f := Apply(s, Fire(h));
            && Inv(f) && RunOut(f).queue == s.queue
            && Stranded(RunOut(f)) == Stranded(s) + s.sem.core.count + Undecided(s)
            && (Stranded(RunOut(f)) == Stranded(s) <==> s.sem.core.count == 0 && Undecided(s) == 0)
  {
    hide Inv, Apply, RunOut;
    QueueOk(s);
    FireCounts(s, h);
    UndecidedAre(s);
    TimerGone(Apply(s, Fire(h)));
    OneOrOther(s);
  }

  /** The steps other than Fire after which timeouts are on and no timer is there: a reader that cancels it, a
      read that gets none (EBUSY), and switching timeouts on. */
  predicate Clears<T>(s: State<T>, step: Step<T>) {
    || (step.Cancel? && s.timeout && step.t in s.passed && step.t !in s.ready)
    || (step == Arm(0) && s.timeout && 0 !in s.pending)
    || (step == SetTimeout(true) && s.timer == 0)
  }

  /** Each of these, and the granted readers running on, strands exactly one event for every reader that had a
      grant and had not tested the timer: nothing if and only if there was none. */
  lemma ClearingStrands<T>(s: State<T>, step: Step<T>)
    requires Inv(s) && Clears(s, step)
    ensures s.queue.ring.Valid() && s.queue.ring.size <= |s.queue.posted|
    ensures var c := Apply(s, step);
            && Inv(c) && RunOut(c).queue == s.queue
            && Stranded(RunOut(c)) == Stranded(s) + Undecided(s)
            && (Stranded(RunOut(c)) == Stranded(s) <==> Undecided(s) == 0)
  {
    hide Inv, RunOut;
    QueueOk(s);
    StepKeepsInv(s, step);
    UndecidedAre(s);
    TimerGone(Apply(s, step));
  }

  // ---------- histories ----------

  lemma RunOne<T>(s: State<T>, a: Step<T>, rest: seq<Step<T>>)
    requires Inv(s)
    ensures s.queue.ring.Valid() && s.queue.ring.size <= |s.queue.posted| && Inv(Apply(s, a))
    ensures Run(s, [a] + rest) == Run(Apply(s, a), rest)
  {
    hide Inv, Apply;
    QueueOk(s);
    StepKeepsInv(s, a);
    assert ([a] + rest)[1..] == rest;
  }

  lemma {:induction false} RunConcat<T>(s: State<T>, a: seq<Step<T>>, b: seq<Step<T>>)
    requires Inv(s)
    ensures Inv(Run(s, a)) && Run(s, a + b) == Run(Run(s, a), b)
    decreases |a|
  {
    hide Inv, Apply;
    RunKeepsInv(s, a);
    if a == [] {
      assert a + b == b;
    } else {
      QueueOk(s);
      StepKeepsInv(s, a[0]);
      RunConcat(Apply(s, a[0]), a[1..], b);
      assert (a + b)[1..] == a[1..] + b;
    }
  }

  /** Nothing but the first readers asleep, in order of arrival. */
  ghost predicate Sleeping<T>(s: State<T>, n: nat, h: nat) {
    && s.sem.core == Core(0, seq(n, i => i)) && |s.sem.phases| == n && s.sem.grants == [] && s.sem.resetWakeUps == s.sem.resetDiscards == 0
    && s.queue.ring.size == 0 && s.timeout && s.timer == h && s.pending == Handles(h)
    && s.passed == s.ready == s.tested == s.served == s.turned == s.expired == {}
  }

  /** The first h timers. */
  function Handles(h: nat): (r: set<nat>)
    ensures forall i :: i in r <==> 1 <= i <= h
  {
    if h == 0 then {} else Handles(h - 1) + {h}
  }

  /** One more reader starts its timer and goes to sleep. */
  lemma OneSleeps<T>(s: State<T>, n: nat, h: nat)
    requires Inv(s) && Sleeping(s, n, h)
    ensures s.queue.ring.Valid() && s.queue.ring.size <= |s.queue.posted| && Inv(Apply(s, Arm(h + 1)))
    ensures Sleeping(Apply(Apply(s, Arm(h + 1)), Enter(false)), n + 1, h + 1)
  {
    hide Inv;
    QueueOk(s);
    StepKeepsInv(s, Arm(h + 1));
    assert Handles(h + 1) == Handles(h) + {h + 1};
    assert seq(n, i => i) + [n] == seq(n + 1, i => i);
  }

  lemma Starting<T>(blank: T)
    ensures Inv(Start(blank, true)) && Sleeping(Start(blank, true), 0, 0)
  {
    hide Inv;
    StartInv(blank, true);
    assert Handles(0) == {};
    assert Start(blank, true).sem.core == Core(0, seq(0, i => i));
  }

  /** An event for the first reader that sleeps. */
  lemma PostWakes<T>(s: State<T>, x: T)
    requires Inv(s) && s.sem.core.waitList != [] && !s.queue.ring.Full()
    ensures s.queue.ring.Valid() && s.queue.ring.size <= |s.queue.posted|
    ensures var r, w := Apply(s, Post(x)), s.sem.core.waitList;
            && r == s.(sem := r.sem, queue := r.queue) && r.queue.ring.size == s.queue.ring.size + 1
            && r.sem.core == Core(0, w[1..]) && r.sem.grants == s.sem.grants + [w[0]]
            && r.sem.resetWakeUps == s.sem.resetWakeUps && r.sem.resetDiscards == s.sem.resetDiscards
            && Holds(r, w[0]) && forall u :: Holds(s, u) ==> Holds(r, u)
  {
    QueueOk(s);
    UpNClosedForm(s.sem.core, 1);
    assert S.WaitingAt(s.sem, s.sem.core.waitList[0]);
    assert forall u :: Holds(s, u) ==> !S.WaitingAt(s.sem, u);
  }

  /** A timer that fires grants every reader that sleeps. */
  lemma FireWakes<T>(s: State<T>, h: nat)
    requires Inv(s) && s.sem.core.count == 0 && h in s.pending
    ensures s.queue.ring.Valid() && s.queue.ring.size <= |s.queue.posted|
    ensures var r := Apply(s, Fire(h));
            && r == s.(sem := r.sem, pending := s.pending - {h}, timer := 0)
            && (forall u :: u in s.sem.core.waitList ==> Holds(r, u)) && forall u :: Holds(s, u) ==> Holds(r, u)
  {
    QueueOk(s);
    assert forall u :: u in s.sem.core.waitList ==> S.WaitingAt(s.sem, u);
    assert forall u :: Holds(s, u) ==> !S.WaitingAt(s.sem, u);
    assert s.sem.core.waitList[..|s.sem.core.waitList|] == s.sem.core.waitList;
  }

  /** Two readers asleep, each with a timer, the second in the shared field. */
  function TwoReads<T>(): seq<Step<T>> { [Arm(1), Enter(false)] + [Arm(2), Enter(false)] }

  lemma TwoSleep<T>(blank: T)
    ensures Inv(Start(blank, true))
    ensures var s := Run(Start(blank, true), TwoReads()); Inv(s) && Sleeping(s, 2, 2)
  {
    hide Inv, Apply, Sleeping, Start;
    var s0 := Start(blank, true);
    Starting(blank);
    OneSleeps(s0, 0, 0);
    RunTwo(s0, Arm(1), Enter(false), [Arm(2), Enter(false)]);
    QueueOk(Apply(s0, Arm(1)));
    var s1 := Apply(Apply(s0, Arm(1)), Enter(false));
    OneSleeps(s1, 1, 1);
    RunTwo(s1, Arm(2), Enter(false), []);
    var second: seq<Step<T>> := [Arm(2), Enter(false)];
    assert second + [] == second;
  }

  /** A reader with a timer sleeps, an event arrives for it, and the timer fires before it runs. It leaves with
      ETIME; the event stays, with no token and no reader for it. */
  lemma TimerStrandsEvent<T>(blank: T, x: T)
    ensures Inv(Start(blank, true))
    ensures var s := Run(Start(blank, true), [Arm(1), Enter(false)] + [Post(x)]);
            && Inv(s) && s.timeout && 1 in s.pending && Stranded(s) == 0
            && var f := Apply(s, Fire(1));
               Inv(f) && RunOut(f).queue.ring.size == 1 && Stranded(RunOut(f)) == 1
  {
    hide Inv, Apply, Start, RunOut;
    var s0 := Start(blank, true);
    Starting(blank);
    OneSleeps(s0, 0, 0);
    RunTwo(s0, Arm(1), Enter(false), [Post(x)]);
    QueueOk(Apply(s0, Arm(1)));
    var s1 := Apply(Apply(s0, Arm(1)), Enter(false));
    var last: seq<Step<T>> := [Post(x)];
    assert last + [] == last;
    RunOne(s1, Post(x), []);
    PostWakes(s1, x);
    LedgerOf(Apply(s1, Post(x)));
    FireStrands(Apply(s1, Post(x)), 1);
  }

  /** Two readers asleep and an event for each. */
  lemma TwoGranted<T>(blank: T, x: T, y: T)
    ensures Inv(Start(blank, true))
    ensures var s := Run(Start(blank, true), TwoReads() + [Post(x), Post(y)]);
            && Inv(s) && s.timeout && s.timer == 2 && Holds(s, 0) && Holds(s, 1)
            && Stranded(s) == 0 && Undecided(s) == 2 && s.passed == s.ready == {} && 0 !in s.pending
  {
    hide Inv, Apply, Start, TwoReads;
    TwoSleep(blank);
    var s := Run(Start(blank, true), TwoReads());
    RunConcat(Start(blank, true), TwoReads(), [Post(x), Post(y)]);
    var last: seq<Step<T>> := [Post(x), Post(y)];
    assert last + [] == last;
    RunTwo(s, Post(x), Post(y), []);
    PostWakes(s, x);
    PostWakes(Apply(s, Post(x)), y);
    LedgerOf(Apply(Apply(s, Post(x)), Post(y)));
  }

  /** Without any timer firing: the first of them goes on and cancels the shared timer, and the second leaves its
      event behind. */
  lemma OverlapStrands<T>(blank: T, x: T, y: T)
    ensures Inv(Start(blank, true))
    ensures var s := Run(Start(blank, true), TwoReads() + [Post(x), Post(y)]);
            && Inv(s) && Stranded(s) == 0
            && Inv(Apply(s, Wake(0, false))) && Inv(Apply(Apply(s, Wake(0, false)), TimerTest(0)))
            && var c := Apply(Apply(Apply(s, Wake(0, false)), TimerTest(0)), Cancel(0));
               Inv(c) && Stranded(RunOut(c)) == 1
  {
    hide Inv, S.Apply, Q.Apply, Start, TwoReads, RunOut, Run;
    TwoGranted(blank, x, y);
    var s := Run(Start(blank, true), TwoReads() + [Post(x), Post(y)]);
    QueueOk(s);
    StepKeepsInv(s, Wake(0, false));
    ResumeGranted(s.sem, 0);
    var w := Apply(s, Wake(0, false));
    QueueOk(w);
    StepKeepsInv(w, TimerTest(0));
    var p := Apply(w, TimerTest(0));
    LedgerOf(s);
    LedgerOf(p);
    ClearingStrands(p, Cancel(0));
  }

  /** In the same state, a third read that finds no timer available strands both events. */
  lemma BusyStrands<T>(blank: T, x: T, y: T)
    ensures Inv(Start(blank, true))
    ensures var s := Run(Start(blank, true), TwoReads() + [Post(x), Post(y)]);
            Inv(s) && Inv(Apply(s, Arm(0))) && Stranded(RunOut(Apply(s, Arm(0)))) == 2
  {
    hide Inv, Apply, Start, TwoReads, RunOut, Run;
    TwoGranted(blank, x, y);
    ClearingStrands(Run(Start(blank, true), TwoReads() + [Post(x), Post(y)]), Arm(0));
  }

  /** Timeouts switched on between an untimed read's event and its test. */
  lemma SwitchStrands<T>(blank: T, x: T)
    ensures Inv(Start(blank, false))
    ensures var s := Run(Start(blank, false), [Enter(false), Post(x)] + []);
            && Inv(s) && Stranded(s) == 0
            && Inv(Apply(s, SetTimeout(true))) && Stranded(RunOut(Apply(s, SetTimeout(true)))) == 1
  {
    hide Inv, RunOut;
    var s0 := Start(blank, false);
    StartInv(blank, false);
    QueueOk(s0);
    RunTwo(s0, Enter(false), Post(x), []);
    var s1 := Apply(s0, Enter(false));
    assert s1.sem.core.waitList == [0];
    PostWakes(s1, x);
    var s := Apply(s1, Post(x));
    LedgerOf(s);
    ClearingStrands(s, SetTimeout(true));
  }

  /** A timer that a reader has cancelled does not fire any more, whatever else happens, unless it is started again. */
  lemma {:induction false} CancelledStays<T>(s: State<T>, h: nat, steps: seq<Step<T>>)
    requires Inv(s) && h !in s.pending && forall i :: 0 <= i < |steps| ==> steps[i] != Arm(h)
    ensures h !in Run(s, steps).pending
    decreases |steps|
  {
    hide Inv, S.Apply, Q.Apply;
    if steps != [] {
      QueueOk(s);
      StepKeepsInv(s, steps[0]);
      CancelledStays(Apply(s, steps[0]), h, steps[1..]);
    }
  }

  lemma CancelledNeverFires<T>(s: State<T>, t: Ticket, steps: seq<Step<T>>)
    requires Inv(s) && t in s.passed && t !in s.ready && forall i :: 0 <= i < |steps| ==> steps[i] != Arm(s.timer)
    ensures s.queue.ring.Valid() && s.queue.ring.size <= |s.queue.posted| && Inv(Apply(s, Cancel(t)))
    ensures var r := Run(Apply(s, Cancel(t)), steps);
            r.queue.ring.Valid() && r.queue.ring.size <= |r.queue.posted| && Apply(r, Fire(s.timer)) == r
  {
    hide Inv, S.Apply, Q.Apply;
    QueueOk(s);
    StepKeepsInv(s, Cancel(t));
    CancelledStays(Apply(s, Cancel(t)), s.timer, steps);
    RunKeepsInv(Apply(s, Cancel(t)), steps);
    QueueOk(Run(Apply(s, Cancel(t)), steps));
  }

  /** A read that a signal interrupts, on its way to sleep or asleep, leaves with EINTR and takes no event and no token;
      its timer is not cancelled, and may fire into a later read. */
  lemma InterruptedLeavesTimer<T>(s: State<T>, h: nat)
    requires Inv(s) && s.timeout && h != 0 && h !in s.pending && s.sem.core.count == 0
    ensures s.queue.ring.Valid() && s.queue.ring.size <= |s.queue.posted| && Inv(Apply(s, Arm(h)))
    ensures var r, t := Apply(Apply(s, Arm(h)), Enter(true)), |s.sem.phases|;
            && r == s.(sem := r.sem, timer := h, pending := s.pending + {h}) && r.sem.core == s.sem.core && r.sem.grants == s.sem.grants
            && r.sem.phases == s.sem.phases + [S.Returned(Interrupted)]
  {
    QueueOk(s);
    StepKeepsInv(s, Arm(h));
  }

  lemma InterruptedAsleep<T>(s: State<T>, t: Ticket)
    requires Inv(s) && t in s.sem.core.waitList
    ensures s.queue.ring.Valid() && s.queue.ring.size <= |s.queue.posted|
    ensures var r := Apply(s, Wake(t, true));
            && r == s.(sem := r.sem) && r.sem.core.count == s.sem.core.count && r.sem.grants == s.sem.grants
            && t < |r.sem.phases| && r.sem.phases[t] == S.Returned(Interrupted) && |r.sem.core.waitList| < |s.sem.core.waitList|
  {
    QueueOk(s);
    assert S.WaitingAt(s.sem, t);
    RemovesOne(s.sem.core.waitList, t);
  }

  lemma {:induction false} RemovesOne(s: seq<Ticket>, t: Ticket)
    requires t in s
    ensures |Remove(s, t)| == |s| - 1
  {
    if s[0] != t { RemovesOne(s[1..], t); }
  }

  // ---------- readers without events ----------

  /** A reader under way finds the queue empty only if timers have woken more readers than have left
      empty-handed or been made up for by discarded tokens. */
  lemma EmptyQueueMeans<T>(s: State<T>, t: Ticket)
    requires Inv(s) && t in s.passed && t !in s.served && t !in s.turned && s.queue.ring.size == 0
    ensures s.sem.resetWakeUps > |s.expired| + |s.turned| + s.sem.resetDiscards
  {
    ReaderCounts(s, t);
    LedgerOf(s);
  }

  /** A reader whose test and dequeue nobody comes between is safe: from an empty queue it leaves with EINTR, and
      otherwise it gets the oldest event. */
  lemma TestProtectsDequeue<T>(s: State<T>, t: Ticket)
    requires Inv(s) && !s.underflow && t in s.ready && t !in s.tested && t !in s.turned
    ensures s.queue.ring.Valid() && s.queue.ring.size <= |s.queue.posted| && Inv(Apply(s, SizeTest(t)))
    ensures var r := Apply(Apply(s, SizeTest(t)), Dequeue(t));
            && !r.underflow && r.sem == s.sem
            && (if s.queue.ring.size == 0 then r == s.(turned := s.turned + {t})
                else t in r.served && r.turned == s.turned && r.queue.taken == s.queue.taken + [s.queue.ring.Contents()[0]])
  {
    hide S.Inv;
    QueueOk(s);
    StepKeepsInv(s, SizeTest(t));
    if s.queue.ring.size > 0 {
      s.queue.ring.PopContents();
    }
  }

  function Dequeues<T>(ts: seq<Ticket>): seq<Step<T>> {
    if ts == [] then [] else [Dequeue(ts[0])] + Dequeues(ts[1..])
  }

  lemma {:induction false} DequeueRun<T>(s: State<T>, ts: seq<Ticket>)
    requires Inv(s) && S.Increasing(ts) && forall t :: t in ts ==> t in s.tested && t !in s.served
    ensures Run(s, Dequeues(ts)).underflow <==> s.underflow || |ts| > s.queue.ring.size
    decreases |ts|
  {
    hide Inv, S.Apply, Q.Apply;
    if ts != [] {
      RunOne(s, Dequeue(ts[0]), Dequeues(ts[1..]));
      var r := Apply(s, Dequeue(ts[0]));
      forall t | t in ts[1..] ensures t in r.tested && t !in r.served { assert t in ts && t != ts[0]; }
      if s.queue.ring.size > 0 { PopSize(s); }
      DequeueRun(r, ts[1..]);
    }
  }

  lemma PopSize<T>(s: State<T>)
    requires Inv(s) && s.queue.ring.size > 0
    ensures s.queue.ring.Valid() && s.queue.ring.size <= |s.queue.posted|
    ensures Q.Apply(s.queue, Q.Pop).ring.size == s.queue.ring.size - 1
  {
  }

  lemma {:induction false} SizeOfSeq(ts: seq<Ticket>, a: set<Ticket>)
    requires S.Increasing(ts) && forall t :: t in ts <==> t in a
    ensures |ts| == |a|
    decreases |ts|
  {
    hide S.Increasing;
    if ts == [] {
      assert a == {};
    } else {
      FrontOf(ts);
      SizeOfSeq(ts[..|ts| - 1], a - {ts[|ts| - 1]});
    }
  }

  /** Letting every reader that has seen an event dequeue runs on an empty queue if and only if they are more than
      the events. */
  lemma DequeuesUnderflow<T>(s: State<T>, ts: seq<Ticket>)
    requires Inv(s) && !s.underflow && S.Increasing(ts) && forall t :: t in ts <==> t in s.tested && t !in s.served
    ensures Run(s, Dequeues(ts)).underflow <==> |s.tested| - |s.served| > s.queue.ring.size
  {
    DequeueRun(s, ts);
    SizeOfSeq(ts, s.tested - s.served);
    assert s.tested == s.served + (s.tested - s.served);
  }

  /** Two readers go through the tests side by side. */
  function Race<T>(t: Ticket, u: Ticket): seq<Step<T>> {
    [Wake(t, false), Wake(u, false)] + ([TimerTest(t), TimerTest(u)] + ([Cancel(t), Cancel(u)] + [SizeTest(t), SizeTest(u)]))
  }

  lemma BothPass<T>(s: State<T>, t: Ticket, u: Ticket)
    requires Inv(s) && s.timeout && s.timer != 0 && t < u && Holds(s, t) && Holds(s, u) && s.queue.ring.size > 0
    ensures var r := Run(s, Race(t, u));
            Inv(r) && r.tested == s.tested + {t, u} && r.served == s.served && r.queue == s.queue && r.underflow == s.underflow
  {
    hide Inv, Apply;
    BothWake(s, t, u);
    QueueOk(Apply(s, Wake(t, false)));
    var b := Apply(Apply(s, Wake(t, false)), Wake(u, false));
    RunTwo(s, Wake(t, false), Wake(u, false), [TimerTest(t), TimerTest(u)] + ([Cancel(t), Cancel(u)] + [SizeTest(t), SizeTest(u)]));
    BothTest(b, t, u);
    QueueOk(Apply(b, TimerTest(t)));
    var c := Apply(Apply(b, TimerTest(t)), TimerTest(u));
    RunTwo(b, TimerTest(t), TimerTest(u), [Cancel(t), Cancel(u)] + [SizeTest(t), SizeTest(u)]);
    BothCancel(c, t, u);
    QueueOk(Apply(c, Cancel(t)));
    var d := Apply(Apply(c, Cancel(t)), Cancel(u));
    RunTwo(c, Cancel(t), Cancel(u), [SizeTest(t), SizeTest(u)]);
    BothSee(d, t, u);
    var last: seq<Step<T>> := [SizeTest(t), SizeTest(u)];
    assert last + [] == last;
    RunTwo(d, SizeTest(t), SizeTest(u), []);
  }

  lemma BothWake<T>(s: State<T>, t: Ticket, u: Ticket)
    requires Inv(s) && t != u && Holds(s, t) && Holds(s, u)
    ensures s.queue.ring.Valid() && s.queue.ring.size <= |s.queue.posted| && Inv(Apply(s, Wake(t, false)))
    ensures var r := Apply(Apply(s, Wake(t, false)), Wake(u, false));
            && Inv(r) && r == s.(sem := r.sem) && Admitted(r, t) && Admitted(r, u)
            && t !in r.passed && u !in r.passed && t !in r.expired && u !in r.expired
  {
    hide Inv, S.Apply, Q.Apply;
    QueueOk(s);
    ResumeGranted(s.sem, t);
    StepKeepsInv(s, Wake(t, false));
    ResumeGranted(Apply(s, Wake(t, false)).sem, u);
    StepKeepsInv(Apply(s, Wake(t, false)), Wake(u, false));
  }

  lemma BothTest<T>(s: State<T>, t: Ticket, u: Ticket)
    requires Inv(s) && s.timeout && s.timer != 0 && t != u && Admitted(s, t) && Admitted(s, u)
    requires t !in s.passed && u !in s.passed && t !in s.expired && u !in s.expired
    ensures s.queue.ring.Valid() && s.queue.ring.size <= |s.queue.posted| && Inv(Apply(s, TimerTest(t)))
    ensures var r := Apply(Apply(s, TimerTest(t)), TimerTest(u));
            Inv(r) && r == s.(passed := s.passed + {t, u}) && t !in r.ready && u !in r.ready
  {
    hide Inv, S.Apply, Q.Apply;
    QueueOk(s);
    Nested(s);
    StepKeepsInv(s, TimerTest(t));
    StepKeepsInv(Apply(s, TimerTest(t)), TimerTest(u));
    assert s.passed + {t} + {u} == s.passed + {t, u};
  }

  lemma BothCancel<T>(s: State<T>, t: Ticket, u: Ticket)
    requires Inv(s) && t != u && t in s.passed && u in s.passed && t !in s.ready && u !in s.ready
    ensures s.queue.ring.Valid() && s.queue.ring.size <= |s.queue.posted| && Inv(Apply(s, Cancel(t)))
    ensures var r := Apply(Apply(s, Cancel(t)), Cancel(u));
            && Inv(r) && r == s.(ready := r.ready, pending := r.pending, timer := 0) && r.ready == s.ready + {t, u}
            && t !in r.tested && u !in r.tested && t !in r.turned && u !in r.turned
  {
    hide Inv, S.Apply, Q.Apply;
    QueueOk(s);
    Nested(s);
    StepKeepsInv(s, Cancel(t));
    StepKeepsInv(Apply(s, Cancel(t)), Cancel(u));
    assert s.ready + {t} + {u} == s.ready + {t, u};
  }

  lemma BothSee<T>(s: State<T>, t: Ticket, u: Ticket)
    requires Inv(s) && t != u && t in s.ready && u in s.ready && s.queue.ring.size > 0
    requires t !in s.tested && u !in s.tested && t !in s.turned && u !in s.turned
    ensures s.queue.ring.Valid() && s.queue.ring.size <= |s.queue.posted| && Inv(Apply(s, SizeTest(t)))
    ensures var r := Apply(Apply(s, SizeTest(t)), SizeTest(u)); Inv(r) && r == s.(tested := s.tested + {t, u})
  {
    hide Inv, S.Apply, Q.Apply;
    QueueOk(s);
    StepKeepsInv(s, SizeTest(t));
    StepKeepsInv(Apply(s, SizeTest(t)), SizeTest(u));
    assert s.tested + {t} + {u} == s.tested + {t, u};
  }

  /** A history that ends there: two readers sleep, an event arrives, a timer fires and wakes both, a third read
      starts a timer, and the two go on together. */
  lemma WokenReadersUnderflow<T>(blank: T, x: T)
    ensures Inv(Start(blank, true))
    ensures Run(Start(blank, true), (TwoReads() + ([Post(x), Fire(1)] + [Arm(3)])) + (Race(0, 1) + Dequeues([0, 1]))).underflow
  {
    hide Inv, Apply, Start, TwoReads, Race, Dequeues, Run;
    TwoSleep(blank);
    Crowded(blank, x);
    var first: seq<Step<T>> := TwoReads() + ([Post(x), Fire(1)] + [Arm(3)]);
    var s := Run(Start(blank, true), first);
    RunConcat(Start(blank, true), first, Race(0, 1) + Dequeues([0, 1]));
    RunConcat(s, Race(0, 1), Dequeues([0, 1]));
    BothPass(s, 0, 1);
    DequeueRun(Run(s, Race(0, 1)), [0, 1]);
  }

  lemma Crowded<T>(blank: T, x: T)
    ensures Inv(Start(blank, true))
    ensures var s := Run(Start(blank, true), TwoReads() + ([Post(x), Fire(1)] + [Arm(3)]));
            && Inv(s) && s.timeout && s.timer == 3 && Holds(s, 0) && Holds(s, 1)
            && s.queue.ring.size == 1 && s.tested == s.served == {}
  {
    hide Inv, Apply, Start, TwoReads;
    TwoSleep(blank);
    var s := Run(Start(blank, true), TwoReads());
    RunConcat(Start(blank, true), TwoReads(), [Post(x), Fire(1)] + [Arm(3)]);
    RunTwo(s, Post(x), Fire(1), [Arm(3)]);
    PostWakes(s, x);
    var p := Apply(s, Post(x));
    assert p.sem.core.waitList[0] == 1 && 1 in p.sem.core.waitList;
    FireWakes(p, 1);
    var f := Apply(p, Fire(1));
    var last: seq<Step<T>> := [Arm(3)];
    assert last + [] == last;
    RunOne(f, Arm(3), []);
    Rearms(f, 3);
  }

  lemma Rearms<T>(s: State<T>, h: nat)
    requires Inv(s) && s.timeout && h != 0 && h !in s.pending
    ensures s.queue.ring.Valid() && s.queue.ring.size <= |s.queue.posted|
    ensures Apply(s, Arm(h)) == s.(timer := h, pending := s.pending + {h})
  {
  }

  // ---------- one read at a time ----------

  /** No read is in progress. */
  predicate Idle<T>(s: State<T>) { s.sem.core.waitList == [] && UnderWay(s) == 0 }

  /** Reads do not overlap, each has its timer, and no timer fires. */
  predicate AloneStep<T>(s: State<T>, step: Step<T>) {
    match step
    case Arm(_) => Idle(s)
    case Enter(_) => Idle(s) && s.timer != 0
    case Fire(_) => false
    case SetTimeout(_) => false
    case _ => true
  }

  ghost predicate Alone<T>(s: State<T>) {
    && Quiet(s) && s.timeout && s.expired == {}
    && |s.sem.core.waitList| + UnderWay(s) <= 1
    && (|s.sem.core.waitList| + Undecided(s) > 0 ==> s.timer != 0)
  }

  /** Waking moves readers from the wait list to the grants. */
  lemma SignalMoves(s: S.State)
    ensures var r := S.Apply(s, S.Signal(1)); |r.core.waitList| + |r.grants| == |s.core.waitList| + |s.grants|
    ensures |S.Apply(s, S.Signal(1)).core.waitList| <= |s.core.waitList|
  {
    S.UpNShrinks(s.core, 1);
  }

  lemma {:induction false} RemoveShrinks(s: seq<Ticket>, t: Ticket)
    ensures |Remove(s, t)| <= |s|
  {
    if s != [] { RemoveShrinks(s[1..], t); }
  }

  lemma ResumeMoves(s: S.State, t: Ticket, signalled: bool)
    ensures var r := S.Apply(s, S.Resume(t, signalled, false)); r.grants == s.grants && |r.core.waitList| <= |s.core.waitList|
  {
    RemoveShrinks(s.core.waitList, t);
  }

  lemma DownMoves(s: S.State, signalled: bool)
    requires s.core.waitList == []
    ensures var r := S.Apply(s, S.Down(signalled, false));
            |r.core.waitList| + |r.grants| <= |s.grants| + 1 && |s.grants| <= |r.grants|
  {
  }

  lemma UndecidedBound<T>(s: State<T>)
    requires Inv(s)
    ensures 0 <= Undecided(s) && (s.turned == {} ==> Undecided(s) <= UnderWay(s))
  {
    UndecidedAre(s);
    SubsetSize(s.served, s.passed);
  }

  lemma SubsetSize(a: set<Ticket>, b: set<Ticket>)
    requires a <= b
    ensures |a| <= |b|
  {
    assert b == a + (b - a);
  }

  lemma AloneLocal<T>(s: State<T>, step: Step<T>)
    requires Alone(s) && AloneStep(s, step) && (Local(step) || step.Dequeue? || step.Overflow?)
    ensures Inv(s) && s.queue.ring.Valid() && s.queue.ring.size <= |s.queue.posted| && Alone(Apply(s, step))
  {
    hide Quiet, Inv, S.Apply, Q.Apply;
    QuietInv(s);
    QuietStep(s, step);
    QuietSets(s);
    UndecidedBound(s);
    match step
    case TimerTest(t) => if Admitted(s, t) && t !in s.passed { OneUndecided(s, t); }
    case Cancel(t) => if t in s.passed && t !in s.ready { OnlyOne(s, t); }
    case SizeTest(t) => HasEvent(s, t);
    case Dequeue(t) => HasEvent(s, t);
    case _ =>
  }

  lemma AloneCall<T>(s: State<T>, step: Step<T>)
    requires Alone(s) && AloneStep(s, step) && (step.Post? || step.Enter? || step.Wake?)
    ensures Inv(s) && s.queue.ring.Valid() && s.queue.ring.size <= |s.queue.posted| && Alone(Apply(s, step))
  {
    hide Quiet, Inv, S.Apply, Q.Apply;
    QuietInv(s);
    QuietStep(s, step);
    QuietSets(s);
    UndecidedBound(s);
    match step
    case Post(x) => SignalMoves(s.sem);
    case Enter(signalled) => DownMoves(s.sem, signalled);
    case Wake(t, signalled) => ResumeMoves(s.sem, t, signalled);
    case _ =>
  }

  lemma AloneKeeps<T>(s: State<T>, step: Step<T>)
    requires Alone(s) && AloneStep(s, step)
    ensures Inv(s) && s.queue.ring.Valid() && s.queue.ring.size <= |s.queue.posted| && Alone(Apply(s, step))
  {
    hide Alone, Inv, Apply;
    if step.Post? || step.Enter? || step.Wake? {
      AloneCall(s, step);
    } else {
      AloneLocal(s, step);
    }
  }

  lemma QuietSets<T>(s: State<T>)
    requires Quiet(s)
    ensures s.turned == {} && s.served <= s.tested <= s.ready <= s.passed
  {
  }

  lemma OneUndecided<T>(s: State<T>, t: Ticket)
    requires Inv(s) && Admitted(s, t) && t !in s.passed && t !in s.expired
    ensures Undecided(s) > 0
  {
    assert S.GrantedAt(s.sem, t);
    UndecidedAre(s);
    assert t in Without(s.sem.grants, s.passed + s.expired);
  }

  /** A reader about to cancel the timer has nobody undecided beside it. */
  lemma OnlyOne<T>(s: State<T>, t: Ticket)
    requires Inv(s) && s.turned == s.expired == {} && UnderWay(s) <= 1 && t in s.passed && t !in s.ready
    ensures UnderWay(s) == 1 && Undecided(s) <= 0
  {
    ReaderCounts(s, t);
    SubsetSize(s.served + {t}, s.passed);
  }

  /** Every step of the run finds the state as AloneStep asks. */
  ghost predicate AloneRun<T>(s: State<T>, steps: seq<Step<T>>)
    requires Inv(s)
    decreases |steps|
  {
    steps == [] || (AloneStep(s, steps[0]) && (StepKeepsInv(s, steps[0]); AloneRun(Apply(s, steps[0]), steps[1..])))
  }

  lemma {:induction false} AloneRunKeeps<T>(s: State<T>, steps: seq<Step<T>>)
    requires Alone(s) && Inv(s) && AloneRun(s, steps)
    ensures Alone(Run(s, steps))
    decreases |steps|
  {
    hide Alone, Inv;
    if steps != [] {
      QueueOk(s);
      StepKeepsInv(s, steps[0]);
      AloneKeeps(s, steps[0]);
      AloneRunKeeps(Apply(s, steps[0]), steps[1..]);
    }
  }

  /** Reads that do not overlap and whose timers do not fire: none leaves with ETIME, and tokens and readers
      under way match the queued events throughout. */
  lemma SequentialReadsMatch<T>(blank: T, steps: seq<Step<T>>)
    ensures Inv(Start(blank, true))
    ensures AloneRun(Start(blank, true), steps) ==>
              var s := Run(Start(blank, true), steps);
              && s.queue.ring.size == s.sem.core.count + UnderWay(s)
              && s.expired == {} && s.turned == {} && !s.underflow
  {
    hide Inv;
    var s0 := Start(blank, true);
    StartInv(blank, true);
    assert UnderWay(s0) == 0 && Undecided(s0) == 0;
    if AloneRun(s0, steps) {
      AloneRunKeeps(s0, steps);
      QuietInv(Run(s0, steps));
      LedgerOf(Run(s0, steps));
    }
  }
}
