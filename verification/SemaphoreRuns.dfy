/** Whole runs of the semaphore: every interleaving of lock-held sections, from any initial count.
    A run keeps, beside the semaphore itself, what each call is doing and a log of the grants. */
module SemaphoreRuns {
  import opened Semaphore

  /** What the call with a given ticket is doing: still inside the wait loop with its `up` flag, or
      returned. */
  datatype Phase = InLoop(up: bool) | Returned(outcome: Outcome)

  datatype State = State(
    core: Core,
    phases: seq<Phase>,      // indexed by ticket, i.e. by order of arrival
    grants: seq<Ticket>,     // tickets granted so far, oldest grant first
    initial: nat,
    signals: nat,
    resetWakeUps: nat,
    resetDiscards: nat)

  datatype Step =
    | Down(signalled: bool, expired: bool)
    | TryDown
    | Resume(ticket: Ticket, signalled: bool, expired: bool)
    | Signal(n: int)         // ssignal is ssignaln with count 1
    | SReset

  function Init(val: nat): State {
    State(Core(val, []), [], [], val, 0, 0, 0)
  }

  function MarkUp(phases: seq<Phase>, woken: seq<Ticket>): seq<Phase> {
    seq(|phases|, i requires 0 <= i < |phases| => if i in woken then InLoop(true) else phases[i])
  }

  /** A call that finds the count zero appends itself and looks at signal and timeout straight away. */
  function DoDown(s: State, signalled: bool, expired: bool): State {
    var t := |s.phases|;
    if s.core.count > 0 then
      s.(core := Take(s.core),
         phases := s.phases + [Returned(Acquired)],
         grants := s.grants + [t])
    else if signalled then s.(phases := s.phases + [Returned(Interrupted)])
    else if expired then s.(phases := s.phases + [Returned(TimedOut)])
    else s.(core := Join(s.core, t), phases := s.phases + [InLoop(false)])
  }

  function DoTryDown(s: State): State {
    if s.core.count > 0 then DoDown(s, false, false)
    else s.(phases := s.phases + [Returned(WouldBlock)])
  }

  function DoResume(s: State, t: Ticket, signalled: bool, expired: bool): State {
    if t >= |s.phases| || s.phases[t].Returned? then s
    else if s.phases[t].up then s.(phases := s.phases[t := Returned(Acquired)])
    else if signalled || expired then
      s.(core := Leave(s.core, t),
         phases := s.phases[t := Returned(if signalled then Interrupted else TimedOut)])
    else s
  }

  /** Between two states whose wait lists differ by a dropped prefix, that prefix has been woken. */
  function Wake(s: State, core': Core): State
    requires |core'.waitList| <= |s.core.waitList|
  {
    var woken := s.core.waitList[..|s.core.waitList| - |core'.waitList|];
    s.(core := core', phases := MarkUp(s.phases, woken), grants := s.grants + woken)
  }

  lemma {:induction false} UpNShrinks(c: Core, n: int)
    ensures |UpN(c, n).waitList| <= |c.waitList|
  {
    if n > 0 { UpNClosedForm(c, n); }
  }

  function DoSignal(s: State, n: int): State {
    UpNShrinks(s.core, n);
    Wake(s, UpN(s.core, n)).(signals := s.signals + (if n > 0 then n else 0))
  }

  function DoReset(s: State): State {
    Wake(s, Reset(s.core)).(
      resetWakeUps := s.resetWakeUps + (if s.core.count == 0 then |s.core.waitList| else 0),
      resetDiscards := s.resetDiscards + s.core.count)
  }

  function Apply(s: State, step: Step): State {
    match step
    case Down(signalled, expired) => DoDown(s, signalled, expired)
    case TryDown => DoTryDown(s)
    case Resume(t, signalled, expired) => DoResume(s, t, signalled, expired)
    case Signal(n) => DoSignal(s, n)
    case SReset => DoReset(s)
  }

  function Run(s: State, steps: seq<Step>): State
    decreases |steps|
  {
    if steps == [] then s else Run(Apply(s, steps[0]), steps[1..])
  }

  // ---------- what every reachable state satisfies ----------

  ghost predicate Increasing(s: seq<Ticket>) {
    forall i, j :: 0 <= i < j < |s| ==> s[i] < s[j]
  }

  predicate Granted(p: Phase) { p == InLoop(true) || p == Returned(Acquired) }

  predicate GaveUp(p: Phase) { p.Returned? && p.outcome != Acquired }

  predicate WaitingAt(s: State, t: Ticket) { t < |s.phases| && s.phases[t] == InLoop(false) }

  predicate GrantedAt(s: State, t: Ticket) { t < |s.phases| && Granted(s.phases[t]) }

  /** The wait list is the calls whose `up` flag is clear, in order of arrival, and each arrived after
      every call granted so far. */
  ghost predicate Ordered(s: State) {
    && Increasing(s.core.waitList)
    && Increasing(s.grants)
    && (forall t: Ticket :: t in s.core.waitList <==> WaitingAt(s, t))
    && (forall t: Ticket :: t in s.grants <==> GrantedAt(s, t))
    && (forall g, w :: g in s.grants && w in s.core.waitList ==> g < w)
    && Returned(Asleep) !in s.phases
  }

  ghost predicate Inv(s: State) {
    && Ordered(s)
    && (s.core.count > 0 ==> s.core.waitList == [])
    && s.initial + s.signals + s.resetWakeUps == s.core.count + |s.grants| + s.resetDiscards
  }

  lemma {:induction false} RemoveIncreasing(s: seq<Ticket>, t: Ticket)
    requires Increasing(s)
    ensures Increasing(Remove(s, t))
    ensures forall u :: u in Remove(s, t) <==> u in s && u != t
  {
    if s != [] && s[0] != t {
      RemoveIncreasing(s[1..], t);
      assert s == [s[0]] + s[1..];
      var r := Remove(s[1..], t);
      forall j | 0 <= j < |r| ensures s[0] < r[j] { assert r[j] in s[1..]; }
    } else if s != [] {
      assert s == [s[0]] + s[1..];
    }
  }

  lemma AppendIncreasing(s: seq<Ticket>, t: Ticket)
    requires Increasing(s) && forall u :: u in s ==> u < t
    ensures Increasing(s + [t])
  {
    assert forall i :: 0 <= i < |s| ==> s[i] in s;
  }

  lemma DownKeepsInv(s: State, signalled: bool, expired: bool)
    requires Inv(s)
    ensures Inv(DoDown(s, signalled, expired))
  {
    var s' := DoDown(s, signalled, expired);
    var t := |s.phases|;
    AppendIncreasing(s.grants, t);
    AppendIncreasing(s.core.waitList, t);
    assert forall u: Ticket :: u != t ==> WaitingAt(s', u) == WaitingAt(s, u);
    assert forall u: Ticket :: u != t ==> GrantedAt(s', u) == GrantedAt(s, u);
  }

  lemma ResumeKeepsInv(s: State, t: Ticket, signalled: bool, expired: bool)
    requires Inv(s)
    ensures Inv(DoResume(s, t, signalled, expired))
  {
    RemoveIncreasing(s.core.waitList, t);
    var s' := DoResume(s, t, signalled, expired);
    assert forall u: Ticket :: u != t ==> WaitingAt(s', u) == WaitingAt(s, u);
    assert forall u: Ticket :: u != t ==> GrantedAt(s', u) == GrantedAt(s, u);
    assert GrantedAt(s', t) == GrantedAt(s, t);
    assert WaitingAt(s, t) == (t in s.core.waitList);
  }

  lemma SplitIncreasing(s: seq<Ticket>, k: nat)
    requires Increasing(s) && k <= |s|
    ensures Increasing(s[..k]) && Increasing(s[k..])
    ensures forall a, b :: a in s[..k] && b in s[k..] ==> a < b
    ensures forall a :: a in s <==> a in s[..k] || a in s[k..]
  {
    assert s == s[..k] + s[k..];
    forall a, b | a in s[..k] && b in s[k..] ensures a < b {
      var i :| 0 <= i < k && s[..k][i] == a;
      var j :| 0 <= j < |s| - k && s[k..][j] == b;
      assert s[i] < s[k + j];
    }
  }

  lemma ConcatIncreasing(a: seq<Ticket>, b: seq<Ticket>)
    requires Increasing(a) && Increasing(b)
    requires forall x, y :: x in a && y in b ==> x < y
    ensures Increasing(a + b)
  {
    assert forall i :: 0 <= i < |a| ==> a[i] in a;
    assert forall i :: 0 <= i < |b| ==> b[i] in b;
  }

  /** The heart of the FIFO property: waking a prefix of the wait list extends the grant log. */
  lemma WakeKeepsOrder(s: State, core': Core)
    requires Ordered(s)
    requires |core'.waitList| <= |s.core.waitList|
    requires core'.waitList == s.core.waitList[|s.core.waitList| - |core'.waitList|..]
    ensures Ordered(Wake(s, core'))
    ensures |Wake(s, core').grants| == |s.grants| + |s.core.waitList| - |core'.waitList|
  {
    var s' := Wake(s, core');
    var k := |s.core.waitList| - |core'.waitList|;
    var woken := s.core.waitList[..k];
    SplitIncreasing(s.core.waitList, k);
    ConcatIncreasing(s.grants, woken);
    forall t: Ticket
      ensures WaitingAt(s', t) == (t in core'.waitList)
      ensures GrantedAt(s', t) == (t in s'.grants)
    {
      assert WaitingAt(s, t) == (t in s.core.waitList);
      assert GrantedAt(s, t) == (t in s.grants);
    }
  }

  lemma SignalKeepsInv(s: State, n: int)
    requires Inv(s)
    ensures Inv(DoSignal(s, n))
  {
    UpNShrinks(s.core, n);
    if n > 0 { UpNClosedForm(s.core, n); }
    WakeKeepsOrder(s, UpN(s.core, n));
  }

  lemma ResetKeepsInv(s: State)
    requires Inv(s)
    ensures Inv(DoReset(s))
  {
    WakeKeepsOrder(s, Reset(s.core));
  }

  lemma TryDownKeepsInv(s: State)
    requires Inv(s)
    ensures Inv(DoTryDown(s))
  {
    var s' := DoTryDown(s);
    if s.core.count > 0 {
      DownKeepsInv(s, false, false);
    } else {
      assert forall u: Ticket :: WaitingAt(s', u) == WaitingAt(s, u);
      assert forall u: Ticket :: GrantedAt(s', u) == GrantedAt(s, u);
    }
  }

  lemma StepKeepsInv(s: State, step: Step)
    requires Inv(s)
    ensures Inv(Apply(s, step))
    ensures s.grants <= Apply(s, step).grants
  {
    match step
    case Down(signalled, expired) => DownKeepsInv(s, signalled, expired);
    case TryDown => TryDownKeepsInv(s);
    case Resume(t, signalled, expired) => ResumeKeepsInv(s, t, signalled, expired);
    case Signal(n) => SignalKeepsInv(s, n);
    case SReset => ResetKeepsInv(s);
  }

  /** The grant log only grows, so a position in it is a moment of the run. */
  lemma {:induction false} RunKeepsInv(s: State, steps: seq<Step>)
    requires Inv(s)
    ensures Inv(Run(s, steps))
    ensures s.grants <= Run(s, steps).grants
    decreases |steps|
  {
    if steps != [] {
      StepKeepsInv(s, steps[0]);
      RunKeepsInv(Apply(s, steps[0]), steps[1..]);
    }
  }

  // ---------- main results ----------

  /** Tokens are conserved over every run. In particular the count never exceeds the tokens put in, so
      an unsigned int count cannot wrap before 2^32 of them have been. */
  lemma TokensConserved(val: nat, steps: seq<Step>)
    ensures var s := Run(Init(val), steps);
            && val + s.signals + s.resetWakeUps == s.core.count + |s.grants| + s.resetDiscards
            && s.core.count <= val + s.signals
            && (s.core.count > 0 ==> s.core.waitList == [])
  {
    RunKeepsInv(Init(val), steps);
    RunKeepsInitial(Init(val), steps);
    var s := Run(Init(val), steps);
    WakeUpsAreGrants(Init(val), steps);
  }

  lemma {:induction false} RunKeepsInitial(s: State, steps: seq<Step>)
    ensures Run(s, steps).initial == s.initial
    decreases |steps|
  {
    if steps != [] { RunKeepsInitial(Apply(s, steps[0]), steps[1..]); }
  }

  lemma {:induction false} WakeUpsAreGrants(s: State, steps: seq<Step>)
    requires Inv(s) && s.resetWakeUps <= |s.grants|
    ensures Run(s, steps).resetWakeUps <= |Run(s, steps).grants|
    decreases |steps|
  {
    if steps != [] {
      StepKeepsInv(s, steps[0]);
      WakeUpsAreGrants(Apply(s, steps[0]), steps[1..]);
    }
  }

  /** First come, first served over every run: grants are made in order of arrival, and when a call
      has been granted, every call that arrived before it has been granted earlier or has given up. */
  lemma GrantedInArrivalOrder(val: nat, steps: seq<Step>)
    ensures var s := Run(Init(val), steps);
            && (forall i, j :: 0 <= i < j < |s.grants| ==> s.grants[i] < s.grants[j])
            && forall t, u :: 0 <= t < u < |s.phases| && Granted(s.phases[u]) ==>
                 GaveUp(s.phases[t]) ||
                 exists i, j :: 0 <= i < j < |s.grants| && s.grants[i] == t && s.grants[j] == u
  {
    RunKeepsInv(Init(val), steps);
    var s := Run(Init(val), steps);
    forall t, u | 0 <= t < u < |s.phases| && Granted(s.phases[u])
      ensures GaveUp(s.phases[t]) ||
              exists i, j :: 0 <= i < j < |s.grants| && s.grants[i] == t && s.grants[j] == u
    {
      assert GrantedAt(s, u);
      assert u in s.grants;
      if !GaveUp(s.phases[t]) {
        assert WaitingAt(s, t) || GrantedAt(s, t) by { assert s.phases[t] in s.phases; }
        assert t !in s.core.waitList;
        assert t in s.grants;
        var i :| 0 <= i < |s.grants| && s.grants[i] == t;
        var j :| 0 <= j < |s.grants| && s.grants[j] == u;
        assert i < j;
      }
    }
  }

  /** A waiter is on the list exactly while its `up` flag is clear, and once granted it stays granted:
      no later signal, timeout or reset takes the token back. */
  lemma {:induction false} GrantIsFinal(s: State, steps: seq<Step>, t: Ticket)
    requires Inv(s) && t < |s.phases| && Granted(s.phases[t])
    ensures t < |Run(s, steps).phases| && Granted(Run(s, steps).phases[t])
    ensures forall u: Ticket :: u in Run(s, steps).core.waitList <==> WaitingAt(Run(s, steps), u)
    decreases |steps|
  {
    if steps != [] {
      StepKeepsInv(s, steps[0]);
      var s' := Apply(s, steps[0]);
      assert t in s'.grants by { assert GrantedAt(s, t); assert t in s.grants; }
      assert GrantedAt(s', t);
      GrantIsFinal(s', steps[1..], t);
    }
  }

  // ---------- the semaphore object takes these steps ----------

  /** The object is where the run machine is. */
  ghost predicate Simulates(sem: Sem, s: State)
    reads sem, sem.waitList
  {
    sem.Valid() && Inv(s) && sem.View() == s.core
  }

  /** The phase of a call that has come back from the object with this outcome. */
  function PhaseOf(r: Outcome): Phase { if r == Asleep then InLoop(false) else Returned(r) }

  method CallDown(sem: Sem, t: Ticket, signalled: bool, expired: bool, ghost s: State) returns (w: Waiter?, r: Outcome)
    requires Simulates(sem, s) && t == |s.phases|
    modifies sem
    ensures Simulates(sem, Apply(s, Down(signalled, expired)))
    ensures Apply(s, Down(signalled, expired)).phases == s.phases + [PhaseOf(r)]
  {
    StepKeepsInv(s, Down(signalled, expired));
    NewTicket(sem, s);
    w, r := sem.Down(t, signalled, expired);
  }

  lemma NewTicket(sem: Sem, s: State)
    requires Simulates(sem, s)
    ensures |s.phases| !in Tickets(sem.waitList)
  {
    forall i | 0 <= i < |sem.waitList| ensures Tickets(sem.waitList)[i] < |s.phases| {
      assert Tickets(sem.waitList)[i] in s.core.waitList;
      assert WaitingAt(s, Tickets(sem.waitList)[i]);
    }
  }

  method CallTryDown(sem: Sem, ghost s: State) returns (r: Outcome)
    requires Simulates(sem, s)
    modifies sem
    ensures Simulates(sem, Apply(s, TryDown)) && Apply(s, TryDown).phases == s.phases + [PhaseOf(r)]
  {
    StepKeepsInv(s, TryDown);
    r := sem.TryDown();
  }

  /** A waiter whose flag says what its phase says. */
  ghost predicate SameFlag(sem: Sem, s: State, w: Waiter)
    reads sem, w
  {
    w.ticket < |s.phases| && s.phases[w.ticket] == InLoop(w.up) && (w.up <==> w !in sem.waitList)
  }

  method CallResume(sem: Sem, w: Waiter, signalled: bool, expired: bool, ghost s: State) returns (r: Outcome)
    requires Simulates(sem, s) && SameFlag(sem, s, w)
    modifies sem
    ensures Simulates(sem, Apply(s, Resume(w.ticket, signalled, expired)))
    ensures Apply(s, Resume(w.ticket, signalled, expired)).phases == s.phases[w.ticket := PhaseOf(r)]
  {
    StepKeepsInv(s, Resume(w.ticket, signalled, expired));
    r := sem.Resume(w, signalled, expired);
  }

  predicate HasFlag(s: State, t: Ticket, up: bool) { t < |s.phases| && s.phases[t] == InLoop(up) }

  /** Waking a prefix of the wait list sets the flags of exactly these calls. */
  lemma WokenPrefix(s: State, core': Core, k: nat, i: nat)
    requires Inv(s) && k <= |s.core.waitList| && core'.waitList == s.core.waitList[k..] && i < |s.core.waitList|
    ensures HasFlag(Wake(s, core'), s.core.waitList[i], i < k)
  {
    var ts := s.core.waitList;
    assert WaitingAt(s, ts[i]);
    assert ts[..|ts| - |core'.waitList|] == ts[..k];
    if i < k { assert ts[i] == ts[..k][i]; }
  }

  /** The waiters that a signal or a reset takes off the list are those whose flag it sets. */
  method CallSignal(sem: Sem, n: int, ghost s: State)
    requires Simulates(sem, s)
    modifies sem, sem.waitList
    ensures Simulates(sem, Apply(s, Signal(n)))
    ensures forall i :: 0 <= i < |old(sem.waitList)| ==> HasFlag(Apply(s, Signal(n)), old(sem.waitList)[i].ticket, old(sem.waitList)[i].up)
  {
    StepKeepsInv(s, Signal(n));
    ghost var ws, k := sem.waitList, if n <= 0 then 0 else Min(n, |sem.waitList|);
    if n > 0 { UpNClosedForm(s.core, n); }
    sem.SignalN(n);
    assert s.core.waitList[0..] == s.core.waitList;
    forall i | 0 <= i < |ws| ensures HasFlag(Apply(s, Signal(n)), ws[i].ticket, ws[i].up) {
      WokenPrefix(s, UpN(s.core, n), k, i);
    }
  }

  method CallReset(sem: Sem, ghost s: State)
    requires Simulates(sem, s)
    modifies sem, sem.waitList
    ensures Simulates(sem, Apply(s, SReset))
    ensures forall i :: 0 <= i < |old(sem.waitList)| ==> HasFlag(Apply(s, SReset), old(sem.waitList)[i].ticket, old(sem.waitList)[i].up)
  {
    StepKeepsInv(s, SReset);
    ghost var ws, k := sem.waitList, if sem.count == 0 then |sem.waitList| else 0;
    sem.SReset();
    assert s.core.waitList[0..] == s.core.waitList;
    forall i | 0 <= i < |ws| ensures HasFlag(Apply(s, SReset), ws[i].ticket, ws[i].up) {
      WokenPrefix(s, Reset(s.core), k, i);
    }
  }
}
