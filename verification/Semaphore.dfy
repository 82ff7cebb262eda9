/** The LynxOS counting semaphore of the CDCM layer: a count, a FIFO wait list
    and direct hand-over of tokens from a signaller to the first waiter. */
module Semaphore {

  /** A ticket numbers the calls of swait/tswait in order of arrival. */
  type Ticket = nat

  /** The two fields of struct cdcm_sem that the lock protects. */
  datatype Core = Core(count: nat, waitList: seq<Ticket>)

  /** Take a token that is there. */
  function Take(c: Core): Core
    requires c.count > 0
  {
    c.(count := c.count - 1)
  }

  /** Join the tail of the wait list. */
  function Join(c: Core, t: Ticket): Core {
    c.(waitList := c.waitList + [t])
  }

  /** Leave the wait list from wherever one is. */
  function Leave(c: Core, t: Ticket): Core {
    c.(waitList := Remove(c.waitList, t))
  }

  function Remove(s: seq<Ticket>, t: Ticket): seq<Ticket> {
    if s == [] then [] else if s[0] == t then s[1..] else [s[0]] + Remove(s[1..], t)
  }

  lemma {:induction false} RemoveAt(s: seq<Ticket>, k: nat)
    requires k < |s|
    requires forall i, j :: 0 <= i < j < |s| ==> s[i] != s[j]
    ensures Remove(s, s[k]) == s[..k] + s[k + 1..]
  {
    if k > 0 {
      RemoveAt(s[1..], k - 1);
      assert s[1..][..k - 1] == s[1..k] && s[1..][k..] == s[k + 1..];
    }
  }

  function Up(c: Core): Core {
    if c.waitList == [] then c.(count := c.count + 1) else c.(waitList := c.waitList[1..])
  }

  /** `ssignaln`: a non-positive count signals nothing. */
  function UpN(c: Core, n: int): Core
    decreases n
  {
    if n <= 0 then c else UpN(Up(c), n - 1)
  }

  /** `__sreset`: discard the tokens if there are any, otherwise wake every waiter. */
  function Reset(c: Core): Core {
    if c.count == 0 then c.(waitList := []) else c.(count := 0)
  }

  function Min(a: int, b: int): int { if a < b then a else b }

  /** n signals in one lock section hand a token to exactly the first min(n, waiters) waiters, in
      order, and only the surplus reaches the count. */
  lemma {:induction false} UpNClosedForm(c: Core, n: nat)
    ensures var k := Min(n, |c.waitList|);
            UpN(c, n) == Core(c.count + n - k, c.waitList[k..])
    decreases n
  {
    hide UpN;
    UpNStep(c, n);
    if n == 0 {
      assert c.waitList[0..] == c.waitList;
    } else {
      UpNClosedForm(Up(c), n - 1);
      if c.waitList == [] {
        assert c.waitList[0..] == [];
      } else {
        DropTwice(c.waitList, Min(n - 1, |c.waitList| - 1));
      }
    }
  }

  lemma UpNStep(c: Core, n: nat)
    ensures UpN(c, n) == if n == 0 then c else UpN(Up(c), n - 1)
  {
  }

  lemma DropTwice(s: seq<Ticket>, k: nat)
    requires k + 1 <= |s|
    ensures s[1..][k..] == s[k + 1..]
  {
  }

  /** struct cdcm_sem_waiter, living on the stack of a sleeping task. */
  class Waiter {
    const ticket: Ticket
    var up: bool

    constructor (ticket: Ticket)
      ensures this.ticket == ticket && !up
    {
      this.ticket := ticket;
      up := false;
    }
  }

  ghost function Tickets(ws: seq<Waiter>): seq<Ticket> {
    seq(|ws|, i requires 0 <= i < |ws| => ws[i].ticket)
  }

  datatype Outcome = Acquired | Asleep | TimedOut | Interrupted | WouldBlock

  /** struct cdcm_sem. Each method is one section executed with the lock held. */
  class Sem {
    var count: nat
    var waitList: seq<Waiter>

    /** Tickets are listed once, and a listed waiter has not been woken. */
    ghost predicate Valid()
      reads this, waitList
    {
      && (forall i :: 0 <= i < |waitList| ==> !waitList[i].up)
      && (forall i, j :: 0 <= i < j < |waitList| ==> waitList[i].ticket != waitList[j].ticket)
    }

    ghost function View(): Core
      reads this
    {
      Core(count, Tickets(waitList))
    }

    constructor (val: nat)
      ensures Valid() && View() == Core(val, [])
    {
      count := val;
      waitList := [];
    }

    /** list_del on a waiter known to be listed. */
    method Unlink(w: Waiter)
      requires Valid() && w in waitList
      modifies this
      ensures Valid() && w !in waitList
      ensures forall x :: x in waitList ==> x in old(waitList)
      ensures View() == Leave(old(View()), w.ticket)
    {
      var k := 0;
      while waitList[k] != w
        invariant 0 <= k < |waitList|
        invariant w in waitList[k..]
        decreases |waitList| - k
      {
        k := k + 1;
      }
      RemoveAt(Tickets(waitList), k);
      waitList := waitList[..k] + waitList[k + 1..];
      assert Tickets(waitList) == old(Tickets(waitList))[..k] + old(Tickets(waitList))[k + 1..];
    }

    /** cdcm_down and its variants up to the first sleep: take a token if there is one; otherwise
        join the tail of the list, then give up at once if a signal is pending or no time is left. */
    method Down(ticket: Ticket, signalled: bool, expired: bool) returns (w: Waiter?, r: Outcome)
      requires Valid() && ticket !in Tickets(waitList)
      modifies this
      ensures Valid()
      ensures r == if old(count) > 0 then Acquired else if signalled then Interrupted
                   else if expired then TimedOut else Asleep
      ensures r == Asleep <==> w != null
      ensures r == Acquired ==> View() == Take(old(View()))
      ensures r == Asleep ==> fresh(w) && w.ticket == ticket && w in waitList
                              && View() == Join(old(View()), ticket)
      ensures r == Interrupted || r == TimedOut ==> View() == old(View())
    {
      w := null;
      if count > 0 {
        count := count - 1;
        return null, Acquired;
      }
      var n := new Waiter(ticket);
      ghost var before := Tickets(waitList);
      waitList := waitList + [n];
      assert Tickets(waitList) == before + [ticket];
      assert forall i :: 0 <= i < |before| ==> before[i] == waitList[i].ticket;
      if signalled || expired {
        RemoveAt(before + [ticket], |before|);
        Unlink(n);
        assert Tickets(waitList) == before;
        r := if signalled then Interrupted else TimedOut;
      } else {
        w := n;
        r := Asleep;
      }
    }

    /** One turn of the wait loop after schedule_timeout: a woken waiter returns successfully whatever
        else is pending; the others leave on a signal, leave on a timeout, or sleep again. */
    method Resume(w: Waiter, signalled: bool, expired: bool) returns (r: Outcome)
      requires Valid()
      requires w.up <==> w !in waitList
      modifies this
      ensures Valid()
      ensures r == if w.up then Acquired else if signalled then Interrupted
                   else if expired then TimedOut else Asleep
      ensures r == Acquired || r == Asleep ==> View() == old(View())
      ensures r == Interrupted || r == TimedOut ==> View() == Leave(old(View()), w.ticket)
    {
      if w.up {
        return Acquired;
      }
      if signalled {
        Unlink(w);
        return Interrupted;
      }
      if expired {
        Unlink(w);
        return TimedOut;
      }
      r := Asleep;
    }

    method TryDown() returns (r: Outcome)
      requires Valid()
      modifies this
      ensures Valid() && waitList == old(waitList)
      ensures r == if old(count) > 0 then Acquired else WouldBlock
      ensures View() == if r == Acquired then Take(old(View())) else old(View())
    {
      var left := count - 1;
      if left >= 0 {
        count := left;
      }
      r := if left < 0 then WouldBlock else Acquired;
    }

    /** __cdcm_up_waiter: hand over to the first waiter. */
    method WakeFirst()
      requires Valid() && waitList != []
      modifies this, waitList[0]
      ensures Valid() && count == old(count)
      ensures waitList == old(waitList)[1..] && old(waitList)[0].up
    {
      var first := waitList[0];
      waitList := waitList[1..];
      first.up := true;
    }

    /** __cdcm_up */
    method SignalOnce()
      requires Valid()
      modifies this, waitList
      ensures Valid()
      ensures old(waitList) == [] ==> count == old(count) + 1 && waitList == []
      ensures old(waitList) != [] ==> count == old(count) && waitList == old(waitList)[1..]
                                      && old(waitList)[0].up
      ensures View() == Up(old(View()))
    {
      if waitList == [] {
        count := count + 1;
      } else {
        WakeFirst();
        assert Tickets(waitList) == old(Tickets(waitList))[1..];
      }
    }

    /** ssignaln: exactly the first min(n, waiters) waiters are marked up, the others are untouched. */
    method SignalN(n: int)
      requires Valid()
      modifies this, waitList
      ensures Valid()
      ensures var k := if n <= 0 then 0 else Min(n, |old(waitList)|);
              && waitList == old(waitList)[k..]
              && count == old(count) + (if n <= 0 then 0 else n - k)
              && forall i :: 0 <= i < |old(waitList)| ==> (old(waitList)[i].up <==> i < k)
      ensures View() == UpN(old(View()), n)
    {
      ghost var ws := waitList;
      var i := 0;
      while i < n
        invariant 0 <= i && (n >= 0 ==> i <= n)
        invariant Valid()
        invariant var k := Min(i, |ws|); waitList == ws[k..] && count == old(count) + i - k
        invariant forall j :: 0 <= j < |ws| ==> (ws[j].up <==> j < Min(i, |ws|))
        invariant UpN(View(), n - i) == UpN(old(View()), n)
      {
        SignalOnce();
        i := i + 1;
      }
    }

    /** __sreset */
    method SReset()
      requires Valid()
      modifies this, waitList
      ensures Valid()
      ensures count == 0
      ensures waitList == if old(count) == 0 then [] else old(waitList)
      ensures forall i :: 0 <= i < |old(waitList)| ==> (old(waitList)[i].up <==> old(count) == 0)
      ensures View() == Reset(old(View()))
    {
      ghost var ws := waitList;
      if count == 0 {
        var waiters := |waitList|;
        var i := 0;
        while i < waiters
          invariant 0 <= i <= waiters == |ws|
          invariant Valid() && count == 0 && waitList == ws[i..]
          invariant forall j :: 0 <= j < |ws| ==> (ws[j].up <==> j < i)
        {
          WakeFirst();
          i := i + 1;
        }
      } else {
        count := 0;
      }
    }

    /** __scount: the tokens if positive, otherwise minus the number of waiters. */
    method Count() returns (r: int)
      requires Valid()
      ensures r > 0 <==> count > 0
      ensures r > 0 ==> r == count
      ensures r <= 0 ==> r == -|waitList|
    {
      r := if count > 0 then count else -|waitList|;
    }
  }
}
