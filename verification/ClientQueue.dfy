/** The event queue each CTR client owns: a ring of 64 entries that drops its oldest event when full. */
module ClientQueue {

  const QUEUE_SIZE: nat := 64
  const SHORT: nat := 65536     // Missed is an unsigned short

  lemma Wrap(a: nat)
    requires a <= 2 * QUEUE_SIZE - 1
    ensures a % QUEUE_SIZE == if a < QUEUE_SIZE then a else a - QUEUE_SIZE
  {
  }

  /** CtrDrvrQueue without its on/off flag. */
  datatype Ring<T> = Ring(entries: seq<T>, rd: nat, wr: nat, size: nat, missed: nat) {

    predicate Valid() {
      && |entries| == QUEUE_SIZE
      && rd < QUEUE_SIZE
      && size <= QUEUE_SIZE
      && missed < SHORT
      && wr == (rd + size) % QUEUE_SIZE
    }

    /** The queued events, oldest first. */
    function Contents(): (s: seq<T>)
      requires Valid()
    {
      seq(size, i requires 0 <= i < size => entries[(rd + i) % QUEUE_SIZE])
    }

    predicate Full() { size >= QUEUE_SIZE }

    /** What the interrupt handler and CtrDrvrWrite do for one client. */
    function Post(x: T): Ring<T>
      requires Valid()
    {
      var r := this.(entries := entries[wr := x], wr := (wr + 1) % QUEUE_SIZE);
      if Full() then r.(missed := (missed + 1) % SHORT, rd := (rd + 1) % QUEUE_SIZE)
      else r.(size := size + 1)
    }

    /** The dequeue of CtrDrvrRead. */
    function Pop(): (Ring<T>, T)
      requires Valid() && size > 0
    {
      (this.(rd := (rd + 1) % QUEUE_SIZE, size := size - 1), entries[rd])
    }

    lemma PostValid(x: T)
      requires Valid()
      ensures Post(x).Valid()
    {
      Wrap(rd + size);
      Wrap(wr + 1);
      Wrap(rd + 1);
      Wrap(Post(x).rd + Post(x).size);
    }

    /** A post overwrites no entry that stays queued. */
    lemma PostKeepsEntry(x: T, i: nat)
      requires Valid() && i < Post(x).size
      ensures Post(x).Valid()
      ensures Post(x).Contents()[i] == if i + 1 == Post(x).size then x
                                       else Contents()[if Full() then i + 1 else i]
    {
      PostValid(x);
      Wrap(rd + size);
      Wrap(rd + 1);
      Wrap(Post(x).rd + i);
      if Full() && i + 1 < size { Wrap(rd + (i + 1)); }
    }

    lemma PostContents(x: T)
      requires Valid()
      ensures Post(x).Valid()
      ensures Post(x).Contents() == (if Full() then Contents()[1..] else Contents()) + [x]
    {
      PostValid(x);
      forall i: nat | i < Post(x).size
        ensures Post(x).Contents()[i] == ((if Full() then Contents()[1..] else Contents()) + [x])[i]
      {
        PostKeepsEntry(x, i);
      }
    }

    lemma PopContents()
      requires Valid() && size > 0
      ensures Pop().0.Valid()
      ensures Contents() == [Pop().1] + Pop().0.Contents()
    {
      var r := Pop().0;
      Wrap(rd + size);
      Wrap(rd + 1);
      Wrap(r.rd + r.size);
      forall i | 0 <= i < r.size ensures r.Contents()[i] == Contents()[i + 1] {
        Wrap(r.rd + i);
        Wrap(rd + (i + 1));
      }
      Wrap(rd + 0);
      assert Contents()[0] == Pop().1;
    }
  }

  /** The queue as the driver keeps it: fields and an entry array updated in place. */
  class Queue<T> {
    const entries: array<T>
    var rdPntr: nat
    var wrPntr: nat
    var size: nat
    var missed: nat

    ghost function View(): Ring<T>
      reads this, entries
    {
      Ring(entries[..], rdPntr, wrPntr, size, missed)
    }

    /** An empty queue, as opening a client context leaves it. */
    constructor (blank: T)
      ensures View().Valid() && View().Contents() == [] && missed == 0
      ensures fresh(entries)
    {
      entries := new T[QUEUE_SIZE](_ => blank);
      rdPntr, wrPntr, size, missed := 0, 0, 0, 0;
    }

    /** Returns whether the client's semaphore must be signalled. */
    method Post(x: T) returns (signal: bool)
      requires View().Valid()
      modifies this, entries
      ensures View() == old(View()).Post(x) && View().Valid()
      ensures signal <==> !old(View()).Full()
      ensures View().Contents() ==
              (if signal then old(View().Contents()) else old(View().Contents())[1..]) + [x]
    {
      old(View()).PostContents(x);
      entries[wrPntr] := x;
      wrPntr := (wrPntr + 1) % QUEUE_SIZE;
      if size < QUEUE_SIZE {
        size := size + 1;
        signal := true;
      } else {
        missed := (missed + 1) % SHORT;
        rdPntr := (rdPntr + 1) % QUEUE_SIZE;
        signal := false;
      }
      assert entries[..] == old(entries[..])[old(wrPntr) := x];
    }

    /** None when the queue is empty: the reader then returns EINTR. */
    method Pop() returns (x: T, found: bool)
      requires View().Valid()
      modifies this
      ensures found <==> old(size) > 0
      ensures View().Valid()
      ensures found ==> View() == old(View()).Pop().0 && old(View().Contents()) == [x] + View().Contents()
      ensures !found ==> View() == old(View())
    {
      x := entries[rdPntr];
      found := size > 0;
      if found {
        old(View()).PopContents();
        rdPntr := (rdPntr + 1) % QUEUE_SIZE;
        size := size - 1;
      }
    }

    /** The GET_QUEUE_OVERFLOW ioctl reports the number of missed events and clears it. */
    method Overflow() returns (n: nat)
      requires View().Valid()
      modifies this
      ensures n == old(missed) && View() == old(View()).(missed := 0) && View().Valid()
      ensures View().Contents() == old(View().Contents())
    {
      n := missed;
      missed := 0;
    }
  }

  // ---------- runs of one queue ----------

  datatype Op<T> = Post(x: T) | Pop | Overflow

  /** A queue with the history of what was posted, which posts were read, and what was reported. */
  datatype Run<T> = Run(ring: Ring<T>, posted: seq<T>, readAt: seq<nat>, taken: seq<T>, lost: nat, reported: nat)

  function Start<T>(blank: T): Run<T> {
    Run(Ring(seq(QUEUE_SIZE, _ => blank), 0, 0, 0, 0), [], [], [], 0, 0)
  }

  function Apply<T>(r: Run<T>, op: Op<T>): Run<T>
    requires r.ring.Valid() && r.ring.size <= |r.posted|
  {
    match op
    case Post(x) =>
      r.(ring := r.ring.Post(x), posted := r.posted + [x], lost := r.lost + (if r.ring.Full() then 1 else 0))
    case Pop =>
      if r.ring.size == 0 then r
      else r.(ring := r.ring.Pop().0, taken := r.taken + [r.ring.Pop().1],
              readAt := r.readAt + [|r.posted| - r.ring.size])
    case Overflow =>
      r.(ring := r.ring.(missed := 0), reported := r.reported + r.ring.missed)
  }

  function ApplyAll<T>(r: Run<T>, ops: seq<Op<T>>): Run<T>
    requires Inv(r)
    decreases |ops|
  {
    if ops == [] then r else
      ApplyKeepsInv(r, ops[0]);
      ApplyAll(Apply(r, ops[0]), ops[1..])
  }

  ghost predicate Inv<T>(r: Run<T>) {
    && r.ring.Valid()
    && |r.readAt| + r.ring.size + r.lost == |r.posted|
    && r.ring.Contents() == r.posted[|r.posted| - r.ring.size..]
    && |r.taken| == |r.readAt|
    && (forall i :: 0 <= i < |r.readAt| ==> r.readAt[i] < |r.posted| - r.ring.size)
    && (forall i :: 0 <= i < |r.readAt| ==> r.taken[i] == r.posted[r.readAt[i]])
    && (forall i, j :: 0 <= i < j < |r.readAt| ==> r.readAt[i] < r.readAt[j])
    && (r.reported + r.ring.missed - r.lost) % SHORT == 0
  }

  lemma WrapStep(a: int, b: int)
    requires a % SHORT == 0 && 0 <= b < SHORT
    ensures (a - b - 1 + (b + 1) % SHORT + 0) % SHORT == 0
  {
    if b + 1 == SHORT { assert a - b - 1 == a - SHORT; }
  }

  lemma ApplyKeepsInv<T>(r: Run<T>, op: Op<T>)
    requires Inv(r)
    ensures Inv(Apply(r, op))
  {
    match op
    case Post(x) => PostKeepsInv(r, x);
    case Pop => PopKeepsInv(r);
    case Overflow =>
      assert r.ring.(missed := 0).Contents() == r.ring.Contents();
  }

  lemma PostKeepsInv<T>(r: Run<T>, x: T)
    requires Inv(r)
    ensures Inv(Apply(r, Op.Post(x)))
  {
    r.ring.PostContents(x);
    WrapStep(r.reported + r.ring.missed - r.lost, r.ring.missed);
    var q := Apply(r, Op.Post(x));
    var n := |r.posted|;
    var k := n - r.ring.size;
    assert q.posted[..n] == r.posted;
    assert if r.ring.Full() then q.posted[k + 1..] == r.posted[k..][1..] + [x] else q.posted[k..] == r.posted[k..] + [x];
  }

  /** The run after a read that finds an event. */
  lemma PopRun<T>(r: Run<T>)
    requires r.ring.Valid() && 0 < r.ring.size <= |r.posted|
    ensures var r' := Apply(r, Op.Pop);
            && r'.ring.Valid() && r'.ring.Contents() == r.ring.Contents()[1..]
            && r'.ring.size == r.ring.size - 1 && r'.ring.missed == r.ring.missed
            && r' == r.(ring := r'.ring, taken := r.taken + [r.ring.Contents()[0]], readAt := r.readAt + [|r.posted| - r.ring.size])
  {
    r.ring.PopContents();
  }

  lemma PopKeepsInv<T>(r: Run<T>)
    requires Inv(r)
    ensures Inv(Apply(r, Op.Pop))
  {
    if r.ring.size > 0 {
      r.ring.PopContents();
      var k := |r.posted| - r.ring.size;
      assert r.posted[k..] == [r.posted[k]] + r.posted[k + 1..];
      assert r.ring.Contents()[0] == r.posted[k];
      assert r.ring.Contents()[1..] == r.posted[k + 1..];
      PopRun(r);
    }
  }

  lemma {:induction false} RunKeepsInv<T>(r: Run<T>, ops: seq<Op<T>>)
    requires Inv(r)
    ensures Inv(ApplyAll(r, ops))
    decreases |ops|
  {
    if ops != [] {
      ApplyKeepsInv(r, ops[0]);
      RunKeepsInv(Apply(r, ops[0]), ops[1..]);
    }
  }

  /** Every queue is a drop-oldest FIFO: it holds the most recent posts in order; the events read are
      posts in posting order, each at most once; and every post is read, queued or missed, the missed
      ones being what the overflow counter says modulo its 16-bit width. */
  lemma DropOldestFifo<T>(blank: T, ops: seq<Op<T>>)
    ensures Inv(Start(blank))
    ensures var r := ApplyAll(Start(blank), ops);
            && r.ring.Valid()
            && r.ring.wr == (r.ring.rd + r.ring.size) % QUEUE_SIZE
            && r.ring.size <= |r.posted|
            && r.ring.Contents() == r.posted[|r.posted| - r.ring.size..]
            && |r.taken| == |r.readAt|
            && (forall i :: 0 <= i < |r.taken| ==> r.readAt[i] < |r.posted| - r.ring.size && r.taken[i] == r.posted[r.readAt[i]])
            && (forall i, j :: 0 <= i < j < |r.taken| ==> r.readAt[i] < r.readAt[j])
            && |r.posted| == |r.taken| + r.ring.size + r.lost
            && (r.reported + r.ring.missed) % SHORT == r.lost % SHORT
  {
    var s := Start(blank);
    assert s.ring.Contents() == [];
    RunKeepsInv(s, ops);
    var r := ApplyAll(s, ops);
    CongruentMod(r.reported + r.ring.missed, r.lost);
  }

  lemma CongruentMod(a: int, b: int)
    requires (a - b) % SHORT == 0
    ensures a % SHORT == b % SHORT
  {
    var k := (a - b) / SHORT;
    assert a == b + k * SHORT;
  }
}
