// Over every run of the machine: mutual exclusion, and linearizability at the moment the lock is
// taken.
module SpinLockLaws {
  import opened SpinLock

  // ---- How the log grows

  lemma {:induction false} LastBefore<C, R>(log: seq<Event<C, R>>, e: Event<C, R>, n: nat, thread: nat)
    requires n <= |log|
    ensures Last(log + [e], n, thread) == Last(log, n, thread)
  {
    if n > 0 {
      assert (log + [e])[n - 1] == log[n - 1];
      LastBefore(log, e, n - 1, thread);
    }
  }

  lemma LastNow<C, R>(log: seq<Event<C, R>>, e: Event<C, R>, thread: nat)
    ensures Last(log + [e], |log + [e]|, thread) == if e.thread == thread then |log| else Last(log, |log|, thread)
  {
    LastBefore(log, e, |log|, thread);
  }

  lemma OrderGrows<C, R>(log: seq<Event<C, R>>, e: Event<C, R>)
    ensures Order(log + [e]) == if e.Acquired? then Order(log) + [e.call] else Order(log)
  {
    assert (log + [e])[..|log|] == log;
  }

  lemma ReplyKept<C, L, D, R>(o: Guarded<C, L, D, R>, d0: D, log: seq<Event<C, R>>, e: Event<C, R>, n: nat, call: C)
    requires n <= |log|
    ensures ReplyAfter(o, d0, log + [e], n, call) == ReplyAfter(o, d0, log, n, call)
  {
    assert (log + [e])[..n] == log[..n];
  }

  lemma EventKept<C, L, D, R>(o: Guarded<C, L, D, R>, d0: D, log: seq<Event<C, R>>, e: Event<C, R>, p: nat)
    requires p < |log| && EventOk(o, d0, log, p)
    ensures EventOk(o, d0, log + [e], p)
  {
    assert (log + [e])[p] == log[p];
    LastBefore(log, e, p, log[p].thread);
    var k := Last(log, p, log[p].thread);
    if k >= 0 {
      assert (log + [e])[k] == log[k];
      ReplyKept(o, d0, log, e, k, log[p].call);
    }
  }

  lemma LogGrows<C, L, D, R>(o: Guarded<C, L, D, R>, d0: D, log: seq<Event<C, R>>, e: Event<C, R>)
    requires LogOk(o, d0, log) && EventOk(o, d0, log + [e], |log|)
    ensures LogOk(o, d0, log + [e])
  {
    forall p: nat | p < |log + [e]| ensures EventOk(o, d0, log + [e], p) {
      if p < |log| {
        EventKept(o, d0, log, e, p);
      }
    }
  }

  // A thread that has no part in an event, and if inside keeps the data as it left them, is where
  // it was.
  lemma BystanderKept<C, L, D, R>(o: Guarded<C, L, D, R>, d0: D, m: Machine<C, L, D, R>, m': Machine<C, L, D, R>,
                                  e: Event<C, R>, i: nat)
    requires i < |m.threads| == |m'.threads| && m'.threads[i] == m.threads[i] && ThreadOk(o, d0, m, i)
    requires m'.log == m.log + [e] && e.thread != i
    requires m.threads[i].Inside? ==> m'.locked && m'.data == m.data && !e.Acquired?
    ensures ThreadOk(o, d0, m', i)
  {
    LastNow(m.log, e, i);
    OrderGrows(m.log, e);
    var k := Last(m.log, |m.log|, i);
    if k >= 0 {
      assert m'.log[k] == m.log[k];
      ReplyKept(o, d0, m.log, e, k, m.log[k].call);
    }
  }

  // ---- Each step

  lemma InvokeKeeps<C, L, D, R>(o: Guarded<C, L, D, R>, d0: D, m: Machine<C, L, D, R>, step: Step<C>)
    requires Inv(o, d0, m) && Enabled(o, m, step) && step.Invoke?
    ensures Inv(o, d0, Next(o, m, step))
  {
    var m', i, e := Next(o, m, step), step.thread, Invoked(step.thread, step.call);
    assert ThreadOk(o, d0, m, i);
    SameInsiders(m, m');
    NewEvent(o, d0, m, e);
    forall j: nat | j < |m'.threads| ensures ThreadOk(o, d0, m', j) {
      if j == i {
        LastNow(m.log, e, i);
      } else {
        BystanderKept(o, d0, m, m', e, j);
      }
    }
    OrderGrows(m.log, e);
  }

  lemma NewEvent<C, L, D, R>(o: Guarded<C, L, D, R>, d0: D, m: Machine<C, L, D, R>, e: Event<C, R>)
    requires LogOk(o, d0, m.log) && e.thread < |m.threads| && ThreadOk(o, d0, m, e.thread)
    requires var t := m.threads[e.thread];
             match e
             case Invoked(_, _) => t.Idle?
             case Acquired(_, call) => t == Trying(call)
             case Returned(_, call, r) => t == Leaving(call, r)
    ensures LogOk(o, d0, m.log + [e])
  {
    var k := Last(m.log, |m.log|, e.thread);
    LastBefore(m.log, e, |m.log|, e.thread);
    assert (m.log + [e])[|m.log|] == e;
    if k >= 0 {
      assert (m.log + [e])[k] == m.log[k];
      ReplyKept(o, d0, m.log, e, k, e.call);
    }
    LogGrows(o, d0, m.log, e);
  }

  lemma SameInsiders<C, L, D, R>(m: Machine<C, L, D, R>, m': Machine<C, L, D, R>)
    requires Exclusive(m) && |m'.threads| == |m.threads| && m'.locked == m.locked
    requires forall i: nat :: i < |m.threads| ==> (m'.threads[i].Inside? <==> m.threads[i].Inside?)
    ensures Exclusive(m')
  {
    if m'.locked {
      var i: nat :| i < |m.threads| && m.threads[i].Inside?;
      assert m'.threads[i].Inside?;
    }
  }

  lemma AcquireKeeps<C, L, D, R>(o: Guarded<C, L, D, R>, d0: D, m: Machine<C, L, D, R>, step: Step<C>)
    requires Inv(o, d0, m) && Enabled(o, m, step) && step.Acquire?
    ensures Inv(o, d0, Next(o, m, step))
  {
    var m', i, call := Next(o, m, step), step.thread, m.threads[step.thread].call;
    var e: Event<C, R> := Acquired(i, call);
    assert ThreadOk(o, d0, m, i);
    assert m'.threads[i].Inside?;
    NewEvent(o, d0, m, e);
    OrderGrows(m.log, e);
    Entered(o, d0, m.log, call);
    forall j: nat | j < |m'.threads| ensures ThreadOk(o, d0, m', j) {
      if j == i {
        LastNow(m.log, e, i);
        ReplyKept(o, d0, m.log, e, |m.log|, call);
      } else {
        BystanderKept(o, d0, m, m', e, j);
      }
    }
  }

  lemma Entered<C, L, D, R>(o: Guarded<C, L, D, R>, d0: D, log: seq<Event<C, R>>, call: C)
    ensures var d := AfterAll(o, d0, Order(log));
            o.rest(o.begin(call), d) == (ReplyAfter(o, d0, log, |log|, call), AfterAll(o, d0, Order(log) + [call]))
  {
    assert log[..|log|] == log;
    assert (Order(log) + [call])[..|Order(log)|] == Order(log);
  }

  lemma WorkKeeps<C, L(!new), D(!new), R>(o: Guarded<C, L, D, R>, d0: D, m: Machine<C, L, D, R>, step: Step<C>)
    requires Faithful(o) && Inv(o, d0, m) && Enabled(o, m, step) && step.Work?
    ensures Inv(o, d0, Next(o, m, step))
  {
    var m', i := Next(o, m, step), step.thread;
    assert ThreadOk(o, d0, m, i);
    StepKeepsRest(o, m.threads[i].local, m.data);
    SameInsiders(m, m');
    forall j: nat | j < |m'.threads| ensures ThreadOk(o, d0, m', j) {
      assert ThreadOk(o, d0, m, j);
      assert j != i ==> !m.threads[j].Inside?;
    }
  }

  lemma StepKeepsRest<C, L(!new), D(!new), R>(o: Guarded<C, L, D, R>, l: L, d: D)
    requires Faithful(o)
    ensures o.outcome(l).Running? ==> o.rest(o.step(l, d).0, o.step(l, d).1) == o.rest(l, d)
    ensures o.outcome(l).Finished? ==> o.rest(l, d) == (o.outcome(l).reply, d)
  {
  }

  lemma ReleaseKeeps<C, L(!new), D(!new), R>(o: Guarded<C, L, D, R>, d0: D, m: Machine<C, L, D, R>, step: Step<C>)
    requires Faithful(o) && Inv(o, d0, m) && Enabled(o, m, step) && step.Release?
    ensures Inv(o, d0, Next(o, m, step))
  {
    var m', i := Next(o, m, step), step.thread;
    assert ThreadOk(o, d0, m, i);
    StepKeepsRest(o, m.threads[i].local, m.data);
    forall j: nat | j < |m'.threads| ensures ThreadOk(o, d0, m', j) && !m'.threads[j].Inside? {
      assert ThreadOk(o, d0, m, j);
      assert j != i ==> !m.threads[j].Inside?;
    }
  }

  lemma ReturnKeeps<C, L, D, R>(o: Guarded<C, L, D, R>, d0: D, m: Machine<C, L, D, R>, step: Step<C>)
    requires Inv(o, d0, m) && Enabled(o, m, step) && step.Return?
    ensures Inv(o, d0, Next(o, m, step))
  {
    var m', i := Next(o, m, step), step.thread;
    var e := Returned(i, m.threads[i].call, m.threads[i].reply);
    assert ThreadOk(o, d0, m, i);
    SameInsiders(m, m');
    NewEvent(o, d0, m, e);
    forall j: nat | j < |m'.threads| ensures ThreadOk(o, d0, m', j) {
      if j == i {
        LastNow(m.log, e, i);
      } else {
        BystanderKept(o, d0, m, m', e, j);
      }
    }
    OrderGrows(m.log, e);
  }

  lemma NextKeeps<C, L(!new), D(!new), R>(o: Guarded<C, L, D, R>, d0: D, m: Machine<C, L, D, R>, step: Step<C>)
    requires Faithful(o) && Inv(o, d0, m) && Enabled(o, m, step)
    ensures Inv(o, d0, Next(o, m, step))
  {
    match step
    case Invoke(_, _) => InvokeKeeps(o, d0, m, step);
    case Spin(_) =>
    case Acquire(_) => AcquireKeeps(o, d0, m, step);
    case Work(_) => WorkKeeps(o, d0, m, step);
    case Release(_) => ReleaseKeeps(o, d0, m, step);
    case Return(_) => ReturnKeeps(o, d0, m, step);
  }

  lemma OpenedOk<C, L, D, R>(o: Guarded<C, L, D, R>, d0: D, threads: nat)
    ensures Inv(o, d0, Opened<C, L, D, R>(d0, threads))
  {
  }

  lemma {:induction false} RunKeeps<C, L(!new), D(!new), R>(o: Guarded<C, L, D, R>, d0: D, m: Machine<C, L, D, R>,
                                                            steps: seq<Step<C>>, m': Machine<C, L, D, R>)
    requires Faithful(o) && Inv(o, d0, m) && Runs(o, m, steps, m')
    ensures Inv(o, d0, m')
    decreases |steps|
  {
    if steps != [] {
      NextKeeps(o, d0, m, steps[0]);
      RunKeeps(o, d0, Next(o, m, steps[0]), steps[1..], m');
    }
  }

  // ---- What every run shows

  lemma ReachableOk<C, L(!new), D(!new), R>(o: Guarded<C, L, D, R>, d0: D, threads: nat, steps: seq<Step<C>>,
                                           m: Machine<C, L, D, R>)
    requires Faithful(o) && Runs(o, Opened(d0, threads), steps, m)
    ensures Inv(o, d0, m)
  {
    OpenedOk(o, d0, threads);
    RunKeeps(o, d0, Opened(d0, threads), steps, m);
  }

  // In every reachable state the lock is taken exactly when a thread is in its critical section,
  // and never are two; with the lock free the data is what the calls made of it one after another.
  lemma MutualExclusion<C, L(!new), D(!new), R>(o: Guarded<C, L, D, R>, d0: D, threads: nat, steps: seq<Step<C>>,
                                               m: Machine<C, L, D, R>)
    requires Faithful(o) && Runs(o, Opened(d0, threads), steps, m)
    ensures Exclusive(m)
    ensures !m.locked ==> m.data == AfterAll(o, d0, Order(m.log))
  {
    ReachableOk(o, d0, threads, steps, m);
  }

  // No event of this thread in between.
  ghost predicate Undisturbed<C, R>(log: seq<Event<C, R>>, from: nat, to: nat, thread: nat)
    requires to <= |log|
  {
    forall j :: from < j < to ==> log[j].thread != thread
  }

  // The return at p answers the call that was invoked at i and took the lock at a, with the reply
  // that call gets when all calls are made one after another in lock order.
  ghost predicate Linearized<C, L, D, R>(o: Guarded<C, L, D, R>, d0: D, log: seq<Event<C, R>>, i: nat, a: nat, p: nat)
    requires i < a < p < |log| && log[p].Returned?
  {
    var t, call := log[p].thread, log[p].call;
    && log[i] == Invoked(t, call) && Undisturbed(log, i, a, t)
    && log[a] == Acquired(t, call) && Undisturbed(log, a, p, t)
    && Order(log[..a]) + [call] <= Order(log)
    && log[p].reply == Reply(o, AfterAll(o, d0, Order(log[..a])), call)
  }

  lemma {:induction false} OrderPrefix<C, R>(log: seq<Event<C, R>>, n: nat)
    requires n <= |log|
    ensures Order(log[..n]) <= Order(log)
    decreases |log|
  {
    if n < |log| {
      OrderPrefix(log[..|log| - 1], n);
      assert log[..|log| - 1][..n] == log[..n];
    } else {
      assert log[..n] == log;
    }
  }

  lemma OrderOf<C, R>(log: seq<Event<C, R>>, front: seq<Event<C, R>>, e: Event<C, R>)
    requires e.Acquired? && |front| < |log| && log[..|front| + 1] == front + [e]
    ensures Order(front) + [e.call] <= Order(log)
  {
    OrderPrefix(log, |front| + 1);
    OrderGrows(front, e);
  }

  lemma Unslice<T>(s: seq<T>, a: nat)
    requires a < |s|
    ensures s[..a + 1] == s[..a] + [s[a]]
  {
  }

  lemma OrderAt<C, R>(log: seq<Event<C, R>>, a: nat)
    requires a < |log| && log[a].Acquired?
    ensures Order(log[..a]) + [log[a].call] <= Order(log)
  {
    var front, e := log[..a], log[a];
    Unslice(log, a);
    OrderOf(log, front, e);
  }

  lemma Linearizable<C, L(!new), D(!new), R>(o: Guarded<C, L, D, R>, d0: D, threads: nat, steps: seq<Step<C>>,
                                            m: Machine<C, L, D, R>, p: nat) returns (i: nat, a: nat)
    requires Faithful(o) && Runs(o, Opened(d0, threads), steps, m)
    requires p < |m.log| && m.log[p].Returned?
    ensures i < a < p && Linearized(o, d0, m.log, i, a, p)
  {
    ReachableOk(o, d0, threads, steps, m);
    var t := m.log[p].thread;
    assert EventOk(o, d0, m.log, p);
    a := Last(m.log, p, t);
    assert EventOk(o, d0, m.log, a);
    i := Last(m.log, a, t);
    OrderAt(m.log, a);
  }

  // A call that returns before another is made comes before it in the order.
  lemma RealTimeOrder<C, L, D, R>(o: Guarded<C, L, D, R>, d0: D, log: seq<Event<C, R>>,
                                  i: nat, a: nat, p: nat, i': nat, a': nat, p': nat)
    requires i < a < p < i' < a' < p' < |log| && log[p].Returned? && log[p'].Returned?
    requires Linearized(o, d0, log, i, a, p) && Linearized(o, d0, log, i', a', p')
    ensures Order(log[..a]) + [log[p].call] <= Order(log[..a'])
  {
    assert log[..a'][..a] == log[..a] && log[..a'][a] == log[a];
    OrderAt(log[..a'], a);
  }

  lemma {:induction false} NextEvent<C, R>(log: seq<Event<C, R>>, n: nat, a: nat, thread: nat) returns (p: nat)
    requires a < n <= |log| && log[a].thread == thread && Last(log, n, thread) != a
    ensures a < p < n && log[p].thread == thread && Last(log, p, thread) == a
  {
    p := Last(log, n, thread);
    if Last(log, p, thread) != a {
      p := NextEvent(log, p, a, thread);
    }
  }

  // Only threads of the machine ever appear in its log.
  lemma {:induction false} LogNamesThreads<C, L, D, R>(o: Guarded<C, L, D, R>, m: Machine<C, L, D, R>,
                                                       steps: seq<Step<C>>, m': Machine<C, L, D, R>)
    requires Runs(o, m, steps, m') && forall e :: e in m.log ==> e.thread < |m.threads|
    ensures |m'.threads| == |m.threads| && forall e :: e in m'.log ==> e.thread < |m'.threads|
    decreases |steps|
  {
    if steps != [] {
      LogNamesThreads(o, Next(o, m, steps[0]), steps[1..], m');
    }
  }

  // Once a thread is idle again, each of its calls that took the lock has had its reply.
  lemma EveryCallAnswered<C, L(!new), D(!new), R>(o: Guarded<C, L, D, R>, d0: D, threads: nat, steps: seq<Step<C>>,
                                                 m: Machine<C, L, D, R>, a: nat) returns (p: nat)
    requires Faithful(o) && Runs(o, Opened(d0, threads), steps, m)
    requires a < |m.log| && m.log[a].Acquired?
    requires m.log[a].thread < |m.threads| ==> m.threads[m.log[a].thread].Idle?
    ensures a < p < |m.log|
    ensures m.log[p] == Returned(m.log[a].thread, m.log[a].call, ReplyAfter(o, d0, m.log, a, m.log[a].call))
  {
    ReachableOk(o, d0, threads, steps, m);
    LogNamesThreads(o, Opened(d0, threads), steps, m);
    var t := m.log[a].thread;
    assert m.log[a] in m.log && ThreadOk(o, d0, m, t);
    p := NextEvent(m.log, |m.log|, a, t);
    assert EventOk(o, d0, m.log, p);
  }

  // The machine is never stuck: while any thread is not idle, some thread can do more than spin.
  lemma NeverStuck<C, L(!new), D(!new), R>(o: Guarded<C, L, D, R>, d0: D, threads: nat, steps: seq<Step<C>>,
                                          m: Machine<C, L, D, R>, i: nat) returns (step: Step<C>)
    requires Faithful(o) && Runs(o, Opened(d0, threads), steps, m)
    requires i < |m.threads| && !m.threads[i].Idle?
    ensures Enabled(o, m, step) && !step.Spin? && !step.Invoke?
  {
    MutualExclusion(o, d0, threads, steps, m);
    var j := i;
    if m.threads[i].Trying? && m.locked {
      j :| 0 <= j < |m.threads| && m.threads[j].Inside?;
    }
    var t := m.threads[j];
    step := if t.Trying? then Acquire(j)
            else if t.Leaving? then Return(j)
            else if o.outcome(t.local).Running? then Work(j) else Release(j);
  }
}
