// The spinlock around one handle, as a machine that any number of threads step in any order, and
// why the calls behave as if made one after another.
module SpinLock {
  datatype Outcome<R> = Running | Finished(reply: R)

  // What the lock guards, and how a call works on it: it begins with some local state and takes
  // steps, each reading and writing the data, until it has a reply. `rest` says what a call in some
  // local state still amounts to: the reply it will give and the data it will leave.
  datatype Guarded<!C, !L, !D, !R> = Guarded(
    begin: C -> L,
    step: (L, D) -> (L, D),
    outcome: L -> Outcome<R>,
    rest: (L, D) -> (R, D)
  )

  // Running the steps alone delivers what `rest` says.
  ghost predicate Faithful<C, L(!new), D(!new), R>(o: Guarded<C, L, D, R>) {
    && (forall l: L, d: D :: o.outcome(l).Finished? ==> o.rest(l, d) == (o.outcome(l).reply, d))
    && (forall l: L, d: D :: o.outcome(l).Running? ==> o.rest(l, d) == o.rest(o.step(l, d).0, o.step(l, d).1))
  }

  // A whole call made alone.
  function Reply<C, L, D, R>(o: Guarded<C, L, D, R>, d: D, call: C): R {
    o.rest(o.begin(call), d).0
  }

  function After<C, L, D, R>(o: Guarded<C, L, D, R>, d: D, call: C): D {
    o.rest(o.begin(call), d).1
  }

  function AfterAll<C, L, D, R>(o: Guarded<C, L, D, R>, d: D, calls: seq<C>): D {
    if calls == [] then d else After(o, AfterAll(o, d, calls[..|calls| - 1]), calls[|calls| - 1])
  }

  // ---- The machine

  datatype Thread<C, L, R> =
    | Idle
    | Trying(call: C)
    | Inside(call: C, local: L)
    | Leaving(call: C, reply: R)

  datatype Event<C, R> =
    | Invoked(thread: nat, call: C)
    | Acquired(thread: nat, call: C)
    | Returned(thread: nat, call: C, reply: R)

  datatype Machine<C, L, D, R> = Machine(locked: bool, data: D, threads: seq<Thread<C, L, R>>, log: seq<Event<C, R>>)

  datatype Step<C> =
    | Invoke(thread: nat, call: C)
    | Spin(thread: nat)
    | Acquire(thread: nat)
    | Work(thread: nat)
    | Release(thread: nat)
    | Return(thread: nat)

  function Opened<C, L, D, R>(d: D, threads: nat): Machine<C, L, D, R> {
    Machine(false, d, seq(threads, _ => Idle), [])
  }

  // The exchange fails while the lock is taken and succeeds when it is free; nothing else in the
  // protocol looks at the lock.
  predicate Enabled<C, L, D, R>(o: Guarded<C, L, D, R>, m: Machine<C, L, D, R>, step: Step<C>) {
    step.thread < |m.threads| &&
    var t := m.threads[step.thread];
    match step
    case Invoke(_, _) => t.Idle?
    case Spin(_) => t.Trying? && m.locked
    case Acquire(_) => t.Trying? && !m.locked
    case Work(_) => t.Inside? && o.outcome(t.local).Running?
    case Release(_) => t.Inside? && o.outcome(t.local).Finished?
    case Return(_) => t.Leaving?
  }

  function Next<C, L, D, R>(o: Guarded<C, L, D, R>, m: Machine<C, L, D, R>, step: Step<C>): Machine<C, L, D, R>
    requires Enabled(o, m, step)
  {
    var i := step.thread;
    var t := m.threads[i];
    match step
    case Invoke(_, call) => m.(threads := m.threads[i := Trying(call)], log := m.log + [Invoked(i, call)])
    case Spin(_) => m
    case Acquire(_) =>
      m.(locked := true, threads := m.threads[i := Inside(t.call, o.begin(t.call))],
         log := m.log + [Acquired(i, t.call)])
    case Work(_) =>
      var (local, data) := o.step(t.local, m.data);
      m.(data := data, threads := m.threads[i := Inside(t.call, local)])
    case Release(_) => m.(locked := false, threads := m.threads[i := Leaving(t.call, o.outcome(t.local).reply)])
    case Return(_) => m.(threads := m.threads[i := Idle], log := m.log + [Returned(i, t.call, t.reply)])
  }

  // A run: every step taken was possible where it was taken.
  ghost predicate Runs<C, L, D, R>(o: Guarded<C, L, D, R>, from: Machine<C, L, D, R>, steps: seq<Step<C>>,
                                   to: Machine<C, L, D, R>)
    decreases |steps|
  {
    if steps == [] then to == from
    else Enabled(o, from, steps[0]) && Runs(o, Next(o, from, steps[0]), steps[1..], to)
  }

  // ---- Reading the log

  // The calls in the order in which they took the lock.
  function Order<C, R>(log: seq<Event<C, R>>): seq<C> {
    if log == [] then []
    else Order(log[..|log| - 1]) + (if log[|log| - 1].Acquired? then [log[|log| - 1].call] else [])
  }

  // The last event of a thread among the first n, or -1.
  function Last<C, R>(log: seq<Event<C, R>>, n: nat, thread: nat): (k: int)
    requires n <= |log|
    ensures -1 <= k < n
    ensures k >= 0 ==> log[k].thread == thread
    ensures forall j :: k < j < n ==> log[j].thread != thread
  {
    if n == 0 then -1 else if log[n - 1].thread == thread then n - 1 else Last(log, n - 1, thread)
  }

  // The reply a call gets when it is the next after those that took the lock in the first n events.
  function ReplyAfter<C, L, D, R>(o: Guarded<C, L, D, R>, d0: D, log: seq<Event<C, R>>, n: nat, call: C): R
    requires n <= |log|
  {
    Reply(o, AfterAll(o, d0, Order(log[..n])), call)
  }

  // Event p is where its thread's history allows it, and a returned reply is the sequential one.
  ghost predicate EventOk<C, L, D, R>(o: Guarded<C, L, D, R>, d0: D, log: seq<Event<C, R>>, p: nat)
    requires p < |log|
  {
    var k := Last(log, p, log[p].thread);
    match log[p]
    case Invoked(_, _) => k == -1 || log[k].Returned?
    case Acquired(t, call) => k >= 0 && log[k] == Invoked(t, call)
    case Returned(t, call, r) => k >= 0 && log[k] == Acquired(t, call) && r == ReplyAfter(o, d0, log, k, call)
  }

  ghost predicate LogOk<C, L, D, R>(o: Guarded<C, L, D, R>, d0: D, log: seq<Event<C, R>>) {
    forall p: nat :: p < |log| ==> EventOk(o, d0, log, p)
  }

  // What the log says of a thread agrees with where the thread is.
  ghost predicate ThreadOk<C, L, D, R>(o: Guarded<C, L, D, R>, d0: D, m: Machine<C, L, D, R>, i: nat)
    requires i < |m.threads|
  {
    var k := Last(m.log, |m.log|, i);
    match m.threads[i]
    case Idle => k == -1 || m.log[k].Returned?
    case Trying(call) => k >= 0 && m.log[k] == Invoked(i, call)
    case Inside(call, local) =>
      && m.locked && k >= 0 && m.log[k] == Acquired(i, call)
      && o.rest(local, m.data) == (ReplyAfter(o, d0, m.log, k, call), AfterAll(o, d0, Order(m.log)))
    case Leaving(call, reply) =>
      k >= 0 && m.log[k] == Acquired(i, call) && reply == ReplyAfter(o, d0, m.log, k, call)
  }

  // At most one thread is inside, and one is exactly when the lock is taken.
  ghost predicate Exclusive<C, L, D, R>(m: Machine<C, L, D, R>) {
    && (m.locked <==> exists i: nat :: i < |m.threads| && m.threads[i].Inside?)
    && forall i: nat, j: nat :: i < j < |m.threads| ==> !(m.threads[i].Inside? && m.threads[j].Inside?)
  }

  ghost predicate Inv<C, L, D, R>(o: Guarded<C, L, D, R>, d0: D, m: Machine<C, L, D, R>) {
    && Exclusive(m)
    && LogOk(o, d0, m.log)
    && (forall i: nat :: i < |m.threads| ==> ThreadOk(o, d0, m, i))
    && (!m.locked ==> m.data == AfterAll(o, d0, Order(m.log)))
  }
}
