/** Convergence in the middle of everything else: a cluster whose workers keep dying while other
    clusters run is, after one complete pass, where that pass alone would have brought it. */
module InterleavedPasses {
  import opened Objects
  import opened ApiServers
  import opened Convergence
  import opened Interleaving

  // ---------------------------------------------------------------- a pass is its calls

  function Play(turn: Turn, script: seq<Outcome>): (r: Turn)
    requires Sound(turn.worker)
    ensures Sound(r.worker)
    decreases |script|
  {
    if script == [] then turn else Play(Advance(turn.worker, turn.objects, script[0]), script[1..])
  }

  /** What remains of a pass, done at once. */
  function Remaining(worker: Worker, w: World): World
    requires Sound(worker)
  {
    match worker
    case Idle => w
    case Reading(ops) => RunOps(w, ops).world
    case Writing(ops, value) =>
      var write := Write(w, ops[0].key, value);
      if write.ok then RunOps(write.world, ops[1..]).world else write.world
  }

  function Starting(ops: seq<Op>): (worker: Worker)
    ensures Sound(worker)
  {
    if ops == [] then Idle else Reading(ops)
  }

  lemma OneCall(worker: Worker, m: Store, outcome: Outcome, others: seq<Outcome>)
    requires Sound(worker) && !worker.Idle?
    ensures var turn := Advance(worker, m, outcome);
            && !(turn.worker.Idle?) ==>
               Remaining(worker, World(m, [outcome] + others)) == Remaining(turn.worker, World(turn.objects, others))
    ensures var turn := Advance(worker, m, outcome);
            && turn.worker.Idle? ==> Remaining(worker, World(m, [outcome] + others)).objects == turn.objects
  {
    assert ([outcome] + others)[1..] == others;
    var w := World(m, [outcome] + others);
    assert Rest(w) == World(m, others) && Next(w) == outcome;
    var ops := worker.ops;
    var op := ops[0];
    if |ops| == 1 {
      assert ops[1..] == [];
      assert RunOps(RunOp(w, op).world, []).world == RunOp(w, op).world;
      assert worker.Writing? ==>
             RunOps(Write(w, op.key, worker.value).world, []).world == Write(w, op.key, worker.value).world;
    }
  }

  /** A worker that comes to rest has done what the pass does. */
  lemma {:induction false} CallsArePass(worker: Worker, m: Store, script: seq<Outcome>)
    requires Sound(worker) && Play(Turn(worker, m), script).worker.Idle?
    ensures Play(Turn(worker, m), script).objects == Remaining(worker, World(m, script)).objects
    decreases |script|
  {
    if script != [] {
      var turn := Advance(worker, m, script[0]);
      assert script == [script[0]] + script[1..];
      CallsArePass(turn.worker, turn.objects, script[1..]);
      if worker.Idle? {
        IdleStays(m, script);
      } else {
        OneCall(worker, m, script[0], script[1..]);
        if turn.worker.Idle? {
          IdleStays(turn.objects, script[1..]);
        }
      }
    }
  }

  lemma {:induction false} IdleStays(m: Store, script: seq<Outcome>)
    ensures Play(Turn(Idle, m), script) == Turn(Idle, m)
    decreases |script|
  {
    if script != [] {
      IdleStays(m, script[1..]);
    }
  }

  predicate AllFail(faults: seq<Outcome>) {
    forall o | o in faults :: o == Fails
  }

  /** A worker that dies after some calls has done what a pass does whose later calls all fail. */
  lemma {:induction false} DeathIsFailure(worker: Worker, m: Store, script: seq<Outcome>, fails: seq<Outcome>)
    requires Sound(worker) && AllFail(fails) && (!worker.Idle? ==> |worker.ops| <= |fails|)
    ensures Play(Turn(worker, m), script).objects == Remaining(worker, World(m, script + fails)).objects
    decreases |script|
  {
    if script == [] {
      assert script + fails == fails;
      if worker.Reading? {
        DeadPass(World(m, fails), worker.ops);
      } else if worker.Writing? {
        assert fails[0] in fails;
      }
    } else {
      var turn := Advance(worker, m, script[0]);
      assert script + fails == [script[0]] + (script[1..] + fails);
      DeathIsFailure(turn.worker, turn.objects, script[1..], fails);
      if worker.Idle? {
        IdleStays(m, script);
      } else {
        OneCall(worker, m, script[0], script[1..] + fails);
        if turn.worker.Idle? {
          IdleStays(turn.objects, script[1..]);
        }
      }
    }
  }

  function Repeat(o: Outcome, n: nat): (r: seq<Outcome>)
    ensures |r| == n && forall x | x in r :: x == o
  {
    if n == 0 then [] else [o] + Repeat(o, n - 1)
  }

  function CallsLeft(worker: Worker): nat {
    match worker
    case Idle => 0
    case Reading(ops) => 2 * |ops|
    case Writing(ops, _) => if ops == [] then 0 else 2 * |ops| - 1
  }

  /** Every operation takes at most two calls. */
  lemma {:induction false} ComesToRest(worker: Worker, m: Store, script: seq<Outcome>)
    requires Sound(worker) && CallsLeft(worker) <= |script|
    ensures Play(Turn(worker, m), script).worker.Idle?
    decreases |script|
  {
    if script != [] {
      var turn := Advance(worker, m, script[0]);
      ComesToRest(turn.worker, turn.objects, script[1..]);
    }
  }

  predicate AllWork(w: World) {
    forall o | o in w.faults :: o == Works
  }

  lemma RestWorks(w: World)
    requires AllWork(w)
    ensures Next(w).Works? && AllWork(Rest(w))
  {
    assert w.faults != [] ==> w.faults[0] in w.faults && forall o | o in w.faults[1..] :: o in w.faults;
  }

  lemma OpWorks(w: World, op: Op)
    requires AllWork(w)
    ensures var run, plain := RunOp(w, op), RunOp(World(w.objects, []), op);
            && run.ok == plain.ok && run.world.objects == plain.world.objects
            && AllWork(run.world) && plain.world.faults == []
  {
    RestWorks(w);
    RestWorks(Rest(w));
  }

  lemma {:induction false} NothingFails(w: World, ops: seq<Op>)
    requires AllWork(w)
    ensures RunOps(w, ops).world.objects == RunOps(World(w.objects, []), ops).world.objects
    decreases |ops|
  {
    if ops != [] {
      OpWorks(w, ops[0]);
      NothingFails(RunOp(w, ops[0]).world, ops[1..]);
    }
  }

  // ---------------------------------------------------------------- segments of a run

  function CallRun(c: ClusterId, script: seq<Outcome>): Interleaving.Run
    decreases |script|
  {
    if script == [] then [] else [(c, Call(script[0]))] + CallRun(c, script[1..])
  }

  /** A pass that starts, makes some calls, and dies unless it is over. */
  function Attempt(c: ClusterId, ops: seq<Op>, script: seq<Outcome>): Interleaving.Run {
    [(c, Start(ops))] + (CallRun(c, script) + [(c, Die)])
  }

  function Attempts(c: ClusterId, ops: seq<Op>, tries: seq<seq<Outcome>>): Interleaving.Run
    decreases |tries|
  {
    if tries == [] then [] else Attempt(c, ops, tries[0]) + Attempts(c, ops, tries[1..])
  }

  lemma {:induction false} RunsJoin(s: Machine, a: Interleaving.Run, b: Interleaving.Run)
    requires SoundMachine(s) && Legal(s, a) && SoundMachine(After(s, a)) && Legal(After(s, a), b)
    ensures Legal(s, a + b) && After(s, a + b) == After(After(s, a), b)
    decreases |a|
  {
    if a == [] {
      assert a + b == b;
    } else {
      var (c, e) := a[0];
      StepSound(s, c, e);
      assert (a + b)[1..] == a[1..] + b;
      RunsJoin(Step(s, c, e), a[1..], b);
    }
  }

  lemma {:induction false} StaysSound(s: Machine, run: Interleaving.Run)
    requires SoundMachine(s) && Legal(s, run)
    ensures SoundMachine(After(s, run))
    decreases |run|
  {
    if run != [] {
      var (c, e) := run[0];
      StepSound(s, c, e);
      StaysSound(Step(s, c, e), run[1..]);
    }
  }

  lemma {:induction false} CallsPlay(s: Machine, c: ClusterId, script: seq<Outcome>)
    requires SoundMachine(s) && OwnWorker(c, WorkerOf(s, c))
    ensures Legal(s, CallRun(c, script))
    ensures var end := After(s, CallRun(c, script));
            Turn(WorkerOf(end, c), end.objects) == Play(Turn(WorkerOf(s, c), s.objects), script)
    decreases |script|
  {
    if script != [] {
      var next := Step(s, c, Call(script[0]));
      StepSound(s, c, Call(script[0]));
      assert OwnWorker(c, WorkerOf(next, c));
      CallsPlay(next, c, script[1..]);
      assert CallRun(c, script)[1..] == CallRun(c, script[1..]);
    }
  }

  lemma OneEvent(s: Machine, c: ClusterId, e: Event)
    requires SoundMachine(s) && Allowed(s, c, e) && OwnWorker(c, WorkerOf(s, c))
    ensures Legal(s, [(c, e)]) && After(s, [(c, e)]) == Step(s, c, e)
  {
    StepSound(s, c, e);
    assert [(c, e)][1..] == [];
    assert Legal(Step(s, c, e), []) && After(Step(s, c, e), []) == Step(s, c, e);
  }

  lemma AttemptDoes(s: Machine, c: ClusterId, ops: seq<Op>, script: seq<Outcome>)
    requires SoundMachine(s) && WorkerOf(s, c).Idle? && OwnOps(c, ops)
    ensures Legal(s, Attempt(c, ops, script)) && SoundMachine(After(s, Attempt(c, ops, script)))
    ensures var end := After(s, Attempt(c, ops, script));
            && WorkerOf(end, c).Idle?
            && end.objects == Play(Turn(Starting(ops), s.objects), script).objects
  {
    var started := Step(s, c, Start(ops));
    OneEvent(s, c, Start(ops));
    StepSound(s, c, Start(ops));
    assert OwnWorker(c, WorkerOf(started, c));
    CallsPlay(started, c, script);
    StaysSound(started, CallRun(c, script));
    var called := After(started, CallRun(c, script));
    assert OwnWorker(c, WorkerOf(called, c));
    OneEvent(called, c, Die);
    StepSound(called, c, Die);
    RunsJoin(started, CallRun(c, script), [(c, Die)]);
    RunsJoin(s, [(c, Start(ops))], CallRun(c, script) + [(c, Die)]);
  }

  /** The same attempts as passes: what comes after the last call fails. */
  function Failing(ops: seq<Op>, tries: seq<seq<Outcome>>): (r: seq<seq<Outcome>>)
    ensures |r| == |tries|
    decreases |tries|
  {
    if tries == [] then [] else [tries[0] + Repeat(Fails, |ops|)] + Failing(ops, tries[1..])
  }

  lemma {:induction false} AttemptsDo(s: Machine, c: ClusterId, ops: seq<Op>, tries: seq<seq<Outcome>>)
    requires SoundMachine(s) && WorkerOf(s, c).Idle? && OwnOps(c, ops)
    ensures Legal(s, Attempts(c, ops, tries)) && SoundMachine(After(s, Attempts(c, ops, tries)))
    ensures var end := After(s, Attempts(c, ops, tries));
            WorkerOf(end, c).Idle? && end.objects == Passes(s.objects, Failing(ops, tries), ops)
    decreases |tries|
  {
    if tries != [] {
      var first, others := Attempt(c, ops, tries[0]), Attempts(c, ops, tries[1..]);
      AttemptDoes(s, c, ops, tries[0]);
      DeathIsFailure(Starting(ops), s.objects, tries[0], Repeat(Fails, |ops|));
      AttemptsDo(After(s, first), c, ops, tries[1..]);
      RunsJoin(s, first, others);
      assert Failing(ops, tries)[1..] == Failing(ops, tries[1..]);
    }
  }

  /** In any interleaving with other clusters: let a cluster's own events be any number of passes over
      the same operations, each dying after any calls with any outcomes, and then one pass with
      enough working calls to finish. Then its objects are those of that last pass alone. */
  lemma InterleavedConvergence(c: ClusterId, s: Machine, run: Interleaving.Run, ops: seq<Op>, tries: seq<seq<Outcome>>,
      calls: nat)
    requires SoundMachine(s) && WorkerOf(s, c).Idle? && OwnOps(c, ops) && Distinct(ops)
    requires Legal(s, run) && calls >= 2 * |ops|
    requires Mine(c, run) == Attempts(c, ops, tries) + Attempt(c, ops, Repeat(Works, calls))
    ensures forall k | Own(c, k) :: Slot(After(s, run).objects, k) == Slot(Pass(s.objects, ops), k)
  {
    var tried := Attempts(c, ops, tries);
    var final := Attempt(c, ops, Repeat(Works, calls));
    AttemptsDo(s, c, ops, tries);
    var m := After(s, tried).objects;
    AttemptDoes(After(s, tried), c, ops, Repeat(Works, calls));
    RunsJoin(s, tried, final);
    ComesToRest(Starting(ops), m, Repeat(Works, calls));
    CallsArePass(Starting(ops), m, Repeat(Works, calls));
    NothingFails(World(m, Repeat(Works, calls)), ops);
    WorkingPass(m, ops);
    Converges(s.objects, Failing(ops, tries), ops);
    NonInterference(c, s, s, run);
    assert After(s, tried + final).objects == Pass(s.objects, ops);
    forall k | Own(c, k)
      ensures Slot(After(s, run).objects, k) == Slot(Pass(s.objects, ops), k)
    {
      AlikeSlots(c, After(s, run), After(s, tried + final), k);
    }
  }

  lemma {:induction false} RunsSplit(s: Machine, a: Interleaving.Run, b: Interleaving.Run)
    requires SoundMachine(s) && Legal(s, a + b)
    ensures Legal(s, a) && SoundMachine(After(s, a)) && Legal(After(s, a), b)
    ensures After(s, a + b) == After(After(s, a), b)
    decreases |a|
  {
    if a == [] {
      assert a + b == b;
    } else {
      var (c, e) := a[0];
      assert (a + b)[0] == a[0] && (a + b)[1..] == a[1..] + b;
      StepSound(s, c, e);
      RunsSplit(Step(s, c, e), a[1..], b);
    }
  }

  /** The objects of a cluster are the same in both stores. */
  ghost predicate SameOwn(c: ClusterId, m: Store, n: Store) {
    forall k | Own(c, k) :: Slot(m, k) == Slot(n, k)
  }

  /** In any interleaving, the last pass of a cluster decides what its objects are: they are what the
      pass makes, undisturbed, of the objects that the cluster's own history left. */
  lemma {:induction false} LastPassDecides(c: ClusterId, s: Machine, run: Interleaving.Run, history: Interleaving.Run,
                                           ops: seq<Op>, script: seq<Outcome>)
    requires SoundMachine(s) && Legal(s, run) && OwnOps(c, ops) && |script| >= 2 * |ops|
    requires Mine(c, run) == history + Attempt(c, ops, script)
    ensures Legal(s, history) && WorkerOf(After(s, run), c).Idle?
    ensures SameOwn(c, After(s, run).objects, RunOps(World(After(s, history).objects, script), ops).world.objects)
  {
    var final := Attempt(c, ops, script);
    NonInterference(c, s, s, run);
    RunsSplit(s, history, final);
    var t := After(s, history);
    StartsIdle(t, c, ops, script);
    AttemptDoes(t, c, ops, script);
    ComesToRest(Starting(ops), t.objects, script);
    CallsArePass(Starting(ops), t.objects, script);
    forall k | Own(c, k)
      ensures Slot(After(s, run).objects, k) == Slot(RunOps(World(t.objects, script), ops).world.objects, k)
    {
      AlikeSlots(c, After(s, run), After(s, history + final), k);
    }
  }

  lemma StartsIdle(s: Machine, c: ClusterId, ops: seq<Op>, script: seq<Outcome>)
    requires SoundMachine(s) && Legal(s, Attempt(c, ops, script))
    ensures WorkerOf(s, c).Idle?
  {
    assert Attempt(c, ops, script)[0] == (c, Start(ops));
  }
}
