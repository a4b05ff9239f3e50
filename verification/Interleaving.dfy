/** Passes of many clusters on one store, interleaved call by call. */
module Interleaving {
  import opened Wrappers
  import opened Objects
  import opened ApiServers
  import opened Ownership

  // ---------------------------------------------------------------- a pass, one call at a time

  /** What a cluster's worker is about to do: nothing, read the object of the first operation, or
      write what that read led to. */
  datatype Worker =
    | Idle
    | Reading(ops: seq<Op>)
    | Writing(ops: seq<Op>, value: Option<Stored>)

  /** One step of one worker on the store. */
  datatype Turn = Turn(worker: Worker, objects: Store)

  function Proceed(ops: seq<Op>): Worker
    requires ops != []
  {
    if |ops| == 1 then Idle else Reading(ops[1..])
  }

  predicate Sound(worker: Worker) {
    worker.Idle? || worker.ops != []
  }

  /** The next call of a worker. */
  function Advance(worker: Worker, m: Store, outcome: Outcome): (turn: Turn)
    requires Sound(worker)
    ensures Sound(turn.worker)
  {
    match worker
    case Idle => Turn(Idle, m)
    case Reading(ops) =>
      var op := ops[0];
      var was := Slot(m, op.key);
      if op.Remove? then
        Turn(if !outcome.Works? || was.None? then Proceed(ops) else Writing(ops, None), m)
      else if !outcome.Works? || Blocked(op, was) then Turn(Idle, m)
      else if was == Goal(op, was) then Turn(Proceed(ops), m)
      else Turn(Writing(ops, Goal(op, was)), m)
    case Writing(ops, value) =>
      Turn(if outcome.Works? then Proceed(ops) else Idle, if outcome.Fails? then m else Put(m, ops[0].key, value))
  }

  // ---------------------------------------------------------------- the machine

  datatype ClusterId = ClusterId(namespace: string, name: string)

  /** A worker starts a pass, dies, or makes its next call. */
  datatype Event = Start(ops: seq<Op>) | Die | Call(outcome: Outcome)

  datatype Machine = Machine(workers: map<ClusterId, Worker>, objects: Store)

  function WorkerOf(s: Machine, c: ClusterId): Worker {
    if c in s.workers then s.workers[c] else Idle
  }

  function Own(c: ClusterId, k: Key): bool {
    Belongs(k, c.namespace, c.name)
  }

  predicate OwnOps(c: ClusterId, ops: seq<Op>) {
    forall op | op in ops :: Own(c, op.key) && (op.Apply? ==> op.owner == c.name && Routed(c.name, op.key, op.body))
  }

  predicate OwnWorker(c: ClusterId, worker: Worker) {
    Sound(worker) && (!worker.Idle? ==> OwnOps(c, worker.ops))
  }

  /** Of a cluster only passes over its own objects start, and a pass starts only when none is running. */
  predicate Allowed(s: Machine, c: ClusterId, e: Event) {
    e.Start? ==> WorkerOf(s, c).Idle? && OwnOps(c, e.ops)
  }

  function Turned(worker: Worker, m: Store, e: Event): Turn
    requires Sound(worker)
  {
    match e
    case Start(ops) => Turn(if ops == [] then Idle else Reading(ops), m)
    case Die => Turn(Idle, m)
    case Call(outcome) => Advance(worker, m, outcome)
  }

  ghost predicate SoundMachine(s: Machine) {
    forall c :: OwnWorker(c, WorkerOf(s, c))
  }

  function Step(s: Machine, c: ClusterId, e: Event): Machine
    requires Sound(WorkerOf(s, c))
  {
    var turn := Turned(WorkerOf(s, c), s.objects, e);
    Machine(s.workers[c := turn.worker], turn.objects)
  }

  lemma AdvanceOwn(c: ClusterId, worker: Worker, m: Store, e: Event)
    requires OwnWorker(c, worker) && (e.Start? ==> OwnOps(c, e.ops))
    ensures OwnWorker(c, Turned(worker, m, e).worker)
    ensures forall k | !Own(c, k) :: Slot(Turned(worker, m, e).objects, k) == Slot(m, k)
  {
    if !worker.Idle? {
      assert worker.ops[0] in worker.ops && forall op | op in worker.ops[1..] :: op in worker.ops;
    }
  }

  lemma StepSound(s: Machine, c: ClusterId, e: Event)
    requires SoundMachine(s) && Allowed(s, c, e)
    ensures SoundMachine(Step(s, c, e))
  {
    AdvanceOwn(c, WorkerOf(s, c), s.objects, e);
    forall d
      ensures OwnWorker(d, WorkerOf(Step(s, c, e), d))
    {
      assert OwnWorker(d, WorkerOf(s, d));
    }
  }

  // ---------------------------------------------------------------- runs

  type Run = seq<(ClusterId, Event)>

  /** Every event of the run is allowed when it happens. */
  ghost predicate Legal(s: Machine, run: Run)
    requires SoundMachine(s)
    decreases |run|
  {
    run == [] ||
    (var (c, e) := run[0]; Allowed(s, c, e) && (StepSound(s, c, e); Legal(Step(s, c, e), run[1..])))
  }

  ghost function After(s: Machine, run: Run): Machine
    requires SoundMachine(s) && Legal(s, run)
    decreases |run|
  {
    if run == [] then s
    else
      var (c, e) := run[0];
      StepSound(s, c, e);
      After(Step(s, c, e), run[1..])
  }

  /** The events of one cluster. */
  function Mine(c: ClusterId, run: Run): Run
    decreases |run|
  {
    if run == [] then [] else (if run[0].0 == c then [run[0]] else []) + Mine(c, run[1..])
  }

  /** Two machines in which a cluster cannot tell the difference. */
  predicate Alike(c: ClusterId, s: Machine, t: Machine) {
    && WorkerOf(s, c) == WorkerOf(t, c)
    && forall k | Own(c, k) && k in s.objects.Keys + t.objects.Keys :: Slot(s.objects, k) == Slot(t.objects, k)
  }

  lemma AlikeSlots(c: ClusterId, s: Machine, t: Machine, k: Key)
    requires Alike(c, s, t) && Own(c, k)
    ensures Slot(s.objects, k) == Slot(t.objects, k)
  {
  }

  /** What others do is invisible. */
  lemma OthersInvisible(c: ClusterId, s: Machine, t: Machine, d: ClusterId, e: Event)
    requires SoundMachine(s) && Allowed(s, d, e) && Alike(c, s, t) && c != d
    ensures Alike(c, Step(s, d, e), t)
  {
    var after := Step(s, d, e);
    AdvanceOwn(d, WorkerOf(s, d), s.objects, e);
    forall k | Own(c, k) && k in after.objects.Keys + t.objects.Keys
      ensures Slot(after.objects, k) == Slot(t.objects, k)
    {
      if Own(d, k) {
        BelongsToOne(k, c.namespace, c.name, d.namespace, d.name);
      }
      AlikeSlots(c, s, t, k);
    }
  }

  /** What a cluster does depends on nothing but its own worker and objects. */
  lemma OwnStepsAlike(c: ClusterId, s: Machine, t: Machine, e: Event)
    requires SoundMachine(s) && SoundMachine(t) && Allowed(s, c, e) && Alike(c, s, t)
    ensures Allowed(t, c, e) && Alike(c, Step(s, c, e), Step(t, c, e))
  {
    var worker := WorkerOf(s, c);
    assert OwnWorker(c, worker);
    if !worker.Idle? {
      var op := worker.ops[0];
      assert op in worker.ops;
      AlikeSlots(c, s, t, op.key);
    }
    forall k | Own(c, k)
      ensures Slot(Step(s, c, e).objects, k) == Slot(Step(t, c, e).objects, k)
    {
      AlikeSlots(c, s, t, k);
    }
  }

  /** Non-interference: in every interleaving, a cluster's worker and objects are what its own events
      alone would have made of them. */
  lemma {:induction false} NonInterference(c: ClusterId, s: Machine, t: Machine, run: Run)
    requires SoundMachine(s) && SoundMachine(t) && Alike(c, s, t) && Legal(s, run)
    ensures Legal(t, Mine(c, run)) && Alike(c, After(s, run), After(t, Mine(c, run)))
    decreases |run|
  {
    if run != [] {
      var (d, e) := run[0];
      StepSound(s, d, e);
      if d == c {
        OwnStepsAlike(c, s, t, e);
        StepSound(t, c, e);
        NonInterference(c, Step(s, c, e), Step(t, c, e), run[1..]);
        assert Mine(c, run)[1..] == Mine(c, run[1..]);
      } else {
        OthersInvisible(c, s, t, d, e);
        NonInterference(c, Step(s, d, e), t, run[1..]);
        assert Mine(c, run) == Mine(c, run[1..]);
      }
    }
  }

  // ---------------------------------------------------------------- owners

  predicate Fits(c: ClusterId, k: Key, v: Stored) {
    v.owner == Some(c.name) && Routed(c.name, k, v.body)
  }

  /** Everything that belongs to a cluster by name is owned by it and carries the labels of its role. */
  ghost predicate Tidy(m: Store) {
    forall k, c | k in m && Own(c, k) :: Fits(c, k, m[k])
  }

  ghost predicate TidyWorkers(s: Machine) {
    forall c :: WorkerOf(s, c).Writing? && WorkerOf(s, c).ops != [] && WorkerOf(s, c).value.Some? ==>
                  Fits(c, WorkerOf(s, c).ops[0].key, WorkerOf(s, c).value.value)
  }

  lemma TidyStep(s: Machine, c: ClusterId, e: Event)
    requires SoundMachine(s) && Allowed(s, c, e) && Tidy(s.objects) && TidyWorkers(s)
    ensures Tidy(Step(s, c, e).objects) && TidyWorkers(Step(s, c, e))
    ensures WorkerOf(s, c).Reading? ==> !Blocked(WorkerOf(s, c).ops[0], Slot(s.objects, WorkerOf(s, c).ops[0].key))
  {
    var worker, after := WorkerOf(s, c), Step(s, c, e);
    assert OwnWorker(c, worker);
    if !worker.Idle? {
      assert worker.ops[0] in worker.ops;
    }
    forall d | WorkerOf(after, d).Writing? && WorkerOf(after, d).ops != [] && WorkerOf(after, d).value.Some?
      ensures Fits(d, WorkerOf(after, d).ops[0].key, WorkerOf(after, d).value.value)
    {
      assert d != c ==> WorkerOf(after, d) == WorkerOf(s, d);
    }
    forall k, d | k in after.objects && Own(d, k)
      ensures Fits(d, k, after.objects[k])
    {
      if Own(c, k) {
        BelongsToOne(k, c.namespace, c.name, d.namespace, d.name);
      }
    }
  }

  /** Starting from an empty store, whatever the clusters do: all objects stay tidy, and no pass ever
      meets an object of another owner. */
  lemma {:induction false} NeverBlocked(s: Machine, run: Run, c: ClusterId)
    requires SoundMachine(s) && Tidy(s.objects) && TidyWorkers(s) && Legal(s, run)
    ensures var end := After(s, run);
            && Tidy(end.objects)
            && (WorkerOf(end, c).Reading? ==>
                  WorkerOf(end, c).ops != [] &&
                    !Blocked(WorkerOf(end, c).ops[0], Slot(end.objects, WorkerOf(end, c).ops[0].key)))
    decreases |run|
  {
    if run == [] {
      assert OwnWorker(c, WorkerOf(s, c));
      TidyStep(s, c, Die);
    } else {
      var (d, e) := run[0];
      StepSound(s, d, e);
      TidyStep(s, d, e);
      NeverBlocked(Step(s, d, e), run[1..], c);
    }
  }

  lemma EmptyStart()
    ensures var s := Machine(map[], map[]); SoundMachine(s) && Tidy(s.objects) && TidyWorkers(s)
  {
  }
}
