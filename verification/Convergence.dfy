/** What passes do to the store over time, however many of their calls fail. */
module Convergence {
  import opened Wrappers
  import opened Objects
  import opened ApiServers

  function KeysOf(ops: seq<Op>): set<Key> {
    set op | op in ops :: op.key
  }

  predicate Distinct(ops: seq<Op>) {
    forall i, j | 0 <= i < j < |ops| :: ops[i].key != ops[j].key
  }

  /** A pass in which every call works: it stops only at an object of another controller. */
  function Pass(m: Store, ops: seq<Op>): Store
    decreases |ops|
  {
    if ops == [] || Blocked(ops[0], Slot(m, ops[0].key)) then m
    else Pass(Put(m, ops[0].key, Goal(ops[0], Slot(m, ops[0].key))), ops[1..])
  }

  /** Passes over the same operations, each with calls that fail in its own way. */
  function Passes(m: Store, tries: seq<seq<Outcome>>, ops: seq<Op>): Store
    decreases |tries|
  {
    if tries == [] then m else Passes(RunOps(World(m, tries[0]), ops).world.objects, tries[1..], ops)
  }

  lemma PutSlot(m: Store, k: Key, v: Option<Stored>)
    ensures Slot(Put(m, k, v), k) == v
    ensures Put(m, k, Slot(m, k)) == m
    ensures forall other | other != k :: Slot(Put(m, k, v), other) == Slot(m, other)
    ensures forall u :: Put(Put(m, k, v), k, u) == Put(m, k, u)
  {
    forall u
      ensures Put(Put(m, k, v), k, u) == Put(m, k, u)
    {
      assert v.None? && u.None? ==> (m - {k}) - {k} == m - {k};
    }
    assert k !in m ==> m - {k} == m;
  }

  lemma PutCommutes(m: Store, k: Key, v: Option<Stored>, l: Key, u: Option<Stored>)
    requires k != l
    ensures Put(Put(m, k, v), l, u) == Put(Put(m, l, u), k, v)
  {
  }

  lemma TailKeys(ops: seq<Op>)
    requires ops != []
    ensures ops[0].key in KeysOf(ops) && KeysOf(ops[1..]) <= KeysOf(ops)
    ensures Distinct(ops) ==> Distinct(ops[1..]) && ops[0].key !in KeysOf(ops[1..])
  {
  }

  /** One operation reads and writes nothing but its own object. */
  lemma OpFrame(w: World, op: Op, k: Key, v: Option<Stored>)
    requires k != op.key
    ensures Slot(RunOp(w, op).world.objects, k) == Slot(w.objects, k)
    ensures var moved := World(Put(w.objects, k, v), w.faults);
            && RunOp(moved, op).ok == RunOp(w, op).ok
            && RunOp(moved, op).world == World(Put(RunOp(w, op).world.objects, k, v), RunOp(w, op).world.faults)
  {
    PutSlot(w.objects, k, v);
    var goal := Goal(op, Slot(w.objects, op.key));
    PutSlot(w.objects, op.key, goal);
    PutCommutes(w.objects, k, v, op.key, goal);
  }

  /** A pass commutes with a change of any object that it does not touch. */
  lemma {:induction false} OpsFrame(w: World, ops: seq<Op>, k: Key, v: Option<Stored>)
    requires k !in KeysOf(ops)
    ensures Slot(RunOps(w, ops).world.objects, k) == Slot(w.objects, k)
    ensures RunOps(World(Put(w.objects, k, v), w.faults), ops).world.objects == Put(RunOps(w, ops).world.objects, k, v)
    decreases |ops|
  {
    if ops != [] {
      TailKeys(ops);
      OpFrame(w, ops[0], k, v);
      OpsFrame(RunOp(w, ops[0]).world, ops[1..], k, v);
    }
  }

  lemma {:induction false} WorkingPass(m: Store, ops: seq<Op>)
    ensures RunOps(World(m, []), ops).world == World(Pass(m, ops), [])
    decreases |ops|
  {
    if ops != [] {
      var op := ops[0];
      var goal := Goal(op, Slot(m, op.key));
      PutSlot(m, op.key, goal);
      assert op.Remove? && op.key !in m ==> m - {op.key} == m;
      if !Blocked(op, Slot(m, op.key)) {
        WorkingPass(Put(m, op.key, goal), ops[1..]);
      }
    }
  }

  lemma GoalStays(op: Op, was: Option<Stored>)
    ensures Goal(op, Goal(op, was)) == Goal(op, was)
    ensures !Blocked(op, Goal(op, was))
  {
  }

  /** What one operation leaves behind: its goal, or what was there. */
  lemma OpCases(w: World, op: Op)
    ensures var run := RunOp(w, op);
            var goal := Put(w.objects, op.key, Goal(op, Slot(w.objects, op.key)));
            && run.world.objects in {w.objects, goal}
            && (Blocked(op, Slot(w.objects, op.key)) ==> !run.ok && run.world.objects == w.objects)
  {
    PutSlot(w.objects, op.key, Goal(op, Slot(w.objects, op.key)));
  }

  /** Whatever fails in a pass, a pass after it in which nothing fails leaves the store that it would
      have left without the first one. */
  lemma {:induction false} FailedPassLeavesNoTrace(w: World, ops: seq<Op>)
    requires Distinct(ops)
    ensures Pass(RunOps(w, ops).world.objects, ops) == Pass(w.objects, ops)
    decreases |ops|
  {
    if ops != [] {
      var op, m := ops[0], w.objects;
      var first := RunOp(w, op);
      var goal := Goal(op, Slot(m, op.key));
      TailKeys(ops);
      OpCases(w, op);
      PutSlot(m, op.key, goal);
      GoalStays(op, Slot(m, op.key));
      if first.ok {
        OpsFrame(first.world, ops[1..], op.key, goal);
        var moved := World(Put(m, op.key, goal), first.world.faults);
        assert Put(first.world.objects, op.key, goal) == moved.objects;
        FailedPassLeavesNoTrace(moved, ops[1..]);
        SameSlot(RunOps(first.world, ops[1..]).world.objects, op, goal, m);
      }
    }
  }

  lemma SameSlot(m: Store, op: Op, goal: Option<Stored>, before: Store)
    requires goal == Goal(op, Slot(before, op.key))
    requires Slot(m, op.key) in {Slot(before, op.key), goal}
    ensures Goal(op, Slot(m, op.key)) == goal
  {
    GoalStays(op, Slot(before, op.key));
  }

  /** Convergence: any number of passes, cut off or failing anywhere, followed by one in which every
      call works, leaves the store that this last pass alone would have left. */
  lemma {:induction false} Converges(m: Store, tries: seq<seq<Outcome>>, ops: seq<Op>)
    requires Distinct(ops)
    ensures Pass(Passes(m, tries, ops), ops) == Pass(m, ops)
    decreases |tries|
  {
    if tries != [] {
      FailedPassLeavesNoTrace(World(m, tries[0]), ops);
      Converges(RunOps(World(m, tries[0]), ops).world.objects, tries[1..], ops);
    }
  }

  /** Two passes in which every call works do no more than one. */
  lemma PassTwice(m: Store, ops: seq<Op>)
    requires Distinct(ops)
    ensures Pass(Pass(m, ops), ops) == Pass(m, ops)
  {
    WorkingPass(m, ops);
    FailedPassLeavesNoTrace(World(m, []), ops);
  }

  /** Passes over disjoint objects commute. */
  lemma {:induction false} PassesCommute(m: Store, a: seq<Op>, b: seq<Op>)
    requires KeysOf(a) !! KeysOf(b)
    ensures Pass(Pass(m, a), b) == Pass(Pass(m, b), a)
    decreases |a|
  {
    if a != [] {
      var op := a[0];
      var goal := Goal(op, Slot(m, op.key));
      TailKeys(a);
      WorkingPass(m, b);
      OpsFrame(World(m, []), b, op.key, goal);
      WorkingPass(Put(m, op.key, goal), b);
      if !Blocked(op, Slot(m, op.key)) {
        PassesCommute(Put(m, op.key, goal), a[1..], b);
      }
    }
  }

  // ---------------------------------------------------------------- what a pass leaves

  /** Calls that all fail change nothing: a process that dies is a pass whose calls fail from then on. */
  lemma {:induction false} DeadPass(w: World, ops: seq<Op>)
    requires |ops| <= |w.faults| && forall o | o in w.faults :: o == Fails
    ensures RunOps(w, ops).world.objects == w.objects
    decreases |ops|
  {
    if ops != [] {
      assert w.faults[0] in w.faults && forall o | o in w.faults[1..] :: o in w.faults;
      assert RunOp(w, ops[0]).world == Rest(w);
      DeadPass(RunOp(w, ops[0]).world, ops[1..]);
    }
  }

  /** The objects that a pass is to remove and takes for missing because the read of them failed. */
  function Swallowed(w: World, ops: seq<Op>): set<Key>
    decreases |ops|
  {
    if ops == [] then {}
    else
      var first := RunOp(w, ops[0]);
      (if ops[0].Remove? && !Next(w).Works? then {ops[0].key} else {}) +
      (if first.ok then Swallowed(first.world, ops[1..]) else {})
  }

  lemma {:induction false} SwallowedAreKeys(w: World, ops: seq<Op>)
    ensures Swallowed(w, ops) <= KeysOf(ops)
    decreases |ops|
  {
    if ops != [] {
      TailKeys(ops);
      SwallowedAreKeys(RunOp(w, ops[0]).world, ops[1..]);
    }
  }

  /** After a pass that reports success every object that it applies is as wanted, and one that it
      removes is gone unless the read that looked for it failed; then it is as it was. */
  lemma {:induction false} SuccessLeaves(w: World, ops: seq<Op>, op: Op)
    requires Distinct(ops) && RunOps(w, ops).ok && op in ops
    ensures var was, now := Slot(w.objects, op.key), Slot(RunOps(w, ops).world.objects, op.key);
            && (op.Apply? ==> now == Goal(op, was))
            && (op.Remove? ==> now == if op.key in Swallowed(w, ops) then was else None)
    decreases |ops|
  {
    var first := RunOp(w, ops[0]);
    TailKeys(ops);
    SwallowedAreKeys(first.world, ops[1..]);
    PutSlot(w.objects, ops[0].key, Goal(ops[0], Slot(w.objects, ops[0].key)));
    if op == ops[0] {
      OpsFrame(first.world, ops[1..], op.key, None);
    } else {
      assert op in ops[1..] && op.key in KeysOf(ops[1..]);
      OpFrame(w, ops[0], op.key, None);
      SuccessLeaves(first.world, ops[1..], op);
    }
  }

  lemma OthersUntouched(w: World, ops: seq<Op>, k: Key)
    requires k !in KeysOf(ops)
    ensures Slot(RunOps(w, ops).world.objects, k) == Slot(w.objects, k)
  {
    OpsFrame(w, ops, k, None);
  }

  // ---------------------------------------------------------------- what a pass does not do

  /** An object that another controller owns is never changed by an operation that would apply it, and
      the pass does not report success. Removing looks at no owner. */
  lemma {:induction false} ForeignKept(w: World, ops: seq<Op>, op: Op)
    requires Distinct(ops) && op in ops && op.Apply? && op.key in w.objects
    requires w.objects[op.key].owner.Some? && w.objects[op.key].owner.value != op.owner
    ensures !RunOps(w, ops).ok && Slot(RunOps(w, ops).world.objects, op.key) == Some(w.objects[op.key])
    decreases |ops|
  {
    var first := RunOp(w, ops[0]);
    TailKeys(ops);
    if op == ops[0] {
      OpCases(w, op);
    } else {
      assert op in ops[1..] && op.key in KeysOf(ops[1..]);
      OpFrame(w, ops[0], op.key, None);
      if first.ok {
        ForeignKept(first.world, ops[1..], op);
      }
    }
  }

  /** Every object is as the operations want it. */
  predicate Settled(m: Store, ops: seq<Op>) {
    forall op | op in ops ::
      var was := Slot(m, op.key);
      was == Goal(op, was) && !Blocked(op, was)
  }

  /** What a success leaves is settled, unless a failed read hid an object. */
  lemma SuccessSettles(w: World, ops: seq<Op>)
    requires Distinct(ops) && RunOps(w, ops).ok && Swallowed(w, ops) == {}
    ensures Settled(RunOps(w, ops).world.objects, ops)
  {
    forall op | op in ops
      ensures var was := Slot(RunOps(w, ops).world.objects, op.key);
              was == Goal(op, was) && !Blocked(op, was)
    {
      SuccessLeaves(w, ops, op);
      GoalStays(op, Slot(w.objects, op.key));
    }
  }

  /** A pass over settled objects reads each of them once and writes nothing. */
  lemma {:induction false} SettledPassIsQuiet(m: Store, ops: seq<Op>, faults: seq<Outcome>)
    requires Settled(m, ops) && |faults| >= |ops| && forall i | 0 <= i < |ops| :: faults[i].Works?
    ensures RunOps(World(m, faults), ops) == Run(World(m, faults[|ops|..]), true)
    decreases |ops|
  {
    if ops == [] {
      assert faults[0..] == faults;
    } else {
      assert ops[0] in ops;
      assert RunOp(World(m, faults), ops[0]) == Run(World(m, faults[1..]), true);
      SettledPassIsQuiet(m, ops[1..], faults[1..]);
      assert faults[1..][|ops[1..]|..] == faults[|ops|..];
    }
  }
}
