/** The API server as a pass sees it: a keyed store behind calls that may fail, and the two things
    that a pass does with it, CreateOrUpdate and deleting what it finds. */
module ApiServers {
  import opened Wrappers
  import opened Objects

  /** What one call does; FailsAfter is a write that takes effect although an error is reported. */
  datatype Outcome = Works | Fails | FailsAfter

  /** The store and the outcomes of the calls to come; once they run out, every call works. */
  datatype World = World(objects: Store, faults: seq<Outcome>)

  function Next(w: World): Outcome {
    if w.faults == [] then Works else w.faults[0]
  }

  function Rest(w: World): World {
    if w.faults == [] then w else w.(faults := w.faults[1..])
  }

  function Slot(m: Store, k: Key): Option<Stored> {
    if k in m then Some(m[k]) else None
  }

  function Put(m: Store, k: Key, v: Option<Stored>): Store {
    if v.Some? then m[k := v.value] else m - {k}
  }

  // ---------------------------------------------------------------- what a pass does to one object

  datatype Op =
    | Apply(key: Key, owner: string, body: Body, annotations: Option<map<string, string>>)
    | Remove(key: Key)

  /** Another controller owns the object: SetControllerReference refuses. */
  predicate Blocked(op: Op, was: Option<Stored>) {
    op.Apply? && was.Some? && was.value.owner.Some? && was.value.owner.value != op.owner
  }

  /** The object as the operation wants it. Annotations are only ever replaced by non-empty ones. */
  function Goal(op: Op, was: Option<Stored>): Option<Stored> {
    match op
    case Remove(_) => None
    case Apply(_, owner, body, annotations) =>
      var kept := if was.Some? then was.value.annotations else map[];
      Some(Stored(Some(owner), if annotations.Some? then annotations.value else kept, body))
  }

  datatype Run = Run(world: World, ok: bool)

  /** One write call that puts `v` at `k`. */
  function Write(w: World, k: Key, v: Option<Stored>): Run {
    Run(if Next(w).Fails? then Rest(w) else Rest(w).(objects := Put(w.objects, k, v)), Next(w).Works?)
  }

  /** A read and, if the object differs from the goal, a write. Where an operation removes an object,
      a read that fails counts as finding nothing. */
  function RunOp(w: World, op: Op): Run {
    var was := Slot(w.objects, op.key);
    match op
    case Apply(_, _, _, _) =>
      if !Next(w).Works? || Blocked(op, was) then Run(Rest(w), false)
      else if was == Goal(op, was) then Run(Rest(w), true)
      else Write(Rest(w), op.key, Goal(op, was))
    case Remove(_) =>
      if !Next(w).Works? || was.None? then Run(Rest(w), true)
      else Write(Rest(w), op.key, None)
  }

  /** A pass: operations in order, up to the first that fails. */
  function RunOps(w: World, ops: seq<Op>): Run
    decreases |ops|
  {
    if ops == [] then Run(w, true)
    else
      var first := RunOp(w, ops[0]);
      if first.ok then RunOps(first.world, ops[1..]) else first
  }

  lemma {:induction false} RunConcat(w: World, a: seq<Op>, b: seq<Op>)
    ensures RunOps(w, a + b) == if RunOps(w, a).ok then RunOps(RunOps(w, a).world, b) else RunOps(w, a)
    decreases |a|
  {
    if a == [] {
      assert a + b == b;
    } else {
      assert (a + b)[1..] == a[1..] + b;
      RunConcat(RunOp(w, a[0]).world, a[1..], b);
    }
  }

  lemma RunOne(w: World, op: Op)
    ensures RunOps(w, [op]) == RunOp(w, op)
  {
    assert [op][1..] == [];
    assert RunOps(RunOp(w, op).world, []) == Run(RunOp(w, op).world, true);
  }

  // ---------------------------------------------------------------- the client

  datatype Found = Object(item: Stored) | NotFound | ReadError

  class ApiServer {
    var objects: Store
    var faults: seq<Outcome>

    constructor (objects: Store, faults: seq<Outcome>)
      ensures Now() == World(objects, faults)
    {
      this.objects := objects;
      this.faults := faults;
    }

    function Now(): World
      reads this
    {
      World(objects, faults)
    }

    method Call() returns (outcome: Outcome)
      modifies this`faults
      ensures outcome == old(Next(Now())) && Now() == old(Rest(Now()))
    {
      outcome := Works;
      if faults != [] {
        outcome := faults[0];
        faults := faults[1..];
      }
    }

    method Get(key: Key) returns (r: Found)
      modifies this`faults
      ensures Now() == old(Rest(Now()))
      ensures r == if !old(Next(Now())).Works? then ReadError
                   else if key in objects then Object(objects[key]) else NotFound
    {
      var outcome := Call();
      if !outcome.Works? {
        return ReadError;
      }
      return if key in objects then Object(objects[key]) else NotFound;
    }

    /** Create and Update. */
    method Save(key: Key, item: Stored) returns (ok: bool)
      modifies this
      ensures Run(Now(), ok) == old(Write(Now(), key, Some(item)))
    {
      var outcome := Call();
      if !outcome.Fails? {
        objects := objects[key := item];
      }
      return outcome.Works?;
    }

    method Delete(key: Key) returns (ok: bool)
      modifies this
      ensures Run(Now(), ok) == old(Write(Now(), key, None))
    {
      var outcome := Call();
      if !outcome.Fails? {
        objects := objects - {key};
      }
      return outcome.Works?;
    }

    /** controllerutil.CreateOrUpdate with a mutation that sets the owner, the body and, if there
        are any, the annotations. */
    method CreateOrUpdate(key: Key, owner: string, body: Body, annotations: Option<map<string, string>>)
        returns (ok: bool)
      modifies this
      ensures Run(Now(), ok) == old(RunOp(Now(), Apply(key, owner, body, annotations)))
    {
      var found := Get(key);
      var item := Stored(None, map[], body);
      match found {
        case ReadError => return false;
        case NotFound =>
        case Object(existing) =>
          if existing.owner.Some? && existing.owner.value != owner {
            return false;
          }
          item := existing;
      }
      item := item.(owner := Some(owner), body := body);
      if annotations.Some? {
        item := item.(annotations := annotations.value);
      }
      if found == Object(item) {
        return true;
      }
      ok := Save(key, item);
    }
  }
}
