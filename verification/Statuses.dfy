/** Status conditions and where they are kept (internal/status/reporter.go). */
module Statuses {
  import opened Wrappers
  import opened ApiServers

  /** A condition: its type, whether it holds, why, and since when. Messages are left out. */
  datatype Condition = Condition(kind: string, holds: bool, reason: string, since: int)

  function Find(cs: seq<Condition>, kind: string): Option<Condition> {
    if cs == [] then None else if cs[0].kind == kind then Some(cs[0]) else Find(cs[1..], kind)
  }

  predicate Holds(cs: seq<Condition>, kind: string, value: bool) {
    Find(cs, kind).Some? && Find(cs, kind).value.holds == value
  }

  /** meta.SetStatusCondition. */
  function Set(cs: seq<Condition>, kind: string, value: bool, reason: string, now: int): seq<Condition> {
    if cs == [] then [Condition(kind, value, reason, now)]
    else if cs[0].kind == kind then
      [Condition(kind, value, reason, if cs[0].holds == value then cs[0].since else now)] + cs[1..]
    else [cs[0]] + Set(cs[1..], kind, value, reason, now)
  }

  predicate Unique(cs: seq<Condition>) {
    forall i, j | 0 <= i < j < |cs| :: cs[i].kind != cs[j].kind
  }

  lemma {:induction false} SetKinds(cs: seq<Condition>, kind: string, value: bool, reason: string, now: int,
      other: string)
    ensures (exists c :: c in Set(cs, kind, value, reason, now) && c.kind == other) <==>
            other == kind || exists c :: c in cs && c.kind == other
  {
    var after := Set(cs, kind, value, reason, now);
    if cs == [] {
      assert after[0] in after;
    } else {
      assert cs == [cs[0]] + cs[1..] && cs[0] in cs && after[0] in after;
      if cs[0].kind == kind {
        assert after == [after[0]] + cs[1..];
      } else {
        SetKinds(cs[1..], kind, value, reason, now, other);
        assert after == [cs[0]] + Set(cs[1..], kind, value, reason, now);
      }
    }
  }

  lemma UniqueCons(c: Condition, cs: seq<Condition>)
    requires Unique(cs) && forall d | d in cs :: d.kind != c.kind
    ensures Unique([c] + cs)
  {
  }

  /** No condition type ever appears twice. */
  lemma {:induction false} SetUnique(cs: seq<Condition>, kind: string, value: bool, reason: string, now: int)
    requires Unique(cs)
    ensures Unique(Set(cs, kind, value, reason, now))
  {
    if cs != [] {
      if cs[0].kind == kind {
        UniqueCons(Set(cs, kind, value, reason, now)[0], cs[1..]);
      } else {
        var rest := Set(cs[1..], kind, value, reason, now);
        SetUnique(cs[1..], kind, value, reason, now);
        forall d | d in rest
          ensures d.kind != cs[0].kind
        {
          SetKinds(cs[1..], kind, value, reason, now, d.kind);
        }
        UniqueCons(cs[0], rest);
      }
    }
  }

  /** What a set condition is afterwards: its time moves exactly when it is new or flips; and all
      other conditions stay as they are. */
  lemma {:induction false} SetFinds(cs: seq<Condition>, kind: string, value: bool, reason: string, now: int)
    ensures Find(Set(cs, kind, value, reason, now), kind) ==
            Some(Condition(kind, value, reason, if Holds(cs, kind, value) then Find(cs, kind).value.since else now))
    ensures forall other | other != kind :: Find(Set(cs, kind, value, reason, now), other) == Find(cs, other)
  {
    if cs != [] && cs[0].kind != kind {
      SetFinds(cs[1..], kind, value, reason, now);
    }
  }

  lemma {:induction false} SetAt(cs: seq<Condition>, i: nat, kind: string, value: bool, reason: string, now: int)
    requires i <= |cs| && forall j | 0 <= j < i :: cs[j].kind != kind
    requires i < |cs| ==> cs[i].kind == kind
    ensures Set(cs, kind, value, reason, now) ==
            if i == |cs| then cs + [Condition(kind, value, reason, now)]
            else cs[i := Condition(kind, value, reason, if cs[i].holds == value then cs[i].since else now)]
  {
    if i > 0 {
      SetAt(cs[1..], i - 1, kind, value, reason, now);
      assert cs == [cs[0]] + cs[1..];
    }
  }

  // ---------------------------------------------------------------- the server

  /** The status of one object on the server, the outcomes of the writes to come, and the clock. */
  datatype ServerState = ServerState(stored: seq<Condition>, writes: seq<Outcome>, clock: int)

  /** Status().Update with these conditions. */
  function Written(s: ServerState, cs: seq<Condition>): ServerState {
    if s.writes == [] then s.(stored := cs)
    else ServerState(if s.writes[0].Fails? then s.stored else cs, s.writes[1..], s.clock)
  }

  /** One condition set on what is stored, and written back. */
  function ReportedOn(s: ServerState, kind: string, value: bool, reason: string): ServerState {
    Written(s.(clock := s.clock + 1), Set(s.stored, kind, value, reason, s.clock))
  }

  // ---------------------------------------------------------------- objects in memory and on the server

  /** The copy of an object that a pass works on. */
  class Copy {
    var conditions: seq<Condition>

    constructor (conditions: seq<Condition>)
      ensures this.conditions == conditions
    {
      this.conditions := conditions;
    }

    method SetCondition(kind: string, value: bool, reason: string, now: int)
      modifies this
      ensures conditions == Set(old(conditions), kind, value, reason, now)
    {
      var i := 0;
      while i < |conditions| && conditions[i].kind != kind
        invariant i <= |conditions| && forall j | 0 <= j < i :: conditions[j].kind != kind
      {
        i := i + 1;
      }
      SetAt(conditions, i, kind, value, reason, now);
      if i == |conditions| {
        conditions := conditions + [Condition(kind, value, reason, now)];
      } else {
        var since := if conditions[i].holds == value then conditions[i].since else now;
        conditions := conditions[i := Condition(kind, value, reason, since)];
      }
    }
  }

  class Server {
    var stored: seq<Condition>
    var writes: seq<Outcome>
    var clock: int

    constructor (state: ServerState)
      ensures Now() == state
    {
      this.stored, this.writes, this.clock := state.stored, state.writes, state.clock;
    }

    function Now(): ServerState
      reads this
    {
      ServerState(stored, writes, clock)
    }

    /** Status().Update; the reconcilers ignore its error. */
    method Update(copy: Copy)
      modifies this`stored, this`writes
      ensures Now() == Written(old(Now()), copy.conditions)
    {
      if writes != [] {
        var outcome := writes[0];
        writes := writes[1..];
        if outcome.Fails? {
          return;
        }
      }
      stored := copy.conditions;
    }

    method Tick() returns (now: int)
      modifies this`clock
      ensures now == old(clock) && clock == old(clock) + 1
    {
      now := clock;
      clock := clock + 1;
    }

    /** Sets one condition on a copy and writes the copy back: SetProgressing, SetDegraded and the
        setters of clients and policies. */
    method Report(copy: Copy, kind: string, value: bool, reason: string)
      modifies this, copy
      ensures copy.conditions == Set(old(copy.conditions), kind, value, reason, old(clock))
      ensures Now() == Written(old(Now()).(clock := old(clock) + 1), copy.conditions)
    {
      var now := Tick();
      copy.SetCondition(kind, value, reason, now);
      Update(copy);
    }
  }
}
