/** validatePolicySpec walks over append(append(All, Any...), None...), which may write into the spare
    capacity of All. Go slices on arrays, to show that this disturbs no match that the controller builds. */
module Slices {
  import opened Wrappers
  import opened Specs
  import opened Sanitize

  /** A Go slice: a window on an array, and how far it may grow in place. */
  datatype Slice = Slice(backing: array<MatchLeaf>, start: nat, len: nat, cap: nat) {
    predicate Valid() {
      len <= cap && start + cap <= backing.Length
    }

    function View(): seq<MatchLeaf>
      requires Valid()
      reads backing
    {
      backing[start..start + len]
    }
  }

  /** A new array with room to spare. */
  method Grown(all: seq<MatchLeaf>) returns (r: Slice)
    ensures r.Valid() && fresh(r.backing) && r.View() == all
  {
    var grown := new MatchLeaf[2 * |all|](i => if 0 <= i < |all| then all[i] else MatchLeaf("", "", ""));
    r := Slice(grown, 0, |all|, 2 * |all|);
  }

  /** append(s, more...): in place if the capacity allows, else into a new, larger array. */
  method Append(s: Slice, more: seq<MatchLeaf>) returns (r: Slice)
    requires s.Valid()
    modifies s.backing
    ensures r.Valid() && r.View() == old(s.View()) + more
    ensures if s.len + |more| <= s.cap then r.backing == s.backing && r.start == s.start && r.cap == s.cap
            else fresh(r.backing)
    ensures s.View() == old(s.View())
    ensures forall i | 0 <= i < s.backing.Length ::
              !(s.start + s.len <= i < s.start + s.len + |more| <= s.start + s.cap) ==>
              s.backing[i] == old(s.backing[i])
  {
    var end := s.start + s.len;
    if s.len + |more| <= s.cap {
      for i := 0 to |more|
        invariant forall k | 0 <= k < i :: s.backing[end + k] == more[k]
        invariant forall k | 0 <= k < s.backing.Length && !(end <= k < end + i) :: s.backing[k] == old(s.backing[k])
      {
        s.backing[end + i] := more[i];
      }
      r := s.(len := s.len + |more|);
    } else {
      r := Grown(s.View() + more);
    }
  }

  /** How buildRenderContext makes a list of leaves: from nothing, one append at a time. */
  method BuildLeaves(leaves: seq<MatchLeaf>) returns (s: Slice)
    ensures s.Valid() && fresh(s.backing) && s.View() == leaves
  {
    var empty := new MatchLeaf[0];
    s := Slice(empty, 0, 0, 0);
    for i := 0 to |leaves|
      invariant s.Valid() && fresh(s.backing) && s.View() == leaves[..i]
    {
      s := Append(s, [leaves[i]]);
    }
  }

  /** The first leaf that fails its checks. */
  function FirstInvalid(leaves: seq<MatchLeaf>): Option<MatchLeaf> {
    if leaves == [] then None
    else if !ValidLeaf(leaves[0]) then Some(leaves[0])
    else FirstInvalid(leaves[1..])
  }

  method Walk(leaves: Slice) returns (invalid: Option<MatchLeaf>)
    requires leaves.Valid()
    ensures invalid == FirstInvalid(leaves.View())
  {
    var view := leaves.View();
    for i := 0 to leaves.len
      invariant FirstInvalid(view) == FirstInvalid(view[i..])
    {
      var leaf := leaves.backing[leaves.start + i];
      assert leaf == view[i] && view[i..][1..] == view[i + 1..];
      if !ValidLeaf(leaf) {
        return Some(leaf);
      }
    }
    return None;
  }

  /** No visible part of `s` lies in the spare capacity of `all`. */
  predicate Apart(all: Slice, s: Slice) {
    all.backing == s.backing ==> s.start + s.len <= all.start + all.len || all.start + all.cap <= s.start
  }

  /** An append to `all` leaves every slice apart from it, and itself, as it reads. */
  method AppendApart(all: Slice, more: seq<MatchLeaf>, ghost others: seq<Slice>) returns (r: Slice)
    requires all.Valid() && forall s | s in others :: s.Valid() && Apart(all, s)
    modifies all.backing
    ensures r.Valid() && r.View() == old(all.View()) + more
    ensures r.backing == all.backing || fresh(r.backing)
    ensures r.backing == all.backing ==> r.start == all.start && r.cap == all.cap && r.len == all.len + |more|
    ensures forall s | s in others :: s.View() == old(s.View())
  {
    r := Append(all, more);
  }

  /** The nested append. */
  method AppendBoth(all: Slice, any: Slice, none: Slice) returns (leaves: Slice)
    requires all.Valid() && any.Valid() && none.Valid() && Apart(all, any) && Apart(all, none)
    modifies all.backing
    ensures leaves.Valid() && leaves.View() == old(all.View()) + old(any.View()) + old(none.View())
    ensures all.View() == old(all.View()) && any.View() == old(any.View()) && none.View() == old(none.View())
  {
    ghost var lists := [all, any, none];
    var some := AppendApart(all, any.View(), lists);
    assert lists[0] in lists && lists[1] in lists && lists[2] in lists;
    leaves := AppendApart(some, none.View(), lists);
  }

  /** The walk visits All, Any and None in this order, whether or not the appends happen in place,
      and none of the three lists reads differently afterwards, wherever the lists lie, as long as
      Any and None do not lie in the spare capacity of All. */
  method ValidateMatch(all: Slice, any: Slice, none: Slice) returns (invalid: Option<MatchLeaf>)
    requires all.Valid() && any.Valid() && none.Valid() && Apart(all, any) && Apart(all, none)
    modifies all.backing
    ensures invalid == old(FirstInvalid(all.View() + any.View() + none.View()))
    ensures all.View() == old(all.View()) && any.View() == old(any.View()) && none.View() == old(none.View())
  {
    var leaves := AppendBoth(all, any, none);
    invalid := Walk(leaves);
  }

  lemma {:induction false} NoneInvalid(leaves: seq<MatchLeaf>)
    ensures FirstInvalid(leaves).None? <==> forall leaf | leaf in leaves :: ValidLeaf(leaf)
  {
    if leaves != [] {
      NoneInvalid(leaves[1..]);
      assert leaves == [leaves[0]] + leaves[1..];
    }
  }

  /** From spec to verdict: on the lists that the controller builds, the walk decides Sanitize.ValidMatch. */
  method ConvertAndValidate(m: PolicyMatch) returns (ok: bool)
    ensures ok <==> ValidMatch(m)
  {
    var all := BuildLeaves(m.all);
    var any := BuildLeaves(m.any);
    var none := BuildLeaves(m.none);
    var invalid := ValidateMatch(all, any, none);
    NoneInvalid(m.all + m.any + m.none);
    ok := invalid.None?;
  }
}
