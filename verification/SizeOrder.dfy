/** The sizes that `set_param_sizes` arrives at, as a function of the definitions and of the
    order in which they are taken. */
module SizeOrder {
  import opened Fields
  import opened Schema
  import opened Encoder
  import opened Decoder
  import opened MinimumSizes

  /** The memoised sizes after `get_param_size` of one parameter: entered as its header, so
      that cycles end there, and left with what its fields and runs add up to. */
  function Visited(s: Schema, memo: map<nat, nat>, id: nat): (r: map<nat, nat>)
    requires Closed(s) && id in s && memo.Keys <= s.Keys
    ensures memo.Keys <= r.Keys <= s.Keys && id in r && forall k :: k in memo ==> r[k] == memo[k]
    decreases s.Keys - memo.Keys, 0, 0
  {
    if id in memo then memo
    else
      assert GroupsRefer(s, s[id].groups);
      RunsDoRefer(s, s[id].groups);
      var entered := memo[id := HeaderSize(id)];
      assert id in s.Keys - memo.Keys && id !in s.Keys - entered.Keys;
      var (after, n) := VisitedRuns(s, entered, Runs(s[id].groups), 0,
                                    HeaderSize(id) + MinSizes(s[id].fields));
      after[id := n]
  }

  /** The runs from the `i`th on, given what the ones before add up to. */
  function VisitedRuns(s: Schema, memo: map<nat, nat>, rs: seq<Run>, i: nat, n: nat): (r: (map<nat, nat>, nat))
    requires Closed(s) && memo.Keys <= s.Keys && RunsRefer(s, rs) && i <= |rs|
    ensures memo.Keys <= r.0.Keys <= s.Keys && forall k :: k in memo ==> r.0[k] == memo[k]
    decreases s.Keys - memo.Keys, 2, |rs| - i
  {
    if i == |rs| then (memo, n)
    else
      var (next, smallest) := VisitedMembers(s, memo, rs[i].members, 0, 0);
      VisitedRuns(s, next, rs, i + 1, if rs[i].optional then n else n + smallest)
  }

  /** The members from the `k`th on, given the smallest of the ones before. */
  function VisitedMembers(s: Schema, memo: map<nat, nat>, ids: seq<nat>, k: nat, smallest: nat)
    : (r: (map<nat, nat>, nat))
    requires Closed(s) && memo.Keys <= s.Keys && Refers(s, ids) && k <= |ids|
    ensures memo.Keys <= r.0.Keys <= s.Keys && forall k :: k in memo ==> r.0[k] == memo[k]
    decreases s.Keys - memo.Keys, 1, |ids| - k
  {
    if k == |ids| then (memo, smallest)
    else
      var next := Visited(s, memo, ids[k]);
      VisitedMembers(s, next, ids, k + 1, if k == 0 || next[ids[k]] < smallest then next[ids[k]] else smallest)
  }

  /** All parameters in the order given, from the `i`th on. */
  function VisitedAll(s: Schema, memo: map<nat, nat>, order: seq<nat>, i: nat): (r: map<nat, nat>)
    requires Closed(s) && memo.Keys <= s.Keys && i <= |order| && forall j :: 0 <= j < |order| ==> order[j] in s
    ensures memo.Keys <= r.Keys <= s.Keys && forall k :: k in memo ==> r[k] == memo[k]
    ensures forall j :: i <= j < |order| ==> order[j] in r
    decreases |order| - i
  {
    if i == |order| then memo else VisitedAll(s, Visited(s, memo, order[i]), order, i + 1)
  }

  // ---- step by step ----

  lemma VisitedBefore(s: Schema, memo: map<nat, nat>, id: nat)
    requires Closed(s) && id in memo && memo.Keys <= s.Keys
    ensures Visited(s, memo, id) == memo
  {
    hide VisitedRuns, Closed, Runs, MinSizes;
  }

  lemma VisitedFirst(s: Schema, memo: map<nat, nat>, id: nat)
    requires Closed(s) && id in s && id !in memo && memo.Keys <= s.Keys
    ensures RunsRefer(s, Runs(s[id].groups))
    ensures var r := VisitedRuns(s, memo[id := HeaderSize(id)], Runs(s[id].groups), 0,
                                 HeaderSize(id) + MinSizes(s[id].fields));
            Visited(s, memo, id) == r.0[id := r.1]
  {
    hide VisitedRuns, Runs, MinSizes;
    assert GroupsRefer(s, s[id].groups);
    RunsDoRefer(s, s[id].groups);
  }

  lemma RunVisited(s: Schema, memo: map<nat, nat>, rs: seq<Run>, i: nat, n: nat)
    requires Closed(s) && memo.Keys <= s.Keys && RunsRefer(s, rs) && i < |rs|
    ensures var r := VisitedMembers(s, memo, rs[i].members, 0, 0);
            VisitedRuns(s, memo, rs, i, n)
            == VisitedRuns(s, r.0, rs, i + 1, if rs[i].optional then n else n + r.1)
  {
    hide VisitedMembers, Closed;
  }

  lemma RunsEnd(s: Schema, memo: map<nat, nat>, rs: seq<Run>, n: nat)
    requires Closed(s) && memo.Keys <= s.Keys && RunsRefer(s, rs)
    ensures VisitedRuns(s, memo, rs, |rs|, n) == (memo, n)
  {
    hide VisitedMembers, Closed;
  }

  lemma MemberVisited(s: Schema, memo: map<nat, nat>, ids: seq<nat>, k: nat, smallest: nat)
    requires Closed(s) && memo.Keys <= s.Keys && Refers(s, ids) && k < |ids|
    ensures var next := Visited(s, memo, ids[k]);
            VisitedMembers(s, memo, ids, k, smallest)
            == VisitedMembers(s, next, ids, k + 1,
                              if k == 0 || next[ids[k]] < smallest then next[ids[k]] else smallest)
  {
    hide Visited, Closed;
  }

  lemma MembersEnd(s: Schema, memo: map<nat, nat>, ids: seq<nat>, smallest: nat)
    requires Closed(s) && memo.Keys <= s.Keys && Refers(s, ids)
    ensures VisitedMembers(s, memo, ids, |ids|, smallest) == (memo, smallest)
  {
    hide Visited, Closed;
  }

  // ---- the order matters ----

  /** 200 may hold a 201, which must hold a 200. */
  function EachOther(): Schema {
    map[200 := Container([Scalar(2)], [Group(true, false, "", [201])], 0, false),
        201 := Container([], [Group(false, false, "", [200])], 0, false)]
  }

  lemma EachOtherRuns()
    ensures Closed(EachOther()) && EachOther().Keys == {200, 201}
    ensures Runs(EachOther()[200].groups) == [Run(true, [201])] && Runs(EachOther()[201].groups) == [Run(false, [200])]
    ensures HeaderSize(200) + MinSizes(EachOther()[200].fields) == 6
    ensures HeaderSize(201) + MinSizes(EachOther()[201].fields) == 4
  {
    var s := EachOther();
    OneRun(s[200].groups);
    OneRun(s[201].groups);
    assert s[200].fields[1..] == [];
  }

  lemma OneRun(gs: seq<Group>)
    requires |gs| == 1
    ensures Runs(gs) == [Run(gs[0].optional, gs[0].members)]
  {
    assert gs[..1] == gs && gs[1..] == [];
    assert AllMembers(gs) == gs[0].members + AllMembers([]);
    assert gs[0].members + [] == gs[0].members;
  }

  lemma OneMember(s: Schema, memo: map<nat, nat>, rs: seq<Run>, n: nat)
    requires Closed(s) && memo.Keys <= s.Keys && RunsRefer(s, rs) && |rs| == 1 && |rs[0].members| == 1
    ensures var next := Visited(s, memo, rs[0].members[0]);
            VisitedRuns(s, memo, rs, 0, n)
            == (next, if rs[0].optional then n else n + next[rs[0].members[0]])
  {
    hide Visited, VisitedRuns, VisitedMembers, Closed;
    var id := rs[0].members[0];
    var next := Visited(s, memo, id);
    RunVisited(s, memo, rs, 0, n);
    MemberVisited(s, memo, rs[0].members, 0, 0);
    MembersEnd(s, next, rs[0].members, next[id]);
    RunsEnd(s, next, rs, if rs[0].optional then n else n + next[id]);
  }

  lemma HolderFirst()
    ensures Closed(EachOther()) && VisitedAll(EachOther(), map[], [200, 201], 0)[201] == 8
  {
    EachOtherRuns();
    hide Visited, VisitedRuns, Runs, MinSizes, Closed;
    var s := EachOther();
    var memo: map<nat, nat> := map[200 := 4];
    VisitedFirst(s, map[], 200);
    OneMember(s, memo, Runs(s[200].groups), 6);
    VisitedFirst(s, memo, 201);
    OneMember(s, memo[201 := 4], Runs(s[201].groups), 4);
    VisitedBefore(s, memo[201 := 4], 200);
    VisitedBefore(s, Visited(s, map[], 200), 201);
  }

  lemma HeldFirst()
    ensures Closed(EachOther()) && VisitedAll(EachOther(), map[], [201, 200], 0)[201] == 10
  {
    EachOtherRuns();
    hide Visited, VisitedRuns, Runs, MinSizes, Closed;
    var s := EachOther();
    var memo: map<nat, nat> := map[201 := 4];
    VisitedFirst(s, map[], 201);
    OneMember(s, memo, Runs(s[201].groups), 4);
    VisitedFirst(s, memo, 200);
    OneMember(s, memo[200 := 4], Runs(s[200].groups), 6);
    VisitedBefore(s, memo[200 := 4], 201);
    VisitedBefore(s, Visited(s, map[], 201), 200);
  }

  /** Taken first, the parameter that must hold the other is bigger than taken second, when
      it is met while the other one still counts as its header. */
  lemma OrderMatters()
    ensures Closed(EachOther())
    ensures VisitedAll(EachOther(), map[], [201, 200], 0)[201] == 10
    ensures VisitedAll(EachOther(), map[], [200, 201], 0)[201] == 8
  {
    HolderFirst();
    HeldFirst();
  }
}
