/** `set_param_sizes`: the memoised, mutually recursive computation of minimum sizes. */
module SizeTable {
  import opened Schema
  import opened Encoder
  import opened Decoder
  import opened HeaderCode
  import opened RoundTrip
  import opened MinimumSizes
  import opened SizeOrder

  /** The parameters as their memoised sizes describe them; one not yet met counts as
      its header. */
  ghost function Snapshot(defs: Schema, memo: map<nat, nat>): (s: Schema)
    ensures s.Keys == defs.Keys
  {
    map id | id in defs :: defs[id].(minSize := if id in memo then memo[id] else HeaderSize(id))
  }

  /** `b` has the same parameters as `a`, with sizes at least as large. */
  ghost predicate Grown(a: Schema, b: Schema) {
    && a.Keys == b.Keys
    && forall id :: id in a ==>
         a[id].fields == b[id].fields && a[id].groups == b[id].groups && a[id].minSize <= b[id].minSize
  }

  lemma {:induction false} SmallestMinGrows(a: Schema, b: Schema, ids: seq<nat>)
    requires Grown(a, b) && Refers(a, ids)
    ensures Refers(b, ids) && SmallestMin(a, ids) <= SmallestMin(b, ids)
  {
    if |ids| > 1 {
      SmallestMinGrows(a, b, ids[1..]);
    }
  }

  lemma {:induction false} SumRunsGrows(a: Schema, b: Schema, rs: seq<Run>)
    requires Grown(a, b) && RunsRefer(a, rs)
    ensures RunsRefer(b, rs) && SumRuns(a, rs) <= SumRuns(b, rs)
  {
    hide Grown, SmallestMin;
    if rs == [] {
    } else {
      SmallestMinGrows(a, b, rs[0].members);
      SumRunsGrows(a, b, rs[1..]);
    }
  }

  lemma {:induction false} SmallestIs(s: Schema, ids: seq<nat>, m: nat)
    requires Refers(s, ids) && (ids == [] ==> m == 0)
    requires forall j :: 0 <= j < |ids| ==> m <= s[ids[j]].minSize
    requires ids != [] ==> exists j :: 0 <= j < |ids| && s[ids[j]].minSize == m
    ensures SmallestMin(s, ids) == m
  {
    if |ids| > 1 {
      var j :| 0 <= j < |ids| && s[ids[j]].minSize == m;
      if j > 0 {
        assert s[ids[1..][j - 1]].minSize == m;
        SmallestIs(s, ids[1..], m);
      } else {
        SmallestAtLeast(s, ids[1..], m);
      }
    }
  }

  lemma ClosedGrows(a: Schema, b: Schema)
    requires Grown(a, b) && Closed(a)
    ensures Closed(b)
  {}

  lemma SizeBoundGrows(a: Schema, b: Schema, id: nat)
    requires Grown(a, b) && Closed(a) && id in a
    ensures Closed(b) && id in b && SizeBound(a, id) <= SizeBound(b, id)
  {
    hide SumRuns, Runs, MinSizes;
    ClosedGrows(a, b);
    RunsDoRefer(a, a[id].groups);
    SumRunsGrows(a, b, Runs(a[id].groups));
  }

  lemma {:induction false} SumRunsSnoc(s: Schema, rs: seq<Run>, i: nat)
    requires RunsRefer(s, rs) && i < |rs|
    ensures SumRuns(s, rs[..i + 1]) == SumRuns(s, rs[..i]) + RunMin(s, rs[i])
    decreases |rs|
  {
    hide RunMin;
    if i == 0 {
      assert rs[..1][1..] == [] && rs[..0] == [];
    } else {
      SumRunsSnoc(s, rs[1..], i - 1);
      assert rs[..i + 1][1..] == rs[1..][..i] && rs[..i][1..] == rs[1..][..i - 1];
    }
  }

  function At(depth: map<nat, nat>, id: nat): nat {
    if id in depth then depth[id] else 0
  }

  /** No parameter is nested deeper than one that may hold it, and none as deep as one that
      must hold it. */
  ghost predicate Descending(s: Schema, depth: map<nat, nat>) {
    forall id, i, k :: id in s && 0 <= i < |s[id].groups| && 0 <= k < |s[id].groups[i].members| ==>
      && At(depth, s[id].groups[i].members[k]) <= At(depth, id)
      && (!s[id].groups[i].optional ==> At(depth, s[id].groups[i].members[k]) < At(depth, id))
  }

  /** Every group is one of plain required parameters. */
  predicate OnlyRequired(gs: seq<Group>) {
    forall i :: 0 <= i < |gs| ==> !gs[i].optional && !gs[i].repeatable && gs[i].name == ""
  }

  // ---- the state of the computation ----

  /** A finished parameter's size is memoised and sound. */
  ghost predicate Finished(defs: Schema, memo: map<nat, nat>, id: nat)
    requires Closed(Snapshot(defs, memo)) && id in defs && id in memo
  {
    && defs[id].minSize == memo[id]
    && HeaderSize(id) + MinSizes(defs[id].fields) <= memo[id] <= SizeBound(Snapshot(defs, memo), id)
    && (defs[id].fixed ==> AllFixed(defs[id].fields) && OnlyRequired(defs[id].groups))
    && (AllFixed(defs[id].fields) && defs[id].groups == [] ==> defs[id].fixed)
  }

  /** One being computed is memoised as its header, all others are finished. */
  ghost predicate Sound(defs: Schema, memo: map<nat, nat>, active: set<nat>) {
    && Closed(Snapshot(defs, memo))
    && memo.Keys <= defs.Keys && active <= memo.Keys
    && (forall id :: id in memo ==> memo[id] >= HeaderSize(id))
    && (forall id :: id in active ==> memo[id] == HeaderSize(id))
    && (forall id :: id in memo && id !in active ==> Finished(defs, memo, id))
  }

  /** Only the derived properties of a definition ever change. */
  ghost predicate SameDefs(was: Schema, now: Schema) {
    && now.Keys == was.Keys
    && forall id :: id in now ==> now[id].fields == was[id].fields && now[id].groups == was[id].groups
  }

  /** What was memoised before a call stays as it was. */
  ghost predicate Kept(was: Schema, memoWas: map<nat, nat>, now: Schema, memo: map<nat, nat>) {
    && SameDefs(was, now)
    && forall id :: id in memoWas && id in was ==> id in memo && memo[id] == memoWas[id] && now[id] == was[id]
  }

  lemma KeptSelf(defs: Schema, memo: map<nat, nat>)
    ensures Kept(defs, memo, defs, memo)
  {}

  lemma KeptTrans(a: Schema, ma: map<nat, nat>, b: Schema, mb: map<nat, nat>, c: Schema, mc: map<nat, nat>)
    requires Kept(a, ma, b, mb) && Kept(b, mb, c, mc)
    ensures Kept(a, ma, c, mc)
  {}

  lemma SnapshotGrows(was: Schema, memoWas: map<nat, nat>, now: Schema, memo: map<nat, nat>, active: set<nat>)
    requires Kept(was, memoWas, now, memo) && Sound(now, memo, active)
    ensures Grown(Snapshot(was, memoWas), Snapshot(now, memo))
  {
    hide Finished, Closed;
  }

  /** Memoising the header size first, which ends cycles, changes no size. */
  lemma EnterSound(defs: Schema, memo: map<nat, nat>, active: set<nat>, id: nat)
    requires Sound(defs, memo, active) && id in defs && id !in memo
    ensures var next := memo[id := HeaderSize(id)];
            && Snapshot(defs, next) == Snapshot(defs, memo)
            && Sound(defs, next, active + {id}) && Kept(defs, memo, defs, next)
  {
    hide SizeBound, AllFixed, OnlyRequired, MinSizes, Closed;
    assert Snapshot(defs, memo[id := HeaderSize(id)]) == Snapshot(defs, memo);
  }

  /** Finishing one parameter leaves every finished one sound: sizes only grow. */
  lemma LeaveSound(defs: Schema, memo: map<nat, nat>, active: set<nat>, id: nat, n: nat, fixed: bool)
    requires Sound(defs, memo, active) && id in active && id in defs
    requires HeaderSize(id) + MinSizes(defs[id].fields) <= n <= SizeBound(Snapshot(defs, memo), id)
    requires fixed ==> AllFixed(defs[id].fields) && OnlyRequired(defs[id].groups)
    requires AllFixed(defs[id].fields) && defs[id].groups == [] ==> fixed
    ensures Sound(defs[id := defs[id].(minSize := n, fixed := fixed)], memo[id := n], active - {id})
  {
    hide SizeBound, AllFixed, OnlyRequired, MinSizes, Closed, Grown;
    var now, next := defs[id := defs[id].(minSize := n, fixed := fixed)], memo[id := n];
    var a, b := Snapshot(defs, memo), Snapshot(now, next);
    GrownByOne(defs, memo, id, n, fixed);
    ClosedGrows(a, b);
    forall k | k in next && k !in active - {id}
      ensures Finished(now, next, k)
    {
      SizeBoundGrows(a, b, k);
    }
  }

  lemma GrownByOne(defs: Schema, memo: map<nat, nat>, id: nat, n: nat, fixed: bool)
    requires id in defs && id in memo && memo[id] <= n
    ensures Grown(Snapshot(defs, memo), Snapshot(defs[id := defs[id].(minSize := n, fixed := fixed)], memo[id := n]))
  {}

  lemma RunsReferHere(defs: Schema, memo: map<nat, nat>, id: nat)
    requires Closed(Snapshot(defs, memo)) && id in defs
    ensures RunsRefer(Snapshot(defs, memo), Runs(defs[id].groups))
    ensures SizeBound(Snapshot(defs, memo), id)
            == HeaderSize(id) + MinSizes(defs[id].fields) + SumRuns(Snapshot(defs, memo), Runs(defs[id].groups))
  {
    hide Runs, SumRuns, MinSizes;
    var s := Snapshot(defs, memo);
    assert GroupsRefer(s, s[id].groups);
    RunsDoRefer(s, defs[id].groups);
  }

  /** Adding one run's smallest member after its parameters have been met. */
  lemma AddRun(was: Schema, now: Schema, runs: seq<Run>, i: nat, base: nat, n: nat, smallest: nat)
    requires Grown(was, now) && RunsRefer(was, runs) && i < |runs|
    requires n <= base + SumRuns(was, runs[..i])
    requires Refers(now, runs[i].members) && smallest == SmallestMin(now, runs[i].members)
    ensures RunsRefer(now, runs) && RunsRefer(now, runs[..i + 1])
    ensures (if runs[i].optional then n else n + smallest) <= base + SumRuns(now, runs[..i + 1])
  {
    hide Grown, SmallestMin, SumRuns;
    SumRunsGrows(was, now, runs[..i]);
    SumRunsGrows(was, now, runs);
    SumRunsSnoc(now, runs, i);
  }

  lemma KeptKeys(was: Schema, memoWas: map<nat, nat>, active: set<nat>, now: Schema, memo: map<nat, nat>)
    requires Sound(was, memoWas, active) && Kept(was, memoWas, now, memo)
    ensures now.Keys == was.Keys && memoWas.Keys <= memo.Keys
  {
    hide Finished, Closed;
  }

  lemma KeptMemo(was: Schema, memoWas: map<nat, nat>, now: Schema, memo: map<nat, nat>, ids: seq<nat>)
    requires Kept(was, memoWas, now, memo)
    requires forall j :: 0 <= j < |ids| ==> ids[j] in memoWas && ids[j] in was
    ensures forall j :: 0 <= j < |ids| ==> ids[j] in memo && memo[ids[j]] == memoWas[ids[j]]
  {}

  lemma KeptDefinition(was: Schema, memoWas: map<nat, nat>, now: Schema, memo: map<nat, nat>, id: nat)
    requires Kept(was, memoWas, now, memo) && id in was && id in memoWas
    ensures id in now && now[id] == was[id] && id in memo && memo[id] == memoWas[id]
  {}

  lemma NoRuns(s: Schema, runs: seq<Run>)
    ensures RunsRefer(s, runs[..0]) && SumRuns(s, runs[..0]) == 0
  {}

  lemma RunRefers(defs: Schema, memo: map<nat, nat>, runs: seq<Run>, i: nat)
    requires RunsRefer(Snapshot(defs, memo), runs) && i < |runs|
    ensures Refers(defs, runs[i].members)
  {}

  /** `all(sub.is_fixed_size() for sub in p.parameters)`. */
  predicate SubsFixed(defs: Schema, gs: seq<Group>)
    requires forall i :: 0 <= i < |gs| ==> forall k :: 0 <= k < |gs[i].members| ==> gs[i].members[k] in defs
  {
    OnlyRequired(gs) && forall i :: 0 <= i < |gs| ==>
      forall k :: 0 <= k < |gs[i].members| ==> defs[gs[i].members[k]].fixed
  }

  lemma SubsKnown(defs: Schema, memo: map<nat, nat>, id: nat)
    requires Closed(Snapshot(defs, memo)) && id in defs
    ensures forall i :: 0 <= i < |defs[id].groups| ==>
              forall k :: 0 <= k < |defs[id].groups[i].members| ==> defs[id].groups[i].members[k] in defs
    ensures SubsFixed(defs, defs[id].groups) ==> OnlyRequired(defs[id].groups)
    ensures defs[id].groups == [] ==> SubsFixed(defs, defs[id].groups)
  {
    assert Snapshot(defs, memo)[id].groups == defs[id].groups;
  }

  lemma SoundIsClosed(defs: Schema, memo: map<nat, nat>, active: set<nat>)
    requires Sound(defs, memo, active)
    ensures Closed(Snapshot(defs, memo)) && memo.Keys <= defs.Keys && active <= memo.Keys
  {}

  /** Finishing `id` changes nothing that was memoised before it was entered. */
  lemma LeaveKept(was: Schema, memoWas: map<nat, nat>, now: Schema, memo: map<nat, nat>, id: nat, n: nat, fixed: bool)
    requires id in was && id !in memoWas && Kept(was, memoWas[id := HeaderSize(id)], now, memo)
    ensures id in now && Kept(was, memoWas, now[id := now[id].(minSize := n, fixed := fixed)], memo[id := n])
  {}

  lemma SmallestOfMemo(defs: Schema, memo: map<nat, nat>, ids: seq<nat>, m: nat)
    requires Refers(defs, ids) && (ids == [] ==> m == 0)
    requires forall j :: 0 <= j < |ids| ==> ids[j] in memo && m <= memo[ids[j]]
    requires ids != [] ==> exists j :: 0 <= j < |ids| && memo[ids[j]] == m
    ensures Refers(Snapshot(defs, memo), ids) && SmallestMin(Snapshot(defs, memo), ids) == m
  {
    hide SmallestMin;
    SmallestIs(Snapshot(defs, memo), ids, m);
  }

  /** When every parameter is finished, the definitions carry the memoised sizes. */
  lemma AllFinished(was: Schema, memoWas: map<nat, nat>, defs: Schema, memo: map<nat, nat>)
    requires Sound(defs, memo, {}) && Kept(was, memoWas, defs, memo)
    requires forall id :: id in defs ==> id in memo
    ensures SameDefs(was, defs) && Closed(defs) && SizesSound(defs)
    ensures forall id :: id in defs && defs[id].fixed ==> AllFixed(defs[id].fields) && OnlyRequired(defs[id].groups)
    ensures forall id :: id in defs && AllFixed(defs[id].fields) && defs[id].groups == [] ==> defs[id].fixed
  {
    hide MinSizes, SizeBound, Closed;
    forall id | id in defs
      ensures Snapshot(defs, memo)[id] == defs[id]
    {
      assert Finished(defs, memo, id);
    }
    assert Snapshot(defs, memo) == defs;
    forall id | id in defs
      ensures HeaderSize(id) + MinSizes(defs[id].fields) <= defs[id].minSize <= SizeBound(defs, id)
    {
      assert Finished(defs, memo, id);
    }
  }

  // ---- exact sizes ----

  /** The parameters that the required runs name are finished. */
  ghost predicate Settled(memo: map<nat, nat>, active: set<nat>, rs: seq<Run>) {
    forall j, k :: 0 <= j < |rs| && !rs[j].optional && 0 <= k < |rs[j].members| ==>
      rs[j].members[k] in memo && rs[j].members[k] !in active
  }

  ghost predicate ExactHere(defs: Schema, memo: map<nat, nat>, active: set<nat>, id: nat)
    requires Closed(Snapshot(defs, memo)) && id in defs && id in memo
  {
    Settled(memo, active, Runs(defs[id].groups)) && memo[id] == SizeBound(Snapshot(defs, memo), id)
  }

  /** If required parameters get ever less deep, what is finished has its exact size. */
  ghost predicate Exact(defs: Schema, memo: map<nat, nat>, active: set<nat>, depth: map<nat, nat>) {
    && Closed(Snapshot(defs, memo))
    && (Descending(defs, depth) ==>
          forall id :: id in memo && id in defs && id !in active ==> ExactHere(defs, memo, active, id))
  }

  /** Nothing being computed is less deep. */
  ghost predicate Below(depth: map<nat, nat>, active: set<nat>, id: nat) {
    forall a :: a in active ==> At(depth, id) <= At(depth, a)
  }

  /** What is asked of the members of a run while `id` is computed. */
  ghost predicate RunBelow(depth: map<nat, nat>, id: nat, r: Run) {
    forall k :: 0 <= k < |r.members| ==>
      At(depth, r.members[k]) <= At(depth, id) && (!r.optional ==> At(depth, r.members[k]) < At(depth, id))
  }

  lemma {:induction false} FirstRunSame(gs: seq<Group>, i: nat)
    requires gs != [] && i < RunLength(gs)
    ensures gs[i].optional == gs[0].optional
  {
    if i > 0 {
      FirstRunSame(gs[1..], i - 1);
    }
  }

  lemma {:induction false} MemberOfGroup(gs: seq<Group>, k: nat) returns (i: nat, j: nat)
    requires k < |AllMembers(gs)|
    ensures i < |gs| && j < |gs[i].members| && gs[i].members[j] == AllMembers(gs)[k]
  {
    if k < |gs[0].members| {
      i, j := 0, k;
    } else {
      i, j := MemberOfGroup(gs[1..], k - |gs[0].members|);
      i := i + 1;
    }
  }

  lemma {:induction false} RunsBelow(depth: map<nat, nat>, id: nat, gs: seq<Group>)
    requires forall i, k :: 0 <= i < |gs| && 0 <= k < |gs[i].members| ==>
               && At(depth, gs[i].members[k]) <= At(depth, id)
               && (!gs[i].optional ==> At(depth, gs[i].members[k]) < At(depth, id))
    ensures forall j :: 0 <= j < |Runs(gs)| ==> RunBelow(depth, id, Runs(gs)[j])
    decreases |gs|
  {
    hide AllMembers, RunLength;
    if gs != [] {
      var n := RunLength(gs);
      var r := Run(gs[0].optional, AllMembers(gs[..n]));
      forall k | 0 <= k < |r.members|
        ensures At(depth, r.members[k]) <= At(depth, id) && (!r.optional ==> At(depth, r.members[k]) < At(depth, id))
      {
        var i, j := MemberOfGroup(gs[..n], k);
        FirstRunSame(gs, i);
        assert gs[..n][i] == gs[i];
      }
      RunsBelow(depth, id, gs[n..]);
      assert Runs(gs) == [r] + Runs(gs[n..]);
    }
  }

  lemma DescendingRuns(defs: Schema, depth: map<nat, nat>, id: nat)
    requires Descending(defs, depth) && id in defs
    ensures forall j :: 0 <= j < |Runs(defs[id].groups)| ==> RunBelow(depth, id, Runs(defs[id].groups)[j])
  {
    hide Runs;
    RunsBelow(depth, id, defs[id].groups);
  }

  lemma DescendingStays(was: Schema, now: Schema, depth: map<nat, nat>)
    requires SameDefs(was, now)
    ensures Descending(was, depth) <==> Descending(now, depth)
  {}

  lemma {:induction false} SmallestSame(a: Schema, b: Schema, ids: seq<nat>)
    requires Refers(a, ids) && Refers(b, ids)
    requires forall k :: 0 <= k < |ids| ==> a[ids[k]].minSize == b[ids[k]].minSize
    ensures SmallestMin(a, ids) == SmallestMin(b, ids)
  {
    if |ids| > 1 {
      SmallestSame(a, b, ids[1..]);
    }
  }

  /** What required runs add depends on their members only. */
  lemma {:induction false} SumRunsSame(a: Schema, b: Schema, rs: seq<Run>)
    requires RunsRefer(a, rs) && RunsRefer(b, rs)
    requires forall j, k :: 0 <= j < |rs| && !rs[j].optional && 0 <= k < |rs[j].members| ==>
               a[rs[j].members[k]].minSize == b[rs[j].members[k]].minSize
    ensures SumRuns(a, rs) == SumRuns(b, rs)
  {
    hide SmallestMin;
    if rs != [] {
      if !rs[0].optional {
        SmallestSame(a, b, rs[0].members);
      }
      assert forall j :: 0 <= j < |rs[1..]| ==> rs[1..][j] == rs[j + 1];
      SumRunsSame(a, b, rs[1..]);
    }
  }

  /** What is settled stays so, and so does the sum of its sizes. */
  lemma SettledKept(was: Schema, memoWas: map<nat, nat>, now: Schema, memo: map<nat, nat>, active: set<nat>,
                    rs: seq<Run>)
    requires Kept(was, memoWas, now, memo) && memoWas.Keys <= was.Keys && Settled(memoWas, active, rs)
    requires RunsRefer(Snapshot(was, memoWas), rs) && RunsRefer(Snapshot(now, memo), rs)
    ensures Settled(memo, active, rs) && SumRuns(Snapshot(was, memoWas), rs) == SumRuns(Snapshot(now, memo), rs)
  {
    hide RunsRefer, SumRuns;
    var a, b := Snapshot(was, memoWas), Snapshot(now, memo);
    assert RunsAlike(a, b, rs) by {
      forall j, k | 0 <= j < |rs| && !rs[j].optional && 0 <= k < |rs[j].members|
        ensures rs[j].members[k] in a && rs[j].members[k] in b
                && a[rs[j].members[k]].minSize == b[rs[j].members[k]].minSize
      {
        assert rs[j].members[k] in memoWas;
      }
    }
    SumRunsAlike(a, b, rs);
  }

  ghost predicate RunsAlike(a: Schema, b: Schema, rs: seq<Run>) {
    forall j, k :: 0 <= j < |rs| && !rs[j].optional && 0 <= k < |rs[j].members| ==>
      && rs[j].members[k] in a && rs[j].members[k] in b
      && a[rs[j].members[k]].minSize == b[rs[j].members[k]].minSize
  }

  lemma SumRunsAlike(a: Schema, b: Schema, rs: seq<Run>)
    requires RunsRefer(a, rs) && RunsRefer(b, rs) && RunsAlike(a, b, rs)
    ensures SumRuns(a, rs) == SumRuns(b, rs)
  {
    hide SumRuns;
    SumRunsSame(a, b, rs);
  }

  lemma EnterExact(defs: Schema, memo: map<nat, nat>, active: set<nat>, depth: map<nat, nat>, id: nat)
    requires Exact(defs, memo, active, depth) && id in defs && id !in memo
    ensures Exact(defs, memo[id := HeaderSize(id)], active + {id}, depth)
  {
    hide SizeBound, Closed, Runs, Descending;
    var next := memo[id := HeaderSize(id)];
    assert Snapshot(defs, next) == Snapshot(defs, memo);
    if Descending(defs, depth) {
      forall k | k in next && k in defs && k !in active + {id}
        ensures ExactHere(defs, next, active + {id}, k)
      {
        assert ExactHere(defs, memo, active, k);
      }
    }
  }

  /** Finishing a parameter whose required parameters are finished. */
  lemma LeaveExact(defs: Schema, memo: map<nat, nat>, active: set<nat>, depth: map<nat, nat>, id: nat, n: nat,
                   fixed: bool)
    requires Exact(defs, memo, active, depth) && id in active && id in defs && id in memo && memo.Keys <= defs.Keys
    requires Descending(defs, depth) ==>
               Settled(memo, active, Runs(defs[id].groups)) && n == SizeBound(Snapshot(defs, memo), id)
    ensures Exact(defs[id := defs[id].(minSize := n, fixed := fixed)], memo[id := n], active - {id}, depth)
  {
    hide SizeBound, Closed, Runs, Descending, Snapshot, Settled;
    var now, next := defs[id := defs[id].(minSize := n, fixed := fixed)], memo[id := n];
    SnapshotClosed(defs, memo, now, next);
    assert SameDefs(defs, now);
    DescendingStays(defs, now, depth);
    if Descending(now, depth) {
      forall k | k in next && k in now && k !in active - {id}
        ensures ExactHere(now, next, active - {id}, k)
      {
        if k != id {
          assert ExactHere(defs, memo, active, k);
        }
        ExactStays(defs, memo, active, id, n, fixed, k);
      }
    }
  }

  lemma SnapshotClosed(defs: Schema, memo: map<nat, nat>, now: Schema, next: map<nat, nat>)
    requires Closed(Snapshot(defs, memo)) && SameDefs(defs, now)
    ensures Closed(Snapshot(now, next))
  {
    forall id, i, k |
      id in Snapshot(now, next) && 0 <= i < |Snapshot(now, next)[id].groups|
      && 0 <= k < |Snapshot(now, next)[id].groups[i].members|
      ensures Snapshot(now, next)[id].groups[i].members[k] in Snapshot(now, next)
    {
      assert Snapshot(defs, memo)[id].groups[i].members[k] in Snapshot(defs, memo);
    }
  }

  lemma ExactStays(defs: Schema, memo: map<nat, nat>, active: set<nat>, id: nat, n: nat, fixed: bool, k: nat)
    requires Closed(Snapshot(defs, memo)) && id in active && id in defs && memo.Keys <= defs.Keys
    requires k in memo && k in defs && Settled(memo, active, Runs(defs[k].groups))
    requires (if k == id then n else memo[k]) == SizeBound(Snapshot(defs, memo), k)
    ensures var now, next := defs[id := defs[id].(minSize := n, fixed := fixed)], memo[id := n];
            Closed(Snapshot(now, next)) && ExactHere(now, next, active - {id}, k)
  {
    hide Runs, SumRuns, MinSizes, Closed, RunsRefer;
    var now, next := defs[id := defs[id].(minSize := n, fixed := fixed)], memo[id := n];
    var a, b := Snapshot(defs, memo), Snapshot(now, next);
    SnapshotClosed(defs, memo, now, next);
    RunsReferHere(defs, memo, k);
    RunsReferHere(now, next, k);
    SumRunsAlike(a, b, Runs(defs[k].groups));
  }

  /** After its parameters have been met, a required run is settled. */
  lemma RunSettles(memo: map<nat, nat>, active: set<nat>, depth: map<nat, nat>, id: nat, rs: seq<Run>, i: nat)
    requires i < |rs| && RunBelow(depth, id, rs[i]) && Below(depth, active, id)
    requires Settled(memo, active, rs[..i]) && forall k :: 0 <= k < |rs[i].members| ==> rs[i].members[k] in memo
    ensures Settled(memo, active, rs[..i + 1])
  {
    forall j, k | 0 <= j < |rs[..i + 1]| && !rs[j].optional && 0 <= k < |rs[j].members|
      ensures rs[j].members[k] in memo && rs[j].members[k] !in active
    {
      if j < i {
        assert rs[..i][j] == rs[j];
      }
    }
  }

  lemma MembersBelow(depth: map<nat, nat>, active: set<nat>, id: nat, r: Run)
    requires RunBelow(depth, id, r) && Below(depth, active, id)
    ensures forall k :: 0 <= k < |r.members| ==> Below(depth, active, r.members[k])
  {}

  /** Sizes that are exact are the same whatever was there before and in whatever order they
      were computed. */
  lemma {:induction false} ExactSizesAreUnique(a: Schema, b: Schema, depth: map<nat, nat>, id: nat)
    requires SameDefs(a, b) && Closed(a) && Closed(b) && Descending(a, depth) && id in a
    requires forall k :: k in a ==> a[k].minSize == SizeBound(a, k)
    requires forall k :: k in b ==> b[k].minSize == SizeBound(b, k)
    ensures a[id].minSize == b[id].minSize
    decreases At(depth, id)
  {
    hide Runs, SumRuns, MinSizes, RunsRefer, Closed, SizeBound;
    var rs := Runs(a[id].groups);
    DescendingRuns(a, depth, id);
    BoundOf(a, id);
    BoundOf(b, id);
    forall j, k | 0 <= j < |rs| && !rs[j].optional && 0 <= k < |rs[j].members|
      ensures rs[j].members[k] in a && rs[j].members[k] in b
              && a[rs[j].members[k]].minSize == b[rs[j].members[k]].minSize
    {
      assert RunBelow(depth, id, rs[j]);
      RunMemberThere(a, rs, j, k);
      ExactSizesAreUnique(a, b, depth, rs[j].members[k]);
    }
    SumRunsAlike(a, b, rs);
  }

  lemma BoundOf(s: Schema, id: nat)
    requires Closed(s) && id in s
    ensures RunsRefer(s, Runs(s[id].groups))
    ensures SizeBound(s, id) == HeaderSize(id) + MinSizes(s[id].fields) + SumRuns(s, Runs(s[id].groups))
  {
    hide Runs, SumRuns, MinSizes;
    assert GroupsRefer(s, s[id].groups);
    RunsDoRefer(s, s[id].groups);
  }

  lemma RunMemberThere(s: Schema, rs: seq<Run>, j: nat, k: nat)
    requires RunsRefer(s, rs) && j < |rs| && k < |rs[j].members|
    ensures rs[j].members[k] in s
  {}

  lemma EnterBelow(depth: map<nat, nat>, active: set<nat>, id: nat)
    ensures Below(depth, active, id) ==> Below(depth, active + {id}, id)
  {}

  lemma NoneActive(depth: map<nat, nat>, id: nat)
    ensures Below(depth, {}, id)
  {}

  lemma NothingToSettle(memo: map<nat, nat>, active: set<nat>, rs: seq<Run>)
    ensures Settled(memo, active, rs[..0])
  {}

  lemma KeptDescending(was: Schema, memoWas: map<nat, nat>, now: Schema, memo: map<nat, nat>, depth: map<nat, nat>)
    requires Kept(was, memoWas, now, memo)
    ensures Descending(was, depth) <==> Descending(now, depth)
  {
    hide Descending;
    DescendingStays(was, now, depth);
  }

  lemma KeysOf(defs: Schema, memo: map<nat, nat>, active: set<nat>)
    requires Sound(defs, memo, active)
    ensures memo.Keys <= defs.Keys
  {}

  lemma PrefixRefers(s: Schema, rs: seq<Run>, i: nat)
    requires RunsRefer(s, rs) && i <= |rs|
    ensures RunsRefer(s, rs[..i])
  {}

  lemma RunAdds(s: Schema, r: Run)
    requires Refers(s, r.members)
    ensures RunMin(s, r) == if r.optional then 0 else SmallestMin(s, r.members)
  {}

  /** When every parameter is finished, the definitions carry the exact sizes. */
  lemma AllExact(defs: Schema, memo: map<nat, nat>, depth: map<nat, nat>)
    requires Sound(defs, memo, {}) && Exact(defs, memo, {}, depth) && Descending(defs, depth)
    requires forall id :: id in defs ==> id in memo
    ensures Closed(defs) && forall id :: id in defs ==> defs[id].minSize == SizeBound(defs, id)
  {
    hide MinSizes, SizeBound, Closed, Descending, Settled;
    forall id | id in defs
      ensures Snapshot(defs, memo)[id] == defs[id]
    {
      assert Finished(defs, memo, id);
    }
    assert Snapshot(defs, memo) == defs;
    forall id | id in defs
      ensures defs[id].minSize == SizeBound(defs, id)
    {
      assert Finished(defs, memo, id) && ExactHere(defs, memo, {}, id);
    }
  }

  /** What the computation arrives at: sound sizes, a schema that obeys the codec's law if it
      is otherwise coherent, and exact sizes if required parameters get ever less deep. */
  ghost predicate Sized(was: Schema, defs: Schema, depth: map<nat, nat>) {
    && SameDefs(was, defs) && Closed(defs) && SizesSound(defs)
    && ((forall id :: id in defs ==> ContainerGood(id, defs[id])) && AllCompile(defs) && AllVisible(defs) ==>
          Good(defs))
    && (forall id :: id in defs && defs[id].fixed ==> AllFixed(defs[id].fields) && OnlyRequired(defs[id].groups))
    && (forall id :: id in defs && AllFixed(defs[id].fields) && defs[id].groups == [] ==> defs[id].fixed)
    && (Descending(was, depth) ==> forall id :: id in defs ==> defs[id].minSize == SizeBound(defs, id))
  }

  lemma AllDone(was: Schema, memoWas: map<nat, nat>, defs: Schema, memo: map<nat, nat>, depth: map<nat, nat>)
    requires Sound(defs, memo, {}) && Exact(defs, memo, {}, depth) && Kept(was, memoWas, defs, memo)
    requires forall id :: id in defs ==> id in memo
    ensures Sized(was, defs, depth)
  {
    hide Sound, Exact, Kept, Snapshot, SizeBound, Descending, SameDefs, SizesSound, OnlyRequired, AllFixed, Closed,
         ContainerGood, Good, AllCompile, AllVisible;
    AllFinished(was, memoWas, defs, memo);
    DescendingStays(was, defs, depth);
    if Descending(defs, depth) {
      AllExact(defs, memo, depth);
    }
    if (forall id :: id in defs ==> ContainerGood(id, defs[id])) && AllCompile(defs) && AllVisible(defs) {
      SoundSizesAreGood(defs);
    }
  }

  // ---- what the computation works on ----

  ghost predicate Of(params: Schema, defs: Schema) {
    Closed(params) && SameDefs(params, defs)
  }

  ghost predicate Known(params: Schema, memo: map<nat, nat>) {
    memo.Keys <= params.Keys
  }

  lemma OfParts(params: Schema, defs: Schema)
    requires Of(params, defs)
    ensures Closed(params) && SameDefs(params, defs) && params.Keys == defs.Keys
  {}

  lemma OfParams(params: Schema, defs: Schema, memo: map<nat, nat>)
    requires Of(params, defs) && Known(params, memo)
    ensures Closed(params) && params.Keys == defs.Keys && memo.Keys <= params.Keys
  {}

  lemma OfDefinition(params: Schema, defs: Schema, id: nat)
    requires Of(params, defs) && id in defs
    ensures id in params && params[id].fields == defs[id].fields && params[id].groups == defs[id].groups
  {}

  lemma RunsReferParams(params: Schema, id: nat)
    requires Closed(params) && id in params
    ensures RunsRefer(params, Runs(params[id].groups))
  {
    hide Runs;
    assert GroupsRefer(params, params[id].groups);
    RunsDoRefer(params, params[id].groups);
  }

  lemma EnterKnown(params: Schema, memo: map<nat, nat>, id: nat)
    requires id in params && memo.Keys <= params.Keys
    ensures Known(params, memo[id := HeaderSize(id)]) && memo[id := HeaderSize(id)].Keys <= params.Keys
  {}

  lemma LeaveOf(params: Schema, defs: Schema, memo: map<nat, nat>, id: nat, n: nat, fixed: bool)
    requires Of(params, defs) && Known(params, memo) && id in defs && id in memo
    ensures Of(params, defs[id := defs[id].(minSize := n, fixed := fixed)]) && Known(params, memo[id := n])
  {
    hide Closed;
  }

  lemma NextVisited(s: Schema, memo: map<nat, nat>, order: seq<nat>, k: nat)
    requires Closed(s) && memo.Keys <= s.Keys && k < |order| && forall j :: 0 <= j < |order| ==> order[j] in s
    ensures VisitedAll(s, memo, order, k) == VisitedAll(s, Visited(s, memo, order[k]), order, k + 1)
  {
    hide Closed, Visited;
  }

  lemma AllVisited(s: Schema, memo: map<nat, nat>, order: seq<nat>)
    requires Closed(s) && memo.Keys <= s.Keys && forall j :: 0 <= j < |order| ==> order[j] in s
    ensures VisitedAll(s, memo, order, |order|) == memo
  {
    hide Closed, Visited;
  }

  lemma DoneSizes(defs: Schema, memo: map<nat, nat>)
    requires Sound(defs, memo, {}) && forall id :: id in defs ==> id in memo
    ensures forall id :: id in defs ==> defs[id].minSize == memo[id]
  {
    hide SizeBound, MinSizes, OnlyRequired, AllFixed, Closed;
    forall id | id in defs
      ensures defs[id].minSize == memo[id]
    {
      assert Finished(defs, memo, id);
    }
  }

  class Table {
    var defs: Schema
    var memo: map<nat, nat>
    ghost var active: set<nat> // entered, not yet left
    ghost const params: Schema // the definitions before anything was computed
    ghost const depth: map<nat, nat>

    ghost predicate Valid()
      reads this
      ensures Valid() <==>
                Sound(defs, memo, active) && Exact(defs, memo, active, depth) && Of(params, defs) && Known(params, memo)
    {
      Sound(defs, memo, active) && Exact(defs, memo, active, depth) && Of(params, defs) && Known(params, memo)
    }

    /** `params` in whatever state their sizes are, and a measure of nesting. */
    constructor (params: Schema, ghost depth: map<nat, nat>)
      requires Closed(params)
      ensures Valid() && defs == params == this.params && memo == map[] && active == {} && this.depth == depth
    {
      defs, memo, active := params, map[], {};
      this.params, this.depth := params, depth;
    }

    /** `get_param_size`. */
    method GetParamSize(id: nat) returns (n: nat)
      requires Valid() && id in defs && (Descending(defs, depth) ==> Below(depth, active, id))
      modifies this
      ensures Valid() && Kept(old(defs), old(memo), defs, memo) && active == old(active)
      ensures id in memo && n == memo[id] && id in params && memo == Visited(params, old(memo), id)
      decreases defs.Keys - memo.Keys, 0
    {
      hide *;
      OfParams(params, defs, memo);
      if id in memo {
        KeptSelf(defs, memo);
        VisitedBefore(params, memo, id);
        return memo[id];
      }
      ghost var was, memoWas := defs, memo;
      SoundIsClosed(defs, memo, active);
      EnterSound(defs, memo, active, id);
      EnterExact(defs, memo, active, depth, id);
      EnterBelow(depth, active, id);
      EnterKnown(params, memo, id);
      VisitedFirst(params, memo, id);
      memo := memo[id := HeaderSize(id)];
      active := active + {id};
      assert id in defs.Keys - memoWas.Keys && id !in defs.Keys - memo.Keys;
      n := AddRuns(id);
      var c := defs[id];
      SoundIsClosed(defs, memo, active);
      SubsKnown(defs, memo, id);
      KeysOf(defs, memo, active);
      var fixed := AllFixed(c.fields) && SubsFixed(defs, c.groups);
      LeaveSound(defs, memo, active, id, n, fixed);
      LeaveExact(defs, memo, active, depth, id, n, fixed);
      LeaveKept(was, memoWas, defs, memo, id, n, fixed);
      LeaveOf(params, defs, memo, id, n, fixed);
      defs := defs[id := defs[id].(minSize := n, fixed := fixed)];
      memo := memo[id := n];
      active := active - {id};
    }

    /** The loop over the groups: what header, fields and runs add up to. */
    method AddRuns(id: nat) returns (n: nat)
      requires Valid() && id in defs && id in memo && (Descending(defs, depth) ==> Below(depth, active, id))
      modifies this
      ensures Valid() && Kept(old(defs), old(memo), defs, memo) && active == old(active)
      ensures id in defs && id in memo && Closed(Snapshot(defs, memo))
      ensures HeaderSize(id) + MinSizes(defs[id].fields) <= n <= SizeBound(Snapshot(defs, memo), id)
      ensures Descending(defs, depth) ==>
                Settled(memo, active, Runs(defs[id].groups)) && n == SizeBound(Snapshot(defs, memo), id)
      ensures Closed(params) && id in params && old(memo).Keys <= params.Keys
      ensures RunsRefer(params, Runs(params[id].groups))
      ensures (memo, n) == VisitedRuns(params, old(memo), Runs(params[id].groups), 0,
                                       HeaderSize(id) + MinSizes(params[id].fields))
      decreases defs.Keys - memo.Keys, 2
    {
      hide *;
      ghost var was, memoWas := defs, memo;
      KeptSelf(defs, memo);
      OfParams(params, defs, memo);
      OfDefinition(params, defs, id);
      var c := defs[id];
      var runs := Runs(c.groups);
      if Descending(defs, depth) {
        DescendingRuns(defs, depth, id);
      }
      n := HeaderSize(id) + MinSizes(c.fields);
      SoundIsClosed(defs, memo, active);
      RunsReferHere(defs, memo, id);
      RunsReferParams(params, id);
      NoRuns(Snapshot(defs, memo), runs);
      NothingToSettle(memo, active, runs);
      for i := 0 to |runs|
        invariant Valid() && active == old(active) && Kept(was, memoWas, defs, memo)
        invariant defs.Keys == was.Keys && memoWas.Keys <= memo.Keys <= params.Keys
        invariant RunsRefer(Snapshot(defs, memo), runs) && RunsRefer(Snapshot(defs, memo), runs[..i])
        invariant HeaderSize(id) + MinSizes(c.fields) <= n
        invariant n <= HeaderSize(id) + MinSizes(c.fields) + SumRuns(Snapshot(defs, memo), runs[..i])
        invariant VisitedRuns(params, memo, runs, i, n)
                  == VisitedRuns(params, memoWas, runs, 0, HeaderSize(id) + MinSizes(c.fields))
        invariant Descending(defs, depth) <==> Descending(was, depth)
        invariant Descending(was, depth) ==>
                    && Settled(memo, active, runs[..i])
                    && n == HeaderSize(id) + MinSizes(c.fields) + SumRuns(Snapshot(defs, memo), runs[..i])
      {
        ghost var now, memoNow := defs, memo;
        RunRefers(now, memoNow, runs, i);
        if Descending(was, depth) {
          MembersBelow(depth, active, id, runs[i]);
        }
        RunVisited(params, memo, runs, i, n);
        var smallest := SmallestOf(runs[i].members);
        OfParams(params, defs, memo);
        KeptKeys(now, memoNow, active, defs, memo);
        KeptTrans(was, memoWas, now, memoNow, defs, memo);
        SnapshotGrows(now, memoNow, defs, memo, active);
        AddRun(Snapshot(now, memoNow), Snapshot(defs, memo), runs, i, HeaderSize(id) + MinSizes(c.fields), n, smallest);
        KeptDescending(now, memoNow, defs, memo, depth);
        if Descending(was, depth) {
          KeysOf(now, memoNow, active);
          PrefixRefers(Snapshot(now, memoNow), runs, i);
          PrefixRefers(Snapshot(defs, memo), runs, i);
          SettledKept(now, memoNow, defs, memo, active, runs[..i]);
          RunSettles(memo, active, depth, id, runs, i);
          SumRunsSnoc(Snapshot(defs, memo), runs, i);
          RunAdds(Snapshot(defs, memo), runs[i]);
        }
        n := if runs[i].optional then n else n + smallest;
      }
      RunsEnd(params, memo, runs, n);
      assert runs[..|runs|] == runs;
      KeptDefinition(was, memoWas, defs, memo, id);
      SoundIsClosed(defs, memo, active);
      RunsReferHere(defs, memo, id);
    }

    /** `min(get_param_size(sp.p_def) for sp in p_group)`. */
    method SmallestOf(ids: seq<nat>) returns (smallest: nat)
      requires Valid() && Refers(defs, ids)
      requires Descending(defs, depth) ==> forall k :: 0 <= k < |ids| ==> Below(depth, active, ids[k])
      modifies this
      ensures Valid() && Kept(old(defs), old(memo), defs, memo) && active == old(active)
      ensures Refers(Snapshot(defs, memo), ids) && smallest == SmallestMin(Snapshot(defs, memo), ids)
      ensures forall k :: 0 <= k < |ids| ==> ids[k] in memo
      ensures Refers(params, ids) && (memo, smallest) == VisitedMembers(params, old(memo), ids, 0, 0)
      decreases defs.Keys - memo.Keys, 1
    {
      hide Descending, Below, Exact, Sound, Kept, SmallestMin, Snapshot, SameDefs, Of, Known, Visited, VisitedMembers;
      smallest := 0;
      OfParams(params, defs, memo);
      KeptSelf(defs, memo);
      for k := 0 to |ids|
        invariant Valid() && Kept(old(defs), old(memo), defs, memo) && active == old(active)
        invariant defs.Keys == old(defs).Keys && old(memo).Keys <= memo.Keys
        invariant forall j :: 0 <= j < k ==> ids[j] in memo && smallest <= memo[ids[j]]
        invariant k > 0 ==> exists j :: 0 <= j < k && memo[ids[j]] == smallest
        invariant k == 0 ==> smallest == 0
        invariant memo.Keys <= params.Keys
        invariant VisitedMembers(params, memo, ids, k, smallest) == VisitedMembers(params, old(memo), ids, 0, 0)
        invariant Descending(defs, depth) <==> Descending(old(defs), depth)
      {
        ghost var now, memoNow := defs, memo;
        MemberVisited(params, memo, ids, k, smallest);
        var n := GetParamSize(ids[k]);
        OfParams(params, defs, memo);
        KeptKeys(now, memoNow, active, defs, memo);
        KeptMemo(now, memoNow, defs, memo, ids[..k]);
        KeptDescending(now, memoNow, defs, memo, depth);
        KeptTrans(old(defs), old(memo), now, memoNow, defs, memo);
        forall j | 0 <= j < k
          ensures ids[j] in memo && memo[ids[j]] == memoNow[ids[j]]
        {
          assert ids[..k][j] == ids[j];
        }
        smallest := if k == 0 || n < smallest then n else smallest;
      }
      MembersEnd(params, memo, ids, smallest);
      SmallestOfMemo(defs, memo, ids, smallest);
    }

    /** `set_param_sizes`, with the parameters in the order of the definition file. */
    method SetParamSizes(order: seq<nat>)
      requires Valid() && active == {} && memo == map[]
      requires forall id :: id in order <==> id in defs
      modifies this
      ensures Sized(old(defs), defs, depth)
      ensures Closed(params) && SameDefs(params, defs) && forall j :: 0 <= j < |order| ==> order[j] in params
      ensures forall id :: id in defs ==>
                id in VisitedAll(params, map[], order, 0) && defs[id].minSize == VisitedAll(params, map[], order, 0)[id]
    {
      hide *;
      KeptSelf(defs, memo);
      OfParams(params, defs, memo);
      for k := 0 to |order|
        invariant Valid() && active == {} && Kept(old(defs), old(memo), defs, memo)
        invariant defs.Keys == old(defs).Keys
        invariant forall j :: 0 <= j < k ==> order[j] in memo
        invariant memo.Keys <= params.Keys == defs.Keys
        invariant VisitedAll(params, memo, order, k) == VisitedAll(params, map[], order, 0)
      {
        ghost var now, memoNow := defs, memo;
        NoneActive(depth, order[k]);
        NextVisited(params, memo, order, k);
        var _ := GetParamSize(order[k]);
        OfParams(params, defs, memo);
        KeptKeys(now, memoNow, active, defs, memo);
        KeptTrans(old(defs), old(memo), now, memoNow, defs, memo);
      }
      AllVisited(params, memo, order);
      AllDone(old(defs), old(memo), defs, memo, depth);
      DoneSizes(defs, memo);
      OfParts(params, defs);
    }
  }
}
