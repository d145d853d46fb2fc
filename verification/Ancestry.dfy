/** The walks over a snapshot of the process table. A parent map is any finite map: it may have
    cycles, dangling parents and entries without a parent. */
module Ancestry {
  import opened Sets
  import opened Wrappers

  type Pid = int
  type ParentMap = map<Pid, Option<Pid>>

  /** Creation times; a process may be missing, or its time unknown. */
  type CreatedMap = map<Pid, Option<int>>

  // ----- the specification: reachability along the parent chain -----

  function Parent(m: ParentMap, p: Pid): Option<Pid> {
    if p in m then m[p] else None
  }

  /** The ancestor `k` links up the chain. */
  function Ancestor(m: ParentMap, p: Pid, k: nat): Option<Pid> {
    if k == 0 then Some(p)
    else match Ancestor(m, p, k - 1)
      case None => None
      case Some(q) => Parent(m, q)
  }

  /** A parent that was created after its child: the PID has been reused. */
  predicate Stale(created: CreatedMap, child: Pid, parent: Pid) {
    && parent in created && created[parent].Some?
    && child in created && created[child].Some?
    && created[parent].value > created[child].value
  }

  /** The `j`-th link of the chain exists and is stale. */
  predicate StaleLink(m: ParentMap, created: CreatedMap, p: Pid, j: nat) {
    && Ancestor(m, p, j).Some? && Ancestor(m, p, j + 1).Some?
    && Stale(created, Ancestor(m, p, j).value, Ancestor(m, p, j + 1).value)
  }

  /** `ancestor` is `k` links up, and none of the links before the last is stale. */
  predicate ReachedAt(m: ParentMap, created: CreatedMap, p: Pid, ancestor: Pid, k: nat) {
    && k >= 1
    && Ancestor(m, p, k) == Some(ancestor)
    && FreshLinks(m, created, p, k - 1)
  }

  /** None of the first `n` links of the chain is stale. */
  predicate FreshLinks(m: ParentMap, created: CreatedMap, p: Pid, n: nat) {
    forall j: nat | j < n :: !StaleLink(m, created, p, j)
  }

  ghost predicate DescendsFrom(m: ParentMap, created: CreatedMap, p: Pid, ancestor: Pid) {
    exists k: nat :: ReachedAt(m, created, p, ancestor, k)
  }

  /** Some ancestor at distance 1..`maxDepth` is in the set. */
  ghost predicate HasAncestorIn(m: ParentMap, p: Pid, pids: set<Pid>, maxDepth: int) {
    exists k: nat :: 1 <= k <= maxDepth && Ancestor(m, p, k).Some? && Ancestor(m, p, k).value in pids
  }

  /** In a snapshot without reused PIDs no known parent is younger than its known child. */
  predicate InOrder(m: ParentMap, created: CreatedMap) {
    forall c | c in m && m[c].Some? && c in created && m[c].value in created ::
      created[c].Some? && created[m[c].value].Some? ==> created[m[c].value].value <= created[c].value
  }

  /** There the guard against reuse does nothing: a process descends from all its ancestors. */
  lemma InOrderDescends(m: ParentMap, created: CreatedMap, p: Pid, ancestor: Pid)
    requires InOrder(m, created)
    ensures DescendsFrom(m, created, p, ancestor) <==> exists k: nat :: k >= 1 && Ancestor(m, p, k) == Some(ancestor)
  {
    if k: nat :| k >= 1 && Ancestor(m, p, k) == Some(ancestor) {
      forall j: nat | j < k - 1
        ensures !StaleLink(m, created, p, j)
      {
        if Ancestor(m, p, j).Some? {
          assert Ancestor(m, p, j + 1) == Parent(m, Ancestor(m, p, j).value);
        }
      }
      assert ReachedAt(m, created, p, ancestor, k);
    }
  }

  /** But behind a parent that was created after its child nothing is reached. */
  lemma ReusedPidBlocks(m: ParentMap, created: CreatedMap, p: Pid, parent: Pid, ancestor: Pid)
    requires p in m && m[p] == Some(parent) && parent != ancestor
    requires p in created && parent in created && created[p].Some? && created[parent].Some?
    requires created[parent].value > created[p].value
    ensures !DescendsFrom(m, created, p, ancestor)
  {
    assert Ancestor(m, p, 0) == Some(p) && Ancestor(m, p, 1) == Some(parent);
    assert StaleLink(m, created, p, 0);
  }

  // ----- what a walk has seen -----

  /** `path` is the chain from `p` as far as it has been walked, without repetition. */
  ghost predicate Walked(m: ParentMap, p: Pid, path: seq<Pid>, visited: set<Pid>) {
    && path != []
    && (forall i | 0 <= i < |path| :: Ancestor(m, p, i) == Some(path[i]))
    && (forall i, j | 0 <= i < j < |path| :: path[i] != path[j])
    && visited == set q | q in path
  }

  /** Every process on the path but the last is a key of the map, which bounds the walk. */
  lemma {:induction false} WalkBounded(m: ParentMap, p: Pid, path: seq<Pid>, visited: set<Pid>)
    requires Walked(m, p, path, visited)
    ensures |visited| <= |m| + 1
    ensures Parent(m, path[|path| - 1]).Some? ==> |visited| <= |m|
  {
    var last := path[|path| - 1];
    forall q | q in visited && q != last
      ensures q in m.Keys
    {
      var i :| 0 <= i < |path| && path[i] == q;
      assert Ancestor(m, p, i + 1) == Parent(m, q);
    }
    SubsetButOne(visited, last, m.Keys);
    if last in m.Keys {
      SubsetSize(visited, m.Keys);
    }
  }

  lemma WalkExtends(m: ParentMap, p: Pid, path: seq<Pid>, visited: set<Pid>, q: Pid)
    requires Walked(m, p, path, visited)
    requires Parent(m, path[|path| - 1]) == Some(q) && q !in visited
    ensures Walked(m, p, path + [q], visited + {q})
  {
    assert Ancestor(m, p, |path|) == Some(q);
  }

  /** Once the chain has ended it stays ended. */
  lemma {:induction false} EndStays(m: ParentMap, p: Pid, n: nat, k: nat)
    requires n <= k && Ancestor(m, p, n).None?
    ensures Ancestor(m, p, k).None?
  {
    if n < k {
      EndStays(m, p, n, k - 1);
    }
  }

  /** Once the chain has come back to a visited process it never leaves the cycle: the guard
      loses no answer. */
  lemma {:induction false} CycleStays(m: ParentMap, p: Pid, path: seq<Pid>, visited: set<Pid>, q: Pid, k: nat)
    requires Walked(m, p, path, visited)
    requires Parent(m, path[|path| - 1]) == Some(q) && q in visited
    requires k >= |path|
    ensures Ancestor(m, p, k).Some?
    ensures Ancestor(m, p, k).value == q || Ancestor(m, p, k).value in path[1..]
  {
    if k == |path| {
      assert Ancestor(m, p, k) == Parent(m, path[|path| - 1]);
    } else {
      CycleStays(m, p, path, visited, q, k - 1);
      var r := Ancestor(m, p, k - 1).value;
      assert Ancestor(m, p, k) == Parent(m, r);
      var i :| 0 <= i < |path| && path[i] == r;
      if i < |path| - 1 {
        assert Ancestor(m, p, i + 1) == Some(path[i + 1]);
        assert path[i + 1] == path[1..][i];
      }
    }
  }

  // ----- the walks -----

  /** The walk so far has met neither the ancestor nor a stale link. */
  ghost predicate Searching(m: ParentMap, created: CreatedMap, p: Pid, ancestor: Pid, path: seq<Pid>,
                            visited: set<Pid>) {
    && Walked(m, p, path, visited)
    && (forall k | 1 <= k < |path| :: path[k] != ancestor)
    && FreshLinks(m, created, p, |path| - 1)
  }

  method IsDescendantOf(p: Pid, ancestor: Pid, m: ParentMap, created: CreatedMap) returns (found: bool)
    ensures found <==> DescendsFrom(m, created, p, ancestor)
  {
    var visited := {p};
    var current := p;
    ghost var path := [p];
    while Parent(m, current).Some?
      invariant Searching(m, created, p, ancestor, path, visited) && current == path[|path| - 1]
      invariant |visited| <= |m| + 1
      decreases |m| + 1 - |visited|
    {
      var parent := Parent(m, current).value;
      if parent == ancestor {
        AncestorReached(m, created, p, ancestor, path, visited);
        return true;
      }
      if parent in visited {
        CycleNotReached(m, created, p, ancestor, path, visited, parent);
        return false;
      }
      if Stale(created, current, parent) {
        StaleNotReached(m, created, p, ancestor, path, visited, parent);
        return false;
      }
      SearchExtends(m, created, p, ancestor, path, visited, parent);
      path, visited, current := path + [parent], visited + {parent}, parent;
    }
    EndNotReached(m, created, p, ancestor, path, visited);
    return false;
  }

  lemma AncestorReached(m: ParentMap, created: CreatedMap, p: Pid, ancestor: Pid, path: seq<Pid>, visited: set<Pid>)
    requires Searching(m, created, p, ancestor, path, visited)
    requires Parent(m, path[|path| - 1]) == Some(ancestor)
    ensures DescendsFrom(m, created, p, ancestor)
  {
    assert ReachedAt(m, created, p, ancestor, |path|);
  }

  lemma SearchExtends(m: ParentMap, created: CreatedMap, p: Pid, ancestor: Pid, path: seq<Pid>, visited: set<Pid>,
                      q: Pid)
    requires Searching(m, created, p, ancestor, path, visited)
    requires Parent(m, path[|path| - 1]) == Some(q) && q != ancestor && q !in visited
    requires !Stale(created, path[|path| - 1], q)
    ensures Searching(m, created, p, ancestor, path + [q], visited + {q})
    ensures |visited + {q}| <= |m| + 1
  {
    WalkBounded(m, p, path, visited);
    WalkExtends(m, p, path, visited, q);
    assert !StaleLink(m, created, p, |path| - 1);
  }

  lemma StaleNotReached(m: ParentMap, created: CreatedMap, p: Pid, ancestor: Pid, path: seq<Pid>, visited: set<Pid>,
                        q: Pid)
    requires Searching(m, created, p, ancestor, path, visited)
    requires Parent(m, path[|path| - 1]) == Some(q) && q != ancestor && Stale(created, path[|path| - 1], q)
    ensures !DescendsFrom(m, created, p, ancestor)
  {
    assert Ancestor(m, p, |path|) == Some(q);
    assert StaleLink(m, created, p, |path| - 1);
  }

  lemma EndNotReached(m: ParentMap, created: CreatedMap, p: Pid, ancestor: Pid, path: seq<Pid>, visited: set<Pid>)
    requires Searching(m, created, p, ancestor, path, visited)
    requires Parent(m, path[|path| - 1]).None?
    ensures !DescendsFrom(m, created, p, ancestor)
  {
    forall k: nat
      ensures !ReachedAt(m, created, p, ancestor, k)
    {
      if k >= |path| {
        assert Ancestor(m, p, |path|).None?;
        EndStays(m, p, |path|, k);
      }
    }
  }

  lemma CycleNotReached(m: ParentMap, created: CreatedMap, p: Pid, ancestor: Pid, path: seq<Pid>, visited: set<Pid>,
                        q: Pid)
    requires Searching(m, created, p, ancestor, path, visited)
    requires Parent(m, path[|path| - 1]) == Some(q) && q in visited && q != ancestor
    ensures !DescendsFrom(m, created, p, ancestor)
  {
    forall k: nat
      ensures !ReachedAt(m, created, p, ancestor, k)
    {
      if k >= |path| {
        CycleStays(m, p, path, visited, q, k);
      }
    }
  }

  method IsAncestorOfAny(p: Pid, pids: set<Pid>, m: ParentMap, maxDepth: int) returns (found: bool)
    ensures found <==> HasAncestorIn(m, p, pids, maxDepth)
  {
    var visited := {p};
    var current := p;
    var depth := 0;
    ghost var path := [p];
    while Parent(m, current).Some? && depth < maxDepth
      invariant Walked(m, p, path, visited) && current == path[|path| - 1]
      invariant depth == |path| - 1
      invariant forall k | 1 <= k < |path| :: path[k] !in pids
      decreases maxDepth - depth
    {
      var parent := Parent(m, current).value;
      assert Ancestor(m, p, |path|) == Some(parent);
      if parent in pids {
        return true;
      }
      if parent in visited {
        forall k: nat | Ancestor(m, p, k).Some? && k >= 1
          ensures Ancestor(m, p, k).value !in pids
        {
          if k >= |path| {
            CycleStays(m, p, path, visited, parent, k);
          }
        }
        return false;
      }
      WalkExtends(m, p, path, visited, parent);
      path, visited, current, depth := path + [parent], visited + {parent}, parent, depth + 1;
    }
    forall k: nat | 1 <= k <= maxDepth && Ancestor(m, p, k).Some?
      ensures Ancestor(m, p, k).value !in pids
    {
      if k >= |path| {
        assert Ancestor(m, p, |path|).None?;
        EndStays(m, p, |path|, k);
      }
    }
    return false;
  }

  // ----- the known-PID loop -----

  datatype Process = Process(pid: Pid, parent: Option<Pid>, createdAt: Option<int>)

  /** One turn of the loop: the light table, and the processes that the second query can still find,
      in the order of its answers. */
  datatype Round = Round(table: seq<Process>, found: seq<Pid>)

  predicate DistinctPids(table: seq<Process>) {
    forall i, j | 0 <= i < j < |table| :: table[i].pid != table[j].pid
  }

  function Parents(table: seq<Process>): ParentMap
    requires DistinctPids(table)
  {
    map i | 0 <= i < |table| :: table[i].pid := table[i].parent
  }

  function Created(table: seq<Process>): CreatedMap
    requires DistinctPids(table)
  {
    map i | 0 <= i < |table| :: table[i].pid := table[i].createdAt
  }

  /** The maps say of every process in the table what the table says, and know no others. */
  lemma TableRead(table: seq<Process>, pid: Pid)
    requires DistinctPids(table)
    ensures forall i | 0 <= i < |table| && table[i].pid == pid ::
      && pid in Parents(table) && Parents(table)[pid] == table[i].parent
      && pid in Created(table) && Created(table)[pid] == table[i].createdAt
    ensures (forall i | 0 <= i < |table| :: table[i].pid != pid) ==> pid !in Parents(table) && pid !in Created(table)
  {
  }

  /** The test a table entry has to pass: not older than the root, and below it. */
  ghost function BelowRoot(table: seq<Process>, root: Pid, tolerance: int): Process -> bool
    requires DistinctPids(table)
  {
    (proc: Process) =>
      && !(proc.createdAt.Some? && proc.createdAt.value < tolerance)
      && DescendsFrom(Parents(table), Created(table), proc.pid, root)
  }

  /** The new candidates among the first `n` entries of a table. */
  ghost function CandidatesAmong(table: seq<Process>, below: Process -> bool, known: set<Pid>, n: nat): seq<Pid>
    requires n <= |table|
  {
    if n == 0 then []
    else
      var isNew := table[n - 1].pid !in known && below(table[n - 1]);
      CandidatesAmong(table, below, known, n - 1) + if isNew then [table[n - 1].pid] else []
  }

  /** What the second query answers when asked for `candidates`, in its own order. */
  function Answered(candidates: seq<Pid>, found: seq<Pid>): seq<Pid> {
    if found == [] then []
    else
      var last := found[|found| - 1];
      Answered(candidates, found[..|found| - 1]) + if last in candidates then [last] else []
  }

  function Known(reported: seq<Pid>, root: Pid): set<Pid> {
    {root} + set p | p in reported
  }

  /** The PIDs reported once `round` is over. A table with a repeated PID cannot be made into a
      map, and its round is given up. */
  ghost function ReportedInRound(before: seq<Pid>, round: Round, root: Pid, tolerance: int): seq<Pid> {
    if !DistinctPids(round.table) then before
    else
      var below := BelowRoot(round.table, root, tolerance);
      before + Answered(CandidatesAmong(round.table, below, Known(before, root), |round.table|), round.found)
  }

  /** The PIDs reported after `n` rounds, in order. */
  ghost function ReportedAfter(rounds: seq<Round>, root: Pid, tolerance: int, n: nat): seq<Pid>
    requires n <= |rounds|
  {
    if n == 0 then []
    else ReportedInRound(ReportedAfter(rounds, root, tolerance, n - 1), rounds[n - 1], root, tolerance)
  }

  method Candidates(table: seq<Process>, root: Pid, tolerance: int, known: set<Pid>, ghost below: Process -> bool)
    returns (found: seq<Pid>)
    requires DistinctPids(table) && below == BelowRoot(table, root, tolerance)
    ensures found == CandidatesAmong(table, below, known, |table|)
  {
    found := [];
    var i := 0;
    while i < |table|
      invariant 0 <= i <= |table|
      invariant found == CandidatesAmong(table, below, known, i)
    {
      var isBelow := Below(table, root, tolerance, table[i], below);
      found := found + if table[i].pid !in known && isBelow then [table[i].pid] else [];
      i := i + 1;
    }
  }

  method Below(table: seq<Process>, root: Pid, tolerance: int, proc: Process, ghost below: Process -> bool)
    returns (isBelow: bool)
    requires DistinctPids(table) && below == BelowRoot(table, root, tolerance)
    ensures isBelow <==> below(proc)
  {
    if proc.createdAt.Some? && proc.createdAt.value < tolerance {
      return false;
    }
    isBelow := IsDescendantOf(proc.pid, root, Parents(table), Created(table));
  }

  method TrackProcessTree(root: Pid, tolerance: int, rounds: seq<Round>) returns (reported: seq<Pid>)
    ensures reported == ReportedAfter(rounds, root, tolerance, |rounds|)
  {
    var knownPids := {root};
    reported := [];
    var n := 0;
    while n < |rounds|
      invariant 0 <= n <= |rounds|
      invariant knownPids == Known(reported, root)
      invariant reported == ReportedAfter(rounds, root, tolerance, n)
    {
      if DistinctPids(rounds[n].table) {
        ghost var below := BelowRoot(rounds[n].table, root, tolerance);
        var candidates := Candidates(rounds[n].table, root, tolerance, knownPids, below);
        knownPids, reported := Report(candidates, rounds[n].found, knownPids, reported, root);
      }
      n := n + 1;
    }
  }

  /** The loop over the second query's answers. */
  method Report(candidates: seq<Pid>, found: seq<Pid>, knownBefore: set<Pid>, before: seq<Pid>, ghost root: Pid)
    returns (knownPids: set<Pid>, reported: seq<Pid>)
    requires knownBefore == Known(before, root)
    ensures knownPids == Known(reported, root)
    ensures reported == before + Answered(candidates, found)
  {
    knownPids, reported := knownBefore, before;
    var i := 0;
    while i < |found|
      invariant 0 <= i <= |found|
      invariant knownPids == Known(reported, root)
      invariant reported == before + Answered(candidates, found[..i])
    {
      assert found[..i + 1][..i] == found[..i];
      if found[i] in candidates {
        knownPids := knownPids + {found[i]};
        reported := reported + [found[i]];
      }
      i := i + 1;
    }
    assert found[..|found|] == found;
  }

  // ----- what is reported -----

  predicate NoRepeats(s: seq<Pid>) {
    forall i, j | 0 <= i < j < |s| :: s[i] != s[j]
  }

  ghost predicate Listed(table: seq<Process>, below: Process -> bool, pid: Pid, n: nat)
    requires n <= |table|
  {
    exists j :: 0 <= j < n && table[j].pid == pid && below(table[j])
  }

  lemma {:induction false} CandidatesExact(table: seq<Process>, below: Process -> bool, known: set<Pid>, n: nat)
    requires DistinctPids(table) && n <= |table|
    ensures NoRepeats(CandidatesAmong(table, below, known, n))
    ensures forall pid :: pid in CandidatesAmong(table, below, known, n) <==>
      pid !in known && Listed(table, below, pid, n)
  {
    if n > 0 {
      CandidatesExact(table, below, known, n - 1);
    }
  }

  lemma {:induction false} AnsweredExact(candidates: seq<Pid>, found: seq<Pid>)
    ensures NoRepeats(found) ==> NoRepeats(Answered(candidates, found))
    ensures forall pid :: pid in Answered(candidates, found) <==> pid in candidates && pid in found
  {
    if found != [] {
      AnsweredExact(candidates, found[..|found| - 1]);
    }
  }

  /** A round shows `pid` below the root, not older than the root by more than the tolerance, and the
      second query answers for it. */
  ghost predicate SeenIn(round: Round, root: Pid, tolerance: int, pid: Pid) {
    && DistinctPids(round.table) && pid in round.found
    && exists p :: p in round.table && p.pid == pid
                   && (p.createdAt == None || p.createdAt.value >= tolerance)
                   && DescendsFrom(Parents(round.table), Created(round.table), pid, root)
  }

  /** The same by the loop's own candidates. */
  ghost predicate ListedIn(round: Round, root: Pid, tolerance: int, pid: Pid) {
    && DistinctPids(round.table)
    && Listed(round.table, BelowRoot(round.table, root, tolerance), pid, |round.table|)
    && pid in round.found
  }

  lemma SeenIsListed(round: Round, root: Pid, tolerance: int, pid: Pid)
    ensures SeenIn(round, root, tolerance, pid) <==> ListedIn(round, root, tolerance, pid)
  {
    if ListedIn(round, root, tolerance, pid) {
      var j :| 0 <= j < |round.table| && round.table[j].pid == pid
               && BelowRoot(round.table, root, tolerance)(round.table[j]);
      assert round.table[j] in round.table;
    }
    if SeenIn(round, root, tolerance, pid) {
      var p :| p in round.table && p.pid == pid && (p.createdAt == None || p.createdAt.value >= tolerance)
               && DescendsFrom(Parents(round.table), Created(round.table), pid, root);
      var j :| 0 <= j < |round.table| && round.table[j] == p;
      assert BelowRoot(round.table, root, tolerance)(round.table[j]);
    }
  }

  /** One of the first `n` rounds does. */
  ghost predicate Seen(rounds: seq<Round>, root: Pid, tolerance: int, pid: Pid, n: nat)
    requires n <= |rounds|
  {
    exists r :: 0 <= r < n && SeenIn(rounds[r], root, tolerance, pid)
  }

  lemma NoRepeatsAppend(s: seq<Pid>, t: seq<Pid>)
    requires NoRepeats(s) && NoRepeats(t) && forall x | x in t :: x !in s
    ensures NoRepeats(s + t)
  {
    forall i, j | 0 <= i < j < |s + t|
      ensures (s + t)[i] != (s + t)[j]
    {
      if i < |s| <= j {
        assert t[j - |s|] in t && s[i] in s;
      }
    }
  }

  lemma RoundExact(before: seq<Pid>, round: Round, root: Pid, tolerance: int)
    requires root !in before
    ensures var now := ReportedInRound(before, round, root, tolerance);
            && (NoRepeats(before) && NoRepeats(round.found) ==> NoRepeats(now))
            && forall pid :: pid in now <==> pid in before || (pid != root && ListedIn(round, root, tolerance, pid))
  {
    if DistinctPids(round.table) {
      var below := BelowRoot(round.table, root, tolerance);
      CandidatesExact(round.table, below, Known(before, root), |round.table|);
      var candidates := CandidatesAmong(round.table, below, Known(before, root), |round.table|);
      AnsweredExact(candidates, round.found);
      if NoRepeats(before) && NoRepeats(round.found) {
        NoRepeatsAppend(before, Answered(candidates, round.found));
      }
    }
  }

  /** Over the whole tracking window each descendant is reported exactly once: the PIDs reported
      are those seen below the root, without the root itself, and, as long as no single answer of the
      second query repeats one, without repetition. */
  lemma {:induction false} ReportedExactlyOnce(rounds: seq<Round>, root: Pid, tolerance: int, n: nat)
    requires n <= |rounds|
    ensures (forall r | 0 <= r < n :: NoRepeats(rounds[r].found)) ==>
      NoRepeats(ReportedAfter(rounds, root, tolerance, n))
    ensures forall pid :: pid in ReportedAfter(rounds, root, tolerance, n) <==>
      pid != root && Seen(rounds, root, tolerance, pid, n)
  {
    if n > 0 {
      ReportedExactlyOnce(rounds, root, tolerance, n - 1);
      RoundExact(ReportedAfter(rounds, root, tolerance, n - 1), rounds[n - 1], root, tolerance);
      var round := rounds[n - 1];
      forall pid
        ensures SeenIn(round, root, tolerance, pid) <==> ListedIn(round, root, tolerance, pid)
      {
        SeenIsListed(round, root, tolerance, pid);
      }
      SeenStep(rounds, root, tolerance, n);
    }
  }

  lemma SeenStep(rounds: seq<Round>, root: Pid, tolerance: int, n: nat)
    requires 0 < n <= |rounds|
    ensures forall pid :: Seen(rounds, root, tolerance, pid, n) <==>
      Seen(rounds, root, tolerance, pid, n - 1) || SeenIn(rounds[n - 1], root, tolerance, pid)
  {
  }
}
