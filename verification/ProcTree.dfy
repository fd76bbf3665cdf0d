/**
 * Ending a refused launch (internal/cli/proctree.go): the processes below the
 * sandbox child in any parent map, and freezing them until no new one shows up.
 */
module ProcTree {
  import opened Sequences

  type Pid = int
  type Parents = map<Pid, Pid>

  const SCANS: nat := 5

  // ---- the tree ----

  /** n steps up from pid lead to root. */
  predicate Climbs(parents: Parents, root: Pid, pid: Pid, n: nat)
    decreases n
  {
    if n == 0 then pid == root else pid in parents && Climbs(parents, root, parents[pid], n - 1)
  }

  /** pid is a descendant of root, and not root itself. */
  ghost predicate IsBelow(parents: Parents, root: Pid, pid: Pid) {
    pid != root && exists n: nat :: Climbs(parents, root, pid, n)
  }

  /** Each process comes after its parent, the children of root aside. */
  predicate ParentsFirst(parents: Parents, root: Pid, out: seq<Pid>) {
    forall i :: 0 <= i < |out| ==> out[i] in parents && (parents[out[i]] == root || parents[out[i]] in out[..i])
  }

  /** The children of each process, in any order, self-parents left out. */
  ghost predicate ListsChildren(parents: Parents, children: map<Pid, seq<Pid>>) {
    forall p: Pid, c: Pid :: p in children && c in children[p] <==> c in parents && parents[c] == p && c != p
  }

  lemma HasMember(s: set<Pid>)
    requires s != {}
    ensures exists p :: p in s
  {
    var p := Member(s);
  }

  lemma Member<T>(s: set<T>) returns (m: T)
    requires s != {}
    ensures m in s
  {
    m :| m in s;
  }

  ghost function Without(parents: Parents, left: set<Pid>): Parents {
    map p | p in parents && p !in left :: parents[p]
  }

  method Children(parents: Parents) returns (children: map<Pid, seq<Pid>>)
    ensures ListsChildren(parents, children)
  {
    children := map[];
    var left := parents.Keys;
    while left != {}
      invariant left <= parents.Keys
      invariant ListsChildren(Without(parents, left), children)
      decreases left
    {
      HasMember(left);
      var pid :| pid in left;
      var ppid := parents[pid];
      ghost var before := children;
      if pid != ppid {
        children := children[ppid := (if ppid in children then children[ppid] else []) + [pid]];
      }
      OneMoreChild(parents, left, before, children, pid);
      left := left - {pid};
    }
    assert Without(parents, {}) == parents;
  }

  lemma OneMoreChild(parents: Parents, left: set<Pid>, before: map<Pid, seq<Pid>>, after: map<Pid, seq<Pid>>, pid: Pid)
    requires pid in left && left <= parents.Keys && ListsChildren(Without(parents, left), before)
    requires var ppid := parents[pid];
             after == if pid == ppid then before
                      else before[ppid := (if ppid in before then before[ppid] else []) + [pid]]
    ensures ListsChildren(Without(parents, left - {pid}), after)
  {
    var now := Without(parents, left - {pid});
    forall p: Pid, c: Pid
      ensures p in after && c in after[p] <==> c in now && now[c] == p && c != p
    {
      assert c in now <==> c in Without(parents, left) || c == pid;
      assert p in before && c in before[p] <==> c in Without(parents, left) && parents[c] == p && c != p;
    }
  }

  // ---- the search ----

  /** done are the processes whose children have all been seen. */
  ghost predicate Searched(parents: Parents, root: Pid, out: seq<Pid>, done: seq<Pid>) {
    forall c <- parents :: parents[c] in done ==> c in [root] + out
  }

  /** Every process below root, once, after its parent. */
  method Descendants(root: Pid, parents: Parents) returns (out: seq<Pid>)
    ensures Distinct(out) && ParentsFirst(parents, root, out)
    ensures forall pid: Pid :: pid in out <==> IsBelow(parents, root, pid)
  {
    hide *;
    var children := Children(parents);
    SearchStarts(parents, root);
    out := [];
    var seen := {root};
    var queue := [root];
    ghost var done: seq<Pid> := [];
    while queue != []
      invariant InStep(parents, root, seen, out, done + queue) && Searched(parents, root, out, done)
      decreases {root} + parents.Keys - seen, |queue|
    {
      ghost var out0, seen0, all := out, seen, done + queue;
      var cur := queue[0];
      queue := queue[1..];
      assert all == done + [cur] + queue;
      var kids := if cur in children then children[cur] else [];
      CurSeen(parents, root, seen, out, done, cur, queue);
      KidsOf(parents, children, cur);
      seen, out, queue := AddKids(parents, root, cur, kids, seen, out, queue, done + [cur]);
      CurDone(parents, root, children, seen, out0, out, queue, done, cur);
      if seen0 < seen {
        FewerUnseen(parents, root, seen0, seen, out, done + [cur] + queue);
      }
      done := done + [cur];
    }
    assert done + queue == done;
    AllFound(parents, root, seen, out, done);
  }

  lemma SearchStarts(parents: Parents, root: Pid)
    ensures InStep(parents, root, {root}, [], [] + [root]) && Searched(parents, root, [], [])
  {}

  lemma KidsOf(parents: Parents, children: map<Pid, seq<Pid>>, cur: Pid)
    requires ListsChildren(parents, children)
    ensures cur in children ==> forall c <- children[cur] :: c in parents && parents[c] == cur
  {}

  lemma FewerUnseen(parents: Parents, root: Pid, seen0: set<Pid>, seen: set<Pid>, out: seq<Pid>, all: seq<Pid>)
    requires InStep(parents, root, seen, out, all) && seen0 < seen
    ensures {root} + parents.Keys - seen < {root} + parents.Keys - seen0
  {
    assert seen == seen0 + (seen - seen0);
    HasMember(seen - seen0);
    var p :| p in seen - seen0;
    assert p in {root} + parents.Keys - seen0;
  }

  /** The variables of the search agree: seen holds root and out, and all is what was ever queued. */
  predicate InStep(parents: Parents, root: Pid, seen: set<Pid>, out: seq<Pid>, all: seq<Pid>) {
    && all == [root] + out && seen == Members(all) && seen <= {root} + parents.Keys
    && Distinct(all) && ParentsFirst(parents, root, out)
  }

  /** The inner loop: the children of cur that were not seen join the end of out and of the queue. */
  method AddKids(
      ghost parents: Parents, ghost root: Pid, ghost cur: Pid, kids: seq<Pid>,
      seen0: set<Pid>, out0: seq<Pid>, queue0: seq<Pid>, ghost done: seq<Pid>)
    returns (seen: set<Pid>, out: seq<Pid>, queue: seq<Pid>)
    requires InStep(parents, root, seen0, out0, done + queue0) && cur in seen0
    requires forall c <- kids :: c in parents && parents[c] == cur
    ensures InStep(parents, root, seen, out, done + queue) && out0 <= out
    ensures forall c <- kids :: c in seen
    ensures if out == out0 then seen == seen0 && queue == queue0 else seen0 < seen
  {
    seen, out, queue := seen0, out0, queue0;
    for i := 0 to |kids|
      invariant InStep(parents, root, seen, out, done + queue) && out0 <= out
      invariant forall c <- kids[..i] :: c in seen
      invariant seen0 <= seen && if out == out0 then seen == seen0 && queue == queue0 else seen0 < seen
    {
      hide InStep;
      var c := kids[i];
      assert c in kids && kids[..i + 1] == kids[..i] + [c];
      if c !in seen {
        Append(parents, root, seen, out, done + queue, cur, c);
        assert done + queue + [c] == done + (queue + [c]);
        seen := seen + {c};
        out := out + [c];
        queue := queue + [c];
      }
    }
    assert kids[..|kids|] == kids;
  }

  function Members(s: seq<Pid>): set<Pid> {
    set p | p in s
  }

  lemma MembersSnoc(s: seq<Pid>, p: Pid)
    ensures Members(s + [p]) == Members(s) + {p}
  {}

  lemma CurSeen(parents: Parents, root: Pid, seen: set<Pid>, out: seq<Pid>, done: seq<Pid>, cur: Pid, queue: seq<Pid>)
    requires InStep(parents, root, seen, out, done + [cur] + queue)
    ensures cur in seen
  {}

  lemma DistinctSnoc(s: seq<Pid>, c: Pid)
    requires Distinct(s) && c !in Members(s)
    ensures Distinct(s + [c])
  {}

  lemma ParentsFirstSnoc(parents: Parents, root: Pid, out: seq<Pid>, c: Pid)
    requires ParentsFirst(parents, root, out) && c in parents && (parents[c] == root || parents[c] in out)
    ensures ParentsFirst(parents, root, out + [c])
  {
    var more := out + [c];
    forall i | 0 <= i < |more|
      ensures more[i] in parents && (parents[more[i]] == root || parents[more[i]] in more[..i])
    {
      assert more[..i] == out[..i];
    }
  }

  lemma Append(parents: Parents, root: Pid, seen: set<Pid>, out: seq<Pid>, all: seq<Pid>, cur: Pid, c: Pid)
    requires InStep(parents, root, seen, out, all) && c !in seen
    requires c in parents && parents[c] == cur && cur in seen
    ensures InStep(parents, root, seen + {c}, out + [c], all + [c])
  {
    hide Distinct, ParentsFirst;
    MembersSnoc(all, c);
    DistinctSnoc(all, c);
    assert cur in all && (cur == root || cur in out);
    ParentsFirstSnoc(parents, root, out, c);
    assert all + [c] == [root] + (out + [c]);
  }

  lemma CurDone(
      parents: Parents, root: Pid, children: map<Pid, seq<Pid>>, seen: set<Pid>,
      out0: seq<Pid>, out: seq<Pid>, queue: seq<Pid>, done: seq<Pid>, cur: Pid)
    requires ListsChildren(parents, children) && Searched(parents, root, out0, done) && out0 <= out
    requires InStep(parents, root, seen, out, done + [cur] + queue)
    requires cur in children ==> forall c <- children[cur] :: c in seen
    ensures Searched(parents, root, out, done + [cur])
  {
    forall c <- parents | parents[c] in done + [cur]
      ensures c in [root] + out
    {
      if parents[c] in done {
        assert c in [root] + out0;
        assert [root] + out0 <= [root] + out;
      } else if c != cur {
        assert cur in children && c in children[cur];
      } else {
        assert c in done + [cur] + queue;
      }
    }
  }

  lemma AllFound(parents: Parents, root: Pid, seen: set<Pid>, out: seq<Pid>, done: seq<Pid>)
    requires Searched(parents, root, out, done) && InStep(parents, root, seen, out, done)
    ensures Distinct(out) && ParentsFirst(parents, root, out)
    ensures forall pid: Pid :: pid in out <==> IsBelow(parents, root, pid)
  {
    assert forall i :: 0 <= i < |out| ==> ([root] + out)[i + 1] == out[i];
    forall pid: Pid
      ensures pid in out <==> IsBelow(parents, root, pid)
    {
      if pid in out {
        var i :| 0 <= i < |out| && out[i] == pid;
        var n := FoundClimbs(parents, root, out, i);
        assert ([root] + out)[0] != ([root] + out)[i + 1];
      }
      if n: nat :| Climbs(parents, root, pid, n) {
        ClimbsFound(parents, root, out, pid, n);
      }
    }
  }

  lemma {:induction false} FoundClimbs(parents: Parents, root: Pid, out: seq<Pid>, i: nat) returns (n: nat)
    requires ParentsFirst(parents, root, out) && i < |out|
    ensures Climbs(parents, root, out[i], n)
    decreases i
  {
    if parents[out[i]] == root {
      n := 1;
    } else {
      var j :| 0 <= j < i && out[j] == parents[out[i]];
      n := FoundClimbs(parents, root, out, j);
      n := n + 1;
    }
  }

  lemma {:induction false} ClimbsFound(parents: Parents, root: Pid, out: seq<Pid>, pid: Pid, n: nat)
    requires forall c <- parents :: parents[c] in [root] + out ==> c in [root] + out
    requires Climbs(parents, root, pid, n)
    ensures pid in [root] + out
    decreases n
  {
    if n > 0 {
      ClimbsFound(parents, root, out, parents[pid], n - 1);
    }
  }

  // ---- stopping the tree ----

  datatype Signal = Stop(pid: Pid) | Kill(pid: Pid) | TermGroup(leader: Pid) | KillGroup(leader: Pid)

  /** Some process was seen below root in one of these scans. */
  ghost predicate SeenBelow(scans: seq<Parents>, root: Pid, pid: Pid) {
    exists scan <- scans :: IsBelow(scan, root, pid)
  }

  /** Scan k shows a process that no scan before it showed. */
  ghost predicate ShowsNew(scans: seq<Parents>, root: Pid, k: nat)
    requires k < |scans|
  {
    exists pid: Pid :: IsBelow(scans[k], root, pid) && !SeenBelow(scans[..k], root, pid)
  }

  /** The scans that are made: up to the first that shows nothing new, five at most. */
  ghost predicate Scanned(scans: seq<Parents>, root: Pid, used: nat) {
    && 1 <= used <= SCANS <= |scans|
    && (forall k: nat | k < used - 1 :: ShowsNew(scans, root, k))
    && (used < SCANS ==> !ShowsNew(scans, root, used - 1))
  }

  function Stops(s: seq<Pid>): seq<Signal> {
    seq(|s|, i requires 0 <= i < |s| => Stop(s[i]))
  }

  function Kills(s: seq<Pid>): seq<Signal> {
    seq(|s|, i requires 0 <= i < |s| => Kill(s[i]))
  }

  /** The inner loop of the freeze: signals the processes of one scan that are not frozen yet. */
  method FreezeScan(found: seq<Pid>, frozen0: seq<Pid>) returns (frozen: seq<Pid>, signals: seq<Signal>, isNew: bool)
    requires Distinct(frozen0)
    ensures Distinct(frozen) && frozen0 <= frozen && signals == Stops(frozen[|frozen0|..])
    ensures forall pid: Pid :: pid in frozen <==> pid in frozen0 || pid in found
    ensures !isNew <==> frozen == frozen0
  {
    frozen, signals, isNew := frozen0, [], false;
    for i := 0 to |found|
      invariant Distinct(frozen) && frozen0 <= frozen && signals == Stops(frozen[|frozen0|..])
      invariant forall pid: Pid :: pid in frozen <==> pid in frozen0 || pid in found[..i]
      invariant !isNew <==> frozen == frozen0
    {
      if found[i] !in frozen {
        frozen := frozen + [found[i]];
        isNew := true;
        signals := signals + [Stop(found[i])];
        assert frozen[|frozen0|..] == frozen[..|frozen| - 1][|frozen0|..] + [found[i]];
      }
      assert found[..i + 1] == found[..i] + [found[i]];
    }
    assert found[..|found|] == found;
  }

  /**
   * The freeze: at most five scans of the process table, of which used are made.
   * frozen lists the processes in the order of their signals.
   */
  method Freeze(root: Pid, scans: seq<Parents>) returns (frozen: seq<Pid>, signals: seq<Signal>, used: nat)
    requires |scans| == SCANS
    ensures Distinct(frozen) && signals == Stops(frozen) && Scanned(scans, root, used)
    ensures forall pid: Pid :: pid in frozen <==> SeenBelow(scans[..used], root, pid)
  {
    hide IsBelow, SeenBelow, ShowsNew, Stops, Distinct;
    frozen, signals, used := [], [], 0;
    NoneSeen(scans, root);
    while used < SCANS
      invariant used <= SCANS && Distinct(frozen) && signals == Stops(frozen)
      invariant forall pid: Pid :: pid in frozen <==> SeenBelow(scans[..used], root, pid)
      invariant forall k: nat | k < used :: ShowsNew(scans, root, k)
    {
      var found := Descendants(root, scans[used]);
      var more, sent, isNew := FreezeScan(found, frozen);
      OneMoreScan(scans, used, root);
      NewIff(scans, used, root, frozen, found, more);
      assert more == frozen + more[|frozen|..];
      StopsAdd(frozen, more[|frozen|..]);
      frozen, signals, used := more, signals + sent, used + 1;
      if !isNew {
        return;
      }
    }
  }

  lemma NoneSeen(scans: seq<Parents>, root: Pid)
    ensures forall pid: Pid :: !SeenBelow(scans[..0], root, pid)
    ensures Distinct<Pid>([]) && Stops([]) == []
  {}

  lemma StopsAdd(a: seq<Pid>, b: seq<Pid>)
    ensures Stops(a + b) == Stops(a) + Stops(b)
  {}

  /** The list of the frozen grows exactly when the scan shows something new. */
  lemma NewIff(scans: seq<Parents>, n: nat, root: Pid, frozen: seq<Pid>, found: seq<Pid>, more: seq<Pid>)
    requires n < |scans| && frozen <= more && Distinct(more)
    requires forall pid: Pid :: pid in frozen <==> SeenBelow(scans[..n], root, pid)
    requires forall pid: Pid :: pid in found <==> IsBelow(scans[n], root, pid)
    requires forall pid: Pid :: pid in more <==> pid in frozen || pid in found
    ensures more != frozen <==> ShowsNew(scans, root, n)
  {
    if more != frozen {
      var pid := more[|frozen|];
      assert pid in more && pid !in frozen;
    }
  }

  lemma OneMoreScan(scans: seq<Parents>, n: nat, root: Pid)
    requires n < |scans|
    ensures forall pid: Pid :: SeenBelow(scans[..n + 1], root, pid)
                          <==> SeenBelow(scans[..n], root, pid) || IsBelow(scans[n], root, pid)
  {}

  /**
   * stopSandboxTree: the signals it sends, in order. exited says whether root is
   * gone within three seconds.
   */
  method StopSandboxTree(root: Pid, scans: seq<Parents>, exited: bool)
    returns (signals: seq<Signal>, ghost frozen: seq<Pid>, ghost used: nat)
    requires |scans| == SCANS
    ensures Distinct(frozen) && Scanned(scans, root, used)
    ensures forall pid: Pid :: pid in frozen <==> SeenBelow(scans[..used], root, pid)
    ensures exists kills: seq<Pid> ::
              && Distinct(kills) && (forall pid: Pid :: pid in kills <==> pid in frozen)
              && signals == Stops(frozen) + Kills(kills) + [TermGroup(root)] + if exited then [] else [KillGroup(root)]
    ensures Stop(root) !in signals && Kill(root) !in signals
  {
    var stopped, sent, n := Freeze(root, scans);
    frozen, used := stopped, n;
    signals := sent;
    // The frozen processes are a map in the source, so their order here is any order.
    var left := set p | p in stopped;
    ghost var kills: seq<Pid> := [];
    while left != {}
      invariant Distinct(kills) && signals == sent + Kills(kills)
      invariant forall pid: Pid :: pid in stopped <==> pid in kills || pid in left
      invariant forall pid <- kills :: pid !in left
      decreases left
    {
      HasMember(left);
      var pid :| pid in left;
      left := left - {pid};
      kills := kills + [pid];
      signals := signals + [Kill(pid)];
      assert Kills(kills) == Kills(kills[..|kills| - 1]) + [Kill(pid)];
    }
    RootSpared(root, scans[..used], frozen, kills);
    signals := signals + [TermGroup(root)];
    if !exited {
      signals := signals + [KillGroup(root)];
    }
    assert signals == Stops(frozen) + Kills(kills) + [TermGroup(root)] + if exited then [] else [KillGroup(root)];
  }

  lemma RootSpared(root: Pid, scans: seq<Parents>, frozen: seq<Pid>, kills: seq<Pid>)
    requires forall pid: Pid :: pid in frozen <==> SeenBelow(scans, root, pid)
    requires forall pid: Pid :: pid in kills <==> pid in frozen
    ensures Stop(root) !in Stops(frozen) && Kill(root) !in Kills(kills)
    ensures Kill(root) !in Stops(frozen) && Stop(root) !in Kills(kills)
  {
    assert root !in frozen;
  }
}
