/**
 * The report of omac diagnose (internal/diagnose/diagnose.go): denied decisions
 * grouped by host, and hints with the problems first.
 */
module Diagnose {
  import opened Sequences
  import opened Sorting

  datatype Decision = Decision(host: string, port: int, allowed: bool, source: string)

  datatype BlockedHost = BlockedHost(host: string, count: nat, ports: seq<int>, sources: seq<string>)

  // ---- what is collected ----

  /** addInt and addStr: a value joins once. */
  function Add<T(==)>(xs: seq<T>, x: T): seq<T> {
    if x in xs then xs else xs + [x]
  }

  function AddSource(xs: seq<string>, x: string): seq<string> {
    if x == "" then xs else Add(xs, x)
  }

  /** Each value where it occurs first. */
  function Firsts<T(==)>(s: seq<T>): seq<T> {
    if s == [] then [] else Add(Firsts(s[..|s| - 1]), s[|s| - 1])
  }

  function DeniedHosts(decisions: seq<Decision>): seq<string> {
    if decisions == [] then []
    else
      var d := decisions[|decisions| - 1];
      DeniedHosts(decisions[..|decisions| - 1]) + if d.allowed then [] else [d.host]
  }

  /** The denials of one host. */
  function Denials(decisions: seq<Decision>, host: string): seq<Decision> {
    if decisions == [] then []
    else
      var d := decisions[|decisions| - 1];
      Denials(decisions[..|decisions| - 1], host) + if !d.allowed && d.host == host then [d] else []
  }

  function Ports(denials: seq<Decision>): seq<int> {
    if denials == [] then [] else Ports(denials[..|denials| - 1]) + [denials[|denials| - 1].port]
  }

  function Sources(denials: seq<Decision>): seq<string> {
    if denials == [] then []
    else
      var source := denials[|denials| - 1].source;
      Sources(denials[..|denials| - 1]) + if source == "" then [] else [source]
  }

  /** Everything a host was denied, ports and sources once each in the order they came up. */
  function RecordOf(decisions: seq<Decision>, host: string): BlockedHost {
    var denials := Denials(decisions, host);
    BlockedHost(host, |denials|, Firsts(Ports(denials)), Firsts(Sources(denials)))
  }

  function Records(decisions: seq<Decision>, hosts: seq<string>): seq<BlockedHost> {
    seq(|hosts|, i requires 0 <= i < |hosts| => RecordOf(decisions, hosts[i]))
  }

  const MoreBlocked: (BlockedHost, BlockedHost) -> bool := (a: BlockedHost, b: BlockedHost) => a.count > b.count

  function Grouped(decisions: seq<Decision>): seq<BlockedHost> {
    Records(decisions, Firsts(DeniedHosts(decisions)))
  }

  method Blocked(decisions: seq<Decision>) returns (out: seq<BlockedHost>)
    ensures out == StableSort(MoreBlocked, Grouped(decisions))
  {
    hide RecordOf, Firsts, DeniedHosts, StableSort;
    var idx: map<string, BlockedHost> := map[];
    var order: seq<string> := [];
    NothingDenied();
    for i := 0 to |decisions|
      invariant order == Firsts(DeniedHosts(decisions[..i]))
      invariant forall h: string :: h in idx <==> h in order
      invariant forall h <- idx :: idx[h] == RecordOf(decisions[..i], h)
    {
      var d := decisions[i];
      assert decisions[..i + 1] == decisions[..i] + [d];
      HostsSnoc(decisions[..i], d);
      if d.allowed {
        forall h <- idx
          ensures RecordOf(decisions[..i + 1], h) == idx[h]
        {
          RecordSnoc(decisions[..i], d, h);
        }
        continue;
      }
      ghost var was := idx;
      if d.host !in idx {
        NewHost(decisions[..i], d.host);
        idx := idx[d.host := BlockedHost(d.host, 0, [], [])];
        order := order + [d.host];
      }
      var b := idx[d.host];
      assert b == RecordOf(decisions[..i], d.host);
      idx := idx[d.host := BlockedHost(d.host, b.count + 1, Add(b.ports, d.port), AddSource(b.sources, d.source))];
      forall h <- idx
        ensures idx[h] == RecordOf(decisions[..i + 1], h)
      {
        RecordSnoc(decisions[..i], d, h);
      }
    }
    assert decisions[..|decisions|] == decisions;
    out := seq(|order|, k requires 0 <= k < |order| && order[k] in idx => idx[order[k]]);
    assert out == Grouped(decisions);
    out := StableSort(MoreBlocked, out);
  }

  lemma NothingDenied()
    ensures Firsts(DeniedHosts([])) == []
  {}

  lemma {:induction false} HostsSnoc(front: seq<Decision>, d: Decision)
    ensures DeniedHosts(front + [d]) == DeniedHosts(front) + if d.allowed then [] else [d.host]
    ensures Firsts(DeniedHosts(front + [d]))
         == if d.allowed then Firsts(DeniedHosts(front)) else Add(Firsts(DeniedHosts(front)), d.host)
  {
    assert (front + [d])[..|front|] == front;
    FirstsSnoc(DeniedHosts(front), d.host);
    assert DeniedHosts(front) + [] == DeniedHosts(front);
  }

  lemma {:induction false} FirstsSnoc<T>(s: seq<T>, x: T)
    ensures Firsts(s + [x]) == Add(Firsts(s), x)
  {
    assert (s + [x])[..|s|] == s;
  }

  lemma {:induction false} FirstsAre<T>(s: seq<T>)
    ensures Distinct(Firsts(s)) && forall x :: x in Firsts(s) <==> x in s
    decreases |s|
  {
    if s != [] {
      FirstsAre(s[..|s| - 1]);
      assert s == s[..|s| - 1] + [s[|s| - 1]];
    }
  }

  lemma {:induction false} FirstsMember<T>(s: seq<T>, x: T)
    ensures x in Firsts(s) <==> x in s
  {
    FirstsAre(s);
  }

  /** Where x is first, or the length. */
  function FirstAt<T(==)>(s: seq<T>, x: T): nat {
    if s == [] || s[0] == x then 0 else 1 + FirstAt(s[1..], x)
  }

  lemma {:induction false} FirstAtSnoc<T>(s: seq<T>, x: T, y: T)
    ensures FirstAt(s + [x], y) == if y in s then FirstAt(s, y) else if y == x then |s| else |s| + 1
    ensures FirstAt(s, y) <= |s| && (y in s <==> FirstAt(s, y) < |s|)
  {
    if s != [] {
      assert (s + [x])[1..] == s[1..] + [x] && s == [s[0]] + s[1..];
      FirstAtSnoc(s[1..], x, y);
    }
  }

  /** They stand in the order in which they came up. */
  lemma {:induction false} FirstsInOrder<T>(s: seq<T>)
    ensures forall i, j :: 0 <= i < j < |Firsts(s)| ==> FirstAt(s, Firsts(s)[i]) < FirstAt(s, Firsts(s)[j])
    decreases |s|
  {
    if s != [] {
      var front, last := s[..|s| - 1], s[|s| - 1];
      assert s == front + [last];
      FirstsInOrder(front);
      FirstsAre(front);
      var before, after := Firsts(front), Firsts(s);
      forall i, j | 0 <= i < j < |after|
        ensures FirstAt(s, after[i]) < FirstAt(s, after[j])
      {
        FirstAtSnoc(front, last, after[i]);
        FirstAtSnoc(front, last, after[j]);
        FirstsMember(front, before[i]);
        assert after[i] == before[i];
        if j < |before| {
          FirstsMember(front, before[j]);
          assert after[j] == before[j];
          assert FirstAt(front, before[i]) < FirstAt(front, before[j]);
        } else {
          assert after[j] == last && last !in front;
        }
      }
    }
  }

  lemma {:induction false} NewHost(decisions: seq<Decision>, host: string)
    requires host !in Firsts(DeniedHosts(decisions))
    ensures Denials(decisions, host) == [] && RecordOf(decisions, host) == BlockedHost(host, 0, [], [])
    decreases |decisions|
  {
    hide Firsts;
    FirstsAre(DeniedHosts(decisions));
    if decisions != [] {
      FirstsAre(DeniedHosts(decisions[..|decisions| - 1]));
      NewHost(decisions[..|decisions| - 1], host);
    }
    NothingFirst();
  }

  lemma NothingFirst()
    ensures Firsts<int>([]) == [] && Firsts<string>([]) == []
  {}

  /** One more decision changes the record of its own host only. */
  lemma RecordSnoc(front: seq<Decision>, d: Decision, host: string)
    ensures var b := RecordOf(front, host);
            RecordOf(front + [d], host) ==
              if d.allowed || d.host != host then b
              else BlockedHost(host, b.count + 1, Add(b.ports, d.port), AddSource(b.sources, d.source))
  {
    hide Firsts;
    assert (front + [d])[..|front|] == front;
    var denials := Denials(front, host);
    if !d.allowed && d.host == host {
      assert (denials + [d])[..|denials|] == denials;
      FirstsSnoc(Ports(denials), d.port);
      FirstsSnoc(Sources(denials), d.source);
      assert Sources(denials) + [] == Sources(denials);
    } else {
      assert denials + [] == denials;
    }
  }

  // ---- what the report says of each host ----

  /** What a record says: how often the host was denied, and each of its ports and named sources once. */
  lemma {:induction false} RecordMeans(decisions: seq<Decision>, host: string)
    ensures var b := RecordOf(decisions, host);
            && b.host == host && Distinct(b.ports) && Distinct(b.sources)
            && (forall d: Decision :: d in Denials(decisions, host) ==> !d.allowed && d.host == host)
            && (forall d: Decision :: multiset(Denials(decisions, host))[d] ==
                  if !d.allowed && d.host == host then multiset(decisions)[d] else 0)
            && b.count == |Denials(decisions, host)|
            && (forall p: int :: p in b.ports <==> exists d <- decisions :: !d.allowed && d.host == host && d.port == p)
            && (forall x: string :: x in b.sources <==>
                  x != "" && exists d <- decisions :: !d.allowed && d.host == host && d.source == x)
  {
    hide Denials, Ports, Sources, Firsts;
    var denials := Denials(decisions, host);
    DenialsAre(decisions, host);
    FirstsAre(Ports(denials));
    FirstsAre(Sources(denials));
    forall d: Decision
      ensures d in denials <==> d in decisions && !d.allowed && d.host == host
    {
      assert d in denials <==> d in multiset(denials);
      assert d in decisions <==> d in multiset(decisions);
    }
    PortsAre(denials);
    SourcesAre(denials);
  }

  lemma {:induction false} DenialsAre(decisions: seq<Decision>, host: string)
    ensures forall d: Decision :: multiset(Denials(decisions, host))[d] ==
              if !d.allowed && d.host == host then multiset(decisions)[d] else 0
    decreases |decisions|
  {
    if decisions != [] {
      var front, last := decisions[..|decisions| - 1], decisions[|decisions| - 1];
      DenialsAre(front, host);
      assert decisions == front + [last];
    }
  }

  lemma {:induction false} PortsAre(denials: seq<Decision>)
    ensures forall p: int :: p in Ports(denials) <==> exists d <- denials :: d.port == p
    decreases |denials|
  {
    if denials != [] {
      var front, last := denials[..|denials| - 1], denials[|denials| - 1];
      PortsAre(front);
      assert denials == front + [last];
      assert forall d :: d in denials <==> d in front || d == last;
    }
  }

  lemma {:induction false} SourcesAre(denials: seq<Decision>)
    ensures forall x: string :: x in Sources(denials) <==> x != "" && exists d <- denials :: d.source == x
    decreases |denials|
  {
    if denials != [] {
      var front, last := denials[..|denials| - 1], denials[|denials| - 1];
      SourcesAre(front);
      assert denials == front + [last];
      assert forall d :: d in denials <==> d in front || d == last;
    }
  }

  lemma MoreBlockedOrders()
    ensures WeakOrder(MoreBlocked)
  {}

  /**
   * The report lists exactly the hosts with a denial, once each and with all
   * their denials; by falling count, and in the order they came up where counts
   * are equal.
   */
  lemma {:induction false} BlockedExact(decisions: seq<Decision>, out: seq<BlockedHost>)
    requires out == StableSort(MoreBlocked, Grouped(decisions))
    ensures forall b :: b in out <==> b.host in DeniedHosts(decisions) && b == RecordOf(decisions, b.host)
    ensures |out| == |Firsts(DeniedHosts(decisions))|
    ensures forall i, j :: 0 <= i < j < |out| ==> out[i].count >= out[j].count
    ensures forall b :: Ties(MoreBlocked, out, b) == Ties(MoreBlocked, Grouped(decisions), b)
  {
    hide StableSort, RecordOf, Firsts, DeniedHosts, Ties;
    var hosts, all := Firsts(DeniedHosts(decisions)), Grouped(decisions);
    FirstsAre(DeniedHosts(decisions));
    MoreBlockedOrders();
    SortOrders(MoreBlocked, all);
    SameMembers(out, all);
    forall b
      ensures b in all <==> b.host in hosts && b == RecordOf(decisions, b.host)
    {
      if b.host in hosts && b == RecordOf(decisions, b.host) {
        var i :| 0 <= i < |hosts| && hosts[i] == b.host;
        assert all[i] == b;
      }
      if b in all {
        var i :| 0 <= i < |all| && all[i] == b;
        HostOf(decisions, hosts[i]);
      }
    }
    forall b {
      SortStable(MoreBlocked, all, b);
    }
    forall i, j | 0 <= i < j < |out|
      ensures out[i].count >= out[j].count
    {
      assert !MoreBlocked(out[j], out[i]);
    }
  }

  lemma HostOf(decisions: seq<Decision>, host: string)
    ensures RecordOf(decisions, host).host == host
  {}

  // ---- the counts ----

  function Sum(bs: seq<BlockedHost>): nat {
    if bs == [] then 0 else bs[0].count + Sum(bs[1..])
  }

  lemma {:induction false} SumInsert(b: BlockedHost, bs: seq<BlockedHost>)
    ensures Sum(Insert(MoreBlocked, b, bs)) == b.count + Sum(bs)
  {
    if bs != [] && MoreBlocked(bs[0], b) {
      SumInsert(b, bs[1..]);
      assert ([bs[0]] + Insert(MoreBlocked, b, bs[1..]))[1..] == Insert(MoreBlocked, b, bs[1..]);
    } else {
      assert ([b] + bs)[1..] == bs;
    }
  }

  lemma {:induction false} SumSorted(bs: seq<BlockedHost>)
    ensures Sum(StableSort(MoreBlocked, bs)) == Sum(bs)
  {
    if bs != [] {
      SumSorted(bs[1..]);
      SumInsert(bs[0], StableSort(MoreBlocked, bs[1..]));
    }
  }

  lemma RecordsCons(decisions: seq<Decision>, hosts: seq<string>)
    requires hosts != []
    ensures Records(decisions, hosts) == [RecordOf(decisions, hosts[0])] + Records(decisions, hosts[1..])
  {}

  /** A denial adds one to the sum over the hosts when its host is among them. */
  lemma {:induction false} SumStep(front: seq<Decision>, d: Decision, hosts: seq<string>)
    requires Distinct(hosts)
    ensures Sum(Records(front + [d], hosts))
         == Sum(Records(front, hosts)) + if !d.allowed && d.host in hosts then 1 else 0
    decreases |hosts|
  {
    if hosts != [] {
      hide RecordOf, Records;
      RecordsCons(front, hosts);
      RecordsCons(front + [d], hosts);
      RecordSnoc(front, d, hosts[0]);
      SumStep(front, d, hosts[1..]);
      var a, b := Records(front, hosts[1..]), Records(front + [d], hosts[1..]);
      assert ([RecordOf(front, hosts[0])] + a)[1..] == a && ([RecordOf(front + [d], hosts[0])] + b)[1..] == b;
      assert d.host in hosts <==> d.host == hosts[0] || d.host in hosts[1..];
    }
  }

  lemma {:induction false} SumSnoc(bs: seq<BlockedHost>, b: BlockedHost)
    ensures Sum(bs + [b]) == Sum(bs) + b.count
  {
    if bs != [] {
      assert (bs + [b])[1..] == bs[1..] + [b];
      SumSnoc(bs[1..], b);
    }
  }

  /** The counts of all hosts add up to the number of denials. */
  lemma {:induction false} CountsAddUp(decisions: seq<Decision>)
    ensures Sum(StableSort(MoreBlocked, Grouped(decisions))) == |DeniedHosts(decisions)|
    decreases |decisions|
  {
    hide StableSort, Firsts, DeniedHosts, RecordOf, Records;
    SumSorted(Grouped(decisions));
    if decisions == [] {
      NothingDenied();
      NoRecords(decisions);
    } else {
      var front, d := decisions[..|decisions| - 1], decisions[|decisions| - 1];
      assert decisions == front + [d];
      var hosts := Firsts(DeniedHosts(front));
      CountsAddUp(front);
      SumSorted(Grouped(front));
      FirstsAre(DeniedHosts(front));
      HostsSnoc(front, d);
      SumStep(front, d, hosts);
      if !d.allowed && d.host !in hosts {
        NewHost(front, d.host);
        RecordSnoc(front, d, d.host);
        RecordsSnoc(decisions, hosts, d.host);
        SumSnoc(Records(decisions, hosts), RecordOf(decisions, d.host));
      }
    }
  }

  lemma NoRecords(decisions: seq<Decision>)
    ensures Sum(Records(decisions, [])) == 0 && |DeniedHosts([])| == 0
  {}

  lemma RecordsSnoc(decisions: seq<Decision>, hosts: seq<string>, host: string)
    ensures Records(decisions, hosts + [host]) == Records(decisions, hosts) + [RecordOf(decisions, host)]
  {}

  // ---- the hints ----

  datatype Hint =
    | NetworkBlocked
    | ShadowedAllow(host: string)
    | DeniedByRule(host: string)
    | NotAllowed(host: string)
    | Other(kind: Kind, title: string)

  datatype Kind = Problem | Advisory

  function KindOf(h: Hint): Kind {
    if h.Other? then h.kind else Problem
  }

  /** filterKind. */
  function OfKind(hints: seq<Hint>, k: Kind): seq<Hint> {
    if hints == [] then []
    else if KindOf(hints[0]) == k then [hints[0]] + OfKind(hints[1..], k)
    else OfKind(hints[1..], k)
  }

  const ProblemFirst: (Hint, Hint) -> bool := (a: Hint, b: Hint) => KindOf(a) == Problem && KindOf(b) != Problem

  lemma {:induction false} TiesAreKinds(hints: seq<Hint>, h: Hint)
    ensures Ties(ProblemFirst, hints, h) == OfKind(hints, KindOf(h))
  {
    if hints != [] {
      TiesAreKinds(hints[1..], h);
    }
  }

  lemma {:induction false} OfKindAdd(a: seq<Hint>, b: seq<Hint>, k: Kind)
    ensures OfKind(a + b, k) == OfKind(a, k) + OfKind(b, k)
  {
    if a == [] {
      assert a + b == b;
    } else {
      assert (a + b)[1..] == a[1..] + b;
      OfKindAdd(a[1..], b, k);
    }
  }

  lemma {:induction false} OfKindIs(hints: seq<Hint>, k: Kind, other: Kind)
    ensures forall h <- OfKind(hints, k) :: KindOf(h) == k
    ensures OfKind(OfKind(hints, k), other) == if other == k then OfKind(hints, k) else []
  {
    if hints != [] {
      OfKindIs(hints[1..], k, other);
      var rest := OfKind(hints[1..], k);
      assert ([hints[0]] + rest)[1..] == rest;
    }
  }

  /** The stable sort puts the problems before the advisories and changes no order among either. */
  lemma {:induction false} ProblemsThenAdvisories(hints: seq<Hint>)
    ensures StableSort(ProblemFirst, hints) == OfKind(hints, Problem) + OfKind(hints, Advisory)
  {
    hide StableSort, OfKind;
    var a, b := StableSort(ProblemFirst, hints), OfKind(hints, Problem) + OfKind(hints, Advisory);
    SortOrders(ProblemFirst, hints);
    OfKindIs(hints, Problem, Problem);
    OfKindIs(hints, Advisory, Advisory);
    forall h
      ensures Ties(ProblemFirst, a, h) == Ties(ProblemFirst, b, h)
    {
      var k := KindOf(h);
      SortStable(ProblemFirst, hints, h);
      TiesAreKinds(hints, h);
      TiesAreKinds(b, h);
      OfKindAdd(OfKind(hints, Problem), OfKind(hints, Advisory), k);
      OfKindIs(hints, Problem, k);
      OfKindIs(hints, Advisory, k);
    }
    assert Ordered(ProblemFirst, b) by {
      KindsOrdered(OfKind(hints, Problem), OfKind(hints, Advisory));
    }
    StableUnique(ProblemFirst, a, b);
  }

  lemma KindsOrdered(a: seq<Hint>, b: seq<Hint>)
    requires (forall h <- a :: KindOf(h) == Problem) && forall h <- b :: KindOf(h) == Advisory
    ensures Ordered(ProblemFirst, a + b)
  {}

  /** blockedHostHint: an allow rule that something overrides comes before a deny rule. */
  function HostHint(b: BlockedHost, inAllow: string -> bool, inDeny: string -> bool): Hint {
    if inAllow(b.host) then ShadowedAllow(b.host)
    else if inDeny(b.host) then DeniedByRule(b.host)
    else NotAllowed(b.host)
  }

  function HostHints(bs: seq<BlockedHost>, inAllow: string -> bool, inDeny: string -> bool): seq<Hint> {
    seq(|bs|, i requires 0 <= i < |bs| => HostHint(bs[i], inAllow, inDeny))
  }

  lemma {:induction false} AllOfKind(hints: seq<Hint>, k: Kind)
    requires forall h <- hints :: KindOf(h) == k
    ensures OfKind(hints, k) == hints && forall other | other != k :: OfKind(hints, other) == []
  {
    if hints != [] {
      assert hints == [hints[0]] + hints[1..];
      AllOfKind(hints[1..], k);
    }
  }

  lemma {:induction false} HostsFirst(problems: seq<Hint>, others: seq<Hint>)
    requires forall h <- problems :: KindOf(h) == Problem
    ensures StableSort(ProblemFirst, problems + others) == problems + OfKind(others, Problem) + OfKind(others, Advisory)
  {
    hide StableSort, OfKind;
    OfKindAdd(problems, others, Problem);
    OfKindAdd(problems, others, Advisory);
    AllOfKind(problems, Problem);
    assert [] + OfKind(others, Advisory) == OfKind(others, Advisory);
    ProblemsThenAdvisories(problems + others);
  }

  lemma HostHintKinds(bs: seq<BlockedHost>, inAllow: string -> bool, inDeny: string -> bool)
    ensures forall h <- HostHints(bs, inAllow, inDeny) :: KindOf(h) == Problem
  {}

  /**
   * Hints from the policy and the decisions; others are the rule, source and
   * environment hints in the order they are found. The blocked hosts come first,
   * most blocked first, then the other problems, then the advisories.
   */
  method Analyze(
      blockedMode: bool, inAllow: string -> bool, inDeny: string -> bool, decisions: seq<Decision>, others: seq<Hint>)
    returns (hints: seq<Hint>)
    ensures blockedMode ==> hints == [NetworkBlocked]
    ensures !blockedMode ==>
              var blocked := StableSort(MoreBlocked, Grouped(decisions));
              hints == HostHints(blocked, inAllow, inDeny) + OfKind(others, Problem) + OfKind(others, Advisory)
  {
    if blockedMode {
      return [NetworkBlocked];
    }
    hide StableSort, Grouped, OfKind, HostHint, MoreBlocked, ProblemFirst;
    var blocked := Blocked(decisions);
    hints := [];
    for i := 0 to |blocked|
      invariant hints == HostHints(blocked[..i], inAllow, inDeny)
    {
      hints := hints + [HostHint(blocked[i], inAllow, inDeny)];
    }
    assert blocked[..|blocked|] == blocked;
    HostHintKinds(blocked, inAllow, inDeny);
    HostsFirst(hints, others);
    hints := StableSort(ProblemFirst, hints + others);
  }

  datatype Report = Report(total: nat, denied: nat, blocked: seq<BlockedHost>, hints: seq<Hint>)

  /** The whole report; the blocked hosts account for every denial. */
  method Build(
      blockedMode: bool, inAllow: string -> bool, inDeny: string -> bool, decisions: seq<Decision>, others: seq<Hint>)
    returns (report: Report)
    ensures report.total == |decisions| && report.denied == |DeniedHosts(decisions)| == Sum(report.blocked)
    ensures report.blocked == StableSort(MoreBlocked, Grouped(decisions))
    ensures OfKind(report.hints, Problem) + OfKind(report.hints, Advisory) == report.hints
    ensures blockedMode ==> report.hints == [NetworkBlocked]
    ensures !blockedMode ==>
              && |report.hints| == |report.blocked| + |others|
              && (forall i :: 0 <= i < |report.blocked| ==> Explains(report.hints[i], report.blocked[i].host, inAllow, inDeny))
              && report.hints[|report.blocked|..] == OfKind(others, Problem) + OfKind(others, Advisory)
  {
    hide DeniedHosts, StableSort, OfKind, Sum, Grouped;
    var denied := 0;
    NoRecords(decisions);
    for i := 0 to |decisions|
      invariant denied == |DeniedHosts(decisions[..i])|
    {
      assert decisions[..i + 1] == decisions[..i] + [decisions[i]];
      HostsSnoc(decisions[..i], decisions[i]);
      if !decisions[i].allowed {
        denied := denied + 1;
      }
    }
    assert decisions[..|decisions|] == decisions;
    CountsAddUp(decisions);
    var blocked := Blocked(decisions);
    var hints := Analyze(blockedMode, inAllow, inDeny, decisions, others);
    Partitioned(blocked, inAllow, inDeny, others, hints);
    if !blockedMode {
      KindsSize(others);
      var rest := OfKind(others, Problem) + OfKind(others, Advisory);
      assert hints == HostHints(blocked, inAllow, inDeny) + rest;
      HintsExplain(blocked, inAllow, inDeny, rest, hints);
    }
    report := Report(|decisions|, denied, blocked, hints);
  }

  /** Why a host was blocked: something overrides an allow rule, a deny rule names it, or no rule does. */
  predicate Explains(h: Hint, host: string, inAllow: string -> bool, inDeny: string -> bool) {
    match h
    case ShadowedAllow(x) => x == host && inAllow(host)
    case DeniedByRule(x) => x == host && inDeny(host) && !inAllow(host)
    case NotAllowed(x) => x == host && !inDeny(host) && !inAllow(host)
    case _ => false
  }

  lemma HintsExplain(
      blocked: seq<BlockedHost>, inAllow: string -> bool, inDeny: string -> bool, rest: seq<Hint>, hints: seq<Hint>)
    requires hints == HostHints(blocked, inAllow, inDeny) + rest
    ensures |hints| == |blocked| + |rest| && hints[|blocked|..] == rest
    ensures forall i :: 0 <= i < |blocked| ==> Explains(hints[i], blocked[i].host, inAllow, inDeny)
  {
    assert forall i :: 0 <= i < |blocked| ==> hints[i] == HostHint(blocked[i], inAllow, inDeny);
  }

  lemma {:induction false} KindsSize(hints: seq<Hint>)
    ensures |OfKind(hints, Problem)| + |OfKind(hints, Advisory)| == |hints|
  {
    if hints != [] {
      KindsSize(hints[1..]);
    }
  }

  lemma {:induction false} Partitioned(
      blocked: seq<BlockedHost>, inAllow: string -> bool, inDeny: string -> bool, others: seq<Hint>, hints: seq<Hint>)
    requires || hints == [NetworkBlocked]
             || hints == HostHints(blocked, inAllow, inDeny) + OfKind(others, Problem) + OfKind(others, Advisory)
    ensures OfKind(hints, Problem) + OfKind(hints, Advisory) == hints
  {
    hide OfKind;
    OfKindIs(others, Problem, Problem);
    OfKindIs(others, Advisory, Advisory);
    if hints == [NetworkBlocked] {
      TwoKinds(hints, []);
      assert hints + [] == hints;
    } else {
      var first := HostHints(blocked, inAllow, inDeny);
      assert forall h <- first + OfKind(others, Problem) :: KindOf(h) == Problem;
      TwoKinds(first + OfKind(others, Problem), OfKind(others, Advisory));
    }
  }

  lemma {:induction false} TwoKinds(a: seq<Hint>, b: seq<Hint>)
    requires (forall h <- a :: KindOf(h) == Problem) && forall h <- b :: KindOf(h) == Advisory
    ensures OfKind(a + b, Problem) + OfKind(a + b, Advisory) == a + b
  {
    hide OfKind;
    OfKindAdd(a, b, Problem);
    OfKindAdd(a, b, Advisory);
    AllOfKind(a, Problem);
    AllOfKind(b, Advisory);
    assert OfKind(a, Problem) == a && OfKind(b, Advisory) == b && OfKind(a, Advisory) == [] && OfKind(b, Problem) == [];
  }
}
