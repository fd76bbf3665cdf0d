/**
 * Bringing skills up in one namespace of omac serve (internal/cli/serve.go):
 * bringUp, and the loops over discovered skills in activate, rediscover and
 * activateGlobals.
 */
module ServeScan {
  import opened Wrappers
  import opened Routing

  // ---- data ----

  /** A mounted skill, as the directory state or the global layer records it. */
  datatype Entry = Entry(name: string, mount: string, namespace: string, state: RouteState)

  /** A sidecar the supervisor tracks. */
  datatype Tracked = Tracked(namespace: string, name: string)

  /**
   * How far one skill gets when it is brought up. declared is the mount its
   * omac.yaml asks for (its own name when the file is unreadable).
   */
  datatype Outcome =
    | RegisterFailed(declared: string)
    | MetaBroken
    | Stalled(mount: string, pending: bool)
    | Live(mount: string, port: int)

  /** A skill found by a scan; only eligible ones belong to the scanned layer. */
  datatype Found = Found(name: string, eligible: bool, outcome: Outcome)

  /** A first activation, a re-discovery of a live directory, or the global layer. */
  datatype Pass = First | Retry | GlobalLayer

  // ---- bringing up one skill ----

  function LookupMount(k: Found): string {
    match k.outcome
    case RegisterFailed(declared) => declared
    case MetaBroken => k.name
    case Stalled(mount, _) => mount
    case Live(mount, _) => mount
  }

  /** Where the result is mounted: a skill that cannot be read or registered sits under its own name. */
  function ResultMount(k: Found): string {
    if k.outcome.RegisterFailed? then k.name else LookupMount(k)
  }

  function ResultState(k: Found): RouteState {
    match k.outcome
    case RegisterFailed(_) => Broken
    case MetaBroken => Broken
    case Stalled(_, pending) => if pending then PendingCredentials else Broken
    case Live(_, _) => Ready
  }

  function EntryFor(namespace: string, k: Found): Entry {
    Entry(k.name, ResultMount(k), namespace, ResultState(k))
  }

  function RouteFor(namespace: string, k: Found, pass: Pass): Route {
    Route(ResultMount(k), namespace, if k.outcome.Live? then k.outcome.port else 0, k.name,
          if k.outcome.RegisterFailed? && pass.First? then "" else k.name, ResultState(k))
  }

  /** The part of the state one scan works on. */
  datatype Zone = Zone(skills: map<string, Entry>, table: Table, running: multiset<Tracked>)

  predicate ReadyAt(skills: map<string, Entry>, mount: string) {
    mount in skills && skills[mount].state.Ready?
  }

  predicate Skipped(skills: map<string, Entry>, k: Found, pass: Pass) {
    !k.eligible || (pass.Retry? && ReadyAt(skills, LookupMount(k)))
  }

  function BringUp(z: Zone, namespace: string, k: Found, pass: Pass): Zone {
    Zone(z.skills[ResultMount(k) := EntryFor(namespace, k)],
         WithRoute(z.table, RouteFor(namespace, k, pass)),
         z.running + One(EntryFor(namespace, k)))
  }

  function Step(z: Zone, namespace: string, k: Found, pass: Pass): Zone {
    if Skipped(z.skills, k, pass) then z else BringUp(z, namespace, k, pass)
  }

  /** All found skills in order. */
  function Scan(z: Zone, namespace: string, found: seq<Found>, pass: Pass): Zone
    decreases |found|
  {
    if found == [] then z
    else Step(Scan(z, namespace, found[..|found| - 1], pass), namespace, found[|found| - 1], pass)
  }

  // ---- the running sidecars that a set of entries accounts for ----

  function One(e: Entry): multiset<Tracked> {
    if e.state.Ready? then multiset{Tracked(e.namespace, e.name)} else multiset{}
  }

  ghost function Pick(skills: map<string, Entry>): (m: string)
    requires skills != map[]
    ensures m in skills
  {
    var m :| m in skills.Keys;
    m
  }

  /** One sidecar per ready entry. */
  ghost function ReadyBag(skills: map<string, Entry>): multiset<Tracked>
    decreases |skills|
  {
    if skills == map[] then multiset{}
    else
      var m := Pick(skills);
      One(skills[m]) + ReadyBag(skills - {m})
  }

  lemma {:induction false} ReadyBagWithout(skills: map<string, Entry>, m: string)
    requires m in skills
    ensures ReadyBag(skills) == ReadyBag(skills - {m}) + One(skills[m])
    decreases |skills|
  {
    var p := Pick(skills);
    if p != m {
      var both := skills - {m, p};
      assert skills - {p} - {m} == both && skills - {m} - {p} == both;
      ReadyBagWithout(skills - {p}, m);
      ReadyBagWithout(skills - {m}, p);
      assert ReadyBag(skills - {p}) == ReadyBag(both) + One(skills[m]);
      assert ReadyBag(skills - {m}) == ReadyBag(both) + One(skills[p]);
    }
  }

  lemma {:induction false} ReadyBagUpdate(skills: map<string, Entry>, m: string, e: Entry)
    ensures ReadyBag(skills[m := e]) == ReadyBag(skills - {m}) + One(e)
    ensures m !in skills ==> ReadyBag(skills - {m}) == ReadyBag(skills)
    ensures m in skills ==> ReadyBag(skills) == ReadyBag(skills - {m}) + One(skills[m])
  {
    var after := skills[m := e];
    assert after - {m} == skills - {m};
    ReadyBagWithout(after, m);
    if m in skills {
      ReadyBagWithout(skills, m);
    } else {
      assert skills - {m} == skills;
    }
  }

  lemma {:induction false} ReadyBagNamespace(skills: map<string, Entry>, namespace: string, t: Tracked)
    requires forall m <- skills :: skills[m].namespace == namespace
    requires t.namespace != namespace
    ensures ReadyBag(skills)[t] == 0
    decreases |skills|
  {
    if skills != map[] {
      ReadyBagNamespace(skills - {Pick(skills)}, namespace, t);
    }
  }

  // ---- one scan ----

  /**
   * What the environment supplies: names and mounts are path segments, and
   * mounts belong to one skill (own), a skill's own name included.
   */
  ghost predicate Legal(own: string -> string, k: Found) {
    && Segment(k.name) && Segment(LookupMount(k))
    && own(k.name) == k.name && own(LookupMount(k)) == k.name
    && (k.outcome.Live? ==> k.outcome.port > 0)
  }

  /** Discovery returns each name once; the global registry may repeat one. */
  predicate OncePerName(found: seq<Found>) {
    forall i, j :: 0 <= i < j < |found| ==> found[i].name != found[j].name
  }

  ghost predicate LegalScan(own: string -> string, found: seq<Found>, pass: Pass) {
    && (forall k <- found :: Legal(own, k))
    && (if pass.GlobalLayer? then forall k <- found :: !k.outcome.RegisterFailed? else OncePerName(found))
  }

  predicate Fits(r: Route, e: Entry) {
    && r.mount == e.mount && r.namespace == e.namespace && r.skill == e.name && r.state == e.state
    && r.port >= 0 && (r.port > 0 <==> e.state.Ready?)
    && (r.owner == "" || r.owner == e.name)
  }

  ghost predicate EntriesOk(own: string -> string, namespace: string, skills: map<string, Entry>) {
    forall m <- skills ::
      skills[m].mount == m && skills[m].namespace == namespace && own(m) == skills[m].name && Segment(m)
  }

  /** In this namespace the table holds exactly the entries' routes. */
  ghost predicate RoutesOk(namespace: string, skills: map<string, Entry>, table: Table) {
    && (forall m: string :: Key(namespace, m) in table <==> m in skills)
    && (forall m <- skills :: Fits(table[Key(namespace, m)], skills[m]))
  }

  /** Running sidecars beyond those the ready entries account for. */
  ghost function Excess(skills: map<string, Entry>, running: multiset<Tracked>, t: Tracked): int {
    running[t] as int - ReadyBag(skills)[t] as int
  }

  /** The sidecar that loses its entry when k is brought up: the one serving where k is installed. */
  function LostBy(z: Zone, k: Found, pass: Pass): multiset<Tracked> {
    if !Skipped(z.skills, k, pass) && ReadyAt(z.skills, ResultMount(k)) then One(z.skills[ResultMount(k)])
    else multiset{}
  }

  /** All sidecars a scan loses. */
  function Lost(z: Zone, namespace: string, found: seq<Found>, pass: Pass): multiset<Tracked>
    decreases |found|
  {
    if found == [] then multiset{}
    else
      var (front, last) := (found[..|found| - 1], found[|found| - 1]);
      Lost(z, namespace, front, pass) + LostBy(Scan(z, namespace, front, pass), last, pass)
  }

  lemma {:induction false} BringUpKeeps(own: string -> string, z: Zone, namespace: string, k: Found, pass: Pass)
    requires namespace != "" && Legal(own, k) && (pass.First? ==> ResultMount(k) !in z.skills)
    requires EntriesOk(own, namespace, z.skills) && RoutesOk(namespace, z.skills, z.table)
    ensures var z' := BringUp(z, namespace, k, pass);
            && EntriesOk(own, namespace, z'.skills) && RoutesOk(namespace, z'.skills, z'.table)
            && (forall q: Key :: q.namespace != namespace ==> (q in z'.table <==> q in z.table))
            && (forall q <- z.table :: q.namespace != namespace ==> z'.table[q] == z.table[q])
  {}

  lemma {:induction false} StepCounts(z: Zone, namespace: string, k: Found, pass: Pass, t: Tracked)
    ensures var z' := Step(z, namespace, k, pass);
            Excess(z'.skills, z'.running, t) == Excess(z.skills, z.running, t) + LostBy(z, k, pass)[t] as int
  {
    ReadyBagUpdate(z.skills, ResultMount(k), EntryFor(namespace, k));
  }

  ghost predicate NamedIn(own: string -> string, m: string, found: seq<Found>) {
    exists k <- found :: own(m) == k.name
  }

  /** A scan touches only mounts of the skills it found. */
  lemma {:induction false} ScanTouches(own: string -> string, z: Zone, namespace: string, found: seq<Found>, pass: Pass)
    requires LegalScan(own, found, pass)
    ensures var z' := Scan(z, namespace, found, pass);
            forall m: string :: !NamedIn(own, m, found) ==>
              (m in z'.skills <==> m in z.skills) && (m in z.skills ==> z'.skills[m] == z.skills[m])
    decreases |found|
  {
    if found != [] {
      var front, last := found[..|found| - 1], found[|found| - 1];
      assert last in found && forall k <- front :: k in found;
      ScanTouches(own, z, namespace, front, pass);
    }
  }

  lemma {:induction false} ScanKeeps(own: string -> string, z: Zone, namespace: string, found: seq<Found>, pass: Pass)
    requires namespace != "" && LegalScan(own, found, pass) && (pass.First? ==> z.skills == map[])
    requires EntriesOk(own, namespace, z.skills) && RoutesOk(namespace, z.skills, z.table)
    ensures var z' := Scan(z, namespace, found, pass);
            && EntriesOk(own, namespace, z'.skills) && RoutesOk(namespace, z'.skills, z'.table)
            && (forall q: Key :: q.namespace != namespace ==> (q in z'.table <==> q in z.table))
            && (forall q <- z.table :: q.namespace != namespace ==> z'.table[q] == z.table[q])
    decreases |found|
  {
    if found != [] {
      var front, last := found[..|found| - 1], found[|found| - 1];
      assert last in found && forall k <- front :: k in found;
      ScanKeeps(own, z, namespace, front, pass);
      ScanTouches(own, z, namespace, front, pass);
      var mid := Scan(z, namespace, front, pass);
      if !Skipped(mid.skills, last, pass) {
        BringUpKeeps(own, mid, namespace, last, pass);
      }
    }
  }

  /** A scan changes the surplus of running sidecars by exactly those it loses. */
  lemma {:induction false} ScanCounts(z: Zone, namespace: string, found: seq<Found>, pass: Pass, t: Tracked)
    ensures var z' := Scan(z, namespace, found, pass);
            Excess(z'.skills, z'.running, t)
            == Excess(z.skills, z.running, t) + Lost(z, namespace, found, pass)[t] as int
    decreases |found|
  {
    if found != [] {
      var front, last := found[..|found| - 1], found[|found| - 1];
      ScanCounts(z, namespace, front, pass, t);
      StepCounts(Scan(z, namespace, front, pass), namespace, last, pass, t);
    }
  }

  /** It starts sidecars of its own namespace only, and loses only those. */
  lemma {:induction false} ScanLocal(z: Zone, namespace: string, found: seq<Found>, pass: Pass, t: Tracked)
    requires t.namespace != namespace && forall m <- z.skills :: z.skills[m].namespace == namespace
    ensures var z' := Scan(z, namespace, found, pass);
            && z'.running[t] == z.running[t] && Lost(z, namespace, found, pass)[t] == 0
            && forall m <- z'.skills :: z'.skills[m].namespace == namespace
    decreases |found|
  {
    if found != [] {
      ScanLocal(z, namespace, found[..|found| - 1], pass, t);
    }
  }

  // ---- what a scan shows of each skill ----

  /** Where a skill is mounted: under its own name when it could not be registered or read, else where it says. */
  function Lands(k: Found): string {
    match k.outcome
    case RegisterFailed(_) => k.name
    case MetaBroken => k.name
    case Stalled(mount, _) => mount
    case Live(mount, _) => mount
  }

  /** The entry and the namespaced route of a skill. */
  predicate ShownAs(
      skills: map<string, Entry>, table: Table, namespace: string, name: string, mount: string,
      state: RouteState, port: int, owner: string) {
    && mount in skills && skills[mount] == Entry(name, mount, namespace, state)
    && Key(namespace, mount) in table && table[Key(namespace, mount)] == Route(mount, namespace, port, name, owner, state)
  }

  /**
   * The skill is on show with what became of it: live with its port, waiting for
   * credentials, or broken. Only what could not be registered in a first
   * activation has a route without an owner.
   */
  predicate Shown(skills: map<string, Entry>, table: Table, namespace: string, k: Found, pass: Pass) {
    match k.outcome
    case RegisterFailed(_) =>
      ShownAs(skills, table, namespace, k.name, k.name, Broken, 0, if pass.First? then "" else k.name)
    case MetaBroken => ShownAs(skills, table, namespace, k.name, k.name, Broken, 0, k.name)
    case Stalled(mount, pending) =>
      ShownAs(skills, table, namespace, k.name, mount, if pending then PendingCredentials else Broken, 0, k.name)
    case Live(mount, port) => ShownAs(skills, table, namespace, k.name, mount, Ready, port, k.name)
  }

  predicate EntryReady(skills: map<string, Entry>, mount: string) {
    mount in skills && skills[mount].state == Ready
  }

  /** Something serves at the mount that the omac.yaml of the skill asks for. */
  predicate Serving(skills: map<string, Entry>, k: Found) {
    match k.outcome
    case RegisterFailed(declared) => EntryReady(skills, declared)
    case MetaBroken => EntryReady(skills, k.name)
    case Stalled(mount, _) => EntryReady(skills, mount)
    case Live(mount, _) => EntryReady(skills, mount)
  }

  /** Entry and namespaced route at a mount are as before. */
  predicate SameAt(z: Zone, z': Zone, namespace: string, m: string) {
    var q := Key(namespace, m);
    && (m in z'.skills <==> m in z.skills) && (m in z.skills ==> z'.skills[m] == z.skills[m])
    && (q in z'.table <==> q in z.table) && (q in z.table ==> z'.table[q] == z.table[q])
  }

  /** At the mounts of a skill nothing differs, but at one of them perhaps. */
  ghost predicate SameBut(own: string -> string, z: Zone, z': Zone, namespace: string, name: string, mount: Option<string>) {
    forall m: string :: own(m) == name && mount != Some(m) ==> SameAt(z, z', namespace, m)
  }

  lemma StepLeaves(own: string -> string, z: Zone, namespace: string, k: Found, pass: Pass, n: string)
    requires Legal(own, k) && n != k.name
    ensures SameBut(own, z, Step(z, namespace, k, pass), namespace, n, None)
  {}

  lemma {:induction false} ScanLeaves(
      own: string -> string, z: Zone, namespace: string, found: seq<Found>, pass: Pass, n: string)
    requires (forall k <- found :: Legal(own, k) && k.name != n)
    ensures SameBut(own, z, Scan(z, namespace, found, pass), namespace, n, None)
    decreases |found|
  {
    hide Step, Legal;
    if found != [] {
      var front, last := found[..|found| - 1], found[|found| - 1];
      assert last in found && forall k <- front :: k in found;
      ScanLeaves(own, z, namespace, front, pass, n);
      StepLeaves(own, Scan(z, namespace, front, pass), namespace, last, pass, n);
    }
  }

  /** One skill brought up, or left alone because it is not of this layer or serves already. */
  lemma StepShows(own: string -> string, z: Zone, namespace: string, k: Found, pass: Pass)
    requires namespace != "" && Legal(own, k) && (pass.First? ==> Lands(k) !in z.skills)
    requires EntriesOk(own, namespace, z.skills) && RoutesOk(namespace, z.skills, z.table)
    ensures var z' := Step(z, namespace, k, pass);
            if !k.eligible || (pass.Retry? && Serving(z.skills, k)) then z' == z
            else Shown(z'.skills, z'.table, namespace, k, pass)
                 && SameBut(own, z, z', namespace, k.name, Some(Lands(k)))
  {
    hide EntriesOk, RoutesOk, Segment;
    assert Skipped(z.skills, k, pass) <==> !k.eligible || (pass.Retry? && Serving(z.skills, k));
    NotRefused(own, z, namespace, k, pass);
  }

  /** The mount of a skill has no route, or one of its own. */
  lemma NotRefused(own: string -> string, z: Zone, namespace: string, k: Found, pass: Pass)
    requires namespace != "" && Legal(own, k) && (pass.First? ==> Lands(k) !in z.skills)
    requires EntriesOk(own, namespace, z.skills) && RoutesOk(namespace, z.skills, z.table)
    ensures !Refused(z.table, RouteFor(namespace, k, pass))
  {
    var m := ResultMount(k);
    assert Key(namespace, m) in z.table ==> Fits(z.table[Key(namespace, m)], z.skills[m]);
  }

  lemma ShownStays(z: Zone, z': Zone, own: string -> string, namespace: string, k: Found, pass: Pass)
    requires Shown(z.skills, z.table, namespace, k, pass) && Legal(own, k)
    requires SameBut(own, z, z', namespace, k.name, None)
    ensures Shown(z'.skills, z'.table, namespace, k, pass)
  {
    assert own(Lands(k)) == k.name;
    assert SameAt(z, z', namespace, Lands(k));
  }

  lemma ServingStays(z: Zone, z': Zone, own: string -> string, namespace: string, k: Found)
    requires Legal(own, k) && SameBut(own, z, z', namespace, k.name, None)
    ensures Serving(z'.skills, k) <==> Serving(z.skills, k)
  {
    var declared := LookupMount(k);
    assert own(declared) == k.name && SameAt(z, z', namespace, declared);
  }

  /**
   * After a first activation or a re-discovery every skill that was found shows
   * what became of it, unless it is not of this layer or was serving already;
   * then it is as before.
   */
  lemma {:induction false} ScanShows(
      own: string -> string, z: Zone, namespace: string, found: seq<Found>, pass: Pass, i: nat)
    requires namespace != "" && LegalScan(own, found, pass) && !pass.GlobalLayer? && i < |found|
    requires (pass.First? ==> z.skills == map[])
    requires EntriesOk(own, namespace, z.skills) && RoutesOk(namespace, z.skills, z.table)
    ensures var k, z' := found[i], Scan(z, namespace, found, pass);
            if !k.eligible || (pass.Retry? && Serving(z.skills, k)) then SameBut(own, z, z', namespace, k.name, None)
            else Shown(z'.skills, z'.table, namespace, k, pass)
                 && SameBut(own, z, z', namespace, k.name, Some(Lands(k)))
    decreases |found|
  {
    hide Shown, Serving, EntriesOk, RoutesOk, Legal, Step, SameBut;
    var n := |found| - 1;
    var front, last := found[..n], found[n];
    var mid := Scan(z, namespace, front, pass);
    assert last in found && forall k <- front :: k in found;
    ScanKeeps(own, z, namespace, front, pass);
    SameZone(own, z, namespace, found[i].name);
    if i == n {
      NotBefore(found);
      ScanLeaves(own, z, namespace, front, pass, last.name);
      ServingStays(z, mid, own, namespace, last);
      if pass.First? {
        FreshMount(own, z, mid, namespace, last);
      }
      StepShows(own, mid, namespace, last, pass);
      SameZone(own, mid, namespace, last.name);
    } else {
      assert found[i].name != last.name && front[i] == found[i];
      ScanShows(own, z, namespace, front, pass, i);
      StepLeaves(own, mid, namespace, last, pass, found[i].name);
      if found[i].eligible && !(pass.Retry? && Serving(z.skills, found[i])) {
        ShownStays(mid, Step(mid, namespace, last, pass), own, namespace, found[i], pass);
      }
    }
    SameButAfter(own, z, mid, Step(mid, namespace, last, pass), namespace, found[i].name, None);
    SameButAfter(own, z, mid, Step(mid, namespace, last, pass), namespace, found[i].name, Some(Lands(found[i])));
  }

  lemma SameButAfter(own: string -> string, a: Zone, b: Zone, c: Zone, namespace: string, n: string, mount: Option<string>)
    ensures SameBut(own, a, b, namespace, n, mount) && SameBut(own, b, c, namespace, n, None)
            ==> SameBut(own, a, c, namespace, n, mount)
    ensures SameBut(own, a, b, namespace, n, None) && SameBut(own, b, c, namespace, n, mount)
            ==> SameBut(own, a, c, namespace, n, mount)
  {}

  lemma SameZone(own: string -> string, z: Zone, namespace: string, n: string)
    ensures SameBut(own, z, z, namespace, n, None)
  {}

  lemma NotBefore(found: seq<Found>)
    requires found != [] && OncePerName(found)
    ensures forall k <- found[..|found| - 1] :: k.name != found[|found| - 1].name
  {}

  lemma FreshMount(own: string -> string, z: Zone, mid: Zone, namespace: string, k: Found)
    requires Legal(own, k) && z.skills == map[] && SameBut(own, z, mid, namespace, k.name, None)
    ensures Lands(k) !in mid.skills
  {
    assert own(Lands(k)) == k.name && SameAt(z, mid, namespace, Lands(k));
  }

  /** The global layer shows, at each mount, the last skill that was brought up there. */
  lemma {:induction false} LayerShows(own: string -> string, z: Zone, namespace: string, found: seq<Found>, i: nat)
    requires namespace != "" && LegalScan(own, found, GlobalLayer) && i < |found| && found[i].eligible
    requires EntriesOk(own, namespace, z.skills) && RoutesOk(namespace, z.skills, z.table)
    requires forall j | i < j < |found| && found[j].eligible :: Lands(found[j]) != Lands(found[i])
    ensures var z' := Scan(z, namespace, found, GlobalLayer);
            Shown(z'.skills, z'.table, namespace, found[i], GlobalLayer)
    decreases |found|
  {
    hide Shown, EntriesOk, RoutesOk, Step;
    var n := |found| - 1;
    var front, last := found[..n], found[n];
    var mid := Scan(z, namespace, front, GlobalLayer);
    assert last in found && forall k <- front :: k in found;
    ScanKeeps(own, z, namespace, front, GlobalLayer);
    StepShows(own, mid, namespace, last, GlobalLayer);
    if i < n {
      assert front[i] == found[i];
      LayerShows(own, z, namespace, front, i);
      ShownBeside(own, mid, namespace, last, found[i]);
    }
  }

  lemma ShownBeside(own: string -> string, z: Zone, namespace: string, last: Found, k: Found)
    requires Shown(z.skills, z.table, namespace, k, GlobalLayer) && (last.eligible ==> Lands(last) != Lands(k))
    ensures var z' := Step(z, namespace, last, GlobalLayer); Shown(z'.skills, z'.table, namespace, k, GlobalLayer)
  {}

  /** Whatever is mounted after a scan that started with nothing was found by it. */
  lemma {:induction false} OnlyFound(z: Zone, namespace: string, found: seq<Found>, pass: Pass, m: string)
    requires z.skills == map[] && m in Scan(z, namespace, found, pass).skills
    ensures exists k <- found :: k.eligible && Lands(k) == m
    decreases |found|
  {
    var n := |found| - 1;
    assert found[n] in found && forall k <- found[..n] :: k in found;
    if m in Scan(z, namespace, found[..n], pass).skills {
      OnlyFound(z, namespace, found[..n], pass, m);
    }
  }

  // ---- when nothing is lost ----

  /**
   * The one case a re-discovery loses a sidecar: the skill is serving under its
   * own name, its omac.yaml now asks for a mount where nothing is serving, and
   * registering it fails.
   */
  predicate Displaces(skills: map<string, Entry>, k: Found) {
    k.eligible && k.outcome.RegisterFailed? && ReadyAt(skills, k.name) && !ReadyAt(skills, k.outcome.declared)
  }

  /** With distinct names an earlier skill does not change what a later one displaces. */
  lemma {:induction false} SameLoss(own: string -> string, z: Zone, namespace: string, front: seq<Found>, k: Found, pass: Pass)
    requires LegalScan(own, front + [k], pass) && !pass.GlobalLayer?
    ensures LostBy(Scan(z, namespace, front, pass), k, pass) == LostBy(z, k, pass)
  {
    hide Segment, Scan;
    var found := front + [k];
    assert forall i :: 0 <= i < |front| ==> found[i] == front[i];
    assert found[|front|] == k && k in found && forall x <- front :: x in found;
    assert LegalScan(own, front, pass);
    assert forall x <- front :: x.name != k.name;
    ScanTouches(own, z, namespace, front, pass);
    assert own(LookupMount(k)) == k.name && own(ResultMount(k)) == k.name;
    SameLossAt(own, z, Scan(z, namespace, front, pass), front, k, pass);
  }

  lemma SameLossAt(own: string -> string, z: Zone, mid: Zone, front: seq<Found>, k: Found, pass: Pass)
    requires own(LookupMount(k)) == k.name && own(ResultMount(k)) == k.name && forall x <- front :: x.name != k.name
    requires forall m: string :: !NamedIn(own, m, front) ==>
               (m in mid.skills <==> m in z.skills) && (m in z.skills ==> mid.skills[m] == z.skills[m])
    ensures LostBy(mid, k, pass) == LostBy(z, k, pass)
  {
    assert !NamedIn(own, LookupMount(k), front) && !NamedIn(own, ResultMount(k), front);
  }

  lemma {:induction false} DistinctLosses(own: string -> string, z: Zone, namespace: string, found: seq<Found>, pass: Pass)
    requires LegalScan(own, found, pass) && !pass.GlobalLayer?
    ensures Lost(z, namespace, found, pass) == multiset{} <==> forall k <- found :: LostBy(z, k, pass) == multiset{}
    decreases |found|
  {
    if found != [] {
      var front, last := found[..|found| - 1], found[|found| - 1];
      assert found == front + [last];
      DistinctLosses(own, z, namespace, front, pass);
      SameLoss(own, z, namespace, front, last, pass);
      NoneOfBoth(Lost(z, namespace, front, pass), LostBy(z, last, pass));
      assert forall k :: k in found <==> k in front || k == last;
    }
  }

  lemma NoneOfBoth(a: multiset<Tracked>, b: multiset<Tracked>)
    ensures a + b == multiset{} <==> a == multiset{} && b == multiset{}
  {}

  /** A re-discovery accounts for every sidecar exactly when no found skill is displaced. */
  lemma {:induction false} RetryLosesNothing(own: string -> string, z: Zone, namespace: string, found: seq<Found>)
    requires LegalScan(own, found, Retry) && EntriesOk(own, namespace, z.skills)
    ensures Lost(z, namespace, found, Retry) == multiset{} <==> forall k <- found :: !Displaces(z.skills, k)
  {
    DistinctLosses(own, z, namespace, found, Retry);
    forall k <- found
      ensures LostBy(z, k, Retry) == multiset{} <==> !Displaces(z.skills, k)
    {
      LostByReady(z, k, Retry);
    }
  }

  /** A first activation never loses one. */
  lemma {:induction false} FirstLosesNothing(own: string -> string, z: Zone, namespace: string, found: seq<Found>)
    requires LegalScan(own, found, First) && z.skills == map[]
    ensures Lost(z, namespace, found, First) == multiset{}
  {
    DistinctLosses(own, z, namespace, found, First);
  }

  predicate LiveIn(found: seq<Found>, m: string) {
    exists k <- found :: k.eligible && k.outcome.Live? && ResultMount(k) == m
  }

  /** Entry j of the global registry is mounted where an earlier one went live. */
  predicate Repeats(found: seq<Found>, j: nat) {
    j < |found| && found[j].eligible && LiveIn(found[..j], ResultMount(found[j]))
  }

  lemma LiveInSnoc(front: seq<Found>, last: Found, m: string)
    ensures LiveIn(front + [last], m)
       <==> LiveIn(front, m) || (last.eligible && last.outcome.Live? && ResultMount(last) == m)
  {}

  lemma {:induction false} LayerReady(z: Zone, namespace: string, found: seq<Found>, m: string)
    requires z.skills == map[]
    ensures ReadyAt(Scan(z, namespace, found, GlobalLayer).skills, m) ==> LiveIn(found, m)
    ensures LiveIn(found, m) && Lost(z, namespace, found, GlobalLayer) == multiset{} ==>
              ReadyAt(Scan(z, namespace, found, GlobalLayer).skills, m)
    decreases |found|
  {
    if found != [] {
      var front, last := found[..|found| - 1], found[|found| - 1];
      assert found == front + [last];
      LayerReady(z, namespace, front, m);
      LiveInSnoc(front, last, m);
      var mid := Scan(z, namespace, front, GlobalLayer);
      NoneOfBoth(Lost(z, namespace, front, GlobalLayer), LostBy(mid, last, GlobalLayer));
      LostByReady(mid, last, GlobalLayer);
      LayerStep(mid, namespace, last, m);
    }
  }

  lemma RepeatsSnoc(found: seq<Found>)
    requires found != []
    ensures var n := |found| - 1;
            (exists j: nat :: Repeats(found, j)) <==> (exists j: nat :: Repeats(found[..n], j)) || Repeats(found, n)
  {
    var n := |found| - 1;
    forall j: nat | j < n
      ensures Repeats(found[..n], j) <==> Repeats(found, j)
    {
      assert found[..n][..j] == found[..j];
    }
    if j: nat :| Repeats(found[..n], j) {
      assert Repeats(found, j);
    }
    if j: nat :| Repeats(found, j) {
      assert j == n || Repeats(found[..n], j);
    }
  }

  lemma LayerStep(z: Zone, namespace: string, k: Found, m: string)
    ensures ReadyAt(Step(z, namespace, k, GlobalLayer).skills, m)
       <==> if k.eligible && ResultMount(k) == m then k.outcome.Live? else ReadyAt(z.skills, m)
  {}

  lemma LostByReady(z: Zone, k: Found, pass: Pass)
    ensures LostBy(z, k, pass) == multiset{} <==> Skipped(z.skills, k, pass) || !ReadyAt(z.skills, ResultMount(k))
  {}

  /** Loading the global layer accounts for every sidecar exactly when no live mount is repeated. */
  lemma {:induction false} LayerLosesNothing(z: Zone, namespace: string, found: seq<Found>)
    requires z.skills == map[]
    ensures Lost(z, namespace, found, GlobalLayer) == multiset{} <==> !exists j: nat :: Repeats(found, j)
    decreases |found|
  {
    if found != [] {
      var n := |found| - 1;
      var front, last := found[..n], found[n];
      var mid := Scan(z, namespace, front, GlobalLayer);
      LayerLosesNothing(z, namespace, front);
      LayerReady(z, namespace, front, ResultMount(last));
      NoneOfBoth(Lost(z, namespace, front, GlobalLayer), LostBy(mid, last, GlobalLayer));
      LostByReady(mid, last, GlobalLayer);
      RepeatsSnoc(found);
    }
  }
}
