/**
 * What omac serve promises its clients, over every run of control operations
 * (internal/cli/serve.go): nothing stays behind, directories do not disturb
 * each other, flat aliases mirror the live routes, tokens are handed out once.
 */
module ServeProperties {
  import opened Wrappers
  import opened Routing
  import opened ServeScan
  import opened ServeModel

  // ---- deactivation ----

  /**
   * Deactivating a directory leaves none of its routes, flat or namespaced, and
   * of its sidecars only those lost earlier in the run.
   */
  lemma {:induction false} DeactivateLeavesNothing(own: string -> string, ops: seq<Op>, dir: string)
    requires LegalRun(own, ops) && dir in Run(ops).dirs
    ensures var token := Run(ops).dirs[dir].token;
            var after := DoDeactivate(Run(ops), dir);
            && dir !in after.dirs && token !in after.byToken
            && (forall m: string :: Key(token, m) !in after.table)
            && (forall m <- after.aliases :: exists d <- after.dirs :: m in after.dirs[d].skills)
            && (forall name: string :: after.running[Tracked(token, name)] == LostInRun(ops)[Tracked(token, name)])
  {
    var s := Run(ops);
    var token := s.dirs[dir].token;
    var after := DoDeactivate(s, dir);
    RunConsistent(own, ops);
    DeactivateKeeps(own, s, dir);
    RefreshSkills(Close(s, dir));
    CloseSkills(s, dir);
    assert SkillsAt(after, token) == map[] && RoutesOk(token, SkillsAt(after, token), after.table);
    forall name: string
      ensures after.running[Tracked(token, name)] == LostInRun(ops)[Tracked(token, name)]
    {
      RunCounts(own, ops, Tracked(token, name));
    }
    if d :| Single(ClearAliases(Close(s, dir)), d) {
      assert d in after.dirs;
    }
  }

  // ---- isolation ----

  /** Nothing in namespace n differs between two states. */
  ghost predicate Untouched(n: string, s: State, r: State) {
    && SkillsAt(r, n) == SkillsAt(s, n)
    && (forall m: string :: (Key(n, m) in r.table <==> Key(n, m) in s.table)
                         && (Key(n, m) in s.table ==> r.table[Key(n, m)] == s.table[Key(n, m)]))
    && (forall name: string :: r.running[Tracked(n, name)] == s.running[Tracked(n, name)])
  }

  lemma RefreshIsolated(s: State, n: string)
    requires n != ""
    ensures Untouched(n, s, RefreshAliases(s))
  {}

  lemma AnsweredIsolated(s: State, dir: string, n: string)
    requires dir in s.dirs
    ensures Untouched(n, s, Answered(s, dir))
  {}

  lemma UntouchedTwice(n: string, s: State, mid: State, r: State)
    requires Untouched(n, s, mid) && Untouched(n, mid, r)
    ensures Untouched(n, s, r)
  {}

  lemma DeactivateIsolated(own: string -> string, s: State, dir: string, n: string)
    requires Consistent(own, s) && n != "" && (dir in s.dirs ==> n != s.dirs[dir].token)
    ensures Untouched(n, s, DoDeactivate(s, dir))
  {
    if dir in s.dirs {
      var d, c := s.dirs[dir], Close(s, dir);
      CloseSkills(s, dir);
      assert EntriesOk(own, d.token, SkillsAt(s, d.token));
      forall name: string
        ensures c.running[Tracked(n, name)] == s.running[Tracked(n, name)]
      {
        ReadyBagNamespace(d.skills, d.token, Tracked(n, name));
      }
      assert Untouched(n, s, c);
      RefreshIsolated(c, n);
      UntouchedTwice(n, s, c, RefreshAliases(c));
    }
  }

  lemma {:induction false} SettleIsolated(own: string -> string, s: State, dir: string, d: Dir, found: seq<Found>, pass: Pass, n: string)
    requires Consistent(own, s) && dir in s.dirs && d.token == s.dirs[dir].token && n != d.token
    requires pass != GlobalLayer && LegalScan(own, found, pass) && (pass.First? ==> s.dirs[dir].skills == map[])
    ensures Untouched(n, s, Settle(s, dir, d, Scan(Zone(s.dirs[dir].skills, s.table, s.running), d.token, found, pass)))
  {
    var zone := Zone(s.dirs[dir].skills, s.table, s.running);
    assert EntriesOk(own, d.token, SkillsAt(s, d.token)) && RoutesOk(d.token, SkillsAt(s, d.token), s.table);
    assert SkillsAt(s, d.token) == zone.skills;
    ScanKeeps(own, zone, d.token, found, pass);
    SettleSkills(s, dir, d, Scan(zone, d.token, found, pass));
    forall name: string {
      ScanLocal(zone, d.token, found, pass, Tracked(n, name));
    }
  }

  lemma RescanIsolated(own: string -> string, s: State, dir: string, found: seq<Found>, n: string)
    requires Consistent(own, s) && dir in s.dirs && LegalScan(own, found, Retry) && n != s.dirs[dir].token
    ensures Untouched(n, s, Rescan(s, dir, found))
  {
    var d := s.dirs[dir];
    var z := Scan(Zone(d.skills, s.table, s.running), d.token, found, Retry);
    SettleIsolated(own, s, dir, d.(phase := PhaseOf(AllReady(z.skills))), found, Retry, n);
  }

  lemma FirstScanIsolated(own: string -> string, s: State, dir: string, found: seq<Found>, n: string)
    requires Consistent(own, s) && dir in s.dirs && s.dirs[dir].skills == map[]
    requires LegalScan(own, found, First) && n != s.dirs[dir].token
    ensures Untouched(n, s, FirstScan(s, dir, found))
  {
    SettleIsolated(own, s, dir, s.dirs[dir].(phase := PhaseOf(AllLive(found))), found, First, n);
  }

  lemma OpenIsolated(own: string -> string, s: State, dir: string, token: string, n: string)
    requires Consistent(own, s) && dir !in s.dirs && token !in s.byToken && n != "" && n != token
    ensures Untouched(n, s, Open(s, dir, token))
  {}

  lemma ActivateIsolated(own: string -> string, s: State, dir: string, q: Request, n: string)
    requires Consistent(own, s) && LegalRequest(own, s, dir, q)
    requires n != "" && n != if dir in s.dirs then s.dirs[dir].token else q.token
    ensures Untouched(n, s, DoActivate(s, dir, q))
  {
    if dir in s.dirs {
      if q.scan.Some? {
        var r := Rescan(s, dir, q.scan.value);
        RescanIsolated(own, s, dir, q.scan.value, n);
        AnsweredIsolated(r, dir, n);
        UntouchedTwice(n, s, r, Answered(r, dir));
      } else {
        AnsweredIsolated(s, dir, n);
      }
    } else if q.isDir && q.allowed {
      OpenKeeps(own, s, dir, q.token);
      OpenIsolated(own, s, dir, q.token, n);
      var shown := Open(s, dir, q.token);
      if q.scan.Some? {
        var scanned := FirstScan(shown, dir, q.scan.value);
        var mirrored := RefreshAliases(scanned);
        FirstScanIsolated(own, shown, dir, q.scan.value, n);
        RefreshIsolated(scanned, n);
        AnsweredIsolated(mirrored, dir, n);
        UntouchedTwice(n, s, shown, scanned);
        UntouchedTwice(n, s, scanned, mirrored);
        UntouchedTwice(n, s, mirrored, Answered(mirrored, dir));
      }
    }
  }

  lemma BareGlobalIsolated(own: string -> string, s: State, n: string)
    requires Consistent(own, s) && n != "" && n != GLOBAL_NAMESPACE
    ensures Untouched(n, s, BareGlobal(s))
  {
    assert EntriesOk(own, GLOBAL_NAMESPACE, SkillsAt(s, GLOBAL_NAMESPACE));
    forall name: string
      ensures BareGlobal(s).running[Tracked(n, name)] == s.running[Tracked(n, name)]
    {
      ReadyBagNamespace(s.global, GLOBAL_NAMESPACE, Tracked(n, name));
    }
  }

  lemma LoadGlobalIsolated(own: string -> string, s: State, found: seq<Found>, n: string)
    requires LegalScan(own, found, GlobalLayer) && n != GLOBAL_NAMESPACE
    requires s.global == map[] && RoutesOk(GLOBAL_NAMESPACE, s.global, s.table)
    ensures Untouched(n, s, LoadGlobal(s, found))
  {
    var zone := Zone(map[], s.table, s.running);
    ScanKeeps(own, zone, GLOBAL_NAMESPACE, found, GlobalLayer);
    forall name: string {
      ScanLocal(zone, GLOBAL_NAMESPACE, found, GlobalLayer, Tracked(n, name));
    }
  }

  lemma ReloadGlobalIsolated(own: string -> string, s: State, scan: Option<seq<Found>>, n: string)
    requires Consistent(own, s) && (scan.Some? ==> LegalScan(own, scan.value, GlobalLayer))
    requires n != "" && n != GLOBAL_NAMESPACE
    ensures Untouched(n, s, DoReloadGlobal(s, scan))
  {
    var b := BareGlobal(s);
    BareGlobalIsolated(own, s, n);
    if scan.Some? {
      BareGlobalKeeps(own, s);
      assert RoutesOk(GLOBAL_NAMESPACE, SkillsAt(b, GLOBAL_NAMESPACE), b.table);
      LoadGlobalIsolated(own, b, scan.value, n);
      UntouchedTwice(n, s, b, DoReloadGlobal(s, scan));
    }
  }

  /** The namespaces an operation may work in. */
  ghost predicate Concerns(s: State, op: Op, n: string) {
    match op
    case Activate(dir, q) => n == if dir in s.dirs then s.dirs[dir].token else q.token
    case Deactivate(dir) => dir in s.dirs && n == s.dirs[dir].token
    case Reload(dir, q) => n == q.token || (dir in s.dirs && n == s.dirs[dir].token)
    case ReloadGlobal(_) => n == GLOBAL_NAMESPACE
  }

  /** No operation touches the skills, routes or sidecars of another directory or layer. */
  lemma Isolation(own: string -> string, s: State, op: Op, n: string)
    requires Consistent(own, s) && LegalOp(own, s, op) && n != "" && !Concerns(s, op, n)
    ensures Untouched(n, s, Do(s, op))
  {
    match op
    case Activate(dir, q) => ActivateIsolated(own, s, dir, q, n);
    case Deactivate(dir) => DeactivateIsolated(own, s, dir, n);
    case Reload(dir, q) =>
      DeactivateIsolated(own, s, dir, n);
      DeactivateKeeps(own, s, dir);
      ActivateIsolated(own, DoDeactivate(s, dir), dir, q, n);
    case ReloadGlobal(scan) => ReloadGlobalIsolated(own, s, scan, n);
  }

  // ---- flat aliases ----

  /** The alias copies the route of a ready skill of the only active directory. */
  predicate Mirror(s: State, d: string, m: string)
    requires d in s.dirs
  {
    var skills := s.dirs[d].skills;
    && ReadyAt(skills, m)
    && Key(skills[m].namespace, skills[m].mount) in s.table
    && Key("", m) in s.table && s.table[Key("", m)] == AliasRoute(skills[m], s.table)
  }

  ghost predicate AliasTrue(s: State, m: string) {
    m in s.aliases && exists d :: Single(s, d) && Mirror(s, d, m)
  }

  /** Every alias does. */
  ghost predicate Mirrors(s: State) {
    forall m <- s.aliases :: AliasTrue(s, m)
  }

  /** The operation rebuilds the aliases, or leaves none. */
  ghost predicate Refreshes(s: State, op: Op) {
    match op
    case Activate(dir, q) => dir !in s.dirs && q.isDir && q.allowed
    case Deactivate(dir) => dir in s.dirs
    case Reload(dir, q) => dir in s.dirs || (q.isDir && q.allowed)
    case ReloadGlobal(_) => false
  }

  predicate DisplacedAt(skills: map<string, Entry>, found: seq<Found>, m: string) {
    exists k <- found :: Displaces(skills, k) && k.name == m
  }

  /**
   * A re-activation puts a stub in the place of the skill that alias m mirrors,
   * and leaves the alias alone.
   */
  ghost predicate Spoils(s: State, op: Op, m: string) {
    && op.Activate? && op.dir in s.dirs && op.request.scan.Some?
    && DisplacedAt(s.dirs[op.dir].skills, op.request.scan.value, m)
  }

  /** Where a skill was serving, a re-discovery leaves it alone exactly when it does not displace it. */
  lemma {:induction false} ScanAtReady(own: string -> string, z: Zone, namespace: string, found: seq<Found>, m: string)
    requires LegalScan(own, found, Retry) && EntriesOk(own, namespace, z.skills) && ReadyAt(z.skills, m)
    ensures var z' := Scan(z, namespace, found, Retry);
            if DisplacedAt(z.skills, found, m) then !ReadyAt(z'.skills, m)
            else
              && m in z'.skills && z'.skills[m] == z.skills[m]
              && (Key(namespace, m) in z.table ==>
                    Key(namespace, m) in z'.table && z'.table[Key(namespace, m)] == z.table[Key(namespace, m)])
    decreases |found|
  {
    if found != [] {
      var front, last := found[..|found| - 1], found[|found| - 1];
      var mid := Scan(z, namespace, front, Retry);
      assert found == front + [last];
      assert last in found && forall k <- front :: k in found;
      ScanAtReady(own, z, namespace, front, m);
      if own(m) == last.name {
        OwnScanned(own, z, namespace, front, last, m);
      }
      DisplacedSnoc(own, z.skills, front, last, m);
      StepAt(mid, namespace, last, m);
    }
  }

  lemma DisplacedSnoc(own: string -> string, skills: map<string, Entry>, front: seq<Found>, last: Found, m: string)
    ensures DisplacedAt(skills, front + [last], m) <==>
            DisplacedAt(skills, front, m) || (Displaces(skills, last) && last.name == m)
  {}

  /** No earlier skill of the scan touches a mount of this one. */
  lemma {:induction false} OwnScanned(own: string -> string, z: Zone, namespace: string, front: seq<Found>, last: Found, m: string)
    requires LegalScan(own, front + [last], Retry) && own(m) == last.name
    ensures var mid := Scan(z, namespace, front, Retry);
            && !DisplacedAt(z.skills, front, m)
            && (ReadyAt(mid.skills, m) <==> ReadyAt(z.skills, m))
            && (ReadyAt(mid.skills, LookupMount(last)) <==> ReadyAt(z.skills, LookupMount(last)))
            && (Displaces(mid.skills, last) <==> Displaces(z.skills, last))
  {
    var found := front + [last];
    assert found[|front|] == last && forall i :: 0 <= i < |front| ==> found[i] == front[i];
    assert last in found && forall k <- front :: k in found;
    forall k <- front
      ensures k.name != last.name
    {
      var i :| 0 <= i < |front| && front[i] == k;
      assert found[i].name != found[|front|].name;
    }
    ScanTouches(own, z, namespace, front, Retry);
  }

  /** One skill brought up again, seen from one mount. */
  lemma StepAt(z: Zone, namespace: string, k: Found, m: string)
    ensures var z' := Step(z, namespace, k, Retry);
            if ReadyAt(z.skills, m) then
              (if Displaces(z.skills, k) && k.name == m then !ReadyAt(z'.skills, m)
               else
                 && m in z'.skills && z'.skills[m] == z.skills[m]
                 && (Key(namespace, m) in z.table ==>
                       Key(namespace, m) in z'.table && z'.table[Key(namespace, m)] == z.table[Key(namespace, m)]))
            else ResultMount(k) == m || (ReadyAt(z'.skills, m) <==> ReadyAt(z.skills, m))
  {}

  lemma RefreshMirrors(own: string -> string, s: State)
    requires InStep(own, s)
    ensures Mirrors(RefreshAliases(s))
  {
    ClearAliasesKeeps(own, s);
    var c, r := ClearAliases(s), RefreshAliases(s);
    forall m <- r.aliases
      ensures AliasTrue(r, m)
    {
      var d :| Single(c, d);
      var skills := c.dirs[d].skills;
      assert EntriesOk(own, c.dirs[d].token, SkillsAt(c, c.dirs[d].token));
      MirrorTable(c, skills, Key("", m));
      MirrorTable(c, skills, Key(skills[m].namespace, skills[m].mount));
      assert Mirror(r, d, m);
    }
  }

  /** A refresh makes every alias true, whatever was lost before. */
  lemma RefreshedMirrors(own: string -> string, s: State, op: Op)
    requires Consistent(own, s) && LegalOp(own, s, op) && Refreshes(s, op)
    ensures Mirrors(Do(s, op))
  {
    hide Mirrors, RefreshAliases, Consistent;
    match op
    case Activate(dir, q) => NewMirrors(own, s, dir, q);
    case Deactivate(dir) => DeactivateMirrors(own, s, dir);
    case Reload(dir, q) =>
      DeactivateKeeps(own, s, dir);
      if dir in s.dirs {
        DeactivateMirrors(own, s, dir);
      }
      RequestStays(own, s, dir, q);
      if q.isDir && q.allowed {
        NewMirrors(own, DoDeactivate(s, dir), dir, q);
      } else {
        assert Do(s, op) == DoDeactivate(s, dir);
      }
  }

  /** The aliases are all ready skills of the only active directory. */
  ghost predicate AliasesAll(s: State) {
    forall m: string :: m in s.aliases <==>
      exists d :: Single(s, d) && m in s.dirs[d].skills && s.dirs[d].skills[m].state == Ready
  }

  lemma RefreshAll(own: string -> string, s: State)
    requires InStep(own, s)
    ensures AliasesAll(RefreshAliases(s))
  {
    ClearAliasesKeeps(own, s);
    var c, r := ClearAliases(s), RefreshAliases(s);
    RefreshSkills(s);
    assert forall d: string :: Single(r, d) <==> Single(c, d);
    if d :| Single(c, d) {
      var n, skills := c.dirs[d].token, c.dirs[d].skills;
      assert SkillsAt(c, n) == skills;
      assert EntriesOk(own, n, SkillsAt(c, n)) && RoutesOk(n, SkillsAt(c, n), c.table);
      forall m: string
        ensures m in Mirrored(skills, c.table) <==> m in skills && skills[m].state == Ready
      {
        assert m in skills ==> Fits(c.table[Key(n, m)], skills[m]);
      }
      assert r.aliases == Mirrored(skills, c.table);
    }
  }

  lemma AnsweredAll(s: State, dir: string)
    requires AliasesAll(s) && dir in s.dirs
    ensures AliasesAll(Answered(s, dir))
  {
    var r := Answered(s, dir);
    assert r.dirs.Keys == s.dirs.Keys;
    forall d: string
      ensures Single(r, d) <==> Single(s, d)
      ensures d in s.dirs ==> r.dirs[d].skills == s.dirs[d].skills
    {}
  }

  lemma NewAll(own: string -> string, s: State, dir: string, q: Request)
    requires Consistent(own, s) && LegalRequest(own, s, dir, q) && dir !in s.dirs && q.isDir && q.allowed
    ensures AliasesAll(DoActivate(s, dir, q))
  {
    hide AliasesAll, Scan, RefreshAliases, Consistent;
    OpenKeeps(own, s, dir, q.token);
    var shown := Open(s, dir, q.token);
    if q.scan.Some? {
      var scanned := FirstScan(shown, dir, q.scan.value);
      FirstScanKeeps(own, shown, dir, q.scan.value);
      ConsistentInStep(own, scanned);
      RefreshAll(own, scanned);
      RefreshSkills(scanned);
      AnsweredAll(RefreshAliases(scanned), dir);
    } else {
      OpenedAll(s, dir, q.token);
    }
  }

  lemma ConsistentInStep(own: string -> string, s: State)
    requires Consistent(own, s)
    ensures InStep(own, s)
  {}

  lemma OpenedAll(s: State, dir: string, token: string)
    requires dir !in s.dirs
    ensures AliasesAll(Open(s, dir, token))
  {
    var r := Open(s, dir, token);
    assert dir in r.dirs && r.dirs[dir].skills == map[];
    assert forall d: string :: Single(r, d) ==> d == dir;
  }

  /** Rebuilding leaves no ready skill without its alias. */
  lemma RefreshedAll(own: string -> string, s: State, op: Op)
    requires Consistent(own, s) && LegalOp(own, s, op) && Refreshes(s, op)
    ensures AliasesAll(Do(s, op))
  {
    hide AliasesAll, RefreshAliases, Consistent, DoActivate;
    match op
    case Activate(dir, q) => NewAll(own, s, dir, q);
    case Deactivate(dir) => DeactivateAll(own, s, dir);
    case Reload(dir, q) =>
      DeactivateKeeps(own, s, dir);
      if dir in s.dirs {
        DeactivateAll(own, s, dir);
      }
      RequestStays(own, s, dir, q);
      if q.isDir && q.allowed {
        NewAll(own, DoDeactivate(s, dir), dir, q);
      } else {
        RefusedStays(DoDeactivate(s, dir), dir, q);
      }
  }

  lemma RefusedStays(s: State, dir: string, q: Request)
    requires dir !in s.dirs && !(q.isDir && q.allowed)
    ensures DoActivate(s, dir, q) == s
  {}

  lemma DeactivateAll(own: string -> string, s: State, dir: string)
    requires Consistent(own, s) && dir in s.dirs
    ensures AliasesAll(DoDeactivate(s, dir))
  {
    CloseKeeps(own, s, dir);
    RefreshAll(own, Close(s, dir));
  }

  /** A request for a directory is still one after its deactivation. */
  lemma RequestStays(own: string -> string, s: State, dir: string, q: Request)
    requires LegalRequest(own, s, dir, q)
    ensures LegalRequest(own, DoDeactivate(s, dir), dir, q) && dir !in DoDeactivate(s, dir).dirs
  {}

  lemma NewMirrors(own: string -> string, s: State, dir: string, q: Request)
    requires Consistent(own, s) && LegalRequest(own, s, dir, q) && dir !in s.dirs && q.isDir && q.allowed
    ensures Mirrors(DoActivate(s, dir, q))
  {
    OpenKeeps(own, s, dir, q.token);
    if q.scan.Some? {
      var shown := Open(s, dir, q.token);
      var scanned := FirstScan(shown, dir, q.scan.value);
      FirstScanKeeps(own, shown, dir, q.scan.value);
      RefreshMirrors(own, scanned);
      AnsweredMirrors(RefreshAliases(scanned), dir);
    }
  }

  lemma AnsweredMirrors(s: State, dir: string)
    requires Mirrors(s) && dir in s.dirs
    ensures Mirrors(Answered(s, dir))
  {
    forall m <- s.aliases
      ensures AliasTrue(Answered(s, dir), m)
    {
      AnsweredAlias(s, dir, m);
    }
  }

  lemma AnsweredAlias(s: State, dir: string, m: string)
    requires dir in s.dirs
    ensures AliasTrue(Answered(s, dir), m) <==> AliasTrue(s, m)
  {
    var r := Answered(s, dir);
    assert r.dirs.Keys == s.dirs.Keys && r.table == s.table;
    forall d: string
      ensures Single(r, d) <==> Single(s, d)
      ensures d in s.dirs ==> (Mirror(r, d, m) <==> Mirror(s, d, m))
    {}
  }

  lemma DeactivateMirrors(own: string -> string, s: State, dir: string)
    requires Consistent(own, s) && dir in s.dirs
    ensures Mirrors(DoDeactivate(s, dir))
  {
    CloseKeeps(own, s, dir);
    RefreshMirrors(own, Close(s, dir));
  }

  /** A re-discovery keeps a true alias true exactly when it does not displace its skill. */
  lemma RescanAlias(own: string -> string, s: State, dir: string, found: seq<Found>, m: string)
    requires Consistent(own, s) && dir in s.dirs && LegalScan(own, found, Retry) && AliasTrue(s, m)
    ensures AliasTrue(Rescan(s, dir, found), m) <==> !DisplacedAt(s.dirs[dir].skills, found, m)
  {
    var d := s.dirs[dir];
    var zone := Zone(d.skills, s.table, s.running);
    var r := Rescan(s, dir, found);
    assert EntriesOk(own, d.token, SkillsAt(s, d.token)) && RoutesOk(d.token, SkillsAt(s, d.token), s.table);
    assert Single(s, dir) && Mirror(s, dir, m);
    ScanKeeps(own, zone, d.token, found, Retry);
    ScanAtReady(own, zone, d.token, found, m);
    assert r.dirs.Keys == s.dirs.Keys;
    assert forall e: string :: Single(r, e) ==> e == dir;
    if !DisplacedAt(d.skills, found, m) {
      assert Mirror(r, dir, m);
    }
  }

  lemma ReloadGlobalAlias(own: string -> string, s: State, scan: Option<seq<Found>>, m: string)
    requires Consistent(own, s) && (scan.Some? ==> LegalScan(own, scan.value, GlobalLayer)) && AliasTrue(s, m)
    ensures AliasTrue(DoReloadGlobal(s, scan), m)
  {
    var r := DoReloadGlobal(s, scan);
    var d :| Single(s, d) && Mirror(s, d, m);
    var n := s.dirs[d].token;
    assert EntriesOk(own, n, SkillsAt(s, n));
    ReloadGlobalIsolated(own, s, scan, n);
    ReloadGlobalFlat(own, s, scan, m);
    assert Mirror(r, d, m);
  }

  lemma ReloadGlobalFlat(own: string -> string, s: State, scan: Option<seq<Found>>, m: string)
    requires Consistent(own, s) && (scan.Some? ==> LegalScan(own, scan.value, GlobalLayer))
    ensures var r := DoReloadGlobal(s, scan);
            && (Key("", m) in r.table <==> Key("", m) in s.table)
            && (Key("", m) in s.table ==> r.table[Key("", m)] == s.table[Key("", m)])
  {
    var b := BareGlobal(s);
    assert EntriesOk(own, GLOBAL_NAMESPACE, SkillsAt(s, GLOBAL_NAMESPACE));
    if scan.Some? {
      BareGlobalKeeps(own, s);
      assert RoutesOk(GLOBAL_NAMESPACE, SkillsAt(b, GLOBAL_NAMESPACE), b.table);
      ScanKeeps(own, Zone(map[], b.table, b.running), GLOBAL_NAMESPACE, scan.value, GlobalLayer);
    }
  }

  /** Which aliases there are changes only when they are rebuilt, and a true one stays true exactly unless it is spoiled. */
  lemma AliasStep(own: string -> string, s: State, op: Op, m: string)
    requires Consistent(own, s) && LegalOp(own, s, op) && !Refreshes(s, op)
    ensures Do(s, op).aliases == s.aliases
    ensures AliasTrue(s, m) ==> (AliasTrue(Do(s, op), m) <==> !Spoils(s, op, m))
  {
    hide AliasTrue, Consistent, RefreshAliases, Scan, DisplacedAt;
    if AliasTrue(s, m) {
      match op
      case Activate(dir, q) =>
        if dir in s.dirs {
          AnsweredAlias(if q.scan.Some? then Rescan(s, dir, q.scan.value) else s, dir, m);
          if q.scan.Some? {
            RescanAlias(own, s, dir, q.scan.value, m);
          }
        }
      case ReloadGlobal(scan) => ReloadGlobalAlias(own, s, scan, m);
      case _ =>
    }
  }

  /** When every alias is true, an operation makes one untrue exactly when it displaces the skill of one. */
  lemma MirrorsIff(own: string -> string, s: State, op: Op)
    requires Consistent(own, s) && LegalOp(own, s, op) && Mirrors(s)
    ensures Mirrors(Do(s, op)) <==> Refreshes(s, op) || forall m <- s.aliases :: !Spoils(s, op, m)
  {
    if Refreshes(s, op) {
      RefreshedMirrors(own, s, op);
    } else {
      hide AliasTrue, Spoils, Consistent, Do, LegalOp, Refreshes;
      AliasStep(own, s, op, "");
      forall m <- s.aliases
        ensures AliasTrue(Do(s, op), m) <==> !Spoils(s, op, m)
      {
        AliasStep(own, s, op, m);
      }
    }
  }

  /** Since the aliases were rebuilt last, no re-activation has displaced the skill of alias m. */
  ghost predicate Unspoiled(ops: seq<Op>, m: string)
    decreases |ops|
  {
    if ops == [] then true
    else
      var front, last := ops[..|ops| - 1], ops[|ops| - 1];
      Refreshes(Run(front), last) || (Unspoiled(front, m) && !Spoils(Run(front), last, m))
  }

  /** Over every run an alias mirrors a live route unless it was spoiled since the aliases were rebuilt last. */
  lemma {:induction false} RunMirrors(own: string -> string, ops: seq<Op>, m: string)
    requires LegalRun(own, ops) && m in Run(ops).aliases && Unspoiled(ops, m)
    ensures AliasTrue(Run(ops), m)
    decreases |ops|
  {
    hide AliasTrue, Spoils, Consistent, Do, LegalOp, Refreshes;
    if ops != [] {
      var front, last := ops[..|ops| - 1], ops[|ops| - 1];
      RunConsistent(own, front);
      if Refreshes(Run(front), last) {
        RefreshedMirrors(own, Run(front), last);
      } else {
        AliasStep(own, Run(front), last, m);
        RunMirrors(own, front, m);
      }
    }
  }

  /**
   * In every reachable state aliases exist only while one directory is active,
   * and the flat path of one that is not spoiled leads to the same upstream with
   * the same remainder as its token path. Only a namespace called like the
   * skill's mount could take the flat path away.
   */
  lemma {:induction false} FlatPathAgrees(own: string -> string, ops: seq<Op>, m: string, rest: string)
    requires LegalRun(own, ops) && m in Run(ops).aliases && Unspoiled(ops, m)
    ensures var s := Run(ops);
            exists d :: Single(s, d) && Key(s.dirs[d].token, m) in s.table &&
              var live := s.table[Key(s.dirs[d].token, m)];
              && live.state.Ready? && live.port > 0
              && Resolve(s.table, PathFor(s.dirs[d].token, m, rest)) == Hit(live, rest)
              && (Resolve(s.table, PathFor("", m, rest)) == Hit(live.(namespace := "", owner := live.skill), rest)
                  <==> !Shadowed(s.table, Key("", m), rest))
    ensures Shadowed(Run(ops).table, Key("", m), rest) ==> m in Run(ops).byToken || m == GLOBAL_NAMESPACE
  {
    var s := Run(ops);
    RunConsistent(own, ops);
    RunMirrors(own, ops, m);
    var d :| Single(s, d) && Mirror(s, d, m);
    var token := s.dirs[d].token;
    assert EntriesOk(own, token, SkillsAt(s, token)) && RoutesOk(token, SkillsAt(s, token), s.table);
    OwnKeys(own, s);
    ResolveRoundTrip(s.table, Key(token, m), rest);
    ResolveRoundTrip(s.table, Key("", m), rest);
    var next := SplitSegment("/" + rest).0;
    if Key(m, next) in s.table {
      assert Segment(m) && RoutesOk(m, SkillsAt(s, m), s.table);
    }
  }

  lemma OwnKeys(own: string -> string, s: State)
    requires Consistent(own, s)
    ensures forall k <- s.table :: s.table[k].namespace == k.namespace && s.table[k].mount == k.mount
  {
    forall k <- s.table
      ensures s.table[k].namespace == k.namespace && s.table[k].mount == k.mount
    {
      if k.namespace != "" {
        assert RoutesOk(k.namespace, SkillsAt(s, k.namespace), s.table);
        assert EntriesOk(own, k.namespace, SkillsAt(s, k.namespace));
        assert Key(k.namespace, k.mount) == k;
      } else {
        assert Key("", k.mount) == k;
      }
    }
  }

  // ---- activation undone ----

  lemma {:induction false} FreshScanBag(own: string -> string, z: Zone, namespace: string, found: seq<Found>)
    requires z.skills == map[] && LegalScan(own, found, First)
    ensures var z' := Scan(z, namespace, found, First); z'.running == z.running + ReadyBag(z'.skills)
  {
    FirstLosesNothing(own, z, namespace, found);
    var z' := Scan(z, namespace, found, First);
    forall t: Tracked
      ensures z'.running[t] == z.running[t] + ReadyBag(z'.skills)[t]
    {
      ScanCounts(z, namespace, found, First, t);
    }
  }

  /** mid is s with one more directory. */
  ghost predicate Extends(s: State, mid: State, dir: string) {
    && dir !in s.dirs && dir in mid.dirs && mid.dirs[dir].token !in s.byToken
    && mid.dirs - {dir} == s.dirs && mid.byToken - {mid.dirs[dir].token} == s.byToken
    && mid.global == s.global && mid.running == s.running + ReadyBag(mid.dirs[dir].skills)
  }

  lemma OpenExtends(s: State, dir: string, q: Request)
    requires dir !in s.dirs && q.token !in s.byToken
    ensures Extends(s, Open(s, dir, q.token), dir)
  {}

  lemma FirstScanExtends(own: string -> string, s: State, dir: string, q: Request)
    requires dir !in s.dirs && LegalRequest(own, s, dir, q) && q.scan.Some?
    ensures var shown := Open(s, dir, q.token);
            dir in shown.dirs && Extends(s, FirstScan(shown, dir, q.scan.value), dir)
  {
    var shown := Open(s, dir, q.token);
    OpenExtends(s, dir, q);
    var zone := Zone(map[], shown.table, shown.running);
    var z := Scan(zone, q.token, q.scan.value, First);
    FreshScanBag(own, zone, q.token, q.scan.value);
    SettleExtends(s, shown, dir, shown.dirs[dir].(phase := PhaseOf(AllLive(q.scan.value))), z);
  }

  lemma SettleExtends(s: State, shown: State, dir: string, d: Dir, z: Zone)
    requires Extends(s, shown, dir) && d.token == shown.dirs[dir].token && shown.dirs[dir].skills == map[]
    requires z.running == shown.running + ReadyBag(z.skills)
    ensures Extends(s, Settle(shown, dir, d, z), dir)
  {}

  lemma AnsweredExtends(s: State, mid: State, dir: string)
    requires Extends(s, mid, dir)
    ensures Extends(s, Answered(mid, dir), dir) && Extends(s, RefreshAliases(mid), dir)
  {}

  lemma NewActivationExtends(own: string -> string, s: State, dir: string, q: Request)
    requires LegalRequest(own, s, dir, q) && dir !in s.dirs && q.isDir && q.allowed
    ensures Extends(s, DoActivate(s, dir, q), dir) && DoActivate(s, dir, q).dirs[dir].token == q.token
  {
    var shown := Open(s, dir, q.token);
    OpenExtends(s, dir, q);
    if q.scan.Some? {
      var scanned := FirstScan(shown, dir, q.scan.value);
      FirstScanExtends(own, s, dir, q);
      AnsweredExtends(s, scanned, dir);
      RefreshSkills(scanned);
      AnsweredExtends(s, RefreshAliases(scanned), dir);
    }
  }

  lemma ClosedRoute(own: string -> string, s: State, mid: State, dir: string, k: Key)
    requires Consistent(own, s) && Consistent(own, mid) && Extends(s, mid, dir) && k.namespace != ""
    requires k.namespace != mid.dirs[dir].token ==> Untouched(k.namespace, s, mid)
    ensures var closed := Close(mid, dir);
            (k in closed.table <==> k in s.table) && (k in s.table ==> closed.table[k] == s.table[k])
  {
    var token, skills := mid.dirs[dir].token, mid.dirs[dir].skills;
    assert SkillsAt(mid, token) == skills;
    assert EntriesOk(own, token, skills) && RoutesOk(token, skills, mid.table);
    assert Key(k.namespace, k.mount) == k;
    if k.namespace == token {
      assert SkillsAt(s, token) == map[] && RoutesOk(token, SkillsAt(s, token), s.table);
    } else {
      assert k !in EntryKeys(skills);
    }
  }

  lemma CloseUndoes(own: string -> string, s: State, mid: State, dir: string)
    requires Consistent(own, s) && Consistent(own, mid) && Extends(s, mid, dir)
    requires forall n: string :: n != "" && n != mid.dirs[dir].token ==> Untouched(n, s, mid)
    ensures ClearAliases(Close(mid, dir)) == ClearAliases(s)
  {
    var closed := Close(mid, dir);
    CloseKeeps(own, mid, dir);
    var a, b := ClearAliases(closed), ClearAliases(s);
    forall k: Key
      ensures k in a.table <==> k in b.table
      ensures k in b.table ==> a.table[k] == b.table[k]
    {
      assert Key("", k.mount) == k || k.namespace != "";
      if k.namespace != "" {
        ClosedRoute(own, s, mid, dir, k);
      }
    }
    assert a.table == b.table;
  }

  /**
   * Activating a new directory and deactivating it again, even after a failed
   * activation, restores the directories, tokens, global layer, namespaced
   * routes and sidecars; the flat aliases are rebuilt from what is left.
   */
  lemma ActivateUndone(own: string -> string, s: State, dir: string, q: Request)
    requires Consistent(own, s) && LegalRequest(own, s, dir, q) && dir !in s.dirs
    ensures DoDeactivate(DoActivate(s, dir, q), dir) == if q.isDir && q.allowed then RefreshAliases(s) else s
  {
    if q.isDir && q.allowed {
      var mid := DoActivate(s, dir, q);
      NewActivationExtends(own, s, dir, q);
      ActivateKeeps(own, s, dir, q);
      forall n: string | n != "" && n != q.token
        ensures Untouched(n, s, mid)
      {
        ActivateIsolated(own, s, dir, q, n);
      }
      CloseUndoes(own, s, mid, dir);
    }
  }

  // ---- dir tokens ----

  /** The token in the answer to an activation, if it carries one. */
  ghost function HandedOut(s: State, dir: string, q: Request): seq<string> {
    if dir in s.dirs then if s.dirs[dir].tokenEmitted then [] else [s.dirs[dir].token]
    else if q.isDir && q.allowed && q.scan.Some? then [q.token]
    else []
  }

  ghost function HandedByOp(s: State, op: Op): seq<string> {
    match op
    case Activate(dir, q) => HandedOut(s, dir, q)
    case Reload(dir, q) => HandedOut(DoDeactivate(s, dir), dir, q)
    case _ => []
  }

  ghost function HandedInRun(ops: seq<Op>): seq<string>
    decreases |ops|
  {
    if ops == [] then []
    else HandedInRun(ops[..|ops| - 1]) + HandedByOp(Run(ops[..|ops| - 1]), ops[|ops| - 1])
  }

  /** The tokens drawn so far, one per activation. */
  function Drawn(ops: seq<Op>): set<string> {
    set op | op in ops && (op.Activate? || op.Reload?) :: op.request.token
  }

  /** Every draw is new. */
  predicate FreshDraws(ops: seq<Op>) {
    forall i, j :: 0 <= i < j < |ops| && (ops[i].Activate? || ops[i].Reload?) && (ops[j].Activate? || ops[j].Reload?) ==>
      ops[i].request.token != ops[j].request.token
  }

  /** Live tokens were drawn; one that was handed out is marked. */
  ghost predicate TokensKnown(s: State, drawn: set<string>, handed: seq<string>) {
    && (forall d <- s.dirs :: s.dirs[d].token in drawn && (s.dirs[d].token in handed <==> s.dirs[d].tokenEmitted))
    && (forall t <- handed :: t in drawn)
  }

  lemma ActivateDirs(s: State, dir: string, q: Request)
    ensures var r := DoActivate(s, dir, q);
            && (forall e <- r.dirs :: e != dir ==> e in s.dirs && r.dirs[e] == s.dirs[e])
            && (dir in r.dirs ==> r.dirs[dir].token == if dir in s.dirs then s.dirs[dir].token else q.token)
            && (dir in r.dirs && r.dirs[dir].token in HandedOut(s, dir, q) ==> r.dirs[dir].tokenEmitted)
            && (dir in s.dirs && s.dirs[dir].tokenEmitted && dir in r.dirs ==> r.dirs[dir].tokenEmitted)
  {
    if dir !in s.dirs && q.isDir && q.allowed && q.scan.Some? {
      RefreshSkills(FirstScan(Open(s, dir, q.token), dir, q.scan.value));
    }
  }

  lemma ActivateTokens(s: State, dir: string, q: Request, drawn: set<string>, handed: seq<string>)
    requires TokensOk(s) && TokensKnown(s, drawn, handed) && q.token !in drawn
    ensures TokensKnown(DoActivate(s, dir, q), drawn + {q.token}, handed + HandedOut(s, dir, q))
    ensures forall t <- HandedOut(s, dir, q) :: t !in handed
  {
    ActivateDirs(s, dir, q);
    var r, out := DoActivate(s, dir, q), HandedOut(s, dir, q);
    forall d <- r.dirs
      ensures r.dirs[d].token in drawn + {q.token}
      ensures r.dirs[d].token in handed + out ==> r.dirs[d].tokenEmitted
    {
      if d != dir {
        assert s.dirs[d].token in drawn;
        if dir in s.dirs {
          assert s.byToken[s.dirs[d].token] == d && s.byToken[s.dirs[dir].token] == dir;
        }
      }
    }
  }

  lemma DrawnSnoc(front: seq<Op>, last: Op)
    ensures Drawn(front + [last])
         == Drawn(front) + if last.Activate? || last.Reload? then {last.request.token} else {}
    ensures FreshDraws(front + [last]) ==>
              FreshDraws(front) && (last.Activate? || last.Reload? ==> last.request.token !in Drawn(front))
  {
    var ops := front + [last];
    assert forall i :: 0 <= i < |front| ==> ops[i] == front[i];
    assert forall op :: op in ops <==> op in front || op == last;
    assert ops[|front|] == last;
  }

  lemma DoTokens(own: string -> string, s: State, op: Op, drawn: set<string>, handed: seq<string>)
    requires Consistent(own, s) && TokensKnown(s, drawn, handed)
    requires op.Activate? || op.Reload? ==> op.request.token !in drawn
    ensures TokensKnown(Do(s, op), drawn + if op.Activate? || op.Reload? then {op.request.token} else {},
                        handed + HandedByOp(s, op))
    ensures forall t <- HandedByOp(s, op) :: t !in handed
  {
    match op
    case Activate(dir, q) => ActivateTokens(s, dir, q, drawn, handed);
    case Deactivate(dir) =>
      if dir in s.dirs { RefreshSkills(Close(s, dir)); }
    case Reload(dir, q) =>
      if dir in s.dirs { RefreshSkills(Close(s, dir)); }
      DeactivateKeeps(own, s, dir);
      ActivateTokens(DoDeactivate(s, dir), dir, q, drawn, handed);
    case ReloadGlobal(_) =>
  }

  lemma {:induction false} RunTokens(own: string -> string, ops: seq<Op>)
    requires LegalRun(own, ops) && FreshDraws(ops)
    ensures TokensKnown(Run(ops), Drawn(ops), HandedInRun(ops))
    decreases |ops|
  {
    if ops != [] {
      var front, last := ops[..|ops| - 1], ops[|ops| - 1];
      assert ops == front + [last];
      DrawnSnoc(front, last);
      RunTokens(own, front);
      RunConsistent(own, front);
      DoTokens(own, Run(front), last, Drawn(front), HandedInRun(front));
    }
  }

  /** An answer with a manifest means that the token of its directory has been handed out, then or before. */
  lemma {:induction false} AnswerHasToken(own: string -> string, front: seq<Op>, dir: string, q: Request)
    requires LegalRun(own, front + [Activate(dir, q)]) && FreshDraws(front + [Activate(dir, q)])
    requires dir in Run(front).dirs || (q.isDir && q.allowed && q.scan.Some?)
    ensures var ops := front + [Activate(dir, q)];
            dir in Run(ops).dirs && Run(ops).dirs[dir].token in HandedInRun(ops)
  {
    hide LegalRun, FreshDraws, HandedInRun;
    var ops := front + [Activate(dir, q)];
    assert ops[..|ops| - 1] == front;
    RunTokens(own, ops);
    AnsweredEmits(Run(front), dir, q);
  }

  lemma AnsweredEmits(s: State, dir: string, q: Request)
    requires dir in s.dirs || (q.isDir && q.allowed && q.scan.Some?)
    ensures dir in DoActivate(s, dir, q).dirs && DoActivate(s, dir, q).dirs[dir].tokenEmitted
  {
    if dir !in s.dirs {
      RefreshSkills(FirstScan(Open(s, dir, q.token), dir, q.scan.value));
    }
  }

  lemma AppendedOnce(handed: seq<string>, out: seq<string>, t: string)
    requires multiset(handed)[t] <= 1 && |out| <= 1 && forall x <- out :: x !in handed
    ensures multiset(handed + out)[t] <= 1
  {
    if t in multiset(out) {
      assert t in out;
    }
    if out != [] {
      assert out == [out[0]];
    }
  }

  /** Each token appears in at most one answer of a whole run. */
  lemma {:induction false} TokenHandedOnce(own: string -> string, ops: seq<Op>, t: string)
    requires LegalRun(own, ops) && FreshDraws(ops)
    ensures multiset(HandedInRun(ops))[t] <= 1
    decreases |ops|
  {
    hide Consistent, TokensKnown, Do, LegalOp, Drawn;
    if ops != [] {
      var front, last := ops[..|ops| - 1], ops[|ops| - 1];
      assert ops == front + [last];
      DrawnSnoc(front, last);
      TokenHandedOnce(own, front, t);
      RunTokens(own, front);
      RunConsistent(own, front);
      DoTokens(own, Run(front), last, Drawn(front), HandedInRun(front));
      AppendedOnce(HandedInRun(front), HandedByOp(Run(front), last), t);
    }
  }

  // ---- a sidecar left behind ----

  /**
   * A skill goes live under its own name; later its omac.yaml asks for another
   * mount and registering it fails; then the directory is deactivated.
   */
  function LeakyRun(dir: string, t0: string, t1: string, skill: string, moved: string): seq<Op> {
    [Activate(dir, Request(true, true, t0, Some([Found(skill, true, Live(skill, 4000))]))),
     Activate(dir, Request(true, true, t1, Some([Found(skill, true, RegisterFailed(moved))]))),
     Deactivate(dir)]
  }

  lemma {:induction false} ScanOne(z: Zone, namespace: string, k: Found, pass: Pass)
    ensures Scan(z, namespace, [k], pass) == Step(z, namespace, k, pass)
    ensures Lost(z, namespace, [k], pass) == LostBy(z, k, pass)
  {}

  /** After the first activation the skill serves under its own name. */
  lemma LeakyStart(dir: string, t0: string, q: Request, skill: string)
    requires q == Request(true, true, t0, Some([Found(skill, true, Live(skill, 4000))]))
    ensures var s := DoActivate(INIT, dir, q);
            && s.dirs.Keys == {dir} && s.dirs[dir].token == t0 && s.byToken == map[t0 := dir]
            && s.dirs[dir].skills == map[skill := Entry(skill, skill, t0, Ready)]
  {
    var k := Found(skill, true, Live(skill, 4000));
    var shown := Open(INIT, dir, t0);
    ScanOne(Zone(map[], shown.table, shown.running), t0, k, First);
    RefreshSkills(FirstScan(shown, dir, [k]));
  }

  /** The second activation loses its sidecar. */
  lemma LeakyMiddle(s: State, dir: string, t0: string, q: Request, skill: string, moved: string)
    requires s.dirs.Keys == {dir} && s.dirs[dir].token == t0 && moved != skill
    requires s.dirs[dir].skills == map[skill := Entry(skill, skill, t0, Ready)]
    requires q.scan == Some([Found(skill, true, RegisterFailed(moved))])
    ensures LostByActivate(s, dir, q) == multiset{Tracked(t0, skill)}
    ensures DoActivate(s, dir, q).dirs.Keys == {dir}
  {
    hide DoActivate, Scan, LostBy, Lost;
    var zone, k := Zone(s.dirs[dir].skills, s.table, s.running), Found(skill, true, RegisterFailed(moved));
    ScanOne(zone, t0, k, Retry);
    ServingIsLost(zone, t0, skill, moved);
    KnownKeys(s, dir, q);
  }

  lemma ServingIsLost(z: Zone, token: string, skill: string, moved: string)
    requires z.skills == map[skill := Entry(skill, skill, token, Ready)] && moved != skill
    ensures LostBy(z, Found(skill, true, RegisterFailed(moved)), Retry) == multiset{Tracked(token, skill)}
  {}

  lemma KnownKeys(s: State, dir: string, q: Request)
    requires dir in s.dirs
    ensures DoActivate(s, dir, q).dirs.Keys == s.dirs.Keys
  {}

  lemma NoRun(own: string -> string)
    ensures LegalRun(own, []) && Run([]) == INIT
  {}

  lemma {:induction false} RunSnoc(own: string -> string, ops: seq<Op>, op: Op)
    requires LegalRun(own, ops) && LegalOp(own, Run(ops), op)
    ensures LegalRun(own, ops + [op]) && Run(ops + [op]) == Do(Run(ops), op)
    ensures LostInRun(ops + [op]) == LostInRun(ops) + LostByOp(Run(ops), op)
  {}

  lemma RunOfThree(own: string -> string, a: Op, b: Op, c: Op)
    requires LegalOp(own, INIT, a) && LegalOp(own, Do(INIT, a), b) && LegalOp(own, Do(Do(INIT, a), b), c)
    ensures LegalRun(own, [a, b, c]) && Run([a, b, c]) == Do(Do(Do(INIT, a), b), c)
    ensures LostByOp(Do(INIT, a), b) <= LostInRun([a, b, c])
  {
    hide LegalRun, Run, LostInRun, Do, LegalOp, LostByOp;
    NoRun(own);
    assert [] + [a] == [a] && [a] + [b] == [a, b] && [a, b] + [c] == [a, b, c];
    RunSnoc(own, [], a);
    RunSnoc(own, [a], b);
    RunSnoc(own, [a, b], c);
  }

  lemma LegalOne(own: string -> string, s: State, dir: string, token: string, k: Found)
    requires Segment(token) && token != GLOBAL_NAMESPACE && token !in s.byToken && Legal(own, k)
    ensures LegalOp(own, s, Activate(dir, Request(true, true, token, Some([k]))))
  {}

  /** Such a run is legal and ends without directories, but with the skill's sidecar. */
  lemma LeakyRunLeaves(own: string -> string, dir: string, t0: string, t1: string, skill: string, moved: string)
    requires Segment(t0) && Segment(t1) && t0 != t1 && t0 != GLOBAL_NAMESPACE && t1 != GLOBAL_NAMESPACE
    requires Segment(skill) && Segment(moved) && skill != moved && own(skill) == skill && own(moved) == skill
    ensures var ops := LeakyRun(dir, t0, t1, skill, moved);
            && LegalRun(own, ops) && Run(ops).dirs == map[] && Run(ops).running[Tracked(t0, skill)] > 0
  {
    var live, broken := Found(skill, true, Live(skill, 4000)), Found(skill, true, RegisterFailed(moved));
    var q0, q1 := Request(true, true, t0, Some([live])), Request(true, true, t1, Some([broken]));
    LeakyStart(dir, t0, q0, skill);
    LegalOne(own, INIT, dir, t0, live);
    LegalOne(own, DoActivate(INIT, dir, q0), dir, t1, broken);
    LeakyEnd(own, dir, t0, q0, q1, skill, moved);
  }

  lemma LeakyEnd(own: string -> string, dir: string, t0: string, q0: Request, q1: Request, skill: string, moved: string)
    requires LegalOp(own, INIT, Activate(dir, q0)) && LegalOp(own, DoActivate(INIT, dir, q0), Activate(dir, q1))
    requires var s := DoActivate(INIT, dir, q0);
             && s.dirs.Keys == {dir} && s.dirs[dir].token == t0 && moved != skill
             && s.dirs[dir].skills == map[skill := Entry(skill, skill, t0, Ready)]
    requires q1.scan == Some([Found(skill, true, RegisterFailed(moved))]) && t0 != GLOBAL_NAMESPACE
    ensures var ops := [Activate(dir, q0), Activate(dir, q1), Deactivate(dir)];
            && LegalRun(own, ops) && Run(ops).dirs == map[] && Run(ops).running[Tracked(t0, skill)] > 0
  {
    hide DoActivate, DoDeactivate, LostByActivate, LegalRequest, Run, LegalRun, LostInRun;
    var a, b, c := Activate(dir, q0), Activate(dir, q1), Deactivate(dir);
    var s1 := DoActivate(INIT, dir, q0);
    var s2 := DoActivate(s1, dir, q1);
    LeakyMiddle(s1, dir, t0, q1, skill, moved);
    RunOfThree(own, a, b, c);
    ClosesLast(s2, dir);
    var t := Tracked(t0, skill);
    assert LostInRun([a, b, c])[t] >= multiset{t}[t];
    RunCounts(own, [a, b, c], t);
    assert SkillsAt(Run([a, b, c]), t0) == map[];
  }

  lemma ClosesLast(s: State, dir: string)
    requires s.dirs.Keys == {dir}
    ensures DoDeactivate(s, dir).dirs == map[]
  {}

  // ---- an alias left behind ----

  /** One directory with one skill at its own name, mirrored by an alias that forwards to port 4000. */
  predicate OneSkill(s: State, dir: string, token: string, skill: string, state: RouteState, port: int) {
    && s.dirs.Keys == {dir} && s.dirs[dir].token == token && s.byToken == map[token := dir]
    && s.dirs[dir].skills == map[skill := Entry(skill, skill, token, state)]
    && Key(token, skill) in s.table && s.table[Key(token, skill)] == Route(skill, token, port, skill, skill, state)
    && Key("", skill) in s.table && s.table[Key("", skill)] == Route(skill, "", 4000, skill, skill, Ready)
    && s.aliases == {skill}
  }

  lemma StaleStart(dir: string, t0: string, q: Request, skill: string)
    requires q == Request(true, true, t0, Some([Found(skill, true, Live(skill, 4000))])) && t0 != ""
    ensures OneSkill(DoActivate(INIT, dir, q), dir, t0, skill, Ready, 4000)
  {
    hide FirstScan, RefreshAliases;
    var k := Found(skill, true, Live(skill, 4000));
    var scanned := FirstScan(Open(INIT, dir, t0), dir, [k]);
    StaleScan(dir, t0, k, skill);
    StaleMirror(scanned, dir, t0, skill);
  }

  lemma StaleScan(dir: string, t0: string, k: Found, skill: string)
    requires k == Found(skill, true, Live(skill, 4000))
    ensures var s := FirstScan(Open(INIT, dir, t0), dir, [k]);
            && s.dirs.Keys == {dir} && s.dirs[dir].token == t0 && s.byToken == map[t0 := dir] && s.aliases == {}
            && s.dirs[dir].skills == map[skill := Entry(skill, skill, t0, Ready)]
            && s.table == map[Key(t0, skill) := Route(skill, t0, 4000, skill, skill, Ready)]
  {
    hide Scan;
    var shown := Open(INIT, dir, t0);
    ScanOne(Zone(map[], shown.table, shown.running), t0, k, First);
  }

  lemma StaleMirror(s: State, dir: string, token: string, skill: string)
    requires s.dirs.Keys == {dir} && s.aliases == {} && token != ""
    requires s.dirs[dir].skills == map[skill := Entry(skill, skill, token, Ready)]
    requires s.table == map[Key(token, skill) := Route(skill, token, 4000, skill, skill, Ready)]
    ensures var r := RefreshAliases(s);
            && r.dirs == s.dirs && r.byToken == s.byToken && r.aliases == {skill}
            && r.table == s.table[Key("", skill) := Route(skill, "", 4000, skill, skill, Ready)]
  {
    hide Mirrored, AliasTable;
    var c := ClearAliases(s);
    assert c == s;
    assert Single(c, dir) && forall d: string :: Single(c, d) ==> d == dir;
    assert RefreshAliases(s) == MirrorSkills(c, c.dirs[dir].skills);
    OnlyMirrored(s.dirs[dir].skills, s.table, token, skill);
  }

  lemma OnlyMirrored(skills: map<string, Entry>, table: Table, token: string, skill: string)
    requires skills == map[skill := Entry(skill, skill, token, Ready)]
    requires table == map[Key(token, skill) := Route(skill, token, 4000, skill, skill, Ready)]
    ensures Mirrored(skills, table) == {skill}
    ensures AliasTable(skills, {skill}, table) == map[Key("", skill) := Route(skill, "", 4000, skill, skill, Ready)]
  {
    var k := Key(token, skill);
    assert k in table && table[k].port != 0;
    assert skill in skills && Key(skills[skill].namespace, skills[skill].mount) == k;
    assert skill in Mirrored(skills, table);
  }

  /** A re-activation changes the token route and not the alias. */
  lemma StaleStep(s: State, dir: string, token: string, skill: string, state: RouteState, port: int, q: Request, k: Found)
    requires OneSkill(s, dir, token, skill, state, port) && token != "" && q.scan == Some([k])
    requires k.eligible && k.name == skill && ResultMount(k) == skill && !Skipped(s.dirs[dir].skills, k, Retry)
    ensures OneSkill(DoActivate(s, dir, q), dir, token, skill, ResultState(k), if k.outcome.Live? then k.outcome.port else 0)
  {
    hide Scan;
    ScanOne(Zone(s.dirs[dir].skills, s.table, s.running), token, k, Retry);
  }

  /**
   * A skill goes live on port 4000 and gets its alias; then registering it under
   * another mount fails, and then it goes live again on port 5000. In between the
   * alias forwards although the skill is down, and at the end the token path leads
   * to port 5000 and the flat path still to port 4000.
   */
  lemma StaleAlias(own: string -> string, dir: string, t: seq<string>, skill: string, moved: string)
    requires |t| == 3 && (forall i :: 0 <= i < 3 ==> Segment(t[i]) && t[i] != GLOBAL_NAMESPACE)
    requires t[0] != t[1] && t[0] != t[2]
    requires Segment(skill) && Segment(moved) && skill != moved && own(skill) == skill && own(moved) == skill
    ensures var down := Request(true, true, t[1], Some([Found(skill, true, RegisterFailed(moved))]));
            var up := Request(true, true, t[2], Some([Found(skill, true, Live(skill, 5000))]));
            var a := Activate(dir, Request(true, true, t[0], Some([Found(skill, true, Live(skill, 4000))])));
            var ops := [a, Activate(dir, down), Activate(dir, up)];
            && LegalRun(own, ops)
            && OneSkill(Do(Do(INIT, a), Activate(dir, down)), dir, t[0], skill, Broken, 0)
            && OneSkill(Run(ops), dir, t[0], skill, Ready, 5000)
  {
    hide DoActivate, LegalRun, Run, Segment;
    var live, broken, again := Found(skill, true, Live(skill, 4000)), Found(skill, true, RegisterFailed(moved)),
                               Found(skill, true, Live(skill, 5000));
    var q0, q1, q2 := Request(true, true, t[0], Some([live])), Request(true, true, t[1], Some([broken])),
                      Request(true, true, t[2], Some([again]));
    assert t[0] != "" by { NoEmptySegment(t[0]); }
    StaleStart(dir, t[0], q0, skill);
    var s1 := DoActivate(INIT, dir, q0);
    StaleStep(s1, dir, t[0], skill, Ready, 4000, q1, broken);
    var s2 := DoActivate(s1, dir, q1);
    StaleStep(s2, dir, t[0], skill, Broken, 0, q2, again);
    LegalOne(own, INIT, dir, t[0], live);
    LegalOne(own, s1, dir, t[1], broken);
    LegalOne(own, s2, dir, t[2], again);
    RunOfThree(own, Activate(dir, q0), Activate(dir, q1), Activate(dir, q2));
  }

  lemma NoEmptySegment(n: string)
    requires Segment(n)
    ensures n != ""
  {}
}
