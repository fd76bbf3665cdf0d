/**
 * What an activation of a directory, or a reload of the global layer, puts on
 * show (internal/cli/serve.go): every skill that was found, in its state, and a
 * phase that tells whether all of them serve.
 */
module ServeActivation {
  import opened Wrappers
  import opened Routing
  import opened ServeScan
  import opened ServeModel

  lemma RefreshRoute(s: State, k: Key)
    requires k.namespace != ""
    ensures var r := RefreshAliases(s);
            (k in r.table <==> k in s.table) && (k in s.table ==> r.table[k] == s.table[k])
  {}

  /** The state after the scan of a new directory, seen from that directory. */
  lemma NewDirState(own: string -> string, s: State, dir: string, q: Request)
    requires Consistent(own, s) && LegalRequest(own, s, dir, q) && dir !in s.dirs
    requires q.isDir && q.allowed && q.scan.Some?
    ensures var shown := Open(s, dir, q.token);
            var z := Scan(Zone(map[], shown.table, shown.running), q.token, q.scan.value, First);
            var r := DoActivate(s, dir, q);
            && dir in r.dirs && r.dirs[dir] == Dir(q.token, PhaseOf(AllLive(q.scan.value)), z.skills, true)
            && forall m: string :: (Key(q.token, m) in r.table <==> Key(q.token, m) in z.table)
                                && (Key(q.token, m) in z.table ==> r.table[Key(q.token, m)] == z.table[Key(q.token, m)])
  {
    hide Scan, RefreshAliases;
    var scanned := FirstScan(Open(s, dir, q.token), dir, q.scan.value);
    RefreshSkills(scanned);
    forall m: string {
      RefreshRoute(scanned, Key(q.token, m));
    }
  }

  lemma OpenZone(own: string -> string, s: State, dir: string, token: string)
    requires Consistent(own, s) && dir !in s.dirs
    requires Segment(token) && token != GLOBAL_NAMESPACE && token !in s.byToken
    ensures token != "" && RoutesOk(token, map[], Open(s, dir, token).table)
  {
    OpenKeeps(own, s, dir, token);
    var r := Open(s, dir, token);
    assert SkillsAt(r, token) == map[];
    assert RoutesOk(token, SkillsAt(r, token), r.table);
  }

  /**
   * After a successful activation of a new directory every skill of that
   * directory is mounted where it says, or under its own name when it could not
   * be registered or read, and its route answers with its state and port.
   * Nothing else is mounted, and the directory is active exactly when all serve.
   */
  lemma ActivationShows(own: string -> string, s: State, dir: string, q: Request)
    requires Consistent(own, s) && LegalRequest(own, s, dir, q) && dir !in s.dirs
    requires q.isDir && q.allowed && q.scan.Some?
    ensures var r := DoActivate(s, dir, q);
            && dir in r.dirs && r.dirs[dir].token == q.token && r.dirs[dir].tokenEmitted
            && (forall k <- q.scan.value | k.eligible :: Shown(r.dirs[dir].skills, r.table, q.token, k, First))
            && (forall m <- r.dirs[dir].skills :: exists k <- q.scan.value :: k.eligible && Lands(k) == m)
            && r.dirs[dir].phase == if forall m <- r.dirs[dir].skills :: r.dirs[dir].skills[m].state == Ready then Active else Partial
  {
    hide Shown, Scan, Consistent, DoActivate, LegalScan;
    var found := q.scan.value;
    var zone := Zone(map[], Open(s, dir, q.token).table, Open(s, dir, q.token).running);
    var z, r := Scan(zone, q.token, found, First), DoActivate(s, dir, q);
    NewDirState(own, s, dir, q);
    OpenZone(own, s, dir, q.token);
    forall k <- found | k.eligible
      ensures Shown(r.dirs[dir].skills, r.table, q.token, k, First) && Shown(z.skills, z.table, q.token, k, First)
    {
      var i :| 0 <= i < |found| && found[i] == k;
      ScanShows(own, zone, q.token, found, First, i);
      ShownElsewhere(z, r.table, q.token, k, First);
    }
    forall m <- z.skills
      ensures exists k <- found :: k.eligible && Lands(k) == m
    {
      OnlyFound(zone, q.token, found, First, m);
    }
    AllShown(z, q.token, found);
  }

  lemma ShownElsewhere(z: Zone, table: Table, namespace: string, k: Found, pass: Pass)
    requires Shown(z.skills, z.table, namespace, k, pass)
    requires forall m: string :: Key(namespace, m) in z.table ==>
               Key(namespace, m) in table && table[Key(namespace, m)] == z.table[Key(namespace, m)]
    ensures Shown(z.skills, table, namespace, k, pass)
  {}

  /** All live and all ready is the same after a first scan. */
  lemma AllShown(z: Zone, namespace: string, found: seq<Found>)
    requires forall k <- found | k.eligible :: Shown(z.skills, z.table, namespace, k, First)
    requires forall m <- z.skills :: exists k <- found :: k.eligible && Lands(k) == m
    ensures PhaseOf(AllLive(found)) == if forall m <- z.skills :: z.skills[m].state == Ready then Active else Partial
  {
    hide Shown;
    forall k <- found | k.eligible
      ensures Lands(k) in z.skills && (k.outcome.Live? <==> z.skills[Lands(k)].state == Ready)
    {
      ShownState(z, namespace, k, First);
    }
    if !AllLive(found) {
      var k :| k in found && k.eligible && !k.outcome.Live?;
      assert z.skills[Lands(k)].state != Ready;
    } else {
      forall m <- z.skills
        ensures z.skills[m].state == Ready
      {
        var k :| k in found && k.eligible && Lands(k) == m;
        assert k.outcome.Live?;
      }
    }
  }

  lemma ShownState(z: Zone, namespace: string, k: Found, pass: Pass)
    requires Shown(z.skills, z.table, namespace, k, pass)
    ensures Lands(k) in z.skills && (k.outcome.Live? <==> z.skills[Lands(k)].state == Ready)
  {}

  /** A directory that is refused changes nothing; one that cannot be scanned stays visible without skills. */
  lemma ActivationFails(s: State, dir: string, q: Request)
    requires dir !in s.dirs
    ensures !(q.isDir && q.allowed) ==> DoActivate(s, dir, q) == s
    ensures q.isDir && q.allowed && q.scan.None? ==>
              var r := DoActivate(s, dir, q);
              && dir in r.dirs && r.dirs[dir] == Dir(q.token, Activating, map[], false)
              && r.dirs - {dir} == s.dirs && r.byToken == s.byToken[q.token := dir]
              && r.global == s.global && r.running == s.running && r.aliases == {}
  {}

  /**
   * After a re-activation every skill of the directory that was not serving is
   * mounted with its new state; one that was, and what is not of this directory,
   * is as before.
   */
  lemma ReactivationShows(own: string -> string, s: State, dir: string, q: Request)
    requires Consistent(own, s) && LegalRequest(own, s, dir, q) && dir in s.dirs && q.scan.Some?
    ensures var d, r := s.dirs[dir], DoActivate(s, dir, q);
            && r.dirs.Keys == s.dirs.Keys && r.dirs[dir].token == d.token && r.dirs[dir].tokenEmitted
            && (forall k <- q.scan.value ::
                  var before, after := Zone(d.skills, s.table, s.running), Zone(r.dirs[dir].skills, r.table, r.running);
                  if !k.eligible || Serving(d.skills, k) then SameBut(own, before, after, d.token, k.name, None)
                  else Shown(after.skills, after.table, d.token, k, Retry)
                       && SameBut(own, before, after, d.token, k.name, Some(Lands(k))))
            && (forall m: string :: (forall k <- q.scan.value :: k.name != own(m)) ==>
                  SameAt(Zone(d.skills, s.table, s.running), Zone(r.dirs[dir].skills, r.table, r.running), d.token, m))
            && r.dirs[dir].phase == if forall m <- r.dirs[dir].skills :: r.dirs[dir].skills[m].state == Ready then Active else Partial
  {
    hide Shown, Scan, SameBut, Serving;
    var d, found := s.dirs[dir], q.scan.value;
    var zone := Zone(d.skills, s.table, s.running);
    var r := DoActivate(s, dir, q);
    assert SkillsAt(s, d.token) == d.skills;
    assert EntriesOk(own, d.token, SkillsAt(s, d.token)) && RoutesOk(d.token, SkillsAt(s, d.token), s.table);
    assert Zone(r.dirs[dir].skills, r.table, r.running) == Scan(zone, d.token, found, Retry);
    forall k <- found
      ensures if !k.eligible || Serving(d.skills, k) then SameBut(own, zone, Scan(zone, d.token, found, Retry), d.token, k.name, None)
              else Shown(r.dirs[dir].skills, r.table, d.token, k, Retry)
                   && SameBut(own, zone, Scan(zone, d.token, found, Retry), d.token, k.name, Some(Lands(k)))
    {
      var i :| 0 <= i < |found| && found[i] == k;
      ScanShows(own, zone, d.token, found, Retry, i);
    }
    forall m: string | forall k <- found :: k.name != own(m)
      ensures SameAt(zone, Scan(zone, d.token, found, Retry), d.token, m)
    {
      ScanLeaves(own, zone, d.token, found, Retry, own(m));
      SameHere(own, zone, Scan(zone, d.token, found, Retry), d.token, m);
    }
  }

  lemma SameHere(own: string -> string, a: Zone, b: Zone, namespace: string, m: string)
    requires SameBut(own, a, b, namespace, own(m), None)
    ensures SameAt(a, b, namespace, m)
  {}

  /** A re-activation whose scan fails changes nothing but that the token has been handed out. */
  lemma ReactivationFails(s: State, dir: string, q: Request)
    requires dir in s.dirs && q.scan.None?
    ensures DoActivate(s, dir, q) == s.(dirs := s.dirs[dir := s.dirs[dir].(tokenEmitted := true)])
  {}

  /** After a reload the global layer shows the last skill brought up at each mount, and nothing that was not found. */
  lemma GlobalsShow(own: string -> string, s: State, found: seq<Found>)
    requires Consistent(own, s) && LegalScan(own, found, GlobalLayer)
    ensures var r := DoReloadGlobal(s, Some(found));
            && (forall i | 0 <= i < |found| && found[i].eligible
                           && forall j :: i < j < |found| && found[j].eligible ==> Lands(found[j]) != Lands(found[i]) ::
                  Shown(r.global, r.table, GLOBAL_NAMESPACE, found[i], GlobalLayer))
            && (forall m <- r.global :: exists k <- found :: k.eligible && Lands(k) == m)
            && r.dirs == s.dirs && r.byToken == s.byToken && r.aliases == s.aliases
  {
    hide Shown, Scan;
    var b := BareGlobal(s);
    BareGlobalKeeps(own, s);
    assert RoutesOk(GLOBAL_NAMESPACE, SkillsAt(b, GLOBAL_NAMESPACE), b.table);
    var zone := Zone(map[], b.table, b.running);
    forall i | 0 <= i < |found| && found[i].eligible
               && forall j :: i < j < |found| && found[j].eligible ==> Lands(found[j]) != Lands(found[i])
      ensures var z := Scan(zone, GLOBAL_NAMESPACE, found, GlobalLayer);
              Shown(z.skills, z.table, GLOBAL_NAMESPACE, found[i], GlobalLayer)
    {
      LayerShows(own, zone, GLOBAL_NAMESPACE, found, i);
    }
    forall m <- Scan(zone, GLOBAL_NAMESPACE, found, GlobalLayer).skills
      ensures exists k <- found :: k.eligible && Lands(k) == m
    {
      OnlyFound(zone, GLOBAL_NAMESPACE, found, GlobalLayer, m);
    }
  }

  /** When the registry cannot be loaded the global layer is empty, with its routes, and nothing else has changed. */
  lemma GlobalsFail(own: string -> string, s: State)
    requires Consistent(own, s)
    ensures var r := DoReloadGlobal(s, None);
            && r.global == map[] && r.dirs == s.dirs && r.byToken == s.byToken && r.aliases == s.aliases
            && (forall k: Key :: k in r.table <==> k in s.table && k.namespace != GLOBAL_NAMESPACE)
            && (forall k <- r.table :: r.table[k] == s.table[k])
            && r.running == s.running - ReadyBag(s.global)
  {
    assert EntriesOk(own, GLOBAL_NAMESPACE, SkillsAt(s, GLOBAL_NAMESPACE));
    assert RoutesOk(GLOBAL_NAMESPACE, SkillsAt(s, GLOBAL_NAMESPACE), s.table);
    forall k: Key
      ensures k in EntryKeys(s.global) <==> k.namespace == GLOBAL_NAMESPACE && k.mount in s.global
      ensures k in s.table && k.namespace == GLOBAL_NAMESPACE ==> k.mount in s.global
    {
      assert Key(k.namespace, k.mount) == k;
    }
  }

  // ---- phases over whole runs ----

  /** A directory that has been scanned is active exactly when all its skills serve. */
  predicate PhaseOk(d: Dir) {
    if d.phase == Activating then d.skills == map[]
    else d.phase == (if forall m <- d.skills :: d.skills[m].state == Ready then Active else Partial)
  }

  predicate PhasesOk(s: State) {
    forall d <- s.dirs :: PhaseOk(s.dirs[d])
  }

  lemma ActivatePhases(own: string -> string, s: State, dir: string, q: Request)
    requires Consistent(own, s) && LegalRequest(own, s, dir, q) && PhasesOk(s)
    ensures PhasesOk(DoActivate(s, dir, q))
  {
    hide Consistent, LegalRequest, DoActivate, PhaseOk;
    var r := DoActivate(s, dir, q);
    OtherDirs(s, dir, q);
    if dir in s.dirs && q.scan.Some? {
      ReactivationShows(own, s, dir, q);
      PhaseIs(r.dirs[dir]);
    } else if dir in s.dirs {
      ReactivationFails(s, dir, q);
      SamePhase(s.dirs[dir], r.dirs[dir]);
    } else if q.isDir && q.allowed && q.scan.Some? {
      ActivationShows(own, s, dir, q);
      PhaseIs(r.dirs[dir]);
    } else {
      ActivationFails(s, dir, q);
      PhaseOfNone(q.token);
    }
  }

  lemma PhaseIs(d: Dir)
    requires d.phase == if forall m <- d.skills :: d.skills[m].state == Ready then Active else Partial
    ensures PhaseOk(d)
  {}

  lemma SamePhase(a: Dir, b: Dir)
    requires PhaseOk(a) && b == a.(tokenEmitted := true)
    ensures PhaseOk(b)
  {}

  lemma PhaseOfNone(token: string)
    ensures PhaseOk(Dir(token, Activating, map[], false))
  {}

  lemma OtherDirs(s: State, dir: string, q: Request)
    ensures forall d <- DoActivate(s, dir, q).dirs :: d != dir ==> d in s.dirs && DoActivate(s, dir, q).dirs[d] == s.dirs[d]
  {
    hide Scan, RefreshAliases;
    if dir !in s.dirs && q.isDir && q.allowed && q.scan.Some? {
      RefreshSkills(FirstScan(Open(s, dir, q.token), dir, q.scan.value));
    }
  }

  lemma {:induction false} RunPhases(own: string -> string, ops: seq<Op>)
    requires LegalRun(own, ops)
    ensures PhasesOk(Run(ops))
    decreases |ops|
  {
    hide Consistent, PhaseOk, DoActivate, RefreshAliases, Scan;
    if ops != [] {
      var front, last := ops[..|ops| - 1], ops[|ops| - 1];
      var s := Run(front);
      RunPhases(own, front);
      RunConsistent(own, front);
      match last
      case Activate(dir, q) => ActivatePhases(own, s, dir, q);
      case Deactivate(dir) =>
        if dir in s.dirs { RefreshSkills(Close(s, dir)); }
      case Reload(dir, q) =>
        DeactivateKeeps(own, s, dir);
        if dir in s.dirs { RefreshSkills(Close(s, dir)); }
        ActivatePhases(own, DoDeactivate(s, dir), dir, q);
      case ReloadGlobal(scan) => ReloadGlobalDirs(s, scan);
    }
  }

  lemma ReloadGlobalDirs(s: State, scan: Option<seq<Found>>)
    ensures DoReloadGlobal(s, scan).dirs == s.dirs
  {}
}
