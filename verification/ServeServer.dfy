/**
 * The serve server itself (internal/cli/serve.go, internal/supervisor/supervisor.go):
 * objects updated in place by the control operations. Each method's contract is
 * the transition of ServeModel that it implements.
 */
module ServeServer {
  import opened Wrappers
  import opened Routing
  import opened ServeScan
  import opened ServeModel
  import opened ServeProperties

  /** The supervisor's list of tracked children. */
  class Supervisor {
    var children: seq<Tracked>

    constructor ()
      ensures children == []
    {
      children := [];
    }

    method AddSidecar(t: Tracked)
      modifies this
      ensures multiset(children) == multiset(old(children)) + multiset{t}
    {
      children := children + [t];
    }

    /** Stops the first child with the given key; the others keep their order. */
    method StopSidecar(t: Tracked) returns (stopped: bool)
      modifies this
      ensures stopped <==> t in old(children)
      ensures children == WithoutFirst(old(children), t)
      ensures multiset(children) == multiset(old(children)) - multiset{t}
    {
      hide WithoutFirst;
      var keep: seq<Tracked> := [];
      stopped := false;
      for i := 0 to |children|
        invariant children == old(children)
        invariant stopped <==> t in children[..i]
        invariant if stopped then keep + children[i..] == WithoutFirst(children, t) else keep == children[..i]
      {
        OneMore(children, keep, i);
        if children[i] == t && !stopped {
          WithoutFirstAt(children[..i], t, children[i + 1..]);
          stopped := true;
        } else {
          keep := keep + [children[i]];
        }
      }
      WithoutFirstBag(children, t);
      if stopped {
        children := keep;
      }
    }
  }

  /** The sequence without its first t. */
  function WithoutFirst(s: seq<Tracked>, t: Tracked): seq<Tracked> {
    if s == [] then []
    else if s[0] == t then s[1..]
    else [s[0]] + WithoutFirst(s[1..], t)
  }

  lemma OneMore(s: seq<Tracked>, keep: seq<Tracked>, i: nat)
    requires i < |s|
    ensures s[..i + 1] == s[..i] + [s[i]] && s == s[..i] + [s[i]] + s[i + 1..]
    ensures keep + s[i..] == keep + [s[i]] + s[i + 1..]
  {}

  lemma {:induction false} WithoutFirstBag(s: seq<Tracked>, t: Tracked)
    ensures multiset(WithoutFirst(s, t)) == multiset(s) - multiset{t}
    ensures t !in s ==> WithoutFirst(s, t) == s
  {
    if s != [] {
      assert s == [s[0]] + s[1..];
      WithoutFirstBag(s[1..], t);
    }
  }

  /** What comes before it and what comes after it stay in their places. */
  lemma {:induction false} WithoutFirstAt(before: seq<Tracked>, t: Tracked, after: seq<Tracked>)
    requires t !in before
    ensures WithoutFirst(before + [t] + after, t) == before + after
    decreases |before|
  {
    var s := before + [t] + after;
    if before == [] {
      assert s[1..] == after;
    } else {
      WithoutFirstAt(before[1..], t, after);
      assert s[1..] == before[1..] + [t] + after && [before[0]] + before[1..] == before;
    }
  }

  // ---- how far a skill gets ----

  /** What bringUp finds out about a skill: a stall is terminal or waits for credentials, and a spawn gives a port. */
  datatype Checks = Checks(
    mount: Option<string>, drifted: bool, approved: bool, terminalStall: Option<bool>, snapshot: bool, port: Option<int>)

  /** Unchanged files that the host approved. */
  predicate Trusted(c: Checks) {
    c.mount.Some? && !c.drifted && c.approved
  }

  /**
   * The refusals of bringUp in order. Credentials are read only for a trusted
   * skill, a sidecar is started only from a readable snapshot once they are
   * there, and the skill goes live exactly when that succeeds.
   */
  method Assess(c: Checks) returns (o: Outcome, filled: bool, started: bool)
    ensures filled <==> Trusted(c)
    ensures started <==> Trusted(c) && c.terminalStall == None && c.snapshot
    ensures o.Live? <==> started && c.port.Some?
    ensures o.Live? ==> Some(o.mount) == c.mount && Some(o.port) == c.port
    ensures o.MetaBroken? <==> c.mount == None
    ensures o.Stalled? && o.pending <==> Trusted(c) && c.terminalStall == Some(false)
    ensures o.Stalled? ==> Some(o.mount) == c.mount
    ensures !o.RegisterFailed?
  {
    filled, started := false, false;
    if c.mount.None? {
      return MetaBroken, filled, started;
    }
    o := Stalled(c.mount.value, false);
    if c.drifted || !c.approved {
      return;
    }
    filled := true;
    if c.terminalStall.Some? {
      return Stalled(c.mount.value, !c.terminalStall.value), filled, started;
    }
    if !c.snapshot {
      return;
    }
    started := true;
    if c.port.Some? {
      o := Live(c.mount.value, c.port.value);
    }
  }

  class DirState {
    const dir: string
    const token: string
    var phase: Phase
    var skills: map<string, Entry>
    var tokenEmitted: bool

    constructor (dir: string, token: string)
      ensures this.dir == dir && this.token == token
      ensures phase == Activating && skills == map[] && !tokenEmitted
    {
      this.dir, this.token := dir, token;
      phase, skills, tokenEmitted := Activating, map[], false;
    }

    ghost function Value(): Dir
      reads this
    {
      Dir(token, phase, skills, tokenEmitted)
    }
  }

  class ServeServer {
    const facade: Facade
    const sup: Supervisor
    var dirs: map<string, DirState>
    var byToken: map<string, DirState>
    var global: map<string, Entry>
    var flatAliases: set<string>

    constructor ()
      ensures Valid() && Abs() == INIT
      ensures fresh(facade) && fresh(sup)
    {
      facade := new Facade();
      sup := new Supervisor();
      dirs, byToken, global, flatAliases := map[], map[], map[], {};
      new;
      ViewKeys();
    }

    ghost function DirsView(): map<string, Dir>
      reads this`dirs, dirs.Values
    {
      map d | d in dirs :: dirs[d].Value()
    }

    /** The two directory maps read entry by entry. */
    lemma ViewIs(byDir: map<string, Dir>, tokens: map<string, string>)
      requires byDir.Keys == dirs.Keys && forall d <- dirs :: dirs[d].Value() == byDir[d]
      requires tokens.Keys == byToken.Keys && forall t <- byToken :: byToken[t].dir == tokens[t]
      ensures DirsView() == byDir && TokensView() == tokens
    {}

    lemma ViewAt(d: DirState)
      requires Valid() && d.dir in dirs && dirs[d.dir] == d
      ensures d.dir in Abs().dirs && Abs().dirs[d.dir] == d.Value() && DirsView().Keys == dirs.Keys
      ensures TokensView().Keys == byToken.Keys && forall t <- byToken :: byToken[t].dir == TokensView()[t]
      ensures forall k <- dirs :: dirs[k].Value() == DirsView()[k]
    {}

    lemma ViewKeys()
      ensures DirsView().Keys == dirs.Keys && TokensView().Keys == byToken.Keys
    {}

    ghost function TokensView(): map<string, string>
      reads this`byToken
    {
      map t | t in byToken :: byToken[t].dir
    }

    /** Both maps lead to directory states that know their own directory and token. */
    ghost predicate Valid()
      reads this`dirs, this`byToken, facade
    {
      && facade.Valid()
      && (forall d <- dirs :: dirs[d].dir == d)
      && (forall t <- byToken :: byToken[t].token == t)
    }

    ghost function Abs(): State
      requires Valid()
      reads this, facade, sup, dirs.Values
    {
      State(DirsView(), TokensView(), global, flatAliases, facade.Index(), multiset(sup.children))
    }

    /** Installs the outcome of bringing one skill up: a live sidecar and route, or a stub. */
    method BringUp(k: Found, namespace: string, pass: Pass) returns (sr: Entry)
      requires facade.Valid() && SlashFree(namespace) && Segment(ResultMount(k))
      modifies facade, sup
      ensures facade.Valid() && sr == EntryFor(namespace, k)
      ensures facade.Index() == WithRoute(old(facade.Index()), RouteFor(namespace, k, pass))
      ensures multiset(sup.children) == multiset(old(sup.children)) + One(sr)
    {
      sr := EntryFor(namespace, k);
      if k.outcome.Live? {
        sup.AddSidecar(Tracked(namespace, k.name));
      }
      facade.AddRoute(RouteFor(namespace, k, pass));
    }

    /** The loop over discovered skills in activate and rediscover. */
    method ScanDir(ghost own: string -> string, d: DirState, found: seq<Found>, pass: Pass)
      requires facade.Valid() && Segment(d.token) && forall k <- found :: Legal(own, k)
      modifies d`skills, facade, sup
      ensures facade.Valid()
      ensures Zone(d.skills, facade.Index(), multiset(sup.children))
           == Scan(Zone(old(d.skills), old(facade.Index()), multiset(old(sup.children))), d.token, found, pass)
    {
      ghost var z0 := Zone(d.skills, facade.Index(), multiset(sup.children));
      assert found[..0] == [];
      for i := 0 to |found|
        invariant facade.Valid()
        invariant Zone(d.skills, facade.Index(), multiset(sup.children)) == Scan(z0, d.token, found[..i], pass)
      {
        var k := found[i];
        assert found[..i + 1][..i] == found[..i];
        assert Legal(own, k);
        if !k.eligible {
          continue;
        }
        if pass.Retry? && LookupMount(k) in d.skills && d.skills[LookupMount(k)].state.Ready? {
          continue;
        }
        var sr := BringUp(k, d.token, pass);
        d.skills := d.skills[sr.mount := sr];
      }
      assert found[..|found|] == found;
    }

    // ---- flat aliases ----

    /** Drops the flat routes of the given mounts, in any order. */
    method RemoveFlat(mounts: set<string>)
      requires facade.Valid() && forall m <- mounts :: SlashFree(m)
      modifies facade
      ensures facade.Valid() && facade.Index() == old(facade.Index()) - FlatKeys(mounts)
    {
      ghost var before := facade.Index();
      var rest := mounts;
      while rest != {}
        invariant facade.Valid() && rest <= mounts
        invariant facade.Index() == before - FlatKeys(mounts - rest)
        decreases rest
      {
        var m :| m in rest;
        facade.RemoveRoute("", m);
        DropStep(before, mounts, rest, m);
        rest := rest - {m};
      }
      assert mounts - rest == mounts;
    }

    /** Mirrors one entry; mirrored tells whether it got a flat route. */
    method MirrorEntry(sr: Entry) returns (mirrored: bool)
      requires facade.Valid() && Segment(sr.mount) && SlashFree(sr.namespace)
      modifies facade
      ensures facade.Valid()
      ensures var up := Key(sr.namespace, sr.mount);
              var table := old(facade.Index());
              && (mirrored <==> sr.state.Ready? && up in table && table[up].port != 0)
              && facade.Index() == if mirrored then WithRoute(table, AliasRoute(sr, table)) else table
    {
      if !sr.state.Ready? {
        return false;
      }
      var port := facade.UpstreamPort(sr.namespace, sr.mount);
      if port == 0 {
        return false;
      }
      facade.AddRoute(Route(sr.mount, "", port, sr.name, sr.name, Ready));
      mirrored := true;
    }

    /** Copies the ready routes of the given entries as flat routes, in any order. */
    method MirrorEntries(skills: map<string, Entry>, ghost s: State) returns (aliases: set<string>)
      requires facade.Valid() && s.table == facade.Index()
      requires MountedOk(skills) && NoFlat(s.table)
      modifies facade
      ensures facade.Valid() && s.(table := facade.Index(), aliases := aliases) == MirrorSkills(s, skills)
    {
      hide IndexOf, Keyed, MirroredBut, MirrorSkills, WithRoute, AliasRoute;
      aliases := {};
      var rest := skills.Keys;
      MirrorStart(skills, s.table);
      while rest != {}
        invariant facade.Valid() && rest <= skills.Keys
        invariant MirroredBut(skills, rest, s.table, aliases, facade.Index())
        decreases rest
      {
        var m :| m in rest;
        MirrorStep(skills, rest, s.table, m, aliases, facade.Index());
        var mirrored := MirrorEntry(skills[m]);
        if mirrored {
          aliases := aliases + {m};
        }
        rest := rest - {m};
      }
      MirrorEnd(skills, s, aliases, facade.Index());
    }

    predicate AliasesSlashFree()
      reads this`flatAliases
    {
      forall m <- flatAliases :: SlashFree(m)
    }

    method ClearFlatAliases()
      requires Valid() && AliasesSlashFree()
      modifies this`flatAliases, facade
      ensures Valid() && flatAliases == {} && facade.Index() == old(facade.Index()) - FlatKeys(old(flatAliases))
      ensures Abs() == ClearAliases(old(Abs()))
    {
      RemoveFlat(flatAliases);
      flatAliases := {};
      OnlyFacade();
    }

    /** Changing routes and aliases leaves the rest of the state alone. */
    twostate lemma OnlyFacade()
      requires old(Valid()) && facade.Valid() && unchanged(`dirs) && unchanged(`byToken) && unchanged(`global)
      requires unchanged(sup) && forall d <- dirs :: unchanged(dirs[d])
      ensures Valid() && Abs() == old(Abs()).(table := facade.Index(), aliases := flatAliases)
    {
      assert DirsView() == old(DirsView());
    }

    method RefreshSingleDirAliases()
      requires Valid() && AliasReady(Abs())
      modifies this`flatAliases, facade
      ensures Valid() && Abs() == RefreshAliases(old(Abs()))
    {
      hide *;
      var only := OnlySkills();
      ClearFlatAliases();
      if only.Some? {
        MirrorOnly(only.value);
      }
    }

    /** Installs the flat aliases of the only directory on a table without any. */
    method MirrorOnly(skills: map<string, Entry>)
      requires Valid() && MountedOk(skills) && NoFlat(Abs().table)
      modifies this`flatAliases, facade
      ensures Valid() && Abs() == MirrorSkills(old(Abs()), skills)
    {
      hide IndexOf, Keyed, MirrorSkills, MountedOk, NoFlat;
      flatAliases := MirrorEntries(skills, Abs());
      OnlyFacade();
    }

    /** The skills of the directory that is alone in being active, if one is. */
    method OnlySkills() returns (only: Option<map<string, Entry>>)
      requires Valid() && AliasReady(Abs())
      ensures AliasesSlashFree() && NoFlat(ClearAliases(Abs()).table)
      ensures only.None? ==> RefreshAliases(Abs()) == ClearAliases(Abs())
      ensures only.Some? ==>
                MountedOk(only.value) && RefreshAliases(Abs()) == MirrorSkills(ClearAliases(Abs()), only.value)
    {
      hide IndexOf, Keyed, MirrorSkills, RefreshAliases, ClearAliases, AliasReady, MountedOk, NoFlat, FlatKeys, SlashFree;
      RefreshCases(Abs());
      ViewKeys();
      only := None;
      if |dirs| == 1 {
        var d :| d in dirs;
        assert Abs().dirs[d] == dirs[d].Value();
        only := Some(dirs[d].skills);
      }
    }

    // ---- tearing down ----

    /** Removes the routes of the given entries and stops the sidecars of the ready ones, in any order. */
    method TearDown(skills: map<string, Entry>)
      requires facade.Valid()
      requires forall m <- skills :: SlashFree(skills[m].namespace) && SlashFree(skills[m].mount)
      modifies facade, sup
      ensures facade.Valid() && facade.Index() == old(facade.Index()) - EntryKeys(skills)
      ensures multiset(sup.children) == multiset(old(sup.children)) - ReadyBag(skills)
    {
      hide IndexOf, Keyed, ReadyBag, EntryKeys;
      ghost var table, running := facade.Index(), multiset(sup.children);
      var rest := skills;
      TearDownStart(skills, table, running);
      while rest != map[]
        invariant facade.Valid() && forall m <- rest :: m in skills && rest[m] == skills[m]
        invariant TornDownBut(skills, rest, table, running, facade.Index(), multiset(sup.children))
        decreases |rest|
      {
        var m :| m in rest;
        TearDownStep(skills, rest, m, table, running, facade.Index(), multiset(sup.children));
        var sr := rest[m];
        facade.RemoveRoute(sr.namespace, sr.mount);
        if sr.state.Ready? {
          var _ := sup.StopSidecar(Tracked(sr.namespace, sr.name));
        }
        rest := rest - {m};
      }
      TearDownEnd(skills, table, running, facade.Index(), multiset(sup.children));
    }

    /** Takes the directory off both maps and tears its skills down. */
    method CloseDir(dir: string)
      requires Valid() && CloseReady(Abs(), dir) && dir in dirs
      modifies this`dirs, this`byToken, facade, sup
      ensures Valid() && Abs() == Close(old(Abs()), dir) && dirs == old(dirs) - {dir}
    {
      hide IndexOf, Keyed, ReadyBag, EntryKeys, AliasReady;
      ghost var was, tokens := DirsView(), TokensView();
      var d := dirs[dir];
      assert was[dir] == d.Value();
      dirs := dirs - {dir};
      byToken := byToken - {d.token};
      TearDown(d.skills);
      ViewIs(was - {dir}, tokens - {d.token});
    }

    method Deactivate(dir: string)
      requires Valid() && CloseReady(Abs(), dir)
      modifies this, facade, sup
      ensures Valid() && Abs() == DoDeactivate(old(Abs()), dir) && dirs == old(dirs) - {dir}
    {
      hide IndexOf, Keyed, RefreshAliases, ReadyBag, EntryKeys, AliasReady;
      ViewKeys();
      if dir in dirs {
        CloseDir(dir);
        RefreshSingleDirAliases();
      }
    }

    // ---- activation ----

    /** Enters a new directory state in both maps. */
    method AddDir(dir: string, token: string) returns (d: DirState)
      requires Valid() && dir !in dirs && token !in byToken
      modifies this`dirs, this`byToken
      ensures Valid() && fresh(d) && d.dir == dir && d.token == token && d.skills == map[] && !d.tokenEmitted
      ensures dirs == old(dirs)[dir := d]
      ensures var s := old(Abs());
              Abs() == s.(dirs := s.dirs[dir := Dir(token, Activating, map[], false)], byToken := s.byToken[token := dir])
    {
      hide IndexOf, Keyed;
      d := new DirState(dir, token);
      ghost var was, tokens := DirsView(), TokensView();
      dirs := dirs[dir := d];
      byToken := byToken[token := d];
      ViewIs(was[dir := d.Value()], tokens[token := dir]);
    }

    /** Scans into a directory state that is registered. */
    method Discover(ghost own: string -> string, d: DirState, found: seq<Found>, pass: Pass)
      requires Valid() && d.dir in dirs && dirs[d.dir] == d && Segment(d.token) && forall k <- found :: Legal(own, k)
      modifies d`skills, facade, sup
      ensures Valid() && d.dir in old(Abs()).dirs
      ensures var s := old(Abs());
              var z := Scan(Zone(s.dirs[d.dir].skills, s.table, s.running), d.token, found, pass);
              Abs() == Settle(s, d.dir, s.dirs[d.dir], z) && d.skills == z.skills
    {
      hide IndexOf, Keyed, Scan, DirsView, TokensView, SlashFree, Legal;
      ViewAt(d);
      ghost var s := Abs();
      ScanDir(own, d, found, pass);
      ViewIs(s.dirs[d.dir := d.Value()], s.byToken);
    }

    method SetPhase(d: DirState, phase: Phase)
      requires Valid() && d.dir in dirs && dirs[d.dir] == d
      modifies d`phase
      ensures Valid() && d.dir in old(Abs()).dirs && Abs() == WithPhase(old(Abs()), d.dir, phase)
    {
      hide IndexOf, Keyed, DirsView, TokensView;
      ViewAt(d);
      ghost var s := Abs();
      d.phase := phase;
      ViewIs(s.dirs[d.dir := d.Value()], s.byToken);
    }

    /** The retry of skills that are not serving, for a directory that is already active. */
    method Rediscover(ghost own: string -> string, d: DirState, found: seq<Found>)
      requires Valid() && d.dir in dirs && dirs[d.dir] == d && Segment(d.token) && forall k <- found :: Legal(own, k)
      modifies d, facade, sup
      ensures Valid() && Abs() == Rescan(old(Abs()), d.dir, found) && d.tokenEmitted == old(d.tokenEmitted)
    {
      hide IndexOf, Keyed, Scan, Rescan, Settle, WithPhase, PhaseOf, AllReady, AllLive, DirsView, TokensView, SlashFree, Legal, Abs;
      ViewAt(d);
      ghost var s := Abs();
      Discover(own, d, found, Retry);
      SetPhase(d, PhaseOf(AllReady(d.skills)));
      RescanIs(s, d.dir, found);
    }

    method FirstDiscovery(ghost own: string -> string, d: DirState, found: seq<Found>)
      requires Valid() && d.dir in dirs && dirs[d.dir] == d && Segment(d.token) && forall k <- found :: Legal(own, k)
      requires d.skills == map[]
      modifies d, facade, sup
      ensures Valid() && Abs() == FirstScan(old(Abs()), d.dir, found) && d.tokenEmitted == old(d.tokenEmitted)
    {
      hide IndexOf, Keyed, Scan, FirstScan, Settle, WithPhase, PhaseOf, AllReady, AllLive, DirsView, TokensView, SlashFree, Legal, Abs;
      ViewAt(d);
      ghost var s := Abs();
      Discover(own, d, found, First);
      SetPhase(d, PhaseOf(AllLive(found)));
      FirstScanIs(s, d.dir, found);
    }

    /** The token the manifest carries, at most once per directory state. */
    method ManifestToken(d: DirState) returns (token: Option<string>)
      requires Valid() && d.dir in dirs && dirs[d.dir] == d
      modifies d
      ensures Valid() && Abs() == Answered(old(Abs()), d.dir)
      ensures token == if old(d.tokenEmitted) then None else Some(d.token)
    {
      hide IndexOf, Keyed;
      ghost var s := Abs();
      assert s.dirs[d.dir] == d.Value();
      token := if d.tokenEmitted then None else Some(d.token);
      d.tokenEmitted := true;
      assert DirsView() == s.dirs[d.dir := d.Value()];
    }

    /** Activation of a directory that is already active: retry, then answer. */
    method ActivateKnown(ghost own: string -> string, d: DirState, scan: Option<seq<Found>>) returns (token: Option<string>)
      requires Valid() && d.dir in dirs && dirs[d.dir] == d && Segment(d.token)
      requires scan.Some? ==> forall k <- scan.value :: Legal(own, k)
      modifies d, facade, sup
      ensures Valid()
      ensures Abs() == Answered(if scan.Some? then Rescan(old(Abs()), d.dir, scan.value) else old(Abs()), d.dir)
      ensures token == if old(d.tokenEmitted) then None else Some(d.token)
    {
      hide IndexOf, Keyed, Rescan;
      if scan.Some? {
        Rediscover(own, d, scan.value);
      }
      token := ManifestToken(d);
    }

    /** Activation of a new, permitted directory; ok is false when a load fails after it became visible. */
    method ActivateNew(ghost own: string -> string, dir: string, q: Request) returns (ok: bool, token: Option<string>)
      requires Valid() && Consistent(own, Abs()) && LegalRequest(own, Abs(), dir, q)
      requires dir !in dirs && q.isDir && q.allowed
      modifies this, facade, sup
      ensures Valid() && Abs() == DoActivate(old(Abs()), dir, q)
      ensures ok == q.scan.Some? && token == if ok then Some(q.token) else None
    {
      hide IndexOf, Keyed, FirstScan, RefreshAliases, AliasReady, ClearAliases, Consistent, Scan;
      ghost var s := Abs();
      ViewKeys();
      ActivateReady(own, s, dir, q);
      ClearFlatAliases();
      var d := AddDir(dir, q.token);
      assert Abs() == Open(s, dir, q.token);
      if q.scan.None? {
        return false, None;
      }
      FirstDiscovery(own, d, q.scan.value);
      RefreshSingleDirAliases();
      token := ManifestToken(d);
      ok := true;
    }

    method Activate(ghost own: string -> string, dir: string, q: Request) returns (ok: bool, token: Option<string>)
      requires Valid() && Consistent(own, Abs()) && LegalRequest(own, Abs(), dir, q)
      modifies this, facade, sup, dirs.Values
      ensures Valid() && Abs() == DoActivate(old(Abs()), dir, q)
      ensures ok <==> dir in old(Abs()).dirs || (q.isDir && q.allowed && q.scan.Some?)
      ensures (if token.Some? then [token.value] else []) == HandedOut(old(Abs()), dir, q)
    {
      hide IndexOf, Keyed, Rescan, FirstScan, RefreshAliases, Open, Answered, AliasReady, RoutesOk, EntriesOk;
      ViewKeys();
      if dir in dirs {
        assert Abs().dirs[dir] == dirs[dir].Value();
        ok := true;
        token := ActivateKnown(own, dirs[dir], q.scan);
      } else if !q.isDir || !q.allowed {
        ok, token := false, None;
      } else {
        ok, token := ActivateNew(own, dir, q);
      }
    }

    // ---- the global layer ----

    /** The loop over the global registry. */
    method ScanGlobals(ghost own: string -> string, found: seq<Found>)
      requires facade.Valid() && forall k <- found :: Legal(own, k)
      modifies this`global, facade, sup
      ensures facade.Valid()
      ensures Zone(global, facade.Index(), multiset(sup.children))
           == Scan(Zone(old(global), old(facade.Index()), multiset(old(sup.children))), GLOBAL_NAMESPACE, found, GlobalLayer)
    {
      hide IndexOf, Keyed;
      ghost var z0 := Zone(global, facade.Index(), multiset(sup.children));
      assert found[..0] == [];
      for i := 0 to |found|
        invariant facade.Valid()
        invariant Zone(global, facade.Index(), multiset(sup.children)) == Scan(z0, GLOBAL_NAMESPACE, found[..i], GlobalLayer)
      {
        var k := found[i];
        assert found[..i + 1][..i] == found[..i];
        assert Legal(own, k);
        if k.eligible {
          var sr := BringUp(k, GLOBAL_NAMESPACE, GlobalLayer);
          global := global[sr.mount := sr];
        }
      }
      assert found[..|found|] == found;
    }

    method ActivateGlobals(ghost own: string -> string, found: seq<Found>)
      requires Valid() && global == map[] && forall k <- found :: Legal(own, k)
      modifies this`global, facade, sup
      ensures Valid() && Abs() == LoadGlobal(old(Abs()), found)
    {
      hide IndexOf, Keyed, Scan, Legal;
      ghost var was, tokens := DirsView(), TokensView();
      ScanGlobals(own, found);
      ViewIs(was, tokens);
    }

    /** Drops every global skill. */
    method DropGlobals()
      requires Valid() && forall m <- global :: SlashFree(global[m].namespace) && SlashFree(global[m].mount)
      modifies this`global, facade, sup
      ensures Valid() && Abs() == BareGlobal(old(Abs()))
    {
      hide IndexOf, Keyed, ReadyBag, EntryKeys;
      ghost var was, tokens := DirsView(), TokensView();
      var stale := global;
      global := map[];
      TearDown(stale);
      ViewIs(was, tokens);
    }

    /** Drops every global skill and loads the layer again; ok is false when a load fails. */
    method ReloadGlobals(ghost own: string -> string, scan: Option<seq<Found>>) returns (ok: bool)
      requires Valid() && Consistent(own, Abs()) && (scan.Some? ==> LegalScan(own, scan.value, GlobalLayer))
      modifies this`global, facade, sup
      ensures Valid() && ok == scan.Some? && Abs() == DoReloadGlobal(old(Abs()), scan)
    {
      hide IndexOf, Keyed, LoadGlobal;
      assert SlashFree(GLOBAL_NAMESPACE);
      assert EntriesOk(own, GLOBAL_NAMESPACE, SkillsAt(Abs(), GLOBAL_NAMESPACE));
      DropGlobals();
      if scan.None? {
        return false;
      }
      ActivateGlobals(own, scan.value);
      ok := true;
    }

    /** Reload: drop the directory and activate it again. */
    method Reload(ghost own: string -> string, dir: string, q: Request) returns (ok: bool, token: Option<string>)
      requires Valid() && Consistent(own, Abs()) && LegalRequest(own, Abs(), dir, q)
      modifies this, facade, sup, dirs.Values
      ensures Valid() && Abs() == Do(old(Abs()), Op.Reload(dir, q))
      ensures ok <==> q.isDir && q.allowed && q.scan.Some?
      ensures (if token.Some? then [token.value] else []) == HandedByOp(old(Abs()), Op.Reload(dir, q))
    {
      hide IndexOf, Keyed, Consistent, CloseReady, DoDeactivate, DoActivate, LegalScan;
      ghost var s := Abs();
      ConsistentCloseReady(own, s, dir);
      ReloadReady(own, s, dir, q);
      DeactivatedGone(s, dir);
      Deactivate(dir);
      ok, token := Activate(own, dir, q);
    }
  }

  lemma DeactivatedGone(s: State, dir: string)
    ensures dir !in DoDeactivate(s, dir).dirs
  {
    if dir in s.dirs {
      RefreshSkills(Close(s, dir));
    }
  }

  lemma ReloadReady(own: string -> string, s: State, dir: string, q: Request)
    requires Consistent(own, s) && LegalRequest(own, s, dir, q)
    ensures Consistent(own, DoDeactivate(s, dir)) && LegalRequest(own, DoDeactivate(s, dir), dir, q)
  {
    DeactivateKeeps(own, s, dir);
    if dir in s.dirs {
      RefreshSkills(Close(s, dir));
    }
  }

  lemma ActivateReady(own: string -> string, s: State, dir: string, q: Request)
    requires Consistent(own, s) && LegalRequest(own, s, dir, q) && dir !in s.dirs
    ensures Segment(q.token) && q.token !in s.byToken && forall m <- s.aliases :: SlashFree(m)
    ensures q.scan.Some? ==> (forall k <- q.scan.value :: Legal(own, k))
    ensures q.scan.Some? ==> AliasReady(FirstScan(Open(s, dir, q.token), dir, q.scan.value))
  {
    if q.scan.Some? {
      var shown := Open(s, dir, q.token);
      OpenKeeps(own, s, dir, q.token);
      FirstScanKeeps(own, shown, dir, q.scan.value);
      InStepAliasReady(own, FirstScan(shown, dir, q.scan.value));
    }
  }

  lemma ConsistentCloseReady(own: string -> string, s: State, dir: string)
    requires Consistent(own, s)
    ensures CloseReady(s, dir)
  {
    if dir in s.dirs {
      var token := s.dirs[dir].token;
      assert EntriesOk(own, token, SkillsAt(s, token));
      CloseKeeps(own, s, dir);
      InStepAliasReady(own, Close(s, dir));
    }
  }

  /** What closing a directory relies on. */
  ghost predicate CloseReady(s: State, dir: string) {
    dir in s.dirs ==>
      && (forall m <- s.dirs[dir].skills ::
            SlashFree(s.dirs[dir].skills[m].namespace) && SlashFree(s.dirs[dir].skills[m].mount))
      && AliasReady(Close(s, dir))
  }

  /** The entries outside rest are torn down. */
  ghost predicate TornDownBut(
    skills: map<string, Entry>, rest: map<string, Entry>,
    table: Table, running: multiset<Tracked>, table': Table, running': multiset<Tracked>)
  {
    table' == table - EntryKeys(skills - rest.Keys) && running' == running - ReadyBag(skills - rest.Keys)
  }

  lemma TearDownStart(skills: map<string, Entry>, table: Table, running: multiset<Tracked>)
    ensures TornDownBut(skills, skills, table, running, table, running)
  {}

  lemma {:induction false} TearDownEnd(
      skills: map<string, Entry>, table: Table, running: multiset<Tracked>, table': Table, running': multiset<Tracked>)
    requires TornDownBut(skills, map[], table, running, table', running')
    ensures table' == table - EntryKeys(skills) && running' == running - ReadyBag(skills)
  {
    var none: map<string, Entry> := map[];
    assert skills - none.Keys == skills;
  }

  lemma EntryKeysWith(before: map<string, Entry>, after: map<string, Entry>, m: string)
    requires m in after && after - {m} == before
    ensures EntryKeys(after) == EntryKeys(before) + {Key(after[m].namespace, after[m].mount)}
  {
    forall k: Key
      ensures k in EntryKeys(after) <==> k in EntryKeys(before) || k == Key(after[m].namespace, after[m].mount)
    {
      if k in EntryKeys(after) {
        var n :| n in after && k == Key(after[n].namespace, after[n].mount);
        assert n == m || n in before;
      }
      if k in EntryKeys(before) {
        var n :| n in before && k == Key(before[n].namespace, before[n].mount);
        assert n in after;
      }
    }
  }

  lemma TearDownStep(
      skills: map<string, Entry>, rest: map<string, Entry>, m: string,
      table: Table, running: multiset<Tracked>, table': Table, running': multiset<Tracked>)
    requires m in rest && m in skills && rest[m] == skills[m] && rest.Keys <= skills.Keys
    requires TornDownBut(skills, rest, table, running, table', running')
    ensures var e := skills[m];
            TornDownBut(skills, rest - {m}, table, running, table' - {Key(e.namespace, e.mount)}, running' - One(e))
  {
    hide ReadyBag, EntryKeys;
    var before, after := skills - rest.Keys, skills - (rest - {m}).Keys;
    assert after.Keys == before.Keys + {m};
    assert after - {m} == before;
    ReadyBagWithout(after, m);
    EntryKeysWith(before, after, m);
  }

  /** What the alias refresh relies on. */
  ghost predicate AliasReady(s: State) {
    && (forall m <- s.aliases :: SlashFree(m))
    && (forall k <- s.table :: k.namespace != "" || k.mount in s.aliases)
    && (forall d <- s.dirs :: MountedOk(s.dirs[d].skills))
  }

  ghost predicate NoFlat(table: Table) {
    forall k <- table :: k.namespace != ""
  }

  ghost predicate MountedOk(skills: map<string, Entry>) {
    forall m <- skills ::
      skills[m].mount == m && Segment(m) && skills[m].namespace != "" && SlashFree(skills[m].namespace)
  }

  lemma InStepAliasReady(own: string -> string, s: State)
    requires InStep(own, s)
    ensures AliasReady(s)
  {
    assert forall k <- s.table :: k.namespace == "" ==> Key("", k.mount) == k;
    forall d <- s.dirs
      ensures MountedOk(s.dirs[d].skills)
    {
      assert EntriesOk(own, s.dirs[d].token, SkillsAt(s, s.dirs[d].token));
    }
  }

  function WithPhase(s: State, dir: string, phase: Phase): State
    requires dir in s.dirs
  {
    s.(dirs := s.dirs[dir := s.dirs[dir].(phase := phase)])
  }

  lemma {:induction false} RescanIs(s: State, dir: string, found: seq<Found>)
    requires dir in s.dirs
    ensures var d := s.dirs[dir];
            var z := Scan(Zone(d.skills, s.table, s.running), d.token, found, Retry);
            Rescan(s, dir, found)
            == WithPhase(Settle(s, dir, d, z), dir, PhaseOf(AllReady(z.skills)))
  {
    hide Scan, PhaseOf, AllReady;
  }

  lemma {:induction false} FirstScanIs(s: State, dir: string, found: seq<Found>)
    requires dir in s.dirs && s.dirs[dir].skills == map[]
    ensures var d := s.dirs[dir];
            var z := Scan(Zone(d.skills, s.table, s.running), d.token, found, First);
            FirstScan(s, dir, found)
            == WithPhase(Settle(s, dir, d, z), dir, PhaseOf(AllLive(found)))
  {
    hide Scan, PhaseOf, AllLive;
  }

  lemma RefreshCases(s: State)
    requires AliasReady(s)
    ensures NoFlat(ClearAliases(s).table) && ClearAliases(s).dirs == s.dirs
    ensures (forall m <- s.aliases :: SlashFree(m)) && forall d <- s.dirs :: MountedOk(s.dirs[d].skills)
    ensures |s.dirs| != 1 ==> RefreshAliases(s) == ClearAliases(s)
    ensures forall d <- s.dirs :: |s.dirs| == 1 ==> RefreshAliases(s) == MirrorSkills(ClearAliases(s), s.dirs[d].skills)
  {
    var c := ClearAliases(s);
    if |s.dirs| == 1 {
      forall d <- s.dirs
        ensures Single(c, d)
      {
        assert |s.dirs.Keys - {d}| == 0;
      }
    }
    if d :| Single(c, d) {
      assert s.dirs.Keys == {d};
      assert |s.dirs.Keys| == 1;
    }
  }

  lemma DropStep(table: Table, mounts: set<string>, rest: set<string>, m: string)
    requires m in rest && rest <= mounts
    ensures table - FlatKeys(mounts - rest) - {Key("", m)} == table - FlatKeys(mounts - (rest - {m}))
  {}

  /** All entries outside rest have been mirrored on top of table. */
  ghost predicate MirroredBut(
    skills: map<string, Entry>, rest: set<string>, table: Table, aliases: set<string>, now: Table)
  {
    aliases == Mirrored(skills, table) - rest && now == table + AliasTable(skills, aliases, table)
  }

  lemma MirrorStart(skills: map<string, Entry>, table: Table)
    ensures MirroredBut(skills, skills.Keys, table, {}, table)
  {}

  lemma MirrorEnd(skills: map<string, Entry>, s: State, aliases: set<string>, now: Table)
    requires MirroredBut(skills, {}, s.table, aliases, now)
    ensures s.(table := now, aliases := aliases) == MirrorSkills(s, skills)
  {}

  /** One round of mirroring. */
  lemma MirrorStep(
      skills: map<string, Entry>, rest: set<string>, table: Table, m: string, aliases: set<string>, now: Table)
    requires m in rest && m in skills && skills[m].mount == m
    requires skills[m].namespace != "" && forall k <- table :: k.namespace != ""
    requires MirroredBut(skills, rest, table, aliases, now)
    ensures var up := Key(skills[m].namespace, m);
            if skills[m].state.Ready? && up in now && now[up].port != 0
            then MirroredBut(skills, rest - {m}, table, aliases + {m}, WithRoute(now, AliasRoute(skills[m], now)))
            else MirroredBut(skills, rest - {m}, table, aliases, now)
  {}
}
