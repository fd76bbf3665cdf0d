/**
 * Live reload in a single-workdir session (internal/cli/start_reload.go): the
 * mounted and the not-ready skills, the warnings given, and the flat routes,
 * over any number of reloads.
 */
module StartReload {
  import opened Wrappers
  import opened Sequences
  import opened Sorting
  import opened Routing

  /** Why a skill could not be brought up, as the manifest and its stub route show it. */
  datatype NotReady = NotReady(mount: string, state: RouteState, detail: string)

  /** How far one registered skill gets in one reload. */
  datatype Outcome =
    | MetaBroken(detail: string)
    | NotApproved(detail: string)
    | Stalled(terminal: bool, detail: string)
    | SnapshotBroken(detail: string)
    | SpawnFails
    | Spawned(port: int)

  /** A registered skill; declared is the mount its omac.yaml asks for, when that file can be used. */
  datatype Entry = Entry(name: string, declared: string, outcome: Outcome)

  /** Inspect: a skill whose omac.yaml cannot be used sits under its own name. */
  function MountOf(e: Entry): string {
    if e.outcome.MetaBroken? then e.name else e.declared
  }

  datatype Session = Session(
    mounted: map<string, string>, notReady: map<string, NotReady>, warned: map<string, string>, routes: Table)

  function Flat(mount: string): Key {
    Key("", mount)
  }

  // ---- one reload, on values ----

  /** A stub route, which nobody owns, and a manifest entry. */
  function WithStub(s: Session, name: string, stub: NotReady): Session {
    s.(routes := WithRoute(s.routes, Route(stub.mount, "", 0, name, "", stub.state)),
       notReady := s.notReady[name := stub])
  }

  function Warned(s: Session, name: string, reason: string): Session {
    s.(warned := s.warned[name := reason])
  }

  function StubState(terminal: bool): RouteState {
    if terminal then Broken else PendingCredentials
  }

  function Attempt(s: Session, e: Entry): Session {
    if e.name in s.mounted then s
    else match e.outcome
      case MetaBroken(d) => Warned(WithStub(s, e.name, NotReady(MountOf(e), Broken, d)), e.name, d)
      case NotApproved(d) => Warned(WithStub(s, e.name, NotReady(MountOf(e), Broken, d)), e.name, d)
      case Stalled(terminal, d) => Warned(WithStub(s, e.name, NotReady(MountOf(e), StubState(terminal), d)), e.name, d)
      case SnapshotBroken(d) => WithStub(s, e.name, NotReady(MountOf(e), Broken, d))
      case SpawnFails => s
      case Spawned(port) =>
        s.(routes := WithRoute(s.routes, Route(MountOf(e), "", port, e.name, e.name, Ready)),
           mounted := s.mounted[e.name := MountOf(e)], notReady := s.notReady - {e.name})
  }

  function Names(entries: seq<Entry>): set<string> {
    set e | e in entries :: e.name
  }

  function MountKeys(stubs: map<string, NotReady>): set<Key> {
    set n | n in stubs :: Flat(stubs[n].mount)
  }

  /** Not-ready skills that have left the registry go, with their stub routes. */
  function Prune(s: Session, registered: set<string>): Session {
    var gone := s.notReady - registered;
    s.(notReady := s.notReady - gone.Keys, warned := s.warned - gone.Keys, routes := s.routes - MountKeys(gone))
  }

  function AttemptAll(s: Session, entries: seq<Entry>): Session {
    if entries == [] then s
    else Attempt(AttemptAll(s, entries[..|entries| - 1]), entries[|entries| - 1])
  }

  function Reload(s: Session, entries: seq<Entry>): Session {
    AttemptAll(Prune(s, Names(entries)), entries)
  }

  function Run(s: Session, reloads: seq<seq<Entry>>): Session {
    if reloads == [] then s else Reload(Run(s, reloads[..|reloads| - 1]), reloads[|reloads| - 1])
  }

  // ---- what every reload keeps ----

  /** Each mount belongs to one skill; a skill may have several, over time. */
  predicate Registers(own: string -> string, entries: seq<Entry>) {
    forall i :: 0 <= i < |entries| ==> own(MountOf(entries[i])) == entries[i].name
  }

  /** The route of a skill is its own and answers with this state. */
  predicate Serves(s: Session, mount: string, name: string, state: RouteState) {
    Flat(mount) in s.routes && s.routes[Flat(mount)].skill == name && s.routes[Flat(mount)].state == state
  }

  /** A skill is not in both maps and sits at a mount of its own; a not-ready one answers as recorded. */
  predicate NameOk(s: Session, own: string -> string, n: string) {
    && (n in s.mounted ==> n !in s.notReady && own(s.mounted[n]) == n)
    && (n in s.notReady ==>
          && own(s.notReady[n].mount) == n && s.notReady[n].state != Ready
          && Serves(s, s.notReady[n].mount, n, s.notReady[n].state))
  }

  /** A route is at a mount of its skill, and one with an owner belongs to a mounted skill. */
  predicate RouteOk(s: Session, own: string -> string, k: Key)
    requires k in s.routes
  {
    var r := s.routes[k];
    && k == Flat(k.mount) && own(k.mount) == r.skill
    && (r.owner == "" || (r.owner == r.skill && r.skill in s.mounted))
  }

  /** The maps and the routes agree. */
  ghost predicate InStep(s: Session, own: string -> string) {
    && (forall n: string :: NameOk(s, own, n))
    && (forall k <- s.routes :: RouteOk(s, own, k))
  }

  /** The mounted skills that do not answer at their mount. */
  function Down(s: Session): set<string> {
    set n | n in s.mounted && !Serves(s, s.mounted[n], n, Ready)
  }

  /** Mounted skills stay mounted, their routes stay as they are, and newly mounted ones answer. */
  ghost predicate MountedKept(s: Session, t: Session) {
    forall n: string :: StillMounted(s, t, n)
  }

  predicate StillMounted(s: Session, t: Session, n: string) {
    if n in s.mounted then
      n in t.mounted && t.mounted[n] == s.mounted[n] && SameRoute(s.routes, t.routes, Flat(s.mounted[n]))
    else
      n in t.mounted ==> Serves(t, t.mounted[n], n, Ready)
  }

  predicate SameRoute(a: Table, b: Table, k: Key) {
    (k in a <==> k in b) && (k in a ==> b[k] == a[k])
  }

  lemma SameDown(s: Session, t: Session)
    requires MountedKept(s, t)
    ensures Down(t) == Down(s)
  {
    forall n: string
      ensures n in Down(t) <==> n in Down(s)
    {
      assert StillMounted(s, t, n);
    }
  }

  /** A skill that is not mounted can take its own mount from whatever was there before. */
  lemma NeverRefused(s: Session, own: string -> string, r: Route)
    requires InStep(s, own)
    requires r.namespace == "" && own(r.mount) == r.skill && r.skill !in s.mounted
    ensures WithRoute(s.routes, r) == s.routes[Flat(r.mount) := r]
  {}

  lemma OthersKept(s: Session, t: Session, own: string -> string, r: Route, n: string)
    requires InStep(s, own) && n != r.skill && own(r.mount) == r.skill
    requires t.routes == s.routes[Flat(r.mount) := r]
    requires n in s.mounted <==> n in t.mounted
    requires n in s.notReady <==> n in t.notReady
    requires n in s.mounted ==> t.mounted[n] == s.mounted[n]
    requires n in s.notReady ==> t.notReady[n] == s.notReady[n]
    ensures NameOk(t, own, n) && StillMounted(s, t, n)
  {
    assert NameOk(s, own, n);
  }

  lemma RoutesKept(s: Session, t: Session, own: string -> string, r: Route)
    requires InStep(s, own) && own(r.mount) == r.skill
    requires r.owner == "" || (r.owner == r.skill && r.skill in t.mounted)
    requires t.routes == s.routes[Flat(r.mount) := r] && s.mounted.Keys <= t.mounted.Keys
    ensures forall k <- t.routes :: RouteOk(t, own, k)
  {}

  /** What one skill gets replaces only what it had. */
  lemma ReplaceKeeps(s: Session, t: Session, own: string -> string, r: Route)
    requires InStep(s, own) && r.skill !in s.mounted && own(r.mount) == r.skill
    requires t.routes == s.routes[Flat(r.mount) := r]
    requires r.owner == "" || (r.owner == r.skill && r.skill in t.mounted)
    requires s.mounted.Keys <= t.mounted.Keys <= s.mounted.Keys + {r.skill}
    requires s.notReady.Keys - {r.skill} <= t.notReady.Keys <= s.notReady.Keys + {r.skill}
    requires forall n: string | n != r.skill :: (n in s.mounted ==> t.mounted[n] == s.mounted[n])
    requires forall n: string | n != r.skill :: (n in s.notReady ==> t.notReady[n] == s.notReady[n])
    requires NameOk(t, own, r.skill) && (r.skill in t.mounted ==> Serves(t, t.mounted[r.skill], r.skill, Ready))
    ensures InStep(t, own) && MountedKept(s, t)
  {
    RoutesKept(s, t, own, r);
    forall n: string
      ensures NameOk(t, own, n) && StillMounted(s, t, n)
    {
      hide InStep, NameOk, StillMounted;
      if n != r.skill {
        OthersKept(s, t, own, r, n);
      }
    }
  }

  lemma StubKeeps(s: Session, own: string -> string, name: string, stub: NotReady)
    requires InStep(s, own)
    requires name !in s.mounted && own(stub.mount) == name && stub.state != Ready
    ensures InStep(WithStub(s, name, stub), own) && MountedKept(s, WithStub(s, name, stub))
  {
    hide InStep, MountedKept;
    var r := Route(stub.mount, "", 0, name, "", stub.state);
    NeverRefused(s, own, r);
    ReplaceKeeps(s, WithStub(s, name, stub), own, r);
  }

  lemma MountKeeps(s: Session, own: string -> string, e: Entry)
    requires InStep(s, own)
    requires e.name !in s.mounted && own(MountOf(e)) == e.name && e.outcome.Spawned?
    ensures InStep(Attempt(s, e), own) && MountedKept(s, Attempt(s, e))
  {
    hide InStep, MountedKept;
    var r := Route(MountOf(e), "", e.outcome.port, e.name, e.name, Ready);
    NeverRefused(s, own, r);
    ReplaceKeeps(s, Attempt(s, e), own, r);
  }

  /** Warnings are no part of it. */
  lemma WarnedKeeps(s: Session, t: Session, own: string -> string, name: string, reason: string)
    requires InStep(t, own) && MountedKept(s, t)
    ensures InStep(Warned(t, name, reason), own) && MountedKept(s, Warned(t, name, reason))
  {
    var u := Warned(t, name, reason);
    assert forall n: string :: NameOk(t, own, n) ==> NameOk(u, own, n);
    assert forall k <- t.routes :: RouteOk(t, own, k) ==> RouteOk(u, own, k);
    forall n: string
      ensures StillMounted(s, u, n)
    {
      assert StillMounted(s, t, n);
    }
  }

  lemma NothingChanged(s: Session)
    ensures MountedKept(s, s)
  {}

  lemma AttemptKeeps(s: Session, own: string -> string, e: Entry)
    requires InStep(s, own) && own(MountOf(e)) == e.name
    ensures InStep(Attempt(s, e), own) && MountedKept(s, Attempt(s, e))
    ensures Attempt(s, e).notReady.Keys <= s.notReady.Keys + {e.name}
  {
    hide InStep, MountedKept;
    NothingChanged(s);
    if e.name !in s.mounted && !e.outcome.SpawnFails? {
      if e.outcome.Spawned? {
        MountKeeps(s, own, e);
      } else {
        var state := if e.outcome.Stalled? then StubState(e.outcome.terminal) else Broken;
        var stub := NotReady(MountOf(e), state, e.outcome.detail);
        StubKeeps(s, own, e.name, stub);
        WarnedKeeps(s, WithStub(s, e.name, stub), own, e.name, e.outcome.detail);
      }
    }
  }

  /** Pruning takes a route exactly when it is the stub of a skill that goes. */
  lemma PrunedRoutes(s: Session, own: string -> string, gone: map<string, NotReady>, mount: string)
    requires InStep(s, own) && forall n <- gone :: n in s.notReady && gone[n] == s.notReady[n]
    ensures Flat(mount) in MountKeys(gone) <==> own(mount) in gone && gone[own(mount)].mount == mount
  {
    if Flat(mount) in MountKeys(gone) {
      var n :| n in gone && Flat(gone[n].mount) == Flat(mount);
      assert NameOk(s, own, n);
    }
    if own(mount) in gone && gone[own(mount)].mount == mount {
      assert Flat(gone[own(mount)].mount) in MountKeys(gone);
    }
  }

  /** What is kept of a skill that is not ready, and the last warning, go when it leaves the registry. */
  predicate Forgotten(s: Session, t: Session, n: string, registered: set<string>) {
    var gone := n in s.notReady && n !in registered;
    && (n in t.notReady <==> n in s.notReady && !gone) && (n in t.notReady ==> t.notReady[n] == s.notReady[n])
    && (n in t.warned <==> n in s.warned && !gone) && (n in t.warned ==> t.warned[n] == s.warned[n])
    && (n in t.mounted <==> n in s.mounted)
  }

  lemma PruneKeeps(s: Session, own: string -> string, registered: set<string>)
    requires InStep(s, own)
    ensures InStep(Prune(s, registered), own) && MountedKept(s, Prune(s, registered))
    ensures Prune(s, registered).notReady.Keys == s.notReady.Keys * registered
    ensures forall n: string :: Forgotten(s, Prune(s, registered), n, registered)
    ensures forall mount: string ::
              if own(mount) in s.notReady && own(mount) !in registered && s.notReady[own(mount)].mount == mount
              then Flat(mount) !in Prune(s, registered).routes
              else SameRoute(s.routes, Prune(s, registered).routes, Flat(mount))
  {
    var gone := s.notReady - registered;
    var t := Prune(s, registered);
    forall n: string
      ensures NameOk(t, own, n) && StillMounted(s, t, n)
    {
      assert NameOk(s, own, n);
      if n in s.mounted {
        PrunedRoutes(s, own, gone, s.mounted[n]);
      }
      if n in t.notReady {
        PrunedRoutes(s, own, gone, s.notReady[n].mount);
      }
    }
    forall k <- t.routes
      ensures RouteOk(t, own, k)
    {
      assert RouteOk(s, own, k);
    }
    forall mount: string
      ensures Flat(mount) in MountKeys(gone) <==> own(mount) in gone && gone[own(mount)].mount == mount
    {
      PrunedRoutes(s, own, gone, mount);
    }
  }

  lemma KeptTrans(s: Session, t: Session, u: Session)
    requires MountedKept(s, t) && MountedKept(t, u)
    ensures MountedKept(s, u)
  {
    forall n: string
      ensures StillMounted(s, u, n)
    {
      assert StillMounted(s, t, n) && StillMounted(t, u, n);
    }
  }

  lemma {:induction false} AttemptAllKeeps(s: Session, own: string -> string, entries: seq<Entry>)
    requires InStep(s, own) && Registers(own, entries)
    ensures InStep(AttemptAll(s, entries), own) && MountedKept(s, AttemptAll(s, entries))
    ensures AttemptAll(s, entries).notReady.Keys <= s.notReady.Keys + Names(entries)
    decreases |entries|
  {
    hide Attempt, InStep, MountedKept;
    NothingChanged(s);
    if entries != [] {
      var most := entries[..|entries| - 1];
      var last := entries[|entries| - 1];
      AttemptAllKeeps(s, own, most);
      AttemptKeeps(AttemptAll(s, most), own, last);
      KeptTrans(s, AttemptAll(s, most), AttemptAll(s, entries));
      assert entries == most + [last];
    }
  }

  /**
   * A reload keeps the books: mounted and not ready stay apart, mounted skills
   * and their routes stay as they are, newly mounted ones answer, and only
   * registered skills are not ready.
   */
  lemma ReloadKeeps(s: Session, own: string -> string, entries: seq<Entry>)
    requires InStep(s, own) && Registers(own, entries)
    ensures InStep(Reload(s, entries), own) && MountedKept(s, Reload(s, entries))
    ensures Reload(s, entries).notReady.Keys <= Names(entries)
  {
    hide InStep, AttemptAll, MountedKept, Prune;
    PruneKeeps(s, own, Names(entries));
    AttemptAllKeeps(Prune(s, Names(entries)), own, entries);
    KeptTrans(s, Prune(s, Names(entries)), Reload(s, entries));
  }

  lemma {:induction false} RunKeeps(s: Session, own: string -> string, reloads: seq<seq<Entry>>)
    requires InStep(s, own)
    requires forall i :: 0 <= i < |reloads| ==> Registers(own, reloads[i])
    ensures InStep(Run(s, reloads), own) && MountedKept(s, Run(s, reloads))
    ensures Down(Run(s, reloads)) == Down(s)
    ensures reloads != [] ==> Run(s, reloads).notReady.Keys <= Names(reloads[|reloads| - 1])
    decreases |reloads|
  {
    hide InStep, Reload, Registers, MountedKept;
    NothingChanged(s);
    if reloads != [] {
      var n := |reloads| - 1;
      RunKeeps(s, own, reloads[..n]);
      ReloadKeeps(Run(s, reloads[..n]), own, reloads[n]);
      KeptTrans(s, Run(s, reloads[..n]), Run(s, reloads));
    }
    SameDown(s, Run(s, reloads));
  }

  // ---- who is left out of the manifest ----

  predicate Known(s: Session, name: string) {
    name in s.mounted || name in s.notReady
  }

  lemma AttemptKnown(s: Session, e: Entry, name: string)
    ensures Known(Attempt(s, e), name) <==> Known(s, name) || (e.name == name && !e.outcome.SpawnFails?)
  {}

  lemma {:induction false} AttemptAllKnown(s: Session, entries: seq<Entry>, name: string)
    ensures Known(AttemptAll(s, entries), name)
       <==> Known(s, name) || exists i :: 0 <= i < |entries| && entries[i].name == name && !entries[i].outcome.SpawnFails?
    decreases |entries|
  {
    hide Attempt, Known;
    if entries != [] {
      var n := |entries| - 1;
      AttemptAllKnown(s, entries[..n], name);
      AttemptKnown(AttemptAll(s, entries[..n]), entries[n], name);
    }
  }

  /** The one registered skill a reload says nothing about is one that newly fails to spawn, under every entry it has. */
  lemma UnreportedIff(s: Session, entries: seq<Entry>, name: string)
    requires name in Names(entries)
    ensures !Known(Reload(s, entries), name)
       <==> !Known(s, name) && forall e <- entries :: e.name == name ==> e.outcome.SpawnFails?
  {
    hide Attempt, AttemptAll;
    AttemptAllKnown(Prune(s, Names(entries)), entries, name);
  }

  // ---- what a reload shows of a skill ----

  /** The entry that decides about its skill: the first one that spawns, else the last one that does not fail to. */
  predicate Decides(entries: seq<Entry>, i: nat) {
    i < |entries| &&
    if entries[i].outcome.Spawned? then
      forall j :: 0 <= j < i && entries[j].name == entries[i].name ==> !entries[j].outcome.Spawned?
    else
      && !entries[i].outcome.SpawnFails?
      && (forall j :: 0 <= j < |entries| && entries[j].name == entries[i].name ==> !entries[j].outcome.Spawned?)
      && (forall j :: i < j < |entries| && entries[j].name == entries[i].name ==> entries[j].outcome.SpawnFails?)
  }

  /** The stub of a skill: its entry in the manifest and its route, without an upstream and without an owner. */
  predicate Stub(s: Session, n: string, mount: string, state: RouteState, detail: string) {
    && n !in s.mounted && n in s.notReady && s.notReady[n] == NotReady(mount, state, detail)
    && Flat(mount) in s.routes && s.routes[Flat(mount)] == Route(mount, "", 0, n, "", state)
  }

  predicate Up(s: Session, n: string, mount: string, port: int) {
    && n in s.mounted && s.mounted[n] == mount && n !in s.notReady
    && Flat(mount) in s.routes && s.routes[Flat(mount)] == Route(mount, "", port, n, n, Ready)
  }

  /** How far the entry gets, as a client and the user see it. */
  predicate Shows(s: Session, e: Entry) {
    match e.outcome
    case MetaBroken(d) => Stub(s, e.name, e.name, Broken, d) && WarnedOf(s, e.name, d)
    case NotApproved(d) => Stub(s, e.name, e.declared, Broken, d) && WarnedOf(s, e.name, d)
    case Stalled(terminal, d) =>
      Stub(s, e.name, e.declared, if terminal then Broken else PendingCredentials, d) && WarnedOf(s, e.name, d)
    case SnapshotBroken(d) => Stub(s, e.name, e.declared, Broken, d)
    case Spawned(port) => Up(s, e.name, e.declared, port)
    case SpawnFails => true
  }

  predicate WarnedOf(s: Session, n: string, reason: string) {
    n in s.warned && s.warned[n] == reason
  }

  lemma AttemptShows(s: Session, own: string -> string, e: Entry)
    requires InStep(s, own) && own(MountOf(e)) == e.name && e.name !in s.mounted
    ensures Shows(Attempt(s, e), e)
    ensures !(e.outcome.MetaBroken? || e.outcome.NotApproved? || e.outcome.Stalled?) ==> Attempt(s, e).warned == s.warned
    ensures e.outcome.SpawnFails? ==> Attempt(s, e) == s
  {
    hide InStep, WithRoute;
    if e.outcome.Spawned? {
      NeverRefused(s, own, Route(MountOf(e), "", e.outcome.port, e.name, e.name, Ready));
    } else if !e.outcome.SpawnFails? {
      var state := if e.outcome.Stalled? then StubState(e.outcome.terminal) else Broken;
      NeverRefused(s, own, Route(MountOf(e), "", 0, e.name, "", state));
    }
  }

  /** Nothing that belongs to skill n differs. */
  ghost predicate SameSkill(s: Session, t: Session, own: string -> string, n: string) {
    && (n in t.mounted <==> n in s.mounted) && (n in s.mounted ==> t.mounted[n] == s.mounted[n])
    && (n in t.notReady <==> n in s.notReady) && (n in s.notReady ==> t.notReady[n] == s.notReady[n])
    && (n in t.warned <==> n in s.warned) && (n in s.warned ==> t.warned[n] == s.warned[n])
    && forall mount: string :: own(mount) == n ==> SameRoute(s.routes, t.routes, Flat(mount))
  }

  /** An entry changes nothing of other skills, and nothing at all if its skill is mounted. */
  lemma AttemptLeaves(s: Session, own: string -> string, e: Entry, n: string)
    requires own(MountOf(e)) == e.name && (n != e.name || n in s.mounted || e.outcome.SpawnFails?)
    ensures SameSkill(s, Attempt(s, e), own, n)
  {
    hide WithRoute;
    forall mount: string | own(mount) == n
      ensures SameRoute(s.routes, Attempt(s, e).routes, Flat(mount))
    {
      if e.name !in s.mounted && !e.outcome.SpawnFails? {
        var port, owner := if e.outcome.Spawned? then e.outcome.port else 0, if e.outcome.Spawned? then e.name else "";
        var state := match e.outcome
          case Spawned(_) => Ready
          case Stalled(terminal, _) => StubState(terminal)
          case _ => Broken;
        RouteElsewhere(s.routes, Route(MountOf(e), "", port, e.name, owner, state), Flat(mount));
      }
    }
  }

  lemma RouteElsewhere(table: Table, r: Route, k: Key)
    requires r.namespace == "" && k != Flat(r.mount)
    ensures SameRoute(table, WithRoute(table, r), k)
  {}

  lemma ShowsStays(s: Session, t: Session, own: string -> string, e: Entry)
    requires Shows(s, e) && SameSkill(s, t, own, e.name) && own(MountOf(e)) == e.name
    ensures Shows(t, e)
  {}

  lemma DecidesWithin(entries: seq<Entry>, i: nat)
    requires Decides(entries, i)
    ensures i < |entries|
  {}

  lemma DecidesInFront(entries: seq<Entry>, i: nat)
    requires Decides(entries, i) && i < |entries| - 1
    ensures var n := |entries| - 1;
            && Decides(entries[..n], i) && entries[..n][i] == entries[i]
            && (entries[n].name == entries[i].name ==> entries[i].outcome.Spawned? || entries[n].outcome.SpawnFails?)
  {}

  lemma {:induction false} AttemptAllShows(s: Session, own: string -> string, entries: seq<Entry>, i: nat)
    requires InStep(s, own) && Registers(own, entries) && Decides(entries, i) && entries[i].name !in s.mounted
    ensures Shows(AttemptAll(s, entries), entries[i])
    decreases |entries|
  {
    hide InStep, Decides, Shows, Attempt, SameSkill;
    DecidesWithin(entries, i);
    var n := |entries| - 1;
    var mid, last := AttemptAll(s, entries[..n]), entries[n];
    AttemptAllKeeps(s, own, entries[..n]);
    if i == n {
      NotSpawnedBefore(s, entries);
      AttemptShows(mid, own, last);
    } else {
      DecidesInFront(entries, i);
      AttemptAllShows(s, own, entries[..n], i);
      if entries[i].outcome.Spawned? {
        ShownUp(mid, entries[i]);
      }
      AttemptLeaves(mid, own, last, entries[i].name);
      ShowsStays(mid, Attempt(mid, last), own, entries[i]);
    }
  }

  lemma NotSpawnedBefore(s: Session, entries: seq<Entry>)
    requires entries != [] && Decides(entries, |entries| - 1) && entries[|entries| - 1].name !in s.mounted
    ensures entries[|entries| - 1].name !in AttemptAll(s, entries[..|entries| - 1]).mounted
  {
    var n := |entries| - 1;
    MountedIff(s, entries[..n], entries[n].name);
    assert forall j :: 0 <= j < n ==> entries[..n][j] == entries[j];
  }

  lemma {:induction false} MountedIff(s: Session, entries: seq<Entry>, name: string)
    ensures name in AttemptAll(s, entries).mounted <==> name in s.mounted || SpawnedIn(entries, name)
    decreases |entries|
  {
    hide Attempt, SpawnedIn;
    if entries == [] {
      NoneSpawned(name);
    } else {
      var n := |entries| - 1;
      MountedIff(s, entries[..n], name);
      SpawnedSnoc(entries, name);
      AttemptMounts(AttemptAll(s, entries[..n]), entries[n], name);
    }
  }

  /** After a reload each skill that was not mounted is what the entry that decides makes of it. */
  lemma ReloadShows(s: Session, own: string -> string, entries: seq<Entry>, i: nat)
    requires InStep(s, own) && Registers(own, entries) && Decides(entries, i) && entries[i].name !in s.mounted
    ensures Shows(Reload(s, entries), entries[i])
  {
    hide InStep, Decides, Shows, AttemptAll, Registers;
    PruneKeeps(s, own, Names(entries));
    AttemptAllShows(Prune(s, Names(entries)), own, entries, i);
  }

  lemma {:induction false} AttemptAllLeaves(s: Session, own: string -> string, entries: seq<Entry>, n: string)
    requires Registers(own, entries)
    requires n in s.mounted || forall e <- entries :: e.name == n ==> e.outcome.SpawnFails?
    ensures SameSkill(s, AttemptAll(s, entries), own, n)
    decreases |entries|
  {
    hide Attempt;
    if entries != [] {
      var k := |entries| - 1;
      assert entries[k] in entries && forall e <- entries[..k] :: e in entries;
      AttemptAllLeaves(s, own, entries[..k], n);
      AttemptLeaves(AttemptAll(s, entries[..k]), own, entries[k], n);
    }
  }

  /** A reload changes nothing of a skill that is mounted, nor of one whose entries all fail to spawn. */
  lemma ReloadLeaves(s: Session, own: string -> string, entries: seq<Entry>, n: string)
    requires InStep(s, own) && Registers(own, entries)
    requires n in s.mounted || (n in Names(entries) && forall e <- entries :: e.name == n ==> e.outcome.SpawnFails?)
    ensures SameSkill(s, Reload(s, entries), own, n)
  {
    hide AttemptAll, Prune;
    var registered := Names(entries);
    var t := Prune(s, registered);
    PruneKeeps(s, own, registered);
    assert NameOk(s, own, n) && Forgotten(s, t, n, registered) && StillMounted(s, t, n);
    AttemptAllLeaves(t, own, entries, n);
  }

  // ---- stubs left behind ----

  /** A route that neither a mounted nor a not-ready skill accounts for. */
  predicate Stray(s: Session, mount: string) {
    Flat(mount) in s.routes &&
    var n := s.routes[Flat(mount)].skill;
    && !(n in s.mounted && s.mounted[n] == mount)
    && !(n in s.notReady && s.notReady[n].mount == mount)
  }

  predicate Installs(s: Session, e: Entry) {
    e.name !in s.mounted && !e.outcome.SpawnFails?
  }

  predicate SpawnedIn(entries: seq<Entry>, name: string) {
    exists e <- entries :: e.name == name && e.outcome.Spawned?
  }

  /** Entry e, which comes after front, gets its route: its skill was not mounted before and no earlier entry spawned it. */
  predicate Brings(s: Session, front: seq<Entry>, e: Entry) {
    Installs(s, e) && !SpawnedIn(front, e.name)
  }

  /** The mount a reload puts the skill at last, if it does that at all. */
  function PutAt(s: Session, entries: seq<Entry>, name: string): Option<string>
    decreases |entries|
  {
    if entries == [] then None
    else
      var (front, last) := (entries[..|entries| - 1], entries[|entries| - 1]);
      if last.name == name && Brings(s, front, last) then Some(MountOf(last)) else PutAt(s, front, name)
  }

  /** A reload puts some skill at the mount at some time. */
  predicate EverAt(s: Session, entries: seq<Entry>, mount: string)
    decreases |entries|
  {
    entries != [] &&
    var (front, last) := (entries[..|entries| - 1], entries[|entries| - 1]);
    (MountOf(last) == mount && Brings(s, front, last)) || EverAt(s, front, mount)
  }

  lemma AttemptStray(s: Session, own: string -> string, e: Entry, mount: string)
    requires InStep(s, own) && own(MountOf(e)) == e.name
    ensures Stray(Attempt(s, e), mount)
       <==> if Installs(s, e) && own(mount) == e.name then mount != MountOf(e) && Flat(mount) in s.routes
            else Stray(s, mount)
  {
    if Installs(s, e) {
      AttemptRoute(s, own, e);
      assert Flat(mount) in s.routes ==> RouteOk(s, own, Flat(mount));
    }
  }

  /** The skill gets its route, whatever was there before. */
  lemma AttemptRoute(s: Session, own: string -> string, e: Entry)
    requires InStep(s, own) && own(MountOf(e)) == e.name && Installs(s, e)
    ensures var t := Attempt(s, e);
            && Flat(MountOf(e)) in t.routes && t.routes[Flat(MountOf(e))].skill == e.name
            && t.routes == s.routes[Flat(MountOf(e)) := t.routes[Flat(MountOf(e))]]
            && (if e.outcome.Spawned? then
                  t.mounted == s.mounted[e.name := MountOf(e)] && t.notReady == s.notReady - {e.name}
                else
                  t.mounted == s.mounted && e.name in t.notReady && t.notReady[e.name].mount == MountOf(e)
                  && t.notReady == s.notReady[e.name := t.notReady[e.name]])
  {
    hide InStep, WithRoute;
    if e.outcome.Spawned? {
      NeverRefused(s, own, Route(MountOf(e), "", e.outcome.port, e.name, e.name, Ready));
    } else {
      var state := if e.outcome.Stalled? then StubState(e.outcome.terminal) else Broken;
      NeverRefused(s, own, Route(MountOf(e), "", 0, e.name, "", state));
    }
  }

  lemma AttemptMounts(s: Session, e: Entry, name: string)
    ensures name in Attempt(s, e).mounted <==> name in s.mounted || (name == e.name && e.outcome.Spawned?)
  {}

  lemma SpawnedSnoc(entries: seq<Entry>, name: string)
    requires entries != []
    ensures var (front, last) := (entries[..|entries| - 1], entries[|entries| - 1]);
            SpawnedIn(entries, name) <==> SpawnedIn(front, name) || (last.name == name && last.outcome.Spawned?)
  {
    assert entries == entries[..|entries| - 1] + [entries[|entries| - 1]];
  }

  lemma PruneStray(s: Session, own: string -> string, registered: set<string>, mount: string)
    requires InStep(s, own)
    ensures Stray(Prune(s, registered), mount) <==> Stray(s, mount)
    ensures own(mount) in registered ==> (Flat(mount) in Prune(s, registered).routes <==> Flat(mount) in s.routes)
  {
    hide MountKeys;
    PrunedRoutes(s, own, s.notReady - registered, mount);
    if Flat(mount) in s.routes {
      assert RouteOk(s, own, Flat(mount));
    }
  }

  lemma {:induction false} AttemptAllStray(s: Session, own: string -> string, entries: seq<Entry>, mount: string)
    requires InStep(s, own) && Registers(own, entries)
    ensures match PutAt(s, entries, own(mount))
            case Some(at) =>
              Stray(AttemptAll(s, entries), mount) <==>
                at != mount && (Flat(mount) in s.routes || EverAt(s, entries, mount))
            case None => (Stray(AttemptAll(s, entries), mount) <==> Stray(s, mount))
    ensures Flat(mount) in AttemptAll(s, entries).routes <==> Flat(mount) in s.routes || EverAt(s, entries, mount)
    ensures own(mount) in AttemptAll(s, entries).mounted <==> own(mount) in s.mounted || SpawnedIn(entries, own(mount))
    decreases |entries|
  {
    hide Attempt, InStep, Stray, SpawnedIn;
    if entries != [] {
      var n := |entries| - 1;
      var mid, last := AttemptAll(s, entries[..n]), entries[n];
      AttemptAllKeeps(s, own, entries[..n]);
      AttemptAllStray(s, own, entries[..n], mount);
      SpawnedSnoc(entries, own(mount));
      AttemptStray(mid, own, last, mount);
      AttemptMounts(mid, last, own(mount));
      AttemptPuts(mid, own, last, mount);
    } else {
      NoneSpawned(own(mount));
    }
  }

  lemma NoneSpawned(name: string)
    ensures !SpawnedIn([], name)
  {}

  lemma AttemptPuts(s: Session, own: string -> string, e: Entry, mount: string)
    requires InStep(s, own) && own(MountOf(e)) == e.name
    ensures Flat(mount) in Attempt(s, e).routes <==> Flat(mount) in s.routes || (Installs(s, e) && MountOf(e) == mount)
  {
    if Installs(s, e) {
      AttemptRoute(s, own, e);
    }
  }

  /**
   * What a reload leaves behind: a mount keeps or gets a stray route exactly when
   * its skill is put at another mount in the end, or when the route was stray
   * before and the skill is not put anywhere.
   */
  lemma {:induction false} ReloadStray(s: Session, own: string -> string, entries: seq<Entry>, mount: string)
    requires InStep(s, own) && Registers(own, entries)
    ensures match PutAt(s, entries, own(mount))
            case Some(at) =>
              Stray(Reload(s, entries), mount) <==> at != mount && (Flat(mount) in s.routes || EverAt(s, entries, mount))
            case None => (Stray(Reload(s, entries), mount) <==> Stray(s, mount))
  {
    hide InStep, Stray, Registers, Prune, AttemptAll;
    var registered := Names(entries);
    PruneKeeps(s, own, registered);
    PruneStray(s, own, registered, mount);
    AttemptAllStray(Prune(s, registered), own, entries, mount);
    PrunedPuts(s, registered, entries, own(mount), mount);
    if own(mount) !in registered {
      NeverPut(s, own, entries, mount);
    }
  }

  /** Bringing skills up asks only which are mounted, and pruning leaves that alone. */
  lemma {:induction false} PrunedPuts(s: Session, registered: set<string>, entries: seq<Entry>, name: string, mount: string)
    ensures PutAt(Prune(s, registered), entries, name) == PutAt(s, entries, name)
    ensures EverAt(Prune(s, registered), entries, mount) == EverAt(s, entries, mount)
    decreases |entries|
  {
    if entries != [] {
      PrunedPuts(s, registered, entries[..|entries| - 1], name, mount);
    }
  }

  lemma {:induction false} NeverPut(s: Session, own: string -> string, entries: seq<Entry>, mount: string)
    requires Registers(own, entries) && own(mount) !in Names(entries)
    ensures PutAt(s, entries, own(mount)) == None && !EverAt(s, entries, mount) && !SpawnedIn(entries, own(mount))
    decreases |entries|
  {
    if entries != [] {
      var n := |entries| - 1;
      assert entries[n] in entries && forall e <- entries[..n] :: e in entries;
      assert entries[n].name in Names(entries);
      assert Names(entries[..n]) <= Names(entries);
      NeverPut(s, own, entries[..n], mount);
      SpawnedSnoc(entries, own(mount));
    }
  }

  /** A skill that has left the registry still has a stub exactly when one of its routes was stray before. */
  lemma LeaverKeepsStubIff(s: Session, own: string -> string, entries: seq<Entry>, name: string)
    requires InStep(s, own) && Registers(own, entries)
    requires name !in Names(entries) && name !in s.mounted
    ensures (exists mount :: own(mount) == name && Flat(mount) in Reload(s, entries).routes)
       <==> exists mount :: own(mount) == name && Stray(s, mount)
  {
    hide InStep, Registers, Reload, Stray;
    forall mount | own(mount) == name
      ensures Flat(mount) in Reload(s, entries).routes <==> Stray(s, mount)
    {
      LeaverRoute(s, own, entries, mount);
    }
  }

  lemma LeaverRoute(s: Session, own: string -> string, entries: seq<Entry>, mount: string)
    requires InStep(s, own) && Registers(own, entries)
    requires own(mount) !in Names(entries) && own(mount) !in s.mounted
    ensures Flat(mount) in Reload(s, entries).routes <==> Stray(s, mount)
  {
    hide Registers, AttemptAll;
    var t, u := Prune(s, Names(entries)), Reload(s, entries);
    PruneKeeps(s, own, Names(entries));
    AttemptAllStray(t, own, entries, mount);
    ReloadStray(s, own, entries, mount);
    NeverPut(s, own, entries, mount);
    ReloadKeeps(s, own, entries);
    if Flat(mount) in u.routes {
      assert RouteOk(u, own, Flat(mount));
    }
  }

  /** Stalled at m, then its omac.yaml breaks, then it is deregistered: the stub at m stays. */
  lemma StaleStub(n: string, m: string, d: string)
    requires m != n
    ensures var s := Run(Launch([]), [[Entry(n, m, Stalled(false, d))], [Entry(n, m, MetaBroken(d))], []]);
            && s.mounted == map[] && s.notReady == map[]
            && s.routes == map[Flat(m) := Route(m, "", 0, n, "", PendingCredentials)]
  {
    var a, b := [Entry(n, m, Stalled(false, d))], [Entry(n, m, MetaBroken(d))];
    assert [] + [a] == [a] && [a] + [b] == [a, b] && [a, b] + [[]] == [a, b, []];
    RunMore(Launch([]), [], a);
    RunMore(Launch([]), [a], b);
    RunMore(Launch([]), [a, b], []);
    FirstStub(n, m, d);
    var s1 := Reload(Launch([]), a);
    OneEntry(s1, b[0]);
    SecondStub(s1, n, m, d);
    AllLeave(Attempt(s1, b[0]));
  }

  lemma FirstStub(n: string, m: string, d: string)
    ensures Reload(Launch([]), [Entry(n, m, Stalled(false, d))])
         == Session(map[], map[n := NotReady(m, PendingCredentials, d)], map[n := d],
                    map[Flat(m) := Route(m, "", 0, n, "", PendingCredentials)])
  {
    OneEntry(Launch([]), Entry(n, m, Stalled(false, d)));
  }

  lemma SecondStub(s: Session, n: string, m: string, d: string)
    requires s == Session(map[], map[n := NotReady(m, PendingCredentials, d)], map[n := d],
                          map[Flat(m) := Route(m, "", 0, n, "", PendingCredentials)])
    requires m != n
    ensures var t := Attempt(s, Entry(n, m, MetaBroken(d)));
            t.mounted == map[] && t.warned == s.warned && t.routes - MountKeys(t.notReady) == s.routes
  {}

  /** Refused at launch and then deregistered: its stub stays too. */
  lemma StaleRefusal(n: string, m: string, d: string)
    ensures var s := Run(Launch([Entry(n, m, NotApproved(d))]), [[]]);
            s.mounted == map[] && s.notReady == map[] && s.routes == map[Flat(m) := Route(m, "", 0, n, "", Broken)]
  {
    var e := Entry(n, m, NotApproved(d));
    var none: seq<Entry> := [];
    assert none + [e] == [e] && [] + [none] == [none];
    RunMore(Launch([e]), [], none);
    LaunchRefused(n, m, d);
    AllLeave(Launch([e]));
  }

  lemma LaunchRefused(n: string, m: string, d: string)
    ensures Launch([Entry(n, m, NotApproved(d))])
         == Session(map[], map[], map[], map[Flat(m) := Route(m, "", 0, n, "", Broken)])
  {
    var e := Entry(n, m, NotApproved(d));
    var none: seq<Entry> := [];
    assert none + [e] == [e];
    LaunchSnoc(none, e, map[]);
  }

  /** Two entries of one name, waiting at two mounts: the first stub is stray at once and outlives both entries. */
  lemma TwinStub(n: string, m1: string, m2: string, d: string)
    requires m1 != m2
    ensures var twins := [Entry(n, m1, Stalled(false, d)), Entry(n, m2, Stalled(false, d))];
            var s := Run(Launch([]), [twins, []]);
            && Stray(Reload(Launch([]), twins), m1) && s.mounted == map[] && s.notReady == map[]
            && s.routes == map[Flat(m1) := Route(m1, "", 0, n, "", PendingCredentials)]
  {
    var a, b := Entry(n, m1, Stalled(false, d)), Entry(n, m2, Stalled(false, d));
    assert [] + [[a, b]] == [[a, b]] && [[a, b]] + [[]] == [[a, b], []];
    RunMore(Launch([]), [], [a, b]);
    RunMore(Launch([]), [[a, b]], []);
    AllStay(Launch([]), Names([a, b]));
    TwoEntries(Launch([]), a, b);
    TwoStubs(n, m1, m2, d);
    AllLeave(Reload(Launch([]), [a, b]));
  }

  lemma TwoStubs(n: string, m1: string, m2: string, d: string)
    requires m1 != m2
    ensures var s := Attempt(Attempt(Launch([]), Entry(n, m1, Stalled(false, d))), Entry(n, m2, Stalled(false, d)));
            && Stray(s, m1) && s.mounted == map[]
            && s.routes - MountKeys(s.notReady) == map[Flat(m1) := Route(m1, "", 0, n, "", PendingCredentials)]
  {
    var s := Attempt(Attempt(Launch([]), Entry(n, m1, Stalled(false, d))), Entry(n, m2, Stalled(false, d)));
    OnlyStub(s.notReady, n, m2);
  }

  lemma {:induction false} RunMore(s: Session, reloads: seq<seq<Entry>>, entries: seq<Entry>)
    ensures Run(s, reloads + [entries]) == Reload(Run(s, reloads), entries)
  {}

  lemma OneEntry(s: Session, e: Entry)
    requires forall n <- s.notReady :: n == e.name
    ensures Reload(s, [e]) == Attempt(s, e)
  {
    var none: seq<Entry> := [];
    assert [e][..0] == none && e in [e];
    AllStay(s, Names([e]));
    assert AttemptAll(s, none) == s;
  }

  lemma {:induction false} TwoEntries(s: Session, e: Entry, f: Entry)
    ensures AttemptAll(s, [e, f]) == Attempt(Attempt(s, e), f)
  {
    var none: seq<Entry> := [];
    assert [e, f][..1] == [e] && [e][..0] == none;
    assert AttemptAll(s, none) == s;
  }

  lemma AllStay(s: Session, registered: set<string>)
    requires s.notReady.Keys <= registered
    ensures Prune(s, registered) == s
  {}

  lemma AllLeave(s: Session)
    ensures Reload(s, []) == Session(s.mounted, map[], s.warned - s.notReady.Keys, s.routes - MountKeys(s.notReady))
  {
    assert Names([]) == {};
    assert s.notReady - {} == s.notReady;
  }

  lemma OnlyStub(stubs: map<string, NotReady>, n: string, m: string)
    requires stubs.Keys == {n} && stubs[n].mount == m
    ensures MountKeys(stubs) == {Flat(m)}
  {}

  // ---- why mounts must be distinct ----

  /** The route of a mounted skill survives the pruning exactly when no skill that leaves has its mount. */
  lemma PruneSparesIff(s: Session, registered: set<string>, name: string)
    requires name in s.mounted && Flat(s.mounted[name]) in s.routes
    ensures Flat(s.mounted[name]) in Prune(s, registered).routes
       <==> forall n <- s.notReady | n !in registered :: s.notReady[n].mount != s.mounted[name]
  {
    var gone := s.notReady - registered;
    if n :| n in s.notReady && n !in registered && s.notReady[n].mount == s.mounted[name] {
      assert Flat(gone[n].mount) in MountKeys(gone);
    }
  }

  /** A waits for a secret at m while B goes live there; then A is deregistered, and the route of B goes for good. */
  lemma SharedMount(a: string, b: string, m: string, d: string, port: int)
    requires a != b
    ensures var live := Entry(b, m, Spawned(port));
            var s := Run(Launch([]), [[Entry(a, m, Stalled(false, d)), live], [live]]);
            s.mounted == map[b := m] && s.routes == map[] && Reload(s, [live]) == s
  {
    var stalled, live := Entry(a, m, Stalled(false, d)), Entry(b, m, Spawned(port));
    var both := [stalled, live];
    assert [] + [both] == [both] && [both] + [[live]] == [both, [live]];
    RunMore(Launch([]), [], both);
    RunMore(Launch([]), [both], [live]);
    var s1 := Session(map[b := m], map[a := NotReady(m, PendingCredentials, d)], map[a := d],
                      map[Flat(m) := Route(m, "", port, b, b, Ready)]);
    AllStay(Launch([]), Names(both));
    TwoEntries(Launch([]), stalled, live);
    assert Run(Launch([]), [both]) == s1;
    var s2 := Session(map[b := m], map[], map[], map[]);
    assert Names([live]) == {b} by {
      assert live in [live];
    }
    assert s1.notReady - Names([live]) == s1.notReady;
    OnlyStub(s1.notReady, a, m);
    assert Prune(s1, Names([live])) == s2;
    AllStay(s2, Names([live]));
    OneEntry(s2, live);
  }

  // ---- the session at launch ----

  function MountSpawned(entries: seq<Entry>): Session
    decreases |entries|
  {
    if entries == [] then Session(map[], map[], map[], map[])
    else
      var (s, e) := (MountSpawned(entries[..|entries| - 1]), entries[|entries| - 1]);
      if !e.outcome.Spawned? then s
      else
        s.(routes := s.routes[Flat(MountOf(e)) := Route(MountOf(e), "", e.outcome.port, e.name, "", Ready)],
           mounted := s.mounted[e.name := MountOf(e)])
  }

  function WithRefused(routes: Table, entries: seq<Entry>): Table
    decreases |entries|
  {
    if entries == [] then routes
    else
      var (t, e) := (WithRefused(routes, entries[..|entries| - 1]), entries[|entries| - 1]);
      if e.outcome.Spawned? then t else t[Flat(MountOf(e)) := Route(MountOf(e), "", 0, e.name, "", Broken)]
  }

  /**
   * A start that goes ahead mounts the skills it spawned; the broken routes of the
   * refused ones come after theirs, whatever the order of the registry. No route
   * has an owner.
   */
  function Launch(entries: seq<Entry>): Session {
    var s := MountSpawned(entries);
    s.(routes := WithRefused(s.routes, entries))
  }

  /** The mount of the last entry of the name that was spawned. */
  function LaunchMount(entries: seq<Entry>, name: string): Option<string>
    decreases |entries|
  {
    if entries == [] then None
    else
      var e := entries[|entries| - 1];
      if e.name == name && e.outcome.Spawned? then Some(MountOf(e))
      else LaunchMount(entries[..|entries| - 1], name)
  }

  predicate RefusedAt(entries: seq<Entry>, mount: string) {
    exists e <- entries :: !e.outcome.Spawned? && MountOf(e) == mount
  }

  lemma {:induction false} SpawnedInStep(own: string -> string, entries: seq<Entry>)
    requires Registers(own, entries)
    ensures var s := MountSpawned(entries);
            && InStep(s, own) && s.notReady == map[] && Down(s) == {}
            && forall n: string ::
                 (n in s.mounted <==> LaunchMount(entries, n).Some?)
                 && (n in s.mounted ==> LaunchMount(entries, n) == Some(s.mounted[n]))
    decreases |entries|
  {
    if entries != [] {
      hide InStep, Down;
      var n := |entries| - 1;
      SpawnedInStep(own, entries[..n]);
      if entries[n].outcome.Spawned? {
        SpawnInStep(MountSpawned(entries[..n]), own, entries[n]);
      }
    }
  }

  lemma SpawnInStep(s: Session, own: string -> string, e: Entry)
    requires InStep(s, own) && s.notReady == map[] && Down(s) == {}
    requires e.outcome.Spawned? && own(MountOf(e)) == e.name
    ensures var m := MountOf(e);
            var t := s.(routes := s.routes[Flat(m) := Route(m, "", e.outcome.port, e.name, "", Ready)],
                        mounted := s.mounted[e.name := m]);
            InStep(t, own) && Down(t) == {}
  {
    var m := MountOf(e);
    var t := s.(routes := s.routes[Flat(m) := Route(m, "", e.outcome.port, e.name, "", Ready)],
                mounted := s.mounted[e.name := m]);
    forall n: string
      ensures NameOk(t, own, n) && n !in Down(t)
    {
      assert NameOk(s, own, n) && n !in Down(s);
    }
    forall k <- t.routes
      ensures RouteOk(t, own, k)
    {
      assert k in s.routes ==> RouteOk(s, own, k);
    }
  }

  /** A refused skill has the route of its mount, whoever had it before. */
  lemma {:induction false} RefusedRoute(own: string -> string, routes: Table, entries: seq<Entry>, k: Key)
    requires Registers(own, entries)
    ensures var t := WithRefused(routes, entries);
            if k == Flat(k.mount) && RefusedAt(entries, k.mount) then
              k in t && t[k] == Route(k.mount, "", 0, own(k.mount), "", Broken)
            else
              SameRoute(routes, t, k)
    decreases |entries|
  {
    if entries != [] {
      hide RefusedAt;
      RefusedRoute(own, routes, entries[..|entries| - 1], k);
      RefusedSnoc(entries, k.mount);
    }
  }

  lemma RefusedSnoc(entries: seq<Entry>, mount: string)
    requires entries != []
    ensures var (front, last) := (entries[..|entries| - 1], entries[|entries| - 1]);
            RefusedAt(entries, mount) <==> RefusedAt(front, mount) || (!last.outcome.Spawned? && MountOf(last) == mount)
  {
    assert entries == entries[..|entries| - 1] + [entries[|entries| - 1]];
  }

  /** A launch is in step, and a mounted skill does not answer exactly when another entry was refused at its mount. */
  lemma {:induction false} LaunchInStep(own: string -> string, entries: seq<Entry>)
    requires Registers(own, entries)
    ensures var s := Launch(entries);
            && InStep(s, own) && s.notReady == map[]
            && (forall n: string :: n in s.mounted <==> LaunchMount(entries, n).Some?)
            && (forall n: string :: n in Down(s) <==>
                  LaunchMount(entries, n).Some? && RefusedAt(entries, LaunchMount(entries, n).value))
  {
    hide RefusedAt;
    var s, t := MountSpawned(entries), Launch(entries);
    SpawnedInStep(own, entries);
    forall n: string
      ensures NameOk(t, own, n)
      ensures n in Down(t) <==> LaunchMount(entries, n).Some? && RefusedAt(entries, LaunchMount(entries, n).value)
    {
      assert NameOk(s, own, n) && n !in Down(s);
      if n in s.mounted {
        RefusedRoute(own, s.routes, entries, Flat(s.mounted[n]));
      }
    }
    forall k <- t.routes
      ensures RouteOk(t, own, k)
    {
      RefusedRoute(own, s.routes, entries, k);
      assert k in s.routes ==> RouteOk(s, own, k);
    }
  }

  /**
   * From launch on, after any reloads, the maps and the routes agree, and every
   * mounted skill answers except those that never did: the ones with an entry
   * refused at their mount when they were launched.
   */
  lemma {:induction false} SessionInStep(own: string -> string, entries: seq<Entry>, reloads: seq<seq<Entry>>)
    requires Registers(own, entries) && forall i :: 0 <= i < |reloads| ==> Registers(own, reloads[i])
    ensures var s := Run(Launch(entries), reloads);
            && InStep(s, own) && MountedKept(Launch(entries), s)
            && forall n: string :: n in Down(s) <==>
                 LaunchMount(entries, n).Some? && RefusedAt(entries, LaunchMount(entries, n).value)
  {
    hide InStep, MountedKept, Down, Registers, RefusedAt, LaunchMount, Launch;
    LaunchInStep(own, entries);
    RunKeeps(Launch(entries), own, reloads);
  }

  // ---- which process answers for a skill ----

  /** The last spawned entry of the name is the one in the list of routes that counts. */
  predicate LastSpawned(entries: seq<Entry>, i: nat) {
    i < |entries| && entries[i].outcome.Spawned? &&
    forall j :: i < j < |entries| && entries[j].name == entries[i].name ==> !entries[j].outcome.Spawned?
  }

  predicate LaunchedAt(entries: seq<Entry>, n: string, mount: string, port: int) {
    exists i :: 0 <= i < |entries| && LastSpawned(entries, i) && entries[i] == Entry(n, mount, Spawned(port))
  }

  predicate FirstSpawn(entries: seq<Entry>, n: string, mount: string, port: int) {
    exists i :: 0 <= i < |entries| && Decides(entries, i) && entries[i] == Entry(n, mount, Spawned(port))
  }

  predicate SpawnedBefore(entries: seq<Entry>, reloads: seq<seq<Entry>>, n: string) {
    SpawnedIn(entries, n) || exists k :: 0 <= k < |reloads| && SpawnedIn(reloads[k], n)
  }

  lemma {:induction false} LastSpawnedRoute(own: string -> string, entries: seq<Entry>, i: nat)
    requires Registers(own, entries) && LastSpawned(entries, i)
    ensures var s, e := MountSpawned(entries), entries[i];
            && e.name in s.mounted && s.mounted[e.name] == e.declared && Flat(e.declared) in s.routes
            && s.routes[Flat(e.declared)] == Route(e.declared, "", e.outcome.port, e.name, "", Ready)
    decreases |entries|
  {
    var n := |entries| - 1;
    if i < n {
      assert entries[..n][i] == entries[i] && LastSpawned(entries[..n], i);
      LastSpawnedRoute(own, entries[..n], i);
      assert own(MountOf(entries[n])) == entries[n].name && own(MountOf(entries[i])) == entries[i].name;
    }
  }

  lemma {:induction false} LastSpawnedIs(entries: seq<Entry>, n: string) returns (i: nat)
    requires SpawnedIn(entries, n)
    ensures LastSpawned(entries, i) && entries[i].name == n
    decreases |entries|
  {
    var k := |entries| - 1;
    if entries[k].name == n && entries[k].outcome.Spawned? {
      i := k;
    } else {
      SpawnedSnoc(entries, n);
      i := LastSpawnedIs(entries[..k], n);
    }
  }

  lemma {:induction false} FirstSpawnIs(entries: seq<Entry>, n: string) returns (i: nat)
    requires SpawnedIn(entries, n)
    ensures Decides(entries, i) && entries[i].name == n && entries[i].outcome.Spawned?
    decreases |entries|
  {
    var k := |entries| - 1;
    SpawnedSnoc(entries, n);
    if SpawnedIn(entries[..k], n) {
      i := FirstSpawnIs(entries[..k], n);
    } else {
      i := k;
      forall j | 0 <= j < k && entries[j].name == n
        ensures !entries[j].outcome.Spawned?
      {
        assert entries[..k][j] in entries[..k];
      }
    }
  }

  /** At launch a skill is mounted exactly when it was spawned, and answers from the last such process. */
  lemma LaunchPorts(own: string -> string, entries: seq<Entry>, n: string)
    requires Registers(own, entries)
    ensures var s := Launch(entries);
            && (n in s.mounted <==> SpawnedIn(entries, n))
            && (n in s.mounted && n !in Down(s) ==> LaunchedAt(entries, n, s.mounted[n], s.routes[Flat(s.mounted[n])].port))
  {
    hide LastSpawned, RefusedAt, InStep;
    var s, t := MountSpawned(entries), Launch(entries);
    SpawnedInStep(own, entries);
    LaunchMountSome(entries, n);
    if SpawnedIn(entries, n) {
      var i := LastSpawnedIs(entries, n);
      LastSpawnedRoute(own, entries, i);
      SpawnedWithin(entries, i);
      RefusedRoute(own, s.routes, entries, Flat(s.mounted[n]));
      if n !in Down(t) {
        assert t.routes[Flat(s.mounted[n])].port == entries[i].outcome.port;
        assert entries[i] == Entry(n, s.mounted[n], Spawned(entries[i].outcome.port));
      }
    }
  }

  lemma SpawnedWithin(entries: seq<Entry>, i: nat)
    requires LastSpawned(entries, i)
    ensures i < |entries| && entries[i].outcome.Spawned?
  {}

  lemma {:induction false} LaunchMountSome(entries: seq<Entry>, n: string)
    ensures LaunchMount(entries, n).Some? <==> SpawnedIn(entries, n)
    decreases |entries|
  {
    if entries != [] {
      LaunchMountSome(entries[..|entries| - 1], n);
      SpawnedSnoc(entries, n);
    }
  }

  /**
   * In every session a skill is mounted exactly when it was spawned at launch or
   * in a reload. One that answers does so from the process that mounted it: the
   * last of its entries at launch, or else the first of its entries in the first
   * reload that spawned any.
   */
  lemma {:induction false} SessionPorts(own: string -> string, entries: seq<Entry>, reloads: seq<seq<Entry>>, n: string)
    requires Registers(own, entries) && forall i :: 0 <= i < |reloads| ==> Registers(own, reloads[i])
    ensures n in Run(Launch(entries), reloads).mounted <==> SpawnedBefore(entries, reloads, n)
    ensures var s := Run(Launch(entries), reloads);
            n in s.mounted && n !in Down(s) ==>
              Flat(s.mounted[n]) in s.routes &&
              var port := s.routes[Flat(s.mounted[n])].port;
              if SpawnedIn(entries, n) then LaunchedAt(entries, n, s.mounted[n], port)
              else exists k :: 0 <= k < |reloads| && !SpawnedBefore(entries, reloads[..k], n)
                            && FirstSpawn(reloads[k], n, s.mounted[n], port)
    decreases |reloads|
  {
    hide InStep, Down, Launch, Reload, LaunchedAt, FirstSpawn, SpawnedIn, Registers, MountedKept;
    if reloads == [] {
      LaunchPorts(own, entries, n);
      DownIs(Launch(entries), n);
    } else {
      var k := |reloads| - 1;
      var s, t := Run(Launch(entries), reloads[..k]), Run(Launch(entries), reloads);
      SessionInStep(own, entries, reloads[..k]);
      SessionPorts(own, entries, reloads[..k], n);
      ReloadMounts(s, own, reloads[k], n);
      DownIs(t, n);
      SpawnedBeforeSnoc(entries, reloads, n);
      if n in s.mounted {
        forall j | 0 <= j < k
          ensures reloads[..k][..j] == reloads[..j] && reloads[..k][j] == reloads[j]
        {}
      }
    }
  }

  lemma DownIs(s: Session, n: string)
    ensures n in Down(s) <==> n in s.mounted && !Serves(s, s.mounted[n], n, Ready)
  {}

  lemma SpawnedBeforeSnoc(entries: seq<Entry>, reloads: seq<seq<Entry>>, n: string)
    requires reloads != []
    ensures var k := |reloads| - 1;
            SpawnedBefore(entries, reloads, n) <==> SpawnedBefore(entries, reloads[..k], n) || SpawnedIn(reloads[k], n)
  {
    hide SpawnedIn;
    var k := |reloads| - 1;
    assert forall j :: 0 <= j < k ==> reloads[..k][j] == reloads[j];
    if j :| 0 <= j < |reloads| && SpawnedIn(reloads[j], n) && j < k {
      assert SpawnedIn(reloads[..k][j], n);
    }
  }

  /** One reload mounts exactly the skills it spawns, and leaves those mounted before alone. */
  lemma ReloadMounts(s: Session, own: string -> string, entries: seq<Entry>, n: string)
    requires InStep(s, own) && Registers(own, entries)
    ensures var t := Reload(s, entries);
            && (n in t.mounted <==> n in s.mounted || SpawnedIn(entries, n))
            && (n in s.mounted ==> t.mounted[n] == s.mounted[n] && SameRoute(s.routes, t.routes, Flat(s.mounted[n]))
                                   && (n in Down(t) <==> n in Down(s)))
            && (n !in s.mounted && n in t.mounted ==>
                  Flat(t.mounted[n]) in t.routes && FirstSpawn(entries, n, t.mounted[n], t.routes[Flat(t.mounted[n])].port))
  {
    hide InStep, AttemptAll, Decides, Shows, Prune, Registers;
    var t := Reload(s, entries);
    ReloadKeeps(s, own, entries);
    SameDown(s, t);
    assert StillMounted(s, t, n);
    PruneKeeps(s, own, Names(entries));
    assert Forgotten(s, Prune(s, Names(entries)), n, Names(entries));
    MountedIff(Prune(s, Names(entries)), entries, n);
    if n !in s.mounted && SpawnedIn(entries, n) {
      var i := FirstSpawnIs(entries, n);
      DecidesWithin(entries, i);
      ReloadShows(s, own, entries, i);
      ShownUp(t, entries[i]);
      assert entries[i] == Entry(n, t.mounted[n], Spawned(t.routes[Flat(t.mounted[n])].port));
    }
  }

  lemma ShownUp(s: Session, e: Entry)
    requires Shows(s, e) && e.outcome.Spawned?
    ensures Up(s, e.name, e.declared, e.outcome.port)
  {}

  /** Two entries of one name at one mount, in either order: the skill runs, and its route says it is broken. */
  lemma RefusedTwin(n: string, m: string, d: string, port: int, refusedFirst: bool)
    ensures var live, refused := Entry(n, m, Spawned(port)), Entry(n, m, NotApproved(d));
            var s := Launch(if refusedFirst then [refused, live] else [live, refused]);
            s.mounted == map[n := m] && s.routes == map[Flat(m) := Route(m, "", 0, n, "", Broken)] && n in Down(s)
  {
    var live, refused := Entry(n, m, Spawned(port)), Entry(n, m, NotApproved(d));
    var none: seq<Entry> := [];
    var up := Route(m, "", port, n, "", Ready);
    var (e, f) := if refusedFirst then (refused, live) else (live, refused);
    assert none + [e] == [e] && [e] + [f] == [e, f];
    LaunchSnoc(none, e, map[Flat(m) := up]);
    LaunchSnoc([e], f, map[Flat(m) := up]);
    assert MountSpawned([e, f]) == Session(map[n := m], map[], map[], map[Flat(m) := up]);
  }

  lemma {:induction false} LaunchSnoc(front: seq<Entry>, e: Entry, routes: Table)
    ensures var s := MountSpawned(front);
            MountSpawned(front + [e]) ==
              if !e.outcome.Spawned? then s
              else
                s.(routes := s.routes[Flat(MountOf(e)) := Route(MountOf(e), "", e.outcome.port, e.name, "", Ready)],
                   mounted := s.mounted[e.name := MountOf(e)])
    ensures var t := WithRefused(routes, front);
            WithRefused(routes, front + [e]) ==
              if e.outcome.Spawned? then t else t[Flat(MountOf(e)) := Route(MountOf(e), "", 0, e.name, "", Broken)]
  {
    assert (front + [e])[..|front|] == front;
  }

  // ---- the reloader ----

  datatype Line = Line(name: string, mount: string, state: RouteState, detail: string)

  class StartReloader {
    const facade: Facade
    var mounted: map<string, string>
    var notReady: map<string, NotReady>
    var warned: map<string, string>

    ghost predicate Valid()
      reads this, facade
    {
      facade.Valid()
    }

    ghost function View(): Session
      requires Valid()
      reads this, facade
    {
      Session(mounted, notReady, warned, facade.Index())
    }

    constructor (facade: Facade)
      requires facade.Valid()
      ensures Valid() && this.facade == facade && View() == Session(map[], map[], map[], facade.Index())
    {
      this.facade := facade;
      mounted, notReady, warned := map[], map[], map[];
    }

    /** Records a skill as mounted and clears what kept it from being so. */
    method MarkMounted(name: string, mount: string)
      requires Valid()
      modifies this
      ensures Valid() && View() == old(View()).(mounted := old(mounted)[name := mount], notReady := old(notReady) - {name})
    {
      mounted := mounted[name := mount];
      notReady := notReady - {name};
    }

    method MarkNotReady(name: string, st: NotReady)
      requires Valid()
      modifies this
      ensures Valid() && View() == old(View()).(notReady := old(notReady)[name := st])
    {
      notReady := notReady[name := st];
    }

    /** True when this reason was not the last one reported for the skill. */
    method WarnOnce(name: string, reason: string) returns (report: bool)
      requires Valid()
      modifies this
      ensures Valid() && View() == Warned(old(View()), name, reason)
      ensures report <==> !(name in old(warned) && old(warned)[name] == reason)
    {
      if name in warned && warned[name] == reason {
        assert warned == warned[name := reason];
        return false;
      }
      warned := warned[name := reason];
      return true;
    }

    /** A stub route and a manifest entry. */
    method MarkStub(name: string, st: NotReady)
      requires Valid() && Segment(st.mount)
      modifies this, facade
      ensures Valid() && View() == WithStub(old(View()), name, st) && warned == old(warned)
    {
      hide WithRoute, Keyed, IndexOf;
      facade.AddRoute(Route(st.mount, "", 0, name, "", st.state));
      MarkNotReady(name, st);
    }

    /** The same, with one line per reason. */
    method ReportNotReady(name: string, st: NotReady) returns (report: bool)
      requires Valid() && Segment(st.mount)
      modifies this, facade
      ensures Valid() && View() == Warned(WithStub(old(View()), name, st), name, st.detail)
      ensures report <==> !(name in old(warned) && old(warned)[name] == st.detail)
    {
      hide WithStub, Warned, Keyed, IndexOf;
      MarkStub(name, st);
      report := WarnOnce(name, st.detail);
    }

    /** A spawned skill gets its route, and the route its owner. */
    method Mount(name: string, mount: string, port: int)
      requires Valid() && Segment(mount)
      modifies this, facade
      ensures Valid()
      ensures View() == old(View()).(
                          routes := WithRoute(old(View()).routes, Route(mount, "", port, name, name, Ready)),
                          mounted := old(mounted)[name := mount], notReady := old(notReady) - {name})
    {
      hide WithRoute, Keyed, IndexOf;
      facade.AddRoute(Route(mount, "", port, name, name, Ready));
      MarkMounted(name, mount);
    }

    /** Drops what is kept for skills that have left the registry. */
    method PruneNotReady(registered: set<string>)
      requires Valid() && forall n <- notReady :: SlashFree(notReady[n].mount)
      modifies this, facade
      ensures Valid() && View() == Prune(old(View()), registered)
    {
      hide MountKeys, Keyed, IndexOf;
      var dropped := notReady - registered;
      notReady := notReady - dropped.Keys;
      warned := warned - dropped.Keys;
      RemoveStubs(dropped);
    }

    method RemoveStubs(dropped: map<string, NotReady>)
      requires Valid() && forall n <- dropped :: SlashFree(dropped[n].mount)
      modifies facade
      ensures Valid() && facade.Index() == old(facade.Index()) - MountKeys(dropped)
    {
      hide MountKeys, SlashFree, Keyed, IndexOf;
      var left := dropped.Keys;
      ghost var before := facade.Index();
      NoMountKeys(dropped);
      while left != {}
        invariant Valid() && left <= dropped.Keys
        invariant facade.Index() == before - MountKeys(dropped - left)
        decreases left
      {
        var name :| name in left;
        MountKeysPut(dropped, left, name);
        FlatSlashFree();
        facade.RemoveRoute("", dropped[name].mount);
        left := left - {name};
      }
      assert dropped - left == dropped;
    }

    /** One registered skill: brought up, or not, as the outcome says. */
    method Bring(e: Entry)
      requires Valid() && Segment(MountOf(e))
      modifies this, facade
      ensures Valid() && View() == Attempt(old(View()), e)
    {
      hide WithRoute, WithStub, Warned, Keyed, IndexOf;
      if e.name in mounted {
        return;
      }
      match e.outcome {
        case MetaBroken(d) =>
          var report := ReportNotReady(e.name, NotReady(MountOf(e), Broken, d));
        case NotApproved(d) =>
          MarkStub(e.name, NotReady(MountOf(e), Broken, d));
          var report := WarnOnce(e.name, d);
        case Stalled(terminal, d) =>
          var report := ReportNotReady(e.name, NotReady(MountOf(e), StubState(terminal), d));
        case SnapshotBroken(d) =>
          MarkStub(e.name, NotReady(MountOf(e), Broken, d));
        case SpawnFails =>
        case Spawned(port) =>
          Mount(e.name, MountOf(e), port);
      }
    }

    /** reload, once both registries are loaded: prune, then each registered skill that is not mounted. */
    method ReloadNow(entries: seq<Entry>)
      requires Valid() && (forall n <- notReady :: SlashFree(notReady[n].mount))
      requires forall i :: 0 <= i < |entries| ==> Segment(MountOf(entries[i]))
      modifies this, facade
      ensures Valid() && View() == Reload(old(View()), entries)
    {
      hide Prune, Attempt, Keyed, IndexOf;
      var registered := set e | e in entries :: e.name;
      PruneNotReady(registered);
      ghost var pruned := View();
      for i := 0 to |entries|
        invariant Valid() && View() == AttemptAll(pruned, entries[..i])
      {
        Bring(entries[i]);
        assert entries[..i + 1][..i] == entries[..i];
      }
      assert entries[..|entries|] == entries;
    }

    /** What the manifest lists, by name: each skill once, with what its route answers unless it is down. */
    method Manifest(ghost own: string -> string) returns (lines: seq<Line>)
      requires Valid() && InStep(View(), own)
      ensures Listed(lines) == mounted.Keys + notReady.Keys
      ensures forall i, j :: 0 <= i < j < |lines| ==> Less(lines[i].name, lines[j].name)
      ensures forall line <- lines :: LineOk(View(), line)
    {
      hide *;
      lines := Collect(own);
      LinesSorted(lines);
      lines := StableSort(ByName, lines);
    }

    method Collect(ghost own: string -> string) returns (lines: seq<Line>)
      requires Valid() && InStep(View(), own)
      ensures DistinctLines(lines) && Listed(lines) == mounted.Keys + notReady.Keys
      ensures forall line <- lines :: LineOk(View(), line)
    {
      hide InStep, DistinctLines, Listed, LineOk, Keyed, IndexOf;
      ghost var s := View();
      MapsApart(s, own);
      NoLines();
      lines := [];
      var left := mounted.Keys;
      while left != {}
        invariant left <= mounted.Keys && Listed(lines) == mounted.Keys - left
        invariant DistinctLines(lines) && forall line <- lines :: LineOk(s, line)
        decreases left
      {
        var name :| name in left;
        var line := Line(name, mounted[name], Ready, "");
        LineAdded(s, own, lines, line);
        lines := lines + [line];
        left := left - {name};
      }
      left := notReady.Keys;
      while left != {}
        invariant left <= notReady.Keys && Listed(lines) == mounted.Keys + (notReady.Keys - left)
        invariant DistinctLines(lines) && forall line <- lines :: LineOk(s, line)
        decreases left
      {
        var name :| name in left;
        var st := notReady[name];
        var line := Line(name, st.mount, st.state, st.detail);
        LineAdded(s, own, lines, line);
        lines := lines + [line];
        left := left - {name};
      }
    }
  }

  lemma NoMountKeys(stubs: map<string, NotReady>)
    ensures MountKeys(stubs - stubs.Keys) == {}
  {}

  lemma MountKeysPut(stubs: map<string, NotReady>, left: set<string>, name: string)
    requires name in left && left <= stubs.Keys
    ensures MountKeys(stubs - (left - {name})) == MountKeys(stubs - left) + {Flat(stubs[name].mount)}
  {
    var more := stubs - (left - {name});
    assert name in more;
    forall k | k in MountKeys(more)
      ensures k in MountKeys(stubs - left) + {Flat(stubs[name].mount)}
    {
      var n :| n in more && Flat(more[n].mount) == k;
      assert n != name ==> n in stubs - left;
    }
    forall k | k in MountKeys(stubs - left)
      ensures k in MountKeys(more)
    {
      var n :| n in stubs - left && Flat(stubs[n].mount) == k;
      assert n in more;
    }
  }

  lemma FlatSlashFree()
    ensures SlashFree("")
  {}

  // ---- the manifest ----

  predicate DistinctLines(lines: seq<Line>) {
    forall i, j :: 0 <= i < j < |lines| ==> lines[i].name != lines[j].name
  }

  const ByName: (Line, Line) -> bool := (a: Line, b: Line) => Less(a.name, b.name)

  /** The sort keeps the lines and puts them in order of name. */
  lemma {:induction false} LinesSorted(lines: seq<Line>)
    requires DistinctLines(lines)
    ensures var sorted := StableSort(ByName, lines);
            && Listed(sorted) == Listed(lines) && (forall line :: line in sorted <==> line in lines)
            && forall i, j :: 0 <= i < j < |sorted| ==> Less(sorted[i].name, sorted[j].name)
  {
    hide StableSort, Less;
    var sorted := StableSort(ByName, lines);
    forall a: Line, b: Line, c: Line {
      LessWeak(a.name, b.name, c.name);
    }
    SortOrders(ByName, lines);
    SameMembers(sorted, lines);
    assert Distinct(lines);
    StillDistinct(sorted, lines);
    forall i, j | 0 <= i < j < |sorted|
      ensures Less(sorted[i].name, sorted[j].name)
    {
      LessTotal(sorted[i].name, sorted[j].name);
      SameName(lines, sorted[i], sorted[j]);
      assert !ByName(sorted[j], sorted[i]);
    }
  }

  lemma SameName(lines: seq<Line>, a: Line, b: Line)
    requires DistinctLines(lines) && a in lines && b in lines
    ensures a.name == b.name ==> a == b
  {}

  function Listed(lines: seq<Line>): set<string> {
    set line | line in lines :: line.name
  }

  /** A line says what the route answers exactly if the skill is not down, and only mounted skills are ready. */
  predicate LineOk(s: Session, line: Line) {
    && (Serves(s, line.mount, line.name, line.state) <==> line.name !in Down(s))
    && (line.state == Ready <==> line.name in s.mounted)
    && (if line.name in s.mounted then line == Line(line.name, s.mounted[line.name], Ready, "")
        else line.name in s.notReady && line == Shown(line.name, s.notReady[line.name]))
  }

  function Shown(name: string, st: NotReady): Line {
    Line(name, st.mount, st.state, st.detail)
  }

  lemma MapsApart(s: Session, own: string -> string)
    requires InStep(s, own)
    ensures s.mounted.Keys !! s.notReady.Keys
  {
    forall n | n in s.mounted
      ensures n !in s.notReady
    {
      assert NameOk(s, own, n);
    }
  }

  lemma NoLines()
    ensures DistinctLines([]) && Listed([]) == {}
  {}

  lemma LineAdded(s: Session, own: string -> string, lines: seq<Line>, line: Line)
    requires InStep(s, own)
    requires
      || (line.name in s.mounted && line == Line(line.name, s.mounted[line.name], Ready, ""))
      || (line.name in s.notReady && line == Shown(line.name, s.notReady[line.name]))
    ensures LineOk(s, line) && Listed(lines + [line]) == Listed(lines) + {line.name}
    ensures DistinctLines(lines) && line.name !in Listed(lines) ==> DistinctLines(lines + [line])
  {
    assert NameOk(s, own, line.name);
    assert forall i :: 0 <= i < |lines| ==> lines[i].name in Listed(lines);
  }
}
