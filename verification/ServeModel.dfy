/**
 * The serve-mode route lifecycle (internal/cli/serve.go) as a state machine:
 * every control operation is one transition of State. ServeServer implements
 * the transitions; this module says what they keep.
 */
module ServeModel {
  import opened Wrappers
  import opened Routing
  import opened ServeScan

  datatype Phase = Activating | Active | Partial

  datatype Dir = Dir(token: string, phase: Phase, skills: map<string, Entry>, tokenEmitted: bool)

  datatype State = State(
    dirs: map<string, Dir>,
    byToken: map<string, string>,
    global: map<string, Entry>,
    aliases: set<string>,
    table: Table,
    running: multiset<Tracked>)

  /** What the outside world answers during one activation; scan is None when a load fails. */
  datatype Request = Request(isDir: bool, allowed: bool, token: string, scan: Option<seq<Found>>)

  datatype Op =
    | Activate(dir: string, request: Request)
    | Deactivate(dir: string)
    | Reload(dir: string, request: Request)
    | ReloadGlobal(scan: Option<seq<Found>>)

  const INIT: State := State(map[], map[], map[], {}, map[], multiset{})

  // ---- the single-directory aliases ----

  function FlatKeys(mounts: set<string>): set<Key> {
    set m | m in mounts :: Key("", m)
  }

  function ClearAliases(s: State): State {
    s.(table := s.table - FlatKeys(s.aliases), aliases := {})
  }

  /** The ready entries whose route has an upstream to mirror. */
  function Mirrored(skills: map<string, Entry>, table: Table): set<string> {
    set m | m in skills && skills[m].state.Ready?
         && Key(skills[m].namespace, skills[m].mount) in table
         && table[Key(skills[m].namespace, skills[m].mount)].port != 0 :: m
  }

  function AliasRoute(e: Entry, table: Table): Route
    requires Key(e.namespace, e.mount) in table
  {
    Route(e.mount, "", table[Key(e.namespace, e.mount)].port, e.name, e.name, Ready)
  }

  ghost function AliasTable(skills: map<string, Entry>, mounts: set<string>, table: Table): Table
    requires forall m <- mounts :: m in skills && Key(skills[m].namespace, skills[m].mount) in table
  {
    map m | m in mounts :: Key("", m) := AliasRoute(skills[m], table)
  }

  ghost function MirrorSkills(s: State, skills: map<string, Entry>): State {
    var mounts := Mirrored(skills, s.table);
    s.(table := s.table + AliasTable(skills, mounts, s.table), aliases := mounts)
  }

  predicate Single(s: State, d: string) {
    s.dirs.Keys == {d}
  }

  /** Flat routes for the ready skills when exactly one directory is active, none otherwise. */
  ghost function RefreshAliases(s: State): State {
    var c := ClearAliases(s);
    if d :| Single(c, d) then MirrorSkills(c, c.dirs[d].skills) else c
  }

  // ---- the control operations ----

  function PhaseOf(allReady: bool): Phase {
    if allReady then Active else Partial
  }

  predicate AllLive(found: seq<Found>) {
    forall k <- found :: k.eligible ==> k.outcome.Live?
  }

  predicate AllReady(skills: map<string, Entry>) {
    forall m <- skills :: skills[m].state.Ready?
  }

  /** Puts the outcome of a scan of a directory back into the state. */
  function Settle(s: State, dir: string, d: Dir, z: Zone): State {
    s.(dirs := s.dirs[dir := d.(skills := z.skills)], table := z.table, running := z.running)
  }

  function Rescan(s: State, dir: string, found: seq<Found>): State
    requires dir in s.dirs
  {
    var d := s.dirs[dir];
    var z := Scan(Zone(d.skills, s.table, s.running), d.token, found, Retry);
    Settle(s, dir, d.(phase := PhaseOf(AllReady(z.skills))), z)
  }

  /** Answering with a manifest hands the token out if that has not happened yet. */
  function Answered(s: State, dir: string): State
    requires dir in s.dirs
  {
    s.(dirs := s.dirs[dir := s.dirs[dir].(tokenEmitted := true)])
  }

  /** The directory becomes visible, with no skills yet and every flat alias gone. */
  function Open(s: State, dir: string, token: string): State {
    var c := ClearAliases(s);
    c.(dirs := c.dirs[dir := Dir(token, Activating, map[], false)], byToken := c.byToken[token := dir])
  }

  function FirstScan(s: State, dir: string, found: seq<Found>): State
    requires dir in s.dirs
  {
    var d := s.dirs[dir];
    var z := Scan(Zone(map[], s.table, s.running), d.token, found, First);
    Settle(s, dir, d.(phase := PhaseOf(AllLive(found))), z)
  }

  ghost function DoActivate(s: State, dir: string, q: Request): State {
    if dir in s.dirs then
      Answered(if q.scan.Some? then Rescan(s, dir, q.scan.value) else s, dir)
    else if !q.isDir || !q.allowed then s
    else
      var shown := Open(s, dir, q.token);
      if q.scan.None? then shown
      else Answered(RefreshAliases(FirstScan(shown, dir, q.scan.value)), dir)
  }

  function EntryKeys(skills: map<string, Entry>): set<Key> {
    set m | m in skills :: Key(skills[m].namespace, skills[m].mount)
  }

  /** The directory, its token, its routes and its sidecars are gone. */
  ghost function Close(s: State, dir: string): State
    requires dir in s.dirs
  {
    var d := s.dirs[dir];
    s.(dirs := s.dirs - {dir}, byToken := s.byToken - {d.token},
       table := s.table - EntryKeys(d.skills), running := s.running - ReadyBag(d.skills))
  }

  ghost function DoDeactivate(s: State, dir: string): State {
    if dir !in s.dirs then s else RefreshAliases(Close(s, dir))
  }

  /** The global layer is gone, with its routes and sidecars. */
  ghost function BareGlobal(s: State): State {
    s.(global := map[], table := s.table - EntryKeys(s.global), running := s.running - ReadyBag(s.global))
  }

  ghost function LoadGlobal(s: State, found: seq<Found>): State {
    var z := Scan(Zone(map[], s.table, s.running), GLOBAL_NAMESPACE, found, GlobalLayer);
    s.(global := z.skills, table := z.table, running := z.running)
  }

  ghost function DoReloadGlobal(s: State, scan: Option<seq<Found>>): State {
    if scan.None? then BareGlobal(s) else LoadGlobal(BareGlobal(s), scan.value)
  }

  ghost function Do(s: State, op: Op): State {
    match op
    case Activate(dir, q) => DoActivate(s, dir, q)
    case Deactivate(dir) => DoDeactivate(s, dir)
    case Reload(dir, q) => DoActivate(DoDeactivate(s, dir), dir, q)
    case ReloadGlobal(scan) => DoReloadGlobal(s, scan)
  }

  /** The state after a whole run. */
  ghost function Run(ops: seq<Op>): State
    decreases |ops|
  {
    if ops == [] then INIT else Do(Run(ops[..|ops| - 1]), ops[|ops| - 1])
  }

  // ---- what the environment owes each operation ----

  ghost predicate LegalRequest(own: string -> string, s: State, dir: string, q: Request) {
    && Segment(q.token) && q.token != GLOBAL_NAMESPACE && q.token !in s.byToken
    && (q.scan.Some? ==> LegalScan(own, q.scan.value, if dir in s.dirs then Retry else First))
  }

  ghost predicate LegalOp(own: string -> string, s: State, op: Op) {
    match op
    case Activate(dir, q) => LegalRequest(own, s, dir, q)
    case Deactivate(_) => true
    case Reload(dir, q) => LegalRequest(own, s, dir, q)
    case ReloadGlobal(scan) => scan.Some? ==> LegalScan(own, scan.value, GlobalLayer)
  }

  ghost predicate LegalRun(own: string -> string, ops: seq<Op>)
    decreases |ops|
  {
    ops == [] || (LegalRun(own, ops[..|ops| - 1]) && LegalOp(own, Run(ops[..|ops| - 1]), ops[|ops| - 1]))
  }

  // ---- the invariant ----

  /** The skills mounted in a namespace, whatever its kind. */
  function SkillsAt(s: State, namespace: string): map<string, Entry> {
    if namespace == GLOBAL_NAMESPACE then s.global
    else if namespace in s.byToken && s.byToken[namespace] in s.dirs then s.dirs[s.byToken[namespace]].skills
    else map[]
  }

  /** The token map is the inverse of the directory map. */
  predicate TokensOk(s: State) {
    && (forall d <- s.dirs :: s.dirs[d].token in s.byToken && s.byToken[s.dirs[d].token] == d)
    && (forall t <- s.byToken :: s.byToken[t] in s.dirs && s.dirs[s.byToken[t]].token == t)
    && (forall t <- s.byToken :: Segment(t) && t != GLOBAL_NAMESPACE)
  }

  ghost predicate FlatOk(s: State) {
    && (forall m: string :: Key("", m) in s.table <==> m in s.aliases)
    && (forall m <- s.aliases :: Segment(m) && s.table[Key("", m)].mount == m && s.table[Key("", m)].namespace == "")
  }

  /** Directories, tokens, entries and routes in step, whatever the aliases mirror. */
  ghost predicate InStep(own: string -> string, s: State) {
    && TokensOk(s) && FlatOk(s)
    && (forall n: string :: n != "" ==> EntriesOk(own, n, SkillsAt(s, n)) && RoutesOk(n, SkillsAt(s, n), s.table))
  }

  ghost predicate Consistent(own: string -> string, s: State) {
    InStep(own, s) && (s.aliases != {} ==> exists d :: Single(s, d))
  }

  /** Running sidecars that no ready entry of their namespace accounts for. */
  ghost function Surplus(s: State, t: Tracked): int {
    Excess(SkillsAt(s, t.namespace), s.running, t)
  }

  /** The sidecars an operation loses. */
  ghost function LostByActivate(s: State, dir: string, q: Request): multiset<Tracked> {
    if q.scan.None? then multiset{}
    else if dir in s.dirs then
      Lost(Zone(s.dirs[dir].skills, s.table, s.running), s.dirs[dir].token, q.scan.value, Retry)
    else if !q.isDir || !q.allowed then multiset{}
    else
      var shown := Open(s, dir, q.token);
      Lost(Zone(map[], shown.table, shown.running), q.token, q.scan.value, First)
  }

  ghost function LostByOp(s: State, op: Op): multiset<Tracked> {
    match op
    case Activate(dir, q) => LostByActivate(s, dir, q)
    case Deactivate(_) => multiset{}
    case Reload(dir, q) => LostByActivate(DoDeactivate(s, dir), dir, q)
    case ReloadGlobal(scan) =>
      if scan.None? then multiset{}
      else
        Lost(Zone(map[], BareGlobal(s).table, BareGlobal(s).running), GLOBAL_NAMESPACE, scan.value, GlobalLayer)
  }

  ghost function LostInRun(ops: seq<Op>): multiset<Tracked>
    decreases |ops|
  {
    if ops == [] then multiset{}
    else LostInRun(ops[..|ops| - 1]) + LostByOp(Run(ops[..|ops| - 1]), ops[|ops| - 1])
  }

  // ---- every operation keeps the invariant ----

  lemma ClearAliasesTable(s: State, k: Key)
    requires FlatOk(s)
    ensures var c := ClearAliases(s);
            && (k in c.table <==> k in s.table && k.namespace != "")
            && (k in c.table ==> c.table[k] == s.table[k])
  {}

  /** Two states with the same directories and the same namespaced routes. */
  lemma SameNamespaces(own: string -> string, s: State, r: State)
    requires InStep(own, s) && r.dirs == s.dirs && r.byToken == s.byToken && r.global == s.global
    requires forall k: Key :: k.namespace != "" ==>
               (k in r.table <==> k in s.table) && (k in s.table ==> r.table[k] == s.table[k])
    requires FlatOk(r)
    ensures InStep(own, r)
  {
    forall n: string | n != ""
      ensures EntriesOk(own, n, SkillsAt(r, n)) && RoutesOk(n, SkillsAt(r, n), r.table)
    {
      assert SkillsAt(r, n) == SkillsAt(s, n);
      assert EntriesOk(own, n, SkillsAt(s, n)) && RoutesOk(n, SkillsAt(s, n), s.table);
    }
  }

  lemma ClearAliasesKeeps(own: string -> string, s: State)
    requires InStep(own, s)
    ensures Consistent(own, ClearAliases(s))
    ensures forall k: Key :: k.namespace != "" ==>
              (k in ClearAliases(s).table <==> k in s.table) && (k in s.table ==> ClearAliases(s).table[k] == s.table[k])
  {
    forall k: Key {
      ClearAliasesTable(s, k);
    }
    SameNamespaces(own, s, ClearAliases(s));
  }

  /** Mirroring adds flat routes only. */
  lemma MirrorTable(s: State, skills: map<string, Entry>, k: Key)
    ensures var r := MirrorSkills(s, skills);
            && (k.namespace != "" ==> (k in r.table <==> k in s.table) && (k in s.table ==> r.table[k] == s.table[k]))
            && (k.namespace == "" ==> (k in r.table <==> k in s.table || k.mount in r.aliases))
            && (k.namespace == "" && k.mount in r.aliases ==> r.table[k] == AliasRoute(skills[k.mount], s.table))
  {}

  lemma MirrorKeeps(own: string -> string, s: State, d: string)
    requires InStep(own, s) && s.aliases == {} && Single(s, d)
    ensures Consistent(own, MirrorSkills(s, s.dirs[d].skills))
  {
    var skills := s.dirs[d].skills;
    var r := MirrorSkills(s, skills);
    assert SkillsAt(s, s.dirs[d].token) == skills;
    assert EntriesOk(own, s.dirs[d].token, skills);
    forall k: Key {
      MirrorTable(s, skills, k);
    }
    assert FlatOk(r);
    SameNamespaces(own, s, r);
    assert Single(r, d);
  }

  lemma RefreshAliasesKeeps(own: string -> string, s: State)
    requires InStep(own, s)
    ensures Consistent(own, RefreshAliases(s))
    ensures forall k: Key :: k.namespace != "" ==>
              (k in RefreshAliases(s).table <==> k in s.table) && (k in s.table ==> RefreshAliases(s).table[k] == s.table[k])
  {
    ClearAliasesKeeps(own, s);
    var c := ClearAliases(s);
    if d :| Single(c, d) {
      MirrorKeeps(own, c, d);
      forall k: Key {
        MirrorTable(c, c.dirs[d].skills, k);
      }
    }
  }

  lemma CloseSkills(s: State, dir: string)
    requires TokensOk(s) && dir in s.dirs
    ensures var r := Close(s, dir);
            && TokensOk(r)
            && SkillsAt(s, s.dirs[dir].token) == s.dirs[dir].skills
            && forall n: string :: SkillsAt(r, n) == if n == s.dirs[dir].token then map[] else SkillsAt(s, n)
  {}

  lemma CloseKeeps(own: string -> string, s: State, dir: string)
    requires InStep(own, s) && dir in s.dirs
    ensures InStep(own, Close(s, dir))
  {
    var token := s.dirs[dir].token;
    var r := Close(s, dir);
    CloseSkills(s, dir);
    forall n: string | n != ""
      ensures EntriesOk(own, n, SkillsAt(r, n)) && RoutesOk(n, SkillsAt(r, n), r.table)
    {
      assert EntriesOk(own, n, SkillsAt(s, n)) && RoutesOk(n, SkillsAt(s, n), s.table);
    }
  }

  lemma DeactivateKeeps(own: string -> string, s: State, dir: string)
    requires Consistent(own, s)
    ensures Consistent(own, DoDeactivate(s, dir))
  {
    if dir in s.dirs {
      CloseKeeps(own, s, dir);
      RefreshAliasesKeeps(own, Close(s, dir));
    }
  }

  /** z is what namespace has become, and nothing else changed. */
  ghost predicate Reworked(own: string -> string, namespace: string, s: State, z: Zone) {
    && EntriesOk(own, namespace, z.skills) && RoutesOk(namespace, z.skills, z.table)
    && (forall q: Key :: q.namespace != namespace ==> (q in z.table <==> q in s.table))
    && (forall q <- s.table :: q.namespace != namespace ==> z.table[q] == s.table[q])
  }

  lemma SettleSkills(s: State, dir: string, d: Dir, z: Zone)
    requires TokensOk(s) && dir in s.dirs && d.token == s.dirs[dir].token
    ensures var r := Settle(s, dir, d, z);
            && TokensOk(r) && r.dirs.Keys == s.dirs.Keys
            && forall n: string :: SkillsAt(r, n) == if n == d.token then z.skills else SkillsAt(s, n)
  {}

  /** Putting a reworked namespace back into its directory keeps everything else in step. */
  lemma SettleKeeps(own: string -> string, s: State, dir: string, d: Dir, z: Zone)
    requires Consistent(own, s) && dir in s.dirs && d.token == s.dirs[dir].token
    requires Reworked(own, d.token, s, z)
    ensures Consistent(own, Settle(s, dir, d, z))
  {
    var r := Settle(s, dir, d, z);
    SettleSkills(s, dir, d, z);
    if e :| Single(s, e) {
      assert Single(r, e);
    }
    forall n: string | n != "" && n != d.token
      ensures EntriesOk(own, n, SkillsAt(r, n)) && RoutesOk(n, SkillsAt(r, n), r.table)
    {
      assert RoutesOk(n, SkillsAt(s, n), s.table);
    }
  }

  lemma RescanKeeps(own: string -> string, s: State, dir: string, found: seq<Found>)
    requires Consistent(own, s) && dir in s.dirs && LegalScan(own, found, Retry)
    ensures Consistent(own, Rescan(s, dir, found))
  {
    var d := s.dirs[dir];
    assert SkillsAt(s, d.token) == d.skills;
    var zone := Zone(d.skills, s.table, s.running);
    ScanKeeps(own, zone, d.token, found, Retry);
    var z := Scan(zone, d.token, found, Retry);
    SettleKeeps(own, s, dir, d.(phase := PhaseOf(AllReady(z.skills))), z);
  }

  lemma FirstScanKeeps(own: string -> string, s: State, dir: string, found: seq<Found>)
    requires Consistent(own, s) && dir in s.dirs && s.dirs[dir].skills == map[] && LegalScan(own, found, First)
    ensures Consistent(own, FirstScan(s, dir, found))
  {
    var d := s.dirs[dir];
    assert SkillsAt(s, d.token) == d.skills;
    var zone := Zone(map[], s.table, s.running);
    ScanKeeps(own, zone, d.token, found, First);
    SettleKeeps(own, s, dir, d.(phase := PhaseOf(AllLive(found))), Scan(zone, d.token, found, First));
  }

  lemma AnsweredSkills(s: State, dir: string)
    requires dir in s.dirs
    ensures Answered(s, dir).running == s.running && forall n: string :: SkillsAt(Answered(s, dir), n) == SkillsAt(s, n)
  {}

  lemma AnsweredKeeps(own: string -> string, s: State, dir: string)
    requires Consistent(own, s) && dir in s.dirs
    ensures Consistent(own, Answered(s, dir))
  {
    var d := s.dirs[dir];
    assert EntriesOk(own, d.token, SkillsAt(s, d.token)) && RoutesOk(d.token, SkillsAt(s, d.token), s.table);
    SettleKeeps(own, s, dir, d.(tokenEmitted := true), Zone(d.skills, s.table, s.running));
  }

  lemma OpenSkills(s: State, dir: string, token: string)
    requires TokensOk(s) && dir !in s.dirs && Segment(token) && token != GLOBAL_NAMESPACE && token !in s.byToken
    ensures TokensOk(Open(s, dir, token)) && forall n: string :: SkillsAt(Open(s, dir, token), n) == SkillsAt(s, n)
  {}

  lemma OpenKeeps(own: string -> string, s: State, dir: string, token: string)
    requires Consistent(own, s) && dir !in s.dirs
    requires Segment(token) && token != GLOBAL_NAMESPACE && token !in s.byToken
    ensures Consistent(own, Open(s, dir, token))
  {
    OpenSkills(s, dir, token);
    ClearAliasesKeeps(own, s);
    var c, r := ClearAliases(s), Open(s, dir, token);
    forall n: string | n != ""
      ensures EntriesOk(own, n, SkillsAt(r, n)) && RoutesOk(n, SkillsAt(r, n), r.table)
    {
      assert SkillsAt(c, n) == SkillsAt(s, n);
      assert EntriesOk(own, n, SkillsAt(c, n)) && RoutesOk(n, SkillsAt(c, n), c.table);
    }
  }

  lemma ActivateKeeps(own: string -> string, s: State, dir: string, q: Request)
    requires Consistent(own, s) && LegalRequest(own, s, dir, q)
    ensures Consistent(own, DoActivate(s, dir, q))
  {
    hide Consistent, Scan;
    if dir in s.dirs {
      if q.scan.Some? {
        RescanKeeps(own, s, dir, q.scan.value);
        AnsweredKeeps(own, Rescan(s, dir, q.scan.value), dir);
      } else {
        AnsweredKeeps(own, s, dir);
      }
    } else if q.isDir && q.allowed {
      OpenKeeps(own, s, dir, q.token);
      var shown := Open(s, dir, q.token);
      if q.scan.Some? {
        FirstScanKeeps(own, shown, dir, q.scan.value);
        var scanned := FirstScan(shown, dir, q.scan.value);
        RefreshAliasesKeeps(own, scanned);
        AnsweredKeeps(own, RefreshAliases(scanned), dir);
      }
    }
  }

  lemma GlobalSkills(s: State, z: Zone)
    requires TokensOk(s)
    ensures var r := s.(global := z.skills, table := z.table, running := z.running);
            TokensOk(r) && forall n: string :: SkillsAt(r, n) == if n == GLOBAL_NAMESPACE then z.skills else SkillsAt(s, n)
  {}

  lemma GlobalKeeps(own: string -> string, s: State, z: Zone)
    requires Consistent(own, s) && Reworked(own, GLOBAL_NAMESPACE, s, z)
    ensures Consistent(own, s.(global := z.skills, table := z.table, running := z.running))
  {
    var r := s.(global := z.skills, table := z.table, running := z.running);
    GlobalSkills(s, z);
    if e :| Single(s, e) {
      assert Single(r, e);
    }
    forall n: string | n != "" && n != GLOBAL_NAMESPACE
      ensures EntriesOk(own, n, SkillsAt(r, n)) && RoutesOk(n, SkillsAt(r, n), r.table)
    {
      assert RoutesOk(n, SkillsAt(s, n), s.table);
    }
  }

  lemma BareGlobalKeeps(own: string -> string, s: State)
    requires Consistent(own, s)
    ensures Consistent(own, BareGlobal(s))
  {
    var b := BareGlobal(s);
    var n := GLOBAL_NAMESPACE;
    assert EntriesOk(own, n, SkillsAt(s, n)) && RoutesOk(n, SkillsAt(s, n), s.table);
    GlobalKeeps(own, s, Zone(map[], b.table, b.running));
  }

  lemma ReloadGlobalKeeps(own: string -> string, s: State, scan: Option<seq<Found>>)
    requires Consistent(own, s) && (scan.Some? ==> LegalScan(own, scan.value, GlobalLayer))
    ensures Consistent(own, DoReloadGlobal(s, scan))
  {
    BareGlobalKeeps(own, s);
    if scan.Some? {
      var b := BareGlobal(s);
      var zone := Zone(map[], b.table, b.running);
      assert RoutesOk(GLOBAL_NAMESPACE, SkillsAt(b, GLOBAL_NAMESPACE), b.table);
      ScanKeeps(own, zone, GLOBAL_NAMESPACE, scan.value, GlobalLayer);
      GlobalKeeps(own, b, Scan(zone, GLOBAL_NAMESPACE, scan.value, GlobalLayer));
    }
  }

  /** Every control operation, failed ones included, keeps the five structures in step. */
  lemma DoKeeps(own: string -> string, s: State, op: Op)
    requires Consistent(own, s) && LegalOp(own, s, op)
    ensures Consistent(own, Do(s, op))
  {
    match op
    case Activate(dir, q) => ActivateKeeps(own, s, dir, q);
    case Deactivate(dir) => DeactivateKeeps(own, s, dir);
    case Reload(dir, q) =>
      DeactivateKeeps(own, s, dir);
      ActivateKeeps(own, DoDeactivate(s, dir), dir, q);
    case ReloadGlobal(scan) => ReloadGlobalKeeps(own, s, scan);
  }

  /** ... hence every reachable state is consistent. */
  lemma {:induction false} RunConsistent(own: string -> string, ops: seq<Op>)
    requires LegalRun(own, ops)
    ensures Consistent(own, Run(ops))
    decreases |ops|
  {
    if ops != [] {
      RunConsistent(own, ops[..|ops| - 1]);
      DoKeeps(own, Run(ops[..|ops| - 1]), ops[|ops| - 1]);
    }
  }

  // ---- conservation of sidecars ----

  lemma RefreshSkills(s: State)
    ensures var r := RefreshAliases(s);
            && r.running == s.running && r.dirs == s.dirs && r.byToken == s.byToken && r.global == s.global
            && forall n: string :: SkillsAt(r, n) == SkillsAt(s, n)
  {}

  lemma DeactivateCounts(own: string -> string, s: State, dir: string, t: Tracked)
    requires Consistent(own, s) && Surplus(s, t) >= 0
    ensures Surplus(DoDeactivate(s, dir), t) == Surplus(s, t)
  {
    if dir in s.dirs {
      var d := s.dirs[dir];
      RefreshSkills(Close(s, dir));
      CloseSkills(s, dir);
      assert EntriesOk(own, d.token, SkillsAt(s, d.token));
      if t.namespace != d.token {
        ReadyBagNamespace(d.skills, d.token, t);
      }
    }
  }

  lemma {:induction false} SettleCounts(s: State, dir: string, d: Dir, found: seq<Found>, pass: Pass, t: Tracked)
    requires TokensOk(s) && dir in s.dirs && d.token == s.dirs[dir].token
    requires forall m <- s.dirs[dir].skills :: s.dirs[dir].skills[m].namespace == d.token
    ensures var zone := Zone(s.dirs[dir].skills, s.table, s.running);
            Surplus(Settle(s, dir, d, Scan(zone, d.token, found, pass)), t)
            == Surplus(s, t) + Lost(zone, d.token, found, pass)[t] as int
  {
    var zone := Zone(s.dirs[dir].skills, s.table, s.running);
    var z := Scan(zone, d.token, found, pass);
    SettleSkills(s, dir, d, z);
    assert SkillsAt(s, d.token) == s.dirs[dir].skills;
    if t.namespace == d.token {
      ScanCounts(zone, d.token, found, pass, t);
    } else {
      ScanLocal(zone, d.token, found, pass, t);
    }
  }

  lemma RescanCounts(own: string -> string, s: State, dir: string, q: Request, t: Tracked)
    requires Consistent(own, s) && dir in s.dirs && q.scan.Some?
    ensures Surplus(Rescan(s, dir, q.scan.value), t) == Surplus(s, t) + LostByActivate(s, dir, q)[t] as int
  {
    var d := s.dirs[dir];
    assert EntriesOk(own, d.token, SkillsAt(s, d.token));
    var z := Scan(Zone(d.skills, s.table, s.running), d.token, q.scan.value, Retry);
    SettleCounts(s, dir, d.(phase := PhaseOf(AllReady(z.skills))), q.scan.value, Retry, t);
  }

  lemma FirstScanCounts(own: string -> string, s: State, dir: string, q: Request, t: Tracked)
    requires Consistent(own, s) && LegalRequest(own, s, dir, q)
    requires dir !in s.dirs && q.isDir && q.allowed && q.scan.Some?
    ensures Surplus(FirstScan(Open(s, dir, q.token), dir, q.scan.value), t)
         == Surplus(s, t) + LostByActivate(s, dir, q)[t] as int
  {
    OpenSkills(s, dir, q.token);
    var shown := Open(s, dir, q.token);
    SettleCounts(shown, dir, shown.dirs[dir].(phase := PhaseOf(AllLive(q.scan.value))), q.scan.value, First, t);
  }

  lemma ActivateCounts(own: string -> string, s: State, dir: string, q: Request, t: Tracked)
    requires Consistent(own, s) && LegalRequest(own, s, dir, q)
    ensures Surplus(DoActivate(s, dir, q), t) == Surplus(s, t) + LostByActivate(s, dir, q)[t] as int
  {
    if dir in s.dirs {
      if q.scan.Some? {
        RescanCounts(own, s, dir, q, t);
        AnsweredSkills(Rescan(s, dir, q.scan.value), dir);
      } else {
        AnsweredSkills(s, dir);
      }
    } else if q.isDir && q.allowed {
      var shown := Open(s, dir, q.token);
      OpenSkills(s, dir, q.token);
      if q.scan.Some? {
        FirstScanCounts(own, s, dir, q, t);
        var scanned := FirstScan(shown, dir, q.scan.value);
        RefreshSkills(scanned);
        AnsweredSkills(RefreshAliases(scanned), dir);
      }
    }
  }

  lemma BareGlobalCounts(own: string -> string, s: State, t: Tracked)
    requires Consistent(own, s) && Surplus(s, t) >= 0
    ensures Surplus(BareGlobal(s), t) == Surplus(s, t)
  {
    assert EntriesOk(own, GLOBAL_NAMESPACE, SkillsAt(s, GLOBAL_NAMESPACE));
    GlobalSkills(s, Zone(map[], BareGlobal(s).table, BareGlobal(s).running));
    if t.namespace != GLOBAL_NAMESPACE {
      ReadyBagNamespace(s.global, GLOBAL_NAMESPACE, t);
    }
  }

  lemma {:induction false} LoadGlobalCounts(s: State, found: seq<Found>, t: Tracked)
    requires TokensOk(s) && s.global == map[]
    ensures Surplus(LoadGlobal(s, found), t)
         == Surplus(s, t) + Lost(Zone(map[], s.table, s.running), GLOBAL_NAMESPACE, found, GlobalLayer)[t] as int
  {
    var zone := Zone(map[], s.table, s.running);
    GlobalSkills(s, Scan(zone, GLOBAL_NAMESPACE, found, GlobalLayer));
    if t.namespace == GLOBAL_NAMESPACE {
      ScanCounts(zone, GLOBAL_NAMESPACE, found, GlobalLayer, t);
    } else {
      ScanLocal(zone, GLOBAL_NAMESPACE, found, GlobalLayer, t);
    }
  }

  lemma ReloadGlobalCounts(own: string -> string, s: State, scan: Option<seq<Found>>, t: Tracked)
    requires Consistent(own, s) && Surplus(s, t) >= 0
    ensures Surplus(DoReloadGlobal(s, scan), t) == Surplus(s, t) + LostByOp(s, ReloadGlobal(scan))[t] as int
  {
    BareGlobalCounts(own, s, t);
    if scan.Some? {
      LoadGlobalCounts(BareGlobal(s), scan.value, t);
    }
  }

  /** Each operation adds exactly the sidecars it loses to those nobody accounts for. */
  lemma DoCounts(own: string -> string, s: State, op: Op, t: Tracked)
    requires Consistent(own, s) && LegalOp(own, s, op) && Surplus(s, t) >= 0
    ensures Surplus(Do(s, op), t) == Surplus(s, t) + LostByOp(s, op)[t] as int
  {
    match op
    case Activate(dir, q) => ActivateCounts(own, s, dir, q, t);
    case Deactivate(dir) => DeactivateCounts(own, s, dir, t);
    case Reload(dir, q) =>
      DeactivateKeeps(own, s, dir);
      DeactivateCounts(own, s, dir, t);
      ActivateCounts(own, DoDeactivate(s, dir), dir, q, t);
    case ReloadGlobal(scan) => ReloadGlobalCounts(own, s, scan, t);
  }

  /**
   * Over every run the tracked sidecars are the ready entries plus those lost
   * on the way: exactly the ready entries when nothing was lost.
   */
  lemma {:induction false} RunCounts(own: string -> string, ops: seq<Op>, t: Tracked)
    requires LegalRun(own, ops)
    ensures Run(ops).running[t] == ReadyBag(SkillsAt(Run(ops), t.namespace))[t] + LostInRun(ops)[t]
    decreases |ops|
  {
    if ops != [] {
      var front := ops[..|ops| - 1];
      RunCounts(own, front, t);
      RunConsistent(own, front);
      DoCounts(own, Run(front), ops[|ops| - 1], t);
    }
  }
}
