/**
 * omacSkillDirs (internal/cli/skill_content.go): the budgeted search for omac
 * skill folders below several roots, over folders that links may join into any
 * graph, with one visited set for all roots.
 */
module SkillWalk {
  import opened Wrappers
  import opened Sequences
  import opened Sorting

  type Path = seq<string>

  /** The identity of a real folder, as filepath.EvalSymlinks gives it. */
  type Folder = string

  /** A directory entry with what the walk asks about it: os.Stat, and Lstat of omac.yaml and SKILL.md below it. */
  datatype DirEntry = DirEntry(name: string, isDir: bool, hasMeta: bool, hasDoc: bool)

  /** What a real folder holds, and whether it can be listed; Gone when it has vanished by then. */
  datatype Content = Open(entries: seq<DirEntry>) | Closed(entries: seq<DirEntry>) | Gone

  datatype Listing = Missing | Unreadable | Entries(entries: seq<DirEntry>)

  /** A file system: where paths lead, what each real folder holds, and which other paths fail to list. */
  datatype World = World(resolve: Path -> Option<Folder>, tree: map<Folder, Content>, denied: Path -> bool)

  /** os.ReadDir. */
  function ListDir(w: World, dir: Path): Listing {
    var f := w.resolve(dir);
    if f.Some? && f.value in w.tree then
      match w.tree[f.value]
      case Open(entries) => Entries(entries)
      case Closed(_) => Unreadable
      case Gone => Missing
    else if w.denied(dir) then Unreadable
    else Missing
  }

  /** What really lies in a folder, listable or not. */
  function Held(w: World, dir: Path): seq<DirEntry> {
    var f := w.resolve(dir);
    if f.Some? && f.value in w.tree && !w.tree[f.value].Gone? then w.tree[f.value].entries else []
  }

  /** Resolution is one step at a time, and folders found below folders are known. */
  ghost predicate Genuine(w: World) {
    && (forall p: Path, q: Path, n: string | w.resolve(p).Some? && w.resolve(p) == w.resolve(q) ::
          w.resolve(p + [n]) == w.resolve(q + [n]))
    && (forall p: Path, e: DirEntry | e in Held(w, p) && e.isDir ::
          w.resolve(p + [e.name]).Some? ==> w.resolve(p + [e.name]).value in w.tree)
  }

  /** known: the approval store has the name, or cannot be read. */
  predicate IsOmacSkill(known: string -> bool, e: DirEntry, nested: bool) {
    e.hasMeta || (known(e.name) && (!nested || e.hasDoc))
  }

  datatype Skill = Skill(dir: Path, kind: string)
  datatype Source = Source(root: Path, kind: string)

  const MAX_SCAN_DIRS: int := 50000

  // ---- what a finished search guarantees ----

  /** The same entry of the same real folder, under whatever spelling. */
  predicate Same(w: World, p: Path, q: Path) {
    p == q ||
    (p != [] && q != [] && p[|p| - 1] == q[|q| - 1] && w.resolve(p[..|p| - 1]).Some?
     && w.resolve(p[..|p| - 1]) == w.resolve(q[..|q| - 1]))
  }

  /** Why a path is reported: it could not be listed, or it is a root with too many folders. */
  datatype Reason = CannotList | TooMany

  datatype Report = Report(path: Path, reason: Reason)

  /**
   * The search so far. abandoned are the folders entered for roots that ran out
   * of budget, and entered says which those are for each of these roots.
   */
  datatype Marks = Marks(
    roots: set<Path>, out: seq<Skill>, descended: set<Folder>, unreadable: seq<Report>,
    abandoned: set<Folder>, entered: map<Path, set<Folder>>)

  function Exhausted(m: Marks): set<Path> {
    set u | u in m.unreadable && u.reason == TooMany :: u.path
  }

  predicate InResult(w: World, m: Marks, p: Path) {
    exists s <- m.out :: Same(w, s.dir, p)
  }

  predicate IsRoot(w: World, m: Marks, p: Path) {
    exists r <- m.roots :: Same(w, r, p)
  }

  /** The entry at path p needs no further work. */
  predicate EntryDone(w: World, known: string -> bool, m: Marks, p: Path, e: DirEntry, nested: bool) {
    || !e.isDir
    || InResult(w, m, p)
    || ((!IsOmacSkill(known, e, nested) || IsRoot(w, m, p))
        && (w.resolve(p).Some? ==> w.resolve(p).value in m.descended))
  }

  /** The folder at p is reported as one that cannot be listed, under whatever spelling. */
  predicate Reported(w: World, m: Marks, p: Path) {
    exists u <- m.unreadable ::
      u.reason == CannotList && (u.path == p || (w.resolve(p).Some? && w.resolve(u.path) == w.resolve(p)))
  }

  ghost predicate EntriesDone(w: World, known: string -> bool, m: Marks, dir: Path, nested: bool) {
    forall e <- Held(w, dir) :: EntryDone(w, known, m, dir + [e.name], e, nested)
  }

  /** The folder at p was listed, or that it could not be is reported; a root that does not exist need not be. */
  predicate Told(w: World, m: Marks, p: Path, nested: bool) {
    ListDir(w, p).Entries? || Reported(w, m, p) || (!nested && ListDir(w, p).Missing?)
  }

  ghost predicate FolderTold(w: World, m: Marks, f: Folder) {
    || (exists r <- m.roots :: w.resolve(r) == Some(f))
    || (forall p: Path :: w.resolve(p) == Some(f) ==> Told(w, m, p, true))
  }

  /** A folder that has been searched, reported, or left when a root ran out of budget. */
  ghost predicate FolderDone(w: World, known: string -> bool, m: Marks, f: Folder) {
    f in m.abandoned ||
    (FolderTold(w, m, f)
     && forall p: Path :: w.resolve(p) == Some(f) ==> Reported(w, m, p) || EntriesDone(w, known, m, p, true))
  }

  ghost predicate RootDone(w: World, known: string -> bool, m: Marks, r: Path) {
    r in Exhausted(m)
    || (Told(w, m, r, false) && (Reported(w, m, r) || EntriesDone(w, known, m, r, false)))
  }

  ghost predicate Complete(w: World, known: string -> bool, m: Marks) {
    && (forall f <- m.descended :: FolderDone(w, known, m, f))
    && (forall r <- m.roots :: RootDone(w, known, m, r))
  }

  // ---- routes a loader takes ----

  function Names(route: seq<DirEntry>): Path {
    seq(|route|, i requires 0 <= i < |route| => route[i].name)
  }

  /** The folder a route is in after its first i entries. */
  function Stop(root: Path, route: seq<DirEntry>, i: nat): Path
    requires i <= |route|
  {
    root + Names(route)[..i]
  }

  /** Each entry is a folder that lies where the route stands, whether or not that can be listed. */
  ghost predicate IsRoute(w: World, root: Path, route: seq<DirEntry>) {
    forall i {:trigger route[i]} :: 0 <= i < |route| ==>
      route[i] in Held(w, Stop(root, route, i)) && route[i].isDir
  }

  /**
   * The i-th folder of a route is one whose instructions need a check: it has an
   * omac.yaml; or the store knows its name and, unless it lies in the root
   * itself, it has a SKILL.md.
   */
  predicate NeedsCheck(known: string -> bool, route: seq<DirEntry>, i: nat)
    requires i < |route|
  {
    route[i].hasMeta || (known(route[i].name) && (i == 0 || route[i].hasDoc))
  }

  /** The route ends in an omac skill and passes through none. */
  predicate LeadsToSkill(known: string -> bool, route: seq<DirEntry>) {
    && route != []
    && (forall i :: 0 <= i < |route| - 1 ==> !NeedsCheck(known, route, i))
    && NeedsCheck(known, route, |route| - 1)
  }

  /** The search accounts for the skill at the end of a route. */
  ghost predicate AccountedFor(w: World, m: Marks, root: Path, route: seq<DirEntry>)
    requires route != []
  {
    // it, or a folder it lies below, is in the result
    || (exists i :: 0 < i <= |route| && InResult(w, m, Stop(root, route, i)))
    // it lies below a folder reported as one that cannot be listed
    || (exists i :: 0 <= i < |route| && Reported(w, m, Stop(root, route, i)))
    // it is a search root itself
    || IsRoot(w, m, Stop(root, route, |route|))
    // its root, or a folder on the way, was left when a root ran out of budget
    || root in Exhausted(m)
    || (exists i :: 0 <= i < |route| && w.resolve(Stop(root, route, i)).Some?
                 && w.resolve(Stop(root, route, i)).value in m.abandoned)
  }

  lemma StopSnoc(root: Path, route: seq<DirEntry>, i: nat)
    requires i < |route|
    ensures Stop(root, route, i + 1) == Stop(root, route, i) + [route[i].name]
  {}

  /** Everywhere on a route to a skill the search has been, unless the skill is already accounted for. */
  lemma {:induction false} RouteSearched(w: World, known: string -> bool, m: Marks, root: Path, route: seq<DirEntry>, i: nat)
    requires Genuine(w) && Complete(w, known, m) && root in m.roots
    requires IsRoute(w, root, route) && LeadsToSkill(known, route) && i < |route|
    ensures AccountedFor(w, m, root, route)
         || (i > 0 ==> w.resolve(Stop(root, route, i)).Some? && w.resolve(Stop(root, route, i)).value in m.descended)
  {
    hide AccountedFor, Complete, IsRoute, LeadsToSkill, Stop, EntryDone, Genuine;
    if i > 0 && !AccountedFor(w, m, root, route) {
      RouteSearched(w, known, m, root, route, i - 1);
      EntrySearched(w, known, m, root, route, i - 1);
      NextStop(w, known, m, root, route, i);
    }
  }

  /** The next folder of the route has been entered, since nothing else can have been done with it. */
  lemma NextStop(w: World, known: string -> bool, m: Marks, root: Path, route: seq<DirEntry>, i: nat)
    requires IsRoute(w, root, route) && LeadsToSkill(known, route) && 0 < i < |route|
    requires EntryDone(w, known, m, Stop(root, route, i), route[i - 1], i - 1 > 0) && !AccountedFor(w, m, root, route)
    ensures w.resolve(Stop(root, route, i)).Some? && w.resolve(Stop(root, route, i)).value in m.descended
  {
    hide Stop, InResult, Reported, IsRoot, Exhausted;
    assert route[i] in Held(w, Stop(root, route, i));
    assert !InResult(w, m, Stop(root, route, i));
  }

  lemma EntrySearched(w: World, known: string -> bool, m: Marks, root: Path, route: seq<DirEntry>, i: nat)
    requires Genuine(w) && Complete(w, known, m) && root in m.roots
    requires IsRoute(w, root, route) && LeadsToSkill(known, route) && i < |route|
    requires i > 0 ==> w.resolve(Stop(root, route, i)).Some? && w.resolve(Stop(root, route, i)).value in m.descended
    ensures AccountedFor(w, m, root, route) || EntryDone(w, known, m, Stop(root, route, i + 1), route[i], i > 0)
  {
    var dir := Stop(root, route, i);
    StopSnoc(root, route, i);
    assert route[i] in Held(w, dir);
    if i == 0 {
      assert dir == root;
      assert RootDone(w, known, m, root);
    } else {
      assert FolderDone(w, known, m, w.resolve(dir).value);
    }
  }

  /**
   * After a complete search every omac skill that a loader can reach from a root
   * without passing through another one is accounted for.
   */
  lemma CompleteAccounts(w: World, known: string -> bool, m: Marks, root: Path, route: seq<DirEntry>)
    requires Genuine(w) && Complete(w, known, m) && root in m.roots
    requires IsRoute(w, root, route) && LeadsToSkill(known, route)
    ensures AccountedFor(w, m, root, route)
  {
    var i := |route| - 1;
    RouteSearched(w, known, m, root, route, i);
    if !AccountedFor(w, m, root, route) {
      EntrySearched(w, known, m, root, route, i);
    }
  }

  // ---- more marks never undo what is done ----

  ghost predicate Grows(m: Marks, n: Marks) {
    m.roots <= n.roots && m.out <= n.out && m.descended <= n.descended && m.unreadable <= n.unreadable
    && m.abandoned <= n.abandoned && Exhausted(m) <= Exhausted(n)
  }

  /** All folders entered are done, except those of a given set. */
  ghost predicate AllDone(w: World, known: string -> bool, m: Marks, grey: set<Folder>) {
    forall f <- m.descended :: f in grey || FolderDone(w, known, m, f)
  }

  lemma AllGrows(w: World, known: string -> bool, m: Marks, n: Marks, grey: set<Folder>)
    requires Grows(m, n) && AllDone(w, known, m, grey)
    ensures forall f <- m.descended :: f in grey || FolderDone(w, known, n, f)
  {}

  lemma OffTheStack(w: World, known: string -> bool, m: Marks, grey: set<Folder>, f: Folder)
    requires AllDone(w, known, m, grey + {f}) && FolderDone(w, known, m, f)
    ensures AllDone(w, known, m, grey)
  {}

  lemma SameSpelling(w: World, s: Path, dir: Path, p: Path, n: string)
    requires w.resolve(dir).Some? && w.resolve(dir) == w.resolve(p) && Same(w, s, dir + [n])
    ensures Same(w, s, p + [n])
  {}

  lemma EntryElsewhere(w: World, known: string -> bool, m: Marks, dir: Path, p: Path, e: DirEntry, nested: bool)
    requires Genuine(w) && w.resolve(dir).Some? && w.resolve(dir) == w.resolve(p)
    requires EntryDone(w, known, m, dir + [e.name], e, nested)
    ensures EntryDone(w, known, m, p + [e.name], e, true)
  {
    if s :| s in m.out && Same(w, s.dir, dir + [e.name]) {
      SameSpelling(w, s.dir, dir, p, e.name);
    }
    if r :| r in m.roots && Same(w, r, dir + [e.name]) {
      SameSpelling(w, r, dir, p, e.name);
    }
    assert w.resolve(p + [e.name]) == w.resolve(dir + [e.name]);
  }

  /** Searching a folder under one path searches it under all. */
  lemma FolderDoneFromPath(w: World, known: string -> bool, m: Marks, dir: Path, nested: bool, f: Folder)
    requires Genuine(w) && w.resolve(dir) == Some(f)
    requires Reported(w, m, dir) || EntriesDone(w, known, m, dir, nested)
    requires dir in m.roots || (f in w.tree && Told(w, m, dir, true))
    ensures FolderDone(w, known, m, f)
  {
    hide EntryDone, Genuine, Told, FolderTold;
    ToldElsewhere(w, m, dir, f);
    forall p: Path | w.resolve(p) == Some(f) && !Reported(w, m, p)
      ensures EntriesDone(w, known, m, p, true)
    {
      assert Held(w, p) == Held(w, dir);
      forall e <- Held(w, p)
        ensures EntryDone(w, known, m, p + [e.name], e, true)
      {
        EntryElsewhere(w, known, m, dir, p, e, nested);
      }
    }
  }

  lemma ToldElsewhere(w: World, m: Marks, dir: Path, f: Folder)
    requires w.resolve(dir) == Some(f) && (dir in m.roots || (f in w.tree && Told(w, m, dir, true)))
    ensures FolderTold(w, m, f)
  {
    if dir !in m.roots {
      forall p: Path | w.resolve(p) == Some(f)
        ensures Told(w, m, p, true)
      {
        assert ListDir(w, p).Entries? <==> ListDir(w, dir).Entries?;
      }
    }
  }

  /**
   * After a complete search nothing that could not be listed has gone unnoticed:
   * a folder that was entered and not left for want of budget was listed or is
   * reported, and so is every root but those that do not exist.
   */
  lemma UnlistedIsTold(w: World, known: string -> bool, m: Marks, p: Path)
    requires Complete(w, known, m)
    ensures p in m.roots && p !in Exhausted(m) ==> ListDir(w, p).Entries? || Reported(w, m, p) || ListDir(w, p).Missing?
    ensures w.resolve(p).Some? && w.resolve(p).value in m.descended && w.resolve(p).value !in m.abandoned ==>
              || ListDir(w, p).Entries? || Reported(w, m, p)
              || (exists r <- m.roots :: w.resolve(r) == w.resolve(p))
  {
    hide ListDir, Reported, EntriesDone;
    if p in m.roots {
      assert RootDone(w, known, m, p);
    }
    if w.resolve(p).Some? && w.resolve(p).value in m.descended {
      assert FolderDone(w, known, m, w.resolve(p).value);
    }
  }

  /** What was done stays done, so only what is new needs a look. */
  lemma CompleteGrows(w: World, known: string -> bool, m: Marks, n: Marks)
    requires Complete(w, known, m) && Grows(m, n)
    requires forall f <- n.descended :: f in m.descended || FolderDone(w, known, n, f)
    requires forall r <- n.roots :: r in m.roots || RootDone(w, known, n, r)
    ensures Complete(w, known, n)
  {
    hide FolderDone, RootDone, Grows;
    forall f <- m.descended
      ensures FolderDone(w, known, n, f)
    {
      FolderGrows(w, known, m, n, f);
    }
    forall r <- m.roots
      ensures RootDone(w, known, n, r)
    {
      RootGrows(w, known, m, n, r);
    }
  }

  lemma FolderGrows(w: World, known: string -> bool, m: Marks, n: Marks, f: Folder)
    requires Grows(m, n) && FolderDone(w, known, m, f)
    ensures FolderDone(w, known, n, f)
  {}

  lemma RootGrows(w: World, known: string -> bool, m: Marks, n: Marks, r: Path)
    requires Grows(m, n) && RootDone(w, known, m, r)
    ensures RootDone(w, known, n, r)
  {}

  // ---- where results come from ----

  /** No skill among the entries walked through so far. */
  predicate NoSkill(known: string -> bool, route: seq<DirEntry>) {
    forall i :: 0 <= i < |route| ==> !NeedsCheck(known, route, i)
  }

  /** Every result is an omac skill reached from a root without passing through another. */
  ghost predicate Sound(w: World, known: string -> bool, roots: set<Path>, out: seq<Skill>) {
    forall s <- out :: exists r: Path, route: seq<DirEntry> ::
      r in roots && IsRoute(w, r, route) && LeadsToSkill(known, route) && s.dir == Stop(r, route, |route|)
  }

  predicate DistinctDirs(out: seq<Skill>) {
    forall i, j :: 0 <= i < j < |out| ==> out[i].dir != out[j].dir
  }

  function Dirs(out: seq<Skill>): set<Path> {
    set s | s in out :: s.dir
  }

  /** The skill at dir is one that a root leads to. */
  ghost predicate FromRoot(w: World, known: string -> bool, root: Path, dir: Path) {
    exists route: seq<DirEntry> ::
      IsRoute(w, root, route) && LeadsToSkill(known, route) && dir == Stop(root, route, |route|)
  }

  /** What was added to the result is of this kind and comes from this root. */
  ghost predicate NewFrom(w: World, known: string -> bool, root: Path, kind: string, a: seq<Skill>, b: seq<Skill>) {
    a <= b && forall i :: |a| <= i < |b| ==> b[i].kind == kind && FromRoot(w, known, root, b[i].dir)
  }

  lemma NothingNew(w: World, known: string -> bool, root: Path, kind: string, a: seq<Skill>)
    ensures NewFrom(w, known, root, kind, a, a)
  {}

  lemma NewFromTrans(
      w: World, known: string -> bool, root: Path, kind: string, a: seq<Skill>, b: seq<Skill>, c: seq<Skill>)
    requires NewFrom(w, known, root, kind, a, b) && NewFrom(w, known, root, kind, b, c)
    ensures NewFrom(w, known, root, kind, a, c)
  {
    hide FromRoot;
    forall i | |a| <= i < |c|
      ensures c[i].kind == kind && FromRoot(w, known, root, c[i].dir)
    {
      if i < |b| {
        assert c[i] == b[i];
      }
    }
  }

  lemma NewFromAdd(
      w: World, known: string -> bool, root: Path, kind: string, out: seq<Skill>, dir: Path, route: seq<DirEntry>)
    requires IsRoute(w, root, route) && LeadsToSkill(known, route) && dir == Stop(root, route, |route|)
    ensures NewFrom(w, known, root, kind, out, out + [Skill(dir, kind)])
  {}

  /** Each result has the kind of a source whose root leads to it. */
  ghost predicate KindsOk(w: World, known: string -> bool, sources: seq<Source>, out: seq<Skill>) {
    forall s <- out :: exists src <- sources :: s.kind == src.kind && FromRoot(w, known, src.root, s.dir)
  }

  lemma KindsSnoc(w: World, known: string -> bool, sources: seq<Source>, src: Source, a: seq<Skill>, b: seq<Skill>)
    requires KindsOk(w, known, sources, a) && NewFrom(w, known, src.root, src.kind, a, b)
    ensures KindsOk(w, known, sources + [src], b)
  {
    hide FromRoot;
    forall s <- b
      ensures exists x <- sources + [src] :: s.kind == x.kind && FromRoot(w, known, x.root, s.dir)
    {
      var i :| 0 <= i < |b| && b[i] == s;
      if i < |a| {
        assert s == a[i];
        var x :| x in sources && s.kind == x.kind && FromRoot(w, known, x.root, s.dir);
        assert x in sources + [src];
      } else {
        assert src in sources + [src];
      }
    }
  }

  lemma RouteSnoc(w: World, known: string -> bool, root: Path, route: seq<DirEntry>, e: DirEntry)
    requires IsRoute(w, root, route) && e in Held(w, Stop(root, route, |route|)) && e.isDir
    ensures var longer := route + [e];
            && IsRoute(w, root, longer) && Stop(root, longer, |longer|) == Stop(root, route, |route|) + [e.name]
            && (NoSkill(known, route) && IsOmacSkill(known, e, route != []) ==> LeadsToSkill(known, longer))
            && (NoSkill(known, route) && !IsOmacSkill(known, e, route != []) ==> NoSkill(known, longer))
  {
    hide Held, IsOmacSkill, NoSkill, LeadsToSkill;
    var longer := route + [e];
    forall i | 0 <= i < |longer|
      ensures Stop(root, longer, i) == Stop(root, route, i)
    {
      assert Names(longer)[..i] == Names(route)[..i];
    }
    forall i | 0 <= i < |longer|
      ensures longer[i] in Held(w, Stop(root, longer, i)) && longer[i].isDir
    {
      if i < |route| {
        assert longer[i] == route[i];
      } else {
        assert longer[i] == e;
      }
    }
    StopSnoc(root, longer, |route|);
    assert longer[..|route|] == route;
    CheckSnoc(known, route, e);
  }

  lemma CheckSnoc(known: string -> bool, route: seq<DirEntry>, e: DirEntry)
    ensures NoSkill(known, route) && IsOmacSkill(known, e, route != []) ==> LeadsToSkill(known, route + [e])
    ensures NoSkill(known, route) && !IsOmacSkill(known, e, route != []) ==> NoSkill(known, route + [e])
  {
    var longer := route + [e];
    forall i | 0 <= i < |route|
      ensures NeedsCheck(known, longer, i) <==> NeedsCheck(known, route, i)
    {
      assert longer[i] == route[i];
    }
    assert longer[|route|] == e;
    assert NeedsCheck(known, longer, |route|) <==> IsOmacSkill(known, e, route != []);
  }

  /** What a new result adds to the bookkeeping. */
  lemma SoundAdd(w: World, known: string -> bool, roots: set<Path>, out: seq<Skill>, s: Skill, root: Path, route: seq<DirEntry>)
    requires Sound(w, known, roots, out) && root in roots
    requires IsRoute(w, root, route) && LeadsToSkill(known, route) && s.dir == Stop(root, route, |route|)
    ensures Sound(w, known, roots, out + [s]) && Dirs(out + [s]) == Dirs(out) + {s.dir}
    ensures DistinctDirs(out) && s.dir !in Dirs(out) ==> DistinctDirs(out + [s])
  {}

  lemma SoundGrows(w: World, known: string -> bool, roots: set<Path>, out: seq<Skill>, root: Path)
    requires Sound(w, known, roots, out)
    ensures Sound(w, known, roots + {root}, out)
  {}

  // ---- what one stretch of the search does ----

  /** The folder is reached from a root by a route that passes no skill. */
  ghost predicate Reached(w: World, known: string -> bool, root: Path, f: Folder) {
    exists route: seq<DirEntry> ::
      IsRoute(w, root, route) && NoSkill(known, route) && w.resolve(Stop(root, route, |route|)) == Some(f)
  }

  /**
   * A report that a folder cannot be listed is true: the walk came to it from a
   * root and listing it fails, and not because the root itself does not exist.
   */
  ghost predicate Unlisted(w: World, known: string -> bool, root: Path, p: Path) {
    exists route: seq<DirEntry> ::
      && IsRoute(w, root, route) && NoSkill(known, route) && p == Stop(root, route, |route|)
      && (ListDir(w, p).Unreadable? || (ListDir(w, p).Missing? && route != []))
  }

  /**
   * What one stretch of the search for a root may change. Each unit of budget
   * goes to a folder entered for the first time; ok is false when there was none
   * left.
   */
  ghost predicate Later(
      w: World, known: string -> bool, root: Path, m: Marks, n: Marks, before: int, after: int, ok: bool) {
    && Grows(m, n) && m.roots == n.roots && m.abandoned == n.abandoned && m.entered == n.entered
    && Enters(w, known, root, m.descended, n.descended) && Reports(w, known, root, m.unreadable, n.unreadable)
    && (if ok then after >= 0 && after + |n.descended| == before + |m.descended|
        else |n.descended| > before + |m.descended|)
  }

  /** New folders are known ones, reached from the root. */
  ghost predicate Enters(w: World, known: string -> bool, root: Path, a: set<Folder>, b: set<Folder>) {
    b <= a + w.tree.Keys && forall f <- b :: f in a || Reached(w, known, root, f)
  }

  /** New reports are of folders that cannot be listed. */
  ghost predicate Reports(w: World, known: string -> bool, root: Path, a: seq<Report>, b: seq<Report>) {
    forall i :: |a| <= i < |b| ==> b[i].reason == CannotList && Unlisted(w, known, root, b[i].path)
  }

  lemma ReportsTrans(w: World, known: string -> bool, root: Path, a: seq<Report>, b: seq<Report>, c: seq<Report>)
    requires a <= b <= c && Reports(w, known, root, a, b) && Reports(w, known, root, b, c)
    ensures Reports(w, known, root, a, c)
  {}

  lemma EntersTrans(w: World, known: string -> bool, root: Path, a: set<Folder>, b: set<Folder>, c: set<Folder>)
    requires Enters(w, known, root, a, b) && Enters(w, known, root, b, c)
    ensures Enters(w, known, root, a, c)
  {}

  lemma LaterTrans(
      w: World, known: string -> bool, root: Path, m: Marks, n: Marks, p: Marks, b0: int, b1: int, b2: int, ok: bool)
    requires Later(w, known, root, m, n, b0, b1, true) && Later(w, known, root, n, p, b1, b2, ok)
    ensures Later(w, known, root, m, p, b0, b2, ok)
  {
    hide Reports, Enters, Exhausted;
    ReportsTrans(w, known, root, m.unreadable, n.unreadable, p.unreadable);
    EntersTrans(w, known, root, m.descended, n.descended, p.descended);
  }

  lemma GrowsTrans(m: Marks, n: Marks, p: Marks)
    requires Grows(m, n) && Grows(n, p)
    ensures Grows(m, p)
  {}

  /** A search that runs out of budget has entered as many folders as it had budget for, and one more. */
  lemma ManyEntered(w: World, known: string -> bool, root: Path, m: Marks, n: Marks, before: int, after: int)
    requires Later(w, known, root, m, n, before, after, false)
    ensures |n.descended - m.descended| > before
  {}

  lemma {:induction false} SubsetSize<T>(a: set<T>, b: set<T>)
    requires a <= b
    ensures |a| <= |b|
  {
    assert b == a + (b - a);
  }

  lemma LaterFacts(w: World, known: string -> bool, root: Path, m: Marks, n: Marks, before: int, after: int, ok: bool)
    requires Later(w, known, root, m, n, before, after, ok)
    ensures Grows(m, n) && m.descended <= n.descended && m.roots == n.roots && (ok ==> after >= 0)
    ensures forall f <- n.descended :: f in m.descended || Reached(w, known, root, f)
  {}

  lemma LaterStart(w: World, known: string -> bool, root: Path, m: Marks, budget: int)
    requires budget >= 0
    ensures Later(w, known, root, m, m, budget, budget, true)
  {}

  /** A folder that cannot be listed is reported. */
  lemma ReportAdds(w: World, known: string -> bool, m: Marks, root: Path, route: seq<DirEntry>, dir: Path, grey: set<Folder>)
    requires IsRoute(w, root, route) && NoSkill(known, route) && dir == Stop(root, route, |route|)
    requires ListDir(w, dir).Unreadable? || (ListDir(w, dir).Missing? && route != [])
    requires AllDone(w, known, m, grey)
    ensures var n := m.(unreadable := m.unreadable + [Report(dir, CannotList)]);
            && AllDone(w, known, n, grey) && Reported(w, n, dir)
            && forall budget: int :: budget >= 0 ==> Later(w, known, root, m, n, budget, budget, true)
  {
    hide IsRoute, NoSkill, Stop, FolderDone, ListDir;
    var n := m.(unreadable := m.unreadable + [Report(dir, CannotList)]);
    assert n.unreadable[|m.unreadable|] == Report(dir, CannotList);
    assert forall u <- m.unreadable :: u in n.unreadable;
    assert Unlisted(w, known, root, dir);
    AllGrows(w, known, m, n, grey);
  }

  lemma ResultAdds(w: World, known: string -> bool, root: Path, m: Marks, n: Marks, budget: int, grey: set<Folder>)
    requires n == m.(out := n.out) && m.out <= n.out && budget >= 0 && AllDone(w, known, m, grey)
    ensures Later(w, known, root, m, n, budget, budget, true) && AllDone(w, known, n, grey)
  {}

  lemma FolderEntered(w: World, known: string -> bool, m: Marks, root: Path, route: seq<DirEntry>, f: Folder, grey: set<Folder>)
    requires IsRoute(w, root, route) && NoSkill(known, route) && w.resolve(Stop(root, route, |route|)) == Some(f)
    requires AllDone(w, known, m, grey)
    ensures AllDone(w, known, m.(descended := m.descended + {f}), grey + {f}) && Reached(w, known, root, f)
  {}

  /** Entering a folder pays for the walk of it. */
  lemma DescentIsLater(
      w: World, known: string -> bool, root: Path, m: Marks, mid: Marks, n: Marks, before: int, after: int, ok: bool, f: Folder)
    requires f !in m.descended && f in w.tree && mid == m.(descended := m.descended + {f}) && Reached(w, known, root, f)
    requires Later(w, known, root, mid, n, before - 1, after, ok)
    ensures Later(w, known, root, m, n, before, after, ok) && f in n.descended
  {
    hide Reached, Unlisted;
  }

  // ---- what reports are worth ----

  /** Reports are true: folders that cannot be listed, and roots below which too many folders were entered. */
  ghost predicate Justified(w: World, known: string -> bool, m: Marks) {
    && (forall u <- m.unreadable :: ReportTrue(w, known, m.roots, u))
    && Exhausted(m) <= m.roots && m.entered.Keys == Exhausted(m)
    && (forall r <- m.entered :: TooManyBelow(w, known, r, m.entered[r]) && m.entered[r] <= m.descended)
    && (forall f <- m.abandoned :: EnteredForSome(m.entered, f))
  }

  ghost predicate ReportTrue(w: World, known: string -> bool, roots: set<Path>, u: Report) {
    u.reason == CannotList ==> exists r <- roots :: Unlisted(w, known, r, u.path)
  }

  /** Folders reached from the root, as many as it has budget for besides itself. */
  ghost predicate TooManyBelow(w: World, known: string -> bool, root: Path, folders: set<Folder>) {
    |folders| >= MAX_SCAN_DIRS && forall f <- folders :: Reached(w, known, root, f)
  }

  predicate EnteredForSome(entered: map<Path, set<Folder>>, f: Folder) {
    exists r <- entered :: f in entered[r]
  }

  /** Without an exhausted root nothing is abandoned. */
  lemma NothingAbandoned(w: World, known: string -> bool, m: Marks)
    requires Justified(w, known, m) && Exhausted(m) == {}
    ensures m.abandoned == {}
  {}

  /** Fewer folders than the budget are reached from the root. */
  ghost predicate FewBelow(w: World, known: string -> bool, root: Path) {
    exists folders: set<Folder> :: |folders| < MAX_SCAN_DIRS && HoldsReached(w, known, root, folders)
  }

  ghost predicate HoldsReached(w: World, known: string -> bool, root: Path, folders: set<Folder>) {
    forall f: Folder :: Reached(w, known, root, f) ==> f in folders
  }

  /** Roots with fewer folders below them than the budget are never given up. */
  lemma SmallRootsFit(w: World, known: string -> bool, m: Marks)
    requires Justified(w, known, m) && forall r <- m.roots :: FewBelow(w, known, r)
    ensures Exhausted(m) == {}
  {
    hide ReportTrue, EnteredForSome, Exhausted;
    if r :| r in Exhausted(m) {
      assert r in m.entered && TooManyBelow(w, known, r, m.entered[r]) && FewBelow(w, known, r);
      var folders: set<Folder> :| |folders| < MAX_SCAN_DIRS && HoldsReached(w, known, r, folders);
      SubsetSize(m.entered[r], folders);
    }
  }

  lemma ExhaustedSnoc(m: Marks, n: Marks, u: Report)
    requires n.unreadable == m.unreadable + [u]
    ensures Exhausted(n) == if u.reason == TooMany then Exhausted(m) + {u.path} else Exhausted(m)
  {}

  lemma ExhaustedSame(w: World, known: string -> bool, root: Path, m: Marks, n: Marks)
    requires m.unreadable <= n.unreadable && Reports(w, known, root, m.unreadable, n.unreadable)
    ensures Exhausted(n) == Exhausted(m)
    ensures forall u <- n.unreadable ::
              u in m.unreadable || (u.reason == CannotList && Unlisted(w, known, root, u.path))
  {}

  /** Reports made by a search are true. */
  lemma LaterJustified(
      w: World, known: string -> bool, root: Path, m: Marks, n: Marks, before: int, after: int, ok: bool)
    requires Later(w, known, root, m, n, before, after, ok) && Justified(w, known, m) && root in m.roots
    ensures Justified(w, known, n) && Exhausted(n) == Exhausted(m)
  {
    hide TooManyBelow, EnteredForSome, Unlisted, Exhausted, Enters;
    ExhaustedSame(w, known, root, m, n);
    forall u <- n.unreadable
      ensures ReportTrue(w, known, n.roots, u)
    {
      assert u in m.unreadable ==> ReportTrue(w, known, m.roots, u);
    }
  }

  /** Reporting an exhausted root accounts for everything entered on its behalf. */
  lemma GivenUp(
      w: World, known: string -> bool, root: Path, start: Marks, m: Marks, before: set<Folder>, after: int)
    requires Justified(w, known, m) && root in m.roots && root !in Exhausted(m)
    requires Later(w, known, root, start, m, MAX_SCAN_DIRS - 1, after, false)
    requires |m.descended - start.descended| >= MAX_SCAN_DIRS
    requires before <= start.descended && forall f <- start.descended :: f in before || w.resolve(root) == Some(f)
    ensures var left := m.descended - before;
            var n := m.(unreadable := m.unreadable + [Report(root, TooMany)], abandoned := m.abandoned + left,
                        entered := m.entered[root := left]);
            Justified(w, known, n) && Grows(m, n) && Exhausted(n) == Exhausted(m) + {root}
  {
    hide Exhausted, Unlisted, Reached, Reports, EnteredForSome;
    var left := m.descended - before;
    var n := m.(unreadable := m.unreadable + [Report(root, TooMany)], abandoned := m.abandoned + left,
                entered := m.entered[root := left]);
    ExhaustedSnoc(m, n, Report(root, TooMany));
    SubsetSize(m.descended - start.descended, left);
    forall f <- left
      ensures Reached(w, known, root, f)
    {
      if f in start.descended {
        RootReached(w, known, root, f);
      }
    }
    assert TooManyBelow(w, known, root, left);
    EnteredMore(m.entered, root, left, m.abandoned);
    assert forall u <- m.unreadable + [Report(root, TooMany)] :: u in m.unreadable || u.reason == TooMany;
  }

  lemma RootReached(w: World, known: string -> bool, root: Path, f: Folder)
    requires w.resolve(root) == Some(f)
    ensures Reached(w, known, root, f)
  {
    assert Stop(root, [], 0) == root;
    assert IsRoute(w, root, []) && NoSkill(known, []);
  }

  lemma EnteredMore(entered: map<Path, set<Folder>>, root: Path, left: set<Folder>, abandoned: set<Folder>)
    requires root !in entered && forall f <- abandoned :: EnteredForSome(entered, f)
    ensures forall f <- abandoned + left :: EnteredForSome(entered[root := left], f)
  {
    var more := entered[root := left];
    forall f <- abandoned + left
      ensures EnteredForSome(more, f)
    {
      if f in left {
        assert f in more[root];
      } else {
        var r :| r in entered && f in entered[r];
        assert f in more[r];
      }
    }
  }

  /** A root is marked, and the folder it is in. */
  lemma RootEnters(w: World, known: string -> bool, m: Marks, root: Path)
    requires Complete(w, known, m) && Justified(w, known, m) && root !in m.roots
    ensures var n := m.(roots := m.roots + {root}, descended := m.descended + Here(w, root));
            && Grows(m, n) && Exhausted(n) == Exhausted(m) && root !in Exhausted(n)
            && AllDone(w, known, n, Here(w, root)) && Justified(w, known, n)
  {
    hide FolderDone, RootDone, TooManyBelow, EnteredForSome, Unlisted;
    var n := m.(roots := m.roots + {root}, descended := m.descended + Here(w, root));
    AllGrows(w, known, m, n, {});
    forall u <- n.unreadable
      ensures ReportTrue(w, known, n.roots, u)
    {
      assert ReportTrue(w, known, m.roots, u);
    }
  }

  const START := Marks({}, [], {}, [], {}, map[])

  /** The folder a path is in, if it has one. */
  function Here(w: World, p: Path): set<Folder> {
    if w.resolve(p).Some? then {w.resolve(p).value} else {}
  }

  lemma ListedIsHeld(w: World, dir: Path)
    ensures ListDir(w, dir).Entries? ==> Held(w, dir) == ListDir(w, dir).entries
    ensures ListDir(w, dir).Missing? ==> Held(w, dir) == []
  {}

  const ByDir: (Skill, Skill) -> bool := (a: Skill, b: Skill) => Less(Join(a.dir), Join(b.dir))

  lemma {:induction false} FoundSorted(out: seq<Skill>)
    ensures var found := StableSort(ByDir, out);
            multiset(found) == multiset(out) && forall i, j :: 0 <= i < j < |found| ==> !Less(Join(found[j].dir), Join(found[i].dir))
  {
    hide StableSort, Less, Join;
    forall a: Skill, b: Skill, c: Skill {
      LessWeak(Join(a.dir), Join(b.dir), Join(c.dir));
    }
    SortOrders(ByDir, out);
    var found := StableSort(ByDir, out);
    forall i, j | 0 <= i < j < |found|
      ensures !Less(Join(found[j].dir), Join(found[i].dir))
    {
      assert !ByDir(found[j], found[i]);
    }
  }

  function Roots(sources: seq<Source>): set<Path> {
    set src | src in sources :: src.root
  }

  // ---- the search ----

  class SkillScan {
    const w: World
    const known: string -> bool
    var seen: set<Path>
    var descended: set<Folder>
    var budget: int
    var out: seq<Skill>
    var unreadable: seq<Report>
    ghost var roots: set<Path>
    ghost var abandoned: set<Folder>
    ghost var entered: map<Path, set<Folder>>

    constructor (w: World, known: string -> bool)
      ensures this.w == w && this.known == known && View() == START && seen == {}
    {
      this.w, this.known := w, known;
      seen, descended, budget, out, unreadable := {}, {}, 0, [], [];
      roots, abandoned, entered := {}, {}, map[];
    }

    ghost function View(): Marks
      reads `roots, `out, `descended, `unreadable, `abandoned, `entered
    {
      Marks(roots, out, descended, unreadable, abandoned, entered)
    }

    /** The bookkeeping that holds between any two steps. */
    ghost predicate Valid()
      reads `seen, `roots, `out, `descended
    {
      && Genuine(w)
      && seen == roots + Dirs(out) && roots !! Dirs(out) && DistinctDirs(out) && Sound(w, known, roots, out)
      && (forall r <- roots :: w.resolve(r).Some? ==> w.resolve(r).value in descended)
    }

    /** All folders entered are done, except those still being searched. */
    ghost predicate DoneBut(grey: set<Folder>)
      reads `roots, `out, `descended, `unreadable, `abandoned, `entered
    {
      AllDone(w, known, View(), grey)
    }

    ghost predicate SearchedDir(dir: Path, nested: bool)
      reads `roots, `out, `descended, `unreadable, `abandoned, `entered
    {
      Told(w, View(), dir, nested) && (Reported(w, View(), dir) || EntriesDone(w, known, View(), dir, nested))
    }

    /**
     * The recursive closure. root and route say how dir was reached, grey which
     * folders are on the stack; ok is false when the budget is used up.
     */
    method Walk(dir: Path, kind: string, nested: bool, ghost root: Path, ghost route: seq<DirEntry>, ghost grey: set<Folder>)
      returns (ok: bool)
      requires Valid() && DoneBut(grey) && root in roots && budget >= 0
      requires IsRoute(w, root, route) && NoSkill(known, route) && dir == Stop(root, route, |route|)
      requires nested <==> route != []
      modifies this
      ensures Valid() && Later(w, known, root, old(View()), View(), old(budget) - 1, budget, ok)
      ensures NewFrom(w, known, root, kind, old(out), out)
      ensures ok ==> DoneBut(grey) && SearchedDir(dir, nested)
      decreases w.tree.Keys - descended, 3
    {
      hide IsRoute, NoSkill, Sound, DistinctDirs, Dirs, Stop, Genuine, EntryDone, AllDone, ListDir, Held, Reached, Unlisted, NewFrom;
      NothingNew(w, known, root, kind, out);
      budget := budget - 1;
      if budget < 0 {
        return false;
      }
      var ents := ListDir(w, dir);
      ListedIsHeld(w, dir);
      if ents.Missing? && !nested {
        return true;
      }
      if !ents.Entries? {
        ReportAdds(w, known, View(), root, route, dir, grey);
        unreadable := unreadable + [Report(dir, CannotList)];
        return true;
      }
      ok := VisitEntries(dir, kind, nested, ents.entries, root, route, grey);
    }

    /** The closure's loop. */
    method VisitEntries(
        dir: Path, kind: string, nested: bool, entries: seq<DirEntry>,
        ghost root: Path, ghost route: seq<DirEntry>, ghost grey: set<Folder>)
      returns (ok: bool)
      requires Valid() && DoneBut(grey) && root in roots && budget >= 0
      requires IsRoute(w, root, route) && NoSkill(known, route) && dir == Stop(root, route, |route|)
      requires nested <==> route != []
      requires Held(w, dir) == entries
      modifies this
      ensures Valid() && Later(w, known, root, old(View()), View(), old(budget), budget, ok)
      ensures NewFrom(w, known, root, kind, old(out), out)
      ensures ok ==> DoneBut(grey) && EarlierDone(dir, entries, nested)
      decreases w.tree.Keys - descended, 2
    {
      hide IsRoute, NoSkill, Stop, EntryDone, AllDone, Valid, Held, SearchedDir, Later, NewFrom;
      ghost var v0, b0 := View(), budget;
      NothingNew(w, known, root, kind, out);
      LaterStart(w, known, root, v0, b0);
      for i := 0 to |entries|
        invariant Valid() && DoneBut(grey) && root in roots && budget >= 0
        invariant Later(w, known, root, v0, View(), b0, budget, true) && v0.descended <= descended
        invariant EarlierDone(dir, entries[..i], nested) && NewFrom(w, known, root, kind, v0.out, out)
      {
        ghost var v1, b1 := View(), budget;
        ok := VisitEntry(dir, kind, nested, entries[i], root, route, grey);
        LaterTrans(w, known, root, v0, v1, View(), b0, b1, budget, ok);
        LaterFacts(w, known, root, v1, View(), b1, budget, ok);
        NewFromTrans(w, known, root, kind, v0.out, v1.out, out);
        if !ok {
          return;
        }
        EarlierGrows(v1, dir, entries[..i], nested);
        assert entries[..i + 1] == entries[..i] + [entries[i]];
      }
      assert entries[..|entries|] == entries;
      ok := true;
    }

    /** One round of the loop. */
    method VisitEntry(
        dir: Path, kind: string, nested: bool, e: DirEntry,
        ghost root: Path, ghost route: seq<DirEntry>, ghost grey: set<Folder>)
      returns (ok: bool)
      requires Valid() && DoneBut(grey) && root in roots && budget >= 0
      requires IsRoute(w, root, route) && NoSkill(known, route) && dir == Stop(root, route, |route|)
      requires nested <==> route != []
      requires e in Held(w, dir)
      modifies this
      ensures Valid() && Later(w, known, root, old(View()), View(), old(budget), budget, ok)
      ensures NewFrom(w, known, root, kind, old(out), out)
      ensures ok ==> DoneBut(grey) && EntryDone(w, known, View(), dir + [e.name], e, nested)
      decreases w.tree.Keys - descended, 1
    {
      hide IsRoute, NoSkill, Sound, DistinctDirs, Dirs, Stop, Genuine, EntryDone, AllDone, LeadsToSkill, Held, Later, Reached, NewFrom, NoSkill, IsOmacSkill;
      var child := dir + [e.name];
      LaterStart(w, known, root, View(), budget);
      NothingNew(w, known, root, kind, out);
      if child in seen {
        SeenIsDone(child, e, nested);
        return true;
      }
      if !e.isDir {
        NotDirDone(child, e, nested);
        return true;
      }
      RouteSnoc(w, known, root, route, e);
      if IsOmacSkill(known, e, nested) {
        ghost var v0 := View();
        AddSkill(child, kind, root, route + [e]);
        ResultAdds(w, known, root, v0, View(), budget, grey);
        NotDirDone(child, e, nested);
        return true;
      }
      if w.resolve(child).None? || w.resolve(child).value in descended {
        NotDirDone(child, e, nested);
        return true;
      }
      ChildKnown(dir, e, w.resolve(child).value);
      ok := Descend(child, kind, root, route + [e], grey, w.resolve(child).value);
      if ok {
        NotDirDone(child, e, nested);
      }
    }

    /** A folder entered for the first time, under this path. */
    method Descend(
        child: Path, kind: string, ghost root: Path, ghost route: seq<DirEntry>, ghost grey: set<Folder>, target: Folder)
      returns (ok: bool)
      requires Valid() && DoneBut(grey) && root in roots && budget >= 0
      requires IsRoute(w, root, route) && NoSkill(known, route) && child == Stop(root, route, |route|) && route != []
      requires w.resolve(child) == Some(target) && target in w.tree && target !in descended
      modifies this
      ensures Valid() && Later(w, known, root, old(View()), View(), old(budget), budget, ok)
      ensures NewFrom(w, known, root, kind, old(out), out)
      ensures target in descended && (ok ==> DoneBut(grey))
      decreases w.tree.Keys - descended, 0
    {
      hide IsRoute, NoSkill, Sound, DistinctDirs, Dirs, Stop, Genuine, AllDone, EntriesDone, Reported, Later, Reached, NewFrom;
      ghost var v0, b0 := View(), budget;
      descended := descended + {target};
      FolderEntered(w, known, v0, root, route, target, grey);
      ghost var v1 := View();
      ok := Walk(child, kind, true, root, route, grey + {target});
      DescentIsLater(w, known, root, v0, v1, View(), b0, budget, ok, target);
      if ok {
        FolderDoneFromPath(w, known, View(), child, true, target);
        OffTheStack(w, known, View(), grey, target);
      }
    }

    lemma ChildKnown(dir: Path, e: DirEntry, f: Folder)
      requires Genuine(w) && e in Held(w, dir) && e.isDir
      requires w.resolve(dir + [e.name]) == Some(f)
      ensures f in w.tree
    {}

    /** The ways an entry can be done at once. */
    lemma NotDirDone(child: Path, e: DirEntry, nested: bool)
      requires !e.isDir || InResult(w, View(), child)
            || (!IsOmacSkill(known, e, nested) && (w.resolve(child).Some? ==> w.resolve(child).value in descended))
      ensures EntryDone(w, known, View(), child, e, nested)
    {}

    ghost predicate EarlierDone(dir: Path, entries: seq<DirEntry>, nested: bool)
      reads `roots, `out, `descended, `unreadable, `abandoned, `entered
    {
      forall e <- entries :: EntryDone(w, known, View(), dir + [e.name], e, nested)
    }

    /** A path is in seen because it is in the result or because it is a root. */
    lemma SeenIsDone(child: Path, e: DirEntry, nested: bool)
      requires Valid() && child in seen
      ensures EntryDone(w, known, View(), child, e, nested)
    {
      if child in Dirs(out) {
        var s :| s in out && s.dir == child;
        assert Same(w, s.dir, child);
      } else {
        assert Same(w, child, child);
      }
    }

    lemma EarlierGrows(v: Marks, dir: Path, entries: seq<DirEntry>, nested: bool)
      requires Grows(v, View()) && forall e <- entries :: EntryDone(w, known, v, dir + [e.name], e, nested)
      ensures EarlierDone(dir, entries, nested)
    {}

    lemma StartOfRoute(root: Path)
      ensures IsRoute(w, root, []) && NoSkill(known, []) && Stop(root, [], 0) == root
    {}

    method AddSkill(child: Path, kind: string, ghost root: Path, ghost route: seq<DirEntry>)
      requires Valid() && child !in seen && root in roots
      requires IsRoute(w, root, route) && LeadsToSkill(known, route) && child == Stop(root, route, |route|)
      modifies this`seen, this`out
      ensures Valid() && InResult(w, View(), child)
      ensures View() == old(View()).(out := out) && old(out) <= out && NewFrom(w, known, root, kind, old(out), out)
    {
      hide IsRoute, LeadsToSkill, Stop, Genuine, Sound, DistinctDirs, Dirs;
      SoundAdd(w, known, roots, out, Skill(child, kind), root, route);
      NewFromAdd(w, known, root, kind, out, child, route);
      seen := seen + {child};
      out := out + [Skill(child, kind)];
      assert out[|out| - 1].dir == child;
    }

    /** The loop body over the sources; skips a root that is already seen. */
    method ScanRoot(src: Source)
      requires Valid() && Complete(w, known, View()) && Justified(w, known, View())
      modifies this
      ensures Valid() && Complete(w, known, View()) && Justified(w, known, View()) && Grows(old(View()), View())
      ensures roots == old(roots) + (if src.root in old(seen) then {} else {src.root})
      ensures src.root in seen && NewFrom(w, known, src.root, src.kind, old(out), out)
      ensures Exhausted(View()) <= Exhausted(old(View())) + {src.root}
    {
      NothingNew(w, known, src.root, src.kind, out);
      if src.root in seen {
        assert Grows(View(), View());
        return;
      }
      hide Genuine, Sound, DistinctDirs, Dirs, FolderDone, EntriesDone, Reported, Stop, IsRoute, RootDone, Valid, Grows;
      hide Complete, Justified, Exhausted, AllDone, NewFrom;
      ghost var v0 := View();
      Enter(src.root);
      ghost var v1 := View();
      SearchRoot(src, v0.descended);
      GrowsTrans(v0, v1, View());
      CompleteGrows(w, known, v0, View());
    }

    /** The search below one root, with a budget of its own. */
    method SearchRoot(src: Source, ghost before: set<Folder>)
      requires Valid() && src.root in roots && src.root !in Exhausted(View()) && Justified(w, known, View())
      requires before <= descended && forall f <- descended :: f in before || w.resolve(src.root) == Some(f)
      requires DoneBut(Here(w, src.root))
      modifies this
      ensures Valid() && Grows(old(View()), View()) && roots == old(roots) && RootDone(w, known, View(), src.root)
      ensures forall f <- descended :: f in before || FolderDone(w, known, View(), f)
      ensures Justified(w, known, View()) && Exhausted(View()) <= Exhausted(old(View())) + {src.root}
      ensures NewFrom(w, known, src.root, src.kind, old(out), out)
    {
      hide Genuine, Sound, DistinctDirs, Dirs, FolderDone, EntriesDone, Reported, Stop, IsRoute, RootDone, Valid, Grows;
      hide Later, Justified, Exhausted, AllDone, Here, NewFrom;
      budget := MAX_SCAN_DIRS;
      StartOfRoute(src.root);
      ghost var v0 := View();
      var ok := Walk(src.root, src.kind, false, src.root, [], Here(w, src.root));
      LaterFacts(w, known, src.root, v0, View(), MAX_SCAN_DIRS - 1, budget, ok);
      LaterJustified(w, known, src.root, v0, View(), MAX_SCAN_DIRS - 1, budget, ok);
      if ok {
        RootIsDone(src.root, before);
      } else {
        ghost var v1 := View();
        GiveUp(src.root, v0, before);
        GrowsTrans(v0, v1, View());
      }
    }

    /** The folder a searched root is in leaves the stack. */
    lemma RootIsDone(root: Path, before: set<Folder>)
      requires Valid() && SearchedDir(root, false) && DoneBut(Here(w, root)) && root in roots
      ensures RootDone(w, known, View(), root)
      ensures forall f <- descended :: f in before || FolderDone(w, known, View(), f)
    {
      if w.resolve(root).Some? {
        FolderDoneFromPath(w, known, View(), root, false, w.resolve(root).value);
      }
    }

    /** A root that is not listed yet is marked, and the folder it is in. */
    method Enter(root: Path)
      requires Valid() && Complete(w, known, View()) && Justified(w, known, View()) && root !in seen
      modifies this`seen, this`roots, this`descended
      ensures Valid() && Grows(old(View()), View()) && Exhausted(View()) == Exhausted(old(View()))
      ensures roots == old(roots) + {root} && root !in Exhausted(View())
      ensures old(descended) <= descended && forall f <- descended :: f in old(descended) || w.resolve(root) == Some(f)
      ensures DoneBut(Here(w, root)) && Justified(w, known, View())
    {
      hide Genuine, DistinctDirs, Sound, Complete, Justified, AllDone, Grows, Exhausted;
      ghost var v0 := View();
      RootEnters(w, known, v0, root);
      SoundGrows(w, known, roots, out, root);
      assert root !in roots;
      seen, roots := seen + {root}, roots + {root};
      var target := w.resolve(root);
      if target.Some? {
        descended := descended + {target.value};
      }
      assert View() == v0.(roots := v0.roots + {root}, descended := v0.descended + Here(w, root));
    }

    /** A root too large to search is reported, and what was entered on its behalf is left. */
    method GiveUp(root: Path, ghost start: Marks, ghost before: set<Folder>)
      requires Valid() && root in roots && root !in Exhausted(View()) && Justified(w, known, View())
      requires Later(w, known, root, start, View(), MAX_SCAN_DIRS - 1, budget, false)
      requires before <= start.descended && forall f <- start.descended :: f in before || w.resolve(root) == Some(f)
      modifies this`unreadable, this`abandoned, this`entered
      ensures Valid() && Grows(old(View()), View()) && roots == old(roots) && RootDone(w, known, View(), root)
      ensures forall f <- descended :: f in before || FolderDone(w, known, View(), f)
      ensures Justified(w, known, View()) && Exhausted(View()) == Exhausted(old(View())) + {root}
    {
      hide Genuine, DistinctDirs, Dirs, Sound, EntriesDone, Reported, Reached, Unlisted, IsRoute, Stop, NoSkill, Justified, Valid;
      ManyEntered(w, known, root, start, View(), MAX_SCAN_DIRS - 1, budget);
      GivenUp(w, known, root, start, View(), before, budget);
      unreadable := unreadable + [Report(root, TooMany)];
      entered := entered[root := descended - before];
      abandoned := abandoned + (descended - before);
    }

    /** Every root in turn. */
    method ScanRoots(sources: seq<Source>)
      requires Genuine(w) && View() == START && seen == {}
      modifies this
      ensures Complete(w, known, View()) && Justified(w, known, View())
      ensures Sound(w, known, roots, out) && DistinctDirs(out)
      ensures roots <= Roots(sources) <= roots + Dirs(out) && roots !! Dirs(out)
      ensures sources != [] ==> sources[0].root in roots
      ensures KindsOk(w, known, sources, out)
    {
      hide Sound, Genuine, Complete, DistinctDirs, Dirs, Valid, Grows, Roots, Justified, Exhausted, KindsOk, NewFrom;
      ScanStarts(sources);
      for i := 0 to |sources|
        invariant Valid() && Complete(w, known, View()) && Justified(w, known, View())
        invariant Roots(sources[..i]) <= seen && roots <= Roots(sources)
        invariant if i == 0 then seen == {} else sources[0].root in roots
        invariant KindsOk(w, known, sources[..i], out)
      {
        ghost var v := View();
        RootsSnoc(sources, i);
        SeenGrows(v);
        ScanRoot(sources[i]);
        SeenGrows(v);
        KindsSnoc(w, known, sources[..i], sources[i], v.out, out);
        assert sources[..i + 1] == sources[..i] + [sources[i]];
      }
      assert sources[..|sources|] == sources;
      ScanEnds(sources);
    }

    lemma ScanStarts(sources: seq<Source>)
      requires Genuine(w) && View() == START && seen == {}
      ensures Valid() && Complete(w, known, View()) && Justified(w, known, View())
      ensures Roots(sources[..0]) <= seen && roots <= Roots(sources) && KindsOk(w, known, sources[..0], out)
    {}

    lemma ScanEnds(sources: seq<Source>)
      requires Valid() && Roots(sources) <= seen && roots <= Roots(sources)
      ensures Sound(w, known, roots, out) && DistinctDirs(out)
      ensures roots <= Roots(sources) <= roots + Dirs(out) && roots !! Dirs(out)
    {}

    /** omacSkillDirs on the sources it lists; the result comes in order of folder. */
    method Scan(sources: seq<Source>) returns (found: seq<Skill>)
      requires Genuine(w) && View() == START && seen == {}
      modifies this
      ensures Complete(w, known, View()) && Justified(w, known, View())
      ensures Sound(w, known, roots, out) && DistinctDirs(out)
      ensures roots <= Roots(sources) <= roots + Dirs(out) && roots !! Dirs(out)
      ensures sources != [] ==> sources[0].root in roots
      ensures KindsOk(w, known, sources, out)
      ensures multiset(found) == multiset(out) && forall i, j :: 0 <= i < j < |found| ==> !Less(Join(found[j].dir), Join(found[i].dir))
    {
      hide *;
      ScanRoots(sources);
      found := StableSort(ByDir, out);
      FoundSorted(out);
    }

    lemma SeenGrows(v: Marks)
      requires Valid() && Grows(v, View())
      ensures v.roots + Dirs(v.out) <= seen && v.roots <= roots
      ensures v == View() ==> seen == v.roots + Dirs(v.out)
    {}
  }

  lemma RootsSnoc(sources: seq<Source>, i: nat)
    requires i < |sources|
    ensures Roots(sources[..i + 1]) == Roots(sources[..i]) + {sources[i].root} && sources[i].root in Roots(sources)
  {}

  /**
   * When no root runs out of budget, every skill that lies on a route from a
   * source is in the result, or below one that is, or below a folder that really
   * could not be listed, or is a searched root itself.
   */
  lemma ScanFindsAll(w: World, known: string -> bool, m: Marks, sources: seq<Source>, src: Source, route: seq<DirEntry>)
    requires Genuine(w) && Complete(w, known, m) && Justified(w, known, m) && Exhausted(m) == {}
    requires src in sources && Roots(sources) <= m.roots + Dirs(m.out)
    requires IsRoute(w, src.root, route) && LeadsToSkill(known, route)
    ensures || src.root in Dirs(m.out)
            || (exists i :: 0 < i <= |route| && InResult(w, m, Stop(src.root, route, i)))
            || (exists i :: 0 <= i < |route| && Reported(w, m, Stop(src.root, route, i))
                         && !ListDir(w, Stop(src.root, route, i)).Entries?)
            || IsRoot(w, m, Stop(src.root, route, |route|))
  {
    assert src.root in Roots(sources);
    if src.root in m.roots {
      CompleteAccounts(w, known, m, src.root, route);
      NothingAbandoned(w, known, m);
      forall i | 0 <= i < |route| && Reported(w, m, Stop(src.root, route, i))
        ensures !ListDir(w, Stop(src.root, route, i)).Entries?
      {
        ReportedIsUnlisted(w, known, m, Stop(src.root, route, i));
      }
    }
  }

  /**
   * A folder that lies directly in a searched root is not overlooked when it has
   * an omac.yaml or a name the store knows, even if its omac.yaml was deleted: it
   * is in the result, or a searched root, or its root could not be listed.
   */
  lemma DirectChildFound(w: World, known: string -> bool, m: Marks, root: Path, e: DirEntry)
    requires Genuine(w) && Complete(w, known, m) && Justified(w, known, m) && Exhausted(m) == {}
    requires root in m.roots && e in Held(w, root) && e.isDir && (e.hasMeta || known(e.name))
    ensures InResult(w, m, root + [e.name]) || IsRoot(w, m, root + [e.name])
         || (Reported(w, m, root) && !ListDir(w, root).Entries?)
  {
    hide Complete, Justified, InResult, IsRoot, Reported, Held, ListDir, Genuine;
    var route := [e];
    StartsRoute(root, e);
    assert IsRoute(w, root, route);
    CompleteAccounts(w, known, m, root, route);
    NothingAbandoned(w, known, m);
    if Reported(w, m, root) {
      ReportedIsUnlisted(w, known, m, root);
    }
  }

  lemma StartsRoute(root: Path, e: DirEntry)
    ensures Stop(root, [e], 0) == root && Stop(root, [e], 1) == root + [e.name]
  {
    assert Names([e]) == [e.name];
  }

  /** A result without omac.yaml has a name the store knows and, unless it lies directly in its root, a SKILL.md. */
  lemma ResultsNeedCheck(w: World, known: string -> bool, roots: set<Path>, out: seq<Skill>, s: Skill)
    requires Sound(w, known, roots, out) && s in out
    ensures exists r: Path, route: seq<DirEntry> ::
              r in roots && IsRoute(w, r, route) && route != [] && s.dir == Stop(r, route, |route|) &&
              var e := route[|route| - 1];
              e.hasMeta || (known(e.name) && (|route| > 1 ==> e.hasDoc))
  {
    hide IsRoute, Stop;
    var r: Path, route: seq<DirEntry> :|
      r in roots && IsRoute(w, r, route) && LeadsToSkill(known, route) && s.dir == Stop(r, route, |route|);
    assert NeedsCheck(known, route, |route| - 1);
  }

  lemma ReportedIsUnlisted(w: World, known: string -> bool, m: Marks, p: Path)
    requires Justified(w, known, m) && Reported(w, m, p)
    ensures !ListDir(w, p).Entries?
  {}

  // ---- a root that is itself a skill ----

  /** A skill folder s/foo. */
  function RootedSkill(): World {
    World(
      p => if p == ["s"] then Some("s") else if p == ["s", "foo"] then Some("foo") else None,
      map["s" := Open([DirEntry("foo", true, true, true)]), "foo" := Open([])],
      p => false)
  }

  /** When s/foo is a source before s is, the skill in it is on a route from s but not in the result. */
  method RootedSkillMissed(known: string -> bool) returns (found: seq<Skill>)
    ensures var route := [DirEntry("foo", true, true, true)];
            && IsRoute(RootedSkill(), ["s"], route) && LeadsToSkill(known, route)
            && Stop(["s"], route, 1) == ["s", "foo"]
    ensures ["s", "foo"] !in Dirs(found)
  {
    RootedSkillGenuine(known);
    var scan := new SkillScan(RootedSkill(), known);
    found := scan.Scan([Source(["s", "foo"], "kind"), Source(["s"], "kind")]);
    SameMembers(found, scan.out);
  }

  lemma RootedSkillGenuine(known: string -> bool)
    ensures Genuine(RootedSkill())
    ensures var route := [DirEntry("foo", true, true, true)];
            && IsRoute(RootedSkill(), ["s"], route) && LeadsToSkill(known, route)
            && Stop(["s"], route, 1) == ["s", "foo"]
  {
    hide Genuine, IsRoute;
    GenuineRooted();
    RootedRoute();
    StartsRoute(["s"], DirEntry("foo", true, true, true));
  }

  lemma GenuineRooted()
    ensures Genuine(RootedSkill())
  {}

  lemma RootedRoute()
    ensures IsRoute(RootedSkill(), ["s"], [DirEntry("foo", true, true, true)])
  {
    hide Genuine;
    StartsRoute(["s"], DirEntry("foo", true, true, true));
  }
}
