/**
 * Hashing a skill folder and deciding whether its instructions may be seen
 * (config.BundleHash in internal/config/meta.go, unhashedSkillDoc and
 * skillContentRefusal in internal/cli/skill_content.go). sha256 is a parameter:
 * sum for file contents, digest for the whole bundle.
 */
module SkillApproval {
  import opened Wrappers
  import opened Sequences
  import opened BundleEncoding
  import opened SkillTree

  // ---- relative paths as strings ----

  /** A name the file system can hold. */
  predicate LegalName(name: string) {
    name != "" && '/' !in name && NUL !in name
  }

  ghost predicate LegalNames(node: Node) {
    node.Dir? ==> forall e <- node.entries :: LegalName(e.name) && LegalNames(e.node)
  }

  /** A joined path determines its names. */
  lemma {:induction false} JoinInjective(p: seq<string>, q: seq<string>)
    requires (forall n <- p :: LegalName(n)) && (forall n <- q :: LegalName(n))
    requires Join(p) == Join(q)
    ensures p == q
    decreases |p|
  {
    JoinEmpty(p);
    JoinEmpty(q);
    if p != [] && q != [] {
      assert p[0] in p && q[0] in q;
      assert (forall n <- p[1..] :: n in p) && forall n <- q[1..] :: n in q;
      JoinCut(p);
      JoinCut(q);
      JoinInjective(p[1..], q[1..]);
      assert p == [p[0]] + p[1..] && q == [q[0]] + q[1..];
    }
  }

  lemma {:induction false} JoinEmpty(p: seq<string>)
    requires forall n <- p :: LegalName(n)
    ensures Join(p) == "" <==> p == []
  {
    if p != [] {
      assert p[0] in p;
    }
  }

  lemma {:induction false} JoinCut(p: seq<string>)
    requires p != [] && LegalName(p[0])
    ensures var s := Join(p); var n := IndexOfSlash(s);
            p[0] == s[..n] && (n == |s| <==> |p| == 1) && (n < |s| ==> Join(p[1..]) == s[n + 1..])
    ensures |p| == 1 ==> p[1..] == []
  {
    IndexOfSlashAt(p[0], Join(p[1..]));
  }

  lemma {:induction false} JoinNoNul(p: seq<string>)
    requires forall n <- p :: LegalName(n)
    ensures NUL !in Join(p)
  {
    if |p| > 1 {
      assert p[0] in p && forall n <- p[1..] :: n in p;
      JoinNoNul(p[1..]);
    } else if |p| == 1 {
      assert LegalName(p[0]);
    }
  }

  // ---- what the walk collects ----

  ghost predicate GoodSum(sum: string -> string) {
    forall data: string :: |sum(data)| == SUM_SIZE
  }

  function Records(sum: string -> string, hashed: seq<Hashed>): seq<Item> {
    seq(|hashed|, i requires 0 <= i < |hashed| => Item(Join(hashed[i].path), sum(hashed[i].data)))
  }

  ghost predicate DistinctHashed(hashed: seq<Hashed>) {
    forall i, j :: 0 <= i < j < |hashed| ==> hashed[i].path != hashed[j].path
  }

  /** Everything collected at an entry lies at or below it. */
  predicate Below(at: seq<string>, name: string, path: seq<string>) {
    |at| < |path| && path[..|at|] == at && path[|at|] == name
  }

  lemma {:induction false} EntryPaths(at: seq<string>, e: Entry)
    requires HashEntry(at, e).Some? && LegalName(e.name) && LegalNames(e.node) && DistinctNames(e.node)
    requires forall n <- at :: LegalName(n)
    ensures var hs := HashEntry(at, e).value;
            && DistinctHashed(hs)
            && forall h <- hs :: Below(at, e.name, h.path) && forall n <- h.path :: LegalName(n)
    decreases e, 0
  {
    hide IsExcludedDirName, IsExcludedFileName;
    var here := at + [e.name];
    if e.node.Dir? && !IsExcludedDirName(e.name) {
      EntriesPaths(here, e.node.entries);
      forall h <- HashEntry(at, e).value
        ensures Below(at, e.name, h.path) && forall n <- h.path :: LegalName(n)
      {
        var f :| f in e.node.entries && Below(here, f.name, h.path);
        assert h.path[..|at|] == here[..|at|] == at;
      }
    } else if e.node.File? {
      assert here[..|at|] == at;
    }
  }

  lemma {:induction false} EntriesPaths(at: seq<string>, entries: seq<Entry>)
    requires HashEntries(at, entries).Some? && DistinctEntries(entries)
    requires forall e <- entries :: LegalName(e.name) && LegalNames(e.node)
    requires forall n <- at :: LegalName(n)
    ensures var hs := HashEntries(at, entries).value;
            && DistinctHashed(hs)
            && forall h <- hs :: (exists e <- entries :: Below(at, e.name, h.path)) && forall n <- h.path :: LegalName(n)
    decreases entries, 0
  {
    if entries != [] {
      var first, rest := HashEntry(at, entries[0]).value, HashEntries(at, entries[1..]).value;
      assert forall i, j :: 0 <= i < j < |entries[1..]| ==> entries[1..][i].name != entries[1..][j].name;
      assert forall e <- entries[1..] :: e in entries && e.name != entries[0].name;
      assert entries[0] in entries;
      EntryPaths(at, entries[0]);
      EntriesPaths(at, entries[1..]);
      DistinctBoth(at, entries[0].name, first, rest);
      forall h: Hashed | h in first + rest
        ensures (exists e <- entries :: Below(at, e.name, h.path)) && forall n <- h.path :: LegalName(n)
      {
        if h in first {
          assert Below(at, entries[0].name, h.path);
        } else {
          var e :| e in entries[1..] && Below(at, e.name, h.path);
          assert e in entries;
        }
      }
    }
  }

  lemma DistinctBoth(at: seq<string>, name: string, first: seq<Hashed>, rest: seq<Hashed>)
    requires DistinctHashed(first) && DistinctHashed(rest)
    requires forall h <- first :: Below(at, name, h.path)
    requires forall h <- rest :: !Below(at, name, h.path)
    ensures DistinctHashed(first + rest)
  {}

  /** The records of a hashable tree are well formed and have distinct paths. */
  lemma {:induction false} RecordsOk(sum: string -> string, root: Node)
    requires GoodSum(sum) && root.Dir? && LegalNames(root) && DistinctNames(root) && HashDir([], root).Some?
    ensures var items := Records(sum, HashDir([], root).value);
            DistinctPaths(items) && forall it <- items :: WellFormed(it)
    ensures forall h <- HashDir([], root).value :: forall n <- h.path :: LegalName(n)
  {
    var hs := HashDir([], root).value;
    var items := Records(sum, hs);
    EntriesPaths([], root.entries);
    forall i | 0 <= i < |items|
      ensures WellFormed(items[i])
    {
      assert hs[i] in hs;
      JoinNoNul(hs[i].path);
    }
    forall i, j | 0 <= i < j < |items|
      ensures items[i].rel != items[j].rel
    {
      assert hs[i] in hs && hs[j] in hs;
      if items[i].rel == items[j].rel {
        JoinInjective(hs[i].path, hs[j].path);
      }
    }
  }

  // ---- the walks as they run ----

  /** The hash walk appends to the records collected so far and stops at the first failure. */
  method WalkHash(at: seq<string>, entries: seq<Entry>, collected: seq<Hashed>) returns (ok: bool, items: seq<Hashed>)
    ensures ok <==> HashEntries(at, entries).Some?
    ensures ok ==> items == collected + HashEntries(at, entries).value
    decreases entries
  {
    hide IsExcludedDirName, IsExcludedFileName;
    items := collected;
    ghost var done: seq<Hashed> := [];
    assert entries[0..] == entries && forall rest: seq<Hashed> :: done + rest == rest;
    for i := 0 to |entries|
      invariant items == collected + done
      invariant HashEntries(at, entries) == match HashEntries(at, entries[i..])
                                            case None => None
                                            case Some(rest) => Some(done + rest)
    {
      var e := entries[i];
      assert entries[i..][0] == e && entries[i..][1..] == entries[i + 1..];
      ghost var more: seq<Hashed> := [];
      match e.node {
        case Dir(listable, below) =>
          if !IsExcludedDirName(e.name) {
            assert HashEntry(at, e) == HashDir(at + [e.name], e.node);
            if !listable {
              return false, items;
            }
            ok, items := WalkHash(at + [e.name], below, items);
            if !ok {
              return;
            }
            more := HashEntries(at + [e.name], below).value;
          }
        case File(readable, data) =>
          if !IsExcludedFileName(e.name) {
            if !readable {
              return false, items;
            }
            items := items + [Hashed(at + [e.name], data)];
            more := [Hashed(at + [e.name], data)];
          }
        case _ =>
          if e.name == META_FILE {
            return false, items;
          }
      }
      assert HashEntry(at, e) == Some(more);
      forall rest: seq<Hashed>
        ensures done + (more + rest) == (done + more) + rest
      {}
      done := done + more;
    }
    ok := true;
  }

  /** The digest input of a bundle; None when the walk fails. */
  method BundleInput(sum: string -> string, root: Node) returns (input: Option<string>)
    requires GoodSum(sum) && root.Dir? && LegalNames(root) && DistinctNames(root)
    ensures input == InputOf(sum, root)
  {
    if !root.listable {
      return None;
    }
    var ok, hashed := WalkHash([], root.entries, []);
    if !ok {
      return None;
    }
    assert [] + HashEntries([], root.entries).value == HashEntries([], root.entries).value;
    RecordsOk(sum, root);
    var bytes := DigestInput(Records(sum, hashed));
    input := Some(bytes);
  }

  ghost function InputOf(sum: string -> string, root: Node): (input: Option<string>)
    requires GoodSum(sum) && root.Dir? && LegalNames(root) && DistinctNames(root)
  {
    if HashDir([], root).None? then None
    else
      RecordsOk(sum, root);
      Some(Encode(Sort(Records(sum, HashDir([], root).value))))
  }

  /** unhashedSkillDoc: the first finding, or the failure, of the document walk. */
  method WalkDocs(at: seq<string>, entries: seq<Entry>) returns (found: Visit)
    ensures found == VisitEntries(at, entries)
    decreases entries
  {
    hide IsExcludedDirName, IsSkillDoc;
    assert entries[0..] == entries;
    for i := 0 to |entries|
      invariant VisitEntries(at, entries) == VisitEntries(at, entries[i..])
    {
      var e := entries[i];
      assert entries[i..][0] == e && entries[i..][1..] == entries[i + 1..];
      var here := at + [e.name];
      match e.node {
        case Link(target) =>
          if IsSkillDoc(e.name) {
            return Uncovered(here);
          }
          if target.Folder? && (target.resolved.None? || !UnderRoot(target.resolved.value)) {
            return Uncovered(here);
          }
        case Dir(listable, below) =>
          assert VisitEntry(at, e) == VisitDir(here, e.node);
          if !listable {
            return Failed;
          }
          found := WalkDocs(here, below);
          if !found.Nothing? {
            return;
          }
        case _ =>
          if IsSkillDoc(e.name) {
            for j := 0 to |at|
              invariant forall part <- at[..j] :: !IsExcludedDirName(part)
            {
              assert at[..j + 1] == at[..j] + [at[j]];
              if IsExcludedDirName(at[j]) {
                return Uncovered(here);
              }
            }
            assert at[..|at|] == at;
          }
      }
      assert VisitEntry(at, e).Nothing?;
    }
    found := Nothing;
  }

  // ---- the verdict ----

  /** The host approval store: the digests approved for the skill's name, when it can be read. */
  datatype Store = Store(readable: bool, approved: set<string>)

  datatype Verdict =
    | Accepted
    | MetaMissing
    | CannotCheck
    | NotCovered(path: seq<string>)
    | CannotHash
    | StoreUnreadable
    | NotApproved

  /** A tree as the operating system presents it. */
  ghost predicate Genuine(root: Node) {
    root.Dir? && LegalNames(root) && DistinctNames(root) && LinksSound(root)
  }

  /** The meta file is there, as a regular file. */
  predicate HasMeta(root: Node) {
    Lookup(root, [META_FILE]).Some? && Lookup(root, [META_FILE]).value.File?
  }

  /**
   * Instructions an approval would not cover: a SKILL.md, in any letter case, that
   * is a link, or that lies in a folder the hash leaves out; or a folder link that
   * leads outside the skill.
   */
  ghost predicate Planted(root: Node, path: seq<string>) {
    path != [] && Lookup(root, path).Some? &&
    match Lookup(root, path).value
    case Link(target) => SpellsDoc(path[|path| - 1]) || target == Folder(None) || target == Folder(Some(Outside))
    case Dir(_, _) => false
    case _ => SpellsDoc(path[|path| - 1]) && exists part <- path[..|path| - 1] :: LeftOut(part)
  }

  /** Folders of version control, environments, caches, build output and editors. */
  predicate LeftOut(part: string) {
    || part == ".git" || part == ".hg" || part == ".svn" || part == ".venv" || part == "venv" || part == ".tox"
    || part == "__pycache__" || part == "node_modules" || part == ".cache" || part == ".pytest_cache"
    || part == ".mypy_cache" || part == ".ruff_cache" || part == "target" || part == "dist" || part == "build"
    || part == ".idea" || part == ".vscode"
  }

  lemma LeftOutIff(part: string)
    ensures LeftOut(part) <==> IsExcludedDirName(part)
  {}

  /** What the document walk says nothing about holds no such instructions. */
  lemma {:induction false} NothingPlanted(root: Node)
    requires Genuine(root) && VisitDir([], root).Nothing?
    ensures !exists path :: Planted(root, path)
  {
    hide SpellsDoc, LeftOut, IsExcludedDirName, LinksSound, LegalNames, VisitDir;
    if path :| Planted(root, path) {
      VisitedFine(root, path);
      if part :| part in path[..|path| - 1] && LeftOut(part) {
        LeftOutIff(part);
      }
    }
  }

  /** skillContentRefusal: the first reason to hide the skill, or Accepted. */
  method SkillContentRefusal(root: Node, sum: string -> string, digest: string -> string, store: Store)
    returns (v: Verdict)
    requires Genuine(root) && GoodSum(sum)
    ensures v.MetaMissing? <==> !HasMeta(root)
    ensures v.CannotCheck? <==> HasMeta(root) && VisitDir([], root).Failed?
    ensures v.NotCovered? <==> HasMeta(root) && VisitDir([], root).Uncovered?
    ensures v.NotCovered? ==> v.path == VisitDir([], root).path
    ensures v.CannotHash? <==> HasMeta(root) && VisitDir([], root).Nothing? && InputOf(sum, root).None?
    ensures v.StoreUnreadable? <==>
              HasMeta(root) && VisitDir([], root).Nothing? && InputOf(sum, root).Some? && !store.readable
    ensures v.Accepted? <==>
              && HasMeta(root) && VisitDir([], root).Nothing? && InputOf(sum, root).Some?
              && store.readable && digest(InputOf(sum, root).value) in store.approved
    ensures v.Accepted? ==> !exists path :: Planted(root, path)
  {
    var meta := Lookup(root, [META_FILE]);
    if meta.None? || !meta.value.File? {
      return MetaMissing;
    }
    var found := Failed;
    if root.listable {
      found := WalkDocs([], root.entries);
    }
    if found.Failed? {
      return CannotCheck;
    }
    if found.Uncovered? {
      return NotCovered(found.path);
    }
    var input := BundleInput(sum, root);
    if input.None? {
      return CannotHash;
    }
    if !store.readable {
      return StoreUnreadable;
    }
    v := if digest(input.value) in store.approved then Accepted else NotApproved;
    NothingPlanted(root);
  }

  /** The accepted state, as a predicate on the tree. */
  ghost predicate AcceptedAs(root: Node, sum: string -> string, digest: string -> string, hash: string)
    requires Genuine(root) && GoodSum(sum)
  {
    VisitDir([], root).Nothing? && InputOf(sum, root).Some? && digest(InputOf(sum, root).value) == hash
  }

  lemma {:induction false} RecordOf(sum: string -> string, root: Node, path: seq<string>, data: string)
    requires GoodSum(sum) && root.Dir? && HashDir([], root).Some? && Hashed(path, data) in HashDir([], root).value
    ensures Item(Join(path), sum(data)) in Elements(Records(sum, HashDir([], root).value))
  {
    var hs := HashDir([], root).value;
    var i :| 0 <= i < |hs| && hs[i] == Hashed(path, data);
    assert Records(sum, hs)[i] == Item(Join(path), sum(data));
  }

  lemma {:induction false} OfRecord(sum: string -> string, root: Node, path: seq<string>, s: string)
    requires Genuine(root) && GoodSum(sum) && HashDir([], root).Some? && forall n <- path :: LegalName(n)
    requires Item(Join(path), s) in Elements(Records(sum, HashDir([], root).value))
    ensures HasFile(sum, root, path, s)
  {
    var hs := HashDir([], root).value;
    var items := Records(sum, hs);
    var i :| 0 <= i < |items| && items[i] == Item(Join(path), s);
    RecordsOk(sum, root);
    assert hs[i] in hs;
    JoinInjective(hs[i].path, path);
    HashExact(root, path, hs[i].data);
  }

  /** The tree has a covered file with the given sum at a path. */
  ghost predicate HasFile(sum: string -> string, root: Node, path: seq<string>, s: string) {
    exists data :: Covered(root, path, data) && sum(data) == s
  }

  /** Same digest input: the covered files of the two trees agree, path by path, up to sums. */
  lemma SameInputSameFiles(sum: string -> string, a: Node, b: Node)
    requires Genuine(a) && Genuine(b) && GoodSum(sum)
    requires InputOf(sum, a).Some? && InputOf(sum, b).Some?
    ensures InputOf(sum, a) == InputOf(sum, b) <==>
            forall path: seq<string>, s: string :: HasFile(sum, a, path, s) <==> HasFile(sum, b, path, s)
  {
    hide Covered, HasFile, Genuine, HashDir, Sorted, Encode;
    InputRecords(sum, a);
    InputRecords(sum, b);
    var ra, rb := Records(sum, HashDir([], a).value), Records(sum, HashDir([], b).value);
    InputDecidesRecords(ra, rb);
    if Elements(ra) == Elements(rb) {
      forall path: seq<string>, s: string
        ensures HasFile(sum, a, path, s) <==> HasFile(sum, b, path, s)
      {
        if HasFile(sum, a, path, s) {
          CarriedOver(sum, a, b, path, s);
        }
        if HasFile(sum, b, path, s) {
          CarriedOver(sum, b, a, path, s);
        }
      }
    }
    if forall path: seq<string>, s: string :: HasFile(sum, a, path, s) <==> HasFile(sum, b, path, s) {
      ElementsWithin(sum, a, b);
      ElementsWithin(sum, b, a);
    }
  }

  lemma {:induction false} InputRecords(sum: string -> string, root: Node)
    requires Genuine(root) && GoodSum(sum) && InputOf(sum, root).Some?
    ensures root.Dir? && HashDir([], root).Some?
    ensures var items := Records(sum, HashDir([], root).value);
            DistinctPaths(items) && (forall it <- items :: WellFormed(it)) && InputOf(sum, root) == Some(Encode(Sort(items)))
  {
    RecordsOk(sum, root);
  }

  lemma {:induction false} CarriedOver(sum: string -> string, a: Node, b: Node, path: seq<string>, s: string)
    requires Genuine(a) && Genuine(b) && GoodSum(sum) && HashDir([], a).Some? && HashDir([], b).Some?
    requires Elements(Records(sum, HashDir([], a).value)) == Elements(Records(sum, HashDir([], b).value))
    requires HasFile(sum, a, path, s)
    ensures HasFile(sum, b, path, s)
  {
    hide Covered;
    var data :| Covered(a, path, data) && sum(data) == s;
    HashExact(a, path, data);
    RecordsOk(sum, a);
    RecordOf(sum, a, path, data);
    OfRecord(sum, b, path, s);
  }

  lemma {:induction false} ElementsWithin(sum: string -> string, a: Node, b: Node)
    requires Genuine(a) && Genuine(b) && GoodSum(sum) && HashDir([], a).Some? && HashDir([], b).Some?
    requires forall path: seq<string>, s: string :: HasFile(sum, a, path, s) ==> HasFile(sum, b, path, s)
    ensures Elements(Records(sum, HashDir([], a).value)) <= Elements(Records(sum, HashDir([], b).value))
  {
    hide Covered, HashDir;
    var hs := HashDir([], a).value;
    var items := Records(sum, hs);
    forall it <- Elements(items)
      ensures it in Elements(Records(sum, HashDir([], b).value))
    {
      var i :| 0 <= i < |items| && items[i] == it;
      var h := hs[i];
      assert h in hs && h == Hashed(h.path, h.data);
      HashExact(a, h.path, h.data);
      assert HasFile(sum, a, h.path, sum(h.data));
      var d :| Covered(b, h.path, d) && sum(d) == sum(h.data);
      HashExact(b, h.path, d);
      RecordOf(sum, b, h.path, d);
    }
  }

  /**
   * An approval pins the instructions: when two trees are accepted under one
   * approved hash and their digest inputs do not collide, every SKILL.md file a
   * loader can meet in one of them is a file at the same path with the same sum
   * in the other.
   */
  lemma {:induction false} ApprovalPinsDocs(
      sum: string -> string, digest: string -> string, hash: string, a: Node, b: Node,
      trail: seq<string>, name: string)
    requires Genuine(a) && Genuine(b) && GoodSum(sum)
    requires AcceptedAs(a, sum, digest, hash) && AcceptedAs(b, sum, digest, hash)
    requires digest(InputOf(sum, a).value) == digest(InputOf(sum, b).value) ==> InputOf(sum, a) == InputOf(sum, b)
    requires Follow(b, trail).At? && SpellsDoc(name)
    ensures var doc := Follow(b, trail).path + [name];
            Lookup(b, doc).Some? && Lookup(b, doc).value.File? ==>
              exists data :: Lookup(a, doc) == Some(File(true, data)) && sum(data) == sum(Lookup(b, doc).value.data)
  {
    hide SpellsDoc, GoodSum, HashDir, VisitDir;
    var doc := Follow(b, trail).path + [name];
    LoaderSeesOnlyHashed(b, trail, name);
    if Lookup(b, doc).Some? && Lookup(b, doc).value.File? {
      var data := Lookup(b, doc).value.data;
      HashExact(b, doc, data);
      SameInputSameFiles(sum, a, b);
      assert HasFile(sum, b, doc, sum(data));
      assert HasFile(sum, a, doc, sum(data));
    }
  }
}
