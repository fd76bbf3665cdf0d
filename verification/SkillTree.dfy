/**
 * The two walks over a skill folder: what config.BundleHash hashes
 * (internal/config/meta.go) and what unhashedSkillDoc refuses
 * (internal/cli/skill_content.go), on any tree of folders, files, links and
 * special files.
 */
module SkillTree {
  import opened Wrappers

  /** Where a link to a folder really leads, seen from the resolved skill root. */
  datatype Location = Inside(path: seq<string>) | Outside

  /** NotFolder: broken, or not a folder. Folder(None): a folder whose real path cannot be resolved. */
  datatype Target = NotFolder | Folder(resolved: Option<Location>)

  datatype Node =
    | File(readable: bool, data: string)
    | Dir(listable: bool, entries: seq<Entry>)
    | Link(target: Target)
    | Special

  datatype Entry = Entry(name: string, node: Node)

  const META_FILE: string := "omac.yaml"

  // ---- names ----

  const EXCLUDED_DIRS: set<string> := {
    ".git", ".hg", ".svn", ".venv", "venv", ".tox", "__pycache__", "node_modules",
    ".cache", ".pytest_cache", ".mypy_cache", ".ruff_cache", "target", "dist", "build", ".idea", ".vscode"
  }

  predicate IsExcludedDirName(name: string) {
    name in EXCLUDED_DIRS
  }

  predicate HasSuffix(s: string, suffix: string) {
    |suffix| <= |s| && s[|s| - |suffix|..] == suffix
  }

  predicate IsExcludedFileName(name: string) {
    name in {".DS_Store", "Thumbs.db", ".gitignore.swp"} ||
    exists suffix :: suffix in {".pyc", ".pyo", ".swp", "~"} && HasSuffix(name, suffix) && name != suffix
  }

  function Lower(c: char): char {
    if 'A' <= c <= 'Z' then c - 'A' + 'a' else c
  }

  /**
   * strings.EqualFold against an ASCII pattern in lower case. Besides the ASCII
   * cases only two letters have a further fold: the long s for 's' and the
   * Kelvin sign for 'k', here as their UTF-8 bytes.
   */
  predicate EqualFold(s: string, pattern: string)
    decreases |pattern|
  {
    if pattern == "" then s == ""
    else
      || (s != "" && Lower(s[0]) == pattern[0] && EqualFold(s[1..], pattern[1..]))
      || (pattern[0] == 's' && |s| >= 2 && s[..2] == "\U{C5}\U{BF}" && EqualFold(s[2..], pattern[1..]))
      || (pattern[0] == 'k' && |s| >= 3 && s[..3] == "\U{E2}\U{84}\U{AA}" && EqualFold(s[3..], pattern[1..]))
  }

  predicate IsSkillDoc(name: string) {
    EqualFold(name, "skill.md")
  }

  /** The name is spelled with these letters, each small or capital. */
  predicate Letters(name: string, small: string, capital: string) {
    && |name| == |small| == |capital|
    && forall i :: 0 <= i < |name| ==> name[i] == small[i] || name[i] == capital[i]
  }

  predicate CaseOfS(a: string) {
    a in {"s", "S", "\U{C5}\U{BF}"}
  }

  predicate CaseOfK(b: string) {
    b in {"k", "K", "\U{E2}\U{84}\U{AA}"}
  }

  /** SKILL.md in any letter case, with the long s and the Kelvin sign among the cases. */
  ghost predicate SpellsDoc(name: string) {
    exists a: string, b: string ::
      && CaseOfS(a) && CaseOfK(b) && a + b <= name && Letters(name[|a| + |b|..], "ill.md", "ILL.MD")
  }

  predicate CaseOf(small: char, capital: char) {
    small != 's' && small != 'k' && forall c: char :: Lower(c) == small <==> c == small || c == capital
  }

  lemma {:induction false} FoldLetters(s: string, small: string, capital: string)
    requires |small| == |capital| && forall i :: 0 <= i < |small| ==> CaseOf(small[i], capital[i])
    ensures EqualFold(s, small) <==> Letters(s, small, capital)
    decreases |small|
  {
    hide CaseOf;
    if small != "" {
      assert CaseOf(small[0], capital[0]) && forall i :: 0 <= i < |small| - 1 ==> small[1..][i] == small[i + 1];
      SameLetter(small[0], capital[0]);
      if s != "" {
        FoldLetters(s[1..], small[1..], capital[1..]);
        assert Letters(s, small, capital) <==> (s[0] == small[0] || s[0] == capital[0]) && Letters(s[1..], small[1..], capital[1..]);
      }
    }
  }

  lemma SameLetter(small: char, capital: char)
    requires CaseOf(small, capital)
    ensures small != 's' && small != 'k' && forall c: char :: Lower(c) == small <==> c == small || c == capital
  {}

  lemma {:induction false} RestOfDoc(s: string)
    ensures EqualFold(s, "ill.md") <==> Letters(s, "ill.md", "ILL.MD")
  {
    var small, capital := "ill.md", "ILL.MD";
    assert CaseOf('i', 'I') && CaseOf('l', 'L') && CaseOf('.', '.') && CaseOf('m', 'M') && CaseOf('d', 'D');
    forall i | 0 <= i < 6
      ensures CaseOf(small[i], capital[i])
    {
      hide CaseOf;
    }
    FoldLetters(s, small, capital);
  }

  predicate Starts(s: string, a: string, rest: string) {
    a <= s && EqualFold(s[|a|..], rest)
  }

  lemma {:induction false} FoldS(s: string)
    ensures EqualFold(s, "skill.md") <==>
            Starts(s, "s", "kill.md") || Starts(s, "S", "kill.md") || Starts(s, "\U{C5}\U{BF}", "kill.md")
  {
    var pattern := "skill.md";
    assert pattern[1..] == "kill.md" && pattern[0] == 's';
    assert s != "" ==> s[..1] == [s[0]];
    assert forall c: char :: Lower(c) == 's' <==> c == 's' || c == 'S';
    assert |s| >= 2 ==> ("\U{C5}\U{BF}" <= s <==> s[..2] == "\U{C5}\U{BF}");
  }

  lemma {:induction false} FoldK(s: string)
    ensures EqualFold(s, "kill.md") <==>
            Starts(s, "k", "ill.md") || Starts(s, "K", "ill.md") || Starts(s, "\U{E2}\U{84}\U{AA}", "ill.md")
  {
    var pattern := "kill.md";
    assert pattern[1..] == "ill.md" && pattern[0] == 'k';
    assert forall c: char :: Lower(c) == 'k' <==> c == 'k' || c == 'K';
    assert |s| >= 3 ==> ("\U{E2}\U{84}\U{AA}" <= s <==> s[..3] == "\U{E2}\U{84}\U{AA}");
  }

  lemma FoldsAs(name: string, a: string, b: string)
    requires CaseOfS(a) && CaseOfK(b) && a + b <= name && Letters(name[|a| + |b|..], "ill.md", "ILL.MD")
    ensures IsSkillDoc(name)
  {
    hide EqualFold, Letters;
    Split(name, a, b);
    RestOfDoc(name[|a| + |b|..]);
    FoldK(name[|a|..]);
    FoldS(name);
    assert a <= a + b;
  }

  lemma FoldedAs(name: string) returns (a: string, b: string)
    requires IsSkillDoc(name)
    ensures CaseOfS(a) && CaseOfK(b) && a + b <= name && Letters(name[|a| + |b|..], "ill.md", "ILL.MD")
  {
    hide EqualFold, Letters;
    FoldS(name);
    a := if Starts(name, "s", "kill.md") then "s" else if Starts(name, "S", "kill.md") then "S" else "\U{C5}\U{BF}";
    var rest := name[|a|..];
    FoldK(rest);
    b := if Starts(rest, "k", "ill.md") then "k" else if Starts(rest, "K", "ill.md") then "K" else "\U{E2}\U{84}\U{AA}";
    Split(name, a, b);
    RestOfDoc(rest[|b|..]);
  }

  /** The names the code takes for SKILL.md are its spellings. */
  lemma SkillDocIff(name: string)
    ensures IsSkillDoc(name) <==> SpellsDoc(name)
  {
    hide EqualFold, Letters;
    if IsSkillDoc(name) {
      var a, b := FoldedAs(name);
    }
    if SpellsDoc(name) {
      var a: string, b: string :|
        && CaseOfS(a) && CaseOfK(b) && a + b <= name && Letters(name[|a| + |b|..], "ill.md", "ILL.MD");
      FoldsAs(name, a, b);
    }
  }

  lemma Split(name: string, a: string, b: string)
    requires a <= name
    ensures b <= name[|a|..] <==> a + b <= name
    ensures b <= name[|a|..] ==> name[|a|..][|b|..] == name[|a| + |b|..]
  {
    if b <= name[|a|..] {
      assert name == a + name[|a|..];
      assert name[|a|..] == b + name[|a|..][|b|..];
      assert name[..|a + b|] == a + b;
    }
    if a + b <= name {
      assert name[|a|..] == (a + b)[|a|..] + name[|a + b|..];
    }
  }

  /** For one, each of its letters may be small or capital. */
  lemma EverySpelling(name: string)
    requires Letters(name, "skill.md", "SKILL.MD")
    ensures IsSkillDoc(name)
  {
    var a, b := [name[0]], [name[1]];
    assert name[0] == 's' || name[0] == 'S';
    assert name[1] == 'k' || name[1] == 'K';
    assert a == "s" || a == "S";
    assert b == "k" || b == "K";
    assert a + b == name[..2];
    forall i | 0 <= i < 6
      ensures name[2..][i] == "ill.md"[i] || name[2..][i] == "ILL.MD"[i]
    {
      assert "skill.md"[i + 2] == "ill.md"[i] && "SKILL.MD"[i + 2] == "ILL.MD"[i];
    }
    FoldsAs(name, a, b);
  }

  lemma {:induction false} EqualFoldLast(s: string, pattern: string)
    requires EqualFold(s, pattern) && pattern != "" && pattern[|pattern| - 1] == 'd'
    ensures s != "" && s[|s| - 1] in {'d', 'D'}
    decreases |pattern|
  {
    if |pattern| > 1 {
      if s != "" && Lower(s[0]) == pattern[0] && EqualFold(s[1..], pattern[1..]) {
        EqualFoldLast(s[1..], pattern[1..]);
      } else if |s| >= 2 && EqualFold(s[2..], pattern[1..]) {
        EqualFoldLast(s[2..], pattern[1..]);
      } else {
        EqualFoldLast(s[3..], pattern[1..]);
      }
    }
  }

  /** No spelling of SKILL.md is an excluded file name. */
  lemma SkillDocNotExcluded(name: string)
    requires IsSkillDoc(name)
    ensures !IsExcludedFileName(name)
  {
    EqualFoldLast(name, "skill.md");
  }

  // ---- paths in the tree ----

  function Find(entries: seq<Entry>, name: string): Option<Node> {
    if entries == [] then None
    else if entries[0].name == name then Some(entries[0].node)
    else Find(entries[1..], name)
  }

  /** The node at a path of names below a folder, links not followed. */
  function Lookup(node: Node, path: seq<string>): Option<Node>
    decreases |path|
  {
    if path == [] then Some(node)
    else if !node.Dir? then None
    else
      match Find(node.entries, path[0])
      case None => None
      case Some(child) => Lookup(child, path[1..])
  }

  /** Siblings have different names, at every level. */
  ghost predicate DistinctNames(node: Node) {
    node.Dir? ==> DistinctEntries(node.entries)
  }

  ghost predicate DistinctEntries(entries: seq<Entry>) {
    && (forall i, j :: 0 <= i < j < |entries| ==> entries[i].name != entries[j].name)
    && (forall e <- entries :: DistinctNames(e.node))
  }

  // ---- the hash walk ----

  /** A file the hash covers, with its content. */
  datatype Hashed = Hashed(path: seq<string>, data: string)

  function HashEntry(at: seq<string>, e: Entry): Option<seq<Hashed>>
    decreases e, 0
  {
    match e.node
    case Dir(_, _) => if IsExcludedDirName(e.name) then Some([]) else HashDir(at + [e.name], e.node)
    case File(readable, data) =>
      if IsExcludedFileName(e.name) then Some([])
      else if !readable then None
      else Some([Hashed(at + [e.name], data)])
    case _ => if e.name == META_FILE then None else Some([])
  }

  function HashDir(at: seq<string>, node: Node): Option<seq<Hashed>>
    requires node.Dir?
    decreases node, 1
  {
    if node.listable then HashEntries(at, node.entries) else None
  }

  /** What the hash walk collects below a folder; None when it fails. */
  function HashEntries(at: seq<string>, entries: seq<Entry>): Option<seq<Hashed>>
    decreases entries, 0
  {
    if entries == [] then Some([])
    else
      match HashEntry(at, entries[0])
      case None => None
      case Some(first) =>
        match HashEntries(at, entries[1..])
        case None => None
        case Some(rest) => Some(first + rest)
  }

  /** The same by name: readable, its own name not excluded, no folder on the way excluded. */
  ghost predicate Covered(root: Node, path: seq<string>, data: string) {
    && path != [] && Lookup(root, path) == Some(File(true, data))
    && !IsExcludedFileName(path[|path| - 1])
    && forall part <- path[..|path| - 1] :: !IsExcludedDirName(part)
  }

  // ---- the document walk ----

  datatype Visit = Nothing | Uncovered(path: seq<string>) | Failed

  /** isUnderDir on the resolved target: inside, unless its first name starts with two dots. */
  predicate UnderRoot(l: Location) {
    l.Inside? && (l.path == [] || !(|l.path[0]| >= 2 && l.path[0][..2] == ".."))
  }

  function VisitEntry(at: seq<string>, e: Entry): Visit
    decreases e, 0
  {
    var here := at + [e.name];
    match e.node
    case Link(target) =>
      if IsSkillDoc(e.name) then Uncovered(here)
      else if target.Folder? && !(target.resolved.Some? && UnderRoot(target.resolved.value)) then Uncovered(here)
      else Nothing
    case Dir(_, _) => VisitDir(here, e.node)
    case _ =>
      if IsSkillDoc(e.name) && exists part <- at :: IsExcludedDirName(part) then Uncovered(here) else Nothing
  }

  function VisitDir(at: seq<string>, node: Node): Visit
    requires node.Dir?
    decreases node, 1
  {
    if node.listable then VisitEntries(at, node.entries) else Failed
  }

  /** The first finding in walk order. */
  function VisitEntries(at: seq<string>, entries: seq<Entry>): Visit
    decreases entries, 0
  {
    if entries == [] then Nothing
    else
      var v := VisitEntry(at, entries[0]);
      if v.Nothing? then VisitEntries(at, entries[1..]) else v
  }

  // ---- what a loader finds ----

  /** A loader in some folder: inside the tree at a path, outside of it, or nowhere. */
  datatype Place = At(path: seq<string>) | Away | Nowhere

  function StepInto(root: Node, path: seq<string>, name: string): Place {
    match Lookup(root, path + [name])
    case Some(Dir(_, _)) => At(path + [name])
    case Some(Link(Folder(Some(Inside(q))))) => At(q)
    case Some(Link(Folder(_))) => Away
    case _ => Nowhere
  }

  /** Where a trail of folder names leads when folder links are followed. */
  function Follow(root: Node, trail: seq<string>): Place
    decreases |trail|
  {
    if trail == [] then At([])
    else
      match Follow(root, trail[..|trail| - 1])
      case At(path) => StepInto(root, path, trail[|trail| - 1])
      case other => other
  }

  /** Resolved link targets inside the tree are folders of the tree. */
  ghost predicate LinksSound(root: Node) {
    forall path: seq<string>, q: seq<string> :: Lookup(root, path) == Some(Link(Folder(Some(Inside(q))))) ==>
      Lookup(root, q).Some? && Lookup(root, q).value.Dir?
  }

  // ---- the hash walk covers exactly the covered files ----

  lemma {:induction false} HashEntriesHas(at: seq<string>, entries: seq<Entry>, name: string)
    requires HashEntries(at, entries).Some? && Find(entries, name).Some?
    ensures var r := HashEntry(at, Entry(name, Find(entries, name).value));
            r.Some? && forall h <- r.value :: h in HashEntries(at, entries).value
    decreases entries
  {
    hide IsExcludedDirName, IsExcludedFileName, IsSkillDoc;
    if entries[0].name == name {
      assert entries[0] == Entry(name, Find(entries, name).value);
    } else {
      HashEntriesHas(at, entries[1..], name);
    }
  }

  lemma {:induction false} HashFinds(at: seq<string>, node: Node, path: seq<string>, data: string)
    requires node.Dir? && HashDir(at, node).Some? && Covered(node, path, data)
    ensures Hashed(at + path, data) in HashDir(at, node).value
    decreases |path|
  {
    hide IsExcludedDirName, IsExcludedFileName, IsSkillDoc;
    var name, rest := path[0], path[1..];
    HashEntriesHas(at, node.entries, name);
    var child := Find(node.entries, name).value;
    assert Lookup(child, rest) == Lookup(node, path);
    if rest == [] {
      assert path == [name] && at + path == at + [name];
    } else {
      var way := path[..|path| - 1];
      assert way[0] == name && way[1..] == rest[..|rest| - 1];
      HashFinds(at + [name], child, rest, data);
      assert at + [name] + rest == at + path;
    }
  }

  lemma {:induction false} FindEntry(entries: seq<Entry>, e: Entry)
    requires DistinctEntries(entries) && e in entries
    ensures Find(entries, e.name) == Some(e.node)
    decreases entries
  {
    if entries[0] != e {
      var i :| 0 <= i < |entries| && entries[i] == e;
      assert e in entries[1..] && entries[0].name != e.name;
      assert forall k, l :: 0 <= k < l < |entries[1..]| ==> entries[1..][k].name != entries[1..][l].name;
      FindEntry(entries[1..], e);
    }
  }

  lemma {:induction false} HashEntriesFrom(at: seq<string>, entries: seq<Entry>, h: Hashed)
    requires HashEntries(at, entries).Some? && h in HashEntries(at, entries).value
    ensures exists e <- entries :: HashEntry(at, e).Some? && h in HashEntry(at, e).value
    decreases entries
  {
    hide IsExcludedDirName, IsExcludedFileName, IsSkillDoc;
    if h in HashEntry(at, entries[0]).value {
      assert entries[0] in entries;
    } else {
      HashEntriesFrom(at, entries[1..], h);
      var e :| e in entries[1..] && HashEntry(at, e).Some? && h in HashEntry(at, e).value;
      assert e in entries;
    }
  }

  lemma CoveredBelow(node: Node, e: Entry, rest: seq<string>, data: string)
    requires node.Dir? && Find(node.entries, e.name) == Some(e.node) && !IsExcludedDirName(e.name)
    requires Covered(e.node, rest, data)
    ensures Covered(node, [e.name] + rest, data)
  {}

  lemma {:induction false} HashOnly(at: seq<string>, node: Node, h: Hashed) returns (path: seq<string>)
    requires node.Dir? && DistinctNames(node) && HashDir(at, node).Some? && h in HashDir(at, node).value
    ensures h.path == at + path && Covered(node, path, h.data)
    decreases node
  {
    hide IsExcludedDirName, IsExcludedFileName, IsSkillDoc;
    HashEntriesFrom(at, node.entries, h);
    var e :| e in node.entries && HashEntry(at, e).Some? && h in HashEntry(at, e).value;
    FindEntry(node.entries, e);
    if e.node.Dir? {
      var rest := HashOnly(at + [e.name], e.node, h);
      path := [e.name] + rest;
      CoveredBelow(node, e, rest, h.data);
      assert at + [e.name] + rest == at + path;
    } else {
      path := [e.name];
      assert path[1..] == [] && Lookup(e.node, path[1..]) == Some(e.node);
    }
  }

  /** The hash takes a file in exactly when it is readable and no name on its path is excluded. */
  lemma {:induction false} HashExact(root: Node, path: seq<string>, data: string)
    requires root.Dir? && DistinctNames(root) && HashDir([], root).Some?
    ensures Hashed(path, data) in HashDir([], root).value <==> Covered(root, path, data)
  {
    if Covered(root, path, data) {
      HashFinds([], root, path, data);
      assert [] + path == path;
    }
    if Hashed(path, data) in HashDir([], root).value {
      var p := HashOnly([], root, Hashed(path, data));
      assert [] + p == p;
    }
  }

  // ---- the document walk sees every node ----

  lemma {:induction false} VisitedEntry(at: seq<string>, entries: seq<Entry>, name: string)
    requires VisitEntries(at, entries).Nothing? && Find(entries, name).Some?
    ensures VisitEntry(at, Entry(name, Find(entries, name).value)).Nothing?
    decreases entries
  {
    hide IsExcludedDirName, IsExcludedFileName, IsSkillDoc;
    if entries[0].name == name {
      assert entries[0] == Entry(name, Find(entries, name).value);
    } else {
      VisitedEntry(at, entries[1..], name);
    }
  }

  lemma {:induction false} Visited(at: seq<string>, node: Node, path: seq<string>)
    requires node.Dir? && VisitDir(at, node).Nothing? && path != [] && Lookup(node, path).Some?
    ensures VisitEntry(at + path[..|path| - 1], Entry(path[|path| - 1], Lookup(node, path).value)).Nothing?
    decreases |path|
  {
    hide IsExcludedDirName, IsExcludedFileName, IsSkillDoc;
    var name, rest := path[0], path[1..];
    VisitedEntry(at, node.entries, name);
    var child := Find(node.entries, name).value;
    if rest == [] {
      assert at + path[..0] == at && Lookup(child, rest) == Some(child);
    } else {
      Visited(at + [name], child, rest);
      assert at + [name] + rest[..|rest| - 1] == at + path[..|path| - 1];
    }
  }

  /** What the walk has no objection to: a node of the given name in the folder at a path. */
  ghost predicate Fine(at: seq<string>, name: string, node: Node) {
    match node
    case Link(target) =>
      && !SpellsDoc(name)
      && (match target
          case NotFolder => true
          case Folder(Some(Inside(q))) => q == [] || |q[0]| < 2 || q[0][0] != '.' || q[0][1] != '.'
          case Folder(_) => false)
    case Dir(listable, _) => listable
    case _ => SpellsDoc(name) ==> forall part <- at :: !IsExcludedDirName(part)
  }

  /** An entry at which the walk would stop is one that is not fine. */
  lemma {:induction false} FineIff(at: seq<string>, name: string, node: Node)
    requires !node.Dir?
    ensures Fine(at, name, node) <==> VisitEntry(at, Entry(name, node)).Nothing?
  {
    hide IsExcludedDirName, IsExcludedFileName, IsSkillDoc, SpellsDoc;
    SkillDocIff(name);
    if node.Link? && node.target.Folder? && node.target.resolved.Some? && node.target.resolved.value.Inside? {
      var q := node.target.resolved.value.path;
      assert q != [] && |q[0]| >= 2 ==> (q[0][..2] == ".." <==> q[0][0] == '.' && q[0][1] == '.');
    }
  }

  lemma {:induction false} Listable(at: seq<string>, name: string, node: Node)
    requires node.Dir? && VisitEntry(at, Entry(name, node)).Nothing?
    ensures Fine(at, name, node)
  {}

  lemma NotListable(at: seq<string>, name: string, node: Node)
    requires node.Dir? && !node.listable
    ensures !Fine(at, name, node)
  {}

  ghost predicate AllFine(root: Node) {
    forall path: seq<string> :: path != [] && Lookup(root, path).Some? ==>
      Fine(path[..|path| - 1], path[|path| - 1], Lookup(root, path).value)
  }

  lemma {:induction false} FirstFinding(at: seq<string>, entries: seq<Entry>)
    requires !VisitEntries(at, entries).Nothing?
    ensures exists e <- entries :: VisitEntry(at, e) == VisitEntries(at, entries)
    decreases entries
  {
    hide IsExcludedDirName, IsExcludedFileName, IsSkillDoc;
    if VisitEntry(at, entries[0]).Nothing? {
      FirstFinding(at, entries[1..]);
      var e :| e in entries[1..] && VisitEntry(at, e) == VisitEntries(at, entries[1..]);
      assert e in entries;
    } else {
      assert entries[0] in entries;
    }
  }

  /** The walk ends with what the first entry that is not in order gives. */
  lemma {:induction false} FirstDecides(at: seq<string>, before: seq<Entry>, e: Entry, after: seq<Entry>)
    requires (forall x <- before :: VisitEntry(at, x).Nothing?) && !VisitEntry(at, e).Nothing?
    ensures VisitEntries(at, before + [e] + after) == VisitEntry(at, e)
    decreases |before|
  {
    hide IsExcludedDirName, IsExcludedFileName, IsSkillDoc;
    var entries := before + [e] + after;
    if before != [] {
      assert entries[0] == before[0] && before[0] in before;
      assert entries[1..] == before[1..] + [e] + after;
      FirstDecides(at, before[1..], e, after);
    }
  }

  /** A finding points at a node the walk objects to. */
  lemma {:induction false} Finding(at: seq<string>, node: Node) returns (path: seq<string>)
    requires node.Dir? && DistinctNames(node) && !VisitDir(at, node).Nothing?
    ensures Lookup(node, path).Some?
    ensures if path == [] then !node.listable
            else !Fine(at + path[..|path| - 1], path[|path| - 1], Lookup(node, path).value)
    ensures VisitDir(at, node).Uncovered? ==> VisitDir(at, node).path == at + path && path != []
    decreases node
  {
    hide IsExcludedDirName, IsExcludedFileName, IsSkillDoc, Fine;
    if !node.listable {
      return [];
    }
    FirstFinding(at, node.entries);
    var e :| e in node.entries && VisitEntry(at, e) == VisitEntries(at, node.entries);
    FindEntry(node.entries, e);
    if e.node.Dir? {
      var rest := Finding(at + [e.name], e.node);
      path := [e.name] + rest;
      assert path[1..] == rest && at + [e.name] + rest == at + path;
      if rest != [] {
        assert at + path[..|path| - 1] == at + [e.name] + rest[..|rest| - 1] && path[|path| - 1] == rest[|rest| - 1];
      } else {
        NotListable(at, e.name, e.node);
        assert at + path[..0] == at;
      }
    } else {
      FineIff(at, e.name, e.node);
      path := [e.name];
      assert path[1..] == [] && Lookup(e.node, path[1..]) == Some(e.node) && at + path[..0] == at;
    }
  }

  lemma {:induction false} VisitedFine(root: Node, path: seq<string>)
    requires root.Dir? && VisitDir([], root).Nothing? && path != [] && Lookup(root, path).Some?
    ensures Fine(path[..|path| - 1], path[|path| - 1], Lookup(root, path).value)
  {
    hide IsExcludedDirName, IsExcludedFileName, IsSkillDoc, Fine;
    Visited([], root, path);
    assert [] + path[..|path| - 1] == path[..|path| - 1];
    var node := Lookup(root, path).value;
    if node.Dir? {
      Listable(path[..|path| - 1], path[|path| - 1], node);
    } else {
      FineIff(path[..|path| - 1], path[|path| - 1], node);
    }
  }

  lemma {:induction false} RootListable(root: Node)
    requires root.Dir? && VisitDir([], root).Nothing?
    ensures root.listable
  {}

  /**
   * The document walk reports nothing exactly when every folder can be listed,
   * every SKILL.md is a file outside excluded folders, and every folder link
   * stays inside; what it reports violates that.
   */
  lemma {:induction false} VisitExact(root: Node)
    requires root.Dir? && DistinctNames(root)
    ensures VisitDir([], root).Nothing? <==> root.listable && AllFine(root)
    ensures VisitDir([], root).Uncovered? ==>
              var p := VisitDir([], root).path;
              p != [] && Lookup(root, p).Some? && !Fine(p[..|p| - 1], p[|p| - 1], Lookup(root, p).value)
  {
    hide IsExcludedDirName, IsExcludedFileName, IsSkillDoc, Fine, VisitDir, DistinctNames, Lookup;
    if VisitDir([], root).Nothing? {
      forall path: seq<string> | path != [] && Lookup(root, path).Some?
        ensures Fine(path[..|path| - 1], path[|path| - 1], Lookup(root, path).value)
      {
        VisitedFine(root, path);
      }
      RootListable(root);
    } else {
      var p := Finding([], root);
      assert [] + p == p;
      if p != [] {
        assert [] + p[..|p| - 1] == p[..|p| - 1];
      }
    }
  }

  // ---- coverage ----

  lemma {:induction false} FollowStays(root: Node, trail: seq<string>)
    requires root.Dir? && LinksSound(root) && VisitDir([], root).Nothing?
    ensures !Follow(root, trail).Away?
    ensures Follow(root, trail).At? ==>
              var there := Lookup(root, Follow(root, trail).path); there.Some? && there.value.Dir?
    decreases |trail|
  {
    hide IsExcludedDirName, IsExcludedFileName, IsSkillDoc;
    if trail != [] {
      var front, name := trail[..|trail| - 1], trail[|trail| - 1];
      FollowStays(root, front);
      if Follow(root, front).At? {
        var p := Follow(root, front).path + [name];
        if Lookup(root, p).Some? {
          Visited([], root, p);
        }
      }
    }
  }

  /**
   * When the document walk reports nothing and the bundle can be hashed, a
   * loader that lists folders and follows folder links never leaves the skill,
   * and every SKILL.md it meets, in any letter case, is in the hash unless it
   * is a special file, which neither walk looks at.
   */
  lemma {:induction false} LoaderSeesOnlyHashed(root: Node, trail: seq<string>, name: string)
    requires root.Dir? && LinksSound(root)
    requires VisitDir([], root).Nothing? && HashDir([], root).Some?
    ensures !Follow(root, trail).Away?
    ensures Follow(root, trail).At? && SpellsDoc(name) ==>
              var doc := Follow(root, trail).path + [name];
              match Lookup(root, doc)
              case Some(File(_, data)) => Hashed(doc, data) in HashDir([], root).value
              case Some(Link(_)) => false
              case _ => true
  {
    hide IsExcludedDirName, IsExcludedFileName, IsSkillDoc;
    FollowStays(root, trail);
    SkillDocIff(name);
    if Follow(root, trail).At? && IsSkillDoc(name) {
      var doc := Follow(root, trail).path + [name];
      if Lookup(root, doc).Some? {
        Visited([], root, doc);
        assert doc[..|doc| - 1] == Follow(root, trail).path && [] + doc[..|doc| - 1] == Follow(root, trail).path;
        SkillDocNotExcluded(name);
        if Lookup(root, doc).value.File? {
          HashReads([], root, doc);
          HashFinds([], root, doc, Lookup(root, doc).value.data);
          assert [] + doc == doc;
        }
      }
    }
  }

  /** A hash that succeeds has read every file outside excluded folders. */
  lemma {:induction false} HashReads(at: seq<string>, node: Node, path: seq<string>)
    requires node.Dir? && HashDir(at, node).Some? && path != []
    requires Lookup(node, path).Some? && Lookup(node, path).value.File?
    requires !IsExcludedFileName(path[|path| - 1]) && forall part <- path[..|path| - 1] :: !IsExcludedDirName(part)
    ensures Lookup(node, path).value.readable
    decreases |path|
  {
    hide IsExcludedDirName, IsExcludedFileName, IsSkillDoc;
    var name, rest := path[0], path[1..];
    HashEntriesHas(at, node.entries, name);
    var child := Find(node.entries, name).value;
    assert Lookup(child, rest) == Lookup(node, path);
    if rest != [] {
      var way := path[..|path| - 1];
      assert way[0] == name && way[1..] == rest[..|rest| - 1];
      HashReads(at + [name], child, rest);
    }
  }

  /** What does not stop the hash: a node of the given name outside excluded folders. */
  predicate Hashable(name: string, node: Node) {
    match node
    case File(readable, _) => readable || IsExcludedFileName(name)
    case Dir(listable, _) => listable || IsExcludedDirName(name)
    case _ => name != "omac.yaml"
  }

  /** No folder on the way is excluded. */
  predicate Walked(path: seq<string>) {
    path != [] && forall part <- path[..|path| - 1] :: !IsExcludedDirName(part)
  }

  lemma WalkedBelow(name: string, rest: seq<string>)
    requires rest != []
    ensures Walked([name] + rest) <==> !IsExcludedDirName(name) && Walked(rest)
  {
    hide IsExcludedDirName;
    var path := [name] + rest;
    assert path[..|path| - 1] == [name] + rest[..|rest| - 1];
  }

  lemma {:induction false} HashedFine(at: seq<string>, node: Node, path: seq<string>)
    requires node.Dir? && HashDir(at, node).Some? && Lookup(node, path).Some? && Walked(path)
    ensures Hashable(path[|path| - 1], Lookup(node, path).value)
    decreases |path|
  {
    hide IsExcludedDirName, IsExcludedFileName, Walked;
    WalkedSome(path);
    var name, rest := path[0], path[1..];
    HashEntriesHas(at, node.entries, name);
    var child := Find(node.entries, name).value;
    assert Lookup(child, rest) == Lookup(node, path) && path == [name] + rest;
    if rest != [] {
      WalkedBelow(name, rest);
      HashedFine(at + [name], child, rest);
    }
  }

  lemma WalkedSome(path: seq<string>)
    requires Walked(path)
    ensures path != []
  {}

  lemma WalkedOne(name: string)
    ensures Walked([name])
  {}

  lemma {:induction false} FirstUnhashed(at: seq<string>, entries: seq<Entry>)
    requires HashEntries(at, entries).None?
    ensures exists e <- entries :: HashEntry(at, e).None?
    decreases entries
  {
    hide IsExcludedDirName, IsExcludedFileName;
    if HashEntry(at, entries[0]).Some? {
      FirstUnhashed(at, entries[1..]);
      var e :| e in entries[1..] && HashEntry(at, e).None?;
      assert e in entries;
    } else {
      assert entries[0] in entries;
    }
  }

  lemma {:induction false} Unhashed(at: seq<string>, node: Node) returns (path: seq<string>)
    requires node.Dir? && DistinctNames(node) && HashDir(at, node).None?
    ensures if path == [] then !node.listable
            else Walked(path) && Lookup(node, path).Some? && !Hashable(path[|path| - 1], Lookup(node, path).value)
    decreases node
  {
    hide IsExcludedDirName, IsExcludedFileName, Walked;
    if !node.listable {
      return [];
    }
    FirstUnhashed(at, node.entries);
    var e :| e in node.entries && HashEntry(at, e).None?;
    FindEntry(node.entries, e);
    path := [e.name];
    WalkedOne(e.name);
    assert path[1..] == [] && Lookup(e.node, path[1..]) == Some(e.node);
    if e.node.Dir? {
      var rest := Unhashed(at + [e.name], e.node);
      if rest != [] {
        path := [e.name] + rest;
        WalkedBelow(e.name, rest);
        assert path[1..] == rest;
      }
    }
  }

  /**
   * The hash succeeds exactly when every folder outside excluded ones can be
   * listed, every file there that is not excluded can be read, and nothing there
   * called omac.yaml is a link or a special file.
   */
  lemma {:induction false} HashSucceedsIff(root: Node)
    requires root.Dir? && DistinctNames(root)
    ensures HashDir([], root).Some? <==>
            root.listable && forall path: seq<string> :: Walked(path) && Lookup(root, path).Some? ==>
              Hashable(path[|path| - 1], Lookup(root, path).value)
  {
    hide Walked, Hashable;
    if HashDir([], root).Some? {
      forall path: seq<string> | Walked(path) && Lookup(root, path).Some?
        ensures path != [] && Hashable(path[|path| - 1], Lookup(root, path).value)
      {
        WalkedSome(path);
        HashedFine([], root, path);
      }
    } else {
      var path := Unhashed([], root);
    }
  }

  /** The excluded file names: three names, and a stem with one of four endings. */
  lemma ExcludedFileIff(name: string)
    ensures IsExcludedFileName(name) <==>
            || name == ".DS_Store" || name == "Thumbs.db" || name == ".gitignore.swp"
            || exists stem: string :: stem != "" &&
                 (name == stem + ".pyc" || name == stem + ".pyo" || name == stem + ".swp" || name == stem + "~")
  {
    EndsIff(name, ".pyc");
    EndsIff(name, ".pyo");
    EndsIff(name, ".swp");
    EndsIff(name, "~");
    hide HasSuffix;
  }

  lemma EndsIff(name: string, suffix: string)
    ensures HasSuffix(name, suffix) && name != suffix <==> exists stem: string :: stem != "" && name == stem + suffix
  {
    if HasSuffix(name, suffix) && name != suffix {
      assert name == name[..|name| - |suffix|] + suffix;
    }
  }

  /** A special file is hashed by neither walk, so a SKILL.md of that kind is the one exception. */
  lemma SpecialDocEscapes(name: string)
    requires name != META_FILE
    ensures var root := Dir(true, [Entry(name, Special)]);
            VisitDir([], root).Nothing? && HashDir([], root) == Some([]) && Lookup(root, [name]) == Some(Special)
  {
    hide IsSkillDoc, EqualFold;
    var es := [Entry(name, Special)];
    var root := Dir(true, es);
    assert es[1..] == [] && [name][1..] == [];
    assert Find(es, name) == Some(Special);
    assert Lookup(root, [name]) == Lookup(Special, [name][1..]);
    assert VisitEntry([], es[0]).Nothing? && VisitEntries([], es).Nothing?;
    assert HashEntry([], es[0]) == Some([]) && HashEntries([], es[1..]) == Some([]);
    var none: seq<Hashed> := [];
    assert none + none == none;
  }
}
