/**
 * resolveBelow (internal/cli/skill_content.go): resolving the symbolic links in
 * a path that lie below a base, by splicing link targets back into the work
 * list, against a resolver that takes one step at a time as a kernel does.
 */
module MaskResolve {
  import opened Wrappers

  /** A path component: "..", "." (or an empty one), or a name. */
  datatype Part = Up | Here | Name(text: string)

  /** An absolute path; clean paths hold names only. */
  type Path = seq<Part>

  datatype Target = Target(abs: bool, parts: seq<Part>)

  /** What Lstat answers; a link whose Readlink fails has no target. */
  datatype Stat = Absent | Plain | Link(target: Option<Target>)

  type Files = Path -> Stat

  const MAX_HOPS: nat := 40

  // ---- path/filepath ----

  predicate Clean(p: Path) {
    forall i :: 0 <= i < |p| ==> p[i].Name?
  }

  function Parent(p: Path): Path {
    if p == [] then [] else p[..|p| - 1]
  }

  /** filepath.Join: ".." takes back the component before it, whatever that is. */
  function Join(p: Path, parts: seq<Part>): Path
    decreases |parts|
  {
    if parts == [] then p
    else match parts[0]
      case Here => Join(p, parts[1..])
      case Up => Join(Parent(p), parts[1..])
      case Name(_) => Join(p + [parts[0]], parts[1..])
  }

  function Common(a: Path, b: Path): (n: nat)
    ensures n <= |a| && n <= |b| && a[..n] == b[..n]
  {
    if a == [] || b == [] || a[0] != b[0] then 0 else
      var n := Common(a[1..], b[1..]);
      FirstAndMore(a, n);
      FirstAndMore(b, n);
      n + 1
  }

  lemma FirstAndMore(p: Path, n: nat)
    requires n < |p|
    ensures p[..n + 1] == [p[0]] + p[1..][..n]
  {}

  /** filepath.Rel, split at the separators. */
  function Rel(base: Path, p: Path): (r: seq<Part>)
    ensures r != []
  {
    var k := Common(base, p);
    var r := seq(|base| - k, _ => Up) + p[k..];
    if r == [] then [Here] else r
  }

  predicate Dots(c: Part) {
    c.Name? && |c.text| >= 2 && c.text[..2] == ".."
  }

  predicate NoDots(parts: seq<Part>) {
    forall i :: 0 <= i < |parts| ==> !Dots(parts[i])
  }

  /** A name directly below base that isUnderDir takes for a way out. */
  predicate DottedAt(base: Path, p: Path) {
    base < p && Dots(p[|base|])
  }

  /** isUnderDir: looks only at how the relative path starts. */
  predicate IsUnder(root: Path, p: Path) {
    var r := Rel(root, p);
    r == [Here] || (r[0] != Up && !Dots(r[0]))
  }

  // ---- the loop ----

  /** links: the hops left when the rest was kept as written. */
  datatype Outcome = Failed | Below(path: Path) | Outside(path: Path, links: nat)

  function Resolve(fs: Files, base: Path, cur: Path, rest: seq<Part>, links: nat): Outcome
    decreases links, |rest|, 1
  {
    if rest == [] then Below(cur) else AfterRound(fs, base, cur, rest[0], rest[1..], links)
  }

  /** One round of the loop, on a component taken off the work list. */
  function AfterRound(fs: Files, base: Path, cur: Path, name: Part, rest: seq<Part>, links: nat): Outcome
    decreases links, |rest| + 1, 0
  {
    if name == Here then Resolve(fs, base, cur, rest, links)
    else
      var next := Join(cur, [name]);
      if !IsUnder(base, next) then Outside(Join(next, rest), links)
      else match fs(next)
        case Absent => Failed
        case Plain => Resolve(fs, base, next, rest, links)
        case Link(t) =>
          if links == 0 || t.None? then Failed else
            var target := Join(Start(cur, t.value), t.value.parts);
            if !IsUnder(base, target) then Outside(Join(target, rest), links - 1)
            else Resolve(fs, base, base, Splice(base, target, rest), links - 1)
  }

  /** The target takes the place of the link in the work list. */
  function Splice(base: Path, target: Path, rest: seq<Part>): seq<Part> {
    Rel(base, target) + rest
  }

  /** Where a link found in cur starts from. */
  function Start(cur: Path, t: Target): Path {
    if t.abs then [] else cur
  }

  function ResolvePath(fs: Files, base: Path, path: Path): Outcome {
    Resolve(fs, base, base, Rel(base, path), MAX_HOPS)
  }

  /** The answer the code gives for an outcome: it does not say which kind of ok it is. */
  function Answer(o: Outcome): Option<Path> {
    match o
    case Failed => None
    case Below(p) => Some(p)
    case Outside(p, _) => Some(p)
  }

  method ResolveBelow(fs: Files, base: Path, path: Path) returns (ans: Path, ok: bool)
    ensures ok <==> Answer(ResolvePath(fs, base, path)).Some?
    ensures ans == if ok then Answer(ResolvePath(fs, base, path)).value else []
  {
    hide IsUnder, Join, Rel, Start, Splice, Resolve;
    var cur, rest, hops := base, Rel(base, path), 0;
    ghost var o := ResolvePath(fs, base, path);
    while rest != []
      invariant hops <= MAX_HOPS
      invariant Resolve(fs, base, cur, rest, MAX_HOPS - hops) == o
      decreases MAX_HOPS - hops, |rest|
    {
      OneRound(fs, base, cur, rest, MAX_HOPS - hops);
      var name := rest[0];
      rest := rest[1..];
      if name == Here {
        continue;
      }
      var next := Join(cur, [name]);
      if !IsUnder(base, next) {
        return Join(next, rest), true;
      }
      var fi := fs(next);
      if fi.Absent? {
        return [], false;
      }
      if fi.Plain? {
        cur := next;
        continue;
      }
      hops := hops + 1;
      if hops > MAX_HOPS || fi.target.None? {
        return [], false;
      }
      var target := Join(Start(cur, fi.target.value), fi.target.value.parts);
      if !IsUnder(base, target) {
        return Join(target, rest), true;
      }
      cur := base;
      rest := Splice(base, target, rest);
    }
    NoRound(fs, base, cur, MAX_HOPS - hops);
    return cur, true;
  }

  lemma {:induction false} NoRound(fs: Files, base: Path, cur: Path, links: nat)
    ensures Resolve(fs, base, cur, [], links) == Below(cur)
  {}

  lemma {:induction false} OneRound(fs: Files, base: Path, cur: Path, rest: seq<Part>, links: nat)
    requires rest != []
    ensures Resolve(fs, base, cur, rest, links) == AfterRound(fs, base, cur, rest[0], rest[1..], links)
  {}

  // ---- the step-by-step resolver ----

  /** The components that mean something. */
  function Strip(parts: seq<Part>): (r: seq<Part>)
    ensures Here !in r
  {
    if parts == [] then []
    else if parts[0] == Here then Strip(parts[1..])
    else [parts[0]] + Strip(parts[1..])
  }

  datatype Place = At(path: Path) | Nowhere | TooManyLinks

  /**
   * One component at a time: ".." leaves the folder the walk is really in, and a
   * link is followed from there. Only links strictly below base count as links.
   */
  function Walk(fs: Files, base: Path, cur: Path, work: seq<Part>, links: nat): Place
    decreases links, |work|
  {
    if work == [] then At(cur)
    else match work[0]
      case Here => Walk(fs, base, cur, work[1..], links)
      case Up => Walk(fs, base, Parent(cur), work[1..], links)
      case Name(_) =>
        var next := cur + [work[0]];
        if !(base < next) then Walk(fs, base, next, work[1..], links)
        else match fs(next)
          case Absent => Nowhere
          case Plain => Walk(fs, base, next, work[1..], links)
          case Link(t) =>
            if links == 0 then TooManyLinks
            else if t.None? then Nowhere
            else Walk(fs, base, Start(cur, t.value), Strip(t.value.parts) + work[1..], links - 1)
  }

  function WalkPath(fs: Files, base: Path, path: Path, links: nat): Place {
    Walk(fs, base, [], path, links)
  }

  /** No link below base on p, and every folder there. */
  predicate Settled(fs: Files, base: Path, p: Path) {
    forall i :: 0 <= i <= |p| && base < p[..i] ==> fs(p[..i]) == Plain
  }

  /** ".." only before the first name. */
  predicate Tidy(parts: seq<Part>) {
    forall i, j :: 0 <= i < j < |Strip(parts)| && Strip(parts)[i].Name? ==> Strip(parts)[j].Name?
  }

  ghost predicate TidyLinks(fs: Files, base: Path) {
    forall p: Path | base < p && fs(p).Link? && fs(p).target.Some? :: Tidy(fs(p).target.value.parts)
  }

  /** A link at a place below base, in a folder reached without links, leads to a folder that base lies below. */
  predicate Climbs(fs: Files, base: Path, p: Path) {
    && base < p && Clean(p) && !DottedAt(base, p) && Settled(fs, base, Parent(p))
    && fs(p).Link? && fs(p).target.Some?
    && Join(Start(Parent(p), fs(p).target.value), fs(p).target.value.parts) < base
  }

  ghost predicate NoAncestorLinks(fs: Files, base: Path) {
    forall p: Path :: !Climbs(fs, base, p)
  }

  /** A link below base that leads somewhere, behind a name directly below base that begins with "..". */
  predicate DottedLink(fs: Files, base: Path, p: Path) {
    && DottedAt(base, p) && Clean(p) && Settled(fs, base, Parent(p))
    && fs(p).Link? && WalkPath(fs, base, p, MAX_HOPS).At?
  }

  ghost predicate NoDottedLinks(fs: Files, base: Path) {
    forall p: Path :: !DottedLink(fs, base, p)
  }

  // ---- lemmas on paths ----

  lemma {:induction false} CommonIsAll(base: Path, p: Path)
    ensures Common(base, p) == |base| <==> base <= p
  {
    if base != [] && p != [] && base[0] == p[0] {
      CommonIsAll(base[1..], p[1..]);
      assert base == [base[0]] + base[1..] && p == [p[0]] + p[1..];
    }
  }

  /** What isUnderDir really tests, on clean paths. */
  lemma UnderIff(base: Path, p: Path)
    requires Clean(p)
    ensures IsUnder(base, p) <==> base <= p && !DottedAt(base, p)
    ensures base <= p ==> Rel(base, p) == if base == p then [Here] else p[|base|..]
  {
    CommonIsAll(base, p);
    var k := Common(base, p);
    if k == |base| {
      assert seq(|base| - k, _ => Up) == [];
      assert Rel(base, p) == if p[k..] == [] then [Here] else p[k..];
    } else {
      assert Rel(base, p)[0] == Up;
    }
  }

  lemma {:induction false} JoinStrip(p: Path, parts: seq<Part>)
    ensures Join(p, Strip(parts)) == Join(p, parts)
    decreases |parts|
  {
    if parts != [] {
      var q := match parts[0] case Here => p case Up => Parent(p) case Name(_) => p + [parts[0]];
      JoinStrip(q, parts[1..]);
      if parts[0] != Here {
        assert Strip(parts)[1..] == Strip(parts[1..]);
      }
    }
  }

  lemma {:induction false} JoinNames(p: Path, names: seq<Part>)
    requires Clean(names)
    ensures Join(p, names) == p + names
    decreases |names|
  {
    if names != [] {
      JoinNames(p + [names[0]], names[1..]);
      assert p + [names[0]] + names[1..] == p + names;
    }
  }

  lemma {:induction false} JoinClean(p: Path, parts: seq<Part>)
    requires Clean(p)
    ensures Clean(Join(p, parts))
    ensures NoDots(p) && NoDots(parts) ==> NoDots(Join(p, parts))
    decreases |parts|
  {
    if parts != [] {
      var q := match parts[0] case Here => p case Up => Parent(p) case Name(_) => p + [parts[0]];
      JoinClean(q, parts[1..]);
    }
  }

  lemma {:induction false} JoinUps(p: Path, n: nat, rest: seq<Part>)
    requires n <= |p|
    ensures Join(p, seq(n, _ => Up) + rest) == Join(p[..|p| - n], rest)
    decreases n
  {
    if n == 0 {
      assert seq(n, _ => Up) + rest == rest && p[..|p|] == p;
    } else {
      assert (seq(n, _ => Up) + rest)[1..] == seq(n - 1, _ => Up) + rest;
      JoinUps(Parent(p), n - 1, rest);
      assert Parent(p)[..|p| - n] == p[..|p| - n];
    }
  }

  /** filepath.Join undoes filepath.Rel. */
  lemma {:induction false} JoinRel(base: Path, p: Path)
    requires Clean(p)
    ensures Join(base, Rel(base, p)) == p
  {
    hide Join;
    var k := Common(base, p);
    JoinUps(base, |base| - k, p[k..]);
    JoinNames(p[..k], p[k..]);
    assert p[..k] + p[k..] == p;
    if seq(|base| - k, _ => Up) + p[k..] == [] {
      JoinHere(base);
      assert |base| - k == 0 && |p| == k;
    }
  }

  lemma {:induction false} JoinHere(p: Path)
    ensures Join(p, [Here]) == p && Join(p, []) == p
  {}

  // ---- lemmas on the reference ----

  lemma SettledAt(fs: Files, base: Path, p: Path, i: nat)
    requires Clean(p) && Settled(fs, base, p) && i < |p|
    ensures p[i].Name? && (base < p[..i + 1] ==> fs(p[..i + 1]) == Plain)
  {}

  /** A settled path is walked as it is written. */
  lemma {:induction false} WalkAlong(fs: Files, base: Path, p: Path, i: nat, rest: seq<Part>, links: nat)
    requires Clean(p) && Settled(fs, base, p) && i <= |p|
    ensures Walk(fs, base, p[..i], p[i..] + rest, links) == Walk(fs, base, p, rest, links)
    decreases |p| - i
  {
    hide Settled, Clean;
    if i == |p| {
      assert p[..i] == p && p[i..] + rest == rest;
    } else {
      SettledAt(fs, base, p, i);
      var work := p[i..] + rest;
      assert p[..i] + [work[0]] == p[..i + 1] && work[1..] == p[i + 1..] + rest;
      WalkAlong(fs, base, p, i + 1, rest, links);
    }
  }

  lemma SettledParent(fs: Files, base: Path, p: Path)
    requires Settled(fs, base, p)
    ensures Settled(fs, base, Parent(p))
  {
    forall i | 0 <= i <= |Parent(p)|
      ensures Parent(p)[..i] == p[..i]
    {}
  }

  lemma SettledSnoc(fs: Files, base: Path, p: Path, c: Part)
    requires Settled(fs, base, p) && (base < p + [c] ==> fs(p + [c]) == Plain)
    ensures Settled(fs, base, p + [c])
  {
    var q := p + [c];
    forall i | 0 <= i <= |q| && base < q[..i]
      ensures fs(q[..i]) == Plain
    {
      assert i <= |p| ==> q[..i] == p[..i];
      assert i == |q| ==> q[..i] == q;
    }
  }

  /** Nothing that base does not lie above needs settling. */
  lemma SettledOutside(fs: Files, base: Path, p: Path)
    requires !(base < p)
    ensures Settled(fs, base, p)
  {}

  /** ".." first, then names. */
  predicate UpsFirst(parts: seq<Part>) {
    Here !in parts && forall i, j :: 0 <= i < j < |parts| && parts[i].Name? ==> parts[j].Name?
  }

  lemma {:induction false} WalkNames(fs: Files, base: Path, p: Path, names: seq<Part>, rest: seq<Part>, links: nat)
    requires Clean(p) && Settled(fs, base, p) && Clean(names)
    ensures Walk(fs, base, p, names + rest, links) == Walk(fs, base, [], Join(p, names) + rest, links)
  {
    hide Walk, Settled, Join, Clean;
    JoinNames(p, names);
    WalkAlong(fs, base, p, 0, names + rest, links);
    assert p + (names + rest) == p + names + rest;
    assert p[..0] == [] && p[0..] == p;
  }

  /** From a settled folder, such a link target leads where joining the names says. */
  lemma {:induction false} WalkJoin(fs: Files, base: Path, p: Path, parts: seq<Part>, rest: seq<Part>, links: nat)
    requires Clean(p) && Settled(fs, base, p) && UpsFirst(parts)
    ensures Walk(fs, base, p, parts + rest, links) == Walk(fs, base, [], Join(p, parts) + rest, links)
    decreases |parts|
  {
    hide Settled;
    if parts == [] || parts[0].Name? {
      WalkNames(fs, base, p, parts, rest, links);
    } else {
      SettledParent(fs, base, p);
      WalkJoin(fs, base, Parent(p), parts[1..], rest, links);
      assert (parts + rest)[1..] == parts[1..] + rest;
    }
  }

  /** The reference ends in a settled place. */
  lemma {:induction false} WalkSettles(fs: Files, base: Path, cur: Path, work: seq<Part>, links: nat)
    requires Settled(fs, base, cur) && Walk(fs, base, cur, work, links).At?
    ensures Settled(fs, base, Walk(fs, base, cur, work, links).path)
    decreases links, |work|
  {
    if work != [] {
      match work[0]
      case Here => WalkSettles(fs, base, cur, work[1..], links);
      case Up =>
        SettledParent(fs, base, cur);
        WalkSettles(fs, base, Parent(cur), work[1..], links);
      case Name(_) =>
        var next := cur + [work[0]];
        if base < next && fs(next).Link? {
          var t := fs(next).target.value;
          SettledOutside(fs, base, []);
          WalkSettles(fs, base, Start(cur, t), Strip(t.parts) + work[1..], links - 1);
        } else {
          SettledSnoc(fs, base, cur, work[0]);
          WalkSettles(fs, base, next, work[1..], links);
        }
    }
  }

  /** More hops change an answer only where there were too few. */
  lemma {:induction false} WalkMoreLinks(fs: Files, base: Path, cur: Path, work: seq<Part>, links: nat, more: nat)
    requires !Walk(fs, base, cur, work, links).TooManyLinks? && links <= more
    ensures Walk(fs, base, cur, work, more) == Walk(fs, base, cur, work, links)
    decreases links, |work|
  {
    if work != [] {
      var next := match work[0] case Here => cur case Up => Parent(cur) case Name(_) => cur + [work[0]];
      if work[0].Name? && base < next && fs(next).Link? {
        if fs(next).target.Some? {
          var t := fs(next).target.value;
          WalkMoreLinks(fs, base, Start(cur, t), Strip(t.parts) + work[1..], links - 1, more - 1);
        }
      } else if !(work[0].Name? && base < next && fs(next).Absent?) {
        WalkMoreLinks(fs, base, next, work[1..], links, more);
      }
    }
  }

  /** The beginning of a walk that ends somewhere ends somewhere. */
  lemma {:induction false} WalkPrefix(fs: Files, base: Path, cur: Path, work: seq<Part>, rest: seq<Part>, links: nat)
    requires Walk(fs, base, cur, work + rest, links).At?
    ensures Walk(fs, base, cur, work, links).At?
    decreases links, |work|
  {
    if work != [] {
      assert (work + rest)[0] == work[0] && (work + rest)[1..] == work[1..] + rest;
      var next := match work[0] case Here => cur case Up => Parent(cur) case Name(_) => cur + [work[0]];
      if work[0].Name? && base < next && fs(next).Link? {
        var t := fs(next).target.value;
        assert Strip(t.parts) + (work[1..] + rest) == Strip(t.parts) + work[1..] + rest;
        WalkPrefix(fs, base, Start(cur, t), Strip(t.parts) + work[1..], rest, links - 1);
      } else {
        WalkPrefix(fs, base, next, work[1..], rest, links);
      }
    }
  }

  // ---- the loop against the reference ----

  /**
   * The outcome denotes the place the reference finds from cur; where it was kept
   * as written, with any more hops as well.
   */
  predicate Faithful(fs: Files, base: Path, o: Outcome, cur: Path, work: seq<Part>, links: nat, more: nat) {
    match o
    case Failed => !Walk(fs, base, cur, work, links).At?
    case Below(p) => Walk(fs, base, cur, work, links) == At(p) && base <= p && Clean(p)
    case Outside(q, left) =>
      left <= links && Walk(fs, base, cur, work, links + more) == WalkPath(fs, base, q, left + more) && Clean(q)
  }

  /** An answer outside base that lies below base anyway took a climbing link or has a dotted name there. */
  ghost predicate Excused(fs: Files, base: Path, o: Outcome) {
    o.Outside? && base <= o.path ==> !NoAncestorLinks(fs, base) || DottedAt(base, o.path)
  }

  /** The loop keeps the meaning of the path. */
  lemma {:induction false} ResolveAgrees(fs: Files, base: Path, cur: Path, rest: seq<Part>, links: nat, more: nat)
    requires TidyLinks(fs, base) && Clean(cur) && !DottedAt(base, cur) && Clean(rest)
    requires base <= cur && Settled(fs, base, cur)
    ensures var o := Resolve(fs, base, cur, rest, links);
            Faithful(fs, base, o, cur, rest, links, more) && Excused(fs, base, o)
    decreases links, |rest|, 1
  {
    hide IsUnder, Settled, TidyLinks, NoAncestorLinks, Rel, Dots;
    if rest != [] {
      var next := cur + [rest[0]];
      assert Join(cur, [rest[0]]) == next;
      UnderIff(base, next);
      if DottedAt(base, next) {
        DottedLeaves(fs, base, cur, rest, links, more);
      } else if fs(next).Plain? {
        SettledSnoc(fs, base, cur, rest[0]);
        ResolveAgrees(fs, base, next, rest[1..], links, more);
      } else if fs(next).Link? && links > 0 && fs(next).target.Some? {
        FollowAgrees(fs, base, cur, next, rest[1..], links, more);
      }
    }
  }

  /** A dotted name directly below base ends the loop, with everything kept as it is written. */
  lemma DottedLeaves(fs: Files, base: Path, cur: Path, rest: seq<Part>, links: nat, more: nat)
    requires Clean(cur) && Clean(rest) && rest != [] && Settled(fs, base, cur) && DottedAt(base, cur + [rest[0]])
    ensures Resolve(fs, base, cur, rest, links) == Outside(cur + rest, links) && DottedAt(base, cur + rest)
    ensures Walk(fs, base, cur, rest, links + more) == WalkPath(fs, base, cur + rest, links + more)
  {
    hide IsUnder, Settled, Rel, Dots, Resolve, Walk, Join;
    var next := cur + [rest[0]];
    OneRound(fs, base, cur, rest, links);
    JoinNames(cur, [rest[0]]);
    UnderIff(base, next);
    JoinNames(next, rest[1..]);
    assert next + rest[1..] == cur + rest;
    WalkAlong(fs, base, cur, 0, rest, links + more);
    assert cur[..0] == [] && cur[0..] == cur;
  }

  /** Splicing in a link target, or leaving with it. */
  lemma {:induction false} FollowAgrees(
      fs: Files, base: Path, cur: Path, next: Path, rest: seq<Part>, links: nat, more: nat)
    requires TidyLinks(fs, base) && Clean(cur) && Clean(rest) && links > 0
    requires base <= cur && Settled(fs, base, cur) && next != [] && cur == Parent(next)
    requires Clean(next) && !DottedAt(base, next) && fs(next).Link? && fs(next).target.Some?
    ensures var t := fs(next).target.value;
            var target := Join(Start(cur, t), t.parts);
            var o := if !IsUnder(base, target) then Outside(Join(target, rest), links - 1)
                     else Resolve(fs, base, base, Rel(base, target) + rest, links - 1);
            Faithful(fs, base, o, Start(cur, t), Strip(t.parts) + rest, links - 1, more) && Excused(fs, base, o)
    decreases links, 0
  {
    hide Walk, Resolve, IsUnder, Rel, Settled, Strip, Dots, Join;
    var t := fs(next).target.value;
    var target := Join(Start(cur, t), t.parts);
    TargetAgrees(fs, base, cur, t, rest, links - 1);
    TargetAgrees(fs, base, cur, t, rest, links - 1 + more);
    UnderIff(base, target);
    if base <= target && !DottedAt(base, target) {
      var tail := target[|base|..];
      ResolveAgrees(fs, base, base, tail + rest, links - 1, more);
      assert base == target ==> tail + rest == rest;
      HereFirst(fs, base, base, rest, links - 1);
    } else {
      JoinNames(target, rest);
      assert target < base ==> Climbs(fs, base, next);
      assert DottedAt(base, target) ==> (target + rest)[|base|] == target[|base|];
    }
  }

  lemma {:induction false} HereFirst(fs: Files, base: Path, cur: Path, rest: seq<Part>, links: nat)
    ensures Resolve(fs, base, cur, [Here] + rest, links) == Resolve(fs, base, cur, rest, links)
  {}

  /** Where a followed link leads, for the reference and for the loop. */
  lemma {:induction false} TargetAgrees(fs: Files, base: Path, cur: Path, t: Target, rest: seq<Part>, links: nat)
    requires Tidy(t.parts) && Clean(cur) && base <= cur && Settled(fs, base, cur)
    ensures var target := Join(Start(cur, t), t.parts);
            var place := Walk(fs, base, Start(cur, t), Strip(t.parts) + rest, links);
            && Clean(target)
            && place == Walk(fs, base, [], target + rest, links)
            && (base <= target ==> place == Walk(fs, base, base, target[|base|..] + rest, links))
    ensures Settled(fs, base, base)
  {
    hide Walk, Settled, Strip, Dots, Join;
    var start := Start(cur, t);
    var target := Join(start, t.parts);
    SettledOutside(fs, base, []);
    SettledOutside(fs, base, base);
    JoinClean(start, t.parts);
    JoinStrip(start, t.parts);
    WalkJoin(fs, base, start, Strip(t.parts), rest, links);
    if base <= target {
      WalkAlong(fs, base, base, 0, target[|base|..] + rest, links);
      assert base + (target[|base|..] + rest) == target + rest;
      assert base[..0] == [] && base[0..] == base;
    }
  }

  /** When no link uses ".." after a name, an ok answer denotes what the path denotes. */
  lemma AnswerAgrees(fs: Files, base: Path, path: Path, more: nat)
    requires TidyLinks(fs, base) && Clean(base) && Clean(path)
    ensures var o := ResolvePath(fs, base, path);
            Faithful(fs, base, o, [], path, MAX_HOPS, more) && Excused(fs, base, o)
  {
    hide Walk, Resolve, IsUnder, Settled, Strip, Join, Rel, TidyLinks, NoAncestorLinks, Dots;
    if base <= path {
      StartAgrees(fs, base, path, MAX_HOPS);
      StartAgrees(fs, base, path, MAX_HOPS + more);
      ResolveAgrees(fs, base, base, path[|base|..], MAX_HOPS, more);
    } else {
      LeavesAtOnce(fs, base, path);
    }
  }

  /** Both start below base with what comes after it. */
  lemma {:induction false} StartAgrees(fs: Files, base: Path, path: Path, links: nat)
    requires Clean(base) && Clean(path) && base <= path
    ensures var tail := path[|base|..];
            && ResolvePath(fs, base, path) == Resolve(fs, base, base, tail, MAX_HOPS)
            && WalkPath(fs, base, path, links) == Walk(fs, base, base, tail, links)
    ensures Settled(fs, base, base)
  {
    hide Walk, Resolve, IsUnder, Settled, Rel;
    var tail := path[|base|..];
    SettledOutside(fs, base, base);
    UnderIff(base, path);
    WalkAlong(fs, base, base, 0, tail, links);
    assert base + tail == path && base[..0] == [] && base[0..] == base;
    HereFirst(fs, base, base, [], MAX_HOPS);
    assert [Here] + [] == [Here];
  }

  /** A path that is not below base is answered as written. */
  lemma LeavesAtOnce(fs: Files, base: Path, path: Path)
    requires Clean(base) && Clean(path) && !(base <= path)
    ensures ResolvePath(fs, base, path) == Outside(path, MAX_HOPS)
  {
    var r := Rel(base, path);
    CommonIsAll(base, path);
    assert r[0] == Up;
    assert Join(base, [Up]) == Parent(base);
    assert Join(base, r) == Join(Parent(base), r[1..]);
    OneRound(fs, base, base, r, MAX_HOPS);
    JoinRel(base, path);
    UnderIff(base, Parent(base));
  }

  /** Above or beside base there is nothing to resolve. */
  lemma WalkWritten(fs: Files, base: Path, p: Path, links: nat)
    requires Clean(p) && Settled(fs, base, p)
    ensures WalkPath(fs, base, p, links) == At(p)
  {
    WalkAlong(fs, base, p, 0, [], links);
    assert p + [] == p && p[..0] == [] && p[0..] == p;
  }

  /** Exactly when an ok answer is where the path leads: when no component of it is a link. */
  lemma AnswerRightIff(fs: Files, base: Path, path: Path)
    requires TidyLinks(fs, base) && Clean(base) && Clean(path) && !ResolvePath(fs, base, path).Failed?
    ensures var ans := ResolvePath(fs, base, path).path;
            WalkPath(fs, base, path, MAX_HOPS) == At(ans) <==> Settled(fs, base, ans)
  {
    hide Resolve, ResolvePath, Settled, NoAncestorLinks, TidyLinks;
    AnswerAgrees(fs, base, path, 0);
    var o := ResolvePath(fs, base, path);
    SettledOutside(fs, base, []);
    if WalkPath(fs, base, path, MAX_HOPS) == At(o.path) {
      WalkSettles(fs, base, [], path, MAX_HOPS);
    } else if Settled(fs, base, o.path) && o.Outside? {
      WalkWritten(fs, base, o.path, o.links);
    }
  }

  /** Without climbing links, an answer with no dotted name directly below base is right. */
  lemma AnswerUndotted(fs: Files, base: Path, path: Path, p: Path)
    requires TidyLinks(fs, base) && NoAncestorLinks(fs, base) && Clean(base) && Clean(path)
    requires Answer(ResolvePath(fs, base, path)) == Some(p) && !DottedAt(base, p)
    ensures WalkPath(fs, base, path, MAX_HOPS) == At(p) && Settled(fs, base, p) && Clean(p)
  {
    hide Resolve, ResolvePath, Settled, NoAncestorLinks, TidyLinks, Walk, DottedAt;
    AnswerAgrees(fs, base, path, 0);
    AnswerRightIff(fs, base, path);
    if !(base < p) {
      SettledOutside(fs, base, p);
    }
  }

  /** A path that leads somewhere and is not settled goes over a first link that leads somewhere. */
  lemma {:induction false} FirstLink(fs: Files, base: Path, q: Path, links: nat) returns (i: nat)
    requires Clean(q) && !Settled(fs, base, q) && WalkPath(fs, base, q, links).At? && links <= MAX_HOPS
    ensures i <= |q| && base < q[..i] && Settled(fs, base, Parent(q[..i]))
    ensures fs(q[..i]).Link? && WalkPath(fs, base, q[..i], MAX_HOPS).At?
    decreases |q|
  {
    hide Walk, Settled;
    if q == [] {
      SettledOutside(fs, base, q);
    }
    var front, last := Parent(q), q[|q| - 1];
    assert q == front + [last];
    if Settled(fs, base, front) {
      i := |q|;
      assert q[..i] == q;
      if base < q ==> fs(q) == Plain {
        SettledSnoc(fs, base, front, last);
      }
      WalkAlong(fs, base, front, 0, [last], links);
      assert front[..0] == [] && front[0..] == front;
      OverLink(fs, base, front, last, links);
      WalkMoreLinks(fs, base, [], q, links, MAX_HOPS);
    } else {
      WalkPrefix(fs, base, [], front, [last], links);
      i := FirstLink(fs, base, front, links);
      assert q[..i] == front[..i];
    }
  }

  lemma {:induction false} OverLink(fs: Files, base: Path, cur: Path, c: Part, links: nat)
    requires c.Name? && base < cur + [c] && Walk(fs, base, cur, [c], links).At?
    ensures !fs(cur + [c]).Absent?
  {
    assert [c][0] == c;
  }

  /**
   * When no link leads above base and none behind a dotted name leads anywhere, a
   * path leads to p exactly when p is the answer and holds no link; and an answer
   * without a dotted name directly below base holds none.
   */
  lemma ResolveExact(fs: Files, base: Path, path: Path, p: Path)
    requires TidyLinks(fs, base) && NoAncestorLinks(fs, base) && NoDottedLinks(fs, base) && Clean(base) && Clean(path)
    ensures WalkPath(fs, base, path, MAX_HOPS) == At(p) <==>
            Answer(ResolvePath(fs, base, path)) == Some(p) && Settled(fs, base, p)
    ensures Answer(ResolvePath(fs, base, path)) == Some(p) && !DottedAt(base, p) ==> Settled(fs, base, p) && Clean(p)
  {
    hide Resolve, ResolvePath, Settled, NoAncestorLinks, TidyLinks, Walk, DottedAt, Clean;
    var o := ResolvePath(fs, base, path);
    if Answer(o) == Some(p) {
      AnswerRightIff(fs, base, path);
      if !DottedAt(base, p) {
        AnswerUndotted(fs, base, path, p);
      }
    }
    if WalkPath(fs, base, path, MAX_HOPS) == At(p) {
      AnswerAgrees(fs, base, path, 0);
      AnswerRightIff(fs, base, path);
      if !Settled(fs, base, o.path) {
        LeadsOverDotted(fs, base, o.path, o.links);
      }
    }
  }

  /** An unsettled place under a dotted name that leads somewhere does so over a link there. */
  lemma LeadsOverDotted(fs: Files, base: Path, q: Path, links: nat)
    requires Clean(q) && !Settled(fs, base, q) && WalkPath(fs, base, q, links).At? && links <= MAX_HOPS
    requires base <= q ==> DottedAt(base, q)
    ensures !NoDottedLinks(fs, base)
  {
    hide Settled, Walk, WalkPath, Dots;
    var i := FirstLink(fs, base, q, links);
    assert base <= q && q[..i][|base|] == q[|base|];
    assert DottedLink(fs, base, q[..i]);
  }

  lemma CleanPrefix(p: Path, n: nat)
    requires Clean(p) && 0 < n <= |p|
    ensures Clean(p[..n]) && Clean([p[n - 1]])
  {}

  lemma {:induction false} PlainRound(fs: Files, base: Path, cur: Path, work: seq<Part>, links: nat)
    requires work != [] && work[0].Name? && Clean(cur + [work[0]]) && base < cur + [work[0]]
    requires fs(cur + [work[0]]) == Plain && !DottedAt(base, cur + [work[0]])
    ensures Resolve(fs, base, cur, work, links) == Resolve(fs, base, cur + [work[0]], work[1..], links)
  {
    hide IsUnder, Dots, Join, Resolve;
    OneRound(fs, base, cur, work, links);
    JoinNames(cur, [work[0]]);
    UnderIff(base, cur + [work[0]]);
  }

  /** The loop walks a settled path as it is written. */
  lemma {:induction false} ResolveAlong(fs: Files, base: Path, i: nat, p: Path, rest: seq<Part>, links: nat)
    requires base <= p && Clean(p) && !DottedAt(base, p) && Settled(fs, base, p) && |base| <= i <= |p|
    ensures Resolve(fs, base, p[..i], p[i..] + rest, links) == Resolve(fs, base, p, rest, links)
    decreases |p| - i
  {
    hide IsUnder, Settled, Clean, Dots, Join, Resolve;
    if i < |p| {
      SettledAt(fs, base, p, i);
      CleanPrefix(p, i + 1);
      ResolveAlong(fs, base, i + 1, p, rest, links);
      var work := p[i..] + rest;
      assert work[0] == p[i] && work[1..] == p[i + 1..] + rest && p[..i] + [p[i]] == p[..i + 1];
      assert base < p[..i + 1] && p[..i + 1][|base|] == p[|base|];
      PlainRound(fs, base, p[..i], work, links);
    } else {
      assert p[..i] == p && p[i..] + rest == rest;
    }
  }

  /** An answer with no link in it is its own answer, whatever else the file system holds. */
  lemma AnswerFixed(fs: Files, base: Path, p: Path)
    requires base <= p && Clean(p) && !DottedAt(base, p) && Settled(fs, base, p)
    ensures ResolvePath(fs, base, p) == Below(p)
  {
    assert p[..|base|] == base && p[|base|..] + [] == p[|base|..];
    ResolveAlong(fs, base, |base|, p, [], MAX_HOPS);
    NoRound(fs, base, p, MAX_HOPS);
    StartAgrees(fs, base, p, MAX_HOPS);
  }

  /** Whatever the links are, an answer given below base holds no link below it. */
  lemma BelowSettled(fs: Files, base: Path, path: Path)
    requires Clean(base) && Clean(path) && ResolvePath(fs, base, path).Below?
    ensures Settled(fs, base, ResolvePath(fs, base, path).path) && base <= ResolvePath(fs, base, path).path
  {
    if base <= path {
      StartAgrees(fs, base, path, MAX_HOPS);
      ResolveSettles(fs, base, base, path[|base|..], MAX_HOPS);
    } else {
      LeavesAtOnce(fs, base, path);
    }
  }

  lemma {:induction false} ResolveSettles(fs: Files, base: Path, cur: Path, rest: seq<Part>, links: nat)
    requires Clean(cur) && base <= cur && Settled(fs, base, cur) && Up !in rest
    ensures var o := Resolve(fs, base, cur, rest, links); o.Below? ==> Settled(fs, base, o.path) && base <= o.path
    decreases links, |rest|
  {
    hide IsUnder, Settled, Rel, Dots, Resolve, Join;
    if rest == [] {
      NoRound(fs, base, cur, links);
    } else {
      OneRound(fs, base, cur, rest, links);
      if rest[0] == Here {
        ResolveSettles(fs, base, cur, rest[1..], links);
      } else {
        var next := cur + [rest[0]];
        JoinNames(cur, [rest[0]]);
        UnderIff(base, next);
        if fs(next).Plain? {
          SettledSnoc(fs, base, cur, rest[0]);
          ResolveSettles(fs, base, next, rest[1..], links);
        } else if fs(next).Link? && links > 0 && fs(next).target.Some? {
          var t := fs(next).target.value;
          var target := Join(Start(cur, t), t.parts);
          JoinClean(Start(cur, t), t.parts);
          UnderIff(base, target);
          SettledOutside(fs, base, base);
          if base <= target {
            ResolveSettles(fs, base, base, Rel(base, target) + rest[1..], links - 1);
          }
        }
      }
    }
  }

  // ---- exactly when every answer is right ----

  /** The answer is where the path leads, and there is one exactly when it leads somewhere. */
  predicate AnsweredRight(fs: Files, base: Path, path: Path) {
    match WalkPath(fs, base, path, MAX_HOPS)
    case At(p) => Answer(ResolvePath(fs, base, path)) == Some(p)
    case _ => Answer(ResolvePath(fs, base, path)) == None
  }

  /** A link loop: no number of hops resolves it. */
  ghost predicate Loops(fs: Files, base: Path, path: Path) {
    forall n: nat :: WalkPath(fs, base, path, n) == TooManyLinks
  }

  /** A path that takes a climbing link first and then goes on to any place q below base. */
  function Via(fs: Files, p: Path, q: Path): Path
    requires fs(p).Link? && fs(p).target.Some?
  {
    var t := fs(p).target.value;
    var n := |Join(Start(Parent(p), t), t.parts)|;
    if n <= |q| then p + q[n..] else p
  }

  /** Such a path leads where q leads, but it is answered with q as it is written. */
  lemma ViaAnswer(fs: Files, base: Path, p: Path, q: Path, n: nat)
    requires TidyLinks(fs, base) && Climbs(fs, base, p) && base <= q && Clean(q)
    ensures Clean(base) && Clean(Via(fs, p, q)) && ResolvePath(fs, base, Via(fs, p, q)) == Outside(q, MAX_HOPS - 1)
    ensures WalkPath(fs, base, Via(fs, p, q), n) == if n == 0 then TooManyLinks else WalkPath(fs, base, q, n - 1)
  {
    hide Walk, Resolve, IsUnder, Rel, Settled, Strip, Dots, Join, TidyLinks;
    var cur, t := Parent(p), fs(p).target.value;
    var target := Join(Start(cur, t), t.parts);
    var path, rest := Via(fs, p, q), q[|target|..];
    assert path == p + rest && path == cur + ([p[|cur|]] + rest) && target + rest == q;
    ViaProper(base, p, rest);
    ViaWalk(fs, base, p, rest, n);
    StartAgrees(fs, base, path, n);
    assert path[|base|..] == cur[|base|..] + ([p[|cur|]] + rest) && cur[..|base|] == base;
    ResolveAlong(fs, base, |base|, cur, [p[|cur|]] + rest, MAX_HOPS);
    ViaLeaves(fs, base, p, rest);
  }

  lemma ViaProper(base: Path, p: Path, rest: seq<Part>)
    requires base < p && Clean(p) && !DottedAt(base, p) && Clean(rest)
    ensures Clean(base) && Clean(p + rest) && base <= Parent(p) && Clean(Parent(p)) && !DottedAt(base, Parent(p))
  {}

  lemma {:induction false} ViaLeaves(fs: Files, base: Path, p: Path, rest: seq<Part>)
    requires Climbs(fs, base, p) && Clean(rest)
    ensures var t := fs(p).target.value;
            var target := Join(Start(Parent(p), t), t.parts);
            Resolve(fs, base, Parent(p), [p[|p| - 1]] + rest, MAX_HOPS) == Outside(target + rest, MAX_HOPS - 1)
  {
    hide Resolve, IsUnder, Rel, Settled, Dots, Join;
    var cur, t := Parent(p), fs(p).target.value;
    var target := Join(Start(cur, t), t.parts);
    var work := [p[|p| - 1]] + rest;
    assert cur + [work[0]] == p && work[1..] == rest;
    OneRound(fs, base, cur, work, MAX_HOPS);
    JoinNames(cur, [work[0]]);
    UnderIff(base, p);
    UnderIff(base, target);
    JoinNames(target, rest);
  }

  /** Walking over a link in a settled folder. */
  lemma ViaWalk(fs: Files, base: Path, p: Path, rest: seq<Part>, n: nat)
    requires TidyLinks(fs, base) && Climbs(fs, base, p)
    ensures var t := fs(p).target.value;
            var target := Join(Start(Parent(p), t), t.parts);
            WalkPath(fs, base, p + rest, n) == if n == 0 then TooManyLinks else WalkPath(fs, base, target + rest, n - 1)
  {
    hide Settled, Dots, Join, Strip;
    var cur, t := Parent(p), fs(p).target.value;
    var work := [p[|p| - 1]] + rest;
    assert p + rest == cur + work && cur + [work[0]] == p && work[1..] == rest;
    ViaProper(base, p, []);
    WalkAlong(fs, base, cur, 0, work, n);
    assert cur[..0] == [] && cur[0..] == cur;
    if n > 0 {
      TargetAgrees(fs, base, cur, t, rest, n - 1);
    }
  }

  /**
   * Every path that leads somewhere is answered right exactly when no link leads
   * from below base to a folder above it, and none behind a dotted name directly
   * below base leads anywhere. For paths that lead nowhere too, there must be
   * nothing but plain places behind such names.
   */
  lemma AllRightIff(fs: Files, base: Path)
    requires TidyLinks(fs, base) && Clean(base)
    ensures NoAncestorLinks(fs, base) && NoDottedLinks(fs, base) <==>
            forall path | Clean(path) && WalkPath(fs, base, path, MAX_HOPS).At? :: AnsweredRight(fs, base, path)
    ensures NoAncestorLinks(fs, base) && (forall q | Clean(q) && DottedAt(base, q) :: Settled(fs, base, q)) <==>
            forall path | Clean(path) :: AnsweredRight(fs, base, path)
  {
    hide Climbs, DottedAt, WalkPath, Resolve, ResolvePath, TidyLinks, Clean, AnsweredRight, Settled;
    if p :| Climbs(fs, base, p) {
      ClimbMisleads(fs, base, p);
    } else {
      if p :| DottedLink(fs, base, p) {
        LinkUnsettled(fs, base, p);
        DottedMisleads(fs, base, p);
      } else {
        forall path | Clean(path) && WalkPath(fs, base, path, MAX_HOPS).At?
          ensures AnsweredRight(fs, base, path)
        {
          ResolveExact(fs, base, path, WalkPath(fs, base, path, MAX_HOPS).path);
          RightIs(fs, base, path);
        }
      }
      if q :| Clean(q) && DottedAt(base, q) && !Settled(fs, base, q) {
        DottedMisleads(fs, base, q);
      } else {
        forall path | Clean(path)
          ensures AnsweredRight(fs, base, path)
        {
          RightWhenSettled(fs, base, path);
        }
      }
    }
  }

  lemma RightIs(fs: Files, base: Path, path: Path)
    ensures WalkPath(fs, base, path, MAX_HOPS).At? ==>
              (AnsweredRight(fs, base, path) <==>
                 Answer(ResolvePath(fs, base, path)) == Some(WalkPath(fs, base, path, MAX_HOPS).path))
    ensures !WalkPath(fs, base, path, MAX_HOPS).At? ==>
              (AnsweredRight(fs, base, path) <==> Answer(ResolvePath(fs, base, path)) == None)
  {}

  lemma LinkUnsettled(fs: Files, base: Path, p: Path)
    requires DottedAt(base, p) && fs(p).Link?
    ensures !Settled(fs, base, p)
  {
    assert p[..|p|] == p;
  }

  /** What lies behind a dotted name directly below base is answered as it is written. */
  lemma DottedMisleads(fs: Files, base: Path, q: Path)
    requires Clean(base) && Clean(q) && DottedAt(base, q)
    ensures ResolvePath(fs, base, q) == Outside(q, MAX_HOPS)
    ensures !Settled(fs, base, q) ==> !AnsweredRight(fs, base, q)
  {
    hide Resolve, ResolvePath, Settled, Walk, Dots;
    var tail := q[|base|..];
    assert base + tail == q && base + [tail[0]] == q[..|base| + 1] && q[..|base| + 1][|base|] == q[|base|];
    StartAgrees(fs, base, q, MAX_HOPS);
    DottedLeaves(fs, base, base, tail, MAX_HOPS, 0);
    SettledOutside(fs, base, []);
    if WalkPath(fs, base, q, MAX_HOPS).At? {
      WalkSettles(fs, base, [], q, MAX_HOPS);
    }
  }

  lemma RightWhenSettled(fs: Files, base: Path, path: Path)
    requires TidyLinks(fs, base) && NoAncestorLinks(fs, base) && Clean(base) && Clean(path)
    requires forall q | Clean(q) && DottedAt(base, q) :: Settled(fs, base, q)
    ensures AnsweredRight(fs, base, path)
  {
    hide Resolve, ResolvePath, Settled, NoAncestorLinks, TidyLinks, Walk, DottedAt;
    var o := ResolvePath(fs, base, path);
    AnswerAgrees(fs, base, path, 0);
    if !o.Failed? {
      AnswerRightIff(fs, base, path);
      if !(base < o.path) {
        SettledOutside(fs, base, o.path);
      }
      if o.Below? {
        BelowSettled(fs, base, path);
      }
    }
  }

  /** Going over a climbing link back to that link is answered with the link. */
  lemma ClimbMisleads(fs: Files, base: Path, p: Path)
    requires TidyLinks(fs, base) && Climbs(fs, base, p)
    ensures var path := Via(fs, p, p);
            && Clean(base) && Clean(path) && WalkPath(fs, base, path, MAX_HOPS).At? && !AnsweredRight(fs, base, path)
            && (NoDots(base) && NoDots(p) ==> NoDots(path))
  {
    hide Walk, Resolve, ResolvePath, Settled, TidyLinks, Join, Dots, DottedAt;
    var t := fs(p).target.value;
    var target := Join(Start(Parent(p), t), t.parts);
    ViaAnswer(fs, base, p, p, MAX_HOPS);
    ViaWalk(fs, base, p, [], MAX_HOPS - 1);
    assert p + [] == p && target + [] == target;
    SettledOutside(fs, base, target);
    assert Clean(target) by {
      JoinClean(Start(Parent(p), t), t.parts);
    }
    WalkWritten(fs, base, target, MAX_HOPS - 2);
  }

  /**
   * Some link loop is answered ok exactly when there is one and a link leads from
   * below base to a folder above it, or when there is one behind a dotted name
   * directly below base.
   */
  lemma LoopAnsweredIff(fs: Files, base: Path)
    requires TidyLinks(fs, base) && Clean(base)
    ensures (exists path :: Clean(path) && Loops(fs, base, path) && !ResolvePath(fs, base, path).Failed?)
       <==> || (!NoAncestorLinks(fs, base) && exists q :: Clean(q) && Loops(fs, base, q))
            || exists q :: Clean(q) && DottedAt(base, q) && Loops(fs, base, q)
  {
    hide Climbs, DottedAt, Loops, Resolve, ResolvePath, TidyLinks, Clean, Walk, WalkPath;
    if path :| Clean(path) && Loops(fs, base, path) && !ResolvePath(fs, base, path).Failed? {
      if NoAncestorLinks(fs, base) {
        LoopEndsDotted(fs, base, path);
      }
    }
    if q, p :| Clean(q) && Loops(fs, base, q) && Climbs(fs, base, p) {
      LoopVia(fs, base, p, q);
    }
    if q :| Clean(q) && DottedAt(base, q) && Loops(fs, base, q) {
      DottedMisleads(fs, base, q);
    }
  }

  /** Without climbing links, a loop that is answered ok is a loop behind a dotted name. */
  lemma LoopEndsDotted(fs: Files, base: Path, path: Path)
    requires TidyLinks(fs, base) && NoAncestorLinks(fs, base) && Clean(base) && Clean(path)
    requires Loops(fs, base, path) && !ResolvePath(fs, base, path).Failed?
    ensures var q := ResolvePath(fs, base, path).path; Clean(q) && DottedAt(base, q) && Loops(fs, base, q)
  {
    hide Resolve, ResolvePath, Settled, NoAncestorLinks, TidyLinks, Walk, DottedAt;
    var o := ResolvePath(fs, base, path);
    assert WalkPath(fs, base, path, MAX_HOPS) == TooManyLinks;
    AnswerAgrees(fs, base, path, 0);
    AnswerRightIff(fs, base, path);
    if !(base < o.path) {
      SettledOutside(fs, base, o.path);
    }
    forall n: nat
      ensures WalkPath(fs, base, o.path, n) == TooManyLinks
    {
      AnswerAgrees(fs, base, path, n);
      assert WalkPath(fs, base, path, MAX_HOPS + n) == TooManyLinks;
      if WalkPath(fs, base, o.path, n) != TooManyLinks {
        WalkMoreLinks(fs, base, [], o.path, n, o.links + n);
      }
    }
  }

  lemma LoopVia(fs: Files, base: Path, p: Path, q: Path)
    requires TidyLinks(fs, base) && Climbs(fs, base, p) && Clean(q) && Loops(fs, base, q)
    ensures var path := Via(fs, p, q);
            && Clean(path) && Loops(fs, base, path) && !ResolvePath(fs, base, path).Failed?
            && (NoDots(p) && NoDots(q) ==> NoDots(path))
  {
    hide Resolve, ResolvePath, TidyLinks, Clean, Walk, Settled, Dots;
    assert WalkPath(fs, base, q, 0) == TooManyLinks;
    if !(base <= q) {
      SettledOutside(fs, base, q);
      WalkWritten(fs, base, q, 0);
    }
    forall n: nat
      ensures WalkPath(fs, base, Via(fs, p, q), n) == TooManyLinks
    {
      ViaAnswer(fs, base, p, q, n);
    }
    ViaAnswer(fs, base, p, q, 0);
  }

  /** Without climbing links, such an answer is right for a resolver with any larger limit too. */
  lemma AnswerWithoutLimit(fs: Files, base: Path, path: Path, p: Path, links: nat)
    requires TidyLinks(fs, base) && NoAncestorLinks(fs, base) && Clean(base) && Clean(path) && MAX_HOPS <= links
    requires Answer(ResolvePath(fs, base, path)) == Some(p) && !DottedAt(base, p)
    ensures WalkPath(fs, base, path, links) == At(p)
  {
    AnswerUndotted(fs, base, path, p);
    WalkMoreLinks(fs, base, [], path, MAX_HOPS, links);
  }

  // ---- where no name begins with ".." ----

  /** A clean path and its base, with no name that begins with "..". */
  predicate Proper(base: Path, path: Path) {
    Clean(base) && Clean(path) && NoDots(base) && NoDots(path)
  }

  ghost predicate DotFreeLinks(fs: Files, base: Path) {
    forall p: Path | base < p && fs(p).Link? && fs(p).target.Some? :: NoDots(fs(p).target.value.parts)
  }

  ghost predicate DotFreeClimb(fs: Files, base: Path) {
    exists p: Path :: Climbs(fs, base, p) && NoDots(p)
  }

  /** An answer below base that was kept as written then went over a climbing link without dots. */
  lemma {:induction false} DotFreeOutside(fs: Files, base: Path, cur: Path, rest: seq<Part>, links: nat)
    requires DotFreeLinks(fs, base) && Clean(cur) && NoDots(cur) && Clean(rest) && NoDots(rest)
    requires base <= cur && Settled(fs, base, cur)
    ensures var o := Resolve(fs, base, cur, rest, links); o.Outside? && base <= o.path ==> DotFreeClimb(fs, base)
    decreases links, |rest|
  {
    hide IsUnder, Settled, DotFreeLinks, Dots, Join, Rel, Resolve, DotFreeClimb;
    if rest == [] {
      NoRound(fs, base, cur, links);
    } else {
      OneRound(fs, base, cur, rest, links);
      var next := cur + [rest[0]];
      JoinNames(cur, [rest[0]]);
      UnderIff(base, next);
      NextNoDots(cur, rest[0], base);
      if fs(next).Plain? {
        SettledSnoc(fs, base, cur, rest[0]);
        DotFreeOutside(fs, base, next, rest[1..], links);
      } else if fs(next).Link? && links > 0 && fs(next).target.Some? {
        DotFreeFollow(fs, base, cur, next, rest[1..], links);
      }
    }
  }

  lemma NextNoDots(cur: Path, c: Part, base: Path)
    requires NoDots(cur) && !Dots(c) && base <= cur
    ensures NoDots(cur + [c]) && !DottedAt(base, cur + [c])
  {}

  lemma {:induction false} DotFreeFollow(fs: Files, base: Path, cur: Path, next: Path, rest: seq<Part>, links: nat)
    requires DotFreeLinks(fs, base) && Clean(cur) && NoDots(cur) && Clean(rest) && NoDots(rest) && links > 0
    requires base <= cur && Settled(fs, base, cur) && next != [] && cur == Parent(next)
    requires Clean(next) && NoDots(next) && !DottedAt(base, next) && fs(next).Link? && fs(next).target.Some?
    ensures var t := fs(next).target.value;
            var target := Join(Start(cur, t), t.parts);
            var o := if !IsUnder(base, target) then Outside(Join(target, rest), links - 1)
                     else Resolve(fs, base, base, Rel(base, target) + rest, links - 1);
            o.Outside? && base <= o.path ==> DotFreeClimb(fs, base)
    decreases links, 0
  {
    hide Resolve, IsUnder, Rel, Settled, Dots, Join;
    var t := fs(next).target.value;
    var target := Join(Start(cur, t), t.parts);
    JoinClean(Start(cur, t), t.parts);
    UnderIff(base, target);
    SettledOutside(fs, base, base);
    if base <= target {
      var tail := target[|base|..];
      DotFreeOutside(fs, base, base, tail + rest, links - 1);
      assert base == target ==> tail + rest == rest;
      HereFirst(fs, base, base, rest, links - 1);
    } else {
      JoinNames(target, rest);
      assert target < base ==> Climbs(fs, base, next);
    }
  }

  /** When no name begins with "..", a path can be answered wrong only over a climbing link. */
  lemma DotFreeRight(fs: Files, base: Path, path: Path)
    requires TidyLinks(fs, base) && DotFreeLinks(fs, base) && Proper(base, path) && !DotFreeClimb(fs, base)
    ensures AnsweredRight(fs, base, path)
  {
    hide Resolve, ResolvePath, Settled, TidyLinks, DotFreeLinks, Walk, DotFreeClimb, Dots;
    var o := ResolvePath(fs, base, path);
    AnswerAgrees(fs, base, path, 0);
    if !o.Failed? {
      AnswerRightIff(fs, base, path);
      if o.Below? {
        BelowSettled(fs, base, path);
      } else if base <= path {
        StartAgrees(fs, base, path, MAX_HOPS);
        DotFreeOutside(fs, base, base, path[|base|..], MAX_HOPS);
      } else {
        LeavesAtOnce(fs, base, path);
      }
      if !(base < o.path) {
        SettledOutside(fs, base, o.path);
      }
    }
  }

  /** For paths and links without such names, climbing links are the one cause of wrong answers and of answered loops. */
  lemma DotFreeRightIff(fs: Files, base: Path)
    requires TidyLinks(fs, base) && DotFreeLinks(fs, base) && Clean(base) && NoDots(base)
    ensures !DotFreeClimb(fs, base) <==> forall path | Proper(base, path) :: AnsweredRight(fs, base, path)
    ensures !DotFreeClimb(fs, base) <==>
            forall path | Proper(base, path) && WalkPath(fs, base, path, MAX_HOPS).At? :: AnsweredRight(fs, base, path)
    ensures (exists path :: Proper(base, path) && Loops(fs, base, path) && !ResolvePath(fs, base, path).Failed?)
       <==> DotFreeClimb(fs, base) && exists path :: Proper(base, path) && Loops(fs, base, path)
  {
    hide Climbs, Resolve, ResolvePath, TidyLinks, DotFreeLinks, Clean, NoDots, Walk, WalkPath, Loops;
    if p :| Climbs(fs, base, p) && NoDots(p) {
      ClimbMisleads(fs, base, p);
      if q :| Proper(base, q) && Loops(fs, base, q) {
        LoopVia(fs, base, p, q);
      }
    } else {
      forall path | Proper(base, path)
        ensures AnsweredRight(fs, base, path)
        ensures Loops(fs, base, path) ==> ResolvePath(fs, base, path).Failed?
      {
        DotFreeRight(fs, base, path);
        if Loops(fs, base, path) {
          LoopNowhere(fs, base, path);
        }
      }
    }
  }

  lemma LoopNowhere(fs: Files, base: Path, path: Path)
    requires Loops(fs, base, path) && AnsweredRight(fs, base, path)
    ensures ResolvePath(fs, base, path).Failed?
  {
    hide ResolvePath;
    assert WalkPath(fs, base, path, MAX_HOPS) == TooManyLinks;
  }

  // ---- where the conditions are needed ----

  const B := Name("b")
  const L := Name("l")
  const X := Name("x")
  const Y := Name("y")
  const D := Name("d")
  const E := Name("e")

  /** b/l leads to x/../y and b/x to b/d/e: joining the names forgets that b/x is a link. */
  lemma UpAfterName(fs: Files)
    requires fs([B, L]) == Link(Some(Target(false, [X, Up, Y])))
    requires fs([B, X]) == Link(Some(Target(true, [B, D, E])))
    requires fs([B, Y]) == fs([B, D]) == fs([B, D, E]) == fs([B, D, Y]) == Plain
    ensures ResolvePath(fs, [B], [B, L]) == Below([B, Y])
    ensures WalkPath(fs, [B], [B, L], MAX_HOPS) == At([B, D, Y])
  {
    hide Walk, Settled, IsUnder, Rel, Resolve;
    UpAfterNameAnswer(fs);
    WalkFromB(fs, [L], MAX_HOPS);
    assert [B] + [L] == [B, L];
    WalkLink(fs, L, [], Target(false, [X, Up, Y]), MAX_HOPS);
    WalkLink(fs, X, [Up, Y], Target(true, [B, D, E]), 39);
    SettledBelowB(fs, D, E);
    SettledBelowB(fs, D, Y);
    WalkAlong(fs, [B], [B, D, E], 0, [Up, Y], 38);
    WalkAlong(fs, [B], [B, D, Y], 2, [], 38);
    WalkUp(fs, [B, D, E], [Y], 38);
    assert [X] + [Up, Y] == [X, Up, Y] + [] && [Up] + [Y] == [Up, Y] && [L] + [] == [L];
    assert [B, D, Y][..2] == [B, D] && [B, D, Y][2..] + [] == [Y] && [B, D, E][0..] == [B, D, E] && [B, D, E][..0] == [];
    assert Parent([B, D, E]) == [B, D];
    WalkDone(fs, [B, D, Y], 38);
  }

  lemma UpAfterNameAnswer(fs: Files)
    requires fs([B, L]) == Link(Some(Target(false, [X, Up, Y]))) && fs([B, Y]) == Plain
    ensures ResolvePath(fs, [B], [B, L]) == Below([B, Y])
  {
    hide IsUnder, Rel, Resolve;
    UnderB(L);
    UnderB(Y);
    JoinXUpY();
    ResolveLink(fs, L, [], Target(false, [X, Up, Y]), MAX_HOPS);
    ResolveLast(fs, Y, 39);
    assert [L] + [] == [L] && [Y] + [] == [Y];
  }

  /** b/l leads to the root, above b: the rest b/x is kept although b/x is a link. */
  lemma LinkToAncestor(fs: Files)
    requires fs([B, L]) == Link(Some(Target(true, [])))
    requires fs([B, X]) == Link(Some(Target(true, [B, Y]))) && fs([B, Y]) == Plain
    ensures ResolvePath(fs, [B], [B, L, B, X]) == Outside([B, X], 39)
    ensures WalkPath(fs, [B], [B, L, B, X], MAX_HOPS) == At([B, Y])
  {
    hide Walk, Settled, IsUnder, Rel, Resolve, Join, Strip;
    LinkToAncestorAnswer(fs);
    WalkFromB(fs, [L, B, X], MAX_HOPS);
    assert [B] + [L, B, X] == [B, L, B, X] && [B] + [X] == [B, X];
    WalkLink(fs, L, [B, X], Target(true, []), MAX_HOPS);
    WalkFromB(fs, [X], 39);
    WalkLink(fs, X, [], Target(true, [B, Y]), 39);
    SettledBelowB(fs, Y, Y);
    WalkWritten(fs, [B], [B, Y], 38);
    assert [L] + [B, X] == [L, B, X] && [] + [B, X] == [B, X] && [X] + [] == [X] && [B, Y] + [] == [B, Y];
  }

  lemma LinkToAncestorAnswer(fs: Files)
    requires fs([B, L]) == Link(Some(Target(true, [])))
    ensures ResolvePath(fs, [B], [B, L, B, X]) == Outside([B, X], 39)
  {
    hide IsUnder, Rel, Resolve, Join;
    UnderIff([B], [B, L, B, X]);
    assert [B, L, B, X][1..] == [L, B, X] && [L] + [B, X] == [L, B, X] && [] + [B, X] == [B, X];
    UnderIff([B], []);
    JoinNames([], [B, X]);
    JoinHere([]);
    ResolveLink(fs, L, [B, X], Target(true, []), MAX_HOPS);
  }

  /** A link whose name begins with ".." is taken for something outside base, and kept. */
  lemma NameBeginsWithDots(fs: Files, d: Part)
    requires Dots(d) && fs([B, d]) == Link(Some(Target(true, [B, Y]))) && fs([B, Y]) == Plain
    ensures ResolvePath(fs, [B], [B, d]) == Outside([B, d], MAX_HOPS)
    ensures WalkPath(fs, [B], [B, d], MAX_HOPS) == At([B, Y])
  {
    hide Walk, Settled, IsUnder, Rel;
    DottedAnswer(fs, d);
    assert [B] + [d] == [B, d];
    WalkFromB(fs, [d], MAX_HOPS);
    WalkLink(fs, d, [], Target(true, [B, Y]), MAX_HOPS);
    SettledBelowB(fs, Y, Y);
    WalkWritten(fs, [B], [B, Y], 39);
    assert [d] + [] == [d] && [B, Y] + [] == [B, Y];
  }

  lemma DottedAnswer(fs: Files, d: Part)
    requires Dots(d)
    ensures ResolvePath(fs, [B], [B, d]) == Outside([B, d], MAX_HOPS)
  {
    hide IsUnder, Rel;
    UnderIff([B], [B, d]);
    OneRound(fs, [B], [B], [d], MAX_HOPS);
    JoinNames([B], [d]);
    JoinHere([B, d]);
    assert [B, d][1..] == [d] && [B] + [d] == [B, d] && [d][1..] == [];
  }

  /** A link to itself is a loop, whatever comes after it. */
  lemma {:induction false} SelfLink(fs: Files, c: Part, rest: seq<Part>, n: nat)
    requires c.Name? && fs([B, c]) == Link(Some(Target(true, [B, c])))
    ensures WalkPath(fs, [B], [B, c] + rest, n) == TooManyLinks
    decreases n
  {
    hide Walk;
    assert [B, c] + rest == [B] + ([c] + rest);
    WalkFromB(fs, [c] + rest, n);
    if n > 0 {
      WalkLink(fs, c, rest, Target(true, [B, c]), n);
      SelfLink(fs, c, rest, n - 1);
    } else {
      NoLinkLeft(fs, c, rest);
    }
  }

  lemma {:induction false} NoLinkLeft(fs: Files, c: Part, rest: seq<Part>)
    requires c.Name? && fs([B, c]).Link?
    ensures Walk(fs, [B], [B], [c] + rest, 0) == TooManyLinks
  {
    assert ([c] + rest)[0] == c && [B] + [c] == [B, c];
  }

  /** b/l leads to x/../y and b/x to itself: b/l loops and is answered b/y. */
  lemma UpAfterNameLoop(fs: Files)
    requires fs([B, L]) == Link(Some(Target(false, [X, Up, Y])))
    requires fs([B, X]) == Link(Some(Target(true, [B, X]))) && fs([B, Y]) == Plain
    ensures Loops(fs, [B], [B, L]) && ResolvePath(fs, [B], [B, L]) == Below([B, Y])
  {
    hide Walk, IsUnder, Rel, Resolve, Join;
    UpAfterNameAnswer(fs);
    forall n: nat
      ensures WalkPath(fs, [B], [B, L], n) == TooManyLinks
    {
      assert [B] + [L] == [B, L] && [L] + [] == [L];
      WalkFromB(fs, [L], n);
      if n > 0 {
        WalkLink(fs, L, [], Target(false, [X, Up, Y]), n);
        assert [X, Up, Y] + [] == [X] + [Up, Y] && [B, X] + [Up, Y] == [B] + ([X] + [Up, Y]);
        WalkFromB(fs, [X] + [Up, Y], n - 1);
        SelfLink(fs, X, [Up, Y], n - 1);
      } else {
        NoLinkLeft(fs, L, []);
      }
    }
  }

  /** b/l leads to the root and b/x to itself: b/l/b/x loops and is answered b/x. */
  lemma LinkToAncestorLoop(fs: Files)
    requires fs([B, L]) == Link(Some(Target(true, []))) && fs([B, X]) == Link(Some(Target(true, [B, X])))
    ensures Loops(fs, [B], [B, L, B, X]) && ResolvePath(fs, [B], [B, L, B, X]) == Outside([B, X], 39)
  {
    hide Walk, IsUnder, Rel, Resolve, Join;
    LinkToAncestorAnswer(fs);
    forall n: nat
      ensures WalkPath(fs, [B], [B, L, B, X], n) == TooManyLinks
    {
      assert [B] + ([L] + [B, X]) == [B, L, B, X] && [] + [B, X] == [B, X] && [B, X] + [] == [B, X];
      WalkFromB(fs, [L] + [B, X], n);
      if n > 0 {
        WalkLink(fs, L, [B, X], Target(true, []), n);
        SelfLink(fs, X, [], n - 1);
      } else {
        NoLinkLeft(fs, L, [B, X]);
      }
    }
  }

  /** A link to itself whose name begins with ".." is answered as it is written. */
  lemma DottedLoop(fs: Files, d: Part)
    requires Dots(d) && fs([B, d]) == Link(Some(Target(true, [B, d])))
    ensures Loops(fs, [B], [B, d]) && ResolvePath(fs, [B], [B, d]) == Outside([B, d], MAX_HOPS)
  {
    hide Walk, IsUnder, Rel, Resolve, Join;
    DottedAnswer(fs, d);
    forall n: nat
      ensures WalkPath(fs, [B], [B, d], n) == TooManyLinks
    {
      assert [B, d] + [] == [B, d];
      SelfLink(fs, d, [], n);
    }
  }

  lemma UnderB(c: Part)
    requires c.Name? && !Dots(c)
    ensures IsUnder([B], [B, c]) && Rel([B], [B, c]) == [c] && Join([B], [c]) == [B, c]
  {}

  lemma JoinXUpY()
    ensures Join([B], [X, Up, Y]) == [B, Y]
  {
    var w := [X, Up, Y];
    assert w[1..] == [Up, Y] && [Up, Y][1..] == [Y] && [B] + [w[0]] == [B, X] && Parent([B, X]) == [B];
    JoinNames([B], [Y]);
    assert Join([B, X], [Up, Y]) == Join([B], [Y]);
  }

  lemma {:induction false} ResolveLink(fs: Files, c: Part, rest: seq<Part>, t: Target, links: nat)
    requires c.Name? && !Dots(c) && fs([B, c]) == Link(Some(t)) && links > 0
    ensures var target := Join(Start([B], t), t.parts);
            Resolve(fs, [B], [B], [c] + rest, links)
              == if IsUnder([B], target) then Resolve(fs, [B], [B], Rel([B], target) + rest, links - 1)
                 else Outside(Join(target, rest), links - 1)
  {
    hide IsUnder, Rel;
    UnderB(c);
    var w := [c] + rest;
    assert w[1..] == rest && [w[0]] == [c];
    OneRound(fs, [B], [B], w, links);
  }

  lemma {:induction false} ResolveLast(fs: Files, c: Part, links: nat)
    requires c.Name? && !Dots(c) && fs([B, c]) == Plain
    ensures Resolve(fs, [B], [B], [c], links) == Below([B, c])
  {
    hide IsUnder, Rel;
    UnderB(c);
    assert [c][1..] == [] && [[c][0]] == [c];
    OneRound(fs, [B], [B], [c], links);
    NoRound(fs, [B], [B, c], links);
  }

  lemma {:induction false} WalkFromB(fs: Files, rest: seq<Part>, links: nat)
    ensures Walk(fs, [B], [], [B] + rest, links) == Walk(fs, [B], [B], rest, links)
    ensures WalkPath(fs, [B], [B] + rest, links) == Walk(fs, [B], [B], rest, links)
  {
    var w := [B] + rest;
    assert w[1..] == rest && [] + [w[0]] == [B];
  }

  lemma {:induction false} WalkLink(fs: Files, c: Part, rest: seq<Part>, t: Target, links: nat)
    requires c.Name? && fs([B, c]) == Link(Some(t)) && links > 0 && Here !in t.parts
    ensures Walk(fs, [B], [B], [c] + rest, links) == Walk(fs, [B], Start([B], t), t.parts + rest, links - 1)
  {
    var w := [c] + rest;
    assert w[1..] == rest && [B] + [w[0]] == [B, c];
    StripKeeps(t.parts);
  }

  lemma {:induction false} StripKeeps(parts: seq<Part>)
    requires Here !in parts
    ensures Strip(parts) == parts
  {
    if parts != [] {
      StripKeeps(parts[1..]);
    }
  }

  lemma {:induction false} WalkUp(fs: Files, cur: Path, rest: seq<Part>, links: nat)
    ensures Walk(fs, [B], cur, [Up] + rest, links) == Walk(fs, [B], Parent(cur), rest, links)
  {}

  lemma {:induction false} WalkDone(fs: Files, cur: Path, links: nat)
    ensures Walk(fs, [B], cur, [], links) == At(cur)
  {}

  lemma SettledBelowB(fs: Files, c: Part, d: Part)
    requires fs([B, c]) == Plain
    ensures Settled(fs, [B], [B, c])
    ensures fs([B, c, d]) == Plain ==> Settled(fs, [B], [B, c, d])
  {
    SettledOutside(fs, [B], [B]);
    assert [B] + [c] == [B, c] && [B, c] + [d] == [B, c, d];
    SettledSnoc(fs, [B], [B], c);
    if fs([B, c, d]) == Plain {
      SettledSnoc(fs, [B], [B, c], d);
    }
  }
}
