/** Seeding a jail from the build template: a recursive overlay of one directory tree on another. */
module CopyTree {
  import opened Common

  type Entries = map<string, Node>

  /** Special stands for FIFOs, sockets and devices. */
  datatype Node =
    | File(data: string, mode: nat, uid: int)
    | Dir(entries: Entries, mode: nat, uid: int)
    | Link(target: string, uid: int)
    | Special

  datatype Error = NotADirectory | NotEmpty

  /** Escaped: the copy followed a link in the destination that leads to a directory. */
  datatype Outcome = Done | Failed(error: Error) | Escaped

  /** The permission bits of a mode. */
  function Perm(mode: nat): nat { mode % 512 }

  function Get(m: Entries, n: string): Option<Node> { if n in m then Some(m[n]) else None }

  /** The entries a directory copied to d starts from. */
  function Base(d: Option<Node>): Entries { if d.Some? && d.value.Dir? then d.value.entries else map[] }

  /** The entry can be written at d: files and links replace anything but a directory with entries
      in it, a directory needs a directory or nothing. */
  ghost predicate Fits(c: Node, d: Option<Node>)
    decreases c, 1
  {
    match c
    case Special => true
    case File(_, _, _) => Base(d) == map[]
    case Link(_, _) => Base(d) == map[]
    case Dir(_, _, _) => (d.None? || d.value.Dir?) && AllFit(c, Base(d))
  }

  ghost predicate AllFit(s: Node, dst: Entries)
    requires s.Dir?
    decreases s, 0
  {
    forall n | n in s.entries :: Fits(s.entries[n], Get(dst, n))
  }

  /** What stands at d after the copy of c. */
  function Placed(c: Node, d: Option<Node>, uid: int): Option<Node>
    decreases c, 1
  {
    match c
    case Special => d
    case File(data, mode, _) => Some(File(data, Perm(mode), uid))
    case Link(target, _) => Some(Link(target, uid))
    case Dir(_, mode, _) =>
      Some(Dir(Copied(c, Base(d), uid), if d.Some? && d.value.Dir? then d.value.mode else Perm(mode), uid))
  }

  function Copied(s: Node, dst: Entries, uid: int): Entries
    requires s.Dir?
    decreases s, 0
  {
    map n | n in s.entries.Keys + dst.Keys && (n in dst || !s.entries[n].Special?) ::
      if n in s.entries then Placed(s.entries[n], Get(dst, n), uid).value else dst[n]
  }

  // ---------------------------------------------------------------- what the copy means, path by path

  type Path = seq<string>

  /** The node at a path below a directory; links are not followed. */
  function NodeAt(m: Entries, path: Path): Option<Node>
    requires path != []
    decreases |path|
  {
    if path[0] !in m then None
    else if |path| == 1 then Some(m[path[0]])
    else if m[path[0]].Dir? then NodeAt(m[path[0]].entries, path[1..])
    else None
  }

  /** A node without what is below it. */
  datatype View =
    | FileV(data: string, mode: nat, uid: int) | DirV(mode: nat, uid: int) | LinkV(target: string, uid: int)
    | SpecialV

  function ViewOf(n: Option<Node>): Option<View> {
    if n.None? then None
    else match n.value
      case File(data, mode, uid) => Some(FileV(data, mode, uid))
      case Dir(_, mode, uid) => Some(DirV(mode, uid))
      case Link(target, uid) => Some(LinkV(target, uid))
      case Special => Some(SpecialV)
  }

  function ViewAt(m: Entries, path: Path): Option<View>
    requires path != []
  {
    ViewOf(NodeAt(m, path))
  }

  /** One path of the overlay: what the source has there, owned by uid and with the low nine bits of its
      mode, else what was there. */
  function Overlay(src: Option<View>, dst: Option<View>, uid: int): Option<View> {
    match src
    case Some(FileV(data, mode, _)) => Some(FileV(data, mode % 512, uid))
    case Some(LinkV(target, _)) => Some(LinkV(target, uid))
    case Some(DirV(mode, _)) => Some(DirV(if dst.Some? && dst.value.DirV? then dst.value.mode else mode % 512, uid))
    case _ => dst
  }

  lemma CopiedAt(s: Node, dst: Entries, uid: int, n: string)
    requires s.Dir?
    ensures Get(Copied(s, dst, uid), n) ==
      if n in s.entries then Placed(s.entries[n], Get(dst, n), uid) else Get(dst, n)
  {}

  lemma NothingBelow(path: Path)
    requires path != []
    ensures NodeAt(map[], path) == None
  {}

  /** At every path the result is the overlay of source and destination. */
  lemma {:induction false} CopyIsOverlay(s: Node, dst: Entries, uid: int, path: Path)
    requires s.Dir? && AllFit(s, dst) && path != []
    ensures ViewAt(Copied(s, dst, uid), path) == Overlay(ViewAt(s.entries, path), ViewAt(dst, path), uid)
    decreases |path|
  {
    var n := path[0];
    CopiedAt(s, dst, uid, n);
    if |path| > 1 && n in s.entries {
      var c, d := s.entries[n], Get(dst, n);
      assert Fits(c, d);
      NothingBelow(path[1..]);
      if c.Dir? { CopyIsOverlay(c, Base(d), uid, path[1..]); }
    }
  }

  // ---------------------------------------------------------------- when the copy succeeds

  /** Source and destination are incompatible at this path. */
  ghost predicate ClashAt(src: Entries, dst: Entries, path: Path) {
    path != [] &&
    var c, d := NodeAt(src, path), NodeAt(dst, path);
    c.Some? && d.Some? &&
    match c.value
    case File(_, _, _) => Base(d) != map[]
    case Link(_, _) => Base(d) != map[]
    case Dir(_, _, _) => !d.value.Dir?
    case Special => false
  }

  lemma {:induction false} FitMeansNoClash(s: Node, dst: Entries, path: Path)
    requires s.Dir? && AllFit(s, dst)
    ensures !ClashAt(s.entries, dst, path)
    decreases |path|
  {
    if path != [] && path[0] in s.entries && path[0] in dst {
      var c, d := s.entries[path[0]], Get(dst, path[0]);
      assert Fits(c, d);
      if |path| > 1 && c.Dir? { FitMeansNoClash(c, Base(d), path[1..]); }
    }
  }

  lemma ClashBelow(src: Entries, dst: Entries, n: string, rest: Path)
    requires n in src && src[n].Dir? && ClashAt(src[n].entries, Base(Get(dst, n)), rest)
    ensures ClashAt(src, dst, [n] + rest)
  {}

  lemma {:induction false} NoClashMeansFit(s: Node, dst: Entries)
    requires s.Dir? && forall path :: !ClashAt(s.entries, dst, path)
    ensures AllFit(s, dst)
    decreases s
  {
    forall n | n in s.entries ensures Fits(s.entries[n], Get(dst, n)) {
      var c, d := s.entries[n], Get(dst, n);
      assert !ClashAt(s.entries, dst, [n]);
      if c.Dir? {
        forall rest ensures !ClashAt(c.entries, Base(d), rest) {
          if ClashAt(c.entries, Base(d), rest) { ClashBelow(s.entries, dst, n, rest); }
        }
        NoClashMeansFit(c, Base(d));
      }
    }
  }

  /** The copy can be made exactly when no path clashes. */
  lemma FitsIffNoClash(s: Node, dst: Entries)
    requires s.Dir?
    ensures AllFit(s, dst) <==> forall path :: !ClashAt(s.entries, dst, path)
  {
    if AllFit(s, dst) {
      forall path ensures !ClashAt(s.entries, dst, path) { FitMeansNoClash(s, dst, path); }
    } else if forall path :: !ClashAt(s.entries, dst, path) {
      NoClashMeansFit(s, dst);
    }
  }

  lemma {:induction false} FitsNothing(c: Node)
    ensures Fits(c, None)
    decreases c
  {
    if c.Dir? {
      forall n | n in c.entries ensures Fits(c.entries[n], Get(map[], n)) { FitsNothing(c.entries[n]); }
    }
  }

  /** A fresh jail holds one regular file, the source. Seeding it succeeds exactly when the template
      has no directory of that name. */
  lemma FreshJailFits(s: Node, srcName: string, source: Node)
    requires s.Dir? && source.File?
    ensures AllFit(s, map[srcName := source]) <==> !(srcName in s.entries && s.entries[srcName].Dir?)
  {
    var dst := map[srcName := source];
    forall n | n in s.entries && n != srcName ensures Fits(s.entries[n], Get(dst, n)) { FitsNothing(s.entries[n]); }
    assert srcName in s.entries ==> (Fits(s.entries[srcName], Get(dst, srcName)) <==> !s.entries[srcName].Dir?);
  }

  // ---------------------------------------------------------------- seeding twice

  lemma {:induction false} PlacedAgain(c: Node, d: Option<Node>, uid: int)
    requires Fits(c, d)
    ensures Placed(c, Placed(c, d, uid), uid) == Placed(c, d, uid) && Fits(c, Placed(c, d, uid))
    decreases c, 1
  {
    if c.Dir? { CopiedAgain(c, Base(d), uid); }
  }

  /** Seeding a seeded jail again changes nothing. */
  lemma {:induction false} CopiedAgain(s: Node, dst: Entries, uid: int)
    requires s.Dir? && AllFit(s, dst)
    ensures Copied(s, Copied(s, dst, uid), uid) == Copied(s, dst, uid) && AllFit(s, Copied(s, dst, uid))
    decreases s, 0
  {
    var once := Copied(s, dst, uid);
    forall n
      ensures Get(Copied(s, once, uid), n) == Get(once, n) && (n in s.entries ==> Fits(s.entries[n], Get(once, n)))
    {
      CopiedAt(s, dst, uid, n);
      CopiedAt(s, once, uid, n);
      if n in s.entries { PlacedAgain(s.entries[n], Get(dst, n), uid); }
    }
    SameEntries(Copied(s, once, uid), once);
  }

  lemma SameEntries(a: Entries, b: Entries)
    requires forall n :: Get(a, n) == Get(b, n)
    ensures a == b
  {
    forall n ensures n in a <==> n in b { assert Get(a, n) == Get(b, n); }
    forall n | n in a ensures a[n] == b[n] { assert Get(a, n) == Get(b, n); }
  }

  // ---------------------------------------------------------------- a copy that stops half-way

  /** At one path stands what was there before or what the whole copy would put there. */
  ghost predicate PathBetween(src: Entries, dst: Entries, out: Entries, uid: int, path: Path)
    requires path != []
  {
    || ViewAt(out, path) == ViewAt(dst, path)
    || ViewAt(out, path) == Overlay(ViewAt(src, path), ViewAt(dst, path), uid)
  }

  ghost predicate Between(src: Entries, dst: Entries, out: Entries, uid: int) {
    forall path | path != [] :: PathBetween(src, dst, out, uid, path)
  }

  ghost predicate NameBetween(src: Entries, dst: Entries, out: Entries, uid: int, n: string) {
    forall path | path != [] && path[0] == n :: PathBetween(src, dst, out, uid, path)
  }

  lemma UntouchedBetween(src: Entries, dst: Entries, out: Entries, uid: int, n: string)
    requires Get(out, n) == Get(dst, n)
    ensures NameBetween(src, dst, out, uid, n)
  {
    forall path | path != [] && path[0] == n ensures PathBetween(src, dst, out, uid, path) {
      assert NodeAt(out, path) == NodeAt(dst, path);
    }
  }

  /** A directory that stands where it should and is itself half-way. */
  lemma PartBetween(src: Entries, dst: Entries, out: Entries, uid: int, n: string, below: Entries)
    requires n in src && src[n].Dir? && (n in dst ==> dst[n].Dir?)
    requires Between(src[n].entries, Base(Get(dst, n)), below, uid)
    requires Get(out, n) == Some(Dir(below, if n in dst then dst[n].mode else Perm(src[n].mode), uid))
    ensures NameBetween(src, dst, out, uid, n)
  {
    forall path | path != [] && path[0] == n ensures PathBetween(src, dst, out, uid, path) {
      if |path| > 1 {
        NothingBelow(path[1..]);
        assert PathBetween(src[n].entries, Base(Get(dst, n)), below, uid, path[1..]);
      }
    }
  }

  lemma WholeBetween(s: Node, dst: Entries, uid: int)
    requires s.Dir? && AllFit(s, dst)
    ensures Between(s.entries, dst, Copied(s, dst, uid), uid)
  {
    forall path | path != [] ensures PathBetween(s.entries, dst, Copied(s, dst, uid), uid, path) {
      CopyIsOverlay(s, dst, uid, path);
    }
  }

  lemma PlacedBetween(src: Entries, dst: Entries, out: Entries, uid: int, n: string)
    requires n in src && Fits(src[n], Get(dst, n)) && Get(out, n) == Placed(src[n], Get(dst, n), uid)
    ensures NameBetween(src, dst, out, uid, n)
  {
    var c, d := src[n], Get(dst, n);
    if c.Special? {
      UntouchedBetween(src, dst, out, uid, n);
    } else if c.Dir? {
      WholeBetween(c, Base(d), uid);
      PartBetween(src, dst, out, uid, n, Copied(c, Base(d), uid));
    } else {
      forall path | path != [] && path[0] == n ensures PathBetween(src, dst, out, uid, path) {
        if |path| > 1 { NothingBelow(path[1..]); }
      }
    }
  }

  lemma NamesBetween(src: Entries, dst: Entries, out: Entries, uid: int)
    requires forall n :: NameBetween(src, dst, out, uid, n)
    ensures Between(src, dst, out, uid)
  {
    forall path | path != [] ensures PathBetween(src, dst, out, uid, path) {
      assert NameBetween(src, dst, out, uid, path[0]);
    }
  }

  // ---------------------------------------------------------------- links in the destination

  /** No link anywhere in the tree. */
  ghost predicate LinkFree(d: Node)
    decreases d
  {
    !d.Link? && (d.Dir? ==> forall n | n in d.entries :: LinkFree(d.entries[n]))
  }

  ghost predicate NoLinks(dst: Entries) { forall n | n in dst :: LinkFree(dst[n]) }

  // ---------------------------------------------------------------- the loop

  /** One entry of the loop body. `toDir` are the link targets that lead to directories. */
  method CopyEntry(c: Node, dst: Entries, n: string, uid: int, toDir: set<string>) returns (r: Outcome, out: Entries)
    ensures r == Done <==> Fits(c, Get(dst, n))
    ensures r == Done ==> Get(out, n) == Placed(c, Get(dst, n), uid)
    ensures forall k | k != n :: Get(out, k) == Get(dst, k)
    ensures r.Failed? ==> NameBetween(map[n := c], dst, out, uid, n)
    ensures n !in dst || LinkFree(dst[n]) ==> r != Escaped
    ensures c.Dir? && n in dst && dst[n].Link? ==>
      r == if dst[n].target in toDir then Escaped else Failed(NotADirectory)
    ensures !c.Dir? ==> r == Done || r == Failed(NotEmpty)
    decreases c, 1
  {
    out := dst;
    match c {
      case Special =>
        return Done, dst;
      case File(data, mode, _) =>
        if n in dst && dst[n].Dir? && dst[n].entries != map[] { r := Failed(NotEmpty); }
        else { r, out := Done, dst[n := File(data, Perm(mode), uid)]; }
      case Link(target, _) =>
        if n in dst && dst[n].Dir? && dst[n].entries != map[] { r := Failed(NotEmpty); }
        else { r, out := Done, dst[n := Link(target, uid)]; }
      case Dir(_, mode, _) =>
        if n in dst && dst[n].Link? && dst[n].target in toDir { r := Escaped; }
        else if n in dst && !dst[n].Dir? { r := Failed(NotADirectory); }
        else {
          var made := if n in dst then Dir(dst[n].entries, dst[n].mode, uid) else Dir(map[], Perm(mode), uid);
          var below;
          r, below := CopyTree(c, made.entries, uid, toDir);
          out := dst[n := made.(entries := below)];
          if r.Failed? { PartBetween(map[n := c], dst, out, uid, n, below); }
          return;
        }
    }
    if r.Failed? { UntouchedBetween(map[n := c], dst, out, uid, n); }
  }

  lemma OneNameBetween(src: Entries, dst: Entries, was: Entries, out: Entries, uid: int, n: string)
    requires n in src && Get(was, n) == Get(dst, n) && NameBetween(map[n := src[n]], was, out, uid, n)
    ensures NameBetween(src, dst, out, uid, n)
  {
    forall path | path != [] && path[0] == n ensures PathBetween(src, dst, out, uid, path) {
      assert PathBetween(map[n := src[n]], was, out, uid, path);
    }
  }

  /** The whole copy, with the entries taken in any order. It succeeds exactly when everything fits, and
      then makes the overlay. When it fails, every path is as it was or as the overlay has it. It never
      leaves a destination without links. */
  method CopyTree(s: Node, dst: Entries, uid: int, toDir: set<string>) returns (r: Outcome, out: Entries)
    requires s.Dir?
    ensures r == Done <==> AllFit(s, dst)
    ensures r == Done ==> out == Copied(s, dst, uid)
    ensures r.Failed? ==> Between(s.entries, dst, out, uid)
    ensures NoLinks(dst) ==> r != Escaped
    decreases s, 0
  {
    var names := s.entries.Keys;
    out := dst;
    while names != {}
      invariant names <= s.entries.Keys
      invariant forall n | n in names || n !in s.entries :: Get(out, n) == Get(dst, n)
      invariant forall n | n in s.entries && n !in names ::
        Fits(s.entries[n], Get(dst, n)) && Get(out, n) == Placed(s.entries[n], Get(dst, n), uid)
      decreases |names|
    {
      var n :| n in names;
      ghost var was := out;
      assert Get(out, n) == Get(dst, n);
      r, out := CopyEntry(s.entries[n], out, n, uid, toDir);
      if r != Done {
        if r.Failed? { StoppedBetween(s.entries, dst, was, out, uid, names, n); }
        return;
      }
      names := names - {n};
    }
    forall n ensures Get(out, n) == Get(Copied(s, dst, uid), n) { CopiedAt(s, dst, uid, n); }
    SameEntries(out, Copied(s, dst, uid));
    r := Done;
  }

  lemma StoppedBetween(src: Entries, dst: Entries, was: Entries, out: Entries, uid: int, names: set<string>, n: string)
    requires names <= src.Keys && n in names
    requires forall k | k in names || k !in src :: Get(was, k) == Get(dst, k)
    requires forall k | k in src && k !in names ::
      Fits(src[k], Get(dst, k)) && Get(was, k) == Placed(src[k], Get(dst, k), uid)
    requires forall k | k != n :: Get(out, k) == Get(was, k)
    requires NameBetween(map[n := src[n]], was, out, uid, n)
    ensures Between(src, dst, out, uid)
  {
    assert Get(was, n) == Get(dst, n);
    forall k ensures NameBetween(src, dst, out, uid, k) {
      if k == n {
        OneNameBetween(src, dst, was, out, uid, n);
      } else if k in src && k !in names {
        PlacedBetween(src, dst, out, uid, k);
      } else {
        UntouchedBetween(src, dst, out, uid, k);
      }
    }
    NamesBetween(src, dst, out, uid);
  }
}
