/**
 * Resolving a destination that need not exist yet, through symbolic links and `..`, to decide whether
 * creating it would land inside the scratch directory.
 */
module Destination {
  import opened Prelude

  type Name = string

  /** An absolute path; the empty sequence is the root. */
  type Path = seq<Name>

  datatype Component = CurDir | ParentDir | Normal(name: Name)

  /** A link holds the path it was made with, which starts at the root or at the directory of the link. */
  datatype Node = Directory | RegularFile | Link(fromRoot: bool, raw: seq<Component>)

  /**
   * A static tree. Nodes sit at their canonical paths. A directory outside `searchable` hides its entries,
   * one outside `openable` cannot be opened. `identity` is the device and inode number of a node, and `hops`
   * is how many links the kernel follows before it gives up.
   */
  datatype Tree = Tree(nodes: map<Path, Node>, searchable: set<Path>, openable: set<Path>, identity: Path -> int,
                       hops: nat)

  function Parent(p: Path): Path {
    if p == [] then [] else p[..|p| - 1]
  }

  /** Every directory above a path can be searched. */
  predicate Reachable(t: Tree, p: Path)
    decreases |p|
  {
    p == [] || (Parent(p) in t.searchable && Reachable(t, Parent(p)))
  }

  /** A node that is not a link. */
  predicate Solid(t: Tree, p: Path) {
    p in t.nodes && !t.nodes[p].Link?
  }

  /** The nodes form a tree of directories. */
  ghost predicate Rooted(t: Tree) {
    && [] in t.nodes && t.nodes[[]] == Directory
    && forall p :: p in t.nodes && p != [] ==> Parent(p) in t.nodes && t.nodes[Parent(p)] == Directory
  }

  ghost predicate WellFormed(t: Tree) {
    && Rooted(t)
    && (forall p, q :: p in t.nodes && Solid(t, q) && t.nodes[p] == Directory && t.identity(p) == t.identity(q) ==>
          p == q)
  }

  // ---- Where a path leads ----

  /** An existing canonical place and the names below it that do not exist, or the place where traversal fails. */
  datatype Location = Place(base: Path, missing: seq<Name>) | Stuck(at: Path)

  predicate Searchable(t: Tree, p: Path) {
    p in t.nodes && t.nodes[p] == Directory && p in t.searchable
  }

  /**
   * Following components from a place, links included, even to names that do not exist; the number of links
   * that may still be followed is passed along.
   */
  function Seek(t: Tree, l: Location, path: seq<Component>, hops: nat): (Location, nat)
    decreases hops, |path|
  {
    if l.Stuck? || path == [] then (l, hops)
    else
      var rest := path[1..];
      match path[0]
      case CurDir => Seek(t, if l.missing == [] && !Searchable(t, l.base) then Stuck(l.base) else l, rest, hops)
      case ParentDir =>
        if l.missing != [] then Seek(t, Place(l.base, l.missing[..|l.missing| - 1]), rest, hops)
        else Seek(t, if Searchable(t, l.base) then Place(Parent(l.base), []) else Stuck(l.base), rest, hops)
      case Normal(name) =>
        if l.missing != [] then Seek(t, Place(l.base, l.missing + [name]), rest, hops)
        else if !Searchable(t, l.base) then (Stuck(l.base), hops)
        else if l.base + [name] !in t.nodes then Seek(t, Place(l.base, [name]), rest, hops)
        else
          match t.nodes[l.base + [name]]
          case Link(fromRoot, raw) =>
            if hops == 0 then (Stuck(l.base), hops)
            else Seek(t, if fromRoot then Place([], []) else l, raw + rest, hops - 1)
          case _ => Seek(t, Place(l.base + [name], []), rest, hops)
  }

  // ---- What the kernel answers ----

  datatype Lookup = Found(path: Path) | Absent | Failed

  /** Entering one name of a directory, following a link. */
  function Enter(t: Tree, d: Path, name: Name): Lookup {
    if !Searchable(t, d) then Failed
    else if d + [name] !in t.nodes then Absent
    else
      match Seek(t, Place(d, []), [Normal(name)], t.hops).0
      case Place(p, missing) => if missing == [] then Found(p) else Failed
      case Stuck(_) => Failed
  }

  /** Resolving a path from the root, link by link; this is also what canonicalising it yields. */
  function Walk(t: Tree, p: Path): Lookup {
    if p == [] then Found([])
    else
      match Walk(t, p[..|p| - 1])
      case Found(d) => Enter(t, d, p[|p| - 1])
      case other => other
  }

  /** Whether something, possibly a link, is at a path. */
  function SymlinkMetadata(t: Tree, p: Path): Lookup {
    if p == [] then Found([])
    else
      match Walk(t, p[..|p| - 1])
      case Found(d) =>
        if !Searchable(t, d) then Failed
        else if d + [p[|p| - 1]] in t.nodes then Found(p) else Absent
      case other => other
  }

  // ---- Identities of a node and of everything above it ----

  /** The identities from a path up to the root. */
  function Identities(t: Tree, p: Path): seq<int>
    decreases |p|
  {
    [t.identity(p)] + if p == [] then [] else Identities(t, Parent(p))
  }

  predicate AllOpenable(t: Tree, p: Path)
    decreases |p|
  {
    p in t.openable && (p == [] || AllOpenable(t, Parent(p)))
  }

  /** The identities of a proven prefix and above, if enough of its directories can be opened. */
  function PrefixAncestors(t: Tree, p: Path): Option<seq<int>>
    requires p in t.nodes
  {
    if t.nodes[p] == Directory && AllOpenable(t, p) then Some(Identities(t, p))
    else if p == [] || !AllOpenable(t, Parent(p)) then None
    else Some([t.identity(p)] + Identities(t, Parent(p)))
  }

  // ---- Where the resolver goes ----

  function Advance(t: Tree, l: Location, c: Component): Location {
    if l.Stuck? then l
    else
      match c
      case CurDir => l
      case ParentDir => if l.missing != [] then Place(l.base, l.missing[..|l.missing| - 1])
          else Place(Parent(l.base), [])
      case Normal(name) =>
        if l.missing != [] then Place(l.base, l.missing + [name])
        else
          match Enter(t, l.base, name)
          case Found(p) => Place(p, [])
          case Absent => Place(l.base, [name])
          case Failed => Stuck(l.base)
  }

  /** Where the resolver gets to, one component after the other; a name below a missing one is missing too. */
  function Locate(t: Tree, path: seq<Component>): Location {
    if path == [] then Place([], []) else Advance(t, Locate(t, path[..|path| - 1]), path[|path| - 1])
  }

  /** The existing part is canonical and reachable, and only missing names lie below it. */
  ghost predicate Proven(t: Tree, l: Location) {
    match l
    case Place(base, missing) =>
      && Solid(t, base) && Reachable(t, base)
      && (missing != [] ==> t.nodes[base] == Directory && base in t.searchable && base + [missing[0]] !in t.nodes)
    case Stuck(at) => Solid(t, at) && Reachable(t, at)
  }

  /** Seeking from a proven place ends in one. */
  lemma {:induction false} SeekKeepsProven(t: Tree, l: Location, path: seq<Component>, hops: nat)
    requires Rooted(t) && Proven(t, l)
    ensures Proven(t, Seek(t, l, path, hops).0)
    decreases hops, |path|
  {
    if l.Place? && path != [] {
      var rest := path[1..];
      match path[0]
      case CurDir => SeekKeepsProven(t, if l.missing == [] && !Searchable(t, l.base) then Stuck(l.base) else l, rest,
                                     hops);
      case ParentDir =>
        var up := if l.missing != [] then Place(l.base, l.missing[..|l.missing| - 1])
                  else if Searchable(t, l.base) then Place(Parent(l.base), []) else Stuck(l.base);
        SeekKeepsProven(t, up, rest, hops);
      case Normal(name) =>
        if l.missing != [] {
          SeekKeepsProven(t, Place(l.base, l.missing + [name]), rest, hops);
        } else if Searchable(t, l.base) {
          assert Parent(l.base + [name]) == l.base;
          if l.base + [name] !in t.nodes {
            SeekKeepsProven(t, Place(l.base, [name]), rest, hops);
          } else if t.nodes[l.base + [name]].Link? {
            var link := t.nodes[l.base + [name]];
            if hops > 0 {
              SeekKeepsProven(t, if link.fromRoot then Place([], []) else l, link.raw + rest, hops - 1);
            }
          } else {
            SeekKeepsProven(t, Place(l.base + [name], []), rest, hops);
          }
        }
    }
  }

  lemma AdvanceKeepsProven(t: Tree, l: Location, c: Component)
    requires WellFormed(t) && Proven(t, l)
    ensures Proven(t, Advance(t, l, c))
  {
    if l.Place? && c.Normal? && l.missing == [] {
      SeekKeepsProven(t, l, [c], t.hops);
      hide Seek;
    }
  }

  /** Over every tree and every path, the place found is proven. */
  lemma {:induction false} LocateIsProven(t: Tree, path: seq<Component>)
    requires WellFormed(t)
    ensures Proven(t, Locate(t, path))
  {
    hide WellFormed;
    hide Proven;
    hide Advance;
    if path == [] {
      RootIsProven(t);
    } else {
      LocateIsProven(t, path[..|path| - 1]);
      AdvanceKeepsProven(t, Locate(t, path[..|path| - 1]), path[|path| - 1]);
    }
  }

  lemma RootIsProven(t: Tree)
    requires WellFormed(t)
    ensures Proven(t, Place([], []))
  {
  }

  // ---- The kernel agrees with the proven places ----

  lemma EnterFindsSolid(t: Tree, d: Path, name: Name)
    requires Searchable(t, d) && Solid(t, d + [name])
    ensures Enter(t, d, name) == Found(d + [name])
  {
    assert [Normal(name)][1..] == [];
    assert Seek(t, Place(d + [name], []), [], t.hops) == (Place(d + [name], []), t.hops);
  }

  lemma {:induction false} WalkFindsSolid(t: Tree, p: Path)
    requires WellFormed(t) && Solid(t, p) && Reachable(t, p)
    ensures Walk(t, p) == Found(p)
    decreases |p|
  {
    if p != [] {
      WalkFindsSolid(t, Parent(p));
      assert Parent(p) + [p[|p| - 1]] == p;
      EnterFindsSolid(t, Parent(p), p[|p| - 1]);
      hide Enter;
    }
  }

  lemma MissingFacts(t: Tree, base: Path, missing: seq<Name>)
    requires Proven(t, Place(base, missing)) && missing != []
    ensures Solid(t, base) && Reachable(t, base) && Enter(t, base, missing[0]) == Absent
    ensures forall n :: 0 <= n <= |missing| ==> Proven(t, Place(base, missing[..n]))
  {
    hide Seek;
    hide Reachable;
  }

  lemma WalkOneMore(t: Tree, p: Path, name: Name)
    ensures Walk(t, p + [name]) == if Walk(t, p).Found? then Enter(t, Walk(t, p).path, name) else Walk(t, p)
  {
    hide Enter;
    assert (p + [name])[..|p|] == p;
  }

  lemma {:induction false} WalkMissesMissing(t: Tree, base: Path, missing: seq<Name>)
    requires WellFormed(t) && Proven(t, Place(base, missing)) && missing != []
    ensures Walk(t, base + missing) == Absent
    decreases |missing|
  {
    hide Enter;
    hide Walk;
    hide Proven;
    hide WellFormed;
    hide Reachable;
    hide Solid;
    var rest, name := missing[..|missing| - 1], missing[|missing| - 1];
    assert base + missing == base + rest + [name];
    MissingFacts(t, base, missing);
    WalkOneMore(t, base + rest, name);
    if rest == [] {
      assert base + rest == base;
      WalkFindsSolid(t, base);
    } else {
      WalkMissesMissing(t, base, rest);
    }
  }

  /** The two system calls of one step, on the path reached so far with one name more. */
  lemma ProbeAnswers(t: Tree, base: Path, missing: seq<Name>, name: Name)
    requires WellFormed(t) && Proven(t, Place(base, missing))
    ensures var p := base + missing + [name];
            && (missing != [] ==> SymlinkMetadata(t, p) == Absent)
            && (missing == [] ==>
                  match Enter(t, base, name)
                  case Absent => SymlinkMetadata(t, p) == Absent
                  case Found(q) => SymlinkMetadata(t, p).Found? && Walk(t, p) == Found(q)
                  case Failed =>
                    || SymlinkMetadata(t, p).Failed?
                    || (SymlinkMetadata(t, p).Found? && Walk(t, p) == Failed))
  {
    var p := base + missing + [name];
    assert p[..|p| - 1] == base + missing && p[|p| - 1] == name;
    if missing == [] {
      assert base + missing == base;
      WalkFindsSolid(t, base);
    } else {
      WalkMissesMissing(t, base, missing);
    }
  }

  // ---- Containment by identity is containment by place ----

  /** A directory's identity occurs above a solid node exactly when the directory lies above it. */
  lemma {:induction false} IdentityMeansAbove(t: Tree, d: Path, p: Path)
    requires WellFormed(t) && d in t.nodes && t.nodes[d] == Directory && Solid(t, p)
    ensures t.identity(d) in Identities(t, p) <==> d <= p
    decreases |p|
  {
    if p == [] {
      assert t.identity(d) in Identities(t, p) <==> t.identity(d) == t.identity(p);
    } else {
      IdentityMeansAbove(t, d, Parent(p));
      assert d <= p <==> d == p || d <= Parent(p);
    }
  }

  lemma {:induction false} AllOpenableExactly(t: Tree, p: Path)
    ensures AllOpenable(t, p) <==> forall k :: 0 <= k <= |p| ==> p[..k] in t.openable
    decreases |p|
  {
    assert p[..|p|] == p;
    if p != [] {
      AllOpenableExactly(t, Parent(p));
      assert forall k :: 0 <= k < |p| ==> p[..k] == Parent(p)[..k];
    }
  }

  /** What lies above a node is known exactly if every directory above it can be opened; the root needs itself. */
  lemma AncestorsKnownExactly(t: Tree, p: Path)
    requires WellFormed(t) && p in t.nodes
    ensures PrefixAncestors(t, p).Some? <==>
              if p == [] then p in t.openable else forall k :: 0 <= k < |p| ==> p[..k] in t.openable
  {
    AllOpenableExactly(t, p);
    hide AllOpenable;
    if p == [] {
      assert p[..0] == p;
    } else {
      AllOpenableExactly(t, Parent(p));
      assert forall k :: 0 <= k < |p| ==> p[..k] == Parent(p)[..k];
    }
  }

  lemma AncestorsAreIdentities(t: Tree, p: Path)
    requires WellFormed(t) && p in t.nodes && PrefixAncestors(t, p).Some?
    ensures PrefixAncestors(t, p).value == Identities(t, p)
  {
  }

  /** The identity of a solid node occurs above a directory exactly when the node lies above it. */
  lemma {:induction false} OccursAbove(t: Tree, p: Path, d: Path)
    requires WellFormed(t) && d in t.nodes && t.nodes[d] == Directory && Solid(t, p)
    ensures t.identity(p) in Identities(t, d) <==> p <= d
    decreases |d|
  {
    if d == [] {
      assert t.identity(p) in Identities(t, d) <==> t.identity(p) == t.identity(d);
    } else {
      OccursAbove(t, p, Parent(d));
      assert p <= d <==> p == d || p <= Parent(d);
    }
  }

  lemma {:induction false} PrefixExists(t: Tree, p: Path, q: Path)
    requires WellFormed(t) && q in t.nodes && p <= q
    ensures p in t.nodes
    decreases |q|
  {
    if p != q {
      PrefixExists(t, p, Parent(q));
    }
  }

  /** Names that do not exist cannot lead into a directory that does. */
  lemma MissingNamesStayOutside(t: Tree, scratch: Path, base: Path, missing: seq<Name>)
    requires WellFormed(t) && scratch in t.nodes && Proven(t, Place(base, missing))
    ensures scratch <= base + missing <==> scratch <= base
  {
    if scratch <= base + missing && |scratch| > |base| {
      assert base + [missing[0]] <= scratch;
      PrefixExists(t, base + [missing[0]], scratch);
    }
  }

  // ---- The resolver ----

  datatype Answer = Unresolved | Unavailable | Resolved(path: Path, insideScratch: bool)

  /** What the answer must be for the place a path leads to. */
  ghost predicate RightAnswer(t: Tree, scratch: Path, l: Location, answer: Answer)
    requires WellFormed(t) && Proven(t, l)
  {
    match l
    case Place(base, missing) =>
      answer == if PrefixAncestors(t, base).None? then Unresolved
                else Resolved(base + missing, scratch <= base + missing)
    case Stuck(at) =>
      answer == if PrefixAncestors(t, at).Some? && !(scratch <= at) && !(at <= scratch) then Unavailable else Unresolved
  }

  lemma {:induction false} StuckForGood(t: Tree, path: seq<Component>, n: nat)
    requires n <= |path| && Locate(t, path[..n]).Stuck?
    ensures Locate(t, path) == Locate(t, path[..n])
    decreases |path| - n
  {
    hide Enter;
    if n == |path| {
      assert path[..n] == path;
    } else {
      assert path[..n + 1][..n] == path[..n];
      StuckForGood(t, path, n + 1);
    }
  }

  /** Popping the resolved path pops a missing name, or the proven prefix itself. */
  lemma PopAnswers(base: Path, missing: seq<Name>)
    ensures var up := Parent(base + missing);
            if missing == [] then up == Parent(base) && up <= base
            else up == base + missing[..|missing| - 1] && (up <= base ==> up == base && |missing| == 1)
  {
    if missing == [] {
      assert base + missing == base;
    }
  }

  /** The flag by identities says what the places say. */
  lemma FlagIsRight(t: Tree, scratch: Path, base: Path, missing: seq<Name>)
    requires WellFormed(t) && scratch in t.nodes && t.nodes[scratch] == Directory && Proven(t, Place(base, missing))
    requires PrefixAncestors(t, base).Some?
    ensures t.identity(scratch) in PrefixAncestors(t, base).value <==> scratch <= base + missing
  {
    AncestorsAreIdentities(t, base);
    IdentityMeansAbove(t, scratch, base);
    MissingNamesStayOutside(t, scratch, base, missing);
  }

  lemma FailureIsRight(t: Tree, scratch: Path, at: Path)
    requires WellFormed(t) && scratch in t.nodes && t.nodes[scratch] == Directory && Proven(t, Stuck(at))
    requires PrefixAncestors(t, at).Some?
    ensures PrefixAncestors(t, at).value != []
    ensures t.identity(scratch) in PrefixAncestors(t, at).value <==> scratch <= at
    ensures PrefixAncestors(t, at).value[0] in Identities(t, scratch) <==> at <= scratch
  {
    AncestorsAreIdentities(t, at);
    IdentityMeansAbove(t, scratch, at);
    OccursAbove(t, at, scratch);
  }

  /** What the two system calls of a step together answer. */
  function Probe(t: Tree, p: Path): Lookup {
    if SymlinkMetadata(t, p).Found? then Walk(t, p) else SymlinkMetadata(t, p)
  }

  lemma ProbeAdvances(t: Tree, l: Location, name: Name)
    requires WellFormed(t) && l.Place? && Proven(t, l)
    ensures Advance(t, l, Normal(name))
         == match Probe(t, l.base + l.missing + [name])
            case Found(p) => Place(p, [])
            case Absent => Place(l.base, l.missing + [name])
            case Failed => Stuck(l.base)
  {
    ProbeAnswers(t, l.base, l.missing, name);
    hide WellFormed;
    hide Proven;
    hide Enter;
    hide Walk;
    hide SymlinkMetadata;
  }

  lemma PopAdvances(t: Tree, l: Location)
    requires l.Place?
    ensures var up, next := Parent(l.base + l.missing), Advance(t, l, ParentDir);
            && next.Place? && next.base == (if up <= l.base then up else l.base)
            && next.base + next.missing == up
  {
    PopAnswers(l.base, l.missing);
    hide Enter;
  }

  /** A path that cannot be traversed is unavailable only from a place disjoint from scratch. */
  method ClassifyFailure(t: Tree, scratch: Path, at: Path) returns (answer: Answer)
    requires WellFormed(t) && scratch in t.nodes && t.nodes[scratch] == Directory && Proven(t, Stuck(at))
    ensures RightAnswer(t, scratch, Stuck(at), answer)
  {
    hide WellFormed;
    hide Identities;
    hide PrefixAncestors;
    var ancestors := PrefixAncestors(t, at);
    if ancestors.None? {
      return Unresolved;
    }
    FailureIsRight(t, scratch, at);
    answer := if t.identity(scratch) !in ancestors.value && ancestors.value[0] !in Identities(t, scratch)
              then Unavailable else Unresolved;
  }

  /**
   * The flag says whether the resolved path lies inside the scratch directory; module Creation says that creating
   * the destination ends at that path and nowhere else. A path that cannot be traversed is reported as
   * unavailable only from a place disjoint from scratch.
   */
  method ResolveAccountingDestination(t: Tree, path: seq<Component>, scratch: Path) returns (answer: Answer)
    requires WellFormed(t) && scratch in t.nodes && t.nodes[scratch] == Directory
    ensures Proven(t, Locate(t, path)) && RightAnswer(t, scratch, Locate(t, path), answer)
  {
    LocateIsProven(t, path);
    var resolved: Path := [];
    var provenPrefix: Path := [];
    hide WellFormed;
    hide Advance;
    hide Probe;
    hide Proven;
    hide Parent;
    hide PrefixAncestors;
    for i := 0 to |path|
      invariant Locate(t, path[..i]).Place?
      invariant provenPrefix == Locate(t, path[..i]).base
      invariant resolved == provenPrefix + Locate(t, path[..i]).missing
    {
      ghost var l := Locate(t, path[..i]);
      assert path[..i + 1][..i] == path[..i];
      assert Locate(t, path[..i + 1]) == Advance(t, l, path[i]);
      match path[i]
      case CurDir => StaysHere(t, l);
      case ParentDir =>
        PopAdvances(t, l);
        resolved := Parent(resolved);
        if resolved <= provenPrefix {
          provenPrefix := resolved;
        }
      case Normal(name) =>
        LocateIsProven(t, path[..i]);
        ProbeAdvances(t, l, name);
        resolved := resolved + [name];
        var probe := Probe(t, resolved);
        if probe.Found? {
          resolved := probe.path;
          provenPrefix := resolved;
        } else if probe.Failed? {
          StuckForGood(t, path, i + 1);
          answer := ClassifyFailure(t, scratch, provenPrefix);
          return;
        }
    }
    assert path[..|path|] == path;
    SolidPlace(t, Locate(t, path));
    var ancestors := PrefixAncestors(t, provenPrefix);
    if ancestors.None? {
      return Unresolved;
    }
    FlagIsRight(t, scratch, provenPrefix, Locate(t, path).missing);
    answer := Resolved(resolved, t.identity(scratch) in ancestors.value);
  }

  lemma StaysHere(t: Tree, l: Location)
    ensures Advance(t, l, CurDir) == l
  {
  }

  lemma SolidPlace(t: Tree, l: Location)
    requires Proven(t, l)
    ensures (if l.Place? then l.base else l.at) in t.nodes
  {
  }
}
