/** Where creating a resolved destination really lands, by the kernel's own traversal, whatever is made in between. */
module Creation {
  import opened Prelude
  import opened Destination

  /** Where opening a path for creation ends: at an existing node, or at a new name in an existing directory. */
  function Create(t: Tree, d: Path, path: seq<Component>, hops: nat): Option<Path>
    decreases hops, |path|
  {
    if path == [] then Some(d)
    else if !Searchable(t, d) then None
    else
      var rest := path[1..];
      match path[0]
      case CurDir => Create(t, d, rest, hops)
      case ParentDir => Create(t, Parent(d), rest, hops)
      case Normal(name) =>
        if d + [name] !in t.nodes then (if rest == [] then Some(d + [name]) else None)
        else
          match t.nodes[d + [name]]
          case Link(fromRoot, raw) =>
            if hops == 0 then None else Create(t, if fromRoot then [] else d, raw + rest, hops - 1)
          case _ => Create(t, d + [name], rest, hops)
  }

  /** A later tree: what existed is as it was, and whatever is new is not a link. */
  ghost predicate Grown(t: Tree, t': Tree) {
    && (forall p :: p in t.nodes ==> p in t'.nodes && t'.nodes[p] == t.nodes[p])
    && (forall p :: p in t.nodes ==> (p in t'.searchable <==> p in t.searchable))
    && (forall p :: p in t'.nodes && p !in t.nodes ==> !t'.nodes[p].Link?)
  }

  lemma {:induction false} BelowMissing(t: Tree, base: Path, missing: seq<Name>)
    requires Rooted(t) && missing != [] && base + [missing[0]] !in t.nodes
    ensures base + missing !in t.nodes
    decreases |missing|
  {
    if |missing| == 1 {
      assert base + missing == base + [missing[0]];
    } else {
      var up := missing[..|missing| - 1];
      BelowMissing(t, base, up);
      assert Parent(base + missing) == base + up;
    }
  }

  /** In no later tree does creation end anywhere but where seeking in the first one leads. */
  lemma {:induction false} CreationLandsWhereSought(t: Tree, t': Tree, l: Location, path: seq<Component>, hops: nat)
    requires Rooted(t) && Grown(t, t') && l.Place? && Proven(t, l)
    requires Create(t', l.base + l.missing, path, hops).Some?
    ensures var found := Seek(t, l, path, hops).0;
            found.Place? && Create(t', l.base + l.missing, path, hops) == Some(found.base + found.missing)
    decreases hops, |path|
  {
    if path == [] {
      SeekNothing(t, l, hops);
    } else {
      var d, rest := l.base + l.missing, path[1..];
      assert path == [path[0]] + rest;
      hide *;
      match path[0]
      case CurDir =>
        StepThroughDot(t, t', l, rest, hops);
        CreationLandsWhereSought(t, t', l, rest, hops);
      case ParentDir =>
        StepUp(t, t', l, rest, hops);
        CreationLandsWhereSought(t, t', UpFrom(l), rest, hops);
      case Normal(name) => NameLands(t, t', l, name, rest, hops);
    }
  }

  lemma SeekNothing(t: Tree, l: Location, hops: nat)
    ensures Seek(t, l, [], hops) == (l, hops)
    ensures l.Place? ==> Create(t, l.base + l.missing, [], hops) == Some(l.base + l.missing)
  {
  }

  function UpFrom(l: Location): Location
    requires l.Place?
  {
    if l.missing != [] then Place(l.base, l.missing[..|l.missing| - 1]) else Place(Parent(l.base), [])
  }

  lemma StepThroughDot(t: Tree, t': Tree, l: Location, rest: seq<Component>, hops: nat)
    requires Rooted(t) && Grown(t, t') && l.Place? && Proven(t, l)
    requires Create(t', l.base + l.missing, [CurDir] + rest, hops).Some?
    ensures Create(t', l.base + l.missing, [CurDir] + rest, hops) == Create(t', l.base + l.missing, rest, hops)
    ensures Seek(t, l, [CurDir] + rest, hops) == Seek(t, l, rest, hops)
  {
    assert ([CurDir] + rest)[1..] == rest;
    SearchableBefore(t, t', l);
  }

  lemma StepUp(t: Tree, t': Tree, l: Location, rest: seq<Component>, hops: nat)
    requires Rooted(t) && Grown(t, t') && l.Place? && Proven(t, l)
    requires Create(t', l.base + l.missing, [ParentDir] + rest, hops).Some?
    ensures var up := UpFrom(l);
            && up.Place? && Proven(t, up)
            && Create(t', l.base + l.missing, [ParentDir] + rest, hops) == Create(t', up.base + up.missing, rest, hops)
            && Seek(t, l, [ParentDir] + rest, hops) == Seek(t, up, rest, hops)
  {
    assert ([ParentDir] + rest)[1..] == rest;
    SearchableBefore(t, t', l);
    UpIsProven(t, l);
    PopAnswers(l.base, l.missing);
    assert UpFrom(l).base + UpFrom(l).missing == Parent(l.base + l.missing);
  }

  lemma UpIsProven(t: Tree, l: Location)
    requires Rooted(t) && l.Place? && Proven(t, l) && (l.missing == [] ==> Searchable(t, l.base))
    ensures Proven(t, UpFrom(l))
  {
  }

  lemma SearchableBefore(t: Tree, t': Tree, l: Location)
    requires Rooted(t) && Grown(t, t') && l.Place? && Proven(t, l) && Searchable(t', l.base + l.missing)
    ensures l.missing == [] ==> Searchable(t, l.base)
  {
    if l.missing == [] { assert l.base + l.missing == l.base; }
  }

  /** The place a name leads to from a place, if it is not a link. */
  function NextPlace(t: Tree, l: Location, name: Name): Location
    requires l.Place?
  {
    if l.missing != [] then Place(l.base, l.missing + [name])
    else if l.base + [name] !in t.nodes then Place(l.base, [name])
    else Place(l.base + [name], [])
  }

  predicate LinkAt(t: Tree, p: Path) {
    p in t.nodes && t.nodes[p].Link?
  }

  lemma LinkIsThere(t: Tree, p: Path)
    requires LinkAt(t, p)
    ensures p in t.nodes && t.nodes[p].Link?
  {
  }

  lemma CreateName(t: Tree, d: Path, name: Name, rest: seq<Component>, hops: nat)
    ensures Create(t, d, [Normal(name)] + rest, hops)
         == if !Searchable(t, d) then None
            else if d + [name] !in t.nodes then (if rest == [] then Some(d + [name]) else None)
            else if LinkAt(t, d + [name]) then
              var link := t.nodes[d + [name]];
              if hops == 0 then None else Create(t, if link.fromRoot then [] else d, link.raw + rest, hops - 1)
            else Create(t, d + [name], rest, hops)
  {
    assert ([Normal(name)] + rest)[1..] == rest;
  }

  lemma SeekName(t: Tree, l: Location, name: Name, rest: seq<Component>, hops: nat)
    requires l.Place? && (l.missing == [] ==> Searchable(t, l.base))
    ensures Seek(t, l, [Normal(name)] + rest, hops)
         == if l.missing == [] && LinkAt(t, l.base + [name]) then
              var link := t.nodes[l.base + [name]];
              if hops == 0 then (Stuck(l.base), hops)
              else Seek(t, if link.fromRoot then Place([], []) else l, link.raw + rest, hops - 1)
            else Seek(t, NextPlace(t, l, name), rest, hops)
  {
    assert ([Normal(name)] + rest)[1..] == rest;
  }

  lemma NextIsThere(t: Tree, l: Location, name: Name)
    requires l.Place?
    ensures var next := NextPlace(t, l, name); next.Place? && next.base + next.missing == l.base + l.missing + [name]
  {
    if l.missing == [] { assert l.base + l.missing == l.base; }
  }

  /** Only a link of the first tree can be met in a later one. */
  lemma LinksAreOld(t: Tree, t': Tree, l: Location, name: Name)
    requires Rooted(t) && Grown(t, t') && l.Place? && Proven(t, l)
    ensures LinkAt(t', l.base + l.missing + [name]) <==> l.missing == [] && LinkAt(t, l.base + [name])
    ensures LinkAt(t', l.base + l.missing + [name]) ==>
            t'.nodes[l.base + l.missing + [name]] == t.nodes[l.base + [name]]
  {
    if l.missing == [] {
      assert l.base + l.missing == l.base;
    } else {
      BelowMissing(t, l.base, l.missing + [name]);
      assert l.base + l.missing + [name] == l.base + (l.missing + [name]);
    }
  }

  lemma NameLands(t: Tree, t': Tree, l: Location, name: Name, rest: seq<Component>, hops: nat)
    requires Rooted(t) && Grown(t, t') && l.Place? && Proven(t, l)
    requires Create(t', l.base + l.missing, [Normal(name)] + rest, hops).Some?
    ensures var found := Seek(t, l, [Normal(name)] + rest, hops).0;
            found.Place? && Create(t', l.base + l.missing, [Normal(name)] + rest,
                                   hops) == Some(found.base + found.missing)
    decreases hops, |rest| + 1, 0
  {
    hide *;
    var d := l.base + l.missing;
    CreateName(t', d, name, rest, hops);
    SearchableBefore(t, t', l);
    SeekName(t, l, name, rest, hops);
    LinksAreOld(t, t', l, name);
    NextIsThere(t, l, name);
    var next := NextPlace(t, l, name);
    SeekNothing(t, next, hops);
    if LinkAt(t', d + [name]) {
      LinkIsThere(t, l.base + [name]);
      LinkIsThere(t', d + [name]);
      var link := t.nodes[l.base + [name]];
      var from := if link.fromRoot then Place([], []) else l;
      assert from.base + from.missing == if link.fromRoot then [] else d;
      RootIsProvenToo(t);
      CreationLandsWhereSought(t, t', from, link.raw + rest, hops - 1);
    } else if d + [name] in t'.nodes {
      NextIsProven(t, l, name);
      CreationLandsWhereSought(t, t', next, rest, hops);
    }
  }

  lemma RootIsProvenToo(t: Tree)
    requires Rooted(t)
    ensures Proven(t, Place([], []))
  {
  }

  lemma NextIsProven(t: Tree, l: Location, name: Name)
    requires Rooted(t) && l.Place? && Proven(t, l) && (l.missing == [] ==> Searchable(t, l.base))
    requires l.missing == [] ==> !LinkAt(t, l.base + [name])
    ensures Proven(t, NextPlace(t, l, name))
  {
    assert Parent(l.base + [name]) == l.base;
  }

  // ---- One component at a time ----

  /** One step of seeking: the place or the link that the first component leads to. */
  function FirstStep(t: Tree, l: Location, c: Component, hops: nat): (Location, seq<Component>, nat)
    requires l.Place?
  {
    match c
    case CurDir => (if l.missing == [] && !Searchable(t, l.base) then Stuck(l.base) else l, [], hops)
    case ParentDir => (if l.missing == [] && !Searchable(t, l.base) then Stuck(l.base) else UpFrom(l), [], hops)
    case Normal(name) =>
      if l.missing == [] && !Searchable(t, l.base) then (Stuck(l.base), [], hops)
      else if l.missing == [] && LinkAt(t, l.base + [name]) then
        var link := t.nodes[l.base + [name]];
        if hops == 0 then (Stuck(l.base), [], hops)
        else (if link.fromRoot then Place([], []) else l, link.raw, hops - 1)
      else (NextPlace(t, l, name), [], hops)
  }

  lemma StuckStays(t: Tree, at: Path, path: seq<Component>, hops: nat)
    ensures Seek(t, Stuck(at), path, hops) == (Stuck(at), hops)
  {
  }

  lemma SeekStep(t: Tree, l: Location, c: Component, rest: seq<Component>, hops: nat)
    requires l.Place?
    ensures var (next, raw, left) := FirstStep(t, l, c, hops);
            && (left < hops || (left == hops && raw == []))
            && Seek(t, l, [c] + rest, hops) == Seek(t, next, raw + rest, left)
  {
    var path := [c] + rest;
    assert path[0] == c && path[1..] == rest && [] + rest == rest;
    StuckStays(t, l.base, rest, hops);
  }

  /** Seeking along two paths, one after the other, is seeking along both. */
  lemma {:induction false} SeekSplits(t: Tree, l: Location, first: seq<Component>, second: seq<Component>, hops: nat)
    ensures var (middle, left) := Seek(t, l, first, hops);
            left <= hops && Seek(t, l, first + second, hops) == Seek(t, middle, second, left)
    decreases hops, |first|
  {
    if l.Stuck? || first == [] {
      assert [] + second == second;
    } else {
      var c, rest := first[0], first[1..];
      assert first == [c] + rest && first + second == [c] + (rest + second);
      var (next, raw, left) := FirstStep(t, l, c, hops);
      SeekStep(t, l, c, rest, hops);
      SeekStep(t, l, c, rest + second, hops);
      assert raw + (rest + second) == (raw + rest) + second;
      assert raw == [] ==> raw + rest == rest;
      hide *;
      SeekSplits(t, next, raw + rest, second, left);
    }
  }

  /** More hops lead to the same place, if fewer lead anywhere. */
  lemma {:induction false} MoreHopsLeadThere(t: Tree, l: Location, path: seq<Component>, hops: nat, more: nat)
    requires hops <= more && Seek(t, l, path, hops).0.Place?
    ensures Seek(t, l, path, more).0 == Seek(t, l, path, hops).0
    decreases hops, |path|
  {
    if l.Place? && path != [] {
      var c, rest := path[0], path[1..];
      assert path == [c] + rest;
      var (next, raw, left) := FirstStep(t, l, c, hops);
      SeekStep(t, l, c, rest, hops);
      SeekStep(t, l, c, rest, more);
      assert raw == [] ==> raw + rest == rest;
      assert next.Place?;
      var left' := left + (more - hops);
      assert FirstStep(t, l, c, more) == (next, raw, left');
      hide *;
      MoreHopsLeadThere(t, next, raw + rest, left, left');
    }
  }

  // ---- The resolver and the kernel ----

  /** Where the kernel's traversal of a path leads, through links and to names that do not exist. */
  function Destined(t: Tree, path: seq<Component>): Location {
    Seek(t, Place([], []), path, t.hops).0
  }

  lemma AdvanceAgrees(t: Tree, l: Location, c: Component, hops: nat)
    requires l.Place? && hops <= t.hops && Advance(t, l, c).Place? && Seek(t, l, [c], hops).0.Place?
    ensures Advance(t, l, c) == Seek(t, l, [c], hops).0
  {
    SeekStep(t, l, c, [], hops);
    assert [c] + [] == [c];
    var (next, raw, left) := FirstStep(t, l, c, hops);
    assert raw + [] == raw;
    if c.Normal? && l.missing == [] {
      MoreHopsLeadThere(t, l, [c], hops, t.hops);
      if !LinkAt(t, l.base + [c.name]) && l.base + [c.name] in t.nodes {
        SeekStep(t, l, c, [], t.hops);
      }
    }
  }

  /** Wherever the resolver and the kernel both get, they get to the same place. */
  lemma {:induction false} LocateAgrees(t: Tree, path: seq<Component>)
    requires Locate(t, path).Place? && Destined(t, path).Place?
    ensures Locate(t, path) == Destined(t, path)
  {
    if path != [] {
      var before, c := path[..|path| - 1], path[|path| - 1];
      assert path == before + [c];
      SeekSplits(t, Place([], []), before, [c], t.hops);
      var (middle, left) := Seek(t, Place([], []), before, t.hops);
      assert middle.Place?;
      hide Seek;
      hide Enter;
      LocateAgrees(t, before);
      AdvanceAgrees(t, middle, c, left);
    }
  }

  /**
   * A destination the resolver places is created there and nowhere else: in every later tree, if creating it
   * succeeds at all, it ends at the resolved path.
   */
  lemma ResolvedIsWhereCreationLands(t: Tree, t': Tree, path: seq<Component>, q: Path)
    requires Rooted(t) && Grown(t, t') && Locate(t, path).Place? && Create(t', [], path, t.hops) == Some(q)
    ensures q == Locate(t, path).base + Locate(t, path).missing
  {
    RootIsProvenToo(t);
    hide Seek;
    hide Create;
    hide Locate;
    hide Grown;
    var root: Path := [];
    assert root + [] == root;
    CreationLandsWhereSought(t, t', Place(root, []), path, t.hops);
    LocateAgrees(t, path);
  }

  // ---- Paths that lead through a dangling link ----

  /** A later tree in which only directories that can be searched are new. */
  ghost predicate Filled(t: Tree, t': Tree) {
    && Grown(t, t') && Rooted(t')
    && forall p :: p in t'.nodes && p !in t.nodes ==> t'.nodes[p] == Directory && p in t'.searchable
  }

  lemma FilledChains(t: Tree, t1: Tree, t2: Tree)
    requires Filled(t, t1) && Filled(t1, t2)
    ensures Filled(t, t2)
  {
  }

  function MakeDirectory(t: Tree, p: Path): Tree {
    t.(nodes := t.nodes[p := Directory], searchable := t.searchable + {p})
  }

  lemma DirectoryFills(t: Tree, d: Path, name: Name)
    requires Rooted(t) && Searchable(t, d) && d + [name] !in t.nodes
    ensures Filled(t, MakeDirectory(t, d + [name])) && Searchable(MakeDirectory(t, d + [name]), d + [name])
  {
    assert Parent(d + [name]) == d;
  }

  /** The place is there in the filled tree: an old node, or a new directory that can be searched. */
  ghost predicate Ready(t: Tree, t1: Tree, l: Location)
    requires l.Place?
  {
    Proven(t, l) && (l.missing != [] ==> l.base + l.missing !in t.nodes && Searchable(t1, l.base + l.missing))
  }

  lemma ReadySearches(t: Tree, t1: Tree, l: Location)
    requires Filled(t, t1) && l.Place? && Ready(t, t1, l) && (l.missing == [] ==> Searchable(t, l.base))
    ensures Searchable(t1, l.base + l.missing)
  {
    if l.missing == [] { assert l.base + l.missing == l.base; }
  }

  lemma ReadyAbove(t: Tree, t1: Tree, l: Location)
    requires Rooted(t) && Filled(t, t1) && l.Place? && Ready(t, t1, l) && (l.missing == [] ==> Searchable(t, l.base))
    ensures UpFrom(l).Place? && Ready(t, t1, UpFrom(l))
  {
    UpIsProven(t, l);
    if |l.missing| > 1 {
      var up := l.missing[..|l.missing| - 1];
      BelowMissing(t, l.base, up);
      assert Parent(l.base + l.missing) == l.base + up;
      assert l.base + up in t1.nodes;
    }
  }

  lemma CreateDot(t: Tree, d: Path, rest: seq<Component>, hops: nat)
    requires Searchable(t, d)
    ensures Create(t, d, [CurDir] + rest, hops) == Create(t, d, rest, hops)
    ensures Create(t, d, [ParentDir] + rest, hops) == Create(t, Parent(d), rest, hops)
  {
    assert ([CurDir] + rest)[1..] == rest && ([ParentDir] + rest)[1..] == rest;
  }

  lemma StillSearches(t1: Tree, t': Tree, d: Path)
    requires Filled(t1, t') && Searchable(t1, d)
    ensures Searchable(t', d)
  {
  }

  /** The name that was missing is now a directory, and the place behind it is ready. */
  lemma MakesNext(t: Tree, t1: Tree, l: Location, name: Name) returns (t2: Tree)
    requires Rooted(t) && Filled(t, t1) && l.Place? && Ready(t, t1, l) && (l.missing == [] ==> Searchable(t, l.base))
    requires l.missing == [] ==> !LinkAt(t, l.base + [name])
    ensures Filled(t1, t2) && NextPlace(t, l, name).Place? && Ready(t, t2, NextPlace(t, l, name))
    ensures l.base + l.missing + [name] in t2.nodes
  {
    var d, next := l.base + l.missing, NextPlace(t, l, name);
    NextIsProven(t, l, name);
    NextIsThere(t, l, name);
    ReadySearches(t, t1, l);
    if next.missing != [] { BelowMissing(t, next.base, next.missing); }
    if d + [name] in t1.nodes {
      t2 := t1;
      FilledItself(t1);
    } else {
      t2 := MakeDirectory(t1, d + [name]);
      DirectoryFills(t1, d, name);
    }
  }

  /** Whatever seeking leads to can be created there, once the names in between have been made. */
  lemma {:induction false} SoughtCanBeCreated(t: Tree, t1: Tree, l: Location, path: seq<Component>,
                                              hops: nat) returns (t': Tree)
    requires Rooted(t) && Filled(t, t1) && l.Place? && Ready(t, t1, l) && Seek(t, l, path, hops).0.Place?
    ensures Filled(t1, t')
    ensures var found := Seek(t, l, path, hops).0;
            Create(t', l.base + l.missing, path, hops) == Some(found.base + found.missing)
    decreases hops, |path|, 1
  {
    if path == [] {
      t' := t1;
      SeekNothing(t, l, hops);
      FilledItself(t1);
    } else {
      var c, rest := path[0], path[1..];
      assert path == [c] + rest;
      StepIsOpen(t, l, c, rest, hops);
      ReadySearches(t, t1, l);
      hide *;
      var d := l.base + l.missing;
      match c
      case CurDir =>
        SeekDot(t, l, rest, hops);
        t' := SoughtCanBeCreated(t, t1, l, rest, hops);
        StillSearches(t1, t', d);
        CreateDot(t', d, rest, hops);
      case ParentDir =>
        SeekUp(t, l, rest, hops);
        ReadyAbove(t, t1, l);
        t' := SoughtCanBeCreated(t, t1, UpFrom(l), rest, hops);
        StillSearches(t1, t', d);
        CreateDot(t', d, rest, hops);
      case Normal(name) => t' := NameCanBeCreated(t, t1, l, name, rest, hops);
    }
  }

  lemma StepIsOpen(t: Tree, l: Location, c: Component, rest: seq<Component>, hops: nat)
    requires l.Place? && Seek(t, l, [c] + rest, hops).0.Place?
    ensures l.missing == [] ==> Searchable(t, l.base)
  {
    SeekStep(t, l, c, rest, hops);
    if l.missing == [] && !Searchable(t, l.base) { StuckStays(t, l.base, [] + rest, hops); }
  }

  lemma SeekDot(t: Tree, l: Location, rest: seq<Component>, hops: nat)
    requires l.Place? && (l.missing == [] ==> Searchable(t, l.base))
    ensures Seek(t, l, [CurDir] + rest, hops) == Seek(t, l, rest, hops)
  {
    assert ([CurDir] + rest)[1..] == rest;
  }

  lemma SeekUp(t: Tree, l: Location, rest: seq<Component>, hops: nat)
    requires l.Place? && (l.missing == [] ==> Searchable(t, l.base))
    ensures Seek(t, l, [ParentDir] + rest, hops) == Seek(t, UpFrom(l), rest, hops)
    ensures UpFrom(l).Place? && UpFrom(l).base + UpFrom(l).missing == Parent(l.base + l.missing)
  {
    assert ([ParentDir] + rest)[1..] == rest;
    PopAnswers(l.base, l.missing);
  }

  lemma NameCanBeCreated(t: Tree, t1: Tree, l: Location, name: Name, rest: seq<Component>, hops: nat) returns (t': Tree)
    requires Rooted(t) && Filled(t, t1) && l.Place? && Ready(t, t1, l) && (l.missing == [] ==> Searchable(t, l.base))
    requires Searchable(t1, l.base + l.missing) && Seek(t, l, [Normal(name)] + rest, hops).0.Place?
    ensures Filled(t1, t')
    ensures var found := Seek(t, l, [Normal(name)] + rest, hops).0;
            Create(t', l.base + l.missing, [Normal(name)] + rest, hops) == Some(found.base + found.missing)
    decreases hops, |rest| + 1, 0
  {
    hide *;
    var d := l.base + l.missing;
    SeekName(t, l, name, rest, hops);
    ReadyIsProven(t, t1, l);
    if l.missing == [] && LinkAt(t, l.base + [name]) {
      LinkIsThere(t, l.base + [name]);
      var link := t.nodes[l.base + [name]];
      var from := if link.fromRoot then Place([], []) else l;
      assert from.base + from.missing == if link.fromRoot then [] else d;
      RootIsReady(t, t1);
      t' := SoughtCanBeCreated(t, t1, from, link.raw + rest, hops - 1);
    } else {
      NextIsThere(t, l, name);
      var t2 := MakesNext(t, t1, l, name);
      FilledChains(t, t1, t2);
      t' := SoughtCanBeCreated(t, t2, NextPlace(t, l, name), rest, hops);
      FilledChains(t1, t2, t');
      FilledKeeps(t2, t', d + [name]);
    }
    FilledChains(t, t1, t');
    FilledIsGrown(t, t');
    LinksAreOld(t, t', l, name);
    LinkIsNode(t', d + [name]);
    StillSearches(t1, t', d);
    CreateName(t', d, name, rest, hops);
  }

  lemma LinkIsNode(t: Tree, p: Path)
    ensures LinkAt(t, p) ==> p in t.nodes && t.nodes[p].Link?
  {
  }

  lemma FilledKeeps(t: Tree, t': Tree, p: Path)
    requires Filled(t, t') && p in t.nodes
    ensures p in t'.nodes
  {
  }

  lemma FilledIsGrown(t: Tree, t': Tree)
    requires Filled(t, t')
    ensures Grown(t, t')
  {
  }

  lemma ReadyIsProven(t: Tree, t1: Tree, l: Location)
    requires l.Place? && Ready(t, t1, l)
    ensures Proven(t, l)
  {
  }

  lemma RootIsReady(t: Tree, t1: Tree)
    requires Rooted(t)
    ensures Ready(t, t1, Place([], []))
  {
  }

  lemma FilledItself(t: Tree)
    requires Rooted(t)
    ensures Filled(t, t)
  {
  }

  // ---- What the resolver's answers are worth ----

  /** Whatever is made later, creating the destination does not end inside the scratch directory. */
  ghost predicate NeverInside(t: Tree, scratch: Path, path: seq<Component>) {
    forall t', q :: Grown(t, t') && Create(t', [], path, t.hops) == Some(q) ==> !(scratch <= q)
  }

  /** The kernel's traversal leads to a place inside the scratch directory. */
  predicate LeadsInside(t: Tree, scratch: Path, path: seq<Component>) {
    Destined(t, path).Place? && scratch <= Destined(t, path).base + Destined(t, path).missing
  }

  /** Creation never ends inside exactly when the path, followed through dangling links too, does not lead inside. */
  lemma NeverInsideExactly(t: Tree, scratch: Path, path: seq<Component>)
    requires Rooted(t)
    ensures NeverInside(t, scratch, path) <==> !LeadsInside(t, scratch, path)
  {
    var root: Path := [];
    assert root + [] == root;
    RootIsProvenToo(t);
    RootIsReady(t, t);
    FilledItself(t);
    hide Seek;
    hide Create;
    hide Grown;
    hide Filled;
    if LeadsInside(t, scratch, path) {
      var t' := SoughtCanBeCreated(t, t, Place(root, []), path, t.hops);
      FilledIsGrown(t, t');
      assert Create(t', [], path, t.hops) == Some(Destined(t, path).base + Destined(t, path).missing);
    } else {
      forall t', q | Grown(t, t') && Create(t', [], path, t.hops) == Some(q) ensures !(scratch <= q) {
        CreationLandsWhereSought(t, t', Place(root, []), path, t.hops);
      }
    }
  }

  /**
   * What an answer means for creating the destination, now or after more has been made. A resolved path is the
   * only place it can end, so the flag is exact. An unavailable one never ends inside exactly when the path does
   * not lead there through a dangling link.
   */
  lemma AnswersMean(t: Tree, scratch: Path, path: seq<Component>, answer: Answer)
    requires WellFormed(t) && Proven(t, Locate(t, path)) && RightAnswer(t, scratch, Locate(t, path), answer)
    ensures answer.Resolved? ==> forall t', q :: Grown(t, t') && Create(t', [], path, t.hops) == Some(q) ==>
              q == answer.path && (answer.insideScratch <==> scratch <= q)
    ensures answer.Resolved? && !answer.insideScratch ==> NeverInside(t, scratch, path)
    ensures answer.Unavailable? ==> (NeverInside(t, scratch, path) <==> !LeadsInside(t, scratch, path))
  {
    hide Seek;
    hide Create;
    hide Grown;
    hide Locate;
    hide Proven;
    hide PrefixAncestors;
    hide LeadsInside;
    if answer.Resolved? {
      forall t', q | Grown(t, t') && Create(t', [], path, t.hops) == Some(q)
        ensures q == answer.path && (answer.insideScratch <==> scratch <= q)
      {
        ResolvedIsWhereCreationLands(t, t', path, q);
      }
    }
    NeverInsideExactly(t, scratch, path);
  }

  // ---- A dangling link ----

  /** A scratch directory `s`, and beside it `d` with a link to a name that does not exist in `s`. */
  const DANGLING := Tree(
    map[[] := Directory, ["s"] := Directory, ["d"] := Directory, ["d", "l"] := Link(true, [Normal("s"), Normal("x")])],
    {[], ["s"], ["d"]}, {[], ["s"], ["d"]},
    (p: Path) => if p == [] then 0 else if p == ["s"] then 1 else if p == ["d"] then 2 else 3,
    40)

  lemma DanglingIsWellFormed()
    ensures WellFormed(DANGLING)
  {
    var t := DANGLING;
    assert "s" != "d" by { assert "s"[0] != "d"[0]; }
    assert t.nodes.Keys == {[], ["s"], ["d"], ["d", "l"]};
    assert ["s"] != ["d"] && |["d", "l"]| == 2;
    assert Parent(["s"]) == [] && Parent(["d"]) == [] && Parent(["d", "l"]) == ["d"];
  }

  /** The resolver calls the link unavailable, and creating through it ends inside the scratch directory. */
  lemma DanglingLinkLandsInside()
    ensures var path := [Normal("d"), Normal("l")];
            && WellFormed(DANGLING) && Proven(DANGLING, Locate(DANGLING, path))
            && RightAnswer(DANGLING, ["s"], Locate(DANGLING, path), Unavailable)
            && Create(DANGLING, [], path, DANGLING.hops) == Some(["s", "x"])
  {
    var t, path := DANGLING, [Normal("d"), Normal("l")];
    DanglingIsWellFormed();
    LocateIsProven(t, path);
    DanglingIsStuck();
    DanglingIsCreated();
    assert "s"[0] != "d"[0];
    assert ["s"][0] != ["d"][0];
    assert AllOpenable(t, ["d"]) by { assert Parent(["d"]) == []; }
  }

  lemma DanglingIsCreated()
    ensures Create(DANGLING, [], [Normal("d"), Normal("l")], DANGLING.hops) == Some(["s", "x"])
  {
    var t := DANGLING;
    var root: Path := [];
    assert "s"[0] != "d"[0];
    assert root + ["d"] == ["d"] && ["d"] + ["l"] == ["d", "l"] && root + ["s"] == ["s"] && ["s"] + ["x"] == ["s", "x"];
    CreateName(t, root, "d", [Normal("l")], 40);
    CreateName(t, ["d"], "l", [], 40);
    CreateName(t, root, "s", [Normal("x")], 39);
    CreateName(t, ["s"], "x", [], 39);
    assert [Normal("d")] + [Normal("l")] == [Normal("d"), Normal("l")] && [Normal("l")] + [] == [Normal("l")];
    assert [Normal("s")] + [Normal("x")] == [Normal("s"), Normal("x")] && [Normal("x")] + [] == [Normal("x")];
    assert [Normal("s"), Normal("x")] + [] == [Normal("s"), Normal("x")];
    hide Create;
  }

  lemma DanglingSeeks()
    ensures Seek(DANGLING, Place(["d"], []), [Normal("l")], 40).0 == Place(["s"], ["x"])
  {
    var t := DANGLING;
    var root: Path := [];
    assert "s"[0] != "d"[0];
    assert ["d"] + ["l"] == ["d", "l"] && root + ["s"] == ["s"] && ["s"] + ["x"] == ["s", "x"];
    assert ["s", "x"][0] != ["d", "l"][0] && ["s", "x"] !in t.nodes;
    SeekName(t, Place(["d"], []), "l", [], 40);
    SeekName(t, Place(root, []), "s", [Normal("x")], 39);
    SeekName(t, Place(["s"], []), "x", [], 39);
    SeekNothing(t, Place(["s"], ["x"]), 39);
    assert [Normal("s")] + [Normal("x")] == [Normal("s"), Normal("x")] && [Normal("x")] + [] == [Normal("x")];
    assert [Normal("s"), Normal("x")] + [] == [Normal("s"), Normal("x")] && [Normal("l")] + [] == [Normal("l")];
    hide Seek;
    assert Seek(t, Place(["s"], []), [Normal("x")], 39).0 == Place(["s"], ["x"]);
    assert Seek(t, Place(root, []), [Normal("s"), Normal("x")], 39).0 == Place(["s"], ["x"]);
  }

  lemma DanglingIsStuck()
    ensures Locate(DANGLING, [Normal("d"), Normal("l")]) == Stuck(["d"])
  {
    var t := DANGLING;
    var root: Path := [];
    assert "s"[0] != "d"[0];
    assert root + ["d"] == ["d"] && ["d"] + ["l"] == ["d", "l"];
    EnterFindsSolid(t, root, "d");
    DanglingSeeks();
    hide Seek;
    assert Enter(t, ["d"], "l") == Failed;
    assert [Normal("d"), Normal("l")][..1] == [Normal("d")] && [Normal("d")][..0] == [];
    assert Locate(t, [Normal("d")]) == Place(["d"], []);
  }
}
