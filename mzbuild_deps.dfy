/**
 * The image graph of an mzbuild repository (misc/python/materialize/mzbuild.py):
 * discovering images and compositions, resolving the dependencies of a set of
 * targets in topological order with cycle detection, and listing an image's
 * dependencies once resolved.
 */
module MzbuildDeps {
  import opened Wrappers
  import opened Sorting
  import opened Mzbuild

  /** An image's name and the images its Dockerfile names in `MZFROM` lines. */
  datatype Image = Image(name: string, dependsOn: seq<string>)

  /** `Repository.images`: image name to image. */
  type Images = map<string, Image>

  /** Each image is filed under its own name and depends only on images of the repository. */
  ghost predicate Closed(images: Images)
  {
    forall n :: n in images ==>
      images[n].name == n && forall d :: d in images[n].dependsOn ==> d in images
  }

  ghost function SetOf(s: seq<string>): set<string>
  {
    set x | x in s
  }

  ghost predicate Distinct(s: seq<string>)
  {
    forall i, j :: 0 <= i < j < |s| ==> s[i] != s[j]
  }

  /** A walk along dependency edges: each name is an image the previous one depends on. */
  ghost predicate Chain(images: Images, p: seq<string>)
  {
    && (forall k :: 0 <= k < |p| ==> p[k] in images)
    && (forall k :: 0 <= k < |p| - 1 ==> p[k + 1] in images[p[k]].dependsOn)
  }

  /** A chain that returns to an image it already passed through. */
  ghost predicate CycleDiagram(images: Images, p: seq<string>)
  {
    |p| >= 1 && Chain(images, p) && p[|p| - 1] in p[..|p| - 1]
  }

  /** Every dependency of a resolved image was resolved before it. */
  ghost predicate DepsBefore(images: Images, resolved: seq<string>)
    requires forall i :: 0 <= i < |resolved| ==> resolved[i] in images
  {
    forall i, d :: 0 <= i < |resolved| && d in images[resolved[i]].dependsOn ==> d in resolved[..i]
  }

  const CYCLE_PREFIX := "circular dependency in mzbuild: "

  /** The resolver's invariant, on values. */
  ghost predicate Resolving(images: Images, resolved: seq<string>, visiting: set<string>)
  {
    && Closed(images)
    && (forall i :: 0 <= i < |resolved| ==> resolved[i] in images)
    && Distinct(resolved)
    && DepsBefore(images, resolved)
    && SetOf(resolved) <= visiting <= images.Keys
  }

  /** Resolving an image whose dependencies are all resolved keeps the invariant. */
  lemma ResolveNext(images: Images, resolved: seq<string>, visiting: set<string>, name: string)
    requires Resolving(images, resolved, visiting)
    requires name in visiting && name !in resolved
    requires forall d :: d in images[name].dependsOn ==> d in resolved
    ensures Resolving(images, resolved + [name], visiting)
  {
    var next := resolved + [name];
    assert SetOf(next) == SetOf(resolved) + {name};
    forall i, d | 0 <= i < |next| && d in images[next[i]].dependsOn
      ensures d in next[..i]
    {
      if i < |resolved| {
        assert next[..i] == resolved[..i];
      } else {
        assert next[..i] == resolved;
      }
    }
  }

  /**
   * The state of one `resolve_dependencies` call: the ordered `resolved`
   * dict (its keys, in insertion order) and the `visiting` set, which the
   * nested `visit` updates.
   */
  class Resolver {
    const images: Images
    var resolved: seq<string>
    var visiting: set<string>

    ghost predicate Valid()
      reads this
    {
      Resolving(images, resolved, visiting)
    }

    constructor (images: Images)
      requires Closed(images)
      ensures this.images == images && resolved == [] && visiting == {}
      ensures Valid()
    {
      this.images := images;
      resolved := [];
      visiting := {};
      new;
      assert SetOf([]) == {};
    }

    /**
     * `visit(image, path)` (mzbuild.py:1050-1060): an image already resolved
     * is skipped; one still being visited closes a cycle, reported with the
     * path that led to it; otherwise its dependencies are visited in sorted
     * order and the image is resolved after them. The images being visited
     * and not yet resolved are exactly those on `path`.
     */
    method Visit(name: string, path: seq<string>) returns (err: Option<string>, ghost diagram: seq<string>)
      requires Valid()
      requires name in images && Chain(images, path + [name])
      requires visiting - SetOf(resolved) == SetOf(path)
      modifies this
      decreases |images.Keys - visiting|, 0
      ensures err.None? ==>
                && Valid() && name in resolved
                && old(resolved) <= resolved && old(visiting) <= visiting
                && visiting - SetOf(resolved) == SetOf(path)
      ensures err.Some? ==> err.value == CYCLE_PREFIX + Join(diagram, " -> ") && CycleDiagram(images, diagram)
    {
      diagram := [];
      if name in resolved {
        return None, diagram;
      }
      if name in visiting {
        diagram := path + [name];
        CycleClosed(images, path, name);
        return Some(CYCLE_PREFIX + Join(path + [name], " -> ")), diagram;
      }
      Shrinks(images.Keys, visiting, visiting + {name}, name);
      visiting := visiting + {name};
      var deps := Sort(images[name].dependsOn);
      forall d | d in deps
        ensures d in images[name].dependsOn
      {
        assert d in multiset(deps);
      }
      err, diagram := VisitAll(name, path, deps);
      if err.Some? {
        return err, diagram;
      }
      forall d | d in images[name].dependsOn
        ensures d in resolved
      {
        assert d in multiset(deps);
      }
      ResolveNext(images, resolved, visiting, name);
      LeavePath(resolved, visiting, path, name);
      resolved := resolved + [name];
    }

    /** The loop of `visit` over an image's sorted dependencies. */
    method VisitAll(name: string, path: seq<string>, deps: seq<string>) returns (err: Option<string>, ghost diagram: seq<string>)
      requires Valid()
      requires name in images && Chain(images, path + [name])
      requires name in visiting && name !in resolved
      requires visiting - SetOf(resolved) == SetOf(path) + {name}
      requires forall d :: d in deps ==> d in images[name].dependsOn
      modifies this
      decreases |images.Keys - visiting|, 1
      ensures err.None? ==>
                && Valid() && name in visiting && name !in resolved
                && old(resolved) <= resolved && old(visiting) <= visiting
                && visiting - SetOf(resolved) == SetOf(path) + {name}
                && forall d :: d in deps ==> d in resolved
      ensures err.Some? ==> err.value == CYCLE_PREFIX + Join(diagram, " -> ") && CycleDiagram(images, diagram)
    {
      diagram := [];
      assert SetOf(path + [name]) == SetOf(path) + {name};
      var k := 0;
      while k < |deps|
        invariant 0 <= k <= |deps|
        invariant Valid()
        invariant name in visiting && name !in resolved
        invariant old(resolved) <= resolved && old(visiting) <= visiting
        invariant visiting - SetOf(resolved) == SetOf(path) + {name}
        invariant forall m :: 0 <= m < k ==> deps[m] in resolved
      {
        ChainExtend(images, path + [name], deps[k]);
        NoGrowth(images.Keys, old(visiting), visiting);
        ghost var before := resolved;
        var e;
        e, diagram := Visit(deps[k], path + [name]);
        if e.Some? {
          return e, diagram;
        }
        forall m | 0 <= m < k + 1
          ensures deps[m] in resolved
        {
          if m < k {
            assert deps[m] in before;
          }
        }
        k := k + 1;
      }
      return None, diagram;
    }
  }

  /** Reaching an image already on the path closes a cycle. */
  lemma CycleClosed(images: Images, path: seq<string>, name: string)
    requires Chain(images, path + [name]) && name in SetOf(path)
    ensures CycleDiagram(images, path + [name])
  {
    assert (path + [name])[..|path|] == path;
  }

  /** Resolving the image at the end of the path takes it off the path. */
  lemma LeavePath(resolved: seq<string>, visiting: set<string>, path: seq<string>, name: string)
    requires visiting - SetOf(resolved) == SetOf(path) + {name} && name !in SetOf(path)
    ensures visiting - SetOf(resolved + [name]) == SetOf(path)
  {
    assert SetOf(resolved + [name]) == SetOf(resolved) + {name};
  }

  lemma NothingOnPath(visiting: set<string>, resolved: set<string>)
    requires resolved <= visiting && visiting - resolved == SetOf([])
    ensures visiting == resolved
  {
    assert SetOf([]) == {};
    forall x | x in visiting
      ensures x in resolved
    {
      assert x !in visiting - resolved;
    }
  }

  lemma NoGrowth(keys: set<string>, before: set<string>, after: set<string>)
    requires before <= after
    ensures |keys - after| <= |keys - before|
  {
    var gone := (keys - before) - (keys - after);
    assert keys - before == (keys - after) + gone;
    assert (keys - after) * gone == {};
  }

  lemma Shrinks(keys: set<string>, before: set<string>, after: set<string>, x: string)
    requires before <= after && x in keys && x !in before && x in after
    ensures |keys - after| < |keys - before|
  {
    var gone := (keys - before) - (keys - after);
    assert x in gone;
    assert keys - before == (keys - after) + gone;
    assert (keys - after) * gone == {};
  }

  lemma ChainExtend(images: Images, p: seq<string>, next: string)
    requires Chain(images, p) && |p| >= 1 && next in images[p[|p| - 1]].dependsOn && next in images
    ensures Chain(images, p + [next])
  {
  }

  /** A list of images ordered so that every dependency comes before its dependents. */
  ghost predicate TopologicallySorted(order: seq<Image>)
  {
    && (forall i, j :: 0 <= i < j < |order| ==> order[i].name != order[j].name)
    && (forall i, d :: 0 <= i < |order| && d in order[i].dependsOn ==>
          exists j :: 0 <= j < i && order[j].name == d)
  }

  /**
   * `Repository.resolve_dependencies` (mzbuild.py:1035-1065): targets are
   * visited in name order. On success every image comes once, after all of
   * its dependencies, and every target is there; on failure the message
   * draws a dependency walk that closes a cycle.
   */
  method ResolveDependencies(images: Images, targets: seq<string>) returns (r: Result<seq<Image>, string>, ghost diagram: seq<string>)
    requires Closed(images)
    requires forall t :: t in targets ==> t in images
    ensures r.Ok? ==>
              && TopologicallySorted(r.value)
              && (forall i :: 0 <= i < |r.value| ==> r.value[i].name in images && r.value[i] == images[r.value[i].name])
              && (forall t :: t in targets ==> exists i :: 0 <= i < |r.value| && r.value[i].name == t)
    ensures r.Err? ==> r.error == CYCLE_PREFIX + Join(diagram, " -> ") && CycleDiagram(images, diagram)
  {
    diagram := [];
    var order := Sort(targets);
    var resolver := new Resolver(images);
    var i := 0;
    while i < |order|
      invariant 0 <= i <= |order|
      invariant resolver.images == images && resolver.Valid()
      invariant resolver.visiting == SetOf(resolver.resolved)
      invariant forall m :: 0 <= m < i ==> order[m] in resolver.resolved
    {
      assert order[i] in multiset(targets);
      ghost var before := resolver.resolved;
      var e;
      assert SetOf([]) == {};
      e, diagram := resolver.Visit(order[i], []);
      if e.Some? {
        return Err(e.value), diagram;
      }
      assert Resolving(images, resolver.resolved, resolver.visiting);
      NothingOnPath(resolver.visiting, SetOf(resolver.resolved));
      forall m | 0 <= m < i + 1
        ensures order[m] in resolver.resolved
      {
        if m < i {
          assert order[m] in before;
        }
      }
      i := i + 1;
    }
    var names := resolver.resolved;
    var result := seq(|names|, j requires 0 <= j < |names| => images[names[j]]);
    forall t | t in targets
      ensures exists j :: 0 <= j < |result| && result[j].name == t
    {
      assert t in multiset(order);
      var m :| 0 <= m < |order| && order[m] == t;
      var j :| 0 <= j < |names| && names[j] == t;
      assert result[j].name == t;
    }
    forall j, d | 0 <= j < |result| && d in result[j].dependsOn
      ensures exists l :: 0 <= l < j && result[l].name == d
    {
      assert d in names[..j];
      var l :| 0 <= l < j && names[l] == d;
      assert result[l].name == d;
    }
    return Ok(result), diagram;
  }

  /** Images ranked so that every dependency ranks lower than its dependent. */
  ghost predicate RankedBy(images: Images, rank: map<string, nat>)
  {
    && images.Keys <= rank.Keys
    && forall n, d :: n in images && d in images[n].dependsOn && d in images ==> rank[d] < rank[n]
  }

  lemma {:induction false} ChainDescends(images: Images, rank: map<string, nat>, p: seq<string>, k: nat, l: nat)
    requires RankedBy(images, rank) && Chain(images, p) && k < l < |p|
    ensures rank[p[l]] < rank[p[k]]
    decreases l - k
  {
    if l > k + 1 {
      ChainDescends(images, rank, p, k + 1, l);
    }
  }

  /** A repository whose images can be ranked has no cycle, so resolving its dependencies never fails. */
  lemma RankedHasNoCycle(images: Images, rank: map<string, nat>, p: seq<string>)
    requires RankedBy(images, rank)
    ensures !CycleDiagram(images, p)
  {
    if CycleDiagram(images, p) {
      var k :| 0 <= k < |p| - 1 && p[k] == p[|p| - 1];
      ChainDescends(images, rank, p, k, |p| - 1);
    }
  }

  // ---------------------------------------------------------------------
  // ResolvedImage.list_dependencies
  // ---------------------------------------------------------------------

  /** The position of the first image named `name`, if any. */
  function IndexOfName(order: seq<Image>, name: string): (r: Option<nat>)
    ensures r.Some? ==> r.value < |order| && order[r.value].name == name
                        && forall j :: 0 <= j < r.value ==> order[j].name != name
    ensures r.None? ==> forall j :: 0 <= j < |order| ==> order[j].name != name
  {
    if order == [] then None
    else if order[0].name == name then Some(0)
    else
      match IndexOfName(order[1..], name)
      case None => None
      case Some(j) => Some(j + 1)
  }

  lemma IndexOfEarlier(order: seq<Image>, i: nat, d: string)
    requires TopologicallySorted(order) && i < |order| && d in order[i].dependsOn
    ensures IndexOfName(order, d).Some? && IndexOfName(order, d).value < i
  {
    var j :| 0 <= j < i && order[j].name == d;
  }

  /**
   * `list_dependencies(transitive)` of image `i` of a dependency set
   * (mzbuild.py:694-700): its direct dependencies' names, together with
   * each one's own transitive dependencies when `transitive` is set.
   */
  function ListDependencies(order: seq<Image>, i: nat, transitive: bool): (r: set<string>)
    requires TopologicallySorted(order) && i < |order|
    ensures forall d :: d in order[i].dependsOn ==> d in r
    ensures forall x :: x in r ==> exists j :: 0 <= j < i && order[j].name == x
    decreases i, 1
  {
    DependenciesFrom(order, i, order[i].dependsOn, transitive)
  }

  function DependenciesFrom(order: seq<Image>, i: nat, deps: seq<string>, transitive: bool): (r: set<string>)
    requires TopologicallySorted(order) && i < |order|
    requires forall d :: d in deps ==> d in order[i].dependsOn
    ensures forall d :: d in deps ==> d in r
    ensures forall x :: x in r ==> exists j :: 0 <= j < i && order[j].name == x
    decreases i, 0, |deps|
  {
    if deps == [] then {}
    else
      IndexOfEarlier(order, i, deps[0]);
      var j := IndexOfName(order, deps[0]).value;
      {deps[0]} + (if transitive then ListDependencies(order, j, true) else {})
      + DependenciesFrom(order, i, deps[1..], transitive)
  }

  /** Without `transitive`, the result is exactly the direct dependencies. */
  lemma {:induction false} DirectDependencies(order: seq<Image>, i: nat, deps: seq<string>)
    requires TopologicallySorted(order) && i < |order|
    requires forall d :: d in deps ==> d in order[i].dependsOn
    ensures DependenciesFrom(order, i, deps, false) == SetOf(deps)
    decreases |deps|
  {
    if deps != [] {
      DirectDependencies(order, i, deps[1..]);
      assert SetOf(deps) == {deps[0]} + SetOf(deps[1..]);
    }
  }

  /**
   * The transitive dependencies of image `i` include its direct ones, are
   * closed under dependency, and all come strictly before it, so an image
   * never depends on itself.
   */
  lemma {:induction false} TransitiveDependencies(order: seq<Image>, i: nat)
    requires TopologicallySorted(order) && i < |order|
    ensures ListDependencies(order, i, false) <= ListDependencies(order, i, true)
    ensures forall x :: x in ListDependencies(order, i, true) ==>
              exists j :: 0 <= j < i && order[j].name == x
                          && ListDependencies(order, j, false) <= ListDependencies(order, i, true)
    ensures order[i].name !in ListDependencies(order, i, true)
    decreases i, 1
  {
    TransitiveFrom(order, i, order[i].dependsOn);
  }

  lemma {:induction false} TransitiveFrom(order: seq<Image>, i: nat, deps: seq<string>)
    requires TopologicallySorted(order) && i < |order|
    requires forall d :: d in deps ==> d in order[i].dependsOn
    ensures DependenciesFrom(order, i, deps, false) <= DependenciesFrom(order, i, deps, true)
    ensures forall x :: x in DependenciesFrom(order, i, deps, true) ==>
              exists j :: 0 <= j < i && order[j].name == x
                          && ListDependencies(order, j, false) <= DependenciesFrom(order, i, deps, true)
    decreases i, 0, |deps|
  {
    if deps != [] {
      IndexOfEarlier(order, i, deps[0]);
      var j := IndexOfName(order, deps[0]).value;
      TransitiveDependencies(order, j);
      TransitiveFrom(order, i, deps[1..]);
      var all := DependenciesFrom(order, i, deps, true);
      var below := ListDependencies(order, j, true);
      assert all == {deps[0]} + below + DependenciesFrom(order, i, deps[1..], true);
      forall x | x in all
        ensures exists l :: 0 <= l < i && order[l].name == x && ListDependencies(order, l, false) <= all
      {
        if x == deps[0] {
          assert order[j].name == x && ListDependencies(order, j, false) <= below;
        } else if x in below {
          var l :| 0 <= l < j && order[l].name == x && ListDependencies(order, l, false) <= below;
        } else {
          var l :| 0 <= l < i && order[l].name == x
                   && ListDependencies(order, l, false) <= DependenciesFrom(order, i, deps[1..], true);
        }
      }
    }
  }

  // ---------------------------------------------------------------------
  // Repository discovery
  // ---------------------------------------------------------------------

  /** A directory of the walk: its path, the image its `mzbuild.yml` declares, whether it holds `mzcompose.py`. */
  datatype Directory = Directory(path: string, image: Option<Image>, composition: bool)

  datatype Repository = Repository(images: Images, compositions: map<string, string>)

  /** `Path(path).name`. */
  function BaseName(path: string): string
  {
    LastSegment(path, '/')
  }

  /** The names of the images of a walk. */
  ghost function ImageNames(dirs: seq<Directory>): set<string>
  {
    if dirs == [] then {}
    else
      var last := dirs[|dirs| - 1];
      ImageNames(dirs[..|dirs| - 1]) + (if last.image.Some? then {last.image.value.name} else {})
  }

  /** The names of the compositions of a walk. */
  ghost function CompositionNames(dirs: seq<Directory>): set<string>
  {
    if dirs == [] then {}
    else
      var last := dirs[|dirs| - 1];
      CompositionNames(dirs[..|dirs| - 1]) + (if last.composition then {BaseName(last.path)} else {})
  }

  /**
   * Every image has a non-empty name of allowed characters not used by an
   * earlier image, and every composition a name not used by an earlier one.
   */
  ghost predicate NamesOk(dirs: seq<Directory>)
  {
    if dirs == [] then true
    else
      var init := dirs[..|dirs| - 1];
      var last := dirs[|dirs| - 1];
      && NamesOk(init)
      && (last.image.Some? ==>
            && CheckImageName(last.image.value.name).Ok?
            && last.image.value.name != []
            && last.image.value.name !in ImageNames(init))
      && (last.composition ==> BaseName(last.path) !in CompositionNames(init))
  }

  lemma {:induction false} NamesOkPrefix(dirs: seq<Directory>, k: nat)
    requires NamesOk(dirs) && k <= |dirs|
    ensures NamesOk(dirs[..k])
    decreases |dirs|
  {
    if k < |dirs| {
      assert dirs[..|dirs| - 1][..k] == dirs[..k];
      NamesOkPrefix(dirs[..|dirs| - 1], k);
    } else {
      assert dirs[..k] == dirs;
    }
  }

  ghost function ImagesOf(dirs: seq<Directory>): (m: Images)
    ensures m.Keys == ImageNames(dirs)
    ensures forall n :: n in m ==> m[n].name == n
  {
    if dirs == [] then map[]
    else
      var last := dirs[|dirs| - 1];
      var rest := ImagesOf(dirs[..|dirs| - 1]);
      if last.image.Some? then rest[last.image.value.name := last.image.value] else rest
  }

  ghost function CompositionsOf(dirs: seq<Directory>): (m: map<string, string>)
    ensures m.Keys == CompositionNames(dirs)
  {
    if dirs == [] then map[]
    else
      var last := dirs[|dirs| - 1];
      var rest := CompositionsOf(dirs[..|dirs| - 1]);
      if last.composition then rest[BaseName(last.path) := last.path] else rest
  }

  /**
   * `Repository.__init__` (mzbuild.py:905-955) over the directories of the
   * walk, in walk order: an image with a disallowed character or no name,
   * a second image or composition of one name, or a dependency on an image
   * that does not exist is an error; otherwise every image and composition
   * is filed under its name.
   */
  method Discover(dirs: seq<Directory>) returns (r: Result<Repository, string>)
    ensures r.Ok? <==> NamesOk(dirs) && Closed(ImagesOf(dirs))
    ensures r.Ok? ==> r.value.images == ImagesOf(dirs) && r.value.compositions == CompositionsOf(dirs)
  {
    var images: Images := map[];
    var compositions: map<string, string> := map[];
    var i := 0;
    while i < |dirs|
      invariant 0 <= i <= |dirs|
      invariant NamesOk(dirs[..i])
      invariant images == ImagesOf(dirs[..i]) && compositions == CompositionsOf(dirs[..i])
    {
      WalkStep(dirs, i);
      var filed := File(dirs[i], images, compositions);
      if filed.Err? {
        NotNamesOk(dirs, i + 1);
        return Err(filed.error);
      }
      images, compositions := filed.value.0, filed.value.1;
      i := i + 1;
    }
    assert dirs[..i] == dirs;
    var missing := MissingDependency(images);
    if missing.Some? {
      return Err("image " + missing.value.0 + " depends on non-existent image " + missing.value.1);
    }
    return Ok(Repository(images, compositions));
  }

  /** Whether the names a directory declares are allowed next to those already filed. */
  ghost predicate Fits(d: Directory, images: Images, compositions: map<string, string>)
  {
    && (d.image.Some? ==>
          && CheckImageName(d.image.value.name).Ok?
          && d.image.value.name != []
          && d.image.value.name !in images)
    && (d.composition ==> BaseName(d.path) !in compositions)
  }

  /** One directory of the walk in `Repository.__init__`: file its image, then its composition. */
  method File(d: Directory, images: Images, compositions: map<string, string>)
    returns (r: Result<(Images, map<string, string>), string>)
    ensures r.Ok? <==> Fits(d, images, compositions)
    ensures r.Ok? ==>
              && r.value.0 == (if d.image.Some? then images[d.image.value.name := d.image.value] else images)
              && r.value.1 == (if d.composition then compositions[BaseName(d.path) := d.path] else compositions)
  {
    var filedImages := images;
    if d.image.Some? {
      var image := d.image.value;
      var checked := CheckImageName(image.name);
      if checked.Err? {
        return Err(checked.error);
      } else if image.name == [] {
        return Err("config at " + d.path + " missing name");
      } else if image.name in images {
        return Err("image " + image.name + " exists twice");
      }
      filedImages := images[image.name := image];
    }
    var filedCompositions := compositions;
    if d.composition {
      var name := BaseName(d.path);
      if name in compositions {
        return Err("composition " + name + " exists twice");
      }
      filedCompositions := compositions[name := d.path];
    }
    return Ok((filedImages, filedCompositions));
  }

  /** Extending the walk by one directory, in terms of what was filed so far. */
  lemma WalkStep(dirs: seq<Directory>, i: nat)
    requires i < |dirs|
    ensures var p := dirs[..i + 1]; var d := dirs[i];
            && (NamesOk(p) <==> NamesOk(dirs[..i]) && Fits(d, ImagesOf(dirs[..i]), CompositionsOf(dirs[..i])))
            && ImagesOf(p) == (if d.image.Some? then ImagesOf(dirs[..i])[d.image.value.name := d.image.value] else ImagesOf(dirs[..i]))
            && CompositionsOf(p) == (if d.composition then CompositionsOf(dirs[..i])[BaseName(d.path) := d.path] else CompositionsOf(dirs[..i]))
  {
    var p := dirs[..i + 1];
    assert p[..|p| - 1] == dirs[..i] && p[|p| - 1] == dirs[i];
  }

  lemma NotNamesOk(dirs: seq<Directory>, k: nat)
    requires k <= |dirs| && !NamesOk(dirs[..k])
    ensures !NamesOk(dirs)
  {
    if NamesOk(dirs) {
      NamesOkPrefix(dirs, k);
    }
  }

  /** The dependency check after the walk: some image and a dependency of it that is not an image, if any. */
  method MissingDependency(images: Images) returns (missing: Option<(string, string)>)
    requires forall n :: n in images ==> images[n].name == n
    ensures missing.None? <==> Closed(images)
    ensures missing.Some? ==> missing.value.0 in images && missing.value.1 in images[missing.value.0].dependsOn
                              && missing.value.1 !in images
  {
    var todo := images.Keys;
    while todo != {}
      invariant todo <= images.Keys
      invariant forall n :: n in images && n !in todo ==> forall d :: d in images[n].dependsOn ==> d in images
      decreases |todo|
    {
      var n :| n in todo;
      var deps := images[n].dependsOn;
      var k := 0;
      while k < |deps|
        invariant 0 <= k <= |deps|
        invariant forall m :: 0 <= m < k ==> deps[m] in images
      {
        if deps[k] !in images {
          return Some((n, deps[k]));
        }
        k := k + 1;
      }
      todo := todo - {n};
    }
    return None;
  }
}
