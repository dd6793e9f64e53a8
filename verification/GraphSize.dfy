/** The budget of the initial bundle: an entry chunk alone, and all chunks it imports statically. */
module GraphSize {
  import opened Optional

  datatype Output = Asset | Chunk(isEntry: bool, size: nat, imports: seq<string>)

  type Bundle = map<string, Output>

  const INITIAL_ENTRY_MAX_BYTES := 500_000

  const INITIAL_GRAPH_MAX_BYTES := 2_100_000

  predicate IsChunk(bundle: Bundle, name: string) {
    name in bundle && bundle[name].Chunk?
  }

  function Size(bundle: Bundle, name: string): nat {
    if IsChunk(bundle, name) then bundle[name].size else 0
  }

  // ---- what is to be counted ----

  /** A walk along imports; all but its last name are chunks. */
  ghost predicate IsPath(bundle: Bundle, path: seq<string>) {
    path != [] && forall k :: 0 <= k < |path| - 1 ==> IsChunk(bundle, path[k]) && path[k + 1] in bundle[path[k]].imports
  }

  ghost predicate Reaches(bundle: Bundle, entry: string, name: string) {
    exists path :: IsPath(bundle, path) && path[0] == entry && path[|path| - 1] == name
  }

  ghost function ReachableChunks(bundle: Bundle, entry: string): set<string> {
    set name | name in bundle && IsChunk(bundle, name) && Reaches(bundle, entry, name)
  }

  ghost function Total(bundle: Bundle, names: set<string>): nat {
    if names == {} then 0
    else
      var name :| name in names;
      Size(bundle, name) + Total(bundle, names - {name})
  }

  lemma {:induction false} TotalOfOne(bundle: Bundle, names: set<string>, name: string)
    requires name in names
    ensures Total(bundle, names) == Size(bundle, name) + Total(bundle, names - {name})
    decreases names
  {
    var first :| first in names && Total(bundle, names) == Size(bundle, first) + Total(bundle, names - {first});
    if first != name {
      TotalOfOne(bundle, names - {first}, name);
      TotalOfOne(bundle, names - {name}, first);
      assert names - {first} - {name} == names - {name} - {first};
    }
  }

  lemma {:induction false} TotalOfUnion(bundle: Bundle, a: set<string>, b: set<string>)
    requires a !! b
    ensures Total(bundle, a + b) == Total(bundle, a) + Total(bundle, b)
  {
    if a == {} {
      assert a + b == b;
    } else {
      var name :| name in a;
      TotalOfUnion(bundle, a - {name}, b);
      TotalOfOne(bundle, a, name);
      TotalOfOne(bundle, a + b, name);
      assert a + b - {name} == a - {name} + b;
    }
  }

  /** Only chunks weigh anything. */
  lemma {:induction false} TotalOfChunks(bundle: Bundle, names: set<string>)
    ensures Total(bundle, names) == Total(bundle, set name | name in names && IsChunk(bundle, name))
  {
    var chunks := set name | name in names && IsChunk(bundle, name);
    if names == chunks {
    } else {
      var name :| name in names && !IsChunk(bundle, name);
      TotalOfChunks(bundle, names - {name});
      TotalOfOne(bundle, names, name);
      assert chunks == set n | n in names - {name} && IsChunk(bundle, n);
    }
  }

  /** A set that holds the entry and all imports of its chunks holds everything in reach. */
  lemma {:induction false} ClosedHoldsPath(bundle: Bundle, visited: set<string>, path: seq<string>)
    requires IsPath(bundle, path) && path[0] in visited
    requires forall name :: name in visited && IsChunk(bundle, name) ==>
      forall d :: d in bundle[name].imports ==> d in visited
    ensures path[|path| - 1] in visited
  {
    if |path| > 1 {
      ClosedHoldsPath(bundle, visited, path[1..]);
    }
  }

  // ---- the walk ----

  class Walk {
    const bundle: Bundle
    var visited: set<string>

    constructor (bundle: Bundle)
      ensures this.bundle == bundle && visited == {}
    {
      this.bundle := bundle;
      visited := {};
    }

    /** Depth first; a name met before counts nothing. */
    method StaticGraphSize(fileName: string) returns (size: nat)
      modifies this`visited
      ensures old(visited) + {fileName} <= visited
      ensures size == Total(bundle, visited - old(visited))
      ensures forall name :: name in visited - old(visited) ==> Reaches(bundle, fileName, name)
      ensures forall name, d ::
        name in visited - old(visited) && IsChunk(bundle, name) && d in bundle[name].imports ==> d in visited
      decreases bundle.Keys - visited
    {
      if fileName in visited {
        assert visited - old(visited) == {};
        return 0;
      }
      visited := visited + {fileName};
      assert IsPath(bundle, [fileName]);
      assert Reaches(bundle, fileName, fileName);
      assert visited - old(visited) == {fileName};
      TotalOfOne(bundle, {fileName}, fileName);
      if fileName !in bundle || !bundle[fileName].Chunk? {
        return 0;
      }
      var chunk := bundle[fileName];
      size := chunk.size;
      var i := 0;
      while i < |chunk.imports|
        invariant 0 <= i <= |chunk.imports|
        invariant old(visited) + {fileName} <= visited
        invariant size == Total(bundle, visited - old(visited))
        invariant forall name :: name in visited - old(visited) ==> Reaches(bundle, fileName, name)
        invariant forall name, d ::
          name in visited - old(visited) - {fileName} && IsChunk(bundle, name) && d in bundle[name].imports ==>
            d in visited
        invariant forall k :: 0 <= k < i ==> chunk.imports[k] in visited
      {
        ghost var before := visited;
        var more := StaticGraphSize(chunk.imports[i]);
        CountMore(old(visited), before, visited, chunk.imports[i], fileName);
        size := size + more;
        i := i + 1;
      }
    }

    /** The names the call for an import added are new, in reach of the importer, and add up. */
    lemma CountMore(start: set<string>, before: set<string>, after: set<string>, dependency: string, fileName: string)
      requires start <= before <= after
      requires IsChunk(bundle, fileName) && dependency in bundle[fileName].imports
      requires forall name :: name in after - before ==> Reaches(bundle, dependency, name)
      ensures Total(bundle, after - start) == Total(bundle, before - start) + Total(bundle, after - before)
      ensures forall name :: name in after - before ==> Reaches(bundle, fileName, name)
    {
      assert after - start == (before - start) + (after - before);
      TotalOfUnion(bundle, before - start, after - before);
      forall name | name in after - before ensures Reaches(bundle, fileName, name) {
        var path :| IsPath(bundle, path) && path[0] == dependency && path[|path| - 1] == name;
        var longer := [fileName] + path;
        assert IsPath(bundle, longer) && longer[0] == fileName && longer[|longer| - 1] == name;
      }
    }
  }

  /** The walk from an entry, with nothing visited before: every chunk in reach once, nothing else. */
  method GraphSizeOf(bundle: Bundle, entry: string) returns (size: nat)
    ensures size == Total(bundle, ReachableChunks(bundle, entry))
  {
    var walk := new Walk(bundle);
    size := walk.StaticGraphSize(entry);
    ghost var visited := walk.visited;
    assert visited - {} == visited;
    forall name | Reaches(bundle, entry, name) ensures name in visited {
      var path :| IsPath(bundle, path) && path[0] == entry && path[|path| - 1] == name;
      ClosedHoldsPath(bundle, visited, path);
    }
    TotalOfChunks(bundle, visited);
    assert (set name | name in visited && IsChunk(bundle, name)) == ReachableChunks(bundle, entry);
  }

  // ---- the order of imports ----

  /** The same outputs, up to the order and repetition of their imports. */
  ghost predicate SameUpToOrder(a: Bundle, b: Bundle) {
    && a.Keys == b.Keys
    && forall name :: name in a ==>
         && a[name].Chunk? == b[name].Chunk?
         && (a[name].Chunk? ==>
           a[name].size == b[name].size && forall d :: d in a[name].imports <==> d in b[name].imports)
  }

  lemma SameReach(a: Bundle, b: Bundle, entry: string, name: string)
    requires SameUpToOrder(a, b) && Reaches(a, entry, name)
    ensures Reaches(b, entry, name)
  {
    var path :| IsPath(a, path) && path[0] == entry && path[|path| - 1] == name;
    forall k | 0 <= k < |path| - 1 ensures IsChunk(b, path[k]) && path[k + 1] in b[path[k]].imports {
      assert IsChunk(a, path[k]);
    }
    assert IsPath(b, path);
  }

  lemma {:induction false} SameTotal(a: Bundle, b: Bundle, names: set<string>)
    requires SameUpToOrder(a, b)
    ensures Total(a, names) == Total(b, names)
  {
    if names != {} {
      var name :| name in names;
      TotalOfOne(a, names, name);
      TotalOfOne(b, names, name);
      SameTotal(a, b, names - {name});
    }
  }

  lemma OrderDoesNotMatter(a: Bundle, b: Bundle, entry: string)
    requires SameUpToOrder(a, b)
    ensures Total(a, ReachableChunks(a, entry)) == Total(b, ReachableChunks(b, entry))
  {
    forall name | name in a ensures Reaches(a, entry, name) <==> Reaches(b, entry, name) {
      if Reaches(a, entry, name) {
        SameReach(a, b, entry, name);
      }
      if Reaches(b, entry, name) {
        SameReach(b, a, entry, name);
      }
    }
    assert ReachableChunks(a, entry) == ReachableChunks(b, entry);
    SameTotal(a, b, ReachableChunks(a, entry));
  }

  // ---- the check of a build ----

  datatype Excess = EntryTooLarge(fileName: string, size: nat) | GraphTooLarge(fileName: string, size: nat)

  ghost predicate WithinBudget(bundle: Bundle, name: string) {
    IsChunk(bundle, name) && bundle[name].isEntry ==>
      && bundle[name].size <= INITIAL_ENTRY_MAX_BYTES
      && Total(bundle, ReachableChunks(bundle, name)) <= INITIAL_GRAPH_MAX_BYTES
  }

  /** The reported entry is one, and is as large as reported, which is too large. */
  ghost predicate IsExcess(bundle: Bundle, excess: Excess) {
    && IsChunk(bundle, excess.fileName) && bundle[excess.fileName].isEntry
    && if excess.EntryTooLarge? then excess.size == bundle[excess.fileName].size > INITIAL_ENTRY_MAX_BYTES
       else excess.size == Total(bundle, ReachableChunks(bundle, excess.fileName)) > INITIAL_GRAPH_MAX_BYTES
  }

  /** Outputs in bundle order; the first excess ends the build. */
  method GenerateBundle(bundle: Bundle, order: seq<string>) returns (excess: Option<Excess>)
    requires forall name :: name in bundle <==> name in order
    ensures excess.None? <==> forall name :: name in bundle && bundle[name].Chunk? && bundle[name].isEntry ==>
      bundle[name].size <= INITIAL_ENTRY_MAX_BYTES
      && Total(bundle, ReachableChunks(bundle, name)) <= INITIAL_GRAPH_MAX_BYTES
    ensures excess.Some? ==> IsExcess(bundle, excess.value)
  {
    for i := 0 to |order|
      invariant forall k :: 0 <= k < i ==> WithinBudget(bundle, order[k])
    {
      var name := order[i];
      var output := bundle[name];
      if !output.Chunk? || !output.isEntry {
        continue;
      }
      if output.size > INITIAL_ENTRY_MAX_BYTES {
        assert !WithinBudget(bundle, name);
        return Some(EntryTooLarge(name, output.size));
      }
      var size := GraphSizeOf(bundle, name);
      if size > INITIAL_GRAPH_MAX_BYTES {
        assert !WithinBudget(bundle, name);
        return Some(GraphTooLarge(name, size));
      }
    }
    return None;
  }
}
