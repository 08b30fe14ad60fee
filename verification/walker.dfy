/**
 * The recursive walk (`loadOne`, `statAndAct`, `scanDir`, index.js): every
 * file found under a root is dispatched, and the values loaded accumulate
 * in one result map keyed by file path. The first error ends the walk.
 */
module Walker {
  import opened Wrappers
  import opened FileTree
  import opened Rules

  /** The file is loaded: its first matching rule has a handler that succeeds on it. */
  ghost predicate Loads<V>(matches: Glob, rules: seq<Rule<V>>, l: Node) {
    l.File? && Dispatch(matches, rules, l.path, l.content).Loaded?
  }

  /** Visiting the entry fails: its stat fails, or the handler chosen for it reports an error. */
  ghost predicate Fails<V>(matches: Glob, rules: seq<Rule<V>>, l: Node) {
    l.Unstattable? || (l.File? && Dispatch(matches, rules, l.path, l.content).Failed?)
  }

  /** The paths that a walk over the entries `ls` loads. */
  ghost function LoadedPaths<V>(matches: Glob, rules: seq<Rule<V>>, ls: seq<Node>): (r: set<string>) {
    set l | l in ls && Loads(matches, rules, l) :: l.path
  }

  /** One non-directory entry: stat it, then dispatch it if it is a file. */
  function Visit<V>(matches: Glob, rules: seq<Rule<V>>, leaf: Node, acc: map<string, V>): (r: Result<map<string, V>, Error>)
    requires !leaf.Dir?
    ensures r.Err? <==> Fails(matches, rules, leaf)
    ensures r.Err? ==> !r.error.InvalidPath?
    ensures r.Ok? ==> forall k :: k != leaf.path ==> (k in r.value <==> k in acc)
    ensures r.Ok? ==> forall k :: k != leaf.path && k in acc ==> r.value[k] == acc[k]
    ensures r.Ok? ==> (leaf.path in r.value <==> leaf.path in acc || Loads(matches, rules, leaf))
    ensures r.Ok? && !Loads(matches, rules, leaf) ==> r.value == acc
    ensures Loads(matches, rules, leaf) ==> r.Ok? && r.value[leaf.path] == Dispatch(matches, rules, leaf.path, leaf.content).value
  {
    match leaf
    case Unstattable(p) => Err(StatFailed(p))
    case File(p, c) =>
      match Dispatch(matches, rules, p, c)
      case Skipped => Ok(acc)
      case Loaded(v) => Ok(acc[p := v])
      case Failed(e) => Err(HandlerFailed(e))
  }

  /** Walk the tree at `n`, adding what it loads to `acc`. */
  function Walk<V>(matches: Glob, rules: seq<Rule<V>>, n: Node, acc: map<string, V>): (r: Result<map<string, V>, Error>)
    ensures r.Err? ==> !r.error.InvalidPath?
    ensures r.Ok? ==> acc.Keys <= r.value.Keys
    decreases n
  {
    if n.Dir? then WalkAll(matches, rules, n.children, acc) else Visit(matches, rules, n, acc)
  }

  /** Walk each of `ns` in turn against one shared result map. */
  function WalkAll<V>(matches: Glob, rules: seq<Rule<V>>, ns: seq<Node>, acc: map<string, V>): (r: Result<map<string, V>, Error>)
    ensures r.Err? ==> !r.error.InvalidPath?
    ensures r.Ok? ==> acc.Keys <= r.value.Keys
    decreases ns
  {
    if ns == [] then Ok(acc)
    else
      match Walk(matches, rules, ns[0], acc)
      case Err(e) => Err(e)
      case Ok(m) => WalkAll(matches, rules, ns[1..], m)
  }

  /**
   * Reference definition: visit the entries of a flat list one after the
   * other, stopping at the first error.
   */
  function FoldLeaves<V>(matches: Glob, rules: seq<Rule<V>>, ls: seq<Node>, acc: map<string, V>): (r: Result<map<string, V>, Error>)
    requires forall l :: l in ls ==> !l.Dir?
    decreases |ls|
  {
    if ls == [] then Ok(acc)
    else
      match Visit(matches, rules, ls[0], acc)
      case Err(e) => Err(e)
      case Ok(m) => FoldLeaves(matches, rules, ls[1..], m)
  }

  /** `acc` overlaid by what a walk from the empty map produced. */
  function Extend<V>(acc: map<string, V>, walked: Result<map<string, V>, Error>): (r: Result<map<string, V>, Error>) {
    match walked
    case Err(e) => Err(e)
    case Ok(m) => Ok(acc + m)
  }

  lemma {:induction false} FoldAppend<V>(matches: Glob, rules: seq<Rule<V>>, a: seq<Node>, b: seq<Node>, acc: map<string, V>)
    requires forall l :: l in a ==> !l.Dir?
    requires forall l :: l in b ==> !l.Dir?
    ensures FoldLeaves(matches, rules, a + b, acc) ==
      match FoldLeaves(matches, rules, a, acc)
      case Err(e) => Err(e)
      case Ok(m) => FoldLeaves(matches, rules, b, m)
    decreases |a|
  {
    if a == [] {
      assert a + b == b;
    } else {
      assert (a + b)[0] == a[0];
      assert (a + b)[1..] == a[1..] + b;
      match Visit(matches, rules, a[0], acc)
      case Err(e) =>
      case Ok(m) =>
        FoldAppend(matches, rules, a[1..], b, m);
    }
  }

  /** The recursive walk visits exactly the leaves of the tree, in order. */
  lemma {:induction false} WalkIsFold<V>(matches: Glob, rules: seq<Rule<V>>, n: Node, acc: map<string, V>)
    ensures Walk(matches, rules, n, acc) == FoldLeaves(matches, rules, Leaves(n), acc)
    decreases n
  {
    if n.Dir? {
      WalkAllIsFold(matches, rules, n.children, acc);
    } else {
      assert Leaves(n) == [n];
      assert Leaves(n)[1..] == [];
    }
  }

  lemma {:induction false} WalkAllIsFold<V>(matches: Glob, rules: seq<Rule<V>>, ns: seq<Node>, acc: map<string, V>)
    ensures WalkAll(matches, rules, ns, acc) == FoldLeaves(matches, rules, LeavesOf(ns), acc)
    decreases ns
  {
    if ns != [] {
      FoldAppend(matches, rules, Leaves(ns[0]), LeavesOf(ns[1..]), acc);
      WalkIsFold(matches, rules, ns[0], acc);
      match Walk(matches, rules, ns[0], acc)
      case Err(e) =>
      case Ok(m) =>
        WalkAllIsFold(matches, rules, ns[1..], m);
    }
  }

  lemma {:induction false} FoldFailsIff<V>(matches: Glob, rules: seq<Rule<V>>, ls: seq<Node>, acc: map<string, V>)
    requires forall l :: l in ls ==> !l.Dir?
    ensures FoldLeaves(matches, rules, ls, acc).Err? <==> exists l :: l in ls && Fails(matches, rules, l)
    decreases |ls|
  {
    if ls != [] {
      assert forall l :: l in ls <==> l == ls[0] || l in ls[1..];
      match Visit(matches, rules, ls[0], acc)
      case Err(e) =>
      case Ok(m) =>
        FoldFailsIff(matches, rules, ls[1..], m);
    }
  }

  lemma {:induction false} FoldFrame<V>(matches: Glob, rules: seq<Rule<V>>, ls: seq<Node>, acc: map<string, V>)
    requires forall l :: l in ls ==> !l.Dir?
    ensures FoldLeaves(matches, rules, ls, acc) == Extend(acc, FoldLeaves(matches, rules, ls, map[]))
    decreases |ls|
  {
    if ls == [] {
      assert acc + map[] == acc;
    } else {
      var l := ls[0];
      var empty: map<string, V> := map[];
      assert Visit(matches, rules, l, acc) == Extend(acc, Visit(matches, rules, l, empty)) by {
        if Loads(matches, rules, l) {
          var v := Dispatch(matches, rules, l.path, l.content).value;
          assert acc[l.path := v] == acc + map[l.path := v];
        } else if !Fails(matches, rules, l) {
          assert acc + empty == acc;
        }
      }
      match Visit(matches, rules, l, empty)
      case Err(e) =>
      case Ok(m1) =>
        FoldFrame(matches, rules, ls[1..], acc + m1);
        FoldFrame(matches, rules, ls[1..], m1);
        match FoldLeaves(matches, rules, ls[1..], empty)
        case Err(e) =>
        case Ok(m) =>
          assert acc + (m1 + m) == (acc + m1) + m;
    }
  }

  lemma {:induction false} FoldKeys<V>(matches: Glob, rules: seq<Rule<V>>, ls: seq<Node>, acc: map<string, V>)
    requires forall l :: l in ls ==> !l.Dir?
    ensures FoldLeaves(matches, rules, ls, acc).Ok? ==>
      FoldLeaves(matches, rules, ls, acc).value.Keys == acc.Keys + LoadedPaths(matches, rules, ls)
    decreases |ls|
  {
    if ls == [] {
      assert LoadedPaths(matches, rules, ls) == {};
    } else {
      var l := ls[0];
      assert forall x :: x in ls <==> x == l || x in ls[1..];
      match Visit(matches, rules, l, acc)
      case Err(e) =>
      case Ok(m1) =>
        FoldKeys(matches, rules, ls[1..], m1);
        var here: set<string> := if Loads(matches, rules, l) then {l.path} else {};
        assert m1.Keys == acc.Keys + here;
        assert LoadedPaths(matches, rules, ls) == here + LoadedPaths(matches, rules, ls[1..]);
    }
  }

  lemma {:induction false} FoldValues<V>(matches: Glob, rules: seq<Rule<V>>, ls: seq<Node>, acc: map<string, V>)
    requires forall l :: l in ls ==> !l.Dir?
    ensures FoldLeaves(matches, rules, ls, acc).Ok? ==>
      var m := FoldLeaves(matches, rules, ls, acc).value;
      forall k :: k in m ==>
        || (exists l :: l in ls && Loads(matches, rules, l) && l.path == k
                        && Dispatch(matches, rules, l.path, l.content) == Loaded(m[k]))
        || (k in acc && m[k] == acc[k] && k !in LoadedPaths(matches, rules, ls))
    decreases |ls|
  {
    if ls != [] {
      var l := ls[0];
      assert forall x :: x in ls <==> x == l || x in ls[1..];
      match Visit(matches, rules, l, acc)
      case Err(e) =>
      case Ok(m1) =>
        FoldValues(matches, rules, ls[1..], m1);
        assert LoadedPaths(matches, rules, ls) ==
          (if Loads(matches, rules, l) then {l.path} else {}) + LoadedPaths(matches, rules, ls[1..]);
    }
  }

  /** Fail fast: the walk fails exactly when some entry under the root fails. */
  lemma WalkFailFast<V>(matches: Glob, rules: seq<Rule<V>>, n: Node, acc: map<string, V>)
    ensures Walk(matches, rules, n, acc).Err? <==> exists l :: l in Leaves(n) && Fails(matches, rules, l)
  {
    WalkIsFold(matches, rules, n, acc);
    FoldFailsIff(matches, rules, Leaves(n), acc);
  }

  /**
   * Walking into a map already holding entries gives those entries overlaid
   * by what the same walk gives from the empty map; errors do not depend on
   * the map at all.
   */
  lemma WalkFromAccumulator<V>(matches: Glob, rules: seq<Rule<V>>, n: Node, acc: map<string, V>)
    ensures Walk(matches, rules, n, acc) == Extend(acc, Walk(matches, rules, n, map[]))
  {
    WalkIsFold(matches, rules, n, acc);
    WalkIsFold(matches, rules, n, map[]);
    FoldFrame(matches, rules, Leaves(n), acc);
  }

  lemma WalkAllFromAccumulator<V>(matches: Glob, rules: seq<Rule<V>>, ns: seq<Node>, acc: map<string, V>)
    ensures WalkAll(matches, rules, ns, acc) == Extend(acc, WalkAll(matches, rules, ns, map[]))
  {
    WalkAllIsFold(matches, rules, ns, acc);
    WalkAllIsFold(matches, rules, ns, map[]);
    FoldFrame(matches, rules, LeavesOf(ns), acc);
  }

  /** A successful walk adds exactly the paths of the files it loads. */
  lemma WalkKeys<V>(matches: Glob, rules: seq<Rule<V>>, n: Node, acc: map<string, V>)
    ensures Walk(matches, rules, n, acc).Ok? ==>
      Walk(matches, rules, n, acc).value.Keys == acc.Keys + LoadedPaths(matches, rules, Leaves(n))
  {
    WalkIsFold(matches, rules, n, acc);
    FoldKeys(matches, rules, Leaves(n), acc);
  }

  /**
   * Every entry of a successful walk from the empty map is the value that the
   * chosen handler produced for a file of that path under the root.
   */
  lemma WalkValues<V>(matches: Glob, rules: seq<Rule<V>>, n: Node)
    ensures Walk(matches, rules, n, map[]).Ok? ==>
      var m := Walk(matches, rules, n, map[]).value;
      forall k :: k in m ==>
        exists l :: l in Leaves(n) && l.File? && l.path == k
                 && Dispatch(matches, rules, l.path, l.content) == Loaded(m[k])
  {
    WalkIsFold(matches, rules, n, map[]);
    FoldValues(matches, rules, Leaves(n), map[]);
  }

  /** Only files become keys: a directory only contributes its children's entries. */
  lemma WalkOnlyFiles<V>(matches: Glob, rules: seq<Rule<V>>, n: Node)
    ensures Walk(matches, rules, n, map[]).Ok? ==> Walk(matches, rules, n, map[]).value.Keys <= FilePaths(n)
  {
    WalkKeys(matches, rules, n, map[]);
  }

  /** A file that no rule matches is skipped: no key, no error. */
  lemma UnmatchedFileIsSkipped<V>(matches: Glob, rules: seq<Rule<V>>, path: string, content: seq<byte>, acc: map<string, V>)
    requires MatchesNone(matches, rules, path)
    ensures Visit(matches, rules, File(path, content), acc) == Ok(acc)
  {
  }

  /**
   * With a rule list whose handlers are all functions, a successful walk
   * indexes exactly the files that some rule's pattern matches.
   */
  lemma AllCallableIndexesMatching<V>(matches: Glob, rules: seq<Rule<V>>, n: Node)
    requires forall i :: 0 <= i < |rules| ==> rules[i].handler.Callable?
    ensures Walk(matches, rules, n, map[]).Ok? ==>
      Walk(matches, rules, n, map[]).value.Keys ==
        set l | l in Leaves(n) && l.File? && MatchesSome(matches, rules, l.path) :: l.path
  {
    if Walk(matches, rules, n, map[]).Ok? {
      WalkKeys(matches, rules, n, map[]);
      WalkFailFast(matches, rules, n, map[]);
      forall l | l in Leaves(n) && l.File?
        ensures Loads(matches, rules, l) <==> MatchesSome(matches, rules, l.path)
      {
        assert !Fails(matches, rules, l);
        var i := FirstMatch(matches, rules, l.path);
        if i.Some? {
          assert IsFirstMatch(matches, rules, l.path, i.value);
        }
      }
    }
  }
}
