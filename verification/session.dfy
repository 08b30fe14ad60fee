/**
 * The session entry point `load` (index.js): pick the rule list, snapshot
 * it, then walk one root or every root of a list into one shared map.
 */
module Session {
  import opened Wrappers
  import opened FileTree
  import opened Rules
  import opened Walker

  /**
   * The first argument of `load`: a string, an array of strings, or anything
   * else. A path is represented by the tree the filesystem holds at it.
   */
  datatype PathArg = OnePath(root: Node) | PathList(roots: seq<Node>) | NotAPath

  /** The second argument of `load`: a rule list, or the callback itself. */
  datatype RulesArg<V> = RuleList(rules: seq<Rule<V>>) | CallbackInstead

  /**
   * The default rules as index.js builds them: the array is filled while the
   * module is being loaded, before `loadJsonFile` and `loadRawUtf8File` are
   * assigned, so both handler fields are `undefined`.
   */
  function DefaultRulesAsWritten<V>(): (r: seq<Rule<V>>)
    ensures forall matches: Glob, path: string, content: seq<byte> ::
      Dispatch(matches, r, path, content) == Skipped
  {
    [Rule("*.json", NotCallable), Rule("*", NotCallable)]
  }

  /**
   * How the intended default rules treat a file: `*.json` files get the JSON
   * handler's outcome, any other file `*` accepts gets the text handler's,
   * and the rest are skipped.
   */
  ghost predicate DispatchesAsDefaults<V>(r: seq<Rule<V>>,
                                          json: (string, seq<byte>) -> Result<V, string>,
                                          raw: (string, seq<byte>) -> Result<V, string>) {
    forall matches: Glob, path: string, content: seq<byte> ::
      Dispatch(matches, r, path, content) ==
        if matches(path, "*.json") then OutcomeOf(json(path, content))
        else if matches(path, "*") then OutcomeOf(raw(path, content))
        else Skipped
  }

  /** The default rules as intended: JSON files parsed, everything else read as text. */
  function DefaultRules<V>(json: (string, seq<byte>) -> Result<V, string>,
                           raw: (string, seq<byte>) -> Result<V, string>): (r: seq<Rule<V>>)
    ensures DispatchesAsDefaults(r, json, raw)
  {
    var r := [Rule("*.json", Callable(json)), Rule("*", Callable(raw))];
    assert DispatchesAsDefaults(r, json, raw) by {
      forall matches: Glob, path: string, content: seq<byte> {
        DispatchTwoRules(matches, r, path, content);
      }
    }
    r
  }

  /**
   * The rule list a session works on: the defaults when the callback is
   * passed in second position, otherwise (a deep copy of) the list given.
   */
  function SessionRules<V>(arg: RulesArg<V>, defaults: seq<Rule<V>>): (r: seq<Rule<V>>) {
    match arg
    case CallbackInstead => defaults
    case RuleList(rules) => rules
  }

  /**
   * One `load` call. `Err(InvalidPath)` is what `load` throws at once; every
   * other outcome is what it hands to its callback.
   */
  function Load<V>(matches: Glob, paths: PathArg, arg: RulesArg<V>, defaults: seq<Rule<V>>): (r: Result<map<string, V>, Error>)
    ensures (r.Err? && r.error.InvalidPath?) <==> paths.NotAPath?
  {
    var rules := SessionRules(arg, defaults);
    match paths
    case NotAPath => Err(InvalidPath)
    case OnePath(root) => Walk(matches, rules, root, map[])
    case PathList(roots) => WalkAll(matches, rules, roots, map[])
  }

  /**
   * Loading a single file whose chosen handler succeeds gives a map with
   * exactly that one entry.
   */
  lemma LoadSingleFile<V>(matches: Glob, path: string, content: seq<byte>, rules: seq<Rule<V>>, v: V)
    requires Dispatch(matches, rules, path, content) == Loaded(v)
    ensures Load(matches, OnePath(File(path, content)), RuleList(rules), []) == Ok(map[path := v])
  {
  }

  /** With a rule list given, the defaults play no part in the session. */
  lemma RuleListIgnoresDefaults<V>(matches: Glob, paths: PathArg, rules: seq<Rule<V>>,
                                   defaults: seq<Rule<V>>, defaults': seq<Rule<V>>)
    ensures Load(matches, paths, RuleList(rules), defaults) == Load(matches, paths, RuleList(rules), defaults')
  {
  }

  /** Passing the callback second is the same as passing the defaults as the rule list. */
  lemma CallbackSelectsDefaults<V>(matches: Glob, paths: PathArg, defaults: seq<Rule<V>>)
    ensures Load(matches, paths, CallbackInstead, defaults) == Load(matches, paths, RuleList(defaults), [])
  {
  }

  /** Loading a non-empty list: the first root, then the rest overlaid on it. */
  lemma LoadListStep<V>(matches: Glob, roots: seq<Node>, arg: RulesArg<V>, defaults: seq<Rule<V>>)
    requires roots != []
    ensures Load(matches, PathList(roots), arg, defaults) ==
      match Load(matches, OnePath(roots[0]), arg, defaults)
      case Err(e) => Err(e)
      case Ok(a) => Extend(a, Load(matches, PathList(roots[1..]), arg, defaults))
  {
    var rules := SessionRules(arg, defaults);
    match Walk(matches, rules, roots[0], map[])
    case Err(e) =>
    case Ok(a) =>
      WalkAllFromAccumulator(matches, rules, roots[1..], a);
  }

  /**
   * A list of roots fills one map: the session succeeds exactly when every
   * root would succeed on its own, and then holds the union of their keys.
   */
  lemma {:induction false} LoadListIsUnion<V>(matches: Glob, roots: seq<Node>, arg: RulesArg<V>, defaults: seq<Rule<V>>)
    ensures Load(matches, PathList(roots), arg, defaults).Ok? <==>
      forall i :: 0 <= i < |roots| ==> Load(matches, OnePath(roots[i]), arg, defaults).Ok?
    ensures Load(matches, PathList(roots), arg, defaults).Ok? ==>
      forall k :: k in Load(matches, PathList(roots), arg, defaults).value <==>
        exists i :: 0 <= i < |roots| && k in Load(matches, OnePath(roots[i]), arg, defaults).value
    decreases |roots|
  {
    if roots != [] {
      LoadListStep(matches, roots, arg, defaults);
      LoadListIsUnion(matches, roots[1..], arg, defaults);
      assert forall i :: 0 < i < |roots| ==> roots[i] == roots[1..][i - 1];
      if Load(matches, PathList(roots), arg, defaults).Ok? {
        var m := Load(matches, PathList(roots), arg, defaults).value;
        var a := Load(matches, OnePath(roots[0]), arg, defaults).value;
        forall k
          ensures k in m <==> exists i :: 0 <= i < |roots| && k in Load(matches, OnePath(roots[i]), arg, defaults).value
        {
          if k in m && k !in a {
            var j :| 0 <= j < |roots[1..]| && k in Load(matches, OnePath(roots[1..][j]), arg, defaults).value;
            assert k in Load(matches, OnePath(roots[j + 1]), arg, defaults).value;
          }
          if exists i :: 0 <= i < |roots| && k in Load(matches, OnePath(roots[i]), arg, defaults).value {
            var i :| 0 <= i < |roots| && k in Load(matches, OnePath(roots[i]), arg, defaults).value;
            if i > 0 {
              assert k in Load(matches, OnePath(roots[1..][i - 1]), arg, defaults).value;
            }
          }
        }
      }
    }
  }

  /**
   * Root `i` is the last root of the list whose own load holds key `k`: the
   * one whose value for `k` survives in the shared map.
   */
  ghost predicate LastRootWith<V>(matches: Glob, roots: seq<Node>, arg: RulesArg<V>, defaults: seq<Rule<V>>, k: string, i: int) {
    && 0 <= i < |roots|
    && Load(matches, OnePath(roots[i]), arg, defaults).Ok?
    && k in Load(matches, OnePath(roots[i]), arg, defaults).value
    && forall j :: i < j < |roots| && Load(matches, OnePath(roots[j]), arg, defaults).Ok? ==>
         k !in Load(matches, OnePath(roots[j]), arg, defaults).value
  }

  /**
   * The values of a list load are the per-root maps overlaid in list order:
   * each key has the value of the last root whose own load holds it.
   */
  lemma {:induction false} LoadListValues<V>(matches: Glob, roots: seq<Node>, arg: RulesArg<V>, defaults: seq<Rule<V>>)
    ensures Load(matches, PathList(roots), arg, defaults).Ok? ==>
      var m := Load(matches, PathList(roots), arg, defaults).value;
      forall k :: k in m ==>
        exists i :: LastRootWith(matches, roots, arg, defaults, k, i)
                 && m[k] == Load(matches, OnePath(roots[i]), arg, defaults).value[k]
    decreases |roots|
  {
    if roots != [] && Load(matches, PathList(roots), arg, defaults).Ok? {
      LoadListStep(matches, roots, arg, defaults);
      LoadListValues(matches, roots[1..], arg, defaults);
      LoadListIsUnion(matches, roots[1..], arg, defaults);
      var m := Load(matches, PathList(roots), arg, defaults).value;
      var a := Load(matches, OnePath(roots[0]), arg, defaults).value;
      var rest := Load(matches, PathList(roots[1..]), arg, defaults).value;
      assert m == a + rest;
      forall k | k in m
        ensures exists i :: LastRootWith(matches, roots, arg, defaults, k, i)
                         && m[k] == Load(matches, OnePath(roots[i]), arg, defaults).value[k]
      {
        if k in rest {
          var i' :| LastRootWith(matches, roots[1..], arg, defaults, k, i')
                 && rest[k] == Load(matches, OnePath(roots[1..][i']), arg, defaults).value[k];
          assert roots[1..][i'] == roots[i' + 1];
          forall j | i' + 1 < j < |roots|
            ensures roots[j] == roots[1..][j - 1]
          {
          }
          assert LastRootWith(matches, roots, arg, defaults, k, i' + 1);
        } else {
          forall j | 0 < j < |roots| && Load(matches, OnePath(roots[j]), arg, defaults).Ok?
            ensures k !in Load(matches, OnePath(roots[j]), arg, defaults).value
          {
            assert roots[1..][j - 1] == roots[j];
          }
          assert LastRootWith(matches, roots, arg, defaults, k, 0);
        }
      }
    }
  }

  /** Two roots: the result is the first root's map overlaid by the second's. */
  lemma LoadTwoRoots<V>(matches: Glob, a: Node, b: Node, arg: RulesArg<V>, defaults: seq<Rule<V>>)
    ensures Load(matches, PathList([a, b]), arg, defaults) ==
      match Load(matches, OnePath(a), arg, defaults)
      case Err(e) => Err(e)
      case Ok(ma) =>
        match Load(matches, OnePath(b), arg, defaults)
        case Err(e) => Err(e)
        case Ok(mb) => Ok(ma + mb)
  {
    var rules := SessionRules(arg, defaults);
    assert [a, b][1..] == [b];
    match Walk(matches, rules, a, map[])
    case Err(e) =>
    case Ok(ma) =>
      WalkFromAccumulator(matches, rules, b, ma);
      assert WalkAll(matches, rules, [a, b], map[]) == WalkAll(matches, rules, [b], ma);
      match Walk(matches, rules, b, ma)
      case Err(e) =>
      case Ok(m) =>
        assert [b][1..] == [];
        assert WalkAll(matches, rules, [b], ma) == WalkAll(matches, rules, [], m);
  }

  /** Roots holding disjoint sets of files give as many entries as both apart. */
  lemma LoadDisjointRootsSize<V>(matches: Glob, a: Node, b: Node, arg: RulesArg<V>, defaults: seq<Rule<V>>)
    requires FilePaths(a) !! FilePaths(b)
    ensures Load(matches, PathList([a, b]), arg, defaults).Ok? ==>
      && Load(matches, OnePath(a), arg, defaults).Ok?
      && Load(matches, OnePath(b), arg, defaults).Ok?
      && |Load(matches, PathList([a, b]), arg, defaults).value| ==
        |Load(matches, OnePath(a), arg, defaults).value| + |Load(matches, OnePath(b), arg, defaults).value|
  {
    var rules := SessionRules(arg, defaults);
    LoadTwoRoots(matches, a, b, arg, defaults);
    if Load(matches, PathList([a, b]), arg, defaults).Ok? {
      var ma := Load(matches, OnePath(a), arg, defaults).value;
      var mb := Load(matches, OnePath(b), arg, defaults).value;
      WalkOnlyFiles(matches, rules, a);
      WalkOnlyFiles(matches, rules, b);
      assert ma.Keys !! mb.Keys;
      assert (ma + mb).Keys == ma.Keys + mb.Keys;
      assert |ma.Keys + mb.Keys| == |ma.Keys| + |mb.Keys|;
    }
  }

  /** Listing a root twice rewrites the same keys with the same values. */
  lemma LoadRepeatedRoot<V>(matches: Glob, a: Node, arg: RulesArg<V>, defaults: seq<Rule<V>>)
    ensures Load(matches, PathList([a, a]), arg, defaults) == Load(matches, OnePath(a), arg, defaults)
  {
    LoadTwoRoots(matches, a, a, arg, defaults);
    match Load(matches, OnePath(a), arg, defaults)
    case Err(e) =>
    case Ok(m) =>
      assert m + m == m;
  }

  /**
   * The defaults as written load nothing: a session that relies on them
   * succeeds with an empty map unless some stat fails.
   */
  lemma DefaultsAsWrittenLoadNothing<V>(matches: Glob, root: Node)
    ensures Load(matches, OnePath(root), CallbackInstead, DefaultRulesAsWritten<V>()).Ok? <==>
      forall l :: l in Leaves(root) ==> !l.Unstattable?
    ensures Load(matches, OnePath(root), CallbackInstead, DefaultRulesAsWritten<V>()).Ok? ==>
      Load(matches, OnePath(root), CallbackInstead, DefaultRulesAsWritten<V>()).value == map[]
  {
    var rules := DefaultRulesAsWritten<V>();
    forall l | l in Leaves(root) && l.File?
      ensures !Loads(matches, rules, l) && !Fails(matches, rules, l)
    {
      var d := Dispatch(matches, rules, l.path, l.content);
      assert d.Skipped?;
    }
    WalkFailFast(matches, rules, root, map[]);
    WalkKeys(matches, rules, root, map[]);
    if Load(matches, OnePath(root), CallbackInstead, rules).Ok? {
      var m := Load(matches, OnePath(root), CallbackInstead, rules).value;
      assert LoadedPaths(matches, rules, Leaves(root)) == {};
      assert m.Keys == {};
      assert m == map[];
    }
  }

  /**
   * The intended defaults index every file that `*.json` or `*` accepts, once
   * no stat and no handler fails.
   */
  lemma DefaultRulesIndexMatching<V>(matches: Glob, root: Node,
                                     json: (string, seq<byte>) -> Result<V, string>,
                                     raw: (string, seq<byte>) -> Result<V, string>)
    ensures Load(matches, OnePath(root), CallbackInstead, DefaultRules(json, raw)).Ok? ==>
      Load(matches, OnePath(root), CallbackInstead, DefaultRules(json, raw)).value.Keys ==
        set l | l in Leaves(root) && l.File? && (matches(l.path, "*.json") || matches(l.path, "*")) :: l.path
  {
    var rules := DefaultRules(json, raw);
    AllCallableIndexesMatching(matches, rules, root);
    forall p: string
      ensures MatchesSome(matches, rules, p) <==> matches(p, "*.json") || matches(p, "*")
    {
      if matches(p, "*.json") {
        assert matches(p, rules[0].pattern);
      } else if matches(p, "*") {
        assert matches(p, rules[1].pattern);
      }
    }
  }
}
