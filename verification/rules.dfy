/**
 * First-match dispatch of one file against an ordered rule list
 * (`statAndAct`'s file branch, index.js).
 */
module Rules {
  import opened Wrappers
  import opened FileTree

  /**
   * `matches(path, pattern)` stands for
   * `minimatch(path, path.join(path.dirname(path), pattern))`: whether the
   * pattern, anchored in the file's own directory, accepts the file.
   */
  type Glob = (string, string) -> bool

  /**
   * A rule's handler field: a function that turns the file at a path (whose
   * content it reads) into a value or an error, or anything that is not a
   * function (`undefined`, say).
   */
  datatype Handler<V> =
    | Callable(run: (string, seq<byte>) -> Result<V, string>)
    | NotCallable

  datatype Rule<V> = Rule(pattern: string, handler: Handler<V>)

  /** Rule `i` is the first rule whose pattern matches `path`. */
  ghost predicate IsFirstMatch<V>(matches: Glob, rules: seq<Rule<V>>, path: string, i: int) {
    && 0 <= i < |rules|
    && matches(path, rules[i].pattern)
    && forall j :: 0 <= j < i ==> !matches(path, rules[j].pattern)
  }

  ghost predicate MatchesNone<V>(matches: Glob, rules: seq<Rule<V>>, path: string) {
    forall j :: 0 <= j < |rules| ==> !matches(path, rules[j].pattern)
  }

  ghost predicate MatchesSome<V>(matches: Glob, rules: seq<Rule<V>>, path: string) {
    exists j :: 0 <= j < |rules| && matches(path, rules[j].pattern)
  }

  /** Scan the rules from index `i` on and stop at the first that matches. */
  function FirstMatchFrom<V>(matches: Glob, rules: seq<Rule<V>>, path: string, i: nat): (r: Option<nat>)
    requires i <= |rules|
    ensures r.Some? ==> i <= r.value < |rules| && matches(path, rules[r.value].pattern)
    ensures r.Some? ==> forall j :: i <= j < r.value ==> !matches(path, rules[j].pattern)
    ensures r.None? ==> forall j :: i <= j < |rules| ==> !matches(path, rules[j].pattern)
    decreases |rules| - i
  {
    if i == |rules| then None
    else if matches(path, rules[i].pattern) then Some(i)
    else FirstMatchFrom(matches, rules, path, i + 1)
  }

  /** The index of the rule that decides `path`, if any rule matches it. */
  function FirstMatch<V>(matches: Glob, rules: seq<Rule<V>>, path: string): (r: Option<nat>)
    ensures r.Some? ==> IsFirstMatch(matches, rules, path, r.value)
    ensures r.None? ==> MatchesNone(matches, rules, path)
  {
    FirstMatchFrom(matches, rules, path, 0)
  }

  /** At most one rule is the first match. */
  lemma FirstMatchIsUnique<V>(matches: Glob, rules: seq<Rule<V>>, path: string, i: int, j: int)
    requires IsFirstMatch(matches, rules, path, i)
    requires IsFirstMatch(matches, rules, path, j)
    ensures i == j
  {
  }

  /** What happens to one file: skipped, loaded to a value, or failed. */
  datatype Outcome<V> = Skipped | Loaded(value: V) | Failed(cause: string)

  /** A handler's result as a dispatch outcome. */
  function OutcomeOf<V>(result: Result<V, string>): (r: Outcome<V>) {
    match result
    case Ok(v) => Loaded(v)
    case Err(e) => Failed(e)
  }

  /** What the chosen handler does with a file: call it when it is a function, skip otherwise. */
  function HandlerOutcome<V>(handler: Handler<V>, path: string, content: seq<byte>): (r: Outcome<V>) {
    match handler
    case NotCallable => Skipped
    case Callable(run) => OutcomeOf(run(path, content))
  }

  /**
   * Dispatch one file: find the first matching rule; call its handler when it
   * is a function; otherwise, or when no rule matches, skip the file.
   */
  function Dispatch<V>(matches: Glob, rules: seq<Rule<V>>, path: string, content: seq<byte>): (r: Outcome<V>)
    ensures r.Skipped? <==>
      || MatchesNone(matches, rules, path)
      || exists i :: IsFirstMatch(matches, rules, path, i) && rules[i].handler.NotCallable?
    ensures r.Loaded? ==>
      exists i :: IsFirstMatch(matches, rules, path, i) && rules[i].handler.Callable?
        && rules[i].handler.run(path, content) == Ok(r.value)
    ensures r.Failed? ==>
      exists i :: IsFirstMatch(matches, rules, path, i) && rules[i].handler.Callable?
        && rules[i].handler.run(path, content) == Err(r.cause)
  {
    match FirstMatch(matches, rules, path)
    case None => Skipped
    case Some(i) => HandlerOutcome(rules[i].handler, path, content)
  }

  /** A two-rule list: the first rule if it matches, else the second if it matches, else a skip. */
  lemma DispatchTwoRules<V>(matches: Glob, rules: seq<Rule<V>>, path: string, content: seq<byte>)
    requires |rules| == 2
    ensures Dispatch(matches, rules, path, content) ==
      if matches(path, rules[0].pattern) then HandlerOutcome(rules[0].handler, path, content)
      else if matches(path, rules[1].pattern) then HandlerOutcome(rules[1].handler, path, content)
      else Skipped
  {
  }

  /**
   * Rules after the first match are never consulted: any rule list that
   * agrees with `rules` up to and including the first match dispatches the
   * file the same way.
   */
  lemma LaterRulesNotConsulted<V>(matches: Glob, rules: seq<Rule<V>>, rules': seq<Rule<V>>,
                                  path: string, content: seq<byte>, i: nat)
    requires IsFirstMatch(matches, rules, path, i)
    requires i < |rules'| && rules'[..i + 1] == rules[..i + 1]
    ensures Dispatch(matches, rules', path, content) == Dispatch(matches, rules, path, content)
  {
  }
}
