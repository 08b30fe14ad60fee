# node-file-index in Dafny

A model of the traversal-and-dispatch engine of `node-file-index`. It covers
`load`, `loadOne`, `statAndAct`, `scanDir` and the fluent `handle` builder in
`index.js`. The model proves the engine's promises about that model:

- **First match wins.** A file is handled by the first rule whose glob matches it.
- **Skips are not errors.** A file that no rule matches is skipped. So is a file
  whose first matching rule has no function handler.
- **Result contents.** Every loaded file adds exactly its own path to the result
  map, and only files become keys.
- **Fail fast.** Any stat or handler error anywhere fails the whole load.
- **Multi-root loads.** A list of roots gives the union of the per-root results.
- **Builder order.** The builder keeps rules in call order.

The filesystem is a pure tree. `Node` is one of:

- `File(path, content)`
- `Dir(path, children)`, where the children's paths are already joined to the
  directory's path
- `Unstattable(path)`, a path whose `fs.stat` reports an error

The walk is sequential. The source fans out with `async.map`. Within one root
every key is a distinct file path, so on success the order of visits within a
root makes no difference. Across the roots of a list, see "## Left out".
On failure the sequential model reports the error of the left-most failing
entry; the source may report any failing entry's error (see "## Left out").
The recursive walk (`Walk`/`WalkAll`) is proved equal to a flat left-to-right
fold over the tree's non-directory entries (`Leaves`). That fold is the
reference definition the other properties are proved against.

Two things stay abstract and are parameters:

- **The glob test.** `matches(path, pattern)` stands for
  `minimatch(path, path.join(path.dirname(path), pattern))`.
- **Handlers.** A rule's handler is either `Callable(run)` or `NotCallable`.
  `run` maps the file's path and content to `Ok(value)` or `Err(cause)`.
  `NotCallable` is anything that is not a function, such as `undefined`.

`load`'s arguments are modelled as data:

- **First argument.** `PathArg` is `OnePath(root)`, `PathList(roots)` or
  `NotAPath`. A path is represented by the tree at that path.
- **Second argument.** `RulesArg` is `RuleList(rules)`, or `CallbackInstead`
  when the callback was passed second.
- **Default rules.** The default rule list is a parameter of `Load`, so the rules
  index.js builds (`DefaultRulesAsWritten`) and the rules it evidently intends
  (`DefaultRules`) can both be stated. See "## Findings".

`Err(InvalidPath)` stands for the exception `load` throws immediately. Every
other result is what `load` passes to its callback.

The builder works on JavaScript arrays that are shared by reference. It is
modelled with an explicit `Store` of rule arrays. A `Chain` (the object
`handle` returns) names the array it closes over. This makes the aliasing
visible: an earlier link of a chain sees the rules pushed through later links.
`load`'s `cloneDeep` snapshot is a plain `seq` value. Later pushes to the
builder's array cannot reach a session that has started.

Two details of the code:

- **Repeated roots.** `load` does not remove repeated roots from a list
  (index.js:25-26): it walks the same root twice into the same map.
  `LoadRepeatedRoot` proves the result is the same as walking it once.
- **Default rules.** The default rules as built load nothing; see
  "## Findings".

## Model

| member | source | states |
|---|---|---|
| `Rules.FirstMatchFrom` | index.js:58-66 | scanning from rule `i`, the index returned is the first rule at or after `i` whose pattern matches; `None` means no rule from `i` on matches |
| `Rules.FirstMatch` | index.js:58-66 | the index returned is a rule that matches and no earlier rule matches; `None` only when no rule matches at all |
| `Rules.FirstMatchIsUnique` | index.js:58-66 | at most one rule is the first match for a path |
| `Rules.Dispatch` | index.js:56-79 | a file is skipped exactly when no rule matches or the first matching rule's handler is not a function, with no fallback to later rules; a load or failure is what the first matching rule's handler returned |
| `Rules.DispatchTwoRules` | index.js:58-79 | with two rules, a file gets the first rule's handler outcome if the first pattern matches, else the second's if the second matches, else it is skipped |
| `Rules.LaterRulesNotConsulted` | index.js:58-66 | rules after the first match are never consulted: any rule list that agrees up to the first match dispatches the file identically |
| `FileTree.Leaves` | index.js:54-92 | the entries a walk reaches are never directories; a directory contributes only its children's entries |
| `FileTree.LeavesOf` | index.js:87-92 | the entries reached from a directory listing are never directories |
| `Walker.Visit` | index.js:49-79 | one entry fails exactly when its stat fails or its chosen handler errs; on success no key other than the entry's path changes, and the path is added exactly when the file is loaded, with the handler's value |
| `Walker.Walk` | index.js:48-85 | a walk never reports the invalid-path error and never removes keys already in the shared map |
| `Walker.WalkAll` | index.js:87-93 | walking a directory listing never reports the invalid-path error and never removes keys already in the shared map |
| `Walker.WalkIsFold` | index.js:48-93 | the recursive walk equals visiting the tree's non-directory entries one after another, children left to right |
| `Walker.WalkAllIsFold` | index.js:87-93 | walking a listing equals visiting the concatenated entries of its members in order |
| `Walker.WalkFailFast` | index.js:41-43 | the walk fails if and only if some entry under the root has a failing stat or a failing handler |
| `Walker.WalkFromAccumulator` | index.js:68-72 | walking into a map that already holds entries gives those entries overlaid by the walk's own result, and the error, if any, does not depend on the map |
| `Walker.WalkAllFromAccumulator` | index.js:87-92 | the same overlay property for a listing of entries walked into one shared map |
| `Walker.WalkKeys` | index.js:68-79 | a successful walk adds exactly the paths of the files it loads to the keys already present |
| `Walker.WalkValues` | index.js:68-72 | every entry of a successful walk is the value the chosen handler produced for a file of that path under the root |
| `Walker.WalkOnlyFiles` | index.js:81-92 | every key of a successful walk is the path of a regular file under the root |
| `Walker.UnmatchedFileIsSkipped` | index.js:75-79 | a file that matches no rule leaves the map unchanged and does not fail |
| `Walker.AllCallableIndexesMatching` | index.js:58-79 | when every rule's handler is a function, a successful walk's keys are exactly the file paths some rule matches |
| `Session.Load` | index.js:13-38 | `load` throws the invalid-path error if and only if the path argument is neither a single path nor a list |
| `Session.LoadSingleFile` | index.js:34 | loading one file whose handler succeeds gives a map holding exactly that file's path and value |
| `Session.CallbackSelectsDefaults` | index.js:15-20 | passing the callback as second argument behaves as passing the default rules as the rule list |
| `Session.RuleListIgnoresDefaults` | index.js:15-20 | when a rule list is given, the session's result does not depend on the default rules: it works on the list given |
| `Session.DefaultRulesAsWritten` | index.js:8-11 | the default rules as built skip every file, whatever the glob test and the file |
| `Session.DefaultRules` | index.js:8-11 | the intended default rules give a `*.json` file the JSON handler's result, any other file `*` accepts the text handler's result, and skip the rest |
| `Session.LoadListStep` | index.js:22-31 | loading a non-empty list is loading its first root, then overlaying the rest of the list's shared-map result on it; an error in the first root fails the load |
| `Session.LoadListIsUnion` | index.js:22-31 | a list of roots succeeds if and only if every root succeeds alone, and its keys are the union of the roots' keys |
| `Session.LoadListValues` | index.js:22-31 | each value of a successful list load is that key's value in the last root whose own load holds the key: the per-root maps overlaid in list order |
| `Session.LoadTwoRoots` | index.js:22-31 | for two roots the result is the first root's map overlaid by the second's, and an error from either fails the load |
| `Session.LoadDisjointRootsSize` | index.js:22-31 | roots with disjoint file paths give as many entries as the two roots separately |
| `Session.LoadRepeatedRoot` | index.js:22-31 | listing a root twice gives the same result as loading it once |
| `Session.DefaultsAsWrittenLoadNothing` | index.js:8-11 | with the default rules as built, a load succeeds exactly when no stat fails, and then yields the empty map |
| `Session.DefaultRulesIndexMatching` | index.js:8-11 | with the intended default rules, a successful load's keys are exactly the file paths matched by `*.json` or `*` |
| `Builder.Handle` | index.js:95-99 | `handle` appends one rule to the given array, or to a fresh one, returns a chain over that array and changes no other array |
| `Builder.ChainHandle` | index.js:101-103 | a chain's `handle` appends to the same array, returns a chain over it and changes no other array |
| `Builder.Create` | index.js:104-106 | `create()` returns one of the stored arrays itself, not a new one |
| `Builder.OneRulePerCall` | index.js:98 | a run of `handle` calls pushes one rule per call, the i-th rule built from the i-th call's pattern and handler |
| `Builder.HandleAll` | index.js:95-107 | a run of chained `handle` calls appends their rules in call order to one array and changes no other |
| `Builder.TwoHandlesInCallOrder` | index.js:95-107 | `handle(p1,h1).handle(p2,h2).create()` is the two rules in call order, and the first link's `create` returns the same array |
| `Builder.LaterPushesExtendSnapshot` | index.js:95-99 | the snapshot a session takes (index.js:20) is the array's value at the moment `load` is called; later `push` calls (index.js:98) only extend the builder's array, and that snapshot stays its prefix |

## Left out

- Real filesystem calls (`fs.stat`, `fs.readdir`, `fs.readFile`): replaced by the `Node` tree and by each handler's `run` function.
- Stat results that are neither a file nor a directory: `statAndAct` never calls back for them, so a load that meets one never completes unless another entry fails. The tree type has no such node.
- The `readdir` error path: `scanDir` ignores the error and hands `files` to `async.map`. What happens then depends on the `async` library, so it is not stated.
- The `async.map` concurrency and callback scheduling: the walk is sequential. `async.map` (index.js:25-31, 89-91) reports whichever entry fails first in time. The model reports the left-most failing entry's error instead: `WalkIsFold`, `LoadTwoRoots` and `LoadListStep` fix that choice. Which error the source reports is not modelled, only that the load fails (`WalkFailFast`, `LoadListIsUnion`).
- Which root's value a key keeps when several roots of a list load it: the model keeps the value from the last such root in list order (`LoadTwoRoots`, `LoadListValues`). The source keeps whichever `results[aPath] = data` (index.js:71) runs last in time, since `async.map` (index.js:25-26) walks the roots concurrently into one map. The two agree when the roots see the same content at a shared path and the handlers are deterministic, as in `LoadRepeatedRoot`.
- `minimatch`, `path.join` and `path.dirname`: foreign library behaviour, abstracted into the `matches` parameter.
- `loadRawFile`, `loadRawUtf8File`, `loadJsonFile`, `JSON.parse` and UTF-8 decoding: handlers are abstract functions returning a value or an error. The model also leaves out one detail of `loadJsonFile`: `JSON.parse` on malformed input throws inside the read callback and does not reach the load's callback.
- `scan`: `test.js` calls it, but `index.js` does not define it, so it is not part of this model.
- Rule lists that are not arrays of rules with string patterns. They fail or not depending on the value, and only once a file is reached. A plain object such as `{}` has no `length`, so the loop at index.js:58 runs zero times and every file is skipped. `null` or `undefined` throws a TypeError when `.length` is read. An element without a string `pattern` throws in `path.join` (index.js:62). In the model, rule lists are `seq`s of rules with string patterns.
- Builder.Create: its contract says only that `create()` returns one of the stored arrays. Which array it returns, and what that array holds, is stated by the contracts of `ChainHandle` and `HandleAll` and by `TwoHandlesInCallOrder`.
- `cloneDeep`: the snapshot is modelled as a value equal to the rule list. lodash keeps functions nested in objects by reference, so the handlers are unchanged.
- The text of the invalid-path exception message.
- Path lists whose elements are not strings: index.js:22 checks only that the argument is an array. Each element then goes to `fs.stat` (index.js:26, 41, 49), which throws a TypeError at once for a value that is not a string, Buffer or URL. So `load([42], rules, cb)` throws out of `load`, but not the invalid-path error of index.js:36. With `load(['a', 42], rules, cb)` the throw comes after `a`'s stat has started. `PathList` holds only trees, so list elements are assumed to be paths.
- The result is a JavaScript plain object (index.js:23, 34), modelled as a `map`. Assigning `results[aPath] = data` (index.js:71) with `aPath` equal to `__proto__` does not store an own key. It calls `Object.prototype`'s `__proto__` setter: a primitive `data` is dropped, and an object `data` becomes the result's prototype. For example, `load('.', …)` on a directory holding a file named `__proto__` whose rule is callable. For that one key, `Visit`, `WalkKeys`, `WalkValues` and `LoadSingleFile` state an entry the source does not create.

## Findings

| source | as written | input that shows it | evidently intended | confidence | as-written member | corrected member |
|---|---|---|---|---|---|---|
| index.js:8-11 | `defaultHandlers` reads `module.exports.loadJsonFile` and `module.exports.loadRawUtf8File` while the module is loading, before lines 119 and 128 assign them. Both handler fields are `undefined`. | `load(dir, callback)` on a directory holding `a.json`: every file matches a rule whose handler is not a function, so the callback gets `{}` | JSON files parsed and all other files read as UTF-8 text | high; not executed | `Session.DefaultsAsWrittenLoadNothing` | `Session.DefaultRulesIndexMatching` |
