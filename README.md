# tempaw-build core, modelled in Dafny

tempaw-build is a gulp build layer. Each action builder of `action.js`
(`copy`, `clean`, `minifyimg`, `del`, `pug`, `sass`, `transform`, `json`,
`zip`, `mkdirp`) does three things to the caller's `data` object:

- it checks the fields it needs;
- it attaches an `execute` function that carries a `displayName`;
- it returns the same object.

`index.js`'s `set` turns an array of such actions into the array of
functions the task runner calls. Two helpers from `util.js` are used:

- `tag` reads a value's built-in class name;
- `merge` is a recursive in-place deep merge. `copy` uses it to default its
  `opts`.

The `del` action also rewrites file contents. It removes marker-delimited
spans with two global regular-expression replaces.

The project has five modules:

- `Util` (util.dfy) holds JavaScript values as finite trees: `typeof`,
  truthiness, `instanceof`, arrays as objects with index keys. It also
  holds `tag`, and `merge` as a pure function that returns the merged value
  or the TypeError it throws.
- `MergeHeap` (merge_heap.dfy) is the in-place `merge` on a heap of objects
  (`JsObject`). It is proved to leave `source` in exactly the state the pure
  `Util.Merge` describes, and to throw exactly when `Util.Merge` reports an
  error.
- `MarkerStrip` (strip.dfy) models the two replaces of `del` as they
  execute:
  - greedy `\s*`;
  - lazy `.*?` that stops at line terminators;
  - `[^\v]*?`;
  - leftmost, global, non-overlapping matches.

  Each match function is proved sound and complete against a declarative
  description of what the pattern matches, and pass 1's match is proved to
  end at the earliest end any such description allows (the lazy
  quantifiers).
- `Action` (action.dfy) holds the builders. Their required-field test,
  messages and `displayName` are modelled, as is the descriptor they leave
  in `data`. `execute` is modelled as the sequence of stream stages it sets
  up, with the `dest` dispatch. The in-place `Build`, `RunExecute` and the
  `forEach` over `dest` are methods proved against these functions.
- `Tasks` (tasks.dfy) holds `set` as a `forEach` loop, proved against a
  function of the array's elements.

`merge`'s doc comment (util.js:15-20) says nothing of errors, but the code
throws a TypeError. Its test `typeof source[key] !== 'object'` (util.js:24)
lets `null` through, and the nested call then assigns a property of `null`.
This is modelled as `Err(PropertyOfNull)` and is characterised by
`MergeThrowsOnNull` and `MergeNullFreeSucceeds`. The marker of `del` is
documented (action.js:148) as digits, upper-case letters and `_`, but the
code does not check it.

## Model

| member | source | states |
|---|---|---|
| Util.Tag | util.js:11-13 | "Object" exactly for plain objects, "Array" exactly for arrays, "Function" exactly for functions |
| Util.Typeof | util.js:24 | `typeof` is "object" exactly for null and objects (arrays included), "function" exactly for functions |
| Util.Prepared | util.js:24 | null, arrays and every other object at `source[key]` are kept as they are; undefined, primitives and functions are replaced by `{}`; either way the result is typeof "object" |
| Util.MergeKeepsExistingObject | util.js:24-25 | an object already at `source[key]` (an array, a Date, a plain object) is merged into, not replaced: it keeps its class and every property the incoming plain object does not name |
| Util.Merge | util.js:21-32 | a successful merge keeps the object's class; merging into null succeeds only when `merged` has no keys |
| Util.MergeAtKey | util.js:22-29 | the result's keys are the union of both key sets; keys absent from `merged` keep their value; a non-plain incoming value replaces; a plain one is the nested merge into `source[key]` (or into `{}`) |
| Util.MergeIntoEmptyCopies | util.js:24-25 | merging a plain object into a fresh `{}` gives a value equal to it (a deep copy) |
| Util.MergeOverNonObjects | util.js:22-29 | when no plain incoming value meets an object-typed current value, merge is the shallow overlay `source + merged`, and it does not throw |
| Util.MergeNothing | util.js:22-31 | merging an object without enumerable keys returns `source` unchanged |
| Util.MergeIdempotent | util.js:21-32 | `merge(merge(A, B), B)` equals `merge(A, B)` |
| Util.MergeThrowsOnNull | util.js:24-25 | a plain non-empty incoming object over a `null` property makes merge throw |
| Util.MergeNullFreeSucceeds | util.js:24-25 | a source with no nested null never makes merge throw, whatever is merged into it |
| Util.MergeOneKey | util.js:21-32 | merging an object with a single key `k` whose step does not throw changes `source[k]` only, to that step's value |
| Util.MergeNestedExample | util.js:21-32 | `merge({a:1, b:{x:1}}, {b:{y:2}})` is `{a:1, b:{x:1, y:2}}` |
| Util.MergeReplaceExample | util.js:27 | `merge({a:{x:1}}, {a:5})` is `{a:5}` |
| Util.DenseElements | index.js:15 | for an array without holes, `forEach` visits exactly `length` elements, the i-th being property "i" |
| MergeHeap.JsObject.Init | util.js:24 | `{}` is a new, well-formed object with no properties |
| MergeHeap.JsObject.SetPrim | util.js:27 | `source[key] = value` for a non-object value changes that one property and keeps the object tree well formed |
| MergeHeap.JsObject.SetRef | util.js:27 | `source[key] = obj` for an object not yet owned makes `source[key]` denote that object's value and adds its objects to the tree |
| MergeHeap.JsObject.Detach | util.js:25 | the object at `source[key]` is taken out of the tree unchanged, so that the nested merge can update it without touching the rest of `source` |
| MergeHeap.Assign | util.js:27 | `source[key] = merged[key]` for a non-plain value: afterwards `source[key]` denotes exactly that value and nothing else changes |
| MergeHeap.FromValue | util.js:27 | a non-plain incoming object stored at a key denotes the same value as the incoming one |
| MergeHeap.Merge | util.js:21-32 | the in-place merge returns `source` itself; it throws exactly when `Util.Merge` errs, and otherwise leaves `source` denoting `Util.Merge`'s result |
| MergeHeap.MergeKey | util.js:23-28 | one loop iteration throws exactly when that key's step throws, and otherwise updates only `source[key]`, to the step's value |
| MergeHeap.MergePlainKey | util.js:24-25 | a plain incoming value is merged into `source[key]`, which is first replaced by `{}` unless it is typeof "object"; on null it throws exactly when there is a key to assign |
| MergeHeap.MergeIntoProperty | util.js:25 | a nested object is merged where it stands, and the parent then holds the nested merge's result |
| MarkerStrip.SkipSpaces | action.js:165 | greedy `\s*` ends at the first non-space at or after the start |
| MarkerStrip.MatchAt | action.js:165-169 | a match that starts at a position ends strictly after it and within the text |
| MarkerStrip.SpanMatchSound | action.js:165 | a span match is white space, `//{DEL`, a same-line run up to the marker, a same-line run up to a `}`, then text without vertical tabs up to the first `//{DEL}` after that `}`, where the match ends |
| MarkerStrip.SpanMatchShortest | action.js:165 | for a marker in the documented alphabet, the lazy `.*?` quantifiers make the span match end no later than any text of that shape starting at the same index: together with `SpanMatchSound`, the match ends at the smallest end possible |
| MarkerStrip.SpanMatchComplete | action.js:165 | wherever text of that shape starts, the span pattern matches there (the backtracking search does not miss it) |
| MarkerStrip.BraceEndIsFirstBrace | action.js:169 | the lazy `.*?\}` ends just after the first `}` on the same line, and there is none when a line terminator comes first |
| MarkerStrip.TokenMatch | action.js:169 | the second pattern matches exactly white space, `//{DEL`, and a same-line run ending with the first `}` |
| MarkerStrip.ReplaceAllDeletes | action.js:166 | a global replace by the empty string leaves a subsequence of the text it scans |
| MarkerStrip.ReplaceAllNoMatch | action.js:166-169 | where no match starts, a global replace leaves the text as it is |
| MarkerStrip.StripDeletes | action.js:164-169 | the transform only deletes characters: the result is a subsequence of the content, no longer than it |
| MarkerStrip.StripWithoutOpener | action.js:164-169 | content without `//{DEL` passes through unchanged |
| MarkerStrip.StripAbsentMarker | action.js:164-169 | when the marker does not occur, only the second pattern's removal of marker comments takes effect |
| MarkerStrip.MatchAfterSpaces | action.js:165 | a match found after a run of white space is also the match at that run's start |
| MarkerStrip.ReplaceAllTakesSpaces | action.js:165 | the white space before a removed marker comment is removed with it |
| MarkerStrip.StripExample | action.js:164-169 | `keep //{DEL FOO} drop //{DEL} keep2` with marker FOO becomes `keep keep2` |
| Action.MissingIffFalsyField | action.js:30 | a builder throws exactly when one of its required fields is absent or falsy (likewise lines 67, 91, 157, 212, 263, 312, 357, 403, 441) |
| Action.CopyOptionsOverlay | action.js:31 | defaulting `opts` never throws and is the overlay of the caller's options onto `{allowEmpty: true}` |
| Action.CopyAllowsEmpty | action.js:31 | `allowEmpty` is true unless the caller sets it, and every caller option is kept with its own value |
| Action.BuiltDescriptor | action.js:55-56 | the returned descriptor keeps every caller field except `execute` (and `opts` for copy); `execute` is a function whose `displayName` is `data.name` or the builder's default, so always truthy |
| Action.Build | action.js:29-57 | the builder throws its message on a non-object or a missing field and leaves `data` as it was; otherwise it updates `data` in place to the built descriptor and returns that same object |
| Action.Describe | action.js:31-56 | the in-place updates of a builder (copy's `opts` default, the `execute` function and its `displayName`) turn `data` into exactly the built descriptor |
| Action.RunExecute | action.js:33-53 | `execute` sets up exactly the modelled pipeline, read from the descriptor's fields at call time |
| Action.RunStream | action.js:36-52 | from `gulp.src` through the stages and the renaming to the writes |
| Action.WriteDestinations | action.js:117-130 | the `dest` dispatch appends exactly one write per destination of the builder's rule |
| Action.WriteEach | action.js:121-124 | `dest.forEach` appends one write per present element, in index order, skipping holes |
| Action.PipelineWritesDestinations | action.js:42-50 | the pipeline writes exactly to the builder's destinations, in order, and no other stage writes |
| Action.CallbackFirst | action.js:34 | a callback runs exactly when `cb` is a function and the builder is not transform or json; it runs first, and only once |
| Action.SourceAfterCallback | action.js:36 | a stream reads its sources once, right after the callback |
| Action.PathDispatch | action.js:42-50 | copy, pug and sass: an array gives one destination per element in order; any other value is the one destination |
| Action.WriteBackDispatch | action.js:176-189 | minifyimg, del, transform and json: a string is the one destination; an array gives one per element; anything else writes back to each file's base |
| Action.ZipDispatch | action.js:413-424 | zip: a string is the one destination, an array gives one per element, otherwise "./" |
| Action.DenseArrayDestinations | action.js:121-124 | with an array `dest` without holes, the i-th destination is `dest[i]` |
| Action.DelContents | action.js:164-169 | the rewrite of `del` is modelled (`Some`) exactly for markers in the documented alphabet, and for those it only deletes characters; `None` means the marker is outside the model, not that the file is left alone |
| Tasks.Executions | index.js:12-24 | `set` never returns more functions than it is given actions |
| Tasks.Set | index.js:12-24 | the `forEach` loop pushes exactly the contributions of the visited elements, in order |
| Tasks.ExecutionsAppend | index.js:15-21 | the result for a concatenation is the concatenation of the results (order is kept) |
| Tasks.ExecutionsOfObjects | index.js:16-19 | when every element is an object or a function, nothing is dropped; the i-th result is the element itself for a function and its `execute` otherwise |
| Tasks.ExecutionsOfPrimitives | index.js:15-21 | primitives, null and undefined contribute nothing |
| Tasks.ExecutionsFromInput | index.js:15-21 | every result is a function from the input or the `execute` of an object from it |
| Tasks.SetOfBuiltActions | index.js:18-19 | descriptors returned by the builders yield their `execute` functions, with their `displayName`, in order |

## Left out

- Gulp streams and plugins are not executed. Each stage is a `Step` value that records its arguments. This covers `gulp.src` and `gulp.dest`, rename, pug, sass, imagemin and cache, zip, del, and the file-system effects of mkdirp (`action.js:447-455`).
- Logging (`util.log`, colours, timestamps) has no effect on the model and is omitted.
- The callbacks `cb` and `JSON.parse`/`JSON.stringify` are foreign code. `TransformContents` and `TransformJson` only record the callback. Callbacks are assumed not to change `data`.
- `task` (`index.js:33-35`) only passes `set`'s result to `gulp.series`, which is not part of this model.
- The Promise returned by `mkdirp`'s `execute` is not modelled; only the `MakeDirectory` step is.
- Util.Merge: modelled only for a `source` that is typeof "object", as the function's own documentation requires. A primitive or undefined `source` is not modelled.
- Values are finite trees. Prototype chains, getters, `Object.create(null)`, shared references and cycles are not modelled.
- Numbers are integers. NaN, floating point and `-0` are left out, which matters for truthiness and `${}`.
- Strings have no enumerable keys in `Props`, so `for…in` over a string `merged` visits nothing.
- Util.Merge: an array's `length` is not updated when merge adds index keys to it.
- MergeHeap.Merge: a non-plain incoming object is stored as a fresh copy (`FromValue`), not as a shared reference. Aliasing between `source` and `merged` is not captured.
- MergeHeap.Merge: after a throw, only well-formedness of `source` is stated, not which keys were already assigned.
- Action.DisplayString: inside a template literal, objects other than plain objects and arrays, and functions, are spelled approximately (`[object Tag]`, `function`). An array is spelled by its tag rather than by `join`.
- Action.Build: a non-object `data` (undefined, a primitive) is modelled as `null`. The function identity of the new `execute` is a parameter (`closure`).
- Action.DelContents: markers that do not spell as digits, upper-case letters and `_` (`ValidMarker`) are not modelled, because the model follows the documented alphabet (action.js:148); the code itself applies the transform for every marker, and a marker holding regular-expression syntax would change the pattern. The file path logged per match is omitted.
- MarkerStrip: it is not stated that removing several non-overlapping spans is independent of their order. This follows from the left-to-right global replace, which is modelled directly.
