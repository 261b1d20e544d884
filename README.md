# copyObject in Dafny

A model of `copyObject(sourceObject, targetObject, copyType)` from
`library/copyObject.js`. The routine deep-merges the own properties of a
source object graph into a target object graph. It changes the target in
place and returns a code:

- 0: the copy completed;
- 1: an argument was refused;
- 2: a circular reference was found in the source and reported (the copy
  still completes every other branch).

`copyType` picks the conflict policy:

- any falsy value (undefined, null, false, 0 or "") empties the target
  first;
- the number 1 lets the source win a conflict;
- anything else (2) keeps what the target already has.

## How the model is built

- `objects.dfy` (module `JsObjects`): JavaScript values (`Val`) and objects.
  - A `Node` is a class with the object's own property names in creation
    order (`keys`) and its properties (`props`).
  - `Delete` and `Put` are `delete o[k]` and `o[k] = v`.
  - `Heap` is the value of a set of objects.
  - It also holds falsiness, and `ToNumber` as far as the copyType test
    needs it.
  - `NodeState.WellFormed` says an object lists each of its names once, and
    lists exactly its properties. `Put` and `Delete` keep it.
- `merge_spec.dfy` (module `MergeSpec`): what the routine computes, as pure
  functions over heap values.
  - `Conflicts` is the deletion test of lines 294-300, and `Place` the
    per-name decision of lines 294-315 and 379-395.
  - `Merge`, `KeyStep`, `Visit` and `Follow` are the walk of
    `copyObjectRecursion`, over the key snapshot from its last name to its
    first.
  - `CopyObjectSpec` is the whole call, with `RejectsCopyType` the copyType
    test of line 420.
  - A `{}` created by the walk is taken from an allocation list `A`, in order.
- `copy_object.dfy` (module `CopyObject`): the routine itself, imperative.
  - Class `Copier` holds what the inner function shares with the outer one:
    `copyType`, `keyStack`, `objStack`, and the warnings written to the
    console (`log`).
  - `CopyRec` is `copyObjectRecursion`, with its `while (keyIndex--)` loop.
    It is split into `CopyKey` (one turn), `PlaceKey` (lines 294-315 and
    382-395), `FollowKey` (lines 334-377) and `Descend` (the push, recursive
    call and pop of lines 351-361).
  - `DeleteOwnProperties` is the clearing loop.
  - `CopyObject` is the outer function.
  - Each method is proved to change the target objects exactly as the
    matching `MergeSpec` function says, with the objects it really allocates
    as the list `A`. `CopyObject` also proves that those objects are new and
    distinct (`Unallocated(created, 0, th)`). So every lemma below applies to
    the real run.
- `merge_frame.dfy` (module `MergeFrame`): proof glue. Results computed over
  a prefix of the allocation list stay the same over the whole list.
- `merge_props.dfy` (module `MergeProps`) and `copy_props.dfy` (module
  `CopyProps`): the properties, proved for every input.
- `deep_copy.dfy` (module `DeepCopy`): with a falsy copyType the target
  becomes a copy of the source, child by child (`CopiedObj`).
- `cycle_detect.dfy` (module `CycleDetection`): a circular reference below
  the root (`CycleBelow`) is always reported, when the target side always
  offers an object to walk into.
- `path_frame.dfy` (module `PathFrame`): with a copyType that does not
  clear, a target object reached from the target by some names changes only
  under the names of the source object reached from the source by the same
  names. This holds when nothing else refers into the objects on the way,
  as in a tree-shaped target.
- `path_examples.dfy` (module `PathExamples`): two worked cases for
  copyType 1 below the root. In a tree-shaped target a nested target-only
  name is kept. Where one target object sits under two names, it is not.
- `doc_examples.dfy` (module `DocExamples`): the three worked examples of the
  header comment, computed over `CopyObjectSpec`.

The walk terminates because the set of source objects not on `objStack`
shrinks with every recursive call. It shrinks because the cycle test
guarantees that a pushed object is never already on the stack.

Source and target graphs are required to be disjoint (`S !! T`).

## Model

| member | source | states |
|---|---|---|
| JsObjects.NodeState.Delete | library/copyObject.js:303 | `delete` removes exactly the name `k`: every other property and every other name is kept |
| JsObjects.NodeState.Put | library/copyObject.js:314 | assigning `k` sets its value and keeps every name the object already lists, adding at most one |
| JsObjects.NodeState.PutKeepsWellFormed | library/copyObject.js:314 | on a well-formed object, an assignment leaves the names distinct and equal to the properties, and `k` is listed afterwards |
| JsObjects.NodeState.DeleteKeepsWellFormed | library/copyObject.js:303 | on a well-formed object, `delete` leaves the names distinct and equal to the properties, and `k` is no longer listed |
| JsObjects.Node.Delete | library/copyObject.js:435 | deletes in place: the object's new state is `NodeState.Delete` of its old state |
| JsObjects.Node.Put | library/copyObject.js:393 | writes in place: the object's new state is `NodeState.Put` of its old state |
| JsObjects.Node.constructor | library/copyObject.js:314 | `{}` is an object with no names and no properties |
| JsObjects.Falsy | library/copyObject.js:432 | `!copyType` holds only for a non-object, and only for undefined or a value whose numeric conversion is 0 |
| MergeSpec.IndexOf | library/copyObject.js:343 | `objStack.indexOf` by reference: -1 exactly when the object is not on the stack. Otherwise it is the first position holding it. |
| MergeSpec.AncestorPath | library/copyObject.js:374 | `keyStack.slice(0, i + 1)` is a prefix of keyStack, of length i + 1 when i is a position of keyStack |
| MergeSpec.Conflicts | library/copyObject.js:294-300 | a source object conflicts exactly with a scalar or null target value; a scalar source value conflicts exactly with a different target value |
| MergeSpec.Place | library/copyObject.js:294-395 | one placement never writes the log, creates at most one object, removes no object, and what it hands on to the recursion is the target's value under `k`. The full per-name table is `MergeProps.PlaceOutcome`. |
| MergeSpec.RejectsCopyType | library/copyObject.js:420 | only a truthy string can be refused |
| MergeSpec.CopyObjectSpec | library/copyObject.js:410-455 | the result is 1 exactly for a non-object source, a non-object target or a refused copyType. It is then returned with no change and no warning. Otherwise it is 0 when no warning was written and 2 when one was. |
| MergeSpec.DeleteAll | library/copyObject.js:432-438 | after deleting a list of names, exactly the properties not named in it remain, with their values unchanged |
| MergeSpec.Merge | library/copyObject.js:238-399 | the walk over the last `j` names of the snapshot. Its own contract only says the number of created objects never decreases. Its meaning is proved by the MergeProps rows. |
| MergeSpec.KeyStep | library/copyObject.js:253-254 | one turn of the loop for a name. Its contract says only that the creation count never decreases. |
| MergeSpec.Visit | library/copyObject.js:294-336 | place a source value, then follow it. Its contract says only that the creation count never decreases. |
| MergeSpec.Follow | library/copyObject.js:343-376 | recurse, or report the cycle. Its contract says only that the creation count never decreases. |
| MergeProps.PlaceOutcome | library/copyObject.js:294-395 | the per-name table below this one |
| MergeProps.PlaceKeeps | library/copyObject.js:294-315 | one placement keeps every property of every object, unless copyType is 1 and the name is one a source object has. It adds no name that no source object has. It removes no name. It creates only new objects. |
| MergeProps.MergeKeeps | library/copyObject.js:238-399 | the whole walk keeps the same facts. (1) No target object disappears. (2) With copyType other than 1, every existing property keeps its value. (3) A property whose name no source object has is never added, removed or changed. (4) While the allocation list suffices, no name disappears. |
| MergeProps.KeyStepKeeps | library/copyObject.js:253-396 | the same for one turn of the loop |
| MergeProps.VisitKeeps | library/copyObject.js:294-395 | the same for placing and following one value |
| MergeProps.FollowKeeps | library/copyObject.js:343-376 | the same for a recursion or a report |
| MergeProps.MergeFills | library/copyObject.js:251-395 | under every copyType, each snapshot name that the source object has becomes a property of the target object. This holds when the created objects are those of the list. |
| MergeProps.StackPathPush | library/copyObject.js:351-352 | pushing the name and its object together keeps keyStack and objStack in step: the i-th stacked object is reached from the root by the names keyStack[1..i + 1] |
| MergeProps.CycleAt | library/copyObject.js:374 | when a name's value is the i-th stacked object, two paths reach that same object: the referring path keyStack + [name] and the ancestor path keyStack[..i + 1]. The ancestor path is a proper prefix of the referring path. |
| MergeProps.ReportGenuine | library/copyObject.js:343-376 | the warning written when the value is already on objStack names a genuine cycle in that sense |
| MergeProps.MergeReports | library/copyObject.js:238-399 | during a walk the warning log only grows, and every warning added names a genuine cycle of the source |
| MergeProps.KeyStepReports | library/copyObject.js:253-396 | the same for one turn |
| MergeProps.VisitReports | library/copyObject.js:294-377 | the same for placing and following one value |
| MergeProps.FollowReports | library/copyObject.js:343-376 | the same for a recursion or a report |
| CopyProps.CopyTypeCheckAsWritten | library/copyObject.js:420 | the copyType test as written never refuses a number (3 and -1 pass). It refuses "3" and "-1". It accepts "2", "abc", true, undefined and null. |
| CopyProps.OtherCopyTypesRetain | library/copyObject.js:294-438 | every accepted copyType that is neither falsy nor the number 1 gives exactly the outcome of 2 |
| CopyProps.ClearingEmpties | library/copyObject.js:432-438 | deleting every own name leaves the object empty |
| CopyProps.RootStackPath | library/copyObject.js:217-218 | the initial stacks `['(root)']` and `[source]` are in step |
| CopyProps.CopyKeeps | library/copyObject.js:294-395 | for the whole call: (1) no target object disappears; (2) a property whose name no source object has is never added, removed or changed, apart from the clearing of the target itself; (3) with copyType 2 every property of every target object keeps its value. Under copyType 1, a name of a target object that its paired source object lacks is kept too (`PathFrame.PathNamesKept`). |
| CopyProps.ClearsTarget | library/copyObject.js:14-15 | with a falsy copyType the target object itself is kept and ends as a copy of the source: exactly the source's names, the same scalar under each scalar name, and under each object name an object the call created that is in turn a copy of the source object, down to where the source refers back to an ancestor (left `{}`). No other target object changes. |
| CopyProps.CopiesRootNames | library/copyObject.js:251-395 | under every accepted copyType, every own property name of the source becomes a property of the target |
| CopyProps.ReportsAreCycles | library/copyObject.js:343-376 | every warning of the call names a genuine cycle of the source, and the result is 2 exactly when there is a warning |
| CopyProps.CyclesReported | library/copyObject.js:17-20 | with a falsy copyType, or copyType 1 over a target graph without dangling references, a source with a circular reference below its root gives the result 2; so a result 0 means the source has none |
| CopyProps.CodeTwoIffCycle | library/copyObject.js:343-455 | with a falsy copyType, or copyType 1 over a target graph without dangling references, the result is 2 exactly when the source has a circular reference below its root |
| CopyProps.KeepsOverCall | library/copyObject.js:432-438 | the frame of the walk from the cleared start, restated against the target graph as it was before the clearing |
| CopyProps.CycleExample | library/copyObject.js:213-456 | a worked case: source `{x: {y: source}, z: 5}` into `{}` with copyType 0. The result is `{z: 5, x: {y: {}}}`, one warning `(root).x.y = (root)`, and result 2. |
| CopyObject.Copier.constructor | library/copyObject.js:217-218 | the stacks start as `['(root)']` and `[source]`, and the log is empty |
| CopyObject.Copier.CopyRec | library/copyObject.js:238-399 | the loop leaves the target objects as `Merge` over the whole snapshot says. The stacks are restored. The result is true exactly when no warning was added. Objects are only added, and the added ones are new. |
| CopyObject.Copier.CopyKey | library/copyObject.js:253-396 | one turn leaves the targets as `KeyStep` says; stacks restored; result true exactly when no warning was added |
| CopyObject.Copier.FollowKey | library/copyObject.js:334-377 | recursing or reporting leaves the targets as `Follow` says. The warning holds keyStack + [name] and keyStack[..ancestorCheck + 1]. |
| CopyObject.Copier.Descend | library/copyObject.js:351-361 | push both stacks, recurse, pop both. The result is `Merge` one level deeper, and both stacks end as they started. |
| CopyObject.Copier.DeleteConflict | library/copyObject.js:294-304 | with copyType 1 a conflicting target property is deleted in place; otherwise, and for any other name, the object is unchanged |
| CopyObject.Copier.PlaceKey | library/copyObject.js:294-395 | the deletion and the write of one name leave the target objects as `Place` says. A created `{}` is new. |
| CopyObject.DeleteOwnProperties | library/copyObject.js:432-438 | the object itself is kept, and its state becomes `DeleteAll` of its own names |
| CopyObject.CopyObject | library/copyObject.js:213-456 | the code, the warnings and the final target objects are those of `CopyObjectSpec`. The objects it creates are new and distinct, so every CopyProps lemma applies to it. |
| DeepCopy.CopiedValFrame | library/copyObject.js:14-15 | a copy stays a copy while the objects it is made of keep their state |
| DeepCopy.CopiedObjFrame | library/copyObject.js:14-15 | the same for a copied object |
| DeepCopy.NextNameNew | library/copyObject.js:251-254 | walking a snapshot of distinct names from its end, the next name is not among those still to be walked after it |
| DeepCopy.TurnCopies | library/copyObject.js:294-377 | without conflict deletion, one turn for a name the target object lacks adds that name holding a copy of the source value, made of objects the turn created; no other name and no other existing object changes |
| DeepCopy.MergeCopies | library/copyObject.js:238-399 | without conflict deletion, walking into an empty target object makes it hold exactly the source object's names, each a copy of the source value; no other existing object changes |
| CycleDetection.PlaceClosed | library/copyObject.js:294-315 | a placement keeps every reference of the target graph inside the graph, and an object it hands on belongs to the graph |
| CycleDetection.MergeClosed | library/copyObject.js:238-399 | so does a whole walk |
| CycleDetection.KeyStepClosed | library/copyObject.js:253-396 | so does one turn |
| CycleDetection.VisitClosed | library/copyObject.js:294-377 | so does placing and following one value |
| CycleDetection.FollowClosed | library/copyObject.js:343-376 | so does a recursion or a report |
| CycleDetection.TurnDetects | library/copyObject.js:343-376 | a turn for a name that leads into a circular reference writes at least one warning |
| CycleDetection.TurnReady | library/copyObject.js:251-396 | after some turns into a receptive target object, the next turn still finds the target object, new objects to allocate, and a graph without dangling references (copyType 1) or the next name free (otherwise) |
| CycleDetection.WalkBelow | library/copyObject.js:17-20 | a walk by names from the top of the stack that comes back to an object of the stack, or to one it passed through, holds a circular reference in the sense of `CycleBelow` |
| CycleDetection.GenuineIsCycle | library/copyObject.js:374 | a warning that names a genuine cycle (two paths from the root, one a proper prefix of the other, reaching the same object) shows a circular reference in the sense of `CycleBelow`, so the two notions of a cycle agree |
| CycleDetection.MergeDetects | library/copyObject.js:238-399 | a walk into a receptive target object over names one of which leads into a circular reference writes at least one warning |
| PathFrame.PlaceGuarded | library/copyObject.js:294-315 | a placement writes only scalars and new objects, so references into the path are still only its links; no object of the path other than the one placed into changes |
| PathFrame.PlaceLink | library/copyObject.js:313-336 | what a placement hands on to the recursion is an object of the path only when the object placed into and the name are the link to it |
| PathFrame.MergeOff | library/copyObject.js:238-399 | a walk into an object off the path leaves every object of the path as it was, and the path guarded |
| PathFrame.KeyStepOff | library/copyObject.js:253-396 | the same for one turn |
| PathFrame.VisitOff | library/copyObject.js:294-377 | the same for placing and following one value |
| PathFrame.FollowOff | library/copyObject.js:343-376 | the same for a recursion into an object off the path |
| PathFrame.PlaceOn | library/copyObject.js:294-336 | placing into an object of the path changes the last object of the path only under the placed name, and only when it is the object placed into; it hands on the next object of the path only when the name is the link to it |
| PathFrame.MergeOn | library/copyObject.js:238-399 | a walk into the i-th object of the path, paired with some source object, changes the last object of the path only under the names of the source object reached by the rest of the path's names |
| PathFrame.KeyStepOn | library/copyObject.js:253-396 | the same for one turn |
| PathFrame.VisitOn | library/copyObject.js:294-377 | the same for placing and following one value; the walk stays on the path only through the link's name |
| PathFrame.FollowOn | library/copyObject.js:343-376 | the same for following a source value into an object of the path |
| PathFrame.PathNamesKept | library/copyObject.js:251-395 | with copyType 1, 2 or any other accepted truthy value, take a target object reached from the target by some names along objects that nothing else refers to. A property of it whose name the source object reached by the same names lacks is neither added, removed nor changed, even when other source objects have that name. With no names this is the target itself. |
| PathExamples.NestedNameKept | library/copyObject.js:54-60 | a worked case: source `{b: {x: 1}, y: 2}` into `{b: {y: 7}}` with copyType 1 keeps `b.y` at 7 |
| PathExamples.SharedChildTakesName | library/copyObject.js:251-395 | a worked case: source `{b: {x: 1}, c: {y: 1}}` into `{b: tb, c: tb}` with `tb = {}` and copyType 1 gives `tb` both `x: 1` and `y: 1`, and result 0; so `PathNamesKept` needs its path hypothesis |
| DocExamples.Example0B | library/copyObject.js:32-41 | copyType 0, inside the new `b`: `b_ii` then `b_i` are written |
| DocExamples.Example0 | library/copyObject.js:32-41 | copyType 0: the target becomes `{a: 1, b: {b_i: 2, b_ii: 3}, c: null}` with `b` a new object, the old children are untouched, one object is created, and the result is 0 |
| DocExamples.Example1B | library/copyObject.js:43-64 | copyType 1, inside `b`: `b_ii` is replaced by 3, `b_i` is added, `b_iii` stays |
| DocExamples.Example1 | library/copyObject.js:43-64 | copyType 1: the target becomes `{a: 1, b: {b_i: 2, b_ii: 3, b_iii: 6}, c: null}` with `b` still its own object, and the result is 0 |
| DocExamples.Example2B | library/copyObject.js:66-88 | copyType 2, inside `b`: `b_ii` keeps 5 and `b_i` is added |
| DocExamples.Example2 | library/copyObject.js:66-88 | copyType 2: the target becomes `{a: 2, b: {b_i: 2, b_ii: 5, b_iii: 6}, c: {}}`, and the result is 0 |

`MergeProps.PlaceOutcome` states, for one name `k` of a target object:

- no other object and no other name changes;
- a scalar source value (including null) is written when the target lacks
  `k` or copyType is 1; otherwise the target's value stays;
- when both values are non-null objects, nothing is deleted or replaced:
  they are merged;
- a source object gets a fresh `{}` when the target lacks `k`, or when
  copyType is 1 and the target holds a scalar;
- with copyType other than 1, a scalar in the target blocks the sub-merge.

## Left out

- Console text.
  - The refusals of lines 411, 417 and 421 are only the result 1.
  - A cycle warning of line 374 is a `Report` holding the two key paths as
    lists. Joining them with dots is not modelled.
- A null source or target is a precondition. It passes the `typeof` tests
  of lines 410 and 415, and the model has no exceptions. What JavaScript then
  does depends on the call:
  - a null target with a source that has no own names returns 0 untouched,
    because the loop at line 253 never runs and the `for...in` of line 433
    over null does nothing;
  - a null target with a source that has names throws a TypeError at line
    295 when copyType is 1, and otherwise, since the test of line 294 stops
    at `copyType === 1`, at line 313 when the first value walked is an
    object or at line 392 when it is a scalar;
  - a null source throws a TypeError at line 251, but with a falsy copyType
    only after lines 432-438 have emptied the target.
- The model has no function, symbol or bigint values. For example, a function
  passed as the source would get the result 1.
- Arrays, getters, non-enumerable properties and the prototype chain are
  not modelled. An object's own names are `keys` and its properties are
  `props`.
- Property order is creation order. The model does not capture that
  JavaScript lists integer-like names first.
- Numbers are integers. The model does not capture NaN, fractions, or -0
  versus +0.
- `JsObjects.StringToNumber` reads only "", digits, and a signed run of
  digits. Whitespace, decimals, hexadecimal, exponents and "Infinity" are
  taken as NaN. So the copyType test is exact only for those forms.
- The line-420 test as written never refuses a number, and the model follows
  it: 3 behaves like 2. The function's own comments (lines 202 and 421)
  promise refusal of anything outside 0..2.
- The printed result of the copyType-1 example in the header comment (lines
  49-50) shows `"c": 4`, and line 57 speaks of a `b_ii` value of 6. The
  explanation in the same comment, and the code, give `c: null` and replace
  the target's 5. `DocExamples.Example1` proves the code's result.
- The source and target graphs must not share objects (`S !! T`). For example,
  `copyObject(x, x)` is excluded.
- Stack overflow on deep graphs is not modelled.
- The stacks are created in the model after the argument checks (in the
  source, at lines 217-218, before them). Nothing can observe the difference.
- The clearing loop deletes over a snapshot of the target's own names. The
  `for...in` at line 433 reaches the same final state.
- MergeSpec.Merge, MergeSpec.KeyStep, MergeSpec.Visit, MergeSpec.Follow:
  their own contracts only state that the count of created objects never
  decreases. What they compute is stated by the MergeProps and CopyProps
  lemmas.
- MergeProps.MergeFills, CopyProps.CopiesRootNames: they assume the created
  objects are those of the allocation list (`made <= |A|`). That always
  holds for `CopyObject.CopyObject`, whose list is the objects it created.
- CopyProps.CopiesRootNames: for copyType 1 and 2 it states the root's
  names only. Below the root the target may hold a scalar that blocks the
  descent (copyType 2), or an object shared with other parts of the target
  graph, so no deep statement holds in general. The deep copy for a falsy
  copyType is `CopyProps.ClearsTarget`.
- PathFrame.PathNamesKept: it requires that nothing refers into the objects
  on the path from the target except the path's own links. When one target
  object sits under two names, the walk enters it paired with two source
  objects, and each writes its names into it
  (`PathExamples.SharedChildTakesName`). When some object refers back to the
  target (say `target.self = target`), the walk can re-enter the target from
  below.
- CopyProps.CopyKeeps: for copyType 1 below the root, the whole-graph frame
  protects only names that no source object has. A target-only name of a
  nested object is kept only under the path hypothesis of
  `PathFrame.PathNamesKept`, for the reason given on its line.
- CopyProps.CyclesReported: not for copyType 2, because a target scalar
  under the name stops the walk there (lines 334-336) and the cycle below
  is never met. For copyType 1 it requires a target graph without dangling
  references, which every graph of real objects is.
- CopyProps.CodeTwoIffCycle: the same two limits, since its direction "a
  circular reference gives 2" is `CopyProps.CyclesReported`.
- MergeSpec.Place: its own contract states only the frame above. What it
  writes, name by name, is `MergeProps.PlaceOutcome`.
- MergeSpec.RejectsCopyType: its contract says only that a refused value is
  a truthy string. The exact test is its definition, and
  `CopyProps.CopyTypeCheckAsWritten` gives its value on typical inputs.
