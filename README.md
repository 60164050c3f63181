# ElementPro, modelled in Dafny

`ElementPro` (src/element.ts) is a chainable wrapper around one native DOM
element. It owns that element and an event registry. The registry is a map
from event type to the one listener bound through the wrapper. Its methods
change four parts of the element's state: the class set (`classList`), the
attribute table, the child list and the set of attached listeners. The
registry ensures that `on` binds at most one listener per event type and that
`unbind` detaches exactly what was bound.

The model has these modules:

- `JsText` (js_text.dfy): the JavaScript string operations the wrapper uses.
  `trim` strips ECMAScript whitespace and line terminators. `split(' ')`
  keeps empty pieces. `toString` on a safe integer (magnitude at most
  `Number.MAX_SAFE_INTEGER`, 2^53 - 1) prints its exact decimal digits.
- `Dom` (dom.dfy): the native element as a class `NativeElement` with fields
  `classes`, `attrs`, `children` and `listeners`. It has one method per host
  call the wrapper makes: `classList.add` and `classList.remove`,
  `setAttribute`, `removeAttribute`, `appendChild`, `addEventListener` and
  `removeEventListener`. The host's own failures are the preconditions of
  these methods. `classList` rejects an empty token or one holding ASCII
  whitespace (`ValidToken`). `setAttribute` rejects an invalid name
  (`ValidAttrName`).
- `ClassNames` (class_names.dfy): how a class argument becomes the tokens
  handed to `classList`. The argument is an array, a string or `undefined`.
  This module also holds the effect of `toggleClass` on a class set.
- `Registry` (registry.dfy): the registry as a `map<string, Listener>`, and
  the facts that tie it to the attached (type, listener) pairs.
- `Element` (element.dfy): the class `ElementPro`, its argument datatypes
  and the factories `Div`, `Span`, `Img`, `Video` and `Input`. The class has
  one field for the owned element (`const element`) and one for the registry
  (`var registry`). The TypeScript union arguments are written as tagged
  unions. `ClassArg` covers `string | string[] | undefined`. `KeyArg` covers
  `string | string[]`. `UnbindArg` covers a missing argument, an array or one
  type. `Child` covers the entries of `addChildren`'s array: a wrapper, a
  native element, a falsy value, or anything else. `ChildrenArg` says whether
  the argument is an array at all.
- `Scenarios` (scenarios.dfy): client methods that use only the contracts
  above to derive the documented behaviours. Examples: binding twice keeps
  the first listener, and `unbind()` after three binds leaves nothing
  attached.

Each state-changing method modifies only the one field of the element it
touches (`element`classes`, `element`attrs`, …). `On` and `Unbind` also
modify `this`registry`. Two registry invariants are proved to be preserved
by `On` and `Unbind`. `Attached()` says every registry pair is attached.
`AttachedExactly()` says the element's listeners are exactly the registry's
pairs. Both are stated as "if it held before, it holds after", because the
source's methods do not depend on them: code holding `getElm()` may attach or
detach listeners behind the wrapper's back.

`getElm` is `ElementPro.GetElm` and `isElmPro` is `ElementPro.IsElmPro`.
`Resolve` and `AddChildren` use them to unwrap a wrapper entry into the
element it owns.

## Model

| member | source | states |
|---|---|---|
| `Element.ElementPro.constructor` | src/element.ts:19-27 | A new wrapper owns a fresh element with the given tag name (default `"div"`), no classes, no attributes, no children and no listeners, and its registry is empty; both registry invariants hold |
| `Element.Div` | src/element.ts:202 | A fresh blank wrapper whose element's tag is `div` |
| `Element.Span` | src/element.ts:203 | A fresh blank wrapper whose element's tag is `span` |
| `Element.Img` | src/element.ts:204 | A fresh blank wrapper whose element's tag is `img` |
| `Element.Video` | src/element.ts:205 | A fresh blank wrapper whose element's tag is `video` |
| `Element.Input` | src/element.ts:206 | A fresh blank wrapper whose element's tag is `input` |
| `Element.ElementPro.AddClass` | src/element.ts:54-61 | Afterwards the class set is the old one plus every token the argument names; the frame leaves attributes, children, listeners and registry untouched |
| `Element.ElementPro.RemoveClass` | src/element.ts:69-76 | Afterwards the class set is the old one minus every token the argument names; classes not named stay; nothing else changes |
| `Element.ElementPro.GetElm` | src/element.ts:34-36 | Returns the element the wrapper owns; it is a constant, so every call yields the same object, the one `addChildren` appends for a wrapper entry (`ChildElementsFrom`) |
| `Element.ElementPro.IsElmPro` | src/element.ts:44-46 | True exactly for wrapper entries, never for a native element or a falsy value; a wrapper entry then contributes the wrapper's own element |
| `Element.ElementPro.HasClass` | src/element.ts:84-86 | The answer is true exactly when the string is in the element's class set |
| `Element.ElementPro.ToggleClass` | src/element.ts:94-96 | The new class set is `Toggled(old set, c)`: remove the tokens of `c` when `c` is a member, add them otherwise |
| `Element.ElementPro.AddAttr` | src/element.ts:105-112 | The attribute table maps `k` to the value's string form and every other key keeps its value |
| `Element.ElementPro.RemoveAttr` | src/element.ts:120-127 | Every named key is gone, an absent key is a no-op, and every other key keeps its value |
| `Element.ElementPro.AddChildren` | src/element.ts:135-146 | The old children stay as a prefix, followed by `ChildElements(items)` for an array and by nothing for any other argument |
| `Element.ElementPro.On` | src/element.ts:156-162 | If the type is registered, registry and listeners are unchanged and the new listener is dropped; otherwise `(t, l)` is attached and `registry[t] := l`; both registry invariants are preserved |
| `Element.ElementPro.Unbind` | src/element.ts:170-186 | A missing argument detaches every recorded pair and empties the registry; a list or a single type removes exactly those types from the registry and detaches exactly their recorded pairs, and absent types are no-ops; both registry invariants are preserved |
| `ClassNames.ListTokens` | src/element.ts:55-56 | An array names its entries trimmed, in order; as a set, exactly the trimmed entries |
| `ClassNames.BlankTokens` | src/element.ts:57 | A blank string (every character whitespace), like `undefined`, names no token |
| `ClassNames.SingleToken` | src/element.ts:57-58 | A single plain class name names exactly itself |
| `ClassNames.SpaceSeparatedTokens` | src/element.ts:57-58 | A string of plain names joined by single spaces names exactly those names, in order, and all are valid for `classList` |
| `ClassNames.TokensAreTrimmed` | src/element.ts:56-58 | Every token any argument names is its own trim |
| `ClassNames.ToggleFlips` | src/element.ts:94-96 | On a plain name, toggling flips that name's membership and leaves every other class as it was |
| `ClassNames.ToggleTwice` | src/element.ts:94-96 | On a plain name, toggling twice restores the class set |
| `ClassNames.ToggleSeveralNamesOnlyAdds` | src/element.ts:94-96 | For a string of two or more names, the membership test always fails, so one toggle adds them all and a second changes nothing |
| `ClassNames.ToggleBlankTokenIsNoOp` | src/element.ts:94-96 | A valid class made only of non-ASCII whitespace (such as NO-BREAK SPACE) is trimmed away, so toggling it never changes the class set |
| `ClassNames.NoBreakSpaceIsBlankToken` | src/element.ts:57 | A lone NO-BREAK SPACE is a valid token made only of whitespace, so the case above occurs |
| `JsText.TrimSlice` | src/element.ts:56-58 | `trim` returns one contiguous slice of its argument and drops only whitespace before and after it |
| `JsText.TrimEdges` | src/element.ts:56-58 | What `trim` returns has no whitespace at either end |
| `JsText.TrimEmptyIffBlank` | src/element.ts:57 | `trim()` is empty exactly when every character is whitespace, which is the test `cls.trim().length > 0` makes |
| `JsText.TrimOfTrimmed` | src/element.ts:56-58 | A string with no whitespace at either end is its own trim |
| `JsText.TrimIdempotent` | src/element.ts:56-58 | Trimming twice is trimming once |
| `JsText.Split` | src/element.ts:58 | `split(' ')` always returns at least one piece |
| `JsText.JoinSplit` | src/element.ts:58 | Joining the pieces of `split` with the separator gives back the string |
| `JsText.SplitJoin` | src/element.ts:58 | Splitting a join of one or more separator-free pieces gives back the pieces |
| `JsText.SplitPiecesFree` | src/element.ts:58 | No piece of `split` contains the separator |
| `JsText.SplitWithoutSeparator` | src/element.ts:58 | A string without the separator splits into itself alone |
| `JsText.NatToString` | src/element.ts:107 | The decimal form of a natural number is one or more digits, with no leading zero |
| `JsText.IntToStringRoundTrip` | src/element.ts:107 | A safe integer's decimal form is its canonical numeral (`-` exactly when negative, then one or more digits with no leading zero unless the number is 0) and reads back as the integer |
| `Element.AttrTextMeaning` | src/element.ts:105-110 | A string is stored as is, a boolean as `"true"` or `"false"`, and a safe integer as its canonical decimal numeral (sign only when negative, no leading zero), which reads back as the integer |
| `Element.NumberFive` | src/element.ts:105-107 | `addAttr('data-x', 5)` stores the string `"5"` |
| `Element.Truthy` | src/element.ts:137 | Every entry `filter(Boolean)` keeps is an entry of the input that is not falsy |
| `Element.TruthyKeepsExactly` | src/element.ts:137 | Both directions: an entry is kept exactly when it is in the input and is not falsy, so no truthy entry is dropped |
| `Element.TruthyAppend` | src/element.ts:137 | Filtering preserves order: the filter of a concatenation is the concatenation of the filters |
| `Element.TruthySameElements` | src/element.ts:137-143 | Dropping the falsy entries first does not change what is appended |
| `Element.ChildElementsAppend` | src/element.ts:137-143 | What two arrays contribute, in order, is what their concatenation contributes |
| `Element.ChildElementsFrom` | src/element.ts:137-143 | Every wrapper entry contributes its element and every native entry itself. Every appended element comes from one such entry, and nothing else contributes |
| `Element.SkipsFalsyEntries` | src/element.ts:135-146 | `[null, wrapperA, nativeB, undefined]` appends `wrapperA`'s element, then `nativeB` |
| `Registry.EntriesMembership` | src/element.ts:157-159 | A (type, listener) pair is recorded exactly when the type is registered with that listener |
| `Element.OneListenerPerType` | src/element.ts:156-162 | While only the wrapper attaches listeners, the element holds at most one wrapper-bound listener per event type |
| `Registry.AtMostOnePerType` | src/element.ts:157-159 | The registry never records two listeners for one type |
| `Registry.BoundAll` | src/element.ts:172-175 | Detaching the pairs of every registered type detaches every recorded pair |
| `Registry.EntriesAfterBind` | src/element.ts:157-159 | Binding an unregistered type records exactly one more pair |
| `Registry.EntriesAfterUnbind` | src/element.ts:176-184 | Forgetting a set of types removes exactly their recorded pairs |
| `Registry.BoundStep` | src/element.ts:177-180 | Each listed type detaches its recorded pair once; a repeated or unregistered type detaches nothing more |
| `Registry.UnbindAbsent` | src/element.ts:182-183 | Unbinding an unregistered type detaches nothing and leaves the registry as it was |

## Left out

- `dispatch` (src/element.ts:196-199): it builds a host `CustomEvent` and relies on the host to deliver it; listener invocation is outside the model.
- The `declare module` block (src/element.ts:2-13) declares types only. rollup.config.js is build configuration.
- Chaining is not modelled: every method returns `this`, and the model calls the next method on the same object. The element's generic type `E` is not modelled either.
- Host failures are preconditions, not error results. `classList` throws for an empty token or one with ASCII whitespace, as from `addClass('a  b')` or `addClass(' a')`. `setAttribute` throws for an invalid name. A `null` class argument makes `trim` throw. The model states one precondition per failure and has no exception path.
- `appendChild` is a plain append. Moving a node away from its previous parent is not modelled. Neither is the error for appending an element to itself or to a descendant.
- `createElement` checks tag names and the host lower-cases tag and attribute names. The model keeps names as given and does not check tag names.
- The `class` attribute and `classList` reflect each other in the host. The model keeps them apart.
- Listener options are not modelled. `on` passes `options` to `addEventListener`, but `unbind` removes with no options. In the host, a listener bound with `capture: true` therefore stays attached after `unbind`, while its registry entry is deleted. The model's listeners are plain (type, listener) pairs, so it detaches such a listener.
- `Element.ElementPro.Unbind`: the model does not fix the order in which `for…of` visits the registry's entries. That order is insertion order, and the resulting state does not depend on it.
- `Element.ElementPro.AddAttr` requires a number value to be a safe integer, at most 2^53 - 1 in magnitude (`PrintsExactly`). Beyond that a JavaScript number is a rounded double and `toString` prints its shortest identifying digits: `addAttr('x', 2**60)` stores `"1152921504606847000"`, and the literal `9007199254740993` is already `9007199254740992`. Modelling that needs IEEE 754 doubles and their shortest-digit printing, which the model does not have. Fractions, exponent forms, `NaN`, `Infinity` and `-0` are left out for the same reason.
- `Element.AttrTextMeaning`: the read-back promise covers safe integers only, for the reason above.
- For the modelled value types the empty-string branch at src/element.ts:108-110 cannot be reached.
- Strings are sequences of Unicode scalar values, not UTF-16 code units.
- Non-string keys and types are not modelled; the model takes strings only. `removeAttr(undefined)` removes the attribute named `"undefined"`, because `removeAttribute` coerces its argument. `unbind(null)` is only half coerced. At src/element.ts:182 `removeEventListener` coerces the type to `"null"`. But `eventsRegistry.get(null)` and `delete(null)` (src/element.ts:182-183) use the Map key `null`, which is not the string `"null"`. So a listener bound as `on('null', l)` stays registered and attached after `unbind(null)`.
- src/element.ts has no text or HTML setter, no mounting and no namespaced creation; its constructor takes only a tag name.
