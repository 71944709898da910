# Clipify in Dafny

Clipify wraps the browser clipboard (`navigator.clipboard`) in one class that
keeps an in-memory history of what was copied, can drop a history item again
after a delay ("expiry"), and lets callers subscribe to "copy" and "expire"
events. The repository holds the class twice, and the two differ in behaviour:

- `src/index.ts` copies text only, does not check for empty text, and looks an
  item up by its position in the history;
- `dist/index.js` rejects missing or empty text before anything else, stores an
  optional key with each item, can store a file item without touching the
  clipboard (`copyFile`), and looks an item up by its key.

Both are modelled, each as a Dafny class with the source's fields, updated in
place by methods whose contracts give the whole new state:

| file | module | what it holds |
|---|---|---|
| base.dfy | `Base` | optional values, the errors and their messages, how a promise settles, the clipboard as one call sees it, JavaScript truthiness of an expiry time and of a string, the `paste` read |
| history.dfy | `History` | history entries with their object identity, filtering an object out of the history, and what filtering preserves |
| events.dfy | `Events` | the listener registry, registering a callback, dispatching an event to its callbacks |
| clipify_source.dfy | `ClipifySource` | the class of `src/index.ts` |
| clipify_dist.dfy | `ClipifyDist` | the class of `dist/index.js`, and key lookup |
| scenarios.dfy | `Scenarios` | runs of both classes, for all inputs: the cases of `tests/clipify.test.ts` and runs that exercise the source lines each scenario cites |

How the parts of the program that are not plain state are represented:

- **The clipboard** is a parameter of each call that uses it: `Missing` when
  `navigator.clipboard` does not exist, otherwise whether `writeText` resolves
  and what `readText` resolves with (or that it rejects). Every text handed to
  `writeText` is appended to the field `written`, whether that write then
  resolves or rejects.
- **Object identity.** History items are compared by reference
  (`historyItem !== item`), so each entry carries the allocation number its
  object got in `addToHistory` (field `nextId` of the class hands them out).
  The class invariant `Valid()` says the numbers along the history increase
  strictly and are all below `nextId`. The numbers stand for references only
  for entries the class itself created: `RemoveExpiredItem` accepts any entry
  and removes the history entry with the same number, even one whose other
  fields differ, which no JavaScript reference could be.
- **Timers.** `Date.now()` is the parameter `now`. `setTimeout` arms an expiry;
  the ghost field `pendingExpiries` holds the items whose expiry is armed and
  has not fired, and `FireExpiry(item)` is the timer firing (once: it is then
  spent). `clearHistory` does not touch `pendingExpiries`.
- **Callbacks** are numbers (`ListenerId`). Calling `listener(data)` appends
  `Invocation(listener, data)` to the field `trace`, so the contracts say which
  callbacks ran, with what, and in which order.
- **Promises.** An operation without a result ends in `Resolved` or
  `Rejected(error)`; `paste` ends in `Ok(text)` or `Err(error)`. The thrown
  messages are `Base.Message`: "Text is required to copy to clipboard." and
  "Clipboard API not supported in this browser.".

What is proved, beyond each method's exact before/after state:

- filtering an object out of the history keeps every other entry in its
  relative order (it distributes over concatenation), removes exactly the one
  entry when the object is present, changes nothing when it is absent, is
  idempotent, and keeps the invariant; appending a fresh item and filtering it
  out again gives back the old history;
- registering a callback changes only that event's list, by appending; the
  next dispatch ends with one call of the new callback; a callback registered
  twice is called twice; every dispatch calls each callback exactly as many
  times as it is registered, in registration order, with the event's data;
- key lookup returns the first item with the key; after appending an item with
  a key, a lookup finds the older item with that key if there is one, else the
  new item;
- as client runs: the three test cases of `tests/clipify.test.ts` (the text
  handed to `writeText`, the "copy" notification, the rejection message, and a
  rejected write resolving; the `console.error` call is not modelled), two
  listeners running in registration order, an expiry firing after
  `clearHistory`, finding a stored file by its key, `copy("")` in the
  positional variant, copy and paste without a clipboard, and removing an
  expired item twice.

Behaviour worth noting, modelled as the code has it:

- an expiry that fires after `clearHistory` (or after the item was otherwise
  removed) still notifies the "expire" listeners with the item's text
  (`src/index.ts:73-77`, `dist/index.js:97-99`);
- `src/index.ts` has no empty-text check, so `copy("")` with a working
  clipboard stores an item with text "" (`Scenarios.SourceCopiesEmptyText`);
- when the key is not found, `dist/index.js` returns an empty array, not null
  (`dist/index.js:109`); the positional variant returns null
  (`src/index.ts:88`).

The test file imports `../src`, yet its second case expects the rejection
"Text is required to copy to clipboard.", which only `dist/index.js` raises;
`Scenarios.CopyWithoutTextRejects` therefore runs the keyed class.

## Model

| member | source | states |
|---|---|---|
| `History.Without` | src/index.ts:74-76 | filtering by identity keeps exactly the entries that are not the given object, and never lengthens the history |
| `History.WithoutConcat` | src/index.ts:74-76 | filtering distributes over concatenation, so the kept entries stay in their relative order |
| `History.WithoutAbsent` | dist/index.js:98 | filtering out an object that is not in the history leaves the history unchanged |
| `History.WithoutIdempotent` | src/index.ts:73-77 | a second removal of the same item leaves the history as the first left it |
| `History.WithoutIncreasing` | dist/index.js:98 | filtering keeps the history well formed (each object once, in insertion order) |
| `History.WithoutRemovesExactlyOne` | src/index.ts:74-76 | removing the item at position i of a well-formed history yields the history without position i, the rest in order |
| `History.WithoutAppended` | src/index.ts:58-66 | appending a fresh item and then letting it expire gives back the earlier history |
| `Events.Register` | src/index.ts:98-104 | `on` makes the event's list the old list (or empty) plus the callback, adds the event to the map, and leaves every other event's list alone |
| `Events.Dispatch` | src/index.ts:111-116 | notifying makes one call per registration, in registration order, each with the event's data |
| `Events.DispatchConcat` | dist/index.js:130-134 | dispatching to a concatenation of listener lists is dispatching to each in turn |
| `Events.DispatchCounts` | dist/index.js:118-134 | each callback is called with the data exactly as many times as it is registered for the event |
| `Events.RegisterThenDispatch` | dist/index.js:118-134 | after `on(e, cb)`, notifying `e` calls every earlier listener and then `cb` once |
| `Events.DuplicateRegistration` | dist/index.js:118-124 | a callback registered twice is kept twice and called twice per notification |
| `Base.Message` | dist/index.js:25-28 | the thrown messages: "Text is required to copy to clipboard." for missing text, "Clipboard API not supported in this browser." for an absent clipboard (also src/index.ts:21) |
| `Base.Arms` | src/index.ts:62 | `if (expiryTime)`: an undefined or zero expiry time arms nothing; any other, negative included, arms the timer (also dist/index.js:87) |
| `Base.Truthy` | dist/index.js:24 | `!text` / `if (key)`: undefined and "" are falsy, every non-empty string is truthy (also dist/index.js:108) |
| `Events.Listeners` | src/index.ts:112-113 | `eventListeners.get(event)` guarded by `if (listeners)`: the registered list of a known event, and no listeners for an unseen one |
| `Base.ReadClipboard` | src/index.ts:38-51 | `paste` resolves with the clipboard text exactly when the clipboard exists and its read resolves; otherwise it rejects as unsupported or re-throws the read error |
| `ClipifySource.Clipify.constructor` | src/index.ts:9-12 | a new instance has an empty history, no listeners, no armed expiry, has written nothing and has made no calls |
| `ClipifySource.Clipify.Copy` | src/index.ts:19-32 | absent clipboard: rejects as unsupported, nothing is written and nothing changes; otherwise the text is handed to `writeText` once; rejected write: resolves, nothing else changes; resolved write: appends exactly one item with that text (any text, "" included) after the unchanged earlier items, arms its expiry iff `expiryTime` is truthy, then calls the "copy" listeners with the text |
| `ClipifySource.Clipify.Paste` | src/index.ts:38-51 | resolves with the clipboard read and leaves the history and the listeners alone |
| `ClipifySource.Clipify.AddToHistory` | src/index.ts:58-67 | appends one new object `{text, timestamp: now}` and arms its expiry only when the expiry time is defined and non-zero |
| `ClipifySource.Clipify.RemoveExpiredItem` | src/index.ts:73-79 | the history loses exactly that object, and the "expire" listeners are called with its text whether or not it was still there |
| `ClipifySource.Clipify.FireExpiry` | src/index.ts:62-66 | an armed expiry fires once: it is no longer armed and does what `removeExpiredItem` does |
| `ClipifySource.Clipify.GetHistory` | src/index.ts:86-91 | without an index, the whole history; with an index in range, the item there; otherwise null |
| `ClipifySource.Clipify.On` | src/index.ts:98-104 | the registry becomes `Register` of the old one; history and calls are untouched |
| `ClipifySource.Clipify.NotifyListeners` | src/index.ts:111-116 | appends to the calls exactly the dispatch of the event's listeners, in order |
| `ClipifySource.Clipify.ClearHistory` | src/index.ts:121-124 | the history becomes empty; listeners and armed expiries are untouched |
| `ClipifyDist.TextOrEmpty` | dist/index.js:99 | the text of an item, or "": the text when it is a non-empty string, and "" exactly otherwise |
| `ClipifyDist.IndexOfKey` | dist/index.js:109 | `find` by key: the position of the first item whose key equals the given one, or none when no item has it |
| `ClipifyDist.IndexOfKeyAppend` | dist/index.js:107-111 | after appending an item with a key, a lookup of the key finds the oldest item with it: an earlier one if any, else the new one |
| `ClipifyDist.Clipify.constructor` | dist/index.js:13-16 | a new instance has an empty history, no listeners, no armed expiry, has written nothing and has made no calls |
| `ClipifyDist.Clipify.Copy` | dist/index.js:21-39 | missing or empty text rejects with "Text is required" before the clipboard is looked at; then an absent clipboard rejects as unsupported; in both cases nothing is written and nothing changes; otherwise the text is handed to `writeText` once; a rejected write resolves and changes nothing else; a resolved write appends `{key, text, file: undefined, timestamp: now}`, arms its expiry iff `expiryTime` is truthy, and calls the "copy" listeners with the text |
| `ClipifyDist.Clipify.CopyFile` | dist/index.js:45-55 | appends one item with that file and key and no text, never uses the clipboard, arms no expiry, calls no listener, and resolves |
| `ClipifyDist.Clipify.Paste` | dist/index.js:60-73 | resolves with the clipboard read and leaves the history and the listeners alone |
| `ClipifyDist.Clipify.AddToHistory` | dist/index.js:79-92 | appends one new object `{key, text, file, timestamp: now}` and arms its expiry only when the expiry time is defined and non-zero |
| `ClipifyDist.Clipify.RemoveExpiredItem` | dist/index.js:97-101 | the history loses exactly that object, and the "expire" listeners are called with its text, or "" when it has none, whether or not it was still there |
| `ClipifyDist.Clipify.FireExpiry` | dist/index.js:87-91 | an armed expiry fires once: it is no longer armed and does what `removeExpiredItem` does |
| `ClipifyDist.Clipify.GetHistory` | dist/index.js:107-112 | with no key or "", the whole history; otherwise the first item with that key, or an empty array when no item has it |
| `ClipifyDist.Clipify.On` | dist/index.js:118-124 | the registry becomes `Register` of the old one; history and calls are untouched |
| `ClipifyDist.Clipify.NotifyListeners` | dist/index.js:130-135 | appends to the calls exactly the dispatch of the event's listeners, in order |
| `ClipifyDist.Clipify.ClearHistory` | dist/index.js:139-141 | the history becomes empty; listeners and armed expiries are untouched |
| `Scenarios.CopyNotifiesListener` | tests/clipify.test.ts:17-30 | copying "Hello, world!"-like text with a working clipboard hands exactly that text to `writeText`, once, stores it and calls the "copy" listener once with it |
| `Scenarios.CopyWithoutTextRejects` | tests/clipify.test.ts:32-34 | missing or empty text rejects with "Text is required to copy to clipboard.", whatever the clipboard, writing nothing, storing nothing and calling nothing |
| `Scenarios.WriteFailureIsSwallowed` | tests/clipify.test.ts:36-53 | a write of the text that rejects still resolves, stores nothing and calls no listener |
| `Scenarios.ListenersRunInRegistrationOrder` | dist/index.js:130-134 | two "copy" listeners are each called once, in the order they were added, with the copied text |
| `Scenarios.ExpiryAfterClearStillNotifies` | dist/index.js:87-99 | an expiry that fires after `clearHistory` leaves the history empty and still calls the "expire" listener with the text |
| `Scenarios.CopyFileThenLookup` | dist/index.js:45-50 | a file stored under a key is what `getHistory(key)` returns, and storing it wrote nothing to the clipboard and called no listener |
| `Scenarios.SourceCopiesEmptyText` | src/index.ts:19-27 | the positional variant writes `copy("")`'s empty text to the clipboard and stores it as an item with text "" |
| `Scenarios.SourceWithoutClipboard` | src/index.ts:19-41 | without a clipboard both copy and paste reject as unsupported, writing nothing, storing nothing and calling nothing |
| `Scenarios.SourceExpireTwice` | src/index.ts:73-77 | removing an expired item a second time leaves the history as it is but calls the "expire" listener again |

## Left out

- `isClipboardSupported` (`src/index.ts:130-132`, `dist/index.js:146-148`): a probe of the browser API; its answer is `Clipboard.Present?` of the call's clipboard parameter.
- The clipboard itself (`writeText`, `readText`): a browser API; only the outcome of each call is an input.
- Real time and `setTimeout`: the timestamp is a parameter and the timer firing is the explicit method `FireExpiry`; no delay is compared with a clock, and the order in which several armed expiries fire is the caller's choice.
- Interleaving across `await`: each operation runs to completion in one step; another operation running while `writeText` or `readText` is pending is not modelled.
- `console.log` / `console.error`: diagnostics with no effect on state.
- The `__awaiter` helper (`dist/index.js:2-10`): compiler output for `async`/`await`.
- Blob contents: a file is an opaque handle.
- Callbacks as real functions: a callback that throws would, in `copy`, be caught and logged by its `try`, and one that calls back into the instance could change the state mid-dispatch; callbacks here only record their invocation.
- The error object that a rejected `readText` carries: it is re-thrown as is, here the single error `ReadFailed`.
- Floating-point numbers: `expiryTime` and the `getHistory` index are integers, so a `NaN` expiry (falsy, arms nothing) and a fractional index (always null) are not modelled.
- Object aliasing of returned items: `getHistory` returns a fresh array in JavaScript and a sequence value here, but the items in it are the history's own objects in JavaScript; since no code of the library mutates an item, this is not modelled.
- `copyFile`'s `catch`: adding to the history cannot fail in the model, so the error branch is not reachable.
- `dist/index.d.ts`, `jest.config.ts`, `jest.setup.ts`: type declarations and test configuration.
