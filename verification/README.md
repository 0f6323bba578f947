# ejs-listener in Dafny

A model of `ejs-listener`, a process-local publish/subscribe dispatcher. It
keeps a registry mapping each event name to a list of subscriptions. Each
subscription is `{callback, scope, weight}`, and each list is kept in
ascending weight order. Five operations work on the registry:

- `on` registers a callback under one or more event names.
- `un` clears events or filters one callback out of them.
- `events` reads the registry.
- `invoke` runs the subscribers of the named events one after another as an
  asynchronous pipeline. It stops at the first failure, then calls `done`
  exactly once.
- `emit` calls every subscriber immediately with a no-op continuation.

The model is functional. The registry is a value
(`map<EventName, seq<Sub>>`): every operation takes the registry it works on
and returns the one it leaves behind. JavaScript's "omitted or falsy"
arguments (`undefined`, `null`, `0`, `''`) are `None` of an `Option`.
Callbacks, scopes, argument values and errors are opaque identities that are
only compared.

What a subscriber does when it is called cannot be seen from the listener,
so it is a parameter `behave`. Given the subscription, its positional
arguments and the current state of the objects those arguments share, it
returns a `Step`. The step holds the signal and the state the subscriber
leaves behind:

- `Next(err)`: the subscriber calls `next(err)`.
- `Throw(v)`: the subscriber throws `v`.

`invoke` is a fold (`Series`) that yields the trace of calls it makes, ending
with the call of `done`. `emit` is a fold (`Broadcast`) that yields its calls
and whether it returned or a throw escaped.

Files, one module each:

- `types.dfy` (`Types`): `Option`, the opaque identities, and the
  one-name-or-array `events` argument.
- `subscriptions.dfy` (`Subscriptions`): the subscription record.
  - Weight classes and the stable sort by weight (`SortByWeight`, an
    insertion sort standing for the external `ejs-sortby`).
  - Removal of a callback (`Without`).
- `listener.dfy` (`Listener`): the registry, `on`, `un` and `events`.
- `dispatch.dfy` (`Dispatch`): the queue, `invoke` and `emit`.
- `scenarios.dfy` (`Scenarios`): the behaviour the repository's test suite
  checks, stated over the model.

## Model

| member | source | states |
|---|---|---|
| Subscriptions.NewSub | lib/index.js:60-64 | The stored record keeps the callback as given. The scope is `scope` or null when falsy. The weight is the given weight, or 0 when it is omitted or falsy. |
| Subscriptions.SortByWeight | lib/index.js:66 | The sorted list is in ascending weight order and is a permutation of its input. Every weight class keeps its members in their original relative order, so the sort is stable. |
| Subscriptions.SortedUnique | lib/index.js:66 | Two sorted lists with the same weight classes are equal. So the stable sort's contract determines its result completely. |
| Subscriptions.SortAfterPush | lib/index.js:60-66 | Pushing a record onto a sorted list and sorting gives the same list as inserting the record after the last entry that weighs no more. |
| Subscriptions.InsertSplices | lib/index.js:60-66 | That insertion splices the new record in at one position. The record stays, the entries before it keep their order, and so do the entries after it. |
| Subscriptions.InsertBack | lib/index.js:60-66 | A record that weighs at least as much as every entry, equal weights included, goes to the back. A later registration of an equal weight therefore runs later. |
| Subscriptions.InsertFront | lib/index.js:60-66 | A record lighter than every entry goes to the front. |
| Subscriptions.InsertStable | lib/index.js:60-66 | Insertion adds the record to the end of its own weight class and leaves every other weight class unchanged. |
| Subscriptions.InsertSorted | lib/index.js:60-66 | Inserting into a sorted list keeps it sorted. |
| Subscriptions.InsertCount | lib/index.js:60-66 | Insertion adds exactly one copy of the record and keeps every other entry. |
| Subscriptions.Without | lib/index.js:98-107 | The filter loop of `un` never adds entries. What it keeps is stated by the lemmas below. |
| Subscriptions.WithoutMembers | lib/index.js:98-107 | Filtering keeps exactly the entries whose callback is not the given one. |
| Subscriptions.WithoutCount | lib/index.js:98-107 | Filtering drops every copy of a matching entry. Every other entry is kept as many times as it occurred. |
| Subscriptions.WithoutAppend | lib/index.js:98-107 | Filtering a concatenation filters each part in place, so the kept entries stay in their original relative order. |
| Subscriptions.WithoutSorted | lib/index.js:98-107 | Filtering a weight-sorted list leaves it weight-sorted. |
| Subscriptions.WithoutIdempotent | lib/index.js:98-107 | Filtering the same callback twice is the same as filtering it once. |
| Subscriptions.WithoutEverything | lib/index.js:98-107 | When every entry has the given callback, the filtered list is empty. |
| Listener.OnEvent | lib/index.js:55-66 | One iteration of `on` creates the event's key if absent. It leaves every other event as it was and leaves the event's list sorted. |
| Listener.OnEventClasses | lib/index.js:60-66 | One iteration extends the new record's weight class by that record and leaves every other class of the event's list alone. |
| Listener.OnEventFirst | lib/index.js:56-66 | The first registration of an event gives it a one-element list. |
| Listener.OnEventHeaviest | lib/index.js:60-66 | A registration weighing no less than every existing one is appended, after earlier registrations of equal weight. |
| Listener.OnEventLightest | lib/index.js:60-66 | A registration lighter than every existing one goes to the front. |
| Listener.OnAll | lib/index.js:54-67 | After the loop, the keys are the old keys plus the named events. Every event that is not named reads as before. |
| Listener.OnAllSorted | lib/index.js:54-67 | After the loop, every named event has a sorted list, and every list that was sorted stays sorted. |
| Listener.OnAllClasses | lib/index.js:54-67 | After the loop, each weight class of an event's list is the old class followed by one copy of the new record per occurrence of the event among the names. |
| Listener.OnAllClosedForm | lib/index.js:54-67 | A named event's list is the stable sort of its old list followed by one copy of the record per occurrence of the name. Duplicate registrations are therefore kept. |
| Listener.OnAllCount | lib/index.js:54-67 | Each event's list holds its old entries plus one copy of the new record per occurrence of the event among the names. |
| Listener.On | lib/index.js:47-70 | `on` registers every named event with a sorted list. Every other event is untouched, and a well-formed registry stays well-formed. |
| Listener.OnOne | lib/index.js:50-67 | A single string name is one iteration of the loop, as if it were a one-element array. |
| Listener.OnTwo | lib/index.js:54-67 | An array of two names is two iterations of the loop, in order. |
| Listener.OnNothing | lib/index.js:54-67 | An empty array of names leaves the registry unchanged. |
| Listener.OnSingle | lib/index.js:47-70 | On a well-formed registry, `on(e, ...)` splices the new record into `e`'s list. It goes after every entry that weighs no more and before every entry that weighs more. |
| Listener.UnEvent | lib/index.js:89-107 | One iteration of `un`. A falsy callback deletes the key. A callback filters the list of a registered event, and the key stays even if the list becomes empty. An absent event stays absent. |
| Listener.UnAll | lib/index.js:89-108 | The loop of `un` over the names: every named event is cleared or filtered as above, and every other event is untouched. Repeated names included. |
| Listener.Un | lib/index.js:82-111 | `un(events, callback)`: the named events are cleared or filtered as above, and every other event is untouched. |
| Listener.UnFilters | lib/index.js:98-107 | `un(e, cb)` on a registered event keeps the key. Its list is the filter of the list, in the original order, and holds exactly the entries whose callback is not `cb`. |
| Listener.UnWellFormed | lib/index.js:98-107 | `un` keeps a well-formed registry well-formed. |
| Listener.Events | lib/index.js:224-230 | `events(e)` returns the whole registry exactly when `e` is omitted or empty. It returns `null` exactly when `e` is a non-empty, unregistered name. Otherwise it returns that event's list. |
| Types.EventNames.Names | lib/index.js:50-52 | A single string name is treated as the one-element array holding it, and an array is used as given. The same wrapping is at lines 85-87, 133-135 and 190-192. |
| Dispatch.Failure | lib/index.js:147-148 | The error a subscriber hands to the series is the error it passes to `next` or the value it throws. A falsy value means success, which is what the truthiness test at lines 165-167 reads. |
| Dispatch.GuardedCall | lib/index.js:143-146 | Calling a record stored without a callback throws the TypeError and leaves the shared state as it was. A record with a callback behaves as its subscriber does. The same call in `emit` is at lines 205-208. |
| Dispatch.Queue | lib/index.js:153-163 | Every named event's list is contained in the queue, and every queued subscription comes from a named event's list. |
| Dispatch.QueueAppend | lib/index.js:153-163 | The queue of two runs of names is the concatenation of their queues. |
| Dispatch.QueueBlock | lib/index.js:153-163 | The subscribers of the i-th named event form one block. It comes after those of every earlier name and before those of every later one, whatever their weights. |
| Dispatch.QueueSkipsUnregistered | lib/index.js:156-158 | An unregistered name contributes nothing to the queue. |
| Dispatch.QueueOne | lib/index.js:153-163 | The queue of a single name is that event's list. |
| Dispatch.Series | lib/index.js:137-169 | `async.series` over the wrapped queue. `done` is the last call and comes exactly once. The subscribers that ran are a prefix of the queue. Each receives the same arguments, and each sees the shared state its predecessor left. |
| Dispatch.SeriesContinues | lib/index.js:165-169 | A subscriber that succeeds hands over to the rest of the queue with the state it leaves. |
| Dispatch.SeriesStops | lib/index.js:165-169 | A subscriber that fails is the last to run, and `done` follows it at once with that failure. |
| Dispatch.SeriesError | lib/index.js:165-168 | `done` gets null when no subscriber failed. Otherwise it gets the failure of the last subscriber that ran, and every earlier subscriber succeeded. A null error means the whole queue ran. |
| Dispatch.Invoke | lib/index.js:124-170 | `invoke(done, events, ...args)`. `done` is called exactly once, last, with the original arguments. The subscribers called are a prefix of the queue, each with the same copied arguments. `done` receives the error of the subscriber before it. |
| Dispatch.InvokeNothingRegistered | lib/index.js:153-169 | With nothing registered for the named events, `done(null, ...args)` is the only call. |
| Dispatch.ThrowIsSignalled | lib/index.js:142-149 | Inside `invoke`, throwing a value has exactly the effect of calling `next` with it. |
| Dispatch.Broadcast | lib/index.js:194-210 | The loops of `emit`. Subscribers run in queue order with the payload. A signalled error does not stop the loops. A throw of any value ends them and escapes, and the loops return only if every subscriber returned. |
| Dispatch.BroadcastReturned | lib/index.js:194-212 | `emit` returns exactly when every queued subscriber was called and returned normally. |
| Dispatch.EmitArgs | lib/index.js:184-187 | The payload `emit` passes is `arguments` from index 2 on, that is, the arguments after `events` minus the first. |
| Dispatch.Emit | lib/index.js:181-213 | `emit(events, ...extra)` as written. It calls a prefix of the queue in order, passing the extra arguments without the first. It returns exactly when every subscriber returned. |
| Dispatch.EmitIgnoresSignalledErrors | lib/index.js:188-208 | A subscriber behaviour that signals errors through `next` and one that reports success instead give the same calls and the same ending. |
| Dispatch.FalsyThrow | lib/index.js:142-149 | A throw of a falsy value is read by `invoke` as success, and the next subscriber runs. In `emit` the same throw escapes. |
| Dispatch.SeriesIsBroadcastWithoutFailures | lib/index.js:165-169 | When every subscriber called in the run signals plain success, `invoke` and `emit` over the same queue and payload make the same subscriber calls. `invoke` then calls `done(null, ...)` with the state `emit` returns. |
| Dispatch.SeriesThrowsAt | lib/index.js:142-149 | In the series, the subscriber at position k throws whatever the state. Once every subscriber before it has succeeded, it is the last to run, and `done` follows it with the thrown error. |
| Dispatch.InvokeMissingCallback | lib/index.js:142-149 | The record at position k of the queue has no callback. Once every subscriber before it has succeeded, `invoke` calls exactly k + 1 subscribers, that record last. `done` then receives the TypeError raised by calling it. |
| Dispatch.BroadcastThrowsAt | lib/index.js:201-208 | In the loops of `emit`, the subscriber at position k throws whatever the state. Once every subscriber before it has returned, it is the last call and its error escapes. |
| Dispatch.EmitMissingCallback | lib/index.js:201-208 | The record at position k of the queue has no callback. Once every subscriber before it has returned, `emit` calls exactly k + 1 subscribers, that record last. The TypeError then escapes from `emit`. |
| Dispatch.EmitDropsFirstArgument | lib/index.js:185-187 | As written, `emit(e, x)` on a registered event calls its subscribers with no payload at all. |
| Dispatch.IntendedEmit | lib/index.js:181-213 | The corrected `emit` calls a prefix of the queue in order, each subscriber with all the extra arguments. |
| Dispatch.IntendedEmitMatchesInvoke | lib/index.js:128-130 | With the corrected payload, and when every subscriber called in the run signals plain success, `emit` makes the same subscriber calls with the same arguments as `invoke`. |
| Scenarios.FreshRegistryIsEmpty | tests/listener.test.js:570-576 | `events()` on a fresh registry is the empty mapping. |
| Scenarios.OnManyDefaults | tests/listener.test.js:86-105 | `on(['test', 'test2'])` registers one default record under each name, and `events('test')` reads that one-record list. |
| Scenarios.SortedByWeight | tests/listener.test.js:107-140 | Weights 5, default and -5 leave `test` ordered fnc3, fnc2, fnc1, and `test2` holds fnc2. |
| Scenarios.UnRegistry | tests/listener.test.js:152-154 | `on('test', fnc1)`, `on(['test', 'test2'], fnc2)` and `on('test', fnc3)` at the default weight keep `test` in registration order fnc1, fnc2, fnc3, with fnc2 under `test2`. |
| Scenarios.UnScenarios | tests/listener.test.js:146-201 | After those registrations, `un('test', fnc2)` removes fnc2 from `test` only. `un('test')` removes the key and keeps `test2`. |
| Scenarios.UnLeavesEmptyList | lib/index.js:90-107 | Filtering out an event's only callback leaves `[]` under the key, so `events` reads `[]` rather than `null`. Clearing the event makes it read `null`. |
| Scenarios.EmptyNameReadsEverything | lib/index.js:227-229 | An event registered under the empty name cannot be read by name: `events('')` returns the whole registry. |
| Scenarios.WeightedRegistry | tests/listener.test.js:314-316 | Weights 5, 10 and -5 on `test` order it fnc3, fnc1, fnc2. |
| Scenarios.InvokeInWeightedOrder | tests/listener.test.js:295-327 | With that registry, `invoke` runs fnc3, fnc1, fnc2 in that order and then calls `done` with a null error. |
| Scenarios.FailureRegistry | tests/listener.test.js:466-468 | Three `on('test', ...)` calls at the default weight keep `test` in registration order. |
| Scenarios.InvokeStopsAtFailure | tests/listener.test.js:447-521 | After those registrations, a second subscriber that calls `next(err)` or throws `err` stops `invoke`. The third never runs and `done` receives `err`. |

## Left out

- The process-wide `ejs-static` store behind `_static._on`: the registry is
  an explicit value passed in and returned. Chaining (`return _listener`) is
  therefore not modelled.
- The internals of `async.series` and of the host event loop: `Series` is a
  sequential fold that stops at the first truthy error.
- The internals of the external `ejs-sortby`: `SortByWeight` is an insertion
  sort whose contract is a stable ascending sort by weight. That `sortBy`
  sorts stably is an assumption the tests rely on, not something the model
  can check.
- The call receiver `item.scope || me`: the scope is stored as data, but call
  receivers are not modelled.
- Subscribers that never call `next` (the pipeline stalls) or call it more
  than once: `behave` returns exactly one signal per call.
- A subscriber that changes the registry while `invoke` or `emit` is running:
  the queue is taken from the registry as it stands when dispatch starts.
- Real aliasing of shared argument objects: the state is an opaque value of
  a type parameter, threaded from each subscriber to the next and to `done`.
- JavaScript `arguments` and `apply` beyond the slice from index 2.
- Event names that are not strings, and names that clash with
  `Object.prototype` properties (`toString`, `__proto__`): a name is a
  string, and the registry is a map.
- A name passed to `on`, `un`, `invoke` or `emit` as anything other than a
  string or an array of strings.
- The doc comment of `emit` (lib/index.js:173 and 177) calls it the same
  as `invoke` without a `done`, passing on any arguments. The code drops the
  first of those arguments (see Findings). The model follows the code.
- One might expect every throw inside `invoke` to count as a failure. A
  falsy thrown value counts as success (`Dispatch.FalsyThrow`). The model
  follows the code.

## Findings

| source | as written | input that shows it | evidently intended | confidence | as-written member | corrected member |
|---|---|---|---|---|---|---|
| lib/index.js:185-187 | `emit` slices `arguments` from index 2, but its only named parameter is `events`, so the first payload argument is dropped | `emit('test', x)` with a subscriber on `test`: the subscriber is called with no payload | slice from index 1, passing every argument after `events`, as `invoke` does with its two named parameters | high, not executed | Dispatch.EmitDropsFirstArgument | Dispatch.IntendedEmitMatchesInvoke |
