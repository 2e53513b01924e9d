# Tidal dispatcher — a Dafny model

A model of `Tidal`, a small synchronous publish/subscribe dispatcher written
in JavaScript (`tidal.js`). A dispatcher keeps a registry of named channels.
Each channel holds subscription records `{fn, ctx, uid}` in subscription
order, and a counter hands out the uids. The model covers the four members of
the file:

- the constructor, `State.Init`;
- `subscribe(name, fn, context)`, `Subscribing.Subscribe`, which appends a
  record and returns its uid as a token;
- `publish(name, ...args)`, `Publishing.Publish`, which resolves the argument
  list and invokes the channel's callbacks from last subscribed to first;
- `unsubscribe(arg)`, `Unsubscribing.Unsubscribe`. Its selector is a
  `[name, fn]` pair, a channel name, a callback, a context or a uid.

The state is an immutable value `Tidal(cache, order, uid)`. `order` lists the
channel names in creation order, which is the order `for (name in cache)`
visits them. It matters because a scan that throws leaves the channels
visited before the throw changed and the later ones untouched. Callbacks and
contexts are opaque identities (`Fn(id)`, `Ctx`). The dispatcher instance
itself is the context `Self`. A call ends either by returning (`Normal(This)`
for `return this`, `Normal(Undefined)` for the bare `return;`) or with an
exception escaping (`Threw`): a TypeError from the removal loop or from
`apply`, or whatever a callback raises.

Callbacks are foreign code. `publish` therefore yields the trace of
invocations it makes. A set `raises` names the callbacks that throw once
invoked.

The removal loops of `unsubscribe` are modelled as written, with
`Removal.SpliceLoop`. The bound is read once and the index advances after
every `splice`. They are proved equal to a reference sweep over the original
positions, and from that:

- the loop throws exactly when a matching record sits before the last slot
  of its channel;
- when it returns, every matching record is gone;
- either way, non-matching records all stay, in order.

Modules follow the source: `State` (data model, registry invariant `Valid`),
`Subscribing`, `Publishing`, `Removal` (the splice loop),
`Unsubscribing`, `Corrected` (the removal the documentation describes) and
`Lifecycle` (runs of calls, token round trips, concrete counterexamples).

## Model

| member | source | states |
|---|---|---|
| State.Init | tidal.js:1-4 | A new dispatcher has no channels, the next uid handed out is 0, and it satisfies the registry invariant |
| Subscribing.Subscribe | tidal.js:18-30 | The token is the previous counter plus one and becomes the new counter; the channel exists afterwards and holds its old records followed by the new one; every other channel is unchanged |
| Subscribing.SubscribeFreshToken | tidal.js:26-29 | On a valid dispatcher the new token is larger than every uid already stored, so no stored record carries it |
| Subscribing.FirstTokenIsZero | tidal.js:1-29 | The first subscription on a fresh dispatcher gets token 0 and is the channel's only record |
| Subscribing.SubscribeKeepsValid | tidal.js:18-30 | Subscribing preserves the registry invariant: the enumeration order covers each channel once, each channel is sorted by uid, and uids are unique and already handed out |
| Subscribing.SubscribeKeepsOrder | tidal.js:19-21 | A channel created by the call joins the end of the enumeration order and existing channels keep their places; the order still lists every channel exactly once |
| Publishing.ResolveArgs | tidal.js:50 | Several trailing arguments are the list themselves; no argument or a single falsy one gives the empty list; a single array gives its items; a single plain object gives the empty list (its `length` is undefined); there is no list exactly when the single argument is a non-zero number, `true` or a symbol |
| Publishing.BothCallFormsAgree | tidal.js:32-43 | `publish(name, [a, b, ...])` and `publish(name, a, b, ...)` deliver the same list, for any list whose length is not 1 |
| Publishing.Dispatch | tidal.js:51-62 | The loop invokes records from the last down, with their own context and the one argument list. It throws exactly when a callback in `raises` is reached; it stops right after that callback and invokes everything when none throws |
| Publishing.ReverseIsPermutation | tidal.js:51-53 | The reference invocation order, last record first, is a permutation of the channel: each record appears once |
| Publishing.Publish | tidal.js:45-65 | An absent channel gives no invocation and `undefined`; otherwise the call never returns `undefined`, the invocations are the channel's records from the last one down with the resolved list, at most one per record, and a throw needs a non-empty channel |
| Publishing.PublishInvokesAllInReverse | tidal.js:45-65 | With no throwing callback, publish invokes every record of the channel once, in reverse subscription order, with the resolved arguments, and returns the dispatcher |
| Publishing.PublishStopsAtThrow | tidal.js:53-62 | The invocations made are a prefix of the full reverse order. The call throws exactly when the channel holds a throwing callback, and the last invocation is then a throwing one |
| Publishing.PublishAbsentChannel | tidal.js:46-47 | Publishing to an absent channel invokes nothing and returns `undefined` |
| Publishing.PublishScalarArgument | tidal.js:50-60 | A single non-zero number, `true` or symbol as argument invokes nothing; the call throws exactly when the channel is not empty |
| Publishing.PublishPlainObjectArgument | tidal.js:50-60 | With no throwing callback, a single plain object as argument does not throw: every record is invoked with no arguments, last subscribed first, and the dispatcher is returned |
| Removal.SurvivorsMembers | tidal.js:67-79 | The reference result of a removal holds exactly the records that do not match, and is no longer than the channel |
| Removal.SpliceLoop | tidal.js:92-96 | The loop as written only ever returns records that were in the channel |
| Removal.Loop | tidal.js:92-96 | The loop run over a whole channel, from index 0 with the bound read as its length, throws exactly when a record before the last one matches; when it returns, exactly the non-matching records are left |
| Removal.SpliceLoopIsSweep | tidal.js:92-96 | The splice loop resumed at index `i` keeps the first `i` records and behaves as the reference sweep over the rest, with the iterations left |
| Removal.SweepExact | tidal.js:103-109 | With one iteration per record, the sweep throws exactly when a record before the last one matches. When it returns, the result is exactly the non-matching records; when it throws, something was removed |
| Removal.LoopOutcome | tidal.js:103-109 | The loop over a channel throws exactly when a record before the last one matches; a normal return leaves exactly the non-matching records. Either way non-matching records stay in order, nothing is added and the uid order is kept |
| Removal.NoMatchUnchanged | tidal.js:103-109 | A channel with no matching record comes back unchanged, without a throw |
| Removal.FinalMatchRemoved | tidal.js:92-96 | A single match in the last slot is removed and the loop returns normally |
| Removal.LoopSingleMatch | tidal.js:103-109 | With at most one match, the loop removes it and nothing else, even when it throws afterwards |
| Removal.FixedLoop | tidal.js:67-79 | The corrected loop keeps the records before its index and removes every match after it |
| Unsubscribing.Scan | tidal.js:101-110 | The scan over the channels never adds or drops a channel |
| Unsubscribing.Unsubscribe | tidal.js:80-114 | No selector changes the counter, the enumeration order or the set of channels |
| Unsubscribing.ScanKeepsSurvivors | tidal.js:101-110 | Whether or not it throws, the scan only removes matching records, keeps the others in order, and leaves channels it does not reach as they were |
| Unsubscribing.ScanThrowsIff | tidal.js:101-110 | The scan throws exactly when a channel it reaches has a match before its last record |
| Unsubscribing.ScanCleansWhenOk | tidal.js:101-110 | When the scan returns, every channel it reached holds exactly its non-matching records |
| Unsubscribing.ScanCrashShape | tidal.js:101-110 | When the scan throws in the first channel with a non-final match, earlier channels are cleaned, that one keeps what its loop had left, and later ones are untouched |
| Unsubscribing.UnsubscribeKeepsValid | tidal.js:80-114 | Every unsubscribe call, even one that throws, preserves the registry invariant |
| Unsubscribing.UnsubscribePair | tidal.js:88-96 | `[name, fn]` on an absent channel changes nothing and returns `undefined`. Otherwise only that channel changes and records with another callback stay in order; the call throws exactly when a record with `fn` sits before the last slot, and a normal return leaves no record with `fn` |
| Unsubscribing.UnsubscribeName | tidal.js:97-99 | A name empties an existing channel, which stays, and touches nothing else; an absent name changes nothing and returns `undefined` |
| Unsubscribing.ScanThrowsIffSomeChannel | tidal.js:100-110 | Over all channels, the scan throws exactly when some channel has a match before its last record |
| Unsubscribing.UnsubscribeScan | tidal.js:100-113 | A callback, context or uid selector keeps every non-matching record. The call throws exactly when some channel has a non-final match; a normal return leaves no matching record anywhere and returns the dispatcher |
| Unsubscribing.UnsubscribeScanNoMatch | tidal.js:100-113 | A callback, context or uid selector that matches nothing changes nothing and returns the dispatcher |
| Unsubscribing.UnsubscribeScanThrows | tidal.js:101-110 | A throwing scan affects channels in enumeration order: cleaned before the first channel with a non-final match, partly cleaned there, untouched after |
| Unsubscribing.ScanRemovesUnique | tidal.js:101-110 | When at most one record matches anywhere, the scan removes exactly that record, whether or not it throws |
| Unsubscribing.UnsubscribeUnique | tidal.js:100-110 | A callback, context or uid selector that at most one record meets removes exactly that record. The call throws exactly when that record is not the last of its channel |
| Unsubscribing.UidIsUnique | tidal.js:23-27 | On a valid dispatcher a uid is carried by at most one record |
| Unsubscribing.UnsubscribeUidRemovesExactlyIt | tidal.js:100-110 | `unsubscribe(uid)` removes the one record with that uid and nothing else; it still throws when that record is not the last of its channel |
| Corrected.Clean | tidal.js:67-79 | The corrected removal on a channel yields exactly its non-matching records |
| Corrected.UnsubscribeIntended | tidal.js:67-79 | The corrected call never throws and keeps the counter, order and channels |
| Corrected.IntendedRemovesAllMatches | tidal.js:67-79 | The corrected call removes every matching record from every channel (from the named channel for a pair) and keeps every other record, in order |
| Corrected.AsWrittenAgreesWhenNormal | tidal.js:80-114 | Whenever the code as written returns normally, its result equals the corrected call's |
| Corrected.IntendedKeepsValid | tidal.js:67-79 | The corrected call preserves the registry invariant |
| Lifecycle.Run | tidal.js:18-30 | A run of subscribe and unsubscribe calls returns exactly one token per subscribe call and none per unsubscribe call, the k-th token is the starting counter plus k plus one, and the counter ends advanced by the number of tokens |
| Lifecycle.RunKeepsValid | tidal.js:23-29 | Along any run of subscribe and unsubscribe calls the registry stays valid: channels enumerated once each, uids increasing within a channel, none above the counter, and each uid on one channel only |
| Lifecycle.TokensCountFromZero | tidal.js:1-29 | From a fresh dispatcher the n-th subscribe call returns token n - 1 (one token per subscribe call, 0, 1, 2, ... in call order) whatever unsubscribe calls come between, so they are never reused |
| Lifecycle.UnsubscribeTokenUndoesSubscribe | tidal.js:67-110 | Unsubscribing by the token just returned restores the registry, leaving a newly created channel empty; it returns the dispatcher and agrees with the corrected call |
| Lifecycle.UndoAppended | tidal.js:100-110 | Removing by uid a record appended last, with every older uid smaller, restores the channel without a throw |
| Lifecycle.WipeThenResubscribe | tidal.js:97-99 | After a channel is emptied by name, a new subscription on it is the only one a later publish reaches |
| Lifecycle.TwiceOnOneChannelReached | tidal.js:18-30 | Two subscribe calls with one callback on one channel produce the two-record state used below, with tokens 0 and 1 |
| Lifecycle.DuplicatePairThrows | tidal.js:92-96 | `unsubscribe(["e", fn])` with `fn` subscribed twice on "e" throws and leaves the second record subscribed; the corrected call empties the channel and returns the dispatcher |
| Lifecycle.SingleMatchPairThrows | tidal.js:92-96 | `unsubscribe(["e", fn])` on a channel holding `fn` and then another callback removes `fn` and then throws |
| Lifecycle.DefaultContextReached | tidal.js:18-30 | Three subscribe calls on two channels produce the state used below, with tokens 0, 1 and 2 |
| Lifecycle.DefaultContextScanThrows | tidal.js:100-110 | `unsubscribe(tidal)` throws in the first channel, leaving one default-context record there and the second channel untouched; the corrected call empties both channels |
| Lifecycle.DefaultContextRemovedByDispatcher | tidal.js:76-77 | A record subscribed without a context is bound to the dispatcher, and the corrected `unsubscribe(tidal)` removes it together with every other record bound to the dispatcher |
| Lifecycle.ContextSelectorSparesOthers | tidal.js:100-107 | A context selector, even one that throws, keeps every record bound to another context |
| Lifecycle.OwnContextSurvivesDispatcherSelector | tidal.js:76-77 | A record subscribed with an object of its own as context survives `unsubscribe(tidal)` |
| Lifecycle.UidUnsubscribeRemovesAsIntended | tidal.js:100-110 | For every uid on a valid registry, `unsubscribe(uid)` leaves the registry exactly as the corrected call does (only the record carrying that uid removed), and throws exactly when that record is not the last of its channel |
| Lifecycle.EarlierTokenThrows | tidal.js:103-109 | On the two-channel state (callbacks 1 and 2 on "a", callback 3 on "b"), `unsubscribe(0)` removes uid 0 from "a" and throws before "b" is reached; the corrected call makes the same removal and returns the dispatcher |

## Left out

- The JavaScript number type: `_uid` is an unbounded integer here. Past 2^53 the source's `++this._uid` stops producing distinct values, and that is not modelled.
- Single trailing `publish` arguments that are non-empty strings, functions or objects with a `length` property. The source then takes `args.length` as the argument count. A string of 1 to 3 characters, or a function declaring 0 to 3 parameters, is spread by the `call` branches: characters, or `undefined`s. A longer string makes `apply` throw. A longer function is spread by `apply`, so callbacks get `undefined`s. An array-like object is spread by the `call` branches or by `apply`, depending on its `length`; either way callbacks get its indexed properties. The model has arrays, falsy values, plain objects without `length` (callbacks get no arguments), and `Scalar` for non-zero numbers, `true` and symbols (`apply` throws).
- The `call`/`apply` switch on the argument count (tidal.js:55-61): all its branches pass the same list, so the model has one invocation form.
- Callbacks themselves: they are identities, and `publish` yields a trace instead of running them. A callback that calls back into the dispatcher during `publish` (re-entrancy, mutation of the live array during dispatch) is not modelled.
- Selector shapes beyond the modelled ones. `null` (`typeof` is `'object'`, so it is a context selector), a function used as a context, and a selector that is both an array and an object are represented by the `Selector` variants that the `typeof`/`toString` checks at tidal.js:83-87 pick. `Other` stands for booleans and `undefined`, which match no branch.
- Names that are not plain strings, and the `hasOwnProperty`/prototype lookup: every channel name is a `string` key of a map. `__proto__` as a name, and keys that look like array indices (which `for (name in cache)` visits first, in numeric order), are not modelled. The model's enumeration order is creation order.
- Publishing.BothCallFormsAgree: stated only for lists whose length is not 1, because a single value passed alone is read as the list itself (`publish(name, [x])` and `publish(name, x)` differ).
- Lifecycle.Run: covers subscribe and unsubscribe only, because `publish` does not change the registry (re-entrancy left out above).

## Findings

The documentation of `unsubscribe` promises a `Tidal` return value
(tidal.js:71). For a callback or context selector it promises the removal of
all matching subscriptions (tidal.js:76-78). For a pair it speaks of "a single
callback handler" (tidal.js:74), which can be read as one record or as one
callback however often it is subscribed. The removal loops do not re-read the
array length after `splice`, and they advance the index past the record that
slid into the freed slot. That record is never examined. After any removal
before the last slot of a channel, the loop reads `handlers[i]` at the first
`i` at or past the shortened length, and `undefined.fn` throws a TypeError.
This happens even with a single match: `unsubscribe(["e", fn])` on a channel
holding `fn` and then another callback throws after removing `fn`, whichever
reading of line 74 is taken. `Corrected` holds the loop that re-examines slot
`i` and the lemmas about it. It follows the "all matching" reading for every
selector.

Two further differences between the code and its written description are
modelled as the code behaves, not as findings. `publish` on an absent channel
returns `undefined`, not the dispatcher. The early returns in `unsubscribe`
(absent channel for a pair or a name) also return `undefined`.

| source | as written | input that shows it | evidently intended | confidence | as-written member | corrected member |
|---|---|---|---|---|---|---|
| tidal.js:92-96 | index advances after `splice`, bound `l` fixed | `fn` subscribed twice on "e", then `unsubscribe(["e", fn])` | no TypeError: the dispatcher returned, with every record with `fn` on "e" removed | high, not executed | Lifecycle.DuplicatePairThrows | Corrected.IntendedRemovesAllMatches |
| tidal.js:103-109 | same loop inside the `for (name in cache)` scan | records with callbacks 1 and 2 on "a" and one on "b", then `unsubscribe(0)` or `unsubscribe(tidal)` | the matching records removed from every channel, the dispatcher returned | high, not executed | Lifecycle.EarlierTokenThrows | Corrected.IntendedRemovesAllMatches |
