# EvoSync bridge, modelled in Dafny

EvoSync lets two front-ends on different origins share a few named
local-storage entries. It uses a hosted REST table (Supabase/PostgREST) as a
key-value relay. The bridge does three things:

- It wraps `localStorage.setItem`, `removeItem` and `clear`. A write or remove
  of a watched key is then mirrored to the relay as an upsert or a delete.
- It pulls the watched keys back from the relay and writes them into local
  storage. While it does, the suppression flag `_applying` is set, so these
  inbound writes are not pushed out again.
- It builds the relay's REST base address and the `key=in.("k1","k2",...)`
  filter of its read request.

The model is a `Bridge` class (module `Sync`) with these fields:

- `storage`: local storage, a `map<string, string>`.
- `outbox`: the remote calls issued so far, a log of `UpsertRow(k, v)` and
  `DeleteRow(k)`.
- `applying` and `hooked`: the two flags.
- `watch`: the watched key set.

The wrapped primitives, the installation, the pull and the explicit
`upsert`/`delRemote`/`fetchMany` are methods of the class. Each method is
specified by pure functions in its own module:

- `Wire`: the availability gate, the REST base, the key list and the filter.
- `LocalStore`: the unwrapped storage primitives.
- `Interceptor`: which remote call a wrapped primitive issues.
- `Reconcile`: what applying a batch of rows does to storage.
- `AutoPull`: the interval and callback decisions of `startAutoPull`.

`Relay` models the relay table only far enough to state the push-then-pull
round trip.

What the JavaScript bridge takes from its environment is a parameter here:

- JSON decoding and encoding are function values (`parse`, `encode`) given to
  the constructor. The round-trip lemma assumes only that `parse` inverts
  `encode`.
- The fetch result is a `FetchResult` argument: the request failed, or these
  rows came back.
- A local write that throws, such as a quota error, is given as the set of
  row indices whose write fails.

The JavaScript `keys` argument can be absent or an empty array. Both choose
the default keys (`keys && keys.length`), so the model uses one `seq<string>`
and reads `[]` as "absent". A JSON `null` response body reads as no rows:
`!rows` and `!rows.length` make the same decision.

Three details of the code that the model follows:

- The gate checks that both configuration fields are truthy, meaning present
  and non-empty, not just present.
- Inbound rows are written through `localStorage.setItem` itself. Once the hook
  is installed, that is the wrapped setter. The suppression flag is what keeps
  those writes local (`Sync.Bridge.WriteRows` calls `SetItem`).
- `hookLocalStorage` does not consult the gate. It installs the wrappers even
  when the bridge is unconfigured. The mirrored calls then become no-ops
  inside `upsert`/`delRemote`.

Two consequences of the code that the lemmas make explicit:

- A text that is not JSON is pushed as a JSON string. The next pull stores it
  back as that string's encoding (`Relay.PushThenPull`). The local entry `abc`
  therefore turns into `"abc"`.
- The watched set uses the keys as given, while the read filter removes their
  quotes. A watched key containing `"` is pushed under its own name but read
  back under another. No read ever returns a row for such a key, whatever the
  relay holds (`Relay.QuotedKeyNeverPulled`), so no pull rewrites or removes
  its local entry (`Relay.QuotedKeyNeverRewritten`). On a relay with no row
  `ab`, the pull after writing `a"b` finds nothing and returns false
  (`Relay.QuotedKeyNotPulledBack`). The round trip of `Relay.PushThenPull` is
  therefore stated for quote-free keys.

## Model

| member | source | states |
|---|---|---|
| `Wire.IsConfigured` | evo-sync.js:12-14 | true exactly when a configuration exists and both `supabaseUrl` and `anonKey` are present and non-empty |
| `Wire.StripTrailingSlashes` | evo-sync.js:17 | the result is a prefix of the URL that does not end in `/`, and everything cut off is `/` |
| `Wire.StripTrailingSlashesUnique` | evo-sync.js:17 | those three properties determine the stripped URL uniquely |
| `Wire.RestBase` | evo-sync.js:16-18 | the base ends in `/rest/v1`; what precedes it is a prefix of the URL with no `/` immediately before `/rest/v1`; only slashes were dropped |
| `Wire.RestBaseIgnoresTrailingSlashes` | evo-sync.js:16-18 | appending any number of `/` to the project URL leaves the REST base unchanged |
| `Wire.KeyList` | evo-sync.js:55 | the given keys when there are any, otherwise `DEFAULT_KEYS`; never empty |
| `Wire.StripQuotes` | evo-sync.js:55 | the cleaned key holds no `"`, and a key without `"` is unchanged |
| `Wire.StripQuotesKeepsOthers` | evo-sync.js:55 | cleaning keeps every character other than `"` exactly as often as it occurs |
| `Wire.StripQuotesAppend` | evo-sync.js:55 | cleaning distributes over concatenation, so it removes quotes in place and keeps the order of the rest |
| `Wire.FetchKeys` | evo-sync.js:55 | the fetched list is `KeyList(keys)` with each key cleaned; it is non-empty and quote-free, and equals `KeyList(keys)` when that holds no quotes |
| `Wire.DefaultKeysQuoteFree` | evo-sync.js:5 | the four default keys hold no quotes, so the default fetch list is `DEFAULT_KEYS` itself |
| `Wire.InFilter` | evo-sync.js:57 | `in.(` followed by the quoted keys joined by `,` and `)`; `ParseInFilter` reads it back |
| `Wire.InFilterRoundTrip` | evo-sync.js:56-57 | the `in.("k1",...,"kn")` filter of quote-free keys reads back into exactly those keys, so its only quotes are delimiters |
| `Wire.InFilterQuoteCount` | evo-sync.js:57 | the filter of n quote-free keys contains exactly 2n `"` characters |
| `Wire.FetchRequest` | evo-sync.js:53-58 | unconfigured: no request; configured: the request uses `RestBase(supabaseUrl)` and a filter that reads back into the cleaned key list and holds exactly two quotes per key |
| `LocalStore.After` | evo-sync.js:89-119 | unwrapped set stores the text under the key; remove drops the key; clear empties storage; other keys keep their text |
| `Interceptor.PushedValue` | evo-sync.js:99-105 | the pushed value is the decoded text when it parses, and the raw text as a string otherwise |
| `Interceptor.Outbound` | evo-sync.js:93-119 | a wrapped primitive issues at most one call; clear issues none; set and remove issue one exactly when configured, hooked, not applying and the key is watched; the call is an upsert of the pushed value or a delete of the key |
| `Interceptor.TraceOnlyWatched` | evo-sync.js:96 | across any run of wrapped calls, every remote call names a watched key |
| `Interceptor.TraceLength` | evo-sync.js:93-119 | a run issues exactly one remote call per set or remove of a mirrored key, and none for clears |
| `Interceptor.TraceSilent` | evo-sync.js:95 | while the suppression flag is on, or before installation or configuration, a run issues no remote call |
| `Interceptor.TraceDeletesOnlyRemoved` | evo-sync.js:108-119 | no run issues a delete for a key it did not remove; in particular clear never deletes remotely |
| `Reconcile.RowText` | evo-sync.js:76 | a row is stored as the encoding of its value, with a missing value encoded as `null` |
| `Reconcile.ApplyRows` | evo-sync.js:74-78 | rows written in order, a failed write skipped; storage keeps every old key and gains the key of every successful row, and `ApplyRowsKeys`, `ApplyRowsUntouched` and `ApplyRowsLastWins` fix the rest |
| `Reconcile.ApplyRowsKeys` | evo-sync.js:74-78 | after an apply, storage holds the old keys plus the key of every row whose write succeeded |
| `Reconcile.ApplyRowsUntouched` | evo-sync.js:74-78 | a key that no successful row names keeps its old entry, or stays absent |
| `Reconcile.ApplyRowsLastWins` | evo-sync.js:74-78 | the last successful row for a key determines its stored text, so later rows win and failed rows are skipped |
| `Reconcile.ApplyOutcome` | evo-sync.js:67-83 | an apply returns true exactly when configured and rows came back; it throws exactly when configured and the fetch failed; otherwise it returns false |
| `AutoPull.IntervalMs` | evo-sync.js:125 | the interval is `opts.intervalMs` when that is non-zero; it is 5000 when `opts` or the field is missing or the field is 0 |
| `AutoPull.OnPulled` | evo-sync.js:126 | the callback option is the one in `opts`, or none without `opts` |
| `AutoPull.StartAutoPull` | evo-sync.js:124-128 | no schedule exactly when unconfigured; otherwise a schedule with that interval and callback |
| `AutoPull.Notifies` | evo-sync.js:132-133 | `onPulled` is called exactly when the pull returned true and the option is a function |
| `Sync.Bridge.constructor` | evo-sync.js:8-10 | a new session is unhooked, not applying, with an empty log and the given storage |
| `Sync.Bridge.Upsert` | evo-sync.js:28-41 | logs one upsert of the key and value when configured, nothing otherwise |
| `Sync.Bridge.DelRemote` | evo-sync.js:43-51 | logs one delete of the key when configured, nothing otherwise |
| `Sync.Bridge.FetchMany` | evo-sync.js:53-65 | sends `FetchRequest(cfg, keys)`; unconfigured, it resolves to no rows, and configured, to the relay's answer |
| `Sync.Bridge.HookLocalStorage` | evo-sync.js:85-122 | afterwards hooked; if already hooked, the watch set is unchanged; the first call fixes it to `KeyList(keys)`; the session invariant is kept |
| `Sync.Bridge.SetItem` | evo-sync.js:93-106 | storage becomes exactly what the unwrapped set gives; the log grows by `Outbound` of the set |
| `Sync.Bridge.RemoveItem` | evo-sync.js:108-113 | storage becomes exactly what the unwrapped remove gives; the log grows by `Outbound` of the remove |
| `Sync.Bridge.Clear` | evo-sync.js:115-119 | storage is emptied and the log is untouched |
| `Sync.Bridge.ApplyRemoteToLocal` | evo-sync.js:67-83 | the read request sent is `FetchRequest(cfg, keys)`, none when unconfigured; the outcome is `ApplyOutcome`; when true, storage is `ApplyRows` of the rows and the flag is off; otherwise storage and the flag are unchanged; the log never grows; the session invariant is kept |
| `Sync.Bridge.ApplyFetched` | evo-sync.js:70-82 | the same, once the fetch has resolved: an empty result returns false untouched, and rows are applied with the flag set and then cleared |
| `Sync.Bridge.WriteRows` | evo-sync.js:74-78 | with the flag set, writing every row through the wrapped setter yields `ApplyRows` and issues no remote call |
| `Sync.Bridge.DoPull` | evo-sync.js:128-135 | on the schedule `StartAutoPull` built from the options, so only for a configured bridge, a pull calls the schedule's `onPulled` exactly as `Notifies` says; when rows were applied storage is `ApplyRows` and the flag is off, otherwise storage and the flag are unchanged; a thrown error is swallowed, no remote write is issued, and the session invariant is kept |
| `Relay.Commit` | evo-sync.js:28-51 | an upsert replaces the row for its key, a delete removes it, and other rows are unchanged |
| `Relay.Select` | evo-sync.js:57-58 | a read returns only rows of listed keys that are stored, carrying their stored values, and returns a row for every listed stored key |
| `Relay.PushThenPull` | evo-sync.js:93-105 | given JSON laws, writing a watched quote-free key and pulling it back through `fetchMany`'s key list stores text that decodes to the pushed value: the decoded text for JSON, the raw text as a string otherwise |
| `Relay.QuotedKeyFetchedAs` | evo-sync.js:55 | `fetchMany(['a"b'])` asks for the key `ab` |
| `Relay.QuotedKeyNotPulledBack` | evo-sync.js:55-87 | on a relay holding no row `ab`, a write of the watched key `a"b` reaches the relay under `a"b`, but its pull reads `ab`, gets no row and returns false |
| `Relay.QuotedKeyNeverPulled` | evo-sync.js:55 | for any relay table and any key list, no row the read returns has a key containing `"` |
| `Relay.QuotedKeyNeverRewritten` | evo-sync.js:55-87 | for any relay table, a pull leaves the local entry of a key containing `"` (or its absence) unchanged |

## Left out

- The `fetch` calls, HTTP status checks, response bodies and the error strings
  thrown are network I/O. A fetch result is an input, and remote writes are a
  log of requests. The relay's answer to an upsert or delete is not observed.
- `_headers` and the `apikey`/`Authorization`/`Content-Type`/`Prefer` headers
  are request metadata for the network calls. They are not modelled.
- The exact URL suffixes (`/kv?on_conflict=key`,
  `/kv?key=eq.`, `/kv?select=...&key=`) are not modelled, and neither is
  `encodeURIComponent`. Only the REST base and the unencoded filter are.
- The `updated_at` timestamp from `new Date().toISOString()` reads the wall
  clock and is informational. Rows carry an `updatedAt` field that nothing
  reads.
- The real `JSON.parse` and `JSON.stringify` are library calls. They are
  abstract function parameters. JSON numbers are integers, so floating point
  is not modelled.
- `setInterval`, the `focus` and `visibilitychange` listeners and
  `document.hidden` are timers and event-loop concurrency. Only the schedule
  chosen and a single `doPull` are modelled. Pulls that interleave with other
  asynchronous work are not.
- Swallowed promise rejections (`.catch(()=>{})`) are asynchronous. Issuing a
  request is the modelled effect.
- `Sync.Bridge.SetItem`: does not model a host's own `setItem` throwing, for
  example on a quota error, on which the wrapper pushes nothing. Only writes
  during an apply can fail in the model.
- `AutoPull.IntervalMs`: `intervalMs` is an integer. A NaN or non-numeric
  option is not modelled.
- The `window.EvoSync` and `window.EVO_SYNC_CONFIG` globals, and the
  monkey-patching of `localStorage` itself, are global plumbing. The bridge is
  an object whose methods stand for the wrapped primitives.
- `evo-sync-config.example.js` is a placeholder configuration with no logic.
  Its only bearing is the two fields of `Wire.Config`.
