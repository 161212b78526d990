# pokedexcli core, modelled in Dafny

A model of the sequential core of `pokedexcli`, a command-line Pokedex that
pages through PokeAPI location areas:

- **Cache engine** (`pokecache.dfy`, module `PokeCache`): a map from string
  keys to `CacheEntry(createdAt, val)`. `Add`, `Get` and `reap` become pure
  functions over that map, with the clock passed in as an integer number of
  nanoseconds. `reap` is given twice: as a comprehension (`Reap`) and as the
  source's range-and-delete loop (`ReapByDeletion`), proved to agree.
- **Read-through fetchers** (`pokeapi.dfy`, module `PokeApi`): `ListLocations`
  and `GetLocation` share one control flow (`ReadThrough`): look the URL up;
  on a hit decode the cached bytes; on a miss fetch, decode, and store the raw
  bytes only if the decode succeeded. Fetching and JSON decoding are oracle
  parameters; each call reports the URLs it requested from the network.
- **Input tokenizer and dispatch** (`repl.dfy`, module `Repl`): `cleanInput`
  as ASCII lower-casing followed by `strings.Fields`, the command/arguments
  split of the REPL loop, and the command table.
- **Pagination cursors** (`command_map.dfy`, module `CommandMap`): `map` and
  `mapb` as transitions of the `(cache, next, prev)` configuration.
- `wrappers.dfy` (module `Wrappers`): `Option`, `Result` and `Error`.

Points where the code behaves other than a reader might expect, and which
the model follows:

- `NewCache` never starts the reaping loop; it only makes an empty map, so in
  the running program entries never expire. `NewCache` here returns the empty
  map and ignores its interval.
- The expiry test is strict: an entry is reaped when `createdAt < now - interval`,
  so an entry exactly `interval` old survives (`BoundaryEntrySurvives`).
- On a miss the fetched bytes are decoded first and stored only when the
  decode succeeds; bytes that fail to decode are never cached.

## Model

| member | source | states |
|---|---|---|
| PokeCache.NewCache | internal/pokecache/pokecache.go:23-30 | a new cache answers not-found, with empty bytes, for every key |
| PokeCache.Add | internal/pokecache/pokecache.go:34-41 | the key set grows by exactly `key`; `key` holds the new value stamped with `now`; every other entry is unchanged |
| PokeCache.Get | internal/pokecache/pokecache.go:45-50 | found iff the key is stored; on a hit the stored bytes, on a miss the empty (nil) value |
| PokeCache.Expired | internal/pokecache/pokecache.go:66 | an entry is expired iff its age `now - createdAt` strictly exceeds the interval |
| PokeCache.Reap | internal/pokecache/pokecache.go:62-70 | keeps exactly the entries not created strictly before `now - last`, values unchanged, no key added |
| PokeCache.ReapByDeletion | internal/pokecache/pokecache.go:62-70 | deleting expired keys one by one while ranging over the store yields exactly `Reap` |
| PokeCache.BoundaryEntrySurvives | internal/pokecache/pokecache.go:66 | an entry created exactly at `now - last` is still found after a reap |
| PokeCache.ReapRemovesIffPastInterval | internal/pokecache/pokecache.go:65-68 | an entry stored at `t0` survives a reap at `now` iff `now <= t0 + last` |
| PokeCache.EmptyValueIsAHit | internal/pokecache/pokecache.go:37-49 | a stored empty value reads back as `(empty, true)`, unlike a miss, `(empty, false)` |
| PokeCache.ReapIdempotent | internal/pokecache/pokecache.go:62-70 | reaping twice with the same clock and interval equals reaping once |
| PokeCache.AddOverwrites | internal/pokecache/pokecache.go:37-40 | a second `Add` for a key replaces value and timestamp and `Get` returns the second value |
| PokeCache.ReadAfterWrite | internal/pokecache/pokecache.go:34-50 | after `Add(k, v)`, `Get(k)` returns `(v, true)` after any run of adds, gets and reaps that neither overwrites nor reaps `k` |
| PokeCache.StoredEntryPersists | internal/pokecache/pokecache.go:34-70 | an entry survives, unchanged, every operation sequence that neither overwrites nor expires it |
| PokeCache.ReapsOnlyShrink | internal/pokecache/pokecache.go:65-68 | any sequence of reaps leaves a subset of the keys, with their values unchanged |
| PokeCache.HundredMillisecondScenario | internal/pokecache/pokecache.go:34-70 | with a 100 ms interval, a value stored at 0 is found at 50 ms and gone after a reap at 150 ms |
| PokeApi.ReadThrough | internal/pokeapi/location_list.go:20-69 | a fetch is attempted exactly on a miss; a hit returns the decode of the cached bytes (value or error) with no fallback; fetch and decode errors propagate with the zero value and an unchanged cache; a miss whose fetch and decode succeed returns the decoded value and stores the raw bytes under the URL; the only cache change is that store |
| PokeApi.ListURL | internal/pokeapi/location_list.go:15-18 | the first-page URL when no page URL is given, otherwise exactly the page URL |
| PokeApi.ListLocations | internal/pokeapi/location_list.go:13-70 | the full read-through contract (hit value and error, fetch and decode errors, successful-miss store) for the resolved listing URL, with the zero page on every error |
| PokeApi.LocationURL | internal/pokeapi/location_get.go:17 | the key is the location-area prefix followed by the unescaped location name |
| PokeApi.LocationURLInjective | internal/pokeapi/location_get.go:17 | two location names share a key iff they are equal |
| PokeApi.LocationURLNotFirstPage | internal/pokeapi/location_get.go:17 | a location key never equals the first listing page's key |
| PokeApi.GetLocation | internal/pokeapi/location_get.go:15-74 | the full read-through contract (hit value and error, fetch and decode errors, successful-miss store) for the location URL, with the empty location on every error |
| PokeApi.ListLocationsSecondCallHits | internal/pokeapi/location_list.go:21-67 | after a successful listing call, the same page again makes no request, returns the same page and keeps the cache |
| PokeApi.GetLocationSecondCallHits | internal/pokeapi/location_get.go:20-70 | after a successful location call, the same name again makes no request, returns the same value and keeps the cache |
| PokeApi.CachedPageExpires | internal/pokeapi/location_list.go:21-67 | after a successful miss and a reap, the page is fetched again iff it was stored strictly before `now - interval` |
| Repl.LowerChar | repl.go:70 | the result is never upper case; upper-case letters map to their lower-case partner, all else is kept; white space is preserved |
| Repl.ToLower | repl.go:70 | same length, and each character is the ASCII lower-case mapping of the input's character at that position |
| Repl.WordLength | repl.go:71 | the front run of non-space characters, ending at white space or the end of the line |
| Repl.Fields | repl.go:71 | every field is non-empty and contains no white space |
| Repl.CleanInput | repl.go:69-73 | every word is non-empty, free of white space and free of upper case |
| Repl.FieldsKeepText | repl.go:71 | the fields laid end to end are the line with its white space removed, in order |
| Repl.FieldsEmptyIffBlank | repl.go:71 | a line has no fields iff it is all white space |
| Repl.FieldsOfJoin | repl.go:71 | splitting well-formed words joined by single spaces gives them back |
| Repl.FieldsOfPadded | repl.go:71 | words separated and surrounded by white space of any width are exactly the fields |
| Repl.ToLowerIdempotent | repl.go:70 | lower-casing twice equals lower-casing once |
| Repl.CleanInputSeesOnlyLowerCase | repl.go:69-73 | two lines with the same lower-case form clean to the same words |
| Repl.CleanInputIdempotent | repl.go:69-73 | cleaning the space-joined output of `cleanInput` gives the same words |
| Repl.CleanInputEmptyIffBlank | repl.go:69-73 | the word list is empty iff the line is all white space |
| Repl.CleanInputKeepsText | repl.go:69-73 | the words laid end to end are the lower-cased line without white space |
| Repl.CleanInputBlankExample | repl_test.go:17-20 | `"  "` cleans to no words |
| Repl.CleanInputOneWordExample | repl_test.go:22-25 | `"  hello  "` cleans to `["hello"]` |
| Repl.CleanInputTwoWordsExample | repl_test.go:27-30 | `"  hello  world  "` cleans to `["hello", "world"]` |
| Repl.CleanInputMixedCaseExample | repl_test.go:32-35 | `"  HellO  World  "` cleans to `["hello", "world"]` |
| Repl.GetCommands | repl.go:83-111 | the table has exactly the keys help, map, mapb, explore and exit, with `map` and `mapb` bound to the paging callbacks |
| Repl.CommandNamesMatchKeys | repl.go:84-110 | each entry's name is its key, except `explore`, named `explore <location_name>` |
| Repl.SplitCommand | repl.go:34-48 | no command for no words; otherwise the name followed by the arguments is the word list |
| Repl.Dispatch | repl.go:32-64 | a line is skipped iff blank; otherwise the first cleaned word selects the table entry (or is unknown) and the remaining words are the arguments |
| Repl.DispatchIgnoresCase | repl.go:32-51 | a line and its lower-cased form dispatch identically |
| CommandMap.Names | command_map.go:24-26 | the printed lines are the page's location names, in order |
| CommandMap.ShowPage | command_map.go:12-27 | returns exactly the listing call's error and fetch attempts; on error keeps the config and prints nothing; on success the config takes the call's cache and the page's `next`/`previous` and the page's names are printed |
| CommandMap.Mapf | command_map.go:10-28 | lists the page named by `next` (the first page when none) and returns that call's error; on error cursors and cache stay; on success `next` and `prev` become the page's links and its names are printed |
| CommandMap.Mapb | command_map.go:32-55 | with no `prev`, fails with "you're on the first page", no request, no change; otherwise lists the page named by `prev`, returns that call's error, and on success moves both cursors to the page's links |
| CommandMap.ForwardThenBackIsCached | command_map.go:12-48 | when `map` succeeds and lands on a page whose previous link was already cached, the following `mapb` makes no request and leaves the cache as is |
| CommandMap.MapbOnFirstPageIsStuck | command_map.go:34-36 | repeating a refused `mapb` on the first page gives the same refusal and the same config |

## Left out

- `reapLoop` (internal/pokecache/pokecache.go:53-58) and the mutex: a ticker goroutine and locking. Each locked method is one atomic map transformation here; `Reap` takes `now` explicitly.
- Wall-clock time, `time.Time` monotonic readings and UTC conversion: time is an integer number of nanoseconds. The negation `-last` of the most negative `time.Duration`, which wraps around in Go, is not modelled.
- `Call.requests` records fetch attempts: a URL that fails at `http.NewRequest` is listed although nothing was sent, because request creation, `Do` and `ReadAll` are one oracle.
- Real HTTP: `http.NewRequest`, `httpClient.Do`, `io.ReadAll`, closing the body, and the client timeout (internal/pokeapi/client.go:19-31) are one fetch oracle returning bytes or the first error.
- `json.Unmarshal` is a decode oracle returning a value or an error; JSON itself is not modelled.
- The `Location` struct is not part of this model: `GetLocation` is generic in the decoded type and takes its zero value as a parameter.
- Unicode: `strings.ToLower` and `strings.Fields` are modelled for ASCII letters and ASCII white space only.
- Printing, reading standard input, the endless loop of `startRepl`, `commandHelp` output, `commandExit`'s `os.Exit`, and the `explore` callback (whose body is not part of this model): `Dispatch` stops at choosing the table entry.
- `main` and `commandHelp` are not modelled; as written they do not match the signatures they are used with (`NewClient` takes two durations, `commandHelp` lacks the variadic arguments of a callback).
- Aliasing of the byte slice `Get` returns: values are immutable sequences.
