# Pokémon catalog slice, modelled in Dafny

The catalog store of this React application is one Redux slice,
`src/features/pokemonSlice.js`. It holds a list of entities ("pokemons")
fetched page by page, a detail record, the `search` and `type` filters, the
page cursor, and a loading flag with an error message. Three synchronous
reducers set the page and the filters. Five asynchronous operations (list,
get by id, add, edit, delete) each have a pending, a fulfilled and a rejected
case. The fulfilled case of the list operation merges a page into the list.
When a filter is active and the page is 1, the page replaces the list.
Otherwise entities whose id is already listed are dropped and the rest are
appended in arrival order.

The project has five modules:

- `Wrappers` (`wrappers.dfy`): `Option` (a JavaScript value that may be absent or falsy) and `Result`.
- `QueryString` (`query.dfy`): integers printed as in a template literal (`${page}`), query strings of `key=value` fields joined by `&`, and their parsing.
- `Pokemons` (`pokemons.dfy`): the entity, the detail record, the merge (`Unseen`, `AppendUnseen`) and a reference definition of first-seen deduplication (`FirstSeen`) that the merge is proved against.
- `PokemonThunks` (`thunks.dfy`): the request each operation makes, the list URL built by appending to a string, and how each operation turns the API client's outcome into a fulfilled value or a `{ message }` rejection.
- `PokemonSlice` (`slice.dfy`): class `Slice`, whose fields are the slice state and whose methods are the case reducers. Each method changes only the fields its `modifies` clause names, so "no other field changes" is part of every contract.

The fields are modelled as the handlers write them. The initial state declares
`isLoading`, but every handler writes `loading`. `loading` and `errorMessage` are
not in the initial state at all. So the class has `isLoading: bool`, which nothing
writes after construction, and `loading: Option<bool>` and
`errorMessage: Option<string>`, which are `None` (undefined) until the first handler runs.
The state's `type` field is called `filterType`, because `type` is a Dafny keyword.

The API client is not modelled. An operation's outcome is an input: `Ok`
with the response, or `Err` with the message of the thrown error. The by-id
response is an `Option`: `None` stands for a falsy response.

## Model

| member | source | states |
|---|---|---|
| PokemonSlice.Slice.constructor | src/features/pokemonSlice.js:68-79 | The initial state: empty list, empty detail record, empty filters, page 1, `isLoading` false, `loading` and `errorMessage` undefined |
| PokemonSlice.Slice.ChangePage | src/features/pokemonSlice.js:84-90 | A truthy payload becomes the page; an absent or zero payload advances the page by one; no other field changes |
| PokemonSlice.Slice.TypeQuery | src/features/pokemonSlice.js:91-93 | The type filter becomes the payload; nothing else changes |
| PokemonSlice.Slice.SearchQuery | src/features/pokemonSlice.js:94-96 | The search filter becomes the payload; nothing else changes |
| PokemonSlice.Slice.Pending | src/features/pokemonSlice.js:100-119 | For each of the five operations, pending sets `loading` to true and `errorMessage` to the empty string and changes nothing else |
| PokemonSlice.Slice.GetPokemonsFulfilled | src/features/pokemonSlice.js:120-131 | Clears `loading`. A filtered first page replaces the list exactly. Otherwise the list becomes the old list followed by the page's entities whose id was not listed, so the old list is a prefix, and a list and page without repeated ids give a list without repeated ids |
| PokemonSlice.Slice.GetPokemonByIdFulfilled | src/features/pokemonSlice.js:132-135 | Clears `loading` and stores the payload as the detail record |
| PokemonSlice.Slice.AddPokemonFulfilled | src/features/pokemonSlice.js:136-138 | Clears `loading`; nothing else changes |
| PokemonSlice.Slice.DeletePokemonFulfilled | src/features/pokemonSlice.js:139-141 | Clears `loading`; nothing else changes |
| PokemonSlice.Slice.EditPokemonFulfilled | src/features/pokemonSlice.js:142-144 | As written: sets `loading` to true; nothing else changes |
| PokemonSlice.Slice.EditPokemonFulfilledCorrected | src/features/pokemonSlice.js:142-144 | Corrected: clears `loading`, like the other fulfilled cases |
| PokemonSlice.Slice.Rejected | src/features/pokemonSlice.js:145-184 | For each of the five operations, rejected clears `loading` and sets `errorMessage` to the payload's message when a payload is present, else to the error's message; nothing else changes |
| PokemonSlice.EditSettledAsWritten | src/features/pokemonSlice.js:116-144 | An edit that is dispatched and then fulfilled leaves the slice reporting loading |
| PokemonSlice.EditSettledCorrected | src/features/pokemonSlice.js:116-144 | With the corrected handler, the same edit leaves `loading` false |
| Pokemons.Unseen | src/features/pokemonSlice.js:126-127 | An entity is kept exactly when it is in the page and its id is not among the listed ids; the result is no longer than the page |
| Pokemons.AppendUnseen | src/features/pokemonSlice.js:126-128 | The old list is a prefix of the merged list, and the appended part holds exactly the page's entities whose id was not listed |
| Pokemons.UnseenAppend | src/features/pokemonSlice.js:127 | Filtering the page keeps its order: filtering a concatenation is the concatenation of the filtered parts |
| Pokemons.AppendUnseenCoversPayload | src/features/pokemonSlice.js:126-128 | After the merge, every id of the page is listed |
| Pokemons.UnseenKeepsDistinct | src/features/pokemonSlice.js:127 | Filtering a page without repeated ids gives a page without repeated ids |
| Pokemons.AppendUnseenKeepsDistinct | src/features/pokemonSlice.js:126-128 | Merging a page without repeated ids into a list without repeated ids gives a list without repeated ids |
| Pokemons.PageDuplicatesSurvive | src/features/pokemonSlice.js:127-128 | The merge does not deduplicate within one page: two unlisted entities with the same id both end up in the list |
| Pokemons.FirstSeenSound | src/features/pokemonSlice.js:125-128 | The reference deduplication repeats no id and keeps exactly the ids of its input |
| Pokemons.FirstSeenAbsorbs | src/features/pokemonSlice.js:125-128 | Deduplicating the list before appending more entities does not change the deduplicated result |
| Pokemons.AppendUnseenIsFirstSeen | src/features/pokemonSlice.js:125-128 | For a list and a page without repeated ids, the merge equals first-seen deduplication of the list followed by the page |
| Pokemons.MergePagesIsFirstSeen | src/features/pokemonSlice.js:125-128 | After any sequence of overlapping appending pages, each without repeated ids, the list holds each id once, in first-seen order |
| Pokemons.OverlappingPagesMerge | src/features/pokemonSlice.js:125-128 | Pages [1, 2] and then [2, 3] give the list [1, 2, 3] |
| PokemonThunks.ListUrl | src/features/pokemonSlice.js:8-10 | The list URL is `/pokemons?` followed by `page` and `limit`, then `search` only when it is non-empty, then `type` only when it is non-empty; when the filters contain no `&`, `#`, `%` or `+`, splitting the query gives back exactly those fields |
| PokemonThunks.GetPokemonsRequest | src/features/pokemonSlice.js:8-11 | The list operation sends a GET with no body to the list URL |
| PokemonThunks.ItemPath | src/features/pokemonSlice.js:22 | An entity's path is `/pokemons/` followed by its id, and the id can be read back from it |
| PokemonThunks.ItemRequestsAddressTheEntity | src/features/pokemonSlice.js:22-60 | Get by id, edit and delete use the same path for the same id, and different paths for different ids |
| PokemonThunks.WriteRequestsAgree | src/features/pokemonSlice.js:31-61 | Add POSTs to `/pokemons` with the id in the body and the image URL under the key `url`; edit PUTs the same name, URL and types to the entity's path, which carries the id; delete sends a DELETE with no body to the entity's path |
| PokemonThunks.Settle | src/features/pokemonSlice.js:11-15 | The list, add, edit and delete operations fulfil exactly when the client call returns, with the response (list) or with no value (add, edit, delete, as `Settle<()>`), and otherwise reject with the thrown error's message |
| PokemonThunks.GetPokemonByIdSettle | src/features/pokemonSlice.js:23-28 | Get by id fulfils exactly when the call returns a truthy response, with that response; a falsy response rejects with `No data`; a thrown error rejects with its message |
| QueryString.Decimal | src/features/pokemonSlice.js:8 | A printed integer is a non-empty run of digits and minus signs, so it never contains `&` |
| QueryString.DecimalRoundTrip | src/features/pokemonSlice.js:8 | Reading a printed integer back gives the integer |
| QueryString.ParseEncodeQuery | src/features/pokemonSlice.js:8-10 | Splitting an encoded query at `&` and each field at its first `=` gives back the fields, when no key or value holds `&`, `#`, `%` or `+` and no key holds `=` |

## Left out

- The API client calls (`apiService.get`, `post`, `put`, `delete`) are network I/O in `src/app/apiService`, which is not part of this model. Each operation's outcome is an input instead.
- `POKEMONS_PER_PAGE` lives in `src/app/config`, which is not part of this model. It is the `limit` parameter of `ListUrl`.
- The `createAsyncThunk` runtime is not modelled. That covers awaiting, dispatching pending and then fulfilled or rejected, the `rejectWithValue` wrapping, and the shape of `action.error`. `Settle`, `GetPokemonByIdSettle` and the slice's case methods model the two ends separately.
- The order in which settlements arrive is not modelled. Overlapping operations and a stale list response arriving after a newer one are concurrency, and the model is sequential.
- `deletePokemon` dispatches `getPokemonById()` without an id after a successful delete (line 61). That would request `/pokemons/undefined` through a nested dispatch. It is not modelled, and it looks like a defect.
- `console.log` (line 129) is logging only.
- PokemonSlice.Slice.ChangePage: the payload is an `Option<int>`, so a `NaN` payload (falsy in JavaScript) and non-number payloads are not modelled. Page numbers are unbounded integers, so precision loss beyond 2^53 is not modelled.
- PokemonSlice.Slice.GetPokemonsFulfilled: the payload is a sequence of entities. A list response that is not an array (for example `null`) is not modelled. On the appending branch, the source would throw inside the reducer for such a response.
- PokemonThunks.ListUrl: the source does not percent-encode `search` or `type`. A filter containing `&` adds fields to the query, a `#` cuts the query short (the client never sends what follows it), and a server decodes `%` escapes and `+`. `ParseQuery` only splits at `&` and `=`, so the round trip is stated only for filters holding none of `&`, `#`, `%` and `+`.
- Entity ids are modelled as integers, and a path prints its id in decimal. Ids that are strings are not modelled.
- QueryString.Decimal: prints every integer as plain decimal digits. JavaScript prints numbers of magnitude 1e21 or more in exponent form (`1e+21`), so pages, limits and ids that large are not modelled faithfully.
- The detail record is a `PokemonDetail` with three optional entities. The source stores whatever truthy value the API returns.
- `src/App.js` (routing and theming) and `src/app/store.js` (store wiring) hold no slice logic.

## Findings

| source | as written | input that shows it | evidently intended | confidence | as-written member | corrected member |
|---|---|---|---|---|---|---|
| src/features/pokemonSlice.js:142-144 | `editPokemon.fulfilled` sets `loading` to true | Any successful edit: pending sets `loading` to true, and fulfilled leaves it true, so the slice reports loading after the edit has settled | Clear `loading` on fulfilment, like the other four fulfilled cases | high; not executed | PokemonSlice.EditSettledAsWritten | PokemonSlice.EditSettledCorrected |
