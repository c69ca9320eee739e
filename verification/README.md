# aMusica player core in Dafny

A model of the playback core of the aMusica music front-end, with proofs about it:

- **Queue engine.** The queue, the current index, and the play, shuffle and repeat flags of the player context. Its operations are `playTrack`, `playNext`, `playPrevious`, the three toggles, the Fisher–Yates `shuffleArray` and the end-of-track handler.
- **Ledger.** The `favorites` list with its id-keyed toggle and `isFavorite` test, and the `recentlyPlayed` history: move-to-front, deduplicated by id, capped at 20 entries.
- **Catalog client, pure part.** The client's normalization of tracks and playlists, and the shaping of the four responses it reads: trending tracks, chart playlists, one playlist, and search.
- **Player bar clock.** The `m:ss` formatter.

Every context operation is a pure transition from one `Player.PlayerState` to the next.

- JavaScript's `undefined` is `Wrappers.Option.None`.
- A track "has an id" (`!!track?.id`) when its id is present and non-zero (`Tracks.HasKey`).
- `Math.random` is replaced by explicit draws constrained to the ranges it produces:
  - `pick` in `[0, n)` for `playNext`;
  - `choices[i]` in `[0, i]` for the shuffle.
- Queue indexing out of bounds yields `undefined` (`Tracks.Lookup`), exactly as in JavaScript.
- `%` is the truncating remainder (`Js.Rem`).

The catalog client works on an untyped `Js.Json` value: the parsed response body, passed in as an argument. A `TypeError` the code would throw on a response of the wrong shape is the `Js.Completion.TypeError` outcome. The requests themselves are `MusicApi.Request` values:
- the trending playlist path is `playlist/1111142221`;
- the chart path is `chart/0/playlists`, with the limit as a query parameter;
- a playlist is fetched at `playlist/<id>`;
- search is `search`, with `q`.

Modules: `Wrappers`, `Js`, `Tracks`, `Ledger`, `Shuffle`, `Player`, `QueueLaws`, `MusicApi`, `TimeFormat`, one per file.

## Model

| member | source | states |
|---|---|---|
| Tracks.RemoveId | src/context/PlayerContext.jsx:52 | `filter` by id keeps only entries whose id differs, and keeps every such entry. It drops at least one entry when the id occurs and returns the list itself when it does not. A one-entry list keeps its entry exactly when the ids differ. |
| Tracks.IdsRemoveId | src/context/PlayerContext.jsx:107 | The ids left after the filter are the old ids minus the filtered one. |
| Tracks.NoDupIdsRemoveId | src/context/PlayerContext.jsx:52 | Filtering keeps a list free of duplicate ids. |
| Tracks.RemoveIdAppend | src/context/PlayerContext.jsx:52 | Filtering a concatenation is the concatenation of the filtered parts. With the one-entry case of `Tracks.RemoveId`, this determines the filter: kept entries stay in their original order. |
| Tracks.IdsAppend | src/context/PlayerContext.jsx:108 | Appending a track adds exactly its id to the id set. |
| Tracks.FindIndex | src/context/PlayerContext.jsx:70 | `findIndex` is -1 exactly when no entry has the id. Otherwise it is the first position holding the id. |
| Tracks.Lookup | src/context/PlayerContext.jsx:39 | `queue[i]` is defined exactly for positions inside the queue, and then it is the entry at that position. |
| Ledger.AddToRecentlyPlayed | src/context/PlayerContext.jsx:49-55 | Without an id nothing changes. Otherwise: the track is first; the list is 1 to 20 long; every later entry is an older entry with another id; the entries after the first are the filtered older list, in its order, cut so that the whole list is exactly `min(1 + n, 20)` long, `n` being the length of the filtered list; every older entry with another id survives unless the list is full. A present id never grows the list, an absent one grows it by one up to the cap, and duplicate-free lists stay duplicate-free. |
| Ledger.RecentIdempotent | src/context/PlayerContext.jsx:49-55 | Recording the same track twice in a row is the same as recording it once. |
| Ledger.RecentEvictsOldest | src/context/PlayerContext.jsx:53 | Recording a new id into a full history drops exactly the last, oldest entry. |
| Ledger.ToggleFavorite | src/context/PlayerContext.jsx:103-110 | Without an id nothing changes. A present id is removed everywhere: the result is the filtered list, so all other entries are kept in order and nothing new is added. An absent track is appended after the unchanged list. |
| Ledger.IsFavorite | src/context/PlayerContext.jsx:112-113 | `some` by id against `track?.id`: a track is a favorite exactly when its id is among the favorites' ids, or equally when `findIndex` finds it. An undefined track is compared by an undefined id, so it is no favorite while every favorite has an id. |
| Ledger.ToggleFlipsOnlyThatTrack | src/context/PlayerContext.jsx:103-113 | After a toggle, `isFavorite` of the toggled track is negated and `isFavorite` of every track with another id is unchanged. |
| Ledger.ToggleTwiceRestoresAbsent | src/context/PlayerContext.jsx:106-108 | Toggling a non-favorite twice restores exactly the original list. |
| Ledger.ToggleTwiceRestoresIds | src/context/PlayerContext.jsx:103-110 | Toggling any track twice restores the set of favorite ids. |
| Ledger.ToggleTwiceMovesPresentToEnd | src/context/PlayerContext.jsx:106-108 | Toggling a favorite twice does not restore the list: for `[A, B]` it gives `[B, A]`. |
| Ledger.ToggleKeepsWellFormed | src/context/PlayerContext.jsx:103-110 | A toggle keeps a duplicate-free list duplicate-free, and a list without id-less entries free of them; each half assumes only its own property. |
| Ledger.UndefinedIsNotFavorite | src/context/PlayerContext.jsx:112-113 | An undefined track is not a favorite while every favorite has an id. |
| Shuffle.Swap | src/context/PlayerContext.jsx:61 | The destructuring swap exchanges the two positions, leaves every other position as it was, and permutes the list. |
| Shuffle.ShuffleDown | src/context/PlayerContext.jsx:59-62 | Any run of the swap loop with in-range draws keeps the length and the multiset of entries. |
| Shuffle.ShuffleArray | src/context/PlayerContext.jsx:57-64 | The in-place loop over a copy computes the shuffle its draws determine, which is a permutation of the input. |
| Shuffle.ShuffleReachesEveryPermutation | src/context/PlayerContext.jsx:57-64 | For every permutation of the input there are in-range draws that produce it. |
| Player.InitialState | src/context/PlayerContext.jsx:15-19 | The first state has an empty queue, a valid index, no current track and every flag off. It carries the stored ledger lists. |
| Player.CurrentTrack | src/context/PlayerContext.jsx:39 | There is a current track exactly when the index lies inside the queue, and then it is `queue[currentIndex]`. With a valid index, that is exactly when the queue is non-empty. |
| Player.PlayTrack | src/context/PlayerContext.jsx:66-76 | Without an id nothing changes. Otherwise: the queue is the list, or its shuffle when shuffle is on (a permutation of the list either way); the index is the first position with the track's id, or 0 when there is none; playback is on; the started track heads the history; the flags and favorites are unchanged. |
| Player.PlayNext | src/context/PlayerContext.jsx:78-88 | An empty queue changes nothing. Otherwise: the index becomes the draw when shuffle is on, and the next position with wrap-around when it is off; playback is on; the new current track is recorded; the queue, flags and favorites are kept; a valid index stays valid. |
| Player.PlayPrevious | src/context/PlayerContext.jsx:90-97 | An empty queue changes nothing. Otherwise the index becomes the previous position with wrap-around, whatever the shuffle flag. Playback is on, the new current track is recorded, and a valid index stays valid. |
| Player.TogglePlay | src/context/PlayerContext.jsx:99 | Flips the playing flag and changes nothing else. |
| Player.ToggleShuffle | src/context/PlayerContext.jsx:100 | Flips the shuffle flag and changes nothing else; the queue is not reordered. |
| Player.ToggleRepeat | src/context/PlayerContext.jsx:101 | Flips the repeat flag and changes nothing else. |
| Player.ToggleFavorite | src/context/PlayerContext.jsx:103-110 | Only the favorites change. They become the ledger toggle of the old favorites, with its whole contract. Without an id nothing changes; with one, the toggled track's favorite status flips. |
| Player.IsFavorite | src/context/PlayerContext.jsx:112-113 | On the player state, a track is a favorite exactly when its id is among the ids of the state's favorites. |
| Player.HandleEnded | src/context/PlayerContext.jsx:120-127 | With repeat on, the end of a track leaves the state as it is: same track, same index. With repeat off, it advances exactly as `playNext` does. |
| Player.EndedAsWired | src/components/PlayerBar.jsx:104-123 | What the mounted audio element does at the end of a track is exactly `playNext`. It keeps the queue and both mode flags, turns playback on, and with shuffle off moves to the next position with wrap-around, whatever the repeat flag says. |
| Player.RepeatIgnoredWhenWired | src/components/PlayerBar.jsx:116 | For every state with repeat on, shuffle off, a valid index and at least two queued tracks, the wired handler changes the position and the context's handler does not. |
| Player.RepeatIgnoredAsWired | src/components/PlayerBar.jsx:116 | With repeat on and the queue `[A, B]` at `A`, the wired handler moves to `B`, while the context's handler stays on `A`. |
| QueueLaws.Advance | src/context/PlayerContext.jsx:81-85 | Repeated `playNext` with shuffle off keeps the queue and keeps a valid index valid. |
| QueueLaws.AdvanceIndex | src/context/PlayerContext.jsx:83 | Within one lap, `k` presses of next move the index `k` places forward, wrapping past the end. |
| QueueLaws.NextWrapsAround | src/context/PlayerContext.jsx:78-88 | Pressing next as many times as there are tracks returns to the starting position. |
| QueueLaws.AdvanceScenario | src/context/PlayerContext.jsx:83 | Over the queue `A, B, C` from `A`, next visits `B`, then `C`, then `A`. |
| QueueLaws.PreviousInvertsNext | src/context/PlayerContext.jsx:78-97 | With shuffle off, previous after next and next after previous each return to the starting position and keep the queue. The history and the playing flag are not restored. |
| QueueLaws.ShuffledNextReachesEveryPosition | src/context/PlayerContext.jsx:81-82 | With shuffle on, every position of the queue is a possible next position. |
| QueueLaws.StartLandsOnTrack | src/context/PlayerContext.jsx:69-73 | Starting a track that is in the list yields a permutation of the list whose current track has the started id, with shuffle on or off. |
| QueueLaws.TogglesAreInvolutions | src/context/PlayerContext.jsx:99-101 | Each toggle undoes itself. |
| QueueLaws.RecordKeepsHistory | src/context/PlayerContext.jsx:49-55 | Recording a track keeps the history duplicate-free, free of entries without an id, and within 20 entries. |
| QueueLaws.CommandsKeepWellFormed | src/context/PlayerContext.jsx:66-127 | Every operation of the context keeps the state well formed: the index stays valid, both ledger lists stay duplicate-free and keyed, and the history stays within its cap. |
| Js.Rem | src/context/PlayerContext.jsx:83 | The remainder of a non-negative dividend lies in `[0, n)`, and that of a negative one in `(-n, 0]`. A dividend already in range is returned as is; one in `[n, 2n)` loses one `n`. |
| MusicApi.NormalizeTrack | src/api/musicApi.js:19-28 | A falsy record becomes `null`, and only a falsy one. Anything else becomes an object with exactly `id`, `title`, `artist`, `album` and `preview`, each read from the record. |
| MusicApi.NormalizePlaylist | src/api/musicApi.js:31-38 | A falsy record becomes `null`, and only a falsy one. Anything else becomes an object with exactly `id`, `title` and `picture_medium`. |
| MusicApi.NormalizeIdempotent | src/api/musicApi.js:19-38 | Normalizing a normalized record changes nothing. |
| MusicApi.MapOrEmpty | src/api/musicApi.js:62 | Optional `map` with an empty-list fallback gives `[]` on a missing list and maps an array one to one. Anything else throws. |
| MusicApi.GetTrendingTracks | src/api/musicApi.js:43-54 | A missing or falsy `tracks.data` gives `[]`. An array gives its first `slice(0, limit)` entries, each normalized, in order. A non-array or a null response throws. |
| MusicApi.TrendingKeepsLeadingTracks | src/api/musicApi.js:49 | For a non-negative limit, the result is the first `min(limit, n)` tracks, normalized, in their original order. |
| MusicApi.TopChartRequest | src/api/musicApi.js:59-61 | The chart request goes to `chart/0/playlists` with the single parameter `limit`. |
| MusicApi.GetTopChartPlaylists | src/api/musicApi.js:59-67 | Every entry of `data` is normalized one to one, so the lengths agree and the requested limit is not applied to the response. A missing `data` gives `[]`; a `data` that is neither missing nor an array, or a null response, throws. |
| MusicApi.ChartKeepsEveryEntry | src/api/musicApi.js:62 | Chart normalization never filters: result entry `i` is `null` exactly when chart entry `i` was falsy. |
| MusicApi.GetPlaylistById | src/api/musicApi.js:72-86 | When `tracks` and `tracks.data` are truthy, only `tracks.data` is replaced by its normalized entries and every other field is kept. Otherwise the playlist comes back untouched. |
| MusicApi.PlaylistShapingIdempotent | src/api/musicApi.js:77-81 | Shaping an already shaped playlist gives it back unchanged. |
| MusicApi.SearchRequest | src/api/musicApi.js:91-97 | A request is made exactly when the query is non-empty; it goes to `search` with `q` set to the query. |
| MusicApi.SearchMusic | src/api/musicApi.js:91-106 | An empty query gives `[]`. Otherwise the search `data` is normalized one to one, a missing `data` gives `[]`, and a `data` that is neither missing nor an array throws. |
| MusicApi.EmptySearchMakesNoRequest | src/api/musicApi.js:93 | An empty query sends no request, and its answer is `[]` whatever the catalog would return. |
| MusicApi.SearchKeepsEveryEntry | src/api/musicApi.js:101 | Normalization never filters: result entry `i` is `null` exactly when response entry `i` was falsy. |
| TimeFormat.Decimal | src/components/PlayerBar.jsx:44-48 | `n.toString()` is a digit string without leading zeros that denotes `n`. |
| TimeFormat.PadStart | src/components/PlayerBar.jsx:47 | `padStart(width, "0")` reaches the width, keeps the string as a suffix and fills the front with zeros. |
| TimeFormat.FormatTime | src/components/PlayerBar.jsx:43-49 | The text is the digits of `t div 60`, a colon, and two digits denoting `t mod 60`, which is below 60. |
| TimeFormat.SecondsField | src/components/PlayerBar.jsx:45-47 | The padded seconds of a value below 60 are exactly two digits denoting that value. |
| TimeFormat.ParseFormatTime | src/components/PlayerBar.jsx:43-49 | Reading `m:ss` back as `60 * m + ss` gives the seconds that were formatted. |
| TimeFormat.FormatTimeInjective | src/components/PlayerBar.jsx:43-49 | Different second counts never show the same text. |

## Left out

- Storage: the load, save and parse fallbacks for `favorites` and `recentlyPlayed` in `localStorage` (src/context/PlayerContext.jsx:21-47) are outside the model. The stored lists are the arguments of `Player.InitialState`.
- Randomness: the distribution of `Math.random` is not modelled, so neither is the uniformity of the shuffle or of the shuffled next position. Only the range of each draw is.
- Media and DOM: the audio element, autoplay, volume, seek, the progress percentage and the marquee in src/components/PlayerBar.jsx are outside the model.
- `Player.HandleEnded`: restarting the audio element at time 0 with repeat on is audio I/O. The model states only that the player state does not change.
- Network: `deezerFetch`, its HTTP error path and the proxy functions are outside the model. The response body is an argument; the requests are only described by `MusicApi.Request` values. The `catch` blocks only log and rethrow, and logging is not modelled.
- `MusicApi.GetPlaylistById`: the source overwrites `tracks.data` inside the fetched object. The model returns the shaped value instead, since no other reference to the fetched object exists.
- Numbers: JSON numbers are integers, and `Tracks.Track` ids are integers. JavaScript numbers are doubles: integers lose precision past 2^53, and `toString()` switches to exponent notation from 1e21. So `TimeFormat.Decimal` and `TimeFormat.FormatTime` agree with the code only for values below 2^53. `TimeFormat.FormatTime` is over whole non-negative seconds, so `Math.floor` of fractional, negative or NaN times is not modelled.
- Null entries: queues and lists holding `null` are not modelled; the model's lists hold tracks only. A `null` entry, such as a normalized falsy record, makes `filter` throw (src/context/PlayerContext.jsx:52, :107), because `filter` reads `t.id` on every entry. `findIndex` (:70), `find` (:105) and `some` (:113) stop at the first match, so a `null` after it passes them. `playTrack(A, [A, null])` therefore puts the `null` in the queue; a later `playNext` makes it the current track, and `addToRecentlyPlayed` ignores it (:50).
- React timing: stale closures, batched state updates and effect ordering are outside the model. One example is the `playNext` registered by the player bar's effect keyed on the current track. Each operation is one atomic transition.
- Unused setters: the raw `setRecentlyPlayed` and `setIsPlaying` setters the context exposes are not modelled. The code has no history-clearing operation.
- Default arguments: `trackList = []` in `playTrack`, `limit = 50` in `getTrendingTracks` and `limit = 10` in `getTopChartPlaylists` are not filled in by the model; its callers pass the list or the limit. The Discover page calls `getTopChartPlaylists()` with no argument (src/pages/Discover.jsx:14), so it relies on `limit = 10`, which is `MusicApi.TopChartRequest(10)`. The shaping of the chart response does not depend on the limit.
- `Player.PlayNext`: the index formula is stated for states whose index is valid. These are the only states the context reaches (`QueueLaws.CommandsKeepWellFormed`).
- `Player.PlayPrevious`: the index formula is likewise stated for states with a valid index.
- `Js.Rem`: defined by repeated subtraction for a positive divisor, which is the only kind the code uses. Its agreement with `%` is stated through the range and small-dividend facts in its contract, not against a general definition.
- `QueueLaws.AdvanceIndex`: stated within one lap (`k` at most the queue length), which is all `QueueLaws.NextWrapsAround` needs.

## Behaviour worth knowing

- **Normalization keeps every entry.** Falsy records become `null` in place, and a record without an `id` passes through with `id` undefined (`MusicApi.SearchKeepsEveryEntry`, `MusicApi.ChartKeepsEveryEntry`).
- **Chart playlists are not cut on the client.** The limit only travels in the request (`MusicApi.TopChartRequest`), and every returned entry is kept.
- **Toggling a favorite twice restores its id, but not always its place.** For a track that was not a favorite, the exact list comes back (`Ledger.ToggleTwiceRestoresAbsent`). For a favorite, the set of ids comes back (`Ledger.ToggleTwiceRestoresIds`), and the track is re-appended at the end. So a favorite that was not last moves to the end: `[A, B]` becomes `[B, A]` (`Ledger.ToggleTwiceMovesPresentToEnd`).
- **Starting a track lands on it only when the list holds its id.** Otherwise the index is 0, while the started track still heads the history (`Player.PlayTrack`).
- **The trending playlist id in the request differs from the one in the code comment.** The path requested is `playlist/1111142221`, while the comment beside it names 1111141961. The model follows the path.

## Findings

| source | as written | input that shows it | evidently intended | confidence | as-written member | corrected member |
|---|---|---|---|---|---|---|
| src/components/PlayerBar.jsx:116 | The repeat-aware end handler (src/context/PlayerContext.jsx:116-133) is attached to the context's audio reference, which no element mounts. The mounted `<audio>` in the player bar calls `playNext` on `ended` directly. | Repeat on, queue `[A, B]`, current track `A`: at the end of `A` the player moves to `B`. | With repeat on, the ended track restarts and the index stays. | high, not executed | Player.EndedAsWired | Player.HandleEnded |
