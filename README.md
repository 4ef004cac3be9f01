# kartklickare presence core in Dafny

This project models the sequential core of kartklickare, a Tauri desktop app that watches the GeoGuessr web page and mirrors what the player is doing into Discord Rich Presence. Two source files make up that core.

- `src-tauri/src/callback.rs` holds the callback correlation pool. `send_request` pushes an entry `(id, Some(sender))` and asks the webview to fetch a URL. When the webview reports back through the `cb` command, `cb` finds the entry, takes its sender, sends `Ok(payload)` or `Err(text of "err")`, and retains every entry whose id differs.
- `src-tauri/src/navigation.rs` holds three pieces:
  - the presence renderer `game_data`, which turns a tagged game payload into the two Discord lines (`details` and `state`);
  - the route classification, the mode-name derivation and the URL building of the `navigation` poller;
  - the poller's debounce loop, which keeps `last_path` and retries up to 20 samples while a game page is unchanged.

The modules follow the program:

| file | module | models |
|---|---|---|
| `wrappers.dfy` | `Wrappers` | `Option`, with `:-` propagation standing in for `unwrap` |
| `text.dfy` | `Text` | `starts_with`, decimal printing and `u64` parsing, `split`/`join`, `replace`, ASCII case |
| `json.dfy` | `Json` | `serde_json` values as a datatype, `Map::get`, the index operator, `as_u64`/`as_str`, compact `to_string` |
| `callback.dfy` | `Callback` | the pool as a class `CallbackPool` with `Register`/`Resolve`; the `find` and `retain` loops as methods proved against pure specifications; ids; the extra-params text |
| `routes.dfy` | `Routes` | live/offline/menu classification, the mode name, the two fetch URLs, and what one poller pass does with a path (`Dispatch`) |
| `poller.dfy` | `Poller` | the `navigation` loop: the 20-sample retry (`AwaitChange`), one pass (`PollOnce`) and the loop (`Navigation`), proved against the pure state machine `Passes` |
| `presence.dfy` | `Presence` | `game_data`: reading the payload, the line formatting (also as the imperative `FormatPresence`), and a parser that reads the `state` line back |

The model differs from the code, or from a plain reading of it, in these places:

- A payload without a `game_type` key panics in the `Map` index at `navigation.rs:40`. It is not "ignored", so the model returns `Malformed` for it. Only a present but unrecognised tag gives `UnknownType` (no update).
- The menu table is scanned in reverse, so the last matching row wins. For this table that row is also the most specific one (`Routes.MenuLookupIsLongest`).
- Map browsing is only the `/maps` row of the menu table. The poller fetches nothing for it and it never reaches `game_data`.
- `cb` retains by id. If two entries share an id, the first callback removes both, and the second waiter's sender is dropped (`Callback.DuplicateIdDropsSecond`).

## Model

| member | source | states |
|---|---|---|
| Callback.MakeId | src-tauri/src/callback.rs:45-49 | the id is the first 32 alphanumeric draws, so it has 32 characters, all ASCII letters or digits |
| Callback.ExtraParams | src-tauri/src/callback.rs:51-56 | the extra-params text is empty when the argument is `None` or is not an object |
| Callback.AssignmentsAppend | src-tauri/src/callback.rs:53-56 | the text for a concatenation of entries is the text of each part in order, with nothing between the fragments |
| Callback.ExtraParamsOneField | src-tauri/src/callback.rs:54 | a one-entry object gives exactly `response.<key> = <compact JSON of value>;` |
| Callback.IndexOf | src-tauri/src/callback.rs:27 | `find` returns the first position holding the id, and none exactly when no entry has it |
| Callback.FindEntry | src-tauri/src/callback.rs:27 | the search loop returns the same position as `IndexOf` |
| Callback.Retain | src-tauri/src/callback.rs:37 | the `retain` loop keeps exactly `Without(entries, id)` |
| Callback.WithoutAppend | src-tauri/src/callback.rs:37 | `retain` works entry by entry, so relative order is kept |
| Callback.WithoutMembers | src-tauri/src/callback.rs:37 | an entry survives `retain` if and only if it was in the pool and its id differs |
| Callback.WithoutAbsent | src-tauri/src/callback.rs:37 | `retain` of an id that is not present changes nothing |
| Callback.WithoutIgnoresTaken | src-tauri/src/callback.rs:30-37 | taking the sender out of the found entry does not change what `retain` keeps |
| Callback.WithoutPending | src-tauri/src/callback.rs:30-37 | after `retain`, every remaining entry still holds its sender |
| Callback.ResolveUnknown | src-tauri/src/callback.rs:29-41 | a callback for an id the pool does not hold leaves the pool unchanged and sends nothing |
| Callback.ResolveRegistered | src-tauri/src/callback.rs:22-37 | a registered id: exactly one outcome is sent; no entry with the id remains; exactly the other entries stay, in order, still pending; the outcome is `Err` if and only if the payload has `"err"`, carrying that value's JSON text, and is otherwise `Ok` of the whole object |
| Callback.ResolveTwice | src-tauri/src/callback.rs:27-41 | a second callback with the same id is a no-op |
| Callback.RegisterThenResolve | src-tauri/src/callback.rs:85-92 | pushing an entry for a fresh id and then resolving it restores the pool and delivers the payload's outcome |
| Callback.AwaitReply | src-tauri/src/callback.rs:95-102 | `send_request` returns the delivered outcome; if the sender is dropped it returns an error starting `Something went wrong with callback ` |
| Callback.DuplicateIdDropsSecond | src-tauri/src/callback.rs:27-37 | with two entries under one id, one outcome is sent and both entries leave the pool |
| Callback.EarlyCallbackIsLost | src-tauri/src/callback.rs:83-92 | a callback that overtakes the push sends nothing, and the entry pushed afterwards stays pending |
| Callback.RegisterFirstDelivers | src-tauri/src/callback.rs:83-92 | pushing before evaluating the script always delivers, as the as-written order does when the push wins |
| Callback.CallbackPool.constructor | src-tauri/src/callback.rs:10-12 | the pool starts empty |
| Callback.CallbackPool.Register | src-tauri/src/callback.rs:85-92 | appends exactly one entry, at the end, with the id and a present sender; every entry keeps its sender |
| Callback.CallbackPool.Resolve | src-tauri/src/callback.rs:20-42 | the new pool and the sent outcome are `ResolveSpec` of the old pool; every entry keeps its sender |
| Json.GetSpec | src-tauri/src/callback.rs:24 | `get` finds a value if and only if `contains_key` holds, and that value is stored under the key |
| Json.GetAt | src-tauri/src/navigation.rs:42-46 | `get` returns the value of the first entry with the key |
| Json.QuotePlain | src-tauri/src/callback.rs:32 | a JSON string with nothing to escape is written as itself between double quotes |
| Text.ParseU64OfNatToString | src-tauri/src/navigation.rs:46 | parsing the decimal text of a number below 2^64 as `u64` gives the number back |
| Text.JoinSplit | src-tauri/src/navigation.rs:218-221 | joining the parts of a split with the same separator restores the string |
| Text.SplitCons | src-tauri/src/navigation.rs:218 | a part free of the separator followed by the separator splits off as one part |
| Text.ReplaceAbsent | src-tauri/src/navigation.rs:259 | replacing a pattern that does not occur changes nothing |
| Routes.AnyPrefix | src-tauri/src/navigation.rs:190 | `any(starts_with)` holds if and only if some listed prefix starts the path |
| Routes.LiveAndOfflineDisjoint | src-tauri/src/navigation.rs:177-191 | no path is both a live game and an offline game, so the order of the two tests does not matter |
| Routes.LastMatchSpec | src-tauri/src/navigation.rs:278 | the reverse scan returns a matching row with no matching row after it, or none when no row matches |
| Routes.LastMatchIs | src-tauri/src/navigation.rs:278 | conversely, a matching row with no matching row after it is the one the scan returns |
| Routes.SlashPathHasLabel | src-tauri/src/navigation.rs:266-278 | every path starting with `/` gets a menu label |
| Routes.MenuLookupIsLongest | src-tauri/src/navigation.rs:266-278 | the row found has the longest matching prefix |
| Routes.NoNestedPrefixes | src-tauri/src/navigation.rs:267-275 | apart from `/`, no prefix in the table starts another |
| Routes.MapsExample | src-tauri/src/navigation.rs:269-278 | `/maps/42` gives `Browsing maps` with the path shown |
| Routes.KebabTitleWords | src-tauri/src/navigation.rs:219-221 | capitalising lower-case parts and joining with spaces maps back to the dash-joined parts |
| Routes.TitleCaseRoundTrip | src-tauri/src/navigation.rs:218-221 | Title Case of a lower-case kebab segment with no empty part succeeds, and turning spaces into dashes and lower-casing restores the segment |
| Routes.ModeNameOfSegment | src-tauri/src/navigation.rs:218 | the mode name of `/<segment>/<rest>` is the Title Case of `<segment>` |
| Routes.TitleCaseTwoParts | src-tauri/src/navigation.rs:219-221 | Title Case of `a-b`, with both parts non-empty and free of dashes, is each part with its first character upper-cased, the two joined by one space |
| Routes.ModeNameExample | src-tauri/src/navigation.rs:218-221 | `/live-challenge/abc` gives `Live Challenge` |
| Routes.TitleCaseExample | src-tauri/src/navigation.rs:219-221 | `live-challenge` gives `Live Challenge` |
| Routes.OfflineUrlOfGame | src-tauri/src/navigation.rs:259 | for `/game/<token>` the fetch URL is the offline API, a slash and the token |
| Routes.Dispatch | src-tauri/src/navigation.rs:215-289 | a live fetch exactly for live paths with a mode name, fetching `LIVE_API` followed by the path and carrying the Title Case mode; an offline fetch exactly for offline paths that are not live, fetching the offline API, a slash and the path without `/game/`; a menu activity exactly for other paths with a label, whose details are the label of the last matching table row and whose state is the path exactly when that row's flag says so; a panic otherwise |
| Routes.MenuPathsDispatch | src-tauri/src/navigation.rs:262-285 | a non-game path starting with `/` always sets a menu activity and never panics |
| Routes.MapsDispatchExample | src-tauri/src/navigation.rs:262-285 | the pass for `/maps/42` sets `Browsing maps` with state `/maps/42` |
| Poller.FirstChange | src-tauri/src/navigation.rs:196-204 | the first of the retry samples that differs from `last_path`, all earlier ones equal; or none when all are equal |
| Poller.FirstChangeAt | src-tauri/src/navigation.rs:196-204 | conversely, a differing sample after only equal ones within the budget is the first change |
| Poller.AwaitChange | src-tauri/src/navigation.rs:195-204 | the retry loop reports a change exactly when `FirstChange` finds one, and where reading resumes |
| Poller.PollOnce | src-tauri/src/navigation.rs:187-215 | one pass of the loop body is the tick `TickSpec` describes |
| Poller.Navigation | src-tauri/src/navigation.rs:184-292 | the loop's actions and final `last_path` after a number of passes are those of `Passes` |
| Poller.StaysStopped | src-tauri/src/navigation.rs:218-278 | after a panic nothing more happens |
| Poller.TickReadsBounded | src-tauri/src/navigation.rs:187-204 | a pass reads at least one and at most 21 samples |
| Poller.RestartIff | src-tauri/src/navigation.rs:193-207 | a pass restarts if and only if the path is a game path equal to `last_path` and one of the next 20 samples differs |
| Poller.ProceedAdoptsPath | src-tauri/src/navigation.rs:210-213 | a pass that does not restart sets `last_path` to the path it read and dispatches on it |
| Poller.RepeatFetchNeedsStablePath | src-tauri/src/navigation.rs:193-213 | the same game is fetched again only after all 20 retry samples matched |
| Poller.DebounceExample | src-tauri/src/navigation.rs:184-285 | samples `/game/1` ×3 then `/results/1`: the first pass restarts without a fetch, the next sets `In Menu` with state `/results/1` |
| Presence.FormatPresence | src-tauri/src/navigation.rs:75-100 | building the lines by appending to mutable strings gives `FormatLines` |
| Presence.RoundLineRoundTrip | src-tauri/src/navigation.rs:91-99 | round, count and score read back from the `state` line, and ` / max` appears exactly when the count is positive and the points part exactly when the score is |
| Presence.MaxPartOf | src-tauri/src/navigation.rs:93-95 | the ` / <max>` segment reads back as the count, and as 0 when it is absent |
| Presence.ScorePartOf | src-tauri/src/navigation.rs:97-99 | the ` - <score> points` segment reads back as the score, and as 0 when it is absent |
| Presence.RenderNeedsGameType | src-tauri/src/navigation.rs:40-72 | lines only for `offline` or `live`; a missing `game_type` panics; any other value gives no update |
| Presence.OfflineFields | src-tauri/src/navigation.rs:41-48 | what the offline reader extracts from a well-formed payload |
| Presence.OfflineRender | src-tauri/src/navigation.rs:41-99 | an offline payload outside streak mode shows the map name over `Round: n[ / max][ - score points]` |
| Presence.OfflineStreakRender | src-tauri/src/navigation.rs:41-80 | an offline streak shows `Country Streak - <map>` and `Streak: <round - 1>`; round 0 is malformed |
| Presence.LiveFields | src-tauri/src/navigation.rs:49-68 | the live reader sets count and score to 0 and the type to `Quiz` exactly when `aggregatedAnswerStats` is present |
| Presence.LiveRender | src-tauri/src/navigation.rs:49-99 | a live payload outside streak mode shows `Quiz` or `<mode> - <map>`, over exactly `Round: n` |
| Presence.LiveStreakRender | src-tauri/src/navigation.rs:49-80 | a live streak is shown like an offline one |
| Presence.LiveFormat | src-tauri/src/navigation.rs:81-99 | the live non-streak lines |
| Presence.MissingRoundIsMalformed | src-tauri/src/navigation.rs:42-50 | a payload without its round field panics and is never half-rendered |
| Presence.LinesNeedEveryField | src-tauri/src/navigation.rs:40-63 | lines are shown only when every field the reader unwraps was present and well typed: for offline `round`, `roundCount`, `mode`, `mapName` and the score string; for live `currentRoundNumber`, `game_mode` and the map name |
| Presence.OfflineExample | src-tauri/src/navigation.rs:40-100 | round 3 of 5 on `World` with 4200 points gives `World` and `Round: 3 / 5 - 4200 points` |
| Presence.StreakExample | src-tauri/src/navigation.rs:40-80 | a streak on `Europe` in round 4 gives `Country Streak - Europe` and `Streak: 3` |

## Left out

- `window.eval`, `window.url()` and the generated JavaScript, apart from the extra-params fragment. The URL reads are the samples `feed(0)`, `feed(1)`, … of `Poller`. The scripts are the `EvalLive` and `EvalOffline` actions, with the URL and the mode name they embed.
- Discord IPC (`DiscordIpcClient` and `set_activity`). The model keeps only the `details` and `state` strings, or the menu activity.
- `set_player_info`, and the wait for the player name before the poller starts. These are field copies and IPC, plus a sleep-poll on shared state.
- Tokio: `sleep`, `spawn`, the async `Mutex` and the one-shot channel's wake-up. Pool operations are sequential method calls, and the channel is the `sent` result.
- `send().unwrap()` in `cb` panics when the receiver is gone. The model always delivers.
- Randomness in id generation. The draws are a parameter of `MakeId`.
- JSON parsing, and JSON numbers that are not integers.
- `Poller.Navigation` runs a given number of passes of the endless loop, and the one-second sleeps take no time.
- `Routes.ModeName`: `to_uppercase` is modelled on ASCII letters only.
- `Presence.FormatLines` (and so `Presence.OfflineStreakRender` and `Presence.LiveStreakRender`): `current_round - 1` with round 0 panics in a debug build and wraps in a release build. The model treats it as `Malformed`.
- Console logging with `println!`: `No callback found for id` (`callback.rs:40`), `Unknown game type` (`navigation.rs:70`), the two rendered lines (`navigation.rs:111-112`), the current URL (`navigation.rs:211`) and the detected game kind (`navigation.rs:216`, `243`). The paths that log keep their effect on state, which is none for the unknown id and the unknown tag. The log text is not modelled.
- `Callback.CallbackPool.Register` requires a well-formed id. The source always generates one.

## Findings

| source | as written | input that shows it | evidently intended | confidence | as-written member | corrected member |
|---|---|---|---|---|---|---|
| src-tauri/src/callback.rs:83-92 | the request script is evaluated before the pool entry is pushed | a callback for the new id that reaches `cb` before the push: it finds no entry, sends nothing, and the waiter then blocks forever | push the entry, then evaluate the script | low: the callback needs a network round trip and an IPC call to win the race; not executed | Callback.EarlyCallbackIsLost | Callback.RegisterFirstDelivers |
