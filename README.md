# XRP price bot — a Dafny model of its synchronisation core

The bot keeps its own nickname and presence on every Discord guild it has
joined in step with the XRP price and its 24-hour change, which it polls
from the CoinGecko markets API. This project models the decision logic of
`xrpbot.py` with every network and Discord call replaced by its outcome,
and proves what that logic promises:

- `CoinIds` (`coin_ids.dfy`): the candidate list `COIN_IDS`. It is built
  from the comma-separated configuration value with Python's `str.split(",")`,
  `str.strip()` and the filter that drops empty pieces. The list has no empty
  or untrimmed entry and keeps the input order. Parsing is idempotent. The
  default `"ripple,xrp"` gives `["ripple", "xrp"]`.
- `PriceFetcher` (`price_fetcher.dfy`): `_fetch_one_id` classifies one HTTP
  exchange. `get_price_data` tries the sources in order, with four attempts
  each after the waits 0, 1.5, 3.0 and 5.0 s. The exchange of each (source,
  attempt) pair is given by an oracle. The retry policy `Acquire` is stated
  over the classified outcome of every pair. `GetPriceData` keeps the
  source's nested loops and is proved equal to `Acquire` over the oracle's
  classified outcomes.
  The lemmas cover attempt order, the sleeps, exhaustion, the first quote
  winning, an escaping error stopping everything, and the total wait.
- `Reconciler` (`reconciler.dfy`): `update_guild` as a pure function. It
  takes the collaborators' outcomes and returns the effects performed, in
  order (member fetch, price fetch, nickname edit, presence, log lines), and
  whether an exception left the call. It also builds the sign marker and the
  nickname, truncated to 32 characters.
- `Scheduler` (`scheduler.dfy`): one tick of `updater_loop`. It picks the
  target guilds, runs the reconciliation for each, logs an escaped error and
  always reaches the sleep.
- `Lifecycle` (`lifecycle.dfy`): the two process-wide handles
  `_http_session` and `update_task` as fields of the class `Bot`.
  `on_ready` and `_shutdown` are methods guarded the way the source guards
  them.

Notes on what the code does:

- Each guild's reconciliation calls `get_price_data` itself (xrpbot.py:102).
  The price is not fetched once per tick and shared.
- A missing or non-numeric `current_price` / `price_change_percentage_24h`
  raises `KeyError`, `ValueError` or `TypeError`. None of these is in the
  catch tuple (xrpbot.py:80), so the error leaves `get_price_data` at once.
  No fallback source is tried. The same holds for a 200 answer declared as
  JSON whose body fails to decode, because the decoder's error is a
  `ValueError`. A body not declared as JSON makes `resp.json()` raise
  `ContentTypeError`, a `ClientError`, which is retried. Only a bad status,
  an empty or non-list payload, client errors and timeouts are retried.
- The candidate list may be empty (for example `COINGECKO_IDS=" , "`). Then
  no attempt runs and the error raised carries no last error.
- An exception from `fetch_member` or `me.edit` other than
  `discord.HTTPException` leaves `update_guild`. The tick logs it once and
  still sleeps. An unexpected edit error skips that guild's presence update.
- When the HTTP session does not exist, the assertion at xrpbot.py:101
  fails. `except Exception` catches it like a fetch failure, so the presence
  becomes "API error" and no request is made.

## Model

| member | source | states |
|---|---|---|
| `CoinIds.Split` | xrpbot.py:15 | `str.split(",")`: at least one piece, and no piece contains the separator |
| `CoinIds.SplitCount` | xrpbot.py:15 | there is exactly one more piece than there are commas |
| `CoinIds.JoinSplit` | xrpbot.py:15 | joining the pieces with the separator gives back the input |
| `CoinIds.SplitJoin` | xrpbot.py:15 | splitting a join of separator-free pieces gives back the pieces |
| `CoinIds.SplitAround` | xrpbot.py:15 | the pieces of `a + "," + b` are those of `a` followed by those of `b` |
| `CoinIds.TrimStart` | xrpbot.py:15 | drops exactly the maximal whitespace prefix and keeps the rest as a suffix |
| `CoinIds.TrimEnd` | xrpbot.py:15 | drops exactly the maximal whitespace suffix and keeps the rest as a prefix |
| `CoinIds.Strip` | xrpbot.py:15 | `str.strip()`: a slice of the input with only whitespace outside it and none at its ends |
| `CoinIds.StripTrimmed` | xrpbot.py:15 | an already trimmed string is unchanged by stripping |
| `CoinIds.Clean` | xrpbot.py:14-16 | the kept pieces are non-empty and trimmed, at most one per piece |
| `CoinIds.CleanCommaFree` | xrpbot.py:14-16 | stripping comma-free pieces yields well-formed identifiers |
| `CoinIds.CleanConcat` | xrpbot.py:14-16 | the filter works piece by piece and in order |
| `CoinIds.ParseCoinIds` | xrpbot.py:14-16 | every entry of `COIN_IDS` is non-empty, trimmed and comma-free |
| `CoinIds.ParseCount` | xrpbot.py:14-16 | there are at most as many identifiers as comma-separated pieces |
| `CoinIds.ParseAround` | xrpbot.py:14-16 | input order is kept: parsing `a + "," + b` gives the ids of `a` then those of `b` |
| `CoinIds.ParseJoin` | xrpbot.py:14-16 | clean identifiers written comma-separated parse back to the same list |
| `CoinIds.ParseIdempotent` | xrpbot.py:14-16 | re-parsing the comma-joined result changes nothing |
| `CoinIds.DefaultIds` | xrpbot.py:14-16 | the default `"ripple,xrp"` yields `["ripple", "xrp"]` |
| `PriceFetcher.Classification` | xrpbot.py:49-63 | a non-200 status and an empty or non-list payload are recoverable `RuntimeError`s; transport and body-decoding errors are recoverable exactly when their class is retried; a missing or unreadable price field escapes, and so does a missing or unreadable change field next to a readable price; a quote comes exactly from a 200 list answer whose first record holds both fields, and carries their values |
| `PriceFetcher.FieldErrorsEscape` | xrpbot.py:60-62 | a missing or non-numeric field raises an error class outside the catch tuple |
| `PriceFetcher.GetPriceData` | xrpbot.py:66-84 | the nested loops, classifying each exchange as `_fetch_one_id` does, compute exactly the acquisition `Acquire` (result, attempts made, fallback log) |
| `PriceFetcher.RunFromConsecutive` | xrpbot.py:71-82 | the attempts from any point fill consecutive schedule slots, each with that slot's outcome and its sleep |
| `PriceFetcher.AttemptOrder` | xrpbot.py:68-82 | the t-th attempt is attempt t%4+1 of source t/4, preceded by the sleep `Backoffs[t%4]` (none when 0); at most 4 attempts per source, all but the last recoverable |
| `PriceFetcher.ExhaustFrom` | xrpbot.py:71-84 | from any slot, all-recoverable attempts run to the end and raise with the final attempt's error |
| `PriceFetcher.AllRecoverable` | xrpbot.py:69-84 | if every attempt is recoverable, exactly 4 per source run, sleeping 9.5 s per source, and the raise carries the last error (none for an empty list) |
| `PriceFetcher.StopFrom` | xrpbot.py:75-82 | from any slot, the run ends at the first non-recoverable attempt with nothing after it |
| `PriceFetcher.FirstQuoteWins` | xrpbot.py:76-79 | the first quote is returned at once with its source; the fallback line is logged iff that source's id differs from `COIN_IDS[0]` |
| `PriceFetcher.EscapeStopsAll` | xrpbot.py:76-80 | an error outside the catch tuple leaves at once, skipping remaining attempts and sources |
| `PriceFetcher.SleptBound` | xrpbot.py:72-74 | from any slot, the sleeps add up to at most the remaining backoffs of this source plus 9.5 s per later source |
| `PriceFetcher.MaxSleep` | xrpbot.py:68-74 | one acquisition sleeps at most 9.5 s per candidate source |
| `PriceFetcher.BackoffsTotal` | xrpbot.py:68 | the backoff list adds up to 9.5 s |
| `Reconciler.Truncate` | xrpbot.py:113-114 | the result is the prefix of length min(len, 32) |
| `Reconciler.Nickname` | xrpbot.py:111-114 | the nickname starts with "$" and has at most 32 characters; it is unchanged when the untruncated form fits, and then its last character is the green marker iff change ≥ 0; otherwise it is the first 32 characters |
| `Reconciler.Degraded` | xrpbot.py:100-109 | on fetch failure only the "API error" presence is set, and no nickname is written |
| `Reconciler.Apply` | xrpbot.py:116-128 | the nickname is written once; the presence follows whatever the handled edit outcome was, and is skipped only when an unhandled error leaves |
| `Reconciler.Handle` | xrpbot.py:116-121 | a refused edit (`Forbidden`) adds one info line, any other HTTP failure one warning line, a successful edit nothing; no fetch, nickname or presence is added |
| `Reconciler.Present` | xrpbot.py:123-128 | the presence is set exactly once whether or not setting it fails, and nothing is fetched or renamed |
| `Reconciler.UpdateGuild` | xrpbot.py:88-128 | no fetch or change when the member cannot be resolved; no fetch or change, and nothing above info logged, when it lacks both nickname permissions; at most one fetch, nick write and presence write; fetch failure gives only "API error"; with a price, the truncated nickname is written and the presence set unless the edit raised unexpectedly, in which case no presence is set |
| `Scheduler.GetGuild` | xrpbot.py:138 | returns a joined guild with the requested id, and none exactly when no joined guild has it |
| `Scheduler.Targets` | xrpbot.py:137-143 | with a truthy configured id: that guild alone, or nothing when it is not joined; otherwise all joined guilds |
| `Scheduler.Tick` | xrpbot.py:136-152 | the targets are reconciled in order; "not found" is logged exactly when a configured guild is not joined, "no guilds" exactly when nothing is reconciled; the loop error is logged iff some reconciliation raised; the sleep is always reached |
| `Scheduler.FetchesAtMostOneEach` | xrpbot.py:148 | reconciliations that each fetch the price at most once make at most one fetch per reconciliation in all |
| `Scheduler.FetchesPerTick` | xrpbot.py:102 | a tick makes at most one price fetch per target guild |
| `Lifecycle.ReadyStep` | xrpbot.py:161-165 | after `on_ready` the session is open and the task running |
| `Lifecycle.ShutdownStep` | xrpbot.py:181-186 | after `_shutdown` no session is open and no task running; a handle that was not live is untouched |
| `Lifecycle.ShutdownIdempotent` | xrpbot.py:181-186 | a second shutdown changes nothing |
| `Lifecycle.ReadyIdempotent` | xrpbot.py:161-165 | a repeated readiness signal changes nothing; one after shutdown starts a new session and task |
| `Lifecycle.Bot.constructor` | xrpbot.py:44-45 | both handles start out absent |
| `Lifecycle.Bot.OnReady` | xrpbot.py:161-165 | creates a session iff none is open and spawns a task iff none is running; otherwise the existing handle is kept |
| `Lifecycle.Bot.Shutdown` | xrpbot.py:181-186 | cancels and awaits only a running task and closes only an open session; the handles stay in place |
| `Lifecycle.Task.CancelAndWait` | xrpbot.py:182-184 | cancelling and awaiting the task leaves it finished |
| `Lifecycle.Session.Close` | xrpbot.py:186 | closing leaves the session closed |

## Left out

- The HTTP request is not modelled: the URL and header construction, the
  10 s timeout and `resp.json()` itself (xrpbot.py:51-57). Each attempt's
  exchange is an oracle input. The exchange is either a raised error class
  or a status with a decoded body or a decoding error.
- Python `float()` on a JSON string is not modelled lexically. A string
  carries the value `float()` would read from it, or none. NaN, infinities,
  floating-point rounding and the `OverflowError` of a huge integer are not
  modelled; numbers are reals.
- The float formatting `f"${price:.3f}"` and `f"{change_24h:+.2f}%"` is not
  modelled: the rendering functions are parameters. Only the sign test uses
  the real value.
- Discord calls (`fetch_member`, `me.edit`, `change_presence`, `get_guild`)
  are not made: their outcomes are inputs and their calls recorded effects.
  The presence is client-wide in the library. The model records it per
  reconciliation, as the source issues it.
- asyncio concurrency is not modelled. `asyncio.gather` runs the
  reconciliations concurrently. `Scheduler.Tick` lists them in target order
  and logs one loop error when any of them raised. It does not model the
  interleaving, or that `gather` re-raises the first error while the other
  reconciliations keep running.
- Real sleeping and cancellation are not modelled. Backoff waits are
  recorded in each attempt record. The interval sleep is recorded in the tick
  report. Cancellation is a task becoming finished.
- The infinite `while not client.is_closed()` loop and
  `client.wait_until_ready()` are not modelled; only one tick body is.
- Configuration reading is not modelled: `TOKEN`, the `int()` parse of
  `GUILD_ID`, `INTERVAL_SECONDS` (xrpbot.py:11-28). The configured guild id
  and the interval are inputs.
- Not modelled: the logging setup, the handlers that only log (`on_disconnect`,
  `on_resumed`) and the `client.run` entry point. Log lines are tags with a
  severity; their wording is not modelled.
- `Lifecycle.ReadyStep`: the abstract state drops the handles' identity.
  That a live handle is kept rather than replaced is stated by
  `Lifecycle.Bot.OnReady`.
