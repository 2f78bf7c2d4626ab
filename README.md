# alert-price-bot: a Dafny model of the target registry and the monitor pass

The bot lets a Telegram chat pick a token and register a target price
with `/setprecio <price>`. A scheduled job, `monitor_prices`, checks
every registered target against a quote from the market-data API. When the
quote has reached the target, the job sends an alert and deletes the
target.

This project models that core of `main.py`:

- `user_targets` (line 23): a dict from chat id to a dict from token
  symbol to target price. Both levels are Python dicts, so both iterate in
  insertion order. `PyDict.Dict` models such a dict as a key sequence plus
  a map. Assigning a new key appends it; reassigning a key keeps its place;
  `del` removes the key and keeps the others in order.
- The registry branch of `set_precio` (lines 60-78). `Registry.SetPriceReply`
  is the decision it takes. `Registry.Upsert` is the update. The method
  `Bot.AlertBot.SetPrice` performs both on the bot's state.
- `get_token_price` (lines 80-105), from the HTTP response on. The payload
  is a `Quote.Json` value. `Quote.Probe` evaluates the chained `in` tests of
  line 97 the way Python does:
  - a key on a dict;
  - an element on a list;
  - a substring on a str;
  - a TypeError on anything else.
  It then evaluates the `['price']` read of line 98. `Quote.Path` is an
  independent reference definition of "the nested object path exists".
- One run of `monitor_prices` (lines 107-120). `Monitor.Trace` and
  `Monitor.AfterPass` state it as functions. `Bot.AlertBot.MonitorPrices`
  runs the two nested loops on the bot's state and is proved to agree with
  them.

The quote requests and the Telegram sends are outside the model. They
enter as two parameters:
- `respond(user, token)` is the response the request for that triple gets;
- `deliver(user, token)` says whether `send_message` succeeds.

A pass asks about each (user, token) pair at most once (`Monitor.PairsUnique`).
So functions of the pair describe any single pass.

Behaviour that follows from the code and that the model keeps:

- Each (user, token) triple makes its own quote request. There is no
  de-duplication by token.
- A target is deleted only after `send_message` returned normally. If the
  send raises, the `except` at line 119 catches it and the target stays
  (`Monitor.FailedSendKeepsTarget`).
- A quote equal to the target counts as met (`>=` at line 112).
- After a `del` at line 118, the inner `for` iterator has changed size. At
  its next step, CPython raises RuntimeError, even when the deleted key was
  the last one. That step is in the loop header, outside the `try`, so the
  exception ends the pass. A pass therefore deletes at most one target,
  namely the first one met and delivered (`Monitor.PassRemovesFirstMet`).
  Every later triple, met or not, waits for the next pass
  (`Monitor.PassKeepsOrder`, `Scenarios.EtherBothMet`).
- A chat whose last target was deleted keeps its (now empty) entry.
- A JSON `null` price is treated as `None`, and a JSON boolean compares as
  0 or 1. A string, list or object price makes `>=` raise TypeError, which
  line 119 catches (`Monitor.Read`).

Modules:
- `Wrappers`: the `Option` type.
- `PyDict`: ordered dicts.
- `Quote`: JSON payloads and `get_token_price`.
- `Registry`: `user_targets` and the `set_precio` decision.
- `Monitor`: the pass as functions, and the lemmas about it.
- `Bot`: the `AlertBot` class with the mutable registry and the two
  handlers as methods.
- `Scenarios`: concrete runs.

## Model

| member | source | states |
|---|---|---|
| PyDict.Empty | main.py:23 | the registry starts empty: valid, and every lookup misses |
| PyDict.Dict.Set | main.py:72-74 | `d[k] = v` keeps the dict valid and makes `d.get(k)` return v. Every other key's value stays the same. A new key goes at the end of the iteration order; an existing key keeps its position. |
| PyDict.Dict.Del | main.py:118 | `del d[k]` on a present key keeps the dict valid and makes `k` absent. Every other key's value stays the same. The order is the old order without `k`, one key shorter. |
| PyDict.Without | main.py:118 | the order left by `del`: exactly the other keys, distinct if they were; unchanged if `k` was absent; one shorter if it was present |
| PyDict.SetTwice | main.py:74 | assigning a key twice leaves the dict, order included, as the second assignment alone would |
| PyDict.DelUndoesSet | main.py:118 | deleting a key that was just inserted restores the dict exactly |
| Registry.Upsert | main.py:71-74 | after storing a target, lookup(u, t) is p and every other lookup is unchanged. The user set grows by `u`. A new chat is appended with the one-key dict `[t]`. A new token is appended to a known chat's dict; an existing token keeps its place. |
| Registry.Remove | main.py:118 | after deleting a stored target, lookup(u, t) misses and every other lookup is unchanged. Chats and their order stay the same, including a chat left with no targets. That chat's remaining tokens keep their order (`Without`). |
| Registry.UpsertTwice | main.py:74 | two `/setprecio` for one chat and token: last write wins, order included |
| Registry.RemoveUndoesUpsert | main.py:118 | deleting a target that was just added for a known chat restores the registry |
| Registry.SetPriceReply | main.py:62-78 | each reply is characterised by an iff, in the order the code checks. No or empty selected token gives "select first". Otherwise, a missing or unparsable argument gives the usage text. Otherwise, a token missing from the listing gives "invalid token". Only the remaining case stores the selected token with the parsed price. |
| Bot.AlertBot.constructor | main.py:23 | a new bot has the empty registry |
| Bot.AlertBot.SetPrice | main.py:60-78 | returns `SetPriceReply` of its inputs. The registry becomes `Upsert(old, chat, token, price)` when the target is stored and is unchanged otherwise. |
| Quote.Probe | main.py:97-98 | the `in` tests of line 97, left to right, stopping at the first false one, then the `['price']` read of line 98. It has no contract of its own: `ProbeValueIff`, `ProbeAbsentKey` and `ProbeNoPrice` characterise it. |
| Quote.FetchPrice | main.py:91-105 | `get_token_price` given its response: a request error returns `None`; otherwise the result is `Probe` of the payload. It has no contract of its own: `FetchValueIff`, `FetchMissing` and `FetchRaisesWithoutPrice` characterise it. |
| Quote.ProbeValueIff | main.py:97-99 | the chained `in` tests followed by `['price']` yield a value exactly when the object path followed by `price` exists, and the value is the one at its end |
| Quote.ProbeAbsentKey | main.py:97-102 | a key missing from an object on the checked path gives `None` |
| Quote.ProbeNoPrice | main.py:98 | when the checked path exists but its end is not an object with `price`, line 98 raises |
| Quote.FetchValueIff | main.py:91-99 | `get_token_price` returns a value exactly when the request succeeded and `data[token].quote.USD.price` exists; it returns that value |
| Quote.FetchMissing | main.py:97-105 | a request error, or an object payload missing `data`, the token, `quote` or `USD`, makes `get_token_price` return `None` |
| Quote.FetchRaisesWithoutPrice | main.py:97-98 | a payload whose `USD` entry is not an object holding `price` makes `get_token_price` raise |
| Monitor.Read | main.py:112 | how the returned price behaves in `current_price is not None and current_price >= target_price`. `None` (no value, or a JSON null) is unavailable. A number is itself, and a bool is 1 or 0. A string, list or object price, or an exception out of `get_token_price`, is a failure. |
| Monitor.Evaluate | main.py:110-120 | a triple is alerted exactly when the quote is a number at least the target and the send succeeds. The send fails exactly when the quote meets the target and the send does not succeed. The outcome is "below" exactly when the quote is a number under the target. Every outcome with a price carries the quote. No quote means nothing happens. Any exception, whether from inside `get_token_price` or from `>=`, is caught. |
| Bot.CheckTarget | main.py:110-120 | for one triple, requests the quote, compares it with the target and sends only when met. The outcome is the one `Evaluate` gives. |
| Monitor.Trace | main.py:107-120 | the steps of a pass: step i is triple i's outcome. No step before the last is a deletion. A pass that skips triples ended with a deletion. |
| Monitor.Pairs | main.py:108-109 | the order in which the nested `for` loops visit (chat, token, target): chats in dict order, and each chat's tokens in dict order. It has no contract of its own: `PairsLookup`, `PairsUnique` and `TokenPairsAt` characterise it. |
| Monitor.TokenPairsAt | main.py:109 | the i-th triple of a chat is its i-th token in dict order, with its target |
| Monitor.PairsLookup | main.py:108-109 | the nested loops visit exactly the stored targets: a triple is visited iff lookup(user, token) is its target |
| Monitor.PairsUnique | main.py:108-109 | no (chat, token) pair is visited twice in a pass |
| Monitor.AfterPass | main.py:118 | the registry after a pass is well-formed |
| Monitor.PassEffect | main.py:107-120 | a pass never adds a target, changes a price, or removes or reorders a chat. If it ended with a deletion, exactly that target is gone; otherwise nothing changed. |
| Monitor.TraceAppendStopped | main.py:109-118 | once a deletion has ended the pass, nothing after it is examined |
| Monitor.TraceStopsAtFirstAlert | main.py:109-118 | the pass ends at position i iff triple i is the first one met and delivered |
| Monitor.PassRemovesFirstMet | main.py:112-118 | the target at position i is gone after the pass iff it is the first one met (`>=`, ties count) and delivered; at most one target is removed |
| Monitor.FailedSendKeepsTarget | main.py:113-120 | a target whose alert cannot be sent is still there after the pass |
| Monitor.UnmetTargetKept | main.py:111-112 | a target with no quote, a failed quote, or a quote below it is still there after the pass |
| Monitor.PassKeepsOrder | main.py:108-118 | the next pass visits the same triples in the same order, minus the deleted one if there was one |
| Bot.AlertBot.MonitorPrices | main.py:107-120 | the nested loops over the registry produce `Trace` of the registry's triples. They report the RuntimeError abort iff the pass ended with a deletion. They leave the registry as `AfterPass` says. |
| Bot.AlertBot.MonitorUser | main.py:109-120 | one chat's part of the pass extends the steps by that chat's triples, up to the first deletion. That deletion is `Remove` of the final triple, which is this chat's; without one the registry is unchanged. |
| Bot.WalkTargets | main.py:109-116 | the inner loop over one chat's targets yields `Trace` of the walk so far extended by that chat's triples. It reports a met token iff the walk ended with a sent alert, and that token's triple is the final step's. |
| Bot.AlertBot.DeleteTarget | main.py:118 | `del user_targets[user_id][token]` of a stored target leaves the registry as `Remove` says |
| Scenarios.QuotedReads | main.py:97-99 | a well-shaped payload's price is the value returned |
| Scenarios.BitcoinTarget | main.py:107-120 | BTC target 30000: a 29500 quote changes nothing; a 30500 quote alerts and deletes it; the next pass visits nothing |
| Scenarios.EtherTwoUsers | main.py:107-120 | ETH targets 2000 and 2500 in two chats, quote 2200: only the first is deleted |
| Scenarios.EtherBothMet | main.py:107-120 | ETH targets 2000 and 2500, quote 2600: the first pass deletes only the first target, and the second pass deletes the other |
| Scenarios.FailingTokenDoesNotBlock | main.py:107-120 | an XRP request that raises is caught, and the BTC target after it is still alerted and deleted, while XRP stays |

## Left out

- HTTP: the requests of `get_top_tokens` and `get_token_price` are not modelled.
  - `get_top_tokens` enters `SetPrice` as the set of listed symbols. That set is empty when the request fails.
  - Each quote request enters as the `respond` parameter: a failure (network, 4xx/5xx, undecodable body) or a decoded JSON body.
- The Telegram side is not modelled: `/start`, the keyboard callback `button`, the reply texts, the alert text with `:.2f` formatting, and exceptions raised by `reply_text`. The token chosen with the keyboard enters `SetPrice` as the `selected` parameter. The outcome of each `send_message` enters as the `deliver` parameter.
- `float(context.args[0])` enters `SetPrice` already parsed: `None` for an IndexError or ValueError.
  - Python floats are modelled as reals, so NaN, infinities and rounding are not modelled.
  - Nor is the accepted input syntax ("1e3", surrounding spaces).
- An exception from `get_top_tokens` other than a request error (for example a KeyError on a payload without `data`) escapes `set_precio`. It is not modelled.
- Logging, environment variables, the application builder and the JobQueue schedule are not modelled: they do not affect the registry.
- Concurrency is not modelled. The handlers are asyncio coroutines, so `set_precio` could run while `monitor_prices` waits on `send_message` and change the dicts under its iterators. The model treats each handler as running to completion alone.
- `respond` and `deliver` are functions of (chat, token), so one of them cannot describe two passes with different quotes. Each pass takes its own pair of parameters, as the scenarios show.
- Monitor.AfterPass: its own contract states only well-formedness. What it does to each target is stated by `PassEffect`, `PassRemovesFirstMet` and `PassKeepsOrder`.
