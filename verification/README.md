# LeveleandoTG leveling core, in Dafny

LeveleandoTG is a Telegram group bot that gives members XP for their
messages. XP is counted on two tracks: a monthly one that starts again each
calendar month, and a lifetime one that never does. It levels members up,
announces every level reached (and the reward an admin attached to that
level) in a configured forum thread, and shows a profile and a monthly
leaderboard.

This project models the bot's core, found in `main.py`:

- the XP threshold of a level (`xp_para_subir`) and the key format of the xp
  collection (`make_key`);
- the message handler:
  - the lazy monthly reset;
  - the gain bounds;
  - the chained level-up loop;
  - one congratulation per level, followed by the level's reward if one is set;
  - the save;
- the profile command:
  - its reset;
  - its position query;
  - the XP still needed;
- the leaderboard page:
  - the page count and clamping;
  - skip and limit;
  - ranks;
  - the user-id parse of a listed document;
  - the navigation buttons and their callback data, and the parse of that
    data in the callback handler;
- the two configuration commands, which fill the thread and reward tables.

Modules:

- `Results`: `Option` and `Result`.
- `Keys`:
  - Python's `str(int)` and `int(str)` on integers;
  - `str.split` with and without a limit;
  - the `"<chat>_<user>"` document ids and the `"MONTH_<chat>_"` and
    `"<chat>_"` prefixes.
- `Leveling`: the threshold, and the level-up loop as a function on
  (monthly XP, monthly level).
- `Paging`: the page arithmetic, the slice, the buttons and the callback data.
- `Ledger`:
  - the xp document;
  - the message;
  - one message's effect on a record (`Step`);
  - the announcements it sends (`Notices`).
- `Standings`:
  - the prefix counts and the profile position;
  - the profile figures;
  - what the database's sorted listing is (`IsRanking`);
  - the findings below.
- `Bot`: the three collections as a `Store` class with map fields, and the
  handlers as methods on it. The handlers are:
  - `HandleMessage`, with its level-up loop in `Climb`;
  - `Profile`;
  - `TopPage`, with its line-building loop in `NumberRows`, and `ChatTopPage`, the corrected page;
  - `SetThread`;
  - `SetReward`.

Where a prose description of the bot and the code differ, the model follows
the code:

- one congratulation is sent per level climbed, not one per message;
- at level 100 the loop stops and the monthly XP keeps its surplus;
- the lifetime level moves in lockstep with the monthly one rather than being
  recomputed from the lifetime XP;
- the leaderboard sorts on monthly XP only, so the order among equal XP is
  left open.

## Model

| member | source | states |
|---|---|---|
| Leveling.Threshold | main.py:53-55 | the XP needed to leave any level from 0 up is at least 93 |
| Leveling.ThresholdSteps | main.py:53-55 | level 1 costs 100 XP and each level costs 7 more than the one below it |
| Leveling.Advance | main.py:231-232 | one turn of the loop raises the level by one and pays at least 93 XP |
| Leveling.LevelUp | main.py:230-233 | the loop never lowers the level, never passes 100 from at or below 100, never adds XP, and stops only when it cannot advance |
| Leveling.LevelUpUnfold | main.py:230 | the loop's result is unchanged by one turn, and is its input when the guard fails |
| Leveling.LevelUpConserves | main.py:230-233 | the XP left plus the thresholds of every level climbed equals the XP put in |
| Leveling.LevelUpBound | main.py:230-233 | each level climbed consumed at least 93 XP |
| Leveling.LevelUpIsHighestAffordable | main.py:230-233 | the final level is the highest up to 100 whose cumulative thresholds the XP covers |
| Leveling.HighestAffordable | main.py:230-233 | a stop reached by paying thresholds, where the next threshold is not covered, is the highest level the XP covers |
| Leveling.LevelUpReference | main.py:230-233 | any level meeting that description is the loop's result, with the unpaid XP left over |
| Leveling.LevelUpKeepsSurplusAtMax | main.py:230 | at level 100 the loop does nothing and the XP is kept |
| Leveling.ChainedLevelUpExample | main.py:230-233 | 235 XP at level 1 climbs two levels and keeps 28 XP |
| Leveling.SumThresholdsAppend | main.py:230-233 | climbing one more level costs that level's threshold |
| Leveling.SumThresholdsAtLeast | main.py:230-233 | climbing n levels costs at least 93n XP |
| Leveling.SumThresholdsMonotone | main.py:230-233 | climbing further never costs less |
| Leveling.CanAdvance | main.py:230 | no contract of its own: the loop guard; described by LevelUp and LevelUpUnfold |
| Leveling.SumThresholds | main.py:230-233 | no contract of its own: the XP paid to climb between two levels; described by SumThresholdsAppend, SumThresholdsAtLeast and SumThresholdsMonotone |
| Keys.NatToString | main.py:58 | the decimal text of a natural number is non-empty and all digits |
| Keys.IntToString | main.py:58 | the decimal text of an integer is non-empty, starts with a minus exactly when the integer is negative, and is digits everywhere else |
| Keys.NatToStringParses | main.py:75 | the digits of a natural number read back as that number |
| Keys.NatToStringRoundTrip | main.py:75 | `int` reads the decimal text of a natural number back as that number |
| Keys.IntToStringRoundTrip | main.py:75 | `int(str(n)) == n` for every integer n |
| Keys.IntToStringInjective | main.py:58 | distinct integers have distinct decimal texts |
| Keys.IntToStringHasNoUnderscore | main.py:58 | the decimal text of an integer contains no `_` |
| Keys.SplitN | main.py:74 | a split with a limit yields at least one and at most limit + 1 fields |
| Keys.JoinSplitN | main.py:74 | joining the fields with the separator gives back the input |
| Keys.SplitNWithoutSep | main.py:74 | a text without the separator splits into itself alone |
| Keys.SplitNAfterField | main.py:74 | a split peels off a separator-free first field and splits the rest with one fewer |
| Keys.MakeKeyParts | main.py:57-58 | a document id splits on `_` into the chat's and the user's decimal texts |
| Keys.MakeKeyInjective | main.py:57-58 | two (chat, user) pairs share a document id only when they are equal |
| Keys.FieldPrefix | main.py:57-58 | two separator-free first fields of the same text are equal |
| Keys.ChatPrefixSelectsChat | main.py:61-64 | the `"<chat>_"` prefix matches a document id exactly when the id belongs to that chat |
| Keys.MonthPrefixNeverMatches | main.py:68 | no document id the bot writes starts with `"MONTH_<chat>_"` |
| Keys.MonthKeyUser | main.py:74-75 | an id under the month prefix splits into `MONTH`, the chat and the rest, and its user id is the rest parsed |
| Keys.MonthKeyRoundTrip | main.py:74-75 | `"MONTH_" + make_key(chat, user)` is parsed back to `user` |
| Keys.RecordKeyFailsMonthParse | main.py:74-75 | the parse of line 74 fails on every id `make_key` builds, because it splits into two fields, not three |
| Keys.ChatKeyRoundTrip | main.py:57-58 | splitting a `make_key` id once and reading the second field as an integer gives the user back |
| Keys.MakeKey | main.py:57-58 | no contract of its own; described by MakeKeyParts, MakeKeyInjective and ChatPrefixSelectsChat |
| Keys.RewardKey | main.py:142-144 | no contract of its own: the same format as MakeKey with the level in the user's place; described by MakeKeyInjective and NoticesRewardsFollow |
| Keys.ChatPrefix | main.py:61-64 | no contract of its own; described by ChatPrefixSelectsChat |
| Keys.MonthPrefix | main.py:67-69 | no contract of its own; described by MonthPrefixNeverMatches and MonthKeyUser |
| Keys.ParseInt | main.py:75 | no contract of its own: Python's `int` on ASCII text, `None` where it raises; described by IntToStringRoundTrip |
| Keys.Split | main.py:197 | no contract of its own: `str.split` without a limit; described by SplitN's lemmas and MakeKeyParts |
| Keys.KeyUser | main.py:74-75 | no contract of its own; described by MonthKeyUser, MonthKeyRoundTrip and RecordKeyFailsMonthParse |
| Keys.ChatKeyUser | main.py:74-75 | no contract of its own: the corrected parse, one split after the chat; described by ChatKeyRoundTrip |
| Paging.PageCount | main.py:65 | at least one page, enough pages of ten for the total, and no empty page beyond the first |
| Paging.ClampPage | main.py:66 | the page is between 1 and the page count, left alone when in range, and moved to the nearest end otherwise |
| Paging.PageSlice | main.py:67-70 | at most ten documents, exactly those at index skip + i of the ranking, as many as remain after the skip |
| Paging.PageOfIndex | main.py:65-73 | the record at index k is on page k / 10 + 1 and no other, which exists and survives clamping |
| Paging.CallbackRoundTrip | main.py:83-84 | the callback handler parses back exactly the page a button was built with |
| Paging.NavButtons | main.py:82-85 | a back button exactly when a page precedes it, a forward button exactly when one follows, with the neighbouring pages' callback data |
| Paging.NavButtonsStayInRange | main.py:82-85 | every button leads to an existing neighbouring page that clamping leaves alone |
| Paging.Skip | main.py:69 | no contract of its own: `(page - 1) * 10`; described by PageSlice and PageOfIndex |
| Paging.CallbackData | main.py:83-84 | no contract of its own; described by CallbackRoundTrip |
| Paging.ParseCallback | main.py:197 | no contract of its own; described by CallbackRoundTrip and NavButtonsStayInRange |
| Ledger.StepAccounting | main.py:224-251 | one message adds exactly the gain to the lifetime XP, never lowers a level, moves both levels by the same amount, and conserves monthly XP against the thresholds paid |
| Ledger.StepInNewMonth | main.py:218-226 | in a new month, or for a new user, the monthly track holds exactly the gain at level 0, with the lifetime totals carried over |
| Ledger.StepAtRest | main.py:230-251 | a record at rest is saved at rest: below the threshold or at level 100, with the monthly figures within the lifetime ones |
| Ledger.CurrentIsAtRest | main.py:220-222 | the reset record is at rest and carries the month, with totals carried over, or all zero for a new user |
| Ledger.NoticesToThread | main.py:235-244 | every announcement goes to the chat's configured thread |
| Ledger.CongratLevelsAppend | main.py:237-240 | the congratulated levels of two runs of announcements are those of each, in order |
| Ledger.CongratLevelsAt | main.py:237-244 | reaching a level congratulates that level alone |
| Ledger.NoticesCongratulateEachLevel | main.py:230-240 | one congratulation per level climbed, naming each new level in increasing order |
| Ledger.NoticesRewardsFollow | main.py:241-244 | a reward is sent right after the congratulation for its level exactly when the chat has one, with its text |
| Ledger.GainInRange | main.py:224 | no contract of its own: the bounds of `random.randint` for a photo and for anything else; required by HandleMessage and used by StepInNewMonth |
| Ledger.Lookup | main.py:217 | no contract of its own: `find_one` by id |
| Ledger.Current | main.py:218-222 | no contract of its own; described by CurrentIsAtRest and StepInNewMonth |
| Ledger.Step | main.py:218-251 | no contract of its own; described by StepAccounting, StepInNewMonth and StepAtRest |
| Ledger.AtRest | main.py:230-233 | no contract of its own: the state the loop leaves a record in; described by StepAtRest and CurrentIsAtRest |
| Ledger.NoticesAt | main.py:235-244 | no contract of its own; described by CongratLevelsAt |
| Ledger.Notices | main.py:235-244 | no contract of its own; described by NoticesCongratulateEachLevel, NoticesRewardsFollow and NoticesToThread |
| Standings.SubsetCard | main.py:171-175 | a subset is no larger than its superset |
| Standings.PositionBounds | main.py:171-175 | the position is at least 1 and at most one past the number of records counted |
| Standings.PositionMonotone | main.py:171-175 | more monthly XP never gives a worse position |
| Standings.ProfileFigures | main.py:175-177 | for a record at rest the XP still needed is positive and completes the threshold below level 100, zero at level 100, and the position lies within the total |
| Standings.ProfileResetFailsWithoutRecord | main.py:157-164 | the profile command fails exactly for a user without a record, and otherwise reports the current month |
| Standings.RankedPage | main.py:67-70 | every document on a page of the ranking is a record under the prefix, and the page is in non-increasing order of monthly XP |
| Standings.NoKeyUnderMonthPrefix | main.py:68 | no record of the collection lies under the month prefix |
| Standings.LeaderboardListsNothing | main.py:62-70 | as written, every leaderboard page is empty |
| Standings.ProfilePositionFirstOfNone | main.py:170-175 | as written, the profile always reports position 1 of 0 |
| Standings.DistinctCard | main.py:67-70 | a listing without repeats has as many documents as distinct ids |
| Standings.ChatRankingFillsPages | main.py:61-70 | with the chat prefix in the listing, every record of the chat is listed and falls on an offered page |
| Standings.ChatPageUsers | main.py:61-75 | with the chat prefix in the listing, every document on a page is a key of that chat, and its user is read back by a single split |
| Standings.ChatPositionWithinTotal | main.py:170-175 | with the chat prefix in the query, a user with a record is placed between first and last among the chat's records only |
| Standings.PrefixKeys | main.py:62-64 | no contract of its own: the documents a prefix count counts; described by PositionBounds and ChatRankingFillsPages |
| Standings.Above | main.py:171-174 | no contract of its own: the documents counted as ahead; described by PositionBounds and PositionMonotone |
| Standings.Position | main.py:171-175 | no contract of its own; described by PositionBounds, PositionMonotone, ProfilePositionFirstOfNone and ChatPositionWithinTotal |
| Standings.ViewOf | main.py:175-184 | no contract of its own; described by ProfileFigures and ProfilePositionFirstOfNone |
| Standings.ProfileReset | main.py:157-164 | no contract of its own; described by ProfileResetFailsWithoutRecord |
| Standings.IsRanking | main.py:67-70 | no contract of its own: what the sorted cursor returns; described by RankedPage, ChatRankingFillsPages and LeaderboardListsNothing |
| Standings.KeysWellFormed | main.py:57-58 | no contract of its own: every id is a `make_key` id; described by NoKeyUnderMonthPrefix and SaveKeepsSound |
| Bot.SaveKeepsSound | main.py:246-251 | saving the record a message produces under a bot-built key keeps every key bot-built and every record at rest |
| Bot.Sound | main.py:246-251 | no contract of its own: every record bot-keyed and at rest; kept by SaveKeepsSound and the handlers |
| Bot.Climb | main.py:230-244 | the loop ends where the level-up function says, having queued exactly the announcements for every level climbed |
| Bot.NumberRows | main.py:73-80 | lines are numbered from the first rank, one per listed document, with the user id the parse reads off its id and its monthly level and XP. The build fails exactly when some id has no user id, naming the first such id |
| Bot.Store.constructor | main.py:48-50 | the three collections start empty. This is the model's starting point, a fresh deployment; the source opens persistent collections. `Valid`, and through it the as-written findings, hold for collections written only by this code from empty |
| Bot.Store.SetThread | main.py:129-130 | the chat's alert thread is upserted and nothing else changes |
| Bot.Store.SetReward | main.py:141-144 | the reward for `"<chat>_<level>"` is upserted and nothing else changes |
| Bot.Store.HandleMessage | main.py:210-251 | a bot message, no message, or an unconfigured chat changes nothing and sends nothing. Otherwise the sender's record becomes `Step` of it and the announcements are those for the levels climbed. Validity is preserved |
| Bot.Store.Profile | main.py:148-184 | a user without a record gets an error and nothing changes. Otherwise a stale record is reset in place and the profile reports it with its position and total under the month prefix. On a collection the bot wrote, a profile always reports position 1 of 0 |
| Bot.Store.TopPage | main.py:60-86 | the page is the clamped request over the page count of the chat prefix. It fails on the first listed id without a user id. Otherwise rows are numbered from skip + 1, carry each listed record's user, level and XP, are non-increasing in XP, and have the neighbouring buttons. Since line k of the page shows the document at index skip + k of the ranking with rank skip + k + 1, each record's rank is its place in the ranking. On a collection the bot wrote, a page that succeeds has no rows |
| Bot.Store.ChatTopPage | main.py:60-86 | the corrected page lists under the counted `"<chat>_"` prefix and splits each id once. It never fails, lists exactly as many records as it counts, and each line names the user whose record it shows, numbered from skip + 1 in non-increasing XP, with the neighbouring buttons |

## Left out

- Telegram is not modelled:
  - no API calls, text formatting, HTML mentions or keyboards;
  - display names, including the "User <id>" fallback for a member who cannot be looked up;
  - a send that raises and so aborts the handler before the save;
  - the output is the list of announcements and the page data.
- The admin check and the chat-type check of `/levsettema` and `/levalerta` are not modelled, nor their argument checks (`isdigit`, the argument count). The thread id and level arrive as natural numbers, and the reward text arrives as one string.
- `on_startup`, `/start`, `/levcomandos` and the keep-alive web server are outside the core.
- `/levtop` is not modelled apart from the page it builds. Its check that the chat is configured is not modelled.
- The database is not modelled as such:
  - collections are maps;
  - `$regex: "^prefix"` is a literal prefix test, since the prefixes contain only digits, `-`, `_` and letters;
  - the cursor's sort, skip and limit are the `ranked` parameter together with `IsRanking`;
  - documents missing a field (`rec.get` defaults on a stored document) are not modelled, because the bot always writes all five fields.
- `database.py` is not part of this model.
- Randomness and time are parameters. The gain comes in as `gain`, and `HandleMessage` requires it to be within `random.randint`'s bounds for the message kind. The month comes in as `month`, standing for `utcnow().strftime("%Y-%m")`.
- Whether a message carries a photo (`msg.photo` truthiness) is the boolean `hasPhoto`.
- Concurrency is not modelled. Each handler runs alone, so the read-then-write race between two messages from the same user is not captured.
- Keys.ParseInt: does not model the surrounding whitespace or the non-ASCII digits Python's `int` also accepts. The texts parsed here are always produced by `str(int)`.
- Bot.Store.Profile: the reset writes with `$setOnInsert`, which only affects a missing document. That path raises earlier, so the model writes the carried-over totals directly.

## Findings

| source | as written | input that shows it | evidently intended | confidence | as-written member | corrected member |
|---|---|---|---|---|---|---|
| main.py:62-70 | the page count counts ids under `"<chat>_"`, but the page lists ids under `"MONTH_<chat>_"`, which the bot never writes | a chat with 11 records: 2 pages are offered and both are empty | list the chat's records under the same `"<chat>_"` prefix that is counted, and read the user as the field after the first `_`. Changing the prefix alone is not enough: line 74 rejects every id the bot writes | high (not executed) | Standings.LeaderboardListsNothing | Bot.Store.ChatTopPage |
| main.py:170-175 | the position and the total count ids under `"MONTH_<chat>_"`, which no record has | any user with a record: the profile shows "Pos 1/0" | rank among the chat's records under `"<chat>_"` | high (not executed) | Standings.ProfilePositionFirstOfNone | Standings.ChatPositionWithinTotal |
| main.py:157-164 | when there is no record, the reset reads `rec.get(...)` on `None` and raises | `/levperfil` from a user who has never written | start a new user at zero, as the message handler does at lines 220-222 | high (not executed) | Standings.ProfileResetFailsWithoutRecord | Ledger.CurrentIsAtRest |
