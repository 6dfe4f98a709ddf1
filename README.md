# foos league, LED mailbox and background rotation — a Dafny model

This project models three parts of the foos table software, and proves what
each one promises:

- **The league plugin** (`plugins/league.py`).
  - The `Plugin` state machine runs one league match submatch by submatch. It consists of `start_competition`, `win_game`, `cancel_competition`, `save`/`load` and `update_players`.
  - Its scoring: `get_player_points_per_match`, `calc_points` and the pip strings.
  - The league menu.
  - The results store `DiskBackend`. It filters played matches, skips unchanged schedule writes, builds the `result_<id>.json` name, and writes and archives result files.
- **The device-plugin base** (`plugins/io_base.py`). `IOBase.process_event` forwards converted `leds_enabled` payloads into a mailbox of capacity 10. A put into a full mailbox drops the payload.
- **The background display helpers** (`foos/ui/bg.py`).
  - The power-of-two alignment `_alignUp`/`_alignDown`.
  - The pitch check of `createBuffer`.
  - The resize/convert decision of `loadImg`.
  - The endless image generator `getFiles`.
  - The timed change `change`/`encourageChange`.

How the outside world is modelled:

- A bus notification is an append to `Events.Bus.log`.
- The disk is abstract state of `ResultsStore.DiskBackend`:
  - the schedule file and its temporary sibling;
  - the result and processed directories, as maps from file name to match;
  - a log of file operations.
- `time.time()` is a parameter `now`.
- The value of `random.randint(0, 10000)` is a parameter `draw`.
- A directory listing is a parameter `listing`.
- An exception raised inside a handler ends the handler at that point, and the effects before it remain. Examples are the `IndexError` on `submatches[current_game]` and the `KeyError` on `points[p]`. `PlayersInfo` returns None in those cases.

Modules, one file each:

| module | contents |
|---|---|
| `Wrappers` | Option, Result |
| `Events` | the event datatype and the bus log |
| `Decimal` | `'%d'` rendering and its parse-back |
| `LeagueData` | match, submatch, score, schedule, payload |
| `Scoring` | scoring; `ScoringExamples` holds worked matches |
| `ResultsStore` | `DiskBackend` |
| `League` | `Plugin` and the menu |
| `LeagueScenario` | a full match run through the handlers |
| `IoBase` | the mailbox and `IOBase` |
| `Arith` | shared facts about Euclidean division |
| `BgDisplay` | alignment, pitch and `loadImg` |
| `BgRotater` | the generator and `BGRotater` |

## Model

| member | source | states |
|---|---|---|
| League.Plugin.StartCompetition | plugins/league.py:113-119 | The given match becomes the running one, with `start = now` and `current_game = 0`. It publishes `reset_score` and `set_game_mode` 5, then the first submatch's players unless showing them raises. A well-formed match (at least one submatch, and every roster player is one of the match's players) without results leaves the plugin consistent. |
| League.Plugin.WinGame | plugins/league.py:121-141 | Without a running match: nothing changes and nothing is published. Otherwise exactly one `[yellow, black]` pair is appended to `results`. Before the last submatch, `current_game` grows by exactly one and both submatches are shown. After the last, it publishes `end_competition` with `calc_points`, stamps `end = now`, writes the result file once, publishes `results_written`, clears the players and ends the match, in that order (the ghost `trace`). A consistent plugin stays consistent: `current_game` stays a valid index. |
| League.Plugin.NextSubmatch | plugins/league.py:125-129 | It shows the current submatch, then moves to the next one and shows it. It stops where showing raises. |
| League.Plugin.FinishMatch | plugins/league.py:130-141 | These are the final-submatch effects and their order, as listed for WinGame. Every part of the store except the one result file is unchanged. |
| League.Plugin.CancelCompetition | plugins/league.py:143-145 | From any state the match becomes None, `current_game` is kept, and one `set_players` with empty teams is published. The plugin is left consistent. |
| League.CancelTwice | plugins/league.py:143-145 | Cancelling twice leaves the snapshot that cancelling once leaves. Only the empty `set_players` is published again. |
| League.Plugin.constructor | plugins/league.py:74-83 | A new plugin has no running match, `current_game = 0`, and the given bus and store. |
| League.Plugin.Save | plugins/league.py:85-87 | The snapshot holds exactly the match and `current_game`. |
| League.Plugin.Load | plugins/league.py:89-94 | After `load(s)`, `save()` returns `s`. A running match is shown again and then `set_game_mode` 5 is published. If showing raises, the mode is not set. |
| League.Plugin.UpdatePlayers | plugins/league.py:96-107 | It publishes the current submatch's rosters with a pip string per player. It raises exactly when `PlayersInfo` is None, and then publishes nothing. |
| League.Plugin.ClearPlayers | plugins/league.py:109-111 | It publishes `set_players` with two empty rosters. |
| League.PyIndex | plugins/league.py:100 | Python indexing, including negative indices. It gives None exactly when Python raises IndexError. |
| League.PlayersInfo | plugins/league.py:100-107 | `update_players` has a payload exactly when `current_game` indexes a submatch, negative indices included, and every player on both of its rosters is one of the match's players. The payload carries that submatch's two rosters and one pip string per roster player. |
| League.PlayersInfoDefined | plugins/league.py:100-106 | For a well-formed match and a valid index, `update_players` does not raise. It shows that submatch's rosters, with each player's pips over the played submatches. |
| League.PipColumn | plugins/league.py:105-106 | One pip string per roster player, from that player's point list. |
| League.Recorded | plugins/league.py:123-124 | `results` gains exactly the new pair at its end, and nothing else changes. |
| League.SameScoringData | plugins/league.py:147-150 | Points and shown players depend only on `players`, `submatches` and `results`. The start and end stamps, the id and the division change nothing. |
| League.Plugin.GetMenuEntries | plugins/league.py:160-192 | A running match gives only the cancel action. A missing league file, or a match without four players, gives the empty menu. Otherwise there is one "League" submenu with one submenu per division of the filtered schedule, each closed by the blank and "« Back" entries. Each division submenu has one start entry per unplayed match, carrying that match tagged with its division. |
| League.DivisionEntries | plugins/league.py:173-182 | In listing order: one entry per match, firing `start_competition` with the match tagged with its division, then `menu_hide`; then the footer. None exactly when some match has fewer than four players. |
| Scoring.WinningTeam | plugins/league.py:151 | Team 0 wins exactly when `result[0] > result[1]`, so a tie goes to team 1. |
| Scoring.GetPlayerPointsPerMatch | plugins/league.py:147-155 | Exactly one list per match player. Each list has one entry per zipped (submatch, result) pair. An entry is 1 exactly when the player is on that submatch's winning roster, and 0 otherwise. |
| Scoring.CalcPointsOf | plugins/league.py:157-158 | Each player's total is the sum of their list. It lies between 0 and `min(len(submatches), len(results))`. |
| Scoring.CalcPointsBound | plugins/league.py:157-158 | Every match player has a total, and it lies between 0 and the number of zipped pairs. |
| Scoring.SumOfPointsBounds | plugins/league.py:158 | The sum of a list of 0s and 1s is between 0 and the list's length. |
| Scoring.PointsAfterResult | plugins/league.py:150-153 | One new result adds to a player's total exactly that submatch's point. When no submatch is left to zip it with, the total is unchanged. |
| Scoring.LeftJustify | plugins/league.py:98 | `ljust`: the string is kept and padded with blanks to the width, never shortened. |
| Scoring.Pips | plugins/league.py:97-98 | One filled or empty pip per entry, then blanks up to at least three characters. |
| ScoringExamples.OneWinEach | plugins/league.py:150-158 | Two submatches with the same teams, won 5:3 and then 2:4: everyone ends with one point. |
| ScoringExamples.DrawsGoToBlack | plugins/league.py:151 | Two drawn submatches, 3:3 and 0:0, give both points to the black players. |
| LeagueScenario.PlayTwoSubmatches | plugins/league.py:113-141 | A start and two results on a concrete match publish nine events. `end_competition` carries the tally A 1, B 2, C 0, D 1. Exactly one result file, `result_7.json`, holds the match with both results and both stamps. The plugin ends idle. |
| LeagueScenario.FinalTally | plugins/league.py:147-158 | The tally of that match after both results. |
| LeagueScenario.StartAndWinFirst | plugins/league.py:113-129 | Start and the first result: the plugin moves to submatch 1, publishes five events and leaves the store untouched. |
| LeagueScenario.WinLast | plugins/league.py:130-141 | The last result publishes the final four events and writes the one result file. |
| ResultsStore.DiskBackend.constructor | plugins/league.py:22-24 | The store starts over the existing disk with no operation performed. |
| ResultsStore.DiskBackend.FilterPlayedGames | plugins/league.py:46-51 | Every division is kept, with its name. Its match list is replaced, in place and in order, by the matches without a result file. |
| ResultsStore.PlayableSchedule | plugins/league.py:46-51 | Every division stays. A match remains exactly when it was scheduled and no result file for it exists in the results directory. So a match is not offered again while its result file sits there. After `mark_result_as_processed` has moved the file to the processed directory, the match is offered again. |
| ResultsStore.UnplayedMembers | plugins/league.py:48-49 | A match is kept exactly when its result file does not exist. |
| ResultsStore.UnplayedAppend | plugins/league.py:48-49 | The filter keeps the original order: it distributes over concatenation. |
| ResultsStore.UnplayedNoneWritten | plugins/league.py:48-49 | With no result files for the listed matches, every one of them is kept. |
| ResultsStore.DiskBackend.GetGames | plugins/league.py:26-29 | A missing league file is an error. Otherwise the result is the stored schedule with played matches filtered out. |
| ResultsStore.DiskBackend.WriteGames | plugins/league.py:31-44 | No write happens when the league file exists and holds this schedule. Otherwise the temporary file is written and renamed over the league file, which then holds exactly the schedule. Result files are untouched. |
| ResultsStore.WriteGamesTwice | plugins/league.py:31-44 | Writing one schedule twice writes the league file at most once. |
| ResultsStore.DiskBackend.WriteResults | plugins/league.py:53-56 | The match is stored under its result file name, replacing any earlier file of that name. That is the only change apart from the operation log. |
| ResultsStore.DiskBackend.GetResultFiles | plugins/league.py:58-60 | Exactly the files of the results directory that match `result_*.json`. |
| ResultsStore.DiskBackend.MarkResultAsProcessed | plugins/league.py:66-68 | The file moves to the processed directory, replacing any file of that name there. A missing file is an error and changes nothing. |
| ResultsStore.ResultFileName | plugins/league.py:62-64 | `result_<id>.json`: the name matches the result pattern, and its middle is `'%d' % id`. |
| ResultsStore.ResultFileNameReadsBack | plugins/league.py:62-64 | The id reads back from its result file name. |
| ResultsStore.ResultFileFor | plugins/league.py:62-64 | The result file name of a match matches the result pattern. |
| ResultsStore.ResultFileForReadsBack | plugins/league.py:62-64 | The id read back from a match's result file name is the match's id, or `draw` (0 to 10000) for a match without one. |
| ResultsStore.ResultFileNameInjective | plugins/league.py:62-64 | Two match ids share a result file only when they are equal. |
| ResultsStore.ResultFileMatchesPattern | plugins/league.py:58-64 | Every result file name that is written matches the `result_*.json` pattern. |
| Decimal.NatToDecimal | plugins/league.py:64 | `'%d'` of a natural number is a non-empty string of digits. |
| Decimal.IntToDecimal | plugins/league.py:64 | `'%d'` starts with a minus sign exactly for negative numbers, and the rest is digits. |
| Decimal.NatRoundTrip | plugins/league.py:64 | Reading back the digits of `n` gives `n`. |
| Decimal.IntRoundTrip | plugins/league.py:64 | Reading back `'%d' % n` gives `n`. |
| Decimal.IntToDecimalInjective | plugins/league.py:64 | Distinct numbers render differently. |
| IoBase.IOBase.constructor | plugins/io_base.py:7-10 | A fresh, empty mailbox of capacity 10. `convert_data` is the identity. |
| IoBase.IOBase.WithConversion | plugins/io_base.py:24-25 | An overriding plugin's conversion is the one applied. |
| IoBase.IOBase.ProcessEvent | plugins/io_base.py:27-34 | An event not named `leds_enabled` leaves the mailbox unchanged. An accepted one appends `convert_data(ev.data)`. With 10 items queued the payload is dropped, the mailbox is unchanged, and nothing is raised. The length never exceeds 10. |
| IoBase.IOBase.Pop | plugins/io_base.py:10 | The consumer takes the oldest item and leaves the rest in order. An empty mailbox gives nothing. |
| IoBase.Mailbox.PutNowait | plugins/io_base.py:31-34 | It appends, or reports Full and changes nothing. The bound is kept. |
| IoBase.Mailbox.Get | plugins/io_base.py:10 | First in, first out. |
| IoBase.Mailbox.constructor | plugins/io_base.py:10 | An empty queue of the given capacity. |
| IoBase.Offer | plugins/io_base.py:31-34 | `put_nowait`: what was queued stays in front and in order. The payload is appended, as the last item, exactly when the queue is not full. A queue within its bound stays within it. |
| IoBase.OfferAllKeepsEarliest | plugins/io_base.py:31-34 | Without a consumer, puts keep what was queued and add the earliest offers that fit, in put order. The rest are dropped. |
| IoBase.MailboxKeepsFirstTen | plugins/io_base.py:10 | After any number of puts into an empty mailbox, it holds exactly the first `min(count, 10)` items, in put order. |
| IoBase.AfterEventsOffersLedPayloads | plugins/io_base.py:27-31 | Running events is putting the converted `leds_enabled` payloads in order, and nothing else. |
| IoBase.EventsFillMailboxInOrder | plugins/io_base.py:27-34 | From an empty mailbox, any run of events leaves the first ten converted `leds_enabled` payloads, in order. |
| BgDisplay.AlignDown | foos/ui/bg.py:48-49 | `_alignDown` never goes above `n`. Aligning to 1 keeps `n`, and aligning to 0 gives 0. |
| BgDisplay.AlignUp | foos/ui/bg.py:45-46 | `_alignUp` is at most `alignTo - 1` above `n`. Aligning to 1 keeps `n`, and aligning to 0 gives 0. |
| BgDisplay.AndNotAtMost | foos/ui/bg.py:46-49 | Clearing bits with `& ~mask` never makes a number larger. |
| BgDisplay.AlignDownRounds | foos/ui/bg.py:48-49 | For a power of two `a` and `n >= 0`, `_alignDown(n, a)` is a multiple of `a`, at most `n`, and greater than `n - a`. |
| BgDisplay.AlignUpRounds | foos/ui/bg.py:45-46 | For a power of two `a` and `n >= 0`, `_alignUp(n, a)` is a multiple of `a` with `n <= r < n + a`. |
| BgDisplay.AndNotLowBits | foos/ui/bg.py:46-49 | `n & ~(2^k - 1)` is `n` minus its remainder modulo `2^k`. |
| BgDisplay.AndNotZero | foos/ui/bg.py:49 | `n & ~0` is `n`, so aligning to 1 changes nothing. |
| BgDisplay.AndNotIdempotent | foos/ui/bg.py:49 | Clearing the same bits twice is clearing them once. |
| BgDisplay.AlignDownIdempotent | foos/ui/bg.py:48-49 | `_alignDown` of an aligned value gives it back, for every `alignTo`. |
| BgDisplay.DisplaySide | foos/ui/bg.py:18-19 | The side the display uses is a multiple of 16, at most the requested side, and greater than it minus 16. |
| BgDisplay.DisplaySideSubtracts | foos/ui/bg.py:19 | The display side is the requested side minus its remainder modulo 16. |
| BgDisplay.PitchCheckIff | foos/ui/bg.py:53-54 | `(imgw * 3) % 32 == 0` holds exactly when `imgw` is a multiple of 32. |
| BgDisplay.DisplayPitchCheck | foos/ui/bg.py:51-54 | The constructor's buffer check passes exactly when the requested width is less than 16 past a multiple of 32. The 16-alignment alone does not ensure it: a width of 16 gives a pitch of 48. |
| BgDisplay.LoadImg | foos/ui/bg.py:84-97 | Resize exactly when the width or height is below the buffer's. Convert exactly when the mode is not RGB. |
| BgDisplay.LoadedImageFits | foos/ui/bg.py:87-95 | The returned image is RGB and at least the buffer's size. A resized image has exactly the buffer's size, and any other image keeps its own. |
| BgRotater.Lower | foos/ui/bg.py:123 | `lower()` keeps the length. |
| BgRotater.ImageNamesMembers | foos/ui/bg.py:123 | A pass lists a name exactly when the directory lists it and it mentions jpg or png in any letter case. |
| BgRotater.ImageNamesAreImages | foos/ui/bg.py:123 | Every name of a pass passes the filter. |
| BgRotater.JoinEndsWithName | foos/ui/bg.py:123 | `os.path.join(dir, f)` ends with `f`. |
| BgRotater.YieldedPathIsImage | foos/ui/bg.py:123 | A joined image path still contains jpg or png, case-insensitively. |
| BgRotater.NextFile | foos/ui/bg.py:121-125 | Each `next` yields the directory joined with an image name, and the generator stays well formed. It yields nothing exactly when a new pass finds no image. |
| BgRotater.OutputsAreNth | foos/ui/bg.py:122-125 | Call `i` of a run of calls is the `i`-th single call. |
| BgRotater.NthCycles | foos/ui/bg.py:122-125 | From the start of a pass, or inside one, call `i` yields the name `i` places on, wrapping around to the start of the listing. |
| BgRotater.OutputAt | foos/ui/bg.py:122-125 | The same, for call `i` of a run of `n` calls. |
| BgRotater.OutputsCycle | foos/ui/bg.py:122-125 | The same, for all calls of a run. |
| BgRotater.FilesCycleInListingOrder | foos/ui/bg.py:121-125 | With the directory unchanged, a fresh generator yields the image files in listing order, over and over: call `i` is name `i mod len`. |
| BgRotater.BGRotater.constructor | foos/ui/bg.py:115-119 | An unstarted generator, `last_change = 0`, nothing shown yet. |
| BgRotater.BGRotater.Change | foos/ui/bg.py:127-129 | It sets `last_change = now` and shows the generator's next file. |
| BgRotater.BGRotater.EncourageChange | foos/ui/bg.py:131-134 | It changes the image exactly when `interval > 0` and `now > last_change + interval`, and then `last_change = now`. With `interval <= 0`, nothing ever changes. |

## Left out

- The reader and writer threads of `IOBase`, its bus subscription, and `reader_thread`/`writer_thread`. These are concurrency and device I/O. Only the put and take operations on the mailbox are modelled.
- The `time.sleep` pauses in `win_game`, and a cancel that arrives during them. These are timing and concurrency.
- Bus subscription and dispatch, `registerMenu`, and the bus's own threads. The model keeps the log of notifications a plugin publishes.
- Real file and JSON I/O: `open`, `json.load`/`dump`, `os.rename`, `glob`, `shutil.move` and `os.makedirs`. The directories become maps from file name to match, with a log of operations. Directory paths are left out, so a file is known by its base name.
- ResultsStore.ResultFileFor: the random fallback id is the parameter `draw`, and one operation passes one `draw` to every match. So in one `FilterPlayedGames`, `GetGames` or `GetMenuEntries`, all matches without an id share one fallback number. The program draws a fresh number for each match (plugins/league.py:49, 64).
- League.Plugin.GetMenuEntries: the fixed-width label layout (four names, each cut or padded to 14 characters) is not modelled. A label carries the first four players, and its actions are the events they fire.
- League.Plugin.GetMenuEntries: the filtered schedule is a new value. The program rewrites the loaded dictionaries in place and tags each with `division`; there is no aliasing in the model.
- League.Plugin.Save: the snapshot is a value. The program returns the live `self.match` dictionary (plugins/league.py:86), so later changes to the match show through a saved snapshot; the model does not capture that aliasing.
- League.Plugin.StartCompetition: the running match is a copy stamped with `start`. The program stores the caller's dictionary itself and writes `start` into it (plugins/league.py:114-115), so the caller sees the stamp and every later change; the model does not capture that aliasing.
- IoBase.IOBase.Pop: on an empty mailbox `Queue.get` blocks until an item arrives. The model returns None instead, and leaves the mailbox unchanged.
- IoBase.Mailbox.Get: the same. A blocking `get` on an empty queue is modelled as None with no change.
- Matches are records with fixed keys.
  - Extra JSON keys, and a match dictionary missing `players` or `submatches`, are not modelled.
  - An empty match dictionary, which Python treats as false in `if self.match`, is not modelled.
  - `results` stands for `match.get('results', [])`, so an absent and an empty list are the same.
- BgDisplay.AlignDownRounds: `_alignDown` and `_alignUp` are modelled for `n >= 0` only. Python's `&` on negative numbers is not modelled. `alignTo == 0` gives 0, as `n & ~(-1)` does.
- BgRotater.Lower: only ASCII letters are lower-cased. Unicode case mapping is not modelled.
- BgRotater.BGRotater.Change: when the directory has no image, the program's generator loops forever listing it. The model yields nothing and shows nothing.
- `os.listdir` is the parameter `listing`, read when a new pass starts. Its order is whatever the directory gives.
- The display object, all `bcm`/dispmanx calls, PIL `open`/`resize`/`convert`, numpy buffers, `setImg` and `close`. These are native calls. An image is its size and mode only.
- The float aspect-ratio width `dstw` and float `time.time()`. Time is an integer parameter.
- A `convert_data` override that raises is not modelled.
- IoBase.IOBase.ProcessEvent: a dropped payload is not reported anywhere. The handler swallows `queue.Full`, and the comment at plugins/io_base.py:33 leaves an alert as future work.
- ResultsStore.DiskBackend.MarkResultAsProcessed: archiving is not idempotent. A second call for the same name raises, because `shutil.move` finds no source file (plugins/league.py:68). The model returns an error and changes nothing.
- League.Plugin.StartCompetition: `Consistent` (a valid `current_game`, and one result per finished submatch) is promised only for well-formed matches. Two cases break it.
  - A match without submatches: `update_players` raises IndexError (plugins/league.py:100) and the match stays set, with `current_game = 0` indexing nothing.
  - A roster that names a player outside `players`: `update_players` raises KeyError in `win_game` before `current_game += 1` (plugins/league.py:126-128). The index stays valid, but every further result is appended while `current_game` stays put, so `results` outgrows it.
