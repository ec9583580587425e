# Clash of Code: matchmaking, waiting line, judge and battle pages in Dafny

This project models the core of the Clash of Code battle site:

- **Matchmaking** (`clashofcode/battle/tasks.py`). The periodic matchmaking cycle works over the ticket table. In each of at most ten passes it takes the two oldest waiting tickets, creates a battle for their users over some problem, and marks both tickets matched. It stops early when fewer than two tickets wait or when no problem exists. `Matchmaking.Cycle` is the specification of a whole cycle. `Matchmaking.TicketStore` holds the ticket and battle tables as fields, and its `RunMatchmaking` loop is proved to do what `Cycle` says.
- **Waiting line** (`clashofcode/battle/queue.py`). An in-memory double-ended queue of user ids. It keeps the source's quirks:
  - leaving removes only the first entry;
  - an absent id is ignored;
  - `pop_pair` pops up to two ids even when it then returns no pair, because an id is falsy.
- **Judge** (`judge.py`). The decision chain that classifies the execution service's reply as:
  - an API error;
  - a compilation error;
  - a wrong answer or acceptance, after Python's `str.strip()` on both outputs;
  - an unknown error.
- **Sample solution** (`main.cpp`). The one-pass hash-map two-sum that the judge submits, together with what it prints.
- **Search page** (`queue.js`). The `mm:ss` search timer, the wait estimate and the reset on (re)joining.
- **Battle page** (`script.js`). The fifteen-minute `hh:mm:ss` countdown with `pad`, the editor's Tab key, and the line-number gutter.

Modules:

| file | module |
|---|---|
| `wrappers.dfy` | `Wrappers` (`Option`) |
| `decimal.dfy` | `Decimal` (decimal rendering, zero padding and reading back) |
| `matchmaking.dfy` | `Matchmaking` |
| `wait_queue.dfy` | `WaitQueue` |
| `judge.dfy` | `Judge` |
| `two_sum.dfy` | `TwoSum` |
| `queue_page.dfy` | `QueuePage` |
| `arena_page.dfy` | `ArenaPage` |

## Model

| member | source | states |
|---|---|---|
| Decimal.NatToString | clashofcode/battle/static/battle/js/queue.js:15 | `String(n)` of a whole number: at least one character, all decimal digits, no leading zero, one character exactly below ten |
| Decimal.ParseNatToString | clashofcode/battle/static/battle/js/queue.js:15-16 | reading the rendered digits back gives the number |
| Decimal.PadStart | clashofcode/battle/static/battle/js/queue.js:15-16 | `padStart(width, fill)`: at least `width` long, the original text is its suffix, and everything in front of it is the fill character |
| Decimal.ParsePadStart | clashofcode/battle/static/battle/js/queue.js:15-16 | zero padding does not change the value the digits read back to |
| Decimal.TwoDigits | clashofcode/battle/static/battle/js/queue.js:15-16 | a field is at least two characters, and exactly two precisely when the number is below 100 |
| Decimal.TwoDigitsParse | clashofcode/battle/static/battle/js/queue.js:15-16 | the field is all digits and reads back to the number; from 100 up it is the plain rendering |
| Matchmaking.FirstWaitingFrom | clashofcode/battle/tasks.py:24-25 | the first waiting ticket at or after a position; every ticket skipped is not waiting; none means no later ticket waits |
| Matchmaking.OldestTwoWaiting | clashofcode/battle/tasks.py:22-26 | the two selected tickets are waiting, in table order, and no other ticket before the second one is waiting |
| Matchmaking.OldestTwoWaitingIff | clashofcode/battle/tasks.py:22-30 | two tickets are selected exactly when at least two tickets wait, so the cycle breaks exactly when fewer than two wait |
| Matchmaking.OldestTwoAreOldest | clashofcode/battle/tasks.py:25 | in a table ordered by `created_at`, the selected tickets are no newer than any other waiting ticket |
| Matchmaking.PairUp | clashofcode/battle/tasks.py:49-55 | both selected tickets become matched to the new battle and every other ticket is unchanged |
| Matchmaking.PairUpCount | clashofcode/battle/tasks.py:49-55 | a pass lowers the number of waiting tickets by exactly two |
| Matchmaking.PairUpWellFormed | clashofcode/battle/tasks.py:42-55 | a pass keeps the table ordered by creation time, keeps "has a battle iff matched", and refers only to existing battles |
| Matchmaking.Cycle | clashofcode/battle/tasks.py:19-57 | a cycle keeps the table's size and creates at most as many battles as it has rounds |
| Matchmaking.CycleStep | clashofcode/battle/tasks.py:32-57 | a pass that finds two tickets and a problem records their users as the next battle and continues from the updated table |
| Matchmaking.CycleStop | clashofcode/battle/tasks.py:28-39 | with no rounds left, fewer than two waiting, or no problem, the cycle changes nothing and creates nothing |
| Matchmaking.NoProblemNoChange | clashofcode/battle/tasks.py:36-39 | with no problem in the database a cycle leaves the tickets as they were and creates no battle |
| Matchmaking.CycleWaitingCount | clashofcode/battle/tasks.py:19-57 | each battle created takes exactly two tickets out of the waiting set |
| Matchmaking.CycleExit | clashofcode/battle/tasks.py:19-39 | a cycle ends only after ten battles, with fewer than two tickets waiting, or for lack of a problem |
| Matchmaking.CycleFrame | clashofcode/battle/tasks.py:22-55 | a ticket that was not waiting is never touched; a waiting ticket is either unchanged or matched to one of the battles of this cycle |
| Matchmaking.CycleWellFormed | clashofcode/battle/tasks.py:42-55 | a cycle keeps the table well formed, counting the battles it created |
| Matchmaking.CycleKeepsOlderBattles | clashofcode/battle/tasks.py:49-55 | the tickets of battles created before the cycle still refer to them, and no other ticket does |
| Matchmaking.PairUpBattle | clashofcode/battle/tasks.py:49-55 | after a pass the new battle is referenced by exactly the two selected tickets |
| Matchmaking.FirstBattleTickets | clashofcode/battle/tasks.py:32-55 | the first battle of a cycle belongs to the two oldest waiting tickets, with user A from the older one |
| Matchmaking.CycleBattleTickets | clashofcode/battle/tasks.py:32-55 | every battle of a cycle is referenced by exactly two tickets, both waiting when the cycle began, with user A from the older and user B from the newer |
| Matchmaking.CycleDrains | clashofcode/battle/tasks.py:14-19 | with a problem available and at most twenty waiting, one cycle pairs them all off, leaving one over exactly when the count was odd |
| Matchmaking.TicketStore.OpenTicket | clashofcode/battle/models.py:5-9 | a ticket created with the model's defaults is waiting, has no battle and carries the current time, and the table stays ordered by creation time |
| Matchmaking.TicketStore.MatchOnce | clashofcode/battle/tasks.py:20-57 | one atomic pass: it succeeds exactly when two tickets wait and a problem exists; then the two oldest waiting tickets are matched to a new battle of their users over a problem from the database; otherwise nothing changes |
| Matchmaking.TicketStore.RunMatchmaking | clashofcode/battle/tasks.py:9-60 | the loop leaves the tickets as `Cycle` says, appends one battle per pair in order over problems from the database, keeps older battles, and returns how many it made (at most ten) |
| WaitQueue.RemoveFirst | clashofcode/battle/queue.py:8-12 | an absent id leaves the queue as it was; otherwise exactly one occurrence of the id is removed |
| WaitQueue.RemoveFirstSplit | clashofcode/battle/queue.py:10 | the removed occurrence is the first one, and every other entry keeps its order |
| WaitQueue.JoinThenLeave | clashofcode/battle/queue.py:5-12 | joining and then leaving, with no earlier entry for that user, restores the queue |
| WaitQueue.LeaveKeepsLaterEntry | clashofcode/battle/queue.py:8-12 | leaving takes the earliest entry, so a later duplicate stays in line |
| WaitQueue.TakePair | clashofcode/battle/queue.py:17-20 | up to two ids come off the front in every case; a pair is returned exactly when two ids were popped and both are non-zero, and it is those two in order |
| WaitQueue.TakePairJoin | clashofcode/battle/queue.py:17-20 | once two users wait, a later join changes neither who is paired nor what is left, apart from the new user at the back |
| WaitQueue.TakePairSuffix | clashofcode/battle/queue.py:17-20 | popping never reorders: what is left is the queue without its first two entries, and a returned pair is exactly those entries |
| WaitQueue.Queue.constructor | clashofcode/battle/queue.py:3 | the line starts empty |
| WaitQueue.Queue.Join | clashofcode/battle/queue.py:5-6 | `joinQueue` appends the user at the back |
| WaitQueue.Queue.Leave | clashofcode/battle/queue.py:8-12 | `leaveQueue` removes the user's first entry, ignores an absent user, and removes exactly one copy of the user from the multiset |
| WaitQueue.Queue.Size | clashofcode/battle/queue.py:14-15 | `getQueue_size` is the number of entries |
| WaitQueue.Queue.PopPair | clashofcode/battle/queue.py:17-20 | `pop_pair` returns and leaves exactly what `TakePair` says |
| Judge.TrimStart | judge.py:50 | `lstrip()`: a suffix of the input, everything removed is whitespace, and the result does not start with whitespace |
| Judge.TrimEnd | judge.py:50 | `rstrip()`: a prefix of the input, everything removed is whitespace, and the result does not end with whitespace |
| Judge.Strip | judge.py:50 | `strip()` yields a string with no whitespace at either end |
| Judge.StripSplit | judge.py:50 | `strip()` cuts its input into leading whitespace, the result, and trailing whitespace |
| Judge.StripPadded | judge.py:50 | a string with no whitespace at its ends, padded with any whitespace, strips back to itself |
| Judge.StripIdempotent | judge.py:14 | stripping twice is stripping once |
| Judge.StripIgnoresPadding | judge.py:50 | whitespace added around a string does not change what it strips to |
| Judge.Decide | judge.py:32-57 | the precedence API error, then compilation error (only when its stderr is non-empty), then the run, then unknown error; for a run, stderr is echoed iff it is non-empty, the verdict is Accepted iff the stripped output equals the expected one, and otherwise a wrong answer carrying both |
| Judge.Classify | judge.py:13-57 | the whole judge: the expected file is stripped when read, so a clean run is accepted exactly when its stripped output equals the stripped expected file, and a wrong answer reports both stripped texts |
| Judge.JudgedIffRan | judge.py:43-57 | the verdict is Accepted or a wrong answer exactly when there was no API or compilation error and the service ran the program |
| Judge.DecideSeesStrippedOutput | judge.py:50-55 | two replies whose run outputs strip to the same text get the same report |
| Judge.VerdictIgnoresOutputPadding | judge.py:50-55 | whitespace around the program's output never changes the report |
| Judge.VerdictIgnoresExpectedPadding | judge.py:14 | whitespace around the expected output file never changes the report |
| Judge.VerdictIgnoresRuntimeStderr | judge.py:46-55 | a run's standard error is echoed but never changes the verdict |
| Judge.ExpectedOutputAccepted | judge.py:50-55 | a clean run that prints the expected file, give or take surrounding whitespace, is accepted |
| TwoSum.FindPair | main.cpp:16-27 | the printed pair `(j, i)` has `j < i` and sums to the target; `i` is the first index completing any pair; `j` is the latest earlier index holding the complement; no answer exactly when no pair sums to the target |
| TwoSum.NoPairExtends | main.cpp:18-26 | an index that completes no pair with an earlier one extends the pair-free prefix by one |
| TwoSum.Line | main.cpp:22 | the printed answer line is empty exactly when there is no answer, and has no whitespace at either end |
| TwoSum.LineReadsBack | main.cpp:22 | the answer line splits at a space into two digit strings that read back as `j` and `i`, in that order |
| TwoSum.Printed | main.cpp:18-27 | the program prints nothing when the loop runs out, and otherwise the answer line followed by the newline of `endl` |
| TwoSum.PrintedStrips | main.cpp:22 | the judge's `strip()` of what the program prints is the bare answer line |
| TwoSum.JudgeAcceptsIff | main.cpp:22 | a clean run of the program is accepted exactly when the stripped expected file is its answer line |
| QueuePage.FormatTime | clashofcode/battle/static/battle/js/queue.js:14-18 | the display is at least five characters, with the colon third from the end |
| QueuePage.FormatTimeFields | clashofcode/battle/static/battle/js/queue.js:15-17 | the display is the minutes field, a colon, and the two-digit seconds field |
| QueuePage.FormatTimeRoundTrip | clashofcode/battle/static/battle/js/queue.js:14-18 | read back, the fields are digits, the seconds field is below 60, and minutes times 60 plus seconds is the count shown |
| QueuePage.DisplayReadsBack | clashofcode/battle/static/battle/js/queue.js:17 | any minutes field and a seconds field below 60, joined by a colon, read back as that many seconds |
| QueuePage.FormatTimeWidth | clashofcode/battle/static/battle/js/queue.js:15 | the display is exactly `mm:ss` precisely below 100 minutes |
| QueuePage.FormatTimeZero | clashofcode/battle/static/battle/js/queue.js:35 | the literal `'00:00'` written on reset is the formatted zero |
| QueuePage.EstimateFor | clashofcode/battle/static/battle/js/queue.js:24-26 | under a minute the estimate is the shortest wait on offer that exceeds the time already spent (`~30s` below 30 s, `~1m` from 30 s), so it overshoots by at most half a minute; from a minute on it is two minutes |
| QueuePage.EstimateDetermined | clashofcode/battle/static/battle/js/queue.js:24-26 | under a minute, that description leaves exactly one estimate, the one shown |
| QueuePage.EstimateMonotone | clashofcode/battle/static/battle/js/queue.js:24-26 | a longer search never lowers the estimate |
| QueuePage.EstimateTextInjective | clashofcode/battle/static/battle/js/queue.js:24-26 | the three estimate texts are distinct, so the text tells the estimate |
| QueuePage.SearchPage.constructor | clashofcode/battle/static/battle/js/queue.js:56 | on load the counter is zero and the timer shows it (the formatted zero, `00:00` by `FormatTimeZero`) |
| QueuePage.SearchPage.UpdateTimer | clashofcode/battle/static/battle/js/queue.js:20-27 | one second more, the timer shows the new count, and the estimate matches it |
| QueuePage.SearchPage.StartSearching | clashofcode/battle/static/battle/js/queue.js:33-35 | the counter and its display go back to zero (the literal `00:00` is the formatted zero, by `FormatTimeZero`) and the estimate is left as it was |
| ArenaPage.Pad | clashofcode/battle/static/battle/js/script.js:207-209 | the result is all digits, reads back to the number, and is exactly two characters below 100 |
| ArenaPage.PadIsTwoDigits | clashofcode/battle/static/battle/js/script.js:207-209 | `pad` agrees with the search page's `padStart(2, '0')` for every count |
| ArenaPage.Decompose | clashofcode/battle/static/battle/js/script.js:199-201 | minutes and seconds stay below 60, and the three fields recombine to the count |
| ArenaPage.Clock | clashofcode/battle/static/battle/js/script.js:202 | below a hundred hours the display is eight characters with colons at positions 2 and 5 |
| ArenaPage.ClockRoundTrip | clashofcode/battle/static/battle/js/script.js:199-202 | read back, the three fields are digits, minutes and seconds are below 60, and they recombine to the count shown |
| ArenaPage.ClockZero | clashofcode/battle/static/battle/js/script.js:202 | the last display is `00:00:00` |
| ArenaPage.Countdown.constructor | clashofcode/battle/static/battle/js/script.js:194 | the countdown starts at fifteen minutes |
| ArenaPage.Countdown.Tick | clashofcode/battle/static/battle/js/script.js:196-204 | while time remains, one second less and the display shows it; at zero nothing changes, so the count never goes negative or above its start |
| ArenaPage.TabSplice | clashofcode/battle/static/battle/js/script.js:181 | the text before the selection, then four spaces, then the text after the selection; the length changes accordingly |
| ArenaPage.TabUndo | clashofcode/battle/static/battle/js/script.js:181 | removing the four spaces again gives the text with the selection deleted, or the original text when nothing was selected |
| ArenaPage.Lines | clashofcode/battle/static/battle/js/script.js:166 | `split('\n')` yields one piece more than there are newlines, and no piece contains a newline |
| ArenaPage.JoinLinesLines | clashofcode/battle/static/battle/js/script.js:166 | joining the pieces with newlines gives the text back |
| ArenaPage.LinesJoinLines | clashofcode/battle/static/battle/js/script.js:166 | splitting newline-free lines joined with newlines gives those lines back |
| ArenaPage.Labels | clashofcode/battle/static/battle/js/script.js:167 | the gutter has one entry per line |
| ArenaPage.LabelsAt | clashofcode/battle/static/battle/js/script.js:167 | entry `i` labels line `i + 1`, so the lines are numbered `1..n` in order |
| ArenaPage.Gutter | clashofcode/battle/static/battle/js/script.js:165-168 | the gutter markup for a text opens with the label of line 1 and closes with the label of its last line |
| ArenaPage.TabLineCount | clashofcode/battle/static/battle/js/script.js:176-184 | Tab loses exactly the line breaks that were selected |
| ArenaPage.TabKeepsLineCount | clashofcode/battle/static/battle/js/script.js:176-184 | a selection without line breaks keeps the number of lines |
| ArenaPage.Editor.constructor | clashofcode/battle/static/battle/js/script.js:186 | after `initEditor` the gutter matches the text |
| ArenaPage.Editor.UpdateLineNumbers | clashofcode/battle/static/battle/js/script.js:165-168 | the gutter matches the text, and the text and selection are unchanged |
| ArenaPage.Editor.OnTab | clashofcode/battle/static/battle/js/script.js:176-184 | the selection becomes four spaces, the caret sits after them with nothing selected, and the gutter is not refreshed; it is still right when the selection held no line break |

## Left out

- Locking (`select_for_update(skip_locked=True)`), `transaction.atomic` and Celery scheduling are not modelled. Each pass is one atomic step (`MatchOnce`), and cycles never interleave. The exactly-once claims under concurrency are therefore not addressed.
- The random problem choice (`order_by('?')`) is a nondeterministic pick from the sequence of problem ids. The model only promises that the chosen problem is one of them.
- `run_matchmaking` returns a message and writes log lines. The model returns only the count in that message, and the logging is left out.
- A battle's id is its position in the battle table. Battles hold only the two users and the problem.
- Ties in `created_at` are broken by insertion order. A new ticket's time must not run backwards (the `auto_now_add` clock).
- `clashofcode/battle/models.py` declares neither a `battle` field on `MatchmakingTicket` nor the `Battle` and `Problems` models that `tasks.py` imports. The model gives tickets the `battle` reference that `tasks.py` assigns, and assumes both tables exist as `tasks.py` uses them.
- The one place that creates a ticket, `join_queue` (`clashofcode/battle/views.py:23-26`), passes a `ticket_id` that `MatchmakingTicket` does not declare, so Django rejects that call as written. `TicketStore.OpenTicket` models a ticket created with the model's own defaults (waiting, no battle, the current time), not that call.
- Nothing in the matchmaking code stops one user from holding two waiting tickets. The model therefore does not claim that a battle's two users are distinct.
- No code in the repository cancels or acknowledges a ticket. `leave_queue` (`clashofcode/battle/views.py:30-31`) only returns a response, and nothing sets the `canceled` status that `models.py` declares. The model declares the `Canceled` status too, and has no operation that sets it or acknowledges a ticket.
- User ids in the waiting line are integers, and `0` is the only falsy id. Python's other falsy values (`None`, an empty string) are not modelled. The module-global deque shared between requests is modelled as one `Queue` object.
- The HTTP request to the execution service and the reading of the `.in`/`.out` files in `judge.py` are left out. The reply is a parameter, with JSON keys as `Option` fields.
- The printed wording of each message in `judge.py` is left out. A `Report` records which case was printed and its data.
- A `compile` object without `stderr`, or a `run` object without `stderr` or `stdout`, raises a `KeyError` in `judge.py`. The model's `Stage` always has both fields.
- The judge checks a single test case. A non-empty runtime stderr is echoed and never becomes a verdict of its own. There are no runtime-error, time-limit or memory-limit verdicts; the model follows that code.
- `main.cpp` reads `n`, the numbers and the target from standard input. The model takes them as a sequence and a target.
- TwoSum.FindPair: `int` overflow of `target - nums[i]` and of the indices is not modelled; the integers are unbounded.
- The DOM, `setInterval`/`clearInterval`, the buttons' event wiring and `cancelSearching` (only timers and CSS classes) on the search page are left out. `updateTimer` is a method that the caller invokes once per second.
- `updateQueue` is left out because it shows a random number.
- The search page's estimate text is a constructor parameter until the first tick, because the markup is not part of this model.
- Everything in `script.js` outside `initEditor`, `initTimer` and `pad` is left out: the two split panes (floating-point sizes), the tabs and the copy-to-clipboard buttons. Inside `initEditor`, the gutter's scroll syncing is left out.
- JavaScript numbers are modelled as unbounded naturals. This is exact for any count a page reaches; `String(n)` switches to exponent form only from 1e21, and `seconds++` stops changing only at 2^53.
- Text offsets (`selectionStart`, `substring`, `length`) count characters, not UTF-16 code units. The Tab and line-count properties hold in either unit.
- The countdown's display before its first tick comes from the markup and is a constructor parameter. The interval keeps firing at zero without effect, which `Tick` models.
- ArenaPage.Pad: for values of 10 and more, JavaScript returns the number itself rather than a string. The template literal renders it in decimal, which is what the model returns.
- ArenaPage.ClockRoundTrip: stated below one hundred hours, where the fields sit at fixed positions. The countdown never exceeds fifteen minutes.
- The editor's initial selection is taken to be empty at position 0. The gutter is modelled as the markup string it is set to, not as parsed HTML.
