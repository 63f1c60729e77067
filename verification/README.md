# Scenario evaluation for the browser environment, in Dafny

This project models the scenario evaluation code of a browser-automation
environment. There are six scenarios. Three belong to a 2048 game: reach a
target tile, win from a board one merge away, and reach a target score. Three
belong to a todo list: complete N todos, create a todo with an exact title, and
complete a share of the todos.

Each scenario is a generator that its host resumes twice:

1. The first resumption launches the app through the backend. A launch status
   other than 200 yields `0.0` and ends the run, and no prompt is given.
   Otherwise the run prepares the app and yields the prompt. Preparing means a
   new game, a seeded near-win board, a seeded todo list, or an emptied list.
2. The second resumption fetches the app's state and yields one reward. Absent
   fields default to `0` or `False`. Any exception here gives `0.0`.

The model has three modules:

- `Protocol` (`protocol.dfy`) holds what both scenario files share. It has the
  phases of a run (`Created`, `AwaitingAgent`, `Done`, `Aborted`) and the values
  a run yields (`Prompt`, `Reward`). It has the backend's answers as plain
  values: the launch reply, a request that may raise, and a state fetch that is
  `Failed` or carries a status and a body. It also has the record of a run's
  events (requests sent, values emitted) and the invariant `Consistent`, which
  says what a run may have emitted in each phase. Every scenario opens the
  same way, so the first resumption is defined here once, as `Opening`. It
  takes the launch request, the default port, the setup request for a port,
  and the prompt.
- `Game2048` (`game_2048.dfy`) and `Todo` (`todo.dfy`) each follow one source
  file. Each has the reward rules as pure functions over `real`, the near-win
  board builder (2048 only), and the run as specification functions:
  `OpeningOf` instantiates `Opening` for the file's scenarios, `Closing` is the
  second resumption, and `Trace` a whole run. Each also has a class `Run`, with a `phase` field and the methods
  `Begin` and `Finish`, that is proved against those functions. Lemmas state
  the protocol and reward properties.

I/O is replaced by parameters. `Begin` takes the launch reply and whether the
setup request raised. `Finish` takes what the state request returned. The
natural logarithm is a parameter `log: int -> real`, and the only fact assumed
about it is that it is positive above 1.

Where the code's behaviour is easy to misread, the model follows the code
exactly:

- Only a launch *status* other than 200 gives `0.0`. The code catches no
  exception before the prompt. An exception escapes the run (`Aborted`, step
  `Raise`) in three cases: the launch request raises, the launch body is not
  a JSON object, or the setup request raises.
- Only the reach-tile scenario checks the status of its state request
  (`raise_for_status`). The other five read the body whatever the status.
- Rewards are capped at 1.0 but not clamped below. Only the ratio branches can
  go negative. Reach-score does so for a negative score against a positive
  target. Complete-N does so for a negative completed count against a positive
  expected count. Completion-rate does so for a negative completed count with a
  positive total and a positive target rate. The reach-tile reward is never
  negative.
- Complete-N gives `1.0` whenever `completed >= expected_count`, including
  when `expected_count <= 0`.
- Completion-rate gives `1.0` for `target_rate <= 0`, even when the list is
  empty.
- Python's `//` floors. Every divisor used with it here is positive (2 or 4),
  so Dafny's Euclidean `/` on `int` gives the same result.

## Model

| member | source | states |
|---|---|---|
| `Protocol.StartOf` | scenarios/game_2048.py:40-47 | A launch status other than 200 is a refusal, whatever the body. A 200 reply whose body is not a JSON object raises, and so does a launch request that raised. Otherwise the run goes on, on the reported backend port, or on the default port when none is reported. |
| `Game2048.ReachTileReward` | scenarios/game_2048.py:75-84 | The reward always lies in [0, 1]. It is 0.0 exactly when the score is 0, the target is at most 1, or the highest tile is at most 1. Otherwise it is the log ratio capped at 1.0: below the cap, the reward times log(target) is log(highest tile); at the cap, log(highest tile) is at least log(target). It is 1.0 when the highest tile equals the target (score nonzero, target above 1). |
| `Game2048.ReachTileRewardFullIffReached` | scenarios/game_2048.py:79-84 | If the logarithm is increasing, then with a nonzero score and a target above 1 the reward is 1.0 exactly when the highest tile is at least the target. |
| `Game2048.ReachTileRewardMonotone` | scenarios/game_2048.py:79-84 | If the logarithm is increasing, a higher tile never earns a lower reward. |
| `Game2048.NearWinReward` | scenarios/game_2048.py:144-145 | The reward is binary: 1.0 when the game is flagged won or the highest tile reaches the target, 0.0 otherwise. |
| `Game2048.ReachScoreReward` | scenarios/game_2048.py:178-179 | The reward is 0.0 for a target score of 0 or less. It is never above 1.0, and it is 1.0 once the score reaches a positive target. Below a positive target it is exactly score/target, for every score, a negative one included; for a score of 0 or more it lies in [0, 1). A negative score gives a negative reward. |
| `Game2048.NearWinBoard` | scenarios/game_2048.py:110-122 | In all three branches the board is 4×4 and its first two row-0 cells both equal `target // 2`. |
| `Game2048.BoardSumIsSumOfCells` | scenarios/game_2048.py:126 | Summing row sums, as the code does, gives the sum of all cells taken one by one. |
| `Game2048.RowSum` | scenarios/game_2048.py:126 | `sum(row)`. For a row with no negative tile, the sum is not negative. |
| `Game2048.BoardSum` | scenarios/game_2048.py:126 | `sum(sum(row) for row in board)`. For a board with no negative tile, the sum is not negative. |
| `Game2048.NearWinSeed` | scenarios/game_2048.py:124-127 | The seeding request carries the near-win board, a score of twice the sum of all its cells, and 150 moves. |
| `Game2048.NearWinSeedScore` | scenarios/game_2048.py:110-126 | The seeded score is 7132 for the 2048 board and 3564 for the 1024 board. For any other target it is 4·(target // 2) + 4·(target // 4) + 4·(target // 4 // 2) + 120. |
| `Game2048.NearWinSeedScoreNonNegative` | scenarios/game_2048.py:114-126 | For a target of 0 or more, no seeded tile is negative, so the seeded score is not negative either. |
| `Game2048.NearWinBoardNotYetWon` | scenarios/game_2048.py:114-122 | For a target above 16, every cell of the seeded board is below the target. |
| `Game2048.NearWinBoardSmallTargetAlreadyWon` | scenarios/game_2048.py:114-122 | For a target of 16 or less, the generic board already holds a 16 tile. The near-win reward for that tile is already 1.0. |
| `Game2048.NearWinMergeReachesTarget` | scenarios/game_2048.py:110-145 | Merging the two seeded half tiles wins exactly when the target is even. |
| `Game2048.DefaultSetups` | scenarios/game_2048.py:32 | With the defaults (target 512, board size 4), reach-tile starts a new 4x4 game aiming at 512. Near-win with its default of 2048 (line 94) seeds the 2048 board with a score of 7132. Reach-score with its default of 5000 (line 150) starts a new game with an empty body. |
| `Game2048.SetupRequest` | scenarios/game_2048.py:49-53 | The setup request goes to the resolved port. It is a new game with the scenario's board size and target for reach-tile, the near-win board with 150 moves for near-win, seeded with twice the sum of its cells (lines 124-127), and a new game with an empty body for reach-score (line 165). |
| `Game2048.IsSuccess` | scenarios/game_2048.py:72 | `raise_for_status` lets a status through exactly when its hundreds digit is 2. |
| `Game2048.Evaluate` | scenarios/game_2048.py:69-91 | A failed state fetch gives 0.0, in all three scenarios. So does a non-2xx status for reach-tile (the same holds at lines 141-147 and 175-182). The reward is never above 1.0. `EvaluateReportedFields` and `EvaluateAbsentFieldDefaults` state which field feeds which rule and how an absent field reads. |
| `Game2048.EvaluateInUnitInterval` | scenarios/game_2048.py:75-84 | When the reported score is not negative, every 2048 reward lies in [0, 1]. |
| `Game2048.EvaluateAbsentFieldDefaults` | scenarios/game_2048.py:75-76 | Each absent field of the game state reads as its default, whatever the other fields are: 0 for the highest tile and for the score, False for `won`. The reward equals the one for the same state with those defaults filled in (also at lines 141-143 and 176-178). |
| `Game2048.EvaluateReportedFields` | scenarios/game_2048.py:75-84 | With every field reported, the reward is the scenario's rule applied to exactly those fields. Reach-tile with a 2xx status applies its log rule to the highest tile and the score. Near-win applies its rule to `won` and the highest tile (lines 142-144). Reach-score applies its ratio rule to the score (lines 178-179). |
| `Game2048.EvaluateEmptyState` | scenarios/game_2048.py:75-76 | With every field absent, the defaults 0 and False give 0.0. The one exception is a near-win target of 0 or less, which gives 1.0. |
| `Protocol.Opening` | scenarios/game_2048.py:40-67 | After the first resumption: the run awaits the agent exactly when the launch went through and the setup request did not raise, and then it has yielded the prompt. It is done exactly when the launch was refused. It raised exactly when it is aborted, and it never stops silently: each first resumption either raises or hands a value to the host. What it emitted is that one value, and it is consistent with its phase. The todo scenarios open the same way (scenarios/todo.py:21-44). |
| `Protocol.LaunchedThenClosed` | scenarios/todo.py:27-60 | A launched run whose setup went through and that then sends one request and emits one reward has exactly five events: launch, setup, prompt, request, reward. It emits the prompt and then the reward. |
| `Game2048.RefusedLaunchEmitsZero` | scenarios/game_2048.py:40-44 | A refused launch does exactly two things: it sends the launch request and emits `0.0`, the value the first resumption hands to the host. So it emits no prompt, sends no setup request and fetches no state. |
| `Game2048.Closing` | scenarios/game_2048.py:69-91 | The second resumption sends exactly one request, a state fetch to the resolved port. It emits exactly one value, `Evaluate`'s reward. |
| `Game2048.Trace` | scenarios/game_2048.py:39-91 | A whole run starts with the launch request and has at most five events. The first resumption's events are a prefix of it: the second resumption only appends. |
| `Game2048.LaunchedRunPromptsThenRewards` | scenarios/game_2048.py:46-87 | After a successful launch and setup, the run does exactly five things in this order: launch, setup request, prompt, state fetch, reward. It emits exactly the prompt and then the reward. |
| `Game2048.MissingPortDefaults` | scenarios/game_2048.py:47 | Without a backend port in the launch reply, the setup request and the state fetch go to port 5001. |
| `Game2048.RunFollowsProtocol` | scenarios/game_2048.py:39-91 | Every run emits one of three things, whatever the backend answers: nothing, the lone `0.0`, or one prompt followed by one reward. |
| `Game2048.Run.constructor` | scenarios/game_2048.py:31-32 | A new run is `Created` and has done nothing yet. |
| `Game2048.Run.Begin` | scenarios/game_2048.py:39-67 | The first resumption, step by step. The phase, the events and the result equal `OpeningOf`, and the port is the one the launch resolved. The protocol invariant holds afterwards. |
| `Game2048.Run.Finish` | scenarios/game_2048.py:69-91 | When the run awaits the agent, it fetches the state and emits `Evaluate`'s reward, then the run is done. After the end, a resumption only stops the run, and nothing changes. |
| `Todo.CompleteReward` | scenarios/todo.py:50-57 | The reward is 1.0 whenever `completed >= expected_count`, also when `expected_count <= 0`. Below a positive expected count it is exactly completed/expected, for every count, a negative one included; for a count of 0 or more it lies in [0, 1). When completed is below an expected count of 0 or less, it is 0.0. It is never above 1.0. |
| `Todo.CompleteRewardMonotone` | scenarios/todo.py:52-57 | For a fixed expected count, more completed todos never lower the reward. |
| `Todo.CompleteRewardExamples` | scenarios/todo.py:52-57 | Sample values: (5, 5) gives 1.0, (0, 5) gives 0.0, (3, 5) gives 0.6 and (0, 0) gives 1.0. |
| `Todo.CompletionRateReward` | scenarios/todo.py:136-140 | The reward is never above 1.0. It is 1.0 for a target rate of 0 or less, 0.0 for an empty total with a positive target, and not negative for a count of 0 or more. With a positive total and target it is 1.0 exactly when completed/total reaches the target. Below the target it is exactly (completed/total)/target. |
| `Todo.CompletionRateRewardExamples` | scenarios/todo.py:139-140 | Sample values: (5, 10, 0.5) gives 1.0, an empty list against 0.5 gives 0.0, and an empty list against 0.0 gives 1.0. |
| `Todo.AnyTitle` | scenarios/todo.py:101 | The scan finds the title exactly when some entry has exactly that title and no non-object comes before it. It finds nothing exactly when every entry is an object and none has the title. Otherwise it raises. |
| `Todo.CreateReward` | scenarios/todo.py:101-102 | The reward is 1.0 exactly when an entry with exactly the requested title comes before any non-object entry. Otherwise it is 0.0. |
| `Todo.CreateRewardOnObjects` | scenarios/todo.py:101-102 | On a list of objects, the reward is 1.0 exactly when some todo's title equals the requested title. A todo with a missing title never matches. |
| `Todo.CreateRewardOrderFree` | scenarios/todo.py:101 | On a list of objects, any permutation of the list gives the same reward. |
| `Todo.AnyTitleSkipsOtherTitles` | scenarios/todo.py:101 | Inserting an object whose title is not the requested one (a missing title included) anywhere in the list does not change the scan. |
| `Todo.CreateRewardIgnoresOtherTitles` | scenarios/todo.py:101 | Adding or removing a todo whose title differs from the requested one does not change the reward. |
| `Todo.CreateRewardOrderMattersWithNonObjects` | scenarios/todo.py:101-104 | A non-object entry hides a match that comes after it, but not one that comes before it, because `any` stops at the first match. |
| `Todo.SetupRequest` | scenarios/todo.py:31 | The setup request goes to the resolved port. It is a reset exactly for create (line 82), and a seed for complete-N and completion-rate (line 122). |
| `Todo.EvaluationRequest` | scenarios/todo.py:48 | The read-back goes to the resolved port. It fetches the todos exactly for create (line 99), and the statistics for complete-N and completion-rate (line 134). |
| `Todo.Evaluate` | scenarios/todo.py:46-63 | A failed fetch of the answer the scenario reads gives 0.0: the todo list for create, the statistics otherwise (lines 98-104 and 133-143 too). The reward is never above 1.0. `EvaluateReportedFields` and `EvaluateAbsentCountDefaults` state which count feeds which rule and how an absent count reads. |
| `Todo.EvaluateInUnitInterval` | scenarios/todo.py:136-140 | When the reported completed count is not negative, every todo reward lies in [0, 1]. |
| `Todo.EvaluateAbsentCountDefaults` | scenarios/todo.py:50 | Each absent count reads as 0, whatever the other count is. The reward equals the one for the same statistics with 0 filled in (also at lines 136-137). |
| `Todo.EvaluateReportedFields` | scenarios/todo.py:50-57 | With both counts reported, the reward is the scenario's rule applied to exactly what it reads. Complete-N applies its rule to the completed count and the expected count. Completion-rate applies its rule to the completed count, the total and the target rate (lines 136-140). Create, once the list is fetched, checks that list for the title (lines 98-101). |
| `Todo.DefaultScenarioRewards` | scenarios/todo.py:14 | With the default expected count of 3, three completed items give 1.0 and two give 2/3. With the default rate of 0.5 (line 107), two of ten items give 0.4 and five of ten give 1.0. |
| `Todo.EvaluateEmptyStats` | scenarios/todo.py:136-137 | Absent counts default to 0. Complete-N then gives 1.0 only for an expected count of 0 or less, and completion-rate gives 1.0 only for a target of 0 or less. Otherwise both give 0.0. |
| `Todo.RefusedLaunchEmitsZero` | scenarios/todo.py:21-25 | A refused launch does exactly two things: it sends the launch request and emits `0.0`, the value the first resumption hands to the host. So it emits no prompt, sends no seed or reset and reads nothing back. |
| `Todo.Closing` | scenarios/todo.py:46-63 | The second resumption sends exactly one request, the scenario's read-back to the resolved port. It emits exactly one value, `Evaluate`'s reward. |
| `Todo.Trace` | scenarios/todo.py:20-63 | A whole run starts with the launch request and has at most five events. The first resumption's events are a prefix of it: the second resumption only appends. |
| `Todo.LaunchedRunPromptsThenRewards` | scenarios/todo.py:27-60 | After a successful launch and a seed or reset that did not raise, the run does exactly five things in this order: launch, seed or reset, prompt, the stats or todos request, reward. The seed or reset comes before the prompt. The run emits exactly the prompt and then the reward. |
| `Todo.MissingPortDefaults` | scenarios/todo.py:28 | Without a backend port in the launch reply, the seed or reset and the read-back go to port 5000. |
| `Todo.RunFollowsProtocol` | scenarios/todo.py:20-63 | Every run emits one of three things, whatever the backend answers: nothing, the lone `0.0`, or one prompt followed by one reward. |
| `Todo.Run.constructor` | scenarios/todo.py:13-14 | A new run is `Created` and has done nothing yet. |
| `Todo.Run.Begin` | scenarios/todo.py:20-44 | The first resumption, step by step. The phase, the events and the result equal `OpeningOf`, and the port is the one the launch resolved. The protocol invariant holds afterwards. |
| `Todo.Run.Finish` | scenarios/todo.py:46-63 | When the run awaits the agent, it sends the scenario's read-back request and emits `Evaluate`'s reward, then the run is done. After the end, a resumption only stops the run, and nothing changes. |

## Left out

- Connection discovery (`_discover_cdp_url` in tools/browser.py) is left out. It polls an HTTP endpoint against the wall clock. The shared HTTP client and the Playwright and computer tools are left out too, because they wrap external libraries.
- The `launch_app` and `api_request` tools (tools/apps.py) are left out. Their only logic is choosing an error message.
- Registration of the scenarios on the host environment (env.py, `__init__.py`) is left out, and so is the local test driver (local_test.py). The host's handling of duplicate names is not in this code.
- The values of `math.log` are not modelled. It is the parameter `log`, assumed positive above 1. Monotonicity is a stated hypothesis of two lemmas only.
- Floating point is not modelled. Rewards and the target rate are exact reals, with no rounding, NaN or infinity.
- `Game2048.ReachScoreReward`: does not model the `OverflowError` of Python's int/int division `score / target_score` (scenarios/game_2048.py:179) when the quotient is beyond float range, for example a score of 10**400. The code then yields 0.0 from its `except`, where the model gives 1.0. Exact reals have no range limit.
- `Todo.CompletionRateReward`: does not model the `OverflowError` of `completed / total` (scenarios/todo.py:139) for a quotient beyond float range. The code then yields 0.0, where the model gives 1.0 or the exact ratio.
- `Todo.CompleteReward`: does not model the `OverflowError` of `completed / expected_count` (scenarios/todo.py:55) for a hugely negative completed count. The code then yields 0.0, where the model gives the exact negative ratio.
- The prompt text is kept abstract as the parameters it is written from. This includes `int(target_rate * 100)`: a target rate for which that conversion raises is not modelled.
- Logging calls are not modelled.
- Async scheduling is modelled as the phases of `Run`. Cancellation and exceptions outside `Exception` are left out.
- `Finish` requires that `Begin` ran first. In Python the first resumption of a generator always does the setup.
- `raise_for_status` is taken to reject exactly the statuses outside 200–299. The HTTP client library is not part of this model.
- Backend bodies are typed. Tile values, scores and counts are integers, and `won` is a boolean. A present field of another JSON type is folded into a failed fetch. Python sometimes tolerates such a field: a boolean count acts as 0 or 1, `won` is read by truthiness, and a malformed highest tile is never compared when `won` is truthy. Todo titles of another type are a `None` title, and non-object list entries are `NotObject`, as the code treats them.
- The reply to a setup request is ignored, as in the code. Only whether the request raised is modelled.
- `Game2048.ReachTileRewardFullIffReached`: proved only for an increasing `log`, because the model assumes nothing more about the logarithm.
