/**
 * The three 2048 scenarios: reach a target tile, win from a board one merge
 * away from the target, and reach a target score.
 *
 * Each run launches the "2048" app, prepares a game (a new game, or a seeded
 * near-win board), emits a prompt, and after the agent has played reads the
 * game state back and emits a reward. The natural logarithm that the
 * reach-tile reward uses is a parameter, `log`, of which only one fact is
 * assumed: it is positive above 1 (exactly what the reward's guards rely on).
 */
module Game2048 {
  import opened Protocol

  const AppName: string := "2048"
  /** The backend port used when the launch reply does not name one. */
  const DefaultPort: int := 5001
  /** The move count the near-win seed reports. */
  const SeededMoves: int := 150

  datatype Scenario =
    | ReachTile(target: int, boardSize: int)
    | NearWin(target: int)
    | ReachScore(targetScore: int)

  /** The scenarios with their parameters' default values. */
  const DefaultReachTile: Scenario := ReachTile(512, 4)
  const DefaultNearWin: Scenario := NearWin(2048)
  const DefaultReachScore: Scenario := ReachScore(5000)

  datatype GameSettings = GameSettings(boardSize: int, targetTile: int)

  /** The requests a 2048 run sends. `NewGame` with no settings posts an empty body. */
  datatype Request =
    | LaunchApp(app: string)
    | NewGame(port: int, settings: Option<GameSettings>)
    | SetBoard(port: int, board: seq<seq<int>>, score: int, moves: int)
    | GetState(port: int)

  /** The prompt, kept abstract: the parameters it is written from. */
  datatype PromptText =
    | ReachTileText(target: int)
    | NearWinText(target: int, mergeTile: int)
    | ReachScoreText(targetScore: int)

  /** The game state as the backend reports it; an absent field is None. */
  datatype GameState = GameState(highestTile: Option<int>, score: Option<int>, won: Option<bool>)

  type Events = seq<Event<Request, PromptText>>

  // ---------------------------------------------------------------------------
  // Rewards
  // ---------------------------------------------------------------------------

  /** What is assumed of the natural logarithm: it is positive above 1. */
  ghost predicate LogPositive(log: int -> real) {
    forall x :: 1 < x ==> 0.0 < log(x)
  }

  /** A further fact of the natural logarithm, assumed only where a lemma says so. */
  ghost predicate LogIncreasing(log: int -> real) {
    forall x, y :: 1 < x < y ==> log(x) < log(y)
  }

  /**
   * Reach-tile reward: 0.0 for a zero score or when either tile value is at
   * most 1, otherwise log(highest)/log(target) capped at 1.0.
   */
  function ReachTileReward(log: int -> real, target: int, highestTile: int, score: int): (r: real)
    requires LogPositive(log)
    ensures 0.0 <= r <= 1.0
    ensures r == 0.0 <==> score == 0 || target <= 1 || highestTile <= 1
    ensures score != 0 && 1 < target && highestTile == target ==> r == 1.0
    ensures score != 0 && 1 < target && 1 < highestTile ==>
      && (r < 1.0 ==> r * log(target) == log(highestTile))
      && (r == 1.0 ==> log(highestTile) >= log(target))
  {
    if score == 0 then 0.0
    else if target > 1 && highestTile > 1 then
      RatioAtLeastOne(log(highestTile), log(target));
      Min(1.0, log(highestTile) / log(target))
    else 0.0
  }

  /** For a growing logarithm, the reach-tile reward is full exactly when the target tile is reached. */
  lemma ReachTileRewardFullIffReached(log: int -> real, target: int, highestTile: int, score: int)
    requires LogPositive(log) && LogIncreasing(log)
    requires score != 0 && 1 < target
    ensures ReachTileReward(log, target, highestTile, score) == 1.0 <==> highestTile >= target
  {
    if 1 < highestTile {
      RatioAtLeastOne(log(highestTile), log(target));
      if highestTile < target {
        assert log(highestTile) < log(target);
      }
    }
  }

  /** For a growing logarithm, a higher tile never earns a lower reach-tile reward. */
  lemma ReachTileRewardMonotone(log: int -> real, target: int, low: int, high: int, score: int)
    requires LogPositive(log) && LogIncreasing(log)
    requires low <= high
    ensures ReachTileReward(log, target, low, score) <= ReachTileReward(log, target, high, score)
  {
    if score != 0 && 1 < target && 1 < low {
      RatioMonotone(log(low), log(high), log(target));
    }
  }

  /** Near-win reward: 1.0 when the game is flagged won or the target tile is reached, else 0.0. */
  function NearWinReward(target: int, won: bool, highestTile: int): (r: real)
    ensures r == 1.0 <==> won || highestTile >= target
    ensures r == 0.0 <==> !won && highestTile < target
  {
    if won || highestTile >= target then 1.0 else 0.0
  }

  /**
   * Reach-score reward: 0.0 for a target score that is not positive, otherwise
   * score/target capped at 1.0 (and not clamped from below).
   */
  function ReachScoreReward(targetScore: int, score: int): (r: real)
    ensures targetScore <= 0 ==> r == 0.0
    ensures r <= 1.0
    ensures 0 < targetScore <= score ==> r == 1.0
    ensures score < targetScore && 0 < targetScore ==> r * targetScore as real == score as real
    ensures 0 <= score < targetScore ==> 0.0 <= r < 1.0
    ensures score < 0 < targetScore ==> r < 0.0
  {
    if targetScore > 0 then
      RatioAtLeastOne(score as real, targetScore as real);
      Min(1.0, score as real / targetScore as real)
    else 0.0
  }

  // ---------------------------------------------------------------------------
  // The near-win board
  // ---------------------------------------------------------------------------

  /**
   * The board one merge away from `target`: fixed boards for 2048 and 1024,
   * otherwise one built from target // 2 and target // 4. (Python's `//` floors;
   * for the positive divisors used here Dafny's `/` on int is the same.)
   */
  function NearWinBoard(target: int): (board: seq<seq<int>>)
    ensures |board| == 4
    ensures forall i :: 0 <= i < 4 ==> |board[i]| == 4
    ensures board[0][0] == board[0][1] == target / 2
  {
    if target == 2048 then
      [[1024, 1024, 256, 128], [512, 256, 64, 32], [128, 64, 16, 8], [32, 16, 4, 2]]
    else if target == 1024 then
      [[512, 512, 128, 64], [256, 128, 32, 16], [64, 32, 8, 4], [16, 8, 2, 0]]
    else
      var half := target / 2;
      var quarter := target / 4;
      [[half, half, quarter, quarter / 2], [quarter, quarter / 2, 16, 8], [16, 8, 4, 2], [4, 2, 0, 0]]
  }

  /** `sum(row)`: never negative for a row of tiles. */
  function RowSum(row: seq<int>): (total: int)
    ensures NoNegativeTile(row) ==> 0 <= total
  {
    if row == [] then 0 else row[0] + RowSum(row[1..])
  }

  /** `sum(sum(row) for row in board)`: never negative for a board of tiles. */
  function BoardSum(board: seq<seq<int>>): (total: int)
    ensures NoNegativeBoard(board) ==> 0 <= total
  {
    if board == [] then 0 else RowSum(board[0]) + BoardSum(board[1..])
  }

  /** No cell of `row` is negative. */
  predicate NoNegativeTile(row: seq<int>) {
    forall i :: 0 <= i < |row| ==> 0 <= row[i]
  }

  /** No cell of `board` is negative. */
  predicate NoNegativeBoard(board: seq<seq<int>>) {
    forall i :: 0 <= i < |board| ==> NoNegativeTile(board[i])
  }

  /** All cells of a board, row by row. */
  function Cells(board: seq<seq<int>>): seq<int> {
    if board == [] then [] else board[0] + Cells(board[1..])
  }

  lemma {:induction false} RowSumAppend(a: seq<int>, b: seq<int>)
    ensures RowSum(a + b) == RowSum(a) + RowSum(b)
  {
    if a == [] {
      assert a + b == b;
    } else {
      assert (a + b)[1..] == a[1..] + b;
      RowSumAppend(a[1..], b);
    }
  }

  /** Summing row by row is summing every cell once. */
  lemma {:induction false} BoardSumIsSumOfCells(board: seq<seq<int>>)
    ensures BoardSum(board) == RowSum(Cells(board))
  {
    if board != [] {
      BoardSumIsSumOfCells(board[1..]);
      RowSumAppend(board[0], Cells(board[1..]));
    }
  }

  /**
   * The near-win seeding request: the board, a score of twice the sum of all
   * its cells, and 150 moves.
   */
  function NearWinSeed(port: int, target: int): (req: Request)
    ensures req.SetBoard? && req.port == port && req.board == NearWinBoard(target)
    ensures req.score == 2 * RowSum(Cells(req.board)) && req.moves == 150
  {
    var board := NearWinBoard(target);
    BoardSumIsSumOfCells(board);
    SetBoard(port, board, BoardSum(board) * 2, SeededMoves)
  }

  /** The sum of a four-cell row. */
  lemma RowSumOfFour(a: int, b: int, c: int, d: int)
    ensures RowSum([a, b, c, d]) == a + b + c + d
  {
    assert [a, b, c, d][1..] == [b, c, d] && [b, c, d][1..] == [c, d];
    assert [c, d][1..] == [d] && [d][1..] == [];
    assert RowSum([d]) == d;
    assert RowSum([c, d]) == c + RowSum([d]);
    assert RowSum([b, c, d]) == b + RowSum([c, d]);
  }

  /** The sum of a four-row board is the sum of its four row sums. */
  lemma BoardSumOfFour(b: seq<seq<int>>)
    requires |b| == 4
    ensures BoardSum(b) == RowSum(b[0]) + RowSum(b[1]) + RowSum(b[2]) + RowSum(b[3])
  {
    var rest1, rest2, rest3 := b[1..], b[2..], b[3..];
    assert rest1[1..] == rest2 && rest2[1..] == rest3 && rest3[1..] == [];
    assert BoardSum(rest3) == RowSum(b[3]);
    assert BoardSum(rest2) == RowSum(b[2]) + BoardSum(rest3);
    assert BoardSum(rest1) == RowSum(b[1]) + BoardSum(rest2);
  }

  /** The sum of a four-by-four board is the sum of its sixteen cells. */
  lemma BoardSumOfFourByFour(b: seq<seq<int>>)
    requires |b| == 4 && forall i :: 0 <= i < 4 ==> |b[i]| == 4
    ensures BoardSum(b) == b[0][0] + b[0][1] + b[0][2] + b[0][3] + b[1][0] + b[1][1] + b[1][2] + b[1][3]
                         + b[2][0] + b[2][1] + b[2][2] + b[2][3] + b[3][0] + b[3][1] + b[3][2] + b[3][3]
  {
    BoardSumOfFour(b);
    assert b[0] == [b[0][0], b[0][1], b[0][2], b[0][3]];
    assert b[1] == [b[1][0], b[1][1], b[1][2], b[1][3]];
    assert b[2] == [b[2][0], b[2][1], b[2][2], b[2][3]];
    assert b[3] == [b[3][0], b[3][1], b[3][2], b[3][3]];
    RowSumOfFour(b[0][0], b[0][1], b[0][2], b[0][3]);
    RowSumOfFour(b[1][0], b[1][1], b[1][2], b[1][3]);
    RowSumOfFour(b[2][0], b[2][1], b[2][2], b[2][3]);
    RowSumOfFour(b[3][0], b[3][1], b[3][2], b[3][3]);
  }

  /**
   * The seeded score of every near-win board: 7132 for the 2048 board, 3564 for
   * the 1024 board, and otherwise twice the sum of the half, quarter and
   * eighth tiles with the fixed small tiles.
   */
  lemma NearWinSeedScore(port: int, target: int)
    ensures target == 2048 ==> NearWinSeed(port, target).score == 7132
    ensures target == 1024 ==> NearWinSeed(port, target).score == 3564
    ensures target != 2048 && target != 1024 ==>
      NearWinSeed(port, target).score == 4 * (target / 2) + 4 * (target / 4) + 4 * (target / 4 / 2) + 120
  {
    BoardSumOfFourByFour(NearWinBoard(target));
  }

  /** For a target of 0 or more every seeded tile is at least 0, so the seeded score is too. */
  lemma NearWinSeedScoreNonNegative(port: int, target: int)
    requires 0 <= target
    ensures 0 <= NearWinSeed(port, target).score
  {
    var board := NearWinBoard(target);
    assert NoNegativeTile(board[0]) && NoNegativeTile(board[1]);
    assert NoNegativeTile(board[2]) && NoNegativeTile(board[3]);
    assert NoNegativeBoard(board);
  }

  /** Above 16, no cell of the seeded board has reached the target yet. */
  lemma NearWinBoardNotYetWon(target: int)
    requires target > 16
    ensures forall i, j :: 0 <= i < 4 && 0 <= j < 4 ==> NearWinBoard(target)[i][j] < target
  {
  }

  /**
   * At 16 and below the generic board already holds a 16 tile, so the
   * near-win reward is full before the agent moves.
   */
  lemma NearWinBoardSmallTargetAlreadyWon(target: int)
    requires target <= 16
    ensures NearWinBoard(target)[2][0] == 16
    ensures NearWinReward(target, false, NearWinBoard(target)[2][0]) == 1.0
  {
  }

  /** Merging the two seeded half tiles reaches the target exactly when the target is even. */
  lemma NearWinMergeReachesTarget(target: int)
    ensures var board := NearWinBoard(target);
      NearWinReward(target, false, board[0][0] + board[0][1]) == 1.0 <==> target % 2 == 0
  {
  }

  // ---------------------------------------------------------------------------
  // One run
  // ---------------------------------------------------------------------------

  /**
   * The request that prepares the game once the app runs on `port`: a new game
   * with the scenario's settings for reach-tile, the near-win board for
   * near-win, and a new game with an empty body for reach-score.
   */
  function SetupRequest(s: Scenario, port: int): (r: Request)
    ensures !r.LaunchApp? && !r.GetState? && r.port == port
    ensures r.NewGame? && r.settings.Some? <==> s.ReachTile?
    ensures r.NewGame? && r.settings.None? <==> s.ReachScore?
    ensures r.SetBoard? <==> s.NearWin?
    ensures s.ReachTile? ==> r.settings.value == GameSettings(s.boardSize, s.target)
    ensures s.NearWin? ==>
      && r.board == NearWinBoard(s.target) && r.moves == SeededMoves
      && r.score == 2 * RowSum(Cells(r.board))
  {
    match s
    case ReachTile(target, boardSize) => NewGame(port, Some(GameSettings(boardSize, target)))
    case NearWin(target) => NearWinSeed(port, target)
    case ReachScore(_) => NewGame(port, None)
  }

  /**
   * What the default scenarios send once the app runs: a 4x4 game aiming at
   * 512, the 2048 near-win board seeded with a score of 7132, and a plain new
   * game for a 5000-point target.
   */
  lemma DefaultSetups(port: int)
    ensures SetupRequest(DefaultReachTile, port) == NewGame(port, Some(GameSettings(4, 512)))
    ensures SetupRequest(DefaultNearWin, port) == NearWinSeed(port, 2048)
    ensures SetupRequest(DefaultNearWin, port).score == 7132
    ensures SetupRequest(DefaultReachScore, port) == NewGame(port, None)
  {
    NearWinSeedScore(port, DefaultNearWin.target);
  }

  /** The setup request as a function of the port the launch resolves. */
  function SetupFor(s: Scenario): int -> Request {
    port => SetupRequest(s, port)
  }

  function PromptOf(s: Scenario): PromptText {
    match s
    case ReachTile(target, _) => ReachTileText(target)
    case NearWin(target) => NearWinText(target, target / 2)
    case ReachScore(targetScore) => ReachScoreText(targetScore)
  }

  /** `raise_for_status` lets exactly the 2xx statuses through: those whose hundreds digit is 2. */
  predicate IsSuccess(status: int): (ok: bool)
    ensures ok <==> status / 100 == 2
  {
    200 <= status < 300
  }

  /**
   * The reward computed from the fetched game state. A failed fetch gives 0.0,
   * and so does a non-2xx status for reach-tile, the one scenario that checks
   * the status; absent fields default to 0 and false.
   */
  function Evaluate(s: Scenario, log: int -> real, state: Fetched<GameState>): (r: real)
    requires LogPositive(log)
    ensures state.Failed? ==> r == 0.0
    ensures s.ReachTile? && state.Fetched? && !IsSuccess(state.status) ==> r == 0.0
    ensures r <= 1.0
  {
    match state
    case Failed => 0.0
    case Fetched(status, game) =>
      match s
      case ReachTile(target, _) =>
        if !IsSuccess(status) then 0.0
        else ReachTileReward(log, target, game.highestTile.GetOr(0), game.score.GetOr(0))
      case NearWin(target) => NearWinReward(target, game.won.GetOr(false), game.highestTile.GetOr(0))
      case ReachScore(targetScore) => ReachScoreReward(targetScore, game.score.GetOr(0))
  }

  /** With no negative number in the reported state, every 2048 reward lies in [0, 1]. */
  lemma EvaluateInUnitInterval(s: Scenario, log: int -> real, state: Fetched<GameState>)
    requires LogPositive(log)
    requires state.Fetched? ==> state.body.score.GetOr(0) >= 0
    ensures 0.0 <= Evaluate(s, log, state) <= 1.0
  {
  }

  /** A reported state with every field absent: only a near-win target of 0 or less is met. */
  lemma EvaluateEmptyState(s: Scenario, log: int -> real, status: int)
    requires LogPositive(log)
    ensures Evaluate(s, log, Fetched(status, GameState(None, None, None)))
            == if s.NearWin? && s.target <= 0 then 1.0 else 0.0
  {
  }

  /** A single absent field reads as its default: 0 for the highest tile and the score, false for `won`. */
  lemma EvaluateAbsentFieldDefaults(s: Scenario, log: int -> real, status: int,
                                    highestTile: Option<int>, score: Option<int>, won: Option<bool>)
    requires LogPositive(log)
    ensures Evaluate(s, log, Fetched(status, GameState(highestTile, score, won)))
            == Evaluate(s, log, Fetched(status, GameState(Some(highestTile.GetOr(0)), Some(score.GetOr(0)), Some(won.GetOr(false)))))
  {
  }

  /**
   * With every field reported (and, for reach-tile, a 2xx status), each scenario
   * applies its rule to exactly those fields: reach-tile to the highest tile and
   * the score, near-win to `won` and the highest tile, reach-score to the score.
   */
  lemma EvaluateReportedFields(s: Scenario, log: int -> real, status: int, highestTile: int, score: int, won: bool)
    requires LogPositive(log)
    ensures var r := Evaluate(s, log, Fetched(status, GameState(Some(highestTile), Some(score), Some(won))));
      && (s.ReachTile? && IsSuccess(status) ==> r == ReachTileReward(log, s.target, highestTile, score))
      && (s.NearWin? ==> r == NearWinReward(s.target, won, highestTile))
      && (s.ReachScore? ==> r == ReachScoreReward(s.targetScore, score))
  {
  }

  /** The first resumption of a 2048 run: launch the app, load the scenario's board or game, emit the prompt. */
  function OpeningOf(s: Scenario, launch: Launch, setup: Post): Opened<Request, PromptText> {
    Opening(LaunchApp(AppName), DefaultPort, SetupFor(s), PromptOf(s), launch, setup)
  }

  /** The second resumption: fetch the game state and emit the reward. */
  function Closing(s: Scenario, log: int -> real, port: int, state: Fetched<GameState>): (c: Events)
    requires LogPositive(log)
    ensures |c| == 2 && c[0] == Sent(GetState(port))
    ensures Emits(c) == [Reward(Evaluate(s, log, state))]
  {
    EmitsSentThenEmitted<Request, PromptText>(GetState(port), Reward(Evaluate(s, log, state)));
    [Sent(GetState(port)), Emitted(Reward(Evaluate(s, log, state)))]
  }

  /** Everything a run does when the host resumes it until it ends. */
  function Trace(s: Scenario, log: int -> real, launch: Launch, setup: Post, state: Fetched<GameState>): (t: Events)
    requires LogPositive(log)
    ensures 1 <= |t| <= 5 && t[0] == Sent(LaunchApp(AppName))
    ensures OpeningOf(s, launch, setup).events <= t
  {
    var o := OpeningOf(s, launch, setup);
    if o.phase == AwaitingAgent then o.events + Closing(s, log, StartOf(launch, DefaultPort).port, state)
    else o.events
  }

  /**
   * A refused launch emits exactly one value, 0.0, and never a prompt, and then
   * stops: no setup request and no state fetch.
   */
  lemma RefusedLaunchEmitsZero(s: Scenario, log: int -> real, launch: Launch, setup: Post, state: Fetched<GameState>)
    requires LogPositive(log)
    requires launch.LaunchReply? && launch.status != 200
    ensures Trace(s, log, launch, setup, state) == [Sent(LaunchApp(AppName)), Emitted(Reward(0.0))]
    ensures Emits(Trace(s, log, launch, setup, state)) == [Reward(0.0)]
    ensures OpeningOf(s, launch, setup).step == Yield(Reward(0.0))
  {
  }

  /**
   * A launched run whose setup went through: launch, setup, prompt, state
   * fetch, reward, in that order and nothing else.
   */
  lemma {:induction false} LaunchedRunPromptsThenRewards(s: Scenario, log: int -> real, launch: Launch, state: Fetched<GameState>)
    requires LogPositive(log)
    requires StartOf(launch, DefaultPort).Launched?
    ensures var port := StartOf(launch, DefaultPort).port;
      Trace(s, log, launch, Delivered, state)
      == [Sent(LaunchApp(AppName)), Sent(SetupRequest(s, port)), Emitted(Prompt(PromptOf(s))),
          Sent(GetState(port)), Emitted(Reward(Evaluate(s, log, state)))]
    ensures Emits(Trace(s, log, launch, Delivered, state)) == [Prompt(PromptOf(s)), Reward(Evaluate(s, log, state))]
  {
    var port := StartOf(launch, DefaultPort).port;
    LaunchedThenClosed(LaunchApp(AppName), DefaultPort, SetupFor(s), PromptOf(s), launch, GetState(port), Evaluate(s, log, state));
  }

  /** Without a backend port in the launch reply, the run talks to port 5001. */
  lemma MissingPortDefaults(s: Scenario, log: int -> real, state: Fetched<GameState>)
    requires LogPositive(log)
    ensures var t := Trace(s, log, LaunchReply(200, Some(AppInfo(None))), Delivered, state);
      |t| == 5 && t[1] == Sent(SetupRequest(s, 5001)) && t[3] == Sent(GetState(5001))
  {
    LaunchedRunPromptsThenRewards(s, log, LaunchReply(200, Some(AppInfo(None))), state);
  }

  /** Every run, whatever the backend answers, keeps the protocol: nothing, the lone 0.0, or one prompt then one reward. */
  lemma {:induction false} RunFollowsProtocol(s: Scenario, log: int -> real, launch: Launch, setup: Post, state: Fetched<GameState>)
    requires LogPositive(log)
    ensures Finished(Emits(Trace(s, log, launch, setup, state)))
  {
    var o := OpeningOf(s, launch, setup);
    if o.phase == AwaitingAgent {
      LaunchedRunPromptsThenRewards(s, log, launch, state);
    }
  }

  /**
   * One run of a 2048 scenario, resumed by its host: `Begin` is the first
   * resumption (up to the prompt), `Finish` the second (the reward).
   */
  class Run {
    const scenario: Scenario
    const log: int -> real
    var phase: Phase
    /** The backend port, once the launch has named it. */
    var port: int
    /** The requests sent and the values emitted so far. */
    var events: Events

    ghost predicate Valid()
      reads this
    {
      && LogPositive(log)
      && Consistent(phase, Emits(events))
      && (phase == Created ==> events == [])
    }

    constructor (scenario: Scenario, log: int -> real)
      requires LogPositive(log)
      ensures Valid()
      ensures this.scenario == scenario && this.log == log
      ensures phase == Created && events == [] && port == DefaultPort
    {
      this.scenario := scenario;
      this.log := log;
      phase := Created;
      port := DefaultPort;
      events := [];
    }

    method Begin(launch: Launch, setup: Post) returns (step: Step<PromptText>)
      requires Valid() && phase == Created
      modifies this
      ensures Valid()
      ensures var o := OpeningOf(scenario, launch, setup);
        phase == o.phase && events == o.events && step == o.step
      ensures var start := StartOf(launch, DefaultPort);
        port == if start.Launched? then start.port else old(port)
    {
      events := [Sent(LaunchApp(AppName))];
      match StartOf(launch, DefaultPort) {
        case Escaped =>
          phase, step := Aborted, Raise;
        case Refused =>
          events := events + [Emitted(Reward(0.0))];
          phase, step := Done, Yield(Reward(0.0));
        case Launched(backendPort) =>
          port := backendPort;
          events := events + [Sent(SetupRequest(scenario, port))];
          if setup.PostRaised? {
            phase, step := Aborted, Raise;
          } else {
            var prompt := Prompt(PromptOf(scenario));
            events := events + [Emitted(prompt)];
            phase, step := AwaitingAgent, Yield(prompt);
          }
      }
      ghost var o := OpeningOf(scenario, launch, setup);
      assert phase == o.phase && events == o.events;
    }

    method Finish(state: Fetched<GameState>) returns (step: Step<PromptText>)
      requires Valid() && phase != Created
      modifies this
      ensures Valid() && port == old(port)
      ensures old(phase) == AwaitingAgent ==>
        && phase == Done
        && events == old(events) + Closing(scenario, log, port, state)
        && step == Yield(Reward(Evaluate(scenario, log, state)))
      ensures old(phase) != AwaitingAgent ==>
        phase == old(phase) && events == old(events) && step == Stop
    {
      if phase != AwaitingAgent {
        return Stop;
      }
      events := events + [Sent(GetState(port))];
      var reward := Reward(Evaluate(scenario, log, state));
      events := events + [Emitted(reward)];
      phase, step := Done, Yield(reward);
    }
  }
}
