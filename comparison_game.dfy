/**
 * The MLB player comparison quiz (games/mlb-player-comparison.js): its
 * quote-toggling line splitter, the batched collection of players with
 * season statistics, and the question and score bookkeeping of
 * `MLBComparisonGame`.
 */
module ComparisonGame {
  import opened Wrappers
  import CsvLines

  // ---------------------------------------------------------------------
  // parseCSVLine
  // ---------------------------------------------------------------------

  /**
   * The fields the splitter produces from the unread rest `s` of a line, in
   * quote mode `inQuotes`, with `current` collected for the field under way.
   * Every quote toggles quote mode and is dropped; a comma outside quotes
   * ends a field.
   */
  function Toggle(s: string, inQuotes: bool, current: string): (fields: seq<string>)
    decreases |s|
  {
    if s == [] then [current]
    else if s[0] == '"' then Toggle(s[1..], !inQuotes, current)
    else if s[0] == ',' && !inQuotes then [current] + Toggle(s[1..], inQuotes, "")
    else Toggle(s[1..], inQuotes, current + [s[0]])
  }

  function ToggleFields(line: string): seq<string> {
    Toggle(line, false, "")
  }

  /** `parseCSVLine(line)`. */
  method ParseCsvLine(line: string) returns (result: seq<string>)
    ensures result == ToggleFields(line)
  {
    result := [];
    var current := "";
    var inQuotes := false;
    for i := 0 to |line|
      invariant result + Toggle(line[i..], inQuotes, current) == ToggleFields(line)
    {
      var ch := line[i];
      assert line[i..][0] == ch && line[i..][1..] == line[i + 1..];
      if ch == '"' {
        inQuotes := !inQuotes;
      } else if ch == ',' && !inQuotes {
        result := result + [current];
        current := "";
      } else {
        current := current + [ch];
      }
    }
    assert line[|line|..] == [];
    result := result + [current];
  }

  /** The number of commas in `s` that the splitter meets outside quotes. */
  function CommasOutsideQuotes(s: string, inQuotes: bool): nat
    decreases |s|
  {
    if s == [] then 0
    else if s[0] == '"' then CommasOutsideQuotes(s[1..], !inQuotes)
    else if s[0] == ',' && !inQuotes then 1 + CommasOutsideQuotes(s[1..], inQuotes)
    else CommasOutsideQuotes(s[1..], inQuotes)
  }

  lemma {:induction false} ToggleCount(s: string, inQuotes: bool, current: string)
    ensures |Toggle(s, inQuotes, current)| == CommasOutsideQuotes(s, inQuotes) + 1
    decreases |s|
  {
    if s == [] {
    } else if s[0] == '"' {
      ToggleCount(s[1..], !inQuotes, current);
    } else if s[0] == ',' && !inQuotes {
      ToggleCount(s[1..], inQuotes, "");
    } else {
      ToggleCount(s[1..], inQuotes, current + [s[0]]);
    }
  }

  /** A line has one field more than commas outside quotes. */
  lemma ToggleFieldCount(line: string)
    ensures |ToggleFields(line)| == CommasOutsideQuotes(line, false) + 1
  {
    ToggleCount(line, false, "");
  }

  lemma {:induction false} ToggleNoQuote(s: string, inQuotes: bool, current: string)
    requires '"' !in current
    ensures forall k :: 0 <= k < |Toggle(s, inQuotes, current)| ==> '"' !in Toggle(s, inQuotes, current)[k]
    decreases |s|
  {
    if s == [] {
    } else if s[0] == '"' {
      ToggleNoQuote(s[1..], !inQuotes, current);
    } else if s[0] == ',' && !inQuotes {
      ToggleNoQuote(s[1..], inQuotes, "");
    } else {
      ToggleNoQuote(s[1..], inQuotes, current + [s[0]]);
    }
  }

  /** Quotes only switch quote mode: no field ever holds a quote. */
  lemma QuotesNeverKept(line: string)
    ensures forall k :: 0 <= k < |ToggleFields(line)| ==> '"' !in ToggleFields(line)[k]
  {
    ToggleNoQuote(line, false, "");
  }

  lemma {:induction false} ToggleAsScan(s: string, opts: CsvLines.Options, inQuotes: bool, current: string)
    requires opts.delimiter == ',' && opts.quoteChar == '"' && !opts.trimValues
    requires CsvLines.NoDoubledQuote(s, '"')
    ensures Toggle(s, inQuotes, current) == CsvLines.Scan(s, opts, inQuotes, current)
    decreases |s|
  {
    if s == [] {
    } else if s[0] == '"' {
      assert CsvLines.NoDoubledQuote(s[1..], '"');
      if |s| >= 2 {
        assert !(s[0] == '"' && s[1] == '"');
      }
      ToggleAsScan(s[1..], opts, !inQuotes, current);
    } else if s[0] == ',' && !inQuotes {
      assert CsvLines.NoDoubledQuote(s[1..], '"');
      ToggleAsScan(s[1..], opts, inQuotes, "");
    } else {
      assert CsvLines.NoDoubledQuote(s[1..], '"');
      ToggleAsScan(s[1..], opts, inQuotes, current + [s[0]]);
    }
  }

  /**
   * On a line without two quotes in a row this splitter and the shared
   * parser's `parseLine` (comma, double quote, no trimming) agree.
   */
  lemma AgreesWithSharedParser(line: string, opts: CsvLines.Options)
    requires opts.delimiter == ',' && opts.quoteChar == '"' && !opts.trimValues
    requires CsvLines.NoDoubledQuote(line, '"')
    ensures ToggleFields(line) == CsvLines.LineFields(line, opts)
  {
    ToggleAsScan(line, opts, false, "");
  }

  // ---------------------------------------------------------------------
  // Players and statistics
  // ---------------------------------------------------------------------

  /** A row of the player list: name, league, team. */
  datatype ListedPlayer = ListedPlayer(name: string, league: string, team: string)

  /** The season line `fetchPlayerStats` keeps (`avg` and `ops` are floats). */
  datatype Stats = Stats(avg: real, homeRuns: int, rbi: int, runs: int, hits: int, stolenBases: int,
                         ops: real, doubles: int, atBats: int, gamesPlayed: int)

  datatype ActivePlayer = ActivePlayer(id: int, name: string, team: string, league: string, stats: Stats)

  /** The entries of `availableStats`. */
  datatype StatKey = Avg | HomeRuns | Rbi | Runs | Hits | StolenBases | Ops | Doubles

  const AvailableStats: seq<StatKey> := [Avg, HomeRuns, Rbi, Runs, Hits, StolenBases, Ops, Doubles]

  function StatValue(s: Stats, key: StatKey): real {
    match key
    case Avg => s.avg
    case HomeRuns => s.homeRuns as real
    case Rbi => s.rbi as real
    case Runs => s.runs as real
    case Hits => s.hits as real
    case StolenBases => s.stolenBases as real
    case Ops => s.ops
    case Doubles => s.doubles as real
  }

  const BatchSize := 5
  const MinActivePlayers := 10
  const MaxQuestions := 10

  function Min(a: int, b: int): int {
    if a <= b then a else b
  }

  // ---------------------------------------------------------------------
  // The aggregation of fetch results
  // ---------------------------------------------------------------------

  /**
   * The players a run of settled fetches contributes: each fulfilled
   * non-null result, in order. `None` is a rejected fetch or a `null` value.
   */
  function Active(results: seq<Option<ActivePlayer>>): seq<ActivePlayer> {
    if results == [] then []
    else
      var last := match results[|results| - 1] case Some(p) => [p] case None => [];
      Active(results[..|results| - 1]) + last
  }

  /** The number of fetches that gave no player. */
  function Errors(results: seq<Option<ActivePlayer>>): nat {
    if results == [] then 0
    else Errors(results[..|results| - 1]) + (if results[|results| - 1].None? then 1 else 0)
  }

  /** Aggregating batch after batch is aggregating the whole run. */
  lemma {:induction false} ActiveConcat(a: seq<Option<ActivePlayer>>, b: seq<Option<ActivePlayer>>)
    ensures Active(a + b) == Active(a) + Active(b)
    ensures Errors(a + b) == Errors(a) + Errors(b)
    decreases |b|
  {
    if b != [] {
      var init := b[..|b| - 1];
      assert (a + b)[..|a + b| - 1] == a + init;
      assert (a + b)[|a + b| - 1] == b[|b| - 1];
      ActiveConcat(a, init);
    } else {
      assert a + b == a;
    }
  }

  /** Every fetch counts once: as a success or as an error. */
  lemma {:induction false} SuccessesAndErrors(results: seq<Option<ActivePlayer>>)
    ensures |Active(results)| + Errors(results) == |results|
  {
    if results != [] {
      SuccessesAndErrors(results[..|results| - 1]);
    }
  }

  /** The active players are exactly the players some fetch returned. */
  lemma {:induction false} ActiveMembers(results: seq<Option<ActivePlayer>>)
    ensures forall p :: p in Active(results) <==> Some(p) in results
  {
    if results != [] {
      var init := results[..|results| - 1];
      ActiveMembers(init);
      assert results == init + [results[|results| - 1]];
    }
  }

  // ---------------------------------------------------------------------
  // Questions and scoring
  // ---------------------------------------------------------------------

  datatype Choice = A | B

  /** `playerAValue >= playerBValue ? 'A' : 'B'`: the player whose value is not below the other's; ties go to A. */
  function CorrectChoice(valueA: real, valueB: real): (r: Choice)
    ensures r == A ==> valueA >= valueB
    ensures r == B ==> valueB > valueA
  {
    if valueA >= valueB then A else B
  }

  /** `Math.round`: halves round up. */
  function Round(x: real): int {
    (x + 0.5).Floor
  }

  /** `Math.round((score / maxQuestions) * 100)`, over exact reals. */
  function Percentage(score: int): int {
    Round(score as real / MaxQuestions as real * 100.0)
  }

  /** With ten questions the percentage is ten times the score. */
  lemma PercentageOfScore(score: int)
    ensures Percentage(score) == 10 * score
  {
    assert score as real / MaxQuestions as real * 100.0 == (10 * score) as real;
  }

  /** The performance message of the final screen. */
  datatype Tier = Excellent | GoodJob | NotBad | RoomForImprovement

  /** The message bands: 80 and up, 60 to 79, 40 to 59, below 40. */
  function TierOf(percentage: int): (r: Tier)
    ensures r == Excellent <==> percentage >= 80
    ensures r == GoodJob <==> 60 <= percentage < 80
    ensures r == NotBad <==> 40 <= percentage < 60
    ensures r == RoomForImprovement <==> percentage < 40
  {
    if percentage >= 80 then Excellent
    else if percentage >= 60 then GoodJob
    else if percentage >= 40 then NotBad
    else RoomForImprovement
  }

  datatype Summary = Summary(percentage: int, tier: Tier)

  function SummaryOf(score: int): Summary {
    var percentage := Percentage(score);
    Summary(percentage, TierOf(percentage))
  }

  /** The final screen in terms of correct answers out of ten: 8+, 6-7, 4-5, 0-3. */
  lemma SummaryOfScore(score: int)
    requires 0 <= score <= MaxQuestions
    ensures SummaryOf(score).percentage == 10 * score && 0 <= SummaryOf(score).percentage <= 100
    ensures SummaryOf(score).tier ==
      if score >= 8 then Excellent else if score >= 6 then GoodJob else if score >= 4 then NotBad else RoomForImprovement
  {
    PercentageOfScore(score);
  }

  /** `Math.floor(Math.random() * n)` for a draw `random` in [0, 1). */
  function DrawIndex(random: real, n: nat): (r: int)
    requires 0.0 <= random < 1.0
    ensures 0 <= r && (n > 0 ==> r < n) && (n == 0 ==> r == 0)
  {
    var x := random * n as real;
    assert n > 0 ==> (1.0 - random) * n as real > 0.0;
    x.Floor
  }

  /**
   * The do-while that draws player B as written: with fewer than two
   * players every draw repeats player A's index, so the loop condition
   * `playerBIndex === playerAIndex` holds for every draw and the loop never ends.
   */
  lemma RedrawRepeatsWithFewPlayers(n: nat, randomA: real, randomB: real)
    requires n <= 1
    requires 0.0 <= randomA < 1.0 && 0.0 <= randomB < 1.0
    ensures DrawIndex(randomB, n) == DrawIndex(randomA, n)
  {
  }

  // ---------------------------------------------------------------------
  // MLBComparisonGame
  // ---------------------------------------------------------------------

  class MlbComparisonGame {
    var playersData: seq<ListedPlayer>
    var activePlayersData: seq<ActivePlayer>
    var currentQuestion: int
    var score: int
    const maxQuestions: int
    var gameOver: bool
    var currentPlayerA: Option<ActivePlayer>
    var currentPlayerB: Option<ActivePlayer>
    var currentStat: Option<StatKey>
    var answeredCurrentQuestion: bool
    /** The 3 s timers `selectPlayer` has set that have not fired yet. */
    var pendingAdvances: nat
    /**
     * The percentage and message of the last final screen `endGame` showed;
     * a later `startGame` or `newGame` replaces that screen with a question
     * but leaves this record as it was.
     */
    var summary: Option<Summary>

    /** The score counts answered questions only and the final screen matches the score. */
    predicate Counted()
      reads this
    {
      && maxQuestions == MaxQuestions
      && 1 <= currentQuestion
      && 0 <= score <= maxQuestions
      && score <= currentQuestion - 1 + (if answeredCurrentQuestion && currentQuestion <= maxQuestions then 1 else 0)
      && (gameOver ==> currentQuestion > maxQuestions && summary == Some(SummaryOf(score)))
    }

    /** Counted, and a game is over exactly when it is past its ten questions. */
    predicate Valid()
      reads this
    {
      Counted() && (!gameOver ==> currentQuestion <= maxQuestions)
    }

    /**
     * At most one 3 s timer is pending, and only while the question on screen
     * is answered, so the timer's advance moves past an answered question.
     */
    predicate Synced()
      reads this
    {
      pendingAdvances <= if answeredCurrentQuestion then 1 else 0
    }

    /** A question is on screen: two players and a statistic. */
    predicate Asked()
      reads this
    {
      currentPlayerA.Some? && currentPlayerB.Some? && currentStat.Some?
    }

    constructor()
      ensures Valid()
      ensures playersData == [] && activePlayersData == []
      ensures currentQuestion == 1 && score == 0 && !gameOver && !answeredCurrentQuestion
      ensures !Asked() && summary == None && pendingAdvances == 0
    {
      playersData := [];
      activePlayersData := [];
      currentQuestion := 1;
      score := 0;
      maxQuestions := MaxQuestions;
      gameOver := false;
      currentPlayerA := None;
      currentPlayerB := None;
      currentStat := None;
      answeredCurrentQuestion := false;
      pendingAdvances := 0;
      summary := None;
    }

    /** The player list `loadPlayersData` reads from the CSV file. */
    method ListPlayers(players: seq<ListedPlayer>)
      requires Valid()
      modifies this
      ensures Valid()
      ensures playersData == players
      ensures activePlayersData == old(activePlayersData) && currentQuestion == old(currentQuestion)
      ensures score == old(score) && gameOver == old(gameOver) && answeredCurrentQuestion == old(answeredCurrentQuestion)
      ensures currentPlayerA == old(currentPlayerA) && currentPlayerB == old(currentPlayerB)
      ensures currentStat == old(currentStat) && summary == old(summary) && pendingAdvances == old(pendingAdvances)
    {
      playersData := players;
    }

    /**
     * `fetch2025Stats()`, with `results[k]` the settled fetch for player
     * `k`: batches of five, in order, keeping each fulfilled non-null result.
     * `enough` is false where `fetch2025Stats` throws for fewer than ten players.
     */
    method Fetch2025Stats(results: seq<Option<ActivePlayer>>) returns (enough: bool, successCount: nat, errorCount: nat)
      requires Valid()
      requires |results| == |playersData|
      modifies this
      ensures Valid()
      ensures activePlayersData == Active(results)
      ensures successCount == |activePlayersData| && successCount + errorCount == |playersData|
      ensures enough <==> |activePlayersData| >= MinActivePlayers
      ensures playersData == old(playersData) && currentQuestion == old(currentQuestion)
      ensures score == old(score) && gameOver == old(gameOver) && answeredCurrentQuestion == old(answeredCurrentQuestion)
      ensures currentPlayerA == old(currentPlayerA) && currentPlayerB == old(currentPlayerB)
      ensures currentStat == old(currentStat) && summary == old(summary) && pendingAdvances == old(pendingAdvances)
    {
      activePlayersData := [];
      successCount := 0;
      errorCount := 0;
      var totalPlayers := |playersData|;
      var i := 0;
      while i < totalPlayers
        invariant 0 <= i
        invariant activePlayersData == Active(results[..Min(i, totalPlayers)])
        invariant successCount + errorCount == Min(i, totalPlayers)
        invariant successCount == |activePlayersData|
        invariant Valid() && playersData == old(playersData) && currentQuestion == old(currentQuestion)
        invariant score == old(score) && gameOver == old(gameOver) && answeredCurrentQuestion == old(answeredCurrentQuestion)
        invariant currentPlayerA == old(currentPlayerA) && currentPlayerB == old(currentPlayerB)
        invariant currentStat == old(currentStat) && summary == old(summary) && pendingAdvances == old(pendingAdvances)
        decreases totalPlayers - i
      {
        var batchEnd := Min(i + BatchSize, totalPlayers);
        // the batch's `forEach` runs without an await, so only its end state is observable
        var active := activePlayersData;
        var k := i;
        while k < batchEnd
          invariant i <= k <= batchEnd
          invariant active == Active(results[..k])
          invariant successCount + errorCount == k
          invariant successCount == |active|
        {
          assert results[..k + 1][..k] == results[..k];
          match results[k] {
            case Some(p) =>
              active := active + [p];
              successCount := successCount + 1;
            case None =>
              errorCount := errorCount + 1;
          }
          k := k + 1;
        }
        activePlayersData := active;
        i := i + BatchSize;
      }
      assert results[..totalPlayers] == results;
      enough := |activePlayersData| >= MinActivePlayers;
    }

    /** `endGame()`: the game is over and the final screen shows the score's percentage and tier. */
    method EndGame()
      requires Counted() && currentQuestion > maxQuestions
      modifies this
      ensures Valid()
      ensures gameOver && summary == Some(SummaryOf(score))
      ensures score == old(score) && currentQuestion == old(currentQuestion)
      ensures answeredCurrentQuestion == old(answeredCurrentQuestion) && pendingAdvances == old(pendingAdvances)
      ensures activePlayersData == old(activePlayersData) && playersData == old(playersData)
      ensures currentPlayerA == old(currentPlayerA) && currentPlayerB == old(currentPlayerB) && currentStat == old(currentStat)
    {
      gameOver := true;
      var percentage := Percentage(score);
      summary := Some(Summary(percentage, TierOf(percentage)));
    }

    /**
     * `generateQuestion()`: past the last question the game ends; otherwise
     * two players at distinct indices and a statistic are drawn, player A and
     * the statistic from `randomA` and `randomStat`. With fewer than two
     * active players no question is drawn (see `RedrawRepeatsWithFewPlayers`
     * for the loop this guard replaces).
     */
    method GenerateQuestion(randomA: real, randomStat: real)
      requires Counted() && score <= currentQuestion - 1
      requires 0.0 <= randomA < 1.0 && 0.0 <= randomStat < 1.0
      modifies this
      ensures Valid()
      ensures score == old(score) && currentQuestion == old(currentQuestion) && pendingAdvances == old(pendingAdvances)
      ensures activePlayersData == old(activePlayersData) && playersData == old(playersData)
      ensures old(gameOver || currentQuestion > maxQuestions) ==>
        gameOver && summary == Some(SummaryOf(score)) &&
        answeredCurrentQuestion == old(answeredCurrentQuestion) &&
        currentPlayerA == old(currentPlayerA) && currentPlayerB == old(currentPlayerB) && currentStat == old(currentStat)
      ensures !old(gameOver || currentQuestion > maxQuestions) && |activePlayersData| < 2 ==>
        gameOver == old(gameOver) && summary == old(summary) &&
        answeredCurrentQuestion == old(answeredCurrentQuestion) &&
        currentPlayerA == old(currentPlayerA) && currentPlayerB == old(currentPlayerB) && currentStat == old(currentStat)
      ensures !old(gameOver || currentQuestion > maxQuestions) && |activePlayersData| >= 2 ==>
        var n := |activePlayersData|;
        && !gameOver && summary == old(summary) && !answeredCurrentQuestion && Asked()
        && currentPlayerA == Some(activePlayersData[DrawIndex(randomA, n)])
        && (exists b :: 0 <= b < n && b != DrawIndex(randomA, n) && currentPlayerB == Some(activePlayersData[b]))
        && currentStat == Some(AvailableStats[DrawIndex(randomStat, |AvailableStats|)])
    {
      if gameOver || currentQuestion > maxQuestions {
        EndGame();
        return;
      }
      var n := |activePlayersData|;
      if n < 2 {
        return;
      }
      answeredCurrentQuestion := false;
      var playerAIndex := DrawIndex(randomA, n);
      var playerBIndex :| 0 <= playerBIndex < n && playerBIndex != playerAIndex;
      currentPlayerA := Some(activePlayersData[playerAIndex]);
      currentPlayerB := Some(activePlayersData[playerBIndex]);
      currentStat := Some(AvailableStats[DrawIndex(randomStat, |AvailableStats|)]);
    }

    /** `startGame()`: back to question 1 with no score, then draw a question. */
    method StartGame(randomA: real, randomStat: real)
      requires Valid()
      requires 0.0 <= randomA < 1.0 && 0.0 <= randomStat < 1.0
      modifies this
      ensures Valid()
      ensures currentQuestion == 1 && score == 0 && !gameOver
      ensures activePlayersData == old(activePlayersData) && pendingAdvances == old(pendingAdvances)
      ensures |activePlayersData| >= 2 ==> Asked() && !answeredCurrentQuestion
    {
      currentQuestion := 1;
      score := 0;
      gameOver := false;
      GenerateQuestion(randomA, randomStat);
    }

    /**
     * `newGame()` as written: as `startGame`, also clearing the answered
     * flag, but a 3 s timer set by an earlier answer stays pending (see
     * `StaleTimerSkipsQuestion`).
     */
    method NewGame(randomA: real, randomStat: real)
      requires Valid()
      requires 0.0 <= randomA < 1.0 && 0.0 <= randomStat < 1.0
      modifies this
      ensures Valid()
      ensures currentQuestion == 1 && score == 0 && !gameOver && !answeredCurrentQuestion
      ensures activePlayersData == old(activePlayersData) && pendingAdvances == old(pendingAdvances)
      ensures |activePlayersData| >= 2 ==> Asked()
    {
      currentQuestion := 1;
      score := 0;
      gameOver := false;
      answeredCurrentQuestion := false;
      GenerateQuestion(randomA, randomStat);
    }

    /**
     * `newGame()` with the pending 3 s timer cleared first, as
     * `clearTimeout` would: the new game starts `Synced`, so no advance
     * can fire before its first question is answered.
     */
    method NewGameClearingTimer(randomA: real, randomStat: real)
      requires Valid()
      requires 0.0 <= randomA < 1.0 && 0.0 <= randomStat < 1.0
      modifies this
      ensures Valid() && Synced()
      ensures currentQuestion == 1 && score == 0 && !gameOver && !answeredCurrentQuestion
      ensures pendingAdvances == 0
      ensures activePlayersData == old(activePlayersData)
      ensures |activePlayersData| >= 2 ==> Asked()
    {
      pendingAdvances := 0;
      NewGame(randomA, randomStat);
    }

    /**
     * `selectPlayer(choice)`: ignored once the question is answered or the
     * game is over; otherwise the question is answered, a correct choice
     * scores one and the 3 s timer is set. `verdict` is the message shown:
     * correct or incorrect.
     */
    method SelectPlayer(choice: Choice) returns (verdict: Option<bool>)
      requires Valid()
      requires answeredCurrentQuestion || gameOver || Asked()
      modifies this
      ensures Valid()
      ensures old(answeredCurrentQuestion || gameOver) ==> verdict == None && unchanged(this)
      ensures !old(answeredCurrentQuestion || gameOver) ==>
        var valueA := old(StatValue(currentPlayerA.value.stats, currentStat.value));
        var valueB := old(StatValue(currentPlayerB.value.stats, currentStat.value));
        var correct := choice == CorrectChoice(valueA, valueB);
        && verdict == Some(correct)
        && answeredCurrentQuestion
        && score == old(score) + (if correct then 1 else 0)
        && pendingAdvances == old(pendingAdvances) + 1
        && currentQuestion == old(currentQuestion) && gameOver == old(gameOver) && summary == old(summary)
        && currentPlayerA == old(currentPlayerA) && currentPlayerB == old(currentPlayerB) && currentStat == old(currentStat)
        && activePlayersData == old(activePlayersData) && playersData == old(playersData)
      ensures old(Synced()) ==> Synced()
    {
      if answeredCurrentQuestion || gameOver {
        return None;
      }
      var playerAValue := StatValue(currentPlayerA.value.stats, currentStat.value);
      var playerBValue := StatValue(currentPlayerB.value.stats, currentStat.value);
      var correctChoice := CorrectChoice(playerAValue, playerBValue);
      var isCorrect := choice == correctChoice;
      answeredCurrentQuestion := true;
      if isCorrect {
        score := score + 1;
      }
      pendingAdvances := pendingAdvances + 1;
      verdict := Some(isCorrect);
    }

    /**
     * One pending 3 s timer fires: the next question, or the end of the game
     * after the tenth. It fires whether or not the question on screen is
     * answered; in a `Synced` game it always is.
     */
    method AdvanceQuestion(randomA: real, randomStat: real)
      requires Valid() && pendingAdvances > 0
      requires 0.0 <= randomA < 1.0 && 0.0 <= randomStat < 1.0
      modifies this
      ensures Valid()
      ensures currentQuestion == old(currentQuestion) + 1 && score == old(score)
      ensures pendingAdvances == old(pendingAdvances) - 1
      ensures activePlayersData == old(activePlayersData)
      ensures currentQuestion > maxQuestions ==> gameOver && summary == Some(SummaryOf(score))
      ensures currentQuestion <= maxQuestions && !old(gameOver) && |activePlayersData| >= 2 ==>
        !gameOver && Asked() && !answeredCurrentQuestion
      ensures old(Synced()) ==> old(answeredCurrentQuestion) && Synced()
    {
      currentQuestion := currentQuestion + 1;
      pendingAdvances := pendingAdvances - 1;
      GenerateQuestion(randomA, randomStat);
    }

    /**
     * The stale timer as written: answer a question, press New Game within
     * 3 s, and the timer of the old answer still fires. The new game is then
     * on question 2 with no score, its first question replaced unanswered.
     */
    method StaleTimerSkipsQuestion(choice: Choice, randomA: real, randomStat: real)
      requires Valid() && Asked() && !answeredCurrentQuestion && !gameOver && pendingAdvances == 0
      requires |activePlayersData| >= 2
      requires 0.0 <= randomA < 1.0 && 0.0 <= randomStat < 1.0
      modifies this
      ensures currentQuestion == 2 && score == 0 && !gameOver && Asked() && !answeredCurrentQuestion
    {
      var _ := SelectPlayer(choice);
      NewGame(randomA, randomStat);
      assert pendingAdvances == 1 && !answeredCurrentQuestion && !Synced();
      AdvanceQuestion(randomA, randomStat);
    }
  }
}
