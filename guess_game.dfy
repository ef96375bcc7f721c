/**
 * The MLB player guessing game (games/mlb-player-guess-refactored.js): the
 * per-round bookkeeping of `GameState`, the feedback rules of the guess
 * table, player search, and the controller's `startNewGame`, `makeGuess`
 * and hint handlers wired to the search dropdown.
 */
module GuessGame {
  import opened Wrappers
  import JsText
  import Dropdown
  import CsvLines

  // ---------------------------------------------------------------------
  // GAME_CONFIG
  // ---------------------------------------------------------------------

  const MaxGuesses := 8
  const TeamHintThreshold := 4
  const InitialHintThreshold := 6
  const AgeThreshold: real := 3.0
  const RunsThreshold: real := 10.0
  const StolenBasesThreshold: real := 5.0
  const HomeRunsThreshold: real := 5.0
  const OpsThreshold: real := 0.050

  /** A row of the MLB player file, after coercion by its schema. */
  datatype Player = Player(name: string, league: string, team: string, age: real, runs: real, sb: real, hr: real, ops: real)

  // ---------------------------------------------------------------------
  // Feedback (UIManager.getMatchClass, getNumericMatchClass, getArrow)
  // ---------------------------------------------------------------------

  datatype MatchClass = Correct | Close | Wrong

  /** The arrow after a number: none, ' ↑' (the target is higher) or ' ↓'. */
  datatype Arrow = NoArrow | UpArrow | DownArrow

  function Abs(x: real): real {
    if x < 0.0 then -x else x
  }

  /** `getMatchClass`: plain equality, never 'close'. */
  function GetMatchClass(guessValue: string, targetValue: string): (r: MatchClass)
    ensures r != Close
    ensures r == Correct <==> guessValue == targetValue
  {
    if guessValue == targetValue then Correct else Wrong
  }

  /** `getNumericMatchClass`: equal, within `threshold`, or further. */
  function GetNumericMatchClass(guessValue: real, targetValue: real, threshold: real): (r: MatchClass)
    ensures r == Correct <==> guessValue == targetValue
    ensures r == Close <==> guessValue != targetValue && Abs(guessValue - targetValue) <= threshold
    ensures r == Wrong <==> guessValue != targetValue && Abs(guessValue - targetValue) > threshold
  {
    if guessValue == targetValue then Correct
    else if Abs(guessValue - targetValue) <= threshold then Close
    else Wrong
  }

  /**
   * `getArrow`: no arrow for equal values, otherwise it points towards the
   * target. Both threshold branches of `getArrow` give the same arrow, so
   * the threshold plays no part.
   */
  function GetArrow(guessValue: real, targetValue: real, threshold: real): (r: Arrow)
    ensures r == NoArrow <==> guessValue == targetValue
    ensures r == UpArrow <==> guessValue < targetValue
    ensures r == DownArrow <==> guessValue > targetValue
  {
    if guessValue == targetValue then NoArrow
    else if Abs(guessValue - targetValue) <= threshold then (if guessValue < targetValue then UpArrow else DownArrow)
    else if guessValue < targetValue then UpArrow
    else DownArrow
  }

  /** The arrow shows exactly when the cell is not 'correct'. */
  lemma ArrowMatchesClass(guessValue: real, targetValue: real, threshold: real)
    ensures GetArrow(guessValue, targetValue, threshold) == NoArrow
       <==> GetNumericMatchClass(guessValue, targetValue, threshold) == Correct
  {
  }

  /** The classes and arrows of one row of the guess table. */
  datatype Feedback = Feedback(
    league: MatchClass, team: MatchClass,
    age: MatchClass, ageArrow: Arrow,
    runs: MatchClass, runsArrow: Arrow,
    sb: MatchClass, sbArrow: Arrow,
    hr: MatchClass, hrArrow: Arrow,
    ops: MatchClass, opsArrow: Arrow)

  /**
   * A numeric cell and its arrow for `guessValue` against `targetValue`:
   * correct when equal, close within `threshold`, otherwise wrong, and an
   * arrow pointing towards the target unless the values are equal.
   */
  predicate NumericCell(c: MatchClass, a: Arrow, guessValue: real, targetValue: real, threshold: real) {
    && (c == Correct <==> guessValue == targetValue)
    && (c == Close <==> guessValue != targetValue && Abs(guessValue - targetValue) <= threshold)
    && (a == NoArrow <==> guessValue == targetValue)
    && (a == UpArrow <==> guessValue < targetValue)
    && (a == DownArrow <==> guessValue > targetValue)
  }

  /** The feedback for `guess` against `target`, with the thresholds of GAME_CONFIG. */
  function FeedbackFor(guess: Player, target: Player): (r: Feedback)
    ensures r.league != Close && (r.league == Correct <==> guess.league == target.league)
    ensures r.team != Close && (r.team == Correct <==> guess.team == target.team)
    ensures NumericCell(r.age, r.ageArrow, guess.age, target.age, 3.0)
    ensures NumericCell(r.runs, r.runsArrow, guess.runs, target.runs, 10.0)
    ensures NumericCell(r.sb, r.sbArrow, guess.sb, target.sb, 5.0)
    ensures NumericCell(r.hr, r.hrArrow, guess.hr, target.hr, 5.0)
    ensures NumericCell(r.ops, r.opsArrow, guess.ops, target.ops, 0.050)
  {
    Feedback(
      GetMatchClass(guess.league, target.league), GetMatchClass(guess.team, target.team),
      GetNumericMatchClass(guess.age, target.age, AgeThreshold), GetArrow(guess.age, target.age, AgeThreshold),
      GetNumericMatchClass(guess.runs, target.runs, RunsThreshold), GetArrow(guess.runs, target.runs, RunsThreshold),
      GetNumericMatchClass(guess.sb, target.sb, StolenBasesThreshold), GetArrow(guess.sb, target.sb, StolenBasesThreshold),
      GetNumericMatchClass(guess.hr, target.hr, HomeRunsThreshold), GetArrow(guess.hr, target.hr, HomeRunsThreshold),
      GetNumericMatchClass(guess.ops, target.ops, OpsThreshold), GetArrow(guess.ops, target.ops, OpsThreshold))
  }

  /** Every cell is 'correct' exactly when the guess has the target's league, team and statistics. */
  lemma FeedbackAllCorrect(guess: Player, target: Player)
    ensures var f := FeedbackFor(guess, target);
      (f.league == f.team == f.age == f.runs == f.sb == f.hr == f.ops == Correct)
      <==> (guess.league == target.league && guess.team == target.team && guess.age == target.age &&
            guess.runs == target.runs && guess.sb == target.sb && guess.hr == target.hr && guess.ops == target.ops)
  {
  }

  // ---------------------------------------------------------------------
  // The round bookkeeping makeGuess maintains
  // ---------------------------------------------------------------------

  predicate DistinctNames(guesses: seq<Player>) {
    forall i, j :: 0 <= i < j < |guesses| ==> guesses[i].name != guesses[j].name
  }

  /** Some guess has the name `name`. */
  predicate Guessed(guesses: seq<Player>, name: string) {
    exists i :: 0 <= i < |guesses| && guesses[i].name == name
  }

  /** The number of guesses not named `name`: what `addGuess` counts in `wrongGuesses`. */
  function WrongCount(guesses: seq<Player>, name: string): nat {
    if guesses == [] then 0
    else WrongCount(guesses[..|guesses| - 1], name) + (if guesses[|guesses| - 1].name != name then 1 else 0)
  }

  /**
   * With distinct names every guess is wrong except the one that names the
   * target, if any.
   */
  lemma {:induction false} WrongCountDistinct(guesses: seq<Player>, name: string)
    requires DistinctNames(guesses)
    ensures WrongCount(guesses, name) == |guesses| - (if Guessed(guesses, name) then 1 else 0)
  {
    if guesses != [] {
      var init := guesses[..|guesses| - 1];
      assert DistinctNames(init);
      WrongCountDistinct(init, name);
      if guesses[|guesses| - 1].name == name {
        assert !Guessed(init, name);
      }
      if Guessed(init, name) {
        var i :| 0 <= i < |init| && init[i].name == name;
        assert guesses[i] == init[i];
      }
    }
  }

  /** The state of a round with target `target`, as `makeGuess` and the hint handlers keep it. */
  predicate Consistent(guesses: seq<Player>, target: Player, wrongGuesses: int, gameWon: bool, gameOver: bool,
                       teamHintUsed: bool, initialHintUsed: bool)
  {
    && |guesses| <= MaxGuesses
    && DistinctNames(guesses)
    && wrongGuesses == WrongCount(guesses, target.name)
    && (gameWon <==> Guessed(guesses, target.name))
    && (gameOver <==> gameWon || |guesses| == MaxGuesses)
    && (teamHintUsed ==> wrongGuesses >= TeamHintThreshold)
    && (initialHintUsed ==> wrongGuesses >= InitialHintThreshold)
  }

  /**
   * A round that is still open takes a guess with a new name: the guess is
   * appended, counted wrong unless it names the target, a correct guess wins
   * (even as the eighth), and the eighth guess ends the round otherwise.
   */
  lemma GuessKeepsConsistent(guesses: seq<Player>, target: Player, wrongGuesses: int, gameWon: bool, gameOver: bool,
                             teamHintUsed: bool, initialHintUsed: bool, guess: Player)
    requires Consistent(guesses, target, wrongGuesses, gameWon, gameOver, teamHintUsed, initialHintUsed)
    requires !gameOver && !Guessed(guesses, guess.name)
    ensures var won := guess.name == target.name;
      Consistent(guesses + [guess], target, wrongGuesses + (if won then 0 else 1), won,
                 won || |guesses| + 1 == MaxGuesses, teamHintUsed, initialHintUsed)
  {
    var after := guesses + [guess];
    assert after[..|after| - 1] == guesses;
    forall i, j | 0 <= i < j < |after|
      ensures after[i].name != after[j].name
    {
      if j == |guesses| {
        assert after[i] == guesses[i];
      }
    }
  }

  /**
   * What a round's counters say about its end: a won round has exactly one
   * right guess, a lost round eight wrong ones, and there are never more
   * wrong guesses than guesses.
   */
  lemma RoundOutcome(guesses: seq<Player>, target: Player, wrongGuesses: int, gameWon: bool, gameOver: bool,
                     teamHintUsed: bool, initialHintUsed: bool)
    requires Consistent(guesses, target, wrongGuesses, gameWon, gameOver, teamHintUsed, initialHintUsed)
    ensures 0 <= wrongGuesses <= |guesses|
    ensures gameWon ==> wrongGuesses == |guesses| - 1
    ensures gameOver && !gameWon ==> wrongGuesses == MaxGuesses
    ensures !gameOver ==> wrongGuesses < MaxGuesses
  {
    WrongCountDistinct(guesses, target.name);
  }

  // ---------------------------------------------------------------------
  // The initial hint
  // ---------------------------------------------------------------------

  /** `name.split(' ')[0]`: the text before the first space. */
  function FirstWord(name: string): string {
    match JsText.IndexOf(name, " ", 0)
    case Some(k) => name[..k]
    case None => name
  }

  /** `firstName.charAt(0).toUpperCase()`. */
  function Initial(name: string): string {
    var first := FirstWord(name);
    if first == [] then [] else [JsText.UpperChar(first[0])]
  }

  /**
   * The initial hint is the upper-cased first character of the name, and
   * empty when the name is empty or starts with a space.
   */
  lemma InitialOfName(name: string)
    ensures Initial(name) == if name == [] || name[0] == ' ' then [] else [JsText.UpperChar(name[0])]
  {
    match JsText.IndexOf(name, " ", 0)
    case Some(k) =>
      assert JsText.OccursAt(name, " ", k);
      if name != [] && name[0] == ' ' {
        assert JsText.OccursAt(name, " ", 0);
      } else if name != [] {
        assert !JsText.OccursAt(name, " ", 0);
        assert k > 0;
      }
    case None =>
  }

  // ---------------------------------------------------------------------
  // Player search (DataManager.filterPlayers)
  // ---------------------------------------------------------------------

  /** The lower-cased `term` occurs in the player's lower-cased name, team or league. */
  predicate Matches(p: Player, term: string) {
    || JsText.Includes(JsText.LowerAscii(p.name), term)
    || JsText.Includes(JsText.LowerAscii(p.team), term)
    || JsText.Includes(JsText.LowerAscii(p.league), term)
  }

  /** `players.filter(...)`. */
  function Matching(players: seq<Player>, term: string): (r: seq<Player>)
    ensures forall p :: p in r <==> p in players && Matches(p, term)
    ensures forall p :: p in multiset(r) ==> multiset(r)[p] == multiset(players)[p]
  {
    if players == [] then []
    else
      assert players == [players[0]] + players[1..];
      (if Matches(players[0], term) then [players[0]] else []) + Matching(players[1..], term)
  }

  /** Character-code order on names, standing for `localeCompare`. */
  predicate NameBefore(a: string, b: string) {
    if a == [] then true
    else if b == [] then false
    else if a[0] != b[0] then a[0] < b[0]
    else NameBefore(a[1..], b[1..])
  }

  lemma {:induction false} NameBeforeTotal(a: string, b: string)
    ensures NameBefore(a, b) || NameBefore(b, a)
  {
    if a != [] && b != [] && a[0] == b[0] {
      NameBeforeTotal(a[1..], b[1..]);
    }
  }

  lemma {:induction false} NameBeforeTransitive(a: string, b: string, c: string)
    requires NameBefore(a, b) && NameBefore(b, c)
    ensures NameBefore(a, c)
  {
    if a != [] && b != [] && c != [] && a[0] == b[0] && b[0] == c[0] {
      NameBeforeTransitive(a[1..], b[1..], c[1..]);
    }
  }

  predicate SortedByName(players: seq<Player>) {
    forall i, j :: 0 <= i < j < |players| ==> NameBefore(players[i].name, players[j].name)
  }

  /** Insert `p` before the first player it does not come after. */
  function InsertByName(p: Player, sorted: seq<Player>): (r: seq<Player>)
    requires SortedByName(sorted)
    ensures SortedByName(r)
    ensures multiset(r) == multiset(sorted) + multiset{p}
  {
    if sorted == [] then [p]
    else if NameBefore(p.name, sorted[0].name) then
      InsertFront(p, sorted);
      [p] + sorted
    else
      NameBeforeTotal(p.name, sorted[0].name);
      var rest := InsertByName(p, sorted[1..]);
      assert sorted == [sorted[0]] + sorted[1..];
      InsertAfterHead(sorted[0], rest, p, sorted[1..]);
      [sorted[0]] + rest
  }

  lemma InsertFront(p: Player, sorted: seq<Player>)
    requires SortedByName(sorted) && sorted != [] && NameBefore(p.name, sorted[0].name)
    ensures SortedByName([p] + sorted)
  {
    var r := [p] + sorted;
    forall i, j | 0 <= i < j < |r|
      ensures NameBefore(r[i].name, r[j].name)
    {
      if i == 0 {
        assert r[j] == sorted[j - 1];
        if j > 1 {
          NameBeforeTransitive(p.name, sorted[0].name, sorted[j - 1].name);
        }
      } else {
        assert r[i] == sorted[i - 1] && r[j] == sorted[j - 1];
      }
    }
  }

  lemma InsertAfterHead(head: Player, rest: seq<Player>, p: Player, tail: seq<Player>)
    requires SortedByName(rest) && SortedByName([head] + tail)
    requires NameBefore(head.name, p.name)
    requires multiset(rest) == multiset(tail) + multiset{p}
    ensures SortedByName([head] + rest)
  {
    var r := [head] + rest;
    forall i, j | 0 <= i < j < |r|
      ensures NameBefore(r[i].name, r[j].name)
    {
      if i == 0 {
        var q := rest[j - 1];
        assert q in multiset(rest);
        assert r[j] == q;
        if q != p {
          assert q in multiset(tail);
          assert q in tail;
          var k :| 0 <= k < |tail| && tail[k] == q;
          var whole := [head] + tail;
          assert whole[0] == head && whole[k + 1] == q;
          assert NameBefore(whole[0].name, whole[k + 1].name);
        }
      } else {
        assert r[i] == rest[i - 1] && r[j] == rest[j - 1];
      }
    }
  }

  /** `sort((a, b) => a.Player.localeCompare(b.Player))`, stable, by insertion. */
  function SortByName(players: seq<Player>): (r: seq<Player>)
    ensures SortedByName(r)
    ensures multiset(r) == multiset(players)
  {
    if players == [] then []
    else
      assert players == [players[0]] + players[1..];
      InsertByName(players[0], SortByName(players[1..]))
  }

  /**
   * The search results for a non-empty term: exactly the players that
   * match the lower-cased term, each as often as in the data, by name.
   */
  function SearchResults(players: seq<Player>, searchTerm: string): (r: seq<Player>)
    ensures SortedByName(r)
    ensures forall p :: p in r <==> p in players && Matches(p, JsText.LowerAscii(searchTerm))
    ensures forall p :: p in multiset(r) ==> multiset(r)[p] == multiset(players)[p]
  {
    var found := Matching(players, JsText.LowerAscii(searchTerm));
    var r := SortByName(found);
    assert forall p :: p in r <==> p in multiset(found);
    r
  }

  /** `Math.floor(random * length)` for `random` in [0, 1): an index into a non-empty list. */
  function RandomIndex(random: real, length: nat): (r: nat)
    requires 0.0 <= random < 1.0 && length > 0
    ensures r < length
  {
    var x := random * length as real;
    assert x < length as real;
    x.Floor
  }

  // ---------------------------------------------------------------------
  // GameState
  // ---------------------------------------------------------------------

  class GameState {
    var guesses: seq<Player>
    var gameWon: bool
    var gameOver: bool
    var wrongGuesses: nat
    var teamHintUsed: bool
    var initialHintUsed: bool
    var selectedPlayer: Option<Player>
    var targetPlayer: Option<Player>

    /** The state `reset` leaves. */
    predicate IsReset()
      reads this
    {
      && guesses == [] && !gameWon && !gameOver && wrongGuesses == 0
      && !teamHintUsed && !initialHintUsed && selectedPlayer == None && targetPlayer == None
    }

    constructor()
      ensures IsReset()
    {
      guesses := [];
      gameWon := false;
      gameOver := false;
      wrongGuesses := 0;
      teamHintUsed := false;
      initialHintUsed := false;
      selectedPlayer := None;
      targetPlayer := None;
    }

    method Reset()
      modifies this
      ensures IsReset()
    {
      guesses := [];
      gameWon := false;
      gameOver := false;
      wrongGuesses := 0;
      teamHintUsed := false;
      initialHintUsed := false;
      selectedPlayer := None;
      targetPlayer := None;
    }

    /** `addGuess(player)`: append it; count it wrong unless it names the target. */
    method AddGuess(player: Player)
      requires targetPlayer.Some?
      modifies this
      ensures guesses == old(guesses) + [player]
      ensures wrongGuesses == old(wrongGuesses) + (if player.name != old(targetPlayer).value.name then 1 else 0)
      ensures gameWon == old(gameWon) && gameOver == old(gameOver)
      ensures teamHintUsed == old(teamHintUsed) && initialHintUsed == old(initialHintUsed)
      ensures selectedPlayer == old(selectedPlayer) && targetPlayer == old(targetPlayer)
    {
      guesses := guesses + [player];
      if player.name != targetPlayer.value.name {
        wrongGuesses := wrongGuesses + 1;
      }
    }

    predicate IsGuessAlreadyMade(playerName: string)
      reads this
    {
      exists i :: 0 <= i < |guesses| && guesses[i].name == playerName
    }

    predicate CanUseTeamHint()
      reads this
    {
      wrongGuesses >= TeamHintThreshold && !teamHintUsed && !gameOver
    }

    predicate CanUseInitialHint()
      reads this
    {
      wrongGuesses >= InitialHintThreshold && !initialHintUsed && !gameOver
    }

    method UseTeamHint()
      modifies this
      ensures teamHintUsed
      ensures guesses == old(guesses) && gameWon == old(gameWon) && gameOver == old(gameOver)
      ensures wrongGuesses == old(wrongGuesses) && initialHintUsed == old(initialHintUsed)
      ensures selectedPlayer == old(selectedPlayer) && targetPlayer == old(targetPlayer)
    {
      teamHintUsed := true;
    }

    method UseInitialHint()
      modifies this
      ensures initialHintUsed
      ensures guesses == old(guesses) && gameWon == old(gameWon) && gameOver == old(gameOver)
      ensures wrongGuesses == old(wrongGuesses) && teamHintUsed == old(teamHintUsed)
      ensures selectedPlayer == old(selectedPlayer) && targetPlayer == old(targetPlayer)
    {
      initialHintUsed := true;
    }

    predicate IsGameOver()
      reads this
    {
      gameOver || |guesses| >= MaxGuesses
    }

    method SetGameWon()
      modifies this
      ensures gameWon && gameOver
      ensures guesses == old(guesses) && wrongGuesses == old(wrongGuesses)
      ensures teamHintUsed == old(teamHintUsed) && initialHintUsed == old(initialHintUsed)
      ensures selectedPlayer == old(selectedPlayer) && targetPlayer == old(targetPlayer)
    {
      gameWon := true;
      gameOver := true;
    }

    method SetGameOver()
      modifies this
      ensures gameOver
      ensures guesses == old(guesses) && gameWon == old(gameWon) && wrongGuesses == old(wrongGuesses)
      ensures teamHintUsed == old(teamHintUsed) && initialHintUsed == old(initialHintUsed)
      ensures selectedPlayer == old(selectedPlayer) && targetPlayer == old(targetPlayer)
    {
      gameOver := true;
    }
  }

  // ---------------------------------------------------------------------
  // DataManager
  // ---------------------------------------------------------------------

  class DataManager {
    var playersData: seq<Player>
    var isLoaded: bool

    constructor()
      ensures playersData == [] && !isLoaded
    {
      playersData := [];
      isLoaded := false;
    }

    /** The successful end of `loadPlayersData`, with the parsed players. */
    method LoadPlayers(players: seq<Player>)
      modifies this
      ensures playersData == players && isLoaded
    {
      playersData := players;
      isLoaded := true;
    }

    /** `getRandomPlayer()` with `random` the value of `Math.random()`; `None` is the throw. */
    method GetRandomPlayer(random: real) returns (r: Option<Player>)
      requires 0.0 <= random < 1.0
      ensures r.None? <==> !isLoaded || playersData == []
      ensures r.Some? ==> r.value == playersData[RandomIndex(random, |playersData|)]
    {
      if !isLoaded || |playersData| == 0 {
        return None;
      }
      return Some(playersData[RandomIndex(random, |playersData|)]);
    }

    /** `filterPlayers(searchTerm)`: nothing for an empty term or before loading. */
    function FilterPlayers(searchTerm: string): (r: seq<Player>)
      reads this
      ensures searchTerm == "" || !isLoaded ==> r == []
      ensures searchTerm != "" && isLoaded ==> r == SearchResults(playersData, searchTerm)
    {
      if searchTerm == "" || !isLoaded then [] else SearchResults(playersData, searchTerm)
    }
  }

  // ---------------------------------------------------------------------
  // MLBPlayerGuessGame
  // ---------------------------------------------------------------------

  /** The message line under the board. */
  datatype Status =
    | NoMessage
    | StartFailed
    | Congratulations(player: string)
    | AnswerWas(player: string, team: string, league: string)

  class MlbPlayerGuessGame {
    const gameState: GameState
    const dataManager: DataManager
    const searchDropdown: Dropdown.SearchDropdown<Player>
    var status: Status

    /**
     * The data is loaded, the dropdown is set up as `setupSearchDropdown` does
     * (50 results, a player shown by name), and the dropdown and the selection
     * only hold players of the data.
     */
    ghost predicate Wired()
      reads this, gameState, dataManager, searchDropdown
    {
      && searchDropdown.Valid()
      && searchDropdown.maxResults == Dropdown.DefaultMaxResults
      && (forall p: Player :: searchDropdown.displayValue(p) == p.name)
      && dataManager.isLoaded
      && (forall i :: 0 <= i < |searchDropdown.filteredItems| ==> searchDropdown.filteredItems[i] in dataManager.playersData)
      && (gameState.selectedPlayer.Some? ==> gameState.selectedPlayer.value in dataManager.playersData)
    }

    /** Wired, and the round is consistent; without a target there is no data and the round is fresh. */
    ghost predicate Valid()
      reads this, gameState, dataManager, searchDropdown
    {
      && Wired()
      && match gameState.targetPlayer
         case None =>
           dataManager.playersData == [] && gameState.guesses == [] && gameState.wrongGuesses == 0 &&
           !gameState.gameWon && !gameState.gameOver && !gameState.teamHintUsed && !gameState.initialHintUsed
         case Some(target) =>
           Consistent(gameState.guesses, target, gameState.wrongGuesses, gameState.gameWon, gameState.gameOver,
                      gameState.teamHintUsed, gameState.initialHintUsed)
    }

    /** `init()` once `loadPlayersData` has produced `players`: set up the dropdown, then start a round. */
    constructor Init(players: seq<Player>, random: real)
      requires 0.0 <= random < 1.0
      ensures Valid()
      ensures dataManager.playersData == players
      ensures gameState.guesses == [] && gameState.selectedPlayer == None
      ensures gameState.targetPlayer == if players == [] then None else Some(players[RandomIndex(random, |players|)])
      ensures fresh(gameState) && fresh(dataManager) && fresh(searchDropdown)
    {
      gameState := new GameState();
      var data := new DataManager();
      data.LoadPlayers(players);
      dataManager := data;
      searchDropdown := new Dropdown.SearchDropdown<Player>(None, (p: Player) => p.name);
      status := NoMessage;
      new;
      StartNewGame(random);
    }

    /**
     * `startNewGame()`: reset the round and the board, then draw the target;
     * with no players the draw throws and the error message shows.
     */
    method StartNewGame(random: real)
      requires Wired()
      requires 0.0 <= random < 1.0
      modifies this, gameState, searchDropdown
      ensures Valid()
      ensures gameState.guesses == [] && gameState.wrongGuesses == 0 && !gameState.gameWon && !gameState.gameOver
      ensures !gameState.teamHintUsed && !gameState.initialHintUsed && gameState.selectedPlayer == None
      ensures gameState.targetPlayer ==
        if dataManager.playersData == [] then None
        else Some(dataManager.playersData[RandomIndex(random, |dataManager.playersData|)])
      ensures status == if gameState.targetPlayer.None? then StartFailed else NoMessage
      ensures searchDropdown.inputValue == ""
      ensures searchDropdown.filteredItems == old(searchDropdown.filteredItems)
      ensures searchDropdown.isVisible == old(searchDropdown.isVisible)
      ensures searchDropdown.highlightedIndex == old(searchDropdown.highlightedIndex)
      ensures searchDropdown.selectedItem == old(searchDropdown.selectedItem)
      ensures searchDropdown.pendingQuery == old(searchDropdown.pendingQuery)
    {
      gameState.Reset();
      status := NoMessage;
      searchDropdown.inputValue := "";
      var target := dataManager.GetRandomPlayer(random);
      if target.Some? {
        gameState.targetPlayer := target;
      } else {
        status := StartFailed;
      }
    }

    /**
     * `makeGuess()`: ignored without a selection, after the round is over or
     * for a name already guessed. Otherwise the selection is appended; naming
     * the target wins, and otherwise the eighth guess loses; then the search
     * is cleared.
     */
    method MakeGuess()
      requires Valid()
      modifies this, gameState, searchDropdown
      ensures Valid()
      ensures gameState.targetPlayer == old(gameState.targetPlayer)
      ensures old(gameState.selectedPlayer.None? || gameState.IsGameOver() ||
                  gameState.IsGuessAlreadyMade(gameState.selectedPlayer.value.name)) ==>
        unchanged(gameState) && unchanged(searchDropdown) && status == old(status)
      ensures old(gameState.selectedPlayer.Some? && !gameState.IsGameOver() &&
                  !gameState.IsGuessAlreadyMade(gameState.selectedPlayer.value.name)) ==>
        var guess := old(gameState.selectedPlayer.value);
        var target := gameState.targetPlayer.value;
        && gameState.guesses == old(gameState.guesses) + [guess]
        && gameState.gameWon == (guess.name == target.name)
        && gameState.gameOver == (gameState.gameWon || |gameState.guesses| == MaxGuesses)
        && gameState.selectedPlayer == None
        && gameState.teamHintUsed == old(gameState.teamHintUsed)
        && gameState.initialHintUsed == old(gameState.initialHintUsed)
        && searchDropdown.selectedItem == None && searchDropdown.inputValue == "" && !searchDropdown.isVisible
        && searchDropdown.highlightedIndex == -1
        && searchDropdown.filteredItems == old(searchDropdown.filteredItems)
        && searchDropdown.pendingQuery == old(searchDropdown.pendingQuery)
        && status == (if gameState.gameWon then Congratulations(target.name)
                      else if gameState.gameOver then AnswerWas(target.name, target.team, target.league)
                      else old(status))
    {
      var selectedPlayer := gameState.selectedPlayer;
      if selectedPlayer.None? || gameState.IsGameOver() {
        return;
      }
      if gameState.IsGuessAlreadyMade(selectedPlayer.value.name) {
        return;
      }
      RecordGuess(selectedPlayer.value);
      searchDropdown.Clear();
      gameState.selectedPlayer := None;
    }

    /**
     * The part of `makeGuess` after its checks: `addGuess`, then a win on the
     * target's name or, at the eighth guess, the loss, each with its message.
     */
    method RecordGuess(guess: Player)
      requires Valid() && gameState.selectedPlayer == Some(guess)
      requires !gameState.IsGameOver() && !gameState.IsGuessAlreadyMade(guess.name)
      modifies this, gameState
      ensures Valid()
      ensures gameState.targetPlayer == old(gameState.targetPlayer) && gameState.selectedPlayer == Some(guess)
      ensures var target := gameState.targetPlayer.value;
        && gameState.guesses == old(gameState.guesses) + [guess]
        && gameState.gameWon == (guess.name == target.name)
        && gameState.gameOver == (gameState.gameWon || |gameState.guesses| == MaxGuesses)
        && gameState.teamHintUsed == old(gameState.teamHintUsed)
        && gameState.initialHintUsed == old(gameState.initialHintUsed)
        && status == (if gameState.gameWon then Congratulations(target.name)
                      else if gameState.gameOver then AnswerWas(target.name, target.team, target.league)
                      else old(status))
    {
      var target := gameState.targetPlayer.value;
      GuessKeepsConsistent(gameState.guesses, target, gameState.wrongGuesses, gameState.gameWon, gameState.gameOver,
                           gameState.teamHintUsed, gameState.initialHintUsed, guess);
      gameState.AddGuess(guess);
      if guess.name == target.name {
        gameState.SetGameWon();
        status := Congratulations(target.name);
      } else if gameState.IsGameOver() {
        gameState.SetGameOver();
        status := AnswerWas(target.name, target.team, target.league);
      }
    }

    /** `useTeamHint()`: when available, mark it used and reveal the target's team. */
    method UseTeamHint() returns (hint: Option<string>)
      requires Valid()
      modifies gameState
      ensures Valid()
      ensures old(gameState.CanUseTeamHint()) ==>
        gameState.teamHintUsed && hint == Some(gameState.targetPlayer.value.team) && !gameState.CanUseTeamHint()
      ensures !old(gameState.CanUseTeamHint()) ==> hint == None
      ensures gameState.guesses == old(gameState.guesses) && gameState.wrongGuesses == old(gameState.wrongGuesses)
      ensures gameState.gameWon == old(gameState.gameWon) && gameState.gameOver == old(gameState.gameOver)
      ensures gameState.initialHintUsed == old(gameState.initialHintUsed)
      ensures gameState.teamHintUsed == (old(gameState.teamHintUsed) || old(gameState.CanUseTeamHint()))
      ensures gameState.selectedPlayer == old(gameState.selectedPlayer)
      ensures gameState.targetPlayer == old(gameState.targetPlayer)
    {
      if !gameState.CanUseTeamHint() {
        return None;
      }
      gameState.UseTeamHint();
      hint := Some(gameState.targetPlayer.value.team);
    }

    /** `useInitialHint()`: when available, mark it used and reveal the first name's initial. */
    method UseInitialHint() returns (hint: Option<string>)
      requires Valid()
      modifies gameState
      ensures Valid()
      ensures old(gameState.CanUseInitialHint()) ==>
        gameState.initialHintUsed && hint == Some(Initial(gameState.targetPlayer.value.name)) &&
        !gameState.CanUseInitialHint()
      ensures !old(gameState.CanUseInitialHint()) ==> hint == None
      ensures gameState.guesses == old(gameState.guesses) && gameState.wrongGuesses == old(gameState.wrongGuesses)
      ensures gameState.gameWon == old(gameState.gameWon) && gameState.gameOver == old(gameState.gameOver)
      ensures gameState.teamHintUsed == old(gameState.teamHintUsed)
      ensures gameState.initialHintUsed == (old(gameState.initialHintUsed) || old(gameState.CanUseInitialHint()))
      ensures gameState.selectedPlayer == old(gameState.selectedPlayer)
      ensures gameState.targetPlayer == old(gameState.targetPlayer)
    {
      if !gameState.CanUseInitialHint() {
        return None;
      }
      gameState.UseInitialHint();
      hint := Some(Initial(gameState.targetPlayer.value.name));
    }

    /** Typing in the player input starts the dropdown's debounce timer on the trimmed text. */
    method TypeQuery(value: string)
      requires Valid()
      modifies searchDropdown
      ensures Valid()
      ensures searchDropdown.inputValue == value && searchDropdown.pendingQuery == Some(CsvLines.Trim(value))
      ensures searchDropdown.filteredItems == old(searchDropdown.filteredItems)
      ensures searchDropdown.highlightedIndex == old(searchDropdown.highlightedIndex)
      ensures searchDropdown.isVisible == old(searchDropdown.isVisible)
      ensures searchDropdown.selectedItem == old(searchDropdown.selectedItem)
    {
      searchDropdown.HandleInput(value);
    }

    /**
     * The debounce timer fires: an empty query hides the list, any other is
     * searched with `onFilter`, which is `filterPlayers`, and the first 50
     * matches are listed with nothing highlighted.
     */
    method SearchElapsed()
      requires Valid() && searchDropdown.pendingQuery.Some?
      modifies searchDropdown
      ensures Valid()
      ensures searchDropdown.pendingQuery == None
      ensures searchDropdown.selectedItem == old(searchDropdown.selectedItem)
      ensures searchDropdown.inputValue == old(searchDropdown.inputValue)
      ensures searchDropdown.highlightedIndex == -1
      ensures var query := old(searchDropdown.pendingQuery.value);
        query == "" ==> searchDropdown.filteredItems == old(searchDropdown.filteredItems) && !searchDropdown.isVisible
      ensures var query := old(searchDropdown.pendingQuery.value);
        query != "" ==>
          && searchDropdown.filteredItems == Dropdown.Truncate(dataManager.FilterPlayers(query), 50)
          && searchDropdown.isVisible == (searchDropdown.filteredItems != [])
    {
      var query := searchDropdown.pendingQuery.value;
      var results := dataManager.FilterPlayers(query);
      searchDropdown.DebounceElapsed(Some(results));
    }

    /**
     * A key in the player input. Enter on a highlighted row of the open list
     * selects that player (`onSelect`) and shows the name in the input; no
     * other key selects anything, and the round itself never changes.
     */
    method PressKey(key: Dropdown.Key) returns (selected: Option<Player>)
      requires Valid()
      modifies searchDropdown, gameState
      ensures Valid()
      ensures gameState.guesses == old(gameState.guesses) && gameState.targetPlayer == old(gameState.targetPlayer)
      ensures gameState.wrongGuesses == old(gameState.wrongGuesses)
      ensures gameState.gameWon == old(gameState.gameWon) && gameState.gameOver == old(gameState.gameOver)
      ensures gameState.teamHintUsed == old(gameState.teamHintUsed)
      ensures gameState.initialHintUsed == old(gameState.initialHintUsed)
      ensures key.Enter? && old(searchDropdown.isVisible) && old(searchDropdown.highlightedIndex) >= 0 ==>
        selected == Some(old(searchDropdown.filteredItems[searchDropdown.highlightedIndex]))
      ensures !(key.Enter? && old(searchDropdown.isVisible) && old(searchDropdown.highlightedIndex) >= 0) ==>
        selected == None
      ensures selected.Some? ==> selected.value in dataManager.playersData
      ensures gameState.selectedPlayer == if selected.Some? then selected else old(gameState.selectedPlayer)
      ensures selected.Some? ==>
        && searchDropdown.selectedItem == selected && searchDropdown.inputValue == selected.value.name
        && !searchDropdown.isVisible && searchDropdown.highlightedIndex == -1
      ensures selected.None? ==>
        searchDropdown.selectedItem == old(searchDropdown.selectedItem) &&
        searchDropdown.inputValue == old(searchDropdown.inputValue)
      ensures searchDropdown.filteredItems == old(searchDropdown.filteredItems)
      ensures searchDropdown.pendingQuery == old(searchDropdown.pendingQuery)
      // a hidden or empty list ignores every key
      ensures !old(searchDropdown.isVisible) || old(|searchDropdown.filteredItems|) == 0 ==>
        searchDropdown.isVisible == old(searchDropdown.isVisible) &&
        searchDropdown.highlightedIndex == old(searchDropdown.highlightedIndex)
      ensures old(searchDropdown.isVisible) && old(|searchDropdown.filteredItems|) > 0 ==>
        match key
        case ArrowDown =>
          searchDropdown.isVisible &&
          searchDropdown.highlightedIndex ==
            Dropdown.ClampDown(old(searchDropdown.highlightedIndex), |searchDropdown.filteredItems|)
        case ArrowUp =>
          searchDropdown.isVisible &&
          searchDropdown.highlightedIndex == Dropdown.ClampUp(old(searchDropdown.highlightedIndex))
        case Enter =>
          searchDropdown.highlightedIndex == -1 &&
          searchDropdown.isVisible == (old(searchDropdown.highlightedIndex) < 0)
        case Escape =>
          !searchDropdown.isVisible && searchDropdown.highlightedIndex == -1
        case Other =>
          searchDropdown.isVisible && searchDropdown.highlightedIndex == old(searchDropdown.highlightedIndex)
    {
      selected := searchDropdown.HandleKeydown(key);
      if selected.Some? {
        gameState.selectedPlayer := selected;
      }
    }

    /**
     * A click on row `index` of the dropdown selects that player (`onSelect`),
     * puts the name in the input and closes the list; the round itself never changes.
     */
    method ClickSuggestion(index: nat)
      requires Valid() && index < |searchDropdown.filteredItems|
      modifies searchDropdown, gameState
      ensures Valid()
      ensures gameState.selectedPlayer == Some(old(searchDropdown.filteredItems[index]))
      ensures searchDropdown.selectedItem == gameState.selectedPlayer
      ensures searchDropdown.inputValue == old(searchDropdown.filteredItems[index]).name
      ensures !searchDropdown.isVisible && searchDropdown.highlightedIndex == -1
      ensures searchDropdown.filteredItems == old(searchDropdown.filteredItems)
      ensures gameState.guesses == old(gameState.guesses) && gameState.targetPlayer == old(gameState.targetPlayer)
      ensures gameState.wrongGuesses == old(gameState.wrongGuesses)
      ensures gameState.gameWon == old(gameState.gameWon) && gameState.gameOver == old(gameState.gameOver)
      ensures gameState.teamHintUsed == old(gameState.teamHintUsed)
      ensures gameState.initialHintUsed == old(gameState.initialHintUsed)
    {
      var selected := searchDropdown.ClickItem(index);
      gameState.selectedPlayer := Some(selected);
    }
  }
}
