/**
 * The hash router of the site shell (script.js): the allow-list of games,
 * `navigateToGame`, the decoding of `#/home/<id>` in `handleRoute`, and the
 * checks `loadGame` and `loadGameScript` make before a script path is built.
 */
module Router {
  import opened Wrappers
  import JsText

  datatype GameEntry = GameEntry(id: string, name: string)

  /** The `games` list (ids and titles; the descriptions are display text). */
  const Games: seq<GameEntry> := [
    GameEntry("nfl-player-guess", "Guess the NFL Player"),
    GameEntry("mlb-player-guess", "Guess the MLB Player"),
    GameEntry("nba-player-guess", "Guess the NBA Player"),
    GameEntry("mlb-player-comparison", "MLB Player Comparison"),
    GameEntry("mlb-standings-challenge", "MLB Standings Challenge"),
    GameEntry("mlb-division-challenge", "MLB Division Challenge")
  ]

  /** `isValidGame(gameName)`: some entry of the list has this id. */
  predicate IsValidGame(gameName: string) {
    exists i :: 0 <= i < |Games| && Games[i].id == gameName
  }

  /** The allow-list is exactly the six game ids. */
  lemma ValidGames(gameName: string)
    ensures IsValidGame(gameName) <==>
      gameName in {"nfl-player-guess", "mlb-player-guess", "nba-player-guess",
                   "mlb-player-comparison", "mlb-standings-challenge", "mlb-division-challenge"}
  {
    if gameName == "nfl-player-guess" {
      assert Games[0].id == gameName;
    } else if gameName == "mlb-player-guess" {
      assert Games[1].id == gameName;
    } else if gameName == "nba-player-guess" {
      assert Games[2].id == gameName;
    } else if gameName == "mlb-player-comparison" {
      assert Games[3].id == gameName;
    } else if gameName == "mlb-standings-challenge" {
      assert Games[4].id == gameName;
    } else if gameName == "mlb-division-challenge" {
      assert Games[5].id == gameName;
    }
  }

  /** `games.find(g => g.id === gameName)`. */
  function FindGame(gameName: string): (r: Option<GameEntry>)
    ensures r.Some? <==> IsValidGame(gameName)
    ensures r.Some? ==> r.value in Games && r.value.id == gameName
  {
    FindFrom(gameName, 0)
  }

  function FindFrom(gameName: string, from: nat): (r: Option<GameEntry>)
    requires from <= |Games|
    ensures r.Some? <==> exists i :: from <= i < |Games| && Games[i].id == gameName
    ensures r.Some? ==> r.value in Games && r.value.id == gameName
    decreases |Games| - from
  {
    if from == |Games| then None
    else if Games[from].id == gameName then Some(Games[from])
    else FindFrom(gameName, from + 1)
  }

  const HomePrefix := "#/home/"

  /**
   * `navigateToGame(gameName)`: the hash it sets, as `location.hash` reads
   * back; `None` when the name is not a game and nothing changes.
   */
  function NavigateToGame(gameName: string): (r: Option<string>)
    ensures r.Some? <==> IsValidGame(gameName)
    ensures r.Some? ==> r.value == HomePrefix + gameName
  {
    if !IsValidGame(gameName) then None else Some("#/home/" + gameName)
  }

  // ---------------------------------------------------------------------
  // String.prototype.split with a non-empty separator
  // ---------------------------------------------------------------------

  /** `s.split(sep)`: the pieces between the occurrences of `sep`, found left to right. */
  function Split(s: string, sep: string): (pieces: seq<string>)
    requires sep != ""
    ensures |pieces| >= 1
    decreases |s|
  {
    match JsText.IndexOf(s, sep, 0)
    case None => [s]
    case Some(k) => [s[..k]] + Split(s[k + |sep|..], sep)
  }

  function Join(pieces: seq<string>, sep: string): string
    requires |pieces| >= 1
  {
    if |pieces| == 1 then pieces[0] else pieces[0] + sep + Join(pieces[1..], sep)
  }

  /** Joining a first piece onto further pieces puts the separator between them. */
  lemma JoinCons(first: string, rest: seq<string>, sep: string)
    requires |rest| >= 1
    ensures Join([first] + rest, sep) == first + sep + Join(rest, sep)
  {
    assert ([first] + rest)[1..] == rest;
  }

  /** Text with `sep` at position `k` is what comes before it, `sep`, and what comes after. */
  lemma OccurrenceSplits(s: string, sep: string, k: nat)
    requires JsText.OccursAt(s, sep, k)
    ensures s == s[..k] + sep + s[k + |sep|..]
  {
    assert s == s[..k] + s[k..k + |sep|] + s[k + |sep|..];
  }

  /** Splitting loses nothing: joining the pieces with the separator gives the text back. */
  lemma {:induction false} JoinSplit(s: string, sep: string)
    requires sep != ""
    ensures Join(Split(s, sep), sep) == s
    decreases |s|
  {
    match JsText.IndexOf(s, sep, 0)
    case None =>
    case Some(k) =>
      var rest := s[k + |sep|..];
      var tail := Split(rest, sep);
      JoinSplit(rest, sep);
      JoinCons(s[..k], tail, sep);
      OccurrenceSplits(s, sep, k);
  }

  /** No piece contains the separator. */
  lemma {:induction false} SplitPiecesFree(s: string, sep: string)
    requires sep != ""
    ensures forall i :: 0 <= i < |Split(s, sep)| ==> !JsText.Includes(Split(s, sep)[i], sep)
    decreases |s|
  {
    match JsText.IndexOf(s, sep, 0)
    case None =>
      JsText.IncludesOccurs(s, sep);
    case Some(k) =>
      var piece := s[..k];
      SplitPiecesFree(s[k + |sep|..], sep);
      forall j | 0 <= j && j + |sep| <= |piece|
        ensures !JsText.OccursAt(piece, sep, j)
      {
        assert j < k;
        assert !JsText.OccursAt(s, sep, j);
        assert piece[j..j + |sep|] == s[j..j + |sep|];
      }
      JsText.IncludesOccurs(piece, sep);
      assert Split(s, sep) == [piece] + Split(s[k + |sep|..], sep);
  }

  // ---------------------------------------------------------------------
  // handleRoute, loadGame, loadGameScript
  // ---------------------------------------------------------------------

  /** `loadGameScript(gameName)`: the script path, or the error for a name off the list. */
  function LoadGameScript(gameName: string): (r: Result<string, string>)
    ensures r.Ok? <==> IsValidGame(gameName)
    ensures r.Ok? ==> r.value == "games/" + gameName + ".js"
    ensures r.Err? ==> r.error == "Invalid game"
  {
    if !IsValidGame(gameName) then Err("Invalid game") else Ok("games/" + gameName + ".js")
  }

  /** What the page does for a game name. */
  datatype Screen =
    | ShowError(message: string)
    | Loading(game: GameEntry, scriptSrc: string)

  /**
   * `loadGame(gameName)`: the placeholder for a listed game while its script
   * loads; 'Game not found' for any other name.
   */
  function LoadGame(gameName: string): (s: Screen)
    ensures s.Loading? <==> IsValidGame(gameName)
    ensures s.Loading? ==> s.game in Games && s.game.id == gameName && s.scriptSrc == "games/" + gameName + ".js"
    ensures !s.Loading? ==> s == ShowError("Game not found")
  {
    match FindGame(gameName)
    case None => ShowError("Game not found")
    case Some(game) =>
      match LoadGameScript(gameName)
      case Err(message) => ShowError(message)
      case Ok(src) => Loading(game, src)
  }

  datatype Route = ToScreen(screen: Screen) | Homepage | NoChange

  /**
   * `handleRoute()` for the current `location.hash`: `#/home/<name>` loads a
   * listed game or shows 'Invalid game', the three home hashes show the
   * homepage, and any other hash changes nothing.
   */
  function HandleRoute(hash: string): (r: Route)
    ensures r.ToScreen? <==> JsText.StartsWith(hash, HomePrefix) && hash != HomePrefix
    ensures r == Homepage <==> hash == "" || hash == "#" || hash == "#/"
    ensures r.ToScreen? ==> (r.screen.Loading? <==> IsValidGame(Split(hash, HomePrefix)[1]))
    ensures r.ToScreen? && r.screen.ShowError? ==> r.screen.message == "Invalid game"
    ensures r.ToScreen? && r.screen.Loading? ==>
      && r.screen.game in Games && r.screen.scriptSrc == "games/" + r.screen.game.id + ".js"
      && r.screen.game.id == Split(hash, HomePrefix)[1]
  {
    if JsText.StartsWith(hash, HomePrefix) && hash != HomePrefix then
      var gameName := Split(hash, HomePrefix)[1];
      if !IsValidGame(gameName) then ToScreen(ShowError("Invalid game"))
      else ToScreen(LoadGame(gameName))
    else if hash == "" || hash == "#" || hash == "#/" then Homepage
    else NoChange
  }

  /** The name `handleRoute` decodes: the text after the leading `#/home/`, up to any further one. */
  lemma RouteName(hash: string)
    requires JsText.StartsWith(hash, HomePrefix)
    ensures |Split(hash, HomePrefix)| >= 2
    ensures Split(hash, HomePrefix)[1] == Split(hash[|HomePrefix|..], HomePrefix)[0]
  {
    assert JsText.OccursAt(hash, HomePrefix, 0);
    assert JsText.IndexOf(hash, HomePrefix, 0) == Some(0);
  }

  /** A name without '#' holds no `#/home/`. */
  lemma NoPrefixWithoutHash(name: string)
    requires '#' !in name
    ensures JsText.IndexOf(name, HomePrefix, 0) == None
  {
    forall j | 0 <= j && j + |HomePrefix| <= |name|
      ensures !JsText.OccursAt(name, HomePrefix, j)
    {
      assert name[j] != '#';
      assert name[j..j + |HomePrefix|][0] == name[j];
    }
  }

  /** A listed game's id is non-empty and free of '#'. */
  lemma ValidNamePlain(gameName: string)
    requires IsValidGame(gameName)
    ensures gameName != "" && '#' !in gameName
  {
    ValidGames(gameName);
    if gameName in {"nfl-player-guess", "mlb-player-guess", "nba-player-guess"} {
      FirstIdsPlain(gameName);
    } else {
      LastIdsPlain(gameName);
    }
  }

  lemma FirstIdsPlain(gameName: string)
    requires gameName in {"nfl-player-guess", "mlb-player-guess", "nba-player-guess"}
    ensures gameName != "" && '#' !in gameName
  {
    if gameName == "nfl-player-guess" {
    } else if gameName == "mlb-player-guess" {
    } else {
      assert gameName == "nba-player-guess";
    }
  }

  lemma LastIdsPlain(gameName: string)
    requires gameName in {"mlb-player-comparison", "mlb-standings-challenge", "mlb-division-challenge"}
    ensures gameName != "" && '#' !in gameName
  {
    if gameName == "mlb-player-comparison" {
    } else if gameName == "mlb-standings-challenge" {
    } else {
      assert gameName == "mlb-division-challenge";
    }
  }

  /** The hash of a non-empty name without '#' splits into the empty prefix and the name. */
  lemma SplitHomeHash(name: string)
    requires '#' !in name
    ensures Split(HomePrefix + name, HomePrefix) == ["", name]
  {
    var hash := HomePrefix + name;
    assert JsText.OccursAt(hash, HomePrefix, 0);
    assert hash[..0] == "";
    assert hash[|HomePrefix|..] == name;
    NoPrefixWithoutHash(name);
  }

  /** Navigating to a game and routing the hash it sets loads that game's script. */
  lemma NavigateThenRoute(gameName: string)
    requires IsValidGame(gameName)
    ensures var hash := NavigateToGame(gameName).value;
      var game := FindGame(gameName).value;
      HandleRoute(hash) == ToScreen(Loading(game, "games/" + gameName + ".js"))
  {
    ValidNamePlain(gameName);
    SplitHomeHash(gameName);
    var hash := HomePrefix + gameName;
    assert JsText.StartsWith(hash, HomePrefix);
    assert hash != HomePrefix;
  }
}
