/**
 * MyAdventureService.java: the web service that keeps one game engine, a
 * table of game statuses keyed by game id, and the last id handed out.
 */
module Service {
  import opened Wrappers
  import opened Rooms
  import opened Layouts
  import opened Interpreter
  import opened Status
  import opened Engine

  /** The message of the AdventureException newGame throws when the world cannot be started. */
  const INVALID_IMPORT := "Invalid Import JSON file"

  class MyAdventureService {
    /** The content of the world file "game.json" (None when it cannot be read or parsed). */
    const world: Option<WorldFile>
    var game: GameEngine
    var allGamesID: map<int, GameStatus>
    var currentID: int

    /**
     * What every operation keeps: ids are never negative; each stored status
     * carries its own id, an id between 1 and the last id handed out, and a
     * player the engine has placed and keeps a history for; the engine's
     * index is empty or built from the world file, and the engine keeps its
     * players placed in rooms whose names the index holds.
     */
    ghost predicate Valid()
      reads this, game
    {
      && 0 <= currentID
      && (game.roomsMap == map[] || (world.Some? && game.roomsMap.Keys == NameSet(world.value)))
      && PlayersPlaced(game.roomsMap, game.playerPosition)
      && GamesKept(allGamesID, currentID, game.playerPosition.Keys, game.playerTraversalHistory.Keys)
    }

    /** The service as first created: a new engine, no games and id 0. */
    constructor (world: Option<WorldFile>)
      ensures Valid() && fresh(game)
      ensures this.world == world && currentID == 0 && allGamesID == map[]
      ensures EmptyEngine(game)
    {
      this.world := world;
      game := new GameEngine();
      allGamesID := map[];
      currentID := 0;
    }

    /** MyAdventureService.reset: back to id 0, a new engine and no games. */
    method Reset()
      requires Valid()
      modifies this
      ensures Valid() && fresh(game)
      ensures currentID == 0 && allGamesID == map[]
      ensures EmptyEngine(game)
    {
      currentID := 0;
      game := new GameEngine();
      allGamesID := map[];
    }

    /**
     * MyAdventureService.newGame: takes the next id, even when the world
     * cannot be started, and starts that player in the engine. A world that
     * cannot be started fails with the import message and stores nothing;
     * otherwise the new game's status is stored under the new id, which no
     * stored game had, and the id is returned.
     */
    method NewGame() returns (r: Result<int, string>)
      requires Valid()
      modifies this, game
      ensures Valid() && game == old(game)
      ensures currentID == old(currentID) + 1
      ensures r.Err? <==> world.None? || WorldValidity(world.value).Some?
      ensures r.Err? ==> r.error == INVALID_IMPORT && allGamesID == old(allGamesID) && unchanged(game)
      ensures r.Ok? ==> r.value == currentID && currentID !in old(allGamesID)
      ensures r.Ok? ==>
                && world.Some? && world.value.startingRoom.Some? && world.value.startingRoom.value in game.roomsMap
                && currentID in game.playerPosition && currentID in game.playerTraversalHistory
      ensures r.Ok? ==> game.roomsMap.Keys == NameSet(world.value) && IndexBuiltFrom(game.roomsMap, world.value)
      ensures r.Ok? ==>
                var start := game.roomsMap[world.value.startingRoom.value];
                && game.playerPosition == old(game.playerPosition)[currentID := start]
                && game.playerTraversalHistory == old(game.playerTraversalHistory)[currentID := [start.name]]
                && allGamesID == old(allGamesID)[currentID :=
                     GameStatus(false, currentID, start.description, true, None, game.GetCommandOptions(start, currentID))]
      ensures r.Ok? ==>
                && game.itemsCollected == old(game.itemsCollected)
                && game.playerItemsCollected == old(game.playerItemsCollected)
                && game.traversalHistory == old(game.traversalHistory)
    {
      currentID := currentID + 1;
      var started := game.StartGame(world, currentID);
      if started.Err? {
        return Err(INVALID_IMPORT);
      }
      var currentGame := started.value;
      allGamesID := allGamesID[currentGame.id := currentGame];
      r := Ok(currentGame.id);
      NewIndexKeepsPlayersPlaced(old(game.roomsMap), game.roomsMap, old(game.playerPosition), currentID, game.playerPosition[currentID]);
    }

    /** MyAdventureService.getGame: the stored status, None (null in the source) for an unknown id. */
    function GetGame(id: int): (status: Option<GameStatus>)
      reads this
      ensures status.Some? <==> id in allGamesID
      ensures status.Some? ==> status.value == allGamesID[id]
    {
      if id in allGamesID then Some(allGamesID[id]) else None
    }

    /**
     * MyAdventureService.destroyGame: false for an unknown id; otherwise the
     * game is removed and true is returned. The engine keeps the player's
     * position, history and items.
     */
    method DestroyGame(id: int) returns (removed: bool)
      requires Valid()
      modifies this`allGamesID
      ensures Valid()
      ensures removed <==> id in old(allGamesID)
      ensures allGamesID == old(allGamesID) - {id}
    {
      if id !in allGamesID {
        return false;
      }
      allGamesID := allGamesID - {id};
      // the source checks containsKey once more; the removal above rules that out
      return true;
    }

    /**
     * MyAdventureService.executeCommand: runs the command for the stored game
     * of `id` and stores the status the engine returns under the same id.
     * An unknown id reaches the engine as a null status, which throws
     * NullPointerException before anything changes; when the engine itself
     * throws, nothing is stored, but what the engine changed stays changed.
     */
    method ExecuteCommand(id: int, command: Command) returns (thrown: Option<JavaException>)
      requires Valid()
      modifies this`allGamesID, game, if id in allGamesID then {game.playerPosition[id]} else {}
      ensures Valid()
      ensures game.roomsMap == old(game.roomsMap) && game.traversalHistory == old(game.traversalHistory)
      ensures id !in old(allGamesID) ==>
                thrown == Some(NullPointerException) && allGamesID == old(allGamesID) && unchanged(game)
      ensures thrown.Some? ==> allGamesID == old(allGamesID)
      ensures id in old(allGamesID) ==> id in game.playerPosition && id in game.playerTraversalHistory
      ensures thrown.None? ==>
                && id in old(allGamesID)
                && allGamesID == old(allGamesID)[id := game.ServerStatus(id, command.commandName)]
      ensures id in old(allGamesID) && command.commandName == "go" ==>
                var step := old(game.GoGame(game.playerPosition[id].name, ConvertedCommand(command)));
                && (thrown.None? <==> step.room.Some?)
                && (step.room.Some? ==>
                      && game.playerPosition == old(game.playerPosition)[id := step.room.value]
                      && game.playerTraversalHistory ==
                           old(game.playerTraversalHistory)[id := old(game.playerTraversalHistory[id]) + [step.room.value.name]])
                && (step.room.None? ==>
                      game.playerPosition == old(game.playerPosition) &&
                      game.playerTraversalHistory == old(game.playerTraversalHistory))
      ensures command.commandName != "go" ==>
                game.playerPosition == old(game.playerPosition) &&
                game.playerTraversalHistory == old(game.playerTraversalHistory)
      ensures command.commandName !in {"take", "drop"} ==>
                game.itemsCollected == old(game.itemsCollected) && game.playerItemsCollected == old(game.playerItemsCollected)
      ensures id in old(allGamesID) && command.commandName !in {"take", "drop"} ==>
                old(game.playerPosition[id]).items == old(game.playerPosition[id].items)
      ensures id in old(allGamesID) && command.commandName in {"take", "drop"} ==>
                var room := game.playerPosition[id];
                var o := OperateItem(old(room.ItemList()), old(game.itemsCollected), ParseItem(ConvertedCommand(command)));
                var rec := RecordForPlayer(old(game.playerItemsCollected), id, ConvertedCommand(command), o.handled);
                && room.ItemList() == o.items && game.itemsCollected == o.collected
                && (thrown.None? <==> o.signal != NoItemList && rec.Some?)
                && game.playerItemsCollected == (if thrown.None? then rec.value else old(game.playerItemsCollected))
      ensures id in old(allGamesID) && command.commandName !in {"go", "take", "drop"} ==> thrown.None?
    {
      if id !in allGamesID {
        // runGameServer dereferences the null status first
        return Some(NullPointerException);
      }
      var currentStatus := allGamesID[id];
      assert currentStatus.id == id;
      ghost var before := game.playerPosition;
      GoLandsInIndex(game, before[id].name, ConvertedCommand(command));
      var newStatus := game.RunGameServer(currentStatus, command);
      if command.commandName == "go" {
        MoveKeepsPlayersPlaced(game.roomsMap, before, id, game.playerPosition[id]);
      }
      assert PlayersPlaced(game.roomsMap, game.playerPosition);
      if newStatus.Err? {
        return Some(newStatus.error);
      }
      ghost var shown := game.ServerStatus(id, command.commandName);
      assert newStatus.value == shown && shown.id == id;
      StoreKeepsGamesKept(allGamesID, currentID, game.playerPosition.Keys, game.playerTraversalHistory.Keys, shown);
      allGamesID := allGamesID[newStatus.value.id := newStatus.value];
      assert allGamesID == old(allGamesID)[id := shown];
      assert shown == game.ServerStatus(id, command.commandName);
      thrown := None;
    }
  }

  // ---------------------------------------------------------------- lemmas

  /** An engine as GameEngine's constructor leaves it: no rooms, no items collected, no players, no history. */
  ghost predicate EmptyEngine(game: GameEngine)
    reads game
  {
    && game.roomsMap == map[] && game.itemsCollected == [] && game.playerItemsCollected == map[]
    && game.playerPosition == map[] && game.playerTraversalHistory == map[] && game.traversalHistory == []
  }

  /**
   * The engine's index files every room under its name, and every placed
   * player stands in a room whose name the index holds.
   */
  predicate PlayersPlaced(index: map<string, Room>, positions: map<int, Room>)
  {
    && NamesFiled(index)
    && forall p :: p in positions ==> positions[p].name in index
  }

  /**
   * Each stored status carries its own id, an id between 1 and the last id
   * handed out, whose player has a position and a history.
   */
  predicate GamesKept(games: map<int, GameStatus>, lastID: int, placed: set<int>, tracked: set<int>)
  {
    forall id :: id in games ==>
      && games[id].id == id && 1 <= id <= lastID
      && id in placed && id in tracked
  }

  /** Storing a status under its own id, a stored one, keeps the stored games as they must be. */
  lemma {:induction false} StoreKeepsGamesKept(games: map<int, GameStatus>, lastID: int, placed: set<int>, tracked: set<int>,
                                               status: GameStatus)
    requires GamesKept(games, lastID, placed, tracked) && status.id in games
    ensures GamesKept(games[status.id := status], lastID, placed, tracked)
  {
  }

  /**
   * Rebuilding the index from the same world and placing one more player in
   * a room of the new index keeps every placed player placed: the names are
   * the same.
   */
  lemma {:induction false} NewIndexKeepsPlayersPlaced(oldIndex: map<string, Room>, newIndex: map<string, Room>,
                                   before: map<int, Room>, id: int, start: Room)
    requires PlayersPlaced(oldIndex, before)
    requires oldIndex == map[] || oldIndex.Keys == newIndex.Keys
    requires NamesFiled(newIndex)
    requires start.name in newIndex
    ensures PlayersPlaced(newIndex, before[id := start])
  {
  }

  /** Moving a player to a room of the index keeps every player placed. */
  lemma {:induction false} MoveKeepsPlayersPlaced(index: map<string, Room>, positions: map<int, Room>, id: int, room: Room)
    requires PlayersPlaced(index, positions)
    requires room.name in index
    ensures PlayersPlaced(index, positions[id := room])
  {
  }
}
