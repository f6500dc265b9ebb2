/**
 * GameEngine.java: the engine's state (the room index, the items collected
 * in the terminal game, and each web player's position, history and items)
 * and the operations that read and change it.
 */
module Engine {
  import opened Wrappers
  import opened JavaStrings
  import opened JavaCollections
  import opened Rooms
  import opened Layouts
  import opened Interpreter
  import opened Status

  /** What goGame returns (None where the source returns null) and what it would report. */
  datatype GoStep = GoStep(room: Option<Room>, signal: GoSignal)

  /**
   * How runGameTerminal ends: the player reached the ending room, quit, the
   * input ran out, or a NullPointerException stopped the game.
   */
  datatype TerminalOutcome = Won | Quit | InputEnded | Crashed

  const WELCOME := "Welcome to the adventure in Slayer. Wish you good luck!"
  const QUIT_LINE := "You successfully quit the game."
  const WIN_LINE := "Congratulation! You win the game!"

  /** The validity check gameValidity makes, applied to the file's own fields. */
  function WorldValidity(doc: WorldFile): Option<LoadError>
  {
    GameValidity(doc.startingRoom, doc.endingRoom, FileRoomNames(doc))
  }

  /** The command text runGameServer hands to the terminal functions. */
  function ConvertedCommand(c: Command): string
  {
    if c.commandName == "examine" then "examine" else c.commandName + " " + c.commandValue
  }

  /** A line printed only when there is one. */
  function Lines(line: Option<string>): seq<string>
  {
    if line.None? then [] else [line.value]
  }

  /** What the terminal loop does with a line, tried in the loop's order. */
  datatype LineKind = ExitLine | ExamineLine | ItemLine(command: ItemCommand) | HistoryLine | MoveLine

  /**
   * runGameTerminal's dispatch: exit and quit first, then examine, then the
   * item commands, then view history; everything else goes to goGame.
   */
  function Dispatch(line: string): LineKind
  {
    if CheckExit(line) then ExitLine
    else if CheckExamine(line) then ExamineLine
    else if !ParseItem(line).NoItemCommand? then ItemLine(ParseItem(line))
    else if CheckHistory(line) then HistoryLine
    else MoveLine
  }

  /** For each typed line, whether the terminal loop reads it (trimmed) as exit or quit. */
  function ExitLines(inputs: seq<string>): (exits: seq<bool>)
    ensures |exits| == |inputs|
  {
    seq(|inputs|, k requires 0 <= k < |inputs| => CheckExit(Trim(inputs[k])))
  }

  /**
   * The terminal loop has read the first `read` typed lines: none of them
   * but the last reads as exit or quit, and one of them does exactly when
   * the game was quit.
   */
  ghost predicate ReadUntilExit(inputs: seq<string>, read: nat, quit: bool)
  {
    && read <= |inputs|
    && (forall k :: 0 <= k < read - 1 ==> !ExitLines(inputs)[k])
    && (quit ==> exists k :: 0 <= k < read && ExitLines(inputs)[k])
    && (!quit ==> forall k :: 0 <= k < read ==> !ExitLines(inputs)[k])
  }

  /** Whether the terminal loop hands the (trimmed) line to goGame. */
  predicate IsMove(line: string)
  {
    Dispatch(line) == MoveLine
  }

  /** For each typed line, whether the terminal loop hands it (trimmed) to goGame. */
  function MoveLines(inputs: seq<string>): (moves: seq<bool>)
    ensures |moves| == |inputs|
  {
    seq(|inputs|, k requires 0 <= k < |inputs| => IsMove(Trim(inputs[k])))
  }

  /**
   * `moves` marks the typed lines the terminal loop hands to goGame. The
   * link is drawn only where a line is asked IsMove, so that a loop
   * counting marks need not unfold how each line is read.
   */
  ghost predicate MovesOf(inputs: seq<string>, moves: seq<bool>)
  {
    && |moves| == |inputs|
    && forall k {:trigger IsMove(Trim(inputs[k]))} :: 0 <= k < |inputs| ==> (moves[k] <==> IsMove(Trim(inputs[k])))
  }

  /** How many of the first `n` entries of `marks` are set. */
  function Marked(marks: seq<bool>, n: nat): nat
    requires n <= |marks|
  {
    if n == 0 then 0 else Marked(marks, n - 1) + (if marks[n - 1] then 1 else 0)
  }

  /** GameEngine.checkIfExit: the line that closes a terminal game. */
  function CheckIfExit(quitFlag: bool): string
  {
    if quitFlag then QUIT_LINE else WIN_LINE
  }

  /**
   * GameEngine.printSpecification: the description alone in the ending room
   * (its name compared ignoring case), otherwise followed by the directions
   * and the visible items.
   */
  function SpecificationLines(currRoom: Room, endingRoomName: string): (lines: seq<string>)
    reads currRoom
    ensures |lines| >= 1 && lines[0] == currRoom.description
    ensures |lines| == 1 <==> Lower(endingRoomName) == Lower(currRoom.name)
  {
    EqualsIgnoreCaseIff(endingRoomName, currRoom.name);
    if EqualsIgnoreCase(endingRoomName, currRoom.name) then [currRoom.description]
    else
      [currRoom.description,
       "From here, you can go: " + ListLine(Some(currRoom.GetDirections())),
       "Items visible: " + ListLine(currRoom.GetItems())]
  }

  /** GameEngine.printSpecification, printing each list with printList. */
  method PrintSpecification(currRoom: Room, endingRoomName: string) returns (lines: seq<string>)
    ensures lines == SpecificationLines(currRoom, endingRoomName)
  {
    if EqualsIgnoreCase(endingRoomName, currRoom.name) {
      lines := [currRoom.description];
    } else {
      var directionsLine := PrintList(Some(currRoom.GetDirections()));
      var itemsLine := PrintList(currRoom.GetItems());
      lines := [currRoom.description, "From here, you can go: " + directionsLine, "Items visible: " + itemsLine];
    }
  }

  class GameEngine {
    var roomsMap: map<string, Room>
    var itemsCollected: seq<string>
    var playerItemsCollected: map<int, seq<string>>
    var playerPosition: map<int, Room>
    var playerTraversalHistory: map<int, seq<string>>
    var traversalHistory: seq<string>

    constructor ()
      ensures roomsMap == map[] && itemsCollected == [] && playerItemsCollected == map[]
      ensures playerPosition == map[] && playerTraversalHistory == map[] && traversalHistory == []
    {
      roomsMap := map[];
      itemsCollected := [];
      playerItemsCollected := map[];
      playerPosition := map[];
      playerTraversalHistory := map[];
      traversalHistory := [];
    }

    /** GameEngine.setMapLayout: files each room under its name, one put per room in room order. */
    method SetMapLayout(layoutInput: Layout) returns (index: map<string, Room>)
      requires layoutInput.rooms.Some?
      modifies this`roomsMap
      ensures roomsMap == RoomIndex(layoutInput.rooms.value) && index == roomsMap
    {
      var roomArray := layoutInput.rooms.value;
      var entries := RoomEntries(roomArray);
      roomsMap := map[];
      for i := 0 to |roomArray|
        invariant roomsMap == PutAll(entries[..i])
      {
        PutAllStep(entries, i);
        roomsMap := roomsMap[roomArray[i].name := roomArray[i]];
      }
      assert entries[..|roomArray|] == entries;
      index := roomsMap;
    }

    /**
     * GameEngine.loadJson on the file's content (None when it cannot be read
     * or parsed): builds the rooms, refuses an invalid world before touching
     * the index, and otherwise rebuilds the index from the new rooms.
     */
    method LoadJson(file: Option<WorldFile>) returns (r: Result<Layout, LoadError>)
      modifies this`roomsMap
      ensures file.None? ==> r == Err(Unreadable)
      ensures file.Some? ==> (r.Err? <==> WorldValidity(file.value).Some?)
      ensures file.Some? && r.Err? ==> r.error == WorldValidity(file.value).value
      ensures r.Err? ==> roomsMap == old(roomsMap)
      ensures r.Ok? ==>
                && file.Some? && LayoutOf(r.value, file.value) && r.value.rooms.Some?
                && (forall room :: room in r.value.rooms.value ==> fresh(room))
                && roomsMap == RoomIndex(r.value.rooms.value)
      ensures r.Ok? ==>
                && roomsMap.Keys == NameSet(file.value)
                && NamesFiled(roomsMap)
                && (EdgesResolve(file.value) ==> IndexResolves(roomsMap))
                && (ItemListsPresent(file.value) ==> RoomsListed(roomsMap))
    {
      if file.None? {
        return Err(Unreadable);
      }
      var layout := Materialize(file.value);
      LayoutOfNames(layout, file.value);
      var failure := GameValidity(layout.startingRoom, layout.endingRoom,
                                  if layout.rooms.None? then None else Some(RoomsName(layout)));
      if failure.Some? {
        return Err(failure.value);
      }
      var _ := SetMapLayout(layout);
      RoomIndexOfFile(layout, file.value);
      RoomIndexSound(layout.rooms.value);
      r := Ok(layout);
    }

    /**
     * What startGame and runGameTerminal rely on from loadJson: the refusals,
     * and for a valid world an index keyed by the file's room names, each
     * room fresh and filed under its own name, whose edges resolve when the
     * file's do and whose rooms all have item lists when the file's entries do.
     */
    method LoadIndex(file: Option<WorldFile>) returns (r: Result<Layout, LoadError>)
      modifies this`roomsMap
      ensures r.Err? <==> file.None? || WorldValidity(file.value).Some?
      ensures r.Err? ==> r.error == (if file.None? then Unreadable else WorldValidity(file.value).value)
      ensures r.Err? ==> roomsMap == old(roomsMap)
      ensures r.Ok? ==>
                && roomsMap.Keys == NameSet(file.value)
                && r.value.startingRoom == file.value.startingRoom && r.value.endingRoom == file.value.endingRoom
                && (forall n :: n in roomsMap ==> fresh(roomsMap[n]) && roomsMap[n].name == n)
                && (EdgesResolve(file.value) ==> IndexResolves(roomsMap))
                && (ItemListsPresent(file.value) ==> RoomsListed(roomsMap))
      ensures r.Ok? ==>
                && IndexBuiltFrom(roomsMap, file.value) && IndexOfFile(roomsMap, file.value)
    {
      r := LoadJson(file);
      if r.Ok? {
        RoomIndexSound(r.value.rooms.value);
        RoomIndexBuiltFrom(r.value, file.value);
      }
    }

    /**
     * GameEngine.startGame for player `currentId`: loads the world and, when
     * it is valid, places the player in the starting room of the new index
     * with a history holding just that room's name.
     */
    method StartGame(file: Option<WorldFile>, currentId: int) returns (r: Result<GameStatus, LoadError>)
      modifies this
      ensures r.Err? <==> file.None? || WorldValidity(file.value).Some?
      ensures r.Err? ==> r.error == if file.None? then Unreadable else WorldValidity(file.value).value
      ensures r.Err? ==> unchanged(this)
      ensures r.Ok? ==>
                && roomsMap.Keys == NameSet(file.value)
                && (forall n :: n in roomsMap ==> fresh(roomsMap[n]))
                && NamesFiled(roomsMap)
                && (EdgesResolve(file.value) ==> IndexResolves(roomsMap))
                && IndexBuiltFrom(roomsMap, file.value)
      ensures r.Ok? ==>
                var start := roomsMap[file.value.startingRoom.value];
                && start.name == file.value.startingRoom.value
                && playerPosition == old(playerPosition)[currentId := start]
                && playerTraversalHistory == old(playerTraversalHistory)[currentId := [start.name]]
                && r.value == GameStatus(false, currentId, start.description, true, None, GetCommandOptions(start, currentId))
      ensures r.Ok? ==>
                && itemsCollected == old(itemsCollected) && playerItemsCollected == old(playerItemsCollected)
                && traversalHistory == old(traversalHistory)
      ensures r.Ok? ==>
                var start := roomsMap[file.value.startingRoom.value];
                var entry := file.value.rooms.value[LastEntry(file.value.rooms.value, start.name)];
                && r.value.message == entry.description
                && start.directions == entry.directions && start.ItemList() == entry.items
    {
      var layout := LoadIndex(file);
      if layout.Err? {
        return Err(layout.error);
      }
      var startRoom := roomsMap[layout.value.startingRoom.value];
      var currentGame := GameStatus(false, currentId, startRoom.description, true, None, GetCommandOptions(startRoom, currentId));
      playerPosition := playerPosition[currentId := startRoom];
      var traversed := [startRoom.name];
      playerTraversalHistory := playerTraversalHistory[currentId := traversed];
      return Ok(currentGame);
    }

    /**
     * GameEngine.getCommandOptions: the room's directions under "go", its
     * items under "take" (absent when it has no list), a single empty
     * argument under "examine" and "view history", and the player's items,
     * if any, under "drop".
     */
    function GetCommandOptions(currentRoom: Room, playerID: int): (options: CommandOptions)
      reads this`playerItemsCollected, currentRoom
      ensures options.Keys == {"go", "take", "examine", "view history", "drop"}
    {
      map["go" := Some(currentRoom.GetDirections()),
          "take" := currentRoom.GetItems(),
          "examine" := Some([""]),
          "view history" := Some([""]),
          "drop" := if playerID in playerItemsCollected then Some(playerItemsCollected[playerID]) else None]
    }

    /**
     * GameEngine.goGame: a line no longer than "go ", or one not starting with
     * "go " in any case, is not understood and leaves the player in the named
     * room; a label the room has no edge for leaves the player there too;
     * otherwise the player moves to the room the edge names (None if the index
     * has no such room).
     */
    function GoGame(roomInput: string, userDirection: string): (step: GoStep)
      reads this`roomsMap
      requires ParseGo(userDirection).GoTo? ==> roomInput in roomsMap
    {
      var currRoom := if roomInput in roomsMap then Some(roomsMap[roomInput]) else None;
      match ParseGo(userDirection)
      case TooShort => GoStep(currRoom, NotUnderstoodShort)
      case NotGo => GoStep(currRoom, NotUnderstood)
      case GoTo(key) =>
        var currDirections := roomsMap[roomInput].ConstructDirectionMap();
        if key !in currDirections then GoStep(currRoom, CannotGo)
        else
          var newRoomKey := currDirections[key];
          GoStep(if newRoomKey in roomsMap then Some(roomsMap[newRoomKey]) else None, Moved)
    }

    /**
     * What goGame reports: the player moves exactly when the line is a go
     * command whose lowercased, trimmed label is one of the labels
     * getDirections lists for the room; "not understood, too short" exactly
     * for a line no longer than "go "; and on every other outcome the player
     * stays in the named room.
     */
    lemma {:induction false} GoGameOutcome(roomInput: string, userDirection: string)
      requires ParseGo(userDirection).GoTo? ==> roomInput in roomsMap
      ensures var step := GoGame(roomInput, userDirection);
              && (step.signal == Moved <==>
                    ParseGo(userDirection).GoTo? &&
                    ParseGo(userDirection).key in roomsMap[roomInput].GetDirections())
              && (step.signal == NotUnderstoodShort <==> |userDirection| <= GO_PREFIX)
              && (step.signal != Moved ==>
                    step.room == if roomInput in roomsMap then Some(roomsMap[roomInput]) else None)
    {
      if ParseGo(userDirection).GoTo? {
        DirectionMapKeys(roomsMap[roomInput]);
      }
    }

    /**
     * The status runGameServer returns once it has carried out a command for
     * a player: the history text without the image for "view history",
     * otherwise the description of the room the player stands in; in both
     * cases with the command options of that room.
     */
    function ServerStatus(playerID: int, commandName: string): GameStatus
      requires playerID in playerPosition
      requires commandName == "view history" ==> playerID in playerTraversalHistory
      reads this, playerPosition[playerID]
    {
      var room := playerPosition[playerID];
      GameStatus(false, playerID,
                 if commandName == "view history" then HistoryMessage(playerTraversalHistory[playerID]) else room.description,
                 commandName != "view history", None, GetCommandOptions(room, playerID))
    }

    /**
     * GameEngine.runGameServer: carries out one web command for the player of
     * `currentGame`. "go" moves the player as goGame says and extends the
     * player's history even when the move fails; "view history" shows the
     * history; "take" and "drop" run the web item wrapper in the player's
     * room; every other command shows the room again. A move along an edge
     * to a room the index lacks, and a take or drop the item wrapper cannot
     * carry out, throw NullPointerException (Err): a failed move changes
     * nothing, a failed item command keeps what checkOperateItem changed.
     */
    method RunGameServer(currentGame: GameStatus, currentCommand: Command) returns (r: Result<GameStatus, JavaException>)
      requires currentGame.id in playerPosition
      requires currentCommand.commandName in {"go", "view history"} ==> currentGame.id in playerTraversalHistory
      requires currentCommand.commandName == "go" && ParseGo(ConvertedCommand(currentCommand)).GoTo? ==>
                 playerPosition[currentGame.id].name in roomsMap
      modifies this, playerPosition[currentGame.id]
      ensures roomsMap == old(roomsMap) && traversalHistory == old(traversalHistory)
      ensures currentCommand.commandName == "go" ==>
                var step := old(GoGame(playerPosition[currentGame.id].name, ConvertedCommand(currentCommand)));
                && (r.Ok? <==> step.room.Some?)
                && (step.room.Some? ==>
                      && playerPosition == old(playerPosition)[currentGame.id := step.room.value]
                      && playerTraversalHistory ==
                           old(playerTraversalHistory)[currentGame.id :=
                             old(playerTraversalHistory[currentGame.id]) + [step.room.value.name]])
                && (step.room.None? ==>
                      playerPosition == old(playerPosition) && playerTraversalHistory == old(playerTraversalHistory))
      ensures currentCommand.commandName != "go" ==>
                playerPosition == old(playerPosition) && playerTraversalHistory == old(playerTraversalHistory)
      ensures currentCommand.commandName !in {"take", "drop"} ==>
                && itemsCollected == old(itemsCollected) && playerItemsCollected == old(playerItemsCollected)
                && old(playerPosition[currentGame.id]).items == old(playerPosition[currentGame.id].items)
      ensures currentCommand.commandName in {"take", "drop"} ==>
                var room := playerPosition[currentGame.id];
                var o := OperateItem(old(room.ItemList()), old(itemsCollected), ParseItem(ConvertedCommand(currentCommand)));
                var rec := RecordForPlayer(old(playerItemsCollected), currentGame.id, ConvertedCommand(currentCommand), o.handled);
                && room.ItemList() == o.items && itemsCollected == o.collected
                && (r.Ok? <==> o.signal != NoItemList && rec.Some?)
                && playerItemsCollected == (if r.Ok? then rec.value else old(playerItemsCollected))
      ensures currentCommand.commandName !in {"go", "take", "drop"} ==> r.Ok?
      ensures r.Ok? ==> r.value == ServerStatus(currentGame.id, currentCommand.commandName)
    {
      CommandNamesDistinct();
      var currentId := currentGame.id;
      var currentRoom := playerPosition[currentGame.id];
      var convertedCommand := ConvertedCommand(currentCommand);
      if currentCommand.commandName == "go" {
        r := ServerMove(currentId, currentRoom, convertedCommand);
      } else {
        r := ServerStay(currentGame, currentCommand);
      }
    }

    /**
     * runGameServer for every command but "go": the player stays in the same
     * room; take and drop run the web item wrapper there, any other command
     * shows the history or the room.
     */
    method ServerStay(currentGame: GameStatus, currentCommand: Command) returns (r: Result<GameStatus, JavaException>)
      requires currentGame.id in playerPosition && currentCommand.commandName != "go"
      requires currentCommand.commandName == "view history" ==> currentGame.id in playerTraversalHistory
      modifies this`itemsCollected, this`playerItemsCollected, this`playerPosition, playerPosition[currentGame.id]
      ensures playerPosition == old(playerPosition)
      ensures currentCommand.commandName !in {"take", "drop"} ==>
                && itemsCollected == old(itemsCollected) && playerItemsCollected == old(playerItemsCollected)
                && old(playerPosition[currentGame.id]).items == old(playerPosition[currentGame.id].items)
      ensures currentCommand.commandName in {"take", "drop"} ==>
                var room := playerPosition[currentGame.id];
                var o := OperateItem(old(room.ItemList()), old(itemsCollected), ParseItem(ConvertedCommand(currentCommand)));
                var rec := RecordForPlayer(old(playerItemsCollected), currentGame.id, ConvertedCommand(currentCommand), o.handled);
                && room.ItemList() == o.items && itemsCollected == o.collected
                && (r.Ok? <==> o.signal != NoItemList && rec.Some?)
                && playerItemsCollected == (if r.Ok? then rec.value else old(playerItemsCollected))
      ensures currentCommand.commandName !in {"take", "drop"} ==> r.Ok?
      ensures r.Ok? ==> r.value == ServerStatus(currentGame.id, currentCommand.commandName)
    {
      var currentId := currentGame.id;
      var currentRoom := playerPosition[currentId];
      if currentCommand.commandName == "take" || currentCommand.commandName == "drop" {
        r := ServerItem(currentId, currentRoom, currentCommand.commandName, ConvertedCommand(currentCommand));
      } else {
        var status := ServerShow(currentId, currentRoom, currentCommand.commandName);
        r := Ok(status);
      }
    }

    /**
     * runGameServer's "view history" branch and its fallback for every other
     * command but go, take and drop: the player's history text, or the room
     * again, with the room's command options.
     */
    method ServerShow(currentId: int, currentRoom: Room, commandName: string) returns (status: GameStatus)
      requires currentId in playerPosition && currentRoom == playerPosition[currentId]
      requires commandName == "view history" ==> currentId in playerTraversalHistory
      ensures status == ServerStatus(currentId, commandName)
    {
      if commandName == "view history" {
        var description := HistoryMessage(playerTraversalHistory[currentId]);
        return GameStatus(false, currentId, description, false, None, GetCommandOptions(currentRoom, currentId));
      } else {
        return GameStatus(false, currentId, currentRoom.description, true, None, GetCommandOptions(currentRoom, currentId));
      }
    }

    /** runGameServer's "go" branch: goGame from the player's room, then the move. */
    method ServerMove(currentId: int, currentRoom: Room, convertedCommand: string) returns (r: Result<GameStatus, JavaException>)
      requires currentId in playerPosition && currentRoom == playerPosition[currentId]
      requires currentId in playerTraversalHistory
      requires ParseGo(convertedCommand).GoTo? ==> currentRoom.name in roomsMap
      modifies this`playerPosition, this`playerTraversalHistory
      ensures var step := GoGame(currentRoom.name, convertedCommand);
              && (r.Ok? <==> step.room.Some?)
              && (step.room.Some? ==>
                    && playerPosition == old(playerPosition)[currentId := step.room.value]
                    && playerTraversalHistory ==
                         old(playerTraversalHistory)[currentId := old(playerTraversalHistory[currentId]) + [step.room.value.name]])
              && (step.room.None? ==>
                    playerPosition == old(playerPosition) && playerTraversalHistory == old(playerTraversalHistory))
      ensures r.Ok? ==> r.value == ServerStatus(currentId, "go")
    {
      var newRoom := GoGame(currentRoom.name, convertedCommand).room;
      if newRoom.None? {
        // newRoom.getDescription() dereferences null before anything is stored
        return Err(NullPointerException);
      }
      var newStatus := MovePlayer(currentId, newRoom.value);
      return Ok(newStatus);
    }

    /** runGameServer's "take" and "drop" branch: the web item wrapper in the player's room. */
    method ServerItem(currentId: int, currentRoom: Room, commandName: string, convertedCommand: string)
      returns (r: Result<GameStatus, JavaException>)
      requires currentId in playerPosition && currentRoom == playerPosition[currentId]
      requires commandName != "view history"
      modifies currentRoom, this`itemsCollected, this`playerItemsCollected, this`playerPosition
      ensures playerPosition == old(playerPosition)
      ensures var o := OperateItem(old(currentRoom.ItemList()), old(itemsCollected), ParseItem(convertedCommand));
              var rec := RecordForPlayer(old(playerItemsCollected), currentId, convertedCommand, o.handled);
              && currentRoom.ItemList() == o.items && itemsCollected == o.collected
              && (r.Ok? <==> o.signal != NoItemList && rec.Some?)
              && playerItemsCollected == (if r.Ok? then rec.value else old(playerItemsCollected))
      ensures r.Ok? ==> r.value == ServerStatus(currentId, commandName)
    {
      var thrown := CheckOperateItemForWeb(currentRoom, convertedCommand, currentId);
      if thrown.Some? {
        return Err(thrown.value);
      }
      playerPosition := playerPosition[currentId := currentRoom];
      return Ok(GameStatus(false, currentId, currentRoom.description, true, None, GetCommandOptions(currentRoom, currentId)));
    }

    /**
     * The rest of runGameServer's "go" branch once goGame has yielded
     * `newRoom`: the player stands there, the room is appended to the
     * player's history (even when goGame left the player in place), and the
     * status shows the room.
     */
    method MovePlayer(playerID: int, newRoom: Room) returns (status: GameStatus)
      requires playerID in playerTraversalHistory
      modifies this`playerPosition, this`playerTraversalHistory
      ensures playerPosition == old(playerPosition)[playerID := newRoom]
      ensures playerTraversalHistory == old(playerTraversalHistory)[playerID := old(playerTraversalHistory[playerID]) + [newRoom.name]]
      ensures status == GameStatus(false, playerID, newRoom.description, true, None, GetCommandOptions(newRoom, playerID))
    {
      var newStatus := GameStatus(false, playerID, newRoom.description, true, None, GetCommandOptions(newRoom, playerID));
      playerPosition := playerPosition[playerID := newRoom];
      var traversed := playerTraversalHistory[playerID];
      traversed := traversed + [newRoom.name];
      playerTraversalHistory := playerTraversalHistory[playerID := traversed];
      return newStatus;
    }

    /**
     * GameEngine.runGameTerminal on the world file's content and the lines
     * typed at the prompt. A world that cannot be loaded ends the run before
     * anything is printed. Otherwise the starting room is recorded in the
     * terminal history and printed after the welcome line, and trimmed lines
     * are carried out one by one until the player stands in the ending room
     * (names compared ignoring case) or quits; the run then prints the win or
     * the quit line. Running out of lines ends the run where the source's
     * scanner throws, and a NullPointerException (an item command in a room
     * without an item list, a move to a room the index lacks) ends it too,
     * in both cases with nothing more printed.
     */
    method RunGameTerminal(file: Option<WorldFile>, inputs: seq<string>)
      returns (r: Result<TerminalOutcome, LoadError>, output: seq<string>, read: nat, ghost moves: seq<bool>)
      modifies this
      ensures r.Err? <==> file.None? || WorldValidity(file.value).Some?
      ensures r.Err? ==> r.error == if file.None? then Unreadable else WorldValidity(file.value).value
      ensures r.Err? ==> output == [] && read == 0 && unchanged(this)
      ensures r.Ok? ==>
                && roomsMap.Keys == NameSet(file.value) && NamesFiled(roomsMap)
                && (EdgesResolve(file.value) ==> IndexResolves(roomsMap))
      ensures r.Ok? ==>
                && |traversalHistory| > |old(traversalHistory)|
                && traversalHistory[..|old(traversalHistory)|] == old(traversalHistory)
                && traversalHistory[|old(traversalHistory)|] == file.value.startingRoom.value
                && forall k :: |old(traversalHistory)| <= k < |traversalHistory| ==> traversalHistory[k] in roomsMap
      ensures r.Ok? ==>
                && |output| >= 2 && output[0] == WELCOME
                && IndexOfFile(roomsMap, file.value)
                && output[1] == file.value.rooms.value[LastEntry(file.value.rooms.value, file.value.startingRoom.value)].description
      ensures r.Ok? ==>
                (r.value == Won <==>
                   Lower(traversalHistory[|traversalHistory| - 1]) == Lower(file.value.endingRoom.value))
      ensures r == Ok(Won) ==> output[|output| - 1] == WIN_LINE
      ensures r == Ok(Quit) ==> output[|output| - 1] == QUIT_LINE
      ensures r.Ok? ==> ReadUntilExit(inputs, read, r.value == Quit)
      ensures r == Ok(InputEnded) ==> read == |inputs|
      ensures r == Ok(Crashed) ==> 0 < read
      ensures r.Ok? ==>
                && MovesOf(inputs, moves)
                && |traversalHistory| == |old(traversalHistory)| + 1 + Marked(moves, if r.value == Crashed then read - 1 else read)
      ensures r.Ok? && ItemListsPresent(file.value) && EdgesResolve(file.value) ==> r.value != Crashed
    {
      var layout := LoadIndex(file);
      if layout.Err? {
        return Err(layout.error), [], 0, [];
      }
      var outcome;
      outcome, output, read, moves := PlayTerminal(layout.value.startingRoom.value, layout.value.endingRoom.value, inputs);
      r := Ok(outcome);
    }

    /**
     * Whether the terminal loop throws on the trimmed `line` while the player
     * stands in `roomName`: an item command that reaches the room's item
     * list when the room has none, or a move for which goGame returns null.
     */
    ghost predicate CrashesIn(roomName: string, line: string)
      reads this`roomsMap, this`itemsCollected
    {
      && roomName in roomsMap
      && match Dispatch(line)
         case ItemLine(c) => !roomsMap[roomName].listed && ReachesItemList(itemsCollected, c)
         case MoveLine => GoGame(roomName, line).room.None?
         case _ => false
    }

    /**
     * What stays true while the terminal game runs: every room of the index
     * is filed under its name, the player stands in a room of the index, and
     * the history keeps what it held when the loop began and then names rooms
     * of the index, the current one last.
     */
    ghost predicate Playing(currRoom: Room, before: seq<string>)
      reads this
    {
      && NamesFiled(roomsMap)
      && currRoom.name in roomsMap && roomsMap[currRoom.name] == currRoom
      && traversalHistory != [] && |before| <= |traversalHistory| && traversalHistory[..|before|] == before
      && traversalHistory[|traversalHistory| - 1] == currRoom.name
      && forall k :: |before| <= k < |traversalHistory| ==> traversalHistory[k] in roomsMap
    }

    /**
     * GameEngine.runGameTerminal once the world is loaded: records and prints
     * the starting room, then reads and trims one line per pass while the
     * player is not in the ending room and has not quit, and prints the
     * closing line.
     */
    method PlayTerminal(startingRoom: string, endingRoomName: string, inputs: seq<string>)
      returns (outcome: TerminalOutcome, output: seq<string>, read: nat, ghost moves: seq<bool>)
      requires NamesFiled(roomsMap) && startingRoom in roomsMap
      modifies roomsMap.Values, this`itemsCollected, this`traversalHistory
      ensures |old(traversalHistory)| < |traversalHistory|
      ensures traversalHistory[..|old(traversalHistory)|] == old(traversalHistory)
      ensures traversalHistory[|old(traversalHistory)|] == startingRoom
      ensures forall k :: |old(traversalHistory)| <= k < |traversalHistory| ==> traversalHistory[k] in roomsMap
      ensures |output| >= 2 && output[0] == WELCOME && output[1] == roomsMap[startingRoom].description
      ensures outcome == Won <==> Lower(traversalHistory[|traversalHistory| - 1]) == Lower(endingRoomName)
      ensures outcome == Won || outcome == Quit ==> output[|output| - 1] == CheckIfExit(outcome == Quit)
      ensures ReadUntilExit(inputs, read, outcome == Quit)
      ensures outcome == InputEnded ==> read == |inputs|
      ensures outcome == Crashed ==> 0 < read && !(RoomsListed(roomsMap) && IndexResolves(roomsMap))
      ensures MovesOf(inputs, moves)
      ensures |traversalHistory| == |old(traversalHistory)| + 1 + Marked(moves, if outcome == Crashed then read - 1 else read)
    {
      ghost var h0 := traversalHistory;
      var startRoom := roomsMap[startingRoom];
      traversalHistory := traversalHistory + [startRoom.name];
      var spec := PrintSpecification(startRoom, endingRoomName);
      var played;
      ghost var finalRoom;
      LineMarksExist(inputs);
      moves :| MovesOf(inputs, moves);
      outcome, played, read, finalRoom := ReadCommands(startRoom, endingRoomName, inputs, traversalHistory, moves);
      HistoryFrom(h0, startingRoom, traversalHistory, roomsMap.Keys);
      output := [WELCOME] + spec + played;
      assert output[1] == spec[0];
    }

    /**
     * The loop of GameEngine.runGameTerminal: reads and trims one line per pass
     * while the player is not in the ending room and has not quit, then prints
     * the closing line. `before` is the history when the loop begins.
     */
    method ReadCommands(startRoom: Room, endingRoomName: string, inputs: seq<string>, ghost before: seq<string>, ghost moves: seq<bool>)
      returns (outcome: TerminalOutcome, output: seq<string>, read: nat, ghost finalRoom: Room)
      requires Playing(startRoom, before) && traversalHistory == before && MovesOf(inputs, moves)
      modifies roomsMap.Values, this`itemsCollected, this`traversalHistory
      ensures Playing(finalRoom, before)
      ensures outcome == Won <==> Lower(finalRoom.name) == Lower(endingRoomName)
      ensures outcome == Won || outcome == Quit ==> output != [] && output[|output| - 1] == CheckIfExit(outcome == Quit)
      ensures ReadUntilExit(inputs, read, outcome == Quit)
      ensures outcome == InputEnded ==> read == |inputs|
      ensures outcome == Crashed ==> 0 < read && !(RoomsListed(roomsMap) && IndexResolves(roomsMap))
      ensures MovesRecorded(startRoom, finalRoom, before, moves, if outcome == Crashed then read - 1 else read)
    {
      var currRoom := startRoom;
      var quitFlag := false;
      read := 0;
      output := [];
      // equalsIgnoreCase is equality after lowercasing (EqualsIgnoreCaseIff)
      while Lower(currRoom.name) != Lower(endingRoomName) && !quitFlag
        invariant Playing(currRoom, before)
        invariant 0 <= read <= |inputs|
        invariant quitFlag ==> Lower(currRoom.name) != Lower(endingRoomName)
        invariant quitFlag ==> exists k :: 0 <= k < read && ExitLines(inputs)[k]
        invariant forall k :: 0 <= k < read - 1 ==> !ExitLines(inputs)[k]
        invariant !quitFlag ==> forall k :: 0 <= k < read ==> !ExitLines(inputs)[k]
        invariant MovesRecorded(startRoom, currRoom, before, moves, read)
        decreases |inputs| - read
      {
        if read == |inputs| {
          return InputEnded, output, read, currRoom;
        }
        var printed, crashed;
        currRoom, quitFlag, crashed, printed := PlayTurn(currRoom, inputs, read, endingRoomName, before, moves, startRoom);
        output := output + printed;
        read := read + 1;
        if crashed {
          return Crashed, output, read, currRoom;
        }
      }
      output := output + [CheckIfExit(quitFlag)];
      outcome := if quitFlag then Quit else Won;
      finalRoom := currRoom;
    }

    /**
     * After the loop has read `read` lines, the history has grown by one
     * name for each of them that was handed to goGame, and the player is
     * still in the starting room if none was.
     */
    ghost predicate MovesRecorded(startRoom: Room, currRoom: Room, before: seq<string>, moves: seq<bool>, read: nat)
      reads this`traversalHistory
    {
      && read <= |moves|
      && |traversalHistory| == |before| + Marked(moves, read)
      && (Marked(moves, read) == 0 ==> currRoom == startRoom)
    }

    /** One pass of the loop, stated in terms of what the loop keeps (Playing). */
    method PlayTurn(currRoom: Room, inputs: seq<string>, read: nat, endingRoomName: string,
                    ghost before: seq<string>, ghost moves: seq<bool>, ghost startRoom: Room)
      returns (next: Room, quit: bool, crashed: bool, printed: seq<string>)
      requires read < |inputs| && Playing(currRoom, before) && MovesOf(inputs, moves)
      requires forall k :: 0 <= k < read ==> !ExitLines(inputs)[k]
      requires MovesRecorded(startRoom, currRoom, before, moves, read)
      modifies roomsMap.Values, this`itemsCollected, this`traversalHistory
      ensures Playing(next, before)
      ensures quit ==> exists k :: 0 <= k < read + 1 && ExitLines(inputs)[k]
      ensures !quit ==> forall k :: 0 <= k < read + 1 ==> !ExitLines(inputs)[k]
      ensures quit || crashed ==> next == currRoom
      ensures crashed ==> !quit && !(RoomsListed(roomsMap) && IndexResolves(roomsMap))
      ensures MovesRecorded(startRoom, next, before, moves, if crashed then read else read + 1)
    {
      ghost var history := traversalHistory;
      next, quit, crashed, printed := TerminalTurn(currRoom, inputs, read, endingRoomName, moves);
      HistoryStep(before, history, traversalHistory, next.name, roomsMap.Keys);
    }

    /**
     * Reads one typed line the way runGameTerminal does (trimmed) and carries
     * it out; what the loop needs to know of the pass: whether it quit or
     * crashed, where the player stands, and whether the history grew by that
     * room.
     */
    method TerminalTurn(currRoom: Room, inputs: seq<string>, read: nat, endingRoomName: string, ghost moves: seq<bool>)
      returns (next: Room, quit: bool, crashed: bool, printed: seq<string>)
      requires read < |inputs| && MovesOf(inputs, moves)
      requires NamesFiled(roomsMap) && currRoom.name in roomsMap && roomsMap[currRoom.name] == currRoom
      modifies currRoom, this`itemsCollected, this`traversalHistory
      ensures quit == ExitLines(inputs)[read]
      ensures quit || crashed ==> next == currRoom
      ensures crashed ==> !quit
      ensures crashed ==> !(RoomsListed(roomsMap) && IndexResolves(roomsMap))
      ensures next.name in roomsMap && roomsMap[next.name] == next
      ensures || (next == currRoom && traversalHistory == old(traversalHistory))
              || traversalHistory == old(traversalHistory) + [next.name]
      ensures crashed || !moves[read] ==> next == currRoom && traversalHistory == old(traversalHistory)
      ensures !crashed && moves[read] ==> traversalHistory == old(traversalHistory) + [next.name]
    {
      var userDirection := Trim(inputs[read]);
      ghost var moved := IsMove(userDirection);
      next, quit, crashed, printed := TerminalStep(currRoom, userDirection, endingRoomName);
      if crashed && RoomsListed(roomsMap) && IndexResolves(roomsMap) {
        SoundIndexNeverCrashes(this, currRoom.name, userDirection);
      }
    }

    /**
     * One pass of GameEngine.runGameTerminal's loop on a line the loop has
     * already trimmed: exit or quit raises the quit flag; examine prints the
     * room again; a take or a drop goes through checkOperateItem, printing
     * only its failure message; view history prints the terminal history;
     * any other line goes to goGame, whose room (even when the player did not
     * move) is appended to the history and printed, after goGame's own message.
     * An item command in a room without an item list, and a move to a room
     * the index lacks, crash instead, changing nothing.
     */
    method TerminalStep(currRoom: Room, userDirection: string, endingRoomName: string)
      returns (next: Room, quit: bool, crashed: bool, printed: seq<string>)
      requires NamesFiled(roomsMap) && currRoom.name in roomsMap && roomsMap[currRoom.name] == currRoom
      modifies currRoom, this`itemsCollected, this`traversalHistory
      ensures quit <==> Dispatch(userDirection) == ExitLine
      ensures next.name in roomsMap && roomsMap[next.name] == next
      ensures || (next == currRoom && traversalHistory == old(traversalHistory))
              || traversalHistory == old(traversalHistory) + [next.name]
      ensures crashed ==> next == currRoom && traversalHistory == old(traversalHistory)
      ensures crashed ==> CrashesIn(currRoom.name, userDirection)
      ensures !Dispatch(userDirection).ItemLine? ==>
                currRoom.items == old(currRoom.items) && itemsCollected == old(itemsCollected)
      ensures Dispatch(userDirection) != MoveLine ==> next == currRoom && traversalHistory == old(traversalHistory)
      ensures Dispatch(userDirection) == ExitLine ==> !crashed && printed == []
      ensures Dispatch(userDirection) == ExamineLine ==> !crashed && printed == SpecificationLines(currRoom, endingRoomName)
      ensures Dispatch(userDirection).ItemLine? ==>
                var o := OperateItem(old(currRoom.ItemList()), old(itemsCollected), ParseItem(userDirection));
                && currRoom.ItemList() == o.items && itemsCollected == o.collected
                && (crashed <==> o.signal == NoItemList)
                && printed == Lines(ItemMessage(o.signal, ParseItem(userDirection).item))
      ensures Dispatch(userDirection) == HistoryLine ==> !crashed && printed == [HistoryMessage(traversalHistory)]
      ensures Dispatch(userDirection) == MoveLine ==>
                var step := GoGame(currRoom.name, userDirection);
                && (crashed <==> step.room.None?)
                && (step.room.Some? ==>
                      && next == step.room.value
                      && traversalHistory == old(traversalHistory) + [next.name]
                      && printed == Lines(GoMessage(step.signal, userDirection)) + SpecificationLines(next, endingRoomName))
                && (step.room.None? ==> printed == Lines(GoMessage(step.signal, userDirection)))
    {
      next := currRoom;
      quit := false;
      crashed := false;
      printed := [];
      if CheckExit(userDirection) {
        quit := true;
      } else if CheckExamine(userDirection) {
        printed := PrintSpecification(currRoom, endingRoomName);
      } else {
        next, crashed, printed := CommandStep(currRoom, userDirection, endingRoomName);
      }
    }

    /**
     * The rest of runGameTerminal's loop, for a line that is neither exit nor
     * examine: checkOperateItem first, then view history, then goGame.
     */
    method CommandStep(currRoom: Room, userDirection: string, endingRoomName: string)
      returns (next: Room, crashed: bool, printed: seq<string>)
      requires NamesFiled(roomsMap) && currRoom.name in roomsMap && roomsMap[currRoom.name] == currRoom
      requires !CheckExit(userDirection) && !CheckExamine(userDirection)
      modifies currRoom, this`itemsCollected, this`traversalHistory
      ensures next.name in roomsMap && roomsMap[next.name] == next
      ensures || (next == currRoom && traversalHistory == old(traversalHistory))
              || traversalHistory == old(traversalHistory) + [next.name]
      ensures crashed ==> next == currRoom && traversalHistory == old(traversalHistory)
      ensures !Dispatch(userDirection).ItemLine? ==>
                currRoom.items == old(currRoom.items) && itemsCollected == old(itemsCollected)
      ensures Dispatch(userDirection).ItemLine? ==>
                var o := OperateItem(old(currRoom.ItemList()), old(itemsCollected), ParseItem(userDirection));
                && currRoom.ItemList() == o.items && itemsCollected == o.collected
                && (crashed <==> o.signal == NoItemList)
                && printed == Lines(ItemMessage(o.signal, ParseItem(userDirection).item))
      ensures Dispatch(userDirection) != MoveLine ==> next == currRoom && traversalHistory == old(traversalHistory)
      ensures Dispatch(userDirection) == HistoryLine ==> !crashed && printed == [HistoryMessage(traversalHistory)]
      ensures Dispatch(userDirection) == MoveLine ==>
                var step := GoGame(currRoom.name, userDirection);
                && (crashed <==> step.room.None?)
                && (step.room.Some? ==>
                      && next == step.room.value
                      && traversalHistory == old(traversalHistory) + [next.name]
                      && printed == Lines(GoMessage(step.signal, userDirection)) + SpecificationLines(next, endingRoomName))
                && (step.room.None? ==> printed == Lines(GoMessage(step.signal, userDirection)))
    {
      next := currRoom;
      var handled;
      handled, crashed, printed := ItemLineStep(currRoom, userDirection);
      if !handled {
        next, crashed, printed := HistoryOrMoveStep(currRoom, userDirection, endingRoomName);
      }
    }

    /** checkOperateItem as the terminal loop calls it: the failure message is printed. */
    method ItemLineStep(currRoom: Room, userDirection: string) returns (handled: bool, crashed: bool, printed: seq<string>)
      modifies currRoom, this`itemsCollected
      ensures var o := OperateItem(old(currRoom.ItemList()), old(itemsCollected), ParseItem(userDirection));
              && handled == o.handled && crashed == (o.signal == NoItemList)
              && currRoom.ItemList() == o.items && itemsCollected == o.collected
              && (handled ==> printed == Lines(ItemMessage(o.signal, ParseItem(userDirection).item)))
      ensures handled <==> !ParseItem(userDirection).NoItemCommand?
      ensures !handled ==> currRoom.items == old(currRoom.items) && itemsCollected == old(itemsCollected)
    {
      var signal;
      handled, signal := CheckOperateItem(currRoom, userDirection);
      crashed := signal == NoItemList;
      printed := [];
      if handled {
        printed := Lines(ItemMessage(signal, ParseItem(userDirection).item));
      }
    }

    /** The last two tests of runGameTerminal's loop: view history, else goGame. */
    method HistoryOrMoveStep(currRoom: Room, userDirection: string, endingRoomName: string)
      returns (next: Room, crashed: bool, printed: seq<string>)
      requires NamesFiled(roomsMap) && currRoom.name in roomsMap && roomsMap[currRoom.name] == currRoom
      modifies this`traversalHistory
      ensures next.name in roomsMap && roomsMap[next.name] == next
      ensures CheckHistory(userDirection) ==>
                && next == currRoom && !crashed && traversalHistory == old(traversalHistory)
                && printed == [HistoryMessage(traversalHistory)]
      ensures !CheckHistory(userDirection) ==>
                var step := GoGame(currRoom.name, userDirection);
                && (crashed <==> step.room.None?)
                && (step.room.Some? ==>
                      && next == step.room.value
                      && traversalHistory == old(traversalHistory) + [next.name]
                      && printed == Lines(GoMessage(step.signal, userDirection)) + SpecificationLines(next, endingRoomName))
                && (step.room.None? ==>
                      && next == currRoom && traversalHistory == old(traversalHistory)
                      && printed == Lines(GoMessage(step.signal, userDirection)))
    {
      next := currRoom;
      crashed := false;
      if CheckHistory(userDirection) {
        printed := [HistoryMessage(traversalHistory)];
      } else {
        next, crashed, printed := MoveStep(currRoom, userDirection, endingRoomName);
      }
    }

    /**
     * The goGame branch of runGameTerminal's loop: move, record the room
     * reached, print it; a null room from goGame crashes at its name.
     */
    method MoveStep(currRoom: Room, userDirection: string, endingRoomName: string)
      returns (next: Room, crashed: bool, printed: seq<string>)
      requires NamesFiled(roomsMap) && currRoom.name in roomsMap && roomsMap[currRoom.name] == currRoom
      modifies this`traversalHistory
      ensures next.name in roomsMap && roomsMap[next.name] == next
      ensures var step := GoGame(currRoom.name, userDirection);
              && (crashed <==> step.room.None?)
              && (step.room.Some? ==>
                    && next == step.room.value
                    && traversalHistory == old(traversalHistory) + [next.name]
                    && printed == Lines(GoMessage(step.signal, userDirection)) + SpecificationLines(next, endingRoomName))
              && (step.room.None? ==>
                    && next == currRoom && traversalHistory == old(traversalHistory)
                    && printed == Lines(GoMessage(step.signal, userDirection)))
    {
      var step := GoGame(currRoom.name, userDirection);
      GoLandsInIndex(this, currRoom.name, userDirection);
      next := currRoom;
      crashed := false;
      if step.room.None? {
        // currRoom.getName() on the null room goGame returned
        crashed := true;
        printed := Lines(GoMessage(step.signal, userDirection));
        return;
      }
      next := step.room.value;
      traversalHistory := traversalHistory + [next.name];
      var spec := PrintSpecification(next, endingRoomName);
      printed := Lines(GoMessage(step.signal, userDirection)) + spec;
    }

    /**
     * GameEngine.checkOperateItem: tells whether the line was a take or a drop
     * and carries it out on the room and the engine-wide collected list; a
     * take, or a drop of something held, in a room without an item list
     * stops with NoItemList where the source dereferences the null list.
     */
    method CheckOperateItem(currRoom: Room, userInput: string) returns (findItem: bool, signal: ItemSignal)
      modifies currRoom, this`itemsCollected
      ensures var o := OperateItem(old(currRoom.ItemList()), old(itemsCollected), ParseItem(userInput));
              && findItem == o.handled && signal == o.signal
              && currRoom.ItemList() == o.items && itemsCollected == o.collected
      ensures signal != Taken && signal != Dropped ==> currRoom.items == old(currRoom.items)
    {
      findItem := true;
      signal := NotAnItemCommand;
      if |userInput| <= TAKE_PREFIX {
        findItem := false;
      } else {
        var itemString := Trim(userInput[TAKE_PREFIX..]);
        if StartsWith(Lower(userInput), "take ") {
          var allItems := currRoom.GetItems();
          if allItems.None? {
            // allItems.contains dereferences the null list
            signal := NoItemList;
          } else if Trim(Lower(itemString)) in allItems.value {
            currRoom.TakeItem(itemString);
            itemsCollected := itemsCollected + [itemString];
            signal := Taken;
          } else {
            signal := NoSuchItem;
          }
        } else if StartsWith(Lower(userInput), "drop ") {
          if Lower(itemString) !in itemsCollected {
            signal := NotHeld;
          } else if !currRoom.listed {
            // dropItem walks the null list
            signal := NoItemList;
          } else {
            currRoom.DropItem(Lower(itemString));
            itemsCollected := Remove(itemsCollected, itemString);
            signal := Dropped;
          }
        } else {
          findItem := false;
        }
      }
    }

    /**
     * GameEngine.checkOperateItemForWeb: runs checkOperateItem and, when it
     * reports a take or a drop, records the text after the prefix in the
     * player's own list. Either step may throw NullPointerException: the
     * first on a room without an item list, the second on a drop by a player
     * without a list, after the room and the collected list have changed.
     */
    method CheckOperateItemForWeb(currRoom: Room, userInput: string, playerID: int) returns (thrown: Option<JavaException>)
      modifies currRoom, this`itemsCollected, this`playerItemsCollected
      ensures var o := OperateItem(old(currRoom.ItemList()), old(itemsCollected), ParseItem(userInput));
              var rec := RecordForPlayer(old(playerItemsCollected), playerID, userInput, o.handled);
              && currRoom.ItemList() == o.items && itemsCollected == o.collected
              && (thrown.None? <==> o.signal != NoItemList && rec.Some?)
              && playerItemsCollected == (if thrown.None? then rec.value else old(playerItemsCollected))
    {
      var pickSuccessful, signal := CheckOperateItem(currRoom, userInput);
      if signal == NoItemList {
        return Some(NullPointerException);
      }
      if !pickSuccessful {
        return None;
      }
      ParseItemPrefix(userInput);
      thrown := RecordItemForWeb(userInput, playerID);
    }

    /**
     * The second half of checkOperateItemForWeb: the update of the player's
     * own list after a take or a drop.
     */
    method RecordItemForWeb(userInput: string, playerID: int) returns (thrown: Option<JavaException>)
      requires |userInput| > TAKE_PREFIX
      modifies this`playerItemsCollected
      ensures var rec := RecordForPlayer(old(playerItemsCollected), playerID, userInput, true);
              && (thrown.None? <==> rec.Some?)
              && playerItemsCollected == if rec.Some? then rec.value else old(playerItemsCollected)
    {
      thrown := None;
      var item := userInput[TAKE_PREFIX..];
      if StartsWith(Lower(userInput), "take ") {
        if playerID !in playerItemsCollected {
          playerItemsCollected := playerItemsCollected[playerID := []];
        }
        var playerCollected := playerItemsCollected[playerID];
        playerCollected := playerCollected + [item];
        playerItemsCollected := playerItemsCollected[playerID := playerCollected];
      } else {
        if playerID !in playerItemsCollected {
          // PlayerCollected.remove on the null list
          return Some(NullPointerException);
        }
        var playerCollected := playerItemsCollected[playerID];
        playerCollected := Remove(playerCollected, item);
        playerItemsCollected := playerItemsCollected[playerID := playerCollected];
      }
    }
  }

  // ---------------------------------------------------------------- lemmas

  /** The command names runGameServer tells apart are different strings. */
  lemma CommandNamesDistinct()
    ensures "go" != "take" && "go" != "drop" && "go" != "view history"
    ensures "take" != "drop" && "take" != "view history" && "drop" != "view history"
  {
  }

  /** Every run of typed lines has its marks: MoveLines gives them. */
  lemma {:induction false} LineMarksExist(inputs: seq<string>)
    ensures exists moves :: MovesOf(inputs, moves)
  {
    assert MovesOf(inputs, MoveLines(inputs));
  }

  /**
   * A history that kept `before` and then named rooms of the index still does
   * so after a pass that left it alone or appended a room of the index.
   */
  lemma {:induction false} HistoryStep(before: seq<string>, h0: seq<string>, h1: seq<string>, name: string, index: set<string>)
    requires h0 != [] && |before| <= |h0| && h0[..|before|] == before
    requires forall k :: |before| <= k < |h0| ==> h0[k] in index
    requires (h1 == h0 && h0[|h0| - 1] == name) || h1 == h0 + [name]
    requires name in index
    ensures h1 != [] && |before| <= |h1| && h1[..|before|] == before
    ensures h1[|h1| - 1] == name
    ensures forall k :: |before| <= k < |h1| ==> h1[k] in index
  {
    assert h1[..|h0|] == h0;
  }

  /**
   * A history that began as `h0` followed by the starting room and then
   * named only rooms of `index` keeps `h0`, has the starting room right
   * after it, and names only rooms of `index` from there on.
   */
  lemma {:induction false} HistoryFrom(h0: seq<string>, start: string, h: seq<string>, index: set<string>)
    requires start in index
    requires |h0| + 1 <= |h| && h[..|h0| + 1] == h0 + [start]
    requires forall k :: |h0| + 1 <= k < |h| ==> h[k] in index
    ensures |h0| < |h| && h[..|h0|] == h0 && h[|h0|] == start
    ensures forall k :: |h0| <= k < |h| ==> h[k] in index
  {
    assert h[..|h0|] == h[..|h0| + 1][..|h0|];
    assert h[|h0|] == h[..|h0| + 1][|h0|];
  }

  /**
   * When every room of the index is filed under its name, whatever room
   * goGame yields is a room of the index.
   */
  lemma {:induction false} GoLandsInIndex(engine: GameEngine, roomInput: string, userDirection: string)
    requires NamesFiled(engine.roomsMap)
    requires ParseGo(userDirection).GoTo? ==> roomInput in engine.roomsMap
    ensures var room := engine.GoGame(roomInput, userDirection).room;
            room.Some? ==> room.value.name in engine.roomsMap && engine.roomsMap[room.value.name] == room.value
  {
    // goGame yields either the current room or the room its edge names, both looked up in the index
    var index := engine.roomsMap;
    match ParseGo(userDirection)
    case GoTo(key) =>
      var edges := index[roomInput].ConstructDirectionMap();
      if key in edges && edges[key] in index {
        assert engine.GoGame(roomInput, userDirection).room == Some(index[edges[key]]);
      }
    case _ =>
      if roomInput in index {
        assert engine.GoGame(roomInput, userDirection).room == Some(index[roomInput]);
      }
  }

  /**
   * Over an index whose edges resolve, goGame from a room of the index always
   * yields a room of the index (never null); a move follows an edge of the
   * current room whose label, lowercased, is the typed label.
   */
  lemma {:induction false} GoStaysInIndex(engine: GameEngine, roomInput: string, userDirection: string)
    requires IndexResolves(engine.roomsMap) && roomInput in engine.roomsMap
    ensures engine.GoGame(roomInput, userDirection).room.Some?
    ensures var next := engine.GoGame(roomInput, userDirection).room.value;
            next.name in engine.roomsMap && engine.roomsMap[next.name] == next
    ensures engine.GoGame(roomInput, userDirection).signal == Moved ==>
              exists d :: d in engine.roomsMap[roomInput].directions &&
                Lower(d.directionName) == ParseGo(userDirection).key &&
                d.room == engine.GoGame(roomInput, userDirection).room.value.name
  {
    var step := engine.GoGame(roomInput, userDirection);
    if step.signal == Moved {
      var dirs := engine.roomsMap[roomInput].directions;
      var entries := DirectionEntries(dirs);
      var key := ParseGo(userDirection).key;
      PutAllFrom(entries);
      var i :| 0 <= i < |entries| && entries[i] == (key, DirectionMap(dirs)[key]);
      assert dirs[i] in dirs;
    }
  }

  /**
   * In an index whose rooms all have item lists and whose edges all resolve,
   * no line crashes the terminal loop, whatever room the player stands in.
   */
  lemma {:induction false} SoundIndexNeverCrashes(engine: GameEngine, roomName: string, line: string)
    requires RoomsListed(engine.roomsMap) && IndexResolves(engine.roomsMap)
    ensures !engine.CrashesIn(roomName, line)
  {
    if roomName in engine.roomsMap && Dispatch(line) == MoveLine {
      GoStaysInIndex(engine, roomName, line);
    }
  }

  /**
   * Every "go" option the engine offers for a room of the index, when it
   * carries no surrounding whitespace, moves the player when sent back as
   * "go " followed by it (the text a web "go" command becomes).
   */
  lemma {:induction false} OfferedMoveSucceeds(engine: GameEngine, roomInput: string, word: string)
    requires roomInput in engine.roomsMap
    requires word in engine.roomsMap[roomInput].GetDirections() && IsTrimmed(word) && word != ""
    ensures ParseGo("go " + word) == GoTo(word)
    ensures engine.GoGame(roomInput, "go " + word).signal == Moved
  {
    DirectionIsLower(engine.roomsMap[roomInput], word);
    ParseGoWritten(word);
    engine.GoGameOutcome(roomInput, "go " + word);
  }

  /** A label getDirections lists is already in lower case. */
  lemma {:induction false} DirectionIsLower(room: Room, word: string)
    requires word in room.GetDirections()
    ensures Lower(word) == word
  {
    var i :| 0 <= i < |room.GetDirections()| && room.GetDirections()[i] == word;
    LowerIdempotent(room.directions[i].directionName);
  }

  /**
   * Every "take" option the engine offers, when it carries no surrounding
   * whitespace, takes an item when sent back as "take " followed by it (the
   * text a web "take" command becomes).
   */
  lemma {:induction false} OfferedTakeOptionSucceeds(engine: GameEngine, room: Room, playerID: int, option: string, collected: seq<string>)
    requires room.listed
    requires option in engine.GetCommandOptions(room, playerID)["take"].value && IsTrimmed(option) && option != ""
    ensures ParseItem("take " + option) == Take(option)
    ensures OperateItem(room.ItemList(), collected, Take(option)).signal == Taken
  {
    ParseItemWritten("take ", option);
    Interpreter.OfferedTakeSucceeds(room.items, collected, option);
  }
}
