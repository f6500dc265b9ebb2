# Demon Slayer text adventure — a Dafny model of the game engine

This project models the game-state core of the Java text adventure
"AdventureGame_DemonSlayer" and proves properties of it with Dafny. It covers:

- the rooms, their items and their directed edges;
- the parsed world layout;
- the engine that interprets the player's commands: exit/quit, examine, take, drop, view history and go;
- the web service that keeps one game status per player id.

Modules follow the Java classes:

| module | file | models |
|---|---|---|
| `Wrappers` | wrappers.dfy | `Option`, `Result`, and the `NullPointerException` the engine can throw |
| `JavaStrings` | java_strings.dfy | `toLowerCase`, `trim`, `startsWith`, `equalsIgnoreCase` and `Collectors.joining`, over ASCII text |
| `JavaCollections` | java_collections.dfy | `List.remove(Object)` and a sequence of `HashMap.put` calls |
| `Rooms` | room.dfy | `Room.java` (a class: its item list changes in place) and `Direction.java` (a datatype) |
| `Layouts` | layout.dfy | `Layout.java`, the parsed world file, and the room index built from it |
| `Interpreter` | interpreter.dfy | the pure parts of `GameEngine.java`: command parsing, the take/drop rules as a function, `gameValidity`, `printList` and the printed messages |
| `Status` | status.dfy | the `Command` and `GameStatus` records |
| `Engine` | engine.dfy | `GameEngine.java` as a class over its six fields: loading, starting, the web step `runGameServer` and the terminal loop `runGameTerminal` |
| `Service` | service.dfy | `MyAdventureService.java` as a class over `game`, `allGamesID` and `currentID` |

### How the engine is modelled

Console output is returned as text rather than printed. The terminal game takes the typed lines as
a sequence and returns the printed lines. A `NullPointerException` the source would throw becomes a
result:

- `Err`, or `Some(NullPointerException)`, on the web path;
- `Crashed` in the terminal game.

The model keeps the source's behaviour where a reader might expect otherwise:

- A take is reported as handled even when the room has no such item. The web wrapper then records
  the text for the player anyway (`FailedTakeStillRecorded`).
- A drop tests the lowercased text against the engine-wide collected list, but removes the text as
  typed. Dropping "CAT" while holding "cat" therefore puts "cat" back in the room while the player
  still holds "cat" (`DropWrongCaseKeepsHolding`).
- A player who took "CAT" cannot drop "cat". The collected list holds "CAT", and the drop looks for
  "cat" exactly (`DropLowerCatRefused`, `TakeThenDropRefused`). A scenario in which `take CAT`
  followed by `drop cat` moves the item back does not hold in the code, and the model follows the
  code.
- A failed `go` still adds a room to the history, on the web and in the terminal.
- An edge that names a room missing from the index makes `goGame` return null. The caller then
  throws.

## Model

| member | source | states |
|---|---|---|
| `Rooms.Room.constructor` | src/main/java/student/adventure/Room.java:14-19 | stores the name, description, item list (absent when null) and edges unchanged |
| `Rooms.Room.GetDirections` | src/main/java/student/adventure/Room.java:45-51 | one label per edge, in edge order, each lowercased |
| `Rooms.Room.GetItems` | src/main/java/student/adventure/Room.java:57-66 | None exactly when the room has no item list; otherwise the same length and order, each item lowercased |
| `Rooms.FirstMatch` | src/main/java/student/adventure/Room.java:75-77 | the position of an item equal to the argument ignoring case, with no such item before it |
| `Rooms.Room.TakeItem` | src/main/java/student/adventure/Room.java:72-83 | the loop leaves the list without the first item equal to the argument ignoring case, and unchanged when no item matches |
| `Rooms.TakeItemCount` | src/main/java/student/adventure/Room.java:72-83 | takeItem shortens the list by exactly one when an item matches and by none otherwise; the multiset loses exactly the matched item |
| `Rooms.Room.DropItem` | src/main/java/student/adventure/Room.java:89-96 | the loop leaves the old list followed by the argument exactly as given, duplicates allowed |
| `Rooms.Room.ConstructDirectionMap` | src/main/java/student/adventure/Room.java:25-31 | no contract of its own: `DirectionMapKeys` and `DirectionMapLastWins` state its keys and values |
| `Rooms.LowerMemberIffMatch` | src/main/java/student/adventure/GameEngine.java:310-314 | the engine's take test (lowercased argument among the lowercased items) holds exactly when takeItem finds a case-insensitive match |
| `Rooms.TakeMatchIsListed` | src/main/java/student/adventure/GameEngine.java:306-314 | for the trimmed argument, the engine's take test is the case-insensitive match |
| `Rooms.DirectionMapKeys` | src/main/java/student/adventure/Room.java:25-31 | the keys of constructDirectionMap are exactly the lowercased labels getDirections lists |
| `Rooms.DirectionMapLastWins` | src/main/java/student/adventure/Room.java:25-31 | a label used by several edges (ignoring case) leads to the target of the last of them |
| `Layouts.RoomsName` | src/main/java/student/adventure/Layout.java:28-37 | empty when there are no rooms; otherwise the room names, same length and order |
| `Layouts.Materialize` | src/main/java/student/adventure/GameEngine.java:52-54 | the layout holds the file's start, end and rooms field for field, one fresh Room per room entry |
| `Layouts.LayoutOfNames` | src/main/java/student/adventure/Layout.java:28-37 | the layout's room names are the file's room names, and absent exactly when the file has no rooms |
| `Layouts.RoomIndexSound` | src/main/java/student/adventure/GameEngine.java:66-73 | the index has exactly the listed names as keys, and each key leads to a listed room of that name |
| `Layouts.RoomIndexOfFile` | src/main/java/student/adventure/GameEngine.java:66-73 | the index of a loaded world is keyed by the file's names and files each room under its own name; its edges resolve when the file's do, and every room has an item list when every room entry of the file has one |
| `Layouts.LastEntry` | src/main/java/student/adventure/GameEngine.java:66-73 | the last room entry carrying the name, with no later entry of that name, or -1 exactly when no entry has the name |
| `Layouts.RoomIndexBuiltFrom` | src/main/java/student/adventure/GameEngine.java:50-73 | every room of the index built from a loaded file is the Room Gson made of the file's last entry with its name: same name, description, edges and item list (`IndexBuiltFrom`); the parts that never change agree with that entry (`IndexOfFile`) |
| `Interpreter.CheckExitIff` | src/main/java/student/adventure/GameEngine.java:243-247 | checkExit accepts exactly the lines that lowercase to "exit" or "quit" |
| `Interpreter.CheckExamineIff` | src/main/java/student/adventure/GameEngine.java:254-257 | checkExamine accepts exactly the lines that, trimmed and lowercased, read "examine" |
| `Interpreter.CheckHistoryIff` | src/main/java/student/adventure/GameEngine.java:264-267 | checkHistory accepts exactly the lines that lowercase to "view history" (Dafny proves it by unfolding the definitions) |
| `Interpreter.CheckExit` | src/main/java/student/adventure/GameEngine.java:243-247 | no contract of its own: `CheckExitIff` states which lines it accepts |
| `Interpreter.CheckExamine` | src/main/java/student/adventure/GameEngine.java:254-257 | no contract of its own: `CheckExamineIff` states which lines it accepts |
| `Interpreter.CheckHistory` | src/main/java/student/adventure/GameEngine.java:264-267 | no contract of its own: `CheckHistoryIff` states which lines it accepts |
| `Interpreter.KeywordTestsExclusive` | src/main/java/student/adventure/GameEngine.java:184-190 | on a trimmed line, the exit, examine and history tests never accept the same line (Dafny proves it by unfolding the definitions) |
| `Interpreter.KeywordsAreNotCommands` | src/main/java/student/adventure/GameEngine.java:184-197 | a trimmed exit, examine or history line is neither an item command nor a move |
| `Interpreter.ParseGoIgnoresCase` | src/main/java/student/adventure/GameEngine.java:211-218 | goGame's parsing gives the same result for a line and for its lowercase |
| `Interpreter.ParseGoPadded` | src/main/java/student/adventure/GameEngine.java:216-218 | "go " in any case, then a label with any whitespace around it, looks up the lowercased label ("gO PRACtIce" reaches "practice") |
| `Interpreter.ParseGo` | src/main/java/student/adventure/GameEngine.java:211-218 | no contract of its own: `ParseGoIgnoresCase`, `ParseGoPadded` and `GoGameOutcome` state what it parses |
| `Interpreter.ParseItemPrefix` | src/main/java/student/adventure/GameEngine.java:305-333 | a line is a take exactly when it is longer than five characters and starts with "take " in any case; a drop when it starts with "drop " instead (Dafny proves it by unfolding the definitions) |
| `Interpreter.ParseItem` | src/main/java/student/adventure/GameEngine.java:305-333 | no contract of its own: `ParseItemPrefix` and `KeywordsAreNotCommands` state which lines are item commands |
| `Interpreter.OperateItem` | src/main/java/student/adventure/GameEngine.java:302-336 | handled exactly for a take or drop line; crashes (NoItemList) exactly when a take, or a drop of something held, meets a room without an item list; any outcome but Taken or Dropped changes nothing |
| `Interpreter.OperateItemSignals` | src/main/java/student/adventure/GameEngine.java:302-336 | each outcome of checkOperateItem in terms of the membership tests: taken iff the trimmed lowercased argument is among the lowercased room items, dropped iff the lowercased argument is held and the room has a list, not held iff it is not held (Dafny proves it by unfolding the definitions) |
| `Interpreter.TakeOutcome` | src/main/java/student/adventure/GameEngine.java:306-320 | a take succeeds iff some room item equals the argument ignoring case; then exactly the first such item leaves and the trimmed argument as typed is collected; otherwise nothing changes |
| `Interpreter.TakeFound` | src/main/java/student/adventure/GameEngine.java:312-315 | the successful case of TakeOutcome |
| `Interpreter.DropOutcome` | src/main/java/student/adventure/GameEngine.java:321-330 | a drop succeeds iff the lowercased argument is held; then the lowercased text is appended to the room and one occurrence of the argument as typed leaves the collection; otherwise it is "not held" and nothing changes |
| `Interpreter.DropWrongCaseKeepsHolding` | src/main/java/student/adventure/GameEngine.java:323-325 | a held lowercase item dropped with capitals goes back to the room while the collection keeps it (Dafny proves it by unfolding the definitions) |
| `Interpreter.TakeThenDropRestores` | src/main/java/student/adventure/GameEngine.java:302-336 | taking a present item by its lowercase name and dropping it by the same name restores the room's lowercased items and the collection as multisets |
| `Interpreter.TakeThenDropRefused` | src/main/java/student/adventure/GameEngine.java:313-325 | taking by a name with capitals and then dropping by any spelling of it is refused and changes nothing |
| `Interpreter.DropLowerCatRefused` | src/main/java/student/adventure/GameEngine.java:323-325 | with "CAT" held and a room of dog and rabbit, "drop cat" is refused and changes nothing (Dafny proves it by unfolding the definitions) |
| `Interpreter.RecordForPlayer` | src/main/java/student/adventure/GameEngine.java:276-294 | nothing changes unless the command was handled; a take appends the untrimmed text after the prefix to the player's list, creating it; a drop removes one occurrence of that text; a drop by a player without a list throws; other players' lists are untouched |
| `Interpreter.FailedTakeStillRecorded` | src/main/java/student/adventure/GameEngine.java:276-288 | a take the room cannot satisfy changes no item list, yet the player's list gains the text |
| `Interpreter.RecordTakeThenDrop` | src/main/java/student/adventure/GameEngine.java:280-292 | a web take followed by a drop of the same text leaves the player's list the same multiset |
| `Interpreter.WebTakeThenDropRestores` | src/main/java/student/adventure/GameEngine.java:275-294 | "take x" then "drop x" from the web, for a present lowercase item x, restores the room's lowercased items, the engine's collection and the player's list as multisets |
| `Interpreter.OfferedTakeSucceeds` | src/main/java/student/adventure/GameEngine.java:101-113 | every lowercased room item without surrounding whitespace, sent back as "take " and the item, is taken |
| `Interpreter.PrintList` | src/main/java/student/adventure/GameEngine.java:380-399 | the loop builds "a, b, or c" (the element alone for one element), and "No item in this room" for a null or empty list |
| `Interpreter.ListLine` | src/main/java/student/adventure/GameEngine.java:380-399 | no contract of its own: it is the specification `PrintList` is proved equal to |
| `Interpreter.HistoryMessageGrows` | src/main/java/student/adventure/GameEngine.java:144-145 | each move adds "->" and the new room's name before the closing brace of the history text |
| `Interpreter.HistoryMessage` | src/main/java/student/adventure/GameEngine.java:144-145 | no contract of its own: `HistoryMessageGrows` states how it grows with each room |
| `Interpreter.GoMessage` | src/main/java/student/adventure/GameEngine.java:211-233 | no contract of its own: the three messages goGame prints for a local player, none after a move; `TerminalStep` and `MoveStep` promise that the terminal prints exactly this line for goGame's outcome |
| `Interpreter.ItemMessage` | src/main/java/student/adventure/GameEngine.java:316-329 | no contract of its own: the "no item" and "don't have" messages of checkOperateItem, none otherwise; `TerminalStep` and `ItemLineStep` promise that the terminal prints exactly this line for the take/drop outcome |
| `Interpreter.GameValidity` | src/main/java/student/adventure/GameEngine.java:343-362 | accepts exactly a non-empty room list with a start and an end among the names; each of the five refusals holds exactly when the checks before it pass and its own fails, in the source's order |
| `Engine.SpecificationLines` | src/main/java/student/adventure/GameEngine.java:406-417 | the description first; the description alone exactly in the ending room, names compared ignoring case |
| `Engine.PrintSpecification` | src/main/java/student/adventure/GameEngine.java:406-417 | prints the description, then the directions and the visible items with printList |
| `Engine.CheckIfExit` | src/main/java/student/adventure/GameEngine.java:368-374 | no contract of its own: the quit line or the win line; `ReadCommands`, `PlayTerminal` and `RunGameTerminal` promise it is the last line printed on a quit or a win |
| `Engine.Dispatch` | src/main/java/student/adventure/GameEngine.java:184-197 | no contract of its own: the order of the terminal tests, which `TerminalStep` follows; `KeywordTestsExclusive` and `KeywordsAreNotCommands` show the keyword lines never reach the later branches |
| `Engine.ConvertedCommand` | src/main/java/student/adventure/GameEngine.java:126-131 | no contract of its own: `OfferedMoveSucceeds` and `OfferedTakeOptionSucceeds` show that the text it builds from an offered option is carried out |
| `Engine.GameEngine.constructor` | src/main/java/student/adventure/GameEngine.java:24-42 | an empty index, collections, positions and histories |
| `Engine.GameEngine.SetMapLayout` | src/main/java/student/adventure/GameEngine.java:66-73 | the loop builds the room index, a later room of the same name replacing an earlier one |
| `Engine.GameEngine.LoadJson` | src/main/java/student/adventure/GameEngine.java:50-59 | an unreadable file or the first failed validity check is an error, and the index is kept; otherwise the index of the fresh rooms, keyed by the file's names, each filed under its own name |
| `Engine.GameEngine.LoadIndex` | src/main/java/student/adventure/GameEngine.java:50-59 | the facts about loadJson that its callers use: the refusals, the index's keys, fresh rooms filed under their names, resolving edges, item lists on every room when the file gives them, and every room built from the file's last entry of its name |
| `Engine.GameEngine.StartGame` | src/main/java/student/adventure/GameEngine.java:82-93 | refuses exactly what loadJson refuses, changing nothing; otherwise rebuilds the index from the file, places the player in the starting room with history exactly [start] and returns its status, whose message is the description of the file's last entry of that name and whose options come from that entry's edges and items |
| `Engine.GameEngine.GetCommandOptions` | src/main/java/student/adventure/GameEngine.java:101-113 | exactly the keys go, take, examine, view history and drop; OfferedMoveSucceeds and OfferedTakeOptionSucceeds tie the offered go and take lists to the operations |
| `Engine.GameEngine.GoGame` | src/main/java/student/adventure/GameEngine.java:208-236 | no contract of its own: `GoGameOutcome`, `GoLandsInIndex` and `GoStaysInIndex` state its outcomes |
| `Engine.GameEngine.GoGameOutcome` | src/main/java/student/adventure/GameEngine.java:208-236 | goGame moves iff the line is a go whose trimmed lowercased label is one of the room's directions; "too short" iff the line is at most three characters; otherwise it returns the current room |
| `Engine.GoLandsInIndex` | src/main/java/student/adventure/GameEngine.java:220-228 | any room goGame returns is a room of the index, filed under its name |
| `Engine.GoStaysInIndex` | src/main/java/student/adventure/GameEngine.java:220-228 | when every edge resolves, goGame never returns null, and a move follows an edge whose lowercased label is the typed label |
| `Engine.SoundIndexNeverCrashes` | src/main/java/student/adventure/GameEngine.java:184-197 | when every room of the index has an item list and every edge names a room of the index, no line crashes the terminal step in any room |
| `Engine.OfferedMoveSucceeds` | src/main/java/student/adventure/GameEngine.java:101-113 | every offered "go" option, sent back as "go " and the option, moves the player |
| `Engine.OfferedTakeOptionSucceeds` | src/main/java/student/adventure/GameEngine.java:101-113 | every offered "take" option, sent back as "take " and the option, is taken |
| `Engine.GameEngine.RunGameServer` | src/main/java/student/adventure/GameEngine.java:121-159 | go: the position becomes goGame's room and the history grows by its name, or an exception when goGame returns null, with nothing changed; view history and examine change nothing; take/drop: the room, the collection and the player's items follow the take/drop rules; the status shows the history or the room with its options |
| `Engine.GameEngine.ServerStatus` | src/main/java/student/adventure/GameEngine.java:142-157 | no contract of its own: the status `RunGameServer` and `ExecuteCommand` promise for every command but go |
| `Engine.GameEngine.ServerMove` | src/main/java/student/adventure/GameEngine.java:132-141 | runGameServer's go branch, including the exception on a null room |
| `Engine.GameEngine.ServerStay` | src/main/java/student/adventure/GameEngine.java:142-158 | runGameServer for every command but go: the player stays; take/drop follow the web item wrapper, anything else changes nothing |
| `Engine.GameEngine.ServerShow` | src/main/java/student/adventure/GameEngine.java:142-157 | the status of view history and of any other non-item command |
| `Engine.GameEngine.MovePlayer` | src/main/java/student/adventure/GameEngine.java:134-140 | the player stands in the new room, its name ends the history, and the status shows it |
| `Engine.GameEngine.ServerItem` | src/main/java/student/adventure/GameEngine.java:148-153 | runGameServer's take/drop branch: the web item wrapper's changes, then the room's status |
| `Engine.GameEngine.CheckOperateItem` | src/main/java/student/adventure/GameEngine.java:302-336 | the method's result and its changes to the room and the collection are exactly OperateItem's |
| `Engine.GameEngine.CheckOperateItemForWeb` | src/main/java/student/adventure/GameEngine.java:275-294 | the item changes are OperateItem's; the player's lists are RecordForPlayer's unless an exception was thrown, which happens exactly on a room without a list or a drop by a player without a list |
| `Engine.GameEngine.RecordItemForWeb` | src/main/java/student/adventure/GameEngine.java:280-293 | the player's lists become RecordForPlayer's, or stay as they were when it throws |
| `Engine.GameEngine.RunGameTerminal` | src/main/java/student/adventure/GameEngine.java:166-200 | refuses exactly the worlds loadJson refuses, printing nothing; otherwise prints the welcome and then the description of the file's last entry named as the starting room, records the starting room, and every room of the index agrees with the file's entry of its name; the history then grows by one name for each line read that the loop hands to goGame (`MovesOf`), except a line that crashes; it ends Won iff the last room reached is the ending room ignoring case, and prints the closing line on a win or a quit; it returns how many lines were read: Quit exactly when the last of them is an exit line and no earlier one is, InputEnded only after reading every line, and Crashed only after reading a line and never for a world whose rooms all have item lists and whose edges resolve |
| `Engine.GameEngine.PlayTerminal` | src/main/java/student/adventure/GameEngine.java:170-199 | the game once the world is loaded, with the same promises over the index: the history grows by the starting room and then one name per line handed to goGame (a crashing last line excepted); Crashed only for an index with a room lacking an item list or an edge to a missing room |
| `Engine.GameEngine.ReadCommands` | src/main/java/student/adventure/GameEngine.java:179-199 | the loop ends Won iff the player stands in the ending room (ignoring case), prints the closing line on a win or a quit, and keeps the player in a room of the index and the history naming rooms of the index, the current one last; the history grows by exactly one name per line read that was handed to goGame, a crashing last line excepted, and the player is still in the starting room when no such line was read (`MovesRecorded`); of the lines it read (`ReadUntilExit`) only the last can be an exit line, and it is one exactly on Quit; InputEnded only when every line was read; Crashed only after a line was read and only over an unsound index |
| `Engine.GameEngine.PlayTurn` | src/main/java/student/adventure/GameEngine.java:180-197 | one pass as the loop sees it: the loop's facts (`Playing`, the exit lines read, `MovesRecorded`) hold again after the line, counting it when it was handed to goGame and did not crash |
| `Engine.GameEngine.TerminalTurn` | src/main/java/student/adventure/GameEngine.java:182-197 | trims the next line and carries it out: the quit flag iff it is an exit line; a line not handed to goGame, and any line that crashes, leaves the room and the history as they were; a move that does not crash appends the room to the history; a crash never happens over an index whose rooms all have item lists and whose edges resolve |
| `Engine.LineMarksExist` | src/main/java/student/adventure/GameEngine.java:184-197 | every sequence of typed lines has its marks of the lines the loop hands to goGame (`MoveLines` gives them), so the counts above are about real lines |
| `Engine.GameEngine.TerminalStep` | src/main/java/student/adventure/GameEngine.java:182-197 | one line in the order exit, examine, take/drop, view history, go: the quit flag iff exit; examine prints the room; an item line follows the take/drop rules and prints their message, crashing exactly on a room without an item list; history prints the history; any other line moves as goGame says, records and prints the room, or crashes on a null room |
| `Engine.GameEngine.CommandStep` | src/main/java/student/adventure/GameEngine.java:188-197 | the last three branches of the terminal step |
| `Engine.GameEngine.ItemLineStep` | src/main/java/student/adventure/GameEngine.java:188-189 | checkOperateItem as the terminal calls it, with its failure message |
| `Engine.GameEngine.HistoryOrMoveStep` | src/main/java/student/adventure/GameEngine.java:190-197 | view history prints the history and changes nothing; otherwise the goGame step |
| `Engine.GameEngine.MoveStep` | src/main/java/student/adventure/GameEngine.java:194-196 | the player moves to goGame's room, which is appended to the history and printed, or the game crashes on a null room, changing nothing |
| `Service.MyAdventureService.constructor` | src/main/java/student/server/MyAdventureService.java:8-12 | a new engine whose index, collections, positions and histories are all empty, no games, id 0 |
| `Service.MyAdventureService.Reset` | src/main/java/student/server/MyAdventureService.java:18-22 | id 0, a new engine with every collection empty, no games |
| `Service.MyAdventureService.NewGame` | src/main/java/student/server/MyAdventureService.java:29-39 | the id goes up by one first; a world that cannot start fails with the import message, stores nothing and leaves the engine as it was; otherwise the engine's index is rebuilt from the world, each room built afresh from the file's last entry of its name (so its items are the file's again), the start status is stored under the new, previously unused id, which is returned, and only that player's position and history are added, every other player and collection kept |
| `Service.MyAdventureService.GetGame` | src/main/java/student/server/MyAdventureService.java:47-49 | the stored status, or None for an unknown id |
| `Service.MyAdventureService.DestroyGame` | src/main/java/student/server/MyAdventureService.java:57-68 | false and no change for an unknown id; otherwise the game is removed and true returned |
| `Service.MyAdventureService.ExecuteCommand` | src/main/java/student/server/MyAdventureService.java:76-80 | an unknown id throws and changes nothing; otherwise only that id's entry is replaced, by the engine's status, and the engine changes as runGameServer says (the room keeps its items for commands other than take and drop); when the engine throws, nothing is stored |
| `Service.NewIndexKeepsPlayersPlaced` | src/main/java/student/server/MyAdventureService.java:33 | rebuilding the index from the same world keeps every placed player in a room the index names (Dafny proves it by unfolding the definitions) |

## Left out

- JSON reading and parsing (Gson, FileUtils): a world file is given as its parsed content, `Option<WorldFile>`, where None means it could not be read or parsed. The service's fixed file name "game.json" is a constant world.
- Console I/O: the "> " prompt, the Scanner and System.out are not modelled. Printed lines are returned as text.
- The end of the terminal's input, where the Scanner throws, is the outcome `InputEnded`. A NullPointerException in the terminal game is the outcome `Crashed`; the stack trace is not modelled.
- `runLocalFlag`: it only decides whether goGame and checkOperateItem print. The terminal game returns their messages and the web path does not. A web command issued after a terminal game in the same engine would also print; that is not modelled.
- The image URL is only a flag, `hasImage`. `AdventureState` carries nothing and is left out. The video link is always absent.
- `fetchLeaderboard` returns null in the source and is not modelled. `AdventureException` is modelled as its message.
- HTTP routing, the server and the program entry point are not part of this model.
- Concurrency: overlapping web requests on the shared maps are not modelled; every operation runs alone.
- Unicode case rules: `toLowerCase` and `equalsIgnoreCase` change only the ASCII letters. `trim` removes every character up to the space, as Java's does.
- A null command name or value is not modelled: the command's fields are strings.
- Service.MyAdventureService.NewGame: ids are unbounded integers; the source's `int` would wrap after 2147483647 games.
- Rooms.Room.constructor: null strings inside a room entry cannot be written in the model, because names, descriptions, edge labels and items are strings. An edge without a "room" maps its label to null in constructDirectionMap (Room.java:28); goGame then prints "I can't go" and stays (GameEngine.java:222-226), while the model's edge always names a room. An edge without a "directionName" throws in constructDirectionMap and getDirections (Room.java:28, 48). A null item throws in getItems (Room.java:63). A room without a name or description is not modelled.
- Rooms.Room.constructor: a room entry without a "directions" list cannot be written in the model, because a room's edges are a sequence; such a room reads as a room without edges. The source keeps null there, and each use of the list throws. The lines below list those uses.
- Engine.GameEngine.StartGame: a starting room without a "directions" list makes getCommandOptions throw (GameEngine.java:86-87); the model starts the game.
- Service.MyAdventureService.NewGame: for a starting room without a "directions" list the source fails with the import message, because startGame throws; the model stores the new game.
- Engine.GameEngine.RunGameServer: while the player stands in a room without a "directions" list, getCommandOptions throws on every web command (GameEngine.java:101-103), and a go from it throws in constructDirectionMap; a go into such a room throws before the position changes (GameEngine.java:133-136). The model carries on, with no go options.
- Engine.GameEngine.GoGame: a go command from a room without a "directions" list throws in constructDirectionMap (Room.java:25-31); the model finds no edge and stays.
- Engine.GameEngine.TerminalStep: for a room without a "directions" list, examine throws in printSpecification (GameEngine.java:186-187, 413), and so does a move into it that does not reach the ending room, after the room was added to the history (GameEngine.java:194-196); a go from it throws as in GoGame. The model prints the room with no directions.
- Engine.GameEngine.RunGameTerminal: a starting room without a "directions" list that is not the ending room throws in the first printSpecification (GameEngine.java:176); the model prints it.
- Rooms.Room.TakeItem: requires the room to have an item list. The source throws on a null list, but checkOperateItem, the only caller, reports NoItemList before calling it.
- Rooms.Room.DropItem: requires the room to have an item list, for the same reason as TakeItem.
- Engine.GameEngine.GoGame: requires the named room to be in the index when the line is a go command, where the source would dereference a null room. Every caller passes the name of a room of the index.
- Engine.GameEngine.SetMapLayout: requires the layout to have rooms, where the source would iterate over a null array. loadJson validates the layout first.
- Engine.GameEngine.RunGameServer: requires the status's player to have a position, a history for go and view history, and, for a go, a current room whose name the index holds. The source would throw on a missing position or history. The service's invariant provides all three for every stored game, and an unknown id is modelled in ExecuteCommand.
- Interpreter.RecordForPlayer: requires a handled line to be longer than the prefix. Only take and drop lines, which are longer, are handled.
- Engine.GameEngine.TerminalStep: requires the current room to be in the index, filed under its name. The terminal loop keeps this for every room it reaches.
- Engine.GameEngine.ReadCommands: of a Crashed end it states that a line was read and that the index is unsound, not which line crashed. The crash condition on the line itself (`CrashesIn`) is stated one pass at a time, by TerminalStep. Of the history it states how many names each line adds, not which room each go line reached; that is TerminalStep's, one pass at a time. Of the printed lines it states only the closing one; the lines of each pass are TerminalStep's.
- Engine.GameEngine.PlayTerminal: relays ReadCommands' Crashed clause and history count, with the same limits.
- Engine.GameEngine.TerminalTurn: states that a crashing line leaves the room and the history alone, but not the crash condition itself; TerminalStep, which it calls, states `CrashesIn`.
- Engine.GameEngine.RunGameTerminal: relays ReadCommands' Crashed clause and history count, with the same limits, stated over the world file. Of the printed lines it states the welcome, the starting room's description and the closing line.
