/**
 * The pure half of GameEngine: recognising commands, the take/drop rules as a
 * function of the item lists, the world validity check, and the texts the
 * engine shows to the player.
 */
module Interpreter {
  import opened Wrappers
  import opened JavaStrings
  import opened JavaCollections
  import opened Rooms
  import opened Layouts

  /** The length of "go ": a move command must be longer than this. */
  const GO_PREFIX: nat := 3
  /** The length of "take " and of "drop ": an item command must be longer than this. */
  const TAKE_PREFIX: nat := 5

  // ------------------------------------------------------- command families

  /** GameEngine.checkExit: "exit" or "quit", ignoring case. */
  predicate CheckExit(userInput: string)
  {
    EqualsIgnoreCase(userInput, "exit") || EqualsIgnoreCase(userInput, "quit")
  }

  /** GameEngine.checkExamine: "examine", ignoring case and surrounding whitespace. */
  predicate CheckExamine(userInput: string)
  {
    EqualsIgnoreCase(Trim(userInput), "examine")
  }

  /** GameEngine.checkHistory: "view history", ignoring case. */
  predicate CheckHistory(userInput: string)
  {
    EqualsIgnoreCase(userInput, "view history")
  }

  /** What GameEngine.goGame makes of a command line. */
  datatype GoCommand =
    | TooShort         // no longer than "go "
    | NotGo            // longer, but does not start with "go " in any case
    | GoTo(key: string) // the lowercased, trimmed label to look up

  /** The parsing half of GameEngine.goGame. */
  function ParseGo(userDirection: string): GoCommand
  {
    if |userDirection| <= GO_PREFIX then TooShort
    else if StartsWith(Lower(userDirection), "go ") then GoTo(Lower(Trim(userDirection[GO_PREFIX..])))
    else NotGo
  }

  /** What GameEngine.checkOperateItem makes of a command line. */
  datatype ItemCommand = NoItemCommand | Take(item: string) | Drop(item: string)

  /**
   * The parsing half of GameEngine.checkOperateItem: the argument is the text
   * after the five-character prefix, trimmed; take is tested before drop.
   */
  function ParseItem(userInput: string): ItemCommand
  {
    if |userInput| <= TAKE_PREFIX then NoItemCommand
    else
      var itemString := Trim(userInput[TAKE_PREFIX..]);
      if StartsWith(Lower(userInput), "take ") then Take(itemString)
      else if StartsWith(Lower(userInput), "drop ") then Drop(itemString)
      else NoItemCommand
  }

  /** A line is an item command exactly when it is longer than the prefix and starts with "take " or "drop " in any case. */
  lemma {:induction false} ParseItemPrefix(userInput: string)
    ensures ParseItem(userInput).Take? <==> |userInput| > TAKE_PREFIX && StartsWith(Lower(userInput), "take ")
    ensures ParseItem(userInput).Drop? <==>
              |userInput| > TAKE_PREFIX && !StartsWith(Lower(userInput), "take ") && StartsWith(Lower(userInput), "drop ")
  {
  }

  // ------------------------------------------------------------ take / drop

  /**
   * What GameEngine.checkOperateItem would report to a local player.
   * NoItemList: the command had to read the room's item list and the room has
   * none, so the source throws NullPointerException and nothing changes.
   */
  datatype ItemSignal = NotAnItemCommand | Taken | NoSuchItem | Dropped | NotHeld | NoItemList

  /** The outcome of checkOperateItem: its return value and the two item lists afterwards. */
  datatype ItemStep = ItemStep(handled: bool, items: Option<seq<string>>, collected: seq<string>, signal: ItemSignal)

  /** The command reads the room's item list: every take, and a drop of something held. */
  predicate ReachesItemList(collected: seq<string>, c: ItemCommand)
  {
    c.Take? || (c.Drop? && Lower(c.item) in collected)
  }

  /**
   * GameEngine.checkOperateItem as a function of the room's items and the
   * engine-wide collected list. A take succeeds when the lowercased argument
   * is among the lowercased room items; a drop succeeds when the lowercased
   * argument is in the collected list, and then puts the lowercased text in
   * the room while removing the argument as typed from the collection. Every
   * take or drop counts as handled, whether it succeeds or not; a failure
   * changes nothing, and so does a line that is no item command. A command
   * that reaches a room without an item list crashes (NoItemList).
   */
  function OperateItem(items: Option<seq<string>>, collected: seq<string>, c: ItemCommand): (o: ItemStep)
    ensures o.handled <==> !c.NoItemCommand?
    ensures o.signal == NoItemList <==> ReachesItemList(collected, c) && items.None?
    ensures o.signal != Taken && o.signal != Dropped ==> o.items == items && o.collected == collected
    ensures o.items.Some? <==> items.Some?
  {
    match c
    case NoItemCommand => ItemStep(false, items, collected, NotAnItemCommand)
    case Take(item) =>
      if items.None? then ItemStep(true, items, collected, NoItemList)
      else if Trim(Lower(item)) in LowerAll(items.value) then
        ItemStep(true, Some(WithoutFirstMatch(items.value, item)), collected + [item], Taken)
      else
        ItemStep(true, items, collected, NoSuchItem)
    case Drop(item) =>
      if Lower(item) !in collected then ItemStep(true, items, collected, NotHeld)
      else if items.None? then ItemStep(true, items, collected, NoItemList)
      else ItemStep(true, Some(items.value + [Lower(item)]), Remove(collected, item), Dropped)
  }

  /** When checkOperateItem reports each outcome: the membership tests behind the take and drop rules. */
  lemma {:induction false} OperateItemSignals(items: Option<seq<string>>, collected: seq<string>, c: ItemCommand)
    ensures var o := OperateItem(items, collected, c);
            && (o.signal == NotAnItemCommand <==> c.NoItemCommand?)
            && (o.signal == Taken <==> c.Take? && items.Some? && Trim(Lower(c.item)) in LowerAll(items.value))
            && (o.signal == Dropped <==> c.Drop? && items.Some? && Lower(c.item) in collected)
            && (o.signal == NotHeld <==> c.Drop? && Lower(c.item) !in collected)
  {
  }

  /**
   * GameEngine.checkOperateItemForWeb's update of the per-player lists, given
   * what checkOperateItem returned: nothing unless it returned true; then a
   * take appends the untrimmed text after the prefix to the player's list
   * (creating the list if needed) and a drop removes one occurrence of it.
   * A drop by a player who never took anything has no list to remove from:
   * the source throws NullPointerException (None).
   */
  function RecordForPlayer(playerItems: map<int, seq<string>>, playerID: int, userInput: string, handled: bool)
    : (r: Option<map<int, seq<string>>>)
    requires handled ==> |userInput| > TAKE_PREFIX
    ensures r.None? <==> handled && !StartsWith(Lower(userInput), "take ") && playerID !in playerItems
    ensures !handled ==> r == Some(playerItems)
    ensures r.Some? ==> r.value.Keys == playerItems.Keys + (if handled then {playerID} else {})
    ensures r.Some? ==> forall id :: id in playerItems && id != playerID ==> r.value[id] == playerItems[id]
    ensures handled && StartsWith(Lower(userInput), "take ") ==>
              r.Some? && r.value[playerID] ==
                (if playerID in playerItems then playerItems[playerID] else []) + [userInput[TAKE_PREFIX..]]
    ensures handled && !StartsWith(Lower(userInput), "take ") && r.Some? ==>
              multiset(r.value[playerID]) == multiset(playerItems[playerID]) - multiset{userInput[TAKE_PREFIX..]}
  {
    if !handled then Some(playerItems)
    else
      var item := userInput[TAKE_PREFIX..];
      if StartsWith(Lower(userInput), "take ") then
        var held := if playerID in playerItems then playerItems[playerID] else [];
        Some(playerItems[playerID := held + [item]])
      else if playerID !in playerItems then None
      else
        RemoveMultiset(playerItems[playerID], item);
        Some(playerItems[playerID := Remove(playerItems[playerID], item)])
  }

  // ------------------------------------------------------------- messages

  /** What GameEngine.goGame would report to a local player. */
  datatype GoSignal = Moved | NotUnderstoodShort | NotUnderstood | CannotGo

  /** The line goGame prints for a local player, if any. */
  function GoMessage(signal: GoSignal, userDirection: string): Option<string>
  {
    match signal
    case Moved => None
    case NotUnderstoodShort => Some("I don't understand \"" + userDirection + "\"!")
    case NotUnderstood => Some("I don't understand \"" + userDirection + "\".")
    case CannotGo => Some("I can't go \"" + userDirection + "\" !")
  }

  /** The line checkOperateItem prints for a local player, if any. */
  function ItemMessage(signal: ItemSignal, itemString: string): Option<string>
  {
    match signal
    case NoSuchItem => Some("There is no item \"" + itemString + "\" in the room.")
    case NotHeld => Some("You don't have \"" + itemString + "\".")
    case _ => None
  }

  /** The "view history" text: the visited room names joined by "->" inside braces. */
  function HistoryMessage(history: seq<string>): string
  {
    "Your traversed history is: {" + Join(history, "->") + "}"
  }

  /** The text GameEngine.printList prints for a list: "a, b, or c", or a fixed line when there is nothing. */
  function ListLine(inputList: Option<seq<string>>): string
  {
    if inputList.None? || inputList.value == [] then "No item in this room"
    else
      var xs := inputList.value;
      if |xs| == 1 then xs[0] else Join(xs[..|xs| - 1], ", ") + ", or " + xs[|xs| - 1]
  }

  /** GameEngine.printList: builds the line element by element, as the source prints it. */
  method PrintList(inputList: Option<seq<string>>) returns (line: string)
    ensures line == ListLine(inputList)
  {
    if inputList.None? || |inputList.value| == 0 {
      return "No item in this room";
    }
    var xs := inputList.value;
    var n := |xs|;
    line := "";
    for i := 0 to n
      invariant 0 < i < n ==> line == Join(xs[..i], ", ")
      invariant i == 0 ==> line == ""
      invariant i == n ==> line == ListLine(inputList)
    {
      if i == 0 {
        line := line + xs[i];
        assert xs[..1] == [xs[0]];
      } else if i == n - 1 {
        line := line + ", or " + xs[i];
      } else {
        assert xs[..i + 1] == xs[..i] + [xs[i]];
        JoinAppend(xs[..i], xs[i], ", ");
        line := line + ", " + xs[i];
      }
    }
  }

  // ------------------------------------------------------------ validation

  /**
   * GameEngine.gameValidity over a layout's starting room, ending room and
   * room names (null when the layout has no room array). The checks run in
   * order and the first failing one is reported.
   */
  function GameValidity(startingRoom: Option<string>, endingRoom: Option<string>, roomNames: Option<seq<string>>): (failure: Option<LoadError>)
    ensures failure.None? <==>
              && roomNames.Some? && roomNames.value != []
              && startingRoom.Some? && startingRoom.value in roomNames.value
              && endingRoom.Some? && endingRoom.value in roomNames.value
    ensures failure == Some(NoRoomAvailable) <==> roomNames.None? || roomNames.value == []
    ensures failure == Some(StartingRoomNull) <==> roomNames.Some? && roomNames.value != [] && startingRoom.None?
    ensures failure == Some(StartingRoomMissing) <==>
              roomNames.Some? && roomNames.value != [] && startingRoom.Some? && startingRoom.value !in roomNames.value
    ensures failure == Some(EndingRoomNull) <==>
              && roomNames.Some? && roomNames.value != []
              && startingRoom.Some? && startingRoom.value in roomNames.value
              && endingRoom.None?
    ensures failure == Some(EndingRoomMissing) <==>
              && roomNames.Some? && roomNames.value != []
              && startingRoom.Some? && startingRoom.value in roomNames.value
              && endingRoom.Some? && endingRoom.value !in roomNames.value
    ensures failure.Some? ==> failure.value != Unreadable
  {
    if roomNames.None? || |roomNames.value| == 0 then Some(NoRoomAvailable)
    else if startingRoom.None? then Some(StartingRoomNull)
    else if startingRoom.value !in roomNames.value then Some(StartingRoomMissing)
    else if endingRoom.None? then Some(EndingRoomNull)
    else if endingRoom.value !in roomNames.value then Some(EndingRoomMissing)
    else None
  }

  // ---------------------------------------------------------------- lemmas

  /** checkExit accepts exactly the lines that lowercase to "exit" or "quit". */
  lemma {:induction false} CheckExitIff(userInput: string)
    ensures CheckExit(userInput) <==> Lower(userInput) == "exit" || Lower(userInput) == "quit"
  {
    EqualsLowercaseWord(userInput, "exit");
    EqualsLowercaseWord(userInput, "quit");
  }

  /** checkExamine accepts exactly the lines that, trimmed and lowercased, read "examine". */
  lemma {:induction false} CheckExamineIff(userInput: string)
    ensures CheckExamine(userInput) <==> Lower(Trim(userInput)) == "examine"
  {
    EqualsLowercaseWord(Trim(userInput), "examine");
  }

  /** checkHistory accepts exactly the lines that lowercase to "view history". */
  lemma {:induction false} CheckHistoryIff(userInput: string)
    ensures CheckHistory(userInput) <==> Lower(userInput) == "view history"
  {
    EqualsLowercaseWord(userInput, "view history");
  }

  /** Against a word without capitals, equalsIgnoreCase is equality after lowercasing the other side. */
  lemma {:induction false} EqualsLowercaseWord(a: string, word: string)
    requires forall i :: 0 <= i < |word| ==> !('A' <= word[i] <= 'Z')
    ensures EqualsIgnoreCase(a, word) <==> Lower(a) == word
  {
    LowerWithoutCapitals(word);
    EqualsIgnoreCaseIff(a, word);
  }

  /**
   * On a trimmed line, as the terminal loop reads them, the exit, examine and
   * history tests never accept the same line.
   */
  lemma {:induction false} KeywordTestsExclusive(line: string)
    requires IsTrimmed(line)
    ensures CheckExit(line) ==> !CheckExamine(line) && !CheckHistory(line)
    ensures CheckExamine(line) ==> !CheckHistory(line)
  {
    TrimmedFixed(line);
    CheckExitIff(line);
    CheckExamineIff(line);
    CheckHistoryIff(line);
  }

  /**
   * A trimmed line that the exit, examine or history test accepts is neither
   * an item command nor a move; so the order in which the terminal loop
   * tries the tests only decides which lines fall through to goGame.
   */
  lemma {:induction false} KeywordsAreNotCommands(line: string)
    requires IsTrimmed(line)
    ensures CheckExit(line) || CheckExamine(line) || CheckHistory(line) ==>
              ParseItem(line).NoItemCommand? && !ParseGo(line).GoTo?
  {
    if CheckExit(line) {
      CheckExitIff(line);
      KeywordLineNoCommand(line);
    } else if CheckExamine(line) {
      TrimmedFixed(line);
      CheckExamineIff(line);
      KeywordLineNoCommand(line);
    } else if CheckHistory(line) {
      CheckHistoryIff(line);
      KeywordLineNoCommand(line);
    }
  }

  /** A line that lowercases to one of the fixed keywords is neither an item command nor a move. */
  lemma {:induction false} KeywordLineNoCommand(line: string)
    requires var word := Lower(line); word == "exit" || word == "quit" || word == "examine" || word == "view history"
    ensures ParseItem(line).NoItemCommand? && !ParseGo(line).GoTo?
  {
    KeywordsStartNoCommand(Lower(line));
  }

  /** None of the fixed keywords starts with a move or item prefix. */
  lemma {:induction false} KeywordsStartNoCommand(word: string)
    requires word == "exit" || word == "quit" || word == "examine" || word == "view history"
    ensures !StartsWith(word, "go ") && !StartsWith(word, "take ") && !StartsWith(word, "drop ")
  {
    assert word[0] in {'e', 'q', 'v'};
    assert forall p :: StartsWith(word, p) && p != [] ==> word[0] == p[0];
  }

  /** goGame's parsing ignores the case of the whole line. */
  lemma {:induction false} ParseGoIgnoresCase(userDirection: string)
    ensures ParseGo(Lower(userDirection)) == ParseGo(userDirection)
  {
    var low := Lower(userDirection);
    LowerIdempotent(userDirection);
    if |userDirection| > GO_PREFIX {
      LowerSlice(userDirection, GO_PREFIX, |userDirection|);
      assert low[GO_PREFIX..] == Lower(userDirection[GO_PREFIX..]);
      LowerTrimCommute(userDirection[GO_PREFIX..]);
      LowerTrimCommute(low[GO_PREFIX..]);
      LowerIdempotent(Trim(userDirection[GO_PREFIX..]));
    }
  }

  /**
   * A move written with "go " in any case, followed by a label with any
   * whitespace around it, looks up the lowercased label: "gO PRACtIce" goes
   * to "practice".
   */
  lemma {:induction false} ParseGoPadded(prefix: string, pre: string, word: string, post: string)
    requires Lower(prefix) == "go "
    requires AllWhite(pre) && AllWhite(post) && IsTrimmed(word)
    requires |pre + word + post| > 0
    ensures ParseGo(prefix + (pre + word + post)) == GoTo(Lower(word))
  {
    var line := prefix + (pre + word + post);
    LowerAppend(prefix, pre + word + post);
    assert Lower(line)[..3] == "go ";
    assert line[GO_PREFIX..] == pre + word + post;
    TrimPadded(pre, word, post);
  }

  /**
   * A take with a trimmed argument succeeds exactly when some room item equals
   * the argument ignoring case; then precisely the first such item leaves the
   * room, the rest keep their order, and the argument as typed joins the
   * collection.
   */
  lemma {:induction false} TakeOutcome(items: seq<string>, collected: seq<string>, item: string)
    requires IsTrimmed(item)
    ensures var o := OperateItem(Some(items), collected, Take(item));
            && (o.signal == Taken <==> HasMatch(items, item))
            && (HasMatch(items, item) ==>
                  o == ItemStep(true, Some(WithoutFirstMatch(items, item)), collected + [item], Taken))
            && (!HasMatch(items, item) ==> o == ItemStep(true, Some(items), collected, NoSuchItem))
  {
    if HasMatch(items, item) {
      TakeFound(items, collected, item);
    } else {
      TakeNotFound(items, collected, item);
    }
  }

  /** The case of TakeOutcome where some room item matches. */
  lemma {:induction false} TakeFound(items: seq<string>, collected: seq<string>, item: string)
    requires IsTrimmed(item) && HasMatch(items, item)
    ensures OperateItem(Some(items), collected, Take(item)) ==
              ItemStep(true, Some(WithoutFirstMatch(items, item)), collected + [item], Taken)
  {
    TakeMatchIsListed(items, item);
    TakeListed(items, collected, item);
  }

  /** The take rule once its membership test has passed. */
  lemma {:induction false} TakeListed(items: seq<string>, collected: seq<string>, item: string)
    requires Trim(Lower(item)) in LowerAll(items)
    ensures OperateItem(Some(items), collected, Take(item)) ==
              ItemStep(true, Some(WithoutFirstMatch(items, item)), collected + [item], Taken)
  {
  }

  /** The case of TakeOutcome where no room item matches. */
  lemma {:induction false} TakeNotFound(items: seq<string>, collected: seq<string>, item: string)
    requires IsTrimmed(item) && !HasMatch(items, item)
    ensures OperateItem(Some(items), collected, Take(item)) == ItemStep(true, Some(items), collected, NoSuchItem)
  {
    TakeMatchIsListed(items, item);
    TakeUnlisted(items, collected, item);
  }

  /** The take rule once its membership test has failed. */
  lemma {:induction false} TakeUnlisted(items: seq<string>, collected: seq<string>, item: string)
    requires Trim(Lower(item)) !in LowerAll(items)
    ensures OperateItem(Some(items), collected, Take(item)) == ItemStep(true, Some(items), collected, NoSuchItem)
  {
  }

  /**
   * A drop succeeds exactly when the lowercased argument is held; then the
   * lowercased text is appended to the room and one occurrence of the argument
   * as typed, if any, leaves the collection.
   */
  lemma {:induction false} DropOutcome(items: seq<string>, collected: seq<string>, item: string)
    ensures var o := OperateItem(Some(items), collected, Drop(item));
            && (o.signal == Dropped <==> Lower(item) in collected)
            && (o.signal == Dropped ==>
                  o.items == Some(items + [Lower(item)]) &&
                  multiset(o.collected) == multiset(collected) - multiset{item})
            && (o.signal != Dropped ==> o.signal == NotHeld && o.items == Some(items) && o.collected == collected)
  {
    RemoveMultiset(collected, item);
  }

  /**
   * The drop rule tests the lowercased text but removes the text as typed: a
   * player who took "cat" and drops "CAT" puts "cat" in the room and still
   * holds "cat".
   */
  lemma {:induction false} DropWrongCaseKeepsHolding(items: seq<string>, collected: seq<string>, item: string)
    requires Lower(item) in collected && item !in collected
    ensures var o := OperateItem(Some(items), collected, Drop(item));
            o.signal == Dropped && o.items == Some(items + [Lower(item)]) && o.collected == collected
  {
  }

  /**
   * Taking an item by its lowercase name and then dropping it by the same
   * name moves it back: the room's items, lowercased, and the collection are
   * the same multisets as before (the item is now at the end of the room's list).
   */
  lemma {:induction false} TakeThenDropRestores(items: seq<string>, collected: seq<string>, x: string)
    requires IsTrimmed(x) && Lower(x) == x && HasMatch(items, x)
    ensures var t := OperateItem(Some(items), collected, Take(x));
            var back := OperateItem(t.items, t.collected, Drop(x));
            && t.signal == Taken && back.signal == Dropped
            && multiset(LowerAll(back.items.value)) == multiset(LowerAll(items))
            && multiset(back.collected) == multiset(collected)
  {
    TakeFound(items, collected, x);
    var i := FirstMatchAt(items, x);
    DropBackAt(items, collected, x, i);
  }

  /**
   * Dropping `x` right after the item at `i`, which lowercases to `x`, was
   * taken from the room puts the lowercased items and the collection back as
   * they were, as multisets.
   */
  lemma {:induction false} DropBackAt(items: seq<string>, collected: seq<string>, x: string, i: nat)
    requires Lower(x) == x && i < |items| && Lower(items[i]) == x
    ensures var back := OperateItem(Some(items[..i] + items[i + 1..]), collected + [x], Drop(x));
            && back.signal == Dropped
            && multiset(LowerAll(back.items.value)) == multiset(LowerAll(items))
            && multiset(back.collected) == multiset(collected)
  {
    DropHeldOutcome(items[..i] + items[i + 1..], collected, x);
    MovedToEndSameLower(items, i, x);
  }

  /** Dropping, by its lowercase name, an item just appended to the collection puts it back at the room's end. */
  lemma {:induction false} DropHeldOutcome(rest: seq<string>, collected: seq<string>, x: string)
    requires Lower(x) == x
    ensures OperateItem(Some(rest), collected + [x], Drop(x)).signal == Dropped
    ensures OperateItem(Some(rest), collected + [x], Drop(x)).items == Some(rest + [x])
    ensures multiset(OperateItem(Some(rest), collected + [x], Drop(x)).collected) == multiset(collected)
  {
    DropOutcome(rest, collected + [x], x);
    assert x in collected + [x];
    assert multiset(collected + [x]) == multiset(collected) + multiset{x};
  }

  /** Moving one element to the end, written in lowercase, keeps the multiset of lowercased items. */
  lemma {:induction false} MovedToEndSameLower(items: seq<string>, i: nat, x: string)
    requires i < |items| && Lower(items[i]) == x
    ensures multiset(LowerAll(items[..i] + items[i + 1..] + [x])) == multiset(LowerAll(items))
  {
    assert items == items[..i] + [items[i]] + items[i + 1..];
    LowerAllAppend(items[..i] + [items[i]], items[i + 1..]);
    LowerAllAppend(items[..i], [items[i]]);
    LowerAllAppend(items[..i] + items[i + 1..], [x]);
    LowerAllAppend(items[..i], items[i + 1..]);
    assert LowerAll([items[i]]) == [x];
    LowerIdempotent(items[i]);
    assert LowerAll([x]) == [x];
  }

  /** "go ", then a trimmed word, parses as a move to the lowercased word. */
  lemma {:induction false} ParseGoWritten(word: string)
    requires IsTrimmed(word) && word != ""
    ensures ParseGo("go " + word) == GoTo(Lower(word))
  {
    LowerWithoutCapitals("go ");
    assert "go " + word == "go " + ([] + word + []);
    ParseGoPadded("go ", [], word, []);
  }

  /** A verb, a space and a trimmed word parse as that verb's item command on that word. */
  lemma {:induction false} ParseItemWritten(verb: string, word: string)
    requires verb == "take " || verb == "drop "
    requires IsTrimmed(word) && word != ""
    ensures ParseItem(verb + word) == if verb == "take " then Take(word) else Drop(word)
  {
    var line := verb + word;
    LowerAppend(verb, word);
    LowerWithoutCapitals(verb);
    assert Lower(line)[..5] == verb;
    assert line[TAKE_PREFIX..] == word;
    TrimmedFixed(word);
    if verb == "drop " {
      assert Lower(line)[..5][0] == 'd';
    }
  }

  /**
   * Taking an item by a name with capitals and then dropping it by any
   * spelling of the same name is refused (unless the lowercased name was
   * already held): the take collects the name as typed, and the drop looks
   * for the lowercased name.
   */
  lemma {:induction false} TakeThenDropRefused(items: seq<string>, collected: seq<string>, x: string, y: string)
    requires IsTrimmed(x) && HasMatch(items, x) && Lower(x) != x && Lower(x) !in collected
    requires Lower(y) == Lower(x)
    ensures var t := OperateItem(Some(items), collected, Take(x));
            && t.signal == Taken && t.collected == collected + [x]
            && OperateItem(t.items, t.collected, Drop(y)) == ItemStep(true, t.items, t.collected, NotHeld)
  {
    TakeFound(items, collected, x);
    DropUnheld(WithoutFirstMatch(items, x), collected + [x], y);
  }

  /** The drop rule when the lowercased argument is not held: nothing changes. */
  lemma {:induction false} DropUnheld(items: seq<string>, collected: seq<string>, item: string)
    requires Lower(item) !in collected
    ensures OperateItem(Some(items), collected, Drop(item)) == ItemStep(true, Some(items), collected, NotHeld)
  {
  }

  /**
   * In the room of the source's tests, a player who took "CAT" (and so holds
   * "CAT") cannot drop "cat", the argument of "drop cat": the drop rule looks
   * for the lowercased argument exactly.
   */
  lemma {:induction false} DropLowerCatRefused()
    ensures OperateItem(Some(["dog", "rabbit"]), ["CAT"], Drop("cat"))
            == ItemStep(true, Some(["dog", "rabbit"]), ["CAT"], NotHeld)
  {
    assert Lower("cat") !in ["CAT"] by {
      LowerWithoutCapitals("cat");
      assert "cat"[0] != "CAT"[0];
    }
  }

  /**
   * A take the room cannot satisfy is still reported as handled, so the web
   * wrapper records the text after "take " for the player all the same.
   */
  lemma {:induction false} FailedTakeStillRecorded(items: seq<string>, collected: seq<string>,
                                playerItems: map<int, seq<string>>, playerID: int, userInput: string)
    requires ParseItem(userInput).Take? && !HasMatch(items, ParseItem(userInput).item)
    ensures var o := OperateItem(Some(items), collected, ParseItem(userInput));
            var held := if playerID in playerItems then playerItems[playerID] else [];
            && o.signal == NoSuchItem && o.handled
            && o.items == Some(items) && o.collected == collected
            && RecordForPlayer(playerItems, playerID, userInput, o.handled) ==
                 Some(playerItems[playerID := held + [userInput[TAKE_PREFIX..]]])
  {
    var item := ParseItem(userInput).item;
    TrimIdempotent(userInput[TAKE_PREFIX..]);
    TakeOutcome(items, collected, item);
  }

  /**
   * A web player who takes an item by its lowercase name and then drops it
   * by the same name holds the same items as before, as a multiset; the
   * room's items, lowercased, and the engine-wide collection are also back
   * as they were, as multisets.
   */
  lemma {:induction false} WebTakeThenDropRestores(items: seq<string>, collected: seq<string>,
                                                   playerItems: map<int, seq<string>>, playerID: int, x: string)
    requires IsTrimmed(x) && x != "" && Lower(x) == x && HasMatch(items, x)
    ensures var t := OperateItem(Some(items), collected, ParseItem("take " + x));
            var pt := RecordForPlayer(playerItems, playerID, "take " + x, t.handled);
            var back := OperateItem(t.items, t.collected, ParseItem("drop " + x));
            && t.signal == Taken && back.signal == Dropped && pt.Some?
            && multiset(LowerAll(back.items.value)) == multiset(LowerAll(items))
            && multiset(back.collected) == multiset(collected)
            && (var pb := RecordForPlayer(pt.value, playerID, "drop " + x, back.handled);
                && pb.Some? && playerID in pb.value
                && multiset(pb.value[playerID]) == multiset(if playerID in playerItems then playerItems[playerID] else []))
  {
    ParseItemWritten("take ", x);
    ParseItemWritten("drop ", x);
    var t := OperateItem(Some(items), collected, Take(x));
    TakeThenDropRestores(items, collected, x);
    var back := OperateItem(t.items, t.collected, Drop(x));
    assert t.handled && back.handled;
    RecordTakeThenDrop(playerItems, playerID, x);
  }

  /**
   * For the player's own list: recording "take x" and then "drop x" leaves
   * the player holding the same multiset of items.
   */
  lemma {:induction false} RecordTakeThenDrop(playerItems: map<int, seq<string>>, playerID: int, x: string)
    requires IsTrimmed(x) && x != ""
    ensures var pt := RecordForPlayer(playerItems, playerID, "take " + x, true);
            && pt.Some?
            && (var pb := RecordForPlayer(pt.value, playerID, "drop " + x, true);
                && pb.Some? && playerID in pb.value
                && multiset(pb.value[playerID]) == multiset(if playerID in playerItems then playerItems[playerID] else []))
  {
    var held := if playerID in playerItems then playerItems[playerID] else [];
    assert StartsWith(Lower("take " + x), "take ") && ("take " + x)[TAKE_PREFIX..] == x by {
      ParseItemWritten("take ", x);
      ParseItemPrefix("take " + x);
    }
    assert !StartsWith(Lower("drop " + x), "take ") && ("drop " + x)[TAKE_PREFIX..] == x by {
      ParseItemWritten("drop ", x);
      ParseItemPrefix("drop " + x);
    }
    var pt := RecordForPlayer(playerItems, playerID, "take " + x, true);
    assert pt.value[playerID] == held + [x];
    assert multiset(held + [x]) - multiset{x} == multiset(held);
  }

  /** Every item offered as a "take" option can be taken with "take " and that option. */
  lemma {:induction false} OfferedTakeSucceeds(items: seq<string>, collected: seq<string>, option: string)
    requires option in LowerAll(items) && IsTrimmed(option) && option != ""
    ensures ParseItem("take " + option) == Take(option)
    ensures OperateItem(Some(items), collected, Take(option)).signal == Taken
  {
    var line := "take " + option;
    LowerAppend("take ", option);
    assert Lower(line)[..5] == "take ";
    assert line[TAKE_PREFIX..] == option;
    assert [] + option + [] == option;
    TrimPadded([], option, []);
    var i :| 0 <= i < |items| && LowerAll(items)[i] == option;
    LowerIdempotent(items[i]);
    LowerMemberIffMatch(items, option);
    TakeOutcome(items, collected, option);
  }

  /** Each move adds "->" and the new room's name at the end of the history text. */
  lemma {:induction false} HistoryMessageGrows(history: seq<string>, name: string)
    requires history != []
    ensures HistoryMessage(history + [name]) ==
              "Your traversed history is: {" + Join(history, "->") + "->" + name + "}"
  {
    JoinAppend(history, name, "->");
  }
}
