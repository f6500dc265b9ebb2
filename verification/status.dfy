/**
 * The records the web service exchanges with its clients: a command sent by
 * a player and the game status sent back.
 */
module Status {
  import opened Wrappers

  /** Command.java: the action's name (such as "go") and its argument (such as "north"). */
  datatype Command = Command(commandName: string, commandValue: string)

  /**
   * The commands a client may offer next and their possible arguments; an
   * absent list (null in the source) is None.
   */
  type CommandOptions = map<string, Option<seq<string>>>

  /**
   * GameStatus.java: whether this is an error state, the game's id, the text
   * to show, whether the fixed room image is linked (the link's text is not
   * modelled), a video link and the command options. The source's empty
   * AdventureState object carries nothing and is left out.
   */
  datatype GameStatus = GameStatus(
    error: bool,
    id: int,
    message: string,
    hasImage: bool,
    videoUrl: Option<string>,
    commandOptions: CommandOptions)
}
