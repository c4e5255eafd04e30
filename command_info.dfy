/**
 * `CommandInfo`: the immutable description a command node is built from, with the
 * defaults its builder fills in for every field the caller leaves unset.
 */
module Info {
  import opened Wrappers

  /** The owning plugin: host plumbing that the dispatch logic never inspects. */
  datatype Plugin = Plugin(name: string)

  const DefaultWrongUsageMessage: string := "&c[!] Wrong use of command."
  const DefaultCommandUsageMessage: string := "/help"
  const DefaultNoConsoleUsageMessage: string := "&c[!] This is a player only command."
  const DefaultNoPermissionMessage: string := "&c[!] You do not have permissions to execute this command."

  /**
   * A null field is `None`. `plugin`, `command` and `aliases` have no default and
   * must be named at every construction; every other field may be left out.
   */
  datatype CommandInfo = CommandInfo(
    nameonly plugin: Plugin,
    nameonly command: string,
    nameonly wrongUsageMessage: Option<string> := Some(DefaultWrongUsageMessage),
    nameonly commandUsageMessage: Option<string> := Some(DefaultCommandUsageMessage),
    nameonly consoleUse: bool := false,
    nameonly permission: Option<string> := None,
    nameonly noConsoleUsageMessage: Option<string> := Some(DefaultNoConsoleUsageMessage),
    nameonly noPermissionMessage: Option<string> := Some(DefaultNoPermissionMessage),
    nameonly aliases: seq<string>)

  /** `CommandInfo.builder().plugin(p).command(c).aliases(a).build()`. */
  function Build(plugin: Plugin, command: string, aliases: seq<string>): (info: CommandInfo)
    ensures info.plugin == plugin && info.command == command && info.aliases == aliases
    ensures info.wrongUsageMessage == Some("&c[!] Wrong use of command.")
    ensures info.commandUsageMessage == Some("/help")
    ensures !info.consoleUse
    ensures info.permission == None
    ensures info.noConsoleUsageMessage == Some("&c[!] This is a player only command.")
    ensures info.noPermissionMessage == Some("&c[!] You do not have permissions to execute this command.")
  {
    CommandInfo(plugin := plugin, command := command, aliases := aliases)
  }
}
