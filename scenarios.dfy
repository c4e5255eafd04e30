/**
 * Small command trees built the way a plugin builds them, bottom-up, and the outcome
 * of dispatching and completing on them.
 */
module Scenarios {
  import opened Wrappers
  import opened Text
  import opened Info
  import opened Commands

  const Host: Plugin := Plugin("host")

  /**
   * A node built from the builder defaults is player-only and needs no permission:
   * a console caller gets the default no-console message, a player always runs it.
   */
  method DefaultNode(command: string, aliases: seq<string>, sender: Sender, args: array<string>)
    returns (log: seq<Effect>)
    ensures !sender.isPlayer ==> log == [Sent("&c[!] This is a player only command.")]
    ensures sender.isPlayer ==>
      log == [Executed(Both, command, args[..]), Executed(PlayerOnly, command, args[..])]
  {
    var node := new BaseCommand(Build(Host, command, aliases));
    log := node.Run(sender, args);
  }

  /** The shape `TownTree` builds. */
  ghost predicate IsTownTree(root: BaseCommand, town: BaseCommand)
    reads root, root.Repr
  {
    && root.Valid() && root.subCommands == map["town" := town] && root.order == ["town"]
    && town in root.Repr && town.Repr <= root.Repr && town.Valid()
    && root.command == "root" && !root.consoleUse && root.permission == None
    && town.command == "town" && town.aliases == {"t"} && town.permission == Some("cmd.town")
    && town.subCommands == map[] && town.noPermissionMessage == Some(DefaultNoPermissionMessage)
  }

  /** A small tree: "root" has the child "town" (alias "T") that needs "cmd.town". */
  method TownTree() returns (root: BaseCommand, town: BaseCommand)
    ensures IsTownTree(root, town)
  {
    root := new BaseCommand(Build(Host, "root", []));
    town := new BaseCommand(Build(Host, "town", ["T"]).(permission := Some("cmd.town")));
    assert Lower("T") == "t";
    root.SubCommand(town);
  }

  lemma LowerTown()
    ensures Lower("town") == "town"
  {
    LowerOfLower("town");
  }

  /** In the town tree, a first token naming "town" in any case, or its alias, runs "town". */
  lemma TownReached(root: BaseCommand, town: BaseCommand, sender: Sender, args: seq<string>)
    requires IsTownTree(root, town) && sender.isPlayer
    requires |args| > 0 && (Lower(args[0]) == "town" || Lower(args[0]) == "t")
    ensures root.Dispatch(sender, args) == town.Run0Log(sender, args[1..])
  {
    assert root.FindNext(args[0]) == Some(town);
    root.ChildValid(town);
  }

  /** In the town tree, a first token that names nothing is absorbed by the root. */
  lemma RootAbsorbs(root: BaseCommand, town: BaseCommand, sender: Sender, args: seq<string>)
    requires IsTownTree(root, town) && sender.isPlayer
    requires |args| > 0 && Lower(args[0]) != "town" && Lower(args[0]) != "t"
    ensures root.Dispatch(sender, args) == root.Run0Log(sender, args)
  {
    assert root.FindNext(args[0]) == None;
  }

  /** The token array the host passes for an input line. */
  method Tokens(tokens: seq<string>) returns (args: array<string>)
    ensures fresh(args) && args[..] == tokens
  {
    args := new string[|tokens|](i requires 0 <= i < |tokens| => tokens[i]);
  }

  /** A player without "cmd.town" typing "town info" gets only the no-permission message. */
  method TownWithoutPermission() returns (log: seq<Effect>)
    ensures log == [Sent("&c[!] You do not have permissions to execute this command.")]
  {
    var root, town := TownTree();
    var args := Tokens(["town", "info"]);
    log := root.Run(Sender(true, {}), args);
    LowerTown();
    TownReached(root, town, Sender(true, {}), args[..]);
  }

  /** With the permission, the alias typed in upper case reaches "town" with ["info"]. */
  method TownByAlias() returns (log: seq<Effect>)
    ensures log == [Executed(Both, "town", ["info"]), Executed(PlayerOnly, "town", ["info"])]
  {
    var root, town := TownTree();
    var args := Tokens(["T", "info"]);
    log := root.Run(Sender(true, {"cmd.town"}), args);
    assert Lower("T") == "t";
    TownReached(root, town, Sender(true, {"cmd.town"}), args[..]);
  }

  /** A token that names no child is absorbed by the root, with every token kept. */
  method UnknownFallsBack() returns (log: seq<Effect>)
    ensures log == [Executed(Both, "root", ["spawn", "x"]), Executed(PlayerOnly, "root", ["spawn", "x"])]
  {
    var root, town := TownTree();
    var args := Tokens(["spawn", "x"]);
    log := root.Run(Sender(true, {}), args);
    RootAbsorbs(root, town, Sender(true, {}), args[..]);
  }

  /** No child of `root` needs a permission. */
  ghost predicate Unrestricted(root: BaseCommand)
    reads root
  {
    forall k :: k in root.subCommands ==> root.subCommands[k].permission == None
  }

  /** Registers a fresh, unrestricted child named `name` under `root`. */
  method Add(root: BaseCommand, name: string)
    requires root.Valid() && Unrestricted(root)
    modifies root
    ensures root.Valid() && Unrestricted(root)
    ensures root.subCommands.Keys == old(root.subCommands.Keys) + {name}
  {
    var child := new BaseCommand(Build(Host, name, []));
    root.SubCommand(child);
  }

  /** A root with the children "help", "heal" and "town", none of them restricted. */
  method HelpTree() returns (root: BaseCommand)
    ensures root.Valid() && Unrestricted(root)
    ensures root.subCommands.Keys == {"help", "heal", "town"}
  {
    root := new BaseCommand(Build(Host, "root", []));
    Add(root, "help");
    Add(root, "heal");
    Add(root, "town");
  }

  /** In that tree, "he" is completed to exactly "help" and "heal". */
  lemma CompletesHe(root: BaseCommand)
    requires root.Valid() && Unrestricted(root)
    requires root.subCommands.Keys == {"help", "heal", "town"}
    ensures forall x :: x in root.GetTabComplete0(Sender(true, {}), ["he"]) <==> x in {"help", "heal"}
  {
    LowerOfLower("he");
    assert StartsWith("help", "he") && StartsWith("heal", "he");
    assert !StartsWith("town", "he") by { assert "town"[0] != "he"[0]; }
    var r := root.GetTabComplete0(Sender(true, {}), ["he"]);
    assert r == root.GetTabCompletion(Sender(true, {}), ["he"]);
    forall x ensures x in r <==> x in {"help", "heal"} {
      assert x in r <==> root.Offers(Sender(true, {}), x, "he");
    }
  }

  /** Typing "he" against the children "help" and "heal" suggests both, once each, and nothing else. */
  method CompleteHe() returns (r: seq<string>)
    ensures Distinct(r)
    ensures forall x :: x in r <==> x in {"help", "heal"}
  {
    var root := HelpTree();
    r := root.GetTabComplete0(Sender(true, {}), ["he"]);
    CompletesHe(root);
  }
}
