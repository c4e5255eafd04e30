/**
 * `BaseCommand`: one node of the command tree. A node owns its subcommands, keyed by
 * their command name; dispatch walks the tokens down the tree and runs the handlers of
 * the node where it stops, completion walks the same way and lists child names.
 *
 * The host's sender becomes a `Sender` value, `sendMessage` and the three `execute*`
 * hooks become entries of the returned effect log.
 */
module Commands {
  import opened Wrappers
  import opened Text
  import opened Info

  /** The caller: whether it is a player, and the permission keys it holds. */
  datatype Sender = Sender(isPlayer: bool, perms: set<string>) {
    predicate HasPermission(key: string)
    {
      key in perms
    }
  }

  /** `executeBoth`, `executePlayer` and `executeConsole`. */
  datatype Hook = Both | PlayerOnly | ConsoleOnly

  /** A message sent to the sender, or a hook run on a node with the given arguments. */
  datatype Effect = Sent(text: string) | Executed(hook: Hook, command: string, args: seq<string>)

  /** The hook that runs after `executeBoth` for this kind of sender. */
  function SenderHook(sender: Sender): Hook
  {
    if sender.isPlayer then PlayerOnly else ConsoleOnly
  }

  /** Sending a message that may be null: a null message sends nothing. */
  function Notify(message: Option<string>): seq<Effect>
  {
    match message
    case None => []
    case Some(text) => [Sent(text)]
  }

  /** `order` lists every key of the map exactly once. */
  ghost predicate Enumerates(order: seq<string>, keys: set<string>)
  {
    Distinct(order) && forall x :: x in order <==> x in keys
  }

  /** Appending a key not yet listed enumerates the enlarged key set. */
  lemma EnumeratesAppend(order: seq<string>, keys: set<string>, x: string)
    requires Enumerates(order, keys) && x !in keys
    ensures Enumerates(order + [x], keys + {x})
  {
    forall i, j | 0 <= i < j < |order + [x]| ensures (order + [x])[i] != (order + [x])[j] {
      if j == |order| {
        assert order[i] in order;
      }
    }
  }

  class BaseCommand {
    var subCommands: map<string, BaseCommand>
    /** The iteration order of `subCommands`: its keys in order of first registration. */
    var order: seq<string>
    const plugin: Plugin
    const command: string
    const consoleUse: bool
    const permission: Option<string>
    const noConsoleUsageMessage: Option<string>
    const commandUsageMessage: string
    const noPermissionMessage: Option<string>
    const aliases: set<string>
    ghost var Repr: set<object>

    /** The map is enumerated by `order`. */
    ghost predicate Indexed()
      reads this
    {
      Enumerates(order, subCommands.Keys)
    }

    /**
     * The tree below this node is finite and acyclic, and every child is stored under
     * its own command name.
     */
    ghost predicate Valid()
      reads this, Repr
      ensures Valid() ==> this in Repr
      decreases Repr
    {
      && this in Repr
      && Indexed()
      && forall k | k in subCommands ::
           && subCommands[k] in Repr
           && subCommands[k].Repr <= Repr
           && this !in subCommands[k].Repr
           && subCommands[k].command == k
           && subCommands[k].Valid()
    }

    /** Builds a node without subcommands from its description. */
    constructor (info: CommandInfo)
      ensures Valid() && Repr == {this}
      ensures subCommands == map[] && order == []
      ensures plugin == info.plugin && command == info.command
      ensures consoleUse == info.consoleUse && permission == info.permission
      ensures noConsoleUsageMessage == info.noConsoleUsageMessage
      ensures noPermissionMessage == info.noPermissionMessage
      ensures commandUsageMessage == JavaString(info.wrongUsageMessage) + JavaString(info.commandUsageMessage)
      ensures aliases == set a | a in info.aliases :: Lower(a)
      ensures forall a :: a in aliases ==> IsLower(a)
    {
      subCommands := map[];
      order := [];
      plugin := info.plugin;
      command := info.command;
      consoleUse := info.consoleUse;
      permission := info.permission;
      noConsoleUsageMessage := info.noConsoleUsageMessage;
      noPermissionMessage := info.noPermissionMessage;
      commandUsageMessage := JavaString(info.wrongUsageMessage) + JavaString(info.commandUsageMessage);
      aliases := set a | a in info.aliases :: Lower(a);
      Repr := {this};
    }

    /** A child of a valid node is valid and owns a strictly smaller part of the tree. */
    lemma ChildValid(c: BaseCommand)
      requires Valid() && c in subCommands.Values
      ensures c.Valid() && c.Repr < Repr && this !in c.Repr
    {
      var k :| k in subCommands && subCommands[k] == c;
    }

    /** A fresh copy of `current` without its first token. */
    method SubArray(current: array<string>) returns (n: array<string>)
      requires current.Length >= 1
      ensures fresh(n)
      ensures n.Length == current.Length - 1
      ensures n[..] == current[1..]
    {
      n := new string[current.Length - 1];
      var i := 0;
      while i < n.Length
        invariant 0 <= i <= n.Length
        invariant forall j :: 0 <= j < i ==> n[j] == current[j + 1]
      {
        n[i] := current[i + 1];
        i := i + 1;
      }
    }

    /** The first child, in iteration order of the keys, that has alias `x`. */
    function FirstWithAlias(keys: seq<string>, x: string): (r: Option<BaseCommand>)
      reads this
      requires forall k :: k in keys ==> k in subCommands
      ensures r.None? <==> forall k :: k in keys ==> x !in subCommands[k].aliases
      ensures r.Some? ==> exists i :: (0 <= i < |keys| && r.value == subCommands[keys[i]]
                && x in r.value.aliases
                && forall j :: 0 <= j < i ==> x !in subCommands[keys[j]].aliases)
    {
      if keys == [] then None
      else if x in subCommands[keys[0]].aliases then Some(subCommands[keys[0]])
      else
        var r := FirstWithAlias(keys[1..], x);
        assert r.Some? ==> exists i :: (1 <= i < |keys| && r.value == subCommands[keys[i]]
          && x in r.value.aliases
          && forall j :: 0 <= j < i ==> x !in subCommands[keys[j]].aliases)
        by {
          if r.Some? {
            var i :| 0 <= i < |keys[1..]| && r.value == subCommands[keys[1..][i]]
              && x in r.value.aliases
              && forall j :: 0 <= j < i ==> x !in subCommands[keys[1..][j]].aliases;
            assert forall j :: 0 <= j < i + 1 ==> x !in subCommands[keys[j]].aliases by {
              forall j | 0 <= j < i + 1 ensures x !in subCommands[keys[j]].aliases {
                if j > 0 { assert keys[j] == keys[1..][j - 1]; }
              }
            }
          }
        }
        r
    }

    /**
     * The child a token selects: an exact key match on the lower-cased token wins;
     * only when there is none are the children's alias sets searched.
     */
    function FindNext(token: string): (r: Option<BaseCommand>)
      reads this
      requires Indexed()
      ensures Lower(token) in subCommands ==> r == Some(subCommands[Lower(token)])
      ensures Lower(token) !in subCommands ==>
        (r.Some? <==> exists k :: k in subCommands && Lower(token) in subCommands[k].aliases)
      ensures r.Some? && Lower(token) !in subCommands ==> Lower(token) in r.value.aliases
      ensures r.Some? ==> r.value in subCommands.Values
      ensures subCommands == map[] ==> r == None
    {
      var x := Lower(token);
      if x in subCommands then Some(subCommands[x]) else FirstWithAlias(order, x)
    }

    /** Registers `c` under its command name, replacing any child registered under it. */
    method SubCommand(c: BaseCommand)
      requires Valid() && c.Valid() && this !in c.Repr
      modifies this
      ensures Valid()
      ensures subCommands == old(subCommands)[c.command := c]
      ensures forall k :: k in old(subCommands) && k != c.command ==>
        k in subCommands && subCommands[k] == old(subCommands)[k]
      ensures order == if c.command in old(subCommands) then old(order) else old(order) + [c.command]
      ensures Repr == old(Repr) + c.Repr
    {
      if c.command !in subCommands {
        EnumeratesAppend(order, subCommands.Keys, c.command);
        order := order + [c.command];
      }
      subCommands := subCommands[c.command := c];
      Repr := Repr + c.Repr;
      assert Indexed();
    }

    /** The node requires no permission, or the sender holds it. */
    predicate Allows(sender: Sender)
    {
      permission.None? || sender.HasPermission(permission.value)
    }

    /** A console caller on a player-only node. */
    predicate Refuses(sender: Sender)
    {
      !sender.isPlayer && !consoleUse
    }

    /** What `run0` does at this node: the permission check, then the handlers. */
    function Run0Log(sender: Sender, args: seq<string>): seq<Effect>
    {
      if !Allows(sender) then Notify(noPermissionMessage)
      else [Executed(Both, command, args), Executed(SenderHook(sender), command, args)]
    }

    /** What `run` does from this node: the console check, the descent, then `run0`. */
    ghost function Dispatch(sender: Sender, args: seq<string>): seq<Effect>
      reads this, Repr
      requires Valid()
      decreases Repr
    {
      if Refuses(sender) then Notify(noConsoleUsageMessage)
      else if |subCommands| == 0 || |args| == 0 then Run0Log(sender, args)
      else match FindNext(args[0])
        case Some(c) => ChildValid(c); c.Dispatch(sender, args[1..])
        case None => Run0Log(sender, args)
    }

    method Run0(sender: Sender, args: array<string>) returns (log: seq<Effect>)
      ensures !Allows(sender) ==> log == Notify(noPermissionMessage)
      ensures Allows(sender) ==>
        log == [Executed(Both, command, args[..]), Executed(SenderHook(sender), command, args[..])]
    {
      if permission.Some? && !sender.HasPermission(permission.value) {
        log := Notify(noPermissionMessage);
      } else {
        log := [Executed(Both, command, args[..])];
        if sender.isPlayer {
          log := log + [Executed(PlayerOnly, command, args[..])];
        } else {
          log := log + [Executed(ConsoleOnly, command, args[..])];
        }
      }
    }

    method Run(sender: Sender, args: array<string>) returns (log: seq<Effect>)
      requires Valid()
      ensures log == Dispatch(sender, args[..])
      ensures Refuses(sender) ==> log == Notify(noConsoleUsageMessage)
      decreases Repr
    {
      if !sender.isPlayer && !consoleUse {
        log := Notify(noConsoleUsageMessage);
      } else if |subCommands| == 0 || args.Length == 0 {
        log := Run0(sender, args);
      } else {
        var next := FindNext(args[0]);
        if next.Some? {
          ChildValid(next.value);
          var rest := SubArray(args);
          log := next.value.Run(sender, rest);
        } else {
          log := Run0(sender, args);
        }
      }
    }

    /** The host's entry point: dispatches and always reports the command as handled. */
    method OnCommand(sender: Sender, args: array<string>) returns (handled: bool, log: seq<Effect>)
      requires Valid()
      ensures handled
      ensures log == Dispatch(sender, args[..])
    {
      log := Run(sender, args);
      handled := true;
    }

    /** Child `x` is suggested for the typed `token`. */
    ghost predicate Offers(sender: Sender, x: string, token: string)
      reads this
    {
      x in subCommands && subCommands[x].Allows(sender) && StartsWith(x, Lower(token))
    }

    /** The keys, in order, whose child the sender may use and that start with `prefix`. */
    function Matching(keys: seq<string>, sender: Sender, prefix: string): (r: seq<string>)
      reads this
      requires forall k :: k in keys ==> k in subCommands
      ensures forall x :: x in r <==>
        x in keys && subCommands[x].Allows(sender) && StartsWith(x, prefix)
      ensures Distinct(keys) ==> Distinct(r)
    {
      if keys == [] then []
      else
        var rest := Matching(keys[1..], sender, prefix);
        if subCommands[keys[0]].Allows(sender) && StartsWith(keys[0], prefix)
        then [keys[0]] + rest
        else rest
    }

    /** `getTabCompletion`: the suggestions at this node for the remaining tokens. */
    function GetTabCompletion(sender: Sender, args: seq<string>): (r: seq<string>)
      reads this
      requires Indexed()
      ensures |args| != 1 ==> r == []
      ensures |args| == 1 ==> forall x :: x in r <==> Offers(sender, x, args[0])
      ensures Distinct(r)
    {
      if |args| != 1 then [] else Matching(order, sender, Lower(args[0]))
    }

    /** `getTabComplete0`: completion follows the same descent as dispatch. */
    function GetTabComplete0(sender: Sender, args: seq<string>): (r: seq<string>)
      reads this, Repr
      requires Valid()
      ensures !sender.isPlayer ==> r == []
      ensures Distinct(r)
      decreases Repr
    {
      if !sender.isPlayer then []
      else if |subCommands| == 0 || |args| <= 1 then GetTabCompletion(sender, args)
      else match FindNext(args[0])
        case Some(c) => ChildValid(c); c.GetTabComplete0(sender, args[1..])
        case None => GetTabCompletion(sender, args)
    }
  }
}
