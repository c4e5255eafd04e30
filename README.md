# BaseCommand: a verified model of a recursive command-dispatch tree

This project models the core of a small command framework for a game-server plugin host.
A command is a `BaseCommand` node built from a `CommandInfo` description. Each node has:

- a name;
- a lower-case alias set;
- a console-allowed flag;
- an optional permission key;
- optional refusal messages;
- a map of subcommands keyed by name.

Dispatch (`run`/`run0`) walks the typed tokens down the tree:

- A console caller on a player-only node gets that node's no-console message, and nothing else happens.
- Otherwise, if the first token selects a child, by exact key or by alias, dispatch goes on in that child with the remaining tokens.
- Otherwise the node runs with the tokens it was given. It checks its permission, then runs `executeBoth` and exactly one of `executePlayer` / `executeConsole`.

Completion follows the same descent. At the node the tokens before the last one lead to, it lists the permitted child names, as registered, that start with the lower-cased last token.

Modelling choices:

- The host's sender is a value `Sender(isPlayer, perms)`.
- `sendMessage` and the three `execute*` hooks become entries of the effect log that `Run` returns: `Sent(text)` and `Executed(hook, command, args)`.
- A node is a `class` whose subcommand map is updated in place by `SubCommand`. Its final fields are `const`.
- A ghost footprint `Repr` and the recursive invariant `Valid()` keep the tree finite and acyclic.
- `Valid()` also keeps every child stored under its own name.
- `Run` is proved against the ghost function `Dispatch`. The completion functions are compiled functions over the subcommand map.
- The module `Resolution` states both algorithms against `Walk`. `Walk` is the node reached by following every token through `FindNext`, with no fallback and no checks.

Files:

- `wrappers.dfy`: `Option`.
- `text.dfy`: lower-casing, `startsWith`, Java's rendering of `null` in a string concatenation.
- `command_info.dfy`: `CommandInfo` and its builder defaults.
- `base_command.dfy`: the node class, dispatch and completion.
- `resolution.dfy`: the theorems about dispatch and completion.
- `scenarios.dfy`: small trees built bottom-up as a plugin would, with the outcomes proved.

Letter case:

- The code (`src/main/java/io/sy/basecommand/BaseCommand.java:49-50`) lower-cases only the typed token. It then looks that token up among the keys as they were registered.
- So a subcommand whose name contains an upper-case letter can be reached only through one of its aliases. `Resolution.MixedCaseNameOnlyByAlias` states this.
- Completion likewise compares the lower-cased prefix with the key as registered (`BaseCommand.java:136`).

## Model

| member | source | states |
|---|---|---|
| `Info.Build` | src/main/java/io/sy/basecommand/CommandInfo.java:13-21 | A builder given only plugin, command and aliases yields the wrong-usage prefix "&c[!] Wrong use of command.", usage "/help", consoleUse false, no permission, and the fixed non-null no-console and no-permission messages |
| `Commands.BaseCommand.constructor` | src/main/java/io/sy/basecommand/BaseCommand.java:29-39 | A new node has no subcommands. It copies each field of the description. Its usage message is the wrong-usage text followed by the usage text, with Java's "null" for an absent part. Its aliases are exactly the lower-cased given aliases, so all of them are lower case |
| `Commands.BaseCommand.SubArray` | src/main/java/io/sy/basecommand/BaseCommand.java:42-46 | Given at least one token, returns a fresh array one shorter, holding `current[1..]`. The input is not modified, and a one-token input gives an empty array |
| `Commands.BaseCommand.FirstWithAlias` | src/main/java/io/sy/basecommand/BaseCommand.java:52 | Returns nothing exactly when no listed child has the alias. Otherwise it returns the first child in iteration order having it, and no earlier child has it |
| `Commands.BaseCommand.FindNext` | src/main/java/io/sy/basecommand/BaseCommand.java:48-54 | An exact key match on the lower-cased token wins. Only when no key matches are aliases searched: some child is found iff some child has the lower-cased token as alias, and the child found has it. The result is always one of the node's children |
| `Commands.BaseCommand.SubCommand` | src/main/java/io/sy/basecommand/BaseCommand.java:56 | `subCommands[c.command] = c`, overwriting any previous entry under that key. Every other entry is unchanged, a new key goes last in iteration order, and the tree stays valid |
| `Commands.BaseCommand.Run0` | src/main/java/io/sy/basecommand/BaseCommand.java:91-112 | A set permission the sender lacks yields only the no-permission message, or nothing when it is null, and no hook. Otherwise `executeBoth` runs, then exactly the hook for the sender's kind, both with the same arguments |
| `Commands.BaseCommand.Run` | src/main/java/io/sy/basecommand/BaseCommand.java:65-89 | The log equals `Dispatch` of the node on the tokens. A console sender on a player-only node gets only the no-console message, or nothing when it is null: no hook runs and there is no descent |
| `Commands.BaseCommand.OnCommand` | src/main/java/io/sy/basecommand/BaseCommand.java:59-63 | Always reports the command handled, and its effects are exactly those of dispatch from this node |
| `Commands.BaseCommand.Matching` | src/main/java/io/sy/basecommand/BaseCommand.java:135-138 | A key is returned iff it is listed, its child needs no permission or one the sender holds, and it starts with the prefix. There are no duplicates when the keys have none |
| `Commands.BaseCommand.GetTabCompletion` | src/main/java/io/sy/basecommand/BaseCommand.java:131-139 | Unless there is exactly one token the result is empty. Otherwise a name is returned iff it is a child key whose child the sender may use and that starts with the lower-cased token. No name is returned twice |
| `Commands.BaseCommand.GetTabComplete0` | src/main/java/io/sy/basecommand/BaseCommand.java:120-129 | A non-player sender always gets an empty list, and no suggestion is repeated |
| `Resolution.DispatchStopsAt` | src/main/java/io/sy/basecommand/BaseCommand.java:65-89 | Say the path `args[..k]` leads to a node, no node on the way turns the sender away, and the next token (if any) selects no child there. Then dispatch is that node's `run0` on `args[k..]`. With k = 0: when nothing matches, the node itself runs on every original token |
| `Resolution.DispatchRefusedAt` | src/main/java/io/sy/basecommand/BaseCommand.java:67-71 | When the first node on the path that turns a console sender away is reached after `k` tokens, dispatch sends only that node's no-console message and runs nothing |
| `Resolution.DispatchShape` | src/main/java/io/sy/basecommand/BaseCommand.java:94-110 | Any dispatch either sends at most one message and runs no hook, or runs `executeBoth` then exactly the player or console hook matching the sender. Both hooks run on the same node, with the same tokens, which are a suffix of the input |
| `Resolution.TabCompleteMembers` | src/main/java/io/sy/basecommand/BaseCommand.java:125-138 | A name is suggested iff the sender is a player, the tokens before the last lead to a node, and that name is a child key of it. That child needs no permission or one the sender holds, and the name starts with the lower-cased last token. This covers the fallback, the empty result for non-players, and the empty result when more than one token is left where descent stops |
| `Resolution.FindNextIgnoresCase` | src/main/java/io/sy/basecommand/BaseCommand.java:48-50 | A token and its lower-cased form select the same child |
| `Resolution.WalkIgnoresCase` | src/main/java/io/sy/basecommand/BaseCommand.java:48-53 | Token lists differing only in letter case ("SUB", "sub", "Sub") lead to the same node |
| `Resolution.TabCompleteIgnoresCase` | src/main/java/io/sy/basecommand/BaseCommand.java:125-136 | Token lists differing only in letter case receive the same suggestions |
| `Resolution.MixedCaseNameOnlyByAlias` | src/main/java/io/sy/basecommand/BaseCommand.java:48-53 | When a token selects a child registered under a name with an upper-case letter, the token did not hit any key and is one of that child's aliases |
| `Scenarios.DefaultNode` | src/main/java/io/sy/basecommand/CommandInfo.java:17-20 | A node built from the defaults sends a console caller exactly the default no-console message. It never refuses a player for permission and always runs `executeBoth` then `executePlayer` |
| `Scenarios.TownReached` | src/main/java/io/sy/basecommand/BaseCommand.java:80-83 | In the town tree, a first token that lower-cases to "town" or to the alias "t" makes the child "town" run on the remaining tokens |
| `Scenarios.RootAbsorbs` | src/main/java/io/sy/basecommand/BaseCommand.java:85-86 | In the town tree, a first token naming no child makes the root run on every token |
| `Scenarios.TownWithoutPermission` | src/main/java/io/sy/basecommand/BaseCommand.java:94-96 | A player lacking "cmd.town" who types "town info" receives only the default no-permission message |
| `Scenarios.TownByAlias` | src/main/java/io/sy/basecommand/BaseCommand.java:48-53 | With the permission, typing the alias in upper case, "T info", runs `executeBoth` and `executePlayer` of "town" on ["info"] |
| `Scenarios.UnknownFallsBack` | src/main/java/io/sy/basecommand/BaseCommand.java:85-86 | "spawn x", which names no child, runs the root's hooks on ["spawn", "x"] |
| `Scenarios.CompletesHe` | src/main/java/io/sy/basecommand/BaseCommand.java:131-138 | With children "help", "heal" and "town", completing "he" yields exactly "help" and "heal" |
| `Scenarios.CompleteHe` | src/main/java/io/sy/basecommand/BaseCommand.java:121-123 | Through `getTabComplete0`, completing "he" gives each of "help" and "heal" once and nothing else |

## Left out

- `ChatColor.translateAlternateColorCodes`: a host library call. A `Sent` entry carries the configured text before colour codes are translated.
- `JavaPlugin` is kept only as an opaque `Plugin` value. The host `Command` object and the `label`/`alias` parameters are never used by the logic and are not modelled. `onTabComplete` is modelled through `GetTabComplete0`, which it only forwards to.
- `sender instanceof Player` and `sender.hasPermission`: a boolean and membership in a set of keys. Bukkit permission defaults and operator status are not modelled.
- `String.toLowerCase`: only the ASCII letters A-Z are mapped. Locale-dependent and non-ASCII case mapping is not modelled.
- `HashMap` iteration order is unspecified in the source. The model iterates in order of first registration, which decides which child wins an alias collision and the order of the completion list. The theorems about completion are stated as membership and absence of duplicates, so they do not depend on that order.
- The `parallelStream` in the constructor: only its result, the set of lower-cased aliases, is modelled; no concurrency is.
- The bodies of `executeBoth`, `executeConsole` and `executePlayer` are empty hooks for subclasses. They appear only as `Executed` log entries. Subclass overriding is not modelled.
- Lombok `@Getter`/`@Builder`: fields are read directly. The builder is given by named datatype arguments with defaults.
- `Commands.BaseCommand.SubArray`: requires at least one token. On an empty array the source fails with an exception, and dispatch never calls it that way.
- `Commands.BaseCommand.SubCommand`: requires the new child's tree not to contain the parent, so cyclic registration is not modelled. The model's termination measure is the footprint `Repr`. The source still terminates on a cyclic structure, because every descent drops one token (`BaseCommand.java:83`, `BaseCommand.java:128`).
- `Commands.BaseCommand.SubCommand`: trees are built bottom-up. Registering into a node that is already another node's child keeps only that node's invariant, not its ancestors'.
- The stored usage message (`commandUsageMessage`) is never sent by this core; it is only stored.
