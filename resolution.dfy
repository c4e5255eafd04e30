/**
 * What dispatch and completion compute, stated against `Walk`: the node reached by
 * following every token through `FindNext`, with no fallback and no policy checks.
 */
module Resolution {
  import opened Wrappers
  import opened Text
  import opened Commands

  /** The node every token of `tokens` leads to, one child per token, or None. */
  ghost function Walk(n: BaseCommand, tokens: seq<string>): (r: Option<BaseCommand>)
    reads n, n.Repr
    requires n.Valid()
    ensures r.Some? ==> r.value.Valid() && r.value.Repr <= n.Repr
    decreases n.Repr
  {
    if tokens == [] then Some(n)
    else match n.FindNext(tokens[0])
      case None => None
      case Some(c) => n.ChildValid(c); Walk(c, tokens[1..])
  }

  /** Walking a non-empty path is one step through `FindNext`, then the rest from the child. */
  lemma WalkStep(n: BaseCommand, tokens: seq<string>, j: nat)
    requires n.Valid() && 0 < j <= |tokens| && n.FindNext(tokens[0]).Some?
    ensures n.FindNext(tokens[0]).value.Valid()
    ensures Walk(n, tokens[..j]) == Walk(n.FindNext(tokens[0]).value, tokens[1..][..j - 1])
  {
    n.ChildValid(n.FindNext(tokens[0]).value);
    assert tokens[..j][1..] == tokens[1..][..j - 1];
  }

  /**
   * When no node on the path `args[..k]` turns the sender away and `args[k]` (if any)
   * selects no child there, dispatch runs that node's `run0` on the tokens after the path.
   * With k == 0 this is the fallback: nothing matches, and the node runs on all the tokens.
   */
  lemma {:induction false} DispatchStopsAt(n: BaseCommand, sender: Sender, args: seq<string>, k: nat)
    requires n.Valid() && k <= |args|
    requires forall j :: 0 <= j <= k ==> Walk(n, args[..j]).Some? && !Walk(n, args[..j]).value.Refuses(sender)
    requires k < |args| ==> Walk(n, args[..k]).value.FindNext(args[k]).None?
    ensures n.Dispatch(sender, args) == Walk(n, args[..k]).value.Run0Log(sender, args[k..])
    decreases k
  {
    assert args[..0] == [];
    if k == 0 {
      assert args[0..] == args;
    } else {
      assert Walk(n, args[..k]).Some?;
      assert n.FindNext(args[0]).Some?;
      var c := n.FindNext(args[0]).value;
      n.ChildValid(c);
      assert |n.subCommands| != 0;
      forall j | 0 <= j <= k - 1
        ensures Walk(c, args[1..][..j]).Some? && !Walk(c, args[1..][..j]).value.Refuses(sender)
      {
        WalkStep(n, args, j + 1);
      }
      WalkStep(n, args, k);
      assert args[1..][k - 1..] == args[k..];
      if k < |args| {
        assert args[1..][k - 1] == args[k];
      }
      DispatchStopsAt(c, sender, args[1..], k - 1);
    }
  }

  /**
   * When the first node on the path `args[..k]` that turns the sender away is the one at
   * the end, dispatch sends only that node's no-console message and runs no hook.
   */
  lemma {:induction false} DispatchRefusedAt(n: BaseCommand, sender: Sender, args: seq<string>, k: nat)
    requires n.Valid() && k <= |args|
    requires forall j :: 0 <= j < k ==> Walk(n, args[..j]).Some? && !Walk(n, args[..j]).value.Refuses(sender)
    requires Walk(n, args[..k]).Some? && Walk(n, args[..k]).value.Refuses(sender)
    ensures n.Dispatch(sender, args) == Notify(Walk(n, args[..k]).value.noConsoleUsageMessage)
    decreases k
  {
    assert args[..0] == [];
    if k > 0 {
      assert Walk(n, args[..0]).Some?;
      assert n.FindNext(args[0]).Some?;
      var c := n.FindNext(args[0]).value;
      n.ChildValid(c);
      assert |n.subCommands| != 0;
      forall j | 0 <= j < k - 1
        ensures Walk(c, args[1..][..j]).Some? && !Walk(c, args[1..][..j]).value.Refuses(sender)
      {
        WalkStep(n, args, j + 1);
      }
      WalkStep(n, args, k);
      DispatchRefusedAt(c, sender, args[1..], k - 1);
    }
  }

  /** Some suffix of `s` is `t`. */
  predicate IsSuffix(t: seq<string>, s: seq<string>)
  {
    exists i :: 0 <= i <= |s| && t == s[i..]
  }

  lemma SuffixOfTail(t: seq<string>, s: seq<string>)
    requires |s| > 0 && IsSuffix(t, s[1..])
    ensures IsSuffix(t, s)
  {
    var i :| 0 <= i <= |s[1..]| && t == s[1..][i..];
    assert t == s[i + 1..];
  }

  /** `executeBoth`, then the hook for the sender's kind, on one node with the same tokens. */
  predicate Handled(log: seq<Effect>, sender: Sender)
  {
    && |log| == 2 && log[0].Executed? && log[0].hook == Both
    && log[1] == Executed(SenderHook(sender), log[0].command, log[0].args)
  }

  /**
   * Every dispatch ends in one of two ways: at most one message and no hook at all, or
   * `executeBoth` followed by exactly the hook for the sender's kind, both on the same
   * node with the same tokens, which are what is left of the input after the path.
   */
  lemma {:induction false} DispatchShape(n: BaseCommand, sender: Sender, args: seq<string>)
    requires n.Valid()
    ensures var log := n.Dispatch(sender, args);
      || (|log| <= 1 && forall e :: e in log ==> e.Sent?)
      || (Handled(log, sender) && IsSuffix(log[0].args, args))
    decreases n.Repr
  {
    assert args[0..] == args;
    if !n.Refuses(sender) && |n.subCommands| != 0 && |args| != 0 {
      match n.FindNext(args[0])
      case Some(c) =>
        n.ChildValid(c);
        DispatchShape(c, sender, args[1..]);
        var log := c.Dispatch(sender, args[1..]);
        if Handled(log, sender) && IsSuffix(log[0].args, args[1..]) {
          SuffixOfTail(log[0].args, args);
        }
      case None =>
    }
  }

  /**
   * A string is suggested exactly when the sender is a player, the tokens before the
   * last one lead to a node, and that node offers the string for the last token: an
   * existing child the sender may use whose name starts with the lower-cased token.
   */
  lemma {:induction false} TabCompleteMembers(n: BaseCommand, sender: Sender, args: seq<string>, x: string)
    requires n.Valid()
    ensures x in n.GetTabComplete0(sender, args) <==>
      sender.isPlayer && |args| >= 1 && Walk(n, args[..|args| - 1]).Some?
      && Walk(n, args[..|args| - 1]).value.Offers(sender, x, args[|args| - 1])
    decreases n.Repr
  {
    if sender.isPlayer && |args| >= 1 {
      var m := |args| - 1;
      if m == 0 {
        assert args[..m] == [];
      } else if n.FindNext(args[0]).Some? {
        var c := n.FindNext(args[0]).value;
        TabCompleteDescends(n, c, sender, args);
        TabCompleteMembers(c, sender, args[1..], x);
        WalkStep(n, args, m);
        assert |args[1..]| - 1 == m - 1;
        assert args[1..][|args[1..]| - 1] == args[m];
      } else {
        assert args[..m][0] == args[0];
      }
    }
  }

  /** Completion from a node whose first token selects `c` is completion from `c`. */
  lemma TabCompleteDescends(n: BaseCommand, c: BaseCommand, sender: Sender, args: seq<string>)
    requires n.Valid() && sender.isPlayer && |args| > 1 && n.FindNext(args[0]) == Some(c)
    ensures c.Valid() && c.Repr < n.Repr
    ensures n.GetTabComplete0(sender, args) == c.GetTabComplete0(sender, args[1..])
  {
    n.ChildValid(c);
    assert |n.subCommands| != 0;
  }

  /** Two token lists that differ only in letter case. */
  ghost predicate SameIgnoringCase(a: seq<string>, b: seq<string>)
  {
    |a| == |b| && forall i :: 0 <= i < |a| ==> Lower(a[i]) == Lower(b[i])
  }

  /** `FindNext` sees only the lower-cased token. */
  lemma FindNextIgnoresCase(n: BaseCommand, token: string)
    requires n.Indexed()
    ensures n.FindNext(token) == n.FindNext(Lower(token))
  {
    LowerIdempotent(token);
  }

  /** Paths are matched case-insensitively: "SUB", "sub" and "Sub" lead to the same node. */
  lemma {:induction false} WalkIgnoresCase(n: BaseCommand, a: seq<string>, b: seq<string>)
    requires n.Valid() && SameIgnoringCase(a, b)
    ensures Walk(n, a) == Walk(n, b)
    decreases n.Repr
  {
    if a != [] {
      assert Lower(a[0]) == Lower(b[0]);
      match n.FindNext(a[0])
      case None =>
      case Some(c) =>
        n.ChildValid(c);
        assert SameIgnoringCase(a[1..], b[1..]) by {
          forall i | 0 <= i < |a[1..]| ensures Lower(a[1..][i]) == Lower(b[1..][i]) {
            assert Lower(a[i + 1]) == Lower(b[i + 1]);
          }
        }
        WalkIgnoresCase(c, a[1..], b[1..]);
    }
  }

  /** The suggestions do not depend on the letter case of what was typed. */
  lemma {:induction false} TabCompleteIgnoresCase(n: BaseCommand, sender: Sender, a: seq<string>, b: seq<string>)
    requires n.Valid() && SameIgnoringCase(a, b)
    ensures n.GetTabComplete0(sender, a) == n.GetTabComplete0(sender, b)
    decreases n.Repr
  {
    if sender.isPlayer && |a| >= 1 {
      assert Lower(a[0]) == Lower(b[0]);
      if |n.subCommands| != 0 && |a| > 1 && n.FindNext(a[0]).Some? {
        var c := n.FindNext(a[0]).value;
        n.ChildValid(c);
        assert SameIgnoringCase(a[1..], b[1..]) by {
          forall i | 0 <= i < |a[1..]| ensures Lower(a[1..][i]) == Lower(b[1..][i]) {
            assert Lower(a[i + 1]) == Lower(b[i + 1]);
          }
        }
        TabCompleteIgnoresCase(c, sender, a[1..], b[1..]);
      }
    }
  }

  /**
   * The exact-key step compares the lower-cased token with the key as registered, so a
   * child whose command name has an upper-case letter is reached only through an alias.
   */
  lemma MixedCaseNameOnlyByAlias(n: BaseCommand, token: string, k: string)
    requires n.Valid() && k in n.subCommands && !IsLower(k)
    requires n.FindNext(token) == Some(n.subCommands[k])
    ensures Lower(token) !in n.subCommands
    ensures Lower(token) in n.subCommands[k].aliases
  {
  }
}
