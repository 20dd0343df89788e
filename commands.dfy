/**
 * Command descriptors (`DebugConsole.Command`) and the lookups over the
 * registry: aliases, the three handler slots, the relay rule, the fallback
 * of server-side requests to the default action, and the registry order.
 * Handlers are opaque: a `HandlerId` names the action a slot holds.
 */
module Commands {
  import opened Wrappers
  import opened Text

  type HandlerId = nat

  /** `names` are the aliases; `onClientExecute` and `onClientRequestExecute`
      are `None` where the source holds `null`. */
  datatype Command = Command(
    names: seq<string>,
    help: string,
    onExecute: HandlerId,
    onClientExecute: Option<HandlerId>,
    onClientRequestExecute: Option<HandlerId>)

  /** The five-argument constructor: `name` holds the aliases separated by `|`. */
  function NewCommand(name: string, help: string, onExecute: HandlerId,
                      onClientExecute: Option<HandlerId>,
                      onClientRequestExecute: Option<HandlerId>): (c: Command)
    ensures |c.names| >= 1 && Join(c.names, '|') == name
    ensures forall k :: 0 <= k < |c.names| ==> '|' !in c.names[k]
    ensures c.help == help && c.onExecute == onExecute
    ensures c.onClientExecute == onClientExecute
    ensures c.onClientRequestExecute == onClientRequestExecute
  {
    JoinSplitOn(name, '|');
    SplitOnPiecesFree(name, '|');
    Command(SplitOn(name, '|'), help, onExecute, onClientExecute, onClientRequestExecute)
  }

  /** The three-argument constructor: the same action for clients as for the
      server, and no server-side request handler. */
  function NewSharedCommand(name: string, help: string, onExecute: HandlerId): (c: Command)
    ensures c == NewCommand(name, help, onExecute, Some(onExecute), None)
  {
    Command(SplitOn(name, '|'), help, onExecute, Some(onExecute), None)
  }

  /** `Command.RelayToServer`: a client forwards the command exactly when it
      has no client-side action. */
  predicate RelayToServer(c: Command) {
    c.onClientExecute.None?
  }

  /** Commands made with the three-argument constructor are never relayed. */
  lemma SharedCommandsRunOnClient(name: string, help: string, onExecute: HandlerId)
    ensures !RelayToServer(NewSharedCommand(name, help, onExecute))
    ensures NewSharedCommand(name, help, onExecute).onClientExecute == Some(onExecute)
  {
  }

  // ---------------------------------------------------------------------------
  // Lookups

  /** `commands.Find(c => c.names.Contains(name))`: the first command that has
      `name` as an alias, exactly. */
  function FindByName(commands: seq<Command>, name: string): (r: Option<nat>)
    ensures r.Some? ==> r.value < |commands| && name in commands[r.value].names
                        && forall j :: 0 <= j < r.value ==> name !in commands[j].names
    ensures r.None? ==> forall j :: 0 <= j < |commands| ==> name !in commands[j].names
    decreases |commands|
  {
    if commands == [] then None
    else if name in commands[0].names then Some(0)
    else
      var r := FindByName(commands[1..], name);
      if r.None? then None else Some(r.value + 1)
  }

  /** Some alias of `c` equals `name` once both are lower-cased. */
  predicate NamedIgnoringCase(c: Command, name: string) {
    exists n :: n in c.names && ToLower(n) == ToLower(name)
  }

  /** `FindCommand`: the first command with an alias equal to `name` up to
      letter case. */
  function FindCommand(commands: seq<Command>, name: string): (r: Option<nat>)
    ensures r.Some? ==> r.value < |commands| && NamedIgnoringCase(commands[r.value], name)
                        && forall j :: 0 <= j < r.value ==> !NamedIgnoringCase(commands[j], name)
    ensures r.None? ==> forall j :: 0 <= j < |commands| ==> !NamedIgnoringCase(commands[j], name)
    decreases |commands|
  {
    if commands == [] then None
    else if NamedIgnoringCase(commands[0], name) then Some(0)
    else
      var r := FindCommand(commands[1..], name);
      if r.None? then None else Some(r.value + 1)
  }

  /** Every alias of a registered command finds that command, provided no
      earlier command claims the same alias. */
  lemma EveryAliasFindsItsCommand(commands: seq<Command>, i: nat, alias: string)
    requires i < |commands| && alias in commands[i].names
    requires forall j :: 0 <= j < i ==> !NamedIgnoringCase(commands[j], alias)
    ensures FindCommand(commands, alias) == Some(i)
  {
  }

  /** An exact match is also a match up to case, so the case-insensitive
      lookup never finds a later command than the exact one. */
  lemma {:induction false} FindCommandNoLaterThanExact(commands: seq<Command>, name: string)
    requires FindByName(commands, name).Some?
    ensures FindCommand(commands, name).Some?
    ensures FindCommand(commands, name).value <= FindByName(commands, name).value
    decreases |commands|
  {
    if name !in commands[0].names {
      if !NamedIgnoringCase(commands[0], name) {
        FindCommandNoLaterThanExact(commands[1..], name);
      }
    } else {
      assert NamedIgnoringCase(commands[0], name);
    }
  }

  // ---------------------------------------------------------------------------
  // Registry order: sorted by first alias. The source compares with the
  // current culture's rules; the model uses ordinal (code point) order.

  /** Lexicographic order on strings by code point. */
  predicate LexLe(a: string, b: string)
    decreases |a|
  {
    a == [] || (b != [] && (a[0] < b[0] || (a[0] == b[0] && LexLe(a[1..], b[1..]))))
  }

  lemma {:induction false} LexLeTotal(a: string, b: string)
    ensures LexLe(a, b) || LexLe(b, a)
    decreases |a|
  {
    if a != [] && b != [] && a[0] == b[0] {
      LexLeTotal(a[1..], b[1..]);
    }
  }

  lemma {:induction false} LexLeTransitive(a: string, b: string, c: string)
    requires LexLe(a, b) && LexLe(b, c)
    ensures LexLe(a, c)
    decreases |a|
  {
    if a != [] && b != [] && c != [] && a[0] == b[0] && b[0] == c[0] {
      LexLeTransitive(a[1..], b[1..], c[1..]);
    }
  }

  /** Every command has a first alias: `string.Split` never returns nothing. */
  predicate WellFormed(commands: seq<Command>) {
    forall i :: 0 <= i < |commands| ==> |commands[i].names| >= 1
  }

  function FirstName(c: Command): string
    requires |c.names| >= 1
  {
    c.names[0]
  }

  predicate SortedByFirstName(commands: seq<Command>)
    requires WellFormed(commands)
  {
    forall i, j :: 0 <= i < j < |commands| ==> LexLe(FirstName(commands[i]), FirstName(commands[j]))
  }

  /** Inserts `c` in front of the first command whose first alias is greater. */
  function Insert(c: Command, sorted: seq<Command>): (r: seq<Command>)
    requires |c.names| >= 1 && WellFormed(sorted)
    ensures WellFormed(r) && multiset(r) == multiset(sorted) + multiset{c}
    decreases |sorted|
  {
    if sorted == [] || LexLe(FirstName(c), FirstName(sorted[0])) then [c] + sorted
    else
      assert sorted == [sorted[0]] + sorted[1..];
      [sorted[0]] + Insert(c, sorted[1..])
  }

  /** `commands.Sort(...)` on the registry, as an insertion sort. */
  function SortByFirstName(commands: seq<Command>): (r: seq<Command>)
    requires WellFormed(commands)
    ensures WellFormed(r) && multiset(r) == multiset(commands)
    decreases |commands|
  {
    if commands == [] then []
    else
      assert commands == [commands[0]] + commands[1..];
      Insert(commands[0], SortByFirstName(commands[1..]))
  }

  lemma {:induction false} InsertKeepsOrder(c: Command, sorted: seq<Command>)
    requires |c.names| >= 1 && WellFormed(sorted) && SortedByFirstName(sorted)
    ensures SortedByFirstName(Insert(c, sorted))
    decreases |sorted|
  {
    if sorted != [] && !LexLe(FirstName(c), FirstName(sorted[0])) {
      InsertKeepsOrder(c, sorted[1..]);
      HeadBeforeInserted(c, sorted);
      var rest := Insert(c, sorted[1..]);
      var r := [sorted[0]] + rest;
      forall i, j | 0 <= i < j < |r| ensures LexLe(FirstName(r[i]), FirstName(r[j])) {
        if i > 0 {
          assert r[i] == rest[i - 1] && r[j] == rest[j - 1];
        } else {
          assert r[i] == sorted[0] && r[j] == rest[j - 1];
          assert LexLe(FirstName(sorted[0]), FirstName(rest[j - 1]));
        }
      }
    } else if sorted != [] {
      InsertAtFront(c, sorted);
    }
  }

  /** When `c` goes after the head, the head's first alias is at most that of
      every command the insertion into the tail yields. */
  lemma HeadBeforeInserted(c: Command, sorted: seq<Command>)
    requires |c.names| >= 1 && WellFormed(sorted) && SortedByFirstName(sorted)
    requires sorted != [] && !LexLe(FirstName(c), FirstName(sorted[0]))
    ensures forall k :: 0 <= k < |Insert(c, sorted[1..])| ==>
              LexLe(FirstName(sorted[0]), FirstName(Insert(c, sorted[1..])[k]))
  {
    var rest := Insert(c, sorted[1..]);
    LexLeTotal(FirstName(c), FirstName(sorted[0]));
    forall k | 0 <= k < |rest| ensures LexLe(FirstName(sorted[0]), FirstName(rest[k])) {
      var x := rest[k];
      assert x in multiset(rest);
      assert x in multiset(sorted[1..]) + multiset{c};
      if x != c {
        assert x in sorted[1..];
        var m :| 0 <= m < |sorted[1..]| && sorted[1..][m] == x;
        assert sorted[m + 1] == x;
      }
    }
  }

  /** A command no greater than the head keeps the order in front of it. */
  lemma InsertAtFront(c: Command, sorted: seq<Command>)
    requires |c.names| >= 1 && WellFormed(sorted) && SortedByFirstName(sorted)
    requires sorted != [] && LexLe(FirstName(c), FirstName(sorted[0]))
    ensures SortedByFirstName([c] + sorted)
  {
    var r := [c] + sorted;
    forall i, j | 0 <= i < j < |r| ensures LexLe(FirstName(r[i]), FirstName(r[j])) {
      if i == 0 && j > 1 {
        LexLeTransitive(FirstName(c), FirstName(sorted[0]), FirstName(sorted[j - 1]));
      }
    }
  }

  /** The registry after sorting is in order of first alias and holds the
      same commands. */
  lemma {:induction false} RegistrySorted(commands: seq<Command>)
    requires WellFormed(commands)
    ensures SortedByFirstName(SortByFirstName(commands))
    ensures multiset(SortByFirstName(commands)) == multiset(commands)
    decreases |commands|
  {
    if commands != [] {
      RegistrySorted(commands[1..]);
      InsertKeepsOrder(commands[0], SortByFirstName(commands[1..]));
    }
  }
}
