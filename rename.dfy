/**
 * Model of the name handling in RsRenameProcessor: how the new name typed by
 * the user is normalised before it is recorded for an element, and which
 * conflicts with existing locals are reported when a pattern binding is
 * renamed.
 *
 * The PSI elements are abstracted to an identity and a syntactic kind. The
 * locals that `processLocalVariables` visits are an input sequence.
 */
module Rename {
  import opened Common

  datatype ElementKind =
    | Lifetime
    | LifetimeParameter
    | Label
    | LabelDecl
    | PatBinding
    | OtherNamedElement

  datatype Element = Element(id: nat, kind: ElementKind)

  /** Lifetimes and labels are written with a leading quote (`'a`); pattern bindings and other named elements are not. */
  predicate IsLifetimeOrLabel(kind: ElementKind)
    ensures IsLifetimeOrLabel(kind) <==> !(kind.PatBinding? || kind.OtherNamedElement?)
  {
    kind.Lifetime? || kind.LifetimeParameter? || kind.Label? || kind.LabelDecl?
  }

  /** `ensureQuote`: prefix a quote unless one is already there. */
  function EnsureQuote(s: string): (r: string)
    ensures StartsWith(r, '\'')
    ensures r == s || r == ['\''] + s
    ensures StartsWith(s, '\'') ==> r == s
  {
    if StartsWith(s, '\'') then s else ['\''] + s
  }

  lemma EnsureQuoteIdempotent(s: string)
    ensures EnsureQuote(EnsureQuote(s)) == EnsureQuote(s)
  {
  }

  /** `trimStart('\'')`: drop every leading quote. */
  function TrimLeadingQuotes(s: string): (r: string)
    ensures !StartsWith(r, '\'')
    ensures |r| <= |s| && r == s[|s| - |r|..]
    ensures forall i :: 0 <= i < |s| - |r| ==> s[i] == '\''
  {
    if StartsWith(s, '\'') then TrimLeadingQuotes(s[1..]) else s
  }

  /** The name `prepareRenaming` records for an element of the given kind. */
  function RenamedName(kind: ElementKind, newName: string): (r: string)
    ensures StartsWith(r, '\'') <==> IsLifetimeOrLabel(kind)
    ensures IsLifetimeOrLabel(kind) && StartsWith(newName, '\'') ==> r == newName
    ensures IsLifetimeOrLabel(kind) && !StartsWith(newName, '\'') ==> r == ['\''] + newName
    ensures !IsLifetimeOrLabel(kind) ==>
      |r| <= |newName| && r == newName[|newName| - |r|..] && forall i :: 0 <= i < |newName| - |r| ==> newName[i] == '\''
  {
    if IsLifetimeOrLabel(kind) then EnsureQuote(newName) else TrimLeadingQuotes(newName)
  }

  /** Renaming to an already normalised name records that same name. */
  lemma RenamedNameIdempotent(kind: ElementKind, newName: string)
    ensures RenamedName(kind, RenamedName(kind, newName)) == RenamedName(kind, newName)
  {
  }

  /** The `allRenames` map the rename refactoring fills in. */
  class RenameMap {
    var entries: map<Element, string>

    constructor (entries: map<Element, string>)
      ensures this.entries == entries
    {
      this.entries := entries;
    }
  }

  /** The four-argument `prepareRenaming`. */
  method PrepareRenaming(element: Element, newName: string, allRenames: RenameMap)
    modifies allRenames
    ensures allRenames.entries == old(allRenames.entries)[element := RenamedName(element.kind, newName)]
  {
    var rename := RenamedName(element.kind, newName);
    allRenames.entries := allRenames.entries[element := rename];
  }

  /** The syntactic parent of a local's binding. */
  datatype LocalParent = PatIdentParent | OtherPatternParent

  /** One local visited by `processLocalVariables`. */
  datatype Local = Local(name: string, parent: LocalParent, inValueParameter: bool)

  /** The word that names what kind of declaration a conflicting local is. */
  function ConflictType(local: Local): (t: string)
    ensures t == "Parameter" <==> local.parent == PatIdentParent && local.inValueParameter
    ensures t == "Variable" <==> local.parent == PatIdentParent && !local.inValueParameter
    ensures t == "Binding" <==> local.parent == OtherPatternParent
  {
    match local.parent
    case PatIdentParent => if local.inValueParameter then "Parameter" else "Variable"
    case OtherPatternParent => "Binding"
  }

  function ConflictMessage(conflictType: string, newName: string, functionName: string): string {
    conflictType + " `" + newName + "` is already declared in function `" + functionName + "`"
  }

  /**
   * A message starts with the conflict type, then the new name in backquotes,
   * and ends with the function name in backquotes.
   */
  lemma ConflictMessageParts(conflictType: string, newName: string, functionName: string)
    ensures var m, t, n := ConflictMessage(conflictType, newName, functionName), |conflictType|, |newName|;
      && |m| == t + n + |functionName| + 38
      && m[..t] == conflictType
      && m[t..t + 2] == " `"
      && m[t + 2..t + 2 + n] == newName
      && m[|m| - |functionName| - 1..|m| - 1] == functionName
      && m[|m| - 1] == '`'
  {
  }

  /** How many of `locals` are called `name`. */
  function CountNamed(locals: seq<Local>, name: string): nat {
    if locals == [] then 0
    else CountNamed(locals[..|locals| - 1], name) + (if locals[|locals| - 1].name == name then 1 else 0)
  }

  /** The messages collected for `locals`, one per local called `newName`, in visiting order. */
  function ConflictMessages(locals: seq<Local>, newName: string, functionName: string): (r: seq<string>)
    ensures |r| == CountNamed(locals, newName)
    ensures forall i :: 0 <= i < |r| ==>
      exists j :: 0 <= j < |locals| && locals[j].name == newName
                  && r[i] == ConflictMessage(ConflictType(locals[j]), newName, functionName)
  {
    if locals == [] then []
    else
      var n := |locals| - 1;
      var before := ConflictMessages(locals[..n], newName, functionName);
      if locals[n].name == newName
      then before + [ConflictMessage(ConflictType(locals[n]), newName, functionName)]
      else before
  }

  /** No message is produced exactly when no local is called `newName`. */
  lemma {:induction false} NoConflictsIffNoNamesake(locals: seq<Local>, newName: string, functionName: string)
    ensures ConflictMessages(locals, newName, functionName) == [] <==>
      forall j :: 0 <= j < |locals| ==> locals[j].name != newName
  {
    if locals != [] {
      var n := |locals| - 1;
      NoConflictsIffNoNamesake(locals[..n], newName, functionName);
    }
  }

  /** The message of the `j`-th visited local, when it is called `newName`. */
  lemma {:induction false} ConflictMessageAt(locals: seq<Local>, newName: string, functionName: string, j: nat)
    requires j < |locals| && locals[j].name == newName
    ensures var r, k := ConflictMessages(locals, newName, functionName), CountNamed(locals[..j], newName);
      k < |r| && r[k] == ConflictMessage(ConflictType(locals[j]), newName, functionName)
  {
    var n := |locals| - 1;
    var before := ConflictMessages(locals[..n], newName, functionName);
    var r := ConflictMessages(locals, newName, functionName);
    assert r[..|before|] == before by {
      assert r == before || r == before + [ConflictMessage(ConflictType(locals[n]), newName, functionName)];
    }
    if j < n {
      ConflictMessageAt(locals[..n], newName, functionName, j);
      assert locals[..n][..j] == locals[..j];
      assert locals[..n][j] == locals[j];
    } else {
      assert locals[..j] == locals[..n];
      assert r == before + [ConflictMessage(ConflictType(locals[n]), newName, functionName)];
    }
  }

  /**
   * Message k belongs to the k-th local called `newName` and names that
   * local's own kind: the messages follow the visiting order.
   */
  lemma ConflictMessagesInOrder(locals: seq<Local>, newName: string, functionName: string)
    ensures var r := ConflictMessages(locals, newName, functionName);
      forall j :: 0 <= j < |locals| && locals[j].name == newName ==>
        CountNamed(locals[..j], newName) < |r|
        && r[CountNamed(locals[..j], newName)] == ConflictMessage(ConflictType(locals[j]), newName, functionName)
  {
    forall j | 0 <= j < |locals| && locals[j].name == newName
      ensures var r, k := ConflictMessages(locals, newName, functionName), CountNamed(locals[..j], newName);
        k < |r| && r[k] == ConflictMessage(ConflictType(locals[j]), newName, functionName)
    {
      ConflictMessageAt(locals, newName, functionName, j);
    }
  }

  /** The body of the `processLocalVariables` callback, run over every visited local. */
  method CollectConflicts(locals: seq<Local>, newName: string, functionName: string)
    returns (foundConflicts: seq<string>)
    ensures foundConflicts == ConflictMessages(locals, newName, functionName)
  {
    foundConflicts := [];
    for i := 0 to |locals|
      invariant foundConflicts == ConflictMessages(locals[..i], newName, functionName)
    {
      assert locals[..i + 1][..i] == locals[..i];
      if locals[i].name == newName {
        var conflictType := ConflictType(locals[i]);
        foundConflicts := foundConflicts + [ConflictMessage(conflictType, newName, functionName)];
      }
    }
    assert locals[..|locals|] == locals;
  }

  /** The `conflicts` multimap, element to its list of messages. */
  class ConflictMap {
    var entries: map<Element, seq<string>>

    constructor (entries: map<Element, seq<string>>)
      ensures this.entries == entries
    {
      this.entries := entries;
    }
  }

  /**
   * `findExistingNameConflicts`. `functionName` is the name of the function
   * enclosing the binding (None when there is none or it is unnamed);
   * `scopeLocals` the locals visible from the search scope (None when no
   * scope element was found).
   */
  method FindExistingNameConflicts(
    element: Element,
    functionName: Option<string>,
    scopeLocals: Option<seq<Local>>,
    newName: string,
    conflicts: ConflictMap)
    modifies conflicts
    ensures
      if element.kind == PatBinding && functionName.Some? && scopeLocals.Some?
         && ConflictMessages(scopeLocals.value, newName, functionName.value) != []
      then conflicts.entries == old(conflicts.entries)[element :=
             ConflictMessages(scopeLocals.value, newName, functionName.value)]
      else conflicts.entries == old(conflicts.entries)
  {
    if element.kind != PatBinding {
      return;
    }
    if functionName.None? {
      return;
    }
    var foundConflicts := [];
    if scopeLocals.Some? {
      foundConflicts := CollectConflicts(scopeLocals.value, newName, functionName.value);
    }
    if foundConflicts != [] {
      conflicts.entries := conflicts.entries[element := foundConflicts];
    }
  }
}
