/**
 * Model of the target search of "Go to Super" (RustGotoSuperHandler.findTarget):
 * from the element at the caret, find the nearest enclosing module or impl
 * method, skipping functions that are not impl methods.
 *
 * The parent chain is a sequence: `ancestors[0]` is the parent of the element
 * at the caret and `ancestors[k + 1]` the parent of `ancestors[k]`. Results
 * are indices into that sequence; a function's role is given per node.
 */
module GotoSuper {
  import opened Common

  datatype FunctionRole = ImplMethod | NotImplMethod

  datatype Ancestor = Function(role: FunctionRole) | Mod | OtherElement

  predicate IsFunctionOrMod(a: Ancestor) {
    a.Function? || a.Mod?
  }

  /** What `findTarget` may return: a module, or a function that is an impl method. */
  predicate IsTarget(a: Ancestor) {
    a.Mod? || (a.Function? && a.role == ImplMethod)
  }

  /** `PsiTreeUtil.getParentOfType(source, RsFunction, RustMod)`: the nearest function or module. */
  function NearestFunctionOrMod(ancestors: seq<Ancestor>): (r: Option<nat>)
    ensures r.Some? ==>
      && r.value < |ancestors|
      && IsFunctionOrMod(ancestors[r.value])
      && forall j :: 0 <= j < r.value ==> !IsFunctionOrMod(ancestors[j])
    ensures r.None? ==> forall j :: 0 <= j < |ancestors| ==> !IsFunctionOrMod(ancestors[j])
  {
    if ancestors == [] then None
    else if IsFunctionOrMod(ancestors[0]) then Some(0)
    else match NearestFunctionOrMod(ancestors[1..])
      case None => None
      case Some(k) => Some(k + 1)
  }

  /**
   * `findTarget`: the nearest ancestor that is a module or an impl method;
   * None when there is none. A function that is not an impl method sends
   * the search on from that function's own parent.
   */
  function FindTarget(ancestors: seq<Ancestor>): (r: Option<nat>)
    decreases |ancestors|
    ensures r.Some? ==>
      && r.value < |ancestors|
      && IsTarget(ancestors[r.value])
      && forall j :: 0 <= j < r.value ==> !IsTarget(ancestors[j])
    ensures r.None? ==> forall j :: 0 <= j < |ancestors| ==> !IsTarget(ancestors[j])
  {
    match NearestFunctionOrMod(ancestors)
    case None => None
    case Some(i) =>
      if ancestors[i].Function? && ancestors[i].role != ImplMethod then
        match FindTarget(ancestors[i + 1..])
        case None => None
        case Some(k) => Some(i + 1 + k)
      else Some(i)
  }

  /** A position in the parent chain of `ancestors[d - 1]`, seen from the start of the chain. */
  function Shift(r: Option<nat>, d: nat): Option<nat> {
    match r
    case None => None
    case Some(k) => Some(k + d)
  }

  /** A target position is determined by the two conditions: it is a target and nothing nearer is. */
  lemma UniqueNearestTarget(ancestors: seq<Ancestor>, k: nat)
    requires k < |ancestors| && IsTarget(ancestors[k])
    requires forall j :: 0 <= j < k ==> !IsTarget(ancestors[j])
    ensures FindTarget(ancestors) == Some(k)
  {
  }

  /**
   * When nothing below a function that is not an impl method is a target,
   * searching from the caret gives the same target as searching from that
   * function: it is skipped.
   */
  lemma SkippedFunctionIsTransparent(ancestors: seq<Ancestor>, i: nat)
    requires i < |ancestors|
    requires ancestors[i].Function? && ancestors[i].role == NotImplMethod
    requires forall j :: 0 <= j < i ==> !IsTarget(ancestors[j])
    ensures FindTarget(ancestors) == Shift(FindTarget(ancestors[i + 1..]), i + 1)
  {
    var tail := ancestors[i + 1..];
    match FindTarget(tail)
    case None =>
      forall j | 0 <= j < |ancestors|
        ensures !IsTarget(ancestors[j])
      {
        if j > i {
          assert ancestors[j] == tail[j - i - 1];
        }
      }
    case Some(k) =>
      forall j | 0 <= j < i + 1 + k
        ensures !IsTarget(ancestors[j])
      {
        if j > i {
          assert ancestors[j] == tail[j - i - 1];
        }
      }
      assert ancestors[i + 1 + k] == tail[k];
      UniqueNearestTarget(ancestors, i + 1 + k);
  }
}
