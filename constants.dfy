/**
 * Model of the classification of Rust `const` and `static` items
 * (RustConstantImplMixin): the kind read off the `mut` and `const` tokens,
 * the role read off the parent element, and the icon chosen for each kind.
 */
module Constants {
  import opened Common

  datatype ConstantKind = Static | MutStatic | Const

  datatype ConstantRole = Free | TraitConstant | ImplConstant | Foreign

  datatype Icon = ConstantIcon | MutStaticIcon | StaticIcon

  /**
   * What the parent element of a constant is an instance of. The checks are
   * independent type tests, so several may hold at once; the first one in
   * the source's order decides.
   */
  datatype Parent = Parent(isItemsOwner: bool, isTraitItem: bool, isImplItem: bool, isForeignModItem: bool)

  /** A constant item: whether its `mut` and `const` tokens are present, and its parent. */
  datatype Constant = Constant(hasMut: bool, hasConst: bool, parent: Parent)

  /** `RsConstant.kind`. */
  function Kind(c: Constant): (k: ConstantKind)
    ensures k == MutStatic <==> c.hasMut
    ensures k == Const <==> !c.hasMut && c.hasConst
    ensures k == Static <==> !c.hasMut && !c.hasConst
  {
    if c.hasMut then MutStatic
    else if c.hasConst then Const
    else Static
  }

  /** `RsConstant.role`; None where the source raises "Unexpected constant parent". */
  function Role(c: Constant): (r: Option<ConstantRole>)
    ensures r == Some(Free) <==> c.parent.isItemsOwner
    ensures r == Some(TraitConstant) <==> !c.parent.isItemsOwner && c.parent.isTraitItem
    ensures r == Some(ImplConstant) <==>
      !c.parent.isItemsOwner && !c.parent.isTraitItem && c.parent.isImplItem
    ensures r == Some(Foreign) <==>
      !c.parent.isItemsOwner && !c.parent.isTraitItem && !c.parent.isImplItem && c.parent.isForeignModItem
    ensures r == None <==>
      !c.parent.isItemsOwner && !c.parent.isTraitItem && !c.parent.isImplItem && !c.parent.isForeignModItem
  {
    var p := c.parent;
    if p.isItemsOwner then Some(Free)
    else if p.isTraitItem then Some(TraitConstant)
    else if p.isImplItem then Some(ImplConstant)
    else if p.isForeignModItem then Some(Foreign)
    else None
  }

  /** The icon `getIcon` shows for a kind, before visibility decoration. */
  function IconOf(kind: ConstantKind): (icon: Icon)
    ensures icon == ConstantIcon <==> kind == Const
    ensures icon == MutStaticIcon <==> kind == MutStatic
    ensures icon == StaticIcon <==> kind == Static
  {
    match kind
    case Const => ConstantIcon
    case MutStatic => MutStaticIcon
    case Static => StaticIcon
  }

  /** Each kind has its own icon, and every icon belongs to some kind. */
  lemma IconOfBijective(k1: ConstantKind, k2: ConstantKind, icon: Icon)
    ensures IconOf(k1) == IconOf(k2) ==> k1 == k2
    ensures exists k :: IconOf(k) == icon
  {
    match icon
    case ConstantIcon => assert IconOf(Const) == icon;
    case MutStaticIcon => assert IconOf(MutStatic) == icon;
    case StaticIcon => assert IconOf(Static) == icon;
  }

  /** A `static mut` is shown with the mutable-static icon whether or not a `const` token is present. */
  lemma MutDecidesIcon(c: Constant)
    requires c.hasMut
    ensures IconOf(Kind(c)) == MutStaticIcon
  {
  }
}
