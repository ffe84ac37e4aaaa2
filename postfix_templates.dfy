/**
 * Model of the string-based postfix templates: `.assert` / `.debug_assert`,
 * `.lambda` and `.match`. Each turns the selected expression into template
 * text; `.match` also registers one template variable per enum variant.
 *
 * Type inference, scope analysis and path computation are foreign: the
 * selected expression arrives as its text (plus operator and operands for a
 * binary expression), the enum as its name, path and variants, and the
 * in-scope declarations as a set of crate-relative paths.
 */
module PostfixTemplates {
  import opened Common

  // ----- Decimal rendering of indices (Kotlin's "$i" for i >= 0) -----

  function DigitChar(d: nat): (c: char)
    requires d < 10
    ensures '0' <= c <= '9' && (c as int) - ('0' as int) == d
  {
    (('0' as int) + d) as char
  }

  predicate AllDigits(s: string) {
    forall i :: 0 <= i < |s| ==> '0' <= s[i] <= '9'
  }

  function NatToString(n: nat): (r: string)
    ensures |r| > 0
  {
    if n < 10 then [DigitChar(n)] else NatToString(n / 10) + [DigitChar(n % 10)]
  }

  lemma {:induction false} NatToStringDigits(n: nat)
    ensures AllDigits(NatToString(n))
  {
    if n >= 10 {
      NatToStringDigits(n / 10);
    }
  }

  /** A positive index renders without a leading zero, as Kotlin's `"$i"` does. */
  lemma {:induction false} NatToStringNoLeadingZero(n: nat)
    requires n > 0
    ensures NatToString(n)[0] != '0'
  {
    if n >= 10 {
      NatToStringNoLeadingZero(n / 10);
    }
  }

  /** Reads a string of decimal digits back as a number. */
  function ParseDigits(s: string): nat
    requires AllDigits(s)
  {
    if s == [] then 0 else ParseDigits(s[..|s| - 1]) * 10 + ((s[|s| - 1] as int) - ('0' as int))
  }

  lemma {:induction false} ParseNatToString(n: nat)
    ensures AllDigits(NatToString(n)) && ParseDigits(NatToString(n)) == n
  {
    NatToStringDigits(n);
    if n >= 10 {
      var s := NatToString(n);
      assert s[..|s| - 1] == NatToString(n / 10);
      ParseNatToString(n / 10);
    }
  }

  /** Distinct indices render as distinct placeholders. */
  lemma NatToStringInjective(m: nat, n: nat)
    requires m != n
    ensures NatToString(m) != NatToString(n)
  {
    ParseNatToString(m);
    ParseNatToString(n);
  }

  // ----- String assembly -----

  /** The concatenation of all pieces (what a StringBuilder holds after appending them). */
  function Concat(pieces: seq<string>): string {
    if pieces == [] then "" else Concat(pieces[..|pieces| - 1]) + pieces[|pieces| - 1]
  }

  /** Kotlin's `joinToString(separator = sep)` without prefix and postfix. */
  function Join(items: seq<string>, sep: string): string {
    if items == [] then ""
    else if |items| == 1 then items[0]
    else Join(items[..|items| - 1], sep) + sep + items[|items| - 1]
  }

  /** Kotlin renders a null value in a string template as "null". */
  function TextOrNull(s: Option<string>): string {
    match s
    case Some(t) => t
    case None => "null"
  }

  function GetOr(s: Option<string>, default: string): string {
    match s
    case Some(t) => t
    case None => default
  }

  // ----- assert / debug_assert and lambda -----

  datatype BinaryOp = EqEq | OtherOp

  /** The selected expression. */
  datatype Expr =
    | BinaryExpr(text: string, op: BinaryOp, left: string, right: Option<string>)
    | OtherExpr(text: string)

  predicate IsEqualityTest(e: Expr) {
    e.BinaryExpr? && e.op == EqEq
  }

  const End := ");$END$"

  /** `AssertPostfixTemplateBase.getTemplateString`; `name` is "assert" or "debug_assert". */
  function AssertTemplateString(name: string, e: Expr): (r: string)
    ensures |r| >= |name| + 2 + |End| && r[..|name|] == name && r[|r| - |End|..] == End
    ensures r[|name|] == '_' <==> IsEqualityTest(e)
    ensures IsEqualityTest(e) ==>
      && |r| >= |name| + 5 + |End|
      && r[|name|..|name| + 5] == "_eq!("
      && r[|name| + 5..|r| - |End|] == e.left + ", " + TextOrNull(e.right)
    ensures !IsEqualityTest(e) ==>
      r[|name|..|name| + 2] == "!(" && r[|name| + 2..|r| - |End|] == e.text
  {
    if IsEqualityTest(e) then name + "_eq!(" + e.left + ", " + TextOrNull(e.right) + End
    else name + "!(" + e.text + End
  }

  /**
   * The produced text determines which form was used and the argument text:
   * two expressions yield the same assertion only if they agree on both.
   */
  lemma AssertTemplateDetermines(name: string, e1: Expr, e2: Expr)
    requires AssertTemplateString(name, e1) == AssertTemplateString(name, e2)
    ensures IsEqualityTest(e1) <==> IsEqualityTest(e2)
    ensures !IsEqualityTest(e1) ==> e1.text == e2.text
    ensures IsEqualityTest(e1) ==> e1.left + ", " + TextOrNull(e1.right) == e2.left + ", " + TextOrNull(e2.right)
  {
  }

  /** `LambdaPostfixTemplate.getTemplateString`. */
  function LambdaTemplateString(e: Expr): (r: string)
    ensures |r| == |e.text| + 3 && r[..3] == "|| " && r[3..] == e.text
  {
    "|| " + e.text
  }

  // ----- match -----

  /** The fields of an enum variant. */
  datatype Fields =
    | BlockFields(names: seq<string>)
    | TupleFields(count: nat)
    | NoFields

  /** An enum variant: its name and crate-relative path (each possibly unknown) and its fields. */
  datatype Variant = Variant(name: Option<string>, path: Option<string>, fields: Fields)

  datatype EnumItem = EnumItem(name: Option<string>, path: Option<string>, variants: seq<Variant>)

  /** How variants are named in the arms. */
  datatype Naming = BareName | EnumQualified | FullPath

  predicate InScope(path: Option<string>, declarations: set<string>) {
    path.Some? && path.value in declarations
  }

  predicate AllVariantsInScope(item: EnumItem, declarations: set<string>) {
    forall i :: 0 <= i < |item.variants| ==> InScope(item.variants[i].path, declarations)
  }

  /** The choice of `createName`. */
  function ChooseNaming(item: EnumItem, declarations: set<string>): (n: Naming)
    ensures n == BareName <==> AllVariantsInScope(item, declarations)
    ensures n == EnumQualified <==>
      !AllVariantsInScope(item, declarations) && InScope(item.path, declarations)
    ensures n == FullPath <==>
      !AllVariantsInScope(item, declarations) && !InScope(item.path, declarations)
  {
    if AllVariantsInScope(item, declarations) then BareName
    else if InScope(item.path, declarations) then EnumQualified
    else FullPath
  }

  /** The name of variant `v` in its arm: bare, qualified by the enum's name, or its full path. */
  function VariantName(naming: Naming, item: EnumItem, v: Variant): string {
    match naming
    case BareName => GetOr(v.name, "")
    case EnumQualified => GetOr(item.name, "UnknownEnumName") + "::" + GetOr(v.name, "UnknownVariantName")
    case FullPath => TextOrNull(v.path)
  }

  /**
   * A bare name is the variant's own name; a qualified name is the enum's name,
   * `::` and the variant's name (placeholders for unknown names); a full path
   * is the variant's path, `null` when it has none.
   */
  lemma VariantNameParts(naming: Naming, item: EnumItem, v: Variant)
    ensures var r := VariantName(naming, item, v);
      && (naming == BareName ==> r == GetOr(v.name, ""))
      && (naming == EnumQualified ==>
            var e, w := GetOr(item.name, "UnknownEnumName"), GetOr(v.name, "UnknownVariantName");
            |r| == |e| + 2 + |w| && r[..|e|] == e && r[|e|..|e| + 2] == "::" && r[|e| + 2..] == w)
      && (naming == FullPath ==> r == TextOrNull(v.path))
  {
  }

  /** `v0`, ..., `v{k-1}`: the binders of a tuple variant's pattern. */
  function TupleBinders(k: nat): (r: seq<string>)
    ensures |r| == k
  {
    if k == 0 then [] else TupleBinders(k - 1) + ["v" + NatToString(k - 1)]
  }

  lemma {:induction false} TupleBinderAt(k: nat, i: nat)
    requires i < k
    ensures TupleBinders(k)[i] == "v" + NatToString(i)
  {
    if i < k - 1 {
      TupleBinderAt(k - 1, i);
    }
  }

  /** The pattern after the variant name: `{a, b}`, `(v0, v1)` or nothing. */
  function FieldPattern(fields: Fields): string {
    match fields
    case BlockFields(names) => "{" + Join(names, ", ") + "}"
    case TupleFields(k) => "(" + Join(TupleBinders(k), ", ") + ")"
    case NoFields => ""
  }

  /** A struct pattern is the joined field names in braces, a tuple pattern the joined binders in parentheses, and a unit variant has none. */
  lemma FieldPatternParts(fields: Fields)
    ensures var r := FieldPattern(fields);
      && (fields.NoFields? <==> r == "")
      && (fields.BlockFields? ==>
            |r| >= 2 && r[0] == '{' && r[|r| - 1] == '}' && r[1..|r| - 1] == Join(fields.names, ", "))
      && (fields.TupleFields? ==>
            |r| >= 2 && r[0] == '(' && r[|r| - 1] == ')' && r[1..|r| - 1] == Join(TupleBinders(fields.count), ", "))
  {
  }

  /** The placeholder of arm `i`. */
  function Placeholder(i: nat): string {
    "$VAR" + NatToString(i) + "$"
  }

  /** What closes arm `i`: its body placeholder. */
  function ArmTail(i: nat): string {
    " => " + Placeholder(i) + ",\n"
  }

  /** `$VAR<i>$`: the placeholder is the decimal index between `$VAR` and `$`. */
  lemma PlaceholderParts(i: nat)
    ensures var p := Placeholder(i);
      |p| == |NatToString(i)| + 5 && p[..4] == "$VAR" && p[4..|p| - 1] == NatToString(i) && p[|p| - 1] == '$'
  {
  }

  /** ` => $VAR<i>$,` and a newline: the tail holds placeholder `i` between the arrow and the comma. */
  lemma ArmTailParts(i: nat)
    ensures var t := ArmTail(i);
      |t| == |Placeholder(i)| + 6 && t[..4] == " => " && t[4..|t| - 2] == Placeholder(i) && t[|t| - 2..] == ",\n"
  {
  }

  function Arm(naming: Naming, item: EnumItem, v: Variant, i: nat): string {
    VariantName(naming, item, v) + " " + FieldPattern(v.fields) + ArmTail(i)
  }

  /** The arm of variant `v` at index `i` is its name, a space, its field pattern, and the tail with placeholder `i`. */
  lemma ArmParts(naming: Naming, item: EnumItem, v: Variant, i: nat)
    ensures var r, name, pattern := Arm(naming, item, v, i), VariantName(naming, item, v), FieldPattern(v.fields);
      && |r| == |name| + 1 + |pattern| + |ArmTail(i)|
      && r[..|name|] == name
      && r[|name|] == ' '
      && r[|name| + 1..|r| - |ArmTail(i)|] == pattern
      && r[|r| - |ArmTail(i)|..] == ArmTail(i)
  {
  }

  /** The arms of the first `n` variants, in declaration order. */
  function ArmsUpTo(naming: Naming, item: EnumItem, n: nat): (r: seq<string>)
    requires n <= |item.variants|
    ensures |r| == n
  {
    if n == 0 then [] else ArmsUpTo(naming, item, n - 1) + [Arm(naming, item, item.variants[n - 1], n - 1)]
  }

  /** One arm per variant. */
  function Arms(item: EnumItem, declarations: set<string>): (r: seq<string>)
    ensures |r| == |item.variants|
  {
    ArmsUpTo(ChooseNaming(item, declarations), item, |item.variants|)
  }

  /** Arm `i` is built from variant `i` and carries index `i`: the arms follow declaration order. */
  lemma {:induction false} ArmsUpToAt(naming: Naming, item: EnumItem, n: nat, i: nat)
    requires i < n <= |item.variants|
    ensures ArmsUpTo(naming, item, n)[i] == Arm(naming, item, item.variants[i], i)
  {
    if i < n - 1 {
      ArmsUpToAt(naming, item, n - 1, i);
    }
  }

  const MatchEnd := "};\n"

  function MatchHead(text: string): string {
    "match " + text + " {\n"
  }

  /** The text `.match` produces for the expression `text` of enum type `item`. */
  function MatchText(text: string, item: EnumItem, declarations: set<string>): string {
    MatchHead(text) + Concat(Arms(item, declarations)) + MatchEnd
  }

  /** The produced text is the head, then the arms in order, then the closing. */
  lemma MatchTextParts(text: string, item: EnumItem, declarations: set<string>)
    ensures var r, head, arms := MatchText(text, item, declarations), MatchHead(text), Concat(Arms(item, declarations));
      && |r| == |head| + |arms| + |MatchEnd|
      && r[..|head|] == head
      && r[|head|..|r| - |MatchEnd|] == arms
      && r[|r| - |MatchEnd|..] == MatchEnd
  {
  }

  lemma ConcatSnoc(pieces: seq<string>, piece: string)
    ensures Concat(pieces + [piece]) == Concat(pieces) + piece
  {
    assert (pieces + [piece])[..|pieces|] == pieces;
  }

  lemma AppendStep(head: string, pieces: seq<string>, piece: string, s: string)
    requires s == head + Concat(pieces)
    ensures s + piece == head + Concat(pieces + [piece])
  {
    ConcatSnoc(pieces, piece);
  }

  /** `MatchPostfixTemplate.getTemplateString`: a StringBuilder filled arm by arm. */
  method MatchTemplateString(text: string, item: EnumItem, declarations: set<string>) returns (s: string)
    ensures s == MatchText(text, item, declarations)
  {
    s := "match " + text + " {\n";
    var naming := ChooseNaming(item, declarations);
    for i := 0 to |item.variants|
      invariant s == MatchHead(text) + Concat(ArmsUpTo(naming, item, i))
    {
      var v := item.variants[i];
      var itemName := VariantName(naming, item, v);
      var tupleOrStructFields := FieldPattern(v.fields);
      var arm := itemName + " " + tupleOrStructFields + ArmTail(i);
      AppendStep(MatchHead(text), ArmsUpTo(naming, item, i), arm, s);
      s := s + arm;
    }
    s := s + "};\n";
  }

  /** Distinct arms get distinct placeholders. */
  lemma PlaceholdersDistinct(i: nat, j: nat)
    requires i != j
    ensures Placeholder(i) != Placeholder(j)
  {
    NatToStringInjective(i, j);
    var pi, pj := Placeholder(i), Placeholder(j);
    assert pi[4..|pi| - 1] == NatToString(i);
    assert pj[4..|pj| - 1] == NatToString(j);
  }

  lemma PrefixAndSuffix(a: string, b: string, c: string, d: string)
    ensures var w := a + b + c + d;
      |w| >= |a| + |d| && w[..|a|] == a && w[|w| - |d|..] == d
  {
  }

  /** Arm `i` begins with the name of variant `i` and ends with placeholder `i`. */
  lemma ArmShape(item: EnumItem, declarations: set<string>, i: nat)
    requires i < |item.variants|
    ensures var arm := Arms(item, declarations)[i];
      var name := VariantName(ChooseNaming(item, declarations), item, item.variants[i]);
      && |arm| >= |name| + |ArmTail(i)|
      && arm[..|name|] == name
      && arm[|arm| - |ArmTail(i)|..] == ArmTail(i)
  {
    var naming := ChooseNaming(item, declarations);
    ArmsUpToAt(naming, item, |item.variants|, i);
    PrefixAndSuffix(VariantName(naming, item, item.variants[i]), " ", FieldPattern(item.variants[i].fields), ArmTail(i));
  }

  /** Joining one more item appends the separator and that item, unless it is the first. */
  lemma JoinSnoc(items: seq<string>, item: string, sep: string)
    ensures Join(items + [item], sep) == if items == [] then item else Join(items, sep) + sep + item
  {
    assert (items + [item])[..|items|] == items;
  }

  /**
   * The pattern of a struct variant lists its field names in declaration
   * order, separated by ", ": `{}` for none, and each further field adds
   * ", <name>" before the closing brace.
   */
  lemma BlockFieldsPattern(names: seq<string>, name: string)
    ensures FieldPattern(BlockFields([])) == "{}"
    ensures FieldPattern(BlockFields(names + [name])) ==
      if names == [] then "{" + name + "}" else "{" + Join(names, ", ") + ", " + name + "}"
  {
    JoinSnoc(names, name, ", ");
    var joined := Join(names + [name], ", ");
    assert FieldPattern(BlockFields(names + [name])) == "{" + joined + "}";
    if names != [] {
      assert "{" + (Join(names, ", ") + ", " + name) + "}" == "{" + Join(names, ", ") + ", " + name + "}";
    }
  }

  /** The pattern of a tuple variant with k fields is `(v0, ..., v<k-1>)`, and `()` when k is 0. */
  lemma TupleFieldsPattern(k: nat)
    ensures FieldPattern(TupleFields(k)) == "(" + Join(seq(k, i requires 0 <= i => "v" + NatToString(i)), ", ") + ")"
  {
    forall i | 0 <= i < k
      ensures TupleBinders(k)[i] == "v" + NatToString(i)
    {
      TupleBinderAt(k, i);
    }
    assert TupleBinders(k) == seq(k, i requires 0 <= i => "v" + NatToString(i));
  }

  // ----- template variables -----

  /** A template variable: its name, its default text and whether the caret always stops at it. */
  datatype TemplateVariable = TemplateVariable(name: string, defaultText: string, alwaysStopAt: bool)

  /** The live template being filled in. */
  class Template {
    var variables: seq<TemplateVariable>

    constructor ()
      ensures variables == []
    {
      variables := [];
    }
  }

  /** `VAR0` .. `VAR{n-1}`, each defaulting to `{}`. */
  function MatchVariables(n: nat): (r: seq<TemplateVariable>)
    ensures |r| == n
  {
    seq(n, i requires 0 <= i => TemplateVariable("VAR" + NatToString(i), "{}", true))
  }

  /** Every arm's placeholder is `$` + the name of a registered variable + `$`, and the names are distinct. */
  lemma MatchVariablesFitArms(n: nat)
    ensures forall i :: 0 <= i < n ==> Placeholder(i) == "$" + MatchVariables(n)[i].name + "$"
    ensures forall i, j :: 0 <= i < j < n ==> MatchVariables(n)[i].name != MatchVariables(n)[j].name
  {
    forall i, j | 0 <= i < j < n
      ensures MatchVariables(n)[i].name != MatchVariables(n)[j].name
    {
      NatToStringInjective(i, j);
      var a, b := MatchVariables(n)[i].name, MatchVariables(n)[j].name;
      assert a[3..] == NatToString(i) && b[3..] == NatToString(j);
    }
  }

  /** `MatchPostfixTemplate.setVariables`, after the base class's variables. */
  method SetVariables(template: Template, item: EnumItem)
    modifies template
    ensures template.variables == old(template.variables) + MatchVariables(|item.variants|)
  {
    var itemsCount := |item.variants|;
    for i := 0 to itemsCount
      invariant template.variables == old(template.variables) + MatchVariables(itemsCount)[..i]
    {
      assert MatchVariables(itemsCount)[..i + 1] == MatchVariables(itemsCount)[..i] + [MatchVariables(itemsCount)[i]];
      template.variables := template.variables + [TemplateVariable("VAR" + NatToString(i), "{}", true)];
    }
    assert MatchVariables(itemsCount)[..itemsCount] == MatchVariables(itemsCount);
  }
}
