# Editor-side helpers of the Rust IntelliJ plugin, modelled in Dafny

This project models six small pieces of the intellij-rust plugin and proves what each one promises:

- **Process output collection** (`OutputCollector`, from `StdOutputCollectingProcessListener`). The listener copies process output into a sink. It skips blank chunks, and it stops copying once more than 16384 characters were accepted. It is modelled as a class holding the stored length, with the sink as ghost state.
- **Rename normalisation and conflict reports** (`Rename`, from `RsRenameProcessor`).
  - The name recorded for a lifetime or label always gets a leading `'`.
  - Every other name loses all of its leading `'` characters.
  - Renaming a pattern binding reports each same-named local as a "Parameter", "Variable" or "Binding".
- **String-based postfix templates** (`PostfixTemplates`): the text produced by `.assert`/`.debug_assert`, `.lambda` and `.match`, and the template variables `.match` registers.
- **Constant classification** (`Constants`, from `RustConstantImplMixin`): the kind of a `const`/`static` item, its role, and its icon.
- **Go to Super** (`GotoSuper`, from `RustGotoSuperHandler.findTarget`): the nearest enclosing module or impl method.
- **External linter settings** (`LinterSettings`, from `ExternalLinterProjectSettingsService`): the settings record, its defaults and its copy, and the migration of the legacy linter fields.

Foreign inputs are passed in as values:

- PSI elements become a syntactic kind plus an identity.
- The locals that `processLocalVariables` visits become a sequence of `Local` records.
- Type inference and scope analysis become the enum's name, path and variants, plus the set of in-scope paths.
- The parent chain becomes a sequence of ancestors.
- An IOException from the sink becomes a boolean parameter.

Kotlin's nullable values become `Option`. Where Kotlin renders `null` inside a string template, the model produces the text `"null"`.

Two library behaviours are assumed, because their code is not part of this model:

- IntelliJ's `StringUtil.isEmptyOrSpaces` is taken to mean "every character is at or below U+0020".
- `MultiMap.put(key, collection)` is taken to replace the collection stored under that key.

The `ExternalLinter` and `RustChannel` enums are modelled as datatypes. Their constructors come from the plugin's toolchain package, which is not among the files modelled here. Only their `DEFAULT` values matter to the proofs.

## Model

| member | source | states |
|---|---|---|
| `OutputCollector.StdOutputCollectingProcessListener.constructor` | src/main/kotlin/org/rust/openapiext/StdOutputCollectingProcessListener.kt:14-15 | a new listener has seen no events, has stored length 0, has accepted nothing and has sent nothing to the sink |
| `OutputCollector.StdOutputCollectingProcessListener.OnTextAvailable` | src/main/kotlin/org/rust/openapiext/StdOutputCollectingProcessListener.kt:17-34 | once the stored length is above 16384 (a strict test), or when the chunk is empty or whitespace, nothing changes; otherwise the length grows by exactly the chunk's length and the chunk is appended unmodified, reaching the sink unless the append fails; the invariant (length = sum of accepted chunk lengths, all accepted chunks non-blank, length ≤ 16384 + last accepted chunk's length, sink = the delivered accepted chunks in order, accepted chunks = what the run-level definition accepts from the events seen so far) is preserved, and the event is recorded |
| `OutputCollector.TotalLengthAppend` | src/main/kotlin/org/rust/openapiext/StdOutputCollectingProcessListener.kt:26 | accepting one more chunk adds exactly its length to the total of accepted lengths |
| `OutputCollector.Delivered` | src/main/kotlin/org/rust/openapiext/StdOutputCollectingProcessListener.kt:30-33 | every chunk in the sink is one of the accepted chunks, and the sink never holds more chunks than were accepted; that the sink keeps the delivered ones in arrival order is the function's definition |
| `OutputCollector.DeliveredAll` | src/main/kotlin/org/rust/openapiext/StdOutputCollectingProcessListener.kt:30-33 | when no append fails, the sink holds exactly the accepted chunks, unmodified and in arrival order |
| `OutputCollector.DeliveredLength` | src/main/kotlin/org/rust/openapiext/StdOutputCollectingProcessListener.kt:26-33 | the sink never receives more characters than the stored length counts |
| `OutputCollector.AcceptsMeans` | src/main/kotlin/org/rust/openapiext/StdOutputCollectingProcessListener.kt:19-25 | a chunk is accepted exactly when the stored length is at most 16384 and the chunk holds a character above U+0020; an empty chunk is never accepted |
| `OutputCollector.AcceptedOfFromEvents` | src/main/kotlin/org/rust/openapiext/StdOutputCollectingProcessListener.kt:17-28 | over any run, at most one chunk is accepted per event, and every accepted chunk is the text of some event |
| `OutputCollector.AcceptedOfSnoc` | src/main/kotlin/org/rust/openapiext/StdOutputCollectingProcessListener.kt:19-26 | one more event extends the run's accepted chunks by exactly that chunk when the length test and the blank test let it through, and leaves them unchanged otherwise |
| `OutputCollector.AcceptedOfBound` | src/main/kotlin/org/rust/openapiext/StdOutputCollectingProcessListener.kt:19-26 | over any run of events, every accepted chunk is non-blank and the total accepted length is at most 16384 plus the length of the last accepted chunk |
| `Rename.IsLifetimeOrLabel` | src/main/kotlin/org/rust/ide/refactoring/RsRenameProcessor.kt:121-126 | the elements that get a leading `'` are exactly those that are neither a pattern binding nor another named element: lifetimes, lifetime parameters, labels and label declarations |
| `Rename.EnsureQuote` | src/main/kotlin/org/rust/ide/refactoring/RsRenameProcessor.kt:191 | the result starts with `'`, is either the input or the input with one `'` in front, and is the input unchanged when that already starts with `'` |
| `Rename.EnsureQuoteIdempotent` | src/main/kotlin/org/rust/ide/refactoring/RsRenameProcessor.kt:191 | applying `ensureQuote` twice gives the same as once |
| `Rename.TrimLeadingQuotes` | src/main/kotlin/org/rust/ide/refactoring/RsRenameProcessor.kt:129 | the result does not start with `'`, is a suffix of the input, and everything removed before it is `'` characters |
| `Rename.RenamedName` | src/main/kotlin/org/rust/ide/refactoring/RsRenameProcessor.kt:121-130 | the recorded name starts with `'` exactly when the element is a lifetime, lifetime parameter, label or label declaration; for those it is the new name itself when that already starts with `'`, and the new name with one `'` in front otherwise; for every other element it is the new name with all of its leading `'` characters removed and nothing else changed |
| `Rename.RenamedNameIdempotent` | src/main/kotlin/org/rust/ide/refactoring/RsRenameProcessor.kt:121-130 | renaming to an already normalised name records that same name |
| `Rename.PrepareRenaming` | src/main/kotlin/org/rust/ide/refactoring/RsRenameProcessor.kt:115-133 | the renames map gains or overwrites exactly the entry for the element, with the normalised name; every other entry is unchanged |
| `Rename.ConflictType` | src/main/kotlin/org/rust/ide/refactoring/RsRenameProcessor.kt:65-74 | "Parameter" exactly for a PatIdent binding inside a value parameter, "Variable" exactly for any other PatIdent binding, "Binding" exactly for any other parent |
| `Rename.ConflictMessages` | src/main/kotlin/org/rust/ide/refactoring/RsRenameProcessor.kt:63-76 | one message per local whose name equals the new name; each has the form "<type> \`<newName>\` is already declared in function \`<fn>\`", with the type of some such local |
| `Rename.ConflictMessageParts` | src/main/kotlin/org/rust/ide/refactoring/RsRenameProcessor.kt:75 | a conflict message starts with the conflict type, then a space and the new name in backquotes, and ends with the function name in backquotes |
| `Rename.ConflictMessagesInOrder` | src/main/kotlin/org/rust/ide/refactoring/RsRenameProcessor.kt:63-76 | for every visited local called the new name, the message at its position among the namesakes exists and names that local's own conflict type, so the messages follow the visiting order one for one |
| `Rename.NoConflictsIffNoNamesake` | src/main/kotlin/org/rust/ide/refactoring/RsRenameProcessor.kt:63-82 | no message is produced if and only if no visited local has the new name |
| `Rename.CollectConflicts` | src/main/kotlin/org/rust/ide/refactoring/RsRenameProcessor.kt:54-78 | the callback run over the visited locals collects exactly the specified messages, in visiting order |
| `Rename.FindExistingNameConflicts` | src/main/kotlin/org/rust/ide/refactoring/RsRenameProcessor.kt:46-83 | the conflicts map changes only when the element is a pattern binding inside a named function, a scope was found, and at least one message was produced; it then maps the element to those messages, and otherwise it is untouched |
| `PostfixTemplates.NatToString` | src/main/kotlin/org/rust/ide/template/postfix/stringBasedPostfixTemplates.kt:98 | the decimal rendering of an index is never empty |
| `PostfixTemplates.NatToStringDigits` | src/main/kotlin/org/rust/ide/template/postfix/stringBasedPostfixTemplates.kt:98 | the rendering consists of decimal digits only |
| `PostfixTemplates.ParseNatToString` | src/main/kotlin/org/rust/ide/template/postfix/stringBasedPostfixTemplates.kt:98 | reading the rendering back gives the index again |
| `PostfixTemplates.NatToStringInjective` | src/main/kotlin/org/rust/ide/template/postfix/stringBasedPostfixTemplates.kt:98 | distinct indices render differently |
| `PostfixTemplates.NatToStringNoLeadingZero` | src/main/kotlin/org/rust/ide/template/postfix/stringBasedPostfixTemplates.kt:98 | a positive index renders without a leading zero, as Kotlin's decimal rendering of an `Int` does |
| `PostfixTemplates.AssertTemplateString` | src/main/kotlin/org/rust/ide/template/postfix/stringBasedPostfixTemplates.kt:18-23 | the text starts with the template name and ends with `);$END$`; for a `==` binary expression it continues with `_eq!(` and the argument is `<left>, <right>` (`null` for a missing right operand); otherwise it continues with `!(` and the argument is the expression text |
| `PostfixTemplates.AssertTemplateDetermines` | src/main/kotlin/org/rust/ide/template/postfix/stringBasedPostfixTemplates.kt:18-23 | equal outputs for one template name come from expressions that agree on the `==` test and on the argument text |
| `PostfixTemplates.LambdaTemplateString` | src/main/kotlin/org/rust/ide/template/postfix/stringBasedPostfixTemplates.kt:36 | the text is two vertical bars and a space, followed by the unchanged expression text |
| `PostfixTemplates.ChooseNaming` | src/main/kotlin/org/rust/ide/template/postfix/stringBasedPostfixTemplates.kt:64-77 | bare variant names exactly when every variant's path is in scope (including an enum without variants), `Enum::Variant` exactly when not all are but the enum's path is, the full path otherwise |
| `PostfixTemplates.VariantNameParts` | src/main/kotlin/org/rust/ide/template/postfix/stringBasedPostfixTemplates.kt:64-77 | a bare name is the variant's name (empty when it has none); a qualified name is the enum's name, `::` and the variant's name, with `UnknownEnumName` and `UnknownVariantName` standing in for missing names; a full path is the variant's path, `null` when it has none |
| `PostfixTemplates.TupleBinders` | src/main/kotlin/org/rust/ide/template/postfix/stringBasedPostfixTemplates.kt:92-93 | a tuple variant with k fields gets k binders |
| `PostfixTemplates.TupleBinderAt` | src/main/kotlin/org/rust/ide/template/postfix/stringBasedPostfixTemplates.kt:92-93 | binder i is `v<i>` |
| `PostfixTemplates.TupleFieldsPattern` | src/main/kotlin/org/rust/ide/template/postfix/stringBasedPostfixTemplates.kt:92-94 | for every k, a tuple variant with k fields gets the pattern `(v0, ..., v<k-1>)`: the binders `v<i>` for i below k joined by `, ` in parentheses, `()` for k = 0 |
| `PostfixTemplates.FieldPatternParts` | src/main/kotlin/org/rust/ide/template/postfix/stringBasedPostfixTemplates.kt:85-97 | a struct variant's pattern is its field names joined by `, ` inside braces, a tuple variant's is its binders joined by `, ` inside parentheses, and the pattern is empty exactly for a variant with neither |
| `PostfixTemplates.JoinSnoc` | src/main/kotlin/org/rust/ide/template/postfix/stringBasedPostfixTemplates.kt:87-89 | joining one more item appends `, ` and that item, or gives the item alone when it is the first |
| `PostfixTemplates.BlockFieldsPattern` | src/main/kotlin/org/rust/ide/template/postfix/stringBasedPostfixTemplates.kt:86-90 | a struct variant without fields gets `{}`; each further field appends `, <name>` before the closing brace, so the field names appear in declaration order |
| `PostfixTemplates.PlaceholderParts` | src/main/kotlin/org/rust/ide/template/postfix/stringBasedPostfixTemplates.kt:98 | placeholder i is `$VAR`, then the decimal rendering of i, then `$` |
| `PostfixTemplates.ArmTailParts` | src/main/kotlin/org/rust/ide/template/postfix/stringBasedPostfixTemplates.kt:98 | each arm ends with ` => `, its placeholder, a comma and a newline |
| `PostfixTemplates.ArmParts` | src/main/kotlin/org/rust/ide/template/postfix/stringBasedPostfixTemplates.kt:98 | an arm is the variant's chosen name, one space, its field pattern, and the tail with its own placeholder |
| `PostfixTemplates.ArmsUpTo` | src/main/kotlin/org/rust/ide/template/postfix/stringBasedPostfixTemplates.kt:79-99 | the loop's first n iterations produce n arms |
| `PostfixTemplates.Arms` | src/main/kotlin/org/rust/ide/template/postfix/stringBasedPostfixTemplates.kt:79-99 | exactly one arm per variant |
| `PostfixTemplates.ArmsUpToAt` | src/main/kotlin/org/rust/ide/template/postfix/stringBasedPostfixTemplates.kt:79-98 | arm i is built from variant i with index i, so the arms follow declaration order |
| `PostfixTemplates.ArmShape` | src/main/kotlin/org/rust/ide/template/postfix/stringBasedPostfixTemplates.kt:79-98 | arm i starts with the chosen name of variant i and ends with ` => $VAR<i>$,` and a newline |
| `PostfixTemplates.PlaceholdersDistinct` | src/main/kotlin/org/rust/ide/template/postfix/stringBasedPostfixTemplates.kt:98 | no two arms share a placeholder |
| `PostfixTemplates.MatchTemplateString` | src/main/kotlin/org/rust/ide/template/postfix/stringBasedPostfixTemplates.kt:46-103 | the StringBuilder loop produces `match <text> {` and a newline, then the arms in order, then `};` and a newline |
| `PostfixTemplates.MatchTextParts` | src/main/kotlin/org/rust/ide/template/postfix/stringBasedPostfixTemplates.kt:59-100 | the produced text is `match <text> {` and a newline, then the concatenated arms, then `};` and a newline |
| `PostfixTemplates.MatchVariables` | src/main/kotlin/org/rust/ide/template/postfix/stringBasedPostfixTemplates.kt:109-113 | one template variable per variant |
| `PostfixTemplates.MatchVariablesFitArms` | src/main/kotlin/org/rust/ide/template/postfix/stringBasedPostfixTemplates.kt:98-113 | the placeholder of arm i names variable i, and the variable names are pairwise distinct |
| `PostfixTemplates.SetVariables` | src/main/kotlin/org/rust/ide/template/postfix/stringBasedPostfixTemplates.kt:107-114 | the template gains exactly the variables `VAR0` .. `VAR<n-1>`, in order, each with default text `{}`, after those already present |
| `Constants.Kind` | src/main/kotlin/org/rust/lang/core/psi/impl/mixin/RustConstantImplMixin.kt:32-36 | `MUT_STATIC` exactly when `mut` is present (with or without `const`), `CONST` exactly when only `const` is, `STATIC` exactly when neither is |
| `Constants.Role` | src/main/kotlin/org/rust/lang/core/psi/impl/mixin/RustConstantImplMixin.kt:45-53 | the first matching parent test decides: items owner gives `FREE`, then trait gives `TRAIT_CONSTANT`, impl gives `IMPL_CONSTANT`, foreign module gives `FOREIGN`; it is an error exactly when none holds |
| `Constants.IconOf` | src/main/kotlin/org/rust/lang/core/psi/impl/mixin/RustConstantImplMixin.kt:17-21 | the constant icon exactly for `CONST`, the mutable-static icon exactly for `MUT_STATIC`, the static icon exactly for `STATIC` |
| `Constants.IconOfBijective` | src/main/kotlin/org/rust/lang/core/psi/impl/mixin/RustConstantImplMixin.kt:17-21 | the kind-to-icon map is injective and covers all three icons |
| `Constants.MutDecidesIcon` | src/main/kotlin/org/rust/lang/core/psi/impl/mixin/RustConstantImplMixin.kt:17-36 | a constant with `mut` gets the mutable-static icon whether or not `const` is present |
| `GotoSuper.NearestFunctionOrMod` | src/main/kotlin/org/rust/ide/navigation/goto/RustGotoSuperHandler.kt:33-37 | the parent search finds the nearest strict ancestor that is a function or a module, or nothing when there is none |
| `GotoSuper.FindTarget` | src/main/kotlin/org/rust/ide/navigation/goto/RustGotoSuperHandler.kt:32-44 | the result is the nearest ancestor that is a module or an impl method; it is null exactly when no ancestor is either; the recursion ends because each call starts strictly higher in the chain |
| `GotoSuper.UniqueNearestTarget` | src/main/kotlin/org/rust/ide/navigation/goto/RustGotoSuperHandler.kt:32-44 | any position that is a target, with no target nearer to the caret, is the result |
| `GotoSuper.SkippedFunctionIsTransparent` | src/main/kotlin/org/rust/ide/navigation/goto/RustGotoSuperHandler.kt:39-41 | when nothing nearer to the caret is a target, a function that is not an impl method is skipped: the result equals that of the search started strictly above it |
| `LinterSettings.State.constructor` | src/main/kotlin/org/rust/cargo/project/settings/ExternalLinterProjectSettingsService.kt:41-51 | a new State has tool `DEFAULT`, arguments `""`, channel `DEFAULT`, no envs and on-the-fly off |
| `LinterSettings.State.Copy` | src/main/kotlin/org/rust/cargo/project/settings/ExternalLinterProjectSettingsService.kt:53-57 | `copy` returns a new State with the same five values |
| `LinterSettings.ExternalLinterProjectSettingsService.constructor` | src/main/kotlin/org/rust/cargo/project/settings/ExternalLinterProjectSettingsService.kt:22 | the service starts from a default State |
| `LinterSettings.ExternalLinterProjectSettingsService.NoStateLoaded` | src/main/kotlin/org/rust/cargo/project/settings/ExternalLinterProjectSettingsService.kt:29-39 | afterwards tool, arguments and on-the-fly equal the legacy values from before the call; the legacy fields are `DEFAULT`, `""` and `false`; channel and envs are unchanged |
| `LinterSettings.MigrateIntoFreshService` | src/main/kotlin/org/rust/cargo/project/settings/ExternalLinterProjectSettingsService.kt:22-39 | a service created with defaults and then migrated holds the legacy linter values with the default channel and no envs, and the legacy fields are reset |

## Left out

- The macro-resolution engine (visibility of `macro_rules!` definitions, rule matching, metavariable binding) and the liveness analysis: their implementation is not among the files modelled here (only their test files are), so their behaviour is not modelled.
- The settings panels (RsProjectConfigurable, RsExternalLinterConfigurable, CargoConfigurable), AddDeriveIntention and the surrounder-based postfix templates: Swing bindings and PSI tree edits through IDE APIs.
- `renameElement`, `substituteElementToRename`, `findReferences` and the three-argument `prepareRenaming` of RsRenameProcessor: PSI mutation, search over the whole project and directory renames.
- The rename dialog's full name for modules and `canProcessElement`: UI and type tests on the PSI.
- `processLocalVariables`, the choice of its scope element, `parentOfType` and `function.name`: foreign. Their results are inputs: the visited locals and the enclosing function's name.
- Type inference (`resolvedType`), `innerDeclarations`, `crateRelativePath` and the field counting with `descendentsOfType`: inputs, as the enum's name, path and variants and the set of in-scope paths.
- `super.setVariables` of the base template class and `getElementToRemove`: framework code.
- The `synchronized` block of the output listener: the model is one thread handling events in order.
- `OutputCollector.StdOutputCollectingProcessListener.OnTextAvailable`: the stored length is unbounded here, while the source uses a 32-bit `Int`. Wrap-around would need one chunk of more than 2^31 - 16385 characters.
- `OutputCollector.StdOutputCollectingProcessListener.OnTextAvailable`: a chunk's length is its number of Dafny characters. Kotlin counts UTF-16 code units, which differs for characters outside the Basic Multilingual Plane.
- `invoke` and `isValidFor` of RustGotoSuperHandler, `superMethod`, a function's `role` and a module's `super`: editor navigation and PSI queries. The role is given per ancestor.
- `iconWithVisibility`, `isPublic` and `RsConstant.default`: the visibility decoration of the icon and stub lookups.
- `LinterSettings.ExternalLinterProjectSettingsService.NoStateLoaded`: the `modify` wrapper of the service base class is not modelled. That wrapper is not part of this model, and it would also handle persistence and the settings-changed event. The migration is applied to the service's State object in place.
- The other fields of the legacy Rust project settings, and the persistence annotations.
