# esformatter hooks, modelled in Dafny

esformatter reformats JavaScript by editing the token stream of the parsed
program in place. Spaces and line breaks are stored in that stream as
`WhiteSpace` and `LineBreak` tokens. `lib/hooks.js` holds one hook per
AST node type. Each hook finds the tokens that matter around its node, such
as operators, parentheses, braces, commas and semicolons. It then removes
layout tokens, or asks the whitespace and line-break utilities to make
the layout around a token match the configured style, and records
indentation levels.

The model keeps that shape.

- **The stream.** `Stream.TokenStream` is a class over the shared stream.
  The tokens no hook ever removes sit in the immutable `tokens`: keywords,
  identifiers, punctuators, literals and comments. The layout between
  them sits in the mutable `gaps`: `gaps[i]` is the layout right before
  `tokens[i]`, and one trailing gap follows the last token. The class
  also holds an `indent` map from token to recorded level. A node's
  `startToken`/`endToken` is an index into `tokens` (`Ast.Span`). Such an
  index stays valid across every edit.
- **The utilities** the hooks call (`removeInBetween`,
  `removeAdjacentBefore`, `whiteSpace.aroundIfNeeded`,
  `lineBreak.beforeIfNeeded`, `indent.ifNeeded`, …) are methods of that
  class. Each is specified by a pure function on the gaps.
- **The style.** How a rule name such as `'ForStatementSemicolon'`
  becomes a policy comes from the configuration. It is an input: a
  `Layout.Style` maps each `Layout.Rule` to a `Req` per side, either keep
  what is there or exactly `n` spaces or line breaks.
- **Each hook** is a method with the same steps, in the same order, as
  the JavaScript. Its `ensures` ties the new gaps to a pure function of
  the old ones (`WhileGaps`, `IfGaps`, …), and the indentation to a
  function of the old map. The properties the hooks promise are lemmas
  about those functions.
- **The dispatch.** `Hooks.Format` runs the hook of a node's type and
  leaves any other node alone. Whatever the hook, it proves that the
  stream's non-layout tokens, read in linked order, are exactly the ones
  that were there before.

## Model

| member | source | states |
|---|---|---|
| Hooks.Format | lib/hooks.js:4-8 | runs the hook of the node's type, and leaves any other type unchanged; after any hook, the non-layout tokens of the linked stream are the original tokens, in the original order |
| Tokens.SignificantOfFlatten | lib/hooks.js:14-17 | however the utilities rewrite the layout, dropping layout from the linked stream gives back exactly the significant tokens, in order |
| Stream.TokenStream.SignificantIsTokens | lib/hooks.js:14-17 | in every valid state, the significant tokens of the stream are `tokens` |
| Tokens.FindNext | lib/hooks.js:51 | `_tk.findNext`: the first token at or after the start whose value matches; none before it matches |
| Tokens.FindPrev | lib/hooks.js:162 | `_tk.findPrev`: the last token at or before the start whose value matches; none after it matches |
| Tokens.NextIsSuccessor | lib/hooks.js:137-139 | the raw `next` link moves exactly one place forward in the linked stream, layout tokens included, and is absent only on the last token |
| Tokens.PrevNonEmptyIsPreviousToken | lib/hooks.js:247 | `findPrevNonEmpty(tokens[i])` is `tokens[i-1]`: only layout tokens lie between the two in the linked stream |
| Layout.SetSpace | lib/hooks.js:24 | `whiteSpace.*IfNeeded` on one gap: the gap meets the spacing policy afterwards; its line breaks are untouched; a gap that already meets the policy is unchanged |
| Layout.SetSpaceOnlyWhitespace | lib/hooks.js:24 | spacing changes whitespace tokens only |
| Layout.SetBreaks | lib/hooks.js:40 | `lineBreak.*IfNeeded` on one gap: the gap holds the requested number of line breaks; its whitespace is kept; a gap that already meets the policy is unchanged |
| Layout.SetSpaceIdempotent | lib/hooks.js:24 | applying a spacing policy twice is the same as applying it once |
| Layout.SetBreaksIdempotent | lib/hooks.js:40 | applying a line-break policy twice is the same as applying it once |
| Layout.SpacingKeepsBreaks | lib/hooks.js:174-175 | spacing a gap after its line breaks were set never undoes them |
| Stream.DropLastBreak | lib/hooks.js:107 | `removeAdjacentBefore(token, 'LineBreak')` removes exactly one line break when the gap ends with one, and none otherwise |
| Stream.RemovedBreaksBetween | lib/hooks.js:50 | after `removeInBetween(a, b, 'LineBreak')` no gap strictly between the two anchors holds a line break |
| Stream.ClearedAdjacent | lib/hooks.js:290 | clearing all layout between adjacent tokens empties just the one gap between them |
| Stream.SpacedEachMeets | lib/hooks.js:147-155 | after spacing a list of anchors in order, an anchor with no later anchor next to it meets the policy on both sides |
| Stream.SpacedEachElsewhere | lib/hooks.js:147-155 | spacing a list of anchors leaves every gap that is not next to one of them unchanged |
| Stream.TokenStream.RemoveInBetween | lib/hooks.js:50 | `_tk.removeInBetween(a, b, type)`: every token of that type is deleted from the gaps strictly between the anchors; nothing else changes |
| Stream.TokenStream.RemoveWsBrInBetween | lib/hooks.js:237-238 | `_tk.removeWsBrInBetween`: every gap strictly between the anchors is emptied; nothing else changes |
| Stream.TokenStream.RemoveWsBrJustBefore | lib/hooks.js:290 | removing layout between a token and the token before it empties just the gap before it |
| Stream.TokenStream.RemoveAdjacentBefore | lib/hooks.js:107 | `_tk.removeAdjacentBefore`: only the last token of the gap before the anchor is removed, and only when it has the kind |
| Stream.TokenStream.RemoveAdjacentAfter | lib/hooks.js:214 | `_tk.removeAdjacentAfter`: only the first token of the gap after the anchor is removed, and only when it has the kind |
| Stream.TokenStream.RemoveFromGap | lib/hooks.js:83-85 | `_tk.remove` on each line break of one gap |
| Stream.TokenStream.WsBeforeIfNeeded | lib/hooks.js:27 | `_ws.beforeIfNeeded(token, rule)`: only the gap before the token is reconciled with the rule's policy |
| Stream.TokenStream.WsAfterIfNeeded | lib/hooks.js:24 | `_ws.afterIfNeeded(token, rule)`: only the gap after the token is reconciled with the rule's policy |
| Stream.TokenStream.WsAroundIfNeeded | lib/hooks.js:30 | `_ws.aroundIfNeeded`: the gap before, then the gap after |
| Stream.TokenStream.WsAroundCursor | lib/hooks.js:141 | `aroundIfNeeded` on a token reached through raw `next` links: a significant token is spaced on both sides; on a layout token only the gap holding it may change, and it keeps holding layout only |
| Stream.TokenStream.WsBefore | lib/hooks.js:255 | `_ws.before`: exactly one space before the token, unless a line break is there |
| Stream.TokenStream.WsAfter | lib/hooks.js:284 | `_ws.after`: exactly one space after the token, unless a line break is there |
| Stream.TokenStream.BrBeforeIfNeeded | lib/hooks.js:78 | `_br.beforeIfNeeded`: only the gap before the token gets the rule's line-break count |
| Stream.TokenStream.BrAfterIfNeeded | lib/hooks.js:89 | `_br.afterIfNeeded`: only the gap after the token gets the rule's line-break count |
| Stream.TokenStream.BrAroundIfNeeded | lib/hooks.js:40 | `_br.aroundIfNeeded`: the gap before, then the gap after |
| Stream.TokenStream.IndentIfNeeded | lib/hooks.js:43 | `_indent.ifNeeded`: the level is recorded only for a token that starts a line; the layout is unchanged |
| Stream.TokenStream.IndentBefore | lib/hooks.js:94 | `_indent.before`: the level is recorded unconditionally; the layout is unchanged |
| Stream.DropTrailingOf | lib/hooks.js:107 | the intended removal before a name: the whole run of trailing tokens of the kind goes, what is left is a prefix of the gap and does not end with that kind |
| Stream.DropTrailingOfSettled | lib/hooks.js:107 | dropping every trailing token of a kind from a gap, done twice, is the same as done once |
| Stream.RemovedBetweenSettled | lib/hooks.js:50 | `removeInBetween(a, b, 'LineBreak')` changes nothing where no line break is left between the anchors |
| Stream.SpacedBeforeSettled | lib/hooks.js:27 | `beforeIfNeeded` changes nothing on a gap that already meets its policy |
| Stream.SpacedAroundSettled | lib/hooks.js:30 | `aroundIfNeeded` changes nothing on a token already spaced per policy on both sides |
| Layout.SetSpaceTwiceSettled | lib/hooks.js:132-133 | spacing one gap by two policies in turn, then again by the same two, leaves what the first pass left |
| Layout.SpacingBeforeBreaksUnsettled | lib/hooks.js:37-40 | spacing a gap that holds a line break and then removing the break keeps its whitespace, and the same two steps then change it again |
| ExpressionHooks.GluedIsRawNextComma | lib/hooks.js:29-31 | the raw `next` of the anchor is a significant `,` exactly when that comma follows the anchor with no layout between; so a comma separated from the anchor by layout is not reached |
| ExpressionHooks.CommaSpaced | lib/hooks.js:29-31 | one comma round: a comma glued to its anchor meets the comma policy on both sides; every other gap is unchanged, and without a glued comma nothing changes |
| ExpressionHooks.CommasSpaced | lib/hooks.js:28-32 | the comma loop over the first `k` anchors keeps one gap per token; what it does is stated by `CommasSpacedBeyond`, `CommasSpacedElsewhere` and `CommasSpacedMeets` |
| ExpressionHooks.CommasSpacedBeyond | lib/hooks.js:28-32 | the comma loop leaves every gap past the commas it may reach unchanged |
| ExpressionHooks.CommasSpacedElsewhere | lib/hooks.js:28-32 | the comma loop changes only the gaps on either side of a glued comma |
| ExpressionHooks.CommasSpacedMeets | lib/hooks.js:28-32 | after the comma loop, every comma glued to an anchor meets its policy on both sides, later rounds included |
| ExpressionHooks.CommasSpacedSettled | lib/hooks.js:28-32 | the comma loop changes nothing when every glued comma already meets its policies |
| ExpressionHooks.SpaceCommas | lib/hooks.js:28-32 | the `forEach` over parameters or arguments applies `CommaSpaced` once per item, in order |
| ExpressionHooks.ListSpaced | lib/hooks.js:26-34 | the gap after the last item meets the list rule's after-policy, whatever the commas did |
| ExpressionHooks.ListLayout | lib/hooks.js:26-34 | a spaced parameter or argument list: the gap before the first item and the gap after the last meet the list policies; a comma glued to any item but the last meets the comma policies on both sides; every other gap is unchanged |
| ExpressionHooks.ListSpacedMeets | lib/hooks.js:26-34 | the policy half of `ListLayout` |
| ExpressionHooks.ListCommaMeets | lib/hooks.js:28-32 | the comma of one item but the last, when glued, meets the comma policies after the whole list step |
| ExpressionHooks.ListSpacedElsewhere | lib/hooks.js:26-34 | the frame half of `ListLayout`: a gap that is neither the first item's, the last item's nor next to a glued comma is unchanged |
| ExpressionHooks.ListKeepsUnglued | lib/hooks.js:26-34 | spacing a list never glues a comma to the anchor of an item other than the last |
| ExpressionHooks.ListSettled | lib/hooks.js:26-34 | with no comma right after the last item's anchor, spacing a list a second time changes nothing |
| ExpressionHooks.SignatureLayout | lib/hooks.js:24-33 | the gap after the function name meets FunctionName; the gaps before the first parameter and after the last meet ParameterList; a comma glued to the first token of any parameter but the last meets ParameterComma on both sides; all these gaps lie before the body's `{` |
| ExpressionHooks.SignatureName | lib/hooks.js:24-33 | the parameter list never undoes the spacing after the name |
| ExpressionHooks.BracesAfterSignature | lib/hooks.js:36-41 | the body's brace steps leave every gap before the opening brace as the signature left it, so `SignatureLayout` is the final layout there |
| ExpressionHooks.FunctionOpeningBraceBreaks | lib/hooks.js:40-41 | the body's opening brace ends up with its line-break policies; the gap inside `{}` goes to the closing brace's policy |
| ExpressionHooks.FunctionClosingBraceBreaks | lib/hooks.js:41 | the body's closing brace ends up with its line-break policies on both sides |
| ExpressionHooks.FunctionIndent | lib/hooks.js:43-44 | both body braces are indented to the function's level exactly when they start a line; no other entry changes |
| ExpressionHooks.FunctionGaps | lib/hooks.js:23-45 | the layout the hook leaves keeps one gap per token; what it means is stated by `SignatureLayout`, `BracesAfterSignature` and the two brace lemmas |
| ExpressionHooks.FunctionDeclaration | lib/hooks.js:23-45 | the hook's edits, in source order, leave `FunctionGaps` and `FunctionIndent` |
| ExpressionHooks.FunctionOpeningGap | lib/hooks.js:37-40 | the gap before the body's `{` ends up as the signature left it, spaced by the brace's whitespace policy first and then given its line-break policy |
| ExpressionHooks.FunctionNotIdempotent | lib/hooks.js:37-41 | in `function f() {}` with three spaces and a line break before `{`, under one space and no line break there, the first run leaves the three spaces and a second run leaves one: the hook is not idempotent |
| ExpressionHooks.BinaryOperator | lib/hooks.js:51 | the operator spaced is the first token after the left operand whose text is the operator |
| ExpressionHooks.BinaryGaps | lib/hooks.js:49-53 | the layout the hook leaves keeps one gap per token; what it means is stated by `BinaryLayout` and `BinaryIdempotent` |
| ExpressionHooks.BinaryLayout | lib/hooks.js:49-53 | no line break is left inside the expression; the operator is spaced on both sides; every other gap is unchanged |
| ExpressionHooks.BinaryIdempotent | lib/hooks.js:49-53 | running the hook on the layout it left changes nothing |
| ExpressionHooks.BinaryExpression | lib/hooks.js:49-53 | the hook leaves `BinaryGaps` and does not touch indentation |
| ExpressionHooks.CallGaps | lib/hooks.js:57-68 | a call without arguments is unchanged; otherwise the gap after the last argument meets the ArgumentList policy |
| ExpressionHooks.CallLayout | lib/hooks.js:57-68 | with arguments: the gap before the first and after the last meet ArgumentList; a comma glued to the end of any argument but the last meets ArgumentComma on both sides; every other gap is unchanged |
| ExpressionHooks.CallIdempotent | lib/hooks.js:57-68 | when no comma follows the last argument, running the hook on the layout it left changes nothing |
| ExpressionHooks.CallExpression | lib/hooks.js:57-68 | the hook leaves `CallGaps`; commas are reached from each argument's end token |
| ExpressionHooks.AssignmentGaps | lib/hooks.js:129-133 | the layout the hook leaves keeps one gap per token; what it means is stated by `AssignmentLayout` and `AssignmentIdempotent` |
| ExpressionHooks.AssignmentLayout | lib/hooks.js:129-133 | no line break from the left side to the right side; both sides of the operator meet the policy; every other gap is unchanged |
| ExpressionHooks.AssignmentIdempotent | lib/hooks.js:129-133 | running the hook on the layout it left changes nothing |
| ExpressionHooks.AssignmentAdjacentSettled | lib/hooks.js:132-133 | with no token between the two sides, their shared gap spaced by both policies again stays as it is |
| ExpressionHooks.AssignmentExpression | lib/hooks.js:129-133 | the hook leaves `AssignmentGaps` |
| ExpressionHooks.LogicalOperator | lib/hooks.js:137-140 | the operator is the token right after the left operand, or the one after that when the first is `)`; it is absent only when the stream ends first |
| ExpressionHooks.LogicalGaps | lib/hooks.js:136-142 | when the operator reached is a significant token, both of its sides meet the policy and nothing else changes; when there is none, nothing changes |
| ExpressionHooks.LogicalExpression | lib/hooks.js:136-142 | on a significant operator, or none, the hook leaves `LogicalGaps`; on a layout token only the gap holding it may change |
| ExpressionHooks.NearestCommaBefore | lib/hooks.js:149-152 | the `prev` walk stops at the nearest `,` before the expression |
| ExpressionHooks.SequenceComma | lib/hooks.js:149-152 | the comma spaced for expression `i` lies between expressions `i-1` and `i`, with no comma between it and expression `i` |
| ExpressionHooks.SequenceCommasApart | lib/hooks.js:147-155 | the commas spaced lie in order, with a token between any two |
| ExpressionHooks.SequenceGaps | lib/hooks.js:146-156 | the layout after the loop has visited `k` expressions keeps one gap per token; what it means is stated by `SequenceCommaSpaced`, `SequenceOnlyCommas` and `SequenceIdempotent` |
| ExpressionHooks.SequenceGapsStep | lib/hooks.js:147-155 | each pass of the loop spaces around one more comma |
| ExpressionHooks.SequenceCommaSpaced | lib/hooks.js:146-156 | after the loop, the comma before every expression but the first meets the CommaOperator policy on both sides |
| ExpressionHooks.SequenceOnlyCommas | lib/hooks.js:146-156 | no gap other than those around the commas changes |
| ExpressionHooks.SequenceSingleUntouched | lib/hooks.js:147-148 | with at most one expression nothing changes |
| Stream.SpacedEachSettled | lib/hooks.js:147-155 | spacing at anchors whose gaps already meet their policies changes nothing |
| ExpressionHooks.SequenceIdempotent | lib/hooks.js:146-156 | running the hook on the layout it left changes nothing |
| ExpressionHooks.SequenceExpression | lib/hooks.js:146-156 | the hook's loop, with `SequenceGaps` as its invariant, leaves the layout after all expressions |
| DeclarationHooks.DelimiterAfter | lib/hooks.js:80-81 | the scan stops at the first `,` or `}` after the property, or at the end of the stream |
| DeclarationHooks.PropertyGaps | lib/hooks.js:77-90 | one round of the property loop leaves every gap before the property unchanged |
| DeclarationHooks.PropertyBreaks | lib/hooks.js:78-89 | the property has its line-break policy before its first token and after its last one |
| DeclarationHooks.PropertySpacing | lib/hooks.js:79-88 | the property name (when a token separates it from the value) and the value are spaced per policy |
| DeclarationHooks.PropertyScan | lib/hooks.js:80-89 | no line break is left up to the gap before the next `,` or `}`, except in the gap right after the property, which holds line breaks only when the Property policy asks for some |
| DeclarationHooks.PropertyGapsBefore | lib/hooks.js:77-90 | one round changes no gap before its property |
| DeclarationHooks.PropertyRound | lib/hooks.js:78-89 | one round leaves its property with its line breaks before and after, its name and value spaced, and no line break up to its delimiter |
| DeclarationHooks.PropertyMeetsCarried | lib/hooks.js:77-90 | what a round achieved survives any later change outside the property's gaps up to its delimiter |
| DeclarationHooks.RoundStep | lib/hooks.js:77-90 | round `j` of the loop lays out property `j` and keeps the gaps before it |
| DeclarationHooks.PropertiesRounds | lib/hooks.js:77-90 | the intermediate layouts of the loop keep that promise round by round |
| DeclarationHooks.PropertyAfterRounds | lib/hooks.js:77-90 | with properties in order, a later round never undoes an earlier property's layout |
| DeclarationHooks.PropertyAfterLoop | lib/hooks.js:77-92 | each property's layout holds in any later layout that keeps the loop's gaps before the bound |
| DeclarationHooks.ObjectRounds | lib/hooks.js:75-92 | in a non-empty object, the closing brace's step keeps every gap before the brace as the loop left it |
| DeclarationHooks.ObjectProperties | lib/hooks.js:72-95 | after the whole hook, every property meets its Property, PropertyName and PropertyValue policies with no line break up to its `,`; only the gap shared with the closing brace goes to the brace's policy |
| DeclarationHooks.PropertiesGaps | lib/hooks.js:77-90 | the loop over the properties leaves every gap before the first property unchanged |
| DeclarationHooks.ObjectGaps | lib/hooks.js:72-95 | an empty object is unchanged |
| DeclarationHooks.ObjectOpeningBrace | lib/hooks.js:75 | a non-empty object's opening brace ends up with its line-break policy before it |
| DeclarationHooks.ObjectClosingBrace | lib/hooks.js:92 | a non-empty object's closing brace ends up with its line-break policies on both sides |
| DeclarationHooks.ClearBreaksToDelimiter | lib/hooks.js:80-87 | the `while` scan removes the line breaks up to the delimiter and returns where it stopped |
| DeclarationHooks.FormatProperty | lib/hooks.js:78-89 | one round of the loop leaves `PropertyGaps` |
| DeclarationHooks.FormatProperties | lib/hooks.js:77-90 | the `forEach` over properties leaves `PropertiesGaps` |
| DeclarationHooks.ObjectExpression | lib/hooks.js:72-95 | an empty object returns at once; otherwise it leaves `ObjectGaps` and records the closing brace's indentation level |
| DeclarationHooks.NameGaps | lib/hooks.js:106-113 | the first name loses the line break right before it; a later name meets its line-break policy outside a for header and its spacing policy inside one; no other gap changes |
| DeclarationHooks.InitGaps | lib/hooks.js:115-120 | the initializer meets its line-break and spacing policies, and the space after the name meets its policy; only those two gaps change |
| DeclarationHooks.DeclaratorGaps | lib/hooks.js:105-121 | one round changes nothing outside its declarator and leaves it meeting its policies |
| DeclarationHooks.DeclaratorsGaps | lib/hooks.js:105-121 | the loop changes nothing before the first declarator or after the last; in a for header it brings no line break except at an initializer |
| DeclarationHooks.DeclaratorsMeet | lib/hooks.js:105-121 | after `k` rounds, every one of the first `k` declarators meets its policies |
| DeclarationHooks.EarlierStillMeet | lib/hooks.js:105-121 | a later round keeps what the earlier rounds achieved |
| DeclarationHooks.VarDeclared | lib/hooks.js:99-121 | the layout after the declarator loop keeps one gap per token; what it means is stated by `VarDeclaredMeets` and the lemmas below |
| DeclarationHooks.VarDeclaredMeets | lib/hooks.js:99-121 | after the declarator loop, every declarator meets its policies |
| DeclarationHooks.VarGaps | lib/hooks.js:99-126 | nothing outside the statement changes; only the gap after `var` differs from the loop's result |
| DeclarationHooks.VarIndent | lib/hooks.js:108-110 | inside a for header the map is unchanged; no entry is dropped, and every entry added is one level deeper than the statement |
| DeclarationHooks.VarIndentLevels | lib/hooks.js:108-110 | outside a for header every later declarator is recorded one level deeper than the statement; inside one nothing is recorded |
| DeclarationHooks.VarFirstName | lib/hooks.js:106-107 | the first name loses exactly the line break right before it, if there is one |
| DeclarationHooks.VarLaterName | lib/hooks.js:108-113 | every later name meets its line-break policy outside a for header and its spacing policy inside one |
| DeclarationHooks.VarInit | lib/hooks.js:115-120 | every initializer, and the space after its name, meets its policies |
| DeclarationHooks.VarKeyword | lib/hooks.js:123-125 | where the style wants a space after `var`, exactly one follows it |
| DeclarationHooks.VarInForHeader | lib/hooks.js:100-103 | inside a for header no line break is left within the statement, except where an initializer's policy asks for one |
| DeclarationHooks.VarGapsNotIdempotent | lib/hooks.js:106-107 | for `var`, two line breaks, `a` under an all-keep style, the first run leaves one line break before `a` and a second run removes it |
| DeclarationHooks.FirstNameSettled | lib/hooks.js:106-107 | the first name's round as evidently intended: no line break is left right before the name; no other gap changes |
| DeclarationHooks.FirstNameSettledIdempotent | lib/hooks.js:106-107 | the intended round is idempotent, while `NameGaps` twice differs from once on a gap of two line breaks |
| DeclarationHooks.InitGapsNotIdempotent | lib/hooks.js:117-118 | for `a`, `=`, two line breaks, `1` under an all-keep style, the initializer's round leaves one line break before `1`, and a second round removes it |
| Stream.BrokenSettled | lib/hooks.js:117-118 | the intended line breaks before a token: the whole run right before it goes, then the policy; the result meets the policy, and under a keep policy no line break is left right before the token |
| Stream.DropTrailingBreaks | lib/hooks.js:117 | a gap that ends in `n` line breaks after anything else loses exactly those |
| Stream.BrokenSettledRestored | lib/hooks.js:117-119 | after `BrokenSettled` and any two spacing policies, a second `BrokenSettled` changes nothing |
| DeclarationHooks.InitSettled | lib/hooks.js:116-119 | the initializer's round as evidently intended: both of its gaps meet their policies, only those two change, and under a keep policy no line break is left right before the value |
| DeclarationHooks.InitSettledIdempotent | lib/hooks.js:116-119 | with the `=` between name and value, the intended round run twice is the same as run once |
| DeclarationHooks.FormatName | lib/hooks.js:106-113 | the name half of a round leaves `NameGaps`, and records the deeper level for a later name outside a for header |
| DeclarationHooks.FormatInit | lib/hooks.js:115-120 | the initializer half leaves `InitGaps` |
| DeclarationHooks.FormatDeclarator | lib/hooks.js:105-121 | one round leaves `DeclaratorGaps` |
| DeclarationHooks.FormatDeclarators | lib/hooks.js:105-121 | the `forEach` leaves `DeclaratorsGaps` and `VarIndent` |
| DeclarationHooks.VariableDeclaration | lib/hooks.js:99-126 | the hook leaves `VarGaps` and `VarIndent` |
| StatementHooks.LoopOpen | lib/hooks.js:161 | `(` is the first `(` after the keyword |
| StatementHooks.LoopClose | lib/hooks.js:162 | `)` is the last `)` before the body |
| StatementHooks.LoopHeadGaps | lib/hooks.js:161-166 | no line break is left from the keyword up to `)` |
| StatementHooks.BracedAround | lib/hooks.js:174-177 | line breaks and then spaces on a brace: all four policies hold on its two sides; no other gap changes |
| StatementHooks.OpeningTrimmed | lib/hooks.js:171-173 | the opening brace keeps its line break before it only when its rule asks for one |
| StatementHooks.LoopTailGaps | lib/hooks.js:168-183 | the body's handling leaves every gap up to `)` unchanged |
| StatementHooks.LoopOpeningBraceBroken | lib/hooks.js:171-175 | a block body's opening brace ends up with its line-break policies |
| StatementHooks.LoopClosingBraceBroken | lib/hooks.js:176-179 | the closing brace ends up with its line-break policies, and the gap after `)` meets its spacing policy |
| StatementHooks.LoopTailBracesBroken | lib/hooks.js:168-180 | both braces' line-break policies and the spacing after `)`, for a block body |
| StatementHooks.LoopOpeningBraceUnbroken | lib/hooks.js:171-174 | when the opening brace's policy keeps line breaks, it still loses exactly the line break right before it |
| StatementHooks.LoopOpeningNotIdempotent | lib/hooks.js:171-175 | for `)`, two line breaks, `{` under an all-keep style, the block tail leaves one line break before `{`, and a second run removes it |
| StatementHooks.OpeningSettled | lib/hooks.js:171-173 | the intended trim: unless its rule asks for line breaks, no line break is left right before `{`; only the gaps on either side of `{` change |
| StatementHooks.LoopBlockSettled | lib/hooks.js:171-180 | the block tail with the intended trim keeps one gap per token; what it means is stated by the two lemmas below |
| StatementHooks.LoopBlockSettledOpening | lib/hooks.js:171-180 | in the intended tail the gap before `{` is its trimmed self with the brace's line-break and spacing policies applied, then the space after `)` when the two are adjacent |
| StatementHooks.LoopOpeningSettledIdempotent | lib/hooks.js:171-180 | in the intended tail, a keep policy leaves no line break right before `{`, and a second run leaves the gap before `{` as the first left it |
| StatementHooks.LoopTail | lib/hooks.js:168-183 | the body half shared by WhileStatement and ForStatement (also lib/hooks.js:208-224): leaves `LoopTailGaps`, and records the closing brace's level for a block body |
| StatementHooks.LoopHead | lib/hooks.js:161-166 | the head's edits leave `LoopHeadGaps` and return the `)` |
| StatementHooks.TrimOpening | lib/hooks.js:211-214 | the conditional `removeAdjacentBefore`, then `removeAdjacentAfter` for `for` |
| StatementHooks.BraceAround | lib/hooks.js:174-175 | `_br.aroundIfNeeded` then `_ws.aroundIfNeeded` leave `BracedAround` |
| StatementHooks.WhileHeadUnbroken | lib/hooks.js:165 | no line break is left between `while` and `)` |
| StatementHooks.WhileConditionSpaced | lib/hooks.js:166-183 | `(` is spaced; the gap after `)` is spaced unless `;` or nothing follows `)`, and in that case the body changes nothing |
| StatementHooks.WhileOpeningBraceBroken | lib/hooks.js:171-175 | a block body's opening brace ends up with its line-break policies |
| StatementHooks.WhileClosingBraceBroken | lib/hooks.js:176-177 | a block body's closing brace ends up with its line-break policies |
| StatementHooks.WhileGaps | lib/hooks.js:160-184 | the layout the hook leaves keeps one gap per token; what it means is stated by the `While…` lemmas above |
| StatementHooks.WhileStatement | lib/hooks.js:160-184 | the hook leaves `WhileGaps` and records the closing brace's level for a block body |
| StatementHooks.ForFirstSemicolon | lib/hooks.js:196-203 | `semi_1` exists exactly when there is a test or an init; it is the nearest `;` before the test, or after the init |
| StatementHooks.ForSecondSemicolon | lib/hooks.js:196-203 | `semi_2` exists exactly when there is a test or an update; it is the nearest `;` after the test, or before the update |
| StatementHooks.SpacedAroundFound | lib/hooks.js:205-206 | a semicolon that was found is spaced on both sides; a missing one changes nothing |
| StatementHooks.SemicolonsSpaced | lib/hooks.js:205-206 | both semicolons meet the policy, except on a side they share, where the second wins |
| StatementHooks.ForHeadGaps | lib/hooks.js:188-206 | no line break is left from `for` up to `)` |
| StatementHooks.ForHeadUnbroken | lib/hooks.js:192 | no line break is left between `for` and `)` |
| StatementHooks.ForFirstSemicolonSpaced | lib/hooks.js:198-205 | the first semicolon found inside the header is spaced, except on a side it shares with the second |
| StatementHooks.ForSecondSemicolonSpaced | lib/hooks.js:199-206 | the second semicolon found inside the header is spaced on both sides |
| StatementHooks.ForOnlyFoundSemicolonsSpaced | lib/hooks.js:192-206 | inside the header, only the gaps around `(` and around the semicolons found change, besides the removed line breaks |
| StatementHooks.ForOpeningBraceBroken | lib/hooks.js:211-216 | a block body's opening brace ends up with its line-break policies |
| StatementHooks.ForClosingBraceBroken | lib/hooks.js:217-220 | the closing brace's line-break policies hold, and the gap after `)` is spaced |
| StatementHooks.ForGaps | lib/hooks.js:188-225 | the layout the hook leaves keeps one gap per token; what it means is stated by the `For…` lemmas above |
| StatementHooks.ForStatement | lib/hooks.js:188-225 | the hook leaves `ForGaps` and records the closing brace's level for a block body |
| StatementHooks.IfOpen | lib/hooks.js:234 | `(` is the nearest `(` at or before the test |
| StatementHooks.IfClose | lib/hooks.js:235 | `)` is the nearest `)` at or after the test's end |
| StatementHooks.IfHeadGaps | lib/hooks.js:231-241 | no line break between `if` and `(`, or between `)` and the consequent; both parentheses spaced on their outer side |
| StatementHooks.ElseKeyword | lib/hooks.js:246 | `else` is the nearest `else` at or before the alternate |
| StatementHooks.ElseStrip | lib/hooks.js:247-250 | the strip starts at the token before `else` exactly when that token is the punctuator `}`, and at `else` otherwise |
| StatementHooks.ElseStripStart | lib/hooks.js:247-251 | the same choice, stated on the linked stream through `findPrevNonEmpty` |
| StatementHooks.ElseClosingBrace | lib/hooks.js:269-276 | with a line break asked for before the closing brace, both of its line-break policies hold; otherwise both of its spacing policies hold; no other gap changes |
| StatementHooks.ElseBlockIndent | lib/hooks.js:273-280 | `else` and the opening brace are indented when they start a line, and the closing brace too when its rule asks for a line break; nothing else changes |
| StatementHooks.ElseBareSpaced | lib/hooks.js:282-285 | an `else` without braces is followed by exactly one space |
| StatementHooks.ElseIfBroken | lib/hooks.js:253-262 | `else if`: one space before the nested `if`, and the line-break policies of both nested braces, of `else` and of the clause's end |
| StatementHooks.ElseBlockBroken | lib/hooks.js:263-280 | a block `else` meets the line-break policies of `else`, of both braces and of its end; the closing brace is broken or spaced as its rule decides |
| StatementHooks.ElseBlockGapsBroken | lib/hooks.js:265-278 | the same, for any layout the clause starts from |
| StatementHooks.ElseGaps | lib/hooks.js:244-286 | the layout the `else` clause leaves keeps one gap per token; what it means is stated by `ElseBareSpaced`, `ElseIfBroken` and `ElseBlockBroken` |
| StatementHooks.ConsequentGaps | lib/hooks.js:289-302 | the consequent's braces change only the gaps on either side of `{` and of `}` |
| StatementHooks.ConsequentOpeningBraceBroken | lib/hooks.js:292-293 | the consequent's opening brace keeps both of its line-break policies |
| StatementHooks.ConsequentClosingBraceBroken | lib/hooks.js:294-301 | the closing brace gets its line-break policy after it only without an alternate; with one, the line-break count after it is unchanged; both sides are spaced |
| StatementHooks.ConsequentIndent | lib/hooks.js:299-300 | both consequent braces are indented exactly when they start a line; no other entry changes |
| StatementHooks.IfConsequentBraces | lib/hooks.js:289-298 | in the layout the whole hook leaves, the consequent's braces meet their line-break policies, after the closing one only without an alternate |
| StatementHooks.IfHead | lib/hooks.js:231-241 | the head's edits leave `IfHeadGaps` |
| StatementHooks.ElseIfClause | lib/hooks.js:253-262 | the `else if` edits, with the nested consequent's indentation decided right after its line break |
| StatementHooks.CloseElseBlock | lib/hooks.js:269-276 | the closing brace's two branches, on its line-break need |
| StatementHooks.ElseBlockClose | lib/hooks.js:265-276 | a block `else` up to its closing brace leaves `ElseBlockClosed` |
| StatementHooks.ElseBlockClause | lib/hooks.js:263-280 | a block `else` leaves `ElseBlockGaps` and `ElseBlockIndent` |
| StatementHooks.StripBeforeElse | lib/hooks.js:246-251 | returns the `else` keyword and empties the gaps from the strip start up to the alternate |
| StatementHooks.ElseClause | lib/hooks.js:244-286 | the `else` clause leaves `ElseGaps` and `ElseIndent`, by the alternate's type |
| StatementHooks.BreakConsequent | lib/hooks.js:290-298 | the layout before `}` is removed, then the opening brace's policies, then the closing brace's line breaks |
| StatementHooks.BreakConsequentClose | lib/hooks.js:294-298 | `aroundIfNeeded` without an alternate, `beforeIfNeeded` with one |
| StatementHooks.IfConsequent | lib/hooks.js:289-302 | the consequent's edits leave `ConsequentGaps` and `ConsequentIndent` |
| StatementHooks.IfGaps | lib/hooks.js:229-304 | the layout the hook leaves keeps one gap per token; what it means is stated by `IfConsequentBraces` and the three `IfElse…` lemmas |
| StatementHooks.ConsequentKept | lib/hooks.js:294-301 | with an alternate, the consequent's brace steps keep the line-break count right before `else` and every gap after it |
| StatementHooks.IfElseKept | lib/hooks.js:244-302 | in the layout the whole hook leaves, every gap after `else` is as the `else` clause left it, and so is the line-break count right before `else` |
| StatementHooks.IfElseBareSpaced | lib/hooks.js:282-285 | in the layout the whole hook leaves, an `else` without braces meets a one-space policy after it, and is followed by exactly one space when a token lies between `else` and the alternate's first token |
| StatementHooks.IfElseIfBroken | lib/hooks.js:253-262 | in the layout the whole hook leaves, `else if` has one space before the nested `if`, and the line-break policies of `else`, of both nested braces and of the clause's end hold |
| StatementHooks.IfElseBlockBroken | lib/hooks.js:263-280 | in the layout the whole hook leaves, a block `else` meets the line-break policies of `else`, of both braces and of its end; the closing brace is broken or spaced as its rule decides |
| StatementHooks.IfStatement | lib/hooks.js:229-304 | the hook leaves `IfGaps` and `IfIndent`; the final layout is stated by `IfConsequentBraces` and the three `IfElse…` lemmas |

## Findings

| source | as written | input that shows it | evidently intended | confidence | as-written member | corrected member |
|---|---|---|---|---|---|---|
| lib/hooks.js:107 | `removeAdjacentBefore(id.startToken, 'LineBreak')` removes only the last line break before the first declarator's name | `var`, two line breaks, `a`, with a style that keeps what it finds: one run leaves one line break, a second run removes it | no line break right before the first name, so that running the hook again changes nothing | medium, not executed | DeclarationHooks.VarGapsNotIdempotent | DeclarationHooks.FirstNameSettledIdempotent |
| lib/hooks.js:117-118 | `removeAdjacentBefore(init.startToken, 'LineBreak')` removes only the last line break before an initializer, and `_br.beforeIfNeeded(…, 'VariableValue')` keeps the rest under a keep policy | `a`, `=`, two line breaks, `1`, with a style that keeps what it finds: one round leaves one line break, a second round removes it | the whole run of line breaks before the value goes before its policy applies, so that running the hook again changes nothing | medium, not executed | DeclarationHooks.InitGapsNotIdempotent | DeclarationHooks.InitSettledIdempotent |
| lib/hooks.js:171-173 | unless the rule asks for line breaks, `removeAdjacentBefore(bodyStart, 'LineBreak')` removes only the last line break before a loop body's `{` (the same at :211-213 for `for`) | `)`, two line breaks, `{`, with a style that keeps what it finds: one run leaves one line break, a second run removes it | the whole run of line breaks before `{` goes, so that running the hook again leaves that gap alone | medium, not executed | StatementHooks.LoopOpeningNotIdempotent | StatementHooks.LoopOpeningSettledIdempotent |

The hooks in this model keep the code as written, one line break per run. The corrected rounds (`FirstNameSettled`, `InitSettled`, `LoopBlockSettled`) sit beside them, built on `Stream.DropTrailingOf` and `Stream.BrokenSettled`.

## Left out

- Parsing, the tree walk that calls the hooks, and printing the stream back to text are not part of this model. A node arrives as token anchors plus the indentation level computed for it.
- The configuration and rule lookup behind `whiteSpace`/`lineBreak` are not modelled. The result is the input `Layout.Style`; `_ws.needsAfterToken` is `Style.spaceAfterToken`.
- The bodies of `lib/util/*` are not part of this model. The utilities are given the behaviour their names and their uses here describe: an "if needed" applier changes a gap only when it misses the policy, spacing never crosses a line break, and setting line breaks keeps the whitespace.
- Layout text: a gap holds `WhiteSpace`/`LineBreak` tokens with blank text. Spacing writes one token of `n` spaces, and line breaks are written as `"\n"`.
- Indentation: `indent` records a level per token. How `lib/util/indent` turns a level into whitespace is not modelled.
- A `findNext`/`findPrev` that finds nothing is not modelled: the `Ready` predicates require the searched token to exist. The source would carry `undefined` on; in ForStatement, `if (semi_1)` would then skip the spacing.
- Monkey-patching of the hooks object is not modelled: the dispatch is fixed.
- ExpressionHooks.LogicalExpression: when the operator reached through raw `next` links is a layout token, as in `a || b`, the source calls `aroundIfNeeded` on that token. What the utility does there is not modelled; the model only promises that the gap holding it may change and stays layout.
- Stream.TokenStream.WsAroundCursor: on a layout token, the new content of its gap is left open; only the other gaps are stated.
- StatementHooks.StripBeforeElse: `findPrevNonEmpty(elseKeyword)` is taken as the previous token. `Tokens.PrevNonEmptyIsPreviousToken` proves that this holds whenever comments count as non-empty tokens.
- StatementHooks.CloseElseBlock: `findPrevNonEmpty(alt.endToken)` is taken as the previous token, on the same grounds.
- StatementHooks.BreakConsequent: `findPrevNonEmpty(endBody)` is taken as the previous token, on the same grounds.
- StatementHooks.ElseBlockClose: `_ws.beforeIfNeeded(elseKeyword)` names no rule; the model looks up `Rule.Unnamed`.
- StatementHooks.ElseIfBroken: stated only when `else`, the nested `if` and its braces are distinct tokens in that order, as in any parsed program.
- StatementHooks.ElseBlockBroken: stated only when `else` comes before the block's `{`.
- StatementHooks.IfConsequentBraces: with an alternate, it does not restate the line-break count after the closing brace. `ConsequentClosingBraceBroken` states it for the consequent step.
- StatementHooks.ForFirstSemicolonSpaced: stated for a semicolon found inside the header's parentheses; a later gap may be taken over by the body's braces.
- StatementHooks.ForSecondSemicolonSpaced: same restriction as the first semicolon.
- Idempotence is proved for the single-gap appliers (`SetSpaceIdempotent`, `SetBreaksIdempotent`) and for the BinaryExpression, AssignmentExpression, CallExpression and SequenceExpression hooks (`BinaryIdempotent`, `AssignmentIdempotent`, `CallIdempotent`, `SequenceIdempotent`). VariableDeclaration and the loop hooks under a keep policy are shown not idempotent (see Findings), and so is FunctionDeclaration (`FunctionNotIdempotent`). The other hooks are listed below.
- ExpressionHooks.CallIdempotent: stated only when no `,` directly follows the last argument (`NoTrailingComma`), which the ES5 grammar the parser follows guarantees. With a trailing comma, the ArgumentList after-policy can glue the comma to the last argument, and a second run then spaces it by ArgumentComma.
- ExpressionHooks.FunctionDeclaration: it is not idempotent, and the model keeps it as written (`FunctionNotIdempotent`). The brace spacing at lib/hooks.js:37-38 runs before the brace line breaks at :40-41 (`FunctionOpeningGap`). Spacing leaves alone a gap that holds a line break, and removing the break keeps the gap's whitespace. So with three spaces and a line break before `{`, one space and no line break asked for there, the first run leaves the three spaces and a second run narrows them to one (`Layout.SpacingBeforeBreaksUnsettled`). The bodies of the whitespace and line-break helpers are not part of this model; the counterexample follows from their contract as modelled by `Layout.SetSpace` and `Layout.SetBreaks`, so it is not listed under Findings. The signature's gaps lie before `)` and are not shared with the body; they settle as a list does (`ListSettled`).
- DeclarationHooks.ObjectExpression: idempotence is not stated. A second pass would have to find every property's gaps, and the closing brace's, already meeting both their line-break and their spacing policies after the delimiter scan removed line breaks again; this is not proved.
- ExpressionHooks.LogicalExpression: idempotence is not stated. Once the operator is spaced, a second run reaches a layout token through the raw `next` link, and what `aroundIfNeeded` does on a layout token is not modelled.
- StatementHooks.IfStatement: idempotence is not stated. The `else` clause empties the layout before `else` and sets it again by policy, and the consequent's closing brace then spaces the same gap; a second run is not proved to leave it alone.
- StatementHooks.WhileStatement: under a keep policy for the opening brace it is not idempotent (see Findings). Under an exact policy, idempotence is not stated: the brace's line breaks are appended after its whitespace and the same gap is spaced again for `)`, and a second run is not proved to change nothing.
- StatementHooks.ForStatement: the same as WhileStatement.
- StatementHooks.IfStatement: the final-layout lemmas for the `else` clause (`IfElseBareSpaced`, `IfElseIfBroken`, `IfElseBlockBroken`) assume the consequent ends before `else` (`ElseAfterConsequent`), as in any parsed `if`.
- ExpressionHooks.LogicalGaps: when no token follows the left operand, the source fails on `operator.value` (lib/hooks.js:137-138), and the model changes nothing instead. A parsed logical expression always has its operator, so this case does not arise.
- ExpressionHooks.ListSpaced: its own contract states only the gap after the last item; `ListLayout` states the first item, the glued commas and the frame.
- ExpressionHooks.CallGaps: its own contract states only the empty case and the last gap; `CallLayout` states the rest.
- ExpressionHooks.FunctionDeclaration: its contract ties the result to `FunctionGaps`; the layout is stated by `SignatureLayout` with `BracesAfterSignature`, and by the brace lemmas. `SignatureLayout` assumes the parser's order: name, then the parameters apart from one another, then the body (`SignatureOrdered`).
- DeclarationHooks.ObjectExpression: its contract ties the result to `ObjectGaps`; the per-property layout is stated by `ObjectProperties`, which assumes each property's `,` comes before the next property (`PropertiesOrdered`), as in any parsed object.
- ExpressionHooks.CallExpression: its requires asks for arguments in order with a token between two of them (`CallReady`), as a parser hands them over.
