/**
 * The hooks object of lib/hooks.js: one hook per node type, looked up by
 * the node's type; a node of any other type is left as it is.
 */
module Hooks {
  import opened Tokens
  import opened Stream
  import opened Layout
  import opened Ast
  import ExpressionHooks
  import DeclarationHooks
  import StatementHooks

  /** What the parser guarantees about the tokens around a node of each hooked type. */
  predicate Ready(toks: seq<Token>, node: Node) {
    match node
    case FunctionDeclaration(n) => ExpressionHooks.FunctionReady(toks, n)
    case BinaryExpression(n) => ExpressionHooks.BinaryReady(toks, n)
    case CallExpression(n) => ExpressionHooks.CallReady(toks, n)
    case ObjectExpression(n) => DeclarationHooks.ObjectReady(toks, n)
    case VariableDeclaration(n) => DeclarationHooks.VarReady(toks, n)
    case AssignmentExpression(n) => ExpressionHooks.AssignmentReady(toks, n)
    case LogicalExpression(n) => n.left.end < |toks|
    case SequenceExpression(n) => ExpressionHooks.SequenceReady(toks, n)
    case WhileStatement(n) => StatementHooks.LoopReady(toks, n.span.start, n.body)
    case ForStatement(n) => StatementHooks.ForReady(toks, n)
    case IfStatement(n) => StatementHooks.IfReady(toks, n)
    case Unformatted => true
  }

  /**
   * The hook's layout is a function of the old one: every hook but a
   * LogicalExpression whose operator, reached through raw `next` links,
   * is a layout token.
   */
  predicate Determined(toks: seq<Token>, g: Gaps, node: Node)
    requires |g| == |toks| + 1 && Ready(toks, node)
  {
    node.LogicalExpression? ==> ExpressionHooks.LogicalOnToken(toks, g, node.logical)
  }

  /** The layout the hook of the node's type leaves. */
  function FormattedGaps(toks: seq<Token>, g: Gaps, style: Style, node: Node): (r: Gaps)
    requires |g| == |toks| + 1 && Ready(toks, node) && Determined(toks, g, node)
    ensures |r| == |g|
  {
    match node
    case FunctionDeclaration(n) => ExpressionHooks.FunctionGaps(toks, g, style, n)
    case BinaryExpression(n) => ExpressionHooks.BinaryGaps(toks, g, style, n)
    case CallExpression(n) => ExpressionHooks.CallGaps(toks, g, style, n)
    case ObjectExpression(n) => DeclarationHooks.ObjectGaps(toks, g, style, n)
    case VariableDeclaration(n) => DeclarationHooks.VarGaps(toks, g, style, n)
    case AssignmentExpression(n) => ExpressionHooks.AssignmentGaps(toks, g, style, n)
    case LogicalExpression(n) => ExpressionHooks.LogicalGaps(toks, g, style, n)
    case SequenceExpression(n) => ExpressionHooks.SequenceGaps(toks, g, style, n, |n.expressions|)
    case WhileStatement(n) => StatementHooks.WhileGaps(toks, g, style, n)
    case ForStatement(n) => StatementHooks.ForGaps(toks, g, style, n)
    case IfStatement(n) => StatementHooks.IfGaps(toks, g, style, n)
    case Unformatted => g
  }

  /**
   * Runs the hook of the node's type.  Whatever the hook, only layout
   * changes: the tokens that are not white space or line breaks, read in
   * stream order, are the ones that were there before.
   */
  method Format(ts: TokenStream, style: Style, node: Node)
    requires ts.Valid() && Ready(ts.tokens, node)
    modifies ts
    ensures ts.Valid()
    ensures Determined(ts.tokens, old(ts.gaps), node) ==> ts.gaps == FormattedGaps(ts.tokens, old(ts.gaps), style, node)
    ensures Significant(ts.Stream()) == old(Significant(ts.Stream())) == ts.tokens
    ensures node.Unformatted? ==> ts.indent == old(ts.indent)
  {
    ts.SignificantIsTokens();
    if node.WhileStatement? || node.ForStatement? || node.IfStatement? {
      FormatStatement(ts, style, node);
    } else if node.ObjectExpression? || node.VariableDeclaration? {
      FormatDeclaration(ts, style, node);
    } else if !node.Unformatted? {
      FormatExpression(ts, style, node);
    }
    ts.SignificantIsTokens();
  }

  method FormatExpression(ts: TokenStream, style: Style, node: Node)
    requires ts.Valid() && Ready(ts.tokens, node)
    requires !(node.WhileStatement? || node.ForStatement? || node.IfStatement? ||
               node.ObjectExpression? || node.VariableDeclaration? || node.Unformatted?)
    modifies ts
    ensures ts.Valid()
    ensures Determined(ts.tokens, old(ts.gaps), node) ==> ts.gaps == FormattedGaps(ts.tokens, old(ts.gaps), style, node)
  {
    match node
    case FunctionDeclaration(n) => ExpressionHooks.FunctionDeclaration(ts, style, n);
    case BinaryExpression(n) => ExpressionHooks.BinaryExpression(ts, style, n);
    case CallExpression(n) => ExpressionHooks.CallExpression(ts, style, n);
    case AssignmentExpression(n) => ExpressionHooks.AssignmentExpression(ts, style, n);
    case LogicalExpression(n) => ExpressionHooks.LogicalExpression(ts, style, n);
    case SequenceExpression(n) => ExpressionHooks.SequenceExpression(ts, style, n);
  }

  method FormatDeclaration(ts: TokenStream, style: Style, node: Node)
    requires ts.Valid() && Ready(ts.tokens, node) && (node.ObjectExpression? || node.VariableDeclaration?)
    modifies ts
    ensures ts.Valid()
    ensures ts.gaps == FormattedGaps(ts.tokens, old(ts.gaps), style, node)
  {
    match node
    case ObjectExpression(n) => DeclarationHooks.ObjectExpression(ts, style, n);
    case VariableDeclaration(n) => DeclarationHooks.VariableDeclaration(ts, style, n);
  }

  method FormatStatement(ts: TokenStream, style: Style, node: Node)
    requires ts.Valid() && Ready(ts.tokens, node) && (node.WhileStatement? || node.ForStatement? || node.IfStatement?)
    modifies ts
    ensures ts.Valid()
    ensures ts.gaps == FormattedGaps(ts.tokens, old(ts.gaps), style, node)
  {
    match node
    case WhileStatement(n) => StatementHooks.WhileStatement(ts, style, n);
    case ForStatement(n) => StatementHooks.ForStatement(ts, style, n);
    case IfStatement(n) => StatementHooks.IfStatement(ts, style, n);
  }
}
