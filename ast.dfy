/**
 * The syntax nodes the hooks receive, reduced to what the hooks read:
 * the token anchors of each node and of its children, the node type where
 * a hook branches on it, and the externally computed indentation levels.
 */
module Ast {
  import opened Tokens

  /** `startToken` and `endToken` of a node, as indices into the stream's tokens. */
  datatype Span = Span(start: nat, end: nat)

  predicate InStream(toks: seq<Token>, s: Span) {
    s.start <= s.end < |toks|
  }

  /** An object literal property: `key: value`. */
  datatype Property = Property(span: Span, key: Span, value: Span)

  /** One declarator of a `var` statement: `id` or `id = init`. */
  datatype Declarator = Declarator(id: Span, init: Option<Span>)

  /** The last token of a declarator. */
  function DeclaratorEnd(d: Declarator): nat {
    if d.init.Some? then d.init.value.end else d.id.end
  }

  /** A loop or `if` body; `isBlock` when its type is BlockStatement. */
  datatype Body = Body(span: Span, isBlock: bool)

  /** The `alternate` of an IfStatement, by its type. */
  datatype Alternate =
    | ElseIf(span: Span, consequent: Span)   // another IfStatement, with its own consequent
    | ElseBlock(span: Span)                  // a BlockStatement
    | ElseBare(span: Span)                   // any other statement, without braces

  datatype FunctionNode = FunctionNode(id: Span, params: seq<Span>, body: Span, indentLevel: nat)
  datatype BinaryNode = BinaryNode(span: Span, left: Span, operator: string)
  datatype CallNode = CallNode(arguments: seq<Span>)
  datatype ObjectNode = ObjectNode(span: Span, properties: seq<Property>, closingIndentLevel: nat)
  /** `parentIsFor`: the parent node's type is ForStatement. */
  datatype VarNode = VarNode(span: Span, declarations: seq<Declarator>, parentIsFor: bool, indentLevel: nat)
  datatype AssignmentNode = AssignmentNode(left: Span, right: Span)
  datatype LogicalNode = LogicalNode(left: Span)
  datatype SequenceNode = SequenceNode(expressions: seq<Span>)
  datatype WhileNode = WhileNode(span: Span, body: Body, indentLevel: nat)
  datatype ForNode = ForNode(span: Span, init: Option<Span>, test: Option<Span>, update: Option<Span>,
                             body: Body, indentLevel: nat)
  datatype IfNode = IfNode(span: Span, test: Span, consequent: Body, alternate: Option<Alternate>, indentLevel: nat)

  /**
   * A node handed to the dispatch, tagged by its type; every type without
   * a hook is `Unformatted`.
   */
  datatype Node =
    | FunctionDeclaration(fn: FunctionNode)
    | BinaryExpression(bin: BinaryNode)
    | CallExpression(call: CallNode)
    | ObjectExpression(obj: ObjectNode)
    | VariableDeclaration(decl: VarNode)
    | AssignmentExpression(assign: AssignmentNode)
    | LogicalExpression(logical: LogicalNode)
    | SequenceExpression(sequence: SequenceNode)
    | WhileStatement(whileStmt: WhileNode)
    | ForStatement(forStmt: ForNode)
    | IfStatement(ifStmt: IfNode)
    | Unformatted
}
