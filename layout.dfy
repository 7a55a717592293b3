/**
 * Style policies and what the whitespace and line-break appliers do to
 * one gap of layout tokens.
 *
 * How a rule name resolves to a policy is decided outside the hooks; a
 * `Style` value carries that resolution.  `SetSpace` and `SetBreaks` are
 * the "if needed" reconciliations: they change a gap only when it deviates
 * from the policy, and each touches a single layout kind.
 */
module Layout {
  import opened Tokens

  /** A resolved policy: keep what is there, or exactly `n` spaces or line breaks. */
  datatype Req = Keep | Exactly(n: nat)

  /**
   * The style rule a hook names when it asks for spacing or line breaks.
   * `Unnamed` is the rule of a call that names none.
   */
  datatype Rule =
    | FunctionName | ParameterList | ParameterComma | FunctionDeclarationOpeningBrace
    | FunctionDeclarationClosingBrace | BinaryExpressionOperator | ArgumentList | ArgumentComma
    | ObjectExpressionOpeningBrace | ObjectExpressionClosingBrace | Property | PropertyName
    | PropertyValue | VariableName | VariableValue | AssignmentOperator | LogicalExpressionOperator
    | CommaOperator | WhileStatementConditional | WhileStatementOpeningBrace
    | WhileStatementClosingBrace | ForStatementExpression | ForStatementSemicolon
    | ForStatementOpeningBrace | ForStatementClosingBrace | IfStatementConditional
    | IfStatementOpeningBrace | IfStatementClosingBrace | ElseIfStatement
    | ElseIfStatementOpeningBrace | ElseIfStatementClosingBrace | ElseStatement
    | ElseStatementOpeningBrace | ElseStatementClosingBrace
    | Unnamed

  /** Rule to policy, per side, for spaces and for line breaks. */
  datatype Style = Style(
    wsBefore: Rule -> Req,
    wsAfter: Rule -> Req,
    brBefore: Rule -> Req,
    brAfter: Rule -> Req,
    spaceAfterToken: Token -> bool)

  /** `lineBreak.needsBefore(rule)`: the policy asks for at least one line break. */
  predicate NeedsBreakBefore(style: Style, rule: Rule) {
    style.brBefore(rule).Exactly? && style.brBefore(rule).n > 0
  }

  function Spaces(n: nat): string {
    seq(n, _ => ' ')
  }

  function SpaceToken(n: nat): Token {
    Token(WhiteSpace, Spaces(n))
  }

  /** The layout a gap holds when it is exactly `n` spaces wide. */
  function Blanks(n: nat): seq<Token> {
    if n == 0 then [] else [SpaceToken(n)]
  }

  const BreakToken := Token(LineBreak, "\n")

  function Breaks(n: nat): (r: seq<Token>)
    ensures |r| == n && forall j | 0 <= j < n :: r[j] == BreakToken
  {
    seq(n, _ => BreakToken)
  }

  function CountBreaks(g: seq<Token>): nat {
    if g == [] then 0 else (if g[0].kind == LineBreak then 1 else 0) + CountBreaks(g[1..])
  }

  lemma {:induction false} CountBreaksZero(g: seq<Token>)
    ensures CountBreaks(g) == 0 <==> NoBreak(g)
  {
    if g != [] {
      CountBreaksZero(g[1..]);
    }
  }

  lemma {:induction false} CountBreaksAppend(a: seq<Token>, b: seq<Token>)
    ensures CountBreaks(a + b) == CountBreaks(a) + CountBreaks(b)
  {
    if a == [] {
      assert a + b == b;
    } else {
      assert (a + b)[1..] == a[1..] + b;
      CountBreaksAppend(a[1..], b);
    }
  }

  lemma {:induction false} CountBreaksOfBreaks(n: nat)
    ensures CountBreaks(Breaks(n)) == n
  {
    if n > 0 {
      assert Breaks(n)[1..] == Breaks(n - 1);
      CountBreaksOfBreaks(n - 1);
    }
  }

  /** Removing a kind that every token has leaves nothing. */
  lemma {:induction false} WithoutAll(g: seq<Token>, k: Kind)
    requires forall j | 0 <= j < |g| :: g[j].kind == k
    ensures Without(g, k) == []
  {
    if g != [] {
      WithoutAll(g[1..], k);
    }
  }

  /** A gap already meets a spacing policy (a line break in it makes spacing moot). */
  predicate SpacesMeet(g: seq<Token>, req: Req) {
    req.Keep? || !NoBreak(g) || g == Blanks(req.n)
  }

  /** A gap holds the number of line breaks the policy asks for. */
  predicate BreaksMeet(g: seq<Token>, req: Req) {
    req.Keep? || CountBreaks(g) == req.n
  }

  /**
   * `whiteSpace.beforeIfNeeded` / `afterIfNeeded` on one gap: where no line
   * break intervenes, the gap becomes exactly the requested spaces; the
   * line breaks of the gap are never touched.
   */
  function SetSpace(g: seq<Token>, req: Req): (r: seq<Token>)
    ensures AllLayout(g) ==> AllLayout(r)
    ensures SpacesMeet(r, req)
    ensures NoBreak(r) == NoBreak(g)
    ensures CountBreaks(r) == CountBreaks(g)
    ensures SpacesMeet(g, req) ==> r == g
  {
    if req.Keep? || !NoBreak(g) || g == Blanks(req.n) then g
    else
      var r := Blanks(req.n);
      CountBreaksZero(g);
      CountBreaksZero(r);
      r
  }

  /** Spacing replaces whitespace and nothing else. */
  lemma SetSpaceOnlyWhitespace(g: seq<Token>, req: Req)
    requires AllLayout(g)
    ensures Without(SetSpace(g, req), WhiteSpace) == Without(g, WhiteSpace)
  {
    if !SpacesMeet(g, req) {
      WithoutAll(g, WhiteSpace);
      WithoutAll(SetSpace(g, req), WhiteSpace);
    }
  }

  /**
   * `lineBreak.beforeIfNeeded` / `afterIfNeeded` on one gap: the gap ends up
   * with the requested number of line breaks, and its whitespace tokens are
   * kept as they were.
   */
  function SetBreaks(g: seq<Token>, req: Req): (r: seq<Token>)
    ensures AllLayout(g) ==> AllLayout(r)
    ensures BreaksMeet(r, req)
    ensures Without(r, LineBreak) == Without(g, LineBreak)
    ensures BreaksMeet(g, req) ==> r == g
  {
    if req.Keep? || CountBreaks(g) == req.n then g
    else
      BreaksAppended(g, req.n);
      Without(g, LineBreak) + Breaks(req.n)
  }

  /** The whitespace of a gap followed by `n` line breaks. */
  lemma BreaksAppended(g: seq<Token>, n: nat)
    ensures var r := Without(g, LineBreak) + Breaks(n);
            (AllLayout(g) ==> AllLayout(r)) && CountBreaks(r) == n && Without(r, LineBreak) == Without(g, LineBreak)
  {
    var kept := Without(g, LineBreak);
    CountBreaksAppend(kept, Breaks(n));
    CountBreaksZero(kept);
    CountBreaksOfBreaks(n);
    assert CountBreaks(kept + Breaks(n)) == n;
    WithoutAppend(kept, Breaks(n), LineBreak);
    WithoutAll(Breaks(n), LineBreak);
    assert Without(kept + Breaks(n), LineBreak) == Without(kept, LineBreak) + [];
  }

  /** Applying a spacing policy twice is applying it once. */
  lemma SetSpaceIdempotent(g: seq<Token>, req: Req)
    ensures SetSpace(SetSpace(g, req), req) == SetSpace(g, req)
  {
  }

  /** Applying a line-break policy twice is applying it once. */
  lemma SetBreaksIdempotent(g: seq<Token>, req: Req)
    ensures SetBreaks(SetBreaks(g, req), req) == SetBreaks(g, req)
  {
  }

  /**
   * A gap spaced by one policy and then by another is left as it is when
   * the two are applied again in the same order.
   */
  lemma SetSpaceTwiceSettled(g: seq<Token>, first: Req, second: Req)
    ensures var r := SetSpace(SetSpace(g, first), second);
            SetSpace(SetSpace(r, first), second) == r
  {
    var r := SetSpace(SetSpace(g, first), second);
    if second.Keep? {
      SetSpaceIdempotent(g, first);
    } else if NoBreak(g) {
      assert r == Blanks(second.n);
    }
  }

  /**
   * Spacing applied before a line-break policy that removes breaks does not
   * settle: three spaces and a line break, spaced to one and then given no
   * line break, keep the three spaces, and the same two steps change the
   * result again.
   */
  lemma SpacingBeforeBreaksUnsettled()
    ensures SetBreaks(SetSpace([SpaceToken(3), BreakToken], Exactly(1)), Exactly(0)) == [SpaceToken(3)]
    ensures SetBreaks(SetSpace([SpaceToken(3)], Exactly(1)), Exactly(0)) == [SpaceToken(1)]
  {
    var g := [SpaceToken(3), BreakToken];
    assert g[1].kind == LineBreak;
    assert SetSpace(g, Exactly(1)) == g;
    CountBreaksAppend([SpaceToken(3)], [BreakToken]);
    assert [SpaceToken(3)] + [BreakToken] == g;
    CountBreaksZero([SpaceToken(3)]);
    assert [BreakToken][1..] == [];
    assert CountBreaks([BreakToken]) == 1;
    assert Without([BreakToken], LineBreak) == [];
    assert g[1..] == [BreakToken];
    assert Without(g, LineBreak) == [SpaceToken(3)] + [];
    assert SetBreaks(g, Exactly(0)) == [SpaceToken(3)] + Breaks(0);
    assert SpaceToken(3) != SpaceToken(1) by { assert |Spaces(3)| != |Spaces(1)|; }
    assert SetSpace([SpaceToken(3)], Exactly(1)) == [SpaceToken(1)];
    CountBreaksZero([SpaceToken(1)]);
  }

  /** Spacing never disturbs a line-break policy that a gap already meets. */
  lemma SpacingKeepsBreaks(g: seq<Token>, ws: Req, br: Req)
    requires BreaksMeet(g, br)
    ensures BreaksMeet(SetSpace(g, ws), br)
  {
  }
}
