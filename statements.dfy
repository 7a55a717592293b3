/**
 * The statement hooks: WhileStatement, ForStatement and IfStatement.  As
 * for the expression hooks, each is a method on the shared `TokenStream`
 * whose resulting layout is a pure function of the layout it found; the
 * properties are stated on those functions.
 */
module StatementHooks {
  import opened Tokens
  import opened Layout
  import opened Stream
  import opened Ast

  // ---------------------------------------------------------------------
  // Loop heads and bodies, shared by WhileStatement and ForStatement

  /**
   * What a loop hook needs of the stream: a `(` somewhere after the
   * keyword, a `)` between the keyword and the body, and the body's
   * anchors, distinct braces for a block.
   */
  predicate LoopReady(toks: seq<Token>, start: nat, body: Body) {
    body.span.start <= body.span.end < |toks| &&
    (body.isBlock ==> body.span.start < body.span.end) &&
    (exists k | start < k < |toks| :: toks[k].value == "(") &&
    (exists k | start < k < body.span.start :: toks[k].value == ")")
  }

  /** `findNext(startToken.next, '(')`: the first `(` after the keyword. */
  function LoopOpen(toks: seq<Token>, start: nat, body: Body): (r: nat)
    requires LoopReady(toks, start, body)
    ensures start < r < |toks| && toks[r].value == "("
    ensures forall k | start < k < r :: toks[k].value != "("
  {
    FindNext(toks, start + 1, "(")
  }

  /** `findPrev(body.startToken.prev, ')')`: the last `)` before the body. */
  function LoopClose(toks: seq<Token>, start: nat, body: Body): (r: nat)
    requires LoopReady(toks, start, body)
    ensures start < r < body.span.start && toks[r].value == ")"
    ensures forall k | r < k < body.span.start :: toks[k].value != ")"
  {
    FindPrev(toks, body.span.start - 1, ")")
  }

  /** The raw `next` of `tokens[i]` exists and its value is not `;`. */
  predicate NextIsNotSemicolon(toks: seq<Token>, g: Gaps, i: nat)
    requires |g| == |toks| + 1 && i < |toks|
  {
    var nx := Next(toks, g, At(i));
    nx.Some? && ValueAt(toks, g, nx.value) != ";"
  }

  /** The head of a loop: no line break from the keyword up to `)`, and the `(` spaced. */
  function LoopHeadGaps(toks: seq<Token>, g: Gaps, style: Style, start: nat, body: Body, exprRule: Rule): (r: Gaps)
    requires |g| == |toks| + 1 && LoopReady(toks, start, body)
    ensures |r| == |g|
    ensures NoBreakBetween(r, start, LoopClose(toks, start, body))
  {
    var close := LoopClose(toks, start, body);
    var unbroken := RemovedBetween(g, start, close, LineBreak);
    RemovedBreaksBetween(g, start, close);
    SpacingKeepsNoBreakBetween(unbroken, LoopOpen(toks, start, body), style.wsBefore(exprRule), start, close);
    SpacedBefore(unbroken, LoopOpen(toks, start, body), style.wsBefore(exprRule))
  }

  /**
   * Line breaks, then spaces, on both sides of a brace, by the brace's
   * rule: both policies hold on both sides, and no other gap changes.
   */
  function BracedAround(g: Gaps, i: nat, style: Style, rule: Rule): (r: Gaps)
    requires i + 1 < |g|
    ensures |r| == |g|
    ensures BreaksMeet(r[i], style.brBefore(rule)) && BreaksMeet(r[i + 1], style.brAfter(rule))
    ensures SpacesMeet(r[i], style.wsBefore(rule)) && SpacesMeet(r[i + 1], style.wsAfter(rule))
    ensures forall j | 0 <= j < |g| && j != i && j != i + 1 :: r[j] == g[j]
  {
    var broken := BrokenAround(g, i, style.brBefore(rule), style.brAfter(rule));
    BrokenAroundMeets(g, i, style.brBefore(rule), style.brAfter(rule));
    SpacingKeepsBreaks(broken[i], style.wsBefore(rule), style.brBefore(rule));
    SpacingKeepsBreaks(broken[i + 1], style.wsAfter(rule), style.brAfter(rule));
    SpacedAround(broken, i, style.wsBefore(rule), style.wsAfter(rule))
  }

  /**
   * The opening brace of a loop body before its policies apply: it loses
   * the line break right before it unless its rule asks for one, and with
   * `trimAfterOpen` also the whitespace token right after it.
   */
  function OpeningTrimmed(g: Gaps, style: Style, open: nat, openRule: Rule, trimAfterOpen: bool): (r: Gaps)
    requires open + 1 < |g|
    ensures |r| == |g|
    ensures forall j | 0 <= j < |g| && j != open && j != open + 1 :: r[j] == g[j]
    ensures r[open] == if NeedsBreakBefore(style, openRule) then g[open] else DropLastOf(g[open], LineBreak)
  {
    var unbroken := if NeedsBreakBefore(style, openRule) then g
                    else g[open := DropLastOf(g[open], LineBreak)];
    if trimAfterOpen then unbroken[open + 1 := DropFirstOf(unbroken[open + 1], WhiteSpace)] else unbroken
  }

  /** The body braces of a loop, then the space after its `)`. */
  function LoopBlockGaps(g: Gaps, style: Style, body: Span, close: nat,
                         openRule: Rule, closeRule: Rule, exprRule: Rule, trimAfterOpen: bool): (r: Gaps)
    requires close < body.start < body.end && body.end + 1 < |g|
    ensures |r| == |g|
  {
    var trimmed := OpeningTrimmed(g, style, body.start, openRule, trimAfterOpen);
    var braced := BracedAround(BracedAround(trimmed, body.start, style, openRule), body.end, style, closeRule);
    SpacedAfter(braced, close, style.wsAfter(exprRule))
  }

  /**
   * The body of a loop: braces for a block; otherwise the space after `)`,
   * unless what follows `)` is the `;` of an empty body or nothing at all.
   * Gaps up to `)` are left as they were.
   */
  function LoopTailGaps(toks: seq<Token>, g: Gaps, style: Style, body: Body, close: nat,
                        openRule: Rule, closeRule: Rule, exprRule: Rule, trimAfterOpen: bool): (r: Gaps)
    requires |g| == |toks| + 1 && body.span.start <= body.span.end < |toks| && close < body.span.start
    requires body.isBlock ==> body.span.start < body.span.end
    ensures |r| == |g|
    ensures forall j | 0 <= j <= close :: r[j] == g[j]
  {
    if body.isBlock then LoopBlockGaps(g, style, body.span, close, openRule, closeRule, exprRule, trimAfterOpen)
    else if NextIsNotSemicolon(toks, g, close) then SpacedAfter(g, close, style.wsAfter(exprRule))
    else g
  }

  /** The opening brace of a block body ends up with its line-break policies. */
  lemma LoopOpeningBraceBroken(g: Gaps, style: Style, body: Span, close: nat,
                               openRule: Rule, closeRule: Rule, exprRule: Rule, trimAfterOpen: bool)
    requires close < body.start < body.end && body.end + 1 < |g|
    ensures var r := LoopBlockGaps(g, style, body, close, openRule, closeRule, exprRule, trimAfterOpen);
            BreaksMeet(r[body.start], style.brBefore(openRule)) &&
            (body.start + 1 < body.end ==> BreaksMeet(r[body.start + 1], style.brAfter(openRule)))
  {
    var trimmed := OpeningTrimmed(g, style, body.start, openRule, trimAfterOpen);
    var braced := BracedAround(BracedAround(trimmed, body.start, style, openRule), body.end, style, closeRule);
    if close + 1 == body.start {
      SpacingKeepsBreaks(braced[body.start], style.wsAfter(exprRule), style.brBefore(openRule));
    }
  }

  /**
   * The closing brace of a block body ends up with its line-break
   * policies, winning the gap inside `{}`; the `)` of the head is spaced
   * from what follows it.
   */
  lemma LoopClosingBraceBroken(g: Gaps, style: Style, body: Span, close: nat,
                               openRule: Rule, closeRule: Rule, exprRule: Rule, trimAfterOpen: bool)
    requires close < body.start < body.end && body.end + 1 < |g|
    ensures var r := LoopBlockGaps(g, style, body, close, openRule, closeRule, exprRule, trimAfterOpen);
            BreaksMeet(r[body.end], style.brBefore(closeRule)) &&
            BreaksMeet(r[body.end + 1], style.brAfter(closeRule)) &&
            SpacesMeet(r[close + 1], style.wsAfter(exprRule))
  {
  }

  /** The brace policies, for the tail of a loop whose body is a block. */
  lemma LoopTailBracesBroken(toks: seq<Token>, g: Gaps, style: Style, body: Body, close: nat,
                             openRule: Rule, closeRule: Rule, exprRule: Rule, trimAfterOpen: bool)
    requires |g| == |toks| + 1 && body.span.start < body.span.end < |toks| && close < body.span.start
    requires body.isBlock
    ensures var r := LoopTailGaps(toks, g, style, body, close, openRule, closeRule, exprRule, trimAfterOpen);
            var b := body.span;
            BreaksMeet(r[b.start], style.brBefore(openRule)) &&
            (b.start + 1 < b.end ==> BreaksMeet(r[b.start + 1], style.brAfter(openRule))) &&
            BreaksMeet(r[b.end], style.brBefore(closeRule)) &&
            BreaksMeet(r[b.end + 1], style.brAfter(closeRule)) &&
            SpacesMeet(r[close + 1], style.wsAfter(exprRule))
  {
    LoopOpeningBraceBroken(g, style, body.span, close, openRule, closeRule, exprRule, trimAfterOpen);
    LoopClosingBraceBroken(g, style, body.span, close, openRule, closeRule, exprRule, trimAfterOpen);
  }

  /**
   * When the opening brace's policy keeps line breaks as found, the brace
   * still loses the one line break right before it.
   */
  lemma LoopOpeningBraceUnbroken(g: Gaps, style: Style, body: Span, close: nat,
                                 openRule: Rule, closeRule: Rule, exprRule: Rule, trimAfterOpen: bool)
    requires close < body.start < body.end && body.end + 1 < |g|
    requires style.brBefore(openRule).Keep?
    ensures var r := LoopBlockGaps(g, style, body, close, openRule, closeRule, exprRule, trimAfterOpen);
            CountBreaks(r[body.start]) == CountBreaks(g[body.start]) - (if LastIsNotBreak(g[body.start]) then 0 else 1)
  {
    DropLastBreak(g[body.start]);
  }

  /**
   * Running a loop's block tail on its own layout can change it again: with
   * rules that keep what they find, `)`, two line breaks, `{` keeps one line
   * break after the first run and none after the second.
   */
  lemma LoopOpeningNotIdempotent()
    ensures var g: Gaps := [[], [BreakToken, BreakToken], [], []];
            var style := Style(_ => Keep, _ => Keep, _ => Keep, _ => Keep, _ => false);
            var once := LoopBlockGaps(g, style, Span(1, 2), 0, Rule.WhileStatementOpeningBrace,
                                      Rule.WhileStatementClosingBrace, Rule.WhileStatementConditional, false);
            once == [[], [BreakToken], [], []] &&
            LoopBlockGaps(once, style, Span(1, 2), 0, Rule.WhileStatementOpeningBrace,
                          Rule.WhileStatementClosingBrace, Rule.WhileStatementConditional, false) == [[], [], [], []]
  {
    var style := Style(_ => Keep, _ => Keep, _ => Keep, _ => Keep, _ => false);
    var g: Gaps := [[], [BreakToken, BreakToken], [], []];
    var once: Gaps := [[], [BreakToken], [], []];
    var twice: Gaps := [[], [], [], []];
    assert DropLastOf(g[1], LineBreak) == [BreakToken];
    assert OpeningTrimmed(g, style, 1, Rule.WhileStatementOpeningBrace, false) == once;
    KeepingTailChangesNothing(once, style);
    assert DropLastOf([BreakToken], LineBreak) == [];
    assert OpeningTrimmed(once, style, 1, Rule.WhileStatementOpeningBrace, false) == twice;
    KeepingTailChangesNothing(twice, style);
  }

  /** Under rules that keep what they find, the braces and the space after `)` change nothing. */
  lemma KeepingTailChangesNothing(t: Gaps, style: Style)
    requires |t| == 4 && style == Style(_ => Keep, _ => Keep, _ => Keep, _ => Keep, _ => false)
    ensures var braced := BracedAround(BracedAround(t, 1, style, Rule.WhileStatementOpeningBrace), 2, style,
                                       Rule.WhileStatementClosingBrace);
            SpacedAfter(braced, 0, style.wsAfter(Rule.WhileStatementConditional)) == t
  {
    assert BrokenAround(t, 1, Keep, Keep) == t;
    assert SpacedAround(t, 1, Keep, Keep) == t;
    assert BrokenAround(t, 2, Keep, Keep) == t;
    assert SpacedAround(t, 2, Keep, Keep) == t;
    assert SpacedAfter(t, 0, Keep) == t;
  }

  /**
   * `OpeningTrimmed` as evidently intended: unless its rule asks for line
   * breaks, the opening brace loses the whole run of line breaks right
   * before it.
   */
  function OpeningSettled(g: Gaps, style: Style, open: nat, openRule: Rule, trimAfterOpen: bool): (r: Gaps)
    requires open + 1 < |g|
    ensures |r| == |g|
    ensures forall j | 0 <= j < |g| && j != open && j != open + 1 :: r[j] == g[j]
    ensures !NeedsBreakBefore(style, openRule) ==> LastIsNotBreak(r[open])
  {
    var unbroken := if NeedsBreakBefore(style, openRule) then g
                    else g[open := DropTrailingOf(g[open], LineBreak)];
    if trimAfterOpen then unbroken[open + 1 := DropFirstOf(unbroken[open + 1], WhiteSpace)] else unbroken
  }

  /** `LoopBlockGaps` with the intended `OpeningSettled` in place of `OpeningTrimmed`. */
  function LoopBlockSettled(g: Gaps, style: Style, body: Span, close: nat,
                            openRule: Rule, closeRule: Rule, exprRule: Rule, trimAfterOpen: bool): (r: Gaps)
    requires close < body.start < body.end && body.end + 1 < |g|
    ensures |r| == |g|
  {
    var trimmed := OpeningSettled(g, style, body.start, openRule, trimAfterOpen);
    var braced := BracedAround(BracedAround(trimmed, body.start, style, openRule), body.end, style, closeRule);
    SpacedAfter(braced, close, style.wsAfter(exprRule))
  }

  /**
   * The gap before the opening brace in the intended tail: the line breaks
   * right before `{` go unless its rule asks for some, then the brace's
   * line-break and spacing policies apply, then the space after `)` when
   * `)` and `{` are adjacent.
   */
  lemma LoopBlockSettledOpening(g: Gaps, style: Style, body: Span, close: nat,
                                openRule: Rule, closeRule: Rule, exprRule: Rule, trimAfterOpen: bool)
    requires close < body.start < body.end && body.end + 1 < |g|
    ensures var x := g[body.start];
            var dropped := if NeedsBreakBefore(style, openRule) then x else DropTrailingOf(x, LineBreak);
            var glued := if close + 1 == body.start then style.wsAfter(exprRule) else Keep;
            LoopBlockSettled(g, style, body, close, openRule, closeRule, exprRule, trimAfterOpen)[body.start] ==
            SetSpace(SetSpace(SetBreaks(dropped, style.brBefore(openRule)), style.wsBefore(openRule)), glued)
  {
    var trimmed := OpeningSettled(g, style, body.start, openRule, trimAfterOpen);
    var braced := BracedAround(trimmed, body.start, style, openRule);
    assert braced[body.start] == SetSpace(SetBreaks(trimmed[body.start], style.brBefore(openRule)), style.wsBefore(openRule));
    assert BracedAround(braced, body.end, style, closeRule)[body.start] == braced[body.start];
  }

  /**
   * In the intended tail, a rule that keeps line breaks leaves none right
   * before `{`, and a second run leaves the gap before `{` as the first
   * left it, where `LoopBlockGaps` does not.
   */
  lemma LoopOpeningSettledIdempotent(g: Gaps, style: Style, body: Span, close: nat,
                                     openRule: Rule, closeRule: Rule, exprRule: Rule, trimAfterOpen: bool)
    requires close < body.start < body.end && body.end + 1 < |g|
    ensures var r := LoopBlockSettled(g, style, body, close, openRule, closeRule, exprRule, trimAfterOpen);
            (style.brBefore(openRule).Keep? ==> LastIsNotBreak(r[body.start])) &&
            LoopBlockSettled(r, style, body, close, openRule, closeRule, exprRule, trimAfterOpen)[body.start] == r[body.start]
  {
    var r := LoopBlockSettled(g, style, body, close, openRule, closeRule, exprRule, trimAfterOpen);
    var br, ws1 := style.brBefore(openRule), style.wsBefore(openRule);
    var ws2 := if close + 1 == body.start then style.wsAfter(exprRule) else Keep;
    var x := g[body.start];
    var y := SetBreaks(if NeedsBreakBefore(style, openRule) then x else DropTrailingOf(x, LineBreak), br);
    LoopBlockSettledOpening(g, style, body, close, openRule, closeRule, exprRule, trimAfterOpen);
    LoopBlockSettledOpening(r, style, body, close, openRule, closeRule, exprRule, trimAfterOpen);
    var h := r[body.start];
    assert h == SetSpace(SetSpace(y, ws1), ws2);
    if NeedsBreakBefore(style, openRule) {
      SpacingKeepsBreaks(y, ws1, br);
      SpacingKeepsBreaks(SetSpace(y, ws1), ws2, br);
    } else {
      BrokenSettledRestored(x, br, ws1, ws2);
      if br.Keep? {
        assert LastIsNotBreak(y);
        assert forall n: nat :: LastIsNotBreak(Blanks(n));
      }
    }
    SetSpaceTwiceSettled(y, ws1, ws2);
  }

  /** `removeInBetween` up to `)`, `(` spaced, then the body. */
  method LoopHead(ts: TokenStream, style: Style, start: nat, body: Body, exprRule: Rule) returns (close: nat)
    requires ts.Valid() && LoopReady(ts.tokens, start, body)
    modifies ts
    ensures ts.Valid() && ts.indent == old(ts.indent)
    ensures close == LoopClose(ts.tokens, start, body)
    ensures ts.gaps == LoopHeadGaps(ts.tokens, old(ts.gaps), style, start, body, exprRule)
  {
    var open := LoopOpen(ts.tokens, start, body);
    close := LoopClose(ts.tokens, start, body);
    ts.RemoveInBetween(start, close, LineBreak);
    ts.WsBeforeIfNeeded(style, open, exprRule);
  }

  /** `removeAdjacentBefore(open, 'LineBreak')` unless a break is needed, then optionally `removeAdjacentAfter(open, 'WhiteSpace')`. */
  method TrimOpening(ts: TokenStream, style: Style, open: nat, openRule: Rule, trimAfterOpen: bool)
    requires ts.Valid() && open < |ts.tokens|
    modifies ts
    ensures ts.Valid() && ts.indent == old(ts.indent)
    ensures ts.gaps == OpeningTrimmed(old(ts.gaps), style, open, openRule, trimAfterOpen)
  {
    if !NeedsBreakBefore(style, openRule) {
      ts.RemoveAdjacentBefore(open, LineBreak);
    }
    if trimAfterOpen {
      ts.RemoveAdjacentAfter(open, WhiteSpace);
    }
  }

  /** `lineBreak.aroundIfNeeded` then `whiteSpace.aroundIfNeeded` on one brace. */
  method BraceAround(ts: TokenStream, style: Style, i: nat, rule: Rule)
    requires ts.Valid() && i < |ts.tokens|
    modifies ts
    ensures ts.Valid() && ts.indent == old(ts.indent)
    ensures ts.gaps == BracedAround(old(ts.gaps), i, style, rule)
  {
    ts.BrAroundIfNeeded(style, i, rule);
    ts.WsAroundIfNeeded(style, i, rule);
  }

  method LoopTail(ts: TokenStream, style: Style, body: Body, close: nat, openRule: Rule, closeRule: Rule,
                  exprRule: Rule, trimAfterOpen: bool, level: nat)
    requires ts.Valid() && body.span.start <= body.span.end < |ts.tokens| && close < body.span.start
    requires body.isBlock ==> body.span.start < body.span.end
    modifies ts
    ensures ts.Valid()
    ensures ts.gaps == LoopTailGaps(ts.tokens, old(ts.gaps), style, body, close, openRule, closeRule, exprRule, trimAfterOpen)
    ensures ts.indent == if body.isBlock then old(ts.indent)[body.span.end := level] else old(ts.indent)
  {
    if body.isBlock {
      var bodyStart, bodyEnd := body.span.start, body.span.end;
      TrimOpening(ts, style, bodyStart, openRule, trimAfterOpen);
      BraceAround(ts, style, bodyStart, openRule);
      BraceAround(ts, style, bodyEnd, closeRule);
      ts.IndentBefore(bodyEnd, level);
      ts.WsAfterIfNeeded(style, close, exprRule);
    } else if NextIsNotSemicolon(ts.tokens, ts.gaps, close) {
      ts.WsAfterIfNeeded(style, close, exprRule);
    }
  }

  // ---------------------------------------------------------------------
  // WhileStatement

  /** The layout WhileStatement leaves: the head, then the body. */
  function WhileGaps(toks: seq<Token>, g: Gaps, style: Style, n: WhileNode): (r: Gaps)
    requires |g| == |toks| + 1 && LoopReady(toks, n.span.start, n.body)
    ensures |r| == |g|
  {
    LoopTailGaps(toks, LoopHeadGaps(toks, g, style, n.span.start, n.body, Rule.WhileStatementConditional), style,
                 n.body, LoopClose(toks, n.span.start, n.body),
                 Rule.WhileStatementOpeningBrace, Rule.WhileStatementClosingBrace, Rule.WhileStatementConditional, false)
  }

  /** No line break is left between `while` and the `)` of its condition. */
  lemma WhileHeadUnbroken(toks: seq<Token>, g: Gaps, style: Style, n: WhileNode)
    requires |g| == |toks| + 1 && LoopReady(toks, n.span.start, n.body)
    ensures NoBreakBetween(WhileGaps(toks, g, style, n), n.span.start, LoopClose(toks, n.span.start, n.body))
  {
  }

  /**
   * The `(` of the condition is spaced by its policy, and, unless the body
   * is the bare `;` of an empty statement, so is the gap after `)`.
   */
  lemma WhileConditionSpaced(toks: seq<Token>, g: Gaps, style: Style, n: WhileNode)
    requires |g| == |toks| + 1 && LoopReady(toks, n.span.start, n.body)
    ensures var r := WhileGaps(toks, g, style, n);
            var open := LoopOpen(toks, n.span.start, n.body);
            var close := LoopClose(toks, n.span.start, n.body);
            var head := LoopHeadGaps(toks, g, style, n.span.start, n.body, Rule.WhileStatementConditional);
            (open <= close ==> SpacesMeet(r[open], style.wsBefore(Rule.WhileStatementConditional))) &&
            (n.body.isBlock || NextIsNotSemicolon(toks, head, close) ==>
               SpacesMeet(r[close + 1], style.wsAfter(Rule.WhileStatementConditional))) &&
            (!n.body.isBlock && !NextIsNotSemicolon(toks, head, close) ==> r == head)
  {
    var close := LoopClose(toks, n.span.start, n.body);
    var head := LoopHeadGaps(toks, g, style, n.span.start, n.body, Rule.WhileStatementConditional);
    if n.body.isBlock {
      LoopTailBracesBroken(toks, head, style, n.body, close, Rule.WhileStatementOpeningBrace,
                       Rule.WhileStatementClosingBrace, Rule.WhileStatementConditional, false);
    }
  }

  /** A block body's opening brace ends up with its line-break policies. */
  lemma WhileOpeningBraceBroken(toks: seq<Token>, g: Gaps, style: Style, n: WhileNode)
    requires |g| == |toks| + 1 && LoopReady(toks, n.span.start, n.body) && n.body.isBlock
    ensures var r := WhileGaps(toks, g, style, n);
            var b := n.body.span;
            BreaksMeet(r[b.start], style.brBefore(Rule.WhileStatementOpeningBrace)) &&
            (b.start + 1 < b.end ==> BreaksMeet(r[b.start + 1], style.brAfter(Rule.WhileStatementOpeningBrace)))
  {
    LoopTailBracesBroken(toks, LoopHeadGaps(toks, g, style, n.span.start, n.body, Rule.WhileStatementConditional), style,
                         n.body, LoopClose(toks, n.span.start, n.body), Rule.WhileStatementOpeningBrace,
                         Rule.WhileStatementClosingBrace, Rule.WhileStatementConditional, false);
  }

  /** A block body's closing brace ends up with its line-break policies. */
  lemma WhileClosingBraceBroken(toks: seq<Token>, g: Gaps, style: Style, n: WhileNode)
    requires |g| == |toks| + 1 && LoopReady(toks, n.span.start, n.body) && n.body.isBlock
    ensures var r := WhileGaps(toks, g, style, n);
            BreaksMeet(r[n.body.span.end], style.brBefore(Rule.WhileStatementClosingBrace)) &&
            BreaksMeet(r[n.body.span.end + 1], style.brAfter(Rule.WhileStatementClosingBrace))
  {
    LoopTailBracesBroken(toks, LoopHeadGaps(toks, g, style, n.span.start, n.body, Rule.WhileStatementConditional), style,
                         n.body, LoopClose(toks, n.span.start, n.body), Rule.WhileStatementOpeningBrace,
                         Rule.WhileStatementClosingBrace, Rule.WhileStatementConditional, false);
  }

  method WhileStatement(ts: TokenStream, style: Style, n: WhileNode)
    requires ts.Valid() && LoopReady(ts.tokens, n.span.start, n.body)
    modifies ts
    ensures ts.Valid()
    ensures ts.gaps == WhileGaps(ts.tokens, old(ts.gaps), style, n)
    ensures ts.indent == if n.body.isBlock then old(ts.indent)[n.body.span.end := n.indentLevel] else old(ts.indent)
  {
    var close := LoopHead(ts, style, n.span.start, n.body, Rule.WhileStatementConditional);
    LoopTail(ts, style, n.body, close, Rule.WhileStatementOpeningBrace, Rule.WhileStatementClosingBrace,
             Rule.WhileStatementConditional, false, n.indentLevel);
  }

  // ---------------------------------------------------------------------
  // ForStatement

  /**
   * What ForStatement needs besides the loop head: with a test, a `;` at
   * or before its first token and one at or after its last; without one,
   * a `;` at or after the end of `init` and one at or before the start of
   * `update`, each when that part is present.
   */
  predicate ForReady(toks: seq<Token>, n: ForNode) {
    LoopReady(toks, n.span.start, n.body) &&
    (n.test.Some? ==>
       InStream(toks, n.test.value) &&
       (exists k | 0 <= k <= n.test.value.start :: toks[k].value == ";") &&
       (exists k | n.test.value.end <= k < |toks| :: toks[k].value == ";")) &&
    (n.test.None? && n.init.Some? ==> exists k | n.init.value.end <= k < |toks| :: toks[k].value == ";") &&
    (n.test.None? && n.update.Some? ==>
       n.update.value.start < |toks| && exists k | 0 <= k <= n.update.value.start :: toks[k].value == ";")
  }

  /** `semi_1`: the nearest `;` before the test, or, with no test, the nearest after `init`. */
  function ForFirstSemicolon(toks: seq<Token>, n: ForNode): (r: Option<nat>)
    requires ForReady(toks, n)
    ensures r.Some? <==> n.test.Some? || n.init.Some?
    ensures r.Some? ==> r.value < |toks| && toks[r.value].value == ";"
    ensures n.test.Some? ==> r.Some? && r.value <= n.test.value.start &&
                             forall k | r.value < k <= n.test.value.start :: toks[k].value != ";"
    ensures n.test.None? && n.init.Some? ==> r.Some? && n.init.value.end <= r.value &&
                                             forall k | n.init.value.end <= k < r.value :: toks[k].value != ";"
  {
    if n.test.Some? then Some(FindPrev(toks, n.test.value.start, ";"))
    else if n.init.Some? then Some(FindNext(toks, n.init.value.end, ";"))
    else None
  }

  /** `semi_2`: the nearest `;` after the test, or, with no test, the nearest before `update`. */
  function ForSecondSemicolon(toks: seq<Token>, n: ForNode): (r: Option<nat>)
    requires ForReady(toks, n)
    ensures r.Some? <==> n.test.Some? || n.update.Some?
    ensures r.Some? ==> r.value < |toks| && toks[r.value].value == ";"
    ensures n.test.Some? ==> r.Some? && n.test.value.end <= r.value &&
                             forall k | n.test.value.end <= k < r.value :: toks[k].value != ";"
    ensures n.test.None? && n.update.Some? ==> r.Some? && r.value <= n.update.value.start &&
                                               forall k | r.value < k <= n.update.value.start :: toks[k].value != ";"
  {
    if n.test.Some? then Some(FindNext(toks, n.test.value.end, ";"))
    else if n.update.Some? then Some(FindPrev(toks, n.update.value.start, ";"))
    else None
  }

  /** `aroundIfNeeded` on a semicolon that may not have been found. */
  function SpacedAroundFound(g: Gaps, semi: Option<nat>, before: Req, after: Req): (r: Gaps)
    requires semi.Some? ==> semi.value + 1 < |g|
    ensures |r| == |g|
    ensures semi.None? ==> r == g
    ensures semi.Some? ==> SpacesMeet(r[semi.value], before) && SpacesMeet(r[semi.value + 1], after)
    ensures forall j | 0 <= j < |g| && (semi.Some? ==> j != semi.value && j != semi.value + 1) :: r[j] == g[j]
  {
    if semi.Some? then
      SpacedAroundMeets(g, semi.value, before, after);
      SpacedAround(g, semi.value, before, after)
    else g
  }

  /** Spacing a semicolon never brings a line break into a range. */
  lemma SpacedAroundFoundKeepsNoBreakBetween(g: Gaps, semi: Option<nat>, before: Req, after: Req, a: nat, b: nat)
    requires semi.Some? ==> semi.value + 1 < |g|
    requires NoBreakBetween(g, a, b)
    ensures NoBreakBetween(SpacedAroundFound(g, semi, before, after), a, b)
  {
    if semi.Some? {
      SpacingKeepsNoBreakBetween(g, semi.value, before, a, b);
      SpacingKeepsNoBreakBetween(SpacedBefore(g, semi.value, before), semi.value + 1, after, a, b);
    }
  }

  /**
   * Both semicolons spaced, the second after the first: each meets the
   * policy, except on a side it shares with the other one, where the
   * second application wins.
   */
  lemma SemicolonsSpaced(g: Gaps, s1: Option<nat>, s2: Option<nat>, before: Req, after: Req)
    requires s1.Some? ==> s1.value + 1 < |g|
    requires s2.Some? ==> s2.value + 1 < |g|
    ensures var r := SpacedAroundFound(SpacedAroundFound(g, s1, before, after), s2, before, after);
            (s2.Some? ==> SpacesMeet(r[s2.value], before) && SpacesMeet(r[s2.value + 1], after)) &&
            (s1.Some? && (s2.None? || s2.value + 1 != s1.value) ==> SpacesMeet(r[s1.value], before)) &&
            (s1.Some? && (s2.None? || s2.value != s1.value + 1) ==> SpacesMeet(r[s1.value + 1], after))
  {
  }

  /** The head with its line breaks removed and `(` spaced, then the semicolons found spaced. */
  function ForHeadGaps(toks: seq<Token>, g: Gaps, style: Style, n: ForNode): (r: Gaps)
    requires |g| == |toks| + 1 && ForReady(toks, n)
    ensures |r| == |g|
    ensures NoBreakBetween(r, n.span.start, LoopClose(toks, n.span.start, n.body))
  {
    var head := LoopHeadGaps(toks, g, style, n.span.start, n.body, Rule.ForStatementExpression);
    var before, after := style.wsBefore(Rule.ForStatementSemicolon), style.wsAfter(Rule.ForStatementSemicolon);
    var close := LoopClose(toks, n.span.start, n.body);
    var mid := SpacedAroundFound(head, ForFirstSemicolon(toks, n), before, after);
    SpacedAroundFoundKeepsNoBreakBetween(head, ForFirstSemicolon(toks, n), before, after, n.span.start, close);
    SpacedAroundFoundKeepsNoBreakBetween(mid, ForSecondSemicolon(toks, n), before, after, n.span.start, close);
    SpacedAroundFound(mid, ForSecondSemicolon(toks, n), before, after)
  }

  /** The layout ForStatement leaves: the head and its semicolons, then the body. */
  function ForGaps(toks: seq<Token>, g: Gaps, style: Style, n: ForNode): (r: Gaps)
    requires |g| == |toks| + 1 && ForReady(toks, n)
    ensures |r| == |g|
  {
    LoopTailGaps(toks, ForHeadGaps(toks, g, style, n), style, n.body, LoopClose(toks, n.span.start, n.body),
                 Rule.ForStatementOpeningBrace, Rule.ForStatementClosingBrace, Rule.ForStatementExpression, true)
  }

  /** No line break is left between `for` and the `)` closing its header. */
  lemma ForHeadUnbroken(toks: seq<Token>, g: Gaps, style: Style, n: ForNode)
    requires |g| == |toks| + 1 && ForReady(toks, n)
    ensures NoBreakBetween(ForGaps(toks, g, style, n), n.span.start, LoopClose(toks, n.span.start, n.body))
  {
  }

  /**
   * The second semicolon, when found inside the header's parentheses,
   * ends up spaced by the semicolon policy on both sides.
   */
  lemma ForSecondSemicolonSpaced(toks: seq<Token>, g: Gaps, style: Style, n: ForNode)
    requires |g| == |toks| + 1 && ForReady(toks, n)
    ensures var r := ForGaps(toks, g, style, n);
            var s2 := ForSecondSemicolon(toks, n);
            s2.Some? && s2.value < LoopClose(toks, n.span.start, n.body) ==>
              SpacesMeet(r[s2.value], style.wsBefore(Rule.ForStatementSemicolon)) &&
              SpacesMeet(r[s2.value + 1], style.wsAfter(Rule.ForStatementSemicolon))
  {
    var head := LoopHeadGaps(toks, g, style, n.span.start, n.body, Rule.ForStatementExpression);
    SemicolonsSpaced(head, ForFirstSemicolon(toks, n), ForSecondSemicolon(toks, n),
                     style.wsBefore(Rule.ForStatementSemicolon), style.wsAfter(Rule.ForStatementSemicolon));
  }

  /**
   * The first semicolon, when found inside the header's parentheses, ends
   * up spaced by the semicolon policy, except on a side it shares with
   * the second one (`;;`), which the second application decides.
   */
  lemma ForFirstSemicolonSpaced(toks: seq<Token>, g: Gaps, style: Style, n: ForNode)
    requires |g| == |toks| + 1 && ForReady(toks, n)
    ensures var r := ForGaps(toks, g, style, n);
            var s1, s2 := ForFirstSemicolon(toks, n), ForSecondSemicolon(toks, n);
            s1.Some? && s1.value < LoopClose(toks, n.span.start, n.body) ==>
              ((s2.None? || s2.value + 1 != s1.value) ==> SpacesMeet(r[s1.value], style.wsBefore(Rule.ForStatementSemicolon))) &&
              ((s2.None? || s2.value != s1.value + 1) ==> SpacesMeet(r[s1.value + 1], style.wsAfter(Rule.ForStatementSemicolon)))
  {
    var s1, s2 := ForFirstSemicolon(toks, n), ForSecondSemicolon(toks, n);
    var before, after := style.wsBefore(Rule.ForStatementSemicolon), style.wsAfter(Rule.ForStatementSemicolon);
    var head := LoopHeadGaps(toks, g, style, n.span.start, n.body, Rule.ForStatementExpression);
    SemicolonsSpaced(head, s1, s2, before, after);
    var spaced := ForHeadGaps(toks, g, style, n);
    assert spaced == SpacedAroundFound(SpacedAroundFound(head, s1, before, after), s2, before, after);
    if s1.Some? && s1.value < LoopClose(toks, n.span.start, n.body) {
      assert ForGaps(toks, g, style, n)[s1.value] == spaced[s1.value];
      assert ForGaps(toks, g, style, n)[s1.value + 1] == spaced[s1.value + 1];
    }
  }

  /**
   * Within the header, besides the line breaks removed, only the gaps
   * around `(` and around the semicolons found change.
   */
  lemma ForOnlyFoundSemicolonsSpaced(toks: seq<Token>, g: Gaps, style: Style, n: ForNode, j: nat)
    requires |g| == |toks| + 1 && ForReady(toks, n)
    requires j <= LoopClose(toks, n.span.start, n.body) && j != LoopOpen(toks, n.span.start, n.body)
    requires var s1 := ForFirstSemicolon(toks, n); s1.Some? ==> j != s1.value && j != s1.value + 1
    requires var s2 := ForSecondSemicolon(toks, n); s2.Some? ==> j != s2.value && j != s2.value + 1
    ensures ForGaps(toks, g, style, n)[j] ==
            RemovedBetween(g, n.span.start, LoopClose(toks, n.span.start, n.body), LineBreak)[j]
  {
  }

  /** A block body's opening brace ends up with its line-break policies. */
  lemma ForOpeningBraceBroken(toks: seq<Token>, g: Gaps, style: Style, n: ForNode)
    requires |g| == |toks| + 1 && ForReady(toks, n) && n.body.isBlock
    ensures var r := ForGaps(toks, g, style, n);
            var b := n.body.span;
            BreaksMeet(r[b.start], style.brBefore(Rule.ForStatementOpeningBrace)) &&
            (b.start + 1 < b.end ==> BreaksMeet(r[b.start + 1], style.brAfter(Rule.ForStatementOpeningBrace)))
  {
    LoopTailBracesBroken(toks, ForHeadGaps(toks, g, style, n), style, n.body, LoopClose(toks, n.span.start, n.body),
                         Rule.ForStatementOpeningBrace, Rule.ForStatementClosingBrace, Rule.ForStatementExpression, true);
  }

  /**
   * A block body's closing brace ends up with its line-break policies, and
   * the `)` of the header is spaced from what follows it.
   */
  lemma ForClosingBraceBroken(toks: seq<Token>, g: Gaps, style: Style, n: ForNode)
    requires |g| == |toks| + 1 && ForReady(toks, n) && n.body.isBlock
    ensures var r := ForGaps(toks, g, style, n);
            BreaksMeet(r[n.body.span.end], style.brBefore(Rule.ForStatementClosingBrace)) &&
            BreaksMeet(r[n.body.span.end + 1], style.brAfter(Rule.ForStatementClosingBrace)) &&
            SpacesMeet(r[LoopClose(toks, n.span.start, n.body) + 1], style.wsAfter(Rule.ForStatementExpression))
  {
    LoopTailBracesBroken(toks, ForHeadGaps(toks, g, style, n), style, n.body, LoopClose(toks, n.span.start, n.body),
                         Rule.ForStatementOpeningBrace, Rule.ForStatementClosingBrace, Rule.ForStatementExpression, true);
  }

  method ForStatement(ts: TokenStream, style: Style, n: ForNode)
    requires ts.Valid() && ForReady(ts.tokens, n)
    modifies ts
    ensures ts.Valid()
    ensures ts.gaps == ForGaps(ts.tokens, old(ts.gaps), style, n)
    ensures ts.indent == if n.body.isBlock then old(ts.indent)[n.body.span.end := n.indentLevel] else old(ts.indent)
  {
    var close := LoopHead(ts, style, n.span.start, n.body, Rule.ForStatementExpression);
    var semi1, semi2 := ForFirstSemicolon(ts.tokens, n), ForSecondSemicolon(ts.tokens, n);
    if semi1.Some? {
      ts.WsAroundIfNeeded(style, semi1.value, Rule.ForStatementSemicolon);
    }
    if semi2.Some? {
      ts.WsAroundIfNeeded(style, semi2.value, Rule.ForStatementSemicolon);
    }
    LoopTail(ts, style, n.body, close, Rule.ForStatementOpeningBrace, Rule.ForStatementClosingBrace,
             Rule.ForStatementExpression, true, n.indentLevel);
  }

  // ---------------------------------------------------------------------
  // IfStatement

  /**
   * What an `else` clause needs: an `else` at or before the alternate's
   * first token, with some token before it, and distinct braces for a
   * block.
   */
  predicate AlternateReady(toks: seq<Token>, a: Alternate) {
    InStream(toks, a.span) &&
    (exists k | 0 < k <= a.span.start :: toks[k].value == "else") &&
    (match a
     case ElseIf(_, consequent) => InStream(toks, consequent)
     case ElseBlock(span) => span.start < span.end
     case ElseBare(_) => true)
  }

  /**
   * What IfStatement needs: a `(` between the keyword and the test, a `)`
   * between the test and the consequent, distinct braces for a block
   * consequent, and a ready alternate.
   */
  predicate IfReady(toks: seq<Token>, n: IfNode) {
    InStream(toks, n.test) && InStream(toks, n.consequent.span) &&
    (n.consequent.isBlock ==> n.consequent.span.start < n.consequent.span.end) &&
    (exists k | n.span.start <= k <= n.test.start :: toks[k].value == "(") &&
    (exists k | n.test.end <= k <= n.consequent.span.start :: toks[k].value == ")") &&
    (n.alternate.Some? ==> AlternateReady(toks, n.alternate.value))
  }

  /** `findPrev(test.startToken, '(')`. */
  function IfOpen(toks: seq<Token>, n: IfNode): (r: nat)
    requires IfReady(toks, n)
    ensures n.span.start <= r <= n.test.start && toks[r].value == "("
    ensures forall k | r < k <= n.test.start :: toks[k].value != "("
  {
    FindPrev(toks, n.test.start, "(")
  }

  /** `findNext(test.endToken, ')')`. */
  function IfClose(toks: seq<Token>, n: IfNode): (r: nat)
    requires IfReady(toks, n)
    ensures n.test.end <= r <= n.consequent.span.start && toks[r].value == ")"
    ensures forall k | n.test.end <= k < r :: toks[k].value != ")"
  {
    FindNext(toks, n.test.end, ")")
  }

  /**
   * The head of an `if`: all layout removed between the keyword and `(`
   * and between `)` and the consequent, then both parentheses spaced on
   * their outer side.
   */
  function IfHeadGaps(toks: seq<Token>, g: Gaps, style: Style, n: IfNode): (r: Gaps)
    requires |g| == |toks| + 1 && IfReady(toks, n)
    ensures |r| == |g|
    ensures var open, close := IfOpen(toks, n), IfClose(toks, n);
            NoBreakBetween(r, n.span.start, open) && NoBreakBetween(r, close, n.consequent.span.start) &&
            SpacesMeet(r[open], style.wsBefore(Rule.IfStatementConditional)) &&
            SpacesMeet(r[close + 1], style.wsAfter(Rule.IfStatementConditional))
  {
    var open, close := IfOpen(toks, n), IfClose(toks, n);
    var cleared := Cleared(Cleared(g, n.span.start, open), close, n.consequent.span.start);
    var spaced := SpacedBefore(cleared, open, style.wsBefore(Rule.IfStatementConditional));
    SpacingKeepsNoBreakBetween(cleared, open, style.wsBefore(Rule.IfStatementConditional), n.span.start, open);
    SpacingKeepsNoBreakBetween(cleared, open, style.wsBefore(Rule.IfStatementConditional), close, n.consequent.span.start);
    SpacingKeepsNoBreakBetween(spaced, close + 1, style.wsAfter(Rule.IfStatementConditional), n.span.start, open);
    SpacingKeepsNoBreakBetween(spaced, close + 1, style.wsAfter(Rule.IfStatementConditional), close, n.consequent.span.start);
    SpacedAfter(spaced, close, style.wsAfter(Rule.IfStatementConditional))
  }

  /** `findPrev(alternate.startToken, 'else')`. */
  function ElseKeyword(toks: seq<Token>, a: Alternate): (r: nat)
    requires AlternateReady(toks, a)
    ensures 0 < r <= a.span.start && toks[r].value == "else"
    ensures forall k | r < k <= a.span.start :: toks[k].value != "else"
  {
    FindPrev(toks, a.span.start, "else")
  }

  /**
   * Where the layout removal before an alternate starts: the token before
   * `else` when it is the `}` punctuator closing the consequent, otherwise
   * `else` itself.
   */
  function ElseStrip(toks: seq<Token>, kw: nat): (r: nat)
    requires 0 < kw < |toks|
    ensures r == kw - 1 || r == kw
    ensures r == kw - 1 <==> toks[kw - 1].kind == Punctuator && toks[kw - 1].value == "}"
  {
    if toks[kw - 1].kind == Punctuator && toks[kw - 1].value == "}" then kw - 1 else kw
  }

  /**
   * `findPrevNonEmpty(else)` is the token before `else`: in the linked
   * stream only layout lies between the two.  So the removal starts at the
   * nearest non-layout token before `else` exactly when that token is `}`.
   */
  lemma ElseStripStart(toks: seq<Token>, g: Gaps, a: Alternate)
    requires |g| == |toks| + 1 && NoneLayout(toks) && forall j | 0 <= j < |g| :: AllLayout(g[j])
    requires AlternateReady(toks, a)
    ensures var kw := ElseKeyword(toks, a);
            var flat := Flatten(toks, g);
            var p, q := FlatIndex(toks, g, At(kw - 1)), FlatIndex(toks, g, At(kw));
            p < q < |flat| && flat[q] == toks[kw] && !IsLayout(flat[p]) &&
            (forall m | p < m < q :: IsLayout(flat[m])) &&
            ElseStrip(toks, kw) == if flat[p].kind == Punctuator && flat[p].value == "}" then kw - 1 else kw
  {
    PrevNonEmptyIsPreviousToken(toks, g, ElseKeyword(toks, a));
  }

  /** `else if`: one space before the nested `if`, and the opening brace of its consequent broken. */
  function ElseIfOpening(g: Gaps, style: Style, start: nat, consequent: Span): (r: Gaps)
    requires start < |g| && consequent.start < |g|
    ensures |r| == |g|
  {
    BrokenBefore(SpacedBefore(g, start, Exactly(1)), consequent.start, style.brBefore(Rule.ElseIfStatementOpeningBrace))
  }

  /** The rest of `else if`: the closing brace of its consequent, and line breaks around the clause. */
  function ElseIfGaps(g: Gaps, style: Style, kw: nat, start: nat, consequent: Span): (r: Gaps)
    requires kw < |g| && start < |g| && consequent.start < |g| && consequent.end + 1 < |g|
    ensures |r| == |g|
  {
    var opening := ElseIfOpening(g, style, start, consequent);
    BrokenAfter(BrokenBefore(BrokenBefore(opening, consequent.end, style.brBefore(Rule.ElseIfStatementClosingBrace)),
                             kw, style.brBefore(Rule.ElseIfStatement)),
                consequent.end, style.brAfter(Rule.ElseIfStatement))
  }

  /**
   * The closing brace of a block `else`: its line breaks, after dropping
   * the whitespace right before it, when its rule asks for a line break
   * before it; its spacing otherwise.
   */
  function ElseClosingBrace(g: Gaps, style: Style, span: Span): (r: Gaps)
    requires 0 < span.end && span.end + 1 < |g|
    ensures |r| == |g|
    ensures forall j | 0 <= j < |g| && j != span.end && j != span.end + 1 :: r[j] == g[j]
    ensures NeedsBreakBefore(style, Rule.ElseStatementClosingBrace) ==>
              BreaksMeet(r[span.end], style.brBefore(Rule.ElseStatementClosingBrace)) &&
              BreaksMeet(r[span.end + 1], style.brAfter(Rule.ElseStatementClosingBrace))
    ensures !NeedsBreakBefore(style, Rule.ElseStatementClosingBrace) ==>
              SpacesMeet(r[span.end], style.wsBefore(Rule.ElseStatementClosingBrace)) &&
              SpacesMeet(r[span.end + 1], style.wsAfter(Rule.ElseStatementClosingBrace))
  {
    if NeedsBreakBefore(style, Rule.ElseStatementClosingBrace) then
      BrokenAround(RemovedBetween(g, span.end - 1, span.end, WhiteSpace), span.end,
                   style.brBefore(Rule.ElseStatementClosingBrace), style.brAfter(Rule.ElseStatementClosingBrace))
    else
      SpacedAround(g, span.end, style.wsBefore(Rule.ElseStatementClosingBrace), style.wsAfter(Rule.ElseStatementClosingBrace))
  }

  /** A block `else` up to its closing brace: `else` spaced, the opening brace's policies, the closing brace. */
  function ElseBlockClosed(g: Gaps, style: Style, kw: nat, span: Span): (r: Gaps)
    requires kw < |g| && 0 < span.end && span.start + 1 < |g| && span.end + 1 < |g|
    ensures |r| == |g|
  {
    ElseClosingBrace(BracedAround(SpacedBefore(g, kw, style.wsBefore(Rule.Unnamed)), span.start, style,
                                  Rule.ElseStatementOpeningBrace), style, span)
  }

  /** A block `else`: then line breaks before `else` and after the closing brace. */
  function ElseBlockGaps(g: Gaps, style: Style, kw: nat, span: Span): (r: Gaps)
    requires kw < |g| && 0 < span.end && span.start + 1 < |g| && span.end + 1 < |g|
    ensures |r| == |g|
  {
    BrokenAfter(BrokenBefore(ElseBlockClosed(g, style, kw, span), kw, style.brBefore(Rule.ElseStatement)),
                span.end, style.brAfter(Rule.ElseStatement))
  }

  /** All layout removed from the strip start up to the alternate. */
  function ElseCleared(toks: seq<Token>, g: Gaps, a: Alternate): (r: Gaps)
    requires |g| == |toks| + 1 && AlternateReady(toks, a)
    ensures |r| == |g|
  {
    Cleared(g, ElseStrip(toks, ElseKeyword(toks, a)), a.span.start)
  }

  /** The layout the `else` clause leaves. */
  function ElseGaps(toks: seq<Token>, g: Gaps, style: Style, a: Alternate): (r: Gaps)
    requires |g| == |toks| + 1 && AlternateReady(toks, a)
    ensures |r| == |g|
  {
    var kw := ElseKeyword(toks, a);
    var cleared := ElseCleared(toks, g, a);
    match a
    case ElseIf(span, consequent) => ElseIfGaps(cleared, style, kw, span.start, consequent)
    case ElseBlock(span) => ElseBlockGaps(cleared, style, kw, span)
    case ElseBare(_) => SpacedAfter(cleared, kw, Exactly(1))
  }

  /**
   * A block `else` indents, on the layout it leaves, `else` and the opening
   * brace when each starts a line, and the closing brace when it starts a
   * line and its rule asks for a line break before it; no other entry
   * changes.
   */
  function ElseBlockIndent(g: Gaps, style: Style, kw: nat, span: Span, level: nat, ind: map<nat, nat>): (r: map<nat, nat>)
    requires kw < |g| && span.start < |g| && span.end < |g|
    ensures (kw == 0 || !NoBreak(g[kw])) ==> kw in r && r[kw] == level
    ensures (span.start == 0 || !NoBreak(g[span.start])) ==> span.start in r && r[span.start] == level
    ensures NeedsBreakBefore(style, Rule.ElseStatementClosingBrace) && (span.end == 0 || !NoBreak(g[span.end])) ==>
              span.end in r && r[span.end] == level
    ensures forall i | i != kw && i != span.start && i != span.end :: (i in r <==> i in ind) && (i in ind ==> r[i] == ind[i])
  {
    var atClose := if NeedsBreakBefore(style, Rule.ElseStatementClosingBrace) then IndentedIfNeeded(g, ind, span.end, level)
                   else ind;
    IndentedIfNeeded(g, IndentedIfNeeded(g, atClose, kw, level), span.start, level)
  }

  /**
   * The indentation the `else` clause records: for `else if`, the nested
   * consequent's opening brace, decided right after its line break is
   * applied; for a block, as `ElseBlockIndent` on the layout the clause
   * leaves.
   */
  function ElseIndent(toks: seq<Token>, g: Gaps, style: Style, a: Alternate, level: nat, ind: map<nat, nat>): (r: map<nat, nat>)
    requires |g| == |toks| + 1 && AlternateReady(toks, a)
  {
    match a
    case ElseIf(span, consequent) =>
      IndentedIfNeeded(ElseIfOpening(ElseCleared(toks, g, a), style, span.start, consequent), ind, consequent.start, level)
    case ElseBlock(span) =>
      ElseBlockIndent(ElseGaps(toks, g, style, a), style, ElseKeyword(toks, a), span, level, ind)
    case ElseBare(_) => ind
  }

  /** The closing brace's line breaks: before it, and after it only when there is no alternate. */
  function ConsequentClosingBroken(g: Gaps, style: Style, end: nat, hasAlternate: bool): (r: Gaps)
    requires end + 1 < |g|
    ensures |r| == |g|
    ensures forall j | 0 <= j < |g| && j != end && j != end + 1 :: r[j] == g[j]
  {
    if hasAlternate then BrokenBefore(g, end, style.brBefore(Rule.IfStatementClosingBrace))
    else BrokenAround(g, end, style.brBefore(Rule.IfStatementClosingBrace), style.brAfter(Rule.IfStatementClosingBrace))
  }

  /**
   * The consequent block's braces: the layout right before `}` removed,
   * both policies of the opening brace, the closing brace's line breaks
   * before it, and after it only when there is no alternate, then its
   * spacing.
   */
  function ConsequentGaps(g: Gaps, style: Style, consequent: Span, hasAlternate: bool): (r: Gaps)
    requires consequent.start < consequent.end && consequent.end + 1 < |g|
    ensures |r| == |g|
    ensures forall j | 0 <= j < |g| && j != consequent.start && j != consequent.start + 1 &&
                       j != consequent.end && j != consequent.end + 1 :: r[j] == g[j]
  {
    var cleared := g[consequent.end := []];
    var braced := BracedAround(cleared, consequent.start, style, Rule.IfStatementOpeningBrace);
    SpacedAround(ConsequentClosingBroken(braced, style, consequent.end, hasAlternate), consequent.end,
                 style.wsBefore(Rule.IfStatementClosingBrace), style.wsAfter(Rule.IfStatementClosingBrace))
  }

  /**
   * Both braces of the consequent are indented to the statement's level
   * exactly when they start a line in the layout the hook leaves; no other
   * entry changes.
   */
  function ConsequentIndent(g: Gaps, consequent: Span, level: nat, ind: map<nat, nat>): (r: map<nat, nat>)
    requires consequent.start < consequent.end < |g|
    ensures forall i | i == consequent.start || i == consequent.end ::
              (i == 0 || !NoBreak(g[i]) ==> i in r && r[i] == level) &&
              (0 < i && NoBreak(g[i]) ==> (i in r <==> i in ind) && (i in ind ==> r[i] == ind[i]))
    ensures forall i | i != consequent.start && i != consequent.end :: (i in r <==> i in ind) && (i in ind ==> r[i] == ind[i])
  {
    IndentedIfNeeded(g, IndentedIfNeeded(g, ind, consequent.start, level), consequent.end, level)
  }

  /** The layout after the head and the `else` clause, before the consequent's braces. */
  function IfElseGaps(toks: seq<Token>, g: Gaps, style: Style, n: IfNode): (r: Gaps)
    requires |g| == |toks| + 1 && IfReady(toks, n)
    ensures |r| == |g|
  {
    var head := IfHeadGaps(toks, g, style, n);
    if n.alternate.Some? then ElseGaps(toks, head, style, n.alternate.value) else head
  }

  /** The layout IfStatement leaves: the head, the `else` clause, then the consequent's braces. */
  function IfGaps(toks: seq<Token>, g: Gaps, style: Style, n: IfNode): (r: Gaps)
    requires |g| == |toks| + 1 && IfReady(toks, n)
    ensures |r| == |g|
  {
    var withElse := IfElseGaps(toks, g, style, n);
    if n.consequent.isBlock then ConsequentGaps(withElse, style, n.consequent.span, n.alternate.Some?) else withElse
  }

  /** The indentation IfStatement records: the `else` clause's, then the consequent's braces'. */
  function IfIndent(toks: seq<Token>, g: Gaps, style: Style, n: IfNode, ind: map<nat, nat>): (r: map<nat, nat>)
    requires |g| == |toks| + 1 && IfReady(toks, n)
  {
    var withElse := if n.alternate.Some? then ElseIndent(toks, IfHeadGaps(toks, g, style, n), style, n.alternate.value,
                                                         n.indentLevel, ind)
                    else ind;
    if n.consequent.isBlock then ConsequentIndent(IfGaps(toks, g, style, n), n.consequent.span, n.indentLevel, withElse)
    else withElse
  }

  /**
   * An `else` without braces is followed by exactly one space: the gap
   * after `else` was emptied by the strip, then spaced, whatever the style.
   */
  lemma ElseBareSpaced(toks: seq<Token>, g: Gaps, style: Style, a: Alternate)
    requires |g| == |toks| + 1 && AlternateReady(toks, a) && a.ElseBare?
    ensures var kw := ElseKeyword(toks, a);
            var r := ElseGaps(toks, g, style, a);
            SpacesMeet(r[kw + 1], Exactly(1)) && (kw < a.span.start ==> r[kw + 1] == Blanks(1))
  {
    var kw := ElseKeyword(toks, a);
    if kw < a.span.start {
      assert ElseCleared(toks, g, a)[kw + 1] == [];
    }
  }

  /**
   * `else if`: exactly one space between `else` and the nested `if`, and
   * the line-break policies of both braces of the nested consequent, of
   * `else` and of the clause's end.
   */
  lemma ElseIfBroken(toks: seq<Token>, g: Gaps, style: Style, a: Alternate)
    requires |g| == |toks| + 1 && AlternateReady(toks, a) && a.ElseIf?
    requires ElseKeyword(toks, a) < a.span.start < a.consequent.start < a.consequent.end
    ensures var kw := ElseKeyword(toks, a);
            var r := ElseGaps(toks, g, style, a);
            r[a.span.start] == Blanks(1) &&
            BreaksMeet(r[a.consequent.start], style.brBefore(Rule.ElseIfStatementOpeningBrace)) &&
            BreaksMeet(r[a.consequent.end], style.brBefore(Rule.ElseIfStatementClosingBrace)) &&
            BreaksMeet(r[kw], style.brBefore(Rule.ElseIfStatement)) &&
            BreaksMeet(r[a.consequent.end + 1], style.brAfter(Rule.ElseIfStatement))
  {
    assert ElseCleared(toks, g, a)[a.span.start] == [];
  }

  /**
   * A block `else`: the line-break policies of `else`, of both braces and
   * of the clause's end; the closing brace is broken when its rule asks
   * for a line break before it and spaced otherwise.
   */
  predicate ElseBlockMeets(r: Gaps, style: Style, kw: nat, b: Span)
    requires kw < |r| && b.start + 1 < |r| && b.end + 1 < |r|
  {
    BreaksMeet(r[kw], style.brBefore(Rule.ElseStatement)) &&
    BreaksMeet(r[b.start], style.brBefore(Rule.ElseStatementOpeningBrace)) &&
    (b.start + 1 < b.end ==> BreaksMeet(r[b.start + 1], style.brAfter(Rule.ElseStatementOpeningBrace))) &&
    (NeedsBreakBefore(style, Rule.ElseStatementClosingBrace) ==>
       BreaksMeet(r[b.end], style.brBefore(Rule.ElseStatementClosingBrace))) &&
    (!NeedsBreakBefore(style, Rule.ElseStatementClosingBrace) ==>
       SpacesMeet(r[b.end], style.wsBefore(Rule.ElseStatementClosingBrace))) &&
    BreaksMeet(r[b.end + 1], style.brAfter(Rule.ElseStatement))
  }

  /** A block `else` meets `ElseBlockMeets` on the layout the clause leaves. */
  lemma ElseBlockBroken(toks: seq<Token>, g: Gaps, style: Style, a: Alternate)
    requires |g| == |toks| + 1 && AlternateReady(toks, a) && a.ElseBlock?
    requires ElseKeyword(toks, a) < a.span.start
    ensures ElseBlockMeets(ElseGaps(toks, g, style, a), style, ElseKeyword(toks, a), a.span)
  {
    ElseBlockGapsBroken(ElseCleared(toks, g, a), style, ElseKeyword(toks, a), a.span);
  }

  /** `ElseBlockMeets` holds after the block `else` steps, whatever layout they start from. */
  lemma ElseBlockGapsBroken(g: Gaps, style: Style, kw: nat, b: Span)
    requires kw < b.start < b.end && b.end + 1 < |g|
    ensures ElseBlockMeets(ElseBlockGaps(g, style, kw, b), style, kw, b)
  {
    var s1 := SpacedBefore(g, kw, style.wsBefore(Rule.Unnamed));
    var s2 := BracedAround(s1, b.start, style, Rule.ElseStatementOpeningBrace);
    var s3 := ElseClosingBrace(s2, style, b);
    assert s3 == ElseBlockClosed(g, style, kw, b);
    assert s3[b.start] == s2[b.start];
    assert b.start + 1 < b.end ==> s3[b.start + 1] == s2[b.start + 1];
  }

  /** The consequent's opening brace keeps both of its line-break policies. */
  lemma ConsequentOpeningBraceBroken(g: Gaps, style: Style, consequent: Span, hasAlternate: bool)
    requires consequent.start < consequent.end && consequent.end + 1 < |g|
    ensures var r := ConsequentGaps(g, style, consequent, hasAlternate);
            BreaksMeet(r[consequent.start], style.brBefore(Rule.IfStatementOpeningBrace)) &&
            (consequent.start + 1 < consequent.end ==>
               BreaksMeet(r[consequent.start + 1], style.brAfter(Rule.IfStatementOpeningBrace)))
  {
  }

  /**
   * The consequent's closing brace: its line-break policy before it, and
   * after it only when there is no alternate; with an alternate the line
   * breaks after it are the ones it had.  Both sides are then spaced.
   */
  lemma ConsequentClosingBraceBroken(g: Gaps, style: Style, consequent: Span, hasAlternate: bool)
    requires consequent.start < consequent.end && consequent.end + 1 < |g|
    ensures var r := ConsequentGaps(g, style, consequent, hasAlternate);
            var e := consequent.end;
            BreaksMeet(r[e], style.brBefore(Rule.IfStatementClosingBrace)) &&
            (!hasAlternate ==> BreaksMeet(r[e + 1], style.brAfter(Rule.IfStatementClosingBrace))) &&
            (hasAlternate ==> CountBreaks(r[e + 1]) == CountBreaks(g[e + 1])) &&
            SpacesMeet(r[e], style.wsBefore(Rule.IfStatementClosingBrace)) &&
            SpacesMeet(r[e + 1], style.wsAfter(Rule.IfStatementClosingBrace))
  {
    var e := consequent.end;
    var brB, brA := style.brBefore(Rule.IfStatementClosingBrace), style.brAfter(Rule.IfStatementClosingBrace);
    var wsB, wsA := style.wsBefore(Rule.IfStatementClosingBrace), style.wsAfter(Rule.IfStatementClosingBrace);
    var braced := BracedAround(g[e := []], consequent.start, style, Rule.IfStatementOpeningBrace);
    var broken := ConsequentClosingBroken(braced, style, e, hasAlternate);
    assert ConsequentGaps(g, style, consequent, hasAlternate) == SpacedAround(broken, e, wsB, wsA);
    if hasAlternate {
      assert broken[e + 1] == g[e + 1];
    } else {
      BrokenAroundMeets(braced, e, brB, brA);
      SpacingKeepsBreaks(broken[e + 1], wsA, brA);
    }
    SpacingKeepsBreaks(broken[e], wsB, brB);
  }

  /**
   * The consequent block's braces in the layout the whole `if` hook leaves:
   * the line-break policies before both braces, and after the closing one
   * when no `else` follows (with an `else`, `ConsequentClosingBraceBroken`
   * says the breaks there are the ones the `else` clause left).
   */
  lemma IfConsequentBraces(toks: seq<Token>, g: Gaps, style: Style, n: IfNode)
    requires |g| == |toks| + 1 && IfReady(toks, n) && n.consequent.isBlock
    ensures var r, b := IfGaps(toks, g, style, n), n.consequent.span;
            BreaksMeet(r[b.start], style.brBefore(Rule.IfStatementOpeningBrace)) &&
            BreaksMeet(r[b.end], style.brBefore(Rule.IfStatementClosingBrace)) &&
            (n.alternate.None? ==> BreaksMeet(r[b.end + 1], style.brAfter(Rule.IfStatementClosingBrace)))
  {
    var withElse, b := IfElseGaps(toks, g, style, n), n.consequent.span;
    assert IfGaps(toks, g, style, n) == ConsequentGaps(withElse, style, b, n.alternate.Some?);
    ConsequentOpeningBraceBroken(withElse, style, b, n.alternate.Some?);
    ConsequentClosingBraceBroken(withElse, style, b, n.alternate.Some?);
  }

  /** The order a parser guarantees: the consequent ends before the `else` keyword. */
  predicate ElseAfterConsequent(toks: seq<Token>, n: IfNode)
    requires IfReady(toks, n)
  {
    n.alternate.Some? ==> n.consequent.span.end < ElseKeyword(toks, n.alternate.value)
  }

  /**
   * The consequent's brace steps, which run after the `else` clause, leave
   * every gap after `else` as the clause left it, and the number of line
   * breaks before `else` too.
   */
  lemma IfElseKept(toks: seq<Token>, g: Gaps, style: Style, n: IfNode)
    requires |g| == |toks| + 1 && IfReady(toks, n) && ElseAfterConsequent(toks, n) && n.alternate.Some?
    ensures var kw := ElseKeyword(toks, n.alternate.value);
            var r, e := IfGaps(toks, g, style, n), IfElseGaps(toks, g, style, n);
            CountBreaks(r[kw]) == CountBreaks(e[kw]) &&
            forall x | kw < x < |g| :: r[x] == e[x]
  {
    if n.consequent.isBlock {
      ConsequentKept(IfElseGaps(toks, g, style, n), style, n.consequent.span, ElseKeyword(toks, n.alternate.value));
    }
  }

  /** With an alternate, the consequent's brace steps keep the gaps after its closing brace's, and the line breaks there. */
  lemma ConsequentKept(e: Gaps, style: Style, consequent: Span, kw: nat)
    requires consequent.start < consequent.end < kw < |e|
    ensures var r := ConsequentGaps(e, style, consequent, true);
            CountBreaks(r[kw]) == CountBreaks(e[kw]) && forall x | kw < x < |e| :: r[x] == e[x]
  {
    ConsequentKeptBeyond(e, style, consequent);
    if kw == consequent.end + 1 {
      ConsequentAlternateKept(e, style, consequent);
    }
  }

  /** Past the gap after the closing brace, the consequent's brace steps change nothing. */
  lemma ConsequentKeptBeyond(e: Gaps, style: Style, consequent: Span)
    requires consequent.start < consequent.end && consequent.end + 1 < |e|
    ensures var r := ConsequentGaps(e, style, consequent, true);
            forall x | consequent.end + 1 < x < |e| :: r[x] == e[x]
  {
  }

  /** With an alternate, the gap after the closing brace keeps its line breaks. */
  lemma ConsequentAlternateKept(e: Gaps, style: Style, consequent: Span)
    requires consequent.start < consequent.end && consequent.end + 1 < |e|
    ensures CountBreaks(ConsequentGaps(e, style, consequent, true)[consequent.end + 1]) == CountBreaks(e[consequent.end + 1])
  {
    ConsequentClosingBraceBroken(e, style, consequent, true);
  }

  /** In the layout the whole hook leaves, an `else` without braces is followed by exactly one space. */
  lemma IfElseBareSpaced(toks: seq<Token>, g: Gaps, style: Style, n: IfNode)
    requires |g| == |toks| + 1 && IfReady(toks, n) && ElseAfterConsequent(toks, n)
    requires n.alternate.Some? && n.alternate.value.ElseBare?
    ensures var a := n.alternate.value;
            var kw := ElseKeyword(toks, a);
            var r := IfGaps(toks, g, style, n);
            SpacesMeet(r[kw + 1], Exactly(1)) && (kw < a.span.start ==> r[kw + 1] == Blanks(1))
  {
    IfElseKept(toks, g, style, n);
    ElseBareSpaced(toks, IfHeadGaps(toks, g, style, n), style, n.alternate.value);
  }

  /**
   * In the layout the whole hook leaves, `else if` keeps exactly one space
   * before the nested `if` and the line-break policies of both nested
   * braces, of `else` and of the clause's end.
   */
  lemma IfElseIfBroken(toks: seq<Token>, g: Gaps, style: Style, n: IfNode)
    requires |g| == |toks| + 1 && IfReady(toks, n) && ElseAfterConsequent(toks, n)
    requires n.alternate.Some? && n.alternate.value.ElseIf?
    requires var a := n.alternate.value;
             ElseKeyword(toks, a) < a.span.start < a.consequent.start < a.consequent.end
    ensures var a := n.alternate.value;
            var kw := ElseKeyword(toks, a);
            var r := IfGaps(toks, g, style, n);
            r[a.span.start] == Blanks(1) &&
            BreaksMeet(r[a.consequent.start], style.brBefore(Rule.ElseIfStatementOpeningBrace)) &&
            BreaksMeet(r[a.consequent.end], style.brBefore(Rule.ElseIfStatementClosingBrace)) &&
            BreaksMeet(r[kw], style.brBefore(Rule.ElseIfStatement)) &&
            BreaksMeet(r[a.consequent.end + 1], style.brAfter(Rule.ElseIfStatement))
  {
    IfElseKept(toks, g, style, n);
    ElseIfBroken(toks, IfHeadGaps(toks, g, style, n), style, n.alternate.value);
  }

  /** In the layout the whole hook leaves, a block `else` meets `ElseBlockMeets`. */
  lemma IfElseBlockBroken(toks: seq<Token>, g: Gaps, style: Style, n: IfNode)
    requires |g| == |toks| + 1 && IfReady(toks, n) && ElseAfterConsequent(toks, n)
    requires n.alternate.Some? && n.alternate.value.ElseBlock?
    requires ElseKeyword(toks, n.alternate.value) < n.alternate.value.span.start
    ensures ElseBlockMeets(IfGaps(toks, g, style, n), style, ElseKeyword(toks, n.alternate.value), n.alternate.value.span)
  {
    IfElseKept(toks, g, style, n);
    ElseBlockBroken(toks, IfHeadGaps(toks, g, style, n), style, n.alternate.value);
  }

  method IfHead(ts: TokenStream, style: Style, n: IfNode)
    requires ts.Valid() && IfReady(ts.tokens, n)
    modifies ts
    ensures ts.Valid() && ts.indent == old(ts.indent)
    ensures ts.gaps == IfHeadGaps(ts.tokens, old(ts.gaps), style, n)
  {
    var conditionalStart, conditionalEnd := IfOpen(ts.tokens, n), IfClose(ts.tokens, n);
    ts.RemoveWsBrInBetween(n.span.start, conditionalStart);
    ts.RemoveWsBrInBetween(conditionalEnd, n.consequent.span.start);
    ts.WsBeforeIfNeeded(style, conditionalStart, Rule.IfStatementConditional);
    ts.WsAfterIfNeeded(style, conditionalEnd, Rule.IfStatementConditional);
  }

  method ElseIfClause(ts: TokenStream, style: Style, kw: nat, start: nat, consequent: Span, level: nat)
    requires ts.Valid() && kw < |ts.tokens| && start < |ts.tokens| && consequent.start <= consequent.end < |ts.tokens|
    modifies ts
    ensures ts.Valid()
    ensures ts.gaps == ElseIfGaps(old(ts.gaps), style, kw, start, consequent)
    ensures ts.indent == IndentedIfNeeded(ElseIfOpening(old(ts.gaps), style, start, consequent), old(ts.indent),
                                          consequent.start, level)
  {
    ts.WsBefore(start);
    ts.BrBeforeIfNeeded(style, consequent.start, Rule.ElseIfStatementOpeningBrace);
    ts.IndentIfNeeded(consequent.start, level);
    ts.BrBeforeIfNeeded(style, consequent.end, Rule.ElseIfStatementClosingBrace);
    ts.BrBeforeIfNeeded(style, kw, Rule.ElseIfStatement);
    ts.BrAfterIfNeeded(style, consequent.end, Rule.ElseIfStatement);
  }

  /** The closing brace of a block `else`, with its indentation when a line break is asked for. */
  method CloseElseBlock(ts: TokenStream, style: Style, span: Span, level: nat)
    requires ts.Valid() && 0 < span.end < |ts.tokens|
    modifies ts
    ensures ts.Valid()
    ensures ts.gaps == ElseClosingBrace(old(ts.gaps), style, span)
    ensures ts.indent == if NeedsBreakBefore(style, Rule.ElseStatementClosingBrace)
                         then IndentedIfNeeded(ts.gaps, old(ts.indent), span.end, level) else old(ts.indent)
  {
    if NeedsBreakBefore(style, Rule.ElseStatementClosingBrace) {
      var lastNonEmpty := span.end - 1;
      ts.RemoveInBetween(lastNonEmpty, span.end, WhiteSpace);
      ts.BrAroundIfNeeded(style, span.end, Rule.ElseStatementClosingBrace);
      ts.IndentIfNeeded(span.end, level);
    } else {
      ts.WsAroundIfNeeded(style, span.end, Rule.ElseStatementClosingBrace);
    }
  }

  /** A block `else` up to its closing brace. */
  method ElseBlockClose(ts: TokenStream, style: Style, kw: nat, span: Span, level: nat)
    requires ts.Valid() && kw < |ts.tokens| && span.start < span.end < |ts.tokens|
    modifies ts
    ensures ts.Valid()
    ensures ts.gaps == ElseBlockClosed(old(ts.gaps), style, kw, span)
    ensures ts.indent == if NeedsBreakBefore(style, Rule.ElseStatementClosingBrace)
                         then IndentedIfNeeded(ts.gaps, old(ts.indent), span.end, level) else old(ts.indent)
  {
    ghost var g0 := ts.gaps;
    ts.WsBeforeIfNeeded(style, kw, Rule.Unnamed);
    ghost var g1 := ts.gaps;
    BraceAround(ts, style, span.start, Rule.ElseStatementOpeningBrace);
    ghost var g2 := ts.gaps;
    CloseElseBlock(ts, style, span, level);
    assert g1 == SpacedBefore(g0, kw, style.wsBefore(Rule.Unnamed));
    assert g2 == BracedAround(g1, span.start, style, Rule.ElseStatementOpeningBrace);
  }

  method ElseBlockClause(ts: TokenStream, style: Style, kw: nat, span: Span, level: nat)
    requires ts.Valid() && kw <= span.start < span.end < |ts.tokens|
    modifies ts
    ensures ts.Valid()
    ensures ts.gaps == ElseBlockGaps(old(ts.gaps), style, kw, span)
    ensures ts.indent == ElseBlockIndent(ts.gaps, style, kw, span, level, old(ts.indent))
  {
    ElseBlockClose(ts, style, kw, span, level);
    ghost var closed := ts.gaps;
    ts.BrBeforeIfNeeded(style, kw, Rule.ElseStatement);
    ts.BrAfterIfNeeded(style, span.end, Rule.ElseStatement);
    assert ts.gaps[span.end] == closed[span.end];
    ts.IndentIfNeeded(kw, level);
    ts.IndentIfNeeded(span.start, level);
  }

  /** `removeWsBrInBetween(startEmptyRemove, alternate.startToken)`; returns the `else` keyword. */
  method StripBeforeElse(ts: TokenStream, a: Alternate) returns (elseKeyword: nat)
    requires ts.Valid() && AlternateReady(ts.tokens, a)
    modifies ts
    ensures ts.Valid() && ts.indent == old(ts.indent)
    ensures elseKeyword == ElseKeyword(ts.tokens, a)
    ensures ts.gaps == ElseCleared(ts.tokens, old(ts.gaps), a)
  {
    elseKeyword := ElseKeyword(ts.tokens, a);
    var startEmptyRemove := elseKeyword - 1;
    if !(ts.tokens[startEmptyRemove].kind == Punctuator && ts.tokens[startEmptyRemove].value == "}") {
      startEmptyRemove := elseKeyword;
    }
    ts.RemoveWsBrInBetween(startEmptyRemove, a.span.start);
  }

  method ElseClause(ts: TokenStream, style: Style, a: Alternate, level: nat)
    requires ts.Valid() && AlternateReady(ts.tokens, a)
    modifies ts
    ensures ts.Valid()
    ensures ts.gaps == ElseGaps(ts.tokens, old(ts.gaps), style, a)
    ensures ts.indent == ElseIndent(ts.tokens, old(ts.gaps), style, a, level, old(ts.indent))
  {
    var elseKeyword := StripBeforeElse(ts, a);
    match a
    case ElseIf(span, consequent) =>
      ElseIfClause(ts, style, elseKeyword, span.start, consequent, level);
    case ElseBlock(span) =>
      ElseBlockClause(ts, style, elseKeyword, span, level);
    case ElseBare(_) =>
      ts.WsAfter(elseKeyword);
  }

  /** The consequent's braces up to the closing brace's line breaks. */
  method BreakConsequent(ts: TokenStream, style: Style, consequent: Span, hasAlternate: bool)
    requires ts.Valid() && consequent.start < consequent.end < |ts.tokens|
    modifies ts
    ensures ts.Valid() && ts.indent == old(ts.indent)
    ensures ts.gaps == ConsequentClosingBroken(
                         BracedAround(old(ts.gaps)[consequent.end := []], consequent.start, style,
                                      Rule.IfStatementOpeningBrace),
                         style, consequent.end, hasAlternate)
  {
    var startBody, endBody := consequent.start, consequent.end;
    ghost var g0 := ts.gaps;
    ts.RemoveWsBrJustBefore(endBody);
    ghost var g1 := ts.gaps;
    BraceAround(ts, style, startBody, Rule.IfStatementOpeningBrace);
    ghost var g2 := ts.gaps;
    BreakConsequentClose(ts, style, endBody, hasAlternate);
    assert g2 == BracedAround(g1, consequent.start, style, Rule.IfStatementOpeningBrace);
  }

  /** `aroundIfNeeded` on the consequent's closing brace with no alternate, `beforeIfNeeded` with one. */
  method BreakConsequentClose(ts: TokenStream, style: Style, endBody: nat, hasAlternate: bool)
    requires ts.Valid() && endBody < |ts.tokens|
    modifies ts
    ensures ts.Valid() && ts.indent == old(ts.indent)
    ensures ts.gaps == ConsequentClosingBroken(old(ts.gaps), style, endBody, hasAlternate)
  {
    if !hasAlternate {
      ts.BrAroundIfNeeded(style, endBody, Rule.IfStatementClosingBrace);
    } else {
      ts.BrBeforeIfNeeded(style, endBody, Rule.IfStatementClosingBrace);
    }
  }

  method IfConsequent(ts: TokenStream, style: Style, consequent: Span, hasAlternate: bool, level: nat)
    requires ts.Valid() && consequent.start < consequent.end < |ts.tokens|
    modifies ts
    ensures ts.Valid()
    ensures ts.gaps == ConsequentGaps(old(ts.gaps), style, consequent, hasAlternate)
    ensures ts.indent == ConsequentIndent(ts.gaps, consequent, level, old(ts.indent))
  {
    BreakConsequent(ts, style, consequent, hasAlternate);
    ts.IndentIfNeeded(consequent.start, level);
    ts.IndentIfNeeded(consequent.end, level);
    ghost var broken := ts.gaps;
    ts.WsAroundIfNeeded(style, consequent.end, Rule.IfStatementClosingBrace);
    assert ts.gaps[consequent.start] == broken[consequent.start];
    assert NoBreak(ts.gaps[consequent.end]) == NoBreak(broken[consequent.end]);
  }

  method IfStatement(ts: TokenStream, style: Style, n: IfNode)
    requires ts.Valid() && IfReady(ts.tokens, n)
    modifies ts
    ensures ts.Valid()
    ensures ts.gaps == IfGaps(ts.tokens, old(ts.gaps), style, n)
    ensures ts.indent == IfIndent(ts.tokens, old(ts.gaps), style, n, old(ts.indent))
  {
    IfHead(ts, style, n);
    if n.alternate.Some? {
      ElseClause(ts, style, n.alternate.value, n.indentLevel);
    }
    if n.consequent.isBlock {
      IfConsequent(ts, style, n.consequent.span, n.alternate.Some?, n.indentLevel);
    }
  }
}
