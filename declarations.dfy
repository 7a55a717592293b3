/**
 * The ObjectExpression and VariableDeclaration hooks of lib/hooks.js, in
 * the same form as the expression hooks: a method on the shared
 * `TokenStream` whose new layout is a pure function of the old one, and
 * lemmas about that function.
 */
module DeclarationHooks {
  import opened Tokens
  import opened Layout
  import opened Stream
  import opened Ast

  // ---------------------------------------------------------------------
  // ObjectExpression

  /** A `,` or a `}`: where the scan after a property value stops. */
  predicate IsDelimiter(t: Token) {
    t.value == "," || t.value == "}"
  }

  /**
   * The anchor the scan after token `from` stops at: the first later token
   * that is a delimiter, or `|toks|` when the stream runs out first.
   */
  function DelimiterAfter(toks: seq<Token>, from: nat): (r: nat)
    requires from < |toks|
    ensures from < r <= |toks|
    ensures r < |toks| ==> IsDelimiter(toks[r])
    ensures forall k | from < k < r :: !IsDelimiter(toks[k])
    decreases |toks| - from
  {
    if from + 1 == |toks| || IsDelimiter(toks[from + 1]) then from + 1
    else DelimiterAfter(toks, from + 1)
  }

  /** The anchors of a property lie in order: key, then value, inside the property. */
  predicate PropertyIn(toks: seq<Token>, p: Property) {
    p.span.start <= p.key.start <= p.key.end < p.value.start <= p.value.end <= p.span.end < |toks|
  }

  predicate PropertiesIn(toks: seq<Token>, ps: seq<Property>) {
    forall i | 0 <= i < |ps| :: PropertyIn(toks, ps[i])
  }

  /** Every property lies strictly inside the object's braces. */
  predicate ObjectReady(toks: seq<Token>, n: ObjectNode) {
    n.span.start < n.span.end < |toks| && PropertiesIn(toks, n.properties) &&
    forall i | 0 <= i < |n.properties| ::
      n.span.start < n.properties[i].span.start && n.properties[i].span.end < n.span.end
  }

  /** The layout one round of the property loop leaves. */
  function PropertyGaps(toks: seq<Token>, g: Gaps, style: Style, p: Property): (r: Gaps)
    requires |g| == |toks| + 1 && PropertyIn(toks, p)
    ensures |r| == |g|
  {
    var broken := BrokenBefore(g, p.span.start, style.brBefore(Rule.Property));
    var named := SpacedAfter(broken, p.key.end, style.wsAfter(Rule.PropertyName));
    var joined := RemovedBetween(named, p.span.end, DelimiterAfter(toks, p.span.end), LineBreak);
    var valued := SpacedBefore(joined, p.value.start, style.wsBefore(Rule.PropertyValue));
    BrokenAfter(valued, p.span.end, style.brAfter(Rule.Property))
  }

  /**
   * One round of the property loop places the line breaks around the
   * property per the Property policy: before its first token and after its
   * last one.
   */
  lemma PropertyBreaks(toks: seq<Token>, g: Gaps, style: Style, p: Property)
    requires |g| == |toks| + 1 && PropertyIn(toks, p)
    ensures var r := PropertyGaps(toks, g, style, p);
            BreaksMeet(r[p.span.start], style.brBefore(Rule.Property)) &&
            BreaksMeet(r[p.span.end + 1], style.brAfter(Rule.Property))
  {
    var broken := BrokenBefore(g, p.span.start, style.brBefore(Rule.Property));
    var named := SpacedAfter(broken, p.key.end, style.wsAfter(Rule.PropertyName));
    var joined := RemovedBetween(named, p.span.end, DelimiterAfter(toks, p.span.end), LineBreak);
    var valued := SpacedBefore(joined, p.value.start, style.wsBefore(Rule.PropertyValue));
    var r := BrokenAfter(valued, p.span.end, style.brAfter(Rule.Property));
    SpacingKeepsBreaks(broken[p.span.start], style.wsAfter(Rule.PropertyName), style.brBefore(Rule.Property));
    SpacingKeepsBreaks(joined[p.span.start], style.wsBefore(Rule.PropertyValue), style.brBefore(Rule.Property));
  }

  /**
   * One round of the property loop spaces the property's name (when a gap
   * separates it from the value) and its value per their policies.
   */
  lemma PropertySpacing(toks: seq<Token>, g: Gaps, style: Style, p: Property)
    requires |g| == |toks| + 1 && PropertyIn(toks, p)
    ensures var r := PropertyGaps(toks, g, style, p);
            (p.key.end + 1 < p.value.start ==> SpacesMeet(r[p.key.end + 1], style.wsAfter(Rule.PropertyName))) &&
            SpacesMeet(r[p.value.start], style.wsBefore(Rule.PropertyValue))
  {
    var broken := BrokenBefore(g, p.span.start, style.brBefore(Rule.Property));
    var named := SpacedAfter(broken, p.key.end, style.wsAfter(Rule.PropertyName));
    var joined := RemovedBetween(named, p.span.end, DelimiterAfter(toks, p.span.end), LineBreak);
    var valued := SpacedBefore(joined, p.value.start, style.wsBefore(Rule.PropertyValue));
    var r := BrokenAfter(valued, p.span.end, style.brAfter(Rule.Property));
    assert r[p.value.start] == valued[p.value.start];
    if p.key.end + 1 < p.value.start {
      var x := p.key.end + 1;
      assert SpacesMeet(named[x], style.wsAfter(Rule.PropertyName));
      assert joined[x] == named[x];
      assert r[x] == valued[x] == joined[x];
    }
  }

  /**
   * The scan after a property's last token leaves no line break from the
   * gap right after the property up to the gap before the next `,` or `}`;
   * the gap right after the property gets line breaks back only when the
   * Property policy asks for some.
   */
  lemma PropertyScan(toks: seq<Token>, g: Gaps, style: Style, p: Property)
    requires |g| == |toks| + 1 && PropertyIn(toks, p)
    ensures var r := PropertyGaps(toks, g, style, p);
            var after := style.brAfter(Rule.Property);
            NoBreakBetween(r, p.span.end + 1, DelimiterAfter(toks, p.span.end)) &&
            (after.Keep? || after.n == 0 ==> NoBreak(r[p.span.end + 1]))
  {
    var stop := DelimiterAfter(toks, p.span.end);
    var broken := BrokenBefore(g, p.span.start, style.brBefore(Rule.Property));
    var named := SpacedAfter(broken, p.key.end, style.wsAfter(Rule.PropertyName));
    var joined := RemovedBetween(named, p.span.end, stop, LineBreak);
    var valued := SpacedBefore(joined, p.value.start, style.wsBefore(Rule.PropertyValue));
    RemovedBreaksBetween(named, p.span.end, stop);
    SpacingKeepsNoBreakBetween(joined, p.value.start, style.wsBefore(Rule.PropertyValue), p.span.end, stop);
    BreakingElsewhereKeepsNoBreakBetween(valued, p.span.end + 1, style.brAfter(Rule.Property), p.span.end + 1, stop);
    CountBreaksZero(PropertyGaps(toks, g, style, p)[p.span.end + 1]);
  }

  /** A round of the property loop leaves every gap before its property alone. */
  lemma PropertyGapsBefore(toks: seq<Token>, g: Gaps, style: Style, p: Property, x: nat)
    requires |g| == |toks| + 1 && PropertyIn(toks, p) && x < p.span.start
    ensures PropertyGaps(toks, g, style, p)[x] == g[x]
  {
  }

  /** The property loop over the first `k` properties. */
  function PropertiesGaps(toks: seq<Token>, g: Gaps, style: Style, ps: seq<Property>, k: nat): (r: Gaps)
    requires |g| == |toks| + 1 && k <= |ps| && PropertiesIn(toks, ps)
    ensures |r| == |g|
    ensures forall x | 0 <= x < |g| && StartAfter(ps, x) :: r[x] == g[x]
  {
    if k == 0 then g else PropertyGaps(toks, PropertiesGaps(toks, g, style, ps, k - 1), style, ps[k - 1])
  }

  /** No property starts at or before anchor `x`. */
  predicate StartAfter(ps: seq<Property>, x: nat) {
    forall i | 0 <= i < |ps| :: x < ps[i].span.start
  }

  /** The layout ObjectExpression leaves. */
  function ObjectGaps(toks: seq<Token>, g: Gaps, style: Style, n: ObjectNode): (r: Gaps)
    requires |g| == |toks| + 1 && ObjectReady(toks, n)
    ensures |r| == |g|
    ensures |n.properties| == 0 ==> r == g
  {
    if |n.properties| == 0 then g
    else
      var braced := BrokenAround(g, n.span.start, style.brBefore(Rule.ObjectExpressionOpeningBrace),
                                                 style.brAfter(Rule.ObjectExpressionOpeningBrace));
      assert |braced| == |g|;
      var inner := PropertiesGaps(toks, braced, style, n.properties, |n.properties|);
      BrokenAround(inner, n.span.end,
                   style.brBefore(Rule.ObjectExpressionClosingBrace), style.brAfter(Rule.ObjectExpressionClosingBrace))
  }

  /**
   * A non-empty object starts with its opening brace preceded by the line
   * breaks its policy asks for (the properties only touch later gaps).
   */
  lemma ObjectOpeningBrace(toks: seq<Token>, g: Gaps, style: Style, n: ObjectNode)
    requires |g| == |toks| + 1 && ObjectReady(toks, n) && |n.properties| > 0
    ensures BreaksMeet(ObjectGaps(toks, g, style, n)[n.span.start], style.brBefore(Rule.ObjectExpressionOpeningBrace))
  {
    var s := n.span.start;
    var braced := BrokenAround(g, s, style.brBefore(Rule.ObjectExpressionOpeningBrace),
                                     style.brAfter(Rule.ObjectExpressionOpeningBrace));
    assert StartAfter(n.properties, s);
  }

  /**
   * A non-empty object ends with its closing brace placed per the closing
   * brace's line-break policy on both sides.
   */
  lemma ObjectClosingBrace(toks: seq<Token>, g: Gaps, style: Style, n: ObjectNode)
    requires |g| == |toks| + 1 && ObjectReady(toks, n) && |n.properties| > 0
    ensures var r := ObjectGaps(toks, g, style, n);
            BreaksMeet(r[n.span.end], style.brBefore(Rule.ObjectExpressionClosingBrace)) &&
            BreaksMeet(r[n.span.end + 1], style.brAfter(Rule.ObjectExpressionClosingBrace))
  {
    var e := n.span.end;
    var braced := BrokenAround(g, n.span.start, style.brBefore(Rule.ObjectExpressionOpeningBrace),
                                     style.brAfter(Rule.ObjectExpressionOpeningBrace));
    var inner := PropertiesGaps(toks, braced, style, n.properties, |n.properties|);
    var before := BrokenBefore(inner, e, style.brBefore(Rule.ObjectExpressionClosingBrace));
    var r := BrokenAfter(before, e, style.brAfter(Rule.ObjectExpressionClosingBrace));
  }

  /**
   * The layout one property is left with: the Property line breaks before
   * it, its name and value spaced, and, among the gaps before anchor
   * `bound`, the Property line breaks after it and no line break from there
   * up to the gap before the next `,` or `}`.
   */
  predicate PropertyMeets(toks: seq<Token>, g: Gaps, style: Style, p: Property, bound: nat)
    requires |g| == |toks| + 1 && PropertyIn(toks, p)
  {
    var after := style.brAfter(Rule.Property);
    BreaksMeet(g[p.span.start], style.brBefore(Rule.Property)) &&
    (p.key.end + 1 < p.value.start ==> SpacesMeet(g[p.key.end + 1], style.wsAfter(Rule.PropertyName))) &&
    SpacesMeet(g[p.value.start], style.wsBefore(Rule.PropertyValue)) &&
    (p.span.end + 1 < bound ==>
       BreaksMeet(g[p.span.end + 1], after) && (after.Keep? || after.n == 0 ==> NoBreak(g[p.span.end + 1]))) &&
    forall x | p.span.end + 1 < x <= DelimiterAfter(toks, p.span.end) && x < bound :: NoBreak(g[x])
  }

  /** One round of the property loop leaves its property meeting every policy. */
  lemma PropertyRound(toks: seq<Token>, g: Gaps, style: Style, p: Property)
    requires |g| == |toks| + 1 && PropertyIn(toks, p)
    ensures PropertyMeets(toks, PropertyGaps(toks, g, style, p), style, p, |g|)
  {
    PropertyBreaks(toks, g, style, p);
    PropertySpacing(toks, g, style, p);
    PropertyScan(toks, g, style, p);
  }

  /** `PropertyMeets` survives any change outside the property's gaps and beyond `bound`. */
  lemma PropertyMeetsCarried(toks: seq<Token>, a: Gaps, b: Gaps, style: Style, p: Property, bound: nat, bound': nat)
    requires |a| == |b| == |toks| + 1 && PropertyIn(toks, p)
    requires PropertyMeets(toks, a, style, p, bound) && p.span.end < bound' <= bound
    requires forall x | p.span.start <= x <= DelimiterAfter(toks, p.span.end) && x < bound' :: b[x] == a[x]
    ensures PropertyMeets(toks, b, style, p, bound')
  {
    assert b[p.span.start] == a[p.span.start];
    assert b[p.value.start] == a[p.value.start];
    assert b[p.key.end + 1] == a[p.key.end + 1];
  }

  /** The order a parser guarantees: each property's `,` comes before the next property. */
  predicate PropertiesOrdered(toks: seq<Token>, ps: seq<Property>)
    requires PropertiesIn(toks, ps)
  {
    forall i, j | 0 <= i < j < |ps| :: DelimiterAfter(toks, ps[i].span.end) < ps[j].span.start
  }

  /** `a` and `b` agree on every gap before `bound`. */
  predicate SameBefore(a: Gaps, b: Gaps, bound: nat) {
    forall x | 0 <= x < bound && x < |a| && x < |b| :: a[x] == b[x]
  }

  /**
   * What the property loop's rounds promise, round by round: `rounds[j + 1]`
   * leaves property `j` meeting every policy and keeps the gaps before it.
   */
  predicate Rounds(toks: seq<Token>, style: Style, ps: seq<Property>, rounds: seq<Gaps>)
    requires PropertiesIn(toks, ps)
  {
    |rounds| == |ps| + 1 &&
    (forall j | 0 <= j < |rounds| :: |rounds[j]| == |toks| + 1) &&
    (forall j | 0 <= j < |ps| :: PropertyMeets(toks, rounds[j + 1], style, ps[j], |toks| + 1)) &&
    forall j | 0 <= j < |ps| :: SameBefore(rounds[j], rounds[j + 1], ps[j].span.start)
  }

  /** One round of the loop: it lays out its property and keeps the gaps before it. */
  lemma RoundStep(toks: seq<Token>, g: Gaps, style: Style, ps: seq<Property>, j: nat)
    requires |g| == |toks| + 1 && PropertiesIn(toks, ps) && j < |ps|
    ensures PropertyMeets(toks, PropertiesGaps(toks, g, style, ps, j + 1), style, ps[j], |g|)
    ensures SameBefore(PropertiesGaps(toks, g, style, ps, j), PropertiesGaps(toks, g, style, ps, j + 1), ps[j].span.start)
  {
    var before := PropertiesGaps(toks, g, style, ps, j);
    PropertyRound(toks, before, style, ps[j]);
    forall x | 0 <= x < ps[j].span.start
      ensures PropertyGaps(toks, before, style, ps[j])[x] == before[x]
    {
      PropertyGapsBefore(toks, before, style, ps[j], x);
    }
  }

  /** The rounds `PropertiesGaps` goes through keep the loop's promise. */
  lemma PropertiesRounds(toks: seq<Token>, g: Gaps, style: Style, ps: seq<Property>)
    returns (rounds: seq<Gaps>)
    requires |g| == |toks| + 1 && PropertiesIn(toks, ps)
    ensures Rounds(toks, style, ps, rounds)
    ensures forall j | 0 <= j <= |ps| :: rounds[j] == PropertiesGaps(toks, g, style, ps, j)
  {
    rounds := seq(|ps| + 1, j requires 0 <= j <= |ps| => PropertiesGaps(toks, g, style, ps, j));
    assert forall j | 0 <= j <= |ps| :: rounds[j] == PropertiesGaps(toks, g, style, ps, j);
    forall j | 0 <= j < |ps|
      ensures PropertyMeets(toks, rounds[j + 1], style, ps[j], |toks| + 1)
      ensures SameBefore(rounds[j], rounds[j + 1], ps[j].span.start)
    {
      assert rounds[j] == PropertiesGaps(toks, g, style, ps, j);
      assert rounds[j + 1] == PropertiesGaps(toks, g, style, ps, j + 1);
      RoundStep(toks, g, style, ps, j);
    }
  }

  /**
   * Property `i` still meets every policy after round `k` of the property
   * loop: the later rounds only touch gaps past its `,`.
   */
  lemma {:induction false} PropertyAfterRounds(toks: seq<Token>, style: Style, ps: seq<Property>, rounds: seq<Gaps>, i: nat, k: nat)
    requires PropertiesIn(toks, ps) && PropertiesOrdered(toks, ps) && Rounds(toks, style, ps, rounds) && i < k <= |ps|
    ensures PropertyMeets(toks, rounds[k], style, ps[i], |toks| + 1)
    decreases k
  {
    if k > i + 1 {
      PropertyAfterRounds(toks, style, ps, rounds, i, k - 1);
      assert SameBefore(rounds[k - 1], rounds[k], ps[k - 1].span.start);
      assert DelimiterAfter(toks, ps[i].span.end) < ps[k - 1].span.start;
      PropertyMeetsCarried(toks, rounds[k - 1], rounds[k], style, ps[i], |toks| + 1, |toks| + 1);
    }
  }

  /**
   * After ObjectExpression, every property meets its Property,
   * PropertyName and PropertyValue policies and the scan after it left no
   * line break up to its `,`; only where a property runs up to the closing
   * brace does that brace's policy take the shared gap over.
   */
  lemma ObjectProperties(toks: seq<Token>, g: Gaps, style: Style, n: ObjectNode)
    requires |g| == |toks| + 1 && ObjectReady(toks, n) && PropertiesOrdered(toks, n.properties)
    ensures forall i | 0 <= i < |n.properties| ::
              PropertyMeets(toks, ObjectGaps(toks, g, style, n), style, n.properties[i], n.span.end)
  {
    var ps := n.properties;
    if |ps| > 0 {
      var rounds := ObjectRounds(toks, g, style, n);
      var r := ObjectGaps(toks, g, style, n);
      forall i | 0 <= i < |ps|
        ensures PropertyMeets(toks, r, style, ps[i], n.span.end)
      {
        PropertyAfterLoop(toks, style, ps, rounds, r, i, n.span.end);
      }
    }
  }

  /** Property `i` after the whole loop, in any layout that keeps the loop's gaps before `bound`. */
  lemma PropertyAfterLoop(toks: seq<Token>, style: Style, ps: seq<Property>, rounds: seq<Gaps>, r: Gaps, i: nat, bound: nat)
    requires PropertiesIn(toks, ps) && PropertiesOrdered(toks, ps) && Rounds(toks, style, ps, rounds) && i < |ps|
    requires |r| == |toks| + 1 && ps[i].span.end < bound <= |r| && forall x | 0 <= x < bound :: r[x] == rounds[|ps|][x]
    ensures PropertyMeets(toks, r, style, ps[i], bound)
  {
    PropertyAfterRounds(toks, style, ps, rounds, i, |ps|);
    PropertyMeetsCarried(toks, rounds[|ps|], r, style, ps[i], |toks| + 1, bound);
  }

  /**
   * The rounds of the property loop inside a non-empty object; the closing
   * brace's policy then only touches the gaps from the brace on.
   */
  lemma ObjectRounds(toks: seq<Token>, g: Gaps, style: Style, n: ObjectNode) returns (rounds: seq<Gaps>)
    requires |g| == |toks| + 1 && ObjectReady(toks, n) && |n.properties| > 0
    ensures Rounds(toks, style, n.properties, rounds)
    ensures forall x | 0 <= x < n.span.end :: ObjectGaps(toks, g, style, n)[x] == rounds[|n.properties|][x]
  {
    var braced := BrokenAround(g, n.span.start, style.brBefore(Rule.ObjectExpressionOpeningBrace),
                                               style.brAfter(Rule.ObjectExpressionOpeningBrace));
    rounds := PropertiesRounds(toks, braced, style, n.properties);
    var inner := rounds[|n.properties|];
    assert inner == PropertiesGaps(toks, braced, style, n.properties, |n.properties|);
    forall x | 0 <= x < n.span.end
      ensures ObjectGaps(toks, g, style, n)[x] == rounds[|n.properties|][x]
    {
      BrokenAroundElsewhere(inner, n.span.end, style.brBefore(Rule.ObjectExpressionClosingBrace),
                            style.brAfter(Rule.ObjectExpressionClosingBrace), x);
    }
  }

  /**
   * The scan of one property: walk from the token after `from` up to the
   * next delimiter, dropping the line breaks on the way.
   */
  method ClearBreaksToDelimiter(ts: TokenStream, from: nat) returns (stop: nat)
    requires ts.Valid() && from < |ts.tokens|
    modifies ts
    ensures ts.Valid() && ts.indent == old(ts.indent)
    ensures stop == DelimiterAfter(ts.tokens, from)
    ensures ts.gaps == RemovedBetween(old(ts.gaps), from, stop, LineBreak)
  {
    stop := from + 1;
    while stop < |ts.tokens| && !IsDelimiter(ts.tokens[stop])
      invariant from < stop <= |ts.tokens|
      invariant ts.Valid() && ts.indent == old(ts.indent)
      invariant DelimiterAfter(ts.tokens, from) == DelimiterAfter(ts.tokens, stop - 1)
      invariant ts.gaps == RemovedBetween(old(ts.gaps), from, stop - 1, LineBreak)
      decreases |ts.tokens| - stop
    {
      ts.RemoveFromGap(stop, LineBreak);
      stop := stop + 1;
    }
    ts.RemoveFromGap(stop, LineBreak);
  }

  method FormatProperty(ts: TokenStream, style: Style, p: Property)
    requires ts.Valid() && PropertyIn(ts.tokens, p)
    modifies ts
    ensures ts.Valid() && ts.indent == old(ts.indent)
    ensures ts.gaps == PropertyGaps(ts.tokens, old(ts.gaps), style, p)
  {
    ts.BrBeforeIfNeeded(style, p.span.start, Rule.Property);
    ts.WsAfterIfNeeded(style, p.key.end, Rule.PropertyName);
    var _ := ClearBreaksToDelimiter(ts, p.span.end);
    ts.WsBeforeIfNeeded(style, p.value.start, Rule.PropertyValue);
    ts.BrAfterIfNeeded(style, p.span.end, Rule.Property);
  }

  /** The property loop of ObjectExpression. */
  method FormatProperties(ts: TokenStream, style: Style, ps: seq<Property>)
    requires ts.Valid() && PropertiesIn(ts.tokens, ps)
    modifies ts
    ensures ts.Valid() && ts.indent == old(ts.indent)
    ensures ts.gaps == PropertiesGaps(ts.tokens, old(ts.gaps), style, ps, |ps|)
  {
    for i := 0 to |ps|
      invariant ts.Valid() && ts.indent == old(ts.indent)
      invariant ts.gaps == PropertiesGaps(ts.tokens, old(ts.gaps), style, ps, i)
    {
      FormatProperty(ts, style, ps[i]);
    }
  }

  method ObjectExpression(ts: TokenStream, style: Style, n: ObjectNode)
    requires ts.Valid() && ObjectReady(ts.tokens, n)
    modifies ts
    ensures ts.Valid()
    ensures ts.gaps == ObjectGaps(ts.tokens, old(ts.gaps), style, n)
    ensures ts.indent == if |n.properties| == 0 then old(ts.indent)
                         else old(ts.indent)[n.span.end := n.closingIndentLevel]
  {
    var ps := n.properties;
    if |ps| == 0 {
      return;
    }
    ts.BrAroundIfNeeded(style, n.span.start, Rule.ObjectExpressionOpeningBrace);
    FormatProperties(ts, style, ps);
    ts.BrAroundIfNeeded(style, n.span.end, Rule.ObjectExpressionClosingBrace);
    ts.IndentBefore(n.span.end, n.closingIndentLevel);
  }

  // ---------------------------------------------------------------------
  // VariableDeclaration

  /** A declarator's anchors lie in order: the name, then the initializer. */
  predicate DeclaratorIn(toks: seq<Token>, d: Declarator) {
    d.id.start <= d.id.end < |toks| &&
    (d.init.Some? ==> d.id.end < d.init.value.start <= d.init.value.end < |toks|)
  }

  /**
   * The declarators lie in order after the `var` keyword and end by the
   * statement's last token.
   */
  predicate VarReady(toks: seq<Token>, n: VarNode) {
    var ds := n.declarations;
    n.span.start < n.span.end < |toks| &&
    (forall i | 0 <= i < |ds| ::
       DeclaratorIn(toks, ds[i]) && n.span.start < ds[i].id.start && DeclaratorEnd(ds[i]) <= n.span.end) &&
    (forall i | 0 < i < |ds| :: DeclaratorEnd(ds[i - 1]) < ds[i].id.start)
  }

  /** Each declarator ends before any later one starts. */
  lemma {:induction false} DeclaratorsOrdered(toks: seq<Token>, n: VarNode, i: nat, j: nat)
    requires VarReady(toks, n) && i <= j < |n.declarations|
    ensures n.declarations[i].id.start <= n.declarations[j].id.start
    ensures i < j ==> DeclaratorEnd(n.declarations[i]) < n.declarations[j].id.start
  {
    if i < j {
      DeclaratorsOrdered(toks, n, i, j - 1);
      assert DeclaratorIn(toks, n.declarations[j - 1]);
    }
  }

  /**
   * The name of the declarator at position `i`, starting at anchor `id`,
   * meets its policy: a later declarator's line-break policy outside a for
   * header, its spacing policy inside one.
   */
  predicate NameMeets(g: Gaps, style: Style, inFor: bool, i: nat, id: nat) {
    id < |g| &&
    (i > 0 && !inFor ==> BreaksMeet(g[id], style.brBefore(Rule.VariableName))) &&
    (i > 0 && inFor ==> SpacesMeet(g[id], style.wsBefore(Rule.VariableName)))
  }

  /**
   * An initializer meets its line-break and spacing policies, and so does
   * the space after the name when a token (the `=`) lies in between.
   */
  predicate InitMeets(g: Gaps, style: Style, d: Declarator) {
    d.init.Some? ==>
      var v := d.init.value.start;
      v < |g| &&
      BreaksMeet(g[v], style.brBefore(Rule.VariableValue)) &&
      SpacesMeet(g[v], style.wsBefore(Rule.VariableValue)) &&
      (d.id.end + 1 < v ==> SpacesMeet(g[d.id.end + 1], style.wsAfter(Rule.VariableName)))
  }

  /** Whether a name meets its policy depends on its gap only. */
  lemma NameMeetsCarried(a: Gaps, b: Gaps, style: Style, inFor: bool, i: nat, id: nat)
    requires NameMeets(a, style, inFor, i, id) && |b| == |a| && b[id] == a[id]
    ensures NameMeets(b, style, inFor, i, id)
  {
  }

  /** Whether an initializer meets its policies depends on its two gaps only. */
  lemma InitMeetsCarried(a: Gaps, b: Gaps, style: Style, d: Declarator)
    requires InitMeets(a, style, d) && |b| == |a| && d.init.Some?
    requires b[d.init.value.start] == a[d.init.value.start]
    requires d.id.end + 1 < d.init.value.start ==> b[d.id.end + 1] == a[d.id.end + 1]
    ensures InitMeets(b, style, d)
  {
  }

  /**
   * The first half of a round of the declarator loop, on the declarator
   * whose name starts at anchor `id`: the first declarator loses the line
   * break right before its name; a later one gets its name's line-break
   * policy outside a for header and its name's spacing policy inside one.
   */
  function NameGaps(toks: seq<Token>, g: Gaps, style: Style, inFor: bool, i: nat, id: nat): (r: Gaps)
    requires |g| == |toks| + 1 && id < |toks|
    ensures |r| == |g|
    ensures forall x | 0 <= x < |g| && x != id :: r[x] == g[x]
    ensures i == 0 ==> r[id] == DropLastOf(g[id], LineBreak)
    ensures NameMeets(r, style, inFor, i, id)
    ensures inFor ==> forall x | 0 <= x < |g| && NoBreak(g[x]) :: NoBreak(r[x])
  {
    if i == 0 then g[id := DropLastOf(g[id], LineBreak)]
    else if !inFor then BrokenBefore(g, id, style.brBefore(Rule.VariableName))
    else SpacedBefore(g, id, style.wsBefore(Rule.VariableName))
  }

  /**
   * The second half of a round, on a declarator with an initializer: the
   * space after the name, then the initializer loses the line break right
   * before it and gets its own line-break and spacing policies.
   */
  function InitGaps(toks: seq<Token>, g: Gaps, style: Style, d: Declarator): (r: Gaps)
    requires |g| == |toks| + 1 && DeclaratorIn(toks, d) && d.init.Some?
    ensures |r| == |g|
    ensures forall x | 0 <= x < |g| && x != d.id.end + 1 && x != d.init.value.start :: r[x] == g[x]
    ensures InitMeets(r, style, d)
    ensures forall x | 0 <= x < |g| && NoBreak(g[x]) && !InitAt(d, x) :: NoBreak(r[x])
  {
    var v := d.init.value.start;
    var spaced := SpacedAfter(g, d.id.end, style.wsAfter(Rule.VariableName));
    var dropped := spaced[v := DropLastOf(spaced[v], LineBreak)];
    SpacedBefore(BrokenBefore(dropped, v, style.brBefore(Rule.VariableValue)), v, style.wsBefore(Rule.VariableValue))
  }

  /** One round of the declarator loop, for the declarator at position `i`. */
  function DeclaratorGaps(toks: seq<Token>, g: Gaps, style: Style, inFor: bool, i: nat, d: Declarator): (r: Gaps)
    requires |g| == |toks| + 1 && DeclaratorIn(toks, d)
    ensures |r| == |g|
    ensures forall x | 0 <= x < |g| && (x < d.id.start || DeclaratorEnd(d) < x) :: r[x] == g[x]
    ensures i == 0 ==> r[d.id.start] == DropLastOf(g[d.id.start], LineBreak)
    ensures NameMeets(r, style, inFor, i, d.id.start) && InitMeets(r, style, d)
    ensures inFor ==> forall x | 0 <= x < |g| && NoBreak(g[x]) && !InitAt(d, x) :: NoBreak(r[x])
  {
    var named := NameGaps(toks, g, style, inFor, i, d.id.start);
    if d.init.None? then named else InitGaps(toks, named, style, d)
  }

  /** The initializer of `d` starts at anchor `x`. */
  predicate InitAt(d: Declarator, x: nat) {
    d.init.Some? && d.init.value.start == x
  }

  /** No declarator's initializer starts at anchor `x`. */
  predicate NotAnInit(ds: seq<Declarator>, x: nat) {
    forall l | 0 <= l < |ds| :: !InitAt(ds[l], x)
  }

  /** The declarator loop over the first `k` declarators. */
  function DeclaratorsGaps(toks: seq<Token>, g: Gaps, style: Style, n: VarNode, k: nat): (r: Gaps)
    requires |g| == |toks| + 1 && VarReady(toks, n) && k <= |n.declarations|
    ensures |r| == |g|
    ensures forall x | 0 <= x < |g| && (k == 0 || x < n.declarations[0].id.start) :: r[x] == g[x]
    ensures forall x | 0 <= x < |g| && 0 < k && DeclaratorEnd(n.declarations[k - 1]) < x :: r[x] == g[x]
    ensures 0 < k ==> r[n.declarations[0].id.start] == DropLastOf(g[n.declarations[0].id.start], LineBreak)
    ensures n.parentIsFor ==>
              forall x | 0 <= x < |g| && NoBreak(g[x]) && NotAnInit(n.declarations, x) :: NoBreak(r[x])
  {
    if k == 0 then g
    else
      DeclaratorsOrdered(toks, n, 0, k - 1);
      DeclaratorGaps(toks, DeclaratorsGaps(toks, g, style, n, k - 1), style, n.parentIsFor, k - 1, n.declarations[k - 1])
  }

  /** After `k` rounds of the declarator loop, each of the first `k` declarators meets its policies. */
  lemma {:induction false} DeclaratorsMeet(toks: seq<Token>, g: Gaps, style: Style, n: VarNode, k: nat)
    requires |g| == |toks| + 1 && VarReady(toks, n) && k <= |n.declarations|
    ensures var r := DeclaratorsGaps(toks, g, style, n, k);
            forall i | 0 <= i < k ::
              NameMeets(r, style, n.parentIsFor, i, n.declarations[i].id.start) && InitMeets(r, style, n.declarations[i])
  {
    if k > 0 {
      DeclaratorsMeet(toks, g, style, n, k - 1);
      EarlierStillMeet(toks, DeclaratorsGaps(toks, g, style, n, k - 1), style, n, k);
    }
  }

  /** A round of the declarator loop keeps what the earlier rounds achieved. */
  lemma EarlierStillMeet(toks: seq<Token>, prev: Gaps, style: Style, n: VarNode, k: nat)
    requires |prev| == |toks| + 1 && VarReady(toks, n) && 0 < k <= |n.declarations|
    requires forall i | 0 <= i < k - 1 ::
               NameMeets(prev, style, n.parentIsFor, i, n.declarations[i].id.start) && InitMeets(prev, style, n.declarations[i])
    ensures var r := DeclaratorGaps(toks, prev, style, n.parentIsFor, k - 1, n.declarations[k - 1]);
            forall i | 0 <= i < k ::
              NameMeets(r, style, n.parentIsFor, i, n.declarations[i].id.start) && InitMeets(r, style, n.declarations[i])
  {
    var ds := n.declarations;
    var r := DeclaratorGaps(toks, prev, style, n.parentIsFor, k - 1, ds[k - 1]);
    forall i | 0 <= i < k - 1
      ensures NameMeets(r, style, n.parentIsFor, i, ds[i].id.start) && InitMeets(r, style, ds[i])
    {
      DeclaratorsOrdered(toks, n, i, k - 1);
      assert DeclaratorIn(toks, ds[i]);
      NameMeetsCarried(prev, r, style, n.parentIsFor, i, ds[i].id.start);
      if ds[i].init.Some? {
        InitMeetsCarried(prev, r, style, ds[i]);
      }
    }
  }

  /**
   * The layout after the declarator loop of VariableDeclaration: inside a
   * for header the line breaks between the statement's first and last
   * tokens go first.
   */
  function VarDeclared(toks: seq<Token>, g: Gaps, style: Style, n: VarNode): (r: Gaps)
    requires |g| == |toks| + 1 && VarReady(toks, n)
    ensures |r| == |g|
  {
    var joined := if n.parentIsFor then RemovedBetween(g, n.span.start, n.span.end, LineBreak) else g;
    DeclaratorsGaps(toks, joined, style, n, |n.declarations|)
  }

  /** After the declarator loop, every declarator meets its policies. */
  lemma VarDeclaredMeets(toks: seq<Token>, g: Gaps, style: Style, n: VarNode)
    requires |g| == |toks| + 1 && VarReady(toks, n)
    ensures var r := VarDeclared(toks, g, style, n);
            forall i | 0 <= i < |n.declarations| ::
              NameMeets(r, style, n.parentIsFor, i, n.declarations[i].id.start) && InitMeets(r, style, n.declarations[i])
  {
    var joined := if n.parentIsFor then RemovedBetween(g, n.span.start, n.span.end, LineBreak) else g;
    DeclaratorsMeet(toks, joined, style, n, |n.declarations|);
  }

  /**
   * The layout VariableDeclaration leaves: the declarator loop, then one
   * space after the `var` keyword where the style wants one.  Nothing
   * outside the statement changes.
   */
  function VarGaps(toks: seq<Token>, g: Gaps, style: Style, n: VarNode): (r: Gaps)
    requires |g| == |toks| + 1 && VarReady(toks, n)
    ensures |r| == |g|
    ensures forall x | 0 <= x < |g| && (x <= n.span.start || n.span.end < x) :: r[x] == g[x]
    ensures forall x | 0 <= x < |g| && x != n.span.start + 1 :: r[x] == VarDeclared(toks, g, style, n)[x]
  {
    var s := n.span.start;
    var declared := VarDeclared(toks, g, style, n);
    if style.spaceAfterToken(toks[s]) then SpacedAfter(declared, s, Exactly(1)) else declared
  }

  /**
   * The indentation VariableDeclaration records over the first `k`
   * declarators: outside a for header, every declarator but the first is
   * indented one level deeper than the statement.
   */
  function VarIndent(ind: map<nat, nat>, n: VarNode, k: nat): (r: map<nat, nat>)
    requires k <= |n.declarations|
    ensures n.parentIsFor ==> r == ind
    ensures forall x | x in ind :: x in r
    ensures forall x | x in r && x !in ind :: r[x] == n.indentLevel + 1
  {
    if k == 0 then ind
    else
      var prev := VarIndent(ind, n, k - 1);
      if k - 1 > 0 && !n.parentIsFor then prev[n.declarations[k - 1].id.start := n.indentLevel + 1] else prev
  }

  /**
   * Outside a for header, every later declarator's name is recorded one
   * level deeper than the statement; nothing else is recorded, and inside
   * a for header nothing is.
   */
  lemma {:induction false} VarIndentLevels(ind: map<nat, nat>, n: VarNode, k: nat)
    requires k <= |n.declarations|
    ensures var r := VarIndent(ind, n, k);
            (forall i | 0 < i < k && !n.parentIsFor ::
               n.declarations[i].id.start in r && r[n.declarations[i].id.start] == n.indentLevel + 1) &&
            (forall x | x in ind :: x in r) &&
            (forall x | x in r :: (x in ind && r[x] == ind[x]) || r[x] == n.indentLevel + 1) &&
            (n.parentIsFor ==> r == ind)
  {
    if k > 0 {
      VarIndentLevels(ind, n, k - 1);
    }
  }

  /**
   * Outside a for header, the first declarator's name loses exactly the
   * line break right before it, if there is one.
   */
  lemma VarFirstName(toks: seq<Token>, g: Gaps, style: Style, n: VarNode)
    requires |g| == |toks| + 1 && VarReady(toks, n) && |n.declarations| > 0 && !n.parentIsFor
    ensures var id := n.declarations[0].id.start;
            CountBreaks(VarGaps(toks, g, style, n)[id]) ==
            CountBreaks(g[id]) - (if LastIsNotBreak(g[id]) then 0 else 1)
  {
    var id := n.declarations[0].id.start;
    DropLastBreak(g[id]);
    assert CountBreaks(VarGaps(toks, g, style, n)[id]) == CountBreaks(VarDeclared(toks, g, style, n)[id]);
  }

  /**
   * Every later declarator's name meets its policy: its line-break policy
   * outside a for header, its spacing policy inside one.
   */
  lemma VarLaterName(toks: seq<Token>, g: Gaps, style: Style, n: VarNode, i: nat)
    requires |g| == |toks| + 1 && VarReady(toks, n) && 0 < i < |n.declarations|
    ensures NameMeets(VarGaps(toks, g, style, n), style, n.parentIsFor, i, n.declarations[i].id.start)
  {
    VarDeclaredMeets(toks, g, style, n);
    DeclaratorsOrdered(toks, n, 0, i);
    NameMeetsCarried(VarDeclared(toks, g, style, n), VarGaps(toks, g, style, n), style, n.parentIsFor, i, n.declarations[i].id.start);
  }

  /** Every initializer, and the space after its name, meets its policies. */
  lemma VarInit(toks: seq<Token>, g: Gaps, style: Style, n: VarNode, i: nat)
    requires |g| == |toks| + 1 && VarReady(toks, n) && i < |n.declarations|
    ensures InitMeets(VarGaps(toks, g, style, n), style, n.declarations[i])
  {
    var d := n.declarations[i];
    if d.init.Some? {
      VarDeclaredMeets(toks, g, style, n);
      assert DeclaratorIn(toks, d) && n.span.start < d.id.start;
      InitMeetsCarried(VarDeclared(toks, g, style, n), VarGaps(toks, g, style, n), style, d);
    }
  }

  /** Where the style wants it, exactly one space follows the `var` keyword. */
  lemma VarKeyword(toks: seq<Token>, g: Gaps, style: Style, n: VarNode)
    requires |g| == |toks| + 1 && VarReady(toks, n) && style.spaceAfterToken(toks[n.span.start])
    ensures SpacesMeet(VarGaps(toks, g, style, n)[n.span.start + 1], Exactly(1))
  {
  }

  /**
   * Inside a for header, VariableDeclaration leaves no line break between
   * its first and last tokens, except where an initializer's line-break
   * policy asks for one.
   */
  lemma VarInForHeader(toks: seq<Token>, g: Gaps, style: Style, n: VarNode)
    requires |g| == |toks| + 1 && VarReady(toks, n) && n.parentIsFor
    ensures var r := VarGaps(toks, g, style, n);
            forall j | n.span.start < j <= n.span.end && NotAnInit(n.declarations, j) :: NoBreak(r[j])
  {
    var s, e := n.span.start, n.span.end;
    var joined := RemovedBetween(g, s, e, LineBreak);
    forall j | s < j <= e && NotAnInit(n.declarations, j)
      ensures NoBreak(VarGaps(toks, g, style, n)[j])
    {
      assert NoBreak(joined[j]);
    }
  }

  /**
   * Running VariableDeclaration on its own layout can change it again:
   * before the first name the hook drops only the line break right before
   * it, so `var`, two line breaks, `a` keeps one line break after the first
   * run and none after the second.
   */
  lemma VarGapsNotIdempotent()
    ensures var toks := [Token(Keyword, "var"), Token(Identifier, "a")];
            var g: Gaps := [[], [BreakToken, BreakToken], []];
            var style := Style(_ => Keep, _ => Keep, _ => Keep, _ => Keep, _ => false);
            var n := VarNode(Span(0, 1), [Declarator(Span(1, 1), None)], false, 0);
            VarReady(toks, n) &&
            VarGaps(toks, g, style, n) == [[], [BreakToken], []] &&
            VarGaps(toks, VarGaps(toks, g, style, n), style, n) == [[], [], []]
  {
    var toks := [Token(Keyword, "var"), Token(Identifier, "a")];
    var style := Style(_ => Keep, _ => Keep, _ => Keep, _ => Keep, _ => false);
    var n := VarNode(Span(0, 1), [Declarator(Span(1, 1), None)], false, 0);
    assert VarReady(toks, n);
    var g: Gaps := [[], [BreakToken, BreakToken], []];
    var once: Gaps := [[], [BreakToken], []];
    assert DropLastOf(g[1], LineBreak) == once[1];
    assert DeclaratorsGaps(toks, g, style, n, 1) == DeclaratorGaps(toks, g, style, false, 0, n.declarations[0]);
    assert VarGaps(toks, g, style, n) == once;
    assert DropLastOf(once[1], LineBreak) == [];
    assert DeclaratorsGaps(toks, once, style, n, 1) == DeclaratorGaps(toks, once, style, false, 0, n.declarations[0]);
    assert VarGaps(toks, once, style, n) == [[], [], []];
  }

  /**
   * The first declarator's round as evidently intended: every line break
   * right before the name goes, so the name stays on the keyword's line
   * and a second run changes nothing.
   */
  function FirstNameSettled(toks: seq<Token>, g: Gaps, id: nat): (r: Gaps)
    requires |g| == |toks| + 1 && id < |toks|
    ensures |r| == |g| && LastIsNotBreak(r[id])
    ensures forall x | 0 <= x < |g| && x != id :: r[x] == g[x]
  {
    g[id := DropTrailingOf(g[id], LineBreak)]
  }

  /** The intended first round is idempotent, where `NameGaps` is not. */
  lemma FirstNameSettledIdempotent(toks: seq<Token>, g: Gaps, id: nat)
    requires |g| == |toks| + 1 && id < |toks|
    ensures FirstNameSettled(toks, FirstNameSettled(toks, g, id), id) == FirstNameSettled(toks, g, id)
    ensures g[id] == [BreakToken, BreakToken] ==>
              NameGaps(toks, NameGaps(toks, g, Style(_ => Keep, _ => Keep, _ => Keep, _ => Keep, _ => false), false, 0, id),
                       Style(_ => Keep, _ => Keep, _ => Keep, _ => Keep, _ => false), false, 0, id)
              != NameGaps(toks, g, Style(_ => Keep, _ => Keep, _ => Keep, _ => Keep, _ => false), false, 0, id)
  {
    DropTrailingOfSettled(g[id], LineBreak);
    var r := FirstNameSettled(toks, g, id);
    assert r[id := DropTrailingOf(r[id], LineBreak)] == r;
    if g[id] == [BreakToken, BreakToken] {
      var style := Style(_ => Keep, _ => Keep, _ => Keep, _ => Keep, _ => false);
      assert NameGaps(toks, g, style, false, 0, id)[id] == [BreakToken];
      assert NameGaps(toks, NameGaps(toks, g, style, false, 0, id), style, false, 0, id)[id] == [];
    }
  }

  /**
   * Running the initializer's round on its own layout can change it again:
   * before the value it drops only the line break right before it, so `a`,
   * `=`, two line breaks, `1` keeps one line break after the first round and
   * none after the second.
   */
  lemma InitGapsNotIdempotent()
    ensures var toks := [Token(Identifier, "a"), Token(Punctuator, "="), Token(Literal, "1")];
            var g: Gaps := [[], [], [BreakToken, BreakToken], []];
            var style := Style(_ => Keep, _ => Keep, _ => Keep, _ => Keep, _ => false);
            var d := Declarator(Span(0, 0), Some(Span(2, 2)));
            DeclaratorIn(toks, d) &&
            InitGaps(toks, g, style, d) == [[], [], [BreakToken], []] &&
            InitGaps(toks, InitGaps(toks, g, style, d), style, d) == [[], [], [], []]
  {
    var g: Gaps := [[], [], [BreakToken, BreakToken], []];
    assert DropLastOf(g[2], LineBreak) == [BreakToken];
    assert DropLastOf([BreakToken], LineBreak) == [];
  }

  /**
   * The initializer's round as evidently intended: the space after the
   * name, then every line break right before the value goes before the
   * value's own line-break and spacing policies apply.
   */
  function InitSettled(toks: seq<Token>, g: Gaps, style: Style, d: Declarator): (r: Gaps)
    requires |g| == |toks| + 1 && DeclaratorIn(toks, d) && d.init.Some?
    ensures |r| == |g|
    ensures forall x | 0 <= x < |g| && x != d.id.end + 1 && x != d.init.value.start :: r[x] == g[x]
    ensures InitMeets(r, style, d)
    ensures style.brBefore(Rule.VariableValue).Keep? ==> LastIsNotBreak(r[d.init.value.start])
  {
    var v := d.init.value.start;
    var spaced := SpacedAfter(g, d.id.end, style.wsAfter(Rule.VariableName));
    SpacingKeepsBreaks(BrokenSettled(spaced[v], style.brBefore(Rule.VariableValue)),
                       style.wsBefore(Rule.VariableValue), style.brBefore(Rule.VariableValue));
    spaced[v := SetSpace(BrokenSettled(spaced[v], style.brBefore(Rule.VariableValue)), style.wsBefore(Rule.VariableValue))]
  }

  /** With the `=` between name and value, the intended round is idempotent, where `InitGaps` is not. */
  lemma InitSettledIdempotent(toks: seq<Token>, g: Gaps, style: Style, d: Declarator)
    requires |g| == |toks| + 1 && DeclaratorIn(toks, d) && d.init.Some? && d.id.end + 1 < d.init.value.start
    ensures var r := InitSettled(toks, g, style, d);
            InitSettled(toks, r, style, d) == r
  {
    var v := d.init.value.start;
    var r := InitSettled(toks, g, style, d);
    SpacedBeforeSettled(r, d.id.end + 1, style.wsAfter(Rule.VariableName));
    BrokenSettledRestored(SpacedAfter(g, d.id.end, style.wsAfter(Rule.VariableName))[v],
                          style.brBefore(Rule.VariableValue), style.wsBefore(Rule.VariableValue), Keep);
    assert r[v := r[v]] == r;
  }

  /** The name half of a round of the declarator loop. */
  method FormatName(ts: TokenStream, style: Style, n: VarNode, i: nat)
    requires ts.Valid() && i < |n.declarations| && n.declarations[i].id.start < |ts.tokens|
    modifies ts
    ensures ts.Valid()
    ensures ts.gaps == NameGaps(ts.tokens, old(ts.gaps), style, n.parentIsFor, i, n.declarations[i].id.start)
    ensures ts.indent == if i > 0 && !n.parentIsFor then old(ts.indent)[n.declarations[i].id.start := n.indentLevel + 1]
                         else old(ts.indent)
  {
    var id := n.declarations[i].id.start;
    if i == 0 {
      ts.RemoveAdjacentBefore(id, LineBreak);
    } else if !n.parentIsFor {
      ts.BrBeforeIfNeeded(style, id, Rule.VariableName);
      ts.IndentBefore(id, n.indentLevel + 1);
    } else {
      ts.WsBeforeIfNeeded(style, id, Rule.VariableName);
    }
  }

  /** The initializer half of a round of the declarator loop. */
  method FormatInit(ts: TokenStream, style: Style, d: Declarator)
    requires ts.Valid() && DeclaratorIn(ts.tokens, d) && d.init.Some?
    modifies ts
    ensures ts.Valid() && ts.indent == old(ts.indent)
    ensures ts.gaps == InitGaps(ts.tokens, old(ts.gaps), style, d)
  {
    var v := d.init.value.start;
    ts.WsAfterIfNeeded(style, d.id.end, Rule.VariableName);
    ts.RemoveAdjacentBefore(v, LineBreak);
    ts.BrBeforeIfNeeded(style, v, Rule.VariableValue);
    ts.WsBeforeIfNeeded(style, v, Rule.VariableValue);
  }

  /** One round of the declarator loop. */
  method FormatDeclarator(ts: TokenStream, style: Style, n: VarNode, i: nat, ghost ind0: map<nat, nat>)
    requires ts.Valid() && VarReady(ts.tokens, n) && i < |n.declarations|
    requires ts.indent == VarIndent(ind0, n, i)
    modifies ts
    ensures ts.Valid()
    ensures ts.gaps == DeclaratorGaps(ts.tokens, old(ts.gaps), style, n.parentIsFor, i, n.declarations[i])
    ensures ts.indent == VarIndent(ind0, n, i + 1)
  {
    var d := n.declarations[i];
    FormatName(ts, style, n, i);
    if d.init.Some? {
      FormatInit(ts, style, d);
    }
  }

  /** The declarator loop of VariableDeclaration. */
  method FormatDeclarators(ts: TokenStream, style: Style, n: VarNode)
    requires ts.Valid() && VarReady(ts.tokens, n)
    modifies ts
    ensures ts.Valid()
    ensures ts.gaps == DeclaratorsGaps(ts.tokens, old(ts.gaps), style, n, |n.declarations|)
    ensures ts.indent == VarIndent(old(ts.indent), n, |n.declarations|)
  {
    ghost var g0, ind0 := ts.gaps, ts.indent;
    for i := 0 to |n.declarations|
      invariant ts.Valid() && |g0| == |ts.tokens| + 1
      invariant ts.gaps == DeclaratorsGaps(ts.tokens, g0, style, n, i)
      invariant ts.indent == VarIndent(ind0, n, i)
    {
      FormatDeclarator(ts, style, n, i, ind0);
    }
  }

  method VariableDeclaration(ts: TokenStream, style: Style, n: VarNode)
    requires ts.Valid() && VarReady(ts.tokens, n)
    modifies ts
    ensures ts.Valid()
    ensures ts.gaps == VarGaps(ts.tokens, old(ts.gaps), style, n)
    ensures ts.indent == VarIndent(old(ts.indent), n, |n.declarations|)
  {
    var s := n.span.start;
    if n.parentIsFor {
      ts.RemoveInBetween(s, n.span.end, LineBreak);
    }
    FormatDeclarators(ts, style, n);
    if style.spaceAfterToken(ts.tokens[s]) {
      ts.WsAfter(s);
    }
  }
}
