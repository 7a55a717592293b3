/**
 * The expression hooks of lib/hooks.js, together with FunctionDeclaration:
 * each is a method on the shared `TokenStream`, and the layout it leaves
 * is a pure function of the layout it found.  The properties of each hook
 * are stated on that function.
 */
module ExpressionHooks {
  import opened Tokens
  import opened Layout
  import opened Stream
  import opened Ast

  // ---------------------------------------------------------------------
  // Commas that directly follow an anchor (parameters, arguments)

  /**
   * One round of the comma loop: space the raw `next` of `toks[a]` when
   * its value is `,`.  Because the link is raw, a comma behind any layout
   * is not reached, so only a comma glued to the anchor is spaced
   * (`GluedIsRawNextComma`; a layout token never reads `,`: see
   * `CommaIsSignificant`).
   */
  function CommaSpaced(toks: seq<Token>, g: Gaps, a: nat, before: Req, after: Req): (r: Gaps)
    requires |g| == |toks| + 1 && a < |toks|
    ensures |r| == |g|
    ensures Glued(toks, g, a) ==> SpacesMeet(r[a + 1], before) && SpacesMeet(r[a + 2], after)
    ensures forall x | 0 <= x < |g| && (Glued(toks, g, a) ==> x != a + 1 && x != a + 2) :: r[x] == g[x]
  {
    if Glued(toks, g, a) then SpacedAround(g, a + 1, before, after) else g
  }

  /** The token right after anchor `a` is a `,` with no layout in between. */
  predicate Glued(toks: seq<Token>, g: Gaps, a: nat) {
    a + 1 < |toks| && a + 1 < |g| && g[a + 1] == [] && toks[a + 1].value == ","
  }

  /** The raw `next` of `toks[a]` is a significant `,` exactly when that comma is glued to it. */
  lemma GluedIsRawNextComma(toks: seq<Token>, g: Gaps, a: nat)
    requires |g| == |toks| + 1 && a < |toks|
    ensures var nx := Next(toks, g, At(a));
            Glued(toks, g, a) <==> nx.Some? && nx.value.At? && ValueAt(toks, g, nx.value) == ","
    ensures Glued(toks, g, a) ==> Next(toks, g, At(a)) == Some(At(a + 1))
  {
  }

  /** In a stream whose gaps hold layout only, a token that reads `,` is a significant one. */
  lemma CommaIsSignificant(toks: seq<Token>, g: Gaps, c: Cursor)
    requires |g| == |toks| + 1 && forall i | 0 <= i < |g| :: AllLayout(g[i])
    requires ValidCursor(toks, g, c) && ValueAt(toks, g, c) == ","
    ensures c.At?
  {
    assert ',' in ",";
  }

  /** The comma loop over the first `k` anchors. */
  function CommasSpaced(toks: seq<Token>, g: Gaps, anchors: seq<nat>, before: Req, after: Req, k: nat): (r: Gaps)
    requires |g| == |toks| + 1 && k <= |anchors|
    requires forall i | 0 <= i < |anchors| :: anchors[i] < |toks|
    ensures |r| == |g|
    decreases k
  {
    if k == 0 then g
    else CommaSpaced(toks, CommasSpaced(toks, g, anchors, before, after, k - 1), anchors[k - 1], before, after)
  }

  method SpaceCommas(ts: TokenStream, style: Style, anchors: seq<nat>, rule: Rule)
    requires ts.Valid() && forall i | 0 <= i < |anchors| :: anchors[i] < |ts.tokens|
    modifies ts
    ensures ts.Valid() && ts.indent == old(ts.indent)
    ensures ts.gaps == CommasSpaced(ts.tokens, old(ts.gaps), anchors, style.wsBefore(rule), style.wsAfter(rule), |anchors|)
  {
    for k := 0 to |anchors|
      invariant ts.Valid() && ts.indent == old(ts.indent)
      invariant ts.gaps == CommasSpaced(ts.tokens, old(ts.gaps), anchors, style.wsBefore(rule), style.wsAfter(rule), k)
    {
      var nx := Next(ts.tokens, ts.gaps, At(anchors[k]));
      GluedIsRawNextComma(ts.tokens, ts.gaps, anchors[k]);
      if nx.Some? && ValueAt(ts.tokens, ts.gaps, nx.value) == "," {
        CommaIsSignificant(ts.tokens, ts.gaps, nx.value);
        ts.WsAroundCursor(style, nx.value, rule);
      }
    }
  }

  /** Anchors at least two apart, in increasing order: their commas' gaps never meet. */
  predicate Spread(anchors: seq<nat>) {
    forall j, l | 0 <= j < l < |anchors| :: anchors[j] + 2 <= anchors[l]
  }

  /** Gap `x` is on neither side of a comma glued to one of the anchors. */
  predicate ClearOfCommas(toks: seq<Token>, g: Gaps, anchors: seq<nat>, x: nat) {
    forall i | 0 <= i < |anchors| && Glued(toks, g, anchors[i]) :: x != anchors[i] + 1 && x != anchors[i] + 2
  }

  /** The comma loop leaves alone every gap past the commas it may reach. */
  lemma {:induction false} CommasSpacedBeyond(toks: seq<Token>, g: Gaps, anchors: seq<nat>, before: Req, after: Req,
                                              k: nat, x: nat)
    requires |g| == |toks| + 1 && k <= |anchors| && x < |g|
    requires forall i | 0 <= i < |anchors| :: anchors[i] < |toks|
    requires forall i | 0 <= i < k :: anchors[i] + 2 < x
    ensures CommasSpaced(toks, g, anchors, before, after, k)[x] == g[x]
  {
    if k > 0 {
      CommasSpacedBeyond(toks, g, anchors, before, after, k - 1, x);
    }
  }

  /** The comma loop changes only the gaps on either side of a glued comma. */
  lemma {:induction false} CommasSpacedElsewhere(toks: seq<Token>, g: Gaps, anchors: seq<nat>, before: Req, after: Req,
                                                 k: nat, x: nat)
    requires |g| == |toks| + 1 && k <= |anchors| && x < |g| && Spread(anchors)
    requires forall i | 0 <= i < |anchors| :: anchors[i] < |toks|
    requires forall i | 0 <= i < k && Glued(toks, g, anchors[i]) :: x != anchors[i] + 1 && x != anchors[i] + 2
    ensures CommasSpaced(toks, g, anchors, before, after, k)[x] == g[x]
  {
    if k > 0 {
      var a := anchors[k - 1];
      var prev := CommasSpaced(toks, g, anchors, before, after, k - 1);
      CommasSpacedElsewhere(toks, g, anchors, before, after, k - 1, x);
      if a + 1 < |g| {
        CommasSpacedBeyond(toks, g, anchors, before, after, k - 1, a + 1);
      }
      assert Glued(toks, prev, a) == Glued(toks, g, a);
    }
  }

  /** After the comma loop, a comma glued to an anchor meets its policy on both sides. */
  lemma {:induction false} CommasSpacedMeets(toks: seq<Token>, g: Gaps, anchors: seq<nat>, before: Req, after: Req,
                                             k: nat, i: nat)
    requires |g| == |toks| + 1 && i < k <= |anchors| && Spread(anchors)
    requires forall j | 0 <= j < |anchors| :: anchors[j] < |toks|
    requires Glued(toks, g, anchors[i])
    ensures var r := CommasSpaced(toks, g, anchors, before, after, k);
            SpacesMeet(r[anchors[i] + 1], before) && SpacesMeet(r[anchors[i] + 2], after)
  {
    var a := anchors[i];
    var prev := CommasSpaced(toks, g, anchors, before, after, k - 1);
    if i == k - 1 {
      CommasSpacedBeyond(toks, g, anchors, before, after, k - 1, a + 1);
    } else {
      CommasSpacedMeets(toks, g, anchors, before, after, k - 1, i);
    }
  }

  function Starts(spans: seq<Span>): (r: seq<nat>)
    ensures |r| == |spans| && forall i | 0 <= i < |spans| :: r[i] == spans[i].start
  {
    seq(|spans|, i requires 0 <= i < |spans| => spans[i].start)
  }

  function Ends(spans: seq<Span>): (r: seq<nat>)
    ensures |r| == |spans| && forall i | 0 <= i < |spans| :: r[i] == spans[i].end
  {
    seq(|spans|, i requires 0 <= i < |spans| => spans[i].end)
  }

  /** Items in order, with at least one token (their comma) between two of them. */
  predicate ItemsApart(items: seq<Span>) {
    forall i, j | 0 <= i < j < |items| :: items[i].end + 1 < items[j].start
  }

  /** Each item's comma is looked for after one of the item's own tokens. */
  predicate AnchoredIn(items: seq<Span>, anchors: seq<nat>) {
    |anchors| == |items| && forall i | 0 <= i < |items| :: items[i].start <= anchors[i] <= items[i].end
  }

  /**
   * A parameter or argument list: space before the first item, around
   * each comma reached from an anchor, after the last item.
   */
  function ListSpaced(toks: seq<Token>, g: Gaps, style: Style, items: seq<Span>, anchors: seq<nat>,
                      listRule: Rule, commaRule: Rule): (r: Gaps)
    requires |g| == |toks| + 1 && |items| > 0
    requires forall i | 0 <= i < |items| :: items[i].start <= items[i].end < |toks|
    requires forall i | 0 <= i < |anchors| :: anchors[i] < |toks|
    ensures |r| == |g|
    ensures SpacesMeet(r[items[|items| - 1].end + 1], style.wsAfter(listRule))
  {
    var first := SpacedBefore(g, items[0].start, style.wsBefore(listRule));
    var commas := CommasSpaced(toks, first, anchors, style.wsBefore(commaRule), style.wsAfter(commaRule), |anchors|);
    SpacedAfter(commas, items[|items| - 1].end, style.wsAfter(listRule))
  }

  /**
   * A spaced list: the gap before the first item and the gap after the
   * last one meet the list's policies; a comma glued to the anchor of any
   * item but the last meets the comma's policies on both sides; every
   * other gap is unchanged.
   */
  lemma ListLayout(toks: seq<Token>, g: Gaps, style: Style, items: seq<Span>, anchors: seq<nat>,
                   listRule: Rule, commaRule: Rule)
    requires |g| == |toks| + 1 && |items| > 0
    requires forall i | 0 <= i < |items| :: items[i].start <= items[i].end < |toks|
    requires ItemsApart(items) && AnchoredIn(items, anchors)
    ensures var r := ListSpaced(toks, g, style, items, anchors, listRule, commaRule);
            var last := items[|items| - 1].end + 1;
            SpacesMeet(r[items[0].start], style.wsBefore(listRule)) &&
            SpacesMeet(r[last], style.wsAfter(listRule)) &&
            (forall i | 0 <= i < |items| - 1 && Glued(toks, g, anchors[i]) ::
               SpacesMeet(r[anchors[i] + 1], style.wsBefore(commaRule)) &&
               SpacesMeet(r[anchors[i] + 2], style.wsAfter(commaRule))) &&
            forall x | 0 <= x < |g| && x != items[0].start && x != last && ClearOfCommas(toks, g, anchors, x) :: r[x] == g[x]
  {
    ListSpacedMeets(toks, g, style, items, anchors, listRule, commaRule);
    forall x | 0 <= x < |g| && x != items[0].start && x != items[|items| - 1].end + 1 && ClearOfCommas(toks, g, anchors, x)
      ensures ListSpaced(toks, g, style, items, anchors, listRule, commaRule)[x] == g[x]
    {
      ListSpacedElsewhere(toks, g, style, items, anchors, listRule, commaRule, x);
    }
  }

  /** The policy half of `ListLayout`. */
  lemma ListSpacedMeets(toks: seq<Token>, g: Gaps, style: Style, items: seq<Span>, anchors: seq<nat>,
                        listRule: Rule, commaRule: Rule)
    requires |g| == |toks| + 1 && |items| > 0
    requires forall i | 0 <= i < |items| :: items[i].start <= items[i].end < |toks|
    requires ItemsApart(items) && AnchoredIn(items, anchors)
    ensures var r := ListSpaced(toks, g, style, items, anchors, listRule, commaRule);
            SpacesMeet(r[items[0].start], style.wsBefore(listRule)) &&
            SpacesMeet(r[items[|items| - 1].end + 1], style.wsAfter(listRule)) &&
            forall i | 0 <= i < |items| - 1 && Glued(toks, g, anchors[i]) ::
              SpacesMeet(r[anchors[i] + 1], style.wsBefore(commaRule)) &&
              SpacesMeet(r[anchors[i] + 2], style.wsAfter(commaRule))
  {
    var s0, L := items[0].start, |items| - 1;
    var cb, ca := style.wsBefore(commaRule), style.wsAfter(commaRule);
    var first := SpacedBefore(g, s0, style.wsBefore(listRule));
    var commas := CommasSpaced(toks, first, anchors, cb, ca, |anchors|);
    var r := SpacedAfter(commas, items[L].end, style.wsAfter(listRule));
    AnchorsSpread(items, anchors);
    ListGlued(toks, g, style, items, anchors, listRule);
    CommasSpacedElsewhere(toks, first, anchors, cb, ca, |anchors|, s0);
    forall i | 0 <= i < L && Glued(toks, g, anchors[i])
      ensures SpacesMeet(r[anchors[i] + 1], cb) && SpacesMeet(r[anchors[i] + 2], ca)
    {
      assert items[i].end + 1 < items[i + 1].start && (i + 1 == L || items[i + 1].end + 1 < items[L].start);
      CommasSpacedMeets(toks, first, anchors, cb, ca, |anchors|, i);
    }
  }

  /** `ListSpacedMeets` for the comma of one item. */
  lemma ListCommaMeets(toks: seq<Token>, g: Gaps, style: Style, items: seq<Span>, anchors: seq<nat>,
                       listRule: Rule, commaRule: Rule, i: nat)
    requires |g| == |toks| + 1 && |items| > 0
    requires forall i | 0 <= i < |items| :: items[i].start <= items[i].end < |toks|
    requires ItemsApart(items) && AnchoredIn(items, anchors)
    requires i < |items| - 1 && Glued(toks, g, anchors[i])
    ensures var r := ListSpaced(toks, g, style, items, anchors, listRule, commaRule);
            SpacesMeet(r[anchors[i] + 1], style.wsBefore(commaRule)) &&
            SpacesMeet(r[anchors[i] + 2], style.wsAfter(commaRule))
  {
    ListSpacedMeets(toks, g, style, items, anchors, listRule, commaRule);
  }

  /** The frame half of `ListLayout`. */
  lemma ListSpacedElsewhere(toks: seq<Token>, g: Gaps, style: Style, items: seq<Span>, anchors: seq<nat>,
                            listRule: Rule, commaRule: Rule, x: nat)
    requires |g| == |toks| + 1 && |items| > 0
    requires forall i | 0 <= i < |items| :: items[i].start <= items[i].end < |toks|
    requires ItemsApart(items) && AnchoredIn(items, anchors)
    requires x < |g| && x != items[0].start && x != items[|items| - 1].end + 1 && ClearOfCommas(toks, g, anchors, x)
    ensures ListSpaced(toks, g, style, items, anchors, listRule, commaRule)[x] == g[x]
  {
    var first := SpacedBefore(g, items[0].start, style.wsBefore(listRule));
    AnchorsSpread(items, anchors);
    ListGlued(toks, g, style, items, anchors, listRule);
    CommasSpacedElsewhere(toks, first, anchors, style.wsBefore(commaRule), style.wsAfter(commaRule), |anchors|, x);
  }

  /** Anchors taken one per item, items in order: the anchors are spread. */
  lemma AnchorsSpread(items: seq<Span>, anchors: seq<nat>)
    requires ItemsApart(items) && AnchoredIn(items, anchors)
    ensures Spread(anchors)
  {
    forall j, l | 0 <= j < l < |anchors| ensures anchors[j] + 2 <= anchors[l] {
      assert items[j].end + 1 < items[l].start;
    }
  }

  /** Spacing before the first item leaves every anchor's comma as glued as it was. */
  lemma ListGlued(toks: seq<Token>, g: Gaps, style: Style, items: seq<Span>, anchors: seq<nat>, listRule: Rule)
    requires |g| == |toks| + 1 && |items| > 0 && items[0].start < |g|
    requires ItemsApart(items) && AnchoredIn(items, anchors)
    ensures var first := SpacedBefore(g, items[0].start, style.wsBefore(listRule));
            forall i | 0 <= i < |anchors| ::
              items[0].start <= anchors[i] && Glued(toks, first, anchors[i]) == Glued(toks, g, anchors[i])
  {
    forall i | 0 <= i < |anchors| ensures items[0].start <= anchors[i] {
      assert i == 0 || items[0].end + 1 < items[i].start;
    }
  }

  /** A comma loop over commas that already meet their policies changes nothing. */
  lemma {:induction false} CommasSpacedSettled(toks: seq<Token>, g: Gaps, anchors: seq<nat>, before: Req, after: Req,
                                               k: nat)
    requires |g| == |toks| + 1 && k <= |anchors|
    requires forall i | 0 <= i < |anchors| :: anchors[i] < |toks|
    requires forall i | 0 <= i < k && Glued(toks, g, anchors[i]) ::
               SpacesMeet(g[anchors[i] + 1], before) && SpacesMeet(g[anchors[i] + 2], after)
    ensures CommasSpaced(toks, g, anchors, before, after, k) == g
  {
    if k > 0 {
      CommasSpacedSettled(toks, g, anchors, before, after, k - 1);
      var a := anchors[k - 1];
      if Glued(toks, g, a) {
        SpacedAroundSettled(g, a + 1, before, after);
      }
    }
  }

  /** No `,` directly follows token `a`: the list has no trailing comma. */
  predicate NoCommaAfter(toks: seq<Token>, a: nat) {
    a + 1 < |toks| ==> toks[a + 1].value != ","
  }

  /** In a spaced list, the comma of an item other than the last is glued only if it was before. */
  lemma ListKeepsUnglued(toks: seq<Token>, g: Gaps, style: Style, items: seq<Span>, anchors: seq<nat>,
                         listRule: Rule, commaRule: Rule, i: nat)
    requires |g| == |toks| + 1 && |items| > 0
    requires forall i | 0 <= i < |items| :: items[i].start <= items[i].end < |toks|
    requires ItemsApart(items) && AnchoredIn(items, anchors)
    requires i < |items| - 1 && !Glued(toks, g, anchors[i])
    ensures !Glued(toks, ListSpaced(toks, g, style, items, anchors, listRule, commaRule), anchors[i])
  {
    var a, L := anchors[i], |items| - 1;
    AnchorsSpread(items, anchors);
    assert items[0].start <= items[i].start && items[i].end + 1 < items[L].start;
    forall j | 0 <= j < |anchors| && Glued(toks, g, anchors[j]) ensures a + 1 != anchors[j] + 1 && a + 1 != anchors[j] + 2 {
    }
    ListSpacedElsewhere(toks, g, style, items, anchors, listRule, commaRule, a + 1);
  }

  /**
   * Spacing a list it has already spaced changes nothing, when no comma
   * follows the last item's anchor.
   */
  lemma ListSettled(toks: seq<Token>, g: Gaps, style: Style, items: seq<Span>, anchors: seq<nat>,
                    listRule: Rule, commaRule: Rule)
    requires |g| == |toks| + 1 && |items| > 0
    requires forall i | 0 <= i < |items| :: items[i].start <= items[i].end < |toks|
    requires ItemsApart(items) && AnchoredIn(items, anchors) && NoCommaAfter(toks, anchors[|anchors| - 1])
    ensures var r := ListSpaced(toks, g, style, items, anchors, listRule, commaRule);
            ListSpaced(toks, r, style, items, anchors, listRule, commaRule) == r
  {
    var r := ListSpaced(toks, g, style, items, anchors, listRule, commaRule);
    var cb, ca := style.wsBefore(commaRule), style.wsAfter(commaRule);
    ListSpacedMeets(toks, g, style, items, anchors, listRule, commaRule);
    forall i | 0 <= i < |anchors| ensures Glued(toks, r, anchors[i]) ==> i < |items| - 1 && Glued(toks, g, anchors[i]) {
      if i < |items| - 1 && !Glued(toks, g, anchors[i]) {
        ListKeepsUnglued(toks, g, style, items, anchors, listRule, commaRule, i);
      }
    }
    SpacedBeforeSettled(r, items[0].start, style.wsBefore(listRule));
    CommasSpacedSettled(toks, r, anchors, cb, ca, |anchors|);
    SpacedBeforeSettled(r, items[|items| - 1].end + 1, style.wsAfter(listRule));
  }

  // ---------------------------------------------------------------------
  // FunctionDeclaration

  predicate FunctionReady(toks: seq<Token>, n: FunctionNode) {
    n.id.start < |toks| &&
    (forall i | 0 <= i < |n.params| :: n.params[i].start <= n.params[i].end < |toks|) &&
    n.body.start < n.body.end < |toks|
  }

  /**
   * The order a parser guarantees: the name, then `(`, the parameters in
   * order with a comma between two of them, `)`, and the body.
   */
  predicate SignatureOrdered(n: FunctionNode) {
    n.id.start + 1 < n.body.start && ItemsApart(n.params) &&
    (|n.params| > 0 ==> n.id.start + 1 < n.params[0].start && n.params[|n.params| - 1].end + 1 < n.body.start)
  }

  /** The layout FunctionDeclaration leaves. */
  function FunctionGaps(toks: seq<Token>, g: Gaps, style: Style, n: FunctionNode): (r: Gaps)
    requires |g| == |toks| + 1 && FunctionReady(toks, n)
    ensures |r| == |g|
  {
    BrokenAround(BrokenAround(FunctionSpaced(toks, g, style, n), n.body.start,
                              style.brBefore(Rule.FunctionDeclarationOpeningBrace),
                              style.brAfter(Rule.FunctionDeclarationOpeningBrace)),
                 n.body.end, style.brBefore(Rule.FunctionDeclarationClosingBrace),
                             style.brAfter(Rule.FunctionDeclarationClosingBrace))
  }

  /** The spacing half of FunctionDeclaration: the name, the parameter list, the body braces. */
  function FunctionSpaced(toks: seq<Token>, g: Gaps, style: Style, n: FunctionNode): (r: Gaps)
    requires |g| == |toks| + 1 && FunctionReady(toks, n)
    ensures |r| == |g|
  {
    SpacedAround(SpacedAround(SignatureSpaced(toks, g, style, n), n.body.start, style.wsBefore(Rule.FunctionDeclarationOpeningBrace),
                                                    style.wsAfter(Rule.FunctionDeclarationOpeningBrace)),
                 n.body.end, style.wsBefore(Rule.FunctionDeclarationClosingBrace),
                             style.wsAfter(Rule.FunctionDeclarationClosingBrace))
  }

  /** The name and the parameter list spaced. */
  function SignatureSpaced(toks: seq<Token>, g: Gaps, style: Style, n: FunctionNode): (r: Gaps)
    requires |g| == |toks| + 1 && FunctionReady(toks, n)
    ensures |r| == |g|
  {
    var named := SpacedAfter(g, n.id.start, style.wsAfter(Rule.FunctionName));
    if |n.params| == 0 then named
    else ListSpaced(toks, named, style, n.params, Starts(n.params), Rule.ParameterList, Rule.ParameterComma)
  }

  /** The brace steps of FunctionDeclaration leave every gap before the opening brace alone. */
  lemma BracesAfterSignature(toks: seq<Token>, g: Gaps, style: Style, n: FunctionNode, x: nat)
    requires |g| == |toks| + 1 && FunctionReady(toks, n) && x < n.body.start
    ensures FunctionGaps(toks, g, style, n)[x] == SignatureSpaced(toks, g, style, n)[x]
  {
    var bs, be := n.body.start, n.body.end;
    var signed := SignatureSpaced(toks, g, style, n);
    var open := SpacedAround(signed, bs, style.wsBefore(Rule.FunctionDeclarationOpeningBrace),
                                        style.wsAfter(Rule.FunctionDeclarationOpeningBrace));
    var spaced := SpacedAround(open, be, style.wsBefore(Rule.FunctionDeclarationClosingBrace),
                                         style.wsAfter(Rule.FunctionDeclarationClosingBrace));
    var broken := BrokenAround(spaced, bs, style.brBefore(Rule.FunctionDeclarationOpeningBrace),
                                           style.brAfter(Rule.FunctionDeclarationOpeningBrace));
    SpacedAroundElsewhere(signed, bs, style.wsBefore(Rule.FunctionDeclarationOpeningBrace),
                          style.wsAfter(Rule.FunctionDeclarationOpeningBrace), x);
    SpacedAroundElsewhere(open, be, style.wsBefore(Rule.FunctionDeclarationClosingBrace),
                          style.wsAfter(Rule.FunctionDeclarationClosingBrace), x);
    BrokenAroundElsewhere(spaced, bs, style.brBefore(Rule.FunctionDeclarationOpeningBrace),
                          style.brAfter(Rule.FunctionDeclarationOpeningBrace), x);
    BrokenAroundElsewhere(broken, be, style.brBefore(Rule.FunctionDeclarationClosingBrace),
                          style.brAfter(Rule.FunctionDeclarationClosingBrace), x);
  }

  /**
   * The line-break policies of the body braces are applied last, so they
   * hold afterwards for the opening brace, except that when the body is
   * `{}` the closing brace's policy wins the gap between the two.
   */
  lemma FunctionOpeningBraceBreaks(toks: seq<Token>, g: Gaps, style: Style, n: FunctionNode)
    requires |g| == |toks| + 1 && FunctionReady(toks, n)
    ensures var r := FunctionGaps(toks, g, style, n);
            BreaksMeet(r[n.body.start], style.brBefore(Rule.FunctionDeclarationOpeningBrace)) &&
            (n.body.start + 1 < n.body.end ==>
               BreaksMeet(r[n.body.start + 1], style.brAfter(Rule.FunctionDeclarationOpeningBrace)))
  {
    BracesBroken(FunctionSpaced(toks, g, style, n), n.body.start, n.body.end,
                 style.brBefore(Rule.FunctionDeclarationOpeningBrace), style.brAfter(Rule.FunctionDeclarationOpeningBrace),
                 style.brBefore(Rule.FunctionDeclarationClosingBrace), style.brAfter(Rule.FunctionDeclarationClosingBrace));
  }

  /** The closing brace's line-break policies, applied last of all, hold afterwards on both sides. */
  lemma FunctionClosingBraceBreaks(toks: seq<Token>, g: Gaps, style: Style, n: FunctionNode)
    requires |g| == |toks| + 1 && FunctionReady(toks, n)
    ensures var r := FunctionGaps(toks, g, style, n);
            BreaksMeet(r[n.body.end], style.brBefore(Rule.FunctionDeclarationClosingBrace)) &&
            BreaksMeet(r[n.body.end + 1], style.brAfter(Rule.FunctionDeclarationClosingBrace))
  {
    BracesBroken(FunctionSpaced(toks, g, style, n), n.body.start, n.body.end,
                 style.brBefore(Rule.FunctionDeclarationOpeningBrace), style.brAfter(Rule.FunctionDeclarationOpeningBrace),
                 style.brBefore(Rule.FunctionDeclarationClosingBrace), style.brAfter(Rule.FunctionDeclarationClosingBrace));
  }

  /**
   * The gap before the body's `{` is spaced by the brace's whitespace policy
   * first and only then given its line-break policy, as at :37 and :40.
   */
  lemma FunctionOpeningGap(toks: seq<Token>, g: Gaps, style: Style, n: FunctionNode)
    requires |g| == |toks| + 1 && FunctionReady(toks, n)
    ensures FunctionGaps(toks, g, style, n)[n.body.start]
         == SetBreaks(SetSpace(SignatureSpaced(toks, g, style, n)[n.body.start],
                               style.wsBefore(Rule.FunctionDeclarationOpeningBrace)),
                      style.brBefore(Rule.FunctionDeclarationOpeningBrace))
  {
    var bs, be := n.body.start, n.body.end;
    var signed := SignatureSpaced(toks, g, style, n);
    var open := SpacedAround(signed, bs, style.wsBefore(Rule.FunctionDeclarationOpeningBrace),
                                        style.wsAfter(Rule.FunctionDeclarationOpeningBrace));
    var spaced := SpacedAround(open, be, style.wsBefore(Rule.FunctionDeclarationClosingBrace),
                                         style.wsAfter(Rule.FunctionDeclarationClosingBrace));
    var broken := BrokenAround(spaced, bs, style.brBefore(Rule.FunctionDeclarationOpeningBrace),
                                           style.brAfter(Rule.FunctionDeclarationOpeningBrace));
    assert open[bs] == SetSpace(signed[bs], style.wsBefore(Rule.FunctionDeclarationOpeningBrace));
    SpacedAroundElsewhere(open, be, style.wsBefore(Rule.FunctionDeclarationClosingBrace),
                          style.wsAfter(Rule.FunctionDeclarationClosingBrace), bs);
    assert broken[bs] == SetBreaks(spaced[bs], style.brBefore(Rule.FunctionDeclarationOpeningBrace));
    BrokenAroundElsewhere(broken, be, style.brBefore(Rule.FunctionDeclarationClosingBrace),
                          style.brAfter(Rule.FunctionDeclarationClosingBrace), bs);
  }

  /**
   * FunctionDeclaration is not idempotent.  In `function f() {}` with three
   * spaces and a line break before `{`, under a style asking for one space
   * and no line break there: the spacing step skips the gap because it
   * holds a line break, and the line-break step that comes after it removes
   * the break and keeps the three spaces.  A second run then finds no line
   * break and spaces the gap to one.
   */
  lemma FunctionNotIdempotent(toks: seq<Token>, g: Gaps, style: Style, n: FunctionNode)
    requires |g| == |toks| + 1 && FunctionReady(toks, n) && SignatureOrdered(n) && |n.params| == 0
    requires style.wsBefore(Rule.FunctionDeclarationOpeningBrace) == Exactly(1)
    requires style.brBefore(Rule.FunctionDeclarationOpeningBrace) == Exactly(0)
    requires g[n.body.start] == [SpaceToken(3), BreakToken]
    ensures var once := FunctionGaps(toks, g, style, n);
            once[n.body.start] == [SpaceToken(3)] &&
            FunctionGaps(toks, once, style, n)[n.body.start] == [SpaceToken(1)]
  {
    var bs := n.body.start;
    var once := FunctionGaps(toks, g, style, n);
    SpacingBeforeBreaksUnsettled();
    // The first run: spacing is moot on a gap with a line break, and the break goes alone.
    assert SignatureSpaced(toks, g, style, n)[bs] == g[bs];
    FunctionOpeningGap(toks, g, style, n);
    // The second run: no line break is left, so the gap is spaced to one.
    assert SignatureSpaced(toks, once, style, n)[bs] == once[bs];
    FunctionOpeningGap(toks, once, style, n);
  }

  /**
   * The signature steps of FunctionDeclaration leave the gap after the
   * name meeting the FunctionName policy, the gap before the first
   * parameter and the gap after the last one meeting the ParameterList
   * policies, and a comma glued to the first token of any parameter but
   * the last meeting the ParameterComma policies on both sides.  All these
   * gaps lie before the opening brace of the body, so by
   * `BracesAfterSignature` they are the final layout.
   */
  lemma SignatureLayout(toks: seq<Token>, g: Gaps, style: Style, n: FunctionNode)
    requires |g| == |toks| + 1 && FunctionReady(toks, n) && SignatureOrdered(n)
    ensures var r := SignatureSpaced(toks, g, style, n);
            var ps := n.params;
            SpacesMeet(r[n.id.start + 1], style.wsAfter(Rule.FunctionName)) &&
            (|ps| > 0 ==> SpacesMeet(r[ps[0].start], style.wsBefore(Rule.ParameterList)) &&
                          SpacesMeet(r[ps[|ps| - 1].end + 1], style.wsAfter(Rule.ParameterList)) &&
                          ps[|ps| - 1].end + 1 < n.body.start) &&
            forall i | 0 <= i < |ps| - 1 && Glued(toks, g, ps[i].start) ::
              ps[i].start + 2 < n.body.start &&
              SpacesMeet(r[ps[i].start + 1], style.wsBefore(Rule.ParameterComma)) &&
              SpacesMeet(r[ps[i].start + 2], style.wsAfter(Rule.ParameterComma))
  {
    var ps := n.params;
    if |ps| > 0 {
      var named := SpacedAfter(g, n.id.start, style.wsAfter(Rule.FunctionName));
      ListSpacedMeets(toks, named, style, ps, Starts(ps), Rule.ParameterList, Rule.ParameterComma);
      SignatureName(toks, g, style, n);
      forall i | 0 <= i < |ps| - 1 && Glued(toks, g, ps[i].start)
        ensures Glued(toks, named, Starts(ps)[i]) && ps[i].start + 2 < n.body.start
      {
        ItemBeforeEnd(ps, i, n.body.start);
      }
    }
  }

  /** In an ordered list, the comma after any item but the last lies before whatever follows the list. */
  lemma ItemBeforeEnd(items: seq<Span>, i: nat, b: nat)
    requires ItemsApart(items) && i < |items| - 1 && items[|items| - 1].end + 1 < b
    requires forall j | 0 <= j < |items| :: items[j].start <= items[j].end
    ensures items[i].start + 2 < b
  {
    assert i + 1 == |items| - 1 || items[i + 1].end + 1 < items[|items| - 1].start;
  }

  /** The parameter list's steps never reach the gap after the name. */
  lemma SignatureName(toks: seq<Token>, g: Gaps, style: Style, n: FunctionNode)
    requires |g| == |toks| + 1 && FunctionReady(toks, n) && SignatureOrdered(n) && |n.params| > 0
    ensures SpacesMeet(SignatureSpaced(toks, g, style, n)[n.id.start + 1], style.wsAfter(Rule.FunctionName))
  {
    var ps := n.params;
    var named := SpacedAfter(g, n.id.start, style.wsAfter(Rule.FunctionName));
    var anchors := Starts(ps);
    assert ClearOfCommas(toks, named, anchors, n.id.start + 1) by {
      forall i | 0 <= i < |anchors| ensures n.id.start + 1 < anchors[i] {
        assert i == 0 || ps[0].end + 1 < ps[i].start;
      }
    }
    ListSpacedElsewhere(toks, named, style, ps, anchors, Rule.ParameterList, Rule.ParameterComma, n.id.start + 1);
  }

  /** Both body braces are indented to the function's level when they start a line; no other entry changes. */
  function FunctionIndent(g: Gaps, ind: map<nat, nat>, n: FunctionNode): (r: map<nat, nat>)
    requires n.body.start < n.body.end < |g|
    ensures forall i | i == n.body.start || i == n.body.end ::
              (i == 0 || !NoBreak(g[i]) ==> i in r && r[i] == n.indentLevel) &&
              (i != 0 && NoBreak(g[i]) ==> (i in r <==> i in ind) && (i in ind ==> r[i] == ind[i]))
    ensures forall i | i != n.body.start && i != n.body.end ::
              (i in r <==> i in ind) && (i in ind ==> r[i] == ind[i])
  {
    IndentedIfNeeded(g, IndentedIfNeeded(g, ind, n.body.start, n.indentLevel), n.body.end, n.indentLevel)
  }

  method FunctionDeclaration(ts: TokenStream, style: Style, n: FunctionNode)
    requires ts.Valid() && FunctionReady(ts.tokens, n)
    modifies ts
    ensures ts.Valid()
    ensures ts.gaps == FunctionGaps(ts.tokens, old(ts.gaps), style, n)
    ensures ts.indent == FunctionIndent(ts.gaps, old(ts.indent), n)
  {
    ts.WsAfterIfNeeded(style, n.id.start, Rule.FunctionName);
    if |n.params| > 0 {
      ts.WsBeforeIfNeeded(style, n.params[0].start, Rule.ParameterList);
      SpaceCommas(ts, style, Starts(n.params), Rule.ParameterComma);
      ts.WsAfterIfNeeded(style, n.params[|n.params| - 1].end, Rule.ParameterList);
    }
    var bodyStart, bodyEnd := n.body.start, n.body.end;
    ts.WsAroundIfNeeded(style, bodyStart, Rule.FunctionDeclarationOpeningBrace);
    ts.WsAroundIfNeeded(style, bodyEnd, Rule.FunctionDeclarationClosingBrace);
    ts.BrAroundIfNeeded(style, bodyStart, Rule.FunctionDeclarationOpeningBrace);
    ts.BrAroundIfNeeded(style, bodyEnd, Rule.FunctionDeclarationClosingBrace);
    ts.IndentIfNeeded(bodyStart, n.indentLevel);
    ts.IndentIfNeeded(bodyEnd, n.indentLevel);
  }

  // ---------------------------------------------------------------------
  // BinaryExpression

  predicate BinaryReady(toks: seq<Token>, n: BinaryNode) {
    InStream(toks, n.span) && n.left.end < |toks| &&
    exists k :: n.left.end + 1 <= k < |toks| && toks[k].value == n.operator
  }

  /** The operator spaced: the first token after the left operand whose text is the operator. */
  function BinaryOperator(toks: seq<Token>, n: BinaryNode): (r: nat)
    requires BinaryReady(toks, n)
    ensures n.left.end < r < |toks| && toks[r].value == n.operator
    ensures forall k | n.left.end < k < r :: toks[k].value != n.operator
  {
    FindNext(toks, n.left.end + 1, n.operator)
  }

  /** The layout BinaryExpression leaves. */
  function BinaryGaps(toks: seq<Token>, g: Gaps, style: Style, n: BinaryNode): (r: Gaps)
    requires |g| == |toks| + 1 && BinaryReady(toks, n)
    ensures |r| == |g|
  {
    SpacedAround(RemovedBetween(g, n.span.start, n.span.end, LineBreak), BinaryOperator(toks, n),
                 style.wsBefore(Rule.BinaryExpressionOperator), style.wsAfter(Rule.BinaryExpressionOperator))
  }

  /**
   * BinaryExpression leaves no line break anywhere inside the expression,
   * spaces the operator on both sides, and keeps every other gap.
   */
  lemma BinaryLayout(toks: seq<Token>, g: Gaps, style: Style, n: BinaryNode)
    requires |g| == |toks| + 1 && BinaryReady(toks, n)
    ensures var r := BinaryGaps(toks, g, style, n);
            var op := BinaryOperator(toks, n);
            NoBreakBetween(r, n.span.start, n.span.end) &&
            SpacesMeet(r[op], style.wsBefore(Rule.BinaryExpressionOperator)) &&
            SpacesMeet(r[op + 1], style.wsAfter(Rule.BinaryExpressionOperator)) &&
            forall j | 0 <= j < |g| && !(n.span.start < j <= n.span.end) && j != op && j != op + 1 :: r[j] == g[j]
  {
    var joined := RemovedBetween(g, n.span.start, n.span.end, LineBreak);
    RemovedBreaksBetween(g, n.span.start, n.span.end);
    var op := BinaryOperator(toks, n);
    var before := SpacedBefore(joined, op, style.wsBefore(Rule.BinaryExpressionOperator));
    SpacingKeepsNoBreakBetween(joined, op, style.wsBefore(Rule.BinaryExpressionOperator), n.span.start, n.span.end);
    SpacingKeepsNoBreakBetween(before, op + 1, style.wsAfter(Rule.BinaryExpressionOperator), n.span.start, n.span.end);
  }

  /** Running BinaryExpression on its own layout changes nothing. */
  lemma BinaryIdempotent(toks: seq<Token>, g: Gaps, style: Style, n: BinaryNode)
    requires |g| == |toks| + 1 && BinaryReady(toks, n)
    ensures var r := BinaryGaps(toks, g, style, n);
            BinaryGaps(toks, r, style, n) == r
  {
    var r := BinaryGaps(toks, g, style, n);
    BinaryLayout(toks, g, style, n);
    RemovedBetweenSettled(r, n.span.start, n.span.end);
    SpacedAroundSettled(r, BinaryOperator(toks, n), style.wsBefore(Rule.BinaryExpressionOperator),
                        style.wsAfter(Rule.BinaryExpressionOperator));
  }

  method BinaryExpression(ts: TokenStream, style: Style, n: BinaryNode)
    requires ts.Valid() && BinaryReady(ts.tokens, n)
    modifies ts
    ensures ts.Valid() && ts.indent == old(ts.indent)
    ensures ts.gaps == BinaryGaps(ts.tokens, old(ts.gaps), style, n)
  {
    ts.RemoveInBetween(n.span.start, n.span.end, LineBreak);
    var operator := BinaryOperator(ts.tokens, n);
    ts.WsAroundIfNeeded(style, operator, Rule.BinaryExpressionOperator);
  }

  // ---------------------------------------------------------------------
  // CallExpression

  /** The arguments a parser hands over: in order, with a comma between two of them. */
  predicate CallReady(toks: seq<Token>, n: CallNode) {
    (forall i | 0 <= i < |n.arguments| :: n.arguments[i].start <= n.arguments[i].end < |toks|) &&
    ItemsApart(n.arguments)
  }

  /** The layout CallExpression leaves: untouched without arguments, else the argument list spaced. */
  function CallGaps(toks: seq<Token>, g: Gaps, style: Style, n: CallNode): (r: Gaps)
    requires |g| == |toks| + 1 && CallReady(toks, n)
    ensures |r| == |g|
    ensures |n.arguments| == 0 ==> r == g
    ensures |n.arguments| > 0 ==>
              SpacesMeet(r[n.arguments[|n.arguments| - 1].end + 1], style.wsAfter(Rule.ArgumentList))
  {
    if |n.arguments| == 0 then g
    else ListSpaced(toks, g, style, n.arguments, Ends(n.arguments), Rule.ArgumentList, Rule.ArgumentComma)
  }

  /**
   * After CallExpression with arguments, the gap before the first argument
   * and the gap after the last one meet the ArgumentList policies, a comma
   * glued to any argument but the last meets the ArgumentComma policies on
   * both sides, and no other gap changes.
   */
  lemma CallLayout(toks: seq<Token>, g: Gaps, style: Style, n: CallNode)
    requires |g| == |toks| + 1 && CallReady(toks, n) && |n.arguments| > 0
    ensures var r := CallGaps(toks, g, style, n);
            var args := n.arguments;
            var last := args[|args| - 1].end + 1;
            SpacesMeet(r[args[0].start], style.wsBefore(Rule.ArgumentList)) &&
            SpacesMeet(r[last], style.wsAfter(Rule.ArgumentList)) &&
            (forall i | 0 <= i < |args| - 1 && Glued(toks, g, args[i].end) ::
               SpacesMeet(r[args[i].end + 1], style.wsBefore(Rule.ArgumentComma)) &&
               SpacesMeet(r[args[i].end + 2], style.wsAfter(Rule.ArgumentComma))) &&
            forall x | 0 <= x < |g| && x != args[0].start && x != last && ClearOfCommas(toks, g, Ends(args), x) ::
              r[x] == g[x]
  {
    ListLayout(toks, g, style, n.arguments, Ends(n.arguments), Rule.ArgumentList, Rule.ArgumentComma);
  }

  /** The parser accepts no comma after the last argument. */
  predicate NoTrailingComma(toks: seq<Token>, n: CallNode) {
    |n.arguments| > 0 ==> NoCommaAfter(toks, n.arguments[|n.arguments| - 1].end)
  }

  /** Running CallExpression on its own layout changes nothing. */
  lemma CallIdempotent(toks: seq<Token>, g: Gaps, style: Style, n: CallNode)
    requires |g| == |toks| + 1 && CallReady(toks, n) && NoTrailingComma(toks, n)
    ensures var r := CallGaps(toks, g, style, n);
            CallGaps(toks, r, style, n) == r
  {
    if |n.arguments| > 0 {
      ListSettled(toks, g, style, n.arguments, Ends(n.arguments), Rule.ArgumentList, Rule.ArgumentComma);
    }
  }

  method CallExpression(ts: TokenStream, style: Style, n: CallNode)
    requires ts.Valid() && CallReady(ts.tokens, n)
    modifies ts
    ensures ts.Valid() && ts.indent == old(ts.indent)
    ensures ts.gaps == CallGaps(ts.tokens, old(ts.gaps), style, n)
  {
    var args := n.arguments;
    if |args| > 0 {
      ts.WsBeforeIfNeeded(style, args[0].start, Rule.ArgumentList);
      SpaceCommas(ts, style, Ends(args), Rule.ArgumentComma);
      ts.WsAfterIfNeeded(style, args[|args| - 1].end, Rule.ArgumentList);
    }
  }

  // ---------------------------------------------------------------------
  // AssignmentExpression

  predicate AssignmentReady(toks: seq<Token>, n: AssignmentNode) {
    n.left.end < n.right.start < |toks|
  }

  /** The layout AssignmentExpression leaves. */
  function AssignmentGaps(toks: seq<Token>, g: Gaps, style: Style, n: AssignmentNode): (r: Gaps)
    requires |g| == |toks| + 1 && AssignmentReady(toks, n)
    ensures |r| == |g|
  {
    SpacedBefore(SpacedAfter(RemovedBetween(g, n.left.end, n.right.start, LineBreak),
                             n.left.end, style.wsAfter(Rule.AssignmentOperator)),
                 n.right.start, style.wsBefore(Rule.AssignmentOperator))
  }

  /**
   * AssignmentExpression leaves no line break from the end of the left
   * side to the start of the right side, spaces the operator per policy,
   * and keeps every other gap.
   */
  lemma AssignmentLayout(toks: seq<Token>, g: Gaps, style: Style, n: AssignmentNode)
    requires |g| == |toks| + 1 && AssignmentReady(toks, n)
    ensures var r := AssignmentGaps(toks, g, style, n);
            NoBreakBetween(r, n.left.end, n.right.start) &&
            (n.left.end + 1 < n.right.start ==> SpacesMeet(r[n.left.end + 1], style.wsAfter(Rule.AssignmentOperator))) &&
            SpacesMeet(r[n.right.start], style.wsBefore(Rule.AssignmentOperator)) &&
            forall j | 0 <= j < |g| && !(n.left.end < j <= n.right.start) :: r[j] == g[j]
  {
    var joined := RemovedBetween(g, n.left.end, n.right.start, LineBreak);
    RemovedBreaksBetween(g, n.left.end, n.right.start);
    var after := SpacedAfter(joined, n.left.end, style.wsAfter(Rule.AssignmentOperator));
    SpacingKeepsNoBreakBetween(joined, n.left.end + 1, style.wsAfter(Rule.AssignmentOperator), n.left.end, n.right.start);
    SpacingKeepsNoBreakBetween(after, n.right.start, style.wsBefore(Rule.AssignmentOperator), n.left.end, n.right.start);
  }

  /** Running AssignmentExpression on its own layout changes nothing. */
  lemma AssignmentIdempotent(toks: seq<Token>, g: Gaps, style: Style, n: AssignmentNode)
    requires |g| == |toks| + 1 && AssignmentReady(toks, n)
    ensures var r := AssignmentGaps(toks, g, style, n);
            AssignmentGaps(toks, r, style, n) == r
  {
    var r := AssignmentGaps(toks, g, style, n);
    AssignmentLayout(toks, g, style, n);
    RemovedBetweenSettled(r, n.left.end, n.right.start);
    if n.left.end + 1 < n.right.start {
      SpacedBeforeSettled(r, n.left.end + 1, style.wsAfter(Rule.AssignmentOperator));
      SpacedBeforeSettled(r, n.right.start, style.wsBefore(Rule.AssignmentOperator));
    } else {
      AssignmentAdjacentSettled(toks, g, style, n);
    }
  }

  /** With no token between the two sides, their one gap is spaced twice, and stays so. */
  lemma AssignmentAdjacentSettled(toks: seq<Token>, g: Gaps, style: Style, n: AssignmentNode)
    requires |g| == |toks| + 1 && AssignmentReady(toks, n) && n.left.end + 1 == n.right.start
    ensures var r := AssignmentGaps(toks, g, style, n);
            SpacedBefore(SpacedAfter(r, n.left.end, style.wsAfter(Rule.AssignmentOperator)),
                         n.right.start, style.wsBefore(Rule.AssignmentOperator)) == r
  {
    var wa, wb := style.wsAfter(Rule.AssignmentOperator), style.wsBefore(Rule.AssignmentOperator);
    var joined := RemovedBetween(g, n.left.end, n.right.start, LineBreak);
    SetSpaceTwiceSettled(joined[n.right.start], wa, wb);
  }

  method AssignmentExpression(ts: TokenStream, style: Style, n: AssignmentNode)
    requires ts.Valid() && AssignmentReady(ts.tokens, n)
    modifies ts
    ensures ts.Valid() && ts.indent == old(ts.indent)
    ensures ts.gaps == AssignmentGaps(ts.tokens, old(ts.gaps), style, n)
  {
    ts.RemoveInBetween(n.left.end, n.right.start, LineBreak);
    ts.WsAfterIfNeeded(style, n.left.end, Rule.AssignmentOperator);
    ts.WsBeforeIfNeeded(style, n.right.start, Rule.AssignmentOperator);
  }

  // ---------------------------------------------------------------------
  // LogicalExpression

  /**
   * The operator: the raw `next` of the left operand's last token, or the
   * token after that one when it is a `)` closing a parenthesised left
   * operand.  In the linked stream it is one or two places after the left
   * operand's end.
   */
  function LogicalOperator(toks: seq<Token>, gaps: Gaps, leftEnd: nat): (r: Option<Cursor>)
    requires |gaps| == |toks| + 1 && leftEnd < |toks|
    ensures r.Some? ==> ValidCursor(toks, gaps, r.value)
    ensures var flat := Flatten(toks, gaps);
            var p := FlatIndex(toks, gaps, At(leftEnd));
            var skip := p + 1 < |flat| && flat[p + 1].value == ")";
            var q := if skip then p + 2 else p + 1;
            (r.Some? <==> q < |flat|) &&
            (r.Some? ==> FlatIndex(toks, gaps, r.value) == q && flat[q] == TokenAt(toks, gaps, r.value))
  {
    NextIsSuccessor(toks, gaps, At(leftEnd));
    match Next(toks, gaps, At(leftEnd))
    case None => None
    case Some(c) =>
      CursorDenotes(toks, gaps, c);
      NextIsSuccessor(toks, gaps, c);
      if ValueAt(toks, gaps, c) == ")" then
        var d := Next(toks, gaps, c);
        if d.Some? then
          CursorDenotes(toks, gaps, d.value);
          d
        else d
      else
        Some(c)
  }

  /**
   * The operator LogicalExpression reaches is a significant token, or
   * there is none.  It is a layout token instead whenever layout follows
   * the left operand (or its closing parenthesis), as in `a || b`.
   */
  predicate LogicalOnToken(toks: seq<Token>, g: Gaps, n: LogicalNode)
    requires |g| == |toks| + 1 && n.left.end < |toks|
  {
    var op := LogicalOperator(toks, g, n.left.end);
    op.None? || op.value.At?
  }

  /**
   * The layout LogicalExpression leaves when the operator it reaches is a
   * significant token: that operator spaced per policy, nothing else.
   */
  function LogicalGaps(toks: seq<Token>, g: Gaps, style: Style, n: LogicalNode): (r: Gaps)
    requires |g| == |toks| + 1 && n.left.end < |toks| && LogicalOnToken(toks, g, n)
    ensures |r| == |g|
    ensures var op := LogicalOperator(toks, g, n.left.end);
            if op.Some? then
              SpacesMeet(r[op.value.i], style.wsBefore(Rule.LogicalExpressionOperator)) &&
              SpacesMeet(r[op.value.i + 1], style.wsAfter(Rule.LogicalExpressionOperator)) &&
              forall j | 0 <= j < |g| && j != op.value.i && j != op.value.i + 1 :: r[j] == g[j]
            else r == g
  {
    match LogicalOperator(toks, g, n.left.end)
    case None => g
    case Some(c) =>
      SpacedAround(g, c.i, style.wsBefore(Rule.LogicalExpressionOperator), style.wsAfter(Rule.LogicalExpressionOperator))
  }

  /**
   * On a significant operator the hook leaves `LogicalGaps`; on a layout
   * token only the gap holding that token may change, and it stays layout.
   */
  method LogicalExpression(ts: TokenStream, style: Style, n: LogicalNode)
    requires ts.Valid() && n.left.end < |ts.tokens|
    modifies ts
    ensures ts.Valid() && ts.indent == old(ts.indent)
    ensures LogicalOnToken(ts.tokens, old(ts.gaps), n) ==> ts.gaps == LogicalGaps(ts.tokens, old(ts.gaps), style, n)
    ensures !LogicalOnToken(ts.tokens, old(ts.gaps), n) ==>
              var op := LogicalOperator(ts.tokens, old(ts.gaps), n.left.end).value;
              |ts.gaps| == |old(ts.gaps)| && forall j | 0 <= j < |ts.gaps| && j != op.i :: ts.gaps[j] == old(ts.gaps)[j]
  {
    var operator := LogicalOperator(ts.tokens, ts.gaps, n.left.end);
    if operator.Some? {
      ts.WsAroundCursor(style, operator.value, Rule.LogicalExpressionOperator);
    }
  }

  // ---------------------------------------------------------------------
  // SequenceExpression

  /** Consecutive expressions are separated by a `,` and appear in order. */
  predicate SequenceReady(toks: seq<Token>, n: SequenceNode) {
    var es := n.expressions;
    (forall i | 0 <= i < |es| :: es[i].start <= es[i].end < |toks|) &&
    (forall i, j | 0 <= i < j < |es| :: es[i].end < es[j].start) &&
    (forall i | 0 < i < |es| :: CommaBefore(toks, es, i))
  }

  /** A `,` separates expression `i` from the expression before it. */
  predicate CommaBefore(toks: seq<Token>, es: seq<Span>, i: nat)
    requires 0 < i < |es|
  {
    exists k :: es[i - 1].end < k < es[i].start && k < |toks| && toks[k].value == ","
  }

  /** The loop of the hook: walk `prev` links back from `start` to the nearest `,`. */
  method NearestCommaBefore(toks: seq<Token>, start: nat) returns (r: nat)
    requires start <= |toks|
    requires exists k :: 0 <= k < start && toks[k].value == ","
    ensures r < start && toks[r].value == ","
    ensures forall k | r < k < start :: toks[k].value != ","
  {
    r := start - 1;
    while toks[r].value != ","
      invariant r < start
      invariant exists k :: 0 <= k <= r && toks[k].value == ","
      invariant forall k | r < k < start :: toks[k].value != ","
      decreases r
    {
      r := r - 1;
    }
  }

  /** The comma spaced for expression `i > 0`: the nearest `,` before it, after expression `i - 1`. */
  function SequenceComma(toks: seq<Token>, n: SequenceNode, i: nat): (r: nat)
    requires SequenceReady(toks, n) && 0 < i < |n.expressions|
    ensures n.expressions[i - 1].end < r < n.expressions[i].start && toks[r].value == ","
    ensures forall k | r < k < n.expressions[i].start :: toks[k].value != ","
  {
    assert CommaBefore(toks, n.expressions, i);
    FindPrev(toks, n.expressions[i].start - 1, ",")
  }

  /** The commas the loop has spaced after visiting the first `k` expressions, in order. */
  function SequenceCommas(toks: seq<Token>, n: SequenceNode, k: nat): (cs: seq<nat>)
    requires SequenceReady(toks, n) && k <= |n.expressions|
    ensures |cs| == if k == 0 then 0 else k - 1
  {
    seq(if k == 0 then 0 else k - 1, j requires 0 <= j < k - 1 => SequenceComma(toks, n, j + 1))
  }

  /** The layout after the loop has visited the first `k` expressions. */
  function SequenceGaps(toks: seq<Token>, g: Gaps, style: Style, n: SequenceNode, k: nat): (r: Gaps)
    requires |g| == |toks| + 1 && SequenceReady(toks, n) && k <= |n.expressions|
    ensures |r| == |g|
  {
    SequenceCommasIn(toks, g, n, k);
    SpacedEach(g, SequenceCommas(toks, n, k), style.wsBefore(Rule.CommaOperator), style.wsAfter(Rule.CommaOperator))
  }

  /** Every spaced comma is a token of the stream, with a gap after it. */
  lemma SequenceCommasIn(toks: seq<Token>, g: Gaps, n: SequenceNode, k: nat)
    requires |g| == |toks| + 1 && SequenceReady(toks, n) && k <= |n.expressions|
    ensures AnchorsIn(g, SequenceCommas(toks, n, k))
  {
    var cs := SequenceCommas(toks, n, k);
    forall j | 0 <= j < |cs| ensures cs[j] + 1 < |g| {
    }
  }

  /** The spaced commas lie in order, with at least one token between two of them. */
  lemma SequenceCommasApart(toks: seq<Token>, n: SequenceNode, k: nat)
    requires SequenceReady(toks, n) && k <= |n.expressions|
    ensures Apart(SequenceCommas(toks, n, k))
  {
    var es := n.expressions;
    var cs := SequenceCommas(toks, n, k);
    forall j, l | 0 <= j < l < |cs| ensures cs[j] + 1 < cs[l] {
      assert es[j + 1].start <= es[j + 1].end;
      assert j + 1 == l || es[j + 1].end < es[l].start <= es[l].end;
    }
  }

  /** One more pass of the loop spaces around one more comma. */
  lemma SequenceGapsStep(toks: seq<Token>, g: Gaps, style: Style, n: SequenceNode, k: nat)
    requires |g| == |toks| + 1 && SequenceReady(toks, n) && 0 < k < |n.expressions|
    ensures SequenceGaps(toks, g, style, n, k + 1) ==
            SpacedAround(SequenceGaps(toks, g, style, n, k), SequenceComma(toks, n, k),
                         style.wsBefore(Rule.CommaOperator), style.wsAfter(Rule.CommaOperator))
  {
    var cs := SequenceCommas(toks, n, k + 1);
    assert cs == SequenceCommas(toks, n, k) + [SequenceComma(toks, n, k)];
    assert cs[..|cs| - 1] == SequenceCommas(toks, n, k);
    SequenceCommasIn(toks, g, n, k);
    SequenceCommasIn(toks, g, n, k + 1);
  }

  /** SequenceExpression spaces the comma before every expression but the first. */
  lemma SequenceCommaSpaced(toks: seq<Token>, g: Gaps, style: Style, n: SequenceNode, k: nat, i: nat)
    requires |g| == |toks| + 1 && SequenceReady(toks, n) && 0 < i < k <= |n.expressions|
    ensures var r := SequenceGaps(toks, g, style, n, k);
            var c := SequenceComma(toks, n, i);
            SpacesMeet(r[c], style.wsBefore(Rule.CommaOperator)) &&
            SpacesMeet(r[c + 1], style.wsAfter(Rule.CommaOperator))
  {
    var cs := SequenceCommas(toks, n, k);
    var before, after := style.wsBefore(Rule.CommaOperator), style.wsAfter(Rule.CommaOperator);
    SequenceCommasIn(toks, g, n, k);
    SequenceCommasApart(toks, n, k);
    assert cs[i - 1] == SequenceComma(toks, n, i);
    SpacedEachMeets(g, cs, before, after, i - 1);
  }

  /**
   * SequenceExpression changes no gap other than those around the commas
   * it spaces; with at most one expression it changes nothing.
   */
  lemma SequenceOnlyCommas(toks: seq<Token>, g: Gaps, style: Style, n: SequenceNode, k: nat, j: nat)
    requires |g| == |toks| + 1 && SequenceReady(toks, n) && k <= |n.expressions| && j < |g|
    requires forall i | 0 < i < k :: j != SequenceComma(toks, n, i) && j != SequenceComma(toks, n, i) + 1
    ensures SequenceGaps(toks, g, style, n, k)[j] == g[j]
  {
    var cs := SequenceCommas(toks, n, k);
    var before, after := style.wsBefore(Rule.CommaOperator), style.wsAfter(Rule.CommaOperator);
    SequenceCommasIn(toks, g, n, k);
    forall l | 0 <= l < |cs| ensures j != cs[l] && j != cs[l] + 1 {
    }
    assert SequenceGaps(toks, g, style, n, k) == SpacedEach(g, cs, before, after);
    SpacedEachElsewhere(g, cs, before, after, j);
  }

  /** With at most one expression there is no comma to space. */
  lemma SequenceSingleUntouched(toks: seq<Token>, g: Gaps, style: Style, n: SequenceNode)
    requires |g| == |toks| + 1 && SequenceReady(toks, n) && |n.expressions| <= 1
    ensures SequenceGaps(toks, g, style, n, |n.expressions|) == g
  {
  }

  /** Running SequenceExpression on its own layout changes nothing. */
  lemma SequenceIdempotent(toks: seq<Token>, g: Gaps, style: Style, n: SequenceNode)
    requires |g| == |toks| + 1 && SequenceReady(toks, n)
    ensures var r := SequenceGaps(toks, g, style, n, |n.expressions|);
            SequenceGaps(toks, r, style, n, |n.expressions|) == r
  {
    var k := |n.expressions|;
    var r := SequenceGaps(toks, g, style, n, k);
    var cs := SequenceCommas(toks, n, k);
    var before, after := style.wsBefore(Rule.CommaOperator), style.wsAfter(Rule.CommaOperator);
    SequenceCommasIn(toks, r, n, k);
    forall j | 0 <= j < |cs| ensures SpacesMeet(r[cs[j]], before) && SpacesMeet(r[cs[j] + 1], after) {
      SequenceCommaSpaced(toks, g, style, n, k, j + 1);
    }
    SpacedEachSettled(r, cs, before, after);
  }

  method SequenceExpression(ts: TokenStream, style: Style, n: SequenceNode)
    requires ts.Valid() && SequenceReady(ts.tokens, n)
    modifies ts
    ensures ts.Valid() && ts.indent == old(ts.indent)
    ensures ts.gaps == SequenceGaps(ts.tokens, old(ts.gaps), style, n, |n.expressions|)
  {
    var es := n.expressions;
    for i := 0 to |es|
      invariant ts.Valid() && ts.indent == old(ts.indent)
      invariant ts.gaps == SequenceGaps(ts.tokens, old(ts.gaps), style, n, i)
    {
      if i > 0 {
        assert CommaBefore(ts.tokens, es, i);
        var operator := NearestCommaBefore(ts.tokens, es[i].start);
        assert operator == SequenceComma(ts.tokens, n, i);
        SequenceGapsStep(ts.tokens, old(ts.gaps), style, n, i);
        ts.WsAroundIfNeeded(style, operator, Rule.CommaOperator);
      }
    }
  }
}
