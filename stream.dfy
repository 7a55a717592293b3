/**
 * The shared, mutable token stream and the primitives the hooks call on
 * it: the removals of the token utilities, the whitespace and line-break
 * appliers, and the indentation setter.
 *
 * Anchors are indices into `tokens`.  Those tokens are never removed, so an
 * anchor stays valid across every edit; all edits happen in `gaps`.
 */
module Stream {
  import opened Tokens
  import opened Layout

  /** `g` without its last token when that token has kind `k` (`removeAdjacentBefore`). */
  function DropLastOf(g: seq<Token>, k: Kind): (r: seq<Token>)
    ensures |r| == if g != [] && g[|g| - 1].kind == k then |g| - 1 else |g|
    ensures r == g[..|r|]
  {
    if g != [] && g[|g| - 1].kind == k then g[..|g| - 1] else g
  }

  /** `g` without the whole run of tokens of kind `k` at its end. */
  function DropTrailingOf(g: seq<Token>, k: Kind): (r: seq<Token>)
    ensures |r| <= |g| && r == g[..|r|]
    ensures r == [] || r[|r| - 1].kind != k
    ensures forall j | |r| <= j < |g| :: g[j].kind == k
  {
    if g != [] && g[|g| - 1].kind == k then
      var r := DropTrailingOf(g[..|g| - 1], k);
      assert g[..|g| - 1][..|r|] == g[..|r|];
      r
    else g
  }

  /** Dropping the trailing run again changes nothing. */
  lemma DropTrailingOfSettled(g: seq<Token>, k: Kind)
    ensures DropTrailingOf(DropTrailingOf(g, k), k) == DropTrailingOf(g, k)
  {
  }

  /** A gap that ends in `n` line breaks after anything else loses exactly those. */
  lemma {:induction false} DropTrailingBreaks(x: seq<Token>, n: nat)
    requires LastIsNotBreak(x)
    ensures DropTrailingOf(x + Breaks(n), LineBreak) == x
  {
    if n == 0 {
      assert x + Breaks(n) == x;
    } else {
      assert (x + Breaks(n))[..|x| + n - 1] == x + Breaks(n - 1);
      DropTrailingBreaks(x, n - 1);
    }
  }

  /**
   * The line breaks right before a token as evidently intended where the
   * hooks drop one: the whole run of them goes, then the policy applies.
   */
  function BrokenSettled(x: seq<Token>, br: Req): (r: seq<Token>)
    ensures BreaksMeet(r, br)
    ensures br.Keep? ==> LastIsNotBreak(r)
  {
    SetBreaks(DropTrailingOf(x, LineBreak), br)
  }

  /**
   * After `BrokenSettled` and any two spacing policies, a second
   * `BrokenSettled` finds nothing to change.
   */
  lemma BrokenSettledRestored(x: seq<Token>, br: Req, ws1: Req, ws2: Req)
    ensures var h := SetSpace(SetSpace(BrokenSettled(x, br), ws1), ws2);
            BrokenSettled(h, br) == h
  {
    var b := BrokenSettled(x, br);
    var h := SetSpace(SetSpace(b, ws1), ws2);
    if LastIsNotBreak(h) {
      assert DropTrailingOf(h, LineBreak) == h;
      assert BreaksMeet(h, br);
    } else {
      SpacingKeepsTrailingBreak(b, ws1, ws2);
      BrokenSettledTrailingBreak(x, br);
    }
  }

  /** Spacing never touches a gap that ends in a line break. */
  lemma SpacingKeepsTrailingBreak(y: seq<Token>, ws1: Req, ws2: Req)
    requires !LastIsNotBreak(SetSpace(SetSpace(y, ws1), ws2))
    ensures SetSpace(SetSpace(y, ws1), ws2) == y
  {
    assert forall n: nat :: LastIsNotBreak(Blanks(n));
  }

  /** A settled gap that ends in line breaks is settled again as it is. */
  lemma BrokenSettledTrailingBreak(x: seq<Token>, br: Req)
    requires !LastIsNotBreak(BrokenSettled(x, br))
    ensures BrokenSettled(BrokenSettled(x, br), br) == BrokenSettled(x, br)
  {
    var d := DropTrailingOf(x, LineBreak);
    var w := Without(d, LineBreak);
    assert br.Exactly? && CountBreaks(d) != br.n;
    var b := w + Breaks(br.n);
    assert BrokenSettled(x, br) == b;
    assert br.n != 0 by {
      assert b != w;
    }
    DropTrailingBreaks(w, br.n);
    CountBreaksZero(w);
    assert BrokenSettled(b, br) == Without(w, LineBreak) + Breaks(br.n);
  }

  /** `g` without its first token when that token has kind `k` (`removeAdjacentAfter`). */
  function DropFirstOf(g: seq<Token>, k: Kind): (r: seq<Token>)
    ensures |r| == if g != [] && g[0].kind == k then |g| - 1 else |g|
    ensures r == g[|g| - |r|..]
  {
    if g != [] && g[0].kind == k then g[1..] else g
  }

  /** Dropping the line break right before a token removes exactly one line break. */
  lemma DropLastBreak(g: seq<Token>)
    ensures CountBreaks(DropLastOf(g, LineBreak)) ==
            CountBreaks(g) - (if LastIsNotBreak(g) then 0 else 1)
  {
    if g != [] {
      var n := |g| - 1;
      assert g == g[..n] + [g[n]];
      CountBreaksAppend(g[..n], [g[n]]);
    }
  }

  /** The layout of a stream: one gap per token, plus the trailing gap. */
  type Gaps = seq<seq<Token>>

  /** Every token of kind `k` removed from the gaps strictly between anchors `a` and `b`. */
  function RemovedBetween(g: Gaps, a: nat, b: nat, k: Kind): (r: Gaps)
    ensures |r| == |g|
    ensures forall j | 0 <= j < |g| :: r[j] == if a < j <= b then Without(g[j], k) else g[j]
  {
    seq(|g|, j requires 0 <= j < |g| => if a < j <= b then Without(g[j], k) else g[j])
  }

  /** All layout removed strictly between anchors `a` and `b`. */
  function Cleared(g: Gaps, a: nat, b: nat): (r: Gaps)
    ensures |r| == |g|
    ensures forall j | 0 <= j < |g| :: r[j] == if a < j <= b then [] else g[j]
  {
    seq(|g|, j requires 0 <= j < |g| => if a < j <= b then [] else g[j])
  }

  /** Between two adjacent anchors only the gap before the second one is cleared. */
  lemma ClearedAdjacent(g: Gaps, b: nat)
    requires 0 < b < |g|
    ensures Cleared(g, b - 1, b) == g[b := []]
  {
  }

  function SpacedBefore(g: Gaps, i: nat, req: Req): Gaps
    requires i < |g|
  {
    g[i := SetSpace(g[i], req)]
  }

  function SpacedAfter(g: Gaps, i: nat, req: Req): Gaps
    requires i + 1 < |g|
  {
    SpacedBefore(g, i + 1, req)
  }

  /** `aroundIfNeeded`: the gap before, then the gap after. */
  function SpacedAround(g: Gaps, i: nat, before: Req, after: Req): Gaps
    requires i + 1 < |g|
  {
    SpacedAfter(SpacedBefore(g, i, before), i, after)
  }

  function BrokenBefore(g: Gaps, i: nat, req: Req): Gaps
    requires i < |g|
  {
    g[i := SetBreaks(g[i], req)]
  }

  function BrokenAfter(g: Gaps, i: nat, req: Req): Gaps
    requires i + 1 < |g|
  {
    BrokenBefore(g, i + 1, req)
  }

  function BrokenAround(g: Gaps, i: nat, before: Req, after: Req): Gaps
    requires i + 1 < |g|
  {
    BrokenAfter(BrokenBefore(g, i, before), i, after)
  }

  /** No gap strictly after anchor `a`, up to and including the gap before anchor `b`, holds a line break. */
  predicate NoBreakBetween(g: Gaps, a: nat, b: nat) {
    forall j | a < j <= b && j < |g| :: NoBreak(g[j])
  }

  lemma RemovedBreaksBetween(g: Gaps, a: nat, b: nat)
    ensures NoBreakBetween(RemovedBetween(g, a, b, LineBreak), a, b)
  {
    var r := RemovedBetween(g, a, b, LineBreak);
    forall j | a < j <= b && j < |g|
      ensures NoBreak(r[j])
    {
      assert r[j] == Without(g[j], LineBreak);
    }
  }

  /** Removing line breaks where there are none changes nothing. */
  lemma RemovedBetweenSettled(g: Gaps, a: nat, b: nat)
    requires NoBreakBetween(g, a, b)
    ensures RemovedBetween(g, a, b, LineBreak) == g
  {
    var r := RemovedBetween(g, a, b, LineBreak);
    forall j | 0 <= j < |g|
      ensures r[j] == g[j]
    {
      if a < j <= b {
        assert NoBreak(g[j]);
      }
    }
  }

  /** Spacing a gap that already meets its policy changes nothing. */
  lemma SpacedBeforeSettled(g: Gaps, i: nat, req: Req)
    requires i < |g| && SpacesMeet(g[i], req)
    ensures SpacedBefore(g, i, req) == g
  {
  }

  /** Spacing around an anchor whose two gaps already meet their policies changes nothing. */
  lemma SpacedAroundSettled(g: Gaps, i: nat, before: Req, after: Req)
    requires i + 1 < |g| && SpacesMeet(g[i], before) && SpacesMeet(g[i + 1], after)
    ensures SpacedAround(g, i, before, after) == g
  {
  }

  /** Spacing a gap never adds a line break anywhere. */
  lemma SpacingKeepsNoBreakBetween(g: Gaps, i: nat, req: Req, a: nat, b: nat)
    requires i < |g| && NoBreakBetween(g, a, b)
    ensures NoBreakBetween(SpacedBefore(g, i, req), a, b)
  {
  }

  /** Spacing around anchor `i` leaves both gaps meeting their policies. */
  lemma SpacedAroundMeets(g: Gaps, i: nat, before: Req, after: Req)
    requires i + 1 < |g|
    ensures SpacesMeet(SpacedAround(g, i, before, after)[i], before)
    ensures SpacesMeet(SpacedAround(g, i, before, after)[i + 1], after)
  {
  }

  /** Spacing around anchor `i` leaves every other gap as it was. */
  lemma SpacedAroundElsewhere(g: Gaps, i: nat, before: Req, after: Req, j: nat)
    requires i + 1 < |g| && j < |g| && j != i && j != i + 1
    ensures SpacedAround(g, i, before, after)[j] == g[j]
  {
  }

  /** Breaking around anchor `i` leaves both gaps meeting their policies. */
  lemma BrokenAroundMeets(g: Gaps, i: nat, before: Req, after: Req)
    requires i + 1 < |g|
    ensures BreaksMeet(BrokenAround(g, i, before, after)[i], before)
    ensures BreaksMeet(BrokenAround(g, i, before, after)[i + 1], after)
  {
  }

  /** Breaking around anchor `i` leaves every other gap as it was. */
  lemma BrokenAroundElsewhere(g: Gaps, i: nat, before: Req, after: Req, j: nat)
    requires i + 1 < |g| && j < |g| && j != i && j != i + 1
    ensures BrokenAround(g, i, before, after)[j] == g[j]
  {
  }

  /**
   * Line breaks around an opening brace at `o`, then around its closing
   * brace at `c`: the closing brace's policies hold on both of its sides,
   * and the opening brace's hold wherever the closing brace did not take
   * the gap over (the gap after `{` only when the braces are not adjacent).
   */
  lemma BracesBroken(g: Gaps, o: nat, c: nat, ob: Req, oa: Req, cb: Req, ca: Req)
    requires o < c && c + 1 < |g|
    ensures var r := BrokenAround(BrokenAround(g, o, ob, oa), c, cb, ca);
            BreaksMeet(r[o], ob) && (o + 1 < c ==> BreaksMeet(r[o + 1], oa)) &&
            BreaksMeet(r[c], cb) && BreaksMeet(r[c + 1], ca)
  {
    var open := BrokenAround(g, o, ob, oa);
    BrokenAroundMeets(g, o, ob, oa);
    BrokenAroundMeets(open, c, cb, ca);
    BrokenAroundElsewhere(open, c, cb, ca, o);
    if o + 1 < c {
      BrokenAroundElsewhere(open, c, cb, ca, o + 1);
    }
  }

  /** Setting line breaks in a gap outside `(a, b]` keeps that range free of line breaks. */
  lemma BreakingElsewhereKeepsNoBreakBetween(g: Gaps, i: nat, req: Req, a: nat, b: nat)
    requires i < |g| && !(a < i <= b) && NoBreakBetween(g, a, b)
    ensures NoBreakBetween(BrokenBefore(g, i, req), a, b)
  {
  }

  /** Every anchor of `cs` has a gap after it. */
  predicate AnchorsIn(g: Gaps, cs: seq<nat>) {
    forall j | 0 <= j < |cs| :: cs[j] + 1 < |g|
  }

  /** `aroundIfNeeded` at each anchor of `cs`, in order. */
  function SpacedEach(g: Gaps, cs: seq<nat>, before: Req, after: Req): (r: Gaps)
    requires AnchorsIn(g, cs)
    ensures |r| == |g|
  {
    if cs == [] then g
    else SpacedAround(SpacedEach(g, cs[..|cs| - 1], before, after), cs[|cs| - 1], before, after)
  }

  /** Anchors in increasing order, with at least one anchor between any two. */
  predicate Apart(cs: seq<nat>) {
    forall j, l | 0 <= j < l < |cs| :: cs[j] + 1 < cs[l]
  }

  /** Spacing at anchors whose gaps already meet their policies changes nothing. */
  lemma {:induction false} SpacedEachSettled(g: Gaps, cs: seq<nat>, before: Req, after: Req)
    requires AnchorsIn(g, cs)
    requires forall j | 0 <= j < |cs| :: SpacesMeet(g[cs[j]], before) && SpacesMeet(g[cs[j] + 1], after)
    ensures SpacedEach(g, cs, before, after) == g
  {
    if cs != [] {
      var init := cs[..|cs| - 1];
      assert forall j | 0 <= j < |init| :: init[j] == cs[j];
      SpacedEachSettled(g, init, before, after);
      SpacedAroundSettled(g, cs[|cs| - 1], before, after);
    }
  }

  /** After spacing at anchors of which every later one lies apart from anchor `j`, both gaps of anchor `j` meet their policies. */
  lemma {:induction false} SpacedEachMeets(g: Gaps, cs: seq<nat>, before: Req, after: Req, j: nat)
    requires AnchorsIn(g, cs) && j < |cs|
    requires forall l | j < l < |cs| :: cs[j] + 1 < cs[l]
    ensures SpacesMeet(SpacedEach(g, cs, before, after)[cs[j]], before)
    ensures SpacesMeet(SpacedEach(g, cs, before, after)[cs[j] + 1], after)
  {
    var init, last := cs[..|cs| - 1], cs[|cs| - 1];
    var prev := SpacedEach(g, init, before, after);
    assert SpacedEach(g, cs, before, after) == SpacedAround(prev, last, before, after);
    if j < |cs| - 1 {
      assert init[j] == cs[j] && cs[j] + 1 < last;
      assert forall l | j < l < |init| :: init[l] == cs[l];
      SpacedEachMeets(g, init, before, after, j);
      SpacedAroundElsewhere(prev, last, before, after, cs[j]);
      SpacedAroundElsewhere(prev, last, before, after, cs[j] + 1);
    } else {
      SpacedAroundMeets(prev, last, before, after);
    }
  }

  /** Spacing at the anchors of `cs` leaves every gap not next to one of them alone. */
  lemma {:induction false} SpacedEachElsewhere(g: Gaps, cs: seq<nat>, before: Req, after: Req, x: nat)
    requires AnchorsIn(g, cs) && x < |g|
    requires forall j | 0 <= j < |cs| :: x != cs[j] && x != cs[j] + 1
    ensures SpacedEach(g, cs, before, after)[x] == g[x]
  {
    if cs != [] {
      var init := cs[..|cs| - 1];
      assert forall j | 0 <= j < |init| :: init[j] == cs[j];
      SpacedEachElsewhere(g, init, before, after, x);
      SpacedAroundElsewhere(SpacedEach(g, init, before, after), cs[|cs| - 1], before, after, x);
    }
  }

  /** `indent.ifNeeded`: record `level` for anchor `i` only when it starts a line. */
  function IndentedIfNeeded(g: Gaps, ind: map<nat, nat>, i: nat, level: nat): map<nat, nat>
    requires i < |g|
  {
    if i == 0 || !NoBreak(g[i]) then ind[i := level] else ind
  }

  class TokenStream {
    /** The tokens no hook removes, in stream order. */
    const tokens: seq<Token>
    /** `gaps[i]`: the layout tokens right before `tokens[i]`; the last gap trails the stream. */
    var gaps: seq<seq<Token>>
    /** Indentation level recorded for the line that a token starts. */
    var indent: map<nat, nat>

    ghost predicate Valid()
      reads this`gaps
    {
      |gaps| == |tokens| + 1 &&
      NoneLayout(tokens) &&
      forall i | 0 <= i < |gaps| :: AllLayout(gaps[i])
    }

    /** The whole stream in linked order. */
    function Stream(): seq<Token>
      reads this`gaps
      requires Valid()
    {
      Flatten(tokens, gaps)
    }

    /** The token at `tokens[i]` is the first on its line. */
    predicate StartsLine(i: nat)
      reads this`gaps
      requires Valid() && i < |tokens|
    {
      i == 0 || !NoBreak(gaps[i])
    }

    constructor (toks: seq<Token>, layout: seq<seq<Token>>)
      requires |layout| == |toks| + 1 && NoneLayout(toks)
      requires forall i | 0 <= i < |layout| :: AllLayout(layout[i])
      ensures Valid()
      ensures tokens == toks && gaps == layout && indent == map[]
    {
      tokens := toks;
      gaps := layout;
      indent := map[];
    }

    /** Whatever the edits, the non-layout tokens of the stream are `tokens`. */
    lemma SignificantIsTokens()
      requires Valid()
      ensures Significant(Stream()) == tokens
    {
      SignificantOfFlatten(tokens, gaps);
    }

    // -------------------------------------------------------------------
    // Token utilities

    /** `removeInBetween(a, b, k)`: delete every token of kind `k` strictly between two anchors. */
    method RemoveInBetween(a: nat, b: nat, k: Kind)
      requires Valid() && a <= b < |tokens|
      modifies this
      ensures Valid() && indent == old(indent)
      ensures gaps == RemovedBetween(old(gaps), a, b, k)
    {
      var j := a + 1;
      while j <= b
        invariant a + 1 <= j <= b + 1
        invariant Valid() && indent == old(indent) && |gaps| == |old(gaps)|
        invariant forall m | 0 <= m < |gaps| ::
          gaps[m] == if a < m < j then Without(old(gaps)[m], k) else old(gaps)[m]
      {
        gaps := gaps[j := Without(gaps[j], k)];
        j := j + 1;
      }
      assert gaps == RemovedBetween(old(gaps), a, b, k);
    }

    /** `removeWsBrInBetween(a, b)`: delete all layout strictly between two anchors. */
    method RemoveWsBrInBetween(a: nat, b: nat)
      requires Valid() && a <= b < |tokens|
      modifies this
      ensures Valid() && indent == old(indent)
      ensures gaps == Cleared(old(gaps), a, b)
    {
      ghost var g0 := gaps;
      RemoveInBetween(a, b, WhiteSpace);
      RemoveInBetween(a, b, LineBreak);
      forall j | a < j <= b
        ensures gaps[j] == []
      {
        StripLayout(g0[j]);
      }
      assert gaps == Cleared(g0, a, b);
    }

    /** `removeWsBrInBetween(tokens[b - 1], b)`: delete the layout right before anchor `b`. */
    method RemoveWsBrJustBefore(b: nat)
      requires Valid() && 0 < b < |tokens|
      modifies this
      ensures Valid() && indent == old(indent)
      ensures gaps == old(gaps)[b := []]
    {
      RemoveWsBrInBetween(b - 1, b);
      ClearedAdjacent(old(gaps), b);
    }

    /** `removeAdjacentBefore(tokens[i], k)`. */
    method RemoveAdjacentBefore(i: nat, k: Kind)
      requires Valid() && i < |tokens|
      modifies this
      ensures Valid() && indent == old(indent)
      ensures gaps == old(gaps)[i := DropLastOf(old(gaps)[i], k)]
    {
      gaps := gaps[i := DropLastOf(gaps[i], k)];
    }

    /** `removeAdjacentAfter(tokens[i], k)`. */
    method RemoveAdjacentAfter(i: nat, k: Kind)
      requires Valid() && i < |tokens|
      modifies this
      ensures Valid() && indent == old(indent)
      ensures gaps == old(gaps)[i + 1 := DropFirstOf(old(gaps)[i + 1], k)]
    {
      gaps := gaps[i + 1 := DropFirstOf(gaps[i + 1], k)];
    }

    /** `remove(token)` for the layout tokens of gap `j` of kind `k`. */
    method RemoveFromGap(j: nat, k: Kind)
      requires Valid() && j < |gaps|
      modifies this
      ensures Valid() && indent == old(indent)
      ensures gaps == old(gaps)[j := Without(old(gaps)[j], k)]
    {
      gaps := gaps[j := Without(gaps[j], k)];
    }

    // -------------------------------------------------------------------
    // Whitespace applier

    method WsBeforeIfNeeded(style: Style, i: nat, rule: Rule)
      requires Valid() && i < |tokens|
      modifies this
      ensures Valid() && indent == old(indent)
      ensures gaps == SpacedBefore(old(gaps), i, style.wsBefore(rule))
    {
      gaps := gaps[i := SetSpace(gaps[i], style.wsBefore(rule))];
    }

    method WsAfterIfNeeded(style: Style, i: nat, rule: Rule)
      requires Valid() && i < |tokens|
      modifies this
      ensures Valid() && indent == old(indent)
      ensures gaps == SpacedAfter(old(gaps), i, style.wsAfter(rule))
    {
      gaps := gaps[i + 1 := SetSpace(gaps[i + 1], style.wsAfter(rule))];
    }

    method WsAroundIfNeeded(style: Style, i: nat, rule: Rule)
      requires Valid() && i < |tokens|
      modifies this
      ensures Valid() && indent == old(indent)
      ensures gaps == SpacedAround(old(gaps), i, style.wsBefore(rule), style.wsAfter(rule))
    {
      WsBeforeIfNeeded(style, i, rule);
      WsAfterIfNeeded(style, i, rule);
    }

    /**
     * `aroundIfNeeded` on whatever token a raw `next` link reached.  On a
     * significant token it is `WsAroundIfNeeded`.  What the applier does
     * when handed a layout token is not known here: the gap holding that
     * token may end up with any layout, and no other gap changes.
     */
    method WsAroundCursor(style: Style, c: Cursor, rule: Rule)
      requires Valid() && ValidCursor(tokens, gaps, c)
      modifies this
      ensures Valid() && indent == old(indent)
      ensures c.At? ==> gaps == SpacedAround(old(gaps), c.i, style.wsBefore(rule), style.wsAfter(rule))
      ensures c.InGap? ==> |gaps| == |old(gaps)| &&
                           forall j | 0 <= j < |gaps| && j != c.i :: gaps[j] == old(gaps)[j]
    {
      if c.At? {
        WsAroundIfNeeded(style, c.i, rule);
      } else {
        assert AllLayout(gaps[c.i]);
        var edited: seq<Token> :| AllLayout(edited);
        gaps := gaps[c.i := edited];
      }
    }

    /** `whiteSpace.before(token)`: one space, whatever the rules say. */
    method WsBefore(i: nat)
      requires Valid() && i < |tokens|
      modifies this
      ensures Valid() && indent == old(indent)
      ensures gaps == SpacedBefore(old(gaps), i, Exactly(1))
    {
      gaps := gaps[i := SetSpace(gaps[i], Exactly(1))];
    }

    /** `whiteSpace.after(token)`: one space, whatever the rules say. */
    method WsAfter(i: nat)
      requires Valid() && i < |tokens|
      modifies this
      ensures Valid() && indent == old(indent)
      ensures gaps == SpacedAfter(old(gaps), i, Exactly(1))
    {
      gaps := gaps[i + 1 := SetSpace(gaps[i + 1], Exactly(1))];
    }

    // -------------------------------------------------------------------
    // Line-break applier

    method BrBeforeIfNeeded(style: Style, i: nat, rule: Rule)
      requires Valid() && i < |tokens|
      modifies this
      ensures Valid() && indent == old(indent)
      ensures gaps == BrokenBefore(old(gaps), i, style.brBefore(rule))
    {
      gaps := gaps[i := SetBreaks(gaps[i], style.brBefore(rule))];
    }

    method BrAfterIfNeeded(style: Style, i: nat, rule: Rule)
      requires Valid() && i < |tokens|
      modifies this
      ensures Valid() && indent == old(indent)
      ensures gaps == BrokenAfter(old(gaps), i, style.brAfter(rule))
    {
      gaps := gaps[i + 1 := SetBreaks(gaps[i + 1], style.brAfter(rule))];
    }

    method BrAroundIfNeeded(style: Style, i: nat, rule: Rule)
      requires Valid() && i < |tokens|
      modifies this
      ensures Valid() && indent == old(indent)
      ensures gaps == BrokenAround(old(gaps), i, style.brBefore(rule), style.brAfter(rule))
    {
      BrBeforeIfNeeded(style, i, rule);
      BrAfterIfNeeded(style, i, rule);
    }

    // -------------------------------------------------------------------
    // Indentation

    /** `indent.ifNeeded(token, level)`: only a token that starts a line is indented. */
    method IndentIfNeeded(i: nat, level: nat)
      requires Valid() && i < |tokens|
      modifies this
      ensures Valid() && gaps == old(gaps)
      ensures indent == IndentedIfNeeded(gaps, old(indent), i, level)
    {
      if StartsLine(i) {
        indent := indent[i := level];
      }
    }

    /** `indent.before(token, level)`. */
    method IndentBefore(i: nat, level: nat)
      requires Valid() && i < |tokens|
      modifies this
      ensures Valid() && gaps == old(gaps)
      ensures indent == old(indent)[i := level]
    {
      indent := indent[i := level];
    }
  }
}
