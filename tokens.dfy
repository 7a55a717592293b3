/**
 * The token stream the formatter hooks edit.
 *
 * The original stream is a doubly-linked list of tokens.  Here it is split
 * into the tokens a formatter never removes (keywords, identifiers,
 * punctuators, literals, comments) and the layout tokens (WhiteSpace and
 * LineBreak) between them: `gaps[i]` holds the layout tokens right before
 * `toks[i]`, and `gaps[|toks|]` the layout after the last token.
 * `Flatten` rebuilds the linked order and `Next` is its `next` link.
 */
module Tokens {

  datatype Option<T> = None | Some(value: T)

  /** The `type` of a token as the tokenizer reports it. */
  datatype Kind = Punctuator | Keyword | Identifier | Literal | Comment | WhiteSpace | LineBreak

  datatype Token = Token(kind: Kind, value: string)

  /** Text made of blank characters only, as the text of every layout token is. */
  predicate Blank(s: string) {
    forall c | c in s :: c == ' ' || c == '\t' || c == '\n' || c == '\r'
  }

  predicate IsLayout(t: Token) {
    t.kind == WhiteSpace || t.kind == LineBreak
  }

  /** A gap holds layout tokens only, each with blank text. */
  predicate AllLayout(g: seq<Token>) {
    forall j | 0 <= j < |g| :: IsLayout(g[j]) && Blank(g[j].value)
  }

  /** No token of the sequence is layout. */
  predicate NoneLayout(toks: seq<Token>) {
    forall i | 0 <= i < |toks| :: !IsLayout(toks[i])
  }

  predicate NoBreak(g: seq<Token>) {
    forall j | 0 <= j < |g| :: g[j].kind != LineBreak
  }

  /** The token right before the next one is not a line break. */
  predicate LastIsNotBreak(g: seq<Token>) {
    g == [] || g[|g| - 1].kind != LineBreak
  }

  /** `g` with every token of kind `k` removed, the rest kept in order. */
  function Without(g: seq<Token>, k: Kind): (r: seq<Token>)
    ensures k == LineBreak ==> NoBreak(r)
    ensures AllLayout(g) ==> AllLayout(r)
    ensures NoBreak(g) ==> NoBreak(r)
    ensures |r| <= |g|
    ensures (forall j | 0 <= j < |g| :: g[j].kind != k) ==> r == g
  {
    if g == [] then []
    else (if g[0].kind == k then [] else [g[0]]) + Without(g[1..], k)
  }

  lemma {:induction false} WithoutAppend(a: seq<Token>, b: seq<Token>, k: Kind)
    ensures Without(a + b, k) == Without(a, k) + Without(b, k)
  {
    if a == [] {
      assert a + b == b;
    } else {
      assert (a + b)[1..] == a[1..] + b;
      WithoutAppend(a[1..], b, k);
    }
  }

  /** Removing both layout kinds from a gap empties it. */
  lemma {:induction false} StripLayout(g: seq<Token>)
    requires AllLayout(g)
    ensures Without(Without(g, WhiteSpace), LineBreak) == []
  {
    if g != [] {
      assert g[0] in g;
      var head := if g[0].kind == WhiteSpace then [] else [g[0]];
      WithoutAppend(head, Without(g[1..], WhiteSpace), LineBreak);
      StripLayout(g[1..]);
    }
  }

  // ---------------------------------------------------------------------
  // The linked order

  /** The stream in linked-list order: gap, token, gap, token, ..., gap. */
  function Flatten(toks: seq<Token>, gaps: seq<seq<Token>>): seq<Token>
    requires |gaps| == |toks| + 1
  {
    if toks == [] then gaps[0]
    else gaps[0] + [toks[0]] + Flatten(toks[1..], gaps[1..])
  }

  /** The ordered subsequence of the tokens that are not layout. */
  function Significant(s: seq<Token>): (r: seq<Token>)
    ensures NoneLayout(r)
  {
    if s == [] then []
    else (if IsLayout(s[0]) then [] else [s[0]]) + Significant(s[1..])
  }

  lemma {:induction false} SignificantAppend(a: seq<Token>, b: seq<Token>)
    ensures Significant(a + b) == Significant(a) + Significant(b)
  {
    if a == [] {
      assert a + b == b;
    } else {
      assert (a + b)[1..] == a[1..] + b;
      SignificantAppend(a[1..], b);
    }
  }

  lemma {:induction false} SignificantOfLayout(g: seq<Token>)
    requires AllLayout(g)
    ensures Significant(g) == []
  {
    if g != [] {
      assert g[0] in g;
      SignificantOfLayout(g[1..]);
    }
  }

  /**
   * Whatever the gaps hold, as long as it is layout, the non-layout tokens
   * of the linked stream are exactly `toks`, in order.
   */
  lemma {:induction false} SignificantOfFlatten(toks: seq<Token>, gaps: seq<seq<Token>>)
    requires |gaps| == |toks| + 1
    requires forall i | 0 <= i < |gaps| :: AllLayout(gaps[i])
    requires NoneLayout(toks)
    ensures Significant(Flatten(toks, gaps)) == toks
  {
    SignificantOfLayout(gaps[0]);
    if toks != [] {
      SignificantOfFlatten(toks[1..], gaps[1..]);
      SignificantAppend(gaps[0] + [toks[0]], Flatten(toks[1..], gaps[1..]));
      SignificantAppend(gaps[0], [toks[0]]);
      assert Significant([toks[0]]) == [toks[0]];
    }
  }

  /** Index in the linked stream where gap `i` starts. */
  function Offset(gaps: seq<seq<Token>>, i: nat): nat
    requires i <= |gaps|
  {
    if i == 0 then 0 else Offset(gaps, i - 1) + |gaps[i - 1]| + 1
  }

  lemma {:induction false} OffsetTail(gaps: seq<seq<Token>>, i: nat)
    requires 1 <= i <= |gaps|
    ensures Offset(gaps, i) == |gaps[0]| + 1 + Offset(gaps[1..], i - 1)
  {
    if i > 1 {
      OffsetTail(gaps, i - 1);
    }
  }

  lemma {:induction false} FlattenLength(toks: seq<Token>, gaps: seq<seq<Token>>)
    requires |gaps| == |toks| + 1
    ensures |Flatten(toks, gaps)| == Offset(gaps, |toks|) + |gaps[|toks|]|
  {
    if toks != [] {
      FlattenLength(toks[1..], gaps[1..]);
      OffsetTail(gaps, |toks|);
    }
  }

  /** Gap `i` sits at `Offset(gaps, i)` in the linked stream, followed by `toks[i]`. */
  lemma {:induction false} FlattenAt(toks: seq<Token>, gaps: seq<seq<Token>>, i: nat)
    requires |gaps| == |toks| + 1 && i < |gaps|
    ensures Offset(gaps, i) + |gaps[i]| <= |Flatten(toks, gaps)|
    ensures Flatten(toks, gaps)[Offset(gaps, i)..Offset(gaps, i) + |gaps[i]|] == gaps[i]
    ensures i < |toks| ==> (Offset(gaps, i) + |gaps[i]| < |Flatten(toks, gaps)| &&
                            Flatten(toks, gaps)[Offset(gaps, i) + |gaps[i]|] == toks[i])
  {
    if i == 0 {
      if toks != [] {
        var rest := Flatten(toks[1..], gaps[1..]);
        assert Flatten(toks, gaps) == gaps[0] + [toks[0]] + rest;
      }
    } else {
      var rest := Flatten(toks[1..], gaps[1..]);
      assert Flatten(toks, gaps) == gaps[0] + [toks[0]] + rest;
      FlattenAt(toks[1..], gaps[1..], i - 1);
      OffsetTail(gaps, i);
      var head := |gaps[0]| + 1;
      assert Flatten(toks, gaps)[head..] == rest;
    }
  }

  // ---------------------------------------------------------------------
  // Searching by value (`findNext` / `findPrev`)

  /** The first token at or after `from` whose value is `v`. */
  function FindNext(toks: seq<Token>, from: nat, v: string): (r: nat)
    requires exists k :: from <= k < |toks| && toks[k].value == v
    ensures from <= r < |toks| && toks[r].value == v
    ensures forall k :: from <= k < r ==> toks[k].value != v
    decreases |toks| - from
  {
    if toks[from].value == v then from else FindNext(toks, from + 1, v)
  }

  /** The last token at or before `from` whose value is `v`. */
  function FindPrev(toks: seq<Token>, from: nat, v: string): (r: nat)
    requires from < |toks|
    requires exists k :: 0 <= k <= from && toks[k].value == v
    ensures r <= from && toks[r].value == v
    ensures forall k :: r < k <= from ==> toks[k].value != v
  {
    if toks[from].value == v then from else FindPrev(toks, from - 1, v)
  }

  // ---------------------------------------------------------------------
  // Cursors: a position in the linked stream, layout tokens included

  datatype Cursor = At(i: nat) | InGap(i: nat, k: nat)

  predicate ValidCursor(toks: seq<Token>, gaps: seq<seq<Token>>, c: Cursor)
    requires |gaps| == |toks| + 1
  {
    match c
    case At(i) => i < |toks|
    case InGap(i, k) => i < |gaps| && k < |gaps[i]|
  }

  /** Index of the cursor's token in `Flatten(toks, gaps)`. */
  function FlatIndex(toks: seq<Token>, gaps: seq<seq<Token>>, c: Cursor): nat
    requires |gaps| == |toks| + 1 && ValidCursor(toks, gaps, c)
  {
    match c
    case At(i) => Offset(gaps, i) + |gaps[i]|
    case InGap(i, k) => Offset(gaps, i) + k
  }

  function TokenAt(toks: seq<Token>, gaps: seq<seq<Token>>, c: Cursor): Token
    requires |gaps| == |toks| + 1 && ValidCursor(toks, gaps, c)
  {
    match c
    case At(i) => toks[i]
    case InGap(i, k) => gaps[i][k]
  }

  /** The `next` link of the token under the cursor (`None` past the end). */
  function Next(toks: seq<Token>, gaps: seq<seq<Token>>, c: Cursor): (r: Option<Cursor>)
    requires |gaps| == |toks| + 1 && ValidCursor(toks, gaps, c)
    ensures r.Some? ==> ValidCursor(toks, gaps, r.value)
  {
    match c
    case At(i) =>
      if gaps[i + 1] != [] then Some(InGap(i + 1, 0))
      else if i + 1 < |toks| then Some(At(i + 1))
      else None
    case InGap(i, k) =>
      if k + 1 < |gaps[i]| then Some(InGap(i, k + 1))
      else if i < |toks| then Some(At(i))
      else None
  }

  /** The cursor denotes the token at its flat index. */
  lemma CursorDenotes(toks: seq<Token>, gaps: seq<seq<Token>>, c: Cursor)
    requires |gaps| == |toks| + 1 && ValidCursor(toks, gaps, c)
    ensures FlatIndex(toks, gaps, c) < |Flatten(toks, gaps)|
    ensures Flatten(toks, gaps)[FlatIndex(toks, gaps, c)] == TokenAt(toks, gaps, c)
  {
    FlattenAt(toks, gaps, c.i);
    if c.InGap? {
      var o := Offset(gaps, c.i);
      assert Flatten(toks, gaps)[o..o + |gaps[c.i]|][c.k] == gaps[c.i][c.k];
    }
  }

  /**
   * `Next` is the successor in the linked stream: it moves one place to
   * the right, and it is `None` exactly on the last token.
   */
  lemma NextIsSuccessor(toks: seq<Token>, gaps: seq<seq<Token>>, c: Cursor)
    requires |gaps| == |toks| + 1 && ValidCursor(toks, gaps, c)
    ensures Next(toks, gaps, c).Some? <==> FlatIndex(toks, gaps, c) + 1 < |Flatten(toks, gaps)|
    ensures Next(toks, gaps, c).Some? ==>
      FlatIndex(toks, gaps, Next(toks, gaps, c).value) == FlatIndex(toks, gaps, c) + 1
  {
    FlattenLength(toks, gaps);
    OffsetMonotone(gaps, c.i, |toks|);
    match c
    case At(i) =>
      assert Offset(gaps, i + 1) == Offset(gaps, i) + |gaps[i]| + 1;
      OffsetMonotone(gaps, i + 1, |toks|);
    case InGap(i, k) =>
      if i < |toks| {
        OffsetMonotone(gaps, i + 1, |toks|);
      }
  }

  lemma {:induction false} OffsetMonotone(gaps: seq<seq<Token>>, i: nat, j: nat)
    requires i <= j <= |gaps|
    ensures Offset(gaps, i) <= Offset(gaps, j)
    ensures i < j ==> Offset(gaps, i) + |gaps[i]| + 1 <= Offset(gaps, j)
  {
    if i < j {
      OffsetMonotone(gaps, i, j - 1);
    }
  }

  /**
   * `findPrevNonEmpty(tokens[i])`: in the linked stream, the nearest token
   * before `tokens[i]` that is neither WhiteSpace nor LineBreak is
   * `tokens[i - 1]`; only layout lies between the two.
   */
  lemma PrevNonEmptyIsPreviousToken(toks: seq<Token>, gaps: seq<seq<Token>>, i: nat)
    requires |gaps| == |toks| + 1 && 0 < i < |toks|
    requires forall j | 0 <= j < |gaps| :: AllLayout(gaps[j])
    ensures var p := FlatIndex(toks, gaps, At(i - 1));
            var q := FlatIndex(toks, gaps, At(i));
            p < q < |Flatten(toks, gaps)| &&
            Flatten(toks, gaps)[p] == toks[i - 1] && Flatten(toks, gaps)[q] == toks[i] &&
            forall m | p < m < q :: IsLayout(Flatten(toks, gaps)[m])
  {
    var flat := Flatten(toks, gaps);
    CursorDenotes(toks, gaps, At(i - 1));
    CursorDenotes(toks, gaps, At(i));
    FlattenAt(toks, gaps, i);
    var o := Offset(gaps, i);
    forall m | o <= m < o + |gaps[i]|
      ensures IsLayout(flat[m])
    {
      assert flat[m] == flat[o..o + |gaps[i]|][m - o];
      assert flat[m] in gaps[i];
    }
  }

  function ValueAt(toks: seq<Token>, gaps: seq<seq<Token>>, c: Cursor): string
    requires |gaps| == |toks| + 1 && ValidCursor(toks, gaps, c)
  {
    TokenAt(toks, gaps, c).value
  }
}
