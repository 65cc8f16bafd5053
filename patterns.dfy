/**
 * The field extractors of the feed parser. Each is a JavaScript regular expression
 * `LABEL\s*<b>([^<]+)<\/b>` applied with `String.prototype.match` (no `g` flag), which
 * returns the capture of the leftmost match. `\s*` is followed by `<`, which is not white
 * space, and `[^<]+` is followed by `<`, so neither can backtrack: at a given start
 * position the expression matches in at most one way, computed by MatchAt.
 */
module Patterns {
  import opened Wrappers
  import opened Text

  /** Length of the white-space run of `s` starting at `i`. */
  function SpaceRun(s: string, i: nat): (n: nat)
    requires i <= |s|
    ensures i + n <= |s|
    ensures forall q :: i <= q < i + n ==> IsSpace(s[q])
    ensures i + n < |s| ==> !IsSpace(s[i + n])
    decreases |s| - i
  {
    if i == |s| || !IsSpace(s[i]) then 0
    else 1 + SpaceRun(s, i + 1)
  }

  predicate NoTag(s: string) { forall k :: 0 <= k < |s| ==> s[k] != '<' }

  /** Length of the run of characters other than `<` starting at `i`. */
  function TextRun(s: string, i: nat): (n: nat)
    requires i <= |s|
    ensures i + n <= |s|
    ensures forall q :: i <= q < i + n ==> s[q] != '<'
    ensures i + n < |s| ==> s[i + n] == '<'
    decreases |s| - i
  {
    if i == |s| || s[i] == '<' then 0
    else 1 + TextRun(s, i + 1)
  }

  /** `t` occurs in `s` at position `i`. */
  predicate At(s: string, i: nat, t: string) {
    i + |t| <= |s| && s[i..i + |t|] == t
  }

  /** `<b>` occurs in `s` at position `k`. */
  predicate OpenBoldAt(s: string, k: nat) {
    k + 3 <= |s| && s[k] == '<' && s[k + 1] == 'b' && s[k + 2] == '>'
  }

  /** `</b>` occurs in `s` at position `k`. */
  predicate CloseBoldAt(s: string, k: nat) {
    k + 4 <= |s| && s[k] == '<' && s[k + 1] == '/' && s[k + 2] == 'b' && s[k + 3] == '>'
  }

  /** The capture of `\s*<b>([^<]+)<\/b>` matched at position `j`, if it matches there. */
  function ValueAt(s: string, j: nat): Option<string>
    requires j <= |s|
  {
    var k := j + SpaceRun(s, j);
    if !OpenBoldAt(s, k) then None
    else
      var v := k + 3;
      var n := TextRun(s, v);
      if n == 0 || !CloseBoldAt(s, v + n) then None
      else Some(s[v..v + n])
  }

  /** The capture of `name\s*<b>([^<]+)<\/b>` for a match starting at position `i`, if there is one. */
  function MatchAt(s: string, name: string, i: nat): Option<string>
    requires i <= |s|
  {
    if At(s, i, name) then ValueAt(s, i + |name|) else None
  }

  /** What the regular expression denotes: `s[i..]` begins with name, white space `ws`, `<b>`, `cap`, `</b>`. */
  predicate Denotes(s: string, name: string, i: nat, ws: string, cap: string)
    requires i <= |s|
  {
    AllSpace(ws) && cap != [] && NoTag(cap) && name + ws + "<b>" + cap + "</b>" <= s[i..]
  }

  /**
   * The positions of a match at `i`: the name, white space up to `k`, `<b>` at `k`, a capture
   * of `n` characters other than `<`, then `</b>`.
   */
  predicate MatchShape(s: string, name: string, i: nat, k: nat, n: nat) {
    && i + |name| <= k && k + n + 7 <= |s|
    && s[i..i + |name|] == name
    && (forall q :: i + |name| <= q < k ==> IsSpace(s[q]))
    && OpenBoldAt(s, k)
    && n > 0 && (forall q :: k + 3 <= q < k + 3 + n ==> s[q] != '<')
    && CloseBoldAt(s, k + 3 + n)
  }

  /** A white-space run that ends at a `<` is exactly the run SpaceRun measures. */
  lemma {:induction false} SpaceRunIs(s: string, j: nat, k: nat)
    requires j <= k < |s| && (forall q :: j <= q < k ==> IsSpace(s[q])) && s[k] == '<'
    ensures SpaceRun(s, j) == k - j
    decreases k - j
  {
    if j < k {
      SpaceRunIs(s, j + 1, k);
    }
  }

  /** A run without `<` that ends at a `<` is exactly the run TextRun measures. */
  lemma {:induction false} TextRunIs(s: string, v: nat, e: nat)
    requires v <= e < |s| && (forall q :: v <= q < e ==> s[q] != '<') && s[e] == '<'
    ensures TextRun(s, v) == e - v
    decreases e - v
  {
    if v < e {
      TextRunIs(s, v + 1, e);
    }
  }

  /** The positions of a denoted match. */
  lemma DenotedShape(s: string, name: string, i: nat, ws: string, cap: string)
    requires i <= |s| && Denotes(s, name, i, ws, cap)
    ensures MatchShape(s, name, i, i + |name| + |ws|, |cap|)
    ensures s[i + |name| + |ws| + 3..i + |name| + |ws| + 3 + |cap|] == cap
  {
    var t := name + ws + "<b>" + cap + "</b>";
    var j, k := i + |name|, i + |name| + |ws|;
    var v, w := k + 3, k + 3 + |cap|;
    assert s[i..i + |t|] == t by {
      assert s[i..][..|t|] == t;
    }
    forall q | j <= q < k ensures IsSpace(s[q]) {
      assert s[q] == t[q - i] == ws[q - j];
    }
    forall q | v <= q < w ensures s[q] != '<' {
      assert s[q] == t[q - i] == cap[q - v];
    }
    assert s[i..j] == t[..|name|];
    assert s[v..w] == t[v - i..w - i];
    assert s[k] == t[k - i] && s[k + 1] == t[k + 1 - i] && s[k + 2] == t[k + 2 - i];
    assert s[w] == t[w - i] && s[w + 1] == t[w + 1 - i] && s[w + 2] == t[w + 2 - i] && s[w + 3] == t[w + 3 - i];
  }

  /** On a match of that shape, MatchAt reports its capture. */
  lemma ShapeMatches(s: string, name: string, i: nat, k: nat, n: nat)
    requires MatchShape(s, name, i, k, n)
    ensures MatchAt(s, name, i) == Some(s[k + 3..k + 3 + n])
  {
    var j, v := i + |name|, k + 3;
    SpaceRunIs(s, j, k);
    TextRunIs(s, v, v + n);
  }

  /** A successful MatchAt has seen a match of that shape. */
  lemma MatchAtShape(s: string, name: string, i: nat)
    requires i <= |s| && MatchAt(s, name, i).Some?
    ensures var k := i + |name| + SpaceRun(s, i + |name|);
            k + 3 <= |s| && MatchShape(s, name, i, k, TextRun(s, k + 3))
  {
  }

  /** A match of that shape is one the regular expression denotes. */
  lemma ShapeDenotes(s: string, name: string, i: nat, k: nat, n: nat)
    requires MatchShape(s, name, i, k, n)
    ensures Denotes(s, name, i, s[i + |name|..k], s[k + 3..k + 3 + n])
  {
    var j, v, w, e := i + |name|, k + 3, k + 3 + n, k + n + 7;
    var ws, cap := s[j..k], s[v..w];
    assert AllSpace(ws) by {
      forall q | 0 <= q < |ws| ensures IsSpace(ws[q]) { assert ws[q] == s[j + q]; }
    }
    assert NoTag(cap) by {
      forall q | 0 <= q < |cap| ensures cap[q] != '<' { assert cap[q] == s[v + q]; }
    }
    assert s[i..k] == name + ws by { SliceConcat(s, i, j, k); }
    assert s[i..v] == name + ws + "<b>" by { SliceConcat(s, i, k, v); }
    assert s[i..w] == name + ws + "<b>" + cap by { SliceConcat(s, i, v, w); }
    assert s[i..e] == name + ws + "<b>" + cap + "</b>" by { SliceConcat(s, i, w, e); }
    assert s[k..v] == "<b>" && s[w..e] == "</b>";
    assert s[i..][..e - i] == s[i..e];
  }

  /** MatchAt finds every match the regular expression denotes, with its capture (so the capture is unique). */
  lemma MatchAtComplete(s: string, name: string, i: nat, ws: string, cap: string)
    requires i <= |s| && Denotes(s, name, i, ws, cap)
    ensures MatchAt(s, name, i) == Some(cap)
  {
    DenotedShape(s, name, i, ws, cap);
    ShapeMatches(s, name, i, i + |name| + |ws|, |cap|);
  }

  /** Every capture MatchAt reports is one the regular expression denotes. */
  lemma MatchAtSound(s: string, name: string, i: nat)
    requires i <= |s| && MatchAt(s, name, i).Some?
    ensures exists ws :: Denotes(s, name, i, ws, MatchAt(s, name, i).value)
  {
    var k := i + |name| + SpaceRun(s, i + |name|);
    MatchAtShape(s, name, i);
    var n := TextRun(s, k + 3);
    ShapeMatches(s, name, i, k, n);
    ShapeDenotes(s, name, i, k, n);
  }

  lemma SliceConcat(s: string, a: nat, b: nat, c: nat)
    requires a <= b <= c <= |s|
    ensures s[a..c] == s[a..b] + s[b..c]
  {
  }

  /** The leftmost position from `i` on at which the expression matches. */
  function FirstMatch(s: string, name: string, i: nat): (p: Option<nat>)
    requires i <= |s|
    ensures p.Some? ==> i <= p.value <= |s| && MatchAt(s, name, p.value).Some?
    ensures p.Some? ==> forall q :: i <= q < p.value ==> MatchAt(s, name, q).None?
    ensures p.None? ==> forall q :: i <= q <= |s| ==> MatchAt(s, name, q).None?
    decreases |s| - i
  {
    if MatchAt(s, name, i).Some? then Some(i)
    else if i == |s| then None
    else FirstMatch(s, name, i + 1)
  }

  /** `s.match(LABEL\s*<b>([^<]+)<\/b>)?.[1]`: the capture of the leftmost match. */
  function Search(s: string, name: string): (r: Option<string>)
    ensures r.Some? ==> r.value != [] && NoTag(r.value)
  {
    match FirstMatch(s, name, 0)
    case None => None
    case Some(p) =>
      MatchAtSound(s, name, p);
      MatchAt(s, name, p)
  }

  /**
   * The unscoped price-per-m² expression `:\s*<b>([^<]+)<\/b>` matches wherever a
   * labelled one whose name ends in `:` does, one character before the name's end.
   */
  lemma ColonMatchInsideLabelled(s: string, name: string, i: nat)
    requires i <= |s| && name != [] && name[|name| - 1] == ':'
    requires MatchAt(s, name, i).Some?
    ensures i + |name| - 1 <= |s|
    ensures MatchAt(s, ":", i + |name| - 1) == MatchAt(s, name, i)
  {
    var c := i + |name| - 1;
    assert s[c..c + 1] == [s[i..i + |name|][|name| - 1]];
  }

  /** Hence whenever a labelled extractor finds a value, the unscoped one finds one too, no later than that name. */
  lemma ColonSearchNoLater(s: string, name: string)
    requires name != [] && name[|name| - 1] == ':'
    requires FirstMatch(s, name, 0).Some?
    ensures FirstMatch(s, ":", 0).Some?
    ensures FirstMatch(s, ":", 0).value <= FirstMatch(s, name, 0).value + |name| - 1
  {
    var p := FirstMatch(s, name, 0).value;
    ColonMatchInsideLabelled(s, name, p);
  }
}
