/**
 * Character classes and string operations of JavaScript that the parser relies on:
 * the `\s`, `\d` and `\w` classes of regular expressions, `String.prototype.trim`,
 * `indexOf`, `includes` and character-class removal (`replace(/[...]+/g, '')`).
 */
module Text {

  /** JavaScript's WhiteSpace and LineTerminator code points: what `\s` matches and `trim()` removes. */
  predicate IsSpace(c: char) {
    c == ' ' || c == '\t' || c == '\n' || c == '\r' || c == '\U{000B}' || c == '\U{000C}'
    || c == '\U{00A0}' || c == '\U{1680}' || ('\U{2000}' <= c <= '\U{200A}')
    || c == '\U{2028}' || c == '\U{2029}' || c == '\U{202F}' || c == '\U{205F}'
    || c == '\U{3000}' || c == '\U{FEFF}'
  }

  /** `\d` */
  predicate IsDigit(c: char) { '0' <= c <= '9' }

  /** `\w` */
  predicate IsWordChar(c: char) {
    ('a' <= c <= 'z') || ('A' <= c <= 'Z') || IsDigit(c) || c == '_'
  }

  predicate AllSpace(s: string) { forall k :: 0 <= k < |s| ==> IsSpace(s[k]) }

  predicate AllDigits(s: string) { forall k :: 0 <= k < |s| ==> IsDigit(s[k]) }

  predicate AllWord(s: string) { forall k :: 0 <= k < |s| ==> IsWordChar(s[k]) }

  /** No white space at either end. */
  predicate Trimmed(s: string) { s == [] || (!IsSpace(s[0]) && !IsSpace(s[|s| - 1])) }

  /** Number of white-space characters at the start of `s`. */
  function LeadingSpaces(s: string): (n: nat)
    ensures n <= |s|
    ensures AllSpace(s[..n])
    ensures n < |s| ==> !IsSpace(s[n])
  {
    if s == [] || !IsSpace(s[0]) then 0
    else
      var m := LeadingSpaces(s[1..]);
      assert forall k :: 1 <= k < 1 + m ==> s[k] == s[1..][..m][k - 1];
      1 + m
  }

  /** Number of white-space characters at the end of `s`, not counting any before position `lo`. */
  function TrailingSpaces(s: string, lo: nat): (n: nat)
    requires lo <= |s|
    ensures lo + n <= |s|
    ensures AllSpace(s[|s| - n..])
    ensures lo + n < |s| ==> !IsSpace(s[|s| - n - 1])
  {
    if |s| == lo || !IsSpace(s[|s| - 1]) then 0
    else
      var init := s[..|s| - 1];
      var m := TrailingSpaces(init, lo);
      assert forall k :: |s| - 1 - m <= k < |s| - 1 ==> s[k] == init[|init| - m..][k - (|s| - 1 - m)];
      1 + m
  }

  /** `s.trim()`: the infix of `s` left after removing white space at both ends. */
  function Trim(s: string): (r: string)
    ensures Trimmed(r)
    ensures |r| <= |s|
    ensures forall c :: c in r ==> c in s
    ensures exists i :: 0 <= i <= |s| - |r| && r == s[i..i + |r|] && AllSpace(s[..i]) && AllSpace(s[i + |r|..])
  {
    var i := LeadingSpaces(s);
    var e := |s| - TrailingSpaces(s, i);
    InnerSlice(s, i, e);
    s[i..e]
  }

  /** A slice of `s` between white space at both ends, as Trim promises it. */
  lemma InnerSlice(s: string, i: nat, e: nat)
    requires i <= e <= |s| && AllSpace(s[..i]) && AllSpace(s[e..])
    requires i < e ==> !IsSpace(s[i]) && !IsSpace(s[e - 1])
    ensures Trimmed(s[i..e])
    ensures forall c :: c in s[i..e] ==> c in s
    ensures exists p :: 0 <= p <= |s| - |s[i..e]| && s[i..e] == s[p..p + |s[i..e]|] && AllSpace(s[..p]) && AllSpace(s[p + |s[i..e]|..])
  {
    assert s[i..e] == s[i..i + |s[i..e]|];
    assert i < e ==> s[i..e][0] == s[i] && s[i..e][e - i - 1] == s[e - 1];
    forall c | c in s[i..e] ensures c in s {
      var k :| 0 <= k < e - i && s[i..e][k] == c;
      assert s[i + k] == c;
    }
  }

  /** The leading white space of `a + t` is exactly `a` when `t` does not start with white space. */
  lemma {:induction false} LeadingSpacesOfPadded(a: string, t: string)
    requires AllSpace(a) && (t == [] || !IsSpace(t[0]))
    ensures LeadingSpaces(a + t) == |a|
  {
    if a == [] {
      assert a + t == t;
    } else {
      var s := a + t;
      assert s[0] == a[0];
      assert s[1..] == a[1..] + t;
      LeadingSpacesOfPadded(a[1..], t);
    }
  }

  /** The trailing white space of `t + b` above `lo` is exactly `b` when `t` does not end with white space above `lo`. */
  lemma {:induction false} TrailingSpacesOfPadded(t: string, b: string, lo: nat)
    requires lo <= |t| && AllSpace(b) && (lo < |t| ==> !IsSpace(t[|t| - 1]))
    ensures TrailingSpaces(t + b, lo) == |b|
  {
    if b == [] {
      assert t + b == t;
    } else {
      var s := t + b;
      assert s[|s| - 1] == b[|b| - 1];
      assert s[..|s| - 1] == t + b[..|b| - 1];
      TrailingSpacesOfPadded(t, b[..|b| - 1], lo);
    }
  }

  /** Trim is characterised by its ensures: any split into spaces, a trimmed middle and spaces yields the middle. */
  lemma TrimOfPadded(a: string, m: string, b: string)
    requires AllSpace(a) && AllSpace(b) && Trimmed(m)
    ensures Trim(a + m + b) == m
  {
    var s := a + m + b;
    if m == [] {
      assert s == a + b;
      assert AllSpace(s);
      LeadingSpacesOfPadded(s, []);
      assert s + [] == s;
    } else {
      assert s == a + (m + b);
      LeadingSpacesOfPadded(a, m + b);
      assert s == (a + m) + b;
      TrailingSpacesOfPadded(a + m, b, |a|);
    }
  }

  /** Trimming twice is trimming once. */
  lemma TrimIdempotent(s: string)
    ensures Trim(Trim(s)) == Trim(s)
  {
    TrimOfTrimmed(Trim(s));
  }

  /** Text without white space at its ends is left as it is. */
  lemma TrimOfTrimmed(m: string)
    requires Trimmed(m)
    ensures Trim(m) == m
  {
    assert m == [] + m + [];
    TrimOfPadded([], m, []);
  }

  /** `s.indexOf(c)`: the first position of `c` in `s`, or -1. */
  function IndexOf(s: string, c: char): (k: int)
    ensures -1 <= k < |s|
    ensures k >= 0 ==> s[k] == c && c !in s[..k]
    ensures k == -1 <==> c !in s
  {
    if s == [] then -1
    else if s[0] == c then 0
    else
      var k := IndexOf(s[1..], c);
      if k == -1 then -1
      else
        assert s[..k + 1] == [s[0]] + s[1..][..k];
        k + 1
  }

  /** `s.includes(sub)`. */
  function Includes(s: string, sub: string): (b: bool)
    ensures b <==> exists i :: 0 <= i <= |s| - |sub| && sub <= s[i..]
  {
    if sub <= s then
      assert sub <= s[0..];
      true
    else if s == [] then false
    else
      var b := Includes(s[1..], sub);
      assert forall i :: 1 <= i <= |s| - |sub| ==> s[i..] == s[1..][i - 1..];
      b
  }

  /** `s.replace(/[class]+/g, '')`: the characters of `s` outside the class, in order. */
  function Remove(s: string, drop: char -> bool): (r: string)
    ensures |r| <= |s|
    ensures forall k :: 0 <= k < |r| ==> !drop(r[k])
    ensures forall c :: c in s && !drop(c) <==> c in r
  {
    if s == [] then []
    else
      var rest := Remove(s[1..], drop);
      assert forall c :: c in s <==> c == s[0] || c in s[1..];
      if drop(s[0]) then rest else [s[0]] + rest
  }

  /** Removing from a single character keeps it exactly when it is outside the class. */
  lemma RemoveOne(c: char, drop: char -> bool)
    ensures Remove([c], drop) == if drop(c) then [] else [c]
  {
    assert [c][1..] == [];
  }

  /** Removal works piecewise: order and multiplicity of the kept characters are those of the input. */
  lemma {:induction false} RemoveConcat(a: string, b: string, drop: char -> bool)
    ensures Remove(a + b, drop) == Remove(a, drop) + Remove(b, drop)
    decreases |a|
  {
    if a == [] {
      assert a + b == b;
    } else {
      assert (a + b)[1..] == a[1..] + b;
      assert (a + b)[0] == a[0];
      RemoveConcat(a[1..], b, drop);
    }
  }

  /** Concatenation regrouped to the left. */
  lemma Reassociate<T>(x: seq<T>, y: seq<T>, z: seq<T>)
    ensures x + (y + z) == (x + y) + z
  {
  }
}
