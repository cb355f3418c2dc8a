/**
 * String helpers shared by the relay: Python's `str.isspace`, `strip`,
 * `lower`, `split()`, substring search, `str.split(sep)` and the
 * whitespace-collapsing `re.sub(r'\s+', ' ', ...)`.
 */
module Text {

  /** The characters for which Python's `str.isspace()` holds; `strip()`,
      `split()` and the regular-expression class `\s` all use this set. */
  predicate IsSpace(c: char) {
    c == ' ' || '\t' <= c <= '\r' || '\U{1c}' <= c <= '\U{1f}'
    || c == '\U{85}' || c == '\U{a0}' || c == '\U{1680}'
    || '\U{2000}' <= c <= '\U{200a}' || c == '\U{2028}' || c == '\U{2029}'
    || c == '\U{202f}' || c == '\U{205f}' || c == '\U{3000}'
  }

  predicate AllSpace(s: string) {
    forall i :: 0 <= i < |s| ==> IsSpace(s[i])
  }

  predicate NoSpace(s: string) {
    forall i :: 0 <= i < |s| ==> !IsSpace(s[i])
  }

  /** Python's `not s.strip()`: the text is empty or only whitespace. */
  predicate IsBlank(s: string) {
    AllSpace(s)
  }

  // ---------------------------------------------------------------- case

  /** `str.lower()` restricted to ASCII letters. */
  function LowerChar(c: char): (r: char)
    ensures IsSpace(c) ==> r == c
    ensures !('A' <= r <= 'Z')
  {
    if 'A' <= c <= 'Z' then (c as int + 32) as char else c
  }

  function Lower(s: string): (r: string)
    ensures |r| == |s|
    ensures forall i :: 0 <= i < |s| ==> r[i] == LowerChar(s[i])
  {
    if s == [] then [] else [LowerChar(s[0])] + Lower(s[1..])
  }

  /** Two texts that differ only in letter case. */
  predicate SameUpToCase(a: string, b: string) {
    |a| == |b| && forall i :: 0 <= i < |a| ==> LowerChar(a[i]) == LowerChar(b[i])
  }

  // ------------------------------------------------------------- strip

  /** Drops the leading whitespace (`str.lstrip()`). */
  function TrimLeft(s: string): (r: string)
    ensures |r| <= |s|
    ensures r != [] ==> !IsSpace(r[0])
  {
    if s != [] && IsSpace(s[0]) then TrimLeft(s[1..]) else s
  }

  /** Drops the trailing whitespace (`str.rstrip()`). */
  function TrimRight(s: string): (r: string)
    ensures |r| <= |s|
    ensures r != [] ==> !IsSpace(r[|r| - 1])
  {
    if s != [] && IsSpace(s[|s| - 1]) then TrimRight(s[..|s| - 1]) else s
  }

  lemma {:induction false} TrimLeftIsSuffix(s: string)
    ensures TrimLeft(s) == s[|s| - |TrimLeft(s)|..]
    ensures AllSpace(s[..|s| - |TrimLeft(s)|])
  {
    if s != [] && IsSpace(s[0]) {
      TrimLeftIsSuffix(s[1..]);
      assert s[..|s| - |TrimLeft(s)|] == [s[0]] + s[1..][..|s[1..]| - |TrimLeft(s[1..])|];
    }
  }

  lemma {:induction false} TrimRightIsPrefix(s: string)
    ensures TrimRight(s) == s[..|TrimRight(s)|]
    ensures AllSpace(s[|TrimRight(s)|..])
  {
    if s != [] && IsSpace(s[|s| - 1]) {
      var p := s[..|s| - 1];
      TrimRightIsPrefix(p);
      assert s[|TrimRight(s)|..] == p[|TrimRight(p)|..] + [s[|s| - 1]];
    }
  }

  /** `str.strip()`: the text without surrounding whitespace. */
  function Strip(s: string): (r: string)
    ensures |r| <= |s|
    ensures r != [] ==> !IsSpace(r[0]) && !IsSpace(r[|r| - 1])
    ensures r == [] <==> IsBlank(s)
  {
    StripShape(s);
    TrimRight(TrimLeft(s))
  }

  lemma StripShape(s: string)
    ensures var r := TrimRight(TrimLeft(s));
      (r != [] ==> !IsSpace(r[0])) && (r == [] <==> IsBlank(s))
  {
    var l := TrimLeft(s);
    var r := TrimRight(l);
    TrimLeftIsSuffix(s);
    TrimRightIsPrefix(l);
    var i := |s| - |l|;
    if r != [] {
      assert r[0] == l[0];
      assert !IsSpace(s[i]);
    } else {
      forall k | 0 <= k < |s| ensures IsSpace(s[k]) {
        assert s[k] == s[..i][k];
      }
    }
  }

  lemma {:induction false} TrimLeftAllSpacePrefix(w: string, u: string)
    requires AllSpace(w)
    ensures TrimLeft(w + u) == TrimLeft(u)
  {
    if w != [] {
      assert (w + u)[0] == w[0];
      assert (w + u)[1..] == w[1..] + u;
      TrimLeftAllSpacePrefix(w[1..], u);
    } else {
      assert w + u == u;
    }
  }

  lemma {:induction false} TrimRightAllSpaceSuffix(u: string, w: string)
    requires AllSpace(w)
    ensures TrimRight(u + w) == TrimRight(u)
  {
    if w != [] {
      assert (u + w)[|u + w| - 1] == w[|w| - 1];
      assert (u + w)[..|u + w| - 1] == u + w[..|w| - 1];
      TrimRightAllSpaceSuffix(u, w[..|w| - 1]);
    } else {
      assert u + w == u;
    }
  }

  lemma {:induction false} TrimLeftAppend(u: string, w: string)
    requires TrimLeft(u) != []
    ensures TrimLeft(u + w) == TrimLeft(u) + w
  {
    assert (u + w)[0] == u[0];
    if IsSpace(u[0]) {
      assert (u + w)[1..] == u[1..] + w;
      TrimLeftAppend(u[1..], w);
    }
  }

  lemma {:induction false} TrimLeftBlank(s: string)
    requires AllSpace(s)
    ensures TrimLeft(s) == []
  {
    if s != [] {
      TrimLeftBlank(s[1..]);
    }
  }

  /** Whitespace around a text does not change what `strip()` returns. */
  lemma StripIgnoresSurroundingSpace(w1: string, u: string, w2: string)
    requires AllSpace(w1) && AllSpace(w2)
    ensures Strip(w1 + u + w2) == Strip(u)
  {
    assert w1 + u + w2 == w1 + (u + w2);
    TrimLeftAllSpacePrefix(w1, u + w2);
    if TrimLeft(u) != [] {
      TrimLeftAppend(u, w2);
      TrimRightAllSpaceSuffix(TrimLeft(u), w2);
    } else {
      StripShape(u);
      assert AllSpace(u + w2) by {
        forall k | 0 <= k < |u + w2| ensures IsSpace((u + w2)[k]) {
          if k < |u| { assert (u + w2)[k] == u[k]; } else { assert (u + w2)[k] == w2[k - |u|]; }
        }
      }
      TrimLeftBlank(u + w2);
    }
  }

  // ------------------------------------------------------------- split

  /** Length of the leading run of non-whitespace characters. */
  function WordEnd(s: string): (k: nat)
    ensures k <= |s|
    ensures s != [] && !IsSpace(s[0]) ==> k > 0
    ensures k < |s| ==> IsSpace(s[k])
  {
    if s == [] || IsSpace(s[0]) then 0 else 1 + WordEnd(s[1..])
  }

  /** `str.split()` with no separator: the maximal runs of non-whitespace. */
  function Words(s: string): seq<string>
    decreases |s|
  {
    var t := TrimLeft(s);
    if t == [] then []
    else
      var k := WordEnd(t);
      [t[..k]] + Words(t[k..])
  }

  /** The elements of a sequence, as a set. */
  function Elements(ws: seq<string>): (r: set<string>)
    ensures forall w :: w in r <==> w in ws
  {
    if ws == [] then {} else {ws[0]} + Elements(ws[1..])
  }

  /** The distinct words of `s`. */
  function WordSet(s: string): set<string> {
    Elements(Words(s))
  }

  lemma {:induction false} TrimLeftAppendSpace(x: string, c: char)
    requires IsSpace(c)
    ensures TrimLeft(x + [c]) == (if TrimLeft(x) == [] then [] else TrimLeft(x) + [c])
  {
    if x == [] {
      assert x + [c] == [c];
      assert [c][1..] == [];
    } else {
      assert (x + [c])[0] == x[0];
      if IsSpace(x[0]) {
        assert (x + [c])[1..] == x[1..] + [c];
        TrimLeftAppendSpace(x[1..], c);
      }
    }
  }

  lemma {:induction false} WordEndAppend(t: string, y: string)
    requires y == [] || IsSpace(y[0])
    ensures WordEnd(t + y) == WordEnd(t)
  {
    if t == [] {
      assert t + y == y;
    } else {
      assert (t + y)[0] == t[0];
      if !IsSpace(t[0]) {
        assert (t + y)[1..] == t[1..] + y;
        WordEndAppend(t[1..], y);
      }
    }
  }

  /** A trailing whitespace character never changes the words. */
  lemma {:induction false} WordsAppendSpace(x: string, c: char)
    requires IsSpace(c)
    ensures Words(x + [c]) == Words(x)
    decreases |x|
  {
    TrimLeftAppendSpace(x, c);
    var t := TrimLeft(x);
    if t != [] {
      var k := WordEnd(t);
      WordEndAppend(t, [c]);
      assert (t + [c])[..k] == t[..k];
      assert (t + [c])[k..] == t[k..] + [c];
      WordsAppendSpace(t[k..], c);
    }
  }

  lemma {:induction false} WordsTrimRight(s: string)
    ensures Words(TrimRight(s)) == Words(s)
    decreases |s|
  {
    if s != [] && IsSpace(s[|s| - 1]) {
      var p := s[..|s| - 1];
      assert s == p + [s[|s| - 1]];
      WordsAppendSpace(p, s[|s| - 1]);
      WordsTrimRight(p);
    }
  }

  lemma {:induction false} TrimLeftIdempotent(s: string)
    ensures TrimLeft(TrimLeft(s)) == TrimLeft(s)
  {
    if s != [] && IsSpace(s[0]) {
      TrimLeftIdempotent(s[1..]);
    }
  }

  lemma WordsStrip(s: string)
    ensures Words(Strip(s)) == Words(s)
  {
    WordsTrimRight(TrimLeft(s));
    TrimLeftIdempotent(s);
  }

  // ---------------------------------------------------------- cleaning

  /** `re.sub(r'\s+', ' ', s)`: every run of whitespace becomes one space. */
  function Collapse(s: string): string
    decreases |s|
  {
    if s == [] then []
    else if IsSpace(s[0]) then [' '] + Collapse(TrimLeft(s))
    else [s[0]] + Collapse(s[1..])
  }

  /** A text whose only whitespace is single spaces between non-space runs. */
  predicate Normalised(s: string) {
    (s != [] ==> !IsSpace(s[0]) && !IsSpace(s[|s| - 1]))
    && (forall i :: 0 <= i < |s| && IsSpace(s[i]) ==> s[i] == ' ')
    && (forall i :: 0 <= i < |s| - 1 && IsSpace(s[i]) ==> !IsSpace(s[i + 1]))
  }

  /** The part of `Normalised` that holds of every collapsed text. */
  predicate SingleSpaced(s: string) {
    (forall i :: 0 <= i < |s| && IsSpace(s[i]) ==> s[i] == ' ')
    && (forall i :: 0 <= i < |s| - 1 && IsSpace(s[i]) ==> !IsSpace(s[i + 1]))
  }

  lemma {:induction false} CollapseShape(s: string)
    ensures SingleSpaced(Collapse(s))
    ensures Collapse(s) == [] <==> s == []
    ensures s != [] ==> (IsSpace(Collapse(s)[0]) <==> IsSpace(s[0]))
    ensures s != [] ==> (IsSpace(Collapse(s)[|Collapse(s)| - 1]) <==> IsSpace(s[|s| - 1]))
    decreases |s|
  {
    if s != [] {
      var c := Collapse(s);
      if IsSpace(s[0]) {
        var t := TrimLeft(s);
        CollapseShape(t);
        TrimLeftIsSuffix(s);
        if t != [] {
          assert s[|s| - 1] == t[|t| - 1];
        }
        assert c == [' '] + Collapse(t);
        forall i | 0 <= i < |c| - 1 && IsSpace(c[i]) ensures !IsSpace(c[i + 1]) {
          if i > 0 { assert c[i] == Collapse(t)[i - 1]; }
        }
      } else {
        var t := s[1..];
        CollapseShape(t);
        assert c == [s[0]] + Collapse(t);
        if t != [] {
          assert s[|s| - 1] == t[|t| - 1];
        }
        forall i | 0 <= i < |c| - 1 && IsSpace(c[i]) ensures !IsSpace(c[i + 1]) {
          assert i > 0;
          assert c[i] == Collapse(t)[i - 1];
        }
      }
    }
  }

  /** `_clean_text`: strip, then collapse every whitespace run to one space. */
  function CleanText(s: string): (r: string)
    ensures Normalised(r)
    ensures r == [] <==> IsBlank(s)
  {
    CollapseShape(Strip(s));
    Collapse(Strip(s))
  }

  lemma {:induction false} CollapseKeepsWord(s: string)
    requires s != [] && !IsSpace(s[0])
    ensures Collapse(s) == s[..WordEnd(s)] + Collapse(s[WordEnd(s)..])
    decreases |s|
  {
    var t := s[1..];
    var k := WordEnd(s);
    assert k == 1 + WordEnd(t);
    assert Collapse(s) == [s[0]] + Collapse(t);
    if t != [] && !IsSpace(t[0]) {
      CollapseKeepsWord(t);
      var j := WordEnd(t);
      assert t[j..] == s[k..];
      assert s[..k] == [s[0]] + t[..j];
      assert Collapse(s) == [s[0]] + (t[..j] + Collapse(t[j..]));
    } else {
      assert WordEnd(t) == 0;
      assert s[..k] == [s[0]];
      assert s[k..] == t;
    }
  }

  lemma {:induction false} WordsCollapse(s: string)
    ensures Words(Collapse(s)) == Words(s)
    decreases |s|
  {
    if s != [] {
      if IsSpace(s[0]) {
        var t := TrimLeft(s);
        var y := Collapse(t);
        assert Collapse(s) == [' '] + y;
        assert ([' '] + y)[1..] == y;
        TrimLeftIdempotent(s);
        WordsCollapse(t);
      } else {
        var k := WordEnd(s);
        CollapseKeepsWord(s);
        var y := Collapse(s[k..]);
        CollapseShape(s[k..]);
        WordEndAppend(s[..k], y);
        assert WordEnd(s[..k]) == k by {
          WordEndAppend(s[..k], s[k..]);
          assert s[..k] + s[k..] == s;
        }
        var c := s[..k] + y;
        assert c[0] == s[0];
        assert c[..k] == s[..k];
        assert c[k..] == y;
        WordsCollapse(s[k..]);
      }
    }
  }

  /** Cleaning never changes the sequence of words: `_clean_text(s)` equals
      `' '.join(s.split())`. */
  lemma WordsCleanText(s: string)
    ensures Words(CleanText(s)) == Words(s)
  {
    WordsCollapse(Strip(s));
    WordsStrip(s);
  }

  // --------------------------------------------------------- substrings

  predicate StartsWith(s: string, p: string) {
    |p| <= |s| && s[..|p|] == p
  }

  /** Python's `sub in s`: some suffix of `s` starts with `sub`. */
  predicate Contains(s: string, sub: string)
    decreases |s|
  {
    StartsWith(s, sub) || (s != [] && Contains(s[1..], sub))
  }

  /** An occurrence at position `k` makes `sub in s` true. */
  lemma {:induction false} ContainsAt(s: string, sub: string, k: nat)
    requires k + |sub| <= |s| && s[k..k + |sub|] == sub
    ensures Contains(s, sub)
  {
    if k > 0 {
      assert s[1..][k - 1..k - 1 + |sub|] == s[k..k + |sub|];
      ContainsAt(s[1..], sub, k - 1);
    } else {
      assert s[..|sub|] == sub;
    }
  }

  /** Where `sub in s` holds, an occurrence position. */
  lemma {:induction false} ContainsWhere(s: string, sub: string) returns (k: nat)
    requires Contains(s, sub)
    ensures k + |sub| <= |s| && s[k..k + |sub|] == sub
  {
    if StartsWith(s, sub) {
      k := 0;
    } else {
      var j := ContainsWhere(s[1..], sub);
      assert s[1..][j..j + |sub|] == s[j + 1..j + 1 + |sub|];
      k := j + 1;
    }
  }

  lemma LowerSlice(s: string, a: nat, b: nat)
    requires a <= b <= |s|
    ensures Lower(s)[a..b] == Lower(s[a..b])
  {
    var l, m := Lower(s)[a..b], Lower(s[a..b]);
    forall i | 0 <= i < b - a ensures l[i] == m[i] {
      assert l[i] == LowerChar(s[a + i]) && s[a..b][i] == s[a + i];
    }
  }

  /** Lower-casing keeps every occurrence. */
  lemma ContainsLower(s: string, sub: string)
    requires Contains(s, sub)
    ensures Contains(Lower(s), Lower(sub))
  {
    var k := ContainsWhere(s, sub);
    LowerSlice(s, k, k + |sub|);
    ContainsAt(Lower(s), Lower(sub), k);
  }

  /** A lower-cased text contains nothing that starts with a capital. */
  lemma LowerHasNoCapital(s: string, sub: string)
    requires sub != [] && 'A' <= sub[0] <= 'Z'
    ensures !Contains(Lower(s), sub)
  {
    if Contains(Lower(s), sub) {
      var k := ContainsWhere(Lower(s), sub);
    }
  }

  /** Whatever contains `t` contains every prefix of `t`. */
  lemma ContainsPrefix(s: string, t: string, p: string)
    requires Contains(s, t) && StartsWith(t, p)
    ensures Contains(s, p)
  {
    var k := ContainsWhere(s, t);
    assert s[k..k + |p|] == t[..|p|];
    ContainsAt(s, p, k);
  }

  /** Texts that differ only in case lower-case to the same text. */
  lemma LowerSameUpToCase(a: string, b: string)
    requires SameUpToCase(a, b)
    ensures Lower(a) == Lower(b)
  {
  }

  /** The text before the first occurrence of `sep` (all of `s` if none):
      Python's `s.split(sep)[0]`. */
  function Before(s: string, sep: string): (r: string)
    requires sep != []
    ensures |r| <= |s| && r == s[..|r|]
    ensures Contains(s, sep) ==> StartsWith(s[|r|..], sep)
    ensures !Contains(s, sep) ==> r == s
    ensures forall i :: 0 <= i < |r| ==> !StartsWith(s[i..], sep)
    decreases |s|
  {
    if StartsWith(s, sep) || s == [] then []
    else
      var r := [s[0]] + Before(s[1..], sep);
      assert forall i :: 1 <= i < |r| ==> s[i..] == s[1..][i - 1..];
      r
  }

  /** The text after the first occurrence of `sep`. */
  function After(s: string, sep: string): (r: string)
    requires sep != [] && Contains(s, sep)
    ensures s == Before(s, sep) + sep + r
  {
    BeforeSplits(s, sep);
    s[|Before(s, sep)| + |sep|..]
  }

  /** An occurring separator follows the text before it. */
  lemma BeforeSplits(s: string, sep: string)
    requires sep != [] && Contains(s, sep)
    ensures |Before(s, sep)| + |sep| <= |s|
    ensures s == Before(s, sep) + sep + s[|Before(s, sep)| + |sep|..]
  {
    var b := Before(s, sep);
    var rest := s[|b|..];
    assert s == b + rest;
    assert StartsWith(rest, sep);
    assert rest == rest[..|sep|] + rest[|sep|..];
    assert rest[|sep|..] == s[|b| + |sep|..];
  }

  /** Python's `s.split(sep)[1]` when `sep in s`: the text between the first
      and the second occurrence of `sep`, or up to the end. */
  function SecondPiece(s: string, sep: string): (r: string)
    requires sep != [] && Contains(s, sep)
    ensures StartsWith(After(s, sep), r)
    ensures forall i :: 0 <= i < |r| ==> !StartsWith(After(s, sep)[i..], sep)
    ensures Contains(After(s, sep), sep) ==> StartsWith(After(s, sep)[|r|..], sep)
    ensures !Contains(After(s, sep), sep) ==> r == After(s, sep)
  {
    Before(After(s, sep), sep)
  }
}
