/**
 * The JavaScript string built-ins the dashboard relies on, restricted to
 * ASCII: `toLowerCase`, `trim`, `includes` and `replace` with a string
 * pattern, which replaces only the first occurrence it finds.
 */
module Text {

  datatype Option<+T> = None | Some(value: T)

  // ---------------------------------------------------------------------
  // toLowerCase (ASCII only)

  predicate IsUpper(c: char) { 'A' <= c <= 'Z' }

  function LowerChar(c: char): (d: char)
    ensures !IsUpper(d)
    ensures IsUpper(c) ==> d as int == c as int + 32
    ensures !IsUpper(c) ==> d == c
  {
    if IsUpper(c) then (c as int + 32) as char else c
  }

  /** `s.toLowerCase()` for ASCII text: every letter A-Z becomes a-z. */
  function Lower(s: string): (r: string)
    ensures |r| == |s|
  {
    seq(|s|, i requires 0 <= i < |s| => LowerChar(s[i]))
  }

  /** The result has no capital left: every capital A-Z becomes its own
      lowercase letter, and every other character is kept. */
  lemma LowerSpec(s: string)
    ensures forall i :: 0 <= i < |s| ==> !IsUpper(Lower(s)[i])
    ensures forall i :: 0 <= i < |s| && IsUpper(s[i]) ==> Lower(s)[i] as int == s[i] as int + 32
    ensures forall i :: 0 <= i < |s| && !IsUpper(s[i]) ==> Lower(s)[i] == s[i]
  {
  }

  lemma LowerIdempotent(s: string)
    ensures Lower(Lower(s)) == Lower(s)
  {
    assert forall i :: 0 <= i < |s| ==> Lower(Lower(s))[i] == Lower(s)[i];
  }

  /** Any slice of lowercased text is already lowercase. */
  lemma LowerSliceOfLower(s: string, a: int, b: int)
    requires 0 <= a <= b <= |s|
    ensures Lower(Lower(s)[a..b]) == Lower(s)[a..b]
  {
    var t := Lower(s)[a..b];
    assert forall i :: 0 <= i < |t| ==> t[i] == LowerChar(s[a + i]);
    assert forall i :: 0 <= i < |t| ==> Lower(t)[i] == t[i];
  }

  lemma LowerAppend(a: string, b: string)
    ensures Lower(a + b) == Lower(a) + Lower(b)
  {
    assert forall i :: 0 <= i < |a + b| ==> Lower(a + b)[i] == (Lower(a) + Lower(b))[i];
  }

  // ---------------------------------------------------------------------
  // trim (ASCII whitespace only)

  /** The ASCII characters that `String.prototype.trim` removes. */
  predicate IsWhitespace(c: char)
  {
    c == ' ' || c == '\t' || c == '\n' || c == '\r' || c == '\U{0B}' || c == '\U{0C}'
  }

  predicate AllWhitespace(s: string)
  {
    forall i :: 0 <= i < |s| ==> IsWhitespace(s[i])
  }

  /** Drops the leading whitespace. */
  function TrimStart(s: string): string
  {
    if |s| > 0 && IsWhitespace(s[0]) then TrimStart(s[1..]) else s
  }

  /** Drops the trailing whitespace. */
  function TrimEnd(s: string): string
  {
    if |s| > 0 && IsWhitespace(s[|s| - 1]) then TrimEnd(s[..|s| - 1]) else s
  }

  /** `s.trim()`: never longer than its input, and neither end of the
      result is whitespace. */
  function Trim(s: string): (r: string)
    ensures |r| <= |s|
    ensures r == [] || (!IsWhitespace(r[0]) && !IsWhitespace(r[|r| - 1]))
  {
    TrimStartSpec(s);
    TrimEndSpec(TrimStart(s));
    TrimEnd(TrimStart(s))
  }

  lemma {:induction false} TrimStartSpec(s: string)
    ensures var r := TrimStart(s);
      |r| <= |s| && r == s[|s| - |r|..] && AllWhitespace(s[..|s| - |r|])
      && (r == [] || !IsWhitespace(r[0]))
  {
    if |s| > 0 && IsWhitespace(s[0]) {
      TrimStartSpec(s[1..]);
      var r := TrimStart(s[1..]);
      assert s[..|s| - |r|] == [s[0]] + s[1..][..|s| - 1 - |r|];
    }
  }

  lemma {:induction false} TrimEndSpec(s: string)
    ensures var r := TrimEnd(s);
      |r| <= |s| && r == s[..|r|] && AllWhitespace(s[|r|..])
      && (r == [] || !IsWhitespace(r[|r| - 1]))
  {
    if |s| > 0 && IsWhitespace(s[|s| - 1]) {
      TrimEndSpec(s[..|s| - 1]);
      var r := TrimEnd(s[..|s| - 1]);
      assert s[|r|..] == s[..|s| - 1][|r|..] + [s[|s| - 1]];
    }
  }

  /** What `trim` promises: its result is a slice of the input with only
      whitespace cut off on either side, and neither of its ends is
      whitespace. */
  lemma TrimSpec(s: string)
    ensures exists a, b ::
      (0 <= a <= b <= |s| && Trim(s) == s[a..b] && AllWhitespace(s[..a]) && AllWhitespace(s[b..]))
    ensures Trim(s) == [] || (!IsWhitespace(Trim(s)[0]) && !IsWhitespace(Trim(s)[|Trim(s)| - 1]))
  {
    TrimStartSpec(s);
    var t := TrimStart(s);
    TrimEndSpec(t);
    var a := |s| - |t|;
    var b := a + |Trim(s)|;
    assert Trim(s) == s[a..b];
    assert s[b..] == t[|Trim(s)|..];
  }

  /** Text that neither starts nor ends with whitespace is left as it is. */
  lemma TrimUnchanged(s: string)
    requires |s| > 0 && !IsWhitespace(s[0]) && !IsWhitespace(s[|s| - 1])
    ensures Trim(s) == s
  {
    assert TrimStart(s) == s;
  }

  lemma {:induction false} TrimStartPrefix(ws: string, t: string)
    requires AllWhitespace(ws)
    ensures TrimStart(ws + t) == TrimStart(t)
  {
    if ws != [] {
      assert (ws + t)[1..] == ws[1..] + t;
      TrimStartPrefix(ws[1..], t);
    } else {
      assert ws + t == t;
    }
  }

  lemma {:induction false} TrimEndSuffix(t: string, ws: string)
    requires AllWhitespace(ws)
    ensures TrimEnd(t + ws) == TrimEnd(t)
  {
    if ws != [] {
      assert (t + ws)[..|t + ws| - 1] == t + ws[..|ws| - 1];
      TrimEndSuffix(t, ws[..|ws| - 1]);
    } else {
      assert t + ws == t;
    }
  }

  /** Leading whitespace before text that is not all whitespace is cut,
      and whatever follows that text stays. */
  lemma {:induction false} TrimStartAppend(t: string, u: string)
    requires TrimStart(t) != []
    ensures TrimStart(t + u) == TrimStart(t) + u
  {
    assert |t| > 0;
    if IsWhitespace(t[0]) {
      assert (t + u)[1..] == t[1..] + u;
      TrimStartAppend(t[1..], u);
    }
  }

  lemma {:induction false} TrimStartAllWhitespace(t: string)
    requires AllWhitespace(t)
    ensures TrimStart(t) == []
  {
    if t != [] {
      TrimStartAllWhitespace(t[1..]);
    }
  }

  /** `trim` ignores whitespace added around its input. */
  lemma TrimPadded(ws1: string, t: string, ws2: string)
    requires AllWhitespace(ws1) && AllWhitespace(ws2)
    ensures Trim(ws1 + t + ws2) == Trim(t)
  {
    assert ws1 + t + ws2 == ws1 + (t + ws2);
    TrimStartPrefix(ws1, t + ws2);
    if TrimStart(t) == [] {
      TrimStartSpec(t);
      assert AllWhitespace(t);
      assert AllWhitespace(t + ws2);
      TrimStartAllWhitespace(t + ws2);
    } else {
      TrimStartAppend(t, ws2);
      TrimEndSuffix(TrimStart(t), ws2);
    }
  }

  // ---------------------------------------------------------------------
  // includes, replace and the first-occurrence search it makes

  /** `pat` occurs in `s` starting at index `i`. */
  predicate OccursAt(s: string, pat: string, i: int)
  {
    0 <= i && i + |pat| <= |s| && s[i..i + |pat|] == pat
  }

  /** `s.includes(pat)`: the empty pattern is in every string, the whole
      string is in itself, and nothing longer than `s` is in it. */
  function Contains(s: string, pat: string): (b: bool)
    ensures pat == [] ==> b
    ensures pat == s ==> b
    ensures b ==> |pat| <= |s|
  {
    assert pat == [] || pat == s ==> OccursAt(s, pat, 0);
    exists i | 0 <= i <= |s| - |pat| :: OccursAt(s, pat, i)
  }

  /** An occurrence past the first character of `s` is an occurrence in `s[1..]`. */
  lemma OccursAfterFirst(s: string, pat: string)
    requires |s| > 0
    ensures forall j :: 1 <= j ==> (OccursAt(s, pat, j) <==> OccursAt(s[1..], pat, j - 1))
  {
    forall j | 1 <= j
      ensures OccursAt(s, pat, j) <==> OccursAt(s[1..], pat, j - 1)
    {
      if j + |pat| <= |s| {
        var a, b := s[j..j + |pat|], s[1..][j - 1..j - 1 + |pat|];
        assert |a| == |b|;
        assert forall m :: 0 <= m < |a| ==> a[m] == b[m];
        assert a == b;
      }
    }
  }

  /** The first index at which `pat` occurs in `s`, if any: the search
      `replace` with a string pattern makes before it substitutes. */
  function IndexOf(s: string, pat: string): (r: Option<nat>)
    ensures r.None? <==> !Contains(s, pat)
    ensures r.Some? ==> OccursAt(s, pat, r.value)
    ensures r.Some? ==> forall j :: 0 <= j < r.value ==> !OccursAt(s, pat, j)
    decreases |s|
  {
    if |s| < |pat| then None
    else if s[..|pat|] == pat then assert OccursAt(s, pat, 0); Some(0)
    else
      OccursAfterFirst(s, pat);
      assert !OccursAt(s, pat, 0);
      match IndexOf(s[1..], pat)
      case None => None
      case Some(k) => assert OccursAt(s, pat, k + 1); Some(k + 1)
  }

  /** `s.replace(pat, rep)` with a string pattern and a replacement taken
      literally: the first occurrence of `pat` is replaced by `rep`; without
      an occurrence `s` is returned. JavaScript also expands `$&`, `$$` and
      their kin in `rep`; this model does not, so it stands for `replace`
      only where `rep` contains no '$'. */
  function ReplaceFirst(s: string, pat: string, rep: string): (r: string)
    ensures !Contains(s, pat) ==> r == s
    ensures Contains(s, pat) ==>
      exists i :: OccursAt(s, pat, i)
        && (forall j :: 0 <= j < i ==> !OccursAt(s, pat, j))
        && r == s[..i] + rep + s[i + |pat|..]
    ensures |r| == if Contains(s, pat) then |s| - |pat| + |rep| else |s|
  {
    match IndexOf(s, pat)
    case None => s
    case Some(i) => s[..i] + rep + s[i + |pat|..]
  }

  /** Once the first occurrence of `pat` is known, `replace` is determined. */
  lemma ReplaceFirstAt(s: string, pat: string, rep: string, i: int)
    requires OccursAt(s, pat, i)
    requires forall j :: 0 <= j < i ==> !OccursAt(s, pat, j)
    ensures ReplaceFirst(s, pat, rep) == s[..i] + rep + s[i + |pat|..]
  {
    assert Contains(s, pat);
    var k := IndexOf(s, pat).value;
    assert k >= i;
    assert k <= i;
  }
}
