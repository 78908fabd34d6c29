/**
 * The JavaScript string operations the source relies on: String.prototype.trim,
 * String.prototype.slice(0, n) and the ASCII part of String.prototype.toLowerCase.
 */
module JsText {

  /** ECMAScript WhiteSpace and LineTerminator code points: what `trim` removes. */
  predicate IsJsSpace(c: char) {
    c == '\t' || c == '\U{000B}' || c == '\U{000C}' || c == ' ' || c == '\U{00A0}' || c == '\U{FEFF}'
    || c == '\n' || c == '\r' || c == '\U{2028}' || c == '\U{2029}'
    || c == '\U{1680}' || ('\U{2000}' <= c <= '\U{200A}') || c == '\U{202F}' || c == '\U{205F}' || c == '\U{3000}'
  }

  predicate AllSpace(s: string) {
    forall i :: 0 <= i < |s| ==> IsJsSpace(s[i])
  }

  /** Leading white space removed. */
  function TrimStart(s: string): string {
    if s == [] || !IsJsSpace(s[0]) then s else TrimStart(s[1..])
  }

  /** Trailing white space removed. */
  function TrimEnd(s: string): string {
    if s == [] || !IsJsSpace(s[|s| - 1]) then s else TrimEnd(s[..|s| - 1])
  }

  /** String.prototype.trim. */
  function Trim(s: string): string {
    TrimEnd(TrimStart(s))
  }

  /** TrimStart removes a white-space prefix and stops at the first non-space character. */
  lemma {:induction false} TrimStartSpec(s: string)
    ensures var r := TrimStart(s);
      && |r| <= |s| && r == s[|s| - |r|..]
      && AllSpace(s[..|s| - |r|])
      && (r == [] || !IsJsSpace(r[0]))
  {
    if s != [] && IsJsSpace(s[0]) {
      TrimStartSpec(s[1..]);
      var r := TrimStart(s);
      assert r == TrimStart(s[1..]);
      var k := |s| - |r|;
      assert s[1..][k - 1..] == s[k..];
      AllSpaceCons(s[0], s[1..][..k - 1]);
      assert s[..k] == [s[0]] + s[1..][..k - 1];
    }
  }

  lemma AllSpaceCons(c: char, t: string)
    requires IsJsSpace(c) && AllSpace(t)
    ensures AllSpace([c] + t)
  {
    forall i | 0 <= i < |t| + 1 ensures IsJsSpace(([c] + t)[i]) {
      if i > 0 {
        assert ([c] + t)[i] == t[i - 1];
      }
    }
  }

  /** TrimEnd removes a white-space suffix and stops at the last non-space character. */
  lemma {:induction false} TrimEndSpec(s: string)
    ensures var r := TrimEnd(s);
      && |r| <= |s| && r == s[..|r|]
      && AllSpace(s[|r|..])
      && (r == [] || !IsJsSpace(r[|r| - 1]))
  {
    if s != [] && IsJsSpace(s[|s| - 1]) {
      TrimEndSpec(s[..|s| - 1]);
      var r := TrimEnd(s);
      assert s[|r|..] == s[..|s| - 1][|r|..] + [s[|s| - 1]];
    }
  }

  /**
   * Trim yields the middle of `s` between a white-space prefix and a white-space suffix, and
   * neither starts nor ends with white space.
   */
  lemma TrimSpec(s: string)
    ensures var r := Trim(s);
      && (r == [] || (!IsJsSpace(r[0]) && !IsJsSpace(r[|r| - 1])))
      && exists i :: 0 <= i <= |s| - |r| && s == s[..i] + r + s[i + |r|..]
           && AllSpace(s[..i]) && AllSpace(s[i + |r|..])
  {
    var t := TrimStart(s);
    TrimStartSpec(s);
    TrimEndSpec(t);
    var r := TrimEnd(t);
    var i := |s| - |t|;
    MiddleSplit(s, t, r, i);
  }

  /** Splitting `s` at `i` and its tail `t` at `|r|` gives back `s` around `r`. */
  lemma MiddleSplit(s: string, t: string, r: string, i: int)
    requires 0 <= i <= |s| && t == s[i..] && |r| <= |t| && r == t[..|r|]
    requires AllSpace(s[..i]) && AllSpace(t[|r|..])
    ensures r == [] || r[0] == t[0]
    ensures 0 <= i <= |s| - |r| && s == s[..i] + r + s[i + |r|..]
    ensures AllSpace(s[..i]) && AllSpace(s[i + |r|..])
  {
    assert s[i + |r|..] == t[|r|..];
    assert s == s[..i] + t;
    assert t == r + t[|r|..];
  }

  /** A string trims to the empty string exactly when it consists of white space only. */
  lemma {:induction false} TrimEmptyIffBlank(s: string)
    ensures Trim(s) == [] <==> AllSpace(s)
  {
    TrimStartBlank(s);
    var t := TrimStart(s);
    TrimEndSpec(t);
    if !AllSpace(t) {
      assert t[0..] == t;
    }
  }

  /** Trimming the start removes everything exactly when everything is white space. */
  lemma {:induction false} TrimStartBlank(s: string)
    ensures AllSpace(TrimStart(s)) <==> AllSpace(s)
    ensures AllSpace(s) ==> TrimStart(s) == []
  {
    if s != [] && IsJsSpace(s[0]) {
      TrimStartBlank(s[1..]);
      assert AllSpace(s) <==> AllSpace(s[1..]);
    }
  }

  /** String.prototype.slice(0, n): the first n characters, or all of them when fewer. */
  function Truncate(s: string, n: nat): (r: string)
    ensures |r| == if |s| <= n then |s| else n
    ensures r <= s
  {
    if |s| <= n then s else s[..n]
  }

  /** Truncation cannot be undone but can be repeated without effect, and leaves short strings alone. */
  lemma TruncateIdempotent(s: string, n: nat)
    ensures Truncate(Truncate(s, n), n) == Truncate(s, n)
    ensures |s| <= n ==> Truncate(s, n) == s
  {
  }

  function LowerChar(c: char): char {
    if 'A' <= c <= 'Z' then (c as int + 32) as char else c
  }

  /** String.prototype.toLowerCase restricted to the ASCII letters. */
  function ToLowerAscii(s: string): (r: string)
    ensures |r| == |s|
    ensures forall i :: 0 <= i < |s| ==> r[i] == LowerChar(s[i])
  {
    if s == [] then [] else [LowerChar(s[0])] + ToLowerAscii(s[1..])
  }

  /** Leading white space in front of a string does not survive TrimStart. */
  lemma {:induction false} TrimStartPadded(pad: string, s: string)
    requires AllSpace(pad)
    ensures TrimStart(pad + s) == TrimStart(s)
  {
    if pad != [] {
      assert (pad + s)[1..] == pad[1..] + s;
      TrimStartPadded(pad[1..], s);
    } else {
      assert pad + s == s;
    }
  }

  /** Trailing white space after a string does not survive TrimEnd. */
  lemma {:induction false} TrimEndPadded(s: string, pad: string)
    requires AllSpace(pad)
    ensures TrimEnd(s + pad) == TrimEnd(s)
  {
    if pad != [] {
      var p' := pad[..|pad| - 1];
      assert (s + pad)[..|s + pad| - 1] == s + p';
      TrimEndPadded(s, p');
    } else {
      assert s + pad == s;
    }
  }

  /** TrimStart of a string with a non-space character leaves what follows that string alone. */
  lemma {:induction false} TrimStartAppend(s: string, t: string)
    requires !AllSpace(s)
    ensures TrimStart(s + t) == TrimStart(s) + t
  {
    assert s != [];
    if IsJsSpace(s[0]) {
      assert (s + t)[1..] == s[1..] + t;
      TrimStartAppend(s[1..], t);
    }
  }

  /** White space around a string does not change what trim yields. */
  lemma TrimPadded(pad1: string, s: string, pad2: string)
    requires AllSpace(pad1) && AllSpace(pad2)
    ensures Trim(pad1 + s + pad2) == Trim(s)
  {
    assert pad1 + s + pad2 == pad1 + (s + pad2);
    TrimStartPadded(pad1, s + pad2);
    if AllSpace(s) {
      assert AllSpace(s + pad2);
      TrimStartBlank(s + pad2);
      TrimStartBlank(s);
    } else {
      TrimStartAppend(s, pad2);
      TrimEndPadded(TrimStart(s), pad2);
    }
  }

  /** Lower-casing works character by character and is idempotent. */
  lemma ToLowerAsciiAppend(a: string, b: string)
    ensures ToLowerAscii(a + b) == ToLowerAscii(a) + ToLowerAscii(b)
    ensures ToLowerAscii(ToLowerAscii(a)) == ToLowerAscii(a)
  {
    assert ToLowerAscii(a + b) == ToLowerAscii(a) + ToLowerAscii(b);
  }

  /** White space is not affected by lower-casing. */
  lemma ToLowerAsciiSpace(pad: string)
    requires AllSpace(pad)
    ensures ToLowerAscii(pad) == pad
  {
    assert ToLowerAscii(pad) == pad;
  }
}
