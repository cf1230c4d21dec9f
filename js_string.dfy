/**
 * String.prototype.trim (ECMA-262 5.1, section 15.5.4.20): the script trims the joined
 * manual address before encoding it. Trimming removes leading and trailing WhiteSpace
 * (section 7.2, including every Unicode "Zs" space separator) and LineTerminator
 * (section 7.3) characters.
 */
module JsString {

  /** WhiteSpace or LineTerminator in the sense of ECMA-262 sections 7.2 and 7.3. */
  predicate IsTrimmable(c: char) {
    || c == '\U{9}'    // TAB
    || c == '\U{B}'    // VT
    || c == '\U{C}'    // FF
    || c == ' '        // SP
    || c == '\U{A0}'   // NBSP
    || c == '\U{FEFF}' // ZWNBSP
    || c == '\U{1680}' // OGHAM SPACE MARK (Zs)
    || ('\U{2000}' <= c <= '\U{200A}') // EN QUAD .. HAIR SPACE (Zs)
    || c == '\U{202F}' // NARROW NO-BREAK SPACE (Zs)
    || c == '\U{205F}' // MEDIUM MATHEMATICAL SPACE (Zs)
    || c == '\U{3000}' // IDEOGRAPHIC SPACE (Zs)
    || c == '\n' || c == '\r'
    || c == '\U{2028}' // LINE SEPARATOR
    || c == '\U{2029}' // PARAGRAPH SEPARATOR
  }

  /** True when `s` consists of trimmable characters only (the empty string included). */
  predicate IsBlank(s: string) {
    forall k :: 0 <= k < |s| ==> IsTrimmable(s[k])
  }

  /** `s` without its leading trimmable characters. */
  function TrimStart(s: string): string
  {
    if s != [] && IsTrimmable(s[0]) then TrimStart(s[1..]) else s
  }

  /** `s` without its trailing trimmable characters. */
  function TrimEnd(s: string): string
  {
    if s != [] && IsTrimmable(s[|s| - 1]) then TrimEnd(s[..|s| - 1]) else s
  }

  /** String.prototype.trim: leading, then trailing trimmable characters removed. */
  function Trim(s: string): string
  {
    TrimEnd(TrimStart(s))
  }

  /**
   * TrimStart keeps the longest suffix that does not start with a trimmable character: what it
   * cuts off is blank and what it keeps does not start with a trimmable character.
   */
  lemma {:induction false} TrimStartSpec(s: string)
    ensures var r := TrimStart(s);
      && |r| <= |s| && r == s[|s| - |r|..]
      && IsBlank(s[..|s| - |r|])
      && (r == [] || !IsTrimmable(r[0]))
  {
    if s != [] && IsTrimmable(s[0]) {
      TrimStartSpec(s[1..]);
      var r := TrimStart(s[1..]);
      assert s[..|s| - |r|] == [s[0]] + s[1..][..|s| - 1 - |r|];
    }
  }

  /**
   * TrimEnd keeps the longest prefix that does not end with a trimmable character: what it
   * cuts off is blank and what it keeps does not end with a trimmable character.
   */
  lemma {:induction false} TrimEndSpec(s: string)
    ensures var r := TrimEnd(s);
      && |r| <= |s| && r == s[..|r|]
      && IsBlank(s[|r|..])
      && (r == [] || !IsTrimmable(r[|r| - 1]))
  {
    if s != [] && IsTrimmable(s[|s| - 1]) {
      TrimEndSpec(s[..|s| - 1]);
      var r := TrimEnd(s[..|s| - 1]);
      assert s[|r|..] == s[..|s| - 1][|r|..] + [s[|s| - 1]];
    }
  }

  /**
   * What `trim` returns: a contiguous slice of its argument, with only trimmable
   * characters cut away on either side.
   */
  lemma TrimIsCentralSlice(s: string)
    ensures var r := Trim(s);
      exists i :: 0 <= i <= |s| - |r| && r == s[i..i + |r|] && IsBlank(s[..i]) && IsBlank(s[i + |r|..])
  {
    var t := TrimStart(s);
    var r := TrimEnd(t);
    TrimStartSpec(s);
    TrimEndSpec(t);
    var i := |s| - |t|;
    assert r == s[i..i + |r|] by {
      assert t == s[i..];
      assert r == t[..|r|];
    }
    assert IsBlank(s[i + |r|..]) by {
      assert s[i + |r|..] == t[|r|..];
    }
    assert IsBlank(s[..i]);
  }

  /** The result of `trim` neither starts nor ends with a trimmable character. */
  lemma TrimmedEnds(s: string)
    ensures Trim(s) == [] || (!IsTrimmable(Trim(s)[0]) && !IsTrimmable(Trim(s)[|Trim(s)| - 1]))
  {
    var t := TrimStart(s);
    var r := TrimEnd(t);
    TrimStartSpec(s);
    TrimEndSpec(t);
    if r != [] {
      assert r[0] == t[0];
    }
  }

  /** `trim` yields the empty string exactly when its argument is blank. */
  lemma TrimEmptyIffBlank(s: string)
    ensures Trim(s) == [] <==> IsBlank(s)
  {
    var t := TrimStart(s);
    TrimStartSpec(s);
    TrimEndSpec(t);
    if Trim(s) == [] {
      assert IsBlank(t);
      assert t == [];
      assert s == s[..|s| - |t|];
    }
  }

  /** Trimming twice is trimming once (a property of `trim` itself; the script trims once). */
  lemma TrimIdempotent(s: string)
    ensures Trim(Trim(s)) == Trim(s)
  {
    var r := Trim(s);
    TrimmedEnds(s);
    if r != [] {
      assert TrimStart(r) == r;
      assert TrimEnd(r) == r;
    }
  }
}
