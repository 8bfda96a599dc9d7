/**
 * The string primitives the controller relies on, over ASCII: `char.IsWhiteSpace`
 * and `string.Trim`, `ToLowerInvariant`, `ToUpperInvariant`, and the
 * `StringComparer.OrdinalIgnoreCase` equality used by the allowed-type set.
 * Characters outside ASCII are left unchanged by both case maps and are never
 * white space here.
 */
module Text {

  predicate IsWhiteSpace(c: char)
  {
    c == ' ' || c == '\t' || c == '\n' || c == '\U{B}' || c == '\U{C}' || c == '\r'
  }

  /** `string.IsNullOrWhiteSpace` for a non-null string: empty or only white space. */
  predicate AllWhiteSpace(s: string)
  {
    forall i :: 0 <= i < |s| ==> IsWhiteSpace(s[i])
  }

  /** Leading white space removed: a suffix of `s`, everything cut is white space. */
  function TrimStart(s: string): (r: string)
    ensures |r| <= |s| && r == s[|s| - |r|..]
    ensures AllWhiteSpace(s[..|s| - |r|])
    ensures r != [] ==> !IsWhiteSpace(r[0])
  {
    if s != [] && IsWhiteSpace(s[0]) then TrimStart(s[1..]) else s
  }

  /** Trailing white space removed: a prefix of `s`, everything cut is white space. */
  function TrimEnd(s: string): (r: string)
    ensures |r| <= |s| && r == s[..|r|]
    ensures AllWhiteSpace(s[|r|..])
    ensures r != [] ==> !IsWhiteSpace(r[|r| - 1])
  {
    if s != [] && IsWhiteSpace(s[|s| - 1]) then TrimEnd(s[..|s| - 1]) else s
  }

  /** `r` is `s[i..j]`, and everything of `s` before `i` and after `j` is white space. */
  ghost predicate BetweenWhiteSpace(s: string, r: string, i: int, j: int)
  {
    0 <= i <= j <= |s| && r == s[i..j] && AllWhiteSpace(s[..i]) && AllWhiteSpace(s[j..])
  }

  /** `string.Trim()`: the slice of `s` between its leading and trailing white space. */
  function Trim(s: string): (r: string)
    ensures exists i, j :: BetweenWhiteSpace(s, r, i, j)
    ensures r != [] ==> !IsWhiteSpace(r[0]) && !IsWhiteSpace(r[|r| - 1])
  {
    var t := TrimStart(s);
    var r := TrimEnd(t);
    SliceOfSlice(s, t, r);
    r
  }

  /** A prefix cut from behind a white-space prefix, with white space after it, lies between white space. */
  lemma SliceOfSlice(s: string, t: string, r: string)
    requires |t| <= |s| && t == s[|s| - |t|..] && AllWhiteSpace(s[..|s| - |t|])
    requires |r| <= |t| && r == t[..|r|] && AllWhiteSpace(t[|r|..])
    requires t != [] ==> !IsWhiteSpace(t[0])
    ensures r != [] ==> !IsWhiteSpace(r[0])
    ensures BetweenWhiteSpace(s, r, |s| - |t|, |s| - |t| + |r|)
  {
    var i, j := |s| - |t|, |s| - |t| + |r|;
    assert AllWhiteSpace(s[..i]);
    assert r == s[i..j] by {
      forall k | 0 <= k < |r| ensures r[k] == s[i + k] {
        assert r[k] == t[k] && t[k] == s[i + k];
      }
    }
    assert AllWhiteSpace(s[j..]) by {
      forall k | 0 <= k < |s| - j ensures IsWhiteSpace(s[j..][k]) {
        assert s[j + k] == t[|r| + k] && t[|r|..][k] == t[|r| + k];
      }
    }
  }

  /** Trimming leaves nothing exactly when the input is all white space. */
  lemma TrimEmptyIff(s: string)
    ensures Trim(s) == [] <==> AllWhiteSpace(s)
  {
    var t := TrimStart(s);
    if !AllWhiteSpace(s) {
      var k :| 0 <= k < |s| && !IsWhiteSpace(s[k]);
      assert k >= |s| - |t| && t[k - (|s| - |t|)] == s[k];
      assert TrimEnd(t) != [];
    }
  }

  /** Leading white space in front of a non-white-space character is exactly what TrimStart removes. */
  lemma {:induction false} TrimStartStrips(lead: string, rest: string)
    requires AllWhiteSpace(lead)
    requires rest != [] && !IsWhiteSpace(rest[0])
    ensures TrimStart(lead + rest) == rest
  {
    if lead == [] {
      assert lead + rest == rest;
    } else {
      assert (lead + rest)[0] == lead[0] && (lead + rest)[1..] == lead[1..] + rest;
      TrimStartStrips(lead[1..], rest);
    }
  }

  /** Trailing white space behind a non-white-space character is exactly what TrimEnd removes. */
  lemma {:induction false} TrimEndStrips(rest: string, trail: string)
    requires AllWhiteSpace(trail)
    requires rest != [] && !IsWhiteSpace(rest[|rest| - 1])
    ensures TrimEnd(rest + trail) == rest
  {
    if trail == [] {
      assert rest + trail == rest;
    } else {
      var all := rest + trail;
      assert all[|all| - 1] == trail[|trail| - 1];
      assert all[..|all| - 1] == rest + trail[..|trail| - 1];
      TrimEndStrips(rest, trail[..|trail| - 1]);
    }
  }

  /** Trimming white-space padding off a core that starts and ends with non-white space gives back the core. */
  lemma TrimStrips(lead: string, core: string, trail: string)
    requires AllWhiteSpace(lead) && AllWhiteSpace(trail)
    requires core != [] && !IsWhiteSpace(core[0]) && !IsWhiteSpace(core[|core| - 1])
    ensures Trim(lead + core + trail) == core
  {
    assert lead + core + trail == lead + (core + trail);
    assert (core + trail)[0] == core[0];
    TrimStartStrips(lead, core + trail);
    TrimEndStrips(core, trail);
  }

  /**
   * `string.Length`: the number of UTF-16 code units, so a character above
   * U+FFFF (a surrogate pair) counts twice.
   */
  function Utf16Length(s: string): (n: nat)
    ensures |s| <= n <= 2 * |s|
    ensures (forall i :: 0 <= i < |s| ==> s[i] <= '\U{FFFF}') ==> n == |s|
  {
    if s == [] then 0 else (if s[0] > '\U{FFFF}' then 2 else 1) + Utf16Length(s[1..])
  }

  function Upper(c: char): char
  {
    if 'a' <= c <= 'z' then (c as int - 32) as char else c
  }

  function Lower(c: char): char
  {
    if 'A' <= c <= 'Z' then (c as int + 32) as char else c
  }

  function ToUpperInvariant(s: string): (r: string)
  {
    seq(|s|, i requires 0 <= i < |s| => Upper(s[i]))
  }

  function ToLowerInvariant(s: string): (r: string)
  {
    seq(|s|, i requires 0 <= i < |s| => Lower(s[i]))
  }

  /** `StringComparer.OrdinalIgnoreCase.Equals`: equal after upper-casing each character. */
  predicate EqualsOrdinalIgnoreCase(a: string, b: string)
  {
    ToUpperInvariant(a) == ToUpperInvariant(b)
  }

  lemma UpperEqIffLowerEq(c: char, d: char)
    ensures Upper(c) == Upper(d) <==> Lower(c) == Lower(d)
  {
  }

  /**
   * Comparing by upper case (as OrdinalIgnoreCase does) and comparing by lower case
   * (as the stored, normalised type is) agree on every pair of strings.
   */
  lemma {:induction false} IgnoreCaseIffSameLowerCase(a: string, b: string)
    ensures EqualsOrdinalIgnoreCase(a, b) <==> ToLowerInvariant(a) == ToLowerInvariant(b)
  {
    if |a| == |b| {
      forall i | 0 <= i < |a| {
        UpperEqIffLowerEq(a[i], b[i]);
      }
      if EqualsOrdinalIgnoreCase(a, b) {
        forall i | 0 <= i < |a| ensures ToLowerInvariant(a)[i] == ToLowerInvariant(b)[i] {
          assert ToUpperInvariant(a)[i] == ToUpperInvariant(b)[i];
        }
      }
      if ToLowerInvariant(a) == ToLowerInvariant(b) {
        forall i | 0 <= i < |a| ensures ToUpperInvariant(a)[i] == ToUpperInvariant(b)[i] {
          assert ToLowerInvariant(a)[i] == ToLowerInvariant(b)[i];
        }
      }
    } else {
      assert |ToUpperInvariant(a)| != |ToUpperInvariant(b)|;
      assert |ToLowerInvariant(a)| != |ToLowerInvariant(b)|;
    }
  }
}
