/** String operations the detector (JavaScript `trim`, `toLowerCase`) and the backend
    (Python `strip`, `lower`, `in`, `replace`) apply to labels and queries. Strings are
    sequences of characters; only ASCII white space and ASCII letters are modelled. */
module Text {

  /** The ASCII white-space characters: space, tab, line feed, vertical tab, form feed, carriage return. */
  predicate IsSpace(c: char) {
    c == ' ' || '\t' <= c <= '\r'
  }

  /** Number of white-space characters at the start of `s`. */
  function LeadingSpaces(s: string): (n: nat)
    ensures n <= |s|
    ensures forall i :: 0 <= i < n ==> IsSpace(s[i])
    ensures n < |s| ==> !IsSpace(s[n])
  {
    if s != [] && IsSpace(s[0]) then 1 + LeadingSpaces(s[1..]) else 0
  }

  /** Number of white-space characters at the end of `s`. */
  function TrailingSpaces(s: string): (n: nat)
    ensures n <= |s|
    ensures forall i :: |s| - n <= i < |s| ==> IsSpace(s[i])
    ensures n < |s| ==> !IsSpace(s[|s| - 1 - n])
  {
    if s != [] && IsSpace(s[|s| - 1]) then 1 + TrailingSpaces(s[..|s| - 1]) else 0
  }

  /** `s` without its leading and trailing white space. */
  function Strip(s: string): (r: string)
    ensures |r| <= |s|
    ensures r == [] || (!IsSpace(r[0]) && !IsSpace(r[|r| - 1]))
  {
    var t := s[LeadingSpaces(s)..];
    t[..|t| - TrailingSpaces(t)]
  }

  /** Trimming leaves a name without surrounding whitespace as it is. */
  lemma StripPlain(name: string)
    requires name != [] && !IsSpace(name[0]) && !IsSpace(name[|name| - 1])
    ensures Strip(name) == name
  {
    assert LeadingSpaces(name) == 0;
    assert TrailingSpaces(name) == 0;
  }

  /** `Strip` removes exactly white space, and only at the two ends: the result is the
      slice of `s` between a white-space prefix and a white-space suffix. */
  lemma StripIsInnerSlice(s: string)
    ensures var a, r := LeadingSpaces(s), Strip(s);
      && a + |r| <= |s|
      && r == s[a..a + |r|]
      && (forall i :: 0 <= i < a ==> IsSpace(s[i]))
      && (forall i :: a + |r| <= i < |s| ==> IsSpace(s[i]))
  {
    var a := LeadingSpaces(s);
    var t := s[a..];
    var b := TrailingSpaces(t);
    var r := t[..|t| - b];
    assert Strip(s) == r;
    assert r == s[a..a + |r|];
    forall i | a + |r| <= i < |s| ensures IsSpace(s[i]) {
      assert s[i] == t[i - a];
    }
  }

  /** Stripping twice is stripping once. */
  lemma StripIdempotent(s: string)
    ensures Strip(Strip(s)) == Strip(s)
  {
    var r := Strip(s);
    assert LeadingSpaces(r) == 0;
    assert TrailingSpaces(r) == 0;
    assert r[0..] == r;
  }

  /** An ASCII upper-case letter becomes the lower-case letter 32 code points above it;
      every other character is kept. */
  function LowerChar(c: char): (r: char)
    ensures 'A' <= c <= 'Z' ==> 'a' <= r <= 'z' && r as int == c as int + 32
    ensures !('A' <= c <= 'Z') ==> r == c
  {
    if 'A' <= c <= 'Z' then (c as int + 32) as char else c
  }

  /** `s` with every ASCII upper-case letter replaced by its lower-case form. */
  function Lower(s: string): (r: string)
    ensures |r| == |s|
    ensures forall i :: 0 <= i < |r| ==> !('A' <= r[i] <= 'Z')
    ensures forall i :: 0 <= i < |s| ==> r[i] == LowerChar(s[i])
  {
    seq(|s|, i requires 0 <= i < |s| => LowerChar(s[i]))
  }

  /** Lower-casing twice is lower-casing once. */
  lemma LowerIdempotent(s: string)
    ensures Lower(Lower(s)) == Lower(s)
  {
  }

  /** Lower-casing, then stripping, gives a name that neither step changes any more. */
  lemma StripLowerNormal(s: string)
    ensures var u := Strip(Lower(s)); Lower(u) == u && Strip(u) == u
  {
    var l := Lower(s);
    var u := Strip(l);
    StripIsInnerSlice(l);
    var a := LeadingSpaces(l);
    forall i | 0 <= i < |u| ensures Lower(u)[i] == u[i] {
      assert u[i] == l[a + i];
    }
    if u != [] {
      StripPlain(u);
    }
  }

  /** Stripping, then lower-casing, gives a normal form: doing both again changes nothing. */
  lemma LowerStripIdempotent(s: string)
    ensures var u := Lower(Strip(s)); u == [] || (!IsSpace(u[0]) && !IsSpace(u[|u| - 1]))
    ensures Lower(Strip(Lower(Strip(s)))) == Lower(Strip(s))
  {
    var u := Lower(Strip(s));
    if u != [] {
      assert !IsSpace(u[0]) && !IsSpace(u[|u| - 1]);
      StripPlain(u);
    } else {
      assert Strip(u) == [];
    }
    LowerIdempotent(u);
  }

  /** `s` with every '-' replaced by ' ' (Python `s.replace("-", " ")`). */
  function HyphensToSpaces(s: string): (r: string)
    ensures |r| == |s| && '-' !in r
    ensures forall i :: 0 <= i < |s| ==> r[i] == (if s[i] == '-' then ' ' else s[i])
  {
    seq(|s|, i requires 0 <= i < |s| => if s[i] == '-' then ' ' else s[i])
  }

  predicate IsPrefix(p: string, s: string) {
    |p| <= |s| && s[..|p|] == p
  }

  /** `q` occurs in `s` starting at index `i`. */
  predicate OccursAt(s: string, q: string, i: int) {
    0 <= i && i + |q| <= |s| && s[i..i + |q|] == q
  }

  /** Python's `q in s` for strings: `q` is a contiguous substring of `s`. */
  predicate Contains(s: string, q: string)
    decreases |s|
  {
    IsPrefix(q, s) || (s != [] && Contains(s[1..], q))
  }

  /** `Contains` holds exactly when `q` occurs in `s` at some index. */
  lemma {:induction false} ContainsIffOccurs(s: string, q: string)
    ensures Contains(s, q) <==> exists i :: OccursAt(s, q, i)
  {
    if IsPrefix(q, s) {
      assert OccursAt(s, q, 0);
    } else if s == [] {
      assert forall i :: !OccursAt(s, q, i);
    } else {
      ContainsIffOccurs(s[1..], q);
      if exists i :: OccursAt(s[1..], q, i) {
        var i :| OccursAt(s[1..], q, i);
        assert s[1..][i..i + |q|] == s[i + 1..i + 1 + |q|];
        assert OccursAt(s, q, i + 1);
      }
      if exists i :: OccursAt(s, q, i) {
        var i :| OccursAt(s, q, i);
        assert i != 0;
        assert s[1..][i - 1..i - 1 + |q|] == s[i..i + |q|];
        assert OccursAt(s[1..], q, i - 1);
      }
    }
  }

  /** A string containing a hyphen never occurs in a string whose hyphens were replaced. */
  lemma HyphenatedNeverInReplaced(s: string, q: string)
    requires '-' in q
    ensures !Contains(HyphensToSpaces(s), q)
  {
    ContainsIffOccurs(HyphensToSpaces(s), q);
  }
}
