/**
 * The string operations the search box relies on: `toLowerCase` (approximated
 * by ASCII case folding) and `includes` (substring test).
 */
module Text {

  predicate IsUpper(c: char)
  {
    'A' <= c <= 'Z'
  }

  function ToLowerChar(c: char): char
  {
    if IsUpper(c) then (c as int - 'A' as int + 'a' as int) as char else c
  }

  /** `s.toLowerCase()` restricted to ASCII letters. */
  function ToLower(s: string): (r: string)
    ensures |r| == |s|
    ensures forall i :: 0 <= i < |r| ==> !IsUpper(r[i])
    ensures forall i :: 0 <= i < |s| && !IsUpper(s[i]) ==> r[i] == s[i]
    ensures forall i :: 0 <= i < |s| && IsUpper(s[i]) ==> r[i] as int == s[i] as int + ('a' as int - 'A' as int)
  {
    seq(|s|, i requires 0 <= i < |s| => ToLowerChar(s[i]))
  }

  /** `a` and `b` are the same character, or the same ASCII letter in the two cases. */
  predicate SameLetter(a: char, b: char)
  {
    || a == b
    || (IsUpper(a) && b as int == a as int + ('a' as int - 'A' as int))
    || (IsUpper(b) && a as int == b as int + ('a' as int - 'A' as int))
  }

  /** `s` and `t` spell the same text up to ASCII case. */
  predicate SameUpToCase(s: string, t: string)
  {
    |s| == |t| && forall i :: 0 <= i < |s| ==> SameLetter(s[i], t[i])
  }

  /** Two strings lower-case to the same string exactly when they agree up to ASCII case. */
  lemma ToLowerEqualIffSameUpToCase(s: string, t: string)
    ensures ToLower(s) == ToLower(t) <==> SameUpToCase(s, t)
  {
  }

  /** Lower-casing twice is lower-casing once. */
  lemma ToLowerIdempotent(s: string)
    ensures ToLower(ToLower(s)) == ToLower(s)
  {
  }

  /** `q` occurs in `s` starting at position `i`. */
  predicate OccursAt(s: string, q: string, i: int)
  {
    0 <= i && i + |q| <= |s| && s[i..i + |q|] == q
  }

  /** `s.includes(q)`: `q` is a prefix of `s` or of one of its suffixes. */
  predicate Includes(s: string, q: string)
    decreases |s|
  {
    (|q| <= |s| && s[..|q|] == q) || (|s| > 0 && Includes(s[1..], q))
  }

  /** The recursive `Includes` agrees with the positional definition of a substring. */
  lemma {:induction false} IncludesIffOccurs(s: string, q: string)
    ensures Includes(s, q) <==> exists i :: OccursAt(s, q, i)
    decreases |s|
  {
    if |q| <= |s| && s[..|q|] == q {
      assert OccursAt(s, q, 0);
    } else if |s| > 0 {
      IncludesIffOccurs(s[1..], q);
      if Includes(s[1..], q) {
        var i :| OccursAt(s[1..], q, i);
        assert s[i + 1..i + 1 + |q|] == s[1..][i..i + |q|];
        assert OccursAt(s, q, i + 1);
      } else if i :| OccursAt(s, q, i) {
        assert i != 0;
        assert s[1..][i - 1..i - 1 + |q|] == s[i..i + |q|];
        assert OccursAt(s[1..], q, i - 1);
        assert false;
      }
    }
  }

  /** The empty query is contained in every string. */
  lemma EmptyIncluded(s: string)
    ensures Includes(s, "")
  {
  }

  /** A query longer than the string is never contained in it. */
  lemma {:induction false} LongerNotIncluded(s: string, q: string)
    requires |q| > |s|
    ensures !Includes(s, q)
    decreases |s|
  {
    if |s| > 0 {
      LongerNotIncluded(s[1..], q);
    }
  }
}
