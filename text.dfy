/**
 * The string operations of JavaScript that the core relies on:
 * `toLowerCase`, `includes`, `split(' ')[0]` and `slice(k)`.
 */
module Text {

  predicate IsUpper(c: char) { 'A' <= c <= 'Z' }

  /** `toLowerCase` on one character; only the ASCII letters A-Z are mapped. */
  function LowerChar(c: char): char
  {
    if IsUpper(c) then (c as int + 32) as char else c
  }

  /** `b` is the lower-case form of the upper-case ASCII letter `a`. */
  predicate LowerOf(a: char, b: char)
  {
    IsUpper(a) && b as int == a as int + 32
  }

  /** The same character, or the same ASCII letter in its two cases. */
  predicate SameLetterUpToCase(a: char, b: char)
  {
    a == b || LowerOf(a, b) || LowerOf(b, a)
  }

  /** Two strings that differ at most in the case of ASCII letters. */
  predicate SameUpToAsciiCase(a: string, b: string)
  {
    |a| == |b| && forall i :: 0 <= i < |a| ==> SameLetterUpToCase(a[i], b[i])
  }

  /**
   * `s.toLowerCase()`, character by character: each character is kept or
   * replaced by its own lower-case form, and no upper-case letter is left.
   */
  function Lower(s: string): (r: string)
    ensures SameUpToAsciiCase(s, r)
    ensures forall i :: 0 <= i < |s| ==> !IsUpper(r[i])
  {
    seq(|s|, i requires 0 <= i < |s| => LowerChar(s[i]))
  }

  /** Two characters have the same lower-case form exactly when they agree up to case. */
  lemma LowerCharEqIff(a: char, b: char)
    ensures LowerChar(a) == LowerChar(b) <==> SameLetterUpToCase(a, b)
  {
  }

  /** Lower-casing identifies exactly the strings that differ only in the case of ASCII letters. */
  lemma LowerEqIff(a: string, b: string)
    ensures Lower(a) == Lower(b) <==> SameUpToAsciiCase(a, b)
  {
    if Lower(a) == Lower(b) {
      forall i | 0 <= i < |a| ensures SameLetterUpToCase(a[i], b[i]) {
        assert Lower(a)[i] == Lower(b)[i];
        LowerCharEqIff(a[i], b[i]);
      }
    }
    if SameUpToAsciiCase(a, b) {
      forall i | 0 <= i < |a| ensures Lower(a)[i] == Lower(b)[i] {
        LowerCharEqIff(a[i], b[i]);
      }
    }
  }

  /** Lower-casing twice is lower-casing once. */
  lemma LowerIdempotent(s: string)
    ensures Lower(Lower(s)) == Lower(s)
  {
  }

  /** `needle` occurs in `hay` starting at index `i`. */
  predicate OccursAt(hay: string, needle: string, i: int)
  {
    0 <= i && i + |needle| <= |hay| && hay[i..i + |needle|] == needle
  }

  /** `hay.includes(needle)`: the needle is a prefix of some suffix of the hay. */
  function Includes(hay: string, needle: string): (b: bool)
    ensures needle == [] ==> b
    ensures b ==> |needle| <= |hay|
    decreases |hay|
  {
    needle <= hay || (|hay| > 0 && Includes(hay[1..], needle))
  }

  /** An occurrence found by `Includes` is an index where the needle occurs. */
  lemma {:induction false} IncludesHasOccurrence(hay: string, needle: string) returns (i: int)
    requires Includes(hay, needle)
    ensures OccursAt(hay, needle, i)
    decreases |hay|
  {
    if needle <= hay {
      i := 0;
    } else {
      var j := IncludesHasOccurrence(hay[1..], needle);
      assert hay[1..][j..j + |needle|] == hay[j + 1..j + 1 + |needle|];
      i := j + 1;
    }
  }

  /** An occurrence at any index is found by `Includes`. */
  lemma {:induction false} OccurrenceIncluded(hay: string, needle: string, i: int)
    requires OccursAt(hay, needle, i)
    ensures Includes(hay, needle)
    decreases i
  {
    if i == 0 {
      assert hay[..|needle|] == needle;
    } else {
      assert hay[1..][i - 1..i - 1 + |needle|] == hay[i..i + |needle|];
      OccurrenceIncluded(hay[1..], needle, i - 1);
    }
  }

  /** `Includes` holds exactly when the needle occurs at some index of the hay. */
  lemma IncludesIff(hay: string, needle: string)
    ensures Includes(hay, needle) <==> exists i :: OccursAt(hay, needle, i)
  {
    if Includes(hay, needle) {
      var i := IncludesHasOccurrence(hay, needle);
    }
    forall i | OccursAt(hay, needle, i) ensures Includes(hay, needle) {
      OccurrenceIncluded(hay, needle, i);
    }
  }

  /**
   * `s.split(' ')[0]`: the characters before the first space, or the whole
   * string when it has no space.
   */
  function FirstWord(s: string): (r: string)
    ensures r <= s
    ensures ' ' !in r
    ensures r == s || s[|r|] == ' '
  {
    if s == [] || s[0] == ' ' then [] else [s[0]] + FirstWord(s[1..])
  }

  /** The three facts in `FirstWord`'s contract determine its result. */
  lemma {:induction false} FirstWordUnique(s: string, w: string)
    requires w <= s && ' ' !in w && (w == s || s[|w|] == ' ')
    ensures w == FirstWord(s)
  {
    if w != [] {
      assert s[0] == w[0] && s[0] != ' ';
      assert w[1..] <= s[1..];
      assert ' ' !in w[1..] by {
        forall k | 0 <= k < |w[1..]| ensures w[1..][k] != ' ' {
          assert w[1..][k] == w[k + 1];
        }
      }
      FirstWordUnique(s[1..], w[1..]);
      assert w == [w[0]] + w[1..];
    }
  }

  /** `s.slice(k)` for a non-negative `k`: the suffix from index `k`, or "" past the end. */
  function SliceFrom(s: string, k: nat): (r: string)
    ensures |r| == if k <= |s| then |s| - k else 0
    ensures forall i :: 0 <= i < |r| ==> r[i] == s[k + i]
  {
    if k <= |s| then s[k..] else ""
  }
}
