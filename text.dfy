/**
 * The two string operations the search boxes of both pages use:
 * `String.prototype.toLowerCase` (restricted here to the ASCII letters) and
 * `String.prototype.includes`.
 */
module Text {
  import Seqs

  predicate IsAsciiUpper(c: char) { 'A' <= c <= 'Z' }

  /** The lower-case form of one character: `A`..`Z` become `a`..`z`, every other character is kept. */
  function LowerChar(c: char): (d: char)
    ensures !IsAsciiUpper(d)
    ensures IsAsciiUpper(c) ==> d as int == c as int + ('a' as int - 'A' as int)
    ensures !IsAsciiUpper(c) ==> d == c
  {
    if IsAsciiUpper(c) then (c as int - 'A' as int + 'a' as int) as char else c
  }

  /** `toLowerCase`: the string with every character lowered, same length. */
  function Lower(s: string): (r: string)
    ensures |r| == |s|
    ensures forall i :: 0 <= i < |s| ==> r[i] == LowerChar(s[i])
  {
    Seqs.Map(s, LowerChar)
  }

  /** Lowering an already lowered string changes nothing. */
  lemma LowerIdempotent(s: string)
    ensures Lower(Lower(s)) == Lower(s)
  {
  }

  /** `sub` occurs in `s` starting at position `i`. */
  predicate OccursAt(s: string, sub: string, i: nat)
  {
    i + |sub| <= |s| && s[i..i + |sub|] == sub
  }

  /** `includes`: whether `sub` occurs somewhere in `s`, searched from the front. */
  function Includes(s: string, sub: string): bool
    decreases |s|
  {
    if |sub| > |s| then false
    else if s[..|sub|] == sub then true
    else Includes(s[1..], sub)
  }

  /** The search finds `sub` exactly when `sub` occurs at some position of `s`. */
  lemma {:induction false} IncludesIff(s: string, sub: string)
    ensures Includes(s, sub) <==> exists i: nat :: OccursAt(s, sub, i)
  {
    if |sub| > |s| {
      // no position fits
    } else if s[..|sub|] == sub {
      assert OccursAt(s, sub, 0);
    } else {
      IncludesIff(s[1..], sub);
      if Includes(s[1..], sub) {
        var i: nat :| OccursAt(s[1..], sub, i);
        assert s[i + 1..i + 1 + |sub|] == s[1..][i..i + |sub|];
        assert OccursAt(s, sub, i + 1);
      }
      if exists i: nat :: OccursAt(s, sub, i) {
        var i: nat :| OccursAt(s, sub, i);
        assert i != 0;
        assert s[1..][i - 1..i - 1 + |sub|] == s[i..i + |sub|];
        assert OccursAt(s[1..], sub, i - 1);
      }
    }
  }

  /** The empty string is found in every string. */
  lemma IncludesEmpty(s: string)
    ensures Includes(s, "")
  {
  }

  /** The search both pages run: the lower-cased text includes the lower-cased query. */
  predicate SearchMatches(text: string, query: string)
  {
    Includes(Lower(text), Lower(query))
  }

  /** The empty query matches every text. */
  lemma EmptyQueryMatches(text: string)
    ensures SearchMatches(text, "")
  {
    IncludesEmpty(Lower(text));
  }

  /** A query and its lower-cased form match the same texts. */
  lemma SearchIgnoresQueryCase(text: string, query: string)
    ensures SearchMatches(text, Lower(query)) <==> SearchMatches(text, query)
  {
    LowerIdempotent(query);
  }
}
