/** Text helpers: ASCII case folding, case-insensitive substring search and the regular-expression
    metacharacters that make a title query something other than a literal. */
module Text {

  /** Lower-cases one ASCII letter; every other character is left as it is. */
  function LowerChar(c: char): char {
    if 'A' <= c <= 'Z' then (c as int + 32) as char else c
  }

  function Lower(s: string): string {
    seq(|s|, i requires 0 <= i < |s| => LowerChar(s[i]))
  }

  /** `q` occurs in `t` at position `i`, ignoring case. */
  predicate OccursAt(t: string, q: string, i: int) {
    0 <= i && i + |q| <= |t| && Lower(t[i..i + |q|]) == Lower(q)
  }

  predicate StartsWithIgnoringCase(t: string, q: string) {
    |q| <= |t| && Lower(t[..|q|]) == Lower(q)
  }

  /** The search a case-insensitive, unanchored regular expression made of literal characters
      performs: `q` occurs somewhere in `t`, ignoring case. */
  predicate ContainsIgnoringCase(t: string, q: string)
    decreases |t|
  {
    StartsWithIgnoringCase(t, q) || (|t| > 0 && ContainsIgnoringCase(t[1..], q))
  }

  /** The recursive search agrees with the positional definition of an occurrence. */
  lemma {:induction false} ContainsIgnoringCaseIff(t: string, q: string)
    ensures ContainsIgnoringCase(t, q) <==> exists i :: OccursAt(t, q, i)
    decreases |t|
  {
    if StartsWithIgnoringCase(t, q) {
      assert t[0..|q|] == t[..|q|];
      assert OccursAt(t, q, 0);
    } else if |t| > 0 {
      ContainsIgnoringCaseIff(t[1..], q);
      if ContainsIgnoringCase(t[1..], q) {
        var i :| OccursAt(t[1..], q, i);
        assert t[1..][i..i + |q|] == t[i + 1..i + 1 + |q|];
        assert OccursAt(t, q, i + 1);
      } else {
        forall i | OccursAt(t, q, i)
          ensures false
        {
          if i > 0 {
            assert t[1..][i - 1..i - 1 + |q|] == t[i..i + |q|];
            assert OccursAt(t[1..], q, i - 1);
          }
        }
      }
    } else {
      assert forall i :: !OccursAt(t, q, i);
    }
  }

  /** The characters that give a regular expression a meaning other than "these characters in order". */
  const REGEX_METACHARACTERS := ".^$*+?()[]{}|\\"

  predicate IsLiteralPattern(q: string) {
    forall i :: 0 <= i < |q| ==> q[i] !in REGEX_METACHARACTERS
  }
}
