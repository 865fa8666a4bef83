/** The two Python string operations the daemon relies on: `str.replace`
    with a non-empty pattern, and `str.lower` (restricted to ASCII letters). */
module Strings {

  /** `pat` is a prefix of `s`. */
  predicate IsPrefix(pat: string, s: string) {
    |pat| <= |s| && forall i :: 0 <= i < |pat| ==> s[i] == pat[i]
  }

  /** `pat` is a suffix of `s`. */
  predicate IsSuffix(pat: string, s: string) {
    |pat| <= |s| && s[|s| - |pat|..] == pat
  }

  /** `pat` occurs somewhere in `s`. */
  predicate Occurs(pat: string, s: string) {
    exists i :: 0 <= i <= |s| && IsPrefix(pat, s[i..])
  }

  /** Python's `s.replace(pat, rep)` for a non-empty `pat`: one left-to-right
      scan that replaces every non-overlapping occurrence and resumes right
      after the replaced text. */
  function Replace(s: string, pat: string, rep: string): string
    requires pat != []
    decreases |s|
  {
    if |s| == 0 then []
    else if IsPrefix(pat, s) then rep + Replace(s[|pat|..], pat, rep)
    else [s[0]] + Replace(s[1..], pat, rep)
  }

  /** Every character of the result comes from the input or from `rep`. */
  lemma {:induction false} ReplaceChars(s: string, pat: string, rep: string)
    requires pat != []
    ensures forall c :: c in Replace(s, pat, rep) ==> c in s || c in rep
    decreases |s|
  {
    if s == [] {
    } else if IsPrefix(pat, s) {
      ReplaceChars(s[|pat|..], pat, rep);
      assert forall c :: c in s[|pat|..] ==> c in s;
    } else {
      ReplaceChars(s[1..], pat, rep);
      assert forall c :: c in s[1..] ==> c in s;
    }
  }

  /** Replacing a single character by text that does not contain it leaves
      no occurrence of that character. */
  lemma {:induction false} ReplaceRemovesChar(s: string, pat: string, rep: string)
    requires |pat| == 1 && pat[0] !in rep
    ensures pat[0] !in Replace(s, pat, rep)
    decreases |s|
  {
    if s == [] {
    } else if IsPrefix(pat, s) {
      ReplaceRemovesChar(s[1..], pat, rep);
    } else {
      assert s[..1] == [s[0]];
      ReplaceRemovesChar(s[1..], pat, rep);
    }
  }

  /** Replacing one character by one character rewrites each position on
      its own and keeps the length. */
  lemma {:induction false} ReplaceCharPointwise(s: string, c: char, d: char)
    ensures |Replace(s, [c], [d])| == |s|
    ensures forall i :: 0 <= i < |s| ==> Replace(s, [c], [d])[i] == if s[i] == c then d else s[i]
  {
    if s != [] {
      ReplaceCharPointwise(s[1..], c, d);
      assert IsPrefix([c], s) <==> s[0] == c by { assert s[..1] == [s[0]]; }
    }
  }

  /** A replacement no longer than its pattern never lengthens the text. */
  lemma {:induction false} ReplaceShrinks(s: string, pat: string, rep: string)
    requires pat != [] && |rep| <= |pat|
    ensures |Replace(s, pat, rep)| <= |s|
    decreases |s|
  {
    if s == [] {
    } else if IsPrefix(pat, s) {
      ReplaceShrinks(s[|pat|..], pat, rep);
    } else {
      ReplaceShrinks(s[1..], pat, rep);
    }
  }

  /** Text in which the pattern does not occur is returned unchanged. */
  lemma {:induction false} ReplaceIdentity(s: string, pat: string, rep: string)
    requires pat != [] && !Occurs(pat, s)
    ensures Replace(s, pat, rep) == s
    decreases |s|
  {
    if s != [] {
      assert s[0..] == s;
      assert !IsPrefix(pat, s);
      forall i | 0 <= i <= |s[1..]|
        ensures !IsPrefix(pat, s[1..][i..])
      {
        assert s[1..][i..] == s[i + 1..];
      }
      ReplaceIdentity(s[1..], pat, rep);
    }
  }

  /** `s` with every occurrence of `c` deleted, the other characters kept
      in order. */
  function Without(s: string, c: char): string {
    if |s| == 0 then [] else (if s[0] == c then [] else [s[0]]) + Without(s[1..], c)
  }

  /** Deleting `c` leaves no `c`, keeps every other character that was
      there and adds none; text without `c` is unchanged. */
  lemma {:induction false} WithoutFacts(s: string, c: char)
    ensures c !in Without(s, c)
    ensures forall x :: x != c ==> (x in Without(s, c) <==> x in s)
    ensures |Without(s, c)| <= |s|
    ensures c !in s ==> Without(s, c) == s
  {
    if s != [] {
      WithoutFacts(s[1..], c);
      assert s == [s[0]] + s[1..];
    }
  }

  /** Replacing a character by the empty text deletes it. */
  lemma {:induction false} ReplaceDeletes(s: string, c: char)
    ensures Replace(s, [c], []) == Without(s, c)
  {
    if s != [] {
      assert IsPrefix([c], s) <==> s[0] == c;
      ReplaceDeletes(s[1..], c);
    }
  }

  /** A one-character pattern occurs exactly when its character does. */
  lemma CharOccurs(c: char, s: string)
    ensures Occurs([c], s) <==> c in s
  {
    if c in s {
      var i :| 0 <= i < |s| && s[i] == c;
      assert s[i..][..1] == [c];
    }
    if Occurs([c], s) {
      var i :| 0 <= i <= |s| && IsPrefix([c], s[i..]);
      assert s[i..][0] == c;
      assert s[i] == c;
    }
  }

  predicate IsUpper(c: char) {
    'A' <= c <= 'Z'
  }

  predicate IsLowerLetter(c: char) {
    'a' <= c <= 'z'
  }

  /** No upper-case ASCII letter in `s`. */
  predicate NoUpper(s: string) {
    forall i :: 0 <= i < |s| ==> !IsUpper(s[i])
  }

  function LowerChar(c: char): char {
    if IsUpper(c) then (c as int + 32) as char else c
  }

  /** Python's `s.lower()` on ASCII letters. */
  function Lower(s: string): string {
    if |s| == 0 then [] else [LowerChar(s[0])] + Lower(s[1..])
  }

  /** `lower()` keeps the length, leaves no upper-case letter, and introduces
      no character other than a lower-case letter. */
  lemma {:induction false} LowerFacts(s: string)
    ensures |Lower(s)| == |s|
    ensures NoUpper(Lower(s))
    ensures forall c :: c in Lower(s) ==> c in s || IsLowerLetter(c)
  {
    if s != [] {
      LowerFacts(s[1..]);
      assert forall c :: c in s[1..] ==> c in s;
      assert Lower(s)[1..] == Lower(s[1..]);
    }
  }

  /** Text with no upper-case letter is returned unchanged by `lower()`. */
  lemma {:induction false} LowerIdentity(s: string)
    requires NoUpper(s)
    ensures Lower(s) == s
  {
    if s != [] {
      assert !IsUpper(s[0]);
      LowerIdentity(s[1..]);
      assert [s[0]] + s[1..] == s;
    }
  }
}
