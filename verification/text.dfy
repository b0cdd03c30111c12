/**
 * Go's strings.ReplaceAll for a non-empty pattern: scanning from the left,
 * every occurrence of the pattern is replaced, occurrences do not overlap,
 * and the inserted replacement text is not scanned again.
 */
module Text {

  /** The result of replacing every occurrence of pat in s by rep.
      Replacing the pattern by itself changes nothing. */
  function ReplaceAll(s: string, pat: string, rep: string): (r: string)
    requires |pat| > 0
    ensures rep == pat ==> r == s
    decreases |s|
  {
    if |s| == 0 then []
    else if pat <= s then
      assert s == pat + s[|pat|..];
      rep + ReplaceAll(s[|pat|..], pat, rep)
    else
      assert s == [s[0]] + s[1..];
      [s[0]] + ReplaceAll(s[1..], pat, rep)
  }

  /** Every character of the result comes from s or from rep. */
  lemma {:induction false} ReplaceAllChars(s: string, pat: string, rep: string)
    requires |pat| > 0
    ensures forall c :: c in ReplaceAll(s, pat, rep) ==> c in s || c in rep
    decreases |s|
  {
    if |s| > 0 {
      if pat <= s {
        ReplaceAllChars(s[|pat|..], pat, rep);
      } else {
        ReplaceAllChars(s[1..], pat, rep);
      }
    }
  }

  /** pat occurs in s at some position. */
  ghost predicate Occurs(s: string, pat: string)
  {
    exists i :: 0 <= i <= |s| && pat <= s[i..]
  }

  /** a and b cannot be joined by an occurrence of pat that begins in a and
      ends in b. */
  predicate NoStraddle(a: string, b: string, pat: string)
  {
    a == [] || b == [] || a[|a| - 1] !in pat || b[0] !in pat
  }

  /** An occurrence that begins in a and runs past its end holds both
      characters at the join. */
  lemma StraddleChars(a: string, b: string, pat: string, i: nat)
    requires i < |a| && |a| - i < |pat|
    ensures pat <= (a + b)[i..] ==> a[|a| - 1] in pat && b != [] && b[0] in pat
  {
    if pat <= (a + b)[i..] {
      assert a[|a| - 1] == pat[|a| - 1 - i];
      assert b[0] == pat[|a| - i];
    }
  }

  /** An occurrence in a + b starting inside a lies inside a, unless it
      straddles the join. */
  lemma PrefixOfJoin(a: string, b: string, pat: string, i: nat)
    requires i < |a| && NoStraddle(a, b, pat)
    ensures pat <= (a + b)[i..] <==> pat <= a[i..]
  {
    if |a| - i < |pat| {
      StraddleChars(a, b, pat, i);
    }
  }

  /** Text without the pattern's first character is left as it is. */
  lemma {:induction false} ReplaceAllIdentity(s: string, pat: string, rep: string)
    requires |pat| > 0 && pat[0] !in s
    ensures ReplaceAll(s, pat, rep) == s
    decreases |s|
  {
    if |s| > 0 {
      assert !(pat <= s) by { assert s[0] != pat[0]; }
      ReplaceAllIdentity(s[1..], pat, rep);
    }
  }

  /** An occurrence at the front is replaced and the scan resumes after it. */
  lemma ReplaceAllFront(b: string, pat: string, rep: string)
    requires |pat| > 0
    ensures ReplaceAll(pat + b, pat, rep) == rep + ReplaceAll(b, pat, rep)
  {
  }

  /** Replacement distributes over a join no occurrence straddles. */
  lemma {:induction false} ReplaceAllConcat(a: string, b: string, pat: string, rep: string)
    requires |pat| > 0 && NoStraddle(a, b, pat)
    ensures ReplaceAll(a + b, pat, rep) == ReplaceAll(a, pat, rep) + ReplaceAll(b, pat, rep)
    decreases |a|
  {
    if |a| == 0 {
      assert a + b == b;
    } else {
      PrefixOfJoin(a, b, pat, 0);
      assert (a + b)[0..] == a + b && a[0..] == a;
      if pat <= a {
        assert (a + b)[|pat|..] == a[|pat|..] + b;
        ReplaceAllConcat(a[|pat|..], b, pat, rep);
      } else {
        assert (a + b)[1..] == a[1..] + b;
        ReplaceAllConcat(a[1..], b, pat, rep);
      }
    }
  }

  /** Without the pattern's first character there is no occurrence. */
  lemma NotOccursWithoutFirst(s: string, pat: string)
    requires |pat| > 0 && pat[0] !in s
    ensures !Occurs(s, pat)
  {
  }

  /** A join of two texts without the pattern has none, unless an
      occurrence could straddle the join. */
  lemma NotOccursConcat(a: string, b: string, pat: string)
    requires |pat| > 0 && !Occurs(a, pat) && !Occurs(b, pat) && NoStraddle(a, b, pat)
    ensures !Occurs(a + b, pat)
  {
    forall i | 0 <= i <= |a + b|
      ensures !(pat <= (a + b)[i..])
    {
      if i < |a| {
        PrefixOfJoin(a, b, pat, i);
        assert !(pat <= a[i..]);
      } else {
        assert (a + b)[i..] == b[i - |a|..];
        assert !(pat <= b[i - |a|..]);
      }
    }
  }

  /** Text without any occurrence is left as it is. */
  lemma {:induction false} ReplaceAllNoOccurrence(s: string, pat: string, rep: string)
    requires |pat| > 0 && !Occurs(s, pat)
    ensures ReplaceAll(s, pat, rep) == s
    decreases |s|
  {
    if |s| > 0 {
      assert s[0..] == s;
      assert !(pat <= s);
      assert !Occurs(s[1..], pat) by {
        forall i | 0 <= i <= |s[1..]|
          ensures !(pat <= s[1..][i..])
        {
          assert s[1..][i..] == s[i + 1..];
        }
      }
      ReplaceAllNoOccurrence(s[1..], pat, rep);
    }
  }
}
