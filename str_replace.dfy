/**
 * PHP's `str_replace(array $search, array $replace, string $subject)`:
 * the (search, replace) pairs are applied one after another, each pass
 * rewriting every occurrence in the output of the previous pass.
 */
module StrReplace {
  import opened OrderedMaps

  /** `s` begins with `p`. */
  predicate StartsWith(s: string, p: string)
  {
    |p| <= |s| && s[..|p|] == p
  }

  /** `p` occurs in `s` starting at position `i`. */
  ghost predicate OccursAt(s: string, p: string, i: int)
  {
    0 <= i && i + |p| <= |s| && s[i..i + |p|] == p
  }

  ghost predicate Occurs(s: string, p: string)
  {
    exists i :: OccursAt(s, p, i)
  }

  /**
   * One pass of `str_replace` with a single search string: scan left to
   * right and replace each non-overlapping occurrence of `search` by `rep`.
   * PHP skips an empty search string, leaving the subject as it is.
   */
  function ReplaceAll(s: string, search: string, rep: string): string
    decreases |s|
  {
    if search == [] || |s| < |search| then s
    else if StartsWith(s, search) then rep + ReplaceAll(s[|search|..], search, rep)
    else [s[0]] + ReplaceAll(s[1..], search, rep)
  }

  /** `str_replace(array_keys($pairs), array_values($pairs), $s)`: one pass per pair, in order. */
  function ReplaceEach(pairs: OrderedMap<string, string>, s: string): string
  {
    if pairs == [] then s else ReplaceEach(pairs[1..], ReplaceAll(s, pairs[0].0, pairs[0].1))
  }

  lemma ConsAppend(x: string, r: string)
    requires x != []
    ensures [x[0]] + (x[1..] + r) == x + r
  {
    assert x == [x[0]] + x[1..];
  }

  /** A stretch free of the search string's first character is copied through unchanged. */
  lemma {:induction false} ReplaceAllSkip(a: string, b: string, search: string, rep: string)
    requires search != [] && search[0] !in a
    ensures ReplaceAll(a + b, search, rep) == a + ReplaceAll(b, search, rep)
  {
    if a != [] {
      var s := a + b;
      if |s| < |search| {
        assert ReplaceAll(b, search, rep) == b;
      } else {
        assert s[..|search|][0] == a[0] != search[0];
        assert !StartsWith(s, search);
        assert s[1..] == a[1..] + b;
        ReplaceAllSkip(a[1..], b, search, rep);
        ConsAppend(a, ReplaceAll(b, search, rep));
      }
    } else {
      assert a + b == b;
    }
  }

  /** An occurrence at the front is replaced, and the scan resumes after it. */
  lemma ReplaceAllMatch(b: string, search: string, rep: string)
    requires search != []
    ensures ReplaceAll(search + b, search, rep) == rep + ReplaceAll(b, search, rep)
  {
    assert StartsWith(search + b, search);
    assert (search + b)[|search|..] == b;
  }

  /** The first occurrence, after a stretch free of its first character, is replaced. */
  lemma ReplaceFirst(a: string, search: string, c: string, rep: string)
    requires search != [] && search[0] !in a
    ensures ReplaceAll(a + (search + c), search, rep) == a + (rep + ReplaceAll(c, search, rep))
  {
    ReplaceAllSkip(a, search + c, search, rep);
    ReplaceAllMatch(c, search, rep);
  }

  /** A single occurrence between two stretches free of its first character is replaced. */
  lemma ReplaceBetween(a: string, search: string, c: string, rep: string)
    requires search != [] && search[0] !in a && search[0] !in c
    ensures ReplaceAll(a + (search + c), search, rep) == a + (rep + c)
  {
    ReplaceFirst(a, search, c, rep);
    ReplaceAllSkip(c, [], search, rep);
    assert c + [] == c;
  }

  /** The parts joined with `sep` between each neighbouring pair. */
  function Join(parts: seq<string>, sep: string): string
  {
    if parts == [] then []
    else if |parts| == 1 then parts[0]
    else parts[0] + (sep + Join(parts[1..], sep))
  }

  /**
   * Every occurrence is replaced, however often the search string repeats:
   * text made of stretches free of its first character, separated by the
   * search string, has each separator replaced.
   */
  lemma {:induction false} ReplaceAllJoin(parts: seq<string>, search: string, rep: string)
    requires search != []
    requires forall i :: 0 <= i < |parts| ==> search[0] !in parts[i]
    ensures ReplaceAll(Join(parts, search), search, rep) == Join(parts, rep)
  {
    if |parts| == 1 {
      ReplaceAllSkip(parts[0], [], search, rep);
      assert parts[0] + [] == parts[0];
    } else if |parts| > 1 {
      ReplaceFirst(parts[0], search, Join(parts[1..], search), rep);
      ReplaceAllJoin(parts[1..], search, rep);
    }
  }

  /** Text that starts like the search string but does not match it is copied through. */
  lemma ReplaceAllMismatch(u: string, b: string, search: string, rep: string)
    requires search != [] && u != [] && search[0] !in u[1..]
    requires !StartsWith(u + b, search)
    ensures ReplaceAll(u + b, search, rep) == u + ReplaceAll(b, search, rep)
  {
    var s := u + b;
    if |s| < |search| {
      assert ReplaceAll(b, search, rep) == b;
    } else {
      assert ReplaceAll(s, search, rep) == [u[0]] + ReplaceAll(s[1..], search, rep);
      assert s[1..] == u[1..] + b;
      ReplaceAllSkip(u[1..], b, search, rep);
      ConsAppend(u, ReplaceAll(b, search, rep));
    }
  }
  /** With no occurrence of the search string, a pass leaves the subject unchanged. */
  lemma {:induction false} ReplaceAllAbsent(s: string, search: string, rep: string)
    requires !Occurs(s, search)
    ensures ReplaceAll(s, search, rep) == s
  {
    assert !OccursAt(s, search, 0);
    if search != [] && |s| >= |search| {
      assert !StartsWith(s, search);
      forall i | OccursAt(s[1..], search, i)
        ensures OccursAt(s, search, i + 1)
      {
        assert s[1..][i..i + |search|] == s[i + 1..i + 1 + |search|];
      }
      ReplaceAllAbsent(s[1..], search, rep);
      assert s == [s[0]] + s[1..];
    }
  }

  /** Replacing a string by itself changes nothing. */
  lemma {:induction false} ReplaceAllSelf(s: string, p: string)
    ensures ReplaceAll(s, p, p) == s
    decreases |s|
  {
    if p != [] && |s| >= |p| {
      if StartsWith(s, p) {
        ReplaceAllSelf(s[|p|..], p);
        assert s == s[..|p|] + s[|p|..];
      } else {
        ReplaceAllSelf(s[1..], p);
        assert s == [s[0]] + s[1..];
      }
    }
  }

  /** A string whose first character never appears in `s` does not occur in `s`. */
  lemma OpenerAbsent(s: string, p: string)
    requires p != [] && p[0] !in s
    ensures !Occurs(s, p)
  {
    forall i | 0 <= i && i + |p| <= |s|
      ensures !OccursAt(s, p, i)
    {
      assert s[i..i + |p|][0] == s[i] != p[0];
    }
  }

  /** When no search string occurs in the subject, no pass changes it. */
  lemma {:induction false} ReplaceEachAbsent(pairs: OrderedMap<string, string>, s: string)
    requires forall i :: 0 <= i < |pairs| ==> !Occurs(s, pairs[i].0)
    ensures ReplaceEach(pairs, s) == s
  {
    if pairs != [] {
      ReplaceAllAbsent(s, pairs[0].0, pairs[0].1);
      assert forall i :: 0 <= i < |pairs[1..]| ==> pairs[1..][i] == pairs[i + 1];
      ReplaceEachAbsent(pairs[1..], s);
    }
  }

  /** The pairs are applied in order: the passes of `a + b` are those of `a`, then those of `b`. */
  lemma {:induction false} ReplaceEachAppend(a: OrderedMap<string, string>, b: OrderedMap<string, string>, s: string)
    ensures ReplaceEach(a + b, s) == ReplaceEach(b, ReplaceEach(a, s))
  {
    if a == [] {
      assert a + b == b;
    } else {
      assert (a + b)[0] == a[0] && (a + b)[1..] == a[1..] + b;
      ReplaceEachAppend(a[1..], b, ReplaceAll(s, a[0].0, a[0].1));
    }
  }
}
