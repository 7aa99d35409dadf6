/**
 * The order the document store compares string fields by: lexicographic on
 * code points (the same order as on their UTF-8 bytes), a proper prefix first.
 */
module TextOrder {

  /** `a <= b` on strings. */
  predicate LexLe(a: string, b: string)
    decreases |a|
  {
    |a| == 0 || (|b| > 0 && (a[0] < b[0] || (a[0] == b[0] && LexLe(a[1..], b[1..]))))
  }

  lemma {:induction false} LexLeReflexive(a: string)
    ensures LexLe(a, a)
    decreases |a|
  {
    if |a| > 0 { LexLeReflexive(a[1..]); }
  }

  lemma {:induction false} LexLeTotal(a: string, b: string)
    ensures LexLe(a, b) || LexLe(b, a)
    decreases |a|
  {
    if |a| > 0 && |b| > 0 && a[0] == b[0] { LexLeTotal(a[1..], b[1..]); }
  }

  lemma {:induction false} LexLeTransitive(a: string, b: string, c: string)
    requires LexLe(a, b) && LexLe(b, c)
    ensures LexLe(a, c)
    decreases |a|
  {
    if |a| > 0 && a[0] == b[0] && b[0] == c[0] { LexLeTransitive(a[1..], b[1..], c[1..]); }
  }

  /** The private-use character appended to a search term to close its range. */
  const SearchSentinel: char := '\U{F8FF}'

  /** The title range `[q, q + "\u{f8ff}"]` a search for `q` asks for. */
  predicate InSearchRange(q: string, t: string) {
    LexLe(q, t) && LexLe(t, q + [SearchSentinel])
  }

  /** Every title in the search range of `q` starts with `q`. */
  lemma {:induction false} InSearchRangeHasPrefix(q: string, t: string)
    requires InSearchRange(q, t)
    ensures q <= t
    decreases |q|
  {
    if |q| > 0 {
      assert (q + [SearchSentinel])[0] == q[0] && (q + [SearchSentinel])[1..] == q[1..] + [SearchSentinel];
      assert t[0] == q[0];
      InSearchRangeHasPrefix(q[1..], t[1..]);
      assert t == [t[0]] + t[1..] && q == [q[0]] + q[1..];
    }
  }

  /** A title that extends `q` by nothing, or by characters starting below the sentinel, is in range. */
  lemma {:induction false} PrefixIsInSearchRange(q: string, t: string)
    requires q <= t
    requires |t| == |q| || t[|q|] < SearchSentinel
    ensures InSearchRange(q, t)
    decreases |q|
  {
    if |q| == 0 {
      assert (q + [SearchSentinel]) == [SearchSentinel];
    } else {
      assert (q + [SearchSentinel])[0] == q[0] && (q + [SearchSentinel])[1..] == q[1..] + [SearchSentinel];
      PrefixIsInSearchRange(q[1..], t[1..]);
    }
  }

  /** Searching "Top" keeps "Top 10 Movies" and "Top Albums" and drops "Best Shows". */
  lemma SearchTopExample()
    ensures InSearchRange("Top", "Top 10 Movies")
    ensures InSearchRange("Top", "Top Albums")
    ensures !InSearchRange("Top", "Best Shows")
  {
    PrefixIsInSearchRange("Top", "Top 10 Movies");
    PrefixIsInSearchRange("Top", "Top Albums");
    if InSearchRange("Top", "Best Shows") {
      InSearchRangeHasPrefix("Top", "Best Shows");
    }
  }
}
