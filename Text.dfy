/**
 * The .NET string operations the supervisor relies on, on `string` = `seq<char>`:
 * String.IsNullOrWhiteSpace, ordinal Contains and IndexOf, String.Replace
 * (all non-overlapping occurrences, scanning left to right) and LastIndexOf.
 */
module Text {
  import opened Wrappers

  /**
   * Char.IsWhiteSpace: the Unicode separators and the controls U+0009..U+000D and
   * U+0085. The ASCII white space is included, and no printable ASCII character is.
   */
  function IsWhiteSpace(c: char): (r: bool)
    ensures ('\t' <= c <= '\r' || c == ' ') ==> r
    ensures r ==> c <= ' ' || c > '~'
  {
    || ('\t' <= c <= '\r')
    || c == ' '
    || c == '\U{0085}'
    || c == '\U{00A0}'
    || c == '\U{1680}'
    || ('\U{2000}' <= c <= '\U{200A}')
    || c == '\U{2028}'
    || c == '\U{2029}'
    || c == '\U{202F}'
    || c == '\U{205F}'
    || c == '\U{3000}'
  }

  /**
   * String.IsNullOrWhiteSpace: null (None), empty, or white space only. A text
   * holding a printable ASCII character is never blank.
   */
  function IsNullOrWhiteSpace(s: Option<string>): (r: bool)
    ensures s.None? || |s.value| == 0 ==> r
    ensures s.Some? && (exists i :: 0 <= i < |s.value| && ' ' < s.value[i] <= '~') ==> !r
  {
    s.None? || forall i :: 0 <= i < |s.value| ==> IsWhiteSpace(s.value[i])
  }

  /** `p` occurs in `s` starting at index `i`. */
  predicate OccursAt(s: string, p: string, i: int) {
    0 <= i && i + |p| <= |s| && s[i..i + |p|] == p
  }

  /** String.Contains with ordinal (case-sensitive) comparison; the empty text occurs in every text. */
  function Contains(s: string, p: string): (r: bool)
    ensures r ==> |p| <= |s|
    ensures |p| == 0 ==> r
  {
    assert |p| == 0 ==> OccursAt(s, p, 0);
    exists i :: 0 <= i <= |s| && OccursAt(s, p, i)
  }

  /** The first occurrence of `p` in `s` at or after `k`. */
  function IndexOfFrom(s: string, p: string, k: nat): (r: Option<nat>)
    requires k <= |s|
    ensures r.Some? ==> k <= r.value && OccursAt(s, p, r.value)
    ensures r.Some? ==> forall j :: k <= j < r.value ==> !OccursAt(s, p, j)
    ensures r.None? ==> forall j :: k <= j ==> !OccursAt(s, p, j)
    decreases |s| - k
  {
    if k + |p| > |s| then None
    else if s[k..k + |p|] == p then Some(k)
    else IndexOfFrom(s, p, k + 1)
  }

  /** String.IndexOf with ordinal comparison; None stands for -1. */
  function IndexOf(s: string, p: string): (r: Option<nat>)
    ensures r.Some? ==> OccursAt(s, p, r.value) && forall j :: 0 <= j < r.value ==> !OccursAt(s, p, j)
    ensures r.None? <==> !Contains(s, p)
  {
    IndexOfFrom(s, p, 0)
  }

  /**
   * String.Replace(p, v): every non-overlapping occurrence of `p`, found left to
   * right, is replaced by `v`; the scan resumes after the replaced occurrence.
   * .NET throws for an empty `p`, which no caller here passes.
   */
  function ReplaceAll(s: string, p: string, v: string): (r: string)
    requires |p| > 0
    ensures IndexOf(s, p).None? ==> r == s
    decreases |s|
  {
    match IndexOf(s, p)
    case None => s
    case Some(i) => s[..i] + v + ReplaceAll(s[i + |p|..], p, v)
  }

  /** String.LastIndexOf for one character; -1 when it does not occur. */
  function LastIndexOf(s: string, c: char): (r: int)
    ensures -1 <= r < |s|
    ensures r >= 0 ==> s[r] == c
    ensures forall j :: r < j < |s| ==> s[j] != c
  {
    if |s| == 0 then -1
    else if s[|s| - 1] == c then |s| - 1
    else LastIndexOf(s[..|s| - 1], c)
  }

  /** What follows the last `c` in `s`; all of `s` when there is no `c`. */
  function SuffixAfterLast(s: string, c: char): (r: string)
    ensures |r| <= |s| && c !in r
  {
    s[LastIndexOf(s, c) + 1..]
  }

  /**
   * The suffix after the last `c` is a suffix of `s` without `c`; it is all of
   * `s` when `s` has no `c`, and otherwise a `c` stands just before it.
   */
  lemma SuffixAfterLastShape(s: string, c: char)
    ensures var r := SuffixAfterLast(s, c);
      && c !in r && |r| <= |s| && r == s[|s| - |r|..]
      && (c !in s ==> r == s)
      && (c in s ==> |r| < |s| && s[|s| - |r| - 1] == c)
  {
  }

  /** A character after the last `c` belongs to the suffix after the last `c`. */
  lemma SuffixAfterLastKeeps(s: string, c: char, k: nat)
    requires k < |s| && forall j :: k <= j < |s| ==> s[j] != c
    ensures |s| - |SuffixAfterLast(s, c)| <= k
    ensures SuffixAfterLast(s, c)[k - (|s| - |SuffixAfterLast(s, c)|)] == s[k]
  {
    SuffixAfterLastShape(s, c);
  }

  /** The suffix after the last `c` of `a + [c] + b`, when `b` has no `c`, is `b`. */
  lemma SuffixAfterLastOf(a: string, c: char, b: string)
    requires c !in b
    ensures SuffixAfterLast(a + [c] + b, c) == b
  {
    var s := a + [c] + b;
    SuffixAfterLastShape(s, c);
    assert s[|a|] == c;
    assert s[|s| - |b|..] == b;
  }

  /**
   * No occurrence of `q` can cross an edge of `v`, whatever text surrounds it:
   * no proper suffix of `q` is comparable (as prefixes) with `v`, and no
   * non-empty suffix of `v` shorter than `q` begins `q`.
   */
  predicate NoStraddle(v: string, q: string) {
    && (forall k :: 0 < k < |q| ==> !(q[k..] <= v) && !(v <= q[k..]))
    && (forall j :: 0 <= j < |v| && |v| - j < |q| ==> !(v[j..] <= q))
  }

  /** A replacement value that can never bring `q` into a text. */
  predicate Clean(v: string, q: string) {
    !Contains(v, q) && NoStraddle(v, q)
  }

  /** A text lacking the first character of `p` does not contain `p`. */
  lemma LacksFirstChar(s: string, p: string)
    requires |p| > 0 && p[0] !in s
    ensures !Contains(s, p)
  {
    forall i | 0 <= i <= |s| ensures !OccursAt(s, p, i) {
      if i + |p| <= |s| {
        assert s[i..i + |p|][0] == s[i];
      }
    }
  }

  /** An occurrence in a concatenation lies in one part or crosses the seam. */
  lemma OccursInConcat(a: string, b: string, q: string, j: int)
    requires OccursAt(a + b, q, j)
    ensures j + |q| <= |a| ==> OccursAt(a, q, j)
    ensures j >= |a| ==> OccursAt(b, q, j - |a|)
    ensures j < |a| < j + |q| ==> a[j..] == q[..|a| - j] && b[..j + |q| - |a|] == q[|a| - j..]
  {
    var ab := a + b;
    if j + |q| <= |a| {
      assert ab[j..j + |q|] == a[j..j + |q|];
    }
    if j >= |a| {
      assert ab[j..j + |q|] == b[j - |a|..j - |a| + |q|];
    }
    if j < |a| < j + |q| {
      assert ab[j..j + |q|][..|a| - j] == a[j..];
      assert ab[j..j + |q|][|a| - j..] == b[..j + |q| - |a|];
    }
  }

  /** A text without `q` has no `q` in any of its suffixes. */
  lemma NotContainsSuffix(s: string, q: string, m: nat)
    requires m <= |s|
    requires !Contains(s, q)
    ensures !Contains(s[m..], q)
  {
    forall j | 0 <= j <= |s| - m ensures !OccursAt(s[m..], q, j) {
      if j + |q| <= |s| - m {
        assert s[m..][j..j + |q|] == s[j + m..j + m + |q|];
        assert !OccursAt(s, q, j + m);
      }
    }
  }

  /** No occurrence of `q` starts before `m`: then the first `m` characters hold none. */
  lemma NoneBeforeFree(s: string, q: string, m: nat)
    requires |q| > 0 && m <= |s|
    requires forall j :: 0 <= j < m ==> !OccursAt(s, q, j)
    ensures !Contains(s[..m], q)
  {
    forall j | 0 <= j <= m ensures !OccursAt(s[..m], q, j) {
      if j + |q| <= m {
        assert s[..m][j..j + |q|] == s[j..j + |q|];
        assert !OccursAt(s, q, j);
      }
    }
  }

  /** A clean value followed by a `q`-free text contains no `q`. */
  lemma CleanThenFree(v: string, b: string, q: string)
    requires |q| > 0
    requires Clean(v, q)
    requires !Contains(b, q)
    ensures !Contains(v + b, q)
  {
    forall j | 0 <= j <= |v + b| ensures !OccursAt(v + b, q, j) {
      if OccursAt(v + b, q, j) {
        OccursInConcat(v, b, q, j);
      }
    }
  }

  /** A `q`-free text followed by a `q`-free text that begins with a clean value contains no `q`. */
  lemma FreeThenClean(a: string, v: string, w: string, q: string)
    requires |q| > 0
    requires Clean(v, q) && v <= w
    requires !Contains(a, q) && !Contains(w, q)
    ensures !Contains(a + w, q)
  {
    forall j | 0 <= j <= |a + w| ensures !OccursAt(a + w, q, j) {
      if OccursAt(a + w, q, j) {
        OccursInConcat(a, w, q, j);
      }
    }
  }

  /** Before the first `p` there is no `q`, and after it there is none when `s` has none. */
  lemma AroundFirstMatch(s: string, p: string, q: string, i: nat)
    requires |p| > 0 && |q| > 0 && i + |p| <= |s|
    requires forall j :: 0 <= j < i ==> !OccursAt(s, p, j)
    requires q == p || !Contains(s, q)
    ensures !Contains(s[..i], q)
    ensures q == p || !Contains(s[i + |p|..], q)
  {
    if q == p {
      NoneBeforeFree(s, p, i);
    } else {
      NoneBeforeFree(s, q, i);
      NotContainsSuffix(s, q, i + |p|);
    }
  }

  /** ReplaceAll copies the text before the first `p`, then the value, then the rest replaced. */
  lemma ReplaceAllAtFirst(s: string, p: string, v: string)
    requires |p| > 0 && IndexOf(s, p).Some?
    ensures ReplaceAll(s, p, v) == s[..IndexOf(s, p).value] + v + ReplaceAll(s[IndexOf(s, p).value + |p|..], p, v)
  {
  }

  /** Concatenation is associative; stated for any element type, so that using it compares no characters. */
  lemma AppendAssoc<T>(a: seq<T>, b: seq<T>, c: seq<T>)
    ensures a + b + c == a + (b + c)
  {
  }

  /**
   * Replacing `p` by a value that is clean for `q` never brings `q` into the
   * text: it removes every `p` (when q == p) and keeps a `q`-free text `q`-free.
   */
  lemma {:induction false} ReplaceAllKeepsFree(s: string, p: string, v: string, q: string)
    requires |p| > 0 && |q| > 0
    requires Clean(v, q)
    requires q == p || !Contains(s, q)
    ensures !Contains(ReplaceAll(s, p, v), q)
    decreases |s|
  {
    var r := IndexOf(s, p);
    if r.Some? {
      var i := r.value;
      assert OccursAt(s, p, i);
      var a := s[..i];
      var rest := s[i + |p|..];
      AroundFirstMatch(s, p, q, i);
      ReplaceAllKeepsFree(rest, p, v, q);
      var b := ReplaceAll(rest, p, v);
      CleanThenFree(v, b, q);
      FreeThenClean(a, v, v + b, q);
      ReplaceAllAtFirst(s, p, v);
      AppendAssoc(a, v, b);
    }
  }
}
