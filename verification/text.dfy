/**
 * The string operations the tool uses on paths and file names, with Python's
 * meaning: `s.split(c)[-1]`, `s.split(c)[0]`, `s.endswith(p)` and
 * `s.replace(p, "")`.
 */
module Text {

  import opened Wrappers

  /** `s.endswith(p)`: `s` is some text followed by `p`; the comparison is exact, so it is case-sensitive. */
  predicate EndsWith(s: string, p: string)
    ensures EndsWith(s, p) <==> exists stem :: s == stem + p
  {
    assert |p| <= |s| ==> s == s[..|s| - |p|] + s[|s| - |p|..];
    assert forall stem :: s == stem + p ==> s[|s| - |p|..] == p;
    |p| <= |s| && s[|s| - |p|..] == p
  }

  /** `p` occurs in `s` starting at index `j`. */
  predicate OccursAt(s: string, p: string, j: nat)
  {
    j + |p| <= |s| && s[j..j + |p|] == p
  }

  /** `s.split(c)[-1]`: the text after the last `c`, or all of `s` when it has none. */
  function AfterLast(s: string, c: char): (r: string)
    ensures c !in r
    ensures |r| <= |s|
    ensures |r| < |s| ==> s[|s| - |r| - 1] == c
  {
    if s == [] then []
    else if s[|s| - 1] == c then []
    else AfterLast(s[..|s| - 1], c) + [s[|s| - 1]]
  }

  /** `s.split(c)[0]`: the text before the first `c`, or all of `s` when it has none. */
  function BeforeFirst(s: string, c: char): (r: string)
    ensures c !in r
    ensures |r| <= |s| && forall k :: 0 <= k < |r| ==> r[k] == s[k]
    ensures |r| < |s| ==> s[|r|] == c
  {
    if s == [] then []
    else if s[0] == c then []
    else [s[0]] + BeforeFirst(s[1..], c)
  }

  /**
   * `s.replace(p, "")` for a non-empty `p`: occurrences are removed from left to
   * right without overlapping, exactly as Python scans them.
   */
  function RemoveAll(s: string, p: string): (r: string)
    requires p != []
    ensures |r| <= |s|
    ensures !OccursAt(s, p, 0) && s != [] ==> r != [] && r[0] == s[0]
    decreases |s|
  {
    if s == [] then []
    else if OccursAt(s, p, 0) then RemoveAll(s[|p|..], p)
    else [s[0]] + RemoveAll(s[1..], p)
  }

  /** The last occurrence of `p` in `s`, if any. */
  function LastIndexOf(s: string, p: string): (r: Option<nat>)
    ensures r.Some? ==> OccursAt(s, p, r.value)
    ensures r.Some? ==> forall j: nat :: r.value < j ==> !OccursAt(s, p, j)
    ensures r.None? ==> forall j: nat :: !OccursAt(s, p, j)
  {
    if |s| < |p| then None else LastOccurrenceUpTo(s, p, |s| - |p|)
  }

  /** The last occurrence of `p` in `s` starting at or before index `k`. */
  function LastOccurrenceUpTo(s: string, p: string, k: nat): (r: Option<nat>)
    requires k + |p| <= |s|
    ensures r.Some? ==> r.value <= k && OccursAt(s, p, r.value)
    ensures r.Some? ==> forall j: nat :: r.value < j <= k ==> !OccursAt(s, p, j)
    ensures r.None? ==> forall j: nat :: j <= k ==> !OccursAt(s, p, j)
    decreases k
  {
    if s[k..k + |p|] == p then Some(k)
    else if k == 0 then None
    else LastOccurrenceUpTo(s, p, k - 1)
  }

  /** `s.replace(p, "")` on a text without any occurrence of `p` gives the text back. */
  lemma {:induction false} RemoveAllAbsent(s: string, p: string)
    requires p != [] && forall j: nat :: !OccursAt(s, p, j)
    ensures RemoveAll(s, p) == s
    decreases |s|
  {
    if s != [] {
      forall j: nat
        ensures !OccursAt(s[1..], p, j)
      {
        assert !OccursAt(s, p, j + 1);
        if j + |p| <= |s| - 1 {
          assert s[1..][j..j + |p|] == s[j + 1..j + 1 + |p|];
        }
      }
      RemoveAllAbsent(s[1..], p);
      assert !OccursAt(s, p, 0);
      assert [s[0]] + s[1..] == s;
    }
  }

  /** A leading occurrence of `p` is removed whole, and the scan goes on after it. */
  lemma RemoveAllPrefix(p: string, s: string)
    requires p != []
    ensures RemoveAll(p + s, p) == RemoveAll(s, p)
  {
    assert OccursAt(p + s, p, 0) by {
      assert (p + s)[0..|p|] == p;
    }
    assert (p + s)[|p|..] == s;
  }

  /** Removing a trailing `p` from a text that cannot start an occurrence of `p` gives that text back. */
  lemma {:induction false} RemoveAllSuffix(stem: string, p: string)
    requires p != [] && p[0] !in stem
    ensures RemoveAll(stem + p, p) == stem
    decreases |stem|
  {
    if stem == [] {
      assert (stem + p)[|p|..] == [];
    } else {
      assert (stem + p)[0..|p|][0] == stem[0] != p[0];
      assert (stem + p)[1..] == stem[1..] + p;
      RemoveAllSuffix(stem[1..], p);
    }
  }

  /** The text before the first `c` of `head + [c] + tail` is `head` when `head` has no `c`. */
  lemma {:induction false} BeforeFirstJoin(head: string, c: char, tail: string)
    requires c !in head
    ensures BeforeFirst(head + [c] + tail, c) == head
    decreases |head|
  {
    var s := head + [c] + tail;
    if head != [] {
      assert s[0] == head[0] != c;
      assert s[1..] == head[1..] + [c] + tail;
      BeforeFirstJoin(head[1..], c, tail);
      assert [head[0]] + head[1..] == head;
    }
  }

  /** `s.split(c)[-1]` is a suffix of `s`: the text after the last `c`. */
  lemma {:induction false} AfterLastSuffix(s: string, c: char)
    ensures AfterLast(s, c) == s[|s| - |AfterLast(s, c)|..]
    decreases |s|
  {
    if s != [] && s[|s| - 1] != c {
      var init := s[..|s| - 1];
      AfterLastSuffix(init, c);
      var r := AfterLast(init, c);
      assert s[|s| - |r| - 1..] == init[|init| - |r|..] + [s[|s| - 1]];
    }
  }

  /** A text without `c` is its own `split(c)[-1]`. */
  lemma {:induction false} AfterLastAbsent(s: string, c: char)
    requires c !in s
    ensures AfterLast(s, c) == s
    decreases |s|
  {
    if s != [] {
      AfterLastAbsent(s[..|s| - 1], c);
      assert s[..|s| - 1] + [s[|s| - 1]] == s;
    }
  }

  /** The part after the last separator of `dir + [c] + name` is `name` when `name` has no separator. */
  lemma {:induction false} AfterLastJoin(dir: string, c: char, name: string)
    requires c !in name
    ensures AfterLast(dir + [c] + name, c) == name
    decreases |name|
  {
    var s := dir + [c] + name;
    if name == [] {
      assert s[|s| - 1] == c;
    } else {
      var last := |name| - 1;
      assert s[..|s| - 1] == dir + [c] + name[..last];
      assert s[|s| - 1] == name[last];
      AfterLastJoin(dir, c, name[..last]);
      assert name[..last] + [name[last]] == name;
    }
  }


}
