/** Value-level helpers shared by every module: an Option type, Python's
    truthiness of optional strings, ASCII lower-casing, slicing and
    substring search. */
module Common {

  datatype Option<+T> = None | Some(value: T)

  /** `bool(o)` for a nullable string: None and "" are both false. */
  predicate Truthy(o: Option<string>) {
    o.Some? && o.value != ""
  }

  /** Python's `o or d` for a nullable string. */
  function Or(o: Option<string>, d: string): string {
    if Truthy(o) then o.value else d
  }

  /** Python's `s or d` for a plain string. */
  function OrStr(s: string, d: string): string {
    if s != "" then s else d
  }

  /** Python's `s[:n]` for n >= 0. */
  function Take<T>(s: seq<T>, n: nat): (r: seq<T>)
    ensures |r| == (if |s| <= n then |s| else n)
    ensures |s| <= n ==> r == s
    ensures r == s[..|r|]
  {
    if |s| <= n then s else s[..n]
  }

  function LowerChar(c: char): char {
    if 'A' <= c <= 'Z' then (c as int + 32) as char else c
  }

  /** `str.lower()` restricted to ASCII letters. */
  function Lower(s: string): (r: string)
    ensures |r| == |s|
    ensures forall i :: 0 <= i < |s| ==> r[i] == LowerChar(s[i])
  {
    seq(|s|, i requires 0 <= i < |s| => LowerChar(s[i]))
  }

  predicate IsPrefix<T(==)>(p: seq<T>, s: seq<T>) {
    |p| <= |s| && s[..|p|] == p
  }

  predicate IsSuffix<T(==)>(p: seq<T>, s: seq<T>) {
    |p| <= |s| && s[|s| - |p|..] == p
  }

  /** Python's `p in s` for strings: p occurs somewhere in s. */
  predicate Occurs(p: string, s: string)
    decreases |s|
  {
    IsPrefix(p, s) || (|s| > 0 && Occurs(p, s[1..]))
  }

  /** Occurs is exactly "some slice of s equals p". */
  lemma {:induction false} OccursAt(p: string, s: string)
    ensures Occurs(p, s) <==> exists k :: 0 <= k <= |s| && IsPrefix(p, s[k..])
  {
    if Occurs(p, s) {
      if IsPrefix(p, s) {
        assert s[0..] == s;
      } else {
        OccursAt(p, s[1..]);
        var k :| 0 <= k <= |s[1..]| && IsPrefix(p, s[1..][k..]);
        assert s[1..][k..] == s[k + 1..];
      }
    }
    if exists k :: 0 <= k <= |s| && IsPrefix(p, s[k..]) {
      var k :| 0 <= k <= |s| && IsPrefix(p, s[k..]);
      if k == 0 {
        assert s[0..] == s;
      } else {
        assert s[1..][k - 1..] == s[k..];
        OccursAt(p, s[1..]);
      }
    }
  }

  /** The elements of s that satisfy p, in order: the model of a queryset
      `.filter(...)` and of a list comprehension with a condition. */
  function Filter<T>(s: seq<T>, p: T -> bool): (r: seq<T>)
    ensures |r| <= |s|
    ensures forall i :: 0 <= i < |r| ==> p(r[i])
    decreases |s|
  {
    if |s| == 0 then [] else Filter(s[..|s| - 1], p) + (if p(s[|s| - 1]) then [s[|s| - 1]] else [])
  }

  /** Every kept element comes from the input. */
  lemma FilterSubset<T>(s: seq<T>, p: T -> bool, i: nat)
    requires i < |Filter(s, p)|
    ensures Filter(s, p)[i] in s
  {
    FilterMembers(s, p, Filter(s, p)[i]);
  }

  lemma {:induction false} FilterMembers<T>(s: seq<T>, p: T -> bool, x: T)
    ensures x in Filter(s, p) <==> x in s && p(x)
    decreases |s|
  {
    if |s| > 0 {
      FilterMembers(s[..|s| - 1], p, x);
      assert s == s[..|s| - 1] + [s[|s| - 1]];
    }
  }

  lemma {:induction false} FilterAppend<T>(s: seq<T>, t: seq<T>, p: T -> bool)
    ensures Filter(s + t, p) == Filter(s, p) + Filter(t, p)
    decreases |t|
  {
    if |t| == 0 {
      assert s + t == s;
    } else {
      assert (s + t)[..|s + t| - 1] == s + t[..|t| - 1];
      FilterAppend(s, t[..|t| - 1], p);
    }
  }

  lemma {:induction false} FilterAll<T>(s: seq<T>, p: T -> bool)
    requires forall i :: 0 <= i < |s| ==> p(s[i])
    ensures Filter(s, p) == s
    decreases |s|
  {
    if |s| > 0 {
      FilterAll(s[..|s| - 1], p);
    }
  }

  lemma {:induction false} FilterNone<T>(s: seq<T>, p: T -> bool)
    requires forall i :: 0 <= i < |s| ==> !p(s[i])
    ensures Filter(s, p) == []
    decreases |s|
  {
    if |s| > 0 {
      FilterNone(s[..|s| - 1], p);
    }
  }

  /** Filtering twice keeps what satisfies both predicates. */
  lemma {:induction false} FilterFilter<T>(s: seq<T>, p: T -> bool, q: T -> bool, pq: T -> bool)
    requires forall x :: pq(x) == (p(x) && q(x))
    ensures Filter(Filter(s, p), q) == Filter(s, pq)
    decreases |s|
  {
    if |s| > 0 {
      var init := s[..|s| - 1];
      FilterFilter(init, p, q, pq);
      FilterAppend(Filter(init, p), if p(s[|s| - 1]) then [s[|s| - 1]] else [], q);
      assert Filter([s[|s| - 1]], q) == (if q(s[|s| - 1]) then [s[|s| - 1]] else []) by {
        assert [s[|s| - 1]][..0] == [];
      }
    }
  }
}
