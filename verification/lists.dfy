/**
 * The list comprehensions the ledger uses to scan its lists: keep the
 * elements that satisfy a condition, in order, then take the first or the
 * last of them.
 */
module Lists {
  import opened Wrappers

  /** `[x for x in s if p(x)]`: the elements of `s` satisfying `p`, in order. */
  function Filter<T>(s: seq<T>, p: T -> bool): (r: seq<T>)
    ensures |r| <= |s|
    ensures forall x :: x in r ==> x in s && p(x)
    ensures forall x :: x in s && p(x) ==> x in r
  {
    if |s| == 0 then []
    else (if p(s[0]) then [s[0]] else []) + Filter(s[1..], p)
  }

  /** `s[0]` if the list is non-empty. */
  function FirstOf<T>(s: seq<T>): Option<T>
  {
    if |s| == 0 then None else Some(s[0])
  }

  /** `s[-1]` if the list is non-empty. */
  function LastOf<T>(s: seq<T>): Option<T>
  {
    if |s| == 0 then None else Some(s[|s| - 1])
  }

  /** Position `i` holds a match and nothing before it does. */
  predicate IsFirstMatch<T>(s: seq<T>, p: T -> bool, i: int)
  {
    0 <= i < |s| && p(s[i]) && forall j :: 0 <= j < i ==> !p(s[j])
  }

  /** Position `i` holds a match and nothing after it does. */
  predicate IsLastMatch<T>(s: seq<T>, p: T -> bool, i: int)
  {
    0 <= i < |s| && p(s[i]) && forall j :: i < j < |s| ==> !p(s[j])
  }

  /** Filtering distributes over concatenation: the order of the survivors is kept. */
  lemma {:induction false} FilterAppend<T>(s: seq<T>, t: seq<T>, p: T -> bool)
    ensures Filter(s + t, p) == Filter(s, p) + Filter(t, p)
  {
    if |s| == 0 {
      assert s + t == t;
    } else {
      assert (s + t)[1..] == s[1..] + t;
      FilterAppend(s[1..], t, p);
    }
  }

  /** Filtering a list in which everything matches changes nothing. */
  lemma {:induction false} FilterAll<T>(s: seq<T>, p: T -> bool)
    requires forall i :: 0 <= i < |s| ==> p(s[i])
    ensures Filter(s, p) == s
  {
    if |s| > 0 {
      FilterAll(s[1..], p);
      assert [s[0]] + s[1..] == s;
    }
  }

  /** A condition and its negation split a list: the two filtered lists add up to it. */
  lemma {:induction false} FilterPartition<T>(s: seq<T>, p: T -> bool, q: T -> bool)
    requires forall x :: q(x) == !p(x)
    ensures |Filter(s, p)| + |Filter(s, q)| == |s|
  {
    if |s| > 0 {
      FilterPartition(s[1..], p, q);
    }
  }

  /** The first element of the filtered list is the first match in the original one. */
  lemma {:induction false} FirstOfFilter<T>(s: seq<T>, p: T -> bool)
    ensures FirstOf(Filter(s, p)).None? <==> forall i :: 0 <= i < |s| ==> !p(s[i])
    ensures FirstOf(Filter(s, p)).Some? ==>
      exists i :: IsFirstMatch(s, p, i) && s[i] == FirstOf(Filter(s, p)).value
  {
    if |s| > 0 {
      if p(s[0]) {
        assert IsFirstMatch(s, p, 0);
      } else {
        FirstOfFilter(s[1..], p);
        assert Filter(s, p) == Filter(s[1..], p);
        if FirstOf(Filter(s, p)).Some? {
          var i :| IsFirstMatch(s[1..], p, i) && s[1..][i] == FirstOf(Filter(s, p)).value;
          assert IsFirstMatch(s, p, i + 1);
        } else {
          forall i | 0 <= i < |s| ensures !p(s[i]) {
            if i > 0 { assert s[i] == s[1..][i - 1]; }
          }
        }
      }
    }
  }

  /** The last element of the filtered list is the last match in the original one. */
  lemma {:induction false} LastOfFilter<T>(s: seq<T>, p: T -> bool)
    ensures LastOf(Filter(s, p)).None? <==> forall i :: 0 <= i < |s| ==> !p(s[i])
    ensures LastOf(Filter(s, p)).Some? ==>
      exists i :: IsLastMatch(s, p, i) && s[i] == LastOf(Filter(s, p)).value
  {
    if |s| > 0 {
      var init, x := s[..|s| - 1], s[|s| - 1];
      assert s == init + [x];
      FilterAppend(init, [x], p);
      assert Filter([x], p) == (if p(x) then [x] else []) + Filter([], p);
      if p(x) {
        assert IsLastMatch(s, p, |s| - 1);
      } else {
        LastOfFilter(init, p);
        assert Filter(s, p) == Filter(init, p);
        if LastOf(Filter(s, p)).Some? {
          var i :| IsLastMatch(init, p, i) && init[i] == LastOf(Filter(s, p)).value;
          assert IsLastMatch(s, p, i);
        } else {
          forall i | 0 <= i < |s| ensures !p(s[i]) {
            if i < |s| - 1 { assert s[i] == init[i]; }
          }
        }
      }
    }
  }
}
