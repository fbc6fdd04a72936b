/** `Array.prototype.filter`, in the two forms the wallet uses: filtering by
    an element predicate, and filtering by position (removal at an index). */
module Lists {

  /** `s.filter(keep)`: the elements satisfying `keep`, in their original order. */
  function Filter<T>(s: seq<T>, keep: T -> bool): (r: seq<T>)
    ensures |r| <= |s|
  {
    if s == [] then []
    else
      var kept := Filter(s[..|s| - 1], keep);
      if keep(s[|s| - 1]) then kept + [s[|s| - 1]] else kept
  }

  /** The positions in `s` of the elements `Filter` keeps, in increasing order. */
  function FilterIndices<T>(s: seq<T>, keep: T -> bool): (r: seq<nat>)
    ensures |r| == |Filter(s, keep)|
    ensures forall m :: 0 <= m < |r| ==> r[m] < |s|
  {
    if s == [] then []
    else
      var kept := FilterIndices(s[..|s| - 1], keep);
      if keep(s[|s| - 1]) then kept + [|s| - 1] else kept
  }

  /** `r` is the subsequence of `s` at the strictly increasing positions
      `idx`, and `idx` holds exactly the positions whose element is kept. */
  ghost predicate SelectsKept<T>(s: seq<T>, r: seq<T>, idx: seq<nat>, keep: T -> bool) {
    && |idx| == |r|
    && (forall m :: 0 <= m < |idx| ==> idx[m] < |s| && r[m] == s[idx[m]])
    && (forall m, n :: 0 <= m < n < |idx| ==> idx[m] < idx[n])
    && (forall j :: 0 <= j < |s| ==> (j in idx <==> keep(s[j])))
  }

  /** Filter is a stable selection: it keeps exactly the satisfying positions,
      in increasing order. */
  lemma {:induction false} FilterSelectsKept<T>(s: seq<T>, keep: T -> bool)
    ensures SelectsKept(s, Filter(s, keep), FilterIndices(s, keep), keep)
  {
    if s != [] {
      var n := |s| - 1;
      var init := s[..n];
      var r0, idx0 := Filter(init, keep), FilterIndices(init, keep);
      FilterSelectsKept(init, keep);
      forall j | 0 <= j < n
        ensures s[j] == init[j]
      {
      }
      if keep(s[n]) {
        assert Filter(s, keep) == r0 + [s[n]] && FilterIndices(s, keep) == idx0 + [n];
      } else {
        assert Filter(s, keep) == r0 && FilterIndices(s, keep) == idx0;
      }
    }
  }

  /** Everything kept is an element satisfying `keep`, and every such element is kept. */
  lemma {:induction false} FilterSoundComplete<T>(s: seq<T>, keep: T -> bool)
    ensures forall x :: x in Filter(s, keep) <==> x in s && keep(x)
  {
    var r, idx := Filter(s, keep), FilterIndices(s, keep);
    FilterSelectsKept(s, keep);
    forall x | x in s && keep(x)
      ensures x in r
    {
      var j :| 0 <= j < |s| && s[j] == x;
      var m :| 0 <= m < |idx| && idx[m] == j;
      assert r[m] == x;
    }
  }

  /** When every element satisfies `keep`, the whole sequence is kept. */
  lemma {:induction false} FilterKeepsAll<T>(s: seq<T>, keep: T -> bool)
    requires forall i :: 0 <= i < |s| ==> keep(s[i])
    ensures Filter(s, keep) == s
  {
    if s != [] {
      FilterKeepsAll(s[..|s| - 1], keep);
    }
  }

  /** Filtering distributes over concatenation. */
  lemma {:induction false} FilterConcat<T>(a: seq<T>, b: seq<T>, keep: T -> bool)
    ensures Filter(a + b, keep) == Filter(a, keep) + Filter(b, keep)
    decreases |b|
  {
    if b == [] {
      assert a + b == a;
    } else {
      var n := |b| - 1;
      assert (a + b)[..|a + b| - 1] == a + b[..n];
      FilterConcat(a, b[..n], keep);
    }
  }

  /** Filtering a sequence extended by one element extends the filtered
      sequence by that element exactly when it is kept. */
  lemma {:induction false} FilterSnoc<T>(s: seq<T>, x: T, keep: T -> bool)
    ensures Filter(s + [x], keep) == if keep(x) then Filter(s, keep) + [x] else Filter(s, keep)
  {
  }

  /** A one-element sequence is kept exactly when its element satisfies `keep`. */
  lemma {:induction false} FilterSingle<T>(x: T, keep: T -> bool)
    ensures Filter([x], keep) == if keep(x) then [x] else []
  {
  }

  /** Filtering twice with the same predicate is filtering once. */
  lemma {:induction false} FilterIdempotent<T>(s: seq<T>, keep: T -> bool)
    ensures Filter(Filter(s, keep), keep) == Filter(s, keep)
  {
    if s != [] {
      var init, last := s[..|s| - 1], s[|s| - 1];
      FilterIdempotent(init, keep);
      if keep(last) {
        FilterConcat(Filter(init, keep), [last], keep);
        FilterSingle(last, keep);
      }
    }
  }

  /** The elements kept before position `FilterIndices(s, keep)[row]` are the
      first `row` kept elements. */
  lemma {:induction false} FilterPrefix<T>(s: seq<T>, keep: T -> bool, row: nat)
    requires row < |FilterIndices(s, keep)|
    ensures var j := FilterIndices(s, keep)[row];
      Filter(s[..j], keep) == Filter(s, keep)[..row]
  {
    var n := |s| - 1;
    var init := s[..n];
    var idx0 := FilterIndices(init, keep);
    if row == |idx0| {
      assert s[..n] == init;
    } else {
      FilterPrefix(init, keep, row);
      var j := idx0[row];
      assert s[..j] == init[..j];
    }
  }

  /** The element at each kept position satisfies `keep`. */
  lemma {:induction false} FilterIndicesKept<T>(s: seq<T>, keep: T -> bool, row: nat)
    requires row < |FilterIndices(s, keep)|
    ensures keep(s[FilterIndices(s, keep)[row]])
  {
    var n := |s| - 1;
    var init := s[..n];
    if row < |FilterIndices(init, keep)| {
      FilterIndicesKept(init, keep, row);
    }
  }

  /** The filtered sequence splits around the `row`-th kept element: the
      elements kept before its position, the element itself, and those kept
      after it. */
  lemma {:induction false} FilterSplitAtKept<T>(s: seq<T>, keep: T -> bool, row: nat)
    requires row < |Filter(s, keep)|
    ensures var j := FilterIndices(s, keep)[row];
      Filter(s, keep) == Filter(s[..j], keep) + [s[j]] + Filter(s[j + 1..], keep)
  {
    var j := FilterIndices(s, keep)[row];
    var x, pre, post := s[j], s[..j], s[j + 1..];
    FilterIndicesKept(s, keep, row);
    assert s == pre + ([x] + post);
    var fpre, fpost := Filter(pre, keep), Filter(post, keep);
    assert Filter([x] + post, keep) == [x] + fpost by {
      FilterConcat([x], post, keep);
      FilterSingle(x, keep);
    }
    FilterConcat(pre, [x] + post, keep);
    assert fpre + ([x] + fpost) == fpre + [x] + fpost;
  }

  /** Removing the position of the `row`-th kept element removes exactly that
      element from the filtered sequence. */
  lemma {:induction false} FilterAfterRemovingKept<T>(s: seq<T>, keep: T -> bool, row: nat)
    requires row < |Filter(s, keep)|
    ensures var j := FilterIndices(s, keep)[row];
      && s[j] == Filter(s, keep)[row]
      && RemoveAt(s, j) == s[..j] + s[j + 1..]
    ensures var shown := Filter(s, keep);
      Filter(RemoveAt(s, FilterIndices(s, keep)[row]), keep) == shown[..row] + shown[row + 1..]
  {
    var shown, j := Filter(s, keep), FilterIndices(s, keep)[row];
    var pre, post := s[..j], s[j + 1..];
    RemoveAtSpec(s, j);
    FilterSplitAtKept(s, keep, row);
    FilterPrefix(s, keep, row);
    FilterConcat(pre, post, keep);
    assert |Filter(pre, keep)| == row;
    assert shown[..row] == Filter(pre, keep);
    assert shown[row + 1..] == Filter(post, keep);
  }

  /** Two elements of which the first alone is dropped. */
  lemma {:induction false} FilterDropsFirst<T>(a: T, b: T, keep: T -> bool)
    requires !keep(a) && keep(b)
    ensures Filter([a, b], keep) == [b]
  {
    FilterSnoc([a], b, keep);
    assert [a] + [b] == [a, b];
  }

  /** Three elements of which the middle one alone is dropped. */
  lemma {:induction false} FilterDropsMiddle<T>(a: T, b: T, c: T, keep: T -> bool)
    requires keep(a) && !keep(b) && keep(c)
    ensures Filter([a, b, c], keep) == [a, c]
  {
    FilterSnoc([], a, keep);
    FilterSnoc([a], b, keep);
    FilterSnoc([a, b], c, keep);
    assert [] + [a] == [a] && [a] + [b] == [a, b] && [a, b] + [c] == [a, b, c];
  }

  /** `s.filter((_, i) => i !== index)`: keeps every element whose position
      differs from `index`; any integer may be passed. */
  function RemoveAt<T>(s: seq<T>, index: int): (r: seq<T>)
    ensures |r| == if 0 <= index < |s| then |s| - 1 else |s|
  {
    if s == [] then []
    else
      var kept := RemoveAt(s[..|s| - 1], index);
      if |s| - 1 != index then kept + [s[|s| - 1]] else kept
  }

  /** A position inside the sequence removes exactly that element, the others
      keeping their order; any other index leaves the sequence as it was. */
  lemma {:induction false} RemoveAtSpec<T>(s: seq<T>, index: int)
    ensures 0 <= index < |s| ==> RemoveAt(s, index) == s[..index] + s[index + 1..]
    ensures !(0 <= index < |s|) ==> RemoveAt(s, index) == s
  {
    if s != [] {
      var n := |s| - 1;
      var init := s[..n];
      RemoveAtSpec(init, index);
      if index == n {
        assert s[index + 1..] == [];
      } else if 0 <= index < n {
        assert init[..index] == s[..index];
        assert init[index + 1..] + [s[n]] == s[index + 1..];
      } else {
        assert init + [s[n]] == s;
      }
    }
  }

  /** Removal at a valid position takes exactly one copy of that element out. */
  lemma {:induction false} RemoveAtMultiset<T>(s: seq<T>, index: int)
    requires 0 <= index < |s|
    ensures multiset(RemoveAt(s, index)) + multiset{s[index]} == multiset(s)
  {
    RemoveAtSpec(s, index);
    assert s == s[..index] + [s[index]] + s[index + 1..];
  }
}
