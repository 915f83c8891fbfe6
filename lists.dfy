/** Python list operations used by the simulation loop, over Dafny sequences:
    selecting positions, `list.pop(i)`, `list.index(e)`, `list.remove(e)`,
    filtering, and the survivors of a loop that pops while it enumerates. */
module Lists {

  /** No element occurs twice. */
  predicate Distinct<T(==)>(s: seq<T>) {
    forall i, j :: 0 <= i < j < |s| ==> s[i] != s[j]
  }

  /** Positions in strictly increasing order. */
  predicate Increasing(idx: seq<nat>) {
    forall i, j :: 0 <= i < j < |idx| ==> idx[i] < idx[j]
  }

  /** Every position is a valid index of a sequence of length n. */
  predicate Below(idx: seq<nat>, n: nat) {
    forall k :: 0 <= k < |idx| ==> idx[k] < n
  }

  /** The elements of s at positions idx, in that order. */
  function Pick<T>(s: seq<T>, idx: seq<nat>): (r: seq<T>)
    requires Below(idx, |s|)
    ensures |r| == |idx|
    ensures forall k :: 0 <= k < |idx| ==> r[k] == s[idx[k]]
  {
    seq(|idx|, k requires 0 <= k < |idx| => s[idx[k]])
  }

  lemma PickSnoc<T>(s: seq<T>, idx: seq<nat>, j: nat)
    requires Below(idx, |s|) && j < |s|
    ensures Below(idx + [j], |s|)
    ensures Pick(s, idx + [j]) == Pick(s, idx) + [s[j]]
  {
  }

  /** Selecting increasing positions of a sequence without repetitions gives a
      sequence without repetitions. */
  lemma PickDistinct<T>(s: seq<T>, idx: seq<nat>)
    requires Below(idx, |s|) && Increasing(idx) && Distinct(s)
    ensures Distinct(Pick(s, idx))
  {
  }

  /** Selecting positions of a selection is one selection. */
  lemma PickPick<T>(s: seq<T>, a: seq<nat>, b: seq<nat>)
    requires Below(a, |s|) && Below(b, |a|)
    ensures Below(Pick(a, b), |s|)
    ensures Pick(Pick(s, a), b) == Pick(s, Pick(a, b))
  {
  }

  lemma PickIncreasing(a: seq<nat>, b: seq<nat>)
    requires Below(b, |a|) && Increasing(a) && Increasing(b)
    ensures Increasing(Pick(a, b))
  {
  }

  /** Increasing positions below n are at most n many. */
  lemma {:induction false} IncreasingBelowShort(idx: seq<nat>, n: nat)
    requires Increasing(idx) && Below(idx, n)
    ensures |idx| <= n
    decreases n
  {
    if |idx| > 0 {
      var init := idx[..|idx| - 1];
      assert Increasing(init) && Below(init, idx[|idx| - 1]);
      IncreasingBelowShort(init, idx[|idx| - 1]);
    }
  }

  /** In a list without repetitions, the element at position k is selected
      exactly when k is one of the selected positions. */
  lemma PickMember<T>(s: seq<T>, idx: seq<nat>, k: nat)
    requires Below(idx, |s|) && Distinct(s) && k < |s|
    ensures s[k] in Pick(s, idx) <==> k in idx
  {
    if s[k] in Pick(s, idx) {
      var i :| 0 <= i < |idx| && Pick(s, idx)[i] == s[k];
      assert s[idx[i]] == s[k];
    }
    if k in idx {
      var i :| 0 <= i < |idx| && idx[i] == k;
      assert Pick(s, idx)[i] == s[k];
    }
  }

  /** `l.pop(i)`: the list without its element at position i. */
  function RemoveAt<T>(s: seq<T>, i: nat): (r: seq<T>)
    requires i < |s|
    ensures |r| == |s| - 1
    ensures forall k :: 0 <= k < i ==> r[k] == s[k]
    ensures forall k :: i <= k < |r| ==> r[k] == s[k + 1]
  {
    s[..i] + s[i + 1..]
  }

  /** Popping position i of a list without repetitions removes exactly its
      element there. */
  lemma RemoveAtDistinct<T>(s: seq<T>, i: nat)
    requires Distinct(s) && i < |s|
    ensures Distinct(RemoveAt(s, i))
    ensures forall e :: e in RemoveAt(s, i) <==> e in s && e != s[i]
  {
    var r := RemoveAt(s, i);
    forall e | e in s && e != s[i]
      ensures e in r
    {
      var k :| 0 <= k < |s| && s[k] == e;
      if k < i {
        assert r[k] == e;
      } else {
        assert r[k - 1] == e;
      }
    }
  }

  /** The positions j, j + 1, ..., n - 1. */
  function Span(j: nat, n: nat): (r: seq<nat>)
    requires j <= n
    ensures |r| == n - j && forall k :: 0 <= k < |r| ==> r[k] == j + k
  {
    seq(n - j, k requires 0 <= k < n - j => j + k)
  }

  /** Popping a selection pops the positions it selects from. */
  lemma PickRemoveAt<T>(s: seq<T>, idx: seq<nat>, i: nat)
    requires Below(idx, |s|) && i < |idx|
    ensures Below(RemoveAt(idx, i), |s|)
    ensures RemoveAt(Pick(s, idx), i) == Pick(s, RemoveAt(idx, i))
  {
  }

  /** Popping the head of the unvisited span of positions. */
  lemma SpanPop(done: seq<nat>, j: nat, n: nat)
    requires j < n
    ensures |done| < |done + Span(j, n)| && (done + Span(j, n))[|done|] == j
    ensures RemoveAt(done + Span(j, n), |done|) == done + Span(j + 1, n)
  {
  }

  /** Moving the head of the unvisited span to the visited positions. */
  lemma SpanKeep(done: seq<nat>, j: nat, n: nat)
    requires j < n
    ensures done + Span(j, n) == (done + [j]) + Span(j + 1, n)
  {
  }

  /** `l.index(e)`: the first position holding e. */
  function IndexOf<T(==)>(s: seq<T>, e: T): (i: nat)
    requires e in s
    ensures i < |s| && s[i] == e
    ensures e !in s[..i]
  {
    if s[0] == e then 0
    else
      var i := 1 + IndexOf(s[1..], e);
      assert s[..i] == [s[0]] + s[1..][..i - 1];
      i
  }

  /** In a list without repetitions the element at position i is found at i. */
  lemma {:induction false} IndexOfDistinct<T>(s: seq<T>, i: nat)
    requires Distinct(s) && i < |s|
    ensures IndexOf(s, s[i]) == i
  {
    if i > 0 {
      assert s[0] != s[i];
      assert s[1..][i - 1] == s[i];
      IndexOfDistinct(s[1..], i - 1);
    }
  }

  /** `l.remove(e)`: the list without the first occurrence of e. */
  function RemoveFirst<T(==)>(s: seq<T>, e: T): (r: seq<T>)
    requires e in s
    ensures |r| == |s| - 1
  {
    RemoveAt(s, IndexOf(s, e))
  }

  /** The elements of s that do not occur in rem, in their original order. */
  function Without<T(==)>(s: seq<T>, rem: seq<T>): (r: seq<T>)
    ensures |r| <= |s|
  {
    if s == [] then []
    else
      var last := s[|s| - 1];
      Without(s[..|s| - 1], rem) + (if last in rem then [] else [last])
  }

  /** Filtering out nothing keeps everything. */
  lemma {:induction false} WithoutNothing<T>(s: seq<T>)
    ensures Without(s, []) == s
  {
    if s != [] {
      WithoutNothing(s[..|s| - 1]);
    }
  }

  lemma WithoutSnoc<T>(s: seq<T>, x: T, rem: seq<T>)
    ensures Without(s + [x], rem) == Without(s, rem) + (if x in rem then [] else [x])
  {
    assert (s + [x])[..|s|] == s;
  }

  lemma IndexOfAppend<T>(a: seq<T>, b: seq<T>, e: T)
    requires e in a
    ensures e in a + b && IndexOf(a + b, e) == IndexOf(a, e)
  {
    if a[0] != e {
      assert (a + b)[1..] == a[1..] + b;
      IndexOfAppend(a[1..], b, e);
    }
  }

  lemma RemoveFirstAppend<T>(a: seq<T>, b: seq<T>, e: T)
    requires e in a
    ensures e in a + b
    ensures RemoveFirst(a + b, e) == RemoveFirst(a, e) + b
  {
    IndexOfAppend(a, b, e);
    var i := IndexOf(a, e);
    assert (a + b)[..i] == a[..i];
    assert (a + b)[i + 1..] == a[i + 1..] + b;
  }

  /** An element of s that is not in rem stays. */
  lemma {:induction false} WithoutKeeps<T>(s: seq<T>, rem: seq<T>, e: T)
    requires e in s && e !in rem
    ensures e in Without(s, rem)
  {
    var init, last := s[..|s| - 1], s[|s| - 1];
    assert s == init + [last];
    if e != last {
      WithoutKeeps(init, rem, e);
    }
  }

  /** Filtering out keeps only elements of s that are not in rem. */
  lemma {:induction false} WithoutSubset<T>(s: seq<T>, rem: seq<T>)
    ensures forall k :: 0 <= k < |Without(s, rem)| ==> Without(s, rem)[k] in s && Without(s, rem)[k] !in rem
  {
    if s != [] {
      var init, last := s[..|s| - 1], s[|s| - 1];
      assert s == init + [last];
      WithoutSubset(init, rem);
    }
  }

  /** Filtering out keeps the elements distinct. */
  lemma {:induction false} WithoutDistinct<T>(s: seq<T>, rem: seq<T>)
    requires Distinct(s)
    ensures Distinct(Without(s, rem))
  {
    if s != [] {
      var init, last := s[..|s| - 1], s[|s| - 1];
      assert s == init + [last];
      assert Distinct(init);
      WithoutDistinct(init, rem);
      WithoutSubset(init, rem);
    }
  }

  lemma {:induction false} WithoutAbsent<T>(s: seq<T>, rem: seq<T>, e: T)
    requires e !in s
    ensures Without(s, rem + [e]) == Without(s, rem)
  {
    if s != [] {
      var init, last := s[..|s| - 1], s[|s| - 1];
      WithoutAbsent(init, rem, e);
      assert s == init + [last];
      WithoutSnoc(init, last, rem + [e]);
      WithoutSnoc(init, last, rem);
    }
  }

  /** Removing one more element of a list without repetitions, with
      `l.remove(e)`, is filtering it out. */
  lemma {:induction false} RemoveFirstWithout<T>(s: seq<T>, rem: seq<T>, e: T)
    requires Distinct(s) && e in s && e !in rem
    ensures e in Without(s, rem)
    ensures RemoveFirst(Without(s, rem), e) == Without(s, rem + [e])
  {
    WithoutKeeps(s, rem, e);
    var init, last := s[..|s| - 1], s[|s| - 1];
    assert s == init + [last];
    WithoutSnoc(init, last, rem);
    WithoutSnoc(init, last, rem + [e]);
    if last == e {
      assert e !in init;
      RemoveFirstWithoutLast(init, rem, e);
    } else {
      assert e in init;
      assert Distinct(init);
      RemoveFirstWithout(init, rem, e);
      WithoutKeeps(init, rem, e);
      var w := Without(init, rem);
      if last !in rem {
        assert last !in rem + [e];
        assert Without(s, rem) == w + [last];
        assert Without(s, rem + [e]) == Without(init, rem + [e]) + [last];
        RemoveFirstAppend(w, [last], e);
      } else {
        assert last in rem + [e];
        assert Without(s, rem) == w;
        assert Without(s, rem + [e]) == Without(init, rem + [e]);
      }
    }
  }

  lemma RemoveFirstWithoutLast<T>(init: seq<T>, rem: seq<T>, e: T)
    requires e !in init && e !in rem
    ensures e in Without(init + [e], rem)
    ensures RemoveFirst(Without(init + [e], rem), e) == Without(init + [e], rem + [e])
  {
    var w := Without(init, rem);
    WithoutSnoc(init, e, rem);
    assert Without(init + [e], rem) == w + [e];
    WithoutSnoc(init, e, rem + [e]);
    assert e in rem + [e];
    assert Without(init + [e], rem + [e]) == Without(init, rem + [e]);
    WithoutAbsent(init, rem, e);
    WithoutSubset(init, rem);
    assert e !in w;
    IndexOfLast(w, e);
    assert (w + [e])[..|w|] == w;
  }

  lemma IndexOfLast<T>(w: seq<T>, e: T)
    requires e !in w
    ensures IndexOf(w + [e], e) == |w|
  {
    if w != [] {
      assert (w + [e])[1..] == w[1..] + [e];
      IndexOfLast(w[1..], e);
    }
  }

  /** The positions, from j on, of the elements still in the list after
      `for x, e in enumerate(l): if dead(e): l.pop(x)`, given dead for
      each original position. Python's enumerate walks positions of the
      list as it is now, so the element that moves into a popped slot is
      never looked at. */
  function PopSurvivors(dead: seq<bool>, j: nat): (r: seq<nat>)
    requires j <= |dead|
    decreases |dead| - j
    ensures Increasing(r)
    ensures forall k :: 0 <= k < |r| ==> j <= r[k] < |dead|
    ensures forall k :: j <= k < |dead| && !dead[k] ==> k in r
  {
    if j == |dead| then []
    else if dead[j] then
      if j + 1 < |dead| then
        var rest := PopSurvivors(dead, j + 2);
        assert forall k :: k in [j + 1] + rest <==> k == j + 1 || k in rest;
        [j + 1] + rest
      else []
    else
      var rest := PopSurvivors(dead, j + 1);
      assert forall k :: k in [j] + rest <==> k == j || k in rest;
      [j] + rest
  }

  /** The positions a list of positions pos is left with after
      `for x, e in enumerate(l): if dead[e]: l.pop(x)` has run from index x on:
      after a pop the next element slides into index x and is not looked at. */
  function PopLoop(dead: seq<bool>, pos: seq<nat>, x: nat): (r: seq<nat>)
    requires Below(pos, |dead|)
    decreases |pos| - x
  {
    if x >= |pos| then pos
    else if dead[pos[x]] then PopLoop(dead, RemoveAt(pos, x), x + 1)
    else PopLoop(dead, pos, x + 1)
  }

  /** Running the loop over all positions leaves exactly the survivors. */
  lemma {:induction false} PopLoopSurvivors(dead: seq<bool>, done: seq<nat>, j: nat)
    requires j <= |dead| && Below(done, |dead|)
    ensures Below(done + Span(j, |dead|), |dead|)
    ensures PopLoop(dead, done + Span(j, |dead|), |done|) == done + PopSurvivors(dead, j)
    decreases |dead| - j
  {
    var n := |dead|;
    if j == n {
      assert done + Span(j, n) == done;
    } else if dead[j] && j + 1 < n {
      PopLoopSurvivors(dead, done + [j + 1], j + 2);
      PopLoopDead(dead, done, j);
      AppendShift(done, j + 1, PopSurvivors(dead, j + 2));
    } else if dead[j] {
      PopLoopLast(dead, done, j);
    } else {
      PopLoopSurvivors(dead, done + [j], j + 1);
      PopLoopLive(dead, done, j);
      AppendShift(done, j, PopSurvivors(dead, j + 1));
    }
  }

  lemma AppendShift(done: seq<nat>, e: nat, rest: seq<nat>)
    ensures (done + [e]) + rest == done + ([e] + rest)
  {
  }

  /** The loop at a dead element that has a successor: it is popped, and its
      successor slides into its index and is passed over. */
  lemma PopLoopDead(dead: seq<bool>, done: seq<nat>, j: nat)
    requires j + 1 < |dead| && dead[j] && Below(done, |dead|)
    ensures Below(done + Span(j, |dead|), |dead|)
    ensures PopLoop(dead, done + Span(j, |dead|), |done|) ==
            PopLoop(dead, (done + [j + 1]) + Span(j + 2, |dead|), |done| + 1)
  {
    var n := |dead|;
    var pos, rest := done + Span(j, n), done + Span(j + 1, n);
    assert Below(pos, n) && Below(rest, n);
    assert PopLoop(dead, pos, |done|) == PopLoop(dead, rest, |done| + 1) by {
      SpanPop(done, j, n);
      PopAt(dead, pos, |done|);
    }
    assert rest == (done + [j + 1]) + Span(j + 2, n) by {
      SpanKeep(done, j + 1, n);
    }
  }

  /** One step of the loop at a dead element: it is popped. */
  lemma PopAt(dead: seq<bool>, pos: seq<nat>, x: nat)
    requires Below(pos, |dead|) && x < |pos| && dead[pos[x]]
    ensures Below(RemoveAt(pos, x), |dead|)
    ensures PopLoop(dead, pos, x) == PopLoop(dead, RemoveAt(pos, x), x + 1)
  {
  }

  /** The loop at a dead last element: it is popped and the loop ends. */
  lemma PopLoopLast(dead: seq<bool>, done: seq<nat>, j: nat)
    requires j + 1 == |dead| && dead[j] && Below(done, |dead|)
    ensures Below(done + Span(j, |dead|), |dead|)
    ensures PopLoop(dead, done + Span(j, |dead|), |done|) == done + PopSurvivors(dead, j)
  {
    var pos := done + Span(j, |dead|);
    SpanPop(done, j, |dead|);
    assert done + Span(j + 1, |dead|) == done;
    assert PopLoop(dead, pos, |done|) == PopLoop(dead, done, |done| + 1);
  }

  /** The loop at a live element: it is kept. */
  lemma PopLoopLive(dead: seq<bool>, done: seq<nat>, j: nat)
    requires j < |dead| && !dead[j] && Below(done, |dead|)
    ensures Below(done + Span(j, |dead|), |dead|)
    ensures PopLoop(dead, done + Span(j, |dead|), |done|) ==
            PopLoop(dead, (done + [j]) + Span(j + 1, |dead|), |done| + 1)
  {
    var pos := done + Span(j, |dead|);
    SpanPop(done, j, |dead|);
    SpanKeep(done, j, |dead|);
    assert PopLoop(dead, pos, |done|) == PopLoop(dead, pos, |done| + 1);
  }

  /** An element that is not dead always survives the pass. */
  lemma LiveSurvive(dead: seq<bool>, k: nat)
    requires k < |dead| && !dead[k]
    ensures k in PopSurvivors(dead, 0)
  {
  }

  /** The skip of the pass: a dead element is removed unless the element
      before it was removed, and the element right after a removed one is
      always kept. */
  lemma {:induction false} PopSkips(dead: seq<bool>, j: nat)
    requires j <= |dead|
    decreases |dead| - j
    ensures forall k :: j <= k < |dead| && dead[k] && (k == j || k - 1 in PopSurvivors(dead, j)) ==>
      k !in PopSurvivors(dead, j)
    ensures forall k :: j < k < |dead| && k - 1 !in PopSurvivors(dead, j) ==> k in PopSurvivors(dead, j)
  {
    var r := PopSurvivors(dead, j);
    if j < |dead| {
      if dead[j] {
        if j + 1 < |dead| {
          PopSkips(dead, j + 2);
          var rest := PopSurvivors(dead, j + 2);
          assert r == [j + 1] + rest;
          assert j !in rest && j + 1 !in rest;
          assert forall k :: k in r <==> k == j + 1 || k in rest;
          forall k | j <= k < |dead| && dead[k] && (k == j || k - 1 in r)
            ensures k !in r
          {
            assert k in r <==> k == j + 1 || k in rest;
            if k > j + 1 {
              assert k - 1 in r <==> k - 1 == j + 1 || k - 1 in rest;
              assert k == j + 2 || k - 1 in rest;
              assert k !in rest;
            }
          }
          forall k | j < k < |dead| && k - 1 !in r
            ensures k in r
          {
            assert k in r <==> k == j + 1 || k in rest;
            assert k - 1 in r <==> k - 1 == j + 1 || k - 1 in rest;
            if k > j + 2 {
              assert k - 1 !in rest;
              assert k in rest;
            }
          }
        }
      } else {
        PopSkips(dead, j + 1);
        var rest := PopSurvivors(dead, j + 1);
        assert r == [j] + rest;
        assert j !in rest;
        assert forall k :: k in r <==> k == j || k in rest;
        forall k | j <= k < |dead| && dead[k] && (k == j || k - 1 in r)
          ensures k !in r
        {
          assert k in r <==> k == j || k in rest;
          assert k - 1 in r <==> k - 1 == j || k - 1 in rest;
          assert k > j;
          assert k == j + 1 || k - 1 in rest;
          assert k !in rest;
        }
        forall k | j < k < |dead| && k - 1 !in r
          ensures k in r
        {
          assert k in r <==> k == j || k in rest;
          assert k - 1 in r <==> k - 1 == j || k - 1 in rest;
          assert k > j + 1 && k - 1 !in rest;
          assert k in rest;
        }
      }
    }
  }

  /** A dead element that survives sits right after one that was removed. */
  lemma DeadSurvivorFollowsRemoved(dead: seq<bool>, k: nat)
    requires k < |dead| && dead[k] && k in PopSurvivors(dead, 0)
    ensures 0 < k && dead[k - 1] && k - 1 !in PopSurvivors(dead, 0)
  {
    PopSkips(dead, 0);
  }

  /** Two adjacent dead elements: the second one is skipped and survives. */
  lemma AdjacentDeadSecondSurvives()
    ensures PopSurvivors([true, true], 0) == [1]
  {
    assert PopSurvivors([true, true], 2) == [];
  }

  /** When every element is dead, exactly half of them (rounded down) survive. */
  lemma {:induction false} AllDeadHalfSurvive(n: nat, j: nat)
    requires j <= n
    decreases n - j
    ensures |PopSurvivors(seq(n, _ => true), j)| == (n - j) / 2
  {
    var dead := seq(n, _ => true);
    if j < n {
      assert dead[j];
      if j + 1 < n {
        AllDeadHalfSurvive(n, j + 2);
      }
    }
  }
}
