/** The loop shape both extractors use to build their episode lists: walk
    the blocks in order and append a record for every block that yields one. */
module Lists {
  import opened Wrappers

  /** The records `f` yields for `xs[i..]`, in order. */
  function FilterMapFrom<A, B>(f: A -> Option<B>, xs: seq<A>, i: nat): seq<B>
    decreases |xs| - i
  {
    if i >= |xs| then []
    else
      match f(xs[i])
      case Some(y) => [y] + FilterMapFrom(f, xs, i + 1)
      case None => FilterMapFrom(f, xs, i + 1)
  }

  function FilterMap<A, B>(f: A -> Option<B>, xs: seq<A>): seq<B> {
    FilterMapFrom(f, xs, 0)
  }

  /** The indices of `xs[i..]` for which `f` yields a record. */
  function SourcesFrom<A, B>(f: A -> Option<B>, xs: seq<A>, i: nat): seq<nat>
    decreases |xs| - i
  {
    if i >= |xs| then []
    else if f(xs[i]).Some? then [i] + SourcesFrom(f, xs, i + 1)
    else SourcesFrom(f, xs, i + 1)
  }

  /** `src` lists, in increasing order, exactly the indices from `i` on for
      which `f` yields a record, and `r[k]` is the record of `xs[src[k]]`. */
  ghost predicate FromSources<A, B>(r: seq<B>, src: seq<nat>, f: A -> Option<B>, xs: seq<A>, i: nat) {
    && |src| == |r|
    && (forall k :: 0 <= k < |src| ==> i <= src[k] < |xs|)
    && (forall k, l :: 0 <= k < l < |src| ==> src[k] < src[l])
    && (forall k :: 0 <= k < |src| ==> f(xs[src[k]]) == Some(r[k]))
    && (forall j :: i <= j < |xs| && f(xs[j]).Some? ==> j in src)
  }

  lemma {:induction false} FilterMapSources<A, B>(f: A -> Option<B>, xs: seq<A>, i: nat)
    ensures FromSources(FilterMapFrom(f, xs, i), SourcesFrom(f, xs, i), f, xs, i)
    decreases |xs| - i
  {
    if i < |xs| {
      FilterMapSources(f, xs, i + 1);
      var r' := FilterMapFrom(f, xs, i + 1);
      var src' := SourcesFrom(f, xs, i + 1);
      if f(xs[i]).Some? {
        assert FilterMapFrom(f, xs, i) == [f(xs[i]).value] + r';
        assert SourcesFrom(f, xs, i) == [i] + src';
        FromSourcesCons(f(xs[i]).value, r', src', f, xs, i);
      }
    }
  }

  /** One more element that yields a record adds it and its index in front. */
  lemma FromSourcesCons<A, B>(y: B, r': seq<B>, src': seq<nat>, f: A -> Option<B>, xs: seq<A>, i: nat)
    requires i < |xs| && f(xs[i]) == Some(y)
    requires FromSources(r', src', f, xs, i + 1)
    ensures FromSources([y] + r', [i] + src', f, xs, i)
  {
    ConsRecords(y, r', src', f, xs, i);
    ConsIncreasing(src', i);
    ConsComplete(src', f, xs, i);
  }

  lemma ConsRecords<A, B>(y: B, r': seq<B>, src': seq<nat>, f: A -> Option<B>, xs: seq<A>, i: nat)
    requires i < |xs| && f(xs[i]) == Some(y)
    requires |src'| == |r'|
    requires forall k :: 0 <= k < |src'| ==> i + 1 <= src'[k] < |xs|
    requires forall k :: 0 <= k < |src'| ==> f(xs[src'[k]]) == Some(r'[k])
    ensures forall k :: 0 <= k < |src'| + 1 ==> f(xs[([i] + src')[k]]) == Some(([y] + r')[k])
  {
    var r := [y] + r';
    var src := [i] + src';
    forall k | 0 <= k < |src|
      ensures f(xs[src[k]]) == Some(r[k])
    {
      if k > 0 {
        assert src[k] == src'[k - 1] && r[k] == r'[k - 1];
      }
    }
  }

  lemma ConsIncreasing(src': seq<nat>, i: nat)
    requires forall k :: 0 <= k < |src'| ==> i + 1 <= src'[k]
    requires forall k, l :: 0 <= k < l < |src'| ==> src'[k] < src'[l]
    ensures forall k, l :: 0 <= k < l < |src'| + 1 ==> ([i] + src')[k] < ([i] + src')[l]
  {
    var src := [i] + src';
    forall k, l | 0 <= k < l < |src|
      ensures src[k] < src[l]
    {
      assert src[l] == src'[l - 1];
      if k > 0 {
        assert src[k] == src'[k - 1];
      }
    }
  }

  lemma ConsComplete<A, B>(src': seq<nat>, f: A -> Option<B>, xs: seq<A>, i: nat)
    requires forall j :: i + 1 <= j < |xs| && f(xs[j]).Some? ==> j in src'
    ensures forall j :: i <= j < |xs| && f(xs[j]).Some? ==> j in [i] + src'
  {
    forall j | i <= j < |xs| && f(xs[j]).Some?
      ensures j in [i] + src'
    {
      if j > i {
        assert j in src';
      }
    }
  }

  /** A strictly increasing list of indices below `n` has at most `n`
      entries. */
  lemma {:induction false} IncreasingBound(src: seq<nat>, n: nat)
    requires forall k :: 0 <= k < |src| ==> src[k] < n
    requires forall k, l :: 0 <= k < l < |src| ==> src[k] < src[l]
    ensures |src| <= n
    decreases n
  {
    if |src| > 0 {
      var last := src[|src| - 1];
      var init := src[..|src| - 1];
      forall k | 0 <= k < |init|
        ensures init[k] < last
      {
        assert init[k] == src[k];
      }
      IncreasingBound(init, last);
    }
  }

  /** At most one record per element, every record comes from an element,
      and every element that yields a record is represented. */
  lemma FilterMapSpec<A, B>(f: A -> Option<B>, xs: seq<A>)
    ensures |FilterMap(f, xs)| <= |xs|
    ensures forall y :: y in FilterMap(f, xs) ==> exists j :: 0 <= j < |xs| && f(xs[j]) == Some(y)
    ensures forall j :: 0 <= j < |xs| && f(xs[j]).Some? ==> f(xs[j]).value in FilterMap(f, xs)
  {
    var r := FilterMap(f, xs);
    var src := SourcesFrom(f, xs, 0);
    FilterMapSources(f, xs, 0);
    IncreasingBound(src, |xs|);
    forall y | y in r
      ensures exists j :: 0 <= j < |xs| && f(xs[j]) == Some(y)
    {
      var k :| 0 <= k < |r| && r[k] == y;
      assert f(xs[src[k]]) == Some(r[k]);
    }
    forall j | 0 <= j < |xs| && f(xs[j]).Some?
      ensures f(xs[j]).value in r
    {
      assert j in src;
      var k :| 0 <= k < |src| && src[k] == j;
      assert r[k] == f(xs[j]).value;
    }
  }

  /** Appending a record per element in order: two elements give their
      records in order. */
  lemma FilterMapPair<A, B>(f: A -> Option<B>, x1: A, x2: A)
    requires f(x1).Some? && f(x2).Some?
    ensures FilterMap(f, [x1, x2]) == [f(x1).value, f(x2).value]
  {
    var xs := [x1, x2];
    assert FilterMapFrom(f, xs, 2) == [];
    assert FilterMapFrom(f, xs, 1) == [f(x2).value];
    assert FilterMapFrom(f, xs, 0) == [f(x1).value] + [f(x2).value];
  }

  /** `[p(x) for x in xs]`. */
  function MapSeq<A, B>(p: A -> B, xs: seq<A>): (r: seq<B>)
    ensures |r| == |xs|
    ensures forall i :: 0 <= i < |xs| ==> r[i] == p(xs[i])
  {
    seq(|xs|, i requires 0 <= i < |xs| => p(xs[i]))
  }

  /** Two walks whose steps yield records together and agree on what `p`
      and `q` keep of them yield lists that agree on it too. */
  lemma {:induction false} FilterMapFromProject<A, B, C, D>(f: A -> Option<B>, g: A -> Option<C>,
                                                         p: B -> D, q: C -> D, xs: seq<A>, i: nat)
    requires forall x :: f(x).Some? <==> g(x).Some?
    requires forall x :: f(x).Some? ==> p(f(x).value) == q(g(x).value)
    ensures MapSeq(p, FilterMapFrom(f, xs, i)) == MapSeq(q, FilterMapFrom(g, xs, i))
    decreases |xs| - i
  {
    if i < |xs| {
      FilterMapFromProject(f, g, p, q, xs, i + 1);
      if f(xs[i]).Some? {
        var a := FilterMapFrom(f, xs, i + 1);
        var b := FilterMapFrom(g, xs, i + 1);
        assert MapSeq(p, [f(xs[i]).value] + a) == [p(f(xs[i]).value)] + MapSeq(p, a);
        assert MapSeq(q, [g(xs[i]).value] + b) == [q(g(xs[i]).value)] + MapSeq(q, b);
      }
    }
  }

  lemma FilterMapProject<A, B, C, D>(f: A -> Option<B>, g: A -> Option<C>, p: B -> D, q: C -> D, xs: seq<A>)
    requires forall x :: f(x).Some? <==> g(x).Some?
    requires forall x :: f(x).Some? ==> p(f(x).value) == q(g(x).value)
    ensures MapSeq(p, FilterMap(f, xs)) == MapSeq(q, FilterMap(g, xs))
  {
    FilterMapFromProject(f, g, p, q, xs, 0);
  }

  /** What `f` yields for the last element that yields anything: the
      outcome of a loop that overwrites its result at every such element. */
  function LastSome<A, B>(f: A -> Option<B>, xs: seq<A>): Option<B> {
    if |xs| == 0 then None
    else if f(xs[|xs| - 1]).Some? then f(xs[|xs| - 1])
    else LastSome(f, xs[..|xs| - 1])
  }

  lemma {:induction false} LastSomeSpec<A, B>(f: A -> Option<B>, xs: seq<A>)
    ensures LastSome(f, xs).None? <==> forall i :: 0 <= i < |xs| ==> f(xs[i]).None?
    ensures LastSome(f, xs).Some? ==> exists i ::
      && 0 <= i < |xs|
      && f(xs[i]) == LastSome(f, xs)
      && (forall j :: i < j < |xs| ==> f(xs[j]).None?)
  {
    if |xs| > 0 {
      var n := |xs| - 1;
      var init := xs[..n];
      if f(xs[n]).None? {
        LastSomeSpec(f, init);
        assert forall i :: 0 <= i < n ==> xs[i] == init[i];
      }
    }
  }
}
