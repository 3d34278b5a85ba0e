/** Generic sequence helpers: an optional value, distinctness and order-preserving de-duplication. */
module Collections {

  datatype Option<T> = None | Some(value: T)

  predicate Distinct<T(==)>(xs: seq<T>) {
    forall i, j :: 0 <= i < j < |xs| ==> xs[i] != xs[j]
  }

  /** An element not yet present keeps a sequence without repetitions. */
  lemma DistinctAppend<T>(xs: seq<T>, x: T)
    requires Distinct(xs) && x !in xs
    ensures Distinct(xs + [x])
  {
    var e := xs + [x];
    forall i, j | 0 <= i < j < |e|
      ensures e[i] != e[j]
    {
      assert e[i] == xs[i];
      if j < |xs| {
        assert e[j] == xs[j];
      }
    }
  }

  /** Keeps the first occurrence of every element, in the order of first occurrence. */
  function Dedup<T(==)>(xs: seq<T>): (r: seq<T>)
    ensures |r| <= |xs|
    decreases |xs|
  {
    if xs == [] then []
    else
      var d := Dedup(xs[..|xs| - 1]);
      if xs[|xs| - 1] in d then d else d + [xs[|xs| - 1]]
  }

  /** The de-duplicated sequence has no repetitions and holds exactly the elements of the input. */
  lemma DedupSpec<T>(xs: seq<T>)
    ensures Distinct(Dedup(xs))
    ensures forall i :: 0 <= i < |xs| ==> xs[i] in Dedup(xs)
    ensures forall j :: 0 <= j < |Dedup(xs)| ==> Dedup(xs)[j] in xs
  {
    DedupIsDistinct(xs);
    DedupKeepsAll(xs);
    DedupFromInput(xs);
  }

  lemma {:induction false} DedupIsDistinct<T>(xs: seq<T>)
    ensures Distinct(Dedup(xs))
    decreases |xs|
  {
    if xs != [] {
      var init, last := xs[..|xs| - 1], xs[|xs| - 1];
      var d := Dedup(init);
      DedupIsDistinct(init);
      if last !in d {
        var e := d + [last];
        forall i, j | 0 <= i < j < |e|
          ensures e[i] != e[j]
        {
          if j == |d| {
            assert e[i] == d[i] && e[j] == last;
          } else {
            assert e[i] == d[i] && e[j] == d[j];
          }
        }
      }
    }
  }

  lemma {:induction false} DedupKeepsAll<T>(xs: seq<T>)
    ensures forall i :: 0 <= i < |xs| ==> xs[i] in Dedup(xs)
    decreases |xs|
  {
    if xs != [] {
      var init, last := xs[..|xs| - 1], xs[|xs| - 1];
      var d := Dedup(init);
      DedupKeepsAll(init);
      assert Dedup(xs) == if last in d then d else d + [last];
      forall i | 0 <= i < |xs|
        ensures xs[i] in Dedup(xs)
      {
        if i < |init| {
          assert xs[i] == init[i] && init[i] in d;
        }
      }
    }
  }

  lemma {:induction false} DedupFromInput<T>(xs: seq<T>)
    ensures forall j :: 0 <= j < |Dedup(xs)| ==> Dedup(xs)[j] in xs
    decreases |xs|
  {
    if xs != [] {
      var init, last := xs[..|xs| - 1], xs[|xs| - 1];
      var d := Dedup(init);
      DedupFromInput(init);
      assert Dedup(xs) == if last in d then d else d + [last];
      assert xs == init + [last];
      forall j | 0 <= j < |Dedup(xs)|
        ensures Dedup(xs)[j] in xs
      {
        if j < |d| {
          assert Dedup(xs)[j] == d[j] && d[j] in init;
        }
      }
    }
  }

  /** Extending the input only appends to the de-duplicated output: earlier choices are kept. */
  lemma {:induction false} DedupExtends<T>(xs: seq<T>, ys: seq<T>)
    ensures |Dedup(xs)| <= |Dedup(xs + ys)|
    ensures Dedup(xs + ys)[..|Dedup(xs)|] == Dedup(xs)
    decreases |ys|
  {
    var zs := xs + ys;
    if ys == [] {
      assert zs == xs;
    } else {
      var init := ys[..|ys| - 1];
      DedupExtends(xs, init);
      var d := Dedup(xs + init);
      assert zs[..|zs| - 1] == xs + init;
      var last := zs[|zs| - 1];
      assert Dedup(zs) == if last in d then d else d + [last];
      if last !in d {
        assert (d + [last])[..|d|] == d;
      }
      assert d[..|Dedup(xs)|] == Dedup(xs);
    }
  }

  /** The first element always survives de-duplication, in first place. */
  /** Removing repetitions keeps exactly the same elements. */
  lemma DedupSameElements<T>(xs: seq<T>)
    ensures forall x :: x in Dedup(xs) <==> x in xs
  {
    DedupSpec(xs);
    forall x | x in Dedup(xs)
      ensures x in xs
    {
      var j :| 0 <= j < |Dedup(xs)| && Dedup(xs)[j] == x;
    }
  }

  lemma DedupHead<T>(xs: seq<T>)
    requires xs != []
    ensures Dedup(xs) != [] && Dedup(xs)[0] == xs[0]
  {
    DedupExtends([xs[0]], xs[1..]);
    assert [xs[0]] + xs[1..] == xs;
    assert Dedup([xs[0]]) == [xs[0]];
  }

  /** A sequence without repetitions is its own de-duplication. */
  lemma {:induction false} DedupDistinct<T>(xs: seq<T>)
    requires Distinct(xs)
    ensures Dedup(xs) == xs
    decreases |xs|
  {
    if xs != [] {
      var init := xs[..|xs| - 1];
      DedupDistinct(init);
      assert forall i :: 0 <= i < |init| ==> init[i] == xs[i];
      assert xs[|xs| - 1] !in init;
      assert xs == init + [xs[|xs| - 1]];
    }
  }

  /** One more element extends the de-duplication exactly when it has not occurred before. */
  lemma DedupStep<T>(xs: seq<T>, i: nat)
    requires i < |xs|
    ensures Dedup(xs[..i + 1]) == if xs[i] in xs[..i] then Dedup(xs[..i]) else Dedup(xs[..i]) + [xs[i]]
  {
    assert xs[..i + 1][..i] == xs[..i];
    DedupSpec(xs[..i]);
  }

  /**
   * Python's `[g(x) for x in xs if c(x)]` with the test and the value folded into one `f`: the
   * values of the elements `f` keeps, in order.
   */
  function FilterMap<T, U>(xs: seq<T>, f: T -> Option<U>): (r: seq<U>)
    ensures |r| <= |xs|
    decreases |xs|
  {
    if xs == [] then []
    else
      var rest := FilterMap(xs[..|xs| - 1], f);
      match f(xs[|xs| - 1])
      case Some(y) => rest + [y]
      case None => rest
  }

  /** A value is in the output exactly when `f` keeps some element as that value. */
  lemma {:induction false} FilterMapIn<T, U>(xs: seq<T>, f: T -> Option<U>, y: U)
    ensures y in FilterMap(xs, f) <==> exists i :: 0 <= i < |xs| && f(xs[i]) == Some(y)
    decreases |xs|
  {
    if xs != [] {
      var n := |xs| - 1;
      var init := xs[..n];
      FilterMapIn(init, f, y);
      if y in FilterMap(init, f) {
        var i :| 0 <= i < n && f(init[i]) == Some(y);
        assert xs[i] == init[i];
      }
      if exists i :: 0 <= i < |xs| && f(xs[i]) == Some(y) {
        var i :| 0 <= i < |xs| && f(xs[i]) == Some(y);
        if i < n {
          assert xs[i] == init[i];
        }
      }
    }
  }

  /** One more element adds its value when `f` keeps it and nothing otherwise. */
  lemma FilterMapStep<T, U>(xs: seq<T>, i: nat, f: T -> Option<U>)
    requires i < |xs|
    ensures f(xs[i]).None? ==> FilterMap(xs[..i + 1], f) == FilterMap(xs[..i], f)
    ensures f(xs[i]).Some? ==> FilterMap(xs[..i + 1], f) == FilterMap(xs[..i], f) + [f(xs[i]).value]
  {
    assert xs[..i + 1][..i] == xs[..i];
  }

  /** Filter-mapping distributes over concatenation: the order of the input is kept. */
  lemma {:induction false} FilterMapAppend<T, U>(xs: seq<T>, ys: seq<T>, f: T -> Option<U>)
    ensures FilterMap(xs + ys, f) == FilterMap(xs, f) + FilterMap(ys, f)
    decreases |ys|
  {
    if ys == [] {
      assert xs + ys == xs;
    } else {
      var init := ys[..|ys| - 1];
      FilterMapAppend(xs, init, f);
      assert (xs + ys)[..|xs + ys| - 1] == xs + init;
    }
  }

  /** Inputs that `f` and `g` treat alike, element by element, give the same output. */
  lemma {:induction false} FilterMapPointwise<T, S, U>(xs: seq<T>, f: T -> Option<U>, ys: seq<S>, g: S -> Option<U>)
    requires |xs| == |ys|
    requires forall i :: 0 <= i < |xs| ==> f(xs[i]) == g(ys[i])
    ensures FilterMap(xs, f) == FilterMap(ys, g)
    decreases |xs|
  {
    if xs != [] {
      var n := |xs| - 1;
      assert forall i :: 0 <= i < n ==> xs[..n][i] == xs[i] && ys[..n][i] == ys[i];
      FilterMapPointwise(xs[..n], f, ys[..n], g);
    }
  }

  /** When `f` keeps every element, the output is exactly the kept values. */
  lemma {:induction false} FilterMapKeepsAll<T, U>(xs: seq<T>, f: T -> Option<U>, ys: seq<U>)
    requires |xs| == |ys|
    requires forall i :: 0 <= i < |xs| ==> f(xs[i]) == Some(ys[i])
    ensures FilterMap(xs, f) == ys
    decreases |xs|
  {
    if xs != [] {
      var n := |xs| - 1;
      assert forall i :: 0 <= i < n ==> xs[..n][i] == xs[i] && ys[..n][i] == ys[i];
      FilterMapKeepsAll(xs[..n], f, ys[..n]);
      assert ys == ys[..n] + [ys[n]];
    }
  }

  /** When `f` keeps no element, the output is empty. */
  lemma {:induction false} FilterMapDropsAll<T, U>(xs: seq<T>, f: T -> Option<U>)
    requires forall i :: 0 <= i < |xs| ==> f(xs[i]).None?
    ensures FilterMap(xs, f) == []
    decreases |xs|
  {
    if xs != [] {
      var n := |xs| - 1;
      assert forall i :: 0 <= i < n ==> xs[..n][i] == xs[i];
      FilterMapDropsAll(xs[..n], f);
    }
  }

  /** The de-duplication of a prefix is a prefix of the de-duplication. */
  lemma DedupPrefix<T>(xs: seq<T>, n: nat)
    requires n <= |xs|
    ensures |Dedup(xs[..n])| <= |Dedup(xs)| && Dedup(xs)[..|Dedup(xs[..n])|] == Dedup(xs[..n])
  {
    DedupExtends(xs[..n], xs[n..]);
    assert xs[..n] + xs[n..] == xs;
  }
}
