/** Sequence helpers shared by the model: the present entries of a sequence of
    optional values, concatenation of batches, and per-item validity. */
module Seqs {
  import opened Wrappers

  /** The indices of the present entries of `s`, in increasing order. */
  function SomeIndices<T>(s: seq<Option<T>>): (r: seq<nat>)
    ensures forall k :: 0 <= k < |r| ==> r[k] < |s| && s[r[k]].Some?
    ensures forall k, l :: 0 <= k < l < |r| ==> r[k] < r[l]
    ensures forall i :: 0 <= i < |s| && s[i].Some? ==> i in r
  {
    if |s| == 0 then []
    else if s[|s| - 1].Some? then SomeIndices(s[..|s| - 1]) + [|s| - 1]
    else SomeIndices(s[..|s| - 1])
  }

  /** The values of the present entries of `s`, in index order. */
  function Somes<T>(s: seq<Option<T>>): seq<T>
  {
    if |s| == 0 then []
    else if s[|s| - 1].Some? then Somes(s[..|s| - 1]) + [s[|s| - 1].value]
    else Somes(s[..|s| - 1])
  }

  /** The k-th present value sits at the k-th present index: `Somes` keeps
      every present entry exactly once, in order, and nothing else. */
  lemma {:induction false} SomesAtIndices<T>(s: seq<Option<T>>)
    ensures |Somes(s)| == |SomeIndices(s)| <= |s|
    ensures forall k :: 0 <= k < |Somes(s)| ==> s[SomeIndices(s)[k]] == Some(Somes(s)[k])
  {
    if |s| > 0 {
      var t := s[..|s| - 1];
      SomesAtIndices(t);
      forall k | 0 <= k < |Somes(s)|
        ensures s[SomeIndices(s)[k]] == Some(Somes(s)[k])
      {
        if k < |Somes(t)| {
          assert SomeIndices(s)[k] == SomeIndices(t)[k];
          assert Somes(s)[k] == Somes(t)[k];
        }
      }
    }
  }

  /** Adding one entry at the end adds its value (if any) at the end. */
  lemma SomesSnoc<T>(s: seq<Option<T>>, x: Option<T>)
    ensures Somes(s + [x]) == Somes(s) + (if x.Some? then [x.value] else [])
  {
    assert (s + [x])[..|s|] == s;
  }

  /** `Somes` distributes over concatenation. */
  lemma {:induction false} SomesConcat<T>(a: seq<Option<T>>, b: seq<Option<T>>)
    ensures Somes(a + b) == Somes(a) + Somes(b)
    decreases |b|
  {
    if |b| == 0 {
      assert a + b == a;
    } else {
      var c := b[..|b| - 1];
      var y := b[|b| - 1];
      assert b == c + [y];
      assert a + b == (a + c) + [y];
      SomesConcat(a, c);
      SomesSnoc(a + c, y);
      SomesSnoc(c, y);
    }
  }

  /** Adding one entry at the front adds its value (if any) at the front. */
  lemma SomesCons<T>(x: Option<T>, s: seq<Option<T>>)
    ensures Somes([x] + s) == (if x.Some? then [x.value] else []) + Somes(s)
  {
    SomesConcat([x], s);
    SomesSnoc([], x);
    assert [] + [x] == [x];
  }

  /** Two sequences with the same presence pattern have the same present indices. */
  lemma {:induction false} SomeIndicesSamePattern<T, U>(a: seq<Option<T>>, b: seq<Option<U>>)
    requires |a| == |b|
    requires forall i :: 0 <= i < |a| ==> (a[i].Some? <==> b[i].Some?)
    ensures SomeIndices(a) == SomeIndices(b)
  {
    if |a| > 0 {
      SomeIndicesSamePattern(a[..|a| - 1], b[..|b| - 1]);
    }
  }

  /** The present values of a prefix of `s` are a prefix of those of `s`. */
  lemma {:induction false} SomesPrefix<T>(s: seq<Option<T>>, i: nat)
    requires i <= |s|
    ensures |Somes(s[..i])| <= |Somes(s)|
    ensures Somes(s)[..|Somes(s[..i])|] == Somes(s[..i])
  {
    if i < |s| {
      var t := s[..|s| - 1];
      assert t[..i] == s[..i];
      SomesPrefix(t, i);
      var k := |Somes(s[..i])|;
      assert Somes(s)[..|Somes(t)|] == Somes(t);
      assert Somes(s)[..k] == Somes(t)[..k];
    } else {
      assert s[..i] == s;
    }
  }

  lemma SnocAssoc<T>(a: seq<T>, b: seq<T>, x: T)
    ensures a + (b + [x]) == (a + b) + [x]
  {
  }

  /** Concatenation of a sequence of batches, in order. */
  function Flatten<T>(bs: seq<seq<T>>): (r: seq<T>)
  {
    if |bs| == 0 then [] else Flatten(bs[..|bs| - 1]) + bs[|bs| - 1]
  }

  lemma FlattenSnoc<T>(bs: seq<seq<T>>, b: seq<T>)
    ensures Flatten(bs + [b]) == Flatten(bs) + b
  {
    assert (bs + [b])[..|bs|] == bs;
  }

  /** Every item of `s` satisfies `valid`. */
  predicate AllValid<T>(valid: T -> bool, s: seq<T>)
  {
    forall k :: 0 <= k < |s| ==> valid(s[k])
  }

  lemma AllValidConcat<T>(valid: T -> bool, a: seq<T>, b: seq<T>)
    ensures AllValid(valid, a + b) <==> AllValid(valid, a) && AllValid(valid, b)
  {
    if AllValid(valid, a) && AllValid(valid, b) {
      forall k | 0 <= k < |a + b|
        ensures valid((a + b)[k])
      {
        if k >= |a| {
          assert (a + b)[k] == b[k - |a|];
        }
      }
    }
    if AllValid(valid, a + b) {
      forall k | 0 <= k < |a|
        ensures valid(a[k])
      {
        assert (a + b)[k] == a[k];
      }
      forall k | 0 <= k < |b|
        ensures valid(b[k])
      {
        assert (a + b)[|a| + k] == b[k];
      }
    }
  }

  /** An invalid item in a prefix is an invalid item of the whole sequence. */
  lemma InvalidPrefix<T>(valid: T -> bool, prefix: seq<T>, whole: seq<T>)
    requires |prefix| <= |whole| && whole[..|prefix|] == prefix
    requires !AllValid(valid, prefix)
    ensures !AllValid(valid, whole)
  {
    var k :| 0 <= k < |prefix| && !valid(prefix[k]);
    assert whole[k] == prefix[k];
  }

  /** Modelling assumption about a batch verifier: it accepts a batch exactly
      when every item of the batch is valid on its own. */
  ghost predicate IsConjunction<T(!new)>(verify: seq<T> -> bool, valid: T -> bool)
  {
    forall batch: seq<T> {:trigger verify(batch)} :: verify(batch) == AllValid(valid, batch)
  }
}
