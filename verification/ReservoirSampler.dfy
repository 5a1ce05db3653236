/** Reservoir sampling by Vitter's Algorithm R (base/reservoir_sampler.h).

    Uniformity is proved by counting: over all possible vectors of random draws, every stream
    position ends up in the reservoir equally often. */
module ReservoirSampler {

  // ---- which positions are kept -----------------------------------------------------------------

  /** Adding the item at position `n` to a reservoir of capacity `k`. */
  function Keep(k: nat, kept: seq<nat>, n: nat, draw: nat): seq<nat>
    requires |kept| <= k
  {
    if |kept| < k then kept + [n]
    else if draw < k then kept[draw := n]
    else kept
  }

  /** Once `k` items are stored, the item that makes the count `c` draws uniformly from 0..c-1. */
  predicate ValidDraws(k: nat, n: nat, draws: seq<nat>) {
    && |draws| == (if n <= k then 0 else n - k)
    && forall i :: 0 <= i < |draws| ==> draws[i] < k + 1 + i
  }

  /** The positions in the reservoir after `n` items. */
  function Kept(k: nat, n: nat, draws: seq<nat>): (kept: seq<nat>)
    requires ValidDraws(k, n, draws)
    ensures |kept| == if n <= k then n else k
  {
    if n == 0 then []
    else if n <= k then Keep(k, Kept(k, n - 1, draws), n - 1, 0)
    else Keep(k, Kept(k, n - 1, draws[..n - 1 - k]), n - 1, draws[n - 1 - k])
  }

  ghost predicate Distinct(s: seq<nat>) {
    forall i, j :: 0 <= i < j < |s| ==> s[i] != s[j]
  }

  /** The reservoir always holds min(n, k) distinct positions of the stream. */
  lemma {:induction false} KeptIsDistinct(k: nat, n: nat, draws: seq<nat>)
    requires ValidDraws(k, n, draws)
    ensures Distinct(Kept(k, n, draws))
    ensures forall p :: p in Kept(k, n, draws) ==> p < n
  {
    if n > 0 {
      var before := if n <= k then draws else draws[..n - 1 - k];
      KeptIsDistinct(k, n - 1, before);
      var kept, now := Kept(k, n - 1, before), Kept(k, n, draws);
      assert forall i :: 0 <= i < |kept| ==> kept[i] in kept;
    }
  }

  // ---- all vectors of draws ---------------------------------------------------------------------

  /** `v` followed by each of the draws below `n`. */
  function Choices(v: seq<nat>, n: nat): seq<seq<nat>> {
    if n == 0 then [] else Choices(v, n - 1) + [v + [n - 1]]
  }

  function Extend(vs: seq<seq<nat>>, n: nat): seq<seq<nat>> {
    if vs == [] then [] else Extend(vs[..|vs| - 1], n) + Choices(vs[|vs| - 1], n)
  }

  function AllDraws(k: nat, n: nat): seq<seq<nat>> {
    if n <= k then [[]] else Extend(AllDraws(k, n - 1), n)
  }

  lemma {:induction false} ChoicesAre(v: seq<nat>, n: nat, w: seq<nat>)
    ensures w in Choices(v, n) <==> |w| == |v| + 1 && w[..|v|] == v && w[|v|] < n
  {
    if n > 0 {
      ChoicesAre(v, n - 1, w);
      if |w| == |v| + 1 && w[..|v|] == v {
        assert w == v + [w[|v|]];
      }
      assert (v + [n - 1])[..|v|] == v;
    }
  }

  lemma {:induction false} ExtendLength(vs: seq<seq<nat>>, n: nat)
    ensures |Extend(vs, n)| == n * |vs|
  {
    if vs != [] {
      ExtendLength(vs[..|vs| - 1], n);
      ChoicesLength(vs[|vs| - 1], n);
      hide Choices;
      Distribute(n, |vs| - 1);
    }
  }

  lemma {:induction false} ChoicesLength(v: seq<nat>, n: nat)
    ensures |Choices(v, n)| == n
  {
    if n > 0 {
      ChoicesLength(v, n - 1);
    }
  }

  lemma Distribute(a: nat, b: nat)
    ensures a * (b + 1) == a * b + a
  {}

  lemma {:induction false} ExtendIs(vs: seq<seq<nat>>, n: nat, w: seq<nat>)
    ensures w in Extend(vs, n) <==> |w| > 0 && w[..|w| - 1] in vs && w[|w| - 1] < n
  {
    if vs != [] {
      var front, v := vs[..|vs| - 1], vs[|vs| - 1];
      ExtendIs(front, n, w);
      ChoicesAre(v, n, w);
      hide Choices;
      assert vs == front + [v];
    }
  }

  /** AllDraws lists exactly the possible vectors of draws. */
  lemma {:induction false} AllDrawsAreValid(k: nat, n: nat, v: seq<nat>)
    ensures v in AllDraws(k, n) <==> ValidDraws(k, n, v)
  {
    if n > k {
      ExtendIs(AllDraws(k, n - 1), n, v);
      if |v| > 0 {
        var w := v[..|v| - 1];
        AllDrawsAreValid(k, n - 1, w);
        assert v == w + [v[|v| - 1]];
      }
    }
  }

  ghost predicate NoDuplicates(vs: seq<seq<nat>>) {
    forall i, j :: 0 <= i < j < |vs| ==> vs[i] != vs[j]
  }

  lemma {:induction false} ChoicesDiffer(v: seq<nat>, n: nat)
    ensures NoDuplicates(Choices(v, n))
  {
    if n > 0 {
      ChoicesDiffer(v, n - 1);
      ChoicesAre(v, n - 1, v + [n - 1]);
      assert v + [n - 1] !in Choices(v, n - 1);
    }
  }

  lemma {:induction false} ExtendDiffers(vs: seq<seq<nat>>, n: nat)
    requires NoDuplicates(vs)
    ensures NoDuplicates(Extend(vs, n))
  {
    if vs != [] {
      var front, v := vs[..|vs| - 1], vs[|vs| - 1];
      ExtendDiffers(front, n);
      ChoicesDiffer(v, n);
      var a: seq<seq<nat>>, b: seq<seq<nat>> := Extend(front, n), Choices(v, n);
      forall w | w in a ensures w !in b {
        ExtendIs(front, n, w);
        ChoicesAre(v, n, w);
      }
      var ab: seq<seq<nat>> := a + b;
      forall i, j | 0 <= i < j < |ab| ensures ab[i] != ab[j] {
        if i < |a| <= j {
          assert a[i] in a && b[j - |a|] in b;
        }
      }
    }
  }

  /** ... and lists each of them once. */
  lemma {:induction false} AllDrawsDiffer(k: nat, n: nat)
    ensures NoDuplicates(AllDraws(k, n))
  {
    if n > k {
      AllDrawsDiffer(k, n - 1);
      ExtendDiffers(AllDraws(k, n - 1), n);
    }
  }

  // ---- counting -----------------------------------------------------------------------------------

  ghost predicate AllValid(k: nat, n: nat, vs: seq<seq<nat>>) {
    forall i :: 0 <= i < |vs| ==> ValidDraws(k, n, vs[i])
  }

  /** For how many of the draw vectors position `p` is kept. */
  ghost function Hits(k: nat, n: nat, vs: seq<seq<nat>>, p: nat): nat
    requires AllValid(k, n, vs)
  {
    if vs == [] then 0
    else Hits(k, n, vs[..|vs| - 1], p) + (if p in Kept(k, n, vs[|vs| - 1]) then 1 else 0)
  }

  lemma {:induction false} HitsConcat(k: nat, n: nat, a: seq<seq<nat>>, b: seq<seq<nat>>, p: nat)
    requires AllValid(k, n, a) && AllValid(k, n, b)
    ensures AllValid(k, n, a + b)
    ensures Hits(k, n, a + b, p) == Hits(k, n, a, p) + Hits(k, n, b, p)
  {
    if b == [] {
      assert a + b == a;
    } else {
      HitsConcat(k, n, a, b[..|b| - 1], p);
      assert (a + b)[..|a + b| - 1] == a + b[..|b| - 1];
    }
  }

  /** How many of the first `m` draws for item `n - 1` leave position `p` in the reservoir. */
  ghost function Survivals(k: nat, kept: seq<nat>, n: nat, p: nat, m: nat): nat
    requires |kept| == k && n > k && p < n
  {
    if p == n - 1 then (if m < k then m else k)
    else if p in kept then (if exists j :: 0 <= j < k && j < m && kept[j] == p then m - 1 else m)
    else 0
  }

  lemma KeptExtends(k: nat, n: nat, v: seq<nat>, c: nat)
    requires n > k && c < n && ValidDraws(k, n - 1, v)
    ensures ValidDraws(k, n, v + [c])
    ensures Kept(k, n, v + [c]) == Keep(k, Kept(k, n - 1, v), n - 1, c)
  {
    assert (v + [c])[..n - 1 - k] == v;
  }

  lemma {:induction false} ChoiceHits(k: nat, n: nat, v: seq<nat>, p: nat, m: nat)
    requires n > k && p < n && m <= n && ValidDraws(k, n - 1, v)
    ensures AllValid(k, n, Choices(v, m))
    ensures Hits(k, n, Choices(v, m), p) == Survivals(k, Kept(k, n - 1, v), n, p, m)
  {
    hide Keep, Kept;
    if m > 0 {
      ChoiceHits(k, n, v, p, m - 1);
      KeptExtends(k, n, v, m - 1);
      DrawKeeps(k, Kept(k, n - 1, v), n, p, m - 1, v);
      hide Survivals;
      var cs := Choices(v, m);
      assert cs[..|cs| - 1] == Choices(v, m - 1) && cs[|cs| - 1] == v + [m - 1];
    }
  }

  /** Drawing `c` replaces exactly the position stored there by the new one. */
  lemma DrawKeeps(k: nat, kept: seq<nat>, n: nat, p: nat, c: nat, v: seq<nat>)
    requires n > k && p < n && c < n && ValidDraws(k, n - 1, v) && kept == Kept(k, n - 1, v)
    ensures Survivals(k, kept, n, p, c + 1)
            == Survivals(k, kept, n, p, c) + (if p in Keep(k, kept, n - 1, c) then 1 else 0)
  {
    KeptIsDistinct(k, n - 1, v);
    var now := Keep(k, kept, n - 1, c);
    if c < k {
      assert now[c] == n - 1;
    }
    if p == n - 1 {
      assert c >= k ==> p !in now;
    } else if p in kept {
      var j :| 0 <= j < k && kept[j] == p;
      assert c != j ==> now[j] == p;
      if c == j {
        assert p !in now;
      }
    }
  }

  lemma SurvivalsOfAll(k: nat, n: nat, v: seq<nat>, p: nat)
    requires n > k && p < n && ValidDraws(k, n - 1, v)
    ensures var kept := Kept(k, n - 1, v);
            Survivals(k, kept, n, p, n) == if p == n - 1 then k else if p in kept then n - 1 else 0
  {
    KeptIsDistinct(k, n - 1, v);
    var kept := Kept(k, n - 1, v);
    if p in kept {
      var j :| 0 <= j < |kept| && kept[j] == p;
    }
  }

  /** Summed over all earlier draws: the new item is kept `k` times per vector, an old one in all
      but one of the `n` continuations of each vector that kept it. */
  lemma {:induction false} ExtendHits(k: nat, n: nat, vs: seq<seq<nat>>, p: nat)
    requires n > k && p < n && AllValid(k, n - 1, vs)
    ensures AllValid(k, n, Extend(vs, n))
    ensures Hits(k, n, Extend(vs, n), p)
            == if p == n - 1 then k * |vs| else (n - 1) * Hits(k, n - 1, vs, p)
  {
    hide Kept, Choices, Survivals, ValidDraws;
    if vs != [] {
      var front, v := vs[..|vs| - 1], vs[|vs| - 1];
      ExtendHits(k, n, front, p);
      ChoiceHits(k, n, v, p, n);
      SurvivalsOfAll(k, n, v, p);
      HitsConcat(k, n, Extend(front, n), Choices(v, n), p);
      Distribute(k, |front|);
      Distribute(n - 1, Hits(k, n - 1, front, p));
    }
  }

  /** Every one of the `n` stream positions is in the reservoir for the same number of draw
      vectors, namely a fraction min(n, k) / n of all of them. */
  lemma {:induction false} Uniform(k: nat, n: nat, p: nat)
    requires p < n
    ensures AllValid(k, n, AllDraws(k, n))
    ensures n * Hits(k, n, AllDraws(k, n), p) == (if n <= k then n else k) * |AllDraws(k, n)|
  {
    hide Kept, Extend, ValidDraws;
    if n <= k {
      FirstItemsAreKept(k, n, p);
      assert ValidDraws(k, n, []) by { NoDrawsYet(k, n); }
      var vs := AllDraws(k, n);
      assert vs[..0] == [];
    } else {
      var vs := AllDraws(k, n - 1);
      forall i | 0 <= i < |vs| ensures ValidDraws(k, n - 1, vs[i]) {
        AllDrawsAreValid(k, n - 1, vs[i]);
      }
      ExtendHits(k, n, vs, p);
      ExtendLength(vs, n);
      if p < n - 1 {
        Uniform(k, n - 1, p);
        UniformStep(n, Hits(k, n - 1, vs, p), k, |vs|);
      } else {
        UniformLast(n, k, |vs|);
      }
    }
  }

  lemma NoDrawsYet(k: nat, n: nat)
    requires n <= k
    ensures ValidDraws(k, n, [])
  {}

  lemma UniformStep(n: nat, hits: nat, k: nat, total: nat)
    requires n > k && (n - 1) * hits == k * total
    ensures n * ((n - 1) * hits) == k * (n * total)
  {}

  lemma UniformLast(n: nat, k: nat, total: nat)
    ensures n * (k * total) == k * (n * total)
  {}

  lemma {:induction false} FirstItemsAreKept(k: nat, n: nat, p: nat)
    requires p < n <= k
    ensures p in Kept(k, n, [])
  {
    var before := Kept(k, n - 1, []);
    assert Kept(k, n, []) == before + [n - 1];
    if p < n - 1 {
      FirstItemsAreKept(k, n - 1, p);
    }
  }

  // ---- the sampler --------------------------------------------------------------------------------

  /** The samples are the stream's items at the kept positions. */
  ghost predicate Samples<T>(samples: seq<T>, stream: seq<T>, kept: seq<nat>)
    ensures Samples(samples, stream, kept) ==> |samples| == |kept|
  {
    && |samples| == |kept|
    && forall i :: 0 <= i < |kept| ==> kept[i] < |stream| && samples[i] == stream[kept[i]]
  }

  lemma FirstItemsNeedNoDraw(k: nat, n: nat, draws: seq<nat>, draw: nat)
    requires n < k && ValidDraws(k, n, draws)
    ensures ValidDraws(k, n + 1, draws)
    ensures Kept(k, n + 1, draws) == Keep(k, Kept(k, n, draws), n, draw)
  {}

  lemma SamplesKeep<T>(k: nat, samples: seq<T>, stream: seq<T>, kept: seq<nat>, value: T, draw: nat)
    requires Samples(samples, stream, kept) && |kept| <= k
    ensures Samples(
              if |samples| < k then samples + [value] else if draw < k then samples[draw := value] else samples,
              stream + [value], Keep(k, kept, |stream|, draw))
  {}

  class Sampler<T> {
    const size: nat
    var samples: seq<T>
    var count: nat

    /** All items added and all random numbers drawn so far. */
    ghost var stream: seq<T>
    ghost var draws: seq<nat>

    ghost predicate Valid()
      reads this
    {
      && count == |stream|
      && ValidDraws(size, count, draws)
      && Samples(samples, stream, Kept(size, count, draws))
    }

    constructor (size: nat)
      ensures Valid() && this.size == size && stream == []
    {
      this.size := size;
      samples, count, stream, draws := [], 0, [], [];
    }

    /** `draw` is the outcome of the uniform choice from 0 up to the number of items seen before. */
    method Add(value: T, draw: nat)
      requires Valid() && draw <= count
      modifies this
      ensures Valid() && stream == old(stream) + [value]
      ensures draws == if old(count) < size then old(draws) else old(draws) + [draw]
      ensures Samples(samples, stream,
                      Keep(size, Kept(size, old(count), old(draws)), old(count), draw))
    {
      hide Keep, ValidDraws, Samples;
      SamplesKeep(size, samples, stream, Kept(size, count, draws), value, draw);
      if count < size {
        FirstItemsNeedNoDraw(size, count, draws, draw);
      } else {
        KeptExtends(size, count + 1, draws, draw);
        draws := draws + [draw];
      }
      stream := stream + [value];
      count := count + 1;
      if |samples| < size {
        samples := samples + [value];
      } else if draw < size {
        samples := samples[draw := value];
      }
    }
  }
}
