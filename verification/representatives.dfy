/**
 * Representative selection of 1_units_definition/img_summarizer_application.py:
 * the unit's surviving images are shuffled and, per k-means cluster id, the
 * first image in shuffled order is kept (`df.sample(len(df)).groupby(['kmeans']).first()`).
 * The clustering itself and the shuffle are given as inputs.
 */
module Representatives {
  import opened Wrappers

  /** One row of the per-unit table: source path, destination path, cluster id and unit. */
  datatype Sample = Sample(slvPath: string, imagePath: string, kmeans: nat, h3: string)

  /** A k-means labelling of n images: one cluster id in [0, k) per image. */
  predicate ValidLabels(labels: seq<nat>, n: nat, k: nat) {
    |labels| == n && forall i :: 0 <= i < n ==> labels[i] < k
  }

  /** perm lists every row index in [0, n) once: the order `sample(len(df))` draws. */
  predicate IsPermutation(perm: seq<nat>, n: nat) {
    && |perm| == n
    && (forall p :: 0 <= p < n ==> perm[p] < n)
    && (forall i :: 0 <= i < n ==> i in perm)
  }

  /** The table's columns have one entry per image and the shuffle points into it. */
  predicate Shaped(imgs: seq<string>, newPaths: seq<string>, labels: seq<nat>, perm: seq<nat>) {
    && |imgs| == |newPaths| == |labels|
    && forall p :: 0 <= p < |perm| ==> perm[p] < |labels|
  }

  /** Row i of the unit's table. */
  function RowAt(imgs: seq<string>, newPaths: seq<string>, labels: seq<nat>, h3: string, i: nat): Sample
    requires i < |imgs| == |newPaths| == |labels|
  {
    Sample(imgs[i], newPaths[i], labels[i], h3)
  }

  /** Position p of the shuffled order holds the first image of cluster c. */
  predicate FirstInShuffle(labels: seq<nat>, perm: seq<nat>, c: nat, p: int)
    requires forall q :: 0 <= q < |perm| ==> perm[q] < |labels|
  {
    0 <= p < |perm| && labels[perm[p]] == c && forall q :: 0 <= q < p ==> labels[perm[q]] != c
  }

  /** s is row perm[p] of the table, for the position p that starts its cluster in shuffled order. */
  ghost predicate IsRepresentative(imgs: seq<string>, newPaths: seq<string>, h3: string, labels: seq<nat>, perm: seq<nat>, s: Sample)
    requires Shaped(imgs, newPaths, labels, perm)
  {
    exists p :: FirstInShuffle(labels, perm, s.kmeans, p) && s == RowAt(imgs, newPaths, labels, h3, perm[p])
  }

  /** Some row of sel stands for cluster c. */
  ghost predicate Covers(sel: seq<Sample>, c: nat) {
    exists j :: 0 <= j < |sel| && sel[j].kmeans == c
  }

  /** The first position at or after `from` in the shuffled order whose image is in cluster c. */
  function FirstOf(labels: seq<nat>, perm: seq<nat>, c: nat, from: nat): (r: Option<nat>)
    requires forall q :: 0 <= q < |perm| ==> perm[q] < |labels|
    requires from <= |perm|
    ensures r.Some? ==> from <= r.value < |perm| && labels[perm[r.value]] == c
    ensures r.Some? ==> forall q :: from <= q < r.value ==> labels[perm[q]] != c
    ensures r.None? ==> forall q :: from <= q < |perm| ==> labels[perm[q]] != c
    decreases |perm| - from
  {
    if from == |perm| then None
    else if labels[perm[from]] == c then Some(from)
    else FirstOf(labels, perm, c, from + 1)
  }

  /** The representatives of clusters c to k - 1, in ascending cluster id:
      for each cluster, the row at the first shuffled position that holds it. */
  function Pick(imgs: seq<string>, newPaths: seq<string>, h3: string, labels: seq<nat>, perm: seq<nat>, c: nat, k: nat)
    : seq<Sample>
    requires Shaped(imgs, newPaths, labels, perm)
    requires c <= k
    decreases k - c
  {
    if c == k then []
    else
      var rest := Pick(imgs, newPaths, h3, labels, perm, c + 1, k);
      match FirstOf(labels, perm, c, 0)
      case None => rest
      case Some(p) => [RowAt(imgs, newPaths, labels, h3, perm[p])] + rest
  }

  /** The clusters c to k - 1 get at most one row each, in ascending
      cluster id. */
  lemma {:induction false} PickAscending(imgs: seq<string>, newPaths: seq<string>, h3: string, labels: seq<nat>, perm: seq<nat>, c: nat, k: nat)
    requires Shaped(imgs, newPaths, labels, perm)
    requires c <= k
    ensures var sel := Pick(imgs, newPaths, h3, labels, perm, c, k);
      && |sel| <= k - c
      && (forall j :: 0 <= j < |sel| ==> c <= sel[j].kmeans < k)
      && (forall j1, j2 :: 0 <= j1 < j2 < |sel| ==> sel[j1].kmeans < sel[j2].kmeans)
    decreases k - c
  {
    if c < k {
      PickAscending(imgs, newPaths, h3, labels, perm, c + 1, k);
      var rest := Pick(imgs, newPaths, h3, labels, perm, c + 1, k);
      var sel := Pick(imgs, newPaths, h3, labels, perm, c, k);
      match FirstOf(labels, perm, c, 0)
      case None =>
        assert sel == rest;
      case Some(p) =>
        assert sel == [RowAt(imgs, newPaths, labels, h3, perm[p])] + rest;
        assert forall j :: 0 < j < |sel| ==> sel[j] == rest[j - 1];
    }
  }

  /** Each picked row is the first of its cluster in shuffled order. */
  lemma {:induction false} PickRepresentatives(imgs: seq<string>, newPaths: seq<string>, h3: string, labels: seq<nat>, perm: seq<nat>, c: nat, k: nat)
    requires Shaped(imgs, newPaths, labels, perm)
    requires c <= k
    ensures forall j :: 0 <= j < |Pick(imgs, newPaths, h3, labels, perm, c, k)| ==>
      IsRepresentative(imgs, newPaths, h3, labels, perm, Pick(imgs, newPaths, h3, labels, perm, c, k)[j])
    decreases k - c
  {
    if c < k {
      PickRepresentatives(imgs, newPaths, h3, labels, perm, c + 1, k);
      var rest := Pick(imgs, newPaths, h3, labels, perm, c + 1, k);
      var sel := Pick(imgs, newPaths, h3, labels, perm, c, k);
      match FirstOf(labels, perm, c, 0)
      case None =>
        assert sel == rest;
      case Some(p) =>
        assert sel == [RowAt(imgs, newPaths, labels, h3, perm[p])] + rest;
        forall j | 0 <= j < |sel| ensures IsRepresentative(imgs, newPaths, h3, labels, perm, sel[j]) {
          if j == 0 {
            assert FirstInShuffle(labels, perm, sel[0].kmeans, p);
          } else {
            assert sel[j] == rest[j - 1];
          }
        }
    }
  }

  /** Every cluster among c to k - 1 that occurs in the shuffled table gets a row. */
  lemma {:induction false} PickCovers(imgs: seq<string>, newPaths: seq<string>, h3: string, labels: seq<nat>, perm: seq<nat>, c: nat, k: nat)
    requires Shaped(imgs, newPaths, labels, perm)
    requires c <= k
    ensures var sel := Pick(imgs, newPaths, h3, labels, perm, c, k);
      forall p :: 0 <= p < |perm| && c <= labels[perm[p]] < k ==> Covers(sel, labels[perm[p]])
    decreases k - c
  {
    if c < k {
      PickCovers(imgs, newPaths, h3, labels, perm, c + 1, k);
      var rest := Pick(imgs, newPaths, h3, labels, perm, c + 1, k);
      var sel := Pick(imgs, newPaths, h3, labels, perm, c, k);
      match FirstOf(labels, perm, c, 0)
      case None =>
        assert sel == rest;
      case Some(p) =>
        assert sel == [RowAt(imgs, newPaths, labels, h3, perm[p])] + rest;
        forall q | 0 <= q < |perm| && c <= labels[perm[q]] < k
          ensures Covers(sel, labels[perm[q]])
        {
          if labels[perm[q]] == c {
            assert sel[0].kmeans == c;
          } else {
            var j :| 0 <= j < |rest| && rest[j].kmeans == labels[perm[q]];
            assert sel[j + 1] == rest[j];
          }
        }
    }
  }

  /** `df.sample(len(df)).groupby(['kmeans']).first()` on the unit's table. */
  function Select(imgs: seq<string>, newPaths: seq<string>, h3: string, labels: seq<nat>, perm: seq<nat>, k: nat)
    : (sel: seq<Sample>)
    requires |imgs| == |newPaths|
    requires ValidLabels(labels, |imgs|, k)
    requires IsPermutation(perm, |imgs|)
    ensures |sel| <= k
  {
    PickAscending(imgs, newPaths, h3, labels, perm, 0, k);
    Pick(imgs, newPaths, h3, labels, perm, 0, k)
  }

  /** One row per cluster id that occurs, in ascending cluster id, each the
      first of its cluster in shuffled order, so at most k rows. */
  lemma SelectSpec(imgs: seq<string>, newPaths: seq<string>, h3: string, labels: seq<nat>, perm: seq<nat>, k: nat)
    requires |imgs| == |newPaths|
    requires ValidLabels(labels, |imgs|, k)
    requires IsPermutation(perm, |imgs|)
    ensures var sel := Select(imgs, newPaths, h3, labels, perm, k);
      && |sel| <= k
      && (forall j1, j2 :: 0 <= j1 < j2 < |sel| ==> sel[j1].kmeans < sel[j2].kmeans)
      && (forall j :: 0 <= j < |sel| ==> IsRepresentative(imgs, newPaths, h3, labels, perm, sel[j]))
      && (forall i :: 0 <= i < |imgs| ==> Covers(sel, labels[i]))
  {
    var sel := Select(imgs, newPaths, h3, labels, perm, k);
    PickAscending(imgs, newPaths, h3, labels, perm, 0, k);
    PickRepresentatives(imgs, newPaths, h3, labels, perm, 0, k);
    PickCovers(imgs, newPaths, h3, labels, perm, 0, k);
    forall i | 0 <= i < |imgs| ensures Covers(sel, labels[i]) {
      assert i in perm;
      var p :| 0 <= p < |perm| && perm[p] == i;
      assert labels[perm[p]] < k;
    }
  }

  /** A selection strictly ascending in cluster id, drawn from the clusters in S,
      has at most |S| rows. */
  lemma {:induction false} AscendingWithin(sel: seq<Sample>, S: set<nat>)
    requires forall j1, j2 :: 0 <= j1 < j2 < |sel| ==> sel[j1].kmeans < sel[j2].kmeans
    requires forall j :: 0 <= j < |sel| ==> sel[j].kmeans in S
    ensures |sel| <= |S|
    decreases |sel|
  {
    if sel != [] {
      AscendingWithin(sel[1..], S - {sel[0].kmeans});
    }
  }

  /** The cluster ids that occur in a labelling. */
  function LabelSet(labels: seq<nat>): set<nat> {
    set x | x in labels
  }

  /** There are at most as many distinct labels as images. */
  lemma {:induction false} LabelSetBound(labels: seq<nat>)
    ensures |LabelSet(labels)| <= |labels|
    decreases |labels|
  {
    if labels != [] {
      var init := labels[..|labels| - 1];
      LabelSetBound(init);
      var last := labels[|labels| - 1];
      var before, after := LabelSet(init), LabelSet(labels);
      assert after == before + {last} by {
        assert labels == init + [last];
      }
      if last in before {
        assert after == before;
      } else {
        assert |after| == |before| + 1;
      }
    }
  }

  /** No more representatives than images: every row stands for a distinct
      cluster id that some image carries. */
  lemma SelectAtMostN(imgs: seq<string>, newPaths: seq<string>, h3: string, labels: seq<nat>, perm: seq<nat>, k: nat)
    requires |imgs| == |newPaths|
    requires ValidLabels(labels, |imgs|, k)
    requires IsPermutation(perm, |imgs|)
    ensures |Select(imgs, newPaths, h3, labels, perm, k)| <= |imgs|
  {
    var sel := Select(imgs, newPaths, h3, labels, perm, k);
    SelectSpec(imgs, newPaths, h3, labels, perm, k);
    var used := LabelSet(labels);
    forall j | 0 <= j < |sel| ensures sel[j].kmeans in used {
      assert IsRepresentative(imgs, newPaths, h3, labels, perm, sel[j]);
      var p :| FirstInShuffle(labels, perm, sel[j].kmeans, p) && sel[j] == RowAt(imgs, newPaths, labels, h3, perm[p]);
      assert labels[perm[p]] in labels;
    }
    AscendingWithin(sel, used);
    LabelSetBound(labels);
  }

  /** Every representative is a row of the unit's table: its own paths, its own
      cluster id, the unit's id. Different rows come from different images, so
      distinct destination paths stay distinct. */
  lemma SelectFromTable(imgs: seq<string>, newPaths: seq<string>, h3: string, labels: seq<nat>, perm: seq<nat>, k: nat)
    requires |imgs| == |newPaths|
    requires ValidLabels(labels, |imgs|, k)
    requires IsPermutation(perm, |imgs|)
    ensures var sel := Select(imgs, newPaths, h3, labels, perm, k);
      forall j :: 0 <= j < |sel| ==> sel[j].h3 == h3 && exists i :: 0 <= i < |imgs| && sel[j] == RowAt(imgs, newPaths, labels, h3, i)
    ensures var sel := Select(imgs, newPaths, h3, labels, perm, k);
      (forall i1, i2 :: 0 <= i1 < i2 < |newPaths| ==> newPaths[i1] != newPaths[i2]) ==>
      forall j1, j2 :: 0 <= j1 < j2 < |sel| ==> sel[j1].imagePath != sel[j2].imagePath
  {
    var sel := Select(imgs, newPaths, h3, labels, perm, k);
    SelectSpec(imgs, newPaths, h3, labels, perm, k);
    forall j | 0 <= j < |sel|
      ensures sel[j].h3 == h3 && exists i :: 0 <= i < |imgs| && sel[j] == RowAt(imgs, newPaths, labels, h3, i)
    {
      assert IsRepresentative(imgs, newPaths, h3, labels, perm, sel[j]);
      var p :| FirstInShuffle(labels, perm, sel[j].kmeans, p) && sel[j] == RowAt(imgs, newPaths, labels, h3, perm[p]);
    }
    if forall i1, i2 :: 0 <= i1 < i2 < |newPaths| ==> newPaths[i1] != newPaths[i2] {
      forall j1, j2 | 0 <= j1 < j2 < |sel| ensures sel[j1].imagePath != sel[j2].imagePath {
        assert IsRepresentative(imgs, newPaths, h3, labels, perm, sel[j1]);
        assert IsRepresentative(imgs, newPaths, h3, labels, perm, sel[j2]);
        var p1 :| FirstInShuffle(labels, perm, sel[j1].kmeans, p1) && sel[j1] == RowAt(imgs, newPaths, labels, h3, perm[p1]);
        var p2 :| FirstInShuffle(labels, perm, sel[j2].kmeans, p2) && sel[j2] == RowAt(imgs, newPaths, labels, h3, perm[p2]);
        assert perm[p1] != perm[p2];
      }
    }
  }
}
