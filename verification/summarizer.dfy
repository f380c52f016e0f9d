/**
 * The unit sampling driver of 1_units_definition/img_summarizer_application.py:
 * visit the spatial units in ascending order, build each unit's candidate
 * paths, filter them by size, skip units with fewer than five survivors,
 * and append one representative per k-means cluster to the result list.
 * The embedding, PCA and k-means step is given as a clustering oracle, and
 * the shuffle as a permutation oracle.
 */
module Summarizer {
  import opened Wrappers
  import Lex
  import opened Tools
  import opened Paths
  import opened SizeFilter
  import opened Representatives
  import opened RunLog

  /** `k`, the number of k-means clusters. */
  const K: nat := 5

  /** A unit with fewer surviving images than this is unusable. */
  const MinImages: nat := 5

  /** Cluster ids for a unit's surviving images (embedding, PCA, k-means with a fixed seed). */
  type Clustering = (string, seq<string>) -> seq<nat>

  /** The order `df.sample(len(df))` draws for a unit with n rows. */
  type Shuffle = (string, nat) -> seq<nat>

  /** k-means with n_clusters = K labels every image with a cluster id in [0, K). */
  ghost predicate ClusteringValid(assign: Clustering) {
    forall h3, imgs :: ValidLabels(assign(h3, imgs), |imgs|, K)
  }

  ghost predicate ShuffleValid(shuffle: Shuffle) {
    forall h3, n :: IsPermutation(shuffle(h3, n), n)
  }

  /** The unit ids that occur in the panoid table. */
  function UnitIds(ps: seq<PanoRecord>): set<string> {
    set p | p in ps :: p.h3
  }

  /** `panoids_gdf['h3'].unique()` followed by `sort()`: every unit id of the
      table exactly once, in ascending order. */
  function SortedUnits(ps: seq<PanoRecord>): (units: seq<string>)
    ensures Lex.StrictlySorted(units)
    ensures forall u :: u in units <==> u in UnitIds(ps)
    decreases |ps|
  {
    if ps == [] then []
    else
      var init := ps[..|ps| - 1];
      assert ps == init + [ps[|ps| - 1]];
      assert UnitIds(ps) == UnitIds(init) + {ps[|ps| - 1].h3};
      Lex.Insert(SortedUnits(init), ps[|ps| - 1].h3)
  }

  /** The paths of one image row: `slv_path` and `new_path`, each of which
      reads back as the row. */
  function CandidateOf(cfg: Config, h3: string, row: ImageRow): (c: Candidate)
    ensures ImageOf(MunicipalityFolder(cfg), c.slvPath) == Some(row.im)
    ensures ParseNewPath(DestinationImagesFolder(cfg), h3, c.newPath) == Some((row.panoid, row.side))
  {
    SlvPathRoundTrip(MunicipalityFolder(cfg), row.im);
    NewPathRoundTrip(DestinationImagesFolder(cfg), h3, row.panoid, row.side);
    Candidate(SlvPath(MunicipalityFolder(cfg), row.im), NewPath(DestinationImagesFolder(cfg), h3, row.panoid, row.side))
  }

  /** The unit's candidates, one per image row, in row order. */
  function UnitCandidates(cfg: Config, h3: string, ps: seq<PanoRecord>): (cs: seq<Candidate>)
    ensures |cs| == 4 * |InUnit(h3, ps)|
  {
    CandidatesOf(cfg, h3, ImagesFromUnit(h3, ps))
  }

  /** The two `apply` calls that add the path columns, row by row. */
  function CandidatesOf(cfg: Config, h3: string, rows: seq<ImageRow>): (cs: seq<Candidate>)
    ensures |cs| == |rows|
    decreases |rows|
  {
    if rows == [] then [] else [CandidateOf(cfg, h3, rows[0])] + CandidatesOf(cfg, h3, rows[1..])
  }

  /** `CandidatesOf` maps `CandidateOf` over the rows. */
  lemma {:induction false} CandidatesOfAt(cfg: Config, h3: string, rows: seq<ImageRow>)
    ensures |CandidatesOf(cfg, h3, rows)| == |rows|
    ensures forall j :: 0 <= j < |rows| ==> CandidatesOf(cfg, h3, rows)[j] == CandidateOf(cfg, h3, rows[j])
    decreases |rows|
  {
    if rows != [] {
      CandidatesOfAt(cfg, h3, rows[1..]);
    }
  }

  /** Every candidate's paths read back as its row: the source path names the
      row's image, the destination path names the row's unit, panoid and side. */
  lemma UnitCandidatesRoundTrip(cfg: Config, h3: string, ps: seq<PanoRecord>, j: nat)
    requires j < |ImagesFromUnit(h3, ps)|
    ensures |UnitCandidates(cfg, h3, ps)| == |ImagesFromUnit(h3, ps)|
    ensures var c, row := UnitCandidates(cfg, h3, ps)[j], ImagesFromUnit(h3, ps)[j];
      && ImageOf(MunicipalityFolder(cfg), c.slvPath) == Some(row.im)
      && ParseNewPath(DestinationImagesFolder(cfg), h3, c.newPath) == Some((row.panoid, row.side))
      && ('/' !in h3 ==> UnitOf(DestinationImagesFolder(cfg), c.newPath) == Some(h3))
  {
    var row := ImagesFromUnit(h3, ps)[j];
    CandidatesOfAt(cfg, h3, ImagesFromUnit(h3, ps));
    SlvPathRoundTrip(MunicipalityFolder(cfg), row.im);
    NewPathRoundTrip(DestinationImagesFolder(cfg), h3, row.panoid, row.side);
    if '/' !in h3 {
      UnitOfNewPath(DestinationImagesFolder(cfg), h3, row.panoid, row.side);
    }
  }

  /** With unique panoids among the unit's records, no two candidates of the
      unit share a destination. */
  lemma UnitCandidatesDistinct(cfg: Config, h3: string, ps: seq<PanoRecord>)
    requires DistinctPanoids(InUnit(h3, ps))
    ensures DistinctNewPaths(UnitCandidates(cfg, h3, ps))
  {
    var rows := ImagesFromUnit(h3, ps);
    var cs := UnitCandidates(cfg, h3, ps);
    ImagesFromUnitDistinct(h3, ps);
    CandidatesOfAt(cfg, h3, rows);
    forall i, j | 0 <= i < j < |cs| ensures cs[i].newPath != cs[j].newPath {
      if cs[i].newPath == cs[j].newPath {
        NewPathInjective(DestinationImagesFolder(cfg), h3, rows[i].panoid, rows[i].side, rows[j].panoid, rows[j].side);
      }
    }
  }

  /** What one unit adds to the result list: nothing when fewer than
      MinImages candidates survive, else its representatives. */
  function Batch(cfg: Config, ps: seq<PanoRecord>, probe: Prober, assign: Clustering, shuffle: Shuffle, h3: string)
    : (r: Option<seq<Sample>>)
    requires ClusteringValid(assign) && ShuffleValid(shuffle)
    ensures r.Some? ==> |r.value| <= K
  {
    var surv := Survivors(probe, UnitCandidates(cfg, h3, ps));
    if |surv| < MinImages then None
    else
      var imgs := SlvPaths(surv);
      Some(Select(imgs, NewPaths(surv), h3, assign(h3, imgs), shuffle(h3, |imgs|), K))
  }

  /** The per-unit step of this run. */
  function StepOf(cfg: Config, ps: seq<PanoRecord>, probe: Prober, assign: Clustering, shuffle: Shuffle): (step: Step)
    requires ClusteringValid(assign) && ShuffleValid(shuffle)
    ensures forall u :: step(u).Some? ==> |step(u).value| <= K
  {
    h3 => Batch(cfg, ps, probe, assign, shuffle, h3)
  }

  /** The step's value for a unit, read off the unit's size-filtered columns:
      nothing below MinImages, otherwise the representatives of the columns. */
  lemma StepFromColumns(cfg: Config, ps: seq<PanoRecord>, probe: Prober, assign: Clustering, shuffle: Shuffle,
                        h3: string, imgs: seq<string>, newPaths: seq<string>)
    requires ClusteringValid(assign) && ShuffleValid(shuffle)
    requires imgs == SlvPaths(Survivors(probe, UnitCandidates(cfg, h3, ps)))
    requires newPaths == NewPaths(Survivors(probe, UnitCandidates(cfg, h3, ps)))
    ensures |imgs| < MinImages ==> StepOf(cfg, ps, probe, assign, shuffle)(h3) == None
    ensures |imgs| >= MinImages ==>
      StepOf(cfg, ps, probe, assign, shuffle)(h3) == Some(Select(imgs, newPaths, h3, assign(h3, imgs), shuffle(h3, |imgs|), K))
  {
  }

  /** The loop over the sorted units: build the unit's candidates, filter them
      by size, skip the unit when fewer than MinImages survive, otherwise
      cluster, shuffle, keep the first row per cluster and append the batch. */
  method Run(cfg: Config, ps: seq<PanoRecord>, probe: Prober, assign: Clustering, shuffle: Shuffle)
    returns (allH3s: seq<seq<Sample>>)
    requires ClusteringValid(assign) && ShuffleValid(shuffle)
    ensures allH3s == RunSpec(StepOf(cfg, ps, probe, assign, shuffle), SortedUnits(ps))
  {
    var units := SortedUnits(ps);
    ghost var step := StepOf(cfg, ps, probe, assign, shuffle);
    allH3s := [];
    for i := 0 to |units|
      invariant allH3s == RunSpec(step, units[..i])
    {
      var h3 := units[i];
      assert units[..i + 1][..i] == units[..i];
      var cands := UnitCandidates(cfg, h3, ps);
      var imgs, newPaths := FilterBySize(probe, cands);
      StepFromColumns(cfg, ps, probe, assign, shuffle, h3, imgs, newPaths);
      if |imgs| < MinImages {
        continue;
      }
      var labels := assign(h3, imgs);
      var perm := shuffle(h3, |imgs|);
      var df := Select(imgs, newPaths, h3, labels, perm, K);
      allH3s := allH3s + [df];
    }
    assert units[..|units|] == units;
  }

  /** A unit that keeps fewer than MinImages images adds nothing, and its
      result does not depend on the clustering or the shuffle: it is never
      embedded or clustered. */
  lemma SkippedUnit(cfg: Config, ps: seq<PanoRecord>, probe: Prober, assign: Clustering, shuffle: Shuffle,
                    assign': Clustering, shuffle': Shuffle, units: seq<string>, h3: string)
    requires ClusteringValid(assign) && ShuffleValid(shuffle)
    requires ClusteringValid(assign') && ShuffleValid(shuffle')
    requires |Survivors(probe, UnitCandidates(cfg, h3, ps))| < MinImages
    ensures Batch(cfg, ps, probe, assign, shuffle, h3) == Batch(cfg, ps, probe, assign', shuffle', h3) == None
    ensures RunSpec(StepOf(cfg, ps, probe, assign, shuffle), units + [h3]) == RunSpec(StepOf(cfg, ps, probe, assign, shuffle), units)
  {
    assert (units + [h3])[..|units|] == units;
  }

  /** What a processed unit contributes: it had at least MinImages = K
      survivors (so k never exceeds the number of points clustered), and its
      rows are between 1 and K of its own surviving candidates, tagged with
      the unit, in strictly ascending cluster id below K. */
  lemma BatchFacts(cfg: Config, ps: seq<PanoRecord>, probe: Prober, assign: Clustering, shuffle: Shuffle, h3: string)
    requires ClusteringValid(assign) && ShuffleValid(shuffle)
    ensures var surv := Survivors(probe, UnitCandidates(cfg, h3, ps));
      Batch(cfg, ps, probe, assign, shuffle, h3).None? <==> |surv| < MinImages
    ensures var surv := Survivors(probe, UnitCandidates(cfg, h3, ps));
      var batch := Batch(cfg, ps, probe, assign, shuffle, h3);
      batch.Some? ==>
        && K <= |surv|
        && 0 < |batch.value| <= K
        && |batch.value| <= |surv|
        && (forall j1, j2 :: 0 <= j1 < j2 < |batch.value| ==> batch.value[j1].kmeans < batch.value[j2].kmeans)
        && (forall j :: 0 <= j < |batch.value| ==>
              && batch.value[j].h3 == h3
              && batch.value[j].kmeans < K
              && Candidate(batch.value[j].slvPath, batch.value[j].imagePath) in surv)
  {
    var surv := Survivors(probe, UnitCandidates(cfg, h3, ps));
    if |surv| >= MinImages {
      var imgs, newPaths := SlvPaths(surv), NewPaths(surv);
      var labels, perm := assign(h3, imgs), shuffle(h3, |imgs|);
      var sel := Select(imgs, newPaths, h3, labels, perm, K);
      ColumnsAt(surv);
      SelectSpec(imgs, newPaths, h3, labels, perm, K);
      SelectAtMostN(imgs, newPaths, h3, labels, perm, K);
      SelectFromTable(imgs, newPaths, h3, labels, perm, K);
      assert Covers(sel, labels[0]);
      forall j | 0 <= j < |sel|
        ensures sel[j].kmeans < K && Candidate(sel[j].slvPath, sel[j].imagePath) in surv
      {
        var i :| 0 <= i < |imgs| && sel[j] == RowAt(imgs, newPaths, labels, h3, i);
        assert Candidate(sel[j].slvPath, sel[j].imagePath) == surv[i];
      }
    }
  }

  /** A processed unit adds a non-empty batch whose rows all carry the unit's id. */
  lemma BatchOfUnit(cfg: Config, ps: seq<PanoRecord>, probe: Prober, assign: Clustering, shuffle: Shuffle, h3: string)
    requires ClusteringValid(assign) && ShuffleValid(shuffle)
    ensures Batch(cfg, ps, probe, assign, shuffle, h3).Some? ==>
      OneUnit(Batch(cfg, ps, probe, assign, shuffle, h3).value) && Batch(cfg, ps, probe, assign, shuffle, h3).value[0].h3 == h3
  {
    BatchFacts(cfg, ps, probe, assign, shuffle, h3);
  }

  /** With unique panoids in the unit and a unit id without '/', a processed unit's batch
      is well placed: its rows carry the unit, lie in the unit's folder and
      have pairwise distinct destination paths. */
  lemma BatchPaths(cfg: Config, ps: seq<PanoRecord>, probe: Prober, assign: Clustering, shuffle: Shuffle, h3: string)
    requires ClusteringValid(assign) && ShuffleValid(shuffle)
    requires DistinctPanoids(InUnit(h3, ps)) && '/' !in h3
    ensures Batch(cfg, ps, probe, assign, shuffle, h3).Some? ==>
      && WellPlaced(DestinationImagesFolder(cfg), Batch(cfg, ps, probe, assign, shuffle, h3).value)
      && Batch(cfg, ps, probe, assign, shuffle, h3).value[0].h3 == h3
  {
    var surv := Survivors(probe, UnitCandidates(cfg, h3, ps));
    if |surv| >= MinImages {
      var imgs, newPaths := SlvPaths(surv), NewPaths(surv);
      var sel := Select(imgs, newPaths, h3, assign(h3, imgs), shuffle(h3, |imgs|), K);
      assert Batch(cfg, ps, probe, assign, shuffle, h3) == Some(sel);
      BatchFacts(cfg, ps, probe, assign, shuffle, h3);
      SurvivorsInUnitFolder(cfg, ps, probe, h3);
      SurvivorColumnsDistinct(cfg, ps, probe, h3);
      SelectFromTable(imgs, newPaths, h3, assign(h3, imgs), shuffle(h3, |imgs|), K);
    }
  }

  /** Every surviving candidate of a unit whose id has no '/' is copied into
      that unit's folder. */
  lemma SurvivorsInUnitFolder(cfg: Config, ps: seq<PanoRecord>, probe: Prober, h3: string)
    requires '/' !in h3
    ensures forall c :: c in Survivors(probe, UnitCandidates(cfg, h3, ps)) ==>
      UnitOf(DestinationImagesFolder(cfg), c.newPath) == Some(h3)
  {
    var cs := UnitCandidates(cfg, h3, ps);
    SurvivorsMembers(probe, cs);
    forall c | c in Survivors(probe, cs) ensures UnitOf(DestinationImagesFolder(cfg), c.newPath) == Some(h3) {
      var idx :| 0 <= idx < |cs| && cs[idx] == c;
      UnitCandidatesRoundTrip(cfg, h3, ps, idx);
    }
  }

  /** With unique panoids in the unit, the `new_paths` column left by the size
      filter has no entry twice. */
  lemma SurvivorColumnsDistinct(cfg: Config, ps: seq<PanoRecord>, probe: Prober, h3: string)
    requires DistinctPanoids(InUnit(h3, ps))
    ensures forall i1, i2 :: 0 <= i1 < i2 < |NewPaths(Survivors(probe, UnitCandidates(cfg, h3, ps)))| ==>
      NewPaths(Survivors(probe, UnitCandidates(cfg, h3, ps)))[i1] != NewPaths(Survivors(probe, UnitCandidates(cfg, h3, ps)))[i2]
  {
    var cs := UnitCandidates(cfg, h3, ps);
    UnitCandidatesDistinct(cfg, h3, ps);
    SurvivorsDistinct(probe, cs);
    ColumnsAt(Survivors(probe, cs));
  }

  /** Every batch of this run's step is non-empty and tagged with its unit. */
  lemma StepTags(cfg: Config, ps: seq<PanoRecord>, probe: Prober, assign: Clustering, shuffle: Shuffle)
    requires ClusteringValid(assign) && ShuffleValid(shuffle)
    ensures TagsUnit(StepOf(cfg, ps, probe, assign, shuffle))
  {
    forall u | Batch(cfg, ps, probe, assign, shuffle, u).Some?
      ensures OneUnit(Batch(cfg, ps, probe, assign, shuffle, u).value)
      ensures Batch(cfg, ps, probe, assign, shuffle, u).value[0].h3 == u
    {
      BatchOfUnit(cfg, ps, probe, assign, shuffle, u);
    }
  }

  /** For the whole run, given unique panoids within each unit and unit ids
      without '/': every saved row belongs to a unit of the table and lies in
      that unit's folder, and no two saved rows share a destination file. */
  lemma RunPathsUnique(cfg: Config, ps: seq<PanoRecord>, probe: Prober, assign: Clustering, shuffle: Shuffle)
    requires ClusteringValid(assign) && ShuffleValid(shuffle)
    requires forall u :: u in UnitIds(ps) ==> DistinctPanoids(InUnit(u, ps))
    requires forall p :: p in ps ==> '/' !in p.h3
    ensures var table := Snapshot(RunSpec(StepOf(cfg, ps, probe, assign, shuffle), SortedUnits(ps)));
      forall i :: 0 <= i < |table| ==> table[i].h3 in UnitIds(ps)
    ensures InOwnFolder(DestinationImagesFolder(cfg), Snapshot(RunSpec(StepOf(cfg, ps, probe, assign, shuffle), SortedUnits(ps))))
    ensures DistinctDestinations(Snapshot(RunSpec(StepOf(cfg, ps, probe, assign, shuffle), SortedUnits(ps))))
  {
    var units := SortedUnits(ps);
    var step := StepOf(cfg, ps, probe, assign, shuffle);
    StepTags(cfg, ps, probe, assign, shuffle);
    forall u | u in units && step(u).Some? ensures WellPlaced(DestinationImagesFolder(cfg), step(u).value) {
      assert u in UnitIds(ps);
      BatchPaths(cfg, ps, probe, assign, shuffle, u);
    }
    TablePlaced(DestinationImagesFolder(cfg), step, units);
  }
}
