/**
 * The result list `all_h3s` of 1_units_definition/img_summarizer_application.py
 * and the table saved from it: units are visited in order, each adds at most
 * one batch of rows, and after each added batch the concatenation of all
 * batches so far is written out.  Here the per-unit work is a parameter, so
 * these facts hold whatever a unit produces.
 */
module RunLog {
  import opened Wrappers
  import Lex
  import opened Paths
  import opened Representatives

  /** What visiting one unit adds to the result list: nothing, or one batch. */
  type Step = string -> Option<seq<Sample>>

  /** The result list after visiting `units` in order. */
  function RunSpec(step: Step, units: seq<string>): (all: seq<seq<Sample>>)
    ensures |all| <= |units|
    decreases |units|
  {
    if units == [] then []
    else
      var prev := RunSpec(step, units[..|units| - 1]);
      match step(units[|units| - 1])
      case None => prev
      case Some(b) => prev + [b]
  }

  /** `pd.concat(all_h3s)`: the table written after each processed unit. */
  function Snapshot(all: seq<seq<Sample>>): (rows: seq<Sample>)
    ensures |rows| == 0 <==> forall t :: 0 <= t < |all| ==> all[t] == []
    decreases |all|
  {
    if all == [] then [] else Snapshot(all[..|all| - 1]) + all[|all| - 1]
  }

  /** The result list only grows: the list after the first i units is a
      prefix of the list after the first j units. */
  lemma {:induction false} RunSpecGrows(step: Step, units: seq<string>, i: nat, j: nat)
    requires i <= j <= |units|
    ensures RunSpec(step, units[..i]) <= RunSpec(step, units[..j])
    decreases j - i
  {
    if i < j {
      RunSpecGrows(step, units, i, j - 1);
      assert units[..j][..j - 1] == units[..j - 1];
    }
  }

  /** A prefix of the batch list gives a prefix of the concatenated table. */
  lemma {:induction false} SnapshotPrefix(all: seq<seq<Sample>>, t: nat)
    requires t <= |all|
    ensures Snapshot(all[..t]) <= Snapshot(all)
    decreases |all| - t
  {
    if t < |all| {
      SnapshotPrefix(all, t + 1);
      assert all[..t + 1][..t] == all[..t];
    } else {
      assert all[..t] == all;
    }
  }

  /** Every checkpoint written is a prefix of every later one: a unit's rows,
      once saved, are never changed or dropped. */
  lemma CheckpointsGrow(step: Step, units: seq<string>, i: nat, j: nat)
    requires i <= j <= |units|
    ensures Snapshot(RunSpec(step, units[..i])) <= Snapshot(RunSpec(step, units[..j]))
  {
    var early := RunSpec(step, units[..i]);
    var late := RunSpec(step, units[..j]);
    RunSpecGrows(step, units, i, j);
    assert late[..|early|] == early;
    SnapshotPrefix(late, |early|);
  }

  /** A non-empty batch whose rows all carry the same unit. */
  predicate OneUnit(b: seq<Sample>) {
    |b| > 0 && forall j :: 0 <= j < |b| ==> b[j].h3 == b[0].h3
  }

  /** Every batch the step adds is non-empty and tagged with its own unit. */
  ghost predicate TagsUnit(step: Step) {
    forall u :: step(u).Some? ==> OneUnit(step(u).value) && step(u).value[0].h3 == u
  }

  /** The unit ids whose batches appear in a batch list. */
  function BatchUnits(all: seq<seq<Sample>>): set<string> {
    set b: seq<Sample> | b in all && |b| > 0 :: b[0].h3
  }

  /** The units of consecutive batches ascend strictly. */
  predicate UnitsAscending(all: seq<seq<Sample>>) {
    forall t1, t2 :: 0 <= t1 < t2 < |all| ==>
      |all[t1]| > 0 && |all[t2]| > 0 && Lex.Less(all[t1][0].h3, all[t2][0].h3)
  }

  /** Every row is stored in the folder of its own unit. */
  predicate InOwnFolder(dest: string, rows: seq<Sample>) {
    forall i :: 0 <= i < |rows| ==> UnitOf(dest, rows[i].imagePath) == Some(rows[i].h3)
  }

  /** No two rows share a destination file. */
  predicate DistinctDestinations(rows: seq<Sample>) {
    forall i, j :: 0 <= i < j < |rows| ==> rows[i].imagePath != rows[j].imagePath
  }

  /** One unit's batch: non-empty, every row tagged with the unit, stored in
      its own folder, no destination twice. */
  predicate WellPlaced(dest: string, b: seq<Sample>) {
    && OneUnit(b)
    && InOwnFolder(dest, b)
    && DistinctDestinations(b)
  }

  /** The result list holds only batches of visited units, each tagged with
      one unit. */
  lemma {:induction false} RunSpecUnits(step: Step, units: seq<string>)
    requires TagsUnit(step)
    ensures forall b: seq<Sample> :: b in RunSpec(step, units) ==> OneUnit(b) && b[0].h3 in units
    decreases |units|
  {
    if units != [] {
      var init := units[..|units| - 1];
      RunSpecUnits(step, init);
      assert forall x :: x in init ==> x in units;
    }
  }

  /** Each batch of the result list is exactly what the step produced for
      its unit. */
  lemma {:induction false} RunSpecBatchOf(step: Step, units: seq<string>)
    requires TagsUnit(step)
    ensures forall b: seq<Sample> :: b in RunSpec(step, units) && |b| > 0 ==> step(b[0].h3) == Some(b)
    decreases |units|
  {
    if units != [] {
      RunSpecBatchOf(step, units[..|units| - 1]);
    }
  }

  /** Every visited unit for which the step produces a batch has that batch
      in the result list: no processed unit is lost. */
  lemma {:induction false} RunSpecComplete(step: Step, units: seq<string>)
    ensures forall u :: u in units && step(u).Some? ==> step(u).value in RunSpec(step, units)
    decreases |units|
  {
    if units != [] {
      var init, u := units[..|units| - 1], units[|units| - 1];
      RunSpecComplete(step, init);
      assert units == init + [u];
    }
  }

  /** Appending a batch whose unit follows every unit already in the list
      keeps the units ascending. */
  lemma AppendAscending(prev: seq<seq<Sample>>, b: seq<Sample>)
    requires UnitsAscending(prev)
    requires |b| > 0
    requires forall t :: 0 <= t < |prev| ==> |prev[t]| > 0 && Lex.Less(prev[t][0].h3, b[0].h3)
    ensures UnitsAscending(prev + [b])
  {
    var all: seq<seq<Sample>> := prev + [b];
    forall t1, t2 | 0 <= t1 < t2 < |all|
      ensures |all[t1]| > 0 && |all[t2]| > 0 && Lex.Less(all[t1][0].h3, all[t2][0].h3)
    {
      assert all[t1] == prev[t1];
      if t2 < |prev| {
        assert all[t2] == prev[t2];
      }
    }
  }

  /** With ascending units, the batches appear in the order the units were
      visited, so no unit contributes twice. */
  lemma {:induction false} RunSpecOrdered(step: Step, units: seq<string>)
    requires TagsUnit(step)
    requires Lex.StrictlySorted(units)
    ensures UnitsAscending(RunSpec(step, units))
    decreases |units|
  {
    if units != [] {
      var init, u := units[..|units| - 1], units[|units| - 1];
      RunSpecOrdered(step, init);
      var prev: seq<seq<Sample>> := RunSpec(step, init);
      if step(u).Some? {
        RunSpecUnits(step, init);
        forall t | 0 <= t < |prev| ensures |prev[t]| > 0 && Lex.Less(prev[t][0].h3, u) {
          assert prev[t] in prev;
          var idx :| 0 <= idx < |init| && init[idx] == prev[t][0].h3;
          assert units[idx] == init[idx];
        }
        AppendAscending(prev, step(u).value);
      }
    }
  }

  /** Every row of the concatenated table comes from one of the batches' units. */
  lemma {:induction false} SnapshotUnits(all: seq<seq<Sample>>)
    requires forall b: seq<Sample> :: b in all ==> OneUnit(b)
    ensures forall i :: 0 <= i < |Snapshot(all)| ==> Snapshot(all)[i].h3 in BatchUnits(all)
    decreases |all|
  {
    if all != [] {
      var init: seq<seq<Sample>>, last: seq<Sample> := all[..|all| - 1], all[|all| - 1];
      assert forall b: seq<Sample> :: b in init ==> b in all;
      SnapshotUnits(init);
      var prev, rows := Snapshot(init), Snapshot(all);
      assert rows == prev + last;
      assert last in all;
      assert BatchUnits(init) <= BatchUnits(all);
      forall i | 0 <= i < |rows| ensures rows[i].h3 in BatchUnits(all) {
        if i >= |prev| {
          assert rows[i] == last[i - |prev|];
        } else {
          assert rows[i] == prev[i];
        }
      }
    }
  }

  /** Appending a well-placed batch of a unit no earlier row has keeps every
      row in its own folder and every destination distinct. */
  lemma AppendBatch(dest: string, prev: seq<Sample>, last: seq<Sample>)
    requires InOwnFolder(dest, prev) && DistinctDestinations(prev)
    requires WellPlaced(dest, last)
    requires forall i :: 0 <= i < |prev| ==> prev[i].h3 != last[0].h3
    ensures InOwnFolder(dest, prev + last) && DistinctDestinations(prev + last)
  {
    var rows := prev + last;
    forall i | 0 <= i < |rows| ensures UnitOf(dest, rows[i].imagePath) == Some(rows[i].h3) {
      if i >= |prev| {
        assert rows[i] == last[i - |prev|];
      } else {
        assert rows[i] == prev[i];
      }
    }
    forall i, j | 0 <= i < j < |rows| ensures rows[i].imagePath != rows[j].imagePath {
      if j < |prev| {
        assert rows[i] == prev[i] && rows[j] == prev[j];
      } else {
        assert rows[j] == last[j - |prev|];
        if i >= |prev| {
          assert rows[i] == last[i - |prev|];
        } else {
          assert rows[i] == prev[i];
        }
      }
    }
  }

  /** Concatenating well-placed batches of pairwise different units gives a
      table whose rows are each stored in their own unit's folder, with no
      destination twice. */
  lemma {:induction false} SnapshotDistinct(dest: string, all: seq<seq<Sample>>)
    requires forall b: seq<Sample> :: b in all ==> WellPlaced(dest, b)
    requires forall t1, t2 :: 0 <= t1 < t2 < |all| && |all[t1]| > 0 && |all[t2]| > 0 ==> all[t1][0].h3 != all[t2][0].h3
    ensures InOwnFolder(dest, Snapshot(all))
    ensures DistinctDestinations(Snapshot(all))
    decreases |all|
  {
    if all != [] {
      var init: seq<seq<Sample>>, last: seq<Sample> := all[..|all| - 1], all[|all| - 1];
      assert forall b: seq<Sample> :: b in init ==> b in all;
      forall t1, t2 | 0 <= t1 < t2 < |init| && |init[t1]| > 0 && |init[t2]| > 0
        ensures init[t1][0].h3 != init[t2][0].h3
      {
        assert init[t1] == all[t1] && init[t2] == all[t2];
      }
      SnapshotDistinct(dest, init);
      SnapshotUnits(init);
      var prev := Snapshot(init);
      assert last in all;
      forall i | 0 <= i < |prev| ensures prev[i].h3 != last[0].h3 {
        var b: seq<Sample> :| b in init && |b| > 0 && b[0].h3 == prev[i].h3;
        var t :| 0 <= t < |init| && init[t] == b;
        assert all[t] == b;
      }
      AppendBatch(dest, prev, last);
    }
  }

  /** With a step that tags and well-places its batches and strictly
      ascending units, the saved table's rows all belong to visited units, each
      lies in its own unit's folder, and no two share a destination file. */
  lemma TablePlaced(dest: string, step: Step, units: seq<string>)
    requires TagsUnit(step)
    requires forall u :: u in units && step(u).Some? ==> WellPlaced(dest, step(u).value)
    requires Lex.StrictlySorted(units)
    ensures forall i :: 0 <= i < |Snapshot(RunSpec(step, units))| ==> Snapshot(RunSpec(step, units))[i].h3 in units
    ensures InOwnFolder(dest, Snapshot(RunSpec(step, units)))
    ensures DistinctDestinations(Snapshot(RunSpec(step, units)))
  {
    var all: seq<seq<Sample>> := RunSpec(step, units);
    RunSpecUnits(step, units);
    RunSpecBatchOf(step, units);
    RunSpecOrdered(step, units);
    forall b: seq<Sample> | b in all ensures WellPlaced(dest, b) {
      assert step(b[0].h3) == Some(b);
    }
    forall t1, t2 | 0 <= t1 < t2 < |all| && |all[t1]| > 0 && |all[t2]| > 0
      ensures all[t1][0].h3 != all[t2][0].h3
    {
      Lex.LessIrreflexive(all[t1][0].h3);
    }
    SnapshotDistinct(dest, all);
    SnapshotUnits(all);
    assert BatchUnits(all) <= set u | u in units;
  }
}
