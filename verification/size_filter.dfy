/**
 * The size filter of 1_units_definition/img_summarizer_application.py: each
 * candidate image's size is probed up to five times, and the image is kept
 * only when a probe succeeds with more than 60 KB.
 */
module SizeFilter {
  import opened Wrappers

  /** What one call of the size probe gives: an OSError or the size in bytes. */
  datatype Probe = OSError | Size(bytes: nat)

  /** The filesystem as seen by the filter: the outcome of probing a file for
      the given (zero-based) time. */
  type Prober = (string, nat) -> Probe

  /** `max_attempts` */
  const MaxAttempts: nat := 5

  /** The smallest size, in KB, that is still dropped. */
  const MinKB: nat := 60

  /** `img_kb > 60` with `img_kb = size / 1024` (true division). In bytes the
      threshold is strict: 61440 bytes (exactly 60 KB) is dropped. */
  predicate LargeEnough(bytes: nat)
    ensures LargeEnough(bytes) <==> bytes > 61440
  {
    (bytes as real) / 1024.0 > MinKB as real
  }

  /** A source path and the destination path that goes with it. */
  datatype Candidate = Candidate(slvPath: string, newPath: string)

  /** The first attempt, from `from` on and before the budget runs out, whose
      probe succeeds. */
  function FirstSuccess(probe: Prober, file: string, from: nat): (a: Option<nat>)
    requires from <= MaxAttempts
    ensures a.Some? ==> from <= a.value < MaxAttempts && probe(file, a.value).Size?
    ensures a.Some? ==> forall b :: from <= b < a.value ==> probe(file, b).OSError?
    ensures a.None? ==> forall b :: from <= b < MaxAttempts ==> probe(file, b).OSError?
    decreases MaxAttempts - from
  {
    if from == MaxAttempts then None
    else if probe(file, from).Size? then Some(from)
    else FirstSuccess(probe, file, from + 1)
  }

  /** Whether the filter keeps a file: its first successful probe reports more
      than 60 KB. A file whose probes all fail is never kept. */
  predicate Kept(probe: Prober, file: string)
    ensures Kept(probe, file) <==> exists a: nat :: SucceedsFirst(probe, file, a) && LargeEnough(probe(file, a).bytes)
  {
    var a := FirstSuccess(probe, file, 0);
    a.Some? && LargeEnough(probe(file, a.value).bytes)
  }

  /** Attempt a is below the budget, its probe succeeds, and every earlier one failed. */
  predicate SucceedsFirst(probe: Prober, file: string, a: nat) {
    a < MaxAttempts && probe(file, a).Size? && forall b :: 0 <= b < a ==> probe(file, b).OSError?
  }

  /** The retry loop for one file. `attempt` ends as the index of the probe
      that succeeded, or as MaxAttempts when all of them failed; the file is
      probed for attempts 0 to `attempt` and never again after a success. */
  method ProbeSize(probe: Prober, file: string) returns (kept: bool, attempt: nat)
    ensures attempt <= MaxAttempts
    ensures forall b :: 0 <= b < attempt ==> probe(file, b).OSError?
    ensures attempt < MaxAttempts ==> probe(file, attempt).Size?
    ensures kept <==> attempt < MaxAttempts && LargeEnough(probe(file, attempt).bytes)
    ensures kept == Kept(probe, file)
  {
    attempt, kept := 0, false;
    while attempt < MaxAttempts
      invariant attempt <= MaxAttempts
      invariant forall b :: 0 <= b < attempt ==> probe(file, b).OSError?
      invariant !kept
    {
      match probe(file, attempt)
      case Size(bytes) =>
        kept := LargeEnough(bytes);
        break;
      case OSError =>
        attempt := attempt + 1;
    }
  }

  /** The candidates that the filter keeps, in candidate order. */
  function Survivors(probe: Prober, cs: seq<Candidate>): (ks: seq<Candidate>)
    ensures |ks| <= |cs|
    decreases |cs|
  {
    if cs == [] then []
    else
      var ks := Survivors(probe, cs[..|cs| - 1]);
      if Kept(probe, cs[|cs| - 1].slvPath) then ks + [cs[|cs| - 1]] else ks
  }

  /** The survivors are exactly the candidates whose file is kept, and no more
      of them than candidates. */
  lemma {:induction false} SurvivorsMembers(probe: Prober, cs: seq<Candidate>)
    ensures |Survivors(probe, cs)| <= |cs|
    ensures forall c :: c in Survivors(probe, cs) <==> c in cs && Kept(probe, c.slvPath)
    decreases |cs|
  {
    if cs != [] {
      SurvivorsMembers(probe, cs[..|cs| - 1]);
      assert cs == cs[..|cs| - 1] + [cs[|cs| - 1]];
    }
  }

  /** Filtering distributes over splitting the candidate list, so survivors
      keep their relative order. */
  lemma {:induction false} SurvivorsAppend(probe: Prober, a: seq<Candidate>, b: seq<Candidate>)
    ensures Survivors(probe, a + b) == Survivors(probe, a) + Survivors(probe, b)
    decreases |b|
  {
    if b == [] {
      assert a + b == a;
    } else {
      assert (a + b)[..|a + b| - 1] == a + b[..|b| - 1];
      SurvivorsAppend(probe, a, b[..|b| - 1]);
    }
  }

  /** The `imgs` column of a candidate list. */
  function SlvPaths(cs: seq<Candidate>): (col: seq<string>)
    ensures |col| == |cs|
    decreases |cs|
  {
    if cs == [] then [] else SlvPaths(cs[..|cs| - 1]) + [cs[|cs| - 1].slvPath]
  }

  /** The `new_paths` column of a candidate list. */
  function NewPaths(cs: seq<Candidate>): (col: seq<string>)
    ensures |col| == |cs|
    decreases |cs|
  {
    if cs == [] then [] else NewPaths(cs[..|cs| - 1]) + [cs[|cs| - 1].newPath]
  }

  /** Row j of the two columns is candidate j. */
  lemma {:induction false} ColumnsAt(cs: seq<Candidate>)
    ensures forall j :: 0 <= j < |cs| ==> Candidate(SlvPaths(cs)[j], NewPaths(cs)[j]) == cs[j]
    decreases |cs|
  {
    if cs != [] {
      ColumnsAt(cs[..|cs| - 1]);
    }
  }

  predicate DistinctNewPaths(cs: seq<Candidate>) {
    forall i, j :: 0 <= i < j < |cs| ==> cs[i].newPath != cs[j].newPath
  }

  /** Dropping candidates cannot make two destinations collide. */
  lemma {:induction false} SurvivorsDistinct(probe: Prober, cs: seq<Candidate>)
    requires DistinctNewPaths(cs)
    ensures DistinctNewPaths(Survivors(probe, cs))
    decreases |cs|
  {
    if cs != [] {
      var init := cs[..|cs| - 1];
      SurvivorsDistinct(probe, init);
      SurvivorsMembers(probe, init);
      assert forall c :: c in Survivors(probe, init) ==> c.newPath != cs[|cs| - 1].newPath;
    }
  }

  /** The loop that fills `imgs` and `new_paths`: both lists grow together, so
      they stay the same length and aligned, each pair a surviving candidate in
      candidate order. */
  method FilterBySize(probe: Prober, cs: seq<Candidate>) returns (imgs: seq<string>, newPaths: seq<string>)
    ensures imgs == SlvPaths(Survivors(probe, cs)) && newPaths == NewPaths(Survivors(probe, cs))
    ensures |imgs| == |newPaths| == |Survivors(probe, cs)|
    ensures forall j :: 0 <= j < |imgs| ==> Candidate(imgs[j], newPaths[j]) == Survivors(probe, cs)[j]
  {
    imgs, newPaths := [], [];
    for i := 0 to |cs|
      invariant imgs == SlvPaths(Survivors(probe, cs[..i]))
      invariant newPaths == NewPaths(Survivors(probe, cs[..i]))
    {
      assert cs[..i + 1][..i] == cs[..i];
      var kept, attempt := ProbeSize(probe, cs[i].slvPath);
      if kept {
        ghost var prev := Survivors(probe, cs[..i]);
        assert Survivors(probe, cs[..i + 1]) == prev + [cs[i]];
        assert (prev + [cs[i]])[..|prev|] == prev;
        imgs := imgs + [cs[i].slvPath];
        newPaths := newPaths + [cs[i].newPath];
      }
    }
    assert cs[..|cs|] == cs;
    ColumnsAt(Survivors(probe, cs));
  }
}
