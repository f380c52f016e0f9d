# Street-level image sampling per spatial unit

This project models, in Dafny, how urban-embeddings picks representative
street-level images for each H3 spatial unit of a municipality and builds the
per-unit result table.

- **Fan-out of a unit's panoramas** (`get_images_from_h3`). The records of one
  unit are selected from the panoid table. Each record becomes four image rows:
  all front images first, then side a, back and side b. They are tagged `f`,
  `a`, `r` and `b`.
- **Paths.** Each row gets a source path (`slv_path`) under the municipality's
  image folder. It also gets a destination path (`new_path`) of the form
  `{dest}/{h3}/PANO_{panoid}_{side}.png`.
- **Size filter.** Each source file's size is probed up to five times. An
  OSError costs one attempt. The first successful probe decides: the image is
  kept when it is over 60 KB.
- **Skip rule.** A unit with fewer than five kept images is skipped.
- **Representatives.** For a processed unit, the kept images are clustered into
  k = 5 clusters and shuffled. The first image of each cluster in shuffled order
  is kept (`df.sample(len(df)).groupby(['kmeans']).first()`).
- **Driver.** The units are visited in ascending order of their id. Each
  processed unit appends its batch to the result list. After every append, the
  concatenation of all batches is saved.

The modules follow that structure:

| module | file | models |
|---|---|---|
| `Tools` | `tools.dfy` | `get_images_from_h3` (pure) |
| `Paths` | `paths.dfy` | the folder and file-name formats, with parsers that read them back |
| `SizeFilter` | `size_filter.dfy` | the retry loop and the filter loop (methods), specified by functions |
| `Representatives` | `representatives.dfy` | the shuffle-then-first-per-cluster selection |
| `RunLog` | `run_log.dfy` | the result list and the saved table, for any per-unit step |
| `Summarizer` | `summarizer.dfy` | the unit step and the driver loop (a method proved against `RunLog.RunSpec`) |
| `Lex` | `lex.dfy` | string order and sorted insertion, for `unique()` + `sort()` |
| `Wrappers` | `wrappers.dfy` | `Option` |

The world outside the program is passed in as function-valued parameters:

- the file system as seen by `os.path.getsize`: a `Prober`, giving a size or an
  OSError for each file and attempt number;
- the embedding + PCA + k-means pipeline: a `Clustering` that gives one cluster
  id below k per image;
- the unseeded `df.sample`: a `Shuffle`, a permutation of the row indices.

The properties hold for every such oracle that meets the stated validity
predicates.

## Model

| member | source | states |
|---|---|---|
| `Lex.Insert` | 1_units_definition/img_summarizer_application.py:54-55 | Inserting into a strictly ascending list of unit ids keeps it strictly ascending. It adds exactly the new id, and the length grows by one unless the id was already there. |
| `Lex.StrictlySortedDistinct` | 1_units_definition/img_summarizer_application.py:54 | A strictly ascending list of unit ids has no id twice, as `unique()` promises. |
| `Summarizer.SortedUnits` | 1_units_definition/img_summarizer_application.py:54-55 | `unique()` then `sort()`: the units are strictly ascending, and an id is listed iff some panoid record carries it. |
| `Tools.DirectionOf` | general_tools/tools.py:9-12 | Reading a side letter back gives the direction that carries that letter. |
| `Tools.SideTagRoundTrip` | general_tools/tools.py:9-12 | The side letters `f`, `a`, `r`, `b` identify their direction: tag, then read back, gives the same direction. |
| `Tools.InUnit` | general_tools/tools.py:4 | The unit filter never yields more records than the table has. Its contents are stated by `Tools.InUnitMembers`, `Tools.InUnitCount` and `Tools.InUnitAppend`. |
| `Tools.InUnitMembers` | general_tools/tools.py:4 | The unit filter keeps exactly the records whose `h3` is the unit, and no more than there are. |
| `Tools.InUnitCount` | general_tools/tools.py:4 | Each record of the unit is kept exactly as often as it occurs in the table. Records of other units occur zero times. |
| `Tools.InUnitAppend` | general_tools/tools.py:4 | Filtering distributes over concatenation, so kept records stay in table order. |
| `Tools.Project` | general_tools/tools.py:5-12 | One direction's renamed table has one row per record of the unit. Which row holds what is stated by `Tools.ImagesFromUnitLayout`. |
| `Tools.ImagesFromUnit` | general_tools/tools.py:3-15 | The unit yields exactly four image rows per record. |
| `Tools.ImagesFromUnitLayout` | general_tools/tools.py:5-13 | Rows j, m+j, 2m+j and 3m+j are record j's front, side a, back and side b images. They carry the record's panoid, the unit id and the tags `f`, `a`, `r`, `b`. |
| `Tools.ImagesFromUnitProvenance` | general_tools/tools.py:4-13 | Every output row carries one of the side letters `f`, `a`, `r`, `b` and is the image of one of the unit's own table records, in the direction that letter names. |
| `Tools.ImagesFromUnitKey` | general_tools/tools.py:5-13 | Any row position holds its block's direction tag and the panoid of the record at its index within the block. |
| `Tools.InUnitDistinct` | general_tools/tools.py:4 | If panoids are unique in the table, they stay unique among the unit's records. |
| `Tools.ImagesFromUnitDistinct` | general_tools/tools.py:5-13 | If panoids are unique among the unit's records, no two output rows share both panoid and side. |
| `Paths.SlvPath` | 1_units_definition/img_summarizer_application.py:63 | A source path lies directly under the municipality's image folder. `Paths.ImageOf` reads it back (`Paths.SlvPathRoundTrip`). |
| `Paths.NewPath` | 1_units_definition/img_summarizer_application.py:64 | A destination path is a `PANO_…` file in the unit's own folder and ends in `.png`. `Paths.ParseNewPath` reads it back (`Paths.NewPathRoundTrip`). |
| `Paths.ImageOf` | 1_units_definition/img_summarizer_application.py:63 | A parsed source path is exactly `{folder}/{im}` for the returned image name. |
| `Paths.SlvPathRoundTrip` | 1_units_definition/img_summarizer_application.py:63 | Parsing a built source path returns the image name it was built from. |
| `Paths.ParseNewPath` | 1_units_definition/img_summarizer_application.py:64 | A parsed destination path is exactly `{dest}/{h3}/PANO_{panoid}_{side}.png` for the returned panoid and side. |
| `Paths.NewPathRoundTrip` | 1_units_definition/img_summarizer_application.py:64 | Parsing a built destination path returns its panoid and side. |
| `Paths.NewPathInjective` | 1_units_definition/img_summarizer_application.py:64 | In one unit's folder, equal destination paths mean equal panoid and side. |
| `Paths.UnitOfNewPath` | 1_units_definition/img_summarizer_application.py:64 | A unit id without `/` is read back from every destination path built with it, so paths of different units never collide. |
| `SizeFilter.LargeEnough` | 1_units_definition/img_summarizer_application.py:75-76 | `size / 1024 > 60` holds exactly when the file has more than 61440 bytes. A file of exactly 60 KB is dropped. |
| `SizeFilter.FirstSuccess` | 1_units_definition/img_summarizer_application.py:71-83 | Returns the first attempt below five whose probe succeeds, with every earlier probe an OSError. It returns none when all five attempts fail. |
| `SizeFilter.Kept` | 1_units_definition/img_summarizer_application.py:73-79 | A file is kept iff some attempt below five succeeds after only OSErrors before it, and that probe reports more than 60 KB. |
| `SizeFilter.ProbeSize` | 1_units_definition/img_summarizer_application.py:71-83 | The retry loop stops at the first successful probe or after five failures. The file is kept iff a probe succeeded and reported more than 60 KB, which agrees with `Kept`. |
| `SizeFilter.Survivors` | 1_units_definition/img_summarizer_application.py:67-85 | Filtering never yields more candidates than it is given. Which ones survive is stated by `SizeFilter.SurvivorsMembers` and `SizeFilter.SurvivorsAppend`. |
| `SizeFilter.SurvivorsMembers` | 1_units_definition/img_summarizer_application.py:67-85 | The survivors are exactly the candidates whose file is kept, and there are no more of them than candidates. |
| `SizeFilter.SurvivorsAppend` | 1_units_definition/img_summarizer_application.py:70-78 | Filtering distributes over concatenation, so survivors keep the candidates' order. |
| `SizeFilter.SurvivorsDistinct` | 1_units_definition/img_summarizer_application.py:70-78 | Dropping candidates never makes two destination paths equal. |
| `SizeFilter.ColumnsAt` | 1_units_definition/img_summarizer_application.py:77-78 | Row j of the `imgs` and `new_paths` columns is survivor j: the two lists stay aligned. |
| `SizeFilter.FilterBySize` | 1_units_definition/img_summarizer_application.py:67-85 | The filter loop returns the source and destination columns of exactly the surviving candidates, in order, as two aligned lists of equal length. |
| `Representatives.FirstOf` | 1_units_definition/img_summarizer_application.py:107 | Gives the first shuffled position holding cluster c, or none when the cluster never occurs. |
| `Representatives.PickAscending` | 1_units_definition/img_summarizer_application.py:107 | Clusters c to k-1 get at most one row each, in strictly ascending cluster id. |
| `Representatives.PickRepresentatives` | 1_units_definition/img_summarizer_application.py:107 | Each picked row is the table row at the first shuffled position of its cluster. |
| `Representatives.PickCovers` | 1_units_definition/img_summarizer_application.py:107 | Every cluster among c to k-1 that some image carries gets a row. |
| `Representatives.Select` | 1_units_definition/img_summarizer_application.py:107 | The shuffle-then-first-per-cluster selection keeps at most k rows. The full contract is `Representatives.SelectSpec`, `Representatives.SelectAtMostN` and `Representatives.SelectFromTable`. |
| `Representatives.SelectSpec` | 1_units_definition/img_summarizer_application.py:104-107 | `groupby(['kmeans']).first()` after the shuffle gives at most k rows in ascending cluster id. Each row is the first of its cluster in shuffled order, and every cluster that occurs is represented. |
| `Representatives.SelectAtMostN` | 1_units_definition/img_summarizer_application.py:104-107 | There are never more representatives than images. |
| `Representatives.SelectFromTable` | 1_units_definition/img_summarizer_application.py:104-107 | Every representative is a whole row of the unit's table, with matching paths, cluster id and unit. Distinct destination paths in the table stay distinct among the representatives. |
| `RunLog.RunSpec` | 1_units_definition/img_summarizer_application.py:59-110 | Visiting the units adds at most one batch per unit. |
| `RunLog.Snapshot` | 1_units_definition/img_summarizer_application.py:111 | `pd.concat(all_h3s)` is empty exactly when every batch is empty. Its prefix and placement properties are `RunLog.SnapshotPrefix`, `RunLog.SnapshotUnits` and `RunLog.SnapshotDistinct`. |
| `RunLog.RunSpecGrows` | 1_units_definition/img_summarizer_application.py:110 | The result list only grows: the list after i units is a prefix of the list after j ≥ i units. |
| `RunLog.SnapshotPrefix` | 1_units_definition/img_summarizer_application.py:111 | A prefix of the batch list concatenates to a prefix of the table. |
| `RunLog.CheckpointsGrow` | 1_units_definition/img_summarizer_application.py:110-111 | Each saved table is a prefix of every later one: saved rows are never changed or dropped. |
| `RunLog.RunSpecUnits` | 1_units_definition/img_summarizer_application.py:104-110 | Every batch in the list is non-empty, all its rows carry one unit id, and that unit was visited. |
| `RunLog.RunSpecBatchOf` | 1_units_definition/img_summarizer_application.py:104-110 | Every batch in the list is exactly what the step produced for its unit. |
| `RunLog.RunSpecComplete` | 1_units_definition/img_summarizer_application.py:60-110 | Every visited unit that the step processes has its batch in the list. |
| `RunLog.AppendAscending` | 1_units_definition/img_summarizer_application.py:110 | Appending a batch whose unit follows all earlier units keeps the batches in ascending unit order. |
| `RunLog.RunSpecOrdered` | 1_units_definition/img_summarizer_application.py:54-110 | With strictly ascending units, the batches are in strictly ascending unit order, so no unit appears twice. |
| `RunLog.SnapshotUnits` | 1_units_definition/img_summarizer_application.py:111 | Every row of the concatenated table comes from a unit of one of the batches. |
| `RunLog.AppendBatch` | 1_units_definition/img_summarizer_application.py:111 | Appending a well-placed batch of a new unit keeps every row in its own unit's folder and all destinations distinct. |
| `RunLog.SnapshotDistinct` | 1_units_definition/img_summarizer_application.py:111 | Well-placed batches of pairwise different units concatenate to a table with distinct destinations, each row in its own unit's folder. |
| `RunLog.TablePlaced` | 1_units_definition/img_summarizer_application.py:110-118 | If the step tags and well-places its batches and the units strictly ascend, the saved table has rows only of visited units, each in its unit's folder, with no destination file twice. |
| `Summarizer.CandidateOf` | 1_units_definition/img_summarizer_application.py:63-64 | A row's `slv_path` reads back as the row's image, and its `new_path` as the row's panoid and side. |
| `Summarizer.CandidatesOf` | 1_units_definition/img_summarizer_application.py:63-64 | The two `apply` calls give one candidate per image row. `Summarizer.CandidatesOfAt` says which. |
| `Summarizer.UnitCandidates` | 1_units_definition/img_summarizer_application.py:62-64 | A unit has exactly four candidates per panoid record of the unit. |
| `Summarizer.CandidatesOfAt` | 1_units_definition/img_summarizer_application.py:63-64 | The path columns have one entry per image row: entry j holds the paths of row j. |
| `Summarizer.UnitCandidatesRoundTrip` | 1_units_definition/img_summarizer_application.py:63-64 | Each candidate's source path reads back as its row's image. Its destination path reads back as its row's panoid and side, and as its unit when the unit id has no `/`. |
| `Summarizer.UnitCandidatesDistinct` | 1_units_definition/img_summarizer_application.py:64 | If panoids are unique among the unit's records, no two of its candidates share a destination path. |
| `Summarizer.Run` | 1_units_definition/img_summarizer_application.py:54-111 | The loop over the sorted units builds exactly the list `RunLog.RunSpec` defines: one batch per unit that keeps at least five images, in visiting order. |
| `Summarizer.Batch` | 1_units_definition/img_summarizer_application.py:62-107 | A processed unit adds at most k rows. `Summarizer.BatchFacts`, `Summarizer.SkippedUnit` and `Summarizer.BatchPaths` state the skip rule and what the rows are. |
| `Summarizer.StepOf` | 1_units_definition/img_summarizer_application.py:62-110 | No unit adds more than k rows to the list. `Summarizer.StepTags` shows every batch is tagged with its unit. |
| `Summarizer.SkippedUnit` | 1_units_definition/img_summarizer_application.py:88-90 | A unit with fewer than five kept images adds nothing to the list, whatever the clustering and shuffle. |
| `Summarizer.BatchFacts` | 1_units_definition/img_summarizer_application.py:88-107 | A unit is processed iff at least five images survive, so k = 5 never exceeds the number of images clustered. Its batch holds 1 to k of its own survivors, tagged with the unit, in strictly ascending cluster id below k. |
| `Summarizer.BatchOfUnit` | 1_units_definition/img_summarizer_application.py:104-107 | A processed unit's batch is non-empty and every row carries the unit's id. |
| `Summarizer.BatchPaths` | 1_units_definition/img_summarizer_application.py:104-118 | If panoids are unique among the unit's records and the id has no `/`, a processed unit's rows lie in the unit's folder and have pairwise distinct destination paths. |
| `Summarizer.SurvivorsInUnitFolder` | 1_units_definition/img_summarizer_application.py:64 | Every surviving candidate of a unit whose id has no `/` is copied into that unit's folder. |
| `Summarizer.SurvivorColumnsDistinct` | 1_units_definition/img_summarizer_application.py:64-78 | With unique panoids in the unit, the `new_paths` column left by the size filter has no path twice. |
| `Summarizer.StepTags` | 1_units_definition/img_summarizer_application.py:104-110 | Every batch the unit step produces is non-empty and tagged with its own unit. |
| `Summarizer.RunPathsUnique` | 1_units_definition/img_summarizer_application.py:54-118 | If panoids are unique within each unit and unit ids have no `/`, every saved row belongs to a unit of the table and lies in that unit's folder, and no two saved rows are copied to the same file. |

## Left out

- The embedding (`img2vec.get_vec_matrix`), PCA and k-means steps
  (lines 93-101) are the `Clustering` parameter. The model assumes only that
  they give one cluster id below k per image. general_tools/img2vec.py is not
  part of this model.
- The embedding columns `x0 … xn` joined to the table (lines 105-106) are not
  modelled. The code joins the full `matrix` (line 105), not `reduced_matrix`
  (line 96); the model drops these columns.
- `groupby(...).first()` takes the first non-null value per column. No column
  of the modelled table can be null, so this is the first row of each cluster.
- The unseeded `df.sample(len(df))` shuffle is the `Shuffle` parameter: any
  permutation.
- The database read (`get_panoids_from_municipality`, general_tools/database.py
  lines 42-75, called at line 38 of the application) is the input list of
  `PanoRecord`s. Columns other than `h3`, `panoid` and the four image names are
  not modelled.
- Printing, `time.sleep(1)` between attempts, `os.makedirs`, the `cp` of each
  chosen image (line 118) and the pickle write (line 111) are I/O and are left
  out. The table that would be written is `RunLog.Snapshot` of the list so far.
- A failure inside the embedding step (for example, an undecodable image)
  stops the program. The model has no such failure.
- `SizeFilter.LargeEnough` compares the exact quotient `size / 1024` with 60.
  Python's float division is exact here for any realistic file size, so
  floating-point rounding is not modelled.
- The order among unit ids follows code-point order of the id characters, as
  NumPy's string sort does. Units are compared as Dafny strings.
- The file system is a function of (file, attempt). Two candidates with the same
  `slv_path` therefore always get the same verdict. The source probes each
  candidate afresh (lines 70-83) and could see a different transient outcome
  for the second one.
- Unique destination paths depend on a property of the database: panoids must be
  unique within each unit. Two records with the same panoid in one unit give
  two rows with the same `new_path` (line 64). `Summarizer.BatchPaths` and
  `Summarizer.RunPathsUnique` assume it. `Tools.InUnitDistinct` shows that
  table-wide unique panoids imply it.
