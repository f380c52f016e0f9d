/**
 * The panoid-to-image fan-out of general_tools/tools.py: keep the panorama
 * records of one spatial unit, and turn each into four image rows, one per
 * viewing direction, tagged with a side letter.
 */
module Tools {

  /** One row of the panoid table: its spatial unit, its panorama id and the
      image file of each of the four directions. */
  datatype PanoRecord = PanoRecord(
    h3: string,
    panoid: string,
    imFront: string,
    imSideA: string,
    imBack: string,
    imSideB: string)

  datatype Direction = Front | SideA | Back | SideB

  /** One image of a panorama: the column `im` with its `side` tag. */
  datatype ImageRow = ImageRow(h3: string, panoid: string, im: string, side: char)

  /** The order in which the four per-direction tables are concatenated. */
  const Directions: seq<Direction> := [Front, SideA, Back, SideB]

  /** The side letter assigned to each direction's rows. */
  function SideTag(d: Direction): char {
    match d
    case Front => 'f'
    case SideA => 'a'
    case Back => 'r'
    case SideB => 'b'
  }

  /** The only side letters a row can carry. */
  predicate IsSideTag(c: char) {
    c == 'f' || c == 'a' || c == 'r' || c == 'b'
  }

  /** Reads a side letter back as its direction. */
  function DirectionOf(c: char): (d: Direction)
    requires IsSideTag(c)
    ensures SideTag(d) == c
  {
    if c == 'f' then Front else if c == 'a' then SideA else if c == 'r' then Back else SideB
  }

  /** Side letters and directions are in one-to-one correspondence. */
  lemma SideTagRoundTrip(d: Direction)
    ensures IsSideTag(SideTag(d)) && DirectionOf(SideTag(d)) == d
  {
  }

  /** The image column that a direction renames to `im`. */
  function Image(r: PanoRecord, d: Direction): string {
    match d
    case Front => r.imFront
    case SideA => r.imSideA
    case Back => r.imBack
    case SideB => r.imSideB
  }

  function RowOf(r: PanoRecord, d: Direction): ImageRow {
    ImageRow(r.h3, r.panoid, Image(r, d), SideTag(d))
  }

  /** The records whose unit is h3, in table order. */
  function InUnit(h3: string, ps: seq<PanoRecord>): (qs: seq<PanoRecord>)
    ensures |qs| <= |ps|
    decreases |ps|
  {
    if ps == [] then []
    else if ps[0].h3 == h3 then [ps[0]] + InUnit(h3, ps[1..]) else InUnit(h3, ps[1..])
  }

  /** The kept records are exactly the table's records of unit h3, and no
      more of them than records. */
  lemma {:induction false} InUnitMembers(h3: string, ps: seq<PanoRecord>)
    ensures |InUnit(h3, ps)| <= |ps|
    ensures forall q :: q in InUnit(h3, ps) <==> q in ps && q.h3 == h3
    ensures forall j :: 0 <= j < |InUnit(h3, ps)| ==> InUnit(h3, ps)[j].h3 == h3
    decreases |ps|
  {
    if ps != [] {
      InUnitMembers(h3, ps[1..]);
      assert ps == [ps[0]] + ps[1..];
    }
  }

  /** Each record of the unit is kept as often as the table holds it, and
      no record of another unit is kept. */
  lemma {:induction false} InUnitCount(h3: string, ps: seq<PanoRecord>)
    ensures forall q :: multiset(InUnit(h3, ps))[q] == if q.h3 == h3 then multiset(ps)[q] else 0
    decreases |ps|
  {
    if ps != [] {
      InUnitCount(h3, ps[1..]);
      assert ps == [ps[0]] + ps[1..];
    }
  }

  /** Selecting a unit distributes over splitting the table: the relative
      order of the kept records is the table's. */
  lemma {:induction false} InUnitAppend(h3: string, a: seq<PanoRecord>, b: seq<PanoRecord>)
    ensures InUnit(h3, a + b) == InUnit(h3, a) + InUnit(h3, b)
    decreases |a|
  {
    if a != [] {
      InUnitAppend(h3, a[1..], b);
      var ab := a + b;
      assert ab[0] == a[0] && ab[1..] == a[1..] + b;
      var tail := InUnit(h3, a[1..]) + InUnit(h3, b);
      if a[0].h3 == h3 {
        calc {
          InUnit(h3, ab);
          [a[0]] + tail;
          ([a[0]] + InUnit(h3, a[1..])) + InUnit(h3, b);
        }
      }
    } else {
      assert a + b == b;
    }
  }

  /** One direction's table: each record renamed to its image for d. */
  function Project(qs: seq<PanoRecord>, d: Direction): (rows: seq<ImageRow>)
    ensures |rows| == |qs|
  {
    seq(|qs|, j requires 0 <= j < |qs| => RowOf(qs[j], d))
  }

  /** get_images_from_h3: the unit's records, fanned out to four image rows
      each, all front rows first, then side a, back and side b. */
  function ImagesFromUnit(h3: string, ps: seq<PanoRecord>): (rows: seq<ImageRow>)
    ensures |rows| == 4 * |InUnit(h3, ps)|
  {
    var qs := InUnit(h3, ps);
    Project(qs, Front) + Project(qs, SideA) + Project(qs, Back) + Project(qs, SideB)
  }

  /** Where each output row comes from: row m*b + j is record j of the unit
      seen in the b-th direction, so every record yields exactly four rows,
      tagged f, a, r and b, each block in table order. */
  lemma {:induction false} ImagesFromUnitLayout(h3: string, ps: seq<PanoRecord>, j: nat)
    requires j < |InUnit(h3, ps)|
    ensures var qs := InUnit(h3, ps); var m := |qs|; var rows := ImagesFromUnit(h3, ps);
      && rows[j] == ImageRow(h3, qs[j].panoid, qs[j].imFront, 'f')
      && rows[m + j] == ImageRow(h3, qs[j].panoid, qs[j].imSideA, 'a')
      && rows[2 * m + j] == ImageRow(h3, qs[j].panoid, qs[j].imBack, 'r')
      && rows[3 * m + j] == ImageRow(h3, qs[j].panoid, qs[j].imSideB, 'b')
  {
    var qs := InUnit(h3, ps);
    var m := |qs|;
    var q := qs[j];
    InUnitMembers(h3, ps);
    var front, sideA, back, sideB := Project(qs, Front), Project(qs, SideA), Project(qs, Back), Project(qs, SideB);
    assert front[j] == ImageRow(h3, q.panoid, q.imFront, 'f');
    assert sideA[j] == ImageRow(h3, q.panoid, q.imSideA, 'a');
    assert back[j] == ImageRow(h3, q.panoid, q.imBack, 'r');
    assert sideB[j] == ImageRow(h3, q.panoid, q.imSideB, 'b');
    var rows := ImagesFromUnit(h3, ps);
    assert rows == ((front + sideA) + back) + sideB;
  }

  /** Every output row is the image of one of the unit's own records, in the
      direction its side letter names, with that record's panoid. */
  lemma {:induction false} ImagesFromUnitProvenance(h3: string, ps: seq<PanoRecord>, row: ImageRow)
    requires row in ImagesFromUnit(h3, ps)
    ensures IsSideTag(row.side)
    ensures exists q :: q in ps && q.h3 == h3 && row == RowOf(q, DirectionOf(row.side))
  {
    var qs := InUnit(h3, ps);
    var d :| d in Directions && row in Project(qs, d);
    var j :| 0 <= j < |qs| && Project(qs, d)[j] == row;
    InUnitMembers(h3, ps);
    assert qs[j] in qs;
    SideTagRoundTrip(d);
  }

  /** Rows of one unit never repeat a (panoid, side) pair. */
  predicate DistinctKeys(rows: seq<ImageRow>) {
    forall i, j :: 0 <= i < j < |rows| ==> rows[i].panoid != rows[j].panoid || rows[i].side != rows[j].side
  }

  predicate DistinctPanoids(ps: seq<PanoRecord>) {
    forall i, j :: 0 <= i < j < |ps| ==> ps[i].panoid != ps[j].panoid
  }

  lemma {:induction false} InUnitDistinct(h3: string, ps: seq<PanoRecord>)
    requires DistinctPanoids(ps)
    ensures DistinctPanoids(InUnit(h3, ps))
    decreases |ps|
  {
    if ps != [] {
      InUnitDistinct(h3, ps[1..]);
      var tail := InUnit(h3, ps[1..]);
      InUnitMembers(h3, ps[1..]);
      assert forall q :: q in tail ==> q.panoid != ps[0].panoid;
    }
  }

  /** Position i of the fan-out holds record k of the unit seen in direction
      Directions[b], where (b, k) is the position's block and index. */
  lemma {:induction false} ImagesFromUnitKey(h3: string, ps: seq<PanoRecord>, i: nat)
    requires i < |ImagesFromUnit(h3, ps)|
    ensures var qs := InUnit(h3, ps); var bk := Block(i, |qs|);
      && ImagesFromUnit(h3, ps)[i].panoid == qs[bk.1].panoid
      && ImagesFromUnit(h3, ps)[i].side == SideTag(Directions[bk.0])
  {
    var qs := InUnit(h3, ps);
    var (b, k) := Block(i, |qs|);
    ImagesFromUnitLayout(h3, ps, k);
  }

  /** When panoids are unique among the unit's records, the fan-out never
      produces two images of the same panorama with the same side letter. */
  lemma {:induction false} ImagesFromUnitDistinct(h3: string, ps: seq<PanoRecord>)
    requires DistinctPanoids(InUnit(h3, ps))
    ensures DistinctKeys(ImagesFromUnit(h3, ps))
  {
    var rows := ImagesFromUnit(h3, ps);
    forall i, j | 0 <= i < j < |rows|
      ensures rows[i].panoid != rows[j].panoid || rows[i].side != rows[j].side
    {
      ImagesFromUnitKey(h3, ps, i);
      ImagesFromUnitKey(h3, ps, j);
    }
  }

  /** Position i of the fan-out as (direction block, record index). */
  function Block(i: nat, m: nat): (bk: (nat, nat))
    requires i < 4 * m
    ensures bk.0 < 4 && bk.1 < m
    ensures bk.0 == 0 ==> i == bk.1
    ensures bk.0 == 1 ==> i == m + bk.1
    ensures bk.0 == 2 ==> i == 2 * m + bk.1
    ensures bk.0 == 3 ==> i == 3 * m + bk.1
  {
    if i < m then (0, i) else if i < 2 * m then (1, i - m) else if i < 3 * m then (2, i - 2 * m) else (3, i - 3 * m)
  }
}
