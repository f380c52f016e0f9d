/**
 * The file layout of 1_units_definition/img_summarizer_application.py: where
 * the street-level images are read from and where the chosen ones are copied
 * to, with parsers that read the names back.
 */
module Paths {
  import opened Wrappers

  /** The run's fixed settings that the paths are built from. */
  datatype Config = Config(imagesFolder: string, municipality: string, resolution: string)

  /** `{images_folder_path}/{municipality}_NL/imagedb` */
  function MunicipalityFolder(cfg: Config): string {
    cfg.imagesFolder + "/" + cfg.municipality + "_NL/imagedb"
  }

  /** `municipalities/{municipality}_{resolution}`, where the result table is kept. */
  function DestinationFolder(cfg: Config): string {
    "municipalities/" + cfg.municipality + "_" + cfg.resolution
  }

  /** `{destination_folder}/spatial_units` */
  function DestinationImagesFolder(cfg: Config): string {
    DestinationFolder(cfg) + "/spatial_units"
  }

  /** `slv_path`: where an image is read from. */
  function SlvPath(folder: string, im: string): (path: string)
    ensures folder + "/" <= path
  {
    folder + "/" + im
  }

  /** The folder of one spatial unit under the destination. */
  function UnitFolder(dest: string, h3: string): string {
    dest + "/" + h3
  }

  /** `new_path`: `{dest}/{h3}/PANO_{panoid}_{side}.png` */
  function NewPath(dest: string, h3: string, panoid: string, side: char): (path: string)
    ensures UnitFolder(dest, h3) + "/PANO_" <= path
    ensures |path| >= 4 && path[|path| - 4..] == ".png"
  {
    UnitFolder(dest, h3) + "/PANO_" + panoid + "_" + [side] + ".png"
  }

  /** Reads the image name back from a source path. */
  function ImageOf(folder: string, path: string): (im: Option<string>)
    ensures im.Some? ==> SlvPath(folder, im.value) == path
  {
    var pre := folder + "/";
    if |pre| <= |path| && path[..|pre|] == pre then
      assert path == path[..|pre|] + path[|pre|..];
      Some(path[|pre|..])
    else None
  }

  lemma SlvPathRoundTrip(folder: string, im: string)
    ensures ImageOf(folder, SlvPath(folder, im)) == Some(im)
  {
    var pre := folder + "/";
    assert SlvPath(folder, im)[..|pre|] == pre;
    assert SlvPath(folder, im)[|pre|..] == im;
  }

  /** Reads the panoid and side back from a destination path in a unit's folder. */
  function ParseNewPath(dest: string, h3: string, path: string): (r: Option<(string, char)>)
    ensures r.Some? ==> NewPath(dest, h3, r.value.0, r.value.1) == path
  {
    var pre := UnitFolder(dest, h3) + "/PANO_";
    if |pre| + 6 <= |path| && path[..|pre|] == pre && path[|path| - 6] == '_'
       && path[|path| - 4..] == ".png"
    then
      var panoid, side := path[|pre|..|path| - 6], path[|path| - 5];
      assert path == pre + panoid + "_" + [side] + ".png" by {
        assert path == path[..|pre|] + path[|pre|..|path| - 6] + path[|path| - 6..|path| - 5]
          + path[|path| - 5..|path| - 4] + path[|path| - 4..];
      }
      Some((panoid, side))
    else None
  }

  lemma NewPathRoundTrip(dest: string, h3: string, panoid: string, side: char)
    ensures ParseNewPath(dest, h3, NewPath(dest, h3, panoid, side)) == Some((panoid, side))
  {
    var pre := UnitFolder(dest, h3) + "/PANO_";
    var path := NewPath(dest, h3, panoid, side);
    assert path == pre + panoid + "_" + [side] + ".png";
    assert path[..|pre|] == pre;
    assert path[|pre|..|path| - 6] == panoid;
    assert path[|path| - 4..] == ".png";
  }

  /** Within one unit's folder, different images get different file names. */
  lemma NewPathInjective(dest: string, h3: string, p1: string, s1: char, p2: string, s2: char)
    requires NewPath(dest, h3, p1, s1) == NewPath(dest, h3, p2, s2)
    ensures p1 == p2 && s1 == s2
  {
    NewPathRoundTrip(dest, h3, p1, s1);
    NewPathRoundTrip(dest, h3, p2, s2);
  }

  /** The leading part of s before its first '/'. */
  function UpToSlash(s: string): (r: string)
    ensures r <= s && '/' !in r
  {
    if s == [] || s[0] == '/' then [] else [s[0]] + UpToSlash(s[1..])
  }

  lemma {:induction false} UpToSlashOf(h: string, rest: string)
    requires '/' !in h
    ensures UpToSlash(h + "/" + rest) == h
    decreases |h|
  {
    if h == [] {
      assert (h + "/" + rest)[0] == '/';
    } else {
      assert (h + "/" + rest)[1..] == h[1..] + "/" + rest;
      UpToSlashOf(h[1..], rest);
    }
  }

  /** Reads the spatial unit back from a path under the destination folder. */
  function UnitOf(dest: string, path: string): Option<string> {
    var pre := dest + "/";
    if |pre| <= |path| && path[..|pre|] == pre then Some(UpToSlash(path[|pre|..])) else None
  }

  /** A unit id without '/' is recovered from every destination path built with
      it, so images of different units never share a destination. */
  lemma UnitOfNewPath(dest: string, h3: string, panoid: string, side: char)
    requires '/' !in h3
    ensures UnitOf(dest, NewPath(dest, h3, panoid, side)) == Some(h3)
  {
    var pre := dest + "/";
    var rest := "PANO_" + panoid + "_" + [side] + ".png";
    var path := NewPath(dest, h3, panoid, side);
    assert path == pre + (h3 + "/" + rest);
    assert path[..|pre|] == pre;
    assert path[|pre|..] == h3 + "/" + rest;
    UpToSlashOf(h3, rest);
  }
}
