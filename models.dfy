/**
 * The catalogue record `BlockTexture` (app/minecraft/texturepack/models.py), the pixel and
 * colour types it refers to, and the parts of `pathlib.Path` the catalogue code relies on.
 */
module Models {
  import opened Wrappers

  /** A filesystem path: the directory part and the final component (`Path.name`). */
  datatype Path = Path(dir: string, name: string)

  /** Index of the last occurrence of `c` in `s`, or -1 (Python's `str.rfind`). */
  function RFind(s: string, c: char): (i: int)
    ensures -1 <= i < |s|
    ensures 0 <= i ==> s[i] == c
    ensures forall k :: i < k < |s| ==> s[k] != c
  {
    if |s| == 0 then -1
    else if s[|s| - 1] == c then |s| - 1
    else RFind(s[..|s| - 1], c)
  }

  /** pathlib's rule: a dot at index 0 or at the very end does not start a suffix. */
  predicate HasSuffixDot(name: string)
  {
    var i := RFind(name, '.');
    0 < i && i < |name| - 1
  }

  /** `Path.suffix`: the final component from its last dot, or "" when there is none. */
  function Suffix(p: Path): string
  {
    if HasSuffixDot(p.name) then p.name[RFind(p.name, '.')..] else ""
  }

  /** `Path.stem`: the final component without its suffix. */
  function Stem(p: Path): string
  {
    if HasSuffixDot(p.name) then p.name[..RFind(p.name, '.')] else p.name
  }

  /** The stem and the suffix split the final component; a non-empty suffix starts with '.'
      and holds no other dot. */
  lemma StemSuffixSplit(p: Path)
    ensures Stem(p) + Suffix(p) == p.name
    ensures Suffix(p) != "" ==> Suffix(p)[0] == '.' && |Suffix(p)| >= 2
    ensures forall k :: 0 < k < |Suffix(p)| ==> Suffix(p)[k] != '.'
  {
  }

  /** `str(path)`: the directory and the name joined by '/'. */
  function PathString(p: Path): string
  {
    if p.dir == "" then p.name else p.dir + "/" + p.name
  }

  /** Splits a path string at its last '/', the inverse of `PathString`. */
  function ParsePath(s: string): Path
  {
    var i := RFind(s, '/');
    if i < 0 then Path("", s) else Path(s[..i], s[i + 1..])
  }

  /** A final component never holds the separator. */
  predicate WellFormedPath(p: Path)
  {
    '/' !in p.name && (p.dir != "" || p.name != "")
  }

  /** Turning a well-formed path into a string loses nothing. */
  lemma ParsePathString(p: Path)
    requires WellFormedPath(p)
    ensures ParsePath(PathString(p)) == p
  {
    var s := PathString(p);
    if p.dir == "" {
      assert RFind(s, '/') == -1;
    } else {
      assert s[|p.dir|] == '/';
      assert forall k :: |p.dir| < k < |s| ==> s[k] == p.name[k - |p.dir| - 1];
      assert RFind(s, '/') == |p.dir|;
      assert s[..|p.dir|] == p.dir;
      assert s[|p.dir| + 1..] == p.name;
    }
  }

  /** One 8-bit colour channel. */
  type Channel = x: int | 0 <= x < 256

  /** One RGBA pixel of a decoded texture. */
  datatype Pixel = Pixel(r: Channel, g: Channel, b: Channel, a: Channel)

  /** `RGB = Tuple[int, int, int]`. */
  datatype Rgb = Rgb(r: int, g: int, b: int)

  /** `LAB = Tuple[float, float, float]`, idealised as exact reals. */
  datatype Lab = Lab(l: real, a: real, b: real)

  /** The `BlockTexture` dataclass. */
  datatype BlockTexture = BlockTexture(
    blockId: string,
    texturePath: Path,
    avgColor: Option<Rgb>,
    labColor: Option<Lab>,
    textureSize: Option<(int, int)>,
    hasTransparency: bool)

  /** `BlockTexture(block_id=..., texture_path=...)`: only the two required fields are given,
      every other field takes its declared default. */
  function NewBlockTexture(blockId: string, texturePath: Path): (b: BlockTexture)
    ensures b.blockId == blockId && b.texturePath == texturePath
    ensures b.avgColor == None && b.labColor == None
    ensures b.textureSize == None && !b.hasTransparency
  {
    BlockTexture(blockId, texturePath, None, None, None, false)
  }

  /** A value of the dictionary produced by `to_dict`. */
  datatype FieldValue =
    | Text(text: string)
    | RgbField(rgb: Option<Rgb>)
    | LabField(lab: Option<Lab>)
    | SizeField(size: Option<(int, int)>)
    | Flag(flag: bool)

  const FieldNames: set<string> :=
    {"block_id", "texture_path", "avg_color", "lab_color", "texture_size", "has_transparency"}

  /** `to_dict`: every field by name, the path as its string form. */
  function ToDict(b: BlockTexture): (d: map<string, FieldValue>)
    ensures d.Keys == FieldNames
    ensures d["block_id"] == Text(b.blockId)
    ensures d["texture_path"] == Text(PathString(b.texturePath))
    ensures d["avg_color"] == RgbField(b.avgColor)
    ensures d["lab_color"] == LabField(b.labColor)
    ensures d["texture_size"] == SizeField(b.textureSize)
    ensures d["has_transparency"] == Flag(b.hasTransparency)
  {
    map["block_id" := Text(b.blockId),
        "texture_path" := Text(PathString(b.texturePath)),
        "avg_color" := RgbField(b.avgColor),
        "lab_color" := LabField(b.labColor),
        "texture_size" := SizeField(b.textureSize),
        "has_transparency" := Flag(b.hasTransparency)]
  }

  /** Rebuilds a record from a `to_dict` dictionary; the path is re-parsed from its string. */
  function FromDict(d: map<string, FieldValue>): Option<BlockTexture>
  {
    if FieldNames <= d.Keys
       && d["block_id"].Text? && d["texture_path"].Text? && d["avg_color"].RgbField?
       && d["lab_color"].LabField? && d["texture_size"].SizeField? && d["has_transparency"].Flag?
    then Some(BlockTexture(d["block_id"].text, ParsePath(d["texture_path"].text),
                           d["avg_color"].rgb, d["lab_color"].lab,
                           d["texture_size"].size, d["has_transparency"].flag))
    else None
  }

  /** `to_dict` keeps every field: the record can be rebuilt from the dictionary. */
  lemma ToDictRoundTrip(b: BlockTexture)
    requires WellFormedPath(b.texturePath)
    ensures FromDict(ToDict(b)) == Some(b)
  {
    ParsePathString(b.texturePath);
  }
}
