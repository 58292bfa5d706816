/**
 * Helpers of the texture-pack loader (app/minecraft/texturepack/utils.py): the ignore list,
 * the texture-file test and block-id construction. Directory discovery is replaced by the list
 * of entries `rglob("*")` would produce, each with its `is_file()` answer.
 */
module TextureUtils {
  import opened Wrappers
  import opened Models
  import opened PyStr

  /** The ignore-list rule for one line: kept when its stripped form is non-empty and does not
      start with '#'. */
  predicate IsEntry(line: string)
  {
    var t := Strip(line);
    t != "" && t[0] != '#'
  }

  /** The names an ignore file with these lines lists. */
  function Entries(lines: seq<string>): set<string>
  {
    set line | line in lines && IsEntry(line) :: Strip(line)
  }

  /** `load_ignored_textures`: `file` is None when the ignore file does not exist, otherwise
      its lines. */
  method LoadIgnoredTextures(file: Option<seq<string>>) returns (ignored: set<string>)
    ensures file.None? ==> ignored == {}
    ensures file.Some? ==> ignored == Entries(file.value)
  {
    ignored := {};
    if file.None? {
      return;
    }
    var lines := file.value;
    for i := 0 to |lines|
      invariant ignored == Entries(lines[..i])
    {
      EntriesSnoc(lines, i);
      var line := Strip(lines[i]);
      if line != "" && line[0] != '#' {
        ignored := ignored + {line};
      }
    }
    assert lines[..|lines|] == lines;
  }

  /** One more line adds its stripped form when it is an entry, and nothing otherwise. */
  lemma EntriesSnoc(lines: seq<string>, i: nat)
    requires i < |lines|
    ensures Entries(lines[..i + 1]) == Entries(lines[..i]) + if IsEntry(lines[i]) then {Strip(lines[i])} else {}
  {
    var pre := lines[..i];
    assert lines[..i + 1] == pre + [lines[i]];
    assert forall line :: line in lines[..i + 1] <==> line in pre || line == lines[i];
  }

  /** What `LoadIgnoredTextures` yields for an optional file. */
  function IgnoredSet(file: Option<seq<string>>): set<string>
  {
    if file.None? then {} else Entries(file.value)
  }

  /** A comment line indented with spaces is still a comment; a name followed by a '#' note is
      kept whole; a blank line is skipped. */
  lemma CommentExamples()
    ensures !IsEntry("  # leaves")
    ensures IsEntry("glass # note") && IsEntry(" dirt\n")
    ensures !IsEntry("\n")
  {
    StripIndentedExample();
    StripBothEndsExample();
    StripBlankAndInnerExample();
  }

  /** Every listed name is non-empty, carries no surrounding whitespace and does not start with
      '#'; comment detection happens after stripping, and text after a name on the same line
      stays part of the entry. */
  lemma EntryShape(lines: seq<string>, name: string)
    requires name in Entries(lines)
    ensures name != "" && name[0] != '#'
    ensures !IsSpace(name[0]) && !IsSpace(name[|name| - 1])
    ensures Strip(name) == name
  {
    var line :| line in lines && IsEntry(line) && Strip(line) == name;
    StripShape(line);
  }

  /** `should_ignore_texture`: decided by the file stem alone. */
  predicate ShouldIgnoreTexture(texturePath: Path, ignoredTextures: set<string>)
  {
    Stem(texturePath) in ignoredTextures
  }

  /** A texture is dropped by an ignore file exactly when some line of the file, stripped, is
      that texture's stem and is not a comment. */
  lemma IgnoredIffListed(texturePath: Path, lines: seq<string>)
    ensures ShouldIgnoreTexture(texturePath, Entries(lines))
        <==> exists line :: line in lines && IsEntry(line) && Strip(line) == Stem(texturePath)
  {
  }

  const ValidImageExtensions: set<string> := {".png"}

  /** `is_valid_texture_file`: a regular file whose lower-cased suffix is `.png`. */
  predicate IsValidTextureFile(p: Path, isFile: bool)
  {
    isFile && Lower(Suffix(p)) in ValidImageExtensions
  }

  /** `RFind` is characterised by its contract: a position holding `c` with no `c` after it. */
  lemma RFindAt(s: string, c: char, i: int)
    requires 0 <= i < |s| && s[i] == c
    requires forall k :: i < k < |s| ==> s[k] != c
    ensures RFind(s, c) == i
  {
  }

  /** The suffix test is case-insensitive. */
  lemma UpperCaseSuffixExample(dir: string)
    ensures IsValidTextureFile(Path(dir, "stone.PNG"), true)
  {
    RFindAt("stone.PNG", '.', 5);
    assert "stone.PNG"[5..] == ".PNG";
    assert Lower(".PNG") == ".png";
  }

  /** Only the last dot starts the suffix. */
  lemma TwoDotsExample(dir: string)
    ensures IsValidTextureFile(Path(dir, "a.b.png"), true) && Stem(Path(dir, "a.b.png")) == "a.b"
  {
    RFindAt("a.b.png", '.', 3);
    assert "a.b.png"[3..] == ".png";
    assert Lower(".png") == ".png";
    assert "a.b.png"[..3] == "a.b";
  }

  /** A file called ".png" has no suffix at all (its only dot is at index 0), so it is no
      texture; neither is a directory. */
  lemma HiddenFileExample(dir: string)
    ensures !IsValidTextureFile(Path(dir, ".png"), true)
    ensures !IsValidTextureFile(Path(dir, "stone.png"), false)
  {
    RFindAt(".png", '.', 0);
  }

  /** The texture paths `iter_block_texture_files` yields from a directory listing, in
      listing order. */
  function TextureFiles(entries: seq<(Path, bool)>, ignored: set<string>): (r: seq<Path>)
    ensures |r| <= |entries|
  {
    if entries == [] then []
    else
      var rest := TextureFiles(entries[..|entries| - 1], ignored);
      var e := entries[|entries| - 1];
      if IsValidTextureFile(e.0, e.1) && !ShouldIgnoreTexture(e.0, ignored) then rest + [e.0] else rest
  }

  /** A path is yielded exactly when the listing holds it as a file with a `.png` suffix and its
      stem is not ignored. */
  lemma {:induction false} TextureFilesMembers(entries: seq<(Path, bool)>, ignored: set<string>, p: Path)
    ensures p in TextureFiles(entries, ignored) <==>
      exists e :: e in entries && e.0 == p && IsValidTextureFile(p, e.1) && !ShouldIgnoreTexture(p, ignored)
  {
    if entries != [] {
      var init := entries[..|entries| - 1];
      var e := entries[|entries| - 1];
      TextureFilesMembers(init, ignored, p);
      assert forall x :: x in entries <==> x in init || x == e;
    }
  }

  /** Listing order is kept: the files of a listing split in two are those of the first part
      followed by those of the second. */
  lemma {:induction false} TextureFilesAppend(a: seq<(Path, bool)>, b: seq<(Path, bool)>, ignored: set<string>)
    ensures TextureFiles(a + b, ignored) == TextureFiles(a, ignored) + TextureFiles(b, ignored)
    decreases |b|
  {
    if b == [] {
      assert a + b == a;
    } else {
      var b' := b[..|b| - 1];
      assert (a + b)[..|a + b| - 1] == a + b';
      TextureFilesAppend(a, b', ignored);
    }
  }

  /** `iter_block_texture_files`: the default ignore file is read only when `ignoreNonBlocks`
      holds; otherwise the ignore set is empty and only the `.png` test filters. */
  method IterBlockTextureFiles(entries: seq<(Path, bool)>, ignoreNonBlocks: bool,
                               defaultIgnoreFile: Option<seq<string>>)
    returns (paths: seq<Path>)
    ensures paths == TextureFiles(entries, if ignoreNonBlocks then IgnoredSet(defaultIgnoreFile) else {})
  {
    var ignoredTextures: set<string> := {};
    if ignoreNonBlocks {
      ignoredTextures := LoadIgnoredTextures(defaultIgnoreFile);
    }
    paths := [];
    for i := 0 to |entries|
      invariant paths == TextureFiles(entries[..i], ignoredTextures)
    {
      assert entries[..i + 1][..i] == entries[..i];
      var (path, isFile) := entries[i];
      if IsValidTextureFile(path, isFile) && !ShouldIgnoreTexture(path, ignoredTextures) {
        paths := paths + [path];
      }
    }
    assert entries[..|entries|] == entries;
  }

  /** `texture_name_to_block_id`. */
  function TextureNameToBlockId(texturePath: Path): (id: string)
    ensures id == "minecraft:" + Stem(texturePath)
  {
    "minecraft:" + Stem(texturePath)
  }

  /** `normalize_block_id`: adds the namespace exactly when the id has none. */
  function NormalizeBlockId(blockId: string): (r: string)
    ensures ':' in blockId ==> r == blockId
    ensures ':' !in blockId ==> r == "minecraft:" + blockId
  {
    if ':' !in blockId then "minecraft:" + blockId else blockId
  }

  /** A normalised id always carries a namespace, and normalising is idempotent; in
      particular it leaves every id built by `TextureNameToBlockId` unchanged. */
  lemma NormalizeIdempotent(blockId: string, texturePath: Path)
    ensures ':' in NormalizeBlockId(blockId)
    ensures NormalizeBlockId(NormalizeBlockId(blockId)) == NormalizeBlockId(blockId)
    ensures NormalizeBlockId(TextureNameToBlockId(texturePath)) == TextureNameToBlockId(texturePath)
  {
    var prefixed := "minecraft:" + blockId;
    assert prefixed[9] == ':';
    assert TextureNameToBlockId(texturePath)[9] == ':';
  }
}
