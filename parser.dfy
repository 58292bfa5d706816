/**
 * `TexturePackParser.parse` (app/minecraft/texturepack/parser.py): one fresh catalogue record
 * per texture file of the pack. The pack directory is given by its recursive listing
 * (`entries`, each path with its `is_file()` answer) and the contents of the default ignore
 * file (None when it is missing).
 */
module Parser {
  import opened Wrappers
  import opened Models
  import opened TextureUtils

  /** The unanalysed record `parse` builds for one texture file. */
  function ParsedBlock(texturePath: Path): (b: BlockTexture)
    ensures b.blockId == "minecraft:" + Stem(texturePath) && b.texturePath == texturePath
    ensures b.avgColor.None? && b.labColor.None? && b.textureSize.None? && !b.hasTransparency
  {
    NewBlockTexture(NormalizeBlockId(TextureNameToBlockId(texturePath)), texturePath)
  }

  /** The records `parse` returns for these texture files, one each, in order. */
  function ParsedBlocks(files: seq<Path>): (blocks: seq<BlockTexture>)
    ensures |blocks| == |files|
    ensures forall i :: 0 <= i < |files| ==> blocks[i].texturePath == files[i]
  {
    seq(|files|, i requires 0 <= i < |files| => ParsedBlock(files[i]))
  }

  /** `parse` takes no filter argument: the default ignore list always applies. */
  method Parse(entries: seq<(Path, bool)>, defaultIgnoreFile: Option<seq<string>>)
    returns (blocks: seq<BlockTexture>)
    ensures blocks == ParsedBlocks(TextureFiles(entries, IgnoredSet(defaultIgnoreFile)))
  {
    var files := IterBlockTextureFiles(entries, true, defaultIgnoreFile);
    blocks := ParseFiles(files);
  }

  /** Python's message for a keyword argument `parse` does not declare. */
  function UnexpectedKeywordMessage(keyword: string): string
  {
    "TexturePackParser.parse() got an unexpected keyword argument '" + keyword + "'"
  }

  /** A call of `parse` passing the keyword arguments `keywords`. `parse` declares none, so
      any keyword makes the call raise TypeError before the body runs; without keywords the
      call is `Parse`. */
  function ParseCall(keywords: seq<string>, entries: seq<(Path, bool)>, defaultIgnoreFile: Option<seq<string>>)
    : (r: Result<seq<BlockTexture>, Error>)
    ensures r.Failure? <==> keywords != []
    ensures r.Failure? ==> r.error == TypeError(UnexpectedKeywordMessage(keywords[0]))
    ensures r.Success? ==> |r.value| == |TextureFiles(entries, IgnoredSet(defaultIgnoreFile))|
  {
    if keywords != [] then Failure(TypeError(UnexpectedKeywordMessage(keywords[0])))
    else Success(ParsedBlocks(TextureFiles(entries, IgnoredSet(defaultIgnoreFile))))
  }

  /** The loop of `parse` over the texture files. */
  method ParseFiles(files: seq<Path>) returns (blocks: seq<BlockTexture>)
    ensures blocks == ParsedBlocks(files)
  {
    blocks := [];
    for i := 0 to |files|
      invariant blocks == ParsedBlocks(files[..i])
    {
      var block := BlockFor(files[i]);
      ParsedBlocksSnoc(files, i);
      blocks := blocks + [block];
    }
    assert files[..|files|] == files;
  }

  /** One more file: one more record at the end. */
  lemma ParsedBlocksSnoc(files: seq<Path>, i: nat)
    requires i < |files|
    ensures ParsedBlocks(files[..i + 1]) == ParsedBlocks(files[..i]) + [ParsedBlock(files[i])]
  {
    var a := ParsedBlocks(files[..i + 1]);
    var b := ParsedBlocks(files[..i]) + [ParsedBlock(files[i])];
    assert |a| == |b|;
    forall k | 0 <= k < |a|
      ensures a[k] == b[k]
    {
      assert files[..i + 1][k] == files[k];
      if k < i {
        assert files[..i][k] == files[k];
      }
    }
  }

  /** The loop body of `parse`: build the id, normalise it, create the record. */
  method BlockFor(texturePath: Path) returns (block: BlockTexture)
    ensures block == ParsedBlock(texturePath)
  {
    var blockId := TextureNameToBlockId(texturePath);
    blockId := NormalizeBlockId(blockId);
    block := NewBlockTexture(blockId, texturePath);
  }
}
