/**
 * `BlockManager` (app/core/block_manager.py): holds the whole catalogue, the set of base names
 * the user ignores, the active (not ignored) records and the matcher built from them.
 */
module BlockManagement {
  import opened Wrappers
  import opened Models
  import opened TextureUtils
  import opened Analyzer
  import opened Matcher
  import opened BlockNames
  import opened Parser

  /** `s.split(':')[-1] if ':' in s else s`: the part after the last ':'. */
  function LastSegment(s: string): (r: string)
    ensures ':' !in r
    ensures ':' !in s ==> r == s
    ensures ':' in s ==> exists i :: 0 <= i < |s| && s[i] == ':' && r == s[i + 1..]
  {
    var i := RFind(s, ':');
    var r := s[i + 1..];
    assert ':' in s ==> 0 <= i by {
      if i == -1 {
        forall k | 0 <= k < |s|
          ensures s[k] != ':'
        {
        }
      }
    }
    assert ':' !in r by {
      forall k | 0 <= k < |r|
        ensures r[k] != ':'
      {
        assert r[k] == s[i + 1 + k];
      }
    }
    assert ':' !in s ==> i == -1 && r == s;
    r
  }

  lemma LastSegmentExample()
    ensures LastSegment("minecraft:stone") == "stone"
  {
    var s := "minecraft:stone";
    assert s[9] == ':';
    RFindAt(s, ':', 9);
    assert s[10..] == "stone";
  }

  /** The load step that drops top textures of logs. */
  function DropLogTop(blocks: seq<BlockTexture>): (r: seq<BlockTexture>)
    ensures |r| <= |blocks|
    ensures forall b :: b in r <==> b in blocks && !EndsWith(b.blockId, "_log_top")
  {
    if blocks == [] then []
    else
      var init := blocks[..|blocks| - 1];
      var last := blocks[|blocks| - 1];
      assert forall b :: b in blocks <==> b in init || b == last;
      DropLogTop(init) + (if EndsWith(last.blockId, "_log_top") then [] else [last])
  }

  /** The records with base name `base`, in catalogue order (`base_to_blocks[base]`). */
  function BlocksOf(blocks: seq<BlockTexture>, base: string): (r: seq<BlockTexture>)
    ensures |r| <= |blocks|
  {
    if blocks == [] then []
    else
      var last := blocks[|blocks| - 1];
      BlocksOf(blocks[..|blocks| - 1], base) + (if BaseBlockName(last.blockId) == base then [last] else [])
  }

  /** `base_to_blocks[base]` holds exactly the records whose base name is `base`. */
  lemma {:induction false} BlocksOfMembers(blocks: seq<BlockTexture>, base: string, b: BlockTexture)
    ensures b in BlocksOf(blocks, base) <==> b in blocks && BaseBlockName(b.blockId) == base
  {
    if blocks != [] {
      var init := blocks[..|blocks| - 1];
      BlocksOfMembers(init, base, b);
      assert forall x :: x in blocks <==> x in init || x == blocks[|blocks| - 1];
    }
  }

  /** The base names of the records (`all_base_names`). */
  function BaseNames(blocks: seq<BlockTexture>): set<string>
  {
    set b | b in blocks :: BaseBlockName(b.blockId)
  }

  /** The texture names, ids without namespace, of the records with base name `base`
      (`base_to_variants[base]`). */
  function VariantsOf(blocks: seq<BlockTexture>, base: string): set<string>
  {
    set b | b in BlocksOf(blocks, base) :: LastSegment(b.blockId)
  }

  /** One more record adds its base name, and extends the records and texture names of that
      base name only. */
  lemma SnocGroups(blocks: seq<BlockTexture>, x: BlockTexture, base: string)
    ensures BaseNames(blocks + [x]) == BaseNames(blocks) + {BaseBlockName(x.blockId)}
    ensures BlocksOf(blocks + [x], base) ==
      BlocksOf(blocks, base) + (if BaseBlockName(x.blockId) == base then [x] else [])
    ensures VariantsOf(blocks + [x], base) ==
      VariantsOf(blocks, base) + (if BaseBlockName(x.blockId) == base then {LastSegment(x.blockId)} else {})
  {
    SnocBaseNames(blocks, x);
    SnocBlocksOf(blocks, x, base);
    var before := BlocksOf(blocks, base);
    var after := BlocksOf(blocks + [x], base);
    assert forall y :: y in after <==> y in before || (y == x && BaseBlockName(x.blockId) == base);
  }

  lemma SnocBaseNames(blocks: seq<BlockTexture>, x: BlockTexture)
    ensures BaseNames(blocks + [x]) == BaseNames(blocks) + {BaseBlockName(x.blockId)}
  {
    assert forall y :: y in blocks + [x] <==> y in blocks || y == x;
  }

  lemma SnocBlocksOf(blocks: seq<BlockTexture>, x: BlockTexture, base: string)
    ensures BlocksOf(blocks + [x], base) ==
      BlocksOf(blocks, base) + (if BaseBlockName(x.blockId) == base then [x] else [])
  {
    var s := blocks + [x];
    assert s[..|s| - 1] == blocks;
  }

  /** A name that is no base name has no records. */
  lemma BaseNamesAbsent(blocks: seq<BlockTexture>, base: string)
    requires base !in BaseNames(blocks)
    ensures BlocksOf(blocks, base) == [] && VariantsOf(blocks, base) == {}
  {
    var r := BlocksOf(blocks, base);
    if r != [] {
      BlocksOfMembers(blocks, base, r[0]);
    }
  }

  /** The three tests `_initialize_user_ignored_blocks` makes for one base name, given that
      name's texture names and records: its unprefixed name is on the default list, or one of
      the texture names is, or one of the records is transparent. */
  predicate Selected(base: string, defaults: set<string>, variants: set<string>, blocksForBase: seq<BlockTexture>)
  {
    LastSegment(base) in defaults
    || (exists v :: v in variants && v in defaults)
    || (exists b :: b in blocksForBase && b.hasTransparency)
  }

  /** The initialisation policy for one base name of the catalogue. */
  predicate IgnoredByDefault(blocks: seq<BlockTexture>, defaults: set<string>, base: string)
  {
    Selected(base, defaults, VariantsOf(blocks, base), BlocksOf(blocks, base))
  }

  /** The base names `_initialize_user_ignored_blocks` adds. */
  function DefaultIgnored(blocks: seq<BlockTexture>, defaults: set<string>): (r: set<string>)
    ensures r <= BaseNames(blocks)
  {
    set base | base in BaseNames(blocks) && IgnoredByDefault(blocks, defaults, base)
  }

  /** The policy in terms of the records alone: a base name is ignored by default exactly when
      some record has it and either the name itself, some such record's texture name, or the
      transparency of some such record selects it. */
  lemma DefaultIgnoredMembers(blocks: seq<BlockTexture>, defaults: set<string>, base: string)
    ensures base in DefaultIgnored(blocks, defaults) <==>
      (exists b :: b in blocks && BaseBlockName(b.blockId) == base)
      && (|| LastSegment(base) in defaults
          || (exists b :: b in blocks && BaseBlockName(b.blockId) == base && LastSegment(b.blockId) in defaults)
          || (exists b :: b in blocks && BaseBlockName(b.blockId) == base && b.hasTransparency))
  {
    forall b
      ensures b in BlocksOf(blocks, base) <==> b in blocks && BaseBlockName(b.blockId) == base
    {
      BlocksOfMembers(blocks, base, b);
    }
  }

  /** `_apply_filters`: the records whose base name is not ignored, in catalogue order. */
  function ActiveFilter(blocks: seq<BlockTexture>, ignored: set<string>): (r: seq<BlockTexture>)
    ensures |r| <= |blocks|
  {
    if blocks == [] then []
    else
      var init := blocks[..|blocks| - 1];
      var last := blocks[|blocks| - 1];
      ActiveFilter(init, ignored) + (if BaseBlockName(last.blockId) in ignored then [] else [last])
  }

  /** A record is active exactly when it is in the catalogue and its base name is not
      ignored; so the active records are a subset of the catalogue. */
  lemma {:induction false} ActiveFilterMembers(blocks: seq<BlockTexture>, ignored: set<string>, b: BlockTexture)
    ensures b in ActiveFilter(blocks, ignored) <==> b in blocks && BaseBlockName(b.blockId) !in ignored
  {
    if blocks != [] {
      var init := blocks[..|blocks| - 1];
      ActiveFilterMembers(init, ignored, b);
      assert forall x :: x in blocks <==> x in init || x == blocks[|blocks| - 1];
    }
  }

  /** Filtering twice with the same ignore set is filtering once. */
  lemma {:induction false} ActiveFilterIdempotent(blocks: seq<BlockTexture>, ignored: set<string>)
    ensures ActiveFilter(ActiveFilter(blocks, ignored), ignored) == ActiveFilter(blocks, ignored)
  {
    if blocks != [] {
      var init := blocks[..|blocks| - 1];
      var last := blocks[|blocks| - 1];
      ActiveFilterIdempotent(init, ignored);
      var tail := if BaseBlockName(last.blockId) in ignored then [] else [last];
      ActiveFilterAppend(ActiveFilter(init, ignored), tail, ignored);
      if tail != [] {
        assert ActiveFilter(tail, ignored) == tail by {
          assert tail[..0] == [];
        }
      }
    }
  }

  /** Filtering keeps catalogue order: it distributes over concatenation. */
  lemma {:induction false} ActiveFilterAppend(a: seq<BlockTexture>, b: seq<BlockTexture>, ignored: set<string>)
    ensures ActiveFilter(a + b, ignored) == ActiveFilter(a, ignored) + ActiveFilter(b, ignored)
    decreases |b|
  {
    if b == [] {
      assert a + b == a;
    } else {
      var b' := b[..|b| - 1];
      assert (a + b)[..|a + b| - 1] == a + b';
      ActiveFilterAppend(a, b', ignored);
    }
  }

  /** Ignoring more base names leaves fewer active records: filtering with a larger set equals
      filtering the result of a smaller one. */
  lemma {:induction false} ActiveFilterMonotone(blocks: seq<BlockTexture>, small: set<string>, large: set<string>)
    requires small <= large
    ensures ActiveFilter(ActiveFilter(blocks, small), large) == ActiveFilter(blocks, large)
  {
    if blocks != [] {
      var init := blocks[..|blocks| - 1];
      var last := blocks[|blocks| - 1];
      ActiveFilterMonotone(init, small, large);
      var tail := if BaseBlockName(last.blockId) in small then [] else [last];
      ActiveFilterAppend(ActiveFilter(init, small), tail, large);
      if tail != [] {
        assert tail[..0] == [];
      }
    }
  }

  /** One entry of `get_grouped_blocks`' result: the variants met, in catalogue order (with
      repetitions), and for each variant the last record met with it. */
  datatype Group = Group(variants: seq<string>, blocks: map<string, BlockTexture>)

  /** What `get_grouped_blocks` builds from the catalogue. */
  function Grouped(blocks: seq<BlockTexture>): map<string, Group>
  {
    if blocks == [] then map[]
    else
      var g := Grouped(blocks[..|blocks| - 1]);
      var b := blocks[|blocks| - 1];
      var base := BaseBlockName(b.blockId);
      var variant := BlockVariant(b.blockId);
      var entry := if base in g then g[base] else Group([], map[]);
      g[base := Group(entry.variants + [variant], entry.blocks[variant := b])]
  }

  /** The groups are exactly the base names of the catalogue. */
  lemma {:induction false} GroupedKeys(blocks: seq<BlockTexture>)
    ensures Grouped(blocks).Keys == BaseNames(blocks)
  {
    if blocks != [] {
      var init := blocks[..|blocks| - 1];
      var x := blocks[|blocks| - 1];
      assert blocks == init + [x];
      GroupedKeys(init);
      SnocGroups(init, x, "");
    }
  }

  /** A group lists one variant per record with its base name, in catalogue order. */
  lemma {:induction false} GroupedVariants(blocks: seq<BlockTexture>, base: string)
    requires base in Grouped(blocks)
    ensures Grouped(blocks)[base].variants == seq(|BlocksOf(blocks, base)|,
      k requires 0 <= k < |BlocksOf(blocks, base)| => BlockVariant(BlocksOf(blocks, base)[k].blockId))
  {
    var init := blocks[..|blocks| - 1];
    var x := blocks[|blocks| - 1];
    var xb := BaseBlockName(x.blockId);
    var g := Grouped(init);
    if base in g {
      GroupedVariants(init, base);
    } else if base == xb {
      GroupedKeys(init);
      BaseNamesAbsent(init, base);
    }
  }

  /** Each record a group stores under a variant has that group's base name and that
      variant. */
  lemma {:induction false} GroupedEntries(blocks: seq<BlockTexture>, base: string, v: string)
    requires base in Grouped(blocks) && v in Grouped(blocks)[base].blocks
    ensures var b := Grouped(blocks)[base].blocks[v];
      b in blocks && BaseBlockName(b.blockId) == base && BlockVariant(b.blockId) == v
  {
    var init := blocks[..|blocks| - 1];
    var x := blocks[|blocks| - 1];
    var g := Grouped(init);
    if base in g && v in g[base].blocks && (BaseBlockName(x.blockId) != base || BlockVariant(x.blockId) != v) {
      GroupedEntries(init, base, v);
    }
  }

  /** The state of the first loop of `_initialize_user_ignored_blocks` after the records
      `done`. */
  predicate Grouping(done: seq<BlockTexture>, names: set<string>, variants: map<string, set<string>>,
                     blocksOf: map<string, seq<BlockTexture>>)
  {
    && names == BaseNames(done)
    && variants.Keys == names && blocksOf.Keys == names
    && VariantsFor(done, variants)
    && BlocksFor(done, blocksOf)
  }

  predicate VariantsFor(done: seq<BlockTexture>, variants: map<string, set<string>>)
  {
    forall b :: b in variants ==> variants[b] == VariantsOf(done, b)
  }

  predicate BlocksFor(done: seq<BlockTexture>, blocksOf: map<string, seq<BlockTexture>>)
  {
    forall b :: b in blocksOf ==> blocksOf[b] == BlocksOf(done, b)
  }

  lemma VariantsStep(done: seq<BlockTexture>, block: BlockTexture, variants: map<string, set<string>>)
    requires VariantsFor(done, variants)
    requires BaseBlockName(block.blockId) !in variants ==> VariantsOf(done, BaseBlockName(block.blockId)) == {}
    ensures var base := BaseBlockName(block.blockId);
      VariantsFor(done + [block],
        variants[base := (if base in variants then variants[base] else {}) + {LastSegment(block.blockId)}])
  {
    forall b
      ensures VariantsOf(done + [block], b) ==
        VariantsOf(done, b) + (if BaseBlockName(block.blockId) == b then {LastSegment(block.blockId)} else {})
    {
      SnocGroups(done, block, b);
    }
  }

  lemma BlocksStep(done: seq<BlockTexture>, block: BlockTexture, blocksOf: map<string, seq<BlockTexture>>)
    requires BlocksFor(done, blocksOf)
    requires BaseBlockName(block.blockId) !in blocksOf ==> BlocksOf(done, BaseBlockName(block.blockId)) == []
    ensures var base := BaseBlockName(block.blockId);
      BlocksFor(done + [block], blocksOf[base := (if base in blocksOf then blocksOf[base] else []) + [block]])
  {
    forall b
      ensures BlocksOf(done + [block], b) == BlocksOf(done, b) + (if BaseBlockName(block.blockId) == b then [block] else [])
    {
      SnocGroups(done, block, b);
    }
  }

  /** One iteration of that loop keeps its state right. */
  lemma GroupingStep(done: seq<BlockTexture>, block: BlockTexture, names: set<string>,
                     variants: map<string, set<string>>, blocksOf: map<string, seq<BlockTexture>>)
    requires Grouping(done, names, variants, blocksOf)
    ensures var base := BaseBlockName(block.blockId);
      Grouping(done + [block], names + {base},
        variants[base := (if base in variants then variants[base] else {}) + {LastSegment(block.blockId)}],
        blocksOf[base := (if base in blocksOf then blocksOf[base] else []) + [block]])
  {
    var base := BaseBlockName(block.blockId);
    if base !in names {
      BaseNamesAbsent(done, base);
    }
    SnocGroups(done, block, base);
    var v' := variants[base := (if base in variants then variants[base] else {}) + {LastSegment(block.blockId)}];
    var b' := blocksOf[base := (if base in blocksOf then blocksOf[base] else []) + [block]];
    VariantsStep(done, block, variants);
    assert VariantsFor(done + [block], v');
    BlocksStep(done, block, blocksOf);
    assert BlocksFor(done + [block], b');
    UpdateKeys(variants, base, v'[base]);
    UpdateKeys(blocksOf, base, b'[base]);
  }

  lemma UpdateKeys<V>(m: map<string, V>, k: string, v: V)
    ensures m[k := v].Keys == m.Keys + {k}
  {
  }

  /** The three tests of the second loop of `_initialize_user_ignored_blocks`, made on the
      grouping of the first loop, select exactly the base names of the policy. */
  lemma DecisionIsPolicy(blocks: seq<BlockTexture>, defaults: set<string>, names: set<string>,
                         variants: map<string, set<string>>, blocksOf: map<string, seq<BlockTexture>>,
                         base: string)
    requires Grouping(blocks, names, variants, blocksOf) && base in names
    ensures base in variants && base in blocksOf
    ensures base in DefaultIgnored(blocks, defaults) <==> Selected(base, defaults, variants[base], blocksOf[base])
  {
    assert variants[base] == VariantsOf(blocks, base);
    assert blocksOf[base] == BlocksOf(blocks, base);
  }

  /** Set bookkeeping of the second loop of `_initialize_user_ignored_blocks`. */
  lemma RemoveOne(start: set<string>, target: set<string>, remaining: set<string>, x: string)
    requires x in remaining
    ensures start + (target - (remaining - {x})) ==
      (start + (target - remaining)) + (if x in target then {x} else {})
  {
  }

  /** The transparency threshold `load_blocks` analyses with. */
  const LoadThreshold: real := 0.05

  /** The catalogue `load_blocks` builds from a pack listing: every texture file (no ignore
      list), without the top textures of logs, each analysed. */
  function LoadedCatalogue(entries: seq<(Path, bool)>, decode: Path -> Image, toLab: Rgb -> Lab): seq<BlockTexture>
  {
    var kept := DropLogTop(ParsedBlocks(TextureFiles(entries, {})));
    seq(|kept|, i requires 0 <= i < |kept| => AnalyzeBlock(kept[i], decode(kept[i].texturePath), LoadThreshold, toLab))
  }

  /** `load_blocks` as written passes `ignore_non_blocks=False` to `parse`, which takes no
      such argument: whatever the pack holds, the call raises TypeError and nothing loads. */
  lemma LoadBlocksAsWrittenRaises(entries: seq<(Path, bool)>, defaultIgnoreFile: Option<seq<string>>)
    ensures ParseCall(["ignore_non_blocks"], entries, defaultIgnoreFile)
      == Failure(TypeError("TexturePackParser.parse() got an unexpected keyword argument 'ignore_non_blocks'"))
  {
    var keywords := ["ignore_non_blocks"];
    assert keywords[0] == "ignore_non_blocks";
    assert UnexpectedKeywordMessage(keywords[0])
      == "TexturePackParser.parse() got an unexpected keyword argument 'ignore_non_blocks'";
  }

  /** Every loaded record is a texture file of the pack other than a log top, and carries a
      colour exactly when it is solid. */
  lemma LoadedCatalogueShape(entries: seq<(Path, bool)>, decode: Path -> Image, toLab: Rgb -> Lab, b: BlockTexture)
    requires b in LoadedCatalogue(entries, decode, toLab)
    ensures b.texturePath in TextureFiles(entries, {})
    ensures !EndsWith(b.blockId, "_log_top")
    ensures b.labColor.Some? <==> !b.hasTransparency
    ensures b.avgColor.Some? <==> !b.hasTransparency
  {
    var files := TextureFiles(entries, {});
    var parsed := ParsedBlocks(files);
    var kept := DropLogTop(parsed);
    var loaded := LoadedCatalogue(entries, decode, toLab);
    var i :| 0 <= i < |loaded| && loaded[i] == b;
    assert kept[i] in kept;
    var j :| 0 <= j < |parsed| && parsed[j] == kept[i];
    assert b.texturePath == files[j];
  }

  /** Right after the ignore set is initialised (and whatever the user adds to it), no
      transparent record is active, and every active record that has been analysed is a match
      candidate: the matcher then works on the whole active list. */
  lemma ActiveAfterDefaults(blocks: seq<BlockTexture>, defaults: set<string>, ignored: set<string>)
    requires DefaultIgnored(blocks, defaults) <= ignored
    requires forall b :: b in blocks ==> (b.labColor.Some? <==> !b.hasTransparency)
    ensures forall b :: b in ActiveFilter(blocks, ignored) ==> !b.hasTransparency
    ensures Eligible(ActiveFilter(blocks, ignored), false) == ActiveFilter(blocks, ignored)
  {
    var active := ActiveFilter(blocks, ignored);
    forall b | b in active
      ensures !b.hasTransparency
    {
      ActiveFilterMembers(blocks, ignored, b);
      var base := BaseBlockName(b.blockId);
      BlocksOfMembers(blocks, base, b);
      if b.hasTransparency {
        assert IgnoredByDefault(blocks, defaults, base);
      }
    }
    forall b | b in active
      ensures IsEligible(b, false)
    {
      ActiveFilterMembers(blocks, ignored, b);
    }
    EligibleAll(active, false);
  }

  class BlockManager {
    var allBlocks: seq<BlockTexture>
    var activeBlocks: seq<BlockTexture>
    const defaultIgnoredBlocks: set<string>
    var userIgnoredBlocks: set<string>
    var matcher: Option<ValidMatcher>
    var groupedBlocksCache: Option<map<string, Group>>
    var settingsInitialized: bool

    /** `defaultIgnoreFile` holds the lines of the default ignore file, None when missing. */
    constructor(defaultIgnoreFile: Option<seq<string>>)
      ensures allBlocks == [] && activeBlocks == [] && userIgnoredBlocks == {}
      ensures defaultIgnoredBlocks == IgnoredSet(defaultIgnoreFile)
      ensures matcher.None? && groupedBlocksCache.None? && !settingsInitialized
    {
      allBlocks := [];
      activeBlocks := [];
      var defaults := LoadIgnoredTextures(defaultIgnoreFile);
      defaultIgnoredBlocks := defaults;
      userIgnoredBlocks := {};
      matcher := None;
      groupedBlocksCache := None;
      settingsInitialized := false;
    }

    /** `is_block_ignored`. */
    predicate IsBlockIgnored(baseName: string)
      reads this
    {
      baseName in userIgnoredBlocks
    }

    /** `toggle_block_ignore`: adds or removes exactly the given name. */
    method ToggleBlockIgnore(baseName: string, isIgnored: bool)
      modifies this
      ensures IsBlockIgnored(baseName) == isIgnored
      ensures forall n :: n != baseName ==> (IsBlockIgnored(n) <==> old(IsBlockIgnored(n)))
      ensures userIgnoredBlocks == if isIgnored then old(userIgnoredBlocks) + {baseName}
                                   else old(userIgnoredBlocks) - {baseName}
      ensures allBlocks == old(allBlocks) && activeBlocks == old(activeBlocks) && matcher == old(matcher)
      ensures groupedBlocksCache == old(groupedBlocksCache) && settingsInitialized == old(settingsInitialized)
    {
      if isIgnored {
        userIgnoredBlocks := userIgnoredBlocks + {baseName};
      } else {
        userIgnoredBlocks := userIgnoredBlocks - {baseName};
      }
    }

    /** `load_blocks`, given the pack listing, the image decoder and the colour conversion.
        Returns the ValueError the matcher's constructor raises, if any; by then the
        catalogue, the ignore set and the active list have already been replaced. */
    method LoadBlocks(entries: seq<(Path, bool)>, decode: Path -> Image, toLab: Rgb -> Lab)
      returns (err: Option<Error>)
      modifies this
      ensures allBlocks == LoadedCatalogue(entries, decode, toLab)
      ensures settingsInitialized
      ensures userIgnoredBlocks ==
        if old(settingsInitialized) || allBlocks == [] then old(userIgnoredBlocks)
        else old(userIgnoredBlocks) + DefaultIgnored(allBlocks, defaultIgnoredBlocks)
      ensures activeBlocks == ActiveFilter(allBlocks, userIgnoredBlocks)
      ensures activeBlocks == [] ==> matcher == old(matcher) && err.None?
      ensures activeBlocks != [] ==>
        match NewMatcher(activeBlocks, false)
        case Success(m) => matcher == Some(m) && err.None?
        case Failure(e) => matcher == old(matcher) && err == Some(e)
      ensures groupedBlocksCache == old(groupedBlocksCache)
    {
      var loaded := ReadCatalogue(entries, decode, toLab);
      allBlocks := loaded;
      if !settingsInitialized {
        InitializeUserIgnoredBlocks();
        settingsInitialized := true;
      }
      ApplyFilters();
      err := RebuildMatcher();
    }

    /** The first steps of `load_blocks`: parse every texture file, drop the log tops, analyse
        the rest in place. */
    static method ReadCatalogue(entries: seq<(Path, bool)>, decode: Path -> Image, toLab: Rgb -> Lab)
      returns (blocks: seq<BlockTexture>)
      ensures blocks == LoadedCatalogue(entries, decode, toLab)
    {
      var files := IterBlockTextureFiles(entries, false, None);
      var parsed := ParseFiles(files);
      var kept := DropLogTop(parsed);
      var analysed := new BlockTexture[|kept|](i requires 0 <= i < |kept| => kept[i]);
      var analyzer := new TextureAnalyzer(LoadThreshold);
      analyzer.Analyze(analysed, decode, toLab);
      blocks := analysed[..];
    }

    /** The closing step of `load_blocks` and `reload_with_filters`: with active records, a
        new matcher over them replaces the old one, or the constructor's ValueError is
        returned and the old matcher stays. */
    method RebuildMatcher() returns (err: Option<Error>)
      modifies this
      ensures activeBlocks == [] ==> matcher == old(matcher) && err.None?
      ensures activeBlocks != [] ==>
        match NewMatcher(activeBlocks, false)
        case Success(m) => matcher == Some(m) && err.None?
        case Failure(e) => matcher == old(matcher) && err == Some(e)
      ensures allBlocks == old(allBlocks) && activeBlocks == old(activeBlocks)
      ensures userIgnoredBlocks == old(userIgnoredBlocks)
      ensures groupedBlocksCache == old(groupedBlocksCache) && settingsInitialized == old(settingsInitialized)
    {
      err := None;
      if activeBlocks != [] {
        var r := NewMatcher(activeBlocks, false);
        if r.Success? {
          matcher := Some(r.value);
        } else {
          err := Some(r.error);
        }
      }
    }

    /** `reset_to_defaults`: the ignore set becomes what initialisation selects, and the active
        list follows it. */
    method ResetToDefaults()
      modifies this
      ensures userIgnoredBlocks == if allBlocks == [] then {} else DefaultIgnored(allBlocks, defaultIgnoredBlocks)
      ensures activeBlocks == ActiveFilter(allBlocks, userIgnoredBlocks)
      ensures allBlocks == old(allBlocks) && matcher == old(matcher)
      ensures groupedBlocksCache == old(groupedBlocksCache) && settingsInitialized == old(settingsInitialized)
    {
      userIgnoredBlocks := {};
      InitializeUserIgnoredBlocks();
      ApplyFilters();
    }

    /** `reload_with_filters`: recomputes the active list and, when it is non-empty, rebuilds
        the matcher; the constructor's ValueError is returned. */
    method ReloadWithFilters() returns (err: Option<Error>)
      modifies this
      ensures activeBlocks == ActiveFilter(allBlocks, userIgnoredBlocks)
      ensures activeBlocks == [] ==> matcher == old(matcher) && err.None?
      ensures activeBlocks != [] ==>
        match NewMatcher(activeBlocks, false)
        case Success(m) => matcher == Some(m) && err.None?
        case Failure(e) => matcher == old(matcher) && err == Some(e)
      ensures allBlocks == old(allBlocks) && userIgnoredBlocks == old(userIgnoredBlocks)
      ensures groupedBlocksCache == old(groupedBlocksCache) && settingsInitialized == old(settingsInitialized)
    {
      ApplyFilters();
      err := RebuildMatcher();
    }

    /** `get_grouped_blocks`: built from the catalogue on the first call and returned from the
        cache afterwards, even when the catalogue has changed since. */
    method GetGroupedBlocks() returns (groups: map<string, Group>)
      modifies this
      ensures old(groupedBlocksCache).None? ==> groups == Grouped(allBlocks)
      ensures old(groupedBlocksCache).Some? ==> groups == old(groupedBlocksCache).value
      ensures groupedBlocksCache == Some(groups)
      ensures allBlocks == old(allBlocks) && activeBlocks == old(activeBlocks)
      ensures userIgnoredBlocks == old(userIgnoredBlocks) && matcher == old(matcher)
      ensures settingsInitialized == old(settingsInitialized)
    {
      if groupedBlocksCache.None? {
        var built := BuildGroups(allBlocks);
        groupedBlocksCache := Some(built);
      }
      groups := groupedBlocksCache.value;
    }

    /** The loop of `get_grouped_blocks` that fills the cache. */
    static method BuildGroups(blocks: seq<BlockTexture>) returns (groups: map<string, Group>)
      ensures groups == Grouped(blocks)
    {
      groups := map[];
      for i := 0 to |blocks|
        invariant groups == Grouped(blocks[..i])
      {
        var block := blocks[i];
        assert blocks[..i + 1][..i] == blocks[..i];
        var baseName := BaseBlockName(block.blockId);
        var variant := BlockVariant(block.blockId);
        var entry := if baseName in groups then groups[baseName] else Group([], map[]);
        groups := groups[baseName := Group(entry.variants + [variant], entry.blocks[variant := block])];
      }
      assert blocks[..|blocks|] == blocks;
    }

    /** `_apply_filters`. */
    method ApplyFilters()
      modifies this
      ensures activeBlocks == ActiveFilter(allBlocks, userIgnoredBlocks)
      ensures allBlocks == old(allBlocks) && userIgnoredBlocks == old(userIgnoredBlocks)
      ensures matcher == old(matcher) && groupedBlocksCache == old(groupedBlocksCache)
      ensures settingsInitialized == old(settingsInitialized)
    {
      activeBlocks := [];
      for i := 0 to |allBlocks|
        invariant allBlocks == old(allBlocks) && userIgnoredBlocks == old(userIgnoredBlocks)
        invariant activeBlocks == ActiveFilter(allBlocks[..i], userIgnoredBlocks)
        invariant matcher == old(matcher) && groupedBlocksCache == old(groupedBlocksCache)
        invariant settingsInitialized == old(settingsInitialized)
      {
        assert allBlocks[..i + 1][..i] == allBlocks[..i];
        var block := allBlocks[i];
        var baseName := BaseBlockName(block.blockId);
        if baseName !in userIgnoredBlocks {
          activeBlocks := activeBlocks + [block];
        }
      }
      assert allBlocks[..|allBlocks|] == allBlocks;
    }

    /** `_initialize_user_ignored_blocks`: a no-op without records; otherwise adds the base
        names the policy selects and removes none. */
    method InitializeUserIgnoredBlocks()
      modifies this
      ensures allBlocks == [] ==> userIgnoredBlocks == old(userIgnoredBlocks)
      ensures allBlocks != [] ==>
        userIgnoredBlocks == old(userIgnoredBlocks) + DefaultIgnored(allBlocks, defaultIgnoredBlocks)
      ensures allBlocks == old(allBlocks) && activeBlocks == old(activeBlocks) && matcher == old(matcher)
      ensures groupedBlocksCache == old(groupedBlocksCache) && settingsInitialized == old(settingsInitialized)
    {
      if allBlocks == [] {
        return;
      }
      var allBaseNames, baseToVariants, baseToBlocks := GroupByBase(allBlocks);
      var added := SelectDefaultIgnored(allBlocks, defaultIgnoredBlocks, allBaseNames, baseToVariants, baseToBlocks);
      userIgnoredBlocks := userIgnoredBlocks + added;
    }

    /** The second loop of `_initialize_user_ignored_blocks`, given the grouping of the first:
        the base names it adds to the user's ignore set. */
    static method SelectDefaultIgnored(ghost blocks: seq<BlockTexture>, defaults: set<string>,
                                       allBaseNames: set<string>, baseToVariants: map<string, set<string>>,
                                       baseToBlocks: map<string, seq<BlockTexture>>)
      returns (added: set<string>)
      requires Grouping(blocks, allBaseNames, baseToVariants, baseToBlocks)
      ensures added == DefaultIgnored(blocks, defaults)
    {
      ghost var target := DefaultIgnored(blocks, defaults);
      added := {};
      var remaining := allBaseNames;
      while remaining != {}
        invariant remaining <= allBaseNames
        invariant added == target - remaining
        decreases remaining
      {
        var baseName :| baseName in remaining;
        DecisionIsPolicy(blocks, defaults, allBaseNames, baseToVariants, baseToBlocks, baseName);
        var decided := Decide(baseName, defaults, baseToVariants[baseName], baseToBlocks[baseName]);
        RemoveOne({}, target, remaining, baseName);
        remaining := remaining - {baseName};
        if decided {
          added := added + {baseName};
        }
      }
      assert target - {} == target;
    }

    /** The first loop of `_initialize_user_ignored_blocks`: the base names, and for each the
        texture names and the records that have it. */
    static method GroupByBase(blocks: seq<BlockTexture>)
      returns (allBaseNames: set<string>, baseToVariants: map<string, set<string>>,
               baseToBlocks: map<string, seq<BlockTexture>>)
      ensures Grouping(blocks, allBaseNames, baseToVariants, baseToBlocks)
    {
      allBaseNames := {};
      baseToVariants := map[];
      baseToBlocks := map[];
      for i := 0 to |blocks|
        invariant Grouping(blocks[..i], allBaseNames, baseToVariants, baseToBlocks)
      {
        var block := blocks[i];
        assert blocks[..i + 1] == blocks[..i] + [block];
        GroupingStep(blocks[..i], block, allBaseNames, baseToVariants, baseToBlocks);
        var baseName := BaseBlockName(block.blockId);
        allBaseNames := allBaseNames + {baseName};
        var textureName := LastSegment(block.blockId);
        var known := if baseName in baseToVariants then baseToVariants[baseName] else {};
        baseToVariants := baseToVariants[baseName := known + {textureName}];
        var listed := if baseName in baseToBlocks then baseToBlocks[baseName] else [];
        baseToBlocks := baseToBlocks[baseName := listed + [block]];
      }
      assert blocks[..|blocks|] == blocks;
    }

    /** The body of the second loop of `_initialize_user_ignored_blocks` for one base name:
        whether it is added. */
    static method Decide(baseName: string, defaults: set<string>, variants: set<string>,
                         blocksForBase: seq<BlockTexture>) returns (add: bool)
      ensures add == Selected(baseName, defaults, variants, blocksForBase)
    {
      var nameWithoutPrefix := LastSegment(baseName);
      if nameWithoutPrefix in defaults {
        return true;
      }
      var variantMatched := false;
      var rest := variants;
      while rest != {}
        invariant rest <= variants
        invariant !variantMatched
        invariant forall v :: v in variants - rest ==> v !in defaults
        decreases rest
      {
        var variant :| variant in rest;
        if variant in defaults {
          variantMatched := true;
          break;
        }
        rest := rest - {variant};
      }
      if variantMatched {
        return true;
      }
      add := false;
      for i := 0 to |blocksForBase|
        invariant forall k :: 0 <= k < i ==> !blocksForBase[k].hasTransparency
      {
        if blocksForBase[i].hasTransparency {
          add := true;
          break;
        }
      }
    }
  }
}
