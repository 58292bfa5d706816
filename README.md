# minepixel-editor core, modelled in Dafny

minepixel-editor turns pictures into Minecraft pixel art and lets the user edit the result
block by block. This project models its core and proves properties about the model:

- **The texture-pack catalogue.** `TextureUtils`, `Parser` and `Models` model how the block
  textures of a pack are found: a `.png` test, and the ignore list read from a text file.
  Each texture becomes one `BlockTexture` record. Its id is `minecraft:` plus the file stem.
- **The texture analyzer** (`Analyzer`) flags textures with too many non-opaque pixels. It
  gives every other texture its average colour and that colour's L\*a\*b\* value.
- **The matcher** (`Matcher`) keeps the analysed records that have a colour. It returns the
  first record nearest to a target L\*a\*b\* colour. **The image mapper** (`ImageMapper`)
  matches every pixel of a picture, after an optional nearest-neighbour resize (`Raster`).
- **The block manager** (`BlockManagement`) loads the catalogue. It keeps the set of blocks
  the user chose to ignore, and groups block ids by base name and directional variant
  (`BlockNames`). The same naming rules drive the statistics panel (`BlockStats`), which
  counts the blocks of a grid.
- **The renderer** (`Renderer`) pastes one texture per grid cell into an output image. It
  caches the textures it has loaded.
- **The editor canvas** (`CanvasWidget`, with the pure state machine `CanvasModel` and the
  geometry `CanvasGeometry`) covers the grid, zoom and pan, and the mapping between screen
  and grid coordinates. It also covers Bresenham line drawing, dirty-cell tracking and the
  throttled redraw decision. The canvas tools are `Tools.BaseTool`, the brush (`BrushTools`)
  and the picker (`PickerTools`).

Images, file contents and directory listings are values passed in. The colour conversion
(`rgb2lab`) and image decoding are function parameters. Floating-point numbers are exact
reals. Distances are compared squared, since the square root preserves their order.
Python's ordered dictionaries are an insertion-order sequence plus a map. Callbacks and
drawing calls are recorded as logs of what would be drawn or reported.

## Model

| member | source | states |
|---|---|---|
| Models.StemSuffixSplit | app/minecraft/texturepack/utils.py:104-105 | `Path.stem` and `Path.suffix` split the file name exactly. A non-empty suffix is a dot followed by at least one character, with no other dot. |
| Models.ParsePathString | app/minecraft/texturepack/models.py:22-25 | The path string `to_dict` stores loses nothing: parsing it back gives the same path. |
| Models.NewBlockTexture | app/minecraft/texturepack/models.py:11-20 | A record built from an id and a path has those two fields. Every other field has its declared default: no colours, no size, not transparent. |
| Models.ToDict | app/minecraft/texturepack/models.py:22-25 | `to_dict` has exactly the six field names as keys. Each value is that field's value, and the path is stored as its string form. |
| Models.ToDictRoundTrip | app/minecraft/texturepack/models.py:22-25 | Rebuilding a record from its `to_dict` dictionary gives back the same record. |
| PyStr.StripLeft | app/minecraft/texturepack/utils.py:35 | The left half of `str.strip()` returns a suffix of the input. That suffix does not start with whitespace, and everything removed was whitespace. |
| PyStr.StripRight | app/minecraft/texturepack/utils.py:35 | The right half returns a prefix of the input. That prefix does not end with whitespace, and everything removed was whitespace. |
| PyStr.StripShape | app/minecraft/texturepack/utils.py:35 | A stripped line neither starts nor ends with whitespace. Stripping is idempotent. |
| PyStr.StripIndentedExample | app/minecraft/texturepack/utils.py:35-37 | An indented `# leaves` strips to a line that still starts with '#'. |
| PyStr.StripBothEndsExample | app/minecraft/texturepack/utils.py:35 | Blanks and a line break at both ends are removed. |
| PyStr.StripBlankAndInnerExample | app/minecraft/texturepack/utils.py:35-37 | A line holding only a line break strips to nothing. Inner blanks are kept. |
| PyStr.Lower | app/minecraft/texturepack/utils.py:9 | ASCII lowering: the length is kept and each of `A`-`Z` becomes its lower-case letter, every other character unchanged. This matches Python's `str.lower()` on the suffix test it serves. |
| TextureUtils.LoadIgnoredTextures | app/minecraft/texturepack/utils.py:12-40 | A missing ignore file gives the empty set. Otherwise the result is exactly the stripped lines that are non-empty and do not start with '#'. |
| TextureUtils.EntriesSnoc | app/minecraft/texturepack/utils.py:34-38 | The loop step: one more line adds its stripped form when it is an entry, and nothing otherwise. |
| TextureUtils.CommentExamples | app/minecraft/texturepack/utils.py:35-38 | An indented comment is skipped. A name followed by a `#` note is kept. A line holding only a line break is skipped. |
| TextureUtils.EntryShape | app/minecraft/texturepack/utils.py:35-38 | Every ignored name is non-empty and does not start with '#'. It has no surrounding whitespace, so it is its own stripped form. |
| TextureUtils.IgnoredIffListed | app/minecraft/texturepack/utils.py:43-55 | A texture is ignored exactly when some non-comment line of the ignore file, once stripped, equals the texture's stem. |
| TextureUtils.UpperCaseSuffixExample | app/minecraft/texturepack/utils.py:8-9 | The suffix test is case-insensitive: `stone.PNG` is a texture file. |
| TextureUtils.TwoDotsExample | app/minecraft/texturepack/utils.py:8-9 | Only the last dot starts the suffix: `a.b.png` is a texture file whose stem is `a.b`. |
| TextureUtils.HiddenFileExample | app/minecraft/texturepack/utils.py:8-9 | A file called `.png` has no suffix, so it is not a texture file. A directory is not a texture file either. |
| TextureUtils.TextureFiles | app/minecraft/texturepack/utils.py:96-101 | The files yielded are a selection from the listing, so there are no more of them than listing entries. |
| TextureUtils.TextureFilesMembers | app/minecraft/texturepack/utils.py:98-101 | A path is yielded exactly when the listing has it as a file with a `.png` suffix and its stem is not ignored. |
| TextureUtils.TextureFilesAppend | app/minecraft/texturepack/utils.py:98-101 | Listing order is kept: yielding from a split listing gives the files of the first part followed by those of the second. |
| TextureUtils.IterBlockTextureFiles | app/minecraft/texturepack/utils.py:82-101 | The ignore file is read only when `ignore_non_blocks` holds; otherwise nothing is ignored. The yielded paths are those of `TextureFiles` for that ignore set. |
| TextureUtils.TextureNameToBlockId | app/minecraft/texturepack/utils.py:104-105 | The id is `minecraft:` followed by the file stem. |
| TextureUtils.NormalizeBlockId | app/minecraft/texturepack/utils.py:108-111 | An id that already has a ':' is unchanged. Otherwise `minecraft:` is prepended. |
| TextureUtils.NormalizeIdempotent | app/minecraft/texturepack/utils.py:104-111 | A normalised id always has a namespace, and normalising twice is the same as once. Ids made from texture names are already normal. |
| TextureUtils.RFindAt | app/minecraft/texturepack/utils.py:8-9 | The last-dot search used by `Path.suffix` is fully determined: the position of a dot with no dot after it. |
| Parser.ParsedBlock | app/minecraft/texturepack/parser.py:25-30 | The record `parse` builds for a file has the id `minecraft:` + stem and that file's path. All analysis fields are unset. |
| Parser.ParsedBlocks | app/minecraft/texturepack/parser.py:23-32 | One record per texture file, in file order. Record i carries file i's path. |
| Parser.Parse | app/minecraft/texturepack/parser.py:20-34 | `parse` always applies the default ignore list. It returns one fresh record for each texture file the listing yields, in order. |
| Parser.ParseFiles | app/minecraft/texturepack/parser.py:23-32 | The loop appends exactly the record for each file in turn. |
| Parser.ParseCall | app/minecraft/texturepack/parser.py:20 | `parse` declares no keyword argument. A call passing one raises TypeError naming the first keyword. A call without keywords succeeds with one record per texture file. |
| Parser.ParsedBlocksSnoc | app/minecraft/texturepack/parser.py:32 | One more file appends one more record at the end. |
| Parser.BlockFor | app/minecraft/texturepack/parser.py:24-30 | The loop body builds the id, normalises it and creates the record: the same record as `ParsedBlock`. |
| Analyzer.CountTranslucent | app/minecraft/texturepack/analyzer.py:58-62 | The count of pixels with alpha below 255 is at most the number of pixels. |
| Analyzer.CountTranslucentExtremes | app/minecraft/texturepack/analyzer.py:58-62 | The count is zero exactly when every pixel is opaque. It is the pixel count exactly when no pixel is opaque. |
| Analyzer.DefaultThresholdIffTwentieth | app/minecraft/texturepack/analyzer.py:58-65 | At the default threshold of 0.05, a texture is transparent exactly when more than one pixel in twenty is not opaque. Exactly 5% counts as solid. |
| Analyzer.RatioAbove | app/minecraft/texturepack/analyzer.py:63-65 | Comparing the ratio to the threshold is the same as comparing the count to threshold × total. |
| Analyzer.Visible | app/minecraft/texturepack/analyzer.py:73-80 | The mask `alpha > 0` selects exactly the pixels with positive alpha. |
| Analyzer.Contributing | app/minecraft/texturepack/analyzer.py:75-80 | The averaged pixels are never empty. They are the visible ones when any pixel is visible, and every pixel when none is. |
| Analyzer.ChannelSumBounds | app/minecraft/texturepack/analyzer.py:77-80 | A channel sum lies between n·lo and n·hi when every component lies in lo..hi. |
| Analyzer.ChannelMeanBounds | app/minecraft/texturepack/analyzer.py:77-82 | The truncated mean of a channel lies between any bounds of the averaged components. |
| Analyzer.FloorDivBounds | app/minecraft/texturepack/analyzer.py:82 | `int()` of a mean whose sum lies between n·lo and n·hi stays in lo..hi. |
| Analyzer.AverageRgbBounds | app/minecraft/texturepack/analyzer.py:67-82 | Each component of the average colour lies between the smallest and largest value of that component over the contributing pixels. |
| Analyzer.AverageRgbIsColour | app/minecraft/texturepack/analyzer.py:67-82 | The average colour is a valid RGB colour: every component is in 0..255. |
| Analyzer.AverageIgnoresInvisible | app/minecraft/texturepack/analyzer.py:73-80 | When some pixel is visible, fully transparent pixels do not dilute the average. It equals the average of the visible pixels alone. |
| Analyzer.VisibleIdempotent | app/minecraft/texturepack/analyzer.py:75 | Masking twice is masking once. |
| Analyzer.VisibleAppend | app/minecraft/texturepack/analyzer.py:75 | The mask keeps pixel order: it distributes over concatenation. |
| Analyzer.AnalyzeBlock | app/minecraft/texturepack/analyzer.py:26-41 | Only the transparency flag and the two colours change. The colours are unset exactly when the texture is transparent; otherwise they are the average RGB and its L\*a\*b\* value. |
| Analyzer.TextureAnalyzer.constructor | app/minecraft/texturepack/analyzer.py:16-24 | The analyzer keeps the given transparency threshold. |
| Analyzer.TextureAnalyzer.Analyze | app/minecraft/texturepack/analyzer.py:26-41 | `analyze` updates every record of the list in place, each as `AnalyzeBlock` says for its own texture. |
| Matcher.Eligible | app/minecraft/texturepack/matcher.py:20-24 | The kept records come from the catalogue. Each has an L\*a\*b\* colour and, unless transparency is allowed, is not transparent. |
| Matcher.EligibleComplete | app/minecraft/texturepack/matcher.py:20-24 | Every eligible catalogue record is kept. |
| Matcher.EligibleAppend | app/minecraft/texturepack/matcher.py:22-24 | Filtering keeps catalogue order: it distributes over concatenation. |
| Matcher.EligibleAll | app/minecraft/texturepack/matcher.py:22-24 | A catalogue whose every record is eligible is kept whole. |
| Matcher.EligibleWidens | app/minecraft/texturepack/matcher.py:21-24 | Allowing transparency can only add candidates. |
| Matcher.NewMatcher | app/minecraft/texturepack/matcher.py:12-27 | The constructor raises ValueError, with its message, exactly when no record is eligible. Otherwise the candidates are the eligible records in order. |
| Matcher.MatchRgb | app/minecraft/texturepack/matcher.py:30-31 | `match_rgb` always raises NotImplementedError. |
| Matcher.DistSq | app/minecraft/texturepack/matcher.py:50-55 | The squared Euclidean L\*a\*b\* distance is non-negative. |
| Matcher.DistSqMetric | app/minecraft/texturepack/matcher.py:50-55 | The distance is symmetric, and zero between a colour and itself. |
| Matcher.SquareOrder | app/minecraft/texturepack/matcher.py:53 | For non-negative distances, comparing the values and comparing their squares agree. This is why the square root can be left out. |
| Matcher.FirstNearest | app/minecraft/texturepack/matcher.py:38-43 | The chosen index is no farther than any candidate, and every earlier candidate is strictly farther (strict `<` keeps the first of equals). |
| Matcher.FirstNearestUnique | app/minecraft/texturepack/matcher.py:38-43 | Only one index has that property, so the choice is fully determined. |
| Matcher.Nearest | app/minecraft/texturepack/matcher.py:34-45 | `match_lab` returns one of the candidates. |
| Matcher.ExactColourFound | app/minecraft/texturepack/matcher.py:34-45 | When a candidate has exactly the target colour, the returned record is at distance zero. |
| Matcher.MatchLab | app/minecraft/texturepack/matcher.py:34-45 | The linear scan returns the first nearest candidate. It is a candidate, and no candidate is closer to the target. |
| Raster.SourceIndex | app/minecraft/image_mapper.py:26-27 | A nearest-neighbour sample always falls inside the source image. |
| Raster.SourceIndexBound | app/minecraft/image_mapper.py:26-27 | The pixel-centre formula sends every target index to a valid source index. |
| Raster.SourceIndexIdentity | app/minecraft/image_mapper.py:26-27 | Resizing to the same length samples every pixel at its own place. |
| Raster.ResizeNearest | app/minecraft/image_mapper.py:26-27 | The resized image has the requested height and width. Each pixel is the source pixel at the sampled coordinates. |
| Raster.ResizeSameSize | app/minecraft/image_mapper.py:26-27 | Resizing an image to its own size changes nothing. |
| ImageMapper.PreparedPixels | app/minecraft/image_mapper.py:23-29 | The pixels mapped form a rectangle. They are the decoded image unchanged without a target size, and have exactly the target size with one. |
| ImageMapper.ImageToBlockMapper.constructor | app/minecraft/image_mapper.py:17-18 | The mapper keeps the matcher it is given. |
| ImageMapper.ImageToBlockMapper.MapImage | app/minecraft/image_mapper.py:21-46 | The grid has the prepared image's shape. Cell (y, x) is the matcher's choice for that pixel's L\*a\*b\* colour, so every cell is a matcher candidate. With a target size, the grid has that size. |
| ImageMapper.ImageToBlockMapper.MapRow | app/minecraft/image_mapper.py:40-43 | One row of pixels maps, left to right, to the matcher's choice for each pixel. |
| BlockNames.MatchingSuffixFromFirst | app/core/block_manager.py:172-175 | The suffix scan from any position stops at the first listed suffix the id ends with. It finds none exactly when the id ends with none of the remaining suffixes. |
| BlockNames.MatchingSuffixFirst | app/core/block_manager.py:172-175 | The scan over `DIRECTIONAL_SUFFIXES` takes the first suffix in list order that the id ends with. |
| BlockNames.BaseBlockName | app/core/block_manager.py:170-175 | `get_base_block_name` returns a prefix of the id. |
| BlockNames.BlockVariant | app/core/block_manager.py:178-183 | `get_block_variant` returns one of `normal`, `top`, `side`, `front`, `back`, `bottom`, `end`. |
| BlockNames.SuffixShape | app/core/block_manager.py:24 | Every directional suffix is an underscore followed by a variant name other than `normal`. |
| BlockNames.BaseAndVariant | app/core/block_manager.py:170-183 | The variant is `normal` exactly when the base name is the whole id. Otherwise the id is the base name, an underscore and the variant. |
| BlockNames.NoSuffixNoChange | app/core/block_manager.py:169-183 | An id that ends with no directional suffix is its own base name, of variant `normal`. |
| BlockNames.SpruceLogTopExample | app/core/block_manager.py:170-183 | `spruce_log_top` has base `spruce_log` and variant `top`. |
| BlockNames.GrassBlockSideExample | app/core/block_manager.py:170-183 | `grass_block_side` has base `grass_block` and variant `side`: the scan passes `_top` and stops at `_side`. |
| BlockNames.OakPlanksExample | app/core/block_manager.py:170-183 | `oak_planks` is its own base, of variant `normal`. |
| BlockManagement.LastSegment | app/core/block_manager.py:94-105 | The texture name is the part after the last ':'. It follows some ':' of the id and holds no ':' itself. An id without a ':' is its own texture name. |
| BlockManagement.LastSegmentExample | app/core/block_manager.py:94 | `minecraft:stone` has texture name `stone`. |
| BlockManagement.DropLogTop | app/core/block_manager.py:50-52 | The step keeps exactly the records whose id does not end with `_log_top`. |
| BlockManagement.BlocksOf | app/core/block_manager.py:89-96 | A base name's record list is drawn from the catalogue. |
| BlockManagement.BlocksOfMembers | app/core/block_manager.py:89-96 | `base_to_blocks[base]` holds exactly the catalogue records whose base name is `base`. |
| BlockManagement.SnocGroups | app/core/block_manager.py:91-96 | One more record adds its base name. It extends the record list and texture-name set of that base name only. |
| BlockManagement.BaseNamesAbsent | app/core/block_manager.py:88-89 | A name that is no base name has no records and no texture names (the defaultdicts' empty defaults). |
| BlockManagement.DefaultIgnored | app/core/block_manager.py:104-132 | Initialisation only ever selects base names of the catalogue. |
| BlockManagement.DefaultIgnoredMembers | app/core/block_manager.py:80-132 | A base name is ignored by default exactly when some record has it and one of three tests holds. The tests: its unprefixed name is on the default list, or some such record's texture name is, or some such record is transparent. |
| BlockManagement.ActiveFilter | app/core/block_manager.py:138-144 | The active list has no more records than the catalogue. |
| BlockManagement.ActiveFilterMembers | app/core/block_manager.py:138-144 | A record is active exactly when it is in the catalogue and its base name is not ignored. |
| BlockManagement.ActiveFilterIdempotent | app/core/block_manager.py:138-144 | Filtering twice with the same ignore set is the same as filtering once. |
| BlockManagement.ActiveFilterAppend | app/core/block_manager.py:141-144 | Filtering keeps catalogue order: it distributes over concatenation. |
| BlockManagement.ActiveFilterMonotone | app/core/block_manager.py:138-144 | Ignoring more base names leaves fewer active records. Filtering with a larger set equals filtering the result of a smaller one with it. |
| BlockManagement.GroupedKeys | app/core/block_manager.py:185-197 | The groups are exactly the base names of the catalogue. |
| BlockManagement.GroupedVariants | app/core/block_manager.py:190-193 | A group lists one variant per record with its base name, in catalogue order. Repeated variants are kept. |
| BlockManagement.GroupedEntries | app/core/block_manager.py:190-194 | Each record a group stores under a variant has that group's base name and that variant. |
| BlockManagement.GroupingStep | app/core/block_manager.py:91-96 | One iteration of the grouping loop keeps `all_base_names`, `base_to_variants` and `base_to_blocks` equal to their definitions over the records seen so far. |
| BlockManagement.DecisionIsPolicy | app/core/block_manager.py:104-132 | The three tests made on the grouping select exactly the base names of the default-ignore policy. |
| BlockManagement.LoadBlocksAsWrittenRaises | app/core/block_manager.py:46-48 | As written, `load_blocks` passes a keyword that `parse` does not declare. The call raises TypeError whatever the pack holds. |
| BlockManagement.LoadedCatalogueShape | app/core/block_manager.py:46-60 | Every loaded record is a texture file of the pack with no ignore list applied. None is a log top, and each carries its colours exactly when it is solid. |
| BlockManagement.ActiveAfterDefaults | app/core/block_manager.py:65-78 | Once initialisation has run, whatever the user adds, no transparent record is active. The matcher built with `allow_transparency=False` then keeps the whole active list. |
| BlockManagement.BlockManager.constructor | app/core/block_manager.py:26-40 | A new manager has no records, no active records, an empty user ignore set, no matcher and no group cache. Its default ignore set is read from the default ignore file. |
| BlockManagement.BlockManager.ToggleBlockIgnore | app/core/block_manager.py:150-155 | Afterwards the name is ignored exactly as requested, and every other name keeps its state. Nothing else changes. |
| BlockManagement.BlockManager.LoadBlocks | app/core/block_manager.py:42-78 | The catalogue becomes the loaded catalogue. Initialisation adds the policy's names only on the first load of a non-empty catalogue. The active list follows the ignore set. With active records the matcher is rebuilt, or the constructor's ValueError comes back and the old matcher stays. |
| BlockManagement.BlockManager.ReadCatalogue | app/core/block_manager.py:46-60 | Parsing without an ignore list, dropping log tops and analysing in place give the loaded catalogue. |
| BlockManagement.BlockManager.RebuildMatcher | app/core/block_manager.py:164-167 | With active records, a matcher over them replaces the old one, or ValueError is returned and the old matcher stays. With none, nothing changes. |
| BlockManagement.BlockManager.ResetToDefaults | app/core/block_manager.py:157-161 | The ignore set becomes exactly the policy's selection, and empty for an empty catalogue. User choices are dropped. The active list follows. |
| BlockManagement.BlockManager.ReloadWithFilters | app/core/block_manager.py:163-167 | The active list is recomputed, then the matcher is rebuilt as `RebuildMatcher` says. |
| BlockManagement.BlockManager.GetGroupedBlocks | app/core/block_manager.py:185-197 | The first call builds the groups from the current catalogue. Later calls return the cached groups even after the catalogue has changed. |
| BlockManagement.BlockManager.BuildGroups | app/core/block_manager.py:189-194 | The loop builds exactly `Grouped` of the catalogue. |
| BlockManagement.BlockManager.ApplyFilters | app/core/block_manager.py:138-144 | The active list becomes the filtered catalogue. Nothing else changes. |
| BlockManagement.BlockManager.InitializeUserIgnoredBlocks | app/core/block_manager.py:80-136 | With no records it does nothing. Otherwise it adds exactly the policy's base names and removes none. |
| BlockManagement.BlockManager.SelectDefaultIgnored | app/core/block_manager.py:104-132 | The second loop, over all base names, adds exactly the base names the policy selects. |
| BlockManagement.BlockManager.GroupByBase | app/core/block_manager.py:86-96 | The first loop builds the base names, texture names and record lists of the catalogue. |
| BlockManagement.BlockManager.Decide | app/core/block_manager.py:105-132 | The decision for one base name is the three tests, in the source's order with its early exits. |
| BlockStats.TagsVariants | test_canvas_dpg.py:119-127 | Every cell's variant is one of the seven variant names. |
| BlockStats.LookupAppend | test_canvas_dpg.py:168-169 | Storing an example for a variant does not replace an example already stored, for any variant. |
| BlockStats.CountBase | test_canvas_dpg.py:164 | A base name's count is at most the number of cells. |
| BlockStats.CountVariant | test_canvas_dpg.py:165 | A variant's count within a base name is at most that base name's count. |
| BlockStats.FirstOf | test_canvas_dpg.py:168-169 | A stored example is a cell of that base name and variant. |
| BlockStats.FirstOfEarliest | test_canvas_dpg.py:158-169 | The example is the earliest such cell in row-major order. There is none exactly when no cell has that base name and variant. |
| BlockStats.AddCellKeys | test_canvas_dpg.py:152-165 | Counting a cell adds its base name to the keys. A new base name goes to the end of the dictionary's order. |
| BlockStats.AddCellEntry | test_canvas_dpg.py:161-169 | Counting a cell raises its group's total and its variant's count by one. Every other count and every other group stay as they were. |
| BlockStats.StatsOfKeys | test_canvas_dpg.py:152-171 | The groups are exactly the base names that occur, each listed once in the dictionary's order. |
| BlockStats.StatsOfOrder | test_canvas_dpg.py:152-171 | The groups are in order of first occurrence: an earlier key occurs in some cell before any cell of a later key. |
| BlockStats.CountedAt | test_canvas_dpg.py:161-164 | A base name with a positive count occurs in some cell. |
| BlockStats.NotCounted | test_canvas_dpg.py:161-164 | A base name with count zero occurs in no cell. |
| BlockStats.StatsOfCounts | test_canvas_dpg.py:158-169 | Each group's total is the number of cells with that base name. Each variant count is the number of those cells with that variant. A variant is a key only when it occurs. |
| BlockStats.StatsOfExamples | test_canvas_dpg.py:167-169 | Each group's example of a variant is the first cell of that base name and variant in row-major order. |
| BlockStats.FirstInCount | test_canvas_dpg.py:161-169 | A stored example means its base name is counted. |
| BlockStats.SumTotalsBump | test_canvas_dpg.py:164 | Raising one group's total by one raises the sum of listed totals by the number of times that group is listed. |
| BlockStats.SumVariantsBump | test_canvas_dpg.py:165 | Raising one variant count by one raises the sum of listed counts by the number of times that variant is listed. |
| BlockStats.TotalsSum | test_canvas_dpg.py:158-171 | The group totals, summed over the dictionary's keys, equal the number of cells. |
| BlockStats.VariantsSum | test_canvas_dpg.py:158-171 | In each group, the variant counts over the seven variant names add up to the group's total. |
| BlockStats.GroupSumBump | test_canvas_dpg.py:164-165 | Counting one more cell of a variant keeps a group's variant counts adding up to its total. |
| BlockStats.GridStatsAddUp | test_canvas_dpg.py:129-171 | For a whole grid, the totals add up to the number of cells, and each group's variant counts add up to its total. |
| BlockStats.StatsOfSnoc | test_canvas_dpg.py:158-169 | One more cell is one more iteration of the loop body. |
| BlockStats.CountBlock | test_canvas_dpg.py:160-169 | The loop body tags the cell with its base name and variant, then counts it as `AddCell` says. |
| BlockStats.CountTagged | test_canvas_dpg.py:164-169 | The defaultdict updates for one tagged cell are exactly `AddCell`. |
| BlockStats.CountRow | test_canvas_dpg.py:159-169 | The inner loop counts one row after the cells already counted. |
| BlockStats.AnalyzeGridBlocks | test_canvas_dpg.py:129-171 | Without a canvas the result is empty. Otherwise it is the statistics of the grid's cells in row-major order. |
| Renderer.RowPastes | app/core/renderer.py:59-67 | Row y produces one paste per cell. |
| Renderer.GridPastes | app/core/renderer.py:58-67 | The grid produces width × height pastes. |
| Renderer.RowPastesAt | app/core/renderer.py:59-67 | The x-th paste of a row draws that cell's texture, scaled to the block size, at (x · block_size, y · block_size). |
| Renderer.GridPastesAt | app/core/renderer.py:58-67 | In the row-major paste list, entry y · width + x is the paste of cell (x, y). |
| Renderer.RenderedPaste | app/core/renderer.py:49-67 | The rendered image has width × height pastes. The paste of cell (x, y) is entry y · width + x, and it draws the cell's texture at (x · block_size, y · block_size). |
| Renderer.PasteInImage | app/core/renderer.py:53-67 | Each cell's paste lies wholly inside the (width · block_size) × (height · block_size) image. |
| Renderer.VerticalLines | app/core/renderer.py:105-111 | The vertical-line loop draws one line per iteration. |
| Renderer.HorizontalLines | app/core/renderer.py:114-120 | The horizontal-line loop draws one line per iteration. |
| Renderer.VerticalAt | app/core/renderer.py:105-111 | The i-th vertical line runs at x = i · block_size over the image's full height. |
| Renderer.HorizontalAt | app/core/renderer.py:114-120 | The j-th horizontal line runs at y = j · block_size over the image's full width. |
| Renderer.GridLinesShape | app/core/renderer.py:101-120 | The grid overlay is width + 1 vertical lines, one at every multiple of the block size from 0 to the image width, each spanning the height. Then come height + 1 horizontal lines likewise. |
| Renderer.KeysBeforeStep | app/core/renderer.py:58-61 | Visiting one more cell adds its cache key. |
| Renderer.KeysBeforeRow | app/core/renderer.py:58-59 | Finishing a row is the same as starting the next one. |
| Renderer.BlockRenderer.constructor | app/core/renderer.py:21-29 | A new renderer has the given block size, an empty cache and nothing loaded. |
| Renderer.BlockRenderer.LoadTexture | app/core/renderer.py:201-225 | The texture returned is the block's file scaled to the block size, and it is now cached under `str(texture_path)`. The file is opened only when that key was not yet cached. |
| Renderer.BlockRenderer.ClearCache | app/core/renderer.py:227-229 | The cache is empty afterwards. |
| Renderer.BlockRenderer.Render | app/core/renderer.py:31-75 | A grid with no rows or no columns raises ValueError("Empty block grid") and touches nothing. Otherwise the result is the rendered image, and every cell's texture is now cached. The invariant keeps each texture file loaded at most once while cached. |
| Renderer.BlockRenderer.PasteRow | app/core/renderer.py:59-67 | The inner loop produces the row's pastes and caches the keys of that row's cells. |
| Renderer.BlockRenderer.RenderWithGrid | app/core/renderer.py:77-127 | The rendered image with the grid lines over it, or the ValueError of `render`. |
| Renderer.BlockRenderer.GetBlockAtPosition | app/core/renderer.py:151-174 | A cell found is inside the grid, and it is the grid's cell at those coordinates. |
| Renderer.BlockRenderer.PositionInImage | app/core/renderer.py:151-174 | A pixel finds a cell exactly when it lies inside the rendered image. The cell found is the one whose paste covers the pixel. |
| Renderer.BlockRenderer.PositionOfPaste | app/core/renderer.py:168-174 | Every pixel of the square where cell (x, y) is pasted maps back to that cell: `get_block_at_position` inverts `render`'s placement. |
| Renderer.BlockRenderer.ReplaceBlock | app/core/renderer.py:176-199 | It returns True exactly for coordinates inside the grid, and then the cell holds the new block. Every other cell is unchanged. |
| CanvasGeometry.Trunc | app/ui/canvas_widget.py:554-555 | Python's `int()` on a float truncates toward zero. For non-negative x the result is the floor, and for negative x it is the ceiling. |
| CanvasGeometry.TruncOfInt | app/ui/canvas_widget.py:554-555 | Truncating a whole number gives that number. |
| CanvasGeometry.TruncIsNotFloor | app/ui/canvas_widget.py:554-555 | `int(-0.5)` is 0, while the floor of -0.5 is -1. |
| CanvasGeometry.ScreenGridRoundTrip | app/ui/canvas_widget.py:542-571 | `screen_to_grid` of `grid_to_screen` of a cell gives back that cell, for any pan and positive zoom. |
| CanvasGeometry.ScreenToGridNearOrigin | app/ui/canvas_widget.py:554-555 | Because `int()` truncates, positions up to one cell before the grid's left (top) edge fall in column (row) 0, like positions inside the first cell. |
| CanvasGeometry.ClampZoom | app/ui/canvas_widget.py:339 | The clamped zoom lies in [0.1, 32]. It equals the requested zoom inside that range, and the nearer bound outside it. |
| CanvasGeometry.AnchorKept | app/ui/canvas_widget.py:401-409 | After the pan adjustment, the grid point under the anchor is the same as before the zoom changed. |
| CanvasGeometry.ZoomInFactor | app/ui/canvas_widget.py:353-360 | Every zoom-in factor (1.3, 1.25, 1.2, 1.15 by zoom band) is above 1. |
| CanvasGeometry.ZoomOutFactor | app/ui/canvas_widget.py:367-374 | Every zoom-out factor (0.77, 0.8, 0.83, 0.87 by zoom band) lies strictly between 0 and 1. |
| CanvasGeometry.ZoomStepsMonotone | app/ui/canvas_widget.py:350-376 | From a zoom in range, zooming in never lowers the zoom and zooming out never raises it. Both stay within [0.1, 32]. |
| CanvasGeometry.FitCanExceedMaxZoom | app/ui/canvas_widget.py:378-392 | `zoom_to_fit` does not clamp: a 1×1 grid on an 800×600 widget gets zoom 35, above the maximum of 32. The next `zoom_in` then lowers the zoom to 32. |
| CanvasGeometry.FitCentres | app/ui/canvas_widget.py:378-392 | With a viewport wider and taller than the 40-pixel margin, the fitted zoom is positive. The grid fits with at least 20 pixels on each side and is centred on both axes. |
| CanvasGeometry.VisibleStart | app/ui/canvas_widget.py:724-726 | The first visible cell is never negative. |
| CanvasGeometry.VisibleEnd | app/ui/canvas_widget.py:724-728 | The last visible cell is at most the last cell of the grid. |
| CanvasGeometry.VisibleRangeCovers | app/ui/canvas_widget.py:722-728 | Culling never drops a cell that shows: a cell with any part within the view lies in the visible range. |
| CanvasGeometry.VisibleEndCovers | app/ui/canvas_widget.py:727-728 | A cell whose left (top) edge is at or before the view's right (bottom) edge is at or before the end of the range. |
| CanvasGeometry.VisibleStartCovers | app/ui/canvas_widget.py:725-726 | A cell whose right (bottom) edge is at or after the view's left (top) edge is at or after the start of the range. |
| CanvasGeometry.LineNextStep | app/ui/canvas_widget.py:506-514 | One iteration away from the end keeps the loop invariant and moves strictly closer to the end. Each axis moves by at most one, and the point changes. |
| CanvasGeometry.LineFrom | app/ui/canvas_widget.py:498-516 | From any loop state, the points still to be appended start at the current point and end at the target. |
| CanvasGeometry.LineFromUnfold | app/ui/canvas_widget.py:500-514 | The points from a state are the current point followed by the points from the next state. |
| CanvasGeometry.LineStart | app/ui/canvas_widget.py:492-498 | The initial state (`err = dx - dy` at the start point) satisfies the loop invariant. |
| CanvasGeometry.Line | app/ui/canvas_widget.py:484-516 | The line's first point is the start and its last point is the end. |
| CanvasGeometry.LineFromConnected | app/ui/canvas_widget.py:500-514 | From any loop state, consecutive points are distinct neighbours. |
| CanvasGeometry.LineAdjacent | app/ui/canvas_widget.py:484-516 | The line has no gaps: consecutive points are distinct neighbours, sides or corners. |
| CanvasGeometry.LineLoopStep | app/ui/canvas_widget.py:500-514 | At the end, the appended point completes the line. Otherwise the next state is a loop state strictly closer to the end, so the loop terminates. |
| CanvasGeometry.BresenhamLine | app/ui/canvas_widget.py:484-516 | `_bresenham_line` returns exactly `Line`. |
| CanvasGeometry.BresenhamStep | app/ui/canvas_widget.py:506-514 | The error tests of one iteration compute the next state. |
| CanvasModel.Normalise | app/ui/canvas_widget.py:256-263 | `set_grid` stores [] for a grid with no rows or an empty first row, and the grid itself otherwise. |
| CanvasModel.BlockAt | app/ui/canvas_widget.py:281-294 | `get_block_at` finds a block exactly for in-bounds coordinates, and it is the grid's cell there. |
| CanvasModel.WithCell | app/ui/canvas_widget.py:311 | Writing a cell keeps the grid's shape, puts the block at (x, y) and leaves every other cell alone. |
| CanvasModel.NextCellScreen | app/ui/canvas_widget.py:569-570 | The next cell starts exactly one scaled cell side further on screen. |
| CanvasModel.FullDrawnExact | app/ui/canvas_widget.py:722-791 | A full render draws exactly the cells of the grid that show on screen. The clamping keeps it inside the grid, and the culling drops no visible cell. |
| CanvasModel.Render | app/ui/canvas_widget.py:681-846 | A render never changes the grid, the callback log or the re-entrancy flag. |
| CanvasModel.RenderOutcome | app/ui/canvas_widget.py:681-916 | A render during a render does nothing. Otherwise it draws one frame, in dirty mode exactly when the dirty test holds, and clears the pending flag. It stamps the time and empties the dirty set, except without a grid, where it only draws "No image loaded". A full frame's range lies inside the grid. |
| CanvasModel.Schedule | app/ui/canvas_widget.py:472-482 | Scheduling never changes the grid, the callback log or the re-entrancy flag. |
| CanvasModel.ScheduleDeferred | app/ui/canvas_widget.py:477-482 | When neither the delay has passed nor the batch is full, scheduling only raises the pending flag. |
| CanvasModel.SetCell | app/ui/canvas_widget.py:311-317 | The write keeps the grid well-shaped. |
| CanvasModel.SetBlock | app/ui/canvas_widget.py:296-323 | `set_block_at` keeps the grid's shape. |
| CanvasModel.SetBlockEffect | app/ui/canvas_widget.py:296-323 | Out of bounds, or with the same block id, `set_block_at` changes nothing. Otherwise only cell (x, y) changes, and the callback fires once with (x, y, block). (x, y) joins the dirty set unless a render ran and emptied it. |
| CanvasModel.NoLostUpdate | app/ui/canvas_widget.py:681-916 | After a change to a visible cell, the cell is still dirty or the render that ran drew it. |
| CanvasModel.PaintCell | app/ui/canvas_widget.py:526-533 | One step of the line loop keeps the grid's shape. |
| CanvasModel.PaintCells | app/ui/canvas_widget.py:526-533 | The line loop keeps the grid's shape and draws nothing: no frame, no render flags. |
| CanvasModel.PaintCellsEffect | app/ui/canvas_widget.py:526-533 | After the loop, every point inside the grid holds the block's id and every other cell is unchanged. Exactly the points whose id differed joined the dirty set. |
| CanvasModel.PaintCellStep | app/ui/canvas_widget.py:527-531 | One point inside the grid holds the block's id afterwards and no other cell changes. It joins the dirty set exactly when it held another id. |
| CanvasModel.PaintCellsWritten | app/ui/canvas_widget.py:526-531 | After the loop, every point inside the grid holds the block's id. |
| CanvasModel.PaintCellsUntouched | app/ui/canvas_widget.py:526-531 | Cells not on the line are unchanged. |
| CanvasModel.PaintCellsDirty | app/ui/canvas_widget.py:526-531 | The dirty set grows by exactly the points whose id differed. |
| CanvasModel.DrawLineGrid | app/ui/canvas_widget.py:518-536 | A drawn line leaves every point of the line inside the grid holding the block's id. Every other cell is unchanged, whatever the scheduled render did. |
| CanvasModel.DrawLineDirty | app/ui/canvas_widget.py:518-536 | When the scheduled render is not due, the changed points of the line are exactly what joins the dirty set. |
| CanvasModel.SetBlocks | app/tools/brush_tool.py:72-81 | Painting cell by cell with `set_block_at` keeps the grid's shape and the re-entrancy flag. |
| CanvasModel.SetBlocksGrid | app/tools/brush_tool.py:72-81 | The renders scheduled along the way do not touch the grid. Cell-by-cell `set_block_at` leaves the same grid as the batched loop of `draw_line_between_blocks`. |
| CanvasWidget.Canvas.constructor | app/ui/canvas_widget.py:37-137 | A new canvas has the given size and an empty grid. Zoom is 1, there is no pan, and the grid overlay is on. Nothing is dirty, pending or drawn, and there is no current block and no active tool. |
| CanvasWidget.Canvas.GetBlockAt | app/ui/canvas_widget.py:281-294 | `get_block_at` is `BlockAt` of the stored grid. |
| CanvasWidget.Canvas.ScreenToGridAt | app/ui/canvas_widget.py:542-556 | `screen_to_grid` applies the one-axis truncating conversion with the canvas's pan and zoom on each axis. |
| CanvasWidget.Canvas.GridToScreenAt | app/ui/canvas_widget.py:558-571 | `grid_to_screen` gives each axis's cell corner under the current pan and zoom. |
| CanvasWidget.Canvas.SetGrid | app/ui/canvas_widget.py:246-275 | The stored grid becomes the normalised grid, and the canvas then renders. View, current block and tool are unchanged. |
| CanvasWidget.Canvas.SetBlockAt | app/ui/canvas_widget.py:296-323 | The new state is `SetBlock` of the old one, so `SetBlockEffect` and `NoLostUpdate` apply. View, current block and tool are unchanged. |
| CanvasWidget.Canvas.DrawLineBetweenBlocks | app/ui/canvas_widget.py:518-536 | The new state is `DrawLine` of the old one: the Bresenham points painted, then one scheduled render. `DrawLineGrid` and `DrawLineDirty` apply. |
| CanvasWidget.Canvas.PaintPoint | app/ui/canvas_widget.py:527-533 | One point of the line loop is `PaintCell`. |
| CanvasWidget.Canvas.SetZoom | app/ui/canvas_widget.py:329-348 | The zoom becomes the clamped request. If it did not change, nothing else does. If it did, the pan moves so the grid point under the anchor stays put, and the canvas renders. The anchor defaults to the widget's centre. |
| CanvasWidget.Canvas.AdjustPanForZoom | app/ui/canvas_widget.py:401-409 | The pan moves so that the grid point under the anchor is the same at the new zoom as at the old one. Nothing else changes. |
| CanvasWidget.Canvas.ZoomIn | app/ui/canvas_widget.py:350-362 | The zoom becomes the clamped product of the old zoom and its band's factor. If that leaves the zoom unchanged, the pan and the canvas state are unchanged. Otherwise the pan moves so the grid point under the widget's centre stays there, and one render runs, as `set_zoom` does. |
| CanvasWidget.Canvas.ZoomOut | app/ui/canvas_widget.py:364-376 | The zoom becomes the clamped product of the old zoom and its band's factor. If that leaves the zoom unchanged, the pan and the canvas state are unchanged. Otherwise the pan moves so the grid point under the widget's centre stays there, and one render runs, as `set_zoom` does. |
| CanvasWidget.Canvas.ZoomToFit | app/ui/canvas_widget.py:378-392 | Without a grid nothing changes. With one, the zoom fits the grid inside the 20-pixel margins, unclamped, the pan centres it, and the canvas renders. |
| CanvasWidget.Canvas.ResetView | app/ui/canvas_widget.py:394-399 | Zoom 1, no pan, then a render. |
| CanvasWidget.Canvas.SetCurrentBlock | app/ui/canvas_widget.py:433-440 | Only the current block changes. |
| CanvasWidget.Canvas.SetActiveTool | app/ui/canvas_widget.py:455-466 | The new tool is stored and active. A different previous tool is deactivated. Nothing else on the canvas changes. |
| CanvasWidget.Canvas.ScheduleRender | app/ui/canvas_widget.py:472-482 | The new state is `Schedule` of the old one. |
| CanvasWidget.Canvas.Render | app/ui/canvas_widget.py:681-846 | The new state is the model's `Render` of the old one, so `RenderOutcome` and `NoLostUpdate` hold of the canvas. |
| CanvasWidget.Canvas.RenderFull | app/ui/canvas_widget.py:710-846 | The full-redraw branch adds one frame with the clamped visible range and the culled cells, empties the dirty set and ends the render. The frame's overlay is on when zoom is at least 0.5 and the grid is shown. |
| CanvasWidget.Canvas.RenderDirtyBlocks | app/ui/canvas_widget.py:848-916 | Draws the dirty cells that are in the grid and on screen, then empties the dirty set and ends the render. |
| CanvasWidget.Canvas.DirtyCells | app/ui/canvas_widget.py:874-906 | The loop over the dirty set keeps exactly the dirty cells that are in the grid and on screen. |
| CanvasWidget.Canvas.VisibleCells | app/ui/canvas_widget.py:772-791 | The nested loop over the visible range keeps exactly the cells of the range that are on screen. |
| Tools.BaseTool.constructor | app/tools/base_tool.py:17-25 | A new tool stores its name and is inactive. |
| Tools.BaseTool.Activate | app/tools/base_tool.py:66-68 | The tool is active afterwards. |
| Tools.BaseTool.Deactivate | app/tools/base_tool.py:70-72 | The tool is inactive afterwards. |
| Tools.BaseTool.Cursor | app/tools/base_tool.py:74-76 | The default cursor is `default`. |
| BrushTools.NormalizedBrushSize | app/tools/brush_tool.py:22-34 | The stored size is odd and at least 1. A size below 1 becomes 1, an odd size is kept and an even size is rounded up. There is no upper bound. |
| BrushTools.NormalizedBrushSizeLeast | app/tools/brush_tool.py:22-34 | The stored size is the least odd size that is at least the request and at least 1. Storing it again keeps it. |
| BrushTools.RowPart | app/tools/brush_tool.py:55-56 | The inner loop appends one position per step. |
| BrushTools.AreaPart | app/tools/brush_tool.py:54-56 | The outer loop appends one full row of positions per step. |
| BrushTools.RowPartMembers | app/tools/brush_tool.py:55-56 | A row prefix holds exactly the cells of that row from the left edge of the footprint on. |
| BrushTools.AreaPartMembers | app/tools/brush_tool.py:54-56 | A prefix of rows holds exactly the cells of those rows within the radius horizontally. |
| BrushTools.BrushAreaExact | app/tools/brush_tool.py:40-58 | The footprint is exactly the cells within `size // 2` of the centre on both axes. It lists size × size positions. |
| BrushTools.RowPartAt | app/tools/brush_tool.py:55-56 | Position k of a row is k cells right of the footprint's left edge. |
| BrushTools.AreaPartAt | app/tools/brush_tool.py:54-56 | Column `col` of row `row` sits at index row · side + col: the positions are listed row by row, left to right. |
| BrushTools.BrushAreaRowMajor | app/tools/brush_tool.py:54-56 | Offset (dx, dy) of the footprint is at index side · (dy + r) + (dx + r). |
| BrushTools.PaintFootprint | app/tools/brush_tool.py:60-81 | A dab keeps the grid's shape and the re-entrancy flag. |
| BrushTools.FootprintEffect | app/tools/brush_tool.py:60-81 | A dab leaves every footprint cell inside the grid holding the block's id, and every other cell unchanged. Positions outside the grid are skipped. |
| BrushTools.Stroke | app/tools/brush_tool.py:104-105 | A sequence of dabs keeps the grid's shape. |
| BrushTools.StrokeEffect | app/tools/brush_tool.py:104-105 | After a stroke, every cell inside the grid that some dab covered holds the block's id. Every cell no dab covered is unchanged. |
| BrushTools.CoveredSnoc | app/tools/brush_tool.py:104-105 | A cell is covered by a stroke exactly when the stroke without its last dab covers it, or the last dab does. |
| BrushTools.DragPoints | app/tools/brush_tool.py:96-107 | The drag's points run without gaps and end at the new cell. They start at the anchor when there is one, and are just the new cell without one. |
| BrushTools.DragEffect | app/tools/brush_tool.py:89-109 | A drag paints the footprints of the anchor, of the new cell and of every point of the gap-free line between them, and nothing else. |
| BrushTools.FinishStroke | app/tools/brush_tool.py:111-116 | Releasing the button never changes the grid or the callback log. |
| BrushTools.FinishStrokeFlushes | app/tools/brush_tool.py:111-116 | Releasing the button leaves nothing pending. It empties the dirty set, unless a render is in progress or there is no grid, in which case the dirty set stays. |
| BrushTools.BrushTool.Radius | app/tools/brush_tool.py:52 | `size // 2` of an odd size is the radius r with 2r + 1 = size. |
| BrushTools.BrushTool.constructor | app/tools/brush_tool.py:17-20 | A new brush is the inactive tool `Brush`, of size 1 and without a stroke anchor. |
| BrushTools.BrushTool.SetBrushSize | app/tools/brush_tool.py:22-34 | The stored size is `NormalizedBrushSize` of the request. The anchor is unchanged. |
| BrushTools.BrushTool.GetBrushSize | app/tools/brush_tool.py:36-38 | The size returned is the stored one, odd and at least 1. |
| BrushTools.BrushTool.Activate | app/tools/base_tool.py:66-68 | Activating the brush sets its tool flag and leaves size and anchor as they were. |
| BrushTools.BrushTool.Deactivate | app/tools/base_tool.py:70-72 | Deactivating clears the flag and leaves size and anchor as they were. |
| BrushTools.BrushTool.GetBrushArea | app/tools/brush_tool.py:40-58 | The nested loop returns exactly `BrushArea` around the centre. |
| BrushTools.BrushTool.PaintAt | app/tools/brush_tool.py:60-81 | `_paint_at` changes the canvas as `PaintFootprint` with the canvas's current block. |
| BrushTools.BrushTool.OnMouseDown | app/tools/brush_tool.py:83-87 | A left press anchors the stroke at the cell and paints a dab there. Other buttons change nothing. |
| BrushTools.BrushTool.OnMouseDrag | app/tools/brush_tool.py:89-109 | With the left button and a current block, it paints a dab at every point from the anchor to the cell, then moves the anchor to the cell. Otherwise nothing changes, including the anchor. |
| BrushTools.BrushTool.OnMouseUp | app/tools/brush_tool.py:111-116 | The anchor is dropped and the canvas goes through `FinishStroke`. |
| BrushTools.BrushTool.Cursor | app/tools/brush_tool.py:118-120 | The brush's cursor is `crosshair`. |
| PickerTools.PickedBlock | app/tools/picker_tool.py:30-46 | A pick inside the grid makes the cell's block current. Outside it, the current block stays. |
| PickerTools.Notified | app/tools/picker_tool.py:30-46 | The callback is called once, with the cell's block, exactly when the cell is in the grid and a callback is set. |
| PickerTools.PickAfterSet | app/tools/picker_tool.py:30-46 | After `set_block_at` writes a block to an in-grid cell, picking that cell gives a block with its id. It gives the very block when the cell's id differed. |
| PickerTools.PickerTool.constructor | app/tools/picker_tool.py:17-19 | A new picker is the inactive tool `Eyedropper` without a callback. |
| PickerTools.PickerTool.SetOnBlockPicked | app/tools/picker_tool.py:21-28 | Sets or clears the callback. |
| PickerTools.PickerTool.PickBlock | app/tools/picker_tool.py:30-46 | The current block becomes `PickedBlock` and the callback log grows by `Notified`. The grid and render state are untouched. |
| PickerTools.PickerTool.OnMouseDown | app/tools/picker_tool.py:48-51 | Only the left button picks. |
| PickerTools.PickerTool.OnMouseDrag | app/tools/picker_tool.py:53-56 | Dragging picks continuously, left button only. |
| PickerTools.PickerTool.OnMouseUp | app/tools/picker_tool.py:58-60 | Releasing the button changes nothing. |
| PickerTools.PickerTool.Cursor | app/tools/picker_tool.py:62-64 | The picker's cursor is `hand`. |

## Left out

- Drawing on screen is not modelled. This covers Dear PyGui item creation, texture registries, handler registration, the grid overlay lines (`_draw_grid`, app/ui/canvas_widget.py:918-958) and the hover layer. A render is recorded as a frame listing the cells it would draw.
- Canvas mouse handling (`_on_click`, `_on_mouse_move`, `_handle_draw` and pan start/stop, app/ui/canvas_widget.py:1055-1148) is not modelled. The tools' own press, drag and release methods are.
- `stop_drawing`, `get_canvas_info` and the canvas's `clear_cache` (app/ui/canvas_widget.py:159-178, 1150-1172) are not modelled. They only release Dear PyGui textures and report widget state.
- Texture loading for the canvas (`_load_texture`, app/ui/canvas_widget.py:577-604) and the thread-pool pre-load with its lock and timeouts are left out. The model is single-threaded.
- Wall-clock time is the parameter `now` of `ScheduleRender` and `Render`. It is not read from a clock.
- Image decoding, resizing filters other than nearest-neighbour, pasting into a PIL image, saving the output file (app/core/renderer.py:69-73, 122-125) and `render_preview` (app/core/renderer.py:129-149, a LANCZOS thumbnail) are left out. A decoded image is the parameter `decode`. A rendered image is described by its size and its list of pastes.
- The RGB to L\*a\*b\* conversion (`_rgb_to_lab`, app/minecraft/texturepack/analyzer.py:85-90) is the parameter `toLab`. It is not computed.
- PyStr.Lower: lowers ASCII letters only. Python's full Unicode case mapping is not modelled: it can change a string's length, as `'İ'.lower()` does. A suffix equal to `.png` after Python's lowering is equal to it after ASCII lowering, so the texture-file decision is unchanged.
- Matcher.DistSq: distances are compared squared. The square root of `_delta_e` is left out because it preserves order, so the argmin and its tie-breaking are unchanged.
- Zoom, pan and Lab values are exact reals. Floating-point rounding is not modelled. The numpy mean of the `uint8` pixel array is computed in `float64`. Applying `int()` to it is modelled as the floor of the exact mean. For images of texture size, the `float64` mean truncates to that same value.
- `get_block_textures_dir` (app/minecraft/texturepack/utils.py:58-79) and all other directory discovery are not modelled. A pack is given as its recursive listing, each path paired with its `is_file()` answer. A missing ignore file is `None`.
- Renderer.BlockRenderer.constructor: requires a positive block size. The source accepts any value (default 16), but a size of 0 or less makes every paste position and cell lookup meaningless, and `get_block_at_position` would divide by zero.
- CanvasWidget.Canvas.constructor: requires the widget to be wider and taller than 40 pixels, the margin `zoom_to_fit` subtracts. The source does not check this.
- The renderer's grid is a rectangular two-dimensional array. Ragged row lists, which the source would accept if every row were at least as long as the first, are not modelled.
- Catalogue records are values. The sharing of one `BlockTexture` object between the catalogue, the matcher and the grid is not modelled. `TextureAnalyzer.Analyze` updates the records in place in an array of record values. A record updated there is not seen through other references to the same object.
- Python callbacks (`on_block_changed`, `on_block_picked`) are recorded as logs of their calls. Status text and file dialogs are not modelled.
- The statistics panel's `if block:` test is always true for a dataclass instance, so only `None` cells are skipped.

## Findings

| source | as written | input that shows it | evidently intended | confidence | as-written member | corrected member |
|---|---|---|---|---|---|---|
| app/core/block_manager.py:46-48 | `load_blocks` calls `parse(ignore_non_blocks=False)`, but `parse` (app/minecraft/texturepack/parser.py:20) declares no such argument, so the call raises TypeError | any texture pack | parse every texture file with no ignore list, as the comment at line 46 says, then drop `_log_top` textures and analyse the rest | high, not executed | BlockManagement.LoadBlocksAsWrittenRaises | BlockManagement.BlockManager.LoadBlocks |
