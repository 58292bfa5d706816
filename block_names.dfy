/**
 * Directional-suffix handling shared by the block manager (app/core/block_manager.py) and
 * the statistics panel (test_canvas_dpg.py): the base name of a block id is the id without
 * the first listed directional suffix it ends with, and the variant is that suffix without
 * its underscore, or "normal".
 */
module BlockNames {
  import opened Wrappers

  const DirectionalSuffixes: seq<string> := ["_top", "_side", "_front", "_back", "_bottom", "_end"]

  /** The variant names `get_block_variant` can return. */
  const VariantNames: set<string> := {"normal", "top", "side", "front", "back", "bottom", "end"}

  /** `str.endswith`. */
  predicate EndsWith(s: string, suffix: string)
  {
    |suffix| <= |s| && s[|s| - |suffix|..] == suffix
  }

  /** Index of the first suffix, from position `k` of the list on, that `id` ends with. */
  function MatchingSuffixFrom(id: string, k: nat): (r: Option<nat>)
    requires k <= |DirectionalSuffixes|
    ensures r.Some? ==> k <= r.value < |DirectionalSuffixes|
    decreases |DirectionalSuffixes| - k
  {
    if k == |DirectionalSuffixes| then None
    else if EndsWith(id, DirectionalSuffixes[k]) then Some(k)
    else MatchingSuffixFrom(id, k + 1)
  }

  /** The scan from `k` stops at the first suffix `id` ends with, and finds none exactly when
      `id` ends with none of them. */
  lemma {:induction false} MatchingSuffixFromFirst(id: string, k: nat)
    requires k <= |DirectionalSuffixes|
    ensures var r := MatchingSuffixFrom(id, k);
      && (r.Some? ==>
            && EndsWith(id, DirectionalSuffixes[r.value])
            && forall j :: k <= j < r.value ==> !EndsWith(id, DirectionalSuffixes[j]))
      && (r.None? ==> forall j :: k <= j < |DirectionalSuffixes| ==> !EndsWith(id, DirectionalSuffixes[j]))
    decreases |DirectionalSuffixes| - k
  {
    if k < |DirectionalSuffixes| && !EndsWith(id, DirectionalSuffixes[k]) {
      MatchingSuffixFromFirst(id, k + 1);
      var r := MatchingSuffixFrom(id, k + 1);
      assert MatchingSuffixFrom(id, k) == r;
      var stop := if r.Some? then r.value else |DirectionalSuffixes|;
      forall j | k <= j < stop
        ensures !EndsWith(id, DirectionalSuffixes[j])
      {
      }
    }
  }

  /** The suffix the scan in `get_base_block_name` / `get_block_variant` stops at. */
  function MatchingSuffix(id: string): (r: Option<nat>)
    ensures r.Some? ==> r.value < |DirectionalSuffixes|
  {
    MatchingSuffixFrom(id, 0)
  }

  /** The scan stops at the first listed suffix `id` ends with, or finds none when `id` ends
      with none of them. */
  lemma MatchingSuffixFirst(id: string)
    ensures var r := MatchingSuffix(id);
      && (r.Some? ==>
            && EndsWith(id, DirectionalSuffixes[r.value])
            && forall j :: 0 <= j < r.value ==> !EndsWith(id, DirectionalSuffixes[j]))
      && (r.None? ==> forall j :: 0 <= j < |DirectionalSuffixes| ==> !EndsWith(id, DirectionalSuffixes[j]))
  {
    MatchingSuffixFromFirst(id, 0);
  }

  /** `get_base_block_name`. */
  function BaseBlockName(blockId: string): (base: string)
    ensures |base| <= |blockId| && base == blockId[..|base|]
  {
    match MatchingSuffix(blockId)
    case Some(k) => blockId[..|blockId| - |DirectionalSuffixes[k]|]
    case None => blockId
  }

  /** `get_block_variant`. */
  function BlockVariant(blockId: string): (variant: string)
    ensures variant in VariantNames
  {
    match MatchingSuffix(blockId)
    case Some(k) => DirectionalSuffixes[k][1..]
    case None => "normal"
  }

  /** Every suffix is an underscore followed by a variant name other than "normal". */
  lemma SuffixShape(k: nat)
    requires k < |DirectionalSuffixes|
    ensures var suffix := DirectionalSuffixes[k];
      |suffix| > 1 && suffix == "_" + suffix[1..] && suffix[1..] != "normal"
  {
    var suffix := DirectionalSuffixes[k];
    assert suffix[0] == '_' && suffix[1] != 'n';
  }

  /** The variant is "normal" exactly when the base name is the whole id; otherwise the id is
      the base name, an underscore and the variant. */
  lemma BaseAndVariant(blockId: string)
    ensures BlockVariant(blockId) == "normal" <==> BaseBlockName(blockId) == blockId
    ensures BlockVariant(blockId) != "normal" ==>
      blockId == BaseBlockName(blockId) + "_" + BlockVariant(blockId)
  {
    MatchingSuffixFirst(blockId);
    match MatchingSuffix(blockId)
    case Some(k) =>
      var suffix := DirectionalSuffixes[k];
      SuffixShape(k);
      assert blockId == blockId[..|blockId| - |suffix|] + suffix;
    case None =>
  }

  /** An id that ends with none of the suffixes is its own base name, of variant "normal". */
  lemma NoSuffixNoChange(blockId: string)
    requires forall j :: 0 <= j < |DirectionalSuffixes| ==> !EndsWith(blockId, DirectionalSuffixes[j])
    ensures BaseBlockName(blockId) == blockId && BlockVariant(blockId) == "normal"
  {
    MatchingSuffixFirst(blockId);
  }

  lemma SpruceLogTopExample()
    ensures BaseBlockName("spruce_log_top") == "spruce_log"
    ensures BlockVariant("spruce_log_top") == "top"
  {
    var id := "spruce_log_top";
    assert id[|id| - 4..] == "_top";
    assert MatchingSuffix(id) == Some(0);
    assert id[..|id| - 4] == "spruce_log";
  }

  lemma GrassBlockSideExample()
    ensures BaseBlockName("grass_block_side") == "grass_block"
    ensures BlockVariant("grass_block_side") == "side"
  {
    var id := "grass_block_side";
    assert id[|id| - 4..] == "side";
    assert id[|id| - 5..] == "_side";
    assert MatchingSuffixFrom(id, 1) == Some(1);
    assert id[..|id| - 5] == "grass_block";
  }

  lemma OakPlanksExample()
    ensures BaseBlockName("oak_planks") == "oak_planks"
    ensures BlockVariant("oak_planks") == "normal"
  {
    var id := "oak_planks";
    assert id[|id| - 1] == 's';
    forall j | 0 <= j < |DirectionalSuffixes|
      ensures !EndsWith(id, DirectionalSuffixes[j])
    {
      var sfx := DirectionalSuffixes[j];
      assert sfx[|sfx| - 1] != 's';
    }
    NoSuffixNoChange(id);
  }
}
