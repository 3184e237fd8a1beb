/** RecipeFormatter: renders recipe records as one Markdown document. Pure:
    every member is a function of its arguments. */
module RecipeFormat {
  import opened Wrappers
  import opened Text

  /** An ingredient record; either key may be absent. */
  datatype Ingredient = Ingredient(name: Option<string>, quantity: Option<string>)

  /** A recipe record as the formatter reads it. An absent `ingredients` or
      `steps` key is read as the empty list, which renders the same way. */
  datatype Recipe = Recipe(
    title: Option<string>,
    ingredients: seq<Ingredient>,
    steps: seq<string>,
    originUrl: Option<string>)

  const NoRecipes: string := "暂无食谱信息。"
  const BlockSeparator: string := "\n\n---\n\n"
  const UntitledRecipe: string := "无标题食谱"
  const IngredientsHeading: string := "**- 用料清单 -**"
  const StepsHeading: string := "**- 烹饪步骤 -**"
  const NoIngredients: string := "* 未能解析出用料信息。"
  const NoSteps: string := "1. 未能解析出步骤信息。"

  /** The header line of the recipe at 0-based position `index`. */
  function Header(index: nat, r: Recipe): string {
    "### " + NatToString(index + 1) + ". " + r.title.GetOr(UntitledRecipe)
  }

  function IngredientLine(ing: Ingredient): string {
    "* " + ing.name.GetOr("") + ": " + ing.quantity.GetOr("")
  }

  /** One line per ingredient, in order. */
  function IngredientLines(ings: seq<Ingredient>): (lines: seq<string>)
    ensures |lines| == |ings|
    ensures forall k :: 0 <= k < |ings| ==> lines[k] == IngredientLine(ings[k])
  {
    if ings == [] then [] else [IngredientLine(ings[0])] + IngredientLines(ings[1..])
  }

  /** The ingredient lines, or the placeholder line for an empty list. */
  function FormatIngredients(ings: seq<Ingredient>): (lines: seq<string>)
    ensures ings == [] ==> lines == [NoIngredients]
    ensures ings != [] ==> lines == IngredientLines(ings)
  {
    if ings == [] then [NoIngredients] else IngredientLines(ings)
  }

  function StepLine(number: nat, step: string): string {
    NatToString(number) + ". " + step
  }

  /** The steps numbered consecutively from `first`. */
  function StepLines(steps: seq<string>, first: nat): (lines: seq<string>)
    ensures |lines| == |steps|
    ensures forall k :: 0 <= k < |steps| ==> lines[k] == StepLine(first + k, steps[k])
  {
    if steps == [] then [] else [StepLine(first, steps[0])] + StepLines(steps[1..], first + 1)
  }

  /** The steps numbered 1..n, or the placeholder line for an empty list. */
  function FormatSteps(steps: seq<string>): (lines: seq<string>)
    ensures steps == [] ==> lines == [NoSteps]
    ensures steps != [] ==> lines == StepLines(steps, 1)
  {
    if steps == [] then [NoSteps] else StepLines(steps, 1)
  }

  /** Whether the source line is written: `origin_url` present and truthy. */
  predicate HasSource(r: Recipe) {
    r.originUrl.Some? && r.originUrl.value != ""
  }

  function SourceLine(url: string): string {
    "\n> 来源: [" + url + "](" + url + ")"
  }

  /** The lines of one recipe block, before they are joined with newlines. */
  function BlockLines(index: nat, r: Recipe): (lines: seq<string>)
  {
    [Header(index, r), "", IngredientsHeading]
    + FormatIngredients(r.ingredients)
    + ["", StepsHeading]
    + FormatSteps(r.steps)
    + (if HasSource(r) then [SourceLine(r.originUrl.value)] else [])
  }

  /** Layout of a block: the header first; one line per ingredient (or the
      placeholder) after the ingredients heading; step k+1 numbered k+1 after
      the steps heading (or the placeholder); the source line last, and only
      when `origin_url` is truthy. */
  lemma BlockLayout(index: nat, r: Recipe)
    ensures var lines := BlockLines(index, r);
      var ni := if r.ingredients == [] then 1 else |r.ingredients|;
      var ns := if r.steps == [] then 1 else |r.steps|;
      && |lines| == 5 + ni + ns + (if HasSource(r) then 1 else 0)
      && lines[0] == Header(index, r)
      && lines[1] == ""
      && lines[2] == IngredientsHeading
      && lines[3 + ni] == ""
      && lines[4 + ni] == StepsHeading
      && (r.ingredients == [] ==> lines[3] == NoIngredients)
      && (forall k :: 0 <= k < |r.ingredients| ==> lines[3 + k] == IngredientLine(r.ingredients[k]))
      && (r.steps == [] ==> lines[5 + ni] == NoSteps)
      && (forall k :: 0 <= k < |r.steps| ==> lines[5 + ni + k] == StepLine(k + 1, r.steps[k]))
      && (HasSource(r) ==> lines[|lines| - 1] == SourceLine(r.originUrl.value))
  {
  }

  /** The last line of a block is the source line exactly when `origin_url`
      is truthy: every other candidate for the last line is a numbered step,
      which starts with a digit, while the source line starts with a newline. */
  lemma {:induction false} SourceLineIsLastIff(index: nat, r: Recipe)
    ensures var lines := BlockLines(index, r);
      |lines| > 0 && lines[|lines| - 1] != []
      && (HasSource(r) <==> lines[|lines| - 1][0] == '\n')
  {
    BlockLayout(index, r);
    var lines := BlockLines(index, r);
    if !HasSource(r) {
      if r.steps == [] {
        assert lines[|lines| - 1] == NoSteps;
      } else {
        var k := |r.steps| - 1;
        var ni := if r.ingredients == [] then 1 else |r.ingredients|;
        assert lines[|lines| - 1] == lines[5 + ni + k] == StepLine(k + 1, r.steps[k]);
        assert IsDigits(NatToString(k + 1));
      }
    }
  }

  /** One recipe block: its lines joined by newlines. */
  function FormatSingle(index: nat, r: Recipe): string {
    Join("\n", BlockLines(index, r))
  }

  /** A block starts with its header line and, when `origin_url` is truthy,
      ends with the source line. An empty title is kept as it is; the
      placeholder title is used only when the key is absent. */
  lemma {:induction false} BlockShape(index: nat, r: Recipe)
    ensures Header(index, r) <= FormatSingle(index, r)
    ensures HasSource(r) ==>
      var s := FormatSingle(index, r);
      var u := SourceLine(r.originUrl.value);
      |u| <= |s| && s[|s| - |u|..] == u
    ensures r.title == None ==> Header(index, r) == "### " + NatToString(index + 1) + ". " + UntitledRecipe
    ensures r.title == Some("") ==> Header(index, r) == "### " + NatToString(index + 1) + ". "
  {
    var lines := BlockLines(index, r);
    BlockLayout(index, r);
    JoinAt("\n", lines, 0);
    var s := FormatSingle(index, r);
    assert s[0..|lines[0]|] == lines[0];
    if HasSource(r) {
      var last := |lines| - 1;
      JoinAt("\n", lines, last);
      var o := JoinOffset("\n", lines, last);
      assert s[o..o + |lines[last]|] == lines[last];
      assert s[|s| - |lines[last]|..] == s[o..o + |lines[last]|];
    }
  }

  /** The blocks of `recipes`, block k numbered k+1. */
  function Blocks(recipes: seq<Recipe>): seq<string> {
    seq(|recipes|, k requires 0 <= k < |recipes| => FormatSingle(k, recipes[k]))
  }

  /** `format_recipes_to_markdown`: the fixed message for an empty list,
      otherwise the blocks joined by the block separator. */
  function FormatRecipesToMarkdown(recipes: seq<Recipe>): (md: string)
    ensures recipes == [] ==> md == NoRecipes
  {
    if recipes == [] then NoRecipes else Join(BlockSeparator, Blocks(recipes))
  }

  /** Block k is recipe k formatted with number k+1; it stands at its offset
      in the document and is followed by the separator unless it is the last. */
  lemma {:induction false} MarkdownBlockAt(recipes: seq<Recipe>, k: nat)
    requires k < |recipes|
    ensures var md := FormatRecipesToMarkdown(recipes);
      var blocks := Blocks(recipes);
      var o := JoinOffset(BlockSeparator, blocks, k);
      var b := FormatSingle(k, recipes[k]);
      && o + |b| <= |md|
      && md[o..o + |b|] == b
      && Header(k, recipes[k]) <= md[o..]
      && (k + 1 < |recipes| ==>
            o + |b| + |BlockSeparator| <= |md|
            && md[o + |b|..o + |b| + |BlockSeparator|] == BlockSeparator)
      && (k + 1 == |recipes| ==> o + |b| == |md|)
  {
    var blocks := Blocks(recipes);
    JoinAt(BlockSeparator, blocks, k);
    BlockShape(k, recipes[k]);
    var md := FormatRecipesToMarkdown(recipes);
    assert md == Join(BlockSeparator, blocks);
    var o := JoinOffset(BlockSeparator, blocks, k);
    var b := FormatSingle(k, recipes[k]);
    assert blocks[k] == b;
    PrefixInside(Header(k, recipes[k]), b, md, o);
  }

  lemma PrefixInside(h: string, b: string, s: string, o: nat)
    requires h <= b && o + |b| <= |s| && s[o..o + |b|] == b
    ensures h <= s[o..]
  {
    assert forall i :: 0 <= i < |h| ==> s[o..][i] == s[o..o + |b|][i];
  }

  /** Adding one recipe to a non-empty list appends the separator and one
      block numbered after the others; the earlier blocks do not change. */
  lemma {:induction false} MarkdownSnoc(recipes: seq<Recipe>, r: Recipe)
    requires recipes != []
    ensures FormatRecipesToMarkdown(recipes + [r])
         == FormatRecipesToMarkdown(recipes) + BlockSeparator + FormatSingle(|recipes|, r)
  {
    var bs := Blocks(recipes);
    var b := FormatSingle(|recipes|, r);
    var all := Blocks(recipes + [r]);
    forall k | 0 <= k < |all| ensures all[k] == (bs + [b])[k] {
      if k < |recipes| {
        assert (recipes + [r])[k] == recipes[k];
      }
    }
    assert all == bs + [b];
    JoinSnoc(BlockSeparator, bs, b);
  }

  /** A single recipe renders as its block with number 1 and no separator. */
  lemma MarkdownSingle(r: Recipe)
    ensures FormatRecipesToMarkdown([r]) == FormatSingle(0, r)
    ensures Header(0, r) <= FormatRecipesToMarkdown([r])
  {
    BlockShape(0, r);
  }
}
