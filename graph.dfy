/** The nodes of the recipe graph. Each node reads keys of one shared state
    dictionary and overwrites others in place; here the dictionary is an
    object whose optional fields are its keys. The browser scraper, the LLM
    parser and the LLM judge are oracles passed in as functions that either
    return a value or fail (None, the exception the node catches or lets
    through). */
module Graph {
  import opened Wrappers
  import opened Text
  import opened Sequences
  import opened RecipeFormat

  /** The scraper is asked for this many times the wanted number of recipes. */
  const ScrapeFactor: int := 5
  /** `recipe_count` when the key is absent. */
  const DefaultRecipeCount: int := 1
  /** The lowest judge score a recipe may have and still be kept. */
  const MinScoreThreshold: int := 6

  /** `search_keywords`: the planner may leave a string or a list. */
  datatype Keywords = KeywordText(text: string) | KeywordList(words: seq<string>)

  /** An ingredient of a scraped record: `extract_ingredients` always fills
      both keys, so both are plain strings here. */
  datatype ScrapedIngredient = ScrapedIngredient(name: string, quantity: string)

  /** A record returned by `scrape_douguo`. */
  datatype ScrapedRecipe = ScrapedRecipe(
    url: string, title: string, ingredients: seq<ScrapedIngredient>, steps: seq<string>)

  /** The judge's verdict on one recipe (the reasoning text is not used). */
  datatype Decision = Decision(decision: bool, score: int)

  // ---------------------------------------------------------------- scrape_node

  /** The number of recipes requested from the scraper. */
  function ScrapeLimit(recipeCount: Option<int>): (n: int)
    ensures recipeCount.None? ==> n == 5
    ensures recipeCount.Some? ==> n == 5 * recipeCount.value
    ensures recipeCount.Some? && recipeCount.value >= 0 ==> recipeCount.value <= n
  {
    recipeCount.GetOr(DefaultRecipeCount) * ScrapeFactor
  }

  /** The keyword list: a string is split on whitespace, a list is used as it
      is, an absent key counts as the empty string. */
  function KeywordsList(k: Option<Keywords>): (ws: seq<string>)
    ensures k.None? ==> ws == []
    ensures k.Some? && k.value.KeywordList? ==> ws == k.value.words
    ensures k.Some? && k.value.KeywordText? ==>
      ws == Words(k.value.text) && forall j :: 0 <= j < |ws| ==> IsWord(ws[j])
  {
    match k.GetOr(KeywordText(""))
    case KeywordText(t) => Words(t)
    case KeywordList(ws) => ws
  }

  /** A list of words and the same words written as one space-separated
      string give the scraper the same keyword list. */
  lemma KeywordFormsAgree(ws: seq<string>)
    requires forall j :: 0 <= j < |ws| ==> IsWord(ws[j])
    ensures KeywordsList(Some(KeywordText(Join(" ", ws)))) == KeywordsList(Some(KeywordList(ws)))
  {
    WordsOfJoin(ws);
  }

  // ---------------------------------------------------------------- parse_recipes_node

  /** The LLM parse chain: (page title, source URL) to a recipe record, or
      failure. */
  type Parser = (string, string) -> Option<Recipe>

  /** The record kept for one scraped item: the parsed record with
      `origin_url` overwritten by the item's URL. */
  function ParseEntry(parse: Parser): ScrapedRecipe -> Option<Recipe> {
    (c: ScrapedRecipe) =>
      match parse(c.title, c.url)
      case None => None
      case Some(r) => Some(r.(originUrl := Some(c.url)))
  }

  /** `parsed_recipes` for the given scraped items. */
  function ParsedOf(contents: seq<ScrapedRecipe>, parse: Parser): seq<Recipe> {
    FilterMap(contents, ParseEntry(parse))
  }

  /** The parsed list holds, in input order, one record per item whose parse
      succeeded: the parser's record with `origin_url` set to that item's URL.
      A failure drops only its own item. */
  lemma ParsedExactly(contents: seq<ScrapedRecipe>, parse: Parser)
    ensures var r := ParsedOf(contents, parse);
      var idx := SuccessIndices(contents, ParseEntry(parse));
      && |r| == |idx| <= |contents|
      && (forall k :: 0 <= k < |r| ==>
            var c := contents[idx[k]];
            parse(c.title, c.url).Some?
            && r[k] == parse(c.title, c.url).value.(originUrl := Some(c.url))
            && r[k].originUrl == Some(c.url))
      && (forall j :: 0 <= j < |contents| && parse(contents[j].title, contents[j].url).Some?
            ==> j in idx)
  {
    FilterMapExactly(contents, ParseEntry(parse));
  }

  /** With a parser that always fails, nothing is parsed and the node still
      completes. */
  lemma ParsedAllFail(contents: seq<ScrapedRecipe>, parse: Parser)
    requires forall j :: 0 <= j < |contents| ==> parse(contents[j].title, contents[j].url).None?
    ensures ParsedOf(contents, parse) == []
  {
    FilterMapAllFail(contents, ParseEntry(parse));
  }

  // ---------------------------------------------------------------- filter_recipes_node

  /** The LLM judge: (user ingredients, other requirements, recipe) to a
      decision, or failure. */
  type Judge = (seq<string>, string, ScrapedRecipe) -> Option<Decision>

  /** A verdict keeps its recipe when the judge says yes with score >= 6; a
      failed judge call keeps nothing. */
  predicate Accepted(d: Option<Decision>) {
    d.Some? && d.value.decision && d.value.score >= MinScoreThreshold
  }

  function KeepIfAccepted(judge: Judge, ingredients: seq<string>, requirements: string)
    : ScrapedRecipe -> Option<ScrapedRecipe>
  {
    (c: ScrapedRecipe) => if Accepted(judge(ingredients, requirements, c)) then Some(c) else None
  }

  /** `filtered_recipes` for the given scraped items. */
  function FilteredOf(contents: seq<ScrapedRecipe>, judge: Judge, ingredients: seq<string>,
                      requirements: string): seq<ScrapedRecipe>
  {
    FilterMap(contents, KeepIfAccepted(judge, ingredients, requirements))
  }

  /** A recipe is kept exactly when it is scraped and the judge accepts it;
      the kept recipes are a subsequence of the scraped ones: same order, no
      sorting by score. */
  lemma FilterKeepsAccepted(contents: seq<ScrapedRecipe>, judge: Judge, ingredients: seq<string>,
                            requirements: string, c: ScrapedRecipe)
    ensures c in FilteredOf(contents, judge, ingredients, requirements)
        <==> c in contents && Accepted(judge(ingredients, requirements, c))
    ensures IsSubsequence(FilteredOf(contents, judge, ingredients, requirements), contents)
  {
    var f := KeepIfAccepted(judge, ingredients, requirements);
    FilterMapMembers(contents, f, c);
    FilterMapIsSubsequence(contents, f);
  }

  /** No truncation: when the judge accepts every recipe, all are kept,
      however many the user asked for. */
  lemma FilterDoesNotTruncate(contents: seq<ScrapedRecipe>, judge: Judge, ingredients: seq<string>,
                              requirements: string)
    requires forall j :: 0 <= j < |contents| ==> Accepted(judge(ingredients, requirements, contents[j]))
    ensures FilteredOf(contents, judge, ingredients, requirements) == contents
  {
    FilterMapKeepsAll(contents, KeepIfAccepted(judge, ingredients, requirements));
  }

  /** Five recipes scored 9, 4, 7, 6, 8 with only the fourth rejected: the
      filter keeps those scored 9, 7 and 8 in that order; it neither sorts
      them nor cuts them to a requested count. */
  lemma FilterExample(rs: seq<ScrapedRecipe>, judge: Judge, ingredients: seq<string>, requirements: string)
    requires |rs| == 5
    requires judge(ingredients, requirements, rs[0]) == Some(Decision(true, 9))
    requires judge(ingredients, requirements, rs[1]) == Some(Decision(true, 4))
    requires judge(ingredients, requirements, rs[2]) == Some(Decision(true, 7))
    requires judge(ingredients, requirements, rs[3]) == Some(Decision(false, 6))
    requires judge(ingredients, requirements, rs[4]) == Some(Decision(true, 8))
    ensures FilteredOf(rs, judge, ingredients, requirements) == [rs[0], rs[2], rs[4]]
  {
    var f := KeepIfAccepted(judge, ingredients, requirements);
    assert rs == [rs[0]] + [rs[1]] + [rs[2]] + [rs[3]] + [rs[4]];
    FilterMapAppend([rs[0]] + [rs[1]] + [rs[2]] + [rs[3]], [rs[4]], f);
    FilterMapAppend([rs[0]] + [rs[1]] + [rs[2]], [rs[3]], f);
    FilterMapAppend([rs[0]] + [rs[1]], [rs[2]], f);
    FilterMapAppend([rs[0]], [rs[1]], f);
    assert FilterMap([rs[0]], f) == [rs[0]];
    assert FilterMap([rs[1]], f) == [];
    assert FilterMap([rs[2]], f) == [rs[2]];
    assert FilterMap([rs[3]], f) == [];
    assert FilterMap([rs[4]], f) == [rs[4]];
  }

  // ---------------------------------------------------------------- generate_final_recipe_node

  /** Scraped ingredients read as formatter ingredients: both keys present. */
  function AsIngredients(ings: seq<ScrapedIngredient>): (r: seq<Ingredient>)
    ensures |r| == |ings|
    ensures forall k :: 0 <= k < |ings| ==>
      r[k] == Ingredient(Some(ings[k].name), Some(ings[k].quantity))
  {
    seq(|ings|, k requires 0 <= k < |ings| => Ingredient(Some(ings[k].name), Some(ings[k].quantity)))
  }

  /** A scraped record read as a formatter record: it has a title and no
      `origin_url` key (its URL is under `url`). */
  function AsRecord(c: ScrapedRecipe): Recipe {
    Recipe(Some(c.title), AsIngredients(c.ingredients), c.steps, None)
  }

  function AsRecords(cs: seq<ScrapedRecipe>): (rs: seq<Recipe>)
    ensures |rs| == |cs|
    ensures forall k :: 0 <= k < |cs| ==> rs[k] == AsRecord(cs[k])
  {
    if cs == [] then [] else [AsRecord(cs[0])] + AsRecords(cs[1..])
  }

  /** The Markdown that becomes `final_recipe`. */
  function FinalRecipeOf(filtered: seq<ScrapedRecipe>): string {
    FormatRecipesToMarkdown(AsRecords(filtered))
  }

  /** Block k of the final recipe is the k-th kept recipe, headed with its
      scraped title and numbered k+1; since scraped records carry no
      `origin_url`, no block gets a source line. */
  lemma FinalRecipeBlocks(filtered: seq<ScrapedRecipe>, k: nat)
    requires k < |filtered|
    ensures var rs := AsRecords(filtered);
      && !HasSource(rs[k])
      && Header(k, rs[k]) == "### " + NatToString(k + 1) + ". " + filtered[k].title
      && |BlockLines(k, rs[k])| == 5 + (if filtered[k].ingredients == [] then 1 else |filtered[k].ingredients|)
                                     + (if filtered[k].steps == [] then 1 else |filtered[k].steps|)
      && var o := JoinOffset(BlockSeparator, Blocks(rs), k);
         o <= |FinalRecipeOf(filtered)| && Header(k, rs[k]) <= FinalRecipeOf(filtered)[o..]
  {
    var rs := AsRecords(filtered);
    BlockLayout(k, rs[k]);
    MarkdownBlockAt(rs, k);
  }

  // ---------------------------------------------------------------- save_to_markdown_node

  /** The keyword part of the file name: the first two keywords joined by '_'. */
  function KeywordSlug(k: Option<Keywords>): (slug: string)
    ensures var ws := KeywordsList(k);
      && (|ws| == 0 ==> slug == "")
      && (|ws| == 1 ==> slug == ws[0])
      && (|ws| >= 2 ==> slug == ws[0] + "_" + ws[1])
  {
    var ws := KeywordsList(k);
    var first := PyPrefix(ws, 2);
    assert |ws| >= 2 ==> Join("_", first) == ws[0] + "_" + Join("_", [ws[1]]) by {
      if |ws| >= 2 {
        assert first == [ws[0], ws[1]] && first[1..] == [ws[1]];
      }
    }
    Join("_", first)
  }

  /** The file name, with the count of parsed recipes and the timestamp
      (`%Y%m%d_%H%M%S`, supplied by the caller). */
  function OutputFileName(k: Option<Keywords>, parsedCount: nat, timestamp: string): string {
    "recipes_" + KeywordSlug(k) + "_" + NatToString(parsedCount) + "份_" + timestamp + ".md"
  }

  const OutputDir: string := "output"

  function OutputFilePath(k: Option<Keywords>, parsedCount: nat, timestamp: string): string {
    OutputDir + "/" + OutputFileName(k, parsedCount, timestamp)
  }

  /** The recipe count can be read back from the file name. */
  lemma FileNameCount(k: Option<Keywords>, parsedCount: nat, timestamp: string)
    ensures var name := OutputFileName(k, parsedCount, timestamp);
      var start := |"recipes_" + KeywordSlug(k) + "_"|;
      var digits := NatToString(parsedCount);
      && start + |digits| <= |name|
      && name[start..start + |digits|] == digits
      && ParseDecimal(name[start..start + |digits|]) == parsedCount
      && "recipes_" <= name
  {
    var pre := "recipes_" + KeywordSlug(k) + "_";
    var digits := NatToString(parsedCount);
    var name := OutputFileName(k, parsedCount, timestamp);
    assert name == pre + digits + ("份_" + timestamp + ".md");
    assert name[|pre|..|pre| + |digits|] == digits;
    ParseNatToString(parsedCount);
  }

  /** The title a table-of-contents entry shows: the parsed title, or
      "食谱{i+1}" when the record has none. */
  function TocTitle(i: nat, r: Recipe): string {
    r.title.GetOr("食谱" + NatToString(i + 1))
  }

  function TocLine(i: nat, r: Recipe): string {
    var title := TocTitle(i, r);
    NatToString(i + 1) + ". [" + title + "](#" + NatToString(i + 1) + "-"
      + AsciiLower(ReplaceChar(title, ' ', '-')) + ")\n"
  }

  /** The entries for `parsed`, numbered from `first` + 1. */
  function TocLines(parsed: seq<Recipe>, first: nat): (lines: seq<string>)
    ensures |lines| == |parsed|
    ensures forall k :: 0 <= k < |parsed| ==> lines[k] == TocLine(first + k, parsed[k])
  {
    if parsed == [] then [] else [TocLine(first, parsed[0])] + TocLines(parsed[1..], first + 1)
  }

  function Concat(parts: seq<string>): string {
    if parts == [] then [] else parts[0] + Concat(parts[1..])
  }

  const FilePreambleHead: string := "# 食谱搜索结果\n\n"

  function TableOfContents(parsed: seq<Recipe>): string {
    "## 目录\n\n" + Concat(TocLines(parsed, 0)) + "\n---\n\n"
  }

  /** What the node writes: a heading, the generation time (supplied by the
      caller), a rule, the table of contents when more than one recipe was
      parsed, then the final recipe. */
  function FileContent(generatedAt: string, parsed: seq<Recipe>, finalRecipe: string): string {
    FilePreambleHead + "**生成时间**: " + generatedAt + "\n\n" + "---\n\n"
      + (if |parsed| > 1 then TableOfContents(parsed) else "")
      + finalRecipe
  }

  /** The file ends with the final recipe and starts with the heading; the
      table of contents stands between them only when more than one recipe
      was parsed, with one entry per parsed recipe. */
  lemma FileContentShape(generatedAt: string, parsed: seq<Recipe>, finalRecipe: string)
    ensures var content := FileContent(generatedAt, parsed, finalRecipe);
      var preamble := FilePreambleHead + "**生成时间**: " + generatedAt + "\n\n" + "---\n\n";
      && FilePreambleHead <= content
      && |finalRecipe| <= |content| && content[|content| - |finalRecipe|..] == finalRecipe
      && (|parsed| <= 1 ==> content == preamble + finalRecipe)
      && (|parsed| > 1 ==> content == preamble + TableOfContents(parsed) + finalRecipe)
      && |TocLines(parsed, 0)| == |parsed|
  {
    var content := FileContent(generatedAt, parsed, finalRecipe);
    var preamble := FilePreambleHead + "**生成时间**: " + generatedAt + "\n\n" + "---\n\n";
    var toc := if |parsed| > 1 then TableOfContents(parsed) else "";
    assert content == FilePreambleHead + ("**生成时间**: " + generatedAt + "\n\n" + "---\n\n" + toc + finalRecipe);
    assert content == (preamble + toc) + finalRecipe;
  }

  // ---------------------------------------------------------------- the shared state

  /** The state dictionary; `None` is an absent key. */
  class RecipeState {
    var searchKeywords: Option<Keywords>
    var recipeCount: Option<int>
    var userIngredients: Option<seq<string>>
    var requirements: Option<string>
    var scrapedContents: Option<seq<ScrapedRecipe>>
    var parsedRecipes: Option<seq<Recipe>>
    var filteredRecipes: Option<seq<ScrapedRecipe>>
    var finalRecipe: Option<string>
    var outputFilePath: Option<string>

    /** The state as the planning node leaves it. */
    constructor (keywords: Keywords, count: int, ingredients: seq<string>, otherRequirements: string)
      ensures searchKeywords == Some(keywords) && recipeCount == Some(count)
      ensures userIngredients == Some(ingredients) && requirements == Some(otherRequirements)
      ensures scrapedContents == None && parsedRecipes == None && filteredRecipes == None
      ensures finalRecipe == None && outputFilePath == None
    {
      searchKeywords, recipeCount := Some(keywords), Some(count);
      userIngredients, requirements := Some(ingredients), Some(otherRequirements);
      scrapedContents, parsedRecipes, filteredRecipes := None, None, None;
      finalRecipe, outputFilePath := None, None;
    }

    /** `scrape_node`: asks the scraper for five times the wanted count with
      the normalised keyword list. A scraper failure propagates (ok false)
      and leaves the state as it was. */
    method ScrapeNode(scrape: (seq<string>, int) -> Option<seq<ScrapedRecipe>>) returns (ok: bool)
      modifies this`scrapedContents
      ensures var result := scrape(KeywordsList(searchKeywords), ScrapeLimit(recipeCount));
        && ok == result.Some?
        && (ok ==> scrapedContents == result)
        && (!ok ==> scrapedContents == old(scrapedContents))
    {
      var keywordsList := KeywordsList(searchKeywords);
      var limit := ScrapeLimit(recipeCount);
      var result := scrape(keywordsList, limit);
      if result.None? {
        return false;
      }
      scrapedContents := result;
      return true;
    }

    /** `parse_recipes_node`: parses each scraped item in turn, keeps the
      successes with `origin_url` overwritten, and skips failures. Without
      `scraped_contents` the node fails (ok false) and changes nothing. */
    method ParseRecipesNode(parse: Parser) returns (ok: bool)
      modifies this`parsedRecipes
      ensures ok == scrapedContents.Some?
      ensures ok ==> parsedRecipes == Some(ParsedOf(scrapedContents.value, parse))
      ensures !ok ==> parsedRecipes == old(parsedRecipes)
    {
      if scrapedContents.None? {
        return false;
      }
      var contents := scrapedContents.value;
      var parsed: seq<Recipe> := [];
      var i := 0;
      while i < |contents|
        invariant 0 <= i <= |contents|
        invariant parsed == FilterMap(contents[..i], ParseEntry(parse))
      {
        var content := contents[i];
        assert contents[..i + 1][..i] == contents[..i];
        var result := parse(content.title, content.url);
        if result.Some? {
          var recipe := result.value.(originUrl := Some(content.url));
          parsed := parsed + [recipe];
        }
        i := i + 1;
      }
      assert contents[..i] == contents;
      parsedRecipes := Some(parsed);
      return true;
    }

    /** `filter_recipes_node`: asks the judge about each scraped item (not the
      parsed ones) and keeps those accepted with score >= 6, in order; a judge
      failure drops only that item. Without `user_ingredients`, `requirements`
      or `scraped_contents` the node fails and changes nothing. */
    method FilterRecipesNode(judge: Judge) returns (ok: bool)
      modifies this`filteredRecipes
      ensures ok == (userIngredients.Some? && requirements.Some? && scrapedContents.Some?)
      ensures ok ==> filteredRecipes == Some(FilteredOf(scrapedContents.value, judge,
                                                       userIngredients.value, requirements.value))
      ensures !ok ==> filteredRecipes == old(filteredRecipes)
    {
      if userIngredients.None? || requirements.None? || scrapedContents.None? {
        return false;
      }
      var ingredients := userIngredients.value;
      var others := requirements.value;
      var contents := scrapedContents.value;
      var good: seq<ScrapedRecipe> := [];
      var i := 0;
      while i < |contents|
        invariant 0 <= i <= |contents|
        invariant good == FilterMap(contents[..i], KeepIfAccepted(judge, ingredients, others))
      {
        var recipe := contents[i];
        assert contents[..i + 1][..i] == contents[..i];
        var verdict := judge(ingredients, others, recipe);
        if verdict.Some? && verdict.value.decision && verdict.value.score >= MinScoreThreshold {
          good := good + [recipe];
        }
        i := i + 1;
      }
      assert contents[..i] == contents;
      filteredRecipes := Some(good);
      return true;
    }

    /** `generate_final_recipe_node`: formats the kept recipes into
      `final_recipe`; with none kept it returns without touching the state.
      Without `filtered_recipes` the node fails and changes nothing. */
    method GenerateFinalRecipeNode() returns (ok: bool)
      modifies this`finalRecipe
      ensures ok == filteredRecipes.Some?
      ensures ok && filteredRecipes.value != [] ==> finalRecipe == Some(FinalRecipeOf(filteredRecipes.value))
      ensures !ok || filteredRecipes.value == [] ==> finalRecipe == old(finalRecipe)
    {
      if filteredRecipes.None? {
        return false;
      }
      if filteredRecipes.value == [] {
        return true;
      }
      finalRecipe := Some(FinalRecipeOf(filteredRecipes.value));
      return true;
    }

    /** `save_to_markdown_node`: with a non-empty `final_recipe`, writes the
      file and records its path; otherwise, or when writing fails, records
      the empty path. `timestamp` and `generatedAt` stand for the two clock
      readings, `writeSucceeds` for the file system. Returns what was
      written. */
    method SaveToMarkdownNode(timestamp: string, generatedAt: string, writeSucceeds: bool)
      returns (written: Option<string>)
      modifies this`outputFilePath
      ensures var hasFinal := finalRecipe.Some? && finalRecipe.value != [];
        var parsed := parsedRecipes.GetOr([]);
        && (hasFinal && writeSucceeds ==>
              && outputFilePath == Some(OutputFilePath(searchKeywords, |parsed|, timestamp))
              && written == Some(FileContent(generatedAt, parsed, finalRecipe.value)))
        && (!(hasFinal && writeSucceeds) ==> outputFilePath == Some("") && written == None)
    {
      if finalRecipe.None? || finalRecipe.value == [] {
        outputFilePath := Some("");
        return None;
      }
      var parsed := parsedRecipes.GetOr([]);
      var path := OutputFilePath(searchKeywords, |parsed|, timestamp);
      var content := FileContent(generatedAt, parsed, finalRecipe.value);
      if !writeSucceeds {
        outputFilePath := Some("");
        return None;
      }
      outputFilePath := Some(path);
      return Some(content);
    }
  }
}
