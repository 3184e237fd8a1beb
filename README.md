# recipe-agent core, modelled in Dafny

recipe-agent searches a recipe site for dishes that match a user's request
and writes them out as Markdown. This project models three sequential pieces
of it. The browser, the HTML parser and the LLM calls are abstract inputs.

- **Markdown renderer** (`recipe_format.dfy`, module `RecipeFormat`): `RecipeFormatter` as pure
  functions from recipe records to one Markdown string. Each block has a
  header "### i. title", an ingredient list, numbered steps and, when
  `origin_url` is truthy, a source line. Blocks are joined by `\n\n---\n\n`.
  Lemmas place every block at its offset in the document and give the layout
  of a block line by line. The function is pure by construction, so
  formatting the same list twice gives the same string.
- **Structural extractors** (`douguo_scraper.dfy`, module `DouguoScraper`): `extract_ingredients`,
  `extract_steps` and `extract_recipe_urls` are loop methods over an abstract
  DOM. The DOM is the cells of `table.retamr`, the `div.stepcont.clearfix`
  containers and the `ul.cook-list li.clearfix` items, each reduced to the
  sub-elements the code selects. Each method is proved equal to a
  specification function, and lemmas characterise that function.
- **Pipeline nodes** (`graph.dfy`, module `Graph`): the shared state dictionary is the class
  `RecipeState`. It has one `Option` field per key; `None` means the key is
  absent. Each node is a method that overwrites only its own key. Reading an
  absent key with `state[...]` raises `KeyError`; the node then returns
  `ok == false` and leaves the state unchanged. The scraper, the LLM parse
  chain and the LLM judge are function parameters that return a value or
  fail.

Shared helpers: `wrappers.dfy` (`Option`), `sequences.dfy` (the "loop and
append on success" pattern `FilterMap`, first-seen deduplication, Python's
`[:count]` slice, subsequences), and `text.dfy` (Python's `str.isspace`,
`strip`, `split`, `join`, `str(int)`, and BeautifulSoup's
`get_text(strip=True)`).

## What the code does that its comments do not say

These points follow the code, not its comments:

- `scrape_node` requests `recipe_count * 5` recipes; the comment says twice (nodes/graph.py:59).
- `filter_recipes_node` keeps a score `>= 6`; the comment says 7 (nodes/graph.py:134).
- `filter_recipes_node` judges `scraped_contents`, not `parsed_recipes`. It keeps input order and does not
  sort or truncate to `recipe_count` (`FilterDoesNotTruncate`, `FilterExample`).
- The kept records come straight from the scraper and have `url` but no `origin_url` key. So
  `final_recipe` never has a source line (`FinalRecipeBlocks`).
- `save_to_markdown_node` takes the file-name count and the table of contents from
  `parsed_recipes`. The body it writes is `final_recipe`, which is rendered from
  `filtered_recipes`, so the table of contents need not list the recipes in the body.
- The parse prompt uses a `{html_content}` variable that the call never supplies
  (nodes/graph.py:95,106-110). The parser is expected to fail on every item. `ParsedAllFail`
  shows that `parsed_recipes` is then empty and the node still completes.
- `parse_recipes_node` reads `content['content']` after the append (nodes/graph.py:116).
  Scraped records have no such key, so the `except` branch runs after the record is
  already kept. The list is the same; only the log message differs.
- In the graph that main.py builds, no node sets `filtered_recipes`. So
  `generate_final_recipe_node` finds the key absent (`ok == false` here).

## Model

| member | source | states |
|---|---|---|
| `RecipeFormat.FormatRecipesToMarkdown` | utils/recipe_format.py:7-16 | an empty list renders as exactly "暂无食谱信息。" |
| `RecipeFormat.MarkdownBlockAt` | utils/recipe_format.py:12-16 | block k of the document is recipe k formatted with number k+1, stands at its offset, opens with its header, and is followed by the separator "\n\n---\n\n" unless it is the last block, which ends the document |
| `RecipeFormat.MarkdownSnoc` | utils/recipe_format.py:12-16 | adding a recipe to a non-empty list appends the separator and one block numbered after the others; earlier blocks are unchanged |
| `RecipeFormat.MarkdownSingle` | utils/recipe_format.py:12-16 | a one-recipe list renders as its block numbered 1, with no separator |
| `RecipeFormat.BlockLayout` | utils/recipe_format.py:18-46 | a block has the header first, a blank line, the ingredients heading, one line per ingredient (or the single placeholder line), a blank line, the steps heading, step k numbered k (or "1. 未能解析出步骤信息。"), and the source line last when `origin_url` is truthy; its line count follows from that |
| `RecipeFormat.SourceLineIsLastIff` | utils/recipe_format.py:31-34 | the last line of a block is the source line if and only if `origin_url` is truthy |
| `RecipeFormat.BlockShape` | utils/recipe_format.py:18-34 | `FormatSingle` (`_format_single_recipe`), the block's lines joined by newlines, starts with "### {i+1}. {title}" and ends with "\n> 来源: [url](url)" when `origin_url` is truthy; "无标题食谱" replaces only an absent title, and an empty title is kept |
| `RecipeFormat.IngredientLines` | utils/recipe_format.py:40 | one line "* name: quantity" per ingredient, in order, with a missing key rendered as '' |
| `RecipeFormat.FormatIngredients` | utils/recipe_format.py:36-40 | an empty ingredient list gives the single line "* 未能解析出用料信息。" |
| `RecipeFormat.StepLines` | utils/recipe_format.py:46 | the steps are numbered consecutively in order, the k-th as "{first+k}. step" |
| `RecipeFormat.FormatSteps` | utils/recipe_format.py:42-46 | an empty step list gives the single line "1. 未能解析出步骤信息。"; otherwise numbering starts at 1 |
| `Text.JoinAt` | utils/recipe_format.py:16 | in `sep.join(parts)` part k stands at its offset, followed by `sep` unless last; the last part ends the string |
| `Text.JoinSnoc` | utils/recipe_format.py:34 | joining one more part appends the separator and that part |
| `Text.NatToString` | utils/recipe_format.py:21 | `str(n)` is a non-empty string of decimal digits with no leading zero |
| `Text.ParseNatToString` | nodes/graph.py:224 | reading back the decimal form of n gives n |
| `Text.Strip` | tools/douguo_scraper.py:51-52 | `str.strip()` removes exactly the leading and trailing whitespace: the result neither starts nor ends with whitespace and everything removed is whitespace |
| `Text.StripIdempotent` | tools/douguo_scraper.py:90 | stripping twice is stripping once |
| `Text.StrippedText` | tools/douguo_scraper.py:90 | `get_text(strip=True)` neither starts nor ends with whitespace, and is empty if and only if every text string is whitespace only |
| `Text.Words` | nodes/graph.py:65 | `str.split()` yields non-empty words that contain no whitespace |
| `Text.WordsOfJoin` | tools/douguo_scraper.py:142 | splitting words joined by single spaces gives back the words |
| `Text.ReplaceChar` | nodes/graph.py:240 | `replace(' ', '-')` keeps the length and changes exactly the spaces |
| `Text.AsciiLower` | nodes/graph.py:240 | `lower()` keeps the length and maps exactly the letters A-Z to a-z |
| `Sequences.FilterMapExactly` | tools/douguo_scraper.py:41-56 | a loop that appends on success yields one result per successful element, in element order, and nothing else |
| `Sequences.FilterMapAppend` | nodes/graph.py:103-120 | running the loop over two halves in turn gives the concatenation of the results |
| `Sequences.FilterMapMembers` | nodes/graph.py:138-169 | a value is in the result if and only if some element yields it |
| `Sequences.FilterMapIsSubsequence` | nodes/graph.py:160-163 | a loop that appends the element itself only deletes, keeping order |
| `Sequences.Dedup` | tools/douguo_scraper.py:131-133 | the membership-checked list has no duplicates and holds exactly the values seen |
| `Sequences.DedupIsSubsequence` | tools/douguo_scraper.py:131-133 | the deduplicated list keeps the input order |
| `Sequences.DedupFirstSeenOrder` | tools/douguo_scraper.py:131-133 | URLs come out in the order of their first occurrence |
| `Sequences.DedupOfDistinct` | tools/douguo_scraper.py:131-133 | a list without duplicates passes through unchanged |
| `Sequences.DedupIdempotent` | tools/douguo_scraper.py:131-133 | deduplicating twice is deduplicating once |
| `Sequences.PyPrefix` | tools/douguo_scraper.py:136 | `s[:count]` is a prefix of s of length min(count, len) for count >= 0; a negative count drops that many items from the end |
| `DouguoScraper.CellEntry` | tools/douguo_scraper.py:43-56 | a cell yields an entry if and only if it has both a `scname` and a `scnum` span, and the entry then has both fields |
| `DouguoScraper.ExtractIngredients` | tools/douguo_scraper.py:15-58 | no `table.retamr` gives []; otherwise one complete entry per complete cell, at most one per cell, never half-filled |
| `DouguoScraper.IngredientsComplete` | tools/douguo_scraper.py:38-58 | the entries come, in cell order, from exactly the cells that have both spans, filled with their stripped texts |
| `DouguoScraper.FirstPara` | tools/douguo_scraper.py:85 | `find('p')` gives the first paragraph child, or none when there is none |
| `DouguoScraper.StepOf` | tools/douguo_scraper.py:81-95 | a step comes only from a container with a `div.stepinfo`, is non-empty and is stripped |
| `DouguoScraper.ReadStep` | tools/douguo_scraper.py:84-91 | the text read from one info block, once its first `<p>` is removed in place, is the stripped text of the block without that paragraph (the value `StepOf` tests) |
| `DouguoScraper.ExtractSteps` | tools/douguo_scraper.py:61-97 | removes the label in place and reads the text per container; the result is the steps in container order, at most one per container, none empty |
| `DouguoScraper.StepIgnoresLabel` | tools/douguo_scraper.py:84-87 | the first `<p>` is removed before the text is read: its content never changes the step |
| `DouguoScraper.StepAfterLabel` | tools/douguo_scraper.py:84-95 | after the label the step is the stripped text of everything that follows it, later `<p>` paragraphs included (only the first one is decomposed), and a block holding nothing else yields no step |
| `DouguoScraper.ItemUrl` | tools/douguo_scraper.py:122-129 | an item contributes a URL if and only if its `cookname` link has a truthy href, and the URL is the base URL followed by that href |
| `DouguoScraper.ExtractRecipeUrls` | tools/douguo_scraper.py:99-136 | the result has no duplicates, has at most `count` URLs, is a prefix of the deduplicated item URLs, and every URL is some item's base URL plus href |
| `DouguoScraper.UrlsComeFromItems` | tools/douguo_scraper.py:122-133 | every deduplicated URL is the URL of some item with a truthy href |
| `DouguoScraper.RecipeUrlsOrder` | tools/douguo_scraper.py:131-136 | the returned URLs are in first-seen page order |
| `DouguoScraper.RecipeUrlsMonotone` | tools/douguo_scraper.py:136 | asking for more URLs extends the list without changing the first ones |
| `Graph.ScrapeLimit` | nodes/graph.py:58-59 | the scraper is asked for 5 × `recipe_count` (5 when the key is absent), never fewer than asked for |
| `Graph.KeywordsList` | nodes/graph.py:56-67 | a string is split on whitespace, a list passes through unchanged, an absent key gives [] |
| `Graph.KeywordFormsAgree` | nodes/graph.py:64-67 | a keyword list and the same words joined by spaces give the scraper the same list |
| `Graph.ParsedExactly` | nodes/graph.py:103-122 | `parsed_recipes` holds, in input order, exactly the successfully parsed items, each with `origin_url` overwritten by its source URL; at most one per scraped item |
| `Graph.ParsedAllFail` | nodes/graph.py:103-120 | a parser that always fails gives an empty `parsed_recipes`, and the node still completes |
| `Graph.FilterKeepsAccepted` | nodes/graph.py:134-171 | a recipe is kept if and only if it is scraped and `Accepted` holds of its verdict (the rule at line 160): the judge answered, with decision true and score >= 6, so a failed judge call drops it; the kept list is an order-preserving subsequence of `scraped_contents` |
| `Graph.FilterDoesNotTruncate` | nodes/graph.py:136-171 | when every recipe is accepted, all are kept: no truncation to `recipe_count` |
| `Graph.FilterExample` | nodes/graph.py:134-171 | scores 9, 4, 7, 6 (rejected), 8 keep the 9, 7 and 8 recipes in input order, unsorted |
| `Graph.AsRecords` | nodes/graph.py:187 | the formatter sees each kept record, in order, with its title, every ingredient with both its name and quantity, and no `origin_url` |
| `Graph.FinalRecipeBlocks` | nodes/graph.py:182-187 | block k of `final_recipe` is headed "### {k+1}. {scraped title}" and has no source line |
| `Graph.KeywordSlug` | nodes/graph.py:216-221 | the file name uses the first two keywords joined by '_', one keyword alone, or nothing |
| `Graph.FileNameCount` | nodes/graph.py:222-224 | `OutputFileName`: the name starts with "recipes_", and right after "recipes_{slug}_" stand the decimal digits of the number of parsed recipes, which read back to that number |
| `Graph.TocLines` | nodes/graph.py:238-240 | one contents entry per parsed recipe, numbered from 1, linking to "#{i+1}-{anchor}", with "食谱{i+1}" for a missing title |
| `Graph.FileContentShape` | nodes/graph.py:228-244 | `FileContent`: the heading, the generation time and a rule, then the contents list only when more than one recipe was parsed, then `final_recipe` as the last text of the file; one contents entry per parsed recipe |
| `Graph.RecipeState.constructor` | nodes/graph.py:42-46 | the state as the planning node leaves it: keywords, count, ingredients and requirements set, no other key |
| `Graph.RecipeState.ScrapeNode` | nodes/graph.py:53-71 | sets `scraped_contents` to the scraper's result for the normalised keywords and 5 × count; a scraper failure propagates and changes nothing |
| `Graph.RecipeState.ParseRecipesNode` | nodes/graph.py:74-123 | sets `parsed_recipes` to the successes in order; an absent `scraped_contents` fails the node and changes nothing |
| `Graph.RecipeState.FilterRecipesNode` | nodes/graph.py:127-172 | sets `filtered_recipes` to the accepted scraped recipes; an absent `user_ingredients`, `requirements` or `scraped_contents` fails the node and changes nothing |
| `Graph.RecipeState.GenerateFinalRecipeNode` | nodes/graph.py:175-190 | sets `final_recipe` to the Markdown of the kept recipes only when there are some; an empty list leaves it as it was; an absent key fails the node |
| `Graph.RecipeState.SaveToMarkdownNode` | nodes/graph.py:202-253 | a missing or empty `final_recipe`, or a failed write, sets `output_file_path` to "" and writes nothing; otherwise it writes the file content and records "output/" plus the file name |

## Left out

- `scrape_douguo` (tools/douguo_scraper.py:138-192): browser navigation, fixed waits and the saved login state. It is the `scrape` oracle of `ScrapeNode`.
- HTML parsing and CSS selection by BeautifulSoup and lxml. Their results are the abstract DOM values. Only the direct children of `div.stepinfo` are searched for the first `<p>`; a `<p>` nested deeper is not modelled.
- All LLM calls are oracles that return a value or fail: the planning node `parse_input_node`, the parse chain, the judge chain (nodes/chains.py) and the prompts they are given. The judge's reasoning text is not modelled. Neither is the ingredient string it is shown (nodes/graph.py:140).
- The LangGraph wiring, streaming and events (main.py, chatbot.py, visualize_graph.py), and `generate_query_node`, which works on another state shape.
- The web-search wrappers (tools/dashscope_web_search.py, tools/deep_search.py, nodes/search_node.py), tools/tools.py, douguo_user_state.py, scrape_recipe_debug.py and state.py.
- Console output (`print`) in every node.
- `datetime.now()` is the `timestamp` and `generatedAt` parameters. `os.makedirs` and the file write are the `writeSucceeds` flag.
- Graph.RecipeState.SaveToMarkdownNode: a failed write is modelled as writing nothing. Python may leave a partly written file behind.
- Text.AsciiLower: models `str.lower()` for ASCII letters only. Other scripts' case mappings are left out; Chinese titles have none.
- A `title` key holding JSON `null` (Python would print "None"), and `search_keywords` of a type other than string or list. Only an absent key is modelled.
- An absent `ingredients` or `steps` key is modelled as the empty list. The formatter renders both the same way.
- The path separator of `os.path.join` is taken to be "/".
- Scraped ingredients lacking a `name` or `quantity` key. `extract_ingredients` always fills both, so `ScrapedIngredient` has plain string fields. A hand-built record without them would make `filter_recipes_node` raise `KeyError` at nodes/graph.py:140, outside its `try`; the model's types exclude such a record.
