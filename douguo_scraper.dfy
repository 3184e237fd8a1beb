/** The structural extractors of DouguoRecipeScraper, over an abstract DOM.
    HTML parsing and CSS selection are BeautifulSoup's; what they return is
    given here as values: the cells of `table.retamr`, the step containers,
    the list items, each reduced to the sub-elements the extractors select. */
module DouguoScraper {
  import opened Wrappers
  import opened Text
  import opened Sequences
  import opened RecipeFormat

  /** `self.base_url`, set by the constructor and never changed. */
  const BaseUrl: string := "https://www.douguo.com"

  /** A selected element, given by its text strings in document order. */
  datatype Span = Span(strings: seq<string>)

  /** A `<td>` of the ingredients table: its first `span.scname` and its
      first `span.scnum`, when present. */
  datatype Cell = Cell(nameSpan: Option<Span>, quantitySpan: Option<Span>)

  /** A child of `div.stepinfo`: a `<p>` element or any other node. */
  datatype InfoNode = Para(strings: seq<string>) | Other(strings: seq<string>)

  /** A `div.stepcont.clearfix` container: the children of its first
      `div.stepinfo`, when it has one. */
  datatype StepContainer = StepContainer(info: Option<seq<InfoNode>>)

  /** An `a.cookname` link with its `href` attribute, when present. */
  datatype Link = Link(href: Option<string>)

  /** A `li.clearfix` item of `ul.cook-list`: its first `a.cookname`. */
  datatype ListItem = ListItem(link: Option<Link>)

  // ---------------------------------------------------------------- ingredients

  /** The entry a cell yields: only a cell with both spans yields one, and
      then both fields are filled with the spans' stripped text. */
  function CellEntry(c: Cell): (e: Option<Ingredient>)
    ensures e.Some? <==> c.nameSpan.Some? && c.quantitySpan.Some?
    ensures e.Some? ==> e.value.name.Some? && e.value.quantity.Some?
  {
    if c.nameSpan.Some? && c.quantitySpan.Some? then
      Some(Ingredient(Some(StrippedText(c.nameSpan.value.strings)),
                      Some(StrippedText(c.quantitySpan.value.strings))))
    else None
  }

  /** What `extract_ingredients` returns for a page whose first
      `table.retamr` has the given cells (None: no such table). */
  function IngredientsOf(table: Option<seq<Cell>>): seq<Ingredient> {
    match table
    case None => []
    case Some(cells) => FilterMap(cells, CellEntry)
  }

  /** `extract_ingredients`: visits the cells in order and appends an entry
      for each cell that has both a name and a quantity span. */
  method ExtractIngredients(table: Option<seq<Cell>>) returns (ingredients: seq<Ingredient>)
    ensures ingredients == IngredientsOf(table)
    ensures table.None? ==> ingredients == []
    ensures table.Some? ==> |ingredients| <= |table.value|
    ensures forall k :: 0 <= k < |ingredients| ==>
      ingredients[k].name.Some? && ingredients[k].quantity.Some?
  {
    ingredients := [];
    if table.None? {
      return;
    }
    var cells := table.value;
    var i := 0;
    while i < |cells|
      invariant 0 <= i <= |cells|
      invariant ingredients == FilterMap(cells[..i], CellEntry)
    {
      var cell := cells[i];
      FilterMapStep(cells, i, CellEntry);
      if cell.nameSpan.Some? && cell.quantitySpan.Some? {
        var name := StrippedText(cell.nameSpan.value.strings);
        var quantity := StrippedText(cell.quantitySpan.value.strings);
        ingredients := ingredients + [Ingredient(Some(name), Some(quantity))];
      }
      i := i + 1;
    }
    assert cells[..i] == cells;
    IngredientsComplete(cells);
  }

  /** Every entry comes, in cell order, from a cell that has both spans, and
      every such cell yields one: partial cells are dropped, never emitted
      half-filled. */
  lemma IngredientsComplete(cells: seq<Cell>)
    ensures var r := FilterMap(cells, CellEntry);
      var idx := SuccessIndices(cells, CellEntry);
      && |r| == |idx|
      && (forall k :: 0 <= k < |r| ==>
            cells[idx[k]].nameSpan.Some? && cells[idx[k]].quantitySpan.Some?
            && r[k] == Ingredient(Some(StrippedText(cells[idx[k]].nameSpan.value.strings)),
                                  Some(StrippedText(cells[idx[k]].quantitySpan.value.strings))))
      && (forall j :: 0 <= j < |cells| && cells[j].nameSpan.Some? && cells[j].quantitySpan.Some?
            ==> j in idx)
  {
    FilterMapExactly(cells, CellEntry);
  }

  // ---------------------------------------------------------------- steps

  /** Position of the first `<p>` child (what `find('p')` returns). */
  function FirstPara(nodes: seq<InfoNode>): (i: Option<nat>)
    ensures i.Some? ==>
      && i.value < |nodes| && nodes[i.value].Para?
      && forall j :: 0 <= j < i.value ==> !nodes[j].Para?
    ensures i.None? ==> forall j :: 0 <= j < |nodes| ==> !nodes[j].Para?
  {
    if nodes == [] then None
    else if nodes[0].Para? then Some(0)
    else
      match FirstPara(nodes[1..])
      case None => None
      case Some(j) => Some(j + 1)
  }

  /** The text strings of `nodes`, in document order. */
  function AllStrings(nodes: seq<InfoNode>): seq<string> {
    if nodes == [] then [] else nodes[0].strings + AllStrings(nodes[1..])
  }

  /** The children left after the first `<p>` is decomposed. */
  function WithoutFirstPara(nodes: seq<InfoNode>): seq<InfoNode> {
    match FirstPara(nodes)
    case None => nodes
    case Some(i) => nodes[..i] + nodes[i + 1..]
  }

  /** The step a container yields: the stripped text of its info block once
      the label paragraph is gone, and nothing when that text is empty or the
      container has no info block. */
  function StepOf(c: StepContainer): (s: Option<string>)
    ensures s.Some? ==>
      && c.info.Some? && s.value != []
      && !IsSpace(s.value[0]) && !IsSpace(s.value[|s.value| - 1])
  {
    match c.info
    case None => None
    case Some(nodes) =>
      var text := StrippedText(AllStrings(WithoutFirstPara(nodes)));
      if text != [] then Some(text) else None
  }

  /** The body of `extract_steps` for one info block: the first `<p>` is
      removed in place, then the remaining text is read and stripped. */
  method ReadStep(info: seq<InfoNode>) returns (text: string)
    ensures text == StrippedText(AllStrings(WithoutFirstPara(info)))
  {
    var nodes := info;
    var first := FirstPara(nodes);
    if first.Some? {
      nodes := nodes[..first.value] + nodes[first.value + 1..];
    }
    assert nodes == WithoutFirstPara(info);
    text := StrippedText(AllStrings(nodes));
  }

  /** `extract_steps`: visits the containers in order; for each one with an
      info block it removes the first `<p>` in place, reads the stripped text
      and appends it when it is not empty. */
  method ExtractSteps(containers: seq<StepContainer>) returns (steps: seq<string>)
    ensures steps == FilterMap(containers, StepOf)
    ensures |steps| <= |containers|
    ensures forall k :: 0 <= k < |steps| ==> steps[k] != []
  {
    steps := [];
    var i := 0;
    while i < |containers|
      invariant 0 <= i <= |containers|
      invariant steps == FilterMap(containers[..i], StepOf)
    {
      var container := containers[i];
      FilterMapStep(containers, i, StepOf);
      if container.info.Some? {
        var text := ReadStep(container.info.value);
        if text != [] {
          steps := steps + [text];
        }
      }
      i := i + 1;
    }
    assert containers[..i] == containers;
    FilterMapExactly(containers, StepOf);
  }

  /** The label is removed before the text is read: whatever the first `<p>`
      says, the step is the same. */
  lemma StepIgnoresLabel(nodes: seq<InfoNode>, labelText: seq<string>)
    requires FirstPara(nodes).Some?
    ensures var i := FirstPara(nodes).value;
      StepOf(StepContainer(Some(nodes[i := Para(labelText)]))) == StepOf(StepContainer(Some(nodes)))
  {
    var i := FirstPara(nodes).value;
    var nodes' := nodes[i := Para(labelText)];
    var r := FirstPara(nodes');
    assert nodes'[i].Para?;
    assert forall j :: 0 <= j < i ==> nodes'[j] == nodes[j];
    assert r == Some(i);
    assert nodes'[..i] == nodes[..i];
    assert nodes'[i + 1..] == nodes[i + 1..];
  }

  /** A container whose info block is the label paragraph followed by other
      nodes yields the stripped text of those nodes, and no step at all when
      that text is empty (a block holding only the label, say). Only the
      first `<p>` is removed: a later paragraph in `rest` keeps its text. */
  lemma StepAfterLabel(labelText: seq<string>, rest: seq<InfoNode>)
    ensures StepOf(StepContainer(Some([Para(labelText)] + rest)))
         == var t := StrippedText(AllStrings(rest)); if t == [] then None else Some(t)
  {
    var nodes := [Para(labelText)] + rest;
    assert FirstPara(nodes) == Some(0);
    assert nodes[..0] + nodes[1..] == rest;
  }

  // ---------------------------------------------------------------- recipe URLs

  /** The absolute URL an item contributes: the base URL followed by the
      `cookname` link's `href`, when the link exists and the href is truthy. */
  function ItemUrl(item: ListItem): (u: Option<string>)
    ensures u.Some? <==> item.link.Some? && item.link.value.href.Some? && item.link.value.href.value != []
    ensures u.Some? ==> u.value == BaseUrl + item.link.value.href.value
  {
    match item.link
    case Some(Link(Some(href))) => if href != [] then Some(BaseUrl + href) else None
    case _ => None
  }

  /** What `extract_recipe_urls` returns: the item URLs, duplicates after the
      first dropped, cut with Python's `[:count]`. */
  function RecipeUrlsOf(items: seq<ListItem>, count: int): seq<string> {
    PyPrefix(Dedup(FilterMap(items, ItemUrl)), count)
  }

  /** `extract_recipe_urls`: visits the items in order, appends each item's
      absolute URL unless it was seen already, and returns the first `count`. */
  method ExtractRecipeUrls(items: seq<ListItem>, count: int) returns (urls: seq<string>)
    ensures urls == RecipeUrlsOf(items, count)
    ensures NoDuplicates(urls)
    ensures count >= 0 ==> |urls| <= count
    ensures urls <= Dedup(FilterMap(items, ItemUrl))
    ensures forall k :: 0 <= k < |urls| ==>
      exists j :: 0 <= j < |items| && ItemUrl(items[j]) == Some(urls[k])
  {
    var found: seq<string> := [];
    var i := 0;
    while i < |items|
      invariant 0 <= i <= |items|
      invariant found == Dedup(FilterMap(items[..i], ItemUrl))
    {
      var item := items[i];
      ghost var seen := FilterMap(items[..i], ItemUrl);
      assert items[..i + 1][..i] == items[..i];
      assert items[..i + 1][i] == item;
      if item.link.Some? && item.link.value.href.Some? && item.link.value.href.value != [] {
        var absolute := BaseUrl + item.link.value.href.value;
        assert FilterMap(items[..i + 1], ItemUrl) == seen + [absolute];
        assert (seen + [absolute])[..|seen|] == seen;
        if absolute !in found {
          found := found + [absolute];
        }
      } else {
        assert FilterMap(items[..i + 1], ItemUrl) == seen;
      }
      i := i + 1;
    }
    assert items[..i] == items;
    urls := PyPrefix(found, count);
    PrefixKeepsNoDuplicates(found, urls);
    UrlsComeFromItems(items);
  }

  /** Every candidate URL is the URL of some item. */
  lemma UrlsComeFromItems(items: seq<ListItem>)
    ensures forall u :: u in Dedup(FilterMap(items, ItemUrl)) ==>
      exists j :: 0 <= j < |items| && ItemUrl(items[j]) == Some(u)
  {
    var c := FilterMap(items, ItemUrl);
    FilterMapExactly(items, ItemUrl);
    var idx := SuccessIndices(items, ItemUrl);
    forall u | u in Dedup(c)
      ensures exists j :: 0 <= j < |items| && ItemUrl(items[j]) == Some(u)
    {
      var k :| 0 <= k < |c| && c[k] == u;
      assert ItemUrl(items[idx[k]]) == Some(u);
    }
  }

  /** The URLs keep the order in which the page first lists them. */
  lemma RecipeUrlsOrder(items: seq<ListItem>, count: int, i: nat, j: nat)
    requires i < j < |RecipeUrlsOf(items, count)|
    ensures var urls := RecipeUrlsOf(items, count);
      var c := FilterMap(items, ItemUrl);
      FirstIndex(c, urls[i]) < FirstIndex(c, urls[j])
  {
    var c := FilterMap(items, ItemUrl);
    DedupFirstSeenOrder(c, i, j);
  }

  /** The result is a prefix of the deduplicated URLs, so asking for more
      never changes the ones already returned. */
  lemma RecipeUrlsMonotone(items: seq<ListItem>, count: int, more: int)
    requires 0 <= count <= more
    ensures RecipeUrlsOf(items, count) <= RecipeUrlsOf(items, more)
  {
  }
}
