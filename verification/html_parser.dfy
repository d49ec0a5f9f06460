/**
 * The recipe-page support of the browser: deciding from a URL string which
 * recipe site a page belongs to, and extracting the table of ingredients
 * ("materials") from the page's document.
 *
 * The HTML document is abstract: instead of a DOM and CSS selectors, a
 * `Document` carries what the selectors of each site pick out of the page,
 * in document order.
 */
module HtmlParser {
  import opened Options
  import opened Substrings
  import opened Trimming
  import opened FilterMaps

  // Site indices returned by `CanBeParsed`.
  const IndexNone: int := -1
  const IndexCookpad: int := 0
  const IndexChefgohan: int := 1

  // Domain names of the supported recipe sites.
  const DomainCookpad: string := "cookpad.com"
  const DomainChefgohan: string := "chefgohan.gnavi.co.jp"

  /** A URL string containing this is a Cookpad recipe page. */
  const CookpadPattern: string := DomainCookpad + "/recipe/"
  /** A URL string containing this is a Chefgohan recipe page. */
  const ChefgohanPattern: string := DomainChefgohan + "/detail/"

  /**
   * One node selected by `#ingredients_list > .ingredient_row` on a Cookpad
   * page: the text of its first `.name` node and of its first `.amount`
   * node, `None` where there is no such node or it has no text.
   */
  datatype IngredientRow = IngredientRow(name: Option<string>, amount: Option<string>)

  /** The texts of the `td` cells of one `tr`, `None` for a cell without text. */
  type TableRow = seq<Option<string>>

  /** The `tr` rows of one `tbody` of `table.table_recipes` on a Chefgohan page. */
  type TableBody = seq<TableRow>

  /** A fetched and parsed page, seen through the selectors of both sites. */
  datatype Document = Document(ingredientRows: seq<IngredientRow>, recipeTableBodies: seq<TableBody>)

  /**
   * The site index of a URL. The patterns are searched for anywhere in the
   * whole string, and the Cookpad pattern is tried first.
   */
  function CanBeParsed(url: string): (r: int)
    ensures r == IndexNone || r == IndexCookpad || r == IndexChefgohan
    ensures r == IndexCookpad <==> Occurs(url, CookpadPattern)
    ensures r == IndexChefgohan <==> !Occurs(url, CookpadPattern) && Occurs(url, ChefgohanPattern)
    ensures r == IndexNone <==> !Occurs(url, CookpadPattern) && !Occurs(url, ChefgohanPattern)
  {
    ContainsIffOccurs(url, CookpadPattern);
    ContainsIffOccurs(url, ChefgohanPattern);
    if Contains(url, CookpadPattern) then IndexCookpad
    else if Contains(url, ChefgohanPattern) then IndexChefgohan
    else IndexNone
  }

  /**
   * Any string with the Cookpad pattern in it is a Cookpad page, whatever
   * surrounds the pattern: a different host, a query string, a fragment,
   * or the Chefgohan pattern as well.
   */
  lemma CookpadAnywhere(before: string, after: string)
    ensures CanBeParsed(before + CookpadPattern + after) == IndexCookpad
  {
    ContainsInContext(before, CookpadPattern, after);
    ContainsIffOccurs(before + CookpadPattern + after, CookpadPattern);
  }

  /** Any string with the Chefgohan pattern and without the Cookpad one is a Chefgohan page. */
  lemma ChefgohanAnywhere(before: string, after: string)
    requires !Occurs(before + ChefgohanPattern + after, CookpadPattern)
    ensures CanBeParsed(before + ChefgohanPattern + after) == IndexChefgohan
  {
    ContainsInContext(before, ChefgohanPattern, after);
    ContainsIffOccurs(before + ChefgohanPattern + after, ChefgohanPattern);
  }

  /** The host of the URL plays no part: a Cookpad path in a query string is enough. */
  lemma HostIsNotChecked()
    ensures CanBeParsed("https://example.com/?next=cookpad.com/recipe/1") == IndexCookpad
  {
    assert "https://example.com/?next=" + CookpadPattern + "1"
        == "https://example.com/?next=cookpad.com/recipe/1";
    CookpadAnywhere("https://example.com/?next=", "1");
  }

  /**
   * The materials table of a page: the extractor of the site the URL
   * belongs to, applied to the document; empty when the fetched data could
   * not be parsed as HTML (`None`) or the URL is not a supported site. A
   * failed fetch is not a value here: the program traps on it, whatever
   * the URL.
   */
  function ParseMaterial(url: string, doc: Option<Document>): (r: seq<seq<string>>)
    ensures doc.None? ==> r == []
    ensures !Occurs(url, CookpadPattern) && !Occurs(url, ChefgohanPattern) ==> r == []
    ensures doc.Some? && Occurs(url, CookpadPattern)
            ==> r == CookpadMaterials(doc.value.ingredientRows)
    ensures doc.Some? && !Occurs(url, CookpadPattern) && Occurs(url, ChefgohanPattern)
            ==> r == ChefgohanMaterials(doc.value.recipeTableBodies)
    ensures forall e :: e in r ==> |e| >= 2
  {
    match doc
    case None => []
    case Some(d) =>
      CookpadShape(d.ingredientRows);
      ChefgohanShape(d.recipeTableBodies);
      var index := CanBeParsed(url);
      if index == IndexCookpad then CookpadMaterials(d.ingredientRows)
      else if index == IndexChefgohan then ChefgohanMaterials(d.recipeTableBodies)
      else []
  }

  // ---------------------------------------------------------------------
  // Cookpad
  // ---------------------------------------------------------------------

  /** A Cookpad row is used only when it has both a name and an amount. */
  predicate HasNameAndAmount(row: IngredientRow)
  {
    row.name.Some? && row.amount.Some?
  }

  /** The entry of a Cookpad row: its name and amount with newlines trimmed. */
  function CookpadEntry(row: IngredientRow): (r: Option<seq<string>>)
    ensures r.Some? <==> row.name.Some? && row.amount.Some?
    ensures r.Some? ==> |r.value| == 2
    ensures r.Some? ==> IsTrimOf(r.value[0], row.name.value, IsNewline)
    ensures r.Some? ==> IsTrimOf(r.value[1], row.amount.value, IsNewline)
  {
    if HasNameAndAmount(row) then
      TrimIsTrimOf(row.name.value, IsNewline);
      TrimIsTrimOf(row.amount.value, IsNewline);
      Some([Trim(row.name.value, IsNewline), Trim(row.amount.value, IsNewline)])
    else None
  }

  /** The materials table of a Cookpad page. */
  function CookpadMaterials(rows: seq<IngredientRow>): seq<seq<string>>
  {
    FilterMap(rows, CookpadEntry)
  }

  /**
   * Every Cookpad entry is a pair of a name and an amount, neither of which
   * starts or ends with a newline, and there are no more entries than rows.
   */
  lemma CookpadShape(rows: seq<IngredientRow>)
    ensures |CookpadMaterials(rows)| <= |rows|
    ensures forall e :: e in CookpadMaterials(rows) ==>
              |e| == 2 && IsTrimmed(e[0], IsNewline) && IsTrimmed(e[1], IsNewline)
  {
    FilterMapSoundAll(rows, CookpadEntry);
  }

  /**
   * A Cookpad row contributes exactly one entry, its trimmed name and
   * amount, when it has both, and nothing otherwise; the entry sits between
   * the entries of the rows before it and those of the rows after it.
   */
  lemma CookpadRowSplice(before: seq<IngredientRow>, row: IngredientRow, after: seq<IngredientRow>)
    ensures CookpadMaterials(before + [row] + after)
         == CookpadMaterials(before)
          + (if HasNameAndAmount(row)
             then [[Trim(row.name.value, IsNewline), Trim(row.amount.value, IsNewline)]]
             else [])
          + CookpadMaterials(after)
  {
    FilterMapSplice(before, row, after, CookpadEntry);
  }

  /** The table has one entry per row that has both a name and an amount. */
  lemma CookpadLength(rows: seq<IngredientRow>)
    ensures |CookpadMaterials(rows)| == Count(rows, HasNameAndAmount)
  {
    FilterMapLength(rows, CookpadEntry, HasNameAndAmount);
  }

  /** The loop of the Cookpad extractor, over the selected rows. */
  method ParseMaterialForCookpad(doc: Document) returns (arr: seq<seq<string>>)
    ensures arr == CookpadMaterials(doc.ingredientRows)
  {
    arr := [];
    var rows := doc.ingredientRows;
    for n := 0 to |rows|
      invariant arr == CookpadMaterials(rows[..n])
    {
      var node := rows[n];
      if node.name.None? || node.amount.None? {
        FilterMapStepNone(rows, n, CookpadEntry);
        continue;
      }
      var entry := [Trim(node.name.value, IsNewline), Trim(node.amount.value, IsNewline)];
      FilterMapStepSome(rows, n, CookpadEntry, entry);
      arr := arr + [entry];
    }
    assert rows[..|rows|] == rows;
  }

  /**
   * The two sites trim different sets: a Cookpad text keeps a leading
   * space, while a Chefgohan cell loses it; both lose a trailing newline.
   */
  lemma TrimSetsDiffer()
    ensures CookpadEntry(IngredientRow(Some(" 塩\n"), Some("少々"))) == Some([" 塩", "少々"])
    ensures TrimCell(Some(" 塩\n")) == Some("塩")
  {
    var text := " 塩\n";
    // Newlines only: the leading space stays, the trailing newline goes.
    CutIsTrim(text, 0, 2, IsNewline);
    assert text[0..2] == " 塩";
    CutIsTrim("少々", 0, 2, IsNewline);
    assert "少々"[0..2] == "少々";
    // White space and newlines: both ends go.
    CutIsTrim(text, 1, 2, IsWhitespaceOrNewline);
    assert text[1..2] == "塩";
  }

  // ---------------------------------------------------------------------
  // Chefgohan
  // ---------------------------------------------------------------------

  /** A cell with text contributes that text with white space and newlines trimmed. */
  function TrimCell(cell: Option<string>): (r: Option<string>)
    ensures r.Some? <==> cell.Some?
    ensures r.Some? ==> IsTrimOf(r.value, cell.value, IsWhitespaceOrNewline)
  {
    match cell
    case Some(text) =>
      TrimIsTrimOf(text, IsWhitespaceOrNewline);
      Some(Trim(text, IsWhitespaceOrNewline))
    case None => None
  }

  /** A cell counts when it has text. */
  predicate HasText(cell: Option<string>)
  {
    cell.Some?
  }

  /** The trimmed texts of the cells of a row that have text, in cell order. */
  function CellTexts(row: TableRow): seq<string>
  {
    FilterMap(row, TrimCell)
  }

  /** No cell text starts or ends with white space or a newline. */
  lemma CellTextsTrimmed(row: TableRow)
    ensures forall t :: t in CellTexts(row) ==> IsTrimmed(t, IsWhitespaceOrNewline)
  {
    FilterMapSoundAll(row, TrimCell);
  }

  /** A Chefgohan row is kept, as its cell texts, when at least two cells have text. */
  function ChefgohanEntry(row: TableRow): Option<seq<string>>
  {
    var texts := CellTexts(row);
    if |texts| >= 2 then Some(texts) else None
  }

  /** The materials table of a Chefgohan page: every tbody, in order, row by row. */
  function ChefgohanMaterials(bodies: seq<TableBody>): seq<seq<string>>
  {
    FilterMap(Concat(bodies), ChefgohanEntry)
  }

  /**
   * Every Chefgohan entry has at least two cell texts, none of which starts
   * or ends with white space or a newline, and there are no more entries
   * than rows.
   */
  lemma ChefgohanShape(bodies: seq<TableBody>)
    ensures |ChefgohanMaterials(bodies)| <= |Concat(bodies)|
    ensures forall e :: e in ChefgohanMaterials(bodies) ==>
              |e| >= 2 && forall t :: t in e ==> IsTrimmed(t, IsWhitespaceOrNewline)
  {
    var rows := Concat(bodies);
    FilterMapSoundAll(rows, ChefgohanEntry);
    forall i | 0 <= i < |rows|
      ensures forall t :: t in CellTexts(rows[i]) ==> IsTrimmed(t, IsWhitespaceOrNewline)
    {
      CellTextsTrimmed(rows[i]);
    }
  }

  /**
   * A cell with text contributes its trimmed text at its own position and a
   * cell without text contributes nothing.
   */
  lemma CellSplice(before: TableRow, cell: Option<string>, after: TableRow)
    ensures CellTexts(before + [cell] + after)
         == CellTexts(before)
          + (if cell.Some? then [Trim(cell.value, IsWhitespaceOrNewline)] else [])
          + CellTexts(after)
  {
    FilterMapSplice(before, cell, after, TrimCell);
  }

  /** A row is kept exactly when at least two of its cells have text. */
  lemma ChefgohanRowKept(row: TableRow)
    ensures ChefgohanEntry(row).Some? <==> Count(row, HasText) >= 2
    ensures ChefgohanEntry(row).Some? ==> |ChefgohanEntry(row).value| == Count(row, HasText)
  {
    FilterMapLength(row, TrimCell, HasText);
  }

  /**
   * Within a tbody, a row contributes its cell texts at its own position
   * when at least two cells have text, and nothing otherwise.
   */
  lemma ChefgohanRowSplice(before: TableBody, row: TableRow, after: TableBody)
    ensures FilterMap(before + [row] + after, ChefgohanEntry)
         == FilterMap(before, ChefgohanEntry)
          + (if Count(row, HasText) >= 2 then [CellTexts(row)] else [])
          + FilterMap(after, ChefgohanEntry)
  {
    FilterMapSplice(before, row, after, ChefgohanEntry);
    ChefgohanRowKept(row);
  }

  /** Appending a tbody appends the rows it keeps. */
  lemma ChefgohanBodySnoc(bodies: seq<TableBody>, body: TableBody)
    ensures ChefgohanMaterials(bodies + [body])
         == ChefgohanMaterials(bodies) + FilterMap(body, ChefgohanEntry)
  {
    ConcatSnoc(bodies, body);
    FilterMapAppend(Concat(bodies), body, ChefgohanEntry);
  }

  /** The rows of a tbody come after those of the tbodies before it and before those after it. */
  lemma ChefgohanBodySplice(before: seq<TableBody>, body: TableBody, after: seq<TableBody>)
    ensures ChefgohanMaterials(before + [body] + after)
         == ChefgohanMaterials(before) + FilterMap(body, ChefgohanEntry) + ChefgohanMaterials(after)
  {
    ConcatAppend(before + [body], after);
    ConcatSnoc(before, body);
    FilterMapAppend(Concat(before) + body, Concat(after), ChefgohanEntry);
    FilterMapAppend(Concat(before), body, ChefgohanEntry);
  }

  /** The outer loop of the Chefgohan extractor, over the selected tbodies. */
  method ParseMaterialForChefgohan(doc: Document) returns (arr: seq<seq<string>>)
    ensures arr == ChefgohanMaterials(doc.recipeTableBodies)
  {
    arr := [];
    var bodies := doc.recipeTableBodies;
    for b := 0 to |bodies|
      invariant arr == ChefgohanMaterials(bodies[..b])
    {
      var found := CollectRowMaterials(bodies[b]);
      assert bodies[..b + 1] == bodies[..b] + [bodies[b]];
      ChefgohanBodySnoc(bodies[..b], bodies[b]);
      arr := arr + found;
    }
    assert bodies[..|bodies|] == bodies;
  }

  /** The middle loop of the Chefgohan extractor, over the rows of one tbody. */
  method CollectRowMaterials(rows: TableBody) returns (found: seq<seq<string>>)
    ensures found == FilterMap(rows, ChefgohanEntry)
  {
    found := [];
    for n := 0 to |rows|
      invariant found == FilterMap(rows[..n], ChefgohanEntry)
    {
      var materials := CollectCellTexts(rows[n]);
      if |materials| >= 2 {
        FilterMapStepSome(rows, n, ChefgohanEntry, materials);
        found := found + [materials];
      } else {
        FilterMapStepNone(rows, n, ChefgohanEntry);
      }
    }
    assert rows[..|rows|] == rows;
  }

  /** The innermost loop of the Chefgohan extractor, over the cells of one row. */
  method CollectCellTexts(cells: TableRow) returns (materials: seq<string>)
    ensures materials == CellTexts(cells)
  {
    materials := [];
    for c := 0 to |cells|
      invariant materials == CellTexts(cells[..c])
    {
      if cells[c].None? {
        FilterMapStepNone(cells, c, TrimCell);
        continue;
      }
      var text := Trim(cells[c].value, IsWhitespaceOrNewline);
      FilterMapStepSome(cells, c, TrimCell, text);
      materials := materials + [text];
    }
    assert cells[..|cells|] == cells;
  }
}
