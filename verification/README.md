# Recipe-page support of SpeechRecognitionBrowser, in Dafny

SpeechRecognitionBrowser is a voice-controlled iOS web browser. When the user
opens a recipe page, its `HTMLParser` builds a "materials" table (the list of
ingredients and their amounts). The app is meant to use this table for
spoken questions about quantities, but that code is not among the files
modelled here. This project models the parser:

- **Site classification** (`canBeParsed`). A URL string maps to a site index:
  `IndexCookpad` (0) when it contains `cookpad.com/recipe/`, otherwise
  `IndexChefgohan` (1) when it contains `chefgohan.gnavi.co.jp/detail/`,
  otherwise `IndexNone` (-1).
- **Dispatch** (`parseMaterial`). The document is handed to the extractor of the
  URL's site. The result is empty when the fetched data could not be parsed as
  HTML, or when the URL belongs to no supported site. A failed fetch is not an
  empty result: the program traps on it, for supported and unsupported URLs
  alike.
- **Cookpad extraction** (`parseMaterial4Cookpad`). One `[name, amount]` entry
  is produced per ingredient row that has both a name and an amount, with
  newlines trimmed from both ends.
- **Chefgohan extraction** (`parseMaterial4Chefgohan`). For every `tbody`,
  then every `tr` in it, the texts of the `td` cells that have text are
  collected, with white space and newlines trimmed. The row is kept when at
  least two cells had text.

The HTML document is abstract. A `Document` holds what each site's CSS
selectors pick out of the page, in document order:

- for Cookpad, a sequence of `IngredientRow(name, amount)` with optional texts;
- for Chefgohan, a sequence of table bodies, each a sequence of rows, each a
  sequence of optional cell texts.

Files:

| file | module | contents |
|---|---|---|
| `options.dfy` | `Options` | `Option<T>`, Swift's `T?` |
| `substrings.dfy` | `Substrings` | executable substring search `Contains`, its declarative partner `Occurs`, and the lemma that they agree |
| `trimming.dfy` | `Trimming` | `trimmingCharacters(in:)` as `Trim(s, inSet)` over a character predicate; Foundation's `newlines` and `whitespacesAndNewlines` sets; uniqueness, idempotence and set-widening lemmas |
| `filter_map.dfy` | `FilterMaps` | the order-preserving "skip or append" shape shared by both extractors (`FilterMap`) and `Concat`, with their laws |
| `html_parser.dfy` | `HtmlParser` | the site constants, `CanBeParsed`, `ParseMaterial`, both extractors as functions, and methods that follow the Swift loops and are proved equal to those functions |

## Model

| member | source | states |
|---|---|---|
| `HtmlParser.CanBeParsed` | SpeechRecognitionBrowser/HTMLParser.swift:13-28 | The result is always -1, 0 or 1. It is `IndexCookpad` exactly when the Cookpad pattern occurs anywhere in the string, even if the Chefgohan pattern occurs too. It is `IndexChefgohan` exactly when the Chefgohan pattern occurs and the Cookpad one does not. It is `IndexNone` exactly when neither occurs. |
| `HtmlParser.CookpadAnywhere` | SpeechRecognitionBrowser/HTMLParser.swift:21-23 | Any string of the form `before + "cookpad.com/recipe/" + after` is classified as Cookpad, whatever `before` and `after` are. |
| `HtmlParser.ChefgohanAnywhere` | SpeechRecognitionBrowser/HTMLParser.swift:24-25 | Any string of the form `before + "chefgohan.gnavi.co.jp/detail/" + after` without the Cookpad pattern is classified as Chefgohan. |
| `HtmlParser.HostIsNotChecked` | SpeechRecognitionBrowser/HTMLParser.swift:18-23 | `https://example.com/?next=cookpad.com/recipe/1` is classified as Cookpad: the host is never parsed out of the URL. |
| `HtmlParser.ParseMaterial` | SpeechRecognitionBrowser/HTMLParser.swift:30-42 | An unparsable document (`None`) gives the empty table. A URL matching neither pattern gives the empty table. Otherwise the result is the Cookpad table when the Cookpad pattern occurs, else the Chefgohan table. Every entry of the result has at least two strings. |
| `HtmlParser.HasNameAndAmount` | SpeechRecognitionBrowser/HTMLParser.swift:48-49 | The `guard let` of the Cookpad loop: a row passes exactly when its `.name` and its `.amount` both have text. `CookpadRowSplice` and `CookpadLength` are stated in terms of it. |
| `HtmlParser.CookpadEntry` | SpeechRecognitionBrowser/HTMLParser.swift:48-51 | A row yields an entry exactly when it has both a name and an amount. The entry has two strings: a slice of the name and a slice of the amount, each obtained by removing only newlines from both ends, and neither starting nor ending with a newline. |
| `HtmlParser.CookpadMaterials` | SpeechRecognitionBrowser/HTMLParser.swift:45-54 | The Cookpad table: the entries of the rows, in row order. Its properties are stated by `CookpadShape`, `CookpadRowSplice` and `CookpadLength`. |
| `HtmlParser.CookpadShape` | SpeechRecognitionBrowser/HTMLParser.swift:45-54 | Every Cookpad entry has exactly two strings, name then amount. Neither string starts or ends with a newline. There are at most as many entries as rows. |
| `HtmlParser.CookpadRowSplice` | SpeechRecognitionBrowser/HTMLParser.swift:47-51 | A row at any position contributes `[trimmed name, trimmed amount]` when both its name and its amount are present, and nothing otherwise. That entry sits after the entries of all earlier rows and before those of all later rows. |
| `HtmlParser.CookpadLength` | SpeechRecognitionBrowser/HTMLParser.swift:47-49 | The number of entries equals the number of rows that have both a name and an amount. |
| `HtmlParser.TrimSetsDiffer` | SpeechRecognitionBrowser/HTMLParser.swift:50-64 | Cookpad trims newlines only: name `" 塩\n"` becomes `" 塩"`, keeping the space. A Chefgohan cell with the same text becomes `"塩"`. |
| `HtmlParser.ParseMaterialForCookpad` | SpeechRecognitionBrowser/HTMLParser.swift:45-54 | The row loop, skipping a row when its name or amount is missing, computes exactly the functional Cookpad table. |
| `HtmlParser.TrimCell` | SpeechRecognitionBrowser/HTMLParser.swift:63-64 | A cell yields a text exactly when it has text. That text is a slice of the cell's text obtained by removing only white space and newlines from both ends, and it neither starts nor ends with either. |
| `HtmlParser.HasText` | SpeechRecognitionBrowser/HTMLParser.swift:63 | The `guard let` of the cell loop: a `td` passes exactly when it has text. `ChefgohanRowKept` counts the cells that pass. |
| `HtmlParser.CellTexts` | SpeechRecognitionBrowser/HTMLParser.swift:61-65 | The per-row `materials` list: the trimmed texts of the cells that have text, in cell order. Its properties are stated by `CellSplice`, `CellTextsTrimmed` and `ChefgohanRowKept`. |
| `HtmlParser.ChefgohanEntry` | SpeechRecognitionBrowser/HTMLParser.swift:67-68 | A row becomes an entry when its cell texts number at least two. What this means in terms of cells is stated by `ChefgohanRowKept`. |
| `HtmlParser.ChefgohanMaterials` | SpeechRecognitionBrowser/HTMLParser.swift:57-73 | The Chefgohan table: the kept rows of all tbodies, tbody by tbody. Its properties are stated by `ChefgohanShape`, `ChefgohanRowSplice`, `ChefgohanBodySplice` and `ChefgohanBodySnoc`. |
| `HtmlParser.CellTextsTrimmed` | SpeechRecognitionBrowser/HTMLParser.swift:62-65 | No collected cell text starts or ends with white space or a newline. |
| `HtmlParser.CellSplice` | SpeechRecognitionBrowser/HTMLParser.swift:62-65 | A cell with text contributes its trimmed text at its own position in the row's list. A cell without text contributes nothing. |
| `HtmlParser.ChefgohanRowKept` | SpeechRecognitionBrowser/HTMLParser.swift:61-69 | A row is kept exactly when at least two of its cells have text; cells without text do not count. A kept row has one string per cell with text. |
| `HtmlParser.ChefgohanRowSplice` | SpeechRecognitionBrowser/HTMLParser.swift:60-70 | Within a tbody, a row at any position contributes its cell texts at that position when at least two cells have text, and nothing otherwise. |
| `HtmlParser.ChefgohanBodySplice` | SpeechRecognitionBrowser/HTMLParser.swift:59-71 | The rows a tbody keeps come after those of every earlier tbody and before those of every later one. |
| `HtmlParser.ChefgohanBodySnoc` | SpeechRecognitionBrowser/HTMLParser.swift:59-71 | Processing one more tbody appends exactly the rows that tbody keeps. |
| `HtmlParser.ChefgohanShape` | SpeechRecognitionBrowser/HTMLParser.swift:57-73 | Every Chefgohan entry has at least two strings, and none starts or ends with white space or a newline. There are at most as many entries as rows over all tbodies. |
| `HtmlParser.ParseMaterialForChefgohan` | SpeechRecognitionBrowser/HTMLParser.swift:57-73 | The tbody loop computes exactly the functional Chefgohan table. |
| `HtmlParser.CollectRowMaterials` | SpeechRecognitionBrowser/HTMLParser.swift:60-70 | The row loop of one tbody keeps, in order, the cell lists that have at least two texts. |
| `HtmlParser.CollectCellTexts` | SpeechRecognitionBrowser/HTMLParser.swift:61-65 | The cell loop, which skips cells without text, computes exactly the trimmed texts of the cells that have text, in cell order. |
| `Substrings.Contains` | SpeechRecognitionBrowser/HTMLParser.swift:22-24 | `String.contains`: a scan from the left for a position where the pattern starts. It agrees with `Occurs`, as `ContainsIffOccurs` states. |
| `Substrings.ContainsIffOccurs` | SpeechRecognitionBrowser/HTMLParser.swift:22-24 | The left-to-right scan used for `contains` succeeds exactly when the pattern occurs at some index of the string. |
| `Substrings.ContainsInContext` | SpeechRecognitionBrowser/HTMLParser.swift:22-24 | A pattern is found in any string built around it. |
| `Trimming.Trim` | SpeechRecognitionBrowser/HTMLParser.swift:50-51 | The result is no longer than the input and neither starts nor ends with a character of the set. |
| `Trimming.TrimIsTrimOf` | SpeechRecognitionBrowser/HTMLParser.swift:50-51 | The result is a slice `s[i..j]` of the input where everything before `i` and after `j` is in the set. |
| `Trimming.TrimUnique` | SpeechRecognitionBrowser/HTMLParser.swift:64 | Any slice with that property that neither starts nor ends with a set character is the result of `Trim`. |
| `Trimming.TrimOfTrimmed` | SpeechRecognitionBrowser/HTMLParser.swift:64 | Trimming leaves a string unchanged exactly when it neither starts nor ends with a set character. |
| `Trimming.TrimIdempotent` | SpeechRecognitionBrowser/HTMLParser.swift:50-51 | Trimming twice with the same set is the same as trimming once. |
| `Trimming.TrimWider` | SpeechRecognitionBrowser/HTMLParser.swift:50-64 | When one set is contained in another, trimming with the smaller set and then the larger one is the same as trimming with the larger one alone. |
| `Trimming.NewlinesAreWhitespace` | SpeechRecognitionBrowser/HTMLParser.swift:50-64 | Every character of `.newlines` is in `.whitespacesAndNewlines`. |
| `Trimming.NewlinesThenWhitespace` | SpeechRecognitionBrowser/HTMLParser.swift:50-64 | Trimming a text with `.newlines` (as Cookpad does) and then with `.whitespacesAndNewlines` (as Chefgohan does) gives the same result as the second trim alone. |
| `Trimming.IsNewline` | SpeechRecognitionBrowser/HTMLParser.swift:50-51 | The character set `.newlines`: U+000A to U+000D, U+0085, U+2028 and U+2029. |
| `Trimming.IsWhitespaceOrNewline` | SpeechRecognitionBrowser/HTMLParser.swift:64 | The character set `.whitespacesAndNewlines`: the newlines, the tab, and the Unicode space separators. |
| `Trimming.TrimStart` | SpeechRecognitionBrowser/HTMLParser.swift:64 | The result is a suffix of the input, everything cut is in the set, and the result does not start with a set character. |
| `Trimming.TrimEnd` | SpeechRecognitionBrowser/HTMLParser.swift:64 | The result is a prefix of the input, everything cut is in the set, and the result does not end with a set character. |
| `FilterMaps.FilterMapAt` | SpeechRecognitionBrowser/HTMLParser.swift:47-51 | An element that yields an entry has it at an exact output position: the number of entries yielded by the elements before it. |
| `FilterMaps.FilterMapOrder` | SpeechRecognitionBrowser/HTMLParser.swift:47-51 | When elements `i < j` both yield an entry, the entry of `i` sits at a strictly smaller output position than that of `j`, and each position is given exactly, even when two entries are equal. |
| `FilterMaps.FilterMapComplete` | SpeechRecognitionBrowser/HTMLParser.swift:47-51 | Every element that yields an entry has that entry in the output. |
| `FilterMaps.FilterMapSound` | SpeechRecognitionBrowser/HTMLParser.swift:47-51 | Every output entry is the entry of some input element. |
| `FilterMaps.FilterMapAppend` | SpeechRecognitionBrowser/HTMLParser.swift:59-70 | The output for `xs + ys` is the output for `xs` followed by the output for `ys`. |

## Left out

- The network fetch `Data(contentsOf:)` and the force-unwraps of `URL(string:)` and of `data!` (HTMLParser.swift:32-34). These are I/O, and on a bad URL or a failed fetch the program crashes. The fetched and parsed page is an input, `Option<Document>`, where `None` stands for a document that could not be parsed.
- Kanna's HTML parsing and CSS selector evaluation (`doc.css(...)`, `.first?.text`). These are calls into a library that is not part of this model. A `Document` carries their results instead.
- ViewController.swift: UIKit and WebKit set-up. `createUrlRequest` only wraps Foundation's percent-encoding and `URL`/`URLRequest`, whose rules are not part of this model.
- The exact membership of Foundation's `.newlines` and `.whitespacesAndNewlines`. `IsNewline` and `IsWhitespaceOrNewline` follow Foundation's documentation: U+000A to U+000D, U+0085, U+2028 and U+2029 for newlines, plus the tab and the Zs space separators. Every trimming lemma except `NewlinesAreWhitespace`, `NewlinesThenWhitespace` and the example `TrimSetsDiffer` holds for any character predicate. Those three depend only on memberships Foundation documents: `' '` is white space but not a newline, `'\n'` is a newline, and every newline is in `.whitespacesAndNewlines`.
- Swift's `String` compares by grapheme cluster and up to canonical equivalence. `Contains` and `Trim` work on sequences of Unicode scalar values, so strings that differ only in normalisation are treated as different.
- The rest of the app, including any use of the materials table to answer spoken questions. No source for it is among the files modelled, and ViewController.swift does not call `HTMLParser`.

## Notes on the code

- Site detection is a substring search over the whole URL string for `cookpad.com/recipe/` and `chefgohan.gnavi.co.jp/detail/`. The host is never parsed out. A URL on another host whose query string contains a pattern is classified by it (see `HtmlParser.HostIsNotChecked`).
- A Chefgohan entry holds every cell of the row that has text, so it can have more than two strings. The model promises "at least two", as the code does.
- The page is fetched and parsed before the URL is classified, so an unsupported URL is still fetched. If that fetch fails, `data!` traps, for an unsupported URL as for a supported one. The model does not represent the fetch, so it has no value for this case.
