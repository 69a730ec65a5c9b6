# AbemaTV metadata extractor, modelled in Dafny

This project models the core of the AbemaTV metadata extractor, as pure
Dafny functions with proved contracts. The extractor reads an AbemaTV
series page and finds its JSON-LD `<script>` blocks. From them it reads
the series title (from the breadcrumb list) and the episodes (from the
thumbnail captions `<series> 第N話 <title>のサムネイル`). It builds each
episode's page address `https://abema.tv/video/episode/<slug>_s1_p<n>`
and can fetch each episode's synopsis from the `description` field of
that page.

Two variants are modelled:

- the package `abema_metadata`: `AbemaMetadataExtractor` (the module
  `Orchestrator` and the modules it builds on), its data classes
  (`Models`), and the command line's output mapping (`Output`);
- the older single-file script `abema_extractor.py` (`Legacy`), with its
  own title rule and address rule, a cap of 50 synopsis fetches, and the
  YAML file with its comment header.

Modules, in dependency order:

| module | what it holds |
|---|---|
| `Wrappers`, `Strings`, `CharClass`, `Decimal`, `Search`, `Lists`, `StableSort` | option type; string search; Python's `\s`, `\w`, `\d`; `int()`/`str()`; first/last match over positions; filter-map; `sorted` with a key |
| `Scanner` | the `<script … type="application/ld+json" …>(.*?)</script>` scan |
| `Fields` | the `"key"\s*:\s*"([^"]+)"` field search and the `"name":"…"` list |
| `Caption` | the caption pattern `(?:[\w\s]+)?第(\d+)話\s*(.+?)(?:のサムネイル)?$`, with backtracking |
| `EpisodeId` | the `/title/<slug>` and `/programs/<id>/` patterns and the identifier format |
| `Models` | `EpisodeMetadata`, `SeriesMetadata` |
| `Title`, `TitleExamples` | the series title of both variants, and the two breadcrumb pages of the test |
| `Episodes` | the episode scan, and the episode page of the test |
| `Synopsis` | `fetch_synopsis` |
| `Orchestrator` | `extract_all_metadata` |
| `Output` | the command line's `output_data` mapping and a reader for it |
| `Legacy` | the older script's `extract_episodes` |

Python's regular expressions are written out as explicit functions over
positions. Each keeps the pattern's search order: the leftmost start,
greedy and lazy repetition, and backtracking. The page fetch and the
`unicode_escape` codec are function parameters. Each returns `None` where
the original raises.

Behaviour of the code that the model keeps as written:

- Breadcrumb detection looks for `"@type":"BreadcrumbList"` with no
  whitespace. The names are read with `"name":"…"`, also without
  whitespace. The test page of `test_extract_series_title_with_mock`
  writes its JSON with `": "`. On that page the code therefore answers
  `不明なシリーズ`, not the `テストシリーズ` the test expects
  (`TitleExamples.SpacedBreadcrumbPageTitle`). The same list written
  without spaces gives `テストシリーズ` (`TitleExamples.CompactTestPageTitle`).
- The episode test's thumbnail `…/programs/test-1` has no `/` after its
  segment, so the older script's `/programs/([^/]+)/` finds no program
  identifier there.
- In the older script the `break` leaves only the loop over names. A
  later breadcrumb block with a qualifying name therefore overwrites the
  title: the last such block wins.
- With synopses on and more than 50 episodes, the older script leaves
  entries 51 onwards without a `synopsis` key. The YAML loop then raises
  `KeyError` at line 142 before any file is written (`Legacy.LegacyExtract`).
- The caption pattern accepts `第0話`, so an episode number can be 0.

## Model

| member | source | states |
|---|---|---|
| Models.NewEpisode | abema_metadata/models.py:10-16 | an episode built from number and title has no synopsis and no URL |
| Models.NewSeries | abema_metadata/models.py:19-25 | a series built without episodes has an empty episode list and keeps title, source URL and date |
| Scanner.Blocks | abema_metadata/extractor.py:27-28 | no block body found by the scan contains `</script>` (the lazy body stops at the first one) |
| Scanner.ScriptAtElement | abema_metadata/extractor.py:27 | a JSON-LD element whose tag holds other attribute text before and after `type="application/ld+json"` (no `>` in it) matches at its `<script`, capturing exactly its body and consuming exactly the element |
| Scanner.OtherScriptInert | abema_metadata/extractor.py:27 | a `<script>` element whose tag lacks the JSON-LD type attribute starts no match anywhere inside it, as long as its code holds no `<script` |
| Scanner.GapWithOtherScript | abema_metadata/extractor.py:27 | text with no `<script` around such an element starts no match anywhere either |
| Scanner.NoOpenInert | abema_metadata/extractor.py:27 | text with no `<script` starts no match at any position |
| Scanner.BlocksOfDocument | abema_metadata/extractor.py:27-28 | scanning a document of JSON-LD elements (any extra attributes, bodies without `</script>`) separated by text where no match starts gives exactly the elements' bodies, one per element, in document order |
| Scanner.BlocksOfPage | abema_metadata/extractor.py:27-28 | the special case of bare `<script type="application/ld+json">` tags separated by the same `<`-free text: the bodies come back, in order |
| Fields.FieldSearch | abema_metadata/extractor.py:44 | a found field value is non-empty and quote-free, and the text contains the quoted key |
| Fields.FieldAtField | abema_metadata/extractor.py:44 | the field pattern reads back the value of `"key"<ws>:<ws>"value"` whatever whitespace surrounds the colon |
| Fields.FieldSearchImpliesName | abema_metadata/extractor.py:43-45 | a block whose field search succeeds also passes the plain `'caption' in` / `'description' in` test |
| Title.FirstQualifying | abema_metadata/extractor.py:31-33 | the result qualifies (not ホーム/アニメ/ドラマ, longer than the bound), exists exactly when some name qualifies, and no earlier name qualifies |
| Title.ExtractSeriesTitle | abema_metadata/extractor.py:25-34 | the title is `不明なシリーズ` or a qualifying name |
| Title.SeriesTitleIsFirstCandidate | abema_metadata/extractor.py:25-34 | the title is the first qualifying name of the breadcrumb blocks, in page order, or `不明なシリーズ` when there is none |
| Title.FirstBlockTitleSource | abema_metadata/extractor.py:27-33 | the title the block scan finds, when there is one, is a name listed in some block that is a breadcrumb list |
| Title.SpacedJsonIsNoBreadcrumb | abema_metadata/extractor.py:29 | a block in which no `:` is directly followed by `"` is never a breadcrumb list |
| Title.SpacedPageTitle | abema_metadata/extractor.py:25-34 | a page whose blocks all have a space after every colon has the title `不明なシリーズ` |
| Title.LegacyBlockTitleAgrees | abema_extractor.py:52-58 | the older script's extra `'"name":"' in` test never changes a block's title |
| Title.LegacySeriesTitle | abema_extractor.py:48-58 | the title loop gives `アニメ・ドラマ` when no block offers a name longer than 5, otherwise the name of the last block that offers one |
| TitleExamples.SpacedBreadcrumbPageTitle | tests/test_extractor.py:68-100 | on the test page, with its `": "` spacing, the scan finds the one block but the title is `不明なシリーズ` whatever the names |
| TitleExamples.TestPageTitle | tests/test_extractor.py:68-100 | with the test's names ホーム, アニメ, テストシリーズ the spaced page gives `不明なシリーズ` |
| TitleExamples.CompactBreadcrumbPageTitle | abema_metadata/extractor.py:25-34 | the same list written without spaces gives the first of its three names that qualifies, or the fallback |
| TitleExamples.CompactTestPageTitle | abema_metadata/extractor.py:25-34 | without spaces the test's list gives `テストシリーズ`: the navigation entries are skipped |
| Caption.TitleTailShape | abema_metadata/extractor.py:50 | the title the pattern captures is the rest of the caption minus at most one `のサムネイル` and at most one final newline |
| Caption.EpisodeAtShape | abema_metadata/extractor.py:50-53 | every match is `第<digits>話<whitespace><title>`, the number being the digits' decimal value |
| Caption.ParseFormatCaption | abema_metadata/extractor.py:49-53 | a caption `<series> 第N話 <title>` (with or without `のサムネイル`) parses back to N and the title |
| Caption.ParsedHasGlyphs | abema_metadata/extractor.py:49-50 | a caption that parses contains `第` and `話`, so the plain test before the pattern rejects nothing the pattern accepts |
| Caption.ExampleThumbnailCaption | tests/test_extractor.py:103-132 | `テストシリーズ 第1話 はじめての冒険のサムネイル` gives 1 and `はじめての冒険` |
| Caption.ExamplePlainCaption | tests/test_extractor.py:103-132 | `テストシリーズ 第2話 新しい出会い` gives 2 and `新しい出会い` |
| Caption.GreedyPrefixExample | abema_metadata/extractor.py:50 | the greedy optional prefix makes `第1話 第2話 の謎` give episode 2 |
| Caption.AnchoredExample | abema_metadata/extractor.py:50 | anchored at its first `第` the same caption gives episode 1 with title `第2話 の謎` |
| Decimal.DecimalOfNatToString | abema_metadata/extractor.py:52 | `int()` of a printed number gives the number back |
| EpisodeId.SeriesSlugFirst | abema_metadata/extractor.py:73-74 | the slug is the one at the first position where `/title/([^/]+)` matches |
| EpisodeId.SeriesSlugNone | abema_metadata/extractor.py:73-77 | there is no slug exactly when the pattern matches nowhere |
| EpisodeId.SlugAtOf | abema_metadata/extractor.py:73 | `/title/` followed by a non-empty `/`-free segment ending at `/` or the end is a match with that segment |
| EpisodeId.NoMarkerNoSlug | abema_metadata/extractor.py:73-77 | an address without `/title/` has no slug |
| EpisodeId.GenerateEpisodeId | abema_metadata/extractor.py:70-79 | an identifier exists exactly when the series address has a slug, and is `<slug>_s1_p<n>` |
| EpisodeId.EpisodeUrlFor | abema_metadata/extractor.py:60-65 | the page address exists exactly when there is a slug and is `https://abema.tv/video/episode/<slug>_s1_p<n>` |
| EpisodeId.ParseFormatEpisodeId | abema_metadata/extractor.py:79 | every identifier reads back as its slug and number, whatever the slug holds |
| EpisodeId.EpisodeIdInjective | abema_metadata/extractor.py:79 | different slugs or numbers give different identifiers |
| EpisodeId.GeneratedIdReadsBack | abema_metadata/extractor.py:70-79 | a generated identifier reads back as the series slug and the episode number |
| EpisodeId.ExampleSeriesSlug | tests/test_extractor.py:135-145 | the test series address has the slug `test-series` |
| EpisodeId.ExampleEpisodeId | tests/test_extractor.py:135-145 | the test's first episode gets `test-series_s1_p1` |
| EpisodeId.ExampleInvalidUrl | tests/test_extractor.py:147-153 | `https://invalid.url` gives no identifier |
| EpisodeId.ProgramIdFirst | abema_extractor.py:87-89 | the program identifier is the segment at the first match of `/programs/([^/]+)/`, and there is none exactly when nothing matches |
| EpisodeId.ProgramAtOf | abema_extractor.py:88 | `/programs/` followed by a non-empty `/`-free segment and a `/` is a match with that segment |
| EpisodeId.LegacyEpisodeId | abema_extractor.py:85-94 | the identifier is the program segment when there is one, else `<slug>_s1_p<n>` with the slug or `unknown` |
| EpisodeId.LegacyIdAgrees | abema_extractor.py:91-94 | without a program segment the script's identifier equals the package's when there is a slug, and reads back as `unknown` and n otherwise |
| EpisodeId.ExampleThumbnailHasNoProgramId | abema_extractor.py:87-89 | the test thumbnail `…/programs/test-1` has no program identifier, as no `/` follows its segment |
| Episodes.BlockCaption | abema_metadata/extractor.py:43-57 | a hit needs `caption` in the block, a caption field, and a caption that parses to the hit's number and title |
| Episodes.BlockCaptionGuards | abema_metadata/extractor.py:43-57 | a block gives a hit exactly when its caption field parses, and the thumbnail is the `url` field or `''` |
| Episodes.ParseBlock | abema_metadata/extractor.py:43-66 | a record exists exactly when the caption gives a hit; it carries that number and title, no synopsis, and a URL exactly when there is a slug |
| Episodes.CollectAtMostOnePerBlock | abema_metadata/extractor.py:40-66 | one record per block that yields one, in block order: the k-th record is the record of the k-th yielding block (a strictly increasing list of block indices covering every yielding block); so at most one per block, each from a block, none missed |
| Episodes.CollectedRecords | abema_metadata/extractor.py:40-66 | every collected record has a number, no synopsis, and the episode page `…/episode/<slug>_s1_p<n>` exactly when the series address has a slug |
| Episodes.ExtractEpisodes | abema_metadata/extractor.py:36-68 | the records are sorted by number, a permutation of the block records, with equal numbers in page order |
| Episodes.ExtractedEpisodes | abema_metadata/extractor.py:36-68 | exactly as many records as blocks that yield one; every extracted record comes from one block, has no synopsis, and has the address `…/episode/<slug>_s1_p<n>` exactly when there is a slug; every yielding block is represented |
| Episodes.TestEpisodePageEpisodes | tests/test_extractor.py:103-132 | the test page gives episode 1 `はじめての冒険` and episode 2 `新しい出会い`, in that order, with their pages |
| StableSort.SortBy | abema_metadata/extractor.py:68 | the result is sorted by key, a permutation, and keeps equal keys in their original order |
| StableSort.StableSortIsSortBy | abema_metadata/extractor.py:68 | any sorted rearrangement that keeps equal keys in order is this sort: the stable sort is unique |
| Synopsis.ReplaceLeavesNoEscape | abema_metadata/extractor.py:91 | no backslash-n survives `replace('\\n', '\n')` |
| Synopsis.ReplaceUndoesEscape | abema_metadata/extractor.py:91 | the replacement undoes writing line breaks as backslash-n, for a text without backslash-n of its own |
| Synopsis.ProcessedText | abema_metadata/extractor.py:91-92 | without a backslash-u the text comes out free of backslash-n; with one, the result is the decoder's |
| Synopsis.ProcessEscapedText | abema_metadata/extractor.py:91-92 | a description written from a text by escaping its line breaks comes out as that text |
| Synopsis.SynopsisFromFirstDescription | abema_metadata/extractor.py:85-92 | the synopsis is the processed description of the first block with a description field, none when no block has one |
| Synopsis.FetchSynopsisSpec | abema_metadata/extractor.py:81-94 | a failed fetch gives none; otherwise the first described block's processed description, or none |
| Orchestrator.AddSynopses | abema_metadata/extractor.py:103-106 | the loop keeps number, title and URL; an episode with a non-empty URL gets that page's synopsis, the others keep theirs |
| Orchestrator.AddSynopsesOnlySynopses | abema_metadata/extractor.py:103-106 | filling synopses changes nothing but synopses and keeps the order by number |
| Orchestrator.ExtractAllMetadataSpec | abema_metadata/extractor.py:96-113 | a result exactly when the page fetches; page title, URL and date as given; the extracted episodes in order, each with its page's synopsis when asked and it has a URL, none otherwise |
| Output.KeyNameReadsBack | abema_metadata/cli.py:45-59 | every output key reads back from its written name, so keys are written distinctly |
| Output.LookupSpec | abema_metadata/cli.py:45-59 | a key is found exactly when some entry has it, with the value of its first entry |
| Output.SynopsisText | abema_metadata/cli.py:54 | `あらすじなし` is written exactly when the synopsis is missing, empty or that text itself; otherwise the synopsis is written |
| Output.EpisodeNode | abema_metadata/cli.py:51-56 | an episode is written with keys episode_number, title, synopsis, url in that order |
| Output.CliOutput | abema_metadata/cli.py:45-59 | the mapping has keys series_title, source_url, extraction_date, total_episodes, episodes in order; total_episodes is the episode count and equals the list's length |
| Output.CliOutputEntries | abema_metadata/cli.py:45-59 | the mapping holds the title, source URL, date and the episodes |
| Output.ReadEpisodeNode | abema_metadata/cli.py:51-56 | a written episode reads back as itself, except that a synopsis written as `あらすじなし` reads back as missing |
| Output.ReadCliOutput | abema_metadata/cli.py:45-59 | the output reads back as the whole result (a synopsis written as `あらすじなし` reading back as missing), and total_episodes counts the written list |
| Legacy.LegacyParseBlock | abema_extractor.py:66-103 | an entry exists exactly when the caption gives a hit; it has no synopsis, the thumbnail, and the address `…/episode/<id>` with the script's identifier |
| Legacy.LegacyBlockAgrees | abema_extractor.py:66-103 | a block gives an entry in the script exactly when it gives an episode in the package, with the same number and title; the addresses agree unless the thumbnail names a program or there is no slug |
| Legacy.LegacyEpisodeList | abema_extractor.py:105-106 | the list is sorted by number, a permutation of the block entries, with equal numbers in page order |
| Legacy.LegacyListMatchesPackage | abema_extractor.py:64-106 | both variants list the same numbers and titles in the same order |
| Legacy.LegacyTitleIsLast | abema_extractor.py:48-58 | the title the loop computes is the title of the last block that offers one, or `アニメ・ドラマ` |
| Legacy.SynopsisOrUnavailable | abema_extractor.py:120 | `(取得できませんでした)` is written exactly when the synopsis is missing, empty or that text; otherwise the synopsis |
| Legacy.FillSynopses | abema_extractor.py:115-127 | only synopses change; with fetching on, the first 50 entries get the fetched synopsis or the placeholder, the rest keep none, and the count is min(n, 50); with it off every entry gets `(skip)` and the count is 0 |
| Legacy.LegacyEpisodeNode | abema_extractor.py:138-143 | an episode is written with keys episode_number, title, url, synopsis in that order |
| Legacy.ReadLegacyEpisode | abema_extractor.py:138-143 | a written episode reads back, with the package's reader, as its number, title, address and synopsis |
| Legacy.LegacyYaml | abema_extractor.py:130-135 | the document has keys series_title, source_url, total_episodes, episodes in that order |
| Legacy.LegacyYamlEntries | abema_extractor.py:130-135 | the document holds the title, the address, the episode count equal to the list's length, the episodes, and no date |
| Legacy.LegacyDocument | abema_extractor.py:137-144 | the loop fails exactly when some entry has no synopsis, at the first such entry; otherwise each entry is written in order |
| Legacy.SynopsesAndDocument | abema_extractor.py:115-144 | the `KeyError` comes exactly when synopses are on and there are more than 50 entries, at entry 50; otherwise every entry is written with its synopsis, placeholder or `(skip)` |
| Legacy.LegacyEntriesHaveNoSynopsis | abema_extractor.py:98-103 | every entry of the sorted list starts without a synopsis |
| Legacy.LegacyExtract | abema_extractor.py:41-154 | a failed fetch, no episodes (no file), the `KeyError`, or a file with the header and the document of the last qualifying title, the address, the count and every episode in order |

## Left out

- Network access: `fetch_page`, its user agent and `urllib` are a parameter `string -> Option<string>`. `None` stands for any exception the fetch raises.
- `bytes.decode('unicode_escape')` is a parameter `string -> Option<string>`. `None` stands for the decoder raising. Its escape rules are not modelled.
- `datetime.now().strftime('%Y-%m-%d')` is the parameter `today` of `extract_all_metadata`.
- Output text: `yaml.dump` and the file writes are not modelled. The command line's mapping and the older script's document are modelled as ordered key/value trees, and the older script's comment header as a string.
- Console output: `print`, `argparse` and `main` in both variants, including the older script's closing summary with its synopsis count (lines 156-159).
- Python's `\w` and `\d` are modelled for the scripts a caption uses: ASCII, Latin, Greek, Cyrillic, kana, CJK ideographs, Hangul and fullwidth forms. Other Unicode letters and digits are treated as neither. `\s` follows `str.isspace` exactly.
- `abema_metadata/cli.py` outside lines 45-59 (argument parsing, file handling, messages) is not part of this model.
- The experiment scripts `extract_test.py`, `extract_with_synopsis.py`, `extract_yaml_output.py` and `simple_extract.py` are not part of this model.
- Exceptions other than a failed fetch, a failed decoding and the older script's `KeyError` are not modelled.
- Orchestrator.AddSynopses: the fetch parameter is a function, so two episodes with the same page address (the same number) get the same synopsis. The code fetches the page once per episode, and two fetches of one address could return different pages.
- Scanner.BlocksOfDocument: the text between elements must start no match; the lemmas above show this for text without `<script` and for `<script>` elements of other types. A stray `<script` inside an attribute value or a comment is not covered.
- TitleExamples.SpacedBreadcrumbPageTitle: the page is the test's page with its three names as parameters. It is built from line helpers rather than copied character by character.
