/** The older single-file script (abema_extractor.py lines 41-159): the
    same page scan as the package, with its own title rule, episode
    addresses taken from the thumbnail when it names a program, synopses
    fetched for at most 50 episodes, and a YAML file with a comment header.
    The page fetch and Python's `unicode_escape` codec are parameters, as
    in the package model; console messages are not modelled. */
module Legacy {
  import opened Wrappers
  import opened Scanner
  import opened StableSort
  import opened Lists
  import opened Caption
  import opened EpisodeId
  import opened Models
  import opened Episodes
  import opened Title
  import opened Synopsis
  import Output

  /** One entry of `episode_list`. `synopsis` is `None` while the entry has
      no `'synopsis'` key. */
  datatype Entry = Entry(episodeNum: nat, title: string, url: string, thumbnail: string, synopsis: Option<string>)

  function EntryNumber(e: Entry): int {
    e.episodeNum
  }

  /** The entry one block yields (lines 69-103). */
  function LegacyParseBlock(block: string, seriesUrl: string): (r: Option<Entry>)
    ensures r.Some? <==> BlockCaption(block).Some?
    ensures r.Some? ==>
      && r.value.synopsis.None?
      && r.value.thumbnail == BlockCaption(block).value.thumbnailUrl
      && r.value.url == EpisodePagePrefix + LegacyEpisodeId(r.value.thumbnail, seriesUrl, r.value.episodeNum)
  {
    match BlockCaption(block)
    case None => None
    case Some(h) =>
      var n := h.parts.number;
      Some(Entry(n, h.parts.title, EpisodeUrl(LegacyEpisodeId(h.thumbnailUrl, seriesUrl, n)), h.thumbnailUrl, None))
  }

  /** Number and title, the part of an entry both extractors agree on. */
  function EntryHead(e: Entry): (int, string) {
    (e.episodeNum, e.title)
  }

  function EpisodeHead(e: EpisodeMetadata): (int, string) {
    (e.number, e.title)
  }

  function HeadNumber(h: (int, string)): int {
    h.0
  }

  /** A block yields an entry in the script exactly when it yields an
      episode in the package, with the same number and title. When the
      thumbnail names no program and the series URL has a slug, the page
      address is the same too; with no slug the script writes `unknown`
      where the package writes none. */
  lemma LegacyBlockAgrees(block: string, seriesUrl: string)
    ensures LegacyParseBlock(block, seriesUrl).Some? <==> ParseBlock(block, seriesUrl).Some?
    ensures LegacyParseBlock(block, seriesUrl).Some? ==>
      var e := LegacyParseBlock(block, seriesUrl).value;
      var m := ParseBlock(block, seriesUrl).value;
      && EntryHead(e) == EpisodeHead(m)
      && (ProgramId(e.thumbnail).Some? ==> e.url == EpisodePagePrefix + ProgramId(e.thumbnail).value)
      && (ProgramId(e.thumbnail).None? && m.url.Some? ==> e.url == m.url.value)
      && (ProgramId(e.thumbnail).None? && m.url.None? ==>
            e.url == EpisodePagePrefix + FormatEpisodeId(UnknownSlug, e.episodeNum))
  {
    if BlockCaption(block).Some? {
      var h := BlockCaption(block).value;
      var n := h.parts.number;
      assert LegacyParseBlock(block, seriesUrl)
        == Some(Entry(n, h.parts.title, EpisodeUrl(LegacyEpisodeId(h.thumbnailUrl, seriesUrl, n)), h.thumbnailUrl, None));
      assert ParseBlock(block, seriesUrl)
        == Some(EpisodeMetadata(n, h.parts.title, None, EpisodeUrlFor(h.thumbnailUrl, seriesUrl, n)));
      if ProgramId(h.thumbnailUrl).None? {
        LegacyIdAgrees(h.thumbnailUrl, seriesUrl, n);
      }
    }
  }

  function LegacyCollect(blocks: seq<string>, seriesUrl: string): seq<Entry> {
    FilterMap((b: string) => LegacyParseBlock(b, seriesUrl), blocks)
  }

  /** `episode_list` after `episode_list.sort(key=…)` (line 106). */
  function LegacyEpisodeList(content: string, seriesUrl: string): (r: seq<Entry>)
    ensures Sorted(r, EntryNumber)
    ensures SameRuns(r, LegacyCollect(Blocks(content), seriesUrl), EntryNumber)
    ensures multiset(r) == multiset(LegacyCollect(Blocks(content), seriesUrl))
  {
    SortBy(LegacyCollect(Blocks(content), seriesUrl), EntryNumber)
  }

  /** Both extractors list the same episodes, by number and title, in the
      same order. */
  lemma LegacyListMatchesPackage(content: string, seriesUrl: string)
    ensures MapSeq(EntryHead, LegacyEpisodeList(content, seriesUrl)) == MapSeq(EpisodeHead, ExtractEpisodes(content, seriesUrl))
  {
    var blocks := Blocks(content);
    var f := (b: string) => LegacyParseBlock(b, seriesUrl);
    var g := (b: string) => ParseBlock(b, seriesUrl);
    forall b
      ensures f(b).Some? <==> g(b).Some?
      ensures f(b).Some? ==> EntryHead(f(b).value) == EpisodeHead(g(b).value)
    {
      LegacyBlockAgrees(b, seriesUrl);
    }
    FilterMapProject(f, g, EntryHead, EpisodeHead, blocks);
    assert LegacyCollect(blocks, seriesUrl) == FilterMap(f, blocks);
    assert Collect(blocks, seriesUrl) == FilterMap(g, blocks);
    SortByMap(FilterMap(f, blocks), EntryNumber, EntryHead, HeadNumber);
    SortByMap(FilterMap(g, blocks), NumberOf, EpisodeHead, HeadNumber);
  }

  // Series title.

  /** The title of the last block that offers one: the reference for the
      script's loop, which overwrites the title at every such block. */
  function LastBlockTitle(blocks: seq<string>): Option<string> {
    LastSome(LegacyBlockTitle, blocks)
  }

  /** The script's title loop computes the reference title. */
  lemma LegacyTitleIsLast(blocks: seq<string>, title: string)
    requires (forall i :: 0 <= i < |blocks| ==> LegacyBlockTitle(blocks[i]).None?) ==> title == LegacyDefaultTitle
    requires (exists i :: 0 <= i < |blocks| && LegacyBlockTitle(blocks[i]).Some?) ==>
      exists i :: 0 <= i < |blocks| && LegacyBlockTitle(blocks[i]) == Some(title)
        && forall j :: i < j < |blocks| ==> LegacyBlockTitle(blocks[j]).None?
    ensures title == LastBlockTitle(blocks).GetOr(LegacyDefaultTitle)
  {
    LastSomeSpec(LegacyBlockTitle, blocks);
    if LastBlockTitle(blocks).Some? {
      var i :| 0 <= i < |blocks| && LegacyBlockTitle(blocks[i]) == LastBlockTitle(blocks)
        && (forall j :: i < j < |blocks| ==> LegacyBlockTitle(blocks[j]).None?);
      var k :| 0 <= k < |blocks| && LegacyBlockTitle(blocks[k]) == Some(title)
        && forall j :: k < j < |blocks| ==> LegacyBlockTitle(blocks[j]).None?;
      assert i == k;
    }
  }

  // Synopses.

  /** At most this many synopses are fetched (line 118). */
  const SynopsisLimit: nat := 50

  const Unavailable: string := "(取得できませんでした)"
  const Skipped: string := "(skip)"

  /** `synopsis if synopsis else "(取得できませんでした)"`. */
  function SynopsisOrUnavailable(s: Option<string>): (t: string)
    ensures t == Unavailable <==> s.None? || s.value == "" || s.value == Unavailable
    ensures t != Unavailable ==> s == Some(t)
  {
    if s.Some? && s.value != "" then s.value else Unavailable
  }

  /** The synopsis step (lines 115-127). With fetching on, the first 50
      entries get the fetched synopsis or the placeholder and the rest get
      none; with it off every entry gets `(skip)`. The count is the
      script's `synopsis_count`. */
  method FillSynopses(list: seq<Entry>, fetchSynopsisFlag: bool, fetchPage: string -> Option<string>,
                      unicodeEscape: string -> Option<string>)
    returns (filled: seq<Entry>, count: nat)
    ensures |filled| == |list|
    ensures forall i :: 0 <= i < |list| ==> filled[i] == list[i].(synopsis := filled[i].synopsis)
    ensures fetchSynopsisFlag ==> count == if |list| < SynopsisLimit then |list| else SynopsisLimit
    ensures !fetchSynopsisFlag ==> count == 0
    ensures fetchSynopsisFlag ==> forall i :: 0 <= i < |list| && i < SynopsisLimit ==>
      filled[i].synopsis == Some(SynopsisOrUnavailable(FetchSynopsis(fetchPage, unicodeEscape, list[i].url)))
    ensures fetchSynopsisFlag ==> forall i :: SynopsisLimit <= i < |list| ==> filled[i].synopsis == list[i].synopsis
    ensures !fetchSynopsisFlag ==> forall i :: 0 <= i < |list| ==> filled[i].synopsis == Some(Skipped)
  {
    filled := list;
    count := 0;
    if fetchSynopsisFlag {
      var head := if |list| < SynopsisLimit then |list| else SynopsisLimit;
      for k := 0 to head
        invariant |filled| == |list|
        invariant count == k
        invariant forall i :: 0 <= i < |list| ==> filled[i] == list[i].(synopsis := filled[i].synopsis)
        invariant forall i :: 0 <= i < k ==>
          filled[i].synopsis == Some(SynopsisOrUnavailable(FetchSynopsis(fetchPage, unicodeEscape, list[i].url)))
        invariant forall i :: k <= i < |list| ==> filled[i].synopsis == list[i].synopsis
      {
        var synopsis := FetchSynopsis(fetchPage, unicodeEscape, filled[k].url);
        filled := filled[k := filled[k].(synopsis := Some(SynopsisOrUnavailable(synopsis)))];
        count := count + 1;
        if count >= SynopsisLimit {
          break;
        }
      }
    } else {
      for k := 0 to |list|
        invariant |filled| == |list|
        invariant forall i :: 0 <= i < |list| ==> filled[i] == list[i].(synopsis := filled[i].synopsis)
        invariant forall i :: 0 <= i < k ==> filled[i].synopsis == Some(Skipped)
      {
        filled := filled[k := filled[k].(synopsis := Some(Skipped))];
      }
    }
  }

  // The YAML document.

  /** Keys of the document and of each episode, in file order. */
  const LegacySeriesKeys: seq<Output.Key> :=
    [Output.SeriesTitle, Output.SourceUrl, Output.TotalEpisodes, Output.Episodes]
  const LegacyEpisodeKeys: seq<Output.Key> :=
    [Output.EpisodeNumber, Output.EpisodeTitle, Output.EpisodeUrl, Output.EpisodeSynopsis]

  /** `episode_data` for an entry whose synopsis is set. */
  function LegacyEpisodeNode(e: Entry, synopsis: string): (n: Output.Node)
    ensures n.Map? && Output.Keys(n.entries) == LegacyEpisodeKeys
  {
    Output.Map([(Output.EpisodeNumber, Output.Int(e.episodeNum)),
                (Output.EpisodeTitle, Output.Str(e.title)),
                (Output.EpisodeUrl, Output.Str(e.url)),
                (Output.EpisodeSynopsis, Output.Str(synopsis))])
  }

  /** The script's episodes read back with the package's reader: number,
      title and address come back, and the synopsis text unless it is the
      package's `あらすじなし`. */
  lemma ReadLegacyEpisode(e: Entry, synopsis: string)
    ensures Output.ReadEpisode(LegacyEpisodeNode(e, synopsis)) == Some(EpisodeMetadata(
      e.episodeNum, e.title, if synopsis == Output.NoSynopsis then None else Some(synopsis), Some(e.url)))
  {
    var es := LegacyEpisodeNode(e, synopsis).entries;
    Output.LookupFirst(es, Output.EpisodeNumber, 0);
    Output.LookupFirst(es, Output.EpisodeTitle, 1);
    Output.LookupFirst(es, Output.EpisodeUrl, 2);
    Output.LookupFirst(es, Output.EpisodeSynopsis, 3);
  }

  /** `yaml_data` once its episode list is filled. */
  function LegacyYaml(title: string, url: string, items: seq<Output.Node>): (n: Output.Node)
    ensures n.Map? && Output.Keys(n.entries) == LegacySeriesKeys
  {
    Output.Map([(Output.SeriesTitle, Output.Str(title)),
                (Output.SourceUrl, Output.Str(url)),
                (Output.TotalEpisodes, Output.Int(|items|)),
                (Output.Episodes, Output.List(items))])
  }

  /** Looking the document's keys up gives the title, the address, the
      episode count and the episodes, and the count is the number of
      episodes listed. */
  lemma LegacyYamlEntries(title: string, url: string, items: seq<Output.Node>)
    ensures var es := LegacyYaml(title, url, items).entries;
      && Output.Lookup(es, Output.SeriesTitle) == Some(Output.Str(title))
      && Output.Lookup(es, Output.SourceUrl) == Some(Output.Str(url))
      && Output.Lookup(es, Output.TotalEpisodes) == Some(Output.Int(|items|))
      && Output.Lookup(es, Output.Episodes) == Some(Output.List(items))
      && Output.Lookup(es, Output.ExtractionDate).None?
  {
    var es := LegacyYaml(title, url, items).entries;
    Output.LookupFirst(es, Output.SeriesTitle, 0);
    Output.LookupFirst(es, Output.SourceUrl, 1);
    Output.LookupFirst(es, Output.TotalEpisodes, 2);
    Output.LookupFirst(es, Output.Episodes, 3);
    Output.LookupSpec(es, Output.ExtractionDate);
  }

  /** `yaml_data` and the loop that fills its episode list (lines 130-144).
      The loop reads `ep['synopsis']`, so the first entry without one
      raises `KeyError`: the result is then that entry's index. */
  method LegacyDocument(title: string, url: string, list: seq<Entry>) returns (r: Result<Output.Node, nat>)
    ensures r.Failure? <==> exists i :: 0 <= i < |list| && list[i].synopsis.None?
    ensures r.Failure? ==>
      && r.error < |list|
      && list[r.error].synopsis.None?
      && (forall j :: 0 <= j < r.error ==> list[j].synopsis.Some?)
    ensures r.Success? ==> exists items: seq<Output.Node> ::
      && r.value == LegacyYaml(title, url, items)
      && |items| == |list|
      && (forall i :: 0 <= i < |list| ==> items[i] == LegacyEpisodeNode(list[i], list[i].synopsis.value))
  {
    var items: seq<Output.Node> := [];
    for k := 0 to |list|
      invariant |items| == k
      invariant forall i :: 0 <= i < k ==> list[i].synopsis.Some?
      invariant forall i :: 0 <= i < k ==> items[i] == LegacyEpisodeNode(list[i], list[i].synopsis.value)
    {
      match list[k].synopsis
      case None =>
        return Failure(k);
      case Some(s) =>
        items := items + [LegacyEpisodeNode(list[k], s)];
    }
    r := Success(LegacyYaml(title, url, items));
  }

  /** The episode the script writes for an entry. */
  function WrittenEpisode(e: Entry, fetchSynopsisFlag: bool, fetchPage: string -> Option<string>,
                          unicodeEscape: string -> Option<string>): Output.Node {
    LegacyEpisodeNode(e, if fetchSynopsisFlag
                         then SynopsisOrUnavailable(FetchSynopsis(fetchPage, unicodeEscape, e.url))
                         else Skipped)
  }

  /** Synopses, then the document, for a list of entries without synopses:
      the document, with the synopsis count, or the index of the `KeyError`,
      which comes exactly when more than 50 synopses were wanted. */
  method SynopsesAndDocument(title: string, url: string, list: seq<Entry>, fetchSynopsisFlag: bool,
                             fetchPage: string -> Option<string>, unicodeEscape: string -> Option<string>)
    returns (r: Result<(Output.Node, nat), nat>)
    requires forall i :: 0 <= i < |list| ==> list[i].synopsis.None?
    ensures r.Failure? <==> fetchSynopsisFlag && |list| > SynopsisLimit
    ensures r.Failure? ==> r.error == SynopsisLimit
    ensures r.Success? ==> r.value.1 == if fetchSynopsisFlag then |list| else 0
    ensures r.Success? ==> exists items: seq<Output.Node> ::
      && r.value.0 == LegacyYaml(title, url, items)
      && |items| == |list|
      && (forall i :: 0 <= i < |list| ==> items[i] == WrittenEpisode(list[i], fetchSynopsisFlag, fetchPage, unicodeEscape))
  {
    var filled, count := FillSynopses(list, fetchSynopsisFlag, fetchPage, unicodeEscape);
    assert forall j :: 0 <= j < |filled| && (!fetchSynopsisFlag || j < SynopsisLimit) ==> filled[j].synopsis.Some?;
    assert fetchSynopsisFlag && |list| > SynopsisLimit ==> filled[SynopsisLimit].synopsis.None?;
    var doc := LegacyDocument(title, url, filled);
    match doc
    case Failure(i) =>
      r := Failure(i);
    case Success(d) =>
      var items: seq<Output.Node> :| && d == LegacyYaml(title, url, items)
        && |items| == |filled|
        && (forall i :: 0 <= i < |filled| ==> items[i] == LegacyEpisodeNode(filled[i], filled[i].synopsis.value));
      forall i | 0 <= i < |list|
        ensures items[i] == WrittenEpisode(list[i], fetchSynopsisFlag, fetchPage, unicodeEscape)
      {
        assert filled[i] == list[i].(synopsis := filled[i].synopsis);
      }
      r := Success((d, count));
  }

  /** The comment lines written before the YAML text; the date is fixed in
      the script. */
  function LegacyHeader(title: string, url: string): string {
    "# " + title + " - AbemaTV エピソード情報\n"
      + "# データソース: " + url + "\n"
      + "# 取得日時: 2025-12-24\n\n"
  }

  /** How a run of the script ends. */
  datatype LegacyOutcome =
    | PageUnavailable
      // `fetch_page` raised on the series page.
    | NoEpisodes
      // No episode was found: a message and no file (lines 108-110).
    | MissingSynopsis(index: nat)
      // `KeyError` at line 142 for the entry at `index`, before any file is written.
    | Written(header: string, document: Output.Node, synopsisCount: nat)
      // The file is `header` followed by `document` dumped as YAML.

  /** Every entry of the list comes without a synopsis. */
  lemma LegacyEntriesHaveNoSynopsis(content: string, url: string)
    ensures forall i :: 0 <= i < |LegacyEpisodeList(content, url)| ==> LegacyEpisodeList(content, url)[i].synopsis.None?
  {
    var blocks := Blocks(content);
    var f := (b: string) => LegacyParseBlock(b, url);
    var c := LegacyCollect(blocks, url);
    var list := LegacyEpisodeList(content, url);
    FilterMapSpec(f, blocks);
    forall i | 0 <= i < |list|
      ensures list[i].synopsis.None?
    {
      assert list[i] in multiset(list);
      assert list[i] in c;
      var j :| 0 <= j < |blocks| && f(blocks[j]) == Some(list[i]);
    }
  }

  /** `extract_episodes(url, output, fetch_synopsis_flag)`: the file is
      written exactly when the page can be fetched, has episodes, and at
      most 50 synopses are wanted; it holds the title of the last block
      that offers one, the address, the count and every episode in order of
      number. */
  method LegacyExtract(url: string, fetchSynopsisFlag: bool, fetchPage: string -> Option<string>,
                       unicodeEscape: string -> Option<string>)
    returns (outcome: LegacyOutcome)
    ensures outcome.PageUnavailable? <==> fetchPage(url).None?
    ensures fetchPage(url).Some? ==>
      var list := LegacyEpisodeList(fetchPage(url).value, url);
      && (outcome.NoEpisodes? <==> |list| == 0)
      && (outcome.MissingSynopsis? <==> |list| > 0 && fetchSynopsisFlag && |list| > SynopsisLimit)
      && (outcome.MissingSynopsis? ==> outcome.index == SynopsisLimit)
      && (outcome.Written? ==>
            var title := LastBlockTitle(Blocks(fetchPage(url).value)).GetOr(LegacyDefaultTitle);
            && outcome.header == LegacyHeader(title, url)
            && outcome.synopsisCount == (if fetchSynopsisFlag then |list| else 0)
            && exists items: seq<Output.Node> ::
                 && outcome.document == LegacyYaml(title, url, items)
                 && |items| == |list|
                 && (forall i :: 0 <= i < |list| ==>
                       items[i] == WrittenEpisode(list[i], fetchSynopsisFlag, fetchPage, unicodeEscape)))
  {
    match fetchPage(url)
    case None =>
      return PageUnavailable;
    case Some(content) =>
      var blocks := Blocks(content);
      var title := LegacySeriesTitle(blocks);
      LegacyTitleIsLast(blocks, title);
      var list := LegacyEpisodeList(content, url);
      if |list| == 0 {
        return NoEpisodes;
      }
      LegacyEntriesHaveNoSynopsis(content, url);
      var r := SynopsesAndDocument(title, url, list, fetchSynopsisFlag, fetchPage, unicodeEscape);
      match r
      case Failure(i) =>
        outcome := MissingSynopsis(i);
      case Success((d, count)) =>
        outcome := Written(LegacyHeader(title, url), d, count);
  }
}
