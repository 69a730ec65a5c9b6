/** `extract_episodes` of the package (abema_metadata/extractor.py lines
    36-68): every JSON-LD block whose caption names an episode gives one
    episode record, and the records come out stably sorted by number. */
module Episodes {
  import opened Wrappers
  import opened Strings
  import opened CharClass
  import opened Decimal
  import opened Fields
  import opened Scanner
  import opened Caption
  import opened EpisodeId
  import opened Models
  import opened StableSort
  import opened Lists

  /** What one block's caption and thumbnail give: the episode's number and
      title, and the thumbnail address (empty when the block has none). */
  datatype CaptionHit = CaptionHit(parts: CaptionParts, thumbnailUrl: string)

  /** The per-block steps both extractors share: the `'caption' in` test,
      the caption field, the `第`/`話` test, the caption pattern, and the
      `url` field or `''`. */
  function BlockCaption(block: string): (r: Option<CaptionHit>)
    ensures r.Some? ==> Contains(block, "caption")
    ensures r.Some? ==> FieldSearch(block, "caption").Some?
    ensures r.Some? ==> ParseCaption(FieldSearch(block, "caption").value) == Some(r.value.parts)
  {
    if !Contains(block, "caption") then None
    else
      match FieldSearch(block, "caption")
      case None => None
      case Some(caption) =>
        if !('第' in caption && '話' in caption) then None
        else
          match ParseCaption(caption)
          case None => None
          case Some(p) => Some(CaptionHit(p, FieldSearch(block, "url").GetOr("")))
  }

  /** The two plain-text tests in front of the caption pattern never turn
      a block away that the field and caption patterns would accept: a
      block yields a hit exactly when its caption field parses. */
  lemma BlockCaptionGuards(block: string)
    ensures BlockCaption(block).Some? <==>
      FieldSearch(block, "caption").Some? && ParseCaption(FieldSearch(block, "caption").value).Some?
    ensures BlockCaption(block).Some? ==>
      BlockCaption(block).value.thumbnailUrl == FieldSearch(block, "url").GetOr("")
  {
    var f := FieldSearch(block, "caption");
    if f.Some? && ParseCaption(f.value).Some? {
      FieldSearchImpliesName(block, "caption");
      ParsedHasGlyphs(f.value);
    }
  }

  /** One block's episode record, as the package builds it: number and
      title from the caption, no synopsis yet, and the episode page when an
      identifier could be made. */
  function ParseBlock(block: string, seriesUrl: string): (r: Option<EpisodeMetadata>)
    ensures r.Some? <==> BlockCaption(block).Some?
    ensures r.Some? ==>
      && r.value.number == BlockCaption(block).value.parts.number
      && r.value.title == BlockCaption(block).value.parts.title
      && r.value.synopsis.None?
      && (r.value.url.Some? <==> SeriesSlug(seriesUrl).Some?)
  {
    match BlockCaption(block)
    case None => None
    case Some(h) =>
      var n := h.parts.number;
      Some(EpisodeMetadata(n, h.parts.title, None, EpisodeUrlFor(h.thumbnailUrl, seriesUrl, n)))
  }

  /** The `episodes` list before sorting: the records of the blocks, in
      block order. */
  function Collect(blocks: seq<string>, seriesUrl: string): seq<EpisodeMetadata> {
    FilterMap((b: string) => ParseBlock(b, seriesUrl), blocks)
  }

  /** One record per block that yields one, in block order: the records
      correspond one to one, in order, to the increasing indices of the
      yielding blocks. Hence at most one record per block; every record
      comes from a block and every block that yields a record is
      represented. */
  lemma CollectAtMostOnePerBlock(blocks: seq<string>, seriesUrl: string)
    ensures var f := (b: string) => ParseBlock(b, seriesUrl);
      FromSources(Collect(blocks, seriesUrl), SourcesFrom(f, blocks, 0), f, blocks, 0)
    ensures |Collect(blocks, seriesUrl)| <= |blocks|
    ensures forall e :: e in Collect(blocks, seriesUrl) ==>
      exists j :: 0 <= j < |blocks| && ParseBlock(blocks[j], seriesUrl) == Some(e)
    ensures forall j :: 0 <= j < |blocks| && ParseBlock(blocks[j], seriesUrl).Some? ==>
      ParseBlock(blocks[j], seriesUrl).value in Collect(blocks, seriesUrl)
  {
    var f := (b: string) => ParseBlock(b, seriesUrl);
    FilterMapSources(f, blocks, 0);
    FilterMapSpec(f, blocks);
    forall e | e in Collect(blocks, seriesUrl)
      ensures exists j :: 0 <= j < |blocks| && ParseBlock(blocks[j], seriesUrl) == Some(e)
    {
      var j :| 0 <= j < |blocks| && f(blocks[j]) == Some(e);
      assert ParseBlock(blocks[j], seriesUrl) == Some(e);
    }
    forall j | 0 <= j < |blocks| && ParseBlock(blocks[j], seriesUrl).Some?
      ensures ParseBlock(blocks[j], seriesUrl).value in Collect(blocks, seriesUrl)
    {
      assert f(blocks[j]).Some?;
    }
  }

  /** `extract_episodes`: the records of all blocks of the page, sorted by
      episode number, blocks with the same number kept in page order. */
  function ExtractEpisodes(content: string, seriesUrl: string): (r: seq<EpisodeMetadata>)
    ensures Sorted(r, NumberOf)
    ensures SameRuns(r, Collect(Blocks(content), seriesUrl), NumberOf)
    ensures multiset(r) == multiset(Collect(Blocks(content), seriesUrl))
  {
    SortBy(Collect(Blocks(content), seriesUrl), NumberOf)
  }

  /** What every collected record carries: a number, no synopsis yet, and
      the episode page exactly when the series address has a slug. */
  lemma CollectedRecords(blocks: seq<string>, seriesUrl: string)
    ensures forall e :: e in Collect(blocks, seriesUrl) ==>
      && e.number >= 0
      && e.synopsis.None?
      && (e.url.Some? <==> SeriesSlug(seriesUrl).Some?)
      && (e.url.Some? ==>
            e.url.value == EpisodePagePrefix + SeriesSlug(seriesUrl).value + SeasonPart + NatToString(e.number))
  {
    CollectAtMostOnePerBlock(blocks, seriesUrl);
    forall e | e in Collect(blocks, seriesUrl)
      ensures e.url.Some? ==>
        e.url.value == EpisodePagePrefix + SeriesSlug(seriesUrl).value + SeasonPart + NatToString(e.number)
    {
      var j :| 0 <= j < |blocks| && ParseBlock(blocks[j], seriesUrl) == Some(e);
      var h := BlockCaption(blocks[j]).value;
      assert e.url == EpisodeUrlFor(h.thumbnailUrl, seriesUrl, h.parts.number);
    }
  }

  /** Every extracted record comes from one block's caption, has no synopsis
      yet, and has the episode page `…/episode/<slug>_s1_p<n>` exactly when
      the series address has a slug; every qualifying block is represented,
      and there are exactly as many records as yielding blocks. */
  lemma ExtractedEpisodes(content: string, seriesUrl: string)
    ensures var r := ExtractEpisodes(content, seriesUrl);
      && |r| <= |Blocks(content)|
      && |r| == |SourcesFrom((b: string) => ParseBlock(b, seriesUrl), Blocks(content), 0)|
      && (forall e :: e in r ==>
            && e.number >= 0
            && e.synopsis.None?
            && (e.url.Some? <==> SeriesSlug(seriesUrl).Some?)
            && (e.url.Some? ==>
                  e.url.value == EpisodePagePrefix + SeriesSlug(seriesUrl).value + SeasonPart + NatToString(e.number))
            && exists j :: 0 <= j < |Blocks(content)| && ParseBlock(Blocks(content)[j], seriesUrl) == Some(e))
      && (forall j :: 0 <= j < |Blocks(content)| && ParseBlock(Blocks(content)[j], seriesUrl).Some? ==>
            ParseBlock(Blocks(content)[j], seriesUrl).value in r)
  {
    var blocks := Blocks(content);
    var c := Collect(blocks, seriesUrl);
    var r := ExtractEpisodes(content, seriesUrl);
    assert |r| == |c| && forall e :: e in r <==> e in c by {
      assert |r| == |multiset(r)| == |multiset(c)| == |c|;
      forall e
        ensures e in r <==> e in c
      {
        assert e in r <==> e in multiset(r);
        assert e in c <==> e in multiset(c);
      }
    }
    CollectAtMostOnePerBlock(blocks, seriesUrl);
    CollectedRecords(blocks, seriesUrl);
  }

  // The episode test page: two image blocks, each with a context, a type,
  // a caption and a thumbnail address, laid out with the test's indentation.

  const Indent: string := "\n        "
  const Separator: string := "," + Indent

  const ImageLead: string := "\n    {" + Indent
  const ContextField: string := Field("@context", "", " ", "https://schema.org")
  const TypeField: string := Field("@type", "", " ", "ImageObject")

  /** The closing brace and the indentation up to the closing tag. */
  const ImageFooter: string := "\n    }\n    "

  /** A structured-data image block as the test page writes it. */
  function ImageBlock(caption: string, url: string): string {
    ImageLead + (ContextField + (Separator + (TypeField + (Separator +
      (Field("caption", "", " ", caption) + (Separator + (Field("url", "", " ", url) + ImageFooter)))))))
  }

  /** Two header fields after quote-free text are passed over by the search
      for a name none of their parts starts with. */
  lemma HeaderSkip(lead: string, k1: string, v1: string, k2: string, v2: string, sep: string,
                   rest: string, name: string)
    requires |name| >= 1 && name[0] != ':' && '"' !in lead
    requires |k1| >= 1 && |v1| >= 1 && |k2| >= 1 && |v2| >= 1 && |sep| >= 1
    requires '"' !in k1 && '"' !in v1 && '"' !in k2 && '"' !in v2 && '"' !in sep
    requires k1[0] != name[0] && v1[0] != name[0] && k2[0] != name[0] && v2[0] != name[0]
    requires sep[0] != name[0]
    ensures FieldSearch(lead + (Field(k1, "", " ", v1) + (sep + (Field(k2, "", " ", v2) + (sep + rest)))), name)
      == FieldSearch(rest, name)
  {
    var t2 := Field(k2, "", " ", v2) + (sep + rest);
    var t1 := Field(k1, "", " ", v1) + (sep + t2);
    FieldSearchSkip(lead, t1, name);
    FieldSearchSkipField(k1, v1, sep, t2, name);
    FieldSearchSkipField(k2, v2, sep, rest, name);
  }

  lemma ImageHeaderText()
    ensures '"' !in ImageLead
    ensures |Separator| >= 1 && '"' !in Separator && Separator[0] == ','
  {
  }

  /** The search for a name starting with neither `@`, `h`, `I`, `,` nor
      `:` passes over the header fields. */
  lemma ImageHeaderSkip(rest: string, name: string)
    requires |name| >= 1
    requires name[0] != '@' && name[0] != 'h' && name[0] != 'I' && name[0] != ',' && name[0] != ':'
    ensures FieldSearch(ImageLead + (ContextField + (Separator + (TypeField + (Separator + rest)))), name)
      == FieldSearch(rest, name)
  {
    ImageHeaderText();
    HeaderSkip(ImageLead, "@context", "https://schema.org", "@type", "ImageObject", Separator, rest, name);
  }

  /** The caption and the address of an image block read back. */
  lemma ImageBlockFields(caption: string, url: string)
    requires |caption| >= 1 && '"' !in caption && caption[0] != 'u'
    requires |url| >= 1 && '"' !in url
    ensures FieldSearch(ImageBlock(caption, url), "caption") == Some(caption)
    ensures FieldSearch(ImageBlock(caption, url), "url") == Some(url)
  {
    var tail := Field("url", "", " ", url) + ImageFooter;
    var body := Field("caption", "", " ", caption) + (Separator + tail);
    ImageBlockBody(caption, url, body);
    ImageHeaderSkip(body, "caption");
    ImageHeaderSkip(body, "url");
    ImageBodyFields(caption, url, tail, body);
  }

  lemma ImageBlockBody(caption: string, url: string, body: string)
    requires body == Field("caption", "", " ", caption) + (Separator + (Field("url", "", " ", url) + ImageFooter))
    ensures ImageBlock(caption, url) == ImageLead + (ContextField + (Separator + (TypeField + (Separator + body))))
  {
  }

  lemma ImageBodyFields(caption: string, url: string, tail: string, body: string)
    requires |caption| >= 1 && '"' !in caption && caption[0] != 'u'
    requires |url| >= 1 && '"' !in url
    requires tail == Field("url", "", " ", url) + ImageFooter
    requires body == Field("caption", "", " ", caption) + (Separator + tail)
    ensures FieldSearch(body, "caption") == Some(caption)
    ensures FieldSearch(body, "url") == Some(url)
  {
    ImageHeaderText();
    FieldSearchField("caption", caption, Separator + tail);
    FieldSearchSkipField("caption", caption, Separator, tail, "url");
    FieldSearchField("url", url, ImageFooter);
  }

  /** An image block whose caption parses gives that episode, with the
      thumbnail address. */
  lemma ImageBlockCaption(caption: string, url: string)
    requires |caption| >= 1 && '"' !in caption && caption[0] != 'u'
    requires |url| >= 1 && '"' !in url
    requires ParseCaption(caption).Some?
    ensures BlockCaption(ImageBlock(caption, url)) == Some(CaptionHit(ParseCaption(caption).value, url))
  {
    ImageBlockFields(caption, url);
    BlockCaptionGuards(ImageBlock(caption, url));
  }

  const TestCaption1: string := "テストシリーズ 第1話 はじめての冒険のサムネイル"
  const TestCaption2: string := "テストシリーズ 第2話 新しい出会い"
  const TestThumbnail1: string := "https://abema.tv/video/programs/test-1"
  const TestThumbnail2: string := "https://abema.tv/video/programs/test-2"

  /** The page of the episode test. */
  function TestEpisodePage(): string {
    Page([ImageBlock(TestCaption1, TestThumbnail1), ImageBlock(TestCaption2, TestThumbnail2)], "\n    ")
  }

  const TestEpisode1: EpisodeMetadata :=
    EpisodeMetadata(1, "はじめての冒険", None, Some("https://abema.tv/video/episode/test-series_s1_p1"))
  const TestEpisode2: EpisodeMetadata :=
    EpisodeMetadata(2, "新しい出会い", None, Some("https://abema.tv/video/episode/test-series_s1_p2"))

  lemma TestPageBlocks()
    ensures Blocks(TestEpisodePage())
      == [ImageBlock(TestCaption1, TestThumbnail1), ImageBlock(TestCaption2, TestThumbnail2)]
  {
    var b1 := ImageBlock(TestCaption1, TestThumbnail1);
    var b2 := ImageBlock(TestCaption2, TestThumbnail2);
    TestCaptionText();
    TestThumbnailText();
    ImageBlockNoTag(TestCaption1, TestThumbnail1);
    ImageBlockNoTag(TestCaption2, TestThumbnail2);
    NoLessThanNoClose(b1);
    NoLessThanNoClose(b2);
    BlocksOfPage([b1, b2], "\n    ");
  }

  /** The test's captions and addresses are plain field values. */
  lemma TestCaptionText()
    ensures |TestCaption1| >= 1 && '"' !in TestCaption1 && '<' !in TestCaption1 && TestCaption1[0] != 'u'
    ensures |TestCaption2| >= 1 && '"' !in TestCaption2 && '<' !in TestCaption2 && TestCaption2[0] != 'u'
  {
  }

  lemma TestThumbnailText()
    ensures |TestThumbnail1| >= 1 && '"' !in TestThumbnail1 && '<' !in TestThumbnail1
    ensures |TestThumbnail2| >= 1 && '"' !in TestThumbnail2 && '<' !in TestThumbnail2
  {
  }

  /** An image block holds no `<` unless its caption or address does. */
  lemma ImageBlockNoTag(caption: string, url: string)
    requires '<' !in caption && '<' !in url
    ensures '<' !in ImageBlock(caption, url)
  {
    assert '<' !in ImageLead && '<' !in ContextField && '<' !in Separator && '<' !in TypeField;
    assert '<' !in ImageFooter && '<' !in Field("caption", "", " ", caption) && '<' !in Field("url", "", " ", url);
  }

  /** The record of an image block of the test series, from the parts its
      caption parses to. */
  lemma ImageBlockEpisode(caption: string, url: string, n: nat, title: string, page: string)
    requires |caption| >= 1 && '"' !in caption && caption[0] != 'u'
    requires |url| >= 1 && '"' !in url
    requires ParseCaption(caption) == Some(CaptionParts(n, title))
    requires page == EpisodePagePrefix + "test-series" + SeasonPart + NatToString(n)
    ensures ParseBlock(ImageBlock(caption, url), ExampleSeriesUrl)
      == Some(EpisodeMetadata(n, title, None, Some(page)))
  {
    ImageBlockCaption(caption, url);
    ExampleSeriesSlug();
  }

  lemma TestPages()
    ensures EpisodePagePrefix + "test-series" + SeasonPart + NatToString(1)
      == "https://abema.tv/video/episode/test-series_s1_p1"
    ensures EpisodePagePrefix + "test-series" + SeasonPart + NatToString(2)
      == "https://abema.tv/video/episode/test-series_s1_p2"
  {
    assert NatToString(1) == "1" && NatToString(2) == "2";
  }

  lemma TestBlock1()
    ensures ParseBlock(ImageBlock(TestCaption1, TestThumbnail1), ExampleSeriesUrl) == Some(TestEpisode1)
  {
    TestCaptionText();
    TestThumbnailText();
    TestPages();
    ExampleThumbnailCaption();
    ImageBlockEpisode(TestCaption1, TestThumbnail1, 1, "はじめての冒険", TestEpisode1.url.value);
  }

  lemma TestBlock2()
    ensures ParseBlock(ImageBlock(TestCaption2, TestThumbnail2), ExampleSeriesUrl) == Some(TestEpisode2)
  {
    TestCaptionText();
    TestThumbnailText();
    TestPages();
    ExamplePlainCaption();
    ImageBlockEpisode(TestCaption2, TestThumbnail2, 2, "新しい出会い", TestEpisode2.url.value);
  }

  /** The test page gives episode 1 "はじめての冒険" and episode 2
      "新しい出会い", in that order, with their episode pages. */
  lemma TestEpisodePageEpisodes()
    ensures ExtractEpisodes(TestEpisodePage(), ExampleSeriesUrl) == [TestEpisode1, TestEpisode2]
  {
    TestPageBlocks();
    TestBlock1();
    TestBlock2();
    ExtractTwo(TestEpisodePage(), ExampleSeriesUrl, ImageBlock(TestCaption1, TestThumbnail1),
      ImageBlock(TestCaption2, TestThumbnail2), TestEpisode1, TestEpisode2);
  }

  /** A page of two episode blocks already in order gives their records in
      that order. */
  lemma ExtractTwo(content: string, seriesUrl: string, b1: string, b2: string, e1: EpisodeMetadata, e2: EpisodeMetadata)
    requires Blocks(content) == [b1, b2]
    requires ParseBlock(b1, seriesUrl) == Some(e1) && ParseBlock(b2, seriesUrl) == Some(e2)
    requires e1.number <= e2.number
    ensures ExtractEpisodes(content, seriesUrl) == [e1, e2]
  {
    var f := (b: string) => ParseBlock(b, seriesUrl);
    FilterMapPair(f, b1, b2);
    assert Collect(Blocks(content), seriesUrl) == [e1, e2];
    StableSortIsSortBy([e1, e2], [e1, e2], NumberOf);
  }
}
