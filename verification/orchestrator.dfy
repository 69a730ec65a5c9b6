/** `extract_all_metadata` (abema_metadata/extractor.py lines 96-113): fetch
    the series page, read its title and episodes, and, when asked, fill in
    each episode's synopsis from its own page. The page fetch, Python's
    `unicode_escape` codec and the run date are parameters: a fetch that
    raises is `None`, and the date is the `YYYY-MM-DD` text of `today`. */
module Orchestrator {
  import opened Wrappers
  import opened Models
  import opened StableSort
  import opened Title
  import opened Episodes
  import opened Synopsis

  /** Python's truth test on `episode.url`: neither `None` nor empty. */
  predicate Truthy(url: Option<string>) {
    url.Some? && url.value != ""
  }

  /** One pass of the synopsis loop: an episode with a page address gets
      whatever the synopsis fetch returns, `None` included. */
  function WithSynopsis(e: EpisodeMetadata, fetchPage: string -> Option<string>,
                        unicodeEscape: string -> Option<string>): EpisodeMetadata {
    if Truthy(e.url) then e.(synopsis := FetchSynopsis(fetchPage, unicodeEscape, e.url.value)) else e
  }

  /** The loop over the episode list, which updates each record in place. */
  function AddSynopses(eps: seq<EpisodeMetadata>, fetchPage: string -> Option<string>,
                       unicodeEscape: string -> Option<string>): (r: seq<EpisodeMetadata>)
    ensures |r| == |eps|
    ensures forall i :: 0 <= i < |eps| ==>
      && r[i].number == eps[i].number
      && r[i].title == eps[i].title
      && r[i].url == eps[i].url
      && (Truthy(eps[i].url) ==> r[i].synopsis == FetchSynopsis(fetchPage, unicodeEscape, eps[i].url.value))
      && (!Truthy(eps[i].url) ==> r[i].synopsis == eps[i].synopsis)
  {
    seq(|eps|, i requires 0 <= i < |eps| => WithSynopsis(eps[i], fetchPage, unicodeEscape))
  }

  /** An episode with its synopsis forgotten. */
  function Strip(e: EpisodeMetadata): EpisodeMetadata {
    e.(synopsis := None)
  }

  function StripAll(eps: seq<EpisodeMetadata>): (r: seq<EpisodeMetadata>)
    ensures |r| == |eps|
  {
    seq(|eps|, i requires 0 <= i < |eps| => Strip(eps[i]))
  }

  /** Filling in synopses changes nothing but synopses: forgetting them
      again gives the list back, and the order by number is kept. */
  lemma AddSynopsesOnlySynopses(eps: seq<EpisodeMetadata>, fetchPage: string -> Option<string>,
                                unicodeEscape: string -> Option<string>)
    ensures StripAll(AddSynopses(eps, fetchPage, unicodeEscape)) == StripAll(eps)
    ensures Sorted(eps, NumberOf) ==> Sorted(AddSynopses(eps, fetchPage, unicodeEscape), NumberOf)
  {
    var r := AddSynopses(eps, fetchPage, unicodeEscape);
    assert forall i :: 0 <= i < |eps| ==> NumberOf(r[i]) == NumberOf(eps[i]);
  }

  /** A list with no synopses is its own stripped form. */
  lemma StripAllNoSynopses(eps: seq<EpisodeMetadata>)
    requires forall e :: e in eps ==> e.synopsis.None?
    ensures StripAll(eps) == eps
  {
    forall i | 0 <= i < |eps|
      ensures StripAll(eps)[i] == eps[i]
    {
      assert eps[i] in eps;
    }
  }

  /** `extract_all_metadata(url, include_synopsis)`. */
  function ExtractAllMetadata(url: string, includeSynopsis: bool, today: string,
                              fetchPage: string -> Option<string>,
                              unicodeEscape: string -> Option<string>): Option<SeriesMetadata> {
    match fetchPage(url)
    case None => None
    case Some(content) =>
      var episodes := ExtractEpisodes(content, url);
      Some(SeriesMetadata(
        ExtractSeriesTitle(content),
        url,
        today,
        if includeSynopsis then AddSynopses(episodes, fetchPage, unicodeEscape) else episodes))
  }

  /** The result exists exactly when the series page can be fetched; it
      carries the page's title, the URL and date as given, and the page's
      episodes in the same order by number. Without synopses they are the
      extracted records unchanged; with them, each episode that has a page
      address holds that page's synopsis and the others hold none. */
  lemma ExtractAllMetadataSpec(url: string, includeSynopsis: bool, today: string,
                               fetchPage: string -> Option<string>,
                               unicodeEscape: string -> Option<string>)
    ensures ExtractAllMetadata(url, includeSynopsis, today, fetchPage, unicodeEscape).Some?
      <==> fetchPage(url).Some?
    ensures fetchPage(url).Some? ==>
      var m := ExtractAllMetadata(url, includeSynopsis, today, fetchPage, unicodeEscape).value;
      var extracted := ExtractEpisodes(fetchPage(url).value, url);
      && m.title == ExtractSeriesTitle(fetchPage(url).value)
      && m.sourceUrl == url
      && m.extractionDate == today
      && Sorted(m.episodes, NumberOf)
      && StripAll(m.episodes) == extracted
      && (!includeSynopsis ==> m.episodes == extracted)
      && (forall i :: 0 <= i < |m.episodes| ==>
            m.episodes[i].synopsis ==
              if includeSynopsis && Truthy(m.episodes[i].url)
              then FetchSynopsis(fetchPage, unicodeEscape, m.episodes[i].url.value)
              else None)
  {
    if fetchPage(url).Some? {
      var content := fetchPage(url).value;
      var extracted := ExtractEpisodes(content, url);
      ExtractedEpisodes(content, url);
      StripAllNoSynopses(extracted);
      AddSynopsesOnlySynopses(extracted, fetchPage, unicodeEscape);
      forall i | 0 <= i < |extracted|
        ensures extracted[i].synopsis.None?
      {
        assert extracted[i] in extracted;
      }
    }
  }
}
