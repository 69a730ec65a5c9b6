/** The two records the extractor produces. */
module Models {
  import opened Wrappers

  /** One episode: its number, subtitle, and the synopsis and page URL when
      they are known. */
  datatype EpisodeMetadata = EpisodeMetadata(
    number: int,
    title: string,
    synopsis: Option<string>,
    url: Option<string>)

  /** A series page's extraction result. The date is the run date as
      `YYYY-MM-DD` text. */
  datatype SeriesMetadata = SeriesMetadata(
    title: string,
    sourceUrl: string,
    extractionDate: string,
    episodes: seq<EpisodeMetadata>)

  /** `EpisodeMetadata(number=…, title=…)`: synopsis and URL default to absent. */
  function NewEpisode(number: int, title: string): (e: EpisodeMetadata)
    ensures e.number == number && e.title == title
    ensures e.synopsis.None? && e.url.None?
  {
    EpisodeMetadata(number, title, None, None)
  }

  /** `SeriesMetadata(title=…, source_url=…, extraction_date=…)`: the episode
      list defaults to a new empty list. */
  function NewSeries(title: string, sourceUrl: string, extractionDate: string): (m: SeriesMetadata)
    ensures m.title == title && m.sourceUrl == sourceUrl && m.extractionDate == extractionDate
    ensures m.episodes == []
  {
    SeriesMetadata(title, sourceUrl, extractionDate, [])
  }

  /** The sort key the extractor uses. */
  function NumberOf(e: EpisodeMetadata): int {
    e.number
  }
}
