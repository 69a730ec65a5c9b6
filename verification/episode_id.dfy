/** Episode identifiers and episode page addresses: the series slug taken
    from a `/title/<slug>` series address (extractor.py lines 70-79), the
    `<slug>_s1_p<n>` identifier, the episode page template (line 65), and
    the older script's `/programs/<id>/` thumbnail rule with its `unknown`
    fallback (abema_extractor.py lines 86-96). */
module EpisodeId {
  import opened Wrappers
  import opened Strings
  import opened Decimal
  import opened Search

  const TitleMarker: string := "/title/"
  const ProgramsMarker: string := "/programs/"
  const SeasonPart: string := "_s1_p"
  const EpisodePagePrefix: string := "https://abema.tv/video/episode/"
  const UnknownSlug: string := "unknown"

  predicate NotSlash(c: char) {
    c != '/'
  }

  /** `/title/([^/]+)` matched at index `i`: the marker and the longest
      non-empty run of characters other than `/` after it. */
  function SlugAt(url: string, i: nat): (r: Option<string>)
    ensures r.Some? ==> |r.value| >= 1 && '/' !in r.value
  {
    if !OccursAt(url, TitleMarker, i) then None
    else
      var a := i + |TitleMarker|;
      var e := RunEnd(url, a, NotSlash);
      if e == a then None
      else
        assert forall j :: 0 <= j < e - a ==> url[a..e][j] == url[a + j];
        Some(url[a..e])
  }

  /** `re.search(r'/title/([^/]+)', url)`: the slug at the first position
      where the pattern matches. */
  function SeriesSlug(url: string): Option<string> {
    FirstMatch((i: nat) => SlugAt(url, i), 0, |url|)
  }

  /** The slug found is the one at the first position where the pattern
      matches. */
  lemma SeriesSlugFirst(url: string)
    requires SeriesSlug(url).Some?
    ensures exists i ::
      && 0 <= i <= |url| && SlugAt(url, i) == SeriesSlug(url)
      && forall j :: 0 <= j < i ==> SlugAt(url, j).None?
  {
    var f := (i: nat) => SlugAt(url, i);
    FirstMatchSpec(f, 0, |url|);
    var i :| 0 <= i <= |url| && f(i) == SeriesSlug(url) && forall j :: 0 <= j < i ==> f(j).None?;
    forall j | 0 <= j < i
      ensures SlugAt(url, j).None?
    {
      assert f(j).None?;
    }
  }

  /** There is no slug exactly when the pattern matches at no position. */
  lemma SeriesSlugNone(url: string)
    ensures SeriesSlug(url).None? <==> forall i: nat :: i <= |url| ==> SlugAt(url, i).None?
  {
    var f := (i: nat) => SlugAt(url, i);
    FirstMatchSpec(f, 0, |url|);
    if SeriesSlug(url).None? {
      forall i: nat | i <= |url|
        ensures SlugAt(url, i).None?
      {
        assert f(i).None?;
      }
    } else {
      var i :| 0 <= i <= |url| && f(i) == SeriesSlug(url);
      assert SlugAt(url, i).Some?;
    }
  }

  /** Conversely, a marker followed by a non-empty `/`-free segment that
      ends at a `/` or at the end of the address is a match with that
      segment. */
  lemma SlugAtOf(url: string, i: nat, slug: string)
    requires OccursAt(url, TitleMarker, i)
    requires |slug| >= 1 && '/' !in slug
    requires var a := i + |TitleMarker|;
      a + |slug| <= |url| && url[a..a + |slug|] == slug
      && (a + |slug| == |url| || url[a + |slug|] == '/')
    ensures SlugAt(url, i) == Some(slug)
  {
    var a := i + |TitleMarker|;
    forall j | a <= j < a + |slug|
      ensures NotSlash(url[j])
    {
      assert url[j] == slug[j - a];
    }
    RunEndExact(url, a, NotSlash, a + |slug|);
  }

  /** A series address without the `/title/` marker has no slug. */
  lemma NoMarkerNoSlug(url: string)
    requires !Contains(url, TitleMarker)
    ensures SeriesSlug(url) == None
  {
    forall i: nat | i <= |url|
      ensures SlugAt(url, i).None?
    {
      NotContainsAt(url, TitleMarker, i);
    }
    SeriesSlugNone(url);
  }

  /** `<slug>_s1_p<n>`. */
  function FormatEpisodeId(slug: string, n: nat): string {
    slug + SeasonPart + NatToString(n)
  }

  /** `_generate_episode_id`: the identifier built from the series slug,
      or none when the series address has no slug. The thumbnail address
      is accepted and ignored. */
  function GenerateEpisodeId(thumbnailUrl: string, seriesUrl: string, n: nat): (id: Option<string>)
    ensures id.Some? <==> SeriesSlug(seriesUrl).Some?
    ensures id.Some? ==> id.value == FormatEpisodeId(SeriesSlug(seriesUrl).value, n)
  {
    match SeriesSlug(seriesUrl)
    case None => None
    case Some(slug) => Some(FormatEpisodeId(slug, n))
  }

  /** The episode page of an identifier. */
  function EpisodeUrl(id: string): string {
    EpisodePagePrefix + id
  }

  /** The page address of episode `n` of a series, as `extract_episodes`
      stores it (`None` when the identifier is missing or empty): present
      exactly when the series address has a slug. */
  function EpisodeUrlFor(thumbnailUrl: string, seriesUrl: string, n: nat): (url: Option<string>)
    ensures url.Some? <==> SeriesSlug(seriesUrl).Some?
    ensures url.Some? ==>
      url.value == EpisodePagePrefix + SeriesSlug(seriesUrl).value + SeasonPart + NatToString(n)
  {
    match GenerateEpisodeId(thumbnailUrl, seriesUrl, n)
    case None => None
    case Some(id) => if id == "" then None else Some(EpisodeUrl(id))
  }

  /** Index of the last `_` of `s`. */
  function LastUnderscore(s: string): (r: Option<nat>)
    ensures r.Some? ==> r.value < |s| && s[r.value] == '_' && '_' !in s[r.value + 1..]
    ensures r.None? ==> '_' !in s
  {
    if |s| == 0 then None
    else if s[|s| - 1] == '_' then Some(|s| - 1)
    else
      match LastUnderscore(s[..|s| - 1])
      case None => None
      case Some(k) =>
        assert s[k + 1..] == s[..|s| - 1][k + 1..] + [s[|s| - 1]];
        Some(k)
  }

  /** Reads an identifier back into its slug and episode number: the
      `_s1_p` is the one that ends at the last `_p`, the slug is what comes
      before it and the number is the decimal value of what follows. */
  function ParseEpisodeId(id: string): Option<(string, nat)> {
    match LastUnderscore(id)
    case None => None
    case Some(m) =>
      if m < 3 || !OccursAt(id, SeasonPart, m - 3) then None
      else
        var digits := id[m - 3 + |SeasonPart|..];
        if |digits| >= 1 && AllDigits(digits) then Some((id[..m - 3], DecimalValue(digits))) else None
  }

  lemma NoUnderscoreInNumber(n: nat)
    ensures '_' !in NatToString(n)
  {
    var d := NatToString(n);
    forall i | 0 <= i < |d|
      ensures d[i] != '_'
    {
      assert '0' <= d[i] <= '9';
    }
  }

  /** Every identifier reads back as the slug and the number it was made
      from, whatever the slug holds. */
  lemma ParseFormatEpisodeId(slug: string, n: nat)
    ensures ParseEpisodeId(FormatEpisodeId(slug, n)) == Some((slug, n))
  {
    var id := FormatEpisodeId(slug, n);
    var d := NatToString(n);
    var k := |slug|;
    var m := k + 3;
    assert id == slug + SeasonPart + d;
    assert id[m] == '_';
    NoUnderscoreInNumber(n);
    forall i | m < i < |id|
      ensures id[i] != '_'
    {
      if i < k + |SeasonPart| {
        assert id[i] == SeasonPart[i - k];
      } else {
        assert id[i] == d[i - k - |SeasonPart|];
      }
    }
    LastUnderscoreIs(id, m);
    assert id[k..k + |SeasonPart|] == SeasonPart;
    assert id[k + |SeasonPart|..] == d;
    assert id[..k] == slug;
    DecimalOfNatToString(n);
  }

  lemma {:induction false} LastUnderscoreIs(s: string, k: nat)
    requires k < |s| && s[k] == '_'
    requires forall i :: k < i < |s| ==> s[i] != '_'
    ensures LastUnderscore(s) == Some(k)
    decreases |s|
  {
    if k < |s| - 1 {
      var t := s[..|s| - 1];
      LastUnderscoreIs(t, k);
    }
  }

  /** Distinct slugs or numbers give distinct identifiers. */
  lemma EpisodeIdInjective(slug1: string, n1: nat, slug2: string, n2: nat)
    requires FormatEpisodeId(slug1, n1) == FormatEpisodeId(slug2, n2)
    ensures slug1 == slug2 && n1 == n2
  {
    ParseFormatEpisodeId(slug1, n1);
    ParseFormatEpisodeId(slug2, n2);
  }

  /** The identifier made for an episode reads back as the series slug and
      the episode number. */
  lemma GeneratedIdReadsBack(thumbnailUrl: string, seriesUrl: string, n: nat)
    requires GenerateEpisodeId(thumbnailUrl, seriesUrl, n).Some?
    ensures ParseEpisodeId(GenerateEpisodeId(thumbnailUrl, seriesUrl, n).value)
      == Some((SeriesSlug(seriesUrl).value, n))
  {
    ParseFormatEpisodeId(SeriesSlug(seriesUrl).value, n);
  }

  const ExampleSeriesUrl: string := "https://abema.tv/video/title/test-series"

  lemma ExampleNoEarlierMarker()
    ensures forall j :: 0 <= j < 22 ==> SlugAt(ExampleSeriesUrl, j).None?
  {
    var url := ExampleSeriesUrl;
    forall j | 0 <= j < 22
      ensures !OccursAt(url, TitleMarker, j)
    {
      assert url[j] != '/' || url[j + 1] != 't';
      NotOccursAtPair(url, TitleMarker, j);
    }
  }

  lemma ExampleSlugAtMarker()
    ensures SlugAt(ExampleSeriesUrl, 22) == Some("test-series")
  {
    var url := ExampleSeriesUrl;
    assert url[22..29] == TitleMarker;
    assert url[29..40] == "test-series";
    SlugAtOf(url, 22, "test-series");
  }

  /** The series address of the extractor's tests and its slug. */
  lemma ExampleSeriesSlug()
    ensures SeriesSlug(ExampleSeriesUrl) == Some("test-series")
  {
    ExampleNoEarlierMarker();
    ExampleSlugAtMarker();
    FirstMatchIs((i: nat) => SlugAt(ExampleSeriesUrl, i), 0, |ExampleSeriesUrl|, 22);
  }

  const ExampleThumbnailUrl: string := "https://abema.tv/video/programs/test-1"

  /** The identifier the extractor's tests expect for the first episode. */
  lemma ExampleEpisodeId()
    ensures GenerateEpisodeId(ExampleThumbnailUrl, ExampleSeriesUrl, 1) == Some("test-series_s1_p1")
  {
    ExampleSeriesSlug();
    assert NatToString(1) == "1";
    assert FormatEpisodeId("test-series", 1) == "test-series" + "_s1_p" + "1";
    assert "test-series" + "_s1_p" + "1" == "test-series_s1_p1";
  }

  /** A series address without a `/title/` segment gives no identifier. */
  lemma ExampleInvalidUrl()
    ensures GenerateEpisodeId(ExampleThumbnailUrl, "https://invalid.url", 1) == None
  {
    var url := "https://invalid.url";
    forall i: nat | i <= |url|
      ensures SlugAt(url, i).None?
    {
      if i + 1 < |url| {
        assert url[i] != '/' || url[i + 1] != 't';
        NotOccursAtPair(url, TitleMarker, i);
      }
    }
    SeriesSlugNone(url);
  }

  /** `/programs/([^/]+)/` matched at index `i`: the marker, a non-empty
      run of characters other than `/`, and the `/` that ends the run. */
  function ProgramAt(thumbnailUrl: string, i: nat): (r: Option<string>)
    ensures r.Some? ==> |r.value| >= 1 && '/' !in r.value
  {
    if !OccursAt(thumbnailUrl, ProgramsMarker, i) then None
    else
      var a := i + |ProgramsMarker|;
      var e := RunEnd(thumbnailUrl, a, NotSlash);
      if e == a || e == |thumbnailUrl| then None
      else
        assert forall j :: 0 <= j < e - a ==> thumbnailUrl[a..e][j] == thumbnailUrl[a + j];
        Some(thumbnailUrl[a..e])
  }

  /** `re.search(r'/programs/([^/]+)/', thumbnail_url)`. */
  function ProgramId(thumbnailUrl: string): Option<string> {
    FirstMatch((i: nat) => ProgramAt(thumbnailUrl, i), 0, |thumbnailUrl|)
  }

  /** A program segment is followed by a `/` in the thumbnail address. */
  lemma ProgramAtShape(thumbnailUrl: string, i: nat)
    requires ProgramAt(thumbnailUrl, i).Some?
    ensures var a := i + |ProgramsMarker|;
      var v := ProgramAt(thumbnailUrl, i).value;
      && OccursAt(thumbnailUrl, ProgramsMarker, i)
      && a + |v| < |thumbnailUrl|
      && thumbnailUrl[a..a + |v|] == v && thumbnailUrl[a + |v|] == '/'
  {
  }

  /** Conversely, a marker followed by a non-empty `/`-free segment and a
      `/` is a match with that segment. */
  lemma ProgramAtOf(thumbnailUrl: string, i: nat, seg: string)
    requires OccursAt(thumbnailUrl, ProgramsMarker, i)
    requires |seg| >= 1 && '/' !in seg
    requires var a := i + |ProgramsMarker|;
      a + |seg| < |thumbnailUrl| && thumbnailUrl[a..a + |seg|] == seg && thumbnailUrl[a + |seg|] == '/'
    ensures ProgramAt(thumbnailUrl, i) == Some(seg)
  {
    var a := i + |ProgramsMarker|;
    forall j | a <= j < a + |seg|
      ensures NotSlash(thumbnailUrl[j])
    {
      assert thumbnailUrl[j] == seg[j - a];
    }
    RunEndExact(thumbnailUrl, a, NotSlash, a + |seg|);
  }

  /** The program identifier is the segment at the first position where the
      pattern matches, and there is none exactly when no position has one. */
  lemma ProgramIdFirst(thumbnailUrl: string)
    ensures ProgramId(thumbnailUrl).Some? ==> exists i ::
      && 0 <= i <= |thumbnailUrl| && ProgramAt(thumbnailUrl, i) == ProgramId(thumbnailUrl)
      && forall j :: 0 <= j < i ==> ProgramAt(thumbnailUrl, j).None?
    ensures ProgramId(thumbnailUrl).None? <==>
      forall i: nat :: i <= |thumbnailUrl| ==> ProgramAt(thumbnailUrl, i).None?
  {
    var f := (i: nat) => ProgramAt(thumbnailUrl, i);
    FirstMatchSpec(f, 0, |thumbnailUrl|);
    if ProgramId(thumbnailUrl).Some? {
      var i :| 0 <= i <= |thumbnailUrl| && f(i) == ProgramId(thumbnailUrl)
        && forall j :: 0 <= j < i ==> f(j).None?;
      forall j | 0 <= j < i
        ensures ProgramAt(thumbnailUrl, j).None?
      {
        assert f(j).None?;
      }
      assert ProgramAt(thumbnailUrl, i).Some?;
    } else {
      forall i: nat | i <= |thumbnailUrl|
        ensures ProgramAt(thumbnailUrl, i).None?
      {
        assert f(i).None?;
      }
    }
  }

  /** The older script's identifier: the program segment of the thumbnail
      address when it has one, otherwise `<slug>_s1_p<n>` with the slug of
      the series address or `unknown`. */
  function LegacyEpisodeId(thumbnailUrl: string, seriesUrl: string, n: nat): (id: string)
    ensures ProgramId(thumbnailUrl).Some? ==> id == ProgramId(thumbnailUrl).value
    ensures ProgramId(thumbnailUrl).None? ==>
      id == FormatEpisodeId(SeriesSlug(seriesUrl).GetOr(UnknownSlug), n)
  {
    match ProgramId(thumbnailUrl)
    case Some(seg) => seg
    case None => FormatEpisodeId(SeriesSlug(seriesUrl).GetOr(UnknownSlug), n)
  }

  /** Without a program segment, the older script's identifier agrees with
      the package's whenever the series address has a slug, and falls back
      to `unknown` where the package gives none. */
  lemma LegacyIdAgrees(thumbnailUrl: string, seriesUrl: string, n: nat)
    requires ProgramId(thumbnailUrl).None?
    ensures GenerateEpisodeId(thumbnailUrl, seriesUrl, n).Some? ==>
      LegacyEpisodeId(thumbnailUrl, seriesUrl, n) == GenerateEpisodeId(thumbnailUrl, seriesUrl, n).value
    ensures GenerateEpisodeId(thumbnailUrl, seriesUrl, n).None? ==>
      ParseEpisodeId(LegacyEpisodeId(thumbnailUrl, seriesUrl, n)) == Some((UnknownSlug, n))
  {
    ParseFormatEpisodeId(UnknownSlug, n);
  }

  /** The test thumbnail `…/programs/test-1` has no `/` after its segment,
      so it yields no program identifier. */
  lemma ExampleThumbnailHasNoProgramId()
    ensures ProgramId(ExampleThumbnailUrl) == None
  {
    var t := ExampleThumbnailUrl;
    forall i: nat | i <= |t|
      ensures ProgramAt(t, i).None?
    {
      if i != 22 && i + 1 < |t| {
        assert t[i] != '/' || t[i + 1] != 'p';
        NotOccursAtPair(t, ProgramsMarker, i);
      } else if i == 22 {
        RunEndExact(t, 32, NotSlash, |t|);
      }
    }
    FirstMatchSpec((i: nat) => ProgramAt(t, i), 0, |t|);
  }
}
