/** The series title, read from the page's breadcrumb list: the package's
    `extract_series_title` (abema_metadata/extractor.py lines 25-34) and
    the older script's loop (abema_extractor.py lines 48-58). A block is a
    breadcrumb list only when it holds `"@type":"BreadcrumbList"` written
    without any whitespace, and its names are read with `"name":"…"`, also
    without whitespace. */
module Title {
  import opened Wrappers
  import opened Strings
  import opened Fields
  import opened Scanner

  const BreadcrumbMarker: string := "\"@type\":\"BreadcrumbList\""

  /** Breadcrumb entries that are navigation, not a series. */
  const ExcludedNames: seq<string> := ["ホーム", "アニメ", "ドラマ"]

  /** The package's result when no breadcrumb name qualifies. */
  const UnknownSeries: string := "不明なシリーズ"

  /** The package keeps names longer than 3 characters, the older script
      names longer than 5. */
  const PackageMinLength: nat := 3
  const LegacyMinLength: nat := 5

  /** The older script's title when no breadcrumb name qualifies. */
  const LegacyDefaultTitle: string := "アニメ・ドラマ"

  predicate IsBreadcrumb(block: string) {
    Contains(block, BreadcrumbMarker)
  }

  /** A breadcrumb name that can be the series title. */
  predicate Qualifies(name: string, minLength: nat) {
    name !in ExcludedNames && |name| > minLength
  }

  /** The first qualifying name of a list. */
  function FirstQualifying(names: seq<string>, minLength: nat): (r: Option<string>)
    ensures r.Some? ==> Qualifies(r.value, minLength)
    ensures r.Some? <==> exists i :: 0 <= i < |names| && Qualifies(names[i], minLength)
    ensures r.Some? ==> exists i ::
      && 0 <= i < |names|
      && names[i] == r.value
      && (forall j :: 0 <= j < i ==> !Qualifies(names[j], minLength))
  {
    if |names| == 0 then None
    else if Qualifies(names[0], minLength) then Some(names[0])
    else
      var r := FirstQualifying(names[1..], minLength);
      assert forall i :: 1 <= i < |names| ==> names[i] == names[1..][i - 1];
      if r.Some? then
        var i :| 0 <= i < |names[1..]| && names[1..][i] == r.value
          && forall j :: 0 <= j < i ==> !Qualifies(names[1..][j], minLength);
        assert names[i + 1] == r.value;
        r
      else r
  }

  /** The title one block offers: its first qualifying breadcrumb name. */
  function BlockTitle(block: string, minLength: nat): Option<string> {
    if IsBreadcrumb(block) then FirstQualifying(Names(block), minLength) else None
  }

  /** The package's scan: the title of the first block that offers one. */
  function FirstBlockTitle(blocks: seq<string>): (r: Option<string>)
    ensures r.Some? ==> Qualifies(r.value, PackageMinLength)
  {
    if |blocks| == 0 then None
    else
      match BlockTitle(blocks[0], PackageMinLength)
      case Some(t) => Some(t)
      case None => FirstBlockTitle(blocks[1..])
  }

  /** `extract_series_title`: the first qualifying name of the first
      breadcrumb block that has one, or `不明なシリーズ`. */
  function ExtractSeriesTitle(content: string): (t: string)
    ensures t == UnknownSeries || Qualifies(t, PackageMinLength)
  {
    FirstBlockTitle(Blocks(content)).GetOr(UnknownSeries)
  }

  /** Every qualifying breadcrumb name of the blocks, in page order: the
      candidates the package's nested loops visit. */
  function Candidates(blocks: seq<string>): seq<string> {
    if |blocks| == 0 then []
    else
      (if IsBreadcrumb(blocks[0]) then QualifyingNames(Names(blocks[0])) else [])
        + Candidates(blocks[1..])
  }

  /** The qualifying names of a list, in order. */
  function QualifyingNames(names: seq<string>): seq<string> {
    if |names| == 0 then []
    else (if Qualifies(names[0], PackageMinLength) then [names[0]] else []) + QualifyingNames(names[1..])
  }

  lemma {:induction false} FirstQualifyingIsHead(names: seq<string>)
    ensures FirstQualifying(names, PackageMinLength).Some? <==> |QualifyingNames(names)| > 0
    ensures FirstQualifying(names, PackageMinLength).Some? ==>
      FirstQualifying(names, PackageMinLength).value == QualifyingNames(names)[0]
  {
    if |names| > 0 && !Qualifies(names[0], PackageMinLength) {
      FirstQualifyingIsHead(names[1..]);
    }
  }

  /** The package's title is the first candidate, or `不明なシリーズ` when
      there is none. */
  lemma {:induction false} FirstBlockTitleIsFirstCandidate(blocks: seq<string>)
    ensures FirstBlockTitle(blocks).Some? <==> |Candidates(blocks)| > 0
    ensures FirstBlockTitle(blocks).Some? ==> FirstBlockTitle(blocks).value == Candidates(blocks)[0]
  {
    if |blocks| > 0 {
      FirstBlockTitleIsFirstCandidate(blocks[1..]);
      if IsBreadcrumb(blocks[0]) {
        FirstQualifyingIsHead(Names(blocks[0]));
      }
    }
  }

  lemma SeriesTitleIsFirstCandidate(content: string)
    ensures var c := Candidates(Blocks(content));
      ExtractSeriesTitle(content) == if |c| > 0 then c[0] else UnknownSeries
  {
    FirstBlockTitleIsFirstCandidate(Blocks(content));
  }

  /** Only a breadcrumb name or the fallback comes out, and a breadcrumb
      name only when the block is a breadcrumb list. */
  lemma {:induction false} FirstBlockTitleSource(blocks: seq<string>)
    ensures FirstBlockTitle(blocks).Some? ==> exists i ::
      && 0 <= i < |blocks|
      && IsBreadcrumb(blocks[i])
      && FirstBlockTitle(blocks).value in Names(blocks[i])
  {
    if |blocks| > 0 {
      var b := BlockTitle(blocks[0], PackageMinLength);
      if b.Some? {
        var k :| 0 <= k < |Names(blocks[0])| && Names(blocks[0])[k] == b.value;
        assert b.value in Names(blocks[0]);
      } else {
        FirstBlockTitleSource(blocks[1..]);
        if FirstBlockTitle(blocks[1..]).Some? {
          var i :| 0 <= i < |blocks[1..]| && IsBreadcrumb(blocks[1..][i])
            && FirstBlockTitle(blocks[1..]).value in Names(blocks[1..][i]);
          assert blocks[i + 1] == blocks[1..][i];
        }
      }
    }
  }

  /** Breadcrumb detection is whitespace-exact: a block in which no `:` is
      directly followed by `"` (as in JSON written with `": "`) is never a
      breadcrumb list. */
  predicate NoColonQuote(s: string) {
    forall j :: 0 <= j < |s| - 1 && s[j] == ':' ==> s[j + 1] != '"'
  }

  lemma SpacedJsonIsNoBreadcrumb(block: string)
    requires NoColonQuote(block)
    ensures !IsBreadcrumb(block)
  {
    forall i: nat
      ensures !OccursAt(block, BreadcrumbMarker, i)
    {
      if i + |BreadcrumbMarker| <= |block| {
        var w := block[i..i + |BreadcrumbMarker|];
        assert w[7] == block[i + 7] && w[8] == block[i + 8];
      }
    }
  }

  /** A page whose blocks are all written with spaces after the colons
      gets the fallback title, whatever names its breadcrumbs hold. */
  lemma SpacedPageTitle(content: string)
    requires forall i :: 0 <= i < |Blocks(content)| ==> NoColonQuote(Blocks(content)[i])
    ensures ExtractSeriesTitle(content) == UnknownSeries
  {
    var blocks := Blocks(content);
    FirstBlockTitleSource(blocks);
    if FirstBlockTitle(blocks).Some? {
      var i :| 0 <= i < |blocks| && IsBreadcrumb(blocks[i]) && FirstBlockTitle(blocks).value in Names(blocks[i]);
      SpacedJsonIsNoBreadcrumb(blocks[i]);
      assert false;
    }
  }

  // The older script.

  /** The older script's test `'"name":"' in json_script` before the name
      search: the block's first qualifying name, or none. */
  function LegacyBlockTitle(block: string): Option<string> {
    if IsBreadcrumb(block) && Contains(block, NameKey) then
      FirstQualifying(Names(block), LegacyMinLength)
    else None
  }

  /** The extra `"name":"` test never changes the outcome: every block with
      a name entry contains the key. */
  lemma LegacyBlockTitleAgrees(block: string)
    ensures LegacyBlockTitle(block) == BlockTitle(block, LegacyMinLength)
  {
    if IsBreadcrumb(block) && |Names(block)| > 0 {
      NamesContainKey(block);
    }
  }

  lemma {:induction false} NamesContainKey(s: string)
    requires |Names(s)| > 0
    ensures Contains(s, NameKey)
    decreases |s|
  {
    if NameAt(s).Some? {
      ContainsAt(s, NameKey, 0);
    } else {
      NamesContainKey(s[1..]);
      ContainsShift(s, NameKey);
    }
  }

  /** The older script's title loop. Its `break` leaves only the inner loop
      over names, so every later breadcrumb block with a qualifying name
      overwrites the title: the last such block wins. */
  method LegacySeriesTitle(blocks: seq<string>) returns (title: string)
    ensures (forall i :: 0 <= i < |blocks| ==> LegacyBlockTitle(blocks[i]).None?) ==> title == LegacyDefaultTitle
    ensures (exists i :: 0 <= i < |blocks| && LegacyBlockTitle(blocks[i]).Some?) ==>
      exists i :: 0 <= i < |blocks| && LegacyBlockTitle(blocks[i]) == Some(title)
        && forall j :: i < j < |blocks| ==> LegacyBlockTitle(blocks[j]).None?
  {
    title := LegacyDefaultTitle;
    var found := false;
    var last := 0;
    for k := 0 to |blocks|
      invariant !found ==> forall i :: 0 <= i < k ==> LegacyBlockTitle(blocks[i]).None?
      invariant !found ==> title == LegacyDefaultTitle
      invariant found ==> last < k && LegacyBlockTitle(blocks[last]) == Some(title)
      invariant found ==> forall j :: last < j < k ==> LegacyBlockTitle(blocks[j]).None?
    {
      match LegacyBlockTitle(blocks[k])
      case Some(name) =>
        title := name;
        found := true;
        last := k;
      case None =>
    }
  }
}
