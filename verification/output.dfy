/** The document the command line tool hands to `yaml.dump`
    (abema_metadata/cli.py lines 45-59): an ordered mapping, dumped with
    `sort_keys=False`, so the key order below is the order in the file. */
module Output {
  import opened Wrappers
  import opened Models

  /** The mapping keys the extractors write. */
  datatype Key =
    | SeriesTitle | SourceUrl | ExtractionDate | TotalEpisodes | Episodes
    | EpisodeNumber | EpisodeTitle | EpisodeSynopsis | EpisodeUrl

  /** The key as it appears in the file. */
  function KeyName(k: Key): string {
    match k
    case SeriesTitle => "series_title"
    case SourceUrl => "source_url"
    case ExtractionDate => "extraction_date"
    case TotalEpisodes => "total_episodes"
    case Episodes => "episodes"
    case EpisodeNumber => "episode_number"
    case EpisodeTitle => "title"
    case EpisodeSynopsis => "synopsis"
    case EpisodeUrl => "url"
  }

  /** The key a name in the file stands for. */
  function KeyOfName(name: string): Option<Key> {
    if name == "series_title" then Some(SeriesTitle)
    else if name == "source_url" then Some(SourceUrl)
    else if name == "extraction_date" then Some(ExtractionDate)
    else if name == "total_episodes" then Some(TotalEpisodes)
    else if name == "episodes" then Some(Episodes)
    else if name == "episode_number" then Some(EpisodeNumber)
    else if name == "title" then Some(EpisodeTitle)
    else if name == "synopsis" then Some(EpisodeSynopsis)
    else if name == "url" then Some(EpisodeUrl)
    else None
  }

  /** Every key reads back from its name, so different keys are written
      differently. */
  lemma KeyNameReadsBack(k: Key)
    ensures KeyOfName(KeyName(k)) == Some(k)
  {
  }

  /** A YAML value: text, an integer, `null`, a list, or a mapping whose
      entries keep their order. */
  datatype Node =
    | Str(text: string)
    | Int(value: int)
    | Null
    | List(items: seq<Node>)
    | Map(entries: seq<(Key, Node)>)

  function Keys(entries: seq<(Key, Node)>): (ks: seq<Key>)
    ensures |ks| == |entries|
    ensures forall i :: 0 <= i < |entries| ==> ks[i] == entries[i].0
  {
    seq(|entries|, i requires 0 <= i < |entries| => entries[i].0)
  }

  /** The value of the first entry from index `i` on with key `key`. */
  function LookupFrom(entries: seq<(Key, Node)>, key: Key, i: nat): Option<Node>
    decreases |entries| - i
  {
    if i >= |entries| then None
    else if entries[i].0 == key then Some(entries[i].1)
    else LookupFrom(entries, key, i + 1)
  }

  /** A mapping's value for `key`. */
  function Lookup(entries: seq<(Key, Node)>, key: Key): Option<Node> {
    LookupFrom(entries, key, 0)
  }

  lemma {:induction false} LookupFromSpec(entries: seq<(Key, Node)>, key: Key, i: nat)
    ensures LookupFrom(entries, key, i).Some? <==> exists j :: i <= j < |entries| && entries[j].0 == key
    ensures LookupFrom(entries, key, i).Some? ==> exists j ::
      && i <= j < |entries|
      && entries[j] == (key, LookupFrom(entries, key, i).value)
      && (forall k :: i <= k < j ==> entries[k].0 != key)
    decreases |entries| - i
  {
    if i < |entries| && entries[i].0 != key {
      LookupFromSpec(entries, key, i + 1);
    }
  }

  /** The entry a lookup finds: the first one with the key. */
  lemma {:induction false} LookupFirst(entries: seq<(Key, Node)>, key: Key, i: nat)
    requires i < |entries| && entries[i].0 == key
    requires forall k :: 0 <= k < i ==> entries[k].0 != key
    ensures Lookup(entries, key) == Some(entries[i].1)
  {
    LookupFromSkip(entries, key, 0, i);
  }

  lemma {:induction false} LookupFromSkip(entries: seq<(Key, Node)>, key: Key, from: nat, i: nat)
    requires from <= i < |entries| && entries[i].0 == key
    requires forall k :: from <= k < i ==> entries[k].0 != key
    ensures LookupFrom(entries, key, from) == Some(entries[i].1)
    decreases i - from
  {
    if from < i {
      LookupFromSkip(entries, key, from + 1, i);
    }
  }

  /** A key is found exactly when some entry has it, and then the value
      found is that of its first entry. */
  lemma LookupSpec(entries: seq<(Key, Node)>, key: Key)
    ensures Lookup(entries, key).Some? <==> key in Keys(entries)
    ensures Lookup(entries, key).Some? ==> exists i ::
      && 0 <= i < |entries|
      && entries[i] == (key, Lookup(entries, key).value)
      && (forall j :: 0 <= j < i ==> entries[j].0 != key)
  {
    LookupFromSpec(entries, key, 0);
    var ks := Keys(entries);
    assert key in ks <==> exists j :: 0 <= j < |entries| && entries[j].0 == key by {
      if key in ks {
        var j :| 0 <= j < |ks| && ks[j] == key;
        assert entries[j].0 == key;
      }
    }
  }

  const SeriesKeys: seq<Key> := [SeriesTitle, SourceUrl, ExtractionDate, TotalEpisodes, Episodes]
  const EpisodeKeys: seq<Key> := [EpisodeNumber, EpisodeTitle, EpisodeSynopsis, EpisodeUrl]

  /** Written for an episode whose synopsis is missing or empty. */
  const NoSynopsis: string := "あらすじなし"

  /** `ep.synopsis or 'あらすじなし'`. */
  function SynopsisText(synopsis: Option<string>): (t: string)
    ensures t == NoSynopsis <==> synopsis.None? || synopsis.value == "" || synopsis.value == NoSynopsis
    ensures t != NoSynopsis ==> synopsis == Some(t)
  {
    if synopsis.Some? && synopsis.value != "" then synopsis.value else NoSynopsis
  }

  /** `None` is dumped as `null`. */
  function OptionalText(s: Option<string>): Node {
    match s
    case None => Null
    case Some(t) => Str(t)
  }

  function EpisodeNode(ep: EpisodeMetadata): (n: Node)
    ensures n.Map? && Keys(n.entries) == EpisodeKeys
  {
    Map([(EpisodeNumber, Int(ep.number)),
         (EpisodeTitle, Str(ep.title)),
         (EpisodeSynopsis, Str(SynopsisText(ep.synopsis))),
         (EpisodeUrl, OptionalText(ep.url))])
  }

  function EpisodeNodes(eps: seq<EpisodeMetadata>): (ns: seq<Node>)
    ensures |ns| == |eps|
  {
    seq(|eps|, i requires 0 <= i < |eps| => EpisodeNode(eps[i]))
  }

  /** The `output_data` mapping. */
  function CliOutput(m: SeriesMetadata): (n: Node)
    ensures n.Map? && Keys(n.entries) == SeriesKeys
    ensures Lookup(n.entries, TotalEpisodes) == Some(Int(|m.episodes|))
    ensures Lookup(n.entries, Episodes).Some? && Lookup(n.entries, Episodes).value.List?
    ensures |Lookup(n.entries, Episodes).value.items| == |m.episodes|
  {
    var es := [(SeriesTitle, Str(m.title)),
               (SourceUrl, Str(m.sourceUrl)),
               (ExtractionDate, Str(m.extractionDate)),
               (TotalEpisodes, Int(|m.episodes|)),
               (Episodes, List(EpisodeNodes(m.episodes)))];
    LookupFirst(es, TotalEpisodes, 3);
    LookupFirst(es, Episodes, 4);
    Map(es)
  }

  /** Where each of the output's keys sits. */
  lemma CliOutputEntries(m: SeriesMetadata)
    ensures var es := CliOutput(m).entries;
      && Lookup(es, SeriesTitle) == Some(Str(m.title))
      && Lookup(es, SourceUrl) == Some(Str(m.sourceUrl))
      && Lookup(es, ExtractionDate) == Some(Str(m.extractionDate))
      && Lookup(es, Episodes) == Some(List(EpisodeNodes(m.episodes)))
  {
    var es := CliOutput(m).entries;
    LookupFirst(es, SeriesTitle, 0);
    LookupFirst(es, SourceUrl, 1);
    LookupFirst(es, ExtractionDate, 2);
    LookupFirst(es, Episodes, 4);
  }

  // Reading a dumped document back.

  /** What can be told of an episode from its output: a synopsis written as
      `あらすじなし`, or left empty, is indistinguishable from none. */
  function Visible(ep: EpisodeMetadata): EpisodeMetadata {
    if SynopsisText(ep.synopsis) == NoSynopsis then ep.(synopsis := None) else ep
  }

  function ReadText(n: Option<Node>): Option<string> {
    if n.Some? && n.value.Str? then Some(n.value.text) else None
  }

  function ReadEpisode(n: Node): Option<EpisodeMetadata> {
    if !n.Map? then None
    else
      var number := Lookup(n.entries, EpisodeNumber);
      var title := ReadText(Lookup(n.entries, EpisodeTitle));
      var synopsis := ReadText(Lookup(n.entries, EpisodeSynopsis));
      var url := Lookup(n.entries, EpisodeUrl);
      if number.None? || !number.value.Int? || title.None? || synopsis.None? || url.None? then None
      else if !(url.value.Null? || url.value.Str?) then None
      else
        Some(EpisodeMetadata(
          number.value.value,
          title.value,
          if synopsis.value == NoSynopsis then None else synopsis,
          if url.value.Null? then None else Some(url.value.text)))
  }

  function ReadEpisodes(ns: seq<Node>): Option<seq<EpisodeMetadata>> {
    if |ns| == 0 then Some([])
    else
      match (ReadEpisode(ns[0]), ReadEpisodes(ns[1..]))
      case (Some(e), Some(es)) => Some([e] + es)
      case _ => None
  }

  function ReadSeries(n: Node): Option<SeriesMetadata> {
    if !n.Map? then None
    else
      var title := ReadText(Lookup(n.entries, SeriesTitle));
      var source := ReadText(Lookup(n.entries, SourceUrl));
      var date := ReadText(Lookup(n.entries, ExtractionDate));
      var list := Lookup(n.entries, Episodes);
      if title.None? || source.None? || date.None? || list.None? || !list.value.List? then None
      else
        match ReadEpisodes(list.value.items)
        case None => None
        case Some(eps) => Some(SeriesMetadata(title.value, source.value, date.value, eps))
  }

  function VisibleAll(eps: seq<EpisodeMetadata>): (r: seq<EpisodeMetadata>)
    ensures |r| == |eps|
  {
    seq(|eps|, i requires 0 <= i < |eps| => Visible(eps[i]))
  }

  /** An episode reads back as itself, up to a missing synopsis. */
  lemma ReadEpisodeNode(ep: EpisodeMetadata)
    ensures ReadEpisode(EpisodeNode(ep)) == Some(Visible(ep))
  {
    var es := EpisodeNode(ep).entries;
    LookupFirst(es, EpisodeNumber, 0);
    LookupFirst(es, EpisodeTitle, 1);
    LookupFirst(es, EpisodeSynopsis, 2);
    LookupFirst(es, EpisodeUrl, 3);
    if SynopsisText(ep.synopsis) == NoSynopsis {
      assert Visible(ep) == EpisodeMetadata(ep.number, ep.title, None, ep.url);
    } else {
      assert Visible(ep) == ep;
    }
  }

  lemma {:induction false} ReadEpisodeNodes(eps: seq<EpisodeMetadata>)
    ensures ReadEpisodes(EpisodeNodes(eps)) == Some(VisibleAll(eps))
  {
    if |eps| > 0 {
      ReadEpisodeNode(eps[0]);
      ReadEpisodeNodes(eps[1..]);
      assert EpisodeNodes(eps)[1..] == EpisodeNodes(eps[1..]);
      assert VisibleAll(eps) == [Visible(eps[0])] + VisibleAll(eps[1..]);
    }
  }

  /** The output holds the whole result: title, source, date and every
      episode in order, each episode as it was up to a missing synopsis;
      and `total_episodes` is the number of episodes listed. */
  lemma ReadCliOutput(m: SeriesMetadata)
    ensures ReadSeries(CliOutput(m)) == Some(m.(episodes := VisibleAll(m.episodes)))
    ensures var n := CliOutput(m);
      Lookup(n.entries, TotalEpisodes) == Some(Int(|Lookup(n.entries, Episodes).value.items|))
  {
    ReadEpisodeNodes(m.episodes);
    CliOutputEntries(m);
  }
}
