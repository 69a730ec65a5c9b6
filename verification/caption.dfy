/** The caption pattern of extractor.py line 50,
    `(?:[\w\s]+)?第(\d+)話\s*(.+?)(?:のサムネイル)?$`, applied with
    `re.search`, written out with the backtracking order Python's engine
    follows:
    - the search tries start positions left to right;
    - the greedy optional prefix `[\w\s]+` first takes its longest run and
      gives back one character at a time, so of the `第` positions inside the
      run the last one whose remainder matches wins;
    - `\s*` is greedy and gives back too;
    - `.+?` is lazy and cannot cross a newline, and `$` matches at the end or
      before one final newline. */
module Caption {
  import opened Wrappers
  import opened Strings
  import opened CharClass
  import opened Decimal
  import opened Search

  datatype CaptionParts = CaptionParts(number: nat, title: string)

  const ThumbnailSuffix: string := "のサムネイル"

  /** No newline among the first `n` characters of `r`. */
  predicate NoNewlineBefore(r: string, n: nat)
    requires n <= |r|
  {
    n == 0 || (r[n - 1] != '\n' && NoNewlineBefore(r, n - 1))
  }

  lemma {:induction false} NoNewlineBeforeIn(r: string, n: nat)
    requires n <= |r|
    ensures NoNewlineBefore(r, n) <==> '\n' !in r[..n]
  {
    if n > 0 {
      NoNewlineBeforeIn(r, n - 1);
      assert r[..n] == r[..n - 1] + [r[n - 1]];
    }
  }

  /** Where the text before `$` ends: before one final newline, if any. */
  function LineEnd(r: string): (n: nat)
    ensures n <= |r|
  {
    if |r| > 0 && r[|r| - 1] == '\n' then |r| - 1 else |r|
  }

  /** `(.+?)(?:のサムネイル)?$` matched against the whole of `r`: the title is
      `r` without one final newline and without one trailing thumbnail
      suffix, and must be non-empty and free of newlines. */
  function TitleTail(r: string): (t: Option<string>)
    ensures t.Some? ==> |t.value| >= 1 && '\n' !in t.value
  {
    var n := LineEnd(r);
    NoNewlineBeforeIn(r, n);
    if n == 0 || !NoNewlineBefore(r, n) then None
    else if n > |ThumbnailSuffix| && OccursAt(r, ThumbnailSuffix, n - |ThumbnailSuffix|) then
      assert forall i :: 0 <= i < n - |ThumbnailSuffix| ==> r[..n - |ThumbnailSuffix|][i] == r[..n][i];
      Some(r[..n - |ThumbnailSuffix|])
    else Some(r[..n])
  }

  /** What `TitleTail` accepts is the title followed by at most one
      thumbnail suffix and at most one newline. */
  lemma TitleTailShape(r: string)
    requires TitleTail(r).Some?
    ensures var t := TitleTail(r).value;
      || r == t || r == t + "\n"
      || r == t + ThumbnailSuffix || r == t + ThumbnailSuffix + "\n"
  {
    var n := LineEnd(r);
    assert r == r[..n] || r == r[..n] + "\n";
    var k := n - |ThumbnailSuffix|;
    if n > |ThumbnailSuffix| && OccursAt(r, ThumbnailSuffix, k) {
      assert r[..n] == r[..k] + ThumbnailSuffix;
    }
  }

  /** `\s*(.+?)(?:のサムネイル)?$` after the `話` at `lo - 1`: the whitespace
      run ends at `w` at the longest and backs off towards `lo`. */
  function TitleAfter(s: string, lo: nat, w: nat): Option<string>
    requires lo <= w <= |s|
    decreases w - lo
  {
    match TitleTail(s[w..])
    case Some(t) => Some(t)
    case None => if w == lo then None else TitleAfter(s, lo, w - 1)
  }

  /** `第(\d+)話\s*(.+?)(?:のサムネイル)?$` matched at index `q` of `s`. */
  function EpisodeAt(s: string, q: nat): Option<CaptionParts> {
    if q >= |s| || s[q] != '第' then None
    else
      var d := RunEnd(s, q + 1, IsDigit);
      if d == q + 1 || d == |s| || s[d] != '話' then None
      else
        DigitRun(s, q + 1, d);
        match TitleAfter(s, d + 1, RunEnd(s, d + 1, IsSpace))
        case None => None
        case Some(t) => Some(CaptionParts(DecimalValue(s[q + 1..d]), t))
  }

  lemma DigitRun(s: string, a: nat, b: nat)
    requires a <= b <= |s|
    requires forall i :: a <= i < b ==> IsDigit(s[i])
    ensures AllDigits(s[a..b])
  {
    var t := s[a..b];
    forall i | 0 <= i < |t|
      ensures IsDigit(t[i])
    {
      assert t[i] == s[a + i];
    }
  }

  /** The greedy optional prefix `(?:[\w\s]+)?` starting at `s0`: prefix
      lengths `len`, `len - 1`, …, `1`, then the empty alternative. */
  function PrefixThenEpisode(s: string, s0: nat, len: nat): Option<CaptionParts> {
    LastMatch((q: nat) => EpisodeAt(s, q), s0, len)
  }

  /** The whole pattern tried at start position `s0`. */
  function MatchAt(s: string, s0: nat): Option<CaptionParts> {
    if s0 > |s| then None
    else PrefixThenEpisode(s, s0, RunEnd(s, s0, IsWordOrSpace) - s0)
  }

  /** `re.search`: the first start position, from `s0` on, where the
      pattern matches. */
  function SearchFrom(s: string, s0: nat): Option<CaptionParts> {
    FirstMatch((i: nat) => MatchAt(s, i), s0, |s|)
  }

  /** Episode number and subtitle of a thumbnail caption, or `None` when the
      caption does not have the `第N話` shape. */
  function ParseCaption(caption: string): Option<CaptionParts> {
    SearchFrom(caption, 0)
  }

  /** `第<digits>話<whitespace><title>` read from index `q` of `s` to its
      end, with the digits ending at `d` and the title starting at `st`. */
  ghost predicate EpisodeShape(s: string, q: nat, d: nat, st: nat, p: CaptionParts) {
    && q + 1 < d < st <= |s|
    && s[q] == '第' && s[d] == '話'
    && AllDigits(s[q + 1..d]) && p.number == DecimalValue(s[q + 1..d])
    && AllSpace(s[d + 1..st])
    && TitleTail(s[st..]) == Some(p.title)
  }

  lemma {:induction false} TitleAfterStart(s: string, lo: nat, w: nat)
    requires lo <= w <= |s|
    requires TitleAfter(s, lo, w).Some?
    ensures exists st :: lo <= st <= w && TitleTail(s[st..]) == TitleAfter(s, lo, w)
    decreases w - lo
  {
    if TitleTail(s[w..]).None? {
      TitleAfterStart(s, lo, w - 1);
    }
  }

  lemma SpaceRun(s: string, a: nat, b: nat, c: nat)
    requires a <= c <= b <= |s|
    requires forall i :: a <= i < b ==> IsSpace(s[i])
    ensures AllSpace(s[a..c])
  {
    var t := s[a..c];
    forall i | 0 <= i < |t|
      ensures IsSpace(t[i])
    {
      assert t[i] == s[a + i];
    }
  }

  /** The pieces of a match at `q`: where the digits end and what the
      title search after the `話` produced. */
  lemma EpisodeAtParts(s: string, q: nat)
    requires EpisodeAt(s, q).Some?
    ensures var d := RunEnd(s, q + 1, IsDigit);
      && q + 1 < d < |s| && s[q] == '第' && s[d] == '話'
      && AllDigits(s[q + 1..d])
      && TitleAfter(s, d + 1, RunEnd(s, d + 1, IsSpace)).Some?
      && EpisodeAt(s, q).value
         == CaptionParts(DecimalValue(s[q + 1..d]), TitleAfter(s, d + 1, RunEnd(s, d + 1, IsSpace)).value)
  {
    DigitRun(s, q + 1, RunEnd(s, q + 1, IsDigit));
  }

  lemma ShapeFromParts(s: string, q: nat, d: nat, w: nat, p: CaptionParts)
    requires q + 1 < d < |s| && d + 1 <= w <= |s|
    requires s[q] == '第' && s[d] == '話'
    requires AllDigits(s[q + 1..d]) && p.number == DecimalValue(s[q + 1..d])
    requires forall j :: d + 1 <= j < w ==> IsSpace(s[j])
    requires TitleAfter(s, d + 1, w) == Some(p.title)
    ensures exists d', st :: EpisodeShape(s, q, d', st, p)
  {
    TitleAfterStart(s, d + 1, w);
    var st :| d + 1 <= st <= w && TitleTail(s[st..]) == TitleAfter(s, d + 1, w);
    SpaceRun(s, d + 1, w, st);
    assert EpisodeShape(s, q, d, st, p);
  }

  /** Every match at `q` has the shape `第<digits>話<whitespace><title>`,
      with the number the decimal value of the digits and the title what
      is left after the whitespace, minus one thumbnail suffix. */
  lemma EpisodeAtShape(s: string, q: nat)
    requires EpisodeAt(s, q).Some?
    ensures exists d, st :: EpisodeShape(s, q, d, st, EpisodeAt(s, q).value)
  {
    EpisodeAtParts(s, q);
    var d := RunEnd(s, q + 1, IsDigit);
    ShapeFromParts(s, q, d, RunEnd(s, d + 1, IsSpace), EpisodeAt(s, q).value);
  }

  /** A title the pattern reads back unchanged: non-empty, one line, and
      ending in the thumbnail suffix only when that suffix is appended. */
  predicate PlainTitle(title: string, thumb: bool) {
    && |title| >= 1 && '\n' !in title
    && (thumb || !EndsWith(title, ThumbnailSuffix))
  }

  function WithSuffix(title: string, thumb: bool): string {
    if thumb then title + ThumbnailSuffix else title
  }

  /** The title part of the pattern gives back the title, with or without
      the thumbnail suffix after it. */
  lemma TitleTailOf(title: string, thumb: bool)
    requires PlainTitle(title, thumb)
    ensures TitleTail(WithSuffix(title, thumb)) == Some(title)
  {
    var r := WithSuffix(title, thumb);
    var k := |title|;
    assert r[..k] == title;
    assert r[k - 1] != '\n' by {
      assert r[k - 1] == title[k - 1];
    }
    assert '\n' !in r by {
      forall i | 0 <= i < |r|
        ensures r[i] != '\n'
      {
        if i < k {
          assert r[i] == title[i];
        } else {
          assert r[i] == ThumbnailSuffix[i - k];
        }
      }
    }
    assert LineEnd(r) == |r|;
    assert r[..|r|] == r;
    NoNewlineBeforeIn(r, |r|);
    if thumb {
      assert r[k..] == ThumbnailSuffix;
      assert OccursAt(r, ThumbnailSuffix, k);
    } else if |r| > |ThumbnailSuffix| {
      assert !OccursAt(r, ThumbnailSuffix, |r| - |ThumbnailSuffix|);
    }
  }

  /** A match at `q` built from its pieces: a digit run ending at `d`, the
      `話`, a whitespace run ending at `w` and a title the title part
      accepts from `w` on. */
  lemma EpisodeAtFromParts(s: string, q: nat, d: nat, w: nat, p: CaptionParts)
    requires q + 1 < d < w <= |s|
    requires s[q] == '第' && s[d] == '話'
    requires forall j :: q + 1 <= j < d ==> IsDigit(s[j])
    requires forall j :: d + 1 <= j < w ==> IsSpace(s[j])
    requires w < |s| ==> !IsSpace(s[w])
    requires AllDigits(s[q + 1..d]) && p.number == DecimalValue(s[q + 1..d])
    requires TitleTail(s[w..]) == Some(p.title)
    ensures EpisodeAt(s, q) == Some(p)
  {
    RunEndExact(s, q + 1, IsDigit, d);
    RunEndExact(s, d + 1, IsSpace, w);
  }

  /** `第<n>話<ws><title>` with an optional thumbnail suffix. */
  function EpisodeText(n: nat, ws: string, title: string, thumb: bool): string {
    "第" + NatToString(n) + "話" + ws + WithSuffix(title, thumb)
  }

  /** The pattern anchored at the `第` reads back the number and the title
      of an episode text, whatever whitespace follows the `話`. */
  lemma EpisodeAtText(pre: string, n: nat, ws: string, title: string, thumb: bool)
    requires AllSpace(ws) && PlainTitle(title, thumb) && !IsSpace(title[0])
    ensures EpisodeAt(pre + EpisodeText(n, ws, title, thumb), |pre|) == Some(CaptionParts(n, title))
  {
    var digits := NatToString(n);
    var tail := WithSuffix(title, thumb);
    var s := pre + EpisodeText(n, ws, title, thumb);
    var q := |pre|;
    var d := q + 1 + |digits|;
    var w := d + 1 + |ws|;
    assert s == pre + "第" + digits + "話" + ws + tail;
    assert s[q + 1..d] == digits;
    assert s[d + 1..w] == ws;
    assert s[w..] == tail;
    forall j | q + 1 <= j < d
      ensures IsDigit(s[j])
    {
      assert s[j] == digits[j - q - 1];
    }
    forall j | d + 1 <= j < w
      ensures IsSpace(s[j])
    {
      assert s[j] == ws[j - d - 1];
    }
    assert s[w] == title[0];
    DecimalOfNatToString(n);
    TitleTailOf(title, thumb);
    EpisodeAtFromParts(s, q, d, w, CaptionParts(n, title));
  }

  /** No `第` from `from` on means no match starts there. */
  lemma NoEpisodeAfter(s: string, from: nat)
    requires forall j :: from <= j < |s| ==> s[j] != '第'
    ensures forall j :: from <= j ==> EpisodeAt(s, j).None?
  {
  }

  /** `<series> 第<n>話 <title>` with an optional thumbnail suffix: the
      caption shape of a thumbnail's alt text. */
  function FormatCaption(series: string, n: nat, title: string, thumb: bool): string {
    series + " " + EpisodeText(n, " ", title, thumb)
  }

  /** Series names made of `[\w\s]` characters. */
  predicate WordSeries(series: string) {
    forall i :: 0 <= i < |series| ==> IsWordOrSpace(series[i])
  }

  /** With no `第` after `q`, the greedy prefix starting at `s0` settles
      on the match at `q`, if the prefix run reaches `q`. */
  lemma PrefixAtLastStart(s: string, s0: nat, len: nat, q: nat)
    requires s0 <= q <= s0 + len
    requires EpisodeAt(s, q).Some?
    requires forall j :: q < j < |s| ==> s[j] != '第'
    ensures PrefixThenEpisode(s, s0, len) == EpisodeAt(s, q)
  {
    NoEpisodeAfter(s, q + 1);
    LastMatchIs((q: nat) => EpisodeAt(s, q), s0, len, q);
  }

  /** A match at the very first start position is what the search reports. */
  lemma ParseAtStart(caption: string)
    requires MatchAt(caption, 0).Some?
    ensures ParseCaption(caption) == MatchAt(caption, 0)
  {
  }

  /** The characters of a formatted caption after its `第`. */
  lemma FormatCaptionTail(series: string, n: nat, title: string, thumb: bool)
    requires '第' !in title
    ensures var c := FormatCaption(series, n, title, thumb);
      forall j :: |series| + 1 < j < |c| ==> c[j] != '第'
  {
    var c := FormatCaption(series, n, title, thumb);
    var q := |series| + 1;
    var digits := NatToString(n);
    var tail := WithSuffix(title, thumb);
    var e := EpisodeText(n, " ", title, thumb);
    assert e == "第" + digits + "話" + " " + tail;
    assert c == series + " " + e;
    forall j | q < j < |c|
      ensures c[j] != '第'
    {
      assert c[j] == e[j - q];
      var k := j - q;
      if k <= |digits| {
        assert e[k] == digits[k - 1];
      } else if k == |digits| + 1 {
        assert e[k] == '話';
      } else if k == |digits| + 2 {
        assert e[k] == ' ';
      } else {
        var m := k - |digits| - 3;
        assert e[k] == tail[m];
        if thumb && m >= |title| {
          assert tail[m] == ThumbnailSuffix[m - |title|];
        } else {
          assert tail[m] == title[m];
        }
      }
    }
  }

  /** The prefix run of a formatted caption reaches its `第`. */
  lemma FormatCaptionPrefix(series: string, n: nat, title: string, thumb: bool)
    requires WordSeries(series)
    ensures RunEnd(FormatCaption(series, n, title, thumb), 0, IsWordOrSpace) >= |series| + 1
  {
    var c := FormatCaption(series, n, title, thumb);
    forall j | 0 <= j < |series| + 1
      ensures IsWordOrSpace(c[j])
    {
      if j < |series| {
        assert c[j] == series[j];
      } else {
        assert c[j] == ' ';
      }
    }
    RunEndAtLeast(c, 0, IsWordOrSpace, |series| + 1);
  }

  /** Parsing a formatted caption gives back its episode number and title,
      provided the title does not itself start another `第`. */
  lemma ParseFormatCaption(series: string, n: nat, title: string, thumb: bool)
    requires WordSeries(series)
    requires PlainTitle(title, thumb) && !IsSpace(title[0]) && '第' !in title
    ensures ParseCaption(FormatCaption(series, n, title, thumb)) == Some(CaptionParts(n, title))
  {
    var c := FormatCaption(series, n, title, thumb);
    assert c == (series + " ") + EpisodeText(n, " ", title, thumb);
    EpisodeAtText(series + " ", n, " ", title, thumb);
    FormatCaptionTail(series, n, title, thumb);
    FormatCaptionPrefix(series, n, title, thumb);
    PrefixAtLastStart(c, 0, RunEnd(c, 0, IsWordOrSpace), |series| + 1);
    ParseAtStart(c);
  }

  /** A caption that parses has both a `第` and a `話`, so the extractor's
      plain-membership test before the pattern never rejects a caption the
      pattern would accept. */
  lemma ParsedHasGlyphs(caption: string)
    requires ParseCaption(caption).Some?
    ensures '第' in caption && '話' in caption
  {
    FirstMatchSpec((i: nat) => MatchAt(caption, i), 0, |caption|);
    var i :| 0 <= i <= |caption| && MatchAt(caption, i).Some?;
    var len := RunEnd(caption, i, IsWordOrSpace) - i;
    LastMatchSpec((q: nat) => EpisodeAt(caption, q), i, len);
    var q :| i <= q <= i + len && EpisodeAt(caption, q).Some?;
    EpisodeAtParts(caption, q);
  }

  const TestSeries: string := "テストシリーズ"

  lemma TestSeriesIsWords()
    ensures WordSeries(TestSeries)
  {
    forall i | 0 <= i < |TestSeries|
      ensures IsWordOrSpace(TestSeries[i])
    {
      if TestSeries[i] == 'ー' {
        LetterIn(TestSeries[i], KatakanaMarks);
      } else {
        LetterIn(TestSeries[i], Katakana);
      }
    }
  }

  /** The thumbnail alt text of the first episode of the extractor's test
      page, with the thumbnail suffix. */
  lemma ExampleThumbnailCaption()
    ensures ParseCaption("テストシリーズ 第1話 はじめての冒険のサムネイル")
      == Some(CaptionParts(1, "はじめての冒険"))
  {
    assert NatToString(1) == "1";
    TestSeriesIsWords();
    assert "テストシリーズ 第1話 はじめての冒険のサムネイル"
      == FormatCaption(TestSeries, 1, "はじめての冒険", true);
    ParseFormatCaption(TestSeries, 1, "はじめての冒険", true);
  }

  /** The second episode of the test page, without the suffix. */
  lemma ExamplePlainCaption()
    ensures ParseCaption("テストシリーズ 第2話 新しい出会い")
      == Some(CaptionParts(2, "新しい出会い"))
  {
    var title := "新しい出会い";
    assert "テストシリーズ 第2話 新しい出会い" == FormatCaption(TestSeries, 2, title, false) by {
      assert NatToString(2) == "2";
    }
    assert PlainTitle(title, false) && !IsSpace(title[0]) && '第' !in title by {
      assert !EndsWith(title, ThumbnailSuffix);
    }
    TestSeriesIsWords();
    ParseFormatCaption(TestSeries, 2, title, false);
  }

  /** The greedy prefix: of two `第N話` in a row, the search reports the
      second. */
  lemma GreedyPrefixExample()
    ensures ParseCaption("第1話 第2話 の謎") == Some(CaptionParts(2, "の謎"))
  {
    assert NatToString(2) == "2";
    LetterIn('第', Ideographs);
    LetterIn('話', Ideographs);
    assert WordSeries("第1話");
    assert "第1話 第2話 の謎" == FormatCaption("第1話", 2, "の謎", false);
    ParseFormatCaption("第1話", 2, "の謎", false);
  }

  /** The pattern anchored at the first `第` of the same caption matches too,
      with the second `第N話` inside its title. */
  lemma AnchoredExample()
    ensures EpisodeAt("第1話 第2話 の謎", 0) == Some(CaptionParts(1, "第2話 の謎"))
  {
    assert NatToString(1) == "1";
    assert "第1話 第2話 の謎" == "" + EpisodeText(1, " ", "第2話 の謎", false);
    EpisodeAtText("", 1, " ", "第2話 の謎", false);
  }
}
