/** The synopsis of one episode page: `fetch_synopsis` of the package
    (abema_metadata/extractor.py lines 81-94) and of the older script
    (abema_extractor.py lines 24-39), which behave alike. The page fetch
    and Python's `unicode_escape` codec are parameters: each returns `None`
    where the original raises, and a raised exception makes the whole
    fetch give `None`. */
module Synopsis {
  import opened Wrappers
  import opened Strings
  import opened Fields
  import opened Scanner

  /** The two-character text `\n` (a backslash and the letter n). */
  const EscapedNewline: string := "\\n"

  /** The two-character text `\u` that triggers escape decoding. */
  const EscapedUnicode: string := "\\u"

  /** A backslash directly followed by `n` at index `j`. */
  predicate EscapeAt(s: string, j: nat) {
    j + 1 < |s| && s[j] == '\\' && s[j + 1] == 'n'
  }

  predicate NoEscapedNewline(s: string) {
    forall j :: 0 <= j < |s| ==> !EscapeAt(s, j)
  }

  /** `str.replace('\\n', '\n')`: every backslash-n, scanned left to right
      without overlaps, becomes a line break. */
  function ReplaceEscapedNewlines(s: string): (r: string)
    ensures |r| <= |s|
    ensures |s| > 0 ==> |r| > 0
  {
    if |s| < 2 then s
    else if s[0] == '\\' && s[1] == 'n' then "\n" + ReplaceEscapedNewlines(s[2..])
    else [s[0]] + ReplaceEscapedNewlines(s[1..])
  }

  /** What the replacement puts first. */
  lemma ReplaceHead(s: string)
    requires |s| > 0
    ensures ReplaceEscapedNewlines(s)[0] == if EscapeAt(s, 0) then '\n' else s[0]
  {
  }

  /** No backslash-n survives the replacement: a line break is never a
      backslash, and a kept backslash is never followed by a kept `n`. */
  lemma {:induction false} ReplaceLeavesNoEscape(s: string)
    ensures NoEscapedNewline(ReplaceEscapedNewlines(s))
    decreases |s|
  {
    var r := ReplaceEscapedNewlines(s);
    if |s| < 2 {
      forall j: nat
        ensures !EscapeAt(r, j)
      {
      }
    } else if EscapeAt(s, 0) {
      var t := ReplaceEscapedNewlines(s[2..]);
      ReplaceLeavesNoEscape(s[2..]);
      forall j: nat
        ensures !EscapeAt(r, j)
      {
        if j > 0 && j + 1 < |r| {
          assert r[j] == t[j - 1] && r[j + 1] == t[j];
          assert !EscapeAt(t, j - 1);
        }
      }
    } else {
      var t := ReplaceEscapedNewlines(s[1..]);
      ReplaceLeavesNoEscape(s[1..]);
      ReplaceHead(s[1..]);
      forall j: nat
        ensures !EscapeAt(r, j)
      {
        if j > 0 && j + 1 < |r| {
          assert r[j] == t[j - 1] && r[j + 1] == t[j];
          assert !EscapeAt(t, j - 1);
        }
      }
    }
  }

  /** The inverse direction: writing every line break as backslash-n. */
  function EscapeNewlines(s: string): (r: string)
    ensures |r| >= |s|
  {
    if |s| == 0 then []
    else (if s[0] == '\n' then EscapedNewline else [s[0]]) + EscapeNewlines(s[1..])
  }

  /** Escaping line breaks and replacing them back gives the text back, as
      long as it holds no backslash-n of its own. */
  lemma {:induction false} ReplaceUndoesEscape(s: string)
    requires NoEscapedNewline(s)
    ensures ReplaceEscapedNewlines(EscapeNewlines(s)) == s
    decreases |s|
  {
    if |s| > 0 {
      var e := EscapeNewlines(s);
      var rest := EscapeNewlines(s[1..]);
      assert NoEscapedNewline(s[1..]) by {
        forall j: nat
          ensures !EscapeAt(s[1..], j)
        {
          assert !EscapeAt(s, j + 1);
        }
      }
      ReplaceUndoesEscape(s[1..]);
      if s[0] == '\n' {
        assert e == EscapedNewline + rest;
        assert e[2..] == rest;
      } else {
        assert e == [s[0]] + rest;
        assert e[1..] == rest;
        if |s| > 1 {
          EscapeHead(s[1..]);
          assert !EscapeAt(s, 0);
          assert !EscapeAt(e, 0);
        }
      }
    }
  }

  /** The first character of an escaped text. */
  lemma EscapeHead(s: string)
    requires |s| > 0
    ensures EscapeNewlines(s)[0] == if s[0] == '\n' then '\\' else s[0]
  {
  }

  /** The text processing of a found description: line breaks first, then
      escape decoding when a backslash-u remains. `None` when decoding
      raises. */
  function ProcessDescription(description: string, unicodeEscape: string -> Option<string>): Option<string> {
    var d := ReplaceEscapedNewlines(description);
    if Contains(d, EscapedUnicode) then unicodeEscape(d) else Some(d)
  }

  /** Without a backslash-u the description comes out without any
      backslash-n left; a description written from a text by escaping its
      line breaks comes out as that text. With a backslash-u the result is
      the decoder's, `None` when it raises. */
  lemma ProcessedText(description: string, unicodeEscape: string -> Option<string>)
    ensures !Contains(ReplaceEscapedNewlines(description), EscapedUnicode) ==>
      && ProcessDescription(description, unicodeEscape).Some?
      && NoEscapedNewline(ProcessDescription(description, unicodeEscape).value)
    ensures Contains(ReplaceEscapedNewlines(description), EscapedUnicode) ==>
      ProcessDescription(description, unicodeEscape) == unicodeEscape(ReplaceEscapedNewlines(description))
  {
    ReplaceLeavesNoEscape(description);
  }

  lemma ProcessEscapedText(text: string, unicodeEscape: string -> Option<string>)
    requires NoEscapedNewline(text) && !Contains(text, EscapedUnicode)
    ensures ProcessDescription(EscapeNewlines(text), unicodeEscape) == Some(text)
  {
    ReplaceUndoesEscape(text);
  }

  /** The description of the first block that holds `description` and a
      `"description": "…"` field, processed. */
  function SynopsisFromBlocks(blocks: seq<string>, unicodeEscape: string -> Option<string>): Option<string> {
    if |blocks| == 0 then None
    else if Contains(blocks[0], "description") && FieldSearch(blocks[0], "description").Some? then
      ProcessDescription(FieldSearch(blocks[0], "description").value, unicodeEscape)
    else SynopsisFromBlocks(blocks[1..], unicodeEscape)
  }

  /** The synopsis comes from the first block with a description field;
      the `'description' in` test never skips such a block. */
  lemma {:induction false} SynopsisFromFirstDescription(blocks: seq<string>, unicodeEscape: string -> Option<string>)
    ensures (forall i :: 0 <= i < |blocks| ==> FieldSearch(blocks[i], "description").None?) ==>
      SynopsisFromBlocks(blocks, unicodeEscape) == None
    ensures forall i ::
      (&& 0 <= i < |blocks|
       && FieldSearch(blocks[i], "description").Some?
       && (forall j :: 0 <= j < i ==> FieldSearch(blocks[j], "description").None?)) ==>
      SynopsisFromBlocks(blocks, unicodeEscape)
        == ProcessDescription(FieldSearch(blocks[i], "description").value, unicodeEscape)
  {
    if |blocks| > 0 {
      SynopsisFromFirstDescription(blocks[1..], unicodeEscape);
      if FieldSearch(blocks[0], "description").Some? {
        FieldSearchImpliesName(blocks[0], "description");
      } else {
        forall i | 1 <= i < |blocks|
          ensures blocks[1..][i - 1] == blocks[i]
        {
        }
      }
    }
  }

  /** `fetch_synopsis`: fetch the episode page and read its description;
      a failed fetch or a failed decoding gives `None`. */
  function FetchSynopsis(fetchPage: string -> Option<string>, unicodeEscape: string -> Option<string>,
                         episodeUrl: string): Option<string> {
    match fetchPage(episodeUrl)
    case None => None
    case Some(content) => SynopsisFromBlocks(Blocks(content), unicodeEscape)
  }

  /** A fetched page's synopsis is read from the blocks of that page. */
  lemma FetchedSynopsis(fetchPage: string -> Option<string>, unicodeEscape: string -> Option<string>,
                        episodeUrl: string, content: string)
    requires fetchPage(episodeUrl) == Some(content)
    ensures FetchSynopsis(fetchPage, unicodeEscape, episodeUrl) == SynopsisFromBlocks(Blocks(content), unicodeEscape)
  {
  }

  /** A failed fetch gives no synopsis; otherwise the synopsis is the
      processed description of the first block of the episode page that
      has a description field, and none when no block has one. */
  lemma FetchSynopsisSpec(fetchPage: string -> Option<string>, unicodeEscape: string -> Option<string>,
                          episodeUrl: string)
    ensures fetchPage(episodeUrl).None? ==> FetchSynopsis(fetchPage, unicodeEscape, episodeUrl).None?
    ensures fetchPage(episodeUrl).Some? ==>
      var blocks := Blocks(fetchPage(episodeUrl).value);
      && ((forall i :: 0 <= i < |blocks| ==> FieldSearch(blocks[i], "description").None?) ==>
            FetchSynopsis(fetchPage, unicodeEscape, episodeUrl).None?)
      && (forall i ::
            (&& 0 <= i < |blocks|
             && FieldSearch(blocks[i], "description").Some?
             && (forall j :: 0 <= j < i ==> FieldSearch(blocks[j], "description").None?)) ==>
            FetchSynopsis(fetchPage, unicodeEscape, episodeUrl)
              == ProcessDescription(FieldSearch(blocks[i], "description").value, unicodeEscape))
  {
    if fetchPage(episodeUrl).Some? {
      var content := fetchPage(episodeUrl).value;
      FetchedSynopsis(fetchPage, unicodeEscape, episodeUrl, content);
      SynopsisFromFirstDescription(Blocks(content), unicodeEscape);
    }
  }
}
