/** The character classes the extractor's regular expressions use:
    `\s` (Python's `str.isspace` table), `\d` (decimal digits) and `\w`
    (alphanumerics plus underscore). */
module CharClass {

  /** `\s`: every character Python's `str.isspace` accepts. */
  predicate IsSpace(c: char) {
    || ('\t' <= c <= '\r')
    || ('\U{1C}' <= c <= '\U{1F}')
    || c == ' '
    || c == '\U{85}'
    || c == '\U{A0}'
    || c == '\U{1680}'
    || ('\U{2000}' <= c <= '\U{200A}')
    || c == '\U{2028}'
    || c == '\U{2029}'
    || c == '\U{202F}'
    || c == '\U{205F}'
    || c == '\U{3000}'
  }

  /** A run of `\s` characters. */
  predicate AllSpace(w: string) {
    forall i :: 0 <= i < |w| ==> IsSpace(w[i])
  }

  /** The character whose digit value is 0 in the decimal-digit block of `c`,
      for the digit blocks this model knows. */
  function DigitZero(c: char): (z: char)
    requires IsDigit(c)
    ensures z <= c && c as int - z as int < 10
  {
    if '0' <= c <= '9' then '0'
    else if '\U{660}' <= c <= '\U{669}' then '\U{660}'
    else if '\U{6F0}' <= c <= '\U{6F9}' then '\U{6F0}'
    else if '\U{966}' <= c <= '\U{96F}' then '\U{966}'
    else '\U{FF10}'
  }

  /** `\d`: ASCII, Arabic-Indic, extended Arabic-Indic, Devanagari and
      fullwidth decimal digits. */
  predicate IsDigit(c: char) {
    || ('0' <= c <= '9')
    || ('\U{660}' <= c <= '\U{669}')
    || ('\U{6F0}' <= c <= '\U{6F9}')
    || ('\U{966}' <= c <= '\U{96F}')
    || ('\U{FF10}' <= c <= '\U{FF19}')
  }

  /** The value `int()` gives a single decimal digit. */
  function DigitValue(c: char): (v: nat)
    requires IsDigit(c)
    ensures v < 10
  {
    c as int - DigitZero(c) as int
  }

  /** Code-point ranges of the letters and other alphanumerics the model
      covers: Latin, Greek, Cyrillic, Hangul, kana, CJK ideographs and
      fullwidth forms. */
  const LetterRanges: seq<(char, char)> := [
    ('A', 'Z'), ('a', 'z'),
    ('\U{AA}', '\U{AA}'), ('\U{B2}', '\U{B3}'), ('\U{B5}', '\U{B5}'),
    ('\U{B9}', '\U{BA}'), ('\U{BC}', '\U{BE}'),
    ('\U{C0}', '\U{D6}'), ('\U{D8}', '\U{F6}'),
    ('\U{F8}', '\U{2C1}'), ('\U{2C6}', '\U{2D1}'),
    ('\U{386}', '\U{386}'), ('\U{388}', '\U{38A}'), ('\U{38C}', '\U{38C}'),
    ('\U{38E}', '\U{3A1}'), ('\U{3A3}', '\U{3F5}'),
    ('\U{3F7}', '\U{481}'), ('\U{48A}', '\U{52F}'),
    ('\U{1100}', '\U{11FF}'),
    ('\U{3005}', '\U{3007}'), ('\U{3021}', '\U{3029}'),
    ('\U{3031}', '\U{3035}'), ('\U{3038}', '\U{303C}'),
    ('\U{3041}', '\U{3096}'), ('\U{309D}', '\U{309F}'),
    ('\U{30A1}', '\U{30FA}'), ('\U{30FC}', '\U{30FF}'),
    ('\U{3131}', '\U{318E}'), ('\U{31F0}', '\U{31FF}'),
    ('\U{3400}', '\U{4DBF}'), ('\U{4E00}', '\U{9FFF}'),
    ('\U{AC00}', '\U{D7A3}'), ('\U{F900}', '\U{FA6D}'),
    ('\U{FF21}', '\U{FF3A}'), ('\U{FF41}', '\U{FF5A}'),
    ('\U{FF66}', '\U{FFBE}')
  ]

  /** Index of the hiragana range in `LetterRanges`. */
  const Hiragana: nat := 23
  /** Index of the katakana range (without the middle dot U+30FB). */
  const Katakana: nat := 25
  /** Index of the range of the prolonged sound mark and the katakana
      iteration marks. */
  const KatakanaMarks: nat := 26
  /** Index of the range of unified CJK ideographs. */
  const Ideographs: nat := 30

  /** A letter of `\w`: inside one of `LetterRanges`. */
  predicate IsLetter(c: char) {
    exists i :: 0 <= i < |LetterRanges| && LetterRanges[i].0 <= c <= LetterRanges[i].1
  }

  /** Membership of one range makes a letter. */
  lemma LetterIn(c: char, i: nat)
    requires i < |LetterRanges| && LetterRanges[i].0 <= c <= LetterRanges[i].1
    ensures IsLetter(c) && IsWordOrSpace(c)
  {
  }

  /** `\w`: alphanumerics and the underscore. */
  predicate IsWord(c: char) {
    IsDigit(c) || IsLetter(c) || c == '_'
  }

  /** `[\w\s]`, the class of the caption pattern's optional prefix. */
  predicate IsWordOrSpace(c: char) {
    IsWord(c) || IsSpace(c)
  }
}
