/** Field lookups inside one JSON-LD block, written as the two regular
    expressions the extractor uses:
    - `"<name>"\s*:\s*"([^"]+)"` with `re.search` (caption, url, description),
      which tolerates whitespace around the colon;
    - `"name":"([^"]+)"` with `re.findall` (breadcrumb names), which does not. */
module Fields {
  import opened Wrappers
  import opened Strings
  import opened CharClass

  function Quote(name: string): string {
    "\"" + name + "\""
  }

  /** `[^"]+"` at the start of `t`: a non-empty run of non-quote characters
      closed by a quote. */
  function QuotedValue(t: string): (r: Option<string>)
    ensures r.Some? ==> |r.value| >= 1 && '"' !in r.value
    ensures r.Some? ==> |r.value| < |t|
  {
    match CharIndex(t, '"')
    case None => None
    case Some(k) => if k == 0 then None else Some(t[..k])
  }

  /** `\s*:\s*"([^"]+)"` matched at index `i` of `s`, right after a key. */
  function ValueAfterKey(s: string, i: nat): (r: Option<string>)
    requires i <= |s|
    ensures r.Some? ==> |r.value| >= 1 && '"' !in r.value
  {
    var b := RunEnd(s, i, IsSpace);
    if b >= |s| || s[b] != ':' then None
    else
      var c := RunEnd(s, b + 1, IsSpace);
      if c >= |s| || s[c] != '"' then None
      else QuotedValue(s[c + 1..])
  }

  /** `"<name>"\s*:\s*"([^"]+)"` matched at position 0 of `s`. */
  function FieldAt(s: string, name: string): (r: Option<string>)
    ensures r.Some? ==> StartsWith(s, Quote(name))
    ensures r.Some? ==> |r.value| >= 1 && '"' !in r.value
  {
    if StartsWith(s, Quote(name)) then ValueAfterKey(s, |Quote(name)|) else None
  }

  /** `re.search` of the field pattern: the match at the earliest position. */
  function FieldSearch(s: string, name: string): (r: Option<string>)
    ensures r.Some? ==> |r.value| >= 1 && '"' !in r.value
    ensures r.Some? ==> Contains(s, Quote(name))
  {
    if |s| == 0 then None
    else
      match FieldAt(s, name)
      case Some(v) =>
        ContainsAt(s, Quote(name), 0);
        Some(v)
      case None =>
        ContainsShift(s, Quote(name));
        FieldSearch(s[1..], name)
  }

  /** An occurrence in `s[1..]` is an occurrence in `s`. */
  lemma ContainsShift(s: string, p: string)
    requires |s| > 0
    ensures Contains(s[1..], p) ==> Contains(s, p)
  {
    if !Contains(s[1..], p) {
      return;
    }
    var i := IndexOf(s[1..], p).value;
    assert s[1..][i..i + |p|] == s[i + 1..i + 1 + |p|];
    ContainsAt(s, p, i + 1);
  }

  /** A field found by `FieldSearch` means the block also passes the plain
      `'<name>' in block` test the extractor runs first. */
  lemma FieldSearchImpliesName(s: string, name: string)
    requires FieldSearch(s, name).Some?
    ensures Contains(s, name)
  {
    var q := Quote(name);
    var i := IndexOf(s, q).value;
    assert q[1..1 + |name|] == name;
    OccursWithin(s, q, name, i, 1);
    ContainsAt(s, name, i + 1);
  }

  /** A field written as `"<name>"<ws>:<ws>"<value>"`. */
  function Field(name: string, before: string, after: string, value: string): string {
    Quote(name) + before + ":" + after + "\"" + value + "\""
  }

  /** A run of whitespace stops at the first character outside `\s`. */
  lemma SpacesEnd(s: string, i: nat, e: nat)
    requires i <= e < |s|
    requires AllSpace(s[i..e]) && !IsSpace(s[e])
    ensures RunEnd(s, i, IsSpace) == e
  {
    forall j | i <= j < e
      ensures IsSpace(s[j])
    {
      assert s[j] == s[i..e][j - i];
    }
    RunEndExact(s, i, IsSpace, e);
  }

  /** The value read is the text up to the first quote. */
  lemma QuotedValueShape(t: string)
    requires QuotedValue(t).Some?
    ensures var v := QuotedValue(t).value; t[..|v|] == v && t[|v|] == '"'
  {
  }

  lemma QuotedValueOf(value: string, rest: string)
    requires |value| >= 1 && '"' !in value
    ensures QuotedValue(value + "\"" + rest) == Some(value)
  {
    var t := value + "\"" + rest;
    assert t[..|value|] == value;
    CharIndexIs(t, '"', |value|);
  }

  /** The steps of one successful field match, from the key to the value. */
  lemma ValueAfterKeySteps(s: string, i: nat, b: nat, c: nat, value: string)
    requires i <= |s|
    requires b == RunEnd(s, i, IsSpace)
    requires b < |s| && s[b] == ':'
    requires c == RunEnd(s, b + 1, IsSpace)
    requires c < |s| && s[c] == '"'
    requires QuotedValue(s[c + 1..]) == Some(value)
    ensures ValueAfterKey(s, i) == Some(value)
  {
  }

  /** Where the pieces of a field sit in the text. */
  lemma FieldLayout(name: string, before: string, after: string, value: string, rest: string)
    ensures var s := Field(name, before, after, value) + rest;
      var k := |Quote(name)|;
      var b := k + |before|;
      var c := b + 1 + |after|;
      && c < |s|
      && s[..k] == Quote(name) && s[k..b] == before && s[b] == ':'
      && s[b + 1..c] == after && s[c] == '"' && s[c + 1..] == value + "\"" + rest
  {
    var s := Field(name, before, after, value) + rest;
    var k := |Quote(name)|;
    var b := k + |before|;
    var c := b + 1 + |after|;
    var t3 := value + "\"" + rest;
    assert s == Quote(name) + before + ":" + after + "\"" + t3;
    assert s[..k] == Quote(name);
    assert s[k..b] == before;
    assert s[b] == ':';
    assert s[b + 1..c] == after;
    assert s[c] == '"';
    assert s[c + 1..] == t3;
  }

  /** A field match assembled from its pieces: the key, whitespace up to
      the colon at `b`, whitespace up to the quote at `c`, and the value. */
  lemma FieldAtOfParts(s: string, name: string, b: nat, c: nat, value: string, rest: string)
    requires |Quote(name)| <= b < c < |s|
    requires s[..|Quote(name)|] == Quote(name)
    requires AllSpace(s[|Quote(name)|..b]) && s[b] == ':'
    requires AllSpace(s[b + 1..c]) && s[c] == '"'
    requires s[c + 1..] == value + "\"" + rest
    requires |value| >= 1 && '"' !in value
    ensures FieldAt(s, name) == Some(value)
  {
    var k := |Quote(name)|;
    SpacesEnd(s, k, b);
    SpacesEnd(s, b + 1, c);
    QuotedValueOf(value, rest);
    ValueAfterKeySteps(s, k, b, c, value);
  }

  /** The field pattern reads back the value of a field however much
      whitespace surrounds the colon. */
  lemma FieldAtField(name: string, before: string, after: string, value: string, rest: string)
    requires AllSpace(before) && AllSpace(after)
    requires |value| >= 1 && '"' !in value
    ensures FieldAt(Field(name, before, after, value) + rest, name) == Some(value)
  {
    var b := |Quote(name)| + |before|;
    FieldLayout(name, before, after, value, rest);
    FieldAtOfParts(Field(name, before, after, value) + rest, name, b, b + 1 + |after|, value, rest);
  }

  /** Text without a quote before a field is skipped by the search. */
  lemma {:induction false} FieldSearchSkip(p: string, s: string, name: string)
    requires '"' !in p
    ensures FieldSearch(p + s, name) == FieldSearch(s, name)
    decreases |p|
  {
    if |p| == 0 {
      assert p + s == s;
    } else {
      var u := p + s;
      assert u[0] == p[0] != '"';
      assert Quote(name)[0] == '"';
      assert FieldAt(u, name).None?;
      assert u[1..] == p[1..] + s;
      FieldSearchSkip(p[1..], s, name);
    }
  }

  /** A position whose second character differs from the first letter of
      `name` starts no match. */
  lemma FieldSearchStep(u: string, name: string)
    requires |name| >= 1 && |u| >= 2 && u[1] != name[0]
    ensures FieldSearch(u, name) == FieldSearch(u[1..], name)
  {
    var q := Quote(name);
    assert q[1] == name[0];
    assert !StartsWith(u, q) by {
      if |q| <= |u| {
        assert u[..|q|][1] == u[1];
      }
    }
  }

  /** A quote that is not followed by the first letter of `name` starts no
      match, and neither does the quote-free text `x` after it. */
  lemma FieldSearchSkipQuoted(x: string, s: string, name: string)
    requires |name| >= 1 && |x| >= 1
    requires '"' !in x && x[0] != name[0]
    ensures FieldSearch("\"" + x + s, name) == FieldSearch(s, name)
  {
    var t := x + s;
    var u := "\"" + t;
    assert u == "\"" + x + s;
    assert u[1..] == t;
    FieldSearchStep(u, name);
    FieldSearchSkip(x, s, name);
  }

  /** A field `"<key>": "<value>"` followed by a separator is passed over
      by the search for another name, as long as neither the key, the
      value nor the separator starts with that name's first letter. */
  lemma FieldSearchSkipField(key: string, value: string, sep: string, rest: string, name: string)
    requires |name| >= 1 && name[0] != ':'
    requires |key| >= 1 && |value| >= 1 && |sep| >= 1
    requires '"' !in key && '"' !in value && '"' !in sep
    requires key[0] != name[0] && value[0] != name[0] && sep[0] != name[0]
    ensures FieldSearch(Field(key, "", " ", value) + (sep + rest), name) == FieldSearch(rest, name)
  {
    var r3 := "\"" + sep + rest;
    var r2 := "\"" + value + r3;
    var r1 := "\"" + ": " + r2;
    FieldText(key, value, sep, rest);
    FieldSearchSkipQuoted(sep, rest, name);
    FieldSearchSkipQuoted(value, r3, name);
    FieldSearchSkipQuoted(": ", r2, name);
    FieldSearchSkipQuoted(key, r1, name);
  }

  /** A spaced field split at its quotes. */
  lemma FieldText(key: string, value: string, sep: string, rest: string)
    ensures Field(key, "", " ", value) + (sep + rest)
      == "\"" + key + ("\"" + ": " + ("\"" + value + ("\"" + sep + rest)))
  {
  }

  /** A field at the start of the text is what the search finds. */
  lemma FieldSearchField(name: string, value: string, rest: string)
    requires |value| >= 1 && '"' !in value
    ensures FieldSearch(Field(name, "", " ", value) + rest, name) == Some(value)
  {
    FieldAtField(name, "", " ", value, rest);
  }

  /** The literal `"name":"` that `re.findall` looks for in breadcrumb blocks. */
  const NameKey: string := "\"name\":\""

  /** `"name":"([^"]+)"` at position 0 of `s`. */
  function NameAt(s: string): (r: Option<string>)
    ensures r.Some? ==> |r.value| >= 1 && '"' !in r.value
    ensures r.Some? ==> |NameKey| + |r.value| + 1 <= |s|
  {
    if StartsWith(s, NameKey) then QuotedValue(s[|NameKey|..]) else None
  }

  /** `re.findall` of the name pattern: all non-overlapping matches, left to
      right, each scan resuming after the closing quote. */
  function Names(s: string): (ns: seq<string>)
    ensures forall i :: 0 <= i < |ns| ==> |ns[i]| >= 1 && '"' !in ns[i]
    decreases |s|
  {
    if |s| == 0 then []
    else
      match NameAt(s)
      case Some(v) => [v] + Names(s[|NameKey| + |v| + 1..])
      case None => Names(s[1..])
  }

  /** A name entry written without spaces. */
  function NameField(value: string): string {
    NameKey + value + "\""
  }

  lemma NamesOfNameField(value: string, rest: string)
    requires |value| >= 1 && '"' !in value
    ensures Names(NameField(value) + rest) == [value] + Names(rest)
  {
    var s := NameField(value) + rest;
    assert s == NameKey + (value + "\"" + rest);
    assert s[..|NameKey|] == NameKey;
    assert s[|NameKey|..] == value + "\"" + rest;
    CharIndexIs(s[|NameKey|..], '"', |value|);
    assert s[|NameKey|..][..|value|] == value;
    assert NameAt(s) == Some(value);
    assert s[|NameKey| + |value| + 1..] == rest;
  }

  /** Text without a quote contributes no names. */
  lemma {:induction false} NamesSkip(p: string, s: string)
    requires '"' !in p
    ensures Names(p + s) == Names(s)
    decreases |p|
  {
    if |p| == 0 {
      assert p + s == s;
    } else {
      var u := p + s;
      assert u[0] == p[0] != '"';
      assert NameAt(u).None?;
      assert u[1..] == p[1..] + s;
      NamesSkip(p[1..], s);
    }
  }
}
