/** The structured-data block scanner: every non-overlapping
    `<script … type="application/ld+json" …>…</script>` body of a page, in
    document order (`re.finditer` with the pattern of extractor.py line 27). */
module Scanner {
  import opened Wrappers
  import opened Strings

  const ScriptOpen: string := "<script"
  const TypeAttribute: string := "type=\"application/ld+json\""
  const ScriptClose: string := "</script>"

  /** One match of the block pattern at the start of a text: the captured
      body and the number of characters the match consumed. */
  datatype BlockMatch = BlockMatch(body: string, length: nat)

  /** Where the opening tag at the front of `s` ends, just after its `>`,
      when it is a JSON-LD tag: `<script`, then a run up to the first `>`
      that holds the type attribute. */
  function OpenTagEnd(s: string): (t: Option<nat>)
    ensures t.Some? ==> 7 < t.value <= |s|
  {
    if !StartsWith(s, ScriptOpen) then None
    else
      match CharIndex(s[7..], '>')
      case None => None
      case Some(g) => if Contains(s[7..7 + g], TypeAttribute) then Some(7 + g + 1) else None
  }

  /** The block pattern matched at position 0 of `s`: a JSON-LD opening
      tag, then the lazy body up to the first `</script>` after it. */
  function ScriptAt(s: string): (r: Option<BlockMatch>)
    ensures r.Some? ==> 0 < r.value.length <= |s|
  {
    match OpenTagEnd(s)
    case None => None
    case Some(t) =>
      match IndexOf(s[t..], ScriptClose)
      case None => None
      case Some(k) => Some(BlockMatch(s[t..][..k], t + k + 9))
  }

  /** A matched body never holds the closing tag: the body is lazy. */
  lemma ScriptAtNoClose(s: string)
    ensures ScriptAt(s).Some? ==> !Contains(ScriptAt(s).value.body, ScriptClose)
  {
    match OpenTagEnd(s)
    case None =>
    case Some(t) =>
      match IndexOf(s[t..], ScriptClose)
      case None =>
      case Some(k) => BeforeFirstOccurrence(s[t..], ScriptClose, k);
  }

  /** The bodies of all blocks of `s`, in document order: after a match the
      scan resumes where the match ended, otherwise one character later. */
  function Blocks(s: string): (bs: seq<string>)
    ensures forall i :: 0 <= i < |bs| ==> !Contains(bs[i], ScriptClose)
    decreases |s|
  {
    if |s| == 0 then []
    else
      match ScriptAt(s)
      case Some(m) => ScriptAtNoClose(s); [m.body] + Blocks(s[m.length..])
      case None => Blocks(s[1..])
  }

  /** A JSON-LD element as a page writes it: an opening tag holding the
      type attribute, with other attribute text `before` and `after` it,
      then the body and the closing tag. */
  datatype ScriptElement = ScriptElement(before: string, after: string, body: string)

  /** The opening tag's text between `<script` and its `>`. */
  function TagText(e: ScriptElement): string {
    e.before + TypeAttribute + e.after
  }

  function ElementText(e: ScriptElement): string {
    ScriptOpen + (TagText(e) + (">" + (e.body + ScriptClose)))
  }

  /** The tag ends at its own `>` and the body holds no closing tag. */
  predicate WellFormed(e: ScriptElement) {
    '>' !in e.before && '>' !in e.after && !Contains(e.body, ScriptClose)
  }

  /** The pattern fails at the front of `u` on its own account: `u` does
      not start with `<script`, or that tag closes within `u` without the
      type attribute (a script element of another kind). */
  predicate Skips(u: string) {
    StartsWith(u, ScriptOpen) ==>
      match CharIndex(u[7..], '>')
      case None => false
      case Some(g) => !Contains(u[7..7 + g], TypeAttribute)
  }

  /** Text between blocks: no block match starts anywhere in it. */
  predicate Inert(t: string) {
    forall i :: 0 <= i < |t| ==> Skips(t[i..])
  }

  /** No `<` among the last six characters: the text cannot end in a
      piece of `<script` that the following text completes. */
  predicate ClosedEnd(t: string) {
    forall i :: 0 <= i < |t| && |t| - i < |ScriptOpen| ==> t[i] != '<'
  }

  /** A page: each element preceded by its own stretch of other text, and
      `last` after the final one. */
  function Document(items: seq<(string, ScriptElement)>, last: string): string {
    if |items| == 0 then last
    else items[0].0 + (ElementText(items[0].1) + Document(items[1..], last))
  }

  /** The opening tag pages commonly use: the type attribute alone. */
  function Bare(body: string): ScriptElement {
    ScriptElement(" ", "", body)
  }

  /** A page made of the given blocks, all with the bare tag, with the
      text `gap` before, between and after them. */
  function Page(bodies: seq<string>, gap: string): string {
    if |bodies| == 0 then gap else gap + (ElementText(Bare(bodies[0])) + Page(bodies[1..], gap))
  }

  lemma ScriptCloseShape()
    ensures |ScriptClose| == 9
    ensures forall i :: 0 < i < |ScriptClose| ==> ScriptClose[i] != ScriptClose[0]
  {
  }

  lemma ScriptOpenShape()
    ensures |ScriptOpen| == 7 && ScriptOpen[0] == '<'
    ensures forall i :: 0 < i < |ScriptOpen| ==> ScriptOpen[i] != '<'
    ensures '>' !in TypeAttribute
  {
  }

  /** A text the pattern skips at its front gives no match there. */
  lemma SkipsNoMatch(u: string)
    requires Skips(u)
    ensures ScriptAt(u) == None
  {
  }

  /** A text that does not start with `<` is skipped. */
  lemma NotOpenSkips(u: string)
    requires |u| > 0 && u[0] != '<'
    ensures Skips(u)
  {
    if |u| >= 7 {
      assert u[..7][0] == u[0];
    }
  }

  /** Text after a skipped front does not change that it is skipped, as
      long as the front is no unfinished `<script`: long enough to decide,
      not starting with `<`, or followed by a `<` that cannot continue it. */
  /** Text of at least `<script`'s length already decides whether it
      starts a JSON-LD tag, whatever follows. */
  lemma SkipsAppendLong(u: string, b: string)
    requires |u| >= 7 && Skips(u)
    ensures Skips(u + b)
  {
    var s := u + b;
    ScriptOpenShape();
    assert s[..7] == u[..7];
    if StartsWith(u, ScriptOpen) {
      var g := CharIndex(u[7..], '>').value;
      assert s[7..] == u[7..] + b;
      assert s[7..][..g] == u[7..][..g];
      CharIndexIs(s[7..], '>', g);
      assert s[7..7 + g] == u[7..7 + g];
    }
  }

  /** Shorter text followed by something that breaks `<script` cannot start
      a tag either. */
  lemma SkipsAppendShort(u: string, b: string)
    requires 0 < |u| < 7 && |b| > 0
    requires u[0] != '<' || b[0] == '<'
    ensures !StartsWith(u + b, ScriptOpen)
  {
    var s := u + b;
    ScriptOpenShape();
    if |s| >= 7 {
      if u[0] != '<' {
        assert s[..7][0] == u[0];
      } else {
        assert s[..7][|u|] == b[0];
      }
    }
  }

  lemma SkipsAppend(u: string, b: string)
    requires |u| > 0 && Skips(u)
    requires |u| >= 7 || u[0] != '<' || |b| == 0 || b[0] == '<'
    ensures Skips(u + b)
  {
    if |u| >= 7 {
      SkipsAppendLong(u, b);
    } else if |b| == 0 {
      assert u + b == u;
    } else {
      SkipsAppendShort(u, b);
    }
  }

  /** An inert text in front of anything that starts with `<` (or of
      nothing) adds no block. */
  lemma {:induction false} BlocksSkipFrom(t: string, i: nat, s: string)
    requires Inert(t) && i <= |t|
    requires |s| == 0 || s[0] == '<'
    ensures Blocks(t[i..] + s) == Blocks(s)
    decreases |t| - i
  {
    if i < |t| {
      var u := t[i..] + s;
      assert Skips(t[i..]);
      SkipsAppend(t[i..], s);
      SkipsNoMatch(u);
      assert u[1..] == t[i + 1..] + s;
      BlocksSkipFrom(t, i + 1, s);
    } else {
      assert t[i..] + s == s;
    }
  }

  /** The pattern at the front of `s`, from its parts: a JSON-LD tag
      ending at `t` and the first closing tag `k` characters after it. */
  lemma ScriptAtParts(s: string, t: nat, tail: string, k: nat, body: string)
    requires OpenTagEnd(s) == Some(t) && s[t..] == tail
    requires IndexOf(tail, ScriptClose) == Some(k) && tail[..k] == body
    ensures ScriptAt(s) == Some(BlockMatch(body, t + k + 9))
  {
  }

  /** The tag text of an element holds the type attribute. */
  lemma TagHasType(e: ScriptElement)
    ensures Contains(TagText(e), TypeAttribute)
  {
    var tag := TagText(e);
    assert tag[|e.before|..|e.before| + |TypeAttribute|] == TypeAttribute;
    ContainsAt(tag, TypeAttribute, |e.before|);
  }

  /** A tag text without `>`, closed by one, ends where that `>` is: the
      pattern's tag is exactly that text. */
  lemma TagCloses(tag: string, tail: string)
    requires '>' !in tag
    ensures var s := ScriptOpen + (tag + (">" + tail));
      && StartsWith(s, ScriptOpen)
      && CharIndex(s[7..], '>') == Some(|tag|)
      && s[7..7 + |tag|] == tag
      && s[7 + |tag| + 1..] == tail
  {
    var s := ScriptOpen + (tag + (">" + tail));
    assert s[..7] == ScriptOpen;
    assert s[7..] == tag + (">" + tail);
    assert s[7..][..|tag|] == tag;
    CharIndexIs(s[7..], '>', |tag|);
  }

  /** Where the pieces of a JSON-LD element fall in its text. */
  /** A tag holding the type attribute and closed by its first `>` is a
      JSON-LD tag. */
  lemma OpenTagEndOf(tag: string, tail: string)
    requires '>' !in tag && Contains(tag, TypeAttribute)
    ensures OpenTagEnd(ScriptOpen + (tag + (">" + tail))) == Some(7 + |tag| + 1)
    ensures (ScriptOpen + (tag + (">" + tail)))[7 + |tag| + 1..] == tail
  {
    TagCloses(tag, tail);
  }

  /** A tag holding the type attribute, closed by its first `>`, and a
      body without a closing tag: the pattern matches that body. */
  /** Concatenation regroups freely. */
  lemma AppendAssoc(a: string, b: string, c: string)
    ensures (a + b) + c == a + (b + c)
  {
  }

  /** The first closing tag of `body + </script> + rest` is the one right
      after `body`, when `body` holds none. */
  lemma CloseAfterBody(body: string, rest: string)
    requires !Contains(body, ScriptClose)
    ensures IndexOf(body + (ScriptClose + rest), ScriptClose) == Some(|body|)
    ensures (body + (ScriptClose + rest))[..|body|] == body
  {
    ScriptCloseShape();
    FirstOccurrenceAfter(body, ScriptClose, rest);
    AppendAssoc(body, ScriptClose, rest);
  }

  /** Once the opening tag ends at `t`, the block runs to the first closing
      tag after it; `n` is the length of the whole match. */
  lemma ScriptAtBody(s: string, t: nat, body: string, rest: string, n: nat)
    requires OpenTagEnd(s) == Some(t) && s[t..] == body + (ScriptClose + rest)
    requires !Contains(body, ScriptClose)
    requires n == t + |body| + 9
    ensures ScriptAt(s) == Some(BlockMatch(body, n))
  {
    CloseAfterBody(body, rest);
    ScriptAtParts(s, t, body + (ScriptClose + rest), |body|, body);
  }

  /** An element followed by more text, regrouped to the right. */
  lemma ElementTextAppend(e: ScriptElement, rest: string)
    ensures ElementText(e) + rest
      == ScriptOpen + (TagText(e) + (">" + (e.body + (ScriptClose + rest))))
  {
    var x := e.body + ScriptClose;
    var y := ">" + x;
    var z := TagText(e) + y;
    AppendAssoc(ScriptOpen, z, rest);
    AppendAssoc(TagText(e), y, rest);
    AppendAssoc(">", x, rest);
    AppendAssoc(e.body, ScriptClose, rest);
  }

  /** The opening tag of a well-formed element ends just after its own
      `>`, and the body follows. */
  lemma OpenTagOfElement(e: ScriptElement, rest: string)
    requires WellFormed(e)
    ensures OpenTagEnd(ElementText(e) + rest) == Some(7 + |TagText(e)| + 1)
    ensures (ElementText(e) + rest)[7 + |TagText(e)| + 1..] == e.body + (ScriptClose + rest)
  {
    assert '>' !in TagText(e) by {
      ScriptOpenShape();
    }
    TagHasType(e);
    ElementTextAppend(e, rest);
    OpenTagEndOf(TagText(e), e.body + (ScriptClose + rest));
  }

  lemma ScriptAtElement(e: ScriptElement, rest: string)
    requires WellFormed(e)
    ensures ScriptAt(ElementText(e) + rest) == Some(BlockMatch(e.body, |ElementText(e)|))
  {
    OpenTagOfElement(e, rest);
    ScriptAtBody(ElementText(e) + rest, 7 + |TagText(e)| + 1, e.body, rest, |ElementText(e)|);
  }

  /** The bodies of the elements of a document, in order. */
  function Bodies(items: seq<(string, ScriptElement)>): (bs: seq<string>)
    ensures |bs| == |items|
    ensures forall i :: 0 <= i < |items| ==> bs[i] == items[i].1.body
  {
    if |items| == 0 then [] else [items[0].1.body] + Bodies(items[1..])
  }

  /** One element after inert text: the scan yields its body, then goes on
      after its closing tag. */
  lemma BlocksOfElement(gap: string, e: ScriptElement, rest: string)
    requires Inert(gap) && WellFormed(e)
    ensures Blocks(gap + (ElementText(e) + rest)) == [e.body] + Blocks(rest)
  {
    var w := ElementText(e);
    assert Blocks(gap + (w + rest)) == Blocks(w + rest) by {
      assert (w + rest)[0] == '<';
      BlocksSkipFrom(gap, 0, w + rest);
      assert gap[0..] == gap;
    }
    ScriptAtElement(e, rest);
    assert (w + rest)[|w|..] == rest;
  }

  /** The scan finds exactly the JSON-LD elements of a page, in order,
      whatever inert text (other markup, other script elements) lies
      between them and whatever other attributes their tags carry. */
  lemma {:induction false} BlocksOfDocument(items: seq<(string, ScriptElement)>, last: string)
    requires forall i :: 0 <= i < |items| ==> Inert(items[i].0) && WellFormed(items[i].1)
    requires Inert(last)
    ensures Blocks(Document(items, last)) == Bodies(items)
  {
    if |items| == 0 {
      BlocksSkipFrom(last, 0, []);
      assert last[0..] + [] == last;
    } else {
      BlocksOfElement(items[0].0, items[0].1, Document(items[1..], last));
      assert forall i :: 0 <= i < |items[1..]| ==> items[1..][i] == items[i + 1];
      BlocksOfDocument(items[1..], last);
    }
  }

  /** Text without `<script` is inert. */
  lemma NoOpenInert(t: string)
    requires !Contains(t, ScriptOpen)
    ensures Inert(t)
  {
    forall i | 0 <= i < |t|
      ensures Skips(t[i..])
    {
      if StartsWith(t[i..], ScriptOpen) {
        assert t[i..][..7] == t[i..i + 7];
        ContainsAt(t, ScriptOpen, i);
      }
    }
  }

  /** Text without `<` is inert. */
  lemma NoLessThanInert(t: string)
    requires '<' !in t
    ensures Inert(t)
  {
    forall i | 0 <= i < |t|
      ensures Skips(t[i..])
    {
      NotOpenSkips(t[i..]);
    }
  }

  /** Two inert texts make an inert text, unless the first ends in an
      unfinished `<script` that the second could complete. */
  lemma InertAppend(a: string, b: string)
    requires Inert(a) && Inert(b)
    requires ClosedEnd(a) || (|b| > 0 && b[0] == '<')
    ensures Inert(a + b)
  {
    var t := a + b;
    forall i | 0 <= i < |t|
      ensures Skips(t[i..])
    {
      if i < |a| {
        assert t[i..] == a[i..] + b;
        assert Skips(a[i..]);
        SkipsAppend(a[i..], b);
      } else {
        assert t[i..] == b[i - |a|..];
      }
    }
  }

  /** A script element of another kind: its tag, up to the first `>`,
      lacks the JSON-LD type attribute. */
  function OtherScript(attributes: string, code: string): string {
    ScriptOpen + attributes + ">" + code + ScriptClose
  }

  lemma OtherTagInert(attributes: string)
    requires '<' !in attributes && '>' !in attributes
    requires !Contains(attributes, TypeAttribute)
    ensures Inert(ScriptOpen + attributes + ">") && ClosedEnd(ScriptOpen + attributes + ">")
  {
    ScriptOpenShape();
    var h := ScriptOpen + attributes + ">";
    forall i | 0 <= i < |h|
      ensures Skips(h[i..])
    {
      if i == 0 {
        assert h[7..] == attributes + ">";
        assert h[7..][..|attributes|] == attributes;
        CharIndexIs(h[7..], '>', |attributes|);
        assert h[7..7 + |attributes|] == attributes;
      } else {
        assert h[i..][0] == h[i];
        NotOpenSkips(h[i..]);
      }
    }
  }

  lemma ScriptCloseInert()
    ensures Inert(ScriptClose) && ClosedEnd(ScriptClose)
  {
    forall i | 0 <= i < |ScriptClose|
      ensures Skips(ScriptClose[i..])
    {
      if i > 0 {
        NotOpenSkips(ScriptClose[i..]);
      }
    }
  }

  /** A script element of another kind between JSON-LD blocks adds no
      block: that is what the type test in the pattern is for. */
  lemma OtherScriptInert(attributes: string, code: string)
    requires '<' !in attributes && '>' !in attributes
    requires !Contains(attributes, TypeAttribute)
    requires !Contains(code, ScriptOpen)
    ensures Inert(OtherScript(attributes, code)) && ClosedEnd(OtherScript(attributes, code))
  {
    var h := ScriptOpen + attributes + ">";
    OtherTagInert(attributes);
    NoOpenInert(code);
    ScriptCloseInert();
    InertAppend(code, ScriptClose);
    InertAppend(h, code + ScriptClose);
    ClosedEndAppend(h + code, ScriptClose);
    assert OtherScript(attributes, code) == h + (code + ScriptClose) == (h + code) + ScriptClose;
  }

  /** A text that ends closed stays so after anything is put in front. */
  lemma ClosedEndAppend(a: string, b: string)
    requires ClosedEnd(b) && |b| >= |ScriptOpen| - 1
    ensures ClosedEnd(a + b)
  {
    var t := a + b;
    forall i | 0 <= i < |t| && |t| - i < |ScriptOpen|
      ensures t[i] != '<'
    {
      assert t[i] == b[i - |a|];
    }
  }

  /** Markup around a script element of another kind, none of it holding
      `<script`, is inert as a whole. */
  lemma GapWithOtherScript(lead: string, attributes: string, code: string, trail: string)
    requires !Contains(lead, ScriptOpen) && !Contains(trail, ScriptOpen)
    requires '<' !in attributes && '>' !in attributes
    requires !Contains(attributes, TypeAttribute)
    requires !Contains(code, ScriptOpen)
    ensures Inert(lead + OtherScript(attributes, code) + trail)
  {
    var other := OtherScript(attributes, code);
    NoOpenInert(lead);
    NoOpenInert(trail);
    OtherScriptInert(attributes, code);
    assert other[0] == '<';
    InertAppend(lead, other);
    ClosedEndAppend(lead, other);
    InertAppend(lead + other, trail);
  }

  /** The pages built by `Page`, as documents. */
  function PageItems(bodies: seq<string>, gap: string): seq<(string, ScriptElement)> {
    seq(|bodies|, i requires 0 <= i < |bodies| => (gap, Bare(bodies[i])))
  }

  lemma {:induction false} PageIsDocument(bodies: seq<string>, gap: string)
    ensures Page(bodies, gap) == Document(PageItems(bodies, gap), gap)
  {
    if |bodies| > 0 {
      PageIsDocument(bodies[1..], gap);
      assert PageItems(bodies, gap)[1..] == PageItems(bodies[1..], gap);
    }
  }

  /** Scanning a page built from blocks with the bare tag gives those
      blocks back, as long as no body contains the closing tag and the gap
      text has no `<`. */
  lemma BlocksOfPage(bodies: seq<string>, gap: string)
    requires forall i :: 0 <= i < |bodies| ==> !Contains(bodies[i], ScriptClose)
    requires '<' !in gap
    ensures Blocks(Page(bodies, gap)) == bodies
  {
    var items := PageItems(bodies, gap);
    PageIsDocument(bodies, gap);
    NoLessThanInert(gap);
    BlocksOfDocument(items, gap);
    assert Bodies(items) == bodies;
  }

  /** Text without a `<` holds no closing tag. */
  lemma NoLessThanNoClose(s: string)
    requires '<' !in s
    ensures !Contains(s, ScriptClose)
  {
    forall i: nat
      ensures !OccursAt(s, ScriptClose, i)
    {
      if i + |ScriptClose| <= |s| {
        assert s[i..i + |ScriptClose|][0] == s[i];
      }
    }
  }
}
