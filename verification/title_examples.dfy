/** The series title on two breadcrumb pages: the page of
    tests/test_extractor.py lines 68-100, whose JSON has a space after every
    colon, and the same breadcrumb list written without spaces. */
module TitleExamples {
  import opened Wrappers
  import opened Strings
  import opened Fields
  import opened Scanner
  import opened Title

  // The page of the test, with its indented JSON.

  /** Text that keeps a joined text free of `:"` and of tags: no `:"`
      inside, no `<`, and no colon at the end. */
  predicate Plain(s: string) {
    && NoColonQuote(s)
    && '<' !in s
    && (|s| > 0 ==> s[|s| - 1] != ':')
  }

  lemma NoColonQuoteAppend(a: string, b: string)
    requires NoColonQuote(a) && NoColonQuote(b)
    requires |a| > 0 ==> a[|a| - 1] != ':'
    ensures NoColonQuote(a + b)
  {
    var s := a + b;
    forall j | 0 <= j < |s| - 1 && s[j] == ':'
      ensures s[j + 1] != '"'
    {
      if j + 1 < |a| {
        assert s[j] == a[j] && s[j + 1] == a[j + 1];
      } else if j >= |a| {
        assert s[j] == b[j - |a|] && s[j + 1] == b[j + 1 - |a|];
      }
    }
  }

  /** Plain texts joined stay plain. */
  lemma PlainAppend(a: string, b: string)
    requires Plain(a) && Plain(b)
    ensures Plain(a + b)
  {
    NoColonQuoteAppend(a, b);
    if |b| > 0 {
      assert (a + b)[|a + b| - 1] == b[|b| - 1];
    }
  }

  lemma NoColonPlain(s: string)
    requires ':' !in s && '<' !in s
    ensures Plain(s)
  {
  }

  function Spaces(n: nat): string {
    seq(n, _ => ' ')
  }

  /** A line holding only `text` after `indent` spaces. */
  function Bare(indent: nat, text: string): string {
    Spaces(indent) + (text + "\n")
  }

  /** A line `"key": value` after `indent` spaces. */
  function Member(indent: nat, key: string, value: string): string {
    Spaces(indent) + ("\"" + (key + ("\": " + (value + "\n"))))
  }

  lemma BarePlain(indent: nat, text: string)
    requires Plain(text)
    ensures Plain(Bare(indent, text))
  {
    NoColonPlain(Spaces(indent));
    NoColonPlain("\n");
    PlainAppend(text, "\n");
    PlainAppend(Spaces(indent), text + "\n");
  }

  lemma MemberPlain(indent: nat, key: string, value: string)
    requires Plain(key) && Plain(value)
    ensures Plain(Member(indent, key, value))
  {
    var sep := "\": ";
    assert sep[1] == ':' && sep[2] == ' ';
    assert Plain(sep);
    NoColonPlain(Spaces(indent));
    NoColonPlain("\"");
    NoColonPlain("\n");
    PlainAppend(value, "\n");
    PlainAppend(sep, value + "\n");
    PlainAppend(key, sep + (value + "\n"));
    PlainAppend("\"", key + (sep + (value + "\n")));
    PlainAppend(Spaces(indent), "\"" + (key + (sep + (value + "\n"))));
  }

  /** One entry of the list, closed by `close`. */
  function SpacedItem(position: string, name: string, close: string): string {
    Bare(12, "{")
      + (Member(16, "@type", "\"ListItem\",")
      + (Member(16, "position", position + ",")
      + (Member(16, "name", "\"" + name + "\"")
      + Bare(12, close))))
  }

  lemma SpacedItemPlain(position: string, name: string, close: string)
    requires ':' !in position && '<' !in position
    requires ':' !in name && '<' !in name
    requires ':' !in close && '<' !in close
    ensures Plain(SpacedItem(position, name, close))
  {
    NoColonPlain("{");
    NoColonPlain("@type");
    NoColonPlain("\"ListItem\",");
    NoColonPlain("position");
    NoColonPlain(position + ",");
    NoColonPlain("name");
    NoColonPlain("\"" + name + "\"");
    NoColonPlain(close);
    BarePlain(12, "{");
    MemberPlain(16, "@type", "\"ListItem\",");
    MemberPlain(16, "position", position + ",");
    MemberPlain(16, "name", "\"" + name + "\"");
    BarePlain(12, close);
    var d := Bare(12, close);
    var c := Member(16, "name", "\"" + name + "\"");
    var b := Member(16, "position", position + ",");
    var a := Member(16, "@type", "\"ListItem\",");
    PlainAppend(c, d);
    PlainAppend(b, c + d);
    PlainAppend(a, b + (c + d));
    PlainAppend(Bare(12, "{"), a + (b + (c + d)));
  }

  const SchemaContext: string := "\"https://schema.org\","

  lemma SchemaContextPlain()
    ensures Plain(SchemaContext)
  {
    var s := SchemaContext;
    assert s[6] == ':' && s[7] == '/';
    forall j | 0 <= j < |s| && s[j] == ':'
      ensures j == 6
    {
    }
  }

  /** The opening lines of the test's script body, up to the list. */
  function SpacedHead(): string {
    Bare(0, "")
      + (Bare(4, "{")
      + (Member(8, "@context", SchemaContext)
      + (Member(8, "@type", "\"BreadcrumbList\",")
      + Member(8, "itemListElement", "["))))
  }

  /** The closing lines, and the indentation before `</script>`. */
  function SpacedTail(): string {
    Bare(8, "]") + (Bare(4, "}") + Spaces(4))
  }

  /** The script body of the test page, with the three entry names as
      parameters (the test uses `ホーム`, `アニメ` and `テストシリーズ`). */
  function SpacedBreadcrumb(first: string, second: string, third: string): string {
    SpacedHead()
      + (SpacedItem("1", first, "},")
      + (SpacedItem("2", second, "},")
      + (SpacedItem("3", third, "}")
      + SpacedTail())))
  }

  /** A name that can stand in a plain line. */
  predicate PlainName(name: string) {
    ':' !in name && '<' !in name
  }

  lemma ContextMemberPlain()
    ensures Plain(Member(8, "@context", SchemaContext))
  {
    NoColonPlain("@context");
    SchemaContextPlain();
    MemberPlain(8, "@context", SchemaContext);
  }

  lemma TypeMemberPlain()
    ensures Plain(Member(8, "@type", "\"BreadcrumbList\","))
  {
    NoColonPlain("@type");
    NoColonPlain("\"BreadcrumbList\",");
    MemberPlain(8, "@type", "\"BreadcrumbList\",");
  }

  lemma ListMemberPlain()
    ensures Plain(Member(8, "itemListElement", "["))
  {
    NoColonPlain("itemListElement");
    NoColonPlain("[");
    MemberPlain(8, "itemListElement", "[");
  }

  lemma SpacedHeadPlain()
    ensures Plain(SpacedHead())
  {
    var d := Member(8, "itemListElement", "[");
    var c := Member(8, "@type", "\"BreadcrumbList\",");
    var b := Member(8, "@context", SchemaContext);
    ListMemberPlain();
    TypeMemberPlain();
    ContextMemberPlain();
    NoColonPlain("{");
    NoColonPlain("");
    BarePlain(4, "{");
    BarePlain(0, "");
    PlainAppend(c, d);
    PlainAppend(b, c + d);
    PlainAppend(Bare(4, "{"), b + (c + d));
    PlainAppend(Bare(0, ""), Bare(4, "{") + (b + (c + d)));
  }

  lemma SpacedTailPlain()
    ensures Plain(SpacedTail())
  {
    NoColonPlain("]");
    NoColonPlain("}");
    NoColonPlain(Spaces(4));
    BarePlain(8, "]");
    BarePlain(4, "}");
    PlainAppend(Bare(4, "}"), Spaces(4));
    PlainAppend(Bare(8, "]"), Bare(4, "}") + Spaces(4));
  }

  lemma SpacedBreadcrumbPlain(first: string, second: string, third: string)
    requires PlainName(first) && PlainName(second) && PlainName(third)
    ensures Plain(SpacedBreadcrumb(first, second, third))
  {
    SpacedHeadPlain();
    SpacedTailPlain();
    SpacedItemPlain("1", first, "},");
    SpacedItemPlain("2", second, "},");
    SpacedItemPlain("3", third, "}");
    var c := SpacedItem("3", third, "}");
    var b := SpacedItem("2", second, "},");
    var a := SpacedItem("1", first, "},");
    PlainAppend(c, SpacedTail());
    PlainAppend(b, c + SpacedTail());
    PlainAppend(a, b + (c + SpacedTail()));
    PlainAppend(SpacedHead(), a + (b + (c + SpacedTail())));
  }

  /** The test page: one script block between indented line breaks. */
  function SpacedBreadcrumbPage(first: string, second: string, third: string): string {
    Page([SpacedBreadcrumb(first, second, third)], "\n    ")
  }

  /** On the test page the code finds its one script block but no
      breadcrumb list, because the marker is looked for without spaces, so
      it answers `不明なシリーズ` whatever the names, and not the
      `テストシリーズ` the test expects. */
  lemma SpacedBreadcrumbPageTitle(first: string, second: string, third: string)
    requires PlainName(first) && PlainName(second) && PlainName(third)
    ensures Blocks(SpacedBreadcrumbPage(first, second, third)) == [SpacedBreadcrumb(first, second, third)]
    ensures ExtractSeriesTitle(SpacedBreadcrumbPage(first, second, third)) == UnknownSeries
  {
    var body := SpacedBreadcrumb(first, second, third);
    SpacedBreadcrumbPlain(first, second, third);
    OneBlockPage(body);
    SpacedJsonIsNoBreadcrumb(body);
  }

  /** The names of the test. */
  lemma TestPageTitle()
    ensures ExtractSeriesTitle(SpacedBreadcrumbPage("ホーム", "アニメ", "テストシリーズ")) == UnknownSeries
  {
    SpacedBreadcrumbPageTitle("ホーム", "アニメ", "テストシリーズ");
  }

  // The same list without spaces.

  /** A quote followed by `text`: the compact JSON is a run of these. */
  function Quoted(text: string): string {
    "\"" + text
  }

  /** A quote followed by anything but `n` starts no `"name":"` entry. */
  lemma {:induction false} NamesSkipQuoted(text: string, s: string)
    requires |text| > 0 && text[0] != 'n' && '"' !in text
    ensures Names(Quoted(text) + s) == Names(s)
  {
    var u := Quoted(text) + s;
    assert u[1] == text[0];
    assert |u| < |NameKey| || u[..|NameKey|][1] == u[1];
    assert NameAt(u).None?;
    assert u[1..] == text + s;
    NamesSkip(text, s);
  }

  /** `{"@type":"ListItem","position":<pos>,"name":"<name>"}`. */
  function CompactItem(position: string, name: string): string {
    "{" + (Quoted("@type") + (Quoted(":") + (Quoted("ListItem") + (Quoted(",")
      + (Quoted("position") + (Quoted(":" + position + ",") + (NameField(name) + "}")))))))
  }

  /** An entry contributes its name. */
  lemma NamesOfCompactItem(position: string, name: string, rest: string)
    requires '"' !in position && '"' !in name && |name| >= 1
    ensures Names(CompactItem(position, name) + rest) == [name] + Names(rest)
  {
    var t0 := NameField(name) + ("}" + rest);
    var t1 := Quoted(":" + position + ",") + t0;
    var t2 := Quoted("position") + t1;
    var t3 := Quoted(",") + t2;
    var t4 := Quoted("ListItem") + t3;
    var t5 := Quoted(":") + t4;
    var t6 := Quoted("@type") + t5;
    assert CompactItem(position, name) + rest == "{" + t6;
    assert Names("{" + t6) == Names(t6) by { NamesSkip("{", t6); }
    assert Names(t6) == Names(t5) by { NamesSkipQuoted("@type", t5); }
    assert Names(t5) == Names(t4) by { NamesSkipQuoted(":", t4); }
    assert Names(t4) == Names(t3) by { NamesSkipQuoted("ListItem", t3); }
    assert Names(t3) == Names(t2) by { NamesSkipQuoted(",", t2); }
    assert Names(t2) == Names(t1) by { NamesSkipQuoted("position", t1); }
    assert Names(t1) == Names(t0) by {
      assert '"' !in ":" + position + ",";
      NamesSkipQuoted(":" + position + ",", t0);
    }
    assert Names(t0) == [name] + Names("}" + rest) by { NamesOfNameField(name, "}" + rest); }
    assert Names("}" + rest) == Names(rest) by { NamesSkip("}", rest); }
  }

  /** A name that can stand in a compact entry. */
  predicate CompactName(name: string) {
    |name| >= 1 && '"' !in name && '<' !in name
  }

  /** The list entries, closed by `]}`. */
  function CompactItems(first: string, second: string, third: string): string {
    CompactItem("1", first) + ("," + (CompactItem("2", second)
      + ("," + (CompactItem("3", third) + "]}"))))
  }

  /** `{"@context":"https://schema.org",` before `rest`. */
  function CompactContext(rest: string): string {
    "{" + (Quoted("@context") + (Quoted(":") + (Quoted("https://schema.org") + (Quoted(",") + rest))))
  }

  /** `"itemListElement":[` before `rest`. */
  function CompactList(rest: string): string {
    Quoted("itemListElement") + (Quoted(":[") + rest)
  }

  /** The block: the context, the marker and the list. */
  function CompactBreadcrumb(first: string, second: string, third: string): string {
    CompactContext(BreadcrumbMarker + ("," + CompactList(CompactItems(first, second, third))))
  }

  lemma CompactItemsNames(first: string, second: string, third: string)
    requires CompactName(first) && CompactName(second) && CompactName(third)
    ensures Names(CompactItems(first, second, third)) == [first, second, third]
  {
    var c := CompactItem("3", third) + "]}";
    var b := CompactItem("2", second) + ("," + c);
    NamesOfCompactItem("1", first, "," + b);
    NamesSkip(",", b);
    NamesOfCompactItem("2", second, "," + c);
    NamesSkip(",", c);
    NamesOfCompactItem("3", third, "]}");
    NamesSkip("]}", "");
    assert Names("") == [];
  }

  lemma CompactContextSkip(rest: string)
    ensures Names(CompactContext(rest)) == Names(rest)
  {
    var u1 := Quoted(",") + rest;
    var u2 := Quoted("https://schema.org") + u1;
    var u3 := Quoted(":") + u2;
    var u4 := Quoted("@context") + u3;
    assert Names("{" + u4) == Names(u4) by { NamesSkip("{", u4); }
    assert Names(u4) == Names(u3) by { NamesSkipQuoted("@context", u3); }
    assert Names(u3) == Names(u2) by { NamesSkipQuoted(":", u2); }
    assert Names(u2) == Names(u1) by { NamesSkipQuoted("https://schema.org", u1); }
    assert Names(u1) == Names(rest) by { NamesSkipQuoted(",", rest); }
  }

  /** The marker followed by a comma is four quoted runs. */
  lemma MarkerRuns(rest: string)
    ensures BreadcrumbMarker + ("," + rest)
      == Quoted("@type") + (Quoted(":") + (Quoted("BreadcrumbList") + (Quoted(",") + rest)))
  {
    assert BreadcrumbMarker + "," == Quoted("@type") + (Quoted(":") + (Quoted("BreadcrumbList") + Quoted(",")));
  }

  lemma MarkerSkip(rest: string)
    ensures Names(BreadcrumbMarker + ("," + rest)) == Names(rest)
  {
    var t1 := Quoted(",") + rest;
    var t2 := Quoted("BreadcrumbList") + t1;
    var t3 := Quoted(":") + t2;
    MarkerRuns(rest);
    assert Names(Quoted("@type") + t3) == Names(t3) by { NamesSkipQuoted("@type", t3); }
    assert Names(t3) == Names(t2) by { NamesSkipQuoted(":", t2); }
    assert Names(t2) == Names(t1) by { NamesSkipQuoted("BreadcrumbList", t1); }
    assert Names(t1) == Names(rest) by { NamesSkipQuoted(",", rest); }
  }

  lemma CompactListSkip(rest: string)
    ensures Names(CompactList(rest)) == Names(rest)
  {
    NamesSkipQuoted("itemListElement", Quoted(":[") + rest);
    NamesSkipQuoted(":[", rest);
  }

  /** The names of the block are the three entry names. */
  lemma CompactNames(first: string, second: string, third: string)
    requires CompactName(first) && CompactName(second) && CompactName(third)
    ensures Names(CompactBreadcrumb(first, second, third)) == [first, second, third]
  {
    var items := CompactItems(first, second, third);
    CompactContextSkip(BreadcrumbMarker + ("," + CompactList(items)));
    MarkerSkip(CompactList(items));
    CompactListSkip(items);
    CompactItemsNames(first, second, third);
  }

  lemma CompactIsBreadcrumb(first: string, second: string, third: string)
    ensures IsBreadcrumb(CompactBreadcrumb(first, second, third))
  {
    var rest := "," + CompactList(CompactItems(first, second, third));
    var head := "{" + (Quoted("@context") + (Quoted(":") + (Quoted("https://schema.org") + Quoted(","))));
    var s := CompactBreadcrumb(first, second, third);
    assert s == head + (BreadcrumbMarker + rest);
    assert s[|head|..|head| + |BreadcrumbMarker|] == BreadcrumbMarker;
    ContainsAt(s, BreadcrumbMarker, |head|);
  }

  lemma CompactItemNoTag(position: string, name: string)
    requires '<' !in position && '<' !in name
    ensures '<' !in CompactItem(position, name)
  {
    var t0 := NameField(name) + "}";
    var t1 := Quoted(":" + position + ",") + t0;
    var t2 := Quoted("position") + t1;
    assert '<' !in t0;
    assert '<' !in t1;
    assert '<' !in t2;
  }

  lemma CompactItemsNoTag(first: string, second: string, third: string)
    requires CompactName(first) && CompactName(second) && CompactName(third)
    ensures '<' !in CompactItems(first, second, third)
  {
    CompactItemNoTag("1", first);
    CompactItemNoTag("2", second);
    CompactItemNoTag("3", third);
  }

  lemma CompactRestNoTag(items: string)
    requires '<' !in items
    ensures '<' !in BreadcrumbMarker + ("," + CompactList(items))
  {
    assert '<' !in CompactList(items);
  }

  /** No tag starts inside the block. */
  lemma CompactNoTag(first: string, second: string, third: string)
    requires CompactName(first) && CompactName(second) && CompactName(third)
    ensures '<' !in CompactBreadcrumb(first, second, third)
  {
    var items := CompactItems(first, second, third);
    CompactItemsNoTag(first, second, third);
    CompactRestNoTag(items);
  }

  /** A page of one block between indented line breaks: scanning finds the
      block, and its title is the block's. */
  lemma OneBlockPage(body: string)
    requires '<' !in body
    ensures Blocks(Page([body], "\n    ")) == [body]
    ensures ExtractSeriesTitle(Page([body], "\n    ")) == BlockTitle(body, PackageMinLength).GetOr(UnknownSeries)
  {
    NoLessThanNoClose(body);
    BlocksOfPage([body], "\n    ");
    assert FirstBlockTitle([body]) == BlockTitle(body, PackageMinLength);
  }

  /** Written without spaces, the same list is found: the page's title is
      the first of the three names that qualifies, or `不明なシリーズ` when
      none does. */
  lemma CompactBreadcrumbPageTitle(first: string, second: string, third: string)
    requires CompactName(first) && CompactName(second) && CompactName(third)
    ensures ExtractSeriesTitle(Page([CompactBreadcrumb(first, second, third)], "\n    "))
      == FirstQualifying([first, second, third], PackageMinLength).GetOr(UnknownSeries)
  {
    var body := CompactBreadcrumb(first, second, third);
    CompactNames(first, second, third);
    CompactIsBreadcrumb(first, second, third);
    CompactNoTag(first, second, third);
    OneBlockPage(body);
  }

  /** With the names of the test, `ホーム` and `アニメ` are navigation
      entries and `テストシリーズ` is the title. */
  lemma CompactTestPageTitle()
    ensures ExtractSeriesTitle(Page([CompactBreadcrumb("ホーム", "アニメ", "テストシリーズ")], "\n    "))
      == "テストシリーズ"
  {
    CompactBreadcrumbPageTitle("ホーム", "アニメ", "テストシリーズ");
    TestNamesQualifying();
  }

  lemma TestNamesQualifying()
    ensures FirstQualifying(["ホーム", "アニメ", "テストシリーズ"], PackageMinLength) == Some("テストシリーズ")
  {
    var names := ["ホーム", "アニメ", "テストシリーズ"];
    assert !Qualifies(names[0], PackageMinLength) && !Qualifies(names[1], PackageMinLength);
    assert names[1..][1..] == ["テストシリーズ"];
  }
}
