/**
 * The documents test/test_epub3maker.rb expects for the book it sets up: the package
 * document, the navigation and TOC lists, the cover and the colophon.
 */
module DocVectors {
  import opened Wrappers
  import opened Content
  import opened Registry
  import opened Package
  import opened Toc
  import opened TocRender
  import opened Pages
  import opened Vectors
  import Text
  import opened Seqs

  /** The parameters of the test setup. */
  const Setup: Params := map[
    "bookname" := Param.Text("sample"),
    "title" := Param.Text("Sample Book"),
    "urnid" := Param.Text("http://example.jp/"),
    "date" := Param.Text("2011-01-01"),
    "language" := Param.Text("en"),
    "modified" := Param.Text("2014-12-13T14:15:16Z")]

  /** The English labels the documents use. */
  function EnRes(key: string): string {
    if key == "toctitle" then "Table of Contents"
    else if key == "covertitle" then "Cover"
    else if key == "colophontitle" then "Colophon"
    else if key == "aut" then "Author"
    else if key == "prt" then "Publisher"
    else if key == "pht" then "Director of Photography"
    else key
  }

  const SetupMetadata := Metadata("Sample Book", "en", "2011-01-01", "2014-12-13T14:15:16Z", "http://example.jp/")
  const Guide := [Reference("cover", "Cover", "sample.html"), Reference("toc", "Table of Contents", "sample-toc.html")]
  const Head := [Item("sample-toc.html", "sample-toc.html", XhtmlType, true), Item("sample", "sample.html", XhtmlType, false)]

  /** The text parameters of the setup. */
  lemma SetupTexts()
    ensures TextParam(Setup, "bookname") == Some("sample")
    ensures TextParam(Setup, "title") == Some("Sample Book")
    ensures TextParam(Setup, "language") == Some("en")
    ensures TextParam(Setup, "date") == Some("2011-01-01")
    ensures TextParam(Setup, "modified") == Some("2014-12-13T14:15:16Z")
    ensures TextParam(Setup, "urnid") == Some("http://example.jp/")
  {
  }

  /** The setup provides every parameter the package document needs. */
  lemma SetupPackageKeys()
    ensures Require(Setup, PackageKeys) == Success(["sample", "Sample Book", "en", "2011-01-01", "2014-12-13T14:15:16Z", "http://example.jp/"])
  {
    var vs := ["sample", "Sample Book", "en", "2011-01-01", "2014-12-13T14:15:16Z", "http://example.jp/"];
    var ks := PackageKeys;
    assert ks == ["bookname", "title", "language", "date", "modified", "urnid"];
    SetupTexts();
    forall i | 0 <= i < |ks| ensures TextParam(Setup, ks[i]) == Some(vs[i]) {
      if i == 0 {} else if i == 1 {} else if i == 2 {} else if i == 3 {} else if i == 4 {} else {}
    }
    RequireValues(Setup, ks, vs);
  }

  /** The book title has no character to escape. */
  lemma SampleBookPlain()
    ensures Text.Escape("Sample Book") == "Sample Book"
  {
    var s := "Sample Book";
    assert forall i :: 0 <= i < |s| ==> !Text.IsSpecial(s[i]);
    Text.EscapePlain(s);
  }

  /** The metadata of the setup's package document, for any registry. */
  lemma SetupOpfMetadata(cs: seq<Content>)
    ensures Opf(Setup, cs, EnRes).Success? && Opf(Setup, cs, EnRes).value.metadata == SetupMetadata
  {
    SampleBookPlain();
    SetupPackageKeys();
  }

  /** The guide of the setup's package document, for any registry. */
  lemma SetupOpfGuide(cs: seq<Content>)
    ensures Opf(Setup, cs, EnRes).Success? && Opf(Setup, cs, EnRes).value.guide == Guide
  {
    assert CoverFile("sample") == "sample.html" && NavFile("sample") == "sample-toc.html";
    assert EnRes("covertitle") == "Cover" && EnRes("toctitle") == "Table of Contents";
    SetupPackageKeys();
  }

  /** The package document of the setup, for any registry. */
  lemma SetupOpf(cs: seq<Content>)
    ensures Opf(Setup, cs, EnRes) == Success(PackageDocument(SetupMetadata, Manifest("sample", cs), Spine("sample", cs), Guide))
  {
    SetupOpfMetadata(cs);
    SetupOpfGuide(cs);
    SetupTexts();
  }

  /** Stage 1 (no contents): the navigation and cover items, the non-linear cover, the guide. */
  lemma Stage1Opf()
    ensures Opf(Setup, [], EnRes) == Success(PackageDocument(SetupMetadata, Head, [ItemRef("sample", false)], Guide))
  {
    assert NavFile("sample") == "sample-toc.html" && CoverFile("sample") == "sample.html";
    assert Manifest("sample", []) == Head;
    assert Spine("sample", []) == [ItemRef("sample", false)];
    SetupOpf([]);
  }

  /** Stage 2 (one chapter): its item follows the cover item, its itemref the cover's. */
  lemma Stage2Opf()
    ensures var c := Content("ch01.html", "ch01-html", XhtmlType, Some("CH01"), Some(1));
            Opf(Setup, [c], EnRes) == Success(PackageDocument(SetupMetadata,
              Head + [Item("ch01-html", "ch01.html", XhtmlType, false)],
              [ItemRef("sample", false), ItemRef("ch01-html", true)], Guide))
  {
    var c := Content("ch01.html", "ch01-html", XhtmlType, Some("CH01"), Some(1));
    assert NavFile("sample") == "sample-toc.html" && CoverFile("sample") == "sample.html";
    assert !IsFragment("ch01.html");
    assert [c][1..] == [];
    assert FileItems([c]) == [Item("ch01-html", "ch01.html", XhtmlType, false)];
    assert ContentRefs([c]) == [ItemRef("ch01-html", true)];
    assert Manifest("sample", [c]) == Head + [Item("ch01-html", "ch01.html", XhtmlType, false)];
    assert Spine("sample", [c]) == [ItemRef("sample", false), ItemRef("ch01-html", true)];
    SetupOpf([c]);
  }

  /** The file items stage 3 expects: chapters, images and the stylesheet, no fragment. */
  const Stage3Items: seq<Item> :=
    [Item("ch01-html", "ch01.html", XhtmlType, false),
     Item("ch02-html", "ch02.html", XhtmlType, false),
     Item("ch03-html", "ch03.html", XhtmlType, false),
     Item("ch04-html", "ch04.html", XhtmlType, false),
     Item("sample-png", "sample.png", "image/png", false),
     Item("sample-jpg", "sample.jpg", "image/jpeg", false),
     Item("sample-JPEG", "sample.JPEG", "image/jpeg", false),
     Item("sample-SvG", "sample.SvG", "image/svg+xml", false),
     Item("sample-GIF", "sample.GIF", "image/gif", false),
     Item("sample-css", "sample.css", "text/css", false)]

  /** The linear itemrefs stage 3 expects: the four chapters. */
  const Stage3Refs: seq<ItemRef> :=
    [ItemRef("ch01-html", true), ItemRef("ch02-html", true), ItemRef("ch03-html", true), ItemRef("ch04-html", true)]

  /** One more entry of `cs`: a whole file adds the next item of `its`. */
  lemma ItemsStep(cs: seq<Content>, its: seq<Item>, k: nat, i: nat)
    requires k < |cs| && i <= |its|
    requires FileItems(cs[..k]) == its[..i]
    requires InManifest(cs[k]) ==> i < |its| && ItemOf(cs[k]) == its[i]
    ensures FileItems(cs[..k + 1]) == its[..if InManifest(cs[k]) then i + 1 else i]
  {
    assert cs[..k + 1] == cs[..k] + [cs[k]];
    FileItemsAppend(cs[..k], cs[k]);
    if InManifest(cs[k]) {
      assert its[..i + 1] == its[..i] + [its[i]];
    }
  }

  /** One more entry of `cs`: a whole XHTML file adds the next itemref of `rs`. */
  lemma RefsStep(cs: seq<Content>, rs: seq<ItemRef>, k: nat, j: nat)
    requires k < |cs| && j <= |rs|
    requires ContentRefs(cs[..k]) == rs[..j]
    requires InSpine(cs[k]) ==> j < |rs| && ItemRef(cs[k].id, true) == rs[j]
    ensures ContentRefs(cs[..k + 1]) == rs[..if InSpine(cs[k]) then j + 1 else j]
  {
    var init := cs[..k];
    var c := cs[k];
    assert cs[..k + 1] == init + [c];
    ContentRefsAppend(init, c);
    if InSpine(c) {
      assert rs[..j + 1] == rs[..j] + [rs[j]];
    }
  }

  lemma Stage3Step0(k: nat, i: nat, j: nat)
    requires k == 0 && i == 0 && j == 0
    requires FileItems(Stage3[..k]) == Stage3Items[..i] && ContentRefs(Stage3[..k]) == Stage3Refs[..j]
    ensures FileItems(Stage3[..k + 1]) == Stage3Items[..1] && ContentRefs(Stage3[..k + 1]) == Stage3Refs[..1]
  {
    ItemsStep(Stage3, Stage3Items, k, i);
    RefsStep(Stage3, Stage3Refs, k, j);
  }

  lemma Stage3Step1(k: nat, i: nat, j: nat)
    requires k == 1 && i == 1 && j == 1
    requires FileItems(Stage3[..k]) == Stage3Items[..i] && ContentRefs(Stage3[..k]) == Stage3Refs[..j]
    ensures FileItems(Stage3[..k + 1]) == Stage3Items[..2] && ContentRefs(Stage3[..k + 1]) == Stage3Refs[..2]
  {
    ItemsStep(Stage3, Stage3Items, k, i);
    RefsStep(Stage3, Stage3Refs, k, j);
  }

  lemma Stage3Step2(k: nat, i: nat, j: nat)
    requires k == 2 && i == 2 && j == 2
    requires FileItems(Stage3[..k]) == Stage3Items[..i] && ContentRefs(Stage3[..k]) == Stage3Refs[..j]
    ensures FileItems(Stage3[..k + 1]) == Stage3Items[..2] && ContentRefs(Stage3[..k + 1]) == Stage3Refs[..2]
  {
    ItemsStep(Stage3, Stage3Items, k, i);
    RefsStep(Stage3, Stage3Refs, k, j);
  }

  lemma Stage3Step3(k: nat, i: nat, j: nat)
    requires k == 3 && i == 2 && j == 2
    requires FileItems(Stage3[..k]) == Stage3Items[..i] && ContentRefs(Stage3[..k]) == Stage3Refs[..j]
    ensures FileItems(Stage3[..k + 1]) == Stage3Items[..2] && ContentRefs(Stage3[..k + 1]) == Stage3Refs[..2]
  {
    ItemsStep(Stage3, Stage3Items, k, i);
    RefsStep(Stage3, Stage3Refs, k, j);
  }

  lemma Stage3Step4(k: nat, i: nat, j: nat)
    requires k == 4 && i == 2 && j == 2
    requires FileItems(Stage3[..k]) == Stage3Items[..i] && ContentRefs(Stage3[..k]) == Stage3Refs[..j]
    ensures FileItems(Stage3[..k + 1]) == Stage3Items[..2] && ContentRefs(Stage3[..k + 1]) == Stage3Refs[..2]
  {
    ItemsStep(Stage3, Stage3Items, k, i);
    RefsStep(Stage3, Stage3Refs, k, j);
  }

  lemma Stage3Step5(k: nat, i: nat, j: nat)
    requires k == 5 && i == 2 && j == 2
    requires FileItems(Stage3[..k]) == Stage3Items[..i] && ContentRefs(Stage3[..k]) == Stage3Refs[..j]
    ensures FileItems(Stage3[..k + 1]) == Stage3Items[..2] && ContentRefs(Stage3[..k + 1]) == Stage3Refs[..2]
  {
    ItemsStep(Stage3, Stage3Items, k, i);
    RefsStep(Stage3, Stage3Refs, k, j);
  }

  lemma Stage3Step6(k: nat, i: nat, j: nat)
    requires k == 6 && i == 2 && j == 2
    requires FileItems(Stage3[..k]) == Stage3Items[..i] && ContentRefs(Stage3[..k]) == Stage3Refs[..j]
    ensures FileItems(Stage3[..k + 1]) == Stage3Items[..2] && ContentRefs(Stage3[..k + 1]) == Stage3Refs[..2]
  {
    ItemsStep(Stage3, Stage3Items, k, i);
    RefsStep(Stage3, Stage3Refs, k, j);
  }

  lemma Stage3Step7(k: nat, i: nat, j: nat)
    requires k == 7 && i == 2 && j == 2
    requires FileItems(Stage3[..k]) == Stage3Items[..i] && ContentRefs(Stage3[..k]) == Stage3Refs[..j]
    ensures FileItems(Stage3[..k + 1]) == Stage3Items[..2] && ContentRefs(Stage3[..k + 1]) == Stage3Refs[..2]
  {
    ItemsStep(Stage3, Stage3Items, k, i);
    RefsStep(Stage3, Stage3Refs, k, j);
  }

  lemma Stage3Step8(k: nat, i: nat, j: nat)
    requires k == 8 && i == 2 && j == 2
    requires FileItems(Stage3[..k]) == Stage3Items[..i] && ContentRefs(Stage3[..k]) == Stage3Refs[..j]
    ensures FileItems(Stage3[..k + 1]) == Stage3Items[..2] && ContentRefs(Stage3[..k + 1]) == Stage3Refs[..2]
  {
    ItemsStep(Stage3, Stage3Items, k, i);
    RefsStep(Stage3, Stage3Refs, k, j);
  }

  lemma Stage3Step9(k: nat, i: nat, j: nat)
    requires k == 9 && i == 2 && j == 2
    requires FileItems(Stage3[..k]) == Stage3Items[..i] && ContentRefs(Stage3[..k]) == Stage3Refs[..j]
    ensures FileItems(Stage3[..k + 1]) == Stage3Items[..3] && ContentRefs(Stage3[..k + 1]) == Stage3Refs[..3]
  {
    ItemsStep(Stage3, Stage3Items, k, i);
    RefsStep(Stage3, Stage3Refs, k, j);
  }

  lemma Stage3Step10(k: nat, i: nat, j: nat)
    requires k == 10 && i == 3 && j == 3
    requires FileItems(Stage3[..k]) == Stage3Items[..i] && ContentRefs(Stage3[..k]) == Stage3Refs[..j]
    ensures FileItems(Stage3[..k + 1]) == Stage3Items[..3] && ContentRefs(Stage3[..k + 1]) == Stage3Refs[..3]
  {
    ItemsStep(Stage3, Stage3Items, k, i);
    RefsStep(Stage3, Stage3Refs, k, j);
  }

  lemma Stage3Step11(k: nat, i: nat, j: nat)
    requires k == 11 && i == 3 && j == 3
    requires FileItems(Stage3[..k]) == Stage3Items[..i] && ContentRefs(Stage3[..k]) == Stage3Refs[..j]
    ensures FileItems(Stage3[..k + 1]) == Stage3Items[..3] && ContentRefs(Stage3[..k + 1]) == Stage3Refs[..3]
  {
    ItemsStep(Stage3, Stage3Items, k, i);
    RefsStep(Stage3, Stage3Refs, k, j);
  }

  lemma Stage3Step12(k: nat, i: nat, j: nat)
    requires k == 12 && i == 3 && j == 3
    requires FileItems(Stage3[..k]) == Stage3Items[..i] && ContentRefs(Stage3[..k]) == Stage3Refs[..j]
    ensures FileItems(Stage3[..k + 1]) == Stage3Items[..4] && ContentRefs(Stage3[..k + 1]) == Stage3Refs[..4]
  {
    ItemsStep(Stage3, Stage3Items, k, i);
    RefsStep(Stage3, Stage3Refs, k, j);
  }

  lemma Stage3Step13(k: nat, i: nat, j: nat)
    requires k == 13 && i == 4 && j == 4
    requires FileItems(Stage3[..k]) == Stage3Items[..i] && ContentRefs(Stage3[..k]) == Stage3Refs[..j]
    ensures FileItems(Stage3[..k + 1]) == Stage3Items[..5] && ContentRefs(Stage3[..k + 1]) == Stage3Refs[..4]
  {
    ItemsStep(Stage3, Stage3Items, k, i);
    RefsStep(Stage3, Stage3Refs, k, j);
  }

  lemma Stage3Step14(k: nat, i: nat, j: nat)
    requires k == 14 && i == 5 && j == 4
    requires FileItems(Stage3[..k]) == Stage3Items[..i] && ContentRefs(Stage3[..k]) == Stage3Refs[..j]
    ensures FileItems(Stage3[..k + 1]) == Stage3Items[..6] && ContentRefs(Stage3[..k + 1]) == Stage3Refs[..4]
  {
    ItemsStep(Stage3, Stage3Items, k, i);
    RefsStep(Stage3, Stage3Refs, k, j);
  }

  lemma Stage3Step15(k: nat, i: nat, j: nat)
    requires k == 15 && i == 6 && j == 4
    requires FileItems(Stage3[..k]) == Stage3Items[..i] && ContentRefs(Stage3[..k]) == Stage3Refs[..j]
    ensures FileItems(Stage3[..k + 1]) == Stage3Items[..7] && ContentRefs(Stage3[..k + 1]) == Stage3Refs[..4]
  {
    ItemsStep(Stage3, Stage3Items, k, i);
    RefsStep(Stage3, Stage3Refs, k, j);
  }

  lemma Stage3Step16(k: nat, i: nat, j: nat)
    requires k == 16 && i == 7 && j == 4
    requires FileItems(Stage3[..k]) == Stage3Items[..i] && ContentRefs(Stage3[..k]) == Stage3Refs[..j]
    ensures FileItems(Stage3[..k + 1]) == Stage3Items[..8] && ContentRefs(Stage3[..k + 1]) == Stage3Refs[..4]
  {
    ItemsStep(Stage3, Stage3Items, k, i);
    RefsStep(Stage3, Stage3Refs, k, j);
  }

  lemma Stage3Step17(k: nat, i: nat, j: nat)
    requires k == 17 && i == 8 && j == 4
    requires FileItems(Stage3[..k]) == Stage3Items[..i] && ContentRefs(Stage3[..k]) == Stage3Refs[..j]
    ensures FileItems(Stage3[..k + 1]) == Stage3Items[..9] && ContentRefs(Stage3[..k + 1]) == Stage3Refs[..4]
  {
    ItemsStep(Stage3, Stage3Items, k, i);
    RefsStep(Stage3, Stage3Refs, k, j);
  }

  lemma Stage3Step18(k: nat, i: nat, j: nat)
    requires k == 18 && i == 9 && j == 4
    requires FileItems(Stage3[..k]) == Stage3Items[..i] && ContentRefs(Stage3[..k]) == Stage3Refs[..j]
    ensures FileItems(Stage3[..k + 1]) == Stage3Items[..10] && ContentRefs(Stage3[..k + 1]) == Stage3Refs[..4]
  {
    ItemsStep(Stage3, Stage3Items, k, i);
    RefsStep(Stage3, Stage3Refs, k, j);
  }

  /** The first four entries of stage 3: chapter 1, chapter 2 and two of its sections. */
  lemma Stage3Prefix4()
    ensures FileItems(Stage3[..4]) == Stage3Items[..2] && ContentRefs(Stage3[..4]) == Stage3Refs[..2]
  {
    var k: nat, i: nat, j: nat;
    assert Stage3[..0] == [];
    k, i, j := 0, 0, 0;
    Stage3Step0(k, i, j);
    k, i, j := 1, 1, 1;
    Stage3Step1(k, i, j);
    k, i, j := 2, 2, 2;
    Stage3Step2(k, i, j);
    k, i, j := 3, 2, 2;
    Stage3Step3(k, i, j);
  }

  /** The first eight entries of stage 3. */
  lemma Stage3Prefix8()
    ensures FileItems(Stage3[..8]) == Stage3Items[..2] && ContentRefs(Stage3[..8]) == Stage3Refs[..2]
  {
    var k: nat, i: nat, j: nat;
    Stage3Prefix4();
    k, i, j := 4, 2, 2;
    Stage3Step4(k, i, j);
    k, i, j := 5, 2, 2;
    Stage3Step5(k, i, j);
    k, i, j := 6, 2, 2;
    Stage3Step6(k, i, j);
    k, i, j := 7, 2, 2;
    Stage3Step7(k, i, j);
  }

  /** The first twelve entries of stage 3: chapters 1 to 3 and their sections. */
  lemma Stage3Prefix12()
    ensures FileItems(Stage3[..12]) == Stage3Items[..3] && ContentRefs(Stage3[..12]) == Stage3Refs[..3]
  {
    var k: nat, i: nat, j: nat;
    Stage3Prefix8();
    k, i, j := 8, 2, 2;
    Stage3Step8(k, i, j);
    k, i, j := 9, 2, 2;
    Stage3Step9(k, i, j);
    k, i, j := 10, 3, 3;
    Stage3Step10(k, i, j);
    k, i, j := 11, 3, 3;
    Stage3Step11(k, i, j);
  }

  /** The first sixteen entries of stage 3: the four chapters and three images. */
  lemma Stage3Prefix16()
    ensures FileItems(Stage3[..16]) == Stage3Items[..7] && ContentRefs(Stage3[..16]) == Stage3Refs[..4]
  {
    var k: nat, i: nat, j: nat;
    Stage3Prefix12();
    k, i, j := 12, 3, 3;
    Stage3Step12(k, i, j);
    k, i, j := 13, 4, 4;
    Stage3Step13(k, i, j);
    k, i, j := 14, 5, 4;
    Stage3Step14(k, i, j);
    k, i, j := 15, 6, 4;
    Stage3Step15(k, i, j);
  }

  /** All of stage 3. */
  lemma Stage3Prefix19()
    ensures FileItems(Stage3[..19]) == Stage3Items[..10] && ContentRefs(Stage3[..19]) == Stage3Refs[..4]
  {
    var k: nat, i: nat, j: nat;
    Stage3Prefix16();
    k, i, j := 16, 7, 4;
    Stage3Step16(k, i, j);
    k, i, j := 17, 8, 4;
    Stage3Step17(k, i, j);
    k, i, j := 18, 9, 4;
    Stage3Step18(k, i, j);
  }

  /** The whole files of stage 3, in registry order, give exactly the expected items and itemrefs. */
  lemma Stage3FileItems()
    ensures FileItems(Stage3) == Stage3Items && ContentRefs(Stage3) == Stage3Refs
  {
    Stage3Prefix19();
    assert Stage3[..19] == Stage3;
  }

  /** Stage 3: the chapters, images and stylesheet follow the cover item; only the chapters are in the spine. */
  lemma Stage3Opf()
    ensures Opf(Setup, Stage3, EnRes) ==
            Success(PackageDocument(SetupMetadata, Head + Stage3Items, [ItemRef("sample", false)] + Stage3Refs, Guide))
  {
    assert NavFile("sample") == "sample-toc.html" && CoverFile("sample") == "sample.html";
    Stage3FileItems();
    assert Manifest("sample", Stage3) == Head + Stage3Items;
    assert Spine("sample", Stage3) == [ItemRef("sample", false)] + Stage3Refs;
    SetupOpf(Stage3);
  }

  /** The TOC entries stage 3 expects at depth 2: the chapters and their first-level sections. */
  const Stage3Toc: seq<TocEntry> :=
    [TocEntry(1, "ch01.html", "CH01<>&\""),
     TocEntry(1, "ch02.html", "CH02"),
     TocEntry(2, "ch02.html#S1", "CH02.1"),
     TocEntry(2, "ch02.html#S2", "CH02.2"),
     TocEntry(1, "ch03.html", "CH03"),
     TocEntry(2, "ch03.html#S1", "CH03.1"),
     TocEntry(1, "ch04.html", "CH04")]

  /** One more entry of `cs`: a shown entry adds the next TOC entry of `es`. */
  lemma NavStep(cs: seq<Content>, es: seq<TocEntry>, depth: int, k: nat, n: nat)
    requires k < |cs| && n <= |es|
    requires NavEntries(cs[..k], depth) == es[..n]
    requires Shown(cs[k], depth) ==> n < |es| && TocEntryOf(cs[k]) == es[n]
    ensures NavEntries(cs[..k + 1], depth) == es[..if Shown(cs[k], depth) then n + 1 else n]
  {
    assert cs[..k + 1] == cs[..k] + [cs[k]];
    NavEntriesAppend(cs[..k], cs[k], depth);
    if Shown(cs[k], depth) {
      assert es[..n + 1] == es[..n] + [es[n]];
    }
  }

  /** Entries 0 to 2 of stage 3 add their shown headings to the TOC. */
  lemma Stage3NavChunk0(k: nat, n: nat)
    requires k == 0 && n == 0
    requires NavEntries(Stage3[..k], 2) == Stage3Toc[..n]
    ensures NavEntries(Stage3[..k + 3], 2) == Stage3Toc[..n + 3]
  {
    NavStep(Stage3, Stage3Toc, 2, k, n);
    NavStep(Stage3, Stage3Toc, 2, k + 1, n + 1);
    NavStep(Stage3, Stage3Toc, 2, k + 2, n + 2);
  }

  /** Entries 3 to 5 of stage 3 add their shown headings to the TOC. */
  lemma Stage3NavChunk3(k: nat, n: nat)
    requires k == 3 && n == 3
    requires NavEntries(Stage3[..k], 2) == Stage3Toc[..n]
    ensures NavEntries(Stage3[..k + 3], 2) == Stage3Toc[..n + 0]
  {
    NavStep(Stage3, Stage3Toc, 2, k, n);
    NavStep(Stage3, Stage3Toc, 2, k + 1, n);
    NavStep(Stage3, Stage3Toc, 2, k + 2, n);
  }

  /** Entries 6 to 8 of stage 3 add their shown headings to the TOC. */
  lemma Stage3NavChunk6(k: nat, n: nat)
    requires k == 6 && n == 3
    requires NavEntries(Stage3[..k], 2) == Stage3Toc[..n]
    ensures NavEntries(Stage3[..k + 3], 2) == Stage3Toc[..n + 1]
  {
    NavStep(Stage3, Stage3Toc, 2, k, n);
    NavStep(Stage3, Stage3Toc, 2, k + 1, n);
    NavStep(Stage3, Stage3Toc, 2, k + 2, n + 1);
  }

  /** Entries 9 to 11 of stage 3 add their shown headings to the TOC. */
  lemma Stage3NavChunk9(k: nat, n: nat)
    requires k == 9 && n == 4
    requires NavEntries(Stage3[..k], 2) == Stage3Toc[..n]
    ensures NavEntries(Stage3[..k + 3], 2) == Stage3Toc[..n + 2]
  {
    NavStep(Stage3, Stage3Toc, 2, k, n);
    NavStep(Stage3, Stage3Toc, 2, k + 1, n + 1);
    NavStep(Stage3, Stage3Toc, 2, k + 2, n + 2);
  }

  /** Entries 12 to 14 of stage 3 add their shown headings to the TOC. */
  lemma Stage3NavChunk12(k: nat, n: nat)
    requires k == 12 && n == 6
    requires NavEntries(Stage3[..k], 2) == Stage3Toc[..n]
    ensures NavEntries(Stage3[..k + 3], 2) == Stage3Toc[..n + 1]
  {
    NavStep(Stage3, Stage3Toc, 2, k, n);
    NavStep(Stage3, Stage3Toc, 2, k + 1, n + 1);
    NavStep(Stage3, Stage3Toc, 2, k + 2, n + 1);
  }

  /** Entries 15 to 17 of stage 3 add their shown headings to the TOC. */
  lemma Stage3NavChunk15(k: nat, n: nat)
    requires k == 15 && n == 7
    requires NavEntries(Stage3[..k], 2) == Stage3Toc[..n]
    ensures NavEntries(Stage3[..k + 3], 2) == Stage3Toc[..n + 0]
  {
    NavStep(Stage3, Stage3Toc, 2, k, n);
    NavStep(Stage3, Stage3Toc, 2, k + 1, n);
    NavStep(Stage3, Stage3Toc, 2, k + 2, n);
  }

  /** Entries 18 to 18 of stage 3 add their shown headings to the TOC. */
  lemma Stage3NavChunk18(k: nat, n: nat)
    requires k == 18 && n == 7
    requires NavEntries(Stage3[..k], 2) == Stage3Toc[..n]
    ensures NavEntries(Stage3[..k + 1], 2) == Stage3Toc[..n + 0]
  {
    NavStep(Stage3, Stage3Toc, 2, k, n);
  }

  /** The TOC of the first nine entries of stage 3: chapters 1 and 2. */
  lemma Stage3NavPrefix9()
    ensures NavEntries(Stage3[..9], 2) == Stage3Toc[..4]
  {
    var k: nat, n: nat;
    assert Stage3[..0] == [];
    k, n := 0, 0;
    Stage3NavChunk0(k, n);
    k, n := 3, 3;
    Stage3NavChunk3(k, n);
    k, n := 6, 3;
    Stage3NavChunk6(k, n);
  }

  /** The TOC of stage 3 at depth 2: the chapters and their first-level sections, in registry order. */
  lemma Stage3NavPrefix19()
    ensures NavEntries(Stage3[..19], 2) == Stage3Toc[..7]
  {
    var k: nat, n: nat;
    Stage3NavPrefix9();
    k, n := 9, 4;
    Stage3NavChunk9(k, n);
    k, n := 12, 6;
    Stage3NavChunk12(k, n);
    k, n := 15, 7;
    Stage3NavChunk15(k, n);
    k, n := 18, 7;
    Stage3NavChunk18(k, n);
  }

  lemma Stage3Nav()
    ensures NavEntries(Stage3, 2) == Stage3Toc
  {
    Stage3NavPrefix19();
    assert Stage3[..19] == Stage3;
  }

  /** The tree stage 3 expects: four chapters; chapter 2 holds two sections, chapter 3 one. */
  const Stage3Tree: seq<Node> :=
    [Node(Stage3Toc[0], []),
     Node(Stage3Toc[1], [Node(Stage3Toc[2], []), Node(Stage3Toc[3], [])]),
     Node(Stage3Toc[4], [Node(Stage3Toc[5], [])]),
     Node(Stage3Toc[6], [])]

  /** Two entries of the same level are sibling leaves. */
  lemma TreeSiblings(c: TocEntry, d: TocEntry)
    requires d.level <= c.level
    ensures Build([c, d]) == [Node(c, []), Node(d, [])]
  {
    BuildSingle(c);
    BuildSingle(d);
    BuildAppend([c], [d]);
    assert [c] + [d] == [c, d];
  }

  /** A heading followed by two deeper sibling headings. */
  lemma TreeFamily(b: TocEntry, c: TocEntry, d: TocEntry)
    requires b.level < c.level && b.level < d.level && d.level <= c.level
    ensures Build([b, c, d]) == [Node(b, [Node(c, []), Node(d, [])])]
  {
    TreeSiblings(c, d);
    BuildParent(b, [c, d]);
    assert [b] + [c, d] == [b, c, d];
  }

  /** A heading with one deeper heading, then a heading back at its level. */
  lemma TreeTail(e: TocEntry, f: TocEntry, g: TocEntry)
    requires e.level < f.level && g.level <= e.level
    ensures Build([e, f, g]) == [Node(e, [Node(f, [])]), Node(g, [])]
  {
    BuildSingle(f);
    BuildSingle(g);
    BuildParent(e, [f]);
    assert [e] + [f] == [e, f];
    BuildAppend([e, f], [g]);
    assert [e, f] + [g] == [e, f, g];
  }

  lemma TreeRest(b: TocEntry, c: TocEntry, d: TocEntry, e: TocEntry, f: TocEntry, g: TocEntry)
    requires b.level == 1 && c.level == 2 && d.level == 2
    requires e.level == 1 && f.level == 2 && g.level == 1
    ensures Build([b, c, d, e, f, g]) ==
            [Node(b, [Node(c, []), Node(d, [])]), Node(e, [Node(f, [])]), Node(g, [])]
  {
    TreeFamily(b, c, d);
    TreeTail(e, f, g);
    BuildAppend([b, c, d], [e, f, g]);
    Join33(b, c, d, e, f, g);
    Prepend2(Node(b, [Node(c, []), Node(d, [])]), Node(e, [Node(f, [])]), Node(g, []));
  }

  /** Any seven headings of levels 1, 1, 2, 2, 1, 2, 1 form the stage 3 tree shape. */
  lemma TreeShape(a: TocEntry, b: TocEntry, c: TocEntry, d: TocEntry, e: TocEntry, f: TocEntry, g: TocEntry)
    requires a.level == 1 && b.level == 1 && c.level == 2 && d.level == 2
    requires e.level == 1 && f.level == 2 && g.level == 1
    ensures Build([a, b, c, d, e, f, g]) ==
            [Node(a, []), Node(b, [Node(c, []), Node(d, [])]), Node(e, [Node(f, [])]), Node(g, [])]
  {
    BuildSingle(a);
    TreeRest(b, c, d, e, f, g);
    BuildAppend([a], [b, c, d, e, f, g]);
    Prepend6(a, b, c, d, e, f, g);
    Prepend3(Node(a, []), Node(b, [Node(c, []), Node(d, [])]), Node(e, [Node(f, [])]), Node(g, []));
  }

  /** The stage 3 TOC entries nest into the expected tree. */
  lemma Stage3TreeBuilt()
    ensures Build(Stage3Toc) == Stage3Tree
  {
    var t := Stage3Toc;
    TreeShape(t[0], t[1], t[2], t[3], t[4], t[5], t[6]);
    assert t == [t[0], t[1], t[2], t[3], t[4], t[5], t[6]];
  }

  /** One list item without a sub-list: `<li><a ...>...</a></li>` and a line break. */
  function LeafItem(e: TocEntry): seq<Token> { [ItemOpen, LinkOf(e), ItemClose, Newline] }

  /** One list item holding the sub-list `sub`, one level deeper. */
  function ParentItem(tag: string, e: TocEntry, depth: nat, sub: seq<Token>): seq<Token>
  {
    [ItemOpen, LinkOf(e), Newline, ListOpen(tag, depth + 1)] + sub + [ListClose(tag), ItemClose, Newline]
  }

  lemma ListLeaf(tag: string, e: TocEntry, depth: nat)
    ensures ListItems(tag, [Node(e, [])], depth) == LeafItem(e)
  {
    assert [Node(e, [])][1..] == [];
  }

  lemma ListParent(tag: string, e: TocEntry, kids: seq<Node>, depth: nat)
    requires kids != []
    ensures ListItems(tag, [Node(e, kids)], depth) == ParentItem(tag, e, depth, ListItems(tag, kids, depth + 1))
  {
    assert [Node(e, kids)][1..] == [];
  }

  /** The items of a list of two, three or four trees, tree by tree. */
  lemma ListOfTwo(tag: string, n0: Node, n1: Node, depth: nat)
    ensures ListItems(tag, [n0, n1], depth) == ListItems(tag, [n0], depth) + ListItems(tag, [n1], depth)
  {
    ListItemsCons(tag, [n0, n1], depth);
    assert [n0, n1][1..] == [n1];
  }

  lemma ListOfFour(tag: string, n0: Node, n1: Node, n2: Node, n3: Node, depth: nat)
    ensures ListItems(tag, [n0, n1, n2, n3], depth) ==
            ListItems(tag, [n0], depth) + ListItems(tag, [n1], depth) + ListItems(tag, [n2, n3], depth)
  {
    ListItemsCons(tag, [n0, n1, n2, n3], depth);
    assert [n0, n1, n2, n3][1..] == [n1, n2, n3];
    ListItemsCons(tag, [n1, n2, n3], depth);
    assert [n1, n2, n3][1..] == [n2, n3];
  }

  /**
   * The stage 3 list, item by item: chapter 1; chapter 2 with a sub-list of its two
   * sections; chapter 3 with a sub-list of its section; chapter 4.
   */
  lemma ListShape(tag: string, a: TocEntry, b: TocEntry, c: TocEntry, d: TocEntry, e: TocEntry, f: TocEntry, g: TocEntry)
    ensures ListItems(tag, [Node(a, []), Node(b, [Node(c, []), Node(d, [])]), Node(e, [Node(f, [])]), Node(g, [])], 1) ==
            LeafItem(a) + ParentItem(tag, b, 1, LeafItem(c) + LeafItem(d)) + ParentItem(tag, e, 1, LeafItem(f)) + LeafItem(g)
  {
    var n1, n2 := Node(b, [Node(c, []), Node(d, [])]), Node(e, [Node(f, [])]);
    ListOfFour(tag, Node(a, []), n1, n2, Node(g, []), 1);
    ListOfTwo(tag, n2, Node(g, []), 1);
    ListLeaf(tag, a, 1);
    ListParent(tag, b, n1.children, 1);
    ListOfTwo(tag, Node(c, []), Node(d, []), 2);
    ListLeaf(tag, c, 2);
    ListLeaf(tag, d, 2);
    ListParent(tag, e, n2.children, 1);
    ListLeaf(tag, f, 2);
    ListLeaf(tag, g, 1);
  }

  lemma Stage3ListItems(tag: string)
    ensures ListItems(tag, Stage3Tree, 1) ==
            LeafItem(Stage3Toc[0]) + ParentItem(tag, Stage3Toc[1], 1, LeafItem(Stage3Toc[2]) + LeafItem(Stage3Toc[3])) +
            ParentItem(tag, Stage3Toc[4], 1, LeafItem(Stage3Toc[5])) + LeafItem(Stage3Toc[6])
  {
    var t := Stage3Toc;
    ListShape(tag, t[0], t[1], t[2], t[3], t[4], t[5], t[6]);
  }

  /** Stage 1 (no contents): the navigation document holds an empty `toc-h1` list. */
  lemma Stage1Ncx()
    ensures Ncx(Setup, [], EnRes, 2) == Success(TocDocument("en", "Table of Contents", true, [ListOpen("ol", 1), ListClose("ol")]))
  {
    SetupTexts();
    assert EnRes("toctitle") == "Table of Contents";
    assert NavEntries([], 2) == [] && Build([]) == [];
    assert ListItems("ol", [], 1) == [];
    assert NestedList("ol", []) == [ListOpen("ol", 1), ListClose("ol")];
  }

  /** Stage 2 (one chapter): one item, no sub-list. */
  lemma Stage2Ncx()
    ensures var c := Content("ch01.html", "ch01-html", XhtmlType, Some("CH01"), Some(1));
            Ncx(Setup, [c], EnRes, 2) ==
            Success(TocDocument("en", "Table of Contents", true,
              [ListOpen("ol", 1)] + LeafItem(TocEntry(1, "ch01.html", "CH01")) + [ListClose("ol")]))
  {
    var c := Content("ch01.html", "ch01-html", XhtmlType, Some("CH01"), Some(1));
    var e := TocEntry(1, "ch01.html", "CH01");
    SetupTexts();
    assert [c][1..] == [];
    assert NavEntries([c], 2) == [e];
    BuildSingle(e);
    ListLeaf("ol", e, 1);
  }

  /** Stage 3: the navigation document nests the sections under their chapters, down to level 2. */
  lemma Stage3Ncx()
    ensures Ncx(Setup, Stage3, EnRes, 2) == Success(TocDocument("en", "Table of Contents", true, NestedList("ol", Stage3Tree)))
  {
    SetupTexts();
    Stage3Nav();
    Stage3TreeBuilt();
  }

  /** Stage 3: the human TOC page has the same nesting, with `ul` lists and no landmark. */
  lemma Stage3MyToc()
    ensures MyToc(Setup, Stage3, EnRes, 2) == Success(TocDocument("en", "Table of Contents", false, NestedList("ul", Stage3Tree)))
  {
    SetupTexts();
    assert !FlagParam(Setup, "flattoc");
    Stage3Nav();
    Stage3TreeBuilt();
  }

  /** The setup with `flattoc` switched on. */
  const FlatSetup: Params := Setup["flattoc" := Param.Flag(true)]

  /** Stage 3 with `flattoc`: one list of the seven entries in registry order, whatever their level. */
  lemma Stage3FlatToc()
    ensures MyToc(FlatSetup, Stage3, EnRes, 2) == Success(TocDocument("en", "Table of Contents", false, FlatList(Stage3Toc)))
  {
    SetupTexts();
    assert TextParam(FlatSetup, "language") == Some("en");
    assert FlagParam(FlatSetup, "flattoc");
    Stage3Nav();
  }

  lemma FlatCons(e: TocEntry, rest: seq<TocEntry>)
    ensures FlatItems([e] + rest) == LeafItem(e) + FlatItems(rest)
  {
    assert ([e] + rest)[0] == e && ([e] + rest)[1..] == rest;
  }

  lemma FlatShape4(d: TocEntry, e: TocEntry, f: TocEntry, g: TocEntry)
    ensures FlatItems([d, e, f, g]) == LeafItem(d) + (LeafItem(e) + (LeafItem(f) + LeafItem(g)))
  {
    var nil: seq<TocEntry> := [];
    FlatCons(g, nil);
    assert [g] + nil == [g];
    FlatCons(f, [g]);
    assert [f] + [g] == [f, g];
    FlatCons(e, [f, g]);
    Prepend2(e, f, g);
    FlatCons(d, [e, f, g]);
    Prepend3(d, e, f, g);
  }

  /** The flat list's items: one line per entry, in order. */
  lemma FlatShape(a: TocEntry, b: TocEntry, c: TocEntry, d: TocEntry, e: TocEntry, f: TocEntry, g: TocEntry)
    ensures FlatItems([a, b, c, d, e, f, g]) ==
            LeafItem(a) + (LeafItem(b) + (LeafItem(c) + (LeafItem(d) + (LeafItem(e) + (LeafItem(f) + LeafItem(g))))))
  {
    FlatShape4(d, e, f, g);
    FlatCons(c, [d, e, f, g]);
    Prepend4(c, d, e, f, g);
    FlatCons(b, [c, d, e, f, g]);
    Prepend5(b, c, d, e, f, g);
    FlatCons(a, [b, c, d, e, f, g]);
    Prepend6(a, b, c, d, e, f, g);
  }

  lemma Stage3FlatItems()
    ensures FlatItems(Stage3Toc) ==
            LeafItem(Stage3Toc[0]) + (LeafItem(Stage3Toc[1]) + (LeafItem(Stage3Toc[2]) + (LeafItem(Stage3Toc[3]) +
            (LeafItem(Stage3Toc[4]) + (LeafItem(Stage3Toc[5]) + LeafItem(Stage3Toc[6]))))))
  {
    var t := Stage3Toc;
    FlatShape(t[0], t[1], t[2], t[3], t[4], t[5], t[6]);
    assert t == [t[0], t[1], t[2], t[3], t[4], t[5], t[6]];
  }

  /** A name with no character to escape is kept as it is. */
  lemma PlainName(s: string)
    requires forall i :: 0 <= i < |s| ==> !Text.IsSpecial(s[i])
    ensures Text.Escape(s) == s && EscapeAll([s]) == [s]
  {
    Text.EscapePlain(s);
    assert [s][1..] == [];
  }

  const ImageSetup: Params := Setup["coverimage" := Param.Text("sample.png")]
  const AutPrtSetup: Params := Setup["aut" := Param.Names(["Mr.Smith"])]["prt" := Param.Names(["BLUEPRINT"])]
  const PhtSetup: Params := AutPrtSetup["pht" := Param.Names(["Mrs.Smith"])]

  /** What the cover and colophon read of each parameter table. */
  lemma SetupPageParams()
    ensures TextParam(Setup, "coverimage") == None
    ensures TextParam(ImageSetup, "coverimage") == Some("sample.png")
    ensures TextParam(ImageSetup, "title") == Some("Sample Book")
    ensures TextParam(ImageSetup, "language") == Some("en")
  {
    SetupTexts();
  }

  lemma ColophonParams()
    ensures TextParam(AutPrtSetup, "title") == Some("Sample Book") && TextParam(PhtSetup, "title") == Some("Sample Book")
    ensures TextParam(AutPrtSetup, "language") == Some("en") && TextParam(PhtSetup, "language") == Some("en")
    ensures TextParam(AutPrtSetup, "date") == Some("2011-01-01") && TextParam(PhtSetup, "date") == Some("2011-01-01")
    ensures NamesParam(AutPrtSetup, "aut") == Some(["Mr.Smith"]) && NamesParam(PhtSetup, "aut") == Some(["Mr.Smith"])
    ensures NamesParam(AutPrtSetup, "prt") == Some(["BLUEPRINT"]) && NamesParam(PhtSetup, "prt") == Some(["BLUEPRINT"])
    ensures NamesParam(AutPrtSetup, "pht") == None && NamesParam(PhtSetup, "pht") == Some(["Mrs.Smith"])
  {
    SetupTexts();
  }

  /** Stage 3 without a cover image: a page headed by the book title. */
  lemma Stage3Cover()
    ensures Cover(Setup) == Success(CoverPage("en", "Sample Book", TitleOnly("Sample Book")))
  {
    SampleBookPlain();
    SetupTexts();
    SetupPageParams();
  }

  /** Stage 3 with `coverimage`: the image, its alternative text the book title. */
  lemma Stage3CoverImage()
    ensures Cover(ImageSetup) == Success(CoverPage("en", "Sample Book", CoverImage("sample.png", "Sample Book")))
  {
    SampleBookPlain();
    SetupPageParams();
  }

  /** The three names of the colophon tests need no escaping. */
  lemma ColophonNamesPlain()
    ensures EscapeAll(["Mr.Smith"]) == ["Mr.Smith"]
    ensures EscapeAll(["BLUEPRINT"]) == ["BLUEPRINT"]
    ensures EscapeAll(["Mrs.Smith"]) == ["Mrs.Smith"]
  {
    var a, p, m := "Mr.Smith", "BLUEPRINT", "Mrs.Smith";
    assert forall i :: 0 <= i < |a| ==> !Text.IsSpecial(a[i]);
    assert forall i :: 0 <= i < |p| ==> !Text.IsSpecial(p[i]);
    assert forall i :: 0 <= i < |m| ==> !Text.IsSpecial(m[i]);
    PlainName(a);
    PlainName(p);
    PlainName(m);
  }

  /** The rows for the three roles, one role at a time. */
  lemma RolesRows(ps: Params, res: string -> string)
    ensures RoleRows(ps, res, Roles) == RoleRow(ps, res, "aut") + RoleRow(ps, res, "prt") + RoleRow(ps, res, "pht")
  {
    var tail := ["prt", "pht"];
    assert Roles[0] == "aut" && Roles[1..] == tail;
    assert tail[0] == "prt" && tail[1..] == ["pht"];
    assert ["pht"][0] == "pht" && ["pht"][1..] == [];
    var a, b, c := RoleRow(ps, res, "aut"), RoleRow(ps, res, "prt"), RoleRow(ps, res, "pht");
    assert RoleRows(ps, res, ["pht"]) == c + RoleRows(ps, res, []);
    assert RoleRows(ps, res, tail) == b + c;
    assert RoleRows(ps, res, Roles) == a + (b + c);
  }

  /** The colophon of any parameters that set title, language and date. */
  lemma ColophonOf(ps: Params, res: string -> string, dateLine: string -> string, title: string, language: string, date: string)
    requires TextParam(ps, "title") == Some(title)
    requires TextParam(ps, "language") == Some(language)
    requires TextParam(ps, "date") == Some(date)
    ensures Colophon(ps, res, dateLine) ==
              Success(ColophonPage(language, res("colophontitle"), Text.Escape(title), dateLine(date), RoleRows(ps, res, Roles)))
  {
    var keys := ["title", "language", "date"];
    var vs := [title, language, date];
    assert keys[0] == "title" && keys[1] == "language" && keys[2] == "date";
    RequireValues(ps, keys, vs);
  }

  /** The row of a role the parameters set to `names`. */
  lemma RowOf(ps: Params, res: string -> string, role: string, names: seq<string>)
    requires NamesParam(ps, role) == Some(names)
    ensures RoleRow(ps, res, role) == [Row(role, res(role), EscapeAll(names))]
  {
  }

  /** The English captions of the three roles. */
  lemma EnCaptions()
    ensures EnRes("aut") == "Author" && EnRes("prt") == "Publisher" && EnRes("pht") == "Director of Photography"
    ensures EnRes("colophontitle") == "Colophon"
  {
  }

  /** The colophon of parameters that set the setup's title, language and date, an author and a publisher. */
  lemma AutPrtColophon(ps: Params, dateLine: string -> string)
    requires TextParam(ps, "title") == Some("Sample Book")
    requires TextParam(ps, "language") == Some("en")
    requires TextParam(ps, "date") == Some("2011-01-01")
    requires NamesParam(ps, "aut") == Some(["Mr.Smith"]) && NamesParam(ps, "prt") == Some(["BLUEPRINT"])
    ensures Colophon(ps, EnRes, dateLine).Success?
    ensures Colophon(ps, EnRes, dateLine).value ==
              ColophonPage("en", "Colophon", "Sample Book", dateLine("2011-01-01"),
                [Row("aut", "Author", ["Mr.Smith"]), Row("prt", "Publisher", ["BLUEPRINT"])] + RoleRow(ps, EnRes, "pht"))
  {
    ColophonOf(ps, EnRes, dateLine, "Sample Book", "en", "2011-01-01");
    SampleBookPlain();
    EnCaptions();
    ColophonNamesPlain();
    RowOf(ps, EnRes, "aut", ["Mr.Smith"]);
    RowOf(ps, EnRes, "prt", ["BLUEPRINT"]);
    var aut, prt := Row("aut", "Author", ["Mr.Smith"]), Row("prt", "Publisher", ["BLUEPRINT"]);
    assert RoleRow(ps, EnRes, "aut") == [aut] && RoleRow(ps, EnRes, "prt") == [prt];
    RolesRows(ps, EnRes);
    PairThen(aut, prt, RoleRow(ps, EnRes, "pht"));
  }

  /** Author and publisher set: the title, the publication line, an author row, then a publisher row. */
  lemma ColophonDefault(ps: Params, dateLine: string -> string)
    requires ps == AutPrtSetup
    ensures Colophon(ps, EnRes, dateLine) == Success(ColophonPage("en", "Colophon", "Sample Book", dateLine("2011-01-01"),
              [Row("aut", "Author", ["Mr.Smith"]), Row("prt", "Publisher", ["BLUEPRINT"])]))
  {
    ColophonParams();
    AutPrtColophon(ps, dateLine);
    assert RoleRow(ps, EnRes, "pht") == [];
    NothingAfter([Row("aut", "Author", ["Mr.Smith"]), Row("prt", "Publisher", ["BLUEPRINT"])]);
  }

  /** Photographer set too: its row comes third, after author and publisher. */
  lemma ColophonPht(ps: Params, dateLine: string -> string)
    requires ps == PhtSetup
    ensures Colophon(ps, EnRes, dateLine) == Success(ColophonPage("en", "Colophon", "Sample Book", dateLine("2011-01-01"),
              [Row("aut", "Author", ["Mr.Smith"]), Row("prt", "Publisher", ["BLUEPRINT"]),
               Row("pht", "Director of Photography", ["Mrs.Smith"])]))
  {
    ColophonParams();
    AutPrtColophon(ps, dateLine);
    ColophonNamesPlain();
    EnCaptions();
    RowOf(ps, EnRes, "pht", ["Mrs.Smith"]);
    PairThenOne(Row("aut", "Author", ["Mr.Smith"]), Row("prt", "Publisher", ["BLUEPRINT"]), Row("pht", "Director of Photography", ["Mrs.Smith"]));
  }

  lemma EscapeCons(c: char, s: string)
    ensures Text.Escape([c] + s) == Text.EscapeChar(c) + Text.Escape(s)
  {
    assert ([c] + s)[0] == c && ([c] + s)[1..] == s;
  }

  lemma EscapeFour(a: char, b: char, c: char, d: char)
    ensures Text.Escape([a, b, c, d]) == Text.EscapeChar(a) + (Text.EscapeChar(b) + (Text.EscapeChar(c) + Text.EscapeChar(d)))
  {
    var nil: string := [];
    EscapeCons(d, nil);
    EscapeCons(c, [d]);
    EscapeCons(b, [c, d]);
    EscapeCons(a, [b, c, d]);
    assert [d] + nil == [d] && [c] + [d] == [c, d] && [b] + [c, d] == [b, c, d] && [a] + [b, c, d] == [a, b, c, d];
    assert Text.Escape(nil) == [] && Text.EscapeChar(d) + [] == Text.EscapeChar(d);
  }

  /** Plain text followed by four characters: the text stays, each character becomes its escape. */
  lemma EscapeAfterPlain(p: string, a: char, b: char, c: char, d: char)
    requires forall i :: 0 <= i < |p| ==> !Text.IsSpecial(p[i])
    ensures Text.Escape(p + [a, b, c, d]) == p + (Text.EscapeChar(a) + (Text.EscapeChar(b) + (Text.EscapeChar(c) + Text.EscapeChar(d))))
  {
    Text.EscapeAppend(p, [a, b, c, d]);
    Text.EscapePlain(p);
    EscapeFour(a, b, c, d);
  }

  lemma Entities()
    ensures Text.EscapeChar('<') == "&lt;" && Text.EscapeChar('>') == "&gt;"
    ensures Text.EscapeChar('&') == "&amp;" && Text.EscapeChar('"') == "&quot;"
  {
  }

  /**
   * The first chapter's title escapes to `CH01&lt;&gt;&amp;&quot;`, and that is the
   * text of its link, the link both TOC documents of stage 3 hold for it.
   */
  lemma FirstTitleEscaped()
    ensures Text.Escape(Stage3Toc[0].title) == "CH01" + ("&lt;" + ("&gt;" + ("&amp;" + "&quot;")))
    ensures TokenText(LinkOf(Stage3Toc[0])) ==
            "<a href=\"" + "ch01.html" + "\">" + ("CH01" + ("&lt;" + ("&gt;" + ("&amp;" + "&quot;")))) + "</a>"
  {
    var p := "CH01";
    assert forall i :: 0 <= i < |p| ==> !Text.IsSpecial(p[i]);
    var title := Stage3Toc[0].title;
    assert title == p + ['<', '>', '&', '"'];
    EscapeAfterPlain(p, '<', '>', '&', '"');
    Entities();
  }
}
