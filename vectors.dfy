/**
 * The expected values of test/test_epub3maker.rb, stated as lemmas about the model:
 * the book set up by the tests, the entries added in its stages, and the documents.
 */
module Vectors {
  import opened Wrappers
  import opened Content
  import opened Registry
  import Text
  import Package

  /** The entry for `base.ext`, given its expected identifier and media type. */
  lemma EntryVector(base: string, ext: string, id: string, media: string, title: Option<string>, level: Option<int>)
    requires '.' !in ext
    requires DeriveId(base) + "-" + ext == id
    requires var key := Text.Downcase(ext); (if key in MediaTypes then MediaTypes[key] else key) == media
    ensures Entry(base + "." + ext, title, level) == Content(base + "." + ext, id, media, title, level)
  {
    DeriveIdJoin(base, ext);
    DeriveIdNoDot(ext);
    MediaTypeOfExtension(base, ext);
  }

  /** The entry of stage 2 (one chapter). */
  lemma Stage2Entry()
    ensures Entry("ch01.html", Some("CH01"), Some(1)) == Content("ch01.html", "ch01-html", Package.XhtmlType, Some("CH01"), Some(1))
  {
    assert Text.Downcase("html") == "html";
    assert "ch01" + "." + "html" == "ch01.html";
    EntryVector("ch01", "html", "ch01-html", Package.XhtmlType, Some("CH01"), Some(1));
  }

  /** What stage 3 appends, as the test writes it: file, title, level. */
  const Stage3Input: seq<(string, Option<string>, Option<int>)> :=
    [("ch01.html", Some("CH01<>&\""), Some(1)),
     ("ch02.html", Some("CH02"), Some(1)),
     ("ch02.html#S1", Some("CH02.1"), Some(2)),
     ("ch02.html#S1.1", Some("CH02.1.1"), Some(3)),
     ("ch02.html#S1.1.1", Some("CH02.1.1.1"), Some(4)),
     ("ch02.html#S1.1.1.1", Some("CH02.1.1.1.1"), Some(5)),
     ("ch02.html#S1.1.2", Some("CH02.1.1.2"), Some(4)),
     ("ch02.html#S2", Some("CH02.2"), Some(2)),
     ("ch02.html#S2.1", Some("CH02.2.1"), Some(3)),
     ("ch03.html", Some("CH03"), Some(1)),
     ("ch03.html#S1", Some("CH03.1"), Some(2)),
     ("ch03.html#S1.1", Some("CH03.1.1"), Some(3)),
     ("ch04.html", Some("CH04"), Some(1)),
     ("sample.png", None, None),
     ("sample.jpg", None, None),
     ("sample.JPEG", None, None),
     ("sample.SvG", None, None),
     ("sample.GIF", None, None),
     ("sample.css", None, None)]

  predicate Built(i: nat)
    requires i < |Stage3Input| && i < |Stage3|
  {
    Entry(Stage3Input[i].0, Stage3Input[i].1, Stage3Input[i].2) == Stage3[i]
  }

  /** The registry the test expects after stage 3. */
  const Stage3: seq<Content> :=
    [Content("ch01.html", "ch01-html", Package.XhtmlType, Some("CH01<>&\""), Some(1)),
     Content("ch02.html", "ch02-html", Package.XhtmlType, Some("CH02"), Some(1)),
     Content("ch02.html#S1", "ch02-html#S1", "html#s1", Some("CH02.1"), Some(2)),
     Content("ch02.html#S1.1", "ch02-html#S1-1", "1", Some("CH02.1.1"), Some(3)),
     Content("ch02.html#S1.1.1", "ch02-html#S1-1-1", "1", Some("CH02.1.1.1"), Some(4)),
     Content("ch02.html#S1.1.1.1", "ch02-html#S1-1-1-1", "1", Some("CH02.1.1.1.1"), Some(5)),
     Content("ch02.html#S1.1.2", "ch02-html#S1-1-2", "2", Some("CH02.1.1.2"), Some(4)),
     Content("ch02.html#S2", "ch02-html#S2", "html#s2", Some("CH02.2"), Some(2)),
     Content("ch02.html#S2.1", "ch02-html#S2-1", "1", Some("CH02.2.1"), Some(3)),
     Content("ch03.html", "ch03-html", Package.XhtmlType, Some("CH03"), Some(1)),
     Content("ch03.html#S1", "ch03-html#S1", "html#s1", Some("CH03.1"), Some(2)),
     Content("ch03.html#S1.1", "ch03-html#S1-1", "1", Some("CH03.1.1"), Some(3)),
     Content("ch04.html", "ch04-html", Package.XhtmlType, Some("CH04"), Some(1)),
     Content("sample.png", "sample-png", "image/png", None, None),
     Content("sample.jpg", "sample-jpg", "image/jpeg", None, None),
     Content("sample.JPEG", "sample-JPEG", "image/jpeg", None, None),
     Content("sample.SvG", "sample-SvG", "image/svg+xml", None, None),
     Content("sample.GIF", "sample-GIF", "image/gif", None, None),
     Content("sample.css", "sample-css", "text/css", None, None)]

  /** The identifiers of the stage 3 entries: `.` becomes `-`, `#` and case stay. */
  lemma Stage3Ids()
    ensures DeriveId("ch01.html") == "ch01-html"
    ensures DeriveId("ch02.html") == "ch02-html"
    ensures DeriveId("ch02.html#S1") == "ch02-html#S1"
    ensures DeriveId("ch02.html#S1.1") == "ch02-html#S1-1"
    ensures DeriveId("ch02.html#S1.1.1") == "ch02-html#S1-1-1"
    ensures DeriveId("ch02.html#S1.1.1.1") == "ch02-html#S1-1-1-1"
    ensures DeriveId("ch02.html#S1.1.2") == "ch02-html#S1-1-2"
    ensures DeriveId("ch02.html#S2") == "ch02-html#S2"
    ensures DeriveId("ch02.html#S2.1") == "ch02-html#S2-1"
    ensures DeriveId("ch03.html") == "ch03-html"
    ensures DeriveId("ch03.html#S1") == "ch03-html#S1"
    ensures DeriveId("ch03.html#S1.1") == "ch03-html#S1-1"
    ensures DeriveId("ch04.html") == "ch04-html"
    ensures DeriveId("sample.png") == "sample-png"
    ensures DeriveId("sample.jpg") == "sample-jpg"
    ensures DeriveId("sample.JPEG") == "sample-JPEG"
    ensures DeriveId("sample.SvG") == "sample-SvG"
    ensures DeriveId("sample.GIF") == "sample-GIF"
    ensures DeriveId("sample.css") == "sample-css"
  {
  }

  /** The entry at `i` is the one of `base.ext`, whose suffix lower-cases to `key`. */
  lemma Stage3Split(base: string, ext: string, key: string, i: nat)
    requires i < |Stage3Input| == |Stage3|
    requires base + "." + ext == Stage3Input[i].0 && '.' !in ext
    requires Text.Downcase(ext) == key
    requires DeriveId(base) + "-" + ext == Stage3[i].id
    requires (if key in MediaTypes then MediaTypes[key] else key) == Stage3[i].media
    requires Stage3[i] == Content(Stage3Input[i].0, Stage3[i].id, Stage3[i].media, Stage3Input[i].1, Stage3Input[i].2)
    ensures Built(i)
  {
    EntryVector(base, ext, Stage3[i].id, Stage3[i].media, Stage3Input[i].1, Stage3Input[i].2);
  }

  /** Stage 3 entry 0: the first chapter, whose title needs escaping. */
  lemma Stage3EntriesFrom0(i: nat)
    requires i == 0 && |Stage3Input| == |Stage3|
    ensures Built(i)
  {
    Stage3Split("ch01", "html", "html", i);
  }

  /** Stage 3 entry 1: the second chapter. */
  lemma Stage3EntriesFrom1(i: nat)
    requires i == 1 && |Stage3Input| == |Stage3|
    ensures Built(i)
  {
    Stage3Split("ch02", "html", "html", i);
  }

  /** Stage 3 entry 2: the first section of the second chapter. */
  lemma Stage3EntriesFrom2(i: nat)
    requires i == 2 && |Stage3Input| == |Stage3|
    ensures Built(i)
  {
    Stage3Split("ch02", "html#S1", "html#s1", i);
  }

  /** Stage 3 entry 3: its first subsection. */
  lemma Stage3EntriesFrom3(i: nat)
    requires i == 3 && |Stage3Input| == |Stage3|
    ensures Built(i)
  {
    Stage3Split("ch02.html#S1", "1", "1", i);
  }

  /** Stage 3 entries 4 to 5: the deepest sections of the second chapter. */
  lemma Stage3EntriesFrom4(i: nat)
    requires 4 <= i < 6 && |Stage3Input| == |Stage3|
    ensures Built(i)
  {
    if i == 4 {
      Stage3Split("ch02.html#S1.1", "1", "1", i);
    } else {
      Stage3Split("ch02.html#S1.1.1", "1", "1", i);
    }
  }

  /** Stage 3 entry 6: the second subsection of the first section. */
  lemma Stage3EntriesFrom6(i: nat)
    requires i == 6 && |Stage3Input| == |Stage3|
    ensures Built(i)
  {
    Stage3Split("ch02.html#S1.1", "2", "2", i);
  }

  /** Stage 3 entry 7: the second section of the second chapter. */
  lemma Stage3EntriesFrom7(i: nat)
    requires i == 7 && |Stage3Input| == |Stage3|
    ensures Built(i)
  {
    Stage3Split("ch02", "html#S2", "html#s2", i);
  }

  /** Stage 3 entries 8 to 9: the end of the second chapter and the third chapter. */
  lemma Stage3EntriesFrom8(i: nat)
    requires 8 <= i < 10 && |Stage3Input| == |Stage3|
    ensures Built(i)
  {
    if i == 8 {
      Stage3Split("ch02.html#S2", "1", "1", i);
    } else {
      Stage3Split("ch03", "html", "html", i);
    }
  }

  /** Stage 3 entry 10: the section of the third chapter. */
  lemma Stage3EntriesFrom10(i: nat)
    requires i == 10 && |Stage3Input| == |Stage3|
    ensures Built(i)
  {
    Stage3Split("ch03", "html#S1", "html#s1", i);
  }

  /** Stage 3 entry 11: its subsection. */
  lemma Stage3EntriesFrom11(i: nat)
    requires i == 11 && |Stage3Input| == |Stage3|
    ensures Built(i)
  {
    Stage3Split("ch03.html#S1", "1", "1", i);
  }

  /** Stage 3 entries 12 to 13: the fourth chapter and the PNG image. */
  lemma Stage3EntriesFrom12(i: nat)
    requires 12 <= i < 14 && |Stage3Input| == |Stage3|
    ensures Built(i)
  {
    if i == 12 {
      Stage3Split("ch04", "html", "html", i);
    } else {
      Stage3Split("sample", "png", "png", i);
    }
  }

  /** Stage 3 entries 14 to 15: the JPEG images, in both cases. */
  lemma Stage3EntriesFrom14(i: nat)
    requires 14 <= i < 16 && |Stage3Input| == |Stage3|
    ensures Built(i)
  {
    if i == 14 {
      Stage3Split("sample", "jpg", "jpg", i);
    } else {
      Stage3Split("sample", "JPEG", "jpeg", i);
    }
  }

  /** Stage 3 entries 16 to 18: the SVG and GIF images and the stylesheet. */
  lemma Stage3EntriesFrom16(i: nat)
    requires 16 <= i < 19 && |Stage3Input| == |Stage3|
    ensures Built(i)
  {
    if i == 16 {
      Stage3Split("sample", "SvG", "svg", i);
    } else if i == 17 {
      Stage3Split("sample", "GIF", "gif", i);
    } else {
      Stage3Split("sample", "css", "css", i);
    }
  }

  /** `Content.new` on every stage 3 descriptor gives exactly the entry the test expects. */
  lemma Stage3Entries()
    ensures |Stage3Input| == |Stage3|
    ensures forall i :: 0 <= i < |Stage3| ==> Built(i)
  {
    forall i | 0 <= i < |Stage3| ensures Built(i) {
      if i < 1 { Stage3EntriesFrom0(i); }
      else if i < 2 { Stage3EntriesFrom1(i); }
      else if i < 3 { Stage3EntriesFrom2(i); }
      else if i < 4 { Stage3EntriesFrom3(i); }
      else if i < 6 { Stage3EntriesFrom4(i); }
      else if i < 7 { Stage3EntriesFrom6(i); }
      else if i < 8 { Stage3EntriesFrom7(i); }
      else if i < 10 { Stage3EntriesFrom8(i); }
      else if i < 11 { Stage3EntriesFrom10(i); }
      else if i < 12 { Stage3EntriesFrom11(i); }
      else if i < 14 { Stage3EntriesFrom12(i); }
      else if i < 16 { Stage3EntriesFrom14(i); }
      else { Stage3EntriesFrom16(i); }
    }
  }

  /** The entries `Content.new` makes of a run of descriptors, in order. */
  function Entries(input: seq<(string, Option<string>, Option<int>)>): (r: seq<Content>)
    ensures |r| == |input|
    ensures forall i :: 0 <= i < |input| ==> r[i].file == input[i].0 && r[i].title == input[i].1 && r[i].level == input[i].2
  {
    seq(|input|, i requires 0 <= i < |input| => Entry(input[i].0, input[i].1, input[i].2))
  }

  /** `contents <<` for each entry in turn: the registry grows by those entries, in order. */
  method AddAll(p: Producer, cs: seq<Content>)
    modifies p
    ensures p.contents == old(p.contents) + cs
    ensures p.params == old(p.params)
  {
    var i := 0;
    while i < |cs|
      invariant 0 <= i <= |cs|
      invariant p.contents == old(p.contents) + cs[..i]
      invariant p.params == old(p.params)
    {
      p.Append(cs[i]);
      assert cs[..i + 1] == cs[..i] + [cs[i]];
      i := i + 1;
    }
    assert cs[..i] == cs;
  }

  /** The entries of the stage 3 descriptors are the registry the test expects. */
  lemma Stage3Registry()
    ensures Entries(Stage3Input) == Stage3
  {
    Stage3Entries();
    var r := Entries(Stage3Input);
    forall i | 0 <= i < |Stage3| ensures r[i] == Stage3[i] {
      assert Built(i);
    }
  }

  /** Stage 3 as the test runs it, on a fresh or any producer. */
  method AddStage3(p: Producer)
    modifies p
    ensures p.contents == old(p.contents) + Stage3
    ensures p.params == old(p.params)
  {
    AddAll(p, Entries(Stage3Input));
    Stage3Registry();
  }
}
