/**
 * The package document (`opf`): metadata, the manifest of files, the spine
 * (reading order) and the guide, following EPUB 3 Packages.
 */
module Package {
  import opened Wrappers
  import opened Content
  import opened Registry
  import Text

  const XhtmlType := "application/xhtml+xml"

  /** A manifest item; `nav` marks the navigation document (`properties="nav"`). */
  datatype Item = Item(id: string, href: string, media: string, nav: bool)

  /** A spine entry; the cover is the one entry that is not `linear`. */
  datatype ItemRef = ItemRef(idref: string, linear: bool)

  datatype Reference = Reference(kind: string, title: string, href: string)

  datatype Metadata = Metadata(title: string, language: string, date: string, modified: string, identifier: string)

  datatype PackageDocument = PackageDocument(metadata: Metadata, manifest: seq<Item>, spine: seq<ItemRef>, guide: seq<Reference>)

  /** The navigation document's file (`<bookname>-toc.html`), which is also its manifest id. */
  function NavFile(bookname: string): string { bookname + "-toc.html" }

  /** The cover page's file (`<bookname>.html`); its manifest id is the book name. */
  function CoverFile(bookname: string): string { bookname + ".html" }

  function NavItem(bookname: string): Item { Item(NavFile(bookname), NavFile(bookname), XhtmlType, true) }

  function CoverItem(bookname: string): Item { Item(bookname, CoverFile(bookname), XhtmlType, false) }

  function ItemOf(c: Content): Item { Item(c.id, c.file, c.media, false) }

  /** Whole files get a manifest item; fragment entries do not. */
  predicate InManifest(c: Content) { !IsFragment(c.file) }

  /** The spine lists the whole XHTML files; images, stylesheets and fragments stay out. */
  predicate InSpine(c: Content) { !IsFragment(c.file) && c.media == XhtmlType }

  /** One item per whole-file entry, in registry order. */
  function FileItems(cs: seq<Content>): seq<Item>
  {
    if cs == [] then []
    else (if InManifest(cs[0]) then [ItemOf(cs[0])] else []) + FileItems(cs[1..])
  }

  /** The file items are exactly the items of the whole-file entries. */
  lemma {:induction false} FileItemsMembers(cs: seq<Content>)
    ensures forall it :: it in FileItems(cs) ==> exists c :: c in cs && InManifest(c) && it == ItemOf(c)
    ensures forall c :: c in cs && InManifest(c) ==> ItemOf(c) in FileItems(cs)
    ensures forall it :: it in FileItems(cs) ==> !it.nav
  {
    if cs != [] {
      FileItemsMembers(cs[1..]);
      assert forall c :: c in cs ==> c == cs[0] || c in cs[1..];
    }
  }

  /** The manifest: the navigation item and the cover item, then the file items. */
  function Manifest(bookname: string, cs: seq<Content>): (r: seq<Item>)
    ensures |r| >= 2 && r[0] == NavItem(bookname) && r[1] == CoverItem(bookname)
  {
    [NavItem(bookname), CoverItem(bookname)] + FileItems(cs)
  }

  /**
   * The manifest opens with the navigation and cover items; after them come exactly
   * the items of the whole-file entries, and no fragment.
   */
  lemma ManifestMembers(bookname: string, cs: seq<Content>)
    ensures var m := Manifest(bookname, cs);
            |m| >= 2 && m[0] == NavItem(bookname) && m[1] == CoverItem(bookname)
    ensures forall it :: it in Manifest(bookname, cs)[2..] ==> !IsFragment(it.href) && exists c :: c in cs && it == ItemOf(c)
    ensures forall c :: c in cs && !IsFragment(c.file) ==> ItemOf(c) in Manifest(bookname, cs)[2..]
  {
    FileItemsMembers(cs);
    assert Manifest(bookname, cs)[2..] == FileItems(cs);
  }

  /** One linear itemref per whole XHTML file, in registry order. */
  function ContentRefs(cs: seq<Content>): seq<ItemRef>
  {
    if cs == [] then []
    else (if InSpine(cs[0]) then [ItemRef(cs[0].id, true)] else []) + ContentRefs(cs[1..])
  }

  /** The content itemrefs are linear and name exactly the whole XHTML files. */
  lemma {:induction false} ContentRefsMembers(cs: seq<Content>)
    ensures forall ref :: ref in ContentRefs(cs) ==> ref.linear && exists c :: c in cs && InSpine(c) && ref.idref == c.id
    ensures forall c :: c in cs && InSpine(c) ==> ItemRef(c.id, true) in ContentRefs(cs)
  {
    if cs != [] {
      ContentRefsMembers(cs[1..]);
      assert forall c :: c in cs ==> c == cs[0] || c in cs[1..];
    }
  }

  /** The spine: the cover, marked non-linear, then the XHTML files. */
  function Spine(bookname: string, cs: seq<Content>): (r: seq<ItemRef>)
    ensures |r| >= 1 && r[0] == ItemRef(bookname, false)
  {
    [ItemRef(bookname, false)] + ContentRefs(cs)
  }

  /** The spine opens with the non-linear cover; every other itemref is linear. */
  lemma SpineShape(bookname: string, cs: seq<Content>)
    ensures var sp := Spine(bookname, cs); |sp| >= 1 && sp[0] == ItemRef(bookname, false)
    ensures forall ref :: ref in Spine(bookname, cs)[1..] ==> ref.linear
  {
    ContentRefsMembers(cs);
    assert Spine(bookname, cs)[1..] == ContentRefs(cs);
  }

  /** Appending an entry adds its item at the end of the manifest, exactly when it is a whole file. */
  lemma {:induction false} ManifestAppend(bookname: string, cs: seq<Content>, c: Content)
    ensures Manifest(bookname, cs + [c]) == Manifest(bookname, cs) + (if IsFragment(c.file) then [] else [ItemOf(c)])
  {
    FileItemsAppend(cs, c);
  }

  lemma {:induction false} FileItemsAppend(cs: seq<Content>, c: Content)
    ensures FileItems(cs + [c]) == FileItems(cs) + (if InManifest(c) then [ItemOf(c)] else [])
  {
    if cs == [] {
      assert cs + [c] == [c];
    } else {
      var head := if InManifest(cs[0]) then [ItemOf(cs[0])] else [];
      var last := if InManifest(c) then [ItemOf(c)] else [];
      assert (cs + [c])[0] == cs[0] && (cs + [c])[1..] == cs[1..] + [c];
      assert FileItems(cs + [c]) == head + FileItems(cs[1..] + [c]);
      FileItemsAppend(cs[1..], c);
      assert head + (FileItems(cs[1..]) + last) == (head + FileItems(cs[1..])) + last;
    }
  }

  /** Appending an entry adds a linear itemref at the end of the spine, exactly when it is a whole XHTML file. */
  lemma {:induction false} SpineAppend(bookname: string, cs: seq<Content>, c: Content)
    ensures Spine(bookname, cs + [c]) == Spine(bookname, cs) + (if InSpine(c) then [ItemRef(c.id, true)] else [])
  {
    ContentRefsAppend(cs, c);
  }

  lemma {:induction false} ContentRefsAppend(cs: seq<Content>, c: Content)
    ensures ContentRefs(cs + [c]) == ContentRefs(cs) + (if InSpine(c) then [ItemRef(c.id, true)] else [])
  {
    if cs == [] {
      assert cs + [c] == [c];
    } else {
      var head := if InSpine(cs[0]) then [ItemRef(cs[0].id, true)] else [];
      var last := if InSpine(c) then [ItemRef(c.id, true)] else [];
      assert (cs + [c])[0] == cs[0] && (cs + [c])[1..] == cs[1..] + [c];
      assert ContentRefs(cs + [c]) == head + ContentRefs(cs[1..] + [c]);
      ContentRefsAppend(cs[1..], c);
      assert head + (ContentRefs(cs[1..]) + last) == (head + ContentRefs(cs[1..])) + last;
    }
  }

  /** Manifest and spine stay consistent: every itemref names a manifest item that is not the nav item. */
  lemma SpineInManifest(bookname: string, cs: seq<Content>)
    ensures forall ref :: ref in Spine(bookname, cs) ==>
              exists it :: it in Manifest(bookname, cs) && !it.nav && it.id == ref.idref
  {
    var m := Manifest(bookname, cs);
    ManifestMembers(bookname, cs);
    ContentRefsMembers(cs);
    forall ref | ref in Spine(bookname, cs)
      ensures exists it :: it in m && !it.nav && it.id == ref.idref
    {
      if ref == ItemRef(bookname, false) {
        assert m[1] in m;
      } else {
        assert ref in ContentRefs(cs);
        var c :| c in cs && InSpine(c) && ref.idref == c.id;
        assert ItemOf(c) in m[2..];
      }
    }
  }

  /** The parameters the package document needs. */
  const PackageKeys: seq<string> := ["bookname", "title", "language", "date", "modified", "urnid"]

  /**
   * `opf`: the package document for the current registry; `res` is the localized
   * label lookup. A missing parameter is reported with its key.
   */
  function Opf(params: Params, cs: seq<Content>, res: string -> string): (r: Result<PackageDocument, string>)
    ensures r.Failure? <==> exists k :: k in PackageKeys && TextParam(params, k).None?
    ensures r.Failure? ==> r.error in PackageKeys && TextParam(params, r.error).None?
    ensures r.Success? ==> (
      TextParam(params, "bookname").Some? && TextParam(params, "title").Some? &&
      var b := TextParam(params, "bookname").value;
      r.value.manifest == Manifest(b, cs) && r.value.spine == Spine(b, cs) &&
      TextParam(params, "language").Some? && TextParam(params, "date").Some? &&
      TextParam(params, "modified").Some? && TextParam(params, "urnid").Some? &&
      r.value.metadata == Metadata(Text.Escape(TextParam(params, "title").value),
        TextParam(params, "language").value, TextParam(params, "date").value,
        TextParam(params, "modified").value, TextParam(params, "urnid").value) &&
      r.value.guide == [Reference("cover", res("covertitle"), CoverFile(b)), Reference("toc", res("toctitle"), NavFile(b))])
  {
    match Require(params, PackageKeys)
    case Failure(k) => Failure(k)
    case Success(vs) =>
      var b := vs[0];
      Success(PackageDocument(
        Metadata(Text.Escape(vs[1]), vs[2], vs[3], vs[4], vs[5]),
        Manifest(b, cs),
        Spine(b, cs),
        [Reference("cover", res("covertitle"), CoverFile(b)), Reference("toc", res("toctitle"), NavFile(b))]))
  }
}
