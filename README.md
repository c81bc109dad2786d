# EPUB 3 maker: entries, package document, TOC and small pages

This project models the part of an EPUB 3 book producer that `test/test_epub3maker.rb`
pins down with exact expected values. The model covers five things:

- **Entries.** `Content.new` turns a file name, with an optional `#fragment`, title and
  heading level, into a registry entry. The identifier is the file name with every `.`
  made `-`. The media type is the lower-cased text after the last `.`, looked up in a
  table of seven suffixes and passed through lower-cased when unknown.
- **The registry.** The producer keeps an append-only sequence of entries
  (`contents <<`) and a parameter table (`params[key] = value`). Both are modelled as a
  class.
- **The package document (`opf`).** It holds the metadata, the manifest, the spine and
  the guide.
  - The manifest lists the navigation item and the cover item first, then one item per
    whole-file entry. Fragment entries never appear.
  - The spine lists the cover (`linear="no"`) first, then the whole XHTML files.
- **The tables of contents.**
  - The navigation document (`ncx`, `ol` lists) and the TOC page (`mytoc`, `ul` lists)
    show the entries with a title and a level no deeper than the depth limit.
  - Those entries are nested into a heading tree: each entry owns the run of deeper
    entries after it. In flat mode (`flattoc`) they form one list in registry order.
  - The list markup is a sequence of tokens. Link text is entity-escaped.
- **The cover and the colophon.**
  - The cover is a title page, or an image page when `coverimage` is set.
  - The colophon has one row per role that is set, always in the order author,
    publisher, photographer.

Modules, one per file:

- `Wrappers`: Option and Result.
- `Seqs`: generic facts about concatenating and splitting sequences.
- `Text`: lower-casing, entity escaping and its inverse.
- `Content`: entries, identifiers and media types.
- `Registry`: parameters and the `Producer` class.
- `Package`: the package document.
- `Toc` and `TocRender` (in `toc.dfy`): the heading tree, the lists and the two TOC documents.
- `Pages`: the cover and the colophon.
- `Vectors` and `DocVectors`: the values the test expects, proved about the model.

The localized labels (`res.v(key)`) are a parameter `res: string -> string`. The
localized date line of the colophon is a parameter `dateLine: string -> string`. The
vectors use `EnRes`, the English labels the test output shows.

## Model

| member | source | states |
|---|---|---|
| Text.Downcase | test/test_epub3maker.rb:216-218 | the result has the input's length, lower-cases each character and holds no upper-case letter |
| Text.DowncaseIdempotent | test/test_epub3maker.rb:216-218 | lower-casing twice is lower-casing once |
| Text.DowncaseLower | test/test_epub3maker.rb:214 | a name with no upper-case letter is its own lower-case form |
| Text.DowncaseAppend | test/test_epub3maker.rb:216-218 | lower-casing distributes over concatenation |
| Text.Escape | test/test_epub3maker.rb:284 | the escaped text is no shorter than the input; EscapeSafe, EscapePlain, EscapeAppend and UnescapeEscape carry what it writes |
| Text.EscapeSafe | test/test_epub3maker.rb:284 | escaped text is no shorter than the title and holds no `<`, `>`, `"` or `'`: its only special character is `&` |
| Text.EscapePlain | test/test_epub3maker.rb:285-292 | a title without special characters is written unchanged |
| Text.UnescapeEscape | test/test_epub3maker.rb:284 | decoding the escaped title gives the title back, so escaping loses nothing |
| Text.EscapeAppend | test/test_epub3maker.rb:284 | escaping works character by character: the escape of a concatenation is the concatenation of the escapes |
| Content.DeriveId | test/test_epub3maker.rb:112-116 | the identifier has the file name's length, maps each `.` to `-`, keeps every other character and holds no `.` |
| Content.DeriveIdIdempotent | test/test_epub3maker.rb:201-219 | deriving from a derived identifier changes nothing |
| Content.DeriveIdKeeps | test/test_epub3maker.rb:203-209 | `#` and letter case are kept in place |
| Content.DeriveIdNoDot | test/test_epub3maker.rb:214-219 | a name without `.` is its own identifier |
| Content.DeriveIdJoin | test/test_epub3maker.rb:201-219 | the identifier of `a.b` is the identifier of `a`, `-`, the identifier of `b` |
| Content.SuffixStart | test/test_epub3maker.rb:203-209 | the suffix starts just after a `.`, and no `.` follows that position |
| Content.SuffixSpec | test/test_epub3maker.rb:203-209 | the suffix is an end of the name, holds no `.`, and is preceded by a `.` unless it is the whole name |
| Content.SuffixOfExtension | test/test_epub3maker.rb:214-219 | the suffix of `base.ext` is `ext` when `ext` has no `.` |
| Content.SuffixDowncase | test/test_epub3maker.rb:216-218 | taking the suffix commutes with lower-casing |
| Content.MediaTypeUnknown | test/test_epub3maker.rb:203-209 | an unknown suffix comes back lower-cased, without `.` (`html#s1`, `1`, `2`) |
| Content.MediaTypeOfExtension | test/test_epub3maker.rb:214-219 | the media type of `base.ext` is the table entry of lower-cased `ext`, or lower-cased `ext` itself |
| Content.MediaTypeCaseInsensitive | test/test_epub3maker.rb:215-218 | names equal up to case get the same media type (`sample.jpg`, `sample.JPEG`) |
| Content.MediaType | test/test_epub3maker.rb:112-116 | the lower-cased suffix (the whole name when it has no `.`) is looked up: a key the table knows gets exactly its table entry, any other comes back lower-cased itself |
| Content.NewContent | test/test_epub3maker.rb:112-116 | an explicit id or media type is kept; otherwise the id is derived from the file name (no `.`, same length) and the media type from its suffix; file, title and level are kept |
| Registry.Require | test/test_epub3maker.rb:11-19 | succeeds exactly when every key has a text value, returns those values in key order, and otherwise names a missing key |
| Registry.RequireValues | test/test_epub3maker.rb:11-19 | when every key has its value, the values come back exactly |
| Registry.Producer.constructor | test/test_epub3maker.rb:10-11 | a new producer has no contents and the given parameters |
| Registry.Producer.Append | test/test_epub3maker.rb:107 | `contents <<` appends the entry at the end and leaves the parameters alone |
| Registry.Producer.SetParam | test/test_epub3maker.rb:382 | `params[key] = value` updates that key only and leaves the contents alone |
| Package.Manifest | test/test_epub3maker.rb:238-251 | the navigation item and the cover item come first; ManifestMembers and ManifestAppend carry the file items after them |
| Package.Spine | test/test_epub3maker.rb:252-258 | the cover's itemref comes first; SpineShape, SpineAppend and SpineInManifest carry the rest |
| Package.FileItemsMembers | test/test_epub3maker.rb:241-250 | the file items are exactly the items of the whole-file entries, and none is the nav item |
| Package.ManifestMembers | test/test_epub3maker.rb:238-251 | the manifest starts with the nav item and the cover item; after them come exactly the whole-file entries, no fragment |
| Package.ManifestAppend | test/test_epub3maker.rb:133-137 | appending an entry adds its item at the end when it is a whole file, and nothing otherwise |
| Package.FileItemsAppend | test/test_epub3maker.rb:238-251 | the file items of an appended registry extend the old ones by at most the new entry's item |
| Package.ContentRefsMembers | test/test_epub3maker.rb:252-258 | the content itemrefs are linear and name exactly the whole XHTML files |
| Package.SpineShape | test/test_epub3maker.rb:71-73 | the spine starts with the cover itemref marked non-linear; every later itemref is linear |
| Package.SpineAppend | test/test_epub3maker.rb:138-141 | appending an entry adds an itemref exactly when it is a whole XHTML file |
| Package.ContentRefsAppend | test/test_epub3maker.rb:252-258 | the content itemrefs of an appended registry extend the old ones by at most one |
| Package.SpineInManifest | test/test_epub3maker.rb:238-258 | every itemref names a manifest item that is not the nav item |
| Package.Opf | test/test_epub3maker.rb:55-81 | fails exactly when a needed parameter is missing, naming a missing key; otherwise the metadata is the escaped title, the language, the date, the modification time and the identifier, and the manifest, the spine and the guide (cover, then TOC) are those of the book name |
| Toc.NavEntries | test/test_epub3maker.rb:284-293 | the TOC is no longer than the registry; NavEntriesMembers and NavEntriesAppend say which entries it holds |
| Toc.NavEntriesMembers | test/test_epub3maker.rb:284-293 | the TOC holds exactly the shown entries (titled, level at most the limit), none deeper |
| Toc.NavEntriesAppend | test/test_epub3maker.rb:177-195 | appending an entry extends the TOC by it exactly when it is shown |
| Toc.DeeperRun | test/test_epub3maker.rb:285-288 | the run of deeper entries fits in the remaining entries |
| Toc.DeeperRunSpec | test/test_epub3maker.rb:285-288 | the run is the longest prefix of strictly deeper entries |
| Toc.Build | test/test_epub3maker.rb:284-293 | the heading tree; BuildPreorder, BuildNested, BuildRoots and BuildCharacterized carry its contract |
| Toc.BuildPreorder | test/test_epub3maker.rb:284-293 | the pre-order walk of the heading tree is the input: nothing lost, duplicated or reordered |
| Toc.BuildNested | test/test_epub3maker.rb:285-291 | every node's descendants are strictly deeper than the node |
| Toc.BuildRoots | test/test_epub3maker.rb:284-292 | the top-level nodes are the running minima of the levels |
| Toc.BuildCanonical | test/test_epub3maker.rb:284-293 | in the tree, every node's descendants are deeper than it and no sibling is deeper than the one before it |
| Toc.CanonicalUnique | test/test_epub3maker.rb:284-293 | a forest of that shape is the tree of its own pre-order |
| Toc.BuildCharacterized | test/test_epub3maker.rb:284-293 | a forest is the tree of a list of entries exactly when it has that shape and its pre-order is the list, so each entry's parent is the nearest earlier, shallower entry |
| Toc.HeightBound | test/test_epub3maker.rb:286-290 | a tree of levels in `lo..hi` is at most `hi - lo + 1` deep |
| Toc.BuildNode | test/test_epub3maker.rb:285-288 | an entry followed by deeper entries and then a shallower one is one node owning the deeper ones |
| Toc.BuildParent | test/test_epub3maker.rb:289-291 | an entry followed only by deeper entries is a single node owning them |
| Toc.BuildSingle | test/test_epub3maker.rb:167 | a lone entry is a leaf |
| Toc.BuildAppend | test/test_epub3maker.rb:284-292 | entries that start no deeper than everything before them begin new top-level nodes |
| Toc.Roots | test/test_epub3maker.rb:284-292 | there is one root per top-level node |
| Toc.NestedList | test/test_epub3maker.rb:284-293 | the list opens at level 1 and closes with the same tag; NestedListLinks and NestedListDepth carry its items |
| Toc.FlatList | test/test_epub3maker.rb:345-353 | the flat list opens a `ul` at level 1 and closes it before its last line break; FlatListLinks and FlatListDepth carry its items |
| Toc.EntryLinks | test/test_epub3maker.rb:346-352 | there is one link per entry |
| Toc.LinksAppend | test/test_epub3maker.rb:284-292 | the links of a concatenation are the concatenation of the links |
| Toc.ListItemsLinks | test/test_epub3maker.rb:284-292 | the nested items link the tree's entries in pre-order |
| Toc.FlatItemsLinks | test/test_epub3maker.rb:346-352 | the flat items link the entries in order |
| Toc.NestedListLinks | test/test_epub3maker.rb:315-323 | the nested list links every TOC entry once, in registry order |
| Toc.FlatListLinks | test/test_epub3maker.rb:345-353 | the flat list links every TOC entry once, in registry order |
| Toc.FlatMatchesNested | test/test_epub3maker.rb:330-358 | flat and nested mode link the same entries in the same order |
| TocRender.ListItemsDepths | test/test_epub3maker.rb:286-290 | every list opened inside an item is deeper than its parent list and within the tree's height |
| TocRender.NestedListDepth | test/test_epub3maker.rb:284-293 | with a depth limit `d`, the nested TOC opens only lists `toc-h1` to `toc-h<d>` |
| TocRender.ToText | test/test_epub3maker.rb:268-298 | every token writes at least one character |
| TocRender.Ncx | test/test_epub3maker.rb:83-103 | fails exactly without a language; otherwise it is the landmark in the given language, and its list is the nested `ol` list of the heading tree of the TOC entries, which links exactly those entries in order |
| TocRender.MyToc | test/test_epub3maker.rb:300-328 | fails exactly without a language; otherwise it is no landmark, and its list is the flat `ul` list of the TOC entries in flat mode, the nested `ul` list of their heading tree otherwise; either way it links exactly the TOC entries in order, and the flat one opens no sub-list |
| TocRender.FlatItemsNoLists | test/test_epub3maker.rb:345-353 | flat items open no list |
| TocRender.FlatListDepth | test/test_epub3maker.rb:345-353 | the flat list opens only the top-level list |
| Pages.Cover | test/test_epub3maker.rb:360-401 | succeeds exactly with title and language; the image form exactly when `coverimage` is set, its alt being the escaped title; otherwise the heading is the escaped title |
| Pages.EscapeAll | test/test_epub3maker.rb:423-424 | each name is escaped, none added or lost |
| Pages.RoleRow | test/test_epub3maker.rb:403-463 | a role gives at most one row |
| Pages.RoleRows | test/test_epub3maker.rb:403-463 | at most one row per role; RoleRowsSpec and RoleRowsRoles say which rows |
| Pages.RoleRowsSpec | test/test_epub3maker.rb:403-463 | every row is a set role with its caption and escaped names, and every set role has a row |
| Pages.RoleRowsRoles | test/test_epub3maker.rb:433-463 | the rows name exactly the set roles, in list order |
| Pages.SetRolesFixedOrder | test/test_epub3maker.rb:454-456 | the set roles come as aut, prt, pht |
| Pages.ColophonRowOrder | test/test_epub3maker.rb:403-463 | the colophon rows are exactly the set roles among aut, prt and pht, in that order |
| Pages.RowRolesAppend | test/test_epub3maker.rb:454-456 | the roles of concatenated rows are the concatenated roles |
| Pages.Colophon | test/test_epub3maker.rb:403-431 | fails exactly without title, language or date; the book title is escaped; the publication line is the date line of `date`; rows only for set roles among aut, prt, pht |
| Vectors.EntryVector | test/test_epub3maker.rb:112-116 | the entry of `base.ext` has id `id(base)-ext` and the media type of lower-cased `ext` |
| Vectors.Stage2Entry | test/test_epub3maker.rb:107-117 | `ch01.html` becomes `ch01-html`, `application/xhtml+xml`, `CH01`, level 1 |
| Vectors.Stage3Ids | test/test_epub3maker.rb:201-219 | the nineteen identifiers the test expects |
| Vectors.Stage3Entries | test/test_epub3maker.rb:177-219 | each stage-3 descriptor makes exactly the expected entry |
| Vectors.Entries | test/test_epub3maker.rb:177-195 | one entry per descriptor, keeping file, title and level |
| Vectors.AddAll | test/test_epub3maker.rb:177-195 | appending entries one by one extends the registry by exactly those entries, in order; parameters unchanged |
| Vectors.Stage3Registry | test/test_epub3maker.rb:198-223 | the stage-3 descriptors make exactly the expected registry |
| Vectors.AddStage3 | test/test_epub3maker.rb:198-223 | running stage 3 on a producer appends exactly the expected nineteen entries |
| DocVectors.SetupTexts | test/test_epub3maker.rb:11-19 | the setup's text parameters |
| DocVectors.SetupPackageKeys | test/test_epub3maker.rb:11-19 | the setup has every parameter the package document needs |
| DocVectors.SampleBookPlain | test/test_epub3maker.rb:61 | the book title needs no escaping |
| DocVectors.SetupOpf | test/test_epub3maker.rb:59-77 | the setup's package document for any registry: its metadata, manifest, spine and guide |
| DocVectors.Stage1Opf | test/test_epub3maker.rb:55-81 | with no contents: only the nav and cover items, the non-linear cover itemref, and the guide |
| DocVectors.Stage2Opf | test/test_epub3maker.rb:120-149 | one chapter: its item after the cover item, its itemref after the cover's |
| DocVectors.Stage3FileItems | test/test_epub3maker.rb:241-257 | stage 3 gives the ten file items and the four chapter itemrefs the test lists |
| DocVectors.Stage3Opf | test/test_epub3maker.rb:225-266 | the whole stage-3 package document |
| DocVectors.Stage3Nav | test/test_epub3maker.rb:284-292 | stage 3 shows the seven entries of levels 1 and 2 in registry order |
| DocVectors.Stage3TreeBuilt | test/test_epub3maker.rb:284-293 | those entries form CH01; CH02 over CH02.1 and CH02.2; CH03 over CH03.1; CH04 |
| DocVectors.Stage3ListItems | test/test_epub3maker.rb:284-293 | the list items: leaves for CH01 and CH04, a sub-list under CH02 and under CH03 |
| DocVectors.Stage1Ncx | test/test_epub3maker.rb:83-103 | with no contents the navigation document has an empty `toc-h1` list |
| DocVectors.Stage2Ncx | test/test_epub3maker.rb:151-173 | one chapter gives one item in the `toc-h1` list |
| DocVectors.Stage3Ncx | test/test_epub3maker.rb:268-298 | the stage-3 navigation document is the nested `ol` list of that tree |
| DocVectors.Stage3MyToc | test/test_epub3maker.rb:300-328 | the stage-3 TOC page is the nested `ul` list of that tree, not a landmark |
| DocVectors.Stage3FlatItems | test/test_epub3maker.rb:346-352 | the flat items are seven leaves in registry order |
| DocVectors.Stage3FlatToc | test/test_epub3maker.rb:330-358 | with `flattoc` the TOC page is one flat `ul` list of the seven entries |
| DocVectors.FirstTitleEscaped | test/test_epub3maker.rb:284 | `CH01<>&"` is escaped to `CH01&lt;&gt;&amp;&quot;`, the text of its link in the TOC |
| DocVectors.EscapeAfterPlain | test/test_epub3maker.rb:284 | plain text followed by four characters: the text stays, each character becomes its escape |
| DocVectors.Stage3Cover | test/test_epub3maker.rb:360-378 | without `coverimage`, the cover is a title page headed `Sample Book` in `en` |
| DocVectors.Stage3CoverImage | test/test_epub3maker.rb:380-401 | with `coverimage` set, the cover shows `sample.png` with alt `Sample Book` |
| DocVectors.ColophonOf | test/test_epub3maker.rb:403-431 | the colophon of any parameters with title, language and date |
| DocVectors.AutPrtColophon | test/test_epub3maker.rb:403-431 | with author and publisher set, their rows come first, in that order |
| DocVectors.ColophonDefault | test/test_epub3maker.rb:403-431 | author and publisher set: the `Colophon` page for `Sample Book`, the date line, the Author row, then the Publisher row |
| DocVectors.ColophonPht | test/test_epub3maker.rb:433-463 | photographer set too: the Director of Photography row comes third |

## Left out

- The resource tables (`res.v`, test/test_epub3maker.rb:27-35) are a lookup service. Labels are the parameter `res`; the vectors use the English labels.
- The localized date line of the colophon (test/test_epub3maker.rb:420) is the parameter `dateLine`.
- `mimetype` and `container` (test/test_epub3maker.rb:37-53) write constant text with no logic.
- `merge_params` (test/test_epub3maker.rb:11-19, 331) is not modelled. The parameter table is given as a map, and `epubversion` is not included because nothing modelled reads it.
- The output stream, the XML prologue, the page shells and whitespace are I/O and boilerplate. Documents are modelled as values: token lists for the TOCs, records for the other pages.
- TocRender.ToText renders tokens as markup, but it is not proved equal to the expected strings. The vectors stop at the token lists plus `FirstTitleEscaped`.
- `flattocindent` (test/test_epub3maker.rb:331) has no effect in the vectors and is not read.
- Duplicate-identifier detection (test/test_epub3maker.rb:465-470) is commented out in the test, so no behaviour is asserted.
- The TOC depth limit is the parameter `depth`; the vectors use 2. Where that limit is configured is not modelled.
- Roles other than aut, prt and pht, and the separator between several names of one role, are not pinned by the test. The model keeps the names as a list.
- Content.MediaType: an unknown suffix comes back lower-cased (`ch02.html#S1` gives `html#s1`), as the expected values show. It is not returned verbatim.
- Text.Downcase lower-cases ASCII letters only; Ruby's `downcase` also maps non-ASCII letters, which no file name in the test uses.
- Content.MediaType: the suffix table has html, png, jpg, jpeg, svg, gif and css and no `xhtml` entry, since no expected value shows one; an `.xhtml` file would get the media type `xhtml`.
- Text.Escape also writes `'` as `&#39;`, which no expected value shows.
