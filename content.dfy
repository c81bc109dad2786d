/**
 * One registry entry of the book (`Content`): a file, optionally with a `#fragment`,
 * together with the identifier and the media type derived from the file name.
 */
module Content {
  import opened Wrappers
  import Text

  /** A manifest/TOC entry. Entries for images and stylesheets carry no title and no level. */
  datatype Content = Content(file: string, id: string, media: string, title: Option<string>, level: Option<int>)

  /** What a caller hands in: the file, and optionally an explicit id, media type, title, level. */
  datatype Descriptor = Descriptor(file: string, id: Option<string>, media: Option<string>,
                                   title: Option<string>, level: Option<int>)

  /** A file with a `#fragment` names a section inside another file, not a file of its own. */
  predicate IsFragment(file: string) { '#' in file }

  function IdChar(c: char): char { if c == '.' then '-' else c }

  /** The derived identifier: every `.` of the file name becomes `-`; `#` and letter case stay. */
  function DeriveId(file: string): (r: string)
    ensures |r| == |file|
    ensures forall i :: 0 <= i < |file| ==> r[i] == IdChar(file[i])
    ensures '.' !in r
  {
    seq(|file|, i requires 0 <= i < |file| => IdChar(file[i]))
  }

  /** Deriving again from a derived identifier changes nothing. */
  lemma DeriveIdIdempotent(file: string)
    ensures DeriveId(DeriveId(file)) == DeriveId(file)
  {
    var r := DeriveId(file);
    assert forall i :: 0 <= i < |r| ==> DeriveId(r)[i] == r[i];
  }

  /** The identifier keeps every character other than `.` where it was, `#` and case included. */
  lemma DeriveIdKeeps(file: string, i: nat)
    requires i < |file| && file[i] != '.'
    ensures DeriveId(file)[i] == file[i]
  {
  }

  /** A name without `.` is its own identifier. */
  lemma DeriveIdNoDot(s: string)
    requires '.' !in s
    ensures DeriveId(s) == s
  {
    assert forall i :: 0 <= i < |s| ==> DeriveId(s)[i] == s[i];
  }

  /** The identifier of `a.b` joins the identifiers of `a` and `b` with `-`. */
  lemma DeriveIdJoin(a: string, b: string)
    ensures DeriveId(a + "." + b) == DeriveId(a) + "-" + DeriveId(b)
  {
    var f := a + "." + b;
    var r := DeriveId(a) + "-" + DeriveId(b);
    assert |DeriveId(f)| == |r|;
    forall i | 0 <= i < |f| ensures DeriveId(f)[i] == r[i] {
      if i < |a| {
        assert f[i] == a[i];
      } else if i == |a| {
        assert f[i] == '.';
      } else {
        assert f[i] == b[i - |a| - 1];
      }
    }
  }

  /** Where the text after the last `.` among the first `n` characters starts (0 when there is none). */
  function SuffixStart(file: string, n: nat): (k: nat)
    requires n <= |file|
    ensures k <= n
    ensures k > 0 ==> file[k - 1] == '.'
    ensures forall i :: k <= i < n ==> file[i] != '.'
  {
    if n == 0 then 0 else if file[n - 1] == '.' then n else SuffixStart(file, n - 1)
  }

  /** The text after the last `.` of a file name; the whole name when it has no `.`. */
  function Suffix(file: string): string
  {
    file[SuffixStart(file, |file|)..]
  }

  /** Suffix is an end of the name, holds no `.`, and is preceded by a `.` unless it is the whole name. */
  lemma SuffixSpec(file: string)
    ensures var r := Suffix(file);
            |r| <= |file| && r == file[|file| - |r|..] && '.' !in r &&
            (|r| < |file| ==> file[|file| - |r| - 1] == '.')
  {
  }

  /** Two names with `.` at the same places have their suffixes start at the same place. */
  lemma {:induction false} SuffixStartSameDots(f: string, g: string, n: nat)
    requires n <= |f| == |g|
    requires forall i :: 0 <= i < |f| ==> (f[i] == '.' <==> g[i] == '.')
    ensures SuffixStart(f, n) == SuffixStart(g, n)
  {
    if n > 0 && f[n - 1] != '.' {
      SuffixStartSameDots(f, g, n - 1);
    }
  }

  /** The suffix of `base.ext` is `ext` whenever `ext` holds no `.`. */
  lemma SuffixOfExtension(base: string, ext: string)
    requires '.' !in ext
    ensures Suffix(base + "." + ext) == ext
  {
    var f := base + "." + ext;
    var k := SuffixStart(f, |f|);
    assert f[|base|] == '.';
    assert k == |base| + 1;
    assert f[k..] == ext;
  }

  /** Suffix-taking commutes with lower-casing (lower-casing never creates or removes a `.`). */
  lemma SuffixDowncase(file: string)
    ensures Text.Downcase(Suffix(file)) == Suffix(Text.Downcase(file))
  {
    var lf := Text.Downcase(file);
    SuffixStartSameDots(file, lf, |file|);
  }

  /** Media types of the known (lower-case) suffixes. */
  const MediaTypes: map<string, string> := map[
    "html" := "application/xhtml+xml",
    "png" := "image/png",
    "jpg" := "image/jpeg",
    "jpeg" := "image/jpeg",
    "svg" := "image/svg+xml",
    "gif" := "image/gif",
    "css" := "text/css"]

  /**
   * The derived media type: the lower-cased suffix looked up in MediaTypes;
   * an unknown suffix is returned lower-cased as it is.
   */
  function MediaType(file: string): (r: string)
    ensures Text.Downcase(Suffix(file)) in MediaTypes ==> r == MediaTypes[Text.Downcase(Suffix(file))] && r in MediaTypes.Values
    ensures Text.Downcase(Suffix(file)) !in MediaTypes ==> r == Text.Downcase(Suffix(file))
  {
    var key := Text.Downcase(Suffix(file));
    if key in MediaTypes then MediaTypes[key] else key
  }

  /** An unknown suffix comes back lower-cased and without any `.`. */
  lemma MediaTypeUnknown(file: string)
    requires Text.Downcase(Suffix(file)) !in MediaTypes
    ensures '.' !in MediaType(file) && MediaType(file) == Text.Downcase(MediaType(file))
    ensures Text.Downcase(MediaType(file)) == Text.Downcase(Suffix(file))
  {
    var key := Text.Downcase(Suffix(file));
    assert '.' !in key;
    Text.DowncaseIdempotent(Suffix(file));
  }

  /** The media type of `base.ext` depends only on `ext`, case-insensitively. */
  lemma MediaTypeOfExtension(base: string, ext: string)
    requires '.' !in ext
    ensures var key := Text.Downcase(ext);
            MediaType(base + "." + ext) == if key in MediaTypes then MediaTypes[key] else key
  {
    SuffixOfExtension(base, ext);
  }

  /** Matching is case-insensitive: file names equal up to case get the same media type. */
  lemma MediaTypeCaseInsensitive(f: string, g: string)
    requires Text.Downcase(f) == Text.Downcase(g)
    ensures MediaType(f) == MediaType(g)
  {
    SuffixDowncase(f);
    SuffixDowncase(g);
  }

  /** `Content.new` with a descriptor: explicit id and media type win, the rest is derived. */
  function NewContent(d: Descriptor): (c: Content)
    ensures c.file == d.file && c.title == d.title && c.level == d.level
    ensures d.id.None? ==> '.' !in c.id && |c.id| == |d.file|
    ensures d.media.None? && Text.Downcase(Suffix(d.file)) in MediaTypes ==> c.media in MediaTypes.Values
    ensures c.id == (if d.id.Some? then d.id.value else DeriveId(d.file))
    ensures c.media == (if d.media.Some? then d.media.value else MediaType(d.file))
  {
    Content(d.file, d.id.GetOr(DeriveId(d.file)), d.media.GetOr(MediaType(d.file)), d.title, d.level)
  }

  /** The common form: a file with an optional title and heading level. */
  function Entry(file: string, title: Option<string>, level: Option<int>): Content {
    NewContent(Descriptor(file, None, None, title, level))
  }
}
