/** Character-level helpers: ASCII lower-casing and XML/HTML escaping of text. */
module Text {
  import opened Wrappers

  function LowerChar(c: char): char {
    if 'A' <= c <= 'Z' then (c as int + 32) as char else c
  }

  predicate IsUpper(c: char) { 'A' <= c <= 'Z' }

  /** ASCII lower-casing (non-ASCII characters are left alone). */
  function Downcase(s: string): (r: string)
    ensures |r| == |s|
    ensures forall i :: 0 <= i < |s| ==> r[i] == LowerChar(s[i])
    ensures forall i :: 0 <= i < |r| ==> !IsUpper(r[i])
  {
    seq(|s|, i requires 0 <= i < |s| => LowerChar(s[i]))
  }

  lemma {:induction false} DowncaseIdempotent(s: string)
    ensures Downcase(Downcase(s)) == Downcase(s)
  {
    if s != [] {
      DowncaseIdempotent(s[1..]);
      assert Downcase(s)[1..] == Downcase(s[1..]);
    }
  }

  lemma DowncaseLower(s: string)
    requires forall i :: 0 <= i < |s| ==> !IsUpper(s[i])
    ensures Downcase(s) == s
  {
    assert forall i :: 0 <= i < |s| ==> Downcase(s)[i] == s[i];
  }

  lemma {:induction false} DowncaseAppend(a: string, b: string)
    ensures Downcase(a + b) == Downcase(a) + Downcase(b)
  {
    if a != [] {
      assert (a + b)[1..] == a[1..] + b;
      DowncaseAppend(a[1..], b);
    } else {
      assert a + b == b;
    }
  }

  /** The characters that are special in XML text and attribute values. */
  predicate IsSpecial(c: char) { c == '&' || c == '<' || c == '>' || c == '"' || c == '\'' }

  function EscapeChar(c: char): string {
    match c
    case '&' => "&amp;"
    case '<' => "&lt;"
    case '>' => "&gt;"
    case '"' => "&quot;"
    case '\'' => "&#39;"
    case _ => [c]
  }

  /** Entity escaping of a title before it is written into markup. */
  function Escape(s: string): (r: string)
    ensures |r| >= |s|
  {
    if s == [] then "" else EscapeChar(s[0]) + Escape(s[1..])
  }

  /** Escaped text is no shorter and holds no markup delimiter and no quote. */
  lemma {:induction false} EscapeSafe(s: string)
    ensures |Escape(s)| >= |s|
    ensures forall i :: 0 <= i < |Escape(s)| ==> !IsSpecial(Escape(s)[i]) || Escape(s)[i] == '&'
  {
    if s != [] {
      EscapeSafe(s[1..]);
      var e, r := EscapeChar(s[0]), Escape(s[1..]);
      assert Escape(s) == e + r;
      assert forall i :: 0 <= i < |e| ==> !IsSpecial(e[i]) || e[i] == '&';
    }
  }

  /** Text without special characters is written as it is. */
  lemma {:induction false} EscapePlain(s: string)
    requires forall i :: 0 <= i < |s| ==> !IsSpecial(s[i])
    ensures Escape(s) == s
  {
    if s != [] {
      EscapePlain(s[1..]);
      assert s == [s[0]] + s[1..];
    }
  }

  /** The entity that starts `s`, as the character it stands for and its length. */
  function EntityAt(s: string): Option<(char, nat)> {
    if "&amp;" <= s then Some(('&', 5))
    else if "&lt;" <= s then Some(('<', 4))
    else if "&gt;" <= s then Some(('>', 4))
    else if "&quot;" <= s then Some(('"', 6))
    else if "&#39;" <= s then Some(('\'', 5))
    else None
  }

  /** Decoding of the five entities Escape produces; every other character stands for itself. */
  function Unescape(s: string): string
    decreases |s|
  {
    if s == [] then ""
    else if s[0] != '&' then [s[0]] + Unescape(s[1..])
    else match EntityAt(s)
      case Some((c, n)) => if 0 < n <= |s| then [c] + Unescape(s[n..]) else "&" + Unescape(s[1..])
      case None => "&" + Unescape(s[1..])
  }

  lemma EntityPrefix(e: string, t: string)
    ensures e <= e + t && (e + t)[|e|..] == t
  {
    assert (e + t)[..|e|] == e;
  }

  lemma UnescapeEscapeChar(c: char, t: string)
    ensures Unescape(EscapeChar(c) + t) == [c] + Unescape(t)
  {
    var e := EscapeChar(c);
    EntityPrefix(e, t);
    var s := e + t;
    if c == '&' {
      assert EntityAt(s) == Some(('&', 5));
    } else if c == '<' {
      assert !("&amp;" <= s) by { assert s[1] == 'l'; }
      assert EntityAt(s) == Some(('<', 4));
    } else if c == '>' {
      assert !("&amp;" <= s) && !("&lt;" <= s) by { assert s[1] == 'g'; }
      assert EntityAt(s) == Some(('>', 4));
    } else if c == '"' {
      assert !("&amp;" <= s) && !("&lt;" <= s) && !("&gt;" <= s) by { assert s[1] == 'q'; }
      assert EntityAt(s) == Some(('"', 6));
    } else if c == '\'' {
      assert !("&amp;" <= s) && !("&lt;" <= s) && !("&gt;" <= s) && !("&quot;" <= s) by { assert s[1] == '#'; }
      assert EntityAt(s) == Some(('\'', 5));
    } else {
      assert s[0] == c && s[1..] == t;
    }
  }

  /** Escaping loses nothing: decoding the escaped text gives the title back. */
  lemma {:induction false} UnescapeEscape(s: string)
    ensures Unescape(Escape(s)) == s
  {
    if s != [] {
      UnescapeEscapeChar(s[0], Escape(s[1..]));
      UnescapeEscape(s[1..]);
    }
  }

  lemma {:induction false} EscapeAppend(a: string, b: string)
    ensures Escape(a + b) == Escape(a) + Escape(b)
  {
    if a != [] {
      assert (a + b)[1..] == a[1..] + b;
      EscapeAppend(a[1..], b);
    } else {
      assert a + b == b;
    }
  }
}
