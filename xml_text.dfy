/**
 * Character data as Go's `encoding/xml.EscapeText` writes it, and the
 * reading that undoes it. The escapes are the predefined entities of
 * XML 1.0 (section 4.6) for '&', '<' and '>', and numeric character
 * references (section 4.1) for the quotes, tab, line feed and carriage
 * return; a character outside the Char production of section 2.2 is
 * written as U+FFFD.
 */
module XmlText {
  import opened Wrappers

  /** The Char production of XML 1.0, section 2.2. */
  predicate IsXmlChar(c: char)
  {
    || c == '\t' || c == '\n' || c == '\r'
    || (' ' <= c <= '\U{D7FF}')
    || ('\U{E000}' <= c <= '\U{FFFD}')
    || c >= '\U{10000}'
  }

  predicate XmlChars(s: string)
  {
    forall i :: 0 <= i < |s| ==> IsXmlChar(s[i])
  }

  lemma XmlCharsCat(a: string, b: string)
    ensures XmlChars(a + b) <==> XmlChars(a) && XmlChars(b)
  {
    if XmlChars(a + b) {
      forall i | 0 <= i < |a| ensures IsXmlChar(a[i]) {
        assert (a + b)[i] == a[i];
      }
      forall i | 0 <= i < |b| ensures IsXmlChar(b[i]) {
        assert (a + b)[|a| + i] == b[i];
      }
    }
  }

  /** The replacement character written for a character XML cannot hold. */
  const Replacement: char := '\U{FFFD}'

  /** What `EscapeText` writes for one character. */
  function EscapeChar(c: char): (r: string)
    ensures r != []
    ensures XmlChars(r)
    ensures (r[0] == '&') == (|r| > 1)
  {
    match c
    case '"' => "&#34;"
    case '\'' => "&#39;"
    case '&' => "&amp;"
    case '<' => "&lt;"
    case '>' => "&gt;"
    case '\t' => "&#x9;"
    case '\n' => "&#xA;"
    case '\r' => "&#xD;"
    case _ => if IsXmlChar(c) then [c] else [Replacement]
  }

  /** `xml.EscapeText`, character by character. */
  function Escape(s: string): (r: string)
    ensures |r| >= |s|
    ensures XmlChars(r)
  {
    if s == [] then []
    else
      var r := EscapeChar(s[0]) + Escape(s[1..]);
      XmlCharsCat(EscapeChar(s[0]), Escape(s[1..]));
      r
  }

  lemma {:induction false} EscapeCat(a: string, b: string)
    ensures Escape(a + b) == Escape(a) + Escape(b)
  {
    if a == [] {
      assert a + b == b;
    } else {
      assert (a + b)[1..] == a[1..] + b;
      EscapeCat(a[1..], b);
    }
  }

  /**
   * The reference starting `s`, among those `EscapeText` writes, as its
   * length and the character it stands for.
   */
  function ReferenceAt(s: string): (r: Option<(nat, char)>)
    ensures r.Some? ==> 4 <= r.value.0 <= |s| && s[0] == '&'
  {
    if "&amp;" <= s then Some((5, '&'))
    else if "&lt;" <= s then Some((4, '<'))
    else if "&gt;" <= s then Some((4, '>'))
    else if "&#34;" <= s then Some((5, '"'))
    else if "&#39;" <= s then Some((5, '\''))
    else if "&#x9;" <= s then Some((5, '\t'))
    else if "&#xA;" <= s then Some((5, '\n'))
    else if "&#xD;" <= s then Some((5, '\r'))
    else None
  }

  /** Character data read back: each reference becomes the character it stands for. */
  function Unescape(s: string): string
  {
    if s == [] then []
    else if s[0] == '&' && ReferenceAt(s).Some? then
      [ReferenceAt(s).value.1] + Unescape(s[ReferenceAt(s).value.0..])
    else
      [s[0]] + Unescape(s[1..])
  }

  /** The reference `EscapeText` writes for a character is read as that character. */
  lemma ReferenceOfEscape(c: char, t: string)
    requires |EscapeChar(c)| > 1
    ensures ReferenceAt(EscapeChar(c) + t) == Some((|EscapeChar(c)|, c))
  {
    var e := EscapeChar(c);
    assert e <= e + t;
    assert (e + t)[1] == e[1] && (e + t)[2] == e[2] && (e + t)[3] == e[3];
  }

  /** Reading back the escape of one valid character gives that character. */
  lemma UnescapeEscapeChar(c: char, t: string)
    requires IsXmlChar(c)
    ensures Unescape(EscapeChar(c) + t) == [c] + Unescape(t)
  {
    var e := EscapeChar(c);
    if |e| > 1 {
      ReferenceOfEscape(c, t);
      assert (e + t)[|e|..] == t;
    } else {
      assert e == [c];
      assert (e + t)[1..] == t;
    }
  }

  /** Escaping is undone by reading back, for text made of XML characters. */
  lemma {:induction false} UnescapeEscape(s: string)
    requires XmlChars(s)
    ensures Unescape(Escape(s)) == s
  {
    if s != [] {
      assert XmlChars(s[1..]) by {
        assert forall i :: 0 <= i < |s[1..]| ==> s[1..][i] == s[i + 1];
      }
      UnescapeEscape(s[1..]);
      UnescapeEscapeChar(s[0], Escape(s[1..]));
    }
  }

  /** Text safe as character data: no '<' or '>', and every '&' begins a reference. */
  predicate WellEscaped(t: string)
  {
    forall i :: 0 <= i < |t| ==> t[i] != '<' && t[i] != '>' && (t[i] == '&' ==> ReferenceAt(t[i..]).Some?)
  }

  lemma EscapeCharThenWellEscaped(c: char, t: string)
    requires WellEscaped(t)
    ensures WellEscaped(EscapeChar(c) + t)
  {
    var e := EscapeChar(c);
    var s := e + t;
    forall i | 0 <= i < |s|
      ensures s[i] != '<' && s[i] != '>' && (s[i] == '&' ==> ReferenceAt(s[i..]).Some?)
    {
      if i < |e| {
        assert s[i] == e[i];
        if i == 0 && |e| > 1 {
          assert s[0..] == s;
          ReferenceOfEscape(c, t);
        }
      } else {
        assert s[i] == t[i - |e|];
        assert s[i..] == t[i - |e|..];
      }
    }
  }

  /** Whatever `EscapeText` writes is safe as character data. */
  lemma {:induction false} EscapeIsWellEscaped(s: string)
    ensures WellEscaped(Escape(s))
  {
    if s != [] {
      EscapeIsWellEscaped(s[1..]);
      EscapeCharThenWellEscaped(s[0], Escape(s[1..]));
    }
  }
}
