/**
 * The two string filters sanitizeInput() applies: strip_tags() and
 * htmlspecialchars($s, ENT_QUOTES, 'UTF-8'). Strings are sequences of
 * Unicode characters, so the invalid-UTF-8 case of htmlspecialchars (which
 * returns "") does not arise.
 */
module PhpStrings {

  /** The characters that htmlspecialchars() with ENT_QUOTES never lets through. */
  predicate IsMarkupChar(c: char)
  {
    c == '<' || c == '>' || c == '"' || c == '\''
  }

  predicate HasNoMarkup(s: string)
  {
    forall i :: 0 <= i < |s| ==> !IsMarkupChar(s[i])
  }

  /** The characters htmlspecialchars() replaces: the markup characters and '&'. */
  predicate IsSpecialChar(c: char)
  {
    c == '&' || IsMarkupChar(c)
  }

  predicate HasNoSpecialChars(s: string)
  {
    forall i :: 0 <= i < |s| ==> !IsSpecialChar(s[i])
  }

  /** The replacement htmlspecialchars() makes for one character. */
  function EntityOf(c: char): (e: string)
    ensures HasNoMarkup(e)
    ensures |e| >= 1 && (e == [c] <==> !IsSpecialChar(c))
  {
    match c
    case '&' => "&amp;"
    case '"' => "&quot;"
    case '\'' => "&#039;"
    case '<' => "&lt;"
    case '>' => "&gt;"
    case _ => [c]
  }

  /**
   * htmlspecialchars($s, ENT_QUOTES, 'UTF-8'), with double encoding on (the
   * default): every '&', '"', ''', '<' and '>' becomes its entity.
   */
  function HtmlSpecialChars(s: string): (r: string)
    ensures HasNoMarkup(r)
    ensures |r| >= |s|
  {
    if s == [] then [] else EntityOf(s[0]) + HtmlSpecialChars(s[1..])
  }

  /**
   * The inverse of HtmlSpecialChars: the five entities it produces become
   * their characters again; everything else is kept.
   */
  function HtmlUnescape(s: string): string
  {
    if s == [] then []
    else if "&amp;" <= s then "&" + HtmlUnescape(s[5..])
    else if "&quot;" <= s then "\"" + HtmlUnescape(s[6..])
    else if "&#039;" <= s then "'" + HtmlUnescape(s[6..])
    else if "&lt;" <= s then "<" + HtmlUnescape(s[4..])
    else if "&gt;" <= s then ">" + HtmlUnescape(s[4..])
    else [s[0]] + HtmlUnescape(s[1..])
  }

  lemma UnescapeEntity(c: char, rest: string)
    ensures HtmlUnescape(EntityOf(c) + rest) == [c] + HtmlUnescape(rest)
  {
    var s := EntityOf(c) + rest;
    if c == '&' {
      assert "&amp;" <= s && s[5..] == rest;
    } else if c == '"' {
      assert !("&amp;" <= s) by { assert s[1] == 'q'; }
      assert "&quot;" <= s && s[6..] == rest;
    } else if c == '\'' {
      assert !("&amp;" <= s) && !("&quot;" <= s) by { assert s[1] == '#'; }
      assert "&#039;" <= s && s[6..] == rest;
    } else if c == '<' {
      assert !("&amp;" <= s) && !("&quot;" <= s) && !("&#039;" <= s) by { assert s[1] == 'l'; }
      assert "&lt;" <= s && s[4..] == rest;
    } else if c == '>' {
      assert !("&amp;" <= s) && !("&quot;" <= s) && !("&#039;" <= s) && !("&lt;" <= s)
        by { assert s[1] == 'g'; }
      assert "&gt;" <= s && s[4..] == rest;
    } else {
      assert s[0] == c && s[1..] == rest;
    }
  }

  /** Escaping loses nothing: unescaping gives the original string back. */
  lemma {:induction false} UnescapeInvertsHtmlSpecialChars(s: string)
    ensures HtmlUnescape(HtmlSpecialChars(s)) == s
  {
    if s != [] {
      UnescapeInvertsHtmlSpecialChars(s[1..]);
      UnescapeEntity(s[0], HtmlSpecialChars(s[1..]));
      assert [s[0]] + s[1..] == s;
    }
  }

  /** A string with no special characters passes through htmlspecialchars() unchanged. */
  lemma {:induction false} HtmlSpecialCharsKeepsPlainText(s: string)
    requires HasNoSpecialChars(s)
    ensures HtmlSpecialChars(s) == s
  {
    if s != [] {
      HtmlSpecialCharsKeepsPlainText(s[1..]);
      assert [s[0]] + s[1..] == s;
    }
  }

  // ---------------------------------------------------------------------
  // strip_tags()

  /** C's isspace(), which strip_tags() consults after a '<'. */
  predicate IsCSpace(c: char)
  {
    c == ' ' || c == '\t' || c == '\n' || c == '\U{B}' || c == '\U{C}' || c == '\r'
  }

  /** A '<' at index i opens a tag unless the next character is white space. */
  predicate OpensTag(s: string, i: nat)
    requires i < |s|
  {
    s[i] == '<' && !(i + 1 < |s| && IsCSpace(s[i + 1]))
  }

  /**
   * strip_tags() as a two-state scan: outside a tag characters are kept; a
   * '<' that opens a tag switches to the inside state, where characters are
   * dropped up to and including the next '>'. A tag left open runs to the end.
   */
  function Strip(s: string, inTag: bool): (r: string)
    ensures |r| <= |s|
  {
    if s == [] then []
    else if inTag then Strip(s[1..], s[0] != '>')
    else if OpensTag(s, 0) then Strip(s[1..], true)
    else [s[0]] + Strip(s[1..], false)
  }

  function StripTags(s: string): (r: string)
    ensures |r| <= |s|
  {
    Strip(s, false)
  }

  /** Text with no tag opener in it: every '<' is followed by white space. */
  predicate TagFree(s: string)
  {
    forall i :: 0 <= i < |s| ==> !OpensTag(s, i)
  }

  lemma {:induction false} StripKeepsTagFreeText(s: string)
    requires TagFree(s)
    ensures Strip(s, false) == s
  {
    if s != [] {
      assert !OpensTag(s, 0);
      assert TagFree(s[1..]) by {
        forall i | 0 <= i < |s[1..]| ensures !OpensTag(s[1..], i) {
          assert !OpensTag(s, i + 1);
        }
      }
      StripKeepsTagFreeText(s[1..]);
      assert [s[0]] + s[1..] == s;
    }
  }

  /** What Strip keeps is tag-free. */
  lemma {:induction false} StripResultIsTagFree(s: string, inTag: bool)
    ensures TagFree(Strip(s, inTag))
  {
    if s == [] {
    } else if inTag {
      StripResultIsTagFree(s[1..], s[0] != '>');
    } else if OpensTag(s, 0) {
      StripResultIsTagFree(s[1..], true);
    } else {
      var rest := Strip(s[1..], false);
      StripResultIsTagFree(s[1..], false);
      var r := [s[0]] + rest;
      if s[0] == '<' {
        // the white space after this '<' is kept right behind it
        assert IsCSpace(s[1]) && !OpensTag(s[1..], 0);
        assert rest == [s[1]] + Strip(s[2..], false);
      }
      forall i | 0 <= i < |r| ensures !OpensTag(r, i) {
        if i > 0 { assert r[i] == rest[i - 1]; assert !OpensTag(rest, i - 1); }
      }
    }
  }

  /** Stripping twice is stripping once. */
  lemma StripTagsIdempotent(s: string)
    ensures StripTags(StripTags(s)) == StripTags(s)
  {
    StripResultIsTagFree(s, false);
    StripKeepsTagFreeText(StripTags(s));
  }

  /** Text without any '<' is left alone by strip_tags(). */
  lemma StripTagsKeepsTextWithoutLt(s: string)
    requires forall i :: 0 <= i < |s| ==> s[i] != '<'
    ensures StripTags(s) == s
  {
    StripKeepsTagFreeText(s);
  }
}
