/** The escaper of src/index.ts: `discouragedXMLCharacters` and
    `escape(text, stripANSIControlSequences, isCharacterData)`.

    Attribute mode replaces the five markup characters by their predefined
    entities; character-data mode wraps the text in a CDATA section and
    defuses every `]]>` inside it. Both modes then delete the control
    characters that the Char production of section 2.2 of the XML 1.0
    Recommendation discourages or forbids. `stripAnsiEscapes` lives in a
    file that is not part of this model, so it is a parameter. */
module XmlEscape {

  /** The character class `discouragedXMLCharacters`: U+0000-U+0008,
      U+000B-U+000C, U+000E-U+001F, U+007F-U+0084 and U+0086-U+009F. */
  predicate IsDiscouraged(c: char) {
    || ('\U{0}' <= c <= '\U{8}')
    || ('\U{B}' <= c <= '\U{C}')
    || ('\U{E}' <= c <= '\U{1F}')
    || ('\U{7F}' <= c <= '\U{84}')
    || ('\U{86}' <= c <= '\U{9F}')
  }

  predicate NoDiscouraged(s: string) {
    forall i :: 0 <= i < |s| ==> !IsDiscouraged(s[i])
  }

  /** TAB, LF, CR and NEL survive, every other C0 control is removed, and
      printable ASCII is kept. */
  lemma DiscouragedRanges(c: char)
    ensures c == '\t' || c == '\n' || c == '\r' || c == '\U{85}' ==> !IsDiscouraged(c)
    ensures c < ' ' && c != '\t' && c != '\n' && c != '\r' ==> IsDiscouraged(c)
    ensures ' ' <= c <= '~' ==> !IsDiscouraged(c)
  {
  }

  /** `text.replace(discouragedXMLCharacters, '')`. */
  function StripDiscouraged(s: string): (r: string)
    ensures NoDiscouraged(r)
    ensures |r| <= |s|
    ensures NoDiscouraged(s) ==> r == s
    decreases |s|
  {
    if |s| == 0 then []
    else if IsDiscouraged(s[0]) then StripDiscouraged(s[1..])
    else [s[0]] + StripDiscouraged(s[1..])
  }

  /** Stripping works character by character, so it distributes over
      concatenation. */
  lemma {:induction false} StripDiscouragedAppend(a: string, b: string)
    ensures StripDiscouraged(a + b) == StripDiscouraged(a) + StripDiscouraged(b)
    decreases |a|
  {
    if |a| > 0 {
      StripDiscouragedAppend(a[1..], b);
      assert (a + b)[1..] == a[1..] + b;
    } else {
      assert a + b == b;
    }
  }

  /** Every allowed character keeps its number of occurrences; every
      discouraged one is gone. */
  lemma {:induction false} StripDiscouragedCounts(s: string, c: char)
    ensures multiset(StripDiscouraged(s))[c] == if IsDiscouraged(c) then 0 else multiset(s)[c]
    decreases |s|
  {
    if |s| > 0 {
      StripDiscouragedCounts(s[1..], c);
      assert s == [s[0]] + s[1..];
    }
  }

  // ---------------------------------------------------------------------
  // Attribute mode

  /** The replacement table of `escapeRe`. */
  function Entity(c: char): string {
    if c == '&' then "&amp;"
    else if c == '"' then "&quot;"
    else if c == '\'' then "&apos;"
    else if c == '<' then "&lt;"
    else if c == '>' then "&gt;"
    else [c]
  }

  predicate IsMarkup(c: char) {
    c == '&' || c == '"' || c == '\'' || c == '<' || c == '>'
  }

  /** `text.replace(/[&"'<>]/g, ...)`. */
  function ReplaceMarkup(s: string): string
    decreases |s|
  {
    if |s| == 0 then [] else Entity(s[0]) + ReplaceMarkup(s[1..])
  }

  /** What attribute mode does to one character, in a single pass: a
      discouraged character disappears, a markup character becomes its
      entity, any other character stays. */
  function EscapedChar(c: char): (r: string)
    ensures IsDiscouraged(c) ==> r == []
    ensures !IsDiscouraged(c) && !IsMarkup(c) ==> r == [c]
  {
    if IsDiscouraged(c) then [] else Entity(c)
  }

  /** Reference definition of attribute escaping: the per-character map. */
  function EscapedAttribute(s: string): string
    decreases |s|
  {
    if |s| == 0 then [] else EscapedChar(s[0]) + EscapedAttribute(s[1..])
  }

  /** Text that neither escaping nor stripping touches. */
  predicate PlainText(s: string) {
    forall i :: 0 <= i < |s| ==> !IsMarkup(s[i]) && !IsDiscouraged(s[i])
  }

  /** Every character other than the five markup characters and the
      discouraged ones is copied unchanged. */
  lemma {:induction false} EscapedAttributePlain(s: string)
    requires PlainText(s)
    ensures EscapedAttribute(s) == s
    decreases |s|
  {
    if |s| > 0 {
      EscapedAttributePlain(s[1..]);
      assert [s[0]] + s[1..] == s;
    }
  }

  /** Plain text goes into an attribute verbatim when ANSI stripping is off. */
  lemma EscapeAttributePlain(text: string, stripAnsiEscapes: string -> string)
    requires PlainText(text)
    ensures Escape(text, false, stripAnsiEscapes, false) == text
  {
    EscapeAttributeMode(text, false, stripAnsiEscapes);
    EscapedAttributePlain(text);
  }

  // ---------------------------------------------------------------------
  // Character-data mode

  const CdataOpen: string := "<![CDATA["
  const CdataClose: string := "]]>"

  /** Whether the CDATA terminator `]]>` starts at position i of s. */
  predicate CdataEndAt(s: string, i: int) {
    0 <= i && i + 2 < |s| && s[i] == ']' && s[i + 1] == ']' && s[i + 2] == '>'
  }

  predicate NoCdataEnd(s: string) {
    forall i :: 0 <= i < |s| ==> !CdataEndAt(s, i)
  }

  /** `text.replace(/]]>/g, ']]&gt;')`: a left-to-right scan that rewrites
      each non-overlapping occurrence. */
  function ReplaceCdataEnd(s: string): string
    decreases |s|
  {
    if |s| >= 3 && s[0] == ']' && s[1] == ']' && s[2] == '>' then "]]&gt;" + ReplaceCdataEnd(s[3..])
    else if |s| == 0 then []
    else [s[0]] + ReplaceCdataEnd(s[1..])
  }

  // ---------------------------------------------------------------------
  // escape

  /** The text after the optional ANSI stripping that opens `escape`. */
  function Prepared(text: string, stripANSIControlSequences: bool, stripAnsiEscapes: string -> string): string {
    if stripANSIControlSequences then stripAnsiEscapes(text) else text
  }

  /** `escape(text, stripANSIControlSequences, isCharacterData)` as written:
      the CDATA or entity rewriting first, the removal of discouraged
      characters last. */
  function Escape(text: string, stripANSIControlSequences: bool, stripAnsiEscapes: string -> string,
                  isCharacterData: bool): string
  {
    var t := Prepared(text, stripANSIControlSequences, stripAnsiEscapes);
    StripDiscouraged(if isCharacterData then CdataOpen + ReplaceCdataEnd(t) + CdataClose else ReplaceMarkup(t))
  }

  /** Attribute mode is the per-character map applied to the prepared
      text; its output is well escaped and free of discouraged characters. */
  lemma EscapeAttributeMode(text: string, stripANSIControlSequences: bool, stripAnsiEscapes: string -> string)
    ensures var r := Escape(text, stripANSIControlSequences, stripAnsiEscapes, false);
      && r == EscapedAttribute(Prepared(text, stripANSIControlSequences, stripAnsiEscapes))
      && WellEscaped(r) && NoDiscouraged(r)
  {
    var t := Prepared(text, stripANSIControlSequences, stripAnsiEscapes);
    ReplaceThenStrip(t);
    EscapedAttributeWellEscaped(t);
  }

  /** Character-data mode is `<![CDATA[`, the defused and then stripped
      body, and `]]>`; no discouraged character survives. */
  lemma EscapeCharacterDataMode(text: string, stripANSIControlSequences: bool, stripAnsiEscapes: string -> string)
    ensures var r := Escape(text, stripANSIControlSequences, stripAnsiEscapes, true);
      && r == CdataOpen + StripDiscouraged(ReplaceCdataEnd(Prepared(text, stripANSIControlSequences, stripAnsiEscapes))) + CdataClose
      && NoDiscouraged(r)
  {
    var t := Prepared(text, stripANSIControlSequences, stripAnsiEscapes);
    StripDiscouragedAppend(CdataOpen + ReplaceCdataEnd(t), CdataClose);
    StripDiscouragedAppend(CdataOpen, ReplaceCdataEnd(t));
    CdataDelimitersKept();
  }

  /** The CDATA delimiters are plain ASCII and pass the stripping unchanged. */
  lemma CdataDelimitersKept()
    ensures StripDiscouraged(CdataOpen) == CdataOpen
    ensures StripDiscouraged(CdataClose) == CdataClose
  {
    forall i | 0 <= i < |CdataOpen| ensures !IsDiscouraged(CdataOpen[i]) {
      assert ' ' <= CdataOpen[i] <= '~';
    }
    forall i | 0 <= i < |CdataClose| ensures !IsDiscouraged(CdataClose[i]) {
      assert ' ' <= CdataClose[i] <= '~';
    }
  }

  /** Replacing markup and then stripping is the same as the one-pass map:
      no entity contains a discouraged character. */
  lemma {:induction false} ReplaceThenStrip(s: string)
    ensures StripDiscouraged(ReplaceMarkup(s)) == EscapedAttribute(s)
    decreases |s|
  {
    if |s| > 0 {
      ReplaceThenStrip(s[1..]);
      StripDiscouragedAppend(Entity(s[0]), ReplaceMarkup(s[1..]));
      StripEntity(s[0]);
    }
  }

  lemma StripEntity(c: char)
    ensures StripDiscouraged(Entity(c)) == EscapedChar(c)
  {
    if IsMarkup(c) {
      assert NoDiscouraged(Entity(c));
    } else {
      assert Entity(c) == [c];
      assert [c][1..] == [];
    }
  }

  /** Attribute escaping without ANSI stripping is a homomorphism of
      strings: escape(a + b) == escape(a) + escape(b). */
  lemma {:induction false} EscapedAttributeAppend(a: string, b: string)
    ensures EscapedAttribute(a + b) == EscapedAttribute(a) + EscapedAttribute(b)
    decreases |a|
  {
    if |a| > 0 {
      EscapedAttributeAppend(a[1..], b);
      assert (a + b)[1..] == a[1..] + b;
    } else {
      assert a + b == b;
    }
  }

  lemma EscapeAttributeAppend(a: string, b: string, stripAnsiEscapes: string -> string)
    ensures Escape(a + b, false, stripAnsiEscapes, false)
         == Escape(a, false, stripAnsiEscapes, false) + Escape(b, false, stripAnsiEscapes, false)
  {
    EscapeAttributeMode(a + b, false, stripAnsiEscapes);
    EscapeAttributeMode(a, false, stripAnsiEscapes);
    EscapeAttributeMode(b, false, stripAnsiEscapes);
    EscapedAttributeAppend(a, b);
  }

  // ---------------------------------------------------------------------
  // What an attribute value looks like after escaping

  predicate HasPrefixAt(s: string, i: int, p: string) {
    0 <= i && i + |p| <= |s| && s[i..i + |p|] == p
  }

  /** An ampersand at position i opens one of the five predefined entities. */
  predicate EntityAt(s: string, i: int) {
    || HasPrefixAt(s, i, "&amp;")
    || HasPrefixAt(s, i, "&quot;")
    || HasPrefixAt(s, i, "&apos;")
    || HasPrefixAt(s, i, "&lt;")
    || HasPrefixAt(s, i, "&gt;")
  }

  /** No raw `"`, `'`, `<` or `>`, and every `&` opens an entity. */
  predicate WellEscaped(s: string) {
    forall i :: 0 <= i < |s| ==>
      s[i] != '"' && s[i] != '\'' && s[i] != '<' && s[i] != '>' && (s[i] == '&' ==> EntityAt(s, i))
  }

  lemma HasPrefixAtAppend(a: string, b: string, i: int, p: string)
    ensures HasPrefixAt(a, i, p) ==> HasPrefixAt(a + b, i, p)
    ensures HasPrefixAt(b, i, p) ==> HasPrefixAt(a + b, |a| + i, p)
  {
    if HasPrefixAt(a, i, p) {
      assert (a + b)[i..i + |p|] == a[i..i + |p|];
    }
    if HasPrefixAt(b, i, p) {
      assert (a + b)[|a| + i..|a| + i + |p|] == b[i..i + |p|];
    }
  }

  lemma EntityAtAppend(a: string, b: string, i: int)
    ensures EntityAt(a, i) ==> EntityAt(a + b, i)
    ensures EntityAt(b, i) ==> EntityAt(a + b, |a| + i)
  {
    HasPrefixAtAppend(a, b, i, "&amp;");
    HasPrefixAtAppend(a, b, i, "&quot;");
    HasPrefixAtAppend(a, b, i, "&apos;");
    HasPrefixAtAppend(a, b, i, "&lt;");
    HasPrefixAtAppend(a, b, i, "&gt;");
  }

  lemma WellEscapedAppend(a: string, b: string)
    requires WellEscaped(a) && WellEscaped(b)
    ensures WellEscaped(a + b)
  {
    var s := a + b;
    forall i | 0 <= i < |s| && s[i] == '&'
      ensures EntityAt(s, i)
    {
      if i < |a| {
        EntityAtAppend(a, b, i);
      } else {
        EntityAtAppend(a, b, i - |a|);
      }
    }
  }

  lemma EscapedCharWellEscaped(c: char)
    ensures WellEscaped(EscapedChar(c))
  {
    var r := EscapedChar(c);
    if !IsDiscouraged(c) && IsMarkup(c) {
      assert HasPrefixAt(r, 0, r);
    }
  }

  /** Whatever the value, an escaped attribute value holds no raw `"`, `'`,
      `<` or `>`, every `&` in it opens an entity, and no discouraged
      character survives. */
  lemma {:induction false} EscapedAttributeWellEscaped(s: string)
    ensures WellEscaped(EscapedAttribute(s)) && NoDiscouraged(EscapedAttribute(s))
    decreases |s|
  {
    if |s| > 0 {
      EscapedAttributeWellEscaped(s[1..]);
      EscapedCharWellEscaped(s[0]);
      WellEscapedAppend(EscapedChar(s[0]), EscapedAttribute(s[1..]));
    }
  }

  /** Decoding of the five predefined entities, left to right, as an XML
      parser does it in an attribute value (other references and
      attribute-value normalisation are not modelled). */
  function UnescapeEntities(s: string): string
    decreases |s|
  {
    if |s| == 0 then []
    else if HasPrefixAt(s, 0, "&amp;") then "&" + UnescapeEntities(s[5..])
    else if HasPrefixAt(s, 0, "&quot;") then "\"" + UnescapeEntities(s[6..])
    else if HasPrefixAt(s, 0, "&apos;") then "'" + UnescapeEntities(s[6..])
    else if HasPrefixAt(s, 0, "&lt;") then "<" + UnescapeEntities(s[4..])
    else if HasPrefixAt(s, 0, "&gt;") then ">" + UnescapeEntities(s[4..])
    else [s[0]] + UnescapeEntities(s[1..])
  }

  /** A string that differs from p at position k does not start with p. */
  lemma NotPrefix(s: string, p: string, k: nat)
    requires k < |p| && k < |s| && s[k] != p[k]
    ensures !HasPrefixAt(s, 0, p)
  {
  }

  /** An entity at the front is decoded and the rest is decoded after it. */
  lemma UnescapeEntityHead(e: string, c: char, rest: string)
    requires e == Entity(c) && IsMarkup(c)
    ensures UnescapeEntities(e + rest) == [c] + UnescapeEntities(rest)
  {
    var x := e + rest;
    assert x[..|e|] == e;
    assert x[|e|..] == rest;
    assert x[1] == e[1];
    if c == '"' {
      assert e == "&quot;" && x[1] == 'q';
      NotPrefix(x, "&amp;", 1);
    } else if c == '\'' {
      assert e == "&apos;" && x[1] == 'a' && x[2] == 'p';
      NotPrefix(x, "&amp;", 2);
      NotPrefix(x, "&quot;", 1);
    } else if c == '<' {
      assert e == "&lt;" && x[1] == 'l';
      NotPrefix(x, "&amp;", 1);
      NotPrefix(x, "&quot;", 1);
      NotPrefix(x, "&apos;", 1);
    } else if c == '>' {
      assert e == "&gt;" && x[1] == 'g';
      NotPrefix(x, "&amp;", 1);
      NotPrefix(x, "&quot;", 1);
      NotPrefix(x, "&apos;", 1);
      NotPrefix(x, "&lt;", 1);
    }
  }

  lemma UnescapeEscapedChar(c: char, rest: string)
    ensures UnescapeEntities(EscapedChar(c) + rest) == StripDiscouraged([c]) + UnescapeEntities(rest)
  {
    var e := EscapedChar(c);
    if IsDiscouraged(c) {
      assert e + rest == rest;
    } else {
      assert StripDiscouraged([c]) == [c] by { assert [c][1..] == []; }
      if IsMarkup(c) {
        UnescapeEntityHead(e, c, rest);
      } else {
        var x := [c] + rest;
        NotPrefix(x, "&amp;", 0);
        NotPrefix(x, "&quot;", 0);
        NotPrefix(x, "&apos;", 0);
        NotPrefix(x, "&lt;", 0);
        NotPrefix(x, "&gt;", 0);
        assert x[1..] == rest;
      }
    }
  }

  /** Decoding the entities of an escaped attribute value gives back the
      value without its discouraged characters; a value without them comes
      back exactly. */
  lemma {:induction false} UnescapeEscapedAttribute(s: string)
    ensures UnescapeEntities(EscapedAttribute(s)) == StripDiscouraged(s)
    decreases |s|
  {
    if |s| > 0 {
      UnescapeEscapedAttribute(s[1..]);
      UnescapeEscapedChar(s[0], EscapedAttribute(s[1..]));
      StripDiscouragedAppend([s[0]], s[1..]);
      assert [s[0]] + s[1..] == s;
    }
  }

  lemma EscapeAttributeRoundTrip(value: string, stripAnsiEscapes: string -> string)
    requires NoDiscouraged(value)
    ensures UnescapeEntities(Escape(value, false, stripAnsiEscapes, false)) == value
  {
    EscapeAttributeMode(value, false, stripAnsiEscapes);
    UnescapeEscapedAttribute(value);
  }

  // ---------------------------------------------------------------------
  // What a character-data token looks like

  /** The rewriting keeps the first two characters and never shortens;
      a string too short to hold `]]>` is left alone. */
  lemma {:induction false} ReplaceCdataEndPrefix(s: string)
    ensures |ReplaceCdataEnd(s)| >= |s|
    ensures |s| >= 1 ==> ReplaceCdataEnd(s)[0] == s[0]
    ensures |s| >= 2 ==> ReplaceCdataEnd(s)[1] == s[1]
    ensures |s| < 3 ==> ReplaceCdataEnd(s) == s
    decreases |s|
  {
    if |s| >= 3 && s[0] == ']' && s[1] == ']' && s[2] == '>' {
      ReplaceCdataEndPrefix(s[3..]);
    } else if |s| > 0 {
      ReplaceCdataEndPrefix(s[1..]);
      assert [s[0]] + s[1..] == s;
    }
  }

  /** After the rewriting no `]]>` is left in the body. */
  lemma {:induction false} ReplaceCdataEndSafe(s: string)
    ensures NoCdataEnd(ReplaceCdataEnd(s))
    decreases |s|
  {
    var r := ReplaceCdataEnd(s);
    if |s| >= 3 && s[0] == ']' && s[1] == ']' && s[2] == '>' {
      var x := ReplaceCdataEnd(s[3..]);
      ReplaceCdataEndSafe(s[3..]);
      assert r == "]]&gt;" + x;
      forall i | 0 <= i < |r| ensures !CdataEndAt(r, i) {
        if i >= 6 {
          assert !CdataEndAt(x, i - 6);
        }
      }
    } else if |s| > 0 {
      var y := ReplaceCdataEnd(s[1..]);
      ReplaceCdataEndSafe(s[1..]);
      ReplaceCdataEndPrefix(s[1..]);
      assert r == [s[0]] + y;
      forall i | 0 <= i < |r| ensures !CdataEndAt(r, i) {
        if i >= 1 {
          assert !CdataEndAt(y, i - 1);
        } else if |s[1..]| >= 2 {
          assert y[0] == s[1] && y[1] == s[2];
        } else {
          assert y == s[1..];
        }
      }
    }
  }

  /** A body that holds no `]]>` passes through unchanged. */
  lemma {:induction false} ReplaceCdataEndIdentity(s: string)
    requires NoCdataEnd(s)
    ensures ReplaceCdataEnd(s) == s
    decreases |s|
  {
    if |s| > 0 {
      assert !CdataEndAt(s, 0);
      forall i | 0 <= i < |s[1..]| ensures !CdataEndAt(s[1..], i) {
        assert !CdataEndAt(s, i + 1);
      }
      ReplaceCdataEndIdentity(s[1..]);
      assert [s[0]] + s[1..] == s;
    }
  }

  /** A body holds the sequence `]]&gt;` at position i. */
  predicate EscapedCdataEndAt(s: string, i: int) {
    HasPrefixAt(s, i, "]]&gt;")
  }

  /** The inverse rewriting: every `]]&gt;`, left to right, back to `]]>`. */
  function RestoreCdataEnd(s: string): string
    decreases |s|
  {
    if EscapedCdataEndAt(s, 0) then "]]>" + RestoreCdataEnd(s[6..])
    else if |s| == 0 then []
    else [s[0]] + RestoreCdataEnd(s[1..])
  }

  /** A character other than `]` at the front is copied through. */
  lemma ReplaceCdataEndPlainHead(s: string)
    requires |s| > 0 && s[0] != ']'
    ensures ReplaceCdataEnd(s) == [s[0]] + ReplaceCdataEnd(s[1..])
  {
  }

  /** The rewritten body cannot show `]]&gt;` at a position where the
      scan copied a single `]` through, unless the input itself held it. */
  lemma NoSpuriousEscapedEnd(s: string)
    requires |s| > 0 && !CdataEndAt(s, 0)
    ensures EscapedCdataEndAt([s[0]] + ReplaceCdataEnd(s[1..]), 0) ==> EscapedCdataEndAt(s, 0)
  {
    var r := [s[0]] + ReplaceCdataEnd(s[1..]);
    if EscapedCdataEndAt(r, 0) {
      assert r[..6] == "]]&gt;";
      var t := s[1..];
      var y := ReplaceCdataEnd(t);
      assert y == r[1..];
      ReplaceCdataEndPrefix(t);
      assert y[0] == ']' && y[1] == '&' && y[2] == 'g' && y[3] == 't' && y[4] == ';';
      assert |t| >= 3 && t[0] == ']' && t[1] == '&';
      var u := t[1..];
      assert y == [t[0]] + ReplaceCdataEnd(u);
      ReplaceCdataEndPlainHead(u);
      var v := u[1..];
      ReplaceCdataEndPrefix(v);
      assert ReplaceCdataEnd(u) == ['&'] + ReplaceCdataEnd(v);
      assert y[2..] == ReplaceCdataEnd(v);
      assert |v| >= 3 && v[0] == 'g' && v[1] == 't';
      ReplaceCdataEndPlainHead(v);
      ReplaceCdataEndPlainHead(v[1..]);
      var w := v[2..];
      assert ReplaceCdataEnd(v) == ['g', 't'] + ReplaceCdataEnd(w);
      ReplaceCdataEndPrefix(w);
      assert |w| >= 1 && w[0] == ';';
      assert s[..6] == "]]&gt;";
    }
  }

  /** The rewriting loses nothing: restoring `]]>` gives back any body that
      did not already contain `]]&gt;`. */
  lemma {:induction false} RestoreReplaceCdataEnd(s: string)
    requires forall i :: 0 <= i < |s| ==> !EscapedCdataEndAt(s, i)
    ensures RestoreCdataEnd(ReplaceCdataEnd(s)) == s
    decreases |s|
  {
    if |s| >= 3 && s[0] == ']' && s[1] == ']' && s[2] == '>' {
      var x := ReplaceCdataEnd(s[3..]);
      forall i | 0 <= i < |s[3..]| ensures !EscapedCdataEndAt(s[3..], i) {
        assert !EscapedCdataEndAt(s, i + 3);
        if i + 6 <= |s[3..]| {
          assert s[3..][i..i + 6] == s[i + 3..i + 9];
        }
      }
      RestoreReplaceCdataEnd(s[3..]);
      var r := "]]&gt;" + x;
      assert EscapedCdataEndAt(r, 0);
      assert r[6..] == x;
      assert "]]>" + s[3..] == s;
    } else if |s| > 0 {
      forall i | 0 <= i < |s[1..]| ensures !EscapedCdataEndAt(s[1..], i) {
        assert !EscapedCdataEndAt(s, i + 1);
        if i + 6 <= |s[1..]| {
          assert s[1..][i..i + 6] == s[i + 1..i + 7];
        }
      }
      RestoreReplaceCdataEnd(s[1..]);
      var r := [s[0]] + ReplaceCdataEnd(s[1..]);
      NoSpuriousEscapedEnd(s);
      assert r[1..] == ReplaceCdataEnd(s[1..]);
      assert [s[0]] + s[1..] == s;
    }
  }

  /** As written, `escape` removes the discouraged characters after it has
      defused `]]>`, so a control character between `]]` and `>` is deleted
      and the terminator reappears inside the body: the CDATA section of
      "]]\u0001>" ends before the token does. */
  lemma CdataStripReopensSection(stripAnsiEscapes: string -> string)
    ensures Escape("]]\U{1}>", false, stripAnsiEscapes, true) == "<![CDATA[]]>]]>"
    ensures CdataEndAt(Escape("]]\U{1}>", false, stripAnsiEscapes, true), 9)
  {
    var t := "]]\U{1}>";
    EscapeCharacterDataMode(t, false, stripAnsiEscapes);
    ControlSplitsCdataEnd();
    var r := CdataOpen + "]]>" + CdataClose;
    assert r == "<![CDATA[]]>]]>";
    assert r[9..12] == "]]>";
  }

  /** "]]\u0001>" holds no `]]>` to defuse, and stripping it leaves `]]>`. */
  lemma ControlSplitsCdataEnd()
    ensures ReplaceCdataEnd("]]\U{1}>") == "]]\U{1}>"
    ensures StripDiscouraged("]]\U{1}>") == "]]>"
  {
    var t := "]]\U{1}>";
    var t1 := t[1..];
    var t2 := t1[1..];
    var t3 := t2[1..];
    assert t1 == "]\U{1}>" && t2 == "\U{1}>" && t3 == ">";
    assert ReplaceCdataEnd(t3) == t3;
    assert ReplaceCdataEnd(t2) == t2;
    assert ReplaceCdataEnd(t1) == t1;
    assert StripDiscouraged(t3) == ">";
    assert IsDiscouraged(t2[0]);
    assert StripDiscouraged(t2) == ">";
    assert StripDiscouraged(t1) == "]>";
  }

  /** Defusing keeps a body free of discouraged characters. */
  lemma {:induction false} ReplaceCdataEndNoDiscouraged(s: string)
    requires NoDiscouraged(s)
    ensures NoDiscouraged(ReplaceCdataEnd(s))
    decreases |s|
  {
    if |s| >= 3 && s[0] == ']' && s[1] == ']' && s[2] == '>' {
      ReplaceCdataEndNoDiscouraged(s[3..]);
    } else if |s| > 0 {
      ReplaceCdataEndNoDiscouraged(s[1..]);
    }
  }

  /** A body without `]]>`, once wrapped, holds no `]]>` before the closing
      delimiter. */
  lemma WrappedEndsOnce(body: string)
    requires NoCdataEnd(body)
    ensures var r := CdataOpen + body + CdataClose;
      forall i :: 0 <= i < |r| - |CdataClose| ==> !CdataEndAt(r, i)
  {
    var r := CdataOpen + body + CdataClose;
    forall i | 0 <= i < |r| - |CdataClose| ensures !CdataEndAt(r, i) {
      if i < |CdataOpen| {
        assert r[i] == CdataOpen[i];
      } else if i + 2 < |CdataOpen| + |body| {
        assert r[i] == body[i - 9] && r[i + 1] == body[i - 8] && r[i + 2] == body[i - 7];
        assert !CdataEndAt(body, i - 9);
      } else {
        assert r[i + 2] == CdataClose[i + 2 - 9 - |body|];
      }
    }
  }

  /** The character-data escaping with the two rewritings in the intended
      order: discouraged characters are removed first, then every `]]>` is
      defused, so the section closes exactly at the end of the token. */
  function EscapeCharacterData(text: string, stripANSIControlSequences: bool,
                               stripAnsiEscapes: string -> string): string
  {
    CdataOpen + ReplaceCdataEnd(StripDiscouraged(Prepared(text, stripANSIControlSequences, stripAnsiEscapes))) + CdataClose
  }

  /** The corrected token opens with `<![CDATA[`, ends with `]]>`, holds no
      other `]]>` and no discouraged character, and agrees with `escape` as
      written whenever the prepared text has no discouraged character. */
  lemma EscapeCharacterDataClosesAtEnd(text: string, stripANSIControlSequences: bool,
                                       stripAnsiEscapes: string -> string)
    ensures var r := EscapeCharacterData(text, stripANSIControlSequences, stripAnsiEscapes);
      && NoDiscouraged(r)
      && |r| >= |CdataOpen| + |CdataClose|
      && r[..|CdataOpen|] == CdataOpen && r[|r| - |CdataClose|..] == CdataClose
      && (forall i :: 0 <= i < |r| - |CdataClose| ==> !CdataEndAt(r, i))
      && (NoDiscouraged(Prepared(text, stripANSIControlSequences, stripAnsiEscapes)) ==>
            r == Escape(text, stripANSIControlSequences, stripAnsiEscapes, true))
  {
    var t := Prepared(text, stripANSIControlSequences, stripAnsiEscapes);
    var stripped := StripDiscouraged(t);
    var body := ReplaceCdataEnd(stripped);
    var r := CdataOpen + body + CdataClose;
    assert r == EscapeCharacterData(text, stripANSIControlSequences, stripAnsiEscapes);
    assert NoDiscouraged(r) by {
      ReplaceCdataEndNoDiscouraged(stripped);
      CdataDelimitersKept();
      StripDiscouragedAppend(CdataOpen, body);
      StripDiscouragedAppend(CdataOpen + body, CdataClose);
    }
    assert r[..|CdataOpen|] == CdataOpen;
    assert r[|r| - |CdataClose|..] == CdataClose;
    assert forall i :: 0 <= i < |r| - |CdataClose| ==> !CdataEndAt(r, i) by {
      ReplaceCdataEndSafe(stripped);
      WrappedEndsOnce(body);
    }
    if NoDiscouraged(t) {
      assert r == Escape(text, stripANSIControlSequences, stripAnsiEscapes, true) by {
        EscapeCharacterDataMode(text, stripANSIControlSequences, stripAnsiEscapes);
        ReplaceCdataEndNoDiscouraged(t);
      }
    }
  }
}
