/** The generic XML tree of src/index.ts (`XMLEntry`) and its serializer
    `serializeXML`, which walks the tree depth-first, pre-order, and pushes
    one string token per tag or text onto a caller-owned token list. */
module XmlSerializer {
  import opened Wrappers
  import opened Strings
  import opened XmlEscape

  /** One attribute, after `String(value)`: the modelled core only stores
      strings in attributes. The sequence is the order in which
      `Object.entries` lists the object's keys, which is insertion order
      when no key is an integer index; its names are meant to be distinct,
      as an object's keys are. */
  datatype Attribute = Attribute(name: string, value: string)

  /** `XMLEntry`; an absent `attributes` or `children` is the empty
      sequence, an absent `text` is None. */
  datatype XmlEntry = XmlEntry(name: string, attributes: seq<Attribute>, children: seq<XmlEntry>, text: Option<string>)

  /** `if (entry.text)`: JavaScript truthiness, so the empty string counts
      as no text. */
  predicate HasText(e: XmlEntry) {
    e.text.Some? && |e.text.value| > 0
  }

  /** `${name}="${escape(String(value), stripANSIControlSequences, false)}"` */
  function AttributeString(a: Attribute, stripANSIControlSequences: bool, stripAnsiEscapes: string -> string): string {
    a.name + "=\"" + Escape(a.value, stripANSIControlSequences, stripAnsiEscapes, false) + "\""
  }

  function AttributeStrings(attrs: seq<Attribute>, stripANSIControlSequences: bool,
                            stripAnsiEscapes: string -> string): seq<string>
    decreases |attrs|
  {
    if |attrs| == 0 then []
    else AttributeStrings(attrs[..|attrs| - 1], stripANSIControlSequences, stripAnsiEscapes)
         + [AttributeString(attrs[|attrs| - 1], stripANSIControlSequences, stripAnsiEscapes)]
  }

  /** `<${entry.name}${attrs.length ? ' ' : ''}${attrs.join(' ')}>` */
  function OpenTag(name: string, attrStrings: seq<string>): string {
    "<" + name + (if |attrStrings| > 0 then " " else "") + Join(attrStrings, " ") + ">"
  }

  function CloseTag(name: string): string {
    "</" + name + ">"
  }

  /** The character-data token of e, if e has text. */
  function TextTokens(e: XmlEntry, stripANSIControlSequences: bool, stripAnsiEscapes: string -> string): seq<string> {
    if HasText(e) then [Escape(e.text.value, stripANSIControlSequences, stripAnsiEscapes, true)] else []
  }

  /** The token list after `serializeXML(e, tokens, ...)` has run on a list
      that held `tokens`: the open tag is pushed, then each child is
      serialized in order, then the character-data token if e has text, and
      last the close tag. */
  function Serialized(tokens: seq<string>, e: XmlEntry, stripANSIControlSequences: bool,
                      stripAnsiEscapes: string -> string): seq<string>
    decreases e, |e.children| + 1
  {
    SerializedChildren(tokens + [OpenTag(e.name, AttributeStrings(e.attributes, stripANSIControlSequences, stripAnsiEscapes))],
                       e, |e.children|, stripANSIControlSequences, stripAnsiEscapes)
    + TextTokens(e, stripANSIControlSequences, stripAnsiEscapes)
    + [CloseTag(e.name)]
  }

  /** The token list after the first k children of e have been serialized
      onto `tokens`. */
  function SerializedChildren(tokens: seq<string>, e: XmlEntry, k: nat, stripANSIControlSequences: bool,
                              stripAnsiEscapes: string -> string): seq<string>
    requires k <= |e.children|
    decreases e, k
  {
    if k == 0 then tokens
    else Serialized(SerializedChildren(tokens, e, k - 1, stripANSIControlSequences, stripAnsiEscapes),
                    e.children[k - 1], stripANSIControlSequences, stripAnsiEscapes)
  }

  /** The tokens that serializing e contributes. */
  function EntryTokens(e: XmlEntry, stripANSIControlSequences: bool, stripAnsiEscapes: string -> string): seq<string> {
    Serialized([], e, stripANSIControlSequences, stripAnsiEscapes)
  }

  /** `serializeXML` only appends: the tokens already on the list stay as
      they are, and what follows them does not depend on them. */
  lemma SerializedAppends(tokens: seq<string>, e: XmlEntry, stripANSIControlSequences: bool,
                          stripAnsiEscapes: string -> string)
    ensures Serialized(tokens, e, stripANSIControlSequences, stripAnsiEscapes)
         == tokens + EntryTokens(e, stripANSIControlSequences, stripAnsiEscapes)
  {
    SerializedShift(tokens, [], e, stripANSIControlSequences, stripAnsiEscapes);
    assert tokens + [] == tokens;
  }

  /** Tokens in front of the list pass through serialization untouched. */
  lemma {:induction false} SerializedShift(tokens: seq<string>, start: seq<string>, e: XmlEntry,
                                           stripANSIControlSequences: bool, stripAnsiEscapes: string -> string)
    ensures Serialized(tokens + start, e, stripANSIControlSequences, stripAnsiEscapes)
         == tokens + Serialized(start, e, stripANSIControlSequences, stripAnsiEscapes)
    decreases e, |e.children| + 1
  {
    var open := OpenTag(e.name, AttributeStrings(e.attributes, stripANSIControlSequences, stripAnsiEscapes));
    var tail := TextTokens(e, stripANSIControlSequences, stripAnsiEscapes) + [CloseTag(e.name)];
    var n := |e.children|;
    assert tokens + start + [open] == tokens + (start + [open]);
    var kids := SerializedChildren(start + [open], e, n, stripANSIControlSequences, stripAnsiEscapes);
    assert SerializedChildren(tokens + (start + [open]), e, n, stripANSIControlSequences, stripAnsiEscapes)
        == tokens + kids by {
      SerializedChildrenAppends(tokens, start + [open], e, n, stripANSIControlSequences, stripAnsiEscapes);
    }
    assert tokens + kids + TextTokens(e, stripANSIControlSequences, stripAnsiEscapes) + [CloseTag(e.name)]
        == tokens + (kids + TextTokens(e, stripANSIControlSequences, stripAnsiEscapes) + [CloseTag(e.name)]);
  }

  lemma {:induction false} SerializedChildrenAppends(tokens: seq<string>, start: seq<string>, e: XmlEntry, k: nat,
                                                     stripANSIControlSequences: bool, stripAnsiEscapes: string -> string)
    requires k <= |e.children|
    ensures SerializedChildren(tokens + start, e, k, stripANSIControlSequences, stripAnsiEscapes)
         == tokens + SerializedChildren(start, e, k, stripANSIControlSequences, stripAnsiEscapes)
    decreases e, k
  {
    if k > 0 {
      var child := e.children[k - 1];
      var mid := SerializedChildren(start, e, k - 1, stripANSIControlSequences, stripAnsiEscapes);
      assert SerializedChildren(tokens + start, e, k, stripANSIControlSequences, stripAnsiEscapes)
          == Serialized(tokens + mid, child, stripANSIControlSequences, stripAnsiEscapes) by {
        SerializedChildrenAppends(tokens, start, e, k - 1, stripANSIControlSequences, stripAnsiEscapes);
      }
      SerializedShift(tokens, mid, child, stripANSIControlSequences, stripAnsiEscapes);
    }
  }

  lemma {:induction false} AttributeStringsLength(attrs: seq<Attribute>, stripANSIControlSequences: bool,
                                                  stripAnsiEscapes: string -> string)
    ensures |AttributeStrings(attrs, stripANSIControlSequences, stripAnsiEscapes)| == |attrs|
    decreases |attrs|
  {
    if |attrs| > 0 {
      AttributeStringsLength(attrs[..|attrs| - 1], stripANSIControlSequences, stripAnsiEscapes);
    }
  }

  lemma {:induction false} AttributeStringAt(attrs: seq<Attribute>, i: nat, stripANSIControlSequences: bool,
                                             stripAnsiEscapes: string -> string)
    requires i < |attrs|
    ensures |AttributeStrings(attrs, stripANSIControlSequences, stripAnsiEscapes)| == |attrs|
    ensures AttributeStrings(attrs, stripANSIControlSequences, stripAnsiEscapes)[i]
         == AttributeString(attrs[i], stripANSIControlSequences, stripAnsiEscapes)
    decreases |attrs|
  {
    var init := attrs[..|attrs| - 1];
    AttributeStringsLength(init, stripANSIControlSequences, stripAnsiEscapes);
    if i < |init| {
      AttributeStringAt(init, i, stripANSIControlSequences, stripAnsiEscapes);
      assert init[i] == attrs[i];
    }
  }

  /** One `name="value"` string per attribute, in the stored order. */
  lemma AttributeStringsIndex(attrs: seq<Attribute>, stripANSIControlSequences: bool,
                              stripAnsiEscapes: string -> string)
    ensures |AttributeStrings(attrs, stripANSIControlSequences, stripAnsiEscapes)| == |attrs|
    ensures forall i :: 0 <= i < |attrs| ==>
      AttributeStrings(attrs, stripANSIControlSequences, stripAnsiEscapes)[i]
      == AttributeString(attrs[i], stripANSIControlSequences, stripAnsiEscapes)
  {
    AttributeStringsLength(attrs, stripANSIControlSequences, stripAnsiEscapes);
    forall i | 0 <= i < |attrs|
      ensures AttributeStrings(attrs, stripANSIControlSequences, stripAnsiEscapes)[i]
           == AttributeString(attrs[i], stripANSIControlSequences, stripAnsiEscapes)
    {
      AttributeStringAt(attrs, i, stripANSIControlSequences, stripAnsiEscapes);
    }
  }

  /** Without attributes the open tag is `<name>`; with attributes, the
      name and the attribute strings are separated by single spaces. */
  lemma OpenTagShape(name: string, attrStrings: seq<string>)
    ensures |attrStrings| == 0 ==> OpenTag(name, attrStrings) == "<" + name + ">"
    ensures |attrStrings| > 0 ==> OpenTag(name, attrStrings) == "<" + name + " " + Join(attrStrings, " ") + ">"
  {
  }

  /** The first token of an element is its open tag and the last its close
      tag. */
  lemma EntryTokensEnds(e: XmlEntry, stripANSIControlSequences: bool, stripAnsiEscapes: string -> string)
    ensures var tokens := EntryTokens(e, stripANSIControlSequences, stripAnsiEscapes);
      && |tokens| >= 2
      && tokens[0] == OpenTag(e.name, AttributeStrings(e.attributes, stripANSIControlSequences, stripAnsiEscapes))
      && tokens[|tokens| - 1] == CloseTag(e.name)
  {
    var open := OpenTag(e.name, AttributeStrings(e.attributes, stripANSIControlSequences, stripAnsiEscapes));
    var k := |e.children|;
    var text := TextTokens(e, stripANSIControlSequences, stripAnsiEscapes);
    SerializedChildrenAppends([open], [], e, k, stripANSIControlSequences, stripAnsiEscapes);
    assert [] + [open] == [open] + [];
    var mid := SerializedChildren([], e, k, stripANSIControlSequences, stripAnsiEscapes);
    var tokens := EntryTokens(e, stripANSIControlSequences, stripAnsiEscapes);
    assert tokens == SerializedChildren([] + [open], e, k, stripANSIControlSequences, stripAnsiEscapes) + text + [CloseTag(e.name)];
    assert tokens == [open] + mid + text + [CloseTag(e.name)];
  }

  /** An element with one child and no text: its open tag, the child's
      tokens, its close tag. */
  lemma OneChildSerialized(tokens: seq<string>, e: XmlEntry, stripANSIControlSequences: bool,
                           stripAnsiEscapes: string -> string)
    requires |e.children| == 1 && !HasText(e)
    ensures Serialized(tokens, e, stripANSIControlSequences, stripAnsiEscapes)
         == Serialized(tokens + [OpenTag(e.name, AttributeStrings(e.attributes, stripANSIControlSequences, stripAnsiEscapes))],
                       e.children[0], stripANSIControlSequences, stripAnsiEscapes)
            + [CloseTag(e.name)]
  {
    var start := tokens + [OpenTag(e.name, AttributeStrings(e.attributes, stripANSIControlSequences, stripAnsiEscapes))];
    var after := SerializedChildren(start, e, 1, stripANSIControlSequences, stripAnsiEscapes);
    assert SerializedChildren(start, e, 0, stripANSIControlSequences, stripAnsiEscapes) == start;
    assert after == Serialized(start, e.children[0], stripANSIControlSequences, stripAnsiEscapes);
    assert TextTokens(e, stripANSIControlSequences, stripAnsiEscapes) == [];
    assert after + [] == after;
  }

  /** An element without children or text: its open tag, its close tag. */
  lemma ChildlessSerialized(tokens: seq<string>, e: XmlEntry, stripANSIControlSequences: bool,
                            stripAnsiEscapes: string -> string)
    requires |e.children| == 0 && !HasText(e)
    ensures Serialized(tokens, e, stripANSIControlSequences, stripAnsiEscapes)
         == tokens + [OpenTag(e.name, AttributeStrings(e.attributes, stripANSIControlSequences, stripAnsiEscapes)),
                      CloseTag(e.name)]
  {
    var start := tokens + [OpenTag(e.name, AttributeStrings(e.attributes, stripANSIControlSequences, stripAnsiEscapes))];
    assert SerializedChildren(start, e, 0, stripANSIControlSequences, stripAnsiEscapes) == start;
    assert TextTokens(e, stripANSIControlSequences, stripAnsiEscapes) == [];
    assert start + [] == start;
  }

  lemma AttributeStringsOne(a: Attribute, stripANSIControlSequences: bool, stripAnsiEscapes: string -> string)
    ensures AttributeStrings([a], stripANSIControlSequences, stripAnsiEscapes)
         == [AttributeString(a, stripANSIControlSequences, stripAnsiEscapes)]
  {
    assert [a][..0] == [];
    assert [] + [AttributeString(a, stripANSIControlSequences, stripAnsiEscapes)]
        == [AttributeString(a, stripANSIControlSequences, stripAnsiEscapes)];
  }

  lemma AttributeTagOne(name: string, a: Attribute, stripANSIControlSequences: bool, stripAnsiEscapes: string -> string)
    ensures OpenTag(name, AttributeStrings([a], stripANSIControlSequences, stripAnsiEscapes))
         == "<" + name + " " + AttributeString(a, stripANSIControlSequences, stripAnsiEscapes) + ">"
  {
    AttributeStringsOne(a, stripANSIControlSequences, stripAnsiEscapes);
    var x := AttributeString(a, stripANSIControlSequences, stripAnsiEscapes);
    assert Join([x], " ") == x;
  }

  lemma AttributeTagTwo(name: string, a: Attribute, b: Attribute, stripANSIControlSequences: bool,
                        stripAnsiEscapes: string -> string)
    ensures OpenTag(name, AttributeStrings([a, b], stripANSIControlSequences, stripAnsiEscapes))
         == "<" + name + " " + AttributeString(a, stripANSIControlSequences, stripAnsiEscapes)
            + " " + AttributeString(b, stripANSIControlSequences, stripAnsiEscapes) + ">"
  {
    var x := AttributeString(a, stripANSIControlSequences, stripAnsiEscapes);
    var y := AttributeString(b, stripANSIControlSequences, stripAnsiEscapes);
    assert AttributeStrings([a, b], stripANSIControlSequences, stripAnsiEscapes) == [x, y] by {
      assert [a, b][..1] == [a];
      AttributeStringsOne(a, stripANSIControlSequences, stripAnsiEscapes);
      assert [x] + [y] == [x, y];
    }
    OpenTagPair(name, x, y);
  }

  lemma OpenTagPair(name: string, x: string, y: string)
    ensures OpenTag(name, [x, y]) == "<" + name + " " + x + " " + y + ">"
  {
    assert [x, y][..1] == [x];
    assert Join([x, y], " ") == x + " " + y;
  }

  /** Number of elements in the tree rooted at e. */
  function NodeCount(e: XmlEntry): nat
    decreases e, |e.children| + 1
  {
    1 + ChildNodeCount(e, |e.children|)
  }

  function ChildNodeCount(e: XmlEntry, k: nat): nat
    requires k <= |e.children|
    decreases e, k
  {
    if k == 0 then 0 else ChildNodeCount(e, k - 1) + NodeCount(e.children[k - 1])
  }

  /** Number of elements in the tree rooted at e that carry text. */
  function TextCount(e: XmlEntry): nat
    decreases e, |e.children| + 1
  {
    (if HasText(e) then 1 else 0) + ChildTextCount(e, |e.children|)
  }

  function ChildTextCount(e: XmlEntry, k: nat): nat
    requires k <= |e.children|
    decreases e, k
  {
    if k == 0 then 0 else ChildTextCount(e, k - 1) + TextCount(e.children[k - 1])
  }

  /** Number of elements in a sequence of trees. */
  function NodesOf(es: seq<XmlEntry>): nat
    decreases |es|
  {
    if |es| == 0 then 0 else NodesOf(es[..|es| - 1]) + NodeCount(es[|es| - 1])
  }

  /** Number of elements with text in a sequence of trees. */
  function TextsOf(es: seq<XmlEntry>): nat
    decreases |es|
  {
    if |es| == 0 then 0 else TextsOf(es[..|es| - 1]) + TextCount(es[|es| - 1])
  }

  lemma NodesOfAppend(es: seq<XmlEntry>, e: XmlEntry)
    ensures NodesOf(es + [e]) == NodesOf(es) + NodeCount(e)
    ensures TextsOf(es + [e]) == TextsOf(es) + TextCount(e)
  {
    assert (es + [e])[..|es|] == es;
  }

  lemma {:induction false} ChildCountsPrefix(e: XmlEntry, k: nat)
    requires k <= |e.children|
    ensures ChildNodeCount(e, k) == NodesOf(e.children[..k])
    ensures ChildTextCount(e, k) == TextsOf(e.children[..k])
  {
    if k > 0 {
      ChildCountsPrefix(e, k - 1);
      assert e.children[..k][..k - 1] == e.children[..k - 1];
    }
  }

  /** The size of a tree is its root plus the sizes of its children. */
  lemma NodeCountOf(e: XmlEntry)
    ensures NodeCount(e) == 1 + NodesOf(e.children)
    ensures TextCount(e) == (if HasText(e) then 1 else 0) + TextsOf(e.children)
  {
    ChildCountsPrefix(e, |e.children|);
    assert e.children[..|e.children|] == e.children;
  }

  /** Every element contributes an open and a close tag, every element with
      text one character-data token, and nothing else is emitted. */
  lemma {:induction false} TokenCount(tokens: seq<string>, e: XmlEntry, stripANSIControlSequences: bool,
                                      stripAnsiEscapes: string -> string)
    ensures |Serialized(tokens, e, stripANSIControlSequences, stripAnsiEscapes)|
         == |tokens| + 2 * NodeCount(e) + TextCount(e)
    decreases e, |e.children| + 1
  {
    var open := OpenTag(e.name, AttributeStrings(e.attributes, stripANSIControlSequences, stripAnsiEscapes));
    ChildTokenCount(tokens + [open], e, |e.children|, stripANSIControlSequences, stripAnsiEscapes);
  }

  lemma {:induction false} ChildTokenCount(tokens: seq<string>, e: XmlEntry, k: nat, stripANSIControlSequences: bool,
                                           stripAnsiEscapes: string -> string)
    requires k <= |e.children|
    ensures |SerializedChildren(tokens, e, k, stripANSIControlSequences, stripAnsiEscapes)|
         == |tokens| + 2 * ChildNodeCount(e, k) + ChildTextCount(e, k)
    decreases e, k
  {
    if k > 0 {
      var before := SerializedChildren(tokens, e, k - 1, stripANSIControlSequences, stripAnsiEscapes);
      var child := e.children[k - 1];
      assert |before| == |tokens| + 2 * ChildNodeCount(e, k - 1) + ChildTextCount(e, k - 1) by {
        ChildTokenCount(tokens, e, k - 1, stripANSIControlSequences, stripAnsiEscapes);
      }
      assert |SerializedChildren(tokens, e, k, stripANSIControlSequences, stripAnsiEscapes)|
          == |before| + 2 * NodeCount(child) + TextCount(child) by {
        TokenCount(before, child, stripANSIControlSequences, stripAnsiEscapes);
      }
      assert ChildNodeCount(e, k) == ChildNodeCount(e, k - 1) + NodeCount(child);
      assert ChildTextCount(e, k) == ChildTextCount(e, k - 1) + TextCount(child);
    }
  }


  /** A name that cannot end a tag or delimit a value. */
  predicate PlainName(s: string) {
    '"' !in s && '<' !in s && '>' !in s
  }

  lemma AttributeStringDelimiters(a: Attribute, stripANSIControlSequences: bool, stripAnsiEscapes: string -> string)
    requires PlainName(a.name)
    ensures var s := AttributeString(a, stripANSIControlSequences, stripAnsiEscapes);
      multiset(s)['"'] == 2 && multiset(s)['<'] == 0 && multiset(s)['>'] == 0
  {
    var v := Escape(a.value, stripANSIControlSequences, stripAnsiEscapes, false);
    EscapeAttributeMode(a.value, stripANSIControlSequences, stripAnsiEscapes);
    assert '"' !in v && '<' !in v && '>' !in v;
  }

  lemma {:induction false} JoinedAttributesDelimiters(attrs: seq<Attribute>, stripANSIControlSequences: bool,
                                                       stripAnsiEscapes: string -> string)
    requires forall i :: 0 <= i < |attrs| ==> PlainName(attrs[i].name)
    ensures var s := Join(AttributeStrings(attrs, stripANSIControlSequences, stripAnsiEscapes), " ");
      multiset(s)['"'] == 2 * |attrs| && multiset(s)['<'] == 0 && multiset(s)['>'] == 0
    decreases |attrs|
  {
    var xs := AttributeStrings(attrs, stripANSIControlSequences, stripAnsiEscapes);
    if |attrs| > 0 {
      var init := attrs[..|attrs| - 1];
      var last := attrs[|attrs| - 1];
      JoinedAttributesDelimiters(init, stripANSIControlSequences, stripAnsiEscapes);
      AttributeStringDelimiters(last, stripANSIControlSequences, stripAnsiEscapes);
      var ys := AttributeStrings(init, stripANSIControlSequences, stripAnsiEscapes);
      var x := AttributeString(last, stripANSIControlSequences, stripAnsiEscapes);
      assert xs == ys + [x];
      if |init| > 0 {
        JoinAppend(ys, x, " ");
        assert Join(xs, " ") == Join(ys, " ") + " " + x;
      } else {
        assert xs == [x];
      }
    }
  }

  /** Whatever the attribute values hold, the open tag has exactly one `<`,
      exactly one `>`, and exactly two quotes per attribute: a value can
      neither leave its quotes nor end the tag. */
  lemma OpenTagDelimiters(e: XmlEntry, stripANSIControlSequences: bool, stripAnsiEscapes: string -> string)
    requires PlainName(e.name)
    requires forall i :: 0 <= i < |e.attributes| ==> PlainName(e.attributes[i].name)
    ensures var t := OpenTag(e.name, AttributeStrings(e.attributes, stripANSIControlSequences, stripAnsiEscapes));
      multiset(t)['"'] == 2 * |e.attributes| && multiset(t)['<'] == 1 && multiset(t)['>'] == 1
  {
    var attrs := AttributeStrings(e.attributes, stripANSIControlSequences, stripAnsiEscapes);
    var joined := Join(attrs, " ");
    var space := if |attrs| > 0 then " " else "";
    var m := multiset(joined);
    assert m['"'] == 2 * |e.attributes| && m['<'] == 0 && m['>'] == 0 by {
      JoinedAttributesDelimiters(e.attributes, stripANSIControlSequences, stripAnsiEscapes);
    }
    assert OpenTag(e.name, attrs) == "<" + e.name + space + joined + ">";
    assert multiset(OpenTag(e.name, attrs)) == multiset("<") + multiset(e.name) + multiset(space) + m + multiset(">");
    assert multiset(e.name)['"'] == 0 && multiset(e.name)['<'] == 0 && multiset(e.name)['>'] == 0;
  }

  /** The shared `tokens: string[]` that `serializeXML` pushes onto. */
  class TokenBuffer {
    var tokens: seq<string>

    constructor ()
      ensures tokens == []
    {
      tokens := [];
    }

    /** `tokens.push(token)` */
    method Push(token: string)
      modifies this
      ensures tokens == old(tokens) + [token]
    {
      tokens := tokens + [token];
    }
  }

  /** The loop over `Object.entries(entry.attributes)` that builds `attrs`,
      one `name="value"` string per attribute, in order. */
  method RenderAttributes(attributes: seq<Attribute>, stripANSIControlSequences: bool,
                          stripAnsiEscapes: string -> string) returns (attrs: seq<string>)
    ensures attrs == AttributeStrings(attributes, stripANSIControlSequences, stripAnsiEscapes)
  {
    attrs := [];
    for i := 0 to |attributes|
      invariant attrs == AttributeStrings(attributes[..i], stripANSIControlSequences, stripAnsiEscapes)
    {
      assert attributes[..i + 1][..i] == attributes[..i];
      attrs := attrs + [AttributeString(attributes[i], stripANSIControlSequences, stripAnsiEscapes)];
    }
    assert attributes[..|attributes|] == attributes;
  }

  /** `serializeXML(entry, tokens, stripANSIControlSequences)`. */
  method SerializeXml(entry: XmlEntry, buffer: TokenBuffer, stripANSIControlSequences: bool,
                      stripAnsiEscapes: string -> string)
    modifies buffer
    ensures buffer.tokens == Serialized(old(buffer.tokens), entry, stripANSIControlSequences, stripAnsiEscapes)
    decreases entry
  {
    var attrs := RenderAttributes(entry.attributes, stripANSIControlSequences, stripAnsiEscapes);
    buffer.Push(OpenTag(entry.name, attrs));
    ghost var start := buffer.tokens;
    for j := 0 to |entry.children|
      invariant buffer.tokens == SerializedChildren(start, entry, j, stripANSIControlSequences, stripAnsiEscapes)
    {
      SerializeXml(entry.children[j], buffer, stripANSIControlSequences, stripAnsiEscapes);
    }
    if HasText(entry) {
      buffer.Push(Escape(entry.text.value, stripANSIControlSequences, stripAnsiEscapes, true));
    } else {
      assert buffer.tokens + [] == buffer.tokens;
    }
    buffer.Push(CloseTag(entry.name));
  }
}
