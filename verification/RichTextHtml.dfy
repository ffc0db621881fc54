/** The frozen converter from a stored rich-text document to HTML, before sanitising, and an
    independent lexer that reads the HTML back. A document is any JSON value: a field of the wrong
    type reads as absent. */
module RichTextHtml {
  import opened Basics

  datatype Json =
    | JNull
    | JBool(bit: bool)
    | JInt(num: int)
    | JReal(dec: real)
    | JStr(str: string)
    | JList(items: seq<Json>)
    | JObj(fields: map<string, Json>)

  function AsDict(v: Json): map<string, Json> {
    if v.JObj? then v.fields else map[]
  }

  function AsList(v: Json): seq<Json> {
    if v.JList? then v.items else []
  }

  function AsStr(v: Json): string {
    if v.JStr? then v.str else ""
  }

  function Field(d: map<string, Json>, key: string): Json {
    if key in d then d[key] else JNull
  }

  function TypeOf(node: Json): string {
    AsStr(Field(AsDict(node), "type"))
  }

  function Children(node: Json): (cs: seq<Json>)
    ensures forall i :: 0 <= i < |cs| ==> cs[i] < node
  {
    AsList(Field(AsDict(node), "content"))
  }

  function Attrs(node: Json): map<string, Json> {
    AsDict(Field(AsDict(node), "attrs"))
  }

  // ---- Text

  /** Every `c` of `s` replaced by `with`. */
  function Replace(s: string, c: char, with: string): string {
    if s == "" then "" else (if s[0] == c then with else [s[0]]) + Replace(s[1..], c, with)
  }

  /** The standard library's HTML escape: the ampersand first, then the angle brackets, then, for an
      attribute value, both quotes. */
  function Escape(s: string, quote: bool): string {
    var angled := Replace(Replace(Replace(s, '&', "&amp;"), '<', "&lt;"), '>', "&gt;");
    if quote then Replace(Replace(angled, '"', "&quot;"), '\'', "&#x27;") else angled
  }

  const BLOCK_TAGS := map["paragraph" := "p", "blockquote" := "blockquote", "bulletList" := "ul",
                          "orderedList" := "ol", "listItem" := "li"]
  const MARK_TAGS := map["bold" := "strong", "italic" := "em", "strike" := "s", "code" := "code"]

  datatype Attr = Attr(name: string, value: string)

  /** The tag a mark wraps its text in, if it is a known mark. */
  function MarkTag(mark: Json): Option<(string, seq<Attr>)> {
    var kind := TypeOf(mark);
    if kind == "link" then Some(("a", [Attr("href", AsStr(Field(Attrs(mark), "href")))]))
    else if kind in MARK_TAGS then Some((MARK_TAGS[kind], []))
    else None
  }

  function AttrHtml(attrs: seq<Attr>): string {
    if attrs == [] then ""
    else " " + (attrs[0].name + ("=\"" + (Escape(attrs[0].value, true) + ("\"" + AttrHtml(attrs[1..])))))
  }

  function OpenHtml(tag: string, attrs: seq<Attr>): string {
    "<" + (tag + (AttrHtml(attrs) + ">"))
  }

  function CloseHtml(tag: string): string {
    "</" + tag + ">"
  }

  function Wrap(html: string, mark: Json): string {
    match MarkTag(mark)
    case None => html
    case Some((tag, attrs)) => OpenHtml(tag, attrs) + html + CloseHtml(tag)
  }

  /** The first mark is the outermost tag. */
  function Marked(html: string, marks: seq<Json>): string {
    if marks == [] then html else Wrap(Marked(html, marks[1..]), marks[0])
  }

  /** Text before its marks. */
  function PlainHtml(s: string, inCode: bool): string {
    var html := Escape(s, false);
    if inCode then html else Replace(html, '\n', "<br>")
  }

  function BareText(node: Json, inCode: bool): string {
    PlainHtml(AsStr(Field(AsDict(node), "text")), inCode)
  }

  function Marks(node: Json): seq<Json> {
    AsList(Field(AsDict(node), "marks"))
  }

  /** One text node: escape, break lines outside code, then wrap in each mark from the last in. */
  method TextHtml(node: Json, inCode: bool) returns (html: string)
    ensures html == Marked(BareText(node, inCode), Marks(node))
  {
    html := Escape(AsStr(Field(AsDict(node), "text")), false);
    if !inCode {
      html := Replace(html, '\n', "<br>");
    }
    var marks := AsList(Field(AsDict(node), "marks"));
    var i := |marks|;
    while i > 0
      invariant 0 <= i <= |marks|
      invariant html == Marked(BareText(node, inCode), marks[i..])
    {
      i := i - 1;
      assert marks[i..][1..] == marks[i + 1..];
      var mark := marks[i];
      var kind := TypeOf(mark);
      if kind == "link" {
        html := OpenHtml("a", [Attr("href", AsStr(Field(Attrs(mark), "href")))]) + html + CloseHtml("a");
      } else if kind in MARK_TAGS {
        html := OpenHtml(MARK_TAGS[kind], []) + html + CloseHtml(MARK_TAGS[kind]);
      }
    }
  }

  // ---- Nodes

  function HeadingTag(node: Json): string {
    var level := Field(Attrs(node), "level");
    // A boolean is an integer in the source, at most 1.
    if level.JInt? && level.num >= 3 then "h3" else "h2"
  }

  function ImageAttrs(node: Json): seq<Attr>
    requires Field(Attrs(node), "src").JStr?
  {
    var alt := AsStr(Field(Attrs(node), "alt"));
    [Attr("src", Field(Attrs(node), "src").str)] + if alt == "" then [] else [Attr("alt", alt)]
  }

  function NodeHtml(node: Json, inCode: bool): string
    decreases node
  {
    var kind := TypeOf(node);
    if kind == "text" then Marked(BareText(node, inCode), Marks(node))
    else
      var inner := NodesHtml(node, Children(node), inCode || kind == "codeBlock");
      if kind in BLOCK_TAGS then OpenHtml(BLOCK_TAGS[kind], []) + inner + CloseHtml(BLOCK_TAGS[kind])
      else if kind == "heading" then OpenHtml(HeadingTag(node), []) + inner + CloseHtml(HeadingTag(node))
      else if kind == "codeBlock" then
        OpenHtml("pre", []) + (OpenHtml("code", []) + inner + CloseHtml("code")) + CloseHtml("pre")
      else if kind == "horizontalRule" then OpenHtml("hr", [])
      else if kind == "hardBreak" then OpenHtml("br", [])
      else if kind == "image" then
        if Field(Attrs(node), "src").JStr? then OpenHtml("img", ImageAttrs(node)) else ""
      else inner
  }

  function NodesHtml(node: Json, children: seq<Json>, inCode: bool): string
    requires forall i :: 0 <= i < |children| ==> children[i] < node
    decreases node, |children|
  {
    if children == [] then "" else NodeHtml(children[0], inCode) + NodesHtml(node, children[1..], inCode)
  }

  // ---- What the document means: tags, attributes and characters in reading order

  datatype Token = Open(tag: string, attrs: seq<Attr>) | Close(tag: string) | Char(c: char)

  function TextTokens(s: string, inCode: bool): seq<Token> {
    if s == "" then []
    else [if s[0] == '\n' && !inCode then Open("br", []) else Char(s[0])] + TextTokens(s[1..], inCode)
  }

  function MarkedTokens(tokens: seq<Token>, marks: seq<Json>): seq<Token> {
    if marks == [] then tokens
    else
      var inner := MarkedTokens(tokens, marks[1..]);
      match MarkTag(marks[0])
      case None => inner
      case Some((tag, attrs)) => [Open(tag, attrs)] + inner + [Close(tag)]
  }

  function Element(tag: string, inner: seq<Token>): seq<Token> {
    [Open(tag, [])] + inner + [Close(tag)]
  }

  function Tokens(node: Json, inCode: bool): seq<Token>
    decreases node
  {
    var kind := TypeOf(node);
    if kind == "text" then MarkedTokens(TextTokens(AsStr(Field(AsDict(node), "text")), inCode), Marks(node))
    else
      var inner := TokensOf(node, Children(node), inCode || kind == "codeBlock");
      if kind in BLOCK_TAGS then Element(BLOCK_TAGS[kind], inner)
      else if kind == "heading" then Element(HeadingTag(node), inner)
      else if kind == "codeBlock" then Element("pre", Element("code", inner))
      else if kind == "horizontalRule" then [Open("hr", [])]
      else if kind == "hardBreak" then [Open("br", [])]
      else if kind == "image" then if Field(Attrs(node), "src").JStr? then [Open("img", ImageAttrs(node))] else []
      else inner
  }

  function TokensOf(node: Json, children: seq<Json>, inCode: bool): seq<Token>
    requires forall i :: 0 <= i < |children| ==> children[i] < node
    decreases node, |children|
  {
    if children == [] then [] else Tokens(children[0], inCode) + TokensOf(node, children[1..], inCode)
  }

  // ---- A lexer that knows nothing of documents

  predicate NameChar(c: char) {
    'a' <= c <= 'z' || '0' <= c <= '9'
  }

  function ReadName(s: string): (r: (string, string))
    ensures |r.1| <= |s| && (r.0 != "" ==> |r.1| < |s|)
  {
    if s == "" || !NameChar(s[0]) then ("", s)
    else
      var (name, rest) := ReadName(s[1..]);
      ([s[0]] + name, rest)
  }

  /** The character a reference stands for, and the rest. */
  function ReadEntity(s: string): (r: Option<(char, string)>)
    ensures r.Some? ==> |r.value.1| < |s|
  {
    if "&amp;" <= s then Some(('&', s[5..]))
    else if "&lt;" <= s then Some(('<', s[4..]))
    else if "&gt;" <= s then Some(('>', s[4..]))
    else if "&quot;" <= s then Some(('"', s[6..]))
    else if "&#x27;" <= s then Some(('\'', s[6..]))
    else None
  }

  /** An attribute value up to its closing quote, and the rest. */
  function ReadValue(s: string): (r: Option<(string, string)>)
    ensures r.Some? ==> |r.value.1| < |s|
  {
    if s == "" then None
    else if s[0] == '"' then Some(("", s[1..]))
    else
      match if s[0] == '&' then ReadEntity(s) else Some((s[0], s[1..]))
      case None => None
      case Some((c, rest)) =>
        match ReadValue(rest)
        case None => None
        case Some((value, after)) => Some(([c] + value, after))
  }

  /** The attributes up to the closing bracket, and the rest. */
  function ReadAttrs(s: string): (r: Option<(seq<Attr>, string)>)
    ensures r.Some? ==> |r.value.1| < |s|
    decreases |s|
  {
    if s == "" then None
    else if s[0] == '>' then Some(([], s[1..]))
    else if s[0] != ' ' then None
    else
      var (name, rest) := ReadName(s[1..]);
      if !("=\"" <= rest) then None
      else
        match ReadValue(rest[2..])
        case None => None
        case Some((value, after)) =>
          match ReadAttrs(after)
          case None => None
          case Some((attrs, end)) => Some(([Attr(name, value)] + attrs, end))
  }

  function ReadTag(s: string): (r: Option<(Token, string)>)
    requires s != ""
    ensures r.Some? ==> |r.value.1| < |s|
  {
    if "</" <= s then
      var (name, rest) := ReadName(s[2..]);
      if name != "" && rest != "" && rest[0] == '>' then Some((Close(name), rest[1..])) else None
    else
      var (name, rest) := ReadName(s[1..]);
      if name == "" then None
      else
        match ReadAttrs(rest)
        case None => None
        case Some((attrs, after)) => Some((Open(name, attrs), after))
  }

  function Prepend(head: seq<Token>, tail: Option<seq<Token>>): Option<seq<Token>> {
    match tail case None => None case Some(ts) => Some(head + ts)
  }

  lemma PrependTwice(a: seq<Token>, b: seq<Token>, tail: Option<seq<Token>>)
    ensures Prepend(a, Prepend(b, tail)) == Prepend(a + b, tail)
  {
    if tail.Some? {
      Regroup(a, b, tail.value);
    }
  }

  lemma PrependNothing(tail: Option<seq<Token>>)
    ensures Prepend([], tail) == tail
  {
    if tail.Some? {
      assert [] + tail.value == tail.value;
    }
  }

  /** The tokens of a piece of HTML, or `None` when it is malformed. */
  function Lex(s: string): Option<seq<Token>>
    decreases |s|
  {
    if s == "" then Some([])
    else if s[0] == '<' then
      match ReadTag(s)
      case None => None
      case Some((token, rest)) => Prepend([token], Lex(rest))
    else if s[0] == '&' then
      match ReadEntity(s)
      case None => None
      case Some((c, rest)) => Prepend([Char(c)], Lex(rest))
    else Prepend([Char(s[0])], Lex(s[1..]))
  }

  // ---- Escaping is a map on characters

  lemma {:induction false} ReplaceSplit(a: string, b: string, c: char, with: string)
    ensures Replace(a + b, c, with) == Replace(a, c, with) + Replace(b, c, with)
  {
    if a == "" {
      assert a + b == b;
    } else {
      ReplaceSplit(a[1..], b, c, with);
      assert (a + b)[0] == a[0] && (a + b)[1..] == a[1..] + b;
      Regroup(if a[0] == c then with else [a[0]], Replace(a[1..], c, with), Replace(b, c, with));
    }
  }

  function EscapedChar(c: char, quote: bool): string {
    if c == '&' then "&amp;"
    else if c == '<' then "&lt;"
    else if c == '>' then "&gt;"
    else if c == '"' && quote then "&quot;"
    else if c == '\'' && quote then "&#x27;"
    else [c]
  }

  lemma {:induction false} ReplaceAbsent(s: string, c: char, with: string)
    requires c !in s
    ensures Replace(s, c, with) == s
  {
    if s != "" {
      ReplaceAbsent(s[1..], c, with);
    }
  }

  lemma ReplaceOne(c: char, d: char, with: string)
    ensures Replace([c], d, with) == if c == d then with else [c]
  {
  }

  lemma EscapeOne(c: char, quote: bool)
    ensures Escape([c], quote) == EscapedChar(c, quote)
  {
    ReplaceOne(c, '&', "&amp;");
    var e1 := Replace([c], '&', "&amp;");
    if c == '&' {
      ReplaceAbsent(e1, '<', "&lt;");
    } else {
      ReplaceOne(c, '<', "&lt;");
    }
    var e2 := Replace(e1, '<', "&lt;");
    if c == '&' || c == '<' {
      ReplaceAbsent(e2, '>', "&gt;");
    } else {
      ReplaceOne(c, '>', "&gt;");
    }
    var e3 := Replace(e2, '>', "&gt;");
    if quote {
      QuoteOne(c, e3);
    }
  }

  lemma QuoteOne(c: char, e: string)
    requires e == EscapedChar(c, false)
    ensures Replace(Replace(e, '"', "&quot;"), '\'', "&#x27;") == EscapedChar(c, true)
  {
    if c == '&' || c == '<' || c == '>' {
      ReplaceAbsent(e, '"', "&quot;");
      ReplaceAbsent(e, '\'', "&#x27;");
    } else if c == '"' {
      ReplaceOne(c, '"', "&quot;");
      var q := Replace(e, '"', "&quot;");
      ReplaceAbsent(q, '\'', "&#x27;");
    } else {
      ReplaceOne(c, '"', "&quot;");
      ReplaceOne(c, '\'', "&#x27;");
    }
  }

  lemma EscapeSplit(a: string, b: string, quote: bool)
    ensures Escape(a + b, quote) == Escape(a, quote) + Escape(b, quote)
  {
    var a1, b1 := Replace(a, '&', "&amp;"), Replace(b, '&', "&amp;");
    ReplaceSplit(a, b, '&', "&amp;");
    var a2, b2 := Replace(a1, '<', "&lt;"), Replace(b1, '<', "&lt;");
    ReplaceSplit(a1, b1, '<', "&lt;");
    var a3, b3 := Replace(a2, '>', "&gt;"), Replace(b2, '>', "&gt;");
    ReplaceSplit(a2, b2, '>', "&gt;");
    ReplaceSplit(a3, b3, '"', "&quot;");
    ReplaceSplit(Replace(a3, '"', "&quot;"), Replace(b3, '"', "&quot;"), '\'', "&#x27;");
  }

  // ---- Each piece lexes to its tokens

  lemma {:induction false} NameReads(name: string, rest: string)
    requires forall i :: 0 <= i < |name| ==> NameChar(name[i])
    requires rest != "" && !NameChar(rest[0])
    ensures ReadName(name + rest) == (name, rest)
  {
    if name == "" {
      assert name + rest == rest;
    } else {
      assert (name + rest)[1..] == name[1..] + rest;
      NameReads(name[1..], rest);
      assert name == [name[0]] + name[1..];
    }
  }

  lemma EntityReads(c: char, rest: string)
    requires c in "&<>\"'"
    ensures EscapedChar(c, true)[0] == '&'
    ensures ReadEntity(EscapedChar(c, true) + rest) == Some((c, rest))
  {
    var e := EscapedChar(c, true);
    assert (e + rest)[|e|..] == rest && (e + rest)[..|e|] == e;
    assert (e + rest)[1] == e[1] && (e + rest)[2] == e[2];
  }

  lemma {:induction false} ValueReads(value: string, rest: string)
    ensures ReadValue(Escape(value, true) + ("\"" + rest)) == Some((value, rest))
  {
    if value == "" {
      assert Escape("", true) == "";
      assert Escape(value, true) + ("\"" + rest) == "\"" + rest;
    } else {
      var c, more := value[0], value[1..];
      assert value == [c] + more;
      EscapeSplit([c], more, true);
      EscapeOne(c, true);
      ValueReads(more, rest);
      var e, after := EscapedChar(c, true), Escape(more, true) + ("\"" + rest);
      var all := e + after;
      Regroup(e, Escape(more, true), "\"" + rest);
      if c in "&<>\"'" {
        EntityReads(c, after);
      } else {
        assert all[0] == c && all[1..] == after;
      }
    }
  }

  lemma AttrLayout(name: string, value: string, more: string, tail: string)
    ensures (" " + (name + ("=\"" + (value + ("\"" + more))))) + tail
            == " " + (name + ("=\"" + (value + ("\"" + (more + tail)))))
  {
  }

  lemma {:induction false} AttrsRead(attrs: seq<Attr>, rest: string)
    requires forall i :: 0 <= i < |attrs| ==> ProperName(attrs[i].name)
    ensures ReadAttrs(AttrHtml(attrs) + (">" + rest)) == Some((attrs, rest))
  {
    var tail := ">" + rest;
    if attrs == [] {
      assert AttrHtml(attrs) + tail == tail;
    } else {
      var name, value, more := attrs[0].name, attrs[0].value, AttrHtml(attrs[1..]);
      AttrsRead(attrs[1..], rest);
      ValueReads(value, more + tail);
      AttrLayout(name, Escape(value, true), more, tail);
      ReadOneAttr(name, Escape(value, true) + ("\"" + (more + tail)));
      assert attrs == [attrs[0]] + attrs[1..];
    }
  }

  lemma ReadOneAttr(name: string, quoted: string)
    requires ProperName(name)
    ensures var all := " " + (name + ("=\"" + quoted));
            && all[0] == ' '
            && ReadName(all[1..]) == (name, "=\"" + quoted)
            && "=\"" <= "=\"" + quoted && ("=\"" + quoted)[2..] == quoted
  {
    var all := " " + (name + ("=\"" + quoted));
    assert all[1..] == name + ("=\"" + quoted);
    NameReads(name, "=\"" + quoted);
  }

  predicate ProperName(name: string) {
    name != "" && forall i :: 0 <= i < |name| ==> NameChar(name[i])
  }

  lemma OpenLexes(tag: string, attrs: seq<Attr>, rest: string)
    requires ProperName(tag) && forall i :: 0 <= i < |attrs| ==> ProperName(attrs[i].name)
    ensures Lex(OpenHtml(tag, attrs) + rest) == Prepend([Open(tag, attrs)], Lex(rest))
  {
    Regroup(AttrHtml(attrs), ">", rest);
    Regroup(tag, AttrHtml(attrs) + ">", rest);
    Regroup("<", tag + (AttrHtml(attrs) + ">"), rest);
    TagReads(tag, attrs, rest);
    var all := "<" + (tag + (AttrHtml(attrs) + (">" + rest)));
    assert OpenHtml(tag, attrs) + rest == all && all[0] == '<';
  }

  lemma TagReads(tag: string, attrs: seq<Attr>, rest: string)
    requires ProperName(tag) && forall i :: 0 <= i < |attrs| ==> ProperName(attrs[i].name)
    ensures ReadTag("<" + (tag + (AttrHtml(attrs) + (">" + rest)))) == Some((Open(tag, attrs), rest))
  {
    var tail := AttrHtml(attrs) + (">" + rest);
    var all := "<" + (tag + tail);
    assert all[1..] == tag + tail && all[1] == tag[0];
    assert tail[0] == if attrs == [] then '>' else ' ';
    NameReads(tag, tail);
    AttrsRead(attrs, rest);
  }

  lemma CloseLexes(tag: string, rest: string)
    requires ProperName(tag)
    ensures Lex(CloseHtml(tag) + rest) == Prepend([Close(tag)], Lex(rest))
  {
    var all := CloseHtml(tag) + rest;
    assert all == "</" + (tag + (">" + rest));
    assert "</" <= all && all[2..] == tag + (">" + rest);
    NameReads(tag, ">" + rest);
  }

  /** Wrapping: if the inner HTML lexes to `inner`, so does its element. */
  lemma ElementLexes(tag: string, attrs: seq<Attr>, html: string, inner: seq<Token>, rest: string)
    requires ProperName(tag) && forall i :: 0 <= i < |attrs| ==> ProperName(attrs[i].name)
    requires Lex(html + (CloseHtml(tag) + rest)) == Prepend(inner, Lex(CloseHtml(tag) + rest))
    ensures Lex(OpenHtml(tag, attrs) + html + CloseHtml(tag) + rest)
            == Prepend([Open(tag, attrs)] + inner + [Close(tag)], Lex(rest))
  {
    var tail := html + (CloseHtml(tag) + rest);
    assert OpenHtml(tag, attrs) + html + CloseHtml(tag) + rest == OpenHtml(tag, attrs) + tail;
    OpenLexes(tag, attrs, tail);
    CloseLexes(tag, rest);
    PrependTwice(inner, [Close(tag)], Lex(rest));
    PrependTwice([Open(tag, attrs)], inner + [Close(tag)], Lex(rest));
    Regroup([Open(tag, attrs)], inner, [Close(tag)]);
  }

  /** What one character of text becomes. */
  function CharHtml(c: char, inCode: bool): string {
    if c == '\n' && !inCode then "<br>" else EscapedChar(c, false)
  }

  lemma CharBreaks(c: char)
    ensures Replace(EscapedChar(c, false), '\n', "<br>") == if c == '\n' then "<br>" else EscapedChar(c, false)
  {
    if c in "&<>" {
      ReplaceAbsent(EscapedChar(c, false), '\n', "<br>");
    } else {
      ReplaceOne(c, '\n', "<br>");
    }
  }

  lemma PlainStep(c: char, more: string, inCode: bool)
    ensures PlainHtml([c] + more, inCode) == CharHtml(c, inCode) + PlainHtml(more, inCode)
  {
    EscapeSplit([c], more, false);
    EscapeOne(c, false);
    ReplaceSplit(EscapedChar(c, false), Escape(more, false), '\n', "<br>");
    CharBreaks(c);
  }

  lemma CharLexes(c: char, inCode: bool, rest: string)
    ensures Lex(CharHtml(c, inCode) + rest)
            == Prepend([if c == '\n' && !inCode then Open("br", []) else Char(c)], Lex(rest))
  {
    if c == '\n' && !inCode {
      assert OpenHtml("br", []) == "<br>";
      OpenLexes("br", [], rest);
    } else {
      var e := EscapedChar(c, false);
      if c in "&<>" {
        EntityReads(c, rest);
      } else {
        assert (e + rest)[0] == c && (e + rest)[1..] == rest;
      }
    }
  }

  lemma {:induction false} TextLexes(s: string, inCode: bool, rest: string)
    ensures Lex(PlainHtml(s, inCode) + rest) == Prepend(TextTokens(s, inCode), Lex(rest))
  {
    if s == "" {
      assert PlainHtml(s, inCode) + rest == rest;
      PrependNothing(Lex(rest));
    } else {
      assert s == [s[0]] + s[1..];
      PlainStep(s[0], s[1..], inCode);
      var tail := PlainHtml(s[1..], inCode) + rest;
      assert PlainHtml(s, inCode) + rest == CharHtml(s[0], inCode) + tail;
      CharLexes(s[0], inCode, tail);
      TextLexes(s[1..], inCode, rest);
      PrependTwice([if s[0] == '\n' && !inCode then Open("br", []) else Char(s[0])], TextTokens(s[1..], inCode),
                   Lex(rest));
    }
  }

  lemma MarkNames(mark: Json)
    requires MarkTag(mark).Some?
    ensures ProperName(MarkTag(mark).value.0)
    ensures forall i :: 0 <= i < |MarkTag(mark).value.1| ==> ProperName(MarkTag(mark).value.1[i].name)
  {
  }

  lemma {:induction false} MarkedLexes(s: string, inCode: bool, marks: seq<Json>, rest: string)
    ensures Lex(Marked(PlainHtml(s, inCode), marks) + rest)
            == Prepend(MarkedTokens(TextTokens(s, inCode), marks), Lex(rest))
  {
    if marks == [] {
      TextLexes(s, inCode, rest);
    } else if MarkTag(marks[0]).None? {
      MarkedLexes(s, inCode, marks[1..], rest);
    } else {
      var (tag, attrs) := MarkTag(marks[0]).value;
      MarkNames(marks[0]);
      MarkedLexes(s, inCode, marks[1..], CloseHtml(tag) + rest);
      ElementLexes(tag, attrs, Marked(PlainHtml(s, inCode), marks[1..]),
                   MarkedTokens(TextTokens(s, inCode), marks[1..]), rest);
    }
  }

  // ---- The whole document

  /** Lexing the HTML of any document yields exactly its tokens, in any context after it: tags come
      from the document's structure alone, and no text or attribute value can be read as a tag. */
  lemma {:induction false} HtmlLexes(node: Json, inCode: bool, rest: string)
    ensures Lex(NodeHtml(node, inCode) + rest) == Prepend(Tokens(node, inCode), Lex(rest))
    decreases node
  {
    var kind := TypeOf(node);
    var code := inCode || kind == "codeBlock";
    if kind == "text" {
      MarkedLexes(AsStr(Field(AsDict(node), "text")), inCode, Marks(node), rest);
    } else if kind in BLOCK_TAGS {
      BlockLexes(node, Children(node), BLOCK_TAGS[kind], code, rest);
    } else if kind == "heading" {
      BlockLexes(node, Children(node), HeadingTag(node), code, rest);
    } else if kind == "codeBlock" {
      CodeLexes(node, Children(node), rest);
    } else if kind == "horizontalRule" || kind == "hardBreak" || kind == "image" {
      LeafLexes(node, inCode, rest);
    } else {
      ChildrenLex(node, Children(node), code, rest);
    }
  }

  lemma LeafLexes(node: Json, inCode: bool, rest: string)
    requires TypeOf(node) in {"horizontalRule", "hardBreak", "image"}
    ensures Lex(NodeHtml(node, inCode) + rest) == Prepend(Tokens(node, inCode), Lex(rest))
  {
    var kind := TypeOf(node);
    if kind == "image" {
      if Field(Attrs(node), "src").JStr? {
        OpenLexes("img", ImageAttrs(node), rest);
      } else {
        assert NodeHtml(node, inCode) + rest == rest;
        PrependNothing(Lex(rest));
      }
    } else {
      var tag := if kind == "hardBreak" then "br" else "hr";
      assert NodeHtml(node, inCode) == OpenHtml(tag, []);
      OpenLexes(tag, [], rest);
    }
  }

  lemma {:induction false} BlockLexes(node: Json, children: seq<Json>, tag: string, inCode: bool, rest: string)
    requires forall i :: 0 <= i < |children| ==> children[i] < node
    requires ProperName(tag)
    ensures Lex(OpenHtml(tag, []) + NodesHtml(node, children, inCode) + CloseHtml(tag) + rest)
            == Prepend(Element(tag, TokensOf(node, children, inCode)), Lex(rest))
    decreases node, |children|, 1
  {
    ChildrenLex(node, children, inCode, CloseHtml(tag) + rest);
    ElementLexes(tag, [], NodesHtml(node, children, inCode), TokensOf(node, children, inCode), rest);
  }

  lemma JoinLexes(head: string, a: seq<Token>, tail: string, b: seq<Token>, rest: string)
    requires Lex(head + (tail + rest)) == Prepend(a, Lex(tail + rest)) && Lex(tail + rest) == Prepend(b, Lex(rest))
    ensures Lex(head + tail + rest) == Prepend(a + b, Lex(rest))
  {
    Regroup(head, tail, rest);
    PrependTwice(a, b, Lex(rest));
  }

  lemma {:induction false} ChildrenLex(node: Json, children: seq<Json>, inCode: bool, rest: string)
    requires forall i :: 0 <= i < |children| ==> children[i] < node
    ensures Lex(NodesHtml(node, children, inCode) + rest) == Prepend(TokensOf(node, children, inCode), Lex(rest))
    decreases node, |children|, 0
  {
    if children == [] {
      assert NodesHtml(node, children, inCode) + rest == rest;
      PrependNothing(Lex(rest));
    } else {
      HtmlLexes(children[0], inCode, NodesHtml(node, children[1..], inCode) + rest);
      ChildrenLex(node, children[1..], inCode, rest);
      JoinLexes(NodeHtml(children[0], inCode), Tokens(children[0], inCode), NodesHtml(node, children[1..], inCode),
                TokensOf(node, children[1..], inCode), rest);
    }
  }

  lemma {:induction false} CodeLexes(node: Json, children: seq<Json>, rest: string)
    requires forall i :: 0 <= i < |children| ==> children[i] < node
    ensures Lex(OpenHtml("pre", []) + (OpenHtml("code", []) + NodesHtml(node, children, true) + CloseHtml("code"))
                + CloseHtml("pre") + rest)
            == Prepend(Element("pre", Element("code", TokensOf(node, children, true))), Lex(rest))
    decreases node, |children|, 2
  {
    BlockLexes(node, children, "code", true, CloseHtml("pre") + rest);
    var code := OpenHtml("code", []) + NodesHtml(node, children, true) + CloseHtml("code");
    ElementLexes("pre", [], code, Element("code", TokensOf(node, children, true)), rest);
  }

  lemma DocumentLexes(doc: Json)
    ensures Lex(NodeHtml(doc, false)) == Some(Tokens(doc, false))
  {
    HtmlLexes(doc, false, "");
    assert NodeHtml(doc, false) + "" == NodeHtml(doc, false);
    assert Tokens(doc, false) + [] == Tokens(doc, false);
  }

  // ---- The tokens are well nested, allowed and keep the text

  const VOID_TAGS: set<string> := {"hr", "br", "img"}
  const ALLOWED_TAGS: set<string> := {"p", "h2", "h3", "strong", "em", "s", "code", "pre", "a", "ul", "ol", "li",
                                      "blockquote", "hr", "br", "img"}

  /** The sanitiser's allow-list: a known tag, with no attribute but a link's target and an image's
      source and text. */
  predicate Allowed(token: Token) {
    match token
    case Char(_) => true
    case Close(tag) => tag in ALLOWED_TAGS && tag !in VOID_TAGS
    case Open(tag, attrs) =>
      && tag in ALLOWED_TAGS
      && forall i :: 0 <= i < |attrs| ==>
           (tag == "a" && attrs[i].name == "href") || (tag == "img" && attrs[i].name in {"src", "alt"})
  }

  /** The open elements after `tokens`, innermost first, or `None` on a mismatched close. */
  function Unwind(tokens: seq<Token>, open: seq<string>): Option<seq<string>> {
    if tokens == [] then Some(open)
    else
      match tokens[0]
      case Char(_) => Unwind(tokens[1..], open)
      case Open(tag, _) => Unwind(tokens[1..], if tag in VOID_TAGS then open else [tag] + open)
      case Close(tag) => if open != [] && open[0] == tag then Unwind(tokens[1..], open[1..]) else None
  }

  /** The text a reader sees. */
  function Seen(tokens: seq<Token>): string {
    if tokens == [] then "" else Glyph(tokens[0]) + Seen(tokens[1..])
  }

  function Glyph(token: Token): string {
    match token
    case Char(c) => [c]
    case Open(tag, _) => if tag == "br" then "\n" else ""
    case Close(_) => ""
  }

  /** The text of a document: its text nodes in order, a hard break as a newline. */
  function DocumentText(node: Json): string
    decreases node
  {
    var kind := TypeOf(node);
    if kind == "text" then AsStr(Field(AsDict(node), "text"))
    else if kind == "hardBreak" then "\n"
    else if kind == "horizontalRule" || kind == "image" then ""
    else ChildrenText(node, Children(node))
  }

  function ChildrenText(node: Json, children: seq<Json>): string
    requires forall i :: 0 <= i < |children| ==> children[i] < node
    decreases node, |children|
  {
    if children == [] then "" else DocumentText(children[0]) + ChildrenText(node, children[1..])
  }

  /** A token run that is allowed throughout, closes what it opens, and shows `text`. */
  ghost predicate Shows(tokens: seq<Token>, text: string) {
    && (forall i :: 0 <= i < |tokens| ==> Allowed(tokens[i]))
    && (forall open :: Unwind(tokens, open) == Some(open))
    && Seen(tokens) == text
  }

  lemma {:induction false} SeenSplit(a: seq<Token>, b: seq<Token>)
    ensures Seen(a + b) == Seen(a) + Seen(b)
  {
    if a == [] {
      assert a + b == b;
    } else {
      SeenSplit(a[1..], b);
      assert (a + b)[0] == a[0] && (a + b)[1..] == a[1..] + b;
      Regroup(Glyph(a[0]), Seen(a[1..]), Seen(b));
    }
  }

  lemma {:induction false} UnwindSplit(a: seq<Token>, b: seq<Token>, open: seq<string>)
    ensures Unwind(a + b, open) ==
            match Unwind(a, open) case None => None case Some(left) => Unwind(b, left)
  {
    if a == [] {
      assert a + b == b;
    } else {
      assert (a + b)[0] == a[0] && (a + b)[1..] == a[1..] + b;
      match a[0]
      case Char(_) => UnwindSplit(a[1..], b, open);
      case Open(tag, _) => UnwindSplit(a[1..], b, if tag in VOID_TAGS then open else [tag] + open);
      case Close(tag) =>
        if open != [] && open[0] == tag {
          UnwindSplit(a[1..], b, open[1..]);
        }
    }
  }

  lemma ShowsJoin(a: seq<Token>, s: string, b: seq<Token>, t: string)
    requires Shows(a, s) && Shows(b, t)
    ensures Shows(a + b, s + t)
  {
    SeenSplit(a, b);
    forall open ensures Unwind(a + b, open) == Some(open) {
      UnwindSplit(a, b, open);
    }
  }

  lemma ShowsElement(tag: string, attrs: seq<Attr>, inner: seq<Token>, text: string)
    requires Shows(inner, text) && Allowed(Open(tag, attrs)) && tag !in VOID_TAGS
    ensures Shows([Open(tag, attrs)] + inner + [Close(tag)], text)
  {
    var start := [Open(tag, attrs)];
    SeenSplit(start, inner);
    SeenSplit(start + inner, [Close(tag)]);
    assert Seen(start) == "" && Seen([Close(tag)]) == "";
    forall open ensures Unwind(start + inner + [Close(tag)], open) == Some(open) {
      UnwindSplit(start, inner, open);
      UnwindSplit(start + inner, [Close(tag)], open);
      assert ([tag] + open)[1..] == open;
      assert Unwind([Close(tag)], [tag] + open) == Some(open);
    }
  }

  lemma {:induction false} TextShows(s: string, inCode: bool)
    ensures Shows(TextTokens(s, inCode), s)
  {
    if s != "" {
      TextShows(s[1..], inCode);
      var head := [if s[0] == '\n' && !inCode then Open("br", []) else Char(s[0])];
      assert head[1..] == [] && Seen(head) == Glyph(head[0]) + Seen(head[1..]) == [s[0]];
      ShowsJoin(head, [s[0]], TextTokens(s[1..], inCode), s[1..]);
      assert s == [s[0]] + s[1..];
    }
  }

  lemma {:induction false} MarkedShows(tokens: seq<Token>, marks: seq<Json>, text: string)
    requires Shows(tokens, text)
    ensures Shows(MarkedTokens(tokens, marks), text)
  {
    if marks != [] {
      MarkedShows(tokens, marks[1..], text);
      if MarkTag(marks[0]).Some? {
        var (tag, attrs) := MarkTag(marks[0]).value;
        ShowsElement(tag, attrs, MarkedTokens(tokens, marks[1..]), text);
      }
    }
  }

  /** Meaning preserved: the tokens of any document are well nested, within the allow-list, and show
      exactly its text, newlines kept inside code and shown as breaks outside it. */
  lemma {:induction false} TokensShow(node: Json, inCode: bool)
    ensures Shows(Tokens(node, inCode), DocumentText(node))
    decreases node
  {
    var kind := TypeOf(node);
    var code := inCode || kind == "codeBlock";
    if kind == "text" {
      TextShows(AsStr(Field(AsDict(node), "text")), inCode);
      MarkedShows(TextTokens(AsStr(Field(AsDict(node), "text")), inCode), Marks(node), DocumentText(node));
    } else if kind == "horizontalRule" || kind == "hardBreak" || kind == "image" {
      LeafShows(node, inCode);
    } else {
      var inner, text := TokensOf(node, Children(node), code), ChildrenText(node, Children(node));
      ChildrenShow(node, Children(node), code);
      if kind in BLOCK_TAGS {
        ShowsElement(BLOCK_TAGS[kind], [], inner, text);
      } else if kind == "heading" {
        ShowsElement(HeadingTag(node), [], inner, text);
      } else if kind == "codeBlock" {
        ShowsElement("code", [], inner, text);
        ShowsElement("pre", [], Element("code", inner), text);
      }
    }
  }

  lemma LeafShows(node: Json, inCode: bool)
    requires TypeOf(node) in {"horizontalRule", "hardBreak", "image"}
    ensures Shows(Tokens(node, inCode), DocumentText(node))
  {
    var tokens := Tokens(node, inCode);
    if tokens != [] {
      assert tokens[1..] == [] && Seen(tokens) == Glyph(tokens[0]) + Seen(tokens[1..]);
    }
  }

  lemma {:induction false} ChildrenShow(node: Json, children: seq<Json>, inCode: bool)
    requires forall i :: 0 <= i < |children| ==> children[i] < node
    ensures Shows(TokensOf(node, children, inCode), ChildrenText(node, children))
    decreases node, |children|
  {
    if children != [] {
      TokensShow(children[0], inCode);
      ChildrenShow(node, children[1..], inCode);
      ShowsJoin(Tokens(children[0], inCode), DocumentText(children[0]),
                TokensOf(node, children[1..], inCode), ChildrenText(node, children[1..]));
    }
  }

  /** The round trip end to end: the emitted HTML parses, its elements nest and are allowed, and a
      reader of it sees the document's text. */
  lemma DocumentPreserved(doc: Json)
    ensures Lex(NodeHtml(doc, false)).Some? && Shows(Lex(NodeHtml(doc, false)).value, DocumentText(doc))
  {
    DocumentLexes(doc);
    TokensShow(doc, false);
  }
}
