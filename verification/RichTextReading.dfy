/** What a reader of the emitted HTML finds, against the stored document itself: every element and every
    character, in reading order, with the elements it stands in. The document's side reads the JSON and a
    literal table of tags, and shares nothing with the compiler. */
module RichTextReading {
  import opened Basics
  import opened RichTextHtml

  /** An opened element or a character, and the elements around it, outermost first. */
  datatype Ink = Ink(what: Token, within: seq<Token>)

  // ---- The HTML's side

  function Scan(tokens: seq<Token>, within: seq<Token>): seq<Ink> {
    if tokens == [] then []
    else
      match tokens[0]
      case Char(_) => [Ink(tokens[0], within)] + Scan(tokens[1..], within)
      case Open(tag, _) =>
        [Ink(tokens[0], within)]
        + Scan(tokens[1..], if tag in {"hr", "br", "img"} then within else within + [tokens[0]])
      case Close(_) => Scan(tokens[1..], if within == [] then [] else Init(within))
  }

  // ---- The document's side

  function Member(v: Json, key: string): Json {
    if v.JObj? && key in v.fields then v.fields[key] else JNull
  }

  function Str(v: Json): string {
    if v.JStr? then v.str else ""
  }

  function Kids(node: Json): (kids: seq<Json>)
    ensures forall i :: 0 <= i < |kids| ==> kids[i] < node
  {
    if node.JObj? && "content" in node.fields && node.fields["content"].JList? then node.fields["content"].items else []
  }

  /** The element a mark puts around its text: a link to the `href` of its attributes, or plain. */
  function MarkElement(mark: Json): Option<Token> {
    match Str(Member(mark, "type"))
    case "link" => Some(Open("a", [Attr("href", Str(Member(Member(mark, "attrs"), "href")))]))
    case "bold" => Some(Open("strong", []))
    case "italic" => Some(Open("em", []))
    case "strike" => Some(Open("s", []))
    case "code" => Some(Open("code", []))
    case _ => None
  }

  /** The elements a node puts around its children, outermost first. */
  function Around(node: Json): seq<Token> {
    match Str(Member(node, "type"))
    case "paragraph" => [Open("p", [])]
    case "blockquote" => [Open("blockquote", [])]
    case "bulletList" => [Open("ul", [])]
    case "orderedList" => [Open("ol", [])]
    case "listItem" => [Open("li", [])]
    case "heading" =>
      var level := Member(Member(node, "attrs"), "level");
      [Open(if level.JInt? && 3 <= level.num then "h3" else "h2", [])]
    case "codeBlock" => [Open("pre", []), Open("code", [])]
    case _ => []
  }

  /** An image shows only with a source, and says its text only when there is some. */
  function Picture(node: Json): seq<Token> {
    var src, alt := Member(Member(node, "attrs"), "src"), Str(Member(Member(node, "attrs"), "alt"));
    if !src.JStr? then []
    else if alt == "" then [Open("img", [Attr("src", src.str)])]
    else [Open("img", [Attr("src", src.str), Attr("alt", alt)])]
  }

  function DrawnText(s: string, within: seq<Token>, inCode: bool): seq<Ink> {
    if s == "" then []
    else
      var token := if s[0] == '\n' && !inCode then Open("br", []) else Char(s[0]);
      [Ink(token, within)] + DrawnText(s[1..], within, inCode)
  }

  function DrawnMarked(s: string, marks: seq<Json>, within: seq<Token>, inCode: bool): seq<Ink> {
    if marks == [] then DrawnText(s, within, inCode)
    else
      match MarkElement(marks[0])
      case None => DrawnMarked(s, marks[1..], within, inCode)
      case Some(element) => [Ink(element, within)] + DrawnMarked(s, marks[1..], within + [element], inCode)
  }

  /** Elements opened one inside the other. */
  function DrawnOpen(elements: seq<Token>, within: seq<Token>): seq<Ink> {
    if elements == [] then [] else [Ink(elements[0], within)] + DrawnOpen(elements[1..], within + [elements[0]])
  }

  function Drawn(node: Json, within: seq<Token>, inCode: bool): seq<Ink>
    decreases node
  {
    match Str(Member(node, "type"))
    case "text" =>
      var marks := Member(node, "marks");
      DrawnMarked(Str(Member(node, "text")), if marks.JList? then marks.items else [], within, inCode)
    case "horizontalRule" => [Ink(Open("hr", []), within)]
    case "hardBreak" => [Ink(Open("br", []), within)]
    case "image" => DrawnOpen(Picture(node), within)
    case kind =>
      var around := Around(node);
      DrawnOpen(around, within) + DrawnKids(node, Kids(node), within + around, inCode || kind == "codeBlock")
  }

  function DrawnKids(node: Json, kids: seq<Json>, within: seq<Token>, inCode: bool): seq<Ink>
    requires forall i :: 0 <= i < |kids| ==> kids[i] < node
    decreases node, |kids|
  {
    if kids == [] then [] else Drawn(kids[0], within, inCode) + DrawnKids(node, kids[1..], within, inCode)
  }

  // ---- The two sides agree

  /** Read anywhere, the tokens draw `inks` and leave the elements around them as they were. */
  ghost predicate Draws(tokens: seq<Token>, within: seq<Token>, inks: seq<Ink>) {
    forall rest :: Scan(tokens + rest, within) == inks + Scan(rest, within)
  }

  lemma DrawsNothing(within: seq<Token>)
    ensures Draws([], within, [])
  {
    forall rest ensures Scan([] + rest, within) == [] + Scan(rest, within) {
      assert [] + rest == rest;
    }
  }

  lemma DrawsJoin(a: seq<Token>, i: seq<Ink>, b: seq<Token>, j: seq<Ink>, within: seq<Token>)
    requires Draws(a, within, i) && Draws(b, within, j)
    ensures Draws(a + b, within, i + j)
  {
    forall rest ensures Scan(a + b + rest, within) == i + j + Scan(rest, within) {
      Regroup(a, b, rest);
      assert Scan(a + (b + rest), within) == i + Scan(b + rest, within);
      Regroup(i, j, Scan(rest, within));
    }
  }

  lemma DrawsOne(token: Token, within: seq<Token>)
    requires token.Char? || (token.Open? && token.tag in {"hr", "br", "img"})
    ensures Draws([token], within, [Ink(token, within)])
  {
    forall rest ensures Scan([token] + rest, within) == [Ink(token, within)] + Scan(rest, within) {
      assert ([token] + rest)[1..] == rest;
    }
  }

  lemma DrawsElement(tag: string, attrs: seq<Attr>, inner: seq<Token>, inks: seq<Ink>, within: seq<Token>)
    requires tag !in {"hr", "br", "img"} && Draws(inner, within + [Open(tag, attrs)], inks)
    ensures Draws([Open(tag, attrs)] + inner + [Close(tag)], within, [Ink(Open(tag, attrs), within)] + inks)
  {
    var start, end := Open(tag, attrs), [Close(tag)];
    forall rest ensures Scan([start] + inner + end + rest, within) == [Ink(start, within)] + inks + Scan(rest, within) {
      var tail := inner + (end + rest);
      assert [start] + inner + end + rest == [start] + tail;
      assert ([start] + tail)[0] == start && ([start] + tail)[1..] == tail;
      assert Scan(tail, within + [start]) == inks + Scan(end + rest, within + [start]);
      assert (end + rest)[0] == Close(tag) && (end + rest)[1..] == rest && Init(within + [start]) == within;
      Regroup([Ink(start, within)], inks, Scan(rest, within));
    }
  }

  lemma {:induction false} TextDraws(s: string, within: seq<Token>, inCode: bool)
    ensures Draws(TextTokens(s, inCode), within, DrawnText(s, within, inCode))
  {
    if s == "" {
      DrawsNothing(within);
    } else {
      var token := if s[0] == '\n' && !inCode then Open("br", []) else Char(s[0]);
      TextDraws(s[1..], within, inCode);
      DrawsOne(token, within);
      DrawsJoin([token], [Ink(token, within)], TextTokens(s[1..], inCode), DrawnText(s[1..], within, inCode), within);
    }
  }

  lemma MarksAgree(mark: Json)
    ensures match MarkTag(mark)
            case None => MarkElement(mark).None?
            case Some((tag, attrs)) => MarkElement(mark) == Some(Open(tag, attrs)) && tag !in {"hr", "br", "img"}
  {
  }

  lemma {:induction false} MarkedDraws(s: string, marks: seq<Json>, within: seq<Token>, inCode: bool)
    ensures Draws(MarkedTokens(TextTokens(s, inCode), marks), within, DrawnMarked(s, marks, within, inCode))
  {
    if marks == [] {
      TextDraws(s, within, inCode);
    } else {
      MarksAgree(marks[0]);
      match MarkTag(marks[0])
      case None => MarkedDraws(s, marks[1..], within, inCode);
      case Some((tag, attrs)) =>
        MarkedDraws(s, marks[1..], within + [Open(tag, attrs)], inCode);
        DrawsElement(tag, attrs, MarkedTokens(TextTokens(s, inCode), marks[1..]),
                     DrawnMarked(s, marks[1..], within + [Open(tag, attrs)], inCode), within);
    }
  }

  lemma ContainersAgree(node: Json)
    ensures TypeOf(node) in BLOCK_TAGS ==> Around(node) == [Open(BLOCK_TAGS[TypeOf(node)], [])]
    ensures TypeOf(node) == "heading" ==> Around(node) == [Open(HeadingTag(node), [])]
    ensures TypeOf(node) in BLOCK_TAGS ==> BLOCK_TAGS[TypeOf(node)] !in {"hr", "br", "img"}
    ensures TypeOf(node) !in BLOCK_TAGS && TypeOf(node) !in {"heading", "codeBlock"} ==> Around(node) == []
    ensures TypeOf(node) == Str(Member(node, "type")) && Children(node) == Kids(node)
  {
  }

  lemma OneAround(element: Token, within: seq<Token>)
    ensures DrawnOpen([element], within) == [Ink(element, within)]
  {
    assert DrawnOpen([element], within) == [Ink(element, within)] + DrawnOpen([], within + [element]);
  }

  lemma PicturesAgree(node: Json)
    requires TypeOf(node) == "image"
    ensures Tokens(node, false) == Tokens(node, true) == Picture(node)
    ensures |Picture(node)| <= 1 && (Picture(node) != [] ==> Picture(node)[0].Open? && Picture(node)[0].tag == "img")
  {
    var attrs := Member(Member(node, "attrs"), "src");
    assert attrs == Field(Attrs(node), "src");
    assert Str(Member(Member(node, "attrs"), "alt")) == AsStr(Field(Attrs(node), "alt"));
    if attrs.JStr? {
      var alt := AsStr(Field(Attrs(node), "alt"));
      assert ImageAttrs(node)
          == if alt == "" then [Attr("src", attrs.str)] else [Attr("src", attrs.str), Attr("alt", alt)];
    }
  }

  lemma LeafDraws(node: Json, within: seq<Token>, inCode: bool)
    requires TypeOf(node) in {"horizontalRule", "hardBreak", "image"}
    ensures Draws(Tokens(node, inCode), within, Drawn(node, within, inCode))
  {
    ContainersAgree(node);
    if TypeOf(node) == "image" {
      PicturesAgree(node);
      PictureDraws(Picture(node), within);
    } else {
      DrawsOne(Open(if TypeOf(node) == "hardBreak" then "br" else "hr", []), within);
    }
  }

  lemma PictureDraws(picture: seq<Token>, within: seq<Token>)
    requires |picture| <= 1 && (picture != [] ==> picture[0].Open? && picture[0].tag == "img")
    ensures Draws(picture, within, DrawnOpen(picture, within))
  {
    if picture == [] {
      DrawsNothing(within);
    } else {
      assert picture == [picture[0]];
      DrawsOne(picture[0], within);
      OneAround(picture[0], within);
    }
  }

  lemma CodeAround(within: seq<Token>)
    ensures var pre, code := Open("pre", []), Open("code", []);
            DrawnOpen([pre, code], within) == [Ink(pre, within)] + [Ink(code, within + [pre])]
  {
    var pre, code := Open("pre", []), Open("code", []);
    assert [pre, code][1..] == [code];
    OneAround(code, within + [pre]);
  }

  /** What the reader of any node's tokens finds is what the document says, in any place. */
  lemma {:induction false} NodeDraws(node: Json, within: seq<Token>, inCode: bool)
    ensures Draws(Tokens(node, inCode), within, Drawn(node, within, inCode))
    decreases node
  {
    var kind := TypeOf(node);
    ContainersAgree(node);
    if kind == "text" {
      MarkedDraws(AsStr(Field(AsDict(node), "text")), Marks(node), within, inCode);
    } else if kind in {"horizontalRule", "hardBreak", "image"} {
      LeafDraws(node, within, inCode);
    } else {
      ContainerDraws(node, Children(node), within, inCode);
    }
  }

  lemma {:induction false} ContainerDraws(node: Json, kids: seq<Json>, within: seq<Token>, inCode: bool)
    requires kids == Kids(node) && TypeOf(node) !in {"text", "horizontalRule", "hardBreak", "image"}
    ensures Draws(Tokens(node, inCode), within, Drawn(node, within, inCode))
    decreases node, |kids|, 1
  {
    var kind, around := TypeOf(node), Around(node);
    var code := inCode || kind == "codeBlock";
    var inner, inks := TokensOf(node, kids, code), DrawnKids(node, kids, within + around, code);
    ContainersAgree(node);
    KidsDraw(node, kids, within + around, code);
    if kind == "codeBlock" {
      var pre, element := Open("pre", []), Open("code", []);
      CodeAround(within);
      assert within + around == within + [pre] + [element];
      DrawsElement("code", [], inner, inks, within + [pre]);
      DrawsElement("pre", [], Element("code", inner), [Ink(element, within + [pre])] + inks, within);
      Regroup([Ink(pre, within)], [Ink(element, within + [pre])], inks);
    } else if around != [] {
      OneAround(around[0], within);
      DrawsElement(around[0].tag, [], inner, inks, within);
    } else {
      assert within + around == within && DrawnOpen(around, within) + inks == inks;
    }
  }

  lemma {:induction false} KidsDraw(node: Json, kids: seq<Json>, within: seq<Token>, inCode: bool)
    requires forall i :: 0 <= i < |kids| ==> kids[i] < node
    ensures Draws(TokensOf(node, kids, inCode), within, DrawnKids(node, kids, within, inCode))
    decreases node, |kids|, 0
  {
    if kids == [] {
      DrawsNothing(within);
    } else {
      NodeDraws(kids[0], within, inCode);
      KidsDraw(node, kids[1..], within, inCode);
      DrawsJoin(Tokens(kids[0], inCode), Drawn(kids[0], within, inCode),
                TokensOf(node, kids[1..], inCode), DrawnKids(node, kids[1..], within, inCode), within);
    }
  }

  /** Reading the emitted HTML finds exactly what the document says: every element its nodes and marks name,
      links with their targets and images with theirs, and every character, each inside exactly the elements
      its ancestors and marks name, outermost first. */
  lemma DocumentReads(doc: Json)
    ensures Lex(NodeHtml(doc, false)).Some? && Scan(Lex(NodeHtml(doc, false)).value, []) == Drawn(doc, [], false)
  {
    DocumentLexes(doc);
    NodeDraws(doc, [], false);
    var tokens := Tokens(doc, false);
    assert tokens + [] == tokens && Scan(tokens + [], []) == Drawn(doc, [], false) + Scan([], []);
  }
}
