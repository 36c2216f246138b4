/** What of a span tree the rich rendering determines: a reader that rebuilds the tree
    from the glyphs, and the trees it restores, exactly. */
module RichTree {
  import opened RichText
  import opened Wrappers

  /** A tree up to the splitting of its text: text character by character, line breaks
      as characters, empty plain spans gone. */
  datatype Item =
    | Char(c: char)
    | CodeText(text: string)
    | Node(style: Style, children: seq<Item>)

  function Chars(text: string): seq<Item> {
    if text == "" then [] else [Char(text[0])] + Chars(text[1..])
  }

  function ItemsOfSpan(span: Span): seq<Item>
    decreases span, 1
  {
    match span
    case Plain(text) => Chars(text)
    case Code(text) => [CodeText(text)]
    case Newline => [Char('\n')]
    case Styled(style, children) => [Node(style, ItemsOf(children))]
  }

  function ItemsOf(spans: seq<Span>): seq<Item>
    decreases spans, 0
  {
    if spans == [] then [] else ItemsOfSpan(spans[0]) + ItemsOf(spans[1..])
  }

  /******* Rebuilding *******/

  /** The one of Bold and Italic that asterisks stand for. */
  type Star = s: Style | s == Bold || s == Italic witness Bold

  /** The style whose opening delimiter starts with `c`. */
  function StyleAt(c: char, star: Star): Option<Style> {
    match c
    case '*' => Some(star)
    case '|' => Some(Spoiler)
    case '<' => Some(TgSpoiler)
    case '_' => Some(Underline)
    case '~' => Some(Strikethrough)
    case '=' => Some(Marked)
    case _ => None
  }

  /** The glyphs begin with what closes `top`. */
  predicate Closes(g: seq<Glyph>, top: Option<Style>) {
    && top.Some? && g != [] && g[0] == Markup(EndDelimiter(top.value)[0])
    && (top.value.TgSpoiler? ==> |g| > 1 && g[1] == Markup('/'))
  }

  /** The length of the run of shown glyphs at the head. */
  function ShownRun(g: seq<Glyph>): (n: nat)
    ensures n <= |g|
  {
    if g == [] || g[0].Markup? then 0 else 1 + ShownRun(g[1..])
  }

  function Drop(g: seq<Glyph>, n: nat): (r: seq<Glyph>)
    ensures |r| <= |g| && (n > 0 && g != [] ==> |r| < |g|)
  {
    if n <= |g| then g[n..] else []
  }

  /** The items up to what closes `top`, and the glyphs from there on. A delimiter of
      the style that is open closes it; any other opens its own. */
  function Rebuild(g: seq<Glyph>, top: Option<Style>, star: Star): (r: (seq<Item>, seq<Glyph>))
    ensures |r.1| <= |g|
    decreases |g|
  {
    if g == [] || Closes(g, top) then ([], g)
    else if g[0].Shown? then
      var (items, rest) := Rebuild(g[1..], top, star);
      ([Char(g[0].c)] + items, rest)
    else if g[0].c == '`' then
      var n := ShownRun(g[1..]);
      var (items, rest) := Rebuild(Drop(g, n + 2), top, star);
      ([CodeText(ShownText(g[1..][..n]))] + items, rest)
    else if StyleAt(g[0].c, star).None? then Rebuild(g[1..], top, star)
    else
      var style := StyleAt(g[0].c, star).value;
      var (children, after) := Rebuild(Drop(g, |Delimiter(style)|), Some(style), star);
      var (items, rest) := Rebuild(Drop(after, |EndDelimiter(style)|), top, star);
      ([Node(style, children)] + items, rest)
  }

  /** The tree behind a rich text. */
  function TreeOf(text: string, star: Star): seq<Item> {
    Rebuild(Read(Text, text).1, None, star).0
  }

  /******* The trees that can be restored *******/

  /** No span has a child of its own style, hidden-text tags apart, and asterisks stand
      for one style only. */
  predicate Plainly(items: seq<Item>, top: Option<Style>, star: Star)
    decreases items, 0
  {
    forall item <- items :: PlainlyItem(item, top, star)
  }

  predicate PlainlyItem(item: Item, top: Option<Style>, star: Star)
    decreases item, 1
  {
    item.Node? ==>
      && (item.style.TgSpoiler? || top != Some(item.style))
      && (item.style.Bold? || item.style.Italic? ==> item.style == star)
      && Plainly(item.children, Some(item.style), star)
  }

  lemma ConsPlainly(head: Item, rest: seq<Item>, top: Option<Style>, star: Star)
    requires PlainlyItem(head, top, star) && Plainly(rest, top, star)
    ensures Plainly([head] + rest, top, star)
  {
  }

  lemma OpensPlainly(g: seq<Glyph>, top: Option<Style>, star: Star, style: Style, children: seq<Item>)
    requires g != [] && !Closes(g, top) && g[0].Markup? && StyleAt(g[0].c, star) == Some(style)
    requires Plainly(children, Some(style), star)
    ensures PlainlyItem(Node(style, children), top, star)
  {
  }

  /** Whatever it reads, the reader builds no other tree. */
  lemma {:induction false} RebuildsPlainly(g: seq<Glyph>, top: Option<Style>, star: Star)
    ensures Plainly(Rebuild(g, top, star).0, top, star)
    decreases |g|
  {
    if g == [] || Closes(g, top) {
    } else if g[0].Shown? {
      RebuildsPlainly(g[1..], top, star);
      ConsPlainly(Char(g[0].c), Rebuild(g[1..], top, star).0, top, star);
    } else if g[0].c == '`' {
      var n := ShownRun(g[1..]);
      RebuildsPlainly(Drop(g, n + 2), top, star);
      ConsPlainly(CodeText(ShownText(g[1..][..n])), Rebuild(Drop(g, n + 2), top, star).0, top, star);
    } else if StyleAt(g[0].c, star).None? {
      RebuildsPlainly(g[1..], top, star);
    } else {
      RebuildsStyledPlainly(g, top, star);
    }
  }

  lemma {:induction false} RebuildsStyledPlainly(g: seq<Glyph>, top: Option<Style>, star: Star)
    requires g != [] && !Closes(g, top) && g[0].Markup? && g[0].c != '`' && StyleAt(g[0].c, star).Some?
    ensures Plainly(Rebuild(g, top, star).0, top, star)
    decreases |g|, 0
  {
    var style := StyleAt(g[0].c, star).value;
    var (children, after) := Rebuild(Drop(g, |Delimiter(style)|), Some(style), star);
    RebuildsPlainly(Drop(g, |Delimiter(style)|), Some(style), star);
    RebuildsPlainly(Drop(after, |EndDelimiter(style)|), top, star);
    OpensPlainly(g, top, star, style, children);
    ConsPlainly(Node(style, children), Rebuild(Drop(after, |EndDelimiter(style)|), top, star).0, top, star);
  }

  /******* The round trip *******/

  lemma RebuildChar(c: char, g: seq<Glyph>, top: Option<Style>, star: Star)
    ensures var (items, rest) := Rebuild(g, top, star);
      Rebuild([Shown(c)] + g, top, star) == ([Char(c)] + items, rest)
  {
    assert ([Shown(c)] + g)[1..] == g;
  }

  lemma {:induction false} RebuildShown(text: string, g: seq<Glyph>, top: Option<Style>, star: Star)
    ensures var (items, rest) := Rebuild(g, top, star);
      Rebuild(AllShown(text) + g, top, star) == (Chars(text) + items, rest)
  {
    if text == "" {
      assert AllShown(text) + g == g;
      assert [] + Rebuild(g, top, star).0 == Rebuild(g, top, star).0;
    } else {
      var tail := AllShown(text[1..]) + g;
      assert AllShown(text) + g == [Shown(text[0])] + tail;
      RebuildShown(text[1..], g, top, star);
      RebuildChar(text[0], tail, top, star);
      Associative([Char(text[0])], Chars(text[1..]), Rebuild(g, top, star).0);
    }
  }

  lemma {:induction false} RunOfShown(text: string, g: seq<Glyph>)
    requires g != [] && g[0].Markup?
    ensures ShownRun(AllShown(text) + g) == |text|
  {
    if text == "" {
      assert AllShown(text) + g == g;
    } else {
      assert (AllShown(text) + g)[1..] == AllShown(text[1..]) + g;
      RunOfShown(text[1..], g);
    }
  }

  /** One code span, whatever its text. */
  lemma RebuildCode(text: string, g: seq<Glyph>, top: Option<Style>, star: Star)
    ensures var (items, rest) := Rebuild(g, top, star);
      Rebuild(GlyphsOfSpan(Code(text)) + g, top, star) == ([CodeText(text)] + items, rest)
  {
    var (body, tail) := (AllShown(text), AllMarkup("`") + g);
    var all := [Markup('`')] + (body + tail);
    assert AllMarkup("`") == [Markup('`')];
    assert GlyphsOfSpan(Code(text)) + g == all;
    TickNeverCloses(all, top);
    RunOfShown(text, tail);
    assert all[1..] == body + tail;
    assert all[1..][..|text|] == body;
    ShownOfText(text);
    assert Drop(all, |text| + 2) == g by {
      assert all == ([Markup('`')] + body + [Markup('`')]) + g;
    }
  }

  lemma TickNeverCloses(g: seq<Glyph>, top: Option<Style>)
    requires g != [] && g[0] == Markup('`')
    ensures !Closes(g, top)
  {
  }

  /** The glyphs of a closing delimiter, and what follows. */
  predicate Stops(g: seq<Glyph>, top: Option<Style>) {
    g == [] || Closes(g, top)
  }

  predicate TopOk(top: Option<Style>, star: Star) {
    top.Some? && (top.value.Bold? || top.value.Italic?) ==> top.value == star
  }

  lemma ClosingCloses(style: Style, g: seq<Glyph>)
    ensures Closes(AllMarkup(EndDelimiter(style)) + g, Some(style))
    ensures Drop(AllMarkup(EndDelimiter(style)) + g, |EndDelimiter(style)|) == g
  {
  }

  lemma OpeningOpens(style: Style, g: seq<Glyph>, top: Option<Style>, star: Star)
    requires style.TgSpoiler? || top != Some(style)
    requires style.Bold? || style.Italic? ==> style == star
    requires TopOk(top, star)
    ensures var all := AllMarkup(Delimiter(style)) + g;
      && all != [] && !Closes(all, top) && all[0].Markup? && all[0].c != '`'
      && StyleAt(all[0].c, star) == Some(style) && Drop(all, |Delimiter(style)|) == g
  {
  }

  /** A styled span, given that its children are rebuilt up to its closing delimiter. */
  lemma RebuildStyled(style: Style, inner: seq<Glyph>, items: seq<Item>, g: seq<Glyph>, top: Option<Style>, star: Star)
    requires style.TgSpoiler? || top != Some(style)
    requires (style.Bold? || style.Italic? ==> style == star) && TopOk(top, star)
    requires var tail := AllMarkup(EndDelimiter(style)) + g;
      Rebuild(inner + tail, Some(style), star) == (items, tail)
    ensures var (more, rest) := Rebuild(g, top, star);
      Rebuild(AllMarkup(Delimiter(style)) + (inner + (AllMarkup(EndDelimiter(style)) + g)), top, star)
        == ([Node(style, items)] + more, rest)
  {
    var tail := AllMarkup(EndDelimiter(style)) + g;
    ClosingCloses(style, g);
    OpeningOpens(style, inner + tail, top, star);
  }

  lemma StyledGlyphs(style: Style, children: seq<Span>, g: seq<Glyph>)
    ensures GlyphsOfSpan(Styled(style, children)) + g
      == AllMarkup(Delimiter(style)) + (GlyphsOf(children) + (AllMarkup(EndDelimiter(style)) + g))
  {
    var (a, b, c) := (AllMarkup(Delimiter(style)), GlyphsOf(children), AllMarkup(EndDelimiter(style)));
    assert (a + b + c) + g == a + (b + (c + g));
  }

  lemma {:induction false} RebuildSpan(span: Span, g: seq<Glyph>, top: Option<Style>, star: Star)
    requires Plainly(ItemsOfSpan(span), top, star) && TopOk(top, star)
    ensures var (items, rest) := Rebuild(g, top, star);
      Rebuild(GlyphsOfSpan(span) + g, top, star) == (ItemsOfSpan(span) + items, rest)
    decreases span, 1
  {
    match span
    case Plain(text) => RebuildShown(text, g, top, star);
    case Code(text) => RebuildCode(text, g, top, star);
    case Newline =>
      RebuildChar('\n', g, top, star);
      assert GlyphsOfSpan(Newline) == [Shown('\n')];
    case Styled(style, children) =>
      assert PlainlyItem(ItemsOfSpan(span)[0], top, star);
      ClosingCloses(style, g);
      RebuildSpans(children, AllMarkup(EndDelimiter(style)) + g, Some(style), star);
      RebuildStyled(style, GlyphsOf(children), ItemsOf(children), g, top, star);
      StyledGlyphs(style, children, g);
  }

  lemma {:induction false} RebuildSpans(spans: seq<Span>, g: seq<Glyph>, top: Option<Style>, star: Star)
    requires Plainly(ItemsOf(spans), top, star) && TopOk(top, star) && Stops(g, top)
    ensures Rebuild(GlyphsOf(spans) + g, top, star) == (ItemsOf(spans), g)
    decreases spans, 0
  {
    if spans == [] {
      assert GlyphsOf(spans) + g == g;
    } else {
      var (head, tail) := (ItemsOfSpan(spans[0]), ItemsOf(spans[1..]));
      assert forall item <- head + tail :: PlainlyItem(item, top, star);
      RebuildSpans(spans[1..], g, top, star);
      RebuildSpan(spans[0], GlyphsOf(spans[1..]) + g, top, star);
      Associative(GlyphsOfSpan(spans[0]), GlyphsOf(spans[1..]), g);
    }
  }

  /** The tree behind a rich rendering is the tree rendered, up to the splitting of its
      text, if and only if no span has a child of its own style and asterisks stand for
      one style. */
  lemma RestoresExactlyWhen(spans: seq<Span>, star: Star)
    ensures TreeOf(RenderRich(spans), star) == ItemsOf(spans) <==> Plainly(ItemsOf(spans), None, star)
  {
    ReadSpans(spans);
    RebuildsPlainly(GlyphsOf(spans), None, star);
    if Plainly(ItemsOf(spans), None, star) {
      RebuildSpans(spans, [], None, star);
      assert GlyphsOf(spans) + [] == GlyphsOf(spans);
    }
  }

  /******* Splitting text changes nothing *******/

  function RenderItem(item: Item): string
    decreases item, 1
  {
    match item
    case Char(c) => EscapeRich([c])
    case CodeText(text) => "`" + EscapeRichCode(text) + "`"
    case Node(style, children) => Opening(style) + RenderItems(children) + Closing(style)
  }

  function RenderItems(items: seq<Item>): string
    decreases items, 0
  {
    if items == [] then "" else RenderItem(items[0]) + RenderItems(items[1..])
  }

  lemma {:induction false} RenderItemsConcat(a: seq<Item>, b: seq<Item>)
    ensures RenderItems(a + b) == RenderItems(a) + RenderItems(b)
  {
    if a == [] {
      assert a + b == b;
    } else {
      ConcatTail(a, b);
      RenderItemsConcat(a[1..], b);
      Associative(RenderItem(a[0]), RenderItems(a[1..]), RenderItems(b));
    }
  }

  lemma OneItem(item: Item)
    ensures RenderItems([item]) == RenderItem(item)
  {
    assert RenderItems([item]) == RenderItem(item) + "";
  }

  lemma {:induction false} RenderChars(text: string)
    ensures RenderItems(Chars(text)) == EscapeRich(text)
  {
    if text != "" {
      RenderChars(text[1..]);
      RenderItemsConcat([Char(text[0])], Chars(text[1..]));
      OneItem(Char(text[0]));
      assert [text[0]][1..] == "";
      assert EscapeRich([text[0]]) + EscapeRich(text[1..]) == EscapeRich(text);
    }
  }

  lemma {:induction false} SpanRendersItems(span: Span)
    ensures RenderRichSpan(span) == RenderItems(ItemsOfSpan(span))
    decreases span, 1
  {
    match span
    case Plain(text) => RenderChars(text);
    case Code(text) => OneItem(CodeText(text));
    case Newline => OneItem(Char('\n')); assert "\n"[1..] == "";
    case Styled(style, children) =>
      SpansRenderItems(children);
      OneItem(Node(style, ItemsOf(children)));
  }

  lemma {:induction false} SpansRenderItems(spans: seq<Span>)
    ensures RenderRich(spans) == RenderItems(ItemsOf(spans))
    decreases spans, 0
  {
    if spans != [] {
      SpanRendersItems(spans[0]);
      SpansRenderItems(spans[1..]);
      RenderItemsConcat(ItemsOfSpan(spans[0]), ItemsOf(spans[1..]));
    }
  }

  /** Among trees that can be restored, renderings are equal if and only if the trees
      are, up to the splitting of their text. */
  lemma RenderingIsInjective(spans: seq<Span>, others: seq<Span>, star: Star)
    requires Plainly(ItemsOf(spans), None, star) && Plainly(ItemsOf(others), None, star)
    ensures RenderRich(spans) == RenderRich(others) <==> ItemsOf(spans) == ItemsOf(others)
  {
    RestoresExactlyWhen(spans, star);
    RestoresExactlyWhen(others, star);
    SpansRenderItems(spans);
    SpansRenderItems(others);
  }

  /******* The others collide *******/

  lemma {:induction false} RenderRichConcat(a: seq<Span>, b: seq<Span>)
    ensures RenderRich(a + b) == RenderRich(a) + RenderRich(b)
  {
    if a == [] {
      assert a + b == b;
    } else {
      ConcatTail(a, b);
      RenderRichConcat(a[1..], b);
      Associative(RenderRichSpan(a[0]), RenderRich(a[1..]), RenderRich(b));
    }
  }

  lemma {:induction false} ItemsConcat(a: seq<Span>, b: seq<Span>)
    ensures ItemsOf(a + b) == ItemsOf(a) + ItemsOf(b)
  {
    if a == [] {
      assert a + b == b;
    } else {
      ConcatTail(a, b);
      ItemsConcat(a[1..], b);
      Associative(ItemsOfSpan(a[0]), ItemsOf(a[1..]), ItemsOf(b));
    }
  }

  lemma OneSpan(span: Span)
    ensures RenderRich([span]) == RenderRichSpan(span) && ItemsOf([span]) == ItemsOfSpan(span)
  {
    assert RenderRich([span]) == RenderRichSpan(span) + "";
    assert ItemsOf([span]) == ItemsOfSpan(span) + [];
  }

  lemma Rendered3(a: seq<Span>, span: Span, c: seq<Span>)
    ensures RenderRich(a + [span] + c) == RenderRich(a) + RenderRichSpan(span) + RenderRich(c)
  {
    RenderRichConcat(a + [span], c);
    RenderRichConcat(a, [span]);
    OneSpan(span);
  }

  /** Any two delimiters in the middle may be seen as closing and opening again. */
  lemma Regroup(o: string, x: string, y: string, z: string)
    ensures o + (x + (o + y + o) + z) + o == (o + x + o) + y + (o + z + o)
  {
  }

  lemma OneAgainstMore(span: Span, first: Span, middle: seq<Span>, last: Span)
    requires span.Styled? && first.Styled? && last.Styled?
    ensures ItemsOf([span]) != ItemsOf([first] + middle + [last])
  {
    OneSpan(span);
    OneSpan(first);
    OneSpan(last);
    ItemsConcat([first] + middle, [last]);
    ItemsConcat([first], middle);
  }

  /** A span with a child of its own style, hidden-text tags apart, always prints as a
      different tree: the inner span's delimiters close the outer one and open it again. */
  lemma OwnChildCollides(style: Style, a: seq<Span>, b: seq<Span>, c: seq<Span>)
    requires !style.TgSpoiler?
    ensures var nested := [Styled(style, a + [Styled(style, b)] + c)];
      var flat := [Styled(style, a)] + b + [Styled(style, c)];
      RenderRich(nested) == RenderRich(flat) && ItemsOf(nested) != ItemsOf(flat)
  {
    var (outer, p, q) := (Styled(style, a + [Styled(style, b)] + c), Styled(style, a), Styled(style, c));
    OneSpan(outer);
    Rendered3(a, Styled(style, b), c);
    OneSpan(p);
    OneSpan(q);
    RenderRichConcat([p] + b, [q]);
    RenderRichConcat([p], b);
    Regroup(Opening(style), RenderRich(a), RenderRich(b), RenderRich(c));
    OneAgainstMore(outer, p, b, q);
  }

  /** And bold always prints as a tree in italics, two empty spans around the text. */
  lemma BoldPrintsAsItalics(a: seq<Span>)
    ensures var (bold, italics) := ([Styled(Bold, a)], [Styled(Italic, [])] + a + [Styled(Italic, [])]);
      RenderRich(bold) == RenderRich(italics) && ItemsOf(bold) != ItemsOf(italics)
  {
    var (outer, empty) := (Styled(Bold, a), Styled(Italic, []));
    OneSpan(outer);
    OneSpan(empty);
    RenderRichConcat([empty] + a, [empty]);
    RenderRichConcat([empty], a);
    assert RenderRichSpan(empty) == "**";
    OneAgainstMore(outer, empty, a, empty);
  }
}
