/** The span renderer of services/send_pretty.py for its rich and plain backends, and
    a one-pass reader of rich markup. Quote, table, list, link, heading, math, emoji,
    details and raw spans are not part of this model. */
module RichText {

  datatype Style = Bold | Italic | Spoiler | TgSpoiler | Underline | Strikethrough | Marked

  datatype Span =
    | Plain(text: string)
    | Code(text: string)
    | Newline
    | Styled(style: Style, children: seq<Span>)

  /******* Escaping *******/

  /** The characters of `_RICH_ESCAPE_RE`. */
  const RICH_SPECIAL := "\\*_~|`[]()#><=-+.!"

  /** `_escape_rich`: a backslash before every special character. */
  function EscapeRich(text: string): string {
    if text == "" then ""
    else (if text[0] in RICH_SPECIAL then ['\\', text[0]] else [text[0]]) + EscapeRich(text[1..])
  }

  /** `str.replace` for a one-character pattern. */
  function Replace(text: string, c: char, sub: string): string {
    if text == "" then ""
    else (if text[0] == c then sub else [text[0]]) + Replace(text[1..], c, sub)
  }

  /** `_escape_rich_code`: two passes, backslashes first. */
  function EscapeRichCode(text: string): string {
    Replace(Replace(text, '\\', "\\\\"), '`', "\\`")
  }

  /******* Rendering *******/

  function Opening(style: Style): string {
    match style
    case Bold => "**"
    case Italic => "*"
    case Spoiler => "||"
    case TgSpoiler => "<tg-spoiler>"
    case Underline => "__"
    case Strikethrough => "~~"
    case Marked => "=="
  }

  function Closing(style: Style): string {
    if style.TgSpoiler? then "</tg-spoiler>" else Opening(style)
  }

  function RenderRichSpan(span: Span): string
    decreases span, 1
  {
    match span
    case Plain(text) => EscapeRich(text)
    case Code(text) => "`" + EscapeRichCode(text) + "`"
    case Newline => "\n"
    case Styled(style, children) => Opening(style) + RenderRich(children) + Closing(style)
  }

  function RenderRich(spans: seq<Span>): string
    decreases spans, 0
  {
    if spans == [] then "" else RenderRichSpan(spans[0]) + RenderRich(spans[1..])
  }

  function RenderPlainSpan(span: Span): string
    decreases span, 1
  {
    match span
    case Plain(text) => text
    case Code(text) => text
    case Newline => "\n"
    case Styled(_, children) => RenderPlain(children)
  }

  function RenderPlain(spans: seq<Span>): string
    decreases spans, 0
  {
    if spans == [] then "" else RenderPlainSpan(spans[0]) + RenderPlain(spans[1..])
  }

  function Join(parts: seq<string>, sep: string): string {
    if parts == [] then "" else if |parts| == 1 then parts[0] else parts[0] + sep + Join(parts[1..], sep)
  }

  function RichLines(lines: seq<seq<Span>>): seq<string> {
    if lines == [] then [] else [RenderRich(lines[0])] + RichLines(lines[1..])
  }

  function PlainLines(lines: seq<seq<Span>>): seq<string> {
    if lines == [] then [] else [RenderPlain(lines[0])] + PlainLines(lines[1..])
  }

  /** `Message.render`: rich lines are separated by a blank line. */
  function RenderRichMessage(lines: seq<seq<Span>>): string {
    Join(RichLines(lines), "\n\n")
  }

  /******* Reading *******/

  /** The characters Rich Markdown gives a meaning to, the reader's own list. */
  predicate IsMarkup(c: char) {
    c in {'\\', '*', '_', '~', '|', '`', '[', ']', '(', ')', '#', '>', '<', '=', '-', '+', '.', '!'}
  }

  /** The delimiters the reader knows. */
  function Delimiter(style: Style): string {
    match style
    case Bold => "**"
    case Italic => "*"
    case Spoiler => "||"
    case TgSpoiler => "<tg-spoiler>"
    case Underline => "__"
    case Strikethrough => "~~"
    case Marked => "=="
  }

  function EndDelimiter(style: Style): string {
    if style.TgSpoiler? then "</tg-spoiler>" else Delimiter(style)
  }

  /** A character of rich text is either shown or part of the markup. */
  datatype Glyph = Shown(c: char) | Markup(c: char)

  /** Reader modes: text, after a backslash, inside backticks, after a backslash
      inside backticks, inside an angle-bracket tag. */
  datatype Mode = Text | Escaped | Literal | LiteralEscaped | Tag

  function Advance(mode: Mode, c: char): (r: (Mode, seq<Glyph>)) {
    match mode
    case Text =>
      if c == '\\' then (Escaped, [])
      else if c == '`' then (Literal, [Markup(c)])
      else if c == '<' then (Tag, [Markup(c)])
      else if IsMarkup(c) then (Text, [Markup(c)])
      else (Text, [Shown(c)])
    case Escaped => (Text, [Shown(c)])
    case Literal =>
      if c == '\\' then (LiteralEscaped, [])
      else if c == '`' then (Text, [Markup(c)])
      else (Literal, [Shown(c)])
    case LiteralEscaped => (Literal, [Shown(c)])
    case Tag => (if c == '>' then Text else Tag, [Markup(c)])
  }

  /** Read `s` from `mode`: the mode reached and the glyphs seen. */
  function Read(mode: Mode, s: string): (Mode, seq<Glyph>)
    decreases |s|
  {
    if s == "" then (mode, [])
    else
      var (next, first) := Advance(mode, s[0]);
      var (last, rest) := Read(next, s[1..]);
      (last, first + rest)
  }

  function ShownText(glyphs: seq<Glyph>): string {
    if glyphs == [] then ""
    else (if glyphs[0].Shown? then [glyphs[0].c] else "") + ShownText(glyphs[1..])
  }

  /******* What a tree should read as *******/

  function AllShown(text: string): seq<Glyph> {
    seq(|text|, i requires 0 <= i < |text| => Shown(text[i]))
  }

  function AllMarkup(text: string): seq<Glyph> {
    seq(|text|, i requires 0 <= i < |text| => Markup(text[i]))
  }

  /** The glyphs of a tree, with no escaping anywhere: leaf text is shown, and only
      the structure contributes markup. */
  function GlyphsOfSpan(span: Span): seq<Glyph>
    decreases span, 1
  {
    match span
    case Plain(text) => AllShown(text)
    case Code(text) => AllMarkup("`") + AllShown(text) + AllMarkup("`")
    case Newline => AllShown("\n")
    case Styled(style, children) => AllMarkup(Delimiter(style)) + GlyphsOf(children) + AllMarkup(EndDelimiter(style))
  }

  function GlyphsOf(spans: seq<Span>): seq<Glyph>
    decreases spans, 0
  {
    if spans == [] then [] else GlyphsOfSpan(spans[0]) + GlyphsOf(spans[1..])
  }

  /******* The reader undoes the renderer *******/

  lemma ConcatTail<T>(s: seq<T>, t: seq<T>)
    requires s != []
    ensures s + t != [] && (s + t)[0] == s[0] && (s + t)[1..] == s[1..] + t
  {
  }

  lemma Associative<T>(a: seq<T>, b: seq<T>, c: seq<T>)
    ensures (a + b) + c == a + (b + c)
  {
  }

  lemma {:induction false} ReadConcat(mode: Mode, s: string, t: string)
    ensures var (m1, g1) := Read(mode, s);
      var (m2, g2) := Read(m1, t);
      Read(mode, s + t) == (m2, g1 + g2)
    decreases |s|
  {
    if s == "" {
      assert s + t == t && [] + Read(mode, t).1 == Read(mode, t).1;
    } else {
      ConcatTail(s, t);
      var (next, first) := Advance(mode, s[0]);
      ReadConcat(next, s[1..], t);
      var (m1, g1) := Read(next, s[1..]);
      Associative(first, g1, Read(m1, t).1);
    }
  }

  lemma ReadOne(mode: Mode, c: char)
    ensures Read(mode, [c]) == Advance(mode, c)
  {
    assert [c][1..] == "";
    assert Advance(mode, c).1 + [] == Advance(mode, c).1;
  }

  /** A backslash makes the next character literal, in text and in backticks. */
  lemma ReadEscape(mode: Mode, c: char)
    requires mode.Text? || mode.Literal?
    ensures Read(mode, ['\\', c]) == (mode, [Shown(c)])
  {
    ReadOne(mode, '\\');
    ReadOne(Advance(mode, '\\').0, c);
    ReadConcat(mode, ['\\'], [c]);
    assert ['\\'] + [c] == ['\\', c];
    assert [] + [Shown(c)] == [Shown(c)];
  }

  lemma {:induction false} ReadEscaped(text: string)
    ensures Read(Text, EscapeRich(text)) == (Text, AllShown(text))
  {
    if text == "" {
      assert AllShown(text) == [];
    } else {
      ReadEscaped(text[1..]);
      ReadConcat(Text, EscapedChar(text[0]), EscapeRich(text[1..]));
      ReadEscapedChar(text[0]);
      assert AllShown(text) == [Shown(text[0])] + AllShown(text[1..]);
    }
  }

  function EscapedChar(c: char): string {
    if c in RICH_SPECIAL then ['\\', c] else [c]
  }

  lemma ReadEscapedChar(c: char)
    ensures Read(Text, EscapedChar(c)) == (Text, [Shown(c)])
  {
    ReadEscape(Text, c);
    ReadOne(Text, c);
  }

  /** Escaping puts a backslash before every character the reader gives a meaning to, and
      changes no other. */
  lemma EscapesExactlyMarkup(c: char)
    ensures EscapeRich([c]) == if IsMarkup(c) then ['\\', c] else [c]
  {
    assert [c][1..] == "";
    assert EscapeRich("") == "";
  }

  /** Position `i` of `s` is behind a backslash that is not itself escaped. */
  predicate IsEscaped(s: string, i: nat)
    requires i <= |s|
    decreases i
  {
    i > 0 && s[i - 1] == '\\' && !IsEscaped(s, i - 1)
  }

  /** In escaped text no character the reader gives a meaning to stands bare: it is
      escaped, or it is a backslash that escapes the next character. */
  lemma {:induction false} NoBareMarkup(text: string, i: nat)
    requires i < |EscapeRich(text)| && IsMarkup(EscapeRich(text)[i])
    ensures var s := EscapeRich(text);
      IsEscaped(s, i) || (s[i] == '\\' && i + 1 < |s| && IsMarkup(s[i + 1]))
  {
    var n := |EscapedChar(text[0])|;
    var (s, rest) := (EscapeRich(text), EscapeRich(text[1..]));
    assert s == EscapedChar(text[0]) + rest;
    HeadUnescapes(text);
    if i >= n {
      NoBareMarkup(text[1..], i - n);
      EscapedShifts(s, n, i - n);
      assert s[n..] == rest;
    }
  }

  /** The first character's escape ends unescaped, so what follows starts afresh. */
  lemma HeadUnescapes(text: string)
    requires text != ""
    ensures var n := |EscapedChar(text[0])|;
      n <= |EscapeRich(text)| && !IsEscaped(EscapeRich(text), n)
      && (n == 2 ==> IsEscaped(EscapeRich(text), 1))
  {
    var s := EscapeRich(text);
    assert s == EscapedChar(text[0]) + EscapeRich(text[1..]);
    assert s[0] == EscapedChar(text[0])[0];
    assert |EscapedChar(text[0])| == 2 ==> s[1] == EscapedChar(text[0])[1];
    assert !IsEscaped(s, 0);
  }

  lemma {:induction false} EscapedShifts(s: string, n: nat, i: nat)
    requires n + i <= |s| && !IsEscaped(s, n)
    ensures IsEscaped(s, n + i) <==> IsEscaped(s[n..], i)
  {
    if i > 0 {
      EscapedShifts(s, n, i - 1);
    }
  }

  /** The two replacements of `_escape_rich_code` come to one escape per character. */
  lemma {:induction false} CodeEscapeHead(text: string)
    requires text != ""
    ensures EscapeRichCode(text) ==
      (if text[0] == '\\' || text[0] == '`' then ['\\', text[0]] else [text[0]]) + EscapeRichCode(text[1..])
  {
    var head := if text[0] == '\\' then "\\\\" else [text[0]];
    ReplaceConcat(head, Replace(text[1..], '\\', "\\\\"), '`', "\\`");
    if text[0] == '\\' {
      assert head[1..] == "\\";
      assert Replace(head[1..], '`', "\\`") == "\\" + Replace("", '`', "\\`");
    } else {
      assert head[1..] == "";
    }
  }

  lemma {:induction false} ReplaceConcat(s: string, t: string, c: char, sub: string)
    ensures Replace(s + t, c, sub) == Replace(s, c, sub) + Replace(t, c, sub)
  {
    if s == "" {
      assert s + t == t;
    } else {
      ConcatTail(s, t);
      ReplaceConcat(s[1..], t, c, sub);
      Associative(if s[0] == c then sub else [s[0]], Replace(s[1..], c, sub), Replace(t, c, sub));
    }
  }

  lemma {:induction false} ReadCodeEscaped(text: string)
    ensures Read(Literal, EscapeRichCode(text)) == (Literal, AllShown(text))
  {
    if text == "" {
      assert AllShown(text) == [];
    } else {
      var head := if text[0] == '\\' || text[0] == '`' then ['\\', text[0]] else [text[0]];
      CodeEscapeHead(text);
      ReadCodeEscaped(text[1..]);
      ReadConcat(Literal, head, EscapeRichCode(text[1..]));
      assert Read(Literal, head) == (Literal, [Shown(text[0])]) by {
        ReadEscape(Literal, text[0]);
        ReadOne(Literal, text[0]);
      }
      assert AllShown(text) == [Shown(text[0])] + AllShown(text[1..]);
    }
  }

  /** Reading markup characters from a mode that keeps them. */
  lemma {:induction false} ReadMarkup(mode: Mode, s: string)
    requires mode.Text? || mode.Tag?
    requires mode.Text? ==> forall c <- s :: c in "*|_~="
    requires mode.Tag? ==> forall c <- s :: c != '>'
    ensures Read(mode, s) == (mode, AllMarkup(s))
  {
    if s != "" {
      assert s[0] in s && forall c <- s[1..] :: c in s;
      ReadMarkup(mode, s[1..]);
      assert AllMarkup(s) == [Markup(s[0])] + AllMarkup(s[1..]);
    }
  }

  lemma ReadTag(inner: string)
    requires forall c <- inner :: c != '>'
    ensures Read(Text, "<" + inner + ">") == (Text, AllMarkup("<" + inner + ">"))
  {
    ReadMarkup(Tag, inner);
    ReadConcat(Tag, inner, ">");
    ReadConcat(Text, "<", inner + ">");
    ReadOne(Tag, '>');
    ReadOne(Text, '<');
    assert "<" + inner + ">" == "<" + (inner + ">");
    assert AllMarkup("<" + inner + ">") == [Markup('<')] + (AllMarkup(inner) + [Markup('>')]);
  }

  lemma ReadStyle(style: Style)
    ensures Read(Text, Opening(style)) == (Text, AllMarkup(Delimiter(style)))
    ensures Read(Text, Closing(style)) == (Text, AllMarkup(EndDelimiter(style)))
  {
    if style.TgSpoiler? {
      ReadTag("tg-spoiler");
      ReadTag("/tg-spoiler");
      assert Opening(style) == "<" + "tg-spoiler" + ">";
      assert Closing(style) == "<" + "/tg-spoiler" + ">";
    } else {
      ReadMarkup(Text, Opening(style));
    }
  }

  lemma {:induction false} ReadSpan(span: Span)
    ensures Read(Text, RenderRichSpan(span)) == (Text, GlyphsOfSpan(span))
    decreases span, 1
  {
    match span
    case Plain(text) => ReadEscaped(text);
    case Code(text) =>
      var body := EscapeRichCode(text);
      ReadCodeEscaped(text);
      ReadConcat(Literal, body, "`");
      ReadConcat(Text, "`", body + "`");
      ReadOne(Literal, '`');
      ReadOne(Text, '`');
      assert RenderRichSpan(span) == "`" + (body + "`");
      assert GlyphsOfSpan(span) == [Markup('`')] + (AllShown(text) + [Markup('`')]);
    case Newline =>
      ReadOne(Text, '\n');
      assert "\n" == ['\n'] && AllShown("\n") == [Shown('\n')];
    case Styled(style, children) =>
      ReadStyle(style);
      ReadSpans(children);
      ReadConcat(Text, Opening(style), RenderRich(children));
      ReadConcat(Text, Opening(style) + RenderRich(children), Closing(style));
  }

  /** For every nested tree, reading its rich rendering gives back its glyphs exactly:
      each leaf character is shown and no leaf character acts as markup. */
  lemma {:induction false} ReadSpans(spans: seq<Span>)
    ensures Read(Text, RenderRich(spans)) == (Text, GlyphsOf(spans))
    decreases spans, 0
  {
    if spans != [] {
      ReadSpan(spans[0]);
      ReadSpans(spans[1..]);
      ReadConcat(Text, RenderRichSpan(spans[0]), RenderRich(spans[1..]));
    }
  }

  lemma {:induction false} ShownConcat(g: seq<Glyph>, h: seq<Glyph>)
    ensures ShownText(g + h) == ShownText(g) + ShownText(h)
  {
    if g == [] {
      assert g + h == h;
    } else {
      ConcatTail(g, h);
      ShownConcat(g[1..], h);
      Associative(if g[0].Shown? then [g[0].c] else "", ShownText(g[1..]), ShownText(h));
    }
  }

  lemma {:induction false} ShownOfText(text: string)
    ensures ShownText(AllShown(text)) == text && ShownText(AllMarkup(text)) == ""
  {
    if text != "" {
      ShownOfText(text[1..]);
      assert AllShown(text)[1..] == AllShown(text[1..]);
      assert AllMarkup(text)[1..] == AllMarkup(text[1..]);
    }
  }

  lemma {:induction false} ShownIsPlainSpan(span: Span)
    ensures ShownText(GlyphsOfSpan(span)) == RenderPlainSpan(span)
    decreases span, 1
  {
    match span
    case Plain(text) => ShownOfText(text);
    case Code(text) =>
      ShownOfText(text);
      ShownOfText("`");
      ShownConcat(AllMarkup("`"), AllShown(text));
      ShownConcat(AllMarkup("`") + AllShown(text), AllMarkup("`"));
    case Newline => ShownOfText("\n");
    case Styled(style, children) =>
      ShownOfText(Opening(style));
      ShownOfText(Closing(style));
      ShownIsPlain(children);
      ShownConcat(AllMarkup(Delimiter(style)), GlyphsOf(children));
      ShownConcat(AllMarkup(Delimiter(style)) + GlyphsOf(children), AllMarkup(EndDelimiter(style)));
  }

  lemma {:induction false} ShownIsPlain(spans: seq<Span>)
    ensures ShownText(GlyphsOf(spans)) == RenderPlain(spans)
    decreases spans, 0
  {
    if spans != [] {
      ShownIsPlainSpan(spans[0]);
      ShownIsPlain(spans[1..]);
      ShownConcat(GlyphsOfSpan(spans[0]), GlyphsOf(spans[1..]));
    }
  }

  /** The text a reader sees in the rich rendering is the plain rendering. */
  lemma RichReadsAsPlain(spans: seq<Span>)
    ensures ShownText(Read(Text, RenderRich(spans)).1) == RenderPlain(spans)
  {
    ReadSpans(spans);
    ShownIsPlain(spans);
  }

  /******* Markup depends on structure alone *******/

  function MarkupText(glyphs: seq<Glyph>): string {
    if glyphs == [] then ""
    else (if glyphs[0].Markup? then [glyphs[0].c] else "") + MarkupText(glyphs[1..])
  }

  /** The tree with all leaf text removed. */
  function SkeletonOfSpan(span: Span): Span
    decreases span, 1
  {
    match span
    case Plain(_) => Plain("")
    case Code(_) => Code("")
    case Newline => Newline
    case Styled(style, children) => Styled(style, Skeleton(children))
  }

  function Skeleton(spans: seq<Span>): seq<Span>
    decreases spans, 0
  {
    if spans == [] then [] else [SkeletonOfSpan(spans[0])] + Skeleton(spans[1..])
  }

  lemma {:induction false} MarkupConcat(g: seq<Glyph>, h: seq<Glyph>)
    ensures MarkupText(g + h) == MarkupText(g) + MarkupText(h)
  {
    if g == [] {
      assert g + h == h;
    } else {
      ConcatTail(g, h);
      MarkupConcat(g[1..], h);
      Associative(if g[0].Markup? then [g[0].c] else "", MarkupText(g[1..]), MarkupText(h));
    }
  }

  lemma {:induction false} MarkupOfShown(text: string)
    ensures MarkupText(AllShown(text)) == ""
  {
    if text != "" {
      MarkupOfShown(text[1..]);
      assert AllShown(text)[1..] == AllShown(text[1..]);
    }
  }

  lemma {:induction false} MarkupOfSpan(span: Span)
    ensures MarkupText(GlyphsOfSpan(span)) == MarkupText(GlyphsOfSpan(SkeletonOfSpan(span)))
    decreases span, 1
  {
    match span
    case Plain(text) => MarkupOfShown(text); MarkupOfShown("");
    case Code(text) =>
      MarkupOfShown(text);
      MarkupOfShown("");
      MarkupConcat(AllMarkup("`") + AllShown(text), AllMarkup("`"));
      MarkupConcat(AllMarkup("`"), AllShown(text));
      MarkupConcat(AllMarkup("`") + AllShown(""), AllMarkup("`"));
      MarkupConcat(AllMarkup("`"), AllShown(""));
    case Newline =>
    case Styled(style, children) =>
      MarkupOfSpans(children);
      MarkupConcat(AllMarkup(Delimiter(style)), GlyphsOf(children));
      MarkupConcat(AllMarkup(Delimiter(style)) + GlyphsOf(children), AllMarkup(EndDelimiter(style)));
      MarkupConcat(AllMarkup(Delimiter(style)), GlyphsOf(Skeleton(children)));
      MarkupConcat(AllMarkup(Delimiter(style)) + GlyphsOf(Skeleton(children)), AllMarkup(EndDelimiter(style)));
  }

  lemma {:induction false} MarkupOfSpans(spans: seq<Span>)
    ensures MarkupText(GlyphsOf(spans)) == MarkupText(GlyphsOf(Skeleton(spans)))
    decreases spans, 0
  {
    if spans != [] {
      MarkupOfSpan(spans[0]);
      MarkupOfSpans(spans[1..]);
      MarkupConcat(GlyphsOfSpan(spans[0]), GlyphsOf(spans[1..]));
      var (head, tail) := ([SkeletonOfSpan(spans[0])], Skeleton(spans[1..]));
      assert (head + tail)[1..] == tail;
      MarkupConcat(GlyphsOfSpan(head[0]), GlyphsOf(tail));
    }
  }

  /** Two trees of the same shape carry the same markup, whatever their leaves say. */
  lemma LeavesAddNoMarkup(spans: seq<Span>, others: seq<Span>)
    requires Skeleton(spans) == Skeleton(others)
    ensures MarkupText(Read(Text, RenderRich(spans)).1) == MarkupText(Read(Text, RenderRich(others)).1)
  {
    ReadSpans(spans);
    ReadSpans(others);
    MarkupOfSpans(spans);
    MarkupOfSpans(others);
  }

  /** The structure itself is not always recoverable: italics inside italics print
      exactly as bold, for every text. */
  lemma NestedItalicsPrintAsBold(children: seq<Span>)
    ensures RenderRich([Styled(Italic, [Styled(Italic, children)])]) == RenderRich([Styled(Bold, children)])
  {
    var inner := [Styled(Italic, children)];
    var body := RenderRich(children);
    assert RenderRich(inner) == RenderRichSpan(inner[0]) + "";
    assert RenderRich([Styled(Italic, inner)]) == RenderRichSpan(Styled(Italic, inner)) + "";
    assert RenderRich([Styled(Bold, children)]) == RenderRichSpan(Styled(Bold, children)) + "";
    assert "*" + ("*" + body + "*") + "*" == "**" + body + "**";
  }

  /******* Messages *******/

  lemma {:induction false} ReadLines(lines: seq<seq<Span>>)
    ensures var (mode, glyphs) := Read(Text, Join(RichLines(lines), "\n\n"));
      mode == Text && ShownText(glyphs) == Join(PlainLines(lines), "\n\n")
  {
    if lines != [] {
      ReadSpans(lines[0]);
      ShownIsPlain(lines[0]);
      var (rich, plain) := (RichLines(lines[1..]), PlainLines(lines[1..]));
      JoinHead(RenderRich(lines[0]), rich, "\n\n");
      JoinHead(RenderPlain(lines[0]), plain, "\n\n");
      if |lines| > 1 {
        ReadLines(lines[1..]);
        ReadLineBreak(RenderRich(lines[0]), GlyphsOf(lines[0]), Join(rich, "\n\n"));
      }
    }
  }

  lemma JoinHead(head: string, parts: seq<string>, sep: string)
    ensures Join([head] + parts, sep) == if parts == [] then head else head + sep + Join(parts, sep)
  {
    assert ([head] + parts)[1..] == parts;
  }

  lemma ReadLineBreak(part: string, glyphs: seq<Glyph>, rest: string)
    requires Read(Text, part) == (Text, glyphs)
    ensures Read(Text, part + "\n\n" + rest).0 == Read(Text, rest).0
    ensures ShownText(Read(Text, part + "\n\n" + rest).1) == ShownText(glyphs) + "\n\n" + ShownText(Read(Text, rest).1)
  {
    ReadOne(Text, '\n');
    ReadConcat(Text, "\n", "\n");
    assert "\n" + "\n" == "\n\n";
    ReadConcat(Text, part, "\n\n");
    ReadConcat(Text, part + "\n\n", rest);
    assert [Shown('\n')] + [Shown('\n')] == AllShown("\n\n");
    ShownOfText("\n\n");
    ShownConcat(glyphs, AllShown("\n\n"));
    ShownConcat(glyphs + AllShown("\n\n"), Read(Text, rest).1);
  }

  /** A whole rich message reads as its plain lines separated by blank lines. */
  lemma RichMessageReadsAsPlain(lines: seq<seq<Span>>)
    ensures ShownText(Read(Text, RenderRichMessage(lines)).1) == Join(PlainLines(lines), "\n\n")
  {
    ReadLines(lines);
  }
}
