/** The help template tokenizer of handlers/help_command.py. */
module HelpTemplate {

  /** A span of the help text: the bot's name, the start command, a quoted piece shown
      bold, or plain text. */
  datatype Token = BotName | StartCommand | Bold(text: string) | Plain(text: string)

  const BOT := "@@BOT@@"
  const START := "@@START@@"
  const OPEN := "\U{00AB}"
  const CLOSE := "\U{00BB}"

  /******* Python's split *******/

  /** The first position of `sep` in `s`, -1 if there is none. */
  function Find(s: string, sep: string): (r: int)
    requires sep != ""
    ensures -1 <= r && (r >= 0 ==> r + |sep| <= |s| && s[r..r + |sep|] == sep)
  {
    if |s| < |sep| then -1
    else if s[..|sep|] == sep then 0
    else
      var r := Find(s[1..], sep);
      if r < 0 then -1 else r + 1
  }

  /** `str.split`: pieces between the leftmost non-overlapping separators. */
  function Split(s: string, sep: string): (parts: seq<string>)
    requires sep != ""
    ensures parts != []
  {
    var i := Find(s, sep);
    if i < 0 then [s] else [s[..i]] + Split(s[i + |sep|..], sep)
  }

  function Join(parts: seq<string>, sep: string): string {
    if parts == [] then ""
    else if |parts| == 1 then parts[0]
    else parts[0] + sep + Join(parts[1..], sep)
  }

  lemma {:induction false} SplitJoin(s: string, sep: string)
    requires sep != ""
    ensures Join(Split(s, sep), sep) == s
  {
    var i := Find(s, sep);
    if i >= 0 {
      var rest := s[i + |sep|..];
      SplitJoin(rest, sep);
      assert Split(s, sep)[1..] == Split(rest, sep);
      assert s == s[..i] + sep + rest;
    }
  }

  /** For one character `Find` finds the first occurrence, if there is one. */
  lemma {:induction false} FindChar(s: string, c: char)
    ensures Find(s, [c]) < 0 ==> c !in s
    ensures Find(s, [c]) >= 0 ==> c !in s[..Find(s, [c])]
  {
    if s != "" {
      assert s[..1] == [s[0]] && s == [s[0]] + s[1..];
      FindChar(s[1..], c);
      var r := Find(s[1..], [c]);
      if s[0] != c && r >= 0 {
        assert s[..r + 1] == [s[0]] + s[1..][..r];
      }
    }
  }

  /** `sep` stands at position `i` of `s`. */
  predicate At(s: string, sep: string, i: int) {
    0 <= i && i + |sep| <= |s| && s[i..i + |sep|] == sep
  }

  ghost predicate Free(s: string, sep: string) {
    forall i :: !At(s, sep, i)
  }

  lemma AtTail(s: string, sep: string, n: nat, i: int)
    requires n <= |s|
    ensures At(s[n..], sep, i) <==> 0 <= i && At(s, sep, n + i)
  {
    if 0 <= i && n + i + |sep| <= |s| {
      assert s[n..][i..i + |sep|] == s[n + i..n + i + |sep|];
    }
  }

  lemma AtHead(s: string, sep: string, n: nat, i: int)
    requires n <= |s|
    ensures At(s[..n], sep, i) <==> i + |sep| <= n && At(s, sep, i)
  {
    if 0 <= i && i + |sep| <= n {
      assert s[..n][i..i + |sep|] == s[i..i + |sep|];
    }
  }

  lemma FreeInside(s: string, sep: string, n: nat)
    requires Free(s, sep) && n <= |s|
    ensures Free(s[..n], sep) && Free(s[n..], sep)
  {
    forall i ensures !At(s[..n], sep, i) && !At(s[n..], sep, i) {
      AtHead(s, sep, n, i);
      AtTail(s, sep, n, i);
    }
  }

  /** `Find` finds the first position, if there is one. */
  lemma {:induction false} FindFirst(s: string, sep: string)
    requires sep != ""
    ensures Find(s, sep) < 0 <==> Free(s, sep)
    ensures Find(s, sep) >= 0 ==> At(s, sep, Find(s, sep)) && Free(s[..Find(s, sep)], sep)
    ensures forall i :: At(s, sep, i) ==> Find(s, sep) <= i
  {
    var r := Find(s, sep);
    if |s| >= |sep| && s[..|sep|] != sep {
      FindFirst(s[1..], sep);
      forall i | At(s, sep, i) ensures 0 <= r <= i {
        assert i != 0 && At(s[1..], sep, i - 1) by {
          assert s[0..|sep|] == s[..|sep|];
          AtTail(s, sep, 1, i - 1);
        }
      }
    }
    if r >= 0 {
      forall i ensures !At(s[..r], sep, i) {
        AtHead(s, sep, r, i);
      }
      assert At(s, sep, r);
    }
  }

  /** No piece contains the separator, nor anything the text does not contain. */
  lemma {:induction false} PiecesFree(s: string, sep: string, other: string)
    requires sep != ""
    ensures forall p <- Split(s, sep) :: Free(p, sep) && (Free(s, other) ==> Free(p, other))
  {
    FindFirst(s, sep);
    var i := Find(s, sep);
    if i >= 0 {
      PiecesFree(s[i + |sep|..], sep, other);
      if Free(s, other) {
        FreeInside(s, other, i);
        FreeInside(s, other, i + |sep|);
      }
    }
  }

  /** For a one-character separator no piece contains it. */
  lemma {:induction false} SplitFree(s: string, c: char)
    ensures forall p <- Split(s, [c]) :: c !in p
  {
    var i := Find(s, [c]);
    FindChar(s, c);
    if i >= 0 {
      SplitFree(s[i + 1..], c);
    }
  }

  /******* Specification *******/

  function PlainIf(text: string): seq<Token> {
    if text == "" then [] else [Plain(text)]
  }

  /** What a piece after an opening guillemet becomes. */
  function Quoted(chunk: string): seq<Token> {
    var i := Find(chunk, CLOSE);
    if i < 0 then [Plain(OPEN + chunk)] else [Bold(chunk[..i])] + PlainIf(chunk[i + 1..])
  }

  function Chunks(chunks: seq<string>): seq<Token> {
    if chunks == [] then []
    else
      var last := |chunks| - 1;
      Chunks(chunks[..last]) + if last == 0 then PlainIf(chunks[last]) else Quoted(chunks[last])
  }

  function Guillemets(text: string): seq<Token> {
    if text == "" then [] else Chunks(Split(text, OPEN))
  }

  function Segments(segments: seq<string>): seq<Token> {
    if segments == [] then []
    else
      var last := |segments| - 1;
      Segments(segments[..last]) + (if last == 0 then [] else [StartCommand]) + Guillemets(segments[last])
  }

  function Parts(parts: seq<string>): seq<Token> {
    if parts == [] then []
    else
      var last := |parts| - 1;
      Parts(parts[..last]) + (if last == 0 then [] else [BotName]) + Segments(Split(parts[last], START))
  }

  function Tokens(template: string): seq<Token> {
    Parts(Split(template, BOT))
  }

  function PrintToken(t: Token): string {
    match t
    case BotName => BOT
    case StartCommand => START
    case Bold(text) => OPEN + text + CLOSE
    case Plain(text) => text
  }

  function Print(ts: seq<Token>): string {
    if ts == [] then "" else Print(ts[..|ts| - 1]) + PrintToken(ts[|ts| - 1])
  }

  /******* Printing gives the template back *******/

  lemma {:induction false} PrintConcat(a: seq<Token>, b: seq<Token>)
    ensures Print(a + b) == Print(a) + Print(b)
  {
    if b == [] {
      assert a + b == a;
    } else {
      assert (a + b)[..|a + b| - 1] == a + b[..|b| - 1];
      PrintConcat(a, b[..|b| - 1]);
    }
  }

  lemma PrintOne(t: Token)
    ensures Print([t]) == PrintToken(t)
  {
    assert [t][..0] == [];
    assert Print([t]) == "" + PrintToken(t);
  }

  lemma {:induction false} JoinLast(parts: seq<string>, sep: string)
    requires |parts| > 1
    ensures Join(parts, sep) == Join(parts[..|parts| - 1], sep) + sep + parts[|parts| - 1]
  {
    var last := |parts| - 1;
    if last == 1 {
      assert parts[1..] == [parts[1]] && parts[..1] == [parts[0]];
    } else {
      assert parts[1..][..last - 1] == parts[..last][1..];
      JoinLast(parts[1..], sep);
    }
  }

  lemma PrintPlainIf(text: string)
    ensures Print(PlainIf(text)) == text
  {
    PrintOne(Plain(text));
  }

  lemma Associative(a: string, b: string, c: string)
    ensures (a + b) + c == a + (b + c)
  {
  }

  lemma PrintBold(inner: string, rest: string)
    ensures Print([Bold(inner)] + PlainIf(rest)) == OPEN + (inner + CLOSE + rest)
  {
    PrintOne(Bold(inner));
    PrintPlainIf(rest);
    PrintConcat([Bold(inner)], PlainIf(rest));
    Associative(OPEN, inner, CLOSE);
    Associative(OPEN, inner + CLOSE, rest);
  }

  lemma PrintQuoted(chunk: string)
    ensures Print(Quoted(chunk)) == OPEN + chunk
  {
    var i := Find(chunk, CLOSE);
    if i < 0 {
      PrintOne(Plain(OPEN + chunk));
    } else {
      PrintBold(chunk[..i], chunk[i + 1..]);
      CutAt(chunk, i);
    }
  }

  lemma CutAt(chunk: string, i: nat)
    requires i + 1 <= |chunk| && chunk[i..i + 1] == CLOSE
    ensures chunk == chunk[..i] + CLOSE + chunk[i + 1..]
  {
  }

  lemma {:induction false} PrintChunks(chunks: seq<string>)
    ensures Print(Chunks(chunks)) == Join(chunks, OPEN)
  {
    if |chunks| == 1 {
      PrintFirstChunk(chunks);
    } else if chunks != [] {
      var last := |chunks| - 1;
      PrintChunks(chunks[..last]);
      PrintQuoted(chunks[last]);
      PrintConcat(Chunks(chunks[..last]), Quoted(chunks[last]));
      JoinLast(chunks, OPEN);
      Associative(Join(chunks[..last], OPEN), OPEN, chunks[last]);
    }
  }

  lemma PrintFirstChunk(chunks: seq<string>)
    requires |chunks| == 1
    ensures Print(Chunks(chunks)) == chunks[0]
  {
    assert Chunks(chunks[..0]) == [];
    assert Chunks(chunks) == [] + PlainIf(chunks[0]) == PlainIf(chunks[0]);
    PrintPlainIf(chunks[0]);
  }

  lemma PrintGuillemets(text: string)
    ensures Print(Guillemets(text)) == text
  {
    if text != "" {
      PrintChunks(Split(text, OPEN));
      SplitJoin(text, OPEN);
    }
  }

  lemma {:induction false} PrintSegments(segments: seq<string>)
    ensures Print(Segments(segments)) == Join(segments, START)
  {
    if segments != [] {
      var last := |segments| - 1;
      PrintSegments(segments[..last]);
      PrintGuillemets(segments[last]);
      PrintOne(StartCommand);
      var sep := if last == 0 then [] else [StartCommand];
      PrintConcat(Segments(segments[..last]), sep);
      PrintConcat(Segments(segments[..last]) + sep, Guillemets(segments[last]));
      if last > 0 {
        JoinLast(segments, START);
      }
    }
  }

  lemma {:induction false} PrintParts(parts: seq<string>)
    ensures Print(Parts(parts)) == Join(parts, BOT)
  {
    if parts != [] {
      var last := |parts| - 1;
      PrintParts(parts[..last]);
      PrintSegments(Split(parts[last], START));
      SplitJoin(parts[last], START);
      PrintOne(BotName);
      var sep := if last == 0 then [] else [BotName];
      PrintConcat(Parts(parts[..last]), sep);
      PrintConcat(Parts(parts[..last]) + sep, Segments(Split(parts[last], START)));
      if last > 0 {
        JoinLast(parts, BOT);
      }
    }
  }

  /** For every template, balanced or not, nothing is lost, added or reordered. */
  lemma PrintingRestoresTemplate(template: string)
    ensures Print(Tokens(template)) == template
  {
    PrintParts(Split(template, BOT));
    SplitJoin(template, BOT);
  }

  /******* What is bold *******/

  ghost predicate NoSentinel(s: string) {
    Free(s, BOT) && Free(s, START)
  }

  /** The inside of an innermost pair of guillemets: no guillemet and no sentinel. */
  ghost predicate Inside(s: string) {
    OPEN[0] !in s && CLOSE[0] !in s && NoSentinel(s)
  }

  ghost predicate Tidy(t: Token) {
    && (t.Bold? ==> Inside(t.text))
    && (t.Plain? ==> t.text != "" && NoSentinel(t.text) && !(OPEN[0] in t.text && CLOSE[0] in t.text))
  }

  /** A guillemet is no part of a sentinel. */
  lemma OpenedFree(chunk: string, sep: string)
    requires sep == BOT || sep == START
    requires Free(chunk, sep)
    ensures Free(OPEN + chunk, sep)
  {
    var s := OPEN + chunk;
    assert s[1..] == chunk;
    forall i ensures !At(s, sep, i) {
      if i == 0 && |sep| <= |s| {
        assert s[0..|sep|][0] == OPEN[0] != sep[0];
      } else if i > 0 {
        AtTail(s, sep, 1, i - 1);
      }
    }
  }

  lemma QuotedTidy(chunk: string)
    requires OPEN[0] !in chunk && NoSentinel(chunk)
    ensures forall t <- Quoted(chunk) :: Tidy(t)
  {
    assert CLOSE == [CLOSE[0]];
    FindChar(chunk, CLOSE[0]);
    var i := Find(chunk, CLOSE);
    if i < 0 {
      OpenedFree(chunk, BOT);
      OpenedFree(chunk, START);
    } else {
      FreeInside(chunk, BOT, i);
      FreeInside(chunk, START, i);
      FreeInside(chunk, BOT, i + 1);
      FreeInside(chunk, START, i + 1);
    }
  }

  lemma {:induction false} ChunksTidy(chunks: seq<string>)
    requires forall p <- chunks :: OPEN[0] !in p && NoSentinel(p)
    ensures forall t <- Chunks(chunks) :: Tidy(t)
  {
    if chunks != [] {
      var last := |chunks| - 1;
      ChunksTidy(chunks[..last]);
      assert chunks[last] in chunks;
      QuotedTidy(chunks[last]);
    }
  }

  lemma {:induction false} SegmentsTidy(segments: seq<string>)
    requires forall p <- segments :: NoSentinel(p)
    ensures forall t <- Segments(segments) :: Tidy(t)
  {
    if segments != [] {
      var last := |segments| - 1;
      SegmentsTidy(segments[..last]);
      assert segments[last] in segments;
      assert [OPEN[0]] == OPEN;
      SplitFree(segments[last], OPEN[0]);
      PiecesFree(segments[last], OPEN, BOT);
      PiecesFree(segments[last], OPEN, START);
      ChunksTidy(Split(segments[last], OPEN));
    }
  }

  lemma {:induction false} PartsTidy(parts: seq<string>)
    requires forall p <- parts :: Free(p, BOT)
    ensures forall t <- Parts(parts) :: Tidy(t)
  {
    if parts != [] {
      var last := |parts| - 1;
      PartsTidy(parts[..last]);
      assert parts[last] in parts;
      PiecesFree(parts[last], START, BOT);
      SegmentsTidy(Split(parts[last], START));
    }
  }

  /** Bold spans hold no guillemet, no plain span is empty or holds a pair of them, and
      no span holds a sentinel. */
  lemma TokensAreTidy(template: string)
    ensures forall t <- Tokens(template) :: Tidy(t)
  {
    PiecesFree(template, BOT, BOT);
    PartsTidy(Split(template, BOT));
  }

  lemma DropConcat(a: string, b: string, c: string, n: nat)
    requires n <= |a|
    ensures (a + b + c)[n..] == a[n..] + b + c
  {
  }

  lemma TakeConcat(a: string, b: string, c: string, n: nat)
    requires |a| + |b| <= n <= |a + b + c|
    ensures (a + b + c)[..n] == a + b + c[..n - |a| - |b|]
  {
  }

  /** No separator reaches into `mid`. */
  ghost predicate Apart(a: string, mid: string, c: string, sep: string) {
    forall i :: At(a + mid + c, sep, i) ==> i + |sep| <= |a| || i >= |a| + |mid|
  }

  lemma ApartTail(a: string, mid: string, c: string, sep: string, n: nat)
    requires Apart(a, mid, c, sep) && n <= |a|
    ensures Apart(a[n..], mid, c, sep) && (a + mid + c)[n..] == a[n..] + mid + c
  {
    DropConcat(a, mid, c, n);
    forall j | At(a[n..] + mid + c, sep, j) ensures j + |sep| <= |a| - n || j >= |a| - n + |mid| {
      AtTail(a + mid + c, sep, n, j);
    }
  }

  /** Text no separator reaches into stays in one piece. */
  lemma {:induction false} SplitKeeps(a: string, mid: string, c: string, sep: string)
    returns (k: nat, x: string, z: string)
    requires sep != "" && Apart(a, mid, c, sep)
    ensures k < |Split(a + mid + c, sep)| && Split(a + mid + c, sep)[k] == x + mid + z
    decreases |a|
  {
    var s := a + mid + c;
    FindFirst(s, sep);
    var i := Find(s, sep);
    if i < 0 {
      return 0, a, c;
    } else if i >= |a| + |mid| {
      TakeConcat(a, mid, c, i);
      return 0, a, c[..i - |a| - |mid|];
    }
    ApartTail(a, mid, c, sep, i + |sep|);
    k, x, z := SplitKeeps(a[i + |sep|..], mid, c, sep);
    k := k + 1;
  }

  /** No sentinel reaches into a closed pair. */
  lemma SentinelsApart(a: string, b: string, c: string, sep: string, i: int)
    requires sep == BOT || sep == START
    requires Free(b, sep) && At(a + (OPEN + b + CLOSE) + c, sep, i)
    ensures i + |sep| <= |a| || i >= |a| + |b| + 2
  {
    var s := a + (OPEN + b + CLOSE) + c;
    CharApart(s, sep, i, |a|);
    CharApart(s, sep, i, |a| + |b| + 1);
    AtTail(s, sep, |a| + 1, i - |a| - 1);
    AtHead(s[|a| + 1..], sep, |b|, i - |a| - 1);
    assert s[|a| + 1..][..|b|] == b;
  }

  /** A separator does not cover a character it does not hold. */
  lemma CharApart(s: string, sep: string, i: int, k: nat)
    requires At(s, sep, i) && k < |s| && s[k] !in sep
    ensures k < i || k >= i + |sep|
  {
    assert forall j :: i <= j < i + |sep| ==> s[j] == s[i..i + |sep|][j - i];
  }

  lemma FindInConcat(x: string, y: string, c: char)
    ensures Find(x + [c] + y, [c]) == if Find(x, [c]) < 0 then |x| else Find(x, [c])
  {
    var s := x + [c] + y;
    FindFirst(s, [c]);
    FindFirst(x, [c]);
    assert At(s, [c], |x|) && s[..|x|] == x;
    AtHead(s, [c], |x|, Find(s, [c]));
    AtHead(s, [c], |x|, Find(x, [c]));
  }

  lemma {:induction false} SplitAtChar(x: string, y: string, c: char)
    ensures Split(x + [c] + y, [c]) == Split(x, [c]) + Split(y, [c])
    decreases |x|
  {
    var s := x + [c] + y;
    var i := Find(x, [c]);
    FindInConcat(x, y, c);
    if i < 0 {
      assert s[..|x|] == x && s[|x| + 1..] == y;
    } else {
      DropConcat(x, [c], y, i + 1);
      SplitAtChar(x[i + 1..], y, c);
      assert s[..i] == x[..i];
      assert Split(s, [c]) == [x[..i]] + (Split(x[i + 1..], [c]) + Split(y, [c]));
    }
  }

  lemma {:induction false} ChunksHave(chunks: seq<string>, k: nat)
    requires 0 < k < |chunks|
    ensures forall t <- Quoted(chunks[k]) :: t in Chunks(chunks)
  {
    if k < |chunks| - 1 {
      ChunksHave(chunks[..|chunks| - 1], k);
    }
  }

  lemma {:induction false} SegmentsHave(segments: seq<string>, k: nat)
    requires k < |segments|
    ensures forall t <- Guillemets(segments[k]) :: t in Segments(segments)
  {
    if k < |segments| - 1 {
      SegmentsHave(segments[..|segments| - 1], k);
    }
  }

  lemma {:induction false} PartsHave(parts: seq<string>, k: nat)
    requires k < |parts|
    ensures forall t <- Segments(Split(parts[k], START)) :: t in Parts(parts)
  {
    if k < |parts| - 1 {
      PartsHave(parts[..|parts| - 1], k);
    }
  }

  /** A character is not found in a beginning that does not hold it. */
  lemma NotBefore(s: string, sep: string, start: string)
    requires |sep| == 1 && sep[0] !in start && start <= s
    ensures Find(s, sep) < 0 || Find(s, sep) >= |start|
  {
    FindFirst(s, sep);
    assert forall k :: 0 <= k < |start| ==> s[k] == start[k] && start[k] in start;
    assert forall i :: At(s, sep, i) ==> s[i] == s[i..i + 1][0] == sep[0];
  }

  /** The chunk that starts inside a closed pair ends its bold span where the pair does. */
  lemma ClosedPairQuoted(chunk: string, b: string)
    requires b + CLOSE <= chunk && CLOSE[0] !in b
    ensures Bold(b) in Quoted(chunk)
  {
    assert b <= b + CLOSE <= chunk && chunk[|b|..|b| + 1] == CLOSE;
    FindFirst(chunk, CLOSE);
    assert At(chunk, CLOSE, |b|);
    NotBefore(chunk, CLOSE, b);
    assert chunk[..|b|] == b;
  }

  lemma ClosedPairInSegment(a: string, b: string, c: string)
    requires OPEN[0] !in b && CLOSE[0] !in b
    ensures Bold(b) in Guillemets(a + (OPEN + b + CLOSE) + c)
  {
    var y := b + CLOSE + c;
    assert a + (OPEN + b + CLOSE) + c == a + [OPEN[0]] + y;
    SplitAtChar(a, y, OPEN[0]);
    assert [OPEN[0]] == OPEN;
    var chunk := Split(y, OPEN)[0];
    NotBefore(y, OPEN, b + CLOSE);
    assert b + CLOSE <= chunk;
    ClosedPairQuoted(chunk, b);
    ChunksHave(Split(a, OPEN) + Split(y, OPEN), |Split(a, OPEN)|);
  }

  lemma ClosedPairInPart(a: string, b: string, c: string)
    requires Inside(b)
    ensures Bold(b) in Segments(Split(a + (OPEN + b + CLOSE) + c, START))
  {
    var mid := OPEN + b + CLOSE;
    forall i | At(a + mid + c, START, i) ensures i + |START| <= |a| || i >= |a| + |mid| {
      SentinelsApart(a, b, c, START, i);
    }
    var k, x, z := SplitKeeps(a, mid, c, START);
    ClosedPairInSegment(x, b, z);
    SegmentsHave(Split(a + mid + c, START), k);
  }

  lemma ClosedPairIsBold(a: string, b: string, c: string)
    requires Inside(b)
    ensures Bold(b) in Tokens(a + (OPEN + b + CLOSE) + c)
  {
    var mid := OPEN + b + CLOSE;
    forall i | At(a + mid + c, BOT, i) ensures i + |BOT| <= |a| || i >= |a| + |mid| {
      SentinelsApart(a, b, c, BOT, i);
    }
    var k, x, z := SplitKeeps(a, mid, c, BOT);
    ClosedPairInPart(x, b, z);
    PartsHave(Split(a + mid + c, BOT), k);
  }

  lemma ClosedPairAtIsBold(template: string, b: string, i: nat)
    requires Inside(b) && At(template, OPEN + b + CLOSE, i)
    ensures Bold(b) in Tokens(template)
  {
    var mid := OPEN + b + CLOSE;
    assert template == template[..i] + mid + template[i + |mid|..];
    ClosedPairIsBold(template[..i], b, template[i + |mid|..]);
  }

  /** A text is shown bold exactly if it holds no guillemet and no sentinel and stands
      somewhere in the template between an opening and a closing guillemet. */
  lemma BoldExactlyWhen(template: string, b: string)
    ensures Bold(b) in Tokens(template) <==>
      Inside(b) && exists i :: At(template, OPEN + b + CLOSE, i)
  {
    if Bold(b) in Tokens(template) {
      TokensAreTidy(template);
      PrintingRestoresTemplate(template);
      var i := BoldPrints(Tokens(template), b);
    } else if Inside(b) {
      forall i ensures !At(template, OPEN + b + CLOSE, i) {
        if At(template, OPEN + b + CLOSE, i) {
          ClosedPairAtIsBold(template, b, i);
        }
      }
    }
  }

  lemma AtAppend(s: string, more: string, sep: string, i: int)
    requires At(s, sep, i)
    ensures At(s + more, sep, i)
  {
    assert (s + more)[..|s|] == s;
    AtHead(s + more, sep, |s|, i);
  }

  lemma {:induction false} BoldPrints(ts: seq<Token>, b: string) returns (i: nat)
    requires Bold(b) in ts
    ensures At(Print(ts), OPEN + b + CLOSE, i)
  {
    var (last, mid) := (|ts| - 1, OPEN + b + CLOSE);
    var before := Print(ts[..last]);
    assert Print(ts) == before + PrintToken(ts[last]);
    if ts[last] == Bold(b) {
      assert At(before + mid, mid, |before|);
      return |before|;
    }
    i := BoldPrints(ts[..last], b);
    AtAppend(before, PrintToken(ts[last]), mid, i);
  }

  /******* The code *******/

  /** The body of the loop of `_help_guillemets` after its first round. */
  method PushQuoted(chunk: string, tokens: seq<Token>) returns (out: seq<Token>)
    ensures out == tokens + Quoted(chunk)
  {
    var i := Find(chunk, CLOSE);
    if i < 0 {
      return tokens + [Plain(OPEN + chunk)];
    }
    var (inner, rest) := (chunk[..i], chunk[i + 1..]);
    out := tokens + [Bold(inner)];
    if rest != "" {
      out := out + [Plain(rest)];
    }
    assert out == tokens + ([Bold(inner)] + PlainIf(rest));
  }

  /** `_help_guillemets`: push the tokens of one segment. */
  method HelpGuillemets(text: string, tokens: seq<Token>) returns (out: seq<Token>)
    ensures out == tokens + Guillemets(text)
  {
    if text == "" {
      return tokens;
    }
    out := PushChunks(Split(text, OPEN), tokens);
  }

  method PushChunks(chunks: seq<string>, tokens: seq<Token>) returns (out: seq<Token>)
    ensures out == tokens + Chunks(chunks)
  {
    out := tokens;
    for k := 0 to |chunks|
      invariant out == tokens + Chunks(chunks[..k])
    {
      ghost var more := if k == 0 then PlainIf(chunks[k]) else Quoted(chunks[k]);
      assert chunks[..k + 1][..k] == chunks[..k];
      assert tokens + Chunks(chunks[..k + 1]) == out + more;
      if k > 0 {
        out := PushQuoted(chunks[k], out);
      } else if chunks[k] != "" {
        out := out + [Plain(chunks[k])];
      }
    }
    assert chunks[..|chunks|] == chunks;
  }

  lemma NextSegment(segments: seq<string>, j: nat, tokens: seq<Token>)
    requires j < |segments|
    ensures tokens + Segments(segments[..j + 1]) ==
      tokens + Segments(segments[..j]) + (if j == 0 then [] else [StartCommand]) + Guillemets(segments[j])
  {
    assert segments[..j + 1][..j] == segments[..j];
  }

  lemma NextPart(parts: seq<string>, i: nat)
    requires i < |parts|
    ensures Parts(parts[..i + 1]) ==
      Parts(parts[..i]) + (if i == 0 then [] else [BotName]) + Segments(Split(parts[i], START))
  {
    assert parts[..i + 1][..i] == parts[..i];
  }

  /** The inner loop of `_help_spans`: the segments between start sentinels. */
  method PushSegments(segments: seq<string>, tokens: seq<Token>) returns (out: seq<Token>)
    ensures out == tokens + Segments(segments)
  {
    out := tokens;
    for j := 0 to |segments|
      invariant out == tokens + Segments(segments[..j])
    {
      NextSegment(segments, j, tokens);
      if j > 0 {
        out := out + [StartCommand];
      }
      out := HelpGuillemets(segments[j], out);
    }
    assert segments[..|segments|] == segments;
  }

  /** `_help_spans`. */
  method HelpSpans(template: string) returns (tokens: seq<Token>)
    ensures tokens == Tokens(template)
    ensures Print(tokens) == template && forall t <- tokens :: Tidy(t)
  {
    tokens := PushParts(Split(template, BOT));
    PrintingRestoresTemplate(template);
    TokensAreTidy(template);
  }

  /** The outer loop: the parts between bot sentinels. */
  method PushParts(parts: seq<string>) returns (tokens: seq<Token>)
    ensures tokens == Parts(parts)
  {
    tokens := [];
    for i := 0 to |parts|
      invariant tokens == Parts(parts[..i])
    {
      NextPart(parts, i);
      if i > 0 {
        tokens := tokens + [BotName];
      }
      tokens := PushSegments(Split(parts[i], START), tokens);
    }
    assert parts[..|parts|] == parts;
  }
}
