/** The conversation export helpers of the React client: HTML escaping, the
    safe file name, the choice of exporter by format, the message header,
    the line layout of the text export and the structure of the Word export. */
module Export {
  import opened Util
  import opened Text

  /** Whether a message was sent by the user or received from the agent. */
  datatype Direction = Sent | Received

  /** A message as the export sees it; `date` is the stored date string. */
  datatype ExportMessage = ExportMessage(order: int, direction: Direction, author: string, body: string, date: string)

  datatype ExportThread = ExportThread(id: string, subject: string, threadLabel: string, messages: seq<ExportMessage>)

  datatype ExportPayload = ExportPayload(agentName: string, scopeLabel: string, threads: seq<ExportThread>)

  // ---------------------------------------------------------------------
  // HTML escaping

  /** What escaping turns one character into. */
  function EscapeChar(c: char): string {
    if c == '&' then "&amp;" else if c == '<' then "&lt;" else if c == '>' then "&gt;" else [c]
  }

  /** `escapeHtml`: `&` replaced first, then `<`, then `>`. */
  function EscapeHtml(s: string): string {
    ReplaceAll(ReplaceAll(ReplaceAll(s, "&", "&amp;"), "<", "&lt;"), ">", "&gt;")
  }

  /** The reverse replacements: `&lt;`, then `&gt;`, then `&amp;`. */
  function UnescapeHtml(s: string): string {
    ReplaceAll(ReplaceAll(ReplaceAll(s, "&lt;", "<"), "&gt;", ">"), "&amp;", "&")
  }

  /** A character that no piece contains is not in the joined string. */
  lemma {:induction false} MapConcatAvoids(s: string, f: char -> string, x: char)
    requires forall c :: x !in f(c)
    ensures x !in MapConcat(s, f)
  {
    if s != [] {
      MapConcatAvoids(s[1..], f, x);
    }
  }

  /** A block holding no character that starts the pattern is inert. */
  lemma InertAbsent(x: string, pat: string)
    requires |pat| > 0 && pat[0] !in x
    ensures Inert(x, pat)
  {
  }

  /** A block that starts like the pattern, differs from it at the second
      character and holds no second occurrence of its first character is inert. */
  lemma InertEntity(rest: string, pat: string)
    requires |pat| >= 2 && |rest| >= |pat| - 1 && rest[0] != pat[1] && pat[0] !in rest
    ensures Inert([pat[0]] + rest, pat)
  {
    var x := [pat[0]] + rest;
    assert x[1] != pat[1];
    forall i | 1 <= i < |x| ensures x[i] != pat[0] {
      assert x[i] == rest[i - 1];
    }
  }

  /** The string after the first pass, character by character. */
  function AmpStep(c: char): string {
    if c == '&' then "&amp;" else [c]
  }

  /** The string after the second pass, character by character. */
  function LtStep(c: char): string {
    if c == '<' then "&lt;" else AmpStep(c)
  }

  lemma AmpPass(s: string)
    ensures ReplaceAll(s, "&", "&amp;") == MapConcat(s, AmpStep)
  {
    forall c ensures Singleton(c) == "&" || Inert(Singleton(c), "&") {
      if c != '&' {
        InertAbsent([c], "&");
      }
    }
    MapConcatSingleton(s);
    ReplaceMapConcat(s, Singleton, AmpStep, "&", "&amp;");
  }

  lemma LtPass(s: string)
    ensures ReplaceAll(MapConcat(s, AmpStep), "<", "&lt;") == MapConcat(s, LtStep)
  {
    forall c ensures AmpStep(c) == "<" || Inert(AmpStep(c), "<") {
      if c != '<' {
        InertAbsent(AmpStep(c), "<");
      }
    }
    ReplaceMapConcat(s, AmpStep, LtStep, "<", "&lt;");
  }

  lemma GtPass(s: string)
    ensures ReplaceAll(MapConcat(s, LtStep), ">", "&gt;") == MapConcat(s, EscapeChar)
  {
    forall c ensures LtStep(c) == ">" || Inert(LtStep(c), ">") {
      if c != '>' {
        InertAbsent(LtStep(c), ">");
      }
    }
    ReplaceMapConcat(s, LtStep, EscapeChar, ">", "&gt;");
  }

  /** Because `&` is replaced before the entities that contain it are
      produced, the three passes escape each character on its own. */
  lemma EscapePerChar(s: string)
    ensures EscapeHtml(s) == MapConcat(s, EscapeChar)
  {
    AmpPass(s);
    LtPass(s);
    GtPass(s);
  }

  /** Escaped text holds no angle bracket. */
  lemma EscapeNoBrackets(s: string)
    ensures '<' !in EscapeHtml(s) && '>' !in EscapeHtml(s)
  {
    EscapePerChar(s);
    MapConcatAvoids(s, EscapeChar, '<');
    MapConcatAvoids(s, EscapeChar, '>');
  }

  /** The text after undoing `&lt;`, character by character. */
  function UnLt(c: char): string {
    if c == '<' then "<" else EscapeChar(c)
  }

  /** The text after also undoing `&gt;`, character by character. */
  function UnGt(c: char): string {
    if c == '>' then ">" else UnLt(c)
  }

  lemma UnLtPass(s: string)
    ensures ReplaceAll(MapConcat(s, EscapeChar), "&lt;", "<") == MapConcat(s, UnLt)
  {
    forall c ensures EscapeChar(c) == "&lt;" || Inert(EscapeChar(c), "&lt;") {
      if c == '&' {
        assert "&amp;" == "&" + "amp;";
        InertEntity("amp;", "&lt;");
      } else if c == '>' {
        assert "&gt;" == "&" + "gt;";
        InertEntity("gt;", "&lt;");
      } else if c != '<' {
        InertAbsent([c], "&lt;");
      }
    }
    ReplaceMapConcat(s, EscapeChar, UnLt, "&lt;", "<");
  }

  lemma UnGtPass(s: string)
    ensures ReplaceAll(MapConcat(s, UnLt), "&gt;", ">") == MapConcat(s, UnGt)
  {
    forall c ensures UnLt(c) == "&gt;" || Inert(UnLt(c), "&gt;") {
      if c == '&' {
        assert "&amp;" == "&" + "amp;";
        InertEntity("amp;", "&gt;");
      } else if c != '>' {
        InertAbsent(UnLt(c), "&gt;");
      }
    }
    ReplaceMapConcat(s, UnLt, UnGt, "&gt;", ">");
  }

  lemma UnAmpPass(s: string)
    ensures ReplaceAll(MapConcat(s, UnGt), "&amp;", "&") == s
  {
    forall c ensures UnGt(c) == "&amp;" || Inert(UnGt(c), "&amp;") {
      if c != '&' {
        InertAbsent(UnGt(c), "&amp;");
      }
    }
    ReplaceMapConcat(s, UnGt, Singleton, "&amp;", "&");
    MapConcatSingleton(s);
  }

  /** Undoing the replacements in reverse order gives the original text back. */
  lemma UnescapeEscape(s: string)
    ensures UnescapeHtml(EscapeHtml(s)) == s
  {
    EscapePerChar(s);
    UnLtPass(s);
    UnGtPass(s);
    UnAmpPass(s);
  }

  // ---------------------------------------------------------------------
  // File name and format

  /** `s.replace(/\s+/g, '_')`: every run of white space becomes one `_`. */
  function CollapseSpaces(s: string): string
    decreases |s|
  {
    if s == [] then []
    else if IsSpace(s[0]) then
      TrimStartSpec(s[1..]);
      "_" + CollapseSpaces(TrimStart(s[1..]))
    else [s[0]] + CollapseSpaces(s[1..])
  }

  /** The file name stem: white space runs to `_`, then lower case. */
  function SafeFileBase(name: string): string {
    Lower(CollapseSpaces(name))
  }

  /** White space in front of a non-space start is all `trimStart` removes. */
  lemma {:induction false} TrimStartRun(w: string, t: string)
    requires forall i :: 0 <= i < |w| ==> IsSpace(w[i])
    requires t == [] || !IsSpace(t[0])
    ensures TrimStart(w + t) == t
  {
    if w == [] {
      assert w + t == t;
    } else {
      assert (w + t)[1..] == w[1..] + t;
      TrimStartRun(w[1..], t);
    }
  }

  /** A run of white space, however long, becomes a single `_`. */
  lemma CollapseRun(w: string, t: string)
    requires w != [] && forall i :: 0 <= i < |w| ==> IsSpace(w[i])
    requires t == [] || !IsSpace(t[0])
    ensures CollapseSpaces(w + t) == "_" + CollapseSpaces(t)
  {
    assert (w + t)[1..] == w[1..] + t;
    TrimStartRun(w[1..], t);
  }

  /** A character that is not white space is kept as it is. */
  lemma CollapseKeeps(c: char, t: string)
    requires !IsSpace(c)
    ensures CollapseSpaces([c] + t) == [c] + CollapseSpaces(t)
  {
    assert ([c] + t)[1..] == t;
  }

  /** After collapsing, no white space is left, and nothing got longer. */
  lemma {:induction false} CollapseNoSpace(s: string)
    ensures |CollapseSpaces(s)| <= |s|
    ensures forall i :: 0 <= i < |CollapseSpaces(s)| ==> !IsSpace(CollapseSpaces(s)[i])
    decreases |s|
  {
    if s != [] {
      if IsSpace(s[0]) {
        TrimStartSpec(s[1..]);
        CollapseNoSpace(TrimStart(s[1..]));
      } else {
        CollapseNoSpace(s[1..]);
      }
    }
  }

  /** The file name stem has no white space and no upper-case letter. */
  lemma SafeFileBaseClean(name: string)
    ensures |SafeFileBase(name)| <= |name|
    ensures forall i :: 0 <= i < |SafeFileBase(name)| ==>
      !IsSpace(SafeFileBase(name)[i]) && !IsUpper(SafeFileBase(name)[i])
  {
    CollapseNoSpace(name);
  }

  /** The three exporters. */
  datatype ExportKind = TextExport | PdfExport | DocExport

  /** The `switch` on the format: "pdf" and "doc" by name, anything else text. */
  function KindOf(format: string): (k: ExportKind)
    ensures k == PdfExport <==> format == "pdf"
    ensures k == DocExport <==> format == "doc"
    ensures k == TextExport <==> format != "pdf" && format != "doc"
  {
    if format == "pdf" then PdfExport else if format == "doc" then DocExport else TextExport
  }

  function Extension(k: ExportKind): string {
    match k
    case TextExport => ".txt"
    case PdfExport => ".pdf"
    case DocExport => ".doc"
  }

  /** The name of the file an export produces. */
  function ExportFileName(format: string, fileBaseName: string): string {
    SafeFileBase(fileBaseName) + Extension(KindOf(format))
  }

  /** The file name is the clean stem followed by the format's extension:
      ".pdf" for "pdf", ".doc" for "doc", ".txt" for anything else. */
  lemma ExportFileNameSpec(format: string, fileBaseName: string)
    ensures var name := ExportFileName(format, fileBaseName);
      var stem := SafeFileBase(fileBaseName);
      && |name| == |stem| + 4 && name[..|stem|] == stem
      && (forall i :: 0 <= i < |stem| ==> !IsSpace(name[i]))
      && name[|stem|..] == (if format == "pdf" then ".pdf" else if format == "doc" then ".doc" else ".txt")
  {
    SafeFileBaseClean(fileBaseName);
  }

  // ---------------------------------------------------------------------
  // Message header

  function DirectionLabel(d: Direction): string {
    if d == Sent then "Sent" else "Received"
  }

  /** The header after the number: direction, author and time in brackets. */
  function HeaderTail(m: ExportMessage, formatDate: string -> string): string {
    " (" + DirectionLabel(m.direction) + " by " + m.author + " at " + formatDate(m.date) + ")"
  }

  /** `formatMessageHeader`; `formatDate` is `new Date(date).toLocaleString()`. */
  function FormatMessageHeader(m: ExportMessage, formatDate: string -> string): string {
    "Message " + IntToString(m.order) + HeaderTail(m, formatDate)
  }

  /** The bracket after the number opens with a space, and its first letter
      is 'S' for a sent message and 'R' for a received one. */
  lemma HeaderTailStart(m: ExportMessage, formatDate: string -> string)
    ensures var t := HeaderTail(m, formatDate);
      |t| >= 3 && t[0] == ' ' && t[2] == (if m.direction == Sent then 'S' else 'R')
  {
  }

  /** The header gives the message's number and its direction back: two
      messages numbered from zero up with the same header have the same number
      and the same direction. */
  lemma HeaderIdentifies(m1: ExportMessage, m2: ExportMessage, formatDate: string -> string)
    requires m1.order >= 0 && m2.order >= 0
    requires FormatMessageHeader(m1, formatDate) == FormatMessageHeader(m2, formatDate)
    ensures m1.order == m2.order && m1.direction == m2.direction
  {
    var prefix := "Message ";
    var d1, d2 := NatToString(m1.order), NatToString(m2.order);
    var t1, t2 := HeaderTail(m1, formatDate), HeaderTail(m2, formatDate);
    HeaderTailStart(m1, formatDate);
    HeaderTailStart(m2, formatDate);
    DigitRun(prefix, d1, t1);
    DigitRun(prefix, d2, t2);
    var h := prefix + d1 + t1;
    assert h == prefix + d2 + t2;
    assert |d1| == |d2|;
    assert d1 == h[8..8 + |d1|] == d2;
    NatToStringInjective(m1.order, m2.order);
    assert t1 == h[8 + |d1|..] == t2;
  }

  /** In `prefix + d + t` with `d` all digits and `t` starting with a
      non-digit, the digits run exactly from `|prefix|` to `|prefix| + |d|`. */
  lemma DigitRun(prefix: string, d: string, t: string)
    requires forall i :: 0 <= i < |d| ==> IsDigit(d[i])
    requires |t| > 0 && !IsDigit(t[0])
    ensures var h := prefix + d + t;
      && |h| > |prefix| + |d| && !IsDigit(h[|prefix| + |d|])
      && forall i :: |prefix| <= i < |prefix| + |d| ==> IsDigit(h[i])
  {
    var h := prefix + d + t;
    forall i | |prefix| <= i < |prefix| + |d| ensures IsDigit(h[i]) {
      assert h[i] == d[i - |prefix|];
    }
  }

  // ---------------------------------------------------------------------
  // Text export

  /** The separator: 80 dashes and a line break. */
  function SectionRule(): string {
    Repeat('-', 80) + "\n"
  }

  function TitleLine(p: ExportPayload): string {
    p.scopeLabel + " — " + p.agentName
  }

  function DownloadedLine(downloadedAt: string): string {
    "Downloaded: " + downloadedAt
  }

  function ThreadTitle(n: nat, subject: string): string {
    "Thread " + NatToString(n) + ": " + subject
  }

  /** A message's three lines: header, body and an empty line. */
  function MessageLines(formatDate: string -> string): (ExportMessage, nat) -> seq<string> {
    (m: ExportMessage, n: nat) => [FormatMessageHeader(m, formatDate), m.body, ""]
  }

  /** Thread number `n` opens with its title and a separator. */
  function ThreadOpening(t: ExportThread, n: nat): seq<string> {
    [ThreadTitle(n, t.subject), SectionRule()]
  }

  function ThreadClosing(t: ExportThread): seq<string> {
    [SectionRule()]
  }

  function ThreadMessages(t: ExportThread): seq<ExportMessage> {
    t.messages
  }

  /** An item's block: its opening, its children rendered in order and its closing. */
  function Block<K, M, U>(opening: (K, nat) -> seq<U>, children: K -> seq<M>,
                          renderChild: (M, nat) -> seq<U>, closing: K -> seq<U>): (K, nat) -> seq<U> {
    (k: K, n: nat) => opening(k, n) + Numbered(children(k), 0, renderChild) + closing(k)
  }

  /** Thread number `n`: title, separator, three lines per message, separator. */
  function ThreadLines(formatDate: string -> string): (ExportThread, nat) -> seq<string> {
    Block(ThreadOpening, ThreadMessages, MessageLines(formatDate), ThreadClosing)
  }

  function HeaderLines(p: ExportPayload, downloadedAt: string): seq<string> {
    [TitleLine(p), DownloadedLine(downloadedAt), SectionRule()]
  }

  /** Every line of the text export, threads numbered from 1. */
  function TextLines(p: ExportPayload, downloadedAt: string, formatDate: string -> string): seq<string> {
    HeaderLines(p, downloadedAt) + Numbered(p.threads, 1, ThreadLines(formatDate))
  }

  /** The number of lines the threads take: for each, three plus three per message. */
  function ThreadLineCount(threads: seq<ExportThread>): nat {
    if threads == [] then 0 else 3 + 3 * |threads[0].messages| + ThreadLineCount(threads[1..])
  }

  /** When every item renders as three entries, item `j` takes entries
      `3j`, `3j+1` and `3j+2`. */
  lemma {:induction false} NumberedTriples<T, U>(xs: seq<T>, first: nat, f: (T, nat) -> seq<U>)
    requires forall x, n :: |f(x, n)| == 3
    ensures |Numbered(xs, first, f)| == 3 * |xs|
    ensures forall j :: 0 <= j < |xs| ==> Numbered(xs, first, f)[3 * j..3 * j + 3] == f(xs[j], first + j)
  {
    if xs != [] {
      NumberedTriples(xs[1..], first + 1, f);
      var all := Numbered(xs, first, f);
      var rest := Numbered(xs[1..], first + 1, f);
      assert all == f(xs[0], first) + rest;
      forall j | 1 <= j < |xs| ensures all[3 * j..3 * j + 3] == f(xs[j], first + j) {
        assert xs[j] == xs[1..][j - 1];
        assert all[3 * j..3 * j + 3] == rest[3 * (j - 1)..3 * (j - 1) + 3];
      }
    }
  }

  /** Message `j` of a thread takes lines `3j`, `3j+1` and `3j+2` of the
      thread's message lines: its header, its body and an empty line. */
  lemma MessageLinesAt(ms: seq<ExportMessage>, first: nat, formatDate: string -> string)
    ensures var lines := Numbered(ms, first, MessageLines(formatDate));
      && |lines| == 3 * |ms|
      && forall j :: 0 <= j < |ms| ==>
        lines[3 * j] == FormatMessageHeader(ms[j], formatDate) && lines[3 * j + 1] == ms[j].body && lines[3 * j + 2] == ""
  {
    var f := MessageLines(formatDate);
    NumberedTriples(ms, first, f);
    var lines := Numbered(ms, first, f);
    forall j | 0 <= j < |ms|
      ensures lines[3 * j] == FormatMessageHeader(ms[j], formatDate)
      ensures lines[3 * j + 1] == ms[j].body && lines[3 * j + 2] == ""
    {
      TripleAt(lines, j, FormatMessageHeader(ms[j], formatDate), ms[j].body, "");
    }
  }

  /** A three-entry slice at `3j` gives the entries at `3j`, `3j+1` and `3j+2`. */
  lemma TripleAt<U>(xs: seq<U>, j: nat, a: U, b: U, c: U)
    requires 3 * j + 3 <= |xs| && xs[3 * j..3 * j + 3] == [a, b, c]
    ensures xs[3 * j] == a && xs[3 * j + 1] == b && xs[3 * j + 2] == c
  {
    assert xs[3 * j..3 * j + 3][0] == a;
    assert xs[3 * j..3 * j + 3][1] == b;
    assert xs[3 * j..3 * j + 3][2] == c;
  }

  /** An item's block with a two-entry opening, three entries per child and
      a one-entry closing: where each part lies. */
  lemma BlockShape<K, M, U>(opening: (K, nat) -> seq<U>, children: K -> seq<M>,
                            renderChild: (M, nat) -> seq<U>, closing: K -> seq<U>, k: K, n: nat)
    requires |opening(k, n)| == 2 && |closing(k)| == 1
    requires forall x, m :: |renderChild(x, m)| == 3
    ensures var b := Block(opening, children, renderChild, closing)(k, n);
      && |b| == 3 + 3 * |children(k)|
      && b[..2] == opening(k, n) && b[|b| - 1..] == closing(k)
      && forall j :: 0 <= j < |children(k)| ==> b[2 + 3 * j..5 + 3 * j] == renderChild(children(k)[j], j)
  {
    var kids := children(k);
    var middle := Numbered(kids, 0, renderChild);
    NumberedTriples(kids, 0, renderChild);
    var b := Block(opening, children, renderChild, closing)(k, n);
    assert b == opening(k, n) + middle + closing(k);
    forall j | 0 <= j < |kids| ensures b[2 + 3 * j..5 + 3 * j] == renderChild(kids[j], j) {
      assert b[2 + 3 * j..5 + 3 * j] == middle[3 * j..3 * j + 3];
    }
  }

  /** A thread's lines: its title, a separator, header, body and an empty
      line per message, and a closing separator. */
  lemma ThreadLinesShape(t: ExportThread, n: nat, formatDate: string -> string)
    ensures var b := ThreadLines(formatDate)(t, n);
      && |b| == 3 + 3 * |t.messages|
      && b[0] == ThreadTitle(n, t.subject) && b[1] == SectionRule() && b[|b| - 1] == SectionRule()
      && forall j :: 0 <= j < |t.messages| ==>
        b[2 + 3 * j] == FormatMessageHeader(t.messages[j], formatDate)
        && b[3 + 3 * j] == t.messages[j].body && b[4 + 3 * j] == ""
  {
    var f := MessageLines(formatDate);
    BlockShape(ThreadOpening, ThreadMessages, f, ThreadClosing, t, n);
    var b := ThreadLines(formatDate)(t, n);
    assert b[..2] == ThreadOpening(t, n);
    assert b[0] == b[..2][0] && b[1] == b[..2][1];
    assert b[|b| - 1] == b[|b| - 1..][0];
    forall j | 0 <= j < |t.messages|
      ensures b[2 + 3 * j] == FormatMessageHeader(t.messages[j], formatDate)
      ensures b[3 + 3 * j] == t.messages[j].body && b[4 + 3 * j] == ""
    {
      var triple := b[2 + 3 * j..5 + 3 * j];
      assert triple == f(t.messages[j], j);
      assert b[2 + 3 * j] == triple[0] && b[3 + 3 * j] == triple[1] && b[4 + 3 * j] == triple[2];
    }
  }

  /** Threads take three lines plus three per message. */
  lemma {:induction false} ThreadLinesCount(ts: seq<ExportThread>, first: nat, formatDate: string -> string)
    ensures |Numbered(ts, first, ThreadLines(formatDate))| == ThreadLineCount(ts)
  {
    if ts != [] {
      ThreadLinesShape(ts[0], first, formatDate);
      ThreadLinesCount(ts[1..], first + 1, formatDate);
    }
  }

  /** The text export has three header lines and then, per thread, three
      lines plus three per message. */
  lemma TextLinesCount(p: ExportPayload, downloadedAt: string, formatDate: string -> string)
    ensures |TextLines(p, downloadedAt, formatDate)| == 3 + ThreadLineCount(p.threads)
  {
    ThreadLinesCount(p.threads, 1, formatDate);
  }

  /** Thread `i` (counting from 0) is numbered `i + 1`: its lines come after
      those of the threads before it and before those of the threads after it. */
  lemma ThreadsInOrder(p: ExportPayload, downloadedAt: string, formatDate: string -> string, i: nat)
    requires i < |p.threads|
    ensures TextLines(p, downloadedAt, formatDate)
         == HeaderLines(p, downloadedAt) + Numbered(p.threads[..i], 1, ThreadLines(formatDate))
          + ThreadLines(formatDate)(p.threads[i], i + 1)
          + Numbered(p.threads[i + 1..], i + 2, ThreadLines(formatDate))
  {
    NumberedAt(p.threads, i, 1, ThreadLines(formatDate));
  }

  /** `lines.join('\n')`. */
  function Join(lines: seq<string>, sep: string): string {
    if lines == [] then [] else if |lines| == 1 then lines[0] else lines[0] + sep + Join(lines[1..], sep)
  }

  /** Two nested `forEach` loops pushing into `lines`: for every item, numbered
      from 1, its opening, each of its children and its closing. */
  method PushBlocks<K, M, U>(lines: seq<U>, items: seq<K>, opening: (K, nat) -> seq<U>, children: K -> seq<M>,
                             renderChild: (M, nat) -> seq<U>, closing: K -> seq<U>)
    returns (out: seq<U>)
    ensures out == lines + Numbered(items, 1, Block(opening, children, renderChild, closing))
  {
    var block := Block(opening, children, renderChild, closing);
    out := lines;
    var i := 0;
    while i < |items|
      invariant 0 <= i <= |items|
      invariant out == lines + Numbered(items[..i], 1, block)
    {
      var item := items[i];
      var kids := children(item);
      ghost var before := out;
      out := out + opening(item, i + 1);
      var j := 0;
      while j < |kids|
        invariant 0 <= j <= |kids|
        invariant out == before + opening(item, i + 1) + Numbered(kids[..j], 0, renderChild)
      {
        out := out + renderChild(kids[j], j);
        NumberedSnoc(kids[..j], kids[j], 0, renderChild);
        assert kids[..j + 1] == kids[..j] + [kids[j]];
        j := j + 1;
      }
      assert kids[..j] == kids;
      out := out + closing(item);
      assert out == before + block(item, 1 + i);
      NumberedSnoc(items[..i], item, 1, block);
      assert items[..i + 1] == items[..i] + [item];
      i := i + 1;
    }
    assert items[..i] == items;
  }

  /** `exportText`'s lines: the three header lines, then every thread. */
  method ExportTextLines(p: ExportPayload, downloadedAt: string, formatDate: string -> string)
    returns (lines: seq<string>)
    ensures lines == TextLines(p, downloadedAt, formatDate)
  {
    lines := HeaderLines(p, downloadedAt);
    lines := PushBlocks(lines, p.threads, ThreadOpening, ThreadMessages, MessageLines(formatDate), ThreadClosing);
  }

  // ---------------------------------------------------------------------
  // Word export

  /** What a message body becomes in the Word export: escaped, with each line
      break turned into `<br/>`. */
  function DocBody(body: string): string {
    ReplaceAll(EscapeHtml(body), "\n", "<br/>")
  }

  /** The per-character form of the Word export's body text. */
  function DocChar(c: char): string {
    if c == '\n' then "<br/>" else EscapeChar(c)
  }

  /** Escaping and the line-break replacement work on each character alone:
      a line break becomes `<br/>`, `&`, `<` and `>` become entities, and every
      other character stays. */
  lemma DocBodyPerChar(body: string)
    ensures DocBody(body) == MapConcat(body, DocChar)
  {
    EscapePerChar(body);
    forall c ensures EscapeChar(c) == "\n" || Inert(EscapeChar(c), "\n") {
      if c != '\n' {
        InertAbsent(EscapeChar(c), "\n");
      }
    }
    ReplaceMapConcat(body, EscapeChar, DocChar, "\n", "<br/>");
  }

  /** A message of the Word export: the header line and the body. */
  datatype DocArticle = DocArticle(meta: string, body: string)

  /** A thread of the Word export: its heading and its messages. */
  datatype DocSection = DocSection(heading: string, articles: seq<DocArticle>)

  /** The sections of the Word export, threads numbered from 1. The heading
      carries the subject as it is, unescaped; bodies go through `DocBody`. */
  function DocSections(p: ExportPayload, formatDate: string -> string): (r: seq<DocSection>)
    ensures |r| == |p.threads|
    ensures forall i :: 0 <= i < |r| ==>
      && r[i].heading == ThreadTitle(i + 1, p.threads[i].subject)
      && |r[i].articles| == |p.threads[i].messages|
      && forall j :: 0 <= j < |r[i].articles| ==>
        r[i].articles[j] == DocArticle(FormatMessageHeader(p.threads[i].messages[j], formatDate),
                                       DocBody(p.threads[i].messages[j].body))
  {
    seq(|p.threads|, i requires 0 <= i < |p.threads| => DocSectionOf(p.threads[i], i + 1, formatDate))
  }

  /** Thread number `n` of the Word export. */
  function DocSectionOf(t: ExportThread, n: nat, formatDate: string -> string): DocSection {
    DocSection(ThreadTitle(n, t.subject),
      seq(|t.messages|, j requires 0 <= j < |t.messages| =>
        DocArticle(FormatMessageHeader(t.messages[j], formatDate), DocBody(t.messages[j].body))))
  }

  // ---------------------------------------------------------------------
  // Dispatch

  /** What an export produces: the text file, the Word document's sections,
      or a PDF (its layout is not part of this model). */
  datatype ExportedFile =
    | TextFile(content: string, fileName: string)
    | DocFile(sections: seq<DocSection>, fileName: string)
    | PdfFile(fileName: string)

  /** `exportConversations`: the safe file name, then the exporter the format picks. */
  method ExportConversations(p: ExportPayload, format: string, fileBaseName: string,
                             downloadedAt: string, formatDate: string -> string) returns (out: ExportedFile)
    ensures out.fileName == ExportFileName(format, fileBaseName)
    ensures out.TextFile? <==> KindOf(format) == TextExport
    ensures out.DocFile? <==> KindOf(format) == DocExport
    ensures out.TextFile? ==> out.content == Join(TextLines(p, downloadedAt, formatDate), "\n")
    ensures out.DocFile? ==> out.sections == DocSections(p, formatDate)
  {
    var safeBase := SafeFileBase(fileBaseName);
    match KindOf(format)
    case PdfExport =>
      out := PdfFile(safeBase + ".pdf");
    case DocExport =>
      out := DocFile(DocSections(p, formatDate), safeBase + ".doc");
    case TextExport =>
      var lines := ExportTextLines(p, downloadedAt, formatDate);
      out := TextFile(Join(lines, "\n"), safeBase + ".txt");
  }
}
