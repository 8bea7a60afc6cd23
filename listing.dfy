/** What the da65 listing looks like: properties of the output routines of
    module Render (src/da65/output.c), stated for all settings, all text
    written before and all arguments. */
module Listing {
  import opened Text
  import opened Render

  function Max(a: nat, b: nat): nat
  {
    if a < b then b else a
  }

  // ---------------------------------------------------------------------------
  // The pass gate

  /** Outside the final pass the three primitives, and with them every
      routine built on them, leave the text and the counters untouched. */
  lemma OnlyFinalPassWrites(c: Config, s: Sink, t: string, n: nat, name: string, comment: Option<string>,
                            v: U32, code: seq<Byte>, pc: nat, count: nat, addrSize: Option<string>, enabled: bool)
    requires c.pass != Final && pc + count <= |code|
    ensures Emit(c, s, t) == s && Pad(c, s, n) == s && Feed(c, s) == s
    ensures Label(c, s, name) == s && Forward(c, s, name, comment, v) == s && Constant(c, s, name, comment, v) == s
    ensures DataLine(c, s, name, t, code, pc, count) == s && LineComment(c, s, code, pc, count) == s
    ensures Separator(c, s) == s && SegmentStart(c, s, name, addrSize) == s && SegmentEnd(c, s, name) == s
    ensures Comment(c, s, t) == s && Settings(c, s, name) == s && MFlag(c, s, enabled) == s && XFlag(c, s, enabled) == s
  {
  }

  /** OpenOutput is the exception: it writes the first page header in every
      pass and starts the page below it, in column 1. */
  lemma OpenIgnoresPass(c: Config, s: Sink)
    ensures Open(c, s) == Open(c.(pass := Final), s) == Open(c.(pass := Exploratory), s)
    ensures Open(c, s) == Sink(s.text + PageHeader(c.header, s.page), 1, HeaderLines, s.page)
  {
  }

  /** A tag and a one-line value, ended by a line terminator, make one line. */
  lemma OneLine(tag: string, value: string)
    requires '\n' !in tag && '\n' !in value
    ensures Newlines(HeaderLine(tag, value)) == 1
  {
    NoNewlines(tag);
    NoNewlines(value);
    NewlinesAdd(tag, value);
    NewlinesAdd(tag + value, "\n");
    OneNewline();
  }

  /** Four lines of one line terminator each and a blank line make five lines. */
  lemma FiveLines(l1: string, l2: string, l3: string, l4: string)
    requires Newlines(l1) == 1 && Newlines(l2) == 1 && Newlines(l3) == 1 && Newlines(l4) == 1
    ensures Newlines(l1 + l2 + l3 + l4 + "\n") == 5
  {
    OneNewline();
    NewlinesAdd(l1, l2);
    NewlinesAdd(l1 + l2, l3);
    NewlinesAdd(l1 + l2 + l3, l4);
    NewlinesAdd(l1 + l2 + l3 + l4, "\n");
  }

  /** The page header takes five lines when the strings it shows are one
      line each: four text lines and a blank one. */
  lemma HeaderHasFiveLines(h: Header, page: nat)
    requires '\n' !in h.version && '\n' !in h.created && '\n' !in h.inputFile
    ensures Newlines(PageHeader(h, page)) == HeaderLines
  {
    DecRoundTrip(page);
    assert '\n' !in Dec(page);
    OneLine("; da65 V", h.version);
    OneLine("; Created:    ", h.created);
    OneLine("; Input file: ", h.inputFile);
    OneLine("; Page:       ", Dec(page));
    FiveLines(HeaderLine("; da65 V", h.version), HeaderLine("; Created:    ", h.created),
              HeaderLine("; Input file: ", h.inputFile), HeaderLine("; Page:       ", Dec(page)));
  }

  // ---------------------------------------------------------------------------
  // The primitives

  /** Output appends exactly the text and moves the column by its length. */
  lemma EmitRule(c: Config, s: Sink, t: string)
    requires c.pass == Final
    ensures Emit(c, s, t) == Sink(s.text + t, s.col + |t|, s.line, s.page)
  {
  }

  /** Indent(n) appends max(0, n - Col) blanks and leaves Col at max(Col, n). */
  lemma PadRule(c: Config, s: Sink, n: nat)
    requires c.pass == Final
    ensures Pad(c, s, n).col == Max(s.col, n)
    ensures Pad(c, s, n).text == s.text + Gap(s.col, n)
    ensures |Gap(s.col, n)| == Max(s.col, n) - s.col
    ensures forall i :: 0 <= i < |Gap(s.col, n)| ==> Gap(s.col, n)[i] == ' '
    ensures Pad(c, s, n).line == s.line && Pad(c, s, n).page == s.page
  {
    SpacesShape(Max(s.col, n) - s.col);
  }

  /** LineFeed ends the line and puts Col back to 1. Without pagination
      nothing else moves; with it, Line counts the line, and the line that
      makes Line reach PageLength turns the page: an optional form feed, the
      header of the next page, and Line set to the header's five lines. */
  lemma FeedRule(c: Config, s: Sink)
    requires c.pass == Final
    ensures Feed(c, s).col == 1
    ensures c.pageLength == 0 ==> Feed(c, s) == Sink(s.text + "\n", 1, s.line, s.page)
    ensures c.pageLength > 0 && s.line + 1 < c.pageLength ==>
              Feed(c, s) == Sink(s.text + "\n", 1, s.line + 1, s.page)
    ensures c.pageLength > 0 && s.line + 1 >= c.pageLength ==>
              Feed(c, s) == Sink(s.text + "\n" + (if c.formFeeds then [FormFeed] else [])
                                 + PageHeader(c.header, s.page + 1), 1, HeaderLines, s.page + 1)
  {
    if c.pageLength > 0 && s.line + 1 >= c.pageLength && !c.formFeeds {
      assert s.text + "\n" + [] == s.text + "\n";
    }
  }

  /** Col never drops below 1: the primitives only add to it or reset it
      to 1, and every other routine writes through them. */
  lemma ColumnStaysPositive(c: Config, s: Sink, t: string, n: nat)
    requires s.col >= 1
    ensures Emit(c, s, t).col >= 1 && Pad(c, s, n).col >= 1 && Feed(c, s).col >= 1 && Open(c, s).col >= 1
  {
  }

  // ---------------------------------------------------------------------------
  // Col is the screen column

  /** The number of characters on the last line of t, after its last '\n'. */
  function LineLen(t: string): nat
  {
    if t == [] then 0
    else if t[|t| - 1] == '\n' then 0
    else LineLen(t[..|t| - 1]) + 1
  }

  /** Col is the position of the next character on the current line: one
      past the characters already written on it. */
  predicate Tracks(s: Sink)
  {
    s.col == 1 + LineLen(s.text)
  }

  lemma {:induction false} LineLenAppend(a: string, b: string)
    requires '\n' !in b
    ensures LineLen(a + b) == LineLen(a) + |b|
    decreases |b|
  {
    if b == [] {
      assert a + b == a;
    } else {
      var front := b[..|b| - 1];
      assert (a + b)[..|a + b| - 1] == a + front;
      assert b[|b| - 1] in b;
      LineLenAppend(a, front);
    }
  }

  /** Output of text without a line break moves Col with the text. */
  lemma EmitTracks(c: Config, s: Sink, t: string)
    requires Tracks(s) && '\n' !in t
    ensures Tracks(Emit(c, s, t))
  {
    if c.pass == Final {
      LineLenAppend(s.text, t);
    }
  }

  /** Indent's blanks move Col with the text. */
  lemma PadTracks(c: Config, s: Sink, n: nat)
    requires Tracks(s)
    ensures Tracks(Pad(c, s, n))
  {
    if c.pass == Final && s.col < n {
      SpacesShape(n - s.col);
      assert '\n' !in Spaces(n - s.col);
      LineLenAppend(s.text, Spaces(n - s.col));
    }
  }

  /** After a line feed Col is 1 on an empty line, also after a page header. */
  lemma FeedTracks(c: Config, s: Sink)
    requires c.pass == Final || Tracks(s)
    ensures Tracks(Feed(c, s))
  {
    if c.pass == Final {
      var r := Feed(c, s);
      assert r.text[|r.text| - 1] == '\n';
    }
  }

  /** After OpenOutput's header Col is 1 on an empty line. */
  lemma OpenTracks(c: Config, s: Sink)
    ensures Tracks(Open(c, s))
  {
    var r := Open(c, s);
    assert r.text[|r.text| - 1] == '\n';
  }

  // ---------------------------------------------------------------------------
  // Pagination

  /** k line feeds in a row. */
  function Feeds(c: Config, s: Sink, k: nat): Sink
  {
    if k == 0 then s else Feed(c, Feeds(c, s, k - 1))
  }

  /** Line feeds that do not reach the end of the page stay on it: each adds
      one line to the text and one to Line. */
  lemma {:induction false} FeedsWithinPage(c: Config, s: Sink, k: nat)
    requires c.pass == Final && c.pageLength > 0 && s.line + k < c.pageLength
    ensures Feeds(c, s, k).page == s.page && Feeds(c, s, k).line == s.line + k
    ensures Newlines(Feeds(c, s, k).text) == Newlines(s.text) + k
    ensures k > 0 ==> Feeds(c, s, k).col == 1
  {
    if k > 0 {
      FeedsWithinPage(c, s, k - 1);
      var p := Feeds(c, s, k - 1);
      var q := Feeds(c, s, k);
      assert q == Feed(c, p);
      FeedRule(c, p);
      assert q == Sink(p.text + "\n", 1, p.line + 1, p.page);
      NewlinesAdd(p.text, "\n");
      OneNewline();
    }
  }

  /** A page holds PageLength lines: from Line l, the (PageLength - l)-th line
      feed turns the page and the next page starts below its header. After
      OpenOutput (Line 5) that leaves PageLength - 5 lines of listing per page
      when PageLength > 5; see ShortPagesTurnEveryLine for 1..5. */
  lemma PageTurns(c: Config, s: Sink)
    requires c.pass == Final && s.line < c.pageLength
    ensures Feeds(c, s, c.pageLength - s.line).page == s.page + 1
    ensures Feeds(c, s, c.pageLength - s.line).line == HeaderLines
    ensures Feeds(c, s, c.pageLength - s.line).col == 1
  {
    var k := c.pageLength - s.line;
    FeedsWithinPage(c, s, k - 1);
  }

  /** With PageLength 1 to 5, Line is already at PageLength or past it below
      the header, so every line feed turns the page: each line of listing
      gets a page of its own. */
  lemma ShortPagesTurnEveryLine(c: Config, s: Sink)
    requires c.pass == Final && 0 < c.pageLength <= HeaderLines && s.line == HeaderLines
    ensures Feed(c, s).page == s.page + 1 && Feed(c, s).line == HeaderLines && Feed(c, s).col == 1
  {
  }

  /** Without pagination, Line and Page never move. */
  lemma {:induction false} FeedsWithoutPages(c: Config, s: Sink, k: nat)
    requires c.pass == Final && c.pageLength == 0
    ensures Feeds(c, s, k).page == s.page && Feeds(c, s, k).line == s.line
    ensures Newlines(Feeds(c, s, k).text) == Newlines(s.text) + k
  {
    if k > 0 {
      FeedsWithoutPages(c, s, k - 1);
      var p := Feeds(c, s, k - 1);
      NewlinesAdd(p.text, "\n");
      OneNewline();
    }
  }

  // ---------------------------------------------------------------------------
  // Labels, forward definitions and constants

  /** DefLabel writes the name and a colon, and ends the line exactly when
      the column after the colon is past LBreak + 2 or past the mnemonic
      column. */
  lemma LabelBreak(c: Config, s: Sink, name: string)
    requires c.pass == Final && s.col >= 1
    ensures var col := s.col + |name| + 1;
            var breaks := col > c.lBreak + 2 || col > c.mCol;
            (breaks <==> Label(c, s, name).col == 1)
            && (!breaks ==> Label(c, s, name) == Sink(s.text + name + ":", col, s.line, s.page))
            && (breaks ==> Label(c, s, name) == Feed(c, Sink(s.text + name + ":", col, s.line, s.page)))
            && (breaks && c.pageLength == 0 ==> Label(c, s, name) == Sink(s.text + name + ":" + "\n", 1, s.line, s.page))
  {
  }

  /** The offset of a forward definition reads back from the listing: after
      ":= * + $" in at least four upper-case hex digits (exactly four below
      0x10000), or after ":= * + " in decimal. */
  lemma ForwardOffsetReadsBack(hex: bool, offs: U32)
    ensures hex ==> |ForwardValue(hex, offs)| >= 12 && ForwardValue(hex, offs)[..8] == ":= * + $"
                    && Value(ForwardValue(hex, offs)[8..], 16) == offs
                    && (forall i :: 8 <= i < |ForwardValue(hex, offs)| ==> IsDigit(ForwardValue(hex, offs)[i], 16))
    ensures hex && offs < 0x1_0000 ==> |ForwardValue(hex, offs)| == 12
    ensures !hex ==> |ForwardValue(hex, offs)| >= 8 && ForwardValue(hex, offs)[..7] == ":= * + "
                     && Value(ForwardValue(hex, offs)[7..], 10) == offs
                     && (forall i :: 7 <= i < |ForwardValue(hex, offs)| ==> IsDigit(ForwardValue(hex, offs)[i], 10))
                     && ((ForwardValue(hex, offs)[7] == '0') <==> offs == 0)
  {
    var v := ForwardValue(hex, offs);
    if hex {
      HexRoundTrip(offs, 4);
      HexWidths();
      assert v[8..] == Hex(offs, 4);
    } else {
      DecRoundTrip(offs);
      assert v[7..] == Dec(offs);
    }
  }

  /** The address of a constant reads back from the listing: after ":= $"
      in at least four upper-case hex digits, exactly four below 0x10000. */
  lemma ConstantAddressReadsBack(addr: U32)
    ensures |ConstantValue(addr)| >= 8 && ConstantValue(addr)[..4] == ":= $"
    ensures Value(ConstantValue(addr)[4..], 16) == addr
    ensures forall i :: 4 <= i < |ConstantValue(addr)| ==> IsDigit(ConstantValue(addr)[i], 16)
    ensures addr < 0x1_0000 ==> |ConstantValue(addr)| == 8
  {
    HexRoundTrip(addr, 4);
    HexWidths();
    assert ConstantValue(addr)[4..] == Hex(addr, 4);
  }

  /** The optional comment at the end of a definition, written from column col. */
  function Trailer(col: nat, cCol: nat, comment: Option<string>): string
  {
    match comment
    case None => ""
    case Some(t) => Gap(col, cCol) + "; " + t
  }

  /** The optional comment: blanks up to the comment column and "; text". */
  lemma CommentAtRule(c: Config, s: Sink, comment: Option<string>)
    requires c.pass == Final
    ensures CommentAt(c, s, comment).text == s.text + Trailer(s.col, c.cCol, comment)
    ensures CommentAt(c, s, comment).line == s.line && CommentAt(c, s, comment).page == s.page
  {
    if comment.Some? {
      PadRule(c, s, c.cCol);
    }
  }

  /** DefForward always leaves Col at 1. Without pagination it writes one
      line: a line feed first only when Col is past 1, the name, the value in
      the argument column, the optional comment in the comment column, and
      the end of line. */
  lemma ForwardLayout(c: Config, s: Sink, name: string, comment: Option<string>, offs: U32)
    requires c.pass == Final
    ensures Forward(c, s, name, comment, offs).col == 1
    ensures c.pageLength == 0 ==>
            var start := if s.col > 1 then 1 else s.col;
            var lead := if s.col > 1 then "\n" else "";
            var value := ForwardValue(c.useHexOffs, offs);
            var after := Max(start + |name|, c.aCol) + |value|;
            Forward(c, s, name, comment, offs)
            == Sink(s.text + lead + name + Gap(start + |name|, c.aCol) + value + Trailer(after, c.cCol, comment) + "\n",
                    1, s.line, s.page)
  {
    if c.pageLength == 0 {
      ForwardText(c, s, name, comment, offs);
    }
  }

  lemma ForwardText(c: Config, s: Sink, name: string, comment: Option<string>, offs: U32)
    requires c.pass == Final && c.pageLength == 0
    ensures var start := if s.col > 1 then 1 else s.col;
            var lead := if s.col > 1 then "\n" else "";
            var value := ForwardValue(c.useHexOffs, offs);
            var after := Max(start + |name|, c.aCol) + |value|;
            Forward(c, s, name, comment, offs)
            == Sink(s.text + lead + name + Gap(start + |name|, c.aCol) + value + Trailer(after, c.cCol, comment) + "\n",
                    1, s.line, s.page)
  {
    var start := if s.col > 1 then 1 else s.col;
    var lead := if s.col > 1 then "\n" else "";
    var s1 := if s.col > 1 then Feed(c, s) else s;
    assert s1 == Sink(s.text + lead, start, s.line, s.page);
    PadRule(c, Emit(c, s1, name), c.aCol);
    var value := ForwardValue(c.useHexOffs, offs);
    var s3 := Emit(c, Pad(c, Emit(c, s1, name), c.aCol), value);
    assert s3.text == s.text + lead + name + Gap(start + |name|, c.aCol) + value;
    var after := Max(start + |name|, c.aCol) + |value|;
    assert s3.col == after;
    var s4 := CommentAt(c, s3, comment);
    CommentAtRule(c, s3, comment);
    assert s4.text == s3.text + Trailer(after, c.cCol, comment) && s4.line == s.line && s4.page == s.page;
    assert Forward(c, s, name, comment, offs) == Feed(c, s4);
    FeedRule(c, s4);
  }

  /** Without pagination, DefConst writes one line: the name, the address in
      the argument column, the optional comment, and the end of line. */
  lemma ConstantLayout(c: Config, s: Sink, name: string, comment: Option<string>, addr: U32)
    requires c.pass == Final && c.pageLength == 0
    ensures var value := ConstantValue(addr);
            var after := Max(s.col + |name|, c.aCol) + |value|;
            Constant(c, s, name, comment, addr)
            == Sink(s.text + name + Gap(s.col + |name|, c.aCol) + value + Trailer(after, c.cCol, comment) + "\n",
                    1, s.line, s.page)
  {
    PadRule(c, Emit(c, s, name), c.aCol);
    var value := ConstantValue(addr);
    var s3 := Emit(c, Pad(c, Emit(c, s, name), c.aCol), value);
    assert s3.text == s.text + name + Gap(s.col + |name|, c.aCol) + value;
    CommentAtRule(c, s3, comment);
  }

  // ---------------------------------------------------------------------------
  // Data lines

  /** The operands of a data line are the comma-joined list of the values
      read at pc, pc + step, pc + 2 * step, ... */
  lemma {:induction false} OperandsJoin(read: nat -> nat, pc: nat, step: nat, format: nat -> string, k: nat)
    ensures Operands(read, pc, step, format, k) == Join(StrideItems(read, pc, step, format, k))
  {
    if k > 1 {
      OperandsJoin(read, pc, step, format, k - 1);
      var items := StrideItems(read, pc, step, format, k - 1);
      var last := format(read(StrideAddress(pc, step, k - 1)));
      forall j | 0 <= j < k
        ensures StrideItems(read, pc, step, format, k)[j] == (items + [last])[j]
      {
        if j < k - 1 {
          assert (items + [last])[j] == items[j];
        }
      }
      assert StrideItems(read, pc, step, format, k) == items + [last];
      JoinSnoc(items, last);
    }
  }

  /** item is an operand written for the value v: a '$' and at least
      `digits` upper-case hex digits (exactly `digits` when v fits in them)
      that read back as v. */
  predicate ReadsBackAs(item: string, digits: nat, v: nat)
  {
    |item| >= 1 + digits && item[0] == '$'
    && (forall i :: 1 <= i < |item| ==> IsDigit(item[i], 16))
    && Value(item[1..], 16) == v
    && (1 <= digits && v < Pow(16, digits) ==> |item| == 1 + digits)
  }

  /** One operand reads back as its value, and holds no comma. */
  lemma OperandReadsBack(digits: nat, v: nat)
    ensures ReadsBackAs(Operand(digits)(v), digits, v)
    ensures ',' !in Operand(digits)(v)
  {
    HexRoundTrip(v, digits);
    assert Operand(digits)(v)[1..] == Hex(v, digits);
  }

  /** Item j of the operand list is the value read at pc + step * j, formatted. */
  lemma StrideItem(read: nat -> nat, pc: nat, step: nat, format: nat -> string, k: nat, j: nat)
    requires j < k
    ensures StrideItems(read, pc, step, format, k)[j] == format(read(StrideAddress(pc, step, j)))
  {
  }

  /** Cut at the commas, the operand list of a data line gives back its items. */
  lemma SplitOperands(read: nat -> nat, pc: nat, step: nat, digits: nat, k: nat)
    requires k >= 1
    ensures Split(Operands(read, pc, step, Operand(digits), k)) == StrideItems(read, pc, step, Operand(digits), k)
  {
    var items := StrideItems(read, pc, step, Operand(digits), k);
    OperandsJoin(read, pc, step, Operand(digits), k);
    forall j: nat | j < k
      ensures ',' !in items[j]
    {
      StrideItem(read, pc, step, Operand(digits), k, j);
      OperandReadsBack(digits, read(StrideAddress(pc, step, j)));
    }
    SplitJoin(items);
  }

  /** The operand list of a data line parses back: cut at the commas, it is
      k items, and item j reads back as the value at pc + step * j. */
  lemma OperandsReadBack(read: nat -> nat, pc: nat, step: nat, digits: nat, k: nat)
    requires k >= 1
    ensures |Split(Operands(read, pc, step, Operand(digits), k))| == k
    ensures forall j :: 0 <= j < k ==>
              ReadsBackAs(Split(Operands(read, pc, step, Operand(digits), k))[j], digits, read(pc + step * j))
  {
    SplitOperands(read, pc, step, digits, k);
    var items := StrideItems(read, pc, step, Operand(digits), k);
    forall j: nat | j < k
      ensures ReadsBackAs(items[j], digits, read(StrideAddress(pc, step, j)))
    {
      StrideItem(read, pc, step, Operand(digits), k, j);
      OperandReadsBack(digits, read(StrideAddress(pc, step, j)));
    }
  }

  /** An operand of exactly `digits` hex digits after "$", reading back as v. */
  predicate FixedHex(item: string, digits: nat, v: nat)
  {
    |item| == 1 + digits && item[0] == '$'
    && (forall i :: 1 <= i < |item| ==> IsDigit(item[i], 16))
    && Value(item[1..], 16) == v
  }

  /** ops cut at the commas is k items, item j being "$" and exactly
      `digits` hex digits that read back as the value at pc + step * j. */
  predicate FixedHexList(ops: string, read: nat -> nat, pc: nat, step: nat, digits: nat, k: nat)
  {
    |Split(ops)| == k
    && forall j :: 0 <= j < k ==> FixedHex(Split(ops)[j], digits, read(StrideAddress(pc, step, j)))
  }

  /** The address of operand j, pc + step * j, as a natural number. */
  function StrideAddress(pc: nat, step: nat, j: nat): nat
  {
    pc + step * j
  }

  /** When every value read fits in `digits` hex digits, every item of the
      operand list is "$" and exactly that many digits. */
  lemma FixedWidthItems(read: nat -> nat, pc: nat, step: nat, digits: nat, k: nat, bound: nat)
    requires 1 <= k && 1 <= digits && bound == Pow(16, digits)
    requires forall a :: read(a) < bound
    ensures FixedHexList(Operands(read, pc, step, Operand(digits), k), read, pc, step, digits, k)
  {
    SplitOperands(read, pc, step, digits, k);
    var ops := Operands(read, pc, step, Operand(digits), k);
    forall j | 0 <= j < k
      ensures FixedHex(Split(ops)[j], digits, read(StrideAddress(pc, step, j)))
    {
      StrideItem(read, pc, step, Operand(digits), k, j);
      OperandReadsBack(digits, read(StrideAddress(pc, step, j)));
    }
  }

  /** A `.byte` line lists its ByteCount bytes in order, each as "$" and
      exactly two hex digits; with ByteCount 0 the list is empty. */
  lemma ByteOperandsReadBack(code: seq<Byte>, pc: nat, n: nat)
    requires pc + n <= |code|
    ensures n == 0 ==> Operands(CodeReader(code), pc, 1, Operand(2), n) == ""
    ensures n >= 1 ==> |Split(Operands(CodeReader(code), pc, 1, Operand(2), n))| == n
    ensures forall j :: 0 <= j < n ==>
              var item := Split(Operands(CodeReader(code), pc, 1, Operand(2), n))[j];
              |item| == 3 && item[0] == '$' && (forall i :: 1 <= i < 3 ==> IsDigit(item[i], 16))
              && Value(item[1..], 16) == code[pc + j]
  {
    if n == 0 {
      return;
    }
    HexWidths();
    OperandsReadBack(CodeReader(code), pc, 1, 2, n);
    var items := Split(Operands(CodeReader(code), pc, 1, Operand(2), n));
    forall j | 0 <= j < n
      ensures |items[j]| == 3 && items[j][0] == '$' && (forall i :: 1 <= i < 3 ==> IsDigit(items[j][i], 16))
              && Value(items[j][1..], 16) == code[pc + j]
    {
      assert CodeReader(code)(pc + 1 * j) == code[pc + j];
      assert ReadsBackAs(items[j], 2, code[pc + j]);
    }
  }

  /** A `.dbyt` or `.word` line lists one value per two bytes, (ByteCount + 1) / 2
      of them, each as "$" and exactly four hex digits, given a reader that
      returns 16-bit values as GetCodeDByte and GetCodeWord do; with ByteCount 0 the list is empty. */
  lemma WordOperandsReadBack(read: nat -> nat, pc: nat, n: nat)
    requires forall a :: read(a) < 0x1_0000
    ensures StrideCount(n, 2) == (n + 1) / 2 && (n >= 1 <==> StrideCount(n, 2) >= 1)
    ensures n == 0 ==> Operands(read, pc, 2, Operand(4), StrideCount(n, 2)) == ""
    ensures n >= 1 ==> FixedHexList(Operands(read, pc, 2, Operand(4), StrideCount(n, 2)), read, pc, 2, 4, StrideCount(n, 2))
  {
    StridePositive(n, 2);
    if n == 0 {
      assert StrideCount(n, 2) == 0;
    } else {
      HexWidths();
      FixedWidthItems(read, pc, 2, 4, StrideCount(n, 2), 0x1_0000);
    }
  }

  /** A `.dword` line lists one value per four bytes, (ByteCount + 3) / 4 of
      them, each as "$" and exactly eight hex digits, given a reader that
      returns 32-bit values as GetCodeDWord does; with ByteCount 0 the list is empty. */
  lemma DWordOperandsReadBack(read: nat -> nat, pc: nat, n: nat)
    requires forall a :: read(a) < 0x1_0000_0000
    ensures StrideCount(n, 4) == (n + 3) / 4 && (n >= 1 <==> StrideCount(n, 4) >= 1)
    ensures n == 0 ==> Operands(read, pc, 4, Operand(8), StrideCount(n, 4)) == ""
    ensures n >= 1 ==> FixedHexList(Operands(read, pc, 4, Operand(8), StrideCount(n, 4)), read, pc, 4, 8, StrideCount(n, 4))
  {
    StridePositive(n, 4);
    if n == 0 {
      assert StrideCount(n, 4) == 0;
    } else {
      HexWidths();
      FixedWidthItems(read, pc, 4, 8, StrideCount(n, 4), 0x1_0000_0000);
    }
  }

  /** Every data line ends the line. Without pagination it is the mnemonic
      in the mnemonic column, the operands in the argument column, the line
      comment LineCommentTiers describes (empty below level 2), and the end
      of line. */
  lemma DataLineLayout(c: Config, s: Sink, mnemonic: string, operands: string, code: seq<Byte>, pc: nat, n: nat)
    requires c.pass == Final && pc + n <= |code|
    ensures DataLine(c, s, mnemonic, operands, code, pc, n).col == 1
    ensures c.pageLength == 0 ==>
              var m := Max(s.col, c.mCol) + |mnemonic|;
              var operandsEnd := Sink(s.text + Gap(s.col, c.mCol) + mnemonic + Gap(m, c.aCol) + operands,
                                      Max(m, c.aCol) + |operands|, s.line, s.page);
              DataLine(c, s, mnemonic, operands, code, pc, n)
              == Sink(LineComment(c, operandsEnd, code, pc, n).text + "\n", 1, s.line, s.page)
  {
    var s1 := Emit(c, Pad(c, s, c.mCol), mnemonic);
    var s2 := Emit(c, Pad(c, s1, c.aCol), operands);
    var r := LineComment(c, s2, code, pc, n);
    assert DataLine(c, s, mnemonic, operands, code, pc, n) == Feed(c, r);
    FeedRule(c, r);
    if c.pageLength == 0 {
      PadRule(c, s, c.mCol);
      PadRule(c, s1, c.aCol);
      var m := Max(s.col, c.mCol) + |mnemonic|;
      assert s2 == Sink(s.text + Gap(s.col, c.mCol) + mnemonic + Gap(m, c.aCol) + operands,
                        Max(m, c.aCol) + |operands|, s.line, s.page);
      LineCommentTiers(c, s2, code, pc, n);
      assert Feed(c, r) == Sink(r.text + "\n", 1, s.line, s.page);
    }
  }

  /** " XX" per byte: three characters for each byte, in order. */
  lemma {:induction false} HexBytesShape(bytes: seq<Byte>)
    ensures |HexBytes(bytes)| == 3 * |bytes|
    ensures forall j :: 0 <= j < |bytes| ==> HexBytes(bytes)[3 * j..3 * j + 3] == " " + Hex(bytes[j], 2)
    decreases |bytes|
  {
    if bytes != [] {
      var n := |bytes| - 1;
      var init := bytes[..n];
      HexBytesShape(init);
      HexWidths();
      HexRoundTrip(bytes[n], 2);
      var h := HexBytes(bytes);
      assert h == HexBytes(init) + (" " + Hex(bytes[n], 2));
      forall j | 0 <= j < |bytes|
        ensures h[3 * j..3 * j + 3] == " " + Hex(bytes[j], 2)
      {
        if j < n {
          assert init[j] == bytes[j];
          assert h[3 * j..3 * j + 3] == HexBytes(init)[3 * j..3 * j + 3];
        } else {
          assert h[3 * j..3 * j + 3] == h[|HexBytes(init)|..];
        }
      }
    }
  }

  /** The ASCII dump has one printable character per byte: the byte itself
      when it is printable, '.' otherwise. */
  lemma PrintableShape(bytes: seq<Byte>)
    ensures |Printable(bytes)| == |bytes|
    ensures forall j :: 0 <= j < |bytes| ==> 0x20 <= Printable(bytes)[j] as int <= 0x7E
    ensures forall j :: 0 <= j < |bytes| && IsPrint(bytes[j]) ==> Printable(bytes)[j] == bytes[j] as char
    ensures forall j :: 0 <= j < |bytes| && !IsPrint(bytes[j]) ==> Printable(bytes)[j] == '.'
  {
  }

  /** LineComment by verbosity: nothing below 2; from 2 the address in the
      comment column; from 3 the bytes in hex after it; from 4 also the
      bytes as text in the text column. It never ends the line. */
  lemma LineCommentTiers(c: Config, s: Sink, code: seq<Byte>, pc: nat, n: nat)
    requires c.pass == Final && pc + n <= |code|
    ensures var bytes := code[pc..pc + n];
            var address := Gap(s.col, c.cCol) + "; " + Hex(pc, 4);
            var dumpAt := Max(s.col, c.cCol) + 2 + |Hex(pc, 4)| + 3 * n;
            var r := LineComment(c, s, code, pc, n);
            r.line == s.line && r.page == s.page
            && (c.comments < 2 ==> r == s)
            && (c.comments == 2 ==> r.text == s.text + address && r.col == dumpAt - 3 * n)
            && (c.comments == 3 ==> r.text == s.text + address + HexBytes(bytes) && r.col == dumpAt)
            && (c.comments >= 4 ==> r.text == s.text + address + HexBytes(bytes) + Gap(dumpAt, c.tCol) + Printable(bytes)
                                    && r.col == Max(dumpAt, c.tCol) + n)
  {
    if c.comments >= 2 {
      var bytes := code[pc..pc + n];
      var address := Gap(s.col, c.cCol) + "; " + Hex(pc, 4);
      PadRule(c, s, c.cCol);
      var s1 := Emit(c, Pad(c, s, c.cCol), "; " + Hex(pc, 4));
      assert s1 == Sink(s.text + address, Max(s.col, c.cCol) + 2 + |Hex(pc, 4)|, s.line, s.page);
      if c.comments == 2 {
        assert LineComment(c, s, code, pc, n) == s1;
      } else {
        HexBytesShape(bytes);
        var s2 := Emit(c, s1, HexBytes(bytes));
        assert s2 == Sink(s.text + address + HexBytes(bytes), s1.col + 3 * n, s.line, s.page);
        if c.comments == 3 {
          assert LineComment(c, s, code, pc, n) == s2;
        } else {
          PadRule(c, s2, c.tCol);
          var s3 := Emit(c, Pad(c, s2, c.tCol), Printable(bytes));
          assert s3.text == s2.text + Gap(s2.col, c.tCol) + Printable(bytes);
          assert s3.col == Max(s2.col, c.tCol) + n;
          assert LineComment(c, s, code, pc, n) == s3;
        }
      }
    }
  }

  // ---------------------------------------------------------------------------
  // Separators, segments, comments and CPU settings

  /** The separator line is written only from comment level 1. */
  lemma SeparatorLayout(c: Config, s: Sink)
    requires c.pass == Final && c.pageLength == 0
    ensures c.comments >= 1 ==> Separator(c, s) == Sink(s.text + SeparatorText + "\n", 1, s.line, s.page)
    ensures c.comments == 0 ==> Separator(c, s) == s
    ensures |SeparatorText| == 78
  {
  }

  /** Without pagination, StartSegment writes a line feed, `.segment`, the
      quoted name in the argument column with the address size after it
      when it is not the default, and two line feeds. */
  lemma SegmentStartLayout(c: Config, s: Sink, name: string, addrSize: Option<string>)
    requires c.pass == Final && c.pageLength == 0
    ensures var size := if addrSize.Some? then ": " + addrSize.value else "";
            SegmentStart(c, s, name, addrSize)
            == Sink(s.text + "\n" + ".segment" + Gap(9, c.aCol) + "\"" + name + "\"" + size + "\n" + "\n",
                    1, s.line, s.page)
  {
    var s1 := Pad(c, Emit(c, Feed(c, s), ".segment"), c.aCol);
    PadRule(c, Emit(c, Feed(c, s), ".segment"), c.aCol);
    assert s1.text == s.text + "\n" + ".segment" + Gap(9, c.aCol);
  }

  /** Without pagination, EndSegment ends the current line, writes the end
      comment with the segment's name on a line of its own, the separator
      line at comment level 1 or more, `.code`, and a blank line. */
  lemma SegmentEndLayout(c: Config, s: Sink, name: string)
    requires c.pass == Final && c.pageLength == 0
    ensures var separator := if c.comments >= 1 then SeparatorText + "\n" else "";
            SegmentEnd(c, s, name)
            == Sink(s.text + "\n" + "; End of \"" + name + "\" segment" + "\n" + separator + ".code" + "\n" + "\n",
                    1, s.line, s.page)
  {
    var s1 := Feed(c, Emit(c, Feed(c, s), "; End of \"" + name + "\" segment"));
    assert s1 == Sink(s.text + "\n" + "; End of \"" + name + "\" segment" + "\n", 1, s.line, s.page);
  }

  /** Without pagination, UserComment writes "; " and the text as one line,
      whatever the column it starts from. */
  lemma CommentLayout(c: Config, s: Sink, text: string)
    requires c.pass == Final && c.pageLength == 0
    ensures Comment(c, s, text) == Sink(s.text + "; " + text + "\n", 1, s.line, s.page)
  {
  }

  /** Without pagination, OutputSettings writes a line feed, then `.setcpu`
      in the mnemonic column and the quoted CPU name in the argument column,
      and two line feeds. */
  lemma SettingsLayout(c: Config, s: Sink, cpuName: string)
    requires c.pass == Final && c.pageLength == 0
    ensures Settings(c, s, cpuName)
            == Sink(s.text + "\n" + Gap(1, c.mCol) + ".setcpu" + Gap(Max(1, c.mCol) + 7, c.aCol)
                    + "\"" + cpuName + "\"" + "\n" + "\n", 1, s.line, s.page)
  {
    PadRule(c, Feed(c, s), c.mCol);
    var s1 := Emit(c, Pad(c, Feed(c, s), c.mCol), ".setcpu");
    PadRule(c, s1, c.aCol);
    assert s1.text == s.text + "\n" + Gap(1, c.mCol) + ".setcpu";
  }

  /** Without pagination, OutputMFlag and OutputXFlag write the directive
      for the flag state in the mnemonic column and end the line: `.a8` or
      `.a16` for the M flag, `.i8` or `.i16` for the X flag. */
  lemma FlagLayout(c: Config, s: Sink, enabled: bool)
    requires c.pass == Final && c.pageLength == 0
    ensures MFlag(c, s, enabled)
            == Sink(s.text + Gap(s.col, c.mCol) + (if enabled then ".a8" else ".a16") + "\n", 1, s.line, s.page)
    ensures XFlag(c, s, enabled)
            == Sink(s.text + Gap(s.col, c.mCol) + (if enabled then ".i8" else ".i16") + "\n", 1, s.line, s.page)
  {
    PadRule(c, s, c.mCol);
  }
}
