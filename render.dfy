/** What the da65 output routines write, as pure functions: each takes the
    settings, the text written so far with the Col/Line/Page counters, and the
    routine's arguments, and gives the new text and counters. The class in
    module Engine is proved to behave exactly as these functions say, and the
    lemmas below state what the listing looks like. */
module Render {
  import opened Text

  datatype Option<T> = None | Some(value: T)

  /** The output routines only ask whether the current pass is the final one. */
  datatype Pass = Exploratory | Final

  /** An unsigned 8-bit value: a byte of the code buffer. */
  type Byte = b: nat | b < 0x100

  /** An unsigned 32-bit value (the C types `unsigned` and `uint32_t`). */
  type U32 = n: nat | n < 0x1_0000_0000

  /** The strings the page header shows: program version, creation time and input file. */
  datatype Header = Header(version: string, created: string, inputFile: string)

  /** Settings owned by the rest of the disassembler; the output routines only read them. */
  datatype Config = Config(
    pass: Pass,
    pageLength: nat,   // lines per page, 0 = no pagination
    formFeeds: bool,   // write a form feed before each new page
    mCol: nat,         // mnemonic column
    aCol: nat,         // argument column
    cCol: nat,         // comment column
    tCol: nat,         // column of the ASCII dump in line comments
    lBreak: nat,       // label length after which the label gets its own line
    useHexOffs: bool,  // forward offsets in hex rather than decimal
    comments: nat,     // comment verbosity
    header: Header)

  /** The text written so far, the column of the next character (1-based),
      the lines written on the current page and the page number. */
  datatype Sink = Sink(text: string, col: nat, line: nat, page: nat)

  /** Lines occupied by a page header, blank line included. */
  const HeaderLines: nat := 5

  const FormFeed: char := 12 as char

  const SeparatorText: string :=
    "; ----------------------------------------------------------------------------"

  /** One line of the page header: a tag and its value. */
  function HeaderLine(tag: string, value: string): string
  {
    tag + value + "\n"
  }

  /** The page header: four tagged lines and a blank one. */
  function PageHeader(h: Header, page: nat): string
  {
    HeaderLine("; da65 V", h.version)
    + HeaderLine("; Created:    ", h.created)
    + HeaderLine("; Input file: ", h.inputFile)
    + HeaderLine("; Page:       ", Dec(page))
    + "\n"
  }

  // ---------------------------------------------------------------------------
  // The three primitives; all other routines write only through them.

  /** Output: write t and advance the column by its length. */
  function Emit(c: Config, s: Sink, t: string): Sink
  {
    if c.pass == Final then s.(text := s.text + t, col := s.col + |t|) else s
  }

  /** Two writes in a row are one write of both texts. */
  lemma EmitTwice(c: Config, s: Sink, a: string, b: string)
    ensures Emit(c, Emit(c, s, a), b) == Emit(c, s, a + b)
  {
    if c.pass == Final {
      assert s.text + a + b == s.text + (a + b);
    }
  }

  /** The spaces that bring column `from` to column `to`. */
  function Gap(from: nat, to: nat): string
  {
    if from < to then Spaces(to - from) else ""
  }

  /** Indent: pad with spaces up to column n. */
  function Pad(c: Config, s: Sink, n: nat): Sink
  {
    if c.pass == Final && s.col < n then s.(text := s.text + Spaces(n - s.col), col := n) else s
  }

  /** LineFeed: end the line and start a new page when this one is full. */
  function Feed(c: Config, s: Sink): Sink
  {
    if c.pass != Final then s
    else if c.pageLength > 0 && s.line + 1 >= c.pageLength then
      var ended := s.text + "\n";
      var fed := if c.formFeeds then ended + [FormFeed] else ended;
      Sink(fed + PageHeader(c.header, s.page + 1), 1, HeaderLines, s.page + 1)
    else
      Sink(s.text + "\n", 1, if c.pageLength > 0 then s.line + 1 else s.line, s.page)
  }

  /** OpenOutput once the stream is open: the first header, whatever the pass. */
  function Open(c: Config, s: Sink): Sink
  {
    Sink(s.text + PageHeader(c.header, s.page), 1, HeaderLines, s.page)
  }

  // ---------------------------------------------------------------------------
  // Labels and constants

  function Label(c: Config, s: Sink, name: string): Sink
  {
    var s1 := Emit(c, s, name + ":");
    if s1.col > c.lBreak + 2 || s1.col > c.mCol then Feed(c, s1) else s1
  }

  /** The right-hand side of a forward definition: "* + " and the offset,
      in hex or in decimal. */
  function ForwardValue(hex: bool, offs: nat): string
  {
    if hex then ":= * + $" + Hex(offs, 4) else ":= * + " + Dec(offs)
  }

  /** An optional trailing comment in the comment column. */
  function CommentAt(c: Config, s: Sink, comment: Option<string>): Sink
  {
    match comment
    case None => s
    case Some(t) => Emit(c, Pad(c, s, c.cCol), "; " + t)
  }

  function Forward(c: Config, s: Sink, name: string, comment: Option<string>, offs: U32): Sink
  {
    if c.pass != Final then s
    else
      var s1 := if s.col > 1 then Feed(c, s) else s;
      var s2 := Pad(c, Emit(c, s1, name), c.aCol);
      var s3 := Emit(c, s2, ForwardValue(c.useHexOffs, offs));
      Feed(c, CommentAt(c, s3, comment))
  }

  /** The right-hand side of a constant definition: the address in at
      least four hex digits. */
  function ConstantValue(addr: nat): string
  {
    ":= $" + Hex(addr, 4)
  }

  function Constant(c: Config, s: Sink, name: string, comment: Option<string>, addr: U32): Sink
  {
    if c.pass != Final then s
    else
      var s2 := Pad(c, Emit(c, s, name), c.aCol);
      var s3 := Emit(c, s2, ConstantValue(addr));
      Feed(c, CommentAt(c, s3, comment))
  }

  // ---------------------------------------------------------------------------
  // Data lines and their comments

  /** The data operand format "$%0<digits>X": a '$' and the value in at
      least `digits` upper-case hex digits. */
  function Operand(digits: nat): nat -> string
  {
    (v: nat) => "$" + Hex(v, digits)
  }

  /** The first k operands of a data line, comma separated: operand j is
      the value `read` finds at pc + step * j, written in the given format. */
  function Operands(read: nat -> nat, pc: nat, step: nat, format: nat -> string, k: nat): string
  {
    if k == 0 then ""
    else
      var item := format(read(pc + step * (k - 1)));
      if k == 1 then item else Operands(read, pc, step, format, k - 1) + "," + item
  }

  /** The same k operands as a list. */
  function StrideItems(read: nat -> nat, pc: nat, step: nat, format: nat -> string, k: nat): seq<string>
  {
    seq(k, j requires 0 <= j => format(read(pc + step * j)))
  }

  /** CodeBuf read one byte at a time, for the `.byte` operands. */
  function CodeReader(code: seq<Byte>): nat -> nat
  {
    (a: nat) => if a < |code| then code[a] else 0
  }

  /** Number of operands a loop `for (I = 0; I < n; I += step)` writes. */
  function StrideCount(n: nat, step: nat): nat
    requires step >= 1
  {
    (n + step - 1) / step
  }

  /** Writing operand k, the value at address a, after a comma unless it is
      the first, extends the written operands by one. */
  lemma EmitNextOperand(c: Config, s: Sink, read: nat -> nat, pc: nat, step: nat, format: nat -> string,
                        k: nat, a: nat)
    requires a == pc + step * k
    ensures k > 0 ==> Emit(c, Emit(c, s, Operands(read, pc, step, format, k)), "," + format(read(a)))
                      == Emit(c, s, Operands(read, pc, step, format, k + 1))
    ensures k == 0 ==> Emit(c, Emit(c, s, Operands(read, pc, step, format, k)), format(read(a)))
                       == Emit(c, s, Operands(read, pc, step, format, k + 1))
  {
    var item := format(read(a));
    if k > 0 {
      EmitTwice(c, s, Operands(read, pc, step, format, k), "," + item);
      assert Operands(read, pc, step, format, k) + ("," + item) == Operands(read, pc, step, format, k) + "," + item;
    } else {
      EmitTwice(c, s, "", item);
      assert "" + item == item;
    }
  }

  /** The state after writing operand k, the value at address a, after a
      comma unless it is the first, is the state after writing k + 1 operands. */
  lemma OperandWritten(c: Config, s: Sink, before: Sink, after: Sink, read: nat -> nat,
                       pc: nat, step: nat, format: nat -> string, k: nat, a: nat, t: string)
    requires a == pc + step * k
    requires before == Emit(c, s, Operands(read, pc, step, format, k))
    requires after == Emit(c, before, t)
    requires k > 0 ==> t == "," + format(read(a))
    requires k == 0 ==> t == format(read(a))
    ensures after == Emit(c, s, Operands(read, pc, step, format, k + 1))
  {
    EmitNextOperand(c, s, read, pc, step, format, k, a);
  }

  /** A loop index step * k still below n has operands left to write. */
  lemma StrideCovers(n: nat, step: nat, k: nat)
    requires step >= 1 && step * k < n
    ensures k < StrideCount(n, step)
  {
    DivAtLeast(n + step - 1, step, k + 1);
  }

  /** A data line has operands exactly when ByteCount is positive. */
  lemma StridePositive(n: nat, step: nat)
    requires step >= 1
    ensures (n >= 1) == (StrideCount(n, step) >= 1)
  {
    if n == 0 {
      StrideEnds(n, step, 0);
    } else {
      StrideCovers(n, step, 0);
    }
  }

  /** The loop stops at the first multiple of step that reaches n. */
  lemma StrideEnds(n: nat, step: nat, k: nat)
    requires step >= 1 && step * k >= n
    requires k > 0 ==> step * (k - 1) < n
    ensures k == StrideCount(n, step)
  {
    if k == 0 {
      DivBetween(n + step - 1, step, 0);
    } else {
      DivBetween(n + step - 1, step, k);
    }
  }

  lemma EmitNextHexByte(c: Config, s: Sink, bytes: seq<Byte>, i: nat)
    requires i < |bytes|
    ensures Emit(c, Emit(c, s, HexBytes(bytes[..i])), " " + Hex(bytes[i], 2))
            == Emit(c, s, HexBytes(bytes[..i + 1]))
  {
    assert bytes[..i + 1][..i] == bytes[..i];
    EmitTwice(c, s, HexBytes(bytes[..i]), " " + Hex(bytes[i], 2));
  }

  lemma EmitNextShown(c: Config, s: Sink, bytes: seq<Byte>, i: nat)
    requires i < |bytes|
    ensures Emit(c, Emit(c, s, Printable(bytes[..i])), [Shown(bytes[i])]) == Emit(c, s, Printable(bytes[..i + 1]))
  {
    assert Printable(bytes[..i + 1]) == Printable(bytes[..i]) + [Shown(bytes[i])];
    EmitTwice(c, s, Printable(bytes[..i]), [Shown(bytes[i])]);
  }

  /** " XX" for every byte. */
  function HexBytes(bytes: seq<Byte>): string
  {
    if bytes == [] then ""
    else HexBytes(bytes[..|bytes| - 1]) + " " + Hex(bytes[|bytes| - 1], 2)
  }

  /** The printable characters, taken here to be the ASCII range 0x20..0x7E. */
  predicate IsPrint(b: Byte)
  {
    0x20 <= b <= 0x7E
  }

  function Shown(b: Byte): char
  {
    if IsPrint(b) then b as char else '.'
  }

  /** The ASCII dump: one character per byte, '.' for a byte that is not printable. */
  function Printable(bytes: seq<Byte>): string
  {
    seq(|bytes|, k requires 0 <= k < |bytes| => Shown(bytes[k]))
  }

  /** LineComment: the address, then the bytes in hex, then the bytes as
      text, depending on the comment verbosity. */
  function LineComment(c: Config, s: Sink, code: seq<Byte>, pc: nat, n: nat): Sink
    requires pc + n <= |code|
  {
    if c.pass != Final || c.comments < 2 then s
    else
      var bytes := code[pc..pc + n];
      var s1 := Emit(c, Pad(c, s, c.cCol), "; " + Hex(pc, 4));
      if c.comments < 3 then s1
      else
        var s2 := Emit(c, s1, HexBytes(bytes));
        if c.comments < 4 then s2 else Emit(c, Pad(c, s2, c.tCol), Printable(bytes))
  }

  /** Any data line: mnemonic in the mnemonic column, the operands in the
      argument column, the line comment for the n bytes at pc, end of line. */
  function DataLine(c: Config, s: Sink, mnemonic: string, operands: string,
                    code: seq<Byte>, pc: nat, n: nat): Sink
    requires pc + n <= |code|
  {
    var s1 := Emit(c, Pad(c, s, c.mCol), mnemonic);
    var s2 := Emit(c, Pad(c, s1, c.aCol), operands);
    Feed(c, LineComment(c, s2, code, pc, n))
  }

  // ---------------------------------------------------------------------------
  // Separators, segments, comments and CPU settings

  function Separator(c: Config, s: Sink): Sink
  {
    if c.pass == Final && c.comments >= 1 then Feed(c, Emit(c, s, SeparatorText)) else s
  }

  /** `addrSize` is None for the default address size, otherwise its name. */
  function SegmentStart(c: Config, s: Sink, name: string, addrSize: Option<string>): Sink
  {
    if c.pass != Final then s
    else
      var s1 := Pad(c, Emit(c, Feed(c, s), ".segment"), c.aCol);
      var s2 := Emit(c, s1, "\"" + name + "\"");
      var s3 := if addrSize.Some? then Emit(c, s2, ": " + addrSize.value) else s2;
      Feed(c, Feed(c, s3))
  }

  function SegmentEnd(c: Config, s: Sink, name: string): Sink
  {
    var s1 := Feed(c, Emit(c, Feed(c, s), "; End of \"" + name + "\" segment"));
    Feed(c, Feed(c, Emit(c, Separator(c, s1), ".code")))
  }

  function Comment(c: Config, s: Sink, text: string): Sink
  {
    Feed(c, Emit(c, s, "; " + text))
  }

  function Settings(c: Config, s: Sink, cpuName: string): Sink
  {
    var s1 := Emit(c, Pad(c, Feed(c, s), c.mCol), ".setcpu");
    Feed(c, Feed(c, Emit(c, Pad(c, s1, c.aCol), "\"" + cpuName + "\"")))
  }

  function Directive(c: Config, s: Sink, mnemonic: string): Sink
  {
    Feed(c, Emit(c, Pad(c, s, c.mCol), mnemonic))
  }

  function MFlag(c: Config, s: Sink, enabled: bool): Sink
  {
    Directive(c, s, if enabled then ".a8" else ".a16")
  }

  function XFlag(c: Config, s: Sink, enabled: bool): Sink
  {
    Directive(c, s, if enabled then ".i8" else ".i16")
  }
}
