/** The da65 output engine (src/da65/output.c): the output stream and the
    file-scoped counters Col, Line, Page and SegmentName held by one object,
    next to the settings the rest of the disassembler owns. Every routine
    writes only through Output, Indent and LineFeed, and each method is proved
    to leave exactly the text and counters the routine's function in module
    Render describes. */
module Engine {
  import opened Text
  import opened Render

  class OutputEngine {
    // The stream F, and Col, Line, Page and SegmentName.
    var out: string
    var col: nat
    var line: nat
    var page: nat
    var segmentName: Option<string>

    // Settings owned by the rest of the disassembler: the pass changes from
    // one pass to the next, the layout is fixed before the output is opened.
    var pass: Pass
    const pageLength: nat
    const formFeeds: bool
    const mCol: nat
    const aCol: nat
    const cCol: nat
    const tCol: nat
    const lBreak: nat
    const useHexOffs: bool
    const comments: nat
    const header: Header

    /** Col starts at 1 and, since every write is taken to succeed, is only
        ever increased or reset to 1. */
    ghost predicate Valid()
      reads this`col
    {
      col >= 1
    }

    function Cfg(): Config
      reads this`pass
    {
      Config(pass, pageLength, formFeeds, mCol, aCol, cCol, tCol, lBreak, useHexOffs, comments, header)
    }

    function State(): Sink
      reads this`out, this`col, this`line, this`page
    {
      Sink(out, col, line, page)
    }

    /** The file-scoped variables as the program starts, under the given settings. */
    constructor (cfg: Config)
      ensures Valid() && Cfg() == cfg
      ensures State() == Sink("", 1, 0, 1) && segmentName == None
    {
      out, col, line, page, segmentName := "", 1, 0, 1, None;
      pass, pageLength, formFeeds := cfg.pass, cfg.pageLength, cfg.formFeeds;
      mCol, aCol, cCol, tCol, lBreak := cfg.mCol, cfg.aCol, cfg.cCol, cfg.tCol, cfg.lBreak;
      useHexOffs, comments, header := cfg.useHexOffs, cfg.comments, cfg.header;
    }

    /** Written straight to the stream: neither the pass nor Col matters. */
    method PageHeader()
      modifies this`out
      ensures out == old(out) + Render.PageHeader(header, page)
      ensures col == old(col) && line == old(line) && page == old(page) && pass == old(pass)
    {
      out := out + Render.PageHeader(header, page);
    }

    /** The stream is open; write the first header, in whatever pass. */
    method OpenOutput()
      requires Valid()
      modifies this`out, this`col, this`line
      ensures Valid() && pass == old(pass) && State() == Open(Cfg(), old(State()))
    {
      PageHeader();
      line := HeaderLines;
      col := 1;
    }

    method Output(t: string)
      requires Valid()
      modifies this`out, this`col
      ensures Valid() && pass == old(pass) && State() == Emit(Cfg(), old(State()), t)
    {
      if pass == Final {
        out := out + t;
        col := col + |t|;
      }
    }

    method Indent(n: nat)
      requires Valid()
      modifies this`out, this`col
      ensures Valid() && pass == old(pass) && State() == Pad(Cfg(), old(State()), n)
    {
      if pass == Final {
        while col < n
          invariant old(col) <= col
          invariant old(col) < n ==> col <= n
          invariant old(col) >= n ==> col == old(col)
          invariant out == old(out) + Spaces(col - old(col))
        {
          assert Spaces(col + 1 - old(col)) == Spaces(col - old(col)) + " ";
          out := out + " ";
          col := col + 1;
        }
        assert old(col) >= n ==> out == old(out);
      }
    }

    method LineFeed()
      requires Valid()
      modifies this`out, this`col, this`line, this`page
      ensures Valid() && pass == old(pass) && State() == Feed(Cfg(), old(State()))
    {
      if pass == Final {
        out := out + "\n";
        if pageLength > 0 {
          line := line + 1;
          if line >= pageLength {
            if formFeeds {
              out := out + [FormFeed];
            }
            page := page + 1;
            PageHeader();
            line := HeaderLines;
          }
        }
        col := 1;
      }
    }

    method DefLabel(name: string)
      requires Valid()
      modifies this`out, this`col, this`line, this`page
      ensures Valid() && pass == old(pass) && State() == Label(Cfg(), old(State()), name)
    {
      Output(name + ":");
      if col > lBreak + 2 || col > mCol {
        LineFeed();
      }
    }

    method DefForward(name: string, comment: Option<string>, offs: U32)
      requires Valid()
      modifies this`out, this`col, this`line, this`page
      ensures Valid() && pass == old(pass) && State() == Forward(Cfg(), old(State()), name, comment, offs)
    {
      if pass == Final {
        if col > 1 {
          LineFeed();
        }
        Output(name);
        Indent(aCol);
        if useHexOffs {
          Output(":= * + $" + Hex(offs, 4));
        } else {
          Output(":= * + " + Dec(offs));
        }
        if comment.Some? {
          Indent(cCol);
          Output("; " + comment.value);
        }
        LineFeed();
      }
    }

    method DefConst(name: string, comment: Option<string>, addr: U32)
      requires Valid()
      modifies this`out, this`col, this`line, this`page
      ensures Valid() && pass == old(pass) && State() == Constant(Cfg(), old(State()), name, comment, addr)
    {
      if pass == Final {
        Output(name);
        Indent(aCol);
        Output(ConstantValue(addr));
        if comment.Some? {
          Indent(cCol);
          Output("; " + comment.value);
        }
        LineFeed();
      }
    }

    method DataByteLine(code: seq<Byte>, pc: nat, byteCount: nat)
      requires Valid() && |code| == 0x10000 && pc + byteCount <= 0x10000
      modifies this`out, this`col, this`line, this`page
      ensures Valid() && pass == old(pass)
      ensures State() == DataLine(Cfg(), old(State()), ".byte", Operands(CodeReader(code), pc, 1, Operand(2), byteCount),
                                  code, pc, byteCount)
    {
      Indent(mCol);
      Output(".byte");
      Indent(aCol);
      ByteOperands(code, pc, byteCount, Operand(2));
      LineComment(code, pc, byteCount);
      LineFeed();
    }

    /** The operand loop of the .byte line: each byte in the given format, a
        comma before all but the first. */
    method ByteOperands(code: seq<Byte>, pc: nat, byteCount: nat, format: nat -> string)
      requires Valid() && pc + byteCount <= |code|
      modifies this`out, this`col
      ensures Valid() && pass == old(pass) && State() == Emit(Cfg(), old(State()), Operands(CodeReader(code), pc, 1, format, byteCount))
    {
      var i := 0;
      while i < byteCount
        invariant 0 <= i <= byteCount && Valid() && pass == old(pass)
        invariant State() == Emit(Cfg(), old(State()), Operands(CodeReader(code), pc, 1, format, i))
      {
        var item := format(code[pc + i]);
        assert CodeReader(code)(pc + i) == code[pc + i];
        ghost var before := State();
        if i > 0 {
          Output("," + item);
        } else {
          Output(item);
        }
        OperandWritten(Cfg(), old(State()), before, State(), CodeReader(code), pc, 1, format, i, pc + i,
                       if i > 0 then "," + item else item);
        i := i + 1;
      }
    }

    /** The operand loop of the .dbyt and .word lines: the value of each
        byte pair in the given format, a comma before all but the first. */
    method WordOperands(read: nat -> nat, pc: nat, byteCount: nat, format: nat -> string)
      requires Valid()
      modifies this`out, this`col
      ensures Valid() && pass == old(pass)
      ensures State() == Emit(Cfg(), old(State()), Operands(read, pc, 2, format, StrideCount(byteCount, 2)))
    {
      ghost var k := 0;
      var i := 0;
      while i < byteCount
        invariant Valid() && pass == old(pass) && i == 2 * k
        invariant k > 0 ==> 2 * (k - 1) < byteCount
        invariant State() == Emit(Cfg(), old(State()), Operands(read, pc, 2, format, k))
      {
        var item := format(read(pc + i));
        ghost var before := State();
        if i > 0 {
          Output("," + item);
        } else {
          Output(item);
        }
        OperandWritten(Cfg(), old(State()), before, State(), read, pc, 2, format, k, pc + i,
                       if i > 0 then "," + item else item);
        i := i + 2;
        k := k + 1;
      }
      StrideEnds(byteCount, 2, k);
    }

    /** The operand loop of the .dword line: the value of each group of four
        bytes in the given format, a comma before all but the first. */
    method DWordOperands(read: nat -> nat, pc: nat, byteCount: nat, format: nat -> string)
      requires Valid()
      modifies this`out, this`col
      ensures Valid() && pass == old(pass)
      ensures State() == Emit(Cfg(), old(State()), Operands(read, pc, 4, format, StrideCount(byteCount, 4)))
    {
      ghost var k := 0;
      var i := 0;
      while i < byteCount
        invariant Valid() && pass == old(pass) && i == 4 * k
        invariant k > 0 ==> 4 * (k - 1) < byteCount
        invariant State() == Emit(Cfg(), old(State()), Operands(read, pc, 4, format, k))
      {
        var item := format(read(pc + i));
        ghost var before := State();
        if i > 0 {
          Output("," + item);
        } else {
          Output(item);
        }
        OperandWritten(Cfg(), old(State()), before, State(), read, pc, 4, format, k, pc + i,
                       if i > 0 then "," + item else item);
        i := i + 4;
        k := k + 1;
      }
      StrideEnds(byteCount, 4, k);
    }

    /** getDByte stands for GetCodeDByte: the 16-bit dbyte at an address. */
    method DataDByteLine(code: seq<Byte>, pc: nat, byteCount: nat, getDByte: nat -> nat)
      requires Valid() && |code| == 0x10000 && pc + byteCount <= 0x10000
      requires forall a :: getDByte(a) < 0x1_0000
      modifies this`out, this`col, this`line, this`page
      ensures Valid() && pass == old(pass)
      ensures State() == DataLine(Cfg(), old(State()), ".dbyt",
                                  Operands(getDByte, pc, 2, Operand(4), StrideCount(byteCount, 2)), code, pc, byteCount)
    {
      Indent(mCol);
      Output(".dbyt");
      Indent(aCol);
      WordOperands(getDByte, pc, byteCount, Operand(4));
      LineComment(code, pc, byteCount);
      LineFeed();
    }

    /** getWord stands for GetCodeWord: the 16-bit word at an address. */
    method DataWordLine(code: seq<Byte>, pc: nat, byteCount: nat, getWord: nat -> nat)
      requires Valid() && |code| == 0x10000 && pc + byteCount <= 0x10000
      requires forall a :: getWord(a) < 0x1_0000
      modifies this`out, this`col, this`line, this`page
      ensures Valid() && pass == old(pass)
      ensures State() == DataLine(Cfg(), old(State()), ".word",
                                  Operands(getWord, pc, 2, Operand(4), StrideCount(byteCount, 2)), code, pc, byteCount)
    {
      Indent(mCol);
      Output(".word");
      Indent(aCol);
      WordOperands(getWord, pc, byteCount, Operand(4));
      LineComment(code, pc, byteCount);
      LineFeed();
    }

    /** getDWord stands for GetCodeDWord: the 32-bit dword at an address. */
    method DataDWordLine(code: seq<Byte>, pc: nat, byteCount: nat, getDWord: nat -> nat)
      requires Valid() && |code| == 0x10000 && pc + byteCount <= 0x10000
      requires forall a :: getDWord(a) < 0x1_0000_0000
      modifies this`out, this`col, this`line, this`page
      ensures Valid() && pass == old(pass)
      ensures State() == DataLine(Cfg(), old(State()), ".dword",
                                  Operands(getDWord, pc, 4, Operand(8), StrideCount(byteCount, 4)), code, pc, byteCount)
    {
      Indent(mCol);
      Output(".dword");
      Indent(aCol);
      DWordOperands(getDWord, pc, byteCount, Operand(8));
      LineComment(code, pc, byteCount);
      LineFeed();
    }

    method SeparatorLine()
      requires Valid()
      modifies this`out, this`col, this`line, this`page
      ensures Valid() && pass == old(pass) && State() == Separator(Cfg(), old(State()))
    {
      if pass == Final && comments >= 1 {
        Output(SeparatorText);
        LineFeed();
      }
    }

    /** addrSize is None for the default address size, otherwise its name. */
    method StartSegment(name: string, addrSize: Option<string>)
      requires Valid()
      modifies this`out, this`col, this`line, this`page, this`segmentName
      ensures Valid() && pass == old(pass) && State() == SegmentStart(Cfg(), old(State()), name, addrSize)
      ensures segmentName == if pass == Final then Some(name) else old(segmentName)
    {
      if pass == Final {
        LineFeed();
        Output(".segment");
        Indent(aCol);
        segmentName := Some(name);
        Output("\"" + name + "\"");
        if addrSize.Some? {
          Output(": " + addrSize.value);
        }
        LineFeed();
        LineFeed();
      }
    }

    /** In the final pass a segment must have been started: the C code
        would format a null name. */
    method EndSegment()
      requires Valid() && (pass == Final ==> segmentName.Some?)
      modifies this`out, this`col, this`line, this`page
      ensures Valid() && pass == old(pass)
      ensures State() == SegmentEnd(Cfg(), old(State()), if old(segmentName).Some? then old(segmentName).value else "")
    {
      var name := if segmentName.Some? then segmentName.value else "";
      LineFeed();
      Output("; End of \"" + name + "\" segment");
      LineFeed();
      SeparatorLine();
      Output(".code");
      LineFeed();
      LineFeed();
    }

    method UserComment(text: string)
      requires Valid()
      modifies this`out, this`col, this`line, this`page
      ensures Valid() && pass == old(pass) && State() == Comment(Cfg(), old(State()), text)
    {
      Output("; " + text);
      LineFeed();
    }

    method LineComment(code: seq<Byte>, pc: nat, count: nat)
      requires Valid() && pc + count <= |code|
      modifies this`out, this`col
      ensures Valid() && pass == old(pass) && State() == Render.LineComment(Cfg(), old(State()), code, pc, count)
    {
      if pass == Final && comments >= 2 {
        Indent(cCol);
        Output("; " + Hex(pc, 4));
        if comments >= 3 {
          HexDump(code, pc, count);
          if comments >= 4 {
            Indent(tCol);
            TextDump(code, pc, count);
          }
        }
      }
    }

    /** " XX" for each of the count bytes at pc. */
    method HexDump(code: seq<Byte>, pc: nat, count: nat)
      requires Valid() && pc + count <= |code|
      modifies this`out, this`col
      ensures Valid() && pass == old(pass) && State() == Emit(Cfg(), old(State()), HexBytes(code[pc..pc + count]))
    {
      ghost var bytes := code[pc..pc + count];
      var i := 0;
      while i < count
        invariant 0 <= i <= count && Valid() && pass == old(pass)
        invariant State() == Emit(Cfg(), old(State()), HexBytes(bytes[..i]))
      {
        EmitNextHexByte(Cfg(), old(State()), bytes, i);
        Output(" " + Hex(code[pc + i], 2));
        i := i + 1;
      }
      assert bytes[..i] == bytes;
    }

    /** One character for each of the count bytes at pc, '.' for those that
        are not printable. */
    method TextDump(code: seq<Byte>, pc: nat, count: nat)
      requires Valid() && pc + count <= |code|
      modifies this`out, this`col
      ensures Valid() && pass == old(pass) && State() == Emit(Cfg(), old(State()), Printable(code[pc..pc + count]))
    {
      ghost var bytes := code[pc..pc + count];
      var i := 0;
      while i < count
        invariant 0 <= i <= count && Valid() && pass == old(pass)
        invariant State() == Emit(Cfg(), old(State()), Printable(bytes[..i]))
      {
        var b := code[pc + i];
        if !IsPrint(b) {
          b := 0x2E;
        }
        assert b as char == Shown(bytes[i]);
        EmitNextShown(Cfg(), old(State()), bytes, i);
        Output([b as char]);
        i := i + 1;
      }
      assert bytes[..i] == bytes;
    }

    /** cpuName is the name of the CPU the disassembler is set to. */
    method OutputSettings(cpuName: string)
      requires Valid()
      modifies this`out, this`col, this`line, this`page
      ensures Valid() && pass == old(pass) && State() == Settings(Cfg(), old(State()), cpuName)
    {
      LineFeed();
      Indent(mCol);
      Output(".setcpu");
      Indent(aCol);
      Output("\"" + cpuName + "\"");
      LineFeed();
      LineFeed();
    }

    method OutputMFlag(enabled: bool)
      requires Valid()
      modifies this`out, this`col, this`line, this`page
      ensures Valid() && pass == old(pass) && State() == MFlag(Cfg(), old(State()), enabled)
    {
      Indent(mCol);
      Output(if enabled then ".a8" else ".a16");
      LineFeed();
    }

    method OutputXFlag(enabled: bool)
      requires Valid()
      modifies this`out, this`col, this`line, this`page
      ensures Valid() && pass == old(pass) && State() == XFlag(Cfg(), old(State()), enabled)
    {
      Indent(mCol);
      Output(if enabled then ".i8" else ".i16");
      LineFeed();
    }
  }
}
