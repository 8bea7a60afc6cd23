# da65 output engine, modelled in Dafny

da65 is the 6502 disassembler of the cc65 tool chain. Every line of its
listing is written by the routines of `src/da65/output.c`. They share the
output stream and the file-scoped counters `Col` (column of the next
character, from 1), `Line` (lines on the current page) and `Page`, plus
`SegmentName`.

All text goes through three primitives:

- `Output` writes formatted text and advances `Col`.
- `Indent` pads with blanks up to a column.
- `LineFeed` ends the line and turns the page when pagination is on.

Each primitive acts only in the final pass (`Pass == PASS_FINAL`). The other
routines build on them: labels, forward definitions, constants, data lines,
line comments, separators, segments, user comments and CPU directives.
`OpenOutput` writes the first page header in every pass.

The project has four modules:

- `Text` (`text.dfy`) holds the numerals printf writes for `%0<w>X` and `%u`,
  runs of blanks, and comma-separated lists. Numerals and comma-separated
  lists come with the parser that reads them back, and the round trips are
  proved. Runs of blanks have a shape lemma.
- `Render` (`render.dfy`) holds the settings (`Config`) and the written text
  with its counters (`Sink`). Every routine of `output.c` is a pure function
  from the old `Sink` to the new one.
- `Engine` (`engine.dfy`) is the class `OutputEngine`. Its fields are the
  stream and the counters of `output.c`, and it has one method per C
  routine. The methods use the source's own loops: `Indent`'s `while`, and
  the `for` loops of the data lines and of `LineComment`. Each method is
  proved to leave exactly the `Sink` its `Render` function gives, to keep
  `Col >= 1`, and to leave the pass alone.
- `Listing` (`listing.dfy`) proves what the listing looks like:
  - the pass gate;
  - the rules of the three primitives;
  - the five-line header and pagination;
  - that `Col` is the screen column: one past the characters on the current line;
  - the label-break condition;
  - the layout of every kind of line;
  - read-back of every number written: data operands, offsets, constants.

## Model

| member | source | states |
|---|---|---|
| Engine.OutputEngine.constructor | src/da65/output.c:62-67 | the counters start at Col 1, Line 0, Page 1, with no segment and nothing written |
| Engine.OutputEngine.PageHeader | src/da65/output.c:77-89 | appends the header for the current page whatever the pass; Col, Line and Page do not move |
| Engine.OutputEngine.OpenOutput | src/da65/output.c:93-110 | after opening, the first header is written in any pass, Line is 5 and Col is 1 |
| Engine.OutputEngine.Output | src/da65/output.c:124-133 | in the final pass appends the text and adds its length to Col; otherwise nothing changes |
| Engine.OutputEngine.Indent | src/da65/output.c:137-146 | the while loop pads with blanks up to column N and leaves Col at max(Col, N), in the final pass only |
| Engine.OutputEngine.LineFeed | src/da65/output.c:150-165 | ends the line and resets Col to 1; with pagination, counts the line and turns the page when Line reaches PageLength |
| Engine.OutputEngine.DefLabel | src/da65/output.c:169-179 | writes `name:` and line-feeds exactly when Col passed LBreak+2 or MCol |
| Engine.OutputEngine.DefForward | src/da65/output.c:183-208 | final pass only: flushes a started line, writes name, `:= * + ` and the offset in hex or decimal, an optional comment, and ends the line |
| Engine.OutputEngine.DefConst | src/da65/output.c:212-225 | final pass only: writes name, `:= $` and the address in 4+ hex digits, an optional comment, and ends the line |
| Engine.OutputEngine.DataByteLine | src/da65/output.c:229-246 | `.byte`, then ByteCount operands `$XX` read from CodeBuf at PC with no leading comma, then the line comment and a line feed |
| Engine.OutputEngine.ByteOperands | src/da65/output.c:237-243 | the for loop writes the ByteCount operands from CodeBuf[PC..], comma-separated with no leading comma, in address order |
| Engine.OutputEngine.DataDByteLine | src/da65/output.c:250-267 | `.dbyt` and one `$XXXX` operand per 2-byte step from GetCodeDByte (a 16-bit reader), then the line comment and a line feed |
| Engine.OutputEngine.WordOperands | src/da65/output.c:258-264 | the 2-step loop of `.dbyt` (and, the same, of `.word` at lines 279-285) writes (ByteCount+1)/2 operands, comma-separated, in address order |
| Engine.OutputEngine.DataWordLine | src/da65/output.c:271-288 | `.word` and one `$XXXX` operand per 2-byte step from GetCodeWord (a 16-bit reader), then the line comment and a line feed |
| Engine.OutputEngine.DataDWordLine | src/da65/output.c:292-309 | `.dword` and one `$XXXXXXXX` operand per 4-byte step from GetCodeDWord (a 32-bit reader), then the line comment and a line feed |
| Engine.OutputEngine.DWordOperands | src/da65/output.c:300-306 | the 4-step loop writes (ByteCount+3)/4 operands, comma-separated, in address order |
| Engine.OutputEngine.SeparatorLine | src/da65/output.c:313-320 | writes the 78-character rule and a line feed only in the final pass at comment level 1 or more |
| Engine.OutputEngine.StartSegment | src/da65/output.c:324-339 | final pass only: a line feed, `.segment "name"` with `: size` unless the size is the default, two line feeds; records the segment name |
| Engine.OutputEngine.EndSegment | src/da65/output.c:343-353 | line feed, end comment naming the current segment, line feed, separator, `.code`, two line feeds |
| Engine.OutputEngine.UserComment | src/da65/output.c:357-362 | writes `; text` and ends the line, through the gated primitives |
| Engine.OutputEngine.LineComment | src/da65/output.c:366-390 | the comment tiers for the Count bytes at PC, with the for loops of levels 3 and 4 |
| Engine.OutputEngine.HexDump | src/da65/output.c:375-377 | the loop writes ` XX` for each byte, in order |
| Engine.OutputEngine.TextDump | src/da65/output.c:379-387 | the loop writes one character per byte, `.` for a byte that is not printable |
| Engine.OutputEngine.OutputSettings | src/da65/output.c:394-404 | line feed, `.setcpu` in the mnemonic column, the quoted CPU name in the argument column, two line feeds |
| Engine.OutputEngine.OutputMFlag | src/da65/output.c:408-414 | `.a8` or `.a16` in the mnemonic column, then a line feed |
| Engine.OutputEngine.OutputXFlag | src/da65/output.c:418-424 | `.i8` or `.i16` in the mnemonic column, then a line feed |
| Text.HexRoundTrip | src/da65/output.c:197 | `%04X` and the other widths write only upper-case hex digits, at least the width, exactly the width when the value fits, and read back as the value |
| Text.DecRoundTrip | src/da65/output.c:199 | `%u` writes decimal digits with no leading zero unless the value is 0, and reads back as the value |
| Text.DigitsRoundTrip | src/da65/output.c:197-199 | any numeral printf writes, zero-padded or not, reads back as the number |
| Text.DigitsFit | src/da65/output.c:239 | a value below base^width takes exactly width digits, so `%02X` of a byte is two characters |
| Text.SpacesShape | src/da65/output.c:140-143 | Indent's padding is exactly k blanks |
| Text.SplitJoin | src/da65/output.c:238-242 | a comma-separated list of comma-free items splits back into the items |
| Listing.OnlyFinalPassWrites | src/da65/output.c:124-165 | outside the final pass Output, Indent, LineFeed and every routine built on them change neither text nor counters |
| Listing.OpenIgnoresPass | src/da65/output.c:93-110 | OpenOutput's header is written in every pass, and Line becomes 5 and Col 1 |
| Listing.HeaderHasFiveLines | src/da65/output.c:77-89 | the page header is five lines (four tagged lines and a blank one) when its strings are one line each |
| Listing.EmitRule | src/da65/output.c:124-133 | in the final pass Output appends exactly the text and advances Col by its length |
| Listing.PadRule | src/da65/output.c:137-146 | Indent(N) appends max(0, N - Col) blanks and leaves Col at max(Col, N) |
| Listing.FeedRule | src/da65/output.c:150-165 | LineFeed sets Col to 1; without pagination only a newline; with it Line+1, or at PageLength an optional form feed, the next page's header, Page+1 and Line 5 |
| Listing.ColumnStaysPositive | src/da65/output.c:63 | Col never drops below 1 |
| Listing.EmitTracks | src/da65/output.c:124-133 | Output of text without a line break keeps Col equal to one past the characters on the current line |
| Listing.PadTracks | src/da65/output.c:137-146 | Indent keeps Col equal to one past the characters on the current line, so padding to N puts the next character in screen column N |
| Listing.FeedTracks | src/da65/output.c:150-165 | after LineFeed, page turn included, Col 1 is the start of an empty line |
| Listing.OpenTracks | src/da65/output.c:93-110 | after OpenOutput's header, Col 1 is the start of an empty line |
| Listing.FeedsWithinPage | src/da65/output.c:154-158 | line feeds that stay below PageLength keep Page, add one to Line and one line to the text each |
| Listing.PageTurns | src/da65/output.c:154-162 | from Line l, the (PageLength - l)-th line feed turns the page and Line restarts at 5, so a page holds PageLength - 5 lines of listing when PageLength > 5 |
| Listing.ShortPagesTurnEveryLine | src/da65/output.c:155-161 | with PageLength 1 to 5, every line feed below the header turns the page and Line stays at 5 |
| Listing.FeedsWithoutPages | src/da65/output.c:154 | with PageLength 0, Line and Page never move, however many lines are written |
| Listing.LabelBreak | src/da65/output.c:169-179 | DefLabel writes `name:` and ends the line with a line feed (page turn included) if and only if the column after `name:` is past LBreak+2 or MCol; otherwise Col is the column after the colon |
| Listing.ForwardOffsetReadsBack | src/da65/output.c:193-197 | the forward offset follows `:= * + $` in 4+ hex digits (exactly 4 below 0x10000), or `:= * + ` in decimal, and reads back |
| Listing.ConstantAddressReadsBack | src/da65/output.c:217 | the constant follows `:= $` in 4+ hex digits (exactly 4 below 0x10000) and reads back |
| Listing.ForwardLayout | src/da65/output.c:183-208 | DefForward always leaves Col 1; without pagination, the exact line it writes: a flush only when Col > 1, name, value at ACol, optional comment at CCol, newline |
| Listing.ConstantLayout | src/da65/output.c:212-225 | the exact line DefConst writes: name, value at ACol, optional comment at CCol, newline |
| Listing.OperandsJoin | src/da65/output.c:237-243 | the operand loop's output is the comma-join of the values read at PC, PC+step, ... in order |
| Listing.OperandReadsBack | src/da65/output.c:239-241 | one operand is `$` and hex digits that read back as its value, and holds no comma |
| Listing.OperandsReadBack | src/da65/output.c:237-243 | a data line's operand list splits at the commas into exactly its items, item j reading back as the value at PC + step*j |
| Listing.ByteOperandsReadBack | src/da65/output.c:229-246 | `.byte` lists ByteCount items, item j is `$` and exactly 2 hex digits of CodeBuf[PC+j]; with ByteCount 0 no operand at all |
| Listing.WordOperandsReadBack | src/da65/output.c:250-288 | `.dbyt` and `.word` list (ByteCount+1)/2 items, item j is `$` and exactly 4 hex digits of the value at PC+2j, for any reader of 16-bit values; with ByteCount 0 no operand |
| Listing.DWordOperandsReadBack | src/da65/output.c:292-309 | `.dword` lists (ByteCount+3)/4 items, item j is `$` and exactly 8 hex digits of the value at PC+4j, for any reader of 32-bit values; with ByteCount 0 no operand |
| Listing.DataLineLayout | src/da65/output.c:229-246 | every data line ends with Col 1; without pagination, the mnemonic at MCol, the operands at ACol, the line comment of every level as LineCommentTiers gives it, and a newline |
| Listing.HexBytesShape | src/da65/output.c:375-377 | the hex dump is three characters per byte, ` XX`, in order |
| Listing.PrintableShape | src/da65/output.c:379-387 | the text dump is one printable character per byte: the byte itself when it is printable, `.` when it is not |
| Listing.LineCommentTiers | src/da65/output.c:366-390 | nothing below level 2; `; XXXX` of PC at CCol from 2; the bytes in hex from 3; the text dump at TCol from 4; the resulting Col at each level; never a line feed |
| Listing.SeparatorLayout | src/da65/output.c:313-320 | the 78-character rule and a newline from comment level 1, nothing at level 0 |
| Listing.SegmentStartLayout | src/da65/output.c:324-339 | the exact text StartSegment writes, with `: size` only for a non-default size |
| Listing.SegmentEndLayout | src/da65/output.c:343-353 | the exact text EndSegment writes, with the separator only from comment level 1 |
| Listing.CommentLayout | src/da65/output.c:357-362 | UserComment writes `; text` and a newline |
| Listing.SettingsLayout | src/da65/output.c:394-404 | the exact text OutputSettings writes |
| Listing.FlagLayout | src/da65/output.c:408-424 | OutputMFlag writes `.a8`/`.a16` and OutputXFlag writes `.i8`/`.i16` at MCol, each on its own line |

## Left out

- The stream `F` is the string `out`. `fopen`, `fclose`, the `stdout` fallback, `CloseOutput` and the `Error` calls on failure are I/O and are not modelled. `OpenOutput` is modelled from the point where the stream is open.
- Write errors are not modelled: every `vfprintf` is taken to succeed. A failed write returns a negative count (src/da65/output.c:130), and `Col` then moves back. Listing.ColumnStaysPositive, the Tracks lemmas and the layout lemmas describe successful writes.
- `vfprintf` is not modelled as a format interpreter. Each call becomes the string it prints, built from the numeral functions of `Text`. The `%s`, `%c`, `%u`, `%02X`, `%04X` and `%08X` conversions are covered.
- `GetVersionAsString()`, `Now` and `InFile` in the page header are opaque strings in `Config.header`.
- `CPUNames[CPU]` and `AddrSizeToStr` come from headers that are not part of this model. They are string parameters. The address size is `None` when it is `ADDR_SIZE_DEFAULT`.
- `GetCodeDByte`, `GetCodeWord` and `GetCodeDWord` are declared in `src/da65/code.h`, but their bodies (`code.c`) are not part of this model. The data lines take them as reader functions, so no byte order is asserted.
- `CodeBuf` is a sequence of 0x10000 bytes and `PC` is a parameter. The data lines require `PC + ByteCount <= 0x10000`, because the source indexes `CodeBuf[PC+I]` unchecked.
- `isprint` depends on the locale. The model fixes it to ASCII 0x20..0x7E.
- `Col`, `Line` and `Page` are C `unsigned`. The model uses unbounded naturals and does not model 32-bit wrap-around, which needs about four billion characters on one line or four billion pages.
- Engine.OutputEngine.EndSegment: in the final pass it requires a started segment. With `SegmentName` still null, `%s` would receive a null pointer, which C leaves undefined.
- Listing.ForwardLayout: the exact text is stated for `PageLength == 0`. With pagination the flush and the final line feed may each also add a form feed and a page header (Listing.FeedRule). Col 1 at the end is stated for every PageLength.
- Listing.ConstantLayout: the exact text is stated for `PageLength == 0`. With pagination the final line feed may also add a form feed and a page header (Listing.FeedRule).
- Listing.DataLineLayout: the exact text is stated for `PageLength == 0`. With pagination the final line feed may also add a form feed and a page header (Listing.FeedRule). Col 1 at the end is stated for every PageLength.
- Listing.SeparatorLayout: the exact text is stated for `PageLength == 0`. With pagination its line feed may also add a form feed and a page header (Listing.FeedRule).
- Listing.SegmentStartLayout: the exact text is stated for `PageLength == 0`. With pagination each of its line feeds may also add a form feed and a page header (Listing.FeedRule).
- Listing.SegmentEndLayout: the exact text is stated for `PageLength == 0`. With pagination each of its line feeds may also add a form feed and a page header (Listing.FeedRule).
- Listing.CommentLayout: the exact text is stated for `PageLength == 0`. With pagination its line feed may also add a form feed and a page header (Listing.FeedRule).
- Listing.SettingsLayout: the exact text is stated for `PageLength == 0`. With pagination each of its line feeds may also add a form feed and a page header (Listing.FeedRule).
- Listing.FlagLayout: the exact text is stated for `PageLength == 0`. With pagination its line feed may also add a form feed and a page header (Listing.FeedRule).
- Listing.WordOperandsReadBack and Listing.DWordOperandsReadBack hold for any reader of 16-bit (32-bit) values. The engine's data lines take `GetCodeDByte`, `GetCodeWord` and `GetCodeDWord` as such readers, with that range as a precondition; their byte order is not part of this model.
- A `char` of `out` stands for one byte written to `F`. `vfprintf` returns a byte count (`output.c:130`), so a name or comment with multi-byte UTF-8 characters moves `Col` by its bytes, which the model does not distinguish.
- The `samples/` programs (`profile.c`, `proftest.c`, `profile.h`) are demonstration targets and are not part of this model.
- Facts of `output.c` the model follows:
  - the line comment starts at comment level 2 (`output.c:371`); bytes in hex come from level 3 and the text dump from level 4;
  - `UserComment` writes through the gated primitives (`output.c:360-361`), so it writes nothing outside the final pass;
  - the page header is five lines, and `Line` restarts at 5 after it (`output.c:108`, `output.c:161`). A page holds `PageLength - 5` lines of listing when `PageLength > 5`; with `PageLength` 1 to 5 every line feed turns the page.
