/** The printer library's entry points (src/BluetoothPrinterLibrary/index.js):
    TSPL command-string builders, the DOWNLOAD + bitmap + PUTPCX buffer, and
    the thin wrappers that hand them to a `BLEManager`. Every interpolated
    value is taken in its `String(...)` form. */
module PrinterLibrary {
  import opened Wrappers
  import opened Chunking
  import opened Text
  import opened BleManager
  import opened Gatt

  /** One comma-separated field of a TSPL statement: written as is, or
      between double quotes. */
  datatype Field = Bare(text: string) | Quoted(text: string)

  function RenderField(f: Field): string
  {
    match f
    case Bare(t) => t
    case Quoted(t) => "\"" + t + "\""
  }

  function JoinFields(fields: seq<Field>): string
  {
    if |fields| == 0 then ""
    else if |fields| == 1 then RenderField(fields[0])
    else RenderField(fields[0]) + "," + JoinFields(fields[1..])
  }

  /** Joining a field onto a non-empty list puts one comma between them. */
  lemma JoinCons(f: Field, rest: seq<Field>)
    requires rest != []
    ensures JoinFields([f] + rest) == RenderField(f) + "," + JoinFields(rest)
  {
    assert ([f] + rest)[1..] == rest;
  }

  /** Joining two non-empty lists puts one comma between their joins. */
  lemma {:induction false} JoinAppend(a: seq<Field>, b: seq<Field>)
    requires a != [] && b != []
    ensures JoinFields(a + b) == JoinFields(a) + "," + JoinFields(b)
  {
    assert (a + b)[0] == a[0];
    assert (a + b)[1..] == a[1..] + b;
    if |a| > 1 {
      JoinAppend(a[1..], b);
      var r, ja, jb := RenderField(a[0]), JoinFields(a[1..]), JoinFields(b);
      assert r + "," + (ja + "," + jb) == (r + "," + ja) + "," + jb;
    }
  }

  lemma Join2(a: Field, b: Field)
    ensures JoinFields([a, b]) == RenderField(a) + "," + (RenderField(b))
  {
    JoinCons(a, [b]);
    assert [a] + [b] == [a, b];
  }

  lemma Join3(a: Field, b: Field, c: Field)
    ensures JoinFields([a, b, c]) == RenderField(a) + "," + (RenderField(b) + "," + (RenderField(c)))
  {
    Join2(b, c);
    JoinCons(a, [b, c]);
    assert [a] + [b, c] == [a, b, c];
  }

  lemma Join4(a: Field, b: Field, c: Field, d: Field)
    ensures JoinFields([a, b, c, d]) == RenderField(a) + "," + (RenderField(b) + "," + (RenderField(c) + "," + (RenderField(d))))
  {
    Join3(b, c, d);
    JoinCons(a, [b, c, d]);
    assert [a] + [b, c, d] == [a, b, c, d];
  }

  lemma Join5(a: Field, b: Field, c: Field, d: Field, e: Field)
    ensures JoinFields([a, b, c, d, e]) == RenderField(a) + "," + (RenderField(b) + "," + (RenderField(c) + "," + (RenderField(d) + "," + (RenderField(e)))))
  {
    Join4(b, c, d, e);
    JoinCons(a, [b, c, d, e]);
    assert [a] + [b, c, d, e] == [a, b, c, d, e];
  }

  lemma Join6(a: Field, b: Field, c: Field, d: Field, e: Field, f: Field)
    ensures JoinFields([a, b, c, d, e, f]) == RenderField(a) + "," + (RenderField(b) + "," + (RenderField(c) + "," + (RenderField(d) + "," + (RenderField(e) + "," + (RenderField(f))))))
  {
    Join5(b, c, d, e, f);
    JoinCons(a, [b, c, d, e, f]);
    assert [a] + [b, c, d, e, f] == [a, b, c, d, e, f];
  }

  lemma Join7(a: Field, b: Field, c: Field, d: Field, e: Field, f: Field, g: Field)
    ensures JoinFields([a, b, c, d, e, f, g]) == RenderField(a) + "," + (RenderField(b) + "," + (RenderField(c) + "," + (RenderField(d) + "," + (RenderField(e) + "," + (RenderField(f) + "," + (RenderField(g)))))))
  {
    Join6(b, c, d, e, f, g);
    JoinCons(a, [b, c, d, e, f, g]);
    assert [a] + [b, c, d, e, f, g] == [a, b, c, d, e, f, g];
  }

  lemma Join8(a: Field, b: Field, c: Field, d: Field, e: Field, f: Field, g: Field, h: Field)
    ensures JoinFields([a, b, c, d, e, f, g, h]) == RenderField(a) + "," + (RenderField(b) + "," + (RenderField(c) + "," + (RenderField(d) + "," + (RenderField(e) + "," + (RenderField(f) + "," + (RenderField(g) + "," + (RenderField(h))))))))
  {
    Join7(b, c, d, e, f, g, h);
    JoinCons(a, [b, c, d, e, f, g, h]);
    assert [a] + [b, c, d, e, f, g, h] == [a, b, c, d, e, f, g, h];
  }

  /** Every builder's template starts and ends with a line break. */
  function Framed(line: string): string
  {
    "\n" + line + "\n"
  }

  /** The line between the two line breaks, when `s` is framed. */
  function Unframe(s: string): (r: Option<string>)
    ensures r.Some? ==> Framed(r.value) == s
  {
    if |s| >= 2 && s[0] == '\n' && s[|s| - 1] == '\n' then Some(s[1..|s| - 1]) else None
  }

  lemma FramedRoundTrip(line: string)
    ensures Unframe(Framed(line)) == Some(line)
  {
    assert Framed(line)[1..|Framed(line)| - 1] == line;
  }

  /** The reference rendering of a well-formed statement: keyword, a space,
      the fields joined by commas, framed by line breaks. */
  function Statement(keyword: string, fields: seq<Field>): string
  {
    Framed(keyword + " " + JoinFields(fields))
  }

  /** The number of double quotes in `s`. */
  function QuoteCount(s: string): nat
  {
    if s == [] then 0 else (if s[0] == '"' then 1 else 0) + QuoteCount(s[1..])
  }

  predicate QuoteFree(s: string)
  {
    '"' !in s
  }

  predicate FieldsQuoteFree(fields: seq<Field>)
  {
    forall i :: 0 <= i < |fields| ==> QuoteFree(fields[i].text)
  }

  function QuotedFields(fields: seq<Field>): nat
  {
    if fields == [] then 0
    else (if fields[0].Quoted? then 1 else 0) + QuotedFields(fields[1..])
  }

  /** Quote-free values make a statement with exactly two quotes per quoted
      field: its quotes pair up. */
  lemma StatementQuotesPair(keyword: string, fields: seq<Field>)
    requires QuoteFree(keyword)
    requires FieldsQuoteFree(fields)
    ensures QuoteCount(Statement(keyword, fields)) == 2 * QuotedFields(fields)
  {
    JoinQuotes(fields);
    QuoteFreeCount(keyword);
    var line := keyword + " " + JoinFields(fields);
    QuoteCountAppend("\n" + line, "\n");
    QuoteCountAppend("\n", line);
    QuoteCountAppend(keyword + " ", JoinFields(fields));
    QuoteCountAppend(keyword, " ");
  }

  lemma {:induction false} JoinQuotes(fields: seq<Field>)
    requires FieldsQuoteFree(fields)
    ensures QuoteCount(JoinFields(fields)) == 2 * QuotedFields(fields)
  {
    if |fields| >= 1 {
      var t := fields[0].text;
      QuoteFreeCount(t);
      QuoteCountAppend("\"" + t, "\"");
      QuoteCountAppend("\"", t);
      if |fields| == 1 {
        assert fields[1..] == [];
      } else {
        assert FieldsQuoteFree(fields[1..]) by {
          forall i | 0 <= i < |fields| - 1 ensures QuoteFree(fields[1..][i].text) {
            assert fields[1..][i] == fields[i + 1];
          }
        }
        JoinQuotes(fields[1..]);
        QuoteCountAppend(RenderField(fields[0]) + ",", JoinFields(fields[1..]));
        QuoteCountAppend(RenderField(fields[0]), ",");
      }
    }
  }

  /** `sendTextCommand`'s string (the `alignment` argument is unused). */
  function TextCommand(x: string, y: string, font: string, rotation: string, xMultiply: string, yMultiply: string, content: string): (r: string)
    ensures r == Statement("TEXT", [Bare(x), Bare(y), Quoted(font), Bare(rotation), Bare(xMultiply), Bare(yMultiply), Quoted(content)])
  {
    Join7(Bare(x), Bare(y), Quoted(font), Bare(rotation), Bare(xMultiply), Bare(yMultiply), Quoted(content));
    "\nTEXT " + x + "," + y + ",\"" + font + "\"," + rotation + "," + xMultiply + "," + yMultiply + ",\"" + content + "\"\n"
  }

  /** `sendBarcodeCommand`'s string, as written: one quote opens before the
      code type and closes after the wide-bar width, and the content has only
      a closing quote. */
  function BarcodeCommand(x: string, y: string, codeType: string, height: string, humanReadable: string,
                          rotation: string, narrow: string, wide: string, content: string): string
  {
    "\nBARCODE " + x + "," + y + ",\"" + codeType + "," + height + "," + humanReadable + "," + rotation + ","
      + narrow + "," + wide + ",\"" + content + "\"\n"
  }

  /** `sendRSSCommand`'s string, as written: the content's closing quote is missing. */
  function RssCommand(x: string, y: string, sym: string, rotate: string, pixMult: string,
                      sepHeight: string, lineHeight: string, content: string): string
  {
    "\nRSS " + x + "," + y + ",\"" + sym + "\"," + rotate + "," + pixMult + "," + sepHeight + "," + lineHeight
      + ",\"" + content + "\n"
  }

  /** Quote counts add up over a concatenation. */
  lemma {:induction false} QuoteCountAppend(a: string, b: string)
    ensures QuoteCount(a + b) == QuoteCount(a) + QuoteCount(b)
  {
    if a == [] {
      assert a + b == b;
    } else {
      assert (a + b)[1..] == a[1..] + b;
      QuoteCountAppend(a[1..], b);
    }
  }

  /** A quote-free value adds no quote to the string it is spliced into. */
  lemma {:induction false} QuoteFreeCount(s: string)
    requires QuoteFree(s)
    ensures QuoteCount(s) == 0
  {
    if s != [] {
      QuoteFreeCount(s[1..]);
    }
  }

  /** With quote-free values the barcode string carries three quotes. */
  lemma BarcodeQuoteCount(x: string, y: string, codeType: string, height: string, humanReadable: string,
                          rotation: string, narrow: string, wide: string, content: string)
    requires QuoteFree(x) && QuoteFree(y) && QuoteFree(codeType) && QuoteFree(height) && QuoteFree(humanReadable)
    requires QuoteFree(rotation) && QuoteFree(narrow) && QuoteFree(wide) && QuoteFree(content)
    ensures QuoteCount(BarcodeCommand(x, y, codeType, height, humanReadable, rotation, narrow, wide, content)) == 3
  {
    var head := "\nBARCODE " + x + "," + y + ",\"" + codeType + "," + height;
    QuoteFreeCount("\nBARCODE ");
    BarcodeHeadQuotes("\nBARCODE ", x, y, codeType, height);
    BarcodeTailQuotes(head, humanReadable, rotation, narrow, wide, content);
  }

  lemma BarcodeHeadQuotes(lead: string, x: string, y: string, codeType: string, height: string)
    requires QuoteCount(lead) == 0
    requires QuoteFree(x) && QuoteFree(y) && QuoteFree(codeType) && QuoteFree(height)
    ensures QuoteCount(lead + x + "," + y + ",\"" + codeType + "," + height) == 1
  {
    QuoteFreeCount(x); QuoteFreeCount(y); QuoteFreeCount(codeType); QuoteFreeCount(height);
    QuoteCountAppend(lead, x);
    QuoteCountAppend(lead + x, ",");
    QuoteCountAppend(lead + x + ",", y);
    QuoteCountAppend(lead + x + "," + y, ",\"");
    QuoteCountAppend(lead + x + "," + y + ",\"", codeType);
    QuoteCountAppend(lead + x + "," + y + ",\"" + codeType, ",");
    QuoteCountAppend(lead + x + "," + y + ",\"" + codeType + ",", height);
  }

  lemma BarcodeTailQuotes(head: string, humanReadable: string, rotation: string, narrow: string, wide: string, content: string)
    requires QuoteCount(head) == 1
    requires QuoteFree(humanReadable) && QuoteFree(rotation) && QuoteFree(narrow) && QuoteFree(wide) && QuoteFree(content)
    ensures QuoteCount(head + "," + humanReadable + "," + rotation + "," + narrow + "," + wide + ",\"" + content + "\"\n") == 3
  {
    QuoteFreeCount(humanReadable); QuoteFreeCount(rotation); QuoteFreeCount(narrow); QuoteFreeCount(wide);
    QuoteFreeCount(content);
    QuoteCountAppend(head, ",");
    QuoteCountAppend(head + ",", humanReadable);
    QuoteCountAppend(head + "," + humanReadable, ",");
    QuoteCountAppend(head + "," + humanReadable + ",", rotation);
    QuoteCountAppend(head + "," + humanReadable + "," + rotation, ",");
    QuoteCountAppend(head + "," + humanReadable + "," + rotation + ",", narrow);
    QuoteCountAppend(head + "," + humanReadable + "," + rotation + "," + narrow, ",");
    QuoteCountAppend(head + "," + humanReadable + "," + rotation + "," + narrow + ",", wide);
    QuoteCountAppend(head + "," + humanReadable + "," + rotation + "," + narrow + "," + wide, ",\"");
    QuoteCountAppend(head + "," + humanReadable + "," + rotation + "," + narrow + "," + wide + ",\"", content);
    QuoteCountAppend(head + "," + humanReadable + "," + rotation + "," + narrow + "," + wide + ",\"" + content, "\"\n");
  }

  /** Hence no statement whose values are quote-free renders as the barcode string. */
  lemma BarcodeQuotesUnbalanced(x: string, y: string, codeType: string, height: string, humanReadable: string,
                                rotation: string, narrow: string, wide: string, content: string,
                                keyword: string, fields: seq<Field>)
    requires QuoteFree(x) && QuoteFree(y) && QuoteFree(codeType) && QuoteFree(height) && QuoteFree(humanReadable)
    requires QuoteFree(rotation) && QuoteFree(narrow) && QuoteFree(wide) && QuoteFree(content)
    requires QuoteFree(keyword) && FieldsQuoteFree(fields)
    ensures Statement(keyword, fields) != BarcodeCommand(x, y, codeType, height, humanReadable, rotation, narrow, wide, content)
  {
    BarcodeQuoteCount(x, y, codeType, height, humanReadable, rotation, narrow, wide, content);
    StatementQuotesPair(keyword, fields);
  }

  /** With quote-free values the RSS string carries three quotes. */
  lemma RssQuoteCount(x: string, y: string, sym: string, rotate: string, pixMult: string,
                      sepHeight: string, lineHeight: string, content: string)
    requires QuoteFree(x) && QuoteFree(y) && QuoteFree(sym) && QuoteFree(rotate) && QuoteFree(pixMult)
    requires QuoteFree(sepHeight) && QuoteFree(lineHeight) && QuoteFree(content)
    ensures QuoteCount(RssCommand(x, y, sym, rotate, pixMult, sepHeight, lineHeight, content)) == 3
  {
    var head := "\nRSS " + x + "," + y + ",\"" + sym + "\"," + rotate;
    QuoteFreeCount("\nRSS ");
    RssHeadQuotes("\nRSS ", x, y, sym, rotate);
    RssTailQuotes(head, pixMult, sepHeight, lineHeight, content);
  }

  lemma RssHeadQuotes(lead: string, x: string, y: string, sym: string, rotate: string)
    requires QuoteCount(lead) == 0
    requires QuoteFree(x) && QuoteFree(y) && QuoteFree(sym) && QuoteFree(rotate)
    ensures QuoteCount(lead + x + "," + y + ",\"" + sym + "\"," + rotate) == 2
  {
    QuoteFreeCount(x); QuoteFreeCount(y); QuoteFreeCount(sym); QuoteFreeCount(rotate);
    QuoteCountAppend(lead, x);
    QuoteCountAppend(lead + x, ",");
    QuoteCountAppend(lead + x + ",", y);
    QuoteCountAppend(lead + x + "," + y, ",\"");
    QuoteCountAppend(lead + x + "," + y + ",\"", sym);
    QuoteCountAppend(lead + x + "," + y + ",\"" + sym, "\",");
    QuoteCountAppend(lead + x + "," + y + ",\"" + sym + "\",", rotate);
  }

  lemma RssTailQuotes(head: string, pixMult: string, sepHeight: string, lineHeight: string, content: string)
    requires QuoteCount(head) == 2
    requires QuoteFree(pixMult) && QuoteFree(sepHeight) && QuoteFree(lineHeight) && QuoteFree(content)
    ensures QuoteCount(head + "," + pixMult + "," + sepHeight + "," + lineHeight + ",\"" + content + "\n") == 3
  {
    QuoteFreeCount(pixMult); QuoteFreeCount(sepHeight); QuoteFreeCount(lineHeight); QuoteFreeCount(content);
    QuoteCountAppend(head, ",");
    QuoteCountAppend(head + ",", pixMult);
    QuoteCountAppend(head + "," + pixMult, ",");
    QuoteCountAppend(head + "," + pixMult + ",", sepHeight);
    QuoteCountAppend(head + "," + pixMult + "," + sepHeight, ",");
    QuoteCountAppend(head + "," + pixMult + "," + sepHeight + ",", lineHeight);
    QuoteCountAppend(head + "," + pixMult + "," + sepHeight + "," + lineHeight, ",\"");
    QuoteCountAppend(head + "," + pixMult + "," + sepHeight + "," + lineHeight + ",\"", content);
    QuoteCountAppend(head + "," + pixMult + "," + sepHeight + "," + lineHeight + ",\"" + content, "\n");
  }

  /** Hence no statement whose values are quote-free renders as the RSS string. */
  lemma RssQuotesUnbalanced(x: string, y: string, sym: string, rotate: string, pixMult: string,
                            sepHeight: string, lineHeight: string, content: string,
                            keyword: string, fields: seq<Field>)
    requires QuoteFree(x) && QuoteFree(y) && QuoteFree(sym) && QuoteFree(rotate) && QuoteFree(pixMult)
    requires QuoteFree(sepHeight) && QuoteFree(lineHeight) && QuoteFree(content)
    requires QuoteFree(keyword) && FieldsQuoteFree(fields)
    ensures Statement(keyword, fields) != RssCommand(x, y, sym, rotate, pixMult, sepHeight, lineHeight, content)
  {
    RssQuoteCount(x, y, sym, rotate, pixMult, sepHeight, lineHeight, content);
    StatementQuotesPair(keyword, fields);
  }

  lemma BlockHalves(x: string, y: string, width: string, height: string, font: string, rotation: string,
                    xMultiplication: string, yMultiplication: string, space: string, fit: string, content: string)
    ensures JoinFields([Bare(x), Bare(y), Bare(width), Bare(height), Quoted(font)])
         == x + "," + y + "," + width + "," + height + ",\"" + font + "\""
    ensures JoinFields([Bare(rotation), Bare(xMultiplication), Bare(yMultiplication), Bare(space), Bare(fit), Quoted(content)])
         == rotation + "," + xMultiplication + "," + yMultiplication + "," + space + "," + fit + ",\"" + content + "\""
  {
    Join5(Bare(x), Bare(y), Bare(width), Bare(height), Quoted(font));
    Join6(Bare(rotation), Bare(xMultiplication), Bare(yMultiplication), Bare(space), Bare(fit), Quoted(content));
  }

  /** `sendBlockCommand`'s string, read as the first five fields, a comma and the last six. */
  function BlockCommand(x: string, y: string, width: string, height: string, font: string, rotation: string,
                        xMultiplication: string, yMultiplication: string, space: string, fit: string, content: string): (r: string)
    ensures r == Statement("BLOCK", [Bare(x), Bare(y), Bare(width), Bare(height), Quoted(font), Bare(rotation),
                                     Bare(xMultiplication), Bare(yMultiplication), Bare(space), Bare(fit), Quoted(content)])
  {
    var head := x + "," + y + "," + width + "," + height + ",\"" + font + "\"";
    var tail := rotation + "," + xMultiplication + "," + yMultiplication + "," + space + "," + fit + ",\"" + content + "\"";
    var first := [Bare(x), Bare(y), Bare(width), Bare(height), Quoted(font)];
    var last := [Bare(rotation), Bare(xMultiplication), Bare(yMultiplication), Bare(space), Bare(fit), Quoted(content)];
    BlockHalves(x, y, width, height, font, rotation, xMultiplication, yMultiplication, space, fit, content);
    JoinAppend(first, last);
    assert first + last == [Bare(x), Bare(y), Bare(width), Bare(height), Quoted(font), Bare(rotation),
                            Bare(xMultiplication), Bare(yMultiplication), Bare(space), Bare(fit), Quoted(content)];
    "\nBLOCK " + head + "," + tail + "\n"
  }

  function BoxCommand(x: string, y: string, xEnd: string, yEnd: string, lineThickness: string): (r: string)
    ensures r == Statement("BOX", [Bare(x), Bare(y), Bare(xEnd), Bare(yEnd), Bare(lineThickness)])
  {
    Join5(Bare(x), Bare(y), Bare(xEnd), Bare(yEnd), Bare(lineThickness));
    "\nBOX " + x + "," + y + "," + xEnd + "," + yEnd + "," + lineThickness + "\n"
  }

  function ReverseBoxCommand(x: string, y: string, xEnd: string, yEnd: string): (r: string)
    ensures r == Statement("REVERSE", [Bare(x), Bare(y), Bare(xEnd), Bare(yEnd)])
  {
    Join4(Bare(x), Bare(y), Bare(xEnd), Bare(yEnd));
    "\nREVERSE " + x + "," + y + "," + xEnd + "," + yEnd + "\n"
  }

  /** `sendQRCommand`'s string: every field bare, the content included. */
  function QrCommand(x: string, y: string, eccLevel: string, cellWidth: string, mode: string, rotation: string,
                     model: string, content: string): (r: string)
    ensures r == Statement("QRCODE", [Bare(x), Bare(y), Bare(eccLevel), Bare(cellWidth), Bare(mode), Bare(rotation),
                                      Bare(model), Bare(content)])
  {
    Join8(Bare(x), Bare(y), Bare(eccLevel), Bare(cellWidth), Bare(mode), Bare(rotation), Bare(model), Bare(content));
    "\nQRCODE " + x + "," + y + "," + eccLevel + "," + cellWidth + "," + mode + "," + rotation + "," + model + ","
      + content + "\n"
  }

  function CircleCommand(xStart: string, yStart: string, diameter: string, thickness: string): (r: string)
    ensures r == Statement("CIRCLE", [Bare(xStart), Bare(yStart), Bare(diameter), Bare(thickness)])
  {
    Join4(Bare(xStart), Bare(yStart), Bare(diameter), Bare(thickness));
    "\nCIRCLE " + xStart + "," + yStart + "," + diameter + "," + thickness + "\n"
  }

  /** `sendCommand`'s string: the content on a line of its own. */
  function RawCommand(content: string): (r: string)
    ensures Unframe(r) == Some(content)
  {
    FramedRoundTrip(content);
    "\n" + content + "\n"
  }

  /** `sendPrintCommand`'s string; both counts default to 1. */
  function PrintCommand(labelCount: string := "1", copyCount: string := "1"): (r: string)
    ensures r == Statement("PRINT", [Bare(labelCount), Bare(copyCount)])
    ensures labelCount == "1" && copyCount == "1" ==> r == "\nPRINT 1,1\n"
  {
    Join2(Bare(labelCount), Bare(copyCount));
    "\nPRINT " + labelCount + "," + copyCount + "\n"
  }

  /** `sendSETCommand`'s string: item and action separated by a space. */
  function SetCommand(item: string, action: string): (r: string)
    ensures Unframe(r) == Some("SET " + item + " " + action)
  {
    FramedRoundTrip("SET " + item + " " + action);
    assert "\nSET " + item + " " + action + "\n" == Framed("SET " + item + " " + action);
    "\nSET " + item + " " + action + "\n"
  }

  /** `clearBuffer`'s string. */
  function ClearBufferCommand(): (r: string)
    ensures Unframe(r) == Some("CLS")
  {
    assert "\nCLS\n"[1..4] == "CLS";
    "\nCLS\n"
  }

  /** `formFeed`'s string. */
  function FormFeedCommand(): (r: string)
    ensures Unframe(r) == Some("FORMFEED")
  {
    assert "\nFORMFEED\n"[1..9] == "FORMFEED";
    "\nFORMFEED\n"
  }

  /** `getPCXCommand(x, y, fileName)`. */
  function GetPcxCommand(x: string, y: string, fileName: string): (r: string)
    ensures r == Statement("PUTPCX", [Bare(x), Bare(y), Quoted(fileName)])
  {
    Join3(Bare(x), Bare(y), Quoted(fileName));
    "\nPUTPCX " + x + "," + y + ",\"" + fileName + "\"\n"
  }

  /** `getDownloadCommand(filename, bitmapByteLength, storeLocation)`; the
      store location defaults to "F" and the length is followed by ';'. */
  function GetDownloadCommand(filename: string, bitmapByteLength: string, storeLocation: string := "F"): (r: string)
    ensures r == Statement("DOWNLOAD", [Bare(storeLocation), Quoted(filename), Bare(bitmapByteLength + ";")])
  {
    Join3(Bare(storeLocation), Quoted(filename), Bare(bitmapByteLength + ";"));
    assert RenderField(Quoted(filename)) == "\"" + filename + "\"";
    "\nDOWNLOAD " + storeLocation + ",\"" + filename + "\"," + bitmapByteLength + ";\n"
  }

  // ---------------------------------------------------------------------
  // The PCX download buffer of `writePCXfileToPrinter`

  const DownloadHead: string := "DOWNLOAD F,\"COUPON.PCX\","

  /** The prefix: the DOWNLOAD head, the bitmap length in decimal, a comma. */
  function PcxPrefix(bitmapLength: nat): string
  {
    DownloadHead + NatToString(bitmapLength) + ","
  }

  /** The suffix: a PUTPCX of the downloaded file at (0, 20). */
  const PcxSuffix: string := "\nPUTPCX 0,20,\"COUPON.PCX\"\n"

  lemma PcxSuffixIsPutPcx()
    ensures PcxSuffix == GetPcxCommand("0", "20", "COUPON.PCX")
  {
  }

  /** `fullData`: a buffer of the summed length, filled with `set` at
      offsets 0, |prefix| and |prefix| + |bitmap|. */
  method FillFullData(prefix: seq<byte>, bitmap: seq<byte>, suffix: seq<byte>) returns (full: seq<byte>)
    ensures |full| == |prefix| + |bitmap| + |suffix|
    ensures full[..|prefix|] == prefix
    ensures full[|prefix|..|prefix| + |bitmap|] == bitmap
    ensures full[|prefix| + |bitmap|..] == suffix
  {
    var totalLength := |prefix| + |bitmap| + |suffix|;
    var buffer := new byte[totalLength];
    SetAt(buffer, prefix, 0);
    SetAt(buffer, bitmap, |prefix|);
    SetAt(buffer, suffix, |prefix| + |bitmap|);
    full := buffer[..];
  }

  predicate IsDigitByte(b: byte)
  {
    0x30 <= b as int <= 0x39
  }

  /** The length of the run of ASCII digits `s` starts with. */
  predicate AllDigitBytes(s: seq<byte>)
  {
    forall i :: 0 <= i < |s| ==> IsDigitByte(s[i])
  }

  function DigitRun(s: seq<byte>): (k: nat)
    ensures k <= |s|
    ensures AllDigitBytes(s[..k])
    ensures k < |s| ==> !IsDigitByte(s[k])
  {
    if s == [] || !IsDigitByte(s[0]) then 0
    else
      var k := 1 + DigitRun(s[1..]);
      assert s[..k] == [s[0]] + s[1..][..k - 1];
      k
  }

  /** The number a run of ASCII digit bytes denotes. */
  function BytesValue(s: seq<byte>): nat
    requires AllDigitBytes(s)
  {
    if s == [] then 0
    else
      assert IsDigitByte(s[|s| - 1]);
      assert AllDigitBytes(s[..|s| - 1]);
      BytesValue(s[..|s| - 1]) * 10 + (s[|s| - 1] as int - 0x30)
  }

  /** How a reader finds a length after `head`: a non-empty run of digits
      closed by a comma. */
  function ReadLength(head: seq<byte>, data: seq<byte>): Option<nat>
  {
    if |data| >= |head| && data[..|head|] == head then
      var k := DigitRun(data[|head|..]);
      if 0 < k && |head| + k < |data| && data[|head| + k] == 0x2C then Some(BytesValue(data[|head|..][..k]))
      else None
    else None
  }

  /** The bitmap length a reader of the buffer finds after the DOWNLOAD head. */
  function DeclaredLength(data: seq<byte>): Option<nat>
  {
    ReadLength(Utf8Encode(DownloadHead), data)
  }

  /** Decimal digits encode to digit bytes of the same value. */
  lemma {:induction false} Utf8EncodeDigits(d: string)
    requires AllDigits(d)
    ensures |Utf8Encode(d)| == |d|
    ensures AllDigitBytes(Utf8Encode(d))
    ensures BytesValue(Utf8Encode(d)) == DigitsValue(d)
  {
    if d != [] {
      var n := |d| - 1;
      var init := d[..n];
      assert AllDigits(init);
      Utf8EncodeDigits(init);
      var c := Utf8Char(d[n]);
      var e := Utf8Encode(d);
      assert e == Utf8Encode(init) + c;
      assert |c| == 1 && c[0] as int == d[n] as int;
      assert e[..n] == Utf8Encode(init);
      assert e[n] == c[0];
    }
  }

  /** The prefix's bytes: the head, the decimal digits, a comma. */
  lemma PrefixBytes(n: nat)
    ensures Utf8Encode(PcxPrefix(n)) == Utf8Encode(DownloadHead) + Utf8Encode(NatToString(n)) + [0x2C]
  {
    var digits := NatToString(n);
    Utf8EncodeAppend(DownloadHead + digits, ",");
    Utf8EncodeAppend(DownloadHead, digits);
    assert Utf8Encode(",") == [0x2C] by {
      assert ","[..0] == [];
    }
  }

  /** A reader finds the digits between the head and the comma. */
  lemma ReadLengthFindsDigits(head: seq<byte>, ds: seq<byte>, rest: seq<byte>)
    requires ds != [] && AllDigitBytes(ds)
    ensures ReadLength(head, head + (ds + ([0x2C] + rest))) == Some(BytesValue(ds))
  {
    var data := head + (ds + ([0x2C] + rest));
    FramedLengthLayout(head, ds, rest);
    DigitRunStopsAtComma(ds, rest);
    ReadLengthAt(head, data, |ds|);
  }

  lemma ReadLengthAt(head: seq<byte>, data: seq<byte>, k: nat)
    requires |data| >= |head| && data[..|head|] == head
    requires DigitRun(data[|head|..]) == k && 0 < k && |head| + k < |data| && data[|head| + k] == 0x2C
    ensures ReadLength(head, data) == Some(BytesValue(data[|head|..][..k]))
  {
  }

  /** Where the pieces of `head + ds + "," + rest` sit. */
  lemma FramedLengthLayout(head: seq<byte>, ds: seq<byte>, rest: seq<byte>)
    ensures var data := head + (ds + ([0x2C] + rest));
            && data[..|head|] == head
            && data[|head|..] == ds + ([0x2C] + rest)
            && data[|head|..][..|ds|] == ds
            && data[|head| + |ds|] == 0x2C
  {
    var tail := ds + ([0x2C] + rest);
    var data := head + tail;
    assert data[..|head|] == head;
    assert data[|head|..] == tail;
    assert data[|head|..][..|ds|] == tail[..|ds|] == ds;
    assert data[|head| + |ds|] == tail[|ds|] == 0x2C;
  }

  lemma {:induction false} DigitRunStopsAtComma(ds: seq<byte>, rest: seq<byte>)
    requires AllDigitBytes(ds)
    ensures DigitRun(ds + ([0x2C] + rest)) == |ds|
  {
    if ds == [] {
      assert ds + ([0x2C] + rest) == [0x2C] + rest;
      assert !IsDigitByte(0x2C);
    } else {
      assert (ds + ([0x2C] + rest))[1..] == ds[1..] + ([0x2C] + rest);
      assert IsDigitByte(ds[0]) && AllDigitBytes(ds[1..]);
      DigitRunStopsAtComma(ds[1..], rest);
    }
  }

  /** The prefix announces exactly the number of bitmap bytes that follow
      it, and those bytes are the bitmap, followed by the suffix. */
  lemma PrefixDeclaresBitmap(bitmap: seq<byte>, suffix: seq<byte>)
    ensures DeclaredLength(Utf8Encode(PcxPrefix(|bitmap|)) + bitmap + suffix) == Some(|bitmap|)
    ensures var start := |Utf8Encode(PcxPrefix(|bitmap|))|;
            (Utf8Encode(PcxPrefix(|bitmap|)) + bitmap + suffix)[start..start + |bitmap|] == bitmap
  {
    var digits := NatToString(|bitmap|);
    PrefixBytes(|bitmap|);
    Utf8EncodeDigits(digits);
    NatToStringRoundTrip(|bitmap|);
    var ds := Utf8Encode(digits);
    ReadLengthFindsDigits(Utf8Encode(DownloadHead), ds, bitmap + suffix);
    Regroup(Utf8Encode(DownloadHead), ds, bitmap, suffix);
  }

  lemma Regroup(head: seq<byte>, ds: seq<byte>, bitmap: seq<byte>, suffix: seq<byte>)
    ensures head + ds + [0x2C] + bitmap + suffix == head + (ds + ([0x2C] + (bitmap + suffix)))
    ensures (head + ds + [0x2C] + bitmap + suffix)[|head + ds + [0x2C]|..|head + ds + [0x2C]| + |bitmap|] == bitmap
  {
    var p := head + ds + [0x2C];
    assert (p + bitmap + suffix)[|p|..|p| + |bitmap|] == bitmap;
  }

  // ---------------------------------------------------------------------
  // The wrappers around the shared `BLEManager`

  /** `connectPrinter()`: discover, then connect; either error is rethrown. */
  method ConnectPrinter(manager: BLEManager, discovery: Result<Device, string>, session: GattSession) returns (r: Result<(), string>)
    modifies manager
    ensures manager.hasReceiveCallback == old(manager.hasReceiveCallback)
    ensures discovery.Err? ==>
              && r == Err(discovery.error) && manager.device == old(manager.device)
              && manager.gattConnected == old(manager.gattConnected)
              && manager.rxCharacteristic == old(manager.rxCharacteristic)
              && manager.txCharacteristic == old(manager.txCharacteristic)
              && manager.listeners == old(manager.listeners)
    ensures discovery.Ok? ==> manager.device == Some(discovery.value)
    ensures discovery.Ok? && session.link.Failed? ==>
              && r == Err(session.link.message) && !manager.gattConnected
              && manager.rxCharacteristic == old(manager.rxCharacteristic)
              && manager.txCharacteristic == old(manager.txCharacteristic)
              && manager.listeners == old(manager.listeners)
    ensures discovery.Ok? && session.link.Done? ==> manager.gattConnected
    ensures discovery.Ok? && session.link.Done? && session.characteristics.Err? ==>
              && r == Err(session.characteristics.error)
              && manager.rxCharacteristic == old(manager.rxCharacteristic)
              && manager.txCharacteristic == old(manager.txCharacteristic)
              && manager.listeners == old(manager.listeners)
    ensures discovery.Ok? && session.link.Done? && session.characteristics.Ok? ==>
              var chars := session.characteristics.value;
              && manager.rxCharacteristic == Bound(chars, RxUuid, true, old(manager.rxCharacteristic))
              && manager.txCharacteristic == Bound(chars, TxUuid, false, old(manager.txCharacteristic))
              && (manager.rxCharacteristic.None? ==> r == Err(NoWritableCharacteristic))
              && (manager.rxCharacteristic.Some? && manager.txCharacteristic.Some? && session.notifications.Failed? ==>
                    r == Err(session.notifications.message))
              && (r.Ok? <==> manager.rxCharacteristic.Some? && (manager.txCharacteristic.None? || session.notifications.Done?))
              && manager.listeners == old(manager.listeners) + (if r.Ok? && manager.txCharacteristic.Some? then 1 else 0)
  {
    var found := manager.RequestDevice(discovery);
    if found.Err? {
      return Err(found.error);
    }
    r := manager.Connect(session);
  }

  /** `sendCommandsToPrinter(content)`: write the UTF-8 bytes with
      `writeUtf8String`; a failure is rethrown unchanged. */
  method SendCommandsToPrinter(manager: BLEManager, results: seq<Status>, content: string) returns (written: seq<seq<byte>>, r: Result<(), string>)
    requires |results| >= CeilDiv(|Utf8Encode(content)|, WriteChunkSize)
    ensures |results| >= |Chunks(Utf8Encode(content), WriteChunkSize)|
    ensures manager.rxCharacteristic.None? ==> written == [] && r == Err(RxNotInitialized)
    ensures manager.rxCharacteristic.Some? ==>
              StoppedAtFirstFailure(Utf8Encode(content), WriteChunkSize, results, written, if r.Err? then Some(r.error) else None)
  {
    written, r := manager.WriteUtf8String(results, content);
  }

  /** What `fetch(fileName)` yields: a network failure, or a response with
      its `ok` flag, status and body bytes. */
  datatype Fetched = NetworkError(message: string) | Response(ok: bool, status: nat, body: seq<byte>)

  const BitmapFailure: string := "Failed to send bitmap: "

  /** The buffer `writePCXfileToPrinter` sends for a bitmap. */
  function PcxBuffer(bitmap: seq<byte>): seq<byte>
  {
    Utf8Encode(PcxPrefix(|bitmap|)) + bitmap + Utf8Encode(PcxSuffix)
  }

  /** `writePCXfileToPrinter(fileName)`: every error is caught and only
      logged; `logged` is that log line. On a good response the buffer
      prefix + bitmap + suffix goes out through `writeBinary`. */
  method WritePcxFileToPrinter(manager: BLEManager, fetched: Fetched, results: seq<Status>) returns (written: seq<seq<byte>>, logged: Option<string>)
    requires fetched.Response? && fetched.ok ==> |results| >= CeilDiv(|PcxBuffer(fetched.body)|, WriteChunkSize)
    ensures fetched.NetworkError? ==> written == [] && logged == Some(BitmapFailure + fetched.message)
    ensures fetched.Response? && !fetched.ok ==>
              written == [] && logged == Some(BitmapFailure + "HTTP error! status: " + NatToString(fetched.status))
    ensures fetched.Response? && fetched.ok && manager.rxCharacteristic.None? ==>
              written == [] && logged == Some(BitmapFailure + RxNotInitialized)
    ensures logged.Some? ==> |logged.value| >= |BitmapFailure| && logged.value[..|BitmapFailure|] == BitmapFailure
    ensures fetched.Response? && fetched.ok && manager.rxCharacteristic.Some? ==>
              && |results| >= |Chunks(PcxBuffer(fetched.body), WriteChunkSize)|
              && StoppedAtFirstFailure(PcxBuffer(fetched.body), WriteChunkSize, results, written,
                                       if logged.Some? then Some(logged.value[|BitmapFailure|..]) else None)
  {
    if fetched.NetworkError? {
      return [], Some(BitmapFailure + fetched.message);
    }
    if !fetched.ok {
      return [], Some(BitmapFailure + "HTTP error! status: " + NatToString(fetched.status));
    }
    var bitmap := fetched.body;
    var prefix := Utf8Encode(PcxPrefix(|bitmap|));
    var suffix := Utf8Encode(PcxSuffix);
    var full := FillFullData(prefix, bitmap, suffix);
    assert full == PcxBuffer(bitmap) by {
      assert full == full[..|prefix|] + full[|prefix|..|prefix| + |bitmap|] + full[|prefix| + |bitmap|..];
    }
    var r;
    written, r := manager.WriteBinary(results, full);
    logged := if r.Err? then Some(BitmapFailure + r.error) else None;
    if r.Err? {
      assert logged.value[|BitmapFailure|..] == r.error;
    }
  }

  /** `disconnectPrinter()`. */
  method DisconnectPrinter(manager: BLEManager)
    requires manager.Valid()
    modifies manager, manager.cmdManager, manager.cmdManager.collector
    ensures manager.Valid()
    ensures manager.device == old(manager.device) && manager.rxCharacteristic == old(manager.rxCharacteristic)
    ensures manager.txCharacteristic == old(manager.txCharacteristic) && manager.listeners == old(manager.listeners)
    ensures manager.hasReceiveCallback == old(manager.hasReceiveCallback)
    ensures manager.gattConnected == (old(manager.gattConnected) && old(manager.device).None?)
    ensures manager.cmdManager.State() == CommandManager.AfterCancel(old(manager.cmdManager.State()))
  {
    manager.Disconnect();
  }
}
