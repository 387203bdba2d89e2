/** The Ghostscript command line (`buildGSArgs`): a fixed prefix, the copies
    and paper flags, the optional grayscale and duplex segments, and the
    printer device, output and input file. Both source files carry identical
    copies of this code. */
module Ghostscript {
  import opened Text

  /** The print settings of a request. */
  datatype PrintSettings = PrintSettings(
    paperSize: string,
    color: string,
    doubleSided: bool,
    duplexMode: string,
    copies: int64)

  /** The flags every command line starts with. */
  const FIXED_FLAGS: seq<string> := ["-dPrinted", "-dBATCH", "-dNOPAUSE", "-dNOSAFER", "-q"]

  /** The paper sizes the switch names; any other value prints on A4. */
  const PAPER_SIZES: set<string> := {"a4", "letter", "legal", "a5"}

  /** The three flags that turn the output to grayscale, in their order. */
  const GRAY_FLAGS: seq<string> := ["-sProcessColorModel=DeviceGray", "-sColorConversionStrategy=Gray", "-dOverrideICC"]

  const DEVICE_FLAG: string := "-sDEVICE=mswinpr2"
  const OUTPUT_FLAG_PREFIX: string := "-sOutputFile=%printer%"
  const COPIES_FLAG_PREFIX: string := "-dNumCopies="

  /** The copies flag: the count written in decimal, sign included. */
  function CopiesFlag(copies: int64): string {
    COPIES_FLAG_PREFIX + IntToString(copies)
  }

  /** The paper-size flag: a named size selects itself, anything else A4. */
  function PaperSizeFlag(paperSize: string): string {
    if paperSize == "a4" then "-sPAPERSIZE=a4"
    else if paperSize == "letter" then "-sPAPERSIZE=letter"
    else if paperSize == "legal" then "-sPAPERSIZE=legal"
    else if paperSize == "a5" then "-sPAPERSIZE=a5"
    else "-sPAPERSIZE=a4"
  }

  /** A named paper size selects its own flag, and any other value the A4 flag. */
  lemma PaperSizeChoice(paperSize: string)
    ensures paperSize in PAPER_SIZES ==> PaperSizeFlag(paperSize) == "-sPAPERSIZE=" + paperSize
    ensures paperSize !in PAPER_SIZES ==> PaperSizeFlag(paperSize) == "-sPAPERSIZE=a4"
  {
  }

  /** The grayscale segment, present for exactly the colour "monochrome". */
  function ColorFlags(color: string): seq<string> {
    if color == "monochrome" then GRAY_FLAGS else []
  }

  /** The tumble flag of a double-sided job: true for "horizontal" only. */
  function TumbleFlag(duplexMode: string): string {
    if duplexMode == "horizontal" then "-dTumble=true" else "-dTumble=false"
  }

  /** The duplex segment: duplex on followed by the tumble flag, or duplex off. */
  function DuplexFlags(doubleSided: bool, duplexMode: string): seq<string> {
    if doubleSided then ["-dDuplex=true", TumbleFlag(duplexMode)] else ["-dDuplex=false"]
  }

  /** The closing segment: the Windows printer device, the printer as output
      file and the document itself. */
  function TrailingArgs(printerName: string, pdfPath: string): seq<string> {
    [DEVICE_FLAG, OUTPUT_FLAG_PREFIX + printerName, pdfPath]
  }

  /** The command line buildGSArgs produces. */
  function GSArgs(printerName: string, pdfPath: string, settings: PrintSettings): seq<string> {
    FIXED_FLAGS + [CopiesFlag(settings.copies), PaperSizeFlag(settings.paperSize)]
      + ColorFlags(settings.color)
      + DuplexFlags(settings.doubleSided, settings.duplexMode)
      + TrailingArgs(printerName, pdfPath)
  }

  /** Number of grayscale flags and of the extra tumble flag in a command line. */
  function GrayCount(settings: PrintSettings): nat {
    if settings.color == "monochrome" then 3 else 0
  }

  function TumbleCount(settings: PrintSettings): nat {
    if settings.doubleSided then 1 else 0
  }

  /** The paper-size switch of buildGSArgs: one flag appended. */
  method AppendPaperSize(args: seq<string>, paperSize: string) returns (next: seq<string>)
    ensures next == args + [PaperSizeFlag(paperSize)]
  {
    if paperSize == "a4" {
      next := args + ["-sPAPERSIZE=a4"];
    } else if paperSize == "letter" {
      next := args + ["-sPAPERSIZE=letter"];
    } else if paperSize == "legal" {
      next := args + ["-sPAPERSIZE=legal"];
    } else if paperSize == "a5" {
      next := args + ["-sPAPERSIZE=a5"];
    } else {
      next := args + ["-sPAPERSIZE=a4"];
    }
  }

  /** The colour block of buildGSArgs: the three grayscale flags appended for
      "monochrome", nothing otherwise. */
  method AppendColor(args: seq<string>, color: string) returns (next: seq<string>)
    ensures next == args + ColorFlags(color)
  {
    next := args;
    if color == "monochrome" {
      next := next + ["-sProcessColorModel=DeviceGray"];
      next := next + ["-sColorConversionStrategy=Gray"];
      next := next + ["-dOverrideICC"];
    }
  }

  /** The duplex block of buildGSArgs: duplex on and the tumble flag, or
      duplex off. */
  method AppendDuplex(args: seq<string>, doubleSided: bool, duplexMode: string) returns (next: seq<string>)
    ensures next == args + DuplexFlags(doubleSided, duplexMode)
  {
    if doubleSided {
      next := args + ["-dDuplex=true"];
      if duplexMode == "horizontal" {
        next := next + ["-dTumble=true"];
      } else {
        next := next + ["-dTumble=false"];
      }
    } else {
      next := args + ["-dDuplex=false"];
    }
  }

  /** buildGSArgs: the command line grown one append at a time. */
  method BuildGSArgs(printerName: string, pdfPath: string, settings: PrintSettings) returns (args: seq<string>)
    ensures args == GSArgs(printerName, pdfPath, settings)
  {
    args := ["-dPrinted", "-dBATCH", "-dNOPAUSE", "-dNOSAFER", "-q"];
    args := args + [COPIES_FLAG_PREFIX + IntToString(settings.copies)];
    args := AppendPaperSize(args, settings.paperSize);
    args := AppendColor(args, settings.color);
    ghost var middle := args;
    args := AppendDuplex(args, settings.doubleSided, settings.duplexMode);
    args := args + [DEVICE_FLAG];
    args := args + [OUTPUT_FLAG_PREFIX + printerName];
    args := args + [pdfPath];
    assert args == middle + DuplexFlags(settings.doubleSided, settings.duplexMode) + TrailingArgs(printerName, pdfPath);
  }

  /** The fixed shape: five fixed flags, the copies flag, the paper flag, the
      optional segments, then device, output and input file; 11 entries plus
      3 for grayscale and 1 for the tumble flag. */
  lemma GSArgsShape(printerName: string, pdfPath: string, settings: PrintSettings)
    ensures var args := GSArgs(printerName, pdfPath, settings);
      && |args| == 11 + GrayCount(settings) + TumbleCount(settings)
      && args[..5] == FIXED_FLAGS
      && args[5] == CopiesFlag(settings.copies)
      && args[6] == PaperSizeFlag(settings.paperSize)
      && args[|args| - 3..] == [DEVICE_FLAG, OUTPUT_FLAG_PREFIX + printerName, pdfPath]
  {
    var args := GSArgs(printerName, pdfPath, settings);
    var head := FIXED_FLAGS + [CopiesFlag(settings.copies), PaperSizeFlag(settings.paperSize)];
    var middle := ColorFlags(settings.color) + DuplexFlags(settings.doubleSided, settings.duplexMode);
    assert args == head + middle + TrailingArgs(printerName, pdfPath);
    assert args[..5] == head[..5];
  }

  /** Every command line has between 11 and 15 entries. */
  lemma GSArgsLengthBounds(printerName: string, pdfPath: string, settings: PrintSettings)
    ensures 11 <= |GSArgs(printerName, pdfPath, settings)| <= 15
  {
    GSArgsShape(printerName, pdfPath, settings);
  }

  /** The grayscale flags follow the paper flag, in order, exactly when the
      colour is "monochrome"; otherwise the duplex flag follows it. */
  lemma GrayFlagsIffMonochrome(printerName: string, pdfPath: string, settings: PrintSettings)
    ensures var args := GSArgs(printerName, pdfPath, settings);
      (settings.color == "monochrome" <==> args[7..10] == GRAY_FLAGS)
  {
    var args := GSArgs(printerName, pdfPath, settings);
    var head := FIXED_FLAGS + [CopiesFlag(settings.copies), PaperSizeFlag(settings.paperSize)];
    var rest := ColorFlags(settings.color) + DuplexFlags(settings.doubleSided, settings.duplexMode) + TrailingArgs(printerName, pdfPath);
    assert args == head + rest;
    assert args[7..10] == rest[..3];
    if settings.color != "monochrome" {
      assert rest[0] == DuplexFlags(settings.doubleSided, settings.duplexMode)[0];
      assert |rest[0]| != |GRAY_FLAGS[0]|;
    }
  }

  /** No flag outside the grayscale segment is a grayscale flag, so some
      grayscale flag occurs among the flags (the entries before the input file)
      exactly when the colour is "monochrome". */
  lemma GrayFlagPresentIffMonochrome(printerName: string, pdfPath: string, settings: PrintSettings)
    ensures var args := GSArgs(printerName, pdfPath, settings);
      (settings.color == "monochrome" <==> exists g :: g in GRAY_FLAGS && g in args[..|args| - 1])
  {
    var args := GSArgs(printerName, pdfPath, settings);
    var head := FIXED_FLAGS + [CopiesFlag(settings.copies), PaperSizeFlag(settings.paperSize)];
    var duplex := DuplexFlags(settings.doubleSided, settings.duplexMode);
    var tail := [DEVICE_FLAG, OUTPUT_FLAG_PREFIX + printerName];
    assert args[..|args| - 1] == head + ColorFlags(settings.color) + duplex + tail;
    if settings.color == "monochrome" {
      assert GRAY_FLAGS[0] in GRAY_FLAGS && GRAY_FLAGS[0] in head + GRAY_FLAGS;
    } else {
      forall g | g in GRAY_FLAGS
        ensures g !in head + duplex + tail
      {
        NotCopiesOrOutput(g, CopiesFlag(settings.copies), OUTPUT_FLAG_PREFIX + printerName);
        assert g !in FIXED_FLAGS && g != PaperSizeFlag(settings.paperSize) && g !in duplex && g != DEVICE_FLAG;
      }
      assert head + [] + duplex + tail == head + duplex + tail;
    }
  }

  /** A grayscale flag is neither a copies flag nor an output flag. */
  lemma NotCopiesOrOutput(g: string, copies: string, output: string)
    requires g in GRAY_FLAGS
    requires HasPrefix(copies, COPIES_FLAG_PREFIX) && HasPrefix(output, OUTPUT_FLAG_PREFIX)
    ensures g != copies && g != output
  {
    if g == "-dOverrideICC" {
      DiffersAt(g, COPIES_FLAG_PREFIX, 2);
      DiffersAt(g, OUTPUT_FLAG_PREFIX, 1);
    } else {
      DiffersAt(g, COPIES_FLAG_PREFIX, 1);
      DiffersAt(g, OUTPUT_FLAG_PREFIX, 2);
    }
  }

  /** The duplex segment comes right after the optional grayscale segment: a
      double-sided job gets duplex on followed by the tumble flag, which is
      on exactly for "horizontal"; a single-sided job gets duplex off and no
      tumble flag. */
  lemma DuplexPlacement(printerName: string, pdfPath: string, settings: PrintSettings)
    ensures var args := GSArgs(printerName, pdfPath, settings);
      var d := 7 + GrayCount(settings);
      && d + 3 < |args|
      && (settings.doubleSided ==>
            args[d] == "-dDuplex=true"
            && (args[d + 1] == "-dTumble=true" <==> settings.duplexMode == "horizontal")
            && (args[d + 1] == "-dTumble=false" <==> settings.duplexMode != "horizontal"))
      && (!settings.doubleSided ==> args[d] == "-dDuplex=false" && args[d + 1] == DEVICE_FLAG)
  {
    var args := GSArgs(printerName, pdfPath, settings);
    var front := FIXED_FLAGS + [CopiesFlag(settings.copies), PaperSizeFlag(settings.paperSize)] + ColorFlags(settings.color);
    var back := DuplexFlags(settings.doubleSided, settings.duplexMode) + TrailingArgs(printerName, pdfPath);
    assert args == front + back;
    assert |front| == 7 + GrayCount(settings);
  }
}
