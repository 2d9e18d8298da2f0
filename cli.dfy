/** The acceptance checks of the interactive front end: `prompt_for_files` reads an
    input line and an output line and either quits, shows help, asks again or
    returns a request; `main` then refuses several inputs unless the output is a
    PDF, and calls `convert_file` with a list or with the single path. The prompts,
    the help screen and the printing are not modelled. */
module Cli {
  import opened Paths
  import opened Dispatch
  import opened Convert
  import opened Formats

  datatype Prompted =
    | Quit
    | Help
    | Retry(message: string)
    | Request(files: seq<string>, output: string)

  /** Whether every file's lowered extension is one of the listed input formats. */
  predicate AllSupported(files: seq<string>)
  {
    forall f :: f in files ==> Lower(Ext(f)) in AllInputFormats()
  }

  /** One round of `prompt_for_files`, given what the user typed at the two prompts;
      the second line is only read once the first is accepted. */
  function Prompt(inputLine: string, outputLine: string): Prompted
  {
    var line := Strip(inputLine);
    if Lower(line) == "q" then Quit
    else if Lower(line) == "h" then Help
    else
      var files := SplitWords(line);
      if files == [] then Retry("Please enter at least one input file.")
      else if !AllSupported(files) then
        Retry("One or more input files have unsupported formats. Use h to see supported formats.")
      else
        var output := Strip(outputLine);
        if output == "" then Retry("Please enter an output file.")
        else Request(files, output)
  }

  datatype Step =
    | Refused(message: string)
    | Call(input: Input, output: string)

  /** `main` on an accepted request: several files need a ".pdf" output (in any
      case) and are passed as a list; a single file is passed as its bare path. An
      empty list, which the prompt never returns, fails in `main` when it takes the
      first element; passing it on gives `convert_file`'s index error, which has
      the same message. */
  function Decide(files: seq<string>, output: string): Step
  {
    if |files| > 1 && !EndsWith(Lower(output), ".pdf") then
      Refused("Error: Multiple input files are only supported for PDF output.")
    else if |files| > 1 then Call(Many(files), output)
    else if files == [] then Call(Many([]), output)
    else Call(Single(files[0]), output)
  }

  /** The line `main` prints for a request. */
  function Report(files: seq<string>, output: string, tools: Tools, error: Option<string>): string
  {
    match Decide(files, output)
    case Refused(m) => m
    case Call(input, out) =>
      match ConvertFile(input, out, tools, error)
      case Converted(_, _) => "Conversion successful: " + out
      case Failed(f) => "Conversion failed: " + Message(f)
  }

  // ---------------------------------------------------------------------------
  // Properties

  /** What acceptance means, read off the two lines. */
  lemma PromptRequest(inputLine: string, outputLine: string)
    requires Prompt(inputLine, outputLine).Request?
    ensures var r := Prompt(inputLine, outputLine);
            r.files == SplitWords(Strip(inputLine)) && r.files != [] && AllSupported(r.files) &&
            r.output == Strip(outputLine) && r.output != ""
  {
  }

  /** Every file of an accepted request is a non-empty word whose lowered extension
      some format family lists. */
  lemma RequestFilesValid(inputLine: string, outputLine: string)
    requires Prompt(inputLine, outputLine).Request?
    ensures var r := Prompt(inputLine, outputLine);
            forall i :: 0 <= i < |r.files| ==>
              r.files[i] != [] && NoSpace(r.files[i]) &&
              exists j :: 0 <= j < |InputFormats| && Lower(Ext(r.files[i])) in InputFormats[j].1
  {
    PromptRequest(inputLine, outputLine);
    var files := Prompt(inputLine, outputLine).files;
    forall i | 0 <= i < |files|
      ensures exists j :: 0 <= j < |InputFormats| && Lower(Ext(files[i])) in InputFormats[j].1
    {
      assert files[i] in files;
    }
  }

  /** The output of an accepted request is the trimmed second line, which is
      therefore not all whitespace (and, by `StripProperties`, neither starts nor
      ends with whitespace). */
  lemma RequestOutputValid(inputLine: string, outputLine: string)
    requires Prompt(inputLine, outputLine).Request?
    ensures Prompt(inputLine, outputLine).output == Strip(outputLine)
    ensures !AllSpace(outputLine)
  {
    PromptRequest(inputLine, outputLine);
    StripProperties(outputLine);
  }

  /** A line that lowers to "q" or "h" is one letter: no space, no '.' and no '/'. */
  lemma CommandLetter(line: string)
    requires Lower(line) == "q" || Lower(line) == "h"
    ensures |line| == 1 && !IsSpace(line[0]) && line[0] != '.' && line[0] != '/'
  {
    assert Lower(line)[0] == 'q' || Lower(line)[0] == 'h';
  }

  /** A path without an extension is never a supported file. */
  lemma NoExtensionUnsupported()
    ensures "" !in AllInputFormats()
  {
    assert forall i :: 0 <= i < |InputFormats| ==> "" !in InputFormats[i].1;
  }

  /** The commands "q" and "h" are single letters without an extension, so a line
      whose words are all supported files is never taken for a command. */
  lemma CommandIsNotAFile(line: string)
    ensures AllSupported(SplitWords(line)) ==> Lower(line) != "q" && Lower(line) != "h"
  {
    if Lower(line) == "q" || Lower(line) == "h" {
      CommandLetter(line);
      SplitOneWord(line);
      ExtAfterName(line, "");
      assert line + "" == line;
      NoExtensionUnsupported();
      assert line in SplitWords(line) && Lower(Ext(line)) == "";
    }
  }

  /** The converse of `PromptRequest`: a first line whose words are all
      supported files, followed by a non-blank second line, is accepted as exactly
      those files and that trimmed output. */
  lemma PromptAccepts(inputLine: string, outputLine: string)
    requires SplitWords(Strip(inputLine)) != [] && AllSupported(SplitWords(Strip(inputLine)))
    requires Strip(outputLine) != ""
    ensures Prompt(inputLine, outputLine) == Request(SplitWords(Strip(inputLine)), Strip(outputLine))
  {
    CommandIsNotAFile(Strip(inputLine));
  }

  /** A line of whitespace is never a request: it asks again for input. */
  lemma BlankLineRetries(inputLine: string, outputLine: string)
    requires AllSpace(inputLine)
    ensures Prompt(inputLine, outputLine) == Retry("Please enter at least one input file.")
  {
    StripProperties(inputLine);
    assert Lower("") == "";
  }

  /** A request is refused exactly when it has several files and the output does
      not end in ".pdf"; a single file is passed as a bare path. */
  lemma DecideExactly(files: seq<string>, output: string)
    requires files != []
    ensures Decide(files, output).Refused? <==> |files| > 1 && !EndsWith(Lower(output), ".pdf")
    ensures |files| == 1 ==> Decide(files, output) == Call(Single(files[0]), output)
    ensures Decide(files, output).Call? && |files| > 1 ==> Decide(files, output) == Call(Many(files), output)
  {
  }

  /** Several files reach `convert_file` only with a ".pdf" output, so they always
      go to `images_to_pdf`, whatever their formats. */
  lemma ManyFilesMakeOnePdf(files: seq<string>, output: string)
    requires files != [] && Decide(files, output).Call? && Decide(files, output).input.Many?
    ensures Chosen(Many(files), output) == Some(ImagesToPdf)
  {
    var k := KeyOf(Many(files), output).value;
    ListToPdfTakesAnyInput(k);
  }

  /** From the front end, `convert_file` never indexes an empty list and never
      hands a list to a handler that expects a path. */
  lemma FrontEndCallsAreWellFormed(inputLine: string, outputLine: string, tools: Tools, error: Option<string>)
    requires Prompt(inputLine, outputLine).Request?
    requires Decide(Prompt(inputLine, outputLine).files, Prompt(inputLine, outputLine).output).Call?
    ensures var r := Prompt(inputLine, outputLine);
            var c := Decide(r.files, r.output);
            ConvertFile(c.input, c.output, tools, error) != Failed(IndexOutOfRange) &&
            ConvertFile(c.input, c.output, tools, error) != Failed(NotAPath)
  {
    PromptRequest(inputLine, outputLine);
    var r := Prompt(inputLine, outputLine);
    RequestCallsAreWellFormed(r.files, r.output, tools, error);
  }

  /** A request with at least one file that `main` passes on reaches a handler as
      an argument it can take. */
  lemma RequestCallsAreWellFormed(files: seq<string>, output: string, tools: Tools, error: Option<string>)
    requires files != [] && Decide(files, output).Call?
    ensures var c := Decide(files, output);
            ConvertFile(c.input, c.output, tools, error) != Failed(IndexOutOfRange) &&
            ConvertFile(c.input, c.output, tools, error) != Failed(NotAPath)
  {
    var c := Decide(files, output);
    var k := KeyOf(c.input, c.output).value;
    DispatchedFacts(k, c.input, tools, error);
    match c.input
    case Single(p) => DispatchedSingle(k, p, tools, error);
    case Many(ps) => DispatchedListToPdf(k, ps, tools, error);
  }

  /** SVG is not an input format, so the front end never reaches `convert_svg`, and
      its CairoSVG message cannot be printed. */
  lemma FrontEndNeverConvertsSvg(inputLine: string, outputLine: string)
    requires Prompt(inputLine, outputLine).Request?
    requires Decide(Prompt(inputLine, outputLine).files, Prompt(inputLine, outputLine).output).Call?
    ensures var r := Prompt(inputLine, outputLine);
            var c := Decide(r.files, r.output);
            Chosen(c.input, c.output) != Some(ConvertSvg)
  {
    PromptRequest(inputLine, outputLine);
    var r := Prompt(inputLine, outputLine);
    RequestNeverConvertsSvg(r.files, r.output);
  }

  /** A request whose files are all input formats never reaches `convert_svg`. */
  lemma RequestNeverConvertsSvg(files: seq<string>, output: string)
    requires files != [] && AllSupported(files) && Decide(files, output).Call?
    ensures var c := Decide(files, output);
            Chosen(c.input, c.output) != Some(ConvertSvg)
  {
    var c := Decide(files, output);
    var k := KeyOf(c.input, c.output).value;
    if Select(k) == ConvertSvg {
      SvgKey(k);
      if c.input.Many? {
        ListToPdfTakesAnyInput(k);
      } else {
        assert files[0] in files;
        SvgIsNotAnInputFormat();
      }
    }
  }
}
