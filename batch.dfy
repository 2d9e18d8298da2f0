/** `batch_convert`: every name of a directory listing that ends with the input
    extension is converted into the output directory, each under its own
    `try`, so one failure never stops the others. The listing is given in the
    order `os.listdir` returned it; what each handler's library call would raise
    is given per input path. The reports are specified for any conversion
    function; `Converter` instantiates it with `convert_file`. */
module Batch {
  import opened Paths
  import opened Convert

  /** One attempted file: its name, the two paths built for it, and how its
      conversion ended. */
  datatype Report = Report(filename: string, input: string, output: string, outcome: Outcome)

  /** The line printed for a report. */
  function ReportLine(r: Report): string
  {
    match r.outcome
    case Converted(_, _) => "Converted " + r.filename + " successfully."
    case Failed(f) => "Failed to convert " + r.filename + ": " + Message(f)
  }

  /** The output path for `name`: its stem with the new extension, in the output
      directory. */
  function OutputPath(outputDir: string, name: string, outputExt: string): string
  {
    Join(outputDir, Stem(name) + outputExt)
  }

  /** The names `batch_convert` attempts: those ending with `inputExt`,
      case-sensitively, in listing order. */
  function Attempted(names: seq<string>, inputExt: string): (r: seq<string>)
    ensures |r| <= |names|
  {
    if names == [] then []
    else
      var last := names[|names| - 1];
      var init := Attempted(names[..|names| - 1], inputExt);
      if EndsWith(last, inputExt) then init + [last] else init
  }

  /** A name is attempted exactly when it is listed and ends with the extension. */
  lemma {:induction false} AttemptedMembers(names: seq<string>, inputExt: string, n: string)
    ensures n in Attempted(names, inputExt) <==> n in names && EndsWith(n, inputExt)
  {
    if names != [] {
      var last := names[|names| - 1];
      AttemptedMembers(names[..|names| - 1], inputExt, n);
      assert names == names[..|names| - 1] + [last];
    }
  }

  /** `convert_file` on one input path, with `errors` saying what the handler's
      library call raises for that path. */
  function Converter(tools: Tools, errors: string -> Option<string>): (string, string) -> Outcome
  {
    (input: string, output: string) => ConvertFile(Single(input), output, tools, errors(input))
  }

  function ReportFor(inputDir: string, outputDir: string, name: string, outputExt: string,
                     convert: (string, string) -> Outcome): Report
  {
    var input := Join(inputDir, name);
    var output := OutputPath(outputDir, name, outputExt);
    Report(name, input, output, convert(input, output))
  }

  /** The reports for a listing, built up one name at a time. */
  function BatchReports(inputDir: string, outputDir: string, names: seq<string>,
                        inputExt: string, outputExt: string,
                        convert: (string, string) -> Outcome): (r: seq<Report>)
    ensures |r| == |Attempted(names, inputExt)|
  {
    if names == [] then []
    else
      var last := names[|names| - 1];
      var init := BatchReports(inputDir, outputDir, names[..|names| - 1], inputExt, outputExt, convert);
      if EndsWith(last, inputExt) then init + [ReportFor(inputDir, outputDir, last, outputExt, convert)]
      else init
  }

  /** `batch_convert(input_dir, output_dir, input_ext, output_ext)` over the listing
      `names`, returning the reports in the order they were printed. `convert` is
      the call made for each file: `Converter(tools, errors)` is `convert_file`. */
  method BatchConvert(inputDir: string, outputDir: string, names: seq<string>,
                      inputExt: string, outputExt: string,
                      convert: (string, string) -> Outcome)
    returns (reports: seq<Report>)
    ensures reports == BatchReports(inputDir, outputDir, names, inputExt, outputExt, convert)
    ensures |reports| == |Attempted(names, inputExt)|
    ensures forall i :: 0 <= i < |reports| ==>
              reports[i].filename == Attempted(names, inputExt)[i] &&
              reports[i].input == Join(inputDir, reports[i].filename) &&
              reports[i].output == OutputPath(outputDir, reports[i].filename, outputExt) &&
              reports[i].outcome == convert(reports[i].input, reports[i].output)
  {
    reports := [];
    var i := 0;
    while i < |names|
      invariant 0 <= i <= |names|
      invariant reports == BatchReports(inputDir, outputDir, names[..i], inputExt, outputExt, convert)
    {
      var name := names[i];
      if EndsWith(name, inputExt) {
        var inputPath := Join(inputDir, name);
        var outputPath := Join(outputDir, Stem(name) + outputExt);
        var outcome := convert(inputPath, outputPath);
        reports := reports + [Report(name, inputPath, outputPath, outcome)];
      }
      BatchReportsStep(inputDir, outputDir, names, i, inputExt, outputExt, convert);
      i := i + 1;
    }
    assert names[..|names|] == names;
    ReportsFollowListing(inputDir, outputDir, names, inputExt, outputExt, convert);
  }

  /** One more listed name adds its report when it is attempted. */
  lemma BatchReportsStep(inputDir: string, outputDir: string, names: seq<string>, i: nat,
                         inputExt: string, outputExt: string,
                         convert: (string, string) -> Outcome)
    requires i < |names|
    ensures BatchReports(inputDir, outputDir, names[..i + 1], inputExt, outputExt, convert) ==
            BatchReports(inputDir, outputDir, names[..i], inputExt, outputExt, convert) +
            (if EndsWith(names[i], inputExt) then [ReportFor(inputDir, outputDir, names[i], outputExt, convert)] else [])
  {
    assert names[..i + 1][..i] == names[..i];
  }

  // ---------------------------------------------------------------------------
  // Properties

  /** Exactly the attempted names get a report, one each, in listing order, with
      the paths built from the name and the outcome of converting that file. */
  lemma {:induction false} ReportsFollowListing(inputDir: string, outputDir: string, names: seq<string>,
                                                inputExt: string, outputExt: string,
                                                convert: (string, string) -> Outcome)
    ensures forall i :: 0 <= i < |Attempted(names, inputExt)| ==>
              BatchReports(inputDir, outputDir, names, inputExt, outputExt, convert)[i] ==
              ReportFor(inputDir, outputDir, Attempted(names, inputExt)[i], outputExt, convert)
  {
    if names != [] {
      var init, last := names[..|names| - 1], names[|names| - 1];
      ReportsFollowListing(inputDir, outputDir, init, inputExt, outputExt, convert);
      var before := BatchReports(inputDir, outputDir, init, inputExt, outputExt, convert);
      var after := BatchReports(inputDir, outputDir, names, inputExt, outputExt, convert);
      forall i | 0 <= i < |Attempted(names, inputExt)|
        ensures after[i] == ReportFor(inputDir, outputDir, Attempted(names, inputExt)[i], outputExt, convert)
      {
        if i < |Attempted(init, inputExt)| {
          assert after[i] == before[i];
          assert Attempted(names, inputExt)[i] == Attempted(init, inputExt)[i];
        }
      }
    }
  }

  /** Converting two listings one after the other reports what converting their
      concatenation does: nothing about one file changes what happens to the next. */
  lemma {:induction false} BatchAppend(inputDir: string, outputDir: string, a: seq<string>, b: seq<string>,
                                       inputExt: string, outputExt: string,
                                       convert: (string, string) -> Outcome)
    ensures BatchReports(inputDir, outputDir, a + b, inputExt, outputExt, convert) ==
            BatchReports(inputDir, outputDir, a, inputExt, outputExt, convert) +
            BatchReports(inputDir, outputDir, b, inputExt, outputExt, convert)
    decreases |b|
  {
    if b == [] {
      assert a + b == a;
    } else {
      var init, last := b[..|b| - 1], b[|b| - 1];
      assert (a + b)[..|a + b| - 1] == a + init;
      assert (a + b)[|a + b| - 1] == last;
      BatchAppend(inputDir, outputDir, a, init, inputExt, outputExt, convert);
    }
  }

  /** A failure never stops the remaining files: the report for each attempted
      file depends only on what converting that one file does. */
  lemma ReportIsLocal(inputDir: string, outputDir: string, names: seq<string>,
                      inputExt: string, outputExt: string,
                      convert1: (string, string) -> Outcome, convert2: (string, string) -> Outcome, i: nat)
    requires i < |Attempted(names, inputExt)|
    requires var n := Attempted(names, inputExt)[i];
             convert1(Join(inputDir, n), OutputPath(outputDir, n, outputExt)) ==
             convert2(Join(inputDir, n), OutputPath(outputDir, n, outputExt))
    ensures BatchReports(inputDir, outputDir, names, inputExt, outputExt, convert1)[i] ==
            BatchReports(inputDir, outputDir, names, inputExt, outputExt, convert2)[i]
  {
    ReportsFollowListing(inputDir, outputDir, names, inputExt, outputExt, convert1);
    ReportsFollowListing(inputDir, outputDir, names, inputExt, outputExt, convert2);
  }

  /** Every file whose conversion fails is reported as failed, with the message
      of what it raised, and the others as converted. */
  lemma {:induction false} FailuresReported(inputDir: string, outputDir: string, names: seq<string>,
                                            inputExt: string, outputExt: string,
                                            convert: (string, string) -> Outcome, i: nat)
    requires i < |Attempted(names, inputExt)|
    ensures var r := BatchReports(inputDir, outputDir, names, inputExt, outputExt, convert)[i];
            ReportLine(r) ==
              if r.outcome.Failed? then "Failed to convert " + Attempted(names, inputExt)[i] + ": " + Message(r.outcome.failure)
              else "Converted " + Attempted(names, inputExt)[i] + " successfully."
  {
    ReportsFollowListing(inputDir, outputDir, names, inputExt, outputExt, convert);
  }

  /** With `Converter`, each report records `convert_file` on that file's input
      path and output path, with what its library call raises for that input. */
  lemma ConvertFileReports(inputDir: string, outputDir: string, names: seq<string>,
                           inputExt: string, outputExt: string,
                           tools: Tools, errors: string -> Option<string>, i: nat)
    requires i < |Attempted(names, inputExt)|
    ensures var r := BatchReports(inputDir, outputDir, names, inputExt, outputExt, Converter(tools, errors))[i];
            && r.input == Join(inputDir, Attempted(names, inputExt)[i])
            && r.outcome == ConvertFile(Single(r.input), r.output, tools, errors(r.input))
  {
    ReportsFollowListing(inputDir, outputDir, names, inputExt, outputExt, Converter(tools, errors));
  }

  /** The filter is case-sensitive: an upper-case name is skipped for a lower-case
      extension. */
  lemma CaseSensitiveFilter()
    ensures Attempted(["A.PNG", "b.png"], ".png") == ["b.png"]
  {
    assert !EndsWith("A.PNG", ".png") by {
      assert "A.PNG"[1..] != ".png" by { assert "A.PNG"[1..][1] == 'P'; }
    }
    assert EndsWith("b.png", ".png") by {
      assert "b.png"[1..] == ".png";
    }
    assert ["A.PNG", "b.png"][..1] == ["A.PNG"];
    assert ["A.PNG"][..0] == [];
  }
}
