/** `convert_file`: how the two paths become a dispatch key, which argument the
    chosen handler receives, and how it ends. The handlers' library calls are not
    modelled; where one of them could fail, the caller supplies the outcome. What
    the model does decide is every failure the converter raises itself: the
    unsupported pair, the nested data-format rejection, a missing external tool,
    and the index error of an empty list. */
module Convert {
  import opened Paths
  import opened Dispatch
  import opened DataFormat

  datatype Option<T> = None | Some(value: T)

  /** What `convert_file` is called with: one path, or a list of them. */
  datatype Input = Single(path: string) | Many(paths: seq<string>)

  /** What the chosen handler is called with. */
  datatype Arg = Path(path: string) | PathList(paths: seq<string>)

  /** The three availability checks made once at start-up (ffmpeg, `pandoc
      --version`, `ebook-convert --version`), and whether the `import cairosvg`
      that `convert_svg` attempts on each call succeeds. */
  datatype Tools = Tools(ffmpeg: bool, pandoc: bool, calibre: bool, cairoSvg: bool)

  datatype Failure =
    | UnsupportedConversion(inExt: string, outExt: string)
    | UnsupportedDataFormat(inExt: string, outExt: string)
    | MissingTool(handler: Handler)
    | NoValidImages
    | IndexOutOfRange
    | NotAPath
    | LibraryError(message: string)

  datatype Outcome = Converted(handler: Handler, arg: Arg) | Failed(failure: Failure)

  /** The text of the exception each failure raises. `NotAPath` and
      `IndexOutOfRange` are Python's own messages for a list used as a path and for
      indexing an empty list. */
  function Message(f: Failure): string
  {
    match f
    case UnsupportedConversion(i, o) => "Unsupported conversion: " + i + " to " + o
    case UnsupportedDataFormat(i, o) => "Unsupported data format conversion: " + i + " to " + o
    case MissingTool(h) =>
      (match h
      case ConvertVideo => "FFmpeg is not available. Video conversion is not supported."
      case ConvertAudio => "FFmpeg is not available. Audio conversion is not supported."
      case MarkdownToPdf => "Pandoc is not available. Markdown to PDF conversion is not supported."
      case HtmlToMarkdown => "Pandoc is not available. HTML to Markdown conversion is not supported."
      case EpubToPdf => "Calibre is not available. EPUB to PDF conversion is not supported."
      case _ => "SVG conversion is not supported without CairoSVG")
    case NoValidImages => "No valid images found to convert to PDF"
    case IndexOutOfRange => "list index out of range"
    case NotAPath => "expected str, bytes or os.PathLike object, not list"
    case LibraryError(m) => m
  }

  /** The dispatch key: the lowered extension of the only path, or of the first path
      of a list, the lowered extension of the output, and whether the lowered output
      ends in ".pdf". An empty list has no first element. */
  function KeyOf(input: Input, output: string): (r: Option<Key>)
    ensures r.None? <==> input == Many([])
    ensures r.Some? ==> Coherent(r.value)
    ensures r.Some? ==> r.value.isList == input.Many?
    ensures r.Some? ==> r.value.outExt == Lower(Ext(output))
    ensures r.Some? ==> r.value.outPdf == EndsWith(Lower(output), ".pdf")
    ensures r.Some? && input.Single? ==> r.value.inExt == Lower(Ext(input.path))
    ensures r.Some? && input.Many? ==> r.value.inExt == Lower(Ext(input.paths[0]))
  {
    var first :=
      match input
      case Single(p) => p
      case Many(ps) => if ps == [] then "" else ps[0];
    if input == Many([]) then None
    else
      OutputSideCoherent(output);
      Some(Key(input.Many?, Lower(Ext(first)), Lower(Ext(output)), EndsWith(Lower(output), ".pdf")))
  }

  /** The two views of the output agree: a ".pdf" extension means the lowered path
      ends in ".pdf", and a path ending in ".pdf" has that extension or none. */
  lemma OutputSideCoherent(output: string)
    ensures Coherent(Key(false, "", Lower(Ext(output)), EndsWith(Lower(output), ".pdf")))
  {
    LowerExtIsSuffix(output);
    if EndsWith(Lower(output), ".pdf") {
      PdfSuffixExt(output);
    }
  }

  /** A key is derivable from paths when its extensions are plain: one input named
      "x" plus its extension and an output named "y" plus its extension have it. */
  lemma KeyOfPlainNames(i: string, o: string)
    requires PlainExt(i) && PlainExt(o)
    ensures KeyOf(Single("x" + i), "y" + o) == Some(Key(false, i, o, o == ".pdf"))
  {
    ExtAfterName("x", i);
    ExtAfterName("y", o);
    var k := KeyOf(Single("x" + i), "y" + o).value;
    if o == "" {
      assert |Lower("y" + o)| == 1;
    }
  }

  /** The argument the handler receives: the raster-image branch wraps a single path
      in a list for `images_to_pdf`; every other branch passes the input on as it
      came. */
  function ArgFor(h: Handler, input: Input): Arg
  {
    match input
    case Single(p) => if h == ImagesToPdf then PathList([p]) else Path(p)
    case Many(ps) => PathList(ps)
  }

  /** The external tool a handler checks for before doing anything. */
  predicate Available(h: Handler, tools: Tools)
  {
    match h
    case ConvertVideo => tools.ffmpeg
    case ConvertAudio => tools.ffmpeg
    case MarkdownToPdf => tools.pandoc
    case HtmlToMarkdown => tools.pandoc
    case EpubToPdf => tools.calibre
    case ConvertSvg => tools.cairoSvg
    case _ => true
  }

  predicate Gated(h: Handler)
  {
    h in {ConvertVideo, ConvertAudio, MarkdownToPdf, HtmlToMarkdown, EpubToPdf, ConvertSvg}
  }

  /** Only the gated handlers can lack their tool. */
  lemma UnavailableIsGated(h: Handler, tools: Tools)
    requires !Available(h, tools)
    ensures Gated(h)
  {
  }

  /** The handlers that run an external command with `subprocess.run`, which does
      not check the exit status: once the tool is present they end normally,
      except that a list argument cannot be placed on a command line. */
  predicate RunsCommand(h: Handler)
  {
    h in {MarkdownToPdf, HtmlToMarkdown, EpubToPdf}
  }

  /** A library call that fails with `error`, or returns. */
  function Library(h: Handler, arg: Arg, error: Option<string>): Outcome
  {
    match error
    case Some(m) => Failed(LibraryError(m))
    case None => Converted(h, arg)
  }

  /** One handler called with `arg`: its tool check, then its own checks, then the
      library call. `convert_data_format` derives the lowered extensions of its two
      paths again; for a single input path they are the key's `inExt` and `outExt`. */
  function Run(h: Handler, arg: Arg, k: Key, tools: Tools, error: Option<string>): Outcome
  {
    if !Available(h, tools) then Failed(MissingTool(h))
    else if RunsCommand(h) then
      if arg.PathList? then Failed(NotAPath) else Converted(h, arg)
    else if h == ConvertDataFormat then
      if arg.PathList? then Failed(NotAPath)
      else if PlanConversion(k.inExt, k.outExt) == Rejected then
        Failed(UnsupportedDataFormat(k.inExt, k.outExt))
      else Library(h, arg, error)
    else if h == ImagesToPdf && arg.PathList? && arg.paths == [] then
      Failed(NoValidImages)
    else
      Library(h, arg, error)
  }

  /** `convert_file` once the key exists: select, raise on an unsupported pair,
      otherwise run the handler; whatever it raises is re-raised unchanged. */
  function Dispatched(k: Key, input: Input, tools: Tools, error: Option<string>): Outcome
  {
    var h := Select(k);
    if h == Unsupported then Failed(UnsupportedConversion(k.inExt, k.outExt))
    else Run(h, ArgFor(h, input), k, tools, error)
  }

  /** `convert_file(input, output)`. `error` is what the chosen handler's library
      call would raise, if anything. */
  function ConvertFile(input: Input, output: string, tools: Tools, error: Option<string>): Outcome
  {
    Finish(KeyOf(input, output), input, tools, error)
  }

  /** The outcome once the key is known, or known not to exist. */
  function Finish(key: Option<Key>, input: Input, tools: Tools, error: Option<string>): Outcome
  {
    match key
    case None => Failed(IndexOutOfRange)
    case Some(k) => Dispatched(k, input, tools, error)
  }

  /** The handler `convert_file` chooses, or none for an empty list. */
  function Chosen(input: Input, output: string): Option<Handler>
  {
    ChosenFor(KeyOf(input, output))
  }

  function ChosenFor(key: Option<Key>): Option<Handler>
  {
    match key
    case None => None
    case Some(k) => Some(Select(k))
  }

  // ---------------------------------------------------------------------------
  // Properties of one dispatched key

  lemma DispatchedFacts(k: Key, input: Input, tools: Tools, error: Option<string>)
    ensures Dispatched(k, input, tools, error).Converted? ==>
              Dispatched(k, input, tools, error) == Converted(Select(k), ArgFor(Select(k), input))
    ensures (Dispatched(k, input, tools, error).Failed? &&
             Dispatched(k, input, tools, error).failure.UnsupportedConversion?)
            <==> Select(k) == Unsupported
    ensures Select(k) == Unsupported ==>
              Dispatched(k, input, tools, error) == Failed(UnsupportedConversion(k.inExt, k.outExt))
    ensures (Dispatched(k, input, tools, error).Failed? &&
             Dispatched(k, input, tools, error).failure.MissingTool?)
            <==> Select(k) != Unsupported && !Available(Select(k), tools)
    ensures Dispatched(k, input, tools, error).Failed? &&
            Dispatched(k, input, tools, error).failure.MissingTool? ==>
              Dispatched(k, input, tools, error).failure.handler == Select(k) && Gated(Select(k))
    ensures Dispatched(k, input, tools, error) != Failed(IndexOutOfRange)
  {
    if !Available(Select(k), tools) {
      UnavailableIsGated(Select(k), tools);
    }
  }

  /** Once the key exists, a missing tool is reported exactly when the chain picks
      a handler whose tool is absent. */
  lemma DispatchedMissingTool(k: Key, input: Input, tools: Tools, error: Option<string>)
    ensures (Dispatched(k, input, tools, error).Failed? &&
             Dispatched(k, input, tools, error).failure.MissingTool?)
            <==> Select(k) != Unsupported && !Available(Select(k), tools)
  {
  }

  /** The list `images_to_pdf` receives is never empty when the input is not. */
  lemma DispatchedImages(k: Key, input: Input, tools: Tools, error: Option<string>)
    requires input != Many([])
    ensures Dispatched(k, input, tools, error) != Failed(NoValidImages)
  {
    if Select(k) == ImagesToPdf {
      match input
      case Single(p) => assert ArgFor(ImagesToPdf, input) == PathList([p]);
      case Many(ps) => assert ArgFor(ImagesToPdf, input) == PathList(ps);
    }
  }

  lemma DispatchedDataFormat(k: Key, input: Input, tools: Tools, error: Option<string>)
    requires Select(k) == ConvertDataFormat
    ensures input.Many? ==> Dispatched(k, input, tools, error) == Failed(NotAPath)
    ensures PlanConversion(k.inExt, k.outExt).Tabular? ==>
              PlanConversion(k.inExt, k.outExt).writer.Writes?
    ensures input.Single? ==>
              ((Dispatched(k, input, tools, error).Failed? &&
                Dispatched(k, input, tools, error).failure.UnsupportedDataFormat?)
               <==> k.inExt == ".xml" && k.outExt != ".json")
  {
    DataFormatKeys(k);
  }

  /** A single path never fails as a list would. */
  lemma DispatchedSingle(k: Key, p: string, tools: Tools, error: Option<string>)
    ensures Dispatched(k, Single(p), tools, error) != Failed(NotAPath)
  {
  }

  /** A list taken by the first branch goes to `images_to_pdf`, which accepts
      lists. */
  lemma DispatchedListToPdf(k: Key, ps: seq<string>, tools: Tools, error: Option<string>)
    requires k.isList && k.outPdf
    ensures Dispatched(k, Many(ps), tools, error) != Failed(NotAPath)
  {
    ListToPdfTakesAnyInput(k);
  }

  // ---------------------------------------------------------------------------
  // Properties of `convert_file`

  /** A successful conversion ran the chosen handler, with the argument the branch
      passes. */
  lemma ConvertedRanChosen(input: Input, output: string, tools: Tools, error: Option<string>)
    ensures ConvertFile(input, output, tools, error).Converted? ==>
              Chosen(input, output).Some? &&
              ConvertFile(input, output, tools, error) ==
                Converted(Chosen(input, output).value, ArgFor(Chosen(input, output).value, input))
  {
    if KeyOf(input, output).Some? {
      var k := KeyOf(input, output).value;
      DispatchedFacts(k, input, tools, error);
    }
  }

  /** An unsupported pair raises its message whatever tools are installed and
      whatever the libraries would do, and only an unsupported pair raises it. */
  lemma UnsupportedExactly(input: Input, output: string, tools: Tools, error: Option<string>)
    ensures (ConvertFile(input, output, tools, error).Failed? &&
             ConvertFile(input, output, tools, error).failure.UnsupportedConversion?)
            <==> Chosen(input, output) == Some(Unsupported)
    ensures Chosen(input, output) == Some(Unsupported) ==>
              Message(ConvertFile(input, output, tools, error).failure) ==
              "Unsupported conversion: " + KeyOf(input, output).value.inExt + " to " + Lower(Ext(output))
  {
    if KeyOf(input, output).Some? {
      var k := KeyOf(input, output).value;
      DispatchedFacts(k, input, tools, error);
    }
  }

  lemma UnsupportedIgnoresTools(input: Input, output: string, tools1: Tools, tools2: Tools,
                                error1: Option<string>, error2: Option<string>)
    requires Chosen(input, output) == Some(Unsupported)
    ensures ConvertFile(input, output, tools1, error1) == ConvertFile(input, output, tools2, error2)
  {
    var k := KeyOf(input, output).value;
    DispatchedFacts(k, input, tools1, error1);
    DispatchedFacts(k, input, tools2, error2);
  }

  /** Tools are checked after selection, by the handler: a missing tool is reported
      exactly when the chosen handler needs a tool that is absent, and the choice
      itself does not depend on the tools. */
  lemma MissingToolExactly(input: Input, output: string, tools: Tools, error: Option<string>)
    ensures (ConvertFile(input, output, tools, error).Failed? &&
             ConvertFile(input, output, tools, error).failure.MissingTool?)
            <==> Chosen(input, output).Some? && !Available(Chosen(input, output).value, tools)
  {
    FinishMissingTool(KeyOf(input, output), input, tools, error);
  }

  /** The same on an optional key, before `ConvertFile` is unfolded. */
  lemma FinishMissingTool(key: Option<Key>, input: Input, tools: Tools, error: Option<string>)
    ensures (Finish(key, input, tools, error).Failed? &&
             Finish(key, input, tools, error).failure.MissingTool?)
            <==> ChosenFor(key).Some? && !Available(ChosenFor(key).value, tools)
  {
    if key.Some? {
      DispatchedMissingTool(key.value, input, tools, error);
    }
  }

  /** A missing-tool report names the chosen handler, which is one of the six that
      check for a tool. */
  lemma MissingToolNamesHandler(input: Input, output: string, tools: Tools, error: Option<string>)
    ensures ConvertFile(input, output, tools, error).Failed? &&
            ConvertFile(input, output, tools, error).failure.MissingTool? ==>
              Gated(ConvertFile(input, output, tools, error).failure.handler) &&
              Some(ConvertFile(input, output, tools, error).failure.handler) == Chosen(input, output)
  {
    if KeyOf(input, output).Some? {
      var k := KeyOf(input, output).value;
      DispatchedFacts(k, input, tools, error);
    }
  }

  /** Markdown to PDF is chosen with or without pandoc; without it the handler
      raises its own missing-tool failure. */
  lemma MarkdownToPdfWithoutPandoc(p: string, output: string, tools: Tools, error: Option<string>)
    requires Lower(Ext(p)) == ".md" && Lower(Ext(output)) == ".pdf"
    requires !tools.pandoc
    ensures Chosen(Single(p), output) == Some(MarkdownToPdf)
    ensures ConvertFile(Single(p), output, tools, error) == Failed(MissingTool(MarkdownToPdf))
  {
    var key := KeyOf(Single(p), output);
    var k := key.value;
    assert key == Some(k);
    DispatchedMarkdownToPdf(k, Single(p), tools, error);
  }

  /** That failure names pandoc and the conversion it rules out. */
  lemma MarkdownToPdfMessage()
    ensures Message(MissingTool(MarkdownToPdf)) ==
            "Pandoc is not available. Markdown to PDF conversion is not supported."
  {
  }

  /** The key of a ".md" file with ".pdf" output picks `markdown_to_pdf`, whatever
      the input, and without pandoc that handler fails. */
  lemma DispatchedMarkdownToPdf(k: Key, input: Input, tools: Tools, error: Option<string>)
    requires Coherent(k) && !k.isList && k.inExt == ".md" && k.outExt == ".pdf"
    requires !tools.pandoc
    ensures Select(k) == MarkdownToPdf
    ensures Dispatched(k, input, tools, error) == Failed(MissingTool(MarkdownToPdf))
  {
    MarkdownToPdfKey(k);
  }

  /** An empty list fails with an index error before anything is selected, and
      nothing else fails that way. */
  lemma EmptyListIndexError(input: Input, output: string, tools: Tools, error: Option<string>)
    ensures ConvertFile(input, output, tools, error) == Failed(IndexOutOfRange) <==> input == Many([])
  {
    if KeyOf(input, output).Some? {
      var k := KeyOf(input, output).value;
      DispatchedFacts(k, input, tools, error);
    }
  }

  /** `images_to_pdf` never sees an empty list through `convert_file`, so its own
      "No valid images" error cannot come from here. */
  lemma NeverNoValidImages(input: Input, output: string, tools: Tools, error: Option<string>)
    ensures ConvertFile(input, output, tools, error) != Failed(NoValidImages)
  {
    if KeyOf(input, output).Some? {
      var k := KeyOf(input, output).value;
      DispatchedImages(k, input, tools, error);
    }
  }

  /** Only `images_to_pdf` receives a list built from a single path; a list input
      reaches the others unchanged. */
  lemma ArgShape(h: Handler, input: Input)
    ensures input.Single? ==> (ArgFor(h, input).PathList? <==> h == ImagesToPdf)
    ensures input.Single? && h == ImagesToPdf ==> ArgFor(h, input) == PathList([input.path])
    ensures input.Many? ==> ArgFor(h, input) == PathList(input.paths)
  {
  }

  /** The raster branch only ever sees a single path: a list with a ".pdf" output
      was taken by the first branch, and a single raster path is wrapped. */
  lemma RasterToPdf(input: Input, output: string)
    requires KeyOf(input, output).Some?
    requires KeyOf(input, output).value.inExt in RasterExts && Lower(Ext(output)) == ".pdf"
    ensures Chosen(input, output) == Some(ImagesToPdf)
    ensures input.Single? ==> ArgFor(ImagesToPdf, input) == PathList([input.path])
  {
    var k := KeyOf(input, output).value;
    RasterToPdfIsImagesToPdf(k);
  }

  /** Reaching `convert_data_format` from a single path, the nested dispatch always
      has a writer or is the XML path, and it rejects exactly XML towards anything
      but JSON. A list reaching it fails before any reader is chosen. */
  lemma DataFormatThroughDispatch(input: Input, output: string, tools: Tools, error: Option<string>)
    requires Chosen(input, output) == Some(ConvertDataFormat)
    ensures PlanConversion(KeyOf(input, output).value.inExt, Lower(Ext(output))).Tabular? ==>
              PlanConversion(KeyOf(input, output).value.inExt, Lower(Ext(output))).writer.Writes?
    ensures input.Single? ==>
              ((ConvertFile(input, output, tools, error).Failed? &&
                ConvertFile(input, output, tools, error).failure.UnsupportedDataFormat?)
               <==> Lower(Ext(input.path)) == ".xml" && Lower(Ext(output)) != ".json")
    ensures input.Many? ==> ConvertFile(input, output, tools, error) == Failed(NotAPath)
  {
    var k := KeyOf(input, output).value;
    DispatchedDataFormat(k, input, tools, error);
  }

  /** For a list only the first path's extension matters: the rest of the list
      never changes which handler is chosen. */
  lemma FirstElementOnly(ps: seq<string>, qs: seq<string>, output: string)
    requires ps != [] && qs != [] && Lower(Ext(ps[0])) == Lower(Ext(qs[0]))
    ensures Chosen(Many(ps), output) == Chosen(Many(qs), output)
  {
  }

  /** An output named "..pdf" has no extension but still ends in ".pdf": a list is
      merged into one PDF, while a single image is handed to `convert_image`, which
      then saves a PDF because of the name. */
  lemma DotPdfOutput(p: string, rest: seq<string>)
    requires Lower(Ext(p)) in ImageExts
    ensures Chosen(Many([p] + rest), "..pdf") == Some(ImagesToPdf)
    ensures Chosen(Single(p), "..pdf") == Some(ConvertImage)
  {
    DotPdfHasNoExt();
    var k := KeyOf(Single(p), "..pdf").value;
    assert k == Key(false, Lower(Ext(p)), "", true);
    ImageInput(k);
  }

  lemma DotPdfHasNoExt()
    ensures Ext("..pdf") == "" && EndsWith(Lower("..pdf"), ".pdf")
  {
    var s := "..pdf";
    assert s[0] == '.' && s[1] == '.' && s[2] == 'p' && s[3] == 'd' && s[4] == 'f';
    assert RFind(s, '/') == -1;
    assert RFind(s, '.') == 1;
    assert "..pdf"[0..1] == ".";
    assert Lower("..pdf") == "..pdf";
    assert "..pdf"[1..] == ".pdf";
  }

  /** Seen from real paths: a live handler is chosen for one input path and one
      output path (the witness key's extensions after the names "x" and "y"), and
      no input and output at all choose a dead one. */
  lemma ReachableFromPaths(h: Handler)
    ensures h !in DeadHandlers ==>
              Chosen(Single("x" + Witness(h).inExt), "y" + Witness(h).outExt) == Some(h)
    ensures h in DeadHandlers ==> forall input, output :: Chosen(input, output) != Some(h)
  {
    if h !in DeadHandlers {
      WitnessSelects(h);
      WitnessPlain(h);
      KeyOfPlainNames(Witness(h).inExt, Witness(h).outExt);
    } else {
      forall input, output ensures Chosen(input, output) != Some(h) {
        if KeyOf(input, output).Some? {
          DeadHandlersNeverSelected(KeyOf(input, output).value);
        }
      }
    }
  }
}
