# file-converter: a Dafny model of the dispatcher

`fileconvert.py` converts files between formats. It looks at the extensions of an
input path (or a list of input paths) and of an output path, picks one handler from
a long `if`/`elif` chain, and calls that handler. Each handler is a thin wrapper
around an image, PDF, office, data, media or archive library, or an external
command.

Around the chain sit three more pieces:

- a nested reader/writer dispatch for data formats (`convert_data_format`);
- a batch driver over a directory listing (`batch_convert`);
- two help tables and the acceptance checks of the interactive front end
  (`prompt_for_files`, `main`).

This project models those decisions and proves what they imply:

- which handler each pair of extensions reaches;
- which branches can never fire;
- how the archive branches take precedence;
- when a missing tool is reported;
- what the batch driver reports;
- what the help tables promise compared with what the chain does.

The modules follow the structure of the program:

- `Paths` (`paths.dfy`): the POSIX `os.path.splitext` and `os.path.join`, plus
  `str.lower`, `endswith`, `lstrip(".")`, `strip()` and `split()`.
- `Dispatch` (`dispatch.dfy`): the chain `Select`, branch for branch in source
  order, including the branches nothing reaches. Beside it is the same chain as a
  table of guards, `Rules`, searched by `FirstMatch`, with a proof that the two
  agree on every key.
- `DataFormat` (`dataformat.dfy`): the reader and writer choice of
  `convert_data_format`.
- `Convert` (`convert.dfy`): `convert_file`. This covers how the key is derived
  from the paths, the argument the handler receives, the tool checks the handlers
  make, and every error the converter raises itself, with its exact message.
- `Formats` (`formats.dfy`): `get_supported_conversions` (a map that ffmpeg's
  presence overrides) and `get_supported_input_formats`.
- `Offers` (`offers.dfy`): what the conversions table promises once
  `convert_file` is asked for an offered conversion.
- `Batch` (`batch.dfy`): `batch_convert` as a method with a loop, proved against a
  specification function of the listing.
- `Cli` (`cli.dfy`): one round of `prompt_for_files` and the decision `main` makes
  on a request.

The outside world enters as parameters:

- Three tool probes run once at start-up: `check_ffmpeg`, and `check_command`
  for `pandoc` and `ebook-convert`. `convert_svg` instead tries `import
  cairosvg` on each call. The four outcomes become the booleans of
  `Convert.Tools`, given with each call.
- Whatever a handler's library call would raise becomes an `Option<string>`
  supplied by the caller. In `Batch` it is a function of the input path.
- The directory listing of `os.listdir` is a sequence of names, in the order the
  listing returns them.
- The two lines typed at the prompts are string parameters.

Three facts about `fileconvert.py` shape the model:

- `convert_file`'s chain picks a handler without looking at the tools. The
  chosen handler raises its own "not available" error. Only `main` checks for
  several inputs; `convert_file` sends any list with a ".pdf" output to
  `images_to_pdf`. `Convert.MissingToolExactly` and
  `Dispatch.ListToPdfTakesAnyInput` state this.
- Some branches of the chain repeat earlier ones. The model keeps every branch
  as written and proves the repeated ones unreachable
  (`Dispatch.ShadowedNeverFirst`, `Dispatch.Reachability`).
- The conversions table of `get_supported_conversions` and the input-format
  table of `get_supported_input_formats` are written by hand and disagree. Four
  listed input formats, ".txt", ".csv", ".xlsx" and ".xml", have no row in the
  conversions table (`Formats.RowlessInputsListed`,
  `Formats.RowlessInputsHaveNoRow`). SVG can be converted but is not an input
  format (`Formats.SvgIsNotAnInputFormat`).

## Model

All paths are in `fileconvert.py`.

| member | source | states |
|---|---|---|
| Paths.Ext | fileconvert.py:353-356 | no contract of its own: the extension half of `os.path.splitext`; see `SplitExt`, `SplitExtCut`, `ExtOfPath` |
| Paths.Stem | fileconvert.py:342 | no contract of its own: the root half of `os.path.splitext`; see `SplitExt`, `SplitExtCut` |
| Paths.Strip | fileconvert.py:508-530 | no contract of its own: `str.strip()`; see `StripProperties`, `DropLeadingSpace`, `DropTrailingSpace` |
| Paths.DropLeadingSpace | fileconvert.py:508-530 | what is removed is all whitespace and the rest does not start with whitespace |
| Paths.DropTrailingSpace | fileconvert.py:508-530 | what is removed is all whitespace and the rest does not end with whitespace |
| Paths.SplitExt | fileconvert.py:353-356 | the root and the extension concatenate back to the path |
| Paths.SplitExtCut | fileconvert.py:353-356 | there is an extension exactly when the path has a '.' with no '.' or '/' after it and a character other than '.' before it in the last component; the split is made at that '.' |
| Paths.ExtOfPath | fileconvert.py:353-356 | the extension is empty, or starts with its only '.' and holds no '/' |
| Paths.Lower | fileconvert.py:353-356 | the lowered string has the same length and no upper-case ASCII letter; each upper-case letter becomes its lower-case letter and every other character stays in place |
| Paths.LowerConcat | fileconvert.py:353-356 | lowering a concatenation is concatenating the lowered parts |
| Paths.LowerIdempotent | fileconvert.py:353-356 | lowering twice is lowering once |
| Paths.PlainIsLower | fileconvert.py:353-356 | an extension that is a '.' followed by characters other than '.', '/' and upper-case letters is unchanged by lowering |
| Paths.ExtAfterName | fileconvert.py:353-356 | a name without '.' or '/' followed by such an extension has exactly that extension |
| Paths.LowerExtIsSuffix | fileconvert.py:356-358 | the lowered extension of the output is a suffix of the lowered output path |
| Paths.PdfSuffixExt | fileconvert.py:358-360 | a path whose lowered form ends in ".pdf" has extension ".pdf" or none at all |
| Paths.Join | fileconvert.py:341-342 | an absolute second part is the result; otherwise the result is the first part, then a '/' exactly when the first part is non-empty and does not end in '/', then the second part |
| Paths.LStripDots | fileconvert.py:493 | the result is a suffix of the input that does not start with '.', and everything removed was '.' |
| Paths.StripProperties | fileconvert.py:508-530 | a line strips to "" exactly when it is all whitespace; otherwise the stripped line neither starts nor ends with whitespace |
| Paths.SplitWords | fileconvert.py:517 | every word of the split is non-empty and holds no whitespace |
| Paths.WordLengthPrefix | fileconvert.py:517 | a word is not lengthened by whatever follows a whitespace character |
| Paths.SplitWordsAtSpace | fileconvert.py:517 | splitting at a whitespace character splits the two sides apart: the words of `u + [c] + v` are the words of `u` then those of `v` |
| Paths.SplitOneWord | fileconvert.py:517 | a non-empty string without whitespace is one word |
| Paths.SplitWordsEmpty | fileconvert.py:517-521 | a line splits into no words exactly when it is all whitespace |
| Paths.SplitJoinWords | fileconvert.py:517 | splitting words joined by single spaces gives the words back |
| DataFormat.PlanConversion | fileconvert.py:169-205 | no contract of its own: `convert_data_format`'s chain of tests; see `ReaderByInput`, `WriterByOutput`, `SilentWithoutWriter`, `XmlOnlyToJson`, `RejectedExactly` |
| DataFormat.ReaderByInput | fileconvert.py:173-183 | the reader chosen is the one whose extension is the input's, and only for tabular inputs |
| DataFormat.WriterByOutput | fileconvert.py:185-193 | for a tabular input, the writer chosen is exactly the one whose extension is the output's |
| DataFormat.SilentWithoutWriter | fileconvert.py:173-193 | a tabular input with an output outside the four formats reads, writes nothing and does not raise |
| DataFormat.XmlOnlyToJson | fileconvert.py:194-205 | XML input is converted towards ".json" and rejected towards anything else |
| DataFormat.RejectedExactly | fileconvert.py:173-205 | a pair raises "Unsupported data format conversion" exactly when the input is not tabular and the pair is not XML to JSON |
| Dispatch.Select | fileconvert.py:358-439 | no contract of its own: the `if`/`elif` chain of `convert_file`; see `SelectIsFirstMatch`, `ShadowedNeverFirst`, `Reachability`, `DeadHandlersNeverSelected` and the per-family lemmas below |
| Dispatch.FirstMatchFromSpec | fileconvert.py:358-439 | the table search returns a rule whose guard holds with no earlier guard holding, and nothing only when no guard holds |
| Dispatch.FirstMatchUnique | fileconvert.py:358-439 | the first match is the one index whose guard holds with no earlier guard holding |
| Dispatch.SelectIsFirstMatch | fileconvert.py:358-439 | the `if`/`elif` chain and the table of guards pick the same handler for every key, `Unsupported` when nothing matches |
| Dispatch.CoversSound | fileconvert.py:358-439 | when one guard covers another, every key the second matches, the first matches too |
| Dispatch.CoveredNeverFirst | fileconvert.py:358-439 | a rule covered by an earlier rule is never the first match, for any key |
| Dispatch.ShadowingRule | fileconvert.py:362-437 | each shadowed branch (383, 396, 398, 400-411, 432, 436) has an earlier branch whose guard covers it |
| Dispatch.ShadowedNeverFirst | fileconvert.py:383-437 | the branches at lines 383, 396, 398, 400, 402, 404, 406, 408, 410, 432 and 436 never pick a handler |
| Dispatch.SingleImageBranchNeverList | fileconvert.py:358-361 | the single-image branch only ever fires for a single raster path with ".pdf" output |
| Dispatch.DeadDocumentHandlers | fileconvert.py:383-437 | no key selects `convert_docx_to_pdf`, `convert_pdf_to_image`, `pdf_to_word` or `extract_audio_from_video` |
| Dispatch.DeadDataHandlers | fileconvert.py:400-411 | no key selects any of the six pairwise data converters |
| Dispatch.DeadHandlersNeverSelected | fileconvert.py:383-437 | no key selects any of the ten dead handlers |
| Dispatch.ImageListsIncluded | fileconvert.py:360-397 | the raster list and the late image list hold only extensions of the main image list |
| Dispatch.Reachability | fileconvert.py:358-439 | a handler is chosen by some coherent key exactly when it is not one of the ten dead handlers |
| Dispatch.WitnessSelects | fileconvert.py:358-439 | for each live handler, its witness key is coherent and selects it |
| Dispatch.WitnessPlain | fileconvert.py:358-439 | each witness key is for a single path, with plain lower-case input and output extensions, and records a PDF output exactly for ".pdf" |
| Dispatch.ListToPdfTakesAnyInput | fileconvert.py:358-359 | any list with an output ending in ".pdf" goes to `images_to_pdf`, whatever the list holds |
| Dispatch.RasterToPdfIsImagesToPdf | fileconvert.py:360-361 | a raster input with ".pdf" output goes to `images_to_pdf`, never to `convert_image` |
| Dispatch.ZipPrecedence | fileconvert.py:368-423 | ".zip" output compresses exactly when the input is in no image, PDF, video or audio family; ".zip" input extracts exactly when the output is not ".zip" |
| Dispatch.RarPrecedence | fileconvert.py:420-427 | ".rar" compression and extraction fire exactly when no earlier family or ".zip" branch took the key |
| Dispatch.SevenZipPrecedence | fileconvert.py:420-431 | ".7z" compression and extraction fire exactly when no earlier family, ".zip" or ".rar" branch took the key |
| Dispatch.ArchivePngToZip | fileconvert.py:368-420 | png to ".zip" goes to `convert_image` |
| Dispatch.ArchivePdfToZip | fileconvert.py:379-420 | pdf to ".zip" goes to `convert_pdf` |
| Dispatch.ArchiveZipToRar | fileconvert.py:422-425 | ".zip" to ".rar" extracts the zip |
| Dispatch.ArchiveRarToZip | fileconvert.py:420-427 | ".rar" to ".zip" compresses into a zip |
| Dispatch.ArchiveJsonToZip | fileconvert.py:387-420 | json to ".zip" compresses, since ".zip" is not a data output |
| Dispatch.DataFormatKeys | fileconvert.py:387-393 | the data-format branch is chosen only for a data input and a tabular output |
| Dispatch.MarkdownToPdfKey | fileconvert.py:414-415 | a single markdown input with ".pdf" output goes to `markdown_to_pdf` |
| Dispatch.ImageInput | fileconvert.py:360-378 | an image input goes to `images_to_pdf` when it is raster towards ".pdf", and to `convert_image` otherwise, whatever the output |
| Dispatch.PdfInput | fileconvert.py:364-380 | a PDF input goes to `pdf_to_text` towards ".txt" and to `convert_pdf` for every other output |
| Dispatch.VideoInput | fileconvert.py:381-382 | a video input always goes to `convert_video` |
| Dispatch.AudioInput | fileconvert.py:385-386 | an audio input always goes to `convert_audio` |
| Dispatch.SvgKey | fileconvert.py:394-395 | only an ".svg" input reaches `convert_svg` |
| Dispatch.PdfToDocxIsConvertPdf | fileconvert.py:432-433 | pdf to ".docx" goes to `convert_pdf`, not to `pdf_to_word` |
| Convert.ConvertFile | fileconvert.py:349-444 | no contract of its own: `convert_file`; see `UnsupportedExactly`, `MissingToolExactly`, `EmptyListIndexError`, `ConvertedRanChosen`, `ReachableFromPaths` |
| Convert.Finish | fileconvert.py:352-444 | no contract of its own: the index error for an empty list, otherwise dispatch; see `FinishMissingTool`, `EmptyListIndexError` |
| Convert.Dispatched | fileconvert.py:358-444 | no contract of its own: the chosen branch, or the unsupported error; see `DispatchedFacts`, `DispatchedMissingTool`, `DispatchedSingle` |
| Convert.Run | fileconvert.py:148-334 | no contract of its own: what a handler does with its argument and its tool check; see `UnavailableIsGated`, `DispatchedFacts`, `DispatchedDataFormat`, `NeverNoValidImages` |
| Convert.ArgFor | fileconvert.py:358-361 | no contract of its own: the argument each branch passes; see `ArgShape`, `RasterToPdf` |
| Convert.Message | fileconvert.py:148-444 | no contract of its own: the text of each error; see `UnsupportedExactly`, `MarkdownToPdfMessage` |
| Convert.Chosen | fileconvert.py:352-439 | no contract of its own: the handler the chain picks for two paths; see `ConvertedRanChosen`, `UnsupportedExactly`, `ReachableFromPaths` |
| Convert.KeyOf | fileconvert.py:352-358 | there is no key exactly for the empty list; the key records list-ness, the lowered extension of the only or first input, the output's lowered extension, and whether the lowered output ends in ".pdf" |
| Convert.OutputSideCoherent | fileconvert.py:356-358 | the output's ".pdf" extension and its lowered path ending in ".pdf" agree as the key requires |
| Convert.DispatchedFacts | fileconvert.py:358-444 | once the key exists: success is the chosen handler; "unsupported" exactly for no match, with the key's extensions; a missing tool exactly when the chosen handler lacks its tool; never an index error |
| Convert.DispatchedImages | fileconvert.py:358-361 | `images_to_pdf` never receives an empty list from a non-empty input |
| Convert.DispatchedDataFormat | fileconvert.py:387-393 | through the chain, data-format input never lacks a writer; a single path is rejected exactly for XML to non-JSON; a list fails as a non-path |
| Convert.DispatchedSingle | fileconvert.py:352-444 | a single path never fails as a list would |
| Convert.DispatchedListToPdf | fileconvert.py:358-359 | a list taken by the first branch never fails as a non-path |
| Convert.ConvertedRanChosen | fileconvert.py:349-444 | a successful conversion ran the chosen handler with the argument that branch passes |
| Convert.UnsupportedExactly | fileconvert.py:438-444 | `convert_file` raises "Unsupported conversion: <in> to <out>" exactly when no branch matches, with the lowered extensions |
| Convert.UnsupportedIgnoresTools | fileconvert.py:438-444 | an unsupported pair fails the same way whatever tools are installed and whatever the libraries would do |
| Convert.UnavailableIsGated | fileconvert.py:148-269 | only the six handlers that check for a tool can lack one |
| Convert.DispatchedMissingTool | fileconvert.py:358-444 | once the key exists, a missing tool is reported exactly when the chain picks a handler whose tool is absent |
| Convert.FinishMissingTool | fileconvert.py:352-444 | with or without a key, a missing tool is reported exactly when a handler is chosen and its tool is absent |
| Convert.MissingToolExactly | fileconvert.py:148-269 | `convert_file` reports a missing tool exactly when the chosen handler needs a tool that is absent |
| Convert.MissingToolNamesHandler | fileconvert.py:148-269 | a missing-tool report names the chosen handler, which is one of the six that check for a tool |
| Convert.DispatchedMarkdownToPdf | fileconvert.py:414-415 | a single ".md" path with ".pdf" output picks `markdown_to_pdf`, which fails for want of pandoc when it is absent |
| Convert.MarkdownToPdfWithoutPandoc | fileconvert.py:243-249 | markdown to PDF is still chosen without pandoc, and then fails with the missing-tool failure of that handler |
| Convert.MarkdownToPdfMessage | fileconvert.py:247-249 | that failure's message names pandoc and the conversion it rules out |
| Convert.EmptyListIndexError | fileconvert.py:352-353 | `convert_file` fails with an index error exactly for the empty list |
| Convert.NeverNoValidImages | fileconvert.py:306-320 | `images_to_pdf`'s "No valid images" error cannot arise through `convert_file` |
| Convert.ArgShape | fileconvert.py:358-361 | a single path reaches a handler as a list only for `images_to_pdf`, wrapped as one element; a list reaches every handler unchanged |
| Convert.RasterToPdf | fileconvert.py:352-361 | a raster input with ".pdf" output goes to `images_to_pdf`, and a single path is wrapped in a list |
| Convert.DataFormatThroughDispatch | fileconvert.py:387-393 | reaching `convert_data_format` from one path, the nested dispatch rejects exactly XML to non-JSON; a list fails as a non-path |
| Convert.FirstElementOnly | fileconvert.py:352-353 | two lists whose first paths have the same lowered extension choose the same handler |
| Convert.DotPdfOutput | fileconvert.py:356-378 | an output named "..pdf" has no extension but ends in ".pdf": a list starting with any image path goes to `images_to_pdf`, that path alone to `convert_image` |
| Convert.DotPdfHasNoExt | fileconvert.py:356-358 | "..pdf" has no extension and lowers to a string ending in ".pdf" |
| Convert.KeyOfPlainNames | fileconvert.py:352-358 | the paths "x<in>" and "y<out>", for plain extensions, give the single-path key of exactly those extensions |
| Convert.ReachableFromPaths | fileconvert.py:358-439 | every live handler is chosen by `convert_file` for a concrete input path and output path, and no input and output choose a dead one |
| Formats.SupportedConversions | fileconvert.py:447-493 | no contract of its own: `get_supported_conversions`; see `CaseInsensitive`, `LeadingDotIgnored`, `AddedRows`, `OtherRowsUnchanged`, `AdvertisedIsDispatched`, `RowlessInputsHaveNoRow` |
| Formats.LookupKey | fileconvert.py:493 | no contract of its own: the lowered key without leading dots; see `CaseInsensitive`, `LeadingDotIgnored`, `KeyIsItsOwnLookup` |
| Formats.CaseInsensitive | fileconvert.py:493 | the lookup gives the same answer for an extension and its lowered form |
| Formats.LeadingDotIgnored | fileconvert.py:493 | a leading '.' does not change the lookup |
| Formats.KeyIsItsOwnLookup | fileconvert.py:493 | a lowered key without a leading dot is looked up as it is |
| Formats.VideoRowsInTables | fileconvert.py:467-479 | each base video row is the ffmpeg row followed by ".mp3" and ".wav" |
| Formats.VideoRowsReplaced | fileconvert.py:467-479 | with ffmpeg the mp4, mov, avi and mkv rows lose exactly their trailing ".mp3" and ".wav" |
| Formats.AddedRowsInTables | fileconvert.py:448-489 | the other video keys and the audio keys are absent from the base table and present with six targets after the update |
| Formats.AddedRows | fileconvert.py:473-493 | without ffmpeg webm, flv, wmv and every audio key give `[]`; with ffmpeg they give six targets |
| Formats.OtherRowsUnchanged | fileconvert.py:473-493 | every key the update does not name gives the same answer with or without ffmpeg |
| Formats.AdvertisedKey | fileconvert.py:447-493 | the key of an advertised conversion is a coherent key for one path |
| Formats.KeysOfTable | fileconvert.py:448-491 | every key of either table belongs to one of the image, pdf, video, audio, document or archive key groups |
| Formats.DottedImageKey | fileconvert.py:449-456 | the image keys with a dot are the image extensions of the chain |
| Formats.DottedVideoKey | fileconvert.py:467-482 | the video keys with a dot are the video extensions of the chain |
| Formats.DottedAudioKey | fileconvert.py:483-489 | the audio keys with a dot are the audio extensions of the chain |
| Formats.ImageRowsDispatched | fileconvert.py:449-456 | every advertised image conversion is dispatched to `convert_image` or `images_to_pdf` |
| Formats.MediaRowsDispatched | fileconvert.py:457-489 | every advertised PDF, video or audio conversion reaches a handler of its family |
| Formats.DocxRowDispatched | fileconvert.py:458 | the advertised docx conversion goes to `word_to_pdf` |
| Formats.JsonRowDispatched | fileconvert.py:459 | the advertised json conversions go to `convert_data_format` |
| Formats.YamlRowDispatched | fileconvert.py:460 | the advertised yaml conversions go to `convert_data_format` |
| Formats.MdRowDispatched | fileconvert.py:461 | the advertised markdown conversions go to `markdown_to_pdf` or `markdown_to_html` |
| Formats.HtmlRowDispatched | fileconvert.py:462 | the advertised html conversions go to `html_to_pdf` or `html_to_markdown` |
| Formats.EpubRowDispatched | fileconvert.py:463 | the advertised epub conversion goes to `epub_to_pdf` |
| Formats.ZipRowDispatched | fileconvert.py:464 | the advertised zip target "." extracts |
| Formats.RarRowDispatched | fileconvert.py:465 | the advertised rar target "." extracts |
| Formats.SevenZipRowDispatched | fileconvert.py:466 | the advertised 7z target "." extracts |
| Formats.DocumentRows | fileconvert.py:458-466 | the docx, json, yaml, md, html, epub, zip, rar and 7z rows hold exactly the targets the table writes |
| Formats.DocumentRowDispatched | fileconvert.py:458-466 | every target of a document or archive row is dispatched to a handler, with or without ffmpeg |
| Formats.RowDispatched | fileconvert.py:448-491 | every target of every row of either table is dispatched to a handler, never rejected as unsupported |
| Formats.AdvertisedIsDispatched | fileconvert.py:447-493 | no false negatives: every target the lookup offers is dispatched to a handler, never rejected as unsupported |
| Formats.FlattenMembership | fileconvert.py:523 | an extension is in the flattened family lists exactly when some family lists it |
| Formats.AllInputFormats | fileconvert.py:495-504 | the union of the input formats holds exactly the extensions some family lists |
| Formats.SvgIsNotAnInputFormat | fileconvert.py:495-504 | ".svg" is not an input format, although the chain converts it |
| Formats.CsvIsAnInputFormat | fileconvert.py:499 | ".csv" is an input format |
| Formats.CsvHasNoRow | fileconvert.py:448-493 | the lookup offers no conversion for ".csv", with or without ffmpeg |
| Formats.CsvLookupKey | fileconvert.py:493 | ".csv" is looked up under "csv" |
| Formats.CsvIsDispatched | fileconvert.py:387-393 | csv to ".json" is dispatched to `convert_data_format` |
| Formats.RowlessInputsListed | fileconvert.py:497-500 | ".txt", ".csv", ".xlsx" and ".xml" are listed input formats |
| Formats.RowlessInputsHaveNoRow | fileconvert.py:447-493 | the lookup offers nothing for any of ".txt", ".csv", ".xlsx" and ".xml", with or without ffmpeg |
| Formats.TxtHasNoRow | fileconvert.py:448-493 | the lookup offers no conversion for ".txt" |
| Formats.XlsxHasNoRow | fileconvert.py:448-493 | the lookup offers no conversion for ".xlsx" |
| Formats.XmlHasNoRow | fileconvert.py:448-493 | the lookup offers no conversion for ".xml" |
| Formats.TxtLookupKey | fileconvert.py:493 | ".txt" is looked up under "txt" |
| Formats.XlsxLookupKey | fileconvert.py:493 | ".xlsx" is looked up under "xlsx" |
| Formats.XmlLookupKey | fileconvert.py:493 | ".xml" is looked up under "xml" |
| Offers.AdvertisedKeyOfPaths | fileconvert.py:447-493 | for a plain key and target, the advertised key is the one `convert_file` derives from the paths "x.<key>" and "y<target>" |
| Offers.AdvertisedIsConverted | fileconvert.py:447-493 | an offered conversion between plain extensions, requested with such paths, reaches a handler and never fails as unsupported, whatever tools are installed |
| Batch.Attempted | fileconvert.py:339-340 | the attempted names are no more than the listed ones; see `AttemptedMembers` for which they are |
| Batch.OutputPath | fileconvert.py:342 | no contract of its own: `join(output_dir, stem + output_ext)`; see `BatchConvert`, `ConvertFileReports` |
| Batch.ReportFor | fileconvert.py:341-347 | no contract of its own: one file's paths and outcome; see `ReportIsLocal`, `FailuresReported` |
| Batch.ReportLine | fileconvert.py:345-347 | no contract of its own: the line printed for one file; see `FailuresReported` |
| Batch.Converter | fileconvert.py:344 | no contract of its own: `convert_file` on one path; see `ConvertFileReports` |
| Batch.AttemptedMembers | fileconvert.py:339-340 | a name is attempted exactly when it is listed and ends with the input extension |
| Batch.BatchReports | fileconvert.py:338-347 | there is one report per attempted name |
| Batch.BatchConvert | fileconvert.py:338-347 | the loop returns the specified reports: one per attempted name, in listing order, with paths `join(input_dir, name)` and `join(output_dir, stem + output_ext)`, each outcome being `convert` on those paths; with `Converter(tools, errors)` that is `convert_file` |
| Batch.ReportsFollowListing | fileconvert.py:338-347 | the i-th report is the report for the i-th attempted name |
| Batch.BatchAppend | fileconvert.py:339-347 | converting two listings in turn reports what converting their concatenation reports |
| Batch.ReportIsLocal | fileconvert.py:343-347 | a report depends only on converting its own file, so no failure affects the other files |
| Batch.FailuresReported | fileconvert.py:343-347 | each attempted file is reported once, as failed with the exception's message or as converted |
| Batch.BatchReportsStep | fileconvert.py:338-347 | one more listed name adds its report at the end exactly when it ends with the input extension, and adds nothing otherwise |
| Batch.ConvertFileReports | fileconvert.py:341-344 | with `Converter`, the i-th report records `convert_file` on `join(input_dir, name)` for the i-th attempted name and on its output path |
| Batch.CaseSensitiveFilter | fileconvert.py:340 | the filter is case-sensitive: "A.PNG" is skipped for ".png" |
| Cli.Prompt | fileconvert.py:506-534 | no contract of its own: one round of `prompt_for_files`; see `PromptRequest`, `PromptAccepts`, `BlankLineRetries`, `RequestFilesValid` |
| Cli.Decide | fileconvert.py:580-585 | no contract of its own: `main`'s decision on a request; see `DecideExactly`, `ManyFilesMakeOnePdf`, `FrontEndCallsAreWellFormed` |
| Cli.Report | fileconvert.py:580-589 | no contract of its own: the line `main` prints for a request; see `DecideExactly`, `FrontEndCallsAreWellFormed` |
| Cli.PromptRequest | fileconvert.py:506-534 | an accepted request's files are the words of the stripped first line, there is at least one, all are supported, and the output is the stripped second line and not empty |
| Cli.CommandLetter | fileconvert.py:510-515 | a line that lowers to "q" or "h" is one letter, not whitespace, '.' or '/' |
| Cli.NoExtensionUnsupported | fileconvert.py:495-504 | a path without an extension is never a supported input |
| Cli.CommandIsNotAFile | fileconvert.py:510-526 | a line whose words are all supported files is never the quit or help command |
| Cli.PromptAccepts | fileconvert.py:506-534 | conversely, a first line of supported files and a non-blank second line are accepted as exactly those words and that stripped output |
| Cli.RequestFilesValid | fileconvert.py:517-526 | every accepted file is a non-empty word whose lowered extension some family lists |
| Cli.RequestOutputValid | fileconvert.py:528-534 | the accepted output is the stripped second line, which is not all whitespace |
| Cli.BlankLineRetries | fileconvert.py:508-521 | a whitespace-only line asks again with "Please enter at least one input file." |
| Cli.DecideExactly | fileconvert.py:580-585 | a request is refused exactly when it has several files and an output not ending in ".pdf"; one file is passed as a bare path, several as the list |
| Cli.ManyFilesMakeOnePdf | fileconvert.py:580-585 | several files reach `convert_file` only towards a PDF and always go to `images_to_pdf` |
| Cli.FrontEndCallsAreWellFormed | fileconvert.py:572-589 | from the front end, `convert_file` never hits the index error and never hands a list to a handler expecting a path |
| Cli.FrontEndNeverConvertsSvg | fileconvert.py:523-526 | the front end never reaches `convert_svg` |
| Cli.RequestCallsAreWellFormed | fileconvert.py:580-585 | for any non-empty file list `main` passes on, `convert_file` never hits the index error and never hands a list to a handler expecting a path |
| Cli.RequestNeverConvertsSvg | fileconvert.py:523-526 | a non-empty, all-supported file list that `main` passes on never selects `convert_svg` |

## Left out

- The library work of every handler is not modelled: the image, PDF, docx, pandas, YAML/JSON, markdown, archive, moviepy and pdfkit calls. Its outcome is a parameter saying what the call raises.
- The tool probes `check_ffmpeg` and `check_command` run subprocesses. They are replaced by the booleans of `Convert.Tools`. The `import cairosvg` attempt in `convert_svg` is the fourth boolean.
- `Batch.Converter`: one `Convert.Tools` value serves the whole listing, so an `import cairosvg` whose outcome changes between files is not modelled.
- `get_project_requirements` is not modelled: it only writes `requirements.txt` from the installed packages.
- Logging is not modelled. Printing is modelled only as the messages carried by the failures, the prompt retries and the batch reports (`Batch.ReportLine`, `Cli.Report`).
- The interactive loops of `main` and `prompt_for_files` are not modelled, nor is `show_help`. Only one round of the prompt and the decision `main` makes on it are modelled.
- The RGBA-to-RGB compositing in `images_to_pdf` is pixel work inside PIL and is not modelled.
- `convert_pdf_to_image`'s "No images extracted" error is not modelled: the chain never selects that handler (`Dispatch.Reachability`).
- `Paths.Lower`: only ASCII letters are lowered; Python's `str.lower` also maps non-ASCII letters.
- `Paths.SplitExt` and `Paths.Join`: only POSIX path rules are modelled, not Windows separators or drives.
- `Convert.Run`: the pandoc and calibre handlers ignore the exit status of the command they run. Once the tool is present they are modelled as succeeding.
- `Convert.Run`: a list that reaches a handler other than the data-format and command-running ones is left to the library outcome parameter.
- `Convert.Message`: `NotAPath` carries Python's own `TypeError` text for a list used as a path, since no text is written for it in the program.
- `Convert.Run`: `convert_data_format` recomputes the lowered extensions from its two paths. The model takes them from the key, which is the same for a single path. For a list it fails before comparing them.
- `Formats.AdvertisedKey`: that each key and target of the two tables is a plain lower-case extension, so that the key comes from a real pair of paths, is not proved row by row; `Offers.AdvertisedKeyOfPaths` and `Offers.AdvertisedIsConverted` take plainness as their precondition and prove what follows for every such key and target.
- `test_fileconvert.py` is not modelled: its tests call single library-backed handlers and check only that an output file exists.

