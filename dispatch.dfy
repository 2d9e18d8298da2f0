/** The handler choice made by `convert_file`: an ordered chain of tests on the
    lowered input and output extensions, where the first test that holds picks the
    handler. `Select` is that chain as written; `Rules` is the same chain as a table
    of guards, and `SelectIsFirstMatch` proves the two agree on every key, so that
    precedence and shadowing can be argued on the table. */
module Dispatch {
  import opened Paths

  /** One constructor per conversion routine the chain can call. */
  datatype Handler =
    | ImagesToPdf | WordToPdf | PdfToText | TextToWord | ConvertImage | ConvertPdf
    | ConvertVideo | ConvertDocxToPdf | ConvertAudio | ConvertDataFormat | ConvertSvg
    | ConvertPdfToImage | ExcelToCsv | CsvToExcel | CsvToJson | JsonToCsv | JsonToYaml
    | YamlToJson | MarkdownToHtml | MarkdownToPdf | HtmlToMarkdown | EpubToPdf
    | CompressZip | ExtractZip | CompressRar | ExtractRar | Compress7z | Extract7z
    | PdfToWord | HtmlToPdf | ExtractAudioFromVideo
    | Unsupported

  /** What the chain looks at: whether the input is a list, the lowered extensions of
      the (first) input and of the output, and whether the lowered output path ends
      in ".pdf". */
  datatype Key = Key(isList: bool, inExt: string, outExt: string, outPdf: bool)

  /** The relation between `outExt` and `outPdf` that holds for every key derived
      from real paths (see `Convert.KeyOf`). */
  predicate Coherent(k: Key)
  {
    && (k.outExt == ".pdf" ==> k.outPdf)
    && (k.outPdf ==> k.outExt == ".pdf" || k.outExt == "")
  }

  const RasterExts: seq<string> := [".png", ".jpg", ".jpeg", ".tiff"]
  const ImageExts: seq<string> := [".png", ".jpg", ".jpeg", ".tiff", ".heic", ".webp", ".gif", ".bmp"]
  const ImageExtsLate: seq<string> := [".png", ".jpg", ".jpeg", ".tiff", ".bmp", ".gif"]
  const VideoExts: seq<string> := [".mp4", ".mov", ".avi", ".mkv", ".webm", ".flv", ".wmv"]
  const AudioExts: seq<string> := [".mp3", ".wav", ".ogg", ".flac", ".aac", ".m4a", ".wma"]
  const DataInExts: seq<string> := [".json", ".yaml", ".csv", ".xlsx", ".xml"]
  const DataOutExts: seq<string> := [".json", ".yaml", ".csv", ".xlsx"]
  const ClipExts: seq<string> := [".mp4", ".avi", ".mov", ".mkv"]
  const SoundtrackExts: seq<string> := [".mp3", ".wav"]

  /** The if/elif chain of `convert_file`, branch for branch. */
  function Select(k: Key): Handler
  {
    var i, o := k.inExt, k.outExt;
    if k.isList && k.outPdf then ImagesToPdf
    else if i in RasterExts && o == ".pdf" then ImagesToPdf
    else if i == ".docx" && o == ".pdf" then WordToPdf
    else if i == ".pdf" && o == ".txt" then PdfToText
    else if i == ".txt" && o == ".docx" then TextToWord
    else if i in ImageExts then ConvertImage
    else if i == ".pdf" then ConvertPdf
    else if i in VideoExts then ConvertVideo
    else if i == ".docx" && o == ".pdf" then ConvertDocxToPdf
    else if i in AudioExts then ConvertAudio
    else if i in DataInExts && o in DataOutExts then ConvertDataFormat
    else if i == ".svg" && o in RasterExts then ConvertSvg
    else if i in ImageExtsLate then ConvertImage
    else if i == ".pdf" && o in RasterExts then ConvertPdfToImage
    else if i == ".xlsx" && o == ".csv" then ExcelToCsv
    else if i == ".csv" && o == ".xlsx" then CsvToExcel
    else if i == ".csv" && o == ".json" then CsvToJson
    else if i == ".json" && o == ".csv" then JsonToCsv
    else if i == ".json" && o == ".yaml" then JsonToYaml
    else if i == ".yaml" && o == ".json" then YamlToJson
    else if i == ".md" && o == ".html" then MarkdownToHtml
    else if i == ".md" && o == ".pdf" then MarkdownToPdf
    else if i == ".html" && o == ".md" then HtmlToMarkdown
    else if i == ".epub" && o == ".pdf" then EpubToPdf
    else if o == ".zip" then CompressZip
    else if i == ".zip" then ExtractZip
    else if o == ".rar" then CompressRar
    else if i == ".rar" then ExtractRar
    else if o == ".7z" then Compress7z
    else if i == ".7z" then Extract7z
    else if i == ".pdf" && o == ".docx" then PdfToWord
    else if i == ".html" && o == ".pdf" then HtmlToPdf
    else if i in ClipExts && o in SoundtrackExts then ExtractAudioFromVideo
    else Unsupported
  }

  // ---------------------------------------------------------------------------
  // The chain as a table of guards

  /** A set of extensions a guard accepts: any extension, or one of a list. */
  datatype ExtSet = AnyExt | OneOf(exts: seq<string>)

  /** The first branch tests the input's type and the output path; every other
      branch tests the two extensions. */
  datatype Guard = ListToPdf | Exts(input: ExtSet, output: ExtSet)

  /** A branch of the chain, with the source line of its test. */
  datatype Rule = Rule(line: nat, guard: Guard, handler: Handler)

  predicate InSet(s: ExtSet, e: string)
  {
    match s
    case AnyExt => true
    case OneOf(exts) => e in exts
  }

  predicate Matches(g: Guard, k: Key)
  {
    match g
    case ListToPdf => k.isList && k.outPdf
    case Exts(ins, outs) => InSet(ins, k.inExt) && InSet(outs, k.outExt)
  }

  function Pair(i: string, o: string): Guard
  {
    Exts(OneOf([i]), OneOf([o]))
  }

  /** The branches in source order; `RuleAt(i)` is the branch tested i-th. */
  function RuleAt(i: int): Rule
    requires 0 <= i < RuleCount
  {
    match i
    case 0 => Rule(358, ListToPdf, ImagesToPdf)
    case 1 => Rule(360, Exts(OneOf(RasterExts), OneOf([".pdf"])), ImagesToPdf)
    case 2 => Rule(362, Pair(".docx", ".pdf"), WordToPdf)
    case 3 => Rule(364, Pair(".pdf", ".txt"), PdfToText)
    case 4 => Rule(366, Pair(".txt", ".docx"), TextToWord)
    case 5 => Rule(368, Exts(OneOf(ImageExts), AnyExt), ConvertImage)
    case 6 => Rule(379, Exts(OneOf([".pdf"]), AnyExt), ConvertPdf)
    case 7 => Rule(381, Exts(OneOf(VideoExts), AnyExt), ConvertVideo)
    case 8 => Rule(383, Pair(".docx", ".pdf"), ConvertDocxToPdf)
    case 9 => Rule(385, Exts(OneOf(AudioExts), AnyExt), ConvertAudio)
    case 10 => Rule(387, Exts(OneOf(DataInExts), OneOf(DataOutExts)), ConvertDataFormat)
    case 11 => Rule(394, Exts(OneOf([".svg"]), OneOf(RasterExts)), ConvertSvg)
    case 12 => Rule(396, Exts(OneOf(ImageExtsLate), AnyExt), ConvertImage)
    case 13 => Rule(398, Exts(OneOf([".pdf"]), OneOf(RasterExts)), ConvertPdfToImage)
    case 14 => Rule(400, Pair(".xlsx", ".csv"), ExcelToCsv)
    case 15 => Rule(402, Pair(".csv", ".xlsx"), CsvToExcel)
    case 16 => Rule(404, Pair(".csv", ".json"), CsvToJson)
    case 17 => Rule(406, Pair(".json", ".csv"), JsonToCsv)
    case 18 => Rule(408, Pair(".json", ".yaml"), JsonToYaml)
    case 19 => Rule(410, Pair(".yaml", ".json"), YamlToJson)
    case 20 => Rule(412, Pair(".md", ".html"), MarkdownToHtml)
    case 21 => Rule(414, Pair(".md", ".pdf"), MarkdownToPdf)
    case 22 => Rule(416, Pair(".html", ".md"), HtmlToMarkdown)
    case 23 => Rule(418, Pair(".epub", ".pdf"), EpubToPdf)
    case 24 => Rule(420, Exts(AnyExt, OneOf([".zip"])), CompressZip)
    case 25 => Rule(422, Exts(OneOf([".zip"]), AnyExt), ExtractZip)
    case 26 => Rule(424, Exts(AnyExt, OneOf([".rar"])), CompressRar)
    case 27 => Rule(426, Exts(OneOf([".rar"]), AnyExt), ExtractRar)
    case 28 => Rule(428, Exts(AnyExt, OneOf([".7z"])), Compress7z)
    case 29 => Rule(430, Exts(OneOf([".7z"]), AnyExt), Extract7z)
    case 30 => Rule(432, Pair(".pdf", ".docx"), PdfToWord)
    case 31 => Rule(434, Pair(".html", ".pdf"), HtmlToPdf)
    case _ => Rule(436, Exts(OneOf(ClipExts), OneOf(SoundtrackExts)), ExtractAudioFromVideo)
  }

  const RuleCount: nat := 33

  /** The whole chain as a sequence of rules. */
  function Rules(): (r: seq<Rule>)
    ensures |r| == RuleCount
    ensures forall i :: 0 <= i < RuleCount ==> r[i] == RuleAt(i)
  {
    seq(RuleCount, RuleAt)
  }

  datatype Found = NoMatch | At(index: nat)

  /** The index of the first rule at or after `from` whose guard holds. */
  function FirstMatchFrom(rules: seq<Rule>, k: Key, from: nat): (r: Found)
    requires from <= |rules|
    ensures r.At? ==> from <= r.index < |rules|
    decreases |rules| - from
  {
    if from == |rules| then NoMatch
    else if Matches(rules[from].guard, k) then At(from)
    else FirstMatchFrom(rules, k, from + 1)
  }

  /** The search finds a rule whose guard holds with no earlier guard (from `from`
      on) holding, and finds nothing only when no guard holds. */
  lemma {:induction false} FirstMatchFromSpec(rules: seq<Rule>, k: Key, from: nat)
    requires from <= |rules|
    ensures var r := FirstMatchFrom(rules, k, from);
            && (r.At? ==> from <= r.index < |rules| && Matches(rules[r.index].guard, k))
            && (r.At? ==> forall j :: from <= j < r.index ==> !Matches(rules[j].guard, k))
            && (r.NoMatch? ==> forall j :: from <= j < |rules| ==> !Matches(rules[j].guard, k))
    decreases |rules| - from
  {
    if from < |rules| && !Matches(rules[from].guard, k) {
      FirstMatchFromSpec(rules, k, from + 1);
    }
  }

  function FirstMatch(rules: seq<Rule>, k: Key): Found
  {
    FirstMatchFrom(rules, k, 0)
  }

  /** The handler of the first matching rule, `Unsupported` when none matches. */
  function TableSelect(k: Key): Handler
  {
    SelectFrom(k, 0)
  }

  /** The first match is the only index whose guard holds with no earlier guard
      holding: the table has one meaning. */
  lemma FirstMatchUnique(rules: seq<Rule>, k: Key, i: nat)
    requires i < |rules| && Matches(rules[i].guard, k)
    requires forall j :: 0 <= j < i ==> !Matches(rules[j].guard, k)
    ensures FirstMatch(rules, k) == At(i)
  {
    FirstMatchFromSpec(rules, k, 0);
  }

  /** The handler picked by the first rule at or after `from` that matches. */
  function SelectFrom(k: Key, from: nat): Handler
    requires from <= RuleCount
  {
    match FirstMatchFrom(Rules(), k, from)
    case NoMatch => Unsupported
    case At(i) => Rules()[i].handler
  }

  lemma SelectFromStep(k: Key, i: nat)
    requires i < RuleCount
    ensures SelectFrom(k, i)
            == if Matches(RuleAt(i).guard, k) then RuleAt(i).handler else SelectFrom(k, i + 1)
  {
  }

  // The agreement proof goes through the chain a few branches at a time: each lemma
  // below unfolds the table search over one stretch of branches and reads off what
  // each of those guards tests.

  lemma ListRasterDocxPdfBranches(k: Key)
    ensures SelectFrom(k, 0) ==
            if k.isList && k.outPdf then ImagesToPdf
            else if k.inExt in RasterExts && k.outExt == ".pdf" then ImagesToPdf
            else if k.inExt == ".docx" && k.outExt == ".pdf" then WordToPdf
            else if k.inExt == ".pdf" && k.outExt == ".txt" then PdfToText
            else SelectFrom(k, 4)
  {
    SelectFromStep(k, 0); SelectFromStep(k, 1); SelectFromStep(k, 2); SelectFromStep(k, 3);
    assert Matches(RuleAt(0).guard, k) <==> k.isList && k.outPdf;
    assert Matches(RuleAt(1).guard, k) <==> k.inExt in RasterExts && k.outExt == ".pdf";
    assert Matches(RuleAt(2).guard, k) <==> k.inExt == ".docx" && k.outExt == ".pdf";
    assert Matches(RuleAt(3).guard, k) <==> k.inExt == ".pdf" && k.outExt == ".txt";
  }

  lemma TextImagePdfBranches(k: Key)
    ensures SelectFrom(k, 4) ==
            if k.inExt == ".txt" && k.outExt == ".docx" then TextToWord
            else if k.inExt in ImageExts then ConvertImage
            else if k.inExt == ".pdf" then ConvertPdf
            else SelectFrom(k, 7)
  {
    SelectFromStep(k, 4); SelectFromStep(k, 5); SelectFromStep(k, 6);
    assert Matches(RuleAt(4).guard, k) <==> k.inExt == ".txt" && k.outExt == ".docx";
    assert Matches(RuleAt(5).guard, k) <==> k.inExt in ImageExts;
    assert Matches(RuleAt(6).guard, k) <==> k.inExt == ".pdf";
  }

  lemma VideoDocxAudioBranches(k: Key)
    ensures SelectFrom(k, 7) ==
            if k.inExt in VideoExts then ConvertVideo
            else if k.inExt == ".docx" && k.outExt == ".pdf" then ConvertDocxToPdf
            else if k.inExt in AudioExts then ConvertAudio
            else SelectFrom(k, 10)
  {
    SelectFromStep(k, 7); SelectFromStep(k, 8); SelectFromStep(k, 9);
    assert Matches(RuleAt(7).guard, k) <==> k.inExt in VideoExts;
    assert Matches(RuleAt(8).guard, k) <==> k.inExt == ".docx" && k.outExt == ".pdf";
    assert Matches(RuleAt(9).guard, k) <==> k.inExt in AudioExts;
  }

  lemma DataSvgImageBranches(k: Key)
    ensures SelectFrom(k, 10) ==
            if k.inExt in DataInExts && k.outExt in DataOutExts then ConvertDataFormat
            else if k.inExt == ".svg" && k.outExt in RasterExts then ConvertSvg
            else if k.inExt in ImageExtsLate then ConvertImage
            else SelectFrom(k, 13)
  {
    SelectFromStep(k, 10); SelectFromStep(k, 11); SelectFromStep(k, 12);
    assert Matches(RuleAt(10).guard, k) <==> k.inExt in DataInExts && k.outExt in DataOutExts;
    assert Matches(RuleAt(11).guard, k) <==> k.inExt == ".svg" && k.outExt in RasterExts;
    assert Matches(RuleAt(12).guard, k) <==> k.inExt in ImageExtsLate;
  }

  lemma PdfImageSpreadsheetBranches(k: Key)
    ensures SelectFrom(k, 13) ==
            if k.inExt == ".pdf" && k.outExt in RasterExts then ConvertPdfToImage
            else if k.inExt == ".xlsx" && k.outExt == ".csv" then ExcelToCsv
            else if k.inExt == ".csv" && k.outExt == ".xlsx" then CsvToExcel
            else SelectFrom(k, 16)
  {
    SelectFromStep(k, 13); SelectFromStep(k, 14); SelectFromStep(k, 15);
    assert Matches(RuleAt(13).guard, k) <==> k.inExt == ".pdf" && k.outExt in RasterExts;
    assert Matches(RuleAt(14).guard, k) <==> k.inExt == ".xlsx" && k.outExt == ".csv";
    assert Matches(RuleAt(15).guard, k) <==> k.inExt == ".csv" && k.outExt == ".xlsx";
  }

  lemma CsvJsonBranches(k: Key)
    ensures SelectFrom(k, 16) ==
            if k.inExt == ".csv" && k.outExt == ".json" then CsvToJson
            else if k.inExt == ".json" && k.outExt == ".csv" then JsonToCsv
            else if k.inExt == ".json" && k.outExt == ".yaml" then JsonToYaml
            else SelectFrom(k, 19)
  {
    SelectFromStep(k, 16); SelectFromStep(k, 17); SelectFromStep(k, 18);
    assert Matches(RuleAt(16).guard, k) <==> k.inExt == ".csv" && k.outExt == ".json";
    assert Matches(RuleAt(17).guard, k) <==> k.inExt == ".json" && k.outExt == ".csv";
    assert Matches(RuleAt(18).guard, k) <==> k.inExt == ".json" && k.outExt == ".yaml";
  }

  lemma YamlMarkdownBranches(k: Key)
    ensures SelectFrom(k, 19) ==
            if k.inExt == ".yaml" && k.outExt == ".json" then YamlToJson
            else if k.inExt == ".md" && k.outExt == ".html" then MarkdownToHtml
            else if k.inExt == ".md" && k.outExt == ".pdf" then MarkdownToPdf
            else SelectFrom(k, 22)
  {
    SelectFromStep(k, 19); SelectFromStep(k, 20); SelectFromStep(k, 21);
    assert Matches(RuleAt(19).guard, k) <==> k.inExt == ".yaml" && k.outExt == ".json";
    assert Matches(RuleAt(20).guard, k) <==> k.inExt == ".md" && k.outExt == ".html";
    assert Matches(RuleAt(21).guard, k) <==> k.inExt == ".md" && k.outExt == ".pdf";
  }

  lemma HtmlEpubBranches(k: Key)
    ensures SelectFrom(k, 22) ==
            if k.inExt == ".html" && k.outExt == ".md" then HtmlToMarkdown
            else if k.inExt == ".epub" && k.outExt == ".pdf" then EpubToPdf
            else SelectFrom(k, 24)
  {
    SelectFromStep(k, 22); SelectFromStep(k, 23);
    assert Matches(RuleAt(22).guard, k) <==> k.inExt == ".html" && k.outExt == ".md";
    assert Matches(RuleAt(23).guard, k) <==> k.inExt == ".epub" && k.outExt == ".pdf";
  }

  lemma ZipBranches(k: Key)
    ensures SelectFrom(k, 24) ==
            if k.outExt == ".zip" then CompressZip
            else if k.inExt == ".zip" then ExtractZip
            else SelectFrom(k, 26)
  {
    SelectFromStep(k, 24); SelectFromStep(k, 25);
    assert Matches(RuleAt(24).guard, k) <==> k.outExt == ".zip";
    assert Matches(RuleAt(25).guard, k) <==> k.inExt == ".zip";
  }

  lemma RarBranches(k: Key)
    ensures SelectFrom(k, 26) ==
            if k.outExt == ".rar" then CompressRar
            else if k.inExt == ".rar" then ExtractRar
            else SelectFrom(k, 28)
  {
    SelectFromStep(k, 26); SelectFromStep(k, 27);
    assert Matches(RuleAt(26).guard, k) <==> k.outExt == ".rar";
    assert Matches(RuleAt(27).guard, k) <==> k.inExt == ".rar";
  }

  lemma SevenZipBranches(k: Key)
    ensures SelectFrom(k, 28) ==
            if k.outExt == ".7z" then Compress7z
            else if k.inExt == ".7z" then Extract7z
            else SelectFrom(k, 30)
  {
    SelectFromStep(k, 28); SelectFromStep(k, 29);
    assert Matches(RuleAt(28).guard, k) <==> k.outExt == ".7z";
    assert Matches(RuleAt(29).guard, k) <==> k.inExt == ".7z";
  }

  lemma PdfDocxHtmlBranches(k: Key)
    ensures SelectFrom(k, 30) ==
            if k.inExt == ".pdf" && k.outExt == ".docx" then PdfToWord
            else if k.inExt == ".html" && k.outExt == ".pdf" then HtmlToPdf
            else SelectFrom(k, 32)
  {
    SelectFromStep(k, 30); SelectFromStep(k, 31);
    assert Matches(RuleAt(30).guard, k) <==> k.inExt == ".pdf" && k.outExt == ".docx";
    assert Matches(RuleAt(31).guard, k) <==> k.inExt == ".html" && k.outExt == ".pdf";
  }

  lemma AudioExtractionBranch(k: Key)
    ensures SelectFrom(k, 32) ==
            if k.inExt in ClipExts && k.outExt in SoundtrackExts then ExtractAudioFromVideo
            else SelectFrom(k, 33)
  {
    SelectFromStep(k, 32);
    assert Matches(RuleAt(32).guard, k) <==> k.inExt in ClipExts && k.outExt in SoundtrackExts;
  }

  /** The chain as written and the rule table pick the same handler for every key. */
  lemma {:induction false} SelectIsFirstMatch(k: Key)
    ensures Select(k) == TableSelect(k)
  {
    var i, o := k.inExt, k.outExt;
    if k.isList && k.outPdf {
      ListRasterDocxPdfBranches(k);
    } else if i in RasterExts && o == ".pdf" {
      ListRasterDocxPdfBranches(k);
    } else if i == ".docx" && o == ".pdf" {
      ListRasterDocxPdfBranches(k);
    } else if i == ".pdf" && o == ".txt" {
      ListRasterDocxPdfBranches(k);
    } else if i == ".txt" && o == ".docx" {
      ListRasterDocxPdfBranches(k); TextImagePdfBranches(k);
    } else if i in ImageExts {
      ListRasterDocxPdfBranches(k); TextImagePdfBranches(k);
    } else if i == ".pdf" {
      ListRasterDocxPdfBranches(k); TextImagePdfBranches(k);
    } else if i in VideoExts {
      ListRasterDocxPdfBranches(k); TextImagePdfBranches(k); VideoDocxAudioBranches(k);
    } else if i == ".docx" && o == ".pdf" {
      ListRasterDocxPdfBranches(k); TextImagePdfBranches(k); VideoDocxAudioBranches(k);
    } else if i in AudioExts {
      ListRasterDocxPdfBranches(k); TextImagePdfBranches(k); VideoDocxAudioBranches(k);
    } else if i in DataInExts && o in DataOutExts {
      ListRasterDocxPdfBranches(k); TextImagePdfBranches(k); VideoDocxAudioBranches(k); DataSvgImageBranches(k);
    } else if i == ".svg" && o in RasterExts {
      ListRasterDocxPdfBranches(k); TextImagePdfBranches(k); VideoDocxAudioBranches(k); DataSvgImageBranches(k);
    } else if i in ImageExtsLate {
      ListRasterDocxPdfBranches(k); TextImagePdfBranches(k); VideoDocxAudioBranches(k); DataSvgImageBranches(k);
    } else if i == ".pdf" && o in RasterExts {
      ListRasterDocxPdfBranches(k); TextImagePdfBranches(k); VideoDocxAudioBranches(k); DataSvgImageBranches(k); PdfImageSpreadsheetBranches(k);
    } else if i == ".xlsx" && o == ".csv" {
      ListRasterDocxPdfBranches(k); TextImagePdfBranches(k); VideoDocxAudioBranches(k); DataSvgImageBranches(k); PdfImageSpreadsheetBranches(k);
    } else if i == ".csv" && o == ".xlsx" {
      ListRasterDocxPdfBranches(k); TextImagePdfBranches(k); VideoDocxAudioBranches(k); DataSvgImageBranches(k); PdfImageSpreadsheetBranches(k);
    } else if i == ".csv" && o == ".json" {
      ListRasterDocxPdfBranches(k); TextImagePdfBranches(k); VideoDocxAudioBranches(k); DataSvgImageBranches(k); PdfImageSpreadsheetBranches(k); CsvJsonBranches(k);
    } else if i == ".json" && o == ".csv" {
      ListRasterDocxPdfBranches(k); TextImagePdfBranches(k); VideoDocxAudioBranches(k); DataSvgImageBranches(k); PdfImageSpreadsheetBranches(k); CsvJsonBranches(k);
    } else if i == ".json" && o == ".yaml" {
      ListRasterDocxPdfBranches(k); TextImagePdfBranches(k); VideoDocxAudioBranches(k); DataSvgImageBranches(k); PdfImageSpreadsheetBranches(k); CsvJsonBranches(k);
    } else if i == ".yaml" && o == ".json" {
      ListRasterDocxPdfBranches(k); TextImagePdfBranches(k); VideoDocxAudioBranches(k); DataSvgImageBranches(k); PdfImageSpreadsheetBranches(k); CsvJsonBranches(k); YamlMarkdownBranches(k);
    } else if i == ".md" && o == ".html" {
      ListRasterDocxPdfBranches(k); TextImagePdfBranches(k); VideoDocxAudioBranches(k); DataSvgImageBranches(k); PdfImageSpreadsheetBranches(k); CsvJsonBranches(k); YamlMarkdownBranches(k);
    } else if i == ".md" && o == ".pdf" {
      ListRasterDocxPdfBranches(k); TextImagePdfBranches(k); VideoDocxAudioBranches(k); DataSvgImageBranches(k); PdfImageSpreadsheetBranches(k); CsvJsonBranches(k); YamlMarkdownBranches(k);
    } else if i == ".html" && o == ".md" {
      ListRasterDocxPdfBranches(k); TextImagePdfBranches(k); VideoDocxAudioBranches(k); DataSvgImageBranches(k); PdfImageSpreadsheetBranches(k); CsvJsonBranches(k); YamlMarkdownBranches(k); HtmlEpubBranches(k);
    } else if i == ".epub" && o == ".pdf" {
      ListRasterDocxPdfBranches(k); TextImagePdfBranches(k); VideoDocxAudioBranches(k); DataSvgImageBranches(k); PdfImageSpreadsheetBranches(k); CsvJsonBranches(k); YamlMarkdownBranches(k); HtmlEpubBranches(k);
    } else if o == ".zip" {
      ListRasterDocxPdfBranches(k); TextImagePdfBranches(k); VideoDocxAudioBranches(k); DataSvgImageBranches(k); PdfImageSpreadsheetBranches(k); CsvJsonBranches(k); YamlMarkdownBranches(k); HtmlEpubBranches(k); ZipBranches(k);
    } else if i == ".zip" {
      ListRasterDocxPdfBranches(k); TextImagePdfBranches(k); VideoDocxAudioBranches(k); DataSvgImageBranches(k); PdfImageSpreadsheetBranches(k); CsvJsonBranches(k); YamlMarkdownBranches(k); HtmlEpubBranches(k); ZipBranches(k);
    } else if o == ".rar" {
      ListRasterDocxPdfBranches(k); TextImagePdfBranches(k); VideoDocxAudioBranches(k); DataSvgImageBranches(k); PdfImageSpreadsheetBranches(k); CsvJsonBranches(k); YamlMarkdownBranches(k); HtmlEpubBranches(k); ZipBranches(k); RarBranches(k);
    } else if i == ".rar" {
      ListRasterDocxPdfBranches(k); TextImagePdfBranches(k); VideoDocxAudioBranches(k); DataSvgImageBranches(k); PdfImageSpreadsheetBranches(k); CsvJsonBranches(k); YamlMarkdownBranches(k); HtmlEpubBranches(k); ZipBranches(k); RarBranches(k);
    } else if o == ".7z" {
      ListRasterDocxPdfBranches(k); TextImagePdfBranches(k); VideoDocxAudioBranches(k); DataSvgImageBranches(k); PdfImageSpreadsheetBranches(k); CsvJsonBranches(k); YamlMarkdownBranches(k); HtmlEpubBranches(k); ZipBranches(k); RarBranches(k); SevenZipBranches(k);
    } else if i == ".7z" {
      ListRasterDocxPdfBranches(k); TextImagePdfBranches(k); VideoDocxAudioBranches(k); DataSvgImageBranches(k); PdfImageSpreadsheetBranches(k); CsvJsonBranches(k); YamlMarkdownBranches(k); HtmlEpubBranches(k); ZipBranches(k); RarBranches(k); SevenZipBranches(k);
    } else if i == ".pdf" && o == ".docx" {
      ListRasterDocxPdfBranches(k); TextImagePdfBranches(k); VideoDocxAudioBranches(k); DataSvgImageBranches(k); PdfImageSpreadsheetBranches(k); CsvJsonBranches(k); YamlMarkdownBranches(k); HtmlEpubBranches(k); ZipBranches(k); RarBranches(k); SevenZipBranches(k); PdfDocxHtmlBranches(k);
    } else if i == ".html" && o == ".pdf" {
      ListRasterDocxPdfBranches(k); TextImagePdfBranches(k); VideoDocxAudioBranches(k); DataSvgImageBranches(k); PdfImageSpreadsheetBranches(k); CsvJsonBranches(k); YamlMarkdownBranches(k); HtmlEpubBranches(k); ZipBranches(k); RarBranches(k); SevenZipBranches(k); PdfDocxHtmlBranches(k);
    } else if i in ClipExts && o in SoundtrackExts {
      ListRasterDocxPdfBranches(k); TextImagePdfBranches(k); VideoDocxAudioBranches(k); DataSvgImageBranches(k); PdfImageSpreadsheetBranches(k); CsvJsonBranches(k); YamlMarkdownBranches(k); HtmlEpubBranches(k); ZipBranches(k); RarBranches(k); SevenZipBranches(k); PdfDocxHtmlBranches(k); AudioExtractionBranch(k);
    } else {
      ListRasterDocxPdfBranches(k); TextImagePdfBranches(k); VideoDocxAudioBranches(k); DataSvgImageBranches(k); PdfImageSpreadsheetBranches(k); CsvJsonBranches(k); YamlMarkdownBranches(k); HtmlEpubBranches(k); ZipBranches(k); RarBranches(k); SevenZipBranches(k); PdfDocxHtmlBranches(k); AudioExtractionBranch(k);
    }
  }

  // ---------------------------------------------------------------------------
  // Precedence: which rules can never fire

  /** Every extension `b` accepts, `a` accepts too. */
  predicate SetCovers(a: ExtSet, b: ExtSet)
  {
    match (a, b)
    case (AnyExt, _) => true
    case (OneOf(_), AnyExt) => false
    case (OneOf(xs), OneOf(ys)) => forall y :: y in ys ==> y in xs
  }

  /** Every key `b` matches, `a` matches too. */
  predicate Covers(a: Guard, b: Guard)
  {
    match (a, b)
    case (ListToPdf, ListToPdf) => true
    case (Exts(i1, o1), Exts(i2, o2)) => SetCovers(i1, i2) && SetCovers(o1, o2)
    case _ => false
  }

  lemma CoversSound(a: Guard, b: Guard, k: Key)
    requires Covers(a, b) && Matches(b, k)
    ensures Matches(a, k)
  {
  }

  /** A rule whose guard is covered by an earlier rule's guard is never the first
      match, whatever the key. */
  lemma {:induction false} CoveredNeverFirst(rules: seq<Rule>, j: nat, i: nat, k: Key)
    requires j < i < |rules|
    requires Covers(rules[j].guard, rules[i].guard)
    ensures FirstMatch(rules, k) != At(i)
  {
    FirstMatchFromSpec(rules, k, 0);
    if FirstMatch(rules, k) == At(i) {
      CoversSound(rules[j].guard, rules[i].guard, k);
      assert false;
    }
  }

  /** The source lines of the branches an earlier branch makes unreachable. */
  const ShadowedLines: seq<nat> := [383, 396, 398, 400, 402, 404, 406, 408, 410, 432, 436]

  /** For each unreachable branch, the earlier branch that covers it: docx to pdf is
      taken at 362, the late image test at 368, the pdf pairs at 379, the data pairs
      at 387 and the audio extraction at 381. */
  function ShadowingRule(i: nat): (j: nat)
    requires i < RuleCount && RuleAt(i).line in ShadowedLines
    ensures j < i && Covers(RuleAt(j).guard, RuleAt(i).guard)
  {
    match i
    case 8 => 2
    case 12 => 5
    case 13 => 6
    case 30 => 6
    case 32 => 7
    case _ => 10
  }

  /** The branches at the shadowed lines never pick a handler. */
  lemma ShadowedNeverFirst(k: Key, i: nat)
    requires i < RuleCount && RuleAt(i).line in ShadowedLines
    ensures FirstMatch(Rules(), k) != At(i)
  {
    CoveredNeverFirst(Rules(), ShadowingRule(i), i, k);
  }

  /** The single-image branch (line 360) never sees a list: a list whose output has
      extension ".pdf" is taken by the first branch. */
  lemma SingleImageBranchNeverList(k: Key)
    requires Coherent(k) && FirstMatch(Rules(), k) == At(1)
    ensures !k.isList && k.inExt in RasterExts && k.outExt == ".pdf"
  {
    FirstMatchFromSpec(Rules(), k, 0);
    assert !Matches(RuleAt(0).guard, k);
  }

  // ---------------------------------------------------------------------------
  // Precedence seen from the handlers

  /** The handlers the chain names but never picks. */
  const DeadHandlers: seq<Handler> := [
    ConvertDocxToPdf, ConvertPdfToImage, ExcelToCsv, CsvToExcel, CsvToJson, JsonToCsv,
    JsonToYaml, YamlToJson, PdfToWord, ExtractAudioFromVideo
  ]

  /** No key selects a dead handler: the document and data-format ones are shadowed
      by earlier branches on the same extensions. */
  lemma DeadDocumentHandlers(k: Key)
    ensures Select(k) != ConvertDocxToPdf && Select(k) != ConvertPdfToImage
    ensures Select(k) != PdfToWord && Select(k) != ExtractAudioFromVideo
  {
  }

  lemma DeadDataHandlers(k: Key)
    ensures Select(k) != ExcelToCsv && Select(k) != CsvToExcel && Select(k) != CsvToJson
    ensures Select(k) != JsonToCsv && Select(k) != JsonToYaml && Select(k) != YamlToJson
  {
  }

  lemma DeadHandlersNeverSelected(k: Key)
    ensures Select(k) !in DeadHandlers
  {
    DeadDocumentHandlers(k);
    DeadDataHandlers(k);
  }

  /** A concrete, coherent key for every handler that can be selected. */
  function Witness(h: Handler): Key
  {
    match h
    case WordToPdf => Key(false, ".docx", ".pdf", true)
    case PdfToText => Key(false, ".pdf", ".txt", false)
    case TextToWord => Key(false, ".txt", ".docx", false)
    case ConvertImage => Key(false, ".heic", ".png", false)
    case ConvertPdf => Key(false, ".pdf", ".png", false)
    case ConvertVideo => Key(false, ".mp4", ".mp3", false)
    case ConvertAudio => Key(false, ".wav", ".mp3", false)
    case ConvertDataFormat => Key(false, ".csv", ".json", false)
    case ConvertSvg => Key(false, ".svg", ".png", false)
    case MarkdownToHtml => Key(false, ".md", ".html", false)
    case MarkdownToPdf => Key(false, ".md", ".pdf", true)
    case HtmlToMarkdown => Key(false, ".html", ".md", false)
    case EpubToPdf => Key(false, ".epub", ".pdf", true)
    case CompressZip => Key(false, ".txt", ".zip", false)
    case ExtractZip => Key(false, ".zip", "", false)
    case CompressRar => Key(false, ".txt", ".rar", false)
    case ExtractRar => Key(false, ".rar", "", false)
    case Compress7z => Key(false, ".txt", ".7z", false)
    case Extract7z => Key(false, ".7z", "", false)
    case HtmlToPdf => Key(false, ".html", ".pdf", true)
    case Unsupported => Key(false, ".txt", ".png", false)
    case _ => Key(false, ".png", ".pdf", true)
  }

  predicate Witnesses(h: Handler)
  {
    Coherent(Witness(h)) && Select(Witness(h)) == h
  }

  /** An extension none of the chain's extension lists contains, so that only the
      branches testing it by name can take it. */
  predicate Unlisted(e: string)
  {
    && e !in RasterExts && e !in ImageExts && e !in ImageExtsLate && e !in VideoExts
    && e !in AudioExts && e !in DataInExts && e !in ClipExts
  }

  lemma TxtUnlisted() ensures Unlisted(".txt") {}
  lemma SvgUnlisted() ensures Unlisted(".svg") {}
  lemma MdUnlisted() ensures Unlisted(".md") {}
  lemma HtmlUnlisted() ensures Unlisted(".html") {}
  lemma EpubUnlisted() ensures Unlisted(".epub") {}
  lemma ZipUnlisted() ensures Unlisted(".zip") {}
  lemma RarUnlisted() ensures Unlisted(".rar") {}
  lemma SevenZipUnlisted() ensures Unlisted(".7z") {}

  // One lemma per witness: evaluating the chain on several concrete keys in one
  // proof costs far more than evaluating it on each separately.
  lemma WitnessImagesToPdf() ensures Witnesses(ImagesToPdf) {}
  lemma WitnessWordToPdf() ensures Witnesses(WordToPdf) {}
  lemma WitnessPdfToText() ensures Witnesses(PdfToText) {}
  lemma WitnessTextToWord() ensures Witnesses(TextToWord) {}
  lemma WitnessConvertImage() ensures Witnesses(ConvertImage) {}
  lemma WitnessConvertPdf() ensures Witnesses(ConvertPdf) {}
  lemma WitnessConvertVideo() ensures Witnesses(ConvertVideo) {}
  lemma WitnessConvertAudio() ensures Witnesses(ConvertAudio) {}
  lemma WitnessConvertDataFormat() ensures Witnesses(ConvertDataFormat) {}
  lemma WitnessConvertSvg() ensures Witnesses(ConvertSvg) { SvgUnlisted(); }
  lemma WitnessMarkdownToHtml() ensures Witnesses(MarkdownToHtml) { MdUnlisted(); }
  lemma WitnessMarkdownToPdf() ensures Witnesses(MarkdownToPdf) { MdUnlisted(); }
  lemma WitnessHtmlToMarkdown() ensures Witnesses(HtmlToMarkdown) { HtmlUnlisted(); }
  lemma WitnessEpubToPdf() ensures Witnesses(EpubToPdf) { EpubUnlisted(); }
  lemma WitnessHtmlToPdf() ensures Witnesses(HtmlToPdf) { HtmlUnlisted(); }
  lemma WitnessUnsupported() ensures Witnesses(Unsupported) { TxtUnlisted(); }
  lemma WitnessCompressZip() ensures Witnesses(CompressZip) { TxtUnlisted(); }
  lemma WitnessExtractZip() ensures Witnesses(ExtractZip) { ZipUnlisted(); }
  lemma WitnessCompressRar() ensures Witnesses(CompressRar) { TxtUnlisted(); }
  lemma WitnessExtractRar() ensures Witnesses(ExtractRar) { RarUnlisted(); }
  lemma WitnessCompress7z() ensures Witnesses(Compress7z) { TxtUnlisted(); }
  lemma WitnessExtract7z() ensures Witnesses(Extract7z) { SevenZipUnlisted(); }

  /** Every handler that is not dead is picked on its witness key. */
  lemma WitnessSelects(h: Handler)
    requires h !in DeadHandlers
    ensures Witnesses(h)
  {
    match h {
      case ImagesToPdf => WitnessImagesToPdf();
      case WordToPdf => WitnessWordToPdf();
      case PdfToText => WitnessPdfToText();
      case TextToWord => WitnessTextToWord();
      case ConvertImage => WitnessConvertImage();
      case ConvertPdf => WitnessConvertPdf();
      case ConvertVideo => WitnessConvertVideo();
      case ConvertAudio => WitnessConvertAudio();
      case ConvertDataFormat => WitnessConvertDataFormat();
      case ConvertSvg => WitnessConvertSvg();
      case MarkdownToHtml => WitnessMarkdownToHtml();
      case MarkdownToPdf => WitnessMarkdownToPdf();
      case HtmlToMarkdown => WitnessHtmlToMarkdown();
      case EpubToPdf => WitnessEpubToPdf();
      case HtmlToPdf => WitnessHtmlToPdf();
      case Unsupported => WitnessUnsupported();
      case CompressZip => WitnessCompressZip();
      case ExtractZip => WitnessExtractZip();
      case CompressRar => WitnessCompressRar();
      case ExtractRar => WitnessExtractRar();
      case Compress7z => WitnessCompress7z();
      case Extract7z => WitnessExtract7z();
    }
  }

  /** The witness keys are those of one path and one output path: their extensions
      are plain, and the output counts as PDF exactly when its extension is ".pdf". */
  lemma WitnessPlain(h: Handler)
    ensures !Witness(h).isList && PlainExt(Witness(h).inExt) && PlainExt(Witness(h).outExt)
    ensures Witness(h).outPdf == (Witness(h).outExt == ".pdf")
  {
    WitnessInputPlain(h);
    WitnessOutputPlain(h);
  }

  lemma WitnessInputPlain(h: Handler)
    ensures PlainExt(Witness(h).inExt)
  {
  }

  lemma WitnessOutputPlain(h: Handler)
    ensures PlainExt(Witness(h).outExt)
  {
  }

  /** A handler can be selected by a coherent key exactly when it is not dead. */
  lemma Reachability(h: Handler)
    ensures (exists k :: Coherent(k) && Select(k) == h) <==> h !in DeadHandlers
  {
    if h !in DeadHandlers {
      WitnessSelects(h);
      var k := Witness(h);
      assert Coherent(k) && Select(k) == h;
    } else {
      forall k ensures Select(k) != h {
        DeadHandlersNeverSelected(k);
      }
    }
  }

  /** The first branch takes any list with a ".pdf" output, whatever the list
      holds: the inputs are not checked to be images. */
  lemma ListToPdfTakesAnyInput(k: Key)
    requires k.isList && k.outPdf
    ensures Select(k) == ImagesToPdf
  {
  }

  /** A single raster image with a ".pdf" output goes to `images_to_pdf`, never to
      `convert_image`. */
  lemma RasterToPdfIsImagesToPdf(k: Key)
    requires Coherent(k) && k.inExt in RasterExts && k.outExt == ".pdf"
    ensures Select(k) == ImagesToPdf
  {
  }

  /** The input families by which the chain decides before it looks at archives. */
  predicate FamilyInput(e: string)
  {
    e in ImageExts || e == ".pdf" || e in VideoExts || e in AudioExts
  }

  /** The late image list and the raster list add nothing to the image list. */
  lemma ImageListsIncluded()
    ensures forall e :: e in ImageExtsLate ==> e in ImageExts
    ensures forall e :: e in RasterExts ==> e in ImageExts
  {
  }

  /** An archive extension is in none of the lists the chain tests outputs against. */
  predicate NoOutputList(e: string)
  {
    e !in DataOutExts && e !in RasterExts && e !in SoundtrackExts
  }

  lemma ArchiveOutputsUnlisted()
    ensures NoOutputList(".zip") && NoOutputList(".rar") && NoOutputList(".7z")
  {
  }

  /** The archive branches fire only when no earlier branch did; each is keyed on
      one side, so the ones before it in the chain take precedence. */
  lemma ZipPrecedence(k: Key)
    requires !(k.isList && k.outPdf)
    ensures Select(k) == CompressZip <==> k.outExt == ".zip" && !FamilyInput(k.inExt)
    ensures Select(k) == ExtractZip <==> k.inExt == ".zip" && k.outExt != ".zip"
  {
    ImageListsIncluded();
    ArchiveOutputsUnlisted();
  }

  lemma RarPrecedence(k: Key)
    requires !(k.isList && k.outPdf)
    ensures Select(k) == CompressRar <==>
              k.outExt == ".rar" && !FamilyInput(k.inExt) && k.inExt != ".zip"
    ensures Select(k) == ExtractRar <==>
              k.inExt == ".rar" && k.outExt != ".zip" && k.outExt != ".rar"
  {
    ImageListsIncluded();
    ArchiveOutputsUnlisted();
  }

  lemma SevenZipPrecedence(k: Key)
    requires !(k.isList && k.outPdf)
    ensures Select(k) == Compress7z <==>
              k.outExt == ".7z" && !FamilyInput(k.inExt) && k.inExt != ".zip" && k.inExt != ".rar"
    ensures Select(k) == Extract7z <==>
              k.inExt == ".7z" && k.outExt != ".zip" && k.outExt != ".rar" && k.outExt != ".7z"
  {
    ImageListsIncluded();
    ArchiveOutputsUnlisted();
  }

  /** Instances of that precedence: an image or a PDF sent to ".zip" goes to its own
      family's handler, ".zip" to ".rar" extracts, ".rar" to ".zip" compresses. */
  lemma ArchivePngToZip() ensures Select(Key(false, ".png", ".zip", false)) == ConvertImage {}
  lemma ArchivePdfToZip() ensures Select(Key(false, ".pdf", ".zip", false)) == ConvertPdf {}
  lemma ArchiveZipToRar() ensures Select(Key(false, ".zip", ".rar", false)) == ExtractZip {}
  lemma ArchiveRarToZip() ensures Select(Key(false, ".rar", ".zip", false)) == CompressZip {}
  lemma ArchiveJsonToZip() ensures Select(Key(false, ".json", ".zip", false)) == CompressZip {}

  /** What a key must look like for the data-format branch to be chosen. */
  lemma DataFormatKeys(k: Key)
    requires Select(k) == ConvertDataFormat
    ensures k.inExt in DataInExts && k.outExt in DataOutExts
  {
  }

  lemma MarkdownToPdfKey(k: Key)
    requires Coherent(k) && !k.isList && k.inExt == ".md" && k.outExt == ".pdf"
    ensures Select(k) == MarkdownToPdf
  {
  }

  // ---------------------------------------------------------------------------
  // Input families: once the first branch is out of the way, the input extension
  // alone decides for images, PDFs, video and audio.

  lemma ImageInput(k: Key)
    requires Coherent(k) && !(k.isList && k.outPdf) && k.inExt in ImageExts
    ensures Select(k) == (if k.inExt in RasterExts && k.outExt == ".pdf" then ImagesToPdf else ConvertImage)
  {
  }

  lemma PdfInput(k: Key)
    requires !(k.isList && k.outPdf) && k.inExt == ".pdf"
    ensures Select(k) == (if k.outExt == ".txt" then PdfToText else ConvertPdf)
  {
  }

  lemma VideoInput(k: Key)
    requires !(k.isList && k.outPdf) && k.inExt in VideoExts
    ensures Select(k) == ConvertVideo
  {
  }

  lemma AudioInput(k: Key)
    requires !(k.isList && k.outPdf) && k.inExt in AudioExts
    ensures Select(k) == ConvertAudio
  {
  }

  /** Only an ".svg" input reaches the SVG branch. */
  lemma SvgKey(k: Key)
    requires Select(k) == ConvertSvg
    ensures k.inExt == ".svg"
  {
  }

  /** PDF to Word is never reached: any PDF input other than towards ".txt" has
      already gone to `convert_pdf`. */
  lemma PdfToDocxIsConvertPdf()
    ensures Select(Key(false, ".pdf", ".docx", false)) == ConvertPdf
  {
  }
}
