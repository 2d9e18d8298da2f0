/** The two format tables: the conversions offered per input extension, of which
    ffmpeg's presence replaces or adds some rows, and the input formats grouped by
    family. */
module Formats {
  import opened Paths
  import opened Dispatch

  /** The conversions listed for every input, keyed without the dot. */
  const Base: map<string, seq<string>> := map[
    "png" := [".jpg", ".jpeg", ".tiff", ".pdf", ".svg", ".bmp", ".gif"],
    "jpg" := [".png", ".tiff", ".pdf", ".svg", ".bmp", ".gif"],
    "jpeg" := [".png", ".tiff", ".pdf", ".svg", ".bmp", ".gif"],
    "tiff" := [".png", ".jpg", ".jpeg", ".pdf", ".svg", ".bmp", ".gif"],
    "heic" := [".png", ".jpg", ".jpeg", ".tiff", ".pdf"],
    "webp" := [".png", ".jpg", ".jpeg", ".tiff", ".pdf"],
    "gif" := [".png", ".jpg", ".jpeg", ".tiff", ".pdf", ".bmp"],
    "bmp" := [".png", ".jpg", ".jpeg", ".tiff", ".pdf", ".gif"],
    "pdf" := [".png", ".jpg", ".jpeg", ".tiff", ".docx"],
    "docx" := [".pdf"],
    "json" := [".yaml", ".csv", ".xlsx"],
    "yaml" := [".json", ".csv", ".xlsx"],
    "md" := [".html", ".pdf"],
    "html" := [".md", ".pdf"],
    "epub" := [".pdf"],
    "zip" := ["."],
    "rar" := ["."],
    "7z" := ["."],
    "mp4" := [".mov", ".avi", ".mkv", ".webm", ".flv", ".wmv", ".mp3", ".wav"],
    "mov" := [".mp4", ".avi", ".mkv", ".webm", ".flv", ".wmv", ".mp3", ".wav"],
    "avi" := [".mp4", ".mov", ".mkv", ".webm", ".flv", ".wmv", ".mp3", ".wav"],
    "mkv" := [".mp4", ".mov", ".avi", ".webm", ".flv", ".wmv", ".mp3", ".wav"]
  ]

  /** The rows `update` writes over the base table when ffmpeg is available. */
  const WithFfmpeg: map<string, seq<string>> := map[
    "mp4" := [".mov", ".avi", ".mkv", ".webm", ".flv", ".wmv"],
    "mov" := [".mp4", ".avi", ".mkv", ".webm", ".flv", ".wmv"],
    "avi" := [".mp4", ".mov", ".mkv", ".webm", ".flv", ".wmv"],
    "mkv" := [".mp4", ".mov", ".avi", ".webm", ".flv", ".wmv"],
    "webm" := [".mp4", ".mov", ".avi", ".mkv", ".flv", ".wmv"],
    "flv" := [".mp4", ".mov", ".avi", ".mkv", ".webm", ".wmv"],
    "wmv" := [".mp4", ".mov", ".avi", ".mkv", ".webm", ".flv"],
    "mp3" := [".wav", ".ogg", ".flac", ".aac", ".m4a", ".wma"],
    "wav" := [".mp3", ".ogg", ".flac", ".aac", ".m4a", ".wma"],
    "ogg" := [".mp3", ".wav", ".flac", ".aac", ".m4a", ".wma"],
    "flac" := [".mp3", ".wav", ".ogg", ".aac", ".m4a", ".wma"],
    "aac" := [".mp3", ".wav", ".ogg", ".flac", ".m4a", ".wma"],
    "m4a" := [".mp3", ".wav", ".ogg", ".flac", ".aac", ".wma"],
    "wma" := [".mp3", ".wav", ".ogg", ".flac", ".aac", ".m4a"]
  ]

  function Table(ffmpeg: bool): map<string, seq<string>>
  {
    if ffmpeg then Base + WithFfmpeg else Base
  }

  /** The key an extension is looked up under: lowered, every leading dot removed. */
  function LookupKey(inputExt: string): string
  {
    LStripDots(Lower(inputExt))
  }

  /** `get_supported_conversions(input_ext)`: the row for the normalised key, or
      the empty list for a key the table does not have. */
  function SupportedConversions(inputExt: string, ffmpeg: bool): seq<string>
  {
    var key := LookupKey(inputExt);
    var table := Table(ffmpeg);
    if key in table then table[key] else []
  }

  // ---------------------------------------------------------------------------
  // The lookup key

  /** Lowering first makes the lookup case-insensitive. */
  lemma {:induction false} CaseInsensitive(inputExt: string, ffmpeg: bool)
    ensures SupportedConversions(Lower(inputExt), ffmpeg) == SupportedConversions(inputExt, ffmpeg)
  {
    LowerIdempotent(inputExt);
  }

  /** Any number of leading dots is ignored. */
  lemma {:induction false} LeadingDotIgnored(inputExt: string, ffmpeg: bool)
    ensures SupportedConversions("." + inputExt, ffmpeg) == SupportedConversions(inputExt, ffmpeg)
  {
    LowerConcat(".", inputExt);
    assert Lower(".") == ".";
    assert LookupKey("." + inputExt) == LookupKey(inputExt) by {
      var s := "." + Lower(inputExt);
      assert s[1..] == Lower(inputExt);
    }
  }

  /** A key that is already lowered and has no leading dot is looked up as is. */
  lemma {:induction false} KeyIsItsOwnLookup(key: string)
    requires Lower(key) == key && (key == [] || key[0] != '.')
    ensures LookupKey(key) == key
  {
  }

  // ---------------------------------------------------------------------------
  // What ffmpeg changes

  /** In the tables themselves: each video row of the base table is the ffmpeg row
      followed by the two audio targets. */
  lemma VideoRowsInTables(key: string)
    requires key in ["mp4", "mov", "avi", "mkv"]
    ensures key in Base && key in WithFfmpeg
    ensures Base[key] == WithFfmpeg[key] + [".mp3", ".wav"]
    ensures ".mp3" !in WithFfmpeg[key] && ".wav" !in WithFfmpeg[key]
  {
  }

  /** With ffmpeg the four video rows are replaced by the same rows without their
      two audio targets, ".mp3" and ".wav". */
  lemma VideoRowsReplaced(key: string)
    requires key in ["mp4", "mov", "avi", "mkv"]
    ensures SupportedConversions(key, false) == SupportedConversions(key, true) + [".mp3", ".wav"]
    ensures ".mp3" !in SupportedConversions(key, true) && ".wav" !in SupportedConversions(key, true)
  {
    KeyIsItsOwnLookup(key);
    VideoRowsInTables(key);
    assert Table(true)[key] == WithFfmpeg[key];
  }

  const AddedKeys: seq<string> := ["webm", "flv", "wmv", "mp3", "wav", "ogg", "flac", "aac", "m4a", "wma"]

  lemma AddedRowsInTables(key: string)
    requires key in AddedKeys
    ensures key !in Base && key in WithFfmpeg && |WithFfmpeg[key]| == 6
  {
  }

  /** Without ffmpeg the other video inputs and all audio inputs have no row; with
      it they have six targets each. */
  lemma AddedRows(key: string)
    requires key in AddedKeys
    ensures SupportedConversions(key, false) == []
    ensures |SupportedConversions(key, true)| == 6
  {
    KeyIsItsOwnLookup(key);
    AddedRowsInTables(key);
  }

  /** Every other row is the same with or without ffmpeg. */
  lemma OtherRowsUnchanged(inputExt: string)
    requires LookupKey(inputExt) !in WithFfmpeg
    ensures SupportedConversions(inputExt, true) == SupportedConversions(inputExt, false)
  {
  }

  // ---------------------------------------------------------------------------
  // Every advertised conversion is one the dispatcher accepts

  const ImageKeys: seq<string> := ["png", "jpg", "jpeg", "tiff", "heic", "webp", "gif", "bmp"]
  const VideoKeys: seq<string> := ["mp4", "mov", "avi", "mkv", "webm", "flv", "wmv"]
  const AudioKeys: seq<string> := ["mp3", "wav", "ogg", "flac", "aac", "m4a", "wma"]
  const DocumentKeys: seq<string> := ["docx", "json", "yaml", "md", "html", "epub"]
  const ArchiveKeys: seq<string> := ["zip", "rar", "7z"]

  /** The key an advertised conversion `key` to `o` dispatches on, for one input path
      and an output path with extension `o`. */
  function AdvertisedKey(key: string, o: string): (k: Key)
    ensures Coherent(k) && !k.isList
  {
    Key(false, "." + key, o, o == ".pdf")
  }

  lemma KeysOfTable(key: string, ffmpeg: bool)
    requires key in Table(ffmpeg)
    ensures key in ImageKeys || key == "pdf" || key in VideoKeys || key in AudioKeys ||
            key in DocumentKeys || key in ArchiveKeys
  {
  }

  /** The table's keys are the family extensions without their dot. */
  lemma DottedImageKey(key: string)
    requires key in ImageKeys
    ensures "." + key in ImageExts
  {
    if key == "png" {
      assert "." + key == ".png";
    } else if key == "jpg" {
      assert "." + key == ".jpg";
    } else if key == "jpeg" {
      assert "." + key == ".jpeg";
    } else if key == "tiff" {
      assert "." + key == ".tiff";
    } else if key == "heic" {
      assert "." + key == ".heic";
    } else if key == "webp" {
      assert "." + key == ".webp";
    } else if key == "gif" {
      assert "." + key == ".gif";
    } else if key == "bmp" {
      assert "." + key == ".bmp";
    }
  }

  lemma DottedVideoKey(key: string)
    requires key in VideoKeys
    ensures "." + key in VideoExts
  {
    if key == "mp4" {
      assert "." + key == ".mp4";
    } else if key == "mov" {
      assert "." + key == ".mov";
    } else if key == "avi" {
      assert "." + key == ".avi";
    } else if key == "mkv" {
      assert "." + key == ".mkv";
    } else if key == "webm" {
      assert "." + key == ".webm";
    } else if key == "flv" {
      assert "." + key == ".flv";
    } else if key == "wmv" {
      assert "." + key == ".wmv";
    }
  }

  lemma DottedAudioKey(key: string)
    requires key in AudioKeys
    ensures "." + key in AudioExts
  {
    if key == "mp3" {
      assert "." + key == ".mp3";
    } else if key == "wav" {
      assert "." + key == ".wav";
    } else if key == "ogg" {
      assert "." + key == ".ogg";
    } else if key == "flac" {
      assert "." + key == ".flac";
    } else if key == "aac" {
      assert "." + key == ".aac";
    } else if key == "m4a" {
      assert "." + key == ".m4a";
    } else if key == "wma" {
      assert "." + key == ".wma";
    }
  }

  lemma ImageRowsDispatched(key: string, o: string)
    requires key in ImageKeys
    ensures Select(AdvertisedKey(key, o)) in {ConvertImage, ImagesToPdf}
  {
    DottedImageKey(key);
    ImageInput(AdvertisedKey(key, o));
  }

  lemma MediaRowsDispatched(key: string, o: string)
    requires key == "pdf" || key in VideoKeys || key in AudioKeys
    ensures Select(AdvertisedKey(key, o)) in {PdfToText, ConvertPdf, ConvertVideo, ConvertAudio}
  {
    if key == "pdf" {
      assert "." + key == ".pdf";
      PdfInput(AdvertisedKey(key, o));
    } else if key in VideoKeys {
      DottedVideoKey(key);
      VideoInput(AdvertisedKey(key, o));
    } else {
      DottedAudioKey(key);
      AudioInput(AdvertisedKey(key, o));
    }
  }

  /** The targets of the rows that ffmpeg does not change. */
  lemma DocumentRows()
    ensures && Base["docx"] == [".pdf"] && Base["json"] == [".yaml", ".csv", ".xlsx"]
            && Base["yaml"] == [".json", ".csv", ".xlsx"] && Base["md"] == [".html", ".pdf"]
            && Base["html"] == [".md", ".pdf"] && Base["epub"] == [".pdf"]
            && Base["zip"] == ["."] && Base["rar"] == ["."] && Base["7z"] == ["."]
  {
  }

  // One lemma per remaining row: the row's targets and the handler each reaches.

  lemma DocxRowDispatched(o: string)
    requires o in [".pdf"]
    ensures Select(AdvertisedKey("docx", o)) == WordToPdf
  {
    assert "." + "docx" == ".docx";
    assert o == ".pdf";
  }

  lemma JsonRowDispatched(o: string)
    requires o in [".yaml", ".csv", ".xlsx"]
    ensures Select(AdvertisedKey("json", o)) == ConvertDataFormat
  {
    assert "." + "json" == ".json";
  }

  lemma YamlRowDispatched(o: string)
    requires o in [".json", ".csv", ".xlsx"]
    ensures Select(AdvertisedKey("yaml", o)) == ConvertDataFormat
  {
    assert "." + "yaml" == ".yaml";
  }

  lemma MdRowDispatched(o: string)
    requires o in [".html", ".pdf"]
    ensures Select(AdvertisedKey("md", o)) == (if o == ".pdf" then MarkdownToPdf else MarkdownToHtml)
  {
    assert "." + "md" == ".md";
  }

  lemma HtmlRowDispatched(o: string)
    requires o in [".md", ".pdf"]
    ensures Select(AdvertisedKey("html", o)) == (if o == ".pdf" then HtmlToPdf else HtmlToMarkdown)
  {
    assert "." + "html" == ".html";
  }

  lemma EpubRowDispatched(o: string)
    requires o in [".pdf"]
    ensures Select(AdvertisedKey("epub", o)) == EpubToPdf
  {
    assert "." + "epub" == ".epub";
    assert o == ".pdf";
  }

  lemma ZipRowDispatched(o: string)
    requires o in ["."]
    ensures Select(AdvertisedKey("zip", o)) == ExtractZip
  {
    assert "." + "zip" == ".zip";
    assert o == ".";
  }

  lemma RarRowDispatched(o: string)
    requires o in ["."]
    ensures Select(AdvertisedKey("rar", o)) == ExtractRar
  {
    assert "." + "rar" == ".rar";
    assert o == ".";
  }

  lemma SevenZipRowDispatched(o: string)
    requires o in ["."]
    ensures Select(AdvertisedKey("7z", o)) == Extract7z
  {
    assert "." + "7z" == ".7z";
    assert o == ".";
  }

  /** No false negatives: every target the lookup offers for an input is one the
      dispatcher sends to a handler rather than rejecting. */
  lemma AdvertisedIsDispatched(inputExt: string, o: string, ffmpeg: bool)
    requires o in SupportedConversions(inputExt, ffmpeg)
    ensures Select(AdvertisedKey(LookupKey(inputExt), o)) != Unsupported
  {
    var key := LookupKey(inputExt);
    assert key in Table(ffmpeg) && o in Table(ffmpeg)[key];
    RowDispatched(key, o, ffmpeg);
  }

  /** Every target of every row of either table is dispatched to a handler. */
  lemma RowDispatched(key: string, o: string, ffmpeg: bool)
    requires key in Table(ffmpeg) && o in Table(ffmpeg)[key]
    ensures Select(AdvertisedKey(key, o)) != Unsupported
  {
    KeysOfTable(key, ffmpeg);
    if key in ImageKeys {
      ImageRowsDispatched(key, o);
    } else if key == "pdf" || key in VideoKeys || key in AudioKeys {
      MediaRowsDispatched(key, o);
    } else {
      DocumentRowDispatched(key, o, ffmpeg);
    }
  }

  /** The document and archive rows, which ffmpeg does not change. */
  lemma DocumentRowDispatched(key: string, o: string, ffmpeg: bool)
    requires key in DocumentKeys || key in ArchiveKeys
    requires key in Table(ffmpeg) && o in Table(ffmpeg)[key]
    ensures Select(AdvertisedKey(key, o)) != Unsupported
  {
    assert key !in WithFfmpeg;
    assert o in Base[key];
    DocumentRows();
    if key == "docx" { DocxRowDispatched(o); }
    else if key == "json" { JsonRowDispatched(o); }
    else if key == "yaml" { YamlRowDispatched(o); }
    else if key == "md" { MdRowDispatched(o); }
    else if key == "html" { HtmlRowDispatched(o); }
    else if key == "epub" { EpubRowDispatched(o); }
    else if key == "zip" { ZipRowDispatched(o); }
    else if key == "rar" { RarRowDispatched(o); }
    else { SevenZipRowDispatched(o); }
  }

  // ---------------------------------------------------------------------------
  // `get_supported_input_formats`

  /** The input formats by family, in the order the dictionary lists them. */
  const InputFormats: seq<(string, seq<string>)> := [
    ("Document", [".docx", ".pdf", ".txt", ".md", ".html", ".epub"]),
    ("Image", [".png", ".jpg", ".jpeg", ".tiff", ".heic", ".webp", ".gif", ".bmp"]),
    ("Spreadsheet", [".xlsx", ".csv"]),
    ("Data", [".json", ".yaml", ".xml"]),
    ("Archive", [".zip", ".rar", ".7z"]),
    ("Video", [".mp4", ".mov", ".avi", ".mkv", ".webm", ".flv", ".wmv"]),
    ("Audio", [".mp3", ".wav", ".ogg", ".flac", ".aac", ".m4a", ".wma"])
  ]

  /** Every family's formats, family after family. */
  function Flatten(groups: seq<(string, seq<string>)>): seq<string>
  {
    if groups == [] then [] else groups[0].1 + Flatten(groups[1..])
  }

  /** An extension is in the flattened list exactly when some family lists it. */
  lemma {:induction false} FlattenMembership(groups: seq<(string, seq<string>)>, e: string)
    ensures e in Flatten(groups) <==> exists i :: 0 <= i < |groups| && e in groups[i].1
  {
    if groups != [] {
      FlattenMembership(groups[1..], e);
      if e in Flatten(groups[1..]) {
        var j :| 0 <= j < |groups[1..]| && e in groups[1..][j].1;
        assert e in groups[j + 1].1;
      }
      forall i | 1 <= i < |groups| && e in groups[i].1
        ensures e in Flatten(groups[1..])
      {
        assert groups[1..][i - 1] == groups[i];
      }
    }
  }

  function AllInputFormats(): (r: seq<string>)
    ensures forall e :: e in r <==> exists i :: 0 <= i < |InputFormats| && e in InputFormats[i].1
  {
    forall e ensures e in Flatten(InputFormats) <==>
                       exists i :: 0 <= i < |InputFormats| && e in InputFormats[i].1 {
      FlattenMembership(InputFormats, e);
    }
    Flatten(InputFormats)
  }

  /** SVG can be converted but is not an input format, so a request for it is
      refused before dispatch. */
  lemma SvgIsNotAnInputFormat()
    ensures ".svg" !in AllInputFormats()
    ensures Select(Key(false, ".svg", ".png", false)) == ConvertSvg
  {
    assert forall i :: 0 <= i < |InputFormats| ==> ".svg" !in InputFormats[i].1;
  }

  /** The two tables disagree: CSV is an input format the dispatcher converts, but
      the lookup has no row for it. */
  lemma CsvIsAnInputFormat()
    ensures ".csv" in AllInputFormats()
  {
    assert ".csv" in InputFormats[2].1;
  }

  lemma CsvHasNoRow(ffmpeg: bool)
    ensures SupportedConversions(".csv", ffmpeg) == []
  {
    CsvLookupKey();
    assert "csv" !in Table(ffmpeg);
  }

  /** The listed input formats that have no row in the conversions table. */
  const RowlessInputs: seq<string> := [".txt", ".csv", ".xlsx", ".xml"]

  /** The four formats are listed as input formats. */
  lemma RowlessInputsListed()
    ensures forall e :: e in RowlessInputs ==> e in AllInputFormats()
  {
    assert ".txt" in InputFormats[0].1;
    assert ".csv" in InputFormats[2].1 && ".xlsx" in InputFormats[2].1;
    assert ".xml" in InputFormats[3].1;
  }

  /** ... and the lookup offers nothing for any of them, with or without ffmpeg. */
  lemma RowlessInputsHaveNoRow(ffmpeg: bool)
    ensures forall e :: e in RowlessInputs ==> SupportedConversions(e, ffmpeg) == []
  {
    forall e | e in RowlessInputs ensures SupportedConversions(e, ffmpeg) == [] {
      assert e == ".txt" || e == ".csv" || e == ".xlsx" || e == ".xml";
      if e == ".txt" {
        TxtHasNoRow(ffmpeg);
      } else if e == ".csv" {
        CsvHasNoRow(ffmpeg);
      } else if e == ".xlsx" {
        XlsxHasNoRow(ffmpeg);
      } else {
        XmlHasNoRow(ffmpeg);
      }
    }
  }

  lemma TxtHasNoRow(ffmpeg: bool)
    ensures SupportedConversions(".txt", ffmpeg) == []
  {
    TxtLookupKey();
    if "txt" in Table(ffmpeg) {
      KeysOfTable("txt", ffmpeg);
      assert false;
    }
  }

  lemma TxtLookupKey()
    ensures LookupKey(".txt") == "txt"
  {
    assert Lower(".txt") == ".txt";
    assert ".txt"[1..] == "txt";
  }

  lemma XlsxHasNoRow(ffmpeg: bool)
    ensures SupportedConversions(".xlsx", ffmpeg) == []
  {
    XlsxLookupKey();
    if "xlsx" in Table(ffmpeg) {
      KeysOfTable("xlsx", ffmpeg);
      assert false;
    }
  }

  lemma XlsxLookupKey()
    ensures LookupKey(".xlsx") == "xlsx"
  {
    assert Lower(".xlsx") == ".xlsx";
    assert ".xlsx"[1..] == "xlsx";
  }

  lemma XmlHasNoRow(ffmpeg: bool)
    ensures SupportedConversions(".xml", ffmpeg) == []
  {
    XmlLookupKey();
    if "xml" in Table(ffmpeg) {
      KeysOfTable("xml", ffmpeg);
      assert false;
    }
  }

  lemma XmlLookupKey()
    ensures LookupKey(".xml") == "xml"
  {
    assert Lower(".xml") == ".xml";
    assert ".xml"[1..] == "xml";
  }

  lemma CsvLookupKey()
    ensures LookupKey(".csv") == "csv"
  {
    assert Lower(".csv") == ".csv";
    assert ".csv"[1..] == "csv";
  }

  lemma CsvIsDispatched()
    ensures Select(Key(false, ".csv", ".json", false)) == ConvertDataFormat
  {
  }
}
