/** The nested dispatch inside `convert_data_format`: a tabular reader chosen by the
    input extension, a writer chosen by the output extension, and a separate path for
    XML input, which is only accepted with JSON output. The pandas and serialisation
    calls themselves are not modelled, only which of them would run. */
module DataFormat {

  datatype Reader = ReadJson | ReadYaml | ReadCsv | ReadExcel
  datatype Writer = WriteJson | WriteYaml | WriteCsv | WriteExcel

  /** What `convert_data_format` does for one pair of lowered extensions. A tabular
      conversion with no writer reads the input and writes nothing, without raising. */
  datatype Plan =
    | Tabular(reader: Reader, writer: WriterChoice)
    | XmlToJson
    | Rejected

  datatype WriterChoice = NoWriter | Writes(w: Writer)

  function ReaderExt(r: Reader): string
  {
    match r
    case ReadJson => ".json"
    case ReadYaml => ".yaml"
    case ReadCsv => ".csv"
    case ReadExcel => ".xlsx"
  }

  function WriterExt(w: Writer): string
  {
    match w
    case WriteJson => ".json"
    case WriteYaml => ".yaml"
    case WriteCsv => ".csv"
    case WriteExcel => ".xlsx"
  }

  /** The four tabular formats, in the order the source tests them. */
  const TabularExts: seq<string> := [".json", ".yaml", ".csv", ".xlsx"]

  /** `convert_data_format`'s chain of tests, on extensions already lowered. */
  function PlanConversion(inExt: string, outExt: string): (p: Plan)
  {
    if inExt in TabularExts then
      var reader :=
        if inExt == ".json" then ReadJson
        else if inExt == ".yaml" then ReadYaml
        else if inExt == ".csv" then ReadCsv
        else ReadExcel;
      var writer :=
        if outExt == ".json" then Writes(WriteJson)
        else if outExt == ".yaml" then Writes(WriteYaml)
        else if outExt == ".csv" then Writes(WriteCsv)
        else if outExt == ".xlsx" then Writes(WriteExcel)
        else NoWriter;
      Tabular(reader, writer)
    else if inExt == ".xml" && outExt == ".json" then
      XmlToJson
    else
      Rejected
  }

  /** The reader is the one whose extension is the input's, and it depends on nothing
      else. */
  lemma ReaderByInput(inExt: string, outExt: string, r: Reader)
    ensures PlanConversion(inExt, outExt).Tabular? && PlanConversion(inExt, outExt).reader == r
            <==> inExt == ReaderExt(r)
  {
  }

  /** For a tabular input the writer is the one whose extension is the output's. */
  lemma WriterByOutput(inExt: string, outExt: string, w: Writer)
    requires inExt in TabularExts
    ensures PlanConversion(inExt, outExt) == Tabular(PlanConversion(inExt, outExt).reader, Writes(w))
            <==> outExt == WriterExt(w)
  {
  }

  /** A tabular input with an output outside the four formats writes nothing and
      raises nothing. */
  lemma SilentWithoutWriter(inExt: string, outExt: string)
    requires inExt in TabularExts
    ensures PlanConversion(inExt, outExt).Tabular?
    ensures PlanConversion(inExt, outExt).writer == NoWriter <==> outExt !in TabularExts
  {
  }

  /** XML input is converted only towards JSON. */
  lemma XmlOnlyToJson(outExt: string)
    ensures PlanConversion(".xml", outExt) == (if outExt == ".json" then XmlToJson else Rejected)
  {
  }

  /** Every pair is rejected except a tabular input or XML to JSON. */
  lemma RejectedExactly(inExt: string, outExt: string)
    ensures PlanConversion(inExt, outExt) == Rejected
            <==> inExt !in TabularExts && !(inExt == ".xml" && outExt == ".json")
  {
  }
}
