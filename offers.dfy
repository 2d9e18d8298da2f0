/** What the advertised table promises once `convert_file` is asked for it: an
    offered conversion, requested with an input path named after the key and an
    output path named after the target, reaches a handler and is never refused as
    unsupported. */
module Offers {
  import opened Paths
  import opened Dispatch
  import opened Convert
  import opened Formats

  /** For a key and a target that are plain extensions, the advertised key is the
      one `convert_file` derives from an input "x.<key>" and an output "y<target>". */
  lemma AdvertisedKeyOfPaths(key: string, o: string)
    requires PlainExt("." + key) && PlainExt(o)
    ensures KeyOf(Single("x." + key), "y" + o) == Some(AdvertisedKey(key, o))
  {
    var p := "x." + key;
    assert p == "x" + ("." + key) by {
      assert |p| == |"x" + ("." + key)|;
      forall j | 0 <= j < |p| ensures p[j] == ("x" + ("." + key))[j] { }
    }
    KeyOfPlainNames("." + key, o);
    assert AdvertisedKey(key, o) == Key(false, "." + key, o, o == ".pdf");
  }

  /** An offered conversion between plain extensions, asked of `convert_file` with
      such paths, chooses a handler other than the unsupported branch, and so never
      fails with "Unsupported conversion", whatever tools are installed. */
  lemma AdvertisedIsConverted(inputExt: string, o: string, ffmpeg: bool, tools: Tools, error: Option<string>)
    requires o in SupportedConversions(inputExt, ffmpeg)
    requires PlainExt("." + LookupKey(inputExt)) && PlainExt(o)
    ensures Chosen(Single("x." + LookupKey(inputExt)), "y" + o) ==
              Some(Select(AdvertisedKey(LookupKey(inputExt), o)))
    ensures Select(AdvertisedKey(LookupKey(inputExt), o)) != Unsupported
    ensures !(ConvertFile(Single("x." + LookupKey(inputExt)), "y" + o, tools, error).Failed? &&
              ConvertFile(Single("x." + LookupKey(inputExt)), "y" + o, tools, error).failure.UnsupportedConversion?)
  {
    var key := LookupKey(inputExt);
    AdvertisedKeyOfPaths(key, o);
    AdvertisedIsDispatched(inputExt, o, ffmpeg);
    UnsupportedExactly(Single("x." + key), "y" + o, tools, error);
  }
}
