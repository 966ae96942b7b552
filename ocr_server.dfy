/**
 * The offline OCR service: an uploaded image is run through a detection and
 * recognition predictor, and the recognised document (pages of blocks of
 * lines of words) is flattened into one entry per line plus the full text.
 * The predictor is built lazily, once per process.
 */
module OcrServer {
  import opened Wrappers
  import opened Text
  import opened Average

  const DetectionModelPath: string := "db_mobilenet_v3_large.pt"
  const RecognitionModelPath: string := "crnn_mobilenet_v3_small.pt"

  // ---------------------------------------------------------------------------
  // get_ocr_model
  // ---------------------------------------------------------------------------

  /** The detection and recognition models combined; only its identity matters here. */
  class Predictor {
    constructor ()
    {
    }
  }

  /** The error `get_ocr_model` raises for the first model file found missing, if any. */
  function MissingModel(detectionPresent: bool, recognitionPresent: bool): (e: Option<string>)
    ensures e.None? <==> detectionPresent && recognitionPresent
    ensures !detectionPresent ==> e == Some("Detection model not found: " + DetectionModelPath)
    ensures detectionPresent && !recognitionPresent ==> e == Some("Recognition model not found: " + RecognitionModelPath)
  {
    if !detectionPresent then Some("Detection model not found: " + DetectionModelPath)
    else if !recognitionPresent then Some("Recognition model not found: " + RecognitionModelPath)
    else None
  }

  /** The module-level `_ocr_predictor` slot. */
  class PredictorCache {
    var predictor: Predictor?
    /** How many predictors have been built so far. */
    ghost var loads: nat

    /** A predictor is built at most once, and the slot holds it exactly when it was built. */
    ghost predicate Valid()
      reads this
    {
      loads <= 1 && (predictor == null <==> loads == 0)
    }

    /** The slot at start-up: empty. */
    constructor ()
      ensures Valid() && predictor == null
    {
      predictor := null;
      loads := 0;
    }

    /**
     * `get_ocr_model()`: the cached predictor, or a new one when the slot is
     * empty and both model files exist; otherwise the missing file's error,
     * the detection model checked first, and the slot stays empty.
     */
    method GetOcrModel(detectionPresent: bool, recognitionPresent: bool) returns (r: Result<Predictor, string>)
      requires Valid()
      modifies this
      ensures Valid()
      ensures old(predictor) != null ==> r == Success(old(predictor)) && predictor == old(predictor) && loads == old(loads)
      ensures old(predictor) == null && MissingModel(detectionPresent, recognitionPresent).Some? ==>
        r == Failure(MissingModel(detectionPresent, recognitionPresent).value) && predictor == null
      ensures old(predictor) == null && MissingModel(detectionPresent, recognitionPresent).None? ==>
        r.Success? && fresh(r.value) && predictor == r.value
    {
      if predictor == null {
        if !detectionPresent {
          return Failure("Detection model not found: " + DetectionModelPath);
        }
        if !recognitionPresent {
          return Failure("Recognition model not found: " + RecognitionModelPath);
        }
        predictor := new Predictor();
        loads := loads + 1;
      }
      r := Success(predictor);
    }
  }

  // ---------------------------------------------------------------------------
  // The recognised document and its flattening
  // ---------------------------------------------------------------------------

  datatype Word = Word(value: string, confidence: real)
  datatype Line = Line(words: seq<Word>)
  datatype Block = Block(lines: seq<Line>)
  datatype Page = Page(blocks: seq<Block>)

  /** One entry of the response's `lines`; confidence rounding is not modelled. */
  datatype LineOutput = LineOutput(text: string, confidence: real)

  function WordValues(words: seq<Word>): (vs: seq<string>)
    ensures |vs| == |words| && forall i :: 0 <= i < |words| ==> vs[i] == words[i].value
  {
    seq(|words|, i requires 0 <= i < |words| => words[i].value)
  }

  function WordConfidences(words: seq<Word>): (cs: seq<real>)
    ensures |cs| == |words| && forall i :: 0 <= i < |words| ==> cs[i] == words[i].confidence
  {
    seq(|words|, i requires 0 <= i < |words| => words[i].confidence)
  }

  /**
   * The entry for one line: its words' values joined by single spaces, and
   * the mean of their confidences, 0 for a line without words.
   */
  function LineEntry(line: Line): LineOutput
  {
    LineOutput(Join(" ", WordValues(line.words)), Mean(WordConfidences(line.words)))
  }

  /** The lines of some blocks, block after block. */
  function BlockLines(blocks: seq<Block>): seq<Line>
  {
    if blocks == [] then [] else BlockLines(blocks[..|blocks| - 1]) + blocks[|blocks| - 1].lines
  }

  /** Every line of a document in reading order: page by page, block by block. */
  function AllLines(pages: seq<Page>): seq<Line>
  {
    if pages == [] then [] else AllLines(pages[..|pages| - 1]) + BlockLines(pages[|pages| - 1].blocks)
  }

  /** The entries of some lines, one per line, in order. */
  ghost predicate Renders(out: seq<LineOutput>, lines: seq<Line>)
  {
    |out| == |lines| && forall i :: 0 <= i < |out| ==> out[i] == LineEntry(lines[i])
  }

  /** The entries of some lines. */
  function Entries(lines: seq<Line>): (out: seq<LineOutput>)
    ensures Renders(out, lines)
  {
    seq(|lines|, i requires 0 <= i < |lines| => LineEntry(lines[i]))
  }

  // ---------------------------------------------------------------------------
  // perform_ocr
  // ---------------------------------------------------------------------------

  /** `predictor(DocumentFile.from_images([path]))`: the document, or the loader's or model's error. */
  type Recognizer = seq<bv8> -> Result<seq<Page>, string>

  /** The JSON reply and its status code. */
  datatype OcrResponse =
    | OcrSucceeded(text: string, lines: seq<LineOutput>, totalLines: nat)
    | OcrFailed(error: string, status: nat)

  /**
   * The nested loops of `perform_ocr`: one entry per line of every block of
   * every page, in that order.
   */
  method ExtractLines(pages: seq<Page>) returns (out: seq<LineOutput>)
    ensures out == Entries(AllLines(pages))
  {
    out := [];
    ghost var seen: seq<Line> := [];
    for p := 0 to |pages|
      invariant seen == AllLines(pages[..p])
      invariant out == Entries(seen)
    {
      var blocks := pages[p].blocks;
      for b := 0 to |blocks|
        invariant seen == AllLines(pages[..p]) + BlockLines(blocks[..b])
        invariant out == Entries(seen)
      {
        var lines := blocks[b].lines;
        for l := 0 to |lines|
          invariant seen == AllLines(pages[..p]) + BlockLines(blocks[..b]) + lines[..l]
          invariant out == Entries(seen)
        {
          var words := lines[l].words;
          var lineText := Join(" ", WordValues(words));
          var confidence := if words != [] then Sum(WordConfidences(words)) / |words| as real else 0.0;
          EntriesAppend(seen, lines[l]);
          LineStep(AllLines(pages[..p]) + BlockLines(blocks[..b]), lines, l);
          out := out + [LineOutput(lineText, confidence)];
          seen := seen + [lines[l]];
        }
        BlockStep(AllLines(pages[..p]), blocks, b);
      }
      PageStep(pages, p);
    }
    assert pages[..|pages|] == pages;
  }

  lemma LineStep(before: seq<Line>, lines: seq<Line>, l: nat)
    requires l < |lines|
    ensures before + lines[..l] + [lines[l]] == before + lines[..l + 1]
  {
    assert lines[..l + 1] == lines[..l] + [lines[l]];
  }

  lemma BlockStep(before: seq<Line>, blocks: seq<Block>, b: nat)
    requires b < |blocks|
    ensures before + BlockLines(blocks[..b]) + blocks[b].lines[..|blocks[b].lines|] ==
      before + BlockLines(blocks[..b + 1])
  {
    assert blocks[..b + 1][..b] == blocks[..b];
    assert blocks[b].lines[..|blocks[b].lines|] == blocks[b].lines;
  }

  lemma PageStep(pages: seq<Page>, p: nat)
    requires p < |pages|
    ensures AllLines(pages[..p]) + BlockLines(pages[p].blocks[..|pages[p].blocks|]) == AllLines(pages[..p + 1])
  {
    assert pages[..p + 1][..p] == pages[..p];
    assert pages[p].blocks[..|pages[p].blocks|] == pages[p].blocks;
  }

  lemma EntriesAppend(lines: seq<Line>, line: Line)
    ensures Entries(lines + [line]) == Entries(lines) + [LineEntry(line)]
  {
  }

  /** The texts of some entries, in order. */
  function EntryTexts(out: seq<LineOutput>): (ts: seq<string>)
    ensures |ts| == |out| && forall i :: 0 <= i < |out| ==> ts[i] == out[i].text
  {
    seq(|out|, i requires 0 <= i < |out| => out[i].text)
  }

  /**
   * The response for a request given its uploaded parts, whether a predictor
   * is cached, which model files exist and what recognition yields.
   */
  function Ocr(request: map<string, seq<bv8>>, cached: bool, detectionPresent: bool, recognitionPresent: bool,
               recognize: Recognizer): (resp: OcrResponse)
    ensures resp.OcrFailed? ==> resp.status == (if "file" !in request then 400 else 500)
    ensures "file" !in request ==> resp == OcrFailed("No file provided", 400)
    ensures resp.OcrSucceeded? ==>
      "file" in request && (cached || MissingModel(detectionPresent, recognitionPresent).None?) &&
      recognize(request["file"]).Success? && resp.totalLines == |resp.lines| &&
      Renders(resp.lines, AllLines(recognize(request["file"]).value))
    ensures resp.OcrSucceeded? ==> resp.text == Join("\n", EntryTexts(resp.lines))
    ensures ("file" in request && (cached || MissingModel(detectionPresent, recognitionPresent).None?) &&
             recognize(request["file"]).Success?) ==> resp.OcrSucceeded?
  {
    if "file" !in request then OcrFailed("No file provided", 400)
    else if !cached && MissingModel(detectionPresent, recognitionPresent).Some? then
      OcrFailed(MissingModel(detectionPresent, recognitionPresent).value, 500)
    else
      match recognize(request["file"])
      case Failure(e) => OcrFailed(e, 500)
      case Success(pages) =>
        var lines := Entries(AllLines(pages));
        OcrSucceeded(Join("\n", EntryTexts(lines)), lines, |lines|)
  }

  /**
   * `perform_ocr()`: a request without a `file` part is refused with status
   * 400; any later error is reported with status 500; otherwise the lines,
   * the full text and the line count.
   */
  method PerformOcr(cache: PredictorCache, request: map<string, seq<bv8>>,
                    detectionPresent: bool, recognitionPresent: bool, recognize: Recognizer)
    returns (resp: OcrResponse)
    requires cache.Valid()
    modifies cache
    ensures cache.Valid()
    ensures resp == Ocr(request, old(cache.predictor) != null, detectionPresent, recognitionPresent, recognize)
    ensures old(cache.predictor) != null ==> cache.predictor == old(cache.predictor) && cache.loads == old(cache.loads)
    ensures "file" !in request ==> cache.predictor == old(cache.predictor)
    ensures "file" in request && old(cache.predictor) == null ==>
      (cache.predictor != null <==> MissingModel(detectionPresent, recognitionPresent).None?)
  {
    if "file" !in request {
      return OcrFailed("No file provided", 400);
    }
    var image := request["file"];
    var predictor := cache.GetOcrModel(detectionPresent, recognitionPresent);
    if predictor.Failure? {
      return OcrFailed(predictor.error, 500);
    }
    var result := recognize(image);
    if result.Failure? {
      return OcrFailed(result.error, 500);
    }
    var out := ExtractLines(result.value);
    var fullText := Join("\n", EntryTexts(out));
    resp := OcrSucceeded(fullText, out, |out|);
  }

  // ---------------------------------------------------------------------------
  // Properties of the response
  // ---------------------------------------------------------------------------

  /** Every line of every block of every page is among the lines the response renders. */
  lemma {:induction false} EveryLineListed(pages: seq<Page>, p: nat, b: nat, l: nat)
    requires p < |pages| && b < |pages[p].blocks| && l < |pages[p].blocks[b].lines|
    ensures pages[p].blocks[b].lines[l] in AllLines(pages)
    decreases |pages|
  {
    if p == |pages| - 1 {
      LineInBlocks(pages[p].blocks, b, l);
    } else {
      EveryLineListed(pages[..|pages| - 1], p, b, l);
    }
  }

  lemma {:induction false} LineInBlocks(blocks: seq<Block>, b: nat, l: nat)
    requires b < |blocks| && l < |blocks[b].lines|
    ensures blocks[b].lines[l] in BlockLines(blocks)
    decreases |blocks|
  {
    if b < |blocks| - 1 {
      LineInBlocks(blocks[..|blocks| - 1], b, l);
    } else {
      var before := BlockLines(blocks[..|blocks| - 1]);
      assert (before + blocks[b].lines)[|before| + l] == blocks[b].lines[l];
    }
  }

  /** Lines of a document made of two parts: those of the first part, then those of the second. */
  lemma {:induction false} AllLinesAppend(first: seq<Page>, second: seq<Page>)
    ensures AllLines(first + second) == AllLines(first) + AllLines(second)
    decreases |second|
  {
    if second != [] {
      var all := first + second;
      assert all[..|all| - 1] == first + second[..|second| - 1];
      AllLinesAppend(first, second[..|second| - 1]);
    } else {
      assert first + second == first;
    }
  }

  /**
   * The full text of a successful response holds the text of every line it
   * lists, and each of those is the rendering of a recognised line.
   */
  lemma LineTextsInFullText(request: map<string, seq<bv8>>, cached: bool, detectionPresent: bool,
                            recognitionPresent: bool, recognize: Recognizer, k: nat)
    ensures var resp := Ocr(request, cached, detectionPresent, recognitionPresent, recognize);
      resp.OcrSucceeded? && k < |resp.lines| ==>
        Contains(resp.text, resp.lines[k].text) &&
        resp.lines[k] == LineEntry(AllLines(recognize(request["file"]).value)[k])
  {
    var resp := Ocr(request, cached, detectionPresent, recognitionPresent, recognize);
    if resp.OcrSucceeded? && k < |resp.lines| {
      JoinContainsPart("\n", EntryTexts(resp.lines), k);
    }
  }

  lemma LineEntryFacts(line: Line)
    ensures forall j :: 0 <= j < |line.words| ==> Contains(LineEntry(line).text, line.words[j].value)
    ensures line.words == [] ==> LineEntry(line) == LineOutput("", 0.0)
    ensures (forall j :: 0 <= j < |line.words| ==> 0.0 <= line.words[j].confidence <= 1.0) ==>
      0.0 <= LineEntry(line).confidence <= 1.0
  {
    forall j | 0 <= j < |line.words|
      ensures Contains(LineEntry(line).text, line.words[j].value)
    {
      JoinContainsPart(" ", WordValues(line.words), j);
    }
    if line.words != [] && forall j :: 0 <= j < |line.words| ==> 0.0 <= line.words[j].confidence <= 1.0 {
      MeanBounds(WordConfidences(line.words), 0.0, 1.0);
    }
  }
}
