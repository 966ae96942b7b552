/**
 * The offline speech-to-text service: a WAV file is checked to be mono,
 * 16-bit and at a supported rate, fed to the recogniser in fixed-size chunks,
 * and the recognised phrases are joined into one transcript. The Vosk model
 * is loaded lazily, once per process.
 */
module VoskStt {
  import opened Wrappers
  import opened Text

  /** Where the model is looked for, relative to the working directory. */
  const ModelPath: string := "vosk-model-small-en-us-0.15"

  /** The sample rates the recogniser is built for. */
  const SupportedRates: seq<nat> := [8000, 16000, 32000, 48000]

  /** `readframes(4000)` on a mono 16-bit file: 4000 frames of two bytes. */
  const ChunkBytes: nat := 4000 * 2

  /** Every error leaving `transcribe_audio_vosk` starts with this. */
  const FailureLead: string := "Vosk transcription failed: "

  const MonoRequired: string := "Audio must be mono (1 channel)"
  const WidthRequired: string := "Audio must be 16-bit"

  /** The `FileNotFoundError` of `get_vosk_model`. */
  const ModelMissing: string :=
    "Vosk model not found at '" + ModelPath + "'. " + "Please download from https://alphacephei.com/vosk/models"

  // ---------------------------------------------------------------------------
  // get_vosk_model
  // ---------------------------------------------------------------------------

  /** A loaded Vosk model; only its identity matters here. */
  class VoskModel {
    constructor ()
    {
    }
  }

  /** The module-level `_vosk_model` slot. */
  class ModelCache {
    var model: VoskModel?
    /** How many models have been constructed so far. */
    ghost var loads: nat

    /** A model is built at most once, and the slot holds it exactly when it was built. */
    ghost predicate Valid()
      reads this
    {
      loads <= 1 && (model == null <==> loads == 0)
    }

    /** The slot at import time: empty. */
    constructor ()
      ensures Valid() && model == null
    {
      model := null;
      loads := 0;
    }

    /**
     * `get_vosk_model()`: the cached model, or a new one when the slot is
     * empty and the model directory exists (`modelPresent`); a missing
     * directory is an error and leaves the slot empty.
     */
    method GetVoskModel(modelPresent: bool) returns (r: Result<VoskModel, string>)
      requires Valid()
      modifies this
      ensures Valid()
      ensures old(model) != null ==> r == Success(old(model)) && model == old(model) && loads == old(loads)
      ensures old(model) == null && !modelPresent ==> r == Failure(ModelMissing) && model == null
      ensures old(model) == null && modelPresent ==> r.Success? && fresh(r.value) && model == r.value
    {
      if model == null {
        if !modelPresent {
          return Failure(ModelMissing);
        }
        model := new VoskModel();
        loads := loads + 1;
      }
      r := Success(model);
    }
  }

  // ---------------------------------------------------------------------------
  // The audio file and the recogniser
  // ---------------------------------------------------------------------------

  /**
   * What `wave.open(path, "rb")` finds: a WAV header and the sample bytes,
   * or the reader's error for a file that is not a WAV file.
   */
  datatype WavFile =
    | Wav(channels: nat, sampleWidth: nat, frameRate: nat, frames: seq<bv8>)
    | NotWav(error: string)

  /** One block of sample bytes handed to the recogniser. */
  type Chunk = seq<bv8>

  /**
   * `AcceptWaveform` followed by `Result()`: after the given chunks have been
   * fed at the given rate, the text of a completed utterance, or `None` when
   * the last chunk did not complete one.
   */
  type Acceptor = (nat, seq<Chunk>) -> Option<string>

  /** `FinalResult()`: the text of the last, unfinished utterance. */
  type Finisher = (nat, seq<Chunk>) -> string

  /** The chunks are the bytes, in order. */
  function Flatten(cs: seq<Chunk>): seq<bv8>
  {
    if cs == [] then [] else cs[0] + Flatten(cs[1..])
  }

  /** The blocks successive `readframes` calls return, up to the first empty one. */
  function Chunks(data: seq<bv8>, size: nat): (cs: seq<Chunk>)
    requires size > 0
    ensures Flatten(cs) == data
    ensures forall k :: 0 <= k < |cs| ==> 0 < |cs[k]| <= size
    ensures forall k :: 0 <= k < |cs| - 1 ==> |cs[k]| == size
    decreases |data|
  {
    if |data| == 0 then []
    else if |data| <= size then
      assert [data][1..] == [];
      [data]
    else
      var rest := Chunks(data[size..], size);
      assert ([data[..size]] + rest)[1..] == rest;
      assert data[..size] + data[size..] == data;
      [data[..size]] + rest
  }

  /** What one fed chunk adds to the transcript: a non-empty phrase and one space. */
  function Piece(accepted: Option<string>): string
  {
    if accepted.Some? && accepted.value != "" then accepted.value + " " else ""
  }

  /** The transcript accumulated after feeding `fed`, chunk by chunk. */
  function Accumulated(rate: nat, fed: seq<Chunk>, accept: Acceptor): string
  {
    if fed == [] then "" else Accumulated(rate, fed[..|fed| - 1], accept) + Piece(accept(rate, fed))
  }

  // ---------------------------------------------------------------------------
  // transcribe_audio_vosk
  // ---------------------------------------------------------------------------

  /**
   * The checks before recognition, in the order the service makes them:
   * the file exists, is a WAV file, is mono, is 16-bit, has a supported rate.
   * On success: the rate and the sample bytes.
   */
  function CheckAudio(files: map<string, WavFile>, path: string): (r: Result<(nat, seq<bv8>), string>)
    ensures r.Success? <==>
      path in files && files[path].Wav? && files[path].channels == 1 && files[path].sampleWidth == 2 &&
      files[path].frameRate in SupportedRates
    ensures r.Success? ==> r.value == (files[path].frameRate, files[path].frames)
  {
    if path !in files then Failure("Audio file not found: " + path)
    else match files[path]
      case NotWav(e) => Failure(e)
      case Wav(channels, width, rate, frames) =>
        if channels != 1 then Failure(MonoRequired)
        else if width != 2 then Failure(WidthRequired)
        else if rate !in SupportedRates then Failure("Unsupported sample rate: " + NatToString(rate))
        else Success((rate, frames))
  }

  /**
   * The whole result of `transcribe_audio_vosk(path)` given the files on disk,
   * whether a model is at hand (cached, or its directory present) and the
   * recogniser's answers.
   */
  function Transcription(files: map<string, WavFile>, path: string, modelAvailable: bool,
                         accept: Acceptor, finish: Finisher): (r: Result<string, string>)
    ensures r.Failure? ==> FailureLead <= r.error
    ensures r.Success? <==> CheckAudio(files, path).Success? && modelAvailable
  {
    var checked := CheckAudio(files, path);
    if checked.Failure? then Failure(FailureLead + checked.error)
    else if !modelAvailable then Failure(FailureLead + ModelMissing)
    else
      var (rate, frames) := checked.value;
      var chunks := Chunks(frames, ChunkBytes);
      Success(Strip(Accumulated(rate, chunks, accept) + finish(rate, chunks)))
  }

  /**
   * `transcribe_audio_vosk(audio_file_path)`: validates the file, obtains the
   * model through the cache, feeds the samples chunk by chunk and returns the
   * stripped transcript; every error is re-raised behind `FailureLead`.
   */
  method TranscribeAudioVosk(cache: ModelCache, files: map<string, WavFile>, path: string, modelPresent: bool,
                             accept: Acceptor, finish: Finisher)
    returns (r: Result<string, string>)
    requires cache.Valid()
    modifies cache
    ensures cache.Valid()
    ensures r == Transcription(files, path, old(cache.model) != null || modelPresent, accept, finish)
    ensures CheckAudio(files, path).Failure? ==> cache.model == old(cache.model)
    ensures old(cache.model) != null ==> cache.model == old(cache.model) && cache.loads == old(cache.loads)
    ensures CheckAudio(files, path).Success? && old(cache.model) == null ==> (cache.model != null <==> modelPresent)
  {
    var checked := CheckAudio(files, path);
    if checked.Failure? {
      return Failure(FailureLead + checked.error);
    }
    var (rate, frames) := checked.value;
    var model := cache.GetVoskModel(modelPresent);
    if model.Failure? {
      return Failure(FailureLead + model.error);
    }
    var transcription, fed := FeedChunks(rate, frames, accept);
    var last := finish(rate, fed);
    if last != "" {
      transcription := transcription + last;
    } else {
      assert transcription + last == transcription;
    }
    r := Success(Strip(transcription));
  }

  /**
   * The reading loop of `transcribe_audio_vosk`: blocks of samples until the
   * reader returns an empty one, each fed to the recogniser; every completed,
   * non-empty phrase is appended with one space. Also returns the chunks fed
   * (the recogniser's state).
   */
  method FeedChunks(rate: nat, frames: seq<bv8>, accept: Acceptor) returns (transcription: string, fed: seq<Chunk>)
    ensures fed == Chunks(frames, ChunkBytes)
    ensures transcription == Accumulated(rate, fed, accept)
  {
    transcription := "";
    fed := [];
    // The bytes the reader has not returned yet.
    var rest := frames;
    while true
      invariant fed + Chunks(rest, ChunkBytes) == Chunks(frames, ChunkBytes)
      invariant transcription == Accumulated(rate, fed, accept)
      decreases |rest|
    {
      var n := if ChunkBytes <= |rest| then ChunkBytes else |rest|;
      var data := rest[..n];
      if |data| == 0 {
        break;
      }
      NextChunk(rest, ChunkBytes);
      AppendAssoc(fed, [data], Chunks(rest[n..], ChunkBytes));
      ghost var before := fed;
      fed := fed + [data];
      rest := rest[n..];
      assert fed[..|fed| - 1] == before;
      var accepted := accept(rate, fed);
      if accepted.Some? && accepted.value != "" {
        transcription := transcription + (accepted.value + " ");
      } else {
        assert transcription + Piece(accepted) == transcription;
      }
    }
    assert fed + [] == fed;
  }

  /** The first block `readframes` returns from a non-empty rest, and what remains after it. */
  lemma NextChunk(data: seq<bv8>, size: nat)
    requires size > 0 && |data| > 0
    ensures var n := if size <= |data| then size else |data|;
      Chunks(data, size) == [data[..n]] + Chunks(data[n..], size)
  {
    if |data| <= size {
      assert data[..|data|] == data;
      assert data[|data|..] == [];
    }
  }

  // ---------------------------------------------------------------------------
  // Properties of the transcript
  // ---------------------------------------------------------------------------

  /** Every phrase the recogniser completes is in the accumulated text, followed by a space. */
  lemma {:induction false} AccumulatedHasPhrase(rate: nat, fed: seq<Chunk>, accept: Acceptor, k: nat)
    requires k < |fed|
    requires accept(rate, fed[..k + 1]).Some? && accept(rate, fed[..k + 1]).value != ""
    ensures Contains(Accumulated(rate, fed, accept), accept(rate, fed[..k + 1]).value + " ")
    decreases |fed|
  {
    var prefix := fed[..|fed| - 1];
    var phrase := accept(rate, fed[..k + 1]).value + " ";
    if k == |fed| - 1 {
      assert fed[..k + 1] == fed;
      ContainsMiddle(Accumulated(rate, prefix, accept), phrase, "");
      assert Accumulated(rate, prefix, accept) + phrase + "" == Accumulated(rate, fed, accept);
    } else {
      assert prefix[..k + 1] == fed[..k + 1];
      AccumulatedHasPhrase(rate, prefix, accept, k);
      ContainsLeft(Accumulated(rate, prefix, accept), Piece(accept(rate, fed)), phrase);
    }
  }

  /**
   * The transcript keeps the recogniser's final text whenever that neither
   * starts nor ends with white space (stripping only trims the ends).
   */
  lemma TranscriptKeepsFinalText(rate: nat, chunks: seq<Chunk>, accept: Acceptor, finish: Finisher)
    ensures var fin := finish(rate, chunks);
      fin != [] && !IsSpace(fin[0]) && !IsSpace(fin[|fin| - 1]) ==>
        Contains(Strip(Accumulated(rate, chunks, accept) + fin), fin)
  {
    var acc := Accumulated(rate, chunks, accept);
    var fin := finish(rate, chunks);
    if fin != [] && !IsSpace(fin[0]) && !IsSpace(fin[|fin| - 1]) {
      ContainsMiddle(acc, fin, "");
      assert acc + fin + "" == acc + fin;
      StripKeepsInner(acc + fin, fin);
    }
  }

  /**
   * The transcript keeps every phrase the recogniser completed, in any chunk,
   * whenever the phrase neither starts nor ends with white space.
   */
  lemma TranscriptKeepsPhrase(rate: nat, chunks: seq<Chunk>, accept: Acceptor, fin: string, k: nat)
    requires k < |chunks| && accept(rate, chunks[..k + 1]).Some?
    ensures var t := accept(rate, chunks[..k + 1]).value;
      t != [] && !IsSpace(t[0]) && !IsSpace(t[|t| - 1]) ==>
        Contains(Strip(Accumulated(rate, chunks, accept) + fin), t)
  {
    var acc := Accumulated(rate, chunks, accept);
    var t := accept(rate, chunks[..k + 1]).value;
    if t != [] && !IsSpace(t[0]) && !IsSpace(t[|t| - 1]) {
      AccumulatedHasPhrase(rate, chunks, accept, k);
      PhraseInSpaced(acc, t);
      ContainsLeft(acc, fin, t);
      StripKeepsInner(acc + fin, t);
    }
  }

  lemma PhraseInSpaced(s: string, t: string)
    requires Contains(s, t + " ")
    ensures Contains(s, t)
  {
    var i :| OccursAt(s, t + " ", i);
    assert s[i..i + |t|] == (t + " ")[..|t|];
    assert OccursAt(s, t, i);
  }

  /** A transcript is produced only from a mono, 16-bit file at a supported rate, with a model at hand. */
  lemma SuccessMeansValidAudio(files: map<string, WavFile>, path: string, modelAvailable: bool,
                               accept: Acceptor, finish: Finisher)
    ensures Transcription(files, path, modelAvailable, accept, finish).Success? ==>
      path in files && files[path].Wav? && files[path].channels == 1 &&
      files[path].sampleWidth == 2 && files[path].frameRate in SupportedRates && modelAvailable
  {
  }

  /**
   * The errors, in the order the checks are made: a missing file first, then
   * the reader's error, then channels, sample width and rate, and only then a
   * missing model.
   */
  lemma ErrorsInOrder(files: map<string, WavFile>, path: string, modelAvailable: bool,
                      accept: Acceptor, finish: Finisher)
    ensures var r := Transcription(files, path, modelAvailable, accept, finish);
      (path !in files ==> r == Failure(FailureLead + "Audio file not found: " + path)) &&
      (path in files && files[path].NotWav? ==> r == Failure(FailureLead + files[path].error)) &&
      (path in files && files[path].Wav? && files[path].channels != 1 ==>
        r == Failure(FailureLead + MonoRequired)) &&
      (path in files && files[path].Wav? && files[path].channels == 1 && files[path].sampleWidth != 2 ==>
        r == Failure(FailureLead + WidthRequired)) &&
      (path in files && files[path].Wav? && files[path].channels == 1 && files[path].sampleWidth == 2 &&
       files[path].frameRate !in SupportedRates ==>
        r == Failure(FailureLead + "Unsupported sample rate: " + NatToString(files[path].frameRate))) &&
      (CheckAudio(files, path).Success? && !modelAvailable ==> r == Failure(FailureLead + ModelMissing))
  {
    AppendAssoc(FailureLead, "Audio file not found: ", path);
    if path in files && files[path].Wav? {
      AppendAssoc(FailureLead, "Unsupported sample rate: ", NatToString(files[path].frameRate));
    }
  }
}
