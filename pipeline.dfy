/** The control skeleton of `diarize_audio`: the ASR guard, the temporary
    file named after the upload's extension, the conversion, transcription
    and (optional) diarization steps, the "N/A" fallback and the cleanup
    that runs on every exit.

    The ffmpeg run, the ASR engine and the diarization engine are external:
    the conversion is given as its outcome (`Conversion`), and the two
    engines as functions from the converted file's path (and, for
    diarization, the keyword options) to their result or their error
    message. The file system is the set of paths that exist. */
module Pipeline {
  import opened Wrappers
  import opened Text
  import opened Paths
  import opened Alignment

  /** Why a request failed. Every one of them reaches the client as HTTP
      500: the missing ASR model (raised before the `try`) and the ones
      raised inside the `try` with the error's message as detail, a failing
      upload write as the framework's plain "Internal Server Error". */
  datatype Error =
    | AsrNotInitialized               // the ASR model failed to load at startup
    | UploadFailed                    // creating the temporary file or copying the upload raised
    | ConversionExited(code: int)     // ffmpeg exited non-zero (`check=True`)
    | ConversionFailed                // ffmpeg exited 0 but wrote no file
    | TranscriptionError(message: string)
    | DiarizationError(message: string)

  /** What running ffmpeg did: its exit status, and whether it left the
      converted file behind (it may do so even when it fails). */
  datatype Conversion = Conversion(exitCode: int, writesOutput: bool)

  /** What writing the upload to disk did: the temporary file was created
      and the upload copied into it, or creating the file raised (a suffix
      longer than a file name may be, say), or the copy raised after the
      file was created (a full disk, say). */
  datatype Upload = Stored | CreateFails | CopyFails

  /** The speaker label of every entry when no diarization pipeline is
      loaded. */
  const NotAvailable := "N/A"

  const MinSpeakersKey := "min_speakers"
  const MaxSpeakersKey := "max_speakers"

  /** The keyword options passed to the diarization pipeline: a speaker
      hint is present exactly when the client sent it, with the value the
      client sent, and nothing else is passed. */
  function Options(minSpeakers: Option<int>, maxSpeakers: Option<int>): (kwargs: map<string, int>)
    ensures MinSpeakersKey in kwargs <==> minSpeakers.Some?
    ensures MaxSpeakersKey in kwargs <==> maxSpeakers.Some?
    ensures minSpeakers.Some? ==> kwargs[MinSpeakersKey] == minSpeakers.value
    ensures maxSpeakers.Some? ==> kwargs[MaxSpeakersKey] == maxSpeakers.value
    ensures forall key :: key in kwargs ==> key == MinSpeakersKey || key == MaxSpeakersKey
  {
    var withMin := if minSpeakers.Some? then map[MinSpeakersKey := minSpeakers.value] else map[];
    if maxSpeakers.Some? then withMin[MaxSpeakersKey := maxSpeakers.value] else withMin
  }

  /** `diarize_audio` builds the options by mutation, starting from an empty
      dictionary and adding each hint that is not `None`. */
  method BuildOptions(minSpeakers: Option<int>, maxSpeakers: Option<int>) returns (kwargs: map<string, int>)
    ensures kwargs == Options(minSpeakers, maxSpeakers)
  {
    kwargs := map[];
    if minSpeakers.Some? {
      kwargs := kwargs[MinSpeakersKey := minSpeakers.value];
    }
    if maxSpeakers.Some? {
      kwargs := kwargs[MaxSpeakersKey := maxSpeakers.value];
    }
  }

  /** The fallback without diarization: every segment as the ASR engine
      gave it (text not stripped), labelled "N/A". */
  function Unlabelled(segments: seq<Segment>): (entries: seq<AlignedSegment>)
    ensures |entries| == |segments|
    ensures forall i :: 0 <= i < |segments| ==>
              entries[i] == AlignedSegment(segments[i].start, segments[i].end, segments[i].text, NotAvailable)
  {
    seq(|segments|, i requires 0 <= i < |segments| =>
      AlignedSegment(segments[i].start, segments[i].end, segments[i].text, NotAvailable))
  }

  /** The two paths keep the same intervals, in the same order; they
      differ in the label and in that the aligned path strips the text. */
  lemma FallbackMatchesAligned(segments: seq<Segment>, turns: seq<Turn>)
    ensures |Unlabelled(segments)| == |AlignAll(segments, turns)| == |segments|
    ensures forall i :: 0 <= i < |segments| ==>
              var plain := Unlabelled(segments)[i];
              var aligned := AlignAll(segments, turns)[i];
              && plain.start == aligned.start && plain.end == aligned.end
              && aligned.text == Strip(plain.text)
              && plain.speaker == NotAvailable
  {
  }

  /** The value of the `try` body: conversion errors first (a missing
      converted file is an error even after exit status 0), then the
      transcription, then either the aligned result or the "N/A"
      fallback. */
  function Respond(diarReady: bool, conversion: Conversion, converted: bool,
                   transcript: Result<seq<Segment>, string>,
                   diarization: Result<seq<Track>, string>): (r: Result<seq<AlignedSegment>, Error>)
    ensures conversion.exitCode != 0 ==> r == Failure(ConversionExited(conversion.exitCode))
    ensures conversion.exitCode == 0 && !converted ==> r == Failure(ConversionFailed)
    ensures r.Success? <==>
              conversion.exitCode == 0 && converted && transcript.Success? && (diarReady ==> diarization.Success?)
    ensures r.Success? ==>
              && |r.value| == |transcript.value|
              && forall i :: 0 <= i < |r.value| ==>
                   r.value[i].start == transcript.value[i].start && r.value[i].end == transcript.value[i].end
    ensures r.Success? && !diarReady ==>
              forall i :: 0 <= i < |r.value| ==>
                r.value[i].speaker == NotAvailable && r.value[i].text == transcript.value[i].text
    ensures r.Success? && diarReady ==>
              forall i :: 0 <= i < |r.value| ==>
                && r.value[i].text == Strip(transcript.value[i].text)
                && r.value[i].speaker == Dominant(transcript.value[i], Turns(diarization.value))
  {
    if conversion.exitCode != 0 then Failure(ConversionExited(conversion.exitCode))
    else if !converted then Failure(ConversionFailed)
    else if transcript.Failure? then Failure(TranscriptionError(transcript.error))
    else if !diarReady then Success(Unlabelled(transcript.value))
    else if diarization.Failure? then Failure(DiarizationError(diarization.error))
    else Success(AlignAll(transcript.value, Turns(diarization.value)))
  }

  /** The server: whether each engine loaded at startup, and the files
      that exist. */
  class Server {
    const asrReady: bool
    const diarReady: bool
    var files: set<string>

    constructor (asrReady: bool, diarReady: bool, files: set<string>)
      ensures this.asrReady == asrReady && this.diarReady == diarReady && this.files == files
    {
      this.asrReady := asrReady;
      this.diarReady := diarReady;
      this.files := files;
    }

    /** `if os.path.exists(path): os.remove(path)`: absence is no error. */
    method RemoveIfExists(path: string)
      modifies this
      ensures files == old(files) - {path}
    {
      if path in files {
        files := files - {path};
      }
    }

    /** The `try` body: convert, check that the converted file exists,
      transcribe, then diarize and align, or fall back to "N/A". Only
      the conversion touches the file system. */
    method Process(wavPath: string, minSpeakers: Option<int>, maxSpeakers: Option<int>,
                   conversion: Conversion,
                   transcribe: string -> Result<seq<Segment>, string>,
                   diarize: (string, map<string, int>) -> Result<seq<Track>, string>)
      returns (r: Result<seq<AlignedSegment>, Error>)
      modifies this
      ensures files == old(files) + (if conversion.writesOutput then {wavPath} else {})
      ensures r == Respond(diarReady, conversion, conversion.writesOutput || wavPath in old(files),
                           transcribe(wavPath), diarize(wavPath, Options(minSpeakers, maxSpeakers)))
    {
      if conversion.writesOutput {
        files := files + {wavPath};
      }
      if conversion.exitCode != 0 {
        return Failure(ConversionExited(conversion.exitCode));
      }
      if wavPath !in files {
        return Failure(ConversionFailed);
      }
      var transcript := transcribe(wavPath);
      if transcript.Failure? {
        return Failure(TranscriptionError(transcript.error));
      }
      var segments := transcript.value;
      if diarReady {
        var kwargs := BuildOptions(minSpeakers, maxSpeakers);
        var diarization := diarize(wavPath, kwargs);
        if diarization.Failure? {
          return Failure(DiarizationError(diarization.error));
        }
        var aligned := Align(segments, diarization.value);
        assert aligned == AlignAll(segments, Turns(diarization.value));
        r := Success(aligned);
      } else {
        r := Success(Unlabelled(segments));
      }
    }

    /** `POST /diarize` as written. `tmpStem` is the directory and random
      name that `tempfile` picks; with the suffix appended it names a file
      that does not exist yet. `upload` says whether creating that file or
      copying the upload into it raises. When the ASR model is missing, or
      the file cannot be created, the request fails with no file created.
      The upload is copied into the file before the `try`: a failing copy
      ends the request with the temporary file still on disk. Otherwise the upload is
      processed and both the temporary and the converted path are gone
      afterwards, whatever the outcome. */
    method Diarize(filename: string, minSpeakers: Option<int>, maxSpeakers: Option<int>,
                   tmpStem: string, upload: Upload, conversion: Conversion,
                   transcribe: string -> Result<seq<Segment>, string>,
                   diarize: (string, map<string, int>) -> Result<seq<Track>, string>)
      returns (r: Result<seq<AlignedSegment>, Error>)
      requires tmpStem + UploadSuffix(filename) !in files
      modifies this
      ensures !asrReady ==> r == Failure(AsrNotInitialized) && files == old(files)
      ensures asrReady && upload == CreateFails ==> r == Failure(UploadFailed) && files == old(files)
      ensures asrReady && upload == CopyFails ==>
                r == Failure(UploadFailed) && files == old(files) + {tmpStem + UploadSuffix(filename)}
      ensures asrReady && upload == Stored ==>
                var tmpPath := tmpStem + UploadSuffix(filename);
                var wavPath := ConvertedPath(tmpPath);
                && files == old(files) - {tmpPath, wavPath}
                && r == Respond(diarReady, conversion, conversion.writesOutput || wavPath in old(files),
                                transcribe(wavPath), diarize(wavPath, Options(minSpeakers, maxSpeakers)))
    {
      if !asrReady {
        return Failure(AsrNotInitialized);
      }
      var suffix := UploadSuffix(filename);
      if upload == CreateFails {
        return Failure(UploadFailed);
      }
      var tmpPath := tmpStem + suffix;
      files := files + {tmpPath};
      if upload == CopyFails {
        return Failure(UploadFailed);
      }
      var wavPath := ConvertedPath(tmpPath);
      r := Process(wavPath, minSpeakers, maxSpeakers, conversion, transcribe, diarize);
      RemoveIfExists(tmpPath);
      RemoveIfExists(wavPath);
    }

    /** `POST /diarize` with the upload copied inside the `try`, so that
      the cleanup covers it: whatever the outcome, including a failing
      copy, neither the temporary nor the converted path exists
      afterwards and every other file is as before. Creating the file
      stays before the `try`: when it raises no file has been touched. */
    method DiarizeCleaned(filename: string, minSpeakers: Option<int>, maxSpeakers: Option<int>,
                          tmpStem: string, upload: Upload, conversion: Conversion,
                          transcribe: string -> Result<seq<Segment>, string>,
                          diarize: (string, map<string, int>) -> Result<seq<Track>, string>)
      returns (r: Result<seq<AlignedSegment>, Error>)
      requires tmpStem + UploadSuffix(filename) !in files
      modifies this
      ensures !asrReady ==> r == Failure(AsrNotInitialized) && files == old(files)
      ensures asrReady && upload == CreateFails ==> r == Failure(UploadFailed) && files == old(files)
      ensures asrReady && upload != CreateFails ==>
                var tmpPath := tmpStem + UploadSuffix(filename);
                var wavPath := ConvertedPath(tmpPath);
                && files == old(files) - {tmpPath, wavPath}
                && r == if upload == CopyFails then Failure(UploadFailed)
                        else Respond(diarReady, conversion, conversion.writesOutput || wavPath in old(files),
                                     transcribe(wavPath), diarize(wavPath, Options(minSpeakers, maxSpeakers)))
    {
      if !asrReady {
        return Failure(AsrNotInitialized);
      }
      var suffix := UploadSuffix(filename);
      if upload == CreateFails {
        return Failure(UploadFailed);
      }
      var tmpPath := tmpStem + suffix;
      files := files + {tmpPath};
      var wavPath := ConvertedPath(tmpPath);
      if upload == CopyFails {
        r := Failure(UploadFailed);
      } else {
        r := Process(wavPath, minSpeakers, maxSpeakers, conversion, transcribe, diarize);
      }
      RemoveIfExists(tmpPath);
      RemoveIfExists(wavPath);
    }
  }
}
