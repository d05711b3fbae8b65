# Dominant-speaker alignment and the `/diarize` request, in Dafny

This project models the core of the transcription server in
`funasr-server/main.py`:

- **`align_transcription`** gives each ASR transcript segment a speaker
  label. For every diarization turn it computes the overlap with the
  segment, `max(0, min(ends) - max(starts))`. It adds each strictly
  positive overlap to its speaker's sum in an insertion-ordered dictionary.
  It picks the first key of maximal sum, or `"UNKNOWN"` when the
  dictionary is empty. The output keeps the segment's interval, strips its
  text and follows segment order.
- **`diarize_audio`** runs one request. It fails at once when the ASR model
  is missing. Otherwise it writes the upload to a temporary file whose
  suffix is the upload's extension (`.wav` when there is none) and converts
  it with ffmpeg to `<tmp>.converted.wav`. A missing converted file is an
  error even when ffmpeg exits 0. It then transcribes the converted file.
  With a diarization pipeline it forwards only the speaker hints that were
  sent, then aligns. Without one, every segment is labelled `"N/A"` and its
  text is left as it is. Once the upload has been copied, both temporary
  paths are removed on every exit. The copy itself happens before the
  `try`, so a failing copy leaves the temporary file behind (see
  "## Findings").

Times are `real`. The file system is a set of paths. How writing the upload went is an
input: stored, creating the temporary file raised, or the copy raised. The ffmpeg run is
given as its outcome: an exit status, and whether it wrote the output file.
The ASR and diarization engines are function parameters from the converted
file's path to a result or an error message.

Modules, one file each:

- `wrappers.dfy`: `Option` and `Result`.
- `text.dfy`: Python's `str.strip()`.
- `paths.dfy`: POSIX `os.path.splitext`, the upload suffix and the converted path.
- `alignment.dfy`: `align_transcription`. The spec functions
  `KeyOrder` and `Total` are defined by recursion on the prefix of the
  turns, which is the order the loop visits them; `FirstMax` recurses on
  the prefix of the keys, and `Dominant` combines them. The
  methods `Flatten`, `Accumulate`, `MaxByValue`, `DominantSpeaker` and
  `Align` are the loops of `align_transcription`, proved against those functions.
- `pipeline.dfy`: the `diarize_audio` skeleton. It holds the class
  `Server` (engine flags and the file set) and the outcome function
  `Respond`.
- `scenarios.dfy`: concrete cases.

Notes on what the code does:

- Every failure inside `diarize_audio` is returned as HTTP 500, including
  a failed conversion; only FastAPI's own form validation answers with a
  client error (422).
- The code does not guard against malformed engine output such as negative
  durations. A turn or segment with `end <= start` simply overlaps nothing.
- Ties are not left open: the code picks the label whose first positively
  overlapping turn comes first. This follows from dictionary insertion
  order and from `max` keeping the first maximal key.

## Model

| member | source | states |
|---|---|---|
| `Text.Strip` | funasr-server/main.py:94 | `seg.text.strip()`: the result is a contiguous piece of the text, everything removed on either side is whitespace, and the result neither starts nor ends with whitespace |
| `Text.StripIdempotent` | funasr-server/main.py:94 | stripping a stripped text changes nothing |
| `Text.StripPadding` | funasr-server/main.py:94 | whitespace added on both sides of a trimmed text is exactly what strip removes |
| `Paths.SplitExt` | funasr-server/main.py:110 | `os.path.splitext`: root + extension is the input; the extension is empty or a dot followed by no dot or slash; it is non-empty exactly when the last component has a dot after some non-dot character |
| `Paths.UploadSuffix` | funasr-server/main.py:110 | the temporary suffix starts with a dot and holds no further dot or slash; when the filename has an extension it is that extension (`splitext`'s second part, an ending of the filename), and ".wav" otherwise |
| `Paths.ConvertedPath` | funasr-server/main.py:115 | the converted path extends the temporary path, differs from it and ends in ".wav" |
| `Alignment.Overlap` | funasr-server/main.py:78-80 | the overlap is never negative; it is positive exactly when both intervals have positive length and share a stretch; touching or disjoint intervals give 0; a positive overlap is at most either interval's length |
| `Alignment.Total` | funasr-server/main.py:75-83 | a label's accumulated overlap is the sum of its turns' positive overlaps, and is never negative |
| `Alignment.FirstMax` | funasr-server/main.py:87 | `max(d, key=d.get)` returns one of the keys, and no key has a greater value |
| `Alignment.Flatten` | funasr-server/main.py:65-67 | the annotation's tracks become `(start, end, label)` triples in the order they are yielded |
| `Alignment.Accumulate` | funasr-server/main.py:75-83 | after the loop over all turns, the dictionary's keys are the labels in order of their first positively overlapping turn, and each key's value is that label's accumulated overlap |
| `Alignment.MaxByValue` | funasr-server/main.py:87 | the loop that keeps the best key and replaces it only on a strictly greater value computes `FirstMax` |
| `Alignment.DominantSpeaker` | funasr-server/main.py:75-89 | the per-segment body yields the dominant label, or "UNKNOWN" when nothing overlaps |
| `Alignment.Align` | funasr-server/main.py:56-98 | one output entry per segment, in segment order, with the segment's start and end, its stripped text and its dominant speaker over the flattened annotation |
| `Alignment.KeyOrderMember` | funasr-server/main.py:82-83 | a label becomes a dictionary key exactly when one of its turns overlaps the segment by a positive amount |
| `Alignment.TotalPositive` | funasr-server/main.py:82-83 | a label is a key exactly when its accumulated overlap is positive; labels that never overlap have sum 0 |
| `Alignment.KeyOrderDistinct` | funasr-server/main.py:83 | each label is a key at most once |
| `Alignment.KeyOrderPrefix` | funasr-server/main.py:83 | keys are only appended: the keys after a prefix of the turns are a prefix of the final keys |
| `Alignment.TotalAppend` | funasr-server/main.py:76-83 | accumulated overlap is additive over concatenated turn lists, so several smaller turns of one speaker add up |
| `Alignment.TotalOrderInsensitive` | funasr-server/main.py:76-83 | the sums do not depend on the order of the turn blocks: turns need not be sorted by time |
| `Alignment.FirstMaxEarliest` | funasr-server/main.py:87 | when the key at position p ties with the winner, the winner is among the first p + 1 keys |
| `Alignment.DominantUnknown` | funasr-server/main.py:86-89 | with no positively overlapping turn, including with no turns at all, the label is "UNKNOWN"; otherwise it is the label of a turn that overlaps the segment |
| `Alignment.DominantMaximal` | funasr-server/main.py:86-87 | the chosen label's accumulated overlap is at least every label's |
| `Alignment.DominantTieBreak` | funasr-server/main.py:86-87 | if an overlapping turn j's label ties with the chosen label, the chosen label owns an overlapping turn at or before j: among tied labels the earliest first overlap wins |
| `Alignment.TieBreakAt` | funasr-server/main.py:86-87 | the tie-break for one given turn j |
| `Pipeline.Options` | funasr-server/main.py:138-140 | a hint key is present exactly when that hint was sent, it carries the sent value, and no other key is present |
| `Pipeline.BuildOptions` | funasr-server/main.py:138-140 | building the options by mutation yields exactly `Options` |
| `Pipeline.Unlabelled` | funasr-server/main.py:149 | the fallback has one entry per segment with the segment's start, end and unstripped text, labelled "N/A" |
| `Pipeline.FallbackMatchesAligned` | funasr-server/main.py:146-149 | the fallback and the aligned output keep the same intervals in the same order; the aligned text is the stripped fallback text |
| `Pipeline.Respond` | funasr-server/main.py:117-151 | a non-zero ffmpeg exit is an error; a missing converted file is an error even after exit 0; the request succeeds exactly when conversion, transcription and (when a pipeline is loaded) diarization all succeed; on success the entries keep the segments' count and intervals; without diarization the labels are "N/A" and the texts unstripped; with it, texts are stripped and labels are the dominant speakers |
| `Pipeline.Server.constructor` | funasr-server/main.py:16-17 | the server starts with the given engine availability and file set |
| `Pipeline.Server.RemoveIfExists` | funasr-server/main.py:158-159 | removing a path leaves every other file, and a missing path is no error |
| `Pipeline.Server.Process` | funasr-server/main.py:117-151 | the `try` body adds only the converted file, and only when ffmpeg wrote it; its result is `Respond` with the engines applied to the converted path and the filtered options |
| `Pipeline.Server.Diarize` | funasr-server/main.py:100-159 | a missing ASR model, or a temporary file that cannot be created, fails with no file touched; a failing upload copy fails and leaves the temporary file on disk, every other file as before; otherwise the result is `Respond`, and afterwards neither the temporary nor the converted path exists while every other file is as before |
| `Pipeline.Server.DiarizeCleaned` | funasr-server/main.py:110-159 | with the copy under the cleanup: a missing ASR model or a failed creation fails with no file touched; otherwise neither temporary path exists afterwards, every other file is as before, and the result is the upload failure or `Respond` |
| `Scenarios.LongerTurnWins` | funasr-server/main.py:86-87 | turns A 0–3 s and B 3–5 s on segment 0–5 s give A |
| `Scenarios.TieGoesToFirstTurn` | funasr-server/main.py:86-87 | an exact 2.5 s / 2.5 s tie goes to whichever label's turn is listed first |
| `Scenarios.NoOverlapIsUnknown` | funasr-server/main.py:82-89 | a distant turn, a merely touching turn, or no turns give "UNKNOWN" |
| `Scenarios.SmallTurnsAddUp` | funasr-server/main.py:83 | two 2 s turns of A beat one 3 s turn of B |
| `Scenarios.ConversionFailureIsAnError` | funasr-server/main.py:119-124 | a non-zero exit, or exit 0 without output, ends the request with an error and no entries |
| `Scenarios.LastExtensionOnly` | funasr-server/main.py:110 | "talk.tar.gz" gets the suffix ".gz"; the leading-dot name ".env" gets ".wav" |
| `Scenarios.UploadCopyFailureLeaksFile` | funasr-server/main.py:111-113 | a request whose upload copy fails ends with the temporary file "/tmp/up.gz" still on disk |
| `Scenarios.UploadCopyFailureCleanedUp` | funasr-server/main.py:111-113 | with the copy under the cleanup, the same request leaves no file |
| `Scenarios.UploadCreateFailureTouchesNothing` | funasr-server/main.py:111 | a request whose temporary file cannot be created fails and leaves the file set as it was |
| `Scenarios.NoDiarizationIsNotAvailable` | funasr-server/main.py:147-149 | without a pipeline, a segment comes back labelled "N/A" with its text unstripped |

## Findings

| source | as written | input that shows it | evidently intended | confidence | as-written member | corrected member |
|---|---|---|---|---|---|---|
| funasr-server/main.py:111-113 | the temporary file is created and the upload copied into it before the `try`, so the `finally` at lines 157-159 does not cover a failing copy | an upload "talk.tar.gz" whose copy raises (a full disk): the request fails and "/tmp/up.gz" stays on disk | the temporary file is removed on every exit, as it is for every failure inside the `try` | medium, not executed | `Pipeline.Server.Diarize`, `Scenarios.UploadCopyFailureLeaksFile` | `Pipeline.Server.DiarizeCleaned`, `Scenarios.UploadCopyFailureCleanedUp` |

## Left out

- Model loading, the `HF_TOKEN` environment and secret-file lookup, and the global engine handles (funasr-server/main.py:15-54): startup glue and foreign library calls. They appear only as the `asrReady` and `diarReady` flags of `Server`.
- The `/health` endpoint (funasr-server/main.py:161-163): it only reports the two flags.
- FastAPI routing and the `HTTPException` mapping: every `Error` reaches the client as status 500. The errors raised inside the `try`, and the missing ASR model, carry the exception's message as detail. `UploadFailed` escapes the handler before the `try`, so the client gets the framework's plain "Internal Server Error". The model keeps the error kinds instead of their message strings.
- The ffmpeg subprocess, `tempfile` and `shutil`: the conversion is an outcome value, and the upload write is a value saying whether creating the file or copying into it raises; why either raises (a name too long, a full disk) is not modelled. The random temporary name is a parameter whose path must not exist yet, which `tempfile` guarantees. File contents are not modelled, only which paths exist.
- Pipeline.Server.Diarize: does not model an `os.remove` that raises in the `finally` (funasr-server/main.py:158-159), which would skip removing the converted file; removal of an existing path always succeeds in the model.
- The faster-whisper and pyannote calls: they are pure function parameters. The model therefore does not record that the diarization engine is never called when an earlier step failed. It only records that its result is then unused.
- A missing upload filename: `os.path.splitext(None)` raises before the `try`. The model takes the filename as a string.
- Floating-point rounding in the overlap sums: exact `real` arithmetic is used.
- Logging (`print`) and concurrency between requests.
- The repository-root `main.py` and `download_models.py`: thin wrappers over the whisperx library, with no logic of their own.
