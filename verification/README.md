# Transcript.AI media processor — a Dafny model

Transcript.AI watches a media directory and turns every supported audio or video file into a
text transcript. Its core is in `main.py`:

- `process_file` routes a path by its lower-cased `os.path.splitext` extension. Unsupported
  extensions are ignored and paths already in the processed-files ledger are skipped. A video
  (`.mp4`, `.mkv`, `.mov`, `.flv`) is first converted by ffmpeg into the `.wav` beside it,
  unless that `.wav` already exists. Everything else is transcribed directly.
- `transcribe_audio` skips a path the ledger already holds. Otherwise it asks the Whisper model
  for the text and writes it to the `.txt` beside the audio, records the path and saves the ledger.
- `scan_directory` hands every file found under the directory to `process_file`.

The model treats these as pure transitions over a `State`. A state is the ledger, a map from
path to processed flag, together with the set of files that exist. The outside world is an
`Oracle`. The oracle says whether an ffmpeg conversion succeeds and what text the speech model
returns; `None` stands for the model raising. Every step yields an `Outcome`, which holds:

- the new state;
- the observable effects in order: skip notices, converter and transcriber calls, the transcript
  written and the ledger saved;
- whether an exception escaped the step.

Modules:

- `Paths` (`paths.dfy`): `str.rfind`, `str.rsplit(".", 1)[0]`, POSIX `os.path.splitext` and
  `str.lower` as used on extensions. `ExtDot` is a declarative description of the dot that
  starts an extension.
- `Media` (`media.dfy`): the supported and video extension sets, classification, and the
  derived `.wav` and `.txt` paths. It also defines the ledger key: a video is recorded under its
  derived `.wav` path, anything else under its own path.
- `Pipeline` (`pipeline.dfy`): `transcribe_audio`, the video branch and `process_file`, and
  the properties of one step.
- `Scanner` (`scanner.dfy`): `scan_directory` as a fold of `process_file` over the discovered
  paths. This module proves the rescan theorem: after a first scan that did not raise, a second
  scan with the same oracle transcribes nothing, raises nothing and leaves the ledger alone.
- `Scenarios` (`scenarios.dfy`): worked runs on concrete paths.

The ledger keying is asymmetric, as in the code. `process_file` checks the ledger under the
video's own path, but `transcribe_audio` records only the derived `.wav` path. The model keeps
this and proves what follows from it:

- a video's own entry never changes;
- processing a video and then its `.wav` transcribes at most once;
- a rescan skips videos through their `.wav` key.

## Model

| member | source | states |
|---|---|---|
| Paths.Extension | main.py:52 | the extension part of `os.path.splitext`; no contract of its own, characterised through `SplitExt` and `ClassifyByExtension` |
| Paths.Lower | main.py:52 | `str.lower` on the characters that can lower-case to an ASCII letter; no contract of its own, characterised by `LowerCharKeepsSeparators`, `LowerOfLowerCase` and `ClassifyIgnoresCase` |
| Paths.BeforeLastDot | main.py:40 | `rsplit(".", 1)[0]`; no contract of its own, characterised by `BeforeLastDotCutsAtLastDot`, `BeforeLastDotOfAppended` and `BeforeLastDotIsSplitExtRoot` |
| Paths.RFind | main.py:40 | the index of the last occurrence of a character, or -1 when it does not occur: that index holds the character and no later index does |
| Paths.BeforeLastDotCutsAtLastDot | main.py:40 | `rsplit(".", 1)[0]` is a prefix of the path; it is the whole path when there is no dot, otherwise it stops exactly at the last dot with no dot after it |
| Paths.BeforeLastDotOfAppended | main.py:60 | cutting at the last dot undoes appending a one-dot suffix such as `.wav`, so the derived `.wav` and its `.txt` share the same stem |
| Paths.HasNonDot | main.py:52 | splitext's scan over the leading dots of a file name finds a non-dot character exactly when one exists in the range |
| Paths.SplitExt | main.py:52 | POSIX splitext: root and extension concatenate back to the path; a non-empty extension starts at the one extension dot; an empty extension means the path has no extension dot (dot files, dots only in directories, no dot at all) |
| Paths.ExtDotUnique | main.py:52 | a path has at most one extension dot |
| Paths.BeforeLastDotIsSplitExtRoot | main.py:52-60 | whenever splitext finds an extension, `rsplit(".", 1)[0]` cuts at the same dot, so the derived paths replace exactly the extension that was classified |
| Media.Classify | main.py:52-59 | the route of a path: unsupported, video or audio; no contract of its own, characterised by `ClassifyByExtension` and `ClassifyIgnoresCase` |
| Media.AudioPathOf | main.py:60 | the `.wav` a video is converted to; no contract of its own, characterised by `VideoAudioPath`, `VideoAudioPathDiffers` and `DerivedAudioIsAudio` |
| Media.TranscriptPathOf | main.py:40 | the `.txt` a transcript is written to; no contract of its own, characterised by `TranscriptPathReplacesExtension` and `TranscriptNeverAudioPath` |
| Media.LedgerKey | main.py:47-72 | the path a successful step records, the `.wav` for a video and the path itself otherwise; no contract of its own, characterised by `LedgerOnlyGrows` and `VideoRecordedUnderAudioPath` |
| Media.ClassifyByExtension | main.py:52-59 | a path is processed exactly when it has an extension dot whose lower-cased extension is in the eight supported formats, and it takes the video route exactly when that extension is one of the four video formats |
| Media.ClassifyIgnoresCase | main.py:52 | paths that agree after lower-casing take the same route (`clip.MP4` is a video like `clip.mp4`) |
| Media.VideoAudioPath | main.py:59-60 | a video with a video extension is routed as video, its `.wav` path replaces the extension by `.wav`, and that path is never the video itself |
| Media.VideoAudioPathDiffers | main.py:60 | a path routed as video differs from its derived `.wav` path |
| Media.WavIsAudio | main.py:59 | a path whose extension is exactly `.wav` is supported and is not routed as video |
| Media.DerivedAudioIsAudio | main.py:40-60 | the `.wav` derived from a video is itself audio, and its transcript is the video's path with the extension replaced by `.txt` |
| Media.TranscriptPathReplacesExtension | main.py:40 | the transcript of a path with an extension is that path with the extension replaced by `.txt` |
| Media.TranscriptNeverAudioPath | main.py:40-60 | a transcript path never coincides with a derived `.wav` path |
| Pipeline.TranscribeAudio | main.py:30-48 | a recorded path only yields a skip notice; otherwise the step raises exactly when the speech model raises, and then changes nothing; a success records the path; the ledger gains at most that one fresh key, marked true, in step with the one transcript written; the only file it may create is the `.txt` |
| Pipeline.TranscriptionWritesAndSaves | main.py:36-48 | a successful transcription writes the recognised text to the `.txt` beside the audio, adds that file, marks the audio processed, and its last act saves exactly the updated ledger |
| Pipeline.TranscriberNeverConverts | main.py:30-48 | transcription never invokes the converter |
| Pipeline.ProcessVideo | main.py:59-70 | the video branch records at most its `.wav` key, raises only when the speech model raises on the `.wav`, creates no file other than the `.wav` and its `.txt`, and a `.wav` it creates is recorded unless it raised |
| Pipeline.ProcessFile | main.py:50-72 | unsupported paths change nothing and emit nothing; a supported recorded path only yields a skip notice; otherwise the ledger gains at most the ledger key, fresh and marked true; an exception comes only from the speech model; files are never removed |
| Pipeline.LedgerOnlyGrows | main.py:47 | a step never removes or changes a ledger entry; the only key it may add is the path's ledger key, marked true |
| Pipeline.VideoRecordedUnderAudioPath | main.py:55-70 | processing a video never changes whether the video's own path is recorded; when it transcribes, it records the previously unrecorded `.wav` path |
| Pipeline.ExistingWavSkipsConversion | main.py:62-70 | when the `.wav` already exists the step is exactly a transcription of that `.wav` and never invokes the converter |
| Pipeline.ConvertedVideoIsTranscribed | main.py:59-70 | for a new video whose conversion and transcription succeed: the converter is invoked first; the `.wav` and its `.txt` are the files created; the `.wav` is the one path transcribed and recorded |
| Pipeline.ConversionFailureAborts | main.py:64-68 | a failed conversion leaves the state unchanged, is reported rather than raised, and transcribes nothing |
| Pipeline.FilesCreated | main.py:50-72 | the only files a step creates are the transcript of its ledger key and, for a video, the `.wav`, which is recorded unless the speech model raised |
| Pipeline.RecordedKeyNotTranscribed | main.py:32-34 | a path whose ledger key is recorded is not transcribed again, does not raise and leaves the ledger unchanged |
| Pipeline.ProcessTwiceTranscribesAtMostOnce | main.py:50-72 | processing the same path twice transcribes at most once, whatever the oracles answer; after a transcription the second call, with any oracle, is exactly a skip notice for the ledger key and changes nothing |
| Pipeline.VideoThenAudioTranscribesOnce | main.py:59-72 | processing a video and then its derived `.wav` transcribes at most once |
| Scanner.ScanDirectory | main.py:74-80 | the final ledger is the initial ledger with exactly the transcribed paths marked; no path is transcribed twice; each transcribed path was unrecorded before and is the ledger key of a scanned path; no file is removed |
| Scanner.ConversionFailureDoesNotStopScan | main.py:66-80 | a failed conversion of the first path leaves the scan's final state and exception status as if that path had not been there |
| Scanner.SettledIsQuiet | main.py:50-72 | a path that is unsupported, recorded, or a video whose conversion is bound to fail is processed without transcription, exception or ledger change |
| Scanner.ProcessSettles | main.py:50-72 | a step that does not raise leaves its own path settled |
| Scanner.ProcessTwiceIsQuiet | main.py:30-72 | processing the same path a second time with the same oracle writes no transcript and changes neither the ledger nor the files, and if the first call raised the second raises too |
| Scanner.CreatedWavIsRecorded | main.py:59-70 | a step that creates a video's `.wav` without raising has recorded that `.wav` |
| Scanner.ProcessKeepsSettled | main.py:50-72 | processing a path without an exception keeps every settled path settled |
| Scanner.ScanKeepsSettled | main.py:74-80 | a scan that does not raise keeps a settled path settled |
| Scanner.ScanSettlesAll | main.py:74-80 | a scan that does not raise leaves every scanned path settled |
| Scanner.ScanOfSettledIsQuiet | main.py:74-80 | scanning settled paths transcribes nothing, raises nothing and leaves the ledger unchanged |
| Scanner.RescanTranscribesNothing | main.py:74-80 | after a first scan that did not raise, scanning the same paths again with the same oracle transcribes nothing, raises nothing and leaves the ledger as the first scan left it |
| Scanner.ReliableSpeechScansEverything | main.py:74-80 | when the speech model never raises, no scan is cut short |
| Scenarios.InterviewPaths | main.py:52-60 | `media/interview.MP4` is a video; it converts to `media/interview.wav`, whose transcript is `media/interview.txt` |
| Scenarios.FreshVideoRun | main.py:50-72 | processing that video in a directory holding only it, with ffmpeg and the speech model succeeding, creates the `.wav` and `.txt` and records only the `.wav` |
| Scenarios.DotFileIgnored | main.py:52-54 | a file named `.mp3` has no extension and is ignored |
| Scenarios.LastDotStartsExtension | main.py:52-59 | `take.2.WAV` is classified by its last extension and is audio |

## Left out

- Loading and saving the ledger file (`processed_files.json`, lines 18-28): file I/O. A save is
  the `LedgerSaved` effect carrying the in-memory ledger. JSON encoding and values other than
  `true` are not modelled; the flag is never read.
- Whisper model loading and inference (lines 37-38): an oracle from audio path to text, or
  `None` when it raises.
- ffmpeg (line 65): an oracle saying whether conversion succeeds. A successful conversion
  creates the `.wav`. A failed one is assumed to leave no partial `.wav` behind.
- Failures of the transcript write or the ledger save (lines 41-42, 27-28): the file system is
  assumed to accept every write.
- The watchdog `FileHandler` and `Observer`, the sleep loop and the keyboard-interrupt handling
  (lines 82-105): threads and signals. Each created file is another `process_file` call, which
  the step lemmas cover.
- Console messages other than the skip notice and the conversion failure: not observable state.
- The directory walk order of `os.walk` (line 77): the scan takes an arbitrary sequence of
  discovered paths. Scanned paths are not required to be in `files`, although `os.walk` yields
  only existing files.
- `os.path.splitext` on Windows (`ntpath`, with `\` and drive letters): only POSIX paths are
  modelled.
- `str.lower` beyond the characters that can lower-case to an ASCII letter: 'A'-'Z' and U+212A
  KELVIN SIGN are mapped; other characters are kept as they are. No other character lower-cases
  to a string of ASCII letters, digits and dots only, so membership in the extension sets is
  decided exactly. Transcript texts are arbitrary strings and are not normalised.
- File identity: `files` identifies a file by its exact path string. Case-insensitive file
  systems, `./` spellings and symbolic links are not modelled, so the existence check of line
  62 and the ledger lookups of lines 32 and 55 compare exact strings.
