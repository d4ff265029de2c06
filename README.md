# media2text in Dafny

`media2text.py` turns a video or audio file into two text files. A video first has its
audio track written to `temp_audio.wav`. A small Whisper model then detects the spoken
language, and a Whisper model whose size depends on that language transcribes the audio.
The raw transcript is saved to `transcript_raw.txt`. It is then sent to a chat-completion
service for grammar correction: one verified request, plus one unverified retry after a
certificate error, keeping the untuned text on any failure. The result is saved to
`transcript_tuned.txt`, and the temporary audio file is removed.

The model has five modules:

- `Wrappers` (wrappers.dfy): `Option` and Python's `dict.get`.
- `Classifier` (classifier.dfy): the path's final component and suffix as `pathlib` computes them for a POSIX path, `str.lower` as far as it can matter for an ASCII extension, the two extension sets, and the routing.
- `Speech` (speech.dfy): the detected-language fallback and the choice of model size.
- `Tuner` (tuner.dfy): the instruction table, the request headers and body, and the retry policy as a pure function over an oracle `send: Request -> Outcome`.
- `Pipeline` (pipeline.dfy): `main`, in two forms.
  - `Execute` is a pure specification over a filesystem map, and returns the status, the new files and the external calls made, in order.
  - The class `Workspace` holds the filesystem as a field. Its methods mirror the source's functions; `Workspace.Run` is `main`. Each method is proved to change the state exactly as the corresponding specification function says.

The decoder, the speech models, the network, whether an output file can be written and
whether the temporary file can be removed are oracles held in the `Externals` datatype.
Every property below holds for all of their behaviours.

## Model

| member | source | states |
|---|---|---|
| Wrappers.Get | media2text.py:54 | a present key gives its value, an absent key gives the fallback |
| Classifier.LastIndexOf | media2text.py:37 | the result is -1 exactly when the character is absent; otherwise it is a position of the character with none after it |
| Classifier.Split | media2text.py:37 | at least one piece, and no piece contains '/' |
| Classifier.JoinSplit | media2text.py:37 | joining the pieces with '/' gives back the path |
| Classifier.ComponentsAppend | media2text.py:37 | the components of two runs of pieces are those of the first followed by those of the second, so parsing keeps the pieces' order |
| Classifier.ComponentsKeep | media2text.py:37 | a piece is among the components exactly when it is one of the pieces and is neither empty nor "." |
| Classifier.NameTrailingSlash | media2text.py:37 | a trailing "/" does not change the final component ("clips/a.MKV/" is named "a.MKV") |
| Classifier.NameTrailingDot | media2text.py:37 | a trailing "/." does not change the final component |
| Classifier.Components | media2text.py:37 | the pieces that name components, in order; its contract keeps them separator-free, and ComponentsAppend and ComponentsKeep state which pieces are kept and in what order |
| Classifier.Name | media2text.py:37 | `PurePosixPath(p).name`: never contains '/' and is never "."; NameOfChild, NameTrailingSlash and NameTrailingDot pin it down |
| Classifier.Suffix | media2text.py:37 | the suffix is empty, or it is a dot followed by at least one dot-free, '/'-free character, and is a proper tail of the name |
| Classifier.NameOfChild | media2text.py:37 | a separator-free component is its own name, and the name of any path ending in "/" + it |
| Classifier.LastIndexOfAppend | media2text.py:37 | appending characters other than c leaves the last c where it was |
| Classifier.LastIndexOfAt | media2text.py:37 | a c with no c after it is the last c |
| Classifier.SuffixOfFile | media2text.py:37 | a file named stem + ext, with a non-empty stem and a dot-led, dot-free ext, has suffix ext, with or without a directory |
| Classifier.NoSuffixUnsupported | media2text.py:37 | a name with no dot, with its only dot first, or ending in a dot has an empty suffix and is unsupported |
| Classifier.Lower | media2text.py:37 | `str.lower` character by character, keeping the length; SplitLower, NameLower and SuffixLower state how it interacts with the path |
| Classifier.LowerChar | media2text.py:37 | lower-casing maps '.' and '/' only to themselves and never yields A-Z |
| Classifier.SplitLower | media2text.py:37 | lower-casing a path and splitting it gives the lower-cased pieces |
| Classifier.ComponentsLower | media2text.py:37 | lower-casing commutes with dropping empty and "." pieces |
| Classifier.NameLower | media2text.py:37 | the name of the lower-cased path is the lower-cased name |
| Classifier.SuffixLower | media2text.py:37 | the suffix of the lower-cased path is the lower-cased suffix |
| Classifier.IsSupportedFile | media2text.py:36-37 | `is_supported_file`: the lower-cased suffix is in the set; Classify, ClassifyIgnoresCase and ExtensionsRoute state its consequences |
| Classifier.Classify | media2text.py:163-170 | video exactly when the lower-cased suffix is a video extension, audio exactly when it is an audio extension, unsupported exactly when it is neither |
| Classifier.ClassifyIgnoresCase | media2text.py:37 | paths that agree once lower-cased are routed alike |
| Classifier.ClassifyTrailingSeparator | media2text.py:37 | "clips/a.MKV/" and "clips/a.MKV/." are routed as "clips/a.MKV" is |
| Classifier.ClassifyUpper | media2text.py:37 | upper-casing a path (X.MP4 against x.mp4) does not change its route |
| Classifier.ExtensionShape | media2text.py:16-17 | every listed extension is a dot and three dot-free characters that lower-casing leaves unchanged |
| Classifier.ExtsDisjoint | media2text.py:16-17 | no extension is in both sets |
| Classifier.ExtensionsRoute | media2text.py:16-17 | a file with any listed extension, in any directory, is routed to that extension's own path |
| Speech.DetectedLanguage | media2text.py:54 | the result's language entry when present, "en" otherwise |
| Speech.ModelSize | media2text.py:62 | "medium" exactly for "fa", "base" for every other code |
| Speech.SilentDetectionUsesBase | media2text.py:54-62 | a result with no language entry leads to English and the base model |
| Tuner.Instruction | media2text.py:91-102 | a listed language gets its table entry; any other gets the literal "default" |
| Tuner.InstructionTable | media2text.py:91-102 | in the program's table: the Persian prompt exactly for "fa", the English prompt exactly for "en", the default-entry text only for the key "default", and the literal "default" exactly for every other code |
| Tuner.Headers | media2text.py:76-80 | exactly the three headers, with the key as a bearer token |
| Tuner.BuildPayload | media2text.py:105-112 | the body names the model and has two messages: the system instruction, then the user text |
| Tuner.OpenRouter | media2text.py:76-80 | the program's service: its endpoint, headers, model and instruction table; ProgramRequests and InstructionTable state its values |
| Tuner.MakeRequest | media2text.py:116-135 | one attempt's request, which differs between the two attempts only in certificate verification; TuneRequests and RequestsCarryText state its contents |
| Tuner.Tune | media2text.py:114-145 | one or two requests |
| Tuner.TuneRequests | media2text.py:114-137 | the verified request comes first; an unverified second request is made exactly when the first ended in a certificate error; both carry the same body; the value returned is the content of the last attempt if it succeeded (a text, or a non-string value such as null), the input text otherwise |
| Tuner.RequestsCarryText | media2text.py:105-135 | every request goes to the service's endpoint with its headers and model, and its messages are exactly the instruction and the unchanged input text |
| Tuner.ProgramRequests | media2text.py:76-121 | the program's requests go to the OpenRouter URL with the key as a bearer token and name the fixed model |
| Tuner.TuneResult | media2text.py:114-145 | the verified attempt's content if it succeeded; else the retry's content if there was a retry and it succeeded; else the input text. A content that is not a string is returned as it is |
| Tuner.FailedTuningKeepsText | media2text.py:139-145 | when no attempt succeeds, the input text is returned unchanged |
| Tuner.EchoServiceKeepsText | media2text.py:105-123 | a service that echoes the user message gives back the input text |
| Pipeline.Execute | media2text.py:155-186 | `main` as a specification; see EarlyReturns, CompletedRun, CompletedRunFiles, RunFrame, FatalRunFiles, CallsInOrder, RunCalls, RawSavedBeforeTuning and TempAudioLifecycle |
| Pipeline.Process | media2text.py:172-184 | the run after routing; see ProcessStatus, ProcessTrace, ProcessCalls, ProcessRequests and ProcessRawSaved |
| Pipeline.Persist | media2text.py:175-184 | the run after transcription; see PersistOutcome, PersistCleanup, PersistLeavesOthers, PersistTrace, PersistRemoval and PersistRequests |
| Pipeline.ExitCode | media2text.py:155-186 | exit status 1 exactly for the fatal failures (a failed removal of the temporary file included), 0 for completion and the two early returns |
| Pipeline.ProcessStatus | media2text.py:172-186 | after routing, a run completes or fails at one of the steps after extraction |
| Pipeline.EarlyReturns | media2text.py:158-170 | a missing input and an unsupported input return at once, with no file written, no call made and exit status 0; every other run gets past routing |
| Pipeline.PersistOutcome | media2text.py:175-184 | after transcription: completion exactly when both files can be written, the tuner's result is a text and a temporary file this run made can be removed; it leaves the raw text, the tuned text and no temporary file. The tuned save fails exactly when that file cannot be written or the result is not a text, leaving only the raw file written; a failed raw save writes nothing |
| Pipeline.PersistCleanup | media2text.py:179-184 | the removal of the temporary file fails exactly when both transcripts were saved and the file this run made cannot be removed; both transcripts are then written and the temporary file stays |
| Pipeline.CompletedRun | media2text.py:162-184 | when every step succeeds (the tuner's result is a text, and a video's temporary file can be removed) the run completes; the raw file holds the transcription and the tuned file holds the tuner's result for the detected language |
| Pipeline.PersistLeavesOthers | media2text.py:175-184 | after transcription, no file other than the two transcripts and the temporary file changes; the temporary file is removed only when this run created it |
| Pipeline.RunFrame | media2text.py:155-186 | whatever happens, a run changes no file but the two transcripts and the temporary file |
| Pipeline.FatalRunFiles | media2text.py:162-175 | a run that fails at extraction, detection, transcription or the raw save leaves both transcript files as they were |
| Pipeline.FailedTunedSaveFiles | media2text.py:175-179 | a run that fails at the tuned save holds the raw transcript and leaves the tuned file as it was |
| Pipeline.CleanedRunFiles | media2text.py:175-184 | a run that completed, or failed only at the removal, holds both transcript files |
| Pipeline.CompletedRunFiles | media2text.py:162-184 | a fully successful run changes no other file; the temporary file is gone after video input and untouched after audio input |
| Pipeline.PersistTrace | media2text.py:175-184 | after transcription the calls follow stage order: raw save, requests, tuned save, removal |
| Pipeline.PersistRemoval | media2text.py:182-184 | a removal is of the temporary file, is the last call, and happens only in a run that created the file and saved both transcripts |
| Pipeline.PersistRequests | media2text.py:175-178 | the raw save precedes every request, and requests are made exactly when the raw file could be written |
| Pipeline.ProcessTrace | media2text.py:173-184 | after routing, detection comes first and the rest follows stage order |
| Pipeline.ProcessCalls | media2text.py:173-184 | the transcriber reads the audio that was detected on, with the model size chosen for its language; a removal is the last call of a run that created the file and saved both transcripts |
| Pipeline.CallsInOrder | media2text.py:162-184 | a whole run's calls follow stage order: extraction, detection, transcription, raw save, requests, tuned save, removal; extraction happens only for video input, first, and reads the input |
| Pipeline.RunCalls | media2text.py:162-184 | the transcriber reads the temporary file for video input and the input itself for audio input; a removal of the temporary file happens only as the last call of a video run that saved both transcripts |
| Pipeline.ProcessRequests | media2text.py:173-178 | after routing, requests are made exactly when the raw save succeeded, and always after it |
| Pipeline.RawSavedBeforeTuning | media2text.py:174-179 | every request of a run follows its raw save |
| Pipeline.RequestsExactlyWhenTuned | media2text.py:174-179 | a run sends a request exactly when it saved the raw file |
| Pipeline.TunedRunHoldsRaw | media2text.py:174-179 | a run that got as far as tuning holds the raw transcript file |
| Pipeline.ProcessRawSaved | media2text.py:175-179 | a run that reached the requests holds the raw transcript file |
| Pipeline.TempAudioLifecycle | media2text.py:162-184 | a non-video run leaves the temporary file as it was; a completed video run removes it; a video run that fails after extraction, the removal included, leaves it on disk |
| Pipeline.Workspace.ExtractAudio | media2text.py:39-47 | records the extraction; on success the audio is written to temp_audio.wav and that path is returned; on failure nothing changes |
| Pipeline.Workspace.DetectLanguage | media2text.py:49-59 | records the detection; returns the detected language, or nothing when the detector fails |
| Pipeline.Workspace.TranscribeAudio | media2text.py:61-70 | records the transcription with the model size chosen for the language, and returns what the transcriber gives |
| Pipeline.Workspace.TuneText | media2text.py:72-145 | returns the tuner's result and records its requests |
| Pipeline.Workspace.SaveText | media2text.py:147-153 | records the write; reports success exactly when the value is a text and the file is writable, and then stores the text under that name, overwriting any old contents |
| Pipeline.Workspace.PersistTranscripts | media2text.py:175-184 | the status, files and calls are those of Persist |
| Pipeline.Workspace.ProcessAudio | media2text.py:173-184 | the status, files and calls are those of Process |
| Pipeline.Workspace.Run | media2text.py:155-186 | the status, files and calls of main are those of Execute, so every Pipeline lemma above holds of it |

## Left out

- Whisper, MoviePy and the HTTP client are oracles (`Externals`). The model does not capture:
  - the loading of the speech models;
  - that language detection always loads the "base" model;
  - the WAV codec;
  - TLS itself;
  - the 30-second timeout;
  - JSON decoding. A response that lacks the expected fields counts as a failed attempt. A content that is not a string (JSON `null`, a number, a list) is kept only as "not a text", and saving it fails the tuned save.
- A transcription result without a "text" entry raises inside the same `try` as a failed transcription. It is folded into the transcriber returning nothing.
- The sampling temperature 0.3 and the unused entries of the model list are not modelled. Only the chosen model identifier is kept.
- Logging, the warnings filter, `load_dotenv` and the start-up check of `OPENROUTER_API_KEY` are not modelled. The command-line argument check and the usage message are left out too. The key is a parameter of `Tuner.OpenRouter`.
- The tuner's service is a parameter: endpoint, headers, model and instruction table. `Tuner.OpenRouter` builds the program's own service, and `Tuner.InstructionTable` and `Tuner.ProgramRequests` state its values.
- The filesystem is a map from names to contents. The model does not cover:
  - directories;
  - two different strings naming the same file (`./temp_audio.wav`);
  - text encoding;
  - a real write that fails halfway through.
  - `Path.exists()` on the input is modelled as the name being a key of the map.
- Pipeline.EarlyReturns: an error other than "not found" raised by `Path.exists()` on the input (such as a permission error on a directory of the path) ends the real process with status 1. The model has no permissions, so it treats such an input as present or absent by the map.
- The temporary file vanishing between the `exists()` test and `unlink()` at media2text.py:182-183 is a race with other processes, which the model does not have. A removal that fails for any other reason is modelled, by the `removable` oracle.
- Extraction: when the decoder fails after starting to write `temp_audio.wav`, the model leaves the filesystem unchanged. A real run may leave a partial file.
- Classifier.Name: paths are POSIX paths, split only at '/'. On Windows `Path` also splits at '\' and knows drives, so there `clips\.mp4` is named `.mp4`, has no suffix and is rejected; the model names it `clips\.mp4` and routes it to video.
- Classifier.Suffix: follows `pathlib` up to Python 3.13, where a name ending in a dot has no suffix. Python 3.14 changed this case.
- Classifier.LowerChar: models `str.lower` only for ASCII A-Z and U+212A KELVIN SIGN, which lower-cases to the ASCII letter k. Every other non-ASCII character's lower-case form contains a non-ASCII character, so it cannot complete any listed extension. Keeping it unchanged therefore decides membership in the extension sets correctly.
- Tuner.Tune: its contract states only the number of requests. Everything else about its result is stated by `Tuner.TuneRequests`.
- An unlisted language gets the literal instruction "default" (media2text.py:102), not the text of the "default" entry.
- The language falls back to "en" only when the detection result has no "language" entry (media2text.py:54).
- The `ghost` call trace of `Workspace` records which external steps are taken, in order. Pure decisions and logging are not in it.
