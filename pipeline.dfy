/** The run of `main`: routing the input, extracting audio from a video into a temporary
    file, detecting the language, transcribing, saving the raw transcript, tuning it, saving
    the tuned transcript and removing the temporary file. The filesystem is a map from file
    names to contents; the decoder, the speech models, the network and the writability of
    the output files are oracles. */
module Pipeline {
  import opened Wrappers
  import opened Classifier
  import opened Speech
  import opened Tuner

  const RawFile: string := "transcript_raw.txt"
  const TunedFile: string := "transcript_tuned.txt"
  const TempAudio: string := "temp_audio.wav"

  /** The steps whose failure ends the process with status 1. */
  datatype Step = Extraction | Detection | Transcription | SaveRaw | SaveTuned | Cleanup

  /** How a run ends: normally, by returning early, or by a fatal exit. */
  datatype Status = Completed | FileNotFound | UnsupportedType | Fatal(step: Step)

  /** The calls a run makes to the world outside it, in order. */
  datatype Call =
    | Extract(video: string)
    | Detect(audio: string)
    | Transcribe(audio: string, language: string, modelSize: string)
    | Send(request: Request)
    | Save(name: string)
    | Unlink(name: string)

  /** The outside world. `extract` turns a video's contents into the audio written to the
      temporary file (None when decoding or writing fails); `detect` runs the base model in
      language-identification mode on audio contents (None when it raises); `transcribe`
      receives the audio, the language and the model size; `send` is the network; `writable`
      says whether a file of that name can be written, and `removable` whether it can be
      removed. */
  datatype Externals = Externals(
    extract: string -> Option<string>,
    detect: string -> Option<map<string, string>>,
    transcribe: (string, string, string) -> Option<string>,
    send: Request -> Outcome,
    writable: string -> bool,
    removable: string -> bool)

  /** What a run leaves behind: its status, the filesystem, and the calls it made. */
  datatype RunResult = RunResult(status: Status, files: map<string, string>, trace: seq<Call>)

  /** The process exit status: a missing or unsupported input returns normally, every
      other failure exits with status 1 (a failed removal of the temporary file raises
      outside any handler, which also ends the process with status 1). */
  function ExitCode(s: Status): (code: int)
    ensures code == 0 <==> !s.Fatal?
    ensures code == 1 <==> s.Fatal?
  {
    if s.Fatal? then 1 else 0
  }

  /** The request calls of a tuning, one per request. */
  function Sends(sent: seq<Request>): (calls: seq<Call>)
    ensures |calls| == |sent|
    ensures forall k :: 0 <= k < |sent| ==> calls[k] == Send(sent[k])
  {
    seq(|sent|, k requires 0 <= k < |sent| => Send(sent[k]))
  }

  lemma AppendAssoc(a: seq<Call>, b: seq<Call>, c: seq<Call>)
    ensures (a + b) + c == a + (b + c)
  {
  }

  /** A result preceded by calls made before it. */
  function After(calls: seq<Call>, r: RunResult): RunResult {
    RunResult(r.status, r.files, calls + r.trace)
  }

  /** The steps after transcription: save the raw transcript, tune it, save the tuned
      transcript (which fails on a content that is not a string), and remove the temporary
      audio file if this run created it and it is still there. */
  function Persist(fs: map<string, string>, raw: string, lang: string, tempCreated: bool,
                   service: Service, ext: Externals): RunResult
  {
    if !ext.writable(RawFile) then RunResult(Fatal(SaveRaw), fs, [Save(RawFile)])
    else
      var tuning := Tune(service, raw, lang, ext.send);
      var saved := [Save(RawFile)] + Sends(tuning.sent) + [Save(TunedFile)];
      var withRaw := fs[RawFile := raw];
      if !ext.writable(TunedFile) || tuning.text.None? then RunResult(Fatal(SaveTuned), withRaw, saved)
      else
        var withBoth := withRaw[TunedFile := tuning.text.value];
        if tempCreated && TempAudio in withBoth then
          if ext.removable(TempAudio) then
            RunResult(Completed, withBoth - {TempAudio}, saved + [Unlink(TempAudio)])
          else RunResult(Fatal(Cleanup), withBoth, saved + [Unlink(TempAudio)])
        else RunResult(Completed, withBoth, saved)
  }

  /** The steps after routing, on the audio at `audioPath`; `tempCreated` says whether that
      file was extracted by this run and is to be removed at the end. */
  function Process(fs: map<string, string>, audioPath: string, tempCreated: bool,
                   service: Service, ext: Externals): RunResult
    requires audioPath in fs
  {
    var audio := fs[audioPath];
    match ext.detect(audio)
    case None => RunResult(Fatal(Detection), fs, [Detect(audioPath)])
    case Some(result) =>
      var lang := DetectedLanguage(result);
      var size := ModelSize(lang);
      var asked := [Detect(audioPath), Transcribe(audioPath, lang, size)];
      match ext.transcribe(audio, lang, size)
      case None => RunResult(Fatal(Transcription), fs, asked)
      case Some(raw) => After(asked, Persist(fs, raw, lang, tempCreated, service, ext))
  }

  /** The whole run of `main` on the file named `input`. */
  function Execute(fs: map<string, string>, input: string, service: Service, ext: Externals): RunResult {
    if input !in fs then RunResult(FileNotFound, fs, [])
    else
      match Classify(input)
      case Unsupported => RunResult(UnsupportedType, fs, [])
      case Audio => Process(fs, input, false, service, ext)
      case Video =>
        match ext.extract(fs[input])
        case None => RunResult(Fatal(Extraction), fs, [Extract(input)])
        case Some(audio) =>
          After([Extract(input)], Process(fs[TempAudio := audio], TempAudio, true, service, ext))
  }

  // ---------------------------------------------------------------------------
  // Properties of a run

  /** The two entries of `fs` and `fs'` under `name` agree: both absent, or equal. */
  ghost predicate SameEntry(fs: map<string, string>, fs': map<string, string>, name: string) {
    (name in fs <==> name in fs') && (name in fs ==> fs[name] == fs'[name])
  }

  /** No file but the two transcripts and the temporary audio file differs between `fs`
      and `fs'`. */
  ghost predicate OthersUnchanged(fs: map<string, string>, fs': map<string, string>) {
    forall name | name != RawFile && name != TunedFile && name != TempAudio :: SameEntry(fs, fs', name)
  }

  lemma OthersUnchangedTrans(fs: map<string, string>, mid: map<string, string>, fs': map<string, string>)
    requires OthersUnchanged(fs, mid) && OthersUnchanged(mid, fs')
    ensures OthersUnchanged(fs, fs')
  {
    forall name | name != RawFile && name != TunedFile && name != TempAudio
      ensures SameEntry(fs, fs', name)
    {
      assert SameEntry(fs, mid, name) && SameEntry(mid, fs', name);
    }
  }

  /** The stage of the run a call belongs to; the requests of the tuner form one stage. */
  function Phase(c: Call): nat {
    match c
    case Extract(_) => 0
    case Detect(_) => 1
    case Transcribe(_, _, _) => 2
    case Save(name) => if name == RawFile then 3 else 5
    case Send(_) => 4
    case Unlink(_) => 6
  }

  ghost predicate Precedes(x: Call, y: Call) {
    Phase(x) < Phase(y) || (x.Send? && y.Send?)
  }

  /** Calls in stage order, each stage at most once except the requests. */
  ghost predicate Ordered(t: seq<Call>) {
    forall i, j | 0 <= i < j < |t| :: Precedes(t[i], t[j])
  }

  lemma OrderedConcat(a: seq<Call>, b: seq<Call>)
    requires Ordered(a) && Ordered(b)
    requires forall i, j | 0 <= i < |a| && 0 <= j < |b| :: Precedes(a[i], b[j])
    ensures Ordered(a + b)
  {
    forall i, j | 0 <= i < j < |a + b| ensures Precedes((a + b)[i], (a + b)[j]) {
      if j < |a| {
      } else if i < |a| {
        assert (a + b)[j] == b[j - |a|];
      } else {
        assert (a + b)[i] == b[i - |a|] && (a + b)[j] == b[j - |a|];
      }
    }
  }

  /** The only run statuses `Process` can end in. */
  lemma ProcessStatus(fs: map<string, string>, audioPath: string, tempCreated: bool,
                      service: Service, ext: Externals)
    requires audioPath in fs
    ensures var s := Process(fs, audioPath, tempCreated, service, ext).status;
      s == Completed || (s.Fatal? && s.step != Extraction)
  {
  }

  /** A missing input returns at once, and so does a present one with an unsupported
      suffix; neither writes a file or calls anything, and both exit normally. Every other
      run gets past routing. */
  lemma EarlyReturns(fs: map<string, string>, input: string, service: Service, ext: Externals)
    ensures var r := Execute(fs, input, service, ext);
      (r.status == FileNotFound <==> input !in fs)
      && (r.status == UnsupportedType <==> input in fs && Classify(input) == Unsupported)
      && (r.status == FileNotFound || r.status == UnsupportedType ==>
            r.files == fs && r.trace == [] && ExitCode(r.status) == 0)
  {
    if input in fs {
      match Classify(input)
      case Unsupported =>
      case Audio => ProcessStatus(fs, input, false, service, ext);
      case Video =>
        if ext.extract(fs[input]).Some? {
          ProcessStatus(fs[TempAudio := ext.extract(fs[input]).value], TempAudio, true, service, ext);
        }
    }
  }

  /** After transcription: the run completes exactly when both files are writable, the
      tuner's result is a text and, for a run that created the temporary file, that file can
      be removed; the raw file then holds the transcript, the tuned file the tuner's result,
      and the temporary file is gone. The tuned save fails when that file is not writable or
      the result is not a text, leaving the raw file written; a failed raw save writes
      nothing. */
  lemma PersistOutcome(fs: map<string, string>, raw: string, lang: string, tempCreated: bool,
                       service: Service, ext: Externals)
    ensures var r := Persist(fs, raw, lang, tempCreated, service, ext);
      var tuned := Tune(service, raw, lang, ext.send).text;
      (r.status == Completed <==>
         ext.writable(RawFile) && ext.writable(TunedFile) && tuned.Some?
         && (tempCreated && TempAudio in fs ==> ext.removable(TempAudio)))
      && (r.status == Completed ==>
            tuned.Some? && (var both := fs[RawFile := raw][TunedFile := tuned.value];
                            r.files == if tempCreated then both - {TempAudio} else both))
      && (r.status == Fatal(SaveTuned) <==> ext.writable(RawFile) && (!ext.writable(TunedFile) || tuned.None?))
      && (r.status == Fatal(SaveTuned) ==> r.files == fs[RawFile := raw])
      && (r.status == Fatal(SaveRaw) <==> !ext.writable(RawFile))
      && (r.status == Fatal(SaveRaw) ==> r.files == fs)
  {
    var tuned := Tune(service, raw, lang, ext.send).text;
    if tuned.Some? {
      var both := fs[RawFile := raw][TunedFile := tuned.value];
      if tempCreated && TempAudio !in both {
        assert both - {TempAudio} == both;
      }
    }
  }

  /** A failed removal of the temporary file comes after both transcripts are written and
      leaves the temporary file where it was. */
  lemma PersistCleanup(fs: map<string, string>, raw: string, lang: string, tempCreated: bool,
                       service: Service, ext: Externals)
    ensures var r := Persist(fs, raw, lang, tempCreated, service, ext);
      var tuned := Tune(service, raw, lang, ext.send).text;
      (r.status == Fatal(Cleanup) <==>
         ext.writable(RawFile) && ext.writable(TunedFile) && tuned.Some?
         && tempCreated && TempAudio in fs && !ext.removable(TempAudio))
      && (r.status == Fatal(Cleanup) ==>
            tuned.Some? && r.files == fs[RawFile := raw][TunedFile := tuned.value])
  {
  }

  /** A supported input whose audio is available continues with `Process`, on the
      temporary file for a video and on the input itself for an audio file. */
  lemma ExecuteAfterRouting(fs: map<string, string>, input: string, service: Service, ext: Externals,
                            audio: string)
    requires input in fs && Classify(input) != Unsupported
    requires Classify(input) == Video ==> ext.extract(fs[input]) == Some(audio)
    ensures Classify(input) == Video ==>
      Execute(fs, input, service, ext) ==
        After([Extract(input)], Process(fs[TempAudio := audio], TempAudio, true, service, ext))
    ensures Classify(input) == Audio ==>
      Execute(fs, input, service, ext) == Process(fs, input, false, service, ext)
  {
  }

  /** Audio whose language is detected and which is transcribed goes on to `Persist`. */
  lemma ProcessAfterTranscription(fs: map<string, string>, audioPath: string, tempCreated: bool,
                                  service: Service, ext: Externals, result: map<string, string>, raw: string)
    requires audioPath in fs
    requires ext.detect(fs[audioPath]) == Some(result)
    requires ext.transcribe(fs[audioPath], DetectedLanguage(result), ModelSize(DetectedLanguage(result))) == Some(raw)
    ensures var lang := DetectedLanguage(result);
      Process(fs, audioPath, tempCreated, service, ext) ==
        After([Detect(audioPath), Transcribe(audioPath, lang, ModelSize(lang))],
              Persist(fs, raw, lang, tempCreated, service, ext))
  {
  }

  /** A run in which every step succeeds completes, and the raw transcript file holds the
      transcription and the tuned file the tuner's result. */
  lemma CompletedRun(fs: map<string, string>, input: string, service: Service, ext: Externals,
                     audio: string, result: map<string, string>, raw: string)
    requires input in fs && Classify(input) != Unsupported
    requires Classify(input) == Video ==> ext.extract(fs[input]) == Some(audio)
    requires Classify(input) == Audio ==> audio == fs[input]
    requires ext.detect(audio) == Some(result)
    requires ext.transcribe(audio, DetectedLanguage(result), ModelSize(DetectedLanguage(result))) == Some(raw)
    requires ext.writable(RawFile) && ext.writable(TunedFile)
    requires Tune(service, raw, DetectedLanguage(result), ext.send).text.Some?
    requires Classify(input) == Video ==> ext.removable(TempAudio)
    ensures Execute(fs, input, service, ext).status == Completed
    ensures var files := Execute(fs, input, service, ext).files;
      RawFile in files && files[RawFile] == raw
    ensures var files := Execute(fs, input, service, ext).files;
      TunedFile in files && files[TunedFile] == Tune(service, raw, DetectedLanguage(result), ext.send).text.value
  {
    var video := Classify(input) == Video;
    var routed := if video then fs[TempAudio := audio] else fs;
    var audioPath := if video then TempAudio else input;
    ExecuteAfterRouting(fs, input, service, ext, audio);
    ProcessAfterTranscription(routed, audioPath, video, service, ext, result, raw);
    PersistOutcome(routed, raw, DetectedLanguage(result), video, service, ext);
  }

  /** The steps after transcription write only the two transcripts and remove only the
      temporary file, and only when this run created it. */
  lemma PersistLeavesOthers(fs: map<string, string>, raw: string, lang: string, tempCreated: bool,
                            service: Service, ext: Externals)
    ensures OthersUnchanged(fs, Persist(fs, raw, lang, tempCreated, service, ext).files)
    ensures !tempCreated ==> SameEntry(fs, Persist(fs, raw, lang, tempCreated, service, ext).files, TempAudio)
    ensures var p := Persist(fs, raw, lang, tempCreated, service, ext);
      tempCreated && p.status == Completed ==> TempAudio !in p.files
  {
  }

  /** A run in which every step succeeds touches no file but the two transcripts and the
      temporary audio file, which is gone after video input and as it was after audio input. */
  lemma CompletedRunFiles(fs: map<string, string>, input: string, service: Service, ext: Externals,
                          audio: string, result: map<string, string>, raw: string)
    requires input in fs && Classify(input) != Unsupported
    requires Classify(input) == Video ==> ext.extract(fs[input]) == Some(audio)
    requires Classify(input) == Audio ==> audio == fs[input]
    requires ext.detect(audio) == Some(result)
    requires ext.transcribe(audio, DetectedLanguage(result), ModelSize(DetectedLanguage(result))) == Some(raw)
    requires ext.writable(RawFile) && ext.writable(TunedFile)
    requires Tune(service, raw, DetectedLanguage(result), ext.send).text.Some?
    requires Classify(input) == Video ==> ext.removable(TempAudio)
    ensures Classify(input) == Video ==> TempAudio !in Execute(fs, input, service, ext).files
    ensures Classify(input) == Audio ==> SameEntry(fs, Execute(fs, input, service, ext).files, TempAudio)
    ensures OthersUnchanged(fs, Execute(fs, input, service, ext).files)
  {
    var video := Classify(input) == Video;
    var routed := if video then fs[TempAudio := audio] else fs;
    var audioPath := if video then TempAudio else input;
    var lang := DetectedLanguage(result);
    ExecuteAfterRouting(fs, input, service, ext, audio);
    ProcessAfterTranscription(routed, audioPath, video, service, ext, result, raw);
    PersistOutcome(routed, raw, lang, video, service, ext);
    PersistLeavesOthers(routed, raw, lang, video, service, ext);
    RunFrame(fs, input, service, ext);
  }

  /** The run saved both transcripts, and then either completed or failed to remove the
      temporary file. */
  predicate Cleaned(s: Status) {
    s == Completed || s == Fatal(Cleanup)
  }

  /** The run got as far as tuning: it saved the raw transcript. */
  predicate Tuned(s: Status) {
    Cleaned(s) || s == Fatal(SaveTuned)
  }

  /** Some call of `t` is a request. */
  ghost predicate HasSend(t: seq<Call>) {
    exists j | 0 <= j < |t| :: t[j].Send?
  }

  /** Every request of `t` comes after a save of the raw transcript. */
  ghost predicate RawSavedFirst(t: seq<Call>) {
    forall j | 0 <= j < |t| && t[j].Send? :: Save(RawFile) in t[..j]
  }

  /** Calls without requests put in front keep the raw save before every request. */
  lemma RequestsAfterPrefix(pre: seq<Call>, t: seq<Call>)
    requires !HasSend(pre) && RawSavedFirst(t)
    ensures RawSavedFirst(pre + t)
    ensures HasSend(pre + t) <==> HasSend(t)
  {
    var u := pre + t;
    forall j | 0 <= j < |u| && u[j].Send? ensures Save(RawFile) in u[..j] {
      if j >= |pre| {
        assert u[j] == t[j - |pre|];
        var i :| 0 <= i < j - |pre| && t[..j - |pre|][i] == Save(RawFile);
        assert u[..j][|pre| + i] == Save(RawFile);
      }
    }
    if HasSend(u) {
      var j :| 0 <= j < |u| && u[j].Send?;
      if j >= |pre| { assert u[j] == t[j - |pre|]; }
    }
    if HasSend(t) {
      var j :| 0 <= j < |t| && t[j].Send?;
      assert u[|pre| + j] == t[j];
    }
  }

  /** Every call of `t` belongs to stage `lo` or a later one. */
  ghost predicate From(t: seq<Call>, lo: nat) {
    forall j | 0 <= j < |t| :: Phase(t[j]) >= lo
  }

  /** Every transcription in `t` reads `audioPath`, with the model size chosen for the
      language it is given. */
  ghost predicate TranscribesFrom(t: seq<Call>, audioPath: string) {
    forall j | 0 <= j < |t| :: t[j].Transcribe? ==>
      t[j].audio == audioPath && t[j].modelSize == ModelSize(t[j].language)
  }

  /** A removal in `t` is of the temporary file, is the last call, and happens only when
      `allowed` holds. */
  ghost predicate RemovesLast(t: seq<Call>, allowed: bool) {
    forall j | 0 <= j < |t| :: t[j].Unlink? ==> t[j] == Unlink(TempAudio) && j == |t| - 1 && allowed
  }

  /** Calls of earlier stages put in front of an ordered run of later ones keep the whole in
      stage order, and the later calls keep their stages at their new positions. */
  lemma PrefixOrdered(pre: seq<Call>, rest: seq<Call>, lo: nat)
    requires Ordered(pre) && Ordered(rest) && From(rest, lo)
    requires forall j | 0 <= j < |pre| :: Phase(pre[j]) < lo
    ensures Ordered(pre + rest)
    ensures forall j | |pre| <= j < |pre + rest| :: Phase((pre + rest)[j]) >= lo
  {
    OrderedConcat(pre, rest);
    forall j | |pre| <= j < |pre + rest| ensures (pre + rest)[j] == rest[j - |pre|] { }
  }

  /** Calls put in front that transcribe the same audio and remove nothing keep the facts
      about the transcriptions and the removal of the calls behind them. */
  lemma PrefixCalls(pre: seq<Call>, rest: seq<Call>, audioPath: string, allowed: bool)
    requires TranscribesFrom(pre, audioPath) && TranscribesFrom(rest, audioPath)
    requires forall j | 0 <= j < |pre| :: !pre[j].Unlink?
    requires RemovesLast(rest, allowed)
    ensures TranscribesFrom(pre + rest, audioPath)
    ensures RemovesLast(pre + rest, allowed)
  {
    forall j | |pre| <= j < |pre + rest| ensures (pre + rest)[j] == rest[j - |pre|] { }
  }

  /** The calls after transcription are in stage order and all belong to the stages from
      the raw save on. */
  lemma PersistTrace(fs: map<string, string>, raw: string, lang: string, tempCreated: bool,
                     service: Service, ext: Externals)
    ensures Ordered(Persist(fs, raw, lang, tempCreated, service, ext).trace)
    ensures From(Persist(fs, raw, lang, tempCreated, service, ext).trace, 3)
  {
    if ext.writable(RawFile) {
      var tuning := Tune(service, raw, lang, ext.send);
      var sends := Sends(tuning.sent);
      var saved := [Save(RawFile)] + sends + [Save(TunedFile)];
      OrderedConcat([Save(RawFile)], sends);
      OrderedConcat([Save(RawFile)] + sends, [Save(TunedFile)]);
      if Persist(fs, raw, lang, tempCreated, service, ext).trace != saved {
        OrderedConcat(saved, [Unlink(TempAudio)]);
      }
    }
  }

  /** After transcription a removal is of the temporary file, the last call, and only in a
      run that created that file, saved both transcripts and then ended. */
  lemma PersistRemoval(fs: map<string, string>, raw: string, lang: string, tempCreated: bool,
                       service: Service, ext: Externals)
    ensures var r := Persist(fs, raw, lang, tempCreated, service, ext);
      RemovesLast(r.trace, Cleaned(r.status) && tempCreated)
  {
    if ext.writable(RawFile) {
      var sends := Sends(Tune(service, raw, lang, ext.send).sent);
      var saved := [Save(RawFile)] + sends + [Save(TunedFile)];
      forall j | 0 <= j < |saved| ensures !saved[j].Unlink? {
        if 0 < j < |saved| - 1 {
          assert saved[j] == sends[j - 1];
        }
      }
    }
  }

  /** After transcription the raw save is the first call, so it precedes every request;
      requests are made exactly when the raw file could be written. */
  lemma PersistRequests(fs: map<string, string>, raw: string, lang: string, tempCreated: bool,
                        service: Service, ext: Externals)
    ensures var t := Persist(fs, raw, lang, tempCreated, service, ext).trace;
      RawSavedFirst(t) && (HasSend(t) <==> ext.writable(RawFile))
  {
    var t := Persist(fs, raw, lang, tempCreated, service, ext).trace;
    assert t[0] == Save(RawFile);
    forall j | 0 <= j < |t| && t[j].Send? ensures Save(RawFile) in t[..j] {
      assert j != 0;
      assert t[..j][0] == Save(RawFile);
    }
    if ext.writable(RawFile) {
      assert t[1].Send?;
    }
  }

  /** The calls after routing: detection of the audio at `audioPath` first, then the calls
      of later stages in stage order. */
  lemma ProcessTrace(fs: map<string, string>, audioPath: string, tempCreated: bool,
                     service: Service, ext: Externals)
    requires audioPath in fs
    ensures var t := Process(fs, audioPath, tempCreated, service, ext).trace;
      |t| >= 1 && t[0] == Detect(audioPath)
    ensures Ordered(Process(fs, audioPath, tempCreated, service, ext).trace)
    ensures From(Process(fs, audioPath, tempCreated, service, ext).trace, 1)
  {
    match ext.detect(fs[audioPath])
    case None =>
    case Some(result) =>
      var lang := DetectedLanguage(result);
      var asked := [Detect(audioPath), Transcribe(audioPath, lang, ModelSize(lang))];
      match ext.transcribe(fs[audioPath], lang, ModelSize(lang))
      case None =>
      case Some(raw) =>
        PersistTrace(fs, raw, lang, tempCreated, service, ext);
        PrefixOrdered(asked, Persist(fs, raw, lang, tempCreated, service, ext).trace, 3);
  }

  /** After routing, the transcriber reads the audio at `audioPath` with the model size
      chosen for the language it is given, and a removal is of the temporary file, last, and
      only in a run that created it and saved both transcripts. */
  lemma ProcessCalls(fs: map<string, string>, audioPath: string, tempCreated: bool,
                     service: Service, ext: Externals)
    requires audioPath in fs
    ensures TranscribesFrom(Process(fs, audioPath, tempCreated, service, ext).trace, audioPath)
    ensures var r := Process(fs, audioPath, tempCreated, service, ext);
      RemovesLast(r.trace, Cleaned(r.status) && tempCreated)
  {
    match ext.detect(fs[audioPath])
    case None =>
    case Some(result) =>
      var lang := DetectedLanguage(result);
      var asked := [Detect(audioPath), Transcribe(audioPath, lang, ModelSize(lang))];
      match ext.transcribe(fs[audioPath], lang, ModelSize(lang))
      case None =>
      case Some(raw) =>
        var p := Persist(fs, raw, lang, tempCreated, service, ext);
        PersistTrace(fs, raw, lang, tempCreated, service, ext);
        PersistRemoval(fs, raw, lang, tempCreated, service, ext);
        PrefixCalls(asked, p.trace, audioPath, Cleaned(p.status) && tempCreated);
  }

  /** The calls of a whole run are in stage order: extraction, detection, transcription, raw
      save, requests, tuned save, removal; extraction happens only for video input, as the
      first call, and reads the input. */
  lemma CallsInOrder(fs: map<string, string>, input: string, service: Service, ext: Externals)
    ensures Ordered(Execute(fs, input, service, ext).trace)
    ensures var t := Execute(fs, input, service, ext).trace;
      forall j | 0 <= j < |t| :: t[j].Extract? ==> j == 0 && t[j] == Extract(input) && Classify(input) == Video
  {
    if input in fs && Classify(input) != Unsupported {
      if Classify(input) == Audio {
        ProcessTrace(fs, input, false, service, ext);
      } else if ext.extract(fs[input]).Some? {
        var audio := ext.extract(fs[input]).value;
        var routed := fs[TempAudio := audio];
        ExecuteAfterRouting(fs, input, service, ext, audio);
        ProcessTrace(routed, TempAudio, true, service, ext);
        PrefixOrdered([Extract(input)], Process(routed, TempAudio, true, service, ext).trace, 1);
      }
    }
  }

  /** In a whole run the transcriber reads the temporary file for video input and the input
      itself for audio input, with the model size chosen for its language; a removal is of
      the temporary file, the last call of a video run that saved both transcripts. */
  lemma RunCalls(fs: map<string, string>, input: string, service: Service, ext: Externals)
    ensures TranscribesFrom(Execute(fs, input, service, ext).trace,
                            if Classify(input) == Video then TempAudio else input)
    ensures var r := Execute(fs, input, service, ext);
      RemovesLast(r.trace, Cleaned(r.status) && Classify(input) == Video)
  {
    if input in fs && Classify(input) != Unsupported {
      if Classify(input) == Audio {
        ProcessCalls(fs, input, false, service, ext);
      } else if ext.extract(fs[input]).Some? {
        var audio := ext.extract(fs[input]).value;
        var routed := fs[TempAudio := audio];
        var p := Process(routed, TempAudio, true, service, ext);
        ExecuteAfterRouting(fs, input, service, ext, audio);
        ProcessCalls(routed, TempAudio, true, service, ext);
        PrefixCalls([Extract(input)], p.trace, TempAudio, Cleaned(p.status));
      }
    }
  }

  /** After routing, requests are made exactly when the raw file was saved, and always
      after that save. */
  lemma ProcessRequests(fs: map<string, string>, audioPath: string, tempCreated: bool,
                        service: Service, ext: Externals)
    requires audioPath in fs
    ensures var r := Process(fs, audioPath, tempCreated, service, ext);
      RawSavedFirst(r.trace)
      && (HasSend(r.trace) <==> Tuned(r.status))
  {
    var r := Process(fs, audioPath, tempCreated, service, ext);
    match ext.detect(fs[audioPath])
    case None =>
      assert !HasSend(r.trace) by { assert r.trace == [Detect(audioPath)]; }
    case Some(result) =>
      var lang := DetectedLanguage(result);
      var asked := [Detect(audioPath), Transcribe(audioPath, lang, ModelSize(lang))];
      assert !HasSend(asked);
      match ext.transcribe(fs[audioPath], lang, ModelSize(lang))
      case None =>
      case Some(raw) =>
        PersistRequests(fs, raw, lang, tempCreated, service, ext);
        PersistOutcome(fs, raw, lang, tempCreated, service, ext);
        RequestsAfterPrefix(asked, Persist(fs, raw, lang, tempCreated, service, ext).trace);
  }

  /** Requests go out only after the raw transcript is on disk: the raw save comes before
      every request. */
  lemma RawSavedBeforeTuning(fs: map<string, string>, input: string, service: Service, ext: Externals)
    ensures RawSavedFirst(Execute(fs, input, service, ext).trace)
  {
    var r := Execute(fs, input, service, ext);
    if input in fs && Classify(input) == Audio {
      ExecuteAfterRouting(fs, input, service, ext, fs[input]);
      ProcessRequests(fs, input, false, service, ext);
    } else if input in fs && Classify(input) == Video && ext.extract(fs[input]).Some? {
      var audio := ext.extract(fs[input]).value;
      var routed := fs[TempAudio := audio];
      var p := Process(routed, TempAudio, true, service, ext);
      ExecuteAfterRouting(fs, input, service, ext, audio);
      assert r.trace == [Extract(input)] + p.trace;
      assert !HasSend([Extract(input)]);
      ProcessRequests(routed, TempAudio, true, service, ext);
      RequestsAfterPrefix([Extract(input)], p.trace);
    } else if input in fs && Classify(input) == Video {
      assert r.trace == [Extract(input)];
    } else {
      assert r.trace == [];
    }
  }

  /** After routing, a run that saved both transcripts holds both files. */
  lemma ProcessCleanedFiles(fs: map<string, string>, audioPath: string, tempCreated: bool,
                            service: Service, ext: Externals)
    requires audioPath in fs
    ensures var r := Process(fs, audioPath, tempCreated, service, ext);
      Cleaned(r.status) ==> RawFile in r.files && TunedFile in r.files
  {
    match ext.detect(fs[audioPath])
    case None =>
    case Some(result) =>
      var lang := DetectedLanguage(result);
      match ext.transcribe(fs[audioPath], lang, ModelSize(lang))
      case None =>
      case Some(raw) =>
        PersistOutcome(fs, raw, lang, tempCreated, service, ext);
        PersistCleanup(fs, raw, lang, tempCreated, service, ext);
  }

  /** A run that completed, or failed only at removing the temporary file, holds both
      transcript files. */
  lemma CleanedRunFiles(fs: map<string, string>, input: string, service: Service, ext: Externals)
    ensures var r := Execute(fs, input, service, ext);
      Cleaned(r.status) ==> RawFile in r.files && TunedFile in r.files
  {
    if input in fs && Classify(input) == Audio {
      ExecuteAfterRouting(fs, input, service, ext, fs[input]);
      ProcessCleanedFiles(fs, input, false, service, ext);
    } else if input in fs && Classify(input) == Video && ext.extract(fs[input]).Some? {
      var audio := ext.extract(fs[input]).value;
      ExecuteAfterRouting(fs, input, service, ext, audio);
      ProcessCleanedFiles(fs[TempAudio := audio], TempAudio, true, service, ext);
    }
  }

  /** A run that got as far as tuning holds the raw transcript file. */
  lemma TunedRunHoldsRaw(fs: map<string, string>, input: string, service: Service, ext: Externals)
    ensures var r := Execute(fs, input, service, ext);
      Tuned(r.status) ==> RawFile in r.files
  {
    CleanedRunFiles(fs, input, service, ext);
    FailedTunedSaveFiles(fs, input, service, ext);
  }

  /** A run issues requests exactly when it got as far as tuning, that is, when it saved the
      raw transcript. */
  lemma RequestsExactlyWhenTuned(fs: map<string, string>, input: string, service: Service, ext: Externals)
    ensures var r := Execute(fs, input, service, ext);
      HasSend(r.trace) <==> Tuned(r.status)
  {
    var r := Execute(fs, input, service, ext);
    if input in fs && Classify(input) == Audio {
      ExecuteAfterRouting(fs, input, service, ext, fs[input]);
      ProcessRequests(fs, input, false, service, ext);
    } else if input in fs && Classify(input) == Video && ext.extract(fs[input]).Some? {
      var audio := ext.extract(fs[input]).value;
      var routed := fs[TempAudio := audio];
      var p := Process(routed, TempAudio, true, service, ext);
      ExecuteAfterRouting(fs, input, service, ext, audio);
      assert r.trace == [Extract(input)] + p.trace && r.status == p.status;
      assert !HasSend([Extract(input)]);
      ProcessRequests(routed, TempAudio, true, service, ext);
      RequestsAfterPrefix([Extract(input)], p.trace);
    } else if input in fs && Classify(input) == Video {
      assert r.trace == [Extract(input)];
    } else {
      assert r.trace == [];
    }
  }

  /** A run that got as far as the requests holds the raw transcript file. */
  lemma ProcessRawSaved(fs: map<string, string>, audioPath: string, tempCreated: bool,
                        service: Service, ext: Externals)
    requires audioPath in fs
    ensures var r := Process(fs, audioPath, tempCreated, service, ext);
      Tuned(r.status) ==> RawFile in r.files
  {
    match ext.detect(fs[audioPath])
    case None =>
    case Some(result) =>
      var lang := DetectedLanguage(result);
      match ext.transcribe(fs[audioPath], lang, ModelSize(lang))
      case None =>
      case Some(raw) =>
        PersistOutcome(fs, raw, lang, tempCreated, service, ext);
  }

  /** The temporary audio file: a run on anything but a video leaves it as it was; a
      completed video run removes it; a video run that fails after extraction leaves it on
      disk. */
  lemma TempAudioLifecycle(fs: map<string, string>, input: string, service: Service, ext: Externals)
    ensures var r := Execute(fs, input, service, ext);
      (Classify(input) != Video ==> SameEntry(fs, r.files, TempAudio))
      && (input in fs && Classify(input) == Video && r.status == Completed ==> TempAudio !in r.files)
      && (input in fs && Classify(input) == Video && r.status.Fatal? && r.status.step != Extraction ==>
            TempAudio in r.files)
  {
    if input in fs && Classify(input) != Unsupported {
      var video := Classify(input) == Video;
      if !video || ext.extract(fs[input]).Some? {
        var audio := if video then ext.extract(fs[input]).value else fs[input];
        var routed := if video then fs[TempAudio := audio] else fs;
        var audioPath := if video then TempAudio else input;
        ExecuteAfterRouting(fs, input, service, ext, audio);
        match ext.detect(routed[audioPath])
        case None =>
        case Some(result) =>
          var lang := DetectedLanguage(result);
          match ext.transcribe(routed[audioPath], lang, ModelSize(lang))
          case None =>
          case Some(raw) =>
            ProcessAfterTranscription(routed, audioPath, video, service, ext, result, raw);
            PersistOutcome(routed, raw, lang, video, service, ext);
      }
    }
  }

  /** After routing, no file but the two transcripts and the temporary file changes. */
  lemma ProcessFrame(fs: map<string, string>, audioPath: string, tempCreated: bool,
                     service: Service, ext: Externals)
    requires audioPath in fs
    ensures OthersUnchanged(fs, Process(fs, audioPath, tempCreated, service, ext).files)
  {
    match ext.detect(fs[audioPath])
    case None =>
    case Some(result) =>
      var lang := DetectedLanguage(result);
      match ext.transcribe(fs[audioPath], lang, ModelSize(lang))
      case None =>
      case Some(raw) =>
        PersistLeavesOthers(fs, raw, lang, tempCreated, service, ext);
  }

  /** Whatever happens, a run touches no file but the two transcripts and the temporary
      audio file. */
  lemma RunFrame(fs: map<string, string>, input: string, service: Service, ext: Externals)
    ensures OthersUnchanged(fs, Execute(fs, input, service, ext).files)
  {
    if input in fs && Classify(input) == Audio {
      ExecuteAfterRouting(fs, input, service, ext, fs[input]);
      ProcessFrame(fs, input, false, service, ext);
    } else if input in fs && Classify(input) == Video && ext.extract(fs[input]).Some? {
      var audio := ext.extract(fs[input]).value;
      var routed := fs[TempAudio := audio];
      ExecuteAfterRouting(fs, input, service, ext, audio);
      ProcessFrame(routed, TempAudio, true, service, ext);
      assert OthersUnchanged(fs, routed);
      OthersUnchangedTrans(fs, routed, Process(routed, TempAudio, true, service, ext).files);
    } else {
      assert Execute(fs, input, service, ext).files == fs;
    }
  }

  /** After routing, a run that fails before the raw save leaves both transcripts as they
      were, and one that fails at the tuned save holds the raw transcript and leaves the
      tuned file as it was. */
  lemma ProcessFatalFiles(fs: map<string, string>, audioPath: string, tempCreated: bool,
                          service: Service, ext: Externals)
    requires audioPath in fs
    ensures var r := Process(fs, audioPath, tempCreated, service, ext);
      r.status.Fatal? && r.status.step in {Detection, Transcription, SaveRaw} ==>
        SameEntry(fs, r.files, RawFile) && SameEntry(fs, r.files, TunedFile)
    ensures var r := Process(fs, audioPath, tempCreated, service, ext);
      r.status == Fatal(SaveTuned) ==> RawFile in r.files && SameEntry(fs, r.files, TunedFile)
  {
    match ext.detect(fs[audioPath])
    case None =>
    case Some(result) =>
      var lang := DetectedLanguage(result);
      match ext.transcribe(fs[audioPath], lang, ModelSize(lang))
      case None =>
      case Some(raw) =>
        PersistOutcome(fs, raw, lang, tempCreated, service, ext);
  }

  /** A fatal exit stops the run: one that fails before the raw transcript is saved leaves
      both transcript files as they were. */
  lemma FatalRunFiles(fs: map<string, string>, input: string, service: Service, ext: Externals)
    ensures var r := Execute(fs, input, service, ext);
      r.status.Fatal? && r.status.step in {Extraction, Detection, Transcription, SaveRaw} ==>
        SameEntry(fs, r.files, RawFile) && SameEntry(fs, r.files, TunedFile)
  {
    if input in fs && Classify(input) == Audio {
      ExecuteAfterRouting(fs, input, service, ext, fs[input]);
      ProcessFatalFiles(fs, input, false, service, ext);
      ProcessStatus(fs, input, false, service, ext);
    } else if input in fs && Classify(input) == Video && ext.extract(fs[input]).Some? {
      var audio := ext.extract(fs[input]).value;
      var routed := fs[TempAudio := audio];
      ExecuteAfterRouting(fs, input, service, ext, audio);
      ProcessFatalFiles(routed, TempAudio, true, service, ext);
      ProcessStatus(routed, TempAudio, true, service, ext);
      assert SameEntry(fs, routed, RawFile) && SameEntry(fs, routed, TunedFile);
    } else if input in fs && Classify(input) == Video {
      assert Execute(fs, input, service, ext).files == fs;
    }
  }

  /** A run that fails at the tuned save leaves the raw transcript written and the tuned
      file as it was. */
  lemma FailedTunedSaveFiles(fs: map<string, string>, input: string, service: Service, ext: Externals)
    ensures var r := Execute(fs, input, service, ext);
      r.status == Fatal(SaveTuned) ==> RawFile in r.files && SameEntry(fs, r.files, TunedFile)
  {
    if input in fs && Classify(input) == Audio {
      ExecuteAfterRouting(fs, input, service, ext, fs[input]);
      ProcessFatalFiles(fs, input, false, service, ext);
    } else if input in fs && Classify(input) == Video && ext.extract(fs[input]).Some? {
      var audio := ext.extract(fs[input]).value;
      var routed := fs[TempAudio := audio];
      ExecuteAfterRouting(fs, input, service, ext, audio);
      ProcessFatalFiles(routed, TempAudio, true, service, ext);
      assert SameEntry(fs, routed, TunedFile);
    }
  }

  /** The working directory of one process, with the calls made so far. */
  class Workspace {
    var files: map<string, string>
    ghost var trace: seq<Call>

    constructor (files: map<string, string>)
      ensures this.files == files && trace == []
    {
      this.files := files;
      trace := [];
    }

    /** `extract_audio`: decode the video and write its audio to the temporary file. */
    method ExtractAudio(videoPath: string, ext: Externals) returns (audioPath: Option<string>)
      requires videoPath in files
      modifies this
      ensures trace == old(trace) + [Extract(videoPath)]
      ensures match ext.extract(old(files)[videoPath])
        case None => audioPath == None && files == old(files)
        case Some(audio) => audioPath == Some(TempAudio) && files == old(files)[TempAudio := audio]
    {
      trace := trace + [Extract(videoPath)];
      match ext.extract(files[videoPath])
      case None =>
        audioPath := None;
      case Some(audio) =>
        files := files[TempAudio := audio];
        audioPath := Some(TempAudio);
    }

    /** `detect_language`: the reported language, "en" when the result has none. */
    method DetectLanguage(audioPath: string, ext: Externals) returns (lang: Option<string>)
      requires audioPath in files
      modifies this`trace
      ensures trace == old(trace) + [Detect(audioPath)]
      ensures match ext.detect(files[audioPath])
        case None => lang == None
        case Some(result) => lang == Some(DetectedLanguage(result))
    {
      trace := trace + [Detect(audioPath)];
      var result := ext.detect(files[audioPath]);
      if result.None? {
        return None;
      }
      lang := Some(Get(result.value, "language", "en"));
    }

    /** `transcribe_audio`: transcription with the model size chosen for the language. */
    method TranscribeAudio(audioPath: string, lang: string, ext: Externals) returns (text: Option<string>)
      requires audioPath in files
      modifies this`trace
      ensures trace == old(trace) + [Transcribe(audioPath, lang, ModelSize(lang))]
      ensures text == ext.transcribe(files[audioPath], lang, ModelSize(lang))
    {
      var modelSize := if lang == "fa" then "medium" else "base";
      trace := trace + [Transcribe(audioPath, lang, modelSize)];
      text := ext.transcribe(files[audioPath], lang, modelSize);
    }

    /** `tune_text_with_openrouter`, recording the requests it issues. */
    method TuneText(text: string, lang: string, service: Service, ext: Externals) returns (tuned: Option<string>)
      modifies this`trace
      ensures var t := Tune(service, text, lang, ext.send);
        tuned == t.text && trace == old(trace) + Sends(t.sent)
    {
      var t := Tune(service, text, lang, ext.send);
      trace := trace + Sends(t.sent);
      tuned := t.text;
    }

    /** `save_text`: write (or overwrite) a file; a failed write is reported, and so is a
        value that is not a text, before the file is opened. */
    method SaveText(text: Option<string>, name: string, ext: Externals) returns (ok: bool)
      modifies this
      ensures trace == old(trace) + [Save(name)]
      ensures ok == (text.Some? && ext.writable(name))
      ensures files == if ok then old(files)[name := text.value] else old(files)
    {
      trace := trace + [Save(name)];
      if text.None? {
        return false;
      }
      ok := ext.writable(name);
      if ok {
        files := files[name := text.value];
      }
    }

    /** The steps of `main` from saving the raw transcript to the cleanup. */
    method PersistTranscripts(raw: string, lang: string, tempCreated: bool, service: Service, ext: Externals)
      returns (status: Status)
      modifies this
      ensures status == Persist(old(files), raw, lang, tempCreated, service, ext).status
      ensures files == Persist(old(files), raw, lang, tempCreated, service, ext).files
      ensures trace == old(trace) + Persist(old(files), raw, lang, tempCreated, service, ext).trace
    {
      ghost var t0 := trace;
      var saved := SaveText(Some(raw), RawFile, ext);
      if !saved {
        return Fatal(SaveRaw);
      }
      ghost var t := Tune(service, raw, lang, ext.send);
      var tunedText := TuneText(raw, lang, service, ext);
      saved := SaveText(tunedText, TunedFile, ext);
      AppendAssoc(t0, [Save(RawFile)], Sends(t.sent));
      AppendAssoc(t0, [Save(RawFile)] + Sends(t.sent), [Save(TunedFile)]);
      ghost var done := [Save(RawFile)] + Sends(t.sent) + [Save(TunedFile)];
      if !saved {
        return Fatal(SaveTuned);
      }
      if tempCreated && TempAudio in files {
        trace := trace + [Unlink(TempAudio)];
        AppendAssoc(t0, done, [Unlink(TempAudio)]);
        if !ext.removable(TempAudio) {
          return Fatal(Cleanup);
        }
        files := files - {TempAudio};
      }
      return Completed;
    }

    /** The steps of `main` after routing, on the audio at `audioPath`. */
    method ProcessAudio(audioPath: string, tempCreated: bool, service: Service, ext: Externals)
      returns (status: Status)
      requires audioPath in files
      modifies this
      ensures status == Process(old(files), audioPath, tempCreated, service, ext).status
      ensures files == Process(old(files), audioPath, tempCreated, service, ext).files
      ensures trace == old(trace) + Process(old(files), audioPath, tempCreated, service, ext).trace
    {
      ghost var t0 := trace;
      var language := DetectLanguage(audioPath, ext);
      if language.None? {
        return Fatal(Detection);
      }
      var lang := language.value;
      var rawText := TranscribeAudio(audioPath, lang, ext);
      ghost var asked := [Detect(audioPath), Transcribe(audioPath, lang, ModelSize(lang))];
      assert trace == t0 + asked;
      if rawText.None? {
        return Fatal(Transcription);
      }
      ghost var rest := Persist(files, rawText.value, lang, tempCreated, service, ext);
      status := PersistTranscripts(rawText.value, lang, tempCreated, service, ext);
      AppendAssoc(t0, asked, rest.trace);
    }

    /** `main`: the run, ending on the first fatal step. The new filesystem and the calls
        made are those of `Execute`. */
    method Run(input: string, service: Service, ext: Externals) returns (status: Status)
      modifies this
      ensures status == Execute(old(files), input, service, ext).status
      ensures files == Execute(old(files), input, service, ext).files
      ensures trace == old(trace) + Execute(old(files), input, service, ext).trace
    {
      if input !in files {
        return FileNotFound;
      }
      var tempAudio: Option<string> := None;
      var audioPath: string;
      if IsSupportedFile(input, VideoExts) {
        var extracted := ExtractAudio(input, ext);
        if extracted.None? {
          return Fatal(Extraction);
        }
        tempAudio := extracted;
        audioPath := extracted.value;
      } else if IsSupportedFile(input, AudioExts) {
        audioPath := input;
      } else {
        return UnsupportedType;
      }
      ghost var rest := Process(files, audioPath, tempAudio.Some?, service, ext);
      status := ProcessAudio(audioPath, tempAudio.Some?, service, ext);
      if tempAudio.Some? {
        AppendAssoc(old(trace), [Extract(input)], rest.trace);
      }
    }
  }
}
