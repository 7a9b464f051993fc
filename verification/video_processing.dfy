/**
 * The scaffold that turns a video into an audio track, a SubRip subtitle
 * file and a markdown transcript: `process_video` checks that the video
 * exists, creates the output directory, extracts the audio with ffmpeg,
 * then writes `subtitles.srt` and `transcript.md` from a placeholder
 * transcript, stopping at the first exception.
 */
module VideoProcessing {
  import opened Strings
  import opened Wrappers
  import opened Subrip
  import opened Platform

  /** The fixed cue `generate_subtitles` gives its one subtitle. */
  const FirstCue := "00:00:00,000 --> 00:00:05,000"

  /** The artefact paths `process_video` returns under the keys audio, srt and markdown. */
  datatype Artefacts = Artefacts(audio: Path, srt: Path, markdown: Path)

  function AudioPath(outDir: Path): Path { Child(outDir, "audio.wav") }
  function SrtPath(outDir: Path): Path { Child(outDir, "subtitles.srt") }
  function MarkdownPath(outDir: Path): Path { Child(outDir, "transcript.md") }

  /** The value of the first occurrence of option `flag` in `args`, as a program reads it. */
  function OptionValue(args: seq<string>, flag: string): Option<string> {
    if |args| < 2 then None
    else if args[0] == flag then Some(args[1])
    else OptionValue(args[1..], flag)
  }

  /** The argument vector of `extract_audio`. */
  function ExtractAudioArgs(video: Path, audio: Path): seq<string> {
    ["ffmpeg", "-y", "-i", PathText(video), "-vn", PathText(audio)]
  }

  /**
   * The audio command runs ffmpeg, overwriting any existing output,
   * reading the video given after -i, dropping the video stream, and
   * writing the audio path given last.
   */
  lemma AudioCommandShape(video: Path, audio: Path)
    ensures var argv := ExtractAudioArgs(video, audio);
      && |argv| == 6 && argv[0] == "ffmpeg"
      && OptionValue(argv, "-i") == Some(PathText(video))
      && argv[|argv| - 1] == PathText(audio)
      && "-y" in argv[..3] && "-vn" in argv[..5]
  {
    var argv := ExtractAudioArgs(video, audio);
    var rest := ["-i", PathText(video), "-vn", PathText(audio)];
    assert argv[1..][1..] == rest;
    assert OptionValue(rest, "-i") == Some(PathText(video));
    assert OptionValue(argv[1..], "-i") == OptionValue(rest, "-i");
    assert argv[..5][4] == "-vn";
  }

  /** The exception `subprocess.run(argv, check=True)` raises for `outcome`, if any. */
  function RunError(argv: seq<string>, outcome: RunOutcome): (err: Option<Error>)
    requires argv != []
    ensures err == None <==> outcome.Succeeded()
    ensures outcome.NotInstalled? ==> err == Some(ProgramNotFound(argv[0]))
    ensures outcome.Exited? && !outcome.Succeeded() ==>
      err == Some(CalledProcessError(outcome.returncode, argv))
  {
    match outcome
    case NotInstalled => Some(ProgramNotFound(argv[0]))
    case Exited(code, _) => if code == 0 then None else Some(CalledProcessError(code, argv))
  }

  /** `transcribe_audio`: a placeholder sentence. */
  function TranscribeAudio(audio: Path): string {
    "Transcription for " + Name(audio) + "."
  }

  /** The transcript names the audio file only, whatever directory it is in. */
  lemma TranscriptNamesFile(dir: Path, name: string)
    ensures var t := TranscribeAudio(Child(dir, name));
      && |t| == |name| + 19
      && t[..18] == "Transcription for " && t[18..|t| - 1] == name && t[|t| - 1] == '.'
  {
  }

  /** `generate_subtitles`: one subtitle, the whole transcript under the fixed first cue. */
  function GenerateSubtitles(transcript: string): (subs: seq<Subtitle>)
    ensures |subs| == 1 && subs[0].timestamp == FirstCue && subs[0].text == transcript
  {
    [Subtitle(FirstCue, transcript)]
  }

  /** The SubRip text for the generated subtitles: cue number 1, the fixed cue, the transcript, a blank line. */
  lemma GeneratedSrt(transcript: string)
    ensures Render(GenerateSubtitles(transcript)) == "1\n" + FirstCue + "\n" + transcript + "\n"
  {
    RenderOne(Subtitle(FirstCue, transcript));
  }

  /** The text `save_markdown` writes. */
  function MarkdownText(transcript: string): string {
    transcript + "\n"
  }

  /** The result of `process_video`, with the host's files and effect log afterwards. */
  datatype Outcome = Outcome(result: Result<Artefacts>, files: Files, log: seq<Effect>)

  /**
   * `process_video` as a function of the host before it: each stage runs
   * only if every stage before it succeeded.
   */
  function Pipeline(fs: Files, log: seq<Effect>, video: Path, outDir: Path,
                    ffmpeg: seq<string> -> RunOutcome): Outcome
  {
    if !Exists(fs, video) then Outcome(Err(FileNotFound(video)), fs, log)
    else
      match CreateDirs(fs, outDir)
      case Err(e) => Outcome(Err(e), fs, log + [MadeDirs(outDir)])
      case Ok(made) => AudioStage(made, log + [MadeDirs(outDir)], video, outDir, ffmpeg)
  }

  /** From the audio extraction on, once the output directory exists. */
  function AudioStage(fs: Files, log: seq<Effect>, video: Path, outDir: Path,
                      ffmpeg: seq<string> -> RunOutcome): Outcome
  {
    var audio := AudioPath(outDir);
    var argv := ExtractAudioArgs(video, audio);
    match RunError(argv, ffmpeg(argv))
    case Some(e) => Outcome(Err(e), AfterRun(fs, audio, ffmpeg(argv)), log + [Invoked(argv)])
    case None => WriteStage(AfterRun(fs, audio, ffmpeg(argv)), log + [Invoked(argv)], outDir)
  }

  /** The subtitle and transcript writes, once the audio is extracted. */
  function WriteStage(fs: Files, log: seq<Effect>, outDir: Path): Outcome {
    var transcript := TranscribeAudio(AudioPath(outDir));
    var log1 := log + [Wrote(SrtPath(outDir))];
    match WriteFile(fs, SrtPath(outDir), Render(GenerateSubtitles(transcript)))
    case Err(e) => Outcome(Err(e), fs, log1)
    case Ok(written) =>
      var log2 := log1 + [Wrote(MarkdownPath(outDir))];
      match WriteFile(written, MarkdownPath(outDir), MarkdownText(transcript))
      case Err(e) => Outcome(Err(e), written, log2)
      case Ok(done) =>
        Outcome(Ok(Artefacts(AudioPath(outDir), SrtPath(outDir), MarkdownPath(outDir))), done, log2)
  }

  /** The transcript every run produces: the audio file is always named audio.wav. */
  const Transcript := "Transcription for audio.wav."

  /** The SubRip text every successful run writes. */
  const SrtContents := "1\n" + FirstCue + "\n" + Transcript + "\n"

  /**
   * Whatever the output directory, the transcript names only the file
   * audio.wav, and the SubRip text is fixed.
   */
  lemma FixedTexts(outDir: Path)
    ensures TranscribeAudio(AudioPath(outDir)) == Transcript
    ensures Render(GenerateSubtitles(Transcript)) == SrtContents
  {
    GeneratedSrt(Transcript);
  }

  /**
   * Once the output directory exists, the two writes succeed exactly when
   * neither target is a directory, and then leave the one-cue SubRip text
   * and the transcript with a final newline.
   */
  lemma WriteStageResult(fs: Files, log: seq<Effect>, outDir: Path)
    requires Resolve(fs, outDir) == Reached
    ensures var o := WriteStage(fs, log, outDir);
      var srt, md := SrtPath(outDir), MarkdownPath(outDir);
      && (o.result.Ok? <==> !IsDir(fs, srt) && !IsDir(fs, md))
      && (o.result.Ok? ==>
            && o.result.value == Artefacts(AudioPath(outDir), srt, md)
            && o.log == log + [Wrote(srt), Wrote(md)]
            && o.files == fs[srt := File(Render(GenerateSubtitles(TranscribeAudio(AudioPath(outDir)))))][md := File(MarkdownText(TranscribeAudio(AudioPath(outDir))))])
  {
    var srt, md := SrtPath(outDir), MarkdownPath(outDir);
    assert Parent(srt) == outDir && Parent(md) == outDir;
    if !IsDir(fs, srt) {
      var text := File(Render(GenerateSubtitles(TranscribeAudio(AudioPath(outDir)))));
      var written := fs[srt := text];
      ResolveUpdate(fs, outDir, srt, text);
      assert IsDir(written, md) == IsDir(fs, md);
    }
  }

  /**
   * The audio stage: when ffmpeg does not exit with 0 the run stops with
   * the runner's error and no write; otherwise the writes follow, with the
   * audio ffmpeg produced in place.
   */
  lemma AudioStageResult(fs: Files, log: seq<Effect>, video: Path, outDir: Path,
                         ffmpeg: seq<string> -> RunOutcome)
    ensures var audio := AudioPath(outDir);
      var argv := ExtractAudioArgs(video, audio);
      var o := AudioStage(fs, log, video, outDir, ffmpeg);
      && (!ffmpeg(argv).Succeeded() ==>
            o == Outcome(Err(RunError(argv, ffmpeg(argv)).value), fs, log + [Invoked(argv)]))
      && (ffmpeg(argv).Succeeded() ==>
            o == WriteStage(fs[audio := File(ffmpeg(argv).output)], log + [Invoked(argv)], outDir))
  {
  }

  /** Creating the output directory touches neither subtitles.srt nor transcript.md. */
  lemma MkdirKeepsTargets(fs: Files, outDir: Path, made: Files)
    requires CreateDirs(fs, outDir) == Ok(made)
    ensures Resolve(made, outDir) == Reached
    ensures IsDir(made, SrtPath(outDir)) == IsDir(fs, SrtPath(outDir))
    ensures IsDir(made, MarkdownPath(outDir)) == IsDir(fs, MarkdownPath(outDir))
    ensures Lookup(made, SrtPath(outDir)) == Lookup(fs, SrtPath(outDir))
    ensures Lookup(made, MarkdownPath(outDir)) == Lookup(fs, MarkdownPath(outDir))
  {
    CreateDirsOk(fs, outDir, made);
    assert |SrtPath(outDir)| > |outDir| && |MarkdownPath(outDir)| > |outDir|;
  }

  /** Once the output directory exists, the rest of a run succeeds exactly when ffmpeg does and neither write target is a directory. */
  lemma AudioStageSucceeds(fs: Files, log: seq<Effect>, video: Path, outDir: Path,
                           ffmpeg: seq<string> -> RunOutcome)
    requires Resolve(fs, outDir) == Reached
    ensures AudioStage(fs, log, video, outDir, ffmpeg).result.Ok? <==>
      && ffmpeg(ExtractAudioArgs(video, AudioPath(outDir))).Succeeded()
      && !IsDir(fs, SrtPath(outDir))
      && !IsDir(fs, MarkdownPath(outDir))
  {
    var audio := AudioPath(outDir);
    var argv := ExtractAudioArgs(video, audio);
    AudioStageResult(fs, log, video, outDir, ffmpeg);
    if ffmpeg(argv).Succeeded() {
      var extracted := fs[audio := File(ffmpeg(argv).output)];
      ResolveUpdate(fs, outDir, audio, File(ffmpeg(argv).output));
      assert IsDir(extracted, SrtPath(outDir)) == IsDir(fs, SrtPath(outDir));
      assert IsDir(extracted, MarkdownPath(outDir)) == IsDir(fs, MarkdownPath(outDir));
      WriteStageResult(extracted, log + [Invoked(argv)], outDir);
    }
  }

  /** The effects of a run that gets through every stage, in stage order. */
  function Plan(video: Path, outDir: Path): seq<Effect> {
    [ MadeDirs(outDir), Invoked(ExtractAudioArgs(video, AudioPath(outDir))),
      Wrote(SrtPath(outDir)), Wrote(MarkdownPath(outDir)) ]
  }

  /** Any run attempts a prefix of the plan, so the stages happen in order and stop at the first failure. */
  lemma LogFollowsPlan(fs: Files, log: seq<Effect>, video: Path, outDir: Path,
                       ffmpeg: seq<string> -> RunOutcome)
    ensures var o := Pipeline(fs, log, video, outDir, ffmpeg);
      |log| <= |o.log| <= |log| + 4 && o.log == log + Plan(video, outDir)[..|o.log| - |log|]
  {
    var plan := Plan(video, outDir);
    assert plan[..0] == [] && plan[..1] == [plan[0]] && plan[..2] == [plan[0], plan[1]];
    assert plan[..3] == [plan[0], plan[1], plan[2]] && plan[..4] == plan;
    if Exists(fs, video) && CreateDirs(fs, outDir).Ok? {
      var made := CreateDirs(fs, outDir).value;
      PipelineUnfold(fs, log, video, outDir, ffmpeg);
      AudioStageResult(made, log + [MadeDirs(outDir)], video, outDir, ffmpeg);
    }
  }

  /**
   * The only check before any effect is that the video path exists (a
   * directory passes it too); a missing video raises FileNotFound and
   * leaves the host untouched, and otherwise creating the output directory
   * comes first.
   */
  lemma ExistenceCheck(fs: Files, log: seq<Effect>, video: Path, outDir: Path,
                       ffmpeg: seq<string> -> RunOutcome)
    ensures var o := Pipeline(fs, log, video, outDir, ffmpeg);
      (o.log == log <==> !Exists(fs, video))
      && (!Exists(fs, video) ==> o == Outcome(Err(FileNotFound(video)), fs, log))
      && (Exists(fs, video) ==> |o.log| > |log| && o.log[|log|] == MadeDirs(outDir))
  {
    LogFollowsPlan(fs, log, video, outDir, ffmpeg);
  }

  /** Past the existence check and the directory creation, a run is its audio stage. */
  lemma PipelineUnfold(fs: Files, log: seq<Effect>, video: Path, outDir: Path,
                       ffmpeg: seq<string> -> RunOutcome)
    ensures Pipeline(fs, log, video, outDir, ffmpeg).result.Ok? ==>
      Exists(fs, video) && CreateDirs(fs, outDir).Ok?
    ensures Exists(fs, video) && CreateDirs(fs, outDir).Ok? ==>
      Pipeline(fs, log, video, outDir, ffmpeg)
        == AudioStage(CreateDirs(fs, outDir).value, log + [MadeDirs(outDir)], video, outDir, ffmpeg)
  {
  }

  /** A successful run got past the directory creation and ffmpeg, and ended in the write stage. */
  lemma SuccessfulRunStages(fs: Files, log: seq<Effect>, video: Path, outDir: Path,
                            ffmpeg: seq<string> -> RunOutcome)
    requires Pipeline(fs, log, video, outDir, ffmpeg).result.Ok?
    ensures CreateDirs(fs, outDir).Ok?
    ensures var audio := AudioPath(outDir);
      var argv := ExtractAudioArgs(video, audio);
      && ffmpeg(argv).Succeeded()
      && Pipeline(fs, log, video, outDir, ffmpeg)
         == WriteStage(CreateDirs(fs, outDir).value[audio := File(ffmpeg(argv).output)],
                       log + [MadeDirs(outDir)] + [Invoked(argv)], outDir)
  {
    PipelineUnfold(fs, log, video, outDir, ffmpeg);
    AudioStageResult(CreateDirs(fs, outDir).value, log + [MadeDirs(outDir)], video, outDir, ffmpeg);
  }

  /** A successful run ends with the audio, SubRip and markdown files written over the directories it made. */
  lemma SuccessfulRunFiles(fs: Files, log: seq<Effect>, video: Path, outDir: Path,
                           ffmpeg: seq<string> -> RunOutcome)
    requires Pipeline(fs, log, video, outDir, ffmpeg).result.Ok?
    ensures CreateDirs(fs, outDir).Ok?
    ensures var o := Pipeline(fs, log, video, outDir, ffmpeg);
      var audio := AudioPath(outDir);
      var argv := ExtractAudioArgs(video, audio);
      && ffmpeg(argv).Succeeded()
      && o.result.value == Artefacts(audio, SrtPath(outDir), MarkdownPath(outDir))
      && o.log == log + Plan(video, outDir)
      && o.files == CreateDirs(fs, outDir).value[audio := File(ffmpeg(argv).output)]
                      [SrtPath(outDir) := File(Render(GenerateSubtitles(TranscribeAudio(AudioPath(outDir)))))]
                      [MarkdownPath(outDir) := File(MarkdownText(TranscribeAudio(audio)))]
  {
    SuccessfulRunStages(fs, log, video, outDir, ffmpeg);
    var audio := AudioPath(outDir);
    var argv := ExtractAudioArgs(video, audio);
    var made := CreateDirs(fs, outDir).value;
    var extracted := made[audio := File(ffmpeg(argv).output)];
    assert Resolve(extracted, outDir) == Reached by {
      MkdirKeepsTargets(fs, outDir, made);
      ResolveUpdate(made, outDir, audio, File(ffmpeg(argv).output));
    }
    WriteStageResult(extracted, log + [MadeDirs(outDir)] + [Invoked(argv)], outDir);
  }

  /**
   * Writing the three outputs over the directories `CreateDirs` made keeps
   * every other entry and adds nothing but those directories and the three files.
   */
  lemma OutputsOverMade(fs: Files, outDir: Path, made: Files, audio: Entry, srt: Entry, md: Entry)
    requires CreateDirs(fs, outDir) == Ok(made)
    ensures var files := made[AudioPath(outDir) := audio][SrtPath(outDir) := srt][MarkdownPath(outDir) := md];
      && Resolve(files, outDir) == Reached && IsDir(files, outDir)
      && Lookup(files, AudioPath(outDir)) == Some(audio)
      && Lookup(files, SrtPath(outDir)) == Some(srt)
      && Lookup(files, MarkdownPath(outDir)) == Some(md)
      && (forall q :: q in fs && q != AudioPath(outDir) && q != SrtPath(outDir) && q != MarkdownPath(outDir)
            ==> q in files && files[q] == fs[q])
      && (forall q :: q in files && q !in fs ==>
            q <= outDir || q == AudioPath(outDir) || q == SrtPath(outDir) || q == MarkdownPath(outDir))
      && (forall q :: q in files && q !in fs && q <= outDir ==> files[q] == Directory)
  {
    CreateDirsOk(fs, outDir, made);
    var withAudio := made[AudioPath(outDir) := audio];
    var withSrt := withAudio[SrtPath(outDir) := srt];
    ResolveUpdate(made, outDir, AudioPath(outDir), audio);
    ResolveUpdate(withAudio, outDir, SrtPath(outDir), srt);
    ResolveUpdate(withSrt, outDir, MarkdownPath(outDir), md);
    assert Name(AudioPath(outDir)) != Name(SrtPath(outDir));
    assert Name(AudioPath(outDir)) != Name(MarkdownPath(outDir));
    assert Name(SrtPath(outDir)) != Name(MarkdownPath(outDir));
  }

  /**
   * A successful run returns the three fixed paths under the output
   * directory, ran every stage in order, and leaves the audio ffmpeg wrote,
   * the one-cue SubRip file and the transcript with a final newline;
   * every component of the output directory is a directory, every other
   * entry that was there is unchanged and the only other new entries are
   * directories on the way to the output directory.
   */
  lemma SuccessfulRun(fs: Files, log: seq<Effect>, video: Path, outDir: Path,
                      ffmpeg: seq<string> -> RunOutcome)
    requires Pipeline(fs, log, video, outDir, ffmpeg).result.Ok?
    ensures var o := Pipeline(fs, log, video, outDir, ffmpeg);
      var audio := AudioPath(outDir);
      && o.result.value == Artefacts(audio, SrtPath(outDir), MarkdownPath(outDir))
      && o.log == log + Plan(video, outDir)
      && Resolve(o.files, outDir) == Reached && IsDir(o.files, outDir)
      && Lookup(o.files, audio) == Some(File(ffmpeg(ExtractAudioArgs(video, audio)).output))
      && Lookup(o.files, SrtPath(outDir)) == Some(File(SrtContents))
      && Lookup(o.files, MarkdownPath(outDir)) == Some(File(Transcript + "\n"))
      && (forall q :: q in fs && q != audio && q != SrtPath(outDir) && q != MarkdownPath(outDir)
            ==> q in o.files && o.files[q] == fs[q])
      && (forall q :: q in o.files && q !in fs ==>
            q <= outDir || q == audio || q == SrtPath(outDir) || q == MarkdownPath(outDir))
      && (forall q :: q in o.files && q !in fs && q <= outDir ==> o.files[q] == Directory)
  {
    var audio := AudioPath(outDir);
    SuccessfulRunFiles(fs, log, video, outDir, ffmpeg);
    FixedTexts(outDir);
    OutputsOverMade(fs, outDir, CreateDirs(fs, outDir).value,
      File(ffmpeg(ExtractAudioArgs(video, audio)).output), File(SrtContents), File(Transcript + "\n"));
  }

  /**
   * A run succeeds exactly when the video exists, the output directory can
   * be created, ffmpeg exits with status 0, and neither subtitles.srt nor
   * transcript.md is a directory.
   */
  lemma SuccessCondition(fs: Files, log: seq<Effect>, video: Path, outDir: Path,
                         ffmpeg: seq<string> -> RunOutcome)
    ensures Pipeline(fs, log, video, outDir, ffmpeg).result.Ok? <==>
      && Exists(fs, video)
      && CreateDirs(fs, outDir).Ok?
      && ffmpeg(ExtractAudioArgs(video, AudioPath(outDir))).Succeeded()
      && !IsDir(fs, SrtPath(outDir))
      && !IsDir(fs, MarkdownPath(outDir))
  {
    if Exists(fs, video) && CreateDirs(fs, outDir).Ok? {
      var made := CreateDirs(fs, outDir).value;
      MkdirKeepsTargets(fs, outDir, made);
      AudioStageSucceeds(made, log + [MadeDirs(outDir)], video, outDir, ffmpeg);
    }
  }

  /**
   * How far a run gets shows which stages succeeded: ffmpeg is invoked only
   * when the output directory was created, subtitles.srt is written only
   * after ffmpeg exited with 0, and transcript.md only after subtitles.srt
   * was written.
   */
  lemma StagesReached(fs: Files, log: seq<Effect>, video: Path, outDir: Path,
                      ffmpeg: seq<string> -> RunOutcome)
    ensures var o := Pipeline(fs, log, video, outDir, ffmpeg);
      var n := |o.log| - |log|;
      var ran := ffmpeg(ExtractAudioArgs(video, AudioPath(outDir))).Succeeded();
      && (n >= 1 <==> Exists(fs, video))
      && (n >= 2 <==> Exists(fs, video) && CreateDirs(fs, outDir).Ok?)
      && (n >= 3 <==> Exists(fs, video) && CreateDirs(fs, outDir).Ok? && ran)
      && (n >= 4 <==> Exists(fs, video) && CreateDirs(fs, outDir).Ok? && ran && !IsDir(fs, SrtPath(outDir)))
  {
    LogFollowsPlan(fs, log, video, outDir, ffmpeg);
    if Exists(fs, video) && CreateDirs(fs, outDir).Ok? {
      var made := CreateDirs(fs, outDir).value;
      MkdirKeepsTargets(fs, outDir, made);
      PipelineUnfold(fs, log, video, outDir, ffmpeg);
      var audio := AudioPath(outDir);
      var argv := ExtractAudioArgs(video, audio);
      AudioStageResult(made, log + [MadeDirs(outDir)], video, outDir, ffmpeg);
      if ffmpeg(argv).Succeeded() {
        var extracted := made[audio := File(ffmpeg(argv).output)];
        ResolveUpdate(made, outDir, audio, File(ffmpeg(argv).output));
        assert IsDir(extracted, SrtPath(outDir)) == IsDir(made, SrtPath(outDir));
        assert Parent(SrtPath(outDir)) == outDir;
      }
    }
  }

  /**
   * When ffmpeg cannot be started or exits non-zero, the run raises
   * ProgramNotFound or CalledProcessError right after it: nothing is
   * written, so subtitles.srt and transcript.md are as they were.
   */
  lemma AudioFailureStopsRun(fs: Files, log: seq<Effect>, video: Path, outDir: Path,
                             ffmpeg: seq<string> -> RunOutcome, made: Files)
    requires Exists(fs, video) && CreateDirs(fs, outDir) == Ok(made)
    requires !ffmpeg(ExtractAudioArgs(video, AudioPath(outDir))).Succeeded()
    ensures var argv := ExtractAudioArgs(video, AudioPath(outDir));
      var o := Pipeline(fs, log, video, outDir, ffmpeg);
      && o.log == log + [MadeDirs(outDir), Invoked(argv)]
      && o.files == made
      && (ffmpeg(argv).NotInstalled? ==> o.result == Err(ProgramNotFound("ffmpeg")))
      && (ffmpeg(argv).Exited? ==> o.result == Err(CalledProcessError(ffmpeg(argv).returncode, argv)))
      && Lookup(o.files, SrtPath(outDir)) == Lookup(fs, SrtPath(outDir))
      && Lookup(o.files, MarkdownPath(outDir)) == Lookup(fs, MarkdownPath(outDir))
  {
    PipelineUnfold(fs, log, video, outDir, ffmpeg);
    MkdirKeepsTargets(fs, outDir, made);
    AudioStageResult(made, log + [MadeDirs(outDir)], video, outDir, ffmpeg);
  }

  /**
   * A run against a host that already holds its outputs, with the audio
   * ffmpeg would produce, succeeds again and changes no file.
   */
  lemma RerunKeepsFiles(files: Files, log: seq<Effect>, video: Path, outDir: Path,
                        ffmpeg: seq<string> -> RunOutcome)
    requires Exists(files, video) && Resolve(files, outDir) == Reached
    requires var argv := ExtractAudioArgs(video, AudioPath(outDir));
      && ffmpeg(argv).Succeeded()
      && Lookup(files, AudioPath(outDir)) == Some(File(ffmpeg(argv).output))
    requires Lookup(files, SrtPath(outDir)) == Some(File(SrtContents))
    requires Lookup(files, MarkdownPath(outDir)) == Some(File(Transcript + "\n"))
    ensures var again := Pipeline(files, log, video, outDir, ffmpeg);
      && again.result == Ok(Artefacts(AudioPath(outDir), SrtPath(outDir), MarkdownPath(outDir)))
      && again.files == files
  {
    var audio, srt, md := AudioPath(outDir), SrtPath(outDir), MarkdownPath(outDir);
    var argv := ExtractAudioArgs(video, audio);
    var log1 := log + [MadeDirs(outDir)];
    CreateDirsExisting(files, outDir);
    CreateDirsOk(files, outDir, files);
    PipelineUnfold(files, log, video, outDir, ffmpeg);
    AudioStageResult(files, log1, video, outDir, ffmpeg);
    assert files[audio := File(ffmpeg(argv).output)] == files;
    WriteStageResult(files, log1 + [Invoked(argv)], outDir);
    FixedTexts(outDir);
    assert files[srt := File(SrtContents)][md := File(Transcript + "\n")] == files;
  }

  /**
   * Creating the output directory is idempotent: after a successful run,
   * the same run against the resulting host (the directory now exists)
   * succeeds again and leaves the same files.
   */
  lemma SecondRunSucceeds(fs: Files, log: seq<Effect>, video: Path, outDir: Path,
                          ffmpeg: seq<string> -> RunOutcome)
    requires Pipeline(fs, log, video, outDir, ffmpeg).result.Ok?
    ensures var o := Pipeline(fs, log, video, outDir, ffmpeg);
      var again := Pipeline(o.files, o.log, video, outDir, ffmpeg);
      && CreateDirs(o.files, outDir) == Ok(o.files)
      && again.result == o.result
      && again.files == o.files
  {
    var o := Pipeline(fs, log, video, outDir, ffmpeg);
    var audio, srt, md := AudioPath(outDir), SrtPath(outDir), MarkdownPath(outDir);
    SuccessfulRun(fs, log, video, outDir, ffmpeg);
    PipelineUnfold(fs, log, video, outDir, ffmpeg);
    assert Exists(o.files, video) by {
      if video != [] && video != audio && video != srt && video != md {
        assert video in fs;
      }
    }
    CreateDirsExisting(o.files, outDir);
    RerunKeepsFiles(o.files, o.log, video, outDir, ffmpeg);
  }

  /**
   * After a successful run, running again on its result succeeds exactly
   * when that second ffmpeg run exits with 0, whatever the runner does now:
   * the directory and both write targets are already in place.
   */
  lemma RerunSucceedsIff(fs: Files, log: seq<Effect>, video: Path, outDir: Path,
                         ffmpeg: seq<string> -> RunOutcome, ffmpeg2: seq<string> -> RunOutcome)
    requires Pipeline(fs, log, video, outDir, ffmpeg).result.Ok?
    ensures var o := Pipeline(fs, log, video, outDir, ffmpeg);
      Pipeline(o.files, o.log, video, outDir, ffmpeg2).result.Ok? <==>
        ffmpeg2(ExtractAudioArgs(video, AudioPath(outDir))).Succeeded()
  {
    var o := Pipeline(fs, log, video, outDir, ffmpeg);
    var audio, srt, md := AudioPath(outDir), SrtPath(outDir), MarkdownPath(outDir);
    SuccessfulRun(fs, log, video, outDir, ffmpeg);
    PipelineUnfold(fs, log, video, outDir, ffmpeg);
    assert Exists(o.files, video) by {
      if video != [] && video != audio && video != srt && video != md {
        assert video in fs;
      }
    }
    CreateDirsExisting(o.files, outDir);
    SuccessCondition(o.files, o.log, video, outDir, ffmpeg2);
  }

  /** `extract_audio` */
  method ExtractAudio(host: Host, video: Path, audio: Path, ffmpeg: seq<string> -> RunOutcome)
    returns (err: Option<Error>)
    modifies host
    ensures host.log == old(host.log) + [Invoked(ExtractAudioArgs(video, audio))]
    ensures host.files == AfterRun(old(host.files), audio, ffmpeg(ExtractAudioArgs(video, audio)))
    ensures err == RunError(ExtractAudioArgs(video, audio), ffmpeg(ExtractAudioArgs(video, audio)))
  {
    var cmd := ["ffmpeg", "-y", "-i", PathText(video), "-vn", PathText(audio)];
    var outcome := host.Run(cmd, audio, ffmpeg);
    match outcome
    case NotInstalled =>
      err := Some(ProgramNotFound("ffmpeg"));
    case Exited(code, _) =>
      err := if code == 0 then None else Some(CalledProcessError(code, cmd));
  }

  /** `save_srt` */
  method SaveSrt(host: Host, subtitles: seq<Subtitle>, path: Path) returns (err: Option<Error>)
    modifies host
    ensures host.log == old(host.log) + [Wrote(path)]
    ensures match WriteFile(old(host.files), path, Render(subtitles))
      case Ok(written) => err == None && host.files == written
      case Err(e) => err == Some(e) && host.files == old(host.files)
  {
    var text := SrtText(subtitles);
    err := host.WriteText(path, text);
  }

  /** `save_markdown` */
  method SaveMarkdown(host: Host, transcript: string, path: Path) returns (err: Option<Error>)
    modifies host
    ensures host.log == old(host.log) + [Wrote(path)]
    ensures match WriteFile(old(host.files), path, MarkdownText(transcript))
      case Ok(written) => err == None && host.files == written
      case Err(e) => err == Some(e) && host.files == old(host.files)
  {
    err := host.WriteText(path, transcript + "\n");
  }

  /** `process_video`, stage by stage, returning at the first exception. */
  method ProcessVideo(host: Host, video: Path, outDir: Path, ffmpeg: seq<string> -> RunOutcome)
    returns (r: Result<Artefacts>)
    modifies host
    ensures Outcome(r, host.files, host.log)
         == Pipeline(old(host.files), old(host.log), video, outDir, ffmpeg)
  {
    if !Exists(host.files, video) {
      return Err(FileNotFound(video));
    }
    var err := host.Mkdir(outDir);
    if err.Some? {
      return Err(err.value);
    }
    var audio := Child(outDir, "audio.wav");
    err := ExtractAudio(host, video, audio, ffmpeg);
    if err.Some? {
      return Err(err.value);
    }
    var transcript := TranscribeAudio(audio);
    var subtitles := GenerateSubtitles(transcript);
    var srt := Child(outDir, "subtitles.srt");
    err := SaveSrt(host, subtitles, srt);
    if err.Some? {
      return Err(err.value);
    }
    var md := Child(outDir, "transcript.md");
    err := SaveMarkdown(host, transcript, md);
    if err.Some? {
      return Err(err.value);
    }
    r := Ok(Artefacts(audio, srt, md));
  }
}
