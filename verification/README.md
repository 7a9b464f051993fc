# scorm-scorcher video processing, modelled in Dafny

This project models `src/scorm_scorcher/video_processing.py` of scorm-scorcher. That module is the scaffold that turns a lecture
video into three artefacts for a SCORM package:

- an audio track `audio.wav`, extracted with ffmpeg;
- a SubRip subtitle file `subtitles.srt`;
- a markdown transcript `transcript.md`.

The transcript is a placeholder sentence that names the audio file. The
subtitle list is a single cue holding that sentence.

The project has five files:

- `strings.dfy` (module `Strings`): the Python string built-ins the module uses. These are `str(n)` for
  the cue numbers and `"\n".join`. It also has `str.split`, which serves as the inverse that `Join` is
  checked against.
- `subrip.dfy` (module `Subrip`): `save_srt`'s serialiser. It is a specification function `Render`,
  the loop of the source as the method `SrtText`, and a reader `Parse`. The serialiser is proved to
  round-trip with `Parse` in both directions.
- `platform.dfy` (module `Platform`): the host as the module sees it.
  - Relative paths are lists of components.
  - The file system is a map from paths to files and directories.
  - `os.mkdir` resolves its path one component at a time, as POSIX does. This gives ENOENT for a
    missing directory on the way, ENOTDIR for a file on the way, and EEXIST when the path is already
    there.
  - `Path.mkdir(parents=True, exist_ok=True)` follows pathlib. On `FileNotFoundError` it creates the
    parent and tries again; on any other error it succeeds only if the path resolves to a directory.
  - `Path.write_text` resolves the parent as `os.mkdir` does. A missing directory on the way gives
    `FileNotFoundError`, a file on the way gives `NotADirectoryError`, and a directory at the path
    itself gives `IsADirectoryError`.
  - A child process is an abstract runner: it reports that the program is missing, or gives an exit
    status and the output it wrote.
  - The class `Host` holds the files and a log of the effects attempted, in order. Its methods update
    both.
- `video_processing.dfy` (module `VideoProcessing`): the rest of the module.
  - `transcribe_audio` and `generate_subtitles` are pure functions.
  - `extract_audio`, `save_srt`, `save_markdown` and `process_video` are module-level methods. Each
    takes a `Host` and changes its files and log.
  - `Pipeline` is a function of the host before the call that specifies `process_video`.
    `ProcessVideo` is proved equal to it.
  - The lemmas about `Pipeline` cover:
    - the existence check;
    - stage order;
    - how far a run gets, given which stages succeed, so every exception stops the run;
    - the exact success condition;
    - the files a successful run leaves;
    - a rerun on the result.

The files follow the code of `video_processing.py` throughout. The repository's tests,
`tests/test_video_processing.py`, exercise a later `process_video` that this code does not implement:

- a `shutil.which` check that raises `EnvironmentError` when ffmpeg is missing;
- `RuntimeError` when ffmpeg fails;
- a soft failure when ffmpeg finds no subtitle stream for `subtitles.vtt`, which leaves the subtitles
  entry `None`;
- splitting the video into segment files such as `segment_000.mp4`.

The model has the code's `audio.wav`, `subtitles.srt` and `transcript.md`. It raises
`FileNotFoundError` when ffmpeg is missing and `CalledProcessError` when ffmpeg exits with a non-zero
status.

## Model

| member | source | states |
|---|---|---|
| Strings.NatToString | src/scorm_scorcher/video_processing.py:60-61 | `str(idx)` is a non-empty string of decimal digits with no leading zero |
| Strings.DecimalRoundTrip | src/scorm_scorcher/video_processing.py:60-61 | the cue number line reads back as the number written |
| Strings.NatToStringInjective | src/scorm_scorcher/video_processing.py:60-61 | distinct cue numbers give distinct lines, so no two blocks carry the same number |
| Strings.JoinSnoc | src/scorm_scorcher/video_processing.py:62 | joining one more line appends the separator and that line |
| Strings.SplitJoin | src/scorm_scorcher/video_processing.py:62 | splitting `"\n".join(lines)` at "\n" gives `lines` back when no line holds "\n" |
| Strings.JoinSplit | src/scorm_scorcher/video_processing.py:62 | joining the lines of any text with "\n" gives the text back |
| Subrip.SrtText | src/scorm_scorcher/video_processing.py:59-62 | the `enumerate(..., start=1)` loop builds exactly the text `Render` specifies (loop invariant: the lines built are those of the subtitles seen so far) |
| Subrip.LinesSnoc | src/scorm_scorcher/video_processing.py:60-61 | one more subtitle appends one block, numbered after all the others |
| Subrip.LinesFromShape | src/scorm_scorcher/video_processing.py:59-61 | four lines per subtitle; block k is the number first+k, the timestamp, the text and "" |
| Subrip.SrtLayout | src/scorm_scorcher/video_processing.py:59-62 | line 4i is `str(i+1)`, lines 4i+1 and 4i+2 are the i-th timestamp and text verbatim, line 4i+3 is empty, in input order |
| Subrip.RenderEmpty | src/scorm_scorcher/video_processing.py:59-62 | the file is empty if and only if the subtitle list is empty |
| Subrip.RenderEndsWithNewline | src/scorm_scorcher/video_processing.py:61-62 | a non-empty file ends with "\n" (the trailing empty line) |
| Subrip.RenderOne | src/scorm_scorcher/video_processing.py:59-62 | one subtitle is written as "1", its timestamp and its text, each followed by "\n" |
| Subrip.ParseRender | src/scorm_scorcher/video_processing.py:56-62 | reading back what `save_srt` writes gives the subtitle list back, when no timestamp or text holds a line break |
| Subrip.RenderParse | src/scorm_scorcher/video_processing.py:56-62 | every text that reads as a subtitle list is exactly what `save_srt` writes for that list |
| Platform.Child | src/scorm_scorcher/video_processing.py:86 | `out_dir / name` lies directly inside `out_dir` (its parent is `out_dir`) and is named `name` |
| Platform.ResolveReached | src/scorm_scorcher/video_processing.py:84 | a path resolves if and only if every non-empty prefix of it is a directory |
| Platform.ResolveUpdate | src/scorm_scorcher/video_processing.py:84 | changing an entry that is not on the way to a path leaves its resolution unchanged |
| Platform.ResolveBlocked | src/scorm_scorcher/video_processing.py:84 | a resolution that fails with ENOTDIR ran into a file on the way |
| Platform.ResolveStops | src/scorm_scorcher/video_processing.py:84 | once resolution stops at a missing or file component, it stops there for every longer path |
| Platform.MkdirOk | src/scorm_scorcher/video_processing.py:84 | a successful pathlib `mkdir` leaves every component a directory, keeps every entry and adds only directories on the way |
| Platform.MkdirErr | src/scorm_scorcher/video_processing.py:84 | a failing pathlib `mkdir` raises FileExists for a file on the way, NotADirectory for the path itself when its parent runs into a file, or (without `parents`) FileNotFound when its parent is missing |
| Platform.CreateDirsExisting | src/scorm_scorcher/video_processing.py:84 | with `exist_ok=True`, a path that already resolves to a directory is left as it is |
| Platform.CreateDirsOk | src/scorm_scorcher/video_processing.py:84 | a successful `mkdir(parents=True, exist_ok=True)` leaves every component a directory, keeps every entry, adds only directories on the way, and a second call changes nothing |
| Platform.CreateDirsErr | src/scorm_scorcher/video_processing.py:84 | it fails only with FileExists naming a file on the way, or NotADirectory naming the path itself when resolving its parent runs into a file; on a file system where every entry is reachable, the error always names the path itself |
| Platform.CreateDirsSucceeds | src/scorm_scorcher/video_processing.py:84 | it succeeds if and only if no non-empty prefix of the path is a file |
| Platform.WriteFile | src/scorm_scorcher/video_processing.py:62 | `write_text` succeeds if and only if the parent resolves to a directory and the path is no directory; it then sets the path to a file holding the text and nothing else. A missing directory on the way gives `FileNotFoundError`, a file on the way `NotADirectoryError`, a directory at the path an error |
| Platform.Host.Mkdir | src/scorm_scorcher/video_processing.py:84 | logs the mkdir; on success the files become what `CreateDirs` gives, on failure they are unchanged and the error is returned |
| Platform.Host.WriteText | src/scorm_scorcher/video_processing.py:62 | logs the write; on success the files become what `WriteFile` gives, on failure they are unchanged and the error is returned |
| Platform.Host.Run | src/scorm_scorcher/video_processing.py:33 | logs the command; returns the runner's outcome; the output path gets the written audio exactly when the exit status is 0 |
| VideoProcessing.AudioCommandShape | src/scorm_scorcher/video_processing.py:25-32 | the command is six words: ffmpeg; -y before the input; the video path after -i; -vn; the audio path last |
| VideoProcessing.RunError | src/scorm_scorcher/video_processing.py:33 | `check=True` raises nothing if and only if the exit status is 0; a missing ffmpeg raises FileNotFound (ProgramNotFound) naming it; a non-zero status raises CalledProcessError with that status and the command |
| VideoProcessing.ExtractAudio | src/scorm_scorcher/video_processing.py:18-33 | runs the six-word command once, keeps the audio only on exit status 0, and returns the error `RunError` gives |
| VideoProcessing.TranscriptNamesFile | src/scorm_scorcher/video_processing.py:36-43 | the transcript is "Transcription for ", then the audio file's name (not its directory), then "." |
| VideoProcessing.GenerateSubtitles | src/scorm_scorcher/video_processing.py:46-53 | exactly one subtitle: the fixed cue 00:00:00,000 --> 00:00:05,000 and the whole transcript |
| VideoProcessing.GeneratedSrt | src/scorm_scorcher/video_processing.py:53-62 | the SubRip text of the generated list is "1", the fixed cue and the transcript, each followed by "\n" |
| VideoProcessing.SaveSrt | src/scorm_scorcher/video_processing.py:56-62 | writes `Render(subtitles)` at the path with `write_text`'s success and failure cases |
| VideoProcessing.SaveMarkdown | src/scorm_scorcher/video_processing.py:65-68 | writes the transcript plus "\n" at the path with `write_text`'s success and failure cases |
| VideoProcessing.FixedTexts | src/scorm_scorcher/video_processing.py:86-96 | whatever the output directory, the transcript is "Transcription for audio.wav.", and the SubRip text is fixed |
| VideoProcessing.WriteStageResult | src/scorm_scorcher/video_processing.py:89-98 | in an existing output directory, the two writes succeed if and only if neither target is a directory; they then log both writes in order and set exactly those two files |
| VideoProcessing.MkdirKeepsTargets | src/scorm_scorcher/video_processing.py:84-95 | creating the output directory makes it a directory and does not change whether subtitles.srt or transcript.md is one |
| VideoProcessing.AudioStageSucceeds | src/scorm_scorcher/video_processing.py:86-98 | once the directory exists, the rest succeeds if and only if ffmpeg exits with 0 and neither write target is a directory |
| VideoProcessing.LogFollowsPlan | src/scorm_scorcher/video_processing.py:79-98 | every run attempts a prefix of mkdir, ffmpeg, write srt, write markdown, in that order |
| VideoProcessing.StagesReached | src/scorm_scorcher/video_processing.py:79-96 | the run reaches mkdir if and only if the video exists; ffmpeg if and only if mkdir also succeeded; the srt write if and only if ffmpeg also exited with 0; the markdown write if and only if subtitles.srt is also no directory; so each exception stops the run |
| VideoProcessing.ExistenceCheck | src/scorm_scorcher/video_processing.py:79-84 | no effect happens if and only if the video path is missing; then FileNotFound is raised and the host is untouched; when it exists (file or directory), mkdir is the first effect |
| VideoProcessing.SuccessfulRunStages | src/scorm_scorcher/video_processing.py:79-98 | a successful run created the directory, saw ffmpeg exit with 0, and ended in the writes |
| VideoProcessing.SuccessfulRunFiles | src/scorm_scorcher/video_processing.py:79-98 | a successful run returns the three paths, logs the four effects in order, and leaves the directories made plus audio, srt and markdown |
| VideoProcessing.OutputsOverMade | src/scorm_scorcher/video_processing.py:84-96 | writing the three outputs over the created directories keeps every component of the output directory a directory, keeps every other entry, and adds nothing but those directories and the three files |
| VideoProcessing.SuccessfulRun | src/scorm_scorcher/video_processing.py:79-98 | a successful run returns {audio, srt, markdown} under the output directory, every component of which is a directory; these hold the ffmpeg audio, the one-cue SubRip text and the transcript plus "\n"; all other entries are unchanged, and the only other new entries are directories on the way to the output directory |
| VideoProcessing.SuccessCondition | src/scorm_scorcher/video_processing.py:79-98 | a run succeeds if and only if the video exists, the directory can be created, ffmpeg exits with 0, and neither subtitles.srt nor transcript.md is a directory |
| VideoProcessing.AudioFailureStopsRun | src/scorm_scorcher/video_processing.py:86-89 | when ffmpeg is missing or fails, the run raises FileNotFound or CalledProcessError after mkdir and ffmpeg, and writes nothing |
| VideoProcessing.RerunKeepsFiles | src/scorm_scorcher/video_processing.py:79-98 | a run on a host that already holds its outputs succeeds and changes no file |
| VideoProcessing.SecondRunSucceeds | src/scorm_scorcher/video_processing.py:84-98 | after a successful run, `mkdir(parents=True, exist_ok=True)` on the result is a no-op success (the `exist_ok` promise); with the same deterministic runner, the whole run again gives the same result and files |
| VideoProcessing.RerunSucceedsIff | src/scorm_scorcher/video_processing.py:84-98 | after a successful run, a run on its result with any runner succeeds if and only if that runner's ffmpeg exits with 0 |
| VideoProcessing.ProcessVideo | src/scorm_scorcher/video_processing.py:71-98 | the stage-by-stage method returns, leaves and logs exactly what `Pipeline` specifies for the host before it |

## Left out

- Media processing: ffmpeg is an abstract runner, a function from the command to an outcome. The
  model does not say what audio ffmpeg produces. A failed run leaves the files unchanged. A run does
  not fail because its output path is a directory.
- An ffmpeg that never exits: the runner always returns an outcome, so a hanging child process is
  not modelled.
- `PermissionError` from an ffmpeg that exists but is not executable: `NotInstalled` stands only for
  the `FileNotFoundError` of a missing executable.
- `stdout`/`stderr` redirection to DEVNULL: it has no observable effect in the model.
- Exception messages: the `FileNotFoundError` raised for a missing video carries only the path, not
  the formatted message "Video file not found: ...".
- Text encoding: files hold `seq<char>`. The UTF-8 encoding of `write_text` is not modelled, nor is
  its newline translation in text mode on Windows ("\n" written as "\r\n").
- Path syntax: paths are lists of components, relative to the working directory. Parsing of `str`
  paths, absolute paths, `..`, symbolic links and normalisation are not modelled. `PathText` joins the
  components with "/".
- Platform.CreateDirs: follows POSIX `os.mkdir`. On Windows, a file on the way raises
  `FileExistsError` for that file rather than `NotADirectoryError`.
- `Exists` and `IsDir` look an entry up directly rather than resolving the whole path. On a file
  system where every entry is reachable (`Platform.Reachable`), the two agree. `mkdir` and
  `write_text` do resolve the path.
- Permissions, full disks and other operating-system failures of `mkdir` and `write_text`.
- Concurrency with other processes changing the file system during a run.
- `src/scorm_scorcher/cli.py`, `quiz_generation.py`, `scorm_packager.py` and `__init__.py`: callers
  and neighbours, not part of this model.
- The later `process_video` that `tests/test_video_processing.py` expects is not modelled, because
  the code does not implement it. It has segment files, a WebVTT subtitle track that may be missing,
  a `shutil.which` check raising `EnvironmentError`, and `RuntimeError` on ffmpeg failure.
