/** The command-line session of `main`: four answers pick the model, the
    language, whether to write captions and where the audio comes from; one
    `AudioNotes` object then downloads, transcribes and saves. */
module Menu {
  import opened Wrappers
  import opened Sanitizer
  import opened Captions
  import opened Notes

  /** The menu's numbered models. */
  const ModelMapping: map<string, string> := map["1" := "tiny", "2" := "base", "3" := "small", "4" := "large"]

  /** `model_mapping.get(answer, 'base')`. */
  function ModelFor(answer: string): (r: string)
  {
    if answer in ModelMapping then ModelMapping[answer] else "base"
  }

  /** Each of the four models is picked by its own number and only by it;
      every other answer picks `base`. */
  lemma ModelChoices(answer: string)
    ensures ModelFor(answer) == "tiny" <==> answer == "1"
    ensures ModelFor(answer) == "small" <==> answer == "3"
    ensures ModelFor(answer) == "large" <==> answer == "4"
    ensures ModelFor(answer) == "base" <==> answer != "1" && answer != "3" && answer != "4"
  {
  }

  /** The language answer, `en` when it is empty. */
  function LanguageFor(answer: string): (language: string)
    ensures language != ""
    ensures answer != "" ==> language == answer
    ensures language == "en" <==> answer == "" || answer == "en"
  {
    if answer == "" then "en" else answer
  }

  /** `vtt_choice == "y"`: any other answer, `Y` and `yes` included, means no. */
  function WantsVtt(answer: string): (r: bool)
  {
    answer == "y"
  }

  /** Where the audio comes from: a YouTube URL or a local path. */
  datatype Source = FromYoutube(url: string) | FromFile(path: string)

  /** The answer `1` asks for a URL, `2` for a path; any other answer ends
      the session. */
  function SourceFor(answer: string, location: string): (source: Option<Source>)
    ensures source.Some? <==> answer == "1" || answer == "2"
    ensures source == Some(FromYoutube(location)) <==> answer == "1"
    ensures source == Some(FromFile(location)) <==> answer == "2"
  {
    if answer == "1" then Some(FromYoutube(location))
    else if answer == "2" then Some(FromFile(location))
    else None
  }

  /** The answers typed at the four prompts, and the URL or path typed after
      the last one. */
  datatype Answers = Answers(model: string, language: string, vtt: string, mode: string, location: string)

  /** What a session runs with. */
  datatype Settings = Settings(whisperModel: string, language: string, saveVtt: bool, source: Source)

  /** The settings `main` actually builds: it computes the model and language
      answers but constructs `AudioNotes` with its defaults. */
  function SettingsAsWritten(a: Answers): (r: Option<Settings>)
  {
    var source :- SourceFor(a.mode, a.location);
    Some(Settings("base", "en", WantsVtt(a.vtt), source))
  }

  /** The settings the menu offers: the model and language chosen, captions
      for `y`, and the source the mode answer asks for. */
  function SettingsFor(a: Answers): (s: Option<Settings>)
    ensures s.Some? <==> a.mode == "1" || a.mode == "2"
    ensures s.Some? ==>
              && (s.value.whisperModel == "tiny" <==> a.model == "1")
              && (s.value.whisperModel == "small" <==> a.model == "3")
              && (s.value.whisperModel == "large" <==> a.model == "4")
              && (s.value.whisperModel == "base" <==> a.model != "1" && a.model != "3" && a.model != "4")
    ensures s.Some? ==> s.value.language == if a.language == "" then "en" else a.language
    ensures s.Some? ==> (s.value.saveVtt <==> a.vtt == "y")
    ensures s.Some? ==>
              && (s.value.source == FromYoutube(a.location) <==> a.mode == "1")
              && (s.value.source == FromFile(a.location) <==> a.mode == "2")
  {
    ModelChoices(a.model);
    var source :- SourceFor(a.mode, a.location);
    Some(Settings(ModelFor(a.model), LanguageFor(a.language), WantsVtt(a.vtt), source))
  }

  /** `main` as written agrees with the menu exactly when the session ends at
      once or the answers pick `base` and `en` anyway. */
  lemma AsWrittenAgrees(a: Answers)
    ensures SettingsAsWritten(a) == SettingsFor(a) <==>
              SourceFor(a.mode, a.location).None? || (ModelFor(a.model) == "base" && LanguageFor(a.language) == "en")
  {
  }

  /** Choosing `tiny` and French for a local file still builds the object
      with `base` and `en`. */
  lemma ChoicesIgnored()
    ensures var a := Answers("1", "fr", "y", "2", "talk.mp3");
            && SettingsFor(a).value.whisperModel == "tiny" && SettingsFor(a).value.language == "fr"
            && SettingsAsWritten(a).value.whisperModel == "base" && SettingsAsWritten(a).value.language == "en"
  {
    var a := Answers("1", "fr", "y", "2", "talk.mp3");
    assert SourceFor(a.mode, a.location) == Some(FromFile("talk.mp3"));
  }

  /** The download folder and the transcript folder, in the program's folder `here`. */
  function DownloadDir(here: string): (r: string)
  {
    PathJoin(here, "YoutubeDownloads")
  }

  function TranscriptDir(here: string): (r: string)
  {
    PathJoin(here, "Transcripts")
  }

  /** The folder the files for a stem go in. */
  function StemDir(here: string, stem: string): (r: string)
  {
    PathJoin(TranscriptDir(here), stem)
  }

  /** Where a video with this title is downloaded to. */
  function VideoPath(here: string, title: string): (r: string)
  {
    PathJoin(DownloadDir(here), VideoFile(title))
  }

  /** The transcript file for a stem. */
  function TranscriptPath(here: string, stem: string): (r: string)
  {
    PathJoin(StemDir(here, stem), TxtName(stem))
  }

  /** The caption file for a stem. */
  function CaptionPath(here: string, stem: string): (r: string)
  {
    PathJoin(StemDir(here, stem), VttName(TxtName(stem)))
  }

  /** The files after saving under `stem`: the transcript file holds the
      text, or nothing when there is no transcript; the caption file holds
      the captions when they are asked for and there is a transcript; every
      other file is as it was, and no other file appears. */
  function SavedFiles(files: map<string, string>, here: string, stem: string, saveVtt: bool,
                      transcript: Option<Transcript>): (r: map<string, string>)
    ensures TranscriptPath(here, stem) in r
    ensures r[TranscriptPath(here, stem)] == if transcript.Some? then transcript.value.text else ""
    ensures saveVtt && transcript.Some? ==>
              CaptionPath(here, stem) in r && r[CaptionPath(here, stem)] == CaptionText(transcript.value.segments)
    ensures forall p :: p != TranscriptPath(here, stem) && (p != CaptionPath(here, stem) || !saveVtt || transcript.None?) ==>
              (p in r <==> p in files) && (p in files ==> r[p] == files[p])
  {
    TxtVttDiffer(StemDir(here, stem), stem);
    var txt, vtt := TranscriptPath(here, stem), CaptionPath(here, stem);
    if transcript.None? then files[txt := ""]
    else if saveVtt then files[txt := transcript.value.text][vtt := CaptionText(transcript.value.segments)]
    else files[txt := transcript.value.text]
  }

  /** The files after a download of `video`: a new file at its path unless
      something is already there. */
  function DownloadedFiles(files: map<string, string>, dirs: set<string>, here: string, video: Stream): (r: map<string, string>)
    ensures VideoPath(here, video.title) in r || VideoPath(here, video.title) in dirs
    ensures forall p :: p != VideoPath(here, video.title) ==> (p in r <==> p in files) && (p in files ==> r[p] == files[p])
    ensures VideoPath(here, video.title) in files ==> r == files
  {
    var path := VideoPath(here, video.title);
    if path in files || path in dirs then files else files[path := video.contents]
  }

  /** The folders after a session that makes the folders `made` where
      nothing was: exactly those are new. */
  ghost predicate FoldersMade(files0: map<string, string>, dirs0: set<string>, dirs: set<string>, made: set<string>)
  {
    forall p :: p in dirs <==> p in dirs0 || (p in made && p !in files0)
  }

  /** The outcome of the local-file branch, from the files and folders
      `files0`, `dirs0` before it to `files`, `dirs` after it. */
  ghost predicate FileSessionDone(files0: map<string, string>, dirs0: set<string>, files: map<string, string>, dirs: set<string>,
                            ok: bool, model: string, path: string, saveVtt: bool, here: string,
                            engine: (string, string) -> Option<Transcript>)
  {
    var transcript := engine(model, path);
    && (ok <==> transcript.Some?)
    && files == SavedFiles(files0, here, AudioName(path), saveVtt, transcript)
    && FoldersMade(files0, dirs0, dirs, {DownloadDir(here), TranscriptDir(here), StemDir(here, AudioName(path))})
  }

  /** The outcome of the YouTube branch, `video` being what the URL gave. */
  ghost predicate YoutubeSessionDone(files0: map<string, string>, dirs0: set<string>, files: map<string, string>, dirs: set<string>,
                               ok: bool, model: string, video: Option<Stream>, saveVtt: bool, here: string,
                               engine: (string, string) -> Option<Transcript>)
  {
    match video
    case None =>
      && !ok && files == files0
      && FoldersMade(files0, dirs0, dirs, {DownloadDir(here), TranscriptDir(here)})
    case Some(v) =>
      var title := Sanitize(v.title);
      var transcript := engine(model, VideoPath(here, v.title));
      && (ok <==> transcript.Some?)
      && files == SavedFiles(DownloadedFiles(files0, dirs0, here, v), here, title, saveVtt, transcript)
      && FoldersMade(files0, dirs0, dirs, {DownloadDir(here), TranscriptDir(here), StemDir(here, title)})
  }

  /** The outcome of a session with settings `s`; without settings nothing
      happens. */
  ghost predicate SessionDone(files0: map<string, string>, dirs0: set<string>, files: map<string, string>, dirs: set<string>,
                        ok: bool, s: Option<Settings>, here: string, fetch: string -> Option<Stream>,
                        engine: (string, string) -> Option<Transcript>)
  {
    match s
    case None => !ok && files == files0 && dirs == dirs0
    case Some(settings) =>
      match settings.source
      case FromFile(path) =>
        FileSessionDone(files0, dirs0, files, dirs, ok, settings.whisperModel, path, settings.saveVtt, here, engine)
      case FromYoutube(url) =>
        YoutubeSessionDone(files0, dirs0, files, dirs, ok, settings.whisperModel, fetch(url), settings.saveVtt, here, engine)
  }

  /** The download path lies apart from the folders a session makes. */
  lemma VideoPathApart(here: string, title: string, stem: string)
    ensures VideoPath(here, title) != DownloadDir(here)
    ensures VideoPath(here, title) != TranscriptDir(here)
    ensures VideoPath(here, title) != StemDir(here, stem)
  {
    var video := VideoPath(here, title);
    assert |video| > |DownloadDir(here)|;
    assert video[|here| + 1] == 'Y';
    assert TranscriptDir(here)[|here| + 1] == 'T';
    assert StemDir(here, stem)[|here| + 1] == 'T';
  }

  /** The `2` branch of `main`: transcribe the local file at `path` with
      `engine` and save. */
  method FileSession(model: string, language: string, path: string, saveVtt: bool, here: string,
                     engine: (string, string) -> Option<Transcript>, fs: FileSystem)
    returns (ok: bool)
    modifies fs
    ensures FileSessionDone(old(fs.files), old(fs.dirs), fs.files, fs.dirs, ok, model, path, saveVtt, here, engine)
  {
    var notes := new AudioNotes(model, language, "file", path, here, fs);
    assert notes.AudioFile() == Some(path);
    notes.TranscribeAudio(engine);
    assert notes.result == engine(model, path);
    assert notes.Stem() == Some(AudioName(path));
    ok := notes.SaveTranscription(saveVtt, fs);
  }

  /** The `1` branch of `main`: fetch the video at `url` with `fetch`,
      transcribe it with `engine` and save. A video that cannot be fetched
      leaves no title to save under, and the session fails having made only
      the two folders; otherwise the video is on disk and the files are named
      after its sanitised title. */
  method YoutubeSession(model: string, language: string, url: string, saveVtt: bool, here: string,
                        fetch: string -> Option<Stream>, engine: (string, string) -> Option<Transcript>,
                        fs: FileSystem)
    returns (ok: bool)
    modifies fs
    ensures YoutubeSessionDone(old(fs.files), old(fs.dirs), fs.files, fs.dirs, ok, model, fetch(url), saveVtt, here, engine)
  {
    var notes := new AudioNotes(model, language, "yt", "", here, fs);
    var video := fetch(url);
    if video.Some? {
      VideoPathApart(here, video.value.title, Sanitize(video.value.title));
    }
    var _ := notes.DownloadVideo(video, fs);
    notes.TranscribeAudio(engine);
    ok := notes.SaveTranscription(saveVtt, fs);
  }

  /** Runs the branch the settings pick. */
  method RunSettings(s: Option<Settings>, here: string, fetch: string -> Option<Stream>,
                     engine: (string, string) -> Option<Transcript>, fs: FileSystem)
    returns (ok: bool)
    modifies fs
    ensures SessionDone(old(fs.files), old(fs.dirs), fs.files, fs.dirs, ok, s, here, fetch, engine)
  {
    if s.None? {
      return false;
    }
    var settings := s.value;
    match settings.source
    case FromYoutube(url) =>
      ok := YoutubeSession(settings.whisperModel, settings.language, url, settings.saveVtt, here, fetch, engine, fs);
    case FromFile(path) =>
      ok := FileSession(settings.whisperModel, settings.language, path, settings.saveVtt, here, engine, fs);
  }

  /** `main` as the program has it: whatever the answers, the engine runs
      `base`. */
  method MainAsWritten(a: Answers, here: string, fetch: string -> Option<Stream>,
                       engine: (string, string) -> Option<Transcript>, fs: FileSystem)
    returns (ok: bool)
    modifies fs
    ensures SessionDone(old(fs.files), old(fs.dirs), fs.files, fs.dirs, ok, SettingsAsWritten(a), here, fetch, engine)
    ensures a.mode == "2" ==>
              FileSessionDone(old(fs.files), old(fs.dirs), fs.files, fs.dirs, ok, "base", a.location, a.vtt == "y", here, engine)
    ensures a.mode == "1" ==>
              YoutubeSessionDone(old(fs.files), old(fs.dirs), fs.files, fs.dirs, ok, "base", fetch(a.location), a.vtt == "y",
                                 here, engine)
  {
    ok := RunSettings(SettingsAsWritten(a), here, fetch, engine, fs);
  }

  /** `main` with the menu's settings: the engine runs the chosen model; an
      answer other than `1` or `2` ends the session with nothing done. */
  method RunSession(a: Answers, here: string, fetch: string -> Option<Stream>,
                    engine: (string, string) -> Option<Transcript>, fs: FileSystem)
    returns (ok: bool)
    modifies fs
    ensures SessionDone(old(fs.files), old(fs.dirs), fs.files, fs.dirs, ok, SettingsFor(a), here, fetch, engine)
    ensures a.mode != "1" && a.mode != "2" ==> !ok && fs.files == old(fs.files) && fs.dirs == old(fs.dirs)
    ensures a.mode == "2" ==>
              FileSessionDone(old(fs.files), old(fs.dirs), fs.files, fs.dirs, ok, ModelFor(a.model), a.location,
                              a.vtt == "y", here, engine)
    ensures a.mode == "1" ==>
              YoutubeSessionDone(old(fs.files), old(fs.dirs), fs.files, fs.dirs, ok, ModelFor(a.model), fetch(a.location),
                                 a.vtt == "y", here, engine)
  {
    ok := RunSettings(SettingsFor(a), here, fetch, engine, fs);
  }
}
