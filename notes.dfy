/** The `AudioNotes` object: the folders it sets up, what `download_video`
    leaves behind, the transcript `transcribe_audio` keeps and the files
    `save_transcription` writes. The file system and the transcription engine
    lie outside the program: the first is a `FileSystem` object the methods
    change, the second a function they are given. */
module Notes {
  import opened Wrappers
  import opened Text
  import opened Sanitizer
  import opened Captions

  /** `os.path.join(dir, name)` on Windows, for a directory that does not end
      in a separator and a relative name. */
  function PathJoin(dir: string, name: string): (r: string)
  {
    dir + "\\" + name
  }

  /** What the engine hands back: the whole text and its timed segments. */
  datatype Transcript = Transcript(text: string, segments: seq<Segment>)

  /** The video stream pytube picks: its title and its contents. */
  datatype Stream = Stream(title: string, contents: string)

  /** The files and folders on disk: each file's path with its contents, and
      the folders' paths. */
  class FileSystem {
    var files: map<string, string>
    var dirs: set<string>

    constructor (files: map<string, string>, dirs: set<string>)
      ensures this.files == files && this.dirs == dirs
    {
      this.files := files;
      this.dirs := dirs;
    }

    /** `os.path.exists(path)`. */
    predicate Exists(path: string)
      reads this
    {
      path in files || path in dirs
    }

    /** `os.makedirs(path)`, which the program calls only on a missing path. */
    method MakeDirs(path: string)
      requires !Exists(path)
      modifies this
      ensures files == old(files) && dirs == old(dirs) + {path}
      ensures Exists(path)
    {
      dirs := dirs + {path};
    }

    /** Opening `path` for writing and writing `contents` to it: whatever
        the file held before is gone. */
    method Write(path: string, contents: string)
      modifies this
      ensures files == old(files)[path := contents] && dirs == old(dirs)
      ensures Exists(path)
    {
      files := files[path := contents];
    }
  }

  /** `if not os.path.exists(path): os.makedirs(path)`: afterwards the path
      exists, and it is a new folder exactly when nothing was there. */
  method EnsureDir(fs: FileSystem, path: string)
    modifies fs
    ensures fs.files == old(fs.files)
    ensures fs.dirs == if old(fs.Exists(path)) then old(fs.dirs) else old(fs.dirs) + {path}
    ensures fs.Exists(path)
  {
    if !fs.Exists(path) {
      fs.MakeDirs(path);
    }
  }

  /** The display name of a local file: the last `\`-separated component of
      its path, up to its first `.`. */
  function AudioName(path: string): (r: string)
  {
    var components := Split(path, '\\');
    Split(components[|components| - 1], '.')[0]
  }

  lemma NotInPrefix(name: string, component: string, c: char)
    requires |name| <= |component| && component[..|name|] == name && c !in component
    ensures c !in name
  {
    forall k | 0 <= k < |name|
      ensures name[k] != c
    {
      assert name[k] == component[k];
    }
  }

  /** The display name is the longest `.`-free start of `component`, the
      longest `\`-free end of the path; so it holds neither character, and a
      path with neither is its own display name. */
  lemma AudioNameSpec(path: string) returns (component: string)
    ensures '\\' !in component && |component| <= |path| && path[|path| - |component|..] == component
    ensures |component| == |path| || path[|path| - |component| - 1] == '\\'
    ensures var name := AudioName(path);
            && |name| <= |component| && component[..|name|] == name
            && (|name| == |component| || component[|name|] == '.')
    ensures '\\' !in AudioName(path) && '.' !in AudioName(path)
    ensures '\\' !in path && '.' !in path ==> AudioName(path) == path
  {
    var components := Split(path, '\\');
    component := components[|components| - 1];
    SplitLast(path, '\\');
    SplitFirst(component, '.');
    var name := Split(component, '.')[0];
    assert AudioName(path) == name;
    NotInPrefix(name, component, '\\');
    if '\\' !in path && '.' !in path {
      SplitNoSeparator(path, '\\');
      SplitNoSeparator(path, '.');
    }
  }

  /** The file a video is saved as: its sanitised title with `.mp4`. */
  function VideoFile(title: string): (r: string)
  {
    Sanitize(title) + ".mp4"
  }

  /** The transcript file for a stem. */
  function TxtName(stem: string): (r: string)
  {
    stem + ".txt"
  }

  /** The caption file named after a transcript file: the part of its name
      before the first `.`, with `.vtt`. */
  function VttName(txt: string): (r: string)
  {
    Split(txt, '.')[0] + ".vtt"
  }

  /** The caption file's stem is the longest `.`-free start of the transcript
      file's name. */
  lemma VttNameSpec(txt: string)
    ensures var vtt := VttName(txt);
            var stem := vtt[..|vtt| - 4];
            && |vtt| >= 4 && vtt[|vtt| - 4..] == ".vtt"
            && '.' !in stem && |stem| <= |txt| && txt[..|stem|] == stem
            && (|stem| == |txt| || txt[|stem|] == '.')
  {
    SplitFirst(txt, '.');
    var vtt := VttName(txt);
    assert vtt[..|vtt| - 4] == Split(txt, '.')[0];
  }

  /** The caption file shares the transcript file's stem exactly when the stem
      holds no `.`. */
  lemma VttMatchesTxt(stem: string)
    ensures VttName(TxtName(stem)) == stem + ".vtt" <==> '.' !in stem
  {
    var first := Split(TxtName(stem), '.')[0];
    if '.' !in stem {
      SplitCons(stem, "txt", '.');
      assert TxtName(stem) == stem + ['.'] + "txt";
    } else {
      assert first != stem;
      SameEnding(first, stem, ".vtt");
    }
  }

  /** The caption file never overwrites the transcript file. */
  lemma TxtVttDiffer(dir: string, stem: string)
    ensures PathJoin(dir, TxtName(stem)) != PathJoin(dir, VttName(TxtName(stem)))
  {
    var txt, vtt := PathJoin(dir, TxtName(stem)), PathJoin(dir, VttName(TxtName(stem)));
    assert txt[|txt| - 3] == 't';
    assert vtt[|vtt| - 3] == 'v';
  }

  lemma SameEnding(a: string, b: string, end: string)
    ensures a + end == b + end ==> a == b
  {
    if a + end == b + end {
      assert a == (a + end)[..|a|];
      assert b == (b + end)[..|b|];
    }
  }

  /** A title with a `.` in it: the caption file is named after the part
      before it. */
  lemma DottedTitle()
    ensures VttName(TxtName(Sanitize("v1.2"))) == "v1.vtt"
  {
    SanitizeSafeIsIdentity("v1.2");
    assert TxtName("v1.2") == "v1" + ['.'] + "2.txt";
    SplitCons("v1", "2.txt", '.');
  }

  /** The state of one `AudioNotes` object. The attributes `__init__` sets
      are never reassigned; `videotitle`, `videofile` and `result` exist only
      once `download_video` or `transcribe_audio` has set them, so they are
      options. */
  class AudioNotes {
    const whisperModel: string
    const language: string
    const mode: string
    const audioName: string
    const audioPath: string
    const ytSavePath: string
    const transcriptSavePath: string
    var videoTitle: Option<string>
    var videoFile: Option<string>
    var result: Option<Transcript>

    /** `AudioNotes(whisper_model, language, mode, audio_path)`, the program
        lying in folder `here`: it records its arguments and the display name,
        and makes the download and transcript folders where they are missing. */
    constructor (whisperModel: string, language: string, mode: string, audioPath: string,
                 here: string, fs: FileSystem)
      modifies fs
      ensures this.whisperModel == whisperModel && this.language == language && this.mode == mode
      ensures this.audioPath == audioPath && audioName == AudioName(audioPath)
      ensures ytSavePath == PathJoin(here, "YoutubeDownloads")
      ensures transcriptSavePath == PathJoin(here, "Transcripts")
      ensures videoTitle == None && videoFile == None && result == None
      ensures fs.files == old(fs.files)
      ensures fs.Exists(ytSavePath) && fs.Exists(transcriptSavePath)
      ensures forall p :: p in fs.dirs <==>
                p in old(fs.dirs) || ((p == ytSavePath || p == transcriptSavePath) && p !in old(fs.files))
    {
      this.whisperModel := whisperModel;
      this.language := language;
      this.mode := mode;
      this.audioName := AudioName(audioPath);
      this.audioPath := audioPath;
      ytSavePath := PathJoin(here, "YoutubeDownloads");
      transcriptSavePath := PathJoin(here, "Transcripts");
      videoTitle := None;
      videoFile := None;
      result := None;
      new;
      EnsureDir(fs, ytSavePath);
      EnsureDir(fs, transcriptSavePath);
    }

    /** The file `transcribe_audio` hands to the engine: the downloaded video
        in `yt` mode, the given path in `file` mode; in `yt` mode before any
        download, and in any other mode, there is none and the method's error
        is swallowed. */
    function AudioFile(): (r: Option<string>)
      reads this
    {
      if mode == "yt" then
        (if videoFile.Some? then Some(PathJoin(ytSavePath, videoFile.value)) else None)
      else if mode == "file" then Some(audioPath)
      else None
    }

    /** `download_video(url)`, the URL leading to `video`, or to None when
        pytube fails and the error is swallowed. The title is sanitised into
        the file name; the download happens exactly when nothing is at that
        path yet, and afterwards something is. */
    method DownloadVideo(video: Option<Stream>, fs: FileSystem) returns (downloaded: bool)
      modifies this, fs
      ensures result == old(result) && fs.dirs == old(fs.dirs)
      ensures video.None? ==>
                && !downloaded && fs.files == old(fs.files)
                && videoTitle == old(videoTitle) && videoFile == old(videoFile)
      ensures video.Some? ==>
                var path := PathJoin(ytSavePath, VideoFile(video.value.title));
                && videoTitle == Some(Sanitize(video.value.title))
                && videoFile == Some(VideoFile(video.value.title))
                && (downloaded <==> !old(fs.Exists(path)))
                && fs.files == (if downloaded then old(fs.files)[path := video.value.contents] else old(fs.files))
                && fs.Exists(path)
                && (mode == "yt" ==> AudioFile() == Some(path))
    {
      downloaded := false;
      if video.Some? {
        videoTitle := Some(Sanitize(video.value.title));
        videoFile := Some(videoTitle.value + ".mp4");
        var path := PathJoin(ytSavePath, videoFile.value);
        if !fs.Exists(path) {
          fs.Write(path, video.value.contents);
          downloaded := true;
        }
      }
    }

    /** `transcribe_audio()`, the engine being `engine(model, file)`, None
        when it fails. `result` takes the engine's transcript when there is a
        file and the engine succeeds, and otherwise keeps what it held. The
        language is not handed to the engine, as in the program. */
    method TranscribeAudio(engine: (string, string) -> Option<Transcript>)
      modifies this
      ensures videoTitle == old(videoTitle) && videoFile == old(videoFile)
      ensures result == if AudioFile().Some? && engine(whisperModel, AudioFile().value).Some?
                        then engine(whisperModel, AudioFile().value)
                        else old(result)
    {
      var file := AudioFile();
      if file.Some? {
        var transcript := engine(whisperModel, file.value);
        if transcript.Some? {
          result := transcript;
        }
      }
    }

    /** What `save_transcription` names its folder and files after: the
        video title in `yt` mode, none before a download; the display name
        otherwise. */
    function Stem(): (r: Option<string>)
      reads this
    {
      if mode == "yt" then videoTitle else Some(audioName)
    }

    /** `save_transcription(save_vtt)`. Without a stem it fails and writes
        nothing. Otherwise it makes the stem's folder where missing and writes
        the transcript's text, unchanged, to the `.txt` file, and the captions
        of its segments to the `.vtt` file when asked to. With no transcript
        the `.txt` file is opened, and so emptied, before the method fails. */
    method SaveTranscription(saveVtt: bool, fs: FileSystem) returns (ok: bool)
      modifies fs
      ensures Stem().None? ==> !ok && fs.files == old(fs.files) && fs.dirs == old(fs.dirs)
      ensures Stem().Some? ==>
                var dir := PathJoin(transcriptSavePath, Stem().value);
                var txt := PathJoin(dir, TxtName(Stem().value));
                var vtt := PathJoin(dir, VttName(TxtName(Stem().value)));
                && (ok <==> result.Some?)
                && fs.Exists(dir) && fs.Exists(txt)
                && (forall p :: p in fs.dirs <==> p in old(fs.dirs) || (p == dir && p !in old(fs.files)))
                && fs.files == (if result.None? then old(fs.files)[txt := ""]
                                else if !saveVtt then old(fs.files)[txt := result.value.text]
                                else old(fs.files)[txt := result.value.text][vtt := CaptionText(result.value.segments)])
    {
      var stem := Stem();
      if stem.None? {
        return false;
      }
      var dir := PathJoin(transcriptSavePath, stem.value);
      EnsureDir(fs, dir);
      var txt := PathJoin(dir, TxtName(stem.value));
      fs.Write(txt, "");
      if result.None? {
        return false;
      }
      fs.Write(txt, result.value.text);
      if saveVtt {
        var captions := RenderCaptions(result.value.segments);
        fs.Write(PathJoin(dir, VttName(TxtName(stem.value))), captions);
      }
      ok := true;
    }
  }
}
