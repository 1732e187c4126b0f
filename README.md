# audionotes, modelled in Dafny

`audionotes.py` is a command-line script. It downloads a YouTube video, or
takes a local audio file, has the Whisper engine transcribe it, and saves
the transcript as a `.txt` file. On request it also saves timed captions as
a `.vtt` file. This project models the script's own logic around those
library calls and proves what that logic promises.

The model covers:

- the file-name sanitiser;
- the display name taken from a local path;
- the `str(timedelta)` timestamps;
- the caption blocks;
- the naming of the output folder and files;
- the download-once decision;
- the fields of the `AudioNotes` object as its methods set them;
- the menu's defaults.

The modules:

- `Text`: Python's `str.split` with a one-character separator and `str.strip`, with `Join` as the inverse of `Split`.
- `Decimal`: `str(n)` and zero-padded digits, with a reader for them.
- `Sanitizer`: `sanitize_filename`.
- `Timestamp`: `str(datetime.timedelta)` on whole microseconds, with a reader that inverts it.
- `Captions`:
  - the caption blocks `save_transcription` writes;
  - the loop that writes them (`RenderCaptions`);
  - a reader for caption files that inverts the writer.
- `Notes`:
  - the `AudioNotes` class, with the attributes `__init__` sets as `const` fields;
  - `videotitle`, `videofile` and `result` as `Option` fields, since they exist only once a method has set them;
  - a `FileSystem` class holding files with their contents and folders, which the methods change.
- `Menu`: `main`. It covers the mapping of menu answers, the two session branches with their full effect on files and folders, and `main` both as written and as evidently intended.

Whisper and pytube are given to the methods as parameters:

- the engine is a function from model name and file path to an optional transcript;
- the fetched video is an optional title with contents.

The folder holding the script is a parameter `here`.

Where the code and its description disagree, the model follows the code:

- Timestamps are written as `H:MM:SS`, or `H:MM:SS.ffffff` with six digits when the microseconds are not zero, with `N day(s), ` in front from 24 hours on. They are not written as `H:MM:SS.mmm`.
- The caption file has no `WEBVTT` header.
- When transcription fails, `save_transcription` still opens the `.txt` file for writing before it reads the missing result. The file is left empty and the method fails. It is not left absent.
- `transcribe_audio` builds decoding options holding the chosen language but never passes them to the engine. The engine is therefore given only the model name and the file.

## Model

| member | source | states |
|---|---|---|
| Sanitizer.SanitizedIsSafe | audionotes.py:100-101 | the sanitised name holds none of `\ / * ? : " < > \|` and no space |
| Sanitizer.SanitizedLength | audionotes.py:100-101 | the output is as long as the input less the deleted characters (spaces become `_` one for one) |
| Sanitizer.SanitizedCounts | audionotes.py:100-101 | every other character is kept as often as it occurs; `_` count is input `_` plus spaces; no space remains |
| Sanitizer.SanitizeByCharacter | audionotes.py:99-102 | the two passes equal one left-to-right pass: deleted, `_` for a space, else kept, in the original order |
| Sanitizer.SanitizeAppend | audionotes.py:99-102 | sanitising distributes over concatenation, so order is kept |
| Sanitizer.SanitizeSafeIsIdentity | audionotes.py:99-102 | a name with no illegal character and no space comes out unchanged |
| Sanitizer.SanitizeIdempotent | audionotes.py:99-102 | sanitising twice is sanitising once |
| Text.JoinSplit | audionotes.py:26 | joining the pieces of `split` with the separator gives the string back |
| Text.SplitJoin | audionotes.py:26 | splitting a join of separator-free pieces gives the pieces back |
| Text.SplitFirst | audionotes.py:91 | `split(sep)[0]` is the longest prefix before the first separator |
| Text.SplitLast | audionotes.py:26 | `split(sep)[-1]` is the longest suffix after the last separator |
| Text.StripLeftSpec | audionotes.py:96 | `lstrip` removes whitespace only, and all the leading whitespace |
| Text.StripRightSpec | audionotes.py:96 | `rstrip` removes whitespace only, and all the trailing whitespace |
| Text.StripSpec | audionotes.py:96 | `strip` keeps a slice of the text whose ends are not whitespace, with whitespace cut on both sides; identity when the ends are not whitespace |
| Text.StripIdempotent | audionotes.py:96 | stripping twice is stripping once |
| Decimal.ParseNatToString | audionotes.py:94 | the block number `str(idx + 1)` reads back as that number |
| Decimal.ParsePadded | audionotes.py:95 | a zero-padded field of a timestamp reads back as its value |
| Timestamp.Decompose | audionotes.py:95 | days, hours, minutes, seconds and microseconds of a duration recombine to it |
| Timestamp.ParseFormat | audionotes.py:95 | every `str(timedelta)` timestamp reads back as the exact duration, at any length |
| Timestamp.FormatUnderADay | audionotes.py:95 | below a day: `H:MM:SS` with H < 24 and two-digit MM and SS, plus `.` and six digits exactly when microseconds are not zero |
| Timestamp.FormatInjective | audionotes.py:95 | different durations give different timestamps |
| Captions.ParseTimingLine | audionotes.py:95 | a timing line `start --> end` reads back as its two times |
| Captions.RenderCaptions | audionotes.py:92-97 | the writing loop produces exactly the caption text of the segments |
| Captions.Trimmed | audionotes.py:96 | the kept segments have the same times and the stripped texts, one for one |
| Captions.LinesAreSingle | audionotes.py:93-97 | with single-line texts, no written line holds a newline |
| Captions.CaptionLayout | audionotes.py:93-97 | N segments give 4N newline-terminated lines: number `i+1`, the timing line, the stripped text, an empty line |
| Captions.CaptionsRoundTrip | audionotes.py:92-97 | reading the caption file gives back every segment, in order, numbered from 1, with exact times and stripped text |
| Notes.FileSystem.MakeDirs | audionotes.py:33 | creating a missing folder adds it and changes no file |
| Notes.FileSystem.Write | audionotes.py:87-88 | opening for writing replaces the file's contents and changes nothing else |
| Notes.EnsureDir | audionotes.py:32-33 | afterwards the path exists; it is a new folder exactly when nothing was there |
| Notes.AudioNameSpec | audionotes.py:26 | the display name is the `.`-free start of the last `\`-free component; it holds neither `\` nor `.`; a path with neither is its own name |
| Notes.VttNameSpec | audionotes.py:91 | the `.vtt` name is the `.txt` name's longest `.`-free prefix plus `.vtt` |
| Notes.VttMatchesTxt | audionotes.py:91 | the `.vtt` name shares the `.txt` stem exactly when the stem has no `.` |
| Notes.DottedTitle | audionotes.py:91 | a title `v1.2` gives captions named `v1.vtt` |
| Notes.TxtVttDiffer | audionotes.py:87-92 | the caption file never overwrites the transcript file |
| Notes.AudioNotes.constructor | audionotes.py:21-37 | the arguments and display name are stored; the download and transcript folders exist afterwards, new exactly where nothing was |
| Notes.AudioNotes.DownloadVideo | audionotes.py:39-53 | title and file name are sanitised; the download happens exactly when the path was free; the path exists afterwards; a failed fetch changes nothing |
| Notes.AudioNotes.TranscribeAudio | audionotes.py:55-73 | `result` takes the engine's transcript of the mode's file when there is one and the engine succeeds, and otherwise keeps its value |
| Notes.AudioNotes.SaveTranscription | audionotes.py:75-97 | named by mode; the `.txt` holds the text unchanged; the `.vtt` holds the captions; no title means nothing written; no result means an emptied `.txt` and failure |
| Menu.ModelChoices | audionotes.py:107-114 | `1`..`4` pick tiny, base, small, large, and only they do; anything else gives base |
| Menu.LanguageFor | audionotes.py:117-119 | the empty answer gives `en`; any other answer is kept |
| Menu.SourceFor | audionotes.py:126-142 | `1` asks for a URL, `2` for a path, anything else ends the session |
| Menu.SettingsFor | audionotes.py:105-142 | the menu's own settings, in terms of the answers: settings exist exactly for mode `1` or `2`; the model is `tiny`, `small` or `large` exactly for `1`, `3`, `4`, and `base` for any other answer; the language is `en` for an empty answer and the answer otherwise; captions exactly for `y`; a URL source exactly for `1` and a file source exactly for `2`, both from the location answer |
| Menu.AsWrittenAgrees | audionotes.py:113-138 | `main` as written matches the menu exactly when the answers amount to base and en, or the session ends |
| Menu.ChoicesIgnored | audionotes.py:113-138 | choosing `tiny` and `fr` for a local file still builds the object with `base` and `en` |
| Menu.SavedFiles | audionotes.py:83-97 | after saving under a stem, the `.txt` holds the text (or nothing without a transcript); the `.vtt` holds the captions when asked for with a transcript; every other file is unchanged and none appears, so no `.vtt` without `y` |
| Menu.DownloadedFiles | audionotes.py:45-48 | after a download the video path is taken; only that path can change, and an existing file there is kept |
| Menu.VideoPathApart | audionotes.py:29-45 | the video path is neither download folder, transcript folder nor a stem's folder |
| Menu.FileSession | audionotes.py:135-140 | the local-file branch: success exactly when the engine succeeds; the files become exactly those saved under the display name; the only new folders are the download, transcript and stem folders, where nothing was |
| Menu.YoutubeSession | audionotes.py:127-133 | the YouTube branch: a failed fetch fails, writes no file and makes only the download and transcript folders; otherwise the files are the downloaded video plus those saved under the sanitised title, and the only new folders are the download, transcript and title folders |
| Menu.RunSettings | audionotes.py:126-142 | the branch the settings pick runs, with its full outcome; no settings changes nothing |
| Menu.MainAsWritten | audionotes.py:105-142 | `main` as written: the engine runs `base` in either branch, whatever the model answer; captions for `y`; an invalid mode changes nothing |
| Menu.RunSession | audionotes.py:105-142 | `main` with the correction under Findings: an invalid mode changes nothing; otherwise the engine runs the chosen model on the chosen file or fetched video, with the full file and folder outcome of that branch |

## Left out

- Whisper's model loading and transcription are a parameter `engine(model, file)`. Any failure of the engine is `None`.
- pytube's stream query is a parameter: the fetched stream, or `None` when pytube fails. A download that fails after the title is set is not modelled.
- `os.path.abspath(__file__)` is the parameter `here`.
- `os.path.join` is modelled as `dir + "\" + name`. The model does not cover joining onto a directory that ends in a separator, or a second part that is absolute (such as a display name that starts with a drive letter). Either of those changes the result.
- `os.makedirs` records only the folder it is asked for, not the intermediate folders it also creates.
- Errors from writing a file into a missing folder, or onto a folder's path, are not modelled.
- Segment times are whole microseconds. The engine's float seconds, and `timedelta`'s rounding of them, are not modelled.
- Text-mode newline translation and the file encoding are not modelled: files hold the characters written.
- `print` and `input` are not modelled. The menu's answers arrive as one `Answers` value.
- The broad `except` blocks are modelled by their effect: the object's state stays as it was. Their messages are not modelled.
- In `yt` mode without a video title (the fetch failed), `save_transcription` raises before it makes a folder or opens a file; this is modelled as the method failing with nothing written. With a title but no result, the `.txt` is emptied as in `file` mode.
- Notes.AudioNotes.TranscribeAudio: the language is stored but never reaches the engine, as in the script, which builds decoding options and does not pass them to `transcribe`. The corrected session keeps that, so no session of the model depends on the language answer.
- Captions.CaptionLayout requires every stripped segment text to be a single line (`SingleLineTexts`). A text with an inner newline is still rendered, but its block then spans more lines than four.
- Captions.CaptionsRoundTrip requires the same single-line texts, for the same reason.
- `Parse`, `ParseNat`, `ParseCaptions` and the other readers are not in the script. They exist to state the round trips.

## Findings

| source | as written | input that shows it | evidently intended | confidence | as-written member | corrected member |
|---|---|---|---|---|---|---|
| audionotes.py:113-138 | `main` reads the model and language answers, then builds `AudioNotes(mode='yt')` / `AudioNotes(mode='file', audio_path=file_path)`, so every session runs the `base` model and the object holds `en` | answers `1`, `fr`, `y`, `2`, `talk.mp3`: the menu offers `tiny` and French, and the session runs `base` | pass `whisper_model=model_choice, language=language_choice` to `AudioNotes`; the language would also need `transcribe_audio` to hand its decoding options to `transcribe`, which the correction does not model | not executed | Menu.SettingsAsWritten, Menu.ChoicesIgnored, Menu.AsWrittenAgrees, Menu.MainAsWritten | Menu.SettingsFor, Menu.RunSession |
