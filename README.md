# Media helpers and content agent of an AI content platform, in Dafny

This project models the core of a small web platform that turns a user's
text into media. It covers five modules of the platform's `utils` package:

- **video** (`utils/video_utils.py`): the word-by-word video reel, with its
  fade in and out, caption of earlier words and padding frames. Also the
  avatar video, with its blink rule and a caption that grows and is wrapped
  at 50 characters.
- **audio** (`utils/audio_utils.py`): the beep track used when no speech
  model is available, and the silent 44-byte WAV file written when even that
  fails. It also covers the `.wav` rewrite used before speech recognition
  and the order in which the transcription fallbacks run.
- **image** (`utils/image_utils.py`): the vertical gradient background, which
  fills an array in place, and the layout of a photo quote: text position,
  backing rectangle, watermark and output paths.
- **text** (`utils/text_utils.py`): the quote prompts by theme,
  `random.sample` without repeats, and the canned auto-completion.
- **agent** (`utils/agent.py`): remixing a content record into another
  format, the content calendar built from the five most common words of a
  user's recent texts, and the per-platform advice lookup.

The Python built-ins the core relies on are modelled once, in module
`Builtins`:

- `str.split()`, `" ".join`, `str.lower()`, `str(n)` and `%04d`;
- `int(x)` on a float;
- `//` on integers;
- `os.path.join` and `os.path.splitext`.

Randomness (`random.randint`, `random.sample`) is modelled as an arbitrary
choice within the allowed range; every property holds for every choice.
Anything the models, the database, the clock or the file system decide is a
parameter: whether Stable Diffusion or a speech model answers, the id the
database assigns, the recent texts a query returns, today's date and the
measured text size.

Where the code and its description disagree, the model follows the code:

- The avatar's eyes are shut when `i % 100 > 95`. That is 4 frames in every
  100, not 5 (`Video.FourBlinksPerHundred`).
- `frames_per_word` divides by `max(1, len(words))`, so a text without words
  does not divide by zero.
- When the word loop draws nothing (no words, or more words than frames),
  every padding step copies `frame_-001.jpg`. That file is never written,
  so every copy fails, no frame file exists at all, and the encoder is
  handed an empty frame pattern. The model records each such step as
  `CopyOf(-1)`, a copy that fails and saves nothing
  (`Video.PaddingFromMissingFrame`, `Video.FrameMinusOneNeverWritten`).

## Model

| member | source | states |
|---|---|---|
| Builtins.SplitWords | utils/video_utils.py:51 | `str.split()` yields only non-empty runs of non-whitespace characters |
| Builtins.SplitJoin | utils/video_utils.py:83 | splitting `" ".join(ws)` gives back `ws` for any list of words |
| Builtins.JoinEqualsWord | utils/agent.py:74 | `" ".join(ws)` equals a single word exactly when `ws` is that one word |
| Builtins.Format04Injective | utils/video_utils.py:87 | two frame numbers with the same `%04d` text are equal, negative numbers included |
| Builtins.Trunc | utils/video_utils.py:155 | `int(x)` of a non-negative number is its floor |
| Builtins.LowerIdempotent | utils/agent.py:119 | lower-casing twice is lower-casing once |
| Builtins.PathJoin | utils/image_utils.py:61-62 | `os.path.join(folder, name)` ends with `name` |
| Builtins.SplitExtRoot | utils/audio_utils.py:27 | the root `os.path.splitext` keeps is a prefix of the path |
| Video.FrameFileNameInjective | utils/video_utils.py:87 | frame file names are equal exactly when the frame numbers are, so no saved frame overwrites another |
| Video.FramesPerWord | utils/video_utils.py:54 | frames per word is at most 30, and not negative for a non-negative total |
| Video.FramesPerWordFits | utils/video_utils.py:54 | all words fit within the frame total, and one more frame per word would not fit unless the cap of 30 is reached |
| Video.Opacity | utils/video_utils.py:72-76 | opacity is a multiple of 51 up to 255; it is 0 on a word's first frame and 255 exactly between the two fades |
| Video.FadeIn | utils/video_utils.py:73-74 | on each of a word's first five frames, frame 4 included, opacity is 51 times the frame index, and it rises from one fade-in frame to the next |
| Video.FadeOut | utils/video_utils.py:75-76 | on each fade-out frame after the fade in, the word's last frame (51) included, opacity is 51 times the frames left, and it falls from one frame to the next |
| Video.Caption | utils/video_utils.py:82-84 | a caption is drawn exactly when the word is not the first |
| Video.CaptionIsPreviousWords | utils/video_utils.py:82-84 | the caption's words are exactly the words shown before, in order |
| Video.SlotsFit | utils/video_utils.py:54-64 | the frames the word loop draws fit within the frame total, and no word gets a frame when the total is not positive |
| Video.LastWord | utils/video_utils.py:92-96 | the loop reaches the frame total only after drawing its last word |
| Video.DrawWordFrames | utils/video_utils.py:64-93 | the inner loop saves the word's frames under the next frame numbers |
| Video.PadFrames | utils/video_utils.py:98-103 | padding keeps the frames already saved and adds copies of frame `frame_count - 1` up to the total |
| Video.DrawWord | utils/video_utils.py:58-96 | one pass of the word loop: a position within ±200/±100 of the centre, then exactly `frames_per_word` frames |
| Video.RenderReelFrames | utils/video_utils.py:50-103 | the frames are numbered 0..total-1 and are exactly the reel: the word frames, then the padding copies (copies of frame -1 fail and save nothing) |
| Video.ReelFramesComplete | utils/video_utils.py:98-103 | the word frames followed by the padding copies make up the whole reel |
| Video.WordsInOrder | utils/video_utils.py:58-89 | frame `i * fpw + f` shows word `i`, with fade step `f` and the caption of the words before it |
| Video.WordStartsInvisible | utils/video_utils.py:73-74 | every word's first frame has opacity 0 |
| Video.ReelFrameDrawn | utils/video_utils.py:58-89 | every frame before the padding shows word `k // fpw` |
| Video.WordIndexMonotone | utils/video_utils.py:58-89 | along the reel, the index of the word shown never decreases |
| Video.PaddingFromMissingFrame | utils/video_utils.py:98-103 | with no words, or more words than frames, nothing is drawn and the padding copies frame -1 |
| Video.FrameMinusOneNeverWritten | utils/video_utils.py:99 | frame -1 is named `frame_-001.jpg`, which no frame of the loop is named |
| Video.PaddingFromLastWordFrame | utils/video_utils.py:98-103 | with at least one word and at least as many frames as words, the padding copies the last drawn frame |
| Video.GenerateVideoReel | utils/video_utils.py:12-121 | the frames are exactly the reel of the text's words at the random positions drawn, `duration * fps` of them; every position is within ±200/±100 of the centre; the encoder gets this frame pattern, the frame rate and the optional audio; the path returned is `video_<id>.mp4` |
| Video.FourBlinksPerHundred | utils/video_utils.py:175 | in every block of 100 frames, exactly the last four show closed eyes |
| Video.EstimatedDuration | utils/video_utils.py:150-151 | the estimated duration is at least three seconds |
| Video.AvatarWithoutAudioAtLeast90 | utils/video_utils.py:148-155 | without audio, an avatar video has at least 90 frames |
| Video.CaptionLength | utils/video_utils.py:195 | the caption prefix never exceeds the text |
| Video.CaptionGrows | utils/video_utils.py:163-195 | the first frame shows no caption, and later frames never show less |
| Video.WrapCaption | utils/video_utils.py:199-202 | the lines concatenate back to the caption; all but the last are exactly 50 characters, and there are ceil(len/50) of them |
| Video.PlaceLines | utils/video_utils.py:205-207 | line `k` is drawn at `(50, height - 100 + 30k)` |
| Video.DrawAvatarFrame | utils/video_utils.py:170-207 | one frame: eyes closed by the blink rule; caption lines that concatenate to the text prefix, each non-empty and at most 50 characters, all but the last exactly 50, drawn at x = 50 and stacked 30 pixels apart from `height - 100` |
| Video.RenderAvatarFrames | utils/video_utils.py:153-211 | `int(duration * 30)` frames, numbered in order; frame `i` has the blink state of `i` and the caption prefix for `i`, cut into 50-character lines placed as `DrawAvatarFrame` states |
| Video.GenerateAvatarVideo | utils/video_utils.py:123-229 | returns `avatar_<id>.mp4`; encodes at 30 fps with the optional audio; at least 90 frames without audio; frame `i` is numbered `i` and shows the blink state and wrapped caption prefix of frame `i` |
| Audio.DecodeEncode | utils/audio_utils.py:99-114 | decoding `to_bytes(width, 'little')` gives the value back |
| Audio.EncodeDecode | utils/audio_utils.py:99-114 | encoding a decoded byte string gives the same bytes back |
| Audio.RiffHeaderRoundTrip | utils/audio_utils.py:98-100 | the RIFF chunk header reads back to its size |
| Audio.RiffHeaderOfParse | utils/audio_utils.py:98-100 | a RIFF header that parses is the encoding of the size it parses to |
| Audio.FmtChunkRoundTrip | utils/audio_utils.py:103-110 | the PCM "fmt " chunk reads back to its fields |
| Audio.FmtChunkOfParse | utils/audio_utils.py:103-110 | a "fmt " chunk that parses is the encoding of its fields |
| Audio.DataHeaderRoundTrip | utils/audio_utils.py:113-114 | the data chunk header reads back to its size |
| Audio.DataHeaderOfParse | utils/audio_utils.py:113-114 | a data chunk header that parses is the encoding of its size |
| Audio.ParseEncode | utils/audio_utils.py:97-114 | a 44-byte header parses back to itself |
| Audio.EncodeParse | utils/audio_utils.py:97-114 | a header that parses is exactly the encoding of what it parses to |
| Audio.FallbackHeaderWellFormed | utils/audio_utils.py:95-114 | the fallback file is exactly its 44 header bytes; the RIFF size is the file length minus 8, the data chunk is empty, the byte rate equals rate × block align, and the header reads back unchanged |
| Audio.FallbackHeaderBytes | utils/audio_utils.py:98-114 | the fallback header, byte for byte: `RIFF`, 36, `WAVE`, `fmt `, 16, PCM, mono, 22050, 44100, 2, 16, `data`, 0 |
| Audio.BinaryFile.constructor | utils/audio_utils.py:96 | opening for binary writing starts an empty file |
| Audio.BinaryFile.Write | utils/audio_utils.py:98 | a write appends its bytes |
| Audio.WriteSilentWav | utils/audio_utils.py:96-114 | the file written is exactly the encoded fallback header |
| Audio.WriteHeader | utils/audio_utils.py:98-114 | writing chunk by chunk appends the encoded header |
| Audio.WriteRiffHeader | utils/audio_utils.py:98-100 | the three writes append the RIFF chunk header |
| Audio.WriteFmtChunk | utils/audio_utils.py:103-110 | the eight writes append the PCM "fmt " chunk |
| Audio.WriteDataHeader | utils/audio_utils.py:113-114 | the two writes append the data chunk header |
| Audio.BeepsPerSecond | utils/audio_utils.py:76 | the beep rate is between 0 and 4, and 0 exactly when there are no words |
| Audio.BeepCountBound | utils/audio_utils.py:76-78 | the beep count is `min(words, 4 * duration)` |
| Audio.BeepStartsInClip | utils/audio_utils.py:78-80 | every beep starts within the clip, at a positive rate |
| Audio.BeepTimesInOrder | utils/audio_utils.py:78-83 | beep start times all lie within the clip and strictly increase |
| Audio.BeepStarts | utils/audio_utils.py:73-83 | the loop produces `BeepCount` start times, the `i`-th being `i / beeps_per_second` |
| Audio.GenerateFallbackAudio | utils/audio_utils.py:62-116 | returns the output path; when the signal can be written, a beep track at 22050 Hz of `22050 * duration` samples whose beeps start at `i / beeps_per_second` for each of the `BeepCount` beeps; otherwise exactly the fallback header bytes |
| Audio.TextToSpeech | utils/audio_utils.py:41-60 | the path is always `speech_<id>.wav`; the file holds the synthesized bytes, or else the fallback audio of a 5-second clip: a 22050 Hz beep track with its sample count and beep start times, or the fallback header bytes when the signal cannot be written |
| Audio.SpeechPath | utils/audio_utils.py:44 | the speech path ends in `.wav` |
| Audio.WavPath | utils/audio_utils.py:25-29 | a `.wav` path (in any letter case) is kept; any other path gets its extension replaced by `.wav` |
| Audio.WavPathIdempotent | utils/audio_utils.py:25-29 | rewriting a second time changes nothing |
| Audio.FallbackTranscribe | utils/audio_utils.py:22-39 | raises exactly when a non-`.wav` file cannot be converted; otherwise returns the recognised text, or the sentinel when recognition fails |
| Audio.TranscribeAudio | utils/audio_utils.py:8-20 | the primary model's text when it answers, the fallback otherwise |
| Audio.TranscriptionNeverEmptyHanded | utils/audio_utils.py:17-39 | with a `.wav` input and no recogniser working, the sentinel text is returned |
| Image.GradientChannel | utils/image_utils.py:45-47 | a channel value lies between the two colours, and row 0 has the first colour |
| Image.GradientIsFloor | utils/image_utils.py:45-47 | the integer channel is the floor of the exact value of the Python expression |
| Image.GradientMonotone | utils/image_utils.py:42-48 | going down the rows, each channel moves toward the second colour without turning back |
| Image.CreateGradientBackground | utils/image_utils.py:32-52 | a `height × width` array whose every pixel has its row's gradient colour |
| Image.GenerateBackground | utils/image_utils.py:9-30 | reports whether diffusion was used; otherwise it builds a fresh 1080 × 1080 array whose every pixel has its row's gradient colour |
| Image.LayoutQuote | utils/image_utils.py:76-113 | resized exactly when the background size differs from the target; text centred; backing rectangle 20 px wider on every side; watermark at `(10, height - 20)` |
| Image.BackgroundPrompt | utils/image_utils.py:65 | the prompt is the fixed head followed by the first 50 characters of the text |
| Image.GeneratePhotoQuote | utils/image_utils.py:54-119 | the background and quote paths; resized exactly when the picture used, diffusion or a 1080 × 1080 gradient, is not the target size |
| Prompts.ThemePrompts | utils/text_utils.py:33-40 | a theme's prompt list is found exactly when the theme is a key, and then it is that key's list |
| Prompts.MixedPool | utils/text_utils.py:34-36 | the extend loop concatenates every theme's list in key order |
| Prompts.MixedPoolInThemeOrder | utils/text_utils.py:11-36 | the mixed pool has 12 prompts; prompt `j` of theme `t` is entry `4t + j` |
| Prompts.Pool | utils/text_utils.py:33-41 | a known theme draws from exactly its own list of four prompts; a missing, empty or unknown theme draws from the mixed pool |
| Prompts.Sample | utils/text_utils.py:37 | `random.sample` takes `k` entries of the pool without replacement |
| Prompts.GenerateTextPrompt | utils/text_utils.py:7-41 | raises exactly for a negative count; otherwise returns `min(count, pool size)` prompts, all from the pool and none twice |
| Prompts.PoolsDistinct | utils/text_utils.py:11-30 | no pool holds a prompt twice |
| Prompts.SampleDistinct | utils/text_utils.py:37-41 | sampling from a pool without repeats gives no repeats |
| Prompts.FirstStarter | utils/text_utils.py:73-75 | finds the first starter, in table order, that the text begins with |
| Prompts.FallbackCompletion | utils/text_utils.py:66-77 | the text plus the first matching starter's completion, or plus the "not available" note |
| Prompts.StartersPrefixFree | utils/text_utils.py:66-71 | no starter begins with another starter |
| Prompts.AtMostOneStarter | utils/text_utils.py:73-75 | at most one starter matches, so the order of the loop does not matter |
| Prompts.FallbackExtendsText | utils/text_utils.py:73-77 | the fallback result starts with the text and is longer than it |
| Prompts.AutoComplete | utils/text_utils.py:56-77 | the model's text when it answers; otherwise the text plus the completion of the first starter it begins with, or plus the "not available" note, which always strictly extends the input |
| Agent.Content.constructor | utils/agent.py:20-25 | a new record holds the given columns and has no output path yet |
| Agent.FormatOutput | utils/agent.py:32-46 | there is an output path exactly for the three known formats |
| Agent.Remix | utils/agent.py:17-51 | a new record titled "Remix of …" with the item's text and owner; the item is unchanged; the jobs started and the output path follow the target, with speech before the avatar; an unknown target starts nothing |
| Agent.FormatOutputsDiffer | utils/agent.py:32-46 | a photo quote is a `.jpg`; a reel and an avatar video are `.mp4` |
| Agent.ExtractThemes | utils/agent.py:61-64 | the theme list is the words of every set, non-empty text, in query order |
| Agent.TextWordsEmpty | utils/agent.py:63-64 | a text adds no words exactly when it is missing or holds none |
| Agent.NoThemes | utils/agent.py:61-67 | there are no themes exactly when no recent text holds a word |
| Agent.FirstSeen | utils/agent.py:70 | the Counter's keys are the distinct words, each once, ordered by where each is first seen |
| Agent.FirstIndexExtend | utils/agent.py:70 | counting one more word keeps every earlier first occurrence, and a new word is first seen at the end |
| Agent.BeforeTotal | utils/agent.py:71 | two distinct words are always ranked one way or the other |
| Agent.BeforeTransitive | utils/agent.py:71 | the ranking is transitive |
| Agent.Insert | utils/agent.py:71 | insertion adds exactly the one word |
| Agent.InsertRanked | utils/agent.py:71 | inserting into a ranked list keeps it ranked |
| Agent.RankAll | utils/agent.py:71 | ranking permutes the keys |
| Agent.RankAllRanked | utils/agent.py:71 | the ranked keys are in rank order |
| Agent.MostCommonRanks | utils/agent.py:70-71 | `most_common(n)` holds `min(n, distinct words)` words, none twice, ordered by count descending and then first seen, each ranked before every word left out |
| Agent.ThemeKeyOnlyAlone | utils/agent.py:74-75 | the joined theme string names a theme only when it is one common word that is itself a key |
| Agent.ThemeKeysAreWords | utils/text_utils.py:11-30 | every theme key is a single word |
| Agent.BuildCalendar | utils/agent.py:84-92 | entry `i` is dated `today + i`, carries prompt `i`, and has content type `i % 3` |
| Agent.FormatsCycle | utils/agent.py:84-91 | any three consecutive days cover all three formats, and the formats repeat every three days |
| Agent.GenerateContentCalendar | utils/agent.py:53-94 | fails exactly for negative days; consecutive dates; formats cycle; no suggestion twice; without themes `min(days, 4)` suggestions, all from the "inspiration" prompts; otherwise `min(days, pool size)` suggestions, all from the pool of the joined five most common words |
| Agent.Suggestions | utils/agent.py:90 | the suggestions are the entries' prompts, in order |
| Agent.LookupAdvice | utils/agent.py:119-120 | the table has an entry exactly when the key is present, and it is that key's advice |
| Agent.Optimize | utils/agent.py:96-126 | the table's advice for the lower-cased platform, or the default advice |
| Agent.OptimizeIgnoresCase | utils/agent.py:119-120 | a name and its lower-case form get the same advice |
| Agent.DefaultIsNotTabled | utils/agent.py:119-126 | the default advice is returned exactly for platforms that are not in the table |

## Left out

- Drawing is not modelled: glyphs, fonts, text measurement, resizing with LANCZOS, the avatar's head and mouth (the mouth follows a sine curve), and JPEG/MP4 encoding. A frame is modelled by its file number and by what is drawn on it. The measured text size is an input.
- The ffmpeg run is a record of its arguments (`EncoderCall`). `ffmpeg.probe` is replaced by the audio duration, given as a parameter.
- Deleting the frame directory afterwards is not modelled. It has no bearing on the returned path.
- The video reel's background (prompt, generation, gradient fallback, resize to 1920 × 1080) is not modelled. Only the photo quote's background path is modelled.
- Floating point: the beep rate, the beep count, the caption fraction `len * t * 1.2` and the avatar duration are computed in exact reals, and the model claims their exact-real values (`Audio.BeepCountBound`, `Video.RenderAvatarFrames`, `Video.DrawAvatarFrame`). Python's floats may differ by one at a boundary where a product should be a whole number. For example, with 1 word and a duration of 49, `int((1/49)*49)` is 0 in floats, while the model gives 1 beep. Opacity is modelled in integers: `int(255 * (f / 5))` rounds `f / 5` to a float first, but for `f` from 0 to 4 the float product still truncates to the exact `51 * f`. The gradient channel `c1 + d*y/h` is not exact in floats; only its `int()` is claimed, and that equals the floor of the exact value (`Image.GradientIsFloor`), given the small integers of an 8-bit colour and an image height.
- Audio.BeepStarts: only the start time of each beep is modelled. The 0.1-second sine waveform, the int16 conversion and the WAV written by scipy are not.
- Audio.GenerateFallbackAudio: failures of numpy or scipy are a parameter (`signalOk`), and so is a non-positive duration.
- Builtins.Lower: covers ASCII letters and the Kelvin sign only. All keys compared against (`.wav`, the platform names) are ASCII. Other Unicode case mappings are not modelled.
- The database session (`add`, `commit`, the query in `generate_content_calendar`) is not modelled. The new id and the recent texts are parameters.
- Agent.Remix: exceptions raised inside a generator, which would leave the record committed without a path, are not modelled.
- Agent.Remix: the generators' own work is modelled by the jobs started and the path each returns. A missing `input_text` is passed through as `None`, as the code does.
- Video.GenerateVideoReel, Video.GenerateAvatarVideo: `if audio_path:` treats an empty path as no audio, while the model treats `Some("")` as an audio track. No caller passes an empty path.
- Agent.GenerateContentCalendar: a date is a day number, not its ISO text, and "today" is a parameter.
- Image.GenerateBackground: the diffusion picture itself is not modelled. The result only records that it was used.
- Randomness: the word positions, the gradient colours and `random.sample`'s choice are arbitrary values within their ranges.
- `generate_caption` in `utils/text_utils.py` calls an image-to-text model and has no logic of its own, so it is not part of this model.
