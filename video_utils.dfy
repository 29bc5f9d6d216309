/**
 * Frame scheduling of the two video generators in utils/video_utils.py.
 *
 * `generate_video_reel` draws each word of the text for `frames_per_word`
 * frames with a fade in and out, shows the words before it as a caption,
 * and pads with copies of the last frame up to `duration * fps` frames.
 * `generate_avatar_video` draws one frame per index with a blink rule and a
 * caption that reveals a growing prefix of the text, wrapped at 50
 * characters. Drawing, JPEG writing and the ffmpeg run are opaque effects:
 * a frame is modelled by the file name it is saved under and what is drawn
 * on it.
 */
module Video {
  import opened Builtins

  const ReelWidth := 1920
  const ReelHeight := 1080
  const MaxFramesPerWord := 30
  const FadeFrames := 5

  const AvatarWidth := 1280
  const AvatarHeight := 720
  const AvatarFps := 30
  const CaptionLineLength := 50

  // ----- frame files -----

  /** A frame saved under number `number`, that is under `FrameFileName(number)`. */
  datatype FrameFile<C> = FrameFile(number: int, content: C)

  /** `f"frame_{k:04d}.jpg"`. */
  function FrameFileName(k: int): string {
    "frame_" + Format04(k) + ".jpg"
  }

  /** Frame numbers and frame file names correspond one to one, so the frames
      written under numbers 0, 1, 2, ... never overwrite each other. */
  lemma FrameFileNameInjective(a: int, b: int)
    ensures FrameFileName(a) == FrameFileName(b) <==> a == b
  {
    if FrameFileName(a) == FrameFileName(b) {
      var fa, fb := Format04(a), Format04(b);
      assert |fa| == |fb|;
      assert fa == FrameFileName(a)[6..6 + |fa|];
      assert fb == FrameFileName(b)[6..6 + |fb|];
      Format04Injective(a, b);
    }
  }

  // ----- generate_video_reel -----

  /** `min(30, total_frames // max(1, len(words)))`: the largest number of
      frames, at most 30, that every word can get within the total. The
      divisor is never zero. */
  function FramesPerWord(totalFrames: int, wordCount: nat): (r: int)
    ensures r <= MaxFramesPerWord
    ensures totalFrames >= 0 ==> r >= 0
  {
    var m := if wordCount == 0 then 1 else wordCount;
    Min(MaxFramesPerWord, totalFrames / m)
  }

  /** `frames_per_word` is the largest count up to 30 that fits every word
      (at least one) into the frame total. */
  lemma FramesPerWordFits(totalFrames: int, wordCount: nat)
    ensures var r, m := FramesPerWord(totalFrames, wordCount), if wordCount == 0 then 1 else wordCount;
      r * m <= totalFrames && (r == MaxFramesPerWord || totalFrames < (r + 1) * m)
  {
    var m := if wordCount == 0 then 1 else wordCount;
    var q, rest := totalFrames / m, totalFrames % m;
    assert totalFrames == q * m + rest && 0 <= rest < m;
    var r := FramesPerWord(totalFrames, wordCount);
    assert r == Min(MaxFramesPerWord, q);
    MulMonotone(r, q, m);
    assert (q + 1) * m == q * m + m;
  }

  /** `int(255 * (f / 5))` while fading in, `int(255 * ((word_frames - f) / 5))`
      while fading out, 255 otherwise. The float products 255*k/5 for
      k in 0..4 are exact, so integer division gives the same values. */
  function Opacity(f: nat, wordFrames: int): (o: nat)
    requires f < wordFrames
    ensures o <= 255 && o % 51 == 0
    ensures f == 0 ==> o == 0
    ensures o == 255 <==> FadeFrames <= f <= wordFrames - FadeFrames
  {
    if f < FadeFrames then 255 * f / FadeFrames
    else if f > wordFrames - FadeFrames then 255 * (wordFrames - f) / FadeFrames
    else 255
  }

  /** During the first five frames of a word the opacity climbs by 51 per frame. */
  lemma FadeIn(f: nat, wordFrames: int)
    requires f < FadeFrames && f < wordFrames
    ensures Opacity(f, wordFrames) == 51 * f
    ensures f + 1 < FadeFrames && f + 1 < wordFrames ==> Opacity(f, wordFrames) < Opacity(f + 1, wordFrames)
  {
  }

  /** After the fade in, the last frames of a word fall back by 51 per frame. */
  lemma FadeOut(f: nat, wordFrames: int)
    requires FadeFrames <= f && wordFrames - FadeFrames < f && f < wordFrames
    ensures Opacity(f, wordFrames) == 51 * (wordFrames - f)
    ensures f + 1 < wordFrames ==> Opacity(f + 1, wordFrames) < Opacity(f, wordFrames)
  {
  }

  datatype Position = Position(x: int, y: int)

  /** What is drawn into a reel frame, or the frame it is copied from. A
      `CopyOf(-1)` records a copy of `frame_-001.jpg`, which is never
      written: that copy fails and leaves no file behind. */
  datatype ReelFrame =
    | Drawn(wordIndex: nat, word: string, at: Position, opacity: nat, caption: Option<string>)
    | CopyOf(source: int)

  /** The caption shown while word `i` is on screen: `" ".join(words[:i])`,
      drawn only when `i > 0`. */
  function Caption(words: seq<string>, i: nat): (c: Option<string>)
    requires i <= |words|
    ensures c.None? <==> i == 0
  {
    if i > 0 then Some(JoinSpace(words[..i])) else None
  }

  /** The caption is exactly the words already shown, in order. */
  lemma CaptionIsPreviousWords(words: seq<string>, i: nat)
    requires AllWords(words) && 0 < i <= |words|
    ensures SplitWords(Caption(words, i).value) == words[..i]
  {
    SplitJoin(words[..i]);
  }

  /** The random position of a word on the 1920x1080 frame:
      `width // 2 + randint(-200, 200)`, `height // 2 + randint(-100, 100)`. */
  predicate InWordBox(p: Position) {
    ReelWidth / 2 - 200 <= p.x <= ReelWidth / 2 + 200 &&
    ReelHeight / 2 - 100 <= p.y <= ReelHeight / 2 + 100
  }

  // ----- integer arithmetic used by the frame schedule -----

  /** Frame `f` of word `i` is frame `i * fpw + f`, and back. */
  lemma SlotOf(i: nat, f: nat, fpw: nat)
    requires f < fpw
    ensures (i * fpw + f) / fpw == i && (i * fpw + f) % fpw == f
  {
    DivModUnique(i * fpw + f, fpw, i, f);
  }

  lemma SlotBelow(k: nat, i: nat, fpw: nat)
    requires 0 < fpw && k < i * fpw
    ensures k / fpw < i
  {
    var q := k / fpw;
    assert q * fpw <= k;
    if i <= q {
      MulMonotone(i, q, fpw);
      assert false;
    }
  }

  /** Frame `k` of the word loop: word `k / fpw`, `k % fpw` frames into it.
      No word frame exists past the last word; `CopyOf(0)` stands there. */
  function WordFrameAt(words: seq<string>, at: seq<Position>, fpw: nat, k: nat): ReelFrame {
    if fpw == 0 then CopyOf(0)
    else
      var i := k / fpw;
      if i < |words| && i < |at| then Drawn(i, words[i], at[i], Opacity(k % fpw, fpw), Caption(words, i))
      else CopyOf(0)
  }

  /** The first `count` frames the word loop saves. */
  function WordLoopFrames(words: seq<string>, at: seq<Position>, fpw: nat, count: nat): (fs: seq<FrameFile<ReelFrame>>)
    ensures |fs| == count
  {
    if count == 0 then []
    else WordLoopFrames(words, at, fpw, count - 1) + [FrameFile(count - 1, WordFrameAt(words, at, fpw, count - 1))]
  }

  lemma {:induction false} WordLoopFramesAt(words: seq<string>, at: seq<Position>, fpw: nat, count: nat, k: nat)
    requires k < count
    ensures WordLoopFrames(words, at, fpw, count)[k] == FrameFile(k, WordFrameAt(words, at, fpw, k))
  {
    if k < count - 1 {
      WordLoopFramesAt(words, at, fpw, count - 1, k);
    }
  }

  /** Saving frame `f` of word `i` extends the frames saved so far. */
  lemma WordLoopFramesStep(words: seq<string>, at: seq<Position>, fpw: nat, i: nat, f: nat)
    requires f < fpw && i < |words| && i < |at|
    ensures WordLoopFrames(words, at, fpw, i * fpw + f + 1) ==
      WordLoopFrames(words, at, fpw, i * fpw + f) +
      [FrameFile(i * fpw + f, Drawn(i, words[i], at[i], Opacity(f, fpw), Caption(words, i)))]
  {
    SlotOf(i, f, fpw);
  }

  /** Drawing the position of the next word does not change the frames of
      the words before it. */
  lemma {:induction false} WordLoopFramesNewPosition(words: seq<string>, at: seq<Position>, p: Position, fpw: nat, count: nat)
    requires count <= |at| * fpw
    ensures WordLoopFrames(words, at + [p], fpw, count) == WordLoopFrames(words, at, fpw, count)
  {
    if count > 0 {
      WordLoopFramesNewPosition(words, at, p, fpw, count - 1);
      if fpw > 0 {
        SlotBelow(count - 1, |at|, fpw);
      }
    }
  }

  /** Number of frames the word loop draws for a positive total: every word
      gets exactly `frames_per_word` frames. */
  function DrawnFrames(totalFrames: int, wordCount: nat): (d: nat)
    requires totalFrames > 0
    ensures d <= totalFrames
  {
    FramesPerWordFits(totalFrames, wordCount);
    wordCount * FramesPerWord(totalFrames, wordCount)
  }

  /** Frame `k` of a reel with a positive frame total: the word frames first,
      then copies of the last drawn frame. */
  function ReelFrameAt(words: seq<string>, at: seq<Position>, totalFrames: int, k: nat): ReelFrame
    requires 0 < totalFrames && |at| == |words|
  {
    var fpw := FramesPerWord(totalFrames, |words|);
    var drawn := DrawnFrames(totalFrames, |words|);
    if k < drawn then WordFrameAt(words, at, fpw, k)
    else
      CopyOf(drawn - 1)
  }

  /** `frames_per_word`, read as a count of frames, fits every word into the
      frame total, and is zero when the total is not positive. */
  lemma SlotsFit(totalFrames: int, wordCount: nat)
    ensures wordCount * Max0(FramesPerWord(totalFrames, wordCount)) <= Max0(totalFrames)
    ensures totalFrames <= 0 ==> FramesPerWord(totalFrames, wordCount) <= 0
    ensures 0 < totalFrames ==> 0 <= FramesPerWord(totalFrames, wordCount)
  {
    FramesPerWordFits(totalFrames, wordCount);
    var r := FramesPerWord(totalFrames, wordCount);
    if totalFrames <= 0 {
      var m := if wordCount == 0 then 1 else wordCount;
      DivMonotone(0, -totalFrames, m);
    }
  }

  /** Before word `i` is drawn there is room for all of its frames. */
  lemma WordRoom(i: nat, n: nat, fpw: nat, total: nat)
    requires i < n && n * fpw <= total
    ensures i * fpw + fpw <= total
  {
    MulMonotone(i + 1, n, fpw);
  }

  lemma NextWordStart(i: nat, fpw: nat)
    ensures (i + 1) * fpw == i * fpw + fpw
  {
  }

  /** The word loop reaches the frame total only after its last word; with
      no positive total it stops after the first. */
  lemma LastWord(i: nat, n: nat, fpw: nat, totalFrames: int)
    requires i < n && n * fpw <= Max0(totalFrames) && totalFrames <= i * fpw + fpw
    ensures 0 < totalFrames ==> i + 1 == n && i * fpw + fpw == n * fpw
  {
    if 0 < totalFrames && i + 1 < n {
      MulMonotone(i + 2, n, fpw);
    }
  }

  /** The inner `for f in range(word_frames)` loop for word `i`: saves the
      word's frames under the next frame numbers, stopping at the frame total.
      `slots` is `frames_per_word`, which `word_frames` equals whenever it is
      positive. */
  method DrawWordFrames(words: seq<string>, at: seq<Position>, ghost slots: nat, i: nat, wordFrames: int,
                        totalFrames: int, frames0: seq<FrameFile<ReelFrame>>, frameCount0: int)
    returns (frames: seq<FrameFile<ReelFrame>>, frameCount: int)
    requires i < |words| && i < |at|
    requires frameCount0 == i * slots && frames0 == WordLoopFrames(words, at, slots, i * slots)
    requires wordFrames <= 0 || (wordFrames == slots && i * slots + slots <= totalFrames)
    ensures frameCount == frameCount0 + Max0(wordFrames)
    ensures frames == WordLoopFrames(words, at, slots, frameCount)
  {
    frames, frameCount := frames0, frameCount0;
    var f := 0;
    while f < wordFrames
      invariant 0 <= f <= Max0(wordFrames) && frameCount == i * slots + f
      invariant frames == WordLoopFrames(words, at, slots, frameCount)
    {
      var opacity := Opacity(f, wordFrames);
      var caption := if i > 0 then Some(JoinSpace(words[..i])) else None;
      WordLoopFramesStep(words, at, slots, i, f);
      frames := frames + [FrameFile(frameCount, Drawn(i, words[i], at[i], opacity, caption))];
      frameCount := frameCount + 1;
      f := f + 1;
      if frameCount >= totalFrames {
        break;
      }
    }
  }

  /** The `while frame_count < total_frames` loop: copies of frame
      `frame_count - 1` up to the frame total. */
  method PadFrames(frames0: seq<FrameFile<ReelFrame>>, totalFrames: int) returns (frames: seq<FrameFile<ReelFrame>>)
    ensures |frames| == if totalFrames < |frames0| then |frames0| else totalFrames
    ensures frames[..|frames0|] == frames0
    ensures forall k :: |frames0| <= k < |frames| ==> frames[k] == FrameFile(k, CopyOf(|frames0| - 1))
  {
    frames := frames0;
    var frameCount := |frames0|;
    var lastFrame := frameCount - 1;
    while frameCount < totalFrames
      invariant |frames| == frameCount && |frames0| <= frameCount
      invariant totalFrames >= |frames0| ==> frameCount <= totalFrames
      invariant totalFrames < |frames0| ==> frameCount == |frames0|
      invariant frames[..|frames0|] == frames0
      invariant forall k :: |frames0| <= k < frameCount ==> frames[k] == FrameFile(k, CopyOf(lastFrame))
    {
      var copy := FrameFile(frameCount, CopyOf(lastFrame));
      assert (frames + [copy])[..|frames0|] == frames[..|frames0|];
      frames := frames + [copy];
      frameCount := frameCount + 1;
    }
  }

  /** One pass of the word loop: a random position for word `i`, then its
      frames. Every word gets exactly `slots` frames. */
  method DrawWord(words: seq<string>, at0: seq<Position>, ghost slots: nat, i: nat, fpw: int, totalFrames: int,
                  frames0: seq<FrameFile<ReelFrame>>, frameCount0: nat)
    returns (at: seq<Position>, frames: seq<FrameFile<ReelFrame>>, frameCount: nat)
    requires i < |words| && |at0| == i && forall k :: 0 <= k < i ==> InWordBox(at0[k])
    requires slots == Max0(fpw) && |words| * slots <= Max0(totalFrames) && (totalFrames <= 0 ==> fpw <= 0)
    requires frameCount0 == i * slots && frames0 == WordLoopFrames(words, at0, slots, frameCount0)
    ensures |at| == i + 1 && at[..i] == at0 && forall k :: 0 <= k <= i ==> InWordBox(at[k])
    ensures frameCount == (i + 1) * slots
    ensures frames == WordLoopFrames(words, at, slots, frameCount)
  {
    var dx :| -200 <= dx <= 200;
    var dy :| -100 <= dy <= 100;
    var p := Position(ReelWidth / 2 + dx, ReelHeight / 2 + dy);
    WordLoopFramesNewPosition(words, at0, p, slots, frameCount0);
    WordRoom(i, |words|, slots, Max0(totalFrames));
    at := at0 + [p];
    var wordFrames := Min(fpw, totalFrames - frameCount0);
    var count: int;
    frames, count := DrawWordFrames(words, at, slots, i, wordFrames, totalFrames, frames0, frameCount0);
    NextWordStart(i, slots);
    frameCount := count;
  }

  /** `frames` is the reel of `totalFrames` frames for `words` drawn at
      positions `at`: frame `k` is numbered `k` and holds
      `ReelFrameAt(words, at, totalFrames, k)` (for a copy of frame -1, no
      file). */
  predicate IsReel(words: seq<string>, at: seq<Position>, totalFrames: int, frames: seq<FrameFile<ReelFrame>>) {
    && |frames| == Max0(totalFrames)
    && forall k :: 0 <= k < |frames| ==>
         frames[k].number == k && 0 < totalFrames && |at| == |words| &&
         frames[k].content == ReelFrameAt(words, at, totalFrames, k)
  }

  /** The frame loop and the padding loop of `generate_video_reel`: the
      frames saved into the frame directory, in order, together with the
      random word positions drawn. */
  method RenderReelFrames(text: string, totalFrames: int)
    returns (frames: seq<FrameFile<ReelFrame>>, at: seq<Position>)
    ensures forall k :: 0 <= k < |at| ==> InWordBox(at[k])
    ensures IsReel(SplitWords(text), at, totalFrames, frames)
  {
    var words := SplitWords(text);
    var n := |words|;
    var fpw := FramesPerWord(totalFrames, n);
    ghost var slots := Max0(fpw);
    SlotsFit(totalFrames, n);
    var frameCount: nat := 0;
    frames, at := [], [];
    var i := 0;
    while i < n
      invariant 0 <= i <= n && |at| == i
      invariant forall k :: 0 <= k < |at| ==> InWordBox(at[k])
      invariant frameCount == i * slots
      invariant frames == WordLoopFrames(words, at, slots, frameCount)
      invariant totalFrames <= 0 ==> i == 0
    {
      at, frames, frameCount := DrawWord(words, at, slots, i, fpw, totalFrames, frames, frameCount);
      i := i + 1;
      if frameCount >= totalFrames {
        LastWord(i - 1, n, slots, totalFrames);
        break;
      }
    }
    // `frame_{frame_count-1:04d}.jpg`: with no drawn frame this names frame -1.
    frames := PadFrames(frames, totalFrames);
    ReelFramesComplete(words, at, totalFrames, frames);
  }

  /** The word frames followed by the padding copies are the reel. */
  lemma ReelWordFrame(words: seq<string>, at: seq<Position>, totalFrames: int, k: nat)
    requires 0 < totalFrames && |at| == |words| && k < DrawnFrames(totalFrames, |words|)
    ensures ReelFrameAt(words, at, totalFrames, k) == WordFrameAt(words, at, FramesPerWord(totalFrames, |words|), k)
  {
  }

  lemma ReelPaddingFrame(words: seq<string>, at: seq<Position>, totalFrames: int, k: nat)
    requires 0 < totalFrames && |at| == |words| && DrawnFrames(totalFrames, |words|) <= k
    ensures ReelFrameAt(words, at, totalFrames, k) == CopyOf(DrawnFrames(totalFrames, |words|) - 1)
  {
  }

  lemma ReelFramesComplete(words: seq<string>, at: seq<Position>, totalFrames: int, frames: seq<FrameFile<ReelFrame>>)
    requires 0 < totalFrames ==> |at| == |words|
    requires |frames| == Max0(totalFrames)
    requires 0 < totalFrames ==>
      var drawn := DrawnFrames(totalFrames, |words|);
      && frames[..drawn] == WordLoopFrames(words, at, FramesPerWord(totalFrames, |words|), drawn)
      && forall k :: drawn <= k < |frames| ==> frames[k] == FrameFile(k, CopyOf(drawn - 1))
    ensures IsReel(words, at, totalFrames, frames)
  {
    if 0 < totalFrames {
      var drawn := DrawnFrames(totalFrames, |words|);
      var fpw := FramesPerWord(totalFrames, |words|);
      forall k | 0 <= k < |frames|
        ensures frames[k] == FrameFile(k, ReelFrameAt(words, at, totalFrames, k))
      {
        if k < drawn {
          assert frames[k] == frames[..drawn][k];
          WordLoopFramesAt(words, at, fpw, drawn, k);
          ReelWordFrame(words, at, totalFrames, k);
        } else {
          ReelPaddingFrame(words, at, totalFrames, k);
        }
      }
    }
  }

  /** Every word of the text gets exactly `frames_per_word` consecutive frames,
      and the words appear in text order. */
  lemma WordsInOrder(words: seq<string>, at: seq<Position>, totalFrames: int, i: nat, f: nat)
    requires 0 < totalFrames && |at| == |words| && i < |words|
    requires f < FramesPerWord(totalFrames, |words|)
    ensures var fpw := FramesPerWord(totalFrames, |words|);
      var fr := ReelFrameAt(words, at, totalFrames, i * fpw + f);
      fr.Drawn? && fr.wordIndex == i && fr.word == words[i] &&
      fr.opacity == Opacity(f, fpw) && fr.caption == Caption(words, i)
  {
    var fpw := FramesPerWord(totalFrames, |words|);
    var k := i * fpw + f;
    SlotOf(i, f, fpw);
    MulMonotone(i + 1, |words|, fpw);
    assert k < (i + 1) * fpw <= |words| * fpw;
    ReelWordFrame(words, at, totalFrames, k);
    assert WordFrameAt(words, at, fpw, k) == Drawn(i, words[i], at[i], Opacity(f, fpw), Caption(words, i));
  }

  /** The first frame of every word is fully transparent. */
  lemma WordStartsInvisible(words: seq<string>, at: seq<Position>, totalFrames: int, i: nat)
    requires 0 < totalFrames && |at| == |words| && i < |words|
    requires 0 < FramesPerWord(totalFrames, |words|)
    ensures var fr := ReelFrameAt(words, at, totalFrames, i * FramesPerWord(totalFrames, |words|));
      fr.Drawn? && fr.opacity == 0
  {
    WordsInOrder(words, at, totalFrames, i, 0);
  }

  /** Every frame before the padding shows word `k / frames_per_word`. */
  lemma ReelFrameDrawn(words: seq<string>, at: seq<Position>, totalFrames: int, k: nat)
    requires 0 < totalFrames && |at| == |words|
    requires k < DrawnFrames(totalFrames, |words|)
    ensures var fpw := FramesPerWord(totalFrames, |words|);
      var fr := ReelFrameAt(words, at, totalFrames, k);
      0 < fpw && fr.Drawn? && fr.wordIndex == k / fpw
  {
    var n, fpw := |words|, FramesPerWord(totalFrames, |words|);
    PositiveFactors(n, fpw);
    SlotBelow(k, n, fpw);
  }

  /** Word indexes never decrease along the reel. */
  lemma WordIndexMonotone(words: seq<string>, at: seq<Position>, totalFrames: int, k1: nat, k2: nat)
    requires 0 < totalFrames && |at| == |words| && k1 <= k2
    requires k2 < DrawnFrames(totalFrames, |words|)
    ensures var fr1, fr2 := ReelFrameAt(words, at, totalFrames, k1), ReelFrameAt(words, at, totalFrames, k2);
      fr1.Drawn? && fr2.Drawn? && fr1.wordIndex <= fr2.wordIndex
  {
    ReelFrameDrawn(words, at, totalFrames, k1);
    ReelFrameDrawn(words, at, totalFrames, k2);
    DivMonotone(k1, k2, FramesPerWord(totalFrames, |words|));
  }

  /** With no words, or more words than frames, nothing is drawn and every
      padding frame copies frame -1. */
  lemma PaddingFromMissingFrame(words: seq<string>, at: seq<Position>, totalFrames: int, k: nat)
    requires 0 < totalFrames && |at| == |words|
    requires words == [] || totalFrames < |words|
    ensures DrawnFrames(totalFrames, |words|) == 0
    ensures ReelFrameAt(words, at, totalFrames, k) == CopyOf(-1)
  {
    if words != [] {
      DivModUnique(totalFrames, |words|, 0, totalFrames);
    }
  }

  /** Frame -1 is saved as `frame_-001.jpg`, a name no frame the loop writes has. */
  lemma FrameMinusOneNeverWritten()
    ensures FrameFileName(-1) == "frame_-001.jpg"
    ensures forall j: int :: j >= 0 ==> FrameFileName(j) != FrameFileName(-1)
  {
    assert Format04(-1) == "-001";
    forall j: int | j >= 0 ensures FrameFileName(j) != FrameFileName(-1) {
      FrameFileNameInjective(j, -1);
    }
  }

  /** With at least one word and at least as many frames as words, the padding
      copies the last drawn frame, which exists. */
  lemma PaddingFromLastWordFrame(words: seq<string>, at: seq<Position>, totalFrames: int, k: nat)
    requires 0 < |words| <= totalFrames && |at| == |words|
    requires DrawnFrames(totalFrames, |words|) <= k
    ensures 0 < DrawnFrames(totalFrames, |words|)
    ensures ReelFrameAt(words, at, totalFrames, k) == CopyOf(DrawnFrames(totalFrames, |words|) - 1)
  {
    var n := |words|;
    DivModUnique(n, n, 1, 0);
    DivMonotone(n, totalFrames, n);
    MulMonotone(1, FramesPerWord(totalFrames, n), n);
  }

  // ----- generate_video_reel / generate_avatar_video: paths and encoder -----

  /** The ffmpeg invocation: frame rate, frame pattern, optional audio track
      (then cut to the shorter stream), output file. */
  datatype EncoderCall = EncoderCall(fps: int, framePattern: string, audio: Option<string>, output: string)

  function ReelOutputPath(folder: string, contentId: nat): string {
    PathJoin(folder, "video_" + DecimalDigits(contentId) + ".mp4")
  }

  function AvatarOutputPath(folder: string, contentId: nat): string {
    PathJoin(folder, "avatar_" + DecimalDigits(contentId) + ".mp4")
  }

  /** `generate_video_reel`: renders the frames into `frames_<id>`, encodes them
      with the audio track when one is given, and returns the video path. */
  method GenerateVideoReel(text: string, folder: string, contentId: nat, duration: int, fps: int, audio: Option<string>)
    returns (output: string, frames: seq<FrameFile<ReelFrame>>, at: seq<Position>, encoder: EncoderCall)
    ensures output == ReelOutputPath(folder, contentId) == encoder.output
    ensures |frames| == Max0(duration * fps)
    ensures forall k :: 0 <= k < |at| ==> InWordBox(at[k])
    ensures IsReel(SplitWords(text), at, duration * fps, frames)
    ensures encoder.fps == fps && encoder.audio == audio
    ensures encoder.framePattern == PathJoin(PathJoin(folder, "frames_" + DecimalDigits(contentId)), "frame_%04d.jpg")
  {
    var framesDir := PathJoin(folder, "frames_" + DecimalDigits(contentId));
    output := ReelOutputPath(folder, contentId);
    frames, at := RenderReelFrames(text, duration * fps);
    encoder := EncoderCall(fps, PathJoin(framesDir, "frame_%04d.jpg"), audio, output);
  }

  // ----- generate_avatar_video -----

  /** Eyes are drawn shut on frame `i` when `i % 100 > 95`. */
  predicate EyesClosed(i: nat) {
    i % 100 > 95
  }

  function ClosedEyeFrames(lo: nat, hi: nat): set<nat> {
    set i: nat | lo <= i < hi && EyesClosed(i)
  }

  /** In every block of 100 frames the eyes are shut on the last four:
      four frames in a hundred, not five. */
  lemma FourBlinksPerHundred(q: nat)
    ensures ClosedEyeFrames(100 * q, 100 * q + 100) == {100 * q + 96, 100 * q + 97, 100 * q + 98, 100 * q + 99}
    ensures |ClosedEyeFrames(100 * q, 100 * q + 100)| == 4
  {
    var b := 100 * q;
    forall i: nat | b <= i < b + 100
      ensures EyesClosed(i) <==> b + 96 <= i
    {
      assert i % 100 == i - b;
    }
    assert ClosedEyeFrames(b, b + 100) == {b + 96, b + 97, b + 98, b + 99};
  }

  /** `max(3, word_count / 3)`: three words a second, at least three seconds. */
  function EstimatedDuration(text: string): (d: real)
    ensures d >= 3.0
  {
    var w := |SplitWords(text)| as real / 3.0;
    if w > 3.0 then w else 3.0
  }

  /** `int(duration * 30)`, the duration coming from the audio file when one is
      given and from the word count otherwise. */
  function AvatarFrameTotal(text: string, audioDuration: Option<real>): int {
    var duration := if audioDuration.Some? then audioDuration.value else EstimatedDuration(text);
    Trunc(duration * AvatarFps as real)
  }

  /** Without audio an avatar video has at least 90 frames (three seconds). */
  lemma AvatarWithoutAudioAtLeast90(text: string)
    ensures AvatarFrameTotal(text, None) >= 90
  {
    var d := EstimatedDuration(text);
    assert d * 30.0 >= 90.0;
  }

  /** `len(text) * t * 1.2` with `t = i / total_frames`: how many characters
      of the caption frame `i` would show, before clamping. */
  function CaptionProgress(textLength: nat, i: nat, total: nat): real
    requires i < total
  {
    textLength as real * (i as real / total as real) * 1.2
  }

  /** `min(len(text), int(len(text) * t * 1.2))`. */
  function CaptionLength(textLength: nat, i: nat, total: nat): (n: nat)
    requires i < total
    ensures n <= textLength
  {
    Max0(Min(textLength, Trunc(CaptionProgress(textLength, i, total))))
  }

  /** The first frame shows no caption, and the caption never shrinks. */
  lemma CaptionGrows(textLength: nat, i: nat, j: nat, total: nat)
    requires i <= j < total
    ensures CaptionLength(textLength, 0, total) == 0
    ensures CaptionLength(textLength, i, total) <= CaptionLength(textLength, j, total)
  {
    ProgressGrows(textLength, i, j, total);
    TruncMonotone(CaptionProgress(textLength, i, total), CaptionProgress(textLength, j, total));
  }

  lemma ProgressGrows(textLength: nat, i: nat, j: nat, total: nat)
    requires i <= j < total
    ensures CaptionProgress(textLength, 0, total) == 0.0
    ensures 0.0 <= CaptionProgress(textLength, i, total) <= CaptionProgress(textLength, j, total)
  {
    var len := textLength as real;
    var a, b := i as real / total as real, j as real / total as real;
    RealDivMonotone(0.0, i as real, total as real);
    RealDivMonotone(i as real, j as real, total as real);
    RealMulMonotone(0.0, a, len);
    RealMulMonotone(a, b, len);
  }

  function Concat(lines: seq<string>): string {
    if lines == [] then "" else Concat(lines[..|lines| - 1]) + lines[|lines| - 1]
  }

  /** The `for j in range(0, len(current_text), 50)` loop: cuts the caption
      into consecutive 50-character slices. */
  method WrapCaption(s: string) returns (lines: seq<string>)
    ensures Concat(lines) == s
    ensures |lines| == (|s| + CaptionLineLength - 1) / CaptionLineLength
    ensures forall k :: 0 <= k < |lines| ==> 0 < |lines[k]| <= CaptionLineLength
    ensures forall k :: 0 <= k < |lines| - 1 ==> |lines[k]| == CaptionLineLength
  {
    lines := [];
    var j := 0;
    while j < |s|
      invariant j == CaptionLineLength * |lines|
      invariant j <= |s| ==> Concat(lines) == s[..j]
      invariant |s| < j ==> Concat(lines) == s && j - CaptionLineLength < |s|
      invariant forall k :: 0 <= k < |lines| ==> 0 < |lines[k]| <= CaptionLineLength
      invariant forall k :: 0 <= k < |lines| - 1 ==> |lines[k]| == CaptionLineLength
      invariant j <= |s| ==> forall k :: 0 <= k < |lines| ==> |lines[k]| == CaptionLineLength
    {
      var line := s[j..Min(j + CaptionLineLength, |s|)];
      assert Concat(lines + [line]) == Concat(lines) + line;
      assert s[..j] + line == s[..Min(j + CaptionLineLength, |s|)];
      lines := lines + [line];
      j := j + CaptionLineLength;
    }
    assert s[..|s|] == s;
  }

  /** A caption line and where it is drawn. */
  datatype CaptionLine = CaptionLine(text: string, x: int, y: int)

  /** Line `idx` is drawn at `(50, height - 100 + idx * 30)`. */
  function PlaceLines(lines: seq<string>): (placed: seq<CaptionLine>)
    ensures |placed| == |lines|
    ensures forall k :: 0 <= k < |lines| ==>
      placed[k].text == lines[k] && placed[k].x == 50 && placed[k].y == AvatarHeight - 100 + 30 * k
  {
    seq(|lines|, k requires 0 <= k < |lines| => CaptionLine(lines[k], 50, AvatarHeight - 100 + 30 * k))
  }

  function LineTexts(placed: seq<CaptionLine>): (lines: seq<string>)
    ensures |lines| == |placed|
    ensures forall k :: 0 <= k < |placed| ==> lines[k] == placed[k].text
  {
    seq(|placed|, k requires 0 <= k < |placed| => placed[k].text)
  }

  /** What is drawn on an avatar frame besides the head and the mouth. */
  datatype AvatarFrame = AvatarFrame(eyesClosed: bool, caption: seq<CaptionLine>)

  /** Frame `i` of `total`: eyes closed on the blink frames, and the growing
      caption prefix wrapped into lines stacked 30 pixels apart. */
  predicate AvatarFrameShows(text: string, i: nat, total: nat, frame: AvatarFrame)
    requires i < total
  {
    && frame.eyesClosed == EyesClosed(i)
    && Concat(LineTexts(frame.caption)) == text[..CaptionLength(|text|, i, total)]
    && (forall k :: 0 <= k < |frame.caption| ==>
         && frame.caption[k].x == 50 && frame.caption[k].y == AvatarHeight - 100 + 30 * k
         && 0 < |frame.caption[k].text| <= CaptionLineLength)
    && forall k :: 0 <= k < |frame.caption| - 1 ==> |frame.caption[k].text| == CaptionLineLength
  }

  /** The body of the frame loop: blink test, caption prefix and its lines. */
  method DrawAvatarFrame(text: string, i: nat, totalFrames: nat) returns (frame: AvatarFrame)
    requires i < totalFrames
    ensures AvatarFrameShows(text, i, totalFrames, frame)
  {
    var closed := i % 100 > 95;
    var current := text[..CaptionLength(|text|, i, totalFrames)];
    var lines := WrapCaption(current);
    var placed := PlaceLines(lines);
    assert LineTexts(placed) == lines;
    frame := AvatarFrame(closed, placed);
  }

  /** The frame loop of `generate_avatar_video`. */
  method RenderAvatarFrames(text: string, audioDuration: Option<real>) returns (frames: seq<FrameFile<AvatarFrame>>)
    ensures |frames| == Max0(AvatarFrameTotal(text, audioDuration))
    ensures forall i :: 0 <= i < |frames| ==>
      frames[i].number == i && AvatarFrameShows(text, i, |frames|, frames[i].content)
  {
    var totalFrames := AvatarFrameTotal(text, audioDuration);
    frames := [];
    var i := 0;
    while i < totalFrames
      invariant 0 <= i == |frames| <= Max0(totalFrames)
      invariant forall k :: 0 <= k < i ==>
        frames[k].number == k && AvatarFrameShows(text, k, Max0(totalFrames), frames[k].content)
    {
      var frame := DrawAvatarFrame(text, i, totalFrames);
      frames := frames + [FrameFile(i, frame)];
      i := i + 1;
    }
  }

  /** `generate_avatar_video`: renders the frames into `avatar_frames_<id>`,
      encodes them at 30 fps with the audio track when one is given, and
      returns the video path. */
  method GenerateAvatarVideo(text: string, folder: string, contentId: nat, audio: Option<string>, audioDuration: Option<real>)
    returns (output: string, frames: seq<FrameFile<AvatarFrame>>, encoder: EncoderCall)
    requires audio.Some? <==> audioDuration.Some?
    ensures output == AvatarOutputPath(folder, contentId) == encoder.output
    ensures |frames| == Max0(AvatarFrameTotal(text, audioDuration))
    ensures audio.None? ==> |frames| >= 90
    ensures forall i :: 0 <= i < |frames| ==>
      frames[i].number == i && AvatarFrameShows(text, i, |frames|, frames[i].content)
    ensures encoder.fps == AvatarFps && encoder.audio == audio
    ensures encoder.framePattern == PathJoin(PathJoin(folder, "avatar_frames_" + DecimalDigits(contentId)), "frame_%04d.jpg")
  {
    var framesDir := PathJoin(folder, "avatar_frames_" + DecimalDigits(contentId));
    output := AvatarOutputPath(folder, contentId);
    frames := RenderAvatarFrames(text, audioDuration);
    if audio.None? {
      AvatarWithoutAudioAtLeast90(text);
    }
    encoder := EncoderCall(AvatarFps, PathJoin(framesDir, "frame_%04d.jpg"), audio, output);
  }
}
