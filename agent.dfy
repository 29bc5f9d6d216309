/**
 * The content agent of utils/agent.py: remixing a content record into
 * another format, suggesting a content calendar from the words of a user's
 * recent texts, and looking up per-platform advice.
 *
 * The database is outside the model: the id the session assigns to a new
 * record and the input texts of the user's recent records (newest first,
 * at most ten, as the query returns them) are parameters. The generators
 * the agent calls are modelled by the jobs it starts and the paths they
 * return.
 */
module Agent {
  import opened Builtins
  import Image
  import Video
  import Audio
  import Prompts

  // ----- remix_content -----

  /** The columns of a content record that the agent reads or writes. */
  class Content {
    var id: nat
    var title: string
    var contentType: string
    var inputText: Option<string>
    var outputPath: Option<string>
    var userId: nat

    constructor(id: nat, title: string, contentType: string, inputText: Option<string>, userId: nat)
      ensures this.id == id && this.title == title && this.contentType == contentType
      ensures this.inputText == inputText && this.userId == userId && outputPath == None
    {
      this.id := id;
      this.title := title;
      this.contentType := contentType;
      this.inputText := inputText;
      this.userId := userId;
      outputPath := None;
    }
  }

  /** A generator the agent starts, with the arguments it passes. */
  datatype Job =
    | PhotoQuoteJob(text: Option<string>, contentId: nat)
    | VideoReelJob(text: Option<string>, contentId: nat)
    | SpeechJob(text: Option<string>, contentId: nat)
    | AvatarJob(text: Option<string>, contentId: nat, audioPath: Option<string>)

  /** The output path a known format's generator returns. */
  function FormatOutput(folder: string, target: string, contentId: nat): (p: Option<string>)
    ensures p.Some? <==> target in {"photo_quote", "video_reel", "avatar_video"}
  {
    if target == "photo_quote" then Some(Image.QuotePath(folder, contentId))
    else if target == "video_reel" then Some(Video.ReelOutputPath(folder, contentId))
    else if target == "avatar_video" then Some(Video.AvatarOutputPath(folder, contentId))
    else None
  }

  /** `remix_content(item, target)`: a new record titled "Remix of ..." with
      the item's text and owner and the target type; the generator of the
      target format fills in its output path. `newId` is the id the database
      gives the new record; `folder` is the upload folder. */
  method Remix(item: Content, target: string, newId: nat, folder: string) returns (r: Content, jobs: seq<Job>)
    ensures fresh(r) && unchanged(item)
    ensures r.id == newId && r.title == "Remix of " + item.title && r.contentType == target
    ensures r.inputText == item.inputText && r.userId == item.userId
    ensures r.outputPath == FormatOutput(folder, target, newId)
    ensures target == "photo_quote" ==> jobs == [PhotoQuoteJob(item.inputText, newId)]
    ensures target == "video_reel" ==> jobs == [VideoReelJob(item.inputText, newId)]
    ensures target == "avatar_video" ==>
      jobs == [SpeechJob(item.inputText, newId), AvatarJob(item.inputText, newId, Some(Audio.SpeechPath(folder, newId)))]
    ensures target !in {"photo_quote", "video_reel", "avatar_video"} ==> jobs == []
  {
    r := new Content(newId, "Remix of " + item.title, target, item.inputText, item.userId);
    jobs := [];
    if target == "photo_quote" {
      jobs := [PhotoQuoteJob(item.inputText, newId)];
      r.outputPath := Some(Image.QuotePath(folder, newId));
    } else if target == "video_reel" {
      jobs := [VideoReelJob(item.inputText, newId)];
      r.outputPath := Some(Video.ReelOutputPath(folder, newId));
    } else if target == "avatar_video" {
      var audioPath := Audio.SpeechPath(folder, newId);
      jobs := [SpeechJob(item.inputText, newId), AvatarJob(item.inputText, newId, Some(audioPath))];
      r.outputPath := Some(Video.AvatarOutputPath(folder, newId));
    }
  }

  /** Each known format's output is a distinct kind of file. */
  lemma FormatOutputsDiffer(folder: string, contentId: nat)
    ensures var q, v, a := FormatOutput(folder, "photo_quote", contentId), FormatOutput(folder, "video_reel", contentId),
      FormatOutput(folder, "avatar_video", contentId);
      EndsWith(q.value, ".jpg") && EndsWith(v.value, ".mp4") && EndsWith(a.value, ".mp4")
  {
  }

  // ----- generate_content_calendar -----

  /** The words `content.input_text.split()` adds: none when the text is
      missing or empty. */
  function TextWords(text: Option<string>): (words: seq<string>)
    ensures AllWords(words)
  {
    if text.Some? && text.value != [] then SplitWords(text.value) else []
  }

  /** The words of the recent texts, in query order. */
  function ThemeWords(texts: seq<Option<string>>): (themes: seq<string>)
    ensures AllWords(themes)
  {
    if texts == [] then [] else ThemeWords(texts[..|texts| - 1]) + TextWords(texts[|texts| - 1])
  }

  /** The `for content in recent_content` loop: extends the theme list with
      the words of every text that is set and not empty. */
  method ExtractThemes(texts: seq<Option<string>>) returns (themes: seq<string>)
    ensures themes == ThemeWords(texts)
  {
    themes := [];
    var i := 0;
    while i < |texts|
      invariant 0 <= i <= |texts| && themes == ThemeWords(texts[..i])
    {
      assert texts[..i + 1][..i] == texts[..i];
      if texts[i].Some? && texts[i].value != [] {
        themes := themes + SplitWords(texts[i].value);
      }
      i := i + 1;
    }
    assert texts[..i] == texts;
  }

  /** A text that is missing or holds no word. */
  predicate Wordless(text: Option<string>) {
    text.Some? ==> SplitWords(text.value) == []
  }

  lemma TextWordsEmpty(text: Option<string>)
    ensures TextWords(text) == [] <==> Wordless(text)
  {
    if text.Some? && text.value == [] {
      assert SkipSpaces(text.value) == [];
    }
  }

  /** There are no themes exactly when no text holds a word. */
  lemma {:induction false} NoThemes(texts: seq<Option<string>>)
    ensures ThemeWords(texts) == [] <==> forall i :: 0 <= i < |texts| ==> Wordless(texts[i])
  {
    if texts != [] {
      var init, last := texts[..|texts| - 1], texts[|texts| - 1];
      assert texts == init + [last];
      assert ThemeWords(texts) == ThemeWords(init) + TextWords(last);
      NoThemes(init);
      TextWordsEmpty(last);
    }
  }

  // The ranking of `Counter(themes).most_common(5)`.

  function Count(s: seq<string>, w: string): nat {
    multiset(s)[w]
  }

  /** Index of the first occurrence of `w` in `s`. */
  function FirstIndex(s: seq<string>, w: string): (k: nat)
    requires w in s
    ensures k < |s| && s[k] == w && w !in s[..k]
  {
    if s[0] == w then 0
    else
      var k := FirstIndex(s[1..], w) + 1;
      assert s[..k] == [s[0]] + s[1..][..k - 1];
      k
  }

  /** `u` is ranked before `v`: it is more frequent, or as frequent and seen
      first. */
  predicate Before(s: seq<string>, u: string, v: string)
    requires u in s && v in s
  {
    Count(s, u) > Count(s, v) || (Count(s, u) == Count(s, v) && FirstIndex(s, u) < FirstIndex(s, v))
  }

  /** Two different words of `s` are always ranked one way or the other, and
      the ranking is transitive. */
  lemma BeforeTotal(s: seq<string>, u: string, v: string)
    requires u in s && v in s && u != v
    ensures Before(s, u, v) != Before(s, v, u)
  {
  }

  lemma BeforeTransitive(s: seq<string>, u: string, v: string, w: string)
    requires u in s && v in s && w in s && Before(s, u, v) && Before(s, v, w)
    ensures Before(s, u, w)
  {
  }

  /** The keys of `Counter(s)`: the words of `s`, each once, in the order
      they first appear. */
  function FirstSeen(s: seq<string>): (keys: seq<string>)
    ensures Prompts.Distinct(keys)
    ensures forall w :: w in keys <==> w in s
    ensures forall i, j :: 0 <= i < j < |keys| ==> FirstIndex(s, keys[i]) < FirstIndex(s, keys[j])
  {
    if s == [] then []
    else
      var init, w := s[..|s| - 1], s[|s| - 1];
      var keys := FirstSeen(init);
      assert s == init + [w];
      FirstIndexExtend(init, w);
      if w in keys then keys else keys + [w]
  }

  /** The first occurrence is the only index holding `w` with no `w` before it. */
  lemma FirstIndexUnique(s: seq<string>, w: string, k: nat)
    requires k < |s| && s[k] == w && w !in s[..k]
    ensures FirstIndex(s, w) == k
  {
  }

  /** Appending a word keeps every earlier first occurrence, and a new word is
      first seen at the end. */
  lemma FirstIndexExtend(t: seq<string>, w: string)
    ensures forall x :: x in t ==> FirstIndex(t + [w], x) == FirstIndex(t, x)
    ensures w !in t ==> FirstIndex(t + [w], w) == |t|
  {
    forall x | x in t
      ensures FirstIndex(t + [w], x) == FirstIndex(t, x)
    {
      var k := FirstIndex(t, x);
      assert (t + [w])[..k] == t[..k];
      FirstIndexUnique(t + [w], x, k);
    }
    if w !in t {
      assert (t + [w])[..|t|] == t;
      FirstIndexUnique(t + [w], w, |t|);
    }
  }

  /** `l` is ranked: each word before every later one. */
  predicate Ranked(s: seq<string>, l: seq<string>)
    requires forall w :: w in l ==> w in s
  {
    forall i, j :: 0 <= i < j < |l| ==> Before(s, l[i], l[j])
  }

  /** Puts `w` into the ranked list `l` after the words ranked before it. */
  function Insert(s: seq<string>, w: string, l: seq<string>): (r: seq<string>)
    requires w in s && forall x :: x in l ==> x in s
    ensures multiset(r) == multiset(l) + multiset{w}
    ensures forall x :: x in r ==> x in s
  {
    if l == [] then [w]
    else if Before(s, l[0], w) then
      var tail := Insert(s, w, l[1..]);
      assert l == [l[0]] + l[1..];
      [l[0]] + tail
    else [w] + l
  }

  lemma {:induction false} InsertRanked(s: seq<string>, w: string, l: seq<string>)
    requires w in s && forall x :: x in l ==> x in s
    requires w !in l && Ranked(s, l)
    ensures Ranked(s, Insert(s, w, l))
  {
    var r := Insert(s, w, l);
    if l != [] {
      if Before(s, l[0], w) {
        assert l == [l[0]] + l[1..];
        InsertRanked(s, w, l[1..]);
        forall j | 0 < j < |r|
          ensures Before(s, r[0], r[j])
        {
          assert r[j] in multiset(Insert(s, w, l[1..]));
          if r[j] != w {
            assert r[j] in l[1..];
          }
        }
      } else {
        BeforeTotal(s, w, l[0]);
        forall j | 0 < j < |l|
          ensures Before(s, w, l[j])
        {
          BeforeTransitive(s, w, l[0], l[j]);
        }
      }
    }
  }

  /** Sorting the keys by rank (insertion sort). */
  function RankAll(s: seq<string>, keys: seq<string>): (r: seq<string>)
    requires forall x :: x in keys ==> x in s
    ensures multiset(r) == multiset(keys)
    ensures forall x :: x in r ==> x in s
  {
    if keys == [] then []
    else
      assert keys == keys[..|keys| - 1] + [keys[|keys| - 1]];
      Insert(s, keys[|keys| - 1], RankAll(s, keys[..|keys| - 1]))
  }

  lemma {:induction false} RankAllRanked(s: seq<string>, keys: seq<string>)
    requires (forall x :: x in keys ==> x in s) && Prompts.Distinct(keys)
    ensures Ranked(s, RankAll(s, keys))
  {
    if keys != [] {
      var init, w := keys[..|keys| - 1], keys[|keys| - 1];
      RankAllRanked(s, init);
      assert w !in init;
      assert w !in multiset(RankAll(s, init));
      InsertRanked(s, w, RankAll(s, init));
    }
  }

  /** `[word for word, count in Counter(s).most_common(n)]`. */
  function MostCommon(s: seq<string>, n: nat): seq<string> {
    var ranked := RankAll(s, FirstSeen(s));
    ranked[..Min(n, |ranked|)]
  }

  /** The `n` most common words: as many as there are distinct words, up to
      `n`, each a word of `s`, none twice, in rank order (descending count,
      ties in first-seen order), and each ranked before every word left
      out. */
  lemma MostCommonRanks(s: seq<string>, n: nat)
    ensures |MostCommon(s, n)| == Min(n, |FirstSeen(s)|)
    ensures TopWords(s, MostCommon(s, n))
  {
    var keys := FirstSeen(s);
    var ranked := RankAll(s, keys);
    assert |ranked| == |keys| by {
      assert |multiset(ranked)| == |multiset(keys)|;
    }
    RankAllRanked(s, keys);
    SameWords(ranked, keys);
    RankedDistinct(s, ranked);
    RankedPrefixFirst(s, ranked, Min(n, |ranked|));
    assert MostCommon(s, n) == ranked[..Min(n, |ranked|)];
  }

  /** Two lists with the same multiset hold the same words. */
  lemma SameWords(a: seq<string>, b: seq<string>)
    requires multiset(a) == multiset(b)
    ensures forall x :: x in a <==> x in b
  {
    forall x
      ensures x in a <==> x in b
    {
      assert x in a <==> x in multiset(a);
      assert x in b <==> x in multiset(b);
    }
  }

  /** A ranked list holds no word twice. */
  lemma RankedDistinct(s: seq<string>, ranked: seq<string>)
    requires (forall x :: x in ranked ==> x in s) && Ranked(s, ranked)
    ensures Prompts.Distinct(ranked)
  {
    forall i, j | 0 <= i < j < |ranked|
      ensures ranked[i] != ranked[j]
    {
      BeforeTotal(s, ranked[i], ranked[j]);
    }
  }

  /** `top` are words of `s`, none twice, in rank order, each ranked before
      every word of `s` left out. */
  predicate TopWords(s: seq<string>, top: seq<string>) {
    && (forall w :: w in top ==> w in s)
    && Prompts.Distinct(top)
    && Ranked(s, top)
    && forall w, k :: w in s && w !in top && 0 <= k < |top| ==> Before(s, top[k], w)
  }

  /** A prefix of a ranked list of all the words of `s` is itself ranked,
      holds no word twice, and is ranked before every word it leaves out. */
  lemma RankedPrefixFirst(s: seq<string>, ranked: seq<string>, m: nat)
    requires (forall x :: x in ranked <==> x in s) && Ranked(s, ranked) && Prompts.Distinct(ranked)
    requires m <= |ranked|
    ensures TopWords(s, ranked[..m])
  {
    var top := ranked[..m];
    forall w, k | w in s && w !in top && 0 <= k < |top|
      ensures Before(s, top[k], w)
    {
      var j :| 0 <= j < |ranked| && ranked[j] == w;
    }
  }

  /** The theme text joined from the common words names a theme of a
      prompt table whose keys are single words only when it is that single
      word; the keys of `PromptsByTheme` are such words. */
  lemma ThemeKeyOnlyAlone(themes: seq<(string, seq<string>)>, common: seq<string>)
    requires AllWords(common) && forall t :: 0 <= t < |themes| ==> IsWord(themes[t].0)
    ensures Prompts.ThemePrompts(themes, JoinSpace(common)).Some? ==>
      |common| == 1 && Prompts.ThemePrompts(themes, common[0]).Some?
  {
    var key := JoinSpace(common);
    if Prompts.ThemePrompts(themes, key).Some? {
      var t :| 0 <= t < |themes| && themes[t].0 == key;
      JoinEqualsWord(common, key);
    }
  }

  lemma ThemeKeysAreWords()
    ensures forall t :: 0 <= t < |Prompts.PromptsByTheme| ==> IsWord(Prompts.PromptsByTheme[t].0)
  {
  }

  const ContentTypes := ["photo_quote", "video_reel", "avatar_video"]

  /** One calendar entry; `date` counts days from an epoch (the ISO text of
      the date is not modelled). */
  datatype Entry = Entry(date: int, suggestion: string, contentType: string)

  /** The `for i, prompt in enumerate(prompts)` loop. */
  method BuildCalendar(prompts: seq<string>, today: int) returns (calendar: seq<Entry>)
    ensures |calendar| == |prompts|
    ensures forall i :: 0 <= i < |calendar| ==>
      calendar[i] == Entry(today + i, prompts[i], ContentTypes[i % 3])
  {
    calendar := [];
    var i := 0;
    while i < |prompts|
      invariant 0 <= i <= |prompts| && |calendar| == i
      invariant forall k :: 0 <= k < i ==> calendar[k] == Entry(today + k, prompts[k], ContentTypes[k % 3])
    {
      var date := today + i;
      calendar := calendar + [Entry(date, prompts[i], ContentTypes[i % |ContentTypes|])];
      i := i + 1;
    }
  }

  /** Consecutive days cycle through the three formats. */
  lemma FormatsCycle(calendar: seq<Entry>, prompts: seq<string>, today: int, i: nat)
    requires |calendar| == |prompts|
    requires forall k :: 0 <= k < |calendar| ==> calendar[k] == Entry(today + k, prompts[k], ContentTypes[k % 3])
    requires i + 2 < |calendar|
    ensures {calendar[i].contentType, calendar[i + 1].contentType, calendar[i + 2].contentType} == set t | t in ContentTypes
    ensures i + 3 < |calendar| ==> calendar[i + 3].contentType == calendar[i].contentType
  {
    DivModUnique(i + 3, 3, i / 3 + 1, i % 3);
    if i % 3 == 0 {
      DivModUnique(i + 1, 3, i / 3, 1);
      DivModUnique(i + 2, 3, i / 3, 2);
    } else if i % 3 == 1 {
      DivModUnique(i + 1, 3, i / 3, 2);
      DivModUnique(i + 2, 3, i / 3 + 1, 0);
    } else {
      DivModUnique(i + 1, 3, i / 3 + 1, 0);
      DivModUnique(i + 2, 3, i / 3 + 1, 1);
    }
  }

  /** `generate_content_calendar(user_id, days)`. `recentTexts` are the input
      texts of the user's recent records, `today` the current date. The
      prompts come from the theme text of the five most common words, or
      from "inspiration" when there are no words; a negative `days` makes
      the prompt sampling raise (`None`). */
  method GenerateContentCalendar(recentTexts: seq<Option<string>>, days: int, today: int)
    returns (calendar: Option<seq<Entry>>)
    ensures calendar.None? <==> days < 0
    ensures calendar.Some? ==> forall i :: 0 <= i < |calendar.value| ==>
      calendar.value[i].date == today + i && calendar.value[i].contentType == ContentTypes[i % 3]
    ensures calendar.Some? ==> Prompts.Distinct(Suggestions(calendar.value))
    ensures calendar.Some? && ThemeWords(recentTexts) == [] ==>
      forall i :: 0 <= i < |calendar.value| ==> calendar.value[i].suggestion in Prompts.Pool(Some("inspiration"))
    ensures calendar.Some? && ThemeWords(recentTexts) != [] ==>
      forall i :: 0 <= i < |calendar.value| ==>
        calendar.value[i].suggestion in Prompts.Pool(Some(JoinSpace(MostCommon(ThemeWords(recentTexts), 5))))
    ensures calendar.Some? && ThemeWords(recentTexts) == [] ==> |calendar.value| == Min(days, 4)
    ensures calendar.Some? && ThemeWords(recentTexts) != [] ==>
      |calendar.value| == Min(days, |Prompts.Pool(Some(JoinSpace(MostCommon(ThemeWords(recentTexts), 5))))|)
  {
    var themes := ExtractThemes(recentTexts);
    var prompts: Option<seq<string>>;
    if themes != [] {
      var common := MostCommon(themes, 5);
      prompts := Prompts.GenerateTextPrompt(Some(JoinSpace(common)), days);
    } else {
      assert Prompts.ThemePrompts(Prompts.PromptsByTheme, "inspiration").Some?;
      prompts := Prompts.GenerateTextPrompt(Some("inspiration"), days);
    }
    if prompts.None? {
      return None;
    }
    var entries := BuildCalendar(prompts.value, today);
    assert Suggestions(entries) == prompts.value;
    calendar := Some(entries);
  }

  function Suggestions(calendar: seq<Entry>): (s: seq<string>)
    ensures |s| == |calendar| && forall i :: 0 <= i < |s| ==> s[i] == calendar[i].suggestion
  {
    seq(|calendar|, i requires 0 <= i < |calendar| => calendar[i].suggestion)
  }

  // ----- optimize_content -----

  datatype Advice = Advice(aspectRatio: string, optimalLength: string, hashtags: string)

  /** The recommendations table, keyed by lower-case platform name. */
  const Recommendations: seq<(string, Advice)> := [
    ("instagram", Advice("1:1 for feed, 9:16 for stories", "30 seconds for reels", "#content #ai #digital")),
    ("twitter", Advice("16:9", "Under 2 minutes for videos", "#AIcontent #digital #creator")),
    ("tiktok", Advice("9:16", "15-60 seconds", "#fyp #aicontent #creator"))
  ]

  const DefaultAdvice := Advice("16:9", "1-2 minutes", "#content #digital #ai")

  function LookupAdvice(table: seq<(string, Advice)>, key: string): (a: Option<Advice>)
    ensures a.None? <==> forall k :: 0 <= k < |table| ==> table[k].0 != key
    ensures a.Some? ==> exists k :: 0 <= k < |table| && table[k] == (key, a.value)
  {
    if table == [] then None
    else if table[0].0 == key then Some(table[0].1)
    else
      var a := LookupAdvice(table[1..], key);
      assert forall k :: 1 <= k < |table| ==> table[k] == table[1..][k - 1];
      a
  }

  /** `optimize_content(item, platform)`: the advice for `platform.lower()`,
      the default advice for a platform not in the table. */
  function Optimize(platform: string): (a: Advice)
    ensures forall k :: 0 <= k < |Recommendations| && Recommendations[k].0 == Lower(platform) ==>
      a == Recommendations[k].1
    ensures (forall k :: 0 <= k < |Recommendations| ==> Recommendations[k].0 != Lower(platform)) ==>
      a == DefaultAdvice
  {
    match LookupAdvice(Recommendations, Lower(platform))
    case Some(advice) => advice
    case None => DefaultAdvice
  }

  /** Case does not matter: the advice for a name is that of its lower-case
      form. */
  lemma OptimizeIgnoresCase(platform: string)
    ensures Optimize(platform) == Optimize(Lower(platform))
  {
    LowerIdempotent(platform);
  }

  /** The default is none of the table's entries, so a caller can tell an
      unknown platform from a known one. */
  lemma DefaultIsNotTabled(platform: string)
    ensures Optimize(platform) == DefaultAdvice <==>
      forall k :: 0 <= k < |Recommendations| ==> Recommendations[k].0 != Lower(platform)
  {
    if Optimize(platform) == DefaultAdvice {
      forall k | 0 <= k < |Recommendations|
        ensures Recommendations[k].0 != Lower(platform)
      {
        assert Recommendations[k].1 != DefaultAdvice;
      }
    }
  }
}
