/**
 * The text helpers: picking quote prompts for a theme, and the canned
 * completion used when no text-generation model is available. The choice
 * `random.sample` makes is left open: any selection it may return is
 * allowed, and every property holds for all of them.
 */
module Prompts {
  import opened Builtins

  /** `prompts_by_theme`, keys in insertion order (a Python `dict` iterates
      its keys in that order). */
  const PromptsByTheme: seq<(string, seq<string>)> := [
    ("inspiration", [
      "The journey of a thousand miles begins with a single step.",
      "Believe you can and you're halfway there.",
      "You are never too old to set another goal or to dream a new dream.",
      "The only way to do great work is to love what you do."]),
    ("motivation", [
      "Success is not final, failure is not fatal: It is the courage to continue that counts.",
      "Don't watch the clock; do what it does. Keep going.",
      "The future belongs to those who believe in the beauty of their dreams.",
      "You are capable of more than you know."]),
    ("creativity", [
      "Creativity is intelligence having fun.",
      "The creative adult is the child who survived.",
      "You can't use up creativity. The more you use, the more you have.",
      "Creativity takes courage."])
  ]

  predicate Distinct<T(==)>(s: seq<T>) {
    forall i, j :: 0 <= i < j < |s| ==> s[i] != s[j]
  }

  /** `prompts_by_theme[theme]` when `theme` is a key: exact, case-sensitive
      comparison with each key. */
  function ThemePrompts(themes: seq<(string, seq<string>)>, theme: string): (r: Option<seq<string>>)
    ensures r.None? <==> forall t :: 0 <= t < |themes| ==> themes[t].0 != theme
    ensures r.Some? ==> exists t :: 0 <= t < |themes| && themes[t].0 == theme && themes[t].1 == r.value
  {
    if themes == [] then None
    else if themes[0].0 == theme then Some(themes[0].1)
    else
      var r := ThemePrompts(themes[1..], theme);
      assert forall t :: 1 <= t < |themes| ==> themes[t] == themes[1..][t - 1];
      r
  }

  /** The prompt lists of all themes, one after the other. */
  function Flatten(themes: seq<(string, seq<string>)>): seq<string> {
    if themes == [] then [] else Flatten(themes[..|themes| - 1]) + themes[|themes| - 1].1
  }

  /** The `for t in prompts_by_theme: all_prompts.extend(...)` loop. */
  method MixedPool() returns (all: seq<string>)
    ensures all == Flatten(PromptsByTheme)
  {
    all := [];
    var t := 0;
    while t < |PromptsByTheme|
      invariant 0 <= t <= |PromptsByTheme|
      invariant all == Flatten(PromptsByTheme[..t])
    {
      assert PromptsByTheme[..t + 1][..t] == PromptsByTheme[..t];
      all := all + PromptsByTheme[t].1;
      t := t + 1;
    }
    assert PromptsByTheme[..t] == PromptsByTheme;
  }

  /** The mixed pool holds the twelve prompts in theme order: theme `t`'s
      prompt `j` is entry `4 * t + j`. */
  lemma MixedPoolInThemeOrder(t: nat, j: nat)
    requires t < |PromptsByTheme| && j < |PromptsByTheme[t].1|
    ensures |Flatten(PromptsByTheme)| == 12
    ensures Flatten(PromptsByTheme)[4 * t + j] == PromptsByTheme[t].1[j]
  {
    var p := PromptsByTheme;
    assert Flatten(p[..1]) == p[0].1;
    assert p[..2][..1] == p[..1];
    assert Flatten(p[..2]) == p[0].1 + p[1].1;
    assert p[..3][..2] == p[..2];
    assert p[..3] == p;
  }

  /** The pool a theme draws from: its own list when it is a key, the mixed
      pool when it is missing (`None`), empty or unknown. */
  function Pool(theme: Option<string>): (pool: seq<string>)
    ensures theme.Some? && ThemePrompts(PromptsByTheme, theme.value).Some? ==>
      pool == ThemePrompts(PromptsByTheme, theme.value).value && |pool| == 4
    ensures theme.None? || ThemePrompts(PromptsByTheme, theme.value).None? ==> pool == Flatten(PromptsByTheme)
  {
    if theme.None? || theme.value == [] then Flatten(PromptsByTheme)
    else
      match ThemePrompts(PromptsByTheme, theme.value)
      case Some(prompts) => prompts
      case None => Flatten(PromptsByTheme)
  }

  /** `random.sample(pool, k)`: `k` entries taken from `pool` without
      replacement, in some order. */
  method Sample(pool: seq<string>, k: nat) returns (s: seq<string>)
    requires k <= |pool|
    ensures |s| == k && multiset(s) <= multiset(pool)
  {
    assert pool == pool[..k] + pool[k..];
    s :| |s| == k && multiset(s) <= multiset(pool);
  }

  /** `generate_text_prompt(theme, count)`: `min(count, len(pool))` prompts of
      the theme's pool, no prompt twice. A negative count makes
      `random.sample` raise `ValueError` (`None`). */
  method GenerateTextPrompt(theme: Option<string>, count: int) returns (r: Option<seq<string>>)
    ensures r.None? <==> count < 0
    ensures r.Some? ==>
      |r.value| == Min(count, |Pool(theme)|) && Distinct(r.value) &&
      forall i :: 0 <= i < |r.value| ==> r.value[i] in Pool(theme)
  {
    var pool: seq<string>;
    if theme.None? || theme.value == [] {
      pool := MixedPool();
    } else {
      var known := ThemePrompts(PromptsByTheme, theme.value);
      if known.Some? {
        pool := known.value;
      } else {
        pool := MixedPool();
      }
    }
    var k := Min(count, |pool|);
    if k < 0 {
      return None;
    }
    var s := Sample(pool, k);
    PoolsDistinct(theme);
    SampleDistinct(s, pool);
    forall i | 0 <= i < |s|
      ensures s[i] in pool
    {
      assert s[i] in multiset(s);
    }
    r := Some(s);
  }

  /** No prompt appears twice in any pool. */
  lemma PoolsDistinct(theme: Option<string>)
    ensures Distinct(Pool(theme))
  {
    MixedPoolDistinct();
    if theme.Some? && ThemePrompts(PromptsByTheme, theme.value).Some? {
      var t :| 0 <= t < |PromptsByTheme| && PromptsByTheme[t].0 == theme.value &&
               PromptsByTheme[t].1 == Pool(theme);
      ThemeDistinct(t);
    }
  }

  lemma MixedPoolDistinct()
    ensures Distinct(Flatten(PromptsByTheme))
  {
    var p := PromptsByTheme;
    assert Flatten(p[..1]) == p[0].1;
    assert p[..2][..1] == p[..1];
    assert p[..3][..2] == p[..2];
    assert p[..3] == p;
    ThemeDistinct(0);
    ThemeDistinct(1);
    ThemeDistinct(2);
    ThemesDisjoint(0, 1);
    DistinctConcat(p[0].1, p[1].1);
    ThemesDisjoint(0, 2);
    ThemesDisjoint(1, 2);
    DistinctConcat(p[0].1 + p[1].1, p[2].1);
  }

  lemma ThemesDisjoint(t1: nat, t2: nat)
    requires t1 < t2 < |PromptsByTheme|
    ensures forall x :: x in PromptsByTheme[t1].1 ==> x !in PromptsByTheme[t2].1
  {
  }

  lemma DistinctConcat(a: seq<string>, b: seq<string>)
    requires Distinct(a) && Distinct(b)
    requires forall x :: x in a ==> x !in b
    ensures Distinct(a + b)
  {
    var c := a + b;
    forall i, j | 0 <= i < j < |c|
      ensures c[i] != c[j]
    {
      if i < |a| <= j {
        assert c[i] in a && c[j] == b[j - |a|];
      }
    }
  }

  lemma ThemeDistinct(t: nat)
    requires t < |PromptsByTheme|
    ensures Distinct(PromptsByTheme[t].1)
  {
  }

  /** Taking without replacement from a pool without repeats gives no
      repeats. */
  lemma SampleDistinct(s: seq<string>, pool: seq<string>)
    requires Distinct(pool) && multiset(s) <= multiset(pool)
    ensures Distinct(s)
  {
    forall i, j | 0 <= i < j < |s|
      ensures s[i] != s[j]
    {
      if s[i] == s[j] {
        TwiceInMultiset(s, i, j);
        AtMostOnce(pool, s[i]);
        assert false;
      }
    }
  }

  lemma TwiceInMultiset(s: seq<string>, i: nat, j: nat)
    requires i < j < |s| && s[i] == s[j]
    ensures multiset(s)[s[i]] >= 2
  {
    assert s == s[..i] + [s[i]] + s[i + 1..j] + [s[j]] + s[j + 1..];
  }

  lemma {:induction false} AtMostOnce(pool: seq<string>, x: string)
    requires Distinct(pool)
    ensures multiset(pool)[x] <= 1
  {
    if pool != [] {
      var last := pool[|pool| - 1];
      var init := pool[..|pool| - 1];
      assert pool == init + [last];
      AtMostOnce(init, x);
      if x == last {
        assert x !in init;
      }
    }
  }

  // ----- auto_complete -----

  /** The canned completions of the fallback, in insertion order. */
  const Completions: seq<(string, string)> := [
    ("I feel", " happy today because the sun is shining."),
    ("The best way", " to learn is by doing."),
    ("Remember", " to always be kind to yourself."),
    ("Life is", " a journey, not a destination.")
  ]

  const NoCompletion := "... (completion not available)"

  /** The first starter `text` begins with, if any. */
  function FirstStarter(text: string, from: nat): (k: Option<nat>)
    requires from <= |Completions|
    ensures k.Some? ==> from <= k.value < |Completions| && StartsWith(text, Completions[k.value].0)
    ensures k.Some? ==> forall m :: from <= m < k.value ==> !StartsWith(text, Completions[m].0)
    ensures k.None? ==> forall m :: from <= m < |Completions| ==> !StartsWith(text, Completions[m].0)
    decreases |Completions| - from
  {
    if from == |Completions| then None
    else if StartsWith(text, Completions[from].0) then Some(from)
    else FirstStarter(text, from + 1)
  }

  /** The fallback loop: the text with the completion of the first starter
      it begins with, or with the "not available" note. */
  method FallbackCompletion(text: string) returns (r: string)
    ensures var k := FirstStarter(text, 0);
      (k.Some? ==> r == text + Completions[k.value].1) && (k.None? ==> r == text + NoCompletion)
  {
    var i := 0;
    while i < |Completions|
      invariant 0 <= i <= |Completions|
      invariant FirstStarter(text, 0) == FirstStarter(text, i)
    {
      if StartsWith(text, Completions[i].0) {
        return text + Completions[i].1;
      }
      i := i + 1;
    }
    r := text + NoCompletion;
  }

  /** No starter begins with another: their first letters differ. */
  lemma StartersPrefixFree()
    ensures forall a, b :: 0 <= a < |Completions| && 0 <= b < |Completions| && a != b ==>
      !StartsWith(Completions[a].0, Completions[b].0)
  {
    forall a, b | 0 <= a < |Completions| && 0 <= b < |Completions| && a != b
      ensures Completions[a].0[0] != Completions[b].0[0]
    {
    }
  }

  /** So at most one starter matches, and the loop's order does not matter. */
  lemma AtMostOneStarter(text: string, a: nat, b: nat)
    requires a < |Completions| && b < |Completions|
    requires StartsWith(text, Completions[a].0) && StartsWith(text, Completions[b].0)
    ensures a == b
  {
    StartersPrefixFree();
  }

  /** The completion always extends the text. */
  lemma FallbackExtendsText(text: string)
    ensures var k := FirstStarter(text, 0);
      var r := if k.Some? then text + Completions[k.value].1 else text + NoCompletion;
      StartsWith(r, text) && |r| > |text|
  {
  }

  /** `auto_complete(text)`: the model's text when the model answers, the
      fallback otherwise. */
  method AutoComplete(text: string, generated: Option<string>) returns (r: string)
    ensures generated.Some? ==> r == generated.value
    ensures generated.None? ==> var k := FirstStarter(text, 0);
      && (k.Some? ==> r == text + Completions[k.value].1)
      && (k.None? ==> r == text + NoCompletion)
    ensures generated.None? ==> StartsWith(r, text) && |r| > |text|
  {
    if generated.Some? {
      return generated.value;
    }
    r := FallbackCompletion(text);
    FallbackExtendsText(text);
  }
}
