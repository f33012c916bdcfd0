/** The static-string translation hook (src/hooks/useStaticLingo.ts): a
    session cache per target locale, the split of the input strings into
    cached and missing ones, the merge of a batch translation, and what the
    hook shows after a commit in which the target locale changed. The
    translation service's reply is a parameter. */
module StaticLingo {
  import opened Wrappers

  /** One cache per target locale: source string to translation. */
  type Caches = map<string, map<string, string>>

  /** `strings.map(str => cache.get(str) || str)`: the cached translation,
      or the string itself when none is cached or the cached one is empty. */
  function Shown(cache: map<string, string>, strings: seq<string>): (r: seq<string>)
    ensures |r| == |strings|
    ensures forall i :: 0 <= i < |strings| ==>
              r[i] == if strings[i] in cache && cache[strings[i]] != "" then cache[strings[i]] else strings[i]
  {
    seq(|strings|, i requires 0 <= i < |strings| =>
      if strings[i] in cache && cache[strings[i]] != "" then cache[strings[i]] else strings[i])
  }

  /** The strings missing from the cache, with their positions, in input
      order, from position `from` on. */
  function Missing(cache: map<string, string>, strings: seq<string>, from: nat): (r: (seq<string>, seq<nat>))
    requires from <= |strings|
    ensures |r.0| == |r.1|
    ensures forall k :: 0 <= k < |r.1| ==> from <= r.1[k] < |strings| && r.0[k] == strings[r.1[k]]
    ensures forall k, l :: 0 <= k < l < |r.1| ==> r.1[k] < r.1[l]
    ensures forall i :: from <= i < |strings| ==> (i in r.1 <==> strings[i] !in cache)
    decreases |strings| - from
  {
    if from == |strings| then ([], [])
    else
      var rest := Missing(cache, strings, from + 1);
      if strings[from] !in cache then ([strings[from]] + rest.0, [from] + rest.1) else rest
  }

  /** The untranslated strings are exactly the inputs the cache lacks, each
      one as often as it occurs. */
  lemma MissingExactly(cache: map<string, string>, strings: seq<string>)
    ensures forall s :: s in Missing(cache, strings, 0).0 <==> s in strings && s !in cache
    ensures |Missing(cache, strings, 0).0| == 0 <==> forall i :: 0 <= i < |strings| ==> strings[i] in cache
  {
    var m := Missing(cache, strings, 0);
    forall s ensures s in m.0 <==> s in strings && s !in cache {
      if s in m.0 {
        var k :| 0 <= k < |m.0| && m.0[k] == s;
        assert m.1[k] in m.1;
      }
      if s in strings && s !in cache {
        var i :| 0 <= i < |strings| && strings[i] == s;
        assert i in m.1;
        var k :| 0 <= k < |m.1| && m.1[k] == i;
      }
    }
    if |m.0| > 0 {
      assert m.1[0] in m.1;
    }
  }

  /** `results.forEach((res, i) => cache.set(untranslated[i], res))`, for
      the positions both lists have. */
  function Merge(cache: map<string, string>, untranslated: seq<string>, results: seq<string>): (r: map<string, string>)
    ensures forall k :: k in r <==> k in cache || exists i :: 0 <= i < |untranslated| && i < |results| && untranslated[i] == k
    ensures forall k :: k in cache && (forall i :: 0 <= i < |untranslated| && i < |results| ==> untranslated[i] != k) ==> r[k] == cache[k]
    decreases |untranslated|
  {
    if |untranslated| == 0 || |results| == 0 then cache
    else
      var r := Merge(cache[untranslated[0] := results[0]], untranslated[1..], results[1..]);
      assert forall i :: 1 <= i < |untranslated| && i < |results| ==>
               untranslated[1..][i - 1] == untranslated[i] && results[1..][i - 1] == results[i];
      r
  }

  /** After the merge, each string holds the result of its last position
      (a later duplicate overwrites an earlier one). */
  lemma {:induction false} MergeLastWins(cache: map<string, string>, untranslated: seq<string>, results: seq<string>, i: nat)
    requires i < |untranslated| && i < |results|
    requires forall j :: i < j < |untranslated| && j < |results| ==> untranslated[j] != untranslated[i]
    ensures untranslated[i] in Merge(cache, untranslated, results)
    ensures Merge(cache, untranslated, results)[untranslated[i]] == results[i]
    decreases |untranslated|
  {
    var next := cache[untranslated[0] := results[0]];
    if i == 0 {
      assert forall j :: 0 <= j < |untranslated| - 1 && j < |results| - 1 ==> untranslated[1..][j] != untranslated[0] by {
        forall j | 0 <= j < |untranslated| - 1 && j < |results| - 1 ensures untranslated[1..][j] != untranslated[0] {
          assert untranslated[1..][j] == untranslated[j + 1];
        }
      }
    } else {
      forall j | i - 1 < j < |untranslated| - 1 && j < |results| - 1 ensures untranslated[1..][j] != untranslated[1..][i - 1] {
        assert untranslated[1..][j] == untranslated[j + 1];
      }
      MergeLastWins(next, untranslated[1..], results[1..], i - 1);
    }
  }

  /** What the translation effect does at once: the caches (with the target
      locale's created if absent), the list it shows straight away if any,
      and the strings it sends for translation if any. */
  datatype Start = Start(caches: Caches, shown: Option<seq<string>>, request: seq<string>)

  function CacheFor(caches: Caches, target: string): map<string, string> {
    if target in caches then caches[target] else map[]
  }

  /** The translation effect up to the request. */
  function Begin(strings: seq<string>, source: string, target: string, caches: Caches): (s: Start)
    ensures source == target ==> s == Start(caches, Some(strings), [])
    ensures source != target ==> s.caches == caches[target := CacheFor(caches, target)]
    ensures source != target ==> s.request == Missing(CacheFor(caches, target), strings, 0).0
    ensures source != target ==> (s.shown.Some? <==> |s.request| == 0)
    ensures source != target && s.shown.Some? ==> s.shown.value == Shown(CacheFor(caches, target), strings)
  {
    if source == target then Start(caches, Some(strings), [])
    else
      var cache := CacheFor(caches, target);
      var untranslated := Missing(cache, strings, 0).0;
      if |untranslated| == 0 then Start(caches[target := cache], Some(Shown(cache, strings)), [])
      else Start(caches[target := cache], None, untranslated)
  }

  /** The reply to the request: merged into the target locale's cache,
      then the whole list is shown again from it. */
  function Finish(strings: seq<string>, target: string, start: Start, results: seq<string>): (r: (Caches, seq<string>))
    requires target in start.caches
    ensures r.0 == start.caches[target := Merge(start.caches[target], start.request, results)]
    ensures r.1 == Shown(r.0[target], strings)
  {
    var caches := start.caches[target := Merge(start.caches[target], start.request, results)];
    (caches, Shown(caches[target], strings))
  }

  /** Same locales: the input is shown as it is and no cache is touched. */
  lemma SameLocaleShowsInput(strings: seq<string>, locale: string, caches: Caches)
    ensures Begin(strings, locale, locale, caches) == Start(caches, Some(strings), [])
  {
  }

  /** Everything cached: no request, and each output is its cached
      translation (or the input when that is empty). */
  lemma AllCachedNoRequest(strings: seq<string>, source: string, target: string, caches: Caches)
    requires source != target
    requires forall i :: 0 <= i < |strings| ==> strings[i] in CacheFor(caches, target)
    ensures Begin(strings, source, target, caches).request == []
    ensures Begin(strings, source, target, caches).shown == Some(Shown(CacheFor(caches, target), strings))
  {
    MissingExactly(CacheFor(caches, target), strings);
  }

  /** A completed translation keeps every other locale's cache, gives each
      requested string the result of its last position, and shows a list
      as long as the input. */
  lemma TranslationRoundKeepsOtherLocales(strings: seq<string>, source: string, target: string, caches: Caches,
                                          results: seq<string>, other: string)
    requires source != target && other != target
    ensures var start := Begin(strings, source, target, caches);
            var done := Finish(strings, target, start, results);
            && (other in done.0 <==> other in caches)
            && (other in caches ==> done.0[other] == caches[other])
            && |done.1| == |strings|
  {
  }

  // ----- A commit in which the target locale changed -----

  /** The hook's state: the list it returns and the locale seen last. */
  datatype Hook = Hook(translated: seq<string>, previousLocale: string)

  /** As written: the translation effect runs first, then the
      locale-change effect sets the list back to the input, and the later
      state update wins. */
  function SwitchAsWritten(h: Hook, strings: seq<string>, source: string, target: string, caches: Caches): (r: (Hook, Start))
    ensures r.1 == Begin(strings, source, target, caches)
    ensures h.previousLocale != target ==> r.0.translated == strings
  {
    var start := Begin(strings, source, target, caches);
    var afterFirst := if start.shown.Some? then start.shown.value else h.translated;
    var afterSecond := if h.previousLocale != target then strings else afterFirst;
    (Hook(afterSecond, target), start)
  }

  /** As written, switching to a locale whose strings are all cached shows
      the untranslated input, however the cache translates it. */
  lemma SwitchAsWrittenHidesCache(h: Hook, strings: seq<string>, source: string, target: string, caches: Caches)
    requires source != target && h.previousLocale != target
    requires forall i :: 0 <= i < |strings| ==> strings[i] in CacheFor(caches, target)
    requires Shown(CacheFor(caches, target), strings) != strings
    ensures SwitchAsWritten(h, strings, source, target, caches).1.shown == Some(Shown(CacheFor(caches, target), strings))
    ensures SwitchAsWritten(h, strings, source, target, caches).0.translated != Shown(CacheFor(caches, target), strings)
  {
    AllCachedNoRequest(strings, source, target, caches);
  }

  /** The locale change resets the list to the input only while the
      translation is still to come. */
  function Switch(h: Hook, strings: seq<string>, source: string, target: string, caches: Caches): (r: (Hook, Start))
    ensures r.1 == Begin(strings, source, target, caches)
  {
    var start := Begin(strings, source, target, caches);
    var afterFirst := if start.shown.Some? then start.shown.value else h.translated;
    var afterSecond := if h.previousLocale != target && start.shown.None? then strings else afterFirst;
    (Hook(afterSecond, target), start)
  }

  /** Switching locale shows the cached translation when everything is
      cached, and otherwise the input until exactly the missing strings
      come back translated. */
  lemma SwitchShowsCache(h: Hook, strings: seq<string>, source: string, target: string, caches: Caches)
    requires source != target && h.previousLocale != target
    ensures var r := Switch(h, strings, source, target, caches);
            && r.0.previousLocale == target
            && ((forall i :: 0 <= i < |strings| ==> strings[i] in CacheFor(caches, target)) ==>
                  r.0.translated == Shown(CacheFor(caches, target), strings) && r.1.request == [])
            && ((exists i :: 0 <= i < |strings| && strings[i] !in CacheFor(caches, target)) ==>
                  r.0.translated == strings
                  && forall s :: s in r.1.request <==> s in strings && s !in CacheFor(caches, target))
  {
    MissingExactly(CacheFor(caches, target), strings);
  }
}
