/** Merging a public VNC address template with the address a runner reports: paths and queries. */
module VncPaths {

  // ---------- paths and their segments ----------

  /** The non-empty pieces between slashes. */
  function Segments(path: string): seq<string> {
    if path == "" then []
    else
      var init := path[..|path| - 1];
      Extended(Segments(init), init == "" || init[|init| - 1] == '/', path[|path| - 1])
  }

  /** One more character: a slash adds nothing, any other one begins a segment or prolongs the last one. */
  function Extended(earlier: seq<string>, begins: bool, c: char): seq<string> {
    if c == '/' then earlier
    else if begins || earlier == [] then earlier + [[c]]
    else earlier[..|earlier| - 1] + [earlier[|earlier| - 1] + [c]]
  }

  function Join(segments: seq<string>): string {
    if segments == [] then ""
    else
      var n := |segments| - 1;
      if n == 0 then segments[0] else Join(segments[..n]) + "/" + segments[n]
  }

  /** `rstrip("/")`. */
  function Stripped(path: string): string {
    if path != "" && path[|path| - 1] == '/' then Stripped(path[..|path| - 1]) else path
  }

  predicate Proper(segment: string) {
    segment != "" && '/' !in segment
  }

  predicate AllProper(segments: seq<string>) {
    forall i | 0 <= i < |segments| :: Proper(segments[i])
  }

  function Rendered(leading: bool, segments: seq<string>): string {
    (if leading then "/" else "") + Join(segments)
  }

  lemma {:induction false} SegmentsAreProper(path: string)
    ensures AllProper(Segments(path))
    ensures path != "" && path[|path| - 1] != '/' ==> Segments(path) != []
  {
    if path != "" {
      SegmentsAreProper(path[..|path| - 1]);
    }
  }

  lemma {:induction false} StrippedKeepsSegments(path: string)
    ensures Segments(Stripped(path)) == Segments(path)
    ensures Stripped(path) == "" ==> Segments(path) == []
    ensures Stripped(path) != "" ==> Stripped(path)[0] == path[0]
  {
    if path != "" && path[|path| - 1] == '/' {
      StrippedKeepsSegments(path[..|path| - 1]);
    }
  }

  lemma SlashKeepsSegments(path: string)
    ensures Segments(path + "/") == Segments(path)
  {
    assert (path + "/")[..|path|] == path;
  }

  lemma SegmentsByLast(path: string)
    requires path != ""
    ensures var n := |path| - 1;
            Segments(path) == Extended(Segments(path[..n]), n == 0 || path[n - 1] == '/', path[n])
  {
    hide Extended;
  }

  lemma {:induction false} LeadingSlashKeepsSegments(path: string)
    ensures Segments("/" + path) == Segments(path)
  {
    hide Segments;
    hide Extended;
    if path == "" {
      SlashKeepsSegments("");
      assert "" + "/" == "/" + "";
    } else {
      var n := |path| - 1;
      LeadingSlashKeepsSegments(path[..n]);
      assert ("/" + path)[..n + 1] == "/" + path[..n];
      SegmentsByLast(path);
      SegmentsByLast("/" + path);
    }
  }

  /** One more character begins a segment or prolongs the last one. */
  lemma CharacterAdded(path: string, c: char)
    requires c != '/'
    ensures var earlier := Segments(path);
            Segments(path + [c]) ==
              if path == "" || path[|path| - 1] == '/' || earlier == [] then earlier + [[c]]
              else earlier[..|earlier| - 1] + [earlier[|earlier| - 1] + [c]]
  {
    assert (path + [c])[..|path|] == path;
  }

  /** A word after a slash, or at the beginning, is one more segment. */
  lemma {:induction false} WordIsSegment(path: string, word: string)
    requires Proper(word) && (path == "" || path[|path| - 1] == '/')
    ensures Segments(path + word) == Segments(path) + [word]
  {
    hide Segments;
    var n := |word| - 1;
    var init := word[..n];
    assert word == init + [word[n]] && word[n] in word;
    assert path + word == (path + init) + [word[n]];
    CharacterAdded(path + init, word[n]);
    if n == 0 {
      assert path + init == path;
    } else {
      assert Proper(init) by { assert forall c | c in init :: c in word; }
      WordIsSegment(path, init);
      assert (path + init)[|path + init| - 1] == init[n - 1] && init[n - 1] in word;
    }
  }

  /** Joining segments and cutting the result apart again gives the segments back. */
  lemma {:induction false} JoinRoundTrip(segments: seq<string>)
    requires AllProper(segments)
    ensures Segments(Join(segments)) == segments
  {
    hide Segments;
    hide Join;
    if |segments| <= 1 {
      ShortJoin(segments);
    } else {
      var n := |segments| - 1;
      LongJoin(segments);
      JoinRoundTrip(segments[..n]);
      SlashKeepsSegments(Join(segments[..n]));
      WordIsSegment(Join(segments[..n]) + "/", segments[n]);
      assert segments == segments[..n] + [segments[n]];
    }
  }

  lemma ShortJoin(segments: seq<string>)
    requires AllProper(segments) && |segments| <= 1
    ensures Segments(Join(segments)) == segments
  {
    if |segments| == 1 {
      WordIsSegment("", segments[0]);
      assert "" + segments[0] == segments[0];
      assert segments == [] + [segments[0]];
    }
  }

  lemma LongJoin(segments: seq<string>)
    requires |segments| > 1
    ensures Join(segments) == Join(segments[..|segments| - 1]) + "/" + segments[|segments| - 1]
  {
  }

  lemma RenderedRoundTrip(leading: bool, segments: seq<string>)
    requires AllProper(segments)
    ensures Segments(Rendered(leading, segments)) == segments
  {
    JoinRoundTrip(segments);
    LeadingSlashKeepsSegments(Join(segments));
    assert "" + Join(segments) == Join(segments);
  }

  // ---------- merging segment lists ----------

  predicate EndsWith(whole: seq<string>, end: seq<string>) {
    |end| <= |whole| && whole[|whole| - |end|..] == end
  }

  function Common(a: seq<string>, b: seq<string>): (n: nat)
    ensures n <= |a| && n <= |b| && a[..n] == b[..n]
    ensures n < |a| && n < |b| ==> a[n] != b[n]
  {
    if a == [] || b == [] || a[0] != b[0] then 0
    else
      var n := Common(a[1..], b[1..]);
      assert a[..n + 1] == [a[0]] + a[1..][..n] && b[..n + 1] == [b[0]] + b[1..][..n];
      n + 1
  }

  function MergedSegments(base: seq<string>, fallback: seq<string>): seq<string> {
    if base == [] then fallback
    else if EndsWith(fallback, base) then base
    else base + fallback[Common(base, fallback)..]
  }

  /** What a second merge could wrongly drop: the part of the fallback after the common prefix. */
  function Leftover(base: seq<string>, fallback: seq<string>): seq<string> {
    if base == [] || EndsWith(fallback, base) then [] else fallback[Common(base, fallback)..]
  }

  /** The base shifted by the leftover and completed with it is the base again. */
  predicate Borders(base: seq<string>, rest: seq<string>) {
    0 < |rest| < |base| && base[|rest|..] + rest == base
  }

  lemma CommonUnique(a: seq<string>, b: seq<string>, n: nat)
    requires n <= |a| && n <= |b| && a[..n] == b[..n]
    requires n < |a| && n < |b| ==> a[n] != b[n]
    ensures Common(a, b) == n
  {
    var m := Common(a, b);
    forall i | 0 <= i < n ensures a[i] == b[i] {
      assert a[..n][i] == b[..n][i];
    }
    forall i | 0 <= i < m ensures a[i] == b[i] {
      assert a[..m][i] == b[..m][i];
    }
  }

  /**
   The merge begins with the base, and it is followed by what the fallback has beyond the
   longest common prefix, unless the fallback already ends with the base.
   */
  lemma MergeBeginsWithBase(base: seq<string>, fallback: seq<string>)
    ensures var merged := MergedSegments(base, fallback);
            && base <= merged
            && (base == [] ==> merged == fallback)
            && (EndsWith(fallback, base) && base != [] ==> merged == base)
            && (!EndsWith(fallback, base) ==>
                  exists n: nat :: SplitsAt(base, fallback, n) && merged == base + fallback[n..])
  {
    assert SplitsAt(base, fallback, Common(base, fallback));
  }

  /** `n` is the length of the longest common prefix. */
  ghost predicate SplitsAt(a: seq<string>, b: seq<string>, n: nat) {
    && n <= |a| && n <= |b|
    && a[..n] == b[..n]
    && (n < |a| && n < |b| ==> a[n] != b[n])
  }

  /** Merging the result again changes nothing, exactly when the leftover is not a border of the base. */
  lemma MergeIdempotentIff(base: seq<string>, fallback: seq<string>)
    ensures MergedSegments(base, MergedSegments(base, fallback)) == MergedSegments(base, fallback)
            <==> !Borders(base, Leftover(base, fallback))
  {
    var merged, rest := MergedSegments(base, fallback), Leftover(base, fallback);
    if base != [] && EndsWith(fallback, base) {
      assert base[|base| - |base|..] == base;
    } else if base != [] {
      CommonUnique(base, merged, |base|);
      assert merged == base + rest && merged[|base|..] == rest;
      if |rest| >= |base| {
        assert merged[|merged| - |base|..] == rest[|rest| - |base|..] == fallback[|fallback| - |base|..];
      } else {
        assert merged[|merged| - |base|..] == base[|rest|..] + rest;
      }
    }
  }

  /** So it is idempotent whenever the base repeats no segment. */
  lemma MergeIdempotentWithoutRepeats(base: seq<string>, fallback: seq<string>)
    requires forall i, j | 0 <= i < j < |base| :: base[i] != base[j]
    ensures MergedSegments(base, MergedSegments(base, fallback)) == MergedSegments(base, fallback)
  {
    MergeIdempotentIff(base, fallback);
    var rest := Leftover(base, fallback);
    if 0 < |rest| < |base| {
      assert (base[|rest|..] + rest)[0] == base[|rest|];
    }
  }

  /** It is not idempotent in general. */
  lemma MergeNotIdempotent()
    ensures var base, fallback := ["a", "b", "a"], ["b", "a"];
            && MergedSegments(base, fallback) == ["a", "b", "a", "b", "a"]
            && MergedSegments(base, MergedSegments(base, fallback)) == base
  {
    var base, fallback := ["a", "b", "a"], ["b", "a"];
    CommonUnique(base, fallback, 0);
    assert base[0] != fallback[0] by { assert base[0][0] != fallback[0][0]; }
    assert !EndsWith(fallback, base);
    var merged := ["a", "b", "a", "b", "a"];
    assert MergedSegments(base, fallback) == base + fallback[0..] == merged;
    assert merged[2..] == base;
  }

  // ---------- the shape of the text ----------

  lemma {:induction false} StrippedExact(path: string)
    ensures var s := Stripped(path);
            && s <= path && (forall i | |s| <= i < |path| :: path[i] == '/')
            && (s != "" ==> s[|s| - 1] != '/')
  {
    if path != "" && path[|path| - 1] == '/' {
      StrippedExact(path[..|path| - 1]);
      assert forall i | 0 <= i < |path| - 1 :: path[..|path| - 1][i] == path[i];
    }
  }

  /** A rendered path is absolute exactly if asked, and has no slash at its end nor two in a row. */
  lemma RenderedShape(leading: bool, segments: seq<string>)
    requires AllProper(segments) && segments != []
    ensures var path := Rendered(leading, segments);
            && LeadingSlash(path) == leading && path[|path| - 1] != '/'
            && (forall i | 0 <= i < |path| - 1 :: path[i] != '/' || path[i + 1] != '/')
  {
    JoinShape(segments);
  }

  lemma {:induction false} JoinShape(segments: seq<string>)
    requires AllProper(segments) && segments != []
    ensures var text := Join(segments);
            && text != "" && text[0] != '/' && text[|text| - 1] != '/'
            && (forall i | 0 <= i < |text| - 1 :: text[i] != '/' || text[i + 1] != '/')
  {
    hide Join;
    var n := |segments| - 1;
    var last := segments[n];
    assert forall i | 0 <= i < |last| :: last[i] in last;
    if n == 0 {
      SingleJoin(segments);
    } else {
      JoinShape(segments[..n]);
      LongJoin(segments);
    }
  }

  lemma SingleJoin(segments: seq<string>)
    requires |segments| == 1
    ensures Join(segments) == segments[0]
  {
  }

  // ---------- the path merge ----------

  method SplitSegments(path: string) returns (segments: seq<string>)
    ensures segments == Segments(path)
  {
    segments := [];
    for i := 0 to |path|
      invariant segments == Segments(path[..i])
    {
      SegmentsAreProper(path[..i]);
      assert path[..i + 1][..i] == path[..i];
      if path[i] != '/' {
        if i == 0 || path[i - 1] == '/' {
          segments := segments + [[path[i]]];
        } else {
          segments := segments[..|segments| - 1] + [segments[|segments| - 1] + [path[i]]];
        }
      }
    }
    assert path[..|path|] == path;
  }

  predicate LeadingSlash(path: string) {
    path != "" && path[0] == '/'
  }

  /**
   `_merge_vnc_paths`. The result has exactly the merged segments. With a fallback that says
   something it is their plain rendering, absolute if either path is; otherwise it is the
   override without trailing slashes, or the root.
   */
  method MergeVncPaths(overridePath: string, fallbackPath: string) returns (path: string)
    ensures Segments(path) == MergedSegments(Segments(overridePath), Segments(fallbackPath))
    ensures fallbackPath !in {"", "/"} ==>
              path == Rendered(LeadingSlash(overridePath) || LeadingSlash(fallbackPath),
                               MergedSegments(Segments(overridePath), Segments(fallbackPath)))
    ensures fallbackPath in {"", "/"} ==> path == if Stripped(overridePath) == "" then "/" else Stripped(overridePath)
  {
    var base := Stripped(overridePath);
    StrippedKeepsSegments(overridePath);
    SegmentsAreProper(overridePath);
    SegmentsAreProper(fallbackPath);
    if fallbackPath == "" || fallbackPath == "/" {
      NoFallback(overridePath, fallbackPath);
      return if base != "" then base else if fallbackPath != "" then fallbackPath else "/";
    }
    var baseSegments := SplitSegments(base);
    var fallbackSegments := SplitSegments(fallbackPath);
    var leading := LeadingSlash(overridePath) || LeadingSlash(fallbackPath);
    if baseSegments == [] {
      RenderedRoundTrip(leading, fallbackSegments);
      if fallbackSegments == [] {
        return if leading then "/" else "";
      }
      var prefix := if leading then "/" else "";
      return prefix + Join(fallbackSegments);
    }
    var merged := MergeSegmentLists(baseSegments, fallbackSegments);
    RenderedRoundTrip(leading, merged);
    path := Rendered(leading, merged);
  }

  /** The part of the merge that compares segments. */
  method MergeSegmentLists(base: seq<string>, fallback: seq<string>) returns (merged: seq<string>)
    requires base != []
    ensures merged == MergedSegments(base, fallback)
    ensures AllProper(base) && AllProper(fallback) ==> AllProper(merged)
  {
    if fallback != [] && |fallback| >= |base| {
      if fallback[|fallback| - |base|..] == base {
        return base;
      }
    }
    var common := 0;
    var limit := if |base| < |fallback| then |base| else |fallback|;
    while common < limit && base[common] == fallback[common]
      invariant common <= limit && base[..common] == fallback[..common]
    {
      assert base[..common + 1] == base[..common] + [base[common]];
      assert fallback[..common + 1] == fallback[..common] + [fallback[common]];
      common := common + 1;
    }
    CommonUnique(base, fallback, common);
    merged := base + fallback[common..];
  }

  lemma NoFallback(overridePath: string, fallbackPath: string)
    requires fallbackPath in {"", "/"}
    ensures Segments(fallbackPath) == [] && Segments("/") == []
    ensures MergedSegments(Segments(overridePath), []) == Segments(overridePath)
  {
    assert "/"[..0] == "";
  }

  // ---------- the query merge ----------

  type Pair = (string, string)

  function Keys(items: seq<Pair>): set<string> {
    set item | item in items :: item.0
  }

  /** The first pair of each key that is not in `seen`. */
  function Unseen(items: seq<Pair>, seen: set<string>): seq<Pair> {
    if items == [] then []
    else
      var earlier := Unseen(items[..|items| - 1], seen);
      var last := items[|items| - 1];
      if last.0 in seen || last.0 in Keys(items[..|items| - 1]) then earlier else earlier + [last]
  }

  method MergeQueries(overrideQuery: seq<Pair>, fallbackQuery: seq<Pair>) returns (items: seq<Pair>)
    ensures items == overrideQuery + Unseen(fallbackQuery, Keys(overrideQuery))
  {
    items := overrideQuery;
    var seen := Keys(overrideQuery);
    assert overrideQuery + [] == overrideQuery;
    for i := 0 to |fallbackQuery|
      invariant items == overrideQuery + Unseen(fallbackQuery[..i], Keys(overrideQuery))
      invariant seen == Keys(overrideQuery) + Keys(fallbackQuery[..i])
    {
      assert fallbackQuery[..i + 1][..i] == fallbackQuery[..i];
      KeysGrow(fallbackQuery, i);
      if fallbackQuery[i].0 !in seen {
        items := items + [fallbackQuery[i]];
        seen := seen + {fallbackQuery[i].0};
      }
    }
    assert fallbackQuery[..|fallbackQuery|] == fallbackQuery;
  }

  lemma KeysGrow(items: seq<Pair>, i: nat)
    requires i < |items|
    ensures Keys(items[..i + 1]) == Keys(items[..i]) + {items[i].0}
  {
    assert items[..i + 1] == items[..i] + [items[i]];
  }

  /** `at` is the first position of its key. */
  ghost predicate FirstOfKey(items: seq<Pair>, at: int) {
    0 <= at < |items| && forall j | 0 <= j < at :: items[j].0 != items[at].0
  }

  ghost predicate DistinctKeys(items: seq<Pair>) {
    forall i, j | 0 <= i < j < |items| :: items[i].0 != items[j].0
  }

  lemma {:induction false} UnseenKeys(items: seq<Pair>, seen: set<string>)
    ensures Keys(Unseen(items, seen)) == Keys(items) - seen
    ensures DistinctKeys(Unseen(items, seen))
  {
    if items != [] {
      var n := |items| - 1;
      UnseenKeys(items[..n], seen);
      KeysGrow(items, n);
      assert items[..n + 1] == items;
      var earlier := Unseen(items[..n], seen);
      assert forall i | 0 <= i < |earlier| :: earlier[i] in earlier && earlier[i].0 in Keys(earlier);
      KeysAppended(earlier, items[n]);
      hide Keys;
    }
  }

  lemma KeysAppended(items: seq<Pair>, item: Pair)
    ensures Keys(items + [item]) == Keys(items) + {item.0}
  {
  }

  lemma {:induction false} UnseenKeepsFirst(items: seq<Pair>, seen: set<string>, at: int)
    requires FirstOfKey(items, at) && items[at].0 !in seen
    ensures items[at] in Unseen(items, seen)
  {
    var n := |items| - 1;
    if at < n {
      UnseenKeepsFirst(items[..n], seen, at);
    } else {
      forall item | item in items[..n] ensures item.0 != items[n].0 {
        var j :| 0 <= j < n && items[..n][j] == item;
        assert items[j] == item;
      }
    }
  }

  /** Only the override's value survives for a key it has; any other key keeps the fallback's first value, once. */
  lemma QueryMergeExact(overrideQuery: seq<Pair>, fallbackQuery: seq<Pair>)
    ensures var seen := Keys(overrideQuery); var kept := Unseen(fallbackQuery, seen);
            && Keys(overrideQuery + kept) == seen + Keys(fallbackQuery)
            && Keys(kept) !! seen && DistinctKeys(kept)
            && (forall at | FirstOfKey(fallbackQuery, at) && fallbackQuery[at].0 !in seen :: fallbackQuery[at] in kept)
  {
    var seen := Keys(overrideQuery);
    var kept := Unseen(fallbackQuery, seen);
    UnseenKeys(fallbackQuery, seen);
    assert Keys(overrideQuery + kept) == seen + Keys(kept);
    forall at | FirstOfKey(fallbackQuery, at) && fallbackQuery[at].0 !in seen ensures fallbackQuery[at] in kept {
      UnseenKeepsFirst(fallbackQuery, seen, at);
    }
  }

  /** Merging the merged query again changes nothing. */
  lemma QueryMergeIdempotent(overrideQuery: seq<Pair>, fallbackQuery: seq<Pair>)
    ensures var seen := Keys(overrideQuery);
            var merged := overrideQuery + Unseen(fallbackQuery, seen);
            overrideQuery + Unseen(merged, seen) == merged
  {
    var seen := Keys(overrideQuery);
    var kept := Unseen(fallbackQuery, seen);
    UnseenKeys(fallbackQuery, seen);
    assert forall i | 0 <= i < |kept| :: kept[i] in kept && kept[i].0 in Keys(kept);
    UnseenSkipsSeen(overrideQuery, kept, seen);
  }

  lemma {:induction false} UnseenSkipsSeen(known: seq<Pair>, novel: seq<Pair>, seen: set<string>)
    requires Keys(known) <= seen
    requires forall i | 0 <= i < |novel| :: novel[i].0 !in seen
    requires DistinctKeys(novel)
    ensures Unseen(known + novel, seen) == novel
  {
    if novel == [] {
      assert known + novel == known;
      AllSeen(known, seen);
    } else {
      var n := |novel| - 1;
      UnseenSkipsSeen(known, novel[..n], seen);
      assert (known + novel)[..|known + novel| - 1] == known + novel[..n];
      forall item | item in known + novel[..n] ensures item.0 != novel[n].0 {
        if item in known { assert item.0 in Keys(known); }
      }
    }
  }

  lemma {:induction false} AllSeen(items: seq<Pair>, seen: set<string>)
    requires Keys(items) <= seen
    ensures Unseen(items, seen) == []
  {
    if items != [] {
      var n := |items| - 1;
      KeysGrow(items, n);
      assert items[..n + 1] == items;
      AllSeen(items[..n], seen);
    }
  }
}
