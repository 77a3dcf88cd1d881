/** Normalising, merging and comparing browser flags. */
module BrowserFlags {
  import opened Domain

  /** A flag's value as a client may send it: nothing, a boolean, or anything else as text. */
  datatype FlagValue = Null | Boolean(b: bool) | Text(text: string)

  /** One entry of the raw mapping; `name` is None when the key is not a string. */
  datatype RawFlag = RawFlag(name: Option<string>, value: FlagValue)

  predicate IsSpace(c: char) {
    c in " \t\n\r\U{0B}\U{0C}\U{1C}\U{1D}\U{1E}\U{1F}"
  }

  function StripLeft(s: string): string {
    if s != "" && IsSpace(s[0]) then StripLeft(s[1..]) else s
  }

  function StripRight(s: string): string {
    if s != "" && IsSpace(s[|s| - 1]) then StripRight(s[..|s| - 1]) else s
  }

  function Strip(s: string): string {
    StripRight(StripLeft(s))
  }

  predicate Clean(s: string) {
    s != "" && !IsSpace(s[0]) && !IsSpace(s[|s| - 1])
  }

  lemma {:induction false} StripRightKeepsHead(s: string)
    requires s != "" && !IsSpace(s[0])
    ensures StripRight(s) != "" && StripRight(s)[0] == s[0] && Clean(StripRight(s))
  {
    if IsSpace(s[|s| - 1]) {
      StripRightKeepsHead(s[..|s| - 1]);
    }
  }

  lemma {:induction false} StripLeftHead(s: string)
    ensures StripLeft(s) == "" || !IsSpace(StripLeft(s)[0])
  {
    if s != "" && IsSpace(s[0]) {
      StripLeftHead(s[1..]);
    }
  }

  /** Stripping leaves nothing or a name without surrounding space, and such names are left alone. */
  lemma StripCleans(s: string)
    ensures Strip(s) == "" || Clean(Strip(s))
    ensures Clean(s) ==> Strip(s) == s
  {
    StripLeftHead(s);
    if StripLeft(s) != "" {
      StripRightKeepsHead(StripLeft(s));
    }
  }

  /** `t` is the piece of `s` from `i` to `j`, with nothing but white space around it. */
  predicate Trims(s: string, t: string, i: nat, j: nat) {
    && i <= j <= |s| && s[i..j] == t
    && (forall k | 0 <= k < i :: IsSpace(s[k]))
    && (forall k | j <= k < |s| :: IsSpace(s[k]))
  }

  lemma {:induction false} StripLeftDrops(s: string) returns (i: nat)
    ensures i <= |s| && StripLeft(s) == s[i..] && forall k | 0 <= k < i :: IsSpace(s[k])
  {
    i := 0;
    if s != "" && IsSpace(s[0]) {
      var rest := StripLeftDrops(s[1..]);
      i := rest + 1;
      assert forall k | 1 <= k < i :: s[k] == s[1..][k - 1];
    }
  }

  lemma {:induction false} StripRightDrops(s: string) returns (j: nat)
    ensures j <= |s| && StripRight(s) == s[..j] && forall k | j <= k < |s| :: IsSpace(s[k])
  {
    j := |s|;
    if s != "" && IsSpace(s[|s| - 1]) {
      j := StripRightDrops(s[..|s| - 1]);
      assert forall k | j <= k < |s| - 1 :: s[k] == s[..|s| - 1][k];
    }
  }

  /** Stripping takes away white space at both ends and nothing else. */
  lemma StripTrims(s: string)
    ensures exists i: nat, j: nat :: Trims(s, Strip(s), i, j)
  {
    var i := StripLeftDrops(s);
    var rest := s[i..];
    var j := StripRightDrops(rest);
    assert s[i..i + j] == rest[..j];
    forall k | i + j <= k < |s| ensures IsSpace(s[k]) {
      assert s[k] == rest[k - i];
    }
    assert Trims(s, Strip(s), i, i + j);
  }

  /** There is one way only to trim a text to a clean one. */
  lemma CleanTrimIsUnique(s: string, t: string, i: nat, j: nat, u: string, k: nat, l: nat)
    requires Trims(s, t, i, j) && Trims(s, u, k, l) && Clean(t) && Clean(u)
    ensures t == u
  {
    assert s[i] == t[0] && s[k] == u[0] && s[j - 1] == t[|t| - 1] && s[l - 1] == u[|u| - 1];
  }

  /** The entry's key, trimmed, is this name, and it has a value. */
  ghost predicate Sets(flag: RawFlag, name: string) {
    && flag.name.Some? && !flag.value.Null? && Clean(name)
    && exists i: nat, j: nat :: Trims(flag.name.value, name, i, j)
  }

  /** The text a value is passed on as: a text as it is, a boolean as 1 or 0. */
  ghost predicate PassedAs(value: FlagValue, text: string) {
    match value
    case Null => false
    case Boolean(b) => text == if b then "1" else "0"
    case Text(given) => text == given
  }

  lemma TrimmedName(s: string, name: string)
    requires Clean(name)
    ensures Strip(s) == name <==> exists i: nat, j: nat :: Trims(s, name, i, j)
  {
    StripTrims(s);
    StripCleans(s);
    var i: nat, j: nat :| Trims(s, Strip(s), i, j);
    forall k: nat, l: nat | Trims(s, name, k, l) ensures Strip(s) == name {
      assert s[k] == name[0];
      if Strip(s) != "" {
        CleanTrimIsUnique(s, Strip(s), i, j, name, k, l);
      }
    }
  }

  lemma EntrySets(flag: RawFlag, name: string)
    ensures Sets(flag, name) <==> Entry(flag).Some? && Entry(flag).value.0 == name
    ensures Sets(flag, name) ==> PassedAs(flag.value, Entry(flag).value.1)
  {
    if flag.name.Some? {
      StripCleans(flag.name.value);
      if Clean(name) {
        TrimmedName(flag.name.value, name);
      }
    }
    hide Strip;
    hide Trims;
  }

  /** What one entry adds to the normalised mapping. */
  function Entry(flag: RawFlag): Option<(string, string)> {
    if flag.name.None? || Strip(flag.name.value) == "" || flag.value.Null? then None
    else match flag.value
      case Boolean(b) => Some((Strip(flag.name.value), if b then "1" else "0"))
      case Text(text) => Some((Strip(flag.name.value), text))
      case Null => None
  }

  /** Later entries win. */
  function Normalised(raw: seq<RawFlag>): Flags {
    if raw == [] then map[]
    else
      var before := Normalised(raw[..|raw| - 1]);
      match Entry(raw[|raw| - 1])
      case None => before
      case Some((name, value)) => before[name := value]
  }

  method NormaliseBrowserFlags(raw: seq<RawFlag>) returns (flags: Flags)
    ensures flags == Normalised(raw)
  {
    flags := map[];
    for i := 0 to |raw|
      invariant flags == Normalised(raw[..i])
    {
      assert raw[..i + 1][..i] == raw[..i];
      var flag := raw[i];
      if flag.name.Some? {
        var name := Strip(flag.name.value);
        if name != "" && !flag.value.Null? {
          if flag.value.Boolean? {
            flags := flags[name := if flag.value.b then "1" else "0"];
          } else {
            flags := flags[name := flag.value.text];
          }
        }
      }
    }
    assert raw[..|raw|] == raw;
  }

  predicate Normal(flags: Flags) {
    forall name | name in flags :: Clean(name)
  }

  lemma {:induction false} NormalisedIsNormal(raw: seq<RawFlag>)
    ensures Normal(Normalised(raw))
  {
    if raw != [] {
      NormalisedIsNormal(raw[..|raw| - 1]);
      var last := raw[|raw| - 1];
      if last.name.Some? {
        StripCleans(last.name.value);
      }
    }
  }

  /** Entry `i` is the last one that sets `name`. */
  ghost predicate LastSets(raw: seq<RawFlag>, i: int, name: string) {
    0 <= i < |raw| && Sets(raw[i], name) && forall j | i < j < |raw| :: !Sets(raw[j], name)
  }

  /** The normalised mapping has exactly the trimmed names some entry sets. */
  lemma {:induction false} NormalisedNames(raw: seq<RawFlag>, name: string)
    ensures name in Normalised(raw) <==> exists i :: 0 <= i < |raw| && Sets(raw[i], name)
  {
    hide Entry;
    hide Sets;
    if raw != [] {
      var n := |raw| - 1;
      NormalisedNames(raw[..n], name);
      EntrySets(raw[n], name);
      assert forall i | 0 <= i < n :: raw[..n][i] == raw[i];
    }
  }

  /** A name has the value of the last entry that sets it. */
  lemma {:induction false} NormalisedValue(raw: seq<RawFlag>, name: string, i: int)
    requires LastSets(raw, i, name)
    ensures name in Normalised(raw) && PassedAs(raw[i].value, Normalised(raw)[name])
  {
    hide Entry;
    hide Sets;
    hide PassedAs;
    var n := |raw| - 1;
    EntrySets(raw[n], name);
    if i < n {
      assert forall j | 0 <= j < n :: raw[..n][j] == raw[j];
      NormalisedValue(raw[..n], name, i);
    }
  }

  /** The entries of a mapping, in the order of its keys. */
  function Entries(flags: Flags, names: seq<string>): seq<RawFlag>
    requires forall name | name in names :: name in flags
  {
    seq(|names|, i requires 0 <= i < |names| => RawFlag(Some(names[i]), Text(flags[names[i]])))
  }

  lemma EntryOfCleanName(name: string, value: string)
    requires Clean(name)
    ensures Entry(RawFlag(Some(name), Text(value))) == Some((name, value))
  {
    StripCleans(name);
  }

  /** Normalising is idempotent: a mapping that is already normal comes back unchanged. */
  lemma {:induction false} NormalFlagsAreFixed(flags: Flags, names: seq<string>)
    requires Normal(flags) && (forall name | name in names :: name in flags)
    ensures Normalised(Entries(flags, names)) == map name | name in names :: flags[name]
  {
    if names != [] {
      hide Entry;
      var n := |names| - 1;
      var last := names[n];
      NormalFlagsAreFixed(flags, names[..n]);
      assert Entries(flags, names)[..n] == Entries(flags, names[..n]);
      EntryOfCleanName(last, flags[last]);
      assert Normalised(Entries(flags, names)) == Normalised(Entries(flags, names[..n]))[last := flags[last]];
      hide Normalised;
      assert forall name :: name in names <==> name in names[..n] || name == last;
    }
  }

  function Merged(baseline: Flags, requested: Flags): Flags {
    baseline + requested
  }

  /** Later sources win. */
  function MergedSources(sources: seq<seq<RawFlag>>): Flags {
    if sources == [] then map[]
    else MergedSources(sources[..|sources| - 1]) + Normalised(sources[|sources| - 1])
  }

  method MergeBrowserFlags(sources: seq<seq<RawFlag>>) returns (merged: Flags)
    ensures merged == MergedSources(sources)
  {
    merged := map[];
    for i := 0 to |sources|
      invariant merged == MergedSources(sources[..i])
    {
      assert sources[..i + 1][..i] == sources[..i];
      var normalised := NormaliseBrowserFlags(sources[i]);
      merged := merged + normalised;
    }
    assert sources[..|sources|] == sources;
  }

  /** A merged flag has the value of the last source that has it, and there are no others. */
  lemma {:induction false} MergedSourcesExact(sources: seq<seq<RawFlag>>, name: string)
    ensures name in MergedSources(sources) <==> exists i :: 0 <= i < |sources| && name in Normalised(sources[i])
    ensures forall i | 0 <= i < |sources| && name in Normalised(sources[i])
                       && (forall j | i < j < |sources| :: name !in Normalised(sources[j])) ::
              name in MergedSources(sources) && MergedSources(sources)[name] == Normalised(sources[i])[name]
  {
    hide Normalised;
    if sources != [] {
      var n := |sources| - 1;
      MergedSourcesExact(sources[..n], name);
      assert forall i | 0 <= i < n :: sources[..n][i] == sources[i];
    }
  }

  /** With required flags that are already normal, the merge adds the normalised request to them. */
  lemma MergeIntoNormal(baseline: Flags, names: seq<string>, requested: seq<RawFlag>)
    requires Normal(baseline) && (forall name :: name in names <==> name in baseline)
    ensures MergedSources([Entries(baseline, names), requested]) == Merged(baseline, Normalised(requested))
  {
    NormalFlagsAreFixed(baseline, names);
    var required := Entries(baseline, names);
    assert Normalised(required) == baseline;
    TwoSources(required, requested);
  }

  lemma TwoSources(a: seq<RawFlag>, b: seq<RawFlag>)
    ensures MergedSources([a, b]) == Normalised(a) + Normalised(b)
  {
    hide Normalised;
    assert [a, b][..1] == [a] && [a][..0] == [];
    assert MergedSources([a]) == map[] + Normalised(a) == Normalised(a);
  }

  predicate RequiresAdditional(requested: Flags, baseline: Flags) {
    exists name | name in requested :: name !in baseline || baseline[name] != requested[name]
  }

  method RequiresAdditionalFlags(requested: Flags, baseline: Flags) returns (additional: bool)
    ensures additional <==> RequiresAdditional(requested, baseline)
  {
    var rest := requested.Keys;
    while rest != {}
      invariant rest <= requested.Keys
      invariant forall name | name in requested && name !in rest ::
                  name in baseline && baseline[name] == requested[name]
    {
      var name :| name in rest;
      if name !in baseline || baseline[name] != requested[name] {
        return true;
      }
      rest := rest - {name};
    }
    additional := false;
  }

  /** A warm browser will do exactly when merging the request into its flags changes nothing. */
  lemma WarmFlagsSufficeIff(requested: Flags, baseline: Flags)
    ensures !RequiresAdditional(requested, baseline) <==> Merged(baseline, requested) == baseline
  {
    var merged := Merged(baseline, requested);
    if merged == baseline {
      assert forall name | name in requested :: merged[name] == requested[name];
    } else {
      assert !(merged.Keys <= baseline.Keys) || exists name :: name in baseline && merged[name] != baseline[name];
    }
  }
}
