/** internal/engine/state.go, lookup half: how many samples a changed key needs. */
module Debounce {
  import opened Text

  datatype DebounceConfig = DebounceConfig(defaultSamples: int, perKey: map<string, int>)

  /** `pattern` ends in "*" and what comes before the star is a prefix of `key`. */
  predicate Matches(pattern: string, key: string) {
    |pattern| > 0 && pattern[|pattern| - 1] == '*' && pattern[..|pattern| - 1] <= key
  }

  ghost predicate AnyMatch(config: DebounceConfig, key: string) {
    exists p :: p in config.perKey && Matches(p, key)
  }

  ghost predicate LongestMatch(config: DebounceConfig, key: string, pattern: string) {
    && pattern in config.perKey && Matches(pattern, key)
    && forall p | p in config.perKey && Matches(p, key) :: |p| <= |pattern|
  }

  /** Two patterns of one length that match the same key are the same pattern. */
  lemma MatchIsUnique(p: string, q: string, key: string)
    requires Matches(p, key) && Matches(q, key) && |p| == |q|
    ensures p == q
  {
    var n := |p| - 1;
    assert p[..n] == key[..n] == q[..n];
    assert p == p[..n] + [p[n]] && q == q[..n] + [q[n]];
  }

  /** The map is walked in whatever order Go picks; the answer is the longest match's. */
  method PatternSamples(config: DebounceConfig, key: string) returns (samples: int, matched: bool)
    ensures matched <==> AnyMatch(config, key)
    ensures matched ==> exists p :: LongestMatch(config, key, p)
    ensures forall p :: LongestMatch(config, key, p) ==> samples == config.perKey[p]
  {
    var best := -1;
    samples := 0;
    var left := config.perKey.Keys;
    ghost var chosen := "";
    while left != {}
      invariant left <= config.perKey.Keys
      invariant best >= -1
      invariant best == -1 ==> forall p | p in config.perKey.Keys - left :: !Matches(p, key)
      invariant best >= 0 ==>
        && chosen in config.perKey && Matches(chosen, key)
        && best == |chosen| - 1 && samples == config.perKey[chosen]
        && forall p | p in config.perKey.Keys - left && Matches(p, key) :: |p| <= |chosen|
      decreases left
    {
      var pattern :| pattern in left;
      left := left - {pattern};
      if Matches(pattern, key) && |pattern| - 1 > best {
        best, samples := |pattern| - 1, config.perKey[pattern];
        chosen := pattern;
      }
    }
    matched := best >= 0;
    if matched {
      assert LongestMatch(config, key, chosen);
      forall p | LongestMatch(config, key, p) ensures p == chosen { MatchIsUnique(p, chosen, key); }
    }
  }

  /** The samples a key needs, as a function: no map order can change it. */
  ghost function SamplesFor(config: Option<DebounceConfig>, key: string): int {
    match config
    case None => 1
    case Some(c) =>
      if key in c.perKey then c.perKey[key]
      else if AnyMatch(c, key) then
        LongestMatchExists(c, key);
        var p :| LongestMatch(c, key, p);
        c.perKey[p]
      else if c.defaultSamples < 1 then 1
      else c.defaultSamples
  }

  lemma {:induction false} LongestIn(patterns: set<string>, key: string) returns (best: string)
    requires exists p :: p in patterns && Matches(p, key)
    ensures best in patterns && Matches(best, key)
    ensures forall p | p in patterns && Matches(p, key) :: |p| <= |best|
    decreases patterns
  {
    var first :| first in patterns && Matches(first, key);
    var longer := set p | p in patterns && Matches(p, key) && |p| > |first|;
    assert first !in longer;
    if longer == {} {
      best := first;
      forall p | p in patterns && Matches(p, key) ensures |p| <= |best| { assert p !in longer; }
    } else {
      var q :| q in longer;
      best := LongestIn(longer, key);
      forall p | p in patterns && Matches(p, key) ensures |p| <= |best| {
        if |p| > |first| { assert p in longer; }
      }
    }
  }

  lemma LongestMatchExists(config: DebounceConfig, key: string)
    requires AnyMatch(config, key)
    ensures exists p :: LongestMatch(config, key, p)
  {
    var best := LongestIn(config.perKey.Keys, key);
    assert LongestMatch(config, key, best);
  }

  /**
   * The lookup is deterministic: an exact entry wins, otherwise the one longest matching
   * pattern, otherwise the default with a floor of one.
   */
  lemma LookupIsDeterministic(c: DebounceConfig, key: string)
    ensures key in c.perKey ==> SamplesFor(Some(c), key) == c.perKey[key]
    ensures key !in c.perKey ==>
      forall p :: LongestMatch(c, key, p) ==> SamplesFor(Some(c), key) == c.perKey[p]
    ensures key !in c.perKey && !AnyMatch(c, key) ==>
      SamplesFor(Some(c), key) == if c.defaultSamples < 1 then 1 else c.defaultSamples
    ensures forall p, q :: LongestMatch(c, key, p) && LongestMatch(c, key, q) ==> p == q
  {
    forall p, q | LongestMatch(c, key, p) && LongestMatch(c, key, q) ensures p == q {
      MatchIsUnique(p, q, key);
    }
  }

  method Samples(config: Option<DebounceConfig>, key: string) returns (samples: int)
    ensures samples == SamplesFor(config, key)
  {
    if config.None? { return 1; }
    var c := config.value;
    if key in c.perKey { return c.perKey[key]; }
    LookupIsDeterministic(c, key);
    var found, matched := PatternSamples(c, key);
    if matched { return found; }
    return if c.defaultSamples < 1 then 1 else c.defaultSamples;
  }

  /** What a starred entry covers: every key that begins with what comes before the star. */
  lemma StarMatchesPrefixes(prefix: string, key: string)
    ensures Matches(prefix + "*", key) <==> prefix <= key
  {
    assert (prefix + "*")[..|prefix|] == prefix;
  }

  lemma MatchesAreStarred(pattern: string, key: string) returns (prefix: string)
    requires Matches(pattern, key)
    ensures pattern == prefix + "*" && prefix <= key
  {
    prefix := pattern[..|pattern| - 1];
  }

  /** Of the starred entries, this one's prefix is the longest the key begins with. */
  ghost predicate LongestPrefix(c: DebounceConfig, key: string, prefix: string) {
    && prefix + "*" in c.perKey && prefix <= key
    && forall other: string | other + "*" in c.perKey && other <= key :: |other| <= |prefix|
  }

  /**
   * A key without an entry of its own needs what the entry for the longest starred prefix of it says;
   * one that begins with no starred prefix needs the default, and at least one sample.
   */
  lemma LongestPrefixDecides(c: DebounceConfig, key: string, prefix: string)
    requires key !in c.perKey
    ensures LongestPrefix(c, key, prefix) ==> SamplesFor(Some(c), key) == c.perKey[prefix + "*"]
    ensures (forall other: string | other <= key :: other + "*" !in c.perKey) ==>
      SamplesFor(Some(c), key) == if c.defaultSamples < 1 then 1 else c.defaultSamples
  {
    LookupIsDeterministic(c, key);
    StarMatchesPrefixes(prefix, key);
    forall p | p in c.perKey && Matches(p, key)
      ensures exists other: string :: p == other + "*" && other + "*" in c.perKey && other <= key
    {
      var other := MatchesAreStarred(p, key);
    }
    if LongestPrefix(c, key, prefix) {
      assert LongestMatch(c, key, prefix + "*");
    }
  }
}
