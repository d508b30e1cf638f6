/** internal/providers/unifi/write.go:215-337: naming one outlet in an allowlist, and reading the name back. */
module OutletRefs {
  import opened Text

  datatype OutletRef = OutletRef(mac: string, index: int32, name: string)

  function Print(ref: OutletRef): string {
    ref.mac + "/" + FormatInt(ref.index) + "/" + ref.name
  }

  datatype Refusal = NotThreeParts | NoMac | NoIndex | NoName | Placeholder

  datatype Parsed = Accepted(ref: OutletRef) | Refused(why: Refusal)

  // -------------------------------------------------------------------------- addresses

  /** Lower case, with every separator a colon. */
  function NormalChar(c: char): char {
    if 'A' <= c <= 'Z' then (c as int - 'A' as int + 'a' as int) as char
    else if c == '-' || c == '.' then ':'
    else c
  }

  function Normalized(s: string): (r: string)
    ensures |r| == |s| && forall i | 0 <= i < |s| :: r[i] == NormalChar(s[i])
  {
    seq(|s|, i requires 0 <= i < |s| => NormalChar(s[i]))
  }

  function NormalizeMac(mac: string): string { Normalized(TrimSpace(mac)) }

  predicate IsHex(c: char) { IsDigit(c) || 'a' <= c <= 'f' }

  /** Six pairs of lower-case hexadecimal digits, colons between. */
  predicate IsMac(s: string) {
    |s| == 17 && forall i | 0 <= i < 17 :: if i % 3 == 2 then s[i] == ':' else IsHex(s[i])
  }

  /** Two hexadecimal digits. */
  predicate IsPair(s: string) {
    |s| == 2 && forall c | c in s :: '0' <= c <= '9' || c in "abcdef"
  }

  /** Six of them with colons between. */
  ghost predicate Pairs(s: string, a: string, b: string, c: string, d: string, e: string, f: string) {
    && IsPair(a) && IsPair(b) && IsPair(c) && IsPair(d) && IsPair(e) && IsPair(f)
    && s == a + ":" + b + ":" + c + ":" + d + ":" + e + ":" + f
  }

  lemma MacSplits(s: string)
    requires IsMac(s)
    ensures Pairs(s, s[0..2], s[3..5], s[6..8], s[9..11], s[12..14], s[15..17])
  {
    PairAt(s, 0);
    PairAt(s, 3);
    PairAt(s, 6);
    PairAt(s, 9);
    PairAt(s, 12);
    PairAt(s, 15);
  }

  lemma PairsJoin(s: string, a: string, b: string, c: string, d: string, e: string, f: string)
    requires Pairs(s, a, b, c, d, e, f)
    ensures IsMac(s)
  {
    PairsAreHex(a);
    PairsAreHex(b);
    PairsAreHex(c);
    PairsAreHex(d);
    PairsAreHex(e);
    PairsAreHex(f);
    assert s == [a[0], a[1], ':', b[0], b[1], ':', c[0], c[1], ':', d[0], d[1], ':', e[0], e[1], ':', f[0], f[1]];
  }

  lemma MacsArePairs(s: string)
    ensures IsMac(s) <==> exists a, b, c, d, e, f :: Pairs(s, a, b, c, d, e, f)
  {
    if IsMac(s) { MacSplits(s); }
    if a, b, c, d, e, f :| Pairs(s, a, b, c, d, e, f) { PairsJoin(s, a, b, c, d, e, f); }
  }

  lemma PairAt(s: string, i: nat)
    requires IsMac(s) && i % 3 == 0 && i < 17
    ensures IsPair(s[i..i + 2])
  {
    assert IsHex(s[i]) && IsHex(s[i + 1]);
  }

  lemma PairsAreHex(s: string)
    requires IsPair(s)
    ensures IsHex(s[0]) && IsHex(s[1])
  {
    assert s[0] in s && s[1] in s;
  }

  // ------------------------------------------------------------------ the console's own names

  function SkipLeft(s: string, over: set<char>): (r: string)
    ensures |r| <= |s|
  {
    if |s| > 0 && s[0] in over then SkipLeft(s[1..], over) else s
  }

  function SkipRight(s: string, over: set<char>): string {
    if |s| > 0 && s[|s| - 1] in over then SkipRight(s[..|s| - 1], over) else s
  }

  const DIGITS := {'0', '1', '2', '3', '4', '5', '6', '7', '8', '9'}

  /** "Outlet 3", give or take case, separators and surrounding spaces: an index, not a name. */
  predicate IsPlaceholder(name: string) {
    var word := SkipRight(SkipLeft(name, {' '}), {' '});
    && |word| > 6 && word[0] in {'O', 'o'} && word[1..6] == "utlet"
    && var number := SkipLeft(word[6..], {' ', '_', '-'});
       0 < |number| < |word| - 6 && SkipLeft(number, DIGITS) == ""
  }

  predicate AllIn(s: string, over: set<char>) { forall c | c in s :: c in over }

  lemma {:induction false} SkipLeftSkips(s: string, over: set<char>) returns (front: string)
    ensures s == front + SkipLeft(s, over) && AllIn(front, over)
  {
    if |s| > 0 && s[0] in over {
      var rest := SkipLeftSkips(s[1..], over);
      front := [s[0]] + rest;
      assert s == [s[0]] + s[1..];
    } else {
      front := "";
    }
  }

  lemma {:induction false} SkipLeftIs(front: string, rest: string, over: set<char>)
    requires AllIn(front, over) && (|rest| > 0 ==> rest[0] !in over)
    ensures SkipLeft(front + rest, over) == rest
  {
    if |front| == 0 {
      assert front + rest == rest;
    } else {
      assert front[0] in front && forall c | c in front[1..] :: c in front;
      SkipLeftIs(front[1..], rest, over);
      assert (front + rest)[1..] == front[1..] + rest;
    }
  }

  lemma {:induction false} SkipRightSkips(s: string, over: set<char>) returns (back: string)
    ensures s == SkipRight(s, over) + back && AllIn(back, over)
  {
    if |s| > 0 && s[|s| - 1] in over {
      var rest := SkipRightSkips(s[..|s| - 1], over);
      back := rest + [s[|s| - 1]];
      assert s == s[..|s| - 1] + [s[|s| - 1]];
    } else {
      back := "";
    }
  }

  lemma {:induction false} SkipRightIs(rest: string, back: string, over: set<char>)
    requires AllIn(back, over) && (|rest| > 0 ==> rest[|rest| - 1] !in over)
    ensures SkipRight(rest + back, over) == rest
  {
    if |back| == 0 {
      assert rest + back == rest;
    } else {
      var front := back[..|back| - 1];
      assert back[|back| - 1] in back && forall c | c in front :: c in back;
      SkipRightIs(rest, front, over);
      assert (rest + back)[..|rest + back| - 1] == rest + front;
    }
  }

  /** Spaces; "Outlet" or "outlet"; one or more of space, underscore and dash; one or more digits; spaces. */
  ghost predicate Reads(name: string, before: string, first: char, between: string, number: string, after: string) {
    && name == before + ([first] + "utlet" + between + number) + after
    && AllIn(before, {' '}) && (first == 'O' || first == 'o')
    && |between| > 0 && AllIn(between, {' ', '_', '-'})
    && |number| > 0 && (forall c | c in number :: '0' <= c <= '9') && AllIn(after, {' '})
  }

  lemma DigitsAre(c: char)
    ensures c in DIGITS <==> '0' <= c <= '9'
  {
  }

  lemma NumberReads(rest: string) returns (between: string, number: string)
    requires var after := SkipLeft(rest, {' ', '_', '-'}); 0 < |after| < |rest| && SkipLeft(after, DIGITS) == ""
    ensures rest == between + number && |between| > 0 && AllIn(between, {' ', '_', '-'})
    ensures |number| > 0 && forall c | c in number :: '0' <= c <= '9'
  {
    number := SkipLeft(rest, {' ', '_', '-'});
    between := SkipLeftSkips(rest, {' ', '_', '-'});
    var digits := SkipLeftSkips(number, DIGITS);
    assert digits + "" == digits;
    forall c | c in number ensures '0' <= c <= '9' { DigitsAre(c); }
  }

  lemma WordReads(word: string) returns (between: string, number: string)
    requires |word| > 6 && word[1..6] == "utlet"
    requires var after := SkipLeft(word[6..], {' ', '_', '-'});
      0 < |after| < |word| - 6 && SkipLeft(after, DIGITS) == ""
    ensures word == [word[0]] + "utlet" + between + number && |between| > 0 && AllIn(between, {' ', '_', '-'})
    ensures |number| > 0 && forall c | c in number :: '0' <= c <= '9'
  {
    between, number := NumberReads(word[6..]);
    assert word == [word[0]] + word[1..6] + word[6..];
  }

  lemma PlaceholderReads(name: string) returns (before: string, first: char, between: string, number: string,
                                                after: string)
    requires IsPlaceholder(name)
    ensures Reads(name, before, first, between, number, after)
  {
    var left := SkipLeft(name, {' '});
    var word := SkipRight(left, {' '});
    before := SkipLeftSkips(name, {' '});
    after := SkipRightSkips(left, {' '});
    first := word[0];
    between, number := WordReads(word);
    assert name == before + word + after;
  }

  lemma ReadsIsPlaceholder(name: string, before: string, first: char, between: string, number: string, after: string)
    requires Reads(name, before, first, between, number, after)
    ensures IsPlaceholder(name)
  {
    var word := [first] + "utlet" + between + number;
    assert name == before + (word + after) && word[0] == first && word[|word| - 1] in number;
    SkipLeftIs(before, word + after, {' '});
    SkipRightIs(word, after, {' '});
    assert word[1..6] == "utlet" && word[6..] == between + number;
    assert number[0] in number;
    SkipLeftIs(between, number, {' ', '_', '-'});
    forall c | c in number ensures c in DIGITS { DigitsAre(c); }
    assert number + "" == number;
    SkipLeftIs(number, "", DIGITS);
  }

  /** The names refused are those of that form, and no others. */
  lemma PlaceholdersAre(name: string)
    ensures IsPlaceholder(name) <==>
      exists before, first, between, number, after :: Reads(name, before, first, between, number, after)
  {
    if IsPlaceholder(name) {
      var before, first, between, number, after := PlaceholderReads(name);
    }
    if before, first, between, number, after :| Reads(name, before, first, between, number, after) {
      ReadsIsPlaceholder(name, before, first, between, number, after);
    }
  }

  // ----------------------------------------------------------------------------- reading

  /** The index of the first slash, or the length if there is none. */
  function FirstSlash(s: string): (i: nat)
    ensures i <= |s| && '/' !in s[..i] && (i < |s| ==> s[i] == '/')
  {
    if |s| == 0 || s[0] == '/' then 0
    else
      var rest := FirstSlash(s[1..]);
      assert s[..1 + rest] == [s[0]] + s[1..][..rest];
      1 + rest
  }

  /** strings.SplitN(s, "/", 3). */
  function SplitThree(s: string): seq<string> {
    var i := FirstSlash(s);
    if i == |s| then [s]
    else
      var rest := s[i + 1..];
      var j := FirstSlash(rest);
      if j == |rest| then [s[..i], rest] else [s[..i], rest[..j], rest[j + 1..]]
  }

  function Parse(entry: string): Parsed {
    var parts := SplitThree(TrimSpace(entry));
    if |parts| != 3 then Refused(NotThreeParts)
    else
      var mac := NormalizeMac(parts[0]);
      if !IsMac(mac) then Refused(NoMac)
      else
        var index := ParseInt32(TrimSpace(parts[1]));
        if index.None? || index.value < 1 then Refused(NoIndex)
        else
          var name := TrimSpace(parts[2]);
          if name == "" then Refused(NoName)
          else if IsPlaceholder(name) then Refused(Placeholder)
          else Accepted(OutletRef(mac, index.value, name))
  }

  /** A reference the policy can hold. */
  predicate Canonical(ref: OutletRef) {
    IsMac(ref.mac) && ref.index >= 1 && ref.name != "" && Trimmed(ref.name) && !IsPlaceholder(ref.name)
  }

  // ---------------------------------------------------------------------------- theorems

  lemma FirstSlashIs(front: string, back: string)
    requires '/' !in front
    ensures FirstSlash(front + "/" + back) == |front|
  {
    var s := front + "/" + back;
    var i := FirstSlash(s);
    assert s[|front|] == '/';
    assert forall k | 0 <= k < |front| :: s[k] == front[k] && front[k] in front;
    assert forall k | 0 <= k < i :: s[k] == s[..i][k] && s[..i][k] in s[..i];
  }

  lemma SplitOfPrint(mac: string, index: string, name: string)
    requires '/' !in mac && '/' !in index
    ensures SplitThree(mac + "/" + index + "/" + name) == [mac, index, name]
  {
    var s := mac + "/" + index + "/" + name;
    assert s == mac + "/" + (index + "/" + name);
    FirstSlashIs(mac, index + "/" + name);
    assert s[|mac| + 1..] == index + "/" + name && s[..|mac|] == mac;
    FirstSlashIs(index, name);
    assert (index + "/" + name)[|index| + 1..] == name && (index + "/" + name)[..|index|] == index;
  }

  lemma MacIsNormal(mac: string)
    requires IsMac(mac)
    ensures NormalizeMac(mac) == mac && '/' !in mac && !IsSpace(mac[0])
  {
    assert forall c | IsHex(c) || c == ':' :: !IsSpace(c) && NormalChar(c) == c && c != '/';
    TrimSpaceTrims(mac);
    assert forall i | 0 <= i < 17 :: IsHex(mac[i]) || mac[i] == ':';
  }

  lemma NormalCharIsNormal(c: char)
    ensures NormalChar(NormalChar(c)) == NormalChar(c) && (IsSpace(NormalChar(c)) <==> IsSpace(c))
  {
  }

  lemma NormalizedIsTrimmed(s: string)
    requires Trimmed(s)
    ensures Trimmed(Normalized(s))
  {
    if |s| > 0 {
      NormalCharIsNormal(s[0]);
      NormalCharIsNormal(s[|s| - 1]);
    }
  }

  /** However it was written, what is compared on is written one way only. */
  lemma NormalizingTwiceChangesNothing(mac: string)
    ensures NormalizeMac(NormalizeMac(mac)) == NormalizeMac(mac)
  {
    var trimmed := TrimSpace(mac);
    var once := Normalized(trimmed);
    TrimSpaceTrims(mac);
    NormalizedIsTrimmed(trimmed);
    TrimSpaceTrims(once);
    forall i | 0 <= i < |once| ensures Normalized(once)[i] == once[i] { NormalCharIsNormal(trimmed[i]); }
    assert Normalized(once) == once;
  }

  lemma NumberIsPlain(n: int32)
    requires n >= 1
    ensures var s := FormatInt(n); '/' !in s && |s| > 0 && TrimSpace(s) == s
  {
    var s := FormatInt(n);
    assert forall c | IsDigit(c) :: !IsSpace(c) && c != '/';
    assert s[0] in s && s[|s| - 1] in s;
    TrimSpaceTrims(s);
  }

  /** Every accepted entry names a reference in canonical form. */
  lemma AcceptedIsCanonical(entry: string)
    ensures Parse(entry).Accepted? ==> Canonical(Parse(entry).ref)
  {
    var parts := SplitThree(TrimSpace(entry));
    if |parts| == 3 { TrimSpaceTrims(parts[2]); }
  }

  lemma PrintIsTrimmed(ref: OutletRef)
    requires Canonical(ref)
    ensures TrimSpace(Print(ref)) == Print(ref)
  {
    var s := Print(ref);
    MacIsNormal(ref.mac);
    assert s[0] == ref.mac[0] && s[|s| - 1] == ref.name[|ref.name| - 1];
    TrimSpaceTrims(s);
  }

  /** Reading undoes printing for the canonical references and for no others. */
  lemma ParseUndoesPrint(ref: OutletRef)
    ensures Parse(Print(ref)) == Accepted(ref) <==> Canonical(ref)
  {
    AcceptedIsCanonical(Print(ref));
    if Canonical(ref) {
      PrintIsTrimmed(ref);
      MacIsNormal(ref.mac);
      NumberIsPlain(ref.index);
      SplitOfPrint(ref.mac, FormatInt(ref.index), ref.name);
      ParseUndoesFormat(ref.index);
      TrimSpaceTrims(ref.name);
    }
  }

  /** However an accepted entry was spelled, its printed form is accepted as the same reference. */
  lemma PrintedEntriesReadBack(entry: string)
    ensures Parse(entry).Accepted? ==> Parse(Print(Parse(entry).ref)) == Parse(entry)
  {
    AcceptedIsCanonical(entry);
    if Parse(entry).Accepted? { ParseUndoesPrint(Parse(entry).ref); }
  }

  /** The letters a to f and their capitals. */
  predicate SameLetter(written: char, plain: char) {
    written == plain || ('a' <= plain <= 'f' && written as int == plain as int - 'a' as int + 'A' as int)
  }

  /** Another way to write an address: capitals for letters, dashes or dots for colons. */
  predicate Spells(written: string, mac: string) {
    && |written| == |mac|
    && forall i | 0 <= i < |mac| ::
      if mac[i] == ':' then written[i] == ':' || written[i] == '-' || written[i] == '.'
      else SameLetter(written[i], mac[i])
  }

  lemma SpelledChar(written: char, plain: char)
    requires IsHex(plain) || plain == ':'
    requires if plain == ':' then written == ':' || written == '-' || written == '.' else SameLetter(written, plain)
    ensures NormalChar(written) == plain && !IsSpace(written) && written != '/'
  {
  }

  lemma SpellingsNormalize(written: string, mac: string)
    requires IsMac(mac) && Spells(written, mac)
    ensures NormalizeMac(written) == mac && Trimmed(written) && '/' !in written
  {
    forall i | 0 <= i < 17
      ensures NormalChar(written[i]) == mac[i] && !IsSpace(written[i]) && written[i] != '/'
    {
      SpelledChar(written[i], mac[i]);
    }
    TrimSpaceTrims(written);
    assert Normalized(written) == mac;
  }

  lemma EntryIsTrimmed(ref: OutletRef, written: string)
    requires Canonical(ref) && Trimmed(written) && |written| > 0
    ensures var s := written + "/" + FormatInt(ref.index) + "/" + ref.name; TrimSpace(s) == s
  {
    var s := written + "/" + FormatInt(ref.index) + "/" + ref.name;
    assert s[0] == written[0] && s[|s| - 1] == ref.name[|ref.name| - 1];
    TrimSpaceTrims(s);
  }

  /** However the address of a canonical reference is spelled, the entry is accepted as that reference. */
  lemma AnySpellingIsAccepted(ref: OutletRef, written: string)
    requires Canonical(ref) && Spells(written, ref.mac)
    ensures Parse(written + "/" + FormatInt(ref.index) + "/" + ref.name) == Accepted(ref)
  {
    SpellingsNormalize(written, ref.mac);
    EntryIsTrimmed(ref, written);
    NumberIsPlain(ref.index);
    SplitOfPrint(written, FormatInt(ref.index), ref.name);
    ParseUndoesFormat(ref.index);
    TrimSpaceTrims(ref.name);
  }

  /** Three parts with slashes between: an address however spelled, a positive number, and a name of its own. */
  ghost predicate EntryReads(entry: string, mac: string, index: string, name: string, ref: OutletRef) {
    && TrimSpace(entry) == mac + "/" + index + "/" + name && '/' !in mac && '/' !in index
    && NormalizeMac(mac) == ref.mac && IsMac(ref.mac)
    && ParseInt32(TrimSpace(index)) == Some(ref.index) && ref.index > 0
    && TrimSpace(name) == ref.name && |ref.name| > 0 && !IsPlaceholder(ref.name)
  }

  lemma SlashJoins(s: string, i: nat)
    requires i < |s| && s[i] == '/'
    ensures s == s[..i] + "/" + s[i + 1..]
  {
    assert s[i..] == "/" + s[i + 1..];
  }

  lemma SplitJoins(s: string)
    requires |SplitThree(s)| == 3
    ensures var parts := SplitThree(s);
      s == parts[0] + "/" + parts[1] + "/" + parts[2] && '/' !in parts[0] && '/' !in parts[1]
  {
    var parts, rest := SplitThree(s), s[FirstSlash(s) + 1..];
    SlashJoins(s, FirstSlash(s));
    SlashJoins(rest, FirstSlash(rest));
    JoinAssociates(parts[0], parts[1], parts[2]);
    assert s == parts[0] + "/" + rest && rest == parts[1] + "/" + parts[2];
  }

  lemma JoinAssociates(a: string, b: string, c: string)
    ensures a + "/" + (b + "/" + c) == a + "/" + b + "/" + c
  {
  }

  /** The entries accepted are those, and each as the reference it reads as. */
  lemma EntriesAre(entry: string, ref: OutletRef)
    ensures Parse(entry) == Accepted(ref) <==> exists mac, index, name :: EntryReads(entry, mac, index, name, ref)
  {
    var parts := SplitThree(TrimSpace(entry));
    if Parse(entry) == Accepted(ref) {
      SplitJoins(TrimSpace(entry));
      assert EntryReads(entry, parts[0], parts[1], parts[2], ref);
    }
    if mac, index, name :| EntryReads(entry, mac, index, name, ref) { SplitOfPrint(mac, index, name); }
  }
}
