/** internal/providers/unifi/write.go:897-1037: searching and rewriting documents the console answers with. */
module ConsoleDocuments {
  import opened Text

  /** A decoded JSON document. */
  datatype Json =
    | Null
    | Bool(flag: bool)
    | Num(number: real)
    | Str(text: string)
    | Arr(items: seq<Json>)
    | Obj(fields: Object)

  type Object = map<string, Json>

  const INDEX := "index"
  const NAME := "name"
  const RELAY_STATE := "relay_state"

  function Field(o: Object, name: string): Json { if name in o then o[name] else Null }

  // ---------------------------------------------------------------------------- indexes

  function Truncated(x: real): int { if x >= 0.0 then x.Floor else -((-x).Floor) }

  /**
   * A number read as an int32, its fraction dropped. Go leaves the conversion of a number out of range
   * to the platform; `platform` is whatever that is.
   */
  function DecodeIndex(value: Json, platform: real -> int32): Option<int32> {
    if !value.Num? then None
    else if -0x8000_0000 <= Truncated(value.number) < 0x8000_0000 then Some(Truncated(value.number))
    else Some(platform(value.number))
  }

  predicate Indexed(entry: Json, field: string, want: int32, platform: real -> int32) {
    entry.Obj? && DecodeIndex(Field(entry.fields, field), platform) == Some(want)
  }

  ghost predicate FirstIndexed(items: seq<Json>, i: nat, field: string, want: int32, platform: real -> int32) {
    && i < |items| && Indexed(items[i], field, want, platform)
    && forall j | 0 <= j < i :: !Indexed(items[j], field, want, platform)
  }

  method ObjectByIndex(table: Json, field: string, want: int32, platform: real -> int32) returns (found: Option<Object>)
    ensures found.Some? <==>
      table.Arr? && exists i :: 0 <= i < |table.items| && Indexed(table.items[i], field, want, platform)
    ensures found.Some? ==>
      exists i: nat :: FirstIndexed(table.items, i, field, want, platform) && table.items[i] == Obj(found.value)
  {
    if !table.Arr? { return None; }
    for i := 0 to |table.items|
      invariant forall j | 0 <= j < i :: !Indexed(table.items[j], field, want, platform)
    {
      var entry := table.items[i];
      if !entry.Obj? { continue; }
      var index := DecodeIndex(Field(entry.fields, field), platform);
      if index == Some(want) {
        assert FirstIndexed(table.items, i, field, want, platform);
        return Some(entry.fields);
      }
    }
    return None;
  }

  // ---------------------------------------------------------------------------- rewriting

  /** The outlet an action addresses. */
  datatype Outlet = Outlet(index: int32, name: string)

  datatype Fault = NoOverrides | NotAnOutlet | NoIndex | NamesDisagree | NotAddressed

  datatype Rewrite = Rewritten(items: seq<Json>) | Refused(why: Fault)

  /** What stops an entry from being understood, if anything does. */
  function FaultOf(entry: Json, spec: Outlet, platform: real -> int32): Option<Fault> {
    if !entry.Obj? then Some(NotAnOutlet)
    else if DecodeIndex(Field(entry.fields, INDEX), platform).None? then Some(NoIndex)
    else if Indexed(entry, INDEX, spec.index, platform)
         && Field(entry.fields, NAME).Str? && Field(entry.fields, NAME).text != spec.name then Some(NamesDisagree)
    else None
  }

  predicate Addressed(items: seq<Json>, spec: Outlet, platform: real -> int32) {
    exists i :: 0 <= i < |items| && Indexed(items[i], INDEX, spec.index, platform)
  }

  predicate Understood(items: seq<Json>, spec: Outlet, platform: real -> int32) {
    forall i | 0 <= i < |items| :: FaultOf(items[i], spec, platform).None?
  }

  /** The entry as it is sent back: as reported, but for the relay of the one addressed. */
  function Switched(entry: Json, spec: Outlet, want: bool, platform: real -> int32): Json {
    if Indexed(entry, INDEX, spec.index, platform) then Obj(entry.fields[RELAY_STATE := Bool(want)]) else entry
  }

  function AllSwitched(items: seq<Json>, spec: Outlet, want: bool, platform: real -> int32): (r: seq<Json>)
    ensures |r| == |items|
  {
    seq(|items|, i requires 0 <= i < |items| => Switched(items[i], spec, want, platform))
  }

  /** The reason given is that of the first entry that is not understood. */
  ghost predicate FirstFault(items: seq<Json>, spec: Outlet, why: Fault, platform: real -> int32) {
    exists i ::
      0 <= i < |items| && FaultOf(items[i], spec, platform) == Some(why) && Understood(items[..i], spec, platform)
  }

  method RewriteOutletOverrides(raw: Json, spec: Outlet, want: bool, platform: real -> int32) returns (r: Rewrite)
    ensures r.Rewritten? <==>
      raw.Arr? && Understood(raw.items, spec, platform) && Addressed(raw.items, spec, platform)
    ensures r.Rewritten? ==> r.items == AllSwitched(raw.items, spec, want, platform)
    ensures r.Refused? ==>
      match r.why
      case NoOverrides => !raw.Arr? || raw.items == []
      case NotAddressed =>
        raw.Arr? && raw.items != [] && Understood(raw.items, spec, platform) && !Addressed(raw.items, spec, platform)
      case why => raw.Arr? && FirstFault(raw.items, spec, why, platform)
  {
    if !raw.Arr? || |raw.items| == 0 { return Refused(NoOverrides); }
    var entries := raw.items;
    var rewritten: seq<Json> := [];
    var addressed := false;
    for i := 0 to |entries|
      invariant |rewritten| == i && Understood(entries[..i], spec, platform)
      invariant forall k | 0 <= k < i :: rewritten[k] == Switched(entries[k], spec, want, platform)
      invariant addressed <==> exists k :: 0 <= k < i && Indexed(entries[k], INDEX, spec.index, platform)
    {
      var entry := entries[i];
      if !entry.Obj? {
        return Refused(NotAnOutlet);
      }
      var index := DecodeIndex(Field(entry.fields, INDEX), platform);
      if index.None? {
        return Refused(NoIndex);
      }
      var next := entry.fields;
      if index.value == spec.index {
        var name := Field(entry.fields, NAME);
        if name.Str? && name.text != spec.name {
          return Refused(NamesDisagree);
        }
        next := next[RELAY_STATE := Bool(want)];
        addressed := true;
      }
      rewritten := rewritten + [Obj(next)];
    }
    assert entries[..|entries|] == entries;
    r := if addressed then Rewritten(rewritten) else Refused(NotAddressed);
  }

  lemma FieldsDiffer()
    ensures RELAY_STATE != INDEX && RELAY_STATE != NAME
  {
    assert |RELAY_STATE| == 11 && |INDEX| == 5 && |NAME| == 4;
  }

  /** Rewriting an entry does not change whether it is understood or addressed, and is undone by doing it again. */
  lemma EntrySwitchesAgain(entry: Json, spec: Outlet, first: bool, want: bool, platform: real -> int32)
    ensures FaultOf(Switched(entry, spec, first, platform), spec, platform) == FaultOf(entry, spec, platform)
    ensures Indexed(Switched(entry, spec, first, platform), INDEX, spec.index, platform) ==
      Indexed(entry, INDEX, spec.index, platform)
    ensures Switched(Switched(entry, spec, first, platform), spec, want, platform) ==
      Switched(entry, spec, want, platform)
  {
    FieldsDiffer();
    if Indexed(entry, INDEX, spec.index, platform) {
      var fields := entry.fields;
      assert fields[RELAY_STATE := Bool(first)][RELAY_STATE := Bool(want)] == fields[RELAY_STATE := Bool(want)];
    }
  }

  /**
   * A document that was rewritten can be rewritten again: it is refused exactly when the one it came
   * from would be, for the same reason, and only the last position asked for shows.
   */
  lemma LastPositionWins(items: seq<Json>, spec: Outlet, first: bool, want: bool, platform: real -> int32)
    ensures var sent := AllSwitched(items, spec, first, platform);
      && (Understood(sent, spec, platform) <==> Understood(items, spec, platform))
      && (Addressed(sent, spec, platform) <==> Addressed(items, spec, platform))
      && (forall why :: FirstFault(sent, spec, why, platform) <==> FirstFault(items, spec, why, platform))
      && AllSwitched(sent, spec, want, platform) == AllSwitched(items, spec, want, platform)
  {
    var sent := AllSwitched(items, spec, first, platform);
    forall i | 0 <= i < |items|
      ensures FaultOf(sent[i], spec, platform) == FaultOf(items[i], spec, platform)
      ensures Indexed(sent[i], INDEX, spec.index, platform) == Indexed(items[i], INDEX, spec.index, platform)
      ensures Switched(sent[i], spec, want, platform) == Switched(items[i], spec, want, platform)
    {
      EntrySwitchesAgain(items[i], spec, first, want, platform);
    }
    forall i | 0 <= i <= |items|
      ensures Understood(sent[..i], spec, platform) == Understood(items[..i], spec, platform)
    {
      assert forall k | 0 <= k < i :: sent[..i][k] == sent[k] && items[..i][k] == items[k];
    }
    assert sent[..|items|] == sent && items[..|items|] == items;
  }

  /** Everything an entry says about its outlet, its relay apart, is sent back as it was reported. */
  lemma OnlyTheRelayChanges(entry: Json, spec: Outlet, want: bool, platform: real -> int32)
    ensures var sent := Switched(entry, spec, want, platform);
      if Indexed(entry, INDEX, spec.index, platform)
      then sent.Obj? && sent.fields - {RELAY_STATE} == entry.fields - {RELAY_STATE}
           && Field(sent.fields, RELAY_STATE) == Bool(want)
      else sent == entry
  {
  }

  // ------------------------------------------------------------------- what an entry says

  /** A number in range stands for the whole number it comes to when its fraction is dropped. */
  lemma IndexIsWhole(x: real, n: int32, platform: real -> int32)
    requires -2147483649.0 < x < 2147483648.0
    ensures DecodeIndex(Num(x), platform) == Some(n) <==>
      if x >= 0.0 then n as real <= x < n as real + 1.0 else n as real - 1.0 < x <= n as real
  {
    if x < 0.0 {
      var up := (-x).Floor;
      assert up as real <= -x < up as real + 1.0;
    }
  }

  /** So a whole number is addressed by itself and nothing else. */
  lemma WholeNumberIsItself(n: int32, want: int32, fields: Object, platform: real -> int32)
    requires "index" in fields && fields["index"] == Num(n as real)
    ensures Indexed(Obj(fields), "index", want, platform) <==> n == want
  {
    IndexIsWhole(n as real, want, platform);
  }

  /** The outlet the entry is at: a number under `index`, in range or as the platform has it. */
  predicate At(entry: Json, index: int32, platform: real -> int32) {
    && entry.Obj? && "index" in entry.fields && entry.fields["index"].Num?
    && DecodeIndex(entry.fields["index"], platform) == Some(index)
  }

  /**
   * What is wrong with an entry: it is no object; it has no number for an index; or it is the one
   * addressed and has a name, which is another. Otherwise it is sent back, and only if it is the one
   * addressed with its relay set.
   */
  lemma EntriesMean(entry: Json, spec: Outlet, want: bool, platform: real -> int32)
    ensures var fault := FaultOf(entry, spec, platform);
      && (fault == Some(NotAnOutlet) <==> !entry.Obj?)
      && (fault == Some(NoIndex) <==> entry.Obj? && !("index" in entry.fields && entry.fields["index"].Num?))
      && (fault == Some(NamesDisagree) <==>
            && At(entry, spec.index, platform) && "name" in entry.fields && entry.fields["name"].Str?
            && entry.fields["name"] != Str(spec.name))
      && fault != Some(NoOverrides) && fault != Some(NotAddressed)
    ensures Switched(entry, spec, want, platform) ==
      if At(entry, spec.index, platform) then Obj(entry.fields["relay_state" := Bool(want)]) else entry
  {
  }

  // ---------------------------------------------------------------------------- searching

  /** `o` is an object somewhere in the document. */
  ghost predicate Contains(doc: Json, o: Object) {
    match doc
    case Arr(items) => exists i :: 0 <= i < |items| && Contains(items[i], o)
    case Obj(fields) => fields == o || exists k :: k in fields && Contains(fields[k], o)
    case _ => false
  }

  predicate HasKeys(o: Object, keys: seq<string>) { forall i | 0 <= i < |keys| :: keys[i] in o }

  predicate Qualifies(o: Object, key: string, want: string, required: seq<string>) {
    Field(o, key) == Str(want) && HasKeys(o, required)
  }

  /** The member holds the text, and every required member is there. */
  lemma QualifiesMeans(o: Object, key: string, want: string, required: seq<string>)
    ensures Qualifies(o, key, want, required) <==>
      key in o && o[key] == Str(want) && forall name | name in required :: name in o
  {
    if HasKeys(o, required) {
      forall name | name in required ensures name in o { var i :| 0 <= i < |required| && required[i] == name; }
    }
  }

  /** Depth first, the members of an object in any order. */
  method FindObjectWith(doc: Json, key: string, want: string, required: seq<string>) returns (found: Option<Object>)
    ensures found.Some? <==> exists o :: Contains(doc, o) && Qualifies(o, key, want, required)
    ensures found.Some? ==> Contains(doc, found.value) && Qualifies(found.value, key, want, required)
    decreases doc
  {
    match doc
    case Arr(items) =>
      for i := 0 to |items|
        invariant forall j, o | 0 <= j < i && Contains(items[j], o) :: !Qualifies(o, key, want, required)
      {
        found := FindObjectWith(items[i], key, want, required);
        if found.Some? { return; }
      }
      return None;
    case Obj(fields) =>
      if Qualifies(fields, key, want, required) { return Some(fields); }
      var left := fields.Keys;
      while left != {}
        invariant left <= fields.Keys
        invariant forall k, o | k in fields && k !in left && Contains(fields[k], o) ::
          !Qualifies(o, key, want, required)
        decreases left
      {
        var k :| k in left;
        found := FindObjectWith(fields[k], key, want, required);
        if found.Some? { return; }
        left := left - {k};
      }
      return None;
    case _ => return None;
  }
}
