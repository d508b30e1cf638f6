/**
 * internal/controller/arbitration.go:752-948 and internal/controller/targets.go:224-347: claiming and
 * releasing one target through an API server that may refuse, drop or ambiguously fail any call.
 */
module ClaimProtocol {
  import opened Text
  import opened TargetKinds
  import opened ApiServer

  /** What happens to a call besides what it asks for: nothing, it is lost, or only its answer is. */
  datatype Fault = Deliver | Drop | LoseAnswer

  datatype Failure = Conflict | Unavailable

  datatype Outcome = Ok | Failed(why: Failure)

  // --------------------------------------------------------- effects, as functions

  /** The annotations a claim leaves: a baseline only if none is recorded, the claimants always. */
  function ClaimAnnotations(kind: Kind, s: Server, claimedBy: string, now: string): map<string, string>
    requires Handled(kind)
  {
    if Recorded(kind, s) then s.annotations[CLAIMED_BY := claimedBy]
    else s.annotations[CLAIMED_BY := claimedBy]
                      [BaselineKey(kind) := Format(kind, s.level)]
                      [CLAIMED_AT := now]
  }

  function Claimed(kind: Kind, s: Server, claimedBy: string, now: string): Server
    requires Handled(kind)
  {
    Store(s, s.level, ClaimAnnotations(kind, s, claimedBy, now))
  }

  function Levelled(kind: Kind, s: Server, level: int): Server {
    PatchLevel(s, Written(kind, level))
  }

  function Cleared(s: Server): Server {
    Store(s, s.level, s.annotations - CLAIM_ANNOTATIONS)
  }

  function Restored(kind: Kind, s: Server, level: Option<int>): Server {
    if level.None? then s else Levelled(kind, s, level.value)
  }

  /** A claim moves the server through these states and may stop after any call. */
  ghost predicate ClaimReaches(kind: Kind, before: Server, level: int, claimedBy: string, now: string,
                               after: Server, outcome: Outcome)
    requires Handled(kind)
  {
    var recorded := Claimed(kind, before, claimedBy, now);
    var held := Levelled(kind, recorded, level);
    && (after == before || after == recorded || after == held)
    && (outcome.Ok? ==> after == held)
  }

  /** So does a release, in the other order: level first, annotations last. */
  ghost predicate ReleaseReaches(kind: Kind, before: Server, level: Option<int>, after: Server, outcome: Outcome) {
    var restored := Restored(kind, before, level);
    && (after == before || after == restored || after == Cleared(restored))
    && (outcome.Ok? ==> after == Cleared(restored))
  }

  // -------------------------------------------------------------------- the calls

  /** The caller's unstructured copy of the target. */
  class Target {
    var copy: Server

    constructor ()
    {
      copy := Server(0, map[], 0);
    }
  }

  /** What a merge patch between two copies does to the object: annotations, and the level if it differs. */
  function Patched(s: Server, before: Server, after: Server): Server {
    Store(s, if before.level == after.level then s.level else after.level,
          Merge(s.annotations, Diff(before.annotations, after.annotations)))
  }

  class Api {
    var server: Server
    var faults: seq<Fault>
    ghost var refusals: nat  // calls that did not come back with an answer

    constructor (server: Server, faults: seq<Fault>)
      ensures this.server == server && this.faults == faults
    {
      this.server := server;
      this.faults := faults;
      this.refusals := 0;
    }

    /** One more call that failed, or not. */
    twostate predicate CountsCall(failed: bool)
      reads this
    {
      refusals == old(refusals) + if failed then 1 else 0
    }

    method NextFault() returns (fault: Fault)
      modifies this`faults
      ensures old(faults) == [] ==> fault == Deliver && faults == []
    {
      if |faults| == 0 { return Deliver; }
      fault := faults[0];
      faults := faults[1..];
    }

    method Get(target: Target) returns (outcome: Outcome)
      modifies this`faults, this`refusals, target
      ensures CountsCall(outcome.Failed?)
      ensures outcome.Ok? ==> target.copy == server
      ensures outcome.Failed? ==> outcome.why == Unavailable && target.copy == old(target.copy)
      ensures old(faults) == [] ==> outcome.Ok? && faults == []
    {
      var fault := NextFault();
      if fault != Deliver { refusals := refusals + 1; return Failed(Unavailable); }
      target.copy := server;
      outcome := Ok;
    }

    /** The scale subresource: a level, and the version it was read at. */
    method GetScale() returns (outcome: Outcome, level: int, version: nat)
      modifies this`faults, this`refusals
      ensures CountsCall(outcome.Failed?)
      ensures outcome.Ok? ==> level == server.level && version == server.version
      ensures old(faults) == [] ==> outcome.Ok? && faults == []
    {
      var fault := NextFault();
      level, version := server.level, server.version;
      outcome := if fault == Deliver then Ok else Failed(Unavailable);
      if outcome.Failed? { refusals := refusals + 1; }
    }

    /** An update of the scale is refused when the object moved since the scale was read. */
    method UpdateScale(level: int, version: nat) returns (outcome: Outcome)
      modifies this
      ensures CountsCall(outcome.Failed?)
      ensures server == old(server) || (old(server).version == version && server == PatchLevel(old(server), level))
      ensures outcome.Ok? ==> old(server).version == version && server == PatchLevel(old(server), level)
      ensures old(faults) == [] && old(server).version == version ==> outcome.Ok? && faults == []
    {
      var fault := NextFault();
      if fault == Drop {
        outcome := Failed(Unavailable);
      } else if server.version != version {
        outcome := Failed(Conflict);
      } else {
        server := PatchLevel(server, level);
        outcome := if fault == Deliver then Ok else Failed(Unavailable);
      }
      if outcome.Failed? { refusals := refusals + 1; }
    }

    /** Sends the difference between `before` and the target; on success the target is the answer. */
    method PatchTarget(target: Target, before: Server, guard: bool) returns (outcome: Outcome)
      modifies this, target
      ensures CountsCall(outcome.Failed?)
      ensures server == old(server) || server == Patched(old(server), before, old(target.copy))
      ensures guard && before.version != old(server).version ==> server == old(server) && outcome.Failed?
      ensures outcome.Ok? ==> server == Patched(old(server), before, old(target.copy)) && target.copy == server
      ensures outcome == Failed(Conflict) ==> guard && before.version != old(server).version
      ensures old(faults) == [] && outcome.Failed? ==> outcome.why == Conflict
      ensures outcome.Failed? ==> target.copy == old(target.copy)
      ensures old(faults) == [] ==> faults == [] && (outcome.Ok? || (guard && before.version != old(server).version))
    {
      var fault := NextFault();
      if fault == Drop {
        outcome := Failed(Unavailable);
      } else if guard && before.version != server.version {
        outcome := Failed(Conflict);
      } else {
        server := Patched(server, before, target.copy);
        outcome := if fault == LoseAnswer then Failed(Unavailable) else Ok;
      }
      if outcome.Failed? { refusals := refusals + 1; } else { target.copy := server; }
    }
  }

  // ------------------------------------------------------------------- the handlers

  method ReadLevel(api: Api, kind: Kind, target: Target) returns (outcome: Outcome, level: int)
    modifies api`faults, api`refusals
    ensures outcome.Ok? ==> level == if Scalable(kind) then api.server.level else target.copy.level
    ensures outcome.Failed? ==> outcome.why == Unavailable
    ensures old(api.faults) == [] ==> outcome.Ok? && api.faults == []
  {
    if !Scalable(kind) { return Ok, target.copy.level; }
    var version;
    outcome, level, version := api.GetScale();
    if outcome.Failed? { outcome := Failed(Unavailable); }
  }

  /** A count is read afresh before it is written; a switch that already stands right in the copy is left. */
  predicate Satisfied(kind: Kind, copy: Server, level: int) {
    !Scalable(kind) && copy.level == Written(kind, level)
  }

  function Applied(kind: Kind, copy: Server, s: Server, level: int): Server {
    if Satisfied(kind, copy, level) then s else Levelled(kind, s, level)
  }

  /** However old the copy, only the level moves, and on success it is where the copy says it should be. */
  method ApplyLevel(api: Api, kind: Kind, target: Target, level: int) returns (outcome: Outcome, written: bool)
    modifies api, target
    ensures api.server == old(api.server) || api.server == Applied(kind, old(target.copy), old(api.server), level)
    ensures outcome.Ok? ==> api.server == Applied(kind, old(target.copy), old(api.server), level)
    ensures outcome.Ok? ==>
      (target.copy ==
       if Scalable(kind) || Satisfied(kind, old(target.copy), level) then old(target.copy) else api.server)
    ensures outcome.Ok? && (Scalable(kind) || old(target.copy) == old(api.server)) ==>
      (written <==> api.server != old(api.server))
    ensures outcome.Failed? ==> !written
    ensures api.CountsCall(outcome.Failed?)
    ensures old(api.faults) == [] ==> outcome.Ok? && api.faults == []
  {
    if Scalable(kind) {
      var current, version;
      outcome, current, version := api.GetScale();
      if outcome.Failed? { return outcome, false; }
      if current == level { return Ok, false; }
      outcome := api.UpdateScale(level, version);
      return outcome, outcome.Ok?;
    }
    var want := Written(kind, level);
    if target.copy.level == want { return Ok, false; }
    var before := target.copy;
    target.copy := before.(level := want);
    SameMapsPatchNothing(before.annotations, api.server.annotations);
    outcome := api.PatchTarget(target, before, false);
    written := outcome.Ok?;
  }

  lemma SameMapsPatchNothing(copy: map<string, string>, server: map<string, string>)
    ensures Merge(server, Diff(copy, copy)) == server
  {
  }

  // --------------------------------------------------------------------- the claim

  /** The claimants set, and nothing else. */
  function ClaimantsSet(s: Server, claimedBy: string): Server {
    Store(s, s.level, s.annotations[CLAIMED_BY := claimedBy])
  }

  /** A copy that shows a baseline the target no longer has: the one thing the lock does not cover. */
  predicate Misled(kind: Kind, copy: Server, s: Server)
    requires Handled(kind)
  {
    Recorded(kind, copy) && !Recorded(kind, s)
  }

  /** Adds or updates the wanted annotations and touches no other; writes nothing if nothing differs. */
  method SetAnnotations(api: Api, target: Target, want: map<string, string>, guard: bool)
    returns (outcome: Outcome, changed: bool)
    modifies api, target
    ensures var copy := old(target.copy);
      var sent := PatchAnnotations(old(api.server), Diff(copy.annotations, copy.annotations + want));
      && (api.server == old(api.server) || api.server == sent)
      && (outcome.Ok? && !changed ==> api.server == old(api.server) && target.copy == copy
                                      && copy.annotations + want == copy.annotations)
      && (outcome.Ok? && changed ==> api.server == sent && target.copy == sent
                                     && copy.annotations + want != copy.annotations)
      && (guard && copy.annotations + want != copy.annotations && copy.version != old(api.server.version) ==>
            api.server == old(api.server) && outcome.Failed?)
      && (outcome == Failed(Conflict) ==> api.server == old(api.server))
    ensures old(api.faults) == [] ==>
      api.faults == [] && (outcome.Ok? || (guard && old(target.copy).version != old(api.server.version)))
    ensures old(api.faults) == [] && outcome.Failed? ==> outcome.why == Conflict
    ensures outcome.Failed? ==> !changed
  {
    var before := target.copy;
    var next := before.annotations + want;
    if next == before.annotations {
      return Ok, false;
    }
    target.copy := before.(annotations := next);
    outcome := api.PatchTarget(target, before, guard);
    changed := outcome.Ok?;
  }

  /** A claim's patch from a copy with a baseline in it can only set the claimants. */
  lemma ClaimantsPatch(kind: Kind, copy: Server, s: Server, claimedBy: string, now: string)
    requires Handled(kind)
    ensures var sent := PatchAnnotations(s, Diff(copy.annotations, copy.annotations + map[CLAIMED_BY := claimedBy]));
      && (sent == s || sent == ClaimantsSet(s, claimedBy))
      && (copy == s ==> sent == ClaimantsSet(s, claimedBy))
    ensures Recorded(kind, s) ==> ClaimantsSet(s, claimedBy) == Claimed(kind, s, claimedBy, now)
  {
    var want := copy.annotations + map[CLAIMED_BY := claimedBy];
    var merged := Merge(s.annotations, Diff(copy.annotations, want));
    if CLAIMED_BY in copy.annotations && copy.annotations[CLAIMED_BY] == claimedBy {
      assert want == copy.annotations;
      SameMapsPatchNothing(copy.annotations, s.annotations);
      if copy == s { assert s.annotations[CLAIMED_BY := claimedBy] == s.annotations; }
    } else {
      assert merged == s.annotations[CLAIMED_BY := claimedBy];
    }
  }

  function BaselineAnnotations(kind: Kind, level: int, claimedBy: string, now: string): map<string, string>
    requires Handled(kind)
  {
    map[CLAIMED_BY := claimedBy][BaselineKey(kind) := Format(kind, level)][CLAIMED_AT := now]
  }

  /** The first claim's patch, from an exact copy, records exactly the level the object has. */
  lemma BaselinePatch(kind: Kind, s: Server, claimedBy: string, now: string)
    requires Handled(kind) && !Recorded(kind, s)
    ensures var want := s.annotations + BaselineAnnotations(kind, s.level, claimedBy, now);
      want != s.annotations && PatchAnnotations(s, Diff(s.annotations, want)) == Claimed(kind, s, claimedBy, now)
  {
    var want := s.annotations + BaselineAnnotations(kind, s.level, claimedBy, now);
    PatchFromExactCopy(s.annotations, want);
    ThreeUpdates(s.annotations, CLAIMED_BY, claimedBy, BaselineKey(kind), Format(kind, s.level), CLAIMED_AT, now);
    assert BaselineKey(kind) in want;
  }

  lemma ThreeUpdates(m: map<string, string>, a: string, x: string, b: string, y: string, c: string, z: string)
    ensures m + map[a := x][b := y][c := z] == m[a := x][b := y][c := z]
    ensures b in m[a := x][b := y][c := z]
  {
  }

  /**
   * Writes the claim annotations, with the baseline if the caller's copy shows none. Whatever the
   * age of that copy, a baseline is recorded only from the level the object has at the write, and
   * never over another one; and success leaves one recorded unless the copy was misled.
   */
  method RecordClaim(api: Api, kind: Kind, target: Target, claimedBy: string, now: string)
    returns (outcome: Outcome, changed: bool)
    requires Handled(kind) && NoNewer(target.copy, api.server)
    modifies api, target
    ensures api.server == old(api.server)
      || api.server == if Recorded(kind, old(target.copy)) then ClaimantsSet(old(api.server), claimedBy)
                       else Claimed(kind, old(api.server), claimedBy, now)
    ensures outcome.Ok? ==> (Recorded(kind, api.server) <==> !Misled(kind, old(target.copy), old(api.server)))
    ensures outcome.Ok? && (old(target.copy) == old(api.server) || !Recorded(kind, old(target.copy))) ==>
      && api.server == Claimed(kind, old(api.server), claimedBy, now) && target.copy == api.server
      && (changed <==> api.server != old(api.server))
    ensures outcome.Failed? ==> !changed
    ensures old(api.faults) == [] ==> outcome.Ok? && api.faults == []
  {
    ghost var was, copied := api.server, target.copy;
    for attempt := 0 to 2
      invariant api.server == was
      invariant target.copy == if attempt == 0 then copied else was
      invariant attempt > 0 ==> !Recorded(kind, copied)
      invariant old(api.faults) == [] ==> api.faults == [] && attempt < 2
    {
      var recorded := Recorded(kind, target.copy);
      var annotations := map[CLAIMED_BY := claimedBy];
      if !recorded {
        var found;
        outcome, found := ReadLevel(api, kind, target);
        if outcome.Failed? { return outcome, false; }
        annotations := BaselineAnnotations(kind, found, claimedBy, now);
        assert BaselineKey(kind) in target.copy.annotations + annotations;
        if target.copy.version == was.version { BaselinePatch(kind, was, claimedBy, now); }
      } else {
        ClaimantsPatch(kind, target.copy, was, claimedBy, now);
      }
      outcome, changed := SetAnnotations(api, target, annotations, !recorded);
      if outcome.Ok? { return; }
      if recorded || outcome.why != Conflict || attempt > 0 { return; }
      outcome := api.Get(target);
      if outcome.Failed? { return outcome, false; }
    }
    return Failed(Conflict), false;
  }

  /** A recorded baseline is kept, and a new one is the level just found. */
  ghost predicate KeepsBaseline(kind: Kind, s: Server, t: Server)
    requires Handled(kind)
  {
    && (Recorded(kind, s) ==> Recorded(kind, t) && t.annotations[BaselineKey(kind)] == s.annotations[BaselineKey(kind)])
    && (!Recorded(kind, s) && Recorded(kind, t) ==> t.annotations[BaselineKey(kind)] == Format(kind, s.level))
  }

  /**
   * Annotations first, then the level: see ClaimReaches. From a copy of any age the baseline is kept
   * or recorded, and the level moves only under it unless the copy was misled.
   */
  method ClaimTarget(api: Api, kind: Kind, target: Target, level: int, claimedBy: string, now: string)
    returns (outcome: Outcome, changed: bool)
    requires Handled(kind) && NoNewer(target.copy, api.server)
    modifies api, target
    ensures KeepsBaseline(kind, old(api.server), api.server)
    ensures api.server.level == old(api.server.level) || api.server.level == Written(kind, level)
    ensures api.server.level != old(api.server.level) ==>
      (Recorded(kind, api.server) <==> !Misled(kind, old(target.copy), old(api.server)))
    ensures old(target.copy) == old(api.server) ==>
      && ClaimReaches(kind, old(api.server), level, claimedBy, now, api.server, outcome)
      && (changed ==> api.server != old(api.server)) && (outcome.Ok? && api.server != old(api.server) ==> changed)
    ensures old(api.faults) == [] ==> outcome.Ok?
  {
    outcome, changed := RecordClaim(api, kind, target, claimedBy, now);
    if outcome.Failed? { return; }
    var written;
    ghost var recorded := api.server;
    outcome, written := ApplyLevel(api, kind, target, level);
    assert recorded.version >= old(api.server).version && api.server.version >= recorded.version;
    changed := changed || written;
  }

  /** What a release takes off: the claim annotations the caller's copy shows, from whatever is there. */
  function ClearedOf(s: Server, shown: map<string, string>): Server {
    Store(s, s.level, s.annotations - (CLAIM_ANNOTATIONS * shown.Keys))
  }

  lemma ClearsWhatIsShown(copy: map<string, string>, s: Server)
    ensures PatchAnnotations(s, Diff(copy, copy - CLAIM_ANNOTATIONS)) == ClearedOf(s, copy)
    ensures copy == s.annotations ==> ClearedOf(s, copy) == Cleared(s)
    ensures copy - CLAIM_ANNOTATIONS == copy ==> ClearedOf(s, copy) == s
  {
    assert copy.Keys - (copy - CLAIM_ANNOTATIONS).Keys == CLAIM_ANNOTATIONS * copy.Keys;
    assert (map k | k in copy - CLAIM_ANNOTATIONS && (k !in copy || copy[k] != (copy - CLAIM_ANNOTATIONS)[k])
              :: (copy - CLAIM_ANNOTATIONS)[k]) == map[];
    assert copy == s.annotations ==>
      s.annotations - (CLAIM_ANNOTATIONS * copy.Keys) == s.annotations - CLAIM_ANNOTATIONS;
    if copy - CLAIM_ANNOTATIONS == copy {
      assert CLAIM_ANNOTATIONS * copy.Keys == {};
      assert s.annotations - {} == s.annotations;
    }
  }

  /** Removes whatever claim annotations the caller's copy shows. No lock: removing is idempotent. */
  method ClearAnnotations(api: Api, target: Target) returns (outcome: Outcome, changed: bool)
    modifies api, target
    ensures api.server == old(api.server) || api.server == ClearedOf(old(api.server), old(target.copy.annotations))
    ensures outcome.Ok? ==> api.server == ClearedOf(old(api.server), old(target.copy.annotations))
    ensures outcome.Ok? && old(target.copy.annotations) == old(api.server.annotations) ==>
      (changed <==> api.server != old(api.server))
    ensures outcome.Failed? ==> !changed
    ensures api.CountsCall(outcome.Failed?)
    ensures old(api.faults) == [] ==> outcome.Ok? && api.faults == []
  {
    var before := target.copy;
    var next := before.annotations - CLAIM_ANNOTATIONS;
    ClearsWhatIsShown(before.annotations, api.server);
    if next == before.annotations {
      return Ok, false;
    }
    target.copy := before.(annotations := next);
    outcome := api.PatchTarget(target, before, false);
    changed := outcome.Ok?;
  }

  /** No annotation but a claim's is lost, and none changes. */
  ghost predicate OnlyClaimsLost(before: map<string, string>, after: map<string, string>) {
    && (forall k | k in after :: k in before && after[k] == before[k])
    && (forall k | k in before && k !in after :: k in CLAIM_ANNOTATIONS)
  }

  /**
   * The level first, then the annotations: see ReleaseReaches. From a copy of any age, only claim
   * annotations go, all the copy shows are gone on success, and the level is the one asked for.
   */
  method ReleaseTarget(api: Api, kind: Kind, target: Target, level: Option<int>)
    returns (outcome: Outcome, changed: bool)
    modifies api, target
    ensures OnlyClaimsLost(old(api.server.annotations), api.server.annotations)
    ensures api.server.level == old(api.server.level) || (level.Some? && api.server.level == Written(kind, level.value))
    ensures outcome.Ok? ==>
      forall k | k in CLAIM_ANNOTATIONS && k in old(target.copy.annotations) :: k !in api.server.annotations
    ensures outcome.Ok? ==>
      (api.server.level ==
        if level.None? then old(api.server.level)
        else Applied(kind, old(target.copy), old(api.server), level.value).level)
    ensures old(target.copy) == old(api.server) ==>
      && ReleaseReaches(kind, old(api.server), level, api.server, outcome)
      && (changed ==> api.server != old(api.server)) && (outcome.Ok? && api.server != old(api.server) ==> changed)
    ensures api.CountsCall(outcome.Failed?)
    ensures old(api.faults) == [] ==> outcome.Ok?
  {
    changed := false;
    ghost var before, shown := api.server, target.copy.annotations;
    if level.Some? {
      outcome, changed := ApplyLevel(api, kind, target, level.value);
      if outcome.Failed? { return outcome, false; }
    }
    ghost var restored := api.server;
    ClearsWhatIsShown(target.copy.annotations, restored);
    var cleared;
    outcome, cleared := ClearAnnotations(api, target);
    assert restored.version >= before.version && api.server.version >= restored.version;
    changed := changed || cleared;
  }
}
