/**
 * One target object as the API server keeps it, and the calls the controller makes on it. A merge
 * patch carries only what differs from the caller's copy (section 2 of RFC 7396); a guarded patch
 * also carries the caller's resourceVersion and is refused when the object has moved.
 */
module ApiServer {
  import opened TargetKinds

  datatype Server = Server(level: int, annotations: map<string, string>, version: nat)

  /** A write that changes nothing leaves the resourceVersion alone. */
  function Store(was: Server, level: int, annotations: map<string, string>): Server {
    if was.level == level && was.annotations == annotations then was
    else Server(level, annotations, was.version + 1)
  }

  /** `copy` could be a reading of `s` or of anything before it: equal versions mean equal objects. */
  predicate NoNewer(copy: Server, s: Server) {
    copy.version <= s.version && (copy.version == s.version ==> copy == s)
  }

  /** The merge patch between two annotation maps: what to set and what to remove. */
  datatype Patch = Patch(set_: map<string, string>, remove: set<string>)

  function Diff(before: map<string, string>, after: map<string, string>): Patch {
    Patch(map k | k in after && (k !in before || before[k] != after[k]) :: after[k],
          before.Keys - after.Keys)
  }

  function Merge(annotations: map<string, string>, patch: Patch): map<string, string> {
    (annotations - patch.remove) + patch.set_
  }

  function PatchAnnotations(s: Server, patch: Patch): Server {
    Store(s, s.level, Merge(s.annotations, patch))
  }

  function PatchLevel(s: Server, level: int): Server {
    Store(s, level, s.annotations)
  }

  predicate Recorded(kind: Kind, s: Server)
    requires Handled(kind)
  {
    BaselineKey(kind) in s.annotations
  }

  /** A patch built from an exact copy gives exactly the wanted map. */
  lemma PatchFromExactCopy(before: map<string, string>, after: map<string, string>)
    ensures Merge(before, Diff(before, after)) == after
  {
  }

  /** A patch built from any copy touches only the keys on which the copy and the wanted map differ. */
  lemma PatchTouchesOnlyTheDifference(copy: map<string, string>, after: map<string, string>,
                                      server: map<string, string>, key: string)
    ensures var merged := Merge(server, Diff(copy, after));
      if key in after && (key !in copy || copy[key] != after[key]) then key in merged && merged[key] == after[key]
      else if key in copy && key !in after then key !in merged
      else (key in merged <==> key in server) && (key in merged ==> merged[key] == server[key])
  {
  }
}
