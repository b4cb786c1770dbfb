/**
 Status condition lists, the three apimachinery operations on them, and the
 computation inside patchStatus that merges a reconciler's local list into the
 list it has just re-read.
 */
module Conditions {
  import opened Kube

  datatype Kind = Ready | Connected | Provisioned | AdaptersReady | Unrelated(name: string)

  datatype Status = Yes | No | Unknown

  /** metav1.Condition; `since` is lastTransitionTime, 0 standing for the zero time. */
  datatype Condition =
    Condition(kind: Kind, status: Status, reason: string, message: string, generation: nat, since: nat)

  /** What conditionsEqual compares: everything but the type and lastTransitionTime. */
  datatype Facts = Facts(status: Status, reason: string, message: string, generation: nat)

  function FactsOf(c: Condition): Facts {
    Facts(c.status, c.reason, c.message, c.generation)
  }

  /** The map from type to facts that a list denotes. */
  function FactsAt(cs: seq<Condition>, k: Kind): Option<Facts> {
    match Find(cs, k)
    case None => None
    case Some(c) => Some(FactsOf(c))
  }

  predicate Unique(cs: seq<Condition>) {
    forall i, j :: 0 <= i < j < |cs| ==> cs[i].kind != cs[j].kind
  }

  /** FindStatusCondition: the first entry of the type. */
  function Find(cs: seq<Condition>, k: Kind): (r: Option<Condition>)
    ensures r.Some? ==> r.value in cs && r.value.kind == k
    ensures r.None? <==> forall c :: c in cs ==> c.kind != k
  {
    if cs == [] then None
    else if cs[0].kind == k then Some(cs[0])
    else Find(cs[1..], k)
  }

  predicate IsYes(cs: seq<Condition>, k: Kind) {
    Find(cs, k).Some? && Find(cs, k).value.status.Yes?
  }

  /** The entry SetStatusCondition leaves behind: lastTransitionTime moves only with the status. */
  function Stamp(prior: Option<Condition>, c: Condition, now: nat): Condition {
    if prior.Some? && prior.value.status == c.status then c.(since := prior.value.since)
    else c.(since := if c.since == 0 then now else c.since)
  }

  /** SetStatusCondition: rewrite the first entry of the type in place, or append. */
  function Set(cs: seq<Condition>, c: Condition, now: nat): seq<Condition> {
    if cs == [] then [Stamp(None, c, now)]
    else if cs[0].kind == c.kind then [Stamp(Some(cs[0]), c, now)] + cs[1..]
    else [cs[0]] + Set(cs[1..], c, now)
  }

  /** RemoveStatusCondition: a new list without any entry of the type. */
  function Remove(cs: seq<Condition>, k: Kind): seq<Condition> {
    if cs == [] then []
    else if cs[0].kind == k then Remove(cs[1..], k)
    else [cs[0]] + Remove(cs[1..], k)
  }

  lemma {:induction false} SetKinds(cs: seq<Condition>, c: Condition, now: nat, k: Kind)
    ensures (exists d :: d in Set(cs, c, now) && d.kind == k) <==> k == c.kind || exists d :: d in cs && d.kind == k
  {
    if cs != [] {
      assert cs == [cs[0]] + cs[1..];
      if cs[0].kind == c.kind {
        assert Stamp(Some(cs[0]), c, now) in Set(cs, c, now);
      } else {
        SetKinds(cs[1..], c, now, k);
      }
    }
  }

  lemma {:induction false} FindSet(cs: seq<Condition>, c: Condition, now: nat, k: Kind)
    ensures Find(Set(cs, c, now), k) == if k == c.kind then Some(Stamp(Find(cs, k), c, now)) else Find(cs, k)
  {
    if cs != [] && cs[0].kind != c.kind {
      FindSet(cs[1..], c, now, k);
    }
  }

  lemma {:induction false} SetUnique(cs: seq<Condition>, c: Condition, now: nat)
    requires Unique(cs)
    ensures Unique(Set(cs, c, now))
  {
    if cs != [] && cs[0].kind != c.kind {
      SetUnique(cs[1..], c, now);
      SetKinds(cs[1..], c, now, cs[0].kind);
      var rest := Set(cs[1..], c, now);
      assert forall i :: 0 <= i < |rest| ==> rest[i] in rest;
    }
  }

  lemma {:induction false} FindRemove(cs: seq<Condition>, k: Kind, j: Kind)
    ensures Find(Remove(cs, k), j) == if j == k then None else Find(cs, j)
  {
    if cs != [] {
      FindRemove(cs[1..], k, j);
    }
  }

  lemma {:induction false} RemoveSubset(cs: seq<Condition>, k: Kind)
    ensures forall c :: c in Remove(cs, k) ==> c in cs
  {
    if cs != [] {
      RemoveSubset(cs[1..], k);
    }
  }

  lemma {:induction false} RemoveUnique(cs: seq<Condition>, k: Kind)
    requires Unique(cs)
    ensures Unique(Remove(cs, k))
  {
    if cs != [] {
      RemoveUnique(cs[1..], k);
      RemoveSubset(cs[1..], k);
      var rest := Remove(cs[1..], k);
      assert forall i :: 0 <= i < |rest| ==> rest[i] in rest;
    }
  }

  /** The first loop of patchStatus after its first |local| rounds. */
  function Overlay(reread: seq<Condition>, local: seq<Condition>, now: nat): seq<Condition> {
    if local == [] then reread
    else Set(Overlay(reread, local[..|local| - 1], now), local[|local| - 1], now)
  }

  /** The second loop of patchStatus after ranging over `seen`, whatever happened to the list meanwhile. */
  function Prune(cs: seq<Condition>, seen: seq<Condition>, local: seq<Condition>): seq<Condition> {
    if seen == [] then cs
    else
      var rest := Prune(cs, seen[..|seen| - 1], local);
      var k := seen[|seen| - 1].kind;
      if Find(local, k).None? then Remove(rest, k) else rest
  }

  /** The list patchStatus wants to store. */
  function Merged(reread: seq<Condition>, local: seq<Condition>, now: nat): seq<Condition> {
    var overlaid := Overlay(reread, local, now);
    Prune(overlaid, overlaid, local)
  }

  lemma {:induction false} FindConcat(a: seq<Condition>, b: seq<Condition>, k: Kind)
    ensures Find(a + b, k) == if Find(a, k).Some? then Find(a, k) else Find(b, k)
  {
    if a == [] {
      assert a + b == b;
    } else {
      assert (a + b)[1..] == a[1..] + b;
      FindConcat(a[1..], b, k);
    }
  }

  lemma FindSplit(cs: seq<Condition>, k: Kind)
    requires cs != []
    ensures var init := Find(cs[..|cs| - 1], k);
      Find(cs, k) == if init.Some? then init
                     else if cs[|cs| - 1].kind == k then Some(cs[|cs| - 1]) else None
  {
    assert cs == cs[..|cs| - 1] + [cs[|cs| - 1]];
    FindConcat(cs[..|cs| - 1], [cs[|cs| - 1]], k);
  }

  lemma {:induction false} FindOverlay(reread: seq<Condition>, local: seq<Condition>, now: nat, k: Kind)
    requires Unique(local)
    ensures Find(Overlay(reread, local, now), k) ==
            if Find(local, k).Some? then Some(Stamp(Find(reread, k), Find(local, k).value, now)) else Find(reread, k)
  {
    if local != [] {
      var init, last := local[..|local| - 1], local[|local| - 1];
      FindOverlay(reread, init, now, k);
      FindSet(Overlay(reread, init, now), last, now, k);
      FindSplit(local, k);
      if Find(init, k).Some? {
        var i :| 0 <= i < |init| && init[i].kind == k;
        assert local[i].kind == k;
      }
    }
  }

  lemma {:induction false} OverlayUnique(reread: seq<Condition>, local: seq<Condition>, now: nat)
    requires Unique(reread)
    ensures Unique(Overlay(reread, local, now))
  {
    if local != [] {
      OverlayUnique(reread, local[..|local| - 1], now);
      SetUnique(Overlay(reread, local[..|local| - 1], now), local[|local| - 1], now);
    }
  }

  lemma {:induction false} FindPrune(cs: seq<Condition>, seen: seq<Condition>, local: seq<Condition>, k: Kind)
    ensures Find(Prune(cs, seen, local), k) ==
            if Find(local, k).None? && Find(seen, k).Some? then None else Find(cs, k)
  {
    if seen != [] {
      var init, last := seen[..|seen| - 1], seen[|seen| - 1];
      FindPrune(cs, init, local, k);
      FindRemove(Prune(cs, init, local), last.kind, k);
      FindSplit(seen, k);
    }
  }

  lemma {:induction false} PruneUnique(cs: seq<Condition>, seen: seq<Condition>, local: seq<Condition>)
    requires Unique(cs)
    ensures Unique(Prune(cs, seen, local))
  {
    if seen != [] {
      PruneUnique(cs, seen[..|seen| - 1], local);
      RemoveUnique(Prune(cs, seen[..|seen| - 1], local), seen[|seen| - 1].kind);
    }
  }

  /**
   Exactness of patchStatus: nothing the re-read list held survives unless the
   local list names it too, and every surviving entry carries the local facts.
   lastTransitionTime is the re-read one exactly when the status did not move.
   */
  lemma {:induction false} MergedExact(reread: seq<Condition>, local: seq<Condition>, now: nat, k: Kind)
    requires Unique(reread) && Unique(local)
    ensures Unique(Merged(reread, local, now))
    ensures Find(Merged(reread, local, now), k) ==
            if Find(local, k).None? then None else Some(Stamp(Find(reread, k), Find(local, k).value, now))
    ensures FactsAt(Merged(reread, local, now), k) == FactsAt(local, k)
    ensures Find(local, k).Some? ==>
      var since, given := Find(Merged(reread, local, now), k).value.since, Find(local, k).value.since;
      if Find(reread, k).Some? && Find(reread, k).value.status == Find(local, k).value.status
      then since == Find(reread, k).value.since
      else since == if given == 0 then now else given
  {
    var overlaid := Overlay(reread, local, now);
    FindOverlay(reread, local, now, k);
    OverlayUnique(reread, local, now);
    FindPrune(overlaid, overlaid, local, k);
    PruneUnique(overlaid, overlaid, local);
  }

  /** conditionsEqual, as the loop decides it. */
  predicate Agrees(a: seq<Condition>, b: seq<Condition>) {
    |a| == |b| &&
    forall c :: c in a ==> FactsAt(b, c.kind) == Some(FactsOf(c))
  }

  ghost predicate SameMap(a: seq<Condition>, b: seq<Condition>) {
    forall k :: FactsAt(a, k) == FactsAt(b, k)
  }

  ghost function Kinds(cs: seq<Condition>): set<Kind> {
    set c | c in cs :: c.kind
  }

  lemma {:induction false} KindsCount(cs: seq<Condition>)
    ensures |Kinds(cs)| <= |cs|
    ensures Unique(cs) ==> |Kinds(cs)| == |cs|
  {
    if cs != [] {
      KindsCount(cs[1..]);
      assert cs == [cs[0]] + cs[1..];
      assert Kinds(cs) == {cs[0].kind} + Kinds(cs[1..]);
    }
  }

  lemma SubsetOfEqualSize<T>(a: set<T>, b: set<T>)
    requires a <= b && |b| <= |a|
    ensures a == b
  {
    assert b == a + (b - a);
    assert |b - a| == |b| - |a|;
  }

  lemma {:induction false} FindOwn(cs: seq<Condition>, c: Condition)
    requires Unique(cs) && c in cs
    ensures Find(cs, c.kind) == Some(c)
  {
  }

  /** One-sided pigeonhole: equal lengths and inclusion leave no room for an extra type. */
  lemma AgreesIsSameMap(a: seq<Condition>, b: seq<Condition>)
    requires Unique(a) && Agrees(a, b)
    ensures SameMap(a, b)
  {
    forall k | k in Kinds(a) ensures k in Kinds(b) {
      var c :| c in a && c.kind == k;
      assert FactsAt(b, c.kind).Some?;
    }
    KindsCount(a);
    KindsCount(b);
    SubsetOfEqualSize(Kinds(a), Kinds(b));
    forall k ensures FactsAt(a, k) == FactsAt(b, k) {
      if k in Kinds(a) {
        var c :| c in a && c.kind == k;
        FindOwn(a, c);
      } else {
        assert k !in Kinds(b);
      }
    }
  }

  lemma SameMapAgrees(a: seq<Condition>, b: seq<Condition>)
    requires Unique(a) && Unique(b) && SameMap(a, b)
    ensures Agrees(a, b)
  {
    assert Kinds(a) <= Kinds(b) by {
      forall k | k in Kinds(a) ensures k in Kinds(b) {
        assert FactsAt(a, k) == FactsAt(b, k);
      }
    }
    assert Kinds(b) <= Kinds(a) by {
      forall k | k in Kinds(b) ensures k in Kinds(a) {
        assert FactsAt(a, k) == FactsAt(b, k);
      }
    }
    KindsCount(a);
    KindsCount(b);
    assert Kinds(a) == Kinds(b);
    forall c | c in a ensures FactsAt(b, c.kind) == Some(FactsOf(c)) {
      FindOwn(a, c);
      assert FactsAt(a, c.kind) == FactsAt(b, c.kind);
    }
  }

  /** conditionsEqual decides equality of the two maps when both lists have unique types. */
  lemma AgreesDecides(a: seq<Condition>, b: seq<Condition>)
    requires Unique(a) && Unique(b)
    ensures Agrees(a, b) <==> SameMap(a, b)
  {
    if Agrees(a, b) {
      AgreesIsSameMap(a, b);
    }
    if SameMap(a, b) {
      SameMapAgrees(a, b);
    }
  }

  /** Without unique types conditionsEqual accepts different maps, and in one order of arguments only. */
  lemma AgreesNeedsUnique()
    ensures exists a, b :: Agrees(a, b) && !Agrees(b, a) && !SameMap(a, b)
  {
    var x := Condition(Ready, Yes, "Managed", "", 1, 1);
    var y := Condition(Connected, No, "ConnectionFailed", "", 1, 1);
    var a, b := [x, x], [x, y];
    assert Find(b, Ready) == Some(x);
    assert b[1..] == [y];
    assert Find(b[1..], Connected) == Some(y);
    assert Find(b, Connected) == Some(y);
    assert FactsAt(a, Connected) == None;
    assert y in b && FactsAt(a, y.kind) != Some(FactsOf(y));
    assert Agrees(a, b) && !Agrees(b, a) && !SameMap(a, b);
  }

  /** What one call of patchStatus leaves in the store, and whether it sent a patch. */
  datatype Patch = Patch(conditions: seq<Condition>, wrote: bool)

  function PatchStatus(stored: seq<Condition>, local: seq<Condition>, now: nat): Patch {
    var merged := Merged(stored, local, now);
    if Agrees(stored, merged) then Patch(stored, false) else Patch(merged, true)
  }

  /** After an uninterrupted call the stored map is the local map, whether or not a patch was sent. */
  lemma PatchStatusExact(stored: seq<Condition>, local: seq<Condition>, now: nat)
    requires Unique(stored) && Unique(local)
    ensures var p := PatchStatus(stored, local, now);
      && Unique(p.conditions)
      && SameMap(p.conditions, local)
      && (p.wrote <==> !SameMap(stored, local))
  {
    var merged := Merged(stored, local, now);
    forall k ensures FactsAt(merged, k) == FactsAt(local, k) && Unique(merged) {
      MergedExact(stored, local, now, k);
    }
    assert Unique(merged) by {
      MergedExact(stored, local, now, Ready);
    }
    AgreesDecides(stored, merged);
    if SameMap(stored, local) {
      forall k ensures FactsAt(stored, k) == FactsAt(merged, k) {
        assert FactsAt(stored, k) == FactsAt(local, k);
      }
      assert SameMap(stored, merged);
    }
    if SameMap(stored, merged) {
      forall k ensures FactsAt(stored, k) == FactsAt(local, k) {
        assert FactsAt(stored, k) == FactsAt(merged, k);
      }
    }
  }

  /**
   The transition time a call leaves behind: the stored one if the status did not move, whether or not
   a patch was sent; otherwise the local one, or the time of the call if the local entry has none.
   */
  lemma PatchStatusSince(stored: seq<Condition>, local: seq<Condition>, now: nat, k: Kind)
    requires Unique(stored) && Unique(local) && Find(local, k).Some?
    ensures var patched, given := Find(PatchStatus(stored, local, now).conditions, k), Find(local, k).value;
      && patched.Some?
      && (if Find(stored, k).Some? && Find(stored, k).value.status == given.status
          then patched.value.since == Find(stored, k).value.since
          else patched.value.since == if given.since == 0 then now else given.since)
  {
    PatchStatusExact(stored, local, now);
    MergedExact(stored, local, now, k);
    assert FactsAt(PatchStatus(stored, local, now).conditions, k) == FactsAt(local, k);
  }

  /** Exactly which stored conditions survive a call: those the local list names too. */
  lemma SurvivesExactly(stored: seq<Condition>, local: seq<Condition>, now: nat, k: Kind)
    requires Unique(stored) && Unique(local) && Find(stored, k).Some?
    ensures Find(PatchStatus(stored, local, now).conditions, k).Some? <==> Find(local, k).Some?
  {
    PatchStatusExact(stored, local, now);
    assert FactsAt(PatchStatus(stored, local, now).conditions, k) == FactsAt(local, k);
  }

  /** So a condition that somebody else stored while the reconciler was at work does not. */
  lemma UntouchedIsRemoved(now: nat)
    ensures var other := Condition(Unrelated("Maintenance"), Yes, "Planned", "", 1, 1);
      var ready := Condition(Ready, Yes, "Managed", "", 1, 1);
      && Find([ready, other], other.kind) == Some(other)
      && Find(PatchStatus([ready, other], [ready], now).conditions, other.kind) == None
  {
    var other := Condition(Unrelated("Maintenance"), Yes, "Planned", "", 1, 1);
    var ready := Condition(Ready, Yes, "Managed", "", 1, 1);
    assert [ready, other][1..] == [other];
    assert Find([ready, other], other.kind) == Find([other], other.kind) == Some(other);
    assert Find([ready], other.kind) == None;
    SurvivesExactly([ready, other], [ready], now, other.kind);
  }

  /** An immediate second call sends nothing, at whatever time it runs. */
  lemma PatchStatusQuiet(stored: seq<Condition>, local: seq<Condition>, now: nat, later: nat)
    requires Unique(stored) && Unique(local)
    ensures var p := PatchStatus(stored, local, now);
      PatchStatus(p.conditions, local, later) == Patch(p.conditions, false)
  {
    var p := PatchStatus(stored, local, now);
    PatchStatusExact(stored, local, now);
    PatchStatusExact(p.conditions, local, later);
  }

  /** conditionsEqual. */
  method ConditionsEqual(a: seq<Condition>, b: seq<Condition>) returns (equal: bool)
    ensures equal <==> Agrees(a, b)
    ensures Unique(a) && Unique(b) ==> (equal <==> SameMap(a, b))
  {
    if Unique(a) && Unique(b) {
      AgreesDecides(a, b);
    }
    if |a| != |b| {
      return false;
    }
    for i := 0 to |a|
      invariant forall j :: 0 <= j < i ==> FactsAt(b, a[j].kind) == Some(FactsOf(a[j]))
    {
      var other := Find(b, a[i].kind);
      if other.None? || FactsOf(other.value) != FactsOf(a[i]) {
        assert a[i] in a;
        return false;
      }
    }
    return true;
  }

  /** The body of patchStatus between its Get and its Patch. */
  method ComputePatch(base: seq<Condition>, local: seq<Condition>, now: nat)
    returns (merged: seq<Condition>, send: bool)
    ensures merged == Merged(base, local, now)
    ensures send == PatchStatus(base, local, now).wrote
    ensures Unique(base) && Unique(local) ==>
      Unique(merged) && SameMap(merged, local) && (send <==> !SameMap(base, local))
  {
    merged := base;
    for i := 0 to |local|
      invariant merged == Overlay(base, local[..i], now)
    {
      merged := Set(merged, local[i], now);
      assert local[..i + 1][..i] == local[..i];
    }
    assert local[..|local|] == local;
    // RemoveStatusCondition builds a new slice, so the range keeps walking the list it started on.
    var ranged := merged;
    for i := 0 to |ranged|
      invariant merged == Prune(ranged, ranged[..i], local)
    {
      if Find(local, ranged[i].kind).None? {
        merged := Remove(merged, ranged[i].kind);
      }
      assert ranged[..i + 1][..i] == ranged[..i];
    }
    assert ranged[..|ranged|] == ranged;
    var equal := ConditionsEqual(base, merged);
    send := !equal;
    if Unique(base) && Unique(local) {
      PatchStatusExact(base, local, now);
      forall k ensures FactsAt(merged, k) == FactsAt(local, k) && Unique(merged) {
        MergedExact(base, local, now, k);
      }
      assert Unique(merged) by {
        MergedExact(base, local, now, Ready);
      }
    }
  }
}
