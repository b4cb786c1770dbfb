/**
 MCEDiscoveryReconciler as it runs: full-snapshot loops that visit names in whatever order Go's
 maps yield, collecting errors per name. Each loop is proved to do to every name exactly what
 Inventory prescribes for it, so neither the order nor the failures of other names matter.
 */
module DiscoveryReconciler {
  import opened Kube
  import Inventory

  type Entry = Inventory.Entry
  type Fails = Inventory.Fails

  /** The calls a pass makes once, before any loop. */
  datatype ListCall = ListSpokes | ListMsas

  function Get<V>(m: map<Name, V>, n: Name): Option<V> {
    if n in m then Some(m[n]) else None
  }

  /** The SpokeClusters, and the companions by the namespace they are in. */
  datatype Store = Store(crs: map<Name, Inventory.Cr>, msas: map<Name, bool>, works: map<Name, Inventory.Work>)

  function At(s: Store, n: Name): Entry {
    Inventory.Entry(Get(s.crs, n), Get(s.msas, n), Get(s.works, n))
  }

  /** Nothing but the objects of n may differ. */
  ghost predicate OnlyAt(s: Store, t: Store, n: Name) {
    forall m :: m != n ==> At(t, m) == At(s, m)
  }

  ghost predicate Respected(s: Store, t: Store) {
    forall n :: Inventory.Respects(At(s, n), At(t, n))
  }

  lemma RespectedTransitive(s: Store, t: Store, u: Store)
    requires Respected(s, t) && Respected(t, u)
    ensures Respected(s, u)
  {
  }

  /** The names in `done` have had their outcome, the others are as before. */
  ghost predicate Partly(s: Store, t: Store, outcome: map<Name, Inventory.Step>, done: set<Name>) {
    && done <= outcome.Keys
    && forall n :: At(t, n) == if n in done then outcome[n].entry else At(s, n)
  }

  ghost function Failing(outcome: map<Name, Inventory.Step>): set<Name> {
    set n | n in outcome && outcome[n].error
  }

  /** A sweep that stops at its first error reports one exactly if some listed name fails. */
  lemma SweepErrors(s: Store, fails: Fails, outcome: map<Name, Inventory.Step>, done: set<Name>, stopped: Option<Name>)
    requires forall n :: n in outcome <==> At(s, n).msa == Some(true)
    requires forall n :: n in outcome ==> outcome[n] == Inventory.SweepOrphan(At(s, n), Inventory.For(fails, n))
    requires Inventory.Visits(outcome.Keys, Failing(outcome), done, stopped)
    ensures stopped.Some? <==>
      exists n :: At(s, n).msa == Some(true) && Inventory.SweepFails(At(s, n), Inventory.For(fails, n))
  {
    forall n | n in outcome ensures outcome[n].error <==> Inventory.SweepFails(At(s, n), Inventory.For(fails, n)) {
      Inventory.SweepFailsExactly(At(s, n), Inventory.For(fails, n));
    }
    if stopped.Some? {
      assert stopped.value in Failing(outcome);
    }
  }

  lemma RevokeErrors(s: Store, standing: set<Name>, fails: Fails, listed: set<Name>,
                     outcome: map<Name, Inventory.Step>, done: set<Name>, stopped: Option<Name>)
    requires listed == outcome.Keys && forall n :: n in listed <==> At(s, n).msa == Some(true)
    requires forall n :: n in outcome ==>
      outcome[n] == Inventory.Revoke(At(s, n), n in standing, Inventory.For(fails, n))
    requires Inventory.Visits(listed, Failing(outcome), done, stopped)
    ensures stopped.None? && (forall n :: n in listed ==> n !in standing) <==> RevokesAll(s, standing, fails)
  {
    if stopped.Some? {
      assert stopped.value in Failing(outcome);
    }
  }

  /** Names whose standing Secret exists are not touched, others only as each round may. */
  lemma RevokedSafely(s: Store, t: Store, standing: set<Name>, fails: Fails, outcome: map<Name, Inventory.Step>,
                      done: set<Name>)
    requires forall n :: n in outcome ==>
      outcome[n] == Inventory.Revoke(At(s, n), n in standing, Inventory.For(fails, n))
    requires Partly(s, t, outcome, done)
    ensures Respected(s, t) && forall n :: n in standing ==> At(t, n) == At(s, n)
  {
    forall n ensures Inventory.Respects(At(s, n), At(t, n)) && (n in standing ==> At(t, n) == At(s, n)) {
      Inventory.RoundsRespect(At(s, n), n, None, n in standing, Inventory.For(fails, n));
    }
  }

  /** The API server the desired set has for n, None if n is not in it. */
  function Wanted(s: Store, mcs: seq<Inventory.ManagedCluster>, selector: map<string, string>,
                  n: Name): Option<string> {
    Inventory.Desired(mcs, selector, Inventory.ListedAddress(At(s, n).cr), n)
  }

  /** What the create, update and delete loops make of n. */
  function SettledAt(s: Store, mcs: seq<Inventory.ManagedCluster>, selector: map<string, string>,
                     fails: Fails, n: Name): Inventory.Step {
    Inventory.Settle(At(s, n), n, Wanted(s, mcs, selector, n), Inventory.For(fails, n))
  }

  /** No call fails that a pass makes in MCE mode after its listings, and no companion it needs is somebody else's. */
  ghost predicate Discovers(s: Store, mcs: seq<Inventory.ManagedCluster>, selector: map<string, string>,
                            listFails: set<ListCall>, fails: Fails)
  {
    && ListMsas !in listFails
    && (forall n :: !SettledAt(s, mcs, selector, fails, n).error)
    && (forall n :: var x := SettledAt(s, mcs, selector, fails, n).entry;
          x.msa == Some(true) ==> !Inventory.SweepFails(x, Inventory.For(fails, n)))
  }

  /** No call fails that a pass makes with the HubConfig absent or terminating. */
  ghost predicate TearsDown(s: Store, listFails: set<ListCall>, fails: Fails) {
    && ListSpokes !in listFails && ListMsas !in listFails
    && (forall n :: !Inventory.Prune(At(s, n), Inventory.For(fails, n)).error)
    && (forall n :: var x := Inventory.Prune(At(s, n), {}).entry;
          x.msa == Some(true) ==> !Inventory.SweepFails(x, Inventory.For(fails, n)))
  }

  /** No call fails that the revocation makes, and it need not wait for anybody. */
  ghost predicate RevokesAll(s: Store, standing: set<Name>, fails: Fails) {
    forall n :: At(s, n).msa == Some(true) ==>
      n !in standing && !Inventory.Revoke(At(s, n), false, Inventory.For(fails, n)).error
  }

  /** matchesSelector */
  method MatchesSelector(labels: map<string, string>, selector: map<string, string>) returns (r: bool)
    ensures r <==> Inventory.Matches(labels, selector)
    ensures r <==> forall k :: k in selector ==> k in labels && labels[k] == selector[k]
  {
    if |selector| == 0 {
      assert selector.Keys == {};
      return true;
    }
    var todo := selector.Keys;
    while todo != {}
      invariant todo <= selector.Keys
      invariant forall k :: k in selector && k !in todo ==> k in labels && labels[k] == selector[k]
    {
      var k :| k in todo;
      if k !in labels || labels[k] != selector[k] {
        return false;
      }
      todo := todo - {k};
    }
    return true;
  }

  lemma {:induction false} FirstHttpsAt(urls: seq<Option<string>>, i: nat)
    requires i <= |urls| && forall j :: 0 <= j < i ==> !Inventory.IsHttps(urls[j])
    ensures Inventory.FirstHttps(urls) == Inventory.FirstHttps(urls[i..])
  {
    if i > 0 {
      FirstHttpsAt(urls[1..], i - 1);
      assert urls[1..][i - 1..] == urls[i..];
    } else {
      assert urls[0..] == urls;
    }
  }

  /** extractAPIServer */
  method ExtractApiServer(urls: seq<Option<string>>) returns (r: Option<string>)
    ensures r == Inventory.FirstHttps(urls)
    ensures r.Some? ==> Inventory.Offers(urls, r.value)
    ensures r.None? ==> Inventory.OffersNone(urls)
  {
    for i := 0 to |urls|
      invariant forall j :: 0 <= j < i ==> !Inventory.IsHttps(urls[j])
    {
      FirstHttpsAt(urls, i);
      if urls[i].Some? && urls[i].value != "" && "https://" <= urls[i].value {
        return urls[i];
      }
    }
    FirstHttpsAt(urls, |urls|);
    return None;
  }

  class MCEDiscoveryReconciler {
    var crs: map<Name, Inventory.Cr>
    var msas: map<Name, bool>
    var works: map<Name, Inventory.Work>

    ghost function Now(): Store
      reads this
    {
      Store(crs, msas, works)
    }

    /** The snapshot: List with the discovery label. */
    ghost predicate Snapshot(existing: map<Name, Inventory.Cr>)
      reads this
    {
      existing == map n | n in crs && crs[n].labelled :: crs[n]
    }

    // ----- the desired set -----

    method BuildDesired(mcs: seq<Inventory.ManagedCluster>, selector: map<string, string>,
                        existing: map<Name, Inventory.Cr>)
      returns (desired: map<Name, string>)
      requires Snapshot(existing)
      ensures forall n :: Get(desired, n) == Wanted(Now(), mcs, selector, n)
    {
      desired := map[];
      for i := 0 to |mcs|
        invariant forall n :: Get(desired, n) == Wanted(Now(), mcs[..i], selector, n)
      {
        var mc := mcs[i];
        assert mcs[..i + 1][..i] == mcs[..i];
        forall n
          ensures Wanted(Now(), mcs[..i + 1], selector, n) ==
                  Inventory.Overrides(mc, selector, Inventory.ListedAddress(At(Now(), n).cr), n,
                    Wanted(Now(), mcs[..i], selector, n))
        {
        }
        var matches := MatchesSelector(mc.labels, selector);
        var url := ExtractApiServer(mc.urls);
        if mc.deleting {
          continue;
        }
        if "local-cluster" in mc.labels && mc.labels["local-cluster"] == "true" {
          continue;
        }
        if !matches {
          continue;
        }
        if url.None? {
          if mc.name in existing {
            desired := desired[mc.name := existing[mc.name].apiServer];
          }
          continue;
        }
        desired := desired[mc.name := url.value];
      }
      assert mcs[..|mcs|] == mcs;
    }

    // ----- create and update -----

    method EnsureMsa(n: Name, fails: set<Inventory.Call>) returns (error: bool)
      modifies this`msas
      ensures At(Now(), n) == Inventory.EnsureMsa(At(old(Now()), n), fails).entry && OnlyAt(old(Now()), Now(), n)
      ensures error == Inventory.EnsureMsa(At(old(Now()), n), fails).error
    {
      if Inventory.CreateMsa in fails {
        return true;
      }
      if n !in msas {
        msas := msas[n := true];
        return false;
      }
      return Inventory.GetMsa in fails || !msas[n];
    }

    method EnsureMsaRbac(n: Name, fails: set<Inventory.Call>) returns (error: bool)
      modifies this`works
      ensures At(Now(), n) == Inventory.EnsureWork(At(old(Now()), n), fails).entry && OnlyAt(old(Now()), Now(), n)
      ensures error == Inventory.EnsureWork(At(old(Now()), n), fails).error
    {
      if Inventory.CreateWork in fails {
        return true;
      }
      if n !in works {
        works := works[n := Inventory.Work(true, Inventory.MANIFESTS)];
        return false;
      }
      if Inventory.GetWork in fails || !works[n].owned {
        return true;
      }
      if works[n].manifests == Inventory.MANIFESTS {
        return false;
      }
      if Inventory.UpdateWork in fails {
        return true;
      }
      works := works[n := works[n].(manifests := Inventory.MANIFESTS)];
      return false;
    }

    /** One round of the create/update loop. */
    method EnrolOne(n: Name, address: string, existing: map<Name, Inventory.Cr>, fails: set<Inventory.Call>)
      returns (error: bool)
      requires n in existing <==> Inventory.Discovered(At(Now(), n).cr)
      requires n in existing ==> existing[n] == crs[n]
      modifies this
      ensures At(Now(), n) == Inventory.Enrol(At(old(Now()), n), n, address, fails).entry &&
        OnlyAt(old(Now()), Now(), n)
      ensures error == Inventory.Enrol(At(old(Now()), n), n, address, fails).error
    {
      if n in existing {
        var sc := existing[n];
        var needsUpdate := false;
        if sc.apiServer != address {
          sc := sc.(apiServer := address);
          needsUpdate := true;
        }
        if sc.source != FromMce(n) {
          sc := sc.(source := FromMce(n));
          needsUpdate := true;
        }
        if needsUpdate {
          if Inventory.UpdateCr in fails {
            return true;
          }
          crs := crs[n := sc];
        }
      } else {
        if Inventory.CheckCr in fails {
          return true;
        }
        if n in crs {
          return false;
        }
        if Inventory.CreateCr in fails {
          return true;
        }
        crs := crs[n := Inventory.Cr(true, false, false, address, FromMce(n))];
      }
      error := EnsureMsa(n, fails);
      if error {
        return;
      }
      error := EnsureMsaRbac(n, fails);
    }

    method EnrolAll(desired: map<Name, string>, existing: map<Name, Inventory.Cr>, fails: Fails)
      returns (errs: set<Name>)
      requires Snapshot(existing)
      modifies this
      ensures forall n :: n in desired ==>
        At(Now(), n) == Inventory.Enrol(At(old(Now()), n), n, desired[n], Inventory.For(fails, n)).entry
      ensures forall n :: n !in desired ==> At(Now(), n) == At(old(Now()), n)
      ensures forall n :: n in errs <==>
        n in desired && Inventory.Enrol(At(old(Now()), n), n, desired[n], Inventory.For(fails, n)).error
    {
      ghost var outcome := map n | n in desired ::
        Inventory.Enrol(At(Now(), n), n, desired[n], Inventory.For(fails, n));
      errs := {};
      var todo := desired.Keys;
      while todo != {}
        invariant todo <= desired.Keys
        invariant forall n :: n in todo || n !in desired ==> At(Now(), n) == At(old(Now()), n)
        invariant forall n :: n in desired && n !in todo ==> At(Now(), n) == outcome[n].entry
        invariant forall n :: n in errs <==> n in desired && n !in todo && outcome[n].error
      {
        var n :| n in todo;
        assert At(Now(), n) == At(old(Now()), n);
        var error := EnrolOne(n, desired[n], existing, Inventory.For(fails, n));
        if error {
          errs := errs + {n};
        }
        todo := todo - {n};
      }
    }

    // ----- delete -----

    /** client.Delete: an object with a finalizer is only marked. */
    method DeleteSpoke(n: Name)
      requires n in crs
      modifies this`crs
      ensures At(Now(), n) == At(old(Now()), n).(cr := Inventory.Delete(old(crs[n]))) && OnlyAt(old(Now()), Now(), n)
    {
      crs := if crs[n].finalizer then crs[n := crs[n].(deleting := true)] else crs - {n};
    }

    /** One round of the delete loop, for a name that is not desired. */
    method PruneOne(n: Name, sc: Inventory.Cr, fails: set<Inventory.Call>) returns (error: bool)
      requires n in crs && crs[n] == sc && sc.labelled
      modifies this`crs
      ensures At(Now(), n) == Inventory.Prune(At(old(Now()), n), fails).entry && OnlyAt(old(Now()), Now(), n)
      ensures error == Inventory.Prune(At(old(Now()), n), fails).error
    {
      error := false;
      if !sc.deleting {
        error := Inventory.DeleteCr in fails;
        if !error {
          DeleteSpoke(n);
        }
      }
    }

    method PruneAll(desired: map<Name, string>, existing: map<Name, Inventory.Cr>, fails: Fails)
      returns (errs: set<Name>)
      requires forall n :: n in existing && n !in desired ==> n in crs && crs[n] == existing[n]
      requires forall n :: n in existing ==> existing[n].labelled
      modifies this`crs
      ensures forall n :: n in existing && n !in desired ==>
        At(Now(), n) == Inventory.Prune(At(old(Now()), n), Inventory.For(fails, n)).entry
      ensures forall n :: n !in existing || n in desired ==> At(Now(), n) == At(old(Now()), n)
      ensures forall n :: n in errs <==>
        n in existing && n !in desired && Inventory.Prune(At(old(Now()), n), Inventory.For(fails, n)).error
    {
      ghost var outcome := map n | n in existing :: Inventory.Prune(At(Now(), n), Inventory.For(fails, n));
      errs := {};
      var todo := existing.Keys;
      while todo != {}
        invariant todo <= existing.Keys
        invariant forall n :: n in todo || n !in existing || n in desired ==> At(Now(), n) == At(old(Now()), n)
        invariant forall n :: n in existing && n !in desired && n !in todo ==> At(Now(), n) == outcome[n].entry
        invariant forall n :: n in errs <==> n in existing && n !in desired && n !in todo && outcome[n].error
      {
        var n :| n in todo;
        assert At(Now(), n) == At(old(Now()), n);
        if n !in desired {
          var error := PruneOne(n, existing[n], Inventory.For(fails, n));
          if error {
            errs := errs + {n};
          }
        }
        todo := todo - {n};
      }
    }

    // ----- orphan cleanup -----

    method DeleteMsaRbac(n: Name, fails: set<Inventory.Call>) returns (error: bool)
      modifies this`works
      ensures error <==> || Inventory.SweepGetWork in fails
                         || (old(n in works && works[n].owned) && Inventory.SweepDeleteWork in fails)
      ensures works == if !error && old(n in works && works[n].owned) then old(works) - {n} else old(works)
    {
      if Inventory.SweepGetWork in fails {
        return true;
      }
      if n !in works || !works[n].owned {
        return false;
      }
      if Inventory.SweepDeleteWork in fails {
        return true;
      }
      works := works - {n};
      return false;
    }

    method DeleteMsa(n: Name, fails: set<Inventory.Call>) returns (error: bool)
      modifies this`msas
      ensures error <==> || Inventory.SweepGetMsa in fails
                         || (old(n in msas && msas[n]) && Inventory.SweepDeleteMsa in fails)
      ensures msas == if !error && old(n in msas && msas[n]) then old(msas) - {n} else old(msas)
    {
      if Inventory.SweepGetMsa in fails {
        return true;
      }
      if n !in msas || !msas[n] {
        return false;
      }
      if Inventory.SweepDeleteMsa in fails {
        return true;
      }
      msas := msas - {n};
      return false;
    }

    /** The ManifestWork first; the ManagedServiceAccount only if that succeeded. */
    method DropCompanions(n: Name, fails: set<Inventory.Call>) returns (error: bool)
      modifies this`msas, this`works
      ensures At(Now(), n) == Inventory.DropCompanions(At(old(Now()), n), fails).entry && OnlyAt(old(Now()), Now(), n)
      ensures error == Inventory.DropCompanions(At(old(Now()), n), fails).error
    {
      error := DeleteMsaRbac(n, fails);
      if error {
        return;
      }
      error := DeleteMsa(n, fails);
    }

    /** One round of the orphan sweep. */
    method SweepOne(n: Name, fails: set<Inventory.Call>) returns (error: bool)
      modifies this`msas, this`works
      ensures At(Now(), n) == Inventory.SweepOrphan(At(old(Now()), n), fails).entry && OnlyAt(old(Now()), Now(), n)
      ensures error == Inventory.SweepOrphan(At(old(Now()), n), fails).error
    {
      if Inventory.SweepCheck in fails {
        return true;
      }
      error := false;
      if n !in crs || !crs[n].labelled {
        error := DropCompanions(n, fails);
      }
    }

    /** The loop of the orphan sweep, which stops at the first error. */
    method SweepListed(listed: set<Name>, fails: Fails, ghost outcome: map<Name, Inventory.Step>)
      returns (error: bool, ghost done: set<Name>, ghost stopped: Option<Name>)
      requires outcome == map n | n in listed :: Inventory.SweepOrphan(At(Now(), n), Inventory.For(fails, n))
      modifies this`msas, this`works
      ensures error == stopped.Some? && Inventory.Visits(listed, Failing(outcome), done, stopped)
      ensures Partly(old(Now()), Now(), outcome, done)
    {
      var todo := listed;
      done, stopped, error := {}, None, false;
      while todo != {} && !error
        invariant forall n :: n in listed <==> n in done || n in todo
        invariant forall n :: n in todo ==> n !in done
        invariant Partly(old(Now()), Now(), outcome, done)
        invariant forall n :: n in done ==> (outcome[n].error <==> stopped == Some(n))
        invariant error == stopped.Some?
        invariant stopped.Some? ==> stopped.value in done
      {
        var n :| n in todo;
        assert At(Now(), n) == At(old(Now()), n);
        todo := todo - {n};
        done := done + {n};
        error := SweepOne(n, Inventory.For(fails, n));
        if error {
          stopped := Some(n);
        }
      }
    }

    /** cleanupOrphanedCompanions: visits the names with an owned ManagedServiceAccount. */
    method CleanupOrphanedCompanions(fails: Fails)
      returns (error: bool, ghost done: set<Name>, ghost stopped: Option<Name>,
               ghost outcome: map<Name, Inventory.Step>)
      modifies this`msas, this`works
      ensures forall n :: n in outcome <==> At(old(Now()), n).msa == Some(true)
      ensures forall n :: n in outcome ==>
        outcome[n] == Inventory.SweepOrphan(At(old(Now()), n), Inventory.For(fails, n))
      ensures error == stopped.Some? && Inventory.Visits(outcome.Keys, Failing(outcome), done, stopped)
      ensures Partly(old(Now()), Now(), outcome, done) && Respected(old(Now()), Now())
      ensures error <==> exists n ::
        At(old(Now()), n).msa == Some(true) && Inventory.SweepFails(At(old(Now()), n), Inventory.For(fails, n))
    {
      var listed := set n | n in msas && msas[n];
      outcome := map n | n in listed :: Inventory.SweepOrphan(At(Now(), n), Inventory.For(fails, n));
      assert outcome.Keys == listed;
      error, done, stopped := SweepListed(listed, fails, outcome);
      forall n ensures Inventory.Respects(At(old(Now()), n), At(Now(), n)) {
        Inventory.RoundsRespect(At(old(Now()), n), n, None, false, Inventory.For(fails, n));
      }
      SweepErrors(old(Now()), fails, outcome, done, stopped);
    }

    /** One round of the revocation after a mode switch. */
    method RevokeOne(n: Name, standing: set<Name>, fails: set<Inventory.Call>) returns (error: bool, waits: bool)
      modifies this`msas, this`works
      ensures At(Now(), n) == Inventory.Revoke(At(old(Now()), n), n in standing, fails).entry &&
        OnlyAt(old(Now()), Now(), n)
      ensures error == Inventory.Revoke(At(old(Now()), n), n in standing, fails).error
      ensures !error ==> (waits <==> n in standing)
    {
      if Inventory.SweepCheck in fails {
        return true, false;
      }
      error, waits := false, n in standing;
      if !waits {
        error := DropCompanions(n, fails);
      }
    }

    /** The loop of the revocation: counts the names it must wait for, stops at the first error. */
    method RevokeListed(listed: set<Name>, standing: set<Name>, fails: Fails, ghost outcome: map<Name, Inventory.Step>)
      returns (error: bool, pending: nat, ghost done: set<Name>, ghost stopped: Option<Name>)
      requires outcome == map n | n in listed :: Inventory.Revoke(At(Now(), n), n in standing, Inventory.For(fails, n))
      modifies this`msas, this`works
      ensures error == stopped.Some? && Inventory.Visits(listed, Failing(outcome), done, stopped)
      ensures Partly(old(Now()), Now(), outcome, done)
      ensures !error ==> (pending == 0 <==> forall n :: n in listed ==> n !in standing)
    {
      var todo := listed;
      done, stopped, error, pending := {}, None, false, 0;
      while todo != {} && !error
        invariant forall n :: n in listed <==> n in done || n in todo
        invariant forall n :: n in todo ==> n !in done
        invariant Partly(old(Now()), Now(), outcome, done)
        invariant forall n :: n in done ==> (outcome[n].error <==> stopped == Some(n))
        invariant error == stopped.Some?
        invariant stopped.Some? ==> stopped.value in done
        invariant !error ==> (pending == 0 <==> forall n :: n in done ==> n !in standing)
      {
        var n :| n in todo;
        assert At(Now(), n) == At(old(Now()), n);
        todo := todo - {n};
        done := done + {n};
        var waits;
        error, waits := RevokeOne(n, standing, Inventory.For(fails, n));
        if error {
          stopped := Some(n);
        } else if waits {
          pending := pending + 1;
        }
      }
    }

    /**
     cleanupAllDiscoveryCompanions, after a switch away from MCE mode: companions go only where the
     standing Secret is gone; the others are counted and keep the pass from succeeding.
     */
    method CleanupAllDiscoveryCompanions(standing: set<Name>, fails: Fails) returns (ok: bool)
      modifies this`msas, this`works
      ensures Respected(old(Now()), Now())
      ensures forall n :: n in standing ==> At(Now(), n) == At(old(Now()), n)
      ensures ok ==> forall n :: At(old(Now()), n).msa == Some(true) ==>
        n !in standing && At(Now(), n) == Inventory.DropCompanions(At(old(Now()), n), {}).entry
      ensures ok <==> RevokesAll(old(Now()), standing, fails)
    {
      var listed := set n | n in msas && msas[n];
      ghost var outcome := map n | n in listed ::
        Inventory.Revoke(At(Now(), n), n in standing, Inventory.For(fails, n));
      var error, pending, done, stopped := RevokeListed(listed, standing, fails, outcome);
      RevokedSafely(old(Now()), Now(), standing, fails, outcome, done);
      ok := !error && pending == 0;
      if ok {
        forall n | At(old(Now()), n).msa == Some(true)
          ensures n !in standing && At(Now(), n) == Inventory.DropCompanions(At(old(Now()), n), {}).entry
        {
          assert n in listed && !outcome[n].error;
        }
      }
      RevokeErrors(old(Now()), standing, fails, listed, outcome, done, stopped);
    }

    /** cleanupAllDiscoverySpokes: marks every discovered SpokeCluster for deletion, stops at the first error. */
    method CleanupAllDiscoverySpokes(fails: Fails) returns (error: bool)
      modifies this`crs
      ensures forall n ::
        At(Now(), n) == At(old(Now()), n) || At(Now(), n) == Inventory.Prune(At(old(Now()), n), {}).entry
      ensures !error ==> forall n :: At(Now(), n) == Inventory.Prune(At(old(Now()), n), {}).entry
      ensures error <==> exists n :: Inventory.Prune(At(old(Now()), n), Inventory.For(fails, n)).error
    {
      var todo := set n | n in crs && crs[n].labelled;
      error := false;
      while todo != {}
        invariant forall n :: n in todo ==> Inventory.Discovered(At(Now(), n).cr) && At(Now(), n) == At(old(Now()), n)
        invariant forall n :: n !in todo ==> At(Now(), n) == Inventory.Prune(At(old(Now()), n), {}).entry
        invariant !error && forall n :: n !in todo ==>
          !Inventory.Prune(At(old(Now()), n), Inventory.For(fails, n)).error
      {
        var n :| n in todo;
        assert At(Now(), n) == At(old(Now()), n);
        error := PruneOne(n, crs[n], Inventory.For(fails, n));
        if error {
          return;
        }
        todo := todo - {n};
      }
    }

    // ----- the pass -----

    /** After create, update and delete every name is settled, whatever happened to the others. */
    method SettleAll(mcs: seq<Inventory.ManagedCluster>, selector: map<string, string>, fails: Fails)
      returns (errs: set<Name>)
      modifies this
      ensures forall n :: At(Now(), n) == SettledAt(old(Now()), mcs, selector, fails, n).entry
      ensures forall n :: n in errs <==> SettledAt(old(Now()), mcs, selector, fails, n).error
    {
      var existing := map n | n in crs && crs[n].labelled :: crs[n];
      var desired := BuildDesired(mcs, selector, existing);
      assert forall n :: n in existing <==> Inventory.Discovered(At(Now(), n).cr);
      var enrolErrs := EnrolAll(desired, existing, fails);
      forall n | n in existing && n !in desired ensures n in crs && crs[n] == existing[n] {
        assert At(Now(), n) == At(old(Now()), n);
      }
      label enrolled:
      assert forall n :: n !in desired ==> At(Now(), n) == At(old(Now()), n);
      var pruneErrs := PruneAll(desired, existing, fails);
      errs := enrolErrs + pruneErrs;
      forall n
        ensures At(Now(), n) == SettledAt(old(Now()), mcs, selector, fails, n).entry
        ensures n in errs <==> SettledAt(old(Now()), mcs, selector, fails, n).error
      {
        assert Get(desired, n) == Wanted(old(Now()), mcs, selector, n);
        if n !in desired {
          assert At(old@enrolled(Now()), n) == At(old(Now()), n);
        }
      }
    }

    /**
     Reconcile in MCE mode, once the listings have succeeded. An error-free pass leaves the inventory
     Inventory.Final prescribes, in any order of visits.
     */
    method ReconcileMce(mcs: seq<Inventory.ManagedCluster>, selector: map<string, string>, listFails: set<ListCall>,
                        fails: Fails)
      returns (ok: bool)
      modifies this
      ensures Respected(old(Now()), Now())
      ensures forall n ::
        var settled := SettledAt(old(Now()), mcs, selector, fails, n).entry;
        At(Now(), n) == settled || At(Now(), n) == Inventory.SweepOrphan(settled, Inventory.For(fails, n)).entry
      ensures ok ==> forall n ::
        && !Inventory.Settle(At(old(Now()), n), n, Wanted(old(Now()), mcs, selector, n), {}).error
        && At(Now(), n) == Inventory.Final(At(old(Now()), n), n, Wanted(old(Now()), mcs, selector, n))
      ensures ok <==> Discovers(old(Now()), mcs, selector, listFails, fails)
    {
      var errs := SettleAll(mcs, selector, fails);
      forall n ensures Inventory.Respects(At(old(Now()), n), At(Now(), n)) {
        Inventory.RoundsRespect(At(old(Now()), n), n, Wanted(old(Now()), mcs, selector, n), false,
          Inventory.For(fails, n));
      }
      if ListMsas in listFails {
        return false;
      }
      label settled:
      var sweepError, done, stopped, outcome := CleanupOrphanedCompanions(fails);
      RespectedTransitive(old(Now()), old@settled(Now()), Now());
      ok := errs == {} && !sweepError;
      if ok {
        forall n
          ensures !Inventory.Settle(At(old(Now()), n), n, Wanted(old(Now()), mcs, selector, n), {}).error
          ensures At(Now(), n) == Inventory.Final(At(old(Now()), n), n, Wanted(old(Now()), mcs, selector, n))
        {
          assert n !in errs;
          Inventory.NoErrorNoDifference(At(old(Now()), n), n, Wanted(old(Now()), mcs, selector, n),
            Inventory.For(fails, n));
          Inventory.NoErrorNoDifference(At(old@settled(Now()), n), n, None, Inventory.For(fails, n));
        }
      }
    }

    /** Reconcile with the HubConfig absent or terminating. */
    method TearDown(listFails: set<ListCall>, fails: Fails) returns (ok: bool)
      modifies this
      ensures Respected(old(Now()), Now())
      ensures forall n :: Inventory.PartlyTorn(At(old(Now()), n), At(Now(), n), Inventory.For(fails, n))
      ensures ok ==> forall n :: At(Now(), n) == Inventory.Final(At(old(Now()), n), n, None)
      ensures ok <==> TearsDown(old(Now()), listFails, fails)
    {
      if ListSpokes in listFails {
        return false;
      }
      var error := CleanupAllDiscoverySpokes(fails);
      forall n ensures Inventory.Respects(At(old(Now()), n), At(Now(), n)) {
        Inventory.RoundsRespect(At(old(Now()), n), n, None, false, {});
      }
      if error || ListMsas in listFails {
        return false;
      }
      label settled:
      var sweepError, done, stopped, outcome := CleanupOrphanedCompanions(fails);
      RespectedTransitive(old(Now()), old@settled(Now()), Now());
      ok := !sweepError;
      if ok {
        forall n ensures At(Now(), n) == Inventory.Final(At(old(Now()), n), n, None) {
          Inventory.NoErrorNoDifference(At(old@settled(Now()), n), n, None, Inventory.For(fails, n));
        }
      }
    }

    /**
     Reconcile. `hub` and `mcs` are None where reading the HubConfig or listing the ManagedClusters
     fails; `standing` names the spokes whose standing Secret exists.
     */
    method Reconcile(hub: Option<HubView>, selector: map<string, string>, mcs: Option<seq<Inventory.ManagedCluster>>,
                     standing: set<Name>, listFails: set<ListCall>, fails: Fails) returns (ok: bool)
      modifies this
      ensures Respected(old(Now()), Now())
      ensures hub.Some? && hub.value.Active? && hub.value.mode != MceMode ==>
        crs == old(crs) && forall n :: n in standing ==> At(Now(), n) == At(old(Now()), n)
      ensures hub.None? ==> !ok
      ensures hub.Some? && !hub.value.Active? ==> (ok <==> TearsDown(old(Now()), listFails, fails))
      ensures hub.Some? && hub.value.Active? && hub.value.mode != MceMode ==>
        (ok <==> ListMsas !in listFails && RevokesAll(old(Now()), standing, fails))
      ensures hub == Some(Active(MceMode)) ==>
        (ok <==> mcs.Some? && ListSpokes !in listFails && Discovers(old(Now()), mcs.value, selector, listFails, fails))
      ensures ok && (hub.value.Missing? || hub.value.Terminating?) ==>
        forall n :: At(Now(), n) == Inventory.Final(At(old(Now()), n), n, None)
      ensures ok && hub == Some(Active(MceMode)) ==> mcs.Some? && forall n ::
        At(Now(), n) == Inventory.Final(At(old(Now()), n), n, Wanted(old(Now()), mcs.value, selector, n))
      ensures ok && hub.value.Active? && hub.value.mode != MceMode ==>
        crs == old(crs) && forall n :: At(old(Now()), n).msa == Some(true) ==>
          n !in standing && At(Now(), n) == Inventory.DropCompanions(At(old(Now()), n), {}).entry
    {
      if hub.None? {
        return false;
      }
      if !hub.value.Active? {
        ok := TearDown(listFails, fails);
        return;
      }
      if hub.value.mode != MceMode {
        if ListMsas in listFails {
          return false;
        }
        ok := CleanupAllDiscoveryCompanions(standing, fails);
        return;
      }
      if mcs.None? || ListSpokes in listFails {
        return false;
      }
      ok := ReconcileMce(mcs.value, selector, listFails, fails);
    }
  }
}
