/**
 What one uninterrupted discovery pass does to the objects of a single name: its SpokeCluster, the
 ManagedServiceAccount and the ManifestWork in the namespace of that name. The loops that visit the
 names in arbitrary order are in DiscoveryReconciler.dfy.
 */
module Inventory {
  import opened Kube

  /** The manifests of the RBAC ManifestWork; only whether they are current matters. */
  const MANIFESTS := "lightspeed-hub-msa-rbac/1"

  datatype Cr = Cr(labelled: bool, deleting: bool, finalizer: bool, apiServer: string, source: Source)

  datatype Work = Work(owned: bool, manifests: string)

  /** `msa` says whether the ManagedServiceAccount, if any, carries the discovery label. */
  datatype Entry = Entry(cr: Option<Cr>, msa: Option<bool>, work: Option<Work>)

  /** The calls a pass makes for one name. */
  datatype Call =
    | UpdateCr | CheckCr | CreateCr | CreateMsa | GetMsa | CreateWork | GetWork | UpdateWork
    | DeleteCr
    | SweepCheck | SweepGetWork | SweepDeleteWork | SweepGetMsa | SweepDeleteMsa

  type Fails = map<Name, set<Call>>

  /** The calls that fail for one name. */
  function For(fails: Fails, n: Name): set<Call> {
    if n in fails then fails[n] else {}
  }

  /** The objects afterwards, and whether an error was recorded. */
  datatype Step = Step(entry: Entry, error: bool)

  // ----- which names are wanted -----

  /** spec.managedClusterClientConfigs, None standing for an element without a url string. */
  datatype ManagedCluster =
    ManagedCluster(name: Name, deleting: bool, labels: map<string, string>, urls: seq<Option<string>>)

  predicate IsHttps(url: Option<string>) {
    url.Some? && "https://" <= url.value
  }

  /** extractAPIServer: the first HTTPS URL. */
  function FirstHttps(urls: seq<Option<string>>): Option<string> {
    if urls == [] then None
    else if IsHttps(urls[0]) then urls[0]
    else FirstHttps(urls[1..])
  }

  predicate Matches(labels: map<string, string>, selector: map<string, string>) {
    forall k :: k in selector ==> k in labels && labels[k] == selector[k]
  }

  /** Not detaching, not the hub itself, and selected. */
  predicate Eligible(mc: ManagedCluster, selector: map<string, string>) {
    && !mc.deleting
    && !("local-cluster" in mc.labels && mc.labels["local-cluster"] == "true")
    && Matches(mc.labels, selector)
  }

  /** The API server recorded for a name; `listed` is that of its discovered SpokeCluster, if there is one. */
  function Address(mc: ManagedCluster, listed: Option<string>): Option<string> {
    var url := FirstHttps(mc.urls);
    if url.Some? then url else listed
  }

  /** What n is to have once `mc` has been looked at; `before` is what it was to have. */
  function Overrides(mc: ManagedCluster, selector: map<string, string>, listed: Option<string>, n: Name,
                     before: Option<string>): Option<string> {
    if mc.name == n && Eligible(mc, selector) && Address(mc, listed).Some? then Address(mc, listed) else before
  }

  /** The desired API server of n, None if n is not desired. A later ManagedCluster overrides an earlier one. */
  function Desired(mcs: seq<ManagedCluster>, selector: map<string, string>, listed: Option<string>,
                   n: Name): Option<string> {
    if mcs == [] then None
    else Overrides(mcs[|mcs| - 1], selector, listed, n, Desired(mcs[..|mcs| - 1], selector, listed, n))
  }

  predicate Discovered(cr: Option<Cr>) {
    cr.Some? && cr.value.labelled
  }

  function ListedAddress(cr: Option<Cr>): Option<string> {
    if Discovered(cr) then Some(cr.value.apiServer) else None
  }

  // ----- create and update -----

  function EnsureMsa(x: Entry, fails: set<Call>): Step {
    if CreateMsa in fails then Step(x, true)
    else if x.msa.None? then Step(x.(msa := Some(true)), false)
    else Step(x, GetMsa in fails || !x.msa.value)
  }

  function EnsureWork(x: Entry, fails: set<Call>): Step {
    if CreateWork in fails then Step(x, true)
    else if x.work.None? then Step(x.(work := Some(Work(true, MANIFESTS))), false)
    else if GetWork in fails || !x.work.value.owned then Step(x, true)
    else if x.work.value.manifests == MANIFESTS then Step(x, false)
    else if UpdateWork in fails then Step(x, true)
    else Step(x.(work := Some(x.work.value.(manifests := MANIFESTS))), false)
  }

  function EnsureCompanions(x: Entry, fails: set<Call>): Step {
    var msa := EnsureMsa(x, fails);
    if msa.error then msa else EnsureWork(msa.entry, fails)
  }

  /** One round of the create/update loop. */
  function Enrol(x: Entry, n: Name, address: string, fails: set<Call>): Step {
    if Discovered(x.cr) then
      var restored := x.cr.value.(apiServer := address, source := FromMce(n));
      if restored == x.cr.value then EnsureCompanions(x, fails)
      else if UpdateCr in fails then Step(x, true)
      else EnsureCompanions(x.(cr := Some(restored)), fails)
    else if CheckCr in fails then Step(x, true)
    else if x.cr.Some? then Step(x, false)
    else if CreateCr in fails then Step(x, true)
    else EnsureCompanions(x.(cr := Some(Cr(true, false, false, address, FromMce(n)))), fails)
  }

  // ----- delete -----

  /** Deleting marks an object that has a finalizer and removes one that has none. */
  function Delete(cr: Cr): Option<Cr> {
    if cr.finalizer then Some(cr.(deleting := true)) else None
  }

  /** One round of the delete loop, for a discovered SpokeCluster that is not desired. */
  function Prune(x: Entry, fails: set<Call>): Step {
    if !Discovered(x.cr) || x.cr.value.deleting then Step(x, false)
    else if DeleteCr in fails then Step(x, true)
    else Step(x.(cr := Delete(x.cr.value)), false)
  }

  /** Both loops, for one name. */
  function Settle(x: Entry, n: Name, desired: Option<string>, fails: set<Call>): Step {
    if desired.Some? then Enrol(x, n, desired.value, fails) else Prune(x, fails)
  }

  // ----- orphan cleanup -----

  /** deleteMSARBAC and then, only if it succeeded, deleteMSA. */
  function DropCompanions(x: Entry, fails: set<Call>): Step {
    if SweepGetWork in fails then Step(x, true)
    else if x.work.Some? && x.work.value.owned && SweepDeleteWork in fails then Step(x, true)
    else
      var unworked := if x.work.Some? && x.work.value.owned then x.(work := None) else x;
      if SweepGetMsa in fails then Step(unworked, true)
      else if x.msa != Some(true) then Step(unworked, false)
      else if SweepDeleteMsa in fails then Step(unworked, true)
      else Step(unworked.(msa := None), false)
  }

  /** One round of cleanupOrphanedCompanions. */
  function SweepOrphan(x: Entry, fails: set<Call>): Step {
    if SweepCheck in fails then Step(x, true)
    else if Discovered(x.cr) then Step(x, false)
    else DropCompanions(x, fails)
  }

  /** One round of cleanupAllDiscoveryCompanions; `held` says that the standing Secret is still there. */
  function Revoke(x: Entry, held: bool, fails: set<Call>): Step {
    if SweepCheck in fails then Step(x, true)
    else if held then Step(x, false)
    else DropCompanions(x, fails)
  }

  /** The orphan sweep visits the names with an owned ManagedServiceAccount. */
  function Swept(x: Entry): Entry {
    if x.msa == Some(true) then SweepOrphan(x, {}).entry else x
  }

  /** What a teardown pass may have done to a name before it stopped. */
  predicate PartlyTorn(x: Entry, y: Entry, fails: set<Call>) {
    || y == x
    || y == Prune(x, {}).entry
    || y == SweepOrphan(x, fails).entry
    || y == SweepOrphan(Prune(x, {}).entry, fails).entry
  }

  // ----- what an error-free pass amounts to -----

  /** A SpokeCluster of the same name that discovery did not create. */
  predicate Collides(x: Entry) {
    x.cr.Some? && !x.cr.value.labelled
  }

  predicate Enrolled(x: Entry, desired: Option<string>) {
    desired.Some? && !Collides(x)
  }

  /** Failing calls can only produce errors: without an error the outcome is the failure-free one. */
  lemma NoErrorNoDifference(x: Entry, n: Name, desired: Option<string>, fails: set<Call>)
    ensures !Settle(x, n, desired, fails).error ==> Settle(x, n, desired, fails) == Settle(x, n, desired, {})
    ensures !SweepOrphan(x, fails).error ==> SweepOrphan(x, fails) == SweepOrphan(x, {})
  {
  }

  /** Owned ManifestWorks come with owned ManagedServiceAccounts. */
  predicate RecordOk(x: Entry) {
    x.work.Some? && x.work.value.owned ==> x.msa == Some(true)
  }

  function Final(x: Entry, n: Name, desired: Option<string>): Entry {
    Swept(Settle(x, n, desired, {}).entry)
  }

  /**
   The inventory after an error-free pass: the discovered, non-terminating SpokeClusters are exactly
   the desired ones that neither collide nor are already terminating, with the desired fields; owned
   companions are exactly those of enrolled names and of names whose discovered SpokeCluster is
   still terminating; nothing that is not discovery's own has changed.
   */
  lemma FinalExactly(x: Entry, n: Name, desired: Option<string>)
    requires !Settle(x, n, desired, {}).error && RecordOk(x)
    ensures var y := Final(x, n, desired);
      && (Discovered(y.cr) && !y.cr.value.deleting <==> Enrolled(x, desired) && !(x.cr.Some? && x.cr.value.deleting))
      && (Enrolled(x, desired) ==>
        Discovered(y.cr) && y.cr.value.apiServer == desired.value && y.cr.value.source == FromMce(n))
      && (y.msa == Some(true) <==> Enrolled(x, desired) || (x.msa == Some(true) && Discovered(y.cr)))
      && (y.work.Some? && y.work.value.owned <==>
          Enrolled(x, desired) || (x.work.Some? && x.work.value.owned && Discovered(y.cr)))
      && (Enrolled(x, desired) ==> y.work.value.manifests == MANIFESTS)
      && (Collides(x) ==> y.cr == x.cr)
      && (x.msa == Some(false) ==> y.msa == x.msa)
      && (x.work.Some? && !x.work.value.owned ==> y.work == x.work)
      && RecordOk(y)
  {
  }

  /** What is not discovery's own is left alone, and the retry record is kept. */
  predicate Respects(x: Entry, y: Entry) {
    && (Collides(x) ==> y.cr == x.cr)
    && (x.msa == Some(false) ==> y.msa == x.msa)
    && (x.work.Some? && !x.work.value.owned ==> y.work == x.work)
    && (RecordOk(x) ==> RecordOk(y))
  }

  /** Whatever fails, every round of every loop respects what is not discovery's own, and revocation what is held. */
  lemma RoundsRespect(x: Entry, n: Name, desired: Option<string>, held: bool, fails: set<Call>)
    ensures Respects(x, Settle(x, n, desired, fails).entry)
    ensures Respects(x, SweepOrphan(x, fails).entry)
    ensures Respects(x, Revoke(x, held, fails).entry)
    ensures held ==> Revoke(x, held, fails).entry == x
  {
  }

  // ----- the orphan sweep and its errors -----

  /**
   The listed names a loop that stops at its first error may have visited: `stopped` is the name
   that failed. Every such set arises for some order of visits.
   */
  ghost predicate Visits(listed: set<Name>, failing: set<Name>, done: set<Name>, stopped: Option<Name>) {
    && done <= listed
    && (stopped.Some? ==> stopped.value in done)
    && (stopped.None? ==> done == listed)
    && forall n :: n in done ==> (n in failing <==> stopped == Some(n))
  }

  /** A call the sweep makes for an owned ManagedServiceAccount fails. */
  predicate SweepFails(x: Entry, fails: set<Call>) {
    || SweepCheck in fails
    || (!Discovered(x.cr) &&
        (|| SweepGetWork in fails
         || (x.work.Some? && x.work.value.owned && SweepDeleteWork in fails)
         || SweepGetMsa in fails
         || SweepDeleteMsa in fails))
  }

  lemma SweepFailsExactly(x: Entry, fails: set<Call>)
    requires x.msa == Some(true)
    ensures SweepOrphan(x, fails).error <==> SweepFails(x, fails)
  {
  }

  /**
   The orphan sweep does not isolate errors: an orphan none of whose own calls fail is sure to be
   swept, in every order of visits, exactly when no call for another listed name fails.
   */
  lemma {:induction false} SweepNotIsolated(entries: map<Name, Entry>, fails: Fails, n: Name)
    requires n in entries && entries[n].msa == Some(true) && !Discovered(entries[n].cr) && For(fails, n) == {}
    ensures var listed := set m | m in entries && entries[m].msa == Some(true);
      var failing := set m | m in listed && SweepOrphan(entries[m], For(fails, m)).error;
      (forall done, stopped :: Visits(listed, failing, done, stopped) ==>
        (if n in done then SweepOrphan(entries[n], For(fails, n)).entry else entries[n]) ==
          SweepOrphan(entries[n], {}).entry) <==>
      forall m :: m in listed ==> !SweepFails(entries[m], For(fails, m))
  {
    var listed := set m | m in entries && entries[m].msa == Some(true);
    var failing := set m | m in listed && SweepOrphan(entries[m], For(fails, m)).error;
    assert SweepOrphan(entries[n], {}).entry != entries[n];
    forall m | m in listed ensures m in failing <==> SweepFails(entries[m], For(fails, m)) {
    }
    if failing != {} {
      var f :| f in failing;
      assert Visits(listed, failing, {f}, Some(f));
    }
  }

  /** What a name wants does not change because a pass has given it that. */
  lemma {:induction false} DesiredSettles(mcs: seq<ManagedCluster>, selector: map<string, string>,
                                          listed: Option<string>, n: Name)
    ensures var d := Desired(mcs, selector, listed, n);
      d.Some? ==> Desired(mcs, selector, d, n) == d
    decreases |mcs|
  {
    if mcs != [] {
      DesiredSettles(mcs[..|mcs| - 1], selector, listed, n);
    }
  }

  /** Nothing desired when listed means nothing desired whatever is listed. */
  lemma {:induction false} UndesiredStays(mcs: seq<ManagedCluster>, selector: map<string, string>,
                                          listed: Option<string>,
                                          other: Option<string>, n: Name)
    requires listed.Some? && Desired(mcs, selector, listed, n).None?
    ensures Desired(mcs, selector, other, n).None?
    decreases |mcs|
  {
    if mcs != [] {
      UndesiredStays(mcs[..|mcs| - 1], selector, listed, other, n);
    }
  }

  /**
   A second pass over unchanged ManagedClusters wants the same, reports no error and changes nothing.
   */
  lemma {:induction false} SecondPassQuiet(mcs: seq<ManagedCluster>, selector: map<string, string>, x: Entry, n: Name)
    requires RecordOk(x)
    requires !Settle(x, n, Desired(mcs, selector, ListedAddress(x.cr), n), {}).error
    ensures var desired := Desired(mcs, selector, ListedAddress(x.cr), n);
      var y := Final(x, n, desired);
      && Desired(mcs, selector, ListedAddress(y.cr), n) == desired
      && Settle(y, n, desired, {}) == Step(y, false)
      && Final(y, n, desired) == y
  {
    var desired := Desired(mcs, selector, ListedAddress(x.cr), n);
    var y := Final(x, n, desired);
    FinalExactly(x, n, desired);
    if desired.Some? {
      DesiredSettles(mcs, selector, ListedAddress(x.cr), n);
      assert Collides(x) ==> ListedAddress(x.cr) == ListedAddress(y.cr);
    } else if Discovered(x.cr) {
      UndesiredStays(mcs, selector, ListedAddress(x.cr), ListedAddress(y.cr), n);
    } else {
      assert y.cr == x.cr;
    }
    assert Settle(y, n, desired, {}) == Step(y, false);
  }

  /** The first URL that starts with https:// is this one. */
  ghost predicate Offers(urls: seq<Option<string>>, address: string) {
    exists i :: 0 <= i < |urls| && urls[i] == Some(address) && "https://" <= address
      && forall j :: 0 <= j < i && urls[j].Some? ==> !("https://" <= urls[j].value)
  }

  ghost predicate OffersNone(urls: seq<Option<string>>) {
    forall i :: 0 <= i < |urls| && urls[i].Some? ==> !("https://" <= urls[i].value)
  }

  lemma {:induction false} FirstHttpsExactly(urls: seq<Option<string>>, address: string)
    ensures Offers(urls, address) <==> FirstHttps(urls) == Some(address)
    ensures OffersNone(urls) <==> FirstHttps(urls).None?
  {
    if urls != [] {
      FirstHttpsExactly(urls[1..], address);
      assert forall i :: 0 < i < |urls| ==> urls[i] == urls[1..][i - 1];
      if Offers(urls[1..], address) && !IsHttps(urls[0]) {
        var i :| 0 <= i < |urls[1..]| && urls[1..][i] == Some(address) && "https://" <= address
          && forall j :: 0 <= j < i && urls[1..][j].Some? ==> !("https://" <= urls[1..][j].value);
        assert urls[i + 1] == Some(address);
      }
      if Offers(urls, address) && !IsHttps(urls[0]) {
        var i :| 0 <= i < |urls| && urls[i] == Some(address) && "https://" <= address
          && forall j :: 0 <= j < i && urls[j].Some? ==> !("https://" <= urls[j].value);
        assert urls[1..][i - 1] == Some(address);
      }
    }
  }

  /** This ManagedCluster, not detaching, not the hub itself and selected, gives n this address. */
  ghost predicate Provides(mc: ManagedCluster, selector: map<string, string>, listed: Option<string>, n: Name,
                           address: string) {
    && mc.name == n
    && !mc.deleting
    && ("local-cluster" in mc.labels ==> mc.labels["local-cluster"] != "true")
    && (forall k :: k in selector ==> k in mc.labels && mc.labels[k] == selector[k])
    && (Offers(mc.urls, address) || (OffersNone(mc.urls) && listed == Some(address)))
  }

  lemma ProvidesExactly(mc: ManagedCluster, selector: map<string, string>, listed: Option<string>, n: Name,
                        before: Option<string>, address: string)
    ensures mc.name == n && (before.None? || Overrides(mc, selector, listed, n, None).Some?) ==>
      (Overrides(mc, selector, listed, n, before) == Some(address) <==> Provides(mc, selector, listed, n, address))
    ensures mc.name != n ==> Overrides(mc, selector, listed, n, before) == before
  {
    FirstHttpsExactly(mc.urls, address);
  }

  /**
   A name wants an address if and only if the ManagedCluster of that name is not detaching, not the hub
   itself, carries every selected label, and either that address is the first HTTPS URL it offers, or it
   offers none and the address is the one already recorded.
   */
  lemma {:induction false} DesiredExactly(mcs: seq<ManagedCluster>, selector: map<string, string>,
                                          listed: Option<string>, n: Name, address: string)
    requires forall i, j :: 0 <= i < j < |mcs| ==> mcs[i].name != mcs[j].name
    ensures Desired(mcs, selector, listed, n) == Some(address) <==>
      exists mc :: mc in mcs && Provides(mc, selector, listed, n, address)
    decreases |mcs|
  {
    if mcs != [] {
      var init, last := mcs[..|mcs| - 1], mcs[|mcs| - 1];
      DesiredExactly(init, selector, listed, n, address);
      assert mcs == init + [last];
      forall mc | mc in init ensures mc.name != last.name {
        var i :| 0 <= i < |init| && init[i] == mc;
        assert mcs[i].name != mcs[|mcs| - 1].name;
      }
      if last.name == n {
        UnnamedUndesired(init, selector, listed, n);
      }
      ProvidesExactly(last, selector, listed, n, Desired(init, selector, listed, n), address);
    }
  }

  lemma {:induction false} UnnamedUndesired(mcs: seq<ManagedCluster>, selector: map<string, string>,
                                            listed: Option<string>, n: Name)
    requires forall mc :: mc in mcs ==> mc.name != n
    ensures Desired(mcs, selector, listed, n).None?
    decreases |mcs|
  {
    if mcs != [] {
      assert mcs[|mcs| - 1] in mcs;
      UnnamedUndesired(mcs[..|mcs| - 1], selector, listed, n);
    }
  }

  /**
   Drift is repaired: whatever is recorded for an eligible ManagedCluster that offers an HTTPS URL, an
   error-free pass leaves that URL and the MCE source, unless a SpokeCluster made by hand has the name.
   */
  lemma DriftRepaired(mcs: seq<ManagedCluster>, selector: map<string, string>, x: Entry, mc: ManagedCluster,
                      address: string)
    requires forall i, j :: 0 <= i < j < |mcs| ==> mcs[i].name != mcs[j].name
    requires mc in mcs && Offers(mc.urls, address)
    requires Provides(mc, selector, ListedAddress(x.cr), mc.name, address)
    requires RecordOk(x) && (x.cr.Some? ==> x.cr.value.labelled)
    ensures var desired := Desired(mcs, selector, ListedAddress(x.cr), mc.name);
      !Settle(x, mc.name, desired, {}).error ==>
        var y := Final(x, mc.name, desired);
        && y.cr.Some? && y.cr.value.labelled
        && y.cr.value.apiServer == address && y.cr.value.source == FromMce(mc.name)
  {
    DesiredExactly(mcs, selector, ListedAddress(x.cr), mc.name, address);
    var desired := Desired(mcs, selector, ListedAddress(x.cr), mc.name);
    if !Settle(x, mc.name, desired, {}).error {
      FinalExactly(x, mc.name, desired);
    }
  }

  // ----- errors -----

  /** A call that is made for the companions of n fails, or one of them is not discovery's own. */
  predicate CompanionsFail(x: Entry, fails: set<Call>) {
    || CreateMsa in fails
    || (x.msa.Some? && (GetMsa in fails || x.msa == Some(false)))
    || CreateWork in fails
    || (x.work.Some? &&
        (GetWork in fails || !x.work.value.owned || (x.work.value.manifests != MANIFESTS && UpdateWork in fails)))
  }

  /** Exactly when the create/update loop records an error for a name. */
  lemma EnrolFailsExactly(x: Entry, n: Name, address: string, fails: set<Call>)
    ensures Enrol(x, n, address, fails).error <==>
      if x.cr.Some? && x.cr.value.labelled then
        || ((x.cr.value.apiServer != address || x.cr.value.source != FromMce(n)) && UpdateCr in fails)
        || CompanionsFail(x, fails)
      else
        || CheckCr in fails
        || (x.cr.None? && (CreateCr in fails || CompanionsFail(x, fails)))
  {
  }

  /** What the loop creates is discovery's own, live, and has no finalizer yet. */
  lemma EnrolCreates(x: Entry, n: Name, address: string, fails: set<Call>)
    requires x.cr.None?
    ensures var y := Enrol(x, n, address, fails).entry;
      if CheckCr in fails || CreateCr in fails then y == x
      else y.cr == Some(Cr(true, false, false, address, FromMce(n)))
  {
  }

  /** And the delete loop; a discovered SpokeCluster with a finalizer is only marked. */
  lemma PruneExactly(x: Entry, fails: set<Call>)
    ensures var step := Prune(x, fails);
      var deletes := x.cr.Some? && x.cr.value.labelled && !x.cr.value.deleting;
      && (step.error <==> deletes && DeleteCr in fails)
      && step.entry.msa == x.msa && step.entry.work == x.work
      && (!deletes || step.error ==> step.entry.cr == x.cr)
      && (deletes && !step.error ==>
          step.entry.cr == if x.cr.value.finalizer then Some(x.cr.value.(deleting := true)) else None)
  {
  }
}
