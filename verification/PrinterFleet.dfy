/** Which adapters live after a reconcile, and for which connection facts. */
module PrinterFleets {
  import opened Prelude
  import opened JobTracking
  import opened PrinterManagers
  import opened PrinterManagerRuns

  ghost predicate Apart(adapters: seq<Adapter>) {
    forall i, j :: 0 <= i < j < |adapters| ==> adapters[i].id != adapters[j].id
  }

  ghost predicate Lives(f: Fleet, a: Adapter) {
    a in f.adapters
  }

  /** No adapter of that printer lives. */
  ghost predicate Down(f: Fleet, id: string) {
    forall a :: Lives(f, a) ==> a.id != id
  }

  /** What one entry of the cloud's list makes of the adapter of its printer. A printer of another vendor is left as it is;
      one without connection facts has no adapter; a live adapter stays, with its jobs, when it has those very facts and is
      not a wedged Bambu; otherwise a new one with those facts and no jobs takes its place, or none when it does not start. */
  ghost predicate Followed(before: Fleet, p: Printer, after: Fleet)
    requires p.id.Some?
  {
    var id := p.id.value;
    var stays := exists a: Adapter :: Lives(before, a) && a.id == id && a.fingerprint == p.fingerprint && (p.vendor == Klipper || !p.wedged);
    if p.vendor != Bambu && p.vendor != Klipper then SameFor(before, after, id)
    else if !p.complete then Down(after, id)
    else if stays then SameFor(before, after, id)
    else if p.starts then forall a: Adapter :: a.id == id ==> (Lives(after, a) <==> a == Adapter(id, p.fingerprint, []))
    else Down(after, id)
  }

  ghost predicate SameFor(f: Fleet, g: Fleet, id: string) {
    forall a: Adapter :: a.id == id ==> (Lives(f, a) <==> Lives(g, a))
  }

  // ----- one adapter ------------------------------------------------------------------------------

  lemma {:induction false} StopIsExact(f: Fleet, id: string, failing: set<string>)
    requires Apart(f.adapters)
    ensures Apart(Stop(f, id, failing).adapters)
    ensures Down(Stop(f, id, failing), id)
    ensures forall a :: Lives(Stop(f, id, failing), a) <==> Lives(f, a) && a.id != id
  {
    var i := IndexOf(f.adapters, id);
    if i < |f.adapters| {
      var rest := f.adapters[..i] + f.adapters[i + 1..];
      forall a ensures a in rest <==> a in f.adapters && a.id != id {
        if a in f.adapters && a.id != id {
          var k :| 0 <= k < |f.adapters| && f.adapters[k] == a;
          assert k < i ==> rest[k] == a;
          assert k > i ==> rest[k - 1] == a;
        }
      }
    } else {
      forall a | a in f.adapters ensures a.id != id {
        var k :| 0 <= k < |f.adapters| && f.adapters[k] == a;
      }
    }
  }

  /** Starting an adapter whose printer has none. */
  lemma {:induction false} StartIsExact(f: Fleet, a: Adapter)
    requires Apart(f.adapters) && Down(f, a.id)
    ensures Apart(f.adapters + [a])
    ensures forall b :: Lives(f.(adapters := f.adapters + [a]), b) <==> Lives(f, b) || b == a
  {
    assert forall i :: 0 <= i < |f.adapters| ==> Lives(f, f.adapters[i]);
  }

  lemma {:induction false} UnchangedIsStaying(f: Fleet, id: string, p: Printer)
    requires Apart(f.adapters)
    ensures Unchanged(f, id, p) <==>
            exists a :: Lives(f, a) && a.id == id && a.fingerprint == p.fingerprint && !(p.vendor == Bambu && p.wedged)
  {
    var i := IndexOf(f.adapters, id);
    if i < |f.adapters| {
      assert Lives(f, f.adapters[i]);
    }
    if a :| Lives(f, a) && a.id == id {
      var k :| 0 <= k < |f.adapters| && f.adapters[k] == a;
      assert k == i;
    }
  }

  lemma {:induction false} OneIsFollowed(f: Fleet, p: Printer, failing: set<string>)
    requires Apart(f.adapters)
    ensures var g := ReconcileOne(f, p, failing);
            && Apart(g.adapters) && (p.id.Some? ==> Followed(f, p, g))
            && forall id :: p.id != Some(id) ==> SameFor(f, g, id)
  {
    if p.id.Some? {
      hide Apart, Lives, Stop, Unchanged;
      var id := p.id.value;
      StopIsExact(f, id, failing);
      UnchangedIsStaying(f, id, p);
      StartIsExact(Stop(f, id, failing), Adapter(id, p.fingerprint, []));
    }
  }

  // ----- the whole list ---------------------------------------------------------------------------

  lemma {:induction false} UnlistedAreStopped(f: Fleet, ids: seq<string>, desired: set<string>, failing: set<string>)
    requires Apart(f.adapters)
    ensures var g := StopUnlisted(f, ids, desired, failing);
            && Apart(g.adapters)
            && forall a :: Lives(g, a) <==> Lives(f, a) && (a.id !in ids || a.id in desired)
    decreases |ids|
  {
    hide Apart, Lives, Stop;
    if ids != [] {
      StopIsExact(f, ids[0], failing);
      UnlistedAreStopped(if ids[0] in desired then f else Stop(f, ids[0], failing), ids[1..], desired, failing);
      assert forall id :: id in ids <==> id == ids[0] || id in ids[1..];
    }
  }

  /** The fleet just before entry `i` of the list is looked at. */
  function Reached(f: Fleet, printers: seq<Printer>, failing: set<string>, i: nat): Fleet
    requires i <= |printers|
  {
    if i == 0 then f else ReconcileOne(Reached(f, printers, failing, i - 1), printers[i - 1], failing)
  }

  lemma {:induction false} EachReaches(f: Fleet, printers: seq<Printer>, failing: set<string>)
    ensures ReconcileEach(f, printers, failing) == Reached(f, printers, failing, |printers|)
    decreases |printers|
  {
    hide ReconcileOne;
    if printers != [] {
      EachReaches(ReconcileOne(f, printers[0], failing), printers[1..], failing);
      LaterReach(f, printers, failing, |printers| - 1);
    }
  }

  lemma {:induction false} LaterReach(f: Fleet, printers: seq<Printer>, failing: set<string>, i: nat)
    requires i < |printers|
    ensures Reached(ReconcileOne(f, printers[0], failing), printers[1..], failing, i) == Reached(f, printers, failing, i + 1)
  {
    hide ReconcileOne;
    if i > 0 {
      LaterReach(f, printers, failing, i - 1);
      assert printers[1..][i - 1] == printers[i];
    }
  }

  lemma {:induction false} ReachedIsApart(f: Fleet, printers: seq<Printer>, failing: set<string>, i: nat)
    requires Apart(f.adapters) && i <= |printers|
    ensures Apart(Reached(f, printers, failing, i).adapters)
  {
    hide Apart, ReconcileOne, Followed, SameFor;
    if i > 0 {
      ReachedIsApart(f, printers, failing, i - 1);
      OneIsFollowed(Reached(f, printers, failing, i - 1), printers[i - 1], failing);
    }
  }

  /** Entries that name other printers leave the adapter of this one alone. */
  lemma {:induction false} OthersLeaveIt(f: Fleet, printers: seq<Printer>, failing: set<string>, i: nat, j: nat, id: string)
    requires Apart(f.adapters) && i <= j <= |printers|
    requires forall k :: i <= k < j ==> printers[k].id != Some(id)
    ensures SameFor(Reached(f, printers, failing, i), Reached(f, printers, failing, j), id)
    decreases j
  {
    hide Apart, ReconcileOne, Followed, Lives;
    if i < j {
      OthersLeaveIt(f, printers, failing, i, j - 1, id);
      ReachedIsApart(f, printers, failing, j - 1);
      OneIsFollowed(Reached(f, printers, failing, j - 1), printers[j - 1], failing);
    }
  }

  lemma {:induction false} DesiredAreListed(printers: seq<Printer>, id: string)
    ensures id in Desired(printers) <==> exists i :: 0 <= i < |printers| && printers[i].id == Some(id)
  {
  }

  lemma {:induction false} LiveAreNamed(f: Fleet, a: Adapter)
    requires Lives(f, a)
    ensures a.id in Ids(f.adapters)
  {
    var i :| 0 <= i < |f.adapters| && f.adapters[i] == a;
    assert Ids(f.adapters)[i] == a.id;
  }

  /** `f'` follows the cloud's list from `f`: a printer the list does not name has no adapter; one it names once has the
      adapter its entry asks for, and after several entries for one printer the last has been followed. */
  ghost predicate FollowsTheList(f: Fleet, printers: seq<Printer>, f': Fleet) {
    && (forall id :: (forall i :: 0 <= i < |printers| ==> printers[i].id != Some(id)) ==> Down(f', id))
    && (forall i :: 0 <= i < |printers| && NamedOnce(printers, i) ==> Followed(f, printers[i], f'))
    && (forall i :: 0 <= i < |printers| && NamedLast(printers, i) ==> Matches(printers[i], f'))
  }

  /** The adapter of a printer has the connection facts of its entry, and is there when it can start. */
  ghost predicate Matches(p: Printer, f: Fleet)
    requires p.id.Some?
  {
    var id := p.id.value;
    p.vendor == Bambu || p.vendor == Klipper ==>
      if !p.complete then Down(f, id)
      else
        && (forall a :: Lives(f, a) && a.id == id ==> a.fingerprint == p.fingerprint)
        && (p.starts ==> exists a :: Lives(f, a) && a.id == id)
  }

  lemma {:induction false} FollowedMatches(f: Fleet, p: Printer, g: Fleet)
    requires p.id.Some? && Apart(f.adapters) && Followed(f, p, g)
    ensures Matches(p, g)
  {
    var id := p.id.value;
    if (p.vendor == Bambu || p.vendor == Klipper) && p.complete {
      if b :| Lives(f, b) && b.id == id && b.fingerprint == p.fingerprint && (p.vendor == Klipper || !p.wedged) {
        assert Lives(g, b);
        forall a | Lives(g, a) && a.id == id ensures a == b {
          assert Lives(f, a);
        }
      } else if p.starts {
        assert Lives(g, Adapter(id, p.fingerprint, []));
      }
    }
  }

  predicate NamedOnce(printers: seq<Printer>, i: nat)
    requires i < |printers|
  {
    printers[i].id.Some? && forall j :: 0 <= j < |printers| && j != i ==> printers[j].id != printers[i].id
  }

  predicate NamedLast(printers: seq<Printer>, i: nat)
    requires i < |printers|
  {
    printers[i].id.Some? && forall j :: i < j < |printers| ==> printers[j].id != printers[i].id
  }

  lemma {:induction false} FollowedSame(f: Fleet, g: Fleet, p: Printer, g': Fleet, f': Fleet)
    requires p.id.Some? && Followed(g, p, g') && SameFor(f, g, p.id.value) && SameFor(g', f', p.id.value)
    ensures Followed(f, p, f')
  {
    hide Lives;
  }

  lemma {:induction false} EntryIsFollowed(f: Fleet, printers: seq<Printer>, failing: set<string>, i: nat)
    requires Apart(f.adapters) && i < |printers| && NamedLast(printers, i)
    ensures Matches(printers[i], Reached(f, printers, failing, |printers|))
    ensures NamedOnce(printers, i) ==> Followed(f, printers[i], Reached(f, printers, failing, |printers|))
  {
    hide Apart, Lives, Followed, Matches, SameFor, ReconcileOne;
    var id := printers[i].id.value;
    var g, g' := Reached(f, printers, failing, i), Reached(f, printers, failing, i + 1);
    ReachedIsApart(f, printers, failing, i);
    OneIsFollowed(g, printers[i], failing);
    OthersLeaveIt(f, printers, failing, i + 1, |printers|, id);
    ItselfIsSame(g, id);
    FollowedSame(g, g, printers[i], g', Reached(f, printers, failing, |printers|));
    FollowedMatches(g, printers[i], Reached(f, printers, failing, |printers|));
    if NamedOnce(printers, i) {
      OthersLeaveIt(f, printers, failing, 0, i, id);
      FollowedSame(f, g, printers[i], g', Reached(f, printers, failing, |printers|));
    }
  }

  lemma {:induction false} ItselfIsSame(f: Fleet, id: string)
    ensures SameFor(f, f, id)
  {
  }

  lemma {:induction false} ReconcileIsExact(f: Fleet, printers: seq<Printer>, failing: set<string>)
    requires Apart(f.adapters)
    ensures var f' := Reconcile(f, printers, failing); Apart(f'.adapters) && FollowsTheList(f, printers, f')
  {
    hide Apart, Followed, Matches, StopUnlisted, ReconcileEach, Desired, Ids;
    var kept := StopUnlisted(f, Ids(f.adapters), Desired(printers), failing);
    var f' := Reconcile(f, printers, failing);
    UnlistedAreStopped(f, Ids(f.adapters), Desired(printers), failing);
    forall a | Lives(f, a) ensures a.id in Ids(f.adapters) {
      LiveAreNamed(f, a);
    }
    EachReaches(kept, printers, failing);
    ReachedIsApart(kept, printers, failing, |printers|);
    forall id | forall i :: 0 <= i < |printers| ==> printers[i].id != Some(id) ensures Down(f', id) {
      hide Lives;
      DesiredAreListed(printers, id);
      OthersLeaveIt(kept, printers, failing, 0, |printers|, id);
    }
    forall i | 0 <= i < |printers| && NamedLast(printers, i)
      ensures Matches(printers[i], f')
      ensures NamedOnce(printers, i) ==> Followed(f, printers[i], f')
    {
      EntryIsFollowed(kept, printers, failing, i);
      DesiredAreListed(printers, printers[i].id.value);
      ItselfIsSame(f', printers[i].id.value);
      if NamedOnce(printers, i) {
        FollowedSame(f, kept, printers[i], f', f');
      }
    }
  }

  // ----- over runs --------------------------------------------------------------------------------

  lemma {:induction false} SameIdsApart(a: seq<Adapter>, b: seq<Adapter>)
    requires Apart(a) && |a| == |b| && forall i :: 0 <= i < |a| ==> b[i].id == a[i].id
    ensures Apart(b)
  {
  }

  lemma {:induction false} AckKeepsIds(adapters: seq<Adapter>, keys: set<JobKey>, failing: set<string>)
    ensures var b := AckAdapters(adapters, keys, failing);
            |b| == |adapters| && forall i :: 0 <= i < |b| ==> b[i].id == adapters[i].id
  {
    if adapters != [] {
      AckKeepsIds(adapters[1..], keys, failing);
    }
  }

  lemma {:induction false} RunIsApart(es: seq<Event>)
    ensures Apart(Run(es).adapters)
  {
    if es != [] {
      hide Apart, AckAdapters, Reconcile, FollowsTheList, Keep;
      var f, e := Run(es[..|es| - 1]), es[|es| - 1];
      RunIsApart(es[..|es| - 1]);
      match e
      case Emitted(id, job) => SameIdsApart(f.adapters, Emit(f, id, job).adapters);
      case AckEvent(keys, failing) =>
        AckKeepsIds(f.adapters, keys, failing);
        SameIdsApart(f.adapters, AckJobs(f, keys, failing).adapters);
      case ReconcileEvent(printers, failing) => ReconcileIsExact(f, printers, failing);
    }
  }

  /** In every reachable fleet no printer has two adapters, and every reconcile follows the cloud's list. */
  lemma {:induction false} FleetFollowsTheList(es: seq<Event>, printers: seq<Printer>, failing: set<string>)
    ensures Apart(Run(es).adapters)
    ensures FollowsTheList(Run(es), printers, Run(es + [ReconcileEvent(printers, failing)]))
  {
    hide Apart, FollowsTheList, Reconcile;
    RunIsApart(es);
    ReconcileIsExact(Run(es), printers, failing);
    var longer := es + [ReconcileEvent(printers, failing)];
    assert longer[..|longer| - 1] == es;
  }

  // ----- what a heartbeat sends -------------------------------------------------------------------

  lemma {:induction false} ReadableIsExact(adapters: seq<Adapter>, failing: set<string>, job: JobRecord)
    ensures job in Readable(adapters, failing) <==> exists a :: a in adapters && a.id !in failing && job in a.buffer
  {
    if adapters != [] {
      ReadableIsExact(adapters[1..], failing, job);
      assert forall a :: a in adapters <==> a == adapters[0] || a in adapters[1..];
    }
  }

  /** A heartbeat sends the rescued jobs and those of every adapter whose buffer can be read, and nothing else; when all can
      be read, it sends everything that is pending. */
  lemma {:induction false} SendableIsExact(f: Fleet, failing: set<string>)
    ensures forall job :: job in Sendable(f, failing) <==>
              job in f.orphans || exists a :: Lives(f, a) && a.id !in failing && job in a.buffer
    ensures Sendable(f, {}) == Pending(f)
  {
    AckBuffered(f.adapters, {});
    forall job
      ensures job in Sendable(f, failing) <==> job in f.orphans || exists a :: Lives(f, a) && a.id !in failing && job in a.buffer
    {
      ReadableIsExact(f.adapters, failing, job);
      if a :| a in f.adapters && a.id !in failing && job in a.buffer {
        assert Lives(f, a);
      }
    }
  }
}
