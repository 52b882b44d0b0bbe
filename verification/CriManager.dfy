/** Creating and deleting workloads against a container runtime whose every call may be answered,
    denied as not found, or fail in another way, with or without having taken effect, while other
    hands remove sandboxes. */
module CriManager {
  import opened Wrappers
  import opened CriSpec

  // ---- The runtime -----------------------------------------------------------------------

  datatype Reply = Answered | Missing | Broken

  /** How the runtime treats one call: its reply, whether a call that is not answered or answered
      with a blank had an effect, whether a sandbox that is not made by then is made late, after the
      cleanup has listed, what it answers, and which sandboxes other hands removed before it. The
      runtime is truthful about sandboxes: a reply that would be untrue counts as broken. */
  datatype Fate = Fate(reply: Reply, effect: bool, late: bool, blank: bool, id: Id, gone: set<Id>,
                       sandboxes: seq<(Id, Labels)>, containers: seq<(Id, Id)>)

  datatype Call = StopContainer(id: Id) | StopPodSandbox(id: Id) | RemovePodSandbox(id: Id)

  /** A call that was issued, with the labels of the sandbox it reached, if it reached one. */
  datatype Entry = Entry(call: Call, labels: Option<Labels>)

  /** `past` are ids of sandboxes that other hands removed; ids are not used again. `started` are the
      containers that a start call reached, `images` what the runtime has found or pulled. */
  datatype World = World(sandboxes: map<Id, Labels>, past: set<Id>, containers: map<Id, Id>, started: set<Id>,
                         images: set<string>, clock: nat, log: seq<Entry>)

  /** The world as the call finds it. */
  function Serve(w: World, f: Fate): World
  {
    w.(sandboxes := w.sandboxes - f.gone, past := w.past + f.gone * w.sandboxes.Keys, clock := w.clock + 1)
  }

  function RpcError(f: Fate): Error { if f.reply.Missing? then NotFound else Network }

  predicate Fresh(w: World, f: Fate) { f.id != "" && f.id !in w.sandboxes && f.id !in w.past }

  function WithSandbox(w: World, id: Id, labels: Labels): World { w.(sandboxes := w.sandboxes[id := labels]) }

  function RunPodSandbox(w: World, labels: Labels, f: Fate): (World, Outcome<Id>)
  {
    var now := Serve(w, f);
    var made := if f.effect then WithSandbox(now, f.id, labels) else now;
    if !Fresh(w, f) then (now, Failed(RpcError(f)))
    else if !f.reply.Answered? then (made, Failed(RpcError(f)))
    else if f.blank then (made, Done(""))
    else (WithSandbox(now, f.id, labels), Done(f.id))
  }

  /** The call to make a sandbox is not answered, has had no effect, and the runtime goes on with it. */
  predicate GoesOn(w: World, f: Fate) { Fresh(w, f) && !f.reply.Answered? && !f.effect && f.late }

  /** The status of a sandbox in the world that the call finds. */
  function SandboxStatus(now: World, id: Id, f: Fate): Outcome<Labels>
  {
    if f.reply.Broken? then Failed(Network)
    else if id !in now.sandboxes then Failed(NotFound)
    else if f.reply.Missing? then Failed(Network)
    else if f.blank then Failed(MissingStatus)
    else Done(now.sandboxes[id])
  }

  predicate TrueListing(sandboxes: map<Id, Labels>, items: seq<(Id, Labels)>)
  {
    forall i :: 0 <= i < |items| ==> items[i].0 in sandboxes ==> sandboxes[items[i].0] == items[i].1
  }

  predicate FullListing(sandboxes: map<Id, Labels>, selector: Labels, items: seq<(Id, Labels)>)
  {
    forall id :: id in sandboxes && Selects(selector, sandboxes[id]) ==> (id, sandboxes[id]) in items
  }

  /** Every selected sandbox is listed; others may be, and one may be listed twice. */
  function ListPodSandbox(now: World, selector: Labels, f: Fate): Outcome<seq<(Id, Labels)>>
  {
    if f.reply.Answered? && TrueListing(now.sandboxes, f.sandboxes) && FullListing(now.sandboxes, selector, f.sandboxes)
    then Done(f.sandboxes) else Failed(RpcError(f))
  }

  function InSandbox(items: seq<(Id, Id)>, sandbox: Id): seq<Id>
  {
    if items == [] then []
    else
      var n := |items| - 1;
      if items[n].1 == sandbox then InSandbox(items[..n], sandbox) + [items[n].0] else InSandbox(items[..n], sandbox)
  }

  predicate TrueContainers(now: World, items: seq<(Id, Id)>)
  {
    forall i :: 0 <= i < |items| ==> items[i].0 in now.containers ==> now.containers[items[i].0] == items[i].1
  }

  function ListContainers(now: World, sandbox: Id, f: Fate): Outcome<seq<Id>>
  {
    if f.reply.Answered? && TrueContainers(now, f.containers) then Done(InSandbox(f.containers, sandbox))
    else Failed(RpcError(f))
  }

  function WithContainer(w: World, id: Id, sandbox: Id): World { w.(containers := w.containers[id := sandbox]) }

  function CreateContainer(w: World, sandbox: Id, f: Fate): (World, Outcome<Id>)
  {
    var now := Serve(w, f);
    var made := if f.effect then WithContainer(now, f.id, sandbox) else now;
    if f.id == "" || f.id in now.containers || sandbox !in now.sandboxes then (now, Failed(RpcError(f)))
    else if !f.reply.Answered? then (made, Failed(RpcError(f)))
    else if f.blank then (made, Done(""))
    else (WithContainer(now, f.id, sandbox), Done(f.id))
  }

  /** A start that is answered has happened; one that is not may have. */
  function StartContainerCall(w: World, id: Id, f: Fate): World
  {
    var now := Serve(w, f);
    if f.reply.Answered? || f.effect then now.(started := now.started + {id}) else now
  }

  /** Is the image there? A lookup that finds nothing or is answered with nothing says no. */
  function ImageStatus(w: World, image: string, f: Fate): (World, Outcome<bool>)
  {
    var now := Serve(w, f);
    if f.reply.Broken? then (now, Failed(Network))
    else if f.reply.Missing? || f.blank then (now, Done(false))
    else (now.(images := now.images + {image}), Done(true))
  }

  function PullImageCall(w: World, image: string, f: Fate): (World, Outcome<()>)
  {
    var now := Serve(w, f);
    if f.reply.Answered? then (now.(images := now.images + {image}), Done(())) else (now, Failed(RpcError(f)))
  }

  function LabelsOf(w: World, sandbox: Id): Option<Labels>
  {
    if sandbox in w.sandboxes then Some(w.sandboxes[sandbox]) else None
  }

  function Issue(now: World, call: Call): World
  {
    var labels :=
      if call.StopContainer? then (if call.id in now.containers then LabelsOf(now, now.containers[call.id]) else None)
      else LabelsOf(now, call.id);
    now.(log := now.log + [Entry(call, labels)])
  }

  /** The log tells whose labels a call reached: those of the sandbox it names, or of the sandbox of the
      container it names. */
  lemma LogTellsReached(now: World, call: Call, sandbox: Id)
    requires sandbox in now.sandboxes
    requires if call.StopContainer? then call.id in now.containers && now.containers[call.id] == sandbox
             else call.id == sandbox
    ensures Issue(now, call).log == now.log + [Entry(call, Some(now.sandboxes[sandbox]))]
  {
  }

  /** A removal that is answered has happened; one that is not may have. */
  function Removed(now: World, sandbox: Id, f: Fate): World
  {
    var issued := Issue(now, RemovePodSandbox(sandbox));
    if f.reply.Answered? || f.effect then
      issued.(sandboxes := now.sandboxes - {sandbox},
              containers := map c | c in now.containers && now.containers[c] != sandbox :: now.containers[c])
    else issued
  }

  /** A removal is reported as an error when it breaks, or when the runtime denies a sandbox that is
      there, which it does not do. */
  predicate RemoveFails(f: Fate, present: bool) { f.reply.Broken? || (f.reply.Missing? && present) }

  // ---- Handles and reports ---------------------------------------------------------------

  datatype Handle = Handle(sandbox: Id, containers: seq<Id>, filter: Filter)

  /** A handle names containers of its own sandbox only. */
  ghost predicate HandleOk(w: World, h: Handle)
  {
    forall c :: c in h.containers && c in w.containers ==> w.containers[c] == h.sandbox
  }

  /** Whatever the call reached carries the labels of the filter. */
  predicate Owned(e: Entry, f: Filter) { e.labels.Some? ==> Matches(f, e.labels.value) }

  /** The calls issued since then all stayed within the filter. */
  ghost predicate Issued(before: seq<Entry>, after: seq<Entry>, f: Filter)
  {
    before <= after && forall i :: |before| <= i < |after| ==> Owned(after[i], f)
  }

  function CleanupResult(errors: nat): Outcome<()> { if errors == 0 then Done(()) else Failed(CleanupFailed(errors)) }

  function WithCleanup(primary: Error, cleanup: Outcome<()>): Error
  {
    if cleanup.Done? then primary else RollbackFailed(primary, cleanup.error)
  }

  /** Why it failed in the first place. */
  function Primary(e: Error): Error { if e.RollbackFailed? then e.primary else e }

  function Calls(log: seq<Entry>): seq<Call> { seq(|log|, i requires 0 <= i < |log| => log[i].call) }

  function Stops(ids: seq<Id>): seq<Call> { seq(|ids|, i requires 0 <= i < |ids| => StopContainer(ids[i])) }

  lemma CallsSnoc(log: seq<Entry>, e: Entry)
    ensures Calls(log + [e]) == Calls(log) + [e.call]
  {
  }

  lemma StopsSnoc(ids: seq<Id>, i: nat)
    requires i < |ids|
    ensures Stops(ids[..i + 1]) == Stops(ids[..i]) + [StopContainer(ids[i])]
  {
  }

  // ---- Spans of calls --------------------------------------------------------------------

  /** How many of the calls made at these times broke. */
  function BrokenIn(fate: nat -> Fate, from: nat, to: nat): nat
  {
    if to <= from then 0 else BrokenIn(fate, from, to - 1) + (if fate(to - 1).reply.Broken? then 1 else 0)
  }

  /** What other hands removed before these calls. */
  function GoneIn(fate: nat -> Fate, from: nat, to: nat): set<Id>
  {
    if to <= from then {} else GoneIn(fate, from, to - 1) + fate(to - 1).gone
  }

  lemma {:induction false} GoneJoin(fate: nat -> Fate, a: nat, b: nat, c: nat)
    requires a <= b <= c
    ensures GoneIn(fate, a, c) == GoneIn(fate, a, b) + GoneIn(fate, b, c)
    decreases c
  {
    if b < c { GoneJoin(fate, a, b, c - 1); }
  }

  /** What is left of some sandboxes after the calls of a span. */
  function LeftAfter(sandboxes: map<Id, Labels>, fate: nat -> Fate, from: nat, to: nat): map<Id, Labels>
  {
    sandboxes - GoneIn(fate, from, to)
  }

  lemma LeftOneMore(sandboxes: map<Id, Labels>, fate: nat -> Fate, from: nat, to: nat)
    requires from <= to
    ensures LeftAfter(sandboxes, fate, from, to + 1) == LeftAfter(sandboxes, fate, from, to) - fate(to).gone
    ensures LeftAfter(sandboxes, fate, from, from) == sandboxes
  {
  }

  lemma LeftJoin(sandboxes: map<Id, Labels>, fate: nat -> Fate, a: nat, b: nat, c: nat)
    requires a <= b <= c
    ensures LeftAfter(LeftAfter(sandboxes, fate, a, b), fate, b, c) == LeftAfter(sandboxes, fate, a, c)
  {
    GoneJoin(fate, a, b, c);
  }

  /** Nothing but `id` may be missing from what was left. */
  predicate AtMostGone(left: map<Id, Labels>, after: map<Id, Labels>, id: Id) { after == left || after == left - {id} }

  // ---- When stopping and deleting succeed ------------------------------------------------

  /** The sandbox is there, reports its status and is within the filter. */
  predicate Reached(h: Handle, w: World, f: Fate)
  {
    h.sandbox in w.sandboxes - f.gone && f.reply.Answered? && !f.blank && Matches(h.filter, w.sandboxes[h.sandbox])
  }

  /** The sandbox is not there when its status is asked for, and the runtime says so. */
  predicate SaidAbsent(h: Handle, w: World, f: Fate) { h.sandbox !in w.sandboxes - f.gone && !f.reply.Broken? }

  predicate StopOk(h: Handle, w: World, fate: nat -> Fate)
  {
    var c, n := w.clock, |h.containers|;
    SaidAbsent(h, w, fate(c)) || (Reached(h, w, fate(c)) && BrokenIn(fate, c + 1, c + n + 2) == 0)
  }

  predicate DeleteOk(h: Handle, w: World, fate: nat -> Fate)
  {
    var c, n := w.clock, |h.containers|;
    || SaidAbsent(h, w, fate(c))
    || (&& Reached(h, w, fate(c)) && BrokenIn(fate, c + 1, c + n + 2) == 0
        && !RemoveFails(fate(c + n + 2), h.sandbox !in GoneIn(fate, c + 1, c + n + 3)))
  }

  // ---- The manager -----------------------------------------------------------------------

  class WorkloadManager {
    const fate: nat -> Fate
    var w: World

    constructor (fate: nat -> Fate, w: World)
      ensures this.fate == fate && this.w == w
    {
      this.fate, this.w := fate, w;
    }

    /** Stop every container, then the sandbox, counting the calls that broke; that something is not
        found is no error. */
    method StopWorkload(h: Handle, errors: nat) returns (n: nat)
      requires HandleOk(w, h) && (h.sandbox in w.sandboxes ==> Matches(h.filter, w.sandboxes[h.sandbox]))
      modifies this
      ensures w.clock == old(w.clock) + |h.containers| + 1 && w.containers == old(w.containers)
      ensures w.sandboxes == LeftAfter(old(w.sandboxes), fate, old(w.clock), w.clock)
      ensures n == errors + BrokenIn(fate, old(w.clock), w.clock)
      ensures Calls(w.log) == Calls(old(w.log)) + Stops(h.containers) + [StopPodSandbox(h.sandbox)]
      ensures Issued(old(w.log), w.log, h.filter)
    {
      n := errors;
      LeftOneMore(w.sandboxes, fate, w.clock, w.clock);
      for i := 0 to |h.containers|
        invariant w.clock == old(w.clock) + i && w.containers == old(w.containers)
        invariant w.sandboxes == LeftAfter(old(w.sandboxes), fate, old(w.clock), w.clock)
        invariant n == errors + BrokenIn(fate, old(w.clock), w.clock)
        invariant Calls(w.log) == Calls(old(w.log)) + Stops(h.containers[..i])
        invariant Issued(old(w.log), w.log, h.filter)
      {
        n := IssueCounted(StopContainer(h.containers[i]), h, n, old(w.log));
        LeftOneMore(old(w.sandboxes), fate, old(w.clock), w.clock - 1);
        StopsSnoc(h.containers, i);
      }
      assert h.containers[..|h.containers|] == h.containers;
      n := IssueCounted(StopPodSandbox(h.sandbox), h, n, old(w.log));
      LeftOneMore(old(w.sandboxes), fate, old(w.clock), w.clock - 1);
    }

    /** One stop. */
    method IssueCounted(call: Call, h: Handle, errors: nat, ghost start: seq<Entry>) returns (n: nat)
      requires HandleOk(w, h) && (h.sandbox in w.sandboxes ==> Matches(h.filter, w.sandboxes[h.sandbox]))
      requires call == StopPodSandbox(h.sandbox) || (call.StopContainer? && call.id in h.containers)
      requires Issued(start, w.log, h.filter)
      modifies this
      ensures w.clock == old(w.clock) + 1 && w.containers == old(w.containers)
      ensures w.sandboxes == old(w.sandboxes) - fate(old(w.clock)).gone
      ensures n == errors + (if fate(old(w.clock)).reply.Broken? then 1 else 0)
      ensures Calls(w.log) == Calls(old(w.log)) + [call]
      ensures Issued(start, w.log, h.filter)
    {
      var f := fate(w.clock);
      var now := Serve(w, f);
      CallsSnoc(w.log, Issue(now, call).log[|w.log|]);
      w := Issue(now, call);
      n := if f.reply.Broken? then errors + 1 else errors;
    }

    /** Ask for the sandbox and refuse one outside the filter: is there anything to stop? */
    method CheckOwned(h: Handle) returns (r: Outcome<bool>)
      modifies this
      ensures w == Serve(old(w), fate(old(w.clock)))
      ensures r.Done? && r.value <==> Reached(h, old(w), fate(old(w.clock)))
      ensures r.Done? && !r.value <==> SaidAbsent(h, old(w), fate(old(w.clock)))
    {
      var f := fate(w.clock);
      w := Serve(w, f);
      var status := SandboxStatus(w, h.sandbox, f);
      if status.Failed? {
        return if status.error == NotFound then Done(false) else Failed(status.error);
      }
      r := if Matches(h.filter, status.value) then Done(true) else Failed(NotOwned);
    }

    /** It succeeds exactly when the sandbox is gone and the runtime says so, or when it is within the
        filter and no stop breaks. A sandbox outside the filter sees no call. */
    method Stop(h: Handle) returns (r: Outcome<()>)
      requires HandleOk(w, h)
      modifies this
      ensures r.Done? <==> StopOk(h, old(w), fate)
      ensures w.clock == old(w.clock) + (if Reached(h, old(w), fate(old(w.clock))) then |h.containers| + 2 else 1)
      ensures w.sandboxes == LeftAfter(old(w.sandboxes), fate, old(w.clock), w.clock) &&
        w.containers == old(w.containers)
      ensures Calls(w.log) == Calls(old(w.log)) +
        (if Reached(h, old(w), fate(old(w.clock))) then Stops(h.containers) + [StopPodSandbox(h.sandbox)] else [])
      ensures Issued(old(w.log), w.log, h.filter)
    {
      ghost var c := w.clock;
      LeftOneMore(w.sandboxes, fate, c, c);
      var there := CheckOwned(h);
      if there.Failed? {
        return Failed(there.error);
      }
      if !there.value {
        return Done(());
      }
      var errors := StopWorkload(h, 0);
      LeftJoin(old(w.sandboxes), fate, c, c + 1, w.clock);
      r := CleanupResult(errors);
    }

    /** It succeeds exactly when the sandbox is gone and the runtime says so, or when it is within the
        filter, no stop breaks and the removal is answered or finds nothing. Then the sandbox is gone,
        and it was stopped before it was removed. A sandbox outside the filter sees no call. */
    method Delete(h: Handle) returns (r: Outcome<()>)
      requires HandleOk(w, h)
      modifies this
      ensures r.Done? <==> DeleteOk(h, old(w), fate)
      ensures r.Done? ==> h.sandbox !in w.sandboxes
      ensures w.clock == old(w.clock) + (if Reached(h, old(w), fate(old(w.clock))) then |h.containers| + 3 else 1)
      ensures AtMostGone(LeftAfter(old(w.sandboxes), fate, old(w.clock), w.clock), w.sandboxes, h.sandbox)
      ensures Calls(w.log) == Calls(old(w.log)) +
        (if Reached(h, old(w), fate(old(w.clock)))
         then Stops(h.containers) + [StopPodSandbox(h.sandbox), RemovePodSandbox(h.sandbox)] else [])
      ensures !Reached(h, old(w), fate(old(w.clock))) ==> w == Serve(old(w), fate(old(w.clock)))
      ensures Issued(old(w.log), w.log, h.filter)
    {
      ghost var c := w.clock;
      LeftOneMore(w.sandboxes, fate, c, c);
      var there := CheckOwned(h);
      if there.Failed? {
        return Failed(there.error);
      }
      if !there.value {
        return Done(());
      }
      var errors := StopAndRemove(h);
      LeftJoin(old(w.sandboxes), fate, c, c + 1, w.clock);
      r := CleanupResult(errors);
    }

    /** The calls that follow the check of a sandbox that is there. */
    method StopAndRemove(h: Handle) returns (errors: nat)
      requires HandleOk(w, h) && h.sandbox in w.sandboxes && Matches(h.filter, w.sandboxes[h.sandbox])
      modifies this
      ensures var c, n := old(w.clock), |h.containers|;
        && w.clock == c + n + 2
        && (errors == 0 <==>
            && BrokenIn(fate, c, c + n + 1) == 0
            && !RemoveFails(fate(c + n + 1), h.sandbox !in GoneIn(fate, c, c + n + 2)))
      ensures errors == 0 ==> h.sandbox !in w.sandboxes
      ensures AtMostGone(LeftAfter(old(w.sandboxes), fate, old(w.clock), w.clock), w.sandboxes, h.sandbox)
      ensures Calls(w.log) ==
        Calls(old(w.log)) + (Stops(h.containers) + [StopPodSandbox(h.sandbox), RemovePodSandbox(h.sandbox)])
      ensures Issued(old(w.log), w.log, h.filter)
    {
      errors := StopWorkload(h, 0);
      LeftOneMore(old(w.sandboxes), fate, old(w.clock), w.clock);
      var failed := Remove(h, old(w.log));
      errors := if failed then errors + 1 else errors;
    }

    method Remove(h: Handle, ghost start: seq<Entry>) returns (failed: bool)
      requires h.sandbox in w.sandboxes ==> Matches(h.filter, w.sandboxes[h.sandbox])
      requires Issued(start, w.log, h.filter)
      modifies this
      ensures var now := old(w.sandboxes) - fate(old(w.clock)).gone;
        && failed == RemoveFails(fate(old(w.clock)), h.sandbox in now)
        && AtMostGone(now, w.sandboxes, h.sandbox)
      ensures !failed ==> h.sandbox !in w.sandboxes
      ensures w.clock == old(w.clock) + 1 && Calls(w.log) == Calls(old(w.log)) + [RemovePodSandbox(h.sandbox)]
      ensures Issued(start, w.log, h.filter)
    {
      var f := fate(w.clock);
      var now := Serve(w, f);
      CallsSnoc(w.log, Issue(now, RemovePodSandbox(h.sandbox)).log[|w.log|]);
      w := Removed(now, h.sandbox, f);
      failed := RemoveFails(f, h.sandbox in now.sandboxes);
    }

    /** One sandbox of a listing, with whatever containers the runtime lists for it. */
    method DeleteListed(id: Id, filter: Filter) returns (r: Outcome<()>)
      modifies this
      ensures w.clock > old(w.clock) && (r.Done? ==> id !in w.sandboxes)
      ensures r.Done? <==> ListedOk(id, filter, old(w), fate)
      ensures AtMostGone(LeftAfter(old(w.sandboxes), fate, old(w.clock), w.clock), w.sandboxes, id)
      ensures var c := old(w.clock);
        var now, ids := Serve(old(w), fate(c)), ContainersOf(old(w), id, fate(c));
        Calls(w.log) == Calls(old(w.log)) +
          (if Reached(Handle(id, ids, filter), now, fate(c + 1))
           then Stops(ids) + [StopPodSandbox(id), RemovePodSandbox(id)] else [])
      ensures Issued(old(w.log), w.log, filter)
    {
      var f := fate(w.clock);
      w := Serve(w, f);
      var ids := ListContainers(w, id, f);
      var containers := if ids.Done? then ids.value else [];
      InSandboxMembers(f.containers, id);
      ghost var c := w.clock;
      LeftOneMore(old(w.sandboxes), fate, c - 1, c - 1);
      r := Delete(Handle(id, containers, filter));
      LeftJoin(old(w.sandboxes), fate, c - 1, c, w.clock);
    }

    /** After a creation whose answer never came: delete every sandbox it may have left, and no
        other. */
    method DeleteCreation(filter: Filter, uid: string) returns (r: Outcome<()>)
      modifies this
      ensures w.clock > old(w.clock)
      ensures r.Done? ==> forall id :: id in w.sandboxes ==> !OfCreation(filter, uid, w.sandboxes[id])
      ensures Kept(LeftAfter(old(w.sandboxes), fate, old(w.clock), w.clock), w.sandboxes, filter, uid)
      ensures FindsNothing(old(w.sandboxes) - fate(old(w.clock)).gone, fate(old(w.clock)), filter, uid) ==> r.Done?
      ensures AllAnswered(fate, old(w.clock)) && Lists(old(w), fate(old(w.clock)), filter, uid) ==> r.Done?
      ensures Issued(old(w.log), w.log, filter)
    {
      var f := fate(w.clock);
      LeftOneMore(w.sandboxes, fate, w.clock, w.clock);
      w := Serve(w, f);
      var listing := ListPodSandbox(w, CreationSelector(filter, uid), f);
      if listing.Failed? {
        return Failed(listing.error);
      }
      var items := listing.value;
      ListedAll(w.sandboxes, filter, uid, items);
      ghost var listed := w.sandboxes;
      var errors := 0;
      for i := 0 to |items|
        invariant w.clock > old(w.clock) && Shrunk(listed, w.sandboxes)
        invariant CleanedSoFar(old(w), w, filter, uid, fate)
        invariant errors == 0 ==> Gone(w.sandboxes, items[..i], filter, uid)
        invariant FindsNothing(listed, f, filter, uid) || AllAnswered(fate, old(w.clock)) ==> errors == 0
      {
        assert items[..i + 1] == items[..i] + [items[i]];
        errors := DeleteItem(items[i], filter, uid, errors, old(w));
      }
      assert items[..|items|] == items;
      if errors == 0 { AllGone(listed, w.sandboxes, items, filter, uid); }
      r := CleanupResult(errors);
    }

    /** One item of the listing: deleted if it is of the creation, otherwise left alone. */
    method DeleteItem(item: (Id, Labels), filter: Filter, uid: string, errors: nat, ghost start: World)
      returns (n: nat)
      requires CleanedSoFar(start, w, filter, uid, fate)
      requires item.0 in w.sandboxes ==> w.sandboxes[item.0] == item.1
      modifies this
      ensures w.clock >= old(w.clock) && Shrunk(old(w.sandboxes), w.sandboxes)
      ensures CleanedSoFar(start, w, filter, uid, fate) && n >= errors
      ensures OfCreation(filter, uid, item.1) && n == errors ==> item.0 !in w.sandboxes
      ensures n == errors <==> !OfCreation(filter, uid, item.1) || ListedOk(item.0, filter, old(w), fate)
      ensures AllAnswered(fate, start.clock) ==> n == errors
    {
      n := errors;
      if OfCreation(filter, uid, item.1) {
        ghost var mid := w;
        if AllAnswered(fate, start.clock) { AnsweredListed(item.0, filter, mid, fate, start.clock); }
        var deleted := DeleteListed(item.0, filter);
        KeptOn(start.sandboxes, mid.sandboxes, w.sandboxes, fate, start.clock, mid.clock, w.clock, item.0, item.1,
               filter, uid);
        if deleted.Failed? { n := n + 1; }
      }
    }

    /** Look up one image, and pull it when it is absent. */
    method PullImage(image: string, ghost start: World) returns (r: Outcome<()>)
      requires Waited(start, w, fate)
      modifies this
      ensures old(w.images) <= w.images && (r.Done? ==> image in w.images)
      ensures r.Done? <==> ImagesReady(fate, 1, old(w.clock)).Some?
      ensures r.Done? ==> w.clock == ImagesReady(fate, 1, old(w.clock)).value
      ensures r.Failed? ==> !r.error.RollbackFailed? && r.error != EmptySandboxId
      ensures Waited(start, w, fate)
    {
      var f := fate(w.clock);
      WaitMore(start, w, fate);
      var (looked, there) := ImageStatus(w, image, f);
      w := looked;
      if there.Failed? {
        return Failed(there.error);
      }
      if !there.value {
        var pull := fate(w.clock);
        WaitMore(start, w, fate);
        var (pulled, got) := PullImageCall(w, image, pull);
        w := pulled;
        if got.Failed? {
          return Failed(got.error);
        }
      }
      r := Done(());
    }

    /** Every image is looked up, and pulled when it is absent. */
    method PullImages(spec: Spec) returns (r: Outcome<()>)
      modifies this
      ensures r.Done? <==> ImagesReady(fate, |spec.containers|, old(w.clock)).Some?
      ensures r.Done? ==> w.clock == ImagesReady(fate, |spec.containers|, old(w.clock)).value
      ensures r.Done? ==> Present(w, spec)
      ensures r.Failed? ==> !r.error.RollbackFailed? && r.error != EmptySandboxId
      ensures Waited(old(w), w, fate)
    {
      LeftOneMore(w.sandboxes, fate, w.clock, w.clock);
      for i := 0 to |spec.containers|
        invariant ImagesReady(fate, |spec.containers|, old(w.clock)) ==
          ImagesReady(fate, |spec.containers| - i, w.clock)
        invariant Waited(old(w), w, fate)
        invariant forall j :: 0 <= j < i ==> spec.containers[j].image in w.images
      {
        NextImage(fate, |spec.containers| - i, w.clock);
        var pulled := PullImage(spec.containers[i].image, old(w));
        if pulled.Failed? {
          return pulled;
        }
      }
      r := Done(());
    }

    /** Create and start the containers of a fresh sandbox; any failure deletes the sandbox. */
    method StartContainers(spec: Spec, sandbox: Id) returns (r: Outcome<Handle>)
      requires sandbox in w.sandboxes && w.sandboxes[sandbox] == MetadataLabels(spec.metadata)
      modifies this
      ensures w.clock >= old(w.clock)
      ensures r.Done? <==>
        && (forall c :: c in spec.containers ==> Config(spec, c).Done?)
        && AllStart(fate, |spec.containers|, sandbox, true, old(w.containers).Keys, old(w.clock))
      ensures r.Done? ==> w.log == old(w.log) && Started(w, spec, sandbox, r.value) && w.images == old(w.images)
      ensures r.Done? ==> r.value.containers == Ids(fate, old(w.clock), |spec.containers|)
      ensures r.Done? ==> w.sandboxes == LeftAfter(old(w.sandboxes), fate, old(w.clock), w.clock)
      ensures r.Failed? ==>
        || r.error.RollbackFailed? || sandbox !in w.sandboxes
        || exists c :: c in spec.containers && Config(spec, c).Failed?
      ensures r.Failed? ==> r.error != EmptySandboxId
      ensures AtMostGone(LeftAfter(old(w.sandboxes), fate, old(w.clock), w.clock), w.sandboxes, sandbox)
      ensures Issued(old(w.log), w.log, Filter(spec.metadata.executorId))
    {
      var h := Handle(sandbox, [], Filter(spec.metadata.executorId));
      LeftOneMore(w.sandboxes, fate, w.clock, w.clock);
      for i := 0 to |spec.containers|
        invariant Progress(old(w), w, spec, sandbox, h, fate, i)
      {
        var config := Config(spec, spec.containers[i]);
        if config.Failed? {
          assert spec.containers[i] in spec.containers;
          return Failed(config.error);
        }
        var started;
        ghost var mid, was := w, h;
        h, started := StartContainer(h);
        if started.Failed? {
          ProgressStops(old(w), mid, w.sandboxes, w.clock, spec, sandbox, was, fate, i);
          return Failed(started.error);
        }
        ProgressStep(old(w), mid, w, spec, sandbox, was, h, fate, i);
      }
      r := Done(h);
    }

    /** Create and start one container of the handle's sandbox; a failure deletes the sandbox. */
    method StartContainer(h: Handle) returns (more: Handle, r: Outcome<()>)
      requires Begun(w, h.sandbox, h.containers)
      modifies this
      ensures w.clock > old(w.clock)
      ensures r.Done? <==>
        && Makes(fate(old(w.clock)), h.sandbox, h.sandbox in old(w.sandboxes), old(w.containers).Keys)
        && fate(old(w.clock) + 1).reply.Answered?
      ensures r.Done? ==>
        && w.log == old(w.log) && w.sandboxes == LeftAfter(old(w.sandboxes), fate, old(w.clock), w.clock)
        && w.images == old(w.images) && w.clock == old(w.clock) + 2
        && w.containers.Keys == old(w.containers).Keys + {fate(old(w.clock)).id}
        && more == h.(containers := h.containers + [fate(old(w.clock)).id]) && Begun(w, h.sandbox, more.containers)
      ensures r.Failed? ==> r.error != EmptySandboxId && (r.error.RollbackFailed? || h.sandbox !in w.sandboxes)
      ensures AtMostGone(LeftAfter(old(w.sandboxes), fate, old(w.clock), w.clock), w.sandboxes, h.sandbox)
      ensures Issued(old(w.log), w.log, h.filter)
    {
      ghost var c := w.clock;
      more := h;
      LeftOneMore(w.sandboxes, fate, c, c);
      var (created, id) := CreateContainer(w, h.sandbox, fate(w.clock));
      w := created;
      if id.Failed? || id.value == "" {
        r := RollBack(h, if id.Failed? then id.error else EmptyContainerId);
        LeftJoin(old(w.sandboxes), fate, c, c + 1, w.clock);
        return;
      }
      more := h.(containers := h.containers + [id.value]);
      r := StartOne(more, id.value);
      LeftJoin(old(w.sandboxes), fate, c, c + 1, w.clock);
    }

    /** Start the container that was created last; a failure deletes the sandbox. */
    method StartOne(h: Handle, id: Id) returns (r: Outcome<()>)
      requires HandleOk(w, h)
      modifies this
      ensures w.clock > old(w.clock)
      ensures r.Done? <==> fate(old(w.clock)).reply.Answered?
      ensures r.Done? ==> w.clock == old(w.clock) + 1 && w.started == old(w.started) + {id}
      ensures r.Done? ==> w.log == old(w.log) && w.sandboxes == LeftAfter(old(w.sandboxes), fate, old(w.clock), w.clock)
      ensures r.Done? ==> w.containers == old(w.containers) && w.images == old(w.images)
      ensures r.Failed? ==> r.error != EmptySandboxId && (r.error.RollbackFailed? || h.sandbox !in w.sandboxes)
      ensures AtMostGone(LeftAfter(old(w.sandboxes), fate, old(w.clock), w.clock), w.sandboxes, h.sandbox)
      ensures Issued(old(w.log), w.log, h.filter)
    {
      ghost var c := w.clock;
      LeftOneMore(w.sandboxes, fate, c, c);
      var f := fate(w.clock);
      w := StartContainerCall(w, id, f);
      r := Done(());
      if !f.reply.Answered? {
        r := RollBack(h, RpcError(f));
        LeftJoin(old(w.sandboxes), fate, c, c + 1, w.clock);
      }
    }

    method RollBack(h: Handle, primary: Error) returns (r: Outcome<()>)
      requires HandleOk(w, h) && !primary.RollbackFailed? && primary != EmptySandboxId
      modifies this
      ensures r.Failed? && r.error != EmptySandboxId && (r.error.RollbackFailed? || h.sandbox !in w.sandboxes)
      ensures r.error == primary <==> DeleteOk(h, old(w), fate)
      ensures w.clock > old(w.clock)
      ensures AtMostGone(LeftAfter(old(w.sandboxes), fate, old(w.clock), w.clock), w.sandboxes, h.sandbox)
      ensures Issued(old(w.log), w.log, h.filter)
    {
      var cleanup := Delete(h);
      r := Failed(WithCleanup(primary, cleanup));
    }

    /** A failure without a failed rollback leaves a sandbox of its own behind exactly when the runtime
        makes one and answers with a blank id, or does not answer and makes it after the cleanup has
        listed; whether it does is decided by its replies alone. */
    method Create(spec: Spec) returns (r: Outcome<Handle>)
      modifies this
      ensures w.clock >= old(w.clock)
      ensures r.Done? <==> CreateOk(old(w), spec, fate)
      ensures r.Done? ==> Present(w, spec) && Delivered(old(w), w, r.value, spec, fate)
      ensures r == Failed(EmptySandboxId) <==> BlankAnswer(old(w), spec, fate)
      ensures r.Failed? && !r.error.RollbackFailed? ==>
        (Leftover(old(w.sandboxes), w.sandboxes) <==>
          (BlankAnswer(old(w), spec, fate) && RunFate(old(w), spec, fate).effect) || LateSandbox(old(w), spec, fate))
      ensures LateSandbox(old(w), spec, fate) ==> r.Failed?
      ensures Unanswered(old(w), spec, fate) ==>
        r.Failed? && Primary(r.error) == if RunFate(old(w), spec, fate).reply.Missing? then NotFound else Network
      ensures LateSandbox(old(w), spec, fate) && CleanListing(old(w), spec, fate) ==> !r.error.RollbackFailed?
      ensures OnlyOwn(LeftAfter(old(w.sandboxes), fate, old(w.clock), w.clock), w.sandboxes, spec)
      ensures Issued(old(w.log), w.log, Filter(spec.metadata.executorId))
    {
      LeftOneMore(w.sandboxes, fate, w.clock, w.clock);
      var valid := Validate(spec);
      if valid.Failed? {
        return Failed(valid.error);
      }
      var pulled := PullImages(spec);
      if pulled.Failed? {
        return Failed(pulled.error);
      }
      r := RunWorkload(spec, old(w));
    }

    /** Make the sandbox, at a time when all images are ready. */
    method RunWorkload(spec: Spec, ghost start: World) returns (r: Outcome<Handle>)
      requires SpecOk(spec) && Waited(start, w, fate)
      requires ImagesReady(fate, |spec.containers|, start.clock) == Some(w.clock)
      modifies this
      ensures w.clock >= start.clock
      ensures r.Done? <==> CreateOk(start, spec, fate)
      ensures r.Done? ==> w.images == old(w.images) && Delivered(start, w, r.value, spec, fate)
      ensures r == Failed(EmptySandboxId) <==> BlankAnswer(start, spec, fate)
      ensures r.Failed? && !r.error.RollbackFailed? ==>
        (Leftover(start.sandboxes, w.sandboxes) <==>
          (BlankAnswer(start, spec, fate) && fate(old(w.clock)).effect) || LateSandbox(start, spec, fate))
      ensures LateSandbox(start, spec, fate) ==> r.Failed?
      ensures Unanswered(start, spec, fate) ==>
        r.Failed? && Primary(r.error) == if fate(old(w.clock)).reply.Missing? then NotFound else Network
      ensures LateSandbox(start, spec, fate) && CleanListing(start, spec, fate) ==> !r.error.RollbackFailed?
      ensures OnlyOwn(LeftAfter(start.sandboxes, fate, start.clock, w.clock), w.sandboxes, spec)
      ensures Issued(old(w.log), w.log, Filter(spec.metadata.executorId))
    {
      var at, labels := w.clock, MetadataLabels(spec.metadata);
      RunDecides(start, w, spec, fate);
      WaitMore(start, w, fate);
      var late := GoesOn(w, fate(at));
      var (ran, id) := RunPodSandbox(w, labels, fate(at));
      w := ran;
      if id.Failed? {
        r := FailRun(spec, id.error, late, start, at);
        return;
      }
      if id.value == "" {
        OwnIsOnlyOwn(LeftAfter(start.sandboxes, fate, start.clock, at + 1), w.sandboxes, spec, fate(at).id);
        assert fate(at).effect ==> fate(at).id in w.sandboxes;
        return Failed(EmptySandboxId);
      }
      r := StartWorkload(spec, id.value, start, at);
    }

    /** The call that makes the sandbox, made at `at`, was not answered. */
    method FailRun(spec: Spec, primary: Error, late: bool, ghost start: World, at: nat) returns (r: Outcome<Handle>)
      requires start.clock <= at && w.clock == at + 1 && !primary.RollbackFailed? && primary != EmptySandboxId
      requires ImagesReady(fate, |spec.containers|, start.clock) == Some(at)
      requires MayHaveRun(start.sandboxes, w.sandboxes, spec, fate, start.clock, w.clock, fate(at).id)
      requires late ==>
        fate(at).id !in start.sandboxes && w.sandboxes == LeftAfter(start.sandboxes, fate, start.clock, w.clock)
      modifies this
      ensures w.clock >= start.clock && r.Failed? && r.error != EmptySandboxId && Primary(r.error) == primary
      ensures !r.error.RollbackFailed? ==> (Leftover(start.sandboxes, w.sandboxes) <==> late)
      ensures late && CleanListing(start, spec, fate) ==> !r.error.RollbackFailed?
      ensures OnlyOwn(LeftAfter(start.sandboxes, fate, start.clock, w.clock), w.sandboxes, spec)
      ensures Issued(old(w.log), w.log, Filter(spec.metadata.executorId))
    {
      LeftOneMore(start.sandboxes, fate, start.clock, at + 1);
      r := CleanUpRun(spec, primary, start.sandboxes, start.clock, fate(at).id);
      if late {
        // Not a call: the runtime comes to the end of what it was asked for.
        LateIsOwn(LeftAfter(start.sandboxes, fate, start.clock, w.clock), w.sandboxes, spec, fate(at).id);
        w := WithSandbox(w, fate(at).id, MetadataLabels(spec.metadata));
        assert fate(at).id in w.sandboxes && fate(at).id !in start.sandboxes;
      }
    }

    /** The call that makes the sandbox was not answered: delete what it may have made. */
    method CleanUpRun(spec: Spec, primary: Error, ghost start: map<Id, Labels>, ghost from: nat, ghost id: Id)
      returns (r: Outcome<Handle>)
      requires from <= w.clock && !primary.RollbackFailed? && primary != EmptySandboxId
      requires MayHaveRun(start, w.sandboxes, spec, fate, from, w.clock, id)
      modifies this
      ensures w.clock >= from && r.Failed? && r.error != EmptySandboxId && Primary(r.error) == primary
      ensures !r.error.RollbackFailed? ==> !Leftover(start, w.sandboxes)
      ensures var f, filter := fate(old(w.clock)), Filter(spec.metadata.executorId);
        FindsNothing(old(w.sandboxes) - f.gone, f, filter, spec.metadata.uid) ==> r == Failed(primary)
      ensures OnlyOwn(LeftAfter(start, fate, from, w.clock), w.sandboxes, spec)
      ensures Issued(old(w.log), w.log, Filter(spec.metadata.executorId))
    {
      var cleanup := DeleteCreation(Filter(spec.metadata.executorId), spec.metadata.uid);
      CleanedUp(start, old(w.sandboxes), w.sandboxes, spec, fate, from, old(w.clock), w.clock, id);
      r := Failed(WithCleanup(primary, cleanup));
    }

    /** The sandbox was made: start its containers. */
    method StartWorkload(spec: Spec, sandbox: Id, ghost start: World, ghost at: nat) returns (r: Outcome<Handle>)
      requires SpecOk(spec) && start.clock <= at && w.clock == at + 1 && sandbox !in start.sandboxes
      requires fate(at).id == sandbox
      requires ImagesReady(fate, |spec.containers|, start.clock) == Some(at)
      requires w.sandboxes ==
        LeftAfter(start.sandboxes, fate, start.clock, w.clock)[sandbox := MetadataLabels(spec.metadata)]
      modifies this
      ensures w.clock >= start.clock
      ensures r.Done? <==> AllStart(fate, |spec.containers|, sandbox, true, old(w.containers).Keys, at + 1)
      ensures r.Done? ==> w.images == old(w.images) && Delivered(start, w, r.value, spec, fate)
      ensures r.Failed? ==>
        r.error != EmptySandboxId && (r.error.RollbackFailed? || !Leftover(start.sandboxes, w.sandboxes))
      ensures OnlyOwn(LeftAfter(start.sandboxes, fate, start.clock, w.clock), w.sandboxes, spec)
      ensures Issued(old(w.log), w.log, Filter(spec.metadata.executorId))
    {
      r := StartContainers(spec, sandbox);
      var left := LeftAfter(start.sandboxes, fate, start.clock, w.clock);
      GoneJoin(fate, start.clock, at + 1, w.clock);
      OthersAsLeft(start.sandboxes, old(w.sandboxes), w.sandboxes, spec, fate, start.clock, at + 1, w.clock, sandbox);
      OwnIsOnlyOwn(left, w.sandboxes, spec, sandbox);
    }
  }

  /** Every image that the workload names is there. */
  predicate Present(w: World, spec: Spec) { forall c :: c in spec.containers ==> c.image in w.images }

  /** When the next call after looking up, and where needed pulling, `n` images is made; none if a
      lookup breaks or a pull is not answered. A lookup that finds nothing is followed by a pull. */
  function ImagesReady(fate: nat -> Fate, n: nat, clock: nat): Option<nat>
    decreases n
  {
    if n == 0 then Some(clock)
    else if fate(clock).reply.Broken? then None
    else if fate(clock).reply.Answered? && !fate(clock).blank then ImagesReady(fate, n - 1, clock + 1)
    else if fate(clock + 1).reply.Answered? then ImagesReady(fate, n - 1, clock + 2)
    else None
  }

  lemma NextImage(fate: nat -> Fate, n: nat, clock: nat)
    requires n > 0
    ensures ImagesReady(fate, n, clock) ==
      match ImagesReady(fate, 1, clock) case Some(next) => ImagesReady(fate, n - 1, next) case None => None
  {
    assert forall c: nat :: ImagesReady(fate, 0, c) == Some(c);
  }

  /** Calls passed that issued nothing: only other hands changed anything. */
  ghost predicate Waited(before: World, after: World, fate: nat -> Fate)
  {
    && before.clock <= after.clock
    && after.sandboxes == LeftAfter(before.sandboxes, fate, before.clock, after.clock)
    && after.containers == before.containers && after.log == before.log
    && (forall id :: id in after.sandboxes || id in after.past <==> id in before.sandboxes || id in before.past)
  }

  lemma WaitMore(before: World, now: World, fate: nat -> Fate)
    requires Waited(before, now, fate)
    ensures Waited(before, Serve(now, fate(now.clock)), fate)
  {
    LeftOneMore(before.sandboxes, fate, before.clock, now.clock);
  }

  /** The handle names one container of its sandbox for every container asked for, and all are started. */
  predicate Started(w: World, spec: Spec, sandbox: Id, h: Handle)
  {
    && h.sandbox == sandbox && h.filter == Filter(spec.metadata.executorId) && |h.containers| == |spec.containers|
    && Begun(w, sandbox, h.containers)
  }

  /** The containers are in the sandbox and were started. */
  predicate Begun(w: World, sandbox: Id, ids: seq<Id>)
  {
    forall c :: c in ids ==> c in w.containers && w.containers[c] == sandbox && c in w.started
  }

  /** The call that makes a container finds its sandbox and is answered with a new id. */
  predicate Makes(f: Fate, sandbox: Id, present: bool, taken: set<Id>)
  {
    present && sandbox !in f.gone && f.reply.Answered? && !f.blank && f.id != "" && f.id !in taken
  }

  /** For each of `n` containers in turn, the call that makes it does, and the call that starts it is
      answered. */
  predicate AllStart(fate: nat -> Fate, n: nat, sandbox: Id, present: bool, taken: set<Id>, clock: nat)
    decreases n
  {
    n == 0
    || (var make, begin := fate(clock), fate(clock + 1);
        && Makes(make, sandbox, present, taken) && begin.reply.Answered?
        && AllStart(fate, n - 1, sandbox, present && sandbox !in make.gone + begin.gone, taken + {make.id}, clock + 2))
  }

  /** The ids that the calls from this time on give to `n` containers, each made and then started. */
  function Ids(fate: nat -> Fate, clock: nat, n: nat): seq<Id>
  {
    seq(n, i requires 0 <= i < n => fate(clock + 2 * i).id)
  }

  /** Of the containers asked for, `i` are made and started. */
  ghost predicate Progress(start: World, now: World, spec: Spec, sandbox: Id, h: Handle, fate: nat -> Fate, i: nat)
  {
    && now.clock == start.clock + 2 * i && now.log == start.log && now.images == start.images
    && h.containers == Ids(fate, start.clock, i)
    && now.sandboxes == LeftAfter(start.sandboxes, fate, start.clock, now.clock)
    && h == Handle(sandbox, h.containers, Filter(spec.metadata.executorId))
    && i == |h.containers| <= |spec.containers| && Begun(now, sandbox, h.containers)
    && (forall j :: 0 <= j < i ==> Config(spec, spec.containers[j]).Done?)
    && (AllStart(fate, |spec.containers|, sandbox, true, start.containers.Keys, start.clock) <==>
        AllStart(fate, |spec.containers| - i, sandbox, sandbox in now.sandboxes, now.containers.Keys, now.clock))
  }

  lemma ProgressStep(start: World, mid: World, now: World, spec: Spec, sandbox: Id, h: Handle, more: Handle,
                     fate: nat -> Fate, i: nat)
    requires Progress(start, mid, spec, sandbox, h, fate, i) && i < |spec.containers|
    requires Config(spec, spec.containers[i]).Done?
    requires Makes(fate(mid.clock), sandbox, sandbox in mid.sandboxes, mid.containers.Keys)
    requires fate(mid.clock + 1).reply.Answered? && now.clock == mid.clock + 2 && now.log == mid.log
    requires now.images == mid.images
    requires now.sandboxes == LeftAfter(mid.sandboxes, fate, mid.clock, now.clock)
    requires now.containers.Keys == mid.containers.Keys + {fate(mid.clock).id}
    requires more == h.(containers := h.containers + [fate(mid.clock).id]) && Begun(now, sandbox, more.containers)
    ensures Progress(start, now, spec, sandbox, more, fate, i + 1)
  {
    LeftJoin(start.sandboxes, fate, start.clock, mid.clock, now.clock);
    StillThere(mid.sandboxes, now.sandboxes, fate, mid.clock, sandbox);
  }

  lemma ProgressStops(start: World, mid: World, after: map<Id, Labels>, clock: nat, spec: Spec, sandbox: Id,
                      h: Handle, fate: nat -> Fate, i: nat)
    requires Progress(start, mid, spec, sandbox, h, fate, i) && i < |spec.containers| && mid.clock <= clock
    requires !(Makes(fate(mid.clock), sandbox, sandbox in mid.sandboxes, mid.containers.Keys)
               && fate(mid.clock + 1).reply.Answered?)
    requires AtMostGone(LeftAfter(mid.sandboxes, fate, mid.clock, clock), after, sandbox)
    ensures !AllStart(fate, |spec.containers|, sandbox, true, start.containers.Keys, start.clock)
    ensures AtMostGone(LeftAfter(start.sandboxes, fate, start.clock, clock), after, sandbox)
  {
    LeftJoin(start.sandboxes, fate, start.clock, mid.clock, clock);
  }

  lemma StillThere(before: map<Id, Labels>, after: map<Id, Labels>, fate: nat -> Fate, clock: nat, sandbox: Id)
    requires after == LeftAfter(before, fate, clock, clock + 2)
    ensures sandbox in after <==> sandbox in before && sandbox !in fate(clock).gone + fate(clock + 1).gone
  {
    LeftOneMore(before, fate, clock, clock);
    LeftOneMore(before, fate, clock, clock + 1);
  }

  /** The workload is valid, its images are ready, the runtime makes a sandbox with a new id, and makes
      and starts every container. */
  predicate CreateOk(w: World, spec: Spec, fate: nat -> Fate)
  {
    && SpecOk(spec)
    && match ImagesReady(fate, |spec.containers|, w.clock)
       case None => false
       case Some(at) =>
         && Fresh(w, fate(at)) && fate(at).reply.Answered? && !fate(at).blank
         && AllStart(fate, |spec.containers|, fate(at).id, true, w.containers.Keys, at + 1)
  }

  /** The containers that a truthful listing names for a sandbox; none if the listing fails. */
  function ContainersOf(w: World, sandbox: Id, f: Fate): seq<Id>
  {
    if f.reply.Answered? && TrueContainers(w, f.containers) then InSandbox(f.containers, sandbox) else []
  }

  lemma {:induction false} InSandboxMembers(items: seq<(Id, Id)>, sandbox: Id)
    ensures forall c :: c in InSandbox(items, sandbox) <==> (c, sandbox) in items
  {
    if items != [] {
      var n := |items| - 1;
      InSandboxMembers(items[..n], sandbox);
      assert items == items[..n] + [items[n]];
    }
  }

  /** Of what other hands left, only sandboxes of this creation may have gone. */
  predicate Kept(left: map<Id, Labels>, after: map<Id, Labels>, filter: Filter, uid: string)
  {
    && (forall id :: id in after ==> id in left && after[id] == left[id])
    && (forall id :: id in left && !OfCreation(filter, uid, left[id]) ==> id in after)
  }

  predicate Shrunk(before: map<Id, Labels>, after: map<Id, Labels>)
  {
    forall id :: id in after ==> id in before && after[id] == before[id]
  }

  /** Since then only sandboxes of the creation were removed, and no call left the filter. */
  ghost predicate CleanedSoFar(start: World, now: World, filter: Filter, uid: string, fate: nat -> Fate)
  {
    && start.clock <= now.clock && Issued(start.log, now.log, filter)
    && Kept(LeftAfter(start.sandboxes, fate, start.clock, now.clock), now.sandboxes, filter, uid)
  }

  /** Every call from this time on is answered, and not with a blank. */
  ghost predicate AllAnswered(fate: nat -> Fate, from: nat)
  {
    forall c: nat :: from <= c ==> fate(c).reply.Answered? && !fate(c).blank
  }

  /** The listing that this call answers is truthful and complete. */
  predicate Lists(w: World, f: Fate, filter: Filter, uid: string)
  {
    TrueListing(w.sandboxes - f.gone, f.sandboxes) &&
      FullListing(w.sandboxes - f.gone, CreationSelector(filter, uid), f.sandboxes)
  }

  /** Deleting a listed sandbox, with the containers that are listed for it, succeeds. */
  predicate ListedOk(id: Id, filter: Filter, w: World, fate: nat -> Fate)
  {
    DeleteOk(Handle(id, ContainersOf(w, id, fate(w.clock)), filter), Serve(w, fate(w.clock)), fate)
  }

  lemma {:induction false} NoneBroken(fate: nat -> Fate, from: nat, end: nat)
    requires AllAnswered(fate, from)
    ensures BrokenIn(fate, from, end) == 0
    decreases end
  {
    if end > from { NoneBroken(fate, from, end - 1); }
  }

  lemma AnsweredListed(id: Id, filter: Filter, w: World, fate: nat -> Fate, from: nat)
    requires AllAnswered(fate, from) && from <= w.clock
    requires id in w.sandboxes ==> Matches(filter, w.sandboxes[id])
    ensures ListedOk(id, filter, w, fate)
  {
    NoneBroken(fate, w.clock + 2, w.clock + 3 + |ContainersOf(w, id, fate(w.clock))|);
  }

  /** The listing is answered, truthful and complete, and lists no sandbox of this creation. */
  predicate FindsNothing(sandboxes: map<Id, Labels>, f: Fate, filter: Filter, uid: string)
  {
    && f.reply.Answered? && TrueListing(sandboxes, f.sandboxes)
    && FullListing(sandboxes, CreationSelector(filter, uid), f.sandboxes)
    && forall i :: 0 <= i < |f.sandboxes| ==> !OfCreation(filter, uid, f.sandboxes[i].1)
  }

  /** The listed sandboxes of this creation are gone. */
  ghost predicate Gone(sandboxes: map<Id, Labels>, items: seq<(Id, Labels)>, filter: Filter, uid: string)
  {
    forall i :: 0 <= i < |items| && OfCreation(filter, uid, items[i].1) ==> items[i].0 !in sandboxes
  }

  lemma AllGone(listed: map<Id, Labels>, after: map<Id, Labels>, items: seq<(Id, Labels)>, filter: Filter, uid: string)
    requires Shrunk(listed, after) && Gone(after, items, filter, uid)
    requires forall id :: id in listed && OfCreation(filter, uid, listed[id]) ==> (id, listed[id]) in items
    ensures forall id :: id in after ==> !OfCreation(filter, uid, after[id])
  {
    forall id | id in after ensures !OfCreation(filter, uid, after[id]) {
      assert OfCreation(filter, uid, listed[id]) ==> (id, listed[id]) in items;
    }
  }

  lemma KeptOn(start: map<Id, Labels>, mid: map<Id, Labels>, after: map<Id, Labels>, fate: nat -> Fate, a: nat, b: nat,
               c: nat, id: Id, labels: Labels, filter: Filter, uid: string)
    requires a <= b <= c && Kept(LeftAfter(start, fate, a, b), mid, filter, uid)
    requires AtMostGone(LeftAfter(mid, fate, b, c), after, id)
    requires (id in mid ==> mid[id] == labels) && OfCreation(filter, uid, labels)
    ensures Kept(LeftAfter(start, fate, a, c), after, filter, uid) && Shrunk(mid, after)
  {
    GoneJoin(fate, a, b, c);
  }

  lemma ListedAll(sandboxes: map<Id, Labels>, filter: Filter, uid: string, items: seq<(Id, Labels)>)
    requires FullListing(sandboxes, CreationSelector(filter, uid), items)
    ensures forall id :: id in sandboxes && OfCreation(filter, uid, sandboxes[id]) ==> (id, sandboxes[id]) in items
  {
    forall id | id in sandboxes && OfCreation(filter, uid, sandboxes[id]) ensures (id, sandboxes[id]) in items {
      SelectorMeans(filter, uid, sandboxes[id]);
    }
  }

  // ---- What a creation leaves ------------------------------------------------------------

  /** How the runtime treats the call that makes the sandbox, if it comes to that call. */
  function RunFate(w: World, spec: Spec, fate: nat -> Fate): Fate
  {
    match ImagesReady(fate, |spec.containers|, w.clock) case Some(at) => fate(at) case None => fate(w.clock)
  }

  /** The workload is valid, its images are ready, and the runtime answers with a blank id. */
  predicate BlankAnswer(w: World, spec: Spec, fate: nat -> Fate)
  {
    && SpecOk(spec) && ImagesReady(fate, |spec.containers|, w.clock).Some?
    && var f := RunFate(w, spec, fate); Fresh(w, f) && f.reply.Answered? && f.blank
  }

  /** The workload is valid, its images are ready, and the runtime does not answer the call that makes
      the sandbox. */
  predicate Unanswered(w: World, spec: Spec, fate: nat -> Fate)
  {
    && SpecOk(spec) && ImagesReady(fate, |spec.containers|, w.clock).Some?
    && !RunFate(w, spec, fate).reply.Answered?
  }

  /** The workload is valid, its images are ready, and the runtime does not answer the call that makes
      the sandbox, but makes it after the cleanup has listed. */
  predicate LateSandbox(w: World, spec: Spec, fate: nat -> Fate)
  {
    && SpecOk(spec) && ImagesReady(fate, |spec.containers|, w.clock).Some?
    && GoesOn(w, RunFate(w, spec, fate))
  }

  /** The listing that follows an unanswered call to make the sandbox finds nothing of the creation. */
  predicate CleanListing(w: World, spec: Spec, fate: nat -> Fate)
  {
    match ImagesReady(fate, |spec.containers|, w.clock)
    case Some(at) =>
      FindsNothing(LeftAfter(w.sandboxes, fate, w.clock, at + 2), fate(at + 1), Filter(spec.metadata.executorId),
                   spec.metadata.uid)
    case None => false
  }

  /** The call that makes the sandbox decides what becomes of the creation. */
  lemma RunDecides(start: World, w: World, spec: Spec, fate: nat -> Fate)
    requires SpecOk(spec) && Waited(start, w, fate)
    requires ImagesReady(fate, |spec.containers|, start.clock) == Some(w.clock)
    ensures var f := fate(w.clock);
      && RunFate(start, spec, fate) == f
      && (CreateOk(start, spec, fate) <==>
          Fresh(w, f) && f.reply.Answered? && !f.blank
          && AllStart(fate, |spec.containers|, f.id, true, w.containers.Keys, w.clock + 1))
      && (BlankAnswer(start, spec, fate) <==> Fresh(w, f) && f.reply.Answered? && f.blank)
      && (LateSandbox(start, spec, fate) <==> GoesOn(w, f))
  {
  }

  lemma LateIsOwn(left: map<Id, Labels>, after: map<Id, Labels>, spec: Spec, id: Id)
    requires OnlyOwn(left, after, spec) && id !in left
    ensures OnlyOwn(left, after[id := MetadataLabels(spec.metadata)], spec)
  {
    OwnLabelsMatch(spec.metadata, Filter(spec.metadata.executorId));
  }

  /** There is one new sandbox with the workload's labels, unless other hands removed it since; the
      others are those that other hands left. */
  predicate Made(before: World, after: World, id: Id, spec: Spec, fate: nat -> Fate)
  {
    && id !in before.sandboxes
    && (id in after.sandboxes ==> after.sandboxes[id] == MetadataLabels(spec.metadata))
    && after.sandboxes - {id} == LeftAfter(before.sandboxes, fate, before.clock, after.clock) - {id}
    && ImagesReady(fate, |spec.containers|, before.clock).Some?
    && var at := ImagesReady(fate, |spec.containers|, before.clock).value;
       fate(at).id == id && (id in after.sandboxes <==> id !in GoneIn(fate, at + 1, after.clock))
  }

  /** The handle names the new sandbox, and one container of it per container asked for, in the order in
      which they were made and started. */
  predicate Delivered(before: World, after: World, h: Handle, spec: Spec, fate: nat -> Fate)
  {
    && Started(after, spec, h.sandbox, h) && Made(before, after, h.sandbox, spec, fate)
    && var at := ImagesReady(fate, |spec.containers|, before.clock).value;
       h.containers == Ids(fate, at + 1, |spec.containers|)
  }

  ghost predicate Leftover(before: map<Id, Labels>, after: map<Id, Labels>)
  {
    exists id :: id in after && id !in before
  }

  /** Whatever appeared or went, apart from what other hands did, carries the labels of this very
      workload's creation. */
  predicate OnlyOwn(left: map<Id, Labels>, after: map<Id, Labels>, spec: Spec)
  {
    var f, uid := Filter(spec.metadata.executorId), spec.metadata.uid;
    && (forall id :: id in after && !OfCreation(f, uid, after[id]) ==> id in left && left[id] == after[id])
    && (forall id :: id in left && !OfCreation(f, uid, left[id]) ==> id in after && after[id] == left[id])
  }

  /** Between times `a` and `b` one sandbox of the workload may have been made. */
  predicate MayHaveRun(start: map<Id, Labels>, ran: map<Id, Labels>, spec: Spec, fate: nat -> Fate, a: nat, b: nat,
                       id: Id)
  {
    var left := LeftAfter(start, fate, a, b);
    ran == left || (id !in start && ran == left[id := MetadataLabels(spec.metadata)])
  }

  /** From then on only sandboxes of its creation were removed. */
  lemma CleanedUp(start: map<Id, Labels>, ran: map<Id, Labels>, after: map<Id, Labels>, spec: Spec, fate: nat -> Fate,
                  a: nat, b: nat, c: nat, id: Id)
    requires a <= b <= c && MayHaveRun(start, ran, spec, fate, a, b, id)
    requires Kept(LeftAfter(ran, fate, b, c), after, Filter(spec.metadata.executorId), spec.metadata.uid)
    ensures OnlyOwn(LeftAfter(start, fate, a, c), after, spec)
    ensures var filter, uid := Filter(spec.metadata.executorId), spec.metadata.uid;
      (forall i :: i in after ==> !OfCreation(filter, uid, after[i])) ==> !Leftover(start, after)
  {
    GoneJoin(fate, a, b, c);
    OwnLabelsMatch(spec.metadata, Filter(spec.metadata.executorId));
  }

  /** Apart from one sandbox with the workload's labels, everything is as other hands left it. */
  lemma OwnIsOnlyOwn(left: map<Id, Labels>, after: map<Id, Labels>, spec: Spec, id: Id)
    requires (id in after ==> after[id] == MetadataLabels(spec.metadata)) && after - {id} == left - {id} && id !in left
    ensures OnlyOwn(left, after, spec)
  {
    OwnLabelsMatch(spec.metadata, Filter(spec.metadata.executorId));
    forall i | i != id ensures (i in after <==> i in left) && (i in left ==> after[i] == left[i]) {
      assert i in after - {id} <==> i in left - {id};
      assert i in left ==> (after - {id})[i] == (left - {id})[i];
    }
  }

  lemma OthersAsLeft(start: map<Id, Labels>, ran: map<Id, Labels>, after: map<Id, Labels>, spec: Spec,
                     fate: nat -> Fate, a: nat, b: nat, c: nat, id: Id)
    requires a <= b <= c && id !in start
    requires ran == LeftAfter(start, fate, a, b)[id := MetadataLabels(spec.metadata)]
    requires AtMostGone(LeftAfter(ran, fate, b, c), after, id)
    ensures after - {id} == LeftAfter(start, fate, a, c) - {id}
    ensures id in after ==> after[id] == MetadataLabels(spec.metadata)
    ensures after == LeftAfter(ran, fate, b, c) ==> (id in after <==> id !in GoneIn(fate, b, c))
    ensures id !in after ==> !Leftover(start, after)
  {
    GoneJoin(fate, a, b, c);
    WithoutOwn(start, GoneIn(fate, a, b), GoneIn(fate, b, c), id, MetadataLabels(spec.metadata));
    forall i | i in after && i != id ensures i in start { assert i in after - {id}; }
  }

  lemma WithoutOwn(start: map<Id, Labels>, first: set<Id>, second: set<Id>, id: Id, labels: Labels)
    ensures (start - first)[id := labels] - second - {id} == start - (first + second) - {id}
  {
  }

  /** The blank answer does leave a sandbox: for every valid workload and every world, a runtime that
      answers everything but never gives an id makes the creation fail with no rollback at all. */
  method BlankAnswerLeavesSandbox(spec: Spec, world: World, id: Id) returns (r: Outcome<Handle>, after: map<Id, Labels>)
    requires SpecOk(spec) && id != "" && id !in world.sandboxes && id !in world.past
    ensures r == Failed(EmptySandboxId)
    ensures Leftover(world.sandboxes, after)
  {
    var m := new WorkloadManager(_ => Fate(Answered, true, false, true, id, {}, [], []), world);
    AlwaysReady(m.fate, |spec.containers|, world.clock);
    r := m.Create(spec);
    after := m.w.sandboxes;
  }

  /** The late sandbox is left as well: for every valid workload of a new uid and every world, a runtime
      that is late with the sandbox and answers everything else makes the creation fail with a cleanup
      that finds nothing, and then makes the sandbox. */
  method LateSandboxIsLeft(spec: Spec, world: World, id: Id) returns (r: Outcome<Handle>, after: map<Id, Labels>)
    requires SpecOk(spec) && id != "" && id !in world.sandboxes && id !in world.past
    requires var selector := CreationSelector(Filter(spec.metadata.executorId), spec.metadata.uid);
      forall i :: i in world.sandboxes ==> !Selects(selector, world.sandboxes[i])
    ensures r.Failed? && !r.error.RollbackFailed? && Leftover(world.sandboxes, after)
  {
    var at := world.clock + |spec.containers|;
    var fate := (c: nat) => Fate(if c == at then Broken else Answered, false, true, false, id, {}, [], []);
    var m := new WorkloadManager(fate, world);
    ReadyAt(m.fate, |spec.containers|, world.clock);
    r := m.Create(spec);
    after := m.w.sandboxes;
  }

  /** A runtime that answers everything with new ids makes the creation of every valid workload succeed,
      in every world. */
  method AnsweringRuntimeCreates(spec: Spec, world: World, ids: nat -> Id) returns (r: Outcome<Handle>)
    requires SpecOk(spec) && forall c: nat :: ids(c) != "" && ids(c) !in world.sandboxes && ids(c) !in world.past
    requires forall c: nat :: ids(c) !in world.containers
    requires forall c: nat, d: nat :: c < d ==> ids(c) != ids(d)
    ensures r.Done?
  {
    var m := new WorkloadManager((c: nat) => Fate(Answered, true, false, false, ids(c), {}, [], []), world);
    AnsweredIsOk(m.fate, spec, world);
    r := m.Create(spec);
  }

  lemma AnsweredIsOk(fate: nat -> Fate, spec: Spec, world: World)
    requires SpecOk(spec) && forall c: nat :: Answers(fate(c), world)
    requires forall c: nat, d: nat :: c < d ==> fate(c).id != fate(d).id
    ensures CreateOk(world, spec, fate)
  {
    var n := |spec.containers|;
    var at := world.clock + n;
    forall c: nat ensures AnswersNew(fate(c), world.containers.Keys) { assert Answers(fate(c), world); }
    AnsweredReady(fate, n, world);
    AnsweredAllStart(fate, n, fate(at).id, world.containers.Keys, at + 1);
    assert Answers(fate(at), world);
  }

  lemma AnsweredReady(fate: nat -> Fate, n: nat, world: World)
    requires forall c: nat :: Answers(fate(c), world)
    ensures ImagesReady(fate, n, world.clock) == Some(world.clock + n)
  {
    forall c: nat ensures fate(c).reply.Answered? && !fate(c).blank { assert Answers(fate(c), world); }
    ReadyAt(fate, n, world.clock);
  }

  predicate AnswersNew(f: Fate, taken: set<Id>)
  {
    f.reply.Answered? && !f.blank && f.gone == {} && f.id != "" && f.id !in taken
  }

  /** The call is answered with an id that is new to the world, and nothing is gone. */
  predicate Answers(f: Fate, world: World)
  {
    f.reply.Answered? && !f.blank && f.gone == {} && Fresh(world, f) && f.id !in world.containers
  }

  lemma {:induction false} AnsweredAllStart(fate: nat -> Fate, n: nat, sandbox: Id, taken: set<Id>, clock: nat)
    requires forall c: nat :: clock <= c ==> AnswersNew(fate(c), taken)
    requires forall c: nat, d: nat :: clock <= c < d ==> fate(c).id != fate(d).id
    ensures AllStart(fate, n, sandbox, true, taken, clock)
    decreases n
  {
    if n > 0 {
      var more := taken + {fate(clock).id};
      forall c: nat | clock + 2 <= c ensures AnswersNew(fate(c), more) { assert AnswersNew(fate(c), taken); }
      assert AnswersNew(fate(clock), taken) && AnswersNew(fate(clock + 1), taken);
      AnsweredAllStart(fate, n - 1, sandbox, more, clock + 2);
    }
  }

  lemma {:induction false} ReadyAt(fate: nat -> Fate, n: nat, clock: nat)
    requires forall c: nat :: clock <= c < clock + n ==> fate(c).reply.Answered? && !fate(c).blank
    ensures ImagesReady(fate, n, clock) == Some(clock + n)
    decreases n
  {
    if n > 0 { ReadyAt(fate, n - 1, clock + 1); }
  }

  lemma {:induction false} AlwaysReady(fate: nat -> Fate, n: nat, clock: nat)
    requires forall c :: fate(c).reply.Answered?
    ensures ImagesReady(fate, n, clock).Some?
    decreases n
  {
    if n > 0 {
      AlwaysReady(fate, n - 1, clock + 1);
      AlwaysReady(fate, n - 1, clock + 2);
    }
  }
}
