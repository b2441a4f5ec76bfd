/**
 The cross-process lock of the device backup (dev/sharedDeviceStoreAdapter.ts:579-761): Lamport's
 bakery with directory entries.  A pending entry is the choosing flag; renaming it makes it a ticket.
 A scan is split as in the code: one listing, then one look at each listed name.  Any number of
 users take any steps in any order, crash anywhere, or give up anywhere; a live user's own entries
 are never reclaimed.
 */
module BackupLock {
  import opened Prelude

  datatype Name = Pending(token: nat) | Ticket(number: nat, token: nat) | Foreign(id: nat)

  datatype Mode =
    | Outside
    | Doorway                                               // its pending entry exists
    | Choosing(unread: set<Name>, seen: set<Name>)          // scanning for the highest ticket
    | Chosen(number: nat)
    | Waiting(number: nat)                                  // its ticket entry exists
    | Checking(number: nat, unread: set<Name>, seen: set<Name>)
    | Inside(number: nat)
    | Gone                                                  // left, gave up or crashed

  /** `missed` is history: (p, q) when q's rename hid its pending entry from p's current scan. */
  datatype System = System(names: set<Name>, modes: map<nat, Mode>, missed: set<(nat, nat)>)

  function ModeOf(s: System, p: nat): Mode {
    if p in s.modes then s.modes[p] else Outside
  }

  /** A ticket name whose number is beyond the safe integers is not recognised as a ticket. */
  predicate Recognised(number: nat) {
    number <= MAX_SAFE_INTEGER
  }

  /** Ticket order: by number, then by token.  NamesSortAsTickets shows that names sort this way. */
  predicate Before(n: nat, p: nat, m: nat, q: nat) {
    n < m || (n == m && p < q)
  }

  predicate IsPending(mode: Mode) {
    mode.Doorway? || mode.Choosing? || mode.Chosen?
  }

  predicate HasTicket(mode: Mode) {
    mode.Waiting? || mode.Checking? || mode.Inside?
  }

  /** One more than the highest recognised ticket seen. */
  ghost predicate NextNumber(seen: set<Name>, number: nat) {
    && number > 0
    && (forall m: nat, q: nat :: Ticket(m, q) in seen && Recognised(m) ==> m < number)
    && (number > 1 ==> exists name :: name in seen && name.Ticket? && name.number == number - 1)
    && Recognised(number - 1)
  }

  /** The test that ends a check: no pending entry, nothing unrecognised, and no earlier ticket. */
  ghost predicate Clear(seen: set<Name>, number: nat, p: nat) {
    && (forall q: nat :: Pending(q) !in seen)
    && (forall id: nat :: Foreign(id) !in seen)
    && (forall m: nat, q: nat :: Ticket(m, q) in seen ==> Recognised(m))
    && Ticket(number, p) in seen
    && forall m: nat, q: nat :: Ticket(m, q) in seen ==> (m == number && q == p) || Before(number, p, m, q)
  }

  datatype Step =
    | Open(p: nat)
    | StartChoosing(p: nat)
    | FinishChoosing(p: nat, number: nat)
    | Rename(p: nat)
    | StartChecking(p: nat)
    | FinishChecking(p: nat)
    | Read(p: nat, name: Name)
    | Leave(p: nat)
    | Crash(p: nat)
    | ForeignAppears(id: nat)
    | ForeignLeaves(id: nat)

  predicate OwnerGone(s: System, name: Name) {
    !name.Foreign? && ModeOf(s, name.token).Gone?
  }

  function WithMode(s: System, p: nat, mode: Mode): System {
    s.(modes := s.modes[p := mode])
  }

  /** Looking at one listed name: it counts if it still exists and its owner lives; the entry of a
      dead owner is removed. */
  function Look(s: System, p: nat, name: Name): System {
    var found := name in s.names && !OwnerGone(s, name);
    var names := if OwnerGone(s, name) then s.names - {name} else s.names;
    match ModeOf(s, p)
    case Choosing(unread, seen) =>
      if name !in unread then s
      else WithMode(s, p, Choosing(unread - {name}, if found then seen + {name} else seen)).(names := names)
    case Checking(number, unread, seen) =>
      if name !in unread then s
      else WithMode(s, p, Checking(number, unread - {name}, if found then seen + {name} else seen)).(names := names)
    case _ => s
  }

  function OwnNames(p: nat, mode: Mode): set<Name> {
    if HasTicket(mode) then {Ticket(mode.number, p)} else if IsPending(mode) then {Pending(p)} else {}
  }

  /** The scans that have listed p's pending entry and not yet looked at it. */
  function Hidden(s: System, p: nat): set<(nat, nat)> {
    set q | q in s.modes && s.modes[q].Checking? && Pending(p) in s.modes[q].unread :: (q, p)
  }

  ghost function Next(s: System, step: Step): System {
    match step
    case Open(p) =>
      if ModeOf(s, p).Outside? then WithMode(s, p, Doorway).(names := s.names + {Pending(p)}) else s
    case StartChoosing(p) =>
      if ModeOf(s, p).Doorway? then WithMode(s, p, Choosing(s.names, {})) else s
    case FinishChoosing(p, number) =>
      var mode := ModeOf(s, p);
      if mode.Choosing? && mode.unread == {} && NextNumber(mode.seen, number)
      then WithMode(s, p, Chosen(number)) else s
    case Rename(p) =>
      var mode := ModeOf(s, p);
      if mode.Chosen?
      then WithMode(s, p, Waiting(mode.number)).(
        names := s.names - {Pending(p)} + {Ticket(mode.number, p)}, missed := s.missed + Hidden(s, p))
      else s
    case StartChecking(p) =>
      var mode := ModeOf(s, p);
      if mode.Waiting?
      then WithMode(s, p, Checking(mode.number, s.names, {})).(missed := set x | x in s.missed && x.0 != p)
      else s
    case FinishChecking(p) =>
      var mode := ModeOf(s, p);
      if mode.Checking? && mode.unread == {}
      then WithMode(s, p, if Clear(mode.seen, mode.number, p) then Inside(mode.number) else Waiting(mode.number))
      else s
    case Read(p, name) => Look(s, p, name)
    case Leave(p) =>
      if ModeOf(s, p).Outside? || ModeOf(s, p).Gone? then s
      else WithMode(s, p, Gone).(names := s.names - OwnNames(p, ModeOf(s, p)))
    case Crash(p) =>
      if ModeOf(s, p).Outside? then s else WithMode(s, p, Gone)
    case ForeignAppears(id) => s.(names := s.names + {Foreign(id)})
    case ForeignLeaves(id) => s.(names := s.names - {Foreign(id)})
  }

  ghost function Run(s: System, steps: seq<Step>): System
    decreases steps
  {
    if steps == [] then s else Run(Next(s, steps[0]), steps[1..])
  }

  /** Nobody has begun; foreign files may lie in the directory. */
  ghost predicate Initial(s: System) {
    s.modes == map[] && s.missed == {} && forall name :: name in s.names ==> name.Foreign?
  }

  // ----- the invariant -----

  /** A name of p's fits what p is doing now. */
  predicate Fits(s: System, name: Name) {
    match name
    case Foreign(_) => true
    case Pending(p) => IsPending(ModeOf(s, p)) || ModeOf(s, p).Gone?
    case Ticket(n, p) => (HasTicket(ModeOf(s, p)) && ModeOf(s, p).number == n) || ModeOf(s, p).Gone?
  }

  /** A ticket name fits; a pending name may have been renamed since it was read. */
  predicate StillFits(s: System, name: Name) {
    name.Ticket? ==> Fits(s, name)
  }

  /** p's own entry exists for as long as p lives. */
  predicate Present(s: System, p: nat) {
    && (IsPending(ModeOf(s, p)) ==> Pending(p) in s.names)
    && (HasTicket(ModeOf(s, p)) ==> Ticket(ModeOf(s, p).number, p) in s.names)
  }

  ghost predicate NamesInv(s: System) {
    && (forall name :: name in s.names ==> Fits(s, name))
    && (forall p: nat :: Present(s, p))
    && (forall p: nat, name :: name in Scanned(ModeOf(s, p)) ==> StillFits(s, name))
  }

  function Scanned(mode: Mode): set<Name> {
    if mode.Choosing? || mode.Checking? then mode.unread + mode.seen else {}
  }

  /** q will not get ahead of p, which holds ticket n. */
  predicate Behind(n: nat, p: nat, q: nat, mode: Mode) {
    match mode
    case Choosing(unread, seen) => Ticket(n, p) in unread || Ticket(n, p) in seen
    case Chosen(m) => n < m
    case Waiting(m) => Before(n, p, m, q)
    case Checking(m, _, _) => Before(n, p, m, q)
    case Inside(m) => Before(n, p, m, q)
    case _ => true
  }

  /** p's check knows of q: it will still read q's entry, or has read it, or q is behind. */
  predicate Accounted(mode: Mode, n: nat, p: nat, q: nat, other: Mode, missed: set<(nat, nat)>)
    requires mode.Checking?
  {
    || (Pending(q) in mode.unread && (IsPending(other) || other.Gone?))
    || Pending(q) in mode.seen
    || (HasTicket(other) && (Ticket(other.number, q) in mode.unread || Ticket(other.number, q) in mode.seen))
    || Behind(n, p, q, other)
    || (p, q) in missed
  }

  predicate PairInv(s: System, p: nat, q: nat) {
    var mode, other := ModeOf(s, p), ModeOf(s, q);
    && (mode.Checking? && Recognised(mode.number) ==> Accounted(mode, mode.number, p, q, other, s.missed))
    && (mode.Inside? ==>
          Recognised(mode.number) && (Behind(mode.number, p, q, other) || (p, q) in s.missed))
  }

  ghost predicate Inv(s: System) {
    && NamesInv(s)
    && forall p: nat, q: nat :: p != q ==> PairInv(s, p, q)
  }

  lemma InitialInv(s: System)
    requires Initial(s)
    ensures Inv(s)
  {
  }

  // ----- the names -----

  lemma NextKeepsNames(s: System, step: Step)
    requires NamesInv(s)
    ensures NamesInv(Next(s, step))
  {
    var t := Next(s, step);
    forall name | name in t.names ensures Fits(t, name) {
      if name in s.names { assert Fits(s, name); }
    }
    forall p: nat ensures Present(t, p) { assert Present(s, p); }
    forall p: nat, name | name in Scanned(ModeOf(t, p)) ensures StillFits(t, name) {
      ScannedBefore(s, step, p, name);
    }
  }

  lemma ScannedBefore(s: System, step: Step, p: nat, name: Name)
    requires NamesInv(s) && name in Scanned(ModeOf(Next(s, step), p))
    ensures StillFits(Next(s, step), name)
  {
    assert name in Scanned(ModeOf(s, p)) || name in s.names;
    assert StillFits(s, name) by { if name in s.names { assert Fits(s, name); } }
  }

  // ----- the pairs -----

  lemma NextKeepsPair(s: System, step: Step, p: nat, q: nat)
    requires NamesInv(s) && PairInv(s, p, q) && p != q
    ensures PairInv(Next(s, step), p, q)
  {
    assert Present(s, p) && Present(s, q);
    match step
    case FinishChecking(r) => if r == p { CheckKeepsPair(s, p, q); }
    case Read(r, name) => if r == p { ReadKeepsPair(s, p, q, name); }
    case _ =>
  }

  /** A check that passes has accounted for every other user. */
  lemma CheckKeepsPair(s: System, p: nat, q: nat)
    requires NamesInv(s) && PairInv(s, p, q) && p != q
    ensures PairInv(Next(s, FinishChecking(p)), p, q)
  {
    var mode, other := ModeOf(s, p), ModeOf(s, q);
    if mode.Checking? && mode.unread == {} && Clear(mode.seen, mode.number, p) {
      assert Ticket(mode.number, p) in mode.seen;
      if HasTicket(other) && Ticket(other.number, q) in mode.seen {
        assert Before(mode.number, p, other.number, q);
      }
    }
  }

  /** Looking at a name loses sight of its owner only if the owner is gone or has renamed it. */
  lemma ReadKeepsPair(s: System, p: nat, q: nat, name: Name)
    requires NamesInv(s) && PairInv(s, p, q) && p != q
    ensures PairInv(Next(s, Read(p, name)), p, q)
  {
    assert Present(s, p) && Present(s, q);
    assert name in s.names ==> Fits(s, name);
  }

  lemma NextKeepsInv(s: System, step: Step)
    requires Inv(s)
    ensures Inv(Next(s, step))
  {
    NextKeepsNames(s, step);
    forall p: nat, q: nat | p != q ensures PairInv(Next(s, step), p, q) { NextKeepsPair(s, step, p, q); }
  }

  lemma {:induction false} RunKeepsInv(s: System, steps: seq<Step>)
    requires Inv(s)
    ensures Inv(Run(s, steps))
    decreases |steps|
  {
    if steps != [] {
      NextKeepsInv(s, steps[0]);
      RunKeepsInv(Next(s, steps[0]), steps[1..]);
    }
  }

  // ----- mutual exclusion -----

  /** Two users are inside together only if the rename of one slipped through the scan of the other. */
  lemma ExclusionUnlessMissed(s: System, steps: seq<Step>, p: nat, q: nat)
    requires Initial(s) && p != q
    requires ModeOf(Run(s, steps), p).Inside? && ModeOf(Run(s, steps), q).Inside?
    ensures (p, q) in Run(s, steps).missed || (q, p) in Run(s, steps).missed
  {
    InitialInv(s);
    RunKeepsInv(s, steps);
    var t := Run(s, steps);
    assert PairInv(t, p, q) && PairInv(t, q, p);
  }

  /** No rename of the run hides a pending entry from a scan that has listed it. */
  ghost predicate Quiet(s: System, steps: seq<Step>)
    decreases steps
  {
    steps == [] ||
    ((steps[0].Rename? && ModeOf(s, steps[0].p).Chosen? ==> Hidden(s, steps[0].p) == {})
     && Quiet(Next(s, steps[0]), steps[1..]))
  }

  lemma {:induction false} QuietMissesNothing(s: System, steps: seq<Step>)
    requires Quiet(s, steps) && s.missed == {}
    ensures Run(s, steps).missed == {}
    decreases |steps|
  {
    if steps != [] {
      assert Next(s, steps[0]).missed == {};
      QuietMissesNothing(Next(s, steps[0]), steps[1..]);
    }
  }

  lemma MutualExclusion(s: System, steps: seq<Step>, p: nat, q: nat)
    requires Initial(s) && Quiet(s, steps) && p != q
    ensures !(ModeOf(Run(s, steps), p).Inside? && ModeOf(Run(s, steps), q).Inside?)
  {
    QuietMissesNothing(s, steps);
    if ModeOf(Run(s, steps), p).Inside? && ModeOf(Run(s, steps), q).Inside? {
      ExclusionUnlessMissed(s, steps, p, q);
    }
  }

  /** A scan is atomic when nobody else moves between its listing and its last look. */
  ghost predicate AtomicScans(s: System, steps: seq<Step>)
    decreases steps
  {
    steps == [] ||
    ((forall p: nat :: ModeOf(s, p).Checking? && ModeOf(s, p).unread != {} ==>
        (steps[0].Read? || steps[0].Leave? || steps[0].Crash?) && steps[0].p == p)
     && AtomicScans(Next(s, steps[0]), steps[1..]))
  }

  lemma {:induction false} AtomicScansAreQuiet(s: System, steps: seq<Step>)
    requires AtomicScans(s, steps)
    ensures Quiet(s, steps)
    decreases |steps|
  {
    if steps != [] {
      if steps[0].Rename? {
        forall p: nat | p in s.modes && s.modes[p].Checking? ensures s.modes[p].unread == {} {
          assert ModeOf(s, p).Checking?;
        }
      }
      AtomicScansAreQuiet(Next(s, steps[0]), steps[1..]);
    }
  }

  /** With atomic scans no interleaving of any number of users has two inside at once. */
  lemma AtomicMutualExclusion(s: System, steps: seq<Step>, p: nat, q: nat)
    requires Initial(s) && AtomicScans(s, steps) && p != q
    ensures !(ModeOf(Run(s, steps), p).Inside? && ModeOf(Run(s, steps), q).Inside?)
  {
    AtomicScansAreQuiet(s, steps);
    MutualExclusion(s, steps, p, q);
  }

  // ----- first come, first served -----

  /** p's ticket stands in q's way. */
  predicate Ahead(s: System, p: nat, q: nat) {
    var mine, other := ModeOf(s, p), ModeOf(s, q);
    && HasTicket(mine) && !other.Inside?
    && (Recognised(mine.number) ==> Behind(mine.number, p, q, other))
    && (other.Checking? ==> Ticket(mine.number, p) in other.unread || Ticket(mine.number, p) in other.seen)
  }

  lemma NextKeepsAhead(s: System, step: Step, p: nat, q: nat)
    requires NamesInv(s) && Ahead(s, p, q) && p != q
    ensures Ahead(Next(s, step), p, q) || ModeOf(Next(s, step), p).Gone?
  {
    assert Present(s, p);
  }

  lemma {:induction false} RunKeepsAhead(s: System, steps: seq<Step>, p: nat, q: nat)
    requires Inv(s) && p != q && (Ahead(s, p, q) || ModeOf(s, p).Gone?)
    ensures Ahead(Run(s, steps), p, q) || ModeOf(Run(s, steps), p).Gone?
    decreases |steps|
  {
    if steps != [] {
      NextKeepsInv(s, steps[0]);
      if Ahead(s, p, q) { NextKeepsAhead(s, steps[0], p, q); }
      RunKeepsAhead(Next(s, steps[0]), steps[1..], p, q);
    }
  }

  /** A user whose ticket existed before another's pending entry is never overtaken by it, split scans
      or not: the later one is inside only after the earlier one has left or given up. */
  lemma FirstComeFirstServed(s: System, before: seq<Step>, after: seq<Step>, p: nat, q: nat)
    requires Initial(s)
    requires HasTicket(ModeOf(Run(s, before), p)) && ModeOf(Run(s, before), q).Outside?
    requires ModeOf(Run(Run(s, before), after), q).Inside?
    ensures ModeOf(Run(Run(s, before), after), p).Gone?
  {
    InitialInv(s);
    RunKeepsInv(s, before);
    RunKeepsAhead(Run(s, before), after, p, q);
  }

  // ----- what a scan looks at -----

  /** A scan counts only what its own listing named: whatever anybody does, it looks at no entry that
      appeared later, and what it has counted it keeps. */
  lemma ScanKeepsToItsListing(s: System, step: Step, p: nat, name: Name)
    requires ModeOf(s, p).Choosing? || ModeOf(s, p).Checking?
    requires ModeOf(Next(s, step), p).Choosing? || ModeOf(Next(s, step), p).Checking?
    ensures name in Scanned(ModeOf(Next(s, step), p)) ==> name in Scanned(ModeOf(s, p))
    ensures name in ModeOf(s, p).seen ==> name in ModeOf(Next(s, step), p).seen
    ensures name in ModeOf(Next(s, step), p).seen && name !in ModeOf(s, p).seen ==>
      step == Read(p, name) && name in s.names && !OwnerGone(s, name)
  {
  }

  // ----- entries that bar everybody -----

  /** The name is no recognised ticket: an unknown file, a pending entry, or a ticket beyond the safe
      integers. */
  predicate Obstructs(name: Name) {
    !(name.Ticket? && Recognised(name.number))
  }

  /** Throughout the run the entry exists and its owner, if it has one, has not gone. */
  ghost predicate Stays(s: System, steps: seq<Step>, name: Name)
    decreases steps
  {
    && name in s.names && (name.Foreign? || !ModeOf(s, name.token).Gone?)
    && (steps == [] || Stays(Next(s, steps[0]), steps[1..], name))
  }

  /** p is not inside, and a check of p's has still to look at the entry or has found it. */
  predicate HeldBack(s: System, p: nat, name: Name) {
    && !ModeOf(s, p).Inside?
    && (ModeOf(s, p).Checking? ==> name in Scanned(ModeOf(s, p)))
  }

  lemma NextHoldsBack(s: System, step: Step, p: nat, name: Name)
    requires Obstructs(name) && HeldBack(s, p, name) && Stays(s, [], name)
    ensures HeldBack(Next(s, step), p, name)
  {
  }

  /** While an unknown file, a pending entry or an unrecognised ticket stays in the directory, nobody gets
      in on a check that begins there, that has listed it, or that has found it. */
  lemma {:induction false} ObstacleBarsEverybody(s: System, steps: seq<Step>, p: nat, name: Name)
    requires Obstructs(name) && HeldBack(s, p, name) && Stays(s, steps, name)
    ensures !ModeOf(Run(s, steps), p).Inside?
    decreases |steps|
  {
    if steps != [] {
      NextHoldsBack(s, steps[0], p, name);
      ObstacleBarsEverybody(Next(s, steps[0]), steps[1..], p, name);
    }
  }

  // ----- the entries of the dead -----

  /** Looking at a listed entry removes it exactly if its owner is gone; leaving removes one's own entry;
      crashing leaves it behind. */
  lemma EntriesAfter(s: System, p: nat, name: Name)
    ensures (ModeOf(s, p).Choosing? || ModeOf(s, p).Checking?) && name in ModeOf(s, p).unread ==>
      Next(s, Read(p, name)).names == if OwnerGone(s, name) then s.names - {name} else s.names
    ensures !ModeOf(s, p).Outside? && !ModeOf(s, p).Gone? ==>
      && Next(s, Leave(p)).names == s.names - OwnNames(p, ModeOf(s, p)) && ModeOf(Next(s, Leave(p)), p).Gone?
      && Next(s, Crash(p)).names == s.names && ModeOf(Next(s, Crash(p)), p).Gone?
    ensures ModeOf(s, p).Outside? || ModeOf(s, p).Gone? ==> Next(s, Leave(p)) == s
    ensures ModeOf(s, p).Outside? ==> Next(s, Crash(p)) == s
  {
  }

  /** Unknown files come and go as they please, and touch nothing else. */
  lemma ForeignFiles(s: System, id: nat)
    ensures Next(s, ForeignAppears(id)) == System(s.names + {Foreign(id)}, s.modes, s.missed)
    ensures Next(s, ForeignLeaves(id)) == System(s.names - {Foreign(id)}, s.modes, s.missed)
  {
  }

  /** A scan misses a rename exactly if it has listed the pending entry and not yet looked at it; a new
      check starts with nothing missed. */
  lemma MissedExactly(s: System, step: Step, p: nat, q: nat)
    ensures (p, q) in Next(s, step).missed <==>
      || (step == Rename(q) && ModeOf(s, q).Chosen? && ModeOf(s, p).Checking? && Pending(q) in ModeOf(s, p).unread)
      || ((p, q) in s.missed && !(step == StartChecking(p) && ModeOf(s, p).Waiting?))
  {
  }

  function Reads(p: nat, names: seq<Name>): seq<Step> {
    if names == [] then [] else [Read(p, names[0])] + Reads(p, names[1..])
  }

  /** Only p's own entry counts: the owners of all others are gone, and p has still to look at them. */
  ghost predicate AmongTheDead(s: System, p: nat, n: nat, own: Name) {
    && own == Ticket(n, p) && own in s.names
    && ModeOf(s, p).Checking? && ModeOf(s, p).number == n
    && own in ModeOf(s, p).unread + ModeOf(s, p).seen && ModeOf(s, p).seen <= {own}
    && forall name :: name in s.names && name != own ==> OwnerGone(s, name) && name in ModeOf(s, p).unread
  }

  lemma LookAmongTheDead(s: System, p: nat, n: nat, own: Name, name: Name)
    requires AmongTheDead(s, p, n, own)
    ensures var t := Next(s, Read(p, name));
      AmongTheDead(t, p, n, own) && ModeOf(t, p).unread == ModeOf(s, p).unread - {name}
  {
  }

  lemma {:induction false} LooksRemoveTheDead(s: System, p: nat, n: nat, own: Name, names: seq<Name>)
    requires AmongTheDead(s, p, n, own) && forall name :: name in ModeOf(s, p).unread ==> name in names
    ensures var t := Run(s, Reads(p, names)); ModeOf(t, p) == Checking(n, {}, {own}) && t.names == {own}
    decreases |names|
  {
    if names != [] {
      LookAmongTheDead(s, p, n, own, names[0]);
      LooksRemoveTheDead(Next(s, Read(p, names[0])), p, n, own, names[1..]);
    }
  }

  /** Whatever crashed users have left in the directory, a waiting user gets past it: one scan removes it
      all, and lets the user in. */
  lemma TheDeadDoNotBlock(s: System, p: nat, n: nat, names: seq<Name>)
    requires ModeOf(s, p) == Waiting(n) && Recognised(n) && Ticket(n, p) in s.names
    requires forall name :: name in s.names && name != Ticket(n, p) ==> OwnerGone(s, name)
    requires forall name :: name in s.names ==> name in names
    ensures var t := Next(Run(Next(s, StartChecking(p)), Reads(p, names)), FinishChecking(p));
      ModeOf(t, p) == Inside(n) && t.names == {Ticket(n, p)}
  {
    var checking := Next(s, StartChecking(p));
    LooksRemoveTheDead(checking, p, n, Ticket(n, p), names);
    var done := Run(checking, Reads(p, names));
    assert Clear(ModeOf(done, p).seen, n, p);
  }

  // ----- the split scan -----

  lemma {:induction false} RunAppend(s: System, first: seq<Step>, second: seq<Step>)
    ensures Run(s, first + second) == Run(Run(s, first), second)
    decreases |first|
  {
    if first == [] {
      assert first + second == second;
    } else {
      assert (first + second)[0] == first[0];
      assert (first + second)[1..] == first[1..] + second;
      RunAppend(Next(s, first[0]), first[1..], second);
    }
  }

  lemma RunOf2(s: System, a: Step, b: Step)
    ensures Run(s, [a, b]) == Next(Next(s, a), b)
  {
    assert [a, b][1..] == [b] && [b][1..] == [];
    assert Run(Next(s, a), [b]) == Run(Next(Next(s, a), b), []);
  }

  lemma RunOf4(s: System, a: Step, b: Step, c: Step, d: Step)
    ensures Run(s, [a, b, c, d]) == Next(Next(Next(Next(s, a), b), c), d)
  {
    RunAppend(s, [a, b], [c, d]);
    assert [a, b] + [c, d] == [a, b, c, d];
    RunOf2(s, a, b);
    RunOf2(Next(Next(s, a), b), c, d);
  }

  /** User p chooses ticket 1 beside another pending user. */
  function ChooseFirst(p: nat): seq<Step> {
    [StartChoosing(p), Read(p, Pending(1)), Read(p, Pending(2)), FinishChoosing(p, 1)]
  }

  lemma ChoosesFirst(s: System, p: nat)
    requires s.names == {Pending(1), Pending(2)} && ModeOf(s, p) == Doorway
    requires !ModeOf(s, 1).Gone? && !ModeOf(s, 2).Gone?
    ensures Run(s, ChooseFirst(p)) == WithMode(s, p, Chosen(1))
  {
    RunOf4(s, StartChoosing(p), Read(p, Pending(1)), Read(p, Pending(2)), FinishChoosing(p, 1));
    var s1 := Next(s, StartChoosing(p));
    var s2 := Next(s1, Read(p, Pending(1)));
    var s3 := Next(s2, Read(p, Pending(2)));
    assert ModeOf(s2, p) == Choosing({Pending(2)}, {Pending(1)});
    assert ModeOf(s3, p) == Choosing({}, {Pending(1), Pending(2)});
    assert s.modes[p := Chosen(1)] == Next(s3, FinishChoosing(p, 1)).modes;
  }

  /** User 2 lists user 1's pending entry; user 1 renames it before user 2 looks. */
  function Overtake(): seq<Step> {
    [StartChecking(2), Rename(1), Read(2, Pending(1)), Read(2, Ticket(1, 2))]
  }

  lemma Overtakes(s: System)
    requires s.names == {Pending(1), Ticket(1, 2)}
    requires ModeOf(s, 1) == Chosen(1) && ModeOf(s, 2) == Waiting(1)
    ensures var t := Run(s, Overtake());
      t.names == {Ticket(1, 1), Ticket(1, 2)}
      && ModeOf(t, 1) == Waiting(1) && ModeOf(t, 2) == Checking(1, {}, {Ticket(1, 2)})
  {
    RunOf4(s, StartChecking(2), Rename(1), Read(2, Pending(1)), Read(2, Ticket(1, 2)));
    var s1 := Next(s, StartChecking(2));
    var s2 := Next(s1, Rename(1));
    var s3 := Next(s2, Read(2, Pending(1)));
    assert s2.names == {Ticket(1, 1), Ticket(1, 2)};
    assert ModeOf(s3, 2) == Checking(1, {Ticket(1, 2)}, {});
  }

  function Check(): seq<Step> {
    [StartChecking(1), Read(1, Ticket(1, 1)), Read(1, Ticket(1, 2)), FinishChecking(1)]
  }

  lemma Looks(s: System, s3: System)
    requires s.names == {Ticket(1, 1), Ticket(1, 2)} && ModeOf(s, 1) == Waiting(1) && ModeOf(s, 2).Inside?
    requires s3 == Next(Next(Next(s, StartChecking(1)), Read(1, Ticket(1, 1))), Read(1, Ticket(1, 2)))
    ensures ModeOf(s3, 1) == Checking(1, {}, {Ticket(1, 1), Ticket(1, 2)}) && ModeOf(s3, 2).Inside?
  {
  }

  lemma Checks(s: System)
    requires s.names == {Ticket(1, 1), Ticket(1, 2)}
    requires ModeOf(s, 1) == Waiting(1) && ModeOf(s, 2).Inside?
    ensures ModeOf(Run(s, Check()), 1).Inside? && ModeOf(Run(s, Check()), 2).Inside?
  {
    RunOf4(s, StartChecking(1), Read(1, Ticket(1, 1)), Read(1, Ticket(1, 2)), FinishChecking(1));
    Looks(s, Next(Next(Next(s, StartChecking(1)), Read(1, Ticket(1, 1))), Read(1, Ticket(1, 2))));
  }

  function BothInside(): seq<Step> {
    [Open(1), Open(2)] + ChooseFirst(1) + ChooseFirst(2) + [Rename(2)] + Overtake() + [FinishChecking(2)] + Check()
  }

  lemma RunOfParts(s: System, p: seq<Step>, q: seq<Step>, r: seq<Step>, t: seq<Step>, u: seq<Step>, v: seq<Step>,
                   w: seq<Step>)
    ensures Run(s, p + q + r + t + u + v + w) == Run(Run(Run(Run(Run(Run(Run(s, p), q), r), t), u), v), w)
  {
    RunAppend(s, p, q);
    RunAppend(s, p + q, r);
    RunAppend(s, p + q + r, t);
    RunAppend(s, p + q + r + t, u);
    RunAppend(s, p + q + r + t + u, v);
    RunAppend(s, p + q + r + t + u + v, w);
  }

  lemma RunOf1(s: System, a: Step)
    ensures Run(s, [a]) == Next(s, a)
  {
    assert [a][1..] == [];
    assert Run(Next(s, a), []) == Next(s, a);
  }

  lemma BothChoose(s: System)
    requires s == System({}, map[], {})
    ensures var c := Run(Run(Run(s, [Open(1), Open(2)]), ChooseFirst(1)), ChooseFirst(2));
      c.names == {Pending(1), Pending(2)} && ModeOf(c, 1) == Chosen(1) && ModeOf(c, 2) == Chosen(1)
  {
    RunOf2(s, Open(1), Open(2));
    var a := Run(s, [Open(1), Open(2)]);
    assert a.names == {Pending(1), Pending(2)};
    ChoosesFirst(a, 1);
    ChoosesFirst(Run(a, ChooseFirst(1)), 2);
  }

  lemma BothEnter(c: System)
    requires c.names == {Pending(1), Pending(2)} && ModeOf(c, 1) == Chosen(1) && ModeOf(c, 2) == Chosen(1)
    ensures var end := Run(Run(Run(Run(c, [Rename(2)]), Overtake()), [FinishChecking(2)]), Check());
      ModeOf(end, 1).Inside? && ModeOf(end, 2).Inside?
  {
    RunOf1(c, Rename(2));
    var d := Run(c, [Rename(2)]);
    assert d.names == {Pending(1), Ticket(1, 2)};
    Overtakes(d);
    var e := Run(d, Overtake());
    RunOf1(e, FinishChecking(2));
    Checks(Run(e, [FinishChecking(2)]));
  }

  /** As written, with a listing followed by separate looks, two users can be inside together. */
  lemma SplitScanLetsTwoIn()
    ensures exists s, steps :: Initial(s) && ModeOf(Run(s, steps), 1).Inside? && ModeOf(Run(s, steps), 2).Inside?
  {
    var s := System({}, map[], {});
    BothChoose(s);
    BothEnter(Run(Run(Run(s, [Open(1), Open(2)]), ChooseFirst(1)), ChooseFirst(2)));
    RunOfParts(s, [Open(1), Open(2)], ChooseFirst(1), ChooseFirst(2), [Rename(2)], Overtake(), [FinishChecking(2)],
               Check());
    StartsInitial(s, BothInside());
  }

  lemma StartsInitial(s: System, steps: seq<Step>)
    requires s == System({}, map[], {})
    requires ModeOf(Run(s, steps), 1).Inside? && ModeOf(Run(s, steps), 2).Inside?
    ensures exists s, steps :: Initial(s) && ModeOf(Run(s, steps), 1).Inside? && ModeOf(Run(s, steps), 2).Inside?
  {
  }

  // ----- ticket names -----

  function Pow10(w: nat): (r: nat)
    ensures r > 0
  {
    if w == 0 then 1 else 10 * Pow10(w - 1)
  }

  /** The decimal digits of n, zero padded to width w. */
  function Digits(n: nat, w: nat): (r: seq<nat>)
    ensures |r| == w
  {
    if w == 0 then [] else Digits(n / 10, w - 1) + [n % 10]
  }

  function Value(digits: seq<nat>): nat {
    if digits == [] then 0 else 10 * Value(digits[..|digits| - 1]) + digits[|digits| - 1]
  }

  /** Code-unit order of strings, as the default sort compares them. */
  predicate StringLess(a: seq<nat>, b: seq<nat>) {
    if a == [] then b != []
    else if b == [] then false
    else a[0] < b[0] || (a[0] == b[0] && StringLess(a[1..], b[1..]))
  }

  const TICKET_WIDTH: nat := 16

  /** The file name of a ticket: sixteen digits, then the token. */
  function TicketName(number: nat, token: seq<nat>): seq<nat> {
    Digits(number, TICKET_WIDTH) + token
  }

  lemma {:induction false} DigitsRoundTrip(n: nat, w: nat)
    requires n < Pow10(w)
    ensures Value(Digits(n, w)) == n
    ensures forall k :: 0 <= k < w ==> Digits(n, w)[k] < 10
  {
    if w > 0 {
      DigitsRoundTrip(n / 10, w - 1);
      assert Digits(n, w)[..w - 1] == Digits(n / 10, w - 1);
    }
  }

  lemma {:induction false} PaddedOrder(n: nat, m: nat, w: nat, x: seq<nat>, y: seq<nat>)
    requires n < Pow10(w) && m < Pow10(w)
    ensures StringLess(Digits(n, w) + x, Digits(m, w) + y) <==> (n < m || (n == m && StringLess(x, y)))
    decreases w
  {
    if w == 0 {
      assert Digits(n, w) + x == x && Digits(m, w) + y == y;
    } else {
      var x', y' := [n % 10] + x, [m % 10] + y;
      PaddedOrder(n / 10, m / 10, w - 1, x', y');
      assert Digits(n, w) + x == Digits(n / 10, w - 1) + x';
      assert Digits(m, w) + y == Digits(m / 10, w - 1) + y';
      assert x'[1..] == x && y'[1..] == y;
    }
  }

  /** Sorting the names sorts the tickets by number and then token, and a recognised name carries its
      number back. */
  lemma NamesSortAsTickets(n: nat, m: nat, x: seq<nat>, y: seq<nat>)
    requires Recognised(n) && Recognised(m)
    ensures StringLess(TicketName(n, x), TicketName(m, y)) <==> (n < m || (n == m && StringLess(x, y)))
    ensures Value(TicketName(n, x)[..TICKET_WIDTH]) == n
  {
    SixteenDigits();
    PaddedOrder(n, m, TICKET_WIDTH, x, y);
    DigitsRoundTrip(n, TICKET_WIDTH);
    assert TicketName(n, x)[..TICKET_WIDTH] == Digits(n, TICKET_WIDTH);
  }

  lemma SixteenDigits()
    ensures MAX_SAFE_INTEGER < Pow10(TICKET_WIDTH)
  {
    assert Pow10(4) == 10000;
    assert Pow10(8) == 100000000;
    assert Pow10(12) == 1000000000000;
    assert Pow10(16) == 10000000000000000;
  }

  // ----- the two decisions, as the code computes them -----

  predicate NotAfter(a: Name, b: Name) {
    a.Ticket? && b.Ticket? && (a == b || Before(a.number, a.token, b.number, b.token))
  }

  function Listed(names: seq<Name>): set<Name> {
    set name | name in names
  }

  /** The highest recognised sequence among the listed names, plus one. */
  method ChooseNumber(names: seq<Name>) returns (number: nat)
    ensures NextNumber(Listed(names), number)
  {
    var highest: nat := 0;
    var k := 0;
    while k < |names|
      invariant 0 <= k <= |names| && Recognised(highest)
      invariant forall m: nat, q: nat :: Ticket(m, q) in names[..k] && Recognised(m) ==> m <= highest
      invariant highest > 0 ==> exists name :: name in names[..k] && name.Ticket? && name.number == highest
    {
      assert names[..k + 1] == names[..k] + [names[k]];
      if names[k].Ticket? && Recognised(names[k].number) && highest < names[k].number {
        highest := names[k].number;
      }
      k := k + 1;
    }
    assert names[..k] == names;
    number := highest + 1;
  }

  /** May the holder of the ticket go in, seeing these names? */
  method MayEnter(names: seq<Name>, number: nat, p: nat) returns (enter: bool)
    ensures enter <==> Clear(Listed(names), number, p)
  {
    ghost var seen := Listed(names);
    var first: Option<Name> := None;
    var k := 0;
    while k < |names|
      invariant 0 <= k <= |names|
      invariant forall j :: 0 <= j < k ==> names[j].Ticket? && Recognised(names[j].number)
      invariant first.None? <==> k == 0
      invariant first.Some? ==> first.value in names && first.value.Ticket?
      invariant forall j :: 0 <= j < k ==> NotAfter(first.value, names[j])
    {
      if !names[k].Ticket? || !Recognised(names[k].number) {
        assert names[k] in seen;
        return false;
      }
      if first.None? || Before(names[k].number, names[k].token, first.value.number, first.value.token) {
        first := Some(names[k]);
      }
      k := k + 1;
    }
    enter := first == Some(Ticket(number, p));
    if first.Some? { assert first.value in seen; }
  }
}
