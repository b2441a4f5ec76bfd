/**
 When the split scan lets a second user in (dev/sharedDeviceStoreAdapter.ts:632-761): while one user is
 inside, another one can still get in beside it exactly when its number is in front, or when the scan it
 is in the middle of has lost sight of the first one's ticket.
 */
module BackupOvertaking {
  import opened Prelude
  import opened BackupLock

  /** What lets q in beside p, which is inside with ticket n: a number in front of p's; a check that has not
      listed p's ticket and has seen nothing against q; or a choice that has not listed it and so far
      leads to a number in front of p's. */
  ghost predicate MayPass(n: nat, p: nat, q: nat, mode: Mode) {
    match mode
    case Choosing(unread, seen) => Ticket(n, p) !in unread && exists k: nat :: NextNumber(seen, k) && Before(k, q, n, p)
    case Chosen(m) => Before(m, q, n, p)
    case Waiting(m) => Before(m, q, n, p)
    case Checking(m, unread, seen) =>
      Before(m, q, n, p) || (Ticket(n, p) !in unread && Clear(seen + {Ticket(m, q)}, m, q))
    case Inside(_) => true
    case _ => false
  }

  /** Some run from here brings both inside together. */
  ghost predicate CanMeet(s: System, p: nat, q: nat) {
    exists steps :: ModeOf(Run(s, steps), p).Inside? && ModeOf(Run(s, steps), q).Inside?
  }

  // ----- the highest number seen -----

  function Numbers(seen: set<Name>): set<nat> {
    set name | name in seen && name.Ticket? && Recognised(name.number) :: name.number
  }

  lemma {:induction false} Highest(numbers: set<nat>) returns (highest: nat)
    ensures forall m :: m in numbers ==> m <= highest
    ensures highest == 0 || highest in numbers
    decreases |numbers|
  {
    if numbers == {} {
      highest := 0;
    } else {
      var m :| m in numbers;
      var rest := Highest(numbers - {m});
      highest := Max(m, rest);
      forall k | k in numbers ensures k <= highest { assert k == m || k in numbers - {m}; }
    }
  }

  /** Every scan leads to a number. */
  lemma NumberExists(seen: set<Name>) returns (number: nat)
    ensures NextNumber(seen, number)
  {
    var highest := Highest(Numbers(seen));
    number := highest + 1;
    forall m: nat, q: nat | Ticket(m, q) in seen && Recognised(m) ensures m < number {
      assert m in Numbers(seen);
    }
    if highest > 0 {
      var name :| name in seen && name.Ticket? && Recognised(name.number) && name.number == highest;
    }
  }

  /** Seeing more does not lower the number. */
  lemma NumberGrows(seen: set<Name>, more: set<Name>, k: nat, m: nat)
    requires seen <= more && NextNumber(seen, k) && NextNumber(more, m)
    ensures k <= m
  {
    if k > 1 {
      var name :| name in seen && name.Ticket? && name.number == k - 1;
      assert Ticket(k - 1, name.token) in more;
    }
  }

  // ----- who may not pass never passes -----

  lemma ClearShrinks(seen: set<Name>, more: set<Name>, m: nat, q: nat)
    requires seen <= more && Ticket(m, q) in seen && Clear(more, m, q)
    ensures Clear(seen, m, q)
  {
  }

  lemma NotInFront(seen: set<Name>, m: nat, q: nat, n: nat, p: nat)
    requires p != q && !Before(m, q, n, p) && Ticket(n, p) in seen
    ensures !Clear(seen, m, q)
  {
  }

  lemma ReadKeepsBarred(s: System, p: nat, q: nat, n: nat, name: Name)
    requires NamesInv(s) && p != q && ModeOf(s, p) == Inside(n) && Recognised(n)
    requires !MayPass(n, p, q, ModeOf(s, q))
    ensures !MayPass(n, p, q, ModeOf(Next(s, Read(q, name)), q))
  {
    assert Present(s, p);
    var mode, after := ModeOf(s, q), ModeOf(Next(s, Read(q, name)), q);
    if mode.Choosing? && name in mode.unread {
      if Ticket(n, p) !in after.unread && Ticket(n, p) !in after.seen {
        forall k: nat | NextNumber(after.seen, k) ensures !Before(k, q, n, p) {
          var before := NumberExists(mode.seen);
          NumberGrows(mode.seen, after.seen, before, k);
        }
      }
    } else if mode.Checking? && name in mode.unread {
      if Ticket(n, p) in after.seen {
        NotInFront(after.seen + {Ticket(mode.number, q)}, mode.number, q, n, p);
      } else if Ticket(n, p) !in after.unread && Clear(after.seen + {Ticket(mode.number, q)}, mode.number, q) {
        ClearShrinks(mode.seen + {Ticket(mode.number, q)}, after.seen + {Ticket(mode.number, q)}, mode.number, q);
      }
    }
  }

  lemma OwnStepKeepsBarred(s: System, p: nat, q: nat, n: nat, step: Step)
    requires NamesInv(s) && p != q && ModeOf(s, p) == Inside(n) && Recognised(n)
    requires !MayPass(n, p, q, ModeOf(s, q))
    requires !step.Read?
    ensures !MayPass(n, p, q, ModeOf(Next(s, step), q))
  {
    assert Present(s, p);
    var mode := ModeOf(s, q);
    if mode.Checking? && Clear(mode.seen, mode.number, q) {
      assert mode.seen + {Ticket(mode.number, q)} == mode.seen;
    }
  }

  /** As long as p stays inside, a user that may not pass remains so. */
  lemma NextKeepsBarred(s: System, p: nat, q: nat, n: nat, step: Step)
    requires NamesInv(s) && p != q && ModeOf(s, p) == Inside(n) && Recognised(n)
    requires !MayPass(n, p, q, ModeOf(s, q))
    ensures !MayPass(n, p, q, ModeOf(Next(s, step), q))
    ensures ModeOf(Next(s, step), p) == Inside(n) || ModeOf(Next(s, step), p).Gone?
  {
    if step.Read? && step.p == q {
      ReadKeepsBarred(s, p, q, n, step.name);
    } else if !step.Read? {
      OwnStepKeepsBarred(s, p, q, n, step);
    }
  }

  lemma {:induction false} GoneStays(s: System, steps: seq<Step>, p: nat)
    requires ModeOf(s, p).Gone?
    ensures ModeOf(Run(s, steps), p).Gone?
    decreases |steps|
  {
    if steps != [] { GoneStays(Next(s, steps[0]), steps[1..], p); }
  }

  lemma {:induction false} BarredNeverMeets(s: System, steps: seq<Step>, p: nat, q: nat, n: nat)
    requires NamesInv(s) && p != q && ModeOf(s, p) == Inside(n) && Recognised(n)
    requires !MayPass(n, p, q, ModeOf(s, q))
    ensures !(ModeOf(Run(s, steps), p).Inside? && ModeOf(Run(s, steps), q).Inside?)
    decreases |steps|
  {
    if steps != [] {
      var next := Next(s, steps[0]);
      NextKeepsNames(s, steps[0]);
      NextKeepsBarred(s, p, q, n, steps[0]);
      if ModeOf(next, p).Gone? {
        GoneStays(next, steps[1..], p);
      } else {
        BarredNeverMeets(next, steps[1..], p, q, n);
      }
    }
  }

  // ----- who may pass can get in -----

  /** Everybody but p and q is out of the way. */
  ghost predicate Alone(s: System, p: nat, q: nat) {
    && (forall r: nat :: r != p && r != q ==> ModeOf(s, r).Outside? || ModeOf(s, r).Gone?)
    && forall id: nat :: Foreign(id) !in s.names
  }

  /** Neither p nor q has moved. */
  ghost predicate Undisturbed(s: System, t: System, p: nat, q: nat) {
    && ModeOf(t, p) == ModeOf(s, p) && ModeOf(t, q) == ModeOf(s, q)
  }

  /** A scan of a waiting user lists its own ticket, which stays. */
  predicate OwnListed(s: System, q: nat) {
    var mode := ModeOf(s, q);
    mode.Checking? ==> Ticket(mode.number, q) in mode.unread || Ticket(mode.number, q) in mode.seen
  }

  lemma NextKeepsOwnListed(s: System, step: Step, q: nat)
    requires NamesInv(s) && OwnListed(s, q)
    ensures OwnListed(Next(s, step), q)
  {
    assert Present(s, q);
  }

  lemma {:induction false} RunKeepsOwnListed(s: System, steps: seq<Step>, q: nat)
    requires NamesInv(s) && OwnListed(s, q)
    ensures NamesInv(Run(s, steps)) && OwnListed(Run(s, steps), q)
    decreases |steps|
  {
    if steps != [] {
      NextKeepsNames(s, steps[0]);
      NextKeepsOwnListed(s, steps[0], q);
      RunKeepsOwnListed(Next(s, steps[0]), steps[1..], q);
    }
  }

  lemma RunCons(s: System, step: Step, rest: seq<Step>)
    ensures Run(s, [step] + rest) == Run(Next(s, step), rest)
  {
    assert ([step] + rest)[0] == step && ([step] + rest)[1..] == rest;
  }

  /** The others, and the files that are nobody's, leave one by one. */
  lemma {:induction false} OthersLeave(s: System, p: nat, q: nat, others: set<nat>) returns (steps: seq<Step>)
    requires p !in others && q !in others
    ensures var t := Run(s, steps);
      && Undisturbed(s, t, p, q)
      && (forall r: nat :: r in others ==> ModeOf(t, r).Outside? || ModeOf(t, r).Gone?)
      && (forall r: nat :: ModeOf(s, r).Outside? || ModeOf(s, r).Gone? ==> ModeOf(t, r) == ModeOf(s, r))
    decreases |others|
  {
    if others == {} {
      steps := [];
    } else {
      var r :| r in others;
      var rest := OthersLeave(Next(s, Leave(r)), p, q, others - {r});
      RunCons(s, Leave(r), rest);
      steps := [Leave(r)] + rest;
      forall x: nat | x in others
        ensures ModeOf(Run(s, steps), x).Outside? || ModeOf(Run(s, steps), x).Gone?
      {
        assert x == r || x in others - {r};
      }
    }
  }

  lemma {:induction false} FilesLeave(s: System, ids: set<nat>) returns (steps: seq<Step>)
    ensures var t := Run(s, steps);
      t.modes == s.modes && t.names == set name | name in s.names && !(name.Foreign? && name.id in ids)
    decreases |ids|
  {
    if ids == {} {
      steps := [];
      assert s.names == set name | name in s.names && !(name.Foreign? && name.id in ids);
    } else {
      var id :| id in ids;
      var rest := FilesLeave(Next(s, ForeignLeaves(id)), ids - {id});
      RunCons(s, ForeignLeaves(id), rest);
      steps := [ForeignLeaves(id)] + rest;
      var t := Run(s, steps);
      assert t.names == set name | name in s.names && !(name.Foreign? && name.id in ids);
    }
  }

  lemma EverybodyLeaves(s: System, p: nat, q: nat) returns (steps: seq<Step>)
    ensures Alone(Run(s, steps), p, q) && Undisturbed(s, Run(s, steps), p, q)
  {
    var leaving := OthersLeave(s, p, q, s.modes.Keys - {p, q});
    var t := Run(s, leaving);
    forall r: nat | r != p && r != q ensures ModeOf(t, r).Outside? || ModeOf(t, r).Gone? {
      assert r in s.modes.Keys - {p, q} || ModeOf(s, r).Outside?;
    }
    var ids := set name | name in t.names && name.Foreign? :: name.id;
    var files := FilesLeave(t, ids);
    RunAppend(s, leaving, files);
    steps := leaving + files;
    var u := Run(t, files);
    forall id: nat ensures Foreign(id) !in u.names {
      if Foreign(id) in t.names { assert Foreign(id).id in ids; }
    }
    forall r: nat ensures ModeOf(u, r) == ModeOf(t, r) {}
  }

  // ----- finishing a scan -----

  function UnreadOf(mode: Mode): set<Name> {
    if mode.Choosing? || mode.Checking? then mode.unread else {}
  }

  /** What is still there of some names, with a living owner. */
  function Live(s: System, names: set<Name>): set<Name> {
    set name | name in names && name in s.names && !OwnerGone(s, name)
  }

  function Finished(mode: Mode, live: set<Name>): Mode {
    match mode
    case Choosing(unread, seen) => Choosing({}, seen + live)
    case Checking(number, unread, seen) => Checking(number, {}, seen + live)
    case _ => mode
  }

  lemma ReadOne(s: System, q: nat, name: Name)
    requires name in UnreadOf(ModeOf(s, q))
    ensures var t := Next(s, Read(q, name));
      && (forall r: nat :: r != q ==> ModeOf(t, r) == ModeOf(s, r))
      && UnreadOf(ModeOf(t, q)) == UnreadOf(ModeOf(s, q)) - {name}
      && (forall names :: Live(t, names) == Live(s, names))
      && Finished(ModeOf(t, q), Live(t, UnreadOf(ModeOf(t, q))))
         == Finished(ModeOf(s, q), Live(s, UnreadOf(ModeOf(s, q))))
      && (t.names <= s.names)
  {
  }

  /** A scan can be finished with nobody else moving: it then has seen what is still there. */
  lemma {:induction false} FinishReading(s: System, p: nat, q: nat) returns (steps: seq<Step>)
    requires p != q && Alone(s, p, q) && NamesInv(s)
    ensures var t := Run(s, steps);
      && ModeOf(t, p) == ModeOf(s, p) && Alone(t, p, q) && NamesInv(t)
      && ModeOf(t, q) == Finished(ModeOf(s, q), Live(s, UnreadOf(ModeOf(s, q))))
    decreases |UnreadOf(ModeOf(s, q))|
  {
    var unread := UnreadOf(ModeOf(s, q));
    if unread == {} {
      steps := [];
      FinishedAlready(ModeOf(s, q), Live(s, unread));
    } else {
      var name :| name in unread;
      var next := Next(s, Read(q, name));
      ReadOne(s, q, name);
      NextKeepsNames(s, Read(q, name));
      var rest := FinishReading(next, p, q);
      RunCons(s, Read(q, name), rest);
      steps := [Read(q, name)] + rest;
    }
  }

  lemma FinishedAlready(mode: Mode, live: set<Name>)
    requires UnreadOf(mode) == {} && live == {}
    ensures Finished(mode, live) == mode
  {
    if mode.Choosing? || mode.Checking? { assert mode.seen + live == mode.seen; }
  }

  /** With the others gone, what is left is p's ticket and q's own entry. */
  lemma OnlyTwoLeft(s: System, p: nat, q: nat, n: nat, names: set<Name>)
    requires Alone(s, p, q) && NamesInv(s) && ModeOf(s, p) == Inside(n)
    ensures Live(s, names) <= {Ticket(n, p)} + OwnNames(q, ModeOf(s, q))
  {
    forall name | name in Live(s, names) ensures name in {Ticket(n, p)} + OwnNames(q, ModeOf(s, q)) {
      assert Fits(s, name);
    }
  }

  // ----- getting in -----

  /** q can get in beside p, which stays as it is. */
  ghost predicate GetsIn(s: System, p: nat, q: nat) {
    exists steps :: ModeOf(Run(s, steps), p) == ModeOf(s, p) && ModeOf(Run(s, steps), q).Inside?
  }

  lemma GetsInAfter(s: System, first: seq<Step>, p: nat, q: nat)
    requires ModeOf(Run(s, first), p) == ModeOf(s, p) && GetsIn(Run(s, first), p, q)
    ensures GetsIn(s, p, q)
  {
    var t := Run(s, first);
    var steps :| ModeOf(Run(t, steps), p) == ModeOf(t, p) && ModeOf(Run(t, steps), q).Inside?;
    RunAppend(s, first, steps);
    assert ModeOf(Run(s, first + steps), q).Inside?;
  }

  lemma GetsInNext(s: System, step: Step, p: nat, q: nat)
    requires ModeOf(Next(s, step), p) == ModeOf(s, p) && GetsIn(Next(s, step), p, q)
    ensures GetsIn(s, p, q)
  {
    RunCons(s, step, []);
    GetsInAfter(s, [step] + [], p, q);
  }

  lemma InsideIsIn(s: System, p: nat, q: nat)
    requires ModeOf(s, q).Inside?
    ensures GetsIn(s, p, q)
  {
    assert Run(s, []) == s;
  }

  /** q's own moves between its scans leave the others where they are. */
  lemma MovesAlone(s: System, p: nat, q: nat, step: Step)
    requires p != q && Alone(s, p, q) && NamesInv(s) && !step.ForeignAppears? && !step.ForeignLeaves? && step.p == q
    requires step.FinishChoosing? || step.Rename? || step.StartChecking? || step.FinishChecking?
    ensures Alone(Next(s, step), p, q) && NamesInv(Next(s, step)) && ModeOf(Next(s, step), p) == ModeOf(s, p)
  {
    NextKeepsNames(s, step);
    var t := Next(s, step);
    forall r: nat | r != p && r != q ensures ModeOf(t, r).Outside? || ModeOf(t, r).Gone? {
      assert ModeOf(t, r) == ModeOf(s, r);
    }
  }

  /** A finished check that is clear lets q in. */
  lemma ClearGetsIn(s: System, p: nat, q: nat)
    requires p != q && ModeOf(s, q).Checking? && ModeOf(s, q).unread == {}
    requires Clear(ModeOf(s, q).seen, ModeOf(s, q).number, q)
    ensures GetsIn(s, p, q)
  {
    InsideIsIn(Next(s, FinishChecking(q)), p, q);
    GetsInNext(s, FinishChecking(q), p, q);
  }

  /** Having seen no more than the two tickets, of which q's is in front, q is clear. */
  lemma InFrontIsClear(seen: set<Name>, m: nat, q: nat, n: nat, p: nat)
    requires Before(m, q, n, p) && Recognised(n)
    requires Ticket(m, q) in seen && seen <= {Ticket(n, p), Ticket(m, q)}
    ensures Clear(seen, m, q)
  {
  }

  lemma WaitingGetsIn(s: System, p: nat, q: nat, n: nat, m: nat)
    requires p != q && Alone(s, p, q) && NamesInv(s) && ModeOf(s, p) == Inside(n) && Recognised(n)
    requires ModeOf(s, q) == Waiting(m) && Before(m, q, n, p)
    ensures GetsIn(s, p, q)
  {
    assert Present(s, q);
    var t := Next(s, StartChecking(q));
    MovesAlone(s, p, q, StartChecking(q));
    var reading := FinishReading(t, p, q);
    OnlyTwoLeft(t, p, q, n, t.names);
    assert Ticket(m, q) in Live(t, t.names);
    var u := Run(t, reading);
    assert ModeOf(u, q).seen == Live(t, t.names);
    InFrontIsClear(ModeOf(u, q).seen, m, q, n, p);
    ClearGetsIn(u, p, q);
    GetsInAfter(t, reading, p, q);
    GetsInNext(s, StartChecking(q), p, q);
  }

  lemma ChosenGetsIn(s: System, p: nat, q: nat, n: nat, m: nat)
    requires p != q && Alone(s, p, q) && NamesInv(s) && ModeOf(s, p) == Inside(n) && Recognised(n)
    requires ModeOf(s, q) == Chosen(m) && Before(m, q, n, p)
    ensures GetsIn(s, p, q)
  {
    MovesAlone(s, p, q, Rename(q));
    WaitingGetsIn(Next(s, Rename(q)), p, q, n, m);
    GetsInNext(s, Rename(q), p, q);
  }

  /** A pending entry of one's own makes no difference to the number. */
  lemma SameNumber(seen: set<Name>, more: set<Name>, q: nat, k: nat)
    requires seen <= more && more <= seen + {Pending(q)} && NextNumber(seen, k)
    ensures NextNumber(more, k)
  {
    if k > 1 {
      var name :| name in seen && name.Ticket? && name.number == k - 1;
      assert name in more;
    }
  }

  lemma ChoosingGetsIn(s: System, p: nat, q: nat, n: nat)
    requires p != q && Alone(s, p, q) && NamesInv(s) && ModeOf(s, p) == Inside(n) && Recognised(n)
    requires ModeOf(s, q).Choosing? && MayPass(n, p, q, ModeOf(s, q))
    ensures GetsIn(s, p, q)
  {
    var mode := ModeOf(s, q);
    var k: nat :| NextNumber(mode.seen, k) && Before(k, q, n, p);
    OnlyTwoLeft(s, p, q, n, mode.unread);
    var reading := FinishReading(s, p, q);
    var t := Run(s, reading);
    SameNumber(mode.seen, ModeOf(t, q).seen, q, k);
    MovesAlone(t, p, q, FinishChoosing(q, k));
    ChosenGetsIn(Next(t, FinishChoosing(q, k)), p, q, n, k);
    GetsInNext(t, FinishChoosing(q, k), p, q);
    GetsInAfter(s, reading, p, q);
  }

  lemma CheckingGetsIn(s: System, p: nat, q: nat, n: nat)
    requires p != q && Alone(s, p, q) && NamesInv(s) && ModeOf(s, p) == Inside(n) && Recognised(n)
    requires ModeOf(s, q).Checking? && OwnListed(s, q) && MayPass(n, p, q, ModeOf(s, q))
    ensures GetsIn(s, p, q)
  {
    var mode := ModeOf(s, q);
    assert Present(s, q);
    OnlyTwoLeft(s, p, q, n, mode.unread);
    var reading := FinishReading(s, p, q);
    var t := Run(s, reading);
    if Before(mode.number, q, n, p) && !Clear(ModeOf(t, q).seen, mode.number, q) {
      MovesAlone(t, p, q, FinishChecking(q));
      WaitingGetsIn(Next(t, FinishChecking(q)), p, q, n, mode.number);
      GetsInNext(t, FinishChecking(q), p, q);
    } else {
      assert Before(mode.number, q, n, p) || ModeOf(t, q).seen == mode.seen + {Ticket(mode.number, q)};
      ClearGetsIn(t, p, q);
    }
    GetsInAfter(s, reading, p, q);
  }

  lemma MayPassGetsIn(s: System, p: nat, q: nat, n: nat)
    requires p != q && NamesInv(s) && ModeOf(s, p) == Inside(n) && Recognised(n)
    requires OwnListed(s, q) && MayPass(n, p, q, ModeOf(s, q))
    ensures GetsIn(s, p, q)
  {
    var leaving := EverybodyLeaves(s, p, q);
    RunKeepsOwnListed(s, leaving, q);
    var t := Run(s, leaving);
    match ModeOf(t, q) {
      case Choosing(_, _) => ChoosingGetsIn(t, p, q, n);
      case Chosen(m) => ChosenGetsIn(t, p, q, n, m);
      case Waiting(m) => WaitingGetsIn(t, p, q, n, m);
      case Checking(_, _, _) => CheckingGetsIn(t, p, q, n);
      case Inside(_) => InsideIsIn(t, p, q);
    }
    GetsInAfter(s, leaving, p, q);
  }

  // ----- the exact condition -----

  lemma InitialOwnListed(s: System, q: nat)
    requires Initial(s)
    ensures NamesInv(s) && OwnListed(s, q)
  {
    InitialInv(s);
  }

  /** In every reachable state with p inside: some run from here has q inside together with p exactly when
      q may pass. */
  lemma MeetExactly(s: System, steps: seq<Step>, p: nat, q: nat)
    requires Initial(s) && p != q && ModeOf(Run(s, steps), p).Inside?
    ensures var now := Run(s, steps);
      CanMeet(now, p, q) <==> MayPass(ModeOf(now, p).number, p, q, ModeOf(now, q))
  {
    var now := Run(s, steps);
    InitialInv(s);
    RunKeepsInv(s, steps);
    InitialOwnListed(s, q);
    RunKeepsOwnListed(s, steps, q);
    assert PairInv(now, p, q);
    var n := ModeOf(now, p).number;
    if MayPass(n, p, q, ModeOf(now, q)) {
      MayPassGetsIn(now, p, q, n);
    } else {
      forall more ensures !(ModeOf(Run(now, more), p).Inside? && ModeOf(Run(now, more), q).Inside?) {
        BarredNeverMeets(now, more, p, q, n);
      }
    }
  }
}
