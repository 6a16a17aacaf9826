/** Reserving a list of buffers with back-off. The list is reordered and split
    while it is walked, and reservations are taken and dropped on the way. */
module Execbuf {
  import opened Wrappers
  import Seqs

  datatype Entry = Entry(id: nat, bo: nat, shared: bool)

  datatype Answer = Granted | Deadlock | Interrupted | Busy

  /** What the outside decides during one pass of the loop: the lock's answer, CPU
      writers on the buffer, whether the slow lock is interrupted, and whether
      each reserve_shared finds room. */
  datatype Luck = Luck(lock: Answer, cpuWriters: bool, room: bool, slowInterrupted: bool, slowRoom: bool)

  const Lucky: Luck := Luck(Granted, false, true, false, true)

  datatype Outcome = Ok | Ebusy | Erestartsys | Ealready | Enomem

  /** ww_mutex answers, by ticket; the outside has no say when we hold it already. */
  datatype LockResult = Taken | LDeadlock | LInterrupted | LBusy | LAlready

  function LockAnswer(ticket: bool, intr: bool, mine: bool, l: Luck): LockResult {
    if !ticket then (if mine || !l.lock.Granted? then LBusy else Taken)
    else if mine then LAlready
    else if l.lock.Deadlock? then LDeadlock
    else if l.lock.Interrupted? && intr then LInterrupted
    else Taken
  }

  // ---- Lists and their reservations ----

  function Resvs(resvOf: nat -> nat, es: seq<Entry>): set<nat> {
    set e | e in es :: resvOf(e.bo)
  }

  function Bos(es: seq<Entry>): set<nat> {
    set e | e in es :: e.bo
  }

  /** No two entries share a reservation. */
  ghost predicate Distinct(resvOf: nat -> nat, es: seq<Entry>) {
    forall i, j :: 0 <= i < j < |es| ==> resvOf(es[i].bo) != resvOf(es[j].bo)
  }

  function Without(es: seq<Entry>, i: nat): seq<Entry>
    requires i < |es|
  {
    es[..i] + es[i + 1..]
  }

  function ToFront(es: seq<Entry>, i: nat): seq<Entry>
    requires i < |es|
  {
    [es[i]] + Without(es, i)
  }

  lemma FrontMultiset(es: seq<Entry>, i: nat)
    requires i < |es|
    ensures multiset(ToFront(es, i)) == multiset(es)
  {
    assert es == es[..i] + [es[i]] + es[i + 1..];
  }

  lemma DupMultiset(es: seq<Entry>, i: nat, more: seq<Entry>)
    requires i < |es|
    ensures multiset(Without(es, i)) + multiset([es[i]] + more) == multiset(es) + multiset(more)
  {
    assert es == es[..i] + [es[i]] + es[i + 1..];
  }

  lemma SameEntries(resvOf: nat -> nat, es: seq<Entry>, fs: seq<Entry>)
    requires multiset(es) == multiset(fs)
    ensures Resvs(resvOf, es) == Resvs(resvOf, fs)
  {
    assert forall e :: e in es <==> e in multiset(es);
    assert forall e :: e in fs <==> e in multiset(fs);
  }

  lemma ResvsPrefix(resvOf: nat -> nat, es: seq<Entry>, i: nat)
    requires i < |es|
    ensures es[..i + 1] == es[..i] + [es[i]]
    ensures Resvs(resvOf, es[..i + 1]) == Resvs(resvOf, es[..i]) + {resvOf(es[i].bo)}
    ensures Distinct(resvOf, es[..i]) && resvOf(es[i].bo) !in Resvs(resvOf, es[..i]) ==> Distinct(resvOf, es[..i + 1])
    ensures Distinct(resvOf, es[..i + 1]) ==> Distinct(resvOf, es[..i]) && resvOf(es[i].bo) !in Resvs(resvOf, es[..i])
  {
    var p, q := es[..i], es[..i + 1];
    assert q == p + [es[i]];
    assert forall e :: e in q <==> e in p || e == es[i];
    forall j | 0 <= j < i && Distinct(resvOf, q)
      ensures resvOf(p[j].bo) != resvOf(es[i].bo)
    {
      assert q[j] == p[j] && q[i] == es[i];
    }
    forall j | 0 <= j < i
      ensures resvOf(p[j].bo) in Resvs(resvOf, p)
    {
      assert p[j] in p;
    }
  }

  /** Dropping an entry whose reservation an earlier entry holds loses no reservation. */
  lemma WithoutKeepsResvs(resvOf: nat -> nat, es: seq<Entry>, i: nat)
    requires i < |es| && resvOf(es[i].bo) in Resvs(resvOf, es[..i])
    ensures Resvs(resvOf, Without(es, i)) == Resvs(resvOf, es)
    ensures Without(es, i)[..i] == es[..i]
  {
    var ws := Without(es, i);
    assert es == es[..i] + [es[i]] + es[i + 1..];
    assert forall e :: e in es <==> e in ws || e == es[i];
    var w :| w in es[..i] && resvOf(w.bo) == resvOf(es[i].bo);
    assert w in ws;
  }

  /** Distinct reservations mean distinct buffers. */
  lemma DistinctBos(resvOf: nat -> nat, es: seq<Entry>, i: nat)
    requires i < |es| && Distinct(resvOf, es)
    ensures es[i].bo !in Bos(es[..i]) && es[i].bo !in Bos(es[i + 1..])
  {
    assert forall e :: e in es[..i] ==> e.bo != es[i].bo;
    assert forall e :: e in es[i + 1..] ==> e.bo != es[i].bo;
  }

  /** One fence of the submission added to a reservation. */
  datatype Fenced = Fenced(resv: nat, shared: bool)

  /** One fence an entry, in list order. */
  function Fences(resvOf: nat -> nat, es: seq<Entry>): (r: seq<Fenced>)
    ensures |r| == |es| && forall i :: 0 <= i < |es| ==> r[i] == Fenced(resvOf(es[i].bo), es[i].shared)
  {
    seq(|es|, i requires 0 <= i < |es| => Fenced(resvOf(es[i].bo), es[i].shared))
  }

  // ---- The walk, as a function of the outside's answers ----

  /** How the call was made: with an acquire ticket, interruptibly, with a list for duplicates. */
  datatype Mode = Mode(ticket: bool, intr: bool, hasDups: bool)

  /** How one turn of the loop ends: on to the next entry, the entry moved to the
      duplicates, the entry moved to the front after a back-off, or an error. */
  datatype Turn = Next | Dup | Front | Fail(ret: Outcome)

  function TurnOf(m: Mode, shared: bool, mine: bool, l: Luck): Turn {
    match LockAnswer(m.ticket, m.intr, mine, l)
    case LAlready => if m.hasDups then Dup else Fail(Ealready)
    case LInterrupted => Fail(Erestartsys)
    case LBusy => Fail(Ebusy)
    case Taken => if l.cpuWriters then Fail(Ebusy) else if shared && !l.room then Fail(Enomem) else Next
    case LDeadlock =>
      if m.intr && l.slowInterrupted then Fail(Erestartsys) else if shared && !l.slowRoom then Fail(Enomem) else Front
  }

  /** The end of a walk: its result, the list and the new duplicates, and where it stood. */
  datatype End = End(ret: Outcome, list: seq<Entry>, more: seq<Entry>, at: nat)

  function First(luck: seq<Luck>): Luck {
    if luck == [] then Lucky else luck[0]
  }

  function Rest(luck: seq<Luck>): seq<Luck> {
    if luck == [] then [] else luck[1..]
  }

  /** Entry i finds its reservation held through an earlier entry. */
  predicate Mine(resvOf: nat -> nat, es: seq<Entry>, i: nat)
    requires i < |es|
  {
    resvOf(es[i].bo) in Resvs(resvOf, es[..i])
  }

  function Walk(resvOf: nat -> nat, m: Mode, es: seq<Entry>, i: nat, more: seq<Entry>, luck: seq<Luck>): End
    requires i <= |es|
    decreases |luck|, |es| - i
  {
    if i == |es| then End(Ok, es, more, i)
    else match TurnOf(m, es[i].shared, Mine(resvOf, es, i), First(luck))
      case Next => Walk(resvOf, m, es, i + 1, more, Rest(luck))
      case Dup => Walk(resvOf, m, Without(es, i), i, [es[i]] + more, Rest(luck))
      case Front => Walk(resvOf, m, ToFront(es, i), 1, more, Rest(luck))
      case Fail(e) => End(e, es, more, i)
  }

  lemma WalkTurn(resvOf: nat -> nat, m: Mode, es: seq<Entry>, i: nat, more: seq<Entry>, luck: seq<Luck>)
    requires i < |es|
    ensures var w, t := Walk(resvOf, m, es, i, more, luck), TurnOf(m, es[i].shared, Mine(resvOf, es, i), First(luck));
            && (t.Next? ==> w == Walk(resvOf, m, es, i + 1, more, Rest(luck)))
            && (t.Dup? ==> w == Walk(resvOf, m, Without(es, i), i, [es[i]] + more, Rest(luck)))
            && (t.Front? ==> |Rest(luck)| < |luck| && w == Walk(resvOf, m, ToFront(es, i), 1, more, Rest(luck)))
            && (t.Fail? ==> w == End(t.ret, es, more, i))
  {
  }

  /** What is held when the walk has ended: everything on success, nothing on an error,
      except that a failing reserve_shared leaves its own entry locked. */
  function HeldAfter(resvOf: nat -> nat, w: End): set<nat> {
    match w.ret
    case Ok => Resvs(resvOf, w.list)
    case Enomem => if w.at < |w.list| then {resvOf(w.list[w.at].bo)} else {}
    case _ => {}
  }

  /** Every entry before i holds its own reservation, and every new duplicate is covered by the list. */
  ghost predicate Covered(resvOf: nat -> nat, es: seq<Entry>, i: nat, more: seq<Entry>) {
    i <= |es| && Distinct(resvOf, es[..i]) && Resvs(resvOf, more) <= Resvs(resvOf, es)
  }

  lemma NextCovered(resvOf: nat -> nat, es: seq<Entry>, i: nat, more: seq<Entry>)
    requires Covered(resvOf, es, i, more) && i < |es| && !Mine(resvOf, es, i)
    ensures Covered(resvOf, es, i + 1, more)
  {
    ResvsPrefix(resvOf, es, i);
  }

  lemma DupCovered(resvOf: nat -> nat, es: seq<Entry>, i: nat, more: seq<Entry>)
    requires Covered(resvOf, es, i, more) && i < |es| && Mine(resvOf, es, i)
    ensures Covered(resvOf, Without(es, i), i, [es[i]] + more)
  {
    WithoutKeepsResvs(resvOf, es, i);
    assert es[i] in es;
    assert forall d :: d in [es[i]] + more <==> d == es[i] || d in more;
  }

  lemma FrontCovered(resvOf: nat -> nat, es: seq<Entry>, i: nat, more: seq<Entry>)
    requires Covered(resvOf, es, i, more) && i < |es|
    ensures Covered(resvOf, ToFront(es, i), 1, more)
  {
    FrontMultiset(es, i);
    SameEntries(resvOf, es, ToFront(es, i));
    assert ToFront(es, i)[..1] == [es[i]];
  }

  /** For any luck: list and new duplicates are a permutation of the input. */
  lemma {:induction false} WalkPermutes(resvOf: nat -> nat, m: Mode, es: seq<Entry>, i: nat, more: seq<Entry>, luck: seq<Luck>)
    requires i <= |es|
    ensures var w := Walk(resvOf, m, es, i, more, luck);
            && multiset(w.list) + multiset(w.more) == multiset(es) + multiset(more)
            && (!w.ret.Ok? ==> w.at < |w.list|)
            && (!(m.ticket && m.hasDups) ==> w.more == more)
    decreases |luck|, |es| - i
  {
    if i < |es| {
      match TurnOf(m, es[i].shared, Mine(resvOf, es, i), First(luck))
      case Next => WalkPermutes(resvOf, m, es, i + 1, more, Rest(luck));
      case Dup =>
        DupMultiset(es, i, more);
        WalkPermutes(resvOf, m, Without(es, i), i, [es[i]] + more, Rest(luck));
      case Front =>
        FrontMultiset(es, i);
        WalkPermutes(resvOf, m, ToFront(es, i), 1, more, Rest(luck));
      case Fail(_) =>
    }
  }

  /** On success no two entries share a reservation and each duplicate's is held through an entry. */
  lemma {:induction false} WalkHolds(resvOf: nat -> nat, m: Mode, es: seq<Entry>, i: nat, more: seq<Entry>, luck: seq<Luck>)
    requires Covered(resvOf, es, i, more) && Walk(resvOf, m, es, i, more, luck).ret.Ok?
    ensures var w := Walk(resvOf, m, es, i, more, luck); Covered(resvOf, w.list, |w.list|, w.more)
    decreases |luck|, |es| - i
  {
    if i < |es| {
      match TurnOf(m, es[i].shared, Mine(resvOf, es, i), First(luck))
      case Next =>
        NextCovered(resvOf, es, i, more);
        WalkHolds(resvOf, m, es, i + 1, more, Rest(luck));
      case Dup =>
        DupCovered(resvOf, es, i, more);
        WalkHolds(resvOf, m, Without(es, i), i, [es[i]] + more, Rest(luck));
      case Front =>
        FrontCovered(resvOf, es, i, more);
        WalkHolds(resvOf, m, ToFront(es, i), 1, more, Rest(luck));
    }
  }

  /** What the walk over a whole list leaves, whatever the luck. */
  ghost predicate EndOk(resvOf: nat -> nat, m: Mode, es: seq<Entry>, w: End) {
    && multiset(w.list) + multiset(w.more) == multiset(es)
    && (!(m.ticket && m.hasDups) ==> w.more == [])
    && (w.ret.Ok? ==> Distinct(resvOf, w.list) && Resvs(resvOf, w.more) <= Resvs(resvOf, w.list))
    && (!w.ret.Ok? ==> w.at < |w.list|)
  }

  lemma WalkKeeps(resvOf: nat -> nat, m: Mode, es: seq<Entry>, luck: seq<Luck>)
    ensures EndOk(resvOf, m, es, Walk(resvOf, m, es, 0, [], luck))
  {
    WalkPermutes(resvOf, m, es, 0, [], luck);
    var w := Walk(resvOf, m, es, 0, [], luck);
    if w.ret.Ok? {
      assert Covered(resvOf, es, 0, []);
      WalkHolds(resvOf, m, es, 0, [], luck);
      assert w.list[..|w.list|] == w.list;
    }
  }

  // ---- When reserve_shared fails, and what that leaves locked ----

  /** Where the walk stands after k turns that went on, if it makes that many. */
  function Position(resvOf: nat -> nat, m: Mode, es: seq<Entry>, i: nat, luck: seq<Luck>, k: nat): Option<(seq<Entry>, nat)>
    requires i <= |es|
    decreases k
  {
    if k == 0 then Some((es, i))
    else if i == |es| then None
    else match TurnOf(m, es[i].shared, Mine(resvOf, es, i), First(luck))
      case Next => Position(resvOf, m, es, i + 1, Rest(luck), k - 1)
      case Dup => Position(resvOf, m, Without(es, i), i, Rest(luck), k - 1)
      case Front => Position(resvOf, m, ToFront(es, i), 1, Rest(luck), k - 1)
      case Fail(_) => None
  }

  function LuckAt(luck: seq<Luck>, k: nat): Luck {
    if k < |luck| then luck[k] else Lucky
  }

  /** reserve_shared finds no room in this turn: after the lock with no CPU writers about, or
      after the slow lock that followed a deadlock. */
  predicate NoRoom(m: Mode, shared: bool, mine: bool, l: Luck) {
    shared
    && ((LockAnswer(m.ticket, m.intr, mine, l).Taken? && !l.cpuWriters && !l.room)
        || (LockAnswer(m.ticket, m.intr, mine, l).LDeadlock? && !(m.intr && l.slowInterrupted) && !l.slowRoom))
  }

  lemma NoRoomIff(m: Mode, shared: bool, mine: bool, l: Luck)
    ensures TurnOf(m, shared, mine, l) == Fail(Enomem) <==> NoRoom(m, shared, mine, l)
  {
  }

  /** Turn k of the walk is reached, and in it reserve_shared finds no room. */
  ghost predicate NoRoomAt(resvOf: nat -> nat, m: Mode, es: seq<Entry>, i: nat, luck: seq<Luck>, k: nat)
    requires i <= |es|
  {
    var p := Position(resvOf, m, es, i, luck, k);
    p.Some? && p.value.1 < |p.value.0|
    && NoRoom(m, p.value.0[p.value.1].shared, Mine(resvOf, p.value.0, p.value.1), LuckAt(luck, k))
  }

  /** One turn that goes on shifts the turns by one. */
  lemma TurnShifts(resvOf: nat -> nat, m: Mode, es: seq<Entry>, i: nat, fs: seq<Entry>, j: nat, luck: seq<Luck>, k: nat)
    requires i < |es| && j <= |fs|
    requires match TurnOf(m, es[i].shared, Mine(resvOf, es, i), First(luck))
             case Next => fs == es && j == i + 1
             case Dup => fs == Without(es, i) && j == i
             case Front => fs == ToFront(es, i) && j == 1
             case Fail(_) => false
    ensures NoRoomAt(resvOf, m, es, i, luck, k + 1) <==> NoRoomAt(resvOf, m, fs, j, Rest(luck), k)
  {
    assert LuckAt(luck, k + 1) == LuckAt(Rest(luck), k);
    assert Position(resvOf, m, es, i, luck, k + 1) == Position(resvOf, m, fs, j, Rest(luck), k);
  }

  /** The exact condition: -ENOMEM comes out, with one entry locked, if and only if some turn that
      the walk reaches finds no room for a shared fence. */
  lemma {:induction false} EnomemIff(resvOf: nat -> nat, m: Mode, es: seq<Entry>, i: nat, more: seq<Entry>, luck: seq<Luck>)
    requires i <= |es|
    ensures Walk(resvOf, m, es, i, more, luck).ret.Enomem? <==> exists k: nat :: NoRoomAt(resvOf, m, es, i, luck, k)
    decreases |luck|, |es| - i
  {
    if i == |es| {
      assert forall k: nat :: !NoRoomAt(resvOf, m, es, i, luck, k);
    } else {
      var l := First(luck);
      NoRoomIff(m, es[i].shared, Mine(resvOf, es, i), l);
      assert LuckAt(luck, 0) == l;
      match TurnOf(m, es[i].shared, Mine(resvOf, es, i), l)
      case Next =>
        EnomemIff(resvOf, m, es, i + 1, more, Rest(luck));
        NoRoomShifts(resvOf, m, es, i, es, i + 1, luck);
      case Dup =>
        EnomemIff(resvOf, m, Without(es, i), i, [es[i]] + more, Rest(luck));
        NoRoomShifts(resvOf, m, es, i, Without(es, i), i, luck);
      case Front =>
        EnomemIff(resvOf, m, ToFront(es, i), 1, more, Rest(luck));
        NoRoomShifts(resvOf, m, es, i, ToFront(es, i), 1, luck);
      case Fail(e) =>
        if e.Enomem? {
          assert NoRoomAt(resvOf, m, es, i, luck, 0);
        } else {
          assert forall k: nat :: !NoRoomAt(resvOf, m, es, i, luck, k);
        }
    }
  }

  lemma NoRoomShifts(resvOf: nat -> nat, m: Mode, es: seq<Entry>, i: nat, fs: seq<Entry>, j: nat, luck: seq<Luck>)
    requires i < |es| && j <= |fs|
    requires match TurnOf(m, es[i].shared, Mine(resvOf, es, i), First(luck))
             case Next => fs == es && j == i + 1
             case Dup => fs == Without(es, i) && j == i
             case Front => fs == ToFront(es, i) && j == 1
             case Fail(_) => false
    ensures (exists k: nat :: NoRoomAt(resvOf, m, es, i, luck, k)) <==>
            (exists k: nat :: NoRoomAt(resvOf, m, fs, j, Rest(luck), k))
  {
    NoRoomIff(m, es[i].shared, Mine(resvOf, es, i), First(luck));
    assert LuckAt(luck, 0) == First(luck);
    assert !NoRoomAt(resvOf, m, es, i, luck, 0);
    if k: nat :| NoRoomAt(resvOf, m, es, i, luck, k) {
      TurnShifts(resvOf, m, es, i, fs, j, luck, k - 1);
    }
    if k: nat :| NoRoomAt(resvOf, m, fs, j, Rest(luck), k) {
      TurnShifts(resvOf, m, es, i, fs, j, luck, k);
    }
  }

  /** On an error nothing stays held if and only if no turn that the walk reaches finds no room. */
  lemma ErrorHoldsNothingIff(resvOf: nat -> nat, m: Mode, es: seq<Entry>, luck: seq<Luck>)
    requires !Walk(resvOf, m, es, 0, [], luck).ret.Ok?
    ensures HeldAfter(resvOf, Walk(resvOf, m, es, 0, [], luck)) == {} <==>
            !exists k: nat :: NoRoomAt(resvOf, m, es, 0, luck, k)
  {
    WalkKeeps(resvOf, m, es, luck);
    EnomemIff(resvOf, m, es, 0, [], luck);
  }

  /** The promise does fail: one shared entry, locked at once, with no room for its fence. */
  lemma NoRoomLeaks(resvOf: nat -> nat, m: Mode, e: Entry)
    requires e.shared
    ensures var w := Walk(resvOf, m, [e], 0, [], [Luck(Granted, false, false, false, true)]);
            w.ret == Enomem && HeldAfter(resvOf, w) == {resvOf(e.bo)}
  {
    assert [e][..0] == [];
  }

  // ---- CPU writers ----

  /** In a successful walk, CPU writers were about only in turns that did not take the lock the
      fast way: those of duplicates, and those that went through the slow lock. */
  lemma {:induction false} WritersOnlyPastSlowLock(resvOf: nat -> nat, m: Mode, es: seq<Entry>, i: nat, more: seq<Entry>,
                                                   luck: seq<Luck>, k: nat)
    requires i <= |es| && Walk(resvOf, m, es, i, more, luck).ret.Ok?
    requires var p := Position(resvOf, m, es, i, luck, k); p.Some? && p.value.1 < |p.value.0| && LuckAt(luck, k).cpuWriters
    ensures var (fs, j) := Position(resvOf, m, es, i, luck, k).value;
            !LockAnswer(m.ticket, m.intr, Mine(resvOf, fs, j), LuckAt(luck, k)).Taken?
    decreases k
  {
    if k == 0 {
      assert LuckAt(luck, 0) == First(luck);
    } else {
      assert LuckAt(luck, k) == LuckAt(Rest(luck), k - 1);
      match TurnOf(m, es[i].shared, Mine(resvOf, es, i), First(luck))
      case Next => WritersOnlyPastSlowLock(resvOf, m, es, i + 1, more, Rest(luck), k - 1);
      case Dup => WritersOnlyPastSlowLock(resvOf, m, Without(es, i), i, [es[i]] + more, Rest(luck), k - 1);
      case Front => WritersOnlyPastSlowLock(resvOf, m, ToFront(es, i), 1, more, Rest(luck), k - 1);
    }
  }

  /** After the slow lock they are not looked at: two entries, the second deadlocked and with CPU
      writers, and the call succeeds all the same. */
  lemma WritersUnseen(resvOf: nat -> nat, m: Mode, a: Entry, b: Entry)
    requires m.ticket && resvOf(a.bo) != resvOf(b.bo)
    ensures Walk(resvOf, m, [a, b], 0, [], [Lucky, Luck(Deadlock, true, true, false, true)]) == End(Ok, [b, a], [], 2)
  {
    var es := [a, b];
    var luck := [Lucky, Luck(Deadlock, true, true, false, true)];
    assert es[..0] == [] && es[..1] == [a];
    assert luck[1..] == [luck[1]] && luck[1..][1..] == [];
    assert ToFront(es, 1) == [b, a] && [b, a][..1] == [b];
    assert Walk(resvOf, m, [b, a], 1, [], []) == Walk(resvOf, m, [b, a], 2, [], []);
  }

  // ---- Why each error comes ----

  /** What each error says about a turn that failed with it. */
  predicate Explains(e: Outcome, m: Mode, mine: bool, l: Luck) {
    match e
    case Ok => false
    case Ealready => m.ticket && !m.hasDups && mine
    case Enomem => !l.room || !l.slowRoom
    case Erestartsys => m.ticket && m.intr && (l.lock.Interrupted? || l.slowInterrupted)
    case Ebusy => l.cpuWriters || (!m.ticket && (mine || !l.lock.Granted?))
  }

  lemma TurnExplains(m: Mode, shared: bool, mine: bool, l: Luck)
    requires TurnOf(m, shared, mine, l).Fail?
    ensures Explains(TurnOf(m, shared, mine, l).ret, m, mine, l)
  {
  }

  /** Some answer of the outside, or a duplicate, is behind every error. */
  lemma {:induction false} WalkExplains(resvOf: nat -> nat, m: Mode, es: seq<Entry>, i: nat, more: seq<Entry>, luck: seq<Luck>)
    requires i <= |es| && !Walk(resvOf, m, es, i, more, luck).ret.Ok?
    ensures var w := Walk(resvOf, m, es, i, more, luck);
            exists l, mine :: (l in luck || l == Lucky) && (mine ==> !Distinct(resvOf, w.list)) && Explains(w.ret, m, mine, l)
    decreases |luck|, |es| - i
  {
    var l, mine := First(luck), Mine(resvOf, es, i);
    match TurnOf(m, es[i].shared, mine, l)
    case Next => WalkExplains(resvOf, m, es, i + 1, more, Rest(luck));
    case Dup => WalkExplains(resvOf, m, Without(es, i), i, [es[i]] + more, Rest(luck));
    case Front => WalkExplains(resvOf, m, ToFront(es, i), 1, more, Rest(luck));
    case Fail(_) =>
      TurnExplains(m, es[i].shared, mine, l);
      if mine {
        SharedTwice(resvOf, es, i);
      }
      assert (l in luck || l == Lucky) && (mine ==> !Distinct(resvOf, es));
  }

  /** An entry whose reservation an earlier one holds is a duplicate. */
  lemma SharedTwice(resvOf: nat -> nat, es: seq<Entry>, i: nat)
    requires i < |es| && Mine(resvOf, es, i)
    ensures !Distinct(resvOf, es)
  {
    var e :| e in es[..i] && resvOf(e.bo) == resvOf(es[i].bo);
    var j :| 0 <= j < i && es[..i][j] == e;
    assert es[j] == e;
  }

  // ---- The submission ----

  class Submission {
    const resvOf: nat -> nat
    const pinned: set<nat>
    var list: seq<Entry>
    var dups: seq<Entry>
    var held: set<nat>
    var lru: set<nat>
    var fenced: seq<Fenced>

    constructor (resvOf: nat -> nat, pinned: set<nat>, list: seq<Entry>, dups: seq<Entry>, lru: set<nat>)
      ensures this.resvOf == resvOf && this.pinned == pinned && this.list == list && this.dups == dups
      ensures this.lru == lru && held == {} && fenced == []
    {
      this.resvOf, this.pinned, this.list, this.dups, this.lru := resvOf, pinned, list, dups, lru;
      held, fenced := {}, [];
    }

    /** A mutex is never taken twice, and only dropped when held. */
    method Lock(r: nat)
      requires r !in held
      modifies this`held
      ensures held == old(held) + {r}
    {
      held := held + {r};
    }

    method Unlock(r: nat)
      requires r in held
      modifies this`held
      ensures held == old(held) - {r}
    {
      held := held - {r};
    }

    /** ttm_eu_backoff_reservation_reverse: drops what the entries before i hold. */
    method BackoffReverse(i: nat)
      requires i <= |list| && Distinct(resvOf, list[..i]) && Resvs(resvOf, list[..i]) <= held
      modifies this`held
      ensures held == old(held) - Resvs(resvOf, list[..i])
    {
      var j := i;
      while j > 0
        invariant 0 <= j <= i && Distinct(resvOf, list[..j])
        invariant Resvs(resvOf, list[..j]) <= held
        invariant held - Resvs(resvOf, list[..j]) == old(held) - Resvs(resvOf, list[..i])
      {
        ResvsPrefix(resvOf, list, j - 1);
        j := j - 1;
        Unlock(resvOf(list[j].bo));
      }
      assert Resvs(resvOf, list[..0]) == {};
    }

    /** The entries before i, and no others, hold their reservations. */
    ghost predicate Holding(i: nat)
      reads this
    {
      i <= |list| && Distinct(resvOf, list[..i]) && held == Resvs(resvOf, list[..i])
    }

    /** One turn of the loop at entry i, which is the turn that the outside's answers call for. */
    method TryOne(i: nat, m: Mode, l: Luck) returns (turn: Turn)
      requires Holding(i) && i < |list|
      modifies this`list, this`dups, this`held
      ensures turn == TurnOf(m, old(list)[i].shared, old(Mine(resvOf, list, i)), l)
      ensures turn.Next? ==> list == old(list) && dups == old(dups) && Holding(i + 1)
      ensures turn.Dup? ==> list == Without(old(list), i) && dups == [old(list)[i]] + old(dups) && Holding(i)
      ensures turn.Front? ==> list == ToFront(old(list), i) && dups == old(dups) && Holding(1)
      ensures turn.Fail? ==> list == old(list) && dups == old(dups)
      ensures turn.Fail? && !turn.ret.Enomem? ==> held == {}
      ensures turn == Fail(Enomem) ==> held == {resvOf(list[i].bo)}
      ensures turn == Fail(Enomem) <==> NoRoom(m, old(list)[i].shared, old(Mine(resvOf, list, i)), l)
    {
      var entry := list[i];
      var r := resvOf(entry.bo);
      var lock := LockAnswer(m.ticket, m.intr, r in held, l);
      ResvsPrefix(resvOf, list, i);
      if lock.LAlready? && m.hasDups {
        WithoutKeepsResvs(resvOf, list, i);
        list := Without(list, i);
        dups := [entry] + dups;
        return Dup;
      }
      if lock.Taken? {
        Lock(r);
        if l.cpuWriters {
          Unlock(r);
          BackoffReverse(i);
          return Fail(Ebusy);
        }
        if !entry.shared || l.room {
          return Next;
        }
        // reserve_shared failed: the earlier entries are dropped, this one is not
        BackoffReverse(i);
        return Fail(Enomem);
      }
      BackoffReverse(i);
      if !lock.LDeadlock? {
        return Fail(if lock.LAlready? then Ealready else if lock.LInterrupted? then Erestartsys else Ebusy);
      }
      if m.intr && l.slowInterrupted {
        return Fail(Erestartsys);
      }
      Lock(r);
      if entry.shared && !l.slowRoom {
        return Fail(Enomem);
      }
      list := ToFront(list, i);
      assert list[..1] == [list[0]];
      turn := Front;
    }

    /** One turn, seen from the walk: it goes on from the new place, or ends here. */
    method Advance(i: nat, m: Mode, luck: seq<Luck>, ghost more: seq<Entry>, ghost dups0: seq<Entry>)
      returns (end: Option<Outcome>, next: nat, ghost more': seq<Entry>)
      requires Holding(i) && i < |list| && dups == more + dups0
      modifies this`list, this`dups, this`held
      ensures dups == more' + dups0
      ensures end.None? ==>
                && Holding(next) && Walk(resvOf, m, list, next, more', Rest(luck)) == Walk(resvOf, m, old(list), i, more, luck)
                && (|luck| > 0 || |list| - next < |old(list)| - i)
      ensures end.Some? ==>
                var w := End(end.value, list, more', i);
                w == Walk(resvOf, m, old(list), i, more, luck) && held == HeldAfter(resvOf, w)
    {
      WalkTurn(resvOf, m, list, i, more, luck);
      Seqs.Prepended(list[i], more, dups0);
      ghost var entry := list[i];
      var turn := TryOne(i, m, First(luck));
      more' := if turn.Dup? then [entry] + more else more;
      next := if turn.Next? then i + 1 else if turn.Front? then 1 else i;
      end := if turn.Fail? then Some(turn.ret) else None;
    }

    /** The loop of ttm_eu_reserve_buffers: list, duplicates, result and what is held are the walk's. */
    method WalkList(m: Mode, script: seq<Luck>) returns (ret: Outcome)
      requires held == {}
      modifies this`list, this`dups, this`held
      ensures var w := Walk(resvOf, m, old(list), 0, [], script);
              ret == w.ret && list == w.list && dups == w.more + old(dups) && held == HeldAfter(resvOf, w)
    {
      var i: nat, luck := 0, script;
      ghost var more: seq<Entry> := [];
      assert Holding(0) by {
        assert list[..0] == [];
      }
      while i < |list|
        invariant Holding(i) && dups == more + old(dups)
        invariant Walk(resvOf, m, list, i, more, luck) == Walk(resvOf, m, old(list), 0, [], script)
        decreases |luck|, |list| - i
      {
        var end;
        end, i, more := Advance(i, m, luck, more, old(dups));
        luck := Rest(luck);
        if end.Some? {
          return end.value;
        }
      }
      assert list[..i] == list;
      ret := Ok;
    }

    /** ttm_eu_reserve_buffers, for any luck. */
    method ReserveBuffers(m: Mode, script: seq<Luck>) returns (ret: Outcome)
      requires held == {}
      modifies this`list, this`dups, this`held, this`lru
      ensures var w := Walk(resvOf, m, old(list), 0, [], script);
              && ret == w.ret && list == w.list && dups == w.more + old(dups) && held == HeldAfter(resvOf, w)
              && multiset(list) + multiset(w.more) == multiset(old(list))
              && (!(m.hasDups && m.ticket) ==> w.more == [])
              && (ret.Ok? ==> Distinct(resvOf, list) && held == Resvs(resvOf, list) && Resvs(resvOf, w.more) <= held)
      ensures !ret.Ok? ==> (held == {} <==> !exists k: nat :: NoRoomAt(resvOf, m, old(list), 0, script, k))
      ensures lru == if ret.Ok? then old(lru) - Bos(list) else old(lru)
      ensures !ret.Ok? ==> exists l, mine ::
                (l in script || l == Lucky) && (mine ==> !Distinct(resvOf, list)) && Explains(ret, m, mine, l)
    {
      WalkKeeps(resvOf, m, list, script);
      ghost var w := Walk(resvOf, m, list, 0, [], script);
      if !w.ret.Ok? {
        ErrorHoldsNothingIff(resvOf, m, list, script);
        WalkExplains(resvOf, m, list, 0, [], script);
      }
      ret := WalkList(m, script);
      if ret.Ok? {
        DelFromLru();
      }
    }

    /** ttm_eu_del_from_lru_locked. */
    method DelFromLru()
      modifies this`lru
      ensures lru == old(lru) - Bos(list)
    {
      var i := 0;
      while i < |list|
        invariant 0 <= i <= |list| && lru == old(lru) - Bos(list[..i])
      {
        assert list[..i + 1] == list[..i] + [list[i]];
        lru := lru - {list[i].bo};
        i := i + 1;
      }
      assert list[..i] == list;
    }

    /** A reserved list: each entry's reservation is held through it alone and its buffer is off the lru. */
    ghost predicate Reserved()
      reads this
    {
      Distinct(resvOf, list) && held == Resvs(resvOf, list) && lru !! Bos(list)
    }

    /** ttm_bo_add_to_lru, with its BUG_ON as the precondition. */
    method AddToLru(bo: nat)
      requires bo !in pinned ==> bo !in lru
      modifies this`lru
      ensures lru == old(lru) + ({bo} - pinned)
    {
      if bo !in pinned {
        lru := lru + {bo};
      }
    }

    /** ttm_eu_backoff_reservation: undoes a successful reservation. */
    method BackoffReservation()
      requires Reserved()
      modifies this`held, this`lru
      ensures held == {} && lru == old(lru) + (Bos(list) - pinned)
    {
      var i := 0;
      assert list[0..] == list && Bos(list[..0]) == {};
      while i < |list|
        invariant 0 <= i <= |list| && held == Resvs(resvOf, list[i..])
        invariant lru == old(lru) + (Bos(list[..i]) - pinned)
      {
        ReleaseOne(i);
        AddToLru(list[i].bo);
        Unlock(resvOf(list[i].bo));
        i := i + 1;
      }
      assert list[..i] == list;
    }

    /** What the walk needs at entry i: its lock is held, and held only for it. */
    lemma ReleaseOne(i: nat)
      requires i < |list| && Distinct(resvOf, list)
      ensures Resvs(resvOf, list[i..]) == Resvs(resvOf, list[i + 1..]) + {resvOf(list[i].bo)}
      ensures resvOf(list[i].bo) !in Resvs(resvOf, list[i + 1..])
      ensures Bos(list[..i + 1]) == Bos(list[..i]) + {list[i].bo}
      ensures list[i].bo !in Bos(list[..i]) && list[i].bo in Bos(list)
    {
      DistinctBos(resvOf, list, i);
      assert list[i..] == [list[i]] + list[i + 1..];
      assert list[..i + 1] == list[..i] + [list[i]];
      assert forall e :: e in list[i + 1..] ==> resvOf(e.bo) != resvOf(list[i].bo);
      assert list[i] in list;
    }

    /** ttm_eu_fence_buffer_objects: every entry's reservation gets the fence once,
        in list order, shared or exclusive as asked, and is dropped. */
    method FenceBufferObjects()
      requires Reserved()
      modifies this`held, this`lru, this`fenced
      ensures held == {} && lru == old(lru) + (Bos(list) - pinned)
      ensures fenced == old(fenced) + Fences(resvOf, list)
    {
      var i := 0;
      assert list[0..] == list && Bos(list[..0]) == {};
      while i < |list|
        invariant 0 <= i <= |list| && held == Resvs(resvOf, list[i..])
        invariant lru == old(lru) + (Bos(list[..i]) - pinned)
        invariant fenced == old(fenced) + Fences(resvOf, list[..i])
      {
        ReleaseOne(i);
        fenced := fenced + [Fenced(resvOf(list[i].bo), list[i].shared)];
        assert Fences(resvOf, list[..i + 1]) == Fences(resvOf, list[..i]) + [Fenced(resvOf(list[i].bo), list[i].shared)];
        AddToLru(list[i].bo);
        Unlock(resvOf(list[i].bo));
        i := i + 1;
      }
      assert list[..i] == list;
    }

    /** Reserving and backing off: the result is the walk's, and nothing stays held unless a turn
        found no room; the unpinned buffers that were reserved are on the lru again. */
    method ReserveAndBackoff(m: Mode, script: seq<Luck>) returns (ret: Outcome)
      requires held == {}
      modifies this`list, this`dups, this`held, this`lru
      ensures var w := Walk(resvOf, m, old(list), 0, [], script);
              && ret == w.ret && list == w.list && dups == w.more + old(dups)
              && held == (if ret.Ok? then {} else HeldAfter(resvOf, w))
              && (held == {} <==> !exists k: nat :: NoRoomAt(resvOf, m, old(list), 0, script, k))
      ensures lru == if ret.Ok? then (old(lru) - (Bos(list) * pinned)) + (Bos(list) - pinned) else old(lru)
    {
      EnomemIff(resvOf, m, list, 0, [], script);
      ret := ReserveBuffers(m, script);
      if ret.Ok? {
        BackoffReservation();
      }
    }
  }
}
