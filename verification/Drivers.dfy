/**
 The table of crypto drivers and the sessions opened on them (sys/crypto/crypto.c).

 Beside the table, two things that the code does not store are kept: the ids of the sessions that
 have been opened and not freed, and which slots are reserved by crypto_get_driverid and not yet
 registered.  A session id is the slot's number times 2^32 plus the number the driver gave.
 */
module Drivers {
  const MAXIMUM := 128
  const INITIAL := 4
  const ALGORITHMS := 28
  const WORD := 0x1_0000_0000

  datatype Driver = Driver(
    newsession: bool,    // these three: the driver's function is set
    process: bool,
    freesession: bool,
    alg: seq<int>,
    sessions: nat,
    cleanup: bool,
    software: bool)

  function Empty(): Driver { Driver(false, false, false, seq(ALGORITHMS + 1, _ => 0), 0, false, false) }

  datatype Table = Table(drivers: seq<Driver>, open: set<nat>, reserved: seq<bool>)

  const Nothing := Table([], {}, [])

  predicate Shaped(t: Table) {
    && |t.reserved| == |t.drivers|
    && forall i :: 0 <= i < |t.drivers| ==> |t.drivers[i].alg| == ALGORITHMS + 1
  }

  /** The open sessions of slot `i`. */
  function SessionsOf(open: set<nat>, i: nat): set<nat> {
    set s | s in open && s / WORD == i
  }

  /** The count is right, and a slot that waits for its sessions to end has some. */
  predicate Right(d: Driver, sessions: nat, reserved: bool) {
    && d.sessions == sessions + (if reserved then 1 else 0)
    && (d.cleanup ==> d.sessions > 0)
  }

  predicate RightAt(t: Table, i: nat)
    requires Shaped(t) && i < |t.drivers|
  {
    Right(t.drivers[i], |SessionsOf(t.open, i)|, t.reserved[i])
  }

  predicate Good(t: Table) {
    && Shaped(t)
    && (forall i :: 0 <= i < |t.drivers| ==> RightAt(t, i))
    && (forall s :: s in t.open ==> s / WORD < |t.drivers|)
  }

  // ----- the operations

  predicate Free(d: Driver) { !d.process && !d.cleanup && d.sessions == 0 }

  predicate NoneFree(ds: seq<Driver>, n: nat)
    requires n <= |ds|
  {
    forall i :: 0 <= i < n ==> !Free(ds[i])
  }

  /** A larger table, every entry where it was. */
  function Grown(t: Table, n: nat): Table {
    Table(t.drivers + seq(n, _ => Empty()), t.open, t.reserved + seq(n, _ => false))
  }

  /** Slot `i` reserved. */
  function Reserved(t: Table, i: nat, software: bool): Table
    requires Shaped(t) && i < |t.drivers|
  {
    t.(drivers := t.drivers[i := t.drivers[i].(sessions := 1, software := software, cleanup := false)],
       reserved := t.reserved[i := true])
  }

  /** crypto_register. */
  function Registered(t: Table, i: nat, alg: seq<int>, n: bool, f: bool, p: bool): Table
    requires Shaped(t) && i < |t.drivers|
  {
    var d := t.drivers[i].(alg := alg, newsession := n, process := p, freesession := f, sessions := 0);
    t.(drivers := t.drivers[i := d], reserved := t.reserved[i := false])
  }

  /**
   The check at the top of crypto_unregister.  For all algorithms at once it looks one place behind
   the array, where the first of the asymmetric ones is kept: `behind`.
   */
  predicate Removable(t: Table, i: nat, a: int, behind: int)
    requires Shaped(t)
  {
    && i < |t.drivers| && 0 < a <= ALGORITHMS + 1
    && (if a == ALGORITHMS + 1 then behind else t.drivers[i].alg[a]) != 0
  }

  predicate NoneLeft(alg: seq<int>)
    requires |alg| == ALGORITHMS + 1
  {
    forall j :: 1 <= j <= ALGORITHMS ==> alg[j] == 0
  }

  /** crypto_unregister of one algorithm, or of all. */
  function Unregistered(t: Table, i: nat, a: int): Table
    requires Shaped(t) && i < |t.drivers| && 0 < a <= ALGORITHMS + 1
  {
    var all := a == ALGORITHMS + 1;
    var d := if all then t.drivers[i] else t.drivers[i].(alg := t.drivers[i].alg[a := 0]);
    var e := if !all && !NoneLeft(d.alg) then d else Empty().(sessions := d.sessions, cleanup := d.sessions != 0);
    t.(drivers := t.drivers[i := e])
  }

  /** Session `sid` is opened. */
  function Opened(t: Table, sid: nat): Table
    requires Shaped(t) && sid / WORD < |t.drivers|
  {
    var i := sid / WORD;
    t.(drivers := t.drivers[i := t.drivers[i].(sessions := t.drivers[i].sessions + 1)], open := t.open + {sid})
  }

  /**
   Session `sid` is freed.  On a slot without open sessions this gives up a reservation, which the
   source documents as a use of crypto_freesession.
   */
  function Closed(t: Table, sid: nat): Table
    requires Shaped(t) && sid / WORD < |t.drivers|
  {
    var i := sid / WORD;
    var d := t.drivers[i];
    var e := d.(sessions := if d.sessions > 0 then d.sessions - 1 else 0);
    var f := if e.cleanup && e.sessions == 0 then Empty() else e;
    t.(drivers := t.drivers[i := f], open := t.open - {sid},
       reserved := if SessionsOf(t.open, i) == {} then t.reserved[i := false] else t.reserved)
  }

  // ----- what they keep

  lemma GrownKeeps(t: Table, n: nat)
    requires Good(t)
    ensures Good(Grown(t, n))
    ensures |Grown(t, n).drivers| == |t.drivers| + n && Grown(t, n).open == t.open
    ensures forall i :: 0 <= i < |t.drivers| ==>
              Grown(t, n).drivers[i] == t.drivers[i] && Grown(t, n).reserved[i] == t.reserved[i]
    ensures forall i :: |t.drivers| <= i < |t.drivers| + n ==>
              && Free(Grown(t, n).drivers[i]) && !Grown(t, n).reserved[i]
              && !Grown(t, n).drivers[i].newsession && !Grown(t, n).drivers[i].software
  {
    var g := Grown(t, n);
    forall i | 0 <= i < |g.drivers|
      ensures RightAt(g, i)
    {
      if i < |t.drivers| {
        assert RightAt(t, i);
      } else {
        assert SessionsOf(t.open, i) == {};
      }
    }
  }

  /** A slot other than `i` has kept its entry, its reservation and its sessions. */
  lemma OtherSlots(t: Table, q: Table, i: nat)
    requires Good(t) && Shaped(q) && |q.drivers| == |t.drivers|
    requires forall k :: 0 <= k < |t.drivers| && k != i ==>
               q.drivers[k] == t.drivers[k] && q.reserved[k] == t.reserved[k]
    requires forall s :: s / WORD != i ==> (s in q.open <==> s in t.open)
    ensures forall k :: 0 <= k < |t.drivers| && k != i ==> RightAt(q, k)
  {
    forall k | 0 <= k < |t.drivers| && k != i
      ensures RightAt(q, k)
    {
      assert RightAt(t, k);
      assert SessionsOf(q.open, k) == SessionsOf(t.open, k);
    }
  }

  lemma ReservedKeeps(t: Table, i: nat, software: bool)
    requires Good(t) && i < |t.drivers| && Free(t.drivers[i])
    ensures Good(Reserved(t, i, software)) && SessionsOf(t.open, i) == {} && !t.reserved[i]
  {
    assert RightAt(t, i);
    OtherSlots(t, Reserved(t, i, software), i);
  }

  /** Registering a slot leaves its count right exactly when the slot has no open session and is not
      waiting for one to close. */
  lemma RegisteredKeeps(t: Table, i: nat, alg: seq<int>, n: bool, f: bool, p: bool)
    requires Good(t) && i < |t.drivers| && |alg| == ALGORITHMS + 1
    ensures Good(Registered(t, i, alg, n, f, p)) <==> SessionsOf(t.open, i) == {} && !t.drivers[i].cleanup
  {
    hide SessionsOf;
    var r := Registered(t, i, alg, n, f, p);
    OtherSlots(t, r, i);
    if Good(r) {
      assert RightAt(r, i);
    }
  }

  lemma UnregisteredKeeps(t: Table, i: nat, a: int)
    requires Good(t) && i < |t.drivers| && 0 < a <= ALGORITHMS + 1
    ensures Good(Unregistered(t, i, a)) && Unregistered(t, i, a).open == t.open
    ensures var d := Unregistered(t, i, a).drivers[i];
            d.cleanup || Free(d) || (a <= ALGORITHMS && d.alg == t.drivers[i].alg[a := 0])
  {
    assert RightAt(t, i);
    OtherSlots(t, Unregistered(t, i, a), i);
  }

  /** Opening a session keeps the count right exactly if the driver's number is not in use on the slot. */
  lemma OpenedKeeps(t: Table, sid: nat)
    requires Good(t) && sid / WORD < |t.drivers|
    ensures Good(Opened(t, sid)) <==> sid !in t.open
  {
    var i, q := sid / WORD, Opened(t, sid);
    assert RightAt(t, i);
    OtherSlots(t, q, i);
    if sid in t.open {
      assert q.open == t.open;
      assert !RightAt(q, i);
    } else {
      assert SessionsOf(q.open, i) == SessionsOf(t.open, i) + {sid};
    }
  }

  /** Freeing keeps the count right exactly if the session is open, or its slot has no open session. */
  lemma ClosedKeeps(t: Table, sid: nat)
    requires Good(t) && sid / WORD < |t.drivers|
    ensures Good(Closed(t, sid)) <==> sid in t.open || SessionsOf(t.open, sid / WORD) == {}
  {
    var i, q := sid / WORD, Closed(t, sid);
    assert RightAt(t, i);
    OtherSlots(t, q, i);
    if sid in t.open {
      assert sid in SessionsOf(t.open, i);
      assert SessionsOf(q.open, i) == SessionsOf(t.open, i) - {sid};
    } else {
      assert q.open == t.open;
      if SessionsOf(t.open, i) != {} {
        assert |SessionsOf(t.open, i)| > 0;
        assert !RightAt(q, i);
      }
    }
  }

  /** A session freed twice, with another open on its slot: the count is one short from then on. */
  lemma FreeingTwiceLosesCount(t: Table, a: nat, b: nat)
    requires Good(t) && a in t.open && b in t.open && a != b && a / WORD == b / WORD
    ensures var i := a / WORD;
      var once := Closed(t, a);
      && Good(once) && Shaped(once) && i < |once.drivers|
      && var twice := Closed(once, a);
         && twice.open == once.open == t.open - {a} && !Good(twice) && i < |twice.drivers| == |twice.reserved|
         && twice.reserved[i] == t.reserved[i]
         && twice.drivers[i].sessions + 1 == |SessionsOf(twice.open, i)| + if t.reserved[i] then 1 else 0
  {
    var i := a / WORD;
    ClosedKeeps(t, a);
    var once := Closed(t, a);
    assert b in SessionsOf(once.open, i) && b in SessionsOf(t.open, i);
    assert RightAt(once, i);
    ClosedKeeps(once, a);
  }

  /** A slot with an open session is not handed out. */
  lemma OpenSlotIsNotFree(t: Table, sid: nat)
    requires Good(t) && sid in t.open
    ensures sid / WORD < |t.drivers| && !Free(t.drivers[sid / WORD])
  {
    assert RightAt(t, sid / WORD);
    assert sid in SessionsOf(t.open, sid / WORD);
  }

  // ----- choosing a driver

  predicate Supports(d: Driver, wanted: seq<nat>)
    requires |d.alg| == ALGORITHMS + 1
  {
    forall k :: 0 <= k < |wanted| ==> wanted[k] <= ALGORITHMS && d.alg[wanted[k]] != 0
  }

  predicate Usable(d: Driver, wanted: seq<nat>)
    requires |d.alg| == ALGORITHMS + 1
  {
    d.newsession && !d.cleanup && Supports(d, wanted)
  }

  /** Which drivers a pass looks at. */
  predicate Eligible(d: Driver, wanted: seq<nat>, turn: nat)
    requires |d.alg| == ALGORITHMS + 1
  {
    Usable(d, wanted) && (turn == 0 ==> !d.software) && (turn == 1 ==> d.software)
  }

  predicate Beats(t: Table, h: nat, i: nat)
    requires h < |t.drivers| && i < |t.drivers|
  {
    if i > h then t.drivers[h].sessions < t.drivers[i].sessions else t.drivers[h].sessions <= t.drivers[i].sessions
  }

  /** `h` is, among the first `n` slots, the last of the least loaded ones a pass looks at. */
  predicate Best(t: Table, wanted: seq<nat>, turn: nat, n: nat, h: int)
    requires Shaped(t) && n <= |t.drivers|
  {
    if h < 0 then h == -1 && forall i :: 0 <= i < n ==> !Eligible(t.drivers[i], wanted, turn)
    else
      && h < n && Eligible(t.drivers[h], wanted, turn)
      && (forall i :: 0 <= i < n && Eligible(t.drivers[i], wanted, turn) ==> Beats(t, h, i))
  }

  /** The choice of crypto_newsession. */
  predicate Chosen(t: Table, wanted: seq<nat>, hard: bool, h: int)
    requires Shaped(t)
  {
    Best(t, wanted, if Offered(t, wanted, false) || hard then 0 else 1, |t.drivers|, h)
  }

  predicate Offered(t: Table, wanted: seq<nat>, software: bool)
    requires Shaped(t)
  {
    exists i :: 0 <= i < |t.drivers| && Usable(t.drivers[i], wanted) && t.drivers[i].software == software
  }

  /** Of several with that load it is the last in the table. */
  predicate LastOfEqual(t: Table, wanted: seq<nat>, h: nat)
    requires Shaped(t) && h < |t.drivers|
  {
    forall i :: h < i < |t.drivers| && Usable(t.drivers[i], wanted) &&
                t.drivers[i].software == t.drivers[h].software ==>
      t.drivers[h].sessions != t.drivers[i].sessions
  }

  /** No driver of the same kind that can do the work has fewer sessions. */
  predicate LeastLoaded(t: Table, wanted: seq<nat>, h: nat)
    requires Shaped(t) && h < |t.drivers|
  {
    forall i :: 0 <= i < |t.drivers| && Usable(t.drivers[i], wanted) &&
                t.drivers[i].software == t.drivers[h].software ==>
      t.drivers[h].sessions <= t.drivers[i].sessions
  }

  /** A driver is chosen whenever one can do the work; software only when no hardware can. */
  lemma ChosenMeans(t: Table, wanted: seq<nat>, hard: bool, h: int)
    requires Shaped(t) && Chosen(t, wanted, hard, h)
    ensures h >= -1
    ensures h == -1 <==> !Offered(t, wanted, false) && (hard || !Offered(t, wanted, true))
    ensures h >= 0 ==> h < |t.drivers| && Usable(t.drivers[h], wanted) &&
                       (t.drivers[h].software <==> !Offered(t, wanted, false))
    ensures h >= 0 ==> LeastLoaded(t, wanted, h) && LastOfEqual(t, wanted, h)
    ensures h >= 0 && t.drivers[h].software ==> !hard
  {
    hide Supports;
  }

  // ----- what they mean for a caller

  /** Two tables differ at slot `i` at most. */
  predicate OnlyAt(t: Table, q: Table, i: nat) {
    && |q.drivers| == |t.drivers| && |q.reserved| == |t.reserved|
    && (forall k :: 0 <= k < |t.drivers| && k != i ==> q.drivers[k] == t.drivers[k])
    && (forall k :: 0 <= k < |t.reserved| && k != i ==> q.reserved[k] == t.reserved[k])
  }

  /** The same functions and the same flags. */
  predicate SameFunctions(d: Driver, e: Driver) {
    && d.newsession == e.newsession && d.process == e.process && d.freesession == e.freesession
    && d.software == e.software && d.cleanup == e.cleanup
  }

  /** Algorithm `a` is all of them, or the only one the driver still has. */
  predicate LastOne(d: Driver, a: int)
    requires |d.alg| == ALGORITHMS + 1
  {
    a == ALGORITHMS + 1 || forall j :: 1 <= j <= ALGORITHMS && d.alg[j] != 0 ==> j == a
  }

  /** A slot no session is opened on any more: free for the next driver, or waiting for its last session. */
  ghost predicate Withdrawn(d: Driver, sessions: nat)
    requires |d.alg| == ALGORITHMS + 1
  {
    && !d.newsession && !d.process && !d.freesession && !d.software && d.sessions == sessions
    && (d.cleanup <==> sessions > 0) && (Free(d) <==> sessions == 0)
    && (forall wanted :: !Usable(d, wanted))
  }

  /** What the entry `d` is after one algorithm, or all, have been taken off it: `e`. */
  ghost predicate TakenOff(d: Driver, a: int, e: Driver)
    requires |d.alg| == ALGORITHMS + 1 && |e.alg| == ALGORITHMS + 1
  {
    if LastOne(d, a) then Withdrawn(e, d.sessions)
    else
      && SameFunctions(d, e) && e.sessions == d.sessions
      && (forall wanted :: Usable(e, wanted) <==> Usable(d, wanted) && a !in wanted)
  }

  /** Exactly the last algorithm withdraws the slot; before that the driver goes on as it was without the one. */
  lemma UnregisteredMeans(t: Table, i: nat, a: int)
    requires Shaped(t) && i < |t.drivers| && 0 < a <= ALGORITHMS + 1
    ensures var q := Unregistered(t, i, a);
      && OnlyAt(t, q, i) && q.open == t.open && q.reserved == t.reserved && Shaped(q)
      && TakenOff(t.drivers[i], a, q.drivers[i])
      && (LastOne(t.drivers[i], a) <==> NoneLeft(q.drivers[i].alg))
  {
    var d, e := t.drivers[i], Unregistered(t, i, a).drivers[i];
    if LastOne(d, a) {
      assert a <= ALGORITHMS ==> NoneLeft(d.alg[a := 0]);
    } else {
      var j :| 1 <= j <= ALGORITHMS && d.alg[j] != 0 && j != a;
      assert d.alg[a := 0][j] != 0;
      forall wanted
        ensures Usable(e, wanted) <==> Usable(d, wanted) && a !in wanted
      {
        OneLess(d, e, a, wanted);
      }
    }
  }

  lemma OneLess(d: Driver, e: Driver, a: int, wanted: seq<nat>)
    requires |d.alg| == ALGORITHMS + 1 && 0 < a <= ALGORITHMS && e == d.(alg := d.alg[a := 0])
    ensures Usable(e, wanted) <==> Usable(d, wanted) && a !in wanted
  {
    if Usable(d, wanted) && a !in wanted {
      forall k | 0 <= k < |wanted| ensures wanted[k] <= ALGORITHMS && e.alg[wanted[k]] != 0 {
        assert wanted[k] in wanted;
      }
    }
  }

  /** A reserved slot is not handed out again, and offers what the entry offered before. */
  lemma ReservedMeans(t: Table, i: nat, software: bool)
    requires Shaped(t) && i < |t.drivers| && Free(t.drivers[i])
    ensures var q := Reserved(t, i, software);
      && OnlyAt(t, q, i) && q.open == t.open && q.reserved[i]
      && !Free(q.drivers[i]) && SameFunctions(t.drivers[i].(software := software), q.drivers[i])
      && q.drivers[i].alg == t.drivers[i].alg
  {
  }

  /** A registered slot offers exactly the algorithms of the array, if it has a function to open sessions. */
  lemma RegisteredMeans(t: Table, i: nat, alg: seq<int>, n: bool, f: bool, p: bool)
    requires Shaped(t) && i < |t.drivers| && |alg| == ALGORITHMS + 1
    ensures var q := Registered(t, i, alg, n, f, p);
      && OnlyAt(t, q, i) && q.open == t.open && !q.reserved[i] && Shaped(q)
      && SameFunctions(q.drivers[i], t.drivers[i].(newsession := n, process := p, freesession := f))
      && (forall wanted :: Usable(q.drivers[i], wanted) <==>
            && n && !t.drivers[i].cleanup
            && forall k :: 0 <= k < |wanted| ==> wanted[k] <= ALGORITHMS && alg[wanted[k]] != 0)
  {
    var e := Registered(t, i, alg, n, f, p).drivers[i];
    forall wanted
      ensures Usable(e, wanted) <==>
        n && !t.drivers[i].cleanup && forall k :: 0 <= k < |wanted| ==> wanted[k] <= ALGORITHMS && alg[wanted[k]] != 0
    {
      assert e.alg == alg;
    }
  }

  /** Opening a session changes what is open and the load of its slot, and nothing of what the driver offers. */
  lemma OpenedMeans(t: Table, sid: nat)
    requires Good(t) && sid / WORD < |t.drivers| && sid !in t.open
    ensures var i, q := sid / WORD, Opened(t, sid);
      && OnlyAt(t, q, i) && q.reserved == t.reserved && !Free(q.drivers[i])
      && SameFunctions(t.drivers[i], q.drivers[i]) && q.drivers[i].alg == t.drivers[i].alg
      && SessionsOf(q.open, i) == SessionsOf(t.open, i) + {sid}
      && (forall k :: k != i ==> SessionsOf(q.open, k) == SessionsOf(t.open, k))
  {
  }

  /**
   Freeing the last session of a slot that waits for it makes the slot free; otherwise the driver
   offers what it offered.
   */
  lemma ClosedMeans(t: Table, sid: nat)
    requires Good(t) && sid in t.open
    ensures sid / WORD < |t.drivers|
    ensures var i, q := sid / WORD, Closed(t, sid);
      && OnlyAt(t, q, i) && q.reserved == t.reserved && |q.drivers[i].alg| == ALGORITHMS + 1
      && SessionsOf(q.open, i) == SessionsOf(t.open, i) - {sid}
      && (forall k :: k != i ==> SessionsOf(q.open, k) == SessionsOf(t.open, k))
      && if t.drivers[i].cleanup && !t.reserved[i] && SessionsOf(t.open, i) == {sid} then Withdrawn(q.drivers[i], 0)
         else SameFunctions(t.drivers[i], q.drivers[i]) && q.drivers[i].alg == t.drivers[i].alg
  {
    var i := sid / WORD;
    assert RightAt(t, i);
    var mine := SessionsOf(t.open, i);
    assert sid in mine && mine != {};
    assert |mine - {sid}| == |mine| - 1;
    assert mine == {sid} <==> mine - {sid} == {};
    assert |mine - {sid}| == 0 <==> mine - {sid} == {};
  }

  // ----- every run

  datatype Op =
    | Reserve(slot: nat, software: bool)
    | Grow(size: nat)
    | Register(slot: nat, algs: seq<int>, news: bool, frees: bool, proc: bool)
    | Unregister(slot: nat, a: int, behind: int)
    | Open(wanted: seq<nat>, hard: bool, sid: nat)
    | Close(sid: nat)

  /**
   An operation the code can carry out: slots are registered while they have no sessions, drivers
   number their sessions apart, and sessions are freed once.
   */
  predicate Possible(t: Table, op: Op)
    requires Shaped(t)
  {
    match op
    case Reserve(i, _) => i < |t.drivers| && Free(t.drivers[i])
    case Grow(_) => NoneFree(t.drivers, |t.drivers|)
    case Register(i, algs, _, _, _) =>
      i < |t.drivers| && |algs| == ALGORITHMS + 1 && SessionsOf(t.open, i) == {} && !t.drivers[i].cleanup
    case Unregister(i, a, behind) => Removable(t, i, a, behind)
    case Open(wanted, hard, sid) => sid / WORD < |t.drivers| && Chosen(t, wanted, hard, sid / WORD) && sid !in t.open
    case Close(sid) => sid / WORD < |t.drivers| && (sid in t.open || SessionsOf(t.open, sid / WORD) == {})
  }

  function After(t: Table, op: Op): Table
    requires Shaped(t) && Possible(t, op)
  {
    match op
    case Reserve(i, software) => Reserved(t, i, software)
    case Grow(n) => Grown(t, n)
    case Register(i, algs, n, f, p) => Registered(t, i, algs, n, f, p)
    case Unregister(i, a, _) => Unregistered(t, i, a)
    case Open(_, _, sid) => Opened(t, sid)
    case Close(sid) => Closed(t, sid)
  }

  lemma AfterKeeps(t: Table, op: Op)
    requires Good(t) && Possible(t, op)
    ensures Good(After(t, op))
  {
    hide Good, Reserved, Registered, Unregistered, Opened, Closed, Grown, Chosen;
    match op
    case Reserve(i, software) => ReservedKeeps(t, i, software);
    case Grow(n) => GrownKeeps(t, n);
    case Register(i, algs, n, f, p) => RegisteredKeeps(t, i, algs, n, f, p);
    case Unregister(i, a, _) => UnregisteredKeeps(t, i, a);
    case Open(_, _, sid) => OpenedKeeps(t, sid);
    case Close(sid) => ClosedKeeps(t, sid);
  }

  /** The tables of a run, from the empty one. */
  ghost predicate Run(ts: seq<Table>, ops: seq<Op>) {
    && |ts| == |ops| + 1 && ts[0] == Nothing
    && forall k :: 0 <= k < |ops| ==> Shaped(ts[k]) && Possible(ts[k], ops[k]) && ts[k + 1] == After(ts[k], ops[k])
  }

  /** In every state of every run the counts are right and slots that wait have sessions to wait for. */
  lemma {:induction false} RunKeepsCounts(ts: seq<Table>, ops: seq<Op>, k: nat)
    requires Run(ts, ops) && k < |ts|
    ensures Good(ts[k])
  {
    if k > 0 {
      RunKeepsCounts(ts, ops, k - 1);
      AfterKeeps(ts[k - 1], ops[k - 1]);
    }
  }

  /** A table with one software driver, registered at slot 0. */
  function OneDriver(algs: seq<int>): Table
    requires |algs| == ALGORITHMS + 1
  {
    Registered(Reserved(Grown(Nothing, INITIAL), 0, true), 0, algs, true, true, true)
  }

  lemma OneDriverIsGood(algs: seq<int>)
    requires |algs| == ALGORITHMS + 1
    ensures Good(OneDriver(algs)) && Chosen(OneDriver(algs), [], false, 0) && OneDriver(algs).open == {}
  {
    GrownKeeps(Nothing, INITIAL);
    var t0 := Grown(Nothing, INITIAL);
    ReservedKeeps(t0, 0, true);
    RegisteredKeeps(Reserved(t0, 0, true), 0, algs, true, true, true);
    var t := OneDriver(algs);
    assert forall i :: 0 <= i < 4 && Usable(t.drivers[i], []) ==> i == 0;
  }

  /** Registering again with a session open: the count is zero. */
  lemma RegisteringTwiceLosesCount(algs: seq<int>)
    requires |algs| == ALGORITHMS + 1
    ensures var t := Opened(OneDriver(algs), 7);
      var again := Registered(t, 0, algs, true, true, true);
      Good(t) && 7 in again.open && again.drivers[0].sessions == 0 && !Good(again)
  {
    OneDriverIsGood(algs);
    OpenedKeeps(OneDriver(algs), 7);
    var t := Opened(OneDriver(algs), 7);
    assert 7 in SessionsOf(t.open, 0);
    RegisteredKeeps(t, 0, algs, true, true, true);
  }

  /** Two sessions, one of them freed twice: the count is zero with the other still open. */
  lemma FreeingTwiceExample(algs: seq<int>)
    requires |algs| == ALGORITHMS + 1
    ensures var t := Opened(Opened(OneDriver(algs), 7), 8);
      var twice := Closed(Closed(t, 7), 7);
      Good(t) && 8 in twice.open && twice.drivers[0].sessions == 0 && !Good(twice)
  {
    OneDriverIsGood(algs);
    OpenedKeeps(OneDriver(algs), 7);
    OpenedKeeps(Opened(OneDriver(algs), 7), 8);
    FreeingTwiceLosesCount(Opened(Opened(OneDriver(algs), 7), 8), 7, 8);
  }

  // ----- the code

  datatype Status = Done | Einval | Enoent | Failed(error: int)

  class Registry {
    var drivers: seq<Driver>
    ghost var open: set<nat>
    ghost var reserved: seq<bool>

    ghost function Value(): Table
      reads this
    {
      Table(drivers, open, reserved)
    }

    constructor ()
      ensures Value() == Nothing && Good(Value())
    {
      drivers, open, reserved := [], {}, [];
    }

    method Mark(i: nat, software: bool)
      requires Shaped(Value()) && i < |drivers|
      modifies this
      ensures Value() == Reserved(old(Value()), i, software)
    {
      drivers := drivers[i := drivers[i].(sessions := 1, software := software, cleanup := false)];
      reserved := reserved[i := true];
    }

    method Enlarge(n: nat)
      modifies this
      ensures Value() == Grown(old(Value()), n)
    {
      drivers := drivers + seq(n, _ => Empty());
      reserved := reserved + seq(n, _ => false);
    }

    /** crypto_get_driverid; `memory` says whether the allocator has some. */
    method GetDriverId(software: bool, memory: bool) returns (id: int)
      requires Shaped(Value())
      modifies this
      ensures id < 0 ==> id == -1 && Value() == old(Value())
      ensures id < 0 <==> NoneFree(old(drivers), |old(drivers)|) && (!memory || |old(drivers)| >= MAXIMUM)
      ensures id >= 0 ==> var t := old(Value());
        var base := if !NoneFree(t.drivers, |t.drivers|) then t
                    else Grown(t, if t.drivers == [] then INITIAL else |t.drivers|);
        && Shaped(base) && id < |base.drivers| && Free(base.drivers[id]) && NoneFree(base.drivers, id)
        && Value() == Reserved(base, id, software)
      ensures Good(old(Value())) ==> Good(Value())
      ensures Good(old(Value())) && id >= 0 ==> SessionsOf(open, id) == {}
    {
      hide Good;
      if |drivers| == 0 {
        if !memory { return -1; }
        GrownIsFree(Value(), INITIAL);
        if Good(Value()) { GrownKeeps(Value(), INITIAL); }
        Enlarge(INITIAL);
      }
      var i: nat := 0;
      while i < |drivers|
        invariant i <= |drivers| && NoneFree(drivers, i)
      {
        if Free(drivers[i]) {
          if Good(Value()) { ReservedKeeps(Value(), i, software); }
          Mark(i, software);
          return i;
        }
        i := i + 1;
      }
      if |drivers| >= MAXIMUM || !memory { return -1; }
      GrownIsFree(Value(), |drivers|);
      if Good(Value()) { GrownKeeps(Value(), |drivers|); }
      Enlarge(|drivers|);
      if Good(Value()) { ReservedKeeps(Value(), i, software); }
      Mark(i, software);
      id := i;
    }

    /** crypto_register. */
    method Register(id: nat, alg: seq<int>, n: bool, f: bool, p: bool) returns (r: Status)
      requires Shaped(Value()) && |alg| == ALGORITHMS + 1
      modifies this
      ensures r == if id < |old(drivers)| then Done else Einval
      ensures Value() == if r.Done? then Registered(old(Value()), id, alg, n, f, p) else old(Value())
      ensures r.Done? && Good(old(Value())) ==>
        (Good(Value()) <==> SessionsOf(open, id) == {} && !old(drivers)[id].cleanup)
      ensures r.Done? ==> drivers[id].alg == alg && !reserved[id] &&
                          Usable(drivers[id], []) == (n && !old(drivers)[id].cleanup)
    {
      hide Good;
      if id < |drivers| && Good(Value()) { RegisteredKeeps(Value(), id, alg, n, f, p); }
      if id >= |drivers| { return Einval; }
      drivers := drivers[id := drivers[id].(alg := alg)];
      drivers := drivers[id := drivers[id].(newsession := n)];
      drivers := drivers[id := drivers[id].(process := p)];
      drivers := drivers[id := drivers[id].(freesession := f)];
      drivers := drivers[id := drivers[id].(sessions := 0)];
      reserved := reserved[id := false];
      r := Done;
    }

    /** crypto_unregister; `behind` is what is stored behind the array of algorithms. */
    method Unregister(id: nat, alg: int, behind: int) returns (r: Status)
      requires Shaped(Value())
      modifies this
      ensures r == if Removable(old(Value()), id, alg, behind) then Done else Einval
      ensures Value() == if r.Done? then Unregistered(old(Value()), id, alg) else old(Value())
      ensures Good(old(Value())) ==> Good(Value())
      ensures r.Done? ==> OnlyAt(old(Value()), Value(), id) && open == old(open) && Shaped(Value())
      ensures r.Done? ==> TakenOff(old(drivers)[id], alg, drivers[id])
    {
      hide Good, OnlyAt, TakenOff;
      if Removable(Value(), id, alg, behind) { UnregisteredMeans(Value(), id, alg); }
      if Good(Value()) && Removable(Value(), id, alg, behind) { UnregisteredKeeps(Value(), id, alg); }
      var i: nat := ALGORITHMS + 1;
      if id >= |drivers| || ((alg <= 0 || alg > ALGORITHMS) && alg != ALGORITHMS + 1) { return Einval; }
      if (if alg == ALGORITHMS + 1 then behind else drivers[id].alg[alg]) == 0 { return Einval; }
      if alg != ALGORITHMS + 1 {
        drivers := drivers[id := drivers[id].(alg := drivers[id].alg[alg := 0])];
        i := 1;
        while i <= ALGORITHMS && drivers[id].alg[i] == 0
          invariant 1 <= i <= ALGORITHMS + 1
          invariant forall j :: 1 <= j < i ==> drivers[id].alg[j] == 0
        {
          i := i + 1;
        }
      }
      if i == ALGORITHMS + 1 || alg == ALGORITHMS + 1 {
        var ses := drivers[id].sessions;
        drivers := drivers[id := Empty()];
        if ses != 0 {
          drivers := drivers[id := drivers[id].(cleanup := true)];
          drivers := drivers[id := drivers[id].(sessions := ses)];
        }
      }
      r := Done;
    }

    /** The inner loop: does the driver do everything that is asked for? */
    method Check(d: Driver, wanted: seq<nat>) returns (ok: bool)
      requires |d.alg| == ALGORITHMS + 1 && forall k :: 0 <= k < |wanted| ==> wanted[k] <= ALGORITHMS
      ensures ok <==> Supports(d, wanted)
    {
      var k: nat := 0;
      while k < |wanted|
        invariant k <= |wanted| && forall j :: 0 <= j < k ==> d.alg[wanted[j]] != 0
      {
        if d.alg[wanted[k]] == 0 { return false; }
        k := k + 1;
      }
      ok := true;
    }

    /** One pass over the table. */
    method Pass(wanted: seq<nat>, turn: nat) returns (best: int)
      requires Shaped(Value()) && forall k :: 0 <= k < |wanted| ==> wanted[k] <= ALGORITHMS
      ensures Best(Value(), wanted, turn, |drivers|, best)
    {
      hide Supports;
      best := -1;
      var hid: nat := 0;
      while hid < |drivers|
        invariant hid <= |drivers| && Best(Value(), wanted, turn, hid, best)
      {
        var d := drivers[hid];
        if d.newsession && !d.cleanup && !(d.software && turn == 0) && !(!d.software && turn == 1) {
          var ok := Check(d, wanted);
          if ok {
            if best != -1 {
              if d.sessions <= drivers[best].sessions {
                best := hid;
              }
            } else {
              best := hid;
            }
          }
        }
        hid := hid + 1;
      }
    }

    /** The search of crypto_newsession. */
    method Choose(wanted: seq<nat>, hard: bool) returns (h: int)
      requires Shaped(Value()) && forall k :: 0 <= k < |wanted| ==> wanted[k] <= ALGORITHMS
      ensures Chosen(Value(), wanted, hard, h)
    {
      hide Usable;
      h := Pass(wanted, 0);
      var turn: nat := 1;
      while h == -1 && turn <= 2 && !hard
        invariant 1 <= turn <= 3 && Best(Value(), wanted, if turn == 1 then 0 else 1, |drivers|, h)
        invariant turn > 1 ==> !hard && Best(Value(), wanted, 0, |drivers|, -1)
      {
        h := Pass(wanted, turn);
        turn := turn + 1;
      }
    }

    /** crypto_newsession; `answer` is what the driver's own routine gives: an error and its session number. */
    method NewSession(wanted: seq<nat>, hard: bool, answer: (int, nat)) returns (r: Status, sid: nat)
      requires Shaped(Value()) && forall k :: 0 <= k < |wanted| ==> wanted[k] <= ALGORITHMS
      modifies this
      ensures r.Done? ==> sid / WORD < |old(drivers)| && Chosen(old(Value()), wanted, hard, sid / WORD)
      ensures r.Done? ==> sid % WORD == answer.1 % WORD && answer.0 == 0
      ensures r.Einval? <==> Chosen(old(Value()), wanted, hard, -1)
      ensures !r.Enoent? && (r.Failed? ==> r.error == answer.0 != 0)
      ensures Value() == if r.Done? then Opened(old(Value()), sid) else old(Value())
      ensures Good(old(Value())) ==> (Good(Value()) <==> !r.Done? || sid !in old(open))
    {
      hide Best, Supports, Good;
      sid := 0;
      if |drivers| == 0 {
        NoDriver(Value(), wanted, hard);
        return Einval, 0;
      }
      var h := Choose(wanted, hard);
      ChosenMeans(Value(), wanted, hard, h);
      OneChoice(Value(), wanted, hard, h);
      if h == -1 { return Einval, 0; }
      if answer.0 != 0 { return Failed(answer.0), 0; }
      sid := h * WORD + answer.1 % WORD;
      if Good(Value()) { OpenedKeeps(Value(), sid); }
      drivers := drivers[h := drivers[h].(sessions := drivers[h].sessions + 1)];
      open := open + {sid};
      r := Done;
    }

    /** crypto_freesession; `answer` is what the driver's own routine gives. */
    method FreeSession(sid: nat, answer: int) returns (r: Status)
      requires Shaped(Value()) && sid < WORD * WORD
      modifies this
      ensures r.Einval? <==> old(drivers) == []
      ensures r.Enoent? <==> old(drivers) != [] && sid / WORD >= |old(drivers)|
      ensures !r.Einval? && !r.Enoent? ==>
        r == if old(drivers)[sid / WORD].freesession && answer != 0 then Failed(answer) else Done
      ensures Value() == if r.Einval? || r.Enoent? then old(Value()) else Closed(old(Value()), sid)
      ensures Good(old(Value())) && !r.Einval? && !r.Enoent? ==>
        (Good(Value()) <==> sid in old(open) || SessionsOf(old(open), sid / WORD) == {})
    {
      hide Good;
      if |drivers| == 0 { return Einval; }
      var hid := sid / WORD % WORD;
      assert hid == sid / WORD;
      if hid >= |drivers| { return Enoent; }
      if Good(Value()) { ClosedKeeps(Value(), sid); }
      if drivers[hid].sessions > 0 {
        drivers := drivers[hid := drivers[hid].(sessions := drivers[hid].sessions - 1)];
      }
      r := if drivers[hid].freesession && answer != 0 then Failed(answer) else Done;
      if drivers[hid].cleanup && drivers[hid].sessions == 0 {
        drivers := drivers[hid := Empty()];
      }
      reserved := if SessionsOf(open, hid) == {} then reserved[hid := false] else reserved;
      open := open - {sid};
    }
  }

  lemma GrownIsFree(t: Table, n: nat)
    requires Shaped(t) && n > 0
    ensures Shaped(Grown(t, n)) && Free(Grown(t, n).drivers[|t.drivers|])
    ensures NoneFree(t.drivers, |t.drivers|) ==> NoneFree(Grown(t, n).drivers, |t.drivers|)
  {}

  lemma NoDriver(t: Table, wanted: seq<nat>, hard: bool)
    requires Shaped(t) && t.drivers == []
    ensures Chosen(t, wanted, hard, -1)
  {}

  /** There is only one choice. */
  lemma OneChoice(t: Table, wanted: seq<nat>, hard: bool, h: int)
    requires Shaped(t) && Chosen(t, wanted, hard, h)
    ensures Chosen(t, wanted, hard, -1) <==> h == -1
  {}
}
