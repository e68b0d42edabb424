/**
 The reference-count discipline of the transaction tree, for every run of the operations of
 `DmsgState` on any number of iocoms.

 `Inv(l, x)` also accounts for `x`, the references the running code holds in local variables
 between two steps of one operation; between operations `x` is empty.
 */
module DmsgRefs {
  import opened Options
  import opened DmsgState

  /** Structures stacked directly under `r`. */
  ghost function Kids(mem: map<Ref, State>, r: Ref): set<Ref> {
    set t | t in mem && t != r && mem[t].parent == Some(r)
  }

  /** Structures that relay to `r`. */
  ghost function Users(mem: map<Ref, State>, r: Ref): set<Ref> {
    set t | t in mem && mem[t].relay == Some(r)
  }

  function Base(s: State): nat { if s.root || s.inserted then 1 else 0 }

  /** TAILQ_REMOVE: the others stay in their order. */
  lemma {:induction false} WithoutKeepsOrder(a: seq<Ref>, r: Ref, b: seq<Ref>)
    requires r !in a
    ensures Without(a + [r] + b, r) == a + b
  {
    var q := a + [r] + b;
    if a == [] {
      assert q[0] == r && q[1..] == b;
    } else {
      assert q[0] == a[0] && q[1..] == a[1..] + [r] + b;
      WithoutKeepsOrder(a[1..], r, b);
      assert a == [a[0]] + a[1..];
    }
  }

  predicate Distinct(q: seq<Ref>) {
    forall i, j :: 0 <= i < j < |q| ==> q[i] != q[j]
  }

  function KeyOf(s: State): Key { Key(s.iocom, s.msgid) }

  /** The flags of a structure fit together. */
  predicate Flagged(r: Ref, s: State) {
    && r != 0
    && (s.root ==> s.parent == Some(r) && s.iocom == r && s.msgid == 0 && !s.inserted && s.relay.None?)
    && (s.root ==> s.txcmd == NoFlags)
    && (!s.root ==> (s.inserted <==> s.parent.Some?) && (s.relay.Some? ==> s.inserted))
    && (s.inserted ==> s.txcmd.reply == s.opposite && s.rxcmd.reply == !s.opposite)
  }

  /** Pointers lead to allocated structures. */
  predicate Linked(mem: map<Ref, State>, r: Ref, s: State) {
    && (!s.root && s.parent.Some? ==>
          s.parent.value != r && s.parent.value in mem && mem[s.parent.value].iocom == s.iocom)
    && s.iocom in mem && mem[s.iocom].root
    && (s.relay.Some? ==> s.relay.value != r && s.relay.value in mem)
  }

  /** A parent's queue holds exactly the structures stacked under it. */
  ghost predicate Queued(mem: map<Ref, State>, r: Ref, s: State) {
    Distinct(s.subq) && forall t :: t in s.subq <==> t in Kids(mem, r)
  }

  /** The count is the number of references: index, children, relay users, running code. */
  ghost predicate Counted(mem: map<Ref, State>, r: Ref, s: State, x: multiset<Ref>) {
    s.refs >= 1 && s.refs == Base(s) + |Kids(mem, r)| + |Users(mem, r)| + x[r]
  }

  /** An inserted transaction is found in the tree of its side under its id. */
  predicate Indexed(l: Lib, r: Ref, s: State) {
    s.inserted ==>
      if s.opposite then KeyOf(s) in l.rd && l.rd[KeyOf(s)] == r
      else KeyOf(s) in l.wr && l.wr[KeyOf(s)] == r && s.msgid == r
  }

  /** Everything the invariant says about the structure at `r`. */
  ghost predicate At(l: Lib, r: Ref, x: multiset<Ref>)
    requires r in l.mem
  {
    var s := l.mem[r];
    Flagged(r, s) && Linked(l.mem, r, s) && Queued(l.mem, r, s) && Counted(l.mem, r, s, x) && Indexed(l, r, s)
  }

  /** A tree entry leads to an inserted transaction of that side and that id. */
  predicate Entry(l: Lib, k: Key, r: Ref, opposite: bool) {
    r in l.mem && l.mem[r].inserted && !l.mem[r].root && l.mem[r].opposite == opposite && KeyOf(l.mem[r]) == k
  }

  predicate Trees(l: Lib) {
    && (forall k {:trigger l.rd[k]} :: k in l.rd ==> Entry(l, k, l.rd[k], true))
    && (forall k {:trigger l.wr[k]} :: k in l.wr ==> Entry(l, k, l.wr[k], false))
  }

  ghost predicate Inv(l: Lib, x: multiset<Ref>) {
    && (forall r {:trigger At(l, r, x)} :: r in l.mem ==> At(l, r, x))
    && Trees(l)
    && (forall r {:trigger x[r]} :: x[r] > 0 ==> r in l.mem)
  }

  // ----- hold and drop

  function WithRefs(l: Lib, r: Ref, n: int): Lib
    requires r in l.mem
  {
    l.(mem := l.mem[r := l.mem[r].(refs := n)])
  }

  lemma RecountAt(l: Lib, r: Ref, n: int, x: multiset<Ref>, y: multiset<Ref>, t: Ref)
    requires r in l.mem && t in l.mem && At(l, t, x)
    requires n >= 1 && n + x[r] == l.mem[r].refs + y[r]
    requires t != r ==> y[t] == x[t]
    ensures At(WithRefs(l, r, n), t, y)
  {
    var mem := WithRefs(l, r, n).mem;
    assert Kids(mem, t) == Kids(l.mem, t);
    assert Users(mem, t) == Users(l.mem, t);
  }

  lemma Recount(l: Lib, r: Ref, n: int, x: multiset<Ref>, y: multiset<Ref>)
    requires Inv(l, x) && r in l.mem
    requires n >= 1 && n + x[r] == l.mem[r].refs + y[r]
    requires forall t :: t != r ==> y[t] == x[t]
    ensures Inv(WithRefs(l, r, n), y)
  {
    var l' := WithRefs(l, r, n);
    forall t | t in l'.mem
      ensures At(l', t, y)
    {
      RecountAt(l, r, n, x, y, t);
    }
    TreesSame(l, r, l'.mem[r]);
  }

  lemma TreesSame(l: Lib, r: Ref, s: State)
    requires Trees(l) && r in l.mem
    requires KeyOf(s) == KeyOf(l.mem[r]) && s.inserted == l.mem[r].inserted
    requires s.root == l.mem[r].root && s.opposite == l.mem[r].opposite
    ensures Trees(l.(mem := l.mem[r := s]))
  {
  }

  lemma HoldKeeps(l: Lib, r: Ref, x: multiset<Ref>)
    requires Inv(l, x) && r in l.mem
    ensures Inv(Hold(l, r), x + multiset{r})
  {
    assert At(l, r, x);
    Recount(l, r, l.mem[r].refs + 1, x, x + multiset{r});
  }

  lemma NoKids(mem: map<Ref, State>, r: Ref, s: State)
    requires Queued(mem, r, s)
    ensures Kids(mem, r) == {} ==> s.subq == []
  {
    if s.subq != [] {
      assert s.subq[0] in Kids(mem, r);
    }
  }

  /** Giving up a held reference never fails, and frees exactly when it was the last one. */
  lemma DropKeeps(l: Lib, r: Ref, x: multiset<Ref>)
    requires Inv(l, x) && x[r] > 0
    ensures Drop(l, r).Ok?
    ensures Inv(Drop(l, r).value, x - multiset{r})
    ensures r !in Drop(l, r).value.mem <==>
      Base(l.mem[r]) == 0 && Kids(l.mem, r) == {} && Users(l.mem, r) == {} && x[r] == 1
  {
    assert At(l, r, x);
    var s := l.mem[r];
    if s.refs != 1 {
      Recount(l, r, s.refs - 1, x, x - multiset{r});
    } else {
      assert Base(s) == 0 && Kids(l.mem, r) == {} && Users(l.mem, r) == {};
      NoKids(l.mem, r, s);
      FreeKeeps(l, r, x);
    }
  }

  lemma FreeAt(l: Lib, r: Ref, x: multiset<Ref>, t: Ref)
    requires r in l.mem && t in l.mem && t != r && At(l, t, x) && At(l, r, x) && x[r] == 1
    requires Base(l.mem[r]) == 0 && Kids(l.mem, r) == {} && Users(l.mem, r) == {}
    ensures At(l.(mem := l.mem - {r}), t, x - multiset{r})
  {
    var mem := l.mem - {r};
    assert t !in Kids(l.mem, r) && t !in Users(l.mem, r);
    assert Kids(mem, t) == Kids(l.mem, t);
    assert Users(mem, t) == Users(l.mem, t);
  }

  lemma FreeTrees(l: Lib, r: Ref)
    requires Trees(l) && r in l.mem && Base(l.mem[r]) == 0
    ensures Trees(l.(mem := l.mem - {r}))
  {
    var l' := l.(mem := l.mem - {r});
    forall k | k in l.rd ensures Entry(l', k, l.rd[k], true) { assert Entry(l, k, l.rd[k], true); }
    forall k | k in l.wr ensures Entry(l', k, l.wr[k], false) { assert Entry(l, k, l.wr[k], false); }
  }

  lemma FreeKeeps(l: Lib, r: Ref, x: multiset<Ref>)
    requires Inv(l, x) && x[r] == 1 && r in l.mem
    requires Base(l.mem[r]) == 0 && Kids(l.mem, r) == {} && Users(l.mem, r) == {}
    ensures Inv(l.(mem := l.mem - {r}), x - multiset{r})
  {
    hide At, Kids, Users, Trees;
    var l' := l.(mem := l.mem - {r});
    assert At(l, r, x);
    forall t | t in l'.mem
      ensures At(l', t, x - multiset{r})
    {
      assert At(l, t, x);
      FreeAt(l, r, x, t);
    }
    FreeTrees(l, r);
  }

  // ----- retiring a transaction

  lemma {:induction false} WithoutRemoves(q: seq<Ref>, r: Ref)
    requires Distinct(q)
    ensures Distinct(Without(q, r))
    ensures forall t :: t in Without(q, r) <==> t in q && t != r
  {
    if q != [] {
      assert q == [q[0]] + q[1..];
      assert q[0] !in q[1..];
      if q[0] != r {
        WithoutRemoves(q[1..], r);
      }
    }
  }

  /** The references that unlinking `r` leaves in the hands of the code. */
  function Released(s: State, r: Ref): multiset<Ref>
    requires s.parent.Some?
  {
    multiset{s.parent.value, r} + (if s.relay.Some? then multiset{s.relay.value} else multiset{})
  }

  function Unlinked(l: Lib, r: Ref): Lib
    requires r in l.mem && l.mem[r].parent.Some? && l.mem[r].parent.value in l.mem
  {
    Unlink(l, r, l.mem[r].parent.value, KeyOf(l.mem[r]), l.mem[r].opposite)
  }

  lemma UnlinkKids(l: Lib, r: Ref, t: Ref)
    requires CanUnlink(l, r)
    ensures Kids(Unlinked(l, r).mem, t) == Kids(l.mem, t) - {r}
    ensures r in Kids(l.mem, t) <==> t == l.mem[r].parent.value
  {
  }

  lemma UnlinkUsers(l: Lib, r: Ref, t: Ref)
    requires CanUnlink(l, r)
    ensures Users(Unlinked(l, r).mem, t) == Users(l.mem, t) - {r}
    ensures r in Users(l.mem, t) <==> l.mem[r].relay == Some(t)
  {
  }

  predicate CanUnlink(l: Lib, r: Ref) {
    r in l.mem && l.mem[r].parent.Some? && l.mem[r].parent.value in l.mem && l.mem[r].parent.value != r
  }

  lemma UnlinkQueued(l: Lib, r: Ref, t: Ref)
    requires CanUnlink(l, r) && t in l.mem && Queued(l.mem, t, l.mem[t])
    ensures var mem := Unlinked(l, r).mem; t in mem && Queued(mem, t, mem[t])
  {
    UnlinkKids(l, r, t);
    WithoutRemoves(l.mem[t].subq, r);
  }

  lemma UnlinkCounted(l: Lib, r: Ref, x: multiset<Ref>, t: Ref)
    requires CanUnlink(l, r) && l.mem[r].inserted && t in l.mem && Counted(l.mem, t, l.mem[t], x)
    requires !l.mem[r].root && l.mem[r].relay != Some(r)
    ensures var mem := Unlinked(l, r).mem;
            t in mem && Counted(mem, t, mem[t], x + Released(l.mem[r], r))
  {
    UnlinkKids(l, r, t);
    UnlinkUsers(l, r, t);
  }

  lemma UnlinkAt(l: Lib, r: Ref, x: multiset<Ref>, t: Ref)
    requires r in l.mem && t in l.mem && At(l, r, x) && At(l, t, x)
    requires l.mem[r].inserted && !l.mem[r].root
    ensures t in Unlinked(l, r).mem && At(Unlinked(l, r), t, x + Released(l.mem[r], r))
  {
    UnlinkQueued(l, r, t);
    UnlinkCounted(l, r, x, t);
  }

  lemma UnlinkTrees(l: Lib, r: Ref, x: multiset<Ref>)
    requires Inv(l, x) && r in l.mem && l.mem[r].inserted && At(l, r, x)
    ensures Trees(Unlinked(l, r))
  {
    var l' := Unlinked(l, r);
    var s := l.mem[r];
    forall k | k in l'.rd
      ensures Entry(l', k, l'.rd[k], true)
    {
      assert Entry(l, k, l.rd[k], true);
    }
    forall k | k in l'.wr
      ensures Entry(l', k, l'.wr[k], false)
    {
      assert Entry(l, k, l.wr[k], false);
    }
  }

  lemma UnlinkKeeps(l: Lib, r: Ref, x: multiset<Ref>)
    requires Inv(l, x) && r in l.mem && l.mem[r].inserted && At(l, r, x)
    ensures Inv(Unlinked(l, r), x + Released(l.mem[r], r))
  {
    var l', y := Unlinked(l, r), x + Released(l.mem[r], r);
    forall t | t in l'.mem
      ensures At(l', t, y)
    {
      assert At(l, t, x);
      UnlinkAt(l, r, x, t);
    }
    UnlinkTrees(l, r, x);
  }

  lemma DropOne(l: Lib, r: Ref, x: multiset<Ref>)
    requires Inv(l, x + multiset{r})
    ensures Drop(l, r).Ok? && Inv(Drop(l, r).value, x)
  {
    DropKeeps(l, r, x + multiset{r});
    assert x + multiset{r} - multiset{r} == x;
  }

  lemma DropTwo(l: Lib, p: Ref, r: Ref, x: multiset<Ref>)
    requires Inv(l, x + multiset{p, r})
    ensures Drop(l, p).Ok?
    ensures Drop(Drop(l, p).value, r).Ok? && Inv(Drop(Drop(l, p).value, r).value, x)
  {
    assert x + multiset{p, r} == x + multiset{r} + multiset{p};
    DropOne(l, p, x + multiset{r});
    DropOne(Drop(l, p).value, r, x);
  }

  lemma ReleaseKeeps(l: Lib, p: Ref, relay: Option<Ref>, r: Ref, x: multiset<Ref>)
    requires Inv(l, x + multiset{p, r} + if relay.Some? then multiset{relay.value} else multiset{})
    ensures Release(l, p, relay, r).Ok?
    ensures Inv(Release(l, p, relay, r).value, x)
  {
    if relay.Some? {
      assert x + multiset{p, r} + multiset{relay.value} == x + multiset{relay.value, r} + multiset{p};
      DropOne(l, p, x + multiset{relay.value, r});
      DropTwo(Drop(l, p).value, relay.value, r, x);
    } else {
      assert x + multiset{p, r} + multiset{} == x + multiset{p, r};
      DropTwo(l, p, r, x);
    }
  }

  /** Retiring an inserted transaction succeeds and leaves the invariant as it was. */
  lemma RetireKeeps(l: Lib, r: Ref, x: multiset<Ref>)
    requires Inv(l, x) && r in l.mem && l.mem[r].inserted && At(l, r, x)
    ensures Retire(l, r, l.mem[r].opposite).Ok?
    ensures Inv(Retire(l, r, l.mem[r].opposite).value, x)
  {
    var s := l.mem[r];
    UnlinkKeeps(l, r, x);
    assert x + Released(s, r) ==
           x + multiset{s.parent.value, r} + if s.relay.Some? then multiset{s.relay.value} else multiset{};
    ReleaseKeeps(Unlinked(l, r), s.parent.value, s.relay, r, x);
  }

  // ----- opening a transaction

  /** What the code puts in a structure it has just allocated under `p`. */
  predicate Fresh(l: Lib, p: Ref, r: Ref, s: State) {
    && p in l.mem && r !in l.mem && r != 0
    && s.parent == Some(p) && s.iocom == l.mem[p].iocom && s.relay.None? && s.subq == []
    && !s.root && s.inserted && s.refs == 1
    && s.txcmd.reply == s.opposite && s.rxcmd.reply == !s.opposite
    && (if s.opposite then KeyOf(s) !in l.rd else s.msgid == r && KeyOf(s) !in l.wr)
  }

  lemma EnterKids(l: Lib, p: Ref, r: Ref, s: State, t: Ref)
    requires Fresh(l, p, r, s)
    ensures Kids(Enter(l, p, r, s).mem, t) == if t == p then Kids(l.mem, t) + {r} else Kids(l.mem, t)
    ensures r !in Kids(l.mem, t)
  {
  }

  lemma EnterUsers(l: Lib, p: Ref, r: Ref, s: State, t: Ref)
    requires Fresh(l, p, r, s)
    ensures Users(Enter(l, p, r, s).mem, t) == Users(l.mem, t)
  {
  }

  lemma EnterQueued(l: Lib, p: Ref, r: Ref, s: State, t: Ref)
    requires Fresh(l, p, r, s) && t in l.mem && Queued(l.mem, t, l.mem[t])
    ensures var mem := Enter(l, p, r, s).mem; Queued(mem, t, mem[t])
  {
    hide Inserted;
    EnterKids(l, p, r, s, t);
    if t == p {
      assert r !in l.mem[t].subq;
    }
  }

  lemma EnterCounted(l: Lib, p: Ref, r: Ref, s: State, x: multiset<Ref>, t: Ref)
    requires Fresh(l, p, r, s) && t in l.mem && Counted(l.mem, t, l.mem[t], x)
    ensures var mem := Enter(l, p, r, s).mem; Counted(mem, t, mem[t], x)
  {
    hide Inserted;
    EnterKids(l, p, r, s, t);
    EnterUsers(l, p, r, s, t);
  }

  lemma EnterLinked(l: Lib, p: Ref, r: Ref, s: State, t: Ref)
    requires Fresh(l, p, r, s) && t in l.mem && Linked(l.mem, t, l.mem[t]) && Indexed(l, t, l.mem[t])
    ensures var l' := Enter(l, p, r, s); Linked(l'.mem, t, l'.mem[t]) && Indexed(l', t, l'.mem[t])
  {
  }

  lemma EnterOld(l: Lib, p: Ref, r: Ref, s: State, x: multiset<Ref>, t: Ref)
    requires Fresh(l, p, r, s) && t in l.mem && At(l, t, x)
    ensures At(Enter(l, p, r, s), t, x)
  {
    EnterQueued(l, p, r, s, t);
    EnterCounted(l, p, r, s, x, t);
    EnterLinked(l, p, r, s, t);
  }

  lemma EnterAlone(l: Lib, p: Ref, r: Ref, s: State, x: multiset<Ref>)
    requires Inv(l, x) && Fresh(l, p, r, s)
    ensures Kids(Enter(l, p, r, s).mem, r) == {} && Users(Enter(l, p, r, s).mem, r) == {} && x[r] == 0
  {
    hide Inserted, Queued, Counted, Indexed;
    assert At(l, p, x);
    EnterKids(l, p, r, s, r);
    EnterUsers(l, p, r, s, r);
    assert Kids(l.mem, r) == {} by {
      forall t | t in l.mem ensures l.mem[t].parent != Some(r) || t == r { assert At(l, t, x); }
    }
    assert Users(l.mem, r) == {} by {
      forall t | t in l.mem ensures l.mem[t].relay != Some(r) { assert At(l, t, x); }
    }
  }

  lemma EnterNew(l: Lib, p: Ref, r: Ref, s: State, x: multiset<Ref>)
    requires Inv(l, x) && Fresh(l, p, r, s)
    ensures At(Enter(l, p, r, s), r, x)
  {
    hide Kids, Users;
    assert At(l, p, x);
    EnterAlone(l, p, r, s, x);
  }

  lemma EnterTrees(l: Lib, p: Ref, r: Ref, s: State)
    requires Trees(l) && Fresh(l, p, r, s)
    ensures Trees(Enter(l, p, r, s))
  {
    var l' := Enter(l, p, r, s);
    forall k | k in l'.rd
      ensures Entry(l', k, l'.rd[k], true)
    {
      if k in l.rd { assert Entry(l, k, l.rd[k], true); }
    }
    forall k | k in l'.wr
      ensures Entry(l', k, l'.wr[k], false)
    {
      if k in l.wr { assert Entry(l, k, l.wr[k], false); }
    }
  }

  lemma EnterKeeps(l: Lib, p: Ref, r: Ref, s: State, x: multiset<Ref>)
    requires Inv(l, x) && Fresh(l, p, r, s)
    ensures Inv(Enter(l, p, r, s), x)
  {
    var l' := Enter(l, p, r, s);
    forall t | t in l'.mem
      ensures At(l', t, x)
    {
      if t == r {
        EnterNew(l, p, r, s, x);
      } else {
        assert At(l, t, x);
        EnterOld(l, p, r, s, x, t);
      }
    }
    EnterTrees(l, p, r, s);
  }

  // ----- flag bits and relays

  lemma SameKids(mem: map<Ref, State>, r: Ref, s: State, t: Ref)
    requires r in mem && s.parent == mem[r].parent
    ensures Kids(mem[r := s], t) == Kids(mem, t)
  {
  }

  lemma SameUsers(mem: map<Ref, State>, r: Ref, s: State, t: Ref)
    requires r in mem && s.relay == mem[r].relay
    ensures Users(mem[r := s], t) == Users(mem, t)
  {
  }

  lemma NewUser(mem: map<Ref, State>, r: Ref, s: State, q: Ref, t: Ref)
    requires r in mem && mem[r].relay.None? && s.relay == Some(q)
    ensures Users(mem[r := s], t) == if t == q then Users(mem, t) + {r} else Users(mem, t)
    ensures r !in Users(mem, t)
  {
  }

  function WithFlags(l: Lib, r: Ref, tx: Dir, rx: Dir): Lib
    requires r in l.mem
  {
    l.(mem := l.mem[r := l.mem[r].(txcmd := tx, rxcmd := rx)])
  }

  function WithRelay(l: Lib, r: Ref, q: Ref): Lib
    requires r in l.mem
  {
    l.(mem := l.mem[r := l.mem[r].(relay := Some(q))])
  }

  lemma FlagsAt(l: Lib, r: Ref, tx: Dir, rx: Dir, x: multiset<Ref>, t: Ref)
    requires r in l.mem && !l.mem[r].root && t in l.mem && At(l, t, x)
    requires tx.reply == l.mem[r].txcmd.reply && rx.reply == l.mem[r].rxcmd.reply
    ensures At(WithFlags(l, r, tx, rx), t, x)
  {
    SameKids(l.mem, r, l.mem[r].(txcmd := tx, rxcmd := rx), t);
    SameUsers(l.mem, r, l.mem[r].(txcmd := tx, rxcmd := rx), t);
  }

  /** Changing flag bits other than REPLY touches nothing the invariant speaks of. */
  lemma FlagsKeep(l: Lib, r: Ref, tx: Dir, rx: Dir, x: multiset<Ref>)
    requires Inv(l, x) && r in l.mem && !l.mem[r].root
    requires tx.reply == l.mem[r].txcmd.reply && rx.reply == l.mem[r].rxcmd.reply
    ensures Inv(WithFlags(l, r, tx, rx), x)
  {
    var l' := WithFlags(l, r, tx, rx);
    forall t | t in l'.mem
      ensures At(l', t, x)
    {
      assert At(l, t, x);
      FlagsAt(l, r, tx, rx, x, t);
    }
    TreesSame(l, r, l'.mem[r]);
  }

  lemma RelayAt(l: Lib, r: Ref, q: Ref, x: multiset<Ref>, t: Ref)
    requires r in l.mem && q in l.mem && q != r && t in l.mem && At(l, t, x + multiset{q})
    requires !l.mem[r].root && l.mem[r].inserted && l.mem[r].relay.None?
    ensures At(WithRelay(l, r, q), t, x)
  {
    SameKids(l.mem, r, l.mem[r].(relay := Some(q)), t);
    NewUser(l.mem, r, l.mem[r].(relay := Some(q)), q, t);
  }

  /** A relay pointer takes over a reference the code holds. */
  lemma RelayKeeps(l: Lib, r: Ref, q: Ref, x: multiset<Ref>)
    requires Inv(l, x + multiset{q}) && r in l.mem && q != r
    requires !l.mem[r].root && l.mem[r].inserted && l.mem[r].relay.None?
    ensures Inv(WithRelay(l, r, q), x)
  {
    var l' := WithRelay(l, r, q);
    var y := x + multiset{q};
    assert y[q] > 0;
    forall t | t in l'.mem
      ensures At(l', t, x)
    {
      assert At(l, t, y);
      RelayAt(l, r, q, x, t);
    }
    TreesSame(l, r, l'.mem[r]);
    assert forall t :: x[t] > 0 ==> y[t] > 0;
  }

  // ----- what an operation leaves alone

  /** Nothing but reference counts changed, and some structures may have been freed. */
  predicate Shrinks(l: Lib, l': Lib) {
    && l'.rd == l.rd && l'.wr == l.wr
    && (forall t :: t in l'.mem ==> t in l.mem && l'.mem[t] == l.mem[t].(refs := l'.mem[t].refs))
    && (forall t :: t in l.mem && Base(l.mem[t]) == 1 ==> t in l'.mem)
  }

  lemma DropShrinks(l: Lib, r: Ref)
    requires Drop(l, r).Ok?
    ensures Shrinks(l, Drop(l, r).value)
  {
  }

  lemma ShrinksMore(l: Lib, l1: Lib, l2: Lib)
    requires Shrinks(l, l1) && Shrinks(l1, l2)
    ensures Shrinks(l, l2)
  {
  }

  lemma ReleaseShrinks(l: Lib, p: Ref, relay: Option<Ref>, r: Ref)
    requires Release(l, p, relay, r).Ok?
    ensures Shrinks(l, Release(l, p, relay, r).value)
  {
    DropShrinks(l, p);
    var l1 := Drop(l, p).value;
    if relay.Some? {
      DropShrinks(l1, relay.value);
      var l2 := Drop(l1, relay.value).value;
      ShrinksMore(l, l1, l2);
      DropShrinks(l2, r);
      ShrinksMore(l, l2, Drop(l2, r).value);
    } else {
      DropShrinks(l1, r);
      ShrinksMore(l, l1, Drop(l1, r).value);
    }
  }

  /** Retiring `r` changes no transaction but `r`, which leaves its tree. */
  predicate Retired(l: Lib, r: Ref, l': Lib)
    requires r in l.mem
  {
    && (forall t :: t in l'.mem ==> t in l.mem)
    && (forall t :: t in l.mem && t != r && Base(l.mem[t]) == 1 ==> t in l'.mem)
    && (forall t :: t in l'.mem && t != r ==>
          l'.mem[t] == l.mem[t].(refs := l'.mem[t].refs, subq := l'.mem[t].subq))
    && (r in l'.mem ==>
          l'.mem[r] == l.mem[r].(inserted := false, parent := None, relay := None,
                                 refs := l'.mem[r].refs, subq := l'.mem[r].subq))
    && l'.rd == (if l.mem[r].opposite then l.rd - {KeyOf(l.mem[r])} else l.rd)
    && l'.wr == (if l.mem[r].opposite then l.wr else l.wr - {KeyOf(l.mem[r])})
  }

  lemma UnlinkEffect(l: Lib, r: Ref)
    requires CanUnlink(l, r)
    ensures Retired(l, r, Unlinked(l, r))
  {
  }

  lemma RetiredShrinks(l: Lib, r: Ref, u: Lib, l': Lib)
    requires r in l.mem && Retired(l, r, u) && Shrinks(u, l')
    ensures Retired(l, r, l')
  {
  }

  lemma RetireEffect(l: Lib, r: Ref)
    requires r in l.mem && l.mem[r].parent != Some(r) && Retire(l, r, l.mem[r].opposite).Ok?
    ensures Retired(l, r, Retire(l, r, l.mem[r].opposite).value)
  {
    var s := l.mem[r];
    UnlinkEffect(l, r);
    ReleaseShrinks(Unlinked(l, r), s.parent.value, s.relay, r);
    RetiredShrinks(l, r, Unlinked(l, r), Retire(l, r, s.opposite).value);
  }

  // ----- every run

  /** No inserted transaction is closed in both directions. */
  predicate Settled(l: Lib) {
    forall r :: r in l.mem && l.mem[r].inserted ==> !(l.mem[r].txcmd.delete && l.mem[r].rxcmd.delete)
  }

  ghost predicate Sound(l: Lib) { Inv(l, multiset{}) && Settled(l) }

  /** The transaction `r` may transmit. */
  predicate Sendable(l: Lib, r: Ref) {
    && r in l.mem && !l.mem[r].root && l.mem[r].inserted && !l.mem[r].txcmd.delete
    && l.mem[r].parent.Some? && l.mem[r].parent.value in l.mem
    && !l.mem[l.mem[r].parent.value].txcmd.delete
  }

  /** Set the flags of a transaction and retire it if both directions are closed. */
  function Update(l: Lib, r: Ref, tx: Dir, rx: Dir): Outcome<Lib>
    requires r in l.mem
  {
    if tx.delete && rx.delete then Retire(WithFlags(l, r, tx, rx), r, l.mem[r].opposite)
    else Ok(WithFlags(l, r, tx, rx))
  }

  /** The transmit flags after `cmd` has been written. */
  function Written(tx: Dir, cmd: Cmd): Dir {
    Dir(tx.create || cmd.create, cmd.delete, tx.reply)
  }

  lemma WriteIsUpdate(l: Lib, r: Ref, cmd: Cmd)
    requires Sendable(l, r) && cmd.reply == l.mem[r].txcmd.reply == l.mem[r].opposite
    requires Update(l, r, Written(l.mem[r].txcmd, cmd), l.mem[r].rxcmd).Ok?
    ensures Write(l, r, cmd).Ok?
    ensures Write(l, r, cmd).value.0 == Update(l, r, Written(l.mem[r].txcmd, cmd), l.mem[r].rxcmd).value
    ensures Write(l, r, cmd).value.1 == Header(l, r, cmd)
  {
    var s := l.mem[r];
    var tx := Written(s.txcmd, cmd);
    if cmd.create {
      var l1 := WithFlags(l, r, Dir(true, false, cmd.reply), s.rxcmd);
      assert WithFlags(l1, r, tx, s.rxcmd) == WithFlags(l, r, tx, s.rxcmd);
    } else if !cmd.delete {
      assert WithFlags(l, r, tx, s.rxcmd).mem == l.mem;
    }
  }

  /** `r` is an open transaction. */
  predicate Stands(l: Lib, r: Ref) { r in l.mem && l.mem[r].inserted }

  lemma CleanupTxKeeps(l: Lib, r: Ref, cmd: Cmd)
    requires Sound(l) && r in l.mem && l.mem[r].inserted && !l.mem[r].txcmd.delete
    requires cmd.reply == l.mem[r].txcmd.reply
    ensures CleanupTx(l, r, cmd).Ok? && Sound(CleanupTx(l, r, cmd).value)
    ensures Stands(CleanupTx(l, r, cmd).value, r) <==> !(cmd.delete && l.mem[r].rxcmd.delete)
  {
    hide Queued, Counted, Indexed, Retire;
    var s := l.mem[r];
    assert At(l, r, multiset{});
    if cmd.delete {
      var l1 := WithFlags(l, r, s.txcmd.(delete := true), s.rxcmd);
      assert l1 == l.(mem := l.mem[r := s.(txcmd := s.txcmd.(delete := true))]);
      FlagsKeep(l, r, s.txcmd.(delete := true), s.rxcmd, multiset{});
      if s.rxcmd.delete {
        assert At(l1, r, multiset{});
        RetireKeeps(l1, r, multiset{});
        RetireEffect(l1, r);
      }
    }
  }

  lemma RetireNeedsEntry(l: Lib, r: Ref, fromRd: bool)
    requires r in l.mem && !l.mem[r].inserted
    ensures Retire(l, r, fromRd).Fault?
  {
  }

  /** A clean-up of the received command `cmd` on `r` trips no assertion. */
  predicate Cleanable(l: Lib, r: Ref, cmd: Cmd) {
    && r in l.mem
    && var s := l.mem[r];
       s.root || !cmd.delete || !s.txcmd.delete || (s.inserted && cmd.reply == s.rxcmd.reply)
  }

  /** Whatever message is cleaned up after: the assertions hold exactly if it is `Cleanable`. */
  lemma CleanupRxKeeps(l: Lib, r: Ref, cmd: Cmd)
    requires Sound(l)
    ensures CleanupRx(l, r, cmd).Ok? <==> Cleanable(l, r, cmd)
    ensures CleanupRx(l, r, cmd).Ok? ==>
              var l' := CleanupRx(l, r, cmd).value;
              Sound(l') && (Stands(l', r) <==> Stands(l, r) && !(cmd.delete && l.mem[r].txcmd.delete))
  {
    hide Queued, Counted, Indexed, Retire;
    if Cleanable(l, r, cmd) && !l.mem[r].root && cmd.delete {
      var s := l.mem[r];
      assert At(l, r, multiset{});
      var l1 := WithFlags(l, r, s.txcmd, s.rxcmd.(delete := true));
      assert l1 == l.(mem := l.mem[r := s.(rxcmd := s.rxcmd.(delete := true))]);
      FlagsKeep(l, r, s.txcmd, s.rxcmd.(delete := true), multiset{});
      if s.txcmd.delete {
        assert At(l1, r, multiset{});
        RetireKeeps(l1, r, multiset{});
        RetireEffect(l1, r);
      }
    } else if r in l.mem {
      assert At(l, r, multiset{});
      if !l.mem[r].inserted {
        RetireNeedsEntry(WithFlags(l, r, l.mem[r].txcmd, l.mem[r].rxcmd.(delete := true)), r, !l.mem[r].rxcmd.reply);
      }
    }
  }

  lemma WriteKeeps(l: Lib, r: Ref, cmd: Cmd)
    requires Sound(l) && Sendable(l, r) && cmd.reply == l.mem[r].txcmd.reply
    ensures Write(l, r, cmd).Ok? && Sound(Write(l, r, cmd).value.0)
  {
    var s := l.mem[r];
    if cmd.create {
      var l1 := WithFlags(l, r, Dir(true, false, cmd.reply), s.rxcmd);
      assert l1 == l.(mem := l.mem[r := s.(txcmd := Dir(true, false, cmd.reply))]);
      FlagsKeep(l, r, Dir(true, false, cmd.reply), s.rxcmd, multiset{});
      CleanupTxKeeps(l1, r, cmd);
    } else {
      CleanupTxKeeps(l, r, cmd);
    }
  }

  /** No transaction of this end goes by the address of a structure that is not allocated. */
  lemma NewKey(l: Lib, p: Ref, r: Ref)
    requires Sound(l) && p in l.mem && r !in l.mem
    ensures Key(l.mem[p].iocom, r) !in l.wr
  {
    forall k | k in l.wr
      ensures k.msgid in l.mem
    {
      assert Entry(l, k, l.wr[k], false);
      assert At(l, l.wr[k], multiset{});
    }
  }

  lemma OpenKeeps(l: Lib, p: Ref, r: Ref)
    requires Sound(l) && p in l.mem && r !in l.mem && r != 0
    ensures Fresh(l, p, r, Local(l, p, r)) && Sound(Open(l, p, r))
  {
    NewKey(l, p, r);
    EnterKeeps(l, p, r, Local(l, p, r), multiset{});
  }

  /**
   A message that starts a transaction is looked up on the side its REVTRANS bit names, but the
   transaction is entered on the other end's side; there its id may already be in use.
   */
  predicate Collides(l: Lib, io: Ref, m: Msg) {
    m.cmd.create && !m.cmd.reply && m.cmd.revtrans && Key(io, m.msgid) !in l.wr && Key(io, m.msgid) in l.rd
  }

  /** Whatever message is received, the invariant is kept exactly if its id is not taken in that way. */
  lemma MsgRxKeeps(l: Lib, io: Ref, m: Msg, addr: Ref)
    requires Sound(l) && addr !in l.mem && addr != 0
    requires io in l.mem && l.mem[io].root
    ensures MsgRx(l, io, m, addr).Ok? ==> (Sound(MsgRx(l, io, m, addr).value.0) <==> !Collides(l, io, m))
  {
    var rx := MsgRx(l, io, m, addr);
    if rx.Ok? {
      assert At(l, io, multiset{});
      if Collides(l, io, m) {
        CollisionLoses(l, io, m, addr);
      } else {
        MsgRxSound(l, io, m, addr);
      }
    }
  }

  lemma MsgRxSound(l: Lib, io: Ref, m: Msg, addr: Ref)
    requires Sound(l) && addr !in l.mem && addr != 0
    requires io in l.mem && l.mem[io].root && !Collides(l, io, m) && MsgRx(l, io, m, addr).Ok?
    ensures Sound(MsgRx(l, io, m, addr).value.0)
  {
    var p := Circuit(l, io, m).value;
    match Lookup(l, io, m)
    case Some(r) =>
      if m.cmd.create {
        assert At(l, r, multiset{});
        FlagsKeep(l, r, l.mem[r].txcmd, Dir(true, false, m.cmd.reply), multiset{});
      }
    case None =>
      if m.cmd.create && !m.cmd.reply {
        CircuitHome(l, io, m);
        EnterKeeps(l, p, addr, Remote(l, p, m), multiset{});
      }
  }

  /** A circuit belongs to the iocom its messages come from. */
  lemma CircuitHome(l: Lib, io: Ref, m: Msg)
    requires Sound(l) && io in l.mem && l.mem[io].root && Circuit(l, io, m).Some?
    ensures Circuit(l, io, m).value in l.mem && l.mem[Circuit(l, io, m).value].iocom == io
  {
    assert At(l, io, multiset{});
  }

  /** The transaction such a message starts is marked as inserted but is in neither tree. */
  lemma CollisionLoses(l: Lib, io: Ref, m: Msg, addr: Ref)
    requires Sound(l) && addr !in l.mem && addr != 0
    requires io in l.mem && l.mem[io].root && Collides(l, io, m) && MsgRx(l, io, m, addr).Ok?
    ensures var l' := MsgRx(l, io, m, addr).value.0;
            && addr in l'.mem && l'.mem[addr].inserted
            && (forall k :: k in l'.rd ==> l'.rd[k] != addr) && (forall k :: k in l'.wr ==> l'.wr[k] != addr)
            && !Sound(l')
  {
    var p := Circuit(l, io, m).value;
    CircuitHome(l, io, m);
    var l' := MsgRx(l, io, m, addr).value.0;
    assert l' == Enter(l, p, addr, Remote(l, p, m));
    forall k | k in l.rd ensures l.rd[k] != addr { assert Entry(l, k, l.rd[k], true); }
    forall k | k in l.wr ensures l.wr[k] != addr { assert Entry(l, k, l.wr[k], false); }
    assert !At(l', addr, multiset{});
  }

  /** Such a message after an ordinary one: a connection with one transaction of the other end's. */
  lemma CollisionExample()
    ensures var l0 := Lib(map[1 := Root(1)], map[], map[]);
            var m := Msg(7, 0, Cmd(true, false, false, false, false, false));
            var first := MsgRx(l0, 1, m, 2);
            && first.Ok? && Sound(first.value.0)
            && var second := MsgRx(first.value.0, 1, m.(cmd := m.cmd.(revtrans := true)), 3);
               second.Ok? && !Sound(second.value.0)
  {
    var l0 := Lib(map[1 := Root(1)], map[], map[]);
    var m := Msg(7, 0, Cmd(true, false, false, false, false, false));
    assert Kids(l0.mem, 1) == {} && Users(l0.mem, 1) == {};
    assert At(l0, 1, multiset{});
    MsgRxKeeps(l0, 1, m, 2);
    var l1 := MsgRx(l0, 1, m, 2).value.0;
    MsgRxKeeps(l1, 1, m.(cmd := m.cmd.(revtrans := true)), 3);
  }

  lemma SeedRelayKeeps(l: Lib, r: Ref, target: Ref)
    requires Sound(l) && r in l.mem && target in l.mem && target != r
    requires !l.mem[r].root && l.mem[r].inserted && l.mem[r].relay.None?
    ensures Sound(SeedRelay(l, r, target))
  {
    HoldKeeps(l, target, multiset{});
    RelayKeeps(Hold(l, target), r, target, multiset{});
    assert SeedRelay(l, r, target) == WithRelay(Hold(l, target), r, target);
  }

  lemma HoldBoth(l: Lib, a: Ref, b: Ref)
    requires Inv(l, multiset{}) && a in l.mem && b in l.mem
    ensures Inv(Hold(Hold(l, a), b), multiset{b} + multiset{a})
  {
    HoldKeeps(l, a, multiset{});
    assert multiset{} + multiset{a} == multiset{a};
    HoldKeeps(Hold(l, a), b, multiset{a});
    assert multiset{a} + multiset{b} == multiset{b} + multiset{a};
  }

  /** Two structures that relay to each other hold one another. */
  lemma TieKeeps(l: Lib, a: Ref, b: Ref)
    requires Sound(l) && a in l.mem && b in l.mem && a != b
    requires !l.mem[a].root && l.mem[a].inserted && l.mem[a].relay.None?
    requires !l.mem[b].root && l.mem[b].inserted && l.mem[b].relay.None?
    ensures Sound(Hold(Hold(WithRelay(WithRelay(l, b, a), a, b), a), b))
  {
    hide Inv;
    var h := Hold(Hold(l, a), b);
    HoldBoth(l, a, b);
    RelayKeeps(h, b, a, multiset{b});
    assert multiset{} + multiset{b} == multiset{b};
    RelayKeeps(WithRelay(h, b, a), a, b, multiset{});
    assert Hold(Hold(WithRelay(WithRelay(l, b, a), a, b), a), b) == WithRelay(WithRelay(h, b, a), a, b);
  }

  lemma RelayOpenKeeps(l: Lib, left: Ref, right: Ref)
    requires Sound(l) && left in l.mem && !l.mem[left].root && right !in l.mem && right != 0
    ensures RelayOpen(l, left, right).Ok? ==> Sound(RelayOpen(l, left, right).value)
  {
    if RelayOpen(l, left, right).Ok? {
      assert At(l, left, multiset{});
      var target := l.mem[l.mem[left].parent.value].relay.value;
      OpenKeeps(l, target, right);
      var l1 := Open(l, target, right);
      assert l1.mem[left] == l.mem[left].(refs := l1.mem[left].refs, subq := l1.mem[left].subq);
      assert l1.mem[right] == Local(l, target, right);
      TieKeeps(l1, left, right);
      assert RelayOpen(l, left, right).value ==
             Hold(Hold(WithRelay(WithRelay(l1, right, left), left, right), left), right);
    }
  }

  // ----- no transaction is its own ancestor

  predicate RankAt(mem: map<Ref, State>, rank: map<Ref, nat>, r: Ref)
    requires r in mem
  {
    && r in rank
    && (!mem[r].root && mem[r].parent.Some? ==>
          mem[r].parent.value in rank && rank[mem[r].parent.value] < rank[r])
  }

  predicate Ranked(mem: map<Ref, State>, rank: map<Ref, nat>) {
    forall r {:trigger RankAt(mem, rank, r)} :: r in mem ==> RankAt(mem, rank, r)
  }

  ghost predicate Forest(l: Lib) { exists rank :: Ranked(l.mem, rank) }

  /** No structure of `l'` is new or has a parent it did not have in `l`. */
  predicate NoNewParent(l: Lib, l': Lib) {
    forall t :: t in l'.mem ==>
      t in l.mem && l'.mem[t].root == l.mem[t].root && (l'.mem[t].parent == l.mem[t].parent || l'.mem[t].parent.None?)
  }

  lemma ForestShrinks(l: Lib, l': Lib)
    requires Forest(l) && NoNewParent(l, l')
    ensures Forest(l')
  {
    var rank :| Ranked(l.mem, rank);
    assert Ranked(l'.mem, rank) by {
      forall r | r in l'.mem ensures RankAt(l'.mem, rank, r) { assert RankAt(l.mem, rank, r); }
    }
  }

  lemma ForestGrows(l: Lib, p: Ref, r: Ref, s: State)
    requires Forest(l) && Fresh(l, p, r, s) && Inv(l, multiset{})
    ensures Forest(Enter(l, p, r, s))
  {
    var rank :| Ranked(l.mem, rank);
    var l' := Enter(l, p, r, s);
    assert RankAt(l.mem, rank, p);
    var rank' := rank[r := rank[p] + 1];
    assert Ranked(l'.mem, rank') by {
      forall t | t in l'.mem ensures RankAt(l'.mem, rank', t) {
        if t != r {
          assert RankAt(l.mem, rank, t);
          assert At(l, t, multiset{});
        }
      }
    }
  }
}
