/**
 Two ends running the transaction code over ordered, lossless links, with transactions stacked
 to any depth and with ids taken again as soon as they are free.
 */
module DmsgProtocol {
  import opened Options
  import opened DmsgState
  import opened DmsgRefs
  import DmsgRuns
  import opened DmsgStream
  import opened DmsgPeers

  /** The message whose handler is running: received, and not yet retired. */
  datatype Cur = Cur(r: Ref, cmd: Cmd)

  datatype Node = Node(l: Lib, cur: Option<Cur>)

  /** `ab` is on the way from `a` to `b`, `ba` the other way. */
  datatype Sys = Sys(a: Node, b: Node, ab: seq<Msg>, ba: seq<Msg>)

  function Flip(s: Sys): Sys { Sys(s.b, s.a, s.ba, s.ab) }

  /** What one end may do next. */
  datatype Act =
    | Begin(parent: Ref, addr: Ref)             // allocate a transaction, at any free address
    | Start(r: Ref, last: bool, abort: bool)    // write its first message
    | Answer(r: Ref, last: bool, abort: bool)   // write a further message, or a reply
    | OneOff(reply: bool)                       // a message outside transactions
    | Receive(addr: Ref)                        // dmsg_state_msgrx on the next message
    | Finish                                    // dmsg_state_cleanuprx when its handler is done

  /** A transaction is started after the one it is stacked under. */
  predicate CanDo(s: Sys, act: Act) {
    match act
    case Begin(p, addr) => DmsgRuns.Allowed(s.a.l, DmsgRuns.Begin(p, addr))
    case Start(r, last, _) => DmsgRuns.Allowed(s.a.l, DmsgRuns.Start(r, last)) && Reached(s.a.l, r)
    case Answer(r, last, _) =>
      DmsgRuns.Allowed(s.a.l, DmsgRuns.Answer(r, last)) && (s.a.l.mem[r].opposite || s.a.l.mem[r].txcmd.create)
    case OneOff(_) => true
    case Receive(addr) => s.a.cur.None? && s.ba != [] && addr !in s.a.l.mem && addr != 0
    case Finish => s.a.cur.Some?
  }

  /** The end `a` acts. */
  function Do(s: Sys, act: Act): Outcome<Sys>
    requires CanDo(s, act)
  {
    match act
    case Begin(p, addr) => Ok(s.(a := s.a.(l := Open(s.a.l, p, addr))))
    case Start(r, last, abort) =>
      var w :- Write(s.a.l, r, DmsgRuns.FirstCmd.(delete := last, abort := abort));
      Ok(s.(a := s.a.(l := w.0), ab := s.ab + [w.1]))
    case Answer(r, last, abort) =>
      if s.a.l.mem[r].txcmd.delete then Ok(s)
      else
        var w :- Write(s.a.l, r, ReplyCmd(s.a.l.mem[r], last).(abort := abort));
        Ok(s.(a := s.a.(l := w.0), ab := s.ab + [w.1]))
    case OneOff(reply) =>
      Ok(s.(ab := s.ab + [Msg(0, 0, Cmd(false, false, reply, false, false, false))]))
    case Receive(addr) =>
      var rx :- MsgRx(s.a.l, ROOT, s.ba[0], addr);
      Ok(s.(a := Node(rx.0, Some(Cur(rx.1, s.ba[0].cmd))), ba := s.ba[1..]))
    case Finish =>
      var l :- CleanupRx(s.a.l, s.a.cur.value.r, s.a.cur.value.cmd);
      Ok(s.(a := Node(l, None)))
  }

  const Fresh0 := Lib(map[ROOT := Root(ROOT)], map[], map[])

  /** A connection just made. */
  const Init := Sys(Node(Fresh0, None), Node(Fresh0, None), [], [])

  /** Who acts, and how. */
  datatype Move = Move(byA: bool, act: Act)

  /** Moves in turn; one that is not possible when its turn comes is passed over. */
  function Run(s: Sys, moves: seq<Move>): Outcome<Sys>
    decreases |moves|
  {
    if moves == [] then Ok(s)
    else
      var m := moves[0];
      if m.byA then
        if !CanDo(s, m.act) then Run(s, moves[1..])
        else
          var s1 :- Do(s, m.act);
          Run(s1, moves[1..])
      else
        if !CanDo(Flip(s), m.act) then Run(s, moves[1..])
        else
          var s1 :- Do(Flip(s), m.act);
          Run(Flip(s1), moves[1..])
  }

  // ----- the same with every transaction and every message labelled

  /** A message, and the use of an id that it is about. */
  datatype Letter = Letter(m: Msg, tag: Tag)

  datatype End = End(n: Node, g: map<Ref, Tag>)

  /** `next` numbers the transactions. */
  datatype World = World(a: End, b: End, ab: seq<Letter>, ba: seq<Letter>, next: nat)

  function Msgs(ch: seq<Letter>): seq<Msg> { seq(|ch|, i requires 0 <= i < |ch| => ch[i].m) }

  /** What the program has of it. */
  function Erase(w: World): Sys { Sys(w.a.n, w.b.n, Msgs(w.ab), Msgs(w.ba)) }

  function Turn(w: World): World { World(w.b, w.a, w.ba, w.ab, w.next) }

  // ----- messages about one id

  predicate About(m: Msg, rev: bool, id: nat) { m.cmd.revtrans == rev && m.msgid == id }

  predicate Under(m: Msg, rev: bool, id: nat) { m.circuit != 0 && m.cmd.revcirc == rev && m.circuit == id }

  function Up(t: Tag): Tag { if t.Top? then Top else t.up }

  /** What a message is to the transaction with one id. */
  function Items(x: Letter, rev: bool, id: nat): seq<Item> {
    (if Under(x.m, rev, id) then [Sub(Up(x.tag))] else []) +
    (if About(x.m, rev, id) then [Own(x.m.cmd, x.tag)] else [])
  }

  /** The messages of a link about one id, and those on it as a circuit. */
  function Proj(ch: seq<Letter>, rev: bool, id: nat): seq<Item> {
    if ch == [] then [] else Items(ch[0], rev, id) + Proj(ch[1..], rev, id)
  }

  lemma {:induction false} ProjAppend(ch: seq<Letter>, x: Letter, rev: bool, id: nat)
    ensures Proj(ch + [x], rev, id) == Proj(ch, rev, id) + Items(x, rev, id)
  {
    hide Items;
    if ch == [] {
      assert ch + [x] == [x];
    } else {
      assert (ch + [x])[1..] == ch[1..] + [x];
      ProjAppend(ch[1..], x, rev, id);
      var h, t, z := Items(ch[0], rev, id), Proj(ch[1..], rev, id), Items(x, rev, id);
      assert h + (t + z) == h + t + z;
    }
  }

  /** What the running handler's message still has to do to a transaction. */
  function Held(e: End, rev: bool, id: nat): seq<Item> {
    if e.n.cur.None? then []
    else
      var r := e.n.cur.value.r;
      if r in e.n.l.mem && r in e.g && r != ROOT && e.n.l.mem[r].opposite == !rev && e.n.l.mem[r].msgid == id
      then Pending(Own(e.n.cur.value.cmd, e.g[r])) else []
  }

  /** Everything about one id that the receiver `e` has not acted on. */
  function Stream(e: End, ch: seq<Letter>, rev: bool, id: nat): seq<Item> {
    Held(e, rev, id) + Proj(ch, rev, id)
  }

  /** Messages these ends send. */
  predicate Proper(x: Letter) {
    var m := x.m;
    if m.msgid == 0 then
      m.circuit == 0 && !m.cmd.abort && !m.cmd.create && !m.cmd.delete && !m.cmd.revtrans
    else
      && x.tag.Tag? && m.cmd.reply == m.cmd.revtrans && (m.circuit == 0 ==> x.tag.up == Top)
      && (m.circuit != 0 ==> !Under(m, m.cmd.revtrans, m.msgid))
  }

  predicate ProperAll(ch: seq<Letter>) { forall i :: 0 <= i < |ch| ==> Proper(ch[i]) }

  /** The handler's transaction is still there and has not been closed by its peer before. */
  predicate CurOk(l: Lib, c: Cur) {
    && c.r in l.mem
    && (c.r != ROOT ==> l.mem[c.r].inserted && !l.mem[c.r].rxcmd.delete && c.cmd.reply == l.mem[c.r].rxcmd.reply)
  }

  ghost predicate EndOk(e: End) {
    && Tidy(e.n.l, e.g)
    && View(e.n.l, e.g, true, 0).None?
    && (e.n.cur.Some? ==> CurOk(e.n.l, e.n.cur.value))
  }

  /** What `e` keeps under `id`. */
  function Seen(e: End, opp: bool, id: nat): Option<Half> { View(e.n.l, e.g, opp, id) }

  /** The two ends agree on what `ini` keeps, under `id`, of the transactions it started. */
  ghost predicate Same(ini: End, res: End, fwd: seq<Letter>, back: seq<Letter>, id: nat) {
    Agreed(Seen(ini, false, id), Seen(res, true, id), Stream(res, fwd, false, id), Stream(ini, back, true, id))
  }

  ghost predicate SameAll(ini: End, res: End, fwd: seq<Letter>, back: seq<Letter>) {
    forall id {:trigger Same(ini, res, fwd, back, id)} :: id != 0 ==> Same(ini, res, fwd, back, id)
  }

  // ----- labels are never used twice

  predicate Below(t: Tag, n: nat) { t.Tag? ==> t.serial < n }

  predicate AllBelow(g: map<Ref, Tag>, ch: seq<Letter>, n: nat) {
    && (forall r :: r in g ==> Below(g[r], n))
    && (forall i :: 0 <= i < |ch| ==> Below(ch[i].tag, n))
  }

  /** The message opens a transaction at the receiver. */
  predicate Starts(x: Letter) { x.m.msgid != 0 && x.m.cmd.create && !x.m.cmd.reply }

  predicate NotIn(t: Tag, g: map<Ref, Tag>) { forall q :: q in g ==> g[q] != t }

  predicate NoStart(t: Tag, ch: seq<Letter>) { forall i :: 0 <= i < |ch| && Starts(ch[i]) ==> ch[i].tag != t }

  predicate Unsent(s: State) { !s.root && !s.opposite && s.inserted && !s.txcmd.create }

  /** What has not been started is not known to the other end. */
  predicate Secret(ini: End, g: map<Ref, Tag>, ch: seq<Letter>) {
    forall r {:trigger ini.n.l.mem[r]} :: r in ini.n.l.mem && r in ini.g && Unsent(ini.n.l.mem[r]) ==>
      NotIn(ini.g[r], g) && NoStart(ini.g[r], ch)
  }

  /** What is on its way to open a transaction opens a new one. */
  predicate News(g: map<Ref, Tag>, ch: seq<Letter>) {
    && (forall i :: 0 <= i < |ch| && Starts(ch[i]) ==> NotIn(ch[i].tag, g))
    && (forall i, j :: 0 <= i < j < |ch| && Starts(ch[i]) && Starts(ch[j]) ==> ch[i].tag != ch[j].tag)
  }

  predicate Once(ini: End, res: End, ch: seq<Letter>, n: nat) {
    Secret(ini, res.g, ch) && News(res.g, ch) && AllBelow(ini.g, ch, n)
  }

  ghost predicate Fits(w: World) {
    && EndOk(w.a) && EndOk(w.b) && ProperAll(w.ab) && ProperAll(w.ba)
    && Once(w.a, w.b, w.ab, w.next) && Once(w.b, w.a, w.ba, w.next)
    && SameAll(w.a, w.b, w.ab, w.ba) && SameAll(w.b, w.a, w.ba, w.ab)
  }

  /** The two ends and the links between them belong together. */
  ghost predicate Good(s: Sys) { exists w :: Fits(w) && Erase(w) == s }

  lemma InitGood()
    ensures Good(Init)
  {
    var e := End(Init.a, map[ROOT := Top]);
    var w := World(e, e, [], [], 0);
    assert At(Fresh0, ROOT, multiset{}) by {
      assert Kids(Fresh0.mem, ROOT) == {};
      assert Users(Fresh0.mem, ROOT) == {};
    }
    forall id | id != 0
      ensures Same(e, e, [], [], id)
    {
      assert NotYet(None, None, [], []);
    }
    assert Erase(w) == Init;
  }

  // ----- labels

  /** A transaction that is not started now was not started before the step, or is the one stepped. */
  lemma UnsentBefore(e: End, e': End, opp: bool, id: nat, v: Option<Half>, q: Ref)
    requires Tidy(e.n.l, e.g) && Tidy(e'.n.l, e'.g) && Changed(e.n.l, e.g, e'.n.l, e'.g, opp, id, v)
    requires q in e'.n.l.mem && Unsent(e'.n.l.mem[q])
    ensures if !opp && id == q then v.Some? && !v.value.tx.create && v.value.tag == e'.g[q]
            else q in e.n.l.mem && Unsent(e.n.l.mem[q]) && e.g[q] == e'.g[q]
  {
    ViewOf(e'.n.l, e'.g, q);
    if opp || id != q {
      ViewEntry(e.n.l, e.g, false, q);
      var r := Tree(e.n.l, false)[Key(ROOT, q)];
      ViewOf(e.n.l, e.g, r);
      assert Plain(r, e.n.l.mem[r]);
    }
  }

  lemma SecretKeeps(e: End, e': End, opp: bool, id: nat, v: Option<Half>, g: map<Ref, Tag>, ch: seq<Letter>)
    requires Tidy(e.n.l, e.g) && Tidy(e'.n.l, e'.g) && Changed(e.n.l, e.g, e'.n.l, e'.g, opp, id, v)
    requires Secret(e, g, ch)
    requires v.Some? && !opp && !v.value.tx.create ==> NotIn(v.value.tag, g) && NoStart(v.value.tag, ch)
    ensures Secret(e', g, ch)
  {
    forall q | q in e'.n.l.mem && q in e'.g && Unsent(e'.n.l.mem[q])
      ensures NotIn(e'.g[q], g) && NoStart(e'.g[q], ch)
    {
      UnsentBefore(e, e', opp, id, v, q);
    }
  }

  /** Forgetting labels, and having fewer messages on the way, keeps labels single. */
  lemma SecretLess(e: End, g: map<Ref, Tag>, g': map<Ref, Tag>, ch: seq<Letter>)
    requires Secret(e, g, ch) && News(g, ch) && forall q :: q in g' ==> q in g && g'[q] == g[q]
    ensures Secret(e, g', ch) && News(g', ch)
  {
    forall t | NotIn(t, g)
      ensures NotIn(t, g')
    {
    }
  }

  lemma NextStart(e: End, g: map<Ref, Tag>, ch: seq<Letter>)
    requires Secret(e, g, ch) && News(g, ch) && ch != []
    ensures Secret(e, g, ch[1..]) && News(g, ch[1..])
  {
    forall t | NoStart(t, ch)
      ensures NoStart(t, ch[1..])
    {
    }
  }

  /** A transaction opened by the first message on the way is none of those still to come. */
  lemma Opened(e: End, g: map<Ref, Tag>, ch: seq<Letter>, addr: Ref)
    requires Secret(e, g, ch) && News(g, ch) && ch != [] && Starts(ch[0])
    ensures Secret(e, g[addr := ch[0].tag], ch[1..]) && News(g[addr := ch[0].tag], ch[1..])
  {
    var t0 := ch[0].tag;
    forall t | NotIn(t, g) && t != t0
      ensures NotIn(t, g[addr := t0])
    {
    }
    forall q | q in e.n.l.mem && q in e.g && Unsent(e.n.l.mem[q])
      ensures NotIn(e.g[q], g[addr := t0]) && NoStart(e.g[q], ch[1..])
    {
      assert NoStart(e.g[q], ch);
    }
    forall i | 0 <= i < |ch[1..]| && Starts(ch[1..][i])
      ensures NotIn(ch[1..][i].tag, g[addr := t0])
    {
      assert ch[1..][i] == ch[i + 1];
    }
  }

  /** One more message that starts nothing, or starts what had not been started. */
  lemma NewsMore(g: map<Ref, Tag>, ch: seq<Letter>, x: Letter)
    requires News(g, ch) && (Starts(x) ==> NotIn(x.tag, g) && NoStart(x.tag, ch))
    ensures News(g, ch + [x])
  {
  }

  lemma SecretMore(e: End, g: map<Ref, Tag>, ch: seq<Letter>, x: Letter)
    requires Secret(e, g, ch)
    requires Starts(x) ==> forall q :: q in e.n.l.mem && q in e.g && Unsent(e.n.l.mem[q]) ==> e.g[q] != x.tag
    ensures Secret(e, g, ch + [x])
  {
    forall t | NoStart(t, ch) && (Starts(x) ==> t != x.tag)
      ensures NoStart(t, ch + [x])
    {
    }
  }

  // ----- one end acts

  /** The handler that is running is not affected by the change of `e` to `e'`. */
  predicate Undisturbed(e: End, e': End) {
    && e'.n.cur == e.n.cur
    && (e.n.cur.Some? ==> e.n.cur.value.r in e.n.l.mem && Stays(e.n.l, e.g, e'.n.l, e'.g, e.n.cur.value.r))
  }

  lemma HeldSame(e: End, e': End, rev: bool, id: nat)
    requires Undisturbed(e, e')
    ensures Held(e', rev, id) == Held(e, rev, id)
  {
  }

  lemma StreamMore(e: End, ch: seq<Letter>, x: Letter, rev: bool, id: nat)
    ensures Stream(e, ch + [x], rev, id) == Stream(e, ch, rev, id) + Items(x, rev, id)
  {
    ProjAppend(ch, x, rev, id);
  }

  /** After `a` has become `a'` and sent `x`, the ends agree on `id`, a transaction of `a`. */
  ghost predicate SentOwn(w: World, a': End, x: Letter, id: nat) {
    Agreed(Seen(a', false, id), Seen(w.b, true, id),
           Stream(w.b, w.ab, false, id) + Items(x, false, id), Stream(w.a, w.ba, true, id))
  }

  /** The same of a transaction of the other end. */
  ghost predicate SentBack(w: World, a': End, x: Letter, id: nat) {
    Agreed(Seen(w.b, false, id), Seen(a', true, id),
           Stream(w.a, w.ba, false, id), Stream(w.b, w.ab, true, id) + Items(x, true, id))
  }

  lemma OnceLess(e: End, a: End, a': End, ch: seq<Letter>, n: nat)
    requires Once(e, a, ch, n) && forall q :: q in a'.g ==> q in a.g && a'.g[q] == a.g[q]
    ensures Once(e, a', ch, n)
  {
    SecretLess(e, a.g, a'.g, ch);
  }

  lemma Sends(w: World, a': End, x: Letter)
    requires Fits(w) && Proper(x) && EndOk(a') && Undisturbed(w.a, a')
    requires Once(a', w.b, w.ab + [x], w.next) && forall q :: q in a'.g ==> q in w.a.g && a'.g[q] == w.a.g[q]
    requires forall id :: id != 0 ==> SentOwn(w, a', x, id) && SentBack(w, a', x, id)
    ensures Fits(w.(a := a', ab := w.ab + [x]))
  {
    hide EndOk, Once, Agreed;
    var w' := w.(a := a', ab := w.ab + [x]);
    forall id | id != 0
      ensures Same(w'.a, w'.b, w'.ab, w'.ba, id) && Same(w'.b, w'.a, w'.ba, w'.ab, id)
    {
      assert SentOwn(w, a', x, id) && SentBack(w, a', x, id);
      HeldSame(w.a, a', true, id);
      HeldSame(w.a, a', false, id);
      StreamMore(w.b, w.ab, x, false, id);
      StreamMore(w.b, w.ab, x, true, id);
    }
    OnceLess(w.b, w.a, a', w.ba, w.next);
  }


  /** What is running stays when anything else changes. */
  lemma CurStays(e: End, l': Lib, g': map<Ref, Tag>, r: Ref)
    requires EndOk(e) && OthersStay(e.n.l, e.g, l', g', r)
    requires e.n.cur.Some? && e.n.cur.value.r == r ==> Stays(e.n.l, e.g, l', g', r)
    ensures Undisturbed(e, End(Node(l', e.n.cur), g'))
  {
    if e.n.cur.Some? {
      assert Plain(e.n.cur.value.r, e.n.l.mem[e.n.cur.value.r]);
    }
  }

  lemma CurOkStays(e: End, e': End)
    requires EndOk(e) && Undisturbed(e, e') && Tidy(e'.n.l, e'.g)
    ensures e'.n.cur.Some? ==> CurOk(e'.n.l, e'.n.cur.value)
  {
    if e.n.cur.Some? && e.n.cur.value.r != ROOT {
      assert Plain(e.n.cur.value.r, e'.n.l.mem[e.n.cur.value.r]);
    }
  }

  // ----- the acts

  function Began(w: World, p: Ref, addr: Ref): World
    requires p in w.a.n.l.mem && p in w.a.g
  {
    w.(a := End(w.a.n.(l := Open(w.a.n.l, p, addr)), w.a.g[addr := Tag(w.next, w.a.g[p])]), next := w.next + 1)
  }

  lemma NumberFree(g: map<Ref, Tag>, ch: seq<Letter>, t: Tag, n: nat)
    requires AllBelow(g, ch, n) && t.Tag? && t.serial == n
    ensures NotIn(t, g) && NoStart(t, ch)
  {
  }

  lemma BeginSecret(w: World, p: Ref, addr: Ref)
    requires Fits(w) && p in w.a.n.l.mem && addr !in w.a.n.l.mem && addr != 0
    requires Tidy(Began(w, p, addr).a.n.l, Began(w, p, addr).a.g)
    requires Changed(w.a.n.l, w.a.g, Open(w.a.n.l, p, addr), Began(w, p, addr).a.g, false, addr,
                     Some(Half(NoFlags, Dir(false, false, true), Tag(w.next, w.a.g[p]))))
    ensures Once(Began(w, p, addr).a, w.b, w.ab, w.next + 1)
  {
    hide Single, Settled, Carried, Apart, Stacked, SameAll, Changed, View, Open;
    var a', t := Began(w, p, addr).a, Tag(w.next, w.a.g[p]);
    NumberFree(w.b.g, w.ab, t, w.next);
    hide Secret, News;
    SecretKeeps(w.a, a', false, addr, Some(Half(NoFlags, Dir(false, false, true), t)), w.b.g, w.ab);
  }

  lemma NewNumber(e: End, g: map<Ref, Tag>, ch: seq<Letter>, n: nat, addr: Ref, t: Tag)
    requires Secret(e, g, ch) && News(g, ch) && AllBelow(e.g, ch, n) && t.Tag? && t.serial == n
    ensures Secret(e, g[addr := t], ch) && News(g[addr := t], ch)
  {
    forall u | Below(u, n) && NotIn(u, g)
      ensures NotIn(u, g[addr := t])
    {
    }
  }

  lemma BeginGood(w: World, p: Ref, addr: Ref)
    requires Fits(w) && CanDo(Erase(w), Begin(p, addr))
    ensures p in w.a.g && Fits(Began(w, p, addr)) && Do(Erase(w), Begin(p, addr)) == Ok(Erase(Began(w, p, addr)))
  {
    hide Single, Settled, Carried, Apart, Stacked;
    var w', t := Began(w, p, addr), Tag(w.next, w.a.g[p]);
    NumberFree(w.a.g, w.ab, t, w.next);
    OpenView(w.a.n.l, w.a.g, p, addr, t);
    CurStays(w.a, w'.a.n.l, w'.a.g, addr);
    CurOkStays(w.a, w'.a);
    BeginSecret(w, p, addr);
    NewNumber(w.b, w.a.g, w.ba, w.next, addr, t);
    assert Once(w.b, w'.a, w.ba, w'.next);
    hide Once, Agreed, Open;
    forall id | id != 0
      ensures Same(w'.a, w'.b, w'.ab, w'.ba, id) && Same(w'.b, w'.a, w'.ba, w'.ab, id)
    {
      assert Same(w.a, w.b, w.ab, w.ba, id) && Same(w.b, w.a, w.ba, w.ab, id);
      HeldSame(w.a, w'.a, true, id);
      HeldSame(w.a, w'.a, false, id);
      if id == addr {
        OpenAgrees(Seen(w.b, true, id), Stream(w.b, w.ab, false, id), Stream(w.a, w.ba, true, id), t);
      }
    }
  }

  /** The structure that `r` is stacked under. */
  function Parent(l: Lib, r: Ref): State
    requires Sendable(l, r)
  {
    l.mem[l.mem[r].parent.value]
  }

  /** The world after `a` has written `cmd` on transaction `r`. */
  function Writes(w: World, r: Ref, cmd: Cmd): World
    requires Sendable(w.a.n.l, r) && r in w.a.g && Write(w.a.n.l, r, cmd).Ok?
  {
    var (l', m) := Write(w.a.n.l, r, cmd).value;
    w.(a := End(w.a.n.(l := l'), Left(w.a.g, l')), ab := w.ab + [Letter(m, w.a.g[r])])
  }

  /** What sending `cmd` makes of the flags of a transaction. */
  function After(h: Half, cmd: Cmd): Option<Half> { Settle(h.(tx := Written(h.tx, cmd))) }

  /** The command may be sent next on transaction `r`: the ends go on agreeing on it. */
  ghost predicate Fitting(w: World, r: Ref, cmd: Cmd)
    requires Sendable(w.a.n.l, r) && r in w.a.g
  {
    var h := w.a.n.l.mem[r];
    var m := cmd.(revtrans := h.opposite, revcirc := Parent(w.a.n.l, r).opposite);
    var v := After(Half(h.txcmd, h.rxcmd, w.a.g[r]), cmd);
    if h.opposite then
      Agreed(Seen(w.b, false, h.msgid), v, Stream(w.a, w.ba, false, h.msgid),
             Stream(w.b, w.ab, true, h.msgid) + [Own(m, w.a.g[r])])
    else
      Agreed(v, Seen(w.b, true, h.msgid), Stream(w.b, w.ab, false, h.msgid) + [Own(m, w.a.g[r])],
             Stream(w.a, w.ba, true, h.msgid))
  }

  /** The letter that `a` writes, and what it becomes. */
  lemma WriteEffect(w: World, r: Ref, cmd: Cmd)
    requires Fits(w) && Sendable(w.a.n.l, r) && Reached(w.a.n.l, r)
    requires cmd == Cmd(cmd.create, cmd.delete, w.a.n.l.mem[r].opposite, cmd.abort, false, false)
    ensures r in w.a.g && Write(w.a.n.l, r, cmd).Ok?
    ensures var w' := Writes(w, r, cmd);
            var h := w.a.n.l.mem[r];
            && EndOk(w'.a) && Undisturbed(w.a, w'.a) && Proper(w'.ab[|w.ab|])
            && w'.ab[|w.ab|].m == Msg(h.msgid, Parent(w.a.n.l, r).msgid,
                                      cmd.(revtrans := h.opposite, revcirc := Parent(w.a.n.l, r).opposite))
            && Changed(w.a.n.l, w.a.g, w'.a.n.l, w'.a.g, h.opposite, h.msgid,
                       After(Half(h.txcmd, h.rxcmd, w.a.g[r]), cmd))
  {
    hide Single, Settled, Carried, Apart, Stacked;
    var l, g := w.a.n.l, w.a.g;
    ViewOf(l, g, r);
    WriteView(l, g, r, cmd);
    var w' := Writes(w, r, cmd);
    CurStays(w.a, w'.a.n.l, w'.a.g, r);
    CurOkStays(w.a, w'.a);
    NameOf(w.a, r);
  }

  /** No transaction goes by id 0, and none by the name of the one it is stacked under. */
  lemma NameOf(e: End, r: Ref)
    requires EndOk(e) && Sendable(e.n.l, r)
    ensures r in e.g && e.g[r].Tag? && e.n.l.mem[r].msgid != 0
    ensures var p := Parent(e.n.l, r);
            && (p.root ==> p.msgid == 0 && !p.opposite && e.g[r].up == Top)
            && (!p.root ==> p.inserted && p.msgid != 0 && Seen(e, p.opposite, p.msgid) ==
                                                        Some(Half(p.txcmd, p.rxcmd, e.g[r].up)))
            && (p.opposite != e.n.l.mem[r].opposite || p.msgid != e.n.l.mem[r].msgid)
  {
    var l, g := e.n.l, e.g;
    ViewOf(l, g, r);
    ParentOf(l, g, r);
    var q := l.mem[r].parent.value;
    assert Plain(q, l.mem[q]);
    if q == ROOT {
      assert At(l, ROOT, multiset{});
    } else {
      ViewOf(l, g, q);
    }
  }

  /** The message is one more on the circuit `id`, or none of its business. */
  lemma WriteOwn(w: World, r: Ref, cmd: Cmd, id: nat)
    requires Fits(w) && Sendable(w.a.n.l, r) && Reached(w.a.n.l, r) && id != 0
    requires cmd == Cmd(cmd.create, cmd.delete, w.a.n.l.mem[r].opposite, cmd.abort, false, false)
    requires r in w.a.g && Write(w.a.n.l, r, cmd).Ok? && Fitting(w, r, cmd)
    ensures SentOwn(w, Writes(w, r, cmd).a, Writes(w, r, cmd).ab[|w.ab|], id)
  {
    hide Single, Settled, Carried, Apart, Stacked;
    hide Agreed;
    WriteEffect(w, r, cmd);
    NameOf(w.a, r);
    var p := Parent(w.a.n.l, r);
    var x := Writes(w, r, cmd).ab[|w.ab|];
    assert Same(w.a, w.b, w.ab, w.ba, id);
    if Under(x.m, false, id) {
      assert Items(x, false, id) == [Sub(x.tag.up)];
      SendAgrees(Seen(w.a, false, id), Seen(w.b, true, id), Stream(w.b, w.ab, false, id), Stream(w.a, w.ba, true, id),
                 Sub(x.tag.up));
    } else if About(x.m, false, id) {
      assert Items(x, false, id) == [Own(x.m.cmd, x.tag)];
    } else {
      assert Stream(w.b, w.ab, false, id) + Items(x, false, id) == Stream(w.b, w.ab, false, id);
    }
  }

  lemma WriteBack(w: World, r: Ref, cmd: Cmd, id: nat)
    requires Fits(w) && Sendable(w.a.n.l, r) && Reached(w.a.n.l, r) && id != 0
    requires cmd == Cmd(cmd.create, cmd.delete, w.a.n.l.mem[r].opposite, cmd.abort, false, false)
    requires r in w.a.g && Write(w.a.n.l, r, cmd).Ok? && Fitting(w, r, cmd)
    ensures SentBack(w, Writes(w, r, cmd).a, Writes(w, r, cmd).ab[|w.ab|], id)
  {
    hide Single, Settled, Carried, Apart, Stacked;
    hide Agreed;
    WriteEffect(w, r, cmd);
    NameOf(w.a, r);
    var p := Parent(w.a.n.l, r);
    var x := Writes(w, r, cmd).ab[|w.ab|];
    assert Same(w.b, w.a, w.ba, w.ab, id);
    if Under(x.m, true, id) {
      assert Items(x, true, id) == [Sub(x.tag.up)];
      UseAgrees(Seen(w.b, false, id), Seen(w.a, true, id), Stream(w.a, w.ba, false, id), Stream(w.b, w.ab, true, id));
    } else if About(x.m, true, id) {
      assert Items(x, true, id) == [Own(x.m.cmd, x.tag)];
    } else {
      assert Stream(w.b, w.ab, true, id) + Items(x, true, id) == Stream(w.b, w.ab, true, id);
    }
  }

  lemma WriteOnce(w: World, r: Ref, cmd: Cmd)
    requires Fits(w) && Sendable(w.a.n.l, r) && Reached(w.a.n.l, r)
    requires cmd == Cmd(cmd.create, cmd.delete, w.a.n.l.mem[r].opposite, cmd.abort, false, false)
    requires cmd.create == !w.a.n.l.mem[r].txcmd.create
    requires r in w.a.g && Write(w.a.n.l, r, cmd).Ok?
    ensures Once(Writes(w, r, cmd).a, w.b, Writes(w, r, cmd).ab, w.next)
  {
    assert Plain(r, w.a.n.l.mem[r]);
    hide Single, Settled, Carried, Stacked, SameAll;
    WriteEffect(w, r, cmd);
    var w', h := Writes(w, r, cmd), w.a.n.l.mem[r];
    var x := w'.ab[|w.ab|];
    SecretKeeps(w.a, w'.a, h.opposite, h.msgid, After(Half(h.txcmd, h.rxcmd, w.a.g[r]), cmd), w.b.g, w.ab);
    if Starts(x) {
      assert Unsent(h);
      forall q | q in w'.a.n.l.mem && q in w'.a.g && Unsent(w'.a.n.l.mem[q])
        ensures w'.a.g[q] != x.tag
      {
        ViewOf(w.a.n.l, w.a.g, r);
        UnsentBefore(w.a, w'.a, h.opposite, h.msgid, After(Half(h.txcmd, h.rxcmd, w.a.g[r]), cmd), q);
      }
    }
    NewsMore(w.b.g, w.ab, x);
    SecretMore(w'.a, w.b.g, w.ab, x);
  }

  lemma WriteSends(w: World, r: Ref, cmd: Cmd)
    requires Fits(w) && Sendable(w.a.n.l, r) && Reached(w.a.n.l, r)
    requires cmd == Cmd(cmd.create, cmd.delete, w.a.n.l.mem[r].opposite, cmd.abort, false, false)
    requires cmd.create == !w.a.n.l.mem[r].txcmd.create
    requires r in w.a.g && Fitting(w, r, cmd)
    ensures Write(w.a.n.l, r, cmd).Ok? && Fits(Writes(w, r, cmd))
    ensures Erase(Writes(w, r, cmd)) ==
              Erase(w).(a := w.a.n.(l := Write(w.a.n.l, r, cmd).value.0),
                        ab := Erase(w).ab + [Write(w.a.n.l, r, cmd).value.1])
  {
    hide Single, Settled, Carried, Apart, Stacked;
    hide Fitting, SentOwn, SentBack, Once;
    WriteEffect(w, r, cmd);
    var w' := Writes(w, r, cmd);
    var x := w'.ab[|w.ab|];
    assert w'.ab == w.ab + [x];
    forall id | id != 0
      ensures SentOwn(w, w'.a, x, id) && SentBack(w, w'.a, x, id)
    {
      WriteOwn(w, r, cmd, id);
      WriteBack(w, r, cmd, id);
    }
    WriteOnce(w, r, cmd);
    Sends(w, w'.a, x);
    assert Msgs(w.ab + [x]) == Msgs(w.ab) + [x.m];
  }

  lemma StartGood(w: World, r: Ref, last: bool, abort: bool)
    requires Fits(w) && CanDo(Erase(w), Start(r, last, abort))
    ensures Do(Erase(w), Start(r, last, abort)).Ok? && Good(Do(Erase(w), Start(r, last, abort)).value)
  {
    hide Single, Settled, Carried, Apart, Stacked;
    var h := w.a.n.l.mem[r];
    ViewOf(w.a.n.l, w.a.g, r);
    NameOf(w.a, r);
    var cmd := DmsgRuns.FirstCmd.(delete := last, abort := abort);
    assert Same(w.a, w.b, w.ab, w.ba, h.msgid);
    StartAgrees(Seen(w.a, false, h.msgid), Seen(w.b, true, h.msgid), Stream(w.b, w.ab, false, h.msgid),
                Stream(w.a, w.ba, true, h.msgid), cmd.(revcirc := Parent(w.a.n.l, r).opposite));
    assert Fitting(w, r, cmd);
    WriteSends(w, r, cmd);
  }

  lemma AnswerFits(w: World, r: Ref, last: bool, abort: bool)
    requires Fits(w) && Sendable(w.a.n.l, r) && (w.a.n.l.mem[r].opposite || w.a.n.l.mem[r].txcmd.create)
    ensures r in w.a.g && Fitting(w, r, ReplyCmd(w.a.n.l.mem[r], last).(abort := abort))
    ensures w.a.n.l.mem[r].txcmd.reply == w.a.n.l.mem[r].opposite && Reached(w.a.n.l, r)
  {
    assert Reached(w.a.n.l, r);
    hide Single, Settled, Carried, Apart, Stacked, Agreed, Once, View;
    var h := w.a.n.l.mem[r];
    ViewOf(w.a.n.l, w.a.g, r);
    NameOf(w.a, r);
    var m := ReplyCmd(h, last).(abort := abort, revtrans := h.opposite, revcirc := Parent(w.a.n.l, r).opposite);
    if h.opposite {
      assert Same(w.b, w.a, w.ba, w.ab, h.msgid);
      ReplyAgrees(Seen(w.b, false, h.msgid), Seen(w.a, true, h.msgid),
                  Stream(w.a, w.ba, false, h.msgid), Stream(w.b, w.ab, true, h.msgid), m);
    } else {
      assert Same(w.a, w.b, w.ab, w.ba, h.msgid);
      SendAgrees(Seen(w.a, false, h.msgid), Seen(w.b, true, h.msgid),
                 Stream(w.b, w.ab, false, h.msgid), Stream(w.a, w.ba, true, h.msgid), Own(m, w.a.g[r]));
    }
  }

  lemma AnswerGood(w: World, r: Ref, last: bool, abort: bool)
    requires Fits(w) && CanDo(Erase(w), Answer(r, last, abort))
    ensures Do(Erase(w), Answer(r, last, abort)).Ok? && Good(Do(Erase(w), Answer(r, last, abort)).value)
  {
    hide Fits, Fitting, Write, Reached;
    if !w.a.n.l.mem[r].txcmd.delete {
      AnswerFits(w, r, last, abort);
      WriteSends(w, r, ReplyCmd(w.a.n.l.mem[r], last).(abort := abort));
    }
  }

  lemma OneOffGood(w: World, reply: bool)
    requires Fits(w)
    ensures Do(Erase(w), OneOff(reply)).Ok? && Good(Do(Erase(w), OneOff(reply)).value)
  {
    hide Single, Settled, Carried, Labelled, Agreed, View;
    var x := Letter(Msg(0, 0, Cmd(false, false, reply, false, false, false)), Top);
    var w' := w.(ab := w.ab + [x]);
    forall id | id != 0
      ensures Same(w'.a, w'.b, w'.ab, w'.ba, id) && Same(w'.b, w'.a, w'.ba, w'.ab, id)
    {
      assert Same(w.a, w.b, w.ab, w.ba, id) && Same(w.b, w.a, w.ba, w.ab, id);
      StreamMore(w.b, w.ab, x, false, id);
      StreamMore(w.b, w.ab, x, true, id);
      assert Items(x, false, id) == [] && Items(x, true, id) == [];
      assert Stream(w.b, w'.ab, false, id) == Stream(w.b, w.ab, false, id);
      assert Stream(w.b, w'.ab, true, id) == Stream(w.b, w.ab, true, id);
    }
    NewsMore(w.b.g, w.ab, x);
    SecretMore(w.a, w.b.g, w.ab, x);
    assert Once(w.a, w.b, w'.ab, w.next);
    assert ProperAll(w'.ab);
    assert Fits(w');
    assert Msgs(w.ab + [x]) == Msgs(w.ab) + [x.m];
  }

  // ----- one end receives

  /** What is left of a message about one id once it has been received. */
  function Rest(x: Letter, rev: bool, id: nat): seq<Item> {
    if About(x.m, rev, id) then Pending(Own(x.m.cmd, x.tag)) else []
  }

  /** `a'` is `a` after receiving `x` for the transaction at `r`. */
  predicate Took(a: End, a': End, x: Letter, r: Ref) {
    && a.n.cur.None? && a'.n.cur == Some(Cur(r, x.m.cmd))
    && r in a'.n.l.mem && r != ROOT && r in a'.g && a'.g[r] == x.tag
    && a'.n.l.mem[r].opposite == !x.m.cmd.revtrans && a'.n.l.mem[r].msgid == x.m.msgid
  }

  ghost predicate TookOwn(w: World, a': End, id: nat)
    requires w.ba != []
  {
    Agreed(Seen(a', false, id), Seen(w.b, true, id), Stream(w.b, w.ab, false, id),
           Rest(w.ba[0], true, id) + Proj(w.ba[1..], true, id))
  }

  ghost predicate TookBack(w: World, a': End, id: nat)
    requires w.ba != []
  {
    Agreed(Seen(w.b, false, id), Seen(a', true, id), Rest(w.ba[0], false, id) + Proj(w.ba[1..], false, id),
           Stream(w.b, w.ab, true, id))
  }

  lemma Takes(w: World, a': End, r: Ref)
    requires Fits(w) && w.ba != [] && Took(w.a, a', w.ba[0], r) && EndOk(a')
    requires Once(a', w.b, w.ab, w.next) && Once(w.b, a', w.ba[1..], w.next)
    requires forall id :: id != 0 ==> TookOwn(w, a', id) && TookBack(w, a', id)
    ensures Fits(w.(a := a', ba := w.ba[1..]))
  {
    hide EndOk, Once, Agreed;
    var w' := w.(a := a', ba := w.ba[1..]);
    forall id | id != 0
      ensures Same(w'.a, w'.b, w'.ab, w'.ba, id) && Same(w'.b, w'.a, w'.ba, w'.ab, id)
    {
      assert TookOwn(w, a', id) && TookBack(w, a', id);
      assert Stream(a', w.ba[1..], true, id) == Rest(w.ba[0], true, id) + Proj(w.ba[1..], true, id);
      assert Stream(a', w.ba[1..], false, id) == Rest(w.ba[0], false, id) + Proj(w.ba[1..], false, id);
    }
  }

  /** With no handler running, the next message is the head of the streams it belongs to. */
  lemma Head(w: World, rev: bool, id: nat)
    requires w.ba != [] && w.a.n.cur.None?
    ensures Stream(w.a, w.ba, rev, id) == Items(w.ba[0], rev, id) + Proj(w.ba[1..], rev, id)
  {
  }

  /** The circuit the next message is on is open, and stays agreed on. */
  lemma CircuitOpen(w: World)
    requires Fits(w) && w.ba != [] && w.a.n.cur.None? && w.ba[0].m.msgid != 0 && w.ba[0].m.circuit != 0
    ensures var x := w.ba[0];
            && OnCircuit(w.a.n.l, w.a.g, x.m, x.tag.up)
            && (x.m.cmd.revcirc ==> Seen(w.a, false, x.m.circuit).value.tx.create && TookOwn(w, w.a, x.m.circuit))
            && (!x.m.cmd.revcirc ==> TookBack(w, w.a, x.m.circuit))
  {
    hide EndOk, Once, Agreed;
    var x := w.ba[0];
    var id := x.m.circuit;
    assert Proper(x);
    Head(w, x.m.cmd.revcirc, id);
    assert Items(x, x.m.cmd.revcirc, id) == [Sub(x.tag.up)];
    var q := Stream(w.a, w.ba, x.m.cmd.revcirc, id);
    assert q[1..] == Proj(w.ba[1..], x.m.cmd.revcirc, id) == Pending(q[0]) + q[1..];
    if x.m.cmd.revcirc {
      assert Same(w.a, w.b, w.ab, w.ba, id);
      ReplyReceived(Seen(w.a, false, id), Seen(w.b, true, id), Stream(w.b, w.ab, false, id), q);
    } else {
      assert Same(w.b, w.a, w.ba, w.ab, id);
      CommandReceived(Seen(w.b, false, id), Seen(w.a, true, id), q, Stream(w.b, w.ab, true, id));
    }
  }

  lemma OnItsCircuit(w: World)
    requires Fits(w) && w.ba != [] && w.a.n.cur.None? && w.ba[0].m.msgid != 0
    ensures OnCircuit(w.a.n.l, w.a.g, w.ba[0].m, w.ba[0].tag.up)
    ensures w.ba[0].m.circuit != 0 && w.ba[0].m.cmd.revcirc ==> Seen(w.a, false, w.ba[0].m.circuit).value.tx.create
  {
    assert Proper(w.ba[0]);
    if w.ba[0].m.circuit != 0 { CircuitOpen(w); }
  }

  /** What the next message does to every id but the one it is about. */
  lemma TakesRest(w: World, a': End, id: nat)
    requires Fits(w) && w.ba != [] && w.a.n.cur.None? && w.ba[0].m.msgid != 0 && id != 0
    ensures !About(w.ba[0].m, true, id) && Seen(a', false, id) == Seen(w.a, false, id) ==> TookOwn(w, a', id)
    ensures !About(w.ba[0].m, false, id) && Seen(a', true, id) == Seen(w.a, true, id) ==> TookBack(w, a', id)
  {
    hide EndOk, Once, Agreed;
    var x := w.ba[0];
    assert Proper(x);
    assert Same(w.a, w.b, w.ab, w.ba, id) && Same(w.b, w.a, w.ba, w.ab, id);
    Head(w, true, id);
    Head(w, false, id);
    if x.m.circuit == id { CircuitOpen(w); }
  }

  function Received(w: World, l': Lib, g': map<Ref, Tag>, r: Ref): World
    requires w.ba != []
  {
    w.(a := End(Node(l', Some(Cur(r, w.ba[0].m.cmd))), g'), ba := w.ba[1..])
  }

  /** The ends agree on the id of the next message, of which `a` comes to keep `v`. */
  ghost predicate TookIt(w: World, v: Option<Half>)
    requires w.ba != []
  {
    var x := w.ba[0];
    var id := x.m.msgid;
    var c := Pending(Own(x.m.cmd, x.tag)) + Proj(w.ba[1..], x.m.cmd.revtrans, id);
    if x.m.cmd.revtrans then Agreed(v, Seen(w.b, true, id), Stream(w.b, w.ab, false, id), c)
    else Agreed(Seen(w.b, false, id), v, c, Stream(w.b, w.ab, true, id))
  }

  lemma TakesAll(w: World, l': Lib, g': map<Ref, Tag>, r: Ref, v: Option<Half>)
    requires Fits(w) && w.ba != [] && w.ba[0].m.msgid != 0
    requires var w' := Received(w, l', g', r);
             && Took(w.a, w'.a, w.ba[0], r) && EndOk(w'.a)
             && Once(w'.a, w.b, w.ab, w.next) && Once(w.b, w'.a, w.ba[1..], w.next)
    requires Changed(w.a.n.l, w.a.g, l', g', !w.ba[0].m.cmd.revtrans, w.ba[0].m.msgid, v) && TookIt(w, v)
    ensures Fits(Received(w, l', g', r))
  {
    hide EndOk, Once, Agreed;
    var a' := Received(w, l', g', r).a;
    forall id | id != 0
      ensures TookOwn(w, a', id) && TookBack(w, a', id)
    {
      TakesRest(w, a', id);
    }
    Takes(w, a', r);
  }

  lemma ReceiveOneOff(w: World, addr: Ref)
    requires w.ba != [] && Fits(w) && CanDo(Erase(w), Receive(addr)) && w.ba[0].m.msgid == 0
    ensures Do(Erase(w), Receive(addr)).Ok? && Good(Do(Erase(w), Receive(addr)).value)
  {
    hide Single, Settled, Carried, Labelled, Agreed;
    assert Proper(w.ba[0]);
    OneOffView(w.a.n.l, w.a.g, w.ba[0].m, addr);
    var w' := Received(w, w.a.n.l, w.a.g, ROOT);
    RootThere(w.a);
    forall id | id != 0
      ensures Same(w'.a, w'.b, w'.ab, w'.ba, id) && Same(w'.b, w'.a, w'.ba, w'.ab, id)
    {
      assert Same(w.a, w.b, w.ab, w.ba, id) && Same(w.b, w.a, w.ba, w.ab, id);
      Head(w, true, id);
      Head(w, false, id);
    }
    NextStart(w.b, w.a.g, w.ba);
    assert Secret(w'.a, w.b.g, w.ab);
    assert Once(w'.b, w'.a, w'.ba, w.next);
    assert EndOk(w'.a);
    assert Fits(w');
    assert Msgs(w.ba[1..]) == Msgs(w.ba)[1..];
  }

  lemma RootThere(e: End)
    requires EndOk(e)
    ensures ROOT in e.n.l.mem
  {
  }

  lemma ReceiveReply(w: World, addr: Ref)
    requires w.ba != [] && Fits(w) && CanDo(Erase(w), Receive(addr)) && w.ba[0].m.msgid != 0 && w.ba[0].m.cmd.revtrans
    ensures Do(Erase(w), Receive(addr)).Ok? && Good(Do(Erase(w), Receive(addr)).value)
  {
    hide Single, Settled, Carried, Labelled, Agreed;
    var x := w.ba[0];
    var id := x.m.msgid;
    assert Proper(x);
    OnItsCircuit(w);
    assert Same(w.a, w.b, w.ab, w.ba, id);
    Head(w, true, id);
    assert Items(x, true, id) == [Own(x.m.cmd, x.tag)];
    var q := Stream(w.a, w.ba, true, id);
    assert q[0] == Own(x.m.cmd, x.tag) && q[1..] == Proj(w.ba[1..], true, id);
    ReplyReceived(Seen(w.a, false, id), Seen(w.b, true, id), Stream(w.b, w.ab, false, id), q);
    var h := Seen(w.a, false, id).value;
    FoundView(w.a.n.l, w.a.g, x.m, addr, x.tag);
    FoundFits(w, addr, h.(rx := h.rx.(create := true)));
  }

  /** A message that finds its transaction. */
  lemma FoundFits(w: World, addr: Ref, v: Half)
    requires w.ba != [] && Fits(w) && CanDo(Erase(w), Receive(addr)) && w.ba[0].m.msgid != 0 && !Starts(w.ba[0])
    requires MsgRx(w.a.n.l, ROOT, w.ba[0].m, addr).Ok?
    requires var (l', r) := MsgRx(w.a.n.l, ROOT, w.ba[0].m, addr).value;
             var w' := Received(w, l', w.a.g, r);
             && Took(w.a, w'.a, w.ba[0], r) && Tidy(l', w.a.g) && CurOk(l', w'.a.n.cur.value)
             && Changed(w.a.n.l, w.a.g, l', w.a.g, !w.ba[0].m.cmd.revtrans, w.ba[0].m.msgid, Some(v))
    requires TookIt(w, Some(v)) && (w.ba[0].m.cmd.revtrans ==> v.tx.create)
    ensures Do(Erase(w), Receive(addr)).Ok? && Good(Do(Erase(w), Receive(addr)).value)
  {
    hide Tidy, Agreed, MsgRx, SameAll;
    var (l', r) := MsgRx(w.a.n.l, ROOT, w.ba[0].m, addr).value;
    var w' := Received(w, l', w.a.g, r);
    SecretKeeps(w.a, w'.a, !w.ba[0].m.cmd.revtrans, w.ba[0].m.msgid, Some(v), w.b.g, w.ab);
    NextStart(w.b, w.a.g, w.ba);
    TakesAll(w, l', w.a.g, r, Some(v));
    assert Msgs(w.ba[1..]) == Msgs(w.ba)[1..];
  }

  lemma ReceiveCommand(w: World, addr: Ref)
    requires w.ba != [] && Fits(w) && CanDo(Erase(w), Receive(addr)) && w.ba[0].m.msgid != 0 && !w.ba[0].m.cmd.revtrans
    ensures Do(Erase(w), Receive(addr)).Ok? && Good(Do(Erase(w), Receive(addr)).value)
  {
    hide Single, Settled, Carried, Labelled, Agreed;
    var x := w.ba[0];
    var id := x.m.msgid;
    assert Proper(x);
    OnItsCircuit(w);
    assert Same(w.b, w.a, w.ba, w.ab, id);
    Head(w, false, id);
    assert Items(x, false, id) == [Own(x.m.cmd, x.tag)];
    var q := Stream(w.a, w.ba, false, id);
    assert q[0] == Own(x.m.cmd, x.tag) && q[1..] == Proj(w.ba[1..], false, id);
    CommandReceived(Seen(w.b, false, id), Seen(w.a, true, id), q, Stream(w.b, w.ab, true, id));
    if x.m.cmd.create {
      CreateFits(w, addr);
    } else {
      var h := Seen(w.a, true, id).value;
      FoundView(w.a.n.l, w.a.g, x.m, addr, x.tag);
      assert h.(rx := h.rx.(create := true)) == h;
      FoundFits(w, addr, h);
    }
  }

  /** A message that opens a transaction. */
  lemma CreateFits(w: World, addr: Ref)
    requires w.ba != [] && Fits(w) && CanDo(Erase(w), Receive(addr)) && Starts(w.ba[0])
    requires Seen(w.a, true, w.ba[0].m.msgid).None?
    requires TookIt(w, Some(Half(Dir(false, false, true), Dir(true, false, false), w.ba[0].tag)))
    ensures Do(Erase(w), Receive(addr)).Ok? && Good(Do(Erase(w), Receive(addr)).value)
  {
    hide Tidy, Agreed;
    var x := w.ba[0];
    var v := Some(Half(Dir(false, false, true), Dir(true, false, false), x.tag));
    assert Proper(x);
    OnItsCircuit(w);
    CreateView(w.a.n.l, w.a.g, x.m, addr, x.tag);
    hide MsgRx, OnCircuit, View, SameAll;
    var l', g' := MsgRx(w.a.n.l, ROOT, x.m, addr).value.0, w.a.g[addr := x.tag];
    var w' := Received(w, l', g', addr);
    SecretKeeps(w.a, w'.a, true, x.m.msgid, v, w.b.g, w.ab);
    Opened(w.b, w.a.g, w.ba, addr);
    TakesAll(w, l', g', addr, v);
    assert Msgs(w.ba[1..]) == Msgs(w.ba)[1..];
  }

  // ----- one end retires a message

  /** The world after the running handler of `a` is done. */
  function Finished(w: World, l': Lib): World { w.(a := End(Node(l', None), Left(w.a.g, l'))) }

  lemma Finishes(w: World, l': Lib, v: Option<Half>)
    requires Fits(w) && w.a.n.cur.Some? && w.a.n.cur.value.r != ROOT && w.a.n.cur.value.cmd.delete
    requires w.a.n.cur.value.r in w.a.n.l.mem && w.a.n.cur.value.r in w.a.g && Tidy(l', Left(w.a.g, l'))
    requires var h := w.a.n.l.mem[w.a.n.cur.value.r];
             var q := Stream(w.a, w.ba, !h.opposite, h.msgid);
             && h.msgid != 0 && Changed(w.a.n.l, w.a.g, l', Left(w.a.g, l'), h.opposite, h.msgid, v) && q != []
             && (h.opposite ==> Agreed(Seen(w.b, false, h.msgid), v, q[1..], Stream(w.b, w.ab, true, h.msgid)))
             && (!h.opposite ==> Agreed(v, Seen(w.b, true, h.msgid), Stream(w.b, w.ab, false, h.msgid), q[1..])
                                 && (v.Some? ==> v.value.tx.create))
    ensures Fits(Finished(w, l'))
  {
    hide Tidy, Agreed;
    var h, w' := w.a.n.l.mem[w.a.n.cur.value.r], Finished(w, l');
    SecretKeeps(w.a, w'.a, h.opposite, h.msgid, v, w.b.g, w.ab);
    OnceLess(w.b, w.a, w'.a, w.ba, w.next);
    forall id | id != 0
      ensures Same(w'.a, w'.b, w'.ab, w'.ba, id) && Same(w'.b, w'.a, w'.ba, w'.ab, id)
    {
      assert Same(w.a, w.b, w.ab, w.ba, id) && Same(w.b, w.a, w.ba, w.ab, id);
      assert forall rev :: Stream(w'.a, w.ba, rev, id) == Proj(w.ba, rev, id);
      if h.msgid == id {
        assert Stream(w.a, w.ba, !h.opposite, id)[1..] == Proj(w.ba, !h.opposite, id);
        assert Stream(w.a, w.ba, h.opposite, id) == Proj(w.ba, h.opposite, id);
      } else {
        assert forall rev :: Stream(w.a, w.ba, rev, id) == Proj(w.ba, rev, id);
      }
    }
  }

  /** The handler of a message that closes nothing is done. */
  lemma FinishesIdle(w: World)
    requires Fits(w) && w.a.n.cur.Some? && (w.a.n.cur.value.r == ROOT || !w.a.n.cur.value.cmd.delete)
    ensures Fits(w.(a := w.a.(n := w.a.n.(cur := None))))
  {
    hide Tidy, Agreed;
    var w' := w.(a := w.a.(n := w.a.n.(cur := None)));
    forall id | id != 0
      ensures Same(w'.a, w'.b, w'.ab, w'.ba, id) && Same(w'.b, w'.a, w'.ba, w'.ab, id)
    {
      assert Same(w.a, w.b, w.ab, w.ba, id) && Same(w.b, w.a, w.ba, w.ab, id);
      assert Held(w.a, true, id) == [] == Held(w'.a, true, id);
      assert Held(w.a, false, id) == [] == Held(w'.a, false, id);
    }
  }

  /** The handler of a message that closes a direction is done. */
  lemma ClosesFits(w: World)
    requires Fits(w) && w.a.n.cur.Some? && w.a.n.cur.value.r != ROOT && w.a.n.cur.value.cmd.delete
    ensures var c := w.a.n.cur.value;
            CleanupRx(w.a.n.l, c.r, c.cmd).Ok? && Fits(Finished(w, CleanupRx(w.a.n.l, c.r, c.cmd).value))
  {
    hide Single, Settled, Carried, Apart, Stacked, Agreed, Once, CleanupRx;
    var r, cmd := w.a.n.cur.value.r, w.a.n.cur.value.cmd;
    var h := w.a.n.l.mem[r];
    ViewOf(w.a.n.l, w.a.g, r);
    CleanupView(w.a.n.l, w.a.g, r, cmd);
    var q := Stream(w.a, w.ba, !h.opposite, h.msgid);
    assert q[0] == Own(cmd.(create := false), w.a.g[r]);
    if h.opposite {
      assert Same(w.b, w.a, w.ba, w.ab, h.msgid);
      CommandRetired(Seen(w.b, false, h.msgid), Seen(w.a, true, h.msgid), q, Stream(w.b, w.ab, true, h.msgid));
    } else {
      assert Same(w.a, w.b, w.ab, w.ba, h.msgid);
      ReplyRetired(Seen(w.a, false, h.msgid), Seen(w.b, true, h.msgid), Stream(w.b, w.ab, false, h.msgid), q);
    }
    Finishes(w, CleanupRx(w.a.n.l, r, cmd).value, Settle(Half(h.txcmd, h.rxcmd.(delete := true), w.a.g[r])));
  }

  lemma FinishGood(w: World)
    requires Fits(w) && CanDo(Erase(w), Finish)
    ensures Do(Erase(w), Finish).Ok? && Good(Do(Erase(w), Finish).value)
  {
    var r, cmd := w.a.n.cur.value.r, w.a.n.cur.value.cmd;
    assert Plain(ROOT, w.a.n.l.mem[ROOT]);
    if r == ROOT || !cmd.delete {
      FinishesIdle(w);
      hide Fits;
      assert Erase(w.(a := w.a.(n := w.a.n.(cur := None)))) == Erase(w).(a := Node(w.a.n.l, None));
    } else {
      ClosesFits(w);
      hide Fits;
      assert Erase(Finished(w, CleanupRx(w.a.n.l, r, cmd).value)) ==
             Erase(w).(a := Node(CleanupRx(w.a.n.l, r, cmd).value, None));
    }
  }

  // ----- every run

  lemma StepGood(s: Sys, act: Act)
    requires Good(s) && CanDo(s, act)
    ensures Do(s, act).Ok? && Good(Do(s, act).value)
  {
    hide Fits, Do;
    var w :| Fits(w) && Erase(w) == s;
    match act
    case Begin(p, addr) => BeginGood(w, p, addr);
    case Start(r, last, abort) => StartGood(w, r, last, abort);
    case Answer(r, last, abort) => AnswerGood(w, r, last, abort);
    case OneOff(reply) => OneOffGood(w, reply);
    case Receive(addr) =>
      assert w.ba != [];
      if w.ba[0].m.msgid == 0 { ReceiveOneOff(w, addr); }
      else if w.ba[0].m.cmd.revtrans { ReceiveReply(w, addr); }
      else { ReceiveCommand(w, addr); }
    case Finish => FinishGood(w);
  }

  lemma FlipGood(s: Sys)
    requires Good(s)
    ensures Good(Flip(s))
  {
    var w :| Fits(w) && Erase(w) == s;
    assert Fits(Turn(w)) && Erase(Turn(w)) == Flip(s);
  }

  lemma {:induction false} RunGood(s: Sys, moves: seq<Move>)
    requires Good(s)
    ensures Run(s, moves).Ok? && Good(Run(s, moves).value)
    decreases |moves|
  {
    hide Good, Do, CanDo;
    if moves != [] {
      var m := moves[0];
      if m.byA {
        if !CanDo(s, m.act) {
          RunGood(s, moves[1..]);
        } else {
          StepGood(s, m.act);
          RunGood(Do(s, m.act).value, moves[1..]);
        }
      } else {
        FlipGood(s);
        if !CanDo(Flip(s), m.act) {
          RunGood(s, moves[1..]);
        } else {
          StepGood(Flip(s), m.act);
          FlipGood(Do(Flip(s), m.act).value);
          RunGood(Flip(Do(Flip(s), m.act).value), moves[1..]);
        }
      }
    }
  }

  /**
   However the two ends stack, answer, abort and close transactions, and however soon ids are
   taken again: no assertion of the source fires at either end, no freed structure is touched,
   every message finds the circuit it names, and no message is thrown away.
   */
  lemma NothingGoesWrong(moves: seq<Move>)
    ensures Run(Init, moves).Ok?
  {
    InitGood();
    RunGood(Init, moves);
  }

  /** The next message for `s.a`, if it starts a transaction, has an id that is closed there. */
  predicate NextIdClosed(s: Sys) {
    s.a.cur.None? && s.ba != [] && s.ba[0].cmd.create && !s.ba[0].cmd.reply ==>
      Key(ROOT, s.ba[0].msgid) !in s.a.l.rd
  }

  lemma FitsNextIdClosed(w: World)
    requires Fits(w)
    ensures NextIdClosed(Erase(w))
  {
    hide Agreed, Once;
    if w.a.n.cur.None? && w.ba != [] && w.ba[0].m.cmd.create && !w.ba[0].m.cmd.reply {
      var x := w.ba[0];
      var id := x.m.msgid;
      assert Proper(x);
      assert Same(w.b, w.a, w.ba, w.ab, id);
      Head(w, false, id);
      assert Items(x, false, id) == [Own(x.m.cmd, x.tag)];
      CommandReceived(Seen(w.b, false, id), Seen(w.a, true, id), Stream(w.a, w.ba, false, id),
                      Stream(w.b, w.ab, true, id));
      ViewEntry(w.a.n.l, w.a.g, true, id);
    }
  }

  lemma GoodNextIdClosed(s: Sys)
    requires Good(s)
    ensures NextIdClosed(s)
  {
    hide Fits, NextIdClosed;
    var w :| Fits(w) && Erase(w) == s;
    FitsNextIdClosed(w);
  }

  /**
   When the first message of a new transaction arrives at either end, its id is closed there,
   whatever became of earlier transactions under the same id.
   */
  lemma ClosedBeforeReuse(moves: seq<Move>)
    ensures Run(Init, moves).Ok?
    ensures NextIdClosed(Run(Init, moves).value) && NextIdClosed(Flip(Run(Init, moves).value))
  {
    InitGood();
    RunGood(Init, moves);
    GoodNextIdClosed(Run(Init, moves).value);
    FlipGood(Run(Init, moves).value);
    GoodNextIdClosed(Flip(Run(Init, moves).value));
  }

  /** The next message for `s.a` is on a circuit that is open there. */
  predicate NextCircuitOpen(s: Sys) {
    s.a.cur.None? && s.ba != [] && s.ba[0].circuit != 0 ==>
      Circuit(s.a.l, ROOT, s.ba[0]).Some? && Circuit(s.a.l, ROOT, s.ba[0]).value in s.a.l.mem
  }

  lemma GoodNextCircuitOpen(s: Sys)
    requires Good(s)
    ensures NextCircuitOpen(s)
  {
    hide Agreed, Once;
    var w :| Fits(w) && Erase(w) == s;
    if w.a.n.cur.None? && w.ba != [] && w.ba[0].m.circuit != 0 {
      assert Proper(w.ba[0]);
      CircuitOpen(w);
      CircuitFound(w.a.n.l, w.a.g, w.ba[0].m, w.ba[0].tag.up);
    }
  }

  /** The transaction another one is stacked under never closes at the receiver before its messages are there. */
  lemma CircuitsOutliveTheirMessages(moves: seq<Move>)
    ensures Run(Init, moves).Ok?
    ensures NextCircuitOpen(Run(Init, moves).value) && NextCircuitOpen(Flip(Run(Init, moves).value))
  {
    InitGood();
    RunGood(Init, moves);
    GoodNextCircuitOpen(Run(Init, moves).value);
    FlipGood(Run(Init, moves).value);
    GoodNextCircuitOpen(Flip(Run(Init, moves).value));
  }

  // ----- what is sent

  /** `s'` is `s` after `a` has written `m` on transaction `r`. */
  ghost predicate Said(s: Sys, r: Ref, s': Sys, m: Msg, last: bool, abort: bool)
    requires Sendable(s.a.l, r)
  {
    var h, p := s.a.l.mem[r], Parent(s.a.l, r);
    && s'.b == s.b && s'.ba == s.ba && s'.a.cur == s.a.cur && s'.ab == s.ab + [m]
    && DmsgRuns.Spoken(s.a.l, r, last, s'.a.l)
    && m.msgid == h.msgid && m.circuit == p.msgid && m.cmd.revtrans == h.opposite && m.cmd.revcirc == p.opposite
    && m.cmd.delete == last && m.cmd.abort == abort && m.cmd.reply == h.opposite
    && m.cmd.create == !h.txcmd.create
  }

  /** A reply goes out with the flags asked for, and with CREATE exactly if it is the first. */
  lemma AnswerSays(s: Sys, r: Ref, last: bool, abort: bool)
    requires Sendable(s.a.l, r) && CanDo(s, Answer(r, last, abort)) && Good(s)
    ensures var d := Do(s, Answer(r, last, abort));
            d.Ok? && d.value.ab != [] && Said(s, r, d.value, d.value.ab[|d.value.ab| - 1], last, abort)
  {
    GoodSound(s);
    var cmd := ReplyCmd(s.a.l.mem[r], last).(abort := abort);
    hide Good, Write, DmsgRuns.Spoken, Sound, Reached, CleanupRx, MsgRx, Open, Said;
    SpeaksSound(s.a.l, r, cmd, last);
    Appended(s, r, cmd, Do(s, Answer(r, last, abort)), last, abort);
  }

  /** A message written is the last one on the link. */
  lemma Appended(s: Sys, r: Ref, cmd: Cmd, d: Outcome<Sys>, last: bool, abort: bool)
    requires Sendable(s.a.l, r) && Write(s.a.l, r, cmd).Ok? && Write(s.a.l, r, cmd).value.1 == Header(s.a.l, r, cmd)
    requires DmsgRuns.Spoken(s.a.l, r, last, Write(s.a.l, r, cmd).value.0)
    requires d == Ok(s.(a := s.a.(l := Write(s.a.l, r, cmd).value.0), ab := s.ab + [Write(s.a.l, r, cmd).value.1]))
    requires !cmd.revtrans && !cmd.revcirc && cmd.delete == last && cmd.abort == abort
    requires cmd.reply == s.a.l.mem[r].opposite && cmd.create == !s.a.l.mem[r].txcmd.create
    ensures d.value.ab != [] && Said(s, r, d.value, d.value.ab[|d.value.ab| - 1], last, abort)
  {
    hide Write, DmsgRuns.Spoken;
  }

  /** The first message of a transaction is a command with CREATE. */
  lemma StartSays(s: Sys, r: Ref, last: bool, abort: bool)
    requires Sendable(s.a.l, r) && CanDo(s, Start(r, last, abort)) && Good(s)
    ensures var d := Do(s, Start(r, last, abort));
            d.Ok? && d.value.ab != [] && Said(s, r, d.value, d.value.ab[|d.value.ab| - 1], last, abort)
  {
    GoodSound(s);
    var cmd := DmsgRuns.FirstCmd.(delete := last, abort := abort);
    hide Good, Write, DmsgRuns.Spoken, Sound, Reached, CleanupRx, MsgRx, Open, Said;
    SpeaksSound(s.a.l, r, cmd, last);
    Appended(s, r, cmd, Do(s, Start(r, last, abort)), last, abort);
  }

  lemma GoodSound(s: Sys)
    requires Good(s)
    ensures Sound(s.a.l)
  {
    var w :| Fits(w) && Erase(w) == s;
  }

  lemma SpeaksSound(l: Lib, r: Ref, cmd: Cmd, last: bool)
    requires Sound(l) && Sendable(l, r) && cmd.delete == last && (cmd.create || l.mem[r].txcmd.create)
    requires cmd.reply == l.mem[r].txcmd.reply || (!cmd.reply && !l.mem[r].opposite)
    ensures l.mem[r].txcmd.reply == l.mem[r].opposite
    ensures Write(l, r, cmd).Ok? && DmsgRuns.Spoken(l, r, last, Write(l, r, cmd).value.0)
    ensures Write(l, r, cmd).value.1 == Header(l, r, cmd)
  {
    assert At(l, r, multiset{});
    DmsgRuns.WriteSpoken(l, r, cmd, last);
    WriteIsHeader(l, r, cmd);
  }

  // ----- why a transaction is started after the one it is stacked under

  /** Whoever acts, the other end stays as it is. */
  lemma {:induction false} OnlyBActs(s: Sys, moves: seq<Move>)
    requires Run(s, moves).Ok? && forall i :: 0 <= i < |moves| ==> !moves[i].byA
    ensures Run(s, moves).value.a == s.a
    decreases |moves|
  {
    if moves != [] {
      assert !moves[0].byA;
      var s' := if CanDo(Flip(s), moves[0].act) then Flip(Do(Flip(s), moves[0].act).value) else s;
      assert s'.a == s.a;
      OnlyBActs(s', moves[1..]);
    }
  }

  /** The first message that `a` would write on transaction `r`. */
  function FirstMsg(l: Lib, r: Ref, last: bool, abort: bool): Msg
    requires Sendable(l, r)
  {
    Header(l, r, DmsgRuns.FirstCmd.(delete := last, abort := abort))
  }

  /** The circuit such a message is on is not open at the receiver, with nothing before it on the way. */
  lemma NeverOpened(w: World, r: Ref)
    requires Fits(w) && Sendable(w.a.n.l, r) && !Reached(w.a.n.l, r) && w.ab == [] && w.b.n.cur.None?
    ensures var p := Parent(w.a.n.l, r); p.msgid != 0 && !p.opposite && Key(ROOT, p.msgid) !in w.b.n.l.rd
  {
    hide Once;
    NameOf(w.a, r);
    var id := Parent(w.a.n.l, r).msgid;
    assert Same(w.a, w.b, w.ab, w.ba, id);
    assert Stream(w.b, w.ab, false, id) == [];
    assert Seen(w.b, true, id).None?;
    ViewEntry(w.b.n.l, w.b.g, true, id);
  }

  lemma Unheard(s: Sys, r: Ref, last: bool, abort: bool, addr: Ref)
    requires Good(s) && Sendable(s.a.l, r) && !Reached(s.a.l, r) && s.ab == [] && s.b.cur.None?
    ensures MsgRx(s.b.l, ROOT, FirstMsg(s.a.l, r, last, abort), addr).Fault?
  {
    hide Fits, Reached;
    var w :| Fits(w) && Erase(w) == s;
    assert w.ab == [];
    NeverOpened(w, r);
  }

  lemma Heard(s: Sys, r: Ref, last: bool, abort: bool, addr: Ref)
    requires Good(s) && CanDo(s, Start(r, last, abort))
    requires s.ab == [] && s.b.cur.None? && addr !in s.b.l.mem && addr != 0
    ensures MsgRx(s.b.l, ROOT, FirstMsg(s.a.l, r, last, abort), addr).Ok?
  {
    hide Good, Write, MsgRx, Reached;
    StepGood(s, Start(r, last, abort));
    var cmd := DmsgRuns.FirstCmd.(delete := last, abort := abort);
    assert Write(s.a.l, r, cmd).Ok?;
    WriteIsHeader(s.a.l, r, cmd);
    var s' := Do(s, Start(r, last, abort)).value;
    assert s' == s.(a := s.a.(l := Write(s.a.l, r, cmd).value.0), ab := [FirstMsg(s.a.l, r, last, abort)]);
    FlipGood(s');
    StepGood(Flip(s'), Receive(addr));
  }

  lemma WriteIsHeader(l: Lib, r: Ref, cmd: Cmd)
    requires Sendable(l, r) && Write(l, r, cmd).Ok?
    ensures Write(l, r, cmd).value.1 == Header(l, r, cmd)
  {
  }

  /**
   In every situation the two ends can be in: the first message of a transaction is received, when
   the messages before it have been received and handled, if and only if the transaction it is
   stacked under has been started.  Otherwise the assertion about the missing circuit fires.
   */
  lemma StartedInOrder(s: Sys, r: Ref, last: bool, abort: bool, moves: seq<Move>, addr: Ref)
    requires Good(s) && DmsgRuns.Allowed(s.a.l, DmsgRuns.Start(r, last))
    requires forall i :: 0 <= i < |moves| ==> !moves[i].byA
    ensures Run(s, moves).Ok?
    ensures var s' := Run(s, moves).value;
            s'.ab == [] && s'.b.cur.None? && addr !in s'.b.l.mem && addr != 0 ==>
              && (MsgRx(s'.b.l, ROOT, FirstMsg(s.a.l, r, last, abort), addr).Ok? <==> Reached(s.a.l, r))
              && (MsgRx(s'.b.l, ROOT, FirstMsg(s.a.l, r, last, abort), addr).Fault? <==> !Reached(s.a.l, r))
  {
    hide Good, MsgRx, Reached, Sendable;
    RunGood(s, moves);
    OnlyBActs(s, moves);
    hide Run;
    var s' := Run(s, moves).value;
    if s'.ab == [] && s'.b.cur.None? && addr !in s'.b.l.mem && addr != 0 {
      if Reached(s.a.l, r) {
        Heard(s', r, last, abort, addr);
      } else {
        Unheard(s', r, last, abort, addr);
      }
    }
  }

  /** Concretely, on a connection just made. */
  lemma UnstartedCircuitFaults()
    ensures var l := Open(Open(Fresh0, ROOT, 2), 2, 3);
            && Sendable(l, 3) && !Reached(l, 3) && Write(l, 3, DmsgRuns.FirstCmd).Ok?
            && MsgRx(Init.b.l, ROOT, Write(l, 3, DmsgRuns.FirstCmd).value.1, 2).Fault?
  {
    var l := Open(Open(Fresh0, ROOT, 2), 2, 3);
    assert l.mem[3] == Local(Open(Fresh0, ROOT, 2), 2, 3);
    assert Write(l, 3, DmsgRuns.FirstCmd).value.1 == Msg(3, 2, DmsgRuns.FirstCmd);
  }

  /** The transaction an end keeps under an id: one of its own, or (`opp`) of the other end's. */
  function Kept(l: Lib, opp: bool, id: nat): Option<State> {
    var t, k := Tree(l, opp), Key(ROOT, id);
    if k in t && t[k] in l.mem then Some(l.mem[t[k]]) else None
  }

  predicate AtTop(s: State) { s.parent == Some(ROOT) }

  lemma KeptIsSeen(e: End, opp: bool, id: nat)
    requires EndOk(e)
    ensures Kept(e.n.l, opp, id).Some? <==> Seen(e, opp, id).Some?
    ensures Kept(e.n.l, opp, id).Some? ==>
              var s, h := Kept(e.n.l, opp, id).value, Seen(e, opp, id).value;
              s.txcmd == h.tx && s.rxcmd == h.rx && h.tag.Tag? && (AtTop(s) <==> h.tag.up == Top)
  {
    ViewEntry(e.n.l, e.g, opp, id);
    if Seen(e, opp, id).Some? {
      ParentOf(e.n.l, e.g, Tree(e.n.l, opp)[Key(ROOT, id)]);
    }
  }

  /**
   Once nothing is on the way and no handler is running, the two ends keep the same
   transactions: what one has started is what the other has open, closed to the same extent,
   and at top level at both ends or at neither.
   */
  lemma QuietEndsAgree(moves: seq<Move>, id: nat)
    requires id != 0
    ensures Run(Init, moves).Ok?
    ensures var s := Run(Init, moves).value;
            var a, b := Kept(s.a.l, false, id), Kept(s.b.l, true, id);
            s.ab == [] && s.ba == [] && s.a.cur.None? && s.b.cur.None? ==>
              && (b.Some? <==> a.Some? && a.value.txcmd.create)
              && (b.Some? ==> a.value.txcmd.delete == b.value.rxcmd.delete)
              && (b.Some? ==> a.value.rxcmd.delete == b.value.txcmd.delete)
              && (b.Some? ==> (AtTop(a.value) <==> AtTop(b.value)))
  {
    hide Once, Tidy;
    InitGood();
    RunGood(Init, moves);
    var s := Run(Init, moves).value;
    hide Run;
    var w :| Fits(w) && Erase(w) == s;
    assert Same(w.a, w.b, w.ab, w.ba, id);
    KeptIsSeen(w.a, false, id);
    KeptIsSeen(w.b, true, id);
    if s.ab == [] && s.ba == [] && s.a.cur.None? && s.b.cur.None? {
      assert w.ab == [] && w.ba == [];
      QuietMeansEqual(Seen(w.a, false, id), Seen(w.b, true, id));
    }
  }
}
