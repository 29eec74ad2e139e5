/** The tunnel server of internal/server/tunnel/tunnel.go: two pumps that share one byte counter, and the
  * admission of connections (nonce, then policy, then slot). */
module Tunnel {
  import opened Wrappers
  import RateLimit
  import Auth
  import AuthRuns

  // ----- the pumps -----

  datatype Limits = Limits(maxBytes: nat, buffer: nat)

  /** Where a pump is: reading, writing what it read (ended remembers that the read also reported an end),
    * about to add to the counter, or gone. unpaid is what it wrote and never counted. */
  datatype Pc =
    | Reading
    | Writing(buf: Bytes, written: nat, ended: bool)
    | Counting(n: nat, ended: bool)
    | Stopped(unpaid: nat, capped: bool)

  /** One direction. read and out are everything read and delivered so far, counted what went into the counter. */
  datatype Side = Side(pc: Pc, read: Bytes, out: Bytes, counted: nat)

  datatype Pumps = Pumps(total: nat, a: Side, b: Side)

  datatype PumpStep =
    | Read(left: bool, data: Bytes, ended: bool)
    | Write(left: bool, k: nat, fails: bool)
    | Count(left: bool)

  function Get(s: Pumps, left: bool): Side {
    if left then s.a else s.b
  }

  function Set(s: Pumps, left: bool, x: Side): Pumps {
    if left then s.(a := x) else s.(b := x)
  }

  ghost predicate PumpEnabled(l: Limits, s: Pumps, t: PumpStep) {
    match t
    case Read(left, data, _) => Get(s, left).pc.Reading? && |data| <= l.buffer
    case Write(left, k, _) => Get(s, left).pc.Writing? && Get(s, left).pc.written + k <= |Get(s, left).pc.buf|
    case Count(left) => Get(s, left).pc.Counting?
  }

  function PumpApply(l: Limits, s: Pumps, t: PumpStep): Pumps
    requires PumpEnabled(l, s, t)
  {
    var x := Get(s, t.left);
    match t
    case Read(left, data, ended) =>
      if |data| > 0 then Set(s, left, x.(pc := Writing(data, 0, ended), read := x.read + data))
      else Set(s, left, x.(pc := if ended then Stopped(0, false) else Reading))
    case Write(left, k, fails) =>
      var buf, w := x.pc.buf, x.pc.written + k;
      var y := x.(out := x.out + buf[x.pc.written..w]);
      Set(s, left, y.(pc := if fails then Stopped(w, false)
                            else if w < |buf| then Writing(buf, w, x.pc.ended) else Counting(w, x.pc.ended)))
    case Count(left) =>
      var total := s.total + x.pc.n;
      var y := x.(counted := x.counted + x.pc.n,
                  pc := if total > l.maxBytes then Stopped(0, true) else if x.pc.ended then Stopped(0, false) else Reading);
      Set(s.(total := total), left, y)
  }

  ghost predicate PumpRun(l: Limits, s: Pumps, ts: seq<PumpStep>)
    decreases |ts|
  {
    ts == [] || (PumpEnabled(l, s, ts[0]) && PumpRun(l, PumpApply(l, s, ts[0]), ts[1..]))
  }

  ghost function PumpExec(l: Limits, s: Pumps, ts: seq<PumpStep>): Pumps
    requires PumpRun(l, s, ts)
    decreases |ts|
  {
    if ts == [] then s else PumpExec(l, PumpApply(l, s, ts[0]), ts[1..])
  }

  const OPENED: Pumps := Pumps(0, Side(Reading, [], [], 0), Side(Reading, [], [], 0))

  function Unpaid(x: Side): nat {
    match x.pc
    case Reading => 0
    case Writing(_, written, _) => written
    case Counting(n, _) => n
    case Stopped(unpaid, _) => unpaid
  }

  function Overrun(l: Limits, x: Side): nat {
    if x.pc.Stopped? && x.pc.capped then l.buffer else 0
  }

  ghost predicate SideOk(l: Limits, x: Side) {
    && |x.out| == x.counted + Unpaid(x) && Unpaid(x) <= l.buffer
    && (x.pc.Stopped? && x.pc.capped ==> x.pc.unpaid == 0)
    && (x.pc.Writing? ==>
          && |x.pc.buf| <= l.buffer && x.pc.written <= |x.pc.buf|
          && x.read == x.out + x.pc.buf[x.pc.written..])
    && (!x.pc.Writing? && !x.pc.Stopped? ==> x.out == x.read)
    && x.out <= x.read
  }

  ghost predicate PumpsOk(l: Limits, s: Pumps) {
    && SideOk(l, s.a) && SideOk(l, s.b)
    && s.total == s.a.counted + s.b.counted
    && s.total <= l.maxBytes + Overrun(l, s.a) + Overrun(l, s.b)
  }

  /** The buffer from w on, behind what has been delivered. */
  lemma Delivered(read: Bytes, out: Bytes, buf: Bytes, w: nat, v: nat)
    requires w <= v <= |buf| && read == out + buf[w..]
    ensures read == out + buf[w..v] + buf[v..] && out + buf[w..v] <= read
  {
    assert buf[w..] == buf[w..v] + buf[v..];
    assert read == out + buf[w..v] + buf[v..];
  }

  lemma WriteKeepsSide(l: Limits, s: Pumps, t: PumpStep)
    requires SideOk(l, Get(s, t.left)) && PumpEnabled(l, s, t) && t.Write?
    ensures SideOk(l, Get(PumpApply(l, s, t), t.left))
  {
    var x := Get(s, t.left);
    Delivered(x.read, x.out, x.pc.buf, x.pc.written, x.pc.written + t.k);
  }

  lemma PumpKeeps(l: Limits, s: Pumps, t: PumpStep)
    requires PumpsOk(l, s) && PumpEnabled(l, s, t)
    ensures PumpsOk(l, PumpApply(l, s, t))
  {
    match t
    case Read(left, data, _) =>
      assert data[0..] == data;
    case Write(_, _, _) => WriteKeepsSide(l, s, t);
    case Count(_) =>
  }

  lemma {:induction false} PumpsKeep(l: Limits, s: Pumps, ts: seq<PumpStep>)
    requires PumpsOk(l, s) && PumpRun(l, s, ts)
    ensures PumpsOk(l, PumpExec(l, s, ts))
    decreases |ts|
  {
    if ts != [] {
      PumpKeeps(l, s, ts[0]);
      PumpsKeep(l, PumpApply(l, s, ts[0]), ts[1..]);
    }
  }

  /** Under every schedule of the two pumps and every pattern of short or failing writes, at most
    * maxBytes + 2 * buffer bytes are delivered, and each direction delivers a prefix of what it read. */
  lemma DeliveredBound(l: Limits, ts: seq<PumpStep>)
    requires PumpRun(l, OPENED, ts)
    ensures var e := PumpExec(l, OPENED, ts);
            && |e.a.out| + |e.b.out| <= l.maxBytes + 2 * l.buffer
            && e.a.out <= e.a.read && e.b.out <= e.b.read
  {
    PumpsKeep(l, OPENED, ts);
  }

  /** The counter misses at most one buffer per direction, and nothing once both pumps stopped without a failed write. */
  lemma CounterAccuracy(l: Limits, ts: seq<PumpStep>)
    requires PumpRun(l, OPENED, ts)
    ensures var e := PumpExec(l, OPENED, ts);
            && e.total <= |e.a.out| + |e.b.out| <= e.total + 2 * l.buffer
            && (e.a.pc.Stopped? && e.b.pc.Stopped? && e.a.pc.unpaid == 0 && e.b.pc.unpaid == 0 ==>
                  e.total == |e.a.out| + |e.b.out|)
  {
    PumpsKeep(l, OPENED, ts);
  }

  lemma {:induction false} PumpSnoc(l: Limits, s: Pumps, ts: seq<PumpStep>, t: PumpStep)
    requires PumpRun(l, s, ts) && PumpEnabled(l, PumpExec(l, s, ts), t)
    ensures PumpRun(l, s, ts + [t]) && PumpExec(l, s, ts + [t]) == PumpApply(l, PumpExec(l, s, ts), t)
    decreases |ts|
  {
    if ts == [] {
      assert [] + [t] == [t] && [t][1..] == [];
    } else {
      assert (ts + [t])[1..] == ts[1..] + [t];
      PumpSnoc(l, PumpApply(l, s, ts[0]), ts[1..], t);
    }
  }

  lemma Transfer(l: Limits, us: seq<PumpStep>, left: bool, data: Bytes) returns (ts: seq<PumpStep>)
    requires PumpRun(l, OPENED, us) && 0 < |data| <= l.buffer
    requires Get(PumpExec(l, OPENED, us), left).pc.Reading?
    ensures PumpRun(l, OPENED, ts)
    ensures var s := PumpExec(l, OPENED, us); var e := PumpExec(l, OPENED, ts);
            && e.total == s.total && Get(e, !left) == Get(s, !left)
            && Get(e, left).pc == Counting(|data|, false) && |Get(e, left).out| == |Get(s, left).out| + |data|
  {
    PumpSnoc(l, OPENED, us, Read(left, data, false));
    ts := us + [Read(left, data, false)];
    PumpSnoc(l, OPENED, ts, Write(left, |data|, false));
    ts := ts + [Write(left, |data|, false)];
  }

  /** The bound is sharp: with a limit of exactly one buffer, three buffers get through. */
  lemma BoundIsReached(data: Bytes) returns (l: Limits, ts: seq<PumpStep>)
    requires |data| > 0
    ensures l == Limits(|data|, |data|) && PumpRun(l, OPENED, ts)
    ensures var e := PumpExec(l, OPENED, ts); |e.a.out| + |e.b.out| == l.maxBytes + 2 * l.buffer
  {
    l := Limits(|data|, |data|);
    ts := Transfer(l, [], true, data);
    PumpSnoc(l, OPENED, ts, Count(true));
    ts := ts + [Count(true)];
    ts := Transfer(l, ts, true, data);
    ts := Transfer(l, ts, false, data);
  }

  // ----- a pump whose read has reported an end -----

  ghost predicate NoRead(ts: seq<PumpStep>, left: bool) {
    forall i :: 0 <= i < |ts| ==> !(ts[i].Read? && ts[i].left == left)
  }

  ghost predicate NoFailure(ts: seq<PumpStep>, left: bool) {
    forall i :: 0 <= i < |ts| ==> !(ts[i].Write? && ts[i].left == left && ts[i].fails)
  }

  ghost predicate Ending(x: Side) {
    match x.pc
    case Reading => false
    case Writing(_, _, ended) => ended
    case Counting(_, ended) => ended
    case Stopped(_, _) => true
  }

  /** What is read is delivered or in the buffer, and what is delivered is counted or about to be. */
  ghost predicate Delivering(x: Side) {
    match x.pc
    case Reading => x.out == x.read && x.counted == |x.out|
    case Writing(buf, written, _) => written <= |buf| && x.read == x.out + buf[written..] && |x.out| == x.counted + written
    case Counting(n, _) => x.out == x.read && |x.out| == x.counted + n
    case Stopped(_, _) => x.out == x.read && x.counted == |x.out|
  }

  lemma EndingStep(l: Limits, s: Pumps, t: PumpStep, left: bool)
    requires PumpEnabled(l, s, t) && Ending(Get(s, left))
    ensures !(t.Read? && t.left == left)
    ensures var y := Get(PumpApply(l, s, t), left); Ending(y) && y.read == Get(s, left).read
  {
  }

  lemma DeliveringWrite(l: Limits, s: Pumps, t: PumpStep)
    requires PumpEnabled(l, s, t) && Delivering(Get(s, t.left)) && t.Write? && !t.fails
    ensures Delivering(Get(PumpApply(l, s, t), t.left))
  {
    var x := Get(s, t.left);
    Delivered(x.read, x.out, x.pc.buf, x.pc.written, x.pc.written + t.k);
  }

  lemma DeliveringRead(l: Limits, s: Pumps, t: PumpStep)
    requires PumpEnabled(l, s, t) && Delivering(Get(s, t.left)) && t.Read?
    ensures Delivering(Get(PumpApply(l, s, t), t.left))
  {
    assert t.data[0..] == t.data;
  }

  lemma OtherSide(l: Limits, s: Pumps, t: PumpStep)
    requires PumpEnabled(l, s, t)
    ensures Get(PumpApply(l, s, t), !t.left) == Get(s, !t.left)
  {
  }

  lemma DeliveringStep(l: Limits, s: Pumps, t: PumpStep, left: bool)
    requires PumpEnabled(l, s, t) && Delivering(Get(s, left)) && !(t.Write? && t.left == left && t.fails)
    ensures Delivering(Get(PumpApply(l, s, t), left))
  {
    if t.left != left {
      OtherSide(l, s, t);
    } else if t.Write? {
      DeliveringWrite(l, s, t);
    } else if t.Read? {
      DeliveringRead(l, s, t);
    }
  }

  lemma {:induction false} EndingStays(l: Limits, s: Pumps, ts: seq<PumpStep>, left: bool)
    requires PumpRun(l, s, ts) && Ending(Get(s, left))
    ensures NoRead(ts, left)
    ensures var y := Get(PumpExec(l, s, ts), left); Ending(y) && y.read == Get(s, left).read
    decreases |ts|
  {
    if ts != [] {
      EndingStep(l, s, ts[0], left);
      EndingStays(l, PumpApply(l, s, ts[0]), ts[1..], left);
    }
  }

  lemma {:induction false} DeliveringStays(l: Limits, s: Pumps, ts: seq<PumpStep>, left: bool)
    requires PumpRun(l, s, ts) && Delivering(Get(s, left)) && NoFailure(ts, left)
    ensures Delivering(Get(PumpExec(l, s, ts), left))
    decreases |ts|
  {
    if ts != [] {
      DeliveringStep(l, s, ts[0], left);
      assert forall i :: 0 <= i < |ts| - 1 ==> ts[1..][i] == ts[i + 1];
      DeliveringStays(l, PumpApply(l, s, ts[0]), ts[1..], left);
    }
  }

  /** A pump whose read reported an end reads nothing more in any continuation, and if none of its writes fails it stops
    * only when everything it has read, the last buffer included, is delivered and counted. */
  lemma EndedPumpFinishes(l: Limits, us: seq<PumpStep>, left: bool, data: Bytes, ts: seq<PumpStep>)
    requires PumpRun(l, OPENED, us) && PumpEnabled(l, PumpExec(l, OPENED, us), Read(left, data, true))
    requires PumpRun(l, PumpApply(l, PumpExec(l, OPENED, us), Read(left, data, true)), ts)
    ensures NoRead(ts, left)
    ensures var s := PumpExec(l, OPENED, us); var e := PumpExec(l, PumpApply(l, s, Read(left, data, true)), ts);
            && !Get(e, left).pc.Reading? && Get(e, left).read == Get(s, left).read + data
            && (NoFailure(us, left) && NoFailure(ts, left) && Get(e, left).pc.Stopped? ==>
                  Get(e, left).out == Get(s, left).read + data && Get(e, left).counted == |Get(e, left).out|)
  {
    var s := PumpExec(l, OPENED, us);
    var s' := PumpApply(l, s, Read(left, data, true));
    EndingStays(l, s', ts, left);
    if NoFailure(us, left) && NoFailure(ts, left) {
      DeliveringStays(l, OPENED, us, left);
      DeliveringStep(l, s, Read(left, data, true), left);
      DeliveringStays(l, s', ts, left);
    }
  }

  /** One whole pass over a buffer: afterwards the pump reads again, unless the count is over the limit or the read
    * had reported an end; then it has stopped. */
  lemma WholePass(l: Limits, us: seq<PumpStep>, left: bool, data: Bytes, ended: bool)
    requires PumpRun(l, OPENED, us) && 0 < |data| <= l.buffer && Get(PumpExec(l, OPENED, us), left).pc.Reading?
    ensures var ts := us + [Read(left, data, ended)] + [Write(left, |data|, false)] + [Count(left)];
            && PumpRun(l, OPENED, ts)
            && var s := PumpExec(l, OPENED, us); var e := PumpExec(l, OPENED, ts);
               && e.total == s.total + |data| && Get(e, !left) == Get(s, !left)
               && Get(e, left).out == Get(s, left).out + data
               && (Get(e, left).pc.Reading? <==> !ended && s.total + |data| <= l.maxBytes)
               && (Get(e, left).pc.Stopped? <==> ended || s.total + |data| > l.maxBytes)
  {
    var s := PumpExec(l, OPENED, us);
    PumpSnoc(l, OPENED, us, Read(left, data, ended));
    PumpSnoc(l, OPENED, us + [Read(left, data, ended)], Write(left, |data|, false));
    assert data[0..|data|] == data;
    PumpSnoc(l, OPENED, us + [Read(left, data, ended)] + [Write(left, |data|, false)], Count(left));
  }

  // ----- admission -----

  /** A connection handler. at is the index of the nonce check that let it through; Gone got that far, Closed did not. */
  datatype Handler =
    | Started
    | Authed(id: string, nonce: string)
    | Admitted(id: string, nonce: string, at: nat)
    | Holding(id: string, nonce: string, at: nat)
    | Gone(id: string, nonce: string, at: nat)
    | Closed

  /** late bounds how much older than an earlier served check a nonce check may be. */
  datatype Gate = Gate(maxConns: int, ttl: int, maxMem: nat, late: nat)

  /** checks is the history of nonce checks, which determines the nonce map. */
  datatype Server = Server(handlers: seq<Handler>, checks: seq<AuthRuns.Check>, slots: RateLimit.Held)

  datatype Step =
    | Open
    | Validated(h: nat, id: string, nonce: string)
    | Reject(h: nat)
    | CheckNonce(h: nat, now: int)
    | TakeSlot(h: nat)
    | Leave(h: nat)

  ghost predicate Enabled(g: Gate, s: Server, t: Step) {
    match t
    case Open => true
    case Validated(h, _, _) => h < |s.handlers| && s.handlers[h].Started?
    case Reject(h) => h < |s.handlers| && (s.handlers[h].Started? || s.handlers[h].Authed? || s.handlers[h].Admitted?)
    case CheckNonce(h, now) =>
      && h < |s.handlers| && s.handlers[h].Authed?
      && (forall k :: 0 <= k < |s.checks| ==> s.checks[k].now - g.late <= now)
    case TakeSlot(h) => h < |s.handlers| && s.handlers[h].Admitted?
    case Leave(h) => h < |s.handlers| && s.handlers[h].Holding?
  }

  function Apply(g: Gate, s: Server, t: Step): Server
    requires Enabled(g, s, t)
  {
    match t
    case Open => s.(handlers := s.handlers + [Started])
    case Validated(h, id, nonce) => s.(handlers := s.handlers[h := Authed(id, nonce)])
    case Reject(h) =>
      var x := s.handlers[h];
      s.(handlers := s.handlers[h := if x.Admitted? then Gone(x.id, x.nonce, x.at) else Closed])
    case CheckNonce(h, now) =>
      var x := s.handlers[h];
      var checks := s.checks + [AuthRuns.Check(Auth.NonceKey(x.id, x.nonce), now)];
      var ok := AuthRuns.Accepts(g.ttl, g.maxMem, checks, |s.checks|);
      s.(checks := checks, handlers := s.handlers[h := if ok then Admitted(x.id, x.nonce, |s.checks|) else Closed])
    case TakeSlot(h) =>
      var x := s.handlers[h];
      var r := RateLimit.Acquired(g.maxConns, s.slots, x.id);
      if r.Some? then s.(slots := r.value, handlers := s.handlers[h := Holding(x.id, x.nonce, x.at)])
      else s.(handlers := s.handlers[h := Gone(x.id, x.nonce, x.at)])
    case Leave(h) =>
      var x := s.handlers[h];
      s.(slots := RateLimit.Released(s.slots, x.id), handlers := s.handlers[h := Gone(x.id, x.nonce, x.at)])
  }

  ghost predicate Run(g: Gate, s: Server, ts: seq<Step>)
    decreases |ts|
  {
    ts == [] || (Enabled(g, s, ts[0]) && Run(g, Apply(g, s, ts[0]), ts[1..]))
  }

  ghost function Exec(g: Gate, s: Server, ts: seq<Step>): Server
    requires Run(g, s, ts)
    decreases |ts|
  {
    if ts == [] then s else Exec(g, Apply(g, s, ts[0]), ts[1..])
  }

  const UP: Server := Server([], [], map[])

  /** How many handlers hold a slot of a token. */
  function Holders(hs: seq<Handler>, id: string): nat {
    if hs == [] then 0 else Holders(hs[1..], id) + if hs[0].Holding? && hs[0].id == id then 1 else 0
  }

  function HoldsOne(x: Handler, id: string): nat {
    if x.Holding? && x.id == id then 1 else 0
  }

  lemma {:induction false} HoldersUpdate(hs: seq<Handler>, h: nat, x: Handler, id: string)
    requires h < |hs|
    ensures Holders(hs[h := x], id) == Holders(hs, id) - HoldsOne(hs[h], id) + HoldsOne(x, id)
  {
    if h == 0 {
      assert hs[h := x][1..] == hs[1..];
    } else {
      assert hs[h := x][1..] == hs[1..][h - 1 := x];
      HoldersUpdate(hs[1..], h - 1, x, id);
    }
  }

  lemma {:induction false} HoldersAppend(hs: seq<Handler>, x: Handler, id: string)
    ensures Holders(hs + [x], id) == Holders(hs, id) + HoldsOne(x, id)
  {
    if hs == [] {
      assert hs + [x] == [x];
    } else {
      assert (hs + [x])[1..] == hs[1..] + [x];
      HoldersAppend(hs[1..], x, id);
    }
  }

  ghost predicate TokenOk(g: Gate, s: Server, id: string) {
    && RateLimit.HeldBy(s.slots, id) == Holders(s.handlers, id)
    && Holders(s.handlers, id) <= g.maxConns
    && (id in s.slots ==> s.slots[id] >= 1)
  }

  ghost predicate SlotsOk(g: Gate, s: Server) {
    forall id :: TokenOk(g, s, id)
  }

  ghost predicate PastNonce(x: Handler) {
    x.Admitted? || x.Holding? || x.Gone?
  }

  ghost predicate NonceOk(g: Gate, checks: seq<AuthRuns.Check>, x: Handler) {
    PastNonce(x) ==>
      && x.at < |checks| && checks[x.at].key == Auth.NonceKey(x.id, x.nonce)
      && AuthRuns.Accepts(g.ttl, g.maxMem, checks, x.at)
  }

  ghost predicate NoncesOk(g: Gate, s: Server) {
    && AuthRuns.Late(s.checks, g.late)
    && (forall h :: 0 <= h < |s.handlers| ==> NonceOk(g, s.checks, s.handlers[h]))
    && (forall i, j :: 0 <= i < j < |s.handlers| && PastNonce(s.handlers[i]) && PastNonce(s.handlers[j]) ==>
          s.handlers[i].at != s.handlers[j].at)
  }

  ghost predicate Inv(g: Gate, s: Server) {
    g.maxConns >= 1 && SlotsOk(g, s) && NoncesOk(g, s)
  }

  lemma {:induction false} SeenPrefix(g: Gate, checks: seq<AuthRuns.Check>, c: AuthRuns.Check, n: nat)
    requires n <= |checks|
    ensures AuthRuns.SeenAfter(g.ttl, g.maxMem, checks + [c], n) == AuthRuns.SeenAfter(g.ttl, g.maxMem, checks, n)
  {
    if n > 0 { SeenPrefix(g, checks, c, n - 1); }
  }

  lemma MoreChecks(g: Gate, checks: seq<AuthRuns.Check>, c: AuthRuns.Check, x: Handler)
    requires NonceOk(g, checks, x)
    ensures NonceOk(g, checks + [c], x)
  {
    if PastNonce(x) { SeenPrefix(g, checks, c, x.at); }
  }

  /** A step that neither takes nor gives back a slot. */
  lemma SlotsUntouched(g: Gate, s: Server, h: nat, x: Handler)
    requires SlotsOk(g, s) && h < |s.handlers| && !s.handlers[h].Holding? && !x.Holding?
    ensures SlotsOk(g, s.(handlers := s.handlers[h := x]))
  {
    var s' := s.(handlers := s.handlers[h := x]);
    forall id
      ensures TokenOk(g, s', id)
    {
      assert TokenOk(g, s, id);
      HoldersUpdate(s.handlers, h, x, id);
    }
  }

  lemma SlotsSame(g: Gate, s: Server, s': Server)
    requires SlotsOk(g, s) && s'.handlers == s.handlers && s'.slots == s.slots
    ensures SlotsOk(g, s')
  {
    forall id
      ensures TokenOk(g, s', id)
    {
      assert TokenOk(g, s, id);
    }
  }

  lemma SlotTaken(g: Gate, s: Server, t: Step, id: string)
    requires TokenOk(g, s, id) && Enabled(g, s, t) && t.TakeSlot?
    ensures TokenOk(g, Apply(g, s, t), id)
  {
    HoldersUpdate(s.handlers, t.h, Apply(g, s, t).handlers[t.h], id);
  }

  lemma SlotLeft(g: Gate, s: Server, t: Step, id: string)
    requires TokenOk(g, s, id) && Enabled(g, s, t) && t.Leave?
    ensures TokenOk(g, Apply(g, s, t), id)
  {
    HoldersUpdate(s.handlers, t.h, Apply(g, s, t).handlers[t.h], id);
  }

  lemma SlotsMove(g: Gate, s: Server, t: Step)
    requires SlotsOk(g, s) && Enabled(g, s, t) && (t.TakeSlot? || t.Leave?)
    ensures SlotsOk(g, Apply(g, s, t))
  {
    forall id
      ensures TokenOk(g, Apply(g, s, t), id)
    {
      assert TokenOk(g, s, id);
      if t.TakeSlot? { SlotTaken(g, s, t, id); } else { SlotLeft(g, s, t, id); }
    }
  }

  lemma SlotsKeep(g: Gate, s: Server, t: Step)
    requires Inv(g, s) && Enabled(g, s, t)
    ensures SlotsOk(g, Apply(g, s, t))
  {
    if t.TakeSlot? || t.Leave? {
      SlotsMove(g, s, t);
    } else if t.Open? {
      forall id
        ensures TokenOk(g, Apply(g, s, t), id)
      {
        assert TokenOk(g, s, id);
        HoldersAppend(s.handlers, Started, id);
      }
    } else {
      SlotsUntouched(g, s, t.h, Apply(g, s, t).handlers[t.h]);
      SlotsSame(g, s.(handlers := Apply(g, s, t).handlers), Apply(g, s, t));
    }
  }

  /** A handler that has not got past its check is replaced by another such one, or one that has keeps what it has. */
  lemma NonceSwap(g: Gate, s: Server, s': Server, h: nat, x: Handler)
    requires NoncesOk(g, s) && h < |s.handlers| && s'.handlers == s.handlers[h := x] && s'.checks == s.checks
    requires PastNonce(x) ==>
               var y := s.handlers[h]; PastNonce(y) && x.id == y.id && x.nonce == y.nonce && x.at == y.at
    ensures NoncesOk(g, s')
  {
    assert NonceOk(g, s.checks, s.handlers[h]);
  }

  /** A step that checks no nonce keeps who got past which check. */
  lemma NoncesUntouched(g: Gate, s: Server, t: Step)
    requires NoncesOk(g, s) && Enabled(g, s, t) && !t.CheckNonce?
    ensures NoncesOk(g, Apply(g, s, t))
  {
    if !t.Open? { NonceSwap(g, s, Apply(g, s, t), t.h, Apply(g, s, t).handlers[t.h]); }
  }

  lemma NonceChecked(g: Gate, s: Server, t: Step)
    requires NoncesOk(g, s) && Enabled(g, s, t) && t.CheckNonce?
    ensures NoncesOk(g, Apply(g, s, t))
  {
    var s' := Apply(g, s, t);
    forall h | 0 <= h < |s.handlers|
      ensures NonceOk(g, s'.checks, s.handlers[h]) && (PastNonce(s.handlers[h]) ==> s.handlers[h].at < |s.checks|)
    {
      MoreChecks(g, s.checks, s'.checks[|s.checks|], s.handlers[h]);
      assert NonceOk(g, s.checks, s.handlers[h]);
    }
  }

  lemma NoncesKeep(g: Gate, s: Server, t: Step)
    requires NoncesOk(g, s) && Enabled(g, s, t)
    ensures NoncesOk(g, Apply(g, s, t))
  {
    if t.CheckNonce? { NonceChecked(g, s, t); } else { NoncesUntouched(g, s, t); }
  }

  lemma {:induction false} RunKeeps(g: Gate, s: Server, ts: seq<Step>)
    requires Inv(g, s) && Run(g, s, ts)
    ensures Inv(g, Exec(g, s, ts))
    decreases |ts|
  {
    if ts != [] {
      SlotsKeep(g, s, ts[0]);
      NoncesKeep(g, s, ts[0]);
      RunKeeps(g, Apply(g, s, ts[0]), ts[1..]);
    }
  }

  /** Per token, the handlers that hold a slot are exactly what the counter says, never more than the cap, and
    * the counter map has no entry for a token without holders. */
  lemma SlotsExact(g: Gate, ts: seq<Step>, id: string)
    requires g.maxConns >= 1 && Run(g, UP, ts)
    ensures var e := Exec(g, UP, ts);
            && RateLimit.HeldBy(e.slots, id) == Holders(e.handlers, id) <= g.maxConns
            && (id in e.slots <==> Holders(e.handlers, id) > 0)
  {
    RunKeeps(g, UP, ts);
    assert TokenOk(g, Exec(g, UP, ts), id);
  }

  /** A handler that asks for a slot gets one if and only if fewer than maxConns handlers of its token hold one. */
  lemma SlotGrantedExactly(g: Gate, ts: seq<Step>, h: nat)
    requires g.maxConns >= 1 && Run(g, UP, ts) && Enabled(g, Exec(g, UP, ts), TakeSlot(h))
    ensures var s := Exec(g, UP, ts); var e := Apply(g, s, TakeSlot(h)); var id := s.handlers[h].id;
            && (e.handlers[h].Holding? <==> Holders(s.handlers, id) < g.maxConns)
            && (!e.handlers[h].Holding? ==> e.slots == s.slots && e.handlers[h].Gone?)
            && Holders(e.handlers, id) == Holders(s.handlers, id) + if e.handlers[h].Holding? then 1 else 0
  {
    RunKeeps(g, UP, ts);
    var s := Exec(g, UP, ts);
    var id := s.handlers[h].id;
    assert TokenOk(g, s, id);
    HoldersUpdate(s.handlers, h, Apply(g, s, TakeSlot(h)).handlers[h], id);
  }

  /** No check so far was of this handler's token and nonce. */
  ghost predicate Unchecked(s: Server, h: nat)
    requires h < |s.handlers| && s.handlers[h].Authed?
  {
    var key := Auth.NonceKey(s.handlers[h].id, s.handlers[h].nonce);
    forall k :: 0 <= k < |s.checks| ==> s.checks[k].key != key
  }

  /** A handler whose token never came with its nonce before is let through the nonce check. */
  lemma FreshNonceAdmitted(g: Gate, ts: seq<Step>, h: nat, now: int)
    requires Run(g, UP, ts) && Enabled(g, Exec(g, UP, ts), CheckNonce(h, now))
    requires Unchecked(Exec(g, UP, ts), h)
    ensures Apply(g, Exec(g, UP, ts), CheckNonce(h, now)).handlers[h].Admitted?
  {
    var s := Exec(g, UP, ts);
    var x := s.handlers[h];
    var checks := s.checks + [AuthRuns.Check(Auth.NonceKey(x.id, x.nonce), now)];
    forall k | 0 <= k < |s.checks| ensures checks[k].key != checks[|s.checks|].key { assert checks[k] == s.checks[k]; }
    AuthRuns.FirstUseAccepted(g.ttl, g.maxMem, checks, |s.checks|);
  }

  /** Of all handlers of a run, two that got past the nonce check with the same token and nonce, whatever became of
    * them, did so more than the ttl less the lateness apart, or the nonce map was emptied in between. */
  lemma NoReplayAdmitted(g: Gate, ts: seq<Step>, i: nat, j: nat)
    requires g.maxConns >= 1 && Run(g, UP, ts)
    requires var e := Exec(g, UP, ts);
             && i < |e.handlers| && j < |e.handlers| && PastNonce(e.handlers[i]) && PastNonce(e.handlers[j])
             && i != j && e.handlers[i].at <= e.handlers[j].at
             && e.handlers[i].id == e.handlers[j].id && e.handlers[i].nonce == e.handlers[j].nonce
    ensures var e := Exec(g, UP, ts); var a := e.handlers[i].at; var b := e.handlers[j].at;
            && a < b < |e.checks|
            && (e.checks[b].now - e.checks[a].now > g.ttl - g.late
                || exists r :: a < r <= b && AuthRuns.ResetAt(g.ttl, g.maxMem, e.checks, r))
  {
    RunKeeps(g, UP, ts);
    var e := Exec(g, UP, ts);
    assert NonceOk(g, e.checks, e.handlers[i]) && NonceOk(g, e.checks, e.handlers[j]);
    AuthRuns.NoReplayWithinTTL(g.ttl, g.maxMem, e.checks, g.late, e.handlers[i].at, e.handlers[j].at);
  }
}
