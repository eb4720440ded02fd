/**
  The capture thread: frames are accounted to processes in a scratch map, receivers are
  drained in bounded chunks, and the scratch map is folded into totals by command name.
 */
module Capture {
  import opened Traffic
  import opened MapSums
  import opened SocketAddress
  import opened Ownership

  datatype Dir = Down | Up

  /** Received and sent bytes of a process or a command. */
  datatype Usage = Usage(rx: nat, tx: nat)

  function In(f: Usage, d: Dir): nat {
    if d.Down? then f.rx else f.tx
  }

  /** A frame after header parsing; `Alien` is anything that is not IPv4 or IPv6 over Ethernet. */
  datatype Frame =
    | Alien
    | Packet(src: Ip, dst: Ip, ports: Option<Ports>, len: nat)

  datatype Ports = Ports(src: int, dst: int)

  datatype Entry = Entry(comm: string, bytes: Usage)

  // ---------- one frame ----------

  /** What the capture thread knows: endpoint owners and the host's addresses. */
  datatype View = View(owners: Owners, local: set<Ip>)

  function Direction(f: Frame, v: View): Dir
    requires f.Packet?
  {
    if f.src in v.local then Up else Down
  }

  /** The process a frame belongs to, 0 if unknown or portless, and its name. */
  function Attribute(f: Frame, v: View): Owner
    requires f.Packet?
  {
    if f.ports.None? then Owner(0, "other")
    else
      var ep := if Direction(f, v).Up? then Endpoint(f.src, f.ports.value.src) else Endpoint(f.dst, f.ports.value.dst);
      if ep in v.owners.byEp then
        var pid := v.owners.byEp[ep];
        Owner(pid, if pid in v.owners.comm then v.owners.comm[pid] else "?")
      else Owner(0, "unknown")
  }

  predicate Placeholder(comm: string) {
    comm == "?" || comm == "unknown" || comm == "other"
  }

  function Account(cum: map<nat, Entry>, f: Frame, v: View): map<nat, Entry> {
    if f.Alien? then cum
    else
      var who := Attribute(f, v);
      var comm := if who.pid in cum && !Placeholder(cum[who.pid].comm) then cum[who.pid].comm else who.comm;
      var rx := if who.pid in cum then cum[who.pid].bytes.rx else 0;
      var tx := if who.pid in cum then cum[who.pid].bytes.tx else 0;
      cum[who.pid := Entry(comm, if Direction(f, v).Up? then Usage(rx, tx + f.len) else Usage(rx + f.len, tx))]
  }

  /** What `next()` finds in a socket: a frame or a hard error. An empty queue times out. */
  datatype Arrival = Got(frame: Frame) | Fails

  /** Accounts the frames that arrive from position `i` up to `n`, in order. */
  function AccountFrom(cum: map<nat, Entry>, q: seq<Arrival>, i: nat, n: nat, v: View): map<nat, Entry>
    requires n <= |q|
  {
    if n <= i then cum
    else
      var before := AccountFrom(cum, q, i, n - 1, v);
      if q[n - 1].Got? then Account(before, q[n - 1].frame, v) else before
  }

  // ---------- bytes of maps ----------

  function ScratchIn(cum: map<nat, Entry>, d: Dir): map<nat, int> {
    map p | p in cum :: In(cum[p].bytes, d)
  }

  function UsageIn<K>(m: map<K, Usage>, d: Dir): map<K, int> {
    map k | k in m :: In(m[k], d)
  }

  ghost function ScratchBytes(cum: map<nat, Entry>, d: Dir): int {
    Sum(ScratchIn(cum, d))
  }

  ghost function UsageBytes<K>(m: map<K, Usage>, d: Dir): int {
    Sum(UsageIn(m, d))
  }

  function FrameBytes(f: Frame, v: View, d: Dir): int {
    if f.Packet? && Direction(f, v) == d then f.len else 0
  }

  function BytesFrom(q: seq<Arrival>, i: nat, n: nat, v: View, d: Dir): int
    requires n <= |q|
  {
    if n <= i then 0 else BytesFrom(q, i, n - 1, v, d) + (if q[n - 1].Got? then FrameBytes(q[n - 1].frame, v, d) else 0)
  }

  lemma ScratchUpdate(cum: map<nat, Entry>, p: nat, e: Entry, d: Dir)
    ensures ScratchBytes(cum[p := e], d) == ScratchBytes(cum, d) - Has(cum, p, d) + In(e.bytes, d)
  {
    SumUpdate(ScratchIn(cum, d), p, In(e.bytes, d));
    assert ScratchIn(cum[p := e], d) == ScratchIn(cum, d)[p := In(e.bytes, d)];
  }

  lemma UsageUpdate<K>(m: map<K, Usage>, k: K, f: Usage, d: Dir)
    ensures UsageBytes(m[k := f], d) == UsageBytes(m, d) - (if k in m then In(m[k], d) else 0) + In(f, d)
  {
    SumUpdate(UsageIn(m, d), k, In(f, d));
    assert UsageIn(m[k := f], d) == UsageIn(m, d)[k := In(f, d)];
  }

  /** A frame adds its length once, in its direction, whoever it is attributed to. */
  lemma AccountAdds(cum: map<nat, Entry>, f: Frame, v: View, d: Dir)
    ensures ScratchBytes(Account(cum, f, v), d) == ScratchBytes(cum, d) + FrameBytes(f, v, d)
  {
    if f.Packet? {
      var who := Attribute(f, v);
      ScratchUpdate(cum, who.pid, Account(cum, f, v)[who.pid], d);
    }
  }

  lemma {:induction false} AccountAllAdds(cum: map<nat, Entry>, q: seq<Arrival>, i: nat, n: nat, v: View, d: Dir)
    requires n <= |q|
    ensures ScratchBytes(AccountFrom(cum, q, i, n, v), d) == ScratchBytes(cum, d) + BytesFrom(q, i, n, v, d)
  {
    if n > i {
      AccountAllAdds(cum, q, i, n - 1, v, d);
      if q[n - 1].Got? {
        AccountAdds(AccountFrom(cum, q, i, n - 1, v), q[n - 1].frame, v, d);
      }
    }
  }

  // ---------- per process ----------

  function Has(cum: map<nat, Entry>, p: nat, d: Dir): int {
    if p in cum then In(cum[p].bytes, d) else 0
  }

  predicate IsFor(a: Arrival, v: View, p: nat) {
    a.Got? && a.frame.Packet? && Attribute(a.frame, v).pid == p
  }

  function BytesForFrom(q: seq<Arrival>, i: nat, n: nat, v: View, p: nat, d: Dir): int
    requires n <= |q|
  {
    if n <= i then 0
    else BytesForFrom(q, i, n - 1, v, p, d) + (if IsFor(q[n - 1], v, p) then FrameBytes(q[n - 1].frame, v, d) else 0)
  }

  /** A process has the bytes of its own frames, and a name once known is kept. */
  lemma {:induction false} AccountsApart(cum: map<nat, Entry>, q: seq<Arrival>, i: nat, n: nat, v: View, p: nat, d: Dir)
    requires n <= |q|
    ensures var after := AccountFrom(cum, q, i, n, v);
            && Has(after, p, d) == Has(cum, p, d) + BytesForFrom(q, i, n, v, p, d)
            && (p in cum && !Placeholder(cum[p].comm) ==> p in after && after[p].comm == cum[p].comm)
  {
    if n > i {
      AccountsApart(cum, q, i, n - 1, v, p, d);
    }
  }

  // ---------- who is credited with what ----------

  /**
    One entry gains `rx` and `tx` and every other stays as it is. A new entry is called
    `name`, and so is one that was only called `?`, `unknown` or `other` before.
   */
  ghost predicate Credits(cum: map<nat, Entry>, after: map<nat, Entry>, p: nat, rx: nat, tx: nat, name: string) {
    && p in after
    && after[p].bytes.rx == (if p in cum then cum[p].bytes.rx else 0) + rx
    && after[p].bytes.tx == (if p in cum then cum[p].bytes.tx else 0) + tx
    && (p in cum && cum[p].comm != "?" && cum[p].comm != "unknown" && cum[p].comm != "other" ==>
          after[p].comm == cum[p].comm)
    && (p !in cum || cum[p].comm == "?" || cum[p].comm == "unknown" || cum[p].comm == "other" ==>
          after[p].comm == name)
    && forall q :: q != p ==> (q in after <==> q in cum) && (q in cum ==> after[q] == cum[q])
  }

  /** The name that goes with a process: from the socket owners, or `?`. */
  function NameOf(o: Owners, p: nat): string {
    if p in o.comm then o.comm[p] else "?"
  }

  /** A frame from a local address is sent by the process that owns its source endpoint. */
  lemma SentByOwner(cum: map<nat, Entry>, f: Frame, v: View, p: nat)
    requires f.Packet? && f.src in v.local && f.ports.Some?
    requires var ep := Endpoint(f.src, f.ports.value.src); ep in v.owners.byEp && v.owners.byEp[ep] == p
    ensures Credits(cum, Account(cum, f, v), p, 0, f.len, NameOf(v.owners, p))
  {
    assert Attribute(f, v).pid == p;
  }

  /** Any other frame is received by the process that owns its destination endpoint. */
  lemma ReceivedByOwner(cum: map<nat, Entry>, f: Frame, v: View, p: nat)
    requires f.Packet? && f.src !in v.local && f.ports.Some?
    requires var ep := Endpoint(f.dst, f.ports.value.dst); ep in v.owners.byEp && v.owners.byEp[ep] == p
    ensures Credits(cum, Account(cum, f, v), p, f.len, 0, NameOf(v.owners, p))
  {
    assert Attribute(f, v).pid == p;
  }

  /** Without an owner of that endpoint, or without ports, process 0 stands in. */
  lemma CreditedToNobody(cum: map<nat, Entry>, f: Frame, v: View)
    requires f.Packet?
    requires f.ports.Some? ==>
               if f.src in v.local then Endpoint(f.src, f.ports.value.src) !in v.owners.byEp
               else Endpoint(f.dst, f.ports.value.dst) !in v.owners.byEp
    ensures var name := if f.ports.None? then "other" else "unknown";
            if f.src in v.local then Credits(cum, Account(cum, f, v), 0, 0, f.len, name)
            else Credits(cum, Account(cum, f, v), 0, f.len, 0, name)
  {
    assert Attribute(f, v).pid == 0;
  }

  /** All sent bytes together grow by a local sender's frame, all received ones by any other. */
  lemma SentOrReceived(cum: map<nat, Entry>, f: Frame, v: View)
    requires f.Packet?
    ensures var (after, sent) := (Account(cum, f, v), f.src in v.local);
            && ScratchBytes(after, Up) == ScratchBytes(cum, Up) + (if sent then f.len else 0)
            && ScratchBytes(after, Down) == ScratchBytes(cum, Down) + (if sent then 0 else f.len)
  {
    AccountAdds(cum, f, v, Up);
    AccountAdds(cum, f, v, Down);
  }

  // ---------- draining receivers ----------

  const MAX_DRAIN_FRAMES: nat := 4096

  /** How far one call reads from `at`: to the first hard error, the end of the queue, or the cap. */
  function Reach(q: seq<Arrival>, at: nat, cap: nat): (n: nat)
    requires at <= |q|
    ensures at <= n <= |q| && n <= at + cap
    ensures forall i :: at <= i < n ==> q[i].Got?
    ensures n == |q| || n == at + cap || q[n].Fails?
    decreases cap
  {
    if cap == 0 then at
    else
      var n := Reach(q, at, cap - 1);
      if n == at + cap - 1 && n < |q| && q[n].Got? then n + 1 else n
  }

  function Least(x: nat, y: nat): nat {
    if x <= y then x else y
  }

  /** Positions and scratch maps after `rounds` calls from `at`, on a queue to which nothing is added. */
  function PositionAfter(q: seq<Arrival>, at: nat, cap: nat, rounds: nat): (n: nat)
    requires at <= |q|
    ensures at <= n <= |q|
  {
    if rounds == 0 then at else Reach(q, PositionAfter(q, at, cap, rounds - 1), cap)
  }

  function ScratchAfter(
    cum: map<nat, Entry>, q: seq<Arrival>, at: nat, cap: nat, rounds: nat, v: View): map<nat, Entry>
    requires at <= |q|
  {
    if rounds == 0 then cum
    else
      AccountFrom(ScratchAfter(cum, q, at, cap, rounds - 1, v), q,
                  PositionAfter(q, at, cap, rounds - 1), PositionAfter(q, at, cap, rounds), v)
  }

  lemma {:induction false} AccountInTwo(cum: map<nat, Entry>, q: seq<Arrival>, i: nat, m: nat, n: nat, v: View)
    requires i <= m <= n <= |q|
    ensures AccountFrom(AccountFrom(cum, q, i, m, v), q, m, n, v) == AccountFrom(cum, q, i, n, v)
    decreases n
  {
    if m < n {
      AccountInTwo(cum, q, i, m, n - 1, v);
    }
  }

  ghost predicate NoErrors(q: seq<Arrival>) {
    forall i :: 0 <= i < |q| ==> q[i].Got?
  }

  lemma {:induction false} PositionIsMin(q: seq<Arrival>, at: nat, cap: nat, k: nat)
    requires NoErrors(q) && at <= |q|
    ensures PositionAfter(q, at, cap, k) == at + Least(|q| - at, k * cap)
  {
    if k == 0 {
      assert 0 * cap == 0;
    } else {
      PositionIsMin(q, at, cap, k - 1);
      assert k * cap == (k - 1) * cap + cap;
    }
  }

  lemma {:induction false} ScratchIsOneFold(
    cum: map<nat, Entry>, q: seq<Arrival>, at: nat, cap: nat, k: nat, v: View)
    requires at <= |q|
    ensures ScratchAfter(cum, q, at, cap, k, v) == AccountFrom(cum, q, at, PositionAfter(q, at, cap, k), v)
  {
    if k > 0 {
      ScratchIsOneFold(cum, q, at, cap, k - 1, v);
      AccountInTwo(cum, q, at, PositionAfter(q, at, cap, k - 1), PositionAfter(q, at, cap, k), v);
    }
  }

  /** Chunked draining: after `k` rounds, `min(len, k * cap)` frames are accounted, as by one pass over them. */
  lemma RoundsAreOneFold(cum: map<nat, Entry>, q: seq<Arrival>, at: nat, cap: nat, k: nat, v: View)
    requires NoErrors(q) && at <= |q|
    ensures var end := at + Least(|q| - at, k * cap);
            && PositionAfter(q, at, cap, k) == end
            && ScratchAfter(cum, q, at, cap, k, v) == AccountFrom(cum, q, at, end, v)
  {
    PositionIsMin(q, at, cap, k);
    ScratchIsOneFold(cum, q, at, cap, k, v);
  }

  lemma {:induction false} BytesForInTwo(q: seq<Arrival>, i: nat, m: nat, n: nat, v: View, p: nat, d: Dir)
    requires i <= m <= n <= |q|
    ensures BytesForFrom(q, i, m, v, p, d) + BytesForFrom(q, m, n, v, p, d) == BytesForFrom(q, i, n, v, p, d)
    decreases n
  {
    if m < n {
      BytesForInTwo(q, i, m, n - 1, v, p, d);
    }
  }

  // ---------- folding by command ----------

  /** `e.0 += rx; e.1 += tx` in the entry of `comm`. */
  function AddUsage<K>(m: map<K, Usage>, comm: K, f: Usage): map<K, Usage> {
    m[comm := Usage((if comm in m then m[comm].rx else 0) + f.rx, (if comm in m then m[comm].tx else 0) + f.tx)]
  }

  lemma AddUsageAdds<K>(m: map<K, Usage>, comm: K, f: Usage, d: Dir)
    ensures UsageBytes(AddUsage(m, comm, f), d) == UsageBytes(m, d) + In(f, d)
  {
    UsageUpdate(m, comm, AddUsage(m, comm, f)[comm], d);
  }

  function UsageOf<K>(m: map<K, Usage>, c: K, d: Dir): int {
    if c in m then In(m[c], d) else 0
  }

  lemma AddUsageAt<K>(m: map<K, Usage>, comm: K, f: Usage, c: K, d: Dir)
    ensures UsageOf(AddUsage(m, comm, f), c, d) == UsageOf(m, c, d) + (if c == comm then In(f, d) else 0)
  {
  }

  lemma SameUsage<K>(t: map<K, Usage>, u: map<K, Usage>)
    requires t.Keys == u.Keys && forall c, d :: c in t ==> UsageOf(t, c, d) == UsageOf(u, c, d)
    ensures t == u
  {
    forall c | c in t ensures t[c] == u[c] {
      assert UsageOf(t, c, Down) == UsageOf(u, c, Down) && UsageOf(t, c, Up) == UsageOf(u, c, Up);
    }
  }

  lemma AddUsageCommutes<K>(m: map<K, Usage>, c1: K, f1: Usage, c2: K, f2: Usage)
    ensures AddUsage(AddUsage(m, c1, f1), c2, f2) == AddUsage(AddUsage(m, c2, f2), c1, f1)
  {
    var t, u := AddUsage(AddUsage(m, c1, f1), c2, f2), AddUsage(AddUsage(m, c2, f2), c1, f1);
    forall c, d | c in t ensures UsageOf(t, c, d) == UsageOf(u, c, d) {
      AddUsageAt(m, c1, f1, c, d);
      AddUsageAt(m, c2, f2, c, d);
      AddUsageAt(AddUsage(m, c1, f1), c2, f2, c, d);
      AddUsageAt(AddUsage(m, c2, f2), c1, f1, c, d);
    }
    SameUsage(t, u);
  }

  /** The shared map after the scratch entries are folded in, in some order. */
  ghost function Folded(shared: map<string, Usage>, cum: map<nat, Entry>): map<string, Usage>
    decreases |cum|
  {
    if cum == map[] then shared
    else
      var p :| p in cum;
      AddUsage(Folded(shared, cum - {p}), cum[p].comm, cum[p].bytes)
  }

  /** Any entry may be the last one folded: the order does not matter. */
  lemma {:induction false} FoldOneMore(shared: map<string, Usage>, cum: map<nat, Entry>, p: nat)
    requires p in cum
    ensures Folded(shared, cum) == AddUsage(Folded(shared, cum - {p}), cum[p].comm, cum[p].bytes)
    decreases |cum|
  {
    var q :| q in cum && Folded(shared, cum) == AddUsage(Folded(shared, cum - {q}), cum[q].comm, cum[q].bytes);
    if q != p {
      FoldOneMore(shared, cum - {q}, p);
      FoldOneMore(shared, cum - {p}, q);
      assert (cum - {q}) - {p} == (cum - {p}) - {q};
      AddUsageCommutes(Folded(shared, cum - {p} - {q}), cum[p].comm, cum[p].bytes, cum[q].comm, cum[q].bytes);
    }
  }

  /** Or the first one. */
  lemma {:induction false} FoldFirst(shared: map<string, Usage>, cum: map<nat, Entry>, p: nat)
    requires p in cum
    ensures Folded(shared, cum) == Folded(AddUsage(shared, cum[p].comm, cum[p].bytes), cum - {p})
    decreases |cum|
  {
    var more := AddUsage(shared, cum[p].comm, cum[p].bytes);
    if cum - {p} == map[] {
      FoldOneMore(shared, cum, p);
    } else {
      var q :| q in cum - {p};
      FoldOneMore(shared, cum, q);
      FoldFirst(shared, cum - {q}, p);
      FoldOneMore(more, cum - {p}, q);
      assert (cum - {q}) - {p} == (cum - {p}) - {q};
    }
  }

  /** The bytes of the processes that bear name `c`. */
  function NamedIn(cum: map<nat, Entry>, c: string, d: Dir): map<nat, int> {
    map p | p in cum && cum[p].comm == c :: In(cum[p].bytes, d)
  }

  lemma NamedWithout(cum: map<nat, Entry>, p: nat, c: string, d: Dir)
    requires p in cum
    ensures Sum(NamedIn(cum, c, d))
         == Sum(NamedIn(cum - {p}, c, d)) + (if cum[p].comm == c then In(cum[p].bytes, d) else 0)
  {
    if cum[p].comm == c {
      SumRemove(NamedIn(cum, c, d), p);
      assert NamedIn(cum, c, d) - {p} == NamedIn(cum - {p}, c, d);
    } else {
      assert NamedIn(cum, c, d) == NamedIn(cum - {p}, c, d);
    }
  }

  /** A name gains the bytes of all processes that bear it. */
  lemma {:induction false} FoldByName(shared: map<string, Usage>, cum: map<nat, Entry>, c: string, d: Dir)
    ensures UsageOf(Folded(shared, cum), c, d) == UsageOf(shared, c, d) + Sum(NamedIn(cum, c, d))
    decreases |cum|
  {
    if cum == map[] {
      assert NamedIn(cum, c, d) == map[];
    } else {
      var p :| p in cum;
      FoldByName(shared, cum - {p}, c, d);
      FoldOneMore(shared, cum, p);
      AddUsageAt(Folded(shared, cum - {p}), cum[p].comm, cum[p].bytes, c, d);
      NamedWithout(cum, p, c, d);
    }
  }

  /** Folding moves every byte, and only moves it. */
  lemma {:induction false} FoldConserves(shared: map<string, Usage>, cum: map<nat, Entry>, d: Dir)
    ensures UsageBytes(Folded(shared, cum), d) == UsageBytes(shared, d) + ScratchBytes(cum, d)
    decreases |cum|
  {
    if cum == map[] {
      assert ScratchIn(cum, d) == map[];
    } else {
      var p :| p in cum;
      FoldConserves(shared, cum - {p}, d);
      FoldOneMore(shared, cum, p);
      AddUsageAdds(Folded(shared, cum - {p}), cum[p].comm, cum[p].bytes, d);
      SumRemove(ScratchIn(cum, d), p);
      assert ScratchIn(cum, d) - {p} == ScratchIn(cum - {p}, d);
    }
  }
}
