/**
  Which process owns a local endpoint: socket tables of every network namespace are read
  in an order that lets our own namespace win, and rows map endpoints to processes.
 */
module Ownership {
  import opened Traffic
  import opened SocketAddress

  /** Device and inode of `/proc/<pid>/ns/net`. */
  datatype Netns = Netns(dev: nat, ino: nat)

  datatype Proc = Proc(pid: nat, ns: Netns)

  datatype Proto = Tcp | Tcp6 | Udp | Udp6 {
    predicate V6() {
      Tcp6? || Udp6?
    }
  }

  /** `/proc/net/<proto>` or `/proc/<pid>/net/<proto>`. */
  datatype Table = Own(proto: Proto) | Of(pid: nat, proto: Proto)

  const PROTOS := [Tcp, Tcp6, Udp, Udp6]

  // ---------- the table list ----------

  function NamespacesTo(procs: seq<Proc>, n: nat): set<Netns>
    requires n <= |procs|
  {
    if n == 0 then {} else NamespacesTo(procs, n - 1) + {procs[n - 1].ns}
  }

  /** A process whose namespace is foreign and not seen before it. */
  predicate Represents(procs: seq<Proc>, i: nat, ours: Option<Netns>)
    requires i < |procs|
  {
    Some(procs[i].ns) != ours && procs[i].ns !in NamespacesTo(procs, i)
  }

  function RepresentativesTo(procs: seq<Proc>, n: nat, ours: Option<Netns>): seq<Proc>
    requires n <= |procs|
  {
    if n == 0 then []
    else if Represents(procs, n - 1, ours) then RepresentativesTo(procs, n - 1, ours) + [procs[n - 1]]
    else RepresentativesTo(procs, n - 1, ours)
  }

  function TablesOf(pid: nat): seq<Table> {
    [Of(pid, Tcp), Of(pid, Tcp6), Of(pid, Udp), Of(pid, Udp6)]
  }

  function OwnTables(): seq<Table> {
    [Own(Tcp), Own(Tcp6), Own(Udp), Own(Udp6)]
  }

  function ForeignTablesTo(reps: seq<Proc>, n: nat): (t: seq<Table>)
    requires n <= |reps|
    ensures |t| == 4 * n
  {
    if n == 0 then [] else ForeignTablesTo(reps, n - 1) + TablesOf(reps[n - 1].pid)
  }

  function ForeignTables(ours: Option<Netns>, procs: seq<Proc>): seq<Table> {
    var reps := RepresentativesTo(procs, |procs|, ours);
    ForeignTablesTo(reps, |reps|)
  }

  lemma {:induction false} ForeignPrefix(a: seq<Proc>, b: seq<Proc>, n: nat)
    requires n <= |a| && n <= |b|
    requires forall i :: 0 <= i < n ==> a[i] == b[i]
    ensures ForeignTablesTo(a, n) == ForeignTablesTo(b, n)
  {
    if n > 0 {
      ForeignPrefix(a, b, n - 1);
    }
  }

  /** `tables_for`: foreign namespaces once each, our own tables last. */
  method TablesFor(ours: Option<Netns>, procs: seq<Proc>) returns (out: seq<Table>)
    ensures out == ForeignTables(ours, procs) + OwnTables()
  {
    var seen: set<Netns> := {};
    out := [];
    ghost var reps: seq<Proc> := [];
    for i := 0 to |procs|
      invariant seen == NamespacesTo(procs, i) - (if ours.Some? then {ours.value} else {})
      invariant reps == RepresentativesTo(procs, i, ours) && out == ForeignTablesTo(reps, |reps|)
    {
      var p := procs[i];
      if Some(p.ns) != ours && p.ns !in seen {
        seen := seen + {p.ns};
        ForeignPrefix(reps + [p], reps, |reps|);
        reps := reps + [p];
        for k := 0 to 4
          invariant out == ForeignTablesTo(reps, |reps| - 1) + TablesOf(p.pid)[..k]
        {
          out := out + [Of(p.pid, PROTOS[k])];
        }
      }
    }
    out := out + OwnTables();
  }

  ghost predicate DistinctNamespaces(procs: seq<Proc>) {
    forall i, j :: 0 <= i < j < |procs| ==> procs[i].ns != procs[j].ns
  }

  /** One representative for each distinct foreign namespace, and none for our own. */
  lemma {:induction false} OnePerForeignNamespace(procs: seq<Proc>, n: nat, ours: Option<Netns>)
    requires n <= |procs|
    ensures var reps := RepresentativesTo(procs, n, ours);
            && DistinctNamespaces(reps)
            && (forall r :: r in reps ==> Some(r.ns) != ours && r in procs && r.ns in NamespacesTo(procs, n))
            && (forall ns :: ns in NamespacesTo(procs, n) && Some(ns) != ours ==>
                 exists i :: 0 <= i < |reps| && reps[i].ns == ns)
  {
    if n > 0 {
      OnePerForeignNamespace(procs, n - 1, ours);
      var before, reps := RepresentativesTo(procs, n - 1, ours), RepresentativesTo(procs, n, ours);
      forall ns | ns in NamespacesTo(procs, n) && Some(ns) != ours
        ensures exists i :: 0 <= i < |reps| && reps[i].ns == ns
      {
        if ns in NamespacesTo(procs, n - 1) {
          var i :| 0 <= i < |before| && before[i].ns == ns;
          assert reps[i].ns == ns;
        } else {
          assert reps[|reps| - 1].ns == ns;
        }
      }
    }
  }

  // ---------- the snapshot ----------

  /** A table row: the local address column, and the socket inode if the row has one that parses. */
  datatype Socket = Socket(local: string, inode: Option<nat>)

  datatype Owner = Owner(pid: nat, comm: string)

  datatype Owners = Owners(byEp: map<Endpoint, nat>, comm: map<nat, string>)

  const NOBODY := Owners(map[], map[])

  /** Text of the tables that could be read, and the owner of each socket inode. */
  datatype Host = Host(text: map<Table, seq<Socket>>, inodes: map<nat, Owner>)

  /** Whose endpoint a row describes, if it describes one. */
  function Resolve(s: Socket, v6: bool, h: Host): Option<Owner> {
    if Parsed(s.local, v6).None? || s.inode.None? || s.inode.value == 0 || s.inode.value !in h.inodes then None
    else Some(h.inodes[s.inode.value])
  }

  function AddSocket(o: Owners, s: Socket, v6: bool, h: Host): Owners {
    var who := Resolve(s, v6, h);
    if who.None? then o
    else
      Owners(o.byEp[Parsed(s.local, v6).value := who.value.pid],
             if who.value.pid in o.comm then o.comm else o.comm[who.value.pid := who.value.comm])
  }

  /** Rows 1 to `n` of a table: row 0 is the heading. */
  function SocketsTo(o: Owners, rows: seq<Socket>, n: nat, v6: bool, h: Host): Owners
    requires n <= |rows|
  {
    if n <= 1 then o else AddSocket(SocketsTo(o, rows, n - 1, v6, h), rows[n - 1], v6, h)
  }

  function RowsOf(t: Table, h: Host): seq<Socket> {
    if t in h.text then h.text[t] else []
  }

  function OwnersTo(tables: seq<Table>, n: nat, h: Host): Owners
    requires n <= |tables|
  {
    if n == 0 then NOBODY
    else
      var rows := RowsOf(tables[n - 1], h);
      SocketsTo(OwnersTo(tables, n - 1, h), rows, |rows|, tables[n - 1].proto.V6(), h)
  }

  method Snapshot(ours: Option<Netns>, procs: seq<Proc>, h: Host) returns (o: Owners)
    ensures var tables := ForeignTables(ours, procs) + OwnTables();
            o == OwnersTo(tables, |tables|, h)
  {
    var tables := TablesFor(ours, procs);
    o := NOBODY;
    for i := 0 to |tables|
      invariant o == OwnersTo(tables, i, h)
    {
      var t := tables[i];
      if t in h.text {
        var rows := h.text[t];
        for j := 0 to |rows|
          invariant o == SocketsTo(OwnersTo(tables, i, h), rows, j, t.proto.V6(), h)
        {
          if j > 0 {
            var ep := ParseLocal(rows[j].local, t.proto.V6());
            if ep.Some? && rows[j].inode.Some? && rows[j].inode.value != 0 && rows[j].inode.value in h.inodes {
              var who := h.inodes[rows[j].inode.value];
              var comm := if who.pid in o.comm then o.comm else o.comm[who.pid := who.comm];
              o := Owners(o.byEp[ep.value := who.pid], comm);
            }
          }
        }
      }
    }
  }

  // ---------- our own tables win ----------

  function Lookup(o: Owners, ep: Endpoint): Option<nat> {
    if ep in o.byEp then Some(o.byEp[ep]) else None
  }

  /** The owner in the last of rows 1 to `n` that describes `ep`. */
  function LastRowTo(rows: seq<Socket>, n: nat, v6: bool, h: Host, ep: Endpoint): Option<nat>
    requires n <= |rows|
  {
    if n <= 1 then None
    else if Parsed(rows[n - 1].local, v6) == Some(ep) && Resolve(rows[n - 1], v6, h).Some? then
      Some(Resolve(rows[n - 1], v6, h).value.pid)
    else LastRowTo(rows, n - 1, v6, h, ep)
  }

  /** The same over the tables from `m` to `n`. */
  function LastOwner(tables: seq<Table>, m: nat, n: nat, h: Host, ep: Endpoint): Option<nat>
    requires n <= |tables|
    decreases n
  {
    if n <= m then None
    else
      var rows := RowsOf(tables[n - 1], h);
      var last := LastRowTo(rows, |rows|, tables[n - 1].proto.V6(), h, ep);
      if last.Some? then last else LastOwner(tables, m, n - 1, h, ep)
  }

  lemma {:induction false} LaterRowsWin(o: Owners, rows: seq<Socket>, n: nat, v6: bool, h: Host, ep: Endpoint)
    requires n <= |rows|
    ensures var last := LastRowTo(rows, n, v6, h, ep);
            Lookup(SocketsTo(o, rows, n, v6, h), ep) == if last.Some? then last else Lookup(o, ep)
  {
    if n > 1 {
      LaterRowsWin(o, rows, n - 1, v6, h, ep);
    }
  }

  lemma {:induction false} LaterTablesWin(tables: seq<Table>, m: nat, n: nat, h: Host, ep: Endpoint)
    requires m <= n <= |tables|
    ensures var last := LastOwner(tables, m, n, h, ep);
            Lookup(OwnersTo(tables, n, h), ep) == if last.Some? then last else Lookup(OwnersTo(tables, m, h), ep)
  {
    if m < n {
      var rows := RowsOf(tables[n - 1], h);
      LaterTablesWin(tables, m, n - 1, h, ep);
      LaterRowsWin(OwnersTo(tables, n - 1, h), rows, |rows|, tables[n - 1].proto.V6(), h, ep);
    }
  }

  lemma {:induction false} LastOwnerOfSuffix(a: seq<Table>, b: seq<Table>, n: nat, h: Host, ep: Endpoint)
    requires n <= |b|
    ensures LastOwner(a + b, |a|, |a| + n, h, ep) == LastOwner(b, 0, n, h, ep)
  {
    if n > 0 {
      LastOwnerOfSuffix(a, b, n - 1, h, ep);
      assert (a + b)[|a| + n - 1] == b[n - 1];
    }
  }

  /**
    An endpoint that a row of our own tables describes belongs to the last such row,
    whatever processes there are and whatever the tables of other namespaces hold.
   */
  lemma OwnTablesWin(ours: Option<Netns>, procs: seq<Proc>, h: Host, ep: Endpoint)
    requires LastOwner(OwnTables(), 0, 4, h, ep).Some?
    ensures var tables := ForeignTables(ours, procs) + OwnTables();
            Lookup(OwnersTo(tables, |tables|, h), ep) == LastOwner(OwnTables(), 0, 4, h, ep)
  {
    var foreign, own := ForeignTables(ours, procs), OwnTables();
    LaterTablesWin(foreign + own, |foreign|, |foreign| + 4, h, ep);
    LastOwnerOfSuffix(foreign, own, 4, h, ep);
  }

  // ---------- what the snapshot finds ----------

  /** A row of a `p` table gives `ep` to process `pid`: tcp6 and udp6 tables hold IPv6 addresses. */
  predicate Gives(row: Socket, p: Proto, h: Host, ep: Endpoint, pid: nat) {
    && Parsed(row.local, p == Tcp6 || p == Udp6) == Some(ep)
    && row.inode.Some? && row.inode.value != 0 && row.inode.value in h.inodes && h.inodes[row.inode.value].pid == pid
  }

  /** Row `i`, below the heading, of table `t` does. */
  predicate GivesAt(t: Table, i: nat, h: Host, ep: Endpoint, pid: nat) {
    t in h.text && 1 <= i < |h.text[t]| && Gives(h.text[t][i], t.proto, h, ep, pid)
  }

  lemma {:induction false} LastRowGives(t: Table, n: nat, h: Host, ep: Endpoint)
    requires n <= |RowsOf(t, h)|
    ensures var last := LastRowTo(RowsOf(t, h), n, t.proto.V6(), h, ep);
            last.Some? ==> exists i :: GivesAt(t, i, h, ep, last.value)
  {
    if n > 1 {
      var row := RowsOf(t, h)[n - 1];
      if Parsed(row.local, t.proto.V6()) == Some(ep) && Resolve(row, t.proto.V6(), h).Some? {
        assert GivesAt(t, n - 1, h, ep, Resolve(row, t.proto.V6(), h).value.pid);
      } else {
        LastRowGives(t, n - 1, h, ep);
      }
    }
  }

  lemma {:induction false} GivenIsLast(t: Table, n: nat, h: Host, ep: Endpoint, pid: nat, i: nat)
    requires i < n <= |RowsOf(t, h)| && GivesAt(t, i, h, ep, pid)
    ensures LastRowTo(RowsOf(t, h), n, t.proto.V6(), h, ep).Some?
  {
    if i < n - 1 {
      GivenIsLast(t, n - 1, h, ep, pid, i);
    }
  }

  lemma {:induction false} LastOwnerGives(tables: seq<Table>, n: nat, h: Host, ep: Endpoint)
    requires n <= |tables|
    ensures var last := LastOwner(tables, 0, n, h, ep);
            last.Some? ==> exists j, i :: 0 <= j < n && GivesAt(tables[j], i, h, ep, last.value)
  {
    if n > 0 {
      var t := tables[n - 1];
      LastRowGives(t, |RowsOf(t, h)|, h, ep);
      LastOwnerGives(tables, n - 1, h, ep);
    }
  }

  lemma {:induction false} GivenIsOwned(
    tables: seq<Table>, n: nat, h: Host, ep: Endpoint, pid: nat, j: nat, i: nat)
    requires j < n <= |tables| && GivesAt(tables[j], i, h, ep, pid)
    ensures LastOwner(tables, 0, n, h, ep).Some?
  {
    if j < n - 1 {
      GivenIsOwned(tables, n - 1, h, ep, pid, j, i);
    } else {
      GivenIsLast(tables[j], |RowsOf(tables[j], h)|, h, ep, pid, i);
    }
  }

  /** An endpoint has an owner exactly if some row of some table gives it one, and then such a one. */
  lemma OwnedIff(tables: seq<Table>, h: Host, ep: Endpoint)
    ensures var o := OwnersTo(tables, |tables|, h);
            && (ep in o.byEp <==> exists j, i, pid :: 0 <= j < |tables| && GivesAt(tables[j], i, h, ep, pid))
            && (ep in o.byEp ==> exists j, i :: 0 <= j < |tables| && GivesAt(tables[j], i, h, ep, o.byEp[ep]))
  {
    LaterTablesWin(tables, 0, |tables|, h, ep);
    LastOwnerGives(tables, |tables|, h, ep);
    if j, i, pid :| 0 <= j < |tables| && GivesAt(tables[j], i, h, ep, pid) {
      GivenIsOwned(tables, |tables|, h, ep, pid, j, i);
    }
  }

  lemma {:induction false} ForeignTablesHave(reps: seq<Proc>, n: nat, i: nat, p: Proto)
    requires i < n <= |reps|
    ensures Of(reps[i].pid, p) in ForeignTablesTo(reps, n)
  {
    if i < n - 1 {
      ForeignTablesHave(reps, n - 1, i, p);
    } else {
      var last := TablesOf(reps[i].pid);
      assert last[0] == Of(reps[i].pid, Tcp) && last[1] == Of(reps[i].pid, Tcp6);
      assert last[2] == Of(reps[i].pid, Udp) && last[3] == Of(reps[i].pid, Udp6);
      assert Of(reps[i].pid, p) in last;
    }
  }

  /** All four protocols are read, of our own namespace and of every foreign one. */
  lemma EveryProtocolRead(ours: Option<Netns>, procs: seq<Proc>, p: Proto)
    ensures var (reps, tables) := (RepresentativesTo(procs, |procs|, ours), ForeignTables(ours, procs) + OwnTables());
            Own(p) in tables && forall r :: r in reps ==> Of(r.pid, p) in tables
  {
    var reps := RepresentativesTo(procs, |procs|, ours);
    var own := OwnTables();
    assert own[0] == Own(Tcp) && own[1] == Own(Tcp6) && own[2] == Own(Udp) && own[3] == Own(Udp6);
    forall r | r in reps ensures Of(r.pid, p) in ForeignTables(ours, procs) {
      var i :| 0 <= i < |reps| && reps[i] == r;
      ForeignTablesHave(reps, |reps|, i, p);
    }
  }

  // ---------- every owner has a name ----------

  /** The name of a process is one that its descriptors were found under. */
  ghost predicate NamedFrom(o: Owners, h: Host) {
    forall p :: p in o.comm ==> exists n :: n in h.inodes && h.inodes[n] == Owner(p, o.comm[p])
  }

  lemma SocketNamedFrom(o: Owners, s: Socket, v6: bool, h: Host)
    requires NamedFrom(o, h)
    ensures NamedFrom(AddSocket(o, s, v6, h), h)
  {
    var after := AddSocket(o, s, v6, h);
    forall p | p in after.comm ensures exists n :: n in h.inodes && h.inodes[n] == Owner(p, after.comm[p]) {
      if p in o.comm {
        var n :| n in h.inodes && h.inodes[n] == Owner(p, o.comm[p]);
      } else {
        assert h.inodes[s.inode.value] == Owner(p, after.comm[p]);
      }
    }
  }

  lemma {:induction false} SocketsNamedFrom(o: Owners, rows: seq<Socket>, n: nat, v6: bool, h: Host)
    requires n <= |rows| && NamedFrom(o, h)
    ensures NamedFrom(SocketsTo(o, rows, n, v6, h), h)
  {
    if n > 1 {
      SocketsNamedFrom(o, rows, n - 1, v6, h);
      SocketNamedFrom(SocketsTo(o, rows, n - 1, v6, h), rows[n - 1], v6, h);
    }
  }

  lemma {:induction false} SocketsKeepNames(o: Owners, rows: seq<Socket>, n: nat, v6: bool, h: Host, p: nat)
    requires n <= |rows| && p in o.comm
    ensures p in SocketsTo(o, rows, n, v6, h).comm && SocketsTo(o, rows, n, v6, h).comm[p] == o.comm[p]
  {
    if n > 1 {
      SocketsKeepNames(o, rows, n - 1, v6, h, p);
    }
  }

  /** The first name found for a process stays. */
  lemma {:induction false} FirstNameStays(tables: seq<Table>, m: nat, n: nat, h: Host, p: nat)
    requires m <= n <= |tables| && p in OwnersTo(tables, m, h).comm
    ensures p in OwnersTo(tables, n, h).comm && OwnersTo(tables, n, h).comm[p] == OwnersTo(tables, m, h).comm[p]
    decreases n
  {
    if m < n {
      var rows := RowsOf(tables[n - 1], h);
      FirstNameStays(tables, m, n - 1, h, p);
      SocketsKeepNames(OwnersTo(tables, n - 1, h), rows, |rows|, tables[n - 1].proto.V6(), h, p);
    }
  }

  /** Every name in a snapshot belongs to its process. */
  lemma {:induction false} NamesAreTheirs(tables: seq<Table>, n: nat, h: Host)
    requires n <= |tables|
    ensures NamedFrom(OwnersTo(tables, n, h), h)
  {
    if n > 0 {
      var rows := RowsOf(tables[n - 1], h);
      NamesAreTheirs(tables, n - 1, h);
      SocketsNamedFrom(OwnersTo(tables, n - 1, h), rows, |rows|, tables[n - 1].proto.V6(), h);
    }
  }

  ghost predicate Named(o: Owners) {
    forall ep :: ep in o.byEp ==> o.byEp[ep] in o.comm
  }

  lemma {:induction false} SocketsNamed(o: Owners, rows: seq<Socket>, n: nat, v6: bool, h: Host)
    requires n <= |rows| && Named(o)
    ensures Named(SocketsTo(o, rows, n, v6, h))
  {
    if n > 1 {
      SocketsNamed(o, rows, n - 1, v6, h);
    }
  }

  /** Every process that owns an endpoint has a command name: frames never show `?`. */
  lemma {:induction false} OwnersNamed(tables: seq<Table>, n: nat, h: Host)
    requires n <= |tables|
    ensures Named(OwnersTo(tables, n, h))
  {
    if n > 0 {
      var rows := RowsOf(tables[n - 1], h);
      OwnersNamed(tables, n - 1, h);
      SocketsNamed(OwnersTo(tables, n - 1, h), rows, |rows|, tables[n - 1].proto.V6(), h);
    }
  }
}
