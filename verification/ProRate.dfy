/**
  Distributing the one global LAN delta over the interfaces, in proportion to their
  traffic: exact division rounded down, and never more LAN than total.
 */
module ProRate {
  import opened Traffic
  import opened Aggregation

  /** The LAN bytes of an interface that carried `part` of `total`. Forced-LAN interfaces are LAN altogether. */
  function Share(part: int, lan: int, total: int, forced: bool): int {
    var share := if forced then part else if total > 0 then lan * part / total else 0;
    if share < part then share else part
  }

  /** The rows of a tick with their LAN columns filled in. */
  function ProratedTo(per: seq<Row>, n: nat, lan: Flow, rx: int, tx: int, forced: set<string>): (rows: seq<Row>)
    requires n <= |per|
    ensures |rows| == n
    ensures forall i :: 0 <= i < n ==> rows[i].Id() == per[i].Id() && rows[i].bytes.all == per[i].bytes.all
  {
    if n == 0 then []
    else
      var p := per[n - 1];
      ProratedTo(per, n - 1, lan, rx, tx, forced)
      + [Row(p.ts, p.iface, Bytes(p.bytes.all, Flow(Share(p.bytes.all.rx, lan.rx, rx, p.iface in forced),
                                                    Share(p.bytes.all.tx, lan.tx, tx, p.iface in forced))))]
  }

  function Prorated(per: seq<Row>, lan: Flow, forced: set<string>): seq<Row> {
    ProratedTo(per, |per|, lan, ColumnSum(per, Everything, Rx), ColumnSum(per, Everything, Tx), forced)
  }

  /** The second loop over `per`, once its totals are known. */
  method Prorate(per: seq<Row>, lan: Flow, forced: set<string>) returns (rows: seq<Row>)
    ensures rows == Prorated(per, lan, forced)
  {
    var rx, tx := 0, 0;
    for i := 0 to |per|
      invariant rx == ColumnTo(per, i, Everything, Rx) && tx == ColumnTo(per, i, Everything, Tx)
    {
      rx := rx + per[i].bytes.all.rx;
      tx := tx + per[i].bytes.all.tx;
    }
    rows := [];
    for i := 0 to |per|
      invariant rows == ProratedTo(per, i, lan, rx, tx, forced)
    {
      var p := per[i];
      var share := Flow(Share(p.bytes.all.rx, lan.rx, rx, p.iface in forced),
                        Share(p.bytes.all.tx, lan.tx, tx, p.iface in forced));
      rows := rows + [Row(p.ts, p.iface, Bytes(p.bytes.all, share))];
    }
  }

  // ---------- one share ----------

  lemma ShareSound(part: int, lan: int, total: int, forced: bool)
    requires 0 <= part && 0 <= lan
    ensures 0 <= Share(part, lan, total, forced) <= part
  {
    if total > 0 {
      Quotient(lan * part, total);
    }
  }

  lemma Quotient(a: int, d: int)
    requires 0 <= a && 0 < d
    ensures 0 <= a / d && d * (a / d) <= a < d * (a / d) + d
  {
    assert a == d * (a / d) + a % d;
  }

  /** Below the total the minimum never acts, and a share is its exact proportion rounded down. */
  lemma ShareExact(part: int, lan: int, total: int)
    requires 0 <= part && 0 <= lan <= total && 0 < total
    ensures var s := Share(part, lan, total, false);
            s == lan * part / total && total * s <= lan * part && (part > 0 ==> lan * part < total * s + total)
            && (part == 0 ==> s == 0)
  {
    Quotient(lan * part, total);
    var q := lan * part / total;
    assert lan * part <= total * part;
    assert q > part ==> total * q >= total * (part + 1);
  }

  /** The largest number of bytes, at most `part`, that does not exceed the exact proportion of `lan`. */
  predicate LargestShare(s: int, part: int, lan: int, total: int) {
    && 0 <= s <= part && total * s <= lan * part
    && (s < part ==> lan * part < total * (s + 1))
  }

  /** A forced-LAN interface is LAN altogether; without traffic there is nothing to share. */
  predicate FairShare(s: int, part: int, lan: int, total: int, forced: bool) {
    if forced then s == part else if total > 0 then LargestShare(s, part, lan, total) else s == 0
  }

  /** Whatever the LAN delta, above the total or below, that is the share. */
  lemma ShareIsFair(part: int, lan: int, total: int, forced: bool)
    requires 0 <= part && 0 <= lan
    ensures FairShare(Share(part, lan, total, forced), part, lan, total, forced)
  {
    if total > 0 {
      var q := lan * part / total;
      Quotient(lan * part, total);
      if q < part {
        assert total * (q + 1) == total * q + total;
      } else {
        LessTimes(total, part, q);
      }
    }
  }

  lemma LessTimes(d: int, x: int, y: int)
    requires 0 < d && x <= y
    ensures d * x <= d * y
  {
  }

  /** The LAN columns of each row, one interface at a time. */
  lemma {:induction false} RowShares(
    per: seq<Row>, n: nat, lan: Flow, rx: int, tx: int, forced: set<string>, i: nat)
    requires i < n <= |per| && NonNegative(per) && 0 <= lan.rx && 0 <= lan.tx
    ensures var (p, r) := (per[i], ProratedTo(per, n, lan, rx, tx, forced)[i]);
            && r.ts == p.ts && r.iface == p.iface && r.bytes.all == p.bytes.all
            && FairShare(r.bytes.lan.rx, p.bytes.all.rx, lan.rx, rx, p.iface in forced)
            && FairShare(r.bytes.lan.tx, p.bytes.all.tx, lan.tx, tx, p.iface in forced)
  {
    if i < n - 1 {
      RowShares(per, n - 1, lan, rx, tx, forced, i);
    } else {
      ShareIsFair(per[i].bytes.all.rx, lan.rx, rx, per[i].iface in forced);
      ShareIsFair(per[i].bytes.all.tx, lan.tx, tx, per[i].iface in forced);
    }
  }

  // ---------- all shares ----------

  ghost predicate NonNegative(per: seq<Row>) {
    forall i :: 0 <= i < |per| ==> per[i].bytes.all.rx >= 0 && per[i].bytes.all.tx >= 0
  }

  /** The direction that column `c` counts. */
  predicate IsTotal(c: Column) {
    c.Rx? || c.Tx?
  }

  /** What the tick records as LAN in one direction. */
  function LanTo(per: seq<Row>, n: nat, c: Column, lan: int, total: int, forced: set<string>): int
    requires n <= |per|
  {
    if n == 0 then 0
    else
      var p := per[n - 1];
      LanTo(per, n - 1, c, lan, total, forced) + Share(Cell(p.bytes, c), lan, total, p.iface in forced)
  }

  function Lan(per: seq<Row>, c: Column, lan: int, forced: set<string>): int {
    LanTo(per, |per|, c, lan, ColumnSum(per, Everything, c), forced)
  }

  /** The interfaces that carried bytes in that direction. */
  function ActiveTo(per: seq<Row>, n: nat, c: Column): nat
    requires n <= |per|
  {
    if n == 0 then 0 else ActiveTo(per, n - 1, c) + (if Cell(per[n - 1].bytes, c) > 0 then 1 else 0)
  }

  /** The LAN columns of the rows add up to `LanTo`. */
  lemma {:induction false} ProratedLan(per: seq<Row>, n: nat, lan: Flow, rx: int, tx: int, forced: set<string>)
    requires n <= |per|
    ensures var rows := ProratedTo(per, n, lan, rx, tx, forced);
            && ColumnSum(rows, Everything, LanRx) == LanTo(per, n, Rx, lan.rx, rx, forced)
            && ColumnSum(rows, Everything, LanTx) == LanTo(per, n, Tx, lan.tx, tx, forced)
  {
    if n > 0 {
      ProratedLan(per, n - 1, lan, rx, tx, forced);
      var rows := ProratedTo(per, n, lan, rx, tx, forced);
      ColumnOneMore(ProratedTo(per, n - 1, lan, rx, tx, forced), rows[n - 1], Everything, LanRx);
      ColumnOneMore(ProratedTo(per, n - 1, lan, rx, tx, forced), rows[n - 1], Everything, LanTx);
    }
  }

  /** TOTAL = LAN + WAN for every row of a tick, whatever the LAN delta. */
  lemma {:induction false} ProratedSound(per: seq<Row>, n: nat, lan: Flow, rx: int, tx: int, forced: set<string>)
    requires n <= |per| && NonNegative(per) && 0 <= lan.rx && 0 <= lan.tx
    ensures AllSound(ProratedTo(per, n, lan, rx, tx, forced))
  {
    if n > 0 {
      ProratedSound(per, n - 1, lan, rx, tx, forced);
      ShareSound(per[n - 1].bytes.all.rx, lan.rx, rx, per[n - 1].iface in forced);
      ShareSound(per[n - 1].bytes.all.tx, lan.tx, tx, per[n - 1].iface in forced);
    }
  }

  ghost predicate NoneForced(per: seq<Row>, forced: set<string>) {
    forall i :: 0 <= i < |per| ==> per[i].iface !in forced
  }

  /** Shares `shares` of `part` bytes bracket the exact proportion, within one byte for each of `active` parts. */
  predicate Brackets(shares: int, part: int, active: int, lan: int, total: int) {
    && 0 <= part && total * shares <= lan * part
    && (if active > 0 then lan * part < total * (shares + active) else part == 0 && shares == 0)
  }

  lemma BracketsAdd(shares: int, part: int, active: nat, s: int, p: int, lan: int, total: int)
    requires Brackets(shares, part, active, lan, total) && 0 <= lan && 0 < total && 0 <= p
    requires total * s <= lan * p && (if p > 0 then lan * p < total * s + total else s == 0)
    ensures Brackets(shares + s, part + p, active + (if p > 0 then 1 else 0), lan, total)
  {
    assert total * (shares + s) == total * shares + total * s;
    assert lan * (part + p) == lan * part + lan * p;
    assert total * (shares + active) == total * shares + total * active;
    assert total * (shares + s + (active + 1)) == total * (shares + active) + total * s + total;
    assert total * (shares + s + active) == total * (shares + active) + total * s;
  }

  lemma {:induction false} SharesBracket(per: seq<Row>, n: nat, c: Column, lan: int, total: int, forced: set<string>)
    requires n <= |per| && NonNegative(per) && IsTotal(c) && NoneForced(per, forced) && 0 <= lan <= total && 0 < total
    ensures Brackets(LanTo(per, n, c, lan, total, forced), ColumnTo(per, n, Everything, c), ActiveTo(per, n, c), lan,
                     total)
  {
    if n > 0 {
      var p := Cell(per[n - 1].bytes, c);
      SharesBracket(per, n - 1, c, lan, total, forced);
      ShareExact(p, lan, total);
      BracketsAdd(LanTo(per, n - 1, c, lan, total, forced), ColumnTo(per, n - 1, Everything, c),
                  ActiveTo(per, n - 1, c),
                  Share(p, lan, total, false), p, lan, total);
    } else {
      assert total * 0 == 0 && lan * 0 == 0;
    }
  }

  /**
    Conservation: with no forced-LAN interface and no more LAN than traffic, the shares
    add up to at most the LAN delta, and miss less than one byte per active interface.
   */
  lemma SharesConserve(per: seq<Row>, c: Column, lan: int, forced: set<string>)
    requires NonNegative(per) && IsTotal(c) && NoneForced(per, forced)
    requires var total := ColumnSum(per, Everything, c); 0 <= lan <= total && 0 < total
    ensures lan - ActiveTo(per, |per|, c) < Lan(per, c, lan, forced) <= lan
  {
    var total, n := ColumnSum(per, Everything, c), |per|;
    SharesBracket(per, n, c, lan, total, forced);
    var shares, active := Lan(per, c, lan, forced), ActiveTo(per, n, c);
    Cancel(total, shares, lan);
    CancelStrict(total, lan, shares + active);
  }

  lemma {:induction false} ProductGrows(d: int, k: int)
    requires 0 < d && 1 <= k
    ensures d * k >= d
    decreases k
  {
    if k > 1 {
      ProductGrows(d, k - 1);
      assert d * k == d * (k - 1) + d;
    }
  }

  lemma Cancel(d: int, x: int, y: int)
    requires 0 < d && d * x <= y * d
    ensures x <= y
  {
    assert d * x == d * y + d * (x - y);
    if x > y {
      ProductGrows(d, x - y);
    }
  }

  lemma CancelStrict(d: int, x: int, y: int)
    requires 0 < d && x * d < d * y
    ensures x < y
  {
    assert d * x == d * y + d * (x - y);
    if x > y {
      ProductGrows(d, x - y);
    }
  }

  // ---------- forced-LAN interfaces ----------

  lemma {:induction false} SharesBelowTotal(per: seq<Row>, n: nat, c: Column, lan: int, total: int, forced: set<string>)
    requires n <= |per| && NonNegative(per) && IsTotal(c) && 0 <= lan
    ensures 0 <= LanTo(per, n, c, lan, total, forced) <= ColumnTo(per, n, Everything, c)
  {
    if n > 0 {
      SharesBelowTotal(per, n - 1, c, lan, total, forced);
      ShareSound(Cell(per[n - 1].bytes, c), lan, total, per[n - 1].iface in forced);
    }
  }

  lemma {:induction false} ForcedAddUp(
      per: seq<Row>, n: nat, c: Column, lan: int, total: int, forced: set<string>, i: nat)
    requires i < n <= |per| && NonNegative(per) && IsTotal(c) && 0 <= lan && per[i].iface in forced
    ensures LanTo(per, n, c, lan, total, forced) >= Cell(per[i].bytes, c)
  {
    ShareSound(Cell(per[n - 1].bytes, c), lan, total, per[n - 1].iface in forced);
    if i < n - 1 {
      ForcedAddUp(per, n - 1, c, lan, total, forced, i);
    } else {
      SharesBelowTotal(per, n - 1, c, lan, total, forced);
    }
  }

  ghost predicate ForcedIdle(per: seq<Row>, c: Column, forced: set<string>) {
    forall i :: 0 <= i < |per| && per[i].iface in forced ==> Cell(per[i].bytes, c) == 0
  }

  lemma {:induction false} IdleForcedIsNone(per: seq<Row>, n: nat, c: Column, lan: int, total: int, forced: set<string>)
    requires n <= |per| && ForcedIdle(per, c, forced)
    ensures LanTo(per, n, c, lan, total, forced) == LanTo(per, n, c, lan, total, {})
  {
    if n > 0 {
      IdleForcedIsNone(per, n - 1, c, lan, total, forced);
      if per[n - 1].iface in forced && total > 0 {
        assert lan * 0 / total == 0;
      }
    }
  }

  lemma LanWithinDelta(per: seq<Row>, c: Column, lan: int, forced: set<string>)
    requires NonNegative(per) && IsTotal(c) && ForcedIdle(per, c, forced) && 0 <= lan
    ensures Lan(per, c, lan, forced) <= lan
  {
    var total := ColumnSum(per, Everything, c);
    SharesBelowTotal(per, |per|, c, lan, total, forced);
    if total > 0 && lan <= total {
      IdleForcedIsNone(per, |per|, c, lan, total, forced);
      SharesConserve(per, c, lan, {});
    }
  }

  lemma ShareOfAll(part: int, lan: int, total: int, forced: bool)
    requires 0 <= part <= total <= lan
    ensures Share(part, lan, total, forced) == part
  {
    if total > 0 && !forced {
      ShareIsFair(part, lan, total, forced);
      var s := Share(part, lan, total, forced);
      if s < part {
        LessTimes(total, s + 1, part);
        LessTimes(part, total, lan);
      }
    }
  }

  lemma {:induction false} PartOfTotal(per: seq<Row>, n: nat, c: Column)
    requires n <= |per| && NonNegative(per) && IsTotal(c)
    ensures 0 <= ColumnTo(per, n, Everything, c)
    ensures n > 0 ==> 0 <= Cell(per[n - 1].bytes, c) <= ColumnTo(per, n, Everything, c)
    ensures n > 0 ==> ColumnTo(per, n - 1, Everything, c) <= ColumnTo(per, n, Everything, c)
  {
    if n > 0 {
      PartOfTotal(per, n - 1, c);
    }
  }

  lemma {:induction false} AllIsLan(per: seq<Row>, n: nat, c: Column, lan: int, total: int, forced: set<string>)
    requires n <= |per| && NonNegative(per) && IsTotal(c) && ColumnTo(per, n, Everything, c) <= total <= lan
    ensures LanTo(per, n, c, lan, total, forced) == ColumnTo(per, n, Everything, c)
  {
    if n > 0 {
      PartOfTotal(per, n, c);
      AllIsLan(per, n - 1, c, lan, total, forced);
      ShareOfAll(Cell(per[n - 1].bytes, c), lan, total, per[n - 1].iface in forced);
    }
  }

  /** A LAN delta above the traffic makes all traffic LAN, and the excess is dropped. */
  lemma LanAboveTotal(per: seq<Row>, c: Column, lan: int, forced: set<string>)
    requires NonNegative(per) && IsTotal(c) && ColumnSum(per, Everything, c) <= lan
    ensures Lan(per, c, lan, forced) == ColumnSum(per, Everything, c)
  {
    AllIsLan(per, |per|, c, lan, ColumnSum(per, Everything, c), forced);
  }

  function Lesser(x: int, y: int): int {
    if x <= y then x else y
  }

  /** A tick records the LAN delta up to its traffic, and misses at most one byte per active interface. */
  lemma LanNearDelta(per: seq<Row>, c: Column, lan: int, forced: set<string>)
    requires NonNegative(per) && IsTotal(c) && ForcedIdle(per, c, forced) && 0 <= lan
    ensures Lesser(lan, ColumnSum(per, Everything, c)) - ActiveTo(per, |per|, c) <= Lan(per, c, lan, forced) <= lan
  {
    var total := ColumnSum(per, Everything, c);
    LanWithinDelta(per, c, lan, forced);
    PartOfTotal(per, |per|, c);
    if lan >= total {
      LanAboveTotal(per, c, lan, forced);
    } else {
      IdleForcedIsNone(per, |per|, c, lan, total, forced);
      SharesConserve(per, c, lan, {});
    }
  }

  /**
    The shares of the LAN delta are not reduced by what forced-LAN interfaces claim, so a
    tick records no more LAN than was measured, whatever was, exactly if those are idle.
   */
  lemma ForcedOverAttributesIff(per: seq<Row>, c: Column, forced: set<string>)
    requires NonNegative(per) && IsTotal(c)
    ensures (forall lan: nat :: Lan(per, c, lan, forced) <= lan) <==> ForcedIdle(per, c, forced)
  {
    forall lan: nat | ForcedIdle(per, c, forced) ensures Lan(per, c, lan, forced) <= lan {
      LanWithinDelta(per, c, lan, forced);
    }
    if !ForcedIdle(per, c, forced) {
      var i :| 0 <= i < |per| && per[i].iface in forced && Cell(per[i].bytes, c) != 0;
      ForcedAddUp(per, |per|, c, 0, ColumnSum(per, Everything, c), forced, i);
      assert Lan(per, c, 0, forced) > 0;
    }
  }
}
