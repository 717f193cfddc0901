/** Retrying a batch is harmless: saved twice it leaves the rows that it leaves when saved
    once, and no save ever moves a monotone column backwards. */
module BatchSafety {
  import opened Clock
  import opened MacAddress
  import opened AssetModel
  import opened TimeText
  import opened TextOrder
  import opened Storage

  // ---------- text MIN and MAX are lattice operations ----------

  lemma {:induction false} LessTransitive(a: string, b: string, c: string)
    requires Less(a, b) && Less(b, c)
    ensures Less(a, c)
  {
    if a != "" && a[0] == b[0] && b[0] == c[0] {
      LessTransitive(a[1..], b[1..], c[1..]);
    }
  }

  lemma MinAbsorbs(v: string, x: string, y: string)
    ensures TextMin(TextMin(TextMin(v, x), y), x) == TextMin(TextMin(v, y), x)
    ensures TextMin(TextMin(x, y), x) == TextMin(y, x)
  {
    hide Less;
    Order(v, x);
    Order(v, y);
    Order(x, y);
    Chains(v, x, y);
  }

  lemma MaxAbsorbs(v: string, x: string, y: string)
    ensures TextMax(TextMax(TextMax(v, x), y), x) == TextMax(TextMax(v, y), x)
    ensures TextMax(TextMax(x, y), x) == TextMax(y, x)
  {
    hide Less;
    Order(v, x);
    Order(v, y);
    Order(x, y);
    Chains(v, x, y);
  }

  lemma Order(a: string, b: string)
    ensures Less(a, b) || Less(b, a) || a == b
    ensures !(Less(a, b) && Less(b, a)) && !Less(a, a) && !Less(b, b)
  {
    LessTotal(a, b);
    if Less(a, b) { LessAsymmetric(a, b); }
    if Less(b, a) { LessAsymmetric(b, a); }
    if Less(a, a) { LessAsymmetric(a, a); }
    if Less(b, b) { LessAsymmetric(b, b); }
  }

  lemma Chains(a: string, b: string, c: string)
    ensures (Less(a, b) && Less(b, c) ==> Less(a, c)) && (Less(a, c) && Less(c, b) ==> Less(a, b))
    ensures (Less(b, a) && Less(a, c) ==> Less(b, c)) && (Less(b, c) && Less(c, a) ==> Less(b, a))
    ensures (Less(c, a) && Less(a, b) ==> Less(c, b)) && (Less(c, b) && Less(b, a) ==> Less(c, a))
  {
    if Less(a, b) && Less(b, c) { LessTransitive(a, b, c); }
    if Less(a, c) && Less(c, b) { LessTransitive(a, c, b); }
    if Less(b, a) && Less(a, c) { LessTransitive(b, a, c); }
    if Less(b, c) && Less(c, a) { LessTransitive(b, c, a); }
    if Less(c, a) && Less(a, b) { LessTransitive(c, a, b); }
    if Less(c, b) && Less(b, a) { LessTransitive(c, b, a); }
  }

  // ---------- repeating a word of absorbing updates ----------

  ghost function Fold<V(!new), X(!new)>(op: (V, X) -> V, v: V, xs: seq<X>): V {
    if xs == [] then v else op(Fold(op, v, xs[..|xs| - 1]), xs[|xs| - 1])
  }

  /** An update makes an earlier occurrence of itself superfluous. */
  ghost predicate Absorbing<V(!new), X(!new)>(op: (V, X) -> V) {
    forall v, x, y :: Absorbs(op, v, x, y)
  }

  ghost predicate Absorbs<V(!new), X(!new)>(op: (V, X) -> V, v: V, x: X, y: X) {
    op(op(op(v, x), y), x) == op(op(v, y), x) && op(op(v, x), x) == op(v, x)
  }

  /** x, then any word, then x again: the first x can be left out. */
  lemma {:induction false} AbsorbsWord<V(!new), X(!new)>(op: (V, X) -> V, v: V, x: X, w: seq<X>)
    requires Absorbing(op)
    ensures op(Fold(op, op(v, x), w), x) == op(Fold(op, v, w), x)
  {
    if w == [] {
      assert Absorbs(op, v, x, x);
    } else {
      var front, y := w[..|w| - 1], w[|w| - 1];
      AbsorbsWord(op, v, x, front);
      assert Absorbs(op, Fold(op, op(v, x), front), x, y);
      assert Absorbs(op, Fold(op, v, front), x, y);
    }
  }

  lemma {:induction false} DropEarlier<V(!new), X(!new)>(op: (V, X) -> V, v: V, x: X, ys: seq<X>)
    requires Absorbing(op) && x in ys
    ensures Fold(op, op(v, x), ys) == Fold(op, v, ys)
  {
    var front, y := ys[..|ys| - 1], ys[|ys| - 1];
    if x == y {
      AbsorbsWord(op, v, x, front);
    } else {
      assert x in front by {
        assert ys == front + [y];
      }
      DropEarlier(op, v, x, front);
    }
  }

  lemma {:induction false} FoldTwice<V(!new), X(!new)>(op: (V, X) -> V, v: V, xs: seq<X>, ys: seq<X>)
    requires Absorbing(op) && forall x <- xs :: x in ys
    ensures Fold(op, Fold(op, v, xs), ys) == Fold(op, v, ys)
  {
    if xs != [] {
      var front, x := xs[..|xs| - 1], xs[|xs| - 1];
      DropEarlier(op, Fold(op, v, front), x, ys);
      FoldTwice(op, v, front, ys);
    }
  }

  // ---------- the update of one row ----------

  ghost function IpOp(o: Option<IpRow>, n: IpRow): Option<IpRow> { Some(MergedIpRow(o, n)) }

  lemma IpOpAbsorbs()
    ensures Absorbing(IpOp)
  {
    hide TextMin, TextMax;
    forall o, a, b ensures Absorbs(IpOp, o, a, b) {
      var first, last := if o.Some? then o.value.firstSeen else "", if o.Some? then o.value.lastSeen else "";
      MinAbsorbs(first, a.firstSeen, b.firstSeen);
      MinAbsorbs(first, a.firstSeen, a.firstSeen);
      MaxAbsorbs(last, a.lastSeen, b.lastSeen);
      MaxAbsorbs(last, a.lastSeen, a.lastSeen);
      MinSame(first, a.firstSeen);
      MaxSame(last, a.lastSeen);
    }
  }

  lemma MinSame(v: string, x: string)
    ensures TextMin(TextMin(v, x), x) == TextMin(v, x) && TextMin(x, x) == x
  {
    hide Less;
    Order(v, x);
  }

  lemma MaxSame(v: string, x: string)
    ensures TextMax(TextMax(v, x), x) == TextMax(v, x) && TextMax(x, x) == x
  {
    hide Less;
    Order(v, x);
  }

  function WithBoth(ips: map<string, IpRow>, s: Snapshot): map<string, IpRow> {
    WithIps(WithIps(ips, s.ipv4s, 4), s.ipv6s, 6)
  }

  /** What a snapshot writes for one address: at most an IPv4 and then an IPv6 row. */
  ghost function IpWrites(s: Snapshot, ip: string): seq<IpRow> {
    (if ip in s.ipv4s then [NewIp(4, s.ipv4s[ip])] else []) + (if ip in s.ipv6s then [NewIp(6, s.ipv6s[ip])] else [])
  }

  lemma IpWritesFold(ips: map<string, IpRow>, s: Snapshot, ip: string)
    ensures StoredIp(WithBoth(ips, s), ip) == Fold(IpOp, StoredIp(ips, ip), IpWrites(s, ip))
  {
    hide NewIp, MergedIpRow;
    var o, w := StoredIp(ips, ip), IpWrites(s, ip);
    if |w| == 2 {
      FoldTwo(IpOp, o, w[0], w[1]);
    } else if |w| == 1 {
      FoldOne(IpOp, o, w[0]);
    }
  }

  lemma FoldOne<V(!new), X(!new)>(op: (V, X) -> V, v: V, x: X)
    ensures Fold(op, v, [x]) == op(v, x)
  {
    assert [x][..0] == [];
  }

  lemma FoldTwo<V(!new), X(!new)>(op: (V, X) -> V, v: V, x: X, y: X)
    ensures Fold(op, v, [x, y]) == op(op(v, x), y)
  {
    FoldOne(op, v, x);
    assert [x, y][..1] == [x];
  }

  lemma IpsAbsorb(ips: map<string, IpRow>, x: Snapshot, y: Snapshot)
    ensures WithBoth(WithBoth(WithBoth(ips, x), y), x) == WithBoth(WithBoth(ips, y), x)
    ensures WithBoth(WithBoth(ips, x), x) == WithBoth(ips, x)
  {
    hide WithBoth, IpWrites, IpOp;
    IpOpAbsorbs();
    forall ip ensures StoredIp(WithBoth(WithBoth(WithBoth(ips, x), y), x), ip) == StoredIp(WithBoth(WithBoth(ips, y), x), ip)
      ensures StoredIp(WithBoth(WithBoth(ips, x), x), ip) == StoredIp(WithBoth(ips, x), ip)
    {
      var o, a, b := StoredIp(ips, ip), IpWrites(x, ip), IpWrites(y, ip);
      IpWritesFold(ips, x, ip);
      IpWritesFold(ips, y, ip);
      IpWritesFold(WithBoth(ips, x), x, ip);
      IpWritesFold(WithBoth(ips, x), y, ip);
      IpWritesFold(WithBoth(ips, y), x, ip);
      IpWritesFold(WithBoth(WithBoth(ips, x), y), x, ip);
      FoldTwice(IpOp, o, a, a);
      FoldTwice(IpOp, o, a, b + a);
      FoldAppend(IpOp, Fold(IpOp, o, a), b, a);
      FoldAppend(IpOp, o, b, a);
    }
    SameStoredIps(WithBoth(WithBoth(WithBoth(ips, x), y), x), WithBoth(WithBoth(ips, y), x));
    SameStoredIps(WithBoth(WithBoth(ips, x), x), WithBoth(ips, x));
  }

  lemma SameStoredIps(a: map<string, IpRow>, b: map<string, IpRow>)
    requires forall ip :: StoredIp(a, ip) == StoredIp(b, ip)
    ensures a == b
  {
    forall ip ensures ip in a <==> ip in b {
      assert StoredIp(a, ip) == StoredIp(b, ip);
    }
    forall ip | ip in a ensures a[ip] == b[ip] {
      assert StoredIp(a, ip) == StoredIp(b, ip);
    }
  }

  lemma {:induction false} FoldAppend<V(!new), X(!new)>(op: (V, X) -> V, v: V, xs: seq<X>, ys: seq<X>)
    ensures Fold(op, v, xs + ys) == Fold(op, Fold(op, v, xs), ys)
  {
    if ys == [] {
      assert xs + ys == xs;
    } else {
      assert (xs + ys)[..|xs + ys| - 1] == xs + ys[..|ys| - 1];
      FoldAppend(op, v, xs, ys[..|ys| - 1]);
    }
  }

  /** A row without the two columns that only an insert writes. */
  function BareRow(r: Row): Row { r.(extra := map[], hostFirst := map[]) }

  function RowOp(o: Option<Row>, s: Snapshot): Row { BareRow(WithChildren(MergedRow(o, s), s)) }

  lemma ColumnsAbsorb(o: Option<Row>, x: Snapshot, y: Snapshot)
    ensures
      BareRow(MergedRow(Some(MergedRow(Some(MergedRow(o, x)), y)), x)) == BareRow(MergedRow(Some(MergedRow(o, y)), x))
    ensures BareRow(MergedRow(Some(MergedRow(o, x)), x)) == BareRow(MergedRow(o, x))
  {
    hide TextMin, TextMax, TimeFmt, MacString;
    var first, last := if o.Some? then o.value.firstSeen else "", if o.Some? then o.value.lastSeen else "";
    MinAbsorbs(first, TimeFmt(x.firstSeen), TimeFmt(y.firstSeen));
    MaxAbsorbs(last, TimeFmt(x.lastSeen), TimeFmt(y.lastSeen));
    MinSame(first, TimeFmt(x.firstSeen));
    MaxSame(last, TimeFmt(x.lastSeen));
  }

  /** The law for whole rows, when the columns that only inserts write are set aside. */
  lemma RowAbsorbs(o: Option<Row>, x: Snapshot, y: Snapshot)
    ensures RowOp(Some(RowOp(Some(RowOp(o, x)), y)), x) == RowOp(Some(RowOp(o, y)), x)
    ensures RowOp(Some(RowOp(o, x)), x) == RowOp(o, x)
  {
    ColumnsAbsorb(o, x, y);
    var r := MergedRow(o, x);
    IpsAbsorb(if o.Some? then o.value.ips else map[], x, y);
    ServicesAbsorb(if o.Some? then o.value.services else map[], x, y);
    HostsAbsorb(if o.Some? then o.value.hostLast else map[], x, y);
    hide TextMin, TextMax, TimeFmt, MacString, WithIps, ServiceRows, WithHostLast, WithHostFirst;
  }

  lemma ServicesAbsorb(m: map<ServiceSlot, ServiceRow>, x: Snapshot, y: Snapshot)
    ensures var a, b := ServiceRows(x, |x.services|), ServiceRows(y, |y.services|);
      m + a + b + a == m + b + a && m + a + a == m + a
  {
    hide ServiceRows;
  }

  lemma HostsAbsorb(m: map<string, string>, x: Snapshot, y: Snapshot)
    ensures WithHostLast(WithHostLast(WithHostLast(m, x), y), x) == WithHostLast(WithHostLast(m, y), x)
    ensures WithHostLast(WithHostLast(m, x), x) == WithHostLast(m, x)
  {
    hide TimeFmt, HostKeys;
  }

  // ---------- the update of the tables ----------

  ghost function Bare(db: Db): Db { map id | id in db :: BareRow(db[id]) }

  ghost function DbOp(db: Db, s: Snapshot): Db { db[s.id := RowOp(StoredRow(db, s.id), s)] }

  lemma DbOpAbsorbs()
    ensures Absorbing(DbOp)
  {
    hide RowOp;
    forall db, x, y ensures Absorbs(DbOp, db, x, y) {
      SaveAbsorbs(db, x, y);
    }
  }

  lemma SaveAbsorbs(db: Db, x: Snapshot, y: Snapshot)
    ensures DbOp(DbOp(DbOp(db, x), y), x) == DbOp(DbOp(db, y), x)
    ensures DbOp(DbOp(db, x), x) == DbOp(db, x)
  {
    hide RowOp;
    var o := StoredRow(db, x.id);
    RowAbsorbs(o, x, y);
    var r := RowOp(o, x);
    if x.id == y.id {
      var l, m := RowOp(Some(r), y), RowOp(o, y);
      assert DbOp(DbOp(db, x), y) == db[x.id := l] && DbOp(db, y) == db[x.id := m];
    } else {
      var m := RowOp(StoredRow(db, y.id), y);
      assert DbOp(DbOp(db, x), y) == db[x.id := r][y.id := m] && DbOp(db, y) == db[y.id := m];
      assert db[x.id := r][y.id := m][x.id := r] == db[y.id := m][x.id := r];
    }
  }

  lemma BareRowIsEnough(o: Option<Row>, s: Snapshot)
    ensures RowOp(o, s) == RowOp(if o.Some? then Some(BareRow(o.value)) else None, s)
  {
    hide TextMin, TextMax, TimeFmt, MacString, WithIps, ServiceRows, WithHostLast, WithHostFirst;
  }

  lemma {:induction false} BareSaves(db: Db, batch: seq<Snapshot>)
    ensures Bare(SaveAll(db, batch)) == Fold(DbOp, Bare(db), batch)
  {
    hide RowOp, BareRow, MergedRow, WithChildren;
    if batch != [] {
      var before, s := SaveAll(db, batch[..|batch| - 1]), batch[|batch| - 1];
      BareSaves(db, batch[..|batch| - 1]);
      BareRowIsEnough(StoredRow(before, s.id), s);
      assert BareRow(WithChildren(MergedRow(StoredRow(before, s.id), s), s)) == RowOp(StoredRow(before, s.id), s) by {
        RowOpIs(StoredRow(before, s.id), s);
      }
    }
  }

  lemma RowOpIs(o: Option<Row>, s: Snapshot)
    ensures RowOp(o, s) == BareRow(WithChildren(MergedRow(o, s), s))
  {
  }

  /** The row of the snapshot and the rows of its hostnames are there already. */
  ghost predicate Covered(db: Db, s: Snapshot) {
    s.id in db && HostKeys(s) <= db[s.id].hostFirst.Keys
  }

  ghost predicate SameInsertOnly(a: Db, b: Db) {
    && (forall id :: id in a <==> id in b)
    && (forall id <- a.Keys :: a[id].extra == b[id].extra && a[id].hostFirst == b[id].hostFirst)
  }

  lemma SaveCovers(db: Db, s: Snapshot, t: Snapshot)
    ensures Covered(SaveOne(db, s), s)
    ensures Covered(db, t) ==> Covered(SaveOne(db, s), t)
    ensures Covered(db, s) ==> SameInsertOnly(SaveOne(db, s), db)
  {
    hide TextMin, TextMax, TimeFmt, MacString, WithIps, ServiceRows, WithHostLast, HostKeys;
  }

  lemma {:induction false} SaveAllCovers(db: Db, batch: seq<Snapshot>, t: Snapshot)
    ensures t in batch || Covered(db, t) ==> Covered(SaveAll(db, batch), t)
  {
    hide Covered, SaveOne;
    if batch != [] {
      var front, s := batch[..|batch| - 1], batch[|batch| - 1];
      assert batch == front + [s];
      SaveAllCovers(db, front, t);
      SaveCovers(SaveAll(db, front), s, t);
    }
  }

  lemma {:induction false} SavingCoveredKeeps(db: Db, batch: seq<Snapshot>)
    requires forall s <- batch :: Covered(db, s)
    ensures SameInsertOnly(SaveAll(db, batch), db)
  {
    hide Covered, SaveOne;
    if batch != [] {
      var front, s := batch[..|batch| - 1], batch[|batch| - 1];
      SavingCoveredKeeps(db, front);
      SaveAllCovers(db, front, s);
      SaveCovers(SaveAll(db, front), s, s);
    }
  }

  /** Saving a batch a second time changes nothing: a retry after a save whose success was
      not noticed is harmless. */
  lemma SaveTwice(db: Db, batch: seq<Snapshot>)
    ensures SaveAll(SaveAll(db, batch), batch) == SaveAll(db, batch)
  {
    hide SaveAll, DbOp, Covered, BareRow;
    var once := SaveAll(db, batch);
    var twice := SaveAll(once, batch);
    DbOpAbsorbs();
    BareSaves(db, batch);
    BareSaves(once, batch);
    FoldTwice(DbOp, Bare(db), batch, batch);
    assert Bare(twice) == Bare(once);
    forall s <- batch ensures Covered(once, s) {
      SaveAllCovers(db, batch, s);
    }
    SavingCoveredKeeps(once, batch);
    forall id <- once.Keys ensures twice[id] == once[id] {
      assert Bare(twice)[id] == Bare(once)[id];
      SameRow(twice[id], once[id]);
    }
    assert forall id :: id in twice <==> id in once;
  }

  lemma SameRow(a: Row, b: Row)
    requires BareRow(a) == BareRow(b) && a.extra == b.extra && a.hostFirst == b.hostFirst
    ensures a == b
  {
    assert a == BareRow(a).(extra := a.extra, hostFirst := a.hostFirst);
    assert b == BareRow(b).(extra := b.extra, hostFirst := b.hostFirst);
  }

  // ---------- monotone columns ----------

  ghost predicate AtMost(a: string, b: string) { !Less(b, a) }

  /** Times only move outwards, counts and leases only grow, known names stay known, and no
      child row disappears. */
  ghost predicate Grows(a: Row, b: Row) {
    && AtMost(b.firstSeen, a.firstSeen) && AtMost(a.lastSeen, b.lastSeen) && a.seenCount <= b.seenCount
    && (a.vendor != "" ==> b.vendor != "") && (a.model != "" ==> b.model != "") && a.extra == b.extra
    && a.hostFirst.Keys <= b.hostFirst.Keys && (forall h <- a.hostFirst.Keys :: b.hostFirst[h] == a.hostFirst[h])
    && (forall ip :: ip in a.ips ==> ip in b.ips && IpGrows(a.ips[ip], b.ips[ip]))
  }

  ghost predicate IpGrows(a: IpRow, b: IpRow) {
    AtMost(b.firstSeen, a.firstSeen) && AtMost(a.lastSeen, b.lastSeen) && a.leaseSeconds <= b.leaseSeconds
  }

  lemma AtMostTransitive(a: string, b: string, c: string)
    requires AtMost(a, b) && AtMost(b, c)
    ensures AtMost(a, c) && AtMost(a, a)
  {
    hide Less;
    Order(a, b);
    Order(b, c);
    Order(a, c);
    Chains(a, b, c);
  }

  lemma PicksMove(a: string, b: string)
    ensures AtMost(TextMin(a, b), a) && AtMost(a, TextMax(a, b)) && AtMost(a, a)
  {
    hide Less;
    Order(a, b);
  }

  lemma IpRowGrows(a: IpRow, n: IpRow)
    ensures IpGrows(a, MergedIpRow(Some(a), n)) && IpGrows(a, a)
  {
    hide TextMin, TextMax, AtMost;
    PicksMove(a.firstSeen, n.firstSeen);
    PicksMove(a.lastSeen, n.lastSeen);
  }

  lemma IpGrowsTransitive(a: IpRow, b: IpRow, c: IpRow)
    requires IpGrows(a, b) && IpGrows(b, c)
    ensures IpGrows(a, c)
  {
    AtMostTransitive(c.firstSeen, b.firstSeen, a.firstSeen);
    AtMostTransitive(a.lastSeen, b.lastSeen, c.lastSeen);
  }

  lemma IpsGrow(ips: map<string, IpRow>, m: IpMap, version: nat)
    ensures forall ip :: ip in ips ==> ip in WithIps(ips, m, version) && IpGrows(ips[ip], WithIps(ips, m, version)[ip])
  {
    hide IpGrows, MergedIpRow, NewIp;
    forall ip | ip in ips ensures IpGrows(ips[ip], WithIps(ips, m, version)[ip]) {
      if ip in m {
        IpRowGrows(ips[ip], NewIp(version, m[ip]));
      } else {
        IpRowGrows(ips[ip], ips[ip]);
      }
    }
  }

  lemma RowGrows(r: Row, s: Snapshot)
    ensures Grows(r, WithChildren(MergedRow(Some(r), s), s)) && Grows(r, r)
  {
    hide TextMin, TextMax, TimeFmt, MacString, WithIps, ServiceRows, WithHostLast, HostKeys, AtMost, IpGrows;
    PicksMove(r.firstSeen, TimeFmt(s.firstSeen));
    PicksMove(r.lastSeen, TimeFmt(s.lastSeen));
    var one := WithIps(r.ips, s.ipv4s, 4);
    var two := WithIps(one, s.ipv6s, 6);
    IpsGrow(r.ips, s.ipv4s, 4);
    IpsGrow(one, s.ipv6s, 6);
    forall ip | ip in r.ips ensures IpGrows(r.ips[ip], two[ip]) && IpGrows(r.ips[ip], r.ips[ip]) {
      IpGrowsTransitive(r.ips[ip], one[ip], two[ip]);
      IpRowGrows(r.ips[ip], r.ips[ip]);
    }
  }

  lemma GrowsTransitive(a: Row, b: Row, c: Row)
    requires Grows(a, b) && Grows(b, c)
    ensures Grows(a, c)
  {
    hide AtMost, IpGrows;
    AtMostTransitive(c.firstSeen, b.firstSeen, a.firstSeen);
    AtMostTransitive(a.lastSeen, b.lastSeen, c.lastSeen);
    forall ip | ip in a.ips ensures ip in c.ips && IpGrows(a.ips[ip], c.ips[ip]) {
      IpGrowsTransitive(a.ips[ip], b.ips[ip], c.ips[ip]);
    }
  }

  /** No batch moves a row backwards, or removes one. */
  lemma {:induction false} BatchesGrow(db: Db, batch: seq<Snapshot>, id: AssetId)
    requires id in db
    ensures id in SaveAll(db, batch) && Grows(db[id], SaveAll(db, batch)[id])
  {
    hide Grows, WithChildren, MergedRow;
    if batch == [] {
      RowGrows(db[id], Blank("", []));
    } else {
      var front, s := batch[..|batch| - 1], batch[|batch| - 1];
      BatchesGrow(db, front, id);
      var before := SaveAll(db, front);
      if s.id == id {
        RowGrows(before[id], s);
        GrowsTransitive(db[id], before[id], SaveAll(db, batch)[id]);
      }
    }
  }
}
