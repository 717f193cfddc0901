/** The merge helpers of internal/asset/util.go. Each comes as a function, which is the
    specification, and as the method that works through maps and slices as the source does. */
module MergeUtil {
  import opened Clock
  import opened AssetModel
  import opened Decimals

  // ---------- IP maps ----------

  function MergeEntry(known: IpEntry, incoming: IpEntry): IpEntry {
    IpEntry(known.firstSeen,
            MaxTime(known.lastSeen, incoming.lastSeen),
            if incoming.lease > 0 && incoming.lease > known.lease then incoming.lease else known.lease,
            true)
  }

  /** The entry of `ip` after `incoming` was merged at `now`. */
  function MergedIp(dst: IpMap, src: IpMap, now: Time, ip: string): IpEntry
    requires ip in dst || (ip in src && ip != "")
  {
    if ip !in dst then src[ip].(firstSeen := now, active := true)
    else if ip in src && ip != "" then MergeEntry(dst[ip], src[ip])
    else dst[ip]
  }

  function MergeIps(dst: IpMap, src: IpMap, now: Time): IpMap {
    map ip | ip in dst.Keys + (src.Keys - {""}) :: MergedIp(dst, src, now, ip)
  }

  function MergeOne(dst: IpMap, ip: string, incoming: IpEntry, now: Time): IpMap {
    dst[ip := if ip in dst then MergeEntry(dst[ip], incoming) else incoming.(firstSeen := now, active := true)]
  }

  /** The loop body of `mergeIPMap`. */
  method MergeAddress(dst: IpMap, ip: string, incoming: IpEntry, now: Time) returns (out: IpMap, changed: bool)
    ensures out == MergeOne(dst, ip, incoming, now)
    ensures changed <==> ip !in dst || out[ip] != dst[ip]
  {
    if ip !in dst {
      return dst[ip := incoming.(firstSeen := now, active := true)], true;
    }
    var entry := dst[ip];
    changed := false;
    if incoming.lastSeen > entry.lastSeen {
      entry := entry.(lastSeen := incoming.lastSeen);
      changed := true;
    }
    if incoming.lease > 0 && incoming.lease > entry.lease {
      entry := entry.(lease := incoming.lease);
      changed := true;
    }
    if !entry.active {
      entry := entry.(active := true);
      changed := true;
    }
    out := dst[ip := entry];
  }

  /** What a merge has reached when the addresses in `todo` are still to come. */
  ghost predicate MergedBut(out: IpMap, dst: IpMap, src: IpMap, now: Time, todo: set<string>) {
    && (forall ip :: ip in out <==> ip in dst || (ip in src && ip !in todo && ip != ""))
    && (forall ip <- out.Keys :: out[ip] == if ip in todo then dst[ip] else MergedIp(dst, src, now, ip))
  }

  lemma MergedOneMore(out: IpMap, dst: IpMap, src: IpMap, now: Time, todo: set<string>, ip: string)
    requires MergedBut(out, dst, src, now, todo) && ip in todo && todo <= src.Keys - {""}
    ensures MergedBut(MergeOne(out, ip, src[ip], now), dst, src, now, todo - {ip})
  {
    hide MergeEntry;
  }

  lemma MergedAll(out: IpMap, dst: IpMap, src: IpMap, now: Time)
    ensures MergedBut(dst, dst, src, now, src.Keys - {""})
    ensures MergedBut(out, dst, src, now, {}) ==> out == MergeIps(dst, src, now)
  {
    hide MergeEntry;
  }

  /** `mergeIPMap`. Whatever order the source map is ranged over in, the result is the same. */
  method MergeIpMap(dst: IpMap, src: IpMap, now: Time)
    returns (out: IpMap, changed: bool, added: seq<string>)
    ensures out == MergeIps(dst, src, now)
    ensures changed <==> out != dst
    ensures NoDuplicates(added) && SetOf(added) == out.Keys - dst.Keys
  {
    hide MergedBut, MergedIp, MergeIps, MergeEntry;
    out, changed, added := dst, false, [];
    var todo := src.Keys - {""};
    ghost var moved := "";
    MergedAll(dst, dst, src, now);
    while todo != {}
      invariant todo <= src.Keys - {""} && MergedBut(out, dst, src, now, todo)
      invariant forall ip <- dst.Keys :: ip in out && (ip in todo ==> out[ip] == dst[ip])
      invariant !changed ==> out == dst
      invariant changed ==> moved in out && moved !in todo && (moved in dst ==> out[moved] != dst[moved])
      invariant NoDuplicates(added) && forall ip :: ip in added <==> ip in out && ip !in dst
      decreases todo
    {
      var ip :| ip in todo;
      if ip !in out {
        added := added + [ip];
      }
      MergedOneMore(out, dst, src, now, todo, ip);
      var c;
      out, c := MergeAddress(out, ip, src[ip], now);
      if c {
        changed, moved := true, ip;
      }
      todo := todo - {ip};
    }
    MergedAll(out, dst, src, now);
  }

  // ---------- lists without repetition ----------

  ghost predicate KeyIn<T(!new), K>(x: T, list: seq<T>, key: T -> K) {
    exists y <- list :: key(y) == key(x)
  }

  /** `known` followed by the usable incoming items whose key was not there yet. */
  ghost function Appended<T(!new), K>(known: seq<T>, incoming: seq<T>, key: T -> K, usable: T -> bool): seq<T> {
    if incoming == [] then known
    else
      var out := Appended(known, incoming[..|incoming| - 1], key, usable);
      var x := incoming[|incoming| - 1];
      if usable(x) && !KeyIn(x, out, key) then out + [x] else out
  }

  /** incoming[i] is usable, its key is not known, and no earlier usable item has it. */
  ghost predicate FirstNew<T(!new), K>(known: seq<T>, incoming: seq<T>, key: T -> K, usable: T -> bool, i: nat)
    requires i < |incoming|
  {
    && usable(incoming[i]) && !KeyIn(incoming[i], known, key)
    && forall j | 0 <= j < i :: usable(incoming[j]) ==> key(incoming[j]) != key(incoming[i])
  }

  /** The first-new items among the first n incoming ones, in their order. */
  ghost function FirstNews<T(!new), K>(known: seq<T>, incoming: seq<T>, key: T -> K, usable: T -> bool, n: nat): seq<T>
    requires n <= |incoming|
  {
    if n == 0 then []
    else FirstNews(known, incoming, key, usable, n - 1)
         + if FirstNew(known, incoming, key, usable, n - 1) then [incoming[n - 1]] else []
  }

  /** A key is in the merged list iff it was known or a usable incoming item has it. */
  lemma {:induction false} AppendedKeys<T(!new), K>(known: seq<T>, incoming: seq<T>, key: T -> K, usable: T -> bool, x: T)
    ensures KeyIn(x, Appended(known, incoming, key, usable), key)
       <==> KeyIn(x, known, key) || exists y <- incoming :: usable(y) && key(y) == key(x)
  {
    if incoming != [] {
      var n := |incoming| - 1;
      AppendedKeys(known, incoming[..n], key, usable, x);
      assert incoming == incoming[..n] + [incoming[n]];
    }
  }

  /** The merge keeps the known list and appends exactly the first occurrence of every
      usable unseen key, in the order of the incoming list. */
  lemma {:induction false} AppendedIsFirstNews<T(!new), K>(known: seq<T>, incoming: seq<T>, key: T -> K, usable: T -> bool)
    ensures Appended(known, incoming, key, usable) == known + FirstNews(known, incoming, key, usable, |incoming|)
  {
    if incoming != [] {
      var n := |incoming| - 1;
      var front := incoming[..n];
      AppendedIsFirstNews(known, front, key, usable);
      FirstNewsFront(known, incoming, key, usable, n);
      AppendedKeys(known, front, key, usable, incoming[n]);
      assert (exists y <- front :: usable(y) && key(y) == key(incoming[n]))
        <==> exists j | 0 <= j < n :: usable(incoming[j]) && key(incoming[j]) == key(incoming[n]) by {
        assert forall j | 0 <= j < n :: incoming[j] == front[j] && front[j] in front;
      }
    }
  }

  lemma {:induction false} FirstNewsFront<T(!new), K>(known: seq<T>, incoming: seq<T>, key: T -> K, usable: T -> bool, n: nat)
    requires n < |incoming|
    ensures FirstNews(known, incoming[..|incoming| - 1], key, usable, n) == FirstNews(known, incoming, key, usable, n)
  {
    if n > 0 {
      FirstNewsFront(known, incoming, key, usable, n - 1);
    }
  }

  ghost predicate UniqueKeys<T(!new), K>(list: seq<T>, key: T -> K) {
    forall i, j :: 0 <= i < j < |list| ==> key(list[i]) != key(list[j])
  }

  lemma {:induction false} AppendedStaysUnique<T(!new), K>(known: seq<T>, incoming: seq<T>, key: T -> K, usable: T -> bool)
    requires UniqueKeys(known, key)
    ensures UniqueKeys(Appended(known, incoming, key, usable), key)
  {
    if incoming != [] {
      AppendedStaysUnique(known, incoming[..|incoming| - 1], key, usable);
    }
  }

  /** Merging the same items again appends nothing. */
  lemma {:induction false} AppendedTwice<T(!new), K>(known: seq<T>, incoming: seq<T>, key: T -> K, usable: T -> bool)
    ensures var out := Appended(known, incoming, key, usable); Appended(out, incoming, key, usable) == out
  {
    var out := Appended(known, incoming, key, usable);
    forall x <- incoming ensures usable(x) ==> KeyIn(x, out, key) {
      AppendedKeys(known, incoming, key, usable, x);
    }
    NothingToAppend(out, incoming, key, usable);
  }

  lemma {:induction false} NothingToAppend<T(!new), K>(known: seq<T>, incoming: seq<T>, key: T -> K, usable: T -> bool)
    requires forall x <- incoming :: usable(x) ==> KeyIn(x, known, key)
    ensures Appended(known, incoming, key, usable) == known
  {
    if incoming != [] {
      NothingToAppend(known, incoming[..|incoming| - 1], key, usable);
    }
  }

  /** The known list stays in front. */
  lemma AppendedKeepsFront<T(!new), K>(known: seq<T>, incoming: seq<T>, key: T -> K, usable: T -> bool)
    ensures known <= Appended(known, incoming, key, usable)
  {
    AppendedIsFirstNews(known, incoming, key, usable);
  }

  // ---------- hostnames ----------

  ghost function MergedStrings(known: seq<string>, incoming: seq<string>): seq<string> {
    Appended(known, incoming, (s: string) => s, (s: string) => s != "")
  }

  lemma MergedStringsSet(known: seq<string>, incoming: seq<string>)
    ensures SetOf(MergedStrings(known, incoming)) == SetOf(known) + (SetOf(incoming) - {""})
    ensures known <= MergedStrings(known, incoming)
    ensures MergedStrings(known, incoming) == known <==> SetOf(incoming) - {""} <= SetOf(known)
  {
    var key, usable := (s: string) => s, (s: string) => s != "";
    var out := MergedStrings(known, incoming);
    forall x: string ensures x in out <==> x in known || (x in incoming && x != "") {
      AppendedKeys(known, incoming, key, usable, x);
      assert KeyIn(x, out, key) <==> x in out;
      assert KeyIn(x, known, key) <==> x in known;
    }
    AppendedKeepsFront(known, incoming, key, usable);
    if SetOf(incoming) - {""} <= SetOf(known) {
      forall x <- incoming ensures usable(x) ==> KeyIn(x, known, key) {
        if x != "" {
          assert x in SetOf(incoming) - {""};
          assert x in known && key(x) == key(x);
        }
      }
      NothingToAppend(known, incoming, key, usable);
    }
  }

  /** `mergeStrings`. */
  method MergeStrings(existing: seq<string>, incoming: seq<string>)
    returns (out: seq<string>, changed: bool, added: seq<string>)
    ensures out == MergedStrings(existing, incoming)
    ensures out == existing + added
    ensures changed <==> |out| > |existing|
  {
    ghost var key, usable := (s: string) => s, (s: string) => s != "";
    var seen := set s | s in existing;
    out, changed, added := existing, false, [];
    for i := 0 to |incoming|
      invariant out == Appended(existing, incoming[..i], key, usable)
      invariant forall s :: s in seen <==> s in out
      invariant out == existing + added
      invariant changed <==> added != []
    {
      var v := incoming[i];
      assert incoming[..i + 1][..i] == incoming[..i];
      assert KeyIn(v, out, key) <==> v in out;
      if v == "" || v in seen {
        continue;
      }
      seen := seen + {v};
      out := out + [v];
      added := added + [v];
      changed := true;
    }
    assert incoming[..|incoming|] == incoming;
  }

  // ---------- services ----------

  function ServiceKey(s: Service): string {
    s.protocol + ":" + Itoa(s.port) + (if s.isClient then ":client" else ":server")
  }

  predicate ServiceUsable(s: Service) { s.protocol != "" || s.port != 0 }

  ghost function MergedServices(known: seq<Service>, incoming: seq<Service>): seq<Service> {
    Appended(known, incoming, ServiceKey, ServiceUsable)
  }

  /** `mergeServices`. */
  method MergeServices(existing: seq<Service>, incoming: seq<Service>)
    returns (out: seq<Service>, changed: bool, added: seq<Service>)
    ensures out == MergedServices(existing, incoming)
    ensures out == existing + added
    ensures changed <==> |out| > |existing|
  {
    var seen := set s | s in existing :: ServiceKey(s);
    out, changed, added := existing, false, [];
    for i := 0 to |incoming|
      invariant out == Appended(existing, incoming[..i], ServiceKey, ServiceUsable)
      invariant forall s: Service :: ServiceKey(s) in seen <==> KeyIn(s, out, ServiceKey)
      invariant out == existing + added
      invariant changed <==> added != []
    {
      var s := incoming[i];
      assert incoming[..i + 1][..i] == incoming[..i];
      if !ServiceUsable(s) || ServiceKey(s) in seen {
        continue;
      }
      seen := seen + {ServiceKey(s)};
      out := out + [s];
      added := added + [s];
      changed := true;
    }
    assert incoming[..|incoming|] == incoming;
  }

  /** The key tells protocol, port and role apart, whatever characters the protocol has. */
  lemma ServiceKeyInjective(a: Service, b: Service)
    ensures ServiceKey(a) == ServiceKey(b) <==> a.protocol == b.protocol && a.port == b.port && a.isClient == b.isClient
  {
    if ServiceKey(a) == ServiceKey(b) {
      var ka, kb := ServiceKey(a), ServiceKey(b);
      var n := |ka| - 7;
      assert ka[n + 1] == if a.isClient then 'c' else 's';
      assert kb[n + 1] == if b.isClient then 'c' else 's';
      assert ka[..n] == a.protocol + ":" + Itoa(a.port);
      assert kb[..n] == b.protocol + ":" + Itoa(b.port);
      LastColon(a.protocol, Itoa(a.port), b.protocol, Itoa(b.port));
      ItoaInjective(a.port, b.port);
    }
  }

  lemma LastColon(p: string, d: string, q: string, e: string)
    requires AllDigits(d) && AllDigits(e)
    requires p + ":" + d == q + ":" + e
    ensures p == q && d == e
  {
    var s := p + ":" + d;
    OnlyDigitsAfter(p, d);
    OnlyDigitsAfter(q, e);
    assert s[|p|] == ':' && s[|q|] == ':';
    assert s[..|p|] == p && s[|p| + 1..] == d;
    assert (q + ":" + e)[..|q|] == q && (q + ":" + e)[|q| + 1..] == e;
  }

  lemma OnlyDigitsAfter(p: string, d: string)
    requires AllDigits(d)
    ensures forall i :: |p| < i < |p + ":" + d| ==> (p + ":" + d)[i] != ':'
  {
    forall i | |p| < i < |p + ":" + d| ensures (p + ":" + d)[i] != ':' {
      assert (p + ":" + d)[i] == d[i - |p| - 1] && d[i - |p| - 1] in d;
    }
  }

  // ---------- extra attributes ----------

  function AsAnys(items: seq<string>): seq<ExtraValue> {
    seq(|items|, i requires 0 <= i < |items| => Scalar(items[i]))
  }

  function NonEmpty(items: seq<string>): seq<string> {
    if items == [] then []
    else (if items[0] == "" then [] else [items[0]]) + NonEmpty(items[1..])
  }

  /** The value under a key that is already set, after `incoming` was offered for it, and
      whether the source reports a change. Anything but list into list keeps the old value. */
  ghost function MergedExtra(existing: ExtraValue, incoming: ExtraValue): (ExtraValue, bool) {
    match (existing, incoming)
    case (Anys(ev), Anys(nv)) => (Anys(ev + nv), true)
    case (Anys(ev), Strings(nv)) => (Anys(ev + AsAnys(NonEmpty(nv))), true)
    case (Strings(ev), Strings(nv)) => (Strings(MergedStrings(ev, nv)), |MergedStrings(ev, nv)| > |ev|)
    case (Strings(ev), Anys(nv)) => (Anys(AsAnys(ev) + nv), true)
    case _ => (existing, false)
  }

  ghost function ExtraAt(dst: Extras, src: Extras, k: string): ExtraValue
    requires k in dst || k in src
  {
    if k !in dst then src[k]
    else if k in src && src[k] != Nil then MergedExtra(dst[k], src[k]).0
    else dst[k]
  }

  ghost predicate ExtraChanges(dst: Extras, src: Extras, k: string) {
    k in src && src[k] != Nil && (k !in dst || MergedExtra(dst[k], src[k]).1)
  }

  ghost function MergedExtras(dst: Extras, src: Extras): Extras {
    map k | k in dst.Keys + src.Keys && (k in dst || src[k] != Nil) :: ExtraAt(dst, src, k)
  }

  ghost predicate ExtrasChange(dst: Extras, src: Extras) {
    exists k <- src.Keys :: ExtraChanges(dst, src, k)
  }

  /** The `switch` of `mergeExtras`. */
  method MergeExtraValue(existing: ExtraValue, incoming: ExtraValue) returns (out: ExtraValue, changed: bool)
    ensures (out, changed) == MergedExtra(existing, incoming)
    ensures !changed ==> out == existing
  {
    match (existing, incoming)
    case (Anys(ev), Anys(nv)) => return Anys(ev + nv), true;
    case (Anys(ev), Strings(nv)) => return Anys(ev + AsAnys(NonEmpty(nv))), true;
    case (Strings(ev), Strings(nv)) =>
      var merged, c, _ := MergeStrings(ev, nv);
      MergedStringsSet(ev, nv);
      return if c then Strings(merged) else existing, c;
    case (Strings(ev), Anys(nv)) => return Anys(AsAnys(ev) + nv), true;
    case _ => return existing, false;
  }

  /** `mergeExtras`. */
  method MergeExtras(dst: Extras, src: Extras) returns (out: Extras, changed: bool)
    ensures out == MergedExtras(dst, src)
    ensures changed <==> ExtrasChange(dst, src)
  {
    out, changed := dst, false;
    var todo := src.Keys;
    while todo != {}
      invariant todo <= src.Keys
      invariant forall k :: k in out <==> k in dst || (k in src && k !in todo && src[k] != Nil)
      invariant forall k <- out.Keys :: out[k] == if k in todo then dst[k] else ExtraAt(dst, src, k)
      invariant changed <==> exists k <- src.Keys :: k !in todo && ExtraChanges(dst, src, k)
      decreases todo
    {
      var k :| k in todo;
      var v := src[k];
      if v != Nil {
        if k !in out {
          out := out[k := v];
          changed := true;
        } else {
          var merged, c := MergeExtraValue(out[k], v);
          if c {
            out := out[k := merged];
            changed := true;
          }
        }
        assert k in out;
      }
      todo := todo - {k};
    }
  }
}
