/** Hardware addresses, their text, the identity key made of it, and the shard an address
    belongs to (internal/asset/identity.go, internal/asset/manager.go). */
module MacAddress {
  type Byte = b: int | 0 <= b < 256
  type Mac = seq<Byte>
  type AssetId = string

  const SHARD_COUNT: nat := 16

  function HexDigit(d: nat): (c: char)
    requires d < 16
    ensures c != ':'
  {
    if d < 10 then (48 + d) as char else (87 + d) as char
  }

  function HexByte(b: Byte): (s: string)
    ensures |s| == 2
  {
    [HexDigit(b / 16), HexDigit(b % 16)]
  }

  /** `HardwareAddr.String()`: lower-case hex pairs joined by colons, "" for no address. */
  function MacString(m: Mac): (s: string)
    ensures m == [] <==> s == ""
  {
    if m == [] then ""
    else if |m| == 1 then HexByte(m[0])
    else HexByte(m[0]) + ":" + MacString(m[1..])
  }

  /** `net.ParseMAC` on text that MacString wrote: only 6, 8 and 20 byte addresses are read
      back; the callers ignore the error and keep no address. */
  ghost function ParseMac(s: string): (m: Mac)
  {
    if exists m: Mac :: IsParseOf(s, m) then
      var m: Mac :| IsParseOf(s, m); m
    else []
  }

  ghost predicate IsParseOf(s: string, m: Mac) {
    IsReadable(m) && MacString(m) == s
  }

  predicate IsReadable(m: Mac) { |m| == 6 || |m| == 8 || |m| == 20 }

  /** `macKey` and `GenerateAssetID`. Lower-casing is the identity here: MacString is lower case. */
  function MacKey(m: Mac): (k: AssetId)
    ensures m == [] <==> k == ""
  {
    if m == [] then "" else "mac:" + MacString(m)
  }

  function Sum(m: Mac): nat
  {
    if m == [] then 0 else m[0] + Sum(m[1..])
  }

  function ShardIndex(m: Mac): (i: nat)
    ensures i < SHARD_COUNT
  {
    Sum(m) % SHARD_COUNT
  }

  /** No address is in shard 0, and with every byte more the shard moves on by it. */
  lemma {:induction false} ShardMoves(m: Mac, b: Byte)
    ensures ShardIndex([]) == 0 && ShardIndex(m + [b]) == (ShardIndex(m) + b) % 16
  {
    SumMore(m, b);
  }

  lemma {:induction false} SumMore(m: Mac, b: Byte)
    ensures Sum(m + [b]) == Sum(m) + b
  {
    if m == [] {
      assert m + [b] == [b];
    } else {
      assert (m + [b])[1..] == m[1..] + [b];
      SumMore(m[1..], b);
    }
  }

  lemma HexByteInjective(a: Byte, b: Byte)
    requires HexByte(a) == HexByte(b)
    ensures a == b
  {
    assert HexByte(a)[0] == HexByte(b)[0] && HexByte(a)[1] == HexByte(b)[1];
  }

  lemma {:induction false} MacStringInjective(m: Mac, n: Mac)
    requires MacString(m) == MacString(n)
    ensures m == n
  {
    if m != [] && n != [] {
      assert MacString(m)[..2] == HexByte(m[0]) && MacString(n)[..2] == HexByte(n[0]);
      HexByteInjective(m[0], n[0]);
      if |m| == 1 || |n| == 1 {
        assert |MacString(m)| == 2;
      } else {
        assert MacString(m)[3..] == MacString(m[1..]) && MacString(n)[3..] == MacString(n[1..]);
        MacStringInjective(m[1..], n[1..]);
        assert m == [m[0]] + m[1..] && n == [n[0]] + n[1..];
      }
    }
  }

  /** Two addresses with the same identity key are the same address. */
  lemma MacKeyInjective(m: Mac, n: Mac)
    requires MacKey(m) == MacKey(n)
    ensures m == n
  {
    if m != [] && n != [] {
      assert MacKey(m)[4..] == MacString(m) && MacKey(n)[4..] == MacString(n);
      MacStringInjective(m, n);
    }
  }

  lemma ParseMacString(m: Mac)
    ensures ParseMac(MacString(m)) == if IsReadable(m) then m else []
  {
    var s := MacString(m);
    assert IsReadable(m) ==> IsParseOf(s, m);
    if exists n: Mac :: IsParseOf(s, n) {
      MacStringInjective(ParseMac(s), m);
    }
  }

  /** An identity key is owned by the one address that produces it. */
  ghost predicate Owns(m: Mac, id: AssetId) { m != [] && MacKey(m) == id }

  /** The shard in which the asset with this id has to live. */
  ghost function Home(id: AssetId): (i: nat)
    ensures i < SHARD_COUNT
  {
    if exists m: Mac :: Owns(m, id) then
      var m: Mac :| Owns(m, id); ShardIndex(m)
    else 0
  }

  ghost predicate IsKey(id: AssetId) { exists m: Mac :: Owns(m, id) }

  lemma HomeOfKey(m: Mac)
    requires m != []
    ensures IsKey(MacKey(m)) && Home(MacKey(m)) == ShardIndex(m)
  {
    var id := MacKey(m);
    assert Owns(m, id);
    assert exists n: Mac :: Owns(n, id) && Home(id) == ShardIndex(n);
    var n: Mac :| Owns(n, id) && Home(id) == ShardIndex(n);
    assert Owns(n, id);
    assert n != [];
    assert MacKey(n) == id;
    MacKeyInjective(m, n);
  }

  lemma KeyNotEmpty(id: AssetId)
    requires IsKey(id)
    ensures id != ""
  {
    var m: Mac :| Owns(m, id);
    assert MacKey(m) == id;
  }
}
