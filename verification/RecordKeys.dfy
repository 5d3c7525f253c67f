/** The 16-byte dedup key of a record id (crates/logscope-app/src/import.rs:63-92). */
module RecordKeys {
  import opened Rows

  type Byte = b: int | 0 <= b < 256

  /** `char::to_digit(16)`. */
  function HexDigit(c: char): (d: Option<int>)
    ensures d.Some? ==> 0 <= d.value < 16
  {
    if '0' <= c <= '9' then Some(c as int - '0' as int)
    else if 'a' <= c <= 'f' then Some(c as int - 'a' as int + 10)
    else if 'A' <= c <= 'F' then Some(c as int - 'A' as int + 10)
    else None
  }

  /** The part behind the first `-`, or all of it. */
  function HexPart(id: string): string {
    AfterDash(id).GetOr(id)
  }

  function AfterDash(id: string): Option<string> {
    if id == [] then None else if id[0] == '-' then Some(id[1..]) else AfterDash(id[1..])
  }

  predicate IsHex(hex: string) {
    |hex| == 32 && forall i :: 0 <= i < 32 ==> HexDigit(hex[i]).Some?
  }

  function Decoded(hex: string): seq<int>
    requires IsHex(hex)
  {
    seq(16, i requires 0 <= i < 16 => 16 * HexDigit(hex[2 * i]).value + HexDigit(hex[2 * i + 1]).value)
  }

  /** The key an id gets; `digest` is the hash of the whole id. */
  function KeyOf(id: string, digest: string -> seq<int>): seq<int>
    requires |digest(id)| == 32
  {
    if IsHex(HexPart(id)) then Decoded(HexPart(id)) else digest(id)[..16]
  }

  method RecordIdKey(id: string, digest: string -> seq<int>) returns (key: array<int>)
    requires |digest(id)| == 32
    ensures fresh(key) && key[..] == KeyOf(id, digest)
  {
    var hex := HexPart(id);
    key := new int[16](_ => 0);
    if |hex| == 32 {
      var ok := true;
      var i := 0;
      while i < 16 && ok
        invariant i <= 16
        invariant ok ==> forall j :: 0 <= j < 2 * i ==> HexDigit(hex[j]).Some?
        invariant ok ==> forall j :: 0 <= j < i ==> key[j] == 16 * HexDigit(hex[2 * j]).value + HexDigit(hex[2 * j + 1]).value
        invariant !ok ==> exists j :: 0 <= j < 32 && HexDigit(hex[j]).None?
      {
        match (HexDigit(hex[2 * i]), HexDigit(hex[2 * i + 1])) {
          case (Some(h), Some(l)) => key[i] := 16 * h + l;
          case _ => ok := false;
        }
        i := i + 1;
      }
      if ok {
        assert key[..] == Decoded(hex);
        return;
      }
    }
    var d := digest(id);
    forall i | 0 <= i < 16 { key[i] := d[i]; }
  }

  /** `d` is the value of the hexadecimal digit `c`, in either case. */
  predicate DigitOf(c: char, d: int) {
    exists i :: 0 <= i < 16 && d == i && ("0123456789abcdef"[i] == c || "0123456789ABCDEF"[i] == c)
  }

  /** Two digits, the high one first. */
  predicate ByteOf(high: char, low: char, b: int) { DigitOf(high, b / 16) && DigitOf(low, b % 16) }

  lemma DigitMeans(c: char)
    ensures HexDigit(c).Some? ==> DigitOf(c, HexDigit(c).value)
    ensures HexDigit(c).None? ==> forall d :: !DigitOf(c, d)
  {
    if HexDigit(c).Some? {
      var i := HexDigit(c).value;
      assert "0123456789abcdef"[i] == c || "0123456789ABCDEF"[i] == c;
    } else {
      forall i | 0 <= i < 16 ensures "0123456789abcdef"[i] != c && "0123456789ABCDEF"[i] != c {}
    }
  }

  /** `hex` stands behind the first dash of the id, or is the id when it has no dash. */
  predicate Behind(id: string, hex: string) {
    var k := |id| - |hex|;
    && 0 <= k && id[k..] == hex
    && (if k == 0 then '-' !in id else id[k - 1] == '-' && '-' !in id[..k - 1])
  }

  lemma {:induction false} DashMeans(id: string)
    ensures match AfterDash(id) case None => '-' !in id case Some(hex) => |hex| < |id| && Behind(id, hex)
  {
    if id != [] && id[0] != '-' {
      DashMeans(id[1..]);
      assert id == [id[0]] + id[1..];
      if AfterDash(id).Some? {
        var hex := AfterDash(id).value;
        var k := |id| - |hex|;
        assert id[1..][k - 1..] == id[k..];
        assert id[..k - 1] == [id[0]] + id[1..][..k - 2];
      }
    }
  }

  /** The key of any id: 32 hexadecimal digits in either case behind the first dash, or in all of an
      id without one, are its bytes; every other id gets the first half of its digest. */
  lemma KeyMeans(id: string, digest: string -> seq<int>)
    requires |digest(id)| == 32
    ensures Behind(id, HexPart(id))
    ensures var hex, key := HexPart(id), KeyOf(id, digest);
      && |key| == 16
      && ((|hex| == 32 && forall i :: 0 <= i < 32 ==> HexDigit(hex[i]).Some?) ==>
            forall i :: 0 <= i < 16 ==> ByteOf(hex[2 * i], hex[2 * i + 1], key[i]))
      && (!(|hex| == 32 && forall i :: 0 <= i < 32 ==> HexDigit(hex[i]).Some?) ==> forall i :: 0 <= i < 16 ==> key[i] == digest(id)[i])
  {
    DashMeans(id);
    var hex := HexPart(id);
    if IsHex(hex) { DecodedMeans(hex); }
    hide HexDigit, ByteOf, Decoded, AfterDash;
  }

  lemma DecodedMeans(hex: string)
    requires IsHex(hex)
    ensures forall i :: 0 <= i < 16 ==> ByteOf(hex[2 * i], hex[2 * i + 1], Decoded(hex)[i])
  {
    hide ByteOf, HexDigit;
    forall i | 0 <= i < 16 ensures ByteOf(hex[2 * i], hex[2 * i + 1], Decoded(hex)[i]) {
      ByteMeans(hex[2 * i], hex[2 * i + 1]);
    }
  }

  lemma ByteMeans(high: char, low: char)
    requires HexDigit(high).Some? && HexDigit(low).Some?
    ensures ByteOf(high, low, 16 * HexDigit(high).value + HexDigit(low).value)
  {
    DigitMeans(high);
    DigitMeans(low);
    hide DigitOf;
  }

  /** Two lower-case digits per byte, as record ids are printed. */
  function Nibble(d: int): char
    requires 0 <= d < 16
  {
    if d < 10 then ('0' as int + d) as char else ('a' as int + d - 10) as char
  }

  function Hex(bytes: seq<Byte>): (s: string)
    ensures |s| == 2 * |bytes|
    ensures forall i :: 0 <= i < |bytes| ==> s[2 * i] == Nibble(bytes[i] / 16) && s[2 * i + 1] == Nibble(bytes[i] % 16)
  {
    if bytes == [] then ""
    else Hex(bytes[..|bytes|-1]) + [Nibble(bytes[|bytes|-1] / 16), Nibble(bytes[|bytes|-1] % 16)]
  }

  lemma NibbleDecodes(d: int)
    requires 0 <= d < 16
    ensures HexDigit(Nibble(d)) == Some(d)
  {
  }

  lemma {:induction false} DashFound(prefix: string, rest: string)
    requires '-' !in prefix
    ensures AfterDash(prefix + "-" + rest) == Some(rest)
  {
    var id := prefix + "-" + rest;
    if prefix == [] {
      assert id[1..] == rest;
    } else {
      DashFound(prefix[1..], rest);
      assert id[1..] == prefix[1..] + "-" + rest;
    }
  }

  /** The key of a canonical `xxx-<32 hex>` id is its 16 bytes, so it loses nothing. */
  lemma CanonicalKey(prefix: string, bytes: seq<Byte>, digest: string -> seq<int>)
    requires '-' !in prefix && |bytes| == 16
    requires |digest(prefix + "-" + Hex(bytes))| == 32
    ensures KeyOf(prefix + "-" + Hex(bytes), digest) == bytes
  {
    var hex := Hex(bytes);
    DashFound(prefix, hex);
    forall i | 0 <= i < 16
      ensures HexDigit(hex[2 * i]) == Some(bytes[i] / 16) && HexDigit(hex[2 * i + 1]) == Some(bytes[i] % 16)
    {
      NibbleDecodes(bytes[i] / 16);
      NibbleDecodes(bytes[i] % 16);
    }
    forall j | 0 <= j < 32 ensures HexDigit(hex[j]).Some? {
      var i := j / 2;
      assert 0 <= i < 16 && HexDigit(hex[2 * i]).Some? && HexDigit(hex[2 * i + 1]).Some?;
      assert j == 2 * i || j == 2 * i + 1;
    }
    assert Decoded(hex) == bytes;
  }

  /** Within one prefix, dedup by key is dedup by id. */
  lemma KeyDecidesId(prefix: string, a: seq<Byte>, b: seq<Byte>, digest: string -> seq<int>)
    requires '-' !in prefix && |a| == 16 && |b| == 16
    requires |digest(prefix + "-" + Hex(a))| == 32 && |digest(prefix + "-" + Hex(b))| == 32
    ensures KeyOf(prefix + "-" + Hex(a), digest) == KeyOf(prefix + "-" + Hex(b), digest) <==>
            prefix + "-" + Hex(a) == prefix + "-" + Hex(b)
  {
    CanonicalKey(prefix, a, digest);
    CanonicalKey(prefix, b, digest);
  }

  /** The prefix itself is not part of the key. */
  lemma PrefixIsForgotten(p: string, q: string, bytes: seq<Byte>, digest: string -> seq<int>)
    requires '-' !in p && '-' !in q && |bytes| == 16
    requires |digest(p + "-" + Hex(bytes))| == 32 && |digest(q + "-" + Hex(bytes))| == 32
    ensures KeyOf(p + "-" + Hex(bytes), digest) == KeyOf(q + "-" + Hex(bytes), digest)
  {
    CanonicalKey(p, bytes, digest);
    CanonicalKey(q, bytes, digest);
  }
}
