/**
Redis keys (cache.go:131-212). The hash is an arbitrary function of seed and bytes:
nothing here relies on it being free of collisions.
*/
module Keys {
  import opened Dns

  type Hash = (uint64, seq<byte>) -> uint64

  datatype Keyer = Keyer(prefix: string, seed: uint64)

  /** What a cache slot stands for. */
  datatype Slot = Slot(name: Name, qclass: uint16, qtype: uint16, dnssec: bool, cd: bool)

  const NAME_BUFFER := 256

  function Truncated(n: Name): Name {
    if |n| > NAME_BUFFER then n[..NAME_BUFFER] else n
  }

  function Flag(b: bool): byte { if b then 1 else 0 }

  function Header(s: Slot): (r: seq<byte>)
    ensures |r| == 6
  {
    [s.qclass / 256, s.qclass % 256, s.qtype / 256, s.qtype % 256, Flag(s.dnssec), Flag(s.cd)]
  }

  /** The bytes that are hashed. */
  function Preimage(s: Slot): seq<byte> {
    Header(s) + Truncated(Fold(s.name))
  }

  /** The low `width` base-256 digits of `n`, most significant first. */
  function BigEndian(n: nat, width: nat): (r: seq<byte>)
    ensures |r| == width
  {
    if width == 0 then [] else BigEndian(n / 256, width - 1) + [n % 256]
  }

  function HexDigit(d: nat): char
    requires d < 16
  {
    "0123456789abcdef"[d]
  }

  function Hex(bytes: seq<byte>): (r: string)
    ensures |r| == 2 * |bytes|
  {
    if bytes == [] then "" else [HexDigit(bytes[0] / 16), HexDigit(bytes[0] % 16)] + Hex(bytes[1..])
  }

  function KeyString(prefix: string, sum: uint64): string {
    if prefix == "" then Hex(BigEndian(sum, 8)) else prefix + ":" + Hex(BigEndian(sum, 8))
  }

  function KeyOf(hash: Hash, k: Keyer, s: Slot): string {
    KeyString(k.prefix, hash(k.seed, Preimage(s)))
  }

  /** The name buffer of cache.go:191-202. */
  method LowerCased(qname: Name) returns (name: seq<byte>)
    ensures name == Truncated(Fold(qname))
    ensures |name| == if |qname| <= 256 then |qname| else 256
    ensures forall i | 0 <= i < |name| :: name[i] < 0x80 && SameLetter(name[i], qname[i]) && !UpperCase(name[i])
  {
    var buf := new byte[NAME_BUFFER](_ => 0);
    var n := |qname|;
    if n > buf.Length {
      n := buf.Length;
    }
    for i := 0 to n
      invariant forall j | 0 <= j < i :: buf[j] == FoldChar(qname[j])
    {
      var c := qname[i];
      if c >= 65 && c <= 90 {
        c := c + (97 - 65);
      }
      buf[i] := c;
    }
    name := buf[..n];
    assert name == Truncated(Fold(qname));
    forall i | 0 <= i < |name| ensures name[i] < 0x80 && SameLetter(name[i], qname[i]) && !UpperCase(name[i]) {
      FoldCharExactly(qname[i], qname[i]);
    }
  }

  /** cache.go:175-212. */
  method Key(hash: Hash, k: Keyer, qname: Name, qclass: uint16, qtype: uint16, dnssec: bool, cd: bool) returns (key: string)
    ensures key == KeyOf(hash, k, Slot(qname, qclass, qtype, dnssec, cd))
  {
    var hdr := new byte[6](_ => 0);
    hdr[0], hdr[1] := qclass / 256, qclass % 256;
    hdr[2], hdr[3] := qtype / 256, qtype % 256;
    if dnssec {
      hdr[4] := 1;
    }
    if cd {
      hdr[5] := 1;
    }
    ghost var s := Slot(qname, qclass, qtype, dnssec, cd);
    var written := hdr[..];
    assert written == Header(s);

    var name := LowerCased(qname);
    var sum := hash(k.seed, written + name);
    var hexsum := Hex(BigEndian(sum, 8));
    if k.prefix == "" {
      return hexsum;
    }
    return k.prefix + ":" + hexsum;
  }

  // ---- the preimage ----

  /** Two slots hash the same bytes exactly when they agree on everything but letter case and what lies beyond the buffer. */
  lemma PreimageEqual(s: Slot, t: Slot)
    ensures Preimage(s) == Preimage(t) <==>
            s.qclass == t.qclass && s.qtype == t.qtype && s.dnssec == t.dnssec && s.cd == t.cd &&
            Truncated(Fold(s.name)) == Truncated(Fold(t.name))
  {
    var p, q := Preimage(s), Preimage(t);
    assert p[..6] == Header(s) && q[..6] == Header(t);
    assert p[6..] == Truncated(Fold(s.name)) && q[6..] == Truncated(Fold(t.name));
    if p == q {
      assert Header(s)[0] == Header(t)[0] && Header(s)[1] == Header(t)[1];
      assert Header(s)[2] == Header(t)[2] && Header(s)[3] == Header(t)[3];
      assert Header(s)[4] == Header(t)[4] && Header(s)[5] == Header(t)[5];
    }
  }

  /** Where each part of a slot stands in the hashed bytes. */
  lemma PreimageLayout(s: Slot)
    ensures var p := Preimage(s);
            && |p| == 6 + (if |s.name| <= 256 then |s.name| else 256)
            && s.qclass == p[0] as int * 256 + p[1] as int && s.qtype == p[2] as int * 256 + p[3] as int
            && p[4] == (if s.dnssec then 1 else 0) && p[5] == (if s.cd then 1 else 0)
            && forall i | 6 <= i < |p| :: p[i] < 0x80 && SameLetter(p[i], s.name[i - 6]) && !UpperCase(p[i])
  {
    var p := Preimage(s);
    forall i | 6 <= i < |p| ensures p[i] < 0x80 && SameLetter(p[i], s.name[i - 6]) && !UpperCase(p[i]) {
      FoldCharExactly(s.name[i - 6], s.name[i - 6]);
    }
  }

  /** Spellings of one name share a key, under every hash and for every instance. */
  lemma KeyUpToCase(hash: Hash, k: Keyer, s: Slot, n: Name)
    requires SameName(s.name, n)
    ensures Preimage(s.(name := n)) == Preimage(s) && KeyOf(hash, k, s.(name := n)) == KeyOf(hash, k, s)
  {
    FoldExactly(s.name, n);
  }

  /** The slot a request or a reply denotes: names without letter case. */
  function Canonical(s: Slot): Slot {
    s.(name := Fold(s.name))
  }

  /** For names that fit the buffer, equal preimages are equal slots. */
  lemma PreimageInjective(s: Slot, t: Slot)
    requires |s.name| <= NAME_BUFFER && |t.name| <= NAME_BUFFER
    ensures Preimage(s) == Preimage(t) <==> Canonical(s) == Canonical(t)
  {
    PreimageEqual(s, t);
  }

  /** Longer names that differ only beyond the buffer share a key under every hash. */
  lemma LongNamesCollide(hash: Hash, k: Keyer, s: Slot, x: ascii, y: ascii)
    requires |s.name| == 256 && !SameLetter(x, y)
    ensures var a, b := s.(name := s.name + [x]), s.(name := s.name + [y]);
            !SameName(a.name, b.name) && KeyOf(hash, k, a) == KeyOf(hash, k, b)
  {
    var a, b := s.(name := s.name + [x]), s.(name := s.name + [y]);
    assert a.name[256] == x && b.name[256] == y;
    FoldCharExactly(x, y);
    assert Fold(a.name)[NAME_BUFFER] != Fold(b.name)[NAME_BUFFER];
    assert Fold(a.name)[..NAME_BUFFER] == Fold(b.name)[..NAME_BUFFER];
    PreimageEqual(a, b);
  }

  // ---- the key string ----

  function Pow256(w: nat): nat {
    if w == 0 then 1 else 256 * Pow256(w - 1)
  }

  lemma {:induction false} BigEndianInjective(a: nat, b: nat, w: nat)
    requires a < Pow256(w) && b < Pow256(w)
    requires BigEndian(a, w) == BigEndian(b, w)
    ensures a == b
  {
    if w > 0 {
      var x, y := BigEndian(a, w), BigEndian(b, w);
      assert x[..w - 1] == BigEndian(a / 256, w - 1) && y[..w - 1] == BigEndian(b / 256, w - 1);
      assert x[w - 1] == a % 256 && y[w - 1] == b % 256;
      BigEndianInjective(a / 256, b / 256, w - 1);
    }
  }

  lemma HexDigitInjective(d: nat, e: nat)
    requires d < 16 && e < 16 && HexDigit(d) == HexDigit(e)
    ensures d == e
  {
  }

  lemma {:induction false} HexInjective(a: seq<byte>, b: seq<byte>)
    requires Hex(a) == Hex(b)
    ensures a == b
  {
    assert |Hex(a)| == |Hex(b)|;
    if a != [] {
      assert Hex(a)[0] == HexDigit(a[0] / 16) && Hex(a)[1] == HexDigit(a[0] % 16) && Hex(a)[2..] == Hex(a[1..]);
      assert Hex(b)[0] == HexDigit(b[0] / 16) && Hex(b)[1] == HexDigit(b[0] % 16) && Hex(b)[2..] == Hex(b[1..]);
      HexDigitInjective(a[0] / 16, b[0] / 16);
      HexDigitInjective(a[0] % 16, b[0] % 16);
      HexInjective(a[1..], b[1..]);
      assert a == [a[0]] + a[1..] && b == [b[0]] + b[1..];
    }
  }

  /** A key determines its prefix and its hash sum, so different prefixes never share a key. */
  lemma KeyStringInjective(p: string, a: uint64, q: string, b: uint64)
    ensures KeyString(p, a) == KeyString(q, b) <==> p == q && a == b
    ensures KeyString(p, a) != ""
  {
    var x, y := KeyString(p, a), KeyString(q, b);
    var h, g := Hex(BigEndian(a, 8)), Hex(BigEndian(b, 8));
    assert |h| == 16 && |g| == 16;
    assert x[|x| - 16..] == h && y[|y| - 16..] == g;
    assert p != "" ==> x[..|p|] == p;
    assert q != "" ==> y[..|q|] == q;
    if x == y {
      assert Pow256(8) == 0x1_0000_0000_0000_0000 by {
        assert Pow256(4) == 0x1_0000_0000;
      }
      HexInjective(BigEndian(a, 8), BigEndian(b, 8));
      BigEndianInjective(a, b, 8);
    }
  }

  /** What a lower-case hex digit stands for. */
  function DigitValue(c: char): int {
    if '0' <= c <= '9' then c as int - '0' as int
    else if 'a' <= c <= 'f' then c as int - 'a' as int + 10
    else -1
  }

  /** `hex` is `n` in lower-case hexadecimal, most significant digit first. */
  predicate IsHexOf(hex: string, n: nat) {
    if hex == "" then n == 0
    else
      var d := DigitValue(hex[|hex| - 1]);
      0 <= d && n % 16 == d && IsHexOf(hex[..|hex| - 1], n / 16)
  }

  lemma DigitRead(d: nat)
    requires d < 16
    ensures DigitValue(HexDigit(d)) == d
  {
  }

  lemma {:induction false} HexAppend(bytes: seq<byte>, b: byte)
    ensures Hex(bytes + [b]) == Hex(bytes) + [HexDigit(b / 16), HexDigit(b % 16)]
  {
    if bytes != [] {
      HexAppend(bytes[1..], b);
      assert (bytes + [b])[1..] == bytes[1..] + [b];
    } else {
      assert bytes + [b] == [b] && [b][1..] == [];
    }
  }

  lemma {:induction false} HexRead(n: nat, w: nat)
    requires n < Pow256(w)
    ensures IsHexOf(Hex(BigEndian(n, w)), n)
  {
    if w > 0 {
      HexRead(n / 256, w - 1);
      HexAppend(BigEndian(n / 256, w - 1), n % 256);
      var hex := Hex(BigEndian(n, w));
      var init := Hex(BigEndian(n / 256, w - 1));
      HexPair(hex, init, n);
    }
  }

  lemma HexPair(hex: string, init: string, n: nat)
    requires IsHexOf(init, n / 256) && hex == init + [HexDigit(n % 256 / 16), HexDigit(n % 256 % 16)]
    ensures IsHexOf(hex, n)
  {
    var once := hex[..|hex| - 1];
    assert once[..|once| - 1] == init;
    DigitRead(n % 256 / 16);
    DigitRead(n % 256 % 16);
    assert n / 16 / 16 == n / 256 && n / 16 % 16 == n % 256 / 16 && n % 16 == n % 256 % 16;
    assert IsHexOf(once, n / 16);
  }

  /** A key is its prefix and a colon, unless the prefix is empty, and the sum in sixteen hexadecimal digits. */
  lemma KeyStringLayout(prefix: string, sum: uint64)
    ensures exists hex :: |hex| == 16 && IsHexOf(hex, sum) &&
                          KeyString(prefix, sum) == if prefix == "" then hex else prefix + ":" + hex
  {
    var hex := Hex(BigEndian(sum, 8));
    assert Pow256(8) == 0x1_0000_0000_0000_0000 by {
      assert Pow256(4) == 0x1_0000_0000;
    }
    HexRead(sum, 8);
    assert |hex| == 16 && IsHexOf(hex, sum);
  }

  lemma KeyNotEmpty(hash: Hash, k: Keyer, s: Slot)
    ensures KeyOf(hash, k, s) != ""
  {
    KeyStringInjective(k.prefix, hash(k.seed, Preimage(s)), "", 0);
  }

  /**
  Two instances that use one key have one prefix, and the hash gives both slots the same
  sum; for a common seed and names within the buffer that is a collision of the hash
  unless the slots are equal.
  */
  lemma SharedKey(hash: Hash, k: Keyer, s: Slot, l: Keyer, t: Slot)
    requires KeyOf(hash, k, s) == KeyOf(hash, l, t)
    ensures k.prefix == l.prefix
    ensures hash(k.seed, Preimage(s)) == hash(l.seed, Preimage(t))
    ensures |s.name| <= NAME_BUFFER && |t.name| <= NAME_BUFFER && Canonical(s) != Canonical(t) ==> Preimage(s) != Preimage(t)
  {
    KeyStringInjective(k.prefix, hash(k.seed, Preimage(s)), l.prefix, hash(l.seed, Preimage(t)));
    PreimageEqual(s, t);
  }
}
