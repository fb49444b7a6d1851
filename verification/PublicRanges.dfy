/** Which addresses `isPublicInternetAddress` lets through, as CIDR blocks. */
module PublicRanges {
  import opened Text
  import opened PublicAddress

  // ----- The byte tests -----

  predicate Public4(bytes: seq<Byte>)
    requires |bytes| == 4
  {
    var a, b, c := bytes[0], bytes[1], bytes[2];
    !(|| a == 0
      || a == 10
      || a == 127
      || (a == 100 && b >= 64 && b <= 127)
      || (a == 169 && b == 254)
      || (a == 172 && b >= 16 && b <= 31)
      || (a == 192 && b == 0 && c == 0)
      || (a == 192 && b == 0 && c == 2)
      || (a == 192 && b == 88 && c == 99)
      || (a == 192 && b == 168)
      || (a == 198 && (b == 18 || b == 19))
      || (a == 198 && b == 51 && c == 100)
      || (a == 203 && b == 0 && c == 113)
      || a >= 224)
  }

  predicate Mapped(bytes: seq<int>)
    requires |bytes| == 16
  {
    (forall i | 0 <= i < 10 :: bytes[i] == 0) && bytes[10] == 0xff && bytes[11] == 0xff
  }

  predicate Public6(bytes: seq<int>)
    requires |bytes| == 16
  {
    var documentation := bytes[0] == 0x20 && bytes[1] == 0x01 && bytes[2] == 0x0d && bytes[3] == 0xb8;
    bytes[0] >= 0x20 && bytes[0] <= 0x3f && !documentation
  }

  predicate AreBytes(bytes: seq<int>) {
    forall i | 0 <= i < |bytes| :: 0 <= bytes[i] < 256
  }

  function AsBytes(bytes: seq<int>): (r: seq<Byte>)
    requires AreBytes(bytes)
    ensures r == bytes
  {
    seq(|bytes|, i requires 0 <= i < |bytes| => bytes[i])
  }

  lemma {:induction false} GroupBytesCount(groups: seq<string>)
    requires GroupBytes(groups).Some?
    ensures |GroupBytes(groups).value| == 2 * |groups| && AreBytes(GroupBytes(groups).value)
  {
    if groups == [] {
    } else {
      GroupBytesCount(groups[..|groups| - 1]);
      ParseBound(groups[|groups| - 1]);
    }
  }

  lemma {:induction false} ParseBound(g: string)
    requires |g| <= 4 && forall c | c in g :: IsLowerHex(c)
    ensures Parse(g, true) < match |g| case 0 => 1 case 1 => 0x10 case 2 => 0x100 case 3 => 0x1000 case _ => 0x1_0000
  {
    if g == "" {
    } else {
      ParseBound(g[..|g| - 1]);
    }
  }

  lemma Ipv6BytesCount(address: string, other: string -> Option<int>)
    requires Ipv6Bytes(address, other).Some?
    ensures |Ipv6Bytes(address, other).value| == 16 && AreBytes(Ipv6Bytes(address, other).value)
  {
    GroupBytesCount(Groups(SourceOf(Lower(Split(address, '%')[0]), other)).value);
  }

  /** `isPublicInternetAddress`, for an `isIP` given as `family`; the mapped case reads the dotted
      text of the last four bytes, which is again an IPv4 address. */
  predicate IsPublic(address: string, family: string -> int, other: string -> Option<int>) {
    if family(address) == 4 then
      match Ipv4Bytes(address, other) case Some(b) => |b| == 4 && Public4(b) case None => false
    else if family(address) == 6 then
      match Ipv6Bytes(address, other)
      case None => false
      case Some(bytes) =>
        Ipv6BytesCount(address, other);
        if Mapped(bytes) then
          var text := Dotted(AsBytes(bytes[12..]));
          match Ipv4Bytes(text, other) case Some(b) => family(text) == 4 && |b| == 4 && Public4(b) case None => false
        else Public6(bytes)
    else false
  }

  /** `isIP` knows dotted quads and the spellings of RFC 4291. */
  ghost predicate Recognizes(family: string -> int) {
    && (forall b: seq<Byte> | |b| == 4 :: family(Dotted(b)) == 4)
    && (forall s: Spelling | PublicAddress.Valid(s) :: family(Render(s)) == 6)
  }

  // ----- Spelling does not matter -----

  lemma DottedClassifies(b: seq<Byte>, family: string -> int, other: string -> Option<int>)
    requires Recognizes(family) && |b| == 4
    ensures IsPublic(Dotted(b), family, other) == Public4(b)
  {
    DottedReads(b, other);
  }

  /** Every spelling of an address gets the verdict of its bytes, and a spelling of an IPv4-mapped
      address the verdict of the IPv4 address. */
  lemma SpellingsClassifyAlike(s: Spelling, family: string -> int, other: string -> Option<int>)
    requires Recognizes(family) && PublicAddress.Valid(s)
    ensures |Address(s)| == 16 && AreBytes(Address(s))
    ensures IsPublic(Render(s), family, other)
         == if Mapped(Address(s)) then IsPublic(Dotted(AsBytes(Address(s)[12..])), family, other)
           else Public6(Address(s))
  {
    SpellingReads(s, "", other);
    assert Render(s) + "" == Render(s);
    Ipv6BytesCount(Render(s), other);
    if Mapped(Address(s)) {
      DottedClassifies(AsBytes(Address(s)[12..]), family, other);
      DottedReads(AsBytes(Address(s)[12..]), other);
    }
  }

  // ----- The blocks -----

  /** An address as a number, most significant byte first. */
  function Number(bytes: seq<int>): int {
    if bytes == [] then 0 else 256 * Number(bytes[..|bytes| - 1]) + bytes[|bytes| - 1]
  }

  function TwoTo(n: nat): nat {
    if n == 0 then 1 else 2 * TwoTo(n - 1)
  }

  /** A CIDR block: the addresses from its base on, as many as the bits after the prefix allow. */
  datatype Block = Block(base: seq<int>, prefix: nat)

  predicate In(bytes: seq<int>, block: Block)
    requires block.prefix <= 8 * |bytes|
  {
    var size := TwoTo(8 * |bytes| - block.prefix);
    Number(block.base) <= Number(bytes) < Number(block.base) + size
  }

  const NON_PUBLIC_V4: seq<Block> := [
    Block([0, 0, 0, 0], 8), Block([10, 0, 0, 0], 8), Block([127, 0, 0, 0], 8), Block([100, 64, 0, 0], 10),
    Block([169, 254, 0, 0], 16), Block([172, 16, 0, 0], 12), Block([192, 0, 0, 0], 24), Block([192, 0, 2, 0], 24),
    Block([192, 88, 99, 0], 24), Block([192, 168, 0, 0], 16), Block([198, 18, 0, 0], 15), Block([198, 51, 100, 0], 24),
    Block([203, 0, 113, 0], 24), Block([224, 0, 0, 0], 3)]

  lemma Number4(bytes: seq<int>)
    requires |bytes| == 4
    ensures Number(bytes) == 0x100_0000 * bytes[0] + 0x1_0000 * bytes[1] + 0x100 * bytes[2] + bytes[3]
  {
    assert bytes[..3][..2] == bytes[..2] && bytes[..2][..1] == bytes[..1] && bytes[..1][..0] == [];
    assert Number(bytes[..1]) == bytes[0];
    assert Number(bytes[..2]) == 256 * bytes[0] + bytes[1];
    assert Number(bytes[..3]) == 0x1_0000 * bytes[0] + 0x100 * bytes[1] + bytes[2];
  }

  lemma InV4(bytes: seq<Byte>, block: Block, size: nat)
    requires |bytes| == 4 && |block.base| == 4 && block.prefix <= 32 && size == TwoTo(32 - block.prefix)
    ensures var n := 0x100_0000 * bytes[0] as int + 0x1_0000 * bytes[1] as int
                     + 0x100 * bytes[2] as int + bytes[3] as int;
            var b := 0x100_0000 * block.base[0] + 0x1_0000 * block.base[1] + 0x100 * block.base[2] + block.base[3];
            In(bytes, block) <==> b <= n < b + size
  {
    Number4(bytes);
    Number4(block.base);
  }

  lemma Sizes()
    ensures TwoTo(8) == 0x100 && TwoTo(16) == 0x1_0000 && TwoTo(17) == 0x2_0000 && TwoTo(20) == 0x10_0000
    ensures TwoTo(22) == 0x40_0000 && TwoTo(24) == 0x100_0000 && TwoTo(29) == 0x2000_0000
  {}

  /** The `k`-th of the IPv4 tests. */
  predicate Reserved(bytes: seq<Byte>, k: nat)
    requires |bytes| == 4
  {
    var a, b, c := bytes[0], bytes[1], bytes[2];
    match k
    case 0 => a == 0
    case 1 => a == 10
    case 2 => a == 127
    case 3 => a == 100 && b >= 64 && b <= 127
    case 4 => a == 169 && b == 254
    case 5 => a == 172 && b >= 16 && b <= 31
    case 6 => a == 192 && b == 0 && c == 0
    case 7 => a == 192 && b == 0 && c == 2
    case 8 => a == 192 && b == 88 && c == 99
    case 9 => a == 192 && b == 168
    case 10 => a == 198 && (b == 18 || b == 19)
    case 11 => a == 198 && b == 51 && c == 100
    case 12 => a == 203 && b == 0 && c == 113
    case _ => a >= 224
  }

  lemma ReservedIsBlock(bytes: seq<Byte>, k: nat)
    requires |bytes| == 4 && k < |NON_PUBLIC_V4|
    ensures Reserved(bytes, k) <==> In(bytes, NON_PUBLIC_V4[k])
  {
    Sizes();
    InV4(bytes, NON_PUBLIC_V4[k], TwoTo(32 - NON_PUBLIC_V4[k].prefix));
  }

  predicate OutsideBlocks(bytes: seq<Byte>)
    requires |bytes| == 4
  {
    forall k | 0 <= k < |NON_PUBLIC_V4| :: !In(bytes, NON_PUBLIC_V4[k])
  }

  /** The IPv4 tests are the listed blocks, no more and no fewer. */
  lemma Public4IffOutsideBlocks(bytes: seq<Byte>)
    requires |bytes| == 4
    ensures Public4(bytes) <==> OutsideBlocks(bytes)
  {
    forall k | 0 <= k < |NON_PUBLIC_V4| ensures Reserved(bytes, k) <==> In(bytes, NON_PUBLIC_V4[k]) {
      ReservedIsBlock(bytes, k);
    }
    AnyReserved(bytes);
  }

  lemma AnyReserved(bytes: seq<Byte>)
    requires |bytes| == 4
    ensures Public4(bytes) <==> forall k | 0 <= k < 14 :: !Reserved(bytes, k)
  {
    assert !Public4(bytes) ==>
        || Reserved(bytes, 0) || Reserved(bytes, 1) || Reserved(bytes, 2) || Reserved(bytes, 3) || Reserved(bytes, 4)
        || Reserved(bytes, 5) || Reserved(bytes, 6) || Reserved(bytes, 7) || Reserved(bytes, 8) || Reserved(bytes, 9)
        || Reserved(bytes, 10) || Reserved(bytes, 11) || Reserved(bytes, 12) || Reserved(bytes, 13);
  }

  // ----- The IPv6 blocks -----

  lemma {:induction false} NumberRange(bytes: seq<int>, k: nat)
    requires AreBytes(bytes) && k <= |bytes|
    ensures 0 <= Number(bytes[..k])
    ensures var size := TwoTo(8 * (|bytes| - k));
            Number(bytes[..k]) * size <= Number(bytes) < (Number(bytes[..k]) + 1) * size
    decreases |bytes| - k
  {
    if k == |bytes| {
      assert bytes[..k] == bytes;
      NumberNonNegative(bytes);
    } else {
      NumberRange(bytes, k + 1);
      assert bytes[..k + 1][..k] == bytes[..k];
      var x, size := Number(bytes[..k]), TwoTo(8 * (|bytes| - k - 1));
      EightBits(8 * (|bytes| - k - 1));
      NumberNonNegative(bytes[..k]);
      Widen(x, bytes[k], size);
    }
  }

  lemma {:induction false} NumberNonNegative(bytes: seq<int>)
    requires AreBytes(bytes)
    ensures Number(bytes) >= 0
    ensures Number(bytes) == 0 <==> forall i | 0 <= i < |bytes| :: bytes[i] == 0
  {
    if bytes == [] {
    } else {
      NumberNonNegative(bytes[..|bytes| - 1]);
    }
  }

  lemma EightBits(n: nat)
    ensures TwoTo(n + 8) == 256 * TwoTo(n) && TwoTo(n) > 0
  {
    assert TwoTo(n + 8) == 2 * TwoTo(n + 7) && TwoTo(n + 7) == 2 * TwoTo(n + 6);
    assert TwoTo(n + 6) == 2 * TwoTo(n + 5) && TwoTo(n + 5) == 2 * TwoTo(n + 4);
    assert TwoTo(n + 4) == 2 * TwoTo(n + 3) && TwoTo(n + 3) == 2 * TwoTo(n + 2);
    assert TwoTo(n + 2) == 2 * TwoTo(n + 1) && TwoTo(n + 1) == 2 * TwoTo(n);
    TwoToPositive(n);
  }

  lemma {:induction false} TwoToPositive(n: nat)
    ensures TwoTo(n) > 0
  {
    if n == 0 {
    } else {
      TwoToPositive(n - 1);
    }
  }

  lemma Widen(x: int, b: int, size: int)
    requires 0 <= b < 256 && size > 0
    ensures x * (256 * size) <= (256 * x + b) * size
    ensures (256 * x + b + 1) * size <= (x + 1) * (256 * size)
  {
    assert (256 * x + b) * size == x * (256 * size) + b * size;
    assert b * size >= 0;
    assert (x + 1) * (256 * size) == x * (256 * size) + 256 * size;
    assert (b + 1) * size <= 256 * size;
  }

  lemma {:induction false} NumberOfZeroTail(bytes: seq<int>, k: nat)
    requires k <= |bytes| && forall i | k <= i < |bytes| :: bytes[i] == 0
    ensures Number(bytes) == Number(bytes[..k]) * TwoTo(8 * (|bytes| - k))
    decreases |bytes|
  {
    if k == |bytes| {
      assert bytes[..k] == bytes;
    } else {
      var init := bytes[..|bytes| - 1];
      NumberOfZeroTail(init, k);
      assert init[..k] == bytes[..k];
      EightBits(8 * (|init| - k));
      Regroup(Number(bytes[..k]), TwoTo(8 * (|init| - k)));
    }
  }

  lemma Regroup(x: int, size: int)
    ensures 256 * (x * size) == x * (256 * size)
  {}

  /** Comparing with a block is comparing the first `k` bytes with a range of values. */
  lemma ByLeadingBytes(bytes: seq<int>, k: nat, low: nat, high: nat)
    requires AreBytes(bytes) && k <= |bytes|
    ensures var size := TwoTo(8 * (|bytes| - k));
            low * size <= Number(bytes) < high * size <==> low <= Number(bytes[..k]) < high
  {
    NumberRange(bytes, k);
    TwoToPositive(8 * (|bytes| - k));
    var x, size := Number(bytes[..k]), TwoTo(8 * (|bytes| - k));
    Monotone(low, x, size);
    Monotone(x + 1, low, size);
    Monotone(x + 1, high, size);
    Monotone(high, x, size);
  }

  lemma Monotone(a: int, b: int, size: int)
    requires size > 0
    ensures a <= b ==> a * size <= b * size
  {}

  lemma RangeOfBlock(bytes: seq<int>, block: Block, k: nat, count: nat)
    requires |bytes| == |block.base| && k <= |bytes| && block.prefix <= 8 * |bytes|
    requires forall i | k <= i < |bytes| :: block.base[i] == 0
    requires TwoTo(8 * |bytes| - block.prefix) == count * TwoTo(8 * (|bytes| - k))
    ensures var low, size := Number(block.base[..k]), TwoTo(8 * (|bytes| - k));
            In(bytes, block) <==> low * size <= Number(bytes) < (low + count) * size
  {
    NumberOfZeroTail(block.base, k);
    AddBlocks(Number(block.base[..k]), count, TwoTo(8 * (|bytes| - k)));
  }

  lemma InFrom(bytes: seq<int>, block: Block, k: nat, low: nat, count: nat)
    requires AreBytes(bytes) && |bytes| == |block.base| && k <= |bytes| && block.prefix <= 8 * |bytes|
    requires forall i | k <= i < |bytes| :: block.base[i] == 0
    requires Number(block.base[..k]) == low
    requires TwoTo(8 * |bytes| - block.prefix) == count * TwoTo(8 * (|bytes| - k))
    ensures In(bytes, block) <==> low <= Number(bytes[..k]) < low + count
  {
    RangeOfBlock(bytes, block, k, count);
    ByLeadingBytes(bytes, k, low, low + count);
  }

  lemma InByLeadingBytes(bytes: seq<int>, block: Block, k: nat, count: nat)
    requires AreBytes(bytes) && |bytes| == |block.base| && k <= |bytes| && block.prefix <= 8 * |bytes|
    requires forall i | k <= i < |bytes| :: block.base[i] == 0
    requires Number(block.base[..k]) >= 0
    requires TwoTo(8 * |bytes| - block.prefix) == count * TwoTo(8 * (|bytes| - k))
    ensures In(bytes, block) <==> Number(block.base[..k]) <= Number(bytes[..k]) < Number(block.base[..k]) + count
  {
    InFrom(bytes, block, k, Number(block.base[..k]), count);
  }

  lemma AddBlocks(low: int, count: int, size: int)
    ensures (low + count) * size == low * size + count * size
  {}

  const GLOBAL_UNICAST: Block := Block([0x20, 0, 0, 0, 0, 0, 0, 0, 0, 0, 0, 0, 0, 0, 0, 0], 3)
  const DOCUMENTATION: Block := Block([0x20, 0x01, 0x0d, 0xb8, 0, 0, 0, 0, 0, 0, 0, 0, 0, 0, 0, 0], 32)
  const IPV4_MAPPED: Block := Block([0, 0, 0, 0, 0, 0, 0, 0, 0, 0, 0xff, 0xff, 0, 0, 0, 0], 96)

  lemma OneByte(bytes: seq<int>)
    requires |bytes| >= 1
    ensures Number(bytes[..1]) == bytes[0]
  {
    assert bytes[..1][..0] == [];
  }

  lemma FourBytes(bytes: seq<int>)
    requires |bytes| >= 4
    ensures Number(bytes[..4]) == 0x100_0000 * bytes[0] + 0x1_0000 * bytes[1] + 0x100 * bytes[2] + bytes[3]
  {
    Number4(bytes[..4]);
  }

  lemma TwelveBytes(bytes: seq<int>)
    requires |bytes| == 16 && AreBytes(bytes)
    ensures Number(bytes[..12]) == 0xffff <==> Mapped(bytes)
  {
    assert bytes[..12][..11] == bytes[..11] && bytes[..11][..10] == bytes[..10];
    assert Number(bytes[..12]) == 0x1_0000 * Number(bytes[..10]) + 0x100 * bytes[10] + bytes[11];
    NumberNonNegative(bytes[..10]);
  }

  lemma V6Sizes()
    ensures TwoTo(125) == 32 * TwoTo(120)
  {
    assert TwoTo(125) == 2 * TwoTo(124) && TwoTo(124) == 2 * TwoTo(123) && TwoTo(123) == 2 * TwoTo(122);
    assert TwoTo(122) == 2 * TwoTo(121) && TwoTo(121) == 2 * TwoTo(120);
  }

  lemma InGlobalUnicast(bytes: seq<int>)
    requires |bytes| == 16 && AreBytes(bytes)
    ensures In(bytes, GLOBAL_UNICAST) <==> 0x20 <= bytes[0] <= 0x3f
  {
    V6Sizes();
    OneByte(bytes);
    OneByte(GLOBAL_UNICAST.base);
    InByLeadingBytes(bytes, GLOBAL_UNICAST, 1, 32);
  }

  lemma InDocumentation(bytes: seq<int>)
    requires |bytes| == 16 && AreBytes(bytes)
    ensures In(bytes, DOCUMENTATION) <==> bytes[0] == 0x20 && bytes[1] == 0x01 && bytes[2] == 0x0d && bytes[3] == 0xb8
  {
    FourBytes(bytes);
    FourBytes(DOCUMENTATION.base);
    InByLeadingBytes(bytes, DOCUMENTATION, 4, 1);
  }

  lemma InMapped(bytes: seq<int>)
    requires |bytes| == 16 && AreBytes(bytes)
    ensures In(bytes, IPV4_MAPPED) <==> Mapped(bytes)
  {
    TwelveBytes(bytes);
    TwelveBytes(IPV4_MAPPED.base);
    InByLeadingBytes(bytes, IPV4_MAPPED, 12, 1);
  }

  /** The IPv6 tests are global unicast without the documentation block, and the mapped block. */
  lemma Public6IffInBlocks(bytes: seq<int>)
    requires |bytes| == 16 && AreBytes(bytes)
    ensures Public6(bytes) <==> In(bytes, GLOBAL_UNICAST) && !In(bytes, DOCUMENTATION)
    ensures Mapped(bytes) <==> In(bytes, IPV4_MAPPED)
  {
    InGlobalUnicast(bytes);
    InDocumentation(bytes);
    InMapped(bytes);
  }
}
