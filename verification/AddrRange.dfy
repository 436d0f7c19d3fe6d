/** Address range lists: a builder that fills a fixed allocation from tokens, and a matcher that compares
    whole bytes and a partial one. Every address has 128 bits; IPv4 ones are mapped (section 2.5.5.2 of
    RFC 4291). */
module AddrRange {

  type Addr = a: seq<bv8> | |a| == 16 witness [0, 0, 0, 0, 0, 0, 0, 0, 0, 0, 0, 0, 0, 0, 0, 0]

  type Addr4 = a: seq<bv8> | |a| == 4 witness [0, 0, 0, 0]

  datatype Range = Range(addr: Addr, mask: int)

  /** What the C library's parsers make of one space-separated token; bits come from strtol. */
  datatype Token =
    | All
    | Segment
    | Cidr4(addr4: Addr4, bits: int)
    | Bare4(addr4: Addr4)
    | Cidr6(addr6: Addr, bits: int)
    | Bare6(addr6: Addr)
    | Unparsable

  /** The peer of a connection. */
  datatype Client = NoAddress | V4(addr4: Addr4) | V6(addr6: Addr) | OtherFamily

  const ZERO: Addr := [0, 0, 0, 0, 0, 0, 0, 0, 0, 0, 0, 0, 0, 0, 0, 0]

  const LINK_LOCAL: Addr := [0xfe, 0x80, 0, 0, 0, 0, 0, 0, 0, 0, 0, 0, 0, 0, 0, 0]

  function Mapped(a: Addr4): Addr {
    [0, 0, 0, 0, 0, 0, 0, 0, 0, 0, 0xff, 0xff] + a
  }

  const LOCALHOST := Range(Mapped([127, 0, 0, 1]), 96 + 8)

  // ---------------------------------------------------------------- bits

  /** Bit i of a byte, the most significant first. */
  predicate BitOf(x: bv8, i: nat)
    requires i < 8
  {
    (x >> (7 - i)) & 1 == 1
  }

  /** Bit i of an address in network order. */
  predicate Bit(a: seq<bv8>, i: nat)
    requires i < 8 * |a|
  {
    BitOf(a[i / 8], i % 8)
  }

  /** Section 3.1 of RFC 4632: the first n bits are the same. */
  ghost predicate SamePrefix(a: seq<bv8>, b: seq<bv8>, n: nat)
    requires n <= 8 * |a| && |a| == |b|
  {
    forall i :: 0 <= i < n ==> Bit(a, i) == Bit(b, i)
  }

  function PrefixLength(mask: int): nat {
    if mask > 0 then mask else 0
  }

  /** When a range covers an address: what the matcher has to find out. */
  ghost predicate Covers(r: Range, a: Addr) {
    r.mask <= 128 && SamePrefix(r.addr, a, PrefixLength(r.mask))
  }

  /** The mask for the last, partial byte. */
  function MaskBits(m: nat): bv8
    requires m <= 8
  {
    (0xff & (0xff00 as bv16 >> m)) as bv8
  }

  lemma MaskValues()
    ensures MaskBits(1) == 0x80 && MaskBits(2) == 0xc0 && MaskBits(3) == 0xe0 && MaskBits(4) == 0xf0
    ensures MaskBits(5) == 0xf8 && MaskBits(6) == 0xfc && MaskBits(7) == 0xfe
  {
  }

  lemma Masks(x: bv8, y: bv8)
    ensures (x & 0x80) == (y & 0x80) <==> BitOf(x, 0) == BitOf(y, 0)
    ensures (x & 0xc0) == (y & 0xc0) <==> (x & 0x80) == (y & 0x80) && BitOf(x, 1) == BitOf(y, 1)
    ensures (x & 0xe0) == (y & 0xe0) <==> (x & 0xc0) == (y & 0xc0) && BitOf(x, 2) == BitOf(y, 2)
    ensures (x & 0xf0) == (y & 0xf0) <==> (x & 0xe0) == (y & 0xe0) && BitOf(x, 3) == BitOf(y, 3)
    ensures (x & 0xf8) == (y & 0xf8) <==> (x & 0xf0) == (y & 0xf0) && BitOf(x, 4) == BitOf(y, 4)
    ensures (x & 0xfc) == (y & 0xfc) <==> (x & 0xf8) == (y & 0xf8) && BitOf(x, 5) == BitOf(y, 5)
    ensures (x & 0xfe) == (y & 0xfe) <==> (x & 0xfc) == (y & 0xfc) && BitOf(x, 6) == BitOf(y, 6)
  {
  }

  lemma MaskStep(x: bv8, y: bv8, m: nat)
    requires 1 <= m <= 7
    ensures (x & MaskBits(m)) == (y & MaskBits(m)) <==>
              (m > 1 ==> (x & MaskBits(m - 1)) == (y & MaskBits(m - 1))) && BitOf(x, m - 1) == BitOf(y, m - 1)
  {
    hide MaskBits, BitOf;
    Masks(x, y);
    MaskValues();
    if m == 1 {} else if m == 2 {} else if m == 3 {} else if m == 4 {} else if m == 5 {} else if m == 6 {} else {}
  }

  /** The first m bits of two bytes are the same. */
  ghost predicate SameBits(x: bv8, y: bv8, m: nat)
    requires m <= 8
  {
    forall i :: 0 <= i < m ==> BitOf(x, i) == BitOf(y, i)
  }

  lemma {:induction false} PartialByte(x: bv8, y: bv8, m: nat)
    requires 1 <= m <= 7
    ensures (x & MaskBits(m)) == (y & MaskBits(m)) <==> SameBits(x, y, m)
  {
    hide MaskBits, BitOf;
    MaskStep(x, y, m);
    if m > 1 {
      PartialByte(x, y, m - 1);
    }
  }

  lemma WholeByte(x: bv8, y: bv8)
    ensures x == y <==> SameBits(x, y, 8)
  {
    assert BitOf(x,0) == BitOf(y,0) <==> x & 0x80 == y & 0x80;
    assert BitOf(x,1) == BitOf(y,1) <==> x & 0x40 == y & 0x40;
    assert BitOf(x,2) == BitOf(y,2) <==> x & 0x20 == y & 0x20;
    assert BitOf(x,3) == BitOf(y,3) <==> x & 0x10 == y & 0x10;
    assert BitOf(x,4) == BitOf(y,4) <==> x & 0x08 == y & 0x08;
    assert BitOf(x,5) == BitOf(y,5) <==> x & 0x04 == y & 0x04;
    assert BitOf(x,6) == BitOf(y,6) <==> x & 0x02 == y & 0x02;
    assert BitOf(x,7) == BitOf(y,7) <==> x & 0x01 == y & 0x01;
  }

  lemma WholeStep(a: seq<bv8>, b: seq<bv8>, j: nat)
    requires |a| == |b| && j < |a|
    ensures SamePrefix(a, b, 8 * (j + 1)) <==> SamePrefix(a, b, 8 * j) && a[j] == b[j]
  {
    hide SameBits, SamePrefix;
    WholeByte(a[j], b[j]);
    SplitPrefix(a, b, j, 8);
  }

  lemma PartialStep(a: seq<bv8>, b: seq<bv8>, j: nat, m: nat)
    requires |a| == |b| && j < |a| && 1 <= m <= 7
    ensures SamePrefix(a, b, 8 * j + m) <==>
              SamePrefix(a, b, 8 * j) && (a[j] & MaskBits(m)) == (b[j] & MaskBits(m))
  {
    hide MaskBits, SameBits, SamePrefix;
    PartialByte(a[j], b[j], m);
    SplitPrefix(a, b, j, m);
  }

  lemma SplitPrefix(a: seq<bv8>, b: seq<bv8>, j: nat, m: nat)
    requires |a| == |b| && j < |a| && m <= 8
    ensures SamePrefix(a, b, 8 * j + m) <==>
              SamePrefix(a, b, 8 * j) && SameBits(a[j], b[j], m)
  {
    hide BitOf;
    if SamePrefix(a, b, 8 * j + m) {
      forall i | 0 <= i < m ensures BitOf(a[j], i) == BitOf(b[j], i) {
        assert Bit(a, 8 * j + i) == Bit(b, 8 * j + i);
      }
    }
    if SamePrefix(a, b, 8 * j) && SameBits(a[j], b[j], m) {
      forall i | 0 <= i < 8 * j + m ensures Bit(a, i) == Bit(b, i) {
        if i >= 8 * j {
          assert i / 8 == j && BitOf(a[j], i - 8 * j) == BitOf(b[j], i - 8 * j);
        }
      }
    }
  }

  lemma ShorterPrefix(a: seq<bv8>, b: seq<bv8>, n: nat, m: nat)
    requires |a| == |b| && m <= n <= 8 * |a| && SamePrefix(a, b, n)
    ensures SamePrefix(a, b, m)
  {
    hide Bit;
  }

  // ---------------------------------------------------------------- what a list accepts

  ghost predicate Accepts(ranges: seq<Range>, a: Addr) {
    exists i :: 0 <= i < |ranges| && Covers(ranges[i], a)
  }

  function TokenRange(t: Token): (r: seq<Range>)
    ensures |r| <= 1
  {
    match t
    case All => [Range(ZERO, 0)]
    case Segment => [Range(LINK_LOCAL, 64)]
    case Cidr4(a, bits) => [Range(Mapped(a), 96 + bits)]
    case Bare4(a) => [Range(Mapped(a), 96 + 32)]
    case Cidr6(a, bits) => [Range(a, bits)]
    case Bare6(a) => [Range(a, 32)]
    case Unparsable => []
  }

  /** "all" throws away what was there and ends the list. */
  function TokenRanges(tokens: seq<Token>, before: seq<Range>): (r: seq<Range>)
    ensures |r| <= |before| + |tokens|
  {
    if tokens == [] then before
    else if tokens[0].All? then TokenRange(All)
    else TokenRanges(tokens[1..], before + TokenRange(tokens[0]))
  }

  function Built(tokens: seq<Token>, defaultAll: bool, allowLocalhost: bool): seq<Range> {
    var r := TokenRanges(tokens, []);
    (if defaultAll && r == [] then TokenRange(All) else r) + (if allowLocalhost then [LOCALHOST] else [])
  }

  ghost predicate TokenCovers(t: Token, a: Addr) {
    TokenRange(t) != [] && Covers(TokenRange(t)[0], a)
  }

  lemma AcceptsMore(ranges: seq<Range>, more: seq<Range>, a: Addr)
    ensures Accepts(ranges + more, a) <==> Accepts(ranges, a) || Accepts(more, a)
  {
    hide Covers;
    var both := ranges + more;
    if Accepts(ranges, a) {
      var i :| 0 <= i < |ranges| && Covers(ranges[i], a);
      assert both[i] == ranges[i];
    }
    if Accepts(more, a) {
      var i :| 0 <= i < |more| && Covers(more[i], a);
      assert both[|ranges| + i] == more[i];
    }
  }

  lemma TokenAccepts(t: Token, a: Addr)
    ensures Accepts(TokenRange(t), a) <==> TokenCovers(t, a)
    ensures t.All? ==> TokenCovers(t, a)
  {
  }

  lemma {:induction false} TokensAccept(tokens: seq<Token>, before: seq<Range>, a: Addr)
    ensures Accepts(TokenRanges(tokens, before), a) <==>
              Accepts(before, a) || exists t :: t in tokens && TokenCovers(t, a)
    decreases |tokens|
  {
    hide TokenCovers, TokenRange, Accepts;
    if tokens != [] {
      var t := tokens[0];
      TokenAccepts(t, a);
      if !t.All? {
        AcceptsMore(before, TokenRange(t), a);
        TokensAccept(tokens[1..], before + TokenRange(t), a);
        assert forall u :: u in tokens <==> u == t || u in tokens[1..];
      } else {
        assert t == All;
      }
    }
  }

  lemma {:induction false} TokensUsable(tokens: seq<Token>, before: seq<Range>)
    ensures TokenRanges(tokens, before) == [] <==> before == [] && forall t :: t in tokens ==> t.Unparsable?
    decreases |tokens|
  {
    if tokens != [] {
      TokensUsable(tokens[1..], before + TokenRange(tokens[0]));
      assert tokens[0].Unparsable? ==> before + TokenRange(tokens[0]) == before;
      assert forall u :: u in tokens <==> u == tokens[0] || u in tokens[1..];
    }
  }

  /** For every token list and both flags, a built list accepts an address exactly when some token covers
      it, or no token was usable and the default is to allow all, or it is a mapped 127.0.0.0/8 address
      and the local host is allowed. */
  lemma BuiltAccepts(tokens: seq<Token>, defaultAll: bool, allowLocalhost: bool, a: Addr)
    ensures Accepts(Built(tokens, defaultAll, allowLocalhost), a) <==>
      || (exists t :: t in tokens && TokenCovers(t, a))
      || (defaultAll && forall t :: t in tokens ==> t.Unparsable?)
      || (allowLocalhost && Covers(LOCALHOST, a))
  {
    hide TokenCovers, TokenRange, Covers, TokenRanges;
    var r := TokenRanges(tokens, []);
    TokensAccept(tokens, [], a);
    TokensUsable(tokens, []);
    TokenAccepts(All, a);
    assert !Accepts([], a);
    var base := if defaultAll && r == [] then TokenRange(All) else r;
    assert Accepts([LOCALHOST], a) <==> Covers(LOCALHOST, a) by {
      assert [LOCALHOST][0] == LOCALHOST;
    }
    AcceptsMore(base, [LOCALHOST], a);
    assert base + [] == base;
  }

  // ---------------------------------------------------------------- IPv4 clients

  /** The first n bits of two IPv4 addresses are the same. */
  ghost predicate SameNetwork(p: Addr4, c: Addr4, n: nat)
    requires n <= 32
  {
    SamePrefix(p, c, n)
  }

  lemma MappedBit(p: Addr4, i: nat)
    requires i < 32
    ensures Bit(Mapped(p), 96 + i) == Bit(p, i)
  {
    hide BitOf;
    assert (96 + i) / 8 == 12 + i / 8 && (96 + i) % 8 == i % 8;
    assert Mapped(p)[12 + i / 8] == p[i / 8];
  }

  /** Between mapped addresses a prefix of 96 + n bits is a network prefix of n bits. */
  lemma MappedPrefix(p: Addr4, c: Addr4, n: nat)
    requires n <= 32
    ensures SamePrefix(Mapped(p), Mapped(c), 96 + n) <==> SameNetwork(p, c, n)
  {
    hide BitOf;
    if SamePrefix(Mapped(p), Mapped(c), 96 + n) {
      forall i | 0 <= i < n ensures Bit(p, i) == Bit(c, i) {
        MappedBit(p, i);
        MappedBit(c, i);
        assert Bit(Mapped(p), 96 + i) == Bit(Mapped(c), 96 + i);
      }
    }
    if SameNetwork(p, c, n) {
      forall i | 0 <= i < 96 + n ensures Bit(Mapped(p), i) == Bit(Mapped(c), i) {
        if i < 96 {
          assert Mapped(p)[i / 8] == Mapped(c)[i / 8];
        } else {
          MappedBit(p, i - 96);
          MappedBit(c, i - 96);
        }
      }
    }
  }

  lemma {:induction false} WholeBytes(a: seq<bv8>, b: seq<bv8>, j: nat)
    requires |a| == |b| && j <= |a|
    ensures SamePrefix(a, b, 8 * j) <==> a[..j] == b[..j]
  {
    hide SamePrefix;
    if j == 0 {
      NoBits(a, b);
    } else {
      WholeStep(a, b, j - 1);
      WholeBytes(a, b, j - 1);
      assert a[..j] == a[..j - 1] + [a[j - 1]] && b[..j] == b[..j - 1] + [b[j - 1]];
    }
  }

  lemma NoBits(a: seq<bv8>, b: seq<bv8>)
    requires |a| == |b|
    ensures SamePrefix(a, b, 0)
  {
  }

  /** What a token means to an IPv4 client. A network takes in every IPv4 address when its bits are
      negative and none when there are more than 32; a bare IPv6 address takes in all or none. */
  ghost predicate Admits4(t: Token, c: Addr4) {
    match t
    case All => true
    case Segment => false
    case Cidr4(p, bits) => bits <= 32 && SameNetwork(p, c, PrefixLength(bits))
    case Bare4(p) => p == c
    case Cidr6(p, bits) => Covers(Range(p, bits), Mapped(c))
    case Bare6(p) => p[..4] == [0, 0, 0, 0]
    case Unparsable => false
  }

  lemma Token4(t: Token, c: Addr4)
    ensures TokenCovers(t, Mapped(c)) <==> Admits4(t, c)
  {
    hide SamePrefix;
    match t
    case All => NoBits(ZERO, Mapped(c));
    case Segment =>
      WholeBytes(LINK_LOCAL, Mapped(c), 8);
      assert LINK_LOCAL[..8][0] != Mapped(c)[..8][0];
    case Cidr4(p, bits) => Network4(p, bits, c);
    case Bare4(p) =>
      WholeBytes(Mapped(p), Mapped(c), 16);
      assert Mapped(p)[..16] == Mapped(p) && Mapped(c)[..16] == Mapped(c);
      assert Mapped(p)[12..] == p && Mapped(c)[12..] == c;
    case Cidr6(_, _) =>
    case Bare6(p) =>
      BareCovers(p, Mapped(c));
      assert Mapped(c)[..4] == [0, 0, 0, 0];
    case Unparsable =>
  }

  lemma Network4(p: Addr4, bits: int, c: Addr4)
    ensures Covers(Range(Mapped(p), 96 + bits), Mapped(c)) <==> bits <= 32 && SameNetwork(p, c, PrefixLength(bits))
  {
    hide SamePrefix;
    if 0 <= bits <= 32 {
      MappedPrefix(p, c, bits);
    } else if bits < 0 {
      NoBits(p, c);
      MappedPrefix(p, c, 0);
      ShorterPrefix(Mapped(p), Mapped(c), 96, PrefixLength(96 + bits));
    }
  }

  /** The token "segment" covers exactly the link-local addresses fe80::/64. */
  lemma SegmentCovers(a: Addr)
    ensures TokenCovers(Segment, a) <==> a[..8] == [0xfe, 0x80, 0, 0, 0, 0, 0, 0]
  {
    hide SamePrefix;
    WholeBytes(LINK_LOCAL, a, 8);
    assert LINK_LOCAL[..8] == [0xfe, 0x80, 0, 0, 0, 0, 0, 0];
  }

  /** The local host of the flag is exactly ::ffff:127.0.0.0/104; the IPv6 loopback address is not in it. */
  lemma LocalCovers(a: Addr)
    ensures Covers(LOCALHOST, a) <==> a[..13] == [0, 0, 0, 0, 0, 0, 0, 0, 0, 0, 0xff, 0xff, 127]
    ensures !Covers(LOCALHOST, LOOPBACK6)
  {
    hide SamePrefix;
    WholeBytes(LOCALHOST.addr, a, 13);
    WholeBytes(LOCALHOST.addr, LOOPBACK6, 13);
    assert LOCALHOST.addr[..13] == [0, 0, 0, 0, 0, 0, 0, 0, 0, 0, 0xff, 0xff, 127];
    assert LOOPBACK6[..13][10] == 0;
  }

  /** The address is a mapped IPv4 address, octet by octet (section 2.5.5.2 of RFC 4291). */
  predicate IsMapped(a: Addr) {
    a[..12] == [0, 0, 0, 0, 0, 0, 0, 0, 0, 0, 0xff, 0xff]
  }

  /** What a token means to any peer by its 128 bits: an IPv4 token takes in mapped addresses only, those
      its network or address says, and an IPv6 network the addresses that share its bits. */
  lemma TokenMeaning(t: Token, a: Addr)
    requires t.Cidr4? ==> t.bits >= 0
    ensures
      TokenCovers(t, a) <==>
        match t
        case All => true
        case Segment => a[..8] == [0xfe, 0x80, 0, 0, 0, 0, 0, 0]
        case Cidr4(p, bits) => IsMapped(a) && bits <= 32 && SamePrefix(p, a[12..], bits)
        case Bare4(p) => IsMapped(a) && a[12..] == p
        case Cidr6(p, bits) => bits <= 128 && forall i :: 0 <= i < bits ==> Bit(p, i) == Bit(a, i)
        case Bare6(p) => a[..4] == p[..4]
        case Unparsable => false
  {
    hide SamePrefix;
    match t
    case All => TokenAccepts(All, a);
    case Segment => SegmentCovers(a);
    case Cidr4(p, bits) => OnlyMapped(p, bits, a);
    case Bare4(p) =>
      WholeBytes(Mapped(p), a, 16);
      assert Mapped(p)[..16] == Mapped(p) && a[..16] == a && a == a[..12] + a[12..];
      assert IsMapped(a) && a[12..] == p <==> a == Mapped(p);
    case Cidr6(p, bits) => PrefixBits(p, a, PrefixLength(bits));
    case Bare6(p) => BareCovers(p, a);
    case Unparsable =>
  }

  lemma PrefixBits(p: Addr, a: Addr, n: nat)
    ensures n <= 128 ==> (SamePrefix(p, a, n) <==> forall i :: 0 <= i < n ==> Bit(p, i) == Bit(a, i))
  {
    hide Bit;
  }

  lemma OnlyMapped(p: Addr4, bits: nat, a: Addr)
    ensures Covers(Range(Mapped(p), 96 + bits), a) <==>
              IsMapped(a) && bits <= 32 && SamePrefix(p, a[12..], bits)
  {
    hide SamePrefix;
    WholeBytes(Mapped(p), a, 12);
    if bits <= 32 {
      if IsMapped(a) {
        assert a == Mapped(a[12..]);
        MappedPrefix(p, a[12..], bits);
      } else if SamePrefix(Mapped(p), a, 96 + bits) {
        ShorterPrefix(Mapped(p), a, 96 + bits, 96);
      }
    }
  }

  /** "all" leaves a single range that covers everything, whatever stands before or after it. */
  lemma {:induction false} AllAlone(tokens: seq<Token>, before: seq<Range>)
    requires All in tokens
    ensures TokenRanges(tokens, before) == [Range(ZERO, 0)]
    decreases |tokens|
  {
    if !tokens[0].All? {
      assert All in tokens[1..];
      AllAlone(tokens[1..], before + TokenRange(tokens[0]));
    } else {
      assert tokens[0] == All;
    }
  }

  /** The exact reach of a bare bracketed IPv6 address: not that address, but all that share its first
      four bytes. */
  lemma BareCovers(p: Addr, a: Addr)
    ensures TokenCovers(Bare6(p), a) <==> p[..4] == a[..4]
  {
    hide SamePrefix;
    WholeBytes(p, a, 4);
  }

  /** A list of one bare IPv6 address decides as that address should exactly for a client that is it, or
      differs from it within the first four bytes. */
  lemma BareMeansItself(p: Addr, a: Addr)
    ensures (Accepts(Built([Bare6(p)], false, false), a) <==> a == p) <==> (a == p || a[..4] != p[..4])
  {
    hide TokenCovers, Built;
    BuiltAccepts([Bare6(p)], false, false, a);
    BareCovers(p, a);
    assert Bare6(p) in [Bare6(p)];
  }

  const LOOPBACK6: Addr := [0, 0, 0, 0, 0, 0, 0, 0, 0, 0, 0, 0, 0, 0, 0, 1]

  /** A list with nothing but the IPv6 loopback address lets every IPv4 client in. */
  lemma LoopbackAdmitsAll(c: Addr4)
    ensures Accepts(Built([Bare6(LOOPBACK6)], false, false), Mapped(c))
  {
    hide TokenCovers, Built, Covers;
    Ipv4Accepted([Bare6(LOOPBACK6)], false, false, c);
    assert Bare6(LOOPBACK6) in [Bare6(LOOPBACK6)];
    assert LOOPBACK6[..4] == [0, 0, 0, 0];
  }

  /** An IPv4 client is accepted exactly when the top bits of a network token match, a plain address is
      its own, "all" or the default for an empty list applies, an IPv6 token takes in the mapped addresses,
      or the client is in 127.0.0.0/8 and the local host is allowed. */
  lemma Ipv4Accepted(tokens: seq<Token>, defaultAll: bool, allowLocalhost: bool, c: Addr4)
    ensures Accepts(Built(tokens, defaultAll, allowLocalhost), Mapped(c)) <==>
      || (exists t :: t in tokens && Admits4(t, c))
      || (defaultAll && forall t :: t in tokens ==> t.Unparsable?)
      || (allowLocalhost && c[0] == 127)
  {
    hide TokenCovers, Built, Admits4, Covers;
    BuiltAccepts(tokens, defaultAll, allowLocalhost, Mapped(c));
    forall t | t in tokens ensures TokenCovers(t, Mapped(c)) <==> Admits4(t, c) {
      Token4(t, c);
    }
    Loopback(c);
  }

  lemma Loopback(c: Addr4)
    ensures Covers(LOCALHOST, Mapped(c)) <==> c[0] == 127
  {
    hide SamePrefix;
    MappedPrefix([127, 0, 0, 1], c, 8);
    WholeBytes([127, 0, 0, 1], c, 1);
    assert [127, 0, 0, 1][..1] == [127] && c[..1] == [c[0]];
  }
}
