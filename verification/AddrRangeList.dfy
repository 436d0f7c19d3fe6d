/** The address range list as an object: an allocation of ranges that is filled in place and searched. */
module AddrRangeLists {
  import opened AddrRange

  /** Two bytes agree where the mask of the last byte has bits. */
  predicate PartialSame(x: bv8, y: bv8, m: nat)
    requires m <= 8
  {
    (x & MaskBits(m)) == (y & MaskBits(m))
  }

  /** After j whole bytes with mask bits left over, or fewer than none after a partial byte. */
  ghost predicate Compared(range: Range, a: Addr, j: nat, mask: int)
    requires j <= 16
  {
    && mask == range.mask - 8 * j
    && (j > 0 ==> mask > -8)
    && SamePrefix(range.addr, a, if mask >= 0 || j == 0 then 8 * j else range.mask)
  }

  lemma Finished(range: Range, a: Addr, j: nat, mask: int)
    requires j <= 16 && Compared(range, a, j, mask) && (mask <= 0 || j == 16)
    ensures Covers(range, a) <==> mask <= 0
  {
    hide SamePrefix;
    if j == 0 {
      NoBits(range.addr, a);
    }
  }

  lemma NextByte(range: Range, a: Addr, j: nat, mask: int)
    requires j < 16 && mask > 0 && Compared(range, a, j, mask)
    ensures
      var same := if mask >= 8 then range.addr[j] == a[j] else PartialSame(range.addr[j], a[j], mask);
      if same then Compared(range, a, j + 1, mask - 8) else !Covers(range, a)
  {
    hide SamePrefix, MaskBits;
    if mask >= 8 {
      WholeStep(range.addr, a, j);
      NotCovered(range, a, 8 * (j + 1));
    } else {
      PartialStep(range.addr, a, j, mask);
      NotCovered(range, a, range.mask);
    }
  }

  lemma NotCovered(range: Range, a: Addr, n: nat)
    requires n <= 128 && n <= range.mask
    ensures !SamePrefix(range.addr, a, n) ==> !Covers(range, a)
  {
    hide SamePrefix;
    if Covers(range, a) {
      ShorterPrefix(range.addr, a, range.mask, n);
    }
  }

  /** The byte loop for one range: whole bytes while at least eight mask bits are left, then a partial one. */
  method MatchRange(range: Range, a: Addr) returns (matched: bool)
    ensures matched <==> Covers(range, a)
  {
    hide SamePrefix, PartialSame, Covers, Compared;
    var mask := range.mask;
    Started(range, a);
    var j := 0;
    ghost var mismatch := false;
    while j < 16
      invariant 0 <= j <= 16 && Compared(range, a, j, mask) && !mismatch
    {
      if mask >= 8 {
        NextByte(range, a, j, mask);
        if range.addr[j] != a[j] {
          mismatch := true;
          break;
        }
      } else if mask <= 0 {
        Finished(range, a, j, mask);
        return true;
      } else {
        NextByte(range, a, j, mask);
        if !PartialSame(range.addr[j], a[j], mask) {
          mismatch := true;
          break;
        }
      }
      mask := mask - 8;
      j := j + 1;
    }
    if !mismatch {
      Finished(range, a, j, mask);
    }
    return mask <= 0;
  }

  lemma Started(range: Range, a: Addr)
    ensures Compared(range, a, 0, range.mask)
  {
    hide SamePrefix;
    NoBits(range.addr, a);
  }

  class AddrRangeList {
    var nRanges: nat
    var ranges: array<Range>

    ghost predicate Valid()
      reads this
    {
      nRanges <= ranges.Length
    }

    ghost function View(): seq<Range>
      reads this, ranges
      requires Valid()
    {
      ranges[..nRanges]
    }

    /** Room for every token and for the local host, all zero. */
    constructor (nEntries: nat)
      ensures Valid() && View() == [] && fresh(ranges) && ranges.Length == nEntries + 1
    {
      ranges := new Range[nEntries + 1](_ => Range(ZERO, 0));
      nRanges := 0;
    }

    /** The address of an IPv4 range is parsed into the first four bytes, copied to the last four and the
        front cleared, in place; whatever the slot held, the outcome is the mapped address. */
    method StoreMapped(addr4: Addr4, mask: int)
      requires Valid() && nRanges < ranges.Length
      modifies this`nRanges, ranges
      ensures Valid() && View() == old(View()) + [Range(Mapped(addr4), mask)]
    {
      var s: seq<bv8> := addr4 + ranges[nRanges].addr[4..];
      s := s[10 := 0xff][11 := 0xff][12 := s[0]][13 := s[1]][14 := s[2]][15 := s[3]];
      s := ZERO[..10] + s[10..];
      assert s[12..] == addr4;
      assert s == Mapped(addr4);
      ranges[nRanges] := Range(s, mask);
      nRanges := nRanges + 1;
    }

    method Store(range: Range)
      requires Valid() && nRanges < ranges.Length
      modifies this`nRanges, ranges
      ensures Valid() && View() == old(View()) + [range]
    {
      ranges[nRanges] := range;
      nRanges := nRanges + 1;
    }

    /** The loop over the tokens; there is a slot for each. */
    method StoreTokens(tokens: seq<Token>)
      requires Valid() && nRanges == 0 && |tokens| < ranges.Length
      modifies this`nRanges, ranges
      ensures Valid() && View() == TokenRanges(tokens, []) && nRanges <= |tokens|
    {
      var i := 0;
      while i < |tokens|
        invariant 0 <= i <= |tokens| && Valid() && nRanges <= i
        invariant TokenRanges(tokens[i..], View()) == TokenRanges(tokens, [])
      {
        var t := tokens[i];
        assert tokens[i..][0] == t && tokens[i..][1..] == tokens[i + 1..];
        match t {
          case All =>
            ranges[0] := Range(ZERO, 0);
            nRanges := 1;
            assert View() == [Range(ZERO, 0)];
            return;
          case Segment => Store(Range(LINK_LOCAL, 64));
          case Cidr4(addr4, bits) => StoreMapped(addr4, 96 + bits);
          case Bare4(addr4) => StoreMapped(addr4, 96 + 32);
          case Cidr6(addr6, bits) => Store(Range(addr6, bits));
          case Bare6(addr6) => Store(Range(addr6, 32));
          case Unparsable => assert View() + [] == View();
        }
        i := i + 1;
      }
    }

    /** g_realloc to two ranges: those beyond the old allocation have no defined contents. */
    method ReallocTwo()
      requires Valid() && nRanges == 0
      modifies this`ranges
      ensures Valid() && fresh(ranges) && ranges.Length == 2
    {
      var two := new Range[2];
      forall i | 0 <= i < 2 && i < ranges.Length {
        two[i] := ranges[i];
      }
      ranges := two;
    }

    /** Every address against every range. */
    method CheckIn6(a: Addr) returns (accepted: bool)
      requires Valid()
      ensures accepted <==> Accepts(View(), a)
    {
      hide Covers;
      var i := 0;
      while i < nRanges
        invariant 0 <= i <= nRanges
        invariant forall k :: 0 <= k < i ==> !Covers(ranges[k], a)
      {
        var matched := MatchRange(ranges[i], a);
        if matched {
          assert Covers(View()[i], a);
          return true;
        }
        i := i + 1;
      }
      return false;
    }

    method CheckAddress(client: Client) returns (accepted: bool)
      requires Valid()
      ensures accepted <==>
        match client
        case V4(addr4) => Accepts(View(), Mapped(addr4))
        case V6(addr6) => Accepts(View(), addr6)
        case NoAddress => false
        case OtherFamily => false
    {
      match client {
        case V4(addr4) => accepted := CheckIn6(Mapped(addr4));
        case V6(addr6) => accepted := CheckIn6(addr6);
        case NoAddress => accepted := false;
        case OtherFamily => accepted := false;
      }
    }
  }

  /** The builder: no store goes past the allocation, and every byte of every range is defined, also after
      the reallocation. */
  method NewFromString(tokens: seq<Token>, defaultAll: bool, allowLocalhost: bool) returns (list: AddrRangeList)
    ensures fresh(list) && list.Valid()
    ensures list.View() == Built(tokens, defaultAll, allowLocalhost)
  {
    hide TokenRanges;
    list := new AddrRangeList(|tokens|);
    list.StoreTokens(tokens);
    if defaultAll && list.nRanges == 0 {
      list.ReallocTwo();
      list.nRanges := 1;
      list.ranges[0] := Range(ZERO, 0);
      assert list.View() == [Range(ZERO, 0)];
    }
    if allowLocalhost {
      list.StoreMapped([127, 0, 0, 1], 96 + 8);
    }
  }
}
