/** Printing and reading back of numbers, and splitting of strings, as the server's C library calls do it. */
module Text {

  const HEX_CHARS := "0123456789abcdef"

  predicate IsBase(base: nat) {
    base == 10 || base == 16
  }

  /** Value of a digit in base 16, either case; -1 for any other character. */
  function DigitValue(c: char): (v: int)
    ensures -1 <= v < 16
  {
    if '0' <= c <= '9' then c as int - '0' as int
    else if 'a' <= c <= 'f' then c as int - 'a' as int + 10
    else if 'A' <= c <= 'F' then c as int - 'A' as int + 10
    else -1
  }

  predicate IsDigit(c: char, base: nat) {
    0 <= DigitValue(c) < base
  }

  predicate AllDigits(s: string, base: nat) {
    forall i :: 0 <= i < |s| ==> IsDigit(s[i], base)
  }

  lemma HexCharValue(d: nat)
    requires d < 16
    ensures DigitValue(HEX_CHARS[d]) == d
    ensures HEX_CHARS[d] != '-' && HEX_CHARS[d] != ' ' && HEX_CHARS[d] != '\n' && HEX_CHARS[d] != ':'
  {
  }

  /** The value of each digit, in either case; nothing else has one. */
  lemma DigitValues(c: char)
    ensures '0' <= c <= '9' ==> DigitValue(c) == c as int - 48
    ensures 'a' <= c <= 'f' ==> DigitValue(c) == c as int - 87
    ensures 'A' <= c <= 'F' ==> DigitValue(c) == c as int - 55
    ensures DigitValue(c) >= 0 <==> c in "0123456789abcdefABCDEF"
    ensures IsDigit(c, 16) <==> DigitValue(c) >= 0
    ensures IsDigit(c, 10) <==> '0' <= c <= '9'
  {
    var n := c as int;
    if '0' <= c <= '9' {
      assert "0123456789abcdefABCDEF"[n - 48] == c;
    } else if 'a' <= c <= 'f' {
      assert "0123456789abcdefABCDEF"[n - 87] == c;
    } else if 'A' <= c <= 'F' {
      assert "0123456789abcdefABCDEF"[n - 49] == c;
    }
  }

  /** What printf writes for %u (base 10) and %x (base 16). */
  function Num(n: nat, base: nat): string
    requires IsBase(base)
    decreases n
  {
    if n < base then [HEX_CHARS[n]] else Num(n / base, base) + [HEX_CHARS[n % base]]
  }

  /** What printf writes for %d. */
  function Int(i: int): string {
    if i < 0 then "-" + Num(-i, 10) else Num(i, 10)
  }

  function Zeros(k: nat): string {
    seq(k, _ => '0')
  }

  /** What printf writes for %0<width>d or %0<width>x of a non-negative number. */
  function Padded(n: nat, base: nat, width: nat): string
    requires IsBase(base)
  {
    var s := Num(n, base);
    if |s| < width then Zeros(width - |s|) + s else s
  }

  /** The number a string of digits stands for. */
  function Value(s: string, base: nat): nat
    requires IsBase(base) && AllDigits(s, base)
  {
    if s == "" then 0
    else Value(s[..|s| - 1], base) * base + DigitValue(s[|s| - 1])
  }

  lemma {:induction false} NumValue(n: nat, base: nat)
    requires IsBase(base)
    ensures AllDigits(Num(n, base), base) && Num(n, base) != ""
    ensures Value(Num(n, base), base) == n
    decreases n
  {
    if n < base {
      HexCharValue(n);
      assert Num(n, base)[..0] == "";
    } else {
      NumValue(n / base, base);
      HexCharValue(n % base);
      assert Num(n, base)[..|Num(n, base)| - 1] == Num(n / base, base);
    }
  }

  lemma {:induction false} LeadingZeros(k: nat, s: string, base: nat)
    requires IsBase(base) && AllDigits(s, base)
    ensures AllDigits(Zeros(k) + s, base)
    ensures Value(Zeros(k) + s, base) == Value(s, base)
    decreases k + |s|
  {
    var z := Zeros(k) + s;
    if s != "" {
      LeadingZeros(k, s[..|s| - 1], base);
      assert z[..|z| - 1] == Zeros(k) + s[..|s| - 1];
    } else if k > 0 {
      LeadingZeros(k - 1, "", base);
      assert z[..|z| - 1] == Zeros(k - 1) + "";
    }
  }

  /** A printed number, padded or not, reads back as itself. */
  lemma PaddedValue(n: nat, base: nat, width: nat)
    requires IsBase(base)
    ensures AllDigits(Padded(n, base, width), base) && Padded(n, base, width) != ""
    ensures Value(Padded(n, base, width), base) == n
    ensures |Padded(n, base, width)| >= width
  {
    NumValue(n, base);
    var s := Num(n, base);
    if |s| < width {
      LeadingZeros(width - |s|, s, base);
    }
  }

  /** A number below 16^k has at most k hexadecimal digits. */
  lemma {:induction false} NumLength(n: nat, k: nat)
    requires n < Sixteen(k) && k > 0
    ensures |Num(n, 16)| <= k
    decreases k
  {
    if n >= 16 {
      NumLength(n / 16, k - 1);
    }
  }

  function Sixteen(k: nat): nat {
    if k == 0 then 1 else 16 * Sixteen(k - 1)
  }

  lemma NumInjective(a: nat, b: nat)
    requires Num(a, 10) == Num(b, 10)
    ensures a == b
  {
    NumValue(a, 10);
    NumValue(b, 10);
  }

  /** Two strings cut at the first occurrence of c agree piece by piece. */
  lemma CutAtFirst(a: string, x: string, b: string, y: string, c: char)
    requires c !in a && c !in b
    requires a + [c] + x == b + [c] + y
    ensures a == b && x == y
  {
    var l, r := a + [c] + x, b + [c] + y;
    assert l[|a|] == c && r[|b|] == c;
    assert forall i :: 0 <= i < |a| ==> l[i] == a[i];
    assert forall i :: 0 <= i < |b| ==> r[i] == b[i];
    assert |a| == |b|;
    assert a == l[..|a|] == r[..|b|] == b;
    assert x == l[|a| + 1..] == r[|b| + 1..] == y;
  }

  /** Two strings cut at the last occurrence of c agree piece by piece. */
  lemma CutAtLast(a: string, x: string, b: string, y: string, c: char)
    requires c !in x && c !in y
    requires a + [c] + x == b + [c] + y
    ensures a == b && x == y
  {
    var l, r := a + [c] + x, b + [c] + y;
    assert l[|a|] == c && r[|b|] == c;
    assert forall i :: |a| < i < |l| ==> l[i] == x[i - |a| - 1];
    assert forall i :: |b| < i < |r| ==> r[i] == y[i - |b| - 1];
    assert |a| == |b|;
    assert a == l[..|a|] == r[..|b|] == b;
    assert x == l[|a| + 1..] == r[|b| + 1..] == y;
  }

  /** The pieces of s between occurrences of c; one piece if there is none. */
  function Pieces(s: string, c: char): (ps: seq<string>)
    ensures |ps| >= 1
  {
    if s == "" then [""]
    else
      var rest := Pieces(s[1..], c);
      if s[0] == c then [""] + rest else [[s[0]] + rest[0]] + rest[1..]
  }

  /** g_strsplit with no limit: the empty string has no pieces at all. */
  function Split(s: string, c: char): seq<string> {
    if s == "" then [] else Pieces(s, c)
  }

  lemma {:induction false} PiecesClean(s: string, c: char)
    ensures forall i :: 0 <= i < |Pieces(s, c)| ==> c !in Pieces(s, c)[i]
  {
    if s != "" {
      PiecesClean(s[1..], c);
      var rest := Pieces(s[1..], c);
      assert c !in rest[0];
    }
  }

  lemma {:induction false} PiecesOfLast(a: string, c: char)
    requires c !in a
    ensures Pieces(a, c) == [a]
  {
    if a != "" {
      PiecesOfLast(a[1..], c);
      assert [a[0]] + a[1..] == a;
    }
  }

  lemma {:induction false} PiecesOfCut(a: string, c: char, b: string)
    requires c !in a
    ensures Pieces(a + [c] + b, c) == [a] + Pieces(b, c)
  {
    var s := a + [c] + b;
    if a == "" {
      assert s[1..] == b;
    } else {
      PiecesOfCut(a[1..], c, b);
      assert s[1..] == a[1..] + [c] + b;
      assert [s[0]] + a[1..] == a;
    }
  }

  /** Each item followed by c, as the printing loops append them. */
  function Terminated(items: seq<string>, c: char): string {
    if items == [] then "" else items[0] + [c] + Terminated(items[1..], c)
  }

  lemma {:induction false} TerminatedAppend(a: seq<string>, b: seq<string>, c: char)
    ensures Terminated(a + b, c) == Terminated(a, c) + Terminated(b, c)
  {
    if a == [] {
      assert a + b == b;
    } else {
      assert (a + b)[1..] == a[1..] + b;
      TerminatedAppend(a[1..], b, c);
    }
  }

  /** g_string_truncate (s, s->len - 1): on the empty string the length wraps and nothing is cut. */
  function DropLast(s: string): string {
    if s == "" then "" else s[..|s| - 1]
  }

  /** Items printed with a separator after each and the last one cut off split back into the items,
      unless the only item is empty. */
  lemma {:induction false} SplitOfTerminated(items: seq<string>, c: char)
    requires forall i :: 0 <= i < |items| ==> c !in items[i]
    requires items != [""]
    ensures Split(DropLast(Terminated(items, c)), c) == items
  {
    if items != [] {
      PiecesOfTerminated(items, c);
      PiecesOfLast("", c);
    }
  }

  lemma {:induction false} PiecesOfTerminated(items: seq<string>, c: char)
    requires forall i :: 0 <= i < |items| ==> c !in items[i]
    requires items != []
    ensures Terminated(items, c) != ""
    ensures Pieces(DropLast(Terminated(items, c)), c) == items
  {
    var t := Terminated(items, c);
    if |items| == 1 {
      assert t == items[0] + [c] + "";
      assert DropLast(t) == items[0];
      PiecesOfLast(items[0], c);
    } else {
      PiecesOfTerminated(items[1..], c);
      var t1 := Terminated(items[1..], c);
      assert DropLast(t) == items[0] + [c] + DropLast(t1);
      PiecesOfCut(items[0], c, DropLast(t1));
    }
  }

  /** How numbers look in names and texts. */
  lemma PrintExamples()
    ensures Int(600) == "600" && Int(-4) == "-4"
    ensures Padded(7, 10, 5) == "00007" && Padded(123456, 10, 5) == "123456"
    ensures Padded(0x1f, 16, 4) == "001f"
  {
    assert Num(60, 10) == "60" && Num(600, 10) == "600";
    assert Num(123, 10) == "123" && Num(12345, 10) == "12345";
    assert Zeros(4) == "0000" && Zeros(2) == "00" && Num(0x1f, 16) == "1f";
  }

  /** Splitting at spaces, neighbouring and at the ends too. */
  lemma SplitExamples()
    ensures Split("", ' ') == [] && Split(" ", ' ') == ["", ""] && Split("a  b", ' ') == ["a", "", "b"]
  {
    PiecesOfLast("", ' ');
    PiecesOfLast("b", ' ');
    PiecesOfCut("", ' ', "");
    PiecesOfCut("", ' ', "b");
    PiecesOfCut("a", ' ', " b");
    assert "" + [' '] + "" == " " && "" + [' '] + "b" == " b" && "a" + [' '] + " b" == "a  b";
  }
}
