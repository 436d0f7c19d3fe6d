/** The escapers for HTML attributes, HTML entities and URLs: each counts, allocates exactly, and fills. */
module Escaping {
  import opened Text

  /** The three escapers differ in what they escape and in how. */
  datatype Style = Attribute | Entity | Url

  /** C strings: characters are bytes. */
  predicate Bytes(s: string) {
    forall i :: 0 <= i < |s| ==> s[i] as int < 256
  }

  predicate IsAlnum(c: char) {
    '0' <= c <= '9' || 'a' <= c <= 'z' || 'A' <= c <= 'Z'
  }

  predicate Special(c: char) {
    c == '&' || c == '<' || c == '>' || c == '"' || c == '\'' || c == '/'
  }

  predicate Escaped(style: Style, c: char) {
    match style
    case Attribute => (c as int) < 128 && !IsAlnum(c)
    case Entity => Special(c)
    case Url => !IsAlnum(c)
  }

  /** Characters an escape takes more than the one it stands for. */
  function Extra(style: Style): nat {
    if style == Url then 2 else 5
  }

  function EscapeOf(style: Style, c: char): string
    requires (c as int) < 256
  {
    var hex := [HEX_CHARS[c as int / 16], HEX_CHARS[c as int % 16]];
    if style == Url then "%" + hex else "&#x" + hex + ";"
  }

  function Code(style: Style, c: char): (t: string)
    requires (c as int) < 256
    ensures |t| == if Escaped(style, c) then 1 + Extra(style) else 1
  {
    if Escaped(style, c) then EscapeOf(style, c) else [c]
  }

  function Encode(style: Style, s: string): string
    requires Bytes(s)
  {
    if s == "" then "" else Encode(style, s[..|s| - 1]) + Code(style, s[|s| - 1])
  }

  function EscapeCount(style: Style, s: string): nat {
    if s == "" then 0 else EscapeCount(style, s[..|s| - 1]) + (if Escaped(style, s[|s| - 1]) then 1 else 0)
  }

  /** A whole escape stands at the front. */
  predicate BeginsEscape(style: Style, t: string) {
    var n := if style == Url then 1 else 3;
    && |t| > Extra(style) && t[..n] == (if style == Url then "%" else "&#x")
    && IsDigit(t[n], 16) && IsDigit(t[n + 1], 16) && (style != Url ==> t[5] == ';')
  }

  /** What a reader of the escaped form makes of it: hexadecimal character references
      or percent-encoding (section 2.1 of RFC 3986). */
  function Decode(style: Style, t: string): string {
    if t == "" then ""
    else
      var n := if style == Url then 1 else 3;
      if BeginsEscape(style, t)
      then [(DigitValue(t[n]) * 16 + DigitValue(t[n + 1])) as char] + Decode(style, t[1 + Extra(style)..])
      else [t[0]] + Decode(style, t[1..])
  }

  /** The count pass allocates exactly what the fill pass needs. */
  lemma {:induction false} ExactSize(style: Style, s: string)
    requires Bytes(s)
    ensures |Encode(style, s)| == |s| + EscapeCount(style, s) * Extra(style)
  {
    if s != "" {
      ExactSize(style, s[..|s| - 1]);
    }
  }

  lemma EncodeLast(style: Style, s: string, c: char)
    requires Bytes(s) && (c as int) < 256
    ensures Encode(style, s + [c]) == Encode(style, s) + Code(style, c)
  {
    hide Code;
    assert (s + [c])[..|s|] == s;
  }

  lemma {:induction false} EncodeFromFront(style: Style, s: string)
    requires Bytes(s) && s != ""
    ensures Encode(style, s) == Code(style, s[0]) + Encode(style, s[1..])
  {
    hide Code, Encode;
    var n := |s| - 1;
    var init, c := s[..n], s[n];
    assert s == init + [c];
    EncodeLast(style, init, c);
    if n == 0 {
      EncodeEmpty(style);
    } else {
      EncodeFromFront(style, init);
      assert s[1..] == init[1..] + [c];
      EncodeLast(style, init[1..], c);
      var a, b, d := Code(style, s[0]), Encode(style, init[1..]), Code(style, c);
      assert (a + b) + d == a + (b + d);
    }
  }

  lemma PercentReads(c: char, rest: string)
    requires (c as int) < 256
    ensures Decode(Url, EscapeOf(Url, c) + rest) == [c] + Decode(Url, rest)
  {
    hide DigitValue;
    var t := EscapeOf(Url, c) + rest;
    HexCharValue(c as int / 16);
    HexCharValue(c as int % 16);
    assert t[3..] == rest;
    assert t[..1] == "%" && t[1] == HEX_CHARS[c as int / 16] && t[2] == HEX_CHARS[c as int % 16];
  }

  lemma ReferenceReads(style: Style, c: char, rest: string)
    requires (c as int) < 256 && style != Url
    ensures Decode(style, EscapeOf(style, c) + rest) == [c] + Decode(style, rest)
  {
    hide DigitValue;
    var t := EscapeOf(style, c) + rest;
    HexCharValue(c as int / 16);
    HexCharValue(c as int % 16);
    assert t[6..] == rest && t[5] == ';';
    assert t[..3] == "&#x" && t[3] == HEX_CHARS[c as int / 16] && t[4] == HEX_CHARS[c as int % 16];
  }

  lemma PlainReads(style: Style, c: char, rest: string)
    requires (c as int) < 256 && !Escaped(style, c)
    ensures Decode(style, [c] + rest) == [c] + Decode(style, rest)
  {
    hide DigitValue, HEX_CHARS;
    var t := [c] + rest;
    assert t[1..] == rest;
    if style == Url {
      assert |t| > 2 ==> t[..1][0] != "%"[0];
    } else {
      assert |t| > 5 ==> t[..3][0] != "&#x"[0];
    }
  }

  lemma CodeReads(style: Style, c: char, rest: string)
    requires (c as int) < 256
    ensures Decode(style, Code(style, c) + rest) == [c] + Decode(style, rest)
  {
    hide Decode, EscapeOf;
    if Escaped(style, c) {
      if style == Url {
        PercentReads(c, rest);
      } else {
        ReferenceReads(style, c, rest);
      }
    } else {
      PlainReads(style, c, rest);
    }
  }

  /** Decoding gives back the input, for every string of bytes and every escaper. */
  lemma {:induction false} RoundTrip(style: Style, s: string)
    requires Bytes(s)
    ensures Decode(style, Encode(style, s)) == s
    decreases |s|
  {
    hide Decode, Code;
    if s == "" {
      assert Decode(style, "") == "" by { NothingToDecode(style); }
    } else {
      EncodeFromFront(style, s);
      CodeReads(style, s[0], Encode(style, s[1..]));
      RoundTrip(style, s[1..]);
      assert [s[0]] + s[1..] == s;
    }
  }

  lemma NothingToDecode(style: Style)
    ensures Decode(style, "") == ""
  {
  }

  /** Different inputs have different escaped forms. */
  lemma Injective(style: Style, s: string, t: string)
    requires Bytes(s) && Bytes(t) && Encode(style, s) == Encode(style, t)
    ensures s == t
  {
    RoundTrip(style, s);
    RoundTrip(style, t);
  }

  predicate Plain(style: Style, s: string) {
    forall i :: 0 <= i < |s| ==> !Escaped(style, s[i])
  }

  /** The is_sane predicates: letters and digits only. */
  predicate Sane(s: string) {
    forall i :: 0 <= i < |s| ==> IsAlnum(s[i])
  }

  /** Letters and digits are those of ASCII, of both cases. */
  lemma AlnumCodes(c: char)
    ensures
      var n := c as int;
      IsAlnum(c) <==> 48 <= n <= 57 || 65 <= n <= 90 || 97 <= n <= 122
  {
  }

  /** A string is returned unchanged exactly when it has nothing to escape: as an entity no markup character,
      as an attribute only letters, digits and bytes from 128 up, in a URL only letters and digits. Sane
      strings always are. */
  lemma Unchanged(style: Style, s: string)
    requires Bytes(s)
    ensures
      Encode(style, s) == s <==>
        match style
        case Entity => forall c :: c in s ==> c !in "&<>\"'/"
        case Attribute => forall c :: c in s ==> IsAlnum(c) || (c as int) >= 128
        case Url => forall c :: c in s ==> IsAlnum(c)
    ensures Sane(s) ==> Encode(style, s) == s
    ensures Sane(s) <==> forall c :: c in s ==> IsAlnum(c)
  {
    hide IsAlnum, Encode;
    ExactSize(style, s);
    CountZero(style, s);
    if Plain(style, s) {
      PlainCopied(style, s);
    }
    forall c ensures style == Entity ==> (Escaped(style, c) <==> c in "&<>\"'/") {
      MarkupListed(c);
    }
    forall c | IsAlnum(c) ensures !Escaped(style, c) {
      AlnumPlain(style, c);
    }
  }

  lemma MarkupListed(c: char)
    ensures Special(c) <==> c in "&<>\"'/"
  {
    assert "&<>\"'/"[0] == '&' && "&<>\"'/"[1] == '<' && "&<>\"'/"[2] == '>';
    assert "&<>\"'/"[3] == '"' && "&<>\"'/"[4] == '\'' && "&<>\"'/"[5] == '/';
  }

  lemma AlnumPlain(style: Style, c: char)
    requires IsAlnum(c)
    ensures !Escaped(style, c)
  {
  }

  lemma {:induction false} CountZero(style: Style, s: string)
    ensures EscapeCount(style, s) == 0 <==> Plain(style, s)
  {
    if s != "" {
      CountZero(style, s[..|s| - 1]);
    }
  }

  lemma {:induction false} PlainCopied(style: Style, s: string)
    requires Bytes(s) && Plain(style, s)
    ensures Encode(style, s) == s
  {
    if s != "" {
      PlainCopied(style, s[..|s| - 1]);
      assert s[..|s| - 1] + [s[|s| - 1]] == s;
    }
  }

  /** What a context gives a meaning to must not get through: no quote, angle bracket, slash, and no
      ampersand or percent sign but that of an escape. */
  predicate Harmless(style: Style, c: char) {
    match style
    case Attribute => IsAlnum(c) || (c as int) >= 128 || c == '&' || c == '#' || c == ';'
    case Entity => c != '<' && c != '>' && c != '"' && c != '\'' && c != '/'
    case Url => IsAlnum(c) || c == '%'
  }

  /** The character that begins every escape. */
  function Mark(style: Style): char {
    if style == Url then '%' else '&'
  }

  /** Every mark in a text begins a whole escape. */
  ghost predicate MarksEscape(style: Style, t: string) {
    forall i :: 0 <= i < |t| && t[i] == Mark(style) ==> BeginsEscape(style, t[i..])
  }

  /** Every ampersand, or percent sign, of an output begins a whole escape. */
  lemma {:induction false} MarksBeginEscapes(style: Style, s: string)
    requires Bytes(s)
    ensures MarksEscape(style, Encode(style, s))
  {
    hide MarksEscape, Code;
    if s == "" {
      NoMarks(style);
    } else {
      MarksBeginEscapes(style, s[..|s| - 1]);
      CodeMarks(style, s[|s| - 1]);
      MarksAppend(style, Encode(style, s[..|s| - 1]), Code(style, s[|s| - 1]));
    }
  }

  lemma NoMarks(style: Style)
    ensures MarksEscape(style, "")
  {
  }

  lemma MarksAppend(style: Style, a: string, b: string)
    requires MarksEscape(style, a) && MarksEscape(style, b)
    ensures MarksEscape(style, a + b)
  {
    hide BeginsEscape;
    var t := a + b;
    forall i | 0 <= i < |t| && t[i] == Mark(style) ensures BeginsEscape(style, t[i..]) {
      if i < |a| {
        assert a[i] == t[i];
        assert t[i..] == a[i..] + b;
        MoreAfterEscape(style, a[i..], b);
      } else {
        assert b[i - |a|] == t[i];
        assert t[i..] == b[i - |a|..];
      }
    }
  }

  lemma MoreAfterEscape(style: Style, a: string, b: string)
    requires BeginsEscape(style, a)
    ensures BeginsEscape(style, a + b)
  {
    hide DigitValue;
    var n := if style == Url then 1 else 3;
    assert (a + b)[..n] == a[..n];
  }

  lemma CodeMarks(style: Style, c: char)
    requires (c as int) < 256
    ensures MarksEscape(style, Code(style, c))
  {
    hide DigitValue;
    var t := Code(style, c);
    HexCharValue(c as int / 16);
    HexCharValue(c as int % 16);
    HexIsAlnum(c as int / 16);
    HexIsAlnum(c as int % 16);
    assert t[0..] == t;
    if Escaped(style, c) {
      assert style == Url ==> t[..1] == "%";
      assert style != Url ==> t[..3] == "&#x";
    }
  }

  /** No output holds a character with a meaning in its context, but for those of an escape: of an entity's
      none of < > " ' /, of an attribute's only letters, digits, bytes from 128 up, and the escape's own, of
      a URL's only letters, digits and the percent sign. */
  lemma {:induction false} OutputHarmless(style: Style, s: string)
    requires Bytes(s)
    ensures
      var t := Encode(style, s);
      match style
      case Attribute => forall c :: c in t ==> IsAlnum(c) || (c as int) >= 128 || c == '&' || c == '#' || c == ';'
      case Entity => forall c :: c in t ==> c != '<' && c != '>' && c != '"' && c != '\'' && c != '/'
      case Url => forall c :: c in t ==> IsAlnum(c) || c == '%'
  {
    hide Code;
    if s != "" {
      OutputHarmless(style, s[..|s| - 1]);
      CodeHarmless(style, s[|s| - 1]);
      var t := Encode(style, s);
      assert forall c :: c in t <==> c in Encode(style, s[..|s| - 1]) || c in Code(style, s[|s| - 1]);
    }
  }

  lemma CodeHarmless(style: Style, c: char)
    requires (c as int) < 256
    ensures forall d :: d in Code(style, c) ==> Harmless(style, d)
  {
    HexIsAlnum(c as int / 16);
    HexIsAlnum(c as int % 16);
    assert forall d :: IsAlnum(d) ==> Harmless(style, d);
  }

  /** The form of an escape, letter by letter: its two digits are the character's number in base 16, the
      upper half first. */
  lemma EscapeForm(style: Style, c: char)
    requires (c as int) < 256
    ensures
      var t := EscapeOf(style, c);
      && (style == Url ==> |t| == 3 && t[0] == '%' && AllDigits(t[1..], 16) && Value(t[1..], 16) == c as int)
      && (style != Url ==>
            |t| == 6 && t[..3] == "&#x" && t[5] == ';' && AllDigits(t[3..5], 16) && Value(t[3..5], 16) == c as int)
  {
    hide Value, AllDigits;
    var t := EscapeOf(style, c);
    var hex := [HEX_CHARS[c as int / 16], HEX_CHARS[c as int % 16]];
    TwoDigits(c as int / 16, c as int % 16);
    assert style == Url ==> t[1..] == hex;
    assert style != Url ==> t[3..5] == hex && t[..3] == "&#x";
  }

  lemma TwoDigits(high: nat, low: nat)
    requires high < 16 && low < 16
    ensures
      var s := [HEX_CHARS[high], HEX_CHARS[low]];
      AllDigits(s, 16) && Value(s, 16) == 16 * high + low
  {
    hide DigitValue;
    var h, l := HEX_CHARS[high], HEX_CHARS[low];
    HexCharValue(high);
    HexCharValue(low);
    assert [h, l][..1] == [h] && [h][..0] == "";
    assert Value([h], 16) == DigitValue(h);
  }

  /** One of each. */
  lemma Examples()
    ensures Encode(Entity, "<b") == "&#x3c;b"
    ensures Encode(Attribute, " b") == "&#x20;b"
    ensures Encode(Url, "/b") == "%2fb"
  {
    hide Encode, Code;
    EncodeTwo(Entity, '<', 'b');
    EncodeTwo(Attribute, ' ', 'b');
    EncodeTwo(Url, '/', 'b');
    assert "<b" == ['<', 'b'] && " b" == [' ', 'b'] && "/b" == ['/', 'b'];
    OneCode(Entity, '<');
    OneCode(Attribute, ' ');
    OneCode(Url, '/');
    OneCode(Entity, 'b');
    OneCode(Attribute, 'b');
    OneCode(Url, 'b');
  }

  lemma EncodeTwo(style: Style, c: char, d: char)
    requires (c as int) < 256 && (d as int) < 256
    ensures Encode(style, [c, d]) == Code(style, c) + Code(style, d)
  {
    hide Code, Encode;
    EncodeEmpty(style);
    EncodeLast(style, "", c);
    EncodeLast(style, [c], d);
    assert "" + [c] == [c] && [c] + [d] == [c, d] && "" + Code(style, c) == Code(style, c);
  }

  lemma OneCode(style: Style, c: char)
    requires (c as int) < 128
    ensures c == 'b' ==> Code(style, c) == "b"
    ensures c == '<' && style == Entity ==> Code(style, c) == "&#x3c;"
    ensures c == ' ' && style == Attribute ==> Code(style, c) == "&#x20;"
    ensures c == '/' && style == Url ==> Code(style, c) == "%2f"
  {
  }

  lemma HexIsAlnum(d: nat)
    requires d < 16
    ensures IsAlnum(HEX_CHARS[d])
  {
  }

  // ---------------------------------------------------------------- the functions

  /** First pass: how many characters need an escape. */
  method CountEscapes(style: Style, s: string) returns (count: nat)
    ensures count == EscapeCount(style, s)
  {
    count := 0;
    var i := 0;
    while i < |s|
      invariant 0 <= i <= |s| && count == EscapeCount(style, s[..i])
    {
      assert s[..i + 1][..i] == s[..i];
      if Escaped(style, s[i]) {
        count := count + 1;
      }
      i := i + 1;
    }
    assert s[..i] == s;
  }

  /** Both passes; the pointer ends on the last byte of the allocation, which gets the terminator. */
  method Sanitize(style: Style, s: string) returns (out: array<char>)
    requires Bytes(s)
    ensures fresh(out) && out.Length == |Encode(style, s)| + 1
    ensures out[..out.Length - 1] == Encode(style, s) && out[out.Length - 1] == '\0'
  {
    hide Encode, EscapeCount;
    var escapes := CountEscapes(style, s);
    ExactSize(style, s);
    out := new char[|s| + escapes * Extra(style) + 1](_ => '\0');
    var t := 0;
    var i := 0;
    EncodeEmpty(style);
    while i < |s|
      invariant 0 <= i <= |s| && t == |Encode(style, s[..i])| && t < out.Length
      invariant out[..t] == Encode(style, s[..i])
    {
      EncodeNext(style, s, i);
      PrefixFits(style, s, i + 1);
      t := Put(style, s[i], out, t);
      i := i + 1;
    }
    assert s[..i] == s;
    out[t] := '\0';
  }

  lemma EncodeEmpty(style: Style)
    ensures Encode(style, "") == ""
  {
  }

  lemma EncodeNext(style: Style, s: string, i: nat)
    requires Bytes(s) && i < |s|
    ensures Encode(style, s[..i + 1]) == Encode(style, s[..i]) + Code(style, s[i])
  {
    assert s[..i + 1][..i] == s[..i];
  }

  lemma {:induction false} PrefixFits(style: Style, s: string, i: nat)
    requires Bytes(s) && i <= |s|
    ensures |Encode(style, s[..i])| <= |Encode(style, s)|
    decreases |s| - i
  {
    if i < |s| {
      EncodeNext(style, s, i);
      PrefixFits(style, s, i + 1);
    } else {
      assert s[..i] == s;
    }
  }

  /** One character, or its escape, at the pointer. */
  method Put(style: Style, c: char, out: array<char>, at: nat) returns (t: nat)
    requires (c as int) < 256 && at + |Code(style, c)| <= out.Length
    modifies out
    ensures t == at + |Code(style, c)| && out[..t] == old(out[..at]) + Code(style, c)
  {
    if !Escaped(style, c) {
      out[at] := c;
      t := at + 1;
    } else if style == Url {
      out[at] := '%';
      out[at + 1] := HEX_CHARS[c as int / 16];
      out[at + 2] := HEX_CHARS[c as int % 16];
      t := at + 3;
    } else {
      out[at], out[at + 1], out[at + 2] := '&', '#', 'x';
      out[at + 3] := HEX_CHARS[c as int / 16];
      out[at + 4] := HEX_CHARS[c as int % 16];
      out[at + 5] := ';';
      t := at + 6;
    }
  }

  method IsSane(s: string) returns (sane: bool)
    ensures sane <==> forall c :: c in s ==> IsAlnum(c)
  {
    var i := 0;
    while i < |s|
      invariant 0 <= i <= |s| && forall k :: 0 <= k < i ==> IsAlnum(s[k])
    {
      if !IsAlnum(s[i]) {
        assert s[i] in s;
        return false;
      }
      i := i + 1;
    }
    return true;
  }
}
