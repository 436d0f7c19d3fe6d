/** The user table and its one-line text form, as it is stored in the configuration. */
module Users {
  import opened Text

  type Table = map<string, nat>

  const GUINT := 0x1_0000_0000
  const ULONG := 0x1_0000_0000_0000_0000

  // ---------------------------------------------------------------- strtoul in base 16

  predicate IsSpace(c: char) {
    c == ' ' || c == '\t' || c == '\n' || c == '\U{0B}' || c == '\U{0C}' || c == '\r'
  }

  function Spaces(s: string): (n: nat)
    ensures n <= |s|
  {
    if s != "" && IsSpace(s[0]) then 1 + Spaces(s[1..]) else 0
  }

  function HexRun(s: string): (n: nat)
    ensures n <= |s| && AllDigits(s[..n], 16)
  {
    if s != "" && IsDigit(s[0], 16) then
      var n := HexRun(s[1..]);
      assert s[..n + 1] == [s[0]] + s[1..][..n];
      n + 1
    else 0
  }

  /** The value and the number of characters consumed, zero if there is no number: first after an optional
      prefix, then after an optional sign, and at last after spaces. */
  function HexNumber(u: string): (nat, nat) {
    var x := if |u| >= 3 && u[0] == '0' && (u[1] == 'x' || u[1] == 'X') && IsDigit(u[2], 16) then 2 else 0;
    var n := HexRun(u[x..]);
    if n == 0 then (0, 0) else (Value(u[x..][..n], 16), x + n)
  }

  function SignedNumber(t: string): (nat, nat) {
    var sign := if t != "" && (t[0] == '-' || t[0] == '+') then 1 else 0;
    var (v, used) := HexNumber(t[sign..]);
    if used == 0 then (0, 0)
    else (if v >= ULONG then ULONG - 1 else if sign == 1 && t[0] == '-' then (ULONG - v) % ULONG else v, sign + used)
  }

  function StrToUL(s: string): (nat, nat) {
    var a := Spaces(s);
    var (v, used) := SignedNumber(s[a..]);
    if used == 0 then (0, 0) else (v, a + used)
  }

  // ---------------------------------------------------------------- the text form

  /** The part before the first c, or all of s. */
  function Before(s: string, c: char): (n: nat)
    ensures n <= |s| && c !in s[..n] && (n < |s| ==> s[n] == c)
  {
    if s == "" || s[0] == c then 0
    else
      var n := Before(s[1..], c);
      assert s[..n + 1] == [s[0]] + s[1..][..n];
      n + 1
  }

  /** One piece of the string: skipped without a colon or without a number after it. */
  function ParseToken(token: string, users: Table): Table {
    var e := Before(token, ':');
    if e == |token| then users
    else
      var (groups, used) := StrToUL(token[e + 1..]);
      if used > 0 then users[token[..e] := groups % GUINT] else users
  }

  function ParseTokens(tokens: seq<string>, users: Table): Table {
    if tokens == [] then users
    else ParseToken(tokens[|tokens| - 1], ParseTokens(tokens[..|tokens| - 1], users))
  }

  function ParseUsers(s: string, users: Table): Table {
    ParseTokens(Split(s, ' '), users)
  }

  function Entry(name: string, groups: nat): string {
    name + ":" + Padded(groups, 16, 4)
  }

  function Entries(users: Table, order: seq<string>): seq<string>
    requires forall name :: name in order ==> name in users
  {
    seq(|order|, i requires 0 <= i < |order| => Entry(order[i], users[order[i]]))
  }

  /** The table printed in the order in which the hash table happens to iterate. */
  function PrintUsers(users: Table, order: seq<string>): string
    requires forall name :: name in order ==> name in users
  {
    DropLast(Terminated(Entries(users, order), ' '))
  }

  ghost predicate IterationOrder(users: Table, order: seq<string>) {
    && (forall name :: name in order <==> name in users)
    && (forall i, j :: 0 <= i < j < |order| ==> order[i] != order[j])
  }

  predicate CleanName(name: string) {
    ' ' !in name && ':' !in name
  }

  ghost predicate Fits(users: Table) {
    forall name :: name in users ==> users[name] < GUINT
  }

  // ---------------------------------------------------------------- reading back

  lemma PrintedNumber(groups: nat)
    requires groups < GUINT
    ensures StrToUL(Padded(groups, 16, 4)) == (groups, |Padded(groups, 16, 4)|) && |Padded(groups, 16, 4)| > 0
  {
    hide Padded, Value, StrToUL;
    var s := Padded(groups, 16, 4);
    PaddedValue(groups, 16, 4);
    NumberReads("", "", "", s, "");
    assert "" + ("" + ("" + s + "")) == s;
  }

  lemma {:induction false} HexRunUntil(digits: string, tail: string)
    requires AllDigits(digits, 16) && (tail != "" ==> !IsDigit(tail[0], 16))
    ensures HexRun(digits + tail) == |digits|
  {
    if digits == "" {
      assert digits + tail == tail;
    } else {
      assert (digits + tail)[1..] == digits[1..] + tail;
      HexRunUntil(digits[1..], tail);
    }
  }

  lemma DigitNoMark(c: char)
    requires IsDigit(c, 16)
    ensures c != 'x' && c != 'X' && c != '-' && c != '+' && !IsSpace(c)
  {
  }

  /** Digits, and something else or nothing behind them. */
  ghost predicate Digits(digits: string, tail: string) {
    && digits != "" && AllDigits(digits, 16)
    && (tail != "" ==> !IsDigit(tail[0], 16) && tail[0] != 'x' && tail[0] != 'X')
  }

  lemma PlainHex(u: string)
    requires u != "" && HexRun(u) > 0 && (|u| >= 2 ==> u[1] != 'x' && u[1] != 'X')
    ensures HexNumber(u) == (Value(u[..HexRun(u)], 16), HexRun(u))
  {
    hide Value, HexRun, IsDigit;
    assert u[0..] == u;
  }

  lemma PrefixedHex(u: string)
    requires |u| >= 3 && u[0] == '0' && (u[1] == 'x' || u[1] == 'X') && IsDigit(u[2], 16) && HexRun(u[2..]) > 0
    ensures HexNumber(u) == (Value(u[2..][..HexRun(u[2..])], 16), 2 + HexRun(u[2..]))
  {
    hide Value, HexRun, IsDigit;
  }

  lemma HexNumberReads(prefix: string, digits: string, tail: string)
    requires Digits(digits, tail) && HexPrefix(prefix)
    ensures HexNumber(prefix + digits + tail) == (Value(digits, 16), |prefix| + |digits|)
  {
    hide Value, HexRun, DigitValue, HexNumber;
    var u, rest := prefix + digits + tail, digits + tail;
    HexRunUntil(digits, tail);
    assert rest[..|digits|] == digits && rest[0] == digits[0];
    if prefix == "" {
      assert u == rest;
      if |digits| >= 2 {
        assert u[1] == digits[1] && IsDigit(digits[1], 16);
        DigitNoMark(digits[1]);
      } else if tail != "" {
        assert u[1] == tail[0];
      }
      PlainHex(u);
    } else {
      assert u[0] == '0' && (u[1] == 'x' || u[1] == 'X') && u[2] == rest[0] && IsDigit(digits[0], 16);
      assert u[2..] == rest;
      PrefixedHex(u);
    }
  }

  /** Clamped to the largest word, or taken from zero for a minus sign. */
  function Word(v: nat, minus: bool): nat {
    if v > 0xffff_ffff_ffff_ffff then 0xffff_ffff_ffff_ffff
    else if minus && v > 0 then 0x1_0000_0000_0000_0000 - v
    else v
  }

  ghost predicate Sign(s: string) {
    s == "" || s == "-" || s == "+"
  }

  ghost predicate HexPrefix(s: string) {
    s == "" || s == "0x" || s == "0X"
  }

  lemma NumberStarts(prefix: string, digits: string, tail: string)
    requires Digits(digits, tail) && HexPrefix(prefix)
    ensures
      var u := prefix + digits + tail;
      u != "" && u[0] != '-' && u[0] != '+' && !IsSpace(u[0])
  {
    hide DigitValue;
    var u := prefix + digits + tail;
    assert IsDigit(digits[0], 16);
    DigitNoMark(digits[0]);
    assert u[0] == if prefix == "" then digits[0] else prefix[0];
  }

  lemma SignedOf(sign: string, u: string)
    requires Sign(sign) && u != "" && u[0] != '-' && u[0] != '+' && HexNumber(u).1 > 0
    ensures SignedNumber(sign + u) == (Word(HexNumber(u).0, sign == "-"), |sign| + HexNumber(u).1)
  {
    hide HexNumber;
    var t := sign + u;
    assert t[|sign|..] == u;
    assert t[0] == if sign == "" then u[0] else sign[0];
  }

  lemma {:induction false} SpacesSkipped(space: string, rest: string)
    requires forall i :: 0 <= i < |space| ==> IsSpace(space[i])
    requires rest != "" && !IsSpace(rest[0])
    ensures Spaces(space + rest) == |space| && (space + rest)[|space|..] == rest
  {
    hide IsSpace;
    if space == "" {
      assert space + rest == rest;
    } else {
      assert (space + rest)[1..] == space[1..] + rest;
      SpacesSkipped(space[1..], rest);
    }
  }

  /** White space is that of ASCII. */
  lemma SpaceCodes(c: char)
    ensures IsSpace(c) <==> c as int == 32 || 9 <= c as int <= 13
  {
  }

  /** How a number is read: after white space, an optional sign and an optional prefix, digits as far as they
      go; too large a value is clamped, and a minus sign takes it from 2^64. */
  lemma NumberReads(space: string, sign: string, prefix: string, digits: string, tail: string)
    requires forall i :: 0 <= i < |space| ==> IsSpace(space[i])
    requires Sign(sign) && HexPrefix(prefix) && Digits(digits, tail)
    ensures StrToUL(space + (sign + (prefix + digits + tail))) ==
              (Word(Value(digits, 16), sign == "-"), |space| + |sign| + |prefix| + |digits|)
  {
    hide Value, SignedNumber, HexNumber, IsSpace, HexPrefix, Spaces, Word;
    var u := prefix + digits + tail;
    var t := sign + u;
    NumberStarts(prefix, digits, tail);
    HexNumberReads(prefix, digits, tail);
    SignedOf(sign, u);
    assert t[0] == if sign == "" then u[0] else sign[0];
    SpaceCodes(t[0]);
    SpacesSkipped(space, t);
  }

  /** A prefix without a digit behind it is a zero, and the x is left. */
  lemma ZeroRead(tail: string)
    requires tail == "" || !IsDigit(tail[0], 16)
    ensures StrToUL("0x" + tail) == (0, 1)
  {
    hide IsDigit;
    var s := "0x" + tail;
    ZeroIsDigit();
    XIsNone();
    assert s[0] == '0' && s[1] == 'x' && s[1..][0] == 'x' && s[0..] == s;
    assert |s| >= 3 ==> s[2] == tail[0];
    assert HexRun(s[1..]) == 0;
    assert HexRun(s) == 1 && s[..1] == "0";
    assert "0"[..0] == "" && Value("0", 16) == 0 by { ZeroValue(); }
  }

  lemma XIsNone()
    ensures !IsDigit('x', 16)
  {
  }

  lemma ZeroValue()
    ensures AllDigits("0", 16) && Value("0", 16) == 0
  {
    assert "0"[..0] == "";
  }

  /** A piece with a colon and a number after it enters the part before the first colon with the number's low
      32 bits; what follows the digits is ignored. */
  lemma PieceEnters(name: string, sign: string, prefix: string, digits: string, tail: string, users: Table)
    requires ':' !in name && Sign(sign) && HexPrefix(prefix) && Digits(digits, tail)
    ensures ParseToken(name + ":" + (sign + (prefix + digits + tail)), users) ==
              users[name := Word(Value(digits, 16), sign == "-") % 0x1_0000_0000]
  {
    hide StrToUL, Before, Value, Word, Sign, HexPrefix;
    var number := sign + (prefix + digits + tail);
    var token := name + ":" + number;
    BeforeColon(name, number);
    assert token[..|name|] == name && token[|name| + 1..] == number;
    NumberReads("", sign, prefix, digits, tail);
    assert "" + number == number;
  }

  /** A string that is one piece without a colon, or with nothing like a number behind it, enters nobody. */
  lemma PieceSkipped(name: string, junk: string, users: Table)
    requires ':' !in name && ' ' !in name && ' ' !in junk
    requires junk == "" || !(IsDigit(junk[0], 16) || IsSpace(junk[0]) || junk[0] == '-' || junk[0] == '+')
    ensures ParseUsers(name, users) == users
    ensures ParseUsers(name + ":" + junk, users) == users
  {
    hide Before, StrToUL, ParseTokens, Pieces, IsDigit, IsSpace;
    var token := name + ":" + junk;
    PiecesOfLast(name, ' ');
    PiecesOfLast(token, ' ');
    BeforeColon(name, junk);
    NoColon(name);
    assert token[|name| + 1..] == junk;
    NoNumber(junk);
    OnePiece(name, users);
    OnePiece(token, users);
  }

  lemma NoNumber(junk: string)
    requires junk == "" || !(IsDigit(junk[0], 16) || IsSpace(junk[0]) || junk[0] == '-' || junk[0] == '+')
    ensures StrToUL(junk).1 == 0
  {
    hide Value, IsDigit, IsSpace;
    assert junk[0..] == junk;
    assert IsDigit('0', 16) by { ZeroIsDigit(); }
  }

  lemma ZeroIsDigit()
    ensures IsDigit('0', 16)
  {
  }

  lemma NoColon(name: string)
    requires ':' !in name
    ensures Before(name, ':') == |name|
  {
  }

  lemma OnePiece(token: string, users: Table)
    ensures ParseTokens([token], users) == ParseToken(token, users)
    ensures ParseTokens([], users) == users
  {
    hide ParseToken;
    assert [token][..0] == [];
  }

  /** Of two pieces for one name the later counts. */
  lemma LaterCounts(name: string, a: nat, b: nat, users: Table)
    requires CleanName(name) && a < GUINT && b < GUINT
    ensures ParseTokens([Entry(name, a), Entry(name, b)], users) == users[name := b]
  {
    hide ParseToken, Entry;
    var tokens := [Entry(name, a), Entry(name, b)];
    assert tokens[..1] == [Entry(name, a)];
    OnePiece(Entry(name, a), users);
    EntryReads(name, a, users);
    EntryReads(name, b, users[name := a]);
  }

  /** A stored table of two, with groups in at least four hexadecimal digits. */
  lemma StoredExample()
    ensures PrintUsers(map["bob" := 0x1f, "eve" := 0xabcde], ["bob", "eve"]) == "bob:001f eve:abcde"
  {
    hide Padded;
    FourDigits();
    assert Entry("bob", 0x1f) == "bob:001f" && Entry("eve", 0xabcde) == "eve:abcde";
    var users := map["bob" := 0x1f, "eve" := 0xabcde];
    var entries := Entries(users, ["bob", "eve"]);
    assert entries == ["bob:001f", "eve:abcde"];
    assert entries[1..] == ["eve:abcde"] && entries[1..][1..] == [];
    assert Terminated(entries[1..], ' ') == "eve:abcde" + [' '] + "";
    assert Terminated(entries, ' ') == "bob:001f eve:abcde ";
  }

  lemma FourDigits()
    ensures Padded(0x1f, 16, 4) == "001f" && Padded(0xabcde, 16, 4) == "abcde"
  {
    PrintExamples();
    assert Num(0xab, 16) == "ab" && Num(0xabc, 16) == "abc" && Num(0xabcd, 16) == "abcd";
  }

  lemma BeforeColon(name: string, rest: string)
    requires ':' !in name
    ensures Before(name + ":" + rest, ':') == |name|
  {
    var s := name + ":" + rest;
    var n := Before(s, ':');
    assert s == s[..n] + ":" + s[n + 1..] by {
      assert s[|name|] == ':' && ':' in s;
      assert s[..|s|] == s;
    }
    CutAtFirst(name, rest, s[..n], s[n + 1..], ':');
  }

  lemma EntryReads(name: string, groups: nat, users: Table)
    requires ':' !in name && groups < GUINT
    ensures ParseToken(Entry(name, groups), users) == users[name := groups]
  {
    hide Padded, StrToUL, Before;
    var rest := Padded(groups, 16, 4);
    BeforeColon(name, rest);
    PrintedNumber(groups);
    assert Entry(name, groups)[..|name|] == name;
    assert Entry(name, groups)[|name| + 1..] == rest;
  }

  lemma OneMoreUser(users: Table, order: seq<string>, base: Table)
    requires order != [] && forall name :: name in order ==> name in users
    ensures
      var n := |order| - 1;
      (base + (map name | name in order[..n] :: users[name]))[order[n] := users[order[n]]] ==
        base + (map name | name in order :: users[name])
  {
    var n := |order| - 1;
    assert forall name :: name in order <==> name in order[..n] || name == order[n];
  }

  lemma {:induction false} EntriesRead(users: Table, order: seq<string>, base: Table)
    requires forall name :: name in order ==> name in users && ':' !in name
    requires Fits(users)
    ensures ParseTokens(Entries(users, order), base) == base + (map name | name in order :: users[name])
  {
    hide Entry, ParseToken;
    if order != [] {
      var n := |order| - 1;
      EntriesRead(users, order[..n], base);
      EntryReads(order[n], users[order[n]], ParseTokens(Entries(users, order[..n]), base));
      assert Entries(users, order)[..n] == Entries(users, order[..n]);
      OneMoreUser(users, order, base);
    }
  }

  lemma EntryShape(name: string, groups: nat)
    requires ' ' !in name
    ensures ' ' !in Entry(name, groups) && Entry(name, groups) != ""
  {
    PaddedValue(groups, 16, 4);
    var s := Padded(groups, 16, 4);
    assert forall i :: 0 <= i < |s| ==> IsDigit(s[i], 16);
  }

  /** Printed users read back over a table: every one is entered, the others stay. */
  lemma PrintedUsersRead(users: Table, order: seq<string>, base: Table)
    requires IterationOrder(users, order) && Fits(users)
    requires forall name :: name in users ==> CleanName(name)
    ensures ParseUsers(PrintUsers(users, order), base) == base + users
  {
    hide Entry, Terminated, Split, ParseTokens;
    var entries := Entries(users, order);
    forall i | 0 <= i < |entries| ensures ' ' !in entries[i] && entries[i] != "" {
      EntryShape(order[i], users[order[i]]);
    }
    assert |entries| > 0 ==> entries[0] != [""][0];
    SplitOfTerminated(entries, ' ');
    EntriesRead(users, order, base);
    assert (map name | name in order :: users[name]) == users;
  }

  lemma {:induction false} ParsedNamesClean(tokens: seq<string>, users: Table)
    requires forall i :: 0 <= i < |tokens| ==> ' ' !in tokens[i]
    requires forall name :: name in users ==> CleanName(name)
    ensures forall name :: name in ParseTokens(tokens, users) ==> CleanName(name)
  {
    hide StrToUL;
    if tokens != [] {
      ParsedNamesClean(tokens[..|tokens| - 1], users);
      var token := tokens[|tokens| - 1];
      var e := Before(token, ':');
      assert ' ' !in token[..e];
    }
  }

  /** Stored and loaded into an empty table, a user table comes back, whatever the iteration order and also
      when it is empty, exactly if no name contains a space or a colon. */
  lemma RoundTripExactly(users: Table, order: seq<string>)
    requires IterationOrder(users, order) && Fits(users)
    ensures ParseUsers(PrintUsers(users, order), map[]) == users <==> forall name :: name in users ==> CleanName(name)
  {
    hide PrintUsers, Pieces, ParseTokens;
    var s := PrintUsers(users, order);
    PiecesClean(s, ' ');
    ParsedNamesClean(Split(s, ' '), map[]);
    if forall name :: name in users ==> CleanName(name) {
      PrintedUsersRead(users, order, map[]);
      assert map[] + users == users;
    }
  }

  // ---------------------------------------------------------------- the object

  class GssUser {
    var users: Table

    constructor ()
      ensures users == map[]
    {
      users := map[];
    }

    method ParseUsersString(s: string)
      modifies this
      ensures users == ParseUsers(s, old(users))
    {
      hide StrToUL, Split;
      var list := Split(s, ' ');
      var i := 0;
      while i < |list|
        invariant 0 <= i <= |list|
        invariant users == ParseTokens(list[..i], old(users))
      {
        var token := list[i];
        var e := Before(token, ':');
        if e < |token| {
          var (groups, used) := StrToUL(token[e + 1..]);
          if used > 0 {
            users := users[token[..e] := groups % GUINT];
          }
        }
        assert list[..i + 1][..i] == list[..i];
        i := i + 1;
      }
      assert list[..i] == list;
    }

    method GetString(order: seq<string>) returns (s: string)
      requires IterationOrder(users, order)
      ensures s == PrintUsers(users, order)
    {
      s := "";
      var i := 0;
      while i < |order|
        invariant 0 <= i <= |order|
        invariant s == Terminated(Entries(users, order)[..i], ' ')
      {
        ghost var entries := Entries(users, order);
        TerminatedAppend(entries[..i], [entries[i]], ' ');
        assert entries[..i + 1] == entries[..i] + [entries[i]];
        assert Terminated([entries[i]], ' ') == entries[i] + " ";
        s := s + (order[i] + ":" + Padded(users[order[i]], 16, 4) + " ");
        i := i + 1;
      }
      assert Entries(users, order)[..i] == Entries(users, order);
      s := DropLast(s);
    }

    /** The property's setter: the stored string replaces the table. */
    method SetUsers(s: string)
      modifies this
      ensures users == ParseUsers(s, map[])
    {
      users := map[];
      ParseUsersString(s);
    }
  }
}
