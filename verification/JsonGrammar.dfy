/** Exactly which texts the strict reader takes, and as which values: the grammar of RFC 8259 without
    fractions and exponents, with 64-bit integers, whole surrogate pairs and no repeated key. */
module JsonGrammar {
  import opened Wrappers
  import opened JsonText
  import opened JsonForm
  import Text

  // ----- strings

  /** The character is a hexadecimal digit of this value, in either case. */
  predicate HexDigit(c: char, d: int) {
    (0 <= d < 10 && c as int == 0x30 + d) || (10 <= d < 16 && (c as int == 0x41 + d - 10 || c as int == 0x61 + d - 10))
  }

  /** Four hexadecimal digits, the value of each given. */
  predicate HexDigits(t: string, a: int, b: int, c: int, d: int) {
    |t| == 4 && HexDigit(t[0], a) && HexDigit(t[1], b) && HexDigit(t[2], c) && HexDigit(t[3], d)
  }

  ghost predicate HexNumber(t: string, n: int) {
    exists a, b, c, d :: HexDigits(t, a, b, c, d) && n == a * 0x1000 + b * 0x100 + c * 0x10 + d
  }

  predicate PlainChar(c: char, t: string) {
    t == [c] && 0x20 <= c as int && c != '\"' && c != '\\'
  }

  predicate ShortEscape(c: char, t: string) {
    || (t == "\\\"" && c == '\"') || (t == "\\\\" && c == '\\') || (t == "\\/" && c == '/')
    || (t == "\\b" && c as int == 8) || (t == "\\f" && c as int == 12) || (t == "\\n" && c as int == 10)
    || (t == "\\r" && c as int == 13) || (t == "\\t" && c as int == 9)
  }

  ghost predicate UnitEscape(c: char, t: string) {
    exists digits :: HexNumber(digits, c as int) && t == "\\u" + digits
  }

  ghost predicate PairAt(c: char, high: string, low: string, hi: int, lo: int) {
    SurrogatesOf(c as int, hi, lo) && HexNumber(high, hi) && HexNumber(low, lo)
  }

  ghost predicate PairEscape(c: char, t: string) {
    exists high, low, hi, lo :: PairAt(c, high, low, hi, lo) && t == "\\u" + (high + ("\\u" + low))
  }

  /** The ways to write a character inside a string. */
  ghost predicate CharSpelling(c: char, t: string) {
    PlainChar(c, t) || ShortEscape(c, t) || UnitEscape(c, t) || PairEscape(c, t)
  }

  ghost predicate Spells(s: string, parts: seq<string>) {
    |parts| == |s| && forall i :: 0 <= i < |s| ==> CharSpelling(s[i], parts[i])
  }

  ghost predicate TextSpelling(s: string, t: string) {
    exists parts :: Spells(s, parts) && t == "\"" + Concat(parts) + "\""
  }

  // ----- reading characters

  lemma HexDigitIs(c: char, d: int)
    ensures HexValue(c) == Some(d) <==> HexDigit(c, d)
  {
  }

  lemma DigitsRead(t: string, a: int, b: int, c: int, d: int, rest: string)
    requires HexDigits(t, a, b, c, d)
    ensures ReadHex4(t + rest) == Some((a * 4096 + b * 256 + c * 16 + d, rest))
  {
    HexDigitIs(t[0], a);
    HexDigitIs(t[1], b);
    HexDigitIs(t[2], c);
    HexDigitIs(t[3], d);
    assert (t + rest)[4..] == rest;
    assert (t + rest)[0] == t[0] && (t + rest)[1] == t[1] && (t + rest)[2] == t[2] && (t + rest)[3] == t[3];
  }

  lemma HexReads(t: string, n: int, rest: string)
    requires HexNumber(t, n)
    ensures ReadHex4(t + rest) == Some((n, rest))
  {
    var a, b, c, d :| HexDigits(t, a, b, c, d) && n == a * 0x1000 + b * 0x100 + c * 0x10 + d;
    DigitsRead(t, a, b, c, d, rest);
  }

  lemma HexRead(s: string)
    requires ReadHex4(s).Some?
    ensures |s| >= 4 && ReadHex4(s).value.1 == s[4..] && HexNumber(s[..4], ReadHex4(s).value.0)
  {
    var t := s[..4];
    var a, b, c, d := HexValue(s[0]).value, HexValue(s[1]).value, HexValue(s[2]).value, HexValue(s[3]).value;
    HexDigitIs(s[0], a);
    HexDigitIs(s[1], b);
    HexDigitIs(s[2], c);
    HexDigitIs(s[3], d);
    assert HexDigits(t, a, b, c, d);
  }

  /** A string that goes on with this text, whose rest is read as more. */
  ghost predicate ReadsOn(t: string, c: char, more: string) {
    ReadString(more).Some? ==> ReadString(t + more) == Some(([c] + ReadString(more).value.0, ReadString(more).value.1))
  }

  lemma EscapeOn(e: string, c: char, more: string)
    requires ReadEscape(e + more) == Some((c, more))
    ensures ReadsOn("\\" + e, c, more)
  {
    assert ("\\" + e + more)[1..] == e + more;
  }

  lemma UnitOn(c: char, t: string, more: string)
    requires UnitEscape(c, t)
    ensures ReadsOn(t, c, more)
  {
    var digits :| HexNumber(digits, c as int) && t == "\\u" + digits;
    HexReads(digits, c as int, more);
    UnitReads(digits + more, c, more);
    assert "u" + digits + more == "u" + (digits + more);
    EscapeOn("u" + digits, c, more);
    assert t == "\\" + ("u" + digits);
  }

  lemma UnitReads(s: string, c: char, more: string)
    requires ReadHex4(s) == Some((c as int, more))
    ensures ReadEscape("u" + s) == Some((c, more))
  {
    assert ("u" + s)[1..] == s;
  }

  lemma PairReads(s: string, after: string, hi: int, lo: int, more: string, c: char)
    requires SurrogatesOf(c as int, hi, lo)
    requires ReadHex4(s) == Some((hi, "\\u" + after)) && ReadHex4(after) == Some((lo, more))
    ensures ReadEscape("u" + s) == Some((c, more))
  {
    assert ("u" + s)[1..] == s;
    assert ("\\u" + after)[2..] == after;
    assert (0x10000 + (hi - 0xD800) * 1024 + (lo - 0xDC00)) as char == c;
  }

  lemma Regrouped(high: string, low: string, more: string)
    ensures "u" + (high + ("\\u" + low)) + more == "u" + (high + ("\\u" + (low + more)))
    ensures "\\u" + (high + ("\\u" + low)) == "\\" + ("u" + (high + ("\\u" + low)))
  {
  }

  lemma PairOn(c: char, t: string, more: string)
    requires PairEscape(c, t)
    ensures ReadsOn(t, c, more)
  {
    var high, low, hi, lo :| PairAt(c, high, low, hi, lo) && t == "\\u" + (high + ("\\u" + low));
    HexReads(low, lo, more);
    HexReads(high, hi, "\\u" + (low + more));
    PairReads(high + ("\\u" + (low + more)), low + more, hi, lo, more, c);
    Regrouped(high, low, more);
    EscapeOn("u" + (high + ("\\u" + low)), c, more);
  }

  lemma ShortOn(c: char, t: string, more: string)
    requires ShortEscape(c, t)
    ensures ReadsOn(t, c, more)
  {
    var e := t[1..];
    assert t == "\\" + e && |e| == 1;
    assert (e + more)[1..] == more && (e + more)[0] == e[0];
    EscapeOn(e, c, more);
  }

  lemma PlainOn(c: char, t: string, more: string)
    requires PlainChar(c, t)
    ensures ReadsOn(t, c, more)
  {
    assert (t + more)[1..] == more;
  }

  lemma CharOn(c: char, t: string, more: string)
    requires CharSpelling(c, t)
    ensures ReadsOn(t, c, more)
  {
    if PlainChar(c, t) {
      PlainOn(c, t, more);
    } else if ShortEscape(c, t) {
      ShortOn(c, t, more);
    } else if UnitEscape(c, t) {
      UnitOn(c, t, more);
    } else {
      PairOn(c, t, more);
    }
  }

  lemma {:induction false} TextReads(s: string, parts: seq<string>, rest: string)
    requires Spells(s, parts)
    ensures ReadString(Concat(parts) + "\"" + rest) == Some((s, rest))
    decreases |s|
  {
    if s == "" {
      assert ("" + "\"" + rest)[1..] == rest;
    } else {
      var more := Concat(parts[1..]) + "\"" + rest;
      TextReads(s[1..], parts[1..], rest);
      CharOn(s[0], parts[0], more);
      assert Concat(parts) + "\"" + rest == parts[0] + more;
      assert [s[0]] + s[1..] == s;
    }
  }

  // ----- and back

  /** What an escape reads as, it spells. */
  lemma EscapeSpells(s: string) returns (e: string)
    requires ReadEscape(s).Some?
    ensures s == e + ReadEscape(s).value.1 && CharSpelling(ReadEscape(s).value.0, "\\" + e)
  {
    if s[0] == 'u' {
      HexRead(s[1..]);
      var n := ReadHex4(s[1..]).value.0;
      if 0xD800 <= n < 0xDC00 { e := PairSpells(s); } else { e := UnitSpells(s); }
    } else {
      e := s[..1];
      assert ShortEscape(ReadEscape(s).value.0, "\\" + e);
      assert s == e + s[1..];
    }
  }

  lemma UnitSpells(s: string) returns (e: string)
    requires ReadEscape(s).Some? && s[0] == 'u' && ReadHex4(s[1..]).Some? && !(0xD800 <= ReadHex4(s[1..]).value.0 < 0xDC00)
    ensures s == e + ReadEscape(s).value.1 && UnitEscape(ReadEscape(s).value.0, "\\" + e)
  {
    HexRead(s[1..]);
    var digits := s[1..][..4];
    e := "u" + digits;
    assert "\\" + e == "\\u" + digits;
    assert s == "u" + s[1..] && s[1..] == digits + s[1..][4..];
  }

  lemma PairSpells(s: string) returns (e: string)
    requires ReadEscape(s).Some? && s[0] == 'u' && ReadHex4(s[1..]).Some? && 0xD800 <= ReadHex4(s[1..]).value.0 < 0xDC00
    ensures s == e + ReadEscape(s).value.1 && PairEscape(ReadEscape(s).value.0, "\\" + e)
  {
    HexRead(s[1..]);
    var (hi, rest) := ReadHex4(s[1..]).value;
    var after := rest[2..];
    HexRead(after);
    var (lo, more) := ReadHex4(after).value;
    var high, low := s[1..][..4], after[..4];
    e := "u" + (high + ("\\u" + low));
    assert PairAt(ReadEscape(s).value.0, high, low, hi, lo);
    assert "\\" + e == "\\u" + (high + ("\\u" + low));
    assert s == "u" + (high + rest) && rest == "\\u" + after && after == low + more;
  }

  /** One more character in front: its spelling t, then the rest of the string. */
  lemma {:induction false} SpellsMore(c: char, t: string, text: string, tail: seq<string>, rest: string, more: string)
    requires CharSpelling(c, t) && Spells(text, tail) && rest == Concat(tail) + "\"" + more
    ensures Spells([c] + text, [t] + tail) && t + rest == Concat([t] + tail) + "\"" + more
  {
    assert ([t] + tail)[1..] == tail;
  }

  lemma {:induction false} Escaped(s: string, e: string, c: char, rest: string, text: string, tail: seq<string>, more: string)
    requires s != [] && s[0] == '\\' && s[1..] == e + rest && CharSpelling(c, "\\" + e)
    requires Spells(text, tail) && rest == Concat(tail) + "\"" + more
    ensures Spells([c] + text, ["\\" + e] + tail) && s == Concat(["\\" + e] + tail) + "\"" + more
  {
    SpellsMore(c, "\\" + e, text, tail, rest, more);
    assert s == "\\" + (e + rest) == "\\" + e + rest;
  }

  lemma {:induction false} Unescaped(s: string, text: string, tail: seq<string>, more: string)
    requires s != [] && 0x20 <= s[0] as int && s[0] != '\"' && s[0] != '\\'
    requires Spells(text, tail) && s[1..] == Concat(tail) + "\"" + more
    ensures Spells([s[0]] + text, [[s[0]]] + tail) && s == Concat([[s[0]]] + tail) + "\"" + more
  {
    assert PlainChar(s[0], [s[0]]);
    SpellsMore(s[0], [s[0]], text, tail, s[1..], more);
    assert s == [s[0]] + s[1..];
  }

  ghost predicate Spelled(s: string, text: string, more: string) {
    exists parts :: Spells(text, parts) && s == Concat(parts) + "\"" + more
  }

  /** What is read as a string is a spelling of it and its closing quote. */
  lemma {:induction false} TextSpells(s: string)
    requires ReadString(s).Some?
    ensures Spelled(s, ReadString(s).value.0, ReadString(s).value.1)
    decreases |s|
  {
    var more := ReadString(s).value.1;
    if s[0] == '\"' {
      assert Spells("", []) && s == "" + "\"" + s[1..];
    } else if s[0] == '\\' {
      var r := ReadEscape(s[1..]).value;
      TextSpells(r.1);
      EscapeMore(s, r.0, r.1, ReadString(r.1).value.0, more);
    } else {
      TextSpells(s[1..]);
      PlainMore(s, ReadString(s[1..]).value.0, more);
    }
  }

  lemma EscapeMore(s: string, c: char, rest: string, text: string, more: string)
    requires s != [] && s[0] == '\\' && ReadEscape(s[1..]) == Some((c, rest)) && Spelled(rest, text, more)
    ensures Spelled(s, [c] + text, more)
  {
    var e := EscapeSpells(s[1..]);
    var tail :| Spells(text, tail) && rest == Concat(tail) + "\"" + more;
    Escaped(s, e, c, rest, text, tail, more);
  }

  lemma PlainMore(s: string, text: string, more: string)
    requires s != [] && 0x20 <= s[0] as int && s[0] != '\"' && s[0] != '\\' && Spelled(s[1..], text, more)
    ensures Spelled(s, [s[0]] + text, more)
  {
    var tail :| Spells(text, tail) && s[1..] == Concat(tail) + "\"" + more;
    Unescaped(s, text, tail, more);
  }

  // ----- whole strings

  /** A spelling is read as its text, whatever follows. */
  lemma QuotedReads(s: string, t: string, rest: string)
    requires TextSpelling(s, t)
    ensures ReadsQuoted(t + rest, s, rest)
  {
    var parts :| Spells(s, parts) && t == "\"" + Concat(parts) + "\"";
    TextReads(s, parts, rest);
    assert (t + rest)[1..] == Concat(parts) + "\"" + rest;
  }

  predicate ReadsQuoted(s: string, text: string, rest: string) {
    s != [] && s[0] == '\"' && ReadString(s[1..]) == Some((text, rest))
  }

  /** And whatever is read is a spelling of it. */
  lemma QuotedSpells(s: string, text: string, rest: string) returns (t: string)
    requires ReadsQuoted(s, text, rest)
    ensures TextSpelling(text, t) && s == t + rest
  {
    TextSpells(s[1..]);
    var parts :| Spells(text, parts) && s[1..] == Concat(parts) + "\"" + rest;
    t := "\"" + Concat(parts) + "\"";
    assert s == "\"" + s[1..];
  }
}
