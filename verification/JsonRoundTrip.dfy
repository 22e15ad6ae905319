/** Reading what was printed gives the value back, so printing is injective. */
module JsonRoundTrip {
  import opened Wrappers
  import opened JsonText

  // ----- strings

  lemma HexDigit(d: int)
    requires 0 <= d < 16
    ensures HexValue(Digit(d)) == Some(d)
  {
    assert d == 0 || d == 1 || d == 2 || d == 3 || d == 4 || d == 5 || d == 6 || d == 7
        || d == 8 || d == 9 || d == 10 || d == 11 || d == 12 || d == 13 || d == 14 || d == 15;
  }

  lemma Hex4Split(n: int)
    requires 0 <= n < 0x10000
    ensures n / 4096 < 16
    ensures n / 4096 * 4096 + n / 256 % 16 * 256 + n / 16 % 16 * 16 + n % 16 == n
  {
  }

  lemma ReadPrintedHex4(n: int, rest: string)
    requires 0 <= n < 0x10000
    ensures ReadHex4(Hex4(n) + rest) == Some((n, rest))
  {
    Hex4Split(n);
    HexDigit(n / 4096);
    HexDigit(n / 256 % 16);
    HexDigit(n / 16 % 16);
    HexDigit(n % 16);
    assert (Hex4(n) + rest)[4..] == rest;
  }

  lemma Assoc(a: string, b: string, c: string)
    ensures a + b + c == a + (b + c)
  {
  }

  /** Two four-digit groups that read as a surrogate pair. */
  lemma PairRead(high: string, low: string, hi: int, lo: int, rest: string)
    requires |high| == 4 && 0xD800 <= hi < 0xDC00 && 0xDC00 <= lo < 0xE000
    requires ReadHex4(high + ("\\u" + (low + rest))) == Some((hi, "\\u" + (low + rest)))
    requires ReadHex4(low + rest) == Some((lo, rest))
    ensures ReadEscape("u" + (high + ("\\u" + (low + rest)))) == Some(((0x10000 + (hi - 0xD800) * 1024 + (lo - 0xDC00)) as char, rest))
  {
    assert ("u" + (high + ("\\u" + (low + rest))))[1..] == high + ("\\u" + (low + rest));
    assert ("\\u" + (low + rest))[2..] == low + rest;
  }

  lemma PairCode(c: char)
    requires 0x10000 <= c as int
    ensures var v := c as int - 0x10000;
            && 0xD800 <= 0xD800 + v / 1024 < 0xDC00 && 0xDC00 <= 0xDC00 + v % 1024 < 0xE000
            && (0x10000 + (0xD800 + v / 1024 - 0xD800) * 1024 + (0xDC00 + v % 1024 - 0xDC00)) as char == c
  {
  }

  lemma ReadPair(c: char, rest: string)
    requires 0x10000 <= c as int
    ensures var v := c as int - 0x10000;
            ReadEscape("u" + (Hex4(0xD800 + v / 1024) + ("\\u" + (Hex4(0xDC00 + v % 1024) + rest)))) == Some((c, rest))
  {
    PairCode(c);
    var v := c as int - 0x10000;
    var hi, lo := 0xD800 + v / 1024, 0xDC00 + v % 1024;
    ReadPrintedHex4(hi, "\\u" + (Hex4(lo) + rest));
    ReadPrintedHex4(lo, rest);
    PairRead(Hex4(hi), Hex4(lo), hi, lo, rest);
  }

  lemma ReadSingle(c: char, rest: string)
    requires (c as int) < 0x10000
    ensures ReadEscape("u" + (Hex4(c as int) + rest)) == Some((c, rest))
  {
    assert ("u" + (Hex4(c as int) + rest))[1..] == Hex4(c as int) + rest;
    ReadPrintedHex4(c as int, rest);
  }

  /** A backslash and an escape that reads as c put c in front of the rest of the string. */
  lemma {:induction false} EscapeRead(e: string, c: char, t: string)
    requires ReadEscape(e) == Some((c, t)) && ReadString(t).Some?
    ensures ReadString("\\" + e) == Some(([c] + ReadString(t).value.0, ReadString(t).value.1))
  {
    assert ("\\" + e)[1..] == e;
  }

  lemma ReadShort(c: char, t: string)
    requires |EscapeChar(c)| == 2
    ensures EscapeChar(c)[0] == '\\' && ReadEscape([EscapeChar(c)[1]] + t) == Some((c, t))
  {
    assert ([EscapeChar(c)[1]] + t)[1..] == t;
  }

  lemma {:induction false} ReadPlain(c: char, t: string)
    requires 32 <= c as int && c != '\"' && c != '\\' && ReadString(t).Some?
    ensures ReadString([c] + t) == Some(([c] + ReadString(t).value.0, ReadString(t).value.1))
  {
    assert ([c] + t)[1..] == t;
  }

  lemma LongEscape(c: char)
    requires |EscapeChar(c)| != 1 && |EscapeChar(c)| != 2
    ensures (c as int) < 0x10000 ==> EscapeChar(c) == "\\u" + Hex4(c as int)
    ensures 0x10000 <= c as int ==>
              var v := c as int - 0x10000;
              EscapeChar(c) == "\\u" + Hex4(0xD800 + v / 1024) + "\\u" + Hex4(0xDC00 + v % 1024)
  {
  }

  lemma PlainEscape(c: char)
    requires |EscapeChar(c)| == 1
    ensures EscapeChar(c) == [c] && 32 <= c as int && c != '\"' && c != '\\'
  {
  }

  lemma Regroup(a: string, b: string, t: string)
    ensures "\\u" + a + "\\u" + b + t == "\\" + ("u" + (a + ("\\u" + (b + t))))
    ensures "\\u" + a + t == "\\" + ("u" + (a + t))
  {
  }

  /** One printed character is read back, whatever follows it. */
  lemma {:induction false} ReadChar(c: char, t: string)
    requires ReadString(t).Some?
    ensures ReadString(EscapeChar(c) + t) == Some(([c] + ReadString(t).value.0, ReadString(t).value.1))
  {
    if |EscapeChar(c)| == 1 {
      PlainEscape(c);
      ReadPlain(c, t);
    } else if |EscapeChar(c)| == 2 {
      ReadShort(c, t);
      EscapeRead([EscapeChar(c)[1]] + t, c, t);
      assert EscapeChar(c) + t == "\\" + ([EscapeChar(c)[1]] + t);
    } else {
      LongEscape(c);
      ReadLong(c, t);
    }
  }

  lemma {:induction false} ReadBasic(c: char, e: string, t: string)
    requires ReadString(t).Some? && (c as int) < 0x10000 && e == "\\u" + Hex4(c as int)
    ensures ReadString(e + t) == Some(([c] + ReadString(t).value.0, ReadString(t).value.1))
  {
    var body := "u" + (Hex4(c as int) + t);
    ReadSingle(c, t);
    EscapeRead(body, c, t);
    Regroup(Hex4(c as int), "", t);
    assert e + t == "\\" + body;
  }

  lemma {:induction false} ReadAstral(c: char, high: string, low: string, t: string)
    requires ReadString(t).Some? && 0x10000 <= c as int
    requires var v := c as int - 0x10000; high == Hex4(0xD800 + v / 1024) && low == Hex4(0xDC00 + v % 1024)
    ensures ReadString("\\u" + high + "\\u" + low + t) == Some(([c] + ReadString(t).value.0, ReadString(t).value.1))
  {
    ReadPair(c, t);
    EscapeRead("u" + (high + ("\\u" + (low + t))), c, t);
    Regroup(high, low, t);
  }

  lemma {:induction false} ReadLong(c: char, t: string)
    requires ReadString(t).Some? && |EscapeChar(c)| != 1 && |EscapeChar(c)| != 2
    ensures ReadString(EscapeChar(c) + t) == Some(([c] + ReadString(t).value.0, ReadString(t).value.1))
  {
    LongEscape(c);
    if (c as int) < 0x10000 {
      ReadBasic(c, EscapeChar(c), t);
    } else {
      var v := c as int - 0x10000;
      ReadAstral(c, Hex4(0xD800 + v / 1024), Hex4(0xDC00 + v % 1024), t);
    }
  }

  lemma {:induction false} ReadPrintedString(s: string, rest: string)
    ensures ReadString(Escape(s) + "\"" + rest) == Some((s, rest))
  {
    if s == [] {
      assert Escape(s) + "\"" + rest == "\"" + rest;
    } else {
      ReadPrintedString(s[1..], rest);
      var t := Escape(s[1..]) + "\"" + rest;
      ReadChar(s[0], t);
      assert Escape(s) + "\"" + rest == EscapeChar(s[0]) + t;
      assert [s[0]] + s[1..] == s;
    }
  }

  // ----- integers

  /** What may follow a number without changing it. */
  predicate Delimited(rest: string) {
    rest == [] || IsSpace(rest[0]) || rest[0] == ',' || rest[0] == ']' || rest[0] == '}'
  }

  lemma {:induction false} NatTextFacts(n: nat)
    ensures forall i :: 0 <= i < |NatText(n)| ==> IsDigit(NatText(n)[i])
    ensures DigitsValue(NatText(n)) == n
    ensures NatText(n)[0] == '0' <==> n == 0
    ensures n == 0 ==> |NatText(n)| == 1
  {
    if n < 10 {
      assert NatText(n)[..0] == [];
      assert n == 0 || n == 1 || n == 2 || n == 3 || n == 4 || n == 5 || n == 6 || n == 7 || n == 8 || n == 9;
    } else {
      NatTextFacts(n / 10);
      var d := n % 10;
      assert d == 0 || d == 1 || d == 2 || d == 3 || d == 4 || d == 5 || d == 6 || d == 7 || d == 8 || d == 9;
      assert NatText(n)[..|NatText(n)| - 1] == NatText(n / 10);
    }
  }

  function Pow10(k: nat): (p: nat)
    ensures 1 <= p
  {
    if k == 0 then 1 else 10 * Pow10(k - 1)
  }

  lemma {:induction false} NatTextLength(n: nat, k: nat)
    requires 1 <= k && n < Pow10(k)
    ensures |NatText(n)| <= k
  {
    if 10 <= n {
      assert Pow10(k) == 10 * Pow10(k - 1) && Pow10(0) == 1;
      NatTextLength(n / 10, k - 1);
    }
  }

  /** A signed 64-bit integer prints in at most twenty characters. */
  lemma IntTextLength(n: int)
    requires -INT_LIMIT <= n < INT_LIMIT
    ensures |IntText(n)| <= MAX_INT_CHARS
  {
    Pow10Is19();
    NatTextLength(if n < 0 then -n else n, 19);
  }

  lemma Pow10Is19()
    ensures Pow10(19) == 10_000_000_000_000_000_000
  {
    assert Pow10(5) == 100_000;
    assert Pow10(10) == 10_000_000_000;
    assert Pow10(15) == 1_000_000_000_000_000;
  }

  lemma {:induction false} DigitsRun(t: string, rest: string)
    requires forall i :: 0 <= i < |t| ==> IsDigit(t[i])
    requires rest == [] || !IsDigit(rest[0])
    ensures Digits(t + rest) == |t|
  {
    if t == [] {
      assert t + rest == rest;
    } else {
      assert (t + rest)[1..] == t[1..] + rest;
      DigitsRun(t[1..], rest);
    }
  }

  /** A run of digits with no superfluous zero is one integer. */
  lemma ReadDigits(t: string, negative: bool, rest: string)
    requires t != [] && (forall i :: 0 <= i < |t| ==> IsDigit(t[i])) && Digits(t + rest) == |t|
    requires (t[0] == '0' ==> |t| == 1) && Delimited(rest)
    requires |t| + (if negative then 1 else 0) <= MAX_INT_CHARS
    requires var m: int := DigitsValue(t); -INT_LIMIT <= (if negative then -m else m) < INT_LIMIT
    ensures var m: int := DigitsValue(t);
            ReadNumber((if negative then "-" else "") + (t + rest)) == Some((Num(if negative then -m else m), rest))
  {
    var s := (if negative then "-" else "") + (t + rest);
    if negative { assert s[1..] == t + rest; } else { assert s == t + rest; }
    assert (t + rest)[|t|..] == rest && (t + rest)[..|t|] == t && IsDigit(t[0]) && (t + rest)[0] == t[0];
  }

  lemma ReadPrintedInt(n: int, rest: string)
    requires -INT_LIMIT <= n < INT_LIMIT && Delimited(rest)
    ensures ReadNumber(IntText(n) + rest) == Some((Num(n), rest))
  {
    var m := if n < 0 then -n else n;
    var t := NatText(m);
    NatTextFacts(m);
    IntTextLength(n);
    DigitsRun(t, rest);
    ReadDigits(t, n < 0, rest);
    SignText(n, t, rest);
  }

  lemma {:induction false} SignText(n: int, t: string, rest: string)
    requires t == NatText(if n < 0 then -n else n)
    ensures IntText(n) + rest == (if n < 0 then "-" else "") + (t + rest)
  {
    if n < 0 { Assoc("-", t, rest); } else { assert "" + (t + rest) == t + rest; }
  }

  // ----- values

  /** Every integer anywhere in the value is a signed 64-bit one. */
  predicate Encodable(j: Json) {
    match j
    case Num(n) => -INT_LIMIT <= n < INT_LIMIT
    case Arr(items) => forall x <- items :: Encodable(x)
    case Obj(fields) => forall k <- fields :: Encodable(fields[k])
    case _ => true
  }

  /** A printed value starts with a character that is neither space nor a closing bracket. */
  lemma {:induction false} PrintStart(j: Json)
    ensures Print(j) != [] && !IsSpace(Print(j)[0]) && Print(j)[0] != ']' && Print(j)[0] != '}'
  {
    if j.Num? {
      var m := if j.n < 0 then -j.n else j.n;
      NatTextFacts(m);
      assert IsDigit(NatText(m)[0]);
    }
  }

  lemma {:induction false} SkipNothing(s: string)
    requires s == [] || !IsSpace(s[0])
    ensures SkipSpace(s) == s
  {
  }

  /** The pairs of an object in the order of keys. */
  function Pairs(j: Json, keys: seq<string>): (ps: seq<(string, Json)>)
    requires j.Obj? && forall k <- keys :: k in j.fields
    ensures |ps| == |keys| && forall i :: 0 <= i < |keys| ==> ps[i] == (keys[i], j.fields[keys[i]])
  {
    seq(|keys|, i requires 0 <= i < |keys| => (keys[i], j.fields[keys[i]]))
  }

  lemma {:induction false} PairsUnique(j: Json, keys: seq<string>)
    requires j.Obj? && (forall k <- keys :: k in j.fields)
    requires forall a, b :: 0 <= a < b < |keys| ==> keys[a] != keys[b]
    ensures UniqueObject(Pairs(j, keys)).Some?
    ensures UniqueObject(Pairs(j, keys)).value == map k | k in keys :: j.fields[k]
    decreases |keys|
  {
    var ps := Pairs(j, keys);
    if keys != [] {
      var init := keys[..|keys| - 1];
      PairsUnique(j, init);
      assert ps[..|ps| - 1] == Pairs(j, init);
      assert keys == init + [keys[|keys| - 1]];
    }
  }

  lemma SortedPairs(j: Json)
    requires j.Obj?
    ensures UniqueObject(Pairs(j, Sorted(j.fields.Keys))) == Some(j.fields)
  {
    var keys := Sorted(j.fields.Keys);
    forall a, b | 0 <= a < b < |keys| ensures keys[a] != keys[b] {
      BeforeTotal(keys[a], keys[a]);
    }
    PairsUnique(j, keys);
    assert (map k | k in keys :: j.fields[k]) == j.fields;
  }

  lemma {:induction false} ReadPrinted(j: Json, rest: string)
    requires Encodable(j) && Delimited(rest)
    ensures ReadValue(Print(j) + rest) == Some((j, rest))
    decreases j, 2
  {
    match j
    case Null => assert ("null" + rest)[..4] == "null" && ("null" + rest)[4..] == rest;
    case Bool(b) => ReadPrintedBool(b, rest);
    case Num(n) => ReadPrintedNumber(n, rest);
    case Str(t) =>
      ReadPrintedKey(t, rest);
    case Arr(items) => ReadPrintedArray(j, rest);
    case Obj(fields) => ReadPrintedObject(j, rest);
  }

  lemma {:induction false} ReadPrintedBool(b: bool, rest: string)
    ensures ReadValue(Print(Bool(b)) + rest) == Some((Bool(b), rest))
  {
    if b {
      assert ("true" + rest)[..4] == "true" && ("true" + rest)[4..] == rest;
    } else {
      assert ("false" + rest)[..5] == "false" && ("false" + rest)[5..] == rest;
      assert ("false" + rest)[..4] == "fals";
    }
  }

  lemma NotStarting(s: string, p: string)
    requires s != [] && p != [] && s[0] != p[0]
    ensures !StartsWith(s, p)
  {
    if |p| <= |s| { assert s[..|p|][0] == s[0]; }
  }

  lemma {:induction false} NumberStart(s: string)
    requires s != [] && (s[0] == '-' || IsDigit(s[0]))
    ensures ReadValue(s) == ReadNumber(s)
  {
    NotStarting(s, "null");
    NotStarting(s, "true");
    NotStarting(s, "false");
  }

  lemma {:induction false} ReadPrintedNumber(n: int, rest: string)
    requires -INT_LIMIT <= n < INT_LIMIT && Delimited(rest)
    ensures ReadValue(IntText(n) + rest) == Some((Num(n), rest))
  {
    var m := if n < 0 then -n else n;
    NatTextFacts(m);
    assert IsDigit(NatText(m)[0]);
    ReadPrintedInt(n, rest);
    NumberStart(IntText(n) + rest);
  }

  /** An array text is read by reading its items. */
  lemma {:induction false} ArrayRead(body: string, items: seq<Json>, rest: string)
    requires body != [] && SkipSpace(body) == body && body[0] != ']' && ReadItems(body) == Some((items, rest))
    ensures ReadValue("[" + body) == Some((Arr(items), rest))
  {
    assert ("[" + body)[1..] == body;
  }

  lemma {:induction false} ReadPrintedArray(j: Json, rest: string)
    requires j.Arr? && Encodable(j) && Delimited(rest)
    ensures ReadValue(Print(j) + rest) == Some((j, rest))
    decreases j, 1
  {
    var body := PrintItems(j.items) + ("]" + rest);
    assert Print(j) + rest == "[" + body;
    if j.items == [] {
      assert body == "]" + rest;
      SkipNothing(body);
      assert ("[" + body)[1..] == body && body[1..] == rest;
    } else {
      ItemsStart(j.items, "]" + rest);
      ReadPrintedItems(j.items, rest);
      ArrayRead(body, j.items, rest);
    }
  }

  lemma {:induction false} ItemsStart(items: seq<Json>, rest: string)
    requires items != []
    ensures var t := PrintItems(items) + rest;
            t != [] && SkipSpace(t) == t && t[0] != ']' && t[0] != '}'
  {
    PrintStart(items[0]);
    assert PrintItems(items)[0] == Print(items[0])[0];
    SkipNothing(PrintItems(items) + rest);
  }

  lemma {:induction false} LastItem(s: string, v: Json, rest: string)
    requires ReadValue(s) == Some((v, "]" + rest))
    ensures ReadItems(s) == Some(([v], rest))
  {
    SkipNothing("]" + rest);
    assert ("]" + rest)[1..] == rest;
  }

  lemma {:induction false} NextItem(s: string, v: Json, more: string, tail: seq<Json>, rest: string)
    requires ReadValue(s) == Some((v, "," + more)) && SkipSpace(more) == more && ReadItems(more) == Some((tail, rest))
    ensures ReadItems(s) == Some(([v] + tail, rest))
  {
    SkipNothing("," + more);
    assert ("," + more)[1..] == more;
  }

  lemma JoinSplit(a: string, b: string, c: string)
    ensures a + "," + b + c == a + ("," + (b + c))
  {
  }

  lemma FieldSplit(k: string, v: string, c: string)
    ensures k + ":" + v + c == k + (":" + (v + c))
  {
  }

  lemma {:induction false} ReadPrintedItems(items: seq<Json>, rest: string)
    requires items != [] && forall x <- items :: Encodable(x)
    ensures ReadItems(PrintItems(items) + ("]" + rest)) == Some((items, rest))
    decreases items, 1
  {
    if |items| == 1 {
      ReadPrinted(items[0], "]" + rest);
      LastItem(Print(items[0]) + ("]" + rest), items[0], rest);
      assert items == [items[0]];
    } else {
      var more := PrintItems(items[1..]) + ("]" + rest);
      ReadPrinted(items[0], "," + more);
      ItemsStart(items[1..], "]" + rest);
      ReadPrintedItems(items[1..], rest);
      NextItem(Print(items[0]) + ("," + more), items[0], more, items[1..], rest);
      JoinSplit(Print(items[0]), PrintItems(items[1..]), "]" + rest);
      assert items == [items[0]] + items[1..];
    }
  }

  /** An object text is read by reading its members and building them into a map. */
  lemma {:induction false} ObjectRead(body: string, pairs: seq<(string, Json)>, fields: map<string, Json>, rest: string)
    requires body != [] && body[0] == '\"' && ReadMembers(body) == Some((pairs, rest))
    requires UniqueObject(pairs) == Some(fields)
    ensures ReadValue("{" + body) == Some((Obj(fields), rest))
  {
    SkipNothing(body);
    assert ("{" + body)[1..] == body;
  }

  lemma {:induction false} BraceRead(rest: string)
    ensures ReadValue("{" + ("}" + rest)) == Some((Obj(map[]), rest))
  {
    SkipNothing("}" + rest);
    assert ("{" + ("}" + rest))[1..] == "}" + rest;
    assert ("}" + rest)[1..] == rest;
  }

  lemma {:induction false} ObjectText(j: Json, rest: string)
    requires j.Obj?
    ensures Print(j) + rest == "{" + (PrintFields(j, Sorted(j.fields.Keys)) + ("}" + rest))
  {
    var fields := PrintFields(j, Sorted(j.fields.Keys));
    Assoc("{" + fields, "}", rest);
    Assoc("{", fields, "}" + rest);
  }

  lemma NoFields(j: Json)
    requires j.Obj? && Sorted(j.fields.Keys) == []
    ensures j == Obj(map[])
  {
    assert forall k :: k in j.fields.Keys <==> k in Sorted(j.fields.Keys);
  }

  lemma {:induction false} ReadPrintedObject(j: Json, rest: string)
    requires j.Obj? && Encodable(j) && Delimited(rest)
    ensures ReadValue(Print(j) + rest) == Some((j, rest))
    decreases j, 1
  {
    ObjectText(j, rest);
    var keys := Sorted(j.fields.Keys);
    if keys == [] {
      NoFields(j);
      BraceRead(rest);
      assert "" + ("}" + rest) == "}" + rest;
    } else {
      FieldsStart(j, keys);
      ReadPrintedFields(j, keys, rest);
      SortedPairs(j);
      ObjectRead(PrintFields(j, keys) + ("}" + rest), Pairs(j, keys), j.fields, rest);
    }
  }

  lemma {:induction false} FieldsStart(j: Json, keys: seq<string>)
    requires j.Obj? && keys != [] && forall k <- keys :: k in j.fields
    ensures PrintFields(j, keys) != [] && PrintFields(j, keys)[0] == '\"'
  {
    assert Quote(keys[0])[0] == '\"';
  }

  lemma ReadPrintedKey(k: string, more: string)
    ensures Quote(k) + more != [] && (Quote(k) + more)[0] == '\"'
    ensures ReadString((Quote(k) + more)[1..]) == Some((k, more))
  {
    assert (Quote(k) + more)[1..] == Escape(k) + "\"" + more;
    ReadPrintedString(k, more);
  }

  lemma {:induction false} LastMember(s: string, k: string, v: Json, value: string, rest: string)
    requires s != [] && s[0] == '\"' && ReadString(s[1..]) == Some((k, ":" + value))
    requires SkipSpace(value) == value && ReadValue(value) == Some((v, "}" + rest))
    ensures ReadMembers(s) == Some(([(k, v)], rest))
  {
    SkipNothing(":" + value);
    assert (":" + value)[1..] == value;
    SkipNothing("}" + rest);
    assert ("}" + rest)[1..] == rest;
  }

  lemma {:induction false} NextMember(s: string, k: string, v: Json, value: string, more: string, tail: seq<(string, Json)>, rest: string)
    requires s != [] && s[0] == '\"' && ReadString(s[1..]) == Some((k, ":" + value))
    requires SkipSpace(value) == value && ReadValue(value) == Some((v, "," + more))
    requires SkipSpace(more) == more && ReadMembers(more) == Some((tail, rest))
    ensures ReadMembers(s) == Some(([(k, v)] + tail, rest))
  {
    SkipNothing(":" + value);
    assert (":" + value)[1..] == value;
    SkipNothing("," + more);
    assert ("," + more)[1..] == more;
  }

  lemma {:induction false} ValueStart(v: Json, rest: string)
    ensures SkipSpace(Print(v) + rest) == Print(v) + rest
  {
    PrintStart(v);
    SkipNothing(Print(v) + rest);
  }

  lemma {:induction false} OneField(k: string, v: Json, rest: string)
    requires ReadValue(Print(v) + ("}" + rest)) == Some((v, "}" + rest))
    ensures ReadMembers(Quote(k) + ":" + Print(v) + ("}" + rest)) == Some(([(k, v)], rest))
  {
    var value := Print(v) + ("}" + rest);
    ValueStart(v, "}" + rest);
    ReadPrintedKey(k, ":" + value);
    LastMember(Quote(k) + (":" + value), k, v, value, rest);
    FieldSplit(Quote(k), Print(v), "}" + rest);
  }

  lemma {:induction false} MoreFields(k: string, v: Json, fields: string, tail: seq<(string, Json)>, rest: string)
    requires fields != [] && fields[0] == '\"' && ReadMembers(fields + ("}" + rest)) == Some((tail, rest))
    requires var after := "," + (fields + ("}" + rest)); ReadValue(Print(v) + after) == Some((v, after))
    ensures ReadMembers(Quote(k) + ":" + Print(v) + "," + fields + ("}" + rest)) == Some(([(k, v)] + tail, rest))
  {
    var more := fields + ("}" + rest);
    var value := Print(v) + ("," + more);
    ValueStart(v, "," + more);
    ReadPrintedKey(k, ":" + value);
    SkipNothing(more);
    NextMember(Quote(k) + (":" + value), k, v, value, more, tail, rest);
    JoinSplit(Quote(k) + ":" + Print(v), fields, "}" + rest);
    FieldSplit(Quote(k), Print(v), "," + more);
  }

  lemma {:induction false} ReadPrintedFields(j: Json, keys: seq<string>, rest: string)
    requires j.Obj? && Encodable(j) && keys != [] && forall k <- keys :: k in j.fields
    ensures ReadMembers(PrintFields(j, keys) + ("}" + rest)) == Some((Pairs(j, keys), rest))
    decreases j, 0, |keys|
  {
    var k := keys[0];
    var v := j.fields[k];
    if |keys| == 1 {
      ReadPrinted(v, "}" + rest);
      OneField(k, v, rest);
      assert Pairs(j, keys) == [(k, v)];
    } else {
      var fields := PrintFields(j, keys[1..]);
      ReadPrinted(v, "," + (fields + ("}" + rest)));
      FieldsStart(j, keys[1..]);
      ReadPrintedFields(j, keys[1..], rest);
      MoreFields(k, v, fields, Pairs(j, keys[1..]), rest);
      assert Pairs(j, keys) == [(k, v)] + Pairs(j, keys[1..]);
    }
  }

  /** Reading a printed value gives the value. */
  lemma {:induction false} ReadPrint(j: Json)
    requires Encodable(j)
    ensures Read(Print(j)) == Some(j)
  {
    PrintStart(j);
    SkipNothing(Print(j));
    ReadPrinted(j, []);
    assert Print(j) + [] == Print(j);
  }

  /** Two values with the same text are the same value. */
  lemma {:induction false} PrintInjective(a: Json, b: Json)
    requires Encodable(a) && Encodable(b) && Print(a) == Print(b)
    ensures a == b
  {
    ReadPrint(a);
    ReadPrint(b);
  }

  predicate Ascii(s: string) {
    forall i :: 0 <= i < |s| ==> 32 <= s[i] as int <= 126
  }

  lemma Hex4Ascii(n: int)
    requires 0 <= n < 0x10000
    ensures Ascii(Hex4(n))
  {
    DigitAscii(n / 4096);
    DigitAscii(n / 256 % 16);
    DigitAscii(n / 16 % 16);
    DigitAscii(n % 16);
  }

  lemma DigitAscii(d: int)
    requires 0 <= d < 16
    ensures 32 <= Digit(d) as int <= 126
  {
    HexDigit(d);
  }

  lemma JoinAscii(a: string, b: string)
    requires Ascii(a) && Ascii(b)
    ensures Ascii(a + b)
  {
  }

  lemma PairAscii(high: string, low: string)
    requires Ascii(high) && Ascii(low)
    ensures Ascii("\\u" + high + "\\u" + low)
  {
    JoinAscii("\\u", high);
    JoinAscii("\\u" + high, "\\u");
    JoinAscii("\\u" + high + "\\u", low);
  }

  lemma CharAscii(c: char)
    ensures Ascii(EscapeChar(c))
  {
    if |EscapeChar(c)| > 2 {
      LongEscape(c);
      if (c as int) < 0x10000 {
        Hex4Ascii(c as int);
      } else {
        var v := c as int - 0x10000;
        Hex4Ascii(0xD800 + v / 1024);
        Hex4Ascii(0xDC00 + v % 1024);
        PairAscii(Hex4(0xD800 + v / 1024), Hex4(0xDC00 + v % 1024));
      }
    }
  }

  lemma {:induction false} EscapeAscii(s: string)
    ensures Ascii(Escape(s))
  {
    if s != [] {
      CharAscii(s[0]);
      EscapeAscii(s[1..]);
      JoinAscii(EscapeChar(s[0]), Escape(s[1..]));
    }
  }

  lemma {:induction false} NatAscii(n: nat)
    ensures Ascii(NatText(n))
  {
    NatTextFacts(n);
    assert forall i :: 0 <= i < |NatText(n)| ==> IsDigit(NatText(n)[i]);
  }

  /** Canonical text is printable ASCII, so its length in bytes is its length in characters. */
  lemma {:induction false} PrintAscii(j: Json)
    ensures Ascii(Print(j))
    decreases j, 2
  {
    match j
    case Num(n) => NatAscii(if n < 0 then -n else n);
    case Str(s) =>
      EscapeAscii(s);
      EnclosedAscii("\"", Escape(s), "\"");
    case Arr(items) =>
      ItemsAscii(items);
      EnclosedAscii("[", PrintItems(items), "]");
    case Obj(fields) =>
      FieldsAscii(j, Sorted(fields.Keys));
      EnclosedAscii("{", PrintFields(j, Sorted(fields.Keys)), "}");
    case _ =>
  }

  lemma EnclosedAscii(open: string, body: string, close: string)
    requires Ascii(open) && Ascii(body) && Ascii(close)
    ensures Ascii(open + body + close)
  {
  }

  lemma {:induction false} ItemsAscii(items: seq<Json>)
    ensures Ascii(PrintItems(items))
    decreases items, 1
  {
    if items != [] {
      PrintAscii(items[0]);
      ItemsAscii(items[1..]);
    }
  }

  lemma {:induction false} FieldsAscii(j: Json, keys: seq<string>)
    requires j.Obj? && forall k <- keys :: k in j.fields
    ensures Ascii(PrintFields(j, keys))
    decreases j, 1, |keys|
  {
    if keys != [] {
      EscapeAscii(keys[0]);
      PrintAscii(j.fields[keys[0]]);
      FieldsAscii(j, keys[1..]);
      JoinAscii("\"" + Escape(keys[0]), "\"");
      JoinAscii(Quote(keys[0]), ":");
      JoinAscii(Quote(keys[0]) + ":", Print(j.fields[keys[0]]));
      JoinAscii(Quote(keys[0]) + ":" + Print(j.fields[keys[0]]), ",");
      JoinAscii(Quote(keys[0]) + ":" + Print(j.fields[keys[0]]) + ",", PrintFields(j, keys[1..]));
    }
  }
}
