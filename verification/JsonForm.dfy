/** What canonical JSON is, said without the printer: the order of keys, the escape of every character,
    the shape of numbers, and nothing else between the parts. */
module JsonForm {
  import opened JsonText
  import Text

  // ----- the order of texts

  /** The texts agree up to n, where the first ends or has the smaller character. */
  ghost predicate SmallerAt(a: string, b: string, n: nat) {
    && n <= |a| && n <= |b| && a[..n] == b[..n]
    && ((n == |a| && n < |b|) || (n < |a| && n < |b| && a[n] < b[n]))
  }

  ghost predicate Smaller(a: string, b: string) {
    exists n: nat :: SmallerAt(a, b, n)
  }

  /** The key order is by code point, and a prefix comes first. */
  lemma {:induction false} BeforeIsSmaller(a: string, b: string)
    ensures Before(a, b) <==> Smaller(a, b)
    decreases |a|
  {
    if a == [] && b != [] {
      assert SmallerAt(a, b, 0);
    } else if a != [] && b != [] && a[0] == b[0] {
      BeforeIsSmaller(a[1..], b[1..]);
      SmallerTails(a, b);
    } else if a != [] && b != [] {
      if a[0] < b[0] { assert SmallerAt(a, b, 0); }
      forall n: nat ensures SmallerAt(a, b, n) ==> n == 0 {
        if 0 < n <= |a| && n <= |b| { assert a[..n][0] == a[0] && b[..n][0] == b[0]; }
      }
    }
  }

  lemma SmallerTails(a: string, b: string)
    requires a != [] && b != [] && a[0] == b[0]
    ensures Smaller(a, b) <==> Smaller(a[1..], b[1..])
  {
    if n: nat :| SmallerAt(a, b, n) {
      assert n > 0;
      assert a[1..][..n - 1] == a[..n][1..] && b[1..][..n - 1] == b[..n][1..];
      assert SmallerAt(a[1..], b[1..], n - 1);
    }
    if n: nat :| SmallerAt(a[1..], b[1..], n) {
      assert a[..n + 1] == [a[0]] + a[1..][..n] && b[..n + 1] == [b[0]] + b[1..][..n];
      assert SmallerAt(a, b, n + 1);
    }
  }

  // ----- characters

  const HEX := "0123456789abcdef"

  /** Four lower-case hexadecimal digits of n. */
  predicate HexForm(n: int, t: string) {
    && 0 <= n < 0x10000 && |t| == 4
    && t[0] == HEX[n / 0x1000] && t[1] == HEX[n / 0x100 % 16] && t[2] == HEX[n / 0x10 % 16] && t[3] == HEX[n % 16]
  }

  predicate UnitForm(n: int, t: string) {
    |t| == 6 && t[..2] == "\\u" && HexForm(n, t[2..])
  }

  /** A code point beyond the basic plane as two surrogates. */
  ghost predicate PairForm(n: int, t: string) {
    exists hi, lo :: SurrogatesOf(n, hi, lo) && |t| == 12 && UnitForm(hi, t[..6]) && UnitForm(lo, t[6..])
  }

  predicate SurrogatesOf(n: int, hi: int, lo: int) {
    0xD800 <= hi < 0xDC00 <= lo < 0xE000 && n == 0x10000 + (hi - 0xD800) * 0x400 + (lo - 0xDC00)
  }

  ghost predicate CharForm(c: char, t: string) {
    if c as int == 0x22 then t == "\\\""
    else if c as int == 0x5C then t == "\\\\"
    else if c as int == 0x08 then t == "\\b"
    else if c as int == 0x0C then t == "\\f"
    else if c as int == 0x0A then t == "\\n"
    else if c as int == 0x0D then t == "\\r"
    else if c as int == 0x09 then t == "\\t"
    else if 0x20 <= c as int < 0x7F then t == [c]
    else if (c as int) < 0x10000 then UnitForm(c as int, t)
    else PairForm(c as int, t)
  }

  lemma DigitIsHex(d: int)
    requires 0 <= d < 16
    ensures Digit(d) == HEX[d]
  {
    assert d == 0 || d == 1 || d == 2 || d == 3 || d == 4 || d == 5 || d == 6 || d == 7
        || d == 8 || d == 9 || d == 10 || d == 11 || d == 12 || d == 13 || d == 14 || d == 15;
  }

  lemma HexIsHex4(n: int, t: string)
    requires 0 <= n < 0x10000
    ensures HexForm(n, t) <==> t == Hex4(n)
  {
    DigitIsHex(n / 4096);
    DigitIsHex(n / 256 % 16);
    DigitIsHex(n / 16 % 16);
    DigitIsHex(n % 16);
  }

  lemma UnitIsHex4(n: int, t: string)
    requires 0 <= n < 0x10000
    ensures UnitForm(n, t) <==> t == "\\u" + Hex4(n)
  {
    if |t| == 6 {
      HexIsHex4(n, t[2..]);
      assert t == t[..2] + t[2..];
    }
    if t == "\\u" + Hex4(n) { assert t[2..] == Hex4(n) && t[..2] == "\\u"; }
  }

  lemma PairIsHex4(n: int, hi: int, lo: int, t: string)
    requires SurrogatesOf(n, hi, lo)
    ensures PairForm(n, t) <==> t == "\\u" + Hex4(hi) + "\\u" + Hex4(lo)
  {
    UnitIsHex4(hi, "\\u" + Hex4(hi));
    if PairForm(n, t) {
      var h, l :| SurrogatesOf(n, h, l) && |t| == 12 && UnitForm(h, t[..6]) && UnitForm(l, t[6..]);
      assert h == hi && l == lo;
      UnitIsHex4(hi, t[..6]);
      UnitIsHex4(lo, t[6..]);
      assert t == t[..6] + t[6..];
    }
    if t == "\\u" + Hex4(hi) + "\\u" + Hex4(lo) {
      assert t[..6] == "\\u" + Hex4(hi) && t[6..] == "\\u" + Hex4(lo);
      UnitIsHex4(hi, t[..6]);
      UnitIsHex4(lo, t[6..]);
    }
  }

  lemma CharFormIs(c: char, t: string)
    ensures CharForm(c, t) <==> t == EscapeChar(c)
  {
    var n := c as int;
    if 0x10000 <= n {
      PairIsHex4(n, 0xD800 + (n - 0x10000) / 1024, 0xDC00 + (n - 0x10000) % 1024, t);
    } else {
      UnitIsHex4(n, t);
    }
  }

  // ----- texts and numbers

  function Concat(parts: seq<string>): string {
    if parts == [] then "" else parts[0] + Concat(parts[1..])
  }

  /** The parts spell the characters. */
  ghost predicate Spelled(s: string, parts: seq<string>) {
    |parts| == |s| && forall i :: 0 <= i < |s| ==> CharForm(s[i], parts[i])
  }

  ghost predicate TextForm(s: string, t: string) {
    exists parts :: Spelled(s, parts) && t == "\"" + Concat(parts) + "\""
  }

  lemma {:induction false} SpelledIs(s: string, parts: seq<string>)
    requires Spelled(s, parts)
    ensures Concat(parts) == Escape(s)
    decreases |s|
  {
    if s != [] {
      CharFormIs(s[0], parts[0]);
      SpelledIs(s[1..], parts[1..]);
    }
  }

  lemma TextFormIs(s: string, t: string)
    ensures TextForm(s, t) <==> t == Quote(s)
  {
    var parts := seq(|s|, i requires 0 <= i < |s| => EscapeChar(s[i]));
    forall i | 0 <= i < |s| ensures CharForm(s[i], parts[i]) { CharFormIs(s[i], parts[i]); }
    SpelledIs(s, parts);
    if TextForm(s, t) {
      var others :| Spelled(s, others) && t == "\"" + Concat(others) + "\"";
      SpelledIs(s, others);
    }
  }

  predicate DecimalDigit(c: char) { '0' <= c <= '9' }

  /** The value of a digit string, weighing each digit by its place. */
  function PlaceValue(t: string): int {
    if t == [] then 0 else PlaceValue(t[..|t| - 1]) * 10 + (t[|t| - 1] as int - '0' as int)
  }

  /** The digits of n, without a superfluous zero. */
  predicate NaturalForm(n: int, t: string) {
    && 1 <= |t| && (forall c <- t :: DecimalDigit(c)) && (|t| == 1 || t[0] != '0') && PlaceValue(t) == n
  }

  predicate NumberForm(n: int, t: string) {
    if n < 0 then |t| > 1 && t[0] == '-' && NaturalForm(-n, t[1..]) else NaturalForm(n, t)
  }

  lemma {:induction false} PlaceValueBound(t: string)
    requires NaturalForm(PlaceValue(t), t)
    ensures 0 <= PlaceValue(t) && (|t| > 1 ==> 10 <= PlaceValue(t))
    decreases |t|
  {
    assert t[|t| - 1] in t;
    if |t| == 1 {
      assert t[..0] == [];
    } else {
      assert forall c <- t[..|t| - 1] :: c in t;
      PlaceValueBound(t[..|t| - 1]);
      if |t| == 2 { assert t[..1][..0] == [] && t[0] in t; }
    }
  }

  lemma {:induction false} NaturalIsNatText(n: nat, t: string)
    ensures NaturalForm(n, t) <==> t == NatText(n)
    decreases n
  {
    if NaturalForm(n, t) {
      PlaceValueBound(t);
      var init, last := t[..|t| - 1], t[|t| - 1];
      assert last in t && t == init + [last];
      if |t| == 1 {
        assert init == [];
        DigitOf(n, last);
      } else {
        assert forall c <- init :: c in t;
        NaturalIsNatText(n / 10, init);
        DigitOf(n % 10, last);
      }
    }
    if t == NatText(n) {
      if n < 10 {
        DigitOf(n, Digit(n));
        assert t[..0] == [];
      } else {
        NaturalIsNatText(n / 10, NatText(n / 10));
        DigitOf(n % 10, Digit(n % 10));
        assert t[..|t| - 1] == NatText(n / 10);
      }
    }
  }

  lemma DigitOf(d: int, c: char)
    requires 0 <= d < 10
    ensures DecimalDigit(c) && c as int - '0' as int == d <==> c == Digit(d)
  {
  }

  lemma NumberIsIntText(n: int, t: string)
    ensures NumberForm(n, t) <==> t == IntText(n)
  {
    if n < 0 {
      if |t| > 1 { NaturalIsNatText(-n, t[1..]); }
      NaturalIsNatText(-n, NatText(-n));
      if t == IntText(n) { assert t[1..] == NatText(-n); }
      if NumberForm(n, t) { assert t == "-" + t[1..]; }
    } else {
      NaturalIsNatText(n, t);
    }
  }

  // ----- values

  /** The keys of the object, each once, in the order of texts. */
  ghost predicate KeyOrder(fields: map<string, Json>, keys: seq<string>) {
    && (forall k :: k in keys <==> k in fields)
    && (forall i, j :: 0 <= i < j < |keys| ==> Smaller(keys[i], keys[j]))
  }

  /** A member: the key, a colon, the value. */
  ghost predicate MemberForm(j: Json, k: string, t: string)
    requires j.Obj? && k in j.fields
    decreases j, 0
  {
    exists name, value :: TextForm(k, name) && Form(j.fields[k], value) && t == name + ":" + value
  }

  ghost predicate MembersForm(j: Json, keys: seq<string>, parts: seq<string>)
    requires j.Obj?
    decreases j, 1
  {
    |parts| == |keys| && forall i :: 0 <= i < |keys| ==> keys[i] in j.fields && MemberForm(j, keys[i], parts[i])
  }

  /** The canonical text of a value: no spaces, items in their order, members in the order of keys. */
  ghost predicate Form(j: Json, t: string)
    decreases j, 2
  {
    match j
    case Null => t == "null"
    case Bool(b) => t == if b then "true" else "false"
    case Num(n) => NumberForm(n, t)
    case Str(s) => TextForm(s, t)
    case Arr(items) =>
      exists parts :: |parts| == |items| && (forall i :: 0 <= i < |items| ==> Form(items[i], parts[i]))
                      && t == "[" + Text.Join(parts, ',') + "]"
    case Obj(fields) =>
      exists keys, parts :: KeyOrder(fields, keys) && MembersForm(j, keys, parts) && t == "{" + Text.Join(parts, ',') + "}"
  }

  lemma {:induction false} RisingSame(a: seq<string>, b: seq<string>)
    requires forall i, j :: 0 <= i < j < |a| ==> Before(a[i], a[j])
    requires forall i, j :: 0 <= i < j < |b| ==> Before(b[i], b[j])
    requires forall k :: k in a <==> k in b
    ensures a == b
    decreases |a|
  {
    if a == [] {
      HasElement(b);
    } else {
      assert a[0] in a && a[0] in b;
      assert b[0] in b && b[0] in a;
      FirstSame(a, b);
      TailsWithin(a, b);
      TailsWithin(b, a);
      RisingSame(a[1..], b[1..]);
      assert a == [a[0]] + a[1..] && b == [b[0]] + b[1..];
    }
  }

  lemma HasElement(s: seq<string>)
    ensures s != [] ==> exists k :: k in s
  {
    if s != [] { assert s[0] in s; }
  }

  lemma FirstSame(a: seq<string>, b: seq<string>)
    requires a != [] && b != [] && a[0] in b && b[0] in a
    requires forall i, j :: 0 <= i < j < |a| ==> Before(a[i], a[j])
    requires forall i, j :: 0 <= i < j < |b| ==> Before(b[i], b[j])
    ensures a[0] == b[0]
  {
    var i :| 0 <= i < |b| && b[i] == a[0];
    var j :| 0 <= j < |a| && a[j] == b[0];
    BeforeTotal(a[0], b[0]);
  }

  lemma TailsWithin(a: seq<string>, b: seq<string>)
    requires a != [] && b != [] && a[0] == b[0] && (forall k <- a :: k in b)
    requires forall i, j :: 0 <= i < j < |a| ==> Before(a[i], a[j])
    ensures forall k <- a[1..] :: k in b[1..]
  {
    forall k <- a[1..] ensures k in b[1..] {
      var i :| 0 < i < |a| && a[i] == k;
      BeforeTotal(a[0], a[0]);
      assert k in a && k in b && k != b[0];
      var j :| 0 <= j < |b| && b[j] == k;
      assert b[1..][j - 1] == k;
    }
  }

  lemma KeyOrderIsSorted(fields: map<string, Json>, keys: seq<string>)
    ensures KeyOrder(fields, keys) <==> keys == Sorted(fields.Keys)
  {
    var sorted := Sorted(fields.Keys);
    forall i, j | 0 <= i < j < |sorted| ensures Smaller(sorted[i], sorted[j]) { BeforeIsSmaller(sorted[i], sorted[j]); }
    if KeyOrder(fields, keys) {
      forall i, j | 0 <= i < j < |keys| ensures Before(keys[i], keys[j]) { BeforeIsSmaller(keys[i], keys[j]); }
      RisingSame(keys, sorted);
    }
  }

  ghost function ItemTexts(items: seq<Json>): (ts: seq<string>)
    ensures |ts| == |items| && forall i :: 0 <= i < |items| ==> ts[i] == Print(items[i])
  {
    seq(|items|, i requires 0 <= i < |items| => Print(items[i]))
  }

  ghost function MemberTexts(j: Json, keys: seq<string>): (ts: seq<string>)
    requires j.Obj? && forall k <- keys :: k in j.fields
    ensures |ts| == |keys| && forall i :: 0 <= i < |keys| ==> ts[i] == Quote(keys[i]) + ":" + Print(j.fields[keys[i]])
  {
    seq(|keys|, i requires 0 <= i < |keys| => Quote(keys[i]) + ":" + Print(j.fields[keys[i]]))
  }

  lemma {:induction false} ItemsJoin(items: seq<Json>)
    ensures Text.Join(ItemTexts(items), ',') == PrintItems(items)
    decreases |items|
  {
    if |items| > 1 {
      ItemsJoin(items[1..]);
      assert ItemTexts(items)[1..] == ItemTexts(items[1..]);
    }
  }

  lemma {:induction false} MembersJoin(j: Json, keys: seq<string>)
    requires j.Obj? && forall k <- keys :: k in j.fields
    ensures Text.Join(MemberTexts(j, keys), ',') == PrintFields(j, keys)
    decreases |keys|
  {
    if |keys| > 1 {
      MembersJoin(j, keys[1..]);
      assert MemberTexts(j, keys)[1..] == MemberTexts(j, keys[1..]);
    }
  }

  /** The printed text is the one canonical text of the value. */
  lemma {:induction false} FormIsPrint(j: Json, t: string)
    ensures Form(j, t) <==> t == Print(j)
    decreases j, 3
  {
    match j
    case Null =>
    case Bool(_) =>
    case Num(n) => NumberIsIntText(n, t);
    case Str(s) => TextFormIs(s, t);
    case Arr(items) => ArrayFormIs(j, t);
    case Obj(fields) => ObjectFormIs(j, t);
  }

  lemma {:induction false} ArrayFormIs(j: Json, t: string)
    requires j.Arr?
    ensures Form(j, t) <==> t == Print(j)
    decreases j, 0
  {
    var items := j.items;
    ItemsJoin(items);
    forall i, p | 0 <= i < |items| ensures Form(items[i], p) <==> p == Print(items[i]) { FormIsPrint(items[i], p); }
    var texts := ItemTexts(items);
    if parts :| |parts| == |items| && (forall i :: 0 <= i < |items| ==> Form(items[i], parts[i]))
                && t == "[" + Text.Join(parts, ',') + "]" {
      assert parts == texts;
    }
    assert forall i :: 0 <= i < |items| ==> Form(items[i], texts[i]);
  }

  lemma {:induction false} MemberFormIs(j: Json, k: string, t: string)
    requires j.Obj? && k in j.fields
    ensures MemberForm(j, k, t) <==> t == Quote(k) + ":" + Print(j.fields[k])
    decreases j, 0
  {
    var name, value := Quote(k), Print(j.fields[k]);
    TextFormIs(k, name);
    FormIsPrint(j.fields[k], value);
    if n, v :| TextForm(k, n) && Form(j.fields[k], v) && t == n + ":" + v {
      TextFormIs(k, n);
      FormIsPrint(j.fields[k], v);
    }
  }

  lemma {:induction false} MembersFormIs(j: Json, keys: seq<string>, parts: seq<string>)
    requires j.Obj? && forall k <- keys :: k in j.fields
    ensures MembersForm(j, keys, parts) <==> parts == MemberTexts(j, keys)
    decreases j, 1
  {
    if |parts| == |keys| {
      forall i | 0 <= i < |keys|
        ensures keys[i] in j.fields
        ensures MemberForm(j, keys[i], parts[i]) <==> parts[i] == Quote(keys[i]) + ":" + Print(j.fields[keys[i]])
      {
        MemberFormIs(j, keys[i], parts[i]);
      }
    }
  }

  lemma {:induction false} ObjectFormIs(j: Json, t: string)
    requires j.Obj?
    ensures Form(j, t) <==> t == Print(j)
    decreases j, 2
  {
    var sorted := Sorted(j.fields.Keys);
    var texts := MemberTexts(j, sorted);
    KeyOrderIsSorted(j.fields, sorted);
    MembersJoin(j, sorted);
    MembersFormIs(j, sorted, texts);
    if keys, parts :| KeyOrder(j.fields, keys) && MembersForm(j, keys, parts) && t == "{" + Text.Join(parts, ',') + "}" {
      KeyOrderIsSorted(j.fields, keys);
      MembersFormIs(j, keys, parts);
    }
    assert MembersForm(j, sorted, texts);
  }
}
