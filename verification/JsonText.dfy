/** Canonical JSON: key-sorted, ASCII-escaped, without spaces; and the strict reader of the host
    boundary, which takes integers only and refuses duplicate keys. */
module JsonText {
  import opened Wrappers

  datatype Json =
    | Null
    | Bool(b: bool)
    | Num(n: int)
    | Str(s: string)
    | Arr(items: seq<Json>)
    | Obj(fields: map<string, Json>)

  const INT_LIMIT := 0x8000_0000_0000_0000
  const MAX_INT_CHARS := 20

  // ----- key order

  /** Order by code point, the shorter first on a tie. */
  predicate Before(a: string, b: string) {
    if b == [] then false
    else if a == [] then true
    else if a[0] == b[0] then Before(a[1..], b[1..])
    else a[0] < b[0]
  }

  lemma {:induction false} BeforeTotal(a: string, b: string)
    ensures !(Before(a, b) && Before(b, a)) && (a == b || Before(a, b) || Before(b, a)) && !Before(a, a)
    decreases |a|
  {
    if a != [] && b != [] && a[0] == b[0] {
      BeforeTotal(a[1..], b[1..]);
      assert a == [a[0]] + a[1..] && b == [b[0]] + b[1..];
    }
    if a != [] && a != b { BeforeTotal(a[1..], a[1..]); }
    if a != [] { BeforeTotal(a[1..], a[1..]); }
  }

  lemma {:induction false} BeforeTransitive(a: string, b: string, c: string)
    requires Before(a, b) && Before(b, c)
    ensures Before(a, c)
    decreases |a|
  {
    if a != [] && a[0] == b[0] && b[0] == c[0] { BeforeTransitive(a[1..], b[1..], c[1..]); }
  }

  ghost predicate IsFirst(keys: set<string>, k: string) {
    k in keys && forall j <- keys :: j == k || Before(k, j)
  }

  lemma {:induction false} FirstExists(keys: set<string>)
    requires keys != {}
    ensures exists k :: IsFirst(keys, k)
    decreases |keys|
  {
    var x :| x in keys;
    var rest := keys - {x};
    if rest == {} {
      assert keys == {x};
      assert IsFirst(keys, x);
    } else {
      FirstExists(rest);
      var k :| IsFirst(rest, k);
      BeforeTotal(x, k);
      if Before(x, k) {
        forall j <- keys ensures j == x || Before(x, j) {
          if j != x && j != k { BeforeTransitive(x, k, j); }
        }
        assert IsFirst(keys, x);
      } else {
        assert IsFirst(keys, k);
      }
    }
  }

  ghost function First(keys: set<string>): (k: string)
    requires keys != {}
    ensures IsFirst(keys, k)
  {
    FirstExists(keys);
    var k :| IsFirst(keys, k); k
  }

  /** The keys in strictly increasing order, each once. */
  ghost function Sorted(keys: set<string>): (ks: seq<string>)
    ensures forall k :: k in ks <==> k in keys
    ensures forall i, j :: 0 <= i < j < |ks| ==> Before(ks[i], ks[j])
    decreases |keys|
  {
    if keys == {} then []
    else
      var k := First(keys);
      [k] + Sorted(keys - {k})
  }

  // ----- printing

  function Digit(d: int): char
    requires 0 <= d < 16
  {
    if d < 10 then ('0' as int + d) as char else ('a' as int + d - 10) as char
  }

  function NatText(n: nat): (t: string)
    ensures |t| > 0
  {
    if n < 10 then [Digit(n)] else NatText(n / 10) + [Digit(n % 10)]
  }

  function IntText(n: int): string {
    if n < 0 then "-" + NatText(-n) else NatText(n)
  }

  function Hex4(n: int): string
    requires 0 <= n < 0x10000
  {
    [Digit(n / 4096), Digit(n / 256 % 16), Digit(n / 16 % 16), Digit(n % 16)]
  }

  /** Everything outside printable ASCII is escaped, beyond the basic plane as a surrogate pair. */
  function EscapeChar(c: char): string {
    if c == '\"' then "\\\""
    else if c == '\\' then "\\\\"
    else if c == '\n' then "\\n"
    else if c == '\r' then "\\r"
    else if c == '\t' then "\\t"
    else if c as int == 12 then "\\f"
    else if c as int == 8 then "\\b"
    else if 32 <= c as int <= 126 then [c]
    else if c as int < 0x10000 then "\\u" + Hex4(c as int)
    else
      var v := c as int - 0x10000;
      "\\u" + Hex4(0xD800 + v / 1024) + "\\u" + Hex4(0xDC00 + v % 1024)
  }

  function Escape(s: string): string {
    if s == [] then [] else EscapeChar(s[0]) + Escape(s[1..])
  }

  function Quote(s: string): string {
    "\"" + Escape(s) + "\""
  }

  ghost function Print(j: Json): string
    decreases j, 2
  {
    match j
    case Null => "null"
    case Bool(b) => if b then "true" else "false"
    case Num(n) => IntText(n)
    case Str(s) => Quote(s)
    case Arr(items) => "[" + PrintItems(items) + "]"
    case Obj(fields) => "{" + PrintFields(j, Sorted(fields.Keys)) + "}"
  }

  ghost function PrintItems(items: seq<Json>): string
    decreases items, 1
  {
    if items == [] then ""
    else if |items| == 1 then Print(items[0])
    else Print(items[0]) + "," + PrintItems(items[1..])
  }

  ghost function PrintFields(j: Json, keys: seq<string>): string
    requires j.Obj? && forall k <- keys :: k in j.fields
    decreases j, 1, |keys|
  {
    if keys == [] then ""
    else if |keys| == 1 then Quote(keys[0]) + ":" + Print(j.fields[keys[0]])
    else Quote(keys[0]) + ":" + Print(j.fields[keys[0]]) + "," + PrintFields(j, keys[1..])
  }

  // ----- reading

  predicate IsSpace(c: char) { c == ' ' || c == '\t' || c == '\n' || c == '\r' }

  function SkipSpace(s: string): (rest: string)
    ensures |rest| <= |s|
  {
    if s != [] && IsSpace(s[0]) then SkipSpace(s[1..]) else s
  }

  predicate IsDigit(c: char) { '0' <= c <= '9' }

  function HexValue(c: char): Option<int> {
    if '0' <= c <= '9' then Some(c as int - '0' as int)
    else if 'a' <= c <= 'f' then Some(c as int - 'a' as int + 10)
    else if 'A' <= c <= 'F' then Some(c as int - 'A' as int + 10)
    else None
  }

  function ReadHex4(s: string): (r: Option<(int, string)>)
    ensures r.Some? ==> 0 <= r.value.0 < 0x10000 && |r.value.1| < |s|
  {
    if |s| < 4 then None
    else
      var a :- HexValue(s[0]);
      var b :- HexValue(s[1]);
      var c :- HexValue(s[2]);
      var d :- HexValue(s[3]);
      Some((a * 4096 + b * 256 + c * 16 + d, s[4..]))
  }

  /** What follows a backslash. A surrogate half that is not part of a pair is refused. */
  function ReadEscape(s: string): (r: Option<(char, string)>)
    ensures r.Some? ==> |r.value.1| < |s|
  {
    if s == [] then None
    else if s[0] == '\"' || s[0] == '\\' || s[0] == '/' then Some((s[0], s[1..]))
    else if s[0] == 'b' then Some((8 as char, s[1..]))
    else if s[0] == 'f' then Some((12 as char, s[1..]))
    else if s[0] == 'n' then Some(('\n', s[1..]))
    else if s[0] == 'r' then Some(('\r', s[1..]))
    else if s[0] == 't' then Some(('\t', s[1..]))
    else if s[0] == 'u' then
      var (n, rest) :- ReadHex4(s[1..]);
      if 0xD800 <= n < 0xDC00 then
        if |rest| < 2 || rest[0] != '\\' || rest[1] != 'u' then None
        else
          var (m, rest') :- ReadHex4(rest[2..]);
          if 0xDC00 <= m < 0xE000 then Some(((0x10000 + (n - 0xD800) * 1024 + (m - 0xDC00)) as char, rest')) else None
      else if 0xDC00 <= n < 0xE000 then None
      else Some((n as char, rest))
    else None
  }

  /** The rest of a string whose opening quote was read. Control characters must be escaped. */
  function ReadString(s: string): (r: Option<(string, string)>)
    ensures r.Some? ==> |r.value.1| < |s|
    decreases |s|
  {
    if s == [] then None
    else if s[0] == '\"' then Some(([], s[1..]))
    else if s[0] == '\\' then
      var (c, rest) :- ReadEscape(s[1..]);
      var (tail, end) :- ReadString(rest);
      Some(([c] + tail, end))
    else if (s[0] as int) < 32 then None
    else
      var (tail, end) :- ReadString(s[1..]);
      Some(([s[0]] + tail, end))
  }

  /** The number of leading digits. */
  function Digits(s: string): (n: nat)
    ensures n <= |s| && forall i :: 0 <= i < n ==> IsDigit(s[i])
  {
    if s != [] && IsDigit(s[0]) then 1 + Digits(s[1..]) else 0
  }

  function DigitsValue(s: string): (n: nat)
    requires forall i :: 0 <= i < |s| ==> IsDigit(s[i])
  {
    if s == [] then 0
    else
      assert IsDigit(s[|s| - 1]);
      DigitsValue(s[..|s| - 1]) * 10 + (s[|s| - 1] as int - '0' as int)
  }

  /** A fraction or an exponent follows, so the number is not an integer. */
  predicate FloatFollows(s: string) {
    || (|s| >= 2 && s[0] == '.' && IsDigit(s[1]))
    || (|s| >= 2 && (s[0] == 'e' || s[0] == 'E')
        && (IsDigit(s[1]) || (|s| >= 3 && (s[1] == '+' || s[1] == '-') && IsDigit(s[2]))))
  }

  function ReadNumber(s: string): (r: Option<(Json, string)>)
    ensures r.Some? ==> |r.value.1| < |s|
  {
    var negative := s != [] && s[0] == '-';
    var body := if negative then s[1..] else s;
    var run := Digits(body);
    if run == 0 then None
    else
      var length := if body[0] == '0' then 1 else run;
      if FloatFollows(body[length..]) then None
      else if MAX_INT_CHARS < length + (if negative then 1 else 0) then None
      else
        var magnitude: int := DigitsValue(body[..length]);
        var n := if negative then -magnitude else magnitude;
        if -INT_LIMIT <= n < INT_LIMIT then Some((Num(n), body[length..])) else None
  }

  /** Builds the object of a pair list, refusing a repeated key. */
  function UniqueObject(pairs: seq<(string, Json)>): Option<map<string, Json>> {
    if pairs == [] then Some(map[])
    else
      var m :- UniqueObject(pairs[..|pairs| - 1]);
      var (k, v) := pairs[|pairs| - 1];
      if k in m then None else Some(m[k := v])
  }

  function StartsWith(s: string, p: string): bool {
    |p| <= |s| && s[..|p|] == p
  }

  function ReadValue(s: string): (r: Option<(Json, string)>)
    ensures r.Some? ==> |r.value.1| < |s|
    decreases |s|, 1
  {
    if s == [] then None
    else if s[0] == '\"' then
      var (t, rest) :- ReadString(s[1..]);
      Some((Str(t), rest))
    else if s[0] == '{' then ReadObject(SkipSpace(s[1..]))
    else if s[0] == '[' then ReadArray(SkipSpace(s[1..]))
    else if StartsWith(s, "null") then Some((Null, s[4..]))
    else if StartsWith(s, "true") then Some((Bool(true), s[4..]))
    else if StartsWith(s, "false") then Some((Bool(false), s[5..]))
    else ReadNumber(s)
  }

  /** What follows an opening brace. */
  function ReadObject(s: string): (r: Option<(Json, string)>)
    ensures r.Some? ==> |r.value.1| < |s|
    decreases |s|, 3
  {
    if s != [] && s[0] == '}' then Some((Obj(map[]), s[1..]))
    else
      var (pairs, rest) :- ReadMembers(s);
      var m :- UniqueObject(pairs);
      Some((Obj(m), rest))
  }

  /** What follows an opening bracket. */
  function ReadArray(s: string): (r: Option<(Json, string)>)
    ensures r.Some? ==> |r.value.1| < |s|
    decreases |s|, 3
  {
    if s != [] && s[0] == ']' then Some((Arr([]), s[1..]))
    else
      var (items, rest) :- ReadItems(s);
      Some((Arr(items), rest))
  }

  function ReadItems(s: string): (r: Option<(seq<Json>, string)>)
    ensures r.Some? ==> |r.value.1| < |s|
    decreases |s|, 2
  {
    var (v, afterValue) :- ReadValue(s);
    var rest := SkipSpace(afterValue);
    if rest == [] then None
    else if rest[0] == ']' then Some(([v], rest[1..]))
    else if rest[0] == ',' then
      var (tail, end) :- ReadItems(SkipSpace(rest[1..]));
      Some(([v] + tail, end))
    else None
  }

  function ReadMembers(s: string): (r: Option<(seq<(string, Json)>, string)>)
    ensures r.Some? ==> |r.value.1| < |s|
    decreases |s|, 2
  {
    if s == [] || s[0] != '\"' then None
    else
      var (k, afterKey) :- ReadString(s[1..]);
      var colon := SkipSpace(afterKey);
      if colon == [] || colon[0] != ':' then None
      else
        var (v, afterValue) :- ReadValue(SkipSpace(colon[1..]));
        var rest := SkipSpace(afterValue);
        if rest == [] then None
        else if rest[0] == '}' then Some(([(k, v)], rest[1..]))
        else if rest[0] == ',' then
          var (tail, end) :- ReadMembers(SkipSpace(rest[1..]));
          Some(([(k, v)] + tail, end))
        else None
  }

  /** The whole text is one value with nothing but space around it. */
  function Read(s: string): Option<Json> {
    var (j, rest) :- ReadValue(SkipSpace(s));
    if SkipSpace(rest) == [] then Some(j) else None
  }
}
