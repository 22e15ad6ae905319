/** Exactly which texts the strict reader takes, and as which values: the grammar of section 2 of RFC 8259
    with integers for its only numbers and no key twice in an object. */
module JsonReading {
  import opened Wrappers
  import opened JsonText
  import opened JsonForm
  import opened JsonGrammar
  import JsonRoundTrip
  import HostProtocol
  import Text

  predicate White(w: string) {
    forall c <- w :: c as int == 0x20 || c as int == 0x09 || c as int == 0x0A || c as int == 0x0D
  }

  /** A signed 64-bit integer, without a superfluous zero; zero may have a sign. */
  predicate NumberSpelling(n: int, t: string) {
    && -0x8000_0000_0000_0000 <= n < 0x8000_0000_0000_0000
    && (NaturalForm(n, t) || (|t| > 1 && t[0] == '-' && NaturalForm(-n, t[1..])))
  }

  /** The parts between brackets and commas; without a part there may be space. */
  ghost predicate Enclosed(open: string, parts: seq<string>, close: string, t: string) {
    if parts == [] then exists w :: White(w) && t == open + (w + close)
    else t == open + (Text.Join(parts, ',') + close)
  }

  /** The keys of the object, each once, in any order. */
  ghost predicate KeysOnce(fields: map<string, Json>, keys: seq<string>) {
    && (forall k :: k in keys <==> k in fields)
    && (forall i, j :: 0 <= i < j < |keys| ==> keys[i] != keys[j])
  }

  /** The texts of a value: any spelling of strings, any order of members. */
  ghost predicate ValueSpelling(j: Json, t: string)
    decreases j, 0
  {
    match j
    case Null => t == "null"
    case Bool(b) => t == if b then "true" else "false"
    case Num(n) => NumberSpelling(n, t)
    case Str(s) => TextSpelling(s, t)
    case Arr(items) =>
      exists parts :: |parts| == |items| && (forall i :: 0 <= i < |items| ==> Padded(items[i], parts[i]))
                      && Enclosed("[", parts, "]", t)
    case Obj(fields) =>
      exists keys, parts :: KeysOnce(fields, keys) && |parts| == |keys| && Enclosed("{", parts, "}", t)
        && forall i :: 0 <= i < |keys| ==> keys[i] in fields && MemberSpelling(keys[i], fields[keys[i]], parts[i])
  }

  /** The value with space around it. */
  ghost predicate Padded(j: Json, t: string)
    decreases j, 1
  {
    exists a, v, b :: White(a) && ValueSpelling(j, v) && White(b) && t == a + (v + b)
  }

  /** A member: the key with space around it, a colon, the value with space around it. */
  ghost predicate MemberSpelling(k: string, v: Json, t: string)
    decreases v, 2
  {
    exists a, name, b, value ::
      White(a) && TextSpelling(k, name) && White(b) && Padded(v, value) && t == a + (name + (b + (":" + value)))
  }

  // ----- space

  lemma {:induction false} SkipWhite(w: string, s: string)
    requires White(w) && (s == [] || !IsSpace(s[0]))
    ensures SkipSpace(w + s) == s
    decreases |w|
  {
    if w == "" {
      assert w + s == s;
    } else {
      assert w[0] in w && forall c <- w[1..] :: c in w;
      assert (w + s)[1..] == w[1..] + s;
      SkipWhite(w[1..], s);
    }
  }

  ghost predicate WhiteThen(s: string, rest: string) {
    exists w :: White(w) && s == w + rest
  }

  lemma {:induction false} Skipped(s: string)
    ensures WhiteThen(s, SkipSpace(s)) && (SkipSpace(s) == [] || !IsSpace(SkipSpace(s)[0]))
    decreases |s|
  {
    if s != [] && IsSpace(s[0]) {
      Skipped(s[1..]);
      var w :| White(w) && s[1..] == w + SkipSpace(s);
      assert White([s[0]] + w) && s == [s[0]] + w + SkipSpace(s);
    } else {
      assert White("") && s == "" + s;
    }
  }

  // ----- numbers

  lemma {:induction false} PlaceIsDigits(t: string)
    requires forall i :: 0 <= i < |t| ==> IsDigit(t[i])
    ensures PlaceValue(t) == DigitsValue(t)
    decreases |t|
  {
    if t != "" { PlaceIsDigits(t[..|t| - 1]); }
  }

  lemma NaturalReads(n: int, t: string, negative: bool, rest: string)
    requires NaturalForm(n, t) && JsonRoundTrip.Delimited(rest)
    requires -INT_LIMIT <= (if negative then -n else n) < INT_LIMIT
    ensures ReadNumber((if negative then "-" else "") + (t + rest)) == Some((Num(if negative then -n else n), rest))
  {
    forall i | 0 <= i < |t| ensures IsDigit(t[i]) { assert t[i] in t; }
    PlaceIsDigits(t);
    NaturalIsNatText(n, t);
    JsonRoundTrip.IntTextLength(if negative then -n else n);
    JsonRoundTrip.DigitsRun(t, rest);
    JsonRoundTrip.ReadDigits(t, negative, rest);
  }

  lemma NumberReads(n: int, t: string, rest: string)
    requires NumberSpelling(n, t) && JsonRoundTrip.Delimited(rest)
    ensures ReadNumber(t + rest) == Some((Num(n), rest))
  {
    if NaturalForm(n, t) {
      NaturalReads(n, t, false, rest);
      Unsigned(t, rest);
    } else {
      NaturalReads(-n, t[1..], true, rest);
      Signed(t, rest);
    }
  }

  lemma Unsigned(t: string, rest: string)
    ensures "" + (t + rest) == t + rest
  {
  }

  lemma Signed(t: string, rest: string)
    requires t != [] && t[0] == '-'
    ensures "-" + (t[1..] + rest) == t + rest
  {
    assert t == "-" + t[1..];
  }

  lemma {:induction false} DigitsNatural(body: string, length: nat)
    requires 1 <= length <= Digits(body) && (body[0] == '0' ==> length == 1)
    ensures NaturalForm(DigitsValue(body[..length]), body[..length])
  {
    PlaceIsDigits(body[..length]);
    assert forall c <- body[..length] :: DecimalDigit(c);
  }

  lemma NumberSpells(s: string) returns (t: string)
    requires ReadNumber(s).Some?
    ensures ReadNumber(s).value.0.Num? && NumberSpelling(ReadNumber(s).value.0.n, t) && s == t + ReadNumber(s).value.1
  {
    if s[0] == '-' {
      var length := if s[1..][0] == '0' then 1 else Digits(s[1..]);
      DigitsNatural(s[1..], length);
      var m: int := DigitsValue(s[1..][..length]);
      assert ReadNumber(s).value == (Num(-m), s[1..][length..]);
      t := NegativeSpells(s, length, m);
    } else {
      var length := if s[0] == '0' then 1 else Digits(s);
      DigitsNatural(s, length);
      t := s[..length];
      assert s == s[..length] + s[length..];
    }
  }

  lemma NegativeSpells(s: string, length: nat, m: int) returns (t: string)
    requires s != [] && s[0] == '-' && 1 <= length <= |s[1..]| && NaturalForm(m, s[1..][..length])
    requires -INT_LIMIT <= -m < INT_LIMIT
    ensures NumberSpelling(-m, t) && s == t + s[1..][length..]
  {
    t := s[..length + 1];
    assert t[1..] == s[1..][..length];
    assert s[1..][length..] == s[length + 1..];
  }

  // ----- a value is read as it is spelled

  /** After space the value is read, and after space the rest. */
  predicate ReadsTo(s: string, j: Json, more: string) {
    var r := ReadValue(SkipSpace(s));
    r.Some? && r.value.0 == j && SkipSpace(r.value.1) == more
  }

  predicate Closes(more: string) {
    more == [] || more[0] == ',' || more[0] == ']' || more[0] == '}'
  }

  lemma {:induction false} ValueBegins(s: string)
    requires ReadValue(s).Some?
    ensures s != [] && !IsSpace(s[0]) && s[0] != ']' && s[0] != '}'
  {
  }

  lemma WhiteDelimits(w: string, more: string)
    requires White(w) && Closes(more)
    ensures JsonRoundTrip.Delimited(w + more)
  {
    if w == "" { assert w + more == more; } else { assert (w + more)[0] == w[0] && w[0] in w; }
  }

  lemma {:induction false} ValueThen(a: string, v: string, b: string, j: Json, more: string)
    requires White(a) && White(b) && Closes(more) && v != [] && ReadValue(v + (b + more)) == Some((j, b + more))
    ensures ReadsTo(a + (v + b) + more, j, more)
  {
    assert a + (v + b) + more == a + (v + (b + more));
    ValueBegins(v + (b + more));
    SkipWhite(a, v + (b + more));
    SkipWhite(b, more);
  }

  lemma {:induction false} PaddedReads(j: Json, t: string, more: string)
    requires Padded(j, t) && Closes(more)
    ensures ReadsTo(t + more, j, more)
    decreases j, 3
  {
    var a, v, b :| White(a) && ValueSpelling(j, v) && White(b) && t == a + (v + b);
    WhiteDelimits(b, more);
    ValueReads(j, v, b + more);
    ValueThen(a, v, b, j, more);
  }

  lemma {:induction false} WordReads(w: string, rest: string)
    requires w == "null" || w == "true" || w == "false"
    ensures ReadValue(w + rest) == Some((if w == "null" then Null else Bool(w == "true"), rest))
  {
    var s := w + rest;
    assert s[..|w|] == w && s[|w|..] == rest && s[0] == w[0];
    if w != "null" && |s| >= 4 { assert s[..4][0] == w[0]; }
  }

  lemma {:induction false} DigitsAreReads(n: int, t: string, rest: string)
    requires NumberSpelling(n, t) && JsonRoundTrip.Delimited(rest)
    ensures t != [] && ReadValue(t + rest) == Some((Num(n), rest))
  {
    NumberReads(n, t, rest);
    JsonRoundTrip.NumberStart(t + rest);
  }

  lemma {:induction false} ValueReads(j: Json, t: string, rest: string)
    requires ValueSpelling(j, t) && JsonRoundTrip.Delimited(rest)
    ensures t != [] && ReadValue(t + rest) == Some((j, rest))
    decreases j, 2
  {
    match j
    case Null => WordReads(t, rest);
    case Bool(_) => WordReads(t, rest);
    case Num(n) => DigitsAreReads(n, t, rest);
    case Str(s) => QuotedReads(s, t, rest);
    case Arr(items) => ArrayReads(j, t, rest);
    case Obj(fields) => ObjectReads(j, t, rest);
  }

  // ----- arrays

  lemma {:induction false} LastItem(s: string, v: Json, rest: string)
    requires ReadsTo(s, v, "]" + rest)
    ensures ReadItems(SkipSpace(s)) == Some(([v], rest))
  {
    assert ("]" + rest)[1..] == rest;
  }

  lemma {:induction false} NextItem(s: string, v: Json, more: string, tail: seq<Json>, rest: string)
    requires ReadsTo(s, v, "," + more) && ReadItems(SkipSpace(more)) == Some((tail, rest))
    ensures ReadItems(SkipSpace(s)) == Some(([v] + tail, rest))
  {
    assert ("," + more)[1..] == more;
  }

  lemma {:induction false} JoinMore(parts: seq<string>, close: string)
    requires |parts| > 1
    ensures Text.Join(parts, ',') + close == parts[0] + ("," + (Text.Join(parts[1..], ',') + close))
  {
  }

  lemma {:induction false} ItemsRead(j: Json, n: nat, parts: seq<string>, rest: string)
    requires j.Arr? && n < |j.items| && |parts| == |j.items| - n
    requires forall i :: 0 <= i < |parts| ==> Padded(j.items[n + i], parts[i])
    ensures ReadItems(SkipSpace(Text.Join(parts, ',') + ("]" + rest))) == Some((j.items[n..], rest))
    decreases j, 0, |parts|
  {
    hide Padded;
    var v := j.items[n];
    assert Padded(j.items[n + 0], parts[0]);
    if |parts| == 1 {
      PaddedReads(v, parts[0], "]" + rest);
      LastItem(parts[0] + ("]" + rest), v, rest);
      assert j.items[n..] == [v];
    } else {
      forall i | 0 <= i < |parts| - 1 ensures Padded(j.items[n + 1 + i], parts[1..][i]) {
        assert Padded(j.items[n + (i + 1)], parts[i + 1]);
      }
      ItemsRead(j, n + 1, parts[1..], rest);
      var more := Text.Join(parts[1..], ',') + ("]" + rest);
      PaddedReads(v, parts[0], "," + more);
      NextItem(parts[0] + ("," + more), v, more, j.items[n + 1..], rest);
      JoinMore(parts, "]" + rest);
      assert j.items[n..] == [v] + j.items[n + 1..];
    }
  }

  lemma {:induction false} OpenArray(inner: string, items: seq<Json>, rest: string)
    requires ReadArray(SkipSpace(inner)) == Some((Arr(items), rest))
    ensures ReadValue("[" + inner) == Some((Arr(items), rest))
  {
    assert ("[" + inner)[1..] == inner;
  }

  lemma {:induction false} EmptyArray(w: string, rest: string)
    requires White(w)
    ensures ReadArray(SkipSpace(w + ("]" + rest))) == Some((Arr([]), rest))
  {
    SkipWhite(w, "]" + rest);
    assert ("]" + rest)[1..] == rest;
  }

  lemma {:induction false} ItemsBegin(s: string)
    requires ReadItems(s).Some?
    ensures ReadArray(s) == Some((Arr(ReadItems(s).value.0), ReadItems(s).value.1))
  {
    ValueBegins(s);
  }

  lemma Reassociated(open: string, inner: string, close: string, rest: string)
    ensures open + (inner + close) + rest == open + (inner + (close + rest))
  {
  }

  lemma {:induction false} ArrayReads(j: Json, t: string, rest: string)
    requires j.Arr? && ValueSpelling(j, t)
    ensures t != [] && ReadValue(t + rest) == Some((j, rest))
    decreases j, 0, |j.items| + 1
  {
    var parts :| |parts| == |j.items| && (forall i :: 0 <= i < |j.items| ==> Padded(j.items[i], parts[i]))
      && Enclosed("[", parts, "]", t);
    if parts == [] {
      var w :| White(w) && t == "[" + (w + "]");
      EmptyArray(w, rest);
      Reassociated("[", w, "]", rest);
      OpenArray(w + ("]" + rest), [], rest);
    } else {
      ItemsRead(j, 0, parts, rest);
      var inner := Text.Join(parts, ',') + ("]" + rest);
      ItemsBegin(SkipSpace(inner));
      Reassociated("[", Text.Join(parts, ','), "]", rest);
      OpenArray(inner, j.items, rest);
    }
  }

  // ----- objects

  /** After space a key and a colon, then the value and the rest. */
  predicate ReadsMember(s: string, k: string, v: Json, more: string) {
    var m := SkipSpace(s);
    && m != [] && m[0] == '\"' && ReadString(m[1..]).Some? && ReadString(m[1..]).value.0 == k
    && var colon := SkipSpace(ReadString(m[1..]).value.1);
       colon != [] && colon[0] == ':' && ReadsTo(colon[1..], v, more)
  }

  lemma {:induction false} LastMember(s: string, k: string, v: Json, rest: string)
    requires ReadsMember(s, k, v, "}" + rest)
    ensures ReadMembers(SkipSpace(s)) == Some(([(k, v)], rest))
  {
    assert ("}" + rest)[1..] == rest;
  }

  lemma {:induction false} NextMember(s: string, k: string, v: Json, more: string, tail: seq<(string, Json)>, rest: string)
    requires ReadsMember(s, k, v, "," + more) && ReadMembers(SkipSpace(more)) == Some((tail, rest))
    ensures ReadMembers(SkipSpace(s)) == Some(([(k, v)] + tail, rest))
  {
    assert ("," + more)[1..] == more;
  }

  lemma {:induction false} ColonThen(b: string, value: string, v: Json, more: string)
    requires White(b) && ReadsTo(value + more, v, more)
    ensures var colon := SkipSpace(b + (":" + (value + more)));
            colon != [] && colon[0] == ':' && ReadsTo(colon[1..], v, more)
  {
    SkipWhite(b, ":" + (value + more));
    assert (":" + (value + more))[1..] == value + more;
  }

  lemma {:induction false} NameThen(a: string, name: string, k: string, afterKey: string)
    requires White(a) && TextSpelling(k, name)
    ensures ReadsQuoted(SkipSpace(a + (name + afterKey)), k, afterKey)
  {
    QuotedReads(k, name, afterKey);
    SkipWhite(a, name + afterKey);
  }

  lemma MemberSplit(a: string, name: string, b: string, value: string, more: string)
    ensures a + (name + (b + (":" + value))) + more == a + (name + (b + (":" + (value + more))))
  {
    assert ":" + value + more == ":" + (value + more);
    assert b + (":" + value) + more == b + (":" + value + more);
    assert name + (b + (":" + value)) + more == name + (b + (":" + value) + more);
  }

  lemma KeyThen(a: string, name: string, b: string, value: string, k: string, v: Json, more: string)
    requires White(a) && TextSpelling(k, name) && White(b) && ReadsTo(value + more, v, more)
    ensures ReadsMember(a + (name + (b + (":" + value))) + more, k, v, more)
  {
    MemberSplit(a, name, b, value, more);
    NameThen(a, name, k, b + (":" + (value + more)));
    ColonThen(b, value, v, more);
  }

  lemma {:induction false} MemberReads(k: string, v: Json, t: string, more: string)
    requires MemberSpelling(k, v, t) && Closes(more)
    ensures ReadsMember(t + more, k, v, more)
    decreases v, 4
  {
    hide TextSpelling, Padded, ReadsMember;
    var a, name, b, value :|
      White(a) && TextSpelling(k, name) && White(b) && Padded(v, value) && t == a + (name + (b + (":" + value)));
    PaddedReads(v, value, more);
    KeyThen(a, name, b, value, k, v, more);
  }

  ghost predicate MembersSpelling(j: Json, keys: seq<string>, parts: seq<string>)
    requires j.Obj?
  {
    |parts| == |keys| && forall i :: 0 <= i < |keys| ==> keys[i] in j.fields && MemberSpelling(keys[i], j.fields[keys[i]], parts[i])
  }

  lemma MembersTail(j: Json, keys: seq<string>, parts: seq<string>)
    requires j.Obj? && keys != [] && MembersSpelling(j, keys, parts)
    ensures MembersSpelling(j, keys[1..], parts[1..])
  {
    forall i | 0 <= i < |keys| - 1 ensures keys[1..][i] in j.fields && MemberSpelling(keys[1..][i], j.fields[keys[1..][i]], parts[1..][i]) {
      assert keys[1..][i] == keys[i + 1] && parts[1..][i] == parts[i + 1];
    }
  }

  lemma PairsTail(j: Json, keys: seq<string>)
    requires j.Obj? && keys != [] && (forall k <- keys :: k in j.fields)
    ensures forall k <- keys[1..] :: k in j.fields
    ensures JsonRoundTrip.Pairs(j, keys) == [(keys[0], j.fields[keys[0]])] + JsonRoundTrip.Pairs(j, keys[1..])
  {
    assert forall k <- keys[1..] :: k in keys;
  }

  lemma {:induction false} OneMember(j: Json, keys: seq<string>, parts: seq<string>, rest: string)
    requires j.Obj? && |keys| == |parts| == 1 && keys[0] in j.fields
    requires ReadsMember(parts[0] + ("}" + rest), keys[0], j.fields[keys[0]], "}" + rest)
    ensures ReadMembers(SkipSpace(Text.Join(parts, ',') + ("}" + rest))) == Some((JsonRoundTrip.Pairs(j, keys), rest))
  {
    LastMember(parts[0] + ("}" + rest), keys[0], j.fields[keys[0]], rest);
    assert JsonRoundTrip.Pairs(j, keys) == [(keys[0], j.fields[keys[0]])];
  }

  lemma {:induction false} MoreMembers(j: Json, keys: seq<string>, parts: seq<string>, rest: string)
    requires j.Obj? && |keys| > 1 && |parts| == |keys| && (forall k <- keys :: k in j.fields)
    requires forall k <- keys[1..] :: k in j.fields
    requires var more := Text.Join(parts[1..], ',') + ("}" + rest);
             && ReadsMember(parts[0] + ("," + more), keys[0], j.fields[keys[0]], "," + more)
             && ReadMembers(SkipSpace(more)) == Some((JsonRoundTrip.Pairs(j, keys[1..]), rest))
    ensures ReadMembers(SkipSpace(Text.Join(parts, ',') + ("}" + rest))) == Some((JsonRoundTrip.Pairs(j, keys), rest))
  {
    var k, more := keys[0], Text.Join(parts[1..], ',') + ("}" + rest);
    NextMember(parts[0] + ("," + more), k, j.fields[k], more, JsonRoundTrip.Pairs(j, keys[1..]), rest);
    JoinMore(parts, "}" + rest);
    PairsTail(j, keys);
  }

  lemma {:induction false} MembersRead(j: Json, keys: seq<string>, parts: seq<string>, rest: string)
    requires j.Obj? && keys != [] && MembersSpelling(j, keys, parts) && (forall k <- keys :: k in j.fields)
    ensures ReadMembers(SkipSpace(Text.Join(parts, ',') + ("}" + rest))) == Some((JsonRoundTrip.Pairs(j, keys), rest))
    decreases j, 0, |keys|
  {
    var k := keys[0];
    PairsTail(j, keys);
    if |keys| == 1 {
      MemberReads(k, j.fields[k], parts[0], "}" + rest);
      OneMember(j, keys, parts, rest);
    } else {
      MembersTail(j, keys, parts);
      MembersRead(j, keys[1..], parts[1..], rest);
      MemberReads(k, j.fields[k], parts[0], "," + (Text.Join(parts[1..], ',') + ("}" + rest)));
      MoreMembers(j, keys, parts, rest);
    }
  }

  lemma {:induction false} OpenObject(inner: string, fields: map<string, Json>, rest: string)
    requires ReadObject(SkipSpace(inner)) == Some((Obj(fields), rest))
    ensures ReadValue("{" + inner) == Some((Obj(fields), rest))
  {
    assert ("{" + inner)[1..] == inner;
  }

  lemma {:induction false} EmptyObject(w: string, rest: string)
    requires White(w)
    ensures ReadObject(SkipSpace(w + ("}" + rest))) == Some((Obj(map[]), rest))
  {
    SkipWhite(w, "}" + rest);
    assert ("}" + rest)[1..] == rest;
  }

  lemma KeysGiveObject(j: Json, keys: seq<string>)
    requires j.Obj? && KeysOnce(j.fields, keys)
    ensures UniqueObject(JsonRoundTrip.Pairs(j, keys)) == Some(j.fields)
  {
    JsonRoundTrip.PairsUnique(j, keys);
    assert (map k | k in keys :: j.fields[k]) == j.fields;
  }

  lemma {:induction false} MembersBegin(s: string, pairs: seq<(string, Json)>, fields: map<string, Json>, rest: string)
    requires ReadMembers(s) == Some((pairs, rest)) && UniqueObject(pairs) == Some(fields)
    ensures ReadObject(s) == Some((Obj(fields), rest))
  {
  }

  lemma {:induction false} NoMembers(j: Json, t: string, rest: string)
    requires j.Obj? && KeysOnce(j.fields, []) && Enclosed("{", [], "}", t)
    ensures t != [] && ReadValue(t + rest) == Some((j, rest))
  {
    var w :| White(w) && t == "{" + (w + "}");
    EmptyObject(w, rest);
    Reassociated("{", w, "}", rest);
    OpenObject(w + ("}" + rest), map[], rest);
    assert j.fields == map[];
  }

  lemma {:induction false} SomeMembers(j: Json, keys: seq<string>, inner: string, rest: string)
    requires j.Obj? && KeysOnce(j.fields, keys)
    requires ReadMembers(SkipSpace(inner + ("}" + rest))) == Some((JsonRoundTrip.Pairs(j, keys), rest))
    ensures ReadValue("{" + (inner + "}") + rest) == Some((j, rest))
  {
    KeysGiveObject(j, keys);
    MembersBegin(SkipSpace(inner + ("}" + rest)), JsonRoundTrip.Pairs(j, keys), j.fields, rest);
    Reassociated("{", inner, "}", rest);
    OpenObject(inner + ("}" + rest), j.fields, rest);
  }

  lemma {:induction false} ObjectReads(j: Json, t: string, rest: string)
    requires j.Obj? && ValueSpelling(j, t)
    ensures t != [] && ReadValue(t + rest) == Some((j, rest))
    decreases j, 1
  {
    hide MemberSpelling, ValueSpelling;
    var keys, parts := ObjectParts(j, t);
    if keys == [] {
      NoMembers(j, t, rest);
    } else {
      MembersRead(j, keys, parts, rest);
      SomeMembers(j, keys, Text.Join(parts, ','), rest);
    }
  }

  lemma ObjectParts(j: Json, t: string) returns (keys: seq<string>, parts: seq<string>)
    requires j.Obj? && ValueSpelling(j, t)
    ensures KeysOnce(j.fields, keys) && MembersSpelling(j, keys, parts) && Enclosed("{", parts, "}", t)
  {
    hide MemberSpelling;
    keys, parts :| KeysOnce(j.fields, keys) && |parts| == |keys| && Enclosed("{", parts, "}", t)
      && forall i :: 0 <= i < |keys| ==> keys[i] in j.fields && MemberSpelling(keys[i], j.fields[keys[i]], parts[i]);
  }

  // ----- and whatever is read is a spelling of it

  ghost predicate Cut(s: string, j: Json, rest: string) {
    exists t :: ValueSpelling(j, t) && s == t + rest
  }

  ghost predicate PaddedCut(s: string, j: Json, more: string) {
    exists t :: Padded(j, t) && s == t + more
  }

  ghost predicate ItemsCut(s: string, items: seq<Json>, rest: string) {
    exists parts :: parts != [] && |parts| == |items| && (forall i :: 0 <= i < |items| ==> Padded(items[i], parts[i]))
                    && s == Text.Join(parts, ',') + ("]" + rest)
  }

  ghost predicate PairsSpelled(pairs: seq<(string, Json)>, parts: seq<string>) {
    |parts| == |pairs| && forall i :: 0 <= i < |pairs| ==> MemberSpelling(pairs[i].0, pairs[i].1, parts[i])
  }

  ghost predicate MembersCut(s: string, pairs: seq<(string, Json)>, rest: string) {
    exists parts :: parts != [] && PairsSpelled(pairs, parts) && s == Text.Join(parts, ',') + ("}" + rest)
  }

  lemma Around(a: string, v: string, b: string, more: string)
    ensures a + (v + (b + more)) == a + (v + b) + more
  {
  }

  lemma {:induction false} PaddedBy(a: string, v: string, b: string, j: Json)
    requires White(a) && ValueSpelling(j, v) && White(b)
    ensures Padded(j, a + (v + b))
  {
  }

  lemma SkippedAround(s: string, s': string, j: Json, afterValue: string, more: string)
    requires WhiteThen(s, s') && Cut(s', j, afterValue) && WhiteThen(afterValue, more)
    ensures PaddedCut(s, j, more)
  {
    var a :| White(a) && s == a + s';
    var v :| ValueSpelling(j, v) && s' == v + afterValue;
    var b :| White(b) && afterValue == b + more;
    PaddedBy(a, v, b, j);
    Around(a, v, b, more);
  }

  lemma {:induction false} PaddedSpells(s: string)
    requires ReadValue(SkipSpace(s)).Some?
    ensures var r := ReadValue(SkipSpace(s)).value; PaddedCut(s, r.0, SkipSpace(r.1))
    decreases |s|, 1
  {
    var r := ReadValue(SkipSpace(s)).value;
    Skipped(s);
    ValueSpells(SkipSpace(s));
    Skipped(r.1);
    SkippedAround(s, SkipSpace(s), r.0, r.1, SkipSpace(r.1));
  }

  lemma CutWord(s: string, w: string)
    requires StartsWith(s, w)
    ensures s == w + s[|w|..]
  {
  }

  lemma {:induction false} ValueSpells(s: string)
    requires ReadValue(s).Some?
    ensures Cut(s, ReadValue(s).value.0, ReadValue(s).value.1)
    decreases |s|, 0
  {
    if s[0] == '\"' {
      StringSpells(s);
    } else if s[0] == '{' {
      ObjectSpells(s);
    } else if s[0] == '[' {
      ArraySpells(s);
    } else if StartsWith(s, "null") {
      CutWord(s, "null");
      assert ValueSpelling(Null, "null");
    } else if StartsWith(s, "true") {
      CutWord(s, "true");
      assert ValueSpelling(Bool(true), "true");
    } else if StartsWith(s, "false") {
      CutWord(s, "false");
      assert ValueSpelling(Bool(false), "false");
    } else {
      var t := NumberSpells(s);
      assert ValueSpelling(ReadNumber(s).value.0, t);
    }
  }

  lemma {:induction false} StringSpells(s: string)
    requires s != [] && s[0] == '\"' && ReadValue(s).Some?
    ensures Cut(s, ReadValue(s).value.0, ReadValue(s).value.1)
  {
    var r := ReadString(s[1..]).value;
    var t := QuotedSpells(s, r.0, r.1);
    assert ValueSpelling(Str(r.0), t);
  }

  // ----- arrays again

  lemma EmptyCut(open: string, close: string, s: string, rest: string)
    requires WhiteThen(s, close + rest)
    ensures exists t :: Enclosed(open, [], close, t) && open + s == t + rest
  {
    var w :| White(w) && s == w + (close + rest);
    Reassociated(open, w, close, rest);
    assert Enclosed(open, [], close, open + (w + close));
  }

  lemma LastCut(s: string, v: Json, rest: string)
    requires PaddedCut(s, v, "]" + rest)
    ensures ItemsCut(s, [v], rest)
  {
    hide Padded;
    var t :| Padded(v, t) && s == t + ("]" + rest);
    assert Text.Join([t], ',') == t;
  }

  lemma {:induction false} JoinCons(t: string, tail: seq<string>, more: string)
    requires tail != []
    ensures t + ("," + (Text.Join(tail, ',') + more)) == Text.Join([t] + tail, ',') + more
  {
    assert ([t] + tail)[1..] == tail;
  }

  lemma NextCut(s: string, v: Json, more: string, items: seq<Json>, rest: string)
    requires PaddedCut(s, v, "," + more) && ItemsCut(more, items, rest)
    ensures ItemsCut(s, [v] + items, rest)
  {
    hide Padded;
    var t :| Padded(v, t) && s == t + ("," + more);
    var tail :| tail != [] && |tail| == |items| && (forall i :: 0 <= i < |items| ==> Padded(items[i], tail[i]))
      && more == Text.Join(tail, ',') + ("]" + rest);
    JoinCons(t, tail, "]" + rest);
    forall i | 0 <= i < |items| + 1 ensures Padded(([v] + items)[i], ([t] + tail)[i]) {
      if i > 0 { assert Padded(items[i - 1], tail[i - 1]); }
    }
  }

  lemma HeadTail(s: string, c: char)
    requires s != [] && s[0] == c
    ensures s == [c] + s[1..]
  {
  }

  lemma {:induction false} ItemsSpell(s: string)
    requires ReadItems(SkipSpace(s)).Some?
    ensures ItemsCut(s, ReadItems(SkipSpace(s)).value.0, ReadItems(SkipSpace(s)).value.1)
    decreases |s|, 2
  {
    PaddedSpells(s);
    var v := ReadValue(SkipSpace(s)).value;
    var rest := SkipSpace(v.1);
    HeadTail(rest, rest[0]);
    if rest[0] == ']' {
      LastCut(s, v.0, rest[1..]);
    } else {
      ItemsSpell(rest[1..]);
      var tail := ReadItems(SkipSpace(rest[1..])).value;
      NextCut(s, v.0, rest[1..], tail.0, tail.1);
    }
  }

  lemma ArrayCut(inner: string, items: seq<Json>, rest: string)
    requires ItemsCut(inner, items, rest)
    ensures Cut("[" + inner, Arr(items), rest)
  {
    hide Padded;
    var parts :| parts != [] && |parts| == |items| && (forall i :: 0 <= i < |items| ==> Padded(items[i], parts[i]))
      && inner == Text.Join(parts, ',') + ("]" + rest);
    var t := "[" + (Text.Join(parts, ',') + "]");
    assert Enclosed("[", parts, "]", t);
    assert ValueSpelling(Arr(items), t);
    Reassociated("[", Text.Join(parts, ','), "]", rest);
  }

  lemma {:induction false} ArraySpells(s: string)
    requires s != [] && s[0] == '[' && ReadValue(s).Some?
    ensures Cut(s, ReadValue(s).value.0, ReadValue(s).value.1)
    decreases |s| - 1, 3
  {
    var inner := s[1..];
    HeadTail(s, '[');
    var body := SkipSpace(inner);
    if body != [] && body[0] == ']' {
      Skipped(inner);
      HeadTail(body, ']');
      EmptyCut("[", "]", inner, body[1..]);
      var t :| Enclosed("[", [], "]", t) && s == t + body[1..];
      assert ValueSpelling(Arr([]), t);
    } else {
      ItemsSpell(inner);
      ArrayCut(inner, ReadItems(body).value.0, ReadItems(body).value.1);
    }
  }

  // ----- objects again

  lemma {:induction false} MemberBy(a: string, name: string, b: string, value: string, k: string, v: Json)
    requires White(a) && TextSpelling(k, name) && White(b) && Padded(v, value)
    ensures MemberSpelling(k, v, a + (name + (b + (":" + value))))
  {
  }

  ghost predicate MemberThen(s: string, k: string, v: Json, more: string) {
    exists t :: MemberSpelling(k, v, t) && s == t + more
  }

  lemma MemberCut(s: string, m: string, k: string, afterKey: string, colon: string, v: Json, more: string)
    requires WhiteThen(s, m) && ReadsQuoted(m, k, afterKey) && WhiteThen(afterKey, ":" + colon) && PaddedCut(colon, v, more)
    ensures MemberThen(s, k, v, more)
  {
    hide MemberSpelling, Padded, TextSpelling;
    var a :| White(a) && s == a + m;
    var name := QuotedSpells(m, k, afterKey);
    var b :| White(b) && afterKey == b + (":" + colon);
    var value :| Padded(v, value) && colon == value + more;
    MemberBy(a, name, b, value, k, v);
    MemberSplit(a, name, b, value, more);
  }

  lemma LastMemberCut(s: string, k: string, v: Json, rest: string)
    requires MemberThen(s, k, v, "}" + rest)
    ensures MembersCut(s, [(k, v)], rest)
  {
    hide MemberSpelling;
    var t :| MemberSpelling(k, v, t) && s == t + ("}" + rest);
    assert Text.Join([t], ',') == t;
    assert PairsSpelled([(k, v)], [t]);
  }

  lemma {:induction false} PairInFront(k: string, v: Json, t: string, pairs: seq<(string, Json)>, tail: seq<string>)
    requires MemberSpelling(k, v, t) && PairsSpelled(pairs, tail)
    ensures PairsSpelled([(k, v)] + pairs, [t] + tail)
  {
    hide MemberSpelling;
    var longer := [(k, v)] + pairs;
    forall i | 0 <= i < |longer| ensures MemberSpelling(longer[i].0, longer[i].1, ([t] + tail)[i]) {
      if i > 0 { assert longer[i] == pairs[i - 1] && ([t] + tail)[i] == tail[i - 1]; }
    }
  }

  lemma NextMemberCut(s: string, k: string, v: Json, more: string, pairs: seq<(string, Json)>, rest: string)
    requires MemberThen(s, k, v, "," + more) && MembersCut(more, pairs, rest)
    ensures MembersCut(s, [(k, v)] + pairs, rest)
  {
    hide MemberSpelling;
    var t :| MemberSpelling(k, v, t) && s == t + ("," + more);
    var tail :| tail != [] && PairsSpelled(pairs, tail) && more == Text.Join(tail, ',') + ("}" + rest);
    JoinCons(t, tail, "}" + rest);
    PairInFront(k, v, t, pairs, tail);
  }

  /** What ReadMembers reads of its first member. */
  lemma {:induction false} MemberRead(s: string)
    requires ReadMembers(s).Some?
    ensures s != [] && s[0] == '\"' && ReadString(s[1..]).Some?
    ensures var colon := SkipSpace(ReadString(s[1..]).value.1);
            && colon != [] && colon[0] == ':' && ReadValue(SkipSpace(colon[1..])).Some?
            && SkipSpace(ReadValue(SkipSpace(colon[1..])).value.1) != []
  {
  }

  lemma {:induction false} FirstMember(s: string, m: string, k: string, afterKey: string, colon: string, v: Json, more: string)
    requires m == SkipSpace(s) && ReadsQuoted(m, k, afterKey) && colon == SkipSpace(afterKey)
    requires colon != [] && colon[0] == ':' && PaddedCut(colon[1..], v, more)
    ensures MemberThen(s, k, v, more)
  {
    Skipped(s);
    Skipped(afterKey);
    HeadTail(colon, ':');
    MemberCut(s, m, k, afterKey, colon[1..], v, more);
  }

  lemma {:induction false} MembersSpell(s: string)
    requires ReadMembers(SkipSpace(s)).Some?
    ensures MembersCut(s, ReadMembers(SkipSpace(s)).value.0, ReadMembers(SkipSpace(s)).value.1)
    decreases |s|, 2
  {
    var m := SkipSpace(s);
    MemberRead(m);
    var key := ReadString(m[1..]).value;
    var colon := SkipSpace(key.1);
    PaddedSpells(colon[1..]);
    var v := ReadValue(SkipSpace(colon[1..])).value;
    var rest := SkipSpace(v.1);
    FirstMember(s, m, key.0, key.1, colon, v.0, rest);
    HeadTail(rest, rest[0]);
    if rest[0] == '}' {
      LastMemberCut(s, key.0, v.0, rest[1..]);
    } else {
      MembersSpell(rest[1..]);
      var tail := ReadMembers(SkipSpace(rest[1..])).value;
      NextMemberCut(s, key.0, v.0, rest[1..], tail.0, tail.1);
    }
  }

  lemma PairsAreKeys(pairs: seq<(string, Json)>, fields: map<string, Json>) returns (keys: seq<string>)
    requires UniqueObject(pairs) == Some(fields)
    ensures KeysOnce(fields, keys) && |keys| == |pairs|
    ensures forall i :: 0 <= i < |keys| ==> keys[i] in fields && pairs[i] == (keys[i], fields[keys[i]])
  {
    HostProtocol.UniqueKeys(pairs);
    keys := seq(|pairs|, i requires 0 <= i < |pairs| => pairs[i].0);
    forall i | 0 <= i < |keys| ensures keys[i] in fields && pairs[i] == (keys[i], fields[keys[i]]) {
      assert (pairs[i].0, pairs[i].1) in pairs;
    }
    forall k | k in fields ensures k in keys {
      assert (k, fields[k]) in pairs;
      var i :| 0 <= i < |pairs| && pairs[i] == (k, fields[k]);
      assert keys[i] == k;
    }
  }

  lemma {:induction false} KeysSpelled(pairs: seq<(string, Json)>, parts: seq<string>, fields: map<string, Json>, t: string)
    requires PairsSpelled(pairs, parts) && UniqueObject(pairs) == Some(fields) && Enclosed("{", parts, "}", t)
    ensures ValueSpelling(Obj(fields), t)
  {
    hide MemberSpelling, ValueSpelling;
    var keys := PairsAreKeys(pairs, fields);
    forall i | 0 <= i < |keys| ensures keys[i] in fields && MemberSpelling(keys[i], fields[keys[i]], parts[i]) {
      assert MemberSpelling(pairs[i].0, pairs[i].1, parts[i]);
    }
    ObjectSpelled(keys, parts, fields, t);
  }

  lemma {:induction false} ObjectCut(inner: string, pairs: seq<(string, Json)>, fields: map<string, Json>, rest: string)
    requires MembersCut(inner, pairs, rest) && UniqueObject(pairs) == Some(fields)
    ensures Cut("{" + inner, Obj(fields), rest)
  {
    hide MemberSpelling, ValueSpelling;
    var parts :| parts != [] && PairsSpelled(pairs, parts) && inner == Text.Join(parts, ',') + ("}" + rest);
    KeysSpelled(pairs, parts, fields, "{" + (Text.Join(parts, ',') + "}"));
    Reassociated("{", Text.Join(parts, ','), "}", rest);
  }

  lemma {:induction false} ObjectSpelled(keys: seq<string>, parts: seq<string>, fields: map<string, Json>, t: string)
    requires KeysOnce(fields, keys) && |parts| == |keys| && Enclosed("{", parts, "}", t)
    requires forall i :: 0 <= i < |keys| ==> keys[i] in fields && MemberSpelling(keys[i], fields[keys[i]], parts[i])
    ensures ValueSpelling(Obj(fields), t)
  {
  }

  lemma {:induction false} ObjectSpells(s: string)
    requires s != [] && s[0] == '{' && ReadValue(s).Some?
    ensures Cut(s, ReadValue(s).value.0, ReadValue(s).value.1)
    decreases |s| - 1, 3
  {
    var inner := s[1..];
    HeadTail(s, '{');
    var body := SkipSpace(inner);
    if body != [] && body[0] == '}' {
      Skipped(inner);
      HeadTail(body, '}');
      EmptyCut("{", "}", inner, body[1..]);
      var t :| Enclosed("{", [], "}", t) && s == t + body[1..];
      ObjectSpelled([], [], map[], t);
    } else {
      MembersSpell(inner);
      var members := ReadMembers(body).value;
      ObjectCut(inner, members.0, UniqueObject(members.0).value, members.1);
    }
  }

  // ----- whole texts

  /** The strict reader takes exactly the texts of the grammar, each as the value it spells. */
  lemma {:induction false} ReadsExactly(s: string, j: Json)
    ensures Read(s) == Some(j) <==> Padded(j, s)
  {
    if Padded(j, s) {
      PaddedReads(j, s, "");
      assert s + "" == s;
    }
    if Read(s) == Some(j) {
      PaddedSpells(s);
      var t :| Padded(j, t) && s == t + "";
      assert t + "" == t;
    }
  }
}
