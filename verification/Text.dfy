/** Splitting a text at a separator character, and its length in bytes. */
module Text {

  /** The pieces between separators; a text without one is a single piece. */
  function Split(s: string, sep: char): (parts: seq<string>)
    ensures |parts| >= 1
  {
    if s == [] then [[]]
    else
      var tail := Split(s[1..], sep);
      if s[0] == sep then [[]] + tail else [[s[0]] + tail[0]] + tail[1..]
  }

  function Join(parts: seq<string>, sep: char): string {
    if parts == [] then []
    else if |parts| == 1 then parts[0]
    else parts[0] + [sep] + Join(parts[1..], sep)
  }

  lemma {:induction false} SplitHasNoSeparator(s: string, sep: char)
    ensures forall p <- Split(s, sep) :: sep !in p
    decreases |s|
  {
    if s != [] { SplitHasNoSeparator(s[1..], sep); }
  }

  lemma {:induction false} JoinSplit(s: string, sep: char)
    ensures Join(Split(s, sep), sep) == s
    decreases |s|
  {
    if s != [] {
      JoinSplit(s[1..], sep);
      var tail := Split(s[1..], sep);
      if s[0] == sep {
        assert ([[]] + tail)[1..] == tail;
      } else {
        assert ([[s[0]] + tail[0]] + tail[1..])[1..] == tail[1..];
      }
      assert s == [s[0]] + s[1..];
    }
  }

  lemma {:induction false} JoinCons(c: char, parts: seq<string>, sep: char)
    requires parts != []
    ensures Join([[c] + parts[0]] + parts[1..], sep) == [c] + Join(parts, sep)
  {
    var longer := [[c] + parts[0]] + parts[1..];
    assert longer[1..] == parts[1..];
  }

  lemma {:induction false} SplitJoin(parts: seq<string>, sep: char)
    requires parts != [] && forall p <- parts :: sep !in p
    ensures Split(Join(parts, sep), sep) == parts
    decreases |parts|, |parts[0]|
  {
    var first := parts[0];
    if first == [] {
      if |parts| > 1 {
        forall p <- parts[1..] ensures sep !in p { assert p in parts; }
        SplitJoin(parts[1..], sep);
        assert Join(parts, sep)[1..] == Join(parts[1..], sep);
        assert [[]] + parts[1..] == parts;
      }
    } else {
      assert first in parts && sep !in first;
      var shorter := [first[1..]] + parts[1..];
      forall p <- shorter ensures sep !in p {
        if p != first[1..] { assert p in parts; }
      }
      SplitJoin(shorter, sep);
      JoinCons(first[0], shorter, sep);
      assert [first[0]] + first[1..] == first;
      assert shorter[1..] == parts[1..];
      assert [first] + parts[1..] == parts;
      assert Join(parts, sep)[1..] == Join(shorter, sep);
    }
  }

  /** The first character opens a piece of its own or joins the first piece of the rest. */
  function Prepend(c: char, parts: seq<string>, sep: char): seq<string>
    requires parts != []
  {
    if c == sep then [[]] + parts else [[c] + parts[0]] + parts[1..]
  }

  lemma {:induction false} SplitCons(c: char, rest: string, sep: char)
    ensures Split([c] + rest, sep) == Prepend(c, Split(rest, sep), sep)
  {
    assert ([c] + rest)[1..] == rest;
  }

  lemma PrependAppend(c: char, a: seq<string>, b: seq<string>, sep: char)
    requires a != []
    ensures Prepend(c, a + b, sep) == Prepend(c, a, sep) + b
  {
    assert (a + b)[0] == a[0] && (a + b)[1..] == a[1..] + b;
  }

  /** Splitting at a separator that is known to be there. */
  lemma {:induction false} SplitAppend(a: string, b: string, sep: char)
    ensures Split(a + [sep] + b, sep) == Split(a, sep) + Split(b, sep)
    decreases |a|
  {
    if a == [] {
      SplitCons(sep, b, sep);
      assert a + [sep] + b == [sep] + b;
    } else {
      var rest := a[1..] + [sep] + b;
      SplitAppend(a[1..], b, sep);
      SplitCons(a[0], rest, sep);
      SplitCons(a[0], a[1..], sep);
      PrependAppend(a[0], Split(a[1..], sep), Split(b, sep), sep);
      assert a == [a[0]] + a[1..];
      assert a + [sep] + b == [a[0]] + rest;
    }
  }

  // ----- bytes

  function CharBytes(c: char): (n: nat)
    ensures 1 <= n <= 4
  {
    if (c as int) < 0x80 then 1 else if (c as int) < 0x800 then 2 else if (c as int) < 0x10000 then 3 else 4
  }

  /** The number of bytes of a text in UTF-8. */
  function Utf8Length(s: string): (n: nat)
    ensures |s| <= n
  {
    if s == [] then 0 else CharBytes(s[0]) + Utf8Length(s[1..])
  }

  function CountFrom(s: string, low: int): nat {
    if s == [] then 0 else (if low <= s[0] as int then 1 else 0) + CountFrom(s[1..], low)
  }

  /** One byte for every character, another from U+0080, U+0800 and U+10000 on. */
  lemma {:induction false} Utf8Exactly(s: string)
    ensures Utf8Length(s) == |s| + CountFrom(s, 0x80) + CountFrom(s, 0x800) + CountFrom(s, 0x1_0000)
    decreases |s|
  {
    if s != [] { Utf8Exactly(s[1..]); }
  }
}
