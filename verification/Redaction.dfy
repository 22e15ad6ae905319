/** Removing known secrets from a text before it crosses a logging boundary. */
module Redaction {

  const MARKER := "[REDACTED]"

  predicate OccursAt(s: string, t: string, p: nat) {
    p + |s| <= |t| && t[p..p + |s|] == s
  }

  ghost predicate Contains(t: string, s: string) {
    exists p: nat :: OccursAt(s, t, p)
  }

  /** Every occurrence from the left that does not overlap an earlier one becomes the marker. */
  function Replace(t: string, v: string): string
    requires v != ""
    decreases |t|
  {
    if t == "" then ""
    else if v <= t then MARKER + Replace(t[|v|..], v)
    else [t[0]] + Replace(t[1..], v)
  }

  function ReplaceAll(t: string, values: seq<string>): string
    requires "" !in values
    decreases |values|
  {
    if values == [] then t else ReplaceAll(Replace(t, values[0]), values[1..])
  }

  /** Each secret once, the longest first; secrets of one length come in any order. */
  ghost predicate LongestFirst(values: seq<string>, secrets: set<string>) {
    && (forall v :: v in values <==> v in secrets)
    && (forall i, j :: 0 <= i < j < |values| ==> values[i] != values[j] && |values[j]| <= |values[i]|)
  }

  /** The secret and the marker agree wherever they overlap, when the secret starts k characters
      after the marker does. */
  predicate Overlays(s: string, k: int) {
    -|s| < k < |MARKER| && forall i :: 0 <= i < |s| && 0 <= k + i < |MARKER| ==> s[i] == MARKER[k + i]
  }

  /** No piece of the secret can ever be made of a piece of the marker. */
  ghost predicate Clear(s: string) {
    s != "" && forall k :: !Overlays(s, k)
  }

  /** A secret that shares no character with the marker is clear of it. */
  lemma DisjointIsClear(s: string)
    requires s != "" && forall c <- s :: c !in MARKER
    ensures Clear(s)
  {
    forall k ensures !Overlays(s, k) {
      if -|s| < k < |MARKER| {
        var i := if k < 0 then -k else 0;
        assert s[i] in s && MARKER[k + i] in MARKER;
      }
    }
  }

  /** A front piece of the result is a front piece of the text, unless a marker starts in it. */
  lemma {:induction false} FrontOfReplace(t: string, v: string, n: nat)
    requires v != "" && n <= |Replace(t, v)|
    ensures (n <= |t| && Replace(t, v)[..n] == t[..n]) || exists q: nat :: q < n && OccursAt(MARKER, Replace(t, v), q)
    decreases |t|
  {
    var r := Replace(t, v);
    if n > 0 && t != "" {
      if v <= t {
        assert r[..|MARKER|] == MARKER;
        assert OccursAt(MARKER, r, 0);
      } else {
        var rest := Replace(t[1..], v);
        FrontOfReplace(t[1..], v, n - 1);
        if q: nat :| q < n - 1 && OccursAt(MARKER, rest, q) {
          Shifted(MARKER, [t[0]], rest, q + 1);
          assert OccursAt(MARKER, r, q + 1);
        } else {
          assert r[..n] == [t[0]] + rest[..n - 1] && t[..n] == [t[0]] + t[1..][..n - 1];
        }
      }
    }
  }

  lemma Shifted(s: string, front: string, rest: string, p: nat)
    requires |front| <= p
    ensures OccursAt(s, front + rest, p) <==> OccursAt(s, rest, p - |front|)
  {
    if p + |s| <= |front| + |rest| {
      assert (front + rest)[p..p + |s|] == rest[p - |front|..p - |front| + |s|];
    }
  }

  lemma AbsentBelow(t: string, n: nat, s: string)
    requires !Contains(t, s) && n <= |t|
    ensures !Contains(t[n..], s)
  {
    forall p: nat ensures !OccursAt(s, t[n..], p) {
      assert t[..n] + t[n..] == t;
      Shifted(s, t[..n], t[n..], p + n);
      assert !OccursAt(s, t, p + n);
    }
  }

  /** A clear secret is gone once it was replaced, and a replacement of another secret does not bring
      it back. */
  lemma {:induction false} Gone(t: string, v: string, s: string)
    requires v != "" && Clear(s) && (s == v || !Contains(t, s))
    ensures !Contains(Replace(t, v), s)
    decreases |t|
  {
    if t != "" {
      if v <= t {
        GoneAfterMatch(t, v, s);
      } else {
        GoneAfterChar(t, v, s);
      }
    }
  }

  lemma {:induction false} GoneAfterMatch(t: string, v: string, s: string)
    requires v != "" && Clear(s) && (s == v || !Contains(t, s)) && t != "" && v <= t
    ensures !Contains(Replace(t, v), s)
    decreases |t|, 0
  {
    var rest := Replace(t[|v|..], v);
    if s != v { AbsentBelow(t, |v|, s); }
    Gone(t[|v|..], v, s);
    forall p: nat ensures !OccursAt(s, MARKER + rest, p) {
      if p < |MARKER| {
        MarkerInFront(rest, s, p);
      } else {
        Shifted(s, MARKER, rest, p);
        assert !OccursAt(s, rest, p - |MARKER|);
      }
    }
  }

  lemma MarkerInFront(rest: string, s: string, p: nat)
    requires Clear(s) && p < |MARKER|
    ensures !OccursAt(s, MARKER + rest, p)
  {
    assert OccursAt(MARKER, MARKER + rest, 0);
    assert !Overlays(s, p);
    ClearOf(MARKER + rest, s, p, 0);
  }

  /** A clear secret and a marker never overlap. */
  lemma ClearOf(t: string, s: string, p: nat, q: nat)
    requires Clear(s) && OccursAt(MARKER, t, q) && q < p + |s| && p < q + |MARKER|
    ensures !OccursAt(s, t, p)
  {
    assert !Overlays(s, p - q);
    if p + |s| <= |t| {
      var i :| 0 <= i < |s| && 0 <= p - q + i < |MARKER| && s[i] != MARKER[p - q + i];
      assert t[q..q + |MARKER|][p - q + i] == t[p + i];
      assert t[p..p + |s|][i] == t[p + i];
    }
  }

  lemma {:induction false} GoneAfterChar(t: string, v: string, s: string)
    requires v != "" && Clear(s) && (s == v || !Contains(t, s)) && t != "" && !(v <= t)
    ensures !Contains(Replace(t, v), s)
    decreases |t|, 0
  {
    var r, rest := Replace(t, v), Replace(t[1..], v);
    if s != v { AbsentBelow(t, 1, s); }
    Gone(t[1..], v, s);
    forall p: nat ensures !OccursAt(s, r, p) {
      if p > 0 {
        Shifted(s, [t[0]], rest, p);
        assert !OccursAt(s, rest, p - 1);
      } else {
        NotInFront(t, v, s);
      }
    }
  }

  lemma {:induction false} NotInFront(t: string, v: string, s: string)
    requires v != "" && Clear(s) && (s == v || !Contains(t, s)) && t != "" && !(v <= t)
    ensures !OccursAt(s, Replace(t, v), 0)
  {
    var r := Replace(t, v);
    assert !OccursAt(s, t, 0);
    if |s| <= |r| {
      FrontOfReplace(t, v, |s|);
      if q: nat :| q < |s| && OccursAt(MARKER, r, q) { ClearOf(r, s, 0, q); }
    }
  }

  lemma {:induction false} AllGone(t: string, values: seq<string>, s: string)
    requires "" !in values && Clear(s) && (s in values || !Contains(t, s))
    ensures !Contains(ReplaceAll(t, values), s)
    decreases |values|
  {
    if values != [] {
      if s == values[0] || !Contains(t, s) { Gone(t, values[0], s); }
      AllGone(Replace(t, values[0]), values[1..], s);
    }
  }

  lemma {:induction false} ReplaceNothing(t: string, v: string)
    requires v != "" && !Contains(t, v)
    ensures Replace(t, v) == t
    decreases |t|
  {
    if t != "" {
      assert !OccursAt(v, t, 0);
      AbsentBelow(t, 1, v);
      ReplaceNothing(t[1..], v);
    }
  }

  lemma {:induction false} NothingToRedact(t: string, values: seq<string>)
    requires "" !in values && forall v <- values :: !Contains(t, v)
    ensures ReplaceAll(t, values) == t
    decreases |values|
  {
    if values != [] {
      assert values[0] in values;
      ReplaceNothing(t, values[0]);
      NothingToRedact(t, values[1..]);
    }
  }

  lemma {:induction false} LongestExists(secrets: set<string>)
    requires secrets != {}
    ensures exists v :: v in secrets && forall w <- secrets :: |w| <= |v|
    decreases |secrets|
  {
    var x :| x in secrets;
    var rest := secrets - {x};
    if rest == {} {
      forall w <- secrets ensures |w| <= |x| { assert w !in rest; }
    } else {
      LongestExists(rest);
      var v :| v in rest && forall w <- rest :: |w| <= |v|;
      var best := if |v| < |x| then x else v;
      assert best in secrets && forall w <- secrets :: |w| <= |best| by {
        forall w <- secrets ensures |w| <= |best| { if w != x { assert w in rest; } }
      }
    }
  }

  lemma {:induction false} ReplaceAllAppend(t: string, values: seq<string>, v: string)
    requires "" !in values && v != ""
    ensures ReplaceAll(t, values + [v]) == Replace(ReplaceAll(t, values), v)
    decreases |values|
  {
    if values == [] {
      assert values + [v] == [v] && [v][1..] == [];
      assert ReplaceAll(Replace(t, v), []) == Replace(t, v);
    } else {
      ReplaceAllAppend(Replace(t, values[0]), values[1..], v);
      assert (values + [v])[1..] == values[1..] + [v];
    }
  }

  /** values lists the secrets that are not left, all of them at least as long as those that are. */
  ghost predicate Ordered(values: seq<string>, secrets: set<string>, left: set<string>) {
    LongestFirst(values, secrets - left) && forall v <- values, w <- left :: |w| <= |v|
  }

  lemma OrderGrows(values: seq<string>, secrets: set<string>, left: set<string>, v: string)
    requires Ordered(values, secrets, left) && left <= secrets && v in left && forall w <- left :: |w| <= |v|
    ensures Ordered(values + [v], secrets, left - {v})
  {
    var more := values + [v];
    forall u ensures u in more <==> u in secrets - (left - {v}) { }
    forall i, j | 0 <= i < j < |more| ensures more[i] != more[j] && |more[j]| <= |more[i]| {
      assert values[i] in values;
      if j < |values| { assert values[j] in values; }
    }
  }

  /** Replaces the secrets one after another, the longest first. Secrets clear of the marker are gone
      from the result, and a text that holds no secret comes back as it was. */
  method RedactText(text: string, secrets: set<string>) returns (redacted: string, ghost values: seq<string>)
    requires "" !in secrets
    ensures LongestFirst(values, secrets) && redacted == ReplaceAll(text, values)
    ensures forall s <- secrets :: Clear(s) ==> !Contains(redacted, s)
    ensures (forall s <- secrets :: !Contains(text, s)) ==> redacted == text
  {
    redacted, values := text, [];
    var left := secrets;
    while left != {}
      invariant left <= secrets
      invariant Ordered(values, secrets, left) && "" !in values
      invariant redacted == ReplaceAll(text, values)
      decreases |left|
    {
      LongestExists(left);
      var v :| v in left && forall w <- left :: |w| <= |v|;
      ReplaceAllAppend(text, values, v);
      OrderGrows(values, secrets, left, v);
      redacted, values, left := Replace(redacted, v), values + [v], left - {v};
    }
    assert secrets - left == secrets;
    forall s <- secrets | Clear(s) ensures !Contains(redacted, s) { AllGone(text, values, s); }
    if forall s <- secrets :: !Contains(text, s) { NothingToRedact(text, values); }
  }

  /** The condition is needed: a secret that is a piece of the marker, replaced last, is put back by
      its own marker. */
  lemma {:induction false} MarkerLeaks(values: seq<string>, s: string)
    requires "" !in values && s != "" && Contains(MARKER, s) && forall v <- values :: |s| < |v|
    ensures Contains(ReplaceAll(s, values + [s]), s)
  {
    forall v <- values ensures !Contains(s, v) { forall p: nat ensures !OccursAt(v, s, p) { } }
    NothingToRedact(s, values);
    ReplaceAllAppend(s, values, s);
    assert s[|s|..] == "";
    assert Replace(s, s) == MARKER + Replace("", s);
    assert MARKER + "" == MARKER;
  }

  // ----- exactly which secrets redaction removes

  /** Whatever the text, whatever the other secrets and their order, the secret is gone afterwards. */
  ghost predicate AlwaysGone(s: string) {
    forall t: string, values: seq<string>, secrets: set<string> ::
      "" !in values && s in secrets && LongestFirst(values, secrets) ==> !Contains(ReplaceAll(t, values), s)
  }

  lemma {:induction false} ReplaceOne(front: string, x: char, back: string)
    requires x !in front && x !in back
    ensures Replace(front + [x] + back, [x]) == front + MARKER + back
    decreases |front|
  {
    var t := front + [x] + back;
    if front == "" {
      forall p: nat ensures !OccursAt([x], back, p) { if p < |back| { assert back[p] in back; } }
      ReplaceNothing(back, [x]);
      assert t == [x] + back && t[|[x]|..] == back && t[..|[x]|] == [x];
      assert Replace(t, [x]) == MARKER + Replace(back, [x]);
      assert front + MARKER + back == MARKER + back;
    } else {
      ReplaceOne(front[1..], x, back);
      assert front[0] in front;
      assert t[1..] == front[1..] + [x] + back;
    }
  }

  /** What stands before and after the marker when it is overlaid by the secret. */
  function FrontOf(s: string, k: int): string
    requires -|s| < k < |MARKER|
  {
    if k < 0 then s[..-k] else ""
  }

  function BackOf(s: string, k: int): string
    requires -|s| < k < |MARKER|
  {
    if |MARKER| < k + |s| then s[|MARKER| - k..] else ""
  }

  /** Around a marker, the two pieces spell out the secret. */
  lemma Spelled(s: string, k: int)
    requires Overlays(s, k)
    ensures OccursAt(s, FrontOf(s, k) + MARKER + BackOf(s, k), k + |FrontOf(s, k)|)
  {
    var front, back := FrontOf(s, k), BackOf(s, k);
    var r, q := front + MARKER + back, k + |FrontOf(s, k)|;
    forall i | 0 <= i < |s| ensures r[q + i] == s[i] {
      if 0 <= k + i < |MARKER| { assert r[|front| + (k + i)] == MARKER[k + i]; }
    }
    assert r[q..q + |s|] == s;
  }

  /** Around any other character they do not. */
  lemma NotSpelled(s: string, k: int, x: char)
    requires s != "" && Overlays(s, k) && x !in s
    ensures !Contains(FrontOf(s, k) + [x] + BackOf(s, k), s)
  {
    var front := FrontOf(s, k);
    var t := front + [x] + BackOf(s, k);
    assert |front| < |s| && |BackOf(s, k)| < |s|;
    forall p: nat ensures !OccursAt(s, t, p) {
      if p + |s| <= |t| {
        assert p <= |front| < p + |s|;
        assert t[p..p + |s|][|front| - p] == x;
      }
    }
  }

  /** A secret that overlays the marker is put back by the marker of another secret. */
  lemma PutBack(s: string, k: int, x: char)
    requires s != "" && Overlays(s, k) && x !in s
    ensures LongestFirst([s, [x]], {s, [x]})
    ensures Contains(ReplaceAll(FrontOf(s, k) + [x] + BackOf(s, k), [s, [x]]), s)
  {
    var front, back := FrontOf(s, k), BackOf(s, k);
    NotSpelled(s, k, x);
    ReplaceNothing(front + [x] + back, s);
    ReplaceOne(front, x, back);
    Spelled(s, k);
    assert [s, [x]][1..] == [[x]] && [[x]][1..] == [];
    assert ReplaceAll(front + [x] + back, [[x]]) == ReplaceAll(front + MARKER + back, []);
  }

  ghost predicate LeavesOut(s: string, x: char) { x !in s }

  /** Redaction removes a secret from every text and beside all other secrets if and only if no piece
      of the secret can be made of a piece of the marker. */
  lemma GoneExactly(s: string)
    requires s != "" && exists x :: LeavesOut(s, x)
    ensures AlwaysGone(s) <==> Clear(s)
  {
    if Clear(s) {
      forall t: string, values: seq<string>, secrets: set<string> |
        "" !in values && s in secrets && LongestFirst(values, secrets)
        ensures !Contains(ReplaceAll(t, values), s)
      {
        AllGone(t, values, s);
      }
    } else {
      var k :| Overlays(s, k);
      var x :| LeavesOut(s, x);
      PutBack(s, k, x);
    }
  }

  function Below(n: nat): (r: set<int>)
    ensures |r| == n && forall i :: i in r <==> 0 <= i < n
  {
    if n == 0 then {} else Below(n - 1) + {n - 1}
  }

  function Codes(s: string): (r: set<int>)
    ensures |r| <= |s| && forall c <- s :: c as int in r
  {
    if s == "" then {}
    else
      assert s == [s[0]] + s[1..];
      Codes(s[1..]) + {s[0] as int}
  }

  lemma SubsetCount(a: set<int>, b: set<int>)
    ensures a <= b ==> |a| <= |b|
  {
    if a <= b { assert b == a + (b - a); }
  }

  /** Every secret short of 55296 characters leaves some character out. */
  lemma SomeCharLeft(s: string)
    requires |s| < 0xD800
    ensures exists x :: LeavesOut(s, x)
  {
    var codes, all := Codes(s), Below(0xD800);
    SubsetCount(all, codes);
    var i: int :| i in all && i !in codes;
    assert LeavesOut(s, i as char);
  }

  /** A secret at the edge of the marker leaks by itself, in a text that it occurs in once. */
  lemma EdgeLeaks()
    ensures Overlays("]a", 9) && ReplaceAll("]aa", ["]a"]) == MARKER + "a" && Contains(MARKER + "a", "]a")
  {
    assert "]aa"[2..] == "a" && "a"[1..] == "" && Replace("a", "]a") == ['a'] + Replace("", "]a");
    assert Replace("]aa", "]a") == MARKER + "a";
    assert ["]a"][1..] == [];
    assert (MARKER + "a")[9..11] == "]a";
    assert OccursAt("]a", MARKER + "a", 9);
  }
}
