/** What replacing a secret makes of a text, said of the pieces between its occurrences. */
module RedactionForm {
  import opened Redaction

  /** The pieces with the same text between each two. */
  function Glue(pieces: seq<string>, between: string): string {
    if pieces == [] then "" else if |pieces| == 1 then pieces[0] else pieces[0] + between + Glue(pieces[1..], between)
  }

  /** The secret occurs behind the piece and nowhere before that. */
  ghost predicate FirstBehind(piece: string, v: string) {
    forall p: nat :: OccursAt(v, piece + v, p) ==> p == |piece|
  }

  /** The text cut at the occurrences of the secret, each the first from where the last one ended. */
  ghost predicate Cuts(t: string, v: string, pieces: seq<string>) {
    && pieces != [] && t == Glue(pieces, v)
    && (forall i :: 0 <= i < |pieces| - 1 ==> FirstBehind(pieces[i], v))
    && !Contains(pieces[|pieces| - 1], v)
  }

  lemma BehindTail(c: char, tail: string, v: string)
    requires FirstBehind([c] + tail, v)
    ensures FirstBehind(tail, v)
  {
    var whole := [c] + tail + v;
    forall p: nat | OccursAt(v, tail + v, p) ensures p == |tail| {
      assert whole[p + 1..p + 1 + |v|] == (tail + v)[p..p + |v|];
      assert OccursAt(v, whole, p + 1);
    }
  }

  lemma {:induction false} ReplaceFront(piece: string, v: string, rest: string)
    requires v != "" && FirstBehind(piece, v)
    ensures Replace(piece + v + rest, v) == piece + "[REDACTED]" + Replace(rest, v)
    decreases |piece|
  {
    var t := piece + v + rest;
    if piece == "" {
      assert t == v + rest && t[|v|..] == rest;
    } else {
      var tail := piece[1..];
      assert !(v <= t) by {
        if v <= t {
          assert t[..|v|] == (piece + v)[..|v|];
          assert OccursAt(v, piece + v, 0);
        }
      }
      assert piece == [piece[0]] + tail;
      BehindTail(piece[0], tail, v);
      ReplaceFront(tail, v, rest);
      assert t[1..] == tail + v + rest && t[0] == piece[0];
    }
  }

  lemma {:induction false} CutsReplace(t: string, v: string, pieces: seq<string>)
    requires v != "" && Cuts(t, v, pieces)
    ensures Replace(t, v) == Glue(pieces, "[REDACTED]")
    decreases |pieces|
  {
    if |pieces| == 1 {
      ReplaceNothing(t, v);
    } else {
      var rest := Glue(pieces[1..], v);
      assert Cuts(rest, v, pieces[1..]);
      CutsReplace(rest, v, pieces[1..]);
      ReplaceFront(pieces[0], v, rest);
    }
  }

  lemma {:induction false} Cut(t: string, v: string) returns (pieces: seq<string>)
    requires v != ""
    ensures Cuts(t, v, pieces)
    decreases |t|
  {
    if Contains(t, v) {
      var p := First(t, v);
      var rest := Cut(t[p + |v|..], v);
      pieces := [t[..p]] + rest;
      assert pieces[1..] == rest;
      assert t == t[..p] + v + t[p + |v|..];
    } else {
      pieces := [t];
    }
  }

  lemma First(t: string, v: string) returns (p: nat)
    requires v != "" && Contains(t, v)
    ensures OccursAt(v, t, p) && FirstBehind(t[..p], v)
  {
    var q: nat :| OccursAt(v, t, q);
    p := Earliest(t, v, q);
    forall n: nat | OccursAt(v, t[..p] + v, n) ensures n == p {
      assert t[..p] + v == t[..p + |v|];
      assert t[..p + |v|][n..n + |v|] == t[n..n + |v|];
      assert OccursAt(v, t, n);
    }
  }

  lemma {:induction false} Earliest(t: string, v: string, q: nat) returns (p: nat)
    requires OccursAt(v, t, q)
    ensures OccursAt(v, t, p) && forall n: nat :: n < p ==> !OccursAt(v, t, n)
    decreases q
  {
    if n: nat :| n < q && OccursAt(v, t, n) {
      p := Earliest(t, v, n);
    } else {
      p := q;
    }
  }

  /** Replacing keeps every piece of the text and puts the marker for each occurrence, taken from the left. */
  lemma {:induction false} ReplaceExactly(t: string, v: string, r: string)
    requires v != ""
    ensures r == Replace(t, v) <==> exists pieces :: Cuts(t, v, pieces) && r == Glue(pieces, "[REDACTED]")
  {
    var cut := Cut(t, v);
    CutsReplace(t, v, cut);
    if pieces :| Cuts(t, v, pieces) && r == Glue(pieces, "[REDACTED]") { CutsReplace(t, v, pieces); }
  }
}
