/** The limits of a bounded value, said of everything inside it. */
module JsonLimits {
  import opened JsonText
  import opened JsonBounds
  import opened HostMessages

  /** v is an item or a member of j. */
  ghost predicate Child(j: Json, v: Json) {
    (j.Arr? && v in j.items) || (j.Obj? && exists k :: k in j.fields && j.fields[k] == v)
  }

  /** v lies d levels inside j. */
  ghost predicate Inside(j: Json, v: Json, d: nat)
    decreases d
  {
    if d == 0 then v == j else exists c :: Child(j, c) && Inside(c, v, d - 1)
  }

  /** Signed 64-bit integers; texts of 65536 characters without the zero character; 512 items or members,
      with keys of 1 to 255 characters. */
  predicate Plain(v: Json) {
    match v
    case Num(n) => -9_223_372_036_854_775_808 <= n <= 9_223_372_036_854_775_807
    case Str(s) => |s| <= 65_536 && '\0' !in s
    case Arr(items) => |items| <= 512
    case Obj(fields) => |fields| <= 512 && forall k <- fields :: 1 <= |k| <= 255
    case _ => true
  }

  ghost predicate AllPlain(j: Json, depth: nat) {
    forall v, d: nat :: Inside(j, v, d) ==> depth + d <= 16 && Plain(v)
  }

  ghost predicate ChildrenPlain(j: Json, depth: nat) {
    forall c :: Child(j, c) ==> AllPlain(c, depth)
  }

  lemma AllPlainDown(j: Json, depth: nat)
    ensures AllPlain(j, depth) <==> depth <= 16 && Plain(j) && ChildrenPlain(j, depth + 1)
  {
    if AllPlain(j, depth) {
      assert Inside(j, j, 0);
      forall c | Child(j, c) ensures AllPlain(c, depth + 1) {
        forall v, d: nat | Inside(c, v, d) ensures depth + 1 + d <= 16 && Plain(v) { assert Inside(j, v, d + 1); }
      }
    }
    if depth <= 16 && Plain(j) && ChildrenPlain(j, depth + 1) {
      forall v, d: nat | Inside(j, v, d) ensures depth + d <= 16 && Plain(v) {
        if d > 0 {
          var c :| Child(j, c) && Inside(c, v, d - 1);
          assert AllPlain(c, depth + 1);
        }
      }
    }
  }

  lemma ArrayChildren(items: seq<Json>, depth: nat)
    ensures ChildrenPlain(Arr(items), depth) <==> forall x <- items :: AllPlain(x, depth)
  {
    assert forall x :: Child(Arr(items), x) <==> x in items;
  }

  lemma ObjectChildren(fields: map<string, Json>, depth: nat)
    ensures ChildrenPlain(Obj(fields), depth) <==> forall k <- fields :: AllPlain(fields[k], depth)
  {
    if ChildrenPlain(Obj(fields), depth) {
      forall k <- fields ensures AllPlain(fields[k], depth) { assert Child(Obj(fields), fields[k]); }
    }
  }

  lemma NoChildren(j: Json, depth: nat)
    requires !j.Arr? && !j.Obj?
    ensures ChildrenPlain(j, depth)
  {
  }

  lemma {:induction false} BoundedIsPlain(j: Json, depth: nat)
    ensures Bounded(j, depth) <==> AllPlain(j, depth)
    decreases j, 1
  {
    if j.Arr? {
      ArrayIsPlain(j, depth);
    } else if j.Obj? {
      ObjectIsPlain(j, depth);
    } else {
      AllPlainDown(j, depth);
      NoChildren(j, depth + 1);
    }
  }

  lemma {:induction false} ArrayIsPlain(j: Json, depth: nat)
    requires j.Arr?
    ensures Bounded(j, depth) <==> AllPlain(j, depth)
    decreases j, 0
  {
    AllPlainDown(j, depth);
    ArrayChildren(j.items, depth + 1);
    forall x <- j.items ensures Bounded(x, depth + 1) <==> AllPlain(x, depth + 1) { BoundedIsPlain(x, depth + 1); }
  }

  lemma {:induction false} ObjectIsPlain(j: Json, depth: nat)
    requires j.Obj?
    ensures Bounded(j, depth) <==> AllPlain(j, depth)
    decreases j, 0
  {
    AllPlainDown(j, depth);
    ObjectChildren(j.fields, depth + 1);
    forall k <- j.fields ensures Bounded(j.fields[k], depth + 1) <==> AllPlain(j.fields[k], depth + 1) {
      BoundedIsPlain(j.fields[k], depth + 1);
    }
  }

  /** An object is normal if and only if everything inside it is plain and at most sixteen levels deep, and
      it has at most 4096 nodes. */
  lemma NormalExactly(fields: map<string, Json>)
    ensures NormalObject(fields) <==> Nodes(Obj(fields)) <= 4096 && AllPlain(Obj(fields), 0)
  {
    BoundedIsPlain(Obj(fields), 0);
  }
}
