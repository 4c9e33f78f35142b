/** Facts about sequences of elements: what selecting, mapping and splitting them keeps. */
module Queues {
  import opened MultiplexerSpec

  // Selecting.

  lemma {:induction false} SelectMembers(q: seq<Elem>, f: Elem -> bool)
    ensures forall e :: e in Select(q, f) <==> e in q && f(e)
  {
    if q != [] {
      var q0, last := q[..|q| - 1], q[|q| - 1];
      SelectMembers(q0, f);
      assert q == q0 + [last];
    }
  }

  lemma {:induction false} SelectAppend(a: seq<Elem>, b: seq<Elem>, f: Elem -> bool)
    ensures Select(a + b, f) == Select(a, f) + Select(b, f)
  {
    if b == [] {
      assert a + b == a;
    } else {
      var b0 := b[..|b| - 1];
      assert (a + b)[..|a + b| - 1] == a + b0;
      SelectAppend(a, b0, f);
    }
  }

  lemma {:induction false} SelectAll(q: seq<Elem>, f: Elem -> bool)
    requires forall e :: e in q ==> f(e)
    ensures Select(q, f) == q
  {
    if q != [] {
      var q0, last := q[..|q| - 1], q[|q| - 1];
      assert q == q0 + [last];
      SelectAll(q0, f);
    }
  }

  lemma {:induction false} SelectNone(q: seq<Elem>, f: Elem -> bool)
    requires forall e :: e in q ==> !f(e)
    ensures Select(q, f) == []
  {
    if q != [] {
      var q0, last := q[..|q| - 1], q[|q| - 1];
      assert q == q0 + [last];
      SelectNone(q0, f);
    }
  }

  // The shape of the queue.

  function Rank(e: Elem): (r: nat) {
    match e.status
    case Written => 0
    case Staged => 1
    case Waiting => 2
  }

  /** Written requests come first, then staged ones, then those that wait. */
  predicate Shape(q: seq<Elem>) {
    forall i, j :: 0 <= i < j < |q| ==> Rank(q[i]) <= Rank(q[j])
  }

  lemma {:induction false} ShapeAppend(a: seq<Elem>, b: seq<Elem>)
    ensures Shape(a + b) <==> Shape(a) && Shape(b) && forall x, y :: x in a && y in b ==> Rank(x) <= Rank(y)
  {
    var q := a + b;
    if Shape(q) {
      forall i, j | 0 <= i < j < |a| ensures Rank(a[i]) <= Rank(a[j]) {
        assert q[i] == a[i] && q[j] == a[j];
      }
      forall i, j | 0 <= i < j < |b| ensures Rank(b[i]) <= Rank(b[j]) {
        assert q[|a| + i] == b[i] && q[|a| + j] == b[j];
      }
      forall x, y | x in a && y in b ensures Rank(x) <= Rank(y) {
        var i :| 0 <= i < |a| && a[i] == x;
        var j :| 0 <= j < |b| && b[j] == y;
        assert q[i] == x && q[|a| + j] == y;
      }
    }
  }

  lemma {:induction false} SelectShape(q: seq<Elem>, f: Elem -> bool)
    requires Shape(q)
    ensures Shape(Select(q, f))
  {
    if q != [] {
      var q0, last := q[..|q| - 1], q[|q| - 1];
      assert q == q0 + [last];
      ShapeAppend(q0, [last]);
      SelectShape(q0, f);
      SelectMembers(q0, f);
      ShapeAppend(Select(q0, f), if f(last) then [last] else []);
    }
  }

  /** With that shape, the linear scan finds the boundary a binary search finds. */
  lemma {:induction false} LeadIs(q: seq<Elem>)
    requires Shape(q)
    ensures forall i :: 0 <= i < |q| ==> (i < Lead(q) <==> !q[i].IsWaiting())
  {
    if q != [] {
      if q[0].IsWaiting() {
        assert forall i :: 0 < i < |q| ==> Rank(q[0]) <= Rank(q[i]);
      } else {
        LeadIs(q[1..]);
      }
    }
  }

  lemma {:induction false} LeadUnique(q: seq<Elem>, n: nat)
    requires n <= |q|
    requires forall i :: 0 <= i < |q| ==> (i < n <==> !q[i].IsWaiting())
    ensures Lead(q) == n
  {
    if q != [] && n > 0 {
      LeadUnique(q[1..], n - 1);
    }
  }

  // Mapping.

  lemma {:induction false} MapMembers(q: seq<Elem>, m: Elem -> Elem)
    ensures forall e :: e in MapElems(q, m) <==> exists d :: d in q && e == m(d)
  {
    var r := MapElems(q, m);
    forall e | e in r ensures exists d :: d in q && e == m(d) {
      var i :| 0 <= i < |r| && r[i] == e;
      assert q[i] in q && e == m(q[i]);
    }
    forall d | d in q ensures m(d) in r {
      var i :| 0 <= i < |q| && q[i] == d;
      assert r[i] == m(d);
    }
  }

  // Counting elements and adding up their fields.

  /** How often an element with this id occurs. */
  function Count(q: seq<Elem>, id: nat): (n: nat) {
    if q == [] then 0 else Count(q[..|q| - 1], id) + if q[|q| - 1].id == id then 1 else 0
  }

  function Sum(q: seq<Elem>, f: Elem -> int): (n: int) {
    if q == [] then 0 else Sum(q[..|q| - 1], f) + f(q[|q| - 1])
  }

  lemma {:induction false} CountAppend(a: seq<Elem>, b: seq<Elem>, id: nat)
    ensures Count(a + b, id) == Count(a, id) + Count(b, id)
  {
    if b == [] {
      assert a + b == a;
    } else {
      assert (a + b)[..|a + b| - 1] == a + b[..|b| - 1];
      CountAppend(a, b[..|b| - 1], id);
    }
  }

  lemma {:induction false} SumAppend(a: seq<Elem>, b: seq<Elem>, f: Elem -> int)
    ensures Sum(a + b, f) == Sum(a, f) + Sum(b, f)
  {
    if b == [] {
      assert a + b == a;
    } else {
      assert (a + b)[..|a + b| - 1] == a + b[..|b| - 1];
      SumAppend(a, b[..|b| - 1], f);
    }
  }

  lemma {:induction false} Single(e: Elem, id: nat, h: Elem -> int)
    ensures Count([e], id) == if e.id == id then 1 else 0
    ensures Sum([e], h) == h(e)
  {
    assert [e][..0] == [];
  }

  ghost predicate Complement(f: Elem -> bool, g: Elem -> bool) {
    forall e :: g(e) == !f(e)
  }

  lemma {:induction false} SelectSnoc(q: seq<Elem>, f: Elem -> bool, id: nat, h: Elem -> int)
    requires q != []
    ensures
      var last := q[|q| - 1];
      var r := Select(q[..|q| - 1], f);
      && Count(Select(q, f), id) == Count(r, id) + (if f(last) && last.id == id then 1 else 0)
      && Sum(Select(q, f), h) == Sum(r, h) + (if f(last) then h(last) else 0)
  {
    var last := q[|q| - 1];
    var r := Select(q[..|q| - 1], f);
    if f(last) {
      assert (r + [last])[..|r|] == r;
    } else {
      assert r + [] == r;
    }
  }

  /** Selecting by a property and by its opposite loses nothing and invents nothing. */
  lemma {:induction false} SelectSplits(q: seq<Elem>, f: Elem -> bool, g: Elem -> bool, id: nat, h: Elem -> int)
    requires Complement(f, g)
    ensures Count(Select(q, f), id) + Count(Select(q, g), id) == Count(q, id)
    ensures Sum(Select(q, f), h) + Sum(Select(q, g), h) == Sum(q, h)
  {
    if q != [] {
      SelectSplits(q[..|q| - 1], f, g, id, h);
      SelectSnoc(q, f, id, h);
      SelectSnoc(q, g, id, h);
      assert g(q[|q| - 1]) == !f(q[|q| - 1]);
    }
  }

  lemma {:induction false} MapKeeps(q: seq<Elem>, m: Elem -> Elem, id: nat, h: Elem -> int)
    requires forall e :: m(e).id == e.id && h(m(e)) == h(e)
    ensures Count(MapElems(q, m), id) == Count(q, id) && Sum(MapElems(q, m), h) == Sum(q, h)
  {
    if q != [] {
      var q0 := q[..|q| - 1];
      MapKeeps(q0, m, id, h);
      assert MapElems(q, m)[..|q| - 1] == MapElems(q0, m);
    }
  }

  /** An id that occurs at most once belongs to one position. */
  lemma {:induction false} CountedOnce(q: seq<Elem>, i: nat)
    requires i < |q|
    ensures Count(q, q[i].id) >= 1
    ensures Count(q, q[i].id) <= 1 ==> forall j :: 0 <= j < |q| && j != i ==> q[j].id != q[i].id
  {
    var id := q[i].id;
    assert q == q[..i] + [q[i]] + q[i + 1..];
    CountAppend(q[..i] + [q[i]], q[i + 1..], id);
    CountAppend(q[..i], [q[i]], id);
    Single(q[i], id, x => 0);
    forall j | 0 <= j < |q| && j != i && q[j].id == id ensures Count(q, id) >= 2 {
      if j < i {
        CountHas(q[..i], j);
      } else {
        assert q[i + 1..][j - i - 1] == q[j];
        CountHas(q[i + 1..], j - i - 1);
      }
    }
  }

  lemma {:induction false} CountHas(q: seq<Elem>, i: nat)
    requires i < |q|
    ensures Count(q, q[i].id) >= 1
    decreases |q|
  {
    if i < |q| - 1 {
      CountHas(q[..|q| - 1], i);
    }
  }

  lemma {:induction false} CountOnly(q: seq<Elem>, id: nat)
    requires Count(q, id) >= 1
    ensures exists i :: 0 <= i < |q| && q[i].id == id
  {
    if q[|q| - 1].id != id {
      CountOnly(q[..|q| - 1], id);
      var i :| 0 <= i < |q| - 1 && q[..|q| - 1][i].id == id;
      assert q[i].id == id;
    }
  }

  lemma {:induction false} CountNone(q: seq<Elem>, id: nat)
    requires forall i :: 0 <= i < |q| ==> q[i].id != id
    ensures Count(q, id) == 0
  {
    if q != [] {
      CountNone(q[..|q| - 1], id);
    }
  }
}
