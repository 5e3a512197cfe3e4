/** JSON values as Python builds them, equality of values, and the key order of `sort_keys=True`. */
module JsonValue {

  /** A dict is its items in insertion order; a float is the token `float.__repr__` prints for it. */
  datatype Json =
    | Null
    | Bool(b: bool)
    | Int(n: int)
    | Float(token: string)
    | Str(s: string)
    | Arr(items: seq<Json>)
    | Obj(members: seq<Member>)

  datatype Member = Member(key: string, value: Json)

  predicate NumberChar(c: char) {
    '0' <= c <= '9' || c == '-' || c == '+' || c == '.' || c == 'e'
  }

  /** What a finite float prints as: number characters, starting like a number, with a point or an exponent. */
  predicate FloatToken(t: string) {
    && t != []
    && ('0' <= t[0] <= '9' || t[0] == '-')
    && (forall i :: 0 <= i < |t| ==> NumberChar(t[i]))
    && (exists i :: 0 <= i < |t| && (t[i] == '.' || t[i] == 'e'))
  }

  predicate DistinctKeys(ms: seq<Member>) {
    forall i, j :: 0 <= i < j < |ms| ==> ms[i].key != ms[j].key
  }

  /** The keys of each dict are distinct, and each float token is one. */
  predicate WellFormed(v: Json) {
    match v
    case Float(token) => FloatToken(token)
    case Arr(items) => forall i :: 0 <= i < |items| ==> WellFormed(items[i])
    case Obj(members) => DistinctKeys(members) && forall i :: 0 <= i < |members| ==> WellFormed(members[i].value)
    case _ => true
  }

  /** Equality of values: the order of a dict's items does not count, everything else does. */
  predicate Same(a: Json, b: Json)
    decreases a, 2
  {
    match a
    case Arr(xs) =>
      && b.Arr?
      && |xs| == |b.items|
      && forall i :: 0 <= i < |xs| ==> Same(xs[i], b.items[i])
    case Obj(xs) =>
      && b.Obj?
      && (forall i :: 0 <= i < |xs| ==> FoundIn(xs[i], b.members))
      && (forall j :: 0 <= j < |b.members| ==> FoundAmong(xs, b.members[j]))
    case _ => a == b
  }

  predicate SameMember(x: Member, y: Member)
    decreases x, 0
  {
    x.key == y.key && Same(x.value, y.value)
  }

  predicate FoundIn(x: Member, ys: seq<Member>)
    decreases x, 1
  {
    exists j :: 0 <= j < |ys| && SameMember(x, ys[j])
  }

  predicate FoundAmong(xs: seq<Member>, y: Member)
    decreases xs, 1
  {
    exists i :: 0 <= i < |xs| && SameMember(xs[i], y)
  }

  // ----- code-point order and sorting by key

  predicate Less(a: string, b: string) {
    if b == [] then false
    else if a == [] then true
    else a[0] < b[0] || (a[0] == b[0] && Less(a[1..], b[1..]))
  }

  lemma {:induction false} LessTotal(a: string, b: string)
    ensures Less(a, b) || Less(b, a) || a == b
    ensures !(Less(a, b) && Less(b, a)) && !Less(a, a)
  {
    if a != [] && b != [] {
      LessTotal(a[1..], b[1..]);
      assert a == [a[0]] + a[1..] && b == [b[0]] + b[1..];
    }
    if a != [] {
      LessIrreflexive(a);
    }
  }

  lemma {:induction false} LessIrreflexive(a: string)
    ensures !Less(a, a)
  {
    if a == [] {
    } else {
      LessIrreflexive(a[1..]);
    }
  }

  lemma {:induction false} LessTransitive(a: string, b: string, c: string)
    requires Less(a, b) && Less(b, c)
    ensures Less(a, c)
  {
    if a != [] && a[0] == b[0] && b[0] == c[0] {
      LessTransitive(a[1..], b[1..], c[1..]);
    }
  }

  predicate Sorted(ms: seq<Member>) {
    forall i, j :: 0 <= i < j < |ms| ==> Less(ms[i].key, ms[j].key)
  }

  function Insert(m: Member, ms: seq<Member>): seq<Member> {
    if ms == [] then [m]
    else if Less(ms[0].key, m.key) then [ms[0]] + Insert(m, ms[1..])
    else [m] + ms
  }

  function Sort(ms: seq<Member>): seq<Member> {
    if ms == [] then [] else Insert(ms[0], Sort(ms[1..]))
  }

  lemma {:induction false} InsertElements(m: Member, ms: seq<Member>)
    ensures forall x :: x in Insert(m, ms) <==> x == m || x in ms
  {
    if ms == [] {
    } else {
      InsertElements(m, ms[1..]);
      assert ms == [ms[0]] + ms[1..];
    }
  }

  lemma {:induction false} InsertSorted(m: Member, ms: seq<Member>)
    requires Sorted(ms) && forall x :: x in ms ==> x.key != m.key
    ensures Sorted(Insert(m, ms))
  {
    if ms == [] {
    } else {
      var rest := ms[1..];
      assert ms == [ms[0]] + rest;
      LessTotal(ms[0].key, m.key);
      if Less(ms[0].key, m.key) {
        InsertSorted(m, rest);
        InsertElements(m, rest);
        forall x | x in Insert(m, rest) ensures Less(ms[0].key, x.key) {
          if x != m {
            var i :| 0 <= i < |rest| && rest[i] == x;
            assert ms[i + 1] == x;
          }
        }
      } else {
        forall x | x in rest ensures Less(m.key, x.key) {
          LessTransitive(m.key, ms[0].key, x.key);
        }
      }
    }
  }

  lemma {:induction false} SortProperties(ms: seq<Member>)
    requires DistinctKeys(ms)
    ensures forall x :: x in Sort(ms) <==> x in ms
    ensures Sorted(Sort(ms))
  {
    if ms == [] {
    } else {
      SortProperties(ms[1..]);
      InsertElements(ms[0], Sort(ms[1..]));
      InsertSorted(ms[0], Sort(ms[1..]));
      assert ms == [ms[0]] + ms[1..];
    }
  }

  /** Two sorted item lists with the same items are the same list. */
  lemma {:induction false} SortedUnique(xs: seq<Member>, ys: seq<Member>)
    requires Sorted(xs) && Sorted(ys) && forall m :: m in xs <==> m in ys
    ensures xs == ys
  {
    assert ys == [] || ys[0] in ys;
    if xs == [] {
    } else {
      HeadIsLeast(xs, ys);
      TailsAgree(xs, ys);
      SortedUnique(xs[1..], ys[1..]);
      assert xs == [xs[0]] + xs[1..] && ys == [ys[0]] + ys[1..];
    }
  }

  lemma HeadIsLeast(xs: seq<Member>, ys: seq<Member>)
    requires xs != [] && Sorted(xs) && Sorted(ys) && forall m :: m in xs <==> m in ys
    ensures ys != [] && xs[0] == ys[0]
  {
    assert xs[0] in ys;
    var j :| 0 <= j < |ys| && ys[j] == xs[0];
    assert ys[0] in ys && ys[0] in xs;
    var i :| 0 <= i < |xs| && xs[i] == ys[0];
    if i > 0 && j > 0 {
      LessTotal(xs[0].key, ys[0].key);
      assert false;
    }
  }

  lemma TailsAgree(xs: seq<Member>, ys: seq<Member>)
    requires xs != [] && ys != [] && xs[0] == ys[0] && Sorted(xs) && Sorted(ys) && forall m :: m in xs <==> m in ys
    ensures forall m :: m in xs[1..] <==> m in ys[1..]
  {
    LessIrreflexive(xs[0].key);
    HeadOnce(xs);
    HeadOnce(ys);
  }

  lemma HeadOnce(xs: seq<Member>)
    requires xs != [] && Sorted(xs) && !Less(xs[0].key, xs[0].key)
    ensures forall m :: m in xs[1..] <==> m in xs && m != xs[0]
  {
    assert xs == [xs[0]] + xs[1..];
    forall m | m in xs[1..] ensures m != xs[0] {
      var i :| 0 <= i < |xs[1..]| && xs[1..][i] == m;
      assert xs[i + 1] == m;
    }
  }

  // ----- the normal form: every dict sorted by key

  function Norm(v: Json): Json {
    match v
    case Arr(items) => Arr(NormItems(items))
    case Obj(members) => Obj(Sort(NormMembers(members)))
    case _ => v
  }

  function NormItems(items: seq<Json>): (r: seq<Json>)
    ensures |r| == |items|
    ensures forall i :: 0 <= i < |items| ==> r[i] == Norm(items[i])
  {
    if items == [] then [] else [Norm(items[0])] + NormItems(items[1..])
  }

  function NormMembers(ms: seq<Member>): (r: seq<Member>)
    ensures |r| == |ms|
    ensures forall i :: 0 <= i < |ms| ==> r[i] == Member(ms[i].key, Norm(ms[i].value))
  {
    if ms == [] then [] else [Member(ms[0].key, Norm(ms[0].value))] + NormMembers(ms[1..])
  }

  /** Equal values have equal normal forms. */
  lemma {:induction false} SameNorm(a: Json, b: Json)
    requires WellFormed(a) && WellFormed(b) && Same(a, b)
    ensures Norm(a) == Norm(b)
    decreases a, 1
  {
    match a {
      case Arr(xs) =>
        var ys := b.items;
        forall i | 0 <= i < |xs| ensures Norm(xs[i]) == Norm(ys[i]) {
          SameNorm(xs[i], ys[i]);
        }
        assert NormItems(xs) == NormItems(ys);
      case Obj(xs) =>
        SameNormMembers(xs, b.members);
      case _ =>
    }
  }

  predicate WellFormedMembers(ms: seq<Member>) {
    DistinctKeys(ms) && forall i :: 0 <= i < |ms| ==> WellFormed(ms[i].value)
  }

  lemma {:induction false} SameNormMembers(xs: seq<Member>, ys: seq<Member>)
    requires WellFormedMembers(xs) && WellFormedMembers(ys)
    requires forall i :: 0 <= i < |xs| ==> FoundIn(xs[i], ys)
    requires forall j :: 0 <= j < |ys| ==> FoundAmong(xs, ys[j])
    ensures Sort(NormMembers(xs)) == Sort(NormMembers(ys))
    decreases xs, 1
  {
    hide Same, SameMember, FoundIn, FoundAmong, WellFormed, Norm, Sort;
    var nx, ny := NormMembers(xs), NormMembers(ys);
    forall i | 0 <= i < |xs| ensures nx[i] in ny {
      FoundInNorm(xs[i], ys);
    }
    forall j | 0 <= j < |ys| ensures ny[j] in nx {
      FoundAmongNorm(xs, ys[j]);
    }
    SameElements(nx, ny);
  }

  lemma {:induction false} FoundInNorm(x: Member, ys: seq<Member>)
    requires WellFormed(x.value) && WellFormedMembers(ys) && FoundIn(x, ys)
    ensures Member(x.key, Norm(x.value)) in NormMembers(ys)
    decreases x, 0
  {
    hide Same, WellFormed, Norm;
    var j :| 0 <= j < |ys| && SameMember(x, ys[j]);
    SameNorm(x.value, ys[j].value);
    assert NormMembers(ys)[j] == Member(x.key, Norm(x.value));
  }

  lemma {:induction false} FoundAmongNorm(xs: seq<Member>, y: Member)
    requires WellFormedMembers(xs) && WellFormed(y.value) && FoundAmong(xs, y)
    ensures Member(y.key, Norm(y.value)) in NormMembers(xs)
    decreases xs, 0
  {
    hide Same, WellFormed, Norm;
    var i :| 0 <= i < |xs| && SameMember(xs[i], y);
    SameNorm(xs[i].value, y.value);
    assert NormMembers(xs)[i] == Member(y.key, Norm(y.value));
  }

  lemma SameElements(nx: seq<Member>, ny: seq<Member>)
    requires DistinctKeys(nx) && DistinctKeys(ny)
    requires forall i :: 0 <= i < |nx| ==> nx[i] in ny
    requires forall j :: 0 <= j < |ny| ==> ny[j] in nx
    ensures Sort(nx) == Sort(ny)
  {
    hide Sort;
    SortProperties(nx);
    SortProperties(ny);
    SortedUnique(Sort(nx), Sort(ny));
  }

  /** Equal normal forms come from equal values. */
  lemma {:induction false} NormSame(a: Json, b: Json)
    requires WellFormed(a) && WellFormed(b) && Norm(a) == Norm(b)
    ensures Same(a, b)
    decreases a, 1
  {
    match a {
      case Arr(xs) =>
        var ys := b.items;
        assert |xs| == |NormItems(xs)| == |NormItems(ys)| == |ys|;
        forall i | 0 <= i < |xs| ensures Same(xs[i], ys[i]) {
          assert NormItems(xs)[i] == NormItems(ys)[i];
          NormSame(xs[i], ys[i]);
        }
      case Obj(xs) =>
        NormSameMembers(xs, b.members);
      case _ =>
    }
  }

  lemma {:induction false} NormSameMembers(xs: seq<Member>, ys: seq<Member>)
    requires WellFormedMembers(xs) && WellFormedMembers(ys)
    requires Sort(NormMembers(xs)) == Sort(NormMembers(ys))
    ensures forall i :: 0 <= i < |xs| ==> FoundIn(xs[i], ys)
    ensures forall j :: 0 <= j < |ys| ==> FoundAmong(xs, ys[j])
    decreases xs, 0
  {
    hide Same, Norm, Sort, Sorted;
    var nx, ny := NormMembers(xs), NormMembers(ys);
    SortProperties(nx);
    SortProperties(ny);
    forall i | 0 <= i < |xs| ensures FoundIn(xs[i], ys) {
      assert nx[i] in Sort(nx) && nx[i] in ny;
      var j :| 0 <= j < |ny| && ny[j] == nx[i];
      NormSame(xs[i].value, ys[j].value);
      assert SameMember(xs[i], ys[j]);
    }
    forall j | 0 <= j < |ys| ensures FoundAmong(xs, ys[j]) {
      assert ny[j] in Sort(ny) && ny[j] in nx;
      var i :| 0 <= i < |nx| && nx[i] == ny[j];
      NormSame(xs[i].value, ys[j].value);
      assert SameMember(xs[i], ys[j]);
    }
  }
}
