/**
 * Canonicalisation of JSON values before they are hashed: object keys are sorted at
 * every level, array order is kept.
 */
module CanonicalJson {
  import opened Common

  /** A UTF-16 code unit; strings are compared unit by unit, as JavaScript sorts them. */
  newtype Unit = x: int | 0 <= x < 0x10000

  type Key = seq<Unit>

  /** Objects list their own keys in enumeration order, each once. */
  datatype Json =
    | JNull
    | JBool(b: bool)
    | JNumber(n: real)
    | JString(s: Key)
    | JArray(items: seq<Json>)
    | JObject(members: seq<(Key, Json)>)

  // -------------------------------------------------------------- the key order

  predicate Less(a: Key, b: Key) {
    b != [] && (a == [] || a[0] < b[0] || (a[0] == b[0] && Less(a[1..], b[1..])))
  }

  lemma {:induction false} LessTotal(a: Key, b: Key)
    ensures a == b || Less(a, b) || Less(b, a)
  {
    if a != [] && b != [] && a[0] == b[0] {
      LessTotal(a[1..], b[1..]);
      assert a == [a[0]] + a[1..] && b == [b[0]] + b[1..];
    }
  }

  lemma {:induction false} LessAntisymmetric(a: Key, b: Key)
    requires Less(a, b)
    ensures !Less(b, a) && a != b
  {
    if a != [] && a[0] == b[0] {
      LessAntisymmetric(a[1..], b[1..]);
    }
  }

  lemma {:induction false} LessTransitive(a: Key, b: Key, c: Key)
    requires Less(a, b) && Less(b, c)
    ensures Less(a, c)
  {
    if a != [] && a[0] == b[0] && b[0] == c[0] {
      LessTransitive(a[1..], b[1..], c[1..]);
    }
  }

  ghost predicate Sorted(ks: seq<Key>) {
    forall i, j :: 0 <= i < j < |ks| ==> Less(ks[i], ks[j])
  }

  /** Insertion into a sorted list; a key already there is not repeated. */
  function Insert(k: Key, ks: seq<Key>): (r: seq<Key>)
    ensures forall x :: x in r <==> x == k || x in ks
  {
    if ks == [] then [k]
    else if k == ks[0] then ks
    else if Less(k, ks[0]) then [k] + ks
    else [ks[0]] + Insert(k, ks[1..])
  }

  /** `Object.keys(obj).sort()`. */
  function SortKeys(ks: seq<Key>): (r: seq<Key>)
    ensures forall x :: x in r <==> x in ks
  {
    if ks == [] then [] else Insert(ks[0], SortKeys(ks[1..]))
  }

  lemma {:induction false} InsertSorted(k: Key, ks: seq<Key>)
    requires Sorted(ks)
    ensures Sorted(Insert(k, ks))
  {
    if ks != [] && k != ks[0] {
      if Less(k, ks[0]) {
        forall j | 0 <= j < |ks| ensures Less(k, ks[j]) {
          if j > 0 {
            LessTransitive(k, ks[0], ks[j]);
          }
        }
      } else {
        LessTotal(k, ks[0]);
        InsertSorted(k, ks[1..]);
        var rest := Insert(k, ks[1..]);
        forall j | 0 <= j < |rest| ensures Less(ks[0], rest[j]) {
          assert rest[j] in rest;
        }
      }
    }
  }

  lemma {:induction false} SortKeysSorted(ks: seq<Key>)
    ensures Sorted(SortKeys(ks))
  {
    if ks != [] {
      SortKeysSorted(ks[1..]);
      InsertSorted(ks[0], SortKeys(ks[1..]));
    }
  }

  /** A sorted list is determined by its elements. */
  lemma {:induction false} SortedUnique(a: seq<Key>, b: seq<Key>)
    requires Sorted(a) && Sorted(b) && forall x :: x in a <==> x in b
    ensures a == b
  {
    if b != [] {
      HasElement(b);
    }
    if a != [] {
      HasElement(a);
      HeadIsLeast(a, b[0]);
      HeadIsLeast(b, a[0]);
      if a[0] != b[0] {
        LessAntisymmetric(a[0], b[0]);
      }
      TailElements(a);
      TailElements(b);
      SortedUnique(a[1..], b[1..]);
      assert a == [a[0]] + a[1..] && b == [b[0]] + b[1..];
    }
  }

  lemma HasElement(a: seq<Key>)
    requires a != []
    ensures a[0] in a && exists x :: x in a
  {
  }

  lemma HeadIsLeast(a: seq<Key>, x: Key)
    requires Sorted(a) && x in a
    ensures x == a[0] || Less(a[0], x)
  {
  }

  lemma TailElements(a: seq<Key>)
    requires Sorted(a) && a != []
    ensures forall x :: x in a[1..] <==> x in a && x != a[0]
  {
    forall x | x in a[1..]
      ensures x != a[0]
    {
      var i :| 0 <= i < |a[1..]| && a[1..][i] == x;
      LessAntisymmetric(a[0], a[i + 1]);
    }
    assert a == [a[0]] + a[1..];
  }

  /** The order is that of code units: at the first difference, or by length if there is none. */
  lemma {:induction false} LessIff(a: Key, b: Key)
    ensures Less(a, b) <==>
              || (a < b)
              || exists i :: 0 <= i < |a| && i < |b| && a[..i] == b[..i] && a[i] < b[i]
  {
    if a != [] && b != [] {
      LessIff(a[1..], b[1..]);
      assert a == [a[0]] + a[1..] && b == [b[0]] + b[1..];
      if a[0] == b[0] {
        if i :| 0 <= i < |a| && i < |b| && a[..i] == b[..i] && a[i] < b[i] {
          assert i > 0 && a[1..][..i - 1] == a[..i][1..] == b[1..][..i - 1];
          assert a[1..][i - 1] < b[1..][i - 1];
        }
        if j :| 0 <= j < |a[1..]| && j < |b[1..]| && a[1..][..j] == b[1..][..j] && a[1..][j] < b[1..][j] {
          assert a[..j + 1] == [a[0]] + a[1..][..j] == b[..j + 1];
          assert a[j + 1] < b[j + 1];
        }
        assert a < b <==> a[1..] < b[1..];
      } else if a[0] < b[0] {
        assert a[..0] == b[..0];
      } else {
        forall i | 0 < i < |a| && i < |b|
          ensures a[..i] != b[..i]
        {
          assert a[..i][0] == a[0] && b[..i][0] == b[0];
        }
      }
    }
  }

  // -------------------------------------------------------------- plain objects

  /** `__proto__`: assigning to it sets the prototype and creates no member. */
  const PROTO: Key := [95, 95, 112, 114, 111, 116, 111, 95, 95]

  type Members = seq<(Key, Json)>

  function Keys(ms: Members): (r: seq<Key>)
    ensures |r| == |ms| && forall i :: 0 <= i < |ms| ==> r[i] == ms[i].0
  {
    seq(|ms|, i requires 0 <= i < |ms| => ms[i].0)
  }

  /** Where a key stands, or the length if it is not there. */
  function Find(ms: Members, k: Key): (i: nat)
    ensures i <= |ms| && (i < |ms| ==> ms[i].0 == k)
    ensures forall j :: 0 <= j < i ==> ms[j].0 != k
  {
    if ms == [] || ms[0].0 == k then 0 else 1 + Find(ms[1..], k)
  }

  predicate Has(ms: Members, k: Key) {
    Find(ms, k) < |ms|
  }

  function Get(ms: Members, k: Key): Json
    requires Has(ms, k)
  {
    ms[Find(ms, k)].1
  }

  predicate IsDigits(k: Key) {
    forall i :: 0 <= i < |k| ==> 48 <= k[i] <= 57
  }

  function Number(k: Key): int {
    if k == [] then 0 else 10 * Number(k[..|k| - 1]) + (k[|k| - 1] as int - 48)
  }

  /** Array indices are enumerated before all other keys, in ascending order. */
  predicate IsIndex(k: Key) {
    k != [] && IsDigits(k) && (k[0] == 48 ==> |k| == 1) && Number(k) < 0xFFFF_FFFF
  }

  predicate EnumeratedBefore(a: Key, b: Key) {
    if IsIndex(b) then IsIndex(a) && Number(a) < Number(b) else true
  }

  /** A new member goes to its place in the enumeration order. */
  function Place(ms: Members, k: Key, v: Json): Members {
    if ms != [] && EnumeratedBefore(ms[0].0, k) then [ms[0]] + Place(ms[1..], k, v) else [(k, v)] + ms
  }

  /** The assignment `obj[k] = v`. */
  function Assign(ms: Members, k: Key, v: Json): Members {
    if k == PROTO then ms
    else if Has(ms, k) then ms[Find(ms, k) := (k, v)]
    else Place(ms, k, v)
  }

  // ------------------------------------------------------------- canonicalisation

  function Canon(v: Json): Json
    decreases v, 1, 0
  {
    match v
    case JArray(items) => JArray(seq(|items|, i requires 0 <= i < |items| => Canon(items[i])))
    case JObject(ms) => JObject(Fill(v, SortKeys(Keys(ms)), []))
    case _ => v
  }

  /** Assigns the canonical value of each key in turn; keys the object lacks are skipped. */
  function Fill(v: Json, ks: seq<Key>, acc: Members): Members
    requires v.JObject?
    decreases v, 0, |ks|
  {
    if ks == [] then acc
    else if Has(v.members, ks[0])
    then Fill(v, ks[1..], Assign(acc, ks[0], Canon(v.members[Find(v.members, ks[0])].1)))
    else Fill(v, ks[1..], acc)
  }

  /** No object repeats a key, which holds of every JavaScript object. */
  ghost predicate WellFormed(v: Json) {
    match v
    case JArray(items) => forall i :: 0 <= i < |items| ==> WellFormed(items[i])
    case JObject(ms) => Distinct(Keys(ms)) && forall i :: 0 <= i < |ms| ==> WellFormed(ms[i].1)
    case _ => true
  }

  /** No object at any level has the key `__proto__`. */
  ghost predicate ProtoFree(v: Json) {
    match v
    case JArray(items) => forall i :: 0 <= i < |items| ==> ProtoFree(items[i])
    case JObject(ms) => forall i :: 0 <= i < |ms| ==> ms[i].0 != PROTO && ProtoFree(ms[i].1)
    case _ => true
  }

  /** Equal up to the order of object keys at every level, disregarding the keys in `but`. */
  ghost predicate Same(a: Json, b: Json, but: set<Key>) {
    match (a, b)
    case (JArray(xs), JArray(ys)) => |xs| == |ys| && forall i :: 0 <= i < |xs| ==> Same(xs[i], ys[i], but)
    case (JObject(ms), JObject(ns)) =>
      forall k :: k !in but ==>
        (Has(ms, k) <==> Has(ns, k)) && (Has(ms, k) ==> Same(ms[Find(ms, k)].1, ns[Find(ns, k)].1, but))
    case _ => a == b && !a.JArray? && !a.JObject?
  }

  lemma {:induction false} PlaceGet(ms: Members, k: Key, v: Json, x: Key)
    requires !Has(ms, k)
    ensures Has(Place(ms, k, v), x) <==> x == k || Has(ms, x)
    ensures Has(Place(ms, k, v), x) ==> Get(Place(ms, k, v), x) == if x == k then v else Get(ms, x)
  {
    if ms != [] && EnumeratedBefore(ms[0].0, k) {
      PlaceGet(ms[1..], k, v, x);
      var rest := Place(ms[1..], k, v);
      assert ([ms[0]] + rest)[1..] == rest;
    } else {
      assert ([(k, v)] + ms)[1..] == ms;
    }
  }

  lemma {:induction false} FindByKeys(ms: Members, ms': Members, k: Key)
    requires |ms| == |ms'| && forall i :: 0 <= i < |ms| ==> ms[i].0 == ms'[i].0
    ensures Find(ms, k) == Find(ms', k)
  {
  }

  lemma AssignGet(ms: Members, k: Key, v: Json, x: Key)
    ensures Has(Assign(ms, k, v), x) <==> (x == k && k != PROTO) || Has(ms, x)
    ensures Has(Assign(ms, k, v), x) ==> Get(Assign(ms, k, v), x) == if x == k && k != PROTO then v else Get(ms, x)
  {
    if k != PROTO {
      if Has(ms, k) {
        FindByKeys(ms, Assign(ms, k, v), x);
      } else {
        PlaceGet(ms, k, v, x);
      }
    }
  }

  /** What filling an object reads back as. */
  lemma {:induction false} FillGet(v: Json, ks: seq<Key>, acc: Members, x: Key)
    requires v.JObject?
    ensures Has(Fill(v, ks, acc), x) <==> (x in ks && Has(v.members, x) && x != PROTO) || Has(acc, x)
    ensures Has(Fill(v, ks, acc), x) ==>
              Get(Fill(v, ks, acc), x) ==
              (if x in ks && Has(v.members, x) && x != PROTO then Canon(Get(v.members, x)) else Get(acc, x))
    decreases |ks|
  {
    if ks != [] {
      assert x in ks <==> x == ks[0] || x in ks[1..];
      if Has(v.members, ks[0]) {
        var acc' := Assign(acc, ks[0], Canon(Get(v.members, ks[0])));
        AssignGet(acc, ks[0], Canon(Get(v.members, ks[0])), x);
        FillGet(v, ks[1..], acc', x);
      } else {
        FillGet(v, ks[1..], acc, x);
      }
    }
  }

  lemma KeysHas(ms: Members, x: Key)
    ensures x in Keys(ms) <==> Has(ms, x)
  {
  }

  /** The members of a canonical object: every key but `__proto__`, with its canonical value. */
  lemma CanonGet(v: Json, x: Key)
    requires v.JObject?
    ensures Canon(v).JObject?
    ensures Has(Canon(v).members, x) <==> Has(v.members, x) && x != PROTO
    ensures Has(Canon(v).members, x) ==> Get(Canon(v).members, x) == Canon(Get(v.members, x))
  {
    KeysHas(v.members, x);
    FillGet(v, SortKeys(Keys(v.members)), [], x);
  }

  // ------------------------------------------------- the order of the keys

  /** Array indices first, in ascending order, and then the other keys in the order they were sorted in. */
  ghost predicate KeysInOrder(ks: seq<Key>) {
    forall i, j :: 0 <= i < j < |ks| ==>
      && (IsIndex(ks[j]) ==> IsIndex(ks[i]) && Number(ks[i]) < Number(ks[j]))
      && (!IsIndex(ks[i]) && !IsIndex(ks[j]) ==> Less(ks[i], ks[j]))
  }

  /** The keys still to come are new, and come after the other keys that are there. */
  ghost predicate ComeAfter(ms: Members, ks: seq<Key>) {
    forall i, j :: 0 <= i < |ms| && 0 <= j < |ks| ==>
      ms[i].0 != ks[j] && (!IsIndex(ms[i].0) ==> Less(ms[i].0, ks[j]))
  }

  lemma {:induction false} DigitsValue(k: Key, l: Key)
    requires IsDigits(k) && IsDigits(l) && |k| == |l| && Number(k) == Number(l)
    ensures k == l
  {
    if k != [] {
      var n := |k| - 1;
      DigitsValue(k[..n], l[..n]);
      assert k == k[..n] + [k[n]] && l == l[..n] + [l[n]];
    }
  }

  lemma {:induction false} NumberBounds(k: Key)
    requires IsDigits(k) && k != []
    ensures Number(k) >= 0
    ensures k[0] != 48 ==> Number(k) >= Power10(|k| - 1)
    ensures Number(k) < Power10(|k|)
  {
    var n := |k| - 1;
    if n > 0 {
      NumberBounds(k[..n]);
    } else {
      assert Number(k[..0]) == 0;
    }
  }

  function Power10(n: nat): nat {
    if n == 0 then 1 else 10 * Power10(n - 1)
  }

  lemma {:induction false} PowerGrows(m: nat, n: nat)
    requires m <= n
    ensures Power10(m) <= Power10(n)
    decreases n
  {
    if m < n {
      PowerGrows(m, n - 1);
    }
  }

  /** An array index is written in one way only. */
  lemma IndexNumbers(k: Key, l: Key)
    requires IsIndex(k) && IsIndex(l) && Number(k) == Number(l)
    ensures k == l
  {
    NumberBounds(k);
    NumberBounds(l);
    if |k| < |l| {
      IndexLengths(k, l);
    } else if |l| < |k| {
      IndexLengths(l, k);
    } else {
      DigitsValue(k, l);
    }
  }

  lemma IndexLengths(k: Key, l: Key)
    requires IsIndex(k) && IsIndex(l) && |k| < |l|
    ensures Number(k) < Number(l)
  {
    NumberBounds(k);
    NumberBounds(l);
    PowerGrows(|k|, |l| - 1);
  }

  /** The decimal notation of a number. */
  function Decimal(n: nat): (text: string)
    ensures text != ""
  {
    var digit := "0123456789"[n % 10];
    if n < 10 then [digit] else Decimal(n / 10) + [digit]
  }

  lemma {:induction false} DecimalReadsBack(k: Key, n: nat)
    requires Spells(k, Decimal(n))
    ensures k != [] && IsDigits(k) && Number(k) == n
    ensures k[0] == 48 ==> |k| == 1
  {
    var m := |k| - 1;
    assert k == k[..m] + [k[m]] && k[m] as int == 48 + n % 10 by {
      assert forall d: nat :: d < 10 ==> "0123456789"[d] as int == 48 + d;
    }
    if n >= 10 {
      DecimalReadsBack(k[..m], n / 10);
    } else {
      assert k[..0] == [];
    }
  }

  lemma {:induction false} DigitsSpell(k: Key)
    requires k != [] && IsDigits(k) && (k[0] == 48 ==> |k| == 1)
    ensures Number(k) >= 0 && Spells(k, Decimal(Number(k)))
  {
    NumberBounds(k);
    var m := |k| - 1;
    var d := k[m] as int - 48;
    assert "0123456789"[d] as int == 48 + d;
    if m > 0 {
      DigitsSpell(k[..m]);
      NumberBounds(k[..m]);
      PowerGrows(0, m - 1);
      assert Number(k) == 10 * Number(k[..m]) + d && Number(k) / 10 == Number(k[..m]) && Number(k) % 10 == d;
    } else {
      assert k[..0] == [] && Number(k[..0]) == 0;
    }
  }

  predicate IsDecimalOf(k: Key, n: nat) {
    Spells(k, Decimal(n))
  }

  /** An array index is the decimal notation of a number below 2^32 - 1. */
  lemma IsIndexIff(k: Key)
    ensures IsIndex(k) <==> exists n: nat :: n < 4294967295 && IsDecimalOf(k, n)
  {
    if IsIndex(k) {
      DigitsSpell(k);
      assert IsDecimalOf(k, Number(k));
    }
    if n: nat :| n < 4294967295 && IsDecimalOf(k, n) {
      DecimalReadsBack(k, n);
    }
  }

  lemma {:induction false} PlaceKeys(ms: Members, k: Key, v: Json, x: Key)
    ensures x in Keys(Place(ms, k, v)) <==> x == k || x in Keys(ms)
  {
    if ms != [] && EnumeratedBefore(ms[0].0, k) {
      PlaceKeys(ms[1..], k, v, x);
      assert Keys([ms[0]] + Place(ms[1..], k, v)) == [ms[0].0] + Keys(Place(ms[1..], k, v));
      assert Keys(ms) == [ms[0].0] + Keys(ms[1..]);
    } else {
      assert Keys([(k, v)] + ms) == [k] + Keys(ms);
    }
  }

  lemma {:induction false} PlaceOrdered(ms: Members, k: Key, v: Json)
    requires KeysInOrder(Keys(ms)) && ComeAfter(ms, [k])
    ensures KeysInOrder(Keys(Place(ms, k, v)))
  {
    hide KeysInOrder, IsIndex, Number;
    if ms != [] && EnumeratedBefore(ms[0].0, k) {
      var rest := Place(ms[1..], k, v);
      TailInOrder(ms);
      assert ComeAfter(ms[1..], [k]) by {
        assert forall i :: 0 <= i < |ms[1..]| ==> ms[1..][i] == ms[i + 1];
      }
      PlaceOrdered(ms[1..], k, v);
      forall y | y in Keys(rest)
        ensures y == k || y in Keys(ms[1..])
      {
        PlaceKeys(ms[1..], k, v, y);
      }
      assert [k][0] == k;
      FrontInOrder(ms, k, rest);
      assert Keys([ms[0]] + rest) == [ms[0].0] + Keys(rest);
    } else {
      assert Keys([(k, v)] + ms) == [k] + Keys(ms);
      NewFront(ms, k);
    }
  }

  lemma TailInOrder(ms: Members)
    requires ms != [] && KeysInOrder(Keys(ms))
    ensures KeysInOrder(Keys(ms[1..]))
  {
    assert forall i :: 0 <= i < |ms| - 1 ==> Keys(ms[1..])[i] == Keys(ms)[i + 1];
  }

  lemma FrontInOrder(ms: Members, k: Key, rest: Members)
    requires ms != [] && KeysInOrder(Keys(ms)) && EnumeratedBefore(ms[0].0, k) && KeysInOrder(Keys(rest))
    requires ms[0].0 != k && (!IsIndex(ms[0].0) ==> Less(ms[0].0, k))
    requires forall y :: y in Keys(rest) ==> y == k || y in Keys(ms[1..])
    ensures KeysInOrder([ms[0].0] + Keys(rest))
  {
    var ks := [ms[0].0] + Keys(rest);
    forall j | 0 < j < |ks|
      ensures IsIndex(ks[j]) ==> IsIndex(ks[0]) && Number(ks[0]) < Number(ks[j])
      ensures !IsIndex(ks[0]) && !IsIndex(ks[j]) ==> Less(ks[0], ks[j])
    {
      assert ks[j] in Keys(rest);
      if ks[j] != k {
        var i :| 0 <= i < |ms[1..]| && Keys(ms[1..])[i] == ks[j];
        assert Keys(ms)[0] == ks[0] && Keys(ms)[i + 1] == ks[j];
      }
    }
  }

  lemma NewFront(ms: Members, k: Key)
    requires KeysInOrder(Keys(ms)) && ComeAfter(ms, [k])
    requires ms == [] || !EnumeratedBefore(ms[0].0, k)
    ensures KeysInOrder([k] + Keys(ms))
  {
    var ks := [k] + Keys(ms);
    forall j | 0 < j < |ks|
      ensures IsIndex(ks[j]) ==> IsIndex(k) && Number(k) < Number(ks[j])
      ensures !IsIndex(k) && !IsIndex(ks[j]) ==> Less(k, ks[j])
    {
      assert ks[j] == Keys(ms)[j - 1] && ms[0].0 == Keys(ms)[0] && [k][0] == k && ms[0].0 != k;
      if IsIndex(ms[0].0) && Number(ms[0].0) == Number(k) {
        IndexNumbers(ms[0].0, k);
      }
    }
  }

  lemma NotThere(ms: Members, k: Key)
    requires forall i :: 0 <= i < |ms| ==> ms[i].0 != k
    ensures !Has(ms, k)
  {
  }

  lemma {:induction false} FillOrdered(v: Json, ks: seq<Key>, acc: Members)
    requires v.JObject? && Sorted(ks) && KeysInOrder(Keys(acc)) && ComeAfter(acc, ks)
    ensures KeysInOrder(Keys(Fill(v, ks, acc)))
    decreases |ks|
  {
    if ks != [] {
      var rest := ks[1..];
      assert ComeAfter(acc, rest);
      if Has(v.members, ks[0]) && ks[0] != PROTO {
        var acc' := Place(acc, ks[0], Canon(Get(v.members, ks[0])));
        assert ComeAfter(acc, [ks[0]]);
        NotThere(acc, ks[0]);
        PlaceOrdered(acc, ks[0], Canon(Get(v.members, ks[0])));
        PlacedComeAfter(acc, ks, Canon(Get(v.members, ks[0])));
        FillOrdered(v, rest, acc');
      } else {
        FillOrdered(v, rest, acc);
      }
    }
  }

  lemma PlacedComeAfter(acc: Members, ks: seq<Key>, v: Json)
    requires ks != [] && Sorted(ks) && KeysInOrder(Keys(acc)) && ComeAfter(acc, ks)
    ensures ComeAfter(Place(acc, ks[0], v), ks[1..])
  {
    var acc' := Place(acc, ks[0], v);
    forall i, j | 0 <= i < |acc'| && 0 <= j < |ks[1..]|
      ensures acc'[i].0 != ks[1..][j] && (!IsIndex(acc'[i].0) ==> Less(acc'[i].0, ks[1..][j]))
    {
      var x := acc'[i].0;
      assert Keys(acc')[i] == x;
      assert ComeAfter(acc, [ks[0]]);
      PlaceKeys(acc, ks[0], v, x);
      if x == ks[0] {
        LessAntisymmetric(ks[0], ks[j + 1]);
      } else {
        var m :| 0 <= m < |acc| && Keys(acc)[m] == x;
        assert acc[m].0 == x && ks[1..][j] == ks[j + 1];
      }
    }
  }

  /** The keys of a canonical object come out in this order, whatever order they went in. */
  lemma CanonKeysInOrder(v: Json)
    requires v.JObject?
    ensures Canon(v).JObject? && KeysInOrder(Keys(Canon(v).members))
  {
    SortKeysSorted(Keys(v.members));
    FillOrdered(v, SortKeys(Keys(v.members)), []);
  }

  // ---------------------------------------------------------------- main results

  function WithoutProto(ks: seq<Key>): (r: seq<Key>)
    ensures forall x :: x in r <==> x in ks && x != PROTO
  {
    if ks == [] then []
    else if ks[0] == PROTO then WithoutProto(ks[1..]) else [ks[0]] + WithoutProto(ks[1..])
  }

  lemma {:induction false} WithoutProtoSorted(ks: seq<Key>)
    requires Sorted(ks)
    ensures Sorted(WithoutProto(ks))
  {
    if ks != [] {
      WithoutProtoSorted(ks[1..]);
      var rest := WithoutProto(ks[1..]);
      forall j | 0 <= j < |rest|
        ensures Less(ks[0], rest[j])
      {
        assert rest[j] in ks[1..];
      }
    }
  }

  /** Filling from the keys without `__proto__` gives the same object. */
  lemma {:induction false} FillSkipsProto(v: Json, ks: seq<Key>, acc: Members)
    requires v.JObject?
    ensures Fill(v, ks, acc) == Fill(v, WithoutProto(ks), acc)
    decreases |ks|
  {
    if ks != [] {
      if Has(v.members, ks[0]) {
        FillSkipsProto(v, ks[1..], Assign(acc, ks[0], Canon(Get(v.members, ks[0]))));
      } else {
        FillSkipsProto(v, ks[1..], acc);
      }
      var w := WithoutProto(ks[1..]);
      assert ([ks[0]] + w)[1..] == w;
    }
  }

  lemma {:induction false} FillAgrees(a: Json, b: Json, ks: seq<Key>, acc: Members)
    requires a.JObject? && b.JObject?
    requires forall k :: k in ks ==>
               Has(a.members, k) && Has(b.members, k) && Canon(Get(a.members, k)) == Canon(Get(b.members, k))
    ensures Fill(a, ks, acc) == Fill(b, ks, acc)
    decreases |ks|
  {
    if ks != [] {
      assert ks[0] in ks;
      FillAgrees(a, b, ks[1..], Assign(acc, ks[0], Canon(Get(a.members, ks[0]))));
    }
  }

  lemma ObjectsAgree(a: Json, b: Json)
    requires a.JObject? && b.JObject?
    requires forall k :: k != PROTO ==> (Has(a.members, k) <==> Has(b.members, k))
    requires forall k :: k != PROTO && Has(a.members, k) ==> Canon(Get(a.members, k)) == Canon(Get(b.members, k))
    ensures Canon(a) == Canon(b)
  {
    var ka, kb := SortKeys(Keys(a.members)), SortKeys(Keys(b.members));
    FillSkipsProto(a, ka, []);
    FillSkipsProto(b, kb, []);
    SortKeysSorted(Keys(a.members));
    SortKeysSorted(Keys(b.members));
    WithoutProtoSorted(ka);
    WithoutProtoSorted(kb);
    forall x
      ensures x in Keys(a.members) <==> Has(a.members, x)
      ensures x in Keys(b.members) <==> Has(b.members, x)
    {
      KeysHas(a.members, x);
      KeysHas(b.members, x);
    }
    SortedUnique(WithoutProto(ka), WithoutProto(kb));
    FillAgrees(a, b, WithoutProto(ka), []);
  }

  lemma ArraysAgree(a: Json, b: Json)
    requires a.JArray? && b.JArray?
    ensures Canon(a) == Canon(b) <==>
              |a.items| == |b.items| && forall i :: 0 <= i < |a.items| ==> Canon(a.items[i]) == Canon(b.items[i])
  {
    var xs, ys := Canon(a).items, Canon(b).items;
    assert |xs| == |a.items| && forall i :: 0 <= i < |xs| ==> xs[i] == Canon(a.items[i]);
    assert |ys| == |b.items| && forall i :: 0 <= i < |ys| ==> ys[i] == Canon(b.items[i]);
    if |xs| == |ys| && forall i :: 0 <= i < |xs| ==> Canon(a.items[i]) == Canon(b.items[i]) {
      assert xs == ys;
    }
  }

  /**
   * Two values canonicalise to the same structure, key order included, exactly when they
   * are equal up to the order of keys at every level, disregarding `__proto__` keys.
   */
  lemma {:induction false} CanonicalIffSame(a: Json, b: Json)
    ensures Canon(a) == Canon(b) <==> Same(a, b, {PROTO})
  {
    match (a, b)
    case (JArray(xs), JArray(ys)) =>
      if |xs| == |ys| {
        forall i | 0 <= i < |xs|
          ensures Canon(xs[i]) == Canon(ys[i]) <==> Same(xs[i], ys[i], {PROTO})
        {
          CanonicalIffSame(xs[i], ys[i]);
        }
      }
      ArraysAgree(a, b);
    case (JObject(ms), JObject(ns)) =>
      forall k | k != PROTO && Has(ms, k) && Has(ns, k)
        ensures Canon(Get(ms, k)) == Canon(Get(ns, k)) <==> Same(Get(ms, k), Get(ns, k), {PROTO})
      {
        CanonicalIffSame(ms[Find(ms, k)].1, ns[Find(ns, k)].1);
      }
      if Canon(a) == Canon(b) {
        forall k | k != PROTO
          ensures Has(ms, k) <==> Has(ns, k)
          ensures Has(ms, k) ==> Canon(Get(ms, k)) == Canon(Get(ns, k))
        {
          CanonGet(a, k);
          CanonGet(b, k);
        }
      }
      if Same(a, b, {PROTO}) {
        ObjectsAgree(a, b);
      }
    case _ =>
  }

  lemma {:induction false} CanonSameAsInput(v: Json)
    ensures Same(Canon(v), v, {PROTO})
  {
    match v
    case JArray(items) =>
      forall i | 0 <= i < |items|
        ensures Same(Canon(items[i]), items[i], {PROTO})
      {
        CanonSameAsInput(items[i]);
      }
    case JObject(ms) =>
      forall k | k != PROTO
        ensures Has(Canon(v).members, k) <==> Has(ms, k)
        ensures Has(ms, k) ==> Same(Get(Canon(v).members, k), Get(ms, k), {PROTO})
      {
        CanonGet(v, k);
        if Has(ms, k) {
          CanonSameAsInput(ms[Find(ms, k)].1);
        }
      }
    case _ =>
  }

  /** Canonicalising twice changes nothing more. */
  lemma CanonIdempotent(v: Json)
    ensures Canon(Canon(v)) == Canon(v)
  {
    CanonSameAsInput(v);
    CanonicalIffSame(Canon(v), v);
  }

  lemma ProtoFreeMember(v: Json, k: Key)
    requires v.JObject? && ProtoFree(v)
    ensures Has(v.members, k) ==> k != PROTO && ProtoFree(Get(v.members, k))
  {
  }

  /** Without `__proto__` keys, disregarding them makes no difference. */
  lemma {:induction false} SameWithoutProto(a: Json, b: Json)
    requires ProtoFree(a) && ProtoFree(b)
    ensures Same(a, b, {}) <==> Same(a, b, {PROTO})
  {
    match (a, b)
    case (JArray(xs), JArray(ys)) =>
      if |xs| == |ys| {
        forall i | 0 <= i < |xs|
          ensures Same(xs[i], ys[i], {}) <==> Same(xs[i], ys[i], {PROTO})
        {
          SameWithoutProto(xs[i], ys[i]);
        }
      }
    case (JObject(ms), JObject(ns)) =>
      forall k
        ensures Has(ms, k) || Has(ns, k) ==> k != PROTO
        ensures Has(ms, k) && Has(ns, k) ==>
                  (Same(Get(ms, k), Get(ns, k), {}) <==> Same(Get(ms, k), Get(ns, k), {PROTO}))
      {
        ProtoFreeMember(a, k);
        ProtoFreeMember(b, k);
        if Has(ms, k) && Has(ns, k) {
          SameWithoutProto(ms[Find(ms, k)].1, ns[Find(ns, k)].1);
        }
      }
    case _ =>
  }

  /** For values without `__proto__` keys: equal canonical forms exactly when equal up to key order. */
  lemma CanonicalIffEqualUpToOrder(a: Json, b: Json)
    requires ProtoFree(a) && ProtoFree(b)
    ensures Canon(a) == Canon(b) <==> Same(a, b, {})
  {
    CanonicalIffSame(a, b);
    SameWithoutProto(a, b);
  }

  ghost predicate MembersProtoFree(ms: Members) {
    forall i :: 0 <= i < |ms| ==> ms[i].0 != PROTO && ProtoFree(ms[i].1)
  }

  lemma {:induction false} AssignProtoFree(ms: Members, k: Key, v: Json)
    requires MembersProtoFree(ms) && ProtoFree(v)
    ensures MembersProtoFree(Assign(ms, k, v))
  {
    if k != PROTO && !Has(ms, k) {
      PlaceProtoFree(ms, k, v);
    }
  }

  lemma {:induction false} PlaceProtoFree(ms: Members, k: Key, v: Json)
    requires MembersProtoFree(ms) && ProtoFree(v) && k != PROTO
    ensures MembersProtoFree(Place(ms, k, v))
  {
    if ms != [] && EnumeratedBefore(ms[0].0, k) {
      PlaceProtoFree(ms[1..], k, v);
    }
  }

  lemma {:induction false} FillProtoFree(v: Json, ks: seq<Key>, acc: Members)
    requires v.JObject? && MembersProtoFree(acc)
    ensures MembersProtoFree(Fill(v, ks, acc))
    decreases v, 0, |ks|
  {
    if ks != [] {
      if Has(v.members, ks[0]) {
        var x := v.members[Find(v.members, ks[0])].1;
        CanonProtoFree(x);
        AssignProtoFree(acc, ks[0], Canon(x));
        FillProtoFree(v, ks[1..], Assign(acc, ks[0], Canon(x)));
      } else {
        FillProtoFree(v, ks[1..], acc);
      }
    }
  }

  /** A canonical value has no `__proto__` key. */
  lemma {:induction false} CanonProtoFree(v: Json)
    ensures ProtoFree(Canon(v))
    decreases v, 1, 0
  {
    match v
    case JArray(items) =>
      forall i | 0 <= i < |items|
        ensures ProtoFree(Canon(items[i]))
      {
        CanonProtoFree(items[i]);
      }
    case JObject(ms) => FillProtoFree(v, SortKeys(Keys(ms)), []);
    case _ =>
  }

  lemma {:induction false} LosslessMeansProtoFree(v: Json)
    requires WellFormed(v) && Same(Canon(v), v, {})
    ensures ProtoFree(v)
  {
    match v
    case JArray(items) =>
      forall i | 0 <= i < |items|
        ensures ProtoFree(items[i])
      {
        assert Canon(v).items[i] == Canon(items[i]);
        LosslessMeansProtoFree(items[i]);
      }
    case JObject(ms) =>
      forall i | 0 <= i < |ms|
        ensures ms[i].0 != PROTO && ProtoFree(ms[i].1)
      {
        var k := ms[i].0;
        assert Keys(ms)[i] == k;
        KeysHas(ms, k);
        assert Find(ms, k) == i by {
          assert Keys(ms)[Find(ms, k)] == k;
        }
        CanonGet(v, k);
        LosslessMeansProtoFree(ms[i].1);
      }
    case _ =>
  }

  /** Canonicalisation keeps the value, up to key order, exactly when it has no `__proto__` key. */
  lemma LosslessIffProtoFree(v: Json)
    requires WellFormed(v)
    ensures Same(Canon(v), v, {}) <==> ProtoFree(v)
  {
    if ProtoFree(v) {
      CanonProtoFree(v);
      CanonSameAsInput(v);
      SameWithoutProto(Canon(v), v);
    } else if Same(Canon(v), v, {}) {
      LosslessMeansProtoFree(v);
    }
  }

  /**
   * When canonical equality means equality up to key order: a value has that property,
   * against every value without `__proto__` keys, exactly when it has no such key itself.
   */
  lemma MeetsPromiseIffProtoFree(a: Json)
    requires WellFormed(a)
    ensures (forall b :: ProtoFree(b) ==> (Canon(b) == Canon(a) <==> Same(b, a, {}))) <==> ProtoFree(a)
  {
    if ProtoFree(a) {
      forall b | ProtoFree(b)
        ensures Canon(b) == Canon(a) <==> Same(b, a, {})
      {
        CanonicalIffEqualUpToOrder(b, a);
      }
    } else {
      CanonIdempotent(a);
      CanonProtoFree(a);
      LosslessIffProtoFree(a);
    }
  }

  predicate Spells(k: Key, text: string) {
    |k| == |text| && forall i :: 0 <= i < |k| ==> k[i] as int == text[i] as int
  }

  /** The member that makes the difference: an object with only a `__proto__` key canonicalises to the empty object. */
  lemma ProtoKeyIsDropped(k: Key, v: Json)
    requires Spells(k, "__proto__")
    ensures Canon(JObject([(k, v)])) == Canon(JObject([]))
    ensures !Same(JObject([(k, v)]), JObject([]), {})
  {
    assert k == PROTO;
    var a, b := JObject([(PROTO, v)]), JObject([]);
    assert forall k :: Has(a.members, k) <==> k == PROTO;
    assert Has(a.members, PROTO) && !Has(b.members, PROTO) && PROTO !in {};
    CanonicalIffSame(a, b);
  }

  // --------------------------------------------------------------------- hashing

  /** What is hashed; `None` is JavaScript's `undefined`, `stringify` JSON.stringify on JSON values. */
  function HashedText(input: Option<Json>, stringify: Json -> string): string {
    if input.None? then "undefined" else stringify(Canon(input.value))
  }

  /** `sha` is the hex SHA-256 of a text. */
  function HashInput(input: Option<Json>, stringify: Json -> string, sha: string -> string): string {
    "sha256:" + sha(HashedText(input, stringify))
  }

  /** `stringify` tells `a` from `undefined` and from `b` where they differ. */
  ghost predicate TellsApart(stringify: Json -> string, a: Option<Json>, b: Option<Json>) {
    && (a.Some? ==> stringify(Canon(a.value)) != "undefined")
    && (a.Some? && b.Some? && stringify(Canon(a.value)) == stringify(Canon(b.value)) ==>
          Canon(a.value) == Canon(b.value))
  }

  /**
   * Inputs have one hash exactly when both are `undefined` or both are values that are
   * the same up to key order, unless stringify or SHA-256 collides on them.
   */
  lemma HashIffSame(a: Option<Json>, b: Option<Json>, stringify: Json -> string, sha: string -> string)
    requires sha(HashedText(a, stringify)) == sha(HashedText(b, stringify)) ==>
               HashedText(a, stringify) == HashedText(b, stringify)
    requires TellsApart(stringify, a, b) && TellsApart(stringify, b, a)
    ensures HashInput(a, stringify, sha) == HashInput(b, stringify, sha) <==>
              (a.None? && b.None?) || (a.Some? && b.Some? && Same(a.value, b.value, {PROTO}))
  {
    hide Same, Canon;
    if a.Some? && b.Some? {
      CanonicalIffSame(a.value, b.value);
    }
    var ha, hb := HashInput(a, stringify, sha), HashInput(b, stringify, sha);
    assert ha[7..] == sha(HashedText(a, stringify)) && hb[7..] == sha(HashedText(b, stringify));
  }

  // --------------------------------------------------------------- implementation

  /** `canonicalize`: a fresh object is filled from the sorted keys. */
  method Canonicalize(v: Json) returns (r: Json)
    ensures r == Canon(v)
    decreases v
  {
    if v.JArray? {
      var items := [];
      var i := 0;
      while i < |v.items|
        invariant 0 <= i <= |v.items| && |items| == i
        invariant forall j :: 0 <= j < i ==> items[j] == Canon(v.items[j])
      {
        var item := Canonicalize(v.items[i]);
        items := items + [item];
        i := i + 1;
      }
      return JArray(items);
    }
    if !v.JObject? {
      return v;
    }
    var keys := SortKeys(Keys(v.members));
    var result: Members := [];
    var i := 0;
    while i < |keys|
      invariant 0 <= i <= |keys|
      invariant Fill(v, keys[i..], result) == Fill(v, keys, [])
    {
      KeysHas(v.members, keys[i]);
      assert keys[i] in keys && keys[i..][0] == keys[i] && keys[i..][1..] == keys[i + 1..];
      var value := Canonicalize(v.members[Find(v.members, keys[i])].1);
      result := Assign(result, keys[i], value);
      i := i + 1;
    }
    return JObject(result);
  }
}
