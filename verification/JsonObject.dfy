/** json::object: fields in a vector, sorted by key and searched by halving, or kept in the order of
    insertion and searched one by one.  Either way it is a map from keys to values. */
module JsonObjects {
  import opened Common

  type Key = string

  datatype Json =
    | Null
    | Bool(b: bool)
    | Number(n: real)
    | String(s: string)
    | Array(items: seq<Json>)
    | Object(fields: seq<Field>)

  datatype Field = Field(key: Key, value: Json)

  // ----- the order of keys

  /** operator< on strings. */
  predicate Less(a: Key, b: Key) {
    b != [] && (a == [] || a[0] < b[0] || (a[0] == b[0] && Less(a[1..], b[1..])))
  }

  lemma {:induction false} LessTotal(a: Key, b: Key)
    ensures a == b || Less(a, b) || Less(b, a)
    ensures !(Less(a, b) && Less(b, a)) && (a == b ==> !Less(a, b))
  {
    if a != [] && b != [] {
      LessTotal(a[1..], b[1..]);
      if a[0] == b[0] {
        assert a == [a[0]] + a[1..] && b == [b[0]] + b[1..];
      }
    }
  }

  /** a and b are alike up to i, where a has ended or has the smaller character. */
  predicate FirstLess(a: Key, b: Key, i: nat) {
    i <= |a| && i < |b| && a[..i] == b[..i] && (i == |a| || a[i] < b[i])
  }

  lemma FirstLessTail(a: Key, b: Key, i: nat)
    requires a != [] && b != [] && a[0] == b[0]
    ensures FirstLess(a[1..], b[1..], i) <==> FirstLess(a, b, i + 1)
  {
    var c, d := a[1..], b[1..];
    if i <= |c| && i < |d| {
      assert a[..i + 1] == [a[0]] + c[..i] && b[..i + 1] == [b[0]] + d[..i];
      assert a[..i + 1][1..] == c[..i] && b[..i + 1][1..] == d[..i];
    }
  }

  lemma FirstLessNow(a: Key, b: Key, i: nat)
    requires a != [] && b != [] && a[0] != b[0]
    ensures FirstLess(a, b, i) <==> i == 0 && a[0] < b[0]
  {
    if 0 < i <= |a| && i < |b| {
      assert a[..i][0] != b[..i][0];
    }
  }

  lemma NotYet(a: Key, b: Key)
    requires a != [] && b != [] && a[0] == b[0]
    ensures !FirstLess(a, b, 0)
  {
  }

  /** The order is that of the first character that differs, and a proper prefix comes first. */
  lemma {:induction false} LessIsLexicographic(a: Key, b: Key)
    ensures Less(a, b) <==> exists i: nat :: FirstLess(a, b, i)
  {
    if a != [] && b != [] && a[0] == b[0] {
      LessIsLexicographic(a[1..], b[1..]);
      hide FirstLess;
      forall i: nat ensures FirstLess(a[1..], b[1..], i) <==> FirstLess(a, b, i + 1) {
        FirstLessTail(a, b, i);
      }
      assert !FirstLess(a, b, 0) by {
        NotYet(a, b);
      }
      if i: nat :| FirstLess(a, b, i) {
        assert FirstLess(a[1..], b[1..], i - 1);
      }
      if i: nat :| FirstLess(a[1..], b[1..], i) {
        assert FirstLess(a, b, i + 1);
      }
    } else if a != [] && b != [] {
      hide FirstLess;
      forall i: nat ensures FirstLess(a, b, i) <==> i == 0 && a[0] < b[0] {
        FirstLessNow(a, b, i);
      }
      assert FirstLess(a, b, 0) <==> a[0] < b[0];
    } else if b != [] {
      assert FirstLess(a, b, 0);
    }
  }

  lemma {:induction false} LessTransitive(a: Key, b: Key, c: Key)
    requires Less(a, b) && Less(b, c)
    ensures Less(a, c)
  {
    if a != [] && a[0] == b[0] == c[0] {
      LessTransitive(a[1..], b[1..], c[1..]);
    }
  }

  // ----- fields

  /** No key twice. */
  ghost predicate Unique(es: seq<Field>) {
    forall i, j | 0 <= i < j < |es| :: es[i].key != es[j].key
  }

  ghost predicate Sorted(es: seq<Field>) {
    forall i, j | 0 <= i < j < |es| :: Less(es[i].key, es[j].key)
  }

  /** The map that the fields stand for. */
  function ToMap(es: seq<Field>): map<Key, Json> {
    if es == [] then map[] else
    var last := es[|es| - 1];
    ToMap(es[..|es| - 1])[last.key := last.value]
  }

  function Keys(es: seq<Field>): (r: seq<Key>)
    ensures |r| == |es| && forall i | 0 <= i < |r| :: r[i] == es[i].key
  {
    seq(|es|, i requires 0 <= i < |es| => es[i].key)
  }

  function InsertAt(es: seq<Field>, i: nat, f: Field): seq<Field>
    requires i <= |es|
  {
    es[..i] + [f] + es[i..]
  }

  function RemoveAt(es: seq<Field>, i: nat): seq<Field>
    requires i < |es|
  {
    es[..i] + es[i + 1..]
  }

  lemma {:induction false} KeysInMap(es: seq<Field>)
    ensures forall i | 0 <= i < |es| :: es[i].key in ToMap(es)
    ensures Unique(es) ==> forall i | 0 <= i < |es| :: ToMap(es)[es[i].key] == es[i].value
  {
    if es != [] {
      KeysInMap(es[..|es| - 1]);
    }
  }

  lemma {:induction false} MapInKeys(es: seq<Field>)
    ensures forall k | k in ToMap(es) :: exists i :: 0 <= i < |es| && es[i].key == k
  {
    if es != [] {
      var front := es[..|es| - 1];
      MapInKeys(front);
      forall k | k in ToMap(es) ensures exists i :: 0 <= i < |es| && es[i].key == k {
        if k in ToMap(front) {
          var i :| 0 <= i < |front| && front[i].key == k;
          assert es[i].key == k;
        } else {
          assert es[|es| - 1].key == k;
        }
      }
    }
  }

  /** The keys of the map are the keys of the fields, and each has its field's value. */
  lemma MapHas(es: seq<Field>)
    ensures forall i | 0 <= i < |es| :: es[i].key in ToMap(es)
    ensures forall k | k in ToMap(es) :: exists i :: 0 <= i < |es| && es[i].key == k
    ensures Unique(es) ==> forall i | 0 <= i < |es| :: ToMap(es)[es[i].key] == es[i].value
  {
    hide ToMap, Unique;
    KeysInMap(es);
    MapInKeys(es);
  }

  lemma ToMapSnoc(es: seq<Field>, f: Field)
    ensures ToMap(es + [f]) == ToMap(es)[f.key := f.value]
  {
    assert (es + [f])[..|es|] == es;
  }

  lemma InsertBefore(es: seq<Field>, i: nat, f: Field)
    requires i < |es|
    ensures es == es[..|es| - 1] + [es[|es| - 1]]
    ensures InsertAt(es, i, f) == InsertAt(es[..|es| - 1], i, f) + [es[|es| - 1]]
  {
    assert es[i..] == es[..|es| - 1][i..] + [es[|es| - 1]];
  }

  lemma AddsCommute(m: map<Key, Json>, f: Field, g: Field)
    requires f.key != g.key
    ensures m[f.key := f.value][g.key := g.value] == m[g.key := g.value][f.key := f.value]
  {
  }

  lemma {:induction false} MapInsert(es: seq<Field>, i: nat, f: Field)
    requires i <= |es| && f.key !in ToMap(es)
    ensures ToMap(InsertAt(es, i, f)) == ToMap(es)[f.key := f.value]
  {
    hide ToMap;
    if i == |es| {
      assert InsertAt(es, i, f) == es + [f];
      ToMapSnoc(es, f);
    } else {
      var front, last := es[..|es| - 1], es[|es| - 1];
      InsertBefore(es, i, f);
      hide InsertAt;
      ToMapSnoc(front, last);
      ToMapSnoc(InsertAt(front, i, f), last);
      MapInsert(front, i, f);
      AddsCommute(ToMap(front), f, last);
    }
  }

  lemma {:induction false} MapReplace(es: seq<Field>, i: nat, v: Json)
    requires i < |es| && Unique(es)
    ensures ToMap(es[i := Field(es[i].key, v)]) == ToMap(es)[es[i].key := v]
  {
    var last := |es| - 1;
    var front, es' := es[..last], es[i := Field(es[i].key, v)];
    if i == last {
      assert es'[..last] == front;
    } else {
      assert es'[..last] == front[i := Field(front[i].key, v)];
      MapReplace(front, i, v);
    }
  }

  lemma {:induction false} MapRemove(es: seq<Field>, i: nat)
    requires i < |es| && Unique(es)
    ensures ToMap(RemoveAt(es, i)) == ToMap(es) - {es[i].key}
  {
    hide ToMap;
    var last := |es| - 1;
    var front := es[..last];
    ToMapSnoc(front, es[last]);
    assert es == front + [es[last]];
    if i == last {
      assert RemoveAt(es, i) == front;
      MapHas(front);
    } else {
      assert RemoveAt(es, i) == RemoveAt(front, i) + [es[last]];
      MapRemove(front, i);
      ToMapSnoc(RemoveAt(front, i), es[last]);
      hide RemoveAt;
    }
  }

  // ----- finding a place

  /** std::find_if: the first field with the key. */
  function FirstWith(es: seq<Field>, key: Key): (i: nat)
    ensures i <= |es| && (i < |es| ==> es[i].key == key)
    ensures forall j | 0 <= j < i :: es[j].key != key
  {
    if es == [] || es[0].key == key then 0 else 1 + FirstWith(es[1..], key)
  }

  /** std::lower_bound: the first field whose key is not less. */
  function FirstNotLess(es: seq<Field>, key: Key): (i: nat)
    ensures i <= |es| && (i < |es| ==> !Less(es[i].key, key))
    ensures forall j | 0 <= j < i :: Less(es[j].key, key)
  {
    if es == [] || !Less(es[0].key, key) then 0 else 1 + FirstNotLess(es[1..], key)
  }

  /** find_insert_location. */
  function Place(es: seq<Field>, keepOrder: bool, key: Key): (i: nat)
    ensures i <= |es|
  {
    if keepOrder then FirstWith(es, key) else FirstNotLess(es, key)
  }

  ghost predicate Good(es: seq<Field>, keepOrder: bool) {
    if keepOrder then Unique(es) else Sorted(es)
  }

  lemma GoodUnique(es: seq<Field>, keepOrder: bool)
    requires Good(es, keepOrder)
    ensures Unique(es)
  {
    forall i, j | 0 <= i < j < |es| ensures es[i].key != es[j].key {
      LessTotal(es[i].key, es[j].key);
    }
  }

  /** Either search comes to a field with the key just when the map has the key. */
  lemma PlaceFinds(es: seq<Field>, keepOrder: bool, key: Key)
    requires Good(es, keepOrder)
    ensures var i := Place(es, keepOrder, key);
      && (i < |es| && es[i].key == key <==> key in ToMap(es))
      && (key in ToMap(es) ==> ToMap(es)[key] == es[i].value)
  {
    GoodUnique(es, keepOrder);
    MapHas(es);
    LessTotal(key, key);
    hide Less, ToMap, FirstWith, FirstNotLess;
    var i := Place(es, keepOrder, key);
    if key in ToMap(es) {
      var j :| 0 <= j < |es| && es[j].key == key;
      assert j >= i;
      assert keepOrder ==> i == j;
    }
  }

  lemma SortedAround(es: seq<Field>, i: nat, f: Field)
    requires Sorted(es) && i <= |es|
    requires forall j | 0 <= j < i :: Less(es[j].key, f.key)
    requires forall j | i <= j < |es| :: Less(f.key, es[j].key)
    ensures Sorted(InsertAt(es, i, f))
  {
    hide Less;
  }

  lemma SortedInsert(es: seq<Field>, f: Field)
    requires Sorted(es) && f.key !in ToMap(es)
    ensures Sorted(InsertAt(es, FirstNotLess(es, f.key), f))
  {
    var i := FirstNotLess(es, f.key);
    MapHas(es);
    hide Less, ToMap, FirstNotLess;
    if i < |es| {
      LessTotal(f.key, es[i].key);
    }
    forall j | i < j < |es| ensures Less(f.key, es[j].key) {
      LessTransitive(f.key, es[i].key, es[j].key);
    }
    SortedAround(es, i, f);
  }

  lemma InsertedAt(es: seq<Field>, i: nat, f: Field, j: nat)
    requires i <= |es| && j <= |es|
    ensures InsertAt(es, i, f)[j] == if j < i then es[j] else if j == i then f else es[j - 1]
  {
  }

  lemma UniqueInsert(es: seq<Field>, i: nat, f: Field)
    requires i <= |es| && Unique(es) && f.key !in ToMap(es)
    ensures Unique(InsertAt(es, i, f))
  {
    MapHas(es);
    hide ToMap;
    var es' := InsertAt(es, i, f);
    assert |es'| == |es| + 1;
    hide InsertAt;
    forall j, k | 0 <= j < k < |es'| ensures es'[j].key != es'[k].key {
      InsertedAt(es, i, f, j);
      InsertedAt(es, i, f, k);
    }
  }

  // ----- operations on fields

  datatype Op =
    | Subscript(key: Key)
    | Assign(key: Key, value: Json)
    | Erase(key: Key)

  /** operator[]: the field with the key, made with a null value if there is none. */
  function Made(es: seq<Field>, keepOrder: bool, key: Key): (r: seq<Field>)
    ensures Place(es, keepOrder, key) < |r| && r[Place(es, keepOrder, key)].key == key
  {
    var i := Place(es, keepOrder, key);
    if i == |es| || es[i].key != key then InsertAt(es, i, Field(key, Null)) else es
  }

  function Apply(es: seq<Field>, keepOrder: bool, op: Op): seq<Field> {
    var i := Place(es, keepOrder, op.key);
    match op
    case Subscript(key) => Made(es, keepOrder, key)
    case Assign(key, value) => Made(es, keepOrder, key)[i := Field(key, value)]
    case Erase(key) => if i < |es| && es[i].key == key then RemoveAt(es, i) else es
  }

  function ApplyMap(m: map<Key, Json>, op: Op): map<Key, Json> {
    match op
    case Subscript(key) => if key in m then m else m[key := Null]
    case Assign(key, value) => m[key := value]
    case Erase(key) => m - {key}
  }

  function Without(keys: seq<Key>, key: Key): seq<Key> {
    if keys == [] then [] else
    Without(keys[..|keys| - 1], key) + (if keys[|keys| - 1] == key then [] else [keys[|keys| - 1]])
  }

  /** What happens to the keys where the order of insertion is kept. */
  function ApplyOrder(keys: seq<Key>, op: Op): seq<Key> {
    match op
    case Erase(key) => Without(keys, key)
    case _ => if op.key in keys then keys else keys + [op.key]
  }

  lemma MadeRefines(es: seq<Field>, keepOrder: bool, key: Key)
    requires Good(es, keepOrder)
    ensures Good(Made(es, keepOrder, key), keepOrder)
    ensures ToMap(Made(es, keepOrder, key)) == ApplyMap(ToMap(es), Subscript(key))
  {
    var i := Place(es, keepOrder, key);
    GoodUnique(es, keepOrder);
    PlaceFinds(es, keepOrder, key);
    hide Less, ToMap, FirstNotLess, FirstWith, InsertAt, Unique, Sorted;
    if key !in ToMap(es) {
      MapInsert(es, i, Field(key, Null));
      if keepOrder {
        UniqueInsert(es, i, Field(key, Null));
      } else {
        SortedInsert(es, Field(key, Null));
      }
    }
  }

  /** Writing a value where the key is. */
  lemma AssignRefines(made: seq<Field>, keepOrder: bool, i: nat, key: Key, value: Json)
    requires Good(made, keepOrder) && i < |made| && made[i].key == key
    ensures Good(made[i := Field(key, value)], keepOrder)
    ensures ToMap(made[i := Field(key, value)]) == ToMap(made)[key := value]
  {
    GoodUnique(made, keepOrder);
    MapReplace(made, i, value);
    hide Less, ToMap;
  }

  lemma GoodRemove(es: seq<Field>, keepOrder: bool, i: nat)
    requires Good(es, keepOrder) && i < |es|
    ensures Good(RemoveAt(es, i), keepOrder)
  {
    hide Less;
    var es' := RemoveAt(es, i);
    forall j, k | 0 <= j < k < |es'|
      ensures if keepOrder then es'[j].key != es'[k].key else Less(es'[j].key, es'[k].key)
    {
      var j', k' := if j < i then j else j + 1, if k < i then k else k + 1;
      assert es'[j] == es[j'] && es'[k] == es[k'];
    }
  }

  lemma RemoveRefines(es: seq<Field>, keepOrder: bool, i: nat)
    requires Good(es, keepOrder) && i < |es|
    ensures Good(RemoveAt(es, i), keepOrder)
    ensures ToMap(RemoveAt(es, i)) == ToMap(es) - {es[i].key}
  {
    GoodUnique(es, keepOrder);
    MapRemove(es, i);
    hide Less, ToMap;
    GoodRemove(es, keepOrder, i);
    hide Good, RemoveAt;
  }

  /** Every operation keeps the fields in good order and does to the map what it says. */
  lemma ApplyRefines(es: seq<Field>, keepOrder: bool, op: Op)
    requires Good(es, keepOrder)
    ensures Good(Apply(es, keepOrder, op), keepOrder)
    ensures ToMap(Apply(es, keepOrder, op)) == ApplyMap(ToMap(es), op)
  {
    hide Good, Place, ToMap, RemoveAt, Made;
    var i := Place(es, keepOrder, op.key);
    match op {
      case Subscript(key) =>
        MadeRefines(es, keepOrder, key);
      case Assign(key, value) =>
        MadeRefines(es, keepOrder, key);
        AssignRefines(Made(es, keepOrder, key), keepOrder, i, key, value);
      case Erase(key) =>
        PlaceFinds(es, keepOrder, key);
        if i < |es| && es[i].key == key {
          RemoveRefines(es, keepOrder, i);
        }
    }
  }

  lemma {:induction false} WithoutAbsent(keys: seq<Key>, key: Key)
    requires key !in keys
    ensures Without(keys, key) == keys
  {
    if keys != [] {
      var front := keys[..|keys| - 1];
      WithoutAbsent(front, key);
      assert keys == front + [keys[|keys| - 1]];
    }
  }

  lemma WithoutSnoc(keys: seq<Key>, last: Key, key: Key)
    ensures Without(keys + [last], key) == Without(keys, key) + if last == key then [] else [last]
  {
    assert (keys + [last])[..|keys|] == keys;
  }

  lemma {:induction false} WithoutOne(keys: seq<Key>, i: nat)
    requires i < |keys| && forall j, k | 0 <= j < k < |keys| :: keys[j] != keys[k]
    ensures Without(keys, keys[i]) == keys[..i] + keys[i + 1..]
  {
    hide Without;
    var last := |keys| - 1;
    var front := keys[..last];
    assert keys == front + [keys[last]];
    WithoutSnoc(front, keys[last], keys[i]);
    if i == last {
      WithoutAbsent(front, keys[i]);
      assert keys[i + 1..] == [];
    } else {
      WithoutOne(front, i);
      assert front[..i] == keys[..i];
      assert keys[i + 1..] == front[i + 1..] + [keys[last]];
      assert keys[..i] + front[i + 1..] + [keys[last]] == keys[..i] + (front[i + 1..] + [keys[last]]);
    }
  }

  lemma KeysHave(es: seq<Field>, key: Key)
    ensures key in Keys(es) <==> FirstWith(es, key) < |es|
  {
    var i := FirstWith(es, key);
    if i < |es| {
      assert Keys(es)[i] == key;
    }
  }

  lemma EraseKeepsOrder(es: seq<Field>, key: Key)
    requires Unique(es)
    ensures Keys(Apply(es, true, Erase(key))) == Without(Keys(es), key)
  {
    KeysHave(es, key);
    hide FirstWith, Without;
    var keys, i := Keys(es), FirstWith(es, key);
    if i < |es| {
      WithoutOne(keys, i);
      assert Keys(RemoveAt(es, i)) == keys[..i] + keys[i + 1..];
    } else {
      WithoutAbsent(keys, key);
    }
  }

  lemma MadeKeepsOrder(es: seq<Field>, key: Key)
    ensures Keys(Made(es, true, key)) == if FirstWith(es, key) < |es| then Keys(es) else Keys(es) + [key]
  {
    hide FirstWith;
    if FirstWith(es, key) == |es| {
      assert InsertAt(es, |es|, Field(key, Null)) == es + [Field(key, Null)];
    }
  }

  /** Where the order is kept, the keys stay in the order in which they came. */
  lemma ApplyKeepsOrder(es: seq<Field>, op: Op)
    requires Unique(es)
    ensures Keys(Apply(es, true, op)) == ApplyOrder(Keys(es), op)
  {
    KeysHave(es, op.key);
    hide FirstWith, Without;
    if op.Erase? {
      EraseKeepsOrder(es, op.key);
    } else {
      MadeKeepsOrder(es, op.key);
    }
  }

  // ----- building

  /** sort: what the sorting constructor does to the fields. */
  function SortFields(es: seq<Field>): seq<Field> {
    if es == [] then [] else
    var front := SortFields(es[..|es| - 1]);
    InsertAt(front, FirstNotLess(front, es[|es| - 1].key), es[|es| - 1])
  }

  lemma {:induction false} SortRefines(es: seq<Field>)
    requires Unique(es)
    ensures Sorted(SortFields(es)) && ToMap(SortFields(es)) == ToMap(es)
  {
    if es != [] {
      var front, last := es[..|es| - 1], es[|es| - 1];
      SortRefines(front);
      MapHas(front);
      SortedInsert(SortFields(front), last);
      MapInsert(SortFields(front), FirstNotLess(SortFields(front), last.key), last);
    }
  }

  lemma LastIsGreatest(es: seq<Field>, k: Key)
    requires es != [] && Sorted(es) && k in ToMap(es)
    ensures k == es[|es| - 1].key || Less(k, es[|es| - 1].key)
  {
    MapHas(es);
    var i :| 0 <= i < |es| && es[i].key == k;
  }

  lemma LastIsSame(es: seq<Field>, es': seq<Field>)
    requires Sorted(es) && Sorted(es') && ToMap(es) == ToMap(es') && es != [] && es' != []
    ensures es[|es| - 1] == es'[|es'| - 1]
  {
    MapHas(es);
    MapHas(es');
    GoodUnique(es, false);
    GoodUnique(es', false);
    hide Less, ToMap, Unique, Sorted;
    var i, j := |es| - 1, |es'| - 1;
    LastIsGreatest(es, es'[j].key);
    LastIsGreatest(es', es[i].key);
    LessTotal(es[i].key, es'[j].key);
  }

  lemma DropLast(es: seq<Field>)
    requires Sorted(es) && es != []
    ensures Sorted(es[..|es| - 1]) && ToMap(es[..|es| - 1]) == ToMap(es) - {es[|es| - 1].key}
  {
    GoodUnique(es, false);
    MapRemove(es, |es| - 1);
    assert RemoveAt(es, |es| - 1) == es[..|es| - 1];
    hide ToMap, Less;
  }

  /** With no key twice there is one sorted arrangement, so it does not matter which sort made it. */
  lemma {:induction false} SortedIsUnique(es: seq<Field>, es': seq<Field>)
    requires Sorted(es) && Sorted(es') && ToMap(es) == ToMap(es')
    ensures es == es'
  {
    if es != [] && es' != [] {
      var i, j := |es| - 1, |es'| - 1;
      LastIsSame(es, es');
      DropLast(es);
      DropLast(es');
      hide Less, ToMap;
      SortedIsUnique(es[..i], es'[..j]);
      assert es == es[..i] + [es[i]] && es' == es'[..j] + [es'[j]];
    } else {
      MapHas(es);
      MapHas(es');
    }
  }

  function Load(fields: seq<Field>, keepOrder: bool): seq<Field> {
    if keepOrder then fields else SortFields(fields)
  }

  function Run(es: seq<Field>, keepOrder: bool, ops: seq<Op>): seq<Field> {
    if ops == [] then es else Apply(Run(es, keepOrder, ops[..|ops| - 1]), keepOrder, ops[|ops| - 1])
  }

  function RunMap(m: map<Key, Json>, ops: seq<Op>): map<Key, Json> {
    if ops == [] then m else ApplyMap(RunMap(m, ops[..|ops| - 1]), ops[|ops| - 1])
  }

  function RunOrder(keys: seq<Key>, ops: seq<Op>): seq<Key> {
    if ops == [] then keys else ApplyOrder(RunOrder(keys, ops[..|ops| - 1]), ops[|ops| - 1])
  }

  /** find_by_key, and what is found there. */
  function Lookup(es: seq<Field>, keepOrder: bool, key: Key): Option<Json> {
    var i := Place(es, keepOrder, key);
    if i < |es| && es[i].key == key then Some(es[i].value) else None
  }

  function MapLookup(m: map<Key, Json>, key: Key): Option<Json> {
    if key in m then Some(m[key]) else None
  }

  /** Over any run from fields without a repeated key, in either mode, the object stays in good order and
      is the map that the operations say. */
  lemma {:induction false} RunRefines(fields: seq<Field>, keepOrder: bool, ops: seq<Op>)
    requires Unique(fields)
    ensures var es := Run(Load(fields, keepOrder), keepOrder, ops);
      && Good(es, keepOrder) && Unique(es)
      && ToMap(es) == RunMap(ToMap(fields), ops)
  {
    if ops == [] {
      SortRefines(fields);
    } else {
      RunRefines(fields, keepOrder, ops[..|ops| - 1]);
      ApplyRefines(Run(Load(fields, keepOrder), keepOrder, ops[..|ops| - 1]), keepOrder, ops[|ops| - 1]);
    }
    GoodUnique(Run(Load(fields, keepOrder), keepOrder, ops), keepOrder);
  }

  /** The two modes answer every lookup alike, after any run: with the map's value. */
  lemma ModesAgree(fields: seq<Field>, ops: seq<Op>, key: Key)
    requires Unique(fields)
    ensures Lookup(Run(Load(fields, true), true, ops), true, key) == MapLookup(RunMap(ToMap(fields), ops), key)
    ensures Lookup(Run(Load(fields, false), false, ops), false, key) == MapLookup(RunMap(ToMap(fields), ops), key)
  {
    RunRefines(fields, true, ops);
    RunRefines(fields, false, ops);
    PlaceFinds(Run(Load(fields, true), true, ops), true, key);
    PlaceFinds(Run(Load(fields, false), false, ops), false, key);
  }

  /** In the order-keeping mode the keys stay in the order of insertion. */
  lemma {:induction false} RunKeepsOrder(fields: seq<Field>, ops: seq<Op>)
    requires Unique(fields)
    ensures Keys(Run(fields, true, ops)) == RunOrder(Keys(fields), ops)
  {
    if ops != [] {
      RunKeepsOrder(fields, ops[..|ops| - 1]);
      RunRefines(fields, true, ops[..|ops| - 1]);
      ApplyKeepsOrder(Run(fields, true, ops[..|ops| - 1]), ops[|ops| - 1]);
    }
  }

  // ----- the class

  lemma NotLessPlace(es: seq<Field>, key: Key, i: nat)
    requires i <= |es| && (forall j | 0 <= j < i :: Less(es[j].key, key)) && (i < |es| ==> !Less(es[i].key, key))
    ensures i == FirstNotLess(es, key)
  {
    var _ := FirstNotLess(es, key);
  }

  lemma SmallerBefore(es: seq<Field>, m: nat, key: Key)
    requires Sorted(es) && m < |es| && Less(es[m].key, key)
    ensures forall j | 0 <= j <= m :: Less(es[j].key, key)
  {
    forall j | 0 <= j < m ensures Less(es[j].key, key) {
      LessTransitive(es[j].key, es[m].key, key);
    }
  }

  lemma GreaterAfter(es: seq<Field>, m: nat, key: Key)
    requires Sorted(es) && m < |es| && !Less(es[m].key, key)
    ensures forall j | m <= j < |es| :: !Less(es[j].key, key)
  {
    forall j | m < j < |es| ensures !Less(es[j].key, key) {
      if Less(es[j].key, key) {
        LessTransitive(es[m].key, es[j].key, key);
      }
    }
  }

  class ObjectFields {
    var elements: seq<Field>
    const keepOrder: bool

    ghost predicate Valid()
      reads this
    {
      Good(elements, keepOrder)
    }

    constructor (fields: seq<Field>, keepOrder: bool)
      ensures this.keepOrder == keepOrder && elements == Load(fields, keepOrder)
      ensures Unique(fields) ==> Valid() && ToMap(elements) == ToMap(fields)
    {
      this.keepOrder := keepOrder;
      elements := fields;
      new;
      if !keepOrder {
        Sort();
      }
      if Unique(fields) {
        SortRefines(fields);
      }
    }

    /** sort with compare_pairs, whatever the algorithm. */
    method Sort()
      modifies this
      ensures elements == SortFields(old(elements))
    {
      var sorted, i := [], 0;
      while i < |elements|
        invariant 0 <= i <= |elements| && elements == old(elements)
        invariant sorted == SortFields(elements[..i])
      {
        var at := FirstNotLess(sorted, elements[i].key);
        assert elements[..i + 1][..i] == elements[..i];
        sorted := sorted[..at] + [elements[i]] + sorted[at..];
        i := i + 1;
      }
      assert elements[..i] == elements;
      elements := sorted;
    }

    /** std::find_if. */
    method FindIf(key: Key) returns (i: nat)
      ensures i == FirstWith(elements, key)
    {
      i := 0;
      while i < |elements| && elements[i].key != key
        invariant i <= |elements| && FirstWith(elements, key) == i + FirstWith(elements[i..], key)
      {
        assert elements[i..][1..] == elements[i + 1..];
        i := i + 1;
      }
    }

    /** std::lower_bound: halving the stretch in which the place must be. */
    method LowerBound(key: Key) returns (i: nat)
      requires Sorted(elements)
      ensures i == FirstNotLess(elements, key)
    {
      i := 0;
      var count := |elements|;
      while count > 0
        invariant 0 <= count && i + count <= |elements|
        invariant forall j | 0 <= j < i :: Less(elements[j].key, key)
        invariant forall j | i + count <= j < |elements| :: !Less(elements[j].key, key)
      {
        var step := count / 2;
        if Less(elements[i + step].key, key) {
          SmallerBefore(elements, i + step, key);
          i := i + step + 1;
          count := count - step - 1;
        } else {
          GreaterAfter(elements, i + step, key);
          count := step;
        }
      }
      NotLessPlace(elements, key, i);
    }

    method FindInsertLocation(key: Key) returns (i: nat)
      requires Valid()
      ensures i == Place(elements, keepOrder, key)
    {
      if keepOrder {
        i := FindIf(key);
      } else {
        i := LowerBound(key);
      }
    }

    /** find and find_by_key: None stands for end(). */
    method FindByKey(key: Key) returns (i: Option<nat>)
      requires Valid()
      ensures i.Some? <==> key in ToMap(elements)
      ensures i.Some? ==> i.value < |elements| && elements[i.value] == Field(key, ToMap(elements)[key])
    {
      var at := FindInsertLocation(key);
      PlaceFinds(elements, keepOrder, key);
      if at < |elements| && key != elements[at].key {
        return None;
      }
      i := if at == |elements| then None else Some(at);
    }

    /** at: None stands for the exception. */
    method At(key: Key) returns (r: Option<Json>)
      requires Valid()
      ensures r == MapLookup(ToMap(elements), key)
    {
      var i := FindByKey(key);
      r := if i.None? then None else Some(elements[i.value].value);
    }

    /** operator[]: where the key's field is, made if need be. */
    method Subscript(key: Key) returns (i: nat)
      requires Valid()
      modifies this
      ensures Valid() && elements == Apply(old(elements), keepOrder, Op.Subscript(key))
      ensures ToMap(elements) == ApplyMap(ToMap(old(elements)), Op.Subscript(key))
      ensures i == Place(old(elements), keepOrder, key) && i < |elements| && elements[i].key == key
    {
      i := FindInsertLocation(key);
      ApplyRefines(elements, keepOrder, Op.Subscript(key));
      if i == |elements| || key != elements[i].key {
        elements := elements[..i] + [Field(key, Null)] + elements[i..];
      }
    }

    /** An assignment through the reference that operator[] gives. */
    method Assign(key: Key, value: Json)
      requires Valid()
      modifies this
      ensures Valid() && elements == Apply(old(elements), keepOrder, Op.Assign(key, value))
      ensures ToMap(elements) == ApplyMap(ToMap(old(elements)), Op.Assign(key, value))
    {
      ApplyRefines(elements, keepOrder, Op.Assign(key, value));
      var i := Subscript(key);
      elements := elements[i := elements[i].(value := value)];
    }

    /** erase: false stands for the exception, which leaves everything as it was. */
    method Erase(key: Key) returns (ok: bool)
      requires Valid()
      modifies this
      ensures Valid() && elements == Apply(old(elements), keepOrder, Op.Erase(key))
      ensures ToMap(elements) == ToMap(old(elements)) - {key}
      ensures ok == (key in ToMap(old(elements))) && (!ok ==> elements == old(elements))
    {
      ApplyRefines(elements, keepOrder, Op.Erase(key));
      PlaceFinds(elements, keepOrder, key);
      var i := FindInsertLocation(key);
      if i == |elements| || key != elements[i].key {
        return false;
      }
      elements := elements[..i] + elements[i + 1..];
      ok := true;
    }
  }
}
