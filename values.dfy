/** PHP values as the library handles them after decoding: scalars and
    ordered arrays with string keys. The operations are the handful of PHP
    array primitives the library uses (`$a[$k]`, `isset`, `??`, `$a[$k] = $v`,
    `array_merge`, `foreach`) and the casts `(int)`, `(string)`, `(float)`. */
module Values {
  import opened Wrappers
  import Text

  /** A PHP value. `Float` carries the number as a real: floating-point
      rounding is not modelled. */
  datatype Value =
    | Null
    | Bool(b: bool)
    | Int(i: int)
    | Float(r: real)
    | Str(s: string)
    | Arr(entries: seq<Entry>)

  /** One `key => value` pair of a PHP array. An integer key is written in
      decimal, the form PHP itself normalises numeric string keys to. */
  datatype Entry = Entry(key: string, val: Value)

  type PhpArray = seq<Entry>

  function Keys(a: PhpArray): (ks: seq<string>)
    ensures |ks| == |a| && forall i :: 0 <= i < |a| ==> ks[i] == a[i].key
  {
    if |a| == 0 then [] else [a[0].key] + Keys(a[1..])
  }

  predicate DistinctKeys(a: PhpArray) {
    forall i, j :: 0 <= i < j < |a| ==> a[i].key != a[j].key
  }

  /** `$a[$k]`: the value stored under k, if any. */
  function Find(a: PhpArray, k: string): (r: Option<Value>)
    ensures r.None? <==> k !in Keys(a)
    ensures r.Some? ==> exists i :: 0 <= i < |a| && a[i] == Entry(k, r.value)
  {
    if |a| == 0 then None
    else if a[0].key == k then Some(a[0].val)
    else
      var r := Find(a[1..], k);
      assert Keys(a) == [a[0].key] + Keys(a[1..]);
      assert r.Some? ==> exists i :: 0 <= i < |a| && a[i] == Entry(k, r.value) by {
        if r.Some? {
          var i :| 0 <= i < |a[1..]| && a[1..][i] == Entry(k, r.value);
          assert a[i + 1] == Entry(k, r.value);
        }
      }
      r
  }

  /** In an array with distinct keys, a key finds the value stored beside it. */
  lemma {:induction false} FindDistinct(a: PhpArray, i: int)
    requires DistinctKeys(a) && 0 <= i < |a|
    ensures Find(a, a[i].key) == Some(a[i].val)
  {
    if i > 0 {
      assert a[0].key != a[i].key;
      FindDistinct(a[1..], i - 1);
    }
  }

  /** `isset($a[$k])`: present and not null. */
  predicate IsSet(a: PhpArray, k: string) {
    Find(a, k).Some? && Find(a, k).value != Null
  }

  /** `$a[$k] ?? $default`. */
  function Coalesce(a: PhpArray, k: string, default: Value): (v: Value)
    ensures IsSet(a, k) ==> Some(v) == Find(a, k)
    ensures !IsSet(a, k) ==> v == default
  {
    if IsSet(a, k) then Find(a, k).value else default
  }

  /** `$a[$k] = $v`: an existing key keeps its position and takes the new
      value; a new key is appended. */
  function Put(a: PhpArray, k: string, v: Value): (r: PhpArray)
    ensures Find(r, k) == Some(v)
    ensures forall k' :: k' != k ==> Find(r, k') == Find(a, k')
    ensures |a| <= |r|
  {
    if |a| == 0 then [Entry(k, v)]
    else if a[0].key == k then [Entry(k, v)] + a[1..]
    else
      var rest := Put(a[1..], k, v);
      assert ([a[0]] + rest)[1..] == rest;
      [a[0]] + rest
  }

  /** Assignment keeps every key in its place and appends a new key at the
      end. */
  lemma {:induction false} PutKeys(a: PhpArray, k: string, v: Value)
    ensures |Put(a, k, v)| == if k in Keys(a) then |a| else |a| + 1
    ensures forall i :: 0 <= i < |a| ==> Put(a, k, v)[i].key == a[i].key
    ensures k !in Keys(a) ==> Put(a, k, v)[|a|].key == k
    decreases |a|, 1
  {
    if |a| > 0 {
      if a[0].key != k {
        PutKeysPast(a, k, v);
      } else {
        PutKeysHere(a, k, v);
      }
    }
  }

  /** The PutKeys case where the first entry is under the key itself. */
  lemma PutKeysHere(a: PhpArray, k: string, v: Value)
    requires |a| > 0 && a[0].key == k
    ensures k in Keys(a) && |Put(a, k, v)| == |a|
    ensures forall i :: 0 <= i < |a| ==> Put(a, k, v)[i].key == a[i].key
  {
    assert Keys(a)[0] == k;
    assert Put(a, k, v) == [Entry(k, v)] + a[1..];
  }

  /** The PutKeys step past a first entry under another key. */
  lemma {:induction false} PutKeysPast(a: PhpArray, k: string, v: Value)
    requires |a| > 0 && a[0].key != k
    ensures |Put(a, k, v)| == if k in Keys(a) then |a| else |a| + 1
    ensures forall i :: 0 <= i < |a| ==> Put(a, k, v)[i].key == a[i].key
    ensures k !in Keys(a) ==> Put(a, k, v)[|a|].key == k
    decreases |a|, 0
  {
    PutKeys(a[1..], k, v);
    var rest := Put(a[1..], k, v);
    assert Put(a, k, v) == [a[0]] + rest;
    assert k in Keys(a) <==> k in Keys(a[1..]) by {
      assert Keys(a) == [a[0].key] + Keys(a[1..]);
    }
    ShiftKeys(a, rest, Put(a, k, v));
  }

  /** Putting an entry in front of a shorter array with the same keys as
      the tail keeps every key in its place. */
  lemma ShiftKeys(a: PhpArray, rest: PhpArray, r: PhpArray)
    requires |a| > 0 && r == [a[0]] + rest && |a| - 1 <= |rest|
    requires forall i :: 0 <= i < |a| - 1 ==> rest[i].key == a[1..][i].key
    ensures forall i :: 0 <= i < |a| ==> r[i].key == a[i].key
  {
    forall i | 0 < i < |a|
      ensures r[i].key == a[i].key
    {
      assert r[i] == rest[i - 1] && a[i] == a[1..][i - 1];
    }
  }

  /** Assignment never creates a second entry for a key. */
  lemma PutDistinct(a: PhpArray, k: string, v: Value)
    requires DistinctKeys(a)
    ensures DistinctKeys(Put(a, k, v))
  {
    PutKeys(a, k, v);
    var r := Put(a, k, v);
    forall i, j | 0 <= i < j < |r|
      ensures r[i].key != r[j].key
    {
      if j == |a| {
        assert Keys(a)[i] == a[i].key;
      }
    }
  }

  /** `array_merge($a, $b)` for string keys: the entries of b are assigned
      into a one by one, so b wins where both have a key. */
  function Merge(a: PhpArray, b: PhpArray): (r: PhpArray)
    ensures DistinctKeys(a) ==> DistinctKeys(r)
    ensures |a| <= |r| && (|b| > 0 ==> |r| > 0)
    decreases |b|
  {
    if |b| == 0 then a
    else
      assert DistinctKeys(a) ==> DistinctKeys(Put(a, b[0].key, b[0].val)) by {
        if DistinctKeys(a) { PutDistinct(a, b[0].key, b[0].val); }
      }
      Merge(Put(a, b[0].key, b[0].val), b[1..])
  }

  lemma {:induction false} FindMerge(a: PhpArray, b: PhpArray, k: string)
    requires DistinctKeys(b)
    ensures Find(Merge(a, b), k) == if k in Keys(b) then Find(b, k) else Find(a, k)
    decreases |b|
  {
    if |b| > 0 {
      assert Keys(b) == [b[0].key] + Keys(b[1..]);
      FindMerge(Put(a, b[0].key, b[0].val), b[1..], k);
      if k == b[0].key {
        assert k !in Keys(b[1..]);
      }
    }
  }

  /** Assigning one more entry after a merge is merging that entry too. */
  lemma {:induction false} MergeSnoc(a: PhpArray, b: PhpArray, x: Entry)
    ensures Merge(a, b + [x]) == Put(Merge(a, b), x.key, x.val)
    decreases |b|
  {
    if |b| == 0 {
      assert b + [x] == [x];
    } else {
      assert (b + [x])[1..] == b[1..] + [x];
      MergeSnoc(Put(a, b[0].key, b[0].val), b[1..], x);
    }
  }

  /** Merging the first i + 1 entries of b is assigning entry i after
      merging the first i. */
  lemma MergePrefix(a: PhpArray, b: PhpArray, i: int)
    requires 0 <= i < |b|
    ensures Merge(a, b[..i + 1]) == Put(Merge(a, b[..i]), b[i].key, b[i].val)
  {
    assert b[..i + 1] == b[..i] + [b[i]];
    MergeSnoc(a, b[..i], b[i]);
  }

  /** Entry i of b is the last one under key k. */
  predicate LastWith(b: PhpArray, k: string, i: int) {
    0 <= i < |b| && b[i].key == k && forall j :: i < j < |b| ==> b[j].key != k
  }

  /** A key that b lacks keeps the value it has in a. */
  lemma {:induction false} MergeAbsent(a: PhpArray, b: PhpArray, k: string)
    requires k !in Keys(b)
    ensures Find(Merge(a, b), k) == Find(a, k)
    decreases |b|
  {
    if |b| > 0 {
      assert Keys(b) == [b[0].key] + Keys(b[1..]);
      MergeAbsent(Put(a, b[0].key, b[0].val), b[1..], k);
    }
  }

  /** Of several entries of b under one key, the last one stays. */
  lemma {:induction false} MergeLastAt(a: PhpArray, b: PhpArray, k: string, i: int)
    requires LastWith(b, k, i)
    ensures Find(Merge(a, b), k) == Some(b[i].val)
    decreases |b|
  {
    var a' := Put(a, b[0].key, b[0].val);
    if i > 0 {
      assert LastWith(b[1..], k, i - 1);
      MergeLastAt(a', b[1..], k, i - 1);
    } else {
      assert k !in Keys(b[1..]) by {
        assert forall j :: 0 <= j < |b[1..]| ==> Keys(b[1..])[j] != k;
      }
      MergeAbsent(a', b[1..], k);
    }
  }

  /** Assigning the entries of b in order: of several entries under one key
      the last one stays, and a key b lacks keeps its value from a. */
  lemma MergeLast(a: PhpArray, b: PhpArray, k: string)
    ensures k !in Keys(b) ==> Find(Merge(a, b), k) == Find(a, k)
    ensures forall i :: LastWith(b, k, i) ==> Find(Merge(a, b), k) == Some(b[i].val)
  {
    if k !in Keys(b) { MergeAbsent(a, b, k); }
    forall i | LastWith(b, k, i) ensures Find(Merge(a, b), k) == Some(b[i].val) {
      MergeLastAt(a, b, k, i);
    }
  }

  /** The values of an array in order: what `foreach ($a as $v)` visits. */
  function ValuesOf(a: PhpArray): (vs: seq<Value>)
    ensures |vs| == |a| && forall i :: 0 <= i < |a| ==> vs[i] == a[i].val
  {
    seq(|a|, i requires 0 <= i < |a| => a[i].val)
  }

  /** A PHP list: the values under the keys 0, 1, 2, ... */
  function ListOf(vs: seq<Value>): (a: PhpArray)
    ensures ValuesOf(a) == vs
    ensures Keys(a) == seq(|vs|, i requires 0 <= i < |vs| => Text.NatToDecimal(i))
  {
    seq(|vs|, i requires 0 <= i < |vs| => Entry(Text.NatToDecimal(i), vs[i]))
  }

  // ---------------------------------------------------------------- casts

  /** `(int)`. Strings are read by their leading integer (Text.ParseIntPrefix). */
  function ToInt(v: Value): int
  {
    match v
    case Null => 0
    case Bool(b) => if b then 1 else 0
    case Int(i) => i
    case Float(r) => if r >= 0.0 then r.Floor else 0 - (0.0 - r).Floor
    case Str(s) => Text.ParseIntPrefix(s)
    case Arr(es) => if |es| == 0 then 0 else 1
  }

  /** `(float)`, on the same simplified reading of strings as ToInt. */
  function ToFloat(v: Value): real
  {
    match v
    case Null => 0.0
    case Bool(b) => if b then 1.0 else 0.0
    case Int(i) => i as real
    case Float(r) => r
    case Str(s) => Text.ParseIntPrefix(s) as real
    case Arr(es) => if |es| == 0 then 0.0 else 1.0
  }

  /** `(string)`. A float with a fractional part has no textual form here. */
  function ToStr(v: Value): string
  {
    match v
    case Null => ""
    case Bool(b) => if b then "1" else ""
    case Int(i) => Text.IntToDecimal(i)
    case Float(r) => if r.Floor as real == r then Text.IntToDecimal(r.Floor) else ""
    case Str(s) => s
    case Arr(_) => "Array"
  }

  /** The integer PHP prints is the integer `(int)` reads back. */
  lemma ToIntOfPrinted(i: int)
    ensures ToInt(Str(ToStr(Int(i)))) == i
  {
    Text.ParseIntOfDecimal(i);
  }
}
