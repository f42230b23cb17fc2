/** JSON values as the scripts hold them after decoding (Python dicts, lists,
    strings, ints, booleans and None), dictionaries as insertion-ordered
    association lists, and the Python operations the scripts apply to them,
    each raising where Python raises. */
module Json {

  import opened Results
  import opened Strings

  /** A decoded JSON document. Objects keep their keys in insertion order. */
  datatype Json =
    | JNull
    | JBool(b: bool)
    | JInt(i: int)
    | JStr(s: string)
    | JArr(items: seq<Json>)
    | JObj(fields: seq<(string, Json)>)

  // ---------------------------------------------------------------------------
  // Insertion-ordered dictionaries

  /** A Python dict: its entries in insertion order. */
  type Dict<K, V> = seq<(K, V)>

  predicate UniqueKeys<K(==), V>(d: Dict<K, V>) {
    forall i, j :: 0 <= i < j < |d| ==> d[i].0 != d[j].0
  }

  /** The position of key `k`, or `|d|` when it is absent. */
  function Find<K(==), V>(d: Dict<K, V>, k: K): (i: nat)
    ensures i <= |d|
    ensures forall j :: 0 <= j < i ==> d[j].0 != k
    ensures i < |d| ==> d[i].0 == k
  {
    if |d| == 0 then 0 else if d[0].0 == k then 0 else 1 + Find(d[1..], k)
  }

  /** `k in d`. */
  predicate HasKey<K(==), V>(d: Dict<K, V>, k: K) {
    Find(d, k) < |d|
  }

  /** `d.get(k)`. */
  function Lookup<K(==), V>(d: Dict<K, V>, k: K): Option<V> {
    var i := Find(d, k);
    if i < |d| then Some(d[i].1) else None
  }

  /** `d[k] = v`: an existing key keeps its position, a new key goes last. */
  function Put<K(==), V>(d: Dict<K, V>, k: K, v: V): Dict<K, V> {
    var i := Find(d, k);
    if i < |d| then d[i := (k, v)] else d + [(k, v)]
  }

  /** `{key: value for key, value in d.items() if key != k}`. */
  function Without<K(==), V>(d: Dict<K, V>, k: K): Dict<K, V> {
    if |d| == 0 then [] else (if d[0].0 == k then [] else [d[0]]) + Without(d[1..], k)
  }

  /** After `d[k] = v`, `k` maps to `v`, every other key keeps its value, the
      dict grows by one entry exactly when `k` was new, the entries before the
      key's position are untouched, and keys stay unique. */
  lemma PutSpec<K, V>(d: Dict<K, V>, k: K, v: V)
    ensures Lookup(Put(d, k, v), k) == Some(v)
    ensures forall k' :: k' != k ==> Lookup(Put(d, k, v), k') == Lookup(d, k')
    ensures |Put(d, k, v)| == if HasKey(d, k) then |d| else |d| + 1
    ensures Put(d, k, v)[..Find(d, k)] == d[..Find(d, k)]
    ensures UniqueKeys(d) ==> UniqueKeys(Put(d, k, v))
  {
    var i := Find(d, k);
    var e := Put(d, k, v);
    FindFirst(e, k, i);
    forall k' | k' != k ensures Lookup(e, k') == Lookup(d, k') {
      PutOther(d, k, v, k');
    }
  }

  /** The first position holding `k` is `Find`'s answer. */
  lemma FindFirst<K, V>(d: Dict<K, V>, k: K, i: nat)
    requires i <= |d|
    requires forall j :: 0 <= j < i ==> d[j].0 != k
    requires i < |d| ==> d[i].0 == k
    ensures Find(d, k) == i
  {
  }

  /** The value at the first entry with a given key is what a lookup finds. */
  lemma LookupAt<K, V>(d: Dict<K, V>, i: nat)
    requires i < |d|
    requires forall j :: 0 <= j < i ==> d[j].0 != d[i].0
    ensures Lookup(d, d[i].0) == Some(d[i].1)
  {
    FindFirst(d, d[i].0, i);
  }

  lemma PutOther<K, V>(d: Dict<K, V>, k: K, v: V, k': K)
    requires k' != k
    ensures Lookup(Put(d, k, v), k') == Lookup(d, k')
  {
    var e := Put(d, k, v);
    var f := Find(d, k');
    forall j | 0 <= j < f ensures e[j].0 != k' {
      if j < |d| { assert e[j].0 == d[j].0 || e[j].0 == k; }
    }
    if f < |d| {
      assert e[f] == d[f];
      FindFirst(e, k', f);
    } else {
      FindFirst(e, k', |e|);
    }
  }

  /** Dropping key `k` leaves `k` absent and every other key with its old value. */
  lemma {:induction false} WithoutLookup<K, V>(d: Dict<K, V>, k: K)
    ensures Lookup(Without(d, k), k) == None
    ensures forall k' :: k' != k ==> Lookup(Without(d, k), k') == Lookup(d, k')
  {
    if |d| != 0 {
      WithoutLookup(d[1..], k);
      var w := Without(d, k);
      var w' := Without(d[1..], k);
      if d[0].0 == k {
        assert w == w';
        forall k' | k' != k ensures Lookup(w, k') == Lookup(d, k') {
          assert Find(d, k') == 1 + Find(d[1..], k');
        }
      } else {
        assert w == [d[0]] + w';
        assert Find(w, k) == 1 + Find(w', k);
        forall k' | k' != k ensures Lookup(w, k') == Lookup(d, k') {
          if d[0].0 != k' {
            assert Find(w, k') == 1 + Find(w', k');
            assert Find(d, k') == 1 + Find(d[1..], k');
            assert Lookup(w, k') == Lookup(w', k');
            assert Lookup(d, k') == Lookup(d[1..], k');
          } else {
            FindFirst(w, k', 0);
            FindFirst(d, k', 0);
          }
        }
      }
    }
  }

  /** Dropping an absent key changes nothing. */
  lemma {:induction false} WithoutAbsent<K, V>(d: Dict<K, V>, k: K)
    requires !HasKey(d, k)
    ensures Without(d, k) == d
  {
    if |d| != 0 {
      assert d[0].0 != k;
      assert Find(d, k) == 1 + Find(d[1..], k);
      WithoutAbsent(d[1..], k);
      assert d == [d[0]] + d[1..];
    }
  }

  /** Every entry of `Without(d, k)` is an entry of `d` with another key, in the same order. */
  lemma {:induction false} WithoutSubsequence<K, V>(d: Dict<K, V>, k: K, i: nat)
    requires i < |Without(d, k)|
    ensures Without(d, k)[i].0 != k
    ensures exists j :: i <= j < |d| && d[j] == Without(d, k)[i]
  {
    if d[0].0 == k {
      WithoutSubsequence(d[1..], k, i);
      var j :| i <= j < |d[1..]| && d[1..][j] == Without(d[1..], k)[i];
      assert d[j + 1] == Without(d, k)[i];
    } else if i > 0 {
      WithoutSubsequence(d[1..], k, i - 1);
      var j :| i - 1 <= j < |d[1..]| && d[1..][j] == Without(d[1..], k)[i - 1];
      assert d[j + 1] == Without(d, k)[i];
    } else {
      assert d[0] == Without(d, k)[0];
    }
  }

  // ---------------------------------------------------------------------------
  // Python operations on decoded values

  /** `j[key]` with a string key. */
  function GetItem(j: Json, key: string): Result<Json> {
    match j
    case JObj(fs) => (match Lookup(fs, key) case Some(v) => Ok(v) case None => Err(KeyError))
    case _ => Err(TypeError)
  }

  /** `j.get(key, default)`. */
  function GetOr(j: Json, key: string, default: Json): Result<Json> {
    match j
    case JObj(fs) => (match Lookup(fs, key) case Some(v) => Ok(v) case None => Ok(default))
    case _ => Err(AttributeError)
  }

  /** `key in j` with a string `key`: dict keys, list elements or substrings. */
  function Contains(j: Json, key: string): Result<bool> {
    match j
    case JObj(fs) => Ok(HasKey(fs, key))
    case JArr(xs) => Ok(JStr(key) in xs)
    case JStr(s) => Ok(Occurs(s, key))
    case _ => Err(TypeError)
  }

  /** `for x in j`: list elements, dict keys, or the characters of a string. */
  function Iterate(j: Json): Result<seq<Json>> {
    match j
    case JArr(xs) => Ok(xs)
    case JObj(fs) => Ok(seq(|fs|, i requires 0 <= i < |fs| => JStr(fs[i].0)))
    case JStr(s) => Ok(seq(|s|, i requires 0 <= i < |s| => JStr([s[i]])))
    case _ => Err(TypeError)
  }

  /** `len(j)`. */
  function Len(j: Json): Result<nat> {
    match j
    case JArr(xs) => Ok(|xs|)
    case JObj(fs) => Ok(|fs|)
    case JStr(s) => Ok(|s|)
    case _ => Err(TypeError)
  }

  /** `bool(j)`. */
  predicate Truthy(j: Json) {
    match j
    case JNull => false
    case JBool(b) => b
    case JInt(i) => i != 0
    case JStr(s) => s != ""
    case JArr(xs) => xs != []
    case JObj(fs) => fs != []
  }

  /** Values that can be dict keys. */
  predicate Hashable(j: Json) {
    !j.JArr? && !j.JObj?
  }

  /** `s.split(sep)[-1]` applied to a value, which must be a string. */
  function LastSegmentOf(j: Json, sep: char): Result<string> {
    match j
    case JStr(s) => Ok(LastSegment(s, sep))
    case _ => Err(AttributeError)
  }

  /** A list of strings as a JSON list. */
  function StrList(xs: seq<string>): (r: Json)
    ensures r.JArr? && |r.items| == |xs|
    ensures forall i :: 0 <= i < |xs| ==> r.items[i] == JStr(xs[i])
  {
    JArr(seq(|xs|, i requires 0 <= i < |xs| => JStr(xs[i])))
  }
}
