/** Shared vocabulary: optional values, Python's insertion-ordered `dict`
    keyed by id strings, and Python's `str(int)` for non-negative integers. */
module Common {

  datatype Option<+T> = None | Some(value: T)

  datatype Result<+T> = Ok(value: T) | Err(reason: string) {
    predicate IsFailure() { Err? }

    function PropagateFailure<U>(): Result<U>
      requires Err?
    {
      Err(reason)
    }

    function Extract(): T
      requires Ok?
    {
      value
    }
  }

  /** A Python `dict` with string keys: `keys` is the insertion order that
      `values()` and `for ... in` follow, `entries` the key/value binding.
      Assigning to a key already present keeps its position. */
  datatype Dict<V> = Dict(keys: seq<string>, entries: map<string, V>) {

    ghost predicate Valid() {
      && (forall i, j :: 0 <= i < j < |keys| ==> keys[i] != keys[j])
      && (forall k :: k in entries <==> k in keys)
    }

    function Get(k: string): (r: Option<V>)
      ensures r.Some? <==> k in entries
      ensures r.Some? ==> r.value == entries[k]
    {
      if k in entries then Some(entries[k]) else None
    }

    /** `d[k] = v` */
    function Put(k: string, v: V): (d: Dict<V>)
      requires Valid()
      ensures d.Valid()
      ensures d.entries == entries[k := v]
      ensures k in entries ==> d.keys == keys
      ensures k !in entries ==> d.keys == keys + [k]
    {
      if k in entries then Dict(keys, entries[k := v]) else Dict(keys + [k], entries[k := v])
    }

    /** `list(d.values())` */
    function Values(): (vs: seq<V>)
      requires Valid()
      ensures |vs| == |keys|
      ensures forall i :: 0 <= i < |keys| ==> vs[i] == entries[keys[i]]
    {
      seq(|keys|, i requires 0 <= i < |keys| => entries[keys[i]])
    }

    /** `len(d)` */
    function Size(): (n: nat)
      requires Valid()
      ensures n == |entries.Keys|
    {
      KeysAreDistinct(keys, entries.Keys);
      |keys|
    }
  }

  function EmptyDict<V>(): (d: Dict<V>)
    ensures d.Valid() && d.Values() == []
  {
    Dict([], map[])
  }

  /** Storing under a fresh key grows the dictionary by one. */
  lemma PutGrows<V>(d: Dict<V>, k: string, v: V)
    requires d.Valid() && k !in d.entries
    ensures d.Put(k, v).Size() == d.Size() + 1
  {
    assert d.Put(k, v).keys == d.keys + [k];
  }

  /** Distinct keys enumerate the key set exactly once. */
  lemma {:induction false} KeysAreDistinct(ks: seq<string>, s: set<string>)
    requires forall i, j :: 0 <= i < j < |ks| ==> ks[i] != ks[j]
    requires forall k :: k in s <==> k in ks
    ensures |s| == |ks|
  {
    if ks != [] {
      var last := ks[|ks| - 1];
      assert forall k :: k in s - {last} <==> k in ks[..|ks| - 1];
      KeysAreDistinct(ks[..|ks| - 1], s - {last});
    }
  }

  /** How many elements of `s` satisfy `p`: `len([x for x in s if p(x)])`. */
  function CountWhere<T>(s: seq<T>, p: T -> bool): (r: nat)
    ensures r <= |s|
  {
    if s == [] then 0 else (if p(s[0]) then 1 else 0) + CountWhere(s[1..], p)
  }

  /** Counting the values of a dict that satisfy `p` counts the keys whose
      value satisfies it. */
  lemma CountValuesWhere<V>(d: Dict<V>, p: V -> bool)
    requires d.Valid()
    ensures CountWhere(d.Values(), p) == |KeysWhere(d, p)|
  {
    CountKeysWhere(d.keys, d.Values(), d.entries, p);
    assert (set k | k in d.keys && p(d.entries[k])) == KeysWhere(d, p);
  }

  /** The keys of `d` whose value satisfies `p`. */
  function KeysWhere<V>(d: Dict<V>, p: V -> bool): set<string> {
    set k | k in d.entries && p(d.entries[k])
  }

  lemma {:induction false} CountKeysWhere<V>(ks: seq<string>, vs: seq<V>, m: map<string, V>, p: V -> bool)
    requires forall i, j :: 0 <= i < j < |ks| ==> ks[i] != ks[j]
    requires forall k :: k in ks ==> k in m
    requires |vs| == |ks| && forall i :: 0 <= i < |ks| ==> vs[i] == m[ks[i]]
    ensures CountWhere(vs, p) == |set k | k in ks && p(m[k])|
  {
    if ks != [] {
      var rest := ks[1..];
      CountKeysWhere(rest, vs[1..], m, p);
      var tail := set k | k in rest && p(m[k]);
      assert ks[0] !in tail;
      if p(m[ks[0]]) {
        assert (set k | k in ks && p(m[k])) == tail + {ks[0]};
      } else {
        assert (set k | k in ks && p(m[k])) == tail;
      }
    }
  }

  /** Where a key sits in the insertion order. */
  function IndexOf<V>(d: Dict<V>, k: string): (i: nat)
    requires d.Valid() && k in d.entries
    ensures i < |d.keys| && d.keys[i] == k
  {
    IndexIn(d.keys, k)
  }

  function IndexIn(ks: seq<string>, k: string): (i: nat)
    requires k in ks
    ensures i < |ks| && ks[i] == k
  {
    if ks[0] == k then 0 else 1 + IndexIn(ks[1..], k)
  }

  /** Re-assigning a present key replaces its value in place in `values()`;
      a new key appends its value. */
  lemma PutValues<V>(d: Dict<V>, k: string, v: V)
    requires d.Valid()
    ensures k in d.entries ==> d.Put(k, v).Values() == d.Values()[IndexOf(d, k) := v]
    ensures k !in d.entries ==> d.Put(k, v).Values() == d.Values() + [v]
  {
    if k in d.entries {
      var i := IndexOf(d, k);
      forall j | 0 <= j < |d.keys| ensures d.Put(k, v).Values()[j] == d.Values()[i := v][j] {
        if j != i { assert d.keys[j] != k; }
      }
    }
  }

  /** No two keys of `d` are bound to the same object: the dicts of the
      engine are filled by fresh `Account`/`User` objects, one per key. */
  ghost predicate Injective<V>(d: Dict<V>) {
    forall k1, k2 :: k1 in d.entries && k2 in d.entries && k1 != k2 ==> d.entries[k1] != d.entries[k2]
  }

  /** Storing an object not yet in the dict keeps the dict injective,
      whether the key is new or replaced. */
  lemma PutKeepsInjective<V>(d: Dict<V>, k: string, v: V)
    requires d.Valid() && Injective(d) && v !in d.entries.Values
    ensures Injective(d.Put(k, v))
  {
    var e := d.Put(k, v).entries;
    forall k1, k2 | k1 in e && k2 in e && k1 != k2 ensures e[k1] != e[k2] {
      if k1 == k {
        assert d.entries[k2] in d.entries.Values;
      } else if k2 == k {
        assert d.entries[k1] in d.entries.Values;
      }
    }
  }

  // ----- Python's str(n) for n >= 0 -----

  function DigitChar(d: nat): (c: char)
    requires d < 10
    ensures '0' <= c <= '9'
  {
    ['0', '1', '2', '3', '4', '5', '6', '7', '8', '9'][d]
  }

  function DigitValue(c: char): (d: nat)
    requires '0' <= c <= '9'
    ensures d < 10 && DigitChar(d) == c
  {
    (c as int - '0' as int) as nat
  }

  /** `str(n)` for n >= 0: decimal digits, most significant first, no leading zero. */
  function DecimalString(n: nat): (s: string)
    ensures |s| >= 1
    ensures forall i :: 0 <= i < |s| ==> '0' <= s[i] <= '9'
    decreases n
  {
    if n < 10 then [DigitChar(n)] else DecimalString(n / 10) + [DigitChar(n % 10)]
  }

  function Pow10(k: nat): (p: nat)
    ensures p >= 1
  {
    if k == 0 then 1 else 10 * Pow10(k - 1)
  }

  /** Reads a string of decimal digits back as a number: `int(s)`. */
  function ParseDecimal(s: string): nat
    requires forall i :: 0 <= i < |s| ==> '0' <= s[i] <= '9'
  {
    if s == [] then 0 else 10 * ParseDecimal(s[..|s| - 1]) + DigitValue(s[|s| - 1])
  }

  /** A number with k+1 digits prints as exactly k+1 characters, the first not '0'. */
  lemma {:induction false} DecimalLength(n: nat, k: nat)
    requires Pow10(k) <= n < Pow10(k + 1)
    ensures |DecimalString(n)| == k + 1
    ensures DecimalString(n)[0] != '0'
  {
    if k == 0 {
      assert n < 10;
    } else {
      assert n >= 10;
      DecimalLength(n / 10, k - 1);
    }
  }

  /** `int(str(n)) == n` */
  lemma {:induction false} DecimalRoundTrip(n: nat)
    ensures ParseDecimal(DecimalString(n)) == n
    decreases n
  {
    var s := DecimalString(n);
    if n < 10 {
      assert s[..|s| - 1] == [];
    } else {
      var prefix := DecimalString(n / 10);
      assert s == prefix + [DigitChar(n % 10)];
      assert s[..|s| - 1] == prefix;
      assert DigitValue(s[|s| - 1]) == n % 10;
      DecimalRoundTrip(n / 10);
    }
  }
}
