/**
  The Python values the zone converters build: None, integers, strings, lists and dicts.
  A dict is its entries in insertion order, which is the order Python keeps and the order
  the YAML and JSON writers emit.  Also remove_none_values of tools/convertzone_yaml.py.
 */
module Values {
  import opened Results
  import opened Seqs

  datatype Value =
    | Null
    | Int(i: int)
    | Str(s: string)
    | List(items: seq<Value>)
    | Dict(entries: seq<(string, Value)>)

  type Entries = seq<(string, Value)>

  /** The keys of a dict, in order. */
  function Keys(es: Entries): seq<string>
  {
    seq(|es|, i requires 0 <= i < |es| => es[i].0)
  }

  /** What every Python dict satisfies: no key occurs twice. */
  predicate DistinctKeys(es: Entries)
  {
    forall i, j :: 0 <= i < j < |es| ==> es[i].0 != es[j].0
  }

  /** Distinct keys in every dict, at every depth. */
  predicate WellFormed(v: Value)
  {
    match v
    case Dict(es) => DistinctKeys(es) && forall i :: 0 <= i < |es| ==> WellFormed(es[i].1)
    case List(items) => forall i :: 0 <= i < |items| ==> WellFormed(items[i])
    case _ => true
  }

  // ---------------------------------------------------------------------------
  // Dict operations

  /** d.get(k): the value stored under k, if any. */
  function Get(es: Entries, k: string): Option<Value>
  {
    if es == [] then None
    else if es[0].0 == k then Some(es[0].1)
    else Get(es[1..], k)
  }

  /** d[k] = v: a key already present keeps its place and takes the new value; a new key
      goes last. */
  function Assign(es: Entries, k: string, v: Value): Entries
  {
    if es == [] then [(k, v)]
    else if es[0].0 == k then [(k, v)] + es[1..]
    else [es[0]] + Assign(es[1..], k, v)
  }

  /** d.pop(k) for a key that is present, the popped value discarded: the dict without
      that entry. */
  function Pop(es: Entries, k: string): Entries
    requires Get(es, k).Some?
  {
    if es[0].0 == k then es[1..] else [es[0]] + Pop(es[1..], k)
  }

  /** After d[k] = v, k holds v and every other key holds what it held. */
  lemma {:induction false} AssignGet(es: Entries, k: string, v: Value, j: string)
    ensures Get(Assign(es, k, v), j) == if j == k then Some(v) else Get(es, j)
  {
    if es != [] && es[0].0 != k {
      AssignGet(es[1..], k, v, j);
    }
  }

  /** d[k] = v leaves the keys and their order alone when k is present, and adds k last
      otherwise. */
  lemma {:induction false} AssignKeys(es: Entries, k: string, v: Value)
    ensures Keys(Assign(es, k, v)) == if Get(es, k).Some? then Keys(es) else Keys(es) + [k]
  {
    if es != [] {
      var r := Assign(es, k, v);
      if es[0].0 == k {
        assert Keys(r) == Keys(es);
      } else {
        AssignKeys(es[1..], k, v);
        assert Keys(es) == [es[0].0] + Keys(es[1..]);
        assert Keys(r) == [es[0].0] + Keys(Assign(es[1..], k, v));
      }
    }
  }

  /** Assigning a new key appends an entry. */
  lemma {:induction false} AssignNew(es: Entries, k: string, v: Value)
    requires Get(es, k).None?
    ensures Assign(es, k, v) == es + [(k, v)]
  {
    if es != [] {
      AssignNew(es[1..], k, v);
      HeadTail(es);
      AppendAssoc([es[0]], es[1..], [(k, v)]);
    }
  }

  /** Assigning a key whose first occurrence is at index i replaces that entry. */
  lemma {:induction false} AssignAt(es: Entries, i: nat, k: string, v: Value)
    requires i < |es| && es[i].0 == k
    requires forall j :: 0 <= j < i ==> es[j].0 != k
    ensures Assign(es, k, v) == es[i := (k, v)]
  {
    if i > 0 {
      AssignAt(es[1..], i - 1, k, v);
    }
  }

  /** A key that no entry carries is not found. */
  lemma {:induction false} GetAbsent(es: Entries, k: string)
    requires forall j :: 0 <= j < |es| ==> es[j].0 != k
    ensures Get(es, k).None?
  {
    if es != [] {
      GetAbsent(es[1..], k);
    }
  }

  /** In a dict with distinct keys, the key of entry i finds that entry's value. */
  lemma {:induction false} GetAt(es: Entries, i: nat)
    requires DistinctKeys(es) && i < |es|
    ensures Get(es, es[i].0) == Some(es[i].1)
  {
    if i > 0 {
      GetAt(es[1..], i - 1);
    }
  }

  /** d[k] = v keeps the keys distinct. */
  lemma AssignDistinct(es: Entries, k: string, v: Value)
    requires DistinctKeys(es)
    ensures DistinctKeys(Assign(es, k, v))
  {
    AssignKeys(es, k, v);
    var r := Assign(es, k, v);
    assert forall i :: 0 <= i < |r| ==> r[i].0 == Keys(r)[i];
    if Get(es, k).None? {
      forall j | 0 <= j < |es|
        ensures es[j].0 != k
      {
        if es[j].0 == k {
          GetAt(es, j);
        }
      }
    }
  }

  /** After d.pop(k) on a dict with distinct keys, k is gone and every other key holds what
      it held. */
  lemma {:induction false} PopGet(es: Entries, k: string, j: string)
    requires DistinctKeys(es) && Get(es, k).Some?
    ensures Get(Pop(es, k), j) == if j == k then None else Get(es, j)
  {
    if es[0].0 == k {
      if j == k {
        GetAbsent(es[1..], k);
      }
    } else {
      PopGet(es[1..], k, j);
    }
  }

  /** Popping a key whose first occurrence is at index i cuts that entry out. */
  lemma {:induction false} PopAt(es: Entries, i: nat, k: string)
    requires i < |es| && es[i].0 == k
    requires forall j :: 0 <= j < i ==> es[j].0 != k
    ensures Get(es, k).Some? && Pop(es, k) == es[..i] + es[i + 1..]
  {
    if i > 0 {
      PopAt(es[1..], i - 1, k);
      assert es[1..][..i - 1] + es[1..][i..] == es[1..i] + es[i + 1..];
      SliceCons(es, 0, i);
      AppendAssoc([es[0]], es[1..i], es[i + 1..]);
    }
  }

  // ---------------------------------------------------------------------------
  // remove_none_values

  /** remove_none_values as a function: a dict is rebuilt entry by entry by assignment,
      skipping the None values and cleaning the rest with CleanField; anything that is not a
      dict is returned as it is. */
  function Cleaned(v: Value): Value
    decreases v, 2
  {
    if v.Dict? then Dict(CleanPrefix(v, |v.entries|)) else v
  }

  /** The dict built from the first n entries of dict d. */
  function CleanPrefix(d: Value, n: nat): Entries
    requires d.Dict? && n <= |d.entries|
    decreases d, 1, n
  {
    if n == 0 then []
    else
      var (key, value) := d.entries[n - 1];
      if value.Null? then CleanPrefix(d, n - 1)
      else Assign(CleanPrefix(d, n - 1), key, CleanField(value))
  }

  /** What a value that is not None becomes: a dict is cleaned, a list has its dict items
      cleaned, anything else stays. */
  function CleanField(x: Value): Value
    decreases x, 3
  {
    match x
    case Dict(_) => Cleaned(x)
    case List(_) => List(CleanItems(x))
    case _ => x
  }

  /** The items of a list, each dict among them cleaned. */
  function CleanItems(x: Value): seq<Value>
    requires x.List?
    decreases x, 0
  {
    seq(|x.items|, i requires 0 <= i < |x.items| => if x.items[i].Dict? then Cleaned(x.items[i]) else x.items[i])
  }

  /** The reference: the entries whose value is not None, in their order, each value cleaned. */
  function KeptEntries(es: Entries): Entries
  {
    if es == [] then []
    else if es[0].1.Null? then KeptEntries(es[1..])
    else [(es[0].0, CleanField(es[0].1))] + KeptEntries(es[1..])
  }

  /** No None left as a dict value, in any dict reached through dict values and list items. */
  predicate IsClean(v: Value)
    decreases v, 0
  {
    v.Dict? ==> forall i :: 0 <= i < |v.entries| ==> v.entries[i].1 != Null && FieldClean(v.entries[i].1)
  }

  predicate FieldClean(x: Value)
    decreases x, 1
  {
    match x
    case Dict(_) => IsClean(x)
    case List(items) => forall i :: 0 <= i < |items| ==> IsClean(items[i])
    case _ => true
  }

  lemma KeptEntriesSnoc(es: Entries, e: (string, Value))
    ensures KeptEntries(es + [e]) == KeptEntries(es) + (if e.1.Null? then [] else [(e.0, CleanField(e.1))])
    decreases |es|
  {
    if es == [] {
      assert es + [e] == [e];
    } else {
      assert (es + [e])[1..] == es[1..] + [e];
      KeptEntriesSnoc(es[1..], e);
    }
  }

  /** Every key of the dict built from the first n entries is the key of one of them. */
  lemma {:induction false} CleanPrefixKeys(d: Value, n: nat, k: string)
    requires d.Dict? && n <= |d.entries|
    requires forall j :: 0 <= j < n ==> d.entries[j].0 != k
    ensures Get(CleanPrefix(d, n), k).None?
  {
    if n > 0 {
      CleanPrefixKeys(d, n - 1, k);
      if !d.entries[n - 1].1.Null? {
        AssignGet(CleanPrefix(d, n - 1), d.entries[n - 1].0, CleanField(d.entries[n - 1].1), k);
      }
    }
  }

  /** With distinct keys, every assignment appends: the dict built from the first n entries
      is the reference applied to them. */
  lemma {:induction false} CleanPrefixKept(d: Value, n: nat)
    requires d.Dict? && n <= |d.entries| && DistinctKeys(d.entries)
    ensures CleanPrefix(d, n) == KeptEntries(d.entries[..n])
  {
    if n > 0 {
      var es := d.entries;
      CleanPrefixKept(d, n - 1);
      assert es[..n] == es[..n - 1] + [es[n - 1]];
      KeptEntriesSnoc(es[..n - 1], es[n - 1]);
      if !es[n - 1].1.Null? {
        CleanPrefixKeys(d, n - 1, es[n - 1].0);
        AssignNew(CleanPrefix(d, n - 1), es[n - 1].0, CleanField(es[n - 1].1));
      }
    }
  }

  /** remove_none_values on a dict keeps exactly the entries whose value is not None, in
      their order, with dict values cleaned and the dict items of list values cleaned. */
  lemma CleanedKeeps(d: Value)
    requires d.Dict? && DistinctKeys(d.entries)
    ensures Cleaned(d) == Dict(KeptEntries(d.entries))
  {
    CleanPrefixKept(d, |d.entries|);
    assert d.entries[..|d.entries|] == d.entries;
  }

  /** Looking a key up after cleaning: None and absent keys are absent, anything else is
      found cleaned. */
  lemma {:induction false} KeptEntriesGet(es: Entries, k: string)
    requires DistinctKeys(es)
    ensures Get(KeptEntries(es), k) ==
      match Get(es, k)
      case None => None
      case Some(x) => if x.Null? then None else Some(CleanField(x))
  {
    if es != [] {
      KeptEntriesGet(es[1..], k);
      if es[0].0 == k {
        GetAbsent(es[1..], k);
        if es[0].1.Null? {
          KeptEntriesAbsent(es[1..], k);
        }
      }
    }
  }

  lemma {:induction false} KeptEntriesAbsent(es: Entries, k: string)
    requires Get(es, k).None?
    ensures Get(KeptEntries(es), k).None?
  {
    if es != [] {
      KeptEntriesAbsent(es[1..], k);
    }
  }

  /** The keys after cleaning are the keys whose value is not None, in their order. */
  lemma {:induction false} KeptEntriesKeys(es: Entries)
    ensures Keys(KeptEntries(es)) == Keys(NonNullEntries(es))
  {
    if es != [] {
      KeptEntriesKeys(es[1..]);
      var k := KeptEntries(es[1..]);
      var n := NonNullEntries(es[1..]);
      if !es[0].1.Null? {
        assert Keys([(es[0].0, CleanField(es[0].1))] + k) == [es[0].0] + Keys(k);
        assert Keys([es[0]] + n) == [es[0].0] + Keys(n);
      }
    }
  }

  /** The entries whose value is not None. */
  function NonNullEntries(es: Entries): Entries
  {
    if es == [] then []
    else if es[0].1.Null? then NonNullEntries(es[1..])
    else [es[0]] + NonNullEntries(es[1..])
  }

  /** Cleaning leaves no None behind. */
  lemma {:induction false} CleanedIsClean(v: Value)
    ensures IsClean(Cleaned(v))
    decreases v, 1
  {
    if v.Dict? {
      CleanPrefixClean(v, |v.entries|);
    }
  }

  lemma {:induction false} CleanFieldClean(x: Value)
    ensures FieldClean(CleanField(x))
    ensures x != Null ==> CleanField(x) != Null
    decreases x, 2
  {
    match x
    case Dict(_) => CleanedIsClean(x);
    case List(items) =>
      var r := CleanItems(x);
      forall i | 0 <= i < |r|
        ensures IsClean(r[i])
      {
        if items[i].Dict? {
          CleanedIsClean(items[i]);
        }
      }
    case _ =>
  }

  lemma {:induction false} CleanPrefixClean(d: Value, n: nat)
    requires d.Dict? && n <= |d.entries|
    ensures forall i :: 0 <= i < |CleanPrefix(d, n)| ==> CleanPrefix(d, n)[i].1 != Null && FieldClean(CleanPrefix(d, n)[i].1)
    decreases d, 0, n
  {
    if n > 0 {
      CleanPrefixClean(d, n - 1);
      var value := d.entries[n - 1].1;
      if !value.Null? {
        CleanFieldClean(value);
        AssignKeepsClean(CleanPrefix(d, n - 1), d.entries[n - 1].0, CleanField(value));
      }
    }
  }

  /** Assigning a clean value that is not None to a clean dict keeps it clean. */
  lemma {:induction false} AssignKeepsClean(es: Entries, k: string, x: Value)
    requires forall i :: 0 <= i < |es| ==> es[i].1 != Null && FieldClean(es[i].1)
    requires x != Null && FieldClean(x)
    ensures forall i :: 0 <= i < |Assign(es, k, x)| ==> Assign(es, k, x)[i].1 != Null && FieldClean(Assign(es, k, x)[i].1)
  {
    if es != [] && es[0].0 != k {
      AssignKeepsClean(es[1..], k, x);
    }
  }

  /** A clean, well-formed value is left alone. */
  lemma {:induction false} CleanFixpoint(v: Value)
    requires WellFormed(v) && IsClean(v)
    ensures Cleaned(v) == v
    decreases v, 1
  {
    if v.Dict? {
      var es := v.entries;
      CleanedKeeps(v);
      KeptEntriesSame(v, 0);
      assert es[0..] == es;
    }
  }

  lemma {:induction false} KeptEntriesSame(v: Value, i: nat)
    requires v.Dict? && WellFormed(v) && IsClean(v) && i <= |v.entries|
    ensures KeptEntries(v.entries[i..]) == v.entries[i..]
    decreases v, 0, |v.entries| - i
  {
    var es := v.entries;
    if i < |es| {
      KeptEntriesSame(v, i + 1);
      CleanFieldFixpoint(es[i].1);
      assert es[i..][1..] == es[i + 1..];
      DropCons(es, i);
    }
  }

  lemma {:induction false} CleanFieldFixpoint(x: Value)
    requires WellFormed(x) && FieldClean(x)
    ensures CleanField(x) == x
    decreases x, 2
  {
    match x
    case Dict(_) => CleanFixpoint(x);
    case List(items) =>
      forall i | 0 <= i < |items|
        ensures CleanItems(x)[i] == items[i]
      {
        if items[i].Dict? {
          CleanFixpoint(items[i]);
        }
      }
    case _ =>
  }

  /** Cleaning keeps dicts well formed. */
  lemma {:induction false} CleanedWellFormed(v: Value)
    requires WellFormed(v)
    ensures WellFormed(Cleaned(v))
    decreases v, 1
  {
    if v.Dict? {
      CleanPrefixWellFormed(v, |v.entries|);
    }
  }

  lemma {:induction false} CleanFieldWellFormed(x: Value)
    requires WellFormed(x)
    ensures WellFormed(CleanField(x))
    decreases x, 2
  {
    match x
    case Dict(_) => CleanedWellFormed(x);
    case List(items) =>
      var r := CleanItems(x);
      forall i | 0 <= i < |r|
        ensures WellFormed(r[i])
      {
        if items[i].Dict? {
          CleanedWellFormed(items[i]);
        }
      }
    case _ =>
  }

  lemma {:induction false} CleanPrefixWellFormed(d: Value, n: nat)
    requires d.Dict? && WellFormed(d) && n <= |d.entries|
    ensures DistinctKeys(CleanPrefix(d, n))
    ensures forall i :: 0 <= i < |CleanPrefix(d, n)| ==> WellFormed(CleanPrefix(d, n)[i].1)
    decreases d, 0, n
  {
    if n > 0 {
      CleanPrefixWellFormed(d, n - 1);
      var value := d.entries[n - 1].1;
      if !value.Null? {
        CleanFieldWellFormed(value);
        AssignDistinct(CleanPrefix(d, n - 1), d.entries[n - 1].0, CleanField(value));
        AssignKeepsWellFormed(CleanPrefix(d, n - 1), d.entries[n - 1].0, CleanField(value));
      }
    }
  }

  lemma {:induction false} AssignKeepsWellFormed(es: Entries, k: string, x: Value)
    requires forall i :: 0 <= i < |es| ==> WellFormed(es[i].1)
    requires WellFormed(x)
    ensures forall i :: 0 <= i < |Assign(es, k, x)| ==> WellFormed(Assign(es, k, x)[i].1)
  {
    if es != [] && es[0].0 != k {
      AssignKeepsWellFormed(es[1..], k, x);
    }
  }

  /** Cleaning a dict distributes over its entries. */
  lemma {:induction false} KeptEntriesAppend(a: Entries, b: Entries)
    ensures KeptEntries(a + b) == KeptEntries(a) + KeptEntries(b)
  {
    if a == [] {
      assert a + b == b;
    } else {
      assert (a + b)[0] == a[0] && (a + b)[1..] == a[1..] + b;
      KeptEntriesAppend(a[1..], b);
      AppendAssoc([(a[0].0, CleanField(a[0].1))], KeptEntries(a[1..]), KeptEntries(b));
    }
  }

  /** One step of the reference from entry i on. */
  lemma KeptEntriesDrop(es: Entries, i: nat)
    requires i < |es|
    ensures KeptEntries(es[i..]) == (if es[i].1.Null? then [] else [(es[i].0, CleanField(es[i].1))]) + KeptEntries(es[i + 1..])
  {
    assert es[i..][1..] == es[i + 1..];
  }

  /** Cutting an entry out keeps the keys distinct. */
  lemma DistinctCut(es: Entries, i: nat)
    requires DistinctKeys(es) && i < |es|
    ensures DistinctKeys(es[..i] + es[i + 1..])
  {
    var cut := es[..i] + es[i + 1..];
    forall a, b | 0 <= a < b < |cut|
      ensures cut[a].0 != cut[b].0
    {
      var a' := if a < i then a else a + 1;
      var b' := if b < i then b else b + 1;
      assert cut[a] == es[a'] && cut[b] == es[b'];
    }
  }

  /** Setting the value of entry i to None cleans to the entries around it. */
  lemma KeptNulled(es: Entries, i: nat, k: string)
    requires i < |es|
    ensures KeptEntries(es[i := (k, Null)]) == KeptEntries(es[..i]) + KeptEntries(es[i + 1..])
  {
    var rest := [(k, Null)] + es[i + 1..];
    assert es[i := (k, Null)] == es[..i] + rest;
    KeptEntriesAppend(es[..i], rest);
    assert rest[1..] == es[i + 1..];
  }

  /** remove_none_values after d.pop(k) is remove_none_values with k set to None. */
  lemma CleanedPop(es: Entries, i: nat, k: string)
    requires DistinctKeys(es) && i < |es| && es[i].0 == k
    ensures Get(es, k).Some?
    ensures Cleaned(Dict(Pop(es, k))) == Cleaned(Dict(es[i := (k, Null)]))
  {
    PopAt(es, i, k);
    DistinctCut(es, i);
    assert DistinctKeys(es[i := (k, Null)]);
    CleanedKeeps(Dict(es[..i] + es[i + 1..]));
    CleanedKeeps(Dict(es[i := (k, Null)]));
    KeptEntriesAppend(es[..i], es[i + 1..]);
    KeptNulled(es, i, k);
  }

  /** Popping one key and assigning another commute. */
  lemma {:induction false} AssignPop(es: Entries, k1: string, k2: string, v: Value)
    requires k1 != k2 && Get(es, k1).Some?
    ensures Get(Assign(es, k2, v), k1).Some?
    ensures Assign(Pop(es, k1), k2, v) == Pop(Assign(es, k2, v), k1)
  {
    AssignGet(es, k2, v, k1);
    if es[0].0 == k1 {
      assert Assign(es, k2, v) == [es[0]] + Assign(es[1..], k2, v);
    } else if es[0].0 == k2 {
      assert Pop(es, k1) == [es[0]] + Pop(es[1..], k1);
    } else {
      AssignPop(es[1..], k1, k2, v);
    }
  }

  /** A well-formed dict is left alone by remove_none_values exactly when it is clean. */
  lemma CleanedIff(v: Value)
    requires v.Dict? && WellFormed(v)
    ensures Cleaned(v) == v <==> IsClean(v)
  {
    CleanedIsClean(v);
    if IsClean(v) {
      CleanFixpoint(v);
    }
  }

  /** Cleaning twice is cleaning once. */
  lemma CleanedIdempotent(v: Value)
    requires WellFormed(v)
    ensures Cleaned(Cleaned(v)) == Cleaned(v)
  {
    CleanedIsClean(v);
    CleanedWellFormed(v);
    CleanFixpoint(Cleaned(v));
  }

  /** remove_none_values (lines 9-26): any value that is not a dict is returned as it is;
      a dict is rebuilt by assigning, in order, each entry whose value is not None. */
  method RemoveNoneValues(d: Value) returns (r: Value)
    ensures r == Cleaned(d)
    ensures !d.Dict? ==> r == d
    decreases d, 1
  {
    if !d.Dict? {
      return d;
    }
    var cleanedDict: Entries := [];
    for i := 0 to |d.entries|
      invariant cleanedDict == CleanPrefix(d, i)
    {
      var (key, value) := d.entries[i];
      if value.Null? {
        continue;
      } else if value.Dict? {
        var cleanedValue := RemoveNoneValues(value);
        cleanedDict := Assign(cleanedDict, key, cleanedValue);
      } else if value.List? {
        var cleanedList := CleanList(value);
        cleanedDict := Assign(cleanedDict, key, List(cleanedList));
      } else {
        cleanedDict := Assign(cleanedDict, key, value);
      }
    }
    return Dict(cleanedDict);
  }

  /** The list comprehension of line 21: each dict item cleaned, other items kept. */
  method CleanList(x: Value) returns (items: seq<Value>)
    requires x.List?
    ensures items == CleanItems(x)
    decreases x, 0
  {
    items := [];
    for i := 0 to |x.items|
      invariant |items| == i
      invariant forall j :: 0 <= j < i ==> items[j] == CleanItems(x)[j]
    {
      var item := x.items[i];
      if item.Dict? {
        var cleanedItem := RemoveNoneValues(item);
        items := items + [cleanedItem];
      } else {
        items := items + [item];
      }
    }
  }
}
