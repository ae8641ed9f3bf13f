/**
 The part of net/http's `Header` type that parseMetadata uses: a map from a
 canonical header name to the ordered list of its values, `Add`, and the loop
 that copies a flat string map into a fresh header.
 */
module HttpHeader {
  import opened Wrappers

  /** Canonical header name to its values, in the order they were added. */
  type Header = map<string, seq<string>>

  /** The values stored under `key`; none when the key is absent. */
  function Values(h: Header, key: string): seq<string>
  {
    if key in h then h[key] else []
  }

  /** http.Header.Add: appends `v` to the values of the canonical form of `k`. */
  function Add(h: Header, canon: string -> string, k: string, v: string): (r: Header)
    ensures r.Keys == h.Keys + {canon(k)}
    ensures Values(r, canon(k)) == Values(h, canon(k)) + [v]
    ensures forall key :: key != canon(k) ==> Values(r, key) == Values(h, key)
  {
    h[canon(k) := Values(h, canon(k)) + [v]]
  }

  /** Every value position of a header: the pair (key, index) for each index
      of each key's value list. */
  ghost function Slots(h: Header): set<(string, nat)>
  {
    set key, i: nat | key in h && i < |h[key]| :: (key, i)
  }

  /** The number of values held by a header, over all of its keys. */
  ghost function TotalValues(h: Header): nat
  {
    |Slots(h)|
  }

  /** Appending under `key` adds exactly one slot, the one after its last value. */
  lemma SlotsAppend(h: Header, key: string, v: string)
    ensures Slots(h[key := Values(h, key) + [v]]) == Slots(h) + {(key, |Values(h, key)|)}
  {
  }

  /** Each `Add` adds exactly one value to the header. */
  lemma TotalValuesAdd(h: Header, canon: string -> string, k: string, v: string)
    ensures TotalValues(Add(h, canon, k, v)) == TotalValues(h) + 1
  {
    SlotsAppend(h, canon(k), v);
    assert (canon(k), |Values(h, canon(k))|) !in Slots(h);
  }

  /** `entries` is one run of `for k, v := range m`: it yields every entry of
      `m` exactly once, in an order Go leaves unspecified. */
  ghost predicate IsEnumeration(entries: seq<(string, string)>, m: map<string, string>)
  {
    && (forall i, j :: 0 <= i < j < |entries| ==> entries[i] != entries[j])
    && (forall e :: e in entries <==> e in m.Items)
  }

  /** The body of `for k, v := range m { h.Add(k, v) }`, fed the entries in the order visited. */
  function AddAll(h: Header, canon: string -> string, entries: seq<(string, string)>): Header
    decreases |entries|
  {
    if entries == [] then h
    else AddAll(Add(h, canon, entries[0].0, entries[0].1), canon, entries[1..])
  }

  /** The values of the entries whose key canonicalises to `key`, in visiting order. */
  ghost function Matching(canon: string -> string, entries: seq<(string, string)>, key: string): seq<string>
    decreases |entries|
  {
    if entries == [] then []
    else (if canon(entries[0].0) == key then [entries[0].1] else []) + Matching(canon, entries[1..], key)
  }

  /** The copy loop appends, under every canonical key, the matching values in visiting order. */
  lemma {:induction false} AddAllValues(h: Header, canon: string -> string, entries: seq<(string, string)>, key: string)
    ensures Values(AddAll(h, canon, entries), key) == Values(h, key) + Matching(canon, entries, key)
    decreases |entries|
  {
    if entries != [] {
      var k, v := entries[0].0, entries[0].1;
      var h' := Add(h, canon, k, v);
      assert AddAll(h, canon, entries) == AddAll(h', canon, entries[1..]);
      AddAllValues(h', canon, entries[1..], key);
      if canon(k) == key {
        assert Values(h', key) == Values(h, key) + [v];
        assert Matching(canon, entries, key) == [v] + Matching(canon, entries[1..], key);
      } else {
        assert Values(h', key) == Values(h, key);
        assert Matching(canon, entries, key) == Matching(canon, entries[1..], key);
      }
    }
  }

  /** The copy loop adds exactly the canonical forms of the visited keys. */
  lemma {:induction false} AddAllKeys(h: Header, canon: string -> string, entries: seq<(string, string)>)
    ensures AddAll(h, canon, entries).Keys == h.Keys + (set e | e in entries :: canon(e.0))
    decreases |entries|
  {
    if entries != [] {
      AddAllKeys(Add(h, canon, entries[0].0, entries[0].1), canon, entries[1..]);
      assert (set e | e in entries :: canon(e.0))
          == {canon(entries[0].0)} + (set e | e in entries[1..] :: canon(e.0));
    }
  }

  /** The copy loop adds one value per visited entry. */
  lemma {:induction false} AddAllTotal(h: Header, canon: string -> string, entries: seq<(string, string)>)
    ensures TotalValues(AddAll(h, canon, entries)) == TotalValues(h) + |entries|
    decreases |entries|
  {
    if entries != [] {
      TotalValuesAdd(h, canon, entries[0].0, entries[0].1);
      AddAllTotal(Add(h, canon, entries[0].0, entries[0].1), canon, entries[1..]);
    }
  }

  /** The elements of a sequence, as a set. */
  ghost function Elements<T>(s: seq<T>): set<T>
  {
    set x | x in s
  }

  lemma ElementsCons<T>(s: seq<T>)
    requires s != []
    ensures Elements(s) == {s[0]} + Elements(s[1..])
  {
  }

  /** The entries with value `v` whose key canonicalises to `key`. */
  ghost function Hits(canon: string -> string, entries: set<(string, string)>, key: string, v: string): set<(string, string)>
  {
    set e | e in entries && canon(e.0) == key && e.1 == v
  }

  lemma HitsAdd(canon: string -> string, rest: set<(string, string)>, first: (string, string), key: string, v: string)
    ensures Hits(canon, {first} + rest, key, v)
         == (if canon(first.0) == key && first.1 == v then {first} else {}) + Hits(canon, rest, key, v)
  {
  }

  /** One more entry adds one hit exactly when it has the key and the value. */
  lemma HitsCard(canon: string -> string, rest: set<(string, string)>, first: (string, string), key: string, v: string)
    requires first !in rest
    ensures |Hits(canon, {first} + rest, key, v)|
         == (if canon(first.0) == key && first.1 == v then 1 else 0) + |Hits(canon, rest, key, v)|
  {
    HitsAdd(canon, rest, first, key, v);
    assert first !in Hits(canon, rest, key, v);
  }

  /** The first entry contributes `v` under `key` at most once. */
  lemma MatchingConsCount(canon: string -> string, entries: seq<(string, string)>, key: string, v: string)
    requires entries != []
    ensures multiset(Matching(canon, entries, key))[v]
         == (if canon(entries[0].0) == key && entries[0].1 == v then 1 else 0)
            + multiset(Matching(canon, entries[1..], key))[v]
  {
  }

  /** When no entry is visited twice, `v` occurs under `key` once per visited
      entry with that value and that canonical key. */
  lemma {:induction false} MatchingCount(canon: string -> string, entries: seq<(string, string)>, key: string, v: string)
    requires forall i, j :: 0 <= i < j < |entries| ==> entries[i] != entries[j]
    ensures multiset(Matching(canon, entries, key))[v] == |Hits(canon, Elements(entries), key, v)|
    decreases |entries|
  {
    if entries == [] {
      assert Hits(canon, Elements(entries), key, v) == {};
    } else {
      var first, rest := entries[0], entries[1..];
      assert forall i, j :: 0 <= i < j < |rest| ==> rest[i] != rest[j] by {
        forall i, j | 0 <= i < j < |rest| ensures rest[i] != rest[j] {
          assert rest[i] == entries[i + 1] && rest[j] == entries[j + 1];
        }
      }
      MatchingCount(canon, rest, key, v);
      assert first !in Elements(rest) by {
        forall j | 0 <= j < |rest| ensures rest[j] != first {
          assert entries[j + 1] == rest[j];
        }
      }
      ElementsCons(entries);
      HitsCard(canon, Elements(rest), first, key, v);
      MatchingConsCount(canon, entries, key, v);
    }
  }

  /** A sequence without repetitions is as long as the set of its elements. */
  lemma {:induction false} DistinctLength<T>(s: seq<T>, elems: set<T>)
    requires forall i, j :: 0 <= i < j < |s| ==> s[i] != s[j]
    requires forall x :: x in s <==> x in elems
    ensures |s| == |elems|
    decreases |s|
  {
    if s == [] {
      assert elems == {};
    } else {
      var rest := s[1..];
      forall x ensures x in rest <==> x in elems - {s[0]} {
        if x in rest {
          var j :| 0 <= j < |rest| && rest[j] == x;
          assert s[j + 1] == x;
        }
        if x in elems - {s[0]} {
          assert x in s;
          var j :| 0 <= j < |s| && s[j] == x;
          assert rest[j - 1] == x;
        }
      }
      forall i, j | 0 <= i < j < |rest| ensures rest[i] != rest[j] {
        assert rest[i] == s[i + 1] && rest[j] == s[j + 1];
      }
      DistinctLength(rest, elems - {s[0]});
    }
  }

  /** A run of the range loop is exactly as long as the map. */
  lemma EnumerationLength(entries: seq<(string, string)>, m: map<string, string>)
    requires IsEnumeration(entries, m)
    ensures |entries| == |m|
  {
    DistinctLength(entries, m.Items);
    assert |m.Items| == |m|;
  }

  /** Every map can be visited: whatever the header map, some run of the
      range loop exists, so requiring one excludes no input. */
  lemma {:induction false} EnumerationExists(m: map<string, string>)
    ensures exists entries :: IsEnumeration(entries, m)
    decreases |m|
  {
    if |m| == 0 {
      assert IsEnumeration([], m);
    } else {
      var k :| k in m;
      var rest := m - {k};
      EnumerationExists(rest);
      var tail :| IsEnumeration(tail, rest);
      var entries := [(k, m[k])] + tail;
      forall e ensures e in entries <==> e in m.Items {
        if e in tail {
          assert e in rest.Items;
        }
        if e in m.Items && e != (k, m[k]) {
          assert e.0 != k;
          assert e in rest.Items;
        }
      }
      forall i, j | 0 <= i < j < |entries| ensures entries[i] != entries[j] {
        if i == 0 {
          assert entries[j] in tail;
          assert entries[j] in rest.Items;
        } else {
          assert entries[i] == tail[i - 1] && entries[j] == tail[j - 1];
        }
      }
      assert IsEnumeration(entries, m);
    }
  }

  /** From an empty header, the copy loop creates exactly the canonical forms of the source keys. */
  lemma BuildKeys(canon: string -> string, m: map<string, string>, entries: seq<(string, string)>)
    requires IsEnumeration(entries, m)
    ensures AddAll(map[], canon, entries).Keys == (set k | k in m :: canon(k))
  {
    AddAllKeys(map[], canon, entries);
    var visited := set e | e in entries :: canon(e.0);
    var source := set k | k in m :: canon(k);
    forall c | c in visited ensures c in source {
      var e :| e in entries && canon(e.0) == c;
      assert e in m.Items;
      assert e.0 in m;
    }
    forall c | c in source ensures c in visited {
      var k :| k in m && canon(k) == c;
      assert (k, m[k]) in m.Items;
      assert (k, m[k]) in entries;
    }
    assert visited == source;
  }

  /** From an empty header, the copy loop stores `v` under `key` once per
      source entry with that value and that canonical key. */
  lemma BuildCount(canon: string -> string, m: map<string, string>, entries: seq<(string, string)>, key: string, v: string)
    requires IsEnumeration(entries, m)
    ensures multiset(Values(AddAll(map[], canon, entries), key))[v] == |Hits(canon, m.Items, key, v)|
  {
    AddAllValues(map[], canon, entries, key);
    MatchingCount(canon, entries, key, v);
    assert Elements(entries) == m.Items;
  }

  /** From an empty header, the copy loop adds one value per source entry. */
  lemma BuildTotal(canon: string -> string, m: map<string, string>, entries: seq<(string, string)>)
    requires IsEnumeration(entries, m)
    ensures TotalValues(AddAll(map[], canon, entries)) == |m|
  {
    AddAllTotal(map[], canon, entries);
    assert Slots(map[]) == {};
    EnumerationLength(entries, m);
  }

  /**
   Lines 97-103 of the mux metadata parser: no header at all when the source
   map is empty; otherwise a fresh header holding, under the canonical form of
   every source key, one value per source entry. `entries` is the run of the
   range loop Go happens to make; the contract does not depend on its order.
   */
  function Build(canon: string -> string, m: map<string, string>, entries: seq<(string, string)>): (r: Option<Header>)
    requires IsEnumeration(entries, m)
    ensures r.None? <==> |m| == 0
    ensures r.Some? ==> r.value.Keys == (set k | k in m :: canon(k))
    ensures r.Some? ==> forall key, v :: multiset(Values(r.value, key))[v] == |Hits(canon, m.Items, key, v)|
    ensures r.Some? ==> TotalValues(r.value) == |m|
  {
    if |m| == 0 then None
    else
      BuildKeys(canon, m, entries);
      BuildTotal(canon, m, entries);
      forall key, v ensures multiset(Values(AddAll(map[], canon, entries), key))[v] == |Hits(canon, m.Items, key, v)| {
        BuildCount(canon, m, entries, key, v);
      }
      Some(AddAll(map[], canon, entries))
  }

  /** Every source entry is in the built header, under the canonical form of
      its key, and every header key is the canonical form of a source key. */
  lemma BuildHoldsEachEntry(canon: string -> string, m: map<string, string>, entries: seq<(string, string)>, k: string, key: string)
    requires IsEnumeration(entries, m)
    ensures k in m ==> Build(canon, m, entries).Some? && m[k] in Build(canon, m, entries).value[canon(k)]
    ensures Build(canon, m, entries).Some? && key in Build(canon, m, entries).value ==>
      exists k' :: k' in m && canon(k') == key
  {
    var h := Build(canon, m, entries);
    if k in m {
      assert (k, m[k]) in Hits(canon, m.Items, canon(k), m[k]);
      assert multiset(Values(h.value, canon(k)))[m[k]] > 0;
    }
    if h.Some? && key in h.value {
      assert key in (set k' | k' in m :: canon(k'));
    }
  }

  /** Copying two entries whose keys are distinct and already canonical
      gives one value under each key. */
  lemma AddAllPair(canon: string -> string, x: string, vx: string, y: string, vy: string)
    requires x != y
    requires canon(x) == x && canon(y) == y
    ensures AddAll(map[], canon, [(x, vx), (y, vy)]) == map[x := [vx], y := [vy]]
  {
    var h1 := Add(map[], canon, x, vx);
    var h := Add(h1, canon, y, vy);
    assert AddAll(map[], canon, [(x, vx), (y, vy)]) == AddAll(h1, canon, [(y, vy)]) by {
      assert [(x, vx), (y, vy)][1..] == [(y, vy)];
    }
    assert AddAll(h1, canon, [(y, vy)]) == AddAll(h, canon, []) by {
      assert [(y, vy)][1..] == [];
    }
    assert h1 == map[x := [vx]] by {
      assert Values(map[], x) + [vx] == [vx];
    }
    assert h == map[x := [vx], y := [vy]] by {
      assert Values(h1, y) + [vy] == [vy];
    }
  }

  /** A map with two entries has exactly two iteration orders. */
  lemma PairOrders(entries: seq<(string, string)>, m: map<string, string>, x: string, y: string)
    requires x != y && m.Keys == {x, y}
    requires IsEnumeration(entries, m)
    ensures entries == [(x, m[x]), (y, m[y])] || entries == [(y, m[y]), (x, m[x])]
  {
    EnumerationLength(entries, m);
    assert entries[0] in m.Items && entries[1] in m.Items;
    assert entries[0] != entries[1];
  }

  /** A two-entry map whose distinct keys are already canonical gives one
      value under each key, whichever order the map is visited in. */
  lemma BuildPair(canon: string -> string, m: map<string, string>, entries: seq<(string, string)>, x: string, y: string)
    requires x != y && m.Keys == {x, y}
    requires canon(x) == x && canon(y) == y
    requires IsEnumeration(entries, m)
    ensures Build(canon, m, entries) == Some(map[x := [m[x]], y := [m[y]]])
  {
    PairOrders(entries, m, x, y);
    assert |m| == 2;
    if entries == [(x, m[x]), (y, m[y])] {
      AddAllPair(canon, x, m[x], y, m[y]);
    } else {
      AddAllPair(canon, y, m[y], x, m[x]);
      assert map[y := [m[y]], x := [m[x]]] == map[x := [m[x]], y := [m[y]]];
    }
  }

  /** The header example {"X-Foo": "bar", "X-Baz": "qux"}, with keys already
      in canonical form, gives exactly one value under each key, whichever
      order the map is visited in. */
  lemma BuildTwoEntries(canon: string -> string, m: map<string, string>, entries: seq<(string, string)>)
    requires m == map["X-Foo" := "bar", "X-Baz" := "qux"]
    requires canon("X-Foo") == "X-Foo" && canon("X-Baz") == "X-Baz"
    requires IsEnumeration(entries, m)
    ensures Build(canon, m, entries) == Some(map["X-Foo" := ["bar"], "X-Baz" := ["qux"]])
  {
    assert "X-Foo" != "X-Baz" by {
      assert "X-Foo"[2] != "X-Baz"[2];
    }
    BuildPair(canon, m, entries, "X-Foo", "X-Baz");
  }
}
