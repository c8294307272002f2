/**
  The route table: callbacks by method and path, WebSocket handlers by path, and
  the query parameters of a target.  All three keep the first entry for a key,
  so each is proved against a search of the flat list of registrations.
 */
module Routes {
  import opened Wrappers

  datatype Method = UNKNOWN | GET | POST | PUT | DELETE | PATCH

  /** One key-value entry of a flat list. */
  datatype Entry<K, V> = Entry(key: K, value: V)

  /** The first value listed under the key. */
  function First<K(==), V>(entries: seq<Entry<K, V>>, key: K): Option<V> {
    if entries == [] then None
    else if entries[0].key == key then Some(entries[0].value)
    else First(entries[1..], key)
  }

  function Find<K(==), V>(m: map<K, V>, key: K): Option<V> {
    if key in m then Some(m[key]) else None
  }

  /** unordered_map::emplace: an existing entry stays. */
  function Emplace<K, V>(m: map<K, V>, key: K, value: V): map<K, V> {
    if key in m then m else m[key := value]
  }

  lemma {:induction false} FirstAppend<K, V>(entries: seq<Entry<K, V>>, e: Entry<K, V>, key: K)
    ensures First(entries + [e], key) ==
            if First(entries, key).Some? then First(entries, key) else if e.key == key then Some(e.value) else None
  {
    if entries == [] {
      assert (entries + [e])[1..] == [];
    } else {
      assert (entries + [e])[1..] == entries[1..] + [e];
      FirstAppend(entries[1..], e, key);
    }
  }

  /** The entry at i is the earliest with its key. */
  predicate Earliest<K(==), V>(entries: seq<Entry<K, V>>, key: K, i: int) {
    0 <= i < |entries| && entries[i].key == key && forall j :: 0 <= j < i ==> entries[j].key != key
  }

  /** A first-entry search finds an entry iff the list has one, and then it is the earliest. */
  lemma {:induction false} FirstIsEarliest<K, V>(entries: seq<Entry<K, V>>, key: K)
    ensures First(entries, key).None? <==> forall e <- entries :: e.key != key
    ensures First(entries, key).Some? ==>
              exists i :: 0 <= i < |entries| && entries[i] == Entry(key, First(entries, key).value)
                          && forall j :: 0 <= j < i ==> entries[j].key != key
  {
    if entries == [] || entries[0].key == key {
    } else {
      FirstIsEarliest(entries[1..], key);
      if First(entries[1..], key).Some? {
        var i :| 0 <= i < |entries[1..]| && entries[1..][i] == Entry(key, First(entries, key).value)
                 && forall j :: 0 <= j < i ==> entries[1..][j].key != key;
        assert forall j :: 0 < j < i + 1 ==> entries[j] == entries[1..][j - 1];
        assert entries[i + 1] == Entry(key, First(entries, key).value);
      }
    }
  }

  /** So what it finds is the value of the earliest entry, whichever that is. */
  lemma FirstIsTheEarliest<K, V>(entries: seq<Entry<K, V>>, key: K, i: int)
    requires Earliest(entries, key, i)
    ensures First(entries, key) == Some(entries[i].value)
  {
    FirstIsEarliest(entries, key);
    assert entries[i] in entries;
    var j :| 0 <= j < |entries| && entries[j] == Entry(key, First(entries, key).value)
             && forall m :: 0 <= m < j ==> entries[m].key != key;
    assert entries[j].key == key;
    assert i == j;
  }

  /** The route manager, with callbacks and handlers named by C. */
  class RouteManager<C> {
    var callbacks: map<Method, map<string, C>>
    var wsHandlers: map<string, C>
    ghost var added: seq<Entry<(Method, string), C>>       // Add calls, in order
    ghost var addedWs: seq<Entry<string, C>>               // AddWebsocket calls, in order

    /** The nested maps answer every lookup like a search of the registrations. */
    ghost predicate Valid()
      reads this
    {
      && (forall m, p :: Lookup(callbacks, m, p) == First(added, (m, p)))
      && (forall p :: Find(wsHandlers, p) == First(addedWs, p))
    }

    static function Lookup(callbacks: map<Method, map<string, C>>, method': Method, path: string): Option<C> {
      if method' in callbacks then Find(callbacks[method'], path) else None
    }

    constructor ()
      ensures Valid() && added == [] && addedWs == []
    {
      callbacks, wsHandlers := map[], map[];
      added, addedWs := [], [];
    }

    method Add(method': Method, path: string, callback: C)
      requires Valid()
      modifies this
      ensures Valid() && addedWs == old(addedWs)
      ensures added == old(added) + [Entry((method', path), callback)]
    {
      var paths := if method' in callbacks then callbacks[method'] else map[];
      callbacks := callbacks[method' := Emplace(paths, path, callback)];
      added := added + [Entry((method', path), callback)];
      forall m, p
        ensures Lookup(callbacks, m, p) == First(added, (m, p))
      {
        FirstAppend(old(added), Entry((method', path), callback), (m, p));
        assert Lookup(old(callbacks), m, p) == First(old(added), (m, p));
      }
    }

    method AddWebsocket(path: string, handler: C)
      requires Valid()
      modifies this
      ensures Valid() && added == old(added)
      ensures addedWs == old(addedWs) + [Entry(path, handler)]
    {
      wsHandlers := Emplace(wsHandlers, path, handler);
      addedWs := addedWs + [Entry(path, handler)];
      forall p
        ensures Find(wsHandlers, p) == First(addedWs, p)
      {
        FirstAppend(old(addedWs), Entry(path, handler), p);
        assert Find(old(wsHandlers), p) == First(old(addedWs), p);
      }
    }

    method GetCallback(method': Method, path: string) returns (r: Option<C>)
      requires Valid()
      ensures r == First(added, (method', path))
    {
      if method' in callbacks {
        if path in callbacks[method'] {
          assert Lookup(callbacks, method', path) == First(added, (method', path));
          return Some(callbacks[method'][path]);
        }
      }
      assert Lookup(callbacks, method', path) == First(added, (method', path));
      return None;
    }

    method GetWSHandler(method': Method, path: string) returns (r: Option<C>)
      requires Valid()
      ensures r == if method' == GET then First(addedWs, path) else None
    {
      if method' == GET {
        assert Find(wsHandlers, path) == First(addedWs, path);
        if path in wsHandlers {
          return Some(wsHandlers[path]);
        }
      }
      return None;
    }
  }

  // ---- query parameters --------------------------------------------------

  /** One parameter of a query; a parameter may have no value. */
  datatype Param = Param(key: string, value: Option<string>)

  /** What a parameter is worth: a missing value reads as an empty one. */
  function Worth(q: Param): string {
    if q.value.Some? then q.value.value else ""
  }

  /** The query's first parameter with this key is the one at i. */
  predicate IsFirst(query: seq<Param>, k: string, i: int) {
    0 <= i < |query| && query[i].key == k && forall j :: 0 <= j < i ==> query[j].key != k
  }

  /** What a query makes of a map: the worth of the first parameter of every key that is not empty, and nothing else. */
  ghost predicate Parsed(query: seq<Param>, params: map<string, string>) {
    && (forall k :: k in params <==> k != "" && exists i :: 0 <= i < |query| && query[i].key == k)
    && (forall k, i :: k != "" && IsFirst(query, k, i) ==> k in params && params[k] == Worth(query[i]))
  }

  /** One more parameter: ignored when its key is empty or known, added otherwise. */
  lemma OneMoreParam(query: seq<Param>, q: Param, params: map<string, string>)
    requires Parsed(query, params)
    ensures Parsed(query + [q], if q.key == "" then params else Emplace(params, q.key, Worth(q)))
  {
    var params' := if q.key == "" then params else Emplace(params, q.key, Worth(q));
    var longer := query + [q];
    forall k
      ensures k in params' <==> k != "" && exists i :: 0 <= i < |longer| && longer[i].key == k
    {
      assert longer[|query|].key == q.key;
      assert (exists i :: 0 <= i < |longer| && longer[i].key == k)
          <==> k == q.key || exists i :: 0 <= i < |query| && query[i].key == k by {
        if i :| 0 <= i < |query| && query[i].key == k {
          assert longer[i].key == k;
        }
      }
    }
    forall k, i | k != "" && IsFirst(longer, k, i)
      ensures k in params' && params'[k] == Worth(longer[i])
    {
      if i < |query| {
        assert forall j :: 0 <= j < i ==> longer[j] == query[j];
        assert IsFirst(query, k, i);
      } else {
        assert forall j :: 0 <= j < |query| ==> longer[j] == query[j];
        assert k !in params;
      }
    }
  }

  /** The parameter map of a target: the first value given for every key that is not empty, and nothing else. */
  method ParseQuery(query: seq<Param>) returns (params: map<string, string>)
    ensures forall k :: k in params <==> k != "" && exists i :: 0 <= i < |query| && query[i].key == k
    ensures forall k, i :: k != "" && IsFirst(query, k, i) ==>
              k in params && params[k] == if query[i].value.Some? then query[i].value.value else ""
  {
    params := map[];
    var i := 0;
    while i < |query|
      invariant i <= |query|
      invariant Parsed(query[..i], params)
    {
      var q := query[i];
      OneMoreParam(query[..i], q, params);
      assert query[..i + 1] == query[..i] + [q];
      if q.key != "" {
        params := Emplace(params, q.key, if q.value.Some? then q.value.value else "");
      }
      i := i + 1;
    }
    assert query[..i] == query;
  }
}
