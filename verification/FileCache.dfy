/** The file-based cache with a hand-kept index of its keys, itself a cached value. */
module FileCache {

  import opened Patterns

  type Payload = nat

  datatype Value = Index(list: seq<string>) | Data(payload: Payload)

  type Store = map<string, Value>

  const INDEX_KEY: string := "keys"

  function IndexOf(st: Store): seq<string> {
    if INDEX_KEY in st && st[INDEX_KEY].Index? then st[INDEX_KEY].list else []
  }

  function Compiled(search: string): string {
    if '*' in search then Dotted(search) else search
  }

  function Filter(r: string, list: seq<string>): seq<string> {
    if list == [] then []
    else
      var last := list[|list| - 1];
      Filter(r, list[..|list| - 1]) + if RegexMatches(r, last) then [last] else []
  }

  function KeysOf(st: Store, search: string): seq<string> {
    Filter(Compiled(search), IndexOf(st))
  }

  function SetKey(st: Store, key: string, value: Value): Store {
    var stored := st[key := value];
    var list := KeysOf(stored, "*");
    if key in list then stored else stored[INDEX_KEY := Index(list + [key])]
  }

  function Without(list: seq<string>, key: string): seq<string> {
    if list == [] then [] else if list[0] == key then list[1..] else [list[0]] + Without(list[1..], key)
  }

  function DeleteKey(st: Store, key: string): Store {
    var stored := st - {key};
    var list := KeysOf(stored, "*");
    if key in list then stored[INDEX_KEY := Index(Without(list, key))] else stored
  }

  function DeleteKeys(st: Store, keys: seq<string>): Store {
    if keys == [] then st else DeleteKey(DeleteKeys(st, keys[..|keys| - 1]), keys[|keys| - 1])
  }

  // ----- the index and the store agree -----

  ghost predicate Distinct(list: seq<string>) {
    forall i, j :: 0 <= i < j < |list| ==> list[i] != list[j]
  }

  /** The index lists each live key once, and nothing else; all keys are on one line. */
  ghost predicate Agrees(st: Store) {
    && (INDEX_KEY in st ==> st[INDEX_KEY].Index?)
    && Distinct(IndexOf(st))
    && (forall k :: k in IndexOf(st) <==> k in st && k != INDEX_KEY)
    && (forall k :: k in IndexOf(st) ==> OneLine(k))
  }

  lemma {:induction false} FilterAll(list: seq<string>)
    requires forall k :: k in list ==> OneLine(k)
    ensures Filter(Dotted("*"), list) == list
  {
    if list != [] {
      var front, last := list[..|list| - 1], list[|list| - 1];
      FilterAll(front);
      StarMatches(last);
      assert last in list && list == front + [last];
    }
  }

  lemma {:induction false} FilterMembers(r: string, list: seq<string>, k: string)
    ensures k in Filter(r, list) <==> k in list && RegexMatches(r, k)
  {
    if list != [] {
      var front, last := list[..|list| - 1], list[|list| - 1];
      FilterMembers(r, front, k);
      assert list == front + [last];
    }
  }

  /** `keys("*")` is the whole index. */
  lemma StarListsIndex(st: Store)
    requires Agrees(st)
    ensures KeysOf(st, "*") == IndexOf(st)
  {
    FilterAll(IndexOf(st));
  }

  lemma SetProperIndex(st: Store, key: string, value: Value)
    requires Agrees(st) && key != INDEX_KEY && OneLine(key)
    ensures
      var list := if key in IndexOf(st) then IndexOf(st) else IndexOf(st) + [key];
      var after := SetKey(st, key, value);
      && IndexOf(after) == list
      && (after == st[key := value] || after == st[key := value][INDEX_KEY := Index(list)])
  {
    assert IndexOf(st[key := value]) == IndexOf(st);
    FilterAll(IndexOf(st));
  }

  lemma AppendKeepsDistinct(list: seq<string>, key: string)
    requires Distinct(list) && key !in list
    ensures Distinct(list + [key])
    ensures forall k :: k in list + [key] <==> k in list || k == key
  {}

  lemma SetProperAgrees(st: Store, key: string, value: Value)
    requires Agrees(st) && key != INDEX_KEY && OneLine(key)
    ensures Agrees(SetKey(st, key, value))
  {
    SetProperIndex(st, key, value);
    if key !in IndexOf(st) {
      AppendKeepsDistinct(IndexOf(st), key);
    }
  }

  /** What setting a proper key does: the value is stored, and a new key goes to the end of the
      index. */
  lemma SetProperKey(st: Store, key: string, value: Value)
    requires Agrees(st) && key != INDEX_KEY && OneLine(key)
    ensures
      var after := SetKey(st, key, value);
      && Agrees(after)
      && IndexOf(after) == (if key in IndexOf(st) then IndexOf(st) else IndexOf(st) + [key])
      && after.Keys - {INDEX_KEY} == st.Keys - {INDEX_KEY} + {key}
      && forall k :: k in after && k != INDEX_KEY ==> after[k] == if k == key then value else st[k]
  {
    SetProperIndex(st, key, value);
    SetProperAgrees(st, key, value);
    SetProperValues(st, SetKey(st, key, value), key, value, IndexOf(st) + [key]);
  }

  lemma SetProperValues(st: Store, after: Store, key: string, value: Value, list: seq<string>)
    requires key != INDEX_KEY
    requires after == st[key := value] || after == st[key := value][INDEX_KEY := Index(list)]
    ensures after.Keys - {INDEX_KEY} == st.Keys - {INDEX_KEY} + {key}
    ensures forall k :: k in after && k != INDEX_KEY ==> after[k] == if k == key then value else st[k]
  {}

  /** Setting a key keeps index and store in agreement exactly when the key is not the index's
      own and lies on one line. */
  lemma SetKeepsAgreementExactly(st: Store, key: string, value: Value)
    requires Agrees(st)
    ensures Agrees(SetKey(st, key, value)) <==> key != INDEX_KEY && OneLine(key)
  {
    var stored := st[key := value];
    FilterMembers(Dotted("*"), IndexOf(stored), key);
    StarMatches(key);
    if key != INDEX_KEY && OneLine(key) {
      SetProperKey(st, key, value);
    } else {
      var list, after := KeysOf(stored, "*"), SetKey(st, key, value);
      if key !in list {
        assert (list + [key])[|list|] == key;
        assert key in IndexOf(after);
      } else {
        assert key in IndexOf(after);
      }
    }
  }

  lemma {:induction false} WithoutMembers(list: seq<string>, key: string)
    requires Distinct(list)
    ensures Distinct(Without(list, key))
    ensures forall k :: k in Without(list, key) <==> k in list && k != key
  {
    if list != [] {
      var head, tail := list[0], list[1..];
      WithoutMembers(tail, key);
      assert list == [head] + tail && head !in tail;
      var rest := Without(tail, key);
      assert head !in rest;
      assert Without(list, key) == if head == key then tail else [head] + rest;
    }
  }

  /** Deleting keeps index and store in agreement; the key is gone, other values stay. */
  lemma DeleteKeepsAgreement(st: Store, key: string)
    requires Agrees(st) && key != INDEX_KEY
    ensures
      var after := DeleteKey(st, key);
      && Agrees(after)
      && (forall k :: k in IndexOf(after) <==> k in IndexOf(st) && k != key)
      && forall k :: k in after && k != INDEX_KEY ==> k in st && after[k] == st[k]
  {
    assert IndexOf(st - {key}) == IndexOf(st);
    FilterAll(IndexOf(st));
    WithoutMembers(IndexOf(st), key);
    if key in IndexOf(st) {
      var after := DeleteKey(st, key);
      assert after == (st - {key})[INDEX_KEY := Index(Without(IndexOf(st), key))];
    }
  }

  /** Deleting the index's own key loses the index, unless it was empty. */
  lemma DeleteKeepsAgreementExactly(st: Store, key: string)
    requires Agrees(st)
    ensures Agrees(DeleteKey(st, key)) <==> key != INDEX_KEY || IndexOf(st) == []
  {
    if key != INDEX_KEY {
      DeleteKeepsAgreement(st, key);
    } else if IndexOf(st) != [] {
      var k := IndexOf(st)[0];
      assert k in IndexOf(st) && k in DeleteKey(st, key);
    } else {
      assert forall k :: k in st ==> k == INDEX_KEY;
    }
  }

  lemma {:induction false} DeleteManyKeepsAgreement(st: Store, keys: seq<string>)
    requires Agrees(st) && INDEX_KEY !in keys
    ensures Agrees(DeleteKeys(st, keys))
    ensures forall k :: k in IndexOf(DeleteKeys(st, keys)) <==> k in IndexOf(st) && k !in keys
  {
    if keys != [] {
      var front, last := keys[..|keys| - 1], keys[|keys| - 1];
      assert keys == front + [last];
      DeleteManyKeepsAgreement(st, front);
      DeleteKeepsAgreement(DeleteKeys(st, front), last);
    }
  }

  // ----- runs -----

  datatype Operation = Set(key: string, value: Value) | Delete(key: string) | DeleteMany(keys: seq<string>)

  predicate Proper(op: Operation) {
    match op
    case Set(k, _) => k != INDEX_KEY && OneLine(k)
    case Delete(k) => k != INDEX_KEY
    case DeleteMany(ks) => INDEX_KEY !in ks
  }

  function Perform(st: Store, op: Operation): Store {
    match op
    case Set(k, v) => SetKey(st, k, v)
    case Delete(k) => DeleteKey(st, k)
    case DeleteMany(ks) => DeleteKeys(st, ks)
  }

  function PerformAll(ops: seq<Operation>): Store {
    if ops == [] then map[] else Perform(PerformAll(ops[..|ops| - 1]), ops[|ops| - 1])
  }

  /** The sublist of the keys a glob matches, in order. */
  ghost function GlobSublist(p: string, list: seq<string>): seq<string> {
    if list == [] then []
    else
      var last := list[|list| - 1];
      GlobSublist(p, list[..|list| - 1]) + if GlobMatches(p, last) then [last] else []
  }

  lemma {:induction false} FilterIsGlobSublist(p: string, list: seq<string>)
    requires OnlyStarsSpecial(p)
    ensures Filter(Compiled(p), list) == GlobSublist(p, list)
  {
    if list != [] {
      FilterIsGlobSublist(p, list[..|list| - 1]);
      CompiledIsDotted(p);
      PatternIsGlob(p, list[|list| - 1]);
    }
  }

  lemma {:induction false} CompiledIsDotted(p: string)
    ensures '*' !in p ==> Dotted(p) == p
  {
    if p != [] {
      CompiledIsDotted(p[1..]);
    }
  }

  /** After any run of proper operations the index agrees with the store; `keys("*")` lists it
      whole, and `keys(p)` the keys the glob `p` matches, in index order. */
  lemma {:induction false} RunsKeepAgreement(ops: seq<Operation>, p: string)
    requires forall i :: 0 <= i < |ops| ==> Proper(ops[i])
    requires OnlyStarsSpecial(p)
    ensures Agrees(PerformAll(ops))
    ensures KeysOf(PerformAll(ops), "*") == IndexOf(PerformAll(ops))
    ensures KeysOf(PerformAll(ops), p) == GlobSublist(p, IndexOf(PerformAll(ops)))
  {
    if ops != [] {
      var before, op := PerformAll(ops[..|ops| - 1]), ops[|ops| - 1];
      RunsKeepAgreement(ops[..|ops| - 1], p);
      match op {
        case Set(k, v) => SetProperKey(before, k, v);
        case Delete(k) => DeleteKeepsAgreement(before, k);
        case DeleteMany(ks) => DeleteManyKeepsAgreement(before, ks);
      }
    }
    StarListsIndex(PerformAll(ops));
    FilterIsGlobSublist(p, IndexOf(PerformAll(ops)));
  }

  // ----- the cache -----

  class FileBasedCacheOperational {
    var store: Store

    constructor ()
      ensures store == map[] && Agrees(store)
    {
      store := map[];
    }

    method Keys(search: string) returns (found: seq<string>)
      ensures found == KeysOf(store, search)
    {
      var keyList := IndexOf(store);
      var expression := if '*' in search then Dotted(search) else search;
      found := [];
      for i := 0 to |keyList|
        invariant found == Filter(expression, keyList[..i])
      {
        assert keyList[..i + 1][..i] == keyList[..i];
        if RegexMatches(expression, keyList[i]) {
          found := found + [keyList[i]];
        }
      }
      assert keyList[..|keyList|] == keyList;
    }

    method Set(key: string, value: Value)
      modifies this
      ensures store == SetKey(old(store), key, value)
      ensures old(Agrees(store)) ==> (Agrees(store) <==> key != INDEX_KEY && OneLine(key))
    {
      if Agrees(store) {
        SetKeepsAgreementExactly(store, key, value);
      }
      store := store[key := value];
      var keyList := Keys("*");
      if key !in keyList {
        keyList := keyList + [key];
        store := store[INDEX_KEY := Index(keyList)];
      }
    }

    method Delete(key: string)
      modifies this
      ensures store == DeleteKey(old(store), key)
      ensures old(Agrees(store)) ==> (Agrees(store) <==> key != INDEX_KEY || IndexOf(old(store)) == [])
    {
      if Agrees(store) {
        DeleteKeepsAgreementExactly(store, key);
      }
      store := store - {key};
      var keyList := Keys("*");
      if key in keyList {
        store := store[INDEX_KEY := Index(Without(keyList, key))];
      }
    }

    method DeleteMany(keys: seq<string>)
      modifies this
      ensures store == DeleteKeys(old(store), keys)
    {
      for i := 0 to |keys|
        invariant store == DeleteKeys(old(store), keys[..i])
      {
        assert keys[..i + 1][..i] == keys[..i];
        Delete(keys[i]);
      }
      assert keys[..|keys|] == keys;
    }
  }
}
