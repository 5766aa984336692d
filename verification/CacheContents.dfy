/** What the program keeps in the file-based cache: the keys it is ever given, and why none of them
    gets in the way of a rebuild. */
module CacheContents {

  import opened Patterns
  import opened FileCache
  import opened KeyNames

  /** The prefixes a rebuild does something for. */
  predicate Served(prefix: string) {
    prefix == "stage" || prefix == "map" || prefix == "claim"
  }

  /** The keys in use: responses of the consumer interface, the transactions and actors behind a
      transaction, and connections of a node. */
  datatype CacheKey =
    | ResponseKey(prefix: string, batch: string, theme: string, lan: string)
    | ParentTransactionsKey(transaction: string, lan: string)
    | ActorTransactionsKey(transaction: string, lan: string)
    | ConnectionKey(node: string, chain: string, lan: string)
  {
    /** Made of primary keys and a language code. */
    predicate Valid() {
      match this
      case ResponseKey(p, b, t, l) => Served(p) && IsId(b) && IsId(t) && IsLanguageCode(l)
      case ParentTransactionsKey(x, l) => IsId(x) && IsLanguageCode(l)
      case ActorTransactionsKey(x, l) => IsId(x) && IsLanguageCode(l)
      case ConnectionKey(n, c, l) => IsId(n) && IsId(c) && IsLanguageCode(l)
    }

    /** What stands before the first underscore, and what after it. */
    function Head(): string {
      match this
      case ResponseKey(p, _, _, _) => p
      case ParentTransactionsKey(x, _) => x
      case ActorTransactionsKey(x, _) => x
      case ConnectionKey(_, _, _) => "connection"
    }

    function Tail(): string {
      match this
      case ResponseKey(_, b, t, l) => Join([b, t, l])
      case ParentTransactionsKey(_, l) => "parent_transactions_" + l
      case ActorTransactionsKey(_, l) => "actor_transactions_" + l
      case ConnectionKey(n, c, l) => Join([n, c, l])
    }

    function Text(): string {
      Head() + ['_'] + Tail()
    }
  }

  ghost predicate InUse(key: string) {
    exists ck: CacheKey :: ck.Valid() && ck.Text() == key
  }

  lemma ServedIsWord(prefix: string)
    requires Served(prefix)
    ensures Whole(prefix) && OneLine(prefix) && !IsId(prefix) && prefix != "connection"
  {
    assert prefix[0] == 's' || prefix[0] == 'm' || prefix[0] == 'c';
  }

  lemma HeadIsWhole(ck: CacheKey)
    requires ck.Valid()
    ensures Whole(ck.Head())
  {
    if ck.ResponseKey? {
      ServedIsWord(ck.prefix);
    }
  }

  /** A key in use that begins like a response key of some prefix is one: it can be rebuilt in
      place. */
  lemma KeysInUseAreClean(ck: CacheKey, prefix: string)
    requires Served(prefix) && ck.Valid() && prefix + ['_'] <= ck.Text()
    ensures WellFormed(prefix, ck.Text())
  {
    ServedIsWord(prefix);
    HeadIsWhole(ck);
    FirstPartOf(prefix, ck.Text());
    FirstPart(ck.Head(), ck.Tail());
    assert ck.ResponseKey? && ck.prefix == prefix;
    IdKeysAreWellFormed(prefix, ck.batch, ck.theme, ck.lan);
  }

  lemma JoinThreeOneLine(a: string, b: string, c: string)
    requires OneLine(a) && OneLine(b) && OneLine(c)
    ensures OneLine(Join([a, b, c]))
  {
    assert [a, b, c][1..] == [b, c] && [b, c][1..] == [c];
    assert Join([c]) == c;
    assert Join([b, c]) == b + ['_'] + c;
  }

  lemma CodesOnOneLine(s: string)
    ensures IsId(s) || IsLanguageCode(s) ==> OneLine(s)
  {}

  lemma HeadOneLine(ck: CacheKey)
    requires ck.Valid()
    ensures OneLine(ck.Head())
  {
    if ck.ResponseKey? {
      ServedIsWord(ck.prefix);
    }
  }

  lemma TailOneLine(ck: CacheKey)
    requires ck.Valid()
    ensures OneLine(ck.Tail())
  {
    CodesOnOneLine(ck.lan);
    match ck
    case ResponseKey(_, b, t, l) =>
      CodesOnOneLine(b);
      CodesOnOneLine(t);
      JoinThreeOneLine(b, t, l);
    case ConnectionKey(n, c, l) =>
      CodesOnOneLine(n);
      CodesOnOneLine(c);
      JoinThreeOneLine(n, c, l);
    case _ =>
  }

  /** Keys in use are proper: on one line, and not the index's own. */
  lemma KeysInUseAreProper(ck: CacheKey)
    requires ck.Valid()
    ensures OneLine(ck.Text()) && ck.Text() != INDEX_KEY
  {
    HeadOneLine(ck);
    TailOneLine(ck);
    assert ck.Text()[|ck.Head()|] == '_' && '_' !in INDEX_KEY;
  }

  // ----- runs of the program -----

  /** Every key under a prefix that rebuilds serve can be rebuilt in place. */
  ghost predicate Clean(st: Store, prefix: string) {
    forall k :: k in IndexOf(st) && prefix + ['_'] <= k ==> WellFormed(prefix, k)
  }

  /** Only keys in use are set, and the index is not deleted. */
  ghost predicate FromProgram(op: Operation) {
    match op
    case Set(k, _) => InUse(k)
    case Delete(k) => k != INDEX_KEY
    case DeleteMany(ks) => INDEX_KEY !in ks
  }

  ghost predicate OnlyKeysInUse(st: Store) {
    forall k :: k in IndexOf(st) ==> InUse(k)
  }

  lemma OperationKeepsKeysInUse(st: Store, op: Operation)
    requires Agrees(st) && OnlyKeysInUse(st) && FromProgram(op)
    ensures Agrees(Perform(st, op)) && OnlyKeysInUse(Perform(st, op))
  {
    match op
    case Set(k, v) =>
      var ck: CacheKey :| ck.Valid() && ck.Text() == k;
      KeysInUseAreProper(ck);
      SetProperKey(st, k, v);
    case Delete(k) => DeleteKeepsAgreement(st, k);
    case DeleteMany(ks) => DeleteManyKeepsAgreement(st, ks);
  }

  /** After any run of the program the cache agrees with its index, and every key of it that
      begins like a response key can be rebuilt in place. */
  lemma {:induction false} RunsStayClean(ops: seq<Operation>)
    requires forall i :: 0 <= i < |ops| ==> FromProgram(ops[i])
    ensures Agrees(PerformAll(ops)) && OnlyKeysInUse(PerformAll(ops))
    ensures forall prefix :: Served(prefix) ==> Clean(PerformAll(ops), prefix)
  {
    if ops != [] {
      RunsStayClean(ops[..|ops| - 1]);
      OperationKeepsKeysInUse(PerformAll(ops[..|ops| - 1]), ops[|ops| - 1]);
    }
    forall prefix, k | Served(prefix) && k in IndexOf(PerformAll(ops)) && prefix + ['_'] <= k
      ensures WellFormed(prefix, k)
    {
      assert InUse(k);
      var ck: CacheKey :| ck.Valid() && ck.Text() == k;
      KeysInUseAreClean(ck, prefix);
    }
  }
}
