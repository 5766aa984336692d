/** Rebuilding the cached responses of the consumer interface. */
module CacheHandlers {

  import opened Basics
  import opened Digraph
  import opened Transactions
  import opened Patterns
  import opened FileCache
  import opened KeyNames
  import opened CacheContents
  import opened Responses
  import opened Rebuilds

  datatype ClearResult = Cleared | Completed(keys: seq<string>) | Raised(failure: Failure)

  datatype Outcome = NoBatchFound | NoSourceTransaction | NothingCached | Answered(result: ClearResult)

  /** What `build_response_cache` comes to: a cached response, one newly stored, or an exception. */
  datatype CacheResult = Found(payload: Payload) | Stored | NotBuilt

  /** What the keys of a batch begin with. */
  function Beginning(prefix: string, batch: string): string {
    if batch == [] then prefix else prefix + ['_'] + batch
  }

  function Pattern(prefix: string, batch: string): string {
    Beginning(prefix, batch) + ['*']
  }

  function ResultOf(p: Progress, keys: seq<string>): ClearResult {
    if p.failure.Some? then Raised(p.failure.value) else Completed(keys)
  }

  // ----- which keys a batch has -----

  /** No character is special in a pattern, not even the star. */
  predicate Literal(s: string) {
    OnlyStarsSpecial(s) && '*' !in s
  }

  lemma {:induction false} LiteralStar(s: string, w: string)
    requires '*' !in s
    ensures Stars(s + ['*']) == 1 && Filled(s + ['*'], [w]) == s + w
  {
    if s == [] {
      assert Filled(['*'], [w]) == w + Filled([], []);
      assert [] + ['*'] == ['*'];
    } else {
      LiteralStar(s[1..], w);
      assert (s + ['*'])[1..] == s[1..] + ['*'];
      assert s + w == [s[0]] + (s[1..] + w);
    }
  }

  lemma LiteralsJoin(prefix: string, batch: string)
    requires Literal(prefix) && Literal(batch)
    ensures Literal(prefix + ['_'] + batch)
  {}

  lemma StarEndsPattern(start: string)
    requires Literal(start)
    ensures OnlyStarsSpecial(start + ['*']) && Compiled(start + ['*']) == Dotted(start + ['*'])
  {
    assert (start + ['*'])[|start|] == '*';
  }

  lemma StarTakesRest(start: string, rest: string)
    requires Literal(start) && OneLine(rest)
    ensures RegexMatches(Compiled(start + ['*']), start + rest)
  {
    StarEndsPattern(start);
    LiteralStar(start, rest);
    assert Fills(start + ['*'], [rest], start + rest);
    FilledMatches(start + ['*'], [rest], start + rest);
  }

  lemma KeyStarts(prefix: string, batch: string, theme: string, lan: string)
    ensures KeyFor(prefix, batch, theme, lan) == prefix + ['_'] + batch + (['_'] + Join([theme, lan]))
  {
    assert [batch, theme, lan][1..] == [theme, lan];
  }

  lemma OneLineTail(start: string, rest: string)
    ensures OneLine(start + rest) ==> OneLine(rest)
  {
    forall c | c in rest ensures c in start + rest {}
  }

  lemma MatchBegins(start: string, key: string)
    requires Literal(start) && RegexMatches(Compiled(start + ['*']), key)
    ensures start <= key
  {
    StarEndsPattern(start);
    LiteralStar(start, []);
    var texts := MatchIsFilled(start + ['*'], key);
    assert texts == [texts[0]];
    LiteralStar(start, texts[0]);
  }

  /** The keys found for a batch are exactly the cached ones that begin with prefix and batch. */
  lemma MatchesExactly(st: Store, prefix: string, batch: string, key: string)
    requires Agrees(st) && Literal(prefix) && Literal(batch)
    ensures key in KeysOf(st, Pattern(prefix, batch)) <==>
            key in IndexOf(st) && (if batch == [] then prefix else prefix + ['_'] + batch) <= key
  {
    var start := Beginning(prefix, batch);
    LiteralsJoin(prefix, batch);
    FilterMembers(Compiled(start + ['*']), IndexOf(st), key);
    if key in IndexOf(st) && start <= key {
      OneLineTail(start, key[|start|..]);
      assert start + key[|start|..] == key;
      StarTakesRest(start, key[|start|..]);
    }
    if RegexMatches(Compiled(start + ['*']), key) {
      MatchBegins(start, key);
    }
  }

  /** `get_cached_keys` misses no key of the batch it is asked about. */
  lemma NoKeyMissed(st: Store, prefix: string, batch: string, theme: string, lan: string)
    requires Agrees(st) && Literal(prefix) && Literal(batch) && batch != []
    requires KeyFor(prefix, batch, theme, lan) in IndexOf(st)
    ensures KeyFor(prefix, batch, theme, lan) in KeysOf(st, Pattern(prefix, batch))
  {
    var start, rest := prefix + ['_'] + batch, ['_'] + Join([theme, lan]);
    KeyStarts(prefix, batch, theme, lan);
    MatchesExactly(st, prefix, batch, start + rest);
  }

  /** The keys found for some of the batches, and no others. */
  ghost predicate Collects(st: Store, prefix: string, batches: set<string>, keys: seq<string>) {
    forall k :: k in keys <==> FoundFor(st, prefix, batches, k)
  }

  ghost predicate FoundFor(st: Store, prefix: string, batches: set<string>, key: string) {
    exists b :: b in batches && key in KeysOf(st, Pattern(prefix, b))
  }

  /** Batch ids without characters that are special in patterns, as primary keys are. */
  ghost predicate AllPlain(batches: set<string>) {
    forall b :: b in batches ==> b != [] && Literal(b)
  }

  /** Every cached response of the batches holds what is now built for its batch, theme and
      language. */
  ghost predicate ResponsesFresh(before: Store, after: Store, prefix: string, respond: Responder,
                                 batches: set<string>)
  {
    forall b, t, l :: b in batches && KeyFor(prefix, b, t, l) in IndexOf(before) ==>
      HoldsAnswer(after, KeyFor(prefix, b, t, l), Answer(after, respond(prefix, b, t, l)))
  }

  ghost predicate HoldsAnswer(st: Store, key: string, answer: Option<Payload>) {
    key in st && answer.Some? && st[key] == Data(answer.value)
  }

  ghost predicate BelongsTo(key: string, prefix: string, batches: set<string>) {
    exists b :: b in batches && Beginning(prefix, b) <= key
  }

  /** Whatever begins like the keys of such a batch holds the response of its own parts. */
  ghost predicate PartsFresh(before: Store, after: Store, prefix: string, respond: Responder, batches: set<string>) {
    forall k :: k in IndexOf(before) && BelongsTo(k, prefix, batches) ==>
      WellFormed(prefix, k) && Holds(after, prefix, respond, k)
  }

  ghost predicate OthersKept(before: Store, after: Store, prefix: string, batches: set<string>) {
    forall k :: k in IndexOf(before) && !BelongsTo(k, prefix, batches) ==>
      k in before && k in after && after[k] == before[k]
  }

  /** What a rebuild comes to for the batches asked about: other cached values stay as they are, and
      unless building raises, for the first key without an answer, every cached response is fresh.
      New in the index are just names by which transactions are remembered. */
  ghost predicate FreshFor(before: Store, p: Progress, prefix: string, respond: Responder, batches: set<string>,
                           keys: seq<string>) {
    && Refreshed(before, p, prefix, respond, keys)
    && RemembersUpTo(before, p, prefix, respond, keys)
    && (IndexOf(p.store) == IndexOf(before) <==>
        forall k :: RememberedBy(prefix, respond, Asked(p, keys), k) ==> k in IndexOf(before))
    && OthersKept(before, p.store, prefix, batches)
    && (p.failure.None? ==>
          && ResponsesFresh(before, p.store, prefix, respond, batches)
          && PartsFresh(before, p.store, prefix, respond, batches))
  }

  lemma IdsArePlain(batches: set<string>)
    requires forall b :: b in batches ==> IsId(b)
    ensures AllPlain(batches)
  {}

  lemma ServedIsPlain(prefix: string)
    requires Served(prefix)
    ensures Whole(prefix) && Literal(prefix)
  {}

  // ----- the handler -----

  class ThemeCacheHandler {
    const proxy: FileBasedCacheOperational
    const prefix: string
    const respond: Responder

    constructor (proxy: FileBasedCacheOperational, prefix: string, respond: Responder)
      ensures this.proxy == proxy && this.prefix == prefix && this.respond == respond
    {
      this.proxy, this.prefix, this.respond := proxy, prefix, respond;
    }

    method GetCachedKeys(batch: string) returns (keys: seq<string>)
      ensures keys == KeysOf(proxy.store, Pattern(prefix, batch))
    {
      if batch == [] {
        keys := proxy.Keys(prefix + ['*']);
      } else {
        keys := proxy.Keys(prefix + ['_'] + batch + ['*']);
      }
    }

    /** `parent_transactions` of the serializers: looked up and remembered, unless they are. */
    method ParentTransactions(m: Memo) returns (transactions: Payload)
      modifies proxy
      ensures transactions == Recalled(old(proxy.store), m)
      ensures proxy.store == if m.Key() in old(proxy.store) then old(proxy.store)
                             else SetKey(old(proxy.store), m.Key(), Data(m.transactions))
    {
      if m.Key() in proxy.store {
        return PayloadOf(proxy.store[m.Key()]);
      }
      transactions := m.transactions;
      proxy.Set(m.Key(), Data(transactions));
    }

    /** `build_response`: none if it raises. */
    method BuildResponse(batch: string, theme: string, lan: string) returns (response: Option<Payload>)
      modifies proxy
      ensures response == Answer(old(proxy.store), respond(prefix, batch, theme, lan))
      ensures proxy.store == AfterBuilding(old(proxy.store), respond(prefix, batch, theme, lan))
    {
      match respond(prefix, batch, theme, lan)
      case Refused => response := None;
      case Built(memo, answer) =>
        var transactions := None;
        if memo.Some? {
          var found := ParentTransactions(memo.value);
          transactions := Some(found);
        }
        response := answer(transactions);
    }

    /** `build_response_cache`; an answer of 0 stands for an empty response. */
    method BuildResponseCache(batch: string, theme: string, lan: string, rebuild: bool) returns (r: CacheResult)
      modifies proxy
      ensures
        var key, b := KeyFor(prefix, batch, theme, lan), respond(prefix, batch, theme, lan);
        var hit := key in old(proxy.store) && old(proxy.store)[key].Data? && old(proxy.store)[key].payload != 0;
        if !rebuild && hit then r == Found(old(proxy.store)[key].payload) && proxy.store == old(proxy.store)
        else
          var answer, built := Answer(old(proxy.store), b), AfterBuilding(old(proxy.store), b);
          && r == (if answer.Some? then Stored else NotBuilt)
          && proxy.store == if answer.Some? then SetKey(built, key, Data(answer.value)) else built
    {
      var key := KeyFor(prefix, batch, theme, lan);
      if !rebuild {
        if key in proxy.store && proxy.store[key].Data? && proxy.store[key].payload != 0 {
          return Found(proxy.store[key].payload);
        }
      }
      var response := BuildResponse(batch, theme, lan);
      if response.None? {
        return NotBuilt;
      }
      proxy.Set(key, Data(response.value));
      r := Stored;
    }

    /** `clear_response_cache`. */
    method ClearResponseCache(keys: seq<string>, rebuild: bool) returns (r: ClearResult)
      modifies proxy
      ensures !rebuild ==> r == Cleared && proxy.store == DeleteKeys(old(proxy.store), keys)
      ensures rebuild ==>
                var p := RebuildAll(old(proxy.store), prefix, respond, keys);
                r == ResultOf(p, keys) && proxy.store == p.store
    {
      if !rebuild {
        proxy.DeleteMany(keys);
        return Cleared;
      }
      ghost var before := proxy.store;
      for i := 0 to |keys|
        invariant RebuildAll(before, prefix, respond, keys[..i]) == Progress(proxy.store, i, None)
      {
        RebuildAllMore(before, prefix, respond, keys, i);
        var failure := RebuildKey(keys[i]);
        if failure.Some? {
          FailureStops(before, prefix, respond, keys, i + 1);
          return Raised(failure.value);
        }
      }
      assert keys[..|keys|] == keys;
      return Completed(keys);
    }

    /** The body of the loop over keys, which stops at a key with fewer than four parts, and at a
        response that cannot be built. */
    method RebuildKey(key: string) returns (failure: Option<Failure>)
      modifies proxy
      ensures Step(proxy.store, failure) == Rebuild(old(proxy.store), prefix, respond, key)
      ensures failure == Some(TooFewParts) <==> |Split(key)| < 4
      ensures prefix != "stage" && prefix != "map" && prefix != "claim" ==> proxy.store == old(proxy.store)
    {
      var items := Split(key);
      if |items| < 4 {
        return Some(TooFewParts);
      }
      if prefix == "stage" || prefix == "map" || prefix == "claim" {
        var r := BuildResponseCache(items[1], items[2], items[3], true);
        if r.NotBuilt? {
          return Some(BuildingRaised);
        }
      }
      return None;
    }

    /** `clear_ci_cache`, given the batches with their source transactions: rebuild the cached
        responses of the requested batches. */
    method ClearCiCache(batch: string, ignoreParents: bool, g: TransactionGraph, sources: map<string, Option<Vertex>>)
      returns (r: Outcome, ghost keys: seq<string>)
      requires Agrees(proxy.store) && (prefix == "stage" || prefix == "map" || prefix == "claim")
      requires g.Valid() && forall b :: b in sources && sources[b].Some? ==> sources[b].value in g.rows
      modifies proxy
      ensures r.NoBatchFound? <==> batch !in sources
      ensures r.NoSourceTransaction? <==> batch in sources && sources[batch].None?
      ensures !r.Answered? ==> proxy.store == old(proxy.store)
      ensures batch in sources && sources[batch].Some? ==>
                var before := old(proxy.store);
                var batches := Requested(batch, ignoreParents, old(g.rows), old(g.parents), old(g.resultBatches),
                                         old(g.batchParents), sources);
                var p := RebuildAll(before, prefix, respond, keys);
                && Collects(before, prefix, batches, keys)
                && r == (if keys == [] then NothingCached else Answered(ResultOf(p, keys)))
                && proxy.store == p.store
                && Gained(IndexOf(before), p.store, AllWrites(before, prefix, respond, keys))
                && (Clean(before, prefix) && AllPlain(batches) ==>
                      FreshFor(before, p, prefix, respond, batches, keys))
      ensures batch in sources && sources[batch].Some? && ignoreParents && Clean(old(proxy.store), prefix)
              && AllPlain({batch}) ==>
                KeptElsewhere(old(proxy.store), proxy.store, prefix + ['_'] + batch)
      ensures batch in sources && sources[batch].Some? && !ignoreParents && Clean(old(proxy.store), prefix)
              && AllPlain(sources.Keys) && (r.NothingCached? || r == Answered(Completed(keys))) ==>
                RelatedFresh(old(proxy.store), proxy.store, prefix, respond, old(g.rows), old(g.parents), sources,
                             sources[batch].value)
    {
      keys := [];
      if batch !in sources {
        r := NoBatchFound;
      } else if sources[batch].None? {
        r := NoSourceTransaction;
      } else {
        ghost var batches := Requested(batch, ignoreParents, g.rows, g.parents, g.resultBatches, g.batchParents,
                                       sources);
        var cached := KeysToRebuild(batch, ignoreParents, g, sources);
        keys := cached;
        RebuildIsFresh(proxy.store, prefix, respond, batches, keys);
        AfterRebuild(proxy.store, prefix, respond, keys, batch, ignoreParents, g.rows, g.parents, g.resultBatches,
                     g.batchParents, sources);
        if cached == [] {
          r := NothingCached;
        } else {
          var result := ClearResponseCache(cached, true);
          r := Answered(result);
        }
      }
    }

    method KeysToRebuild(batch: string, ignoreParents: bool, g: TransactionGraph, sources: map<string, Option<Vertex>>)
      returns (keys: seq<string>)
      requires g.Valid() && batch in sources && sources[batch].Some? && sources[batch].value in g.rows
      ensures Collects(proxy.store, prefix, Requested(batch, ignoreParents, g.rows, g.parents, g.resultBatches,
                                                      g.batchParents, sources), keys)
    {
      if !ignoreParents {
        var related := g.GetParentTransactions(sources[batch].value, false, {});
        var batches := set b | b in sources && sources[b].Some? && sources[b].value in related;
        keys := CollectKeys(batches);
        assert batches == Requested(batch, ignoreParents, g.rows, g.parents, g.resultBatches, g.batchParents, sources);
      } else {
        keys := CollectKeys({batch});
      }
    }

    /** The keys of several batches, one batch after the other. */
    method CollectKeys(batches: set<string>) returns (keys: seq<string>)
      ensures Collects(proxy.store, prefix, batches, keys)
    {
      keys := [];
      var todo := batches;
      while todo != {}
        invariant todo <= batches
        invariant Collects(proxy.store, prefix, batches - todo, keys)
      {
        var b :| b in todo;
        var more := GetCachedKeys(b);
        CollectOneMore(proxy.store, prefix, batches - todo, keys, b);
        keys := keys + more;
        assert batches - (todo - {b}) == batches - todo + {b};
        todo := todo - {b};
      }
      assert batches - todo == batches;
    }
  }

  // ----- what a rebuild of collected keys comes to -----

  lemma CollectedAreCached(st: Store, prefix: string, batches: set<string>, keys: seq<string>)
    requires Agrees(st) && Collects(st, prefix, batches, keys)
    ensures AllOneLine(keys) && forall i :: 0 <= i < |keys| ==> keys[i] in IndexOf(st)
  {
    forall i | 0 <= i < |keys| ensures keys[i] in IndexOf(st) && OneLine(keys[i]) {
      assert FoundFor(st, prefix, batches, keys[i]);
      var b :| b in batches && keys[i] in KeysOf(st, Pattern(prefix, b));
      FilterMembers(Compiled(Pattern(prefix, b)), IndexOf(st), keys[i]);
    }
  }

  lemma FoundBegins(st: Store, prefix: string, batches: set<string>, key: string) returns (b: string)
    requires Agrees(st) && Literal(prefix) && AllPlain(batches) && FoundFor(st, prefix, batches, key)
    ensures b in batches && prefix + ['_'] <= Beginning(prefix, b) <= key && key in IndexOf(st)
  {
    b :| b in batches && key in KeysOf(st, Pattern(prefix, b));
    MatchesExactly(st, prefix, b, key);
  }

  lemma CollectedAreWellFormed(st: Store, prefix: string, batches: set<string>, keys: seq<string>)
    requires Agrees(st) && Literal(prefix) && Collects(st, prefix, batches, keys)
    requires Clean(st, prefix) && AllPlain(batches)
    ensures InPlace(st, prefix, keys)
  {
    CollectedAreCached(st, prefix, batches, keys);
    forall i | 0 <= i < |keys| ensures WellFormed(prefix, keys[i]) {
      assert keys[i] in keys;
      var b := FoundBegins(st, prefix, batches, keys[i]);
    }
  }

  /** A well-formed key of a batch asks for the response of that batch. */
  lemma AsksForOwnResponse(prefix: string, respond: Responder, batch: string, theme: string, lan: string)
    requires Whole(prefix) && WellFormed(prefix, KeyFor(prefix, batch, theme, lan))
    ensures BuildingOf(prefix, respond, KeyFor(prefix, batch, theme, lan)) == respond(prefix, batch, theme, lan)
  {
    RebuildsInPlaceExactly(prefix, KeyFor(prefix, batch, theme, lan));
    KeyRoundTripExactly(prefix, batch, theme, lan);
  }

  /** Rebuilding the collected keys: the index gains just the keys written; and if the keys under
      the prefix can be rebuilt in place, the cached responses of the batches become fresh. */
  lemma RebuildIsFresh(st: Store, prefix: string, respond: Responder, batches: set<string>, keys: seq<string>)
    requires Agrees(st) && Served(prefix) && Collects(st, prefix, batches, keys)
    ensures
      var p := RebuildAll(st, prefix, respond, keys);
      && Gained(IndexOf(st), p.store, AllWrites(st, prefix, respond, keys))
      && (Clean(st, prefix) && AllPlain(batches) ==> FreshFor(st, p, prefix, respond, batches, keys))
  {
    CollectedAreCached(st, prefix, batches, keys);
    RebuildKeepsAgreement(st, prefix, respond, keys);
    if Clean(st, prefix) && AllPlain(batches) {
      ServedIsPlain(prefix);
      CollectedAreWellFormed(st, prefix, batches, keys);
      RebuildRefreshes(st, prefix, respond, keys);
      RebuildRemembers(st, prefix, respond, keys);
      RebuildInPlaceKeepsIndexExactly(st, prefix, respond, keys);
      RefreshedIsFresh(st, RebuildAll(st, prefix, respond, keys), prefix, respond, batches, keys);
    }
  }

  lemma CollectedBelong(st: Store, prefix: string, batches: set<string>, keys: seq<string>, key: string)
    requires Agrees(st) && Literal(prefix) && Collects(st, prefix, batches, keys) && AllPlain(batches)
    ensures key in keys <==> key in IndexOf(st) && BelongsTo(key, prefix, batches)
  {
    if FoundFor(st, prefix, batches, key) {
      var b := FoundBegins(st, prefix, batches, key);
    }
    if key in IndexOf(st) && BelongsTo(key, prefix, batches) {
      var b :| b in batches && Beginning(prefix, b) <= key;
      MatchesExactly(st, prefix, b, key);
      assert FoundFor(st, prefix, batches, key);
    }
  }

  lemma KeysBelong(prefix: string, batches: set<string>, batch: string, theme: string, lan: string)
    requires batch in batches && batch != []
    ensures BelongsTo(KeyFor(prefix, batch, theme, lan), prefix, batches)
  {
    KeyStarts(prefix, batch, theme, lan);
    assert Beginning(prefix, batch) <= KeyFor(prefix, batch, theme, lan);
  }

  lemma RefreshedIsFresh(before: Store, p: Progress, prefix: string, respond: Responder, batches: set<string>,
                         keys: seq<string>)
    requires Agrees(before) && Served(prefix) && Literal(prefix) && Whole(prefix)
    requires Collects(before, prefix, batches, keys) && AllPlain(batches)
    requires InPlace(before, prefix, keys) && Refreshed(before, p, prefix, respond, keys)
    requires p.failure.None? ==> p.done == |keys|
    ensures OthersKept(before, p.store, prefix, batches)
    ensures p.failure.None? ==>
              && ResponsesFresh(before, p.store, prefix, respond, batches)
              && PartsFresh(before, p.store, prefix, respond, batches)
  {
    forall k | k in IndexOf(before) && !BelongsTo(k, prefix, batches)
      ensures k in before && k in p.store && p.store[k] == before[k]
    {
      CollectedBelong(before, prefix, batches, keys, k);
      assert forall i :: 0 <= i < p.done ==> keys[..p.done][i] == keys[i];
      assert k !in KeySet(keys[..p.done]);
    }
    if p.failure.None? {
      assert keys[..p.done] == keys;
      HeldIsFresh(before, p.store, prefix, respond, batches, keys);
    }
  }

  lemma HeldIsFresh(before: Store, after: Store, prefix: string, respond: Responder, batches: set<string>,
                    keys: seq<string>)
    requires Agrees(before) && Literal(prefix) && Whole(prefix) && Collects(before, prefix, batches, keys)
    requires AllPlain(batches) && InPlace(before, prefix, keys) && AllHold(after, prefix, respond, keys)
    ensures ResponsesFresh(before, after, prefix, respond, batches)
    ensures PartsFresh(before, after, prefix, respond, batches)
  {
    forall k | k in IndexOf(before) && BelongsTo(k, prefix, batches)
      ensures WellFormed(prefix, k) && Holds(after, prefix, respond, k)
    {
      CollectedBelong(before, prefix, batches, keys, k);
      var i :| 0 <= i < |keys| && keys[i] == k;
    }
    forall b, t, l | b in batches && KeyFor(prefix, b, t, l) in IndexOf(before)
      ensures HoldsAnswer(after, KeyFor(prefix, b, t, l), Answer(after, respond(prefix, b, t, l)))
    {
      KeysBelong(prefix, batches, b, t, l);
      AsksForOwnResponse(prefix, respond, b, t, l);
    }
  }

  lemma CollectOneMore(st: Store, prefix: string, done: set<string>, keys: seq<string>, b: string)
    requires Collects(st, prefix, done, keys)
    ensures Collects(st, prefix, done + {b}, keys + KeysOf(st, Pattern(prefix, b)))
  {
    var more := KeysOf(st, Pattern(prefix, b));
    forall k ensures FoundFor(st, prefix, done + {b}, k) <==> FoundFor(st, prefix, done, k) || k in more {
      if FoundFor(st, prefix, done, k) {
        var c :| c in done && k in KeysOf(st, Pattern(prefix, c));
        assert c in done + {b};
      }
      if k in more {
        assert b in done + {b};
      }
    }
  }

  /** The batches whose cached responses a call is about: the batch itself, or those whose source
      transaction is a shown ancestor-or-self of the batch's own. */
  ghost function Requested(batch: string, ignoreParents: bool, rows: map<Vertex, Transaction>, parents: Edges,
                           results: set<(Vertex, Batch)>, links: set<(Batch, Batch)>,
                           sources: map<string, Option<Vertex>>): set<string>
    requires batch in sources && sources[batch].Some? && sources[batch].value in rows
  {
    var x := sources[batch].value;
    if ignoreParents then {batch}
    else
      set b | b in sources && sources[b].Some?
              && sources[b].value in Ancestors(parents, results, links, {}, x) + {x}
              && sources[b].value in rows
              && (Shown(rows[sources[b].value]) || (sources[b].value == x && rows[x].kind.Internal?))
  }

  // ----- which batches a call is about -----

  /** The source transaction of the batch asked about, if it is internal or shown, or a shown one that
      a path of parents leads to from it; shown are sales that were neither reversed nor declined. */
  ghost predicate Related(rows: map<Vertex, Transaction>, parents: Edges, x: Vertex, y: Vertex) {
    && y in rows && (y == x || Reaches(parents, x, y))
    && match rows[y].kind
       case Internal => y == x
       case External(_, reversal) => !reversal && !rows[y].declined
  }

  lemma RequestedExactly(batch: string, ignoreParents: bool, rows: map<Vertex, Transaction>, parents: Edges,
                         results: set<(Vertex, Batch)>, links: set<(Batch, Batch)>,
                         sources: map<string, Option<Vertex>>, b: string)
    requires batch in sources && sources[batch].Some? && sources[batch].value in rows
    ensures b in Requested(batch, ignoreParents, rows, parents, results, links, sources) <==>
            if ignoreParents then b == batch
            else b in sources && sources[b].Some? && Related(rows, parents, sources[batch].value, sources[b].value)
  {
    if b in sources && sources[b].Some? {
      ClosureIsReaches(parents, sources[batch].value, sources[b].value);
    }
  }

  /** All cached values stay but under keys that begin like this. */
  ghost predicate KeptElsewhere(before: Store, after: Store, start: string) {
    forall k :: k in IndexOf(before) && !(start <= k) ==> k in before && k in after && after[k] == before[k]
  }

  /** Of every batch with a related source transaction, each cached response is the one now built for
      its batch, theme and language. */
  ghost predicate RelatedFresh(before: Store, after: Store, prefix: string, respond: Responder,
                               rows: map<Vertex, Transaction>, parents: Edges, sources: map<string, Option<Vertex>>,
                               x: Vertex)
  {
    forall b, t, l ::
      && b in sources && sources[b].Some? && Related(rows, parents, x, sources[b].value)
      && KeyFor(prefix, b, t, l) in IndexOf(before) ==>
        HoldsAnswer(after, KeyFor(prefix, b, t, l), Answer(after, respond(prefix, b, t, l)))
  }

  /** What a rebuild comes to, in terms of the tables. */
  lemma AfterRebuild(st: Store, prefix: string, respond: Responder, keys: seq<string>, batch: string,
                     ignoreParents: bool, rows: map<Vertex, Transaction>, parents: Edges,
                     results: set<(Vertex, Batch)>, links: set<(Batch, Batch)>, sources: map<string, Option<Vertex>>)
    requires batch in sources && sources[batch].Some? && sources[batch].value in rows
    requires
      var batches := Requested(batch, ignoreParents, rows, parents, results, links, sources);
      Clean(st, prefix) && AllPlain(batches) ==>
        FreshFor(st, RebuildAll(st, prefix, respond, keys), prefix, respond, batches, keys)
    ensures Clean(st, prefix) && ignoreParents && AllPlain({batch}) ==>
              KeptElsewhere(st, RebuildAll(st, prefix, respond, keys).store, prefix + ['_'] + batch)
    ensures
      var p := RebuildAll(st, prefix, respond, keys);
      Clean(st, prefix) && !ignoreParents && AllPlain(sources.Keys) && p.failure.None? ==>
        RelatedFresh(st, p.store, prefix, respond, rows, parents, sources, sources[batch].value)
  {
    var p := RebuildAll(st, prefix, respond, keys);
    var batches := Requested(batch, ignoreParents, rows, parents, results, links, sources);
    forall b ensures b in batches <==>
                     if ignoreParents then b == batch
                     else b in sources && sources[b].Some?
                          && Related(rows, parents, sources[batch].value, sources[b].value)
    {
      RequestedExactly(batch, ignoreParents, rows, parents, results, links, sources, b);
    }
    if ignoreParents {
      assert batches == {batch};
      assert forall k :: BelongsTo(k, prefix, {batch}) <==> Beginning(prefix, batch) <= k;
    }
  }

  lemma BeginsWithStart(a: string, b: string, c: string, d: string)
    ensures a + b <= a + (b + c) + d
  {
    assert a + (b + c) + d == (a + b) + (c + d);
  }

  /** A quirk of the search for a batch's keys: it also finds those of every batch whose id begins
      with the same digits. */
  lemma FindsLongerIds(st: Store, prefix: string, batch: string, more: string, theme: string, lan: string)
    requires Agrees(st) && Literal(prefix) && Literal(batch) && batch != []
    requires KeyFor(prefix, batch + more, theme, lan) in IndexOf(st)
    ensures KeyFor(prefix, batch + more, theme, lan) in KeysOf(st, Pattern(prefix, batch))
  {
    KeyStarts(prefix, batch + more, theme, lan);
    BeginsWithStart(prefix + ['_'], batch, more, ['_'] + Join([theme, lan]));
    MatchesExactly(st, prefix, batch, KeyFor(prefix, batch + more, theme, lan));
  }
}
