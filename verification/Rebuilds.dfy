/** Rebuilding cached responses, key by key, until a key has too few parts or its response cannot
    be built. */
module Rebuilds {

  import opened Basics
  import opened Patterns
  import opened FileCache
  import opened KeyNames
  import opened CacheContents
  import opened Responses

  datatype Failure = TooFewParts | BuildingRaised

  predicate Rebuildable(key: string) {
    |Split(key)| >= 4
  }

  function BuildingOf(prefix: string, respond: Responder, key: string): Building
    requires Rebuildable(key)
  {
    respond(prefix, Split(key)[1], Split(key)[2], Split(key)[3])
  }

  /** The cache after an attempt, and why it failed if it did. */
  datatype Step = Step(store: Store, failure: Option<Failure>)

  /** One key rebuilt: the response its parts ask for is stored under the key they make. */
  function Rebuild(st: Store, prefix: string, respond: Responder, key: string): Step {
    if !Rebuildable(key) then Step(st, Some(TooFewParts))
    else if !Served(prefix) then Step(st, None)
    else
      var b := BuildingOf(prefix, respond, key);
      match Answer(st, b)
      case None => Step(AfterBuilding(st, b), Some(BuildingRaised))
      case Some(p) => Step(SetKey(AfterBuilding(st, b), RebuiltKey(prefix, key), Data(p)), None)
  }

  /** How far a rebuild of several keys gets. */
  datatype Progress = Progress(store: Store, done: nat, failure: Option<Failure>)
  {
    function With(s: Step): Progress {
      Progress(s.store, if s.failure.None? then done + 1 else done, s.failure)
    }
  }

  function RebuildAll(st: Store, prefix: string, respond: Responder, keys: seq<string>): (p: Progress)
    ensures p.done <= |keys| && (p.failure.None? <==> p.done == |keys|)
  {
    if keys == [] then Progress(st, 0, None)
    else After(RebuildAll(st, prefix, respond, keys[..|keys| - 1]), prefix, respond, keys[|keys| - 1])
  }

  /** One more key, if none has failed. */
  function After(p: Progress, prefix: string, respond: Responder, key: string): Progress {
    if p.failure.Some? then p else p.With(Rebuild(p.store, prefix, respond, key))
  }

  lemma RebuildAllMore(st: Store, prefix: string, respond: Responder, keys: seq<string>, i: nat)
    requires i < |keys|
    ensures RebuildAll(st, prefix, respond, keys[..i + 1])
            == After(RebuildAll(st, prefix, respond, keys[..i]), prefix, respond, keys[i])
  {
    assert keys[..i + 1][..i] == keys[..i];
  }

  /** Once a key has failed the others are left alone. */
  lemma {:induction false} FailureStops(st: Store, prefix: string, respond: Responder, keys: seq<string>, i: nat)
    requires i <= |keys| && RebuildAll(st, prefix, respond, keys[..i]).failure.Some?
    ensures RebuildAll(st, prefix, respond, keys) == RebuildAll(st, prefix, respond, keys[..i])
    decreases |keys| - i
  {
    if i == |keys| {
      assert keys[..i] == keys;
    } else {
      RebuildAllMore(st, prefix, respond, keys, i);
      FailureStops(st, prefix, respond, keys, i + 1);
    }
  }

  // ----- what happens to the index -----

  function AddedAll(index: seq<string>, keys: seq<string>): seq<string> {
    if keys == [] then index else Added(AddedAll(index, keys[..|keys| - 1]), keys[|keys| - 1])
  }

  lemma {:induction false} AddedAllAppends(index: seq<string>, a: seq<string>, b: seq<string>)
    ensures AddedAll(AddedAll(index, a), b) == AddedAll(index, a + b)
  {
    if b == [] {
      assert a + b == a;
    } else {
      AddedAllAppends(index, a, b[..|b| - 1]);
      assert (a + b)[..|a + b| - 1] == a + b[..|b| - 1];
    }
  }

  /** Adding keys to an index only makes it longer, and leaves it alone exactly when all are
      listed. */
  lemma {:induction false} AddedAllExact(index: seq<string>, keys: seq<string>)
    ensures index <= AddedAll(index, keys)
    ensures forall k :: k in AddedAll(index, keys) <==> k in index || k in keys
    ensures AddedAll(index, keys) == index <==> forall k :: k in keys ==> k in index
  {
    if keys != [] {
      var front, last := keys[..|keys| - 1], keys[|keys| - 1];
      AddedAllExact(index, front);
      assert keys == front + [last];
      AddedExact(AddedAll(index, front), last);
      if AddedAll(index, keys) == index {
        assert AddedAll(index, front) == index;
      }
    }
  }

  lemma AddedExact(index: seq<string>, key: string)
    ensures index <= Added(index, key)
    ensures forall k :: k in Added(index, key) <==> k in index || k == key
    ensures Added(index, key) == index <==> key in index
  {}

  /** The keys an attempt writes: the transactions it remembers, and the response. */
  function Writes(prefix: string, respond: Responder, key: string, ok: bool): seq<string>
    requires Rebuildable(key)
  {
    var b := BuildingOf(prefix, respond, key);
    (if b.Remembers() then [b.memo.value.Key()] else []) + if ok then [RebuiltKey(prefix, key)] else []
  }

  function WritesOfStep(st: Store, prefix: string, respond: Responder, key: string): seq<string> {
    if Rebuildable(key) && Served(prefix)
    then Writes(prefix, respond, key, Rebuild(st, prefix, respond, key).failure.None?)
    else []
  }

  function AllWrites(st: Store, prefix: string, respond: Responder, keys: seq<string>): seq<string> {
    if keys == [] then []
    else
      var front := keys[..|keys| - 1];
      var p := RebuildAll(st, prefix, respond, front);
      AllWrites(st, prefix, respond, front)
      + MoreWrites(p, prefix, respond, keys[|keys| - 1])
  }

  lemma {:induction false} PartsOnOneLine(key: string)
    requires OneLine(key)
    ensures forall i :: 0 <= i < |Split(key)| ==> OneLine(Split(key)[i])
  {
    if key != [] {
      PartsOnOneLine(key[1..]);
      SplitPrepends(key[0], key[1..]);
      assert [key[0]] + key[1..] == key;
    }
  }

  /** The key a rebuild writes is proper, whatever key it was given. */
  lemma RebuiltKeyIsProper(prefix: string, key: string)
    requires Served(prefix) && Rebuildable(key) && OneLine(key)
    ensures RebuiltKey(prefix, key) != INDEX_KEY && OneLine(RebuiltKey(prefix, key))
  {
    var p := Split(key);
    ServedIsWord(prefix);
    PartsOnOneLine(key);
    JoinThreeOneLine(p[1], p[2], p[3]);
    assert RebuiltKey(prefix, key)[|prefix|] == '_' && '_' !in INDEX_KEY;
  }

  lemma AddedNone(index: seq<string>)
    ensures AddedAll(index, []) == index
  {}

  lemma AddedOne(index: seq<string>, a: string)
    ensures AddedAll(index, [a]) == Added(index, a)
  {
    assert [a][..0] == [];
  }

  lemma WritesAdded(index: seq<string>, prefix: string, respond: Responder, key: string, ok: bool)
    requires Rebuildable(key)
    ensures
      var b := BuildingOf(prefix, respond, key);
      var built := if b.Remembers() then Added(index, b.memo.value.Key()) else index;
      AddedAll(index, Writes(prefix, respond, key, ok)) == if ok then Added(built, RebuiltKey(prefix, key)) else built
  {
    var b, rk := BuildingOf(prefix, respond, key), RebuiltKey(prefix, key);
    var first := if b.Remembers() then [b.memo.value.Key()] else [];
    AddedNone(index);
    if b.Remembers() {
      AddedOne(index, b.memo.value.Key());
    }
    if ok {
      assert first + [rk] == Writes(prefix, respond, key, ok);
      AddedAllAppends(index, first, [rk]);
      AddedOne(AddedAll(index, first), rk);
    } else {
      assert first + [] == first;
    }
  }

  lemma BuildingAdds(st: Store, b: Building)
    requires Agrees(st)
    ensures
      var after := AfterBuilding(st, b);
      && Agrees(after)
      && IndexOf(after) == if b.Remembers() then Added(IndexOf(st), b.memo.value.Key()) else IndexOf(st)
  {
    BuildingKeepsCache(st, b);
  }

  /** One attempt: index and store still agree, and the index gains just the keys written. */
  lemma StepKeepsAgreement(st: Store, prefix: string, respond: Responder, key: string)
    requires Agrees(st) && Served(prefix) && OneLine(key)
    ensures
      var s := Rebuild(st, prefix, respond, key);
      Agrees(s.store) && IndexOf(s.store) == AddedAll(IndexOf(st), WritesOfStep(st, prefix, respond, key))
  {
    if Rebuildable(key) {
      var b := BuildingOf(prefix, respond, key);
      BuildingAdds(st, b);
      RebuiltKeyIsProper(prefix, key);
      WritesAdded(IndexOf(st), prefix, respond, key, Answer(st, b).Some?);
      if Answer(st, b).Some? {
        SetAddsKey(AfterBuilding(st, b), RebuiltKey(prefix, key), Data(Answer(st, b).value));
      }
    } else {
      AddedNone(IndexOf(st));
    }
  }

  lemma SetAddsKey(st: Store, key: string, v: Value)
    requires Agrees(st) && key != INDEX_KEY && OneLine(key)
    ensures Agrees(SetKey(st, key, v)) && IndexOf(SetKey(st, key, v)) == Added(IndexOf(st), key)
  {
    SetProperKey(st, key, v);
  }

  ghost predicate AllOneLine(keys: seq<string>) {
    forall i :: 0 <= i < |keys| ==> OneLine(keys[i])
  }

  /** Index and store agree, and the index has gained these keys. */
  ghost predicate Gained(index: seq<string>, st: Store, keys: seq<string>) {
    Agrees(st) && IndexOf(st) == AddedAll(index, keys)
  }

  function MoreWrites(p: Progress, prefix: string, respond: Responder, key: string): seq<string> {
    if p.failure.Some? then [] else WritesOfStep(p.store, prefix, respond, key)
  }

  lemma GainedMore(index: seq<string>, p: Progress, ws: seq<string>, prefix: string, respond: Responder, key: string)
    requires Gained(index, p.store, ws) && Served(prefix) && OneLine(key)
    ensures Gained(index, After(p, prefix, respond, key).store, ws + MoreWrites(p, prefix, respond, key))
  {
    if p.failure.None? {
      StepKeepsAgreement(p.store, prefix, respond, key);
      AddedAllAppends(index, ws, WritesOfStep(p.store, prefix, respond, key));
    } else {
      assert ws + [] == ws;
    }
  }

  /** A whole rebuild, of any keys: index and store still agree, and the index gains just the keys
      written, in the order of writing. */
  lemma {:induction false} RebuildKeepsAgreement(st: Store, prefix: string, respond: Responder, keys: seq<string>)
    requires Agrees(st) && Served(prefix) && AllOneLine(keys)
    ensures Gained(IndexOf(st), RebuildAll(st, prefix, respond, keys).store, AllWrites(st, prefix, respond, keys))
  {
    if keys != [] {
      var front, last := keys[..|keys| - 1], keys[|keys| - 1];
      RebuildKeepsAgreement(st, prefix, respond, front);
      GainedMore(IndexOf(st), RebuildAll(st, prefix, respond, front), AllWrites(st, prefix, respond, front),
                 prefix, respond, last);
    }
  }

  /** A rebuild only adds to the index, and keeps it as it is exactly when every key it writes,
      response or remembered transactions, was cached. */
  lemma RebuildKeepsIndexExactly(st: Store, prefix: string, respond: Responder, keys: seq<string>)
    requires Agrees(st) && Served(prefix) && AllOneLine(keys)
    ensures
      var after, ws := RebuildAll(st, prefix, respond, keys).store, AllWrites(st, prefix, respond, keys);
      && IndexOf(st) <= IndexOf(after)
      && (forall k :: k in IndexOf(after) <==> k in IndexOf(st) || k in ws)
      && (IndexOf(after) == IndexOf(st) <==> forall k :: k in ws ==> k in IndexOf(st))
  {
    RebuildKeepsAgreement(st, prefix, respond, keys);
    AddedAllExact(IndexOf(st), AllWrites(st, prefix, respond, keys));
  }

  // ----- what happens to the values, for keys that are rebuilt in place -----

  /** Cached keys, each of which is rebuilt in place. */
  ghost predicate InPlace(st: Store, prefix: string, keys: seq<string>) {
    forall i :: 0 <= i < |keys| ==> WellFormed(prefix, keys[i]) && keys[i] in IndexOf(st) && OneLine(keys[i])
  }

  /** What building the key's response remembers the transactions by, if it needs any. */
  function MemoKey(prefix: string, respond: Responder, key: string): Option<string> {
    if !Rebuildable(key) then None
    else
      var b := BuildingOf(prefix, respond, key);
      if b.Remembers() then Some(b.memo.value.Key()) else None
  }

  function AnswerFor(st: Store, prefix: string, respond: Responder, key: string): Option<Payload> {
    if Rebuildable(key) then Answer(st, BuildingOf(prefix, respond, key)) else None
  }

  ghost predicate Remembers(st: Store, prefix: string, respond: Responder, key: string) {
    MemoKey(prefix, respond, key).Some? ==> MemoKey(prefix, respond, key).value in st
  }

  /** The key holds the response of its own batch, theme and language, built from the transactions
      that are remembered. */
  ghost predicate Holds(st: Store, prefix: string, respond: Responder, key: string) {
    var answer := AnswerFor(st, prefix, respond, key);
    Remembers(st, prefix, respond, key) && answer.Some? && key in st && st[key] == Data(answer.value)
  }

  /** All cached keys but these keep their values. */
  ghost predicate KeptBut(before: Store, after: Store, keys: set<string>) {
    forall k :: k in IndexOf(before) && k !in keys ==> k in before && k in after && after[k] == before[k]
  }

  /** No key that is rebuilt in place is one that transactions are remembered by. */
  lemma MemoKeyIsOther(prefix: string, respond: Responder, key: string, other: string)
    requires Served(prefix) && WellFormed(prefix, other)
    ensures MemoKey(prefix, respond, key) != Some(other)
  {
    if MemoKey(prefix, respond, key).Some? {
      ServedIsWord(prefix);
      RebuildsInPlaceExactly(prefix, other);
      var p := Split(other);
      MemoKeyIsNoResponse(BuildingOf(prefix, respond, key).memo.value, prefix, Join([p[1], p[2], p[3]]));
    }
  }

  /** Building changes no cached value, and its answer can be read off the cache it leaves. */
  lemma BuildingKeeps(st: Store, prefix: string, respond: Responder, key: string)
    requires Agrees(st) && Rebuildable(key)
    ensures
      var after := AfterBuilding(st, BuildingOf(prefix, respond, key));
      && Agrees(after) && KeptBut(st, after, {}) && Remembers(after, prefix, respond, key)
      && AnswerFor(after, prefix, respond, key) == AnswerFor(st, prefix, respond, key)
      && (key in IndexOf(st) ==> key in IndexOf(after))
  {
    BuildingKeepsCache(st, BuildingOf(prefix, respond, key));
  }

  /** Storing a response in place changes no other cached value, and no answer. */
  lemma StoringKeeps(st: Store, prefix: string, respond: Responder, key: string, p: Payload)
    requires Agrees(st) && Served(prefix) && WellFormed(prefix, key) && key in IndexOf(st)
    requires AnswerFor(st, prefix, respond, key) == Some(p) && Remembers(st, prefix, respond, key)
    ensures
      var after := SetKey(st, key, Data(p));
      Agrees(after) && KeptBut(st, after, {key}) && Holds(after, prefix, respond, key)
  {
    var after := SetKey(st, key, Data(p));
    SetProperKey(st, key, Data(p));
    MemoKeyIsOther(prefix, respond, key, key);
    AnswerByMemory(st, after, BuildingOf(prefix, respond, key));
  }

  /** What an attempt in place does: it fails just if there is no answer; the transactions are
      remembered either way; and nothing but the key changes, not even that if there is no answer. */
  ghost predicate Attempted(st: Store, s: Step, prefix: string, respond: Responder, key: string) {
    var answer := AnswerFor(st, prefix, respond, key);
    && Agrees(s.store)
    && s.failure == (if answer.Some? then None else Some(BuildingRaised))
    && (if answer.Some? then Holds(s.store, prefix, respond, key) && KeptBut(st, s.store, {key})
        else AnswerFor(s.store, prefix, respond, key).None? && KeptBut(st, s.store, {}))
    && Remembers(s.store, prefix, respond, key)
  }

  lemma AttemptInPlace(st: Store, prefix: string, respond: Responder, key: string)
    requires Agrees(st) && Served(prefix) && WellFormed(prefix, key) && key in IndexOf(st)
    ensures Attempted(st, Rebuild(st, prefix, respond, key), prefix, respond, key)
  {
    var answer, built := AnswerFor(st, prefix, respond, key), AfterBuilding(st, BuildingOf(prefix, respond, key));
    BuildingKeeps(st, prefix, respond, key);
    if answer.Some? {
      ServedIsWord(prefix);
      RebuildsInPlaceExactly(prefix, key);
      StoringKeeps(built, prefix, respond, key, answer.value);
    }
  }

  ghost predicate AllHold(st: Store, prefix: string, respond: Responder, keys: seq<string>) {
    forall i :: 0 <= i < |keys| ==> Holds(st, prefix, respond, keys[i])
  }

  ghost function KeySet(keys: seq<string>): set<string> {
    set k | k in keys
  }

  /** These keys hold their own responses, and all others what they held before. */
  ghost predicate Current(before: Store, st: Store, prefix: string, respond: Responder, done: seq<string>) {
    Agrees(st) && AllHold(st, prefix, respond, done) && KeptBut(before, st, KeySet(done))
  }

  /** The keys done hold their own responses and all others what they held; and if there has been
      a failure, it is that the next key has no answer. */
  ghost predicate Refreshed(before: Store, p: Progress, prefix: string, respond: Responder, keys: seq<string>) {
    && p.done <= |keys|
    && Current(before, p.store, prefix, respond, keys[..p.done])
    && (p.failure.Some? ==>
          && p.done < |keys| && p.failure == Some(BuildingRaised)
          && AnswerFor(p.store, prefix, respond, keys[p.done]).None?)
  }

  lemma HoldsStays(st: Store, after: Store, prefix: string, respond: Responder, key: string, other: string)
    requires Agrees(st) && Served(prefix) && Holds(st, prefix, respond, key) && key != INDEX_KEY && key != other
    requires WellFormed(prefix, other) && KeptBut(st, after, {other})
    ensures Holds(after, prefix, respond, key)
  {
    if Rebuildable(key) {
      var b := BuildingOf(prefix, respond, key);
      MemoKeyIsOther(prefix, respond, key, other);
      if b.Remembers() {
        MemoKeyIsProper(b.memo.value);
      }
      AnswerByMemory(st, after, b);
    }
  }

  lemma KeptTwice(before: Store, st: Store, after: Store, done: seq<string>, key: string)
    requires Agrees(before) && Agrees(st)
    requires KeptBut(before, st, KeySet(done)) && KeptBut(st, after, {key})
    ensures KeptBut(before, after, KeySet(done + [key]))
  {
    assert key in done + [key];
  }

  lemma AllHoldMore(st: Store, after: Store, prefix: string, respond: Responder, done: seq<string>, key: string)
    requires Agrees(st) && Served(prefix) && AllHold(st, prefix, respond, done) && INDEX_KEY !in done
    requires WellFormed(prefix, key) && KeptBut(st, after, {key}) && Holds(after, prefix, respond, key)
    ensures AllHold(after, prefix, respond, done + [key])
  {
    forall i | 0 <= i < |done| ensures Holds(after, prefix, respond, done[i]) {
      if done[i] != key {
        HoldsStays(st, after, prefix, respond, done[i], key);
      }
    }
  }

  lemma AllHoldStays(st: Store, after: Store, prefix: string, respond: Responder, done: seq<string>)
    requires Agrees(st) && AllHold(st, prefix, respond, done) && INDEX_KEY !in done
    requires KeptBut(st, after, {})
    ensures AllHold(after, prefix, respond, done)
  {
    forall i | 0 <= i < |done| ensures Holds(after, prefix, respond, done[i]) {
      var b := BuildingOf(prefix, respond, done[i]);
      if b.Remembers() {
        MemoKeyIsProper(b.memo.value);
      }
      AnswerByMemory(st, after, b);
    }
  }

  lemma CurrentMore(before: Store, st: Store, s: Step, prefix: string, respond: Responder, done: seq<string>,
                    key: string)
    requires Agrees(before) && Served(prefix) && Current(before, st, prefix, respond, done) && INDEX_KEY !in done
    requires WellFormed(prefix, key) && Attempted(st, s, prefix, respond, key)
    ensures Current(before, s.store, prefix, respond, if s.failure.None? then done + [key] else done)
  {
    if s.failure.None? {
      AllHoldMore(st, s.store, prefix, respond, done, key);
      KeptTwice(before, st, s.store, done, key);
    } else {
      AllHoldStays(st, s.store, prefix, respond, done);
    }
  }

  lemma RefreshedMore(before: Store, p: Progress, s: Step, prefix: string, respond: Responder, keys: seq<string>)
    requires Agrees(before) && Served(prefix) && Refreshed(before, p, prefix, respond, keys)
    requires p.failure.None? && p.done < |keys| && INDEX_KEY !in keys && WellFormed(prefix, keys[p.done])
    requires Attempted(p.store, s, prefix, respond, keys[p.done])
    ensures Refreshed(before, p.With(s), prefix, respond, keys)
  {
    assert keys[..p.done + 1] == keys[..p.done] + [keys[p.done]];
    CurrentMore(before, p.store, s, prefix, respond, keys[..p.done], keys[p.done]);
  }

  lemma {:induction false} RefreshedSoFar(st: Store, prefix: string, respond: Responder, keys: seq<string>, n: nat)
    requires Agrees(st) && Served(prefix) && InPlace(st, prefix, keys) && n <= |keys|
    ensures Refreshed(st, RebuildAll(st, prefix, respond, keys[..n]), prefix, respond, keys)
  {
    if n > 0 {
      RefreshedSoFar(st, prefix, respond, keys, n - 1);
      RebuildAllMore(st, prefix, respond, keys, n - 1);
      var p := RebuildAll(st, prefix, respond, keys[..n - 1]);
      if p.failure.None? {
        KeyStays(st, prefix, respond, keys, n - 1);
        AttemptInPlace(p.store, prefix, respond, keys[n - 1]);
        RefreshedMore(st, p, Rebuild(p.store, prefix, respond, keys[n - 1]), prefix, respond, keys);
      }
    }
  }

  lemma KeyStays(st: Store, prefix: string, respond: Responder, keys: seq<string>, n: nat)
    requires Agrees(st) && Served(prefix) && InPlace(st, prefix, keys) && n < |keys|
    ensures WellFormed(prefix, keys[n]) && keys[n] in IndexOf(RebuildAll(st, prefix, respond, keys[..n]).store)
  {
    assert AllOneLine(keys[..n]);
    RebuildKeepsIndexExactly(st, prefix, respond, keys[..n]);
  }

  /** Rebuilding cached keys in place, whatever they are: each key done holds the response of its
      own parts, all other cached values stay, and the rebuild stops exactly at the first key for
      which there is no answer. */
  lemma RebuildRefreshes(st: Store, prefix: string, respond: Responder, keys: seq<string>)
    requires Agrees(st) && Served(prefix) && InPlace(st, prefix, keys)
    ensures Refreshed(st, RebuildAll(st, prefix, respond, keys), prefix, respond, keys)
  {
    assert keys[..|keys|] == keys;
    RefreshedSoFar(st, prefix, respond, keys, |keys|);
  }

  // ----- what a rebuild in place remembers -----

  /** The keys whose responses a rebuild has begun to build. */
  function Asked(p: Progress, keys: seq<string>): seq<string>
    requires p.done <= |keys|
  {
    if p.failure.Some? && p.done < |keys| then keys[..p.done + 1] else keys[..p.done]
  }

  ghost predicate RememberedBy(prefix: string, respond: Responder, asked: seq<string>, k: string) {
    exists i :: 0 <= i < |asked| && MemoKey(prefix, respond, asked[i]) == Some(k)
  }

  /** The first of the keys asked that remembers the transactions by this name. */
  ghost predicate FirstToRemember(prefix: string, respond: Responder, asked: seq<string>, i: nat, k: string)
    requires i < |asked|
  {
    MemoKey(prefix, respond, asked[i]) == Some(k) && !RememberedBy(prefix, respond, asked[..i], k)
  }

  /** The transactions kept by this name are those that were looked up for the key. */
  ghost predicate LookedUpFor(st: Store, prefix: string, respond: Responder, key: string, k: string) {
    && k in st && Rebuildable(key) && BuildingOf(prefix, respond, key).Remembers()
    && st[k] == Data(BuildingOf(prefix, respond, key).memo.value.transactions)
  }

  /** The cached keys are those of before and those the asked ones remember by. */
  ghost predicate CachesRemembered(before: Store, st: Store, prefix: string, respond: Responder, asked: seq<string>) {
    forall k :: k in IndexOf(st) <==> k in IndexOf(before) || RememberedBy(prefix, respond, asked, k)
  }

  /** What is newly remembered was looked up for the first key to ask. */
  ghost predicate FirstAskerDecides(before: Store, st: Store, prefix: string, respond: Responder, asked: seq<string>) {
    forall i, k :: 0 <= i < |asked| && FirstToRemember(prefix, respond, asked, i, k) && k !in IndexOf(before) ==>
      LookedUpFor(st, prefix, respond, asked[i], k)
  }

  /** What an attempt in place leaves remembered, and that it caches nothing else that is new. */
  ghost predicate Gathered(st: Store, after: Store, prefix: string, respond: Responder, key: string) {
    var mk := MemoKey(prefix, respond, key);
    && (forall k :: k in IndexOf(after) <==> k in IndexOf(st) || mk == Some(k))
    && (mk.Some? && mk.value !in IndexOf(st) ==> LookedUpFor(after, prefix, respond, key, mk.value))
  }

  lemma BuildingGathers(st: Store, prefix: string, respond: Responder, key: string)
    requires Agrees(st) && Rebuildable(key)
    ensures Gathered(st, AfterBuilding(st, BuildingOf(prefix, respond, key)), prefix, respond, key)
  {
    var b := BuildingOf(prefix, respond, key);
    BuildingKeepsCache(st, b);
    if b.Remembers() {
      MemoKeyIsProper(b.memo.value);
    }
  }

  lemma GatheredStays(st: Store, built: Store, after: Store, prefix: string, respond: Responder, key: string)
    requires Gathered(st, built, prefix, respond, key)
    requires KeptBut(built, after, {key}) && IndexOf(after) == IndexOf(built)
    requires MemoKey(prefix, respond, key) != Some(key)
    ensures Gathered(st, after, prefix, respond, key)
  {}

  lemma AttemptGathers(st: Store, prefix: string, respond: Responder, key: string)
    requires Agrees(st) && Served(prefix) && WellFormed(prefix, key) && key in IndexOf(st)
    ensures Gathered(st, Rebuild(st, prefix, respond, key).store, prefix, respond, key)
  {
    var answer, built := AnswerFor(st, prefix, respond, key), AfterBuilding(st, BuildingOf(prefix, respond, key));
    BuildingGathers(st, prefix, respond, key);
    BuildingKeeps(st, prefix, respond, key);
    if answer.Some? {
      ServedIsWord(prefix);
      RebuildsInPlaceExactly(prefix, key);
      SetAddsKey(built, key, Data(answer.value));
      StoringKeeps(built, prefix, respond, key, answer.value);
      MemoKeyIsOther(prefix, respond, key, key);
      GatheredStays(st, built, SetKey(built, key, Data(answer.value)), prefix, respond, key);
    }
  }

  lemma CachesRememberedMore(before: Store, st: Store, after: Store, prefix: string, respond: Responder,
                             asked: seq<string>, key: string)
    requires CachesRemembered(before, st, prefix, respond, asked) && Gathered(st, after, prefix, respond, key)
    ensures CachesRemembered(before, after, prefix, respond, asked + [key])
  {
    forall k ensures RememberedBy(prefix, respond, asked + [key], k)
                     <==> RememberedBy(prefix, respond, asked, k) || MemoKey(prefix, respond, key) == Some(k)
    {
      RememberedByMore(prefix, respond, asked, key, k);
    }
  }

  lemma FirstAskerDecidesMore(before: Store, st: Store, after: Store, prefix: string, respond: Responder,
                              asked: seq<string>, key: string)
    requires FirstAskerDecides(before, st, prefix, respond, asked)
    requires CachesRemembered(before, st, prefix, respond, asked)
    requires Served(prefix) && WellFormed(prefix, key)
    requires Gathered(st, after, prefix, respond, key) && KeptBut(st, after, {key})
    ensures FirstAskerDecides(before, after, prefix, respond, asked + [key])
  {
    var more := asked + [key];
    forall i, k | 0 <= i < |more| && FirstToRemember(prefix, respond, more, i, k) && k !in IndexOf(before)
      ensures LookedUpFor(after, prefix, respond, more[i], k)
    {
      assert more[..i] == asked[..i];
      if i < |asked| {
        assert FirstToRemember(prefix, respond, asked, i, k);
        assert RememberedBy(prefix, respond, asked, k);
        MemoKeyIsOther(prefix, respond, asked[i], key);
      } else {
        assert asked[..i] == asked;
      }
    }
  }

  lemma RememberedByMore(prefix: string, respond: Responder, asked: seq<string>, key: string, k: string)
    ensures RememberedBy(prefix, respond, asked + [key], k)
            <==> RememberedBy(prefix, respond, asked, k) || MemoKey(prefix, respond, key) == Some(k)
  {
    var more := asked + [key];
    if RememberedBy(prefix, respond, asked, k) {
      var i :| 0 <= i < |asked| && MemoKey(prefix, respond, asked[i]) == Some(k);
      assert more[i] == asked[i];
    }
    if MemoKey(prefix, respond, key) == Some(k) {
      assert more[|asked|] == key;
    }
  }

  ghost predicate RemembersFor(before: Store, st: Store, prefix: string, respond: Responder, asked: seq<string>) {
    CachesRemembered(before, st, prefix, respond, asked) && FirstAskerDecides(before, st, prefix, respond, asked)
  }

  lemma RemembersForMore(before: Store, st: Store, prefix: string, respond: Responder, asked: seq<string>, key: string)
    requires Agrees(st) && Served(prefix) && WellFormed(prefix, key) && key in IndexOf(st)
    requires RemembersFor(before, st, prefix, respond, asked)
    ensures RemembersFor(before, Rebuild(st, prefix, respond, key).store, prefix, respond, asked + [key])
  {
    var after := Rebuild(st, prefix, respond, key).store;
    AttemptInPlace(st, prefix, respond, key);
    AttemptGathers(st, prefix, respond, key);
    assert KeptBut(st, after, {key});
    CachesRememberedMore(before, st, after, prefix, respond, asked, key);
    FirstAskerDecidesMore(before, st, after, prefix, respond, asked, key);
  }

  lemma AskedMore(p: Progress, prefix: string, respond: Responder, keys: seq<string>)
    requires p.failure.None? && p.done < |keys|
    ensures
      var q := After(p, prefix, respond, keys[p.done]);
      Asked(p, keys) == keys[..p.done] && q.done <= |keys| && Asked(q, keys) == keys[..p.done] + [keys[p.done]]
  {
    assert keys[..p.done + 1] == keys[..p.done] + [keys[p.done]];
  }

  ghost predicate RemembersUpTo(before: Store, p: Progress, prefix: string, respond: Responder, keys: seq<string>) {
    p.done <= |keys| && RemembersFor(before, p.store, prefix, respond, Asked(p, keys))
  }

  lemma {:induction false} RememberedSoFar(st: Store, prefix: string, respond: Responder, keys: seq<string>, n: nat)
    requires Agrees(st) && Served(prefix) && InPlace(st, prefix, keys) && n <= |keys|
    ensures RemembersUpTo(st, RebuildAll(st, prefix, respond, keys[..n]), prefix, respond, keys)
  {
    if n == 0 {
      RemembersForNone(st, prefix, respond, keys);
    } else {
      var p := RebuildAll(st, prefix, respond, keys[..n - 1]);
      RememberedSoFar(st, prefix, respond, keys, n - 1);
      RebuildAllMore(st, prefix, respond, keys, n - 1);
      if p.failure.None? {
        AgreesSoFar(st, prefix, respond, keys, n - 1);
        KeyStays(st, prefix, respond, keys, n - 1);
        RemembersForNext(st, p, prefix, respond, keys);
      }
    }
  }

  lemma RemembersForNone(st: Store, prefix: string, respond: Responder, keys: seq<string>)
    ensures RemembersUpTo(st, Progress(st, 0, None), prefix, respond, keys)
  {}

  lemma RemembersForNext(before: Store, p: Progress, prefix: string, respond: Responder, keys: seq<string>)
    requires p.failure.None? && p.done < |keys| && RemembersUpTo(before, p, prefix, respond, keys)
    requires Served(prefix) && Agrees(p.store) && WellFormed(prefix, keys[p.done]) && keys[p.done] in IndexOf(p.store)
    ensures RemembersUpTo(before, After(p, prefix, respond, keys[p.done]), prefix, respond, keys)
  {
    AskedMore(p, prefix, respond, keys);
    RemembersForMore(before, p.store, prefix, respond, keys[..p.done], keys[p.done]);
  }

  lemma AgreesSoFar(st: Store, prefix: string, respond: Responder, keys: seq<string>, n: nat)
    requires Agrees(st) && Served(prefix) && InPlace(st, prefix, keys) && n <= |keys|
    ensures Agrees(RebuildAll(st, prefix, respond, keys[..n]).store)
  {
    RefreshedSoFar(st, prefix, respond, keys, n);
  }

  lemma GrowsExactly(before: Store, st: Store, prefix: string, respond: Responder, asked: seq<string>)
    requires CachesRemembered(before, st, prefix, respond, asked)
    requires IndexOf(before) <= IndexOf(st) && Distinct(IndexOf(st))
    ensures IndexOf(st) == IndexOf(before) <==>
            forall k :: RememberedBy(prefix, respond, asked, k) ==> k in IndexOf(before)
  {
    if IndexOf(st) != IndexOf(before) {
      var k := IndexOf(st)[|IndexOf(before)|];
      assert k in IndexOf(st);
      assert forall j :: 0 <= j < |IndexOf(before)| ==> IndexOf(before)[j] == IndexOf(st)[j] != k;
    }
  }

  /** After rebuilding cached keys in place, new in the index are just the names by which the keys
      asked remember transactions; and these are as looked up for the first to ask. */
  lemma RebuildRemembers(st: Store, prefix: string, respond: Responder, keys: seq<string>)
    requires Agrees(st) && Served(prefix) && InPlace(st, prefix, keys)
    ensures
      var p := RebuildAll(st, prefix, respond, keys);
      RemembersFor(st, p.store, prefix, respond, Asked(p, keys))
  {
    assert keys[..|keys|] == keys;
    RememberedSoFar(st, prefix, respond, keys, |keys|);
  }

  /** The index stays as it is exactly when all the keys asked would remember was cached. */
  lemma RebuildInPlaceKeepsIndexExactly(st: Store, prefix: string, respond: Responder, keys: seq<string>)
    requires Agrees(st) && Served(prefix) && InPlace(st, prefix, keys)
    ensures
      var p := RebuildAll(st, prefix, respond, keys);
      && IndexOf(st) <= IndexOf(p.store)
      && (IndexOf(p.store) == IndexOf(st) <==>
          forall k :: RememberedBy(prefix, respond, Asked(p, keys), k) ==> k in IndexOf(st))
  {
    var p := RebuildAll(st, prefix, respond, keys);
    assert keys[..|keys|] == keys;
    AgreesSoFar(st, prefix, respond, keys, |keys|);
    RebuildRemembers(st, prefix, respond, keys);
    RebuildKeepsIndexExactly(st, prefix, respond, keys);
    GrowsExactly(st, p.store, prefix, respond, Asked(p, keys));
  }

  /** What a rebuild writes is in use as well, so the next one finds the cache in the same order. */
  lemma RebuildKeepsKeysInUse(st: Store, prefix: string, respond: Responder, keys: seq<string>)
    requires Agrees(st) && Served(prefix) && InPlace(st, prefix, keys) && OnlyKeysInUse(st)
    ensures OnlyKeysInUse(RebuildAll(st, prefix, respond, keys).store)
  {
    var p := RebuildAll(st, prefix, respond, keys);
    var asked := Asked(p, keys);
    RebuildRemembers(st, prefix, respond, keys);
    forall k | k in IndexOf(p.store) ensures InUse(k) {
      if k !in IndexOf(st) {
        assert RememberedBy(prefix, respond, asked, k);
        var i :| 0 <= i < |asked| && MemoKey(prefix, respond, asked[i]) == Some(k);
        MemoKeyInUse(BuildingOf(prefix, respond, asked[i]).memo.value);
      }
    }
  }

  lemma MemoKeyInUse(m: Memo)
    ensures InUse(m.Key())
  {
    assert ParentTransactionsKey(m.transaction, m.lan).Valid();
  }

  // ----- whether rebuilt responses are up to date -----

  /** The key holds the response that is due with the transactions as they are now. */
  ghost predicate UpToDate(st: Store, prefix: string, respond: Responder, key: string) {
    && Rebuildable(key) && Now(BuildingOf(prefix, respond, key)).Some?
    && key in st && st[key] == Data(Now(BuildingOf(prefix, respond, key)).value)
  }

  /** These transactions give the key the same answer as those there are now. */
  predicate SameAnswer(prefix: string, respond: Responder, key: string, transactions: Payload) {
    && Rebuildable(key) && BuildingOf(prefix, respond, key).Remembers()
    && var b := BuildingOf(prefix, respond, key);
       b.answer(Some(transactions)) == b.answer(Some(b.memo.value.transactions))
  }

  lemma HeldIsUpToDateExactly(st: Store, prefix: string, respond: Responder, key: string)
    requires Holds(st, prefix, respond, key)
    ensures UpToDate(st, prefix, respond, key) <==>
            var mk := MemoKey(prefix, respond, key);
            mk.None? || SameAnswer(prefix, respond, key, PayloadOf(st[mk.value]))
  {
    AnswerIsCurrentExactly(st, BuildingOf(prefix, respond, key));
  }

  /** A rebuild does not look up again what was remembered before: a rebuilt response is up to
      date if its key is the first to remember, and otherwise exactly when what was remembered gives
      the same answer. */
  lemma RebuiltIsUpToDateExactly(st: Store, prefix: string, respond: Responder, keys: seq<string>, i: nat)
    requires Agrees(st) && Served(prefix) && InPlace(st, prefix, keys)
    requires i < RebuildAll(st, prefix, respond, keys).done
    ensures
      var after, mk := RebuildAll(st, prefix, respond, keys).store, MemoKey(prefix, respond, keys[i]);
      if mk.Some? && mk.value in IndexOf(st) then
        UpToDate(after, prefix, respond, keys[i])
        <==> mk.value in st && SameAnswer(prefix, respond, keys[i], PayloadOf(st[mk.value]))
      else
        mk.None? || FirstToRemember(prefix, respond, keys, i, mk.value) ==> UpToDate(after, prefix, respond, keys[i])
  {
    var p, mk := RebuildAll(st, prefix, respond, keys), MemoKey(prefix, respond, keys[i]);
    RebuildRefreshes(st, prefix, respond, keys);
    assert keys[i] == keys[..p.done][i];
    HeldIsUpToDateExactly(p.store, prefix, respond, keys[i]);
    if mk.Some? && mk.value in IndexOf(st) {
      MemoKeyIsNoneOf(prefix, respond, keys[i], keys);
    } else if mk.Some? && FirstToRemember(prefix, respond, keys, i, mk.value) {
      FirstIsLookedUp(st, prefix, respond, keys, i, mk.value);
    }
  }

  lemma FirstIsLookedUp(st: Store, prefix: string, respond: Responder, keys: seq<string>, i: nat, k: string)
    requires Agrees(st) && Served(prefix) && InPlace(st, prefix, keys)
    requires i < RebuildAll(st, prefix, respond, keys).done
    requires FirstToRemember(prefix, respond, keys, i, k) && k !in IndexOf(st)
    ensures LookedUpFor(RebuildAll(st, prefix, respond, keys).store, prefix, respond, keys[i], k)
  {
    var p := RebuildAll(st, prefix, respond, keys);
    var asked := Asked(p, keys);
    RebuildRemembers(st, prefix, respond, keys);
    assert asked[..i] == keys[..i];
    assert FirstToRemember(prefix, respond, asked, i, k);
  }

  lemma MemoKeyIsNoneOf(prefix: string, respond: Responder, key: string, keys: seq<string>)
    requires Served(prefix) && forall i :: 0 <= i < |keys| ==> WellFormed(prefix, keys[i])
    ensures MemoKey(prefix, respond, key).Some? ==> MemoKey(prefix, respond, key).value !in keys
  {
    forall i | 0 <= i < |keys| ensures MemoKey(prefix, respond, key) != Some(keys[i]) {
      MemoKeyIsOther(prefix, respond, key, keys[i]);
    }
  }

  // ----- a rebuild that adds a key, and one that changes nothing though it should -----

  /** A stage response and the transactions it was built from, both cached. */
  function ServedOnce(batch: PrimaryKey, theme: PrimaryKey, x: PrimaryKey, lan: LanguageCode): Store {
    SetKey(SetKey(map[], Memo(x, lan, 1).Key(), Data(1)), KeyFor("stage", batch, theme, lan), Data(1))
  }

  /** A serializer that answers with the transactions themselves. */
  function Repeating(m: Memo): Responder {
    (prefix, batch, theme, lan) => Built(Some(m), (transactions: Option<Payload>) => transactions)
  }

  /** Just these two are cached: the transactions, and a response that can be rebuilt in place. */
  ghost predicate HoldsBoth(st: Store, mk: string, key: string) {
    Agrees(st) && IndexOf(st) == [mk, key] && mk in st && st[mk] == Data(1) && InPlace(st, "stage", [key])
  }

  lemma ServedOnceIs(batch: PrimaryKey, theme: PrimaryKey, x: PrimaryKey, lan: LanguageCode)
    ensures HoldsBoth(ServedOnce(batch, theme, x, lan), Memo(x, lan, 1).Key(), KeyFor("stage", batch, theme, lan))
  {
    var mk, ck := Memo(x, lan, 1).Key(), ResponseKey("stage", batch, theme, lan);
    MemoKeyIsProper(Memo(x, lan, 1));
    IdKeysAreWellFormed("stage", batch, theme, lan);
    MemoKeyIsNoResponse(Memo(x, lan, 1), "stage", ck.Tail());
    KeysInUseAreProper(ck);
    SetNew(map[], mk, Data(1));
    SetNew(SetKey(map[], mk, Data(1)), ck.Text(), Data(1));
    BothListed(ServedOnce(batch, theme, x, lan), mk, ck.Text());
  }

  lemma SetNew(st: Store, key: string, v: Value)
    requires Agrees(st) && key != INDEX_KEY && OneLine(key) && key !in IndexOf(st)
    ensures
      var after := SetKey(st, key, v);
      && Agrees(after) && IndexOf(after) == IndexOf(st) + [key] && key in after && after[key] == v
      && KeptBut(st, after, {})
  {
    SetProperKey(st, key, v);
  }

  lemma BothListed(st: Store, mk: string, key: string)
    requires Agrees(st) && IndexOf(st) == [mk] + [key] && mk in st && st[mk] == Data(1)
    requires WellFormed("stage", key) && OneLine(key)
    ensures HoldsBoth(st, mk, key)
  {}

  lemma RepeatingRemembers(m: Memo, key: string)
    requires Rebuildable(key)
    ensures MemoKey("stage", Repeating(m), key) == Some(m.Key())
    ensures SameAnswer("stage", Repeating(m), key, 1) <==> m.transactions == 1
  {}

  lemma NeverFails(st: Store, m: Memo, mk: string, key: string)
    requires HoldsBoth(st, mk, key)
    ensures RebuildAll(st, "stage", Repeating(m), [key]).failure.None?
  {
    RebuildRefreshes(st, "stage", Repeating(m), [key]);
  }

  lemma GrowsBy(st: Store, m: Memo, mk: string, key: string)
    requires HoldsBoth(st, mk, key) && m.Key() != mk && m.Key() != key
    ensures IndexOf(RebuildAll(st, "stage", Repeating(m), [key]).store) != IndexOf(st)
  {
    var keys := [key];
    assert WellFormed("stage", keys[0]);
    RepeatingRemembers(m, keys[0]);
    NeverFails(st, m, mk, key);
    RebuildInPlaceKeepsIndexExactly(st, "stage", Repeating(m), keys);
    assert RememberedBy("stage", Repeating(m), keys, m.Key());
    assert keys[..1] == keys;
  }

  lemma StartsTheSame(start: string, a: string, b: string)
    ensures start + a == start + b ==> a == b
  {
    assert (start + a)[|start|..] == a && (start + b)[|start|..] == b;
  }

  lemma MemoKeysDiffer(x: PrimaryKey, lan: LanguageCode, other: LanguageCode)
    requires lan != other
    ensures Memo(x, lan, 1).Key() != Memo(x, other, 1).Key()
  {
    var a, b := ParentTransactionsKey(x, lan), ParentTransactionsKey(x, other);
    StartsTheSame("parent_transactions_", lan, other);
    StartsTheSame(x + ['_'], a.Tail(), b.Tail());
  }

  /** Asked for once in one language, and rebuilt for a theme that settles on another, a response
      leaves a key more in the index. */
  lemma RebuildCanGrow(batch: PrimaryKey, theme: PrimaryKey, x: PrimaryKey, lan: LanguageCode, other: LanguageCode)
    requires lan != other
    ensures
      var st, key := ServedOnce(batch, theme, x, lan), KeyFor("stage", batch, theme, lan);
      var p := RebuildAll(st, "stage", Repeating(Memo(x, other, 1)), [key]);
      p.failure.None? && IndexOf(p.store) != IndexOf(st)
  {
    var st, key, m := ServedOnce(batch, theme, x, lan), KeyFor("stage", batch, theme, lan), Memo(x, other, 1);
    ServedOnceIs(batch, theme, x, lan);
    NeverFails(st, m, Memo(x, lan, 1).Key(), key);
    MemoKeysDiffer(x, lan, other);
    MemoKeyIsNoResponse(m, "stage", Join([batch, theme, lan]));
    GrowsBy(st, m, Memo(x, lan, 1).Key(), key);
  }

  lemma StaysStale(st: Store, m: Memo, key: string)
    requires HoldsBoth(st, m.Key(), key) && m.transactions != 1
    ensures !UpToDate(RebuildAll(st, "stage", Repeating(m), [key]).store, "stage", Repeating(m), key)
  {
    var keys := [key];
    assert WellFormed("stage", keys[0]);
    RepeatingRemembers(m, keys[0]);
    NeverFails(st, m, m.Key(), key);
    RebuiltIsUpToDateExactly(st, "stage", Repeating(m), keys, 0);
  }

  /** The transactions behind a batch have changed, the response is rebuilt, and it still shows
      those that were remembered. */
  lemma RebuiltCanBeStale(batch: PrimaryKey, theme: PrimaryKey, x: PrimaryKey, lan: LanguageCode)
    ensures
      var st, key := ServedOnce(batch, theme, x, lan), KeyFor("stage", batch, theme, lan);
      var respond := Repeating(Memo(x, lan, 2));
      var p := RebuildAll(st, "stage", respond, [key]);
      p.failure.None? && !UpToDate(p.store, "stage", respond, key)
  {
    var st, key, m := ServedOnce(batch, theme, x, lan), KeyFor("stage", batch, theme, lan), Memo(x, lan, 2);
    ServedOnceIs(batch, theme, x, lan);
    NeverFails(st, m, m.Key(), key);
    StaysStale(st, m, key);
  }
}
