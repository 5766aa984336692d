/** Validation tokens: a table of one-time keys, their expiry, and the operations on them. */
module Tokens {

  import opened Basics

  type Id = nat
  type Person = nat
  type Minute = int

  /** A random key; which characters it is made of does not matter here. */
  type TokenKey = nat

  datatype Kind = VerifyEmail | ChangeEmail | ResetPassword | OneTimePassword | MagicLogin | Invite | Notification

  datatype Token = Token(user: Person, kind: Kind, creator: Person, key: TokenKey, used: bool, expiry: Minute)

  /** Rows in order of creation; a token's key in the table is its position. */
  type Table = seq<Token>

  /** `TOKEN_VALIDITY`, in minutes. */
  function Validity(k: Kind): nat {
    match k
    case OneTimePassword => 1440
    case ResetPassword | MagicLogin => 2880
    case VerifyEmail | ChangeEmail | Invite | Notification => 525600
  }

  predicate IsValid(t: Token, now: Minute) {
    t.expiry > now && !t.used
  }

  predicate InUse(ts: Table, k: Kind, key: TokenKey) {
    exists i :: 0 <= i < |ts| && ts[i].key == key && ts[i].kind == k && !ts[i].used
  }

  /** The random draws of a key generation bring up a key not in use, sooner or later. */
  predicate SomeFree(ts: Table, k: Kind, draws: seq<TokenKey>) {
    exists i :: 0 <= i < |draws| && !InUse(ts, k, draws[i])
  }

  /** `generate_unique_key`: draw again while the key is in use. */
  function FreeKey(ts: Table, k: Kind, draws: seq<TokenKey>): (key: TokenKey)
    requires SomeFree(ts, k, draws)
    ensures key in draws && !InUse(ts, k, key)
  {
    if InUse(ts, k, draws[0]) then FreeKey(ts, k, draws[1..]) else draws[0]
  }

  /** An unused token of the kind has the key. */
  ghost predicate Taken(ts: Table, k: Kind, key: TokenKey) {
    exists t :: t in ts && !t.used && t.kind == k && t.key == key
  }

  lemma InUseIsTaken(ts: Table, k: Kind, key: TokenKey)
    ensures InUse(ts, k, key) <==> Taken(ts, k, key)
  {
    if Taken(ts, k, key) {
      var t :| t in ts && !t.used && t.kind == k && t.key == key;
      var i :| 0 <= i < |ts| && ts[i] == t;
    }
  }

  /** The key is the first one drawn that no unused token of the kind has. */
  lemma {:induction false} FreeKeyIsFirst(ts: Table, k: Kind, draws: seq<TokenKey>)
    requires SomeFree(ts, k, draws)
    ensures exists n :: 0 <= n < |draws| && FreeKey(ts, k, draws) == draws[n] && !Taken(ts, k, draws[n])
                        && forall j :: 0 <= j < n ==> Taken(ts, k, draws[j])
  {
    InUseIsTaken(ts, k, draws[0]);
    if InUse(ts, k, draws[0]) {
      FreeKeyIsFirst(ts, k, draws[1..]);
      var n :| 0 <= n < |draws| - 1 && FreeKey(ts, k, draws[1..]) == draws[1..][n] && !Taken(ts, k, draws[1..][n])
               && forall j :: 0 <= j < n ==> Taken(ts, k, draws[1..][j]);
      forall j | 0 <= j < n + 1 ensures Taken(ts, k, draws[j]) {
        assert j > 0 ==> draws[j] == draws[1..][j - 1];
      }
      assert draws[n + 1] == draws[1..][n];
    }
  }

  // ----- the operations -----

  function Refreshed(ts: Table, id: Id, now: Minute, draws: seq<TokenKey>): Table
    requires id < |ts| && SomeFree(ts, ts[id].kind, draws)
  {
    var t := ts[id];
    var renewed := if IsValid(t, now) then t else t.(key := FreeKey(ts, t.kind, draws), used := false);
    ts[id := renewed.(expiry := now + Validity(t.kind))]
  }

  /** An unused token of this user, kind and creator. */
  predicate IsOpen(ts: Table, i: int, user: Person, k: Kind, creator: Person) {
    0 <= i < |ts| && !ts[i].used && ts[i].user == user && ts[i].kind == k && ts[i].creator == creator
  }

  function OpenTokens(ts: Table, user: Person, k: Kind, creator: Person): set<Id> {
    set i | 0 <= i < |ts| && IsOpen(ts, i, user, k, creator)
  }

  datatype Operation =
    | Initialize(user: Person, kind: Kind, given: Option<Person>, now: Minute, draws: seq<TokenKey>)
    | Refresh(id: Id, now: Minute, draws: seq<TokenKey>)
    | Validate(id: Id, now: Minute)
    | MarkAsUsed(id: Id)
    | Invalidate(id: Id, now: Minute)
  {
    function Creator(): Person
      requires Initialize?
    {
      if given.Some? then given.value else user
    }
  }

  predicate Enabled(ts: Table, op: Operation) {
    match op
    case Initialize(_, k, _, _, draws) => SomeFree(ts, k, draws)
    case Refresh(id, _, draws) => id < |ts| && SomeFree(ts, ts[id].kind, draws)
    case Validate(id, _) => id < |ts|
    case MarkAsUsed(id) => id < |ts|
    case Invalidate(id, _) => id < |ts|
  }

  /** The table after an operation.  `initialize` gives up, leaving the table alone, when more
      than one open token matches. */
  ghost function Perform(ts: Table, op: Operation): Table
    requires Enabled(ts, op)
  {
    match op
    case Initialize(user, k, _, now, draws) =>
      var open := OpenTokens(ts, user, k, op.Creator());
      if open == {} then ts + [Token(user, k, op.Creator(), FreeKey(ts, k, draws), false, now + Validity(k))]
      else if |open| == 1 then Refreshed(ts, Only(open), now, draws)
      else ts
    case Refresh(id, now, draws) => Refreshed(ts, id, now, draws)
    case Validate(id, _) => ts[id := ts[id].(used := true)]
    case MarkAsUsed(id) => ts[id := ts[id].(used := true)]
    case Invalidate(id, now) => ts[id := ts[id].(used := true, expiry := now)]
  }

  function Only(s: set<Id>): (x: Id)
    requires |s| == 1
    ensures s == {x}
  {
    SingletonHasOne(s);
    var x :| x in s;
    x
  }

  lemma SingletonHasOne(s: set<Id>)
    requires |s| == 1
    ensures exists x :: s == {x}
    ensures forall x, y :: x in s && y in s ==> x == y
  {
    var x :| x in s;
    assert |s - {x}| == 0;
    assert s == {x};
  }

  // ----- keys and open tokens -----

  /** Unused tokens of a kind have different keys. */
  ghost predicate DistinctKeys(ts: Table) {
    forall i, j :: 0 <= i < j < |ts| && !ts[i].used && !ts[j].used && ts[i].kind == ts[j].kind
                   ==> ts[i].key != ts[j].key
  }

  ghost predicate SameOwner(a: Token, b: Token) {
    a.user == b.user && a.kind == b.kind && a.creator == b.creator
  }

  /** No user has two unused tokens of a kind from one creator. */
  ghost predicate OneOpen(ts: Table) {
    forall i, j :: 0 <= i < j < |ts| && !ts[i].used && !ts[j].used ==> !SameOwner(ts[i], ts[j])
  }

  lemma RefreshKeepsDistinctKeys(ts: Table, id: Id, now: Minute, draws: seq<TokenKey>)
    requires id < |ts| && SomeFree(ts, ts[id].kind, draws) && DistinctKeys(ts)
    ensures DistinctKeys(Refreshed(ts, id, now, draws))
  {
    var after := Refreshed(ts, id, now, draws);
    if !IsValid(ts[id], now) {
      forall i | 0 <= i < |ts| && i != id && !ts[i].used && ts[i].kind == ts[id].kind
        ensures ts[i].key != after[id].key
      {
        assert !InUse(ts, ts[id].kind, after[id].key);
      }
    }
  }

  /** Every operation, direct refreshes of used tokens included, keeps keys distinct. */
  lemma OperationsKeepDistinctKeys(ts: Table, op: Operation)
    requires Enabled(ts, op) && DistinctKeys(ts)
    ensures DistinctKeys(Perform(ts, op))
  {
    match op
    case Initialize(user, k, _, now, draws) =>
      var open := OpenTokens(ts, user, k, op.Creator());
      if open == {} {
        var key := FreeKey(ts, k, draws);
        assert forall i :: 0 <= i < |ts| && ts[i].key == key && ts[i].kind == k ==> ts[i].used by {
          assert !InUse(ts, k, key);
        }
      } else if |open| == 1 {
        assert Only(open) in open;
        RefreshKeepsDistinctKeys(ts, Only(open), now, draws);
      }
    case Refresh(id, now, draws) => RefreshKeepsDistinctKeys(ts, id, now, draws);
    case Validate(_, _) =>
    case MarkAsUsed(_) =>
    case Invalidate(_, _) =>
  }

  /** A refresh leaves every other token alone, and this one with its owner. A token that can still be
      used keeps its key; one that is used or has expired gets a key that no unused token has. */
  lemma RefreshExactly(ts: Table, id: Id, now: Minute, draws: seq<TokenKey>)
    requires id < |ts| && SomeFree(ts, ts[id].kind, draws)
    ensures
      var after := Refreshed(ts, id, now, draws);
      && |after| == |ts| && (forall i :: 0 <= i < |ts| && i != id ==> after[i] == ts[i])
      && SameOwner(after[id], ts[id]) && !after[id].used && after[id].expiry == now + Validity(ts[id].kind)
      && (if !ts[id].used && now < ts[id].expiry then after[id].key == ts[id].key
          else after[id].key in draws
               && forall i :: 0 <= i < |ts| && !ts[i].used && ts[i].kind == ts[id].kind ==> ts[i].key != after[id].key)
  {
    if ts[id].used || ts[id].expiry <= now {
      var key := Refreshed(ts, id, now, draws)[id].key;
      assert !InUse(ts, ts[id].kind, key);
    }
  }

  /** `initialize` answers with the owner's token if there is one that can still be used: a key that
      has been sent out stays good, and only its period starts anew. Otherwise the answer's key is
      one that no unused token of the kind has. */
  lemma InitializeKeepsKey(ts: Table, op: Operation, i: Id)
    requires op.Initialize? && Enabled(ts, op) && OneOpen(ts)
    requires i < |ts| && !ts[i].used
    requires ts[i].user == op.user && ts[i].kind == op.kind && ts[i].creator == op.Creator()
    ensures
      var after := Perform(ts, op);
      && |after| == |ts| && (forall j :: 0 <= j < |ts| && j != i ==> after[j] == ts[j])
      && after[i].expiry == op.now + Validity(op.kind)
      && (if op.now < ts[i].expiry then after[i] == ts[i].(expiry := after[i].expiry)
          else forall j :: 0 <= j < |ts| && !ts[j].used && ts[j].kind == op.kind ==> ts[j].key != after[i].key)
  {
    var open := OpenTokens(ts, op.user, op.kind, op.Creator());
    assert i in open;
    forall j | j in open ensures j == i {
      assert !(i < j) && !(j < i) by {
        if i < j { assert SameOwner(ts[i], ts[j]); }
        if j < i { assert SameOwner(ts[j], ts[i]); }
      }
    }
    assert open == {i};
    RefreshExactly(ts, i, op.now, op.draws);
  }

  /** Without an open token of the owner a new one is added, with a key no unused token of the kind
      has. */
  lemma InitializeAdds(ts: Table, op: Operation)
    requires op.Initialize? && Enabled(ts, op)
    requires forall i :: 0 <= i < |ts| && !ts[i].used ==>
               !(ts[i].user == op.user && ts[i].kind == op.kind && ts[i].creator == op.Creator())
    ensures
      var after := Perform(ts, op);
      && |after| == |ts| + 1 && after[..|ts|] == ts
      && var t := after[|ts|];
         && t == Token(op.user, op.kind, op.Creator(), t.key, false, op.now + Validity(op.kind)) && t.key in op.draws
         && forall i :: 0 <= i < |ts| && !ts[i].used && ts[i].kind == op.kind ==> ts[i].key != t.key
  {
    assert OpenTokens(ts, op.user, op.kind, op.Creator()) == {};
    var key := Perform(ts, op)[|ts|].key;
    assert !InUse(ts, op.kind, key);
  }

  const Day: nat := 24 * 60

  /** How long tokens stay good: a day, two days or a year. */
  lemma Periods(k: Kind)
    ensures Validity(k) == if k == OneTimePassword then Day
                           else if k == ResetPassword || k == MagicLogin then 2 * Day
                           else 365 * Day
  {}

  /** A refresh revives a used token next to an open one of the same owner. */
  ghost predicate Doubles(ts: Table, op: Operation) {
    && op.Refresh? && op.id < |ts| && ts[op.id].used
    && exists i :: 0 <= i < |ts| && !ts[i].used && SameOwner(ts[i], ts[op.id])
  }

  /** Operations keep to one open token per user, kind and creator, except a direct refresh of a
      used token whose owner has an open one: that, and only that, makes two. */
  lemma OperationsKeepOneOpenExactly(ts: Table, op: Operation)
    requires Enabled(ts, op) && OneOpen(ts)
    ensures OneOpen(Perform(ts, op)) <==> !Doubles(ts, op)
  {
    match op
    case Initialize(user, k, _, now, draws) =>
      var open := OpenTokens(ts, user, k, op.Creator());
      if open == {} {
        forall i | 0 <= i < |ts| && !ts[i].used
          ensures !(ts[i].user == user && ts[i].kind == k && ts[i].creator == op.Creator())
        {
          assert i !in open;
        }
      } else if |open| == 1 {
        assert Only(open) in open;
      }
    case Refresh(id, now, draws) =>
      var after := Refreshed(ts, id, now, draws);
      if Doubles(ts, op) {
        var i :| 0 <= i < |ts| && !ts[i].used && SameOwner(ts[i], ts[id]);
        assert !after[i].used && !after[id].used && SameOwner(after[i], after[id]);
        assert i < id || id < i;
      }
    case Validate(_, _) =>
    case MarkAsUsed(_) =>
    case Invalidate(_, _) =>
  }

  /** Under one open token per owner `initialize` always succeeds, and the token it answers with
      is the owner's, unused, and valid for the full period. */
  lemma InitializeSucceeds(ts: Table, op: Operation)
    requires op.Initialize? && Enabled(ts, op) && OneOpen(ts)
    ensures |OpenTokens(ts, op.user, op.kind, op.Creator())| <= 1
    ensures
      var after := Perform(ts, op);
      exists i :: IsOpen(after, i, op.user, op.kind, op.Creator())
                  && after[i].expiry == op.now + Validity(op.kind) && IsValid(after[i], op.now)
  {
    var open, after := OpenTokens(ts, op.user, op.kind, op.Creator()), Perform(ts, op);
    if open == {} {
      assert IsOpen(after, |ts|, op.user, op.kind, op.Creator());
    } else {
      var x :| x in open;
      forall y | y in open ensures y == x {
        assert !(x < y) && !(y < x) by {
          if x < y { assert SameOwner(ts[x], ts[y]); }
          if y < x { assert SameOwner(ts[y], ts[x]); }
        }
      }
      assert open == {x};
      assert IsOpen(after, Only(open), op.user, op.kind, op.Creator());
    }
  }

  // ----- runs -----

  ghost predicate IsRun(states: seq<Table>, ops: seq<Operation>) {
    && |states| == |ops| + 1 && states[0] == []
    && forall i :: 0 <= i < |ops| ==> Enabled(states[i], ops[i]) && states[i + 1] == Perform(states[i], ops[i])
  }

  /** In every run keys of unused tokens of a kind stay distinct; and if no refresh doubles an
      open token, there is never more than one per user, kind and creator. */
  lemma {:induction false} RunsKeepTokens(states: seq<Table>, ops: seq<Operation>, n: nat)
    requires IsRun(states, ops) && n < |states|
    ensures DistinctKeys(states[n])
    ensures (forall i :: 0 <= i < n ==> !Doubles(states[i], ops[i])) ==> OneOpen(states[n])
  {
    if n > 0 {
      RunsKeepTokens(states, ops, n - 1);
      assert Enabled(states[n - 1], ops[n - 1]) && states[n - 1 + 1] == Perform(states[n - 1], ops[n - 1]);
      OperationsKeepDistinctKeys(states[n - 1], ops[n - 1]);
      if OneOpen(states[n - 1]) {
        OperationsKeepOneOpenExactly(states[n - 1], ops[n - 1]);
      }
    }
  }

  /** How often `validate` accepted the token in the first `n` steps. */
  ghost function Accepted(states: seq<Table>, ops: seq<Operation>, id: Id, n: nat): nat
    requires n < |states| == |ops| + 1
  {
    if n == 0 then 0
    else
      var op, ts := ops[n - 1], states[n - 1];
      Accepted(states, ops, id, n - 1)
      + if op.Validate? && op.id == id && id < |ts| && IsValid(ts[id], op.now) then 1 else 0
  }

  /** How often a direct refresh revived the token after use. */
  ghost function Revived(states: seq<Table>, ops: seq<Operation>, id: Id, n: nat): nat
    requires n < |states| == |ops| + 1
  {
    if n == 0 then 0
    else
      var op, ts := ops[n - 1], states[n - 1];
      Revived(states, ops, id, n - 1)
      + if op.Refresh? && op.id == id && id < |ts| && ts[id].used then 1 else 0
  }

  /** A used token stays used under exactly the operations that are not a direct refresh of it. */
  lemma UsedStaysUsedExactly(ts: Table, op: Operation, id: Id)
    requires Enabled(ts, op) && id < |ts| && ts[id].used
    ensures id < |Perform(ts, op)|
    ensures Perform(ts, op)[id].used <==> !(op.Refresh? && op.id == id)
  {
    if op.Initialize? {
      var open := OpenTokens(ts, op.user, op.kind, op.Creator());
      if |open| == 1 {
        assert Only(open) in open;
      }
    }
  }

  /** A token is accepted at most once, and once more for every time it was revived. */
  lemma {:induction false} AcceptedAtMostOnce(states: seq<Table>, ops: seq<Operation>, id: Id, n: nat)
    requires IsRun(states, ops) && n < |states|
    ensures Accepted(states, ops, id, n) <= 1 + Revived(states, ops, id, n)
    ensures Accepted(states, ops, id, n) <=
              Revived(states, ops, id, n) + if id < |states[n]| && states[n][id].used then 1 else 0
  {
    if n > 0 {
      AcceptedAtMostOnce(states, ops, id, n - 1);
      var ts, op := states[n - 1], ops[n - 1];
      assert Enabled(ts, op) && states[n - 1 + 1] == Perform(ts, op);
      if id < |ts| && ts[id].used && !(op.Refresh? && op.id == id) {
        UsedStaysUsedExactly(ts, op, id);
      }
    }
  }

  /** Used from step `m` up to step `n`. */
  ghost predicate UsedThroughout(states: seq<Table>, id: Id, m: nat, n: nat)
    requires n < |states|
  {
    forall k :: m <= k <= n ==> UsedAt(states[k], id)
  }

  predicate UsedAt(ts: Table, id: Id) {
    id < |ts| && ts[id].used
  }

  /** Used throughout exactly if no revival has been added. */
  ghost predicate UsedUnlessRevived(states: seq<Table>, ops: seq<Operation>, id: Id, m: nat, n: nat)
    requires m <= n < |states| == |ops| + 1
  {
    && Revived(states, ops, id, m) <= Revived(states, ops, id, n)
    && (UsedThroughout(states, id, m, n) <==> Revived(states, ops, id, n) == Revived(states, ops, id, m))
  }

  lemma UsedOneMore(states: seq<Table>, id: Id, m: nat, n: nat)
    requires m < n < |states|
    ensures UsedThroughout(states, id, m, n) <==> UsedThroughout(states, id, m, n - 1) && UsedAt(states[n], id)
    ensures UsedThroughout(states, id, m, n - 1) ==> UsedAt(states[n - 1], id)
  {}

  lemma UsedStep(states: seq<Table>, ops: seq<Operation>, id: Id, n: nat)
    requires IsRun(states, ops) && 0 < n < |states|
    ensures Revived(states, ops, id, n - 1) <= Revived(states, ops, id, n)
    ensures UsedAt(states[n - 1], id) ==>
              (UsedAt(states[n], id) <==> Revived(states, ops, id, n) == Revived(states, ops, id, n - 1))
  {
    var ts, op := states[n - 1], ops[n - 1];
    assert Enabled(ts, op) && states[n - 1 + 1] == Perform(ts, op);
    if UsedAt(ts, id) {
      UsedStaysUsedExactly(ts, op, id);
    }
  }

  /** Used is final exactly as long as the token is not revived: from the step it is used at, it
      stays used for as long as no direct refresh hits it. */
  lemma {:induction false} UsedIsTerminalExactly(states: seq<Table>, ops: seq<Operation>, id: Id, m: nat, n: nat)
    requires IsRun(states, ops) && m <= n < |states|
    requires UsedAt(states[m], id)
    ensures UsedUnlessRevived(states, ops, id, m, n)
    decreases n
  {
    if m < n {
      UsedIsTerminalExactly(states, ops, id, m, n - 1);
      UsedStep(states, ops, id, n);
      UsedUnlessRevivedMore(states, ops, id, m, n);
    }
  }

  lemma UsedUnlessRevivedMore(states: seq<Table>, ops: seq<Operation>, id: Id, m: nat, n: nat)
    requires m < n < |states| == |ops| + 1 && UsedUnlessRevived(states, ops, id, m, n - 1)
    requires Revived(states, ops, id, n - 1) <= Revived(states, ops, id, n)
    requires UsedAt(states[n - 1], id) ==>
               (UsedAt(states[n], id) <==> Revived(states, ops, id, n) == Revived(states, ops, id, n - 1))
    ensures UsedUnlessRevived(states, ops, id, m, n)
  {
    UsedOneMore(states, id, m, n);
  }

  /** The bound on acceptances is reached: for every number of revivals some run accepts a token
      once more than that.  An invitation is validated, refreshed and validated again. */
  lemma AcceptanceBoundIsReached(k: nat)
    ensures exists states: seq<Table>, ops: seq<Operation> ::
      && IsRun(states, ops)
      && Revived(states, ops, 0, |ops|) == k
      && Accepted(states, ops, 0, |ops|) == 1 + k
  {
    var states, ops := RevivingRun(k);
  }

  /** The one token of the runs that reach the bound, after use. */
  const Spent: Token := Token(1, Invite, 1, 10, true, 525600)
  const Renewed: Token := Token(1, Invite, 1, 10, false, 525600)

  lemma {:induction false} RevivingRun(k: nat) returns (states: seq<Table>, ops: seq<Operation>)
    ensures IsRun(states, ops) && states[|ops|] == [Spent]
    ensures Revived(states, ops, 0, |ops|) == k
    ensures Accepted(states, ops, 0, |ops|) == 1 + k
  {
    if k == 0 {
      FirstUse();
      states := [[], [Renewed], [Spent]];
      ops := [Initialize(1, Invite, None, 0, [10]), Validate(0, 0)];
      CountsOfStart(states, ops);
    } else {
      var before, done := RevivingRun(k - 1);
      AnotherUse();
      states, ops := before + [[Renewed], [Spent]], done + [Refresh(0, 0, [10]), Validate(0, 0)];
      ExtendedRun(before, done, states, ops);
      CountsOfPrefix(before, done, states, ops, 0, |done|);
    }
  }

  lemma FirstUse()
    ensures Enabled([], Initialize(1, Invite, None, 0, [10]))
    ensures Perform([], Initialize(1, Invite, None, 0, [10])) == [Renewed]
    ensures Perform([Renewed], Validate(0, 0)) == [Spent]
  {
    assert !InUse([], Invite, [10][0]);
    assert OpenTokens([], 1, Invite, 1) == {};
  }

  lemma AnotherUse()
    ensures Enabled([Spent], Refresh(0, 0, [10]))
    ensures Perform([Spent], Refresh(0, 0, [10])) == [Renewed]
    ensures Perform([Renewed], Validate(0, 0)) == [Spent]
  {
    assert !InUse([Spent], Invite, [10][0]);
  }

  lemma CountsOfStart(states: seq<Table>, ops: seq<Operation>)
    requires IsRun(states, ops) && |ops| == 2 && ops[0].Initialize? && ops[1] == Validate(0, 0)
    requires states[1] == [Renewed]
    ensures Revived(states, ops, 0, 2) == 0 && Accepted(states, ops, 0, 2) == 1
  {
    assert Revived(states, ops, 0, 1) == Revived(states, ops, 0, 0) == 0;
    assert Accepted(states, ops, 0, 1) == Accepted(states, ops, 0, 0) == 0;
  }

  lemma ExtendedRun(before: seq<Table>, done: seq<Operation>, states: seq<Table>, ops: seq<Operation>)
    requires IsRun(before, done) && before[|done|] == [Spent]
    requires states == before + [[Renewed], [Spent]] && ops == done + [Refresh(0, 0, [10]), Validate(0, 0)]
    ensures IsRun(states, ops)
  {
    AnotherUse();
    forall i | 0 <= i < |ops| ensures Enabled(states[i], ops[i]) && states[i + 1] == Perform(states[i], ops[i]) {
      if i < |done| {
        assert states[i] == before[i] && states[i + 1] == before[i + 1] && ops[i] == done[i];
      }
    }
  }

  lemma {:induction false} CountsOfPrefix(before: seq<Table>, done: seq<Operation>, states: seq<Table>,
                                          ops: seq<Operation>, id: Id, n: nat)
    requires IsRun(before, done) && IsRun(states, ops) && before <= states && done <= ops && n < |before|
    ensures Accepted(states, ops, id, n) == Accepted(before, done, id, n)
    ensures Revived(states, ops, id, n) == Revived(before, done, id, n)
  {
    if n > 0 {
      CountsOfPrefix(before, done, states, ops, id, n - 1);
    }
  }

  /** Elsewhere in the program an invitation's token is refreshed without asking whether it was
      used, so that a user can end up with two open tokens. */
  lemma RefreshCanDouble()
    ensures exists ts: Table, op :: Enabled(ts, op) && OneOpen(ts) && !OneOpen(Perform(ts, op))
  {
    var ts := [Token(1, Invite, 2, 10, true, 0), Token(1, Invite, 2, 11, false, 525600)];
    var op := Refresh(0, 0, [12]);
    assert !InUse(ts, Invite, [12][0]);
    assert SomeFree(ts, Invite, [12]);
    assert Doubles(ts, op) by {
      assert SameOwner(ts[1], ts[0]);
    }
    OperationsKeepOneOpenExactly(ts, op);
  }

  // ----- the table -----

  class TokenTable {
    var rows: Table

    constructor ()
      ensures rows == []
    {
      rows := [];
    }

    method GenerateUniqueKey(k: Kind, draws: seq<TokenKey>) returns (key: TokenKey)
      requires SomeFree(rows, k, draws)
      ensures key == FreeKey(rows, k, draws)
      decreases |draws|
    {
      key := draws[0];
      if InUse(rows, k, key) {
        key := GenerateUniqueKey(k, draws[1..]);
      }
    }

    method Refresh(id: Id, now: Minute, draws: seq<TokenKey>)
      requires Enabled(rows, Operation.Refresh(id, now, draws))
      modifies this
      ensures rows == Perform(old(rows), Operation.Refresh(id, now, draws))
      ensures !old(rows)[id].used && now < old(rows)[id].expiry ==> rows[id].key == old(rows)[id].key
    {
      var kind := rows[id].kind;
      if !IsValid(rows[id], now) {
        var key := GenerateUniqueKey(kind, draws);
        rows := rows[id := rows[id].(key := key)];
        rows := rows[id := rows[id].(used := false)];
      }
      rows := rows[id := rows[id].(expiry := now + Validity(kind))];
    }

    method Validate(id: Id, now: Minute) returns (accepted: bool)
      requires id < |rows|
      modifies this
      ensures accepted <==> !old(rows)[id].used && now < old(rows)[id].expiry
      ensures rows == old(rows)[id := old(rows)[id].(used := true)]
      ensures rows == Perform(old(rows), Operation.Validate(id, now))
    {
      accepted := true;
      if !IsValid(rows[id], now) {
        accepted := false;
      }
      rows := rows[id := rows[id].(used := true)];
    }

    method MarkAsUsed(id: Id)
      requires id < |rows|
      modifies this
      ensures rows == Perform(old(rows), Operation.MarkAsUsed(id))
      ensures rows == old(rows)[id := old(rows)[id].(used := true)]
    {
      rows := rows[id := rows[id].(used := true)];
    }

    method Invalidate(id: Id, now: Minute)
      requires id < |rows|
      modifies this
      ensures rows == Perform(old(rows), Operation.Invalidate(id, now))
      ensures rows == old(rows)[id := old(rows)[id].(used := true, expiry := now)]
    {
      MarkAsUsed(id);
      rows := rows[id := rows[id].(expiry := now)];
    }

    /** `initialize`: get the open token or create one; refresh what was there. */
    method Initialize(user: Person, k: Kind, given: Option<Person>, now: Minute, draws: seq<TokenKey>)
      returns (token: Option<Id>)
      requires Enabled(rows, Operation.Initialize(user, k, given, now, draws))
      modifies this
      ensures rows == Perform(old(rows), Operation.Initialize(user, k, given, now, draws))
      ensures token.None? <==> |OpenTokens(old(rows), user, k, if given.Some? then given.value else user)| > 1
      ensures token.None? ==> rows == old(rows)
      ensures token.Some? ==> IsOpen(rows, token.value, user, k, if given.Some? then given.value else user)
                              && IsValid(rows[token.value], now)
    {
      var creator := if given.Some? then given.value else user;
      var open := OpenTokens(rows, user, k, creator);
      if open == {} {
        var key := GenerateUniqueKey(k, draws);
        rows := rows + [Token(user, k, creator, key, false, now + Validity(k))];
        return Some(|rows| - 1);
      }
      if |open| > 1 {
        return None;
      }
      assert |open| == 1;
      var id := Only(open);
      assert id in open;
      Refresh(id, now, draws);
      return Some(id);
    }
  }
}
