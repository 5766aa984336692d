/** Merging duplicate farmers: the records of the duplicates move to the group's first farmer,
    and the duplicates are deleted, with whatever still refers to them. */
module FarmerMerge {

  import opened Basics

  type Node = nat
  type Id = nat

  datatype ExternalTransaction = ExternalTransaction(
    source: Node, sourceWallet: Option<Id>, destination: Node, destinationWallet: Option<Id>)

  datatype InternalTransaction = InternalTransaction(node: Option<Node>, wallet: Option<Id>)

  datatype Payment = Payment(source: Option<Node>, destination: Option<Node>, transaction: Option<Id>, card: Option<Id>)

  datatype Batch = Batch(node: Node, wallet: Option<Id>, sourceTransaction: Option<Id>)

  /** The four relations; both kinds of transactions draw their keys from one sequence. */
  datatype Tables = Tables(
    external: map<Id, ExternalTransaction>,
    internals: map<Id, InternalTransaction>,
    payments: map<Id, Payment>,
    batches: map<Id, Batch>)

  /** Who owns a wallet, and whose reference a card is tied to. */
  datatype Context = Context(walletOwner: map<Id, Node>, cardFarmer: map<Id, Node>)

  /** Which farmer each removed duplicate is merged into. */
  type Plan = map<Node, Node>

  predicate Has(o: Option<Node>, nodes: set<Node>) {
    o.Some? && o.value in nodes
  }

  // ----- moving records -----

  function MoveExternal(x: ExternalTransaction, plan: Plan, wallet: Option<Id>): ExternalTransaction {
    if x.source in plan then
      ExternalTransaction(plan[x.source], wallet, x.destination, x.destinationWallet)
    else x
  }

  function MoveInternal(x: InternalTransaction, plan: Plan): InternalTransaction {
    if Has(x.node, plan.Keys) then InternalTransaction(Some(plan[x.node.value]), x.wallet) else x
  }

  function MovePayment(x: Payment, plan: Plan): Payment {
    if Has(x.destination, plan.Keys) then
      Payment(x.source, Some(plan[x.destination.value]), x.transaction, x.card)
    else x
  }

  function MoveBatch(x: Batch, plan: Plan, wallet: Option<Id>): Batch {
    if x.node in plan then Batch(plan[x.node], wallet, x.sourceTransaction) else x
  }

  function MovedExternal(t: map<Id, ExternalTransaction>, plan: Plan, wallet: Option<Id>)
    : map<Id, ExternalTransaction>
  {
    map k | k in t && t[k].source in plan :: MoveExternal(t[k], plan, wallet)
  }

  function MovedInternal(t: map<Id, InternalTransaction>, plan: Plan): map<Id, InternalTransaction> {
    map k | k in t && Has(t[k].node, plan.Keys) :: MoveInternal(t[k], plan)
  }

  function MovedPayments(t: map<Id, Payment>, plan: Plan): map<Id, Payment> {
    map k | k in t && Has(t[k].destination, plan.Keys) :: MovePayment(t[k], plan)
  }

  function MovedBatches(t: map<Id, Batch>, plan: Plan, wallet: Option<Id>): map<Id, Batch> {
    map k | k in t && t[k].node in plan :: MoveBatch(t[k], plan, wallet)
  }

  /** All records of removed duplicates moved, and nothing else changed. */
  function Relinked(t: Tables, plan: Plan, wallet: Option<Id>): Tables {
    Tables(map k | k in t.external :: MoveExternal(t.external[k], plan, wallet),
           map k | k in t.internals :: MoveInternal(t.internals[k], plan),
           map k | k in t.payments :: MovePayment(t.payments[k], plan),
           map k | k in t.batches :: MoveBatch(t.batches[k], plan, wallet))
  }

  /** `get_items_to_merge(...)` finds something. */
  predicate SomeRecordOf(t: Tables, nodes: set<Node>) {
    || (exists k :: k in t.external && t.external[k].source in nodes)
    || (exists k :: k in t.internals && Has(t.internals[k].node, nodes))
    || (exists k :: k in t.payments && Has(t.payments[k].destination, nodes))
    || (exists k :: k in t.batches && t.batches[k].node in nodes)
  }

  // ----- deleting farmers -----

  predicate Through(o: Option<Id>, owner: map<Id, Node>, nodes: set<Node>) {
    o.Some? && o.value in owner && owner[o.value] in nodes
  }

  /** The records the database deletes along with the given nodes, following foreign keys. */
  predicate ExternalGoes(x: ExternalTransaction, c: Context, gone: set<Node>) {
    || x.source in gone || x.destination in gone
    || Through(x.sourceWallet, c.walletOwner, gone) || Through(x.destinationWallet, c.walletOwner, gone)
  }

  predicate InternalGoes(x: InternalTransaction, c: Context, gone: set<Node>) {
    Has(x.node, gone) || Through(x.wallet, c.walletOwner, gone)
  }

  predicate TransactionGoes(t: Tables, k: Option<Id>, c: Context, gone: set<Node>) {
    k.Some?
    && ((k.value in t.external && ExternalGoes(t.external[k.value], c, gone))
        || (k.value in t.internals && InternalGoes(t.internals[k.value], c, gone)))
  }

  predicate PaymentGoes(t: Tables, x: Payment, c: Context, gone: set<Node>) {
    || Has(x.source, gone) || Has(x.destination, gone)
    || Through(x.card, c.cardFarmer, gone) || TransactionGoes(t, x.transaction, c, gone)
  }

  predicate BatchGoes(t: Tables, x: Batch, c: Context, gone: set<Node>) {
    x.node in gone || Through(x.wallet, c.walletOwner, gone) || TransactionGoes(t, x.sourceTransaction, c, gone)
  }

  function AfterDelete(t: Tables, c: Context, gone: set<Node>): Tables {
    Tables(map k | k in t.external && !ExternalGoes(t.external[k], c, gone) :: t.external[k],
           map k | k in t.internals && !InternalGoes(t.internals[k], c, gone) :: t.internals[k],
           map k | k in t.payments && !PaymentGoes(t, t.payments[k], c, gone) :: t.payments[k],
           map k | k in t.batches && !BatchGoes(t, t.batches[k], c, gone) :: t.batches[k])
  }

  // ----- planning -----

  /** The groups of duplicates: at least two farmers each, and no farmer in two places. */
  ghost predicate AreGroups(groups: seq<seq<Node>>) {
    && (forall g :: 0 <= g < |groups| ==> |groups[g]| >= 2)
    && (forall g, f :: 0 <= g < |groups| && f in groups[g] ==> InOnly(groups, g, f))
  }

  ghost predicate InOnly(groups: seq<seq<Node>>, g: int, f: Node) {
    forall h :: 0 <= h < |groups| && f in groups[h] ==> h == g
  }

  predicate IsMain(group: seq<Node>, main: Node) {
    main in group && forall i :: 0 <= i < |group| ==> main <= group[i]
  }

  /** Some sale by the farmer went to somebody else than the given buyer. */
  predicate SoldElsewhere(t: map<Id, ExternalTransaction>, farmer: Node, buyer: Node) {
    exists k :: k in t && t[k].source == farmer && t[k].destination != buyer
  }

  /** The farmers of a group to be removed: all but the main one that sold to its buyer only. */
  function Removable(t: map<Id, ExternalTransaction>, group: seq<Node>, main: Node, buyer: Node): set<Node> {
    set f | f in group && f != main && !SoldElsewhere(t, f, buyer)
  }

  /** The plan removes exactly the removable farmers of the first `n` groups, each into the main
      farmer of its group. */
  ghost predicate PlanFor(t: map<Id, ExternalTransaction>, groups: seq<seq<Node>>, buyers: map<Node, Node>,
                          n: nat, plan: Plan)
    requires n <= |groups|
  {
    && (forall g :: 0 <= g < n ==> MainOf(groups[g]) in buyers)
    && (forall f :: f in plan ==> RemovedIn(t, groups, buyers, n, f))
    && (forall g :: 0 <= g < n ==> GroupPlanned(t, groups[g], buyers, plan))
  }

  ghost predicate GroupPlanned(t: map<Id, ExternalTransaction>, group: seq<Node>, buyers: map<Node, Node>, plan: Plan) {
    forall f :: Removes(t, group, buyers, f) ==> f in plan && plan[f] == MainOf(group)
  }

  ghost predicate RemovedIn(t: map<Id, ExternalTransaction>, groups: seq<seq<Node>>, buyers: map<Node, Node>,
                            n: nat, f: Node)
    requires n <= |groups|
  {
    exists g :: 0 <= g < n && Removes(t, groups[g], buyers, f)
  }

  ghost predicate Removes(t: map<Id, ExternalTransaction>, group: seq<Node>, buyers: map<Node, Node>, f: Node) {
    MainOf(group) in buyers && f in Removable(t, group, MainOf(group), buyers[MainOf(group)])
  }

  function MainOf(group: seq<Node>): (main: Node)
    ensures group != [] ==> IsMain(group, main)
  {
    if |group| == 0 then 0
    else if |group| == 1 then group[0]
    else
      var rest := MainOf(group[1..]);
      assert forall i :: 1 <= i < |group| ==> group[i] == group[1..][i - 1];
      if group[0] < rest then group[0] else rest
  }

  // ----- what the merge promises -----

  /** Mains are never removed. */
  lemma MainsStay(t: map<Id, ExternalTransaction>, groups: seq<seq<Node>>, buyers: map<Node, Node>, plan: Plan, g: nat)
    requires AreGroups(groups) && PlanFor(t, groups, buyers, |groups|, plan) && g < |groups|
    ensures MainOf(groups[g]) !in plan
  {
    var main := MainOf(groups[g]);
    forall h | 0 <= h < |groups| ensures !Removes(t, groups[h], buyers, main) {
      assert main in groups[g];
      if main in groups[h] {
        assert InOnly(groups, g, main);
      }
    }
    assert !RemovedIn(t, groups, buyers, |groups|, main);
  }

  lemma MainsAllStay(t: map<Id, ExternalTransaction>, groups: seq<seq<Node>>, buyers: map<Node, Node>, plan: Plan)
    requires AreGroups(groups) && PlanFor(t, groups, buyers, |groups|, plan)
    ensures forall g :: 0 <= g < |groups| ==> MainOf(groups[g]) !in plan
  {
    forall g | 0 <= g < |groups| ensures MainOf(groups[g]) !in plan {
      MainsStay(t, groups, buyers, plan, g);
    }
  }

  /** Farmers are merged into farmers that stay. */
  lemma TargetsStay(t: map<Id, ExternalTransaction>, groups: seq<seq<Node>>, buyers: map<Node, Node>, plan: Plan)
    requires AreGroups(groups) && PlanFor(t, groups, buyers, |groups|, plan)
    ensures AcyclicPlan(plan)
  {
    forall f | f in plan ensures plan[f] !in plan {
      assert RemovedIn(t, groups, buyers, |groups|, f);
      var g :| 0 <= g < |groups| && Removes(t, groups[g], buyers, f);
      MainsStay(t, groups, buyers, plan, g);
    }
  }

  ghost predicate AcyclicPlan(plan: Plan) {
    forall f :: f in plan ==> plan[f] !in plan
  }

  /** After relinking no record belongs to a removed farmer, so the deletion always goes ahead. */
  lemma NothingLeftBehind(t: Tables, plan: Plan, wallet: Option<Id>)
    requires AcyclicPlan(plan)
    ensures !SomeRecordOf(Relinked(t, plan, wallet), plan.Keys)
  {}

  lemma NothingLeftAfterDeletion(t: Tables, c: Context, plan: Plan, wallet: Option<Id>)
    requires AcyclicPlan(plan)
    ensures !SomeRecordOf(AfterDelete(Relinked(t, plan, wallet), c, plan.Keys), plan.Keys)
  {
    NothingLeftBehind(t, plan, wallet);
  }

  // A record is tied to the farmers to be removed if a column the merge leaves alone refers to
  // them: buying, paying, other wallets, cards; or if the wallet it is moved to is theirs.

  predicate TiedExternal(x: ExternalTransaction, c: Context, plan: Plan, wallet: Option<Id>) {
    || x.destination in plan || Through(x.destinationWallet, c.walletOwner, plan.Keys)
    || Through(if x.source in plan then wallet else x.sourceWallet, c.walletOwner, plan.Keys)
  }

  predicate TiedInternal(x: InternalTransaction, c: Context, plan: Plan) {
    Through(x.wallet, c.walletOwner, plan.Keys)
  }

  predicate TiedPayment(x: Payment, c: Context, plan: Plan) {
    Has(x.source, plan.Keys) || Through(x.card, c.cardFarmer, plan.Keys)
  }

  predicate TiedBatch(x: Batch, c: Context, plan: Plan, wallet: Option<Id>) {
    Through(if x.node in plan then wallet else x.wallet, c.walletOwner, plan.Keys)
  }

  /** No record is tied to the farmers to be removed. */
  predicate Untied(t: Tables, c: Context, plan: Plan, wallet: Option<Id>) {
    && (forall k :: k in t.external ==> !TiedExternal(t.external[k], c, plan, wallet))
    && (forall k :: k in t.internals ==> !TiedInternal(t.internals[k], c, plan))
    && (forall k :: k in t.payments ==> !TiedPayment(t.payments[k], c, plan))
    && (forall k :: k in t.batches ==> !TiedBatch(t.batches[k], c, plan, wallet))
  }

  lemma FewerRows<T>(before: set<T>, after: set<T>)
    requires after <= before
    ensures |after| == |before| <==> after == before
  {
    assert before == after + (before - after);
    assert |before| == |after| + |before - after|;
  }

  lemma MovedTransactionsGo(t: Tables, c: Context, plan: Plan, wallet: Option<Id>)
    requires AcyclicPlan(plan)
    ensures
      var u := Relinked(t, plan, wallet);
      && (forall k :: k in t.external ==>
            (ExternalGoes(u.external[k], c, plan.Keys) <==> TiedExternal(t.external[k], c, plan, wallet)))
      && (forall k :: k in t.internals ==>
            (InternalGoes(u.internals[k], c, plan.Keys) <==> TiedInternal(t.internals[k], c, plan)))
  {}

  lemma MovedPaymentGoes(t: Tables, c: Context, plan: Plan, wallet: Option<Id>, x: Payment)
    requires AcyclicPlan(plan)
    ensures
      var u := Relinked(t, plan, wallet);
      PaymentGoes(u, MovePayment(x, plan), c, plan.Keys) <==>
        TiedPayment(x, c, plan) || TransactionGoes(u, x.transaction, c, plan.Keys)
  {}

  lemma MovedBatchGoes(t: Tables, c: Context, plan: Plan, wallet: Option<Id>, x: Batch)
    requires AcyclicPlan(plan)
    ensures
      var u := Relinked(t, plan, wallet);
      BatchGoes(u, MoveBatch(x, plan, wallet), c, plan.Keys) <==>
        TiedBatch(x, c, plan, wallet) || TransactionGoes(u, x.sourceTransaction, c, plan.Keys)
  {}

  /** Whether a deletion takes any record. */
  ghost predicate NothingGoes(t: Tables, c: Context, gone: set<Node>) {
    && (forall k :: k in t.external ==> !ExternalGoes(t.external[k], c, gone))
    && (forall k :: k in t.internals ==> !InternalGoes(t.internals[k], c, gone))
    && (forall k :: k in t.payments ==> !PaymentGoes(t, t.payments[k], c, gone))
    && (forall k :: k in t.batches ==> !BatchGoes(t, t.batches[k], c, gone))
  }

  lemma TiedGoes(t: Tables, c: Context, plan: Plan, wallet: Option<Id>)
    requires AcyclicPlan(plan) && NothingGoes(Relinked(t, plan, wallet), c, plan.Keys)
    ensures Untied(t, c, plan, wallet)
  {
    var u := Relinked(t, plan, wallet);
    MovedTransactionsGo(t, c, plan, wallet);
    forall k | k in t.payments ensures !TiedPayment(t.payments[k], c, plan) {
      MovedPaymentGoes(t, c, plan, wallet, t.payments[k]);
      assert u.payments[k] == MovePayment(t.payments[k], plan);
    }
    forall k | k in t.batches ensures !TiedBatch(t.batches[k], c, plan, wallet) {
      MovedBatchGoes(t, c, plan, wallet, t.batches[k]);
      assert u.batches[k] == MoveBatch(t.batches[k], plan, wallet);
    }
  }

  lemma UntiedStays(t: Tables, c: Context, plan: Plan, wallet: Option<Id>)
    requires AcyclicPlan(plan) && Untied(t, c, plan, wallet)
    ensures NothingGoes(Relinked(t, plan, wallet), c, plan.Keys)
  {
    var u := Relinked(t, plan, wallet);
    MovedTransactionsGo(t, c, plan, wallet);
    forall k ensures !TransactionGoes(u, k, c, plan.Keys) {}
    forall k | k in t.payments ensures !PaymentGoes(u, u.payments[k], c, plan.Keys) {
      MovedPaymentGoes(t, c, plan, wallet, t.payments[k]);
      assert u.payments[k] == MovePayment(t.payments[k], plan);
    }
    forall k | k in t.batches ensures !BatchGoes(u, u.batches[k], c, plan.Keys) {
      MovedBatchGoes(t, c, plan, wallet, t.batches[k]);
      assert u.batches[k] == MoveBatch(t.batches[k], plan, wallet);
    }
  }

  ghost predicate SameSizes(t: Tables, u: Tables) {
    && |t.external.Keys| == |u.external.Keys| && |t.internals.Keys| == |u.internals.Keys|
    && |t.payments.Keys| == |u.payments.Keys| && |t.batches.Keys| == |u.batches.Keys|
  }

  lemma DeletionSizes(t: Tables, c: Context, gone: set<Node>)
    ensures SameSizes(AfterDelete(t, c, gone), t) <==> NothingGoes(t, c, gone)
  {
    var v := AfterDelete(t, c, gone);
    FewerRows(t.external.Keys, v.external.Keys);
    FewerRows(t.internals.Keys, v.internals.Keys);
    FewerRows(t.payments.Keys, v.payments.Keys);
    FewerRows(t.batches.Keys, v.batches.Keys);
    assert NothingGoes(t, c, gone) ==> v == t;
    assert v == t ==> SameSizes(v, t);
    if SameSizes(v, t) {
      SameKeysNothingGoes(t, c, gone);
    }
  }

  lemma SameKeysNothingGoes(t: Tables, c: Context, gone: set<Node>)
    requires
      var v := AfterDelete(t, c, gone);
      && v.external.Keys == t.external.Keys && v.internals.Keys == t.internals.Keys
      && v.payments.Keys == t.payments.Keys && v.batches.Keys == t.batches.Keys
    ensures NothingGoes(t, c, gone)
  {
    var v := AfterDelete(t, c, gone);
    forall k | k in t.external ensures !ExternalGoes(t.external[k], c, gone) { assert k in v.external.Keys; }
    forall k | k in t.internals ensures !InternalGoes(t.internals[k], c, gone) { assert k in v.internals.Keys; }
    forall k | k in t.payments ensures !PaymentGoes(t, t.payments[k], c, gone) { assert k in v.payments.Keys; }
    forall k | k in t.batches ensures !BatchGoes(t, t.batches[k], c, gone) { assert k in v.batches.Keys; }
  }

  /** The merge keeps the number of records of all four relations exactly when no record is tied
      to the farmers to be removed, which can be read off the tables beforehand. */
  lemma MergeKeepsRecordsExactly(t: Tables, c: Context, plan: Plan, wallet: Option<Id>)
    requires AcyclicPlan(plan)
    ensures SameSizes(AfterDelete(Relinked(t, plan, wallet), c, plan.Keys), t) <==> Untied(t, c, plan, wallet)
  {
    var u := Relinked(t, plan, wallet);
    assert u.external.Keys == t.external.Keys && u.internals.Keys == t.internals.Keys;
    assert u.payments.Keys == t.payments.Keys && u.batches.Keys == t.batches.Keys;
    DeletionSizes(u, c, plan.Keys);
    if Untied(t, c, plan, wallet) {
      UntiedStays(t, c, plan, wallet);
    }
    if NothingGoes(u, c, plan.Keys) {
      TiedGoes(t, c, plan, wallet);
    }
  }

  /** A record that is lost: the internal transaction of duplicate 2 moves to farmer 1, but its
      wallet is still the duplicate's and goes with it. */
  lemma MergeCanLoseRecords()
    ensures
      var t := Tables(map[], map[5 := InternalTransaction(Some(2), Some(7))], map[], map[]);
      var c := Context(map[7 := 2], map[]);
      var merged := AfterDelete(Relinked(t, map[2 := 1], None), c, {2});
      !Untied(t, c, map[2 := 1], None) && merged.internals == map[]
  {
    var t := Tables(map[], map[5 := InternalTransaction(Some(2), Some(7))], map[], map[]);
    var c := Context(map[7 := 2], map[]);
    assert TiedInternal(t.internals[5], c, map[2 := 1]);
  }

  /** Without ties the outcome is the relinked tables, each record moved or left as it was. */
  lemma UntiedMergeOnlyMoves(t: Tables, c: Context, plan: Plan, wallet: Option<Id>)
    requires AcyclicPlan(plan) && Untied(t, c, plan, wallet)
    ensures AfterDelete(Relinked(t, plan, wallet), c, plan.Keys) == Relinked(t, plan, wallet)
  {
    UntiedStays(t, c, plan, wallet);
  }

  // Which records are lost, one by one.

  /** A transaction that was there before the merge and is not afterwards. */
  predicate LostTransaction(t: Tables, after: Tables, k: Option<Id>) {
    k.Some? && ((k.value in t.external && k.value !in after.external)
                || (k.value in t.internals && k.value !in after.internals))
  }

  lemma LostTransactionGoes(t: Tables, c: Context, plan: Plan, wallet: Option<Id>, k: Option<Id>)
    ensures
      var u := Relinked(t, plan, wallet);
      LostTransaction(t, AfterDelete(u, c, plan.Keys), k) <==> TransactionGoes(u, k, c, plan.Keys)
  {}

  /** A sale or internal transaction is lost exactly if it is tied to a removed farmer. */
  lemma TransactionsLostExactly(t: Tables, c: Context, plan: Plan, wallet: Option<Id>)
    requires AcyclicPlan(plan)
    ensures
      var after := AfterDelete(Relinked(t, plan, wallet), c, plan.Keys);
      && (forall k :: k in t.external ==> (k !in after.external <==> TiedExternal(t.external[k], c, plan, wallet)))
      && (forall k :: k in t.internals ==> (k !in after.internals <==> TiedInternal(t.internals[k], c, plan)))
  {
    MovedTransactionsGo(t, c, plan, wallet);
  }

  /** A payment or batch is lost exactly if it is tied itself, or its transaction is lost. */
  lemma PaymentLostExactly(t: Tables, c: Context, plan: Plan, wallet: Option<Id>, k: Id)
    requires AcyclicPlan(plan) && k in t.payments
    ensures
      var after := AfterDelete(Relinked(t, plan, wallet), c, plan.Keys);
      k !in after.payments <==>
        TiedPayment(t.payments[k], c, plan) || LostTransaction(t, after, t.payments[k].transaction)
  {
    MovedPaymentGoes(t, c, plan, wallet, t.payments[k]);
    LostTransactionGoes(t, c, plan, wallet, t.payments[k].transaction);
  }

  lemma BatchLostExactly(t: Tables, c: Context, plan: Plan, wallet: Option<Id>, k: Id)
    requires AcyclicPlan(plan) && k in t.batches
    ensures
      var after := AfterDelete(Relinked(t, plan, wallet), c, plan.Keys);
      k !in after.batches <==>
        TiedBatch(t.batches[k], c, plan, wallet) || LostTransaction(t, after, t.batches[k].sourceTransaction)
  {
    MovedBatchGoes(t, c, plan, wallet, t.batches[k]);
    LostTransactionGoes(t, c, plan, wallet, t.batches[k].sourceTransaction);
  }

  function MovedTo(plan: Plan, f: Node): Node {
    if f in plan then plan[f] else f
  }

  function MovedToMaybe(plan: Plan, f: Option<Node>): Option<Node> {
    if f.Some? then Some(MovedTo(plan, f.value)) else None
  }

  /** Column by column: the farmer of a record becomes the one he is merged into, sales and batches of
      merged farmers get the given wallet, and nothing else changes in any record. */
  lemma RelinkedColumns(t: Tables, plan: Plan, wallet: Option<Id>)
    ensures
      var u := Relinked(t, plan, wallet);
      && (forall k :: k in t.external ==>
            var x := t.external[k];
            k in u.external && u.external[k] == ExternalTransaction(
              MovedTo(plan, x.source), if x.source in plan then wallet else x.sourceWallet,
              x.destination, x.destinationWallet))
      && (forall k :: k in t.internals ==>
            var x := t.internals[k];
            k in u.internals && u.internals[k] == InternalTransaction(MovedToMaybe(plan, x.node), x.wallet))
      && (forall k :: k in t.payments ==>
            var x := t.payments[k];
            k in u.payments
            && u.payments[k] == Payment(x.source, MovedToMaybe(plan, x.destination), x.transaction, x.card))
      && (forall k :: k in t.batches ==>
            var x := t.batches[k];
            k in u.batches && u.batches[k] == Batch(
              MovedTo(plan, x.node), if x.node in plan then wallet else x.wallet, x.sourceTransaction))
  {}

  /** A farmer to be merged: there is a smaller key in the group, and he sold to nobody but the last
      buyer of the farmer with the smallest. */
  ghost predicate IsDuplicate(t: map<Id, ExternalTransaction>, group: seq<Node>, buyers: map<Node, Node>, main: Node,
                              f: Node) {
    && main in group && (forall h :: h in group ==> main <= h) && main in buyers
    && f in group && main < f
    && forall k :: k in t && t[k].source == f ==> t[k].destination == buyers[main]
  }

  lemma RemovesExactly(t: map<Id, ExternalTransaction>, group: seq<Node>, buyers: map<Node, Node>, f: Node)
    requires group != []
    ensures Removes(t, group, buyers, f) <==> IsDuplicate(t, group, buyers, MainOf(group), f)
    ensures forall main :: IsDuplicate(t, group, buyers, main, f) ==> main == MainOf(group)
  {
    var main := MainOf(group);
    assert IsMain(group, main);
  }

  /** The plan, in terms of the groups: exactly the duplicates are removed, each into the farmer with
      the smallest key of his group. */
  lemma PlanExactly(t: map<Id, ExternalTransaction>, groups: seq<seq<Node>>, buyers: map<Node, Node>, plan: Plan,
                    f: Node, main: Node)
    requires AreGroups(groups) && PlanFor(t, groups, buyers, |groups|, plan)
    ensures f in plan && plan[f] == main <==>
            exists g :: 0 <= g < |groups| && IsDuplicate(t, groups[g], buyers, main, f)
  {
    forall g | 0 <= g < |groups|
      ensures Removes(t, groups[g], buyers, f) <==> IsDuplicate(t, groups[g], buyers, MainOf(groups[g]), f)
      ensures IsDuplicate(t, groups[g], buyers, main, f) ==> main == MainOf(groups[g])
    {
      RemovesExactly(t, groups[g], buyers, f);
    }
    if f in plan && plan[f] == main {
      assert RemovedIn(t, groups, buyers, |groups|, f);
      var g :| 0 <= g < |groups| && Removes(t, groups[g], buyers, f);
      assert GroupPlanned(t, groups[g], buyers, plan);
    }
    if g :| 0 <= g < |groups| && IsDuplicate(t, groups[g], buyers, main, f) {
      assert GroupPlanned(t, groups[g], buyers, plan);
    }
  }

  // ----- collecting changes, group by group -----

  /** The changed rows, by key. */
  type Changes = Tables

  function ChangesFor(t: Tables, plan: Plan, wallet: Option<Id>): Changes {
    Tables(MovedExternal(t.external, plan, wallet), MovedInternal(t.internals, plan),
           MovedPayments(t.payments, plan), MovedBatches(t.batches, plan, wallet))
  }

  /** Changes added to earlier ones, or written to the tables. */
  function Written(t: Tables, ch: Changes): Tables {
    Tables(t.external + ch.external, t.internals + ch.internals, t.payments + ch.payments, t.batches + ch.batches)
  }

  lemma ChangesAddUp(t: Tables, plan: Plan, more: Plan, wallet: Option<Id>)
    ensures ChangesFor(t, plan + more, wallet) == Written(ChangesFor(t, plan, wallet), ChangesFor(t, more, wallet))
  {
    MoreExternalMoved(t.external, plan, more, wallet);
    MoreInternalMoved(t.internals, plan, more);
    MorePaymentsMoved(t.payments, plan, more);
    MoreBatchesMoved(t.batches, plan, more, wallet);
  }

  lemma WritingChangesRelinks(t: Tables, plan: Plan, wallet: Option<Id>)
    ensures Written(t, ChangesFor(t, plan, wallet)) == Relinked(t, plan, wallet)
  {
    WritingRelinks(t, plan, wallet);
    WritingRelinksToo(t, plan, wallet);
  }

  lemma MoreExternalMoved(t: map<Id, ExternalTransaction>, plan: Plan, more: Plan, wallet: Option<Id>)
    ensures MovedExternal(t, plan + more, wallet) == MovedExternal(t, plan, wallet) + MovedExternal(t, more, wallet)
  {}

  lemma MoreInternalMoved(t: map<Id, InternalTransaction>, plan: Plan, more: Plan)
    ensures MovedInternal(t, plan + more) == MovedInternal(t, plan) + MovedInternal(t, more)
  {}

  lemma MorePaymentsMoved(t: map<Id, Payment>, plan: Plan, more: Plan)
    ensures MovedPayments(t, plan + more) == MovedPayments(t, plan) + MovedPayments(t, more)
  {}

  lemma MoreBatchesMoved(t: map<Id, Batch>, plan: Plan, more: Plan, wallet: Option<Id>)
    ensures MovedBatches(t, plan + more, wallet) == MovedBatches(t, plan, wallet) + MovedBatches(t, more, wallet)
  {}

  lemma WritingRelinks(t: Tables, plan: Plan, wallet: Option<Id>)
    ensures t.external + MovedExternal(t.external, plan, wallet) == Relinked(t, plan, wallet).external
    ensures t.internals + MovedInternal(t.internals, plan) == Relinked(t, plan, wallet).internals
  {}

  lemma WritingRelinksToo(t: Tables, plan: Plan, wallet: Option<Id>)
    ensures t.payments + MovedPayments(t.payments, plan) == Relinked(t, plan, wallet).payments
    ensures t.batches + MovedBatches(t.batches, plan, wallet) == Relinked(t, plan, wallet).batches
  {}

  /** The main farmer of some group has sold to nobody. */
  ghost predicate LacksBuyer(groups: seq<seq<Node>>, buyers: map<Node, Node>) {
    exists g :: 0 <= g < |groups| && MainOf(groups[g]) !in buyers
  }

  // ----- the script -----

  datatype Outcome = NoBuyer | NotMerged | Merged(removed: set<Node>)

  class FarmerRecords {
    const context: Context
    var tables: Tables
    var farmers: set<Node>

    constructor (context: Context, tables: Tables, farmers: set<Node>)
      ensures this.context == context && this.tables == tables && this.farmers == farmers
    {
      this.context, this.tables, this.farmers := context, tables, farmers;
    }

    /** `remove_duplicates` on given groups; `buyers` holds the last buyer of farmers that have
        one, and `wallet` the wallet moved records are paid from.  Without a buyer for a main
        farmer the script stops before changing anything; otherwise it always merges. */
    method RemoveDuplicates(groups: seq<seq<Node>>, buyers: map<Node, Node>, wallet: Option<Id>)
      returns (r: Outcome, ghost plan: Plan)
      requires AreGroups(groups)
      modifies this
      ensures !r.NotMerged?
      ensures r.NoBuyer? <==> LacksBuyer(groups, buyers)
      ensures r.NoBuyer? ==> tables == old(tables) && farmers == old(farmers)
      ensures r.Merged? ==>
                && PlanFor(old(tables).external, groups, buyers, |groups|, plan) && r.removed == plan.Keys
                && tables == AfterDelete(Relinked(old(tables), plan, wallet), context, plan.Keys)
                && farmers == old(farmers) - plan.Keys
                && (forall g :: 0 <= g < |groups| ==> MainOf(groups[g]) !in plan)
                && !SomeRecordOf(tables, plan.Keys)
    {
      var changes;
      r, changes, plan := CollectChanges(groups, buyers, wallet);
      if r.NoBuyer? {
        return;
      }
      TargetsStay(tables.external, groups, buyers, plan);
      NothingLeftBehind(tables, plan, wallet);
      WritingChangesRelinks(tables, plan, wallet);
      MainsAllStay(tables.external, groups, buyers, plan);
      NothingLeftAfterDeletion(tables, context, plan, wallet);
      r := ProcessMerge(changes, r.removed);
    }

    /** The loop over the groups, which changes nothing in the database yet. */
    method CollectChanges(groups: seq<seq<Node>>, buyers: map<Node, Node>, wallet: Option<Id>)
      returns (r: Outcome, changes: Changes, ghost plan: Plan)
      requires AreGroups(groups)
      ensures r.NoBuyer? <==> LacksBuyer(groups, buyers)
      ensures r.NoBuyer? || r.Merged?
      ensures r.Merged? ==> PlanFor(tables.external, groups, buyers, |groups|, plan) && r.removed == plan.Keys
                            && changes == ChangesFor(tables, plan, wallet)
    {
      var t := tables;
      var toDelete: set<Node> := {};
      plan := map[];
      changes := Tables(map[], map[], map[], map[]);
      EmptyPlan(t, groups, buyers, wallet);
      for g := 0 to |groups|
        invariant Collected(t, groups, buyers, wallet, g, plan, toDelete, changes)
      {
        if MainOf(groups[g]) !in buyers {
          return NoBuyer, changes, plan;
        }
        toDelete, changes, plan := CollectGroup(t, groups, buyers, wallet, g, toDelete, changes, plan);
      }
      return Merged(toDelete), changes, plan;
    }

    /** The body of that loop, for a group whose main farmer has a buyer. */
    method CollectGroup(t: Tables, groups: seq<seq<Node>>, buyers: map<Node, Node>, wallet: Option<Id>, g: nat,
                        toDelete: set<Node>, changes: Changes, ghost plan: Plan)
      returns (toDelete': set<Node>, changes': Changes, ghost plan': Plan)
      requires AreGroups(groups) && g < |groups| && MainOf(groups[g]) in buyers
      requires Collected(t, groups, buyers, wallet, g, plan, toDelete, changes)
      ensures
        var main := MainOf(groups[g]);
        var duplicates := Removable(t.external, groups[g], main, buyers[main]);
        && toDelete' == toDelete + duplicates
        && changes' == Written(changes, ChangesFor(t, map f | f in duplicates :: main, wallet))
      ensures Collected(t, groups, buyers, wallet, g + 1, plan', toDelete', changes')
    {
      var main := MainOf(groups[g]);
      var duplicates := Removable(t.external, groups[g], main, buyers[main]);
      var merged := MergeItems(t, main, duplicates, wallet);
      ghost var more: Plan := map f | f in duplicates :: main;
      CollectedMore(t, groups, buyers, wallet, g, plan, toDelete, changes, duplicates, more);
      toDelete', changes', plan' := toDelete + duplicates, Written(changes, merged), plan + more;
    }

    /** `merge_items`: the records of the duplicates, changed to the main farmer. */
    method MergeItems(t: Tables, main: Node, duplicates: set<Node>, wallet: Option<Id>) returns (changes: Changes)
      ensures changes == ChangesFor(t, map f | f in duplicates :: main, wallet)
    {
      var external := MergeExternal(t.external, main, duplicates, wallet);
      var internals := MergeInternal(t.internals, main, duplicates);
      var payments := MergePayments(t.payments, main, duplicates);
      var batches := MergeBatches(t.batches, main, duplicates, wallet);
      changes := Tables(external, internals, payments, batches);
    }

    method MergeExternal(t: map<Id, ExternalTransaction>, main: Node, duplicates: set<Node>, wallet: Option<Id>)
      returns (updates: map<Id, ExternalTransaction>)
      ensures updates == MovedExternal(t, map f | f in duplicates :: main, wallet)
    {
      ghost var plan: Plan := map f | f in duplicates :: main;
      var all := set k | k in t && t[k].source in duplicates;
      var todo := all;
      updates := map[];
      while todo != {}
        invariant todo <= all
        invariant updates == map k | k in all - todo :: MoveExternal(t[k], plan, wallet)
      {
        var k :| k in todo;
        updates := updates[k := ExternalTransaction(main, wallet, t[k].destination, t[k].destinationWallet)];
        todo := todo - {k};
      }
    }

    method MergeInternal(t: map<Id, InternalTransaction>, main: Node, duplicates: set<Node>)
      returns (updates: map<Id, InternalTransaction>)
      ensures updates == MovedInternal(t, map f | f in duplicates :: main)
    {
      ghost var plan: Plan := map f | f in duplicates :: main;
      var all := set k | k in t && Has(t[k].node, duplicates);
      var todo := all;
      updates := map[];
      while todo != {}
        invariant todo <= all
        invariant updates == map k | k in all - todo :: MoveInternal(t[k], plan)
      {
        var k :| k in todo;
        updates := updates[k := InternalTransaction(Some(main), t[k].wallet)];
        todo := todo - {k};
      }
    }

    method MergePayments(t: map<Id, Payment>, main: Node, duplicates: set<Node>) returns (updates: map<Id, Payment>)
      ensures updates == MovedPayments(t, map f | f in duplicates :: main)
    {
      ghost var plan: Plan := map f | f in duplicates :: main;
      var all := set k | k in t && Has(t[k].destination, duplicates);
      var todo := all;
      updates := map[];
      while todo != {}
        invariant todo <= all
        invariant updates == map k | k in all - todo :: MovePayment(t[k], plan)
      {
        var k :| k in todo;
        updates := updates[k := Payment(t[k].source, Some(main), t[k].transaction, t[k].card)];
        todo := todo - {k};
      }
    }

    method MergeBatches(t: map<Id, Batch>, main: Node, duplicates: set<Node>, wallet: Option<Id>)
      returns (updates: map<Id, Batch>)
      ensures updates == MovedBatches(t, map f | f in duplicates :: main, wallet)
    {
      ghost var plan: Plan := map f | f in duplicates :: main;
      var all := set k | k in t && t[k].node in duplicates;
      var todo := all;
      updates := map[];
      while todo != {}
        invariant todo <= all
        invariant updates == map k | k in all - todo :: MoveBatch(t[k], plan, wallet)
      {
        var k :| k in todo;
        updates := updates[k := Batch(main, wallet, t[k].sourceTransaction)];
        todo := todo - {k};
      }
    }

    /** `process_merge`: write the changed records, look for any left behind, delete. */
    method ProcessMerge(changes: Changes, toDelete: set<Node>) returns (r: Outcome)
      modifies this
      ensures
        var u := Written(old(tables), changes);
        if SomeRecordOf(u, toDelete) then r == NotMerged && tables == u && farmers == old(farmers)
        else r == Merged(toDelete) && tables == AfterDelete(u, context, toDelete) && farmers == old(farmers) - toDelete
    {
      tables := Written(tables, changes);
      if SomeRecordOf(tables, toDelete) {
        r := NotMerged;
      } else {
        tables := AfterDelete(tables, context, toDelete);
        farmers := farmers - toDelete;
        r := Merged(toDelete);
      }
    }
  }

  lemma PlanOneMore(t: map<Id, ExternalTransaction>, groups: seq<seq<Node>>, buyers: map<Node, Node>, g: nat,
                    plan: Plan, more: Plan)
    requires AreGroups(groups) && g < |groups| && PlanFor(t, groups, buyers, g, plan)
    requires MainOf(groups[g]) in buyers
    requires forall f :: f in more <==> Removes(t, groups[g], buyers, f)
    requires forall f :: f in more ==> more[f] == MainOf(groups[g])
    ensures PlanFor(t, groups, buyers, g + 1, plan + more)
  {
    forall f | f in plan + more ensures RemovedIn(t, groups, buyers, g + 1, f) {
      RemovedInMore(t, groups, buyers, g, f);
    }
    forall h | 0 <= h < g ensures GroupPlanned(t, groups[h], buyers, plan + more) {
      assert GroupPlanned(t, groups[h], buyers, plan);
      forall f | Removes(t, groups[h], buyers, f) ensures f !in more {
        RemovedOnce(t, groups, buyers, h, g, f);
      }
    }
    assert GroupPlanned(t, groups[g], buyers, plan + more);
  }

  lemma RemovedInMore(t: map<Id, ExternalTransaction>, groups: seq<seq<Node>>, buyers: map<Node, Node>, g: nat, f: Node)
    requires g < |groups|
    ensures RemovedIn(t, groups, buyers, g + 1, f) <==>
            RemovedIn(t, groups, buyers, g, f) || Removes(t, groups[g], buyers, f)
  {
    if RemovedIn(t, groups, buyers, g, f) {
      var h :| 0 <= h < g && Removes(t, groups[h], buyers, f);
      assert 0 <= h < g + 1;
    }
  }

  lemma RemovedOnce(t: map<Id, ExternalTransaction>, groups: seq<seq<Node>>, buyers: map<Node, Node>, h: nat, g: nat,
                    f: Node)
    requires AreGroups(groups) && h < g < |groups| && Removes(t, groups[h], buyers, f)
    ensures !Removes(t, groups[g], buyers, f)
  {
    assert f in groups[h];
    assert InOnly(groups, h, f);
  }

  /** One more group planned, and its changes added to the others. */
  lemma PlanNextGroup(t: Tables, groups: seq<seq<Node>>, buyers: map<Node, Node>, wallet: Option<Id>, g: nat,
                      plan: Plan, more: Plan)
    requires AreGroups(groups) && g < |groups| && PlanFor(t.external, groups, buyers, g, plan)
    requires MainOf(groups[g]) in buyers
    requires
      var main := MainOf(groups[g]);
      more == map f | f in Removable(t.external, groups[g], main, buyers[main]) :: main
    ensures PlanFor(t.external, groups, buyers, g + 1, plan + more)
    ensures ChangesFor(t, plan + more, wallet) == Written(ChangesFor(t, plan, wallet), ChangesFor(t, more, wallet))
  {
    PlanOneMore(t.external, groups, buyers, g, plan, more);
    ChangesAddUp(t, plan, more, wallet);
  }

  /** The plan and its changes, for the first groups. */
  ghost predicate Collected(t: Tables, groups: seq<seq<Node>>, buyers: map<Node, Node>, wallet: Option<Id>, n: nat,
                            plan: Plan, toDelete: set<Node>, changes: Changes)
    requires n <= |groups|
  {
    PlanFor(t.external, groups, buyers, n, plan) && toDelete == plan.Keys && changes == ChangesFor(t, plan, wallet)
  }

  lemma CollectedMore(t: Tables, groups: seq<seq<Node>>, buyers: map<Node, Node>, wallet: Option<Id>, g: nat,
                      plan: Plan, toDelete: set<Node>, changes: Changes, duplicates: set<Node>, more: Plan)
    requires AreGroups(groups) && g < |groups| && Collected(t, groups, buyers, wallet, g, plan, toDelete, changes)
    requires MainOf(groups[g]) in buyers
    requires duplicates == Removable(t.external, groups[g], MainOf(groups[g]), buyers[MainOf(groups[g])])
    requires more == map f | f in duplicates :: MainOf(groups[g])
    ensures Collected(t, groups, buyers, wallet, g + 1, plan + more, toDelete + duplicates,
                      Written(changes, ChangesFor(t, more, wallet)))
  {
    PlanNextGroup(t, groups, buyers, wallet, g, plan, more);
  }

  lemma EmptyPlan(t: Tables, groups: seq<seq<Node>>, buyers: map<Node, Node>, wallet: Option<Id>)
    ensures PlanFor(t.external, groups, buyers, 0, map[])
    ensures ChangesFor(t, map[], wallet) == Tables(map[], map[], map[], map[])
  {}
}
