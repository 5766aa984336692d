/** Copying field responses from the criteria of source batches to an inherited criterion. */
module FieldResponses {

  import opened Basics

  datatype Key = Key(field: nat, response: string, fileHash: Option<string>, addedBy: Option<nat>)

  datatype FieldResponse = FieldResponse(owner: nat, key: Key)

  /** The attached criteria that responses belong to. */
  datatype Attachment = Attachment(definition: nat, batch: nat)

  type Attachments = map<nat, Attachment>

  /** What `inherit_data` collects for one criterion: the attached criterion that inherits, the
      criterion it attaches, and the source batches. */
  datatype Request = Request(target: nat, definition: nat, batches: set<nat>)

  predicate IsSource(at: Attachments, q: Request, r: FieldResponse) {
    && r.owner in at
    && at[r.owner].definition == q.definition
    && at[r.owner].batch in q.batches
  }

  /** The batch that inherits is not one of its own source batches. */
  predicate Separate(at: Attachments, q: Request) {
    q.target in at ==> at[q.target].batch !in q.batches
  }

  predicate NonEmpty(k: Key) {
    (k.fileHash.Some? && k.fileHash.value != "") || k.response != ""
  }

  /** The responses of the sources, newest first. */
  function Found(rows: seq<FieldResponse>, at: Attachments, q: Request): seq<FieldResponse> {
    if rows == [] then []
    else
      var last := rows[|rows| - 1];
      (if IsSource(at, q, last) then [last] else []) + Found(rows[..|rows| - 1], at, q)
  }

  function Copied(rows: seq<FieldResponse>, found: seq<FieldResponse>, n: nat, target: nat): seq<FieldResponse>
    requires n <= |found|
  {
    if n == 0 then rows
    else
      CopyOne(Copied(rows, found, n - 1, target), FieldResponse(target, found[n - 1].key))
  }

  function Inherit(rows: seq<FieldResponse>, at: Attachments, q: Request): seq<FieldResponse> {
    var found := Found(rows, at, q);
    Copied(rows, found, |found|, q.target)
  }

  function InheritAll(rows: seq<FieldResponse>, at: Attachments, qs: seq<Request>, n: nat): seq<FieldResponse>
    requires n <= |qs|
  {
    if n == 0 then rows else Inherit(InheritAll(rows, at, qs, n - 1), at, qs[n - 1])
  }

  // ----- what inheriting adds -----

  ghost function Keys(found: seq<FieldResponse>): set<Key> {
    if found == [] then {} else Keys(found[..|found| - 1]) + {found[|found| - 1].key}
  }

  /** One more response copied, if it is not empty and not there. */
  function CopyOne(rows: seq<FieldResponse>, copy: FieldResponse): seq<FieldResponse> {
    if NonEmpty(copy.key) && copy !in rows then rows + [copy] else rows
  }

  /** The rows of a table stay, and the given one is there once more if it was added. */
  ghost predicate Grown(rows: seq<FieldResponse>, after: seq<FieldResponse>, added: bool, x: FieldResponse) {
    && rows <= after
    && (added ==> x !in rows)
    && multiset(after)[x] == multiset(rows)[x] + if added then 1 else 0
  }

  lemma CopyOneGrows(rows: seq<FieldResponse>, before: seq<FieldResponse>, copy: FieldResponse, added: bool,
                     x: FieldResponse)
    requires Grown(rows, before, added, x)
    ensures Grown(rows, CopyOne(before, copy), added || (x !in rows && x == copy && NonEmpty(x.key)), x)
  {
    assert x in rows <==> multiset(rows)[x] > 0;
    assert x in before <==> multiset(before)[x] > 0;
  }

  lemma KeysAppend(found: seq<FieldResponse>, n: nat)
    requires n < |found|
    ensures Keys(found[..n + 1]) == Keys(found[..n]) + {found[n].key}
  {
    assert found[..n + 1][..n] == found[..n];
  }

  /** Whether copying the first n responses adds the row. */
  ghost predicate Added(rows: seq<FieldResponse>, found: seq<FieldResponse>, n: nat, target: nat, x: FieldResponse)
    requires n <= |found|
  {
    x !in rows && x.owner == target && NonEmpty(x.key) && x.key in Keys(found[..n])
  }

  lemma AddedOneMore(rows: seq<FieldResponse>, found: seq<FieldResponse>, n: nat, target: nat, x: FieldResponse)
    requires n < |found|
    ensures Added(rows, found, n + 1, target, x) <==>
            || Added(rows, found, n, target, x)
            || (x !in rows && x == FieldResponse(target, found[n].key) && NonEmpty(x.key))
  {
    KeysAppend(found, n);
  }

  lemma {:induction false} CopiedExact(rows: seq<FieldResponse>, found: seq<FieldResponse>, n: nat, target: nat,
                                       x: FieldResponse)
    requires n <= |found|
    ensures Grown(rows, Copied(rows, found, n, target), Added(rows, found, n, target, x), x)
  {
    if n > 0 {
      var before, copy := Copied(rows, found, n - 1, target), FieldResponse(target, found[n - 1].key);
      CopiedExact(rows, found, n - 1, target, x);
      CopyOneGrows(rows, before, copy, Added(rows, found, n - 1, target, x), x);
      AddedOneMore(rows, found, n - 1, target, x);
    }
  }

  lemma {:induction false} KeysPrepend(r: FieldResponse, found: seq<FieldResponse>)
    ensures Keys([r] + found) == {r.key} + Keys(found)
  {
    if found == [] {
      assert ([r] + found)[..0] == [];
    } else {
      assert ([r] + found)[..|found|] == [r] + found[..|found| - 1];
      KeysPrepend(r, found[..|found| - 1]);
    }
  }

  /** The keys to copy are those of the source rows. */
  lemma {:induction false} FoundExact(rows: seq<FieldResponse>, at: Attachments, q: Request, k: Key)
    ensures k in Keys(Found(rows, at, q)) <==> exists r :: r in rows && IsSource(at, q, r) && r.key == k
  {
    if rows != [] {
      var front, last := rows[..|rows| - 1], rows[|rows| - 1];
      FoundExact(front, at, q, k);
      KeysPrepend(last, Found(front, at, q));
      assert [] + Found(front, at, q) == Found(front, at, q);
      assert rows == front + [last];
    }
  }

  /** The responses are listed from the newest row to the oldest. */
  lemma {:induction false} FoundNewestFirst(rows: seq<FieldResponse>, more: seq<FieldResponse>, at: Attachments,
                                            q: Request)
    ensures Found(rows + more, at, q) == Found(more, at, q) + Found(rows, at, q)
  {
    if more == [] {
      assert rows + more == rows;
    } else {
      FoundNewestFirst(rows, more[..|more| - 1], at, q);
      assert (rows + more)[..|rows + more| - 1] == rows + more[..|more| - 1];
    }
  }

  /** The response, without its owner, is one that an attachment of the same criterion to a source
      batch has. */
  ghost predicate GivenBySource(rows: seq<FieldResponse>, at: Attachments, q: Request, k: Key) {
    exists r :: && r in rows && r.key == k
                && r.owner in at && at[r.owner].definition == q.definition && at[r.owner].batch in q.batches
  }

  /** Inheriting keeps every row, and adds one copy, owned by the target, of each source response
      with a text or a file that the target does not have yet; nothing else is added. */
  lemma InheritExact(rows: seq<FieldResponse>, at: Attachments, q: Request, x: FieldResponse)
    ensures rows <= Inherit(rows, at, q)
    ensures multiset(Inherit(rows, at, q))[x] ==
              multiset(rows)[x]
              + if x !in rows && x.owner == q.target && GivenBySource(rows, at, q, x.key)
                   && (x.key.response != "" || (x.key.fileHash.Some? && x.key.fileHash.value != "")) then 1 else 0
  {
    assert GivenBySource(rows, at, q, x.key) <==> exists r :: r in rows && IsSource(at, q, r) && r.key == x.key;
    var found := Found(rows, at, q);
    CopiedExact(rows, found, |found|, q.target, x);
    FoundExact(rows, at, q, x.key);
    assert found[..|found|] == found;
  }

  /** The target has every non-empty response of the sources. */
  ghost predicate Complete(rows: seq<FieldResponse>, at: Attachments, q: Request) {
    forall r :: r in rows && IsSource(at, q, r) && NonEmpty(r.key) ==> FieldResponse(q.target, r.key) in rows
  }

  lemma InheritCompletes(rows: seq<FieldResponse>, at: Attachments, q: Request)
    requires Separate(at, q)
    ensures Complete(Inherit(rows, at, q), at, q)
  {
    var after := Inherit(rows, at, q);
    forall r | r in after && IsSource(at, q, r) && NonEmpty(r.key)
      ensures FieldResponse(q.target, r.key) in after
    {
      InheritExact(rows, at, q, r);
      assert multiset(after)[r] > 0 && r.owner != q.target;
      assert multiset(rows)[r] > 0 && r in rows;
      var copy := FieldResponse(q.target, r.key);
      InheritExact(rows, at, q, copy);
      assert copy in rows ==> multiset(rows)[copy] > 0;
      assert multiset(after)[copy] > 0;
    }
  }

  lemma {:induction false} CompleteStays(rows: seq<FieldResponse>, at: Attachments, q: Request)
    requires Complete(rows, at, q)
    ensures Inherit(rows, at, q) == rows
  {
    var found := Found(rows, at, q);
    FoundAreRows(rows, at, q);
    NothingToCopy(rows, found, |found|, q.target);
  }

  lemma {:induction false} FoundAreRows(rows: seq<FieldResponse>, at: Attachments, q: Request)
    ensures forall i :: 0 <= i < |Found(rows, at, q)| ==>
              Found(rows, at, q)[i] in rows && IsSource(at, q, Found(rows, at, q)[i])
  {
    if rows != [] {
      var front := rows[..|rows| - 1];
      FoundAreRows(front, at, q);
      assert rows == front + [rows[|rows| - 1]];
    }
  }

  lemma {:induction false} NothingToCopy(rows: seq<FieldResponse>, found: seq<FieldResponse>, n: nat, target: nat)
    requires n <= |found|
    requires forall i :: 0 <= i < |found| ==> NonEmpty(found[i].key) ==> FieldResponse(target, found[i].key) in rows
    ensures Copied(rows, found, n, target) == rows
  {
    if n > 0 {
      NothingToCopy(rows, found, n - 1, target);
    }
  }

  /** Rows added for one criterion are no source for another. */
  lemma CompleteSurvives(rows: seq<FieldResponse>, at: Attachments, q: Request, other: Request)
    requires Complete(rows, at, q)
    requires other.target in at ==> at[other.target].batch !in q.batches
    ensures Complete(Inherit(rows, at, other), at, q)
  {
    var after := Inherit(rows, at, other);
    forall r | r in after && IsSource(at, q, r) && NonEmpty(r.key)
      ensures FieldResponse(q.target, r.key) in after
    {
      InheritExact(rows, at, other, r);
      assert multiset(after)[r] > 0;
      assert multiset(rows)[r] > 0 && r in rows;
      var copy := FieldResponse(q.target, r.key);
      assert copy in rows;
    }
  }

  ghost predicate AllSeparate(at: Attachments, qs: seq<Request>) {
    forall i, j :: 0 <= i < |qs| && 0 <= j < |qs| ==>
      (qs[i].target in at ==> at[qs[i].target].batch !in qs[j].batches)
  }

  lemma {:induction false} InheritAllCompletes(rows: seq<FieldResponse>, at: Attachments, qs: seq<Request>, n: nat)
    requires n <= |qs| && AllSeparate(at, qs)
    ensures forall j :: 0 <= j < n ==> Complete(InheritAll(rows, at, qs, n), at, qs[j])
  {
    if n > 0 {
      InheritAllCompletes(rows, at, qs, n - 1);
      var before := InheritAll(rows, at, qs, n - 1);
      InheritCompletes(before, at, qs[n - 1]);
      forall j | 0 <= j < n - 1 ensures Complete(InheritAll(rows, at, qs, n), at, qs[j]) {
        CompleteSurvives(before, at, qs[j], qs[n - 1]);
      }
    }
  }

  /** Inheriting a second time, for all criteria of a claim, adds no response. */
  lemma InheritAllIsIdempotent(rows: seq<FieldResponse>, at: Attachments, qs: seq<Request>)
    requires AllSeparate(at, qs)
    ensures var after := InheritAll(rows, at, qs, |qs|);
            InheritAll(after, at, qs, |qs|) == after
  {
    InheritAllCompletes(rows, at, qs, |qs|);
    InheritAllStays(InheritAll(rows, at, qs, |qs|), at, qs, |qs|);
  }

  lemma {:induction false} InheritAllStays(rows: seq<FieldResponse>, at: Attachments, qs: seq<Request>, n: nat)
    requires n <= |qs|
    requires forall j :: 0 <= j < |qs| ==> Complete(rows, at, qs[j])
    ensures InheritAll(rows, at, qs, n) == rows
  {
    if n > 0 {
      InheritAllStays(rows, at, qs, n - 1);
      CompleteStays(rows, at, qs[n - 1]);
    }
  }
}
