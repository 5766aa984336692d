/** Building a response of the consumer interface: it may raise, and it may remember, in the very
    cache that keeps the responses, the transactions behind the batch. */
module Responses {

  import opened Basics
  import opened Patterns
  import opened FileCache
  import opened KeyNames
  import opened CacheContents

  type PrimaryKey = s: string | IsId(s) witness "0"

  type LanguageCode = s: string | IsLanguageCode(s) witness "en"

  /** The transactions behind a batch, as they are looked up now, and what they are remembered by:
      its source transaction and the language the theme settles on. */
  datatype Memo = Memo(transaction: PrimaryKey, lan: LanguageCode, transactions: Payload)
  {
    function Key(): string {
      ParentTransactionsKey(transaction, lan).Text()
    }
  }

  /** What building comes to: refused at once, as when theme or batch are gone; or an answer from
      the transactions, if the response needs any, which may still fail. */
  datatype Building = Refused | Built(memo: Option<Memo>, answer: Option<Payload> -> Option<Payload>)
  {
    predicate Remembers() {
      Built? && memo.Some?
    }
  }

  /** What a serializer builds for a prefix (which picks it), batch, theme and language. */
  type Responder = (string, string, string, string) -> Building

  function PayloadOf(v: Value): Payload {
    if v.Data? then v.payload else 0
  }

  /** The transactions as remembered, or else as looked up. */
  function Recalled(st: Store, m: Memo): Payload {
    if m.Key() in st then PayloadOf(st[m.Key()]) else m.transactions
  }

  /** The cache after building: transactions not remembered yet are now. */
  function AfterBuilding(st: Store, b: Building): Store {
    if b.Remembers() && b.memo.value.Key() !in st then SetKey(st, b.memo.value.Key(), Data(b.memo.value.transactions))
    else st
  }

  /** The response, or nothing if building raises. */
  function Answer(st: Store, b: Building): Option<Payload> {
    match b
    case Refused => None
    case Built(memo, answer) => answer(if memo.Some? then Some(Recalled(st, memo.value)) else None)
  }

  /** An index with one more key, unless it is listed. */
  function Added(index: seq<string>, key: string): seq<string> {
    if key in index then index else index + [key]
  }

  /** What transactions are remembered by. */
  lemma MemoKeyText(m: Memo)
    ensures m.Key() == m.transaction + "_parent_transactions_" + m.lan
  {
    assert "_parent_transactions_" == ['_'] + "parent_transactions_";
  }

  lemma MemoKeyIsProper(m: Memo)
    ensures OneLine(m.Key()) && m.Key() != INDEX_KEY
  {
    KeysInUseAreProper(ParentTransactionsKey(m.transaction, m.lan));
  }

  /** Memory keys start with a digit, unlike those of responses. */
  lemma MemoKeyIsNoResponse(m: Memo, prefix: string, rest: string)
    requires Served(prefix)
    ensures m.Key() != prefix + ['_'] + rest
  {
    ServedIsWord(prefix);
    assert m.Key()[0] == m.transaction[0];
    assert (prefix + ['_'] + rest)[0] == prefix[0];
    assert prefix[0] == 's' || prefix[0] == 'm' || prefix[0] == 'c';
  }

  /** What building does to the cache: it remembers at most one more key, leaves all values, and
      from then on gives the same answer. */
  lemma BuildingKeepsCache(st: Store, b: Building)
    requires Agrees(st)
    ensures
      var after := AfterBuilding(st, b);
      && Agrees(after)
      && IndexOf(after) == (if b.Remembers() then Added(IndexOf(st), b.memo.value.Key()) else IndexOf(st))
      && (forall k :: k in IndexOf(st) ==> k in after && after[k] == st[k])
      && (b.Remembers() ==> b.memo.value.Key() in after)
      && Answer(after, b) == Answer(st, b)
  {
    if b.Remembers() {
      MemoKeyIsProper(b.memo.value);
      if b.memo.value.Key() !in st {
        SetProperKey(st, b.memo.value.Key(), Data(b.memo.value.transactions));
      }
    }
  }

  /** The answer depends on the cache by the remembered transactions only. */
  lemma AnswerByMemory(st: Store, other: Store, b: Building)
    requires b.Remembers() ==> b.memo.value.Key() in st && b.memo.value.Key() in other
                               && other[b.memo.value.Key()] == st[b.memo.value.Key()]
    ensures Answer(other, b) == Answer(st, b)
  {}

  /** What building would come to with nothing remembered. */
  function Now(b: Building): Option<Payload> {
    match b
    case Refused => None
    case Built(memo, answer) => answer(if memo.Some? then Some(memo.value.transactions) else None)
  }

  /** The answer is the one for the transactions as they are now exactly when none were remembered,
      or it does not tell them from those that were. */
  lemma AnswerIsCurrentExactly(st: Store, b: Building)
    ensures Answer(st, b) == Now(b) <==>
            || !b.Remembers()
            || b.memo.value.Key() !in st
            || b.answer(Some(PayloadOf(st[b.memo.value.Key()]))) == b.answer(Some(b.memo.value.transactions))
  {}
}
