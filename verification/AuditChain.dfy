/**
 The global audit chain: the function that appends to it and the verifier
 that reads it back in pages of any size.
 */
module AuditChain {
  import opened Options
  import opened Bytes

  /** SHA-256; nothing is assumed about it unless a lemma says so. */
  type Sha = Bytes -> Bytes

  datatype Event = Event(sequence: int, eventType: Bytes, payload: Bytes, payloadDigest: Bytes, previousHash: Bytes,
      eventHash: Bytes)

  datatype Head = Head(lastSequence: int, lastHash: Bytes)

  /** The rows in order of their distinct sequences. */
  datatype Store = Store(head: Option<Head>, rows: seq<Event>)

  datatype Verdict =
    | Valid(eventCount: nat, lastSequence: int, lastHash: Bytes)
    | PageSizeInvalid | HeadMissing | SequenceGap(sequence: int) | DigestInvalid(sequence: int) | HeadMismatch

  const GENESIS_HASH: Bytes := Zeros(32)

  /** previous hash, 8-byte sequence, event type, payload digest. */
  function HashInput(previous: Bytes, sequence: int, eventType: Bytes, payloadDigest: Bytes): Bytes {
    previous + BigEndian(sequence, 8) + eventType + payloadDigest
  }

  predicate Sorted(rows: seq<Event>) {
    forall i, j :: 0 <= i < j < |rows| ==> rows[i].sequence < rows[j].sequence
  }

  // ---------------------------------------------------------------------------
  // One pass over the chain
  // ---------------------------------------------------------------------------

  /** The first thing wrong with a row, given what came before it. */
  function CheckRow(e: Event, previous: Bytes, expected: int, sha: Sha): Option<Verdict> {
    if e.sequence != expected then Some(SequenceGap(expected))
    else if e.previousHash != previous then Some(DigestInvalid(expected))
    else if sha(e.payload) != e.payloadDigest then Some(DigestInvalid(expected))
    else if sha(HashInput(previous, e.sequence, e.eventType, e.payloadDigest)) != e.eventHash
       then Some(DigestInvalid(expected))
    else None
  }

  function SinglePass(rows: seq<Event>, previous: Bytes, expected: int, count: nat, head: Head, sha: Sha): Verdict {
    if rows == [] then
      if head.lastSequence != expected - 1 || head.lastHash != previous then HeadMismatch
      else Valid(count, expected - 1, previous)
    else
      var wrong := CheckRow(rows[0], previous, expected, sha);
      if wrong.Some? then wrong.value
      else SinglePass(rows[1..], rows[0].eventHash, expected + 1, count + 1, head, sha)
  }

  /** Rows below sequence 1 are never read. */
  function VerifyChain(store: Store, sha: Sha): Verdict {
    if store.head.None? then HeadMissing
    else SinglePass(FromSequence(store.rows, 1), GENESIS_HASH, 1, 0, store.head.value, sha)
  }

  // ---------------------------------------------------------------------------
  // The paged verifier
  // ---------------------------------------------------------------------------

  /** WHERE chain_sequence >= from ORDER BY chain_sequence. */
  function FromSequence(rows: seq<Event>, from: int): seq<Event> {
    if rows == [] then []
    else if rows[0].sequence >= from then rows
    else FromSequence(rows[1..], from)
  }

  function Page(rows: seq<Event>, from: int, limit: nat): seq<Event> {
    var found := FromSequence(rows, from);
    if |found| <= limit then found else found[..limit]
  }

  lemma {:induction false} FromSequenceIsSuffix(rows: seq<Event>, from: int) returns (k: nat)
    requires Sorted(rows)
    ensures k <= |rows| && FromSequence(rows, from) == rows[k..]
    ensures (forall i :: 0 <= i < k ==> rows[i].sequence < from)
        && forall i :: k <= i < |rows| ==> rows[i].sequence >= from
  {
    if rows == [] || rows[0].sequence >= from {
      k := 0;
    } else {
      var rest := FromSequenceIsSuffix(rows[1..], from);
      k := rest + 1;
      assert rows[1..][rest..] == rows[k..];
      forall i | 0 <= i < k ensures rows[i].sequence < from {
        if i > 0 { assert rows[i] == rows[1..][i - 1]; }
      }
      forall i | k <= i < |rows| ensures rows[i].sequence >= from { assert rows[i] == rows[1..][i - 1]; }
    }
  }

  lemma FromSequenceAt(rows: seq<Event>, from: int, k: nat)
    requires Sorted(rows) && k <= |rows|
    requires (forall i :: 0 <= i < k ==> rows[i].sequence < from)
        && forall i :: k <= i < |rows| ==> rows[i].sequence >= from
    ensures FromSequence(rows, from) == rows[k..]
  {
    var j := FromSequenceIsSuffix(rows, from);
    assert j < |rows| ==> rows[j].sequence >= from;
    assert k < |rows| ==> rows[k].sequence >= from;
  }

  lemma FromSequenceAfter(rows: seq<Event>, from: int, k: nat)
    requires Sorted(rows) && 0 < k <= |rows| && rows[k - 1].sequence == from - 1
    ensures FromSequence(rows, from) == rows[k..]
  {
    forall i | 0 <= i < k ensures rows[i].sequence < from {
      assert i < k - 1 ==> rows[i].sequence < rows[k - 1].sequence;
    }
    forall i | k <= i < |rows| ensures rows[i].sequence >= from { assert rows[k - 1].sequence < rows[i].sequence; }
    FromSequenceAt(rows, from, k);
  }

  /** One row, checked in the verifier's order; without an error the hash carried on is the row's own. */
  method VerifyRow(
      event: Event, previous: Bytes, expected: int, sha: Sha) returns (wrong: Option<Verdict>, calculated: Bytes)
    ensures wrong == CheckRow(event, previous, expected, sha)
    ensures wrong.None? ==> calculated == event.eventHash && event.sequence == expected
  {
    calculated := previous;
    var sequence := event.sequence;
    if sequence != expected { return Some(SequenceGap(expected)), previous; }
    if event.previousHash != previous { return Some(DigestInvalid(sequence)), previous; }
    var payloadDigest := sha(event.payload);
    if payloadDigest != event.payloadDigest { return Some(DigestInvalid(sequence)), previous; }
    calculated := sha(previous + BigEndian(sequence, 8) + event.eventType + payloadDigest);
    wrong := if calculated != event.eventHash then Some(DigestInvalid(sequence)) else None;
  }

  lemma SinglePassCons(e: Event, rest: seq<Event>, previous: Bytes, expected: int, count: nat, head: Head, sha: Sha)
    ensures var wrong := CheckRow(e, previous, expected, sha);
            SinglePass([e] + rest, previous, expected, count, head, sha)
            == if wrong.Some? then wrong.value else SinglePass(rest, e.eventHash, expected + 1, count + 1, head, sha)
  {
    assert ([e] + rest)[1..] == rest;
  }

  lemma SuffixCons(page: seq<Event>, n: nat, rest: seq<Event>) returns (next: seq<Event>)
    requires n < |page|
    ensures next == page[n + 1..] + rest && page[n..] + rest == [page[n]] + next
  {
    next := page[n + 1..] + rest;
  }

  /** The inner loop.  `rest` stands for the rows after the page. */
  method VerifyPage(
      page: seq<Event>, previousHash: Bytes, firstExpected: int, count: nat, sha: Sha, ghost rest: seq<Event>,
      ghost head: Head)
    returns (wrong: Option<Verdict>, previous: Bytes, expected: int, eventCount: nat)
    ensures wrong.Some? ==> wrong.value == SinglePass(page + rest, previousHash, firstExpected, count, head, sha)
    ensures wrong.None? ==> && SinglePass(page + rest, previousHash, firstExpected, count, head, sha)
                               == SinglePass(rest, previous, expected, eventCount, head, sha)
                            && expected == firstExpected + |page|
                            && forall i :: 0 <= i < |page| ==> page[i].sequence == firstExpected + i
  {
    previous, expected, eventCount := previousHash, firstExpected, count;
    wrong := None;
    ghost var todo := page + rest;
    assert page[0..] == page;
    ghost var verdict := SinglePass(todo, previousHash, firstExpected, count, head, sha);
    for n := 0 to |page|
      invariant expected == firstExpected + n
      invariant forall i :: 0 <= i < n ==> page[i].sequence == firstExpected + i
      invariant wrong.None? && todo == page[n..] + rest
      invariant verdict == SinglePass(todo, previous, expected, eventCount, head, sha)
    {
      todo := SuffixCons(page, n, rest);
      SinglePassCons(page[n], todo, previous, expected, eventCount, head, sha);
      wrong, previous := VerifyRow(page[n], previous, expected, sha);
      if wrong.Some? { return; }
      expected := expected + 1;
      eventCount := eventCount + 1;
    }
    assert page[|page|..] + rest == rest;
  }

  /** A page is the front of what is left; a short one is all of it. */
  lemma PageIsFront(rows: seq<Event>, expected: int, limit: nat) returns (rest: seq<Event>)
    requires limit > 0
    ensures var page := Page(rows, expected, limit);
            && FromSequence(rows, expected) == page + rest
            && (|page| < limit ==> rest == [])
  {
    var found := FromSequence(rows, expected);
    rest := found[|Page(rows, expected, limit)|..];
  }

  /** After a page whose sequences had no gap, the next query finds exactly the rest. */
  lemma NextQuery(rows: seq<Event>, expected: int, page: seq<Event>, rest: seq<Event>, next: int)
    requires Sorted(rows) && FromSequence(rows, expected) == page + rest && page != []
    requires page[|page| - 1].sequence == next - 1
    ensures FromSequence(rows, next) == rest
  {
    var k := FromSequenceIsSuffix(rows, expected);
    assert rows[k..] == page + rest;
    assert rows[k + |page| - 1] == (page + rest)[|page| - 1];
    FromSequenceAfter(rows, next, k + |page|);
    assert rows[k + |page|..] == rows[k..][|page|..] == rest;
  }

  /** Whatever the page size, the verdict is that of the single pass. */
  method VerifyAuditChainClient(store: Store, pageSize: int, sha: Sha) returns (verdict: Verdict)
    requires Sorted(store.rows)
    ensures verdict == if 1 <= pageSize <= 10000 then VerifyChain(store, sha) else PageSizeInvalid
  {
    if pageSize < 1 || pageSize > 10000 { return PageSizeInvalid; }
    if store.head.None? { return HeadMissing; }
    var head := store.head.value;
    var previous, expected, eventCount := GENESIS_HASH, 1, 0;
    ghost var todo := FromSequence(store.rows, 1);
    ghost var answer := SinglePass(todo, previous, expected, eventCount, head, sha);
    while true
      invariant FromSequence(store.rows, expected) == todo
      invariant answer == SinglePass(todo, previous, expected, eventCount, head, sha)
      decreases |todo|
    {
      var page := Page(store.rows, expected, pageSize);
      ghost var rest := PageIsFront(store.rows, expected, pageSize);
      if |page| == 0 { break; }
      ghost var before := expected;
      var wrong;
      wrong, previous, expected, eventCount := VerifyPage(page, previous, expected, eventCount, sha, rest, head);
      if wrong.Some? { return wrong.value; }
      NextQuery(store.rows, before, page, rest, expected);
      todo := rest;
      if |page| < pageSize { break; }
    }
    assert todo == [];
    if head.lastSequence != expected - 1 || head.lastHash != previous { return HeadMismatch; }
    verdict := Valid(eventCount, expected - 1, previous);
  }

  // ---------------------------------------------------------------------------
  // What a valid verdict means
  // ---------------------------------------------------------------------------

  function HashBefore(rows: seq<Event>, i: nat, previous: Bytes): Bytes
    requires i <= |rows|
  {
    if i == 0 then previous else rows[i - 1].eventHash
  }

  predicate RowOk(rows: seq<Event>, i: nat, previous: Bytes, expected: int, sha: Sha)
    requires i < |rows|
  {
    var e := rows[i];
    && e.sequence == expected + i && e.previousHash == HashBefore(rows, i, previous)
    && e.payloadDigest == sha(e.payload)
    && e.eventHash == sha(HashInput(e.previousHash, e.sequence, e.eventType, e.payloadDigest))
  }

  /** Sequences without gaps, every digest recomputed, every row linked to the one before, and the head at the end. */
  predicate ChainOk(rows: seq<Event>, previous: Bytes, expected: int, head: Head, sha: Sha) {
    && (forall i :: 0 <= i < |rows| ==> RowOk(rows, i, previous, expected, sha))
    && head.lastSequence == expected - 1 + |rows| && head.lastHash == HashBefore(rows, |rows|, previous)
  }

  lemma RowOkShift(rows: seq<Event>, i: nat, previous: Bytes, expected: int, sha: Sha)
    requires 0 < i < |rows|
    ensures RowOk(rows, i, previous, expected, sha) <==> RowOk(rows[1..], i - 1, rows[0].eventHash, expected + 1, sha)
  {
  }

  lemma ChainOkCons(rows: seq<Event>, previous: Bytes, expected: int, head: Head, sha: Sha)
    requires rows != []
    ensures ChainOk(rows, previous, expected, head, sha)
            <==> RowOk(rows, 0, previous, expected, sha)
                 && ChainOk(rows[1..], rows[0].eventHash, expected + 1, head, sha)
  {
    forall i | 0 < i < |rows|
      ensures RowOk(rows, i, previous, expected, sha) <==> RowOk(rows[1..], i - 1, rows[0].eventHash, expected + 1, sha)
    {
      RowOkShift(rows, i, previous, expected, sha);
    }
    if ChainOk(rows[1..], rows[0].eventHash, expected + 1, head, sha) && RowOk(rows, 0, previous, expected, sha) {
      forall i | 0 <= i < |rows| ensures RowOk(rows, i, previous, expected, sha) {
        if i > 0 { assert RowOk(rows[1..], i - 1, rows[0].eventHash, expected + 1, sha); }
      }
    }
    if ChainOk(rows, previous, expected, head, sha) {
      var tail, first, next := rows[1..], rows[0].eventHash, expected + 1;
      forall i | 0 <= i < |tail| ensures RowOk(tail, i, first, next, sha) {
        assert RowOk(rows, i + 1, previous, expected, sha);
      }
    }
  }

  /**
   The first row that is out of order or broken decides the verdict: a gap names the sequence that was expected, a
   wrong link or digest the row itself.
  */
  lemma {:induction false} FirstErrorIsNamed(
      rows: seq<Event>, previous: Bytes, expected: int, count: nat, head: Head, sha: Sha, k: nat)
    requires k < |rows| && !RowOk(rows, k, previous, expected, sha)
    requires forall i :: 0 <= i < k ==> RowOk(rows, i, previous, expected, sha)
    ensures SinglePass(rows, previous, expected, count, head, sha)
            == if rows[k].sequence != expected + k then SequenceGap(expected + k) else DigestInvalid(expected + k)
  {
    if k > 0 {
      assert RowOk(rows, 0, previous, expected, sha);
      RowOkShift(rows, k, previous, expected, sha);
      var tail, first, next := rows[1..], rows[0].eventHash, expected + 1;
      forall i | 0 <= i < k - 1 ensures RowOk(tail, i, first, next, sha) {
        RowOkShift(rows, i + 1, previous, expected, sha);
      }
      FirstErrorIsNamed(rows[1..], rows[0].eventHash, expected + 1, count + 1, head, sha, k - 1);
    }
  }

  /** Without such a row the head decides. */
  lemma {:induction false} HeadDecidesLast(
      rows: seq<Event>, previous: Bytes, expected: int, count: nat, head: Head, sha: Sha)
    requires forall i :: 0 <= i < |rows| ==> RowOk(rows, i, previous, expected, sha)
    requires !ChainOk(rows, previous, expected, head, sha)
    ensures SinglePass(rows, previous, expected, count, head, sha) == HeadMismatch
  {
    if rows != [] {
      assert RowOk(rows, 0, previous, expected, sha);
      var tail, first, next := rows[1..], rows[0].eventHash, expected + 1;
      forall i | 0 <= i < |rows| - 1 ensures RowOk(tail, i, first, next, sha) {
        RowOkShift(rows, i + 1, previous, expected, sha);
      }
      ChainOkCons(rows, previous, expected, head, sha);
      HeadDecidesLast(rows[1..], rows[0].eventHash, expected + 1, count + 1, head, sha);
    }
  }

  /** The pass accepts exactly the well-formed chains, and reports their length and head. */
  lemma {:induction false} SinglePassExactly(
      rows: seq<Event>, previous: Bytes, expected: int, count: nat, head: Head, sha: Sha)
    ensures SinglePass(rows, previous, expected, count, head, sha).Valid?
        <==> ChainOk(rows, previous, expected, head, sha)
    ensures ChainOk(rows, previous, expected, head, sha)
            ==> SinglePass(rows, previous, expected, count, head, sha)
                == Valid(count + |rows|, head.lastSequence, head.lastHash)
    decreases |rows|
  {
    if rows != [] {
      SinglePassExactly(rows[1..], rows[0].eventHash, expected + 1, count + 1, head, sha);
      ChainOkCons(rows, previous, expected, head, sha);
      assert rows[0].sequence == expected && rows[0].previousHash == previous
             && rows[0].payloadDigest == sha(rows[0].payload)
             ==> HashInput(previous, rows[0].sequence, rows[0].eventType, rows[0].payloadDigest)
                 == HashInput(rows[0].previousHash, rows[0].sequence, rows[0].eventType, rows[0].payloadDigest);
    }
  }

  // ---------------------------------------------------------------------------
  // The head determines the history
  // ---------------------------------------------------------------------------

  /** What is hashed: 32 bytes of the predecessor, 8 of the sequence, big-endian, the type, and the payload's digest. */
  lemma HashedBytesAre(previous: Bytes, sequence: nat, eventType: Bytes, payloadDigest: Bytes)
    requires |previous| == 32 && |payloadDigest| == 32 && sequence < Pow256(8)
    ensures var x := HashInput(previous, sequence, eventType, payloadDigest);
            && |x| == 72 + |eventType| && x[..32] == previous && Number256(x[32..40]) == sequence
            && x[40..40 + |eventType|] == eventType && x[40 + |eventType|..] == payloadDigest
  {
    var x := HashInput(previous, sequence, eventType, payloadDigest);
    assert x[32..40] == BigEndian(sequence, 8);
    BigEndianIs(sequence, 8);
    QuotientIsUnique(sequence, Pow256(8), 0, sequence);
  }

  /** The concatenation parses in one way only. */
  lemma HashInputParses(p1: Bytes, s1: nat, t1: Bytes, d1: Bytes, p2: Bytes, s2: nat, t2: Bytes, d2: Bytes)
    requires |p1| == |p2| == 32 && |d1| == |d2| == 32 && s1 < Pow256(8) && s2 < Pow256(8)
    requires HashInput(p1, s1, t1, d1) == HashInput(p2, s2, t2, d2)
    ensures p1 == p2 && s1 == s2 && t1 == t2 && d1 == d2
  {
    var x, y := HashInput(p1, s1, t1, d1), HashInput(p2, s2, t2, d2);
    var b1, b2 := BigEndian(s1, 8), BigEndian(s2, 8);
    assert |t1| == |t2|;
    assert x[..32] == p1 && y[..32] == p2;
    assert x[32..40] == b1 && y[32..40] == b2;
    assert x[40..40 + |t1|] == t1 && y[40..40 + |t2|] == t2;
    assert x[40 + |t1|..] == d1 && y[40 + |t2|..] == d2;
    BigEndianInjective(s1, s2, 8);
  }

  /** Two strings the stores hash at the same place collide only if they are equal. */
  predicate NoCollision(a: Event, b: Event, sha: Sha) {
    && (sha(a.payload) == sha(b.payload) ==> a.payload == b.payload)
    && var x := HashInput(a.previousHash, a.sequence, a.eventType, a.payloadDigest);
       var y := HashInput(b.previousHash, b.sequence, b.eventType, b.payloadDigest);
       (sha(x) == sha(y) ==> x == y)
  }

  /** Equal hashes at one place force equal rows there and at every earlier place. */
  lemma {:induction false} HistoryAgrees(a: seq<Event>, b: seq<Event>, n: nat, sha: Sha)
    requires n <= |a| && n <= |b| && n < Pow256(8) && HashBefore(a, n, GENESIS_HASH) == HashBefore(b, n, GENESIS_HASH)
    requires forall i :: 0 <= i < n ==> RowOk(a, i, GENESIS_HASH, 1, sha) && RowOk(b, i, GENESIS_HASH, 1, sha)
    requires forall i :: 0 <= i < n ==> NoCollision(a[i], b[i], sha)
    requires forall x :: |sha(x)| == 32
    ensures forall i :: 0 <= i < n ==> a[i] == b[i]
    decreases n
  {
    if n > 0 {
      var x, y := a[n - 1], b[n - 1];
      assert RowOk(a, n - 1, GENESIS_HASH, 1, sha) && RowOk(b, n - 1, GENESIS_HASH, 1, sha);
      assert NoCollision(x, y, sha);
      HashLengths(a, n - 1, sha);
      HashLengths(b, n - 1, sha);
      HashInputParses(x.previousHash, x.sequence, x.eventType, x.payloadDigest, y.previousHash, y.sequence, y.eventType,
          y.payloadDigest);
      HistoryAgrees(a, b, n - 1, sha);
    }
  }

  lemma HashLengths(rows: seq<Event>, i: nat, sha: Sha)
    requires i < |rows| && forall k :: 0 <= k <= i ==> RowOk(rows, k, GENESIS_HASH, 1, sha)
    requires forall x :: |sha(x)| == 32
    ensures |rows[i].previousHash| == 32 && |rows[i].payloadDigest| == 32
  {
    assert RowOk(rows, i, GENESIS_HASH, 1, sha);
    if i > 0 {
      assert RowOk(rows, i - 1, GENESIS_HASH, 1, sha);
    }
  }

  /**
   Two stores that both verify with the same head have the same events, types
   and payload bytes at every sequence, unless two of the strings they hash at
   one place collide.
   */
  lemma HeadBindsHistory(a: Store, b: Store, sha: Sha)
    requires VerifyChain(a, sha).Valid? && VerifyChain(b, sha).Valid? && a.head == b.head
    requires forall x :: |sha(x)| == 32
    requires |FromSequence(a.rows, 1)| < Pow256(8)
    requires var ra, rb := FromSequence(a.rows, 1), FromSequence(b.rows, 1);
             forall i :: 0 <= i < |ra| && i < |rb| ==> NoCollision(ra[i], rb[i], sha)
    ensures FromSequence(a.rows, 1) == FromSequence(b.rows, 1)
  {
    var ra, rb := FromSequence(a.rows, 1), FromSequence(b.rows, 1);
    SinglePassExactly(ra, GENESIS_HASH, 1, 0, a.head.value, sha);
    SinglePassExactly(rb, GENESIS_HASH, 1, 0, b.head.value, sha);
    HistoryAgrees(ra, rb, |ra|, sha);
  }

  // ---------------------------------------------------------------------------
  // What the appending function writes
  // ---------------------------------------------------------------------------

  const EMPTY: Store := Store(Some(Head(0, GENESIS_HASH)), [])

  /** `append_audit_event`. */
  function Append(store: Store, eventType: Bytes, payload: Bytes, sha: Sha): Store
    requires store.head.Some?
  {
    var head := store.head.value;
    var sequence := head.lastSequence + 1;
    var eventHash := sha(HashInput(head.lastHash, sequence, eventType, sha(payload)));
    Store(Some(Head(sequence, eventHash)),
          store.rows + [Event(sequence, eventType, payload, sha(payload), head.lastHash, eventHash)])
  }

  /** One event is added under the next sequence, linked to the head, which moves on to it. */
  lemma AppendWritesExactly(store: Store, eventType: Bytes, payload: Bytes, sha: Sha)
    requires store.head.Some?
    ensures var t := Append(store, eventType, payload, sha);
            var n := |store.rows|;
            && t.head.Some? && |t.rows| == n + 1 && t.rows[..n] == store.rows
            && t.rows[n].sequence == store.head.value.lastSequence + 1 && t.rows[n].eventType == eventType
            && t.rows[n].payload == payload && t.rows[n].payloadDigest == sha(payload)
            && t.rows[n].previousHash == store.head.value.lastHash
            && t.rows[n].eventHash
               == sha(HashInput(t.rows[n].previousHash, t.rows[n].sequence, eventType, sha(payload)))
            && t.head.value == Head(t.rows[n].sequence, t.rows[n].eventHash)
  {
  }

  function AppendAll(entries: seq<(Bytes, Bytes)>, sha: Sha): (r: Store)
    ensures r.head.Some?
    decreases |entries|
  {
    if entries == [] then EMPTY
    else
      var before := AppendAll(entries[..|entries| - 1], sha);
      var entry := entries[|entries| - 1];
      Append(before, entry.0, entry.1, sha)
  }

  lemma {:induction false} AppendAllIsChain(entries: seq<(Bytes, Bytes)>, sha: Sha)
    ensures var store := AppendAll(entries, sha);
            && |store.rows| == |entries| && ChainOk(store.rows, GENESIS_HASH, 1, store.head.value, sha)
    decreases |entries|
  {
    if entries != [] {
      AppendAllIsChain(entries[..|entries| - 1], sha);
      var before, after := AppendAll(entries[..|entries| - 1], sha), AppendAll(entries, sha);
      forall i | 0 <= i < |after.rows| ensures RowOk(after.rows, i, GENESIS_HASH, 1, sha) {
        if i < |before.rows| { assert RowOk(before.rows, i, GENESIS_HASH, 1, sha); }
      }
    }
  }

  /** The rows hold the entries, in their order. */
  lemma {:induction false} AppendedEntriesStay(entries: seq<(Bytes, Bytes)>, sha: Sha, i: nat)
    requires i < |entries|
    ensures var rows := AppendAll(entries, sha).rows;
            |rows| == |entries| && rows[i].eventType == entries[i].0 && rows[i].payload == entries[i].1
    decreases |entries|
  {
    AppendAllIsChain(entries, sha);
    var front := entries[..|entries| - 1];
    AppendAllIsChain(front, sha);
    if i < |entries| - 1 { AppendedEntriesStay(front, sha, i); }
  }

  /** Whatever was appended verifies, with every event counted. */
  lemma AppendedLogVerifies(entries: seq<(Bytes, Bytes)>, sha: Sha)
    ensures VerifyChain(AppendAll(entries, sha), sha).Valid?
        && VerifyChain(AppendAll(entries, sha), sha).eventCount == |entries|
  {
    var store := AppendAll(entries, sha);
    AppendAllIsChain(entries, sha);
    if store.rows != [] { assert RowOk(store.rows, 0, GENESIS_HASH, 1, sha); }
    assert FromSequence(store.rows, 1) == store.rows;
    SinglePassExactly(store.rows, GENESIS_HASH, 1, 0, store.head.value, sha);
  }
}
