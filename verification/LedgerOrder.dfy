/** The drain goes by the ledger's order: a batch is the oldest unprocessed rows, and
    what one tick applies it applies in that order. */
module LedgerOrder {
  import opened LedgerDrain
  import opened Wrappers

  function Unprocessed(rows: seq<Row>): nat {
    if rows == [] then 0 else (if rows[0].processed then 0 else 1) + Unprocessed(rows[1..])
  }

  /** An unprocessed row is in the batch if and only if fewer than n unprocessed rows
      are older, and its place is their number. */
  lemma {:induction false} BatchIsOldest(rows: seq<Row>, n: nat, j: nat)
    requires j < |rows| && !rows[j].processed
    ensures
      var batch, older := FirstUnprocessed(rows, n), Unprocessed(rows[..j]);
      older < |batch| <==> older < n
    ensures
      var batch, older := FirstUnprocessed(rows, n), Unprocessed(rows[..j]);
      older < n ==> older < |batch| && batch[older] == rows[j]
    decreases |rows|
  {
    BatchLength(rows, n);
    if j > 0 {
      assert rows[..j][1..] == rows[1..][..j - 1];
      if rows[0].processed {
        BatchIsOldest(rows[1..], n, j - 1);
      } else if n > 0 {
        BatchIsOldest(rows[1..], n - 1, j - 1);
      }
    }
  }

  /** The batch is full unless there are no more unprocessed rows. */
  lemma {:induction false} BatchIsFull(rows: seq<Row>, n: nat)
    ensures |FirstUnprocessed(rows, n)| == if Unprocessed(rows) < n then Unprocessed(rows) else n
    decreases |rows|
  {
    if rows != [] && n > 0 { BatchIsFull(rows[1..], if rows[0].processed then n else n - 1); }
  }

  /** at says where in the batch each of the new successes stands, in order. */
  ghost predicate InOrder(batch: seq<Row>, before: seq<RowKey>, after: seq<RowKey>, at: seq<nat>) {
    && |after| == |before| + |at| && after[..|before|] == before
    && (forall i | 0 <= i < |at| :: at[i] < |batch| && after[|before| + i] == KeyOfRow(batch[at[i]]))
    && (forall i, j | 0 <= i < j < |at| :: at[i] < at[j])
  }

  lemma InOrderMore(batch: seq<Row>, before: seq<RowKey>, mid: seq<RowKey>, at: seq<nat>, last: Row)
    requires InOrder(batch, before, mid, at)
    ensures InOrder(batch + [last], before, mid, at)
    ensures InOrder(batch + [last], before, mid + [KeyOfRow(last)], at + [|batch|])
  {
    assert (mid + [KeyOfRow(last)])[..|before|] == mid[..|before|];
    var (b', a', m') := (batch + [last], at + [|batch|], mid + [KeyOfRow(last)]);
    forall i | 0 <= i < |a'| ensures a'[i] < |b'| && m'[|before| + i] == KeyOfRow(b'[a'[i]]) {
      if i < |at| { assert a'[i] == at[i]; }
    }
  }

  lemma {:induction false} HandledInOrder(c: Config, s: State, batch: seq<Row>, luck: seq<Luck>) returns (at: seq<nat>)
    requires |luck| >= |batch|
    ensures InOrder(batch, s.successes, HandledAll(c, s, batch, luck).successes, at)
    decreases |batch|
  {
    if batch == [] {
      at := [];
    } else {
      var n := |batch| - 1;
      at := HandledInOrder(c, s, batch[..n], luck);
      var mid := HandledAll(c, s, batch[..n], luck);
      InOrderMore(batch[..n], s.successes, mid.successes, at, batch[n]);
      assert batch == batch[..n] + [batch[n]];
      if HandledAll(c, s, batch, luck).successes != mid.successes { at := at + [n]; }
    }
  }

  /** One tick applies events of the oldest unprocessed rows, in ledger order, each row
      at most once. */
  lemma TickInOrder(c: Config, s: State, luck: seq<Luck>) returns (at: seq<nat>)
    requires |luck| >= c.batchSize
    ensures InOrder(FirstUnprocessed(s.rows, c.batchSize), s.successes, Ticked(c, s, luck).successes, at)
  {
    BatchLength(s.rows, c.batchSize);
    at := HandledInOrder(c, s, FirstUnprocessed(s.rows, c.batchSize), luck);
  }

  /** The interactions see the rows of a batch one after another, oldest first: of two
      rows the older is applied to the interactions before the younger. */
  lemma OlderFirst(c: Config, s: State, older: Row, younger: Row, luck: seq<Luck>)
    requires |luck| >= 2
    requires AttemptsOf(s.attempts, KeyOfRow(older)) < c.maxAttempts
    requires AttemptsOf(s.attempts, KeyOfRow(younger)) < c.maxAttempts && KeyOfRow(older) != KeyOfRow(younger)
    ensures HandledAll(c, s, [older, younger], luck).store
         == AppliedTo(AppliedTo(s.store, older, luck[0]), younger, luck[1])
  {
    assert [older, younger][..1] == [older] && [older][..0] == [];
    assert HandledAll(c, s, [older], luck) == Handled(c, s, older, luck[0]);
  }
}
