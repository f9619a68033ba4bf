/**
 * The ledger table as the app keeps it between interactions: an ordered list
 * of rows that starts empty, grows by one row per submitted transaction and
 * loses the row at a given position on a delete (app.py:86). The flat file the
 * app reads and rewrites around each change is this in-memory sequence.
 */
module LedgerStore {
  import opened Calculator

  /** The rows before position `i` followed by the rows after it. */
  function RemoveAt<T>(s: seq<T>, i: nat): (r: seq<T>)
    requires i < |s|
    ensures |r| == |s| - 1
    ensures forall j :: 0 <= j < i ==> r[j] == s[j]
    ensures forall j :: i <= j < |r| ==> r[j] == s[j + 1]
  {
    s[..i] + s[i + 1..]
  }

  /** Removing a row loses exactly that row and keeps every other one. */
  lemma RemoveAtMultiset<T>(s: seq<T>, i: nat)
    requires i < |s|
    ensures multiset(RemoveAt(s, i)) + multiset{s[i]} == multiset(s)
  {
    assert s == s[..i] + [s[i]] + s[i + 1..];
  }

  /** Deleting the only row leaves an empty ledger. */
  lemma RemoveOnly<T>(x: T)
    ensures RemoveAt([x], 0) == []
  {
  }

  class Ledger {
    /** The rows in insertion order; a row's position is its index. */
    var rows: seq<Record>

    /** Every row carries the profits derived from its own inputs. */
    ghost predicate Valid()
      reads this
    {
      forall r :: r in rows ==> Consistent(r)
    }

    /** A ledger with no file yet: no rows. */
    constructor ()
      ensures Valid()
      ensures rows == []
    {
      rows := [];
    }

    /**
     * Records a transaction: the derived row goes last and every earlier row
     * stays where it was.
     */
    method AddTransaction(date: Date, customer: string, inrPaid: real, usdReceived: real, realizedRate: real)
      requires Valid()
      modifies this
      ensures Valid()
      ensures rows == old(rows) + [NewRecord(date, customer, inrPaid, usdReceived, realizedRate)]
    {
      var row := NewRecord(date, customer, inrPaid, usdReceived, realizedRate);
      rows := rows + [row];
    }

    /**
     * Drops the row at position `i`. A position with no row raises before
     * anything is saved, so the ledger is then unchanged.
     */
    method DeleteAt(i: nat) returns (deleted: bool)
      requires Valid()
      modifies this
      ensures Valid()
      ensures deleted <==> i < |old(rows)|
      ensures deleted ==> rows == RemoveAt(old(rows), i)
      ensures deleted ==> multiset(rows) + multiset{old(rows)[i]} == multiset(old(rows))
      ensures !deleted ==> rows == old(rows)
    {
      if i < |rows| {
        RemoveAtMultiset(rows, i);
        rows := RemoveAt(rows, i);
        deleted := true;
      } else {
        deleted := false;
      }
    }
  }
}
