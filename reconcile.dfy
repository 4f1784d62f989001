/**
 * The reconciliation side: the rows the relay returns and what applying them
 * does to local storage, as specification functions for `Sync.Bridge`.
 */
module Reconcile {
  import opened Wrappers
  import opened Json
  import opened LocalStore

  /** A relay row as selected by the read request; a missing `value` is `None`. */
  datatype Row = Row(key: string, value: Option<Value>, updatedAt: string)

  /**
   * What `fetchMany` resolved to before `applyRemoteToLocal` looks at it: a rejected
   * request, or the JSON body (a `null` body is an empty list here).
   */
  datatype FetchResult = FetchFailed | Fetched(rows: seq<Row>)

  /** How a pull ended: it threw, or it returned whether any rows were applied. */
  datatype PullOutcome = Threw | Returned(applied: bool)

  /** The text a row is stored as: the encoding of its value, a missing or null value encoded as null. */
  function RowText(encode: Encoder, r: Row): (t: string)
    ensures r.value.None? ==> t == encode(Null)
    ensures r.value.Some? ==> t == encode(r.value.value)
  {
    encode(r.value.GetOr(Null))
  }

  /**
   * Local storage after writing each row in order; a write whose index is in
   * `failed` throws, is swallowed and leaves storage as it was.
   */
  function ApplyRows(m: Store, rows: seq<Row>, failed: set<nat>, encode: Encoder): (r: Store)
    ensures m.Keys <= r.Keys
    ensures forall i | 0 <= i < |rows| && i !in failed :: rows[i].key in r
    decreases |rows|
  {
    if |rows| == 0 then m
    else
      var i := |rows| - 1;
      var prev := ApplyRows(m, rows[..i], failed, encode);
      if i in failed then prev else prev[rows[i].key := RowText(encode, rows[i])]
  }

  /** Applying adds exactly the keys of the rows whose write succeeded. */
  lemma {:induction false} ApplyRowsKeys(m: Store, rows: seq<Row>, failed: set<nat>, encode: Encoder)
    ensures ApplyRows(m, rows, failed, encode).Keys
         == m.Keys + (set i | 0 <= i < |rows| && i !in failed :: rows[i].key)
    decreases |rows|
  {
    if |rows| > 0 {
      var i := |rows| - 1;
      ApplyRowsKeys(m, rows[..i], failed, encode);
      var before := set j | 0 <= j < i && j !in failed :: rows[..i][j].key;
      var after := set j | 0 <= j < |rows| && j !in failed :: rows[j].key;
      forall x ensures x in after <==> x in before || (i !in failed && x == rows[i].key) {
        if x in after {
          var j :| 0 <= j < |rows| && j !in failed && rows[j].key == x;
          if j < i {
            assert rows[..i][j] == rows[j];
          }
        }
        if x in before {
          var j :| 0 <= j < i && j !in failed && rows[..i][j].key == x;
          assert rows[j].key == x;
        }
      }
    }
  }

  /** A key that no successful row names keeps its entry, or its absence. */
  lemma {:induction false} ApplyRowsUntouched(m: Store, rows: seq<Row>, failed: set<nat>, encode: Encoder, k: string)
    requires forall i | 0 <= i < |rows| && i !in failed :: rows[i].key != k
    ensures var r := ApplyRows(m, rows, failed, encode);
      (k in r <==> k in m) && (k in m ==> r[k] == m[k])
    decreases |rows|
  {
    if |rows| > 0 {
      var i := |rows| - 1;
      ApplyRowsUntouched(m, rows[..i], failed, encode, k);
    }
  }

  /** The last successful row for a key decides what that key holds afterwards. */
  lemma {:induction false} ApplyRowsLastWins(m: Store, rows: seq<Row>, failed: set<nat>, encode: Encoder, i: nat)
    requires i < |rows| && i !in failed
    requires forall j | i < j < |rows| && j !in failed :: rows[j].key != rows[i].key
    ensures var r := ApplyRows(m, rows, failed, encode);
      rows[i].key in r && r[rows[i].key] == RowText(encode, rows[i])
    decreases |rows|
  {
    var last := |rows| - 1;
    if i < last {
      assert rows[..last][i] == rows[i];
      ApplyRowsLastWins(m, rows[..last], failed, encode, i);
    }
  }

  /**
   * How `applyRemoteToLocal` ends, given whether the bridge is configured and what
   * the fetch gave: false when unconfigured or no rows came back, the fetch's
   * error when it failed, and true once rows were applied.
   */
  function ApplyOutcome(configured: bool, fetched: FetchResult): (r: PullOutcome)
    ensures r == Returned(true) <==> configured && fetched.Fetched? && |fetched.rows| > 0
    ensures r == Threw <==> configured && fetched.FetchFailed?
  {
    if !configured then Returned(false)
    else
      match fetched
      case FetchFailed => Threw
      case Fetched(rows) => Returned(|rows| > 0)
  }
}
