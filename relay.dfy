/**
 * The relay as the bridge assumes it behaves: a table from key to value where
 * an upsert replaces the row for its key ("merge duplicates"), a delete drops
 * it, and a read returns the rows of the listed keys. It is only a model of the
 * collaborator, used to state the push-then-pull round trip.
 */
module Relay {
  import opened Wrappers
  import opened Json
  import opened Wire
  import opened LocalStore
  import opened Interceptor
  import opened Reconcile

  type Table = map<string, Value>

  /** The relay table after one remote call. */
  function Commit(t: Table, c: RemoteCall): (r: Table)
    ensures c.key in r <==> c.UpsertRow?
    ensures c.UpsertRow? ==> r[c.key] == c.value
    ensures forall j | j != c.key :: (j in r <==> j in t) && (j in t ==> r[j] == t[j])
  {
    match c
    case UpsertRow(k, v) => t[k := v]
    case DeleteRow(k) => t - {k}
  }

  /** The relay table after a sequence of remote calls, in order. */
  function CommitAll(t: Table, calls: seq<RemoteCall>): Table
    decreases |calls|
  {
    if |calls| == 0 then t else CommitAll(Commit(t, calls[0]), calls[1..])
  }

  /**
   * The rows a read of `keys` returns: one row per listed occurrence of a stored
   * key, in list order; missing keys give no row. A list without repeats gets
   * each stored row once; the bridge does not remove repeats.
   */
  function Select(t: Table, keys: seq<string>): (rows: seq<Row>)
    ensures |rows| <= |keys|
    ensures forall i | 0 <= i < |rows| :: rows[i].key in keys
    ensures forall i | 0 <= i < |rows| :: rows[i].key in t && rows[i].value == Some(t[rows[i].key])
    ensures forall k | k in keys && k in t :: Row(k, Some(t[k]), "") in rows
    decreases |keys|
  {
    if |keys| == 0 then []
    else
      var k := keys[0];
      (if k in t then [Row(k, Some(t[k]), "")] else []) + Select(t, keys[1..])
  }

  /**
   * Writing `v` under a mirrored, quote-free key `k` and then pulling `k` back
   * (a read of `fetchMany`'s key list for `[k]`) leaves local storage holding
   * text that decodes to the value that was pushed: the decoded `v` when `v` is
   * JSON, otherwise the raw text as a JSON string.
   */
  lemma PushThenPull(g: Gate, parse: Parser, encode: Encoder, m: Store, t: Table, k: string, v: string)
    requires Mirrors(g, k)
    requires '"' !in k
    requires Inverse(parse, encode)
    ensures var t' := CommitAll(t, Outbound(g, parse, SetOp(k, v)));
            var m' := ApplyRows(After(m, SetOp(k, v)), Select(t', FetchKeys([k])), {}, encode);
            && k in m'
            && parse(m'[k]) == Some(PushedValue(parse, v))
            && (parse(v).Some? ==> parse(m'[k]) == parse(v))
            && (parse(v).None? ==> m'[k] == encode(Str(v)))
  {
  }

  /**
   * A watched key holding a `"` is pushed under its own name but read back
 * under the name with the quote removed: on a relay holding no row `ab`, the
   * pull of `a"b` gets no row, so the apply returns false and stores nothing.
   */
  lemma QuotedKeyNotPulledBack(g: Gate, parse: Parser, t: Table, v: string)
    requires Mirrors(g, "a\"b")
    requires "ab" !in t
    ensures FetchKeys(["a\"b"]) == ["ab"]
    ensures var t' := CommitAll(t, Outbound(g, parse, SetOp("a\"b", v)));
            && "a\"b" in t'
            && Select(t', FetchKeys(["a\"b"])) == []
            && ApplyOutcome(true, Fetched(Select(t', FetchKeys(["a\"b"])))) == Returned(false)
  {
    var k := "a\"b";
    QuotedKeyFetchedAs();
    var calls := Outbound(g, parse, SetOp(k, v));
    assert calls == [UpsertRow(k, PushedValue(parse, v))];
    assert calls[1..] == [];
    var t' := CommitAll(t, calls);
    assert t' == CommitAll(Commit(t, calls[0]), []) == t[k := PushedValue(parse, v)];
    assert Select(t', ["ab"]) == [] + Select(t', []);
  }

  /** `fetchMany(['a"b'])` asks for the key `ab`. */
  lemma QuotedKeyFetchedAs()
    ensures FetchKeys(["a\"b"]) == ["ab"]
  {
    var k := "a\"b";
    assert KeyList([k]) == [k];
    assert StripQuotes(k) == "ab" by {
      assert k[1..] == ['"'] + "b";
      assert StripQuotes("b") == "b";
    }
  }

  /** No read the bridge sends returns a row for a key containing `"`, whatever the relay holds. */
  lemma QuotedKeyNeverPulled(t: Table, keys: seq<string>, k: string)
    requires '"' in k
    ensures forall r | r in Select(t, FetchKeys(keys)) :: r.key != k
  {
  }

  /**
   * Hence a pull never rewrites or removes the local entry of a key containing
   * `"`: the store keeps that entry, or its absence, unchanged.
   */
  lemma QuotedKeyNeverRewritten(m: Store, t: Table, keys: seq<string>, failed: set<nat>, encode: Encoder, k: string)
    requires '"' in k
    ensures var r := ApplyRows(m, Select(t, FetchKeys(keys)), failed, encode);
      (k in r <==> k in m) && (k in m ==> r[k] == m[k])
  {
    var rows := Select(t, FetchKeys(keys));
    QuotedKeyNeverPulled(t, keys, k);
    forall i | 0 <= i < |rows| && i !in failed
      ensures rows[i].key != k
    {
      assert rows[i] in rows;
    }
    ApplyRowsUntouched(m, rows, failed, encode, k);
  }
}
