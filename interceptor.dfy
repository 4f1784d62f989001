/**
 * The local store interceptor: which remote call, if any, a wrapped storage
 * primitive issues, given the state of the bridge at the time of the call.
 */
module Interceptor {
  import opened Json
  import opened Wire
  import opened LocalStore

  /**
   * What the wrappers consult: whether the availability gate is open (the
   * remote calls are silent no-ops otherwise), whether the hook is installed,
   * the suppression flag, and the watched key set.
   */
  datatype Gate = Gate(configured: bool, hooked: bool, applying: bool, watch: set<string>)

  /** A wrapped set or remove of `key` reaches the relay. */
  predicate Mirrors(g: Gate, key: string)
  {
    g.configured && g.hooked && !g.applying && key in g.watch
  }

  /** The value a wrapped set pushes: the decoded text, or the raw text when it is not JSON. */
  function PushedValue(parse: Parser, text: string): (x: Value)
    ensures parse(text).Some? ==> x == parse(text).value
    ensures parse(text).None? ==> x == Str(text)
  {
    match parse(text)
    case Some(v) => v
    case None => Str(text)
  }

  /** The remote calls one wrapped primitive issues. */
  function Outbound(g: Gate, parse: Parser, op: LocalOp): (r: seq<RemoteCall>)
    ensures |r| <= 1
    ensures op.ClearOp? ==> r == []
    ensures !op.ClearOp? ==> (|r| == 1 <==> Mirrors(g, op.key))
    ensures op.SetOp? && |r| == 1 ==> r[0] == UpsertRow(op.key, PushedValue(parse, op.text))
    ensures op.RemoveOp? && |r| == 1 ==> r[0] == DeleteRow(op.key)
  {
    match op
    case SetOp(k, v) => if Mirrors(g, k) then [UpsertRow(k, PushedValue(parse, v))] else []
    case RemoveOp(k) => if Mirrors(g, k) then [DeleteRow(k)] else []
    case ClearOp => []
  }

  /** The remote calls a run of wrapped primitives issues while the gate stays as it is. */
  function Trace(g: Gate, parse: Parser, ops: seq<LocalOp>): seq<RemoteCall>
    decreases |ops|
  {
    if |ops| == 0 then [] else Trace(g, parse, ops[..|ops| - 1]) + Outbound(g, parse, ops[|ops| - 1])
  }

  /** The number of set and remove calls in `ops` on a key the gate mirrors. */
  function MirroredCount(g: Gate, ops: seq<LocalOp>): nat
    decreases |ops|
  {
    if |ops| == 0 then 0
    else
      var op := ops[|ops| - 1];
      MirroredCount(g, ops[..|ops| - 1]) + (if !op.ClearOp? && Mirrors(g, op.key) then 1 else 0)
  }

  /** Every remote call of a run names a watched key: unwatched keys never reach the relay. */
  lemma {:induction false} TraceOnlyWatched(g: Gate, parse: Parser, ops: seq<LocalOp>)
    ensures forall c | c in Trace(g, parse, ops) :: c.key in g.watch
    decreases |ops|
  {
    if |ops| > 0 {
      TraceOnlyWatched(g, parse, ops[..|ops| - 1]);
    }
  }

  /** A run issues exactly one remote call per set or remove of a mirrored key, and none for clears. */
  lemma {:induction false} TraceLength(g: Gate, parse: Parser, ops: seq<LocalOp>)
    ensures |Trace(g, parse, ops)| == MirroredCount(g, ops)
    decreases |ops|
  {
    if |ops| > 0 {
      TraceLength(g, parse, ops[..|ops| - 1]);
    }
  }

  /** While the suppression flag is set, or before the hook is installed, nothing is mirrored. */
  lemma {:induction false} TraceSilent(g: Gate, parse: Parser, ops: seq<LocalOp>)
    requires g.applying || !g.hooked || !g.configured
    ensures Trace(g, parse, ops) == []
    decreases |ops|
  {
    if |ops| > 0 {
      TraceSilent(g, parse, ops[..|ops| - 1]);
    }
  }

  /** A run of sets, removes and clears never issues a delete for a key it did not remove. */
  lemma {:induction false} TraceDeletesOnlyRemoved(g: Gate, parse: Parser, ops: seq<LocalOp>, k: string)
    requires forall i | 0 <= i < |ops| :: ops[i] != RemoveOp(k)
    ensures DeleteRow(k) !in Trace(g, parse, ops)
    decreases |ops|
  {
    if |ops| > 0 {
      TraceDeletesOnlyRemoved(g, parse, ops[..|ops| - 1], k);
    }
  }
}
