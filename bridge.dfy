/**
 * The bridge session: local storage behind the wrapped primitives, the
 * installed-once and suppression flags, the watched key set and the log of
 * remote calls issued so far. Remote calls are fire-and-forget, so the log
 * records each request as it is sent; what the relay answers is not observed.
 */
module Sync {
  import opened Wrappers
  import opened Json
  import opened Wire
  import opened LocalStore
  import opened Interceptor
  import opened Reconcile
  import opened AutoPull

  class Bridge {
    /** The injected configuration, read once when the bridge is set up. */
    const cfg: Option<Config>
    /** The host's `JSON.parse` and `JSON.stringify`. */
    const parse: Parser
    const encode: Encoder

    /** Local storage. */
    var storage: Store
    /** Remote upserts and deletes issued, oldest first. */
    var outbox: seq<RemoteCall>
    /** The suppression flag: set only while remote rows are written into local storage. */
    var applying: bool
    /** Whether the storage primitives have been wrapped. */
    var hooked: bool
    /** The watched key set fixed by the first installation. */
    var watch: set<string>

    /** Outside an apply the suppression flag is off, and nothing is watched before installation. */
    ghost predicate Valid()
      reads this
    {
      !applying && (!hooked ==> watch == {})
    }

    /** What the wrapped primitives consult right now. */
    function CurrentGate(): (g: Gate)
      reads this
      ensures g.configured == IsConfigured(cfg) && g.hooked == hooked
      ensures g.applying == applying && g.watch == watch
    {
      Gate(IsConfigured(cfg), hooked, applying, watch)
    }

    constructor (cfg: Option<Config>, parse: Parser, encode: Encoder, initial: Store)
      ensures Valid()
      ensures this.cfg == cfg && this.parse == parse && this.encode == encode
      ensures storage == initial && outbox == [] && !hooked
    {
      this.cfg := cfg;
      this.parse := parse;
      this.encode := encode;
      storage := initial;
      outbox := [];
      applying := false;
      hooked := false;
      watch := {};
    }

    /** `upsert(key, value)`: one upsert request, or nothing when the bridge is not configured. */
    method Upsert(key: string, value: Value)
      modifies this`outbox
      ensures outbox == old(outbox) + (if IsConfigured(cfg) then [UpsertRow(key, value)] else [])
    {
      if !IsConfigured(cfg) {
        return;
      }
      outbox := outbox + [UpsertRow(key, value)];
    }

    /** `delRemote(key)`: one delete request, or nothing when the bridge is not configured. */
    method DelRemote(key: string)
      modifies this`outbox
      ensures outbox == old(outbox) + (if IsConfigured(cfg) then [DeleteRow(key)] else [])
    {
      if !IsConfigured(cfg) {
        return;
      }
      outbox := outbox + [DeleteRow(key)];
    }

    /**
     * `fetchMany(keys)`, given what the relay answers: unconfigured, it sends
     * nothing and resolves to no rows; configured, it sends the read request for
     * the quote-stripped key list and resolves to the answer.
     */
    method FetchMany(keys: seq<string>, answer: FetchResult) returns (request: Option<ReadRequest>, result: FetchResult)
      ensures request == FetchRequest(cfg, keys)
      ensures !IsConfigured(cfg) ==> result == Fetched([])
      ensures IsConfigured(cfg) ==> result == answer
    {
      if !IsConfigured(cfg) {
        return None, Fetched([]);
      }
      request := FetchRequest(cfg, keys);
      result := answer;
    }

    /**
     * `hookLocalStorage(keys)`: the first call installs the wrappers and fixes
     * the watched set to `keys`, or to the default keys when none are given;
     * every later call changes nothing.
     */
    method HookLocalStorage(keys: seq<string>)
      modifies this`hooked, this`watch
      ensures hooked
      ensures old(hooked) ==> watch == old(watch)
      ensures !old(hooked) ==> watch == set k | k in KeyList(keys)
      ensures old(Valid()) ==> Valid()
    {
      if hooked {
        return;
      }
      watch := set k | k in KeyList(keys);
      hooked := true;
    }

    /**
     * `localStorage.setItem(k, v)`: the storage write always happens as unwrapped;
     * a mirrored key then gets one upsert of the decoded text, or of the raw
     * text when it is not JSON.
     */
    method SetItem(k: string, v: string)
      modifies this`storage, this`outbox
      ensures storage == After(old(storage), SetOp(k, v))
      ensures outbox == old(outbox) + Outbound(CurrentGate(), parse, SetOp(k, v))
    {
      storage := storage[k := v];
      if !hooked || applying || k !in watch {
        return;
      }
      Upsert(k, PushedValue(parse, v));
    }

    /** `localStorage.removeItem(k)`: the removal always happens; a mirrored key then gets one delete. */
    method RemoveItem(k: string)
      modifies this`storage, this`outbox
      ensures storage == After(old(storage), RemoveOp(k))
      ensures outbox == old(outbox) + Outbound(CurrentGate(), parse, RemoveOp(k))
    {
      storage := storage - {k};
      if !hooked || applying || k !in watch {
        return;
      }
      DelRemote(k);
    }

    /** `localStorage.clear()`: empties local storage and never touches the relay. */
    method Clear()
      modifies this`storage
      ensures storage == After(old(storage), ClearOp)
      ensures outbox == old(outbox) + Outbound(CurrentGate(), parse, ClearOp)
    {
      storage := map[];
    }

    /**
     * `applyRemoteToLocal(keys)`, given the relay's answer and the rows whose
     * local write fails. A configured bridge sends the read request for `keys`.
     * When rows come back, each is written in order with the suppression flag
     * on, so no remote call is issued, and the flag is off again afterwards.
     */
    method ApplyRemoteToLocal(keys: seq<string>, answer: FetchResult, failed: set<nat>)
      returns (request: Option<ReadRequest>, outcome: PullOutcome)
      modifies this`storage, this`outbox, this`applying
      ensures request == FetchRequest(cfg, keys)
      ensures outcome == ApplyOutcome(IsConfigured(cfg), answer)
      ensures outcome == Returned(true) ==> storage == ApplyRows(old(storage), answer.rows, failed, encode)
      ensures outcome != Returned(true) ==> storage == old(storage)
      ensures outbox == old(outbox)
      ensures outcome == Returned(true) ==> !applying
      ensures outcome != Returned(true) ==> applying == old(applying)
      ensures old(Valid()) ==> Valid()
    {
      if !IsConfigured(cfg) {
        return None, Returned(false);
      }
      var fetched;
      request, fetched := FetchMany(keys, answer);
      outcome := ApplyFetched(fetched, failed);
    }

    /** The part of an apply after the fetch has resolved, for a configured bridge. */
    method ApplyFetched(fetched: FetchResult, failed: set<nat>) returns (outcome: PullOutcome)
      requires IsConfigured(cfg)
      modifies this`storage, this`outbox, this`applying
      ensures outcome == ApplyOutcome(true, fetched)
      ensures outcome == Returned(true) ==> storage == ApplyRows(old(storage), fetched.rows, failed, encode)
      ensures outcome != Returned(true) ==> storage == old(storage)
      ensures outbox == old(outbox)
      ensures outcome == Returned(true) ==> !applying
      ensures outcome != Returned(true) ==> applying == old(applying)
      ensures old(Valid()) ==> Valid()
    {
      if fetched.FetchFailed? {
        return Threw;
      }
      var rows := fetched.rows;
      if |rows| == 0 {
        return Returned(false);
      }
      applying := true;
      WriteRows(rows, failed);
      applying := false;
      outcome := Returned(true);
    }

    /** The `forEach` of an apply: every row written in order, a failing write skipped. */
    method WriteRows(rows: seq<Row>, failed: set<nat>)
      requires applying
      modifies this`storage, this`outbox
      ensures storage == ApplyRows(old(storage), rows, failed, encode)
      ensures outbox == old(outbox)
    {
      var i: nat := 0;
      while i < |rows|
        invariant i <= |rows|
        invariant storage == ApplyRows(old(storage), rows[..i], failed, encode)
        invariant outbox == old(outbox)
      {
        ghost var before := storage;
        if i !in failed {
          SetItem(rows[i].key, RowText(encode, rows[i]));
          assert Outbound(CurrentGate(), parse, SetOp(rows[i].key, RowText(encode, rows[i]))) == [];
          assert storage == before[rows[i].key := RowText(encode, rows[i])];
        }
        assert rows[..i + 1][..i] == rows[..i];
        i := i + 1;
      }
      assert rows[..i] == rows;
    }

    /**
     * One pull of the schedule `startAutoPull` set up: apply, swallow a thrown
     * error, and report whether the schedule's `onPulled` was called. `opts` are
     * the options `startAutoPull` was given; a schedule exists only for a
     * configured bridge.
     */
    method DoPull(keys: seq<string>, ghost opts: Option<PullOptions>, s: Schedule, answer: FetchResult, failed: set<nat>)
      returns (notified: bool)
      requires StartAutoPull(cfg, opts) == Some(s)
      modifies this`storage, this`outbox, this`applying
      ensures notified == Notifies(ApplyOutcome(IsConfigured(cfg), answer), s.onPulled)
      ensures ApplyOutcome(IsConfigured(cfg), answer) == Returned(true) ==>
                storage == ApplyRows(old(storage), answer.rows, failed, encode) && !applying
      ensures ApplyOutcome(IsConfigured(cfg), answer) != Returned(true) ==>
                storage == old(storage) && applying == old(applying)
      ensures outbox == old(outbox)
      ensures old(Valid()) ==> Valid()
    {
      var request, outcome := ApplyRemoteToLocal(keys, answer, failed);
      notified := Notifies(outcome, s.onPulled);
    }
  }
}
