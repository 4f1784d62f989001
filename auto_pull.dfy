/** The decisions `startAutoPull` makes: the polling interval and when to call `onPulled`. */
module AutoPull {
  import opened Wrappers
  import opened Wire
  import opened Reconcile

  const DefaultIntervalMs: int := 5000

  /** What the `onPulled` option holds: nothing (or a falsy value), a function, or another truthy value. */
  datatype Callback = NoCallback | Function | NotAFunction

  /** The options object; `intervalMs` is `None` when left out. */
  datatype PullOptions = PullOptions(intervalMs: Option<int>, onPulled: Callback)

  /** The timer set up by a configured `startAutoPull`. */
  datatype Schedule = Schedule(intervalMs: int, onPulled: Callback)

  /** `(opts && opts.intervalMs) || 5000`: the given interval when it is truthy, 5000 otherwise. */
  function IntervalMs(opts: Option<PullOptions>): (r: int)
    ensures r != 0
    ensures opts.Some? && opts.value.intervalMs.Some? && opts.value.intervalMs.value != 0
            ==> r == opts.value.intervalMs.value
    ensures opts.None? || opts.value.intervalMs.None? || opts.value.intervalMs == Some(0)
            ==> r == DefaultIntervalMs
  {
    match opts
    case None => DefaultIntervalMs
    case Some(o) =>
      match o.intervalMs
      case Some(ms) => if ms != 0 then ms else DefaultIntervalMs
      case None => DefaultIntervalMs
  }

  /** The `onPulled` option, `NoCallback` when there is no options object. */
  function OnPulled(opts: Option<PullOptions>): (cb: Callback)
    ensures opts.None? ==> cb == NoCallback
    ensures opts.Some? ==> cb == opts.value.onPulled
  {
    match opts
    case None => NoCallback
    case Some(o) => o.onPulled
  }

  /** `startAutoPull(keys, opts)`: no timer at all when unconfigured, otherwise this schedule. */
  function StartAutoPull(cfg: Option<Config>, opts: Option<PullOptions>): (s: Option<Schedule>)
    ensures s.None? <==> !IsConfigured(cfg)
    ensures s.Some? ==> s.value.intervalMs == IntervalMs(opts) && s.value.onPulled == OnPulled(opts)
  {
    if IsConfigured(cfg) then Some(Schedule(IntervalMs(opts), OnPulled(opts))) else None
  }

  /** A pull calls `onPulled` only when it returned true and the option is a function. */
  function Notifies(outcome: PullOutcome, cb: Callback): (r: bool)
    ensures r <==> outcome == Returned(true) && cb == Function
  {
    outcome.Returned? && outcome.applied && cb.Function?
  }
}
