/**
 * `debounce` of src/function/debounce.ts as a one-slot state machine
 * with an explicit clock. The closure's `timer` is the pending slot: the
 * arguments and `this` of the call that set it and the time it fires.
 * Calling the debounced function clears the slot and fills it afresh;
 * `cancel` clears it; `Tick` moves the clock and, when the deadline is
 * reached, invokes `fn` (recorded in `calls`) and clears the slot.
 */
module Debounce {
  import opened Wrappers

  /** The second argument of `debounce`. */
  datatype DebounceArgument =
    | Omitted                       // `options = {}`
    | Options(delay: Option<int>)   // an options object
    | Primitive                     // a number or string: destructuring finds no `delay`

  const DefaultDelay := 500

  /** `const { delay = 500 } = options`. */
  function DelayOf(options: DebounceArgument): int
  {
    match options
    case Options(Some(d)) => d
    case _ => DefaultDelay
  }

  /**
   * The delay the Node.js timer applies: a delay below 1 or above
   * 2147483647 is set to 1 (the timers API of Node.js).
   */
  function TimerDelay(delay: int): (r: int)
    ensures 1 <= delay <= 0x7FFF_FFFF ==> r == delay
    ensures !(1 <= delay <= 0x7FFF_FFFF) ==> r == 1
  {
    if 1 <= delay <= 0x7FFF_FFFF then delay else 1
  }

  /** A scheduled call: `fn.apply(context, args)` at `deadline`. */
  datatype Pending<A, C> = Pending(args: A, context: C, deadline: int)

  /** The closure's state, the clock, and every invocation of `fn` so far as `(this, args)`. */
  datatype Machine<A, C> = Machine(delay: int, now: int, pending: Option<Pending<A, C>>, calls: seq<(C, A)>)

  /** A pending call is always in the future: no timer is overdue. */
  predicate Valid<A, C>(m: Machine<A, C>)
  {
    m.pending.Some? ==> m.now < m.pending.value.deadline
  }

  /** `debounce(fn, options)` at time `now`. */
  function StartMachine<A, C>(options: DebounceArgument, now: int): (m: Machine<A, C>)
    ensures Valid(m) && m.pending.None? && m.calls == []
  {
    Machine(DelayOf(options), now, None, [])
  }

  /**
   * The debounced function called with `args` and `this == context`: the
   * old timer is cleared and exactly one new one set; `fn` is not called.
   */
  function CallStep<A, C>(m: Machine<A, C>, args: A, context: C): (r: Machine<A, C>)
    ensures Valid(r) && r.calls == m.calls && r.now == m.now && r.delay == m.delay
    ensures r.pending == Some(Pending(args, context, m.now + TimerDelay(m.delay)))
  {
    m.(pending := Some(Pending(args, context, m.now + TimerDelay(m.delay))))
  }

  /** `debounced.cancel()`. */
  function CancelStep<A, C>(m: Machine<A, C>): (r: Machine<A, C>)
    ensures Valid(r) && r.pending.None? && r.calls == m.calls && r.now == m.now
  {
    m.(pending := None)
  }

  /** The clock moves on by `dt`; a timer whose deadline is reached fires. */
  function TickStep<A, C>(m: Machine<A, C>, dt: nat): (r: Machine<A, C>)
    requires Valid(m)
    ensures Valid(r) && r.now == m.now + dt && r.delay == m.delay
    ensures m.pending.Some? && m.pending.value.deadline <= m.now + dt ==>
              r.pending.None? && r.calls == m.calls + [(m.pending.value.context, m.pending.value.args)]
    ensures !(m.pending.Some? && m.pending.value.deadline <= m.now + dt) ==> r.pending == m.pending && r.calls == m.calls
  {
    var now := m.now + dt;
    if m.pending.Some? && m.pending.value.deadline <= now then
      Machine(m.delay, now, None, m.calls + [(m.pending.value.context, m.pending.value.args)])
    else
      m.(now := now)
  }

  // ---------------------------------------------------------------------
  // Properties
  // ---------------------------------------------------------------------

  /** Before the delay has passed, `fn` has not run. */
  lemma NotBeforeDelay<A, C>(m: Machine<A, C>, args: A, context: C, dt: nat)
    requires dt < TimerDelay(m.delay)
    ensures TickStep(CallStep(m, args, context), dt).calls == m.calls
  {
  }

  /** Of several calls in a row, one invocation follows, with the last call's arguments and `this`. */
  lemma LastCallWins<A, C>(m: Machine<A, C>, a1: A, c1: C, a2: A, c2: C)
    ensures TickStep(CallStep(CallStep(m, a1, c1), a2, c2), TimerDelay(m.delay)).calls == m.calls + [(c2, a2)]
  {
  }

  /** A fired timer fires once: more time brings no second invocation. */
  lemma FiresOnce<A, C>(m: Machine<A, C>, args: A, context: C, later: nat)
    ensures var fired := TickStep(CallStep(m, args, context), TimerDelay(m.delay));
            TickStep(fired, later).calls == m.calls + [(context, args)]
  {
  }

  /** After `cancel`, `fn` is never invoked, however long the clock runs. */
  lemma CancelPreventsCall<A, C>(m: Machine<A, C>, args: A, context: C, dt: nat)
    ensures TickStep(CancelStep(CallStep(m, args, context)), dt).calls == m.calls
  {
  }

  /** A call after `cancel` schedules afresh. */
  lemma CallAfterCancel<A, C>(m: Machine<A, C>, a1: A, c1: C, a2: A, c2: C)
    ensures TickStep(CallStep(CancelStep(CallStep(m, a1, c1)), a2, c2), TimerDelay(m.delay)).calls == m.calls + [(c2, a2)]
  {
  }

  /** The delay is `options.delay`, else 500; a number as second argument also gives 500. */
  lemma DelayDefaults(d: int)
    ensures DelayOf(Options(Some(d))) == d
    ensures DelayOf(Omitted) == DefaultDelay && DelayOf(Options(None)) == DefaultDelay && DelayOf(Primitive) == DefaultDelay
  {
  }

  // ---------------------------------------------------------------------
  // The closure as an object
  // ---------------------------------------------------------------------

  /** The value `debounce` returns, with its closure variables as fields. */
  class Debounced<A, C> {
    const delay: int
    var now: int
    var pending: Option<Pending<A, C>>
    var calls: seq<(C, A)>

    function State(): Machine<A, C>
      reads this
    {
      Machine(delay, now, pending, calls)
    }

    constructor (options: DebounceArgument, start: int)
      ensures State() == StartMachine(options, start)
    {
      delay := DelayOf(options);
      now := start;
      pending := None;
      calls := [];
    }

    /** `debounced.call(context, ...args)`. */
    method Call(args: A, context: C)
      modifies this
      ensures State() == CallStep(old(State()), args, context)
    {
      if pending.Some? {
        pending := None;
      }
      pending := Some(Pending(args, context, now + TimerDelay(delay)));
    }

    /** `debounced.cancel()`. */
    method Cancel()
      modifies this
      ensures State() == CancelStep(old(State()))
    {
      if pending.Some? {
        pending := None;
      }
    }

    /** The clock advances by `dt`; the timer fires if its deadline is reached. */
    method Tick(dt: nat)
      requires Valid(State())
      modifies this
      ensures State() == TickStep(old(State()), dt)
    {
      now := now + dt;
      if pending.Some? && pending.value.deadline <= now {
        calls := calls + [(pending.value.context, pending.value.args)];
        pending := None;
      }
    }
  }
}
