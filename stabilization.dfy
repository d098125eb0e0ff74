/** The callback context and the state machines the handlers keep in it: once-only action flags
    and the debounce predicates that count consecutive favourable observations. */
module Stabilization {
  import opened Results

  /** A value a handler stores in the callback context: a flag or a counter. */
  datatype Value = Flag(b: bool) | Count(n: int)

  /** The string-keyed callback context. */
  type Entries = map<string, Value>

  /** The number Python reads from a stored value (a bool counts as 0 or 1). */
  function NumberOf(v: Value): int
  {
    match v
    case Flag(b) => if b then 1 else 0
    case Count(n) => n
  }

  /** The two context keys one debounce predicate owns: its counter and its sticky done flag. */
  datatype DebounceKeys = DebounceKeys(counter: string, done: string)

  predicate Distinct(keys: DebounceKeys)
  {
    keys.counter != keys.done
  }

  /** A predicate is done once its counter exceeds this many favourable observations. */
  const Threshold := 4

  /** What one predicate call leaves in the context and what it returns. */
  datatype StepResult = StepResult(entries: Entries, stable: bool)

  /** The counter's value as the predicate reads it, 0 when the counter is absent. */
  function CounterOf(e: Entries, keys: DebounceKeys): int
  {
    if keys.counter in e then NumberOf(e[keys.counter]) else 0
  }

  /** The counter is created with value 0 when it is absent. */
  function InitCounter(e: Entries, keys: DebounceKeys): (r: Entries)
    ensures keys.counter in r && CounterOf(r, keys) == CounterOf(e, keys)
    ensures r - {keys.counter} == e - {keys.counter}
  {
    if keys.counter in e then e else e[keys.counter := Count(0)]
  }

  /** One call of a debounce predicate whose API question is answered by `favourable`. */
  function Step(e: Entries, keys: DebounceKeys, favourable: bool): (r: StepResult)
    requires Distinct(keys)
    // the predicate returns True exactly when its done flag is recorded
    ensures r.stable <==> keys.done in r.entries
    // the counter is always present afterwards
    ensures keys.counter in r.entries
    // sticky: once done, the call returns True and changes nothing but a missing counter
    ensures keys.done in e ==> r.stable && r.entries == InitCounter(e, keys)
    // an unfavourable observation resets the counter to 0 and returns False
    ensures keys.done !in e && !favourable ==>
      !r.stable && r.entries == e[keys.counter := Count(0)]
    // a favourable observation increments the counter; done when it passes the threshold
    ensures keys.done !in e && favourable ==>
      CounterOf(r.entries, keys) == CounterOf(e, keys) + 1 &&
      (r.stable <==> CounterOf(e, keys) + 1 > Threshold)
    // no other key of the context changes
    ensures r.entries - {keys.counter, keys.done} == e - {keys.counter, keys.done}
  {
    var c := InitCounter(e, keys);
    if keys.done in c then
      StepResult(c, true)
    else if favourable then
      var n := NumberOf(c[keys.counter]) + 1;
      var c1 := c[keys.counter := Count(n)];
      if n > Threshold then StepResult(c1[keys.done := Flag(true)], true)
      else StepResult(c1, false)
    else
      StepResult(c[keys.counter := Count(0)], false)
  }

  /** The context after one predicate call per observation of `t`, in order. */
  function Feed(e: Entries, keys: DebounceKeys, t: seq<bool>): Entries
    requires Distinct(keys)
    decreases |t|
  {
    if |t| == 0 then e else Step(Feed(e, keys, t[..|t| - 1]), keys, t[|t| - 1]).entries
  }

  /** The favourable observations of a predicate that waits for something to disappear. */
  function Negated(t: seq<bool>): (r: seq<bool>)
    ensures |r| == |t| && forall i :: 0 <= i < |t| ==> r[i] == !t[i]
  {
    seq(|t|, i requires 0 <= i < |t| => !t[i])
  }

  /** The callback context of one operation, shared by reference between the handlers of an invocation. */
  class CallbackContext<M> {
    var entries: Entries
    /** The model save_model_to_callback stores in the context. */
    var savedModel: Option<M>

    constructor (entries: Entries)
      ensures this.entries == entries && savedModel == None
    {
      this.entries := entries;
      savedModel := None;
    }

    /** callback_context[key] = True */
    method SetFlag(key: string)
      modifies this
      ensures entries == old(entries)[key := Flag(true)] && savedModel == old(savedModel)
    {
      entries := entries[key := Flag(true)];
    }

    /** save_model_to_callback(m) */
    method SaveModel(m: M)
      modifies this
      ensures savedModel == Some(m) && entries == old(entries)
    {
      savedModel := Some(m);
    }

    /** The body shared by the four `_stabilize_*` predicates. `inputsPresent` says whether the
        model fields the predicate asserts are present; `favourable` is the API's answer, read
        only when the predicate queries. */
    method Predicate(keys: DebounceKeys, inputsPresent: bool, favourable: bool) returns (r: Result<bool>)
      requires Distinct(keys)
      modifies this
      ensures savedModel == old(savedModel)
      ensures keys.done in old(entries) || inputsPresent ==>
        r == Ok(Step(old(entries), keys, favourable).stable) &&
        entries == Step(old(entries), keys, favourable).entries
      ensures keys.done !in old(entries) && !inputsPresent ==>
        r == Err(AssertionFailed) && entries == InitCounter(old(entries), keys)
    {
      if keys.counter !in entries {
        entries := entries[keys.counter := Count(0)];
      }
      if keys.done !in entries {
        if !inputsPresent {
          return Err(AssertionFailed);
        }
        if favourable {
          entries := entries[keys.counter := Count(NumberOf(entries[keys.counter]) + 1)];
        } else {
          entries := entries[keys.counter := Count(0)];
          return Ok(false);
        }
        if NumberOf(entries[keys.counter]) > Threshold {
          entries := entries[keys.done := Flag(true)];
          return Ok(true);
        } else {
          return Ok(false);
        }
      } else {
        return Ok(true);
      }
    }

    /** The stabilization runner with one predicate: it calls the predicate on successive
        observations until the predicate returns True, raises, or the invocation's budget of
        `|answers|` calls is spent. */
    method RunStabilization(keys: DebounceKeys, inputsPresent: bool, answers: seq<bool>)
      returns (r: Result<bool>, calls: nat)
      requires Distinct(keys)
      requires |answers| > 0
      modifies this
      ensures savedModel == old(savedModel)
      ensures 1 <= calls <= |answers|
      ensures keys.counter in entries
      ensures r.Err? <==> keys.done !in old(entries) && !inputsPresent
      ensures r.Err? ==> r.error == AssertionFailed && calls == 1 && entries == InitCounter(old(entries), keys)
      ensures r.Ok? ==> entries == Feed(old(entries), keys, answers[..calls])
      ensures r.Ok? ==> (r.value <==> keys.done in entries)
      ensures r == Ok(false) ==> calls == |answers|
      // the runner stops at the first call that returns True
      ensures r.Ok? ==> forall k :: 1 <= k < calls ==> keys.done !in Feed(old(entries), keys, answers[..k])
    {
      ghost var e0 := entries;
      r := Ok(false);
      calls := 0;
      while r == Ok(false) && calls < |answers|
        invariant 0 <= calls <= |answers|
        invariant savedModel == old(savedModel)
        invariant calls == 0 ==> r == Ok(false) && entries == e0
        invariant calls > 0 ==> (r.Err? <==> keys.done !in e0 && !inputsPresent)
        invariant r.Err? ==> r.error == AssertionFailed && calls == 1 && entries == InitCounter(e0, keys)
        invariant r.Ok? ==> entries == Feed(e0, keys, answers[..calls])
        invariant calls > 0 && r.Ok? ==> (r.value <==> keys.done in entries)
        invariant calls > 0 && keys.done in e0 ==> r == Ok(true) && calls == 1
        invariant r.Ok? ==> forall k :: 1 <= k < calls ==> keys.done !in Feed(e0, keys, answers[..k])
      {
        ghost var before := entries;
        r := Predicate(keys, inputsPresent, answers[calls]);
        assert answers[..calls + 1][..calls] == answers[..calls];
        calls := calls + 1;
      }
    }
  }
}
