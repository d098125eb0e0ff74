/** What a debounce predicate does over a whole trace of observations: it is done exactly when
    the trace has held five favourable observations in a row, and its counter is the length of
    the favourable run the trace ends with. */
module DebounceTraces {
  import opened Stabilization

  /** The number of consecutive favourable observations that makes a predicate done. */
  const Confirmations: nat := Threshold + 1

  /** The number of favourable observations `t` ends with. */
  function TrailingRun(t: seq<bool>): (n: nat)
    ensures n <= |t|
  {
    if |t| == 0 || !t[|t| - 1] then 0 else TrailingRun(t[..|t| - 1]) + 1
  }

  predicate AllFavourable(s: seq<bool>)
  {
    forall j :: 0 <= j < |s| ==> s[j]
  }

  /** The `n` observations of `t` from position `i` on are all favourable. */
  predicate RunAt(t: seq<bool>, i: int, n: nat)
  {
    0 <= i && i + n <= |t| && AllFavourable(t[i..i + n])
  }

  /** `t` holds `n` consecutive favourable observations somewhere. */
  ghost predicate HasRun(t: seq<bool>, n: nat)
  {
    exists i :: RunAt(t, i, n)
  }

  /** The run a trace ends with is at least `n` long exactly when its last `n` observations are favourable. */
  lemma {:induction false} TrailingRunSuffix(t: seq<bool>, n: nat)
    requires n <= |t|
    ensures TrailingRun(t) >= n <==> AllFavourable(t[|t| - n..])
  {
    if n == 0 {
      assert |t[|t|..]| == 0;
    } else {
      var p := t[..|t| - 1];
      TrailingRunSuffix(p, n - 1);
      var suffix, shorter := t[|t| - n..], p[|p| - (n - 1)..];
      assert suffix == shorter + [t[|t| - 1]];
      if !t[|t| - 1] {
        assert suffix[n - 1] == t[|t| - 1];
      } else if AllFavourable(shorter) {
        forall j | 0 <= j < n ensures suffix[j] {
          if j < n - 1 {
            assert suffix[j] == shorter[j];
          }
        }
      } else {
        var j :| 0 <= j < n - 1 && !shorter[j];
        assert suffix[j] == shorter[j];
      }
    }
  }

  /** A trace ending in a favourable run of length `n` holds such a run. */
  lemma TrailingRunGivesRun(t: seq<bool>, n: nat)
    requires TrailingRun(t) >= n
    ensures HasRun(t, n)
  {
    TrailingRunSuffix(t, n);
    assert t[|t| - n..] == t[|t| - n..|t| - n + n];
    assert RunAt(t, |t| - n, n);
  }

  /** Appending one observation creates a run of `n` only as the run the new trace ends with. */
  lemma {:induction false} HasRunSnoc(p: seq<bool>, b: bool, n: nat)
    requires n > 0
    ensures HasRun(p + [b], n) <==> HasRun(p, n) || TrailingRun(p + [b]) >= n
  {
    var t := p + [b];
    assert t[..|t| - 1] == p;
    if HasRun(p, n) {
      var i :| RunAt(p, i, n);
      assert t[i..i + n] == p[i..i + n];
      assert RunAt(t, i, n);
    }
    if TrailingRun(t) >= n {
      TrailingRunGivesRun(t, n);
    }
    if HasRun(t, n) {
      var i :| RunAt(t, i, n);
      if i + n <= |p| {
        assert t[i..i + n] == p[i..i + n];
        assert RunAt(p, i, n);
      } else {
        assert t[i..i + n] == t[|t| - n..];
        TrailingRunSuffix(t, n);
      }
    }
  }

  /** A run in a prefix is a run in the whole trace. */
  lemma HasRunPrefix(t: seq<bool>, k: nat, n: nat)
    requires k <= |t| && HasRun(t[..k], n)
    ensures HasRun(t, n)
  {
    var i :| RunAt(t[..k], i, n);
    assert t[..k][i..i + n] == t[i..i + n];
    assert RunAt(t, i, n);
  }

  /** From a context where the predicate has not started, the predicate is done after a trace
      exactly when the trace held Confirmations favourable observations in a row; before that
      its counter is the favourable run the trace ends with, and once done it stays at
      Confirmations. No other key of the context changes. */
  lemma {:induction false} FeedFresh(e: Entries, keys: DebounceKeys, t: seq<bool>)
    requires Distinct(keys) && keys.counter !in e && keys.done !in e
    ensures keys.done in Feed(e, keys, t) <==> HasRun(t, Confirmations)
    ensures |t| > 0 ==> keys.counter in Feed(e, keys, t)
    ensures CounterOf(Feed(e, keys, t), keys) ==
      if keys.done in Feed(e, keys, t) then Confirmations else TrailingRun(t)
    ensures 0 <= CounterOf(Feed(e, keys, t), keys) <= Confirmations
    ensures Feed(e, keys, t) - {keys.counter, keys.done} == e - {keys.counter, keys.done}
    decreases |t|
  {
    if |t| == 0 {
      assert !HasRun(t, Confirmations);
    } else {
      var p := t[..|t| - 1];
      var b := t[|t| - 1];
      assert t == p + [b];
      FeedFresh(e, keys, p);
      HasRunSnoc(p, b, Confirmations);
      var c' := Feed(e, keys, p);
      if keys.done !in c' && TrailingRun(p) >= Confirmations {
        TrailingRunGivesRun(p, Confirmations);
      }
    }
  }

  /** Once done, further calls change nothing but a missing counter: the done flag and the
      counter's value are kept whatever is observed afterwards. */
  lemma {:induction false} FeedSticky(e: Entries, keys: DebounceKeys, t: seq<bool>, u: seq<bool>)
    requires Distinct(keys) && keys.done in Feed(e, keys, t)
    ensures Feed(e, keys, t + u) == if |u| == 0 then Feed(e, keys, t) else InitCounter(Feed(e, keys, t), keys)
    decreases |u|
  {
    if |u| == 0 {
      assert t + u == t;
    } else {
      var u' := u[..|u| - 1];
      assert (t + u)[..|t + u| - 1] == t + u';
      FeedSticky(e, keys, t, u');
    }
  }

  /** An unfavourable observation at a position that every window of Confirmations
      observations covers rules out a run. */
  lemma NoRunAcross(s: seq<bool>, j: nat)
    requires j < |s| && !s[j] && |s| - Confirmations <= j < Confirmations
    ensures !HasRun(s, Confirmations)
  {
  }

  /** The observations of the creation unit test: the group is found, missed, then found five times. */
  const CreateTestTrace: seq<bool> := [true, false, true, true, true, true, true]

  /** The answers of the deletion unit test to "does the group still exist?". */
  const DeleteTestTrace: seq<bool> := [true, false, true, false, false, false, false, false]

  /** With the creation trace the predicate returns False on calls 1 to 6 and True on call 7. */
  lemma CreateTestTraceOutcome(e: Entries, keys: DebounceKeys)
    requires Distinct(keys) && keys.counter !in e && keys.done !in e
    ensures forall k :: 1 <= k < |CreateTestTrace| ==> keys.done !in Feed(e, keys, CreateTestTrace[..k])
    ensures keys.done in Feed(e, keys, CreateTestTrace)
    ensures CounterOf(Feed(e, keys, CreateTestTrace), keys) == Confirmations
  {
    var t := CreateTestTrace;
    var s := t[..6];
    NoRunAcross(s, 1);
    forall k | 1 <= k < |t| ensures keys.done !in Feed(e, keys, t[..k]) {
      FeedFresh(e, keys, t[..k]);
      assert t[..k] == s[..k];
      if HasRun(s[..k], Confirmations) {
        HasRunPrefix(s, k, Confirmations);
      }
    }
    FeedFresh(e, keys, t);
    assert RunAt(t, 2, Confirmations);
  }

  /** With the deletion trace the predicate, counting absences, returns False on calls 1 to 7
      and True on call 8. */
  lemma DeleteTestTraceOutcome(e: Entries, keys: DebounceKeys)
    requires Distinct(keys) && keys.counter !in e && keys.done !in e
    ensures forall k :: 1 <= k < |DeleteTestTrace| ==> keys.done !in Feed(e, keys, Negated(DeleteTestTrace)[..k])
    ensures keys.done in Feed(e, keys, Negated(DeleteTestTrace))
    ensures CounterOf(Feed(e, keys, Negated(DeleteTestTrace)), keys) == Confirmations
  {
    var t := Negated(DeleteTestTrace);
    var s := t[..7];
    NoRunAcross(s, 2);
    forall k | 1 <= k < |t| ensures keys.done !in Feed(e, keys, t[..k]) {
      FeedFresh(e, keys, t[..k]);
      assert t[..k] == s[..k];
      if HasRun(s[..k], Confirmations) {
        HasRunPrefix(s, k, Confirmations);
      }
    }
    FeedFresh(e, keys, t);
    assert RunAt(t, 3, Confirmations);
  }
}
