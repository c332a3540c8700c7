/** Backpressure detection: a few fields updated in place, specified by the whole
    history of calls. */
module FlowController {
  import opened Wire

  /** Times and durations are in one unit; `window` may be any duration. */
  datatype Config = Config(capacity: int, threshold: real, window: int)

  datatype Call = Update(length: int) | Check(now: int) | Reset

  type History = seq<Call>

  /** The fill ratio reaches the threshold.  Floating division by a zero capacity
      gives an infinity or, for an empty channel, a NaN that compares false. */
  predicate Over(c: Config, length: int) {
    if c.capacity == 0 then length > 0 else length as real / c.capacity as real >= c.threshold
  }

  /** For a real channel: over the threshold exactly when the fill is at least that share
      of the capacity. */
  lemma OverMeans(c: Config, length: int)
    requires c.capacity > 0
    ensures Over(c, length) <==> length as real >= c.threshold * c.capacity as real
  {
    var share, capacity := length as real / c.capacity as real, c.capacity as real;
    assert share * capacity == length as real;
    if share >= c.threshold {
      assert (share - c.threshold) * capacity >= 0.0;
    } else {
      assert (c.threshold - share) * capacity > 0.0;
    }
  }

  // ----- What the history says -----

  function LengthAfter(h: History): int {
    if h == [] then 0 else
    match h[|h| - 1]
    case Update(n) => n
    case Reset => 0
    case Check(_) => LengthAfter(h[..|h| - 1])
  }

  /** Call `k` ends a run of over-threshold checks. */
  predicate Breaks(c: Config, h: History, k: nat)
    requires k < |h|
  {
    h[k].Reset? || (h[k].Check? && !Over(c, LengthAfter(h[..k])))
  }

  /** An over-threshold check at `i` and nothing that breaks the run since. */
  ghost predicate RunFrom(c: Config, h: History, i: nat) {
    && i < |h| && h[i].Check?
    && forall k | i <= k < |h| :: !Breaks(c, h, k)
  }

  /** The last call is a check that found the channel over the threshold, in a run
      with an earlier check at least `window` ago. */
  ghost predicate Sustained(c: Config, h: History) {
    && h != [] && h[|h| - 1].Check?
    && exists i | 0 <= i < |h| - 1 :: RunFrom(c, h, i) && h[|h| - 1].now - h[i].now >= c.window
  }

  /** The verdict of the last check; none after a reset. */
  ghost function LastVerdict(c: Config, h: History): bool {
    if h == [] then false else
    match h[|h| - 1]
    case Update(_) => LastVerdict(c, h[..|h| - 1])
    case Reset => false
    case Check(_) => Sustained(c, h)
  }

  ghost function SustainedCount(c: Config, h: History): nat {
    if h == [] then 0
    else SustainedCount(c, h[..|h| - 1]) + if Sustained(c, h) then 1 else 0
  }

  ghost predicate Monotone(h: History) {
    forall i, j | 0 <= i < j < |h| && h[i].Check? && h[j].Check? :: h[i].now <= h[j].now
  }

  /** What one more call does to the history functions. */
  lemma After(c: Config, h: History, call: Call)
    ensures var g := h + [call];
            && LengthAfter(g) == (if call.Update? then call.length else if call.Reset? then 0 else LengthAfter(h))
            && LastVerdict(c, g) == (if call.Update? then LastVerdict(c, h) else call.Check? && Sustained(c, g))
            && SustainedCount(c, g) == SustainedCount(c, h) + (if Sustained(c, g) then 1 else 0)
            && (Sustained(c, g) ==> call.Check?)
            && (!call.Check? && Monotone(h) ==> Monotone(g))
  {
    assert (h + [call])[..|h|] == h;
  }

  // ----- The one remembered instant is enough -----

  /** `t` is the time of the earliest check of the current run, if there is one. */
  ghost predicate IsRunStart(c: Config, h: History, t: Option<int>) {
    match t
    case None => forall i: nat :: !RunFrom(c, h, i)
    case Some(start) =>
      && (exists i: nat :: RunFrom(c, h, i) && h[i].now == start)
      && (forall i: nat :: RunFrom(c, h, i) ==> start <= h[i].now)
  }

  lemma BreaksAtEnd(c: Config, h: History, call: Call)
    ensures Breaks(c, h + [call], |h|) <==> call.Reset? || (call.Check? && !Over(c, LengthAfter(h)))
  {
    assert (h + [call])[..|h|] == h;
  }

  lemma RunAfter(c: Config, h: History, call: Call, i: nat)
    ensures i < |h| ==> (RunFrom(c, h + [call], i) <==> RunFrom(c, h, i) && !Breaks(c, h + [call], |h|))
    ensures RunFrom(c, h + [call], |h|) <==> call.Check? && !Breaks(c, h + [call], |h|)
  {
    var g := h + [call];
    assert forall k | 0 <= k < |h| :: g[..k] == h[..k];
    if i < |h| && RunFrom(c, h, i) && !Breaks(c, g, |h|) {
      forall k | i <= k < |g|
        ensures !Breaks(c, g, k)
      {
        assert k < |h| ==> (Breaks(c, g, k) <==> Breaks(c, h, k));
      }
    }
    if i < |h| && RunFrom(c, g, i) {
      forall k | i <= k < |h|
        ensures !Breaks(c, h, k)
      {
        assert !Breaks(c, g, k);
      }
    }
  }

  lemma RunStartAfter(c: Config, h: History, call: Call, t: Option<int>)
    requires Monotone(h + [call]) && IsRunStart(c, h, t)
    ensures var g := h + [call];
            IsRunStart(c, g, if Breaks(c, g, |h|) then None
                             else if call.Check? && t.None? then Some(call.now) else t)
  {
    var g := h + [call];
    forall i: nat
      ensures i < |h| ==> (RunFrom(c, g, i) <==> RunFrom(c, h, i) && !Breaks(c, g, |h|))
      ensures RunFrom(c, g, |h|) <==> call.Check? && !Breaks(c, g, |h|)
    {
      RunAfter(c, h, call, i);
    }
    if !Breaks(c, g, |h|) {
      if t.Some? {
        var i: nat :| RunFrom(c, h, i) && h[i].now == t.value;
        assert RunFrom(c, g, i) && g[i].now == t.value;
      } else if call.Check? {
        assert RunFrom(c, g, |h|);
      }
    }
  }

  /** A check is sustained exactly when the run it continues started long enough ago. */
  lemma SustainedByStart(c: Config, h: History, now: int, t: Option<int>)
    requires IsRunStart(c, h, t)
    ensures Sustained(c, h + [Check(now)]) <==>
            Over(c, LengthAfter(h)) && t.Some? && now - t.value >= c.window
  {
    var g := h + [Check(now)];
    assert g[..|h|] == h;
    forall i: nat
      ensures i < |h| ==> (RunFrom(c, g, i) <==> RunFrom(c, h, i) && Over(c, LengthAfter(h)))
    {
      RunAfter(c, h, Check(now), i);
    }
    if Over(c, LengthAfter(h)) && t.Some? && now - t.value >= c.window {
      var i: nat :| RunFrom(c, h, i) && h[i].now == t.value;
      assert RunFrom(c, g, i) && now - g[i].now >= c.window;
    }
  }

  /** Once sustained, every later check of the same run is sustained too. */
  lemma {:induction false} VerdictPersists(c: Config, h: History, now: int, t: Option<int>)
    requires Monotone(h + [Check(now)]) && IsRunStart(c, h, t) && LastVerdict(c, h)
    ensures t.Some? && now - t.value >= c.window
  {
    var last := h[|h| - 1];
    var p := h[..|h| - 1];
    assert h == p + [last];
    if last.Update? {
      forall i: nat
        ensures RunFrom(c, p, i) <==> RunFrom(c, h, i)
      {
        RunAfter(c, p, last, i);
      }
      assert IsRunStart(c, p, t) by {
        if t.Some? {
          var i: nat :| RunFrom(c, h, i) && h[i].now == t.value;
          assert RunFrom(c, p, i) && p[i].now == t.value;
        }
      }
      MonotoneWithout(h, now);
      VerdictPersists(c, p, now, t);
    } else {
      var i :| 0 <= i < |h| - 1 && RunFrom(c, h, i) && last.now - h[i].now >= c.window;
      var g := h + [Check(now)];
      assert g[|h| - 1] == last && g[|h|] == Check(now);
      assert last.now <= now;
    }
  }

  lemma MonotoneWithout(h: History, now: int)
    requires h != [] && Monotone(h + [Check(now)])
    ensures Monotone(h[..|h| - 1] + [Check(now)])
  {
    var g, f := h + [Check(now)], h[..|h| - 1] + [Check(now)];
    forall i, j | 0 <= i < j < |f| && f[i].Check? && f[j].Check?
      ensures f[i].now <= f[j].now
    {
      var j' := if j < |f| - 1 then j else |g| - 1;
      assert g[i] == f[i] && g[j'] == f[j];
    }
  }

  /** The run of a history that ends in a check, this check included, is at least
      `window` old. */
  ghost predicate RunIsOld(c: Config, h: History)
    requires h != [] && h[|h| - 1].Check?
  {
    exists i: nat :: RunFrom(c, h, i) && h[|h| - 1].now - h[i].now >= c.window
  }

  /** With a positive window the earlier check is automatic, whatever the clock does. */
  lemma PositiveWindow(c: Config, h: History)
    requires c.window > 0 && h != [] && h[|h| - 1].Check?
    ensures Sustained(c, h) <==> RunIsOld(c, h)
  {
    if i: nat :| RunFrom(c, h, i) && h[|h| - 1].now - h[i].now >= c.window {
      assert i != |h| - 1;
    }
  }

  /** When the verdict of a check is the age of its run: exactly when the window is
      positive, or the run has an earlier check, or there is no run.  With a window of
      zero or less, the first check over the threshold always answers false. */
  lemma VerdictIsAgeExactly(c: Config, h: History, now: int, t: Option<int>)
    requires Monotone(h + [Check(now)]) && IsRunStart(c, h, t)
    ensures (Sustained(c, h + [Check(now)]) <==> RunIsOld(c, h + [Check(now)])) <==>
            (c.window > 0 || t.Some? || !Over(c, LengthAfter(h)))
  {
    var g, over := h + [Check(now)], Over(c, LengthAfter(h));
    SustainedByStart(c, h, now, t);
    BreaksAtEnd(c, h, Check(now));
    forall i: nat
      ensures i < |h| ==> (RunFrom(c, g, i) <==> RunFrom(c, h, i) && over)
      ensures RunFrom(c, g, |h|) <==> over
    {
      RunAfter(c, h, Check(now), i);
    }
    if over && t.Some? {
      var i: nat :| RunFrom(c, h, i) && h[i].now == t.value;
      assert RunFrom(c, g, i) && g[i].now <= g[|h|].now;
      assert now - t.value >= c.window ==> RunIsOld(c, g);
      assert RunIsOld(c, g) && c.window > 0 ==> now - t.value >= c.window;
    }
  }

  /** A history where they differ. */
  lemma ZeroWindowFirstCheck()
    ensures Sustained(Config(10, 0.5, 0), [Update(10), Check(0)]) !=
            RunIsOld(Config(10, 0.5, 0), [Update(10), Check(0)])
  {
    var c, h := Config(10, 0.5, 0), [Update(10), Check(0)];
    assert h[..1] == [Update(10)];
    assert LengthAfter(h[..1]) == 10;
    assert RunFrom(c, h, 1);
    assert !RunFrom(c, h, 0);
  }

  /** The fields are what the history says. */
  ghost predicate Matches(c: Config, h: History, length: int, start: Option<int>, verdict: bool, events: int) {
    && Monotone(h)
    && length == LengthAfter(h)
    && IsRunStart(c, h, start)
    && verdict == LastVerdict(c, h)
    && events == SustainedCount(c, h)
  }

  /** What a check makes of them: nothing over the threshold forgets the run, the first
      check over it starts one, a later one is sustained once the window has passed. */
  lemma NextCheck(c: Config, h: History, now: int, length: int, t: Option<int>, verdict: bool, events: int, g: History)
    requires Matches(c, h, length, t, verdict, events) && g == h + [Check(now)] && Monotone(g)
    ensures if !Over(c, length) then !Sustained(c, g) && Matches(c, g, length, None, false, events)
            else if t.None? then !Sustained(c, g) && Matches(c, g, length, Some(now), false, events)
            else if now - t.value >= c.window then Sustained(c, g) && Matches(c, g, length, t, true, events + 1)
            else !Sustained(c, g) && Matches(c, g, length, t, verdict, events)
  {
    RunStartAfter(c, h, Check(now), t);
    SustainedByStart(c, h, now, t);
    if LastVerdict(c, h) {
      VerdictPersists(c, h, now, t);
    }
    After(c, h, Check(now));
    BreaksAtEnd(c, h, Check(now));
  }

  // ----- The controller -----

  class FlowController {
    const config: Config
    var channelLength: int
    var lastBackpressure: Option<int>
    var backpressureEvents: nat
    var sustainedBackpressure: bool
    ghost var history: History

    ghost predicate Valid()
      reads this
    {
      Matches(config, history, channelLength, lastBackpressure, sustainedBackpressure, backpressureEvents)
    }

    constructor (config: Config)
      ensures Valid() && this.config == config && history == []
    {
      this.config := config;
      channelLength, lastBackpressure := 0, None;
      backpressureEvents, sustainedBackpressure := 0, false;
      history := [];
    }

    method UpdateChannelLength(length: int)
      requires Valid()
      modifies this
      ensures Valid() && history == old(history) + [Update(length)]
    {
      After(config, history, Update(length));
      RunStartAfter(config, history, Update(length), lastBackpressure);
      history := history + [Update(length)];
      channelLength := length;
    }

    /** The answer is what the history of calls says, whatever the fields are. */
    method CheckBackpressure(now: int) returns (sustained: bool)
      requires Valid() && Monotone(history + [Check(now)])
      modifies this
      ensures Valid() && history == old(history) + [Check(now)]
      ensures sustained <==> Sustained(config, history)
    {
      NextCheck(config, history, now, channelLength, lastBackpressure, sustainedBackpressure, backpressureEvents,
                history + [Check(now)]);
      history := history + [Check(now)];
      if Over(config, channelLength) {
        if lastBackpressure.None? {
          lastBackpressure := Some(now);
          sustainedBackpressure := false;
          return false;
        }
        if now - lastBackpressure.value >= config.window {
          sustainedBackpressure := true;
          backpressureEvents := backpressureEvents + 1;
          return true;
        }
        return false;
      }
      lastBackpressure := None;
      sustainedBackpressure := false;
      return false;
    }

    /** The verdict of the last check since the last reset. */
    method IsBackpressured() returns (sustained: bool)
      requires Valid()
      ensures sustained == LastVerdict(config, history)
    {
      return sustainedBackpressure;
    }

    /** How many checks ever answered true; a reset does not forget them. */
    method GetBackpressureEvents() returns (events: nat)
      requires Valid()
      ensures events == SustainedCount(config, history)
    {
      return backpressureEvents;
    }

    method Reset()
      requires Valid()
      modifies this
      ensures Valid() && history == old(history) + [Call.Reset]
    {
      After(config, history, Call.Reset);
      BreaksAtEnd(config, history, Call.Reset);
      RunStartAfter(config, history, Call.Reset, lastBackpressure);
      history := history + [Call.Reset];
      channelLength := 0;
      lastBackpressure := None;
      sustainedBackpressure := false;
    }
  }
}
