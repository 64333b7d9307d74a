/** The debouncer of a polled button or switch
    (package/kernel/gpio-button-hotplug/src/gpio-button-hotplug.c). */
module Debounce {
  import opened Expressions

  /** The state last told to userland: buttons start as released, a switch as unknown. */
  function Reported(key: bool, events: seq<Option<bool>>): (r: Option<bool>) {
    if events == [] then if key then Some(false) else None
    else if events[|events| - 1].Some? then events[|events| - 1]
    else Reported(key, events[..|events| - 1])
  }

  /** Poll t confirms a change: it and the 'threshold' polls before it all differ from the state
      last reported. */
  predicate Confirmed(key: bool, threshold: nat, readings: seq<bool>, reported: Option<bool>, t: nat)
    requires t < |readings|
  {
    t >= threshold && forall k :: t - threshold <= k <= t ==> reported != Some(readings[k])
  }

  /** What a debouncer with that threshold has to report, poll by poll. */
  predicate Debounced(key: bool, threshold: nat, readings: seq<bool>, events: seq<Option<bool>>) {
    |events| == |readings| &&
    forall t :: 0 <= t < |events| ==>
      events[t] == if Confirmed(key, threshold, readings, Reported(key, events[..t]), t)
        then Some(readings[t]) else None
  }

  const UNINITIALIZED := -1

  function Level(pressed: bool): int { if pressed then 1 else 0 }

  /** 'count' is the number of polls since a reading agreed with the reported state. */
  predicate Tracks(threshold: nat, readings: seq<bool>, reported: Option<bool>, count: nat) {
    && count <= threshold && count <= |readings|
    && (forall k :: |readings| - count <= k < |readings| ==> reported != Some(readings[k]))
    && (count < |readings| ==> reported == Some(readings[|readings| - count - 1]))
  }

  lemma ReportedNext(key: bool, events: seq<Option<bool>>, event: Option<bool>)
    ensures Reported(key, events + [event]) == if event.Some? then event else Reported(key, events)
  {
    assert (events + [event])[..|events|] == events;
  }

  /** The count tells whether the next reading confirms a change. */
  lemma CountDecides(key: bool, threshold: nat, readings: seq<bool>, reported: Option<bool>, count: nat, pressed: bool)
    requires Tracks(threshold, readings, reported, count)
    ensures Confirmed(key, threshold, readings + [pressed], reported, |readings|)
      <==> count == threshold && reported != Some(pressed)
  {
    var all, t := readings + [pressed], |readings|;
    assert all[t] == pressed;
    if count < threshold && threshold <= t {
      assert all[t - count - 1] == readings[t - count - 1];
    }
  }

  lemma DebouncedNext(key: bool, threshold: nat, readings: seq<bool>, events: seq<Option<bool>>, pressed: bool,
      event: Option<bool>)
    requires Debounced(key, threshold, readings, events)
    requires event ==
      if Confirmed(key, threshold, readings + [pressed], Reported(key, events), |readings|) then Some(pressed) else None
    ensures Debounced(key, threshold, readings + [pressed], events + [event])
  {
    hide Reported;
    var rs, es := readings + [pressed], events + [event];
    forall t | 0 <= t < |es|
      ensures es[t] == if Confirmed(key, threshold, rs, Reported(key, es[..t]), t) then Some(rs[t]) else None
    {
      if t < |events| {
        assert es[..t] == events[..t];
        assert forall k :: 0 <= k <= t ==> rs[k] == readings[k];
      } else {
        assert es[..t] == events;
      }
    }
  }

  class Button {
    const key: bool
    const threshold: nat
    var lastState: int
    var count: nat
    /** Every reading so far and the event each of them caused. */
    ghost var readings: seq<bool>
    ghost var events: seq<Option<bool>>

    ghost predicate Valid()
      reads this
    {
      var reported := Reported(key, events);
      && Debounced(key, threshold, readings, events)
      && Tracks(threshold, readings, reported, count)
      && (if lastState == UNINITIALIZED then reported == (if key then Some(false) else None)
          else lastState in {0, 1} && reported == Some(lastState == 1))
    }

    constructor (key: bool, threshold: nat)
      ensures Valid() && this.key == key && this.threshold == threshold
      ensures readings == [] && events == []
    {
      this.key := key;
      this.threshold := threshold;
      lastState := UNINITIALIZED;
      count := 0;
      readings := [];
      events := [];
    }

    /** gpio_keys_handle_button for one reading. */
    method Handle(pressed: bool) returns (event: Option<bool>)
      requires Valid()
      modifies this
      ensures Valid()
      ensures readings == old(readings) + [pressed] && events == old(events) + [event]
    {
      hide Debounced, Confirmed, Reported;
      event := None;
      CountDecides(key, threshold, readings, Reported(key, events), count, pressed);
      if lastState != UNINITIALIZED && lastState == Level(pressed) {
        count := 0;
        Record(pressed, None);
        return;
      }
      if !(lastState == UNINITIALIZED && key && !pressed) {
        if count < threshold {
          count := count + 1;
          Record(pressed, None);
          return;
        }
        event := Some(pressed);
      }
      lastState := Level(pressed);
      count := 0;
      Record(pressed, event);
    }

    ghost method Record(pressed: bool, event: Option<bool>)
      requires Debounced(key, threshold, readings, events)
      requires event ==
        if Confirmed(key, threshold, readings + [pressed], Reported(key, events), |readings|)
        then Some(pressed) else None
      modifies this`readings, this`events
      ensures readings == old(readings) + [pressed] && events == old(events) + [event]
      ensures Debounced(key, threshold, readings, events)
      ensures Reported(key, events) == if event.Some? then event else old(Reported(key, events))
    {
      ReportedNext(key, events, event);
      DebouncedNext(key, threshold, readings, events, pressed, event);
      readings := readings + [pressed];
      events := events + [event];
    }
  }

  /** gpio_keys_polled_poll: one round over the buttons of a device; a button without a line (null)
      is passed over. Every other button sees exactly its own reading. */
  method Poll(buttons: seq<Button?>, levels: seq<bool>)
    requires |levels| == |buttons|
    requires forall i, j :: 0 <= i < j < |buttons| && buttons[i] != null ==> buttons[i] != buttons[j]
    requires forall b :: b in buttons && b != null ==> b.Valid()
    modifies buttons
    ensures forall i :: 0 <= i < |buttons| && buttons[i] != null ==>
      buttons[i].Valid() && buttons[i].readings == old(buttons[i].readings) + [levels[i]]
  {
    hide Debounced, Tracks, Reported;
    var i := 0;
    while i < |buttons|
      invariant i <= |buttons|
      invariant forall k :: i <= k < |buttons| && buttons[k] != null ==>
        buttons[k].Valid() && buttons[k].readings == old(buttons[k].readings)
      invariant forall k :: 0 <= k < i && buttons[k] != null ==>
        buttons[k].Valid() && buttons[k].readings == old(buttons[k].readings) + [levels[k]]
    {
      if buttons[i] != null { var event := buttons[i].Handle(levels[i]); }
      i := i + 1;
    }
  }

  /** Only the readings decide what is reported. */
  lemma {:induction false} DebouncedUnique(key: bool, threshold: nat, readings: seq<bool>, es: seq<Option<bool>>,
      fs: seq<Option<bool>>, n: nat)
    requires Debounced(key, threshold, readings, es) && Debounced(key, threshold, readings, fs)
    requires n <= |readings|
    ensures es[..n] == fs[..n]
  {
    hide Reported, Confirmed;
    if n > 0 {
      DebouncedUnique(key, threshold, readings, es, fs, n - 1);
      assert es[..n] == es[..n - 1] + [es[n - 1]];
      assert fs[..n] == fs[..n - 1] + [fs[n - 1]];
    }
  }

  /** Events alternate: each differs from the one before it, and a button's first event says
      pressed. */
  lemma EventsAlternate(key: bool, threshold: nat, readings: seq<bool>, events: seq<Option<bool>>, t: nat, u: nat)
    requires Debounced(key, threshold, readings, events)
    requires t < u < |events| && events[t].Some? && events[u].Some?
    requires forall k :: t < k < u ==> events[k].None?
    ensures events[u] == Some(!events[t].value)
  {
    SilentSince(key, events, t, u);
    assert Confirmed(key, threshold, readings, Reported(key, events[..u]), u);
    assert readings[u] != events[t].value;
  }

  lemma FirstEventIsPressed(threshold: nat, readings: seq<bool>, events: seq<Option<bool>>, t: nat)
    requires Debounced(true, threshold, readings, events)
    requires t < |events| && events[t].Some? && forall k :: 0 <= k < t ==> events[k].None?
    ensures events[t] == Some(true)
  {
    SilentSoFar(true, events[..t]);
    assert Confirmed(true, threshold, readings, Some(false), t);
    assert readings[t];
  }

  lemma {:induction false} SilentSince(key: bool, events: seq<Option<bool>>, t: nat, u: nat)
    requires t < u <= |events| && events[t].Some?
    requires forall k :: t < k < u ==> events[k].None?
    ensures Reported(key, events[..u]) == events[t]
    decreases u
  {
    assert events[..u][..u - 1] == events[..u - 1];
    if u > t + 1 { SilentSince(key, events, t, u - 1); }
  }

  lemma {:induction false} SilentSoFar(key: bool, events: seq<Option<bool>>)
    requires forall k :: 0 <= k < |events| ==> events[k].None?
    ensures Reported(key, events) == if key then Some(false) else None
  {
    if events != [] { SilentSoFar(key, events[..|events| - 1]); }
  }

  /** After threshold + 1 equal readings in a row their value is the reported one, whatever
      happened before. */
  lemma NoRunMissed(key: bool, threshold: nat, readings: seq<bool>, events: seq<Option<bool>>, t: nat)
    requires Debounced(key, threshold, readings, events)
    requires threshold <= t < |readings|
    requires forall k :: t - threshold <= k <= t ==> readings[k] == readings[t]
    ensures Reported(key, events[..t + 1]) == Some(readings[t])
  {
    assert events[..t + 1] == events[..t] + [events[t]];
    ReportedNext(key, events[..t], events[t]);
  }

  /** A switch reports its first state at poll 'threshold', even when the readings before it
      bounce. */
  lemma SwitchReportsFirst(threshold: nat, readings: seq<bool>, events: seq<Option<bool>>, t: nat)
    requires Debounced(false, threshold, readings, events) && t < |events|
    requires forall k :: 0 <= k < t ==> events[k].None?
    ensures events[t].Some? <==> t >= threshold
    ensures t <= threshold
  {
    SilentSoFar(false, events[..t]);
    if t > threshold { SilentSoFar(false, events[..threshold]); }
  }

  /** A button reports a reading exactly when that and the readings of the 'threshold' polls before it
      are the same, and not what it has reported last. */
  lemma ButtonReportsRun(threshold: nat, readings: seq<bool>, events: seq<Option<bool>>, t: nat, pressed: bool)
    requires Debounced(true, threshold, readings, events) && t < |events|
    ensures events[t] == Some(pressed) <==>
      && Reported(true, events[..t]) == Some(!pressed)
      && t >= threshold && forall k :: t - threshold <= k <= t ==> readings[k] == pressed
  {
    hide Reported;
    ButtonKnown(events[..t]);
    var last := Reported(true, events[..t]).value;
    if Confirmed(true, threshold, readings, Some(last), t) {
      assert readings[t] != last;
      forall k | t - threshold <= k <= t ensures readings[k] == readings[t] { assert Some(last) != Some(readings[k]); }
    }
  }

  lemma {:induction false} ButtonKnown(events: seq<Option<bool>>)
    ensures Reported(true, events).Some?
  {
    if events != [] { ButtonKnown(events[..|events| - 1]); }
  }
}
