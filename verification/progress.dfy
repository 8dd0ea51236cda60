/**
  The single-transfer progress view's state and its transitions: the
  file-level statics, `tui_progress_create`, and `tui_progress_update` with
  its pause/resume loop.

  Keys come from a finite stream of values the non-blocking key read would
  return. Quitting is an outcome value rather than a process exit; running
  out of keys inside the pause loop means the loop is still waiting.
 */
module Progress {
  import opened Keys

  /** The progress statics: whether the window exists, `prog_total`,
      `prog_current`, `prog_start_time` (in whole seconds) and `prog_paused`. */
  datatype State = State(windowOpen: bool, total: int, current: int, startTime: int, paused: bool)

  /** The statics before any transfer has been shown. */
  const Initial: State := State(false, 0, 0, 0, false)

  /** The keys the pause loop reacts to. */
  predicate IsControl(k: int) {
    k == KeyPause || k == KeyQuit
  }

  /** `tui_progress_create`: show a new transfer of `total` bytes of which
      `initial` are already present, started at clock reading `now`. When no
      window exists yet, one is requested; `granted` says whether the terminal
      granted it (curses refuses a window whose centred origin is negative). */
  function Create(s: State, initial: int, total: int, now: int, granted: bool): (r: State)
    // an existing window is kept; otherwise there is one exactly when the request succeeded
    ensures r.windowOpen <==> s.windowOpen || granted
    ensures r.total == total && r.current == initial && r.startTime == now
    ensures r.paused == s.paused
  {
    State(s.windowOpen || granted, total, initial, now, s.paused)
  }

  /** The position of the first pause or quit key in `keys`, or `|keys|` if there is none. */
  function FirstControl(keys: seq<int>): (i: nat)
    ensures i <= |keys|
    ensures forall j :: 0 <= j < i ==> !IsControl(keys[j])
    ensures i < |keys| ==> IsControl(keys[i])
    decreases |keys|
  {
    if |keys| == 0 then 0
    else if IsControl(keys[0]) then 0
    else 1 + FirstControl(keys[1..])
  }

  /** How the pause loop ends: resumed with the keys after the resuming `p`,
      quit, or still paused when the keys run out. */
  datatype PauseEnd = Resumed(rest: seq<int>) | QuitWhilePaused | StillPaused

  /** The pause loop: poll keys until `p` resumes or `q` quits; every other key,
      and an empty poll, is ignored. */
  function PauseLoop(keys: seq<int>): (r: PauseEnd)
    // it resumes only on a `p`, handing back exactly the keys after it
    ensures r.Resumed? ==>
      && |r.rest| < |keys|
      && keys[|keys| - |r.rest| - 1] == KeyPause
      && r.rest == keys[|keys| - |r.rest|..]
    ensures r.QuitWhilePaused? ==> KeyQuit in keys
    // it stays paused only if neither `p` nor `q` ever arrives
    ensures r.StillPaused? <==> KeyPause !in keys && KeyQuit !in keys
    decreases |keys|
  {
    if |keys| == 0 then StillPaused
    else if keys[0] == KeyPause then Resumed(keys[1..])
    else if keys[0] == KeyQuit then QuitWhilePaused
    else PauseLoop(keys[1..])
  }

  /** The pause loop ends at the first pause or quit key and nowhere else:
      it resumes exactly when that key is `p`, quits exactly when it is `q`,
      and is still waiting when there is no such key. */
  lemma {:induction false} PauseLoopStopsAtFirstControl(keys: seq<int>)
    ensures var i := FirstControl(keys);
            PauseLoop(keys) == if i == |keys| then StillPaused
                               else if keys[i] == KeyPause then Resumed(keys[i + 1..])
                               else QuitWhilePaused
    decreases |keys|
  {
    if |keys| > 0 && !IsControl(keys[0]) {
      var tail := keys[1..];
      PauseLoopStopsAtFirstControl(tail);
      var j := FirstControl(tail);
      if j < |tail| {
        assert tail[j] == keys[j + 1];
        assert tail[j + 1..] == keys[j + 2..];
      }
    }
  }

  /** How one progress update ends. */
  datatype UpdateEnd = Returned(state: State, rest: seq<int>) | UpdateQuit | Suspended(state: State)

  /** `tui_progress_update`: add `howmuch` bytes, then react to the next key.
      `q` quits; `p` toggles the pause flag and, while it is set, runs the
      pause loop; any other key, or none, is ignored. An update that returns
      then redraws; that frame is `Render.Draw` of the returned state. */
  function Update(s: State, howmuch: int, keys: seq<int>): (r: UpdateEnd)
    // the byte counter rises by exactly `howmuch`; total, start time and window are untouched
    ensures (r.Returned? || r.Suspended?) ==>
      && r.state.current == s.current + howmuch
      && r.state.total == s.total
      && r.state.startTime == s.startTime
      && r.state.windowOpen == s.windowOpen
    // entered unpaused, it only ever returns unpaused; it waits only while paused
    ensures !s.paused && r.Returned? ==> !r.state.paused
    ensures r.Suspended? ==> r.state.paused
    // `q` as the first key quits
    ensures Poll(keys) == KeyQuit ==> r.UpdateQuit?
    // any other key but `p`, or an empty poll, is consumed and ignored
    ensures !IsControl(Poll(keys)) ==> r == Returned(s.(current := s.current + howmuch), Consume(keys))
    // `p` while unpaused pauses; the update then returns exactly when a later `p`
    // comes before any `q`, having consumed the keys up to that `p`, and quits
    // exactly when a `q` comes first
    ensures !s.paused && Poll(keys) == KeyPause ==>
      var rest := Consume(keys);
      var i := FirstControl(rest);
      && (r.Returned? <==> i < |rest| && rest[i] == KeyPause)
      && (r.Returned? ==> r.rest == rest[i + 1..])
      && (r.UpdateQuit? <==> i < |rest| && rest[i] == KeyQuit)
  {
    var counted := s.(current := s.current + howmuch);
    var key := Poll(keys);
    var rest := Consume(keys);
    if key == KeyQuit then UpdateQuit
    else if key == KeyPause then
      var toggled := counted.(paused := !counted.paused);
      if !toggled.paused then Returned(toggled, rest) else WhilePaused(toggled, rest)
    else Returned(counted, rest)
  }

  /** The rest of an update once `p` has set the pause flag: the pause loop,
      which clears the flag again on resuming. */
  function WhilePaused(s: State, keys: seq<int>): (r: UpdateEnd)
    requires s.paused
    ensures r.Returned? ==> r.state == s.(paused := false)
    ensures r.Suspended? ==> r.state == s
    ensures var i := FirstControl(keys);
      && (r.Returned? <==> i < |keys| && keys[i] == KeyPause)
      && (r.Returned? ==> r.rest == keys[i + 1..])
      && (r.UpdateQuit? <==> i < |keys| && keys[i] == KeyQuit)
  {
    PauseLoopStopsAtFirstControl(keys);
    match PauseLoop(keys)
    case Resumed(after) => Returned(s.(paused := false), after)
    case QuitWhilePaused => UpdateQuit
    case StillPaused => Suspended(s)
  }

  /** A call the downloader makes into the progress view. */
  datatype Call = CreateCall(initial: int, total: int, now: int, granted: bool) | UpdateCall(howmuch: int)

  /** Where a sequence of calls ends: all calls made (with the keys left over),
      quit, or waiting inside a paused update. */
  datatype SessionEnd = Live(state: State, keys: seq<int>) | Quitted | Blocked(state: State)

  /** The byte counters alone: `prog_total` and `prog_current`. */
  datatype Counters = Counters(total: int, current: int)

  /** The byte counters a sequence of calls leads to, keys aside: a create
      resets them, an update adds to the current count. */
  function Expected(c: Counters, calls: seq<Call>): (r: Counters)
    ensures |calls| == 0 ==> r == c
    decreases |calls|
  {
    if |calls| == 0 then c
    else match calls[0]
      case CreateCall(initial, total, _, _) => Expected(Counters(total, initial), calls[1..])
      case UpdateCall(howmuch) => Expected(c.(current := c.current + howmuch), calls[1..])
  }

  /** A sequence of calls made against the statics, sharing one key stream. */
  function RunCalls(s: State, calls: seq<Call>, keys: seq<int>): (r: SessionEnd)
    // the keys never change the byte counters
    ensures r.Live? ==>
      Counters(r.state.total, r.state.current) == Expected(Counters(s.total, s.current), calls)
    // between calls the view is never paused
    ensures !s.paused && r.Live? ==> !r.state.paused
    ensures r.Blocked? ==> r.state.paused
    decreases |calls|
  {
    if |calls| == 0 then Live(s, keys)
    else match calls[0]
      case CreateCall(initial, total, now, granted) =>
        assert Expected(Counters(s.total, s.current), calls) == Expected(Counters(total, initial), calls[1..]);
        RunCalls(Create(s, initial, total, now, granted), calls[1..], keys)
      case UpdateCall(howmuch) =>
        assert Expected(Counters(s.total, s.current), calls)
            == Expected(Counters(s.total, s.current + howmuch), calls[1..]);
        match Update(s, howmuch, keys)
        case Returned(next, rest) => RunCalls(next, calls[1..], rest)
        case UpdateQuit => Quitted
        case Suspended(waiting) => Blocked(waiting)
  }

  /** One update call per byte count. */
  function Updates(deltas: seq<int>): (calls: seq<Call>)
    ensures |calls| == |deltas|
    ensures forall i :: 0 <= i < |calls| ==> calls[i] == UpdateCall(deltas[i])
    decreases |deltas|
  {
    if |deltas| == 0 then [] else [UpdateCall(deltas[0])] + Updates(deltas[1..])
  }

  function Sum(xs: seq<int>): int
    decreases |xs|
  {
    if |xs| == 0 then 0 else xs[0] + Sum(xs[1..])
  }

  /** Updates alone add up their byte counts and keep the total. */
  lemma {:induction false} UpdatesAccumulate(c: Counters, deltas: seq<int>)
    ensures Expected(c, Updates(deltas)) == Counters(c.total, c.current + Sum(deltas))
    decreases |deltas|
  {
    if |deltas| > 0 {
      var calls := Updates(deltas);
      assert calls[1..] == Updates(deltas[1..]);
      UpdatesAccumulate(c.(current := c.current + deltas[0]), deltas[1..]);
    }
  }

  /** After a create and a run of updates that all return, the view shows the
      created total, the initial count plus every update, and is not paused. */
  lemma CreateThenUpdates(s: State, initial: int, total: int, now: int, granted: bool, deltas: seq<int>, keys: seq<int>)
    requires !s.paused
    ensures var r := RunCalls(s, [CreateCall(initial, total, now, granted)] + Updates(deltas), keys);
            r.Live? ==>
              && r.state.total == total
              && r.state.current == initial + Sum(deltas)
              && !r.state.paused
  {
    var calls := [CreateCall(initial, total, now, granted)] + Updates(deltas);
    assert calls[1..] == Updates(deltas);
    UpdatesAccumulate(Counters(total, initial), deltas);
  }

  /** A 1000-byte transfer fed 300, 300 and 400 bytes ends at 1000 of 1000,
      whatever keys were pressed, provided the user neither quit nor left it paused. */
  lemma ThreeUpdatesReachTotal(now: int, granted: bool, keys: seq<int>)
    ensures var r := RunCalls(Initial, [CreateCall(0, 1000, now, granted)] + Updates([300, 300, 400]), keys);
            r.Live? ==> r.state.current == 1000 == r.state.total && !r.state.paused
  {
    CreateThenUpdates(Initial, 0, 1000, now, granted, [300, 300, 400], keys);
    assert Sum([300, 300, 400]) == 1000 by {
      assert [300, 300, 400][1..] == [300, 400];
      assert [300, 400][1..] == [400];
      assert [400][1..] == [];
    }
  }
}
