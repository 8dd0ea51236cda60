/**
  The batch URL-list editor of `tui_get_info`: a key-driven loop over a list
  of at most ten URLs that ends either by starting the batch (handing the
  list over as a `TuiResult`) or by quitting.

  The screen is not modelled. Each pass of the loop reads one key; the `a`
  key additionally reads one line of text, which a `Keystroke` carries with it.
 */
module UrlEditor {
  import opened Keys

  /** The list holds at most this many URLs. */
  const MaxUrls: nat := 10

  /** The line prompt reads at most this many bytes (one `char` per byte). */
  const MaxLineLength: nat := 1023

  /** One pass of the loop: the key read, and the line the user would type
      if this pass prompts for one (ignored otherwise). */
  datatype Keystroke = Keystroke(key: int, line: string)

  /** The batch handed to the downloader: the `urls` and `count` fields. */
  datatype TuiResult = TuiResult(urls: seq<string>, count: int)

  /** What one pass of the loop leads to. */
  datatype Outcome = Editing(urls: seq<string>) | Started(result: TuiResult) | Quit

  /** Where a run of the loop over a finite key sequence ends: still waiting
      for the next key, finished with a batch, or quit. */
  datatype Session = Waiting(urls: seq<string>) | Done(result: TuiResult) | Quitted

  /** Every list the editor can build: at most ten URLs, none empty, none
      longer than the prompt allows. */
  predicate WellFormed(urls: seq<string>) {
    && |urls| <= MaxUrls
    && forall i :: 0 <= i < |urls| ==> 0 < |urls[i]| <= MaxLineLength
  }

  /** The text the line prompt stores for what the user typed: the typed line
      cut to the prompt's capacity. */
  function Prompted(line: string): (r: string)
    ensures r <= line
    ensures |r| == if |line| <= MaxLineLength then |line| else MaxLineLength
  {
    if |line| <= MaxLineLength then line else line[..MaxLineLength]
  }

  /** One pass of the editor loop. */
  function Step(urls: seq<string>, k: Keystroke): (o: Outcome)
    // `q` quits, and nothing else does
    ensures o.Quit? <==> k.key == KeyQuit
    // `s` leaves the loop exactly when the list is non-empty, handing over the list as it is
    ensures o.Started? <==> k.key == KeyStart && |urls| > 0
    ensures o.Started? ==> o.result.urls == urls && o.result.count == |urls|
    // `a` appends exactly the typed line at the end when there is room and the line is
    // non-empty, keeping every earlier entry; otherwise it changes nothing
    ensures k.key == KeyAdd ==>
      && o.Editing?
      && if |urls| < MaxUrls && |Prompted(k.line)| > 0
         then |o.urls| == |urls| + 1 && o.urls[..|urls|] == urls && o.urls[|urls|] == Prompted(k.line)
         else o.urls == urls
    // `d` drops exactly the last entry, and is a no-op on an empty list
    ensures k.key == KeyDelete ==>
      && o.Editing?
      && if |urls| > 0 then |o.urls| == |urls| - 1 && o.urls == urls[..|o.urls|] else o.urls == urls
    // every other key, and `s` on an empty list, leaves the list as it was
    ensures k.key != KeyAdd && k.key != KeyDelete && o.Editing? ==> o.urls == urls
    ensures WellFormed(urls) && o.Editing? ==> WellFormed(o.urls)
  {
    if k.key == KeyQuit then Quit
    else if k.key == KeyAdd then
      var entry := Prompted(k.line);
      if |urls| < MaxUrls && |entry| > 0 then Editing(urls + [entry]) else Editing(urls)
    else if k.key == KeyDelete then
      if |urls| > 0 then Editing(urls[..|urls| - 1]) else Editing(urls)
    else if k.key == KeyStart && |urls| > 0 then Started(TuiResult(urls, |urls|))
    else Editing(urls)
  }

  /** The editor loop run over a finite sequence of keystrokes, starting from `urls`. */
  function Run(urls: seq<string>, keys: seq<Keystroke>): (r: Session)
    ensures WellFormed(urls) && r.Waiting? ==> WellFormed(r.urls)
    ensures WellFormed(urls) && r.Done? ==>
      WellFormed(r.result.urls) && 0 < r.result.count == |r.result.urls|
    ensures r.Quitted? ==> exists i :: 0 <= i < |keys| && keys[i].key == KeyQuit
    ensures r.Done? ==> exists i :: 0 <= i < |keys| && keys[i].key == KeyStart
    ensures |keys| == 0 ==> r == Waiting(urls)
    decreases |keys|
  {
    if |keys| == 0 then Waiting(urls)
    else
      match Step(urls, keys[0])
      case Editing(next) =>
        var r := Run(next, keys[1..]);
        assert r.Quitted? ==> exists i :: 0 <= i < |keys| && keys[i].key == KeyQuit by {
          if r.Quitted? {
            var j :| 0 <= j < |keys[1..]| && keys[1..][j].key == KeyQuit;
            assert keys[j + 1].key == KeyQuit;
          }
        }
        assert r.Done? ==> exists i :: 0 <= i < |keys| && keys[i].key == KeyStart by {
          if r.Done? {
            var j :| 0 <= j < |keys[1..]| && keys[1..][j].key == KeyStart;
            assert keys[j + 1].key == KeyStart;
          }
        }
        r
      case Started(result) => Done(result)
      case Quit => Quitted
  }

  /** `tui_get_info`: the editor loop started on an empty list. */
  function GetInfo(keys: seq<Keystroke>): (r: Session)
    ensures r.Done? ==>
      && 0 < r.result.count <= MaxUrls
      && r.result.count == |r.result.urls|
      && forall i :: 0 <= i < |r.result.urls| ==> 0 < |r.result.urls[i]| <= MaxLineLength
    ensures r.Waiting? ==> |r.urls| <= MaxUrls
  {
    Run([], keys)
  }

  /** The loop consumes keystrokes one after another: running over `a + b` is
      running over `a` and then, if the loop is still waiting, over `b`; a
      finished or quit session ignores every later key. */
  lemma {:induction false} RunConcat(urls: seq<string>, a: seq<Keystroke>, b: seq<Keystroke>)
    ensures Run(urls, a + b) == match Run(urls, a)
                                 case Waiting(u) => Run(u, b)
                                 case Done(result) => Done(result)
                                 case Quitted => Quitted
    decreases |a|
  {
    if |a| == 0 {
      assert a + b == b;
    } else {
      assert (a + b)[0] == a[0];
      assert (a + b)[1..] == a[1..] + b;
      match Step(urls, a[0])
      case Editing(next) =>
        RunConcat(next, a[1..], b);
      case Started(result) =>
      case Quit =>
    }
  }

  /** Pressing `s` while the list is non-empty ends the session with exactly
      the list built so far, whatever keys follow. */
  lemma StartHandsOverCurrentList(urls: seq<string>, a: seq<Keystroke>, line: string, b: seq<Keystroke>)
    requires Run(urls, a).Waiting? && |Run(urls, a).urls| > 0
    ensures var u := Run(urls, a).urls;
            Run(urls, a + [Keystroke(KeyStart, line)] + b) == Done(TuiResult(u, |u|))
  {
    var u := Run(urls, a).urls;
    assert a + [Keystroke(KeyStart, line)] + b == a + ([Keystroke(KeyStart, line)] + b);
    RunConcat(urls, a, [Keystroke(KeyStart, line)] + b);
  }

  /** Deleting right after a successful add undoes it. */
  lemma AddThenDeleteRestores(urls: seq<string>, line: string, rest: seq<Keystroke>)
    requires |urls| < MaxUrls && |Prompted(line)| > 0
    ensures Run(urls, [Keystroke(KeyAdd, line), Keystroke(KeyDelete, [])] + rest) == Run(urls, rest)
  {
  }
}
