/** The window in which authentication failures are counted (accounts/service.py). Times are seconds. */
module AuthWindow {
  import opened Prelude

  const WINDOW := 3600   // timedelta(hours=1)

  /** `auth_failure_count` and `auth_failure_window_started_at`. */
  datatype Window = Window(count: nat, started: Option<int>)

  const NO_FAILURES := Window(0, None)

  function Fail(w: Window, now: int): Window
  {
    if w.started.None? || now - w.started.value >= WINDOW then Window(1, Some(now)) else w.(count := w.count + 1)
  }

  predicate Pauses(w: Window, now: int) { Fail(w, now).count >= 3 }

  /** What happens to the window: a failure is counted, or the session or the credentials are renewed. Being paused
      and resumed in between leaves the window alone. */
  datatype Event = Failed(at: int) | Renewed

  function After(events: seq<Event>): Window
  {
    if events == [] then NO_FAILURES
    else
      var w := After(events[..|events|-1]);
      match events[|events|-1]
      case Failed(at) => Fail(w, at)
      case Renewed => NO_FAILURES
  }

  predicate PausesAt(events: seq<Event>, n: nat)
    requires n < |events|
  {
    events[n].Failed? && Pauses(After(events[..n]), events[n].at)
  }

  /** A clock that does not run backwards. */
  predicate Monotone(events: seq<Event>)
  {
    forall i, j | 0 <= i < j < |events| && events[i].Failed? && events[j].Failed? :: events[i].at <= events[j].at
  }

  /** The counted failures: the last `count` events, all within the window that opened with the first of them. */
  predicate Counted(events: seq<Event>, w: Window)
  {
    && w.count <= |events|
    && (w.count == 0 <==> w.started.None?)
    && (forall i | |events| - w.count <= i < |events| ::
          events[i].Failed? && w.started.value <= events[i].at < w.started.value + WINDOW)
    && (w.count > 0 ==> events[|events| - w.count] == Failed(w.started.value))
  }

  lemma {:induction false} CountedAlways(events: seq<Event>)
    requires Monotone(events)
    ensures Counted(events, After(events))
  {
    if events != [] {
      var n := |events| - 1;
      assert Monotone(events[..n]);
      CountedAlways(events[..n]);
      var w := After(events[..n]);
      assert forall i | 0 <= i < n :: events[..n][i] == events[i];
      if w.count > 0 && events[n].Failed? {
        assert events[n - w.count].at <= events[n].at;
      }
    }
  }

  /** Sound: an account is paused only by the last of three failures in a row within less than the window. */
  lemma PausedOnlyAfterThree(events: seq<Event>, n: nat)
    requires Monotone(events) && n < |events| && PausesAt(events, n)
    ensures n >= 2 && events[n-1].Failed? && events[n-2].Failed? && events[n].at - events[n-2].at < WINDOW
  {
    assert Monotone(events[..n+1]);
    CountedAlways(events[..n+1]);
    assert events[..n+1][..n] == events[..n];
    var w := After(events[..n+1]);
    assert w == Fail(After(events[..n]), events[n].at);
    assert forall i | n + 1 - w.count <= i < n + 1 :: events[..n+1][i] == events[i];
  }

  /** Complete: of any four failures in a row within less than the window, one pauses the account. */
  lemma FourFailuresPause(events: seq<Event>, n: nat)
    requires Monotone(events) && n + 4 <= |events|
    requires forall i | n <= i < n + 4 :: events[i].Failed?
    requires events[n+3].at - events[n].at < WINDOW
    ensures exists i | n <= i < n + 4 :: PausesAt(events, i)
  {
    assert Monotone(events[..n]);
    CountedAlways(events[..n]);
    var w0 := After(events[..n]);
    var w1 := After(events[..n+1]);
    var w2 := After(events[..n+2]);
    var w3 := After(events[..n+3]);
    assert events[..n+1][..n] == events[..n] && w1 == Fail(w0, events[n].at);
    assert events[..n+2][..n+1] == events[..n+1] && w2 == Fail(w1, events[n+1].at);
    assert events[..n+3][..n+2] == events[..n+2] && w3 == Fail(w2, events[n+2].at);
    assert events[n].at <= events[n+1].at <= events[n+2].at <= events[n+3].at;
    assert PausesAt(events, n + 1) || PausesAt(events, n + 2) || PausesAt(events, n + 3);
  }

  /** The window `w` closes between the two failures that come next, the first of which is its second. */
  predicate Splits(w: Window, first: int, second: int)
  {
    w.count == 1 && w.started.Some? && first - w.started.value < WINDOW <= second - w.started.value
  }

  /** Of three failures in a row within less than the window, one pauses the account, unless the window that was open
      before them had one failure, takes the first of them as its second, and is over when the second comes; and exactly
      then none does. */
  lemma ThreeFailuresPauseIff(events: seq<Event>, n: nat)
    requires Monotone(events) && n + 3 <= |events|
    requires forall i | n <= i < n + 3 :: events[i].Failed?
    requires events[n+2].at - events[n].at < WINDOW
    ensures (exists i | n <= i < n + 3 :: PausesAt(events, i))
            <==> !Splits(After(events[..n]), events[n].at, events[n+1].at)
  {
    assert Monotone(events[..n]);
    CountedAlways(events[..n]);
    var w0 := After(events[..n]);
    var w1 := After(events[..n+1]);
    var w2 := After(events[..n+2]);
    assert events[..n+1][..n] == events[..n] && w1 == Fail(w0, events[n].at);
    assert events[..n+2][..n+1] == events[..n+1] && w2 == Fail(w1, events[n+1].at);
    assert events[n].at <= events[n+1].at <= events[n+2].at;
    assert (exists i | n <= i < n + 3 :: PausesAt(events, i))
      <==> PausesAt(events, n) || PausesAt(events, n + 1) || PausesAt(events, n + 2);
  }

  /** So three may not be enough: a window that is about to close may split them. */
  lemma ThreeMayNotPause()
    ensures var events := [Failed(0), Failed(3540), Failed(3600), Failed(3660)];
            && Monotone(events) && events[3].at - events[1].at < WINDOW
            && !PausesAt(events, 1) && !PausesAt(events, 2) && !PausesAt(events, 3)
  {
    var events := [Failed(0), Failed(3540), Failed(3600), Failed(3660)];
    assert events[..1] == [Failed(0)] && events[..2] == [Failed(0), Failed(3540)];
    assert events[..3] == [Failed(0), Failed(3540), Failed(3600)];
    assert events[..1][..0] == [];
    assert events[..2][..1] == events[..1];
    assert events[..3][..2] == events[..2];
    assert After([]) == NO_FAILURES;
    assert After(events[..1]) == Window(1, Some(0));
    assert After(events[..2]) == Window(2, Some(0));
    assert After(events[..3]) == Window(1, Some(3600));
  }
}
