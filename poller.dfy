/** The polling loop of `navigation` in `navigation.rs`: it reads the webview's path,
    holds back while a game path has not changed, remembers the path in `last_path`, and
    dispatches on it. The successive `window.url()` reads are the samples `feed(0)`,
    `feed(1)`, ...; the one-second sleeps are not modelled. */
module Poller {
  import opened Wrappers
  import opened Routes

  /** The number of extra reads of the retry loop (`for _ in 0..20`). */
  const RetryBudget: nat := 20

  predicate IsGamePath(path: string) {
    IsLiveGame(path) || IsOfflineGame(path)
  }

  /** The first of the `budget` samples from `from` on that differs from `last`. */
  function FirstChange(last: string, feed: nat -> string, from: nat, budget: nat): (r: Option<nat>)
    ensures r.Some? ==> from <= r.value < from + budget && feed(r.value) != last
    ensures r.Some? ==> forall j :: from <= j < r.value ==> feed(j) == last
    ensures r.None? ==> forall j :: from <= j < from + budget ==> feed(j) == last
    decreases budget
  {
    if budget == 0 then None
    else if feed(from) != last then Some(from)
    else FirstChange(last, feed, from + 1, budget - 1)
  }

  /** One pass of the loop body from the read at `pos`: either the `continue` after a
      change seen while retrying, or the path adopted as `last_path` and what was done. */
  datatype Tick =
    | Restart(next: nat)
    | Proceed(next: nat, path: string, action: Action)

  function TickSpec(last: string, feed: nat -> string, pos: nat): Tick {
    var current := feed(pos);
    if IsGamePath(current) && current == last then
      var change := FirstChange(last, feed, pos + 1, RetryBudget);
      if change.Some? then Restart(change.value + 1)
      else Proceed(pos + 1 + RetryBudget, current, Dispatch(current))
    else Proceed(pos + 1, current, Dispatch(current))
  }

  /** The loop's state between passes: `last_path`, the position of the next read, what
      has been done so far, and whether the task is still alive (a panic ends it). */
  datatype Loop = Loop(last: string, pos: nat, actions: seq<Action>, running: bool)

  /** One pass of the loop: a restart keeps `last_path`; otherwise the path read is
      adopted and dispatched. A stopped task stays stopped. */
  function Next(feed: nat -> string, s: Loop): Loop {
    if !s.running then s
    else
      match TickSpec(s.last, feed, s.pos)
      case Restart(next) => s.(pos := next)
      case Proceed(next, path, action) => Loop(path, next, s.actions + [action], !action.Panic?)
  }

  /** The state after `k` passes, starting from the initial read into `last_path`. */
  function Passes(feed: nat -> string, k: nat): Loop {
    if k == 0 then Loop(feed(0), 1, [], true) else Next(feed, Passes(feed, k - 1))
  }

  /** A sample that differs after a run of equal ones within the budget is the first change. */
  lemma {:induction false} FirstChangeAt(last: string, feed: nat -> string, from: nat, budget: nat, at: nat)
    requires from <= at < from + budget && feed(at) != last
    requires forall j :: from <= j < at ==> feed(j) == last
    ensures FirstChange(last, feed, from, budget) == Some(at)
    decreases budget
  {
    if at != from {
      assert feed(from) == last;
      FirstChangeAt(last, feed, from + 1, budget - 1, at);
    }
  }

  // ---------------------------------------------------------------- the loops

  /** The retry loop: up to `RetryBudget` reads from `pos` on, stopping at the first
      that differs from `last`; `next` is the position of the following read. */
  method AwaitChange(last: string, feed: nat -> string, pos: nat) returns (newUrl: bool, next: nat)
    ensures var change := FirstChange(last, feed, pos, RetryBudget);
      && newUrl == change.Some?
      && next == (if newUrl then change.value + 1 else pos + RetryBudget)
  {
    newUrl := false;
    next := pos;
    for k := 0 to RetryBudget
      invariant next == pos + k
      invariant forall j :: pos <= j < pos + k ==> feed(j) == last
    {
      var currentUrl := feed(next);
      next := next + 1;
      if currentUrl != last {
        newUrl := true;
        FirstChangeAt(last, feed, pos, RetryBudget, next - 1);
        return;
      }
    }
  }

  /** One pass of the loop body from the read at `pos` with `last_path = last`: `restart`
      is the `continue` after a change seen while retrying; otherwise `path` is the new
      `last_path` and `action` what the pass does with it. */
  method PollOnce(last: string, feed: nat -> string, pos: nat)
    returns (restart: bool, next: nat, path: string, action: Action)
    ensures restart ==> TickSpec(last, feed, pos) == Restart(next)
    ensures !restart ==> TickSpec(last, feed, pos) == Proceed(next, path, action)
  {
    path := feed(pos);
    next := pos + 1;
    action := Panic;
    var isLiveGame := IsLiveGame(path);
    var isOfflineGame := IsOfflineGame(path);
    if isLiveGame || isOfflineGame {
      if path == last {
        var newUrl;
        newUrl, next := AwaitChange(last, feed, next);
        if newUrl {
          return true, next, path, action;
        }
      }
    }
    restart := false;
    action := Dispatch(path);
  }

  /** `ticks` passes of the polling loop after the initial read of `last_path`. */
  method Navigation(feed: nat -> string, ticks: nat) returns (actions: seq<Action>, lastPath: string)
    ensures actions == Passes(feed, ticks).actions && lastPath == Passes(feed, ticks).last
  {
    lastPath := feed(0);
    actions := [];
    var pos := 1;
    var k := 0;
    while k < ticks
      invariant k <= ticks && Passes(feed, k) == Loop(lastPath, pos, actions, true)
    {
      var restart, next, currentPath, action := PollOnce(lastPath, feed, pos);
      PassesStep(feed, k, Loop(lastPath, pos, actions, true));
      k := k + 1;
      if restart {
        pos := next;
        continue;
      }
      lastPath, pos, actions := currentPath, next, actions + [action];
      if action.Panic? {
        StaysStopped(feed, k, ticks);
        return;
      }
    }
  }

  /** The pass after a running state, as the tick read at its position decides it. */
  lemma PassesStep(feed: nat -> string, k: nat, s: Loop)
    requires Passes(feed, k) == s && s.running
    ensures TickSpec(s.last, feed, s.pos).Restart? ==>
      Passes(feed, k + 1) == s.(pos := TickSpec(s.last, feed, s.pos).next)
    ensures TickSpec(s.last, feed, s.pos).Proceed? ==>
      var t := TickSpec(s.last, feed, s.pos);
      Passes(feed, k + 1) == Loop(t.path, t.next, s.actions + [t.action], !t.action.Panic?)
  {
  }

  /** Once the task has stopped, further passes change nothing. */
  lemma {:induction false} StaysStopped(feed: nat -> string, k: nat, m: nat)
    requires k <= m && !Passes(feed, k).running
    ensures Passes(feed, m) == Passes(feed, k)
    decreases m - k
  {
    if k < m {
      StaysStopped(feed, k, m - 1);
    }
  }

  // ---------------------------------------------------------------- properties

  /** A pass reads one sample, or that one and at most `RetryBudget` more. */
  lemma TickReadsBounded(last: string, feed: nat -> string, pos: nat)
    ensures pos + 1 <= TickSpec(last, feed, pos).next <= pos + 1 + RetryBudget
  {
  }

  /** The retry applies only to a game path equal to `last_path`, and restarts exactly
      when one of the next `RetryBudget` samples differs from it. */
  lemma RestartIff(last: string, feed: nat -> string, pos: nat)
    ensures TickSpec(last, feed, pos).Restart? <==>
      && IsGamePath(feed(pos)) && feed(pos) == last
      && exists j :: pos + 1 <= j < pos + 1 + RetryBudget && feed(j) != last
  {
    var change := FirstChange(last, feed, pos + 1, RetryBudget);
    if change.Some? {
      assert feed(change.value) != last;
    }
  }

  /** A pass that does not restart adopts the sample it read as `last_path`. */
  lemma ProceedAdoptsPath(last: string, feed: nat -> string, pos: nat)
    ensures TickSpec(last, feed, pos).Proceed? ==>
      TickSpec(last, feed, pos).path == feed(pos) && TickSpec(last, feed, pos).action == Dispatch(feed(pos))
  {
  }

  /** The same game is fetched again only after the whole retry budget saw no change. */
  lemma RepeatFetchNeedsStablePath(last: string, feed: nat -> string, pos: nat)
    requires IsGamePath(last) && TickSpec(last, feed, pos).Proceed? && TickSpec(last, feed, pos).path == last
    ensures forall j :: pos < j <= pos + RetryBudget ==> feed(j) == last
    ensures TickSpec(last, feed, pos).next == pos + 1 + RetryBudget
  {
    var change := FirstChange(last, feed, pos + 1, RetryBudget);
    assert change.None?;
  }

  /** Samples `/game/1`, `/game/1`, `/game/1`, `/results/1`, ... with `last_path = /game/1`:
      the first pass sees the change while retrying and restarts without a fetch; the
      next pass shows the results page as a menu. */
  lemma DebounceExample(feed: nat -> string)
    requires feed(0) == "/game/1" && feed(1) == "/game/1" && feed(2) == "/game/1"
    requires forall j :: j >= 3 ==> feed(j) == "/results/1"
    ensures TickSpec(feed(0), feed, 1) == Restart(4)
    ensures Passes(feed, 2) == Loop("/results/1", 5, [SetActivity("In Menu", Some("/results/1"))], true)
  {
    var game := "/game/1";
    assert IsOfflineGame(game) by { assert game[..5] == "/game"; }
    assert FirstChange(game, feed, 2, RetryBudget) == Some(3) by {
      assert feed(2) == game && feed(3) != game;
      assert "/results/1"[1] != game[1];
    }
    ResultsPage();
  }

  lemma ResultsPage()
    ensures TickSpec("/game/1", (j: nat) => "/results/1", 0).Proceed?
    ensures Dispatch("/results/1") == SetActivity("In Menu", Some("/results/1"))
  {
    var path := "/results/1";
    assert !IsOfflineGame(path) by { assert path[1] != 'g'; }
    assert !IsLiveGame(path) by {
      forall i | 0 <= i < |MultiPlayerGames| ensures !Text.StartsWith(path, MultiPlayerGames[i]) {
        assert MultiPlayerGames[i][1] != 'r';
      }
    }
    var t := MenuTable;
    forall j | 1 <= j < |t| ensures !Text.StartsWith(path, t[j].0) {
      assert |t[j].0| >= 3 && (t[j].0[1] != path[1] || t[j].0[2] != path[2]);
    }
    assert Text.StartsWith(path, t[0].0);
    LastMatchIs(t, path, |t|, 0);
  }
}
