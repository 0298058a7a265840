/** One poll of the watcher loop (main with the -d flag): compare the new
    statuses with the statuses fetched at start-up and notify each streamer
    that is live now and was not then. The start-up statuses are never
    replaced, so every poll compares against them. */
module Daemon {
  import opened CLib
  import Commands

  /** Line 42: not live at start-up, live now. */
  predicate ShouldNotify(baseline: int, now: int)
  {
    baseline != 0 && now == 0
  }

  /** The indices below n that get a notification, in increasing order. */
  function NotifiedBelow(baseline: seq<int>, polled: seq<int>, n: nat): (r: seq<nat>)
    requires n <= |baseline| == |polled|
    ensures forall k :: 0 <= k < |r| ==> r[k] < n && ShouldNotify(baseline[r[k]], polled[r[k]])
    ensures forall i :: 0 <= i < n && ShouldNotify(baseline[i], polled[i]) ==> i in r
    ensures forall k, l :: 0 <= k < l < |r| ==> r[k] < r[l]
  {
    if n == 0 then []
    else NotifiedBelow(baseline, polled, n - 1) + (if ShouldNotify(baseline[n - 1], polled[n - 1]) then [n - 1] else [])
  }

  /** The streamers one poll notifies, in index order. */
  function Notified(baseline: seq<int>, polled: seq<int>): seq<nat>
    requires |baseline| == |polled|
  {
    NotifiedBelow(baseline, polled, |polled|)
  }

  /** Lines 41-52: the NUL-terminated commands one poll passes to system(), in order. */
  method Poll(streamers: seq<string>, baseline: array<int>, polled: array<int>) returns (commands: seq<string>)
    requires |streamers| == baseline.Length == polled.Length
    ensures var n := Notified(baseline[..], polled[..]);
            |commands| == |n| && forall k :: 0 <= k < |n| ==> commands[k] == Commands.NotificationText(streamers[n[k]]) + [NUL]
  {
    ghost var b, p := baseline[..], polled[..];
    commands := [];
    var i := 0;
    while i != baseline.Length
      invariant 0 <= i <= baseline.Length
      invariant var n := NotifiedBelow(b, p, i);
                |commands| == |n| && forall k :: 0 <= k < |n| ==> commands[k] == Commands.NotificationText(streamers[n[k]]) + [NUL]
    {
      ghost var before := NotifiedBelow(b, p, i);
      if baseline[i] != 0 && polled[i] == 0 {
        assert NotifiedBelow(b, p, i + 1) == before + [i];
        var notification := Commands.BuildNotification(streamers[i]);
        commands := commands + [notification[..]];
      } else {
        assert NotifiedBelow(b, p, i + 1) == before;
      }
      i := i + 1;
    }
  }

  /** Because the baseline stays the start-up snapshot, a streamer who was not
      live at start-up is notified again on every poll that finds them live,
      not only on the poll where they went live. */
  lemma RenotifiedWhileLive(baseline: seq<int>, poll1: seq<int>, poll2: seq<int>, i: nat)
    requires |baseline| == |poll1| == |poll2| && i < |baseline|
    requires baseline[i] != 0 && poll1[i] == 0 && poll2[i] == 0
    ensures i in Notified(baseline, poll1) && i in Notified(baseline, poll2)
  {
  }

  /** A streamer live at start-up is never notified, whatever later polls find. */
  lemma LiveAtStartNeverNotified(baseline: seq<int>, polled: seq<int>, i: nat)
    requires |baseline| == |polled| && i < |baseline| && baseline[i] == 0
    ensures i !in Notified(baseline, polled)
  {
  }

  /** Start-up statuses offline, live, error; a poll finding all three live
      notifies the first and the third streamer. */
  lemma NotifiedExample()
    ensures Notified([1, 0, 2], [0, 0, 0]) == [0, 2]
  {
    var b, p := [1, 0, 2], [0, 0, 0];
    assert NotifiedBelow(b, p, 0) == [];
    assert ShouldNotify(b[0], p[0]) && !ShouldNotify(b[1], p[1]) && ShouldNotify(b[2], p[2]);
    assert NotifiedBelow(b, p, 1) == [] + [0];
    assert NotifiedBelow(b, p, 2) == [0] + [];
    assert NotifiedBelow(b, p, 3) == [0] + [2];
  }
}
