/** What the tracker and the detector know after a whole observation, told from the events and
    the probes alone, and exactly when a page is complete. */
module RenderTracker {
  import opened Wrappers
  import opened Text
  import opened RenderStability

  /** The main frame: that of the last main navigation seen, or the one known before. */
  function FrameOf(first: string, hs: seq<Happening>): string {
    if hs == [] then first
    else
      match hs[|hs| - 1]
      case Happened(_, Navigated(frame, true, _)) => frame
      case _ => FrameOf(first, hs[..|hs| - 1])
  }

  /** Happening `k` is a navigation of the main frame. */
  predicate Navigates(first: string, hs: seq<Happening>, k: nat)
    requires k < |hs|
  {
    match hs[k]
    case Happened(_, Navigated(_, isMainFrame, _)) => isMainFrame
    case Happened(_, StartedNavigating(frame, _)) => var main := FrameOf(first, hs[..k]); main == "" || frame == main
    case _ => false
  }

  /** Happening `k` sends a request that counts: for the main frame, or before one is known, or
      for none in particular, and not for media or open-ended connections. */
  predicate Requests(first: string, hs: seq<Happening>, k: nat, id: string)
    requires k < |hs|
  {
    match hs[k]
    case Happened(_, RequestSent(sent, frame, resource, _)) =>
      var main := FrameOf(first, hs[..k]);
      && sent == id && (main == "" || frame == "" || frame == main)
      && resource !in {Media, WebSocket, EventSource, Ping, Image}
    case _ => false
  }

  predicate EndsLoad(hs: seq<Happening>, k: nat, id: string)
    requires k < |hs|
  {
    hs[k].Happened? && hs[k].event == LoadingEnded(id)
  }

  /** From happening `k` on, nothing ends the request or starts another page. */
  ghost predicate Unanswered(first: string, hs: seq<Happening>, k: nat, id: string) {
    forall j: nat :: k <= j < |hs| ==> !Navigates(first, hs, j) && !EndsLoad(hs, j, id)
  }

  /** The request was sent and has neither ended nor been left behind by a navigation. */
  ghost predicate Outstanding(w: Watch, hs: seq<Happening>, id: string) {
    || (exists k: nat :: k < |hs| && Requests(w.activity.mainFrame, hs, k, id)
                         && Unanswered(w.activity.mainFrame, hs, k + 1, id))
    || (id in w.activity.pending && Unanswered(w.activity.mainFrame, hs, 0, id))
  }

  lemma SamePrefix(first: string, hs: seq<Happening>, k: nat, id: string)
    requires hs != [] && k < |hs| - 1
    ensures var front := hs[..|hs| - 1];
            && Navigates(first, front, k) == Navigates(first, hs, k)
            && Requests(first, front, k, id) == Requests(first, hs, k, id)
            && EndsLoad(front, k, id) == EndsLoad(hs, k, id)
            && Loads(first, front, k) == Loads(first, hs, k) && Stops(first, front, k) == Stops(first, hs, k)
  {
    assert hs[..|hs| - 1][..k] == hs[..k];
  }

  /** Happening `k` makes the main frame load. */
  predicate Loads(first: string, hs: seq<Happening>, k: nat)
    requires k < |hs|
  {
    Navigates(first, hs, k)
    || (hs[k].Happened? && hs[k].event == StartedLoading(FrameOf(first, hs[..k])))
  }

  /** Happening `k` ends the loading of the main frame. */
  predicate Stops(first: string, hs: seq<Happening>, k: nat)
    requires k < |hs|
  {
    hs[k].Happened? && hs[k].event == StoppedLoading(FrameOf(first, hs[..k]))
  }

  lemma {:induction false} FrameIsKnown(w: Watch, hs: seq<Happening>)
    ensures After(w, hs).activity.mainFrame == FrameOf(w.activity.mainFrame, hs)
  {
    hide Appended, Seen;
    if hs != [] {
      FrameIsKnown(w, hs[..|hs| - 1]);
    }
  }

  /** One more happening, as far as requests are concerned. */
  lemma PendingStep(w: Watch, hs: seq<Happening>, id: string)
    requires hs != []
    ensures var first, n := w.activity.mainFrame, |hs| - 1;
            id in After(w, hs).activity.pending
            <==> !Navigates(first, hs, n) && !EndsLoad(hs, n, id)
                 && (Requests(first, hs, n, id) || id in After(w, hs[..n]).activity.pending)
  {
    hide Appended, Seen;
    FrameIsKnown(w, hs[..|hs| - 1]);
    if hs[|hs| - 1].Happened? && hs[|hs| - 1].event.RequestSent? {
      WhatCounts(hs[|hs| - 1].event.resource);
    }
  }

  lemma WhatCounts(r: Resource)
    ensures Important(r) <==> r !in {Media, WebSocket, EventSource, Ping, Image}
  {
    match r
    case Document =>
    case OtherResource =>
    case _ =>
  }

  /** The pending requests are exactly the outstanding ones. */
  lemma {:induction false} PendingIsOutstanding(w: Watch, hs: seq<Happening>, id: string)
    ensures id in After(w, hs).activity.pending <==> Outstanding(w, hs, id)
  {
    hide Navigates, Requests, EndsLoad, Loads, Stops, After;
    if hs == [] {
      NothingHappened(w);
    } else {
      var first, front, n := w.activity.mainFrame, hs[..|hs| - 1], |hs| - 1;
      PendingIsOutstanding(w, front, id);
      PendingStep(w, hs, id);
      forall k: nat | k < n
        ensures Navigates(first, front, k) == Navigates(first, hs, k)
        ensures EndsLoad(front, k, id) == EndsLoad(hs, k, id)
        ensures Requests(first, front, k, id) == Requests(first, hs, k, id)
      {
        SamePrefix(first, hs, k, id);
      }
      forall k: nat | k <= n
        ensures Unanswered(first, hs, k, id)
                <==> Unanswered(first, front, k, id) && !Navigates(first, hs, n) && !EndsLoad(hs, n, id)
      {
      }
      OnlyOneKind(first, hs, n, id);
    }
  }

  lemma OnlyOneKind(first: string, hs: seq<Happening>, k: nat, id: string)
    requires k < |hs|
    ensures Requests(first, hs, k, id) ==> !Navigates(first, hs, k) && !EndsLoad(hs, k, id)
  {
  }

  lemma NothingHappened(w: Watch)
    ensures After(w, []) == w
  {
  }

  // ----- Navigation, loading and network

  /** Happening `k` is traffic: a request that counts, or the end of an outstanding one. */
  ghost predicate IsTraffic(w: Watch, hs: seq<Happening>, k: nat)
    requires k < |hs|
  {
    match hs[k]
    case Happened(_, RequestSent(id, _, _, _)) => Requests(w.activity.mainFrame, hs, k, id)
    case Happened(_, LoadingEnded(id)) => Outstanding(w, hs[..k], id)
    case _ => false
  }

  /** The address that happening `k` leads the main frame to. */
  function AddressAt(first: string, hs: seq<Happening>, k: nat): Option<string>
    requires k < |hs|
  {
    match hs[k]
    case Happened(_, StartedNavigating(_, url)) => if Navigates(first, hs, k) then Some(url) else None
    case Happened(_, Navigated(_, _, url)) => if Navigates(first, hs, k) then Some(url) else None
    case Happened(_, RequestSent(id, _, resource, url)) =>
      if Requests(first, hs, k, id) && resource.Document? then url else None
    case _ => None
  }

  lemma ActivityStep(w: Watch, hs: seq<Happening>, n: nat)
    requires n < |hs|
    ensures var a, b, first := After(w, hs[..n]).activity, After(w, hs[..n + 1]).activity, w.activity.mainFrame;
            && b.lastNavigation == (if Navigates(first, hs, n) then hs[n].at else a.lastNavigation)
            && (b.loading <==> Loads(first, hs, n) || (a.loading && !Stops(first, hs, n)))
            && b.lastNetwork == (if IsTraffic(w, hs, n) then hs[n].at else a.lastNetwork)
            && var address := AddressAt(first, hs, n);
               b.chain == if address.Some? then Appended(a.chain, address.value) else a.chain
  {
    hide Appended, Seen, Outstanding;
    assert hs[..n + 1][..n] == hs[..n] && hs[..n + 1][n] == hs[n];
    FrameIsKnown(w, hs[..n]);
    if hs[n].Happened? && hs[n].event.RequestSent? {
      WhatCounts(hs[n].event.resource);
    }
    if hs[n].Happened? && hs[n].event.LoadingEnded? {
      PendingIsOutstanding(w, hs[..n], hs[n].event.id);
    }
  }

  /** `time` is that of the last navigation among the first `n` happenings, or the one before. */
  ghost predicate LastNavigationIs(w: Watch, hs: seq<Happening>, n: nat, time: int)
    requires n <= |hs|
  {
    var first := w.activity.mainFrame;
    || (exists k: nat :: k < n && Navigates(first, hs, k) && hs[k].at == time
                         && forall j: nat :: k < j < n ==> !Navigates(first, hs, j))
    || (time == w.activity.lastNavigation && forall j: nat :: j < n ==> !Navigates(first, hs, j))
  }

  lemma {:induction false} NavigationIsLast(w: Watch, hs: seq<Happening>, n: nat)
    requires n <= |hs|
    ensures LastNavigationIs(w, hs, n, After(w, hs[..n]).activity.lastNavigation)
  {
    hide After, Navigates, Loads, Stops, IsTraffic;
    if n == 0 {
      NothingHappened(w);
      assert hs[..0] == [];
    } else {
      NavigationIsLast(w, hs, n - 1);
      ActivityStep(w, hs, n - 1);
    }
  }

  /** The main frame loads if the last that happened to its loading was no end of it. */
  lemma {:induction false} LoadingIsLast(w: Watch, hs: seq<Happening>, n: nat)
    requires n <= |hs|
    ensures var first := w.activity.mainFrame;
            After(w, hs[..n]).activity.loading
            <==> || (exists k: nat :: k < n && Loads(first, hs, k)
                                      && forall j: nat :: k < j < n ==> !Stops(first, hs, j))
                 || (w.activity.loading && forall j: nat :: j < n ==> !Stops(first, hs, j))
  {
    hide After, Navigates, Loads, Stops, IsTraffic;
    if n == 0 {
      NothingHappened(w);
      assert hs[..0] == [];
    } else {
      LoadingIsLast(w, hs, n - 1);
      ActivityStep(w, hs, n - 1);
      LoadsOrStops(w.activity.mainFrame, hs, n - 1);
    }
  }

  lemma LoadsOrStops(first: string, hs: seq<Happening>, k: nat)
    requires k < |hs|
    ensures !Loads(first, hs, k) || !Stops(first, hs, k)
  {
  }

  ghost predicate LastTrafficIs(w: Watch, hs: seq<Happening>, n: nat, time: int)
    requires n <= |hs|
  {
    || (exists k: nat :: k < n && IsTraffic(w, hs, k) && hs[k].at == time
                         && forall j: nat :: k < j < n ==> !IsTraffic(w, hs, j))
    || (time == w.activity.lastNetwork && forall j: nat :: j < n ==> !IsTraffic(w, hs, j))
  }

  lemma {:induction false} NetworkIsLast(w: Watch, hs: seq<Happening>, n: nat)
    requires n <= |hs|
    ensures LastTrafficIs(w, hs, n, After(w, hs[..n]).activity.lastNetwork)
  {
    hide After, Navigates, Loads, Stops, IsTraffic;
    if n == 0 {
      NothingHappened(w);
      assert hs[..0] == [];
    } else {
      NetworkIsLast(w, hs, n - 1);
      ActivityStep(w, hs, n - 1);
    }
  }

  /** The chain gets the trimmed address unless it is blank, about:blank or the last one. */
  lemma ChainMeans(chain: seq<string>, url: string)
    ensures var u, after := TrimSpace(url), Appended(chain, url);
            && (after == chain + [u] <==> u != "" && u != "about:blank" && !(chain != [] && chain[|chain| - 1] == u))
            && (after != chain + [u] ==> after == chain)
  {
    assert |chain + [TrimSpace(url)]| == |chain| + 1;
  }

  // ----- Exactly when a page is complete

  /** A streak of probes has lasted at least since its first one. */
  lemma {:induction false} StreakIsRemembered(w: Watch, hs: seq<Happening>, k: nat, content: Probe)
    requires Fresh(w.readiness) && InOrder(w.readiness.started, hs) && content.url != ""
    requires k < |hs| && hs[k].Probed?
    requires forall j: nat :: k <= j < |hs| && hs[j].Probed? ==> hs[j].probe.SameContent(content)
    ensures After(w, hs).readiness.since <= hs[k].at && After(w, hs).readiness.last.SameContent(content)
  {
    hide Track;
    var front, n := hs[..|hs| - 1], |hs| - 1;
    assert forall j :: 0 <= j < n ==> front[j] == hs[j];
    if k < n {
      StreakIsRemembered(w, front, k, content);
    } else {
      StreakHolds(w, front);
    }
  }

  lemma OldStreakIff(w: Watch, hs: seq<Happening>, now: int, window: int, probe: Probe)
    requires Fresh(w.readiness) && window > 0 && InOrder(w.readiness.started, hs + [Probed(now, probe)])
    ensures After(w, hs + [Probed(now, probe)]).readiness.since <= now - window
            <==> probe.url != "" && UnchangedFor(hs, now, window, probe)
  {
    hide After;
    var all := hs + [Probed(now, probe)];
    assert forall j :: 0 <= j < |hs| ==> all[j] == hs[j];
    assert all[|hs|] == Probed(now, probe);
    if probe.url == "" {
      NoAddressIsNew(w, hs, now, probe);
    } else if After(w, all).readiness.since <= now - window {
      OldStreakMeansUnchanged(w, hs, now, window, probe);
    } else if UnchangedFor(hs, now, window, probe) {
      var k: nat :| k < |hs| && hs[k].Probed? && hs[k].at <= now - window
                    && forall j: nat :: k <= j < |hs| && hs[j].Probed? ==> hs[j].probe.SameContent(probe);
      StreakIsRemembered(w, all, k, probe);
    }
  }

  lemma NoAddressIsNew(w: Watch, hs: seq<Happening>, now: int, probe: Probe)
    requires probe.url == ""
    ensures After(w, hs + [Probed(now, probe)]).readiness.since == now
  {
    assert (hs + [Probed(now, probe)])[..|hs|] == hs;
  }

  /** No navigation within the last `window`. */
  ghost predicate SettledFor(w: Watch, hs: seq<Happening>, now: int, window: int) {
    && w.activity.lastNavigation <= now - window
    && forall k: nat :: k < |hs| && Navigates(w.activity.mainFrame, hs, k) ==> hs[k].at <= now - window
  }

  lemma SettledIff(w: Watch, hs: seq<Happening>, now: int, window: int)
    requires InOrder(w.activity.lastNavigation, hs)
    ensures now - After(w, hs).activity.lastNavigation >= window <==> SettledFor(w, hs, now, window)
  {
    hide After, Navigates;
    assert hs[..|hs|] == hs;
    NavigationIsLast(w, hs, |hs|);
  }

  /** A probe completes the page if and only if the time budget is spent, the page has an address
      and something on it, an earlier probe a stability window ago and all since showed the
      same content, there was no navigation in that window, the document is ready or was long
      the same, and the frame is idle with a quiet network or the content was the same for three
      windows. */
  lemma CompleteIff(w: Watch, hs: seq<Happening>, cfg: Config, now: int, probe: Probe)
    requires Fresh(w.readiness) && cfg.stabilityWindow > 0
    requires InOrder(w.readiness.started, hs + [Probed(now, probe)]) && InOrder(w.activity.lastNavigation, hs)
    ensures var a, window := After(w, hs).activity, cfg.stabilityWindow;
            var long, longest := 3 * window, Max(5_000_000_000, 6 * window);
            IsComplete(After(w, hs + [Probed(now, probe)]).readiness, now, probe, a, cfg)
            <==>
              && now - w.readiness.started >= cfg.virtualTimeBudget
              && probe.url != "" && (!Blank(probe.title) || !Blank(probe.description) || probe.textLength > 0)
              && UnchangedFor(hs, now, window, probe) && SettledFor(w, hs, now, window)
              && (|| probe.readyState == "complete"
                  || (probe.readyState == "interactive" && UnchangedFor(hs, now, long, probe))
                  || (probe.readyState == "loading" && UnchangedFor(hs, now, longest, probe)))
              && (|| (!a.loading && a.pending == {} && now - a.lastNetwork >= cfg.networkIdleWindow)
                  || UnchangedFor(hs, now, long, probe))
  {
    hide After, UnchangedFor, SettledFor, Blank;
    var window := cfg.stabilityWindow;
    StreakHolds(w, hs + [Probed(now, probe)]);
    OldStreakIff(w, hs, now, window, probe);
    OldStreakIff(w, hs, now, 3 * window, probe);
    OldStreakIff(w, hs, now, Max(5_000_000_000, 6 * window), probe);
    SettledIff(w, hs, now, window);
  }

  /** The reason that is given is the one that holds. */
  lemma ReasonMeans(r: Readiness, now: int, probe: Probe, a: Activity, cfg: Config)
    ensures var reason, stable := Reason(r, now, probe, a, cfg), ContentStable(r, now, probe, a, cfg);
            && (reason == "dom_and_network_stable" <==> IsComplete(r, now, probe, a, cfg))
            && (reason == "observing_for_delayed_changes" <==> now - r.started < cfg.virtualTimeBudget)
            && (reason == "dom_or_navigation_still_changing" <==> now - r.started >= cfg.virtualTimeBudget && !stable)
            && (reason == "network_still_active" <==>
                  now - r.started >= cfg.virtualTimeBudget && stable && !IsComplete(r, now, probe, a, cfg))
  {
    hide ContentStable;
    var words := ["dom_and_network_stable", "observing_for_delayed_changes",
                  "dom_or_navigation_still_changing", "network_still_active"];
    assert words[0][4] != words[2][4] && words[1][0] != words[0][0] && words[3][0] != words[0][0];
    assert words[1][0] != words[2][0] && words[1][0] != words[3][0] && words[2][0] != words[3][0];
  }

  // ----- What is counted

  /** The last probe of the happenings. */
  function LastProbe(hs: seq<Happening>): Option<Probe> {
    if hs == [] then None
    else
      match hs[|hs| - 1]
      case Probed(_, probe) => Some(probe)
      case _ => LastProbe(hs[..|hs| - 1])
  }

  /** How often a probe showed other content than the one before it, which had an address. */
  function ContentChanges(hs: seq<Happening>): nat {
    if hs == [] then 0
    else
      var front := hs[..|hs| - 1];
      var before := LastProbe(front);
      ContentChanges(front)
      + match hs[|hs| - 1]
        case Probed(_, probe) =>
          if before.Some? && before.value.url != "" && !probe.SameContent(before.value) then 1 else 0
        case _ => 0
  }

  /** A new detector counts exactly the changes of content. */
  lemma {:induction false} ContentChangesAreCounted(w: Watch, hs: seq<Happening>)
    requires Fresh(w.readiness) && w.readiness.contentChanges == 0
    ensures var r := After(w, hs).readiness;
            && r.contentChanges == ContentChanges(hs)
            && (LastProbe(hs).Some? ==> r.last.SameContent(LastProbe(hs).value))
            && (LastProbe(hs).None? ==> r.last == NO_PROBE)
  {
    hide Track;
    if hs != [] {
      ContentChangesAreCounted(w, hs[..|hs| - 1]);
    }
  }

  /** The most changes of the page that a probe has reported. */
  function MostReported(hs: seq<Happening>): int {
    if hs == [] then 0
    else
      match hs[|hs| - 1]
      case Probed(_, probe) => Max(MostReported(hs[..|hs| - 1]), probe.domChanges)
      case _ => MostReported(hs[..|hs| - 1])
  }

  /** As long as the probes are of one address, the changes add up to the most that were reported,
      on top of those of earlier pages. */
  lemma {:induction false} ReportsOfOnePage(w: Watch, hs: seq<Happening>, url: string)
    requires forall k :: 0 <= k < |hs| && hs[k].Probed? ==> hs[k].probe.url == url && hs[k].probe.domChanges >= 0
    requires w.readiness.mutationURL != url
    ensures var r := After(w, hs).readiness;
            && r.domChanges == w.readiness.domChanges + MostReported(hs)
            && (LastProbe(hs).Some? ==> r.mutationURL == url && r.mutationCount == MostReported(hs))
            && (LastProbe(hs).None? ==> r.mutationURL == w.readiness.mutationURL && MostReported(hs) == 0)
  {
    hide Track;
    if hs != [] {
      var front, n := hs[..|hs| - 1], |hs| - 1;
      assert forall k :: 0 <= k < n ==> front[k] == hs[k];
      ReportsOfOnePage(w, front, url);
      assert MostReported(front) >= 0 by {
        MostIsPositive(front);
      }
    }
  }

  lemma {:induction false} MostIsPositive(hs: seq<Happening>)
    ensures MostReported(hs) >= 0
  {
    if hs != [] {
      MostIsPositive(hs[..|hs| - 1]);
    }
  }
}
