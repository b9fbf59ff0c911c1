/** When a rendered page counts as settled: the activity tracker and the readiness detector of
    model/agent/headless_browser_cdp.go. */
module RenderStability {
  import opened Wrappers
  import opened Text

  const LOADING_STABLE_WINDOW := 5_000_000_000
  const GRACE_FACTOR := 3

  datatype Config = Config(stabilityWindow: int, networkIdleWindow: int, virtualTimeBudget: int)

  datatype Probe = Probe(
    url: string, readyState: string, title: string, description: string, textLength: int, signature: string,
    domChanges: int)
  {
    predicate Meaningful() { !Blank(title) || !Blank(description) || textLength > 0 }

    /** What the detector compares from one observation to the next. */
    predicate SameContent(other: Probe) {
      url == other.url && signature == other.signature && readyState == other.readyState
    }
  }

  // ----- Tracker

  datatype Resource = Document | Media | WebSocket | EventSource | Ping | Image | OtherResource

  predicate Important(r: Resource) { r in {Document, OtherResource} }

  datatype BrowserEvent =
    | StartedNavigating(frame: string, url: string)
    | Navigated(frame: string, isMainFrame: bool, url: string)
    | StartedLoading(frame: string)
    | StoppedLoading(frame: string)
    | RequestSent(id: string, frame: string, resource: Resource, requestURL: Option<string>)
    | LoadingEnded(id: string)

  datatype Activity = Activity(
    mainFrame: string, chain: seq<string>, lastNavigation: int, lastNetwork: int, loading: bool, pending: set<string>)

  function Appended(chain: seq<string>, url: string): seq<string> {
    var u := TrimSpace(url);
    if u == "" || u == "about:blank" || (chain != [] && chain[|chain| - 1] == u) then chain else chain + [u]
  }

  /** The event is a navigation of the main frame as far as the tracker knows it. */
  predicate IsNavigation(a: Activity, e: BrowserEvent) {
    match e
    case StartedNavigating(frame, _) => a.mainFrame == "" || frame == a.mainFrame
    case Navigated(_, isMainFrame, _) => isMainFrame
    case _ => false
  }

  function Track(a: Activity, e: BrowserEvent, now: int): Activity {
    match e
    case StartedNavigating(frame, url) =>
      if !IsNavigation(a, e) then a
      else a.(chain := Appended(a.chain, url), lastNavigation := now, loading := true, pending := {})
    case Navigated(frame, isMainFrame, url) =>
      if !isMainFrame then a
      else a.(mainFrame := frame, chain := Appended(a.chain, url), lastNavigation := now,
              loading := true, pending := {})
    case StartedLoading(frame) => if frame == a.mainFrame then a.(loading := true) else a
    case StoppedLoading(frame) => if frame == a.mainFrame then a.(loading := false) else a
    case RequestSent(id, frame, resource, url) =>
      if !Important(resource) || (a.mainFrame != "" && frame != "" && frame != a.mainFrame) then a
      else
        a.(pending := a.pending + {id}, lastNetwork := now,
           chain := if resource.Document? && url.Some? then Appended(a.chain, url.value) else a.chain)
    case LoadingEnded(id) => if id in a.pending then a.(pending := a.pending - {id}, lastNetwork := now) else a
  }

  class BrowserActivityTracker {
    var mainFrameID: string
    var navigationChain: seq<string>
    var lastNavigation: int
    var lastNetwork: int
    var loading: bool
    var pending: set<string>

    ghost function State(): Activity
      reads this
    {
      Activity(mainFrameID, navigationChain, lastNavigation, lastNetwork, loading, pending)
    }

    constructor (rawURL: string, now: int)
      ensures State() == Activity("", [rawURL], now, now, true, {})
    {
      mainFrameID, navigationChain, lastNavigation, lastNetwork, loading, pending := "", [rawURL], now, now, true, {};
    }

    method AppendNavigation(rawURL: string)
      modifies this`navigationChain
      ensures navigationChain == Appended(old(navigationChain), rawURL)
    {
      var url := TrimSpace(rawURL);
      if url == "" || url == "about:blank" {
        return;
      }
      if |navigationChain| == 0 || navigationChain[|navigationChain| - 1] != url {
        navigationChain := navigationChain + [url];
      }
    }

    method ObserveEvent(e: BrowserEvent, now: int)
      modifies this
      ensures State() == Track(old(State()), e, now)
    {
      hide Appended;
      match e {
        case StartedNavigating(frame, url) =>
          if mainFrameID == "" || frame == mainFrameID {
            AppendNavigation(url);
            lastNavigation, loading, pending := now, true, {};
          }
        case Navigated(frame, isMainFrame, url) =>
          if isMainFrame {
            mainFrameID := frame;
            AppendNavigation(url);
            lastNavigation, loading, pending := now, true, {};
          }
        case StartedLoading(frame) =>
          if frame == mainFrameID {
            loading := true;
          }
        case StoppedLoading(frame) =>
          if frame == mainFrameID {
            loading := false;
          }
        case RequestSent(id, frame, resource, url) =>
          if !Important(resource) || (mainFrameID != "" && frame != "" && frame != mainFrameID) {
            return;
          }
          pending := pending + {id};
          lastNetwork := now;
          if resource.Document? && url.Some? {
            AppendNavigation(url.value);
          }
        case LoadingEnded(id) =>
          if id in pending {
            pending := pending - {id};
            lastNetwork := now;
          }
      }
    }
  }

  // ----- Detector

  datatype Readiness = Readiness(
    started: int, last: Probe, since: int, mutationURL: string, mutationCount: int,
    domChanges: int, contentChanges: int)

  const NO_PROBE := Probe("", "", "", "", 0, "", 0)

  function Max(a: int, b: int): int { if a > b then a else b }

  /** The state after an observation. Only address, signature and ready state of the last
      probe are kept. */
  function Seen(r: Readiness, now: int, probe: Probe): Readiness {
    var counted :=
      if probe.url != r.mutationURL then
        r.(mutationURL := probe.url, mutationCount := probe.domChanges,
           domChanges := r.domChanges + Max(0, probe.domChanges))
      else if probe.domChanges >= r.mutationCount then
        r.(domChanges := r.domChanges + (probe.domChanges - r.mutationCount), mutationCount := probe.domChanges)
      else r;
    if r.last.url == "" || !probe.SameContent(r.last) then
      counted.(last := NO_PROBE.(url := probe.url, signature := probe.signature, readyState := probe.readyState),
               since := now,
               contentChanges := if r.last.url != "" then r.contentChanges + 1 else r.contentChanges)
    else counted
  }

  predicate SemanticOverride(r: Readiness, now: int, cfg: Config) {
    now - r.since >= GRACE_FACTOR * cfg.stabilityWindow
  }

  predicate DocumentReady(r: Readiness, now: int, probe: Probe, cfg: Config) {
    || probe.readyState == "complete"
    || (probe.readyState == "interactive" && SemanticOverride(r, now, cfg))
    || (probe.readyState == "loading"
        && now - r.since >= Max(LOADING_STABLE_WINDOW, 2 * GRACE_FACTOR * cfg.stabilityWindow))
  }

  predicate NetworkQuiet(a: Activity, now: int, cfg: Config) {
    a.pending == {} && now - a.lastNetwork >= cfg.networkIdleWindow
  }

  predicate ContentStable(r: Readiness, now: int, probe: Probe, a: Activity, cfg: Config) {
    && DocumentReady(r, now, probe, cfg) && probe.Meaningful()
    && now - a.lastNavigation >= cfg.stabilityWindow && now - r.since >= cfg.stabilityWindow
  }

  /** The page is reported as complete, given the state after the observation. */
  predicate IsComplete(r: Readiness, now: int, probe: Probe, a: Activity, cfg: Config) {
    && now - r.started >= cfg.virtualTimeBudget
    && ContentStable(r, now, probe, a, cfg)
    && ((!a.loading && NetworkQuiet(a, now, cfg)) || SemanticOverride(r, now, cfg))
  }

  datatype Decision = Decision(
    contentStable: bool, complete: bool, reason: string, domChanges: int, contentChanges: int)

  function Reason(r: Readiness, now: int, probe: Probe, a: Activity, cfg: Config): string {
    if now - r.started < cfg.virtualTimeBudget then "observing_for_delayed_changes"
    else if !ContentStable(r, now, probe, a, cfg) then "dom_or_navigation_still_changing"
    else if !IsComplete(r, now, probe, a, cfg) then "network_still_active"
    else "dom_and_network_stable"
  }

  class RenderReadiness {
    var started: int
    var lastURL: string
    var lastSignature: string
    var lastReadyState: string
    var signatureSince: int
    var mutationURL: string
    var lastMutationCount: int
    var totalDOMChanges: int
    var semanticChangeCount: int

    ghost function State(): Readiness
      reads this
    {
      Readiness(started, NO_PROBE.(url := lastURL, signature := lastSignature, readyState := lastReadyState),
                signatureSince, mutationURL, lastMutationCount, totalDOMChanges, semanticChangeCount)
    }

    constructor (started: int)
      ensures State() == Readiness(started, NO_PROBE, started, "", 0, 0, 0)
    {
      this.started, signatureSince := started, started;
      lastURL, lastSignature, lastReadyState, mutationURL := "", "", "", "";
      lastMutationCount, totalDOMChanges, semanticChangeCount := 0, 0, 0;
    }

    /** The part of observe that updates the fields. */
    method Record(now: int, probe: Probe)
      modifies this
      ensures State() == Seen(old(State()), now, probe)
    {
      if probe.url != mutationURL {
        mutationURL := probe.url;
        lastMutationCount := probe.domChanges;
        totalDOMChanges := totalDOMChanges + Max(0, probe.domChanges);
      } else if probe.domChanges >= lastMutationCount {
        totalDOMChanges := totalDOMChanges + (probe.domChanges - lastMutationCount);
        lastMutationCount := probe.domChanges;
      }
      var changed := lastURL == "" || probe.url != lastURL || probe.signature != lastSignature
                     || probe.readyState != lastReadyState;
      if changed {
        if lastURL != "" {
          semanticChangeCount := semanticChangeCount + 1;
        }
        lastURL, lastSignature, lastReadyState, signatureSince := probe.url, probe.signature, probe.readyState, now;
      }
    }

    method Observe(now: int, probe: Probe, a: Activity, cfg: Config) returns (d: Decision)
      modifies this
      ensures State() == Seen(old(State()), now, probe)
      ensures d == Decision(ContentStable(State(), now, probe, a, cfg), IsComplete(State(), now, probe, a, cfg),
                            Reason(State(), now, probe, a, cfg), totalDOMChanges, semanticChangeCount)
    {
      hide Seen, TrimSpace;
      Record(now, probe);
      var stableFor := now - signatureSince;
      var override := stableFor >= GRACE_FACTOR * cfg.stabilityWindow;
      var loadingWindow := Max(LOADING_STABLE_WINDOW, 2 * GRACE_FACTOR * cfg.stabilityWindow);
      var documentReady := probe.readyState == "complete"
        || (probe.readyState == "interactive" && override)
        || (probe.readyState == "loading" && stableFor >= loadingWindow);
      var contentStable := documentReady && probe.Meaningful()
        && now - a.lastNavigation >= cfg.stabilityWindow && stableFor >= cfg.stabilityWindow;
      var networkQuiet := a.pending == {} && now - a.lastNetwork >= cfg.networkIdleWindow;
      var settled := contentStable && ((!a.loading && networkQuiet) || override);
      var minimumObserved := now - started >= cfg.virtualTimeBudget;
      var reason := if !minimumObserved then "observing_for_delayed_changes"
                    else if !contentStable then "dom_or_navigation_still_changing"
                    else if !settled then "network_still_active"
                    else "dom_and_network_stable";
      d := Decision(contentStable, minimumObserved && settled, reason, totalDOMChanges, semanticChangeCount);
    }
  }

  // ----- A whole observation

  /** One thing that happens at `at`: a browser event or a probe. */
  datatype Happening = Happened(at: int, event: BrowserEvent) | Probed(at: int, probe: Probe)

  datatype Watch = Watch(activity: Activity, readiness: Readiness)

  function Next(w: Watch, h: Happening): Watch {
    match h
    case Happened(at, event) => w.(activity := Track(w.activity, event, at))
    case Probed(at, probe) => w.(readiness := Seen(w.readiness, at, probe))
  }

  /** The watch after the happenings, and the one before the last of them. */
  function After(w: Watch, hs: seq<Happening>): Watch {
    if hs == [] then w else Next(After(w, hs[..|hs| - 1]), hs[|hs| - 1])
  }

  ghost predicate InOrder(start: int, hs: seq<Happening>) {
    && (forall k :: 0 <= k < |hs| ==> start <= hs[k].at)
    && (forall j, k :: 0 <= j < k < |hs| ==> hs[j].at <= hs[k].at)
  }

  /** The readiness as a new detector has it. */
  predicate Fresh(r: Readiness) { r.last == NO_PROBE && r.since == r.started }

  /** Every probe taken after `since` shows the content the detector remembers. */
  ghost predicate Streak(r: Readiness, hs: seq<Happening>) {
    forall k :: 0 <= k < |hs| && hs[k].Probed? && r.since < hs[k].at ==> hs[k].probe.SameContent(r.last)
  }

  lemma {:induction false} StreakHolds(w: Watch, hs: seq<Happening>)
    requires Fresh(w.readiness) && InOrder(w.readiness.started, hs)
    ensures var r := After(w, hs).readiness;
            && r.started == w.readiness.started && Streak(r, hs)
            && r.since >= r.started && (hs != [] ==> r.since <= hs[|hs| - 1].at)
  {
    if hs != [] {
      var front := hs[..|hs| - 1];
      assert forall k :: 0 <= k < |front| ==> front[k] == hs[k];
      StreakHolds(w, front);
    }
  }

  /** The content the detector remembers was seen by the probe at `k`, which set its time, and by
      every probe from then on. */
  ghost predicate StreakFrom(r: Readiness, hs: seq<Happening>, k: nat) {
    && k < |hs| && hs[k].Probed? && hs[k].at == r.since
    && forall j :: k <= j < |hs| && hs[j].Probed? ==> hs[j].probe.SameContent(r.last)
  }

  /** After any probe the remembered time is that of a probe with the same content. */
  lemma {:induction false} StreakStarts(w: Watch, hs: seq<Happening>)
    requires Fresh(w.readiness)
    ensures (exists k :: 0 <= k < |hs| && hs[k].Probed?) ==> exists k :: StreakFrom(After(w, hs).readiness, hs, k)
    ensures (forall k :: 0 <= k < |hs| ==> hs[k].Happened?) ==> After(w, hs).readiness == w.readiness
  {
    hide Track;
    if hs != [] {
      var front, n := hs[..|hs| - 1], |hs| - 1;
      assert forall k :: 0 <= k < n ==> front[k] == hs[k];
      StreakStarts(w, front);
      var before, r := After(w, front).readiness, After(w, hs).readiness;
      if hs[n].Happened? {
        assert r == before;
        if k :| StreakFrom(before, front, k) {
          assert StreakFrom(r, hs, k);
        }
      } else if before.last.url == "" || !hs[n].probe.SameContent(before.last) {
        assert StreakFrom(r, hs, n);
      } else {
        var k :| StreakFrom(before, front, k);
        assert StreakFrom(r, hs, k);
      }
    }
  }

  lemma TrackNavigation(a: Activity, e: BrowserEvent, now: int)
    ensures Track(a, e, now).lastNavigation == if IsNavigation(a, e) then now else a.lastNavigation
  {
  }

  lemma {:induction false} NavigationIsRemembered(w: Watch, hs: seq<Happening>)
    requires InOrder(w.activity.lastNavigation, hs)
    ensures After(w, hs).activity.lastNavigation >= w.activity.lastNavigation
    ensures hs != [] ==> After(w, hs).activity.lastNavigation <= hs[|hs| - 1].at
    ensures forall k :: 0 <= k < |hs| && hs[k].Happened? && IsNavigation(After(w, hs[..k]).activity, hs[k].event) ==>
                          hs[k].at <= After(w, hs).activity.lastNavigation
  {
    hide Appended, Track, IsNavigation, Seen;
    if hs != [] {
      var front, last := hs[..|hs| - 1], hs[|hs| - 1];
      NavigationIsRemembered(w, front);
      if last.Happened? {
        TrackNavigation(After(w, front).activity, last.event, last.at);
      }
      assert forall k :: 0 <= k < |front| ==> front[..k] == hs[..k] && front[k] == hs[k];
      assert hs[..|hs| - 1] == front;
    }
  }

  /** A probe at least `window` ago and every one after it, so every one in the last `window`,
      showed the same content as `probe`. */
  ghost predicate UnchangedFor(hs: seq<Happening>, now: int, window: int, probe: Probe) {
    && (exists k :: 0 <= k < |hs| && hs[k].Probed? && hs[k].at <= now - window
                    && forall j :: k <= j < |hs| && hs[j].Probed? ==> hs[j].probe.SameContent(probe))
    && (forall k :: 0 <= k < |hs| && hs[k].Probed? && now - window < hs[k].at ==> hs[k].probe.SameContent(probe))
  }

  lemma OldStreakMeansUnchanged(w: Watch, hs: seq<Happening>, now: int, window: int, probe: Probe)
    requires Fresh(w.readiness) && window > 0 && InOrder(w.readiness.started, hs + [Probed(now, probe)])
    requires After(w, hs + [Probed(now, probe)]).readiness.since <= now - window
    ensures UnchangedFor(hs, now, window, probe)
  {
    hide After, Seen;
    var all := hs + [Probed(now, probe)];
    var r := After(w, all).readiness;
    assert forall k :: 0 <= k < |hs| ==> all[k] == hs[k];
    assert all[|hs|] == Probed(now, probe);
    StreakStarts(w, all);
    var k: nat :| StreakFrom(r, all, k);
    assert probe.SameContent(r.last);
    assert k < |hs| && hs[k].Probed? && hs[k].at <= now - window;
  }

  /** When a probe completes the page: the time budget is spent; within the stability window
      before it, and by an earlier probe, only the same address, signature and ready state were
      seen and no main frame navigation took place; and either the frame is idle with a quiet
      network, or the content was seen unchanged for three windows. */
  lemma CompleteMeansStable(w: Watch, hs: seq<Happening>, cfg: Config, now: int, probe: Probe)
    requires Fresh(w.readiness) && cfg.stabilityWindow > 0
    requires InOrder(w.readiness.started, hs + [Probed(now, probe)]) && InOrder(w.activity.lastNavigation, hs)
    requires IsComplete(After(w, hs + [Probed(now, probe)]).readiness, now, probe, After(w, hs).activity, cfg)
    ensures now - w.readiness.started >= cfg.virtualTimeBudget && probe.Meaningful()
    ensures UnchangedFor(hs, now, cfg.stabilityWindow, probe)
    ensures forall k :: 0 <= k < |hs| && hs[k].Happened? && IsNavigation(After(w, hs[..k]).activity, hs[k].event) ==>
                          hs[k].at <= now - cfg.stabilityWindow
    ensures var a := After(w, hs).activity;
            || (!a.loading && NetworkQuiet(a, now, cfg))
            || UnchangedFor(hs, now, GRACE_FACTOR * cfg.stabilityWindow, probe)
  {
    hide Appended, UnchangedFor;
    var all := hs + [Probed(now, probe)];
    assert all[..|all| - 1] == hs;
    var r := After(w, all).readiness;
    StreakHolds(w, all);
    NavigationIsRemembered(w, hs);
    OldStreakMeansUnchanged(w, hs, now, cfg.stabilityWindow, probe);
    if now - r.since >= GRACE_FACTOR * cfg.stabilityWindow {
      OldStreakMeansUnchanged(w, hs, now, GRACE_FACTOR * cfg.stabilityWindow, probe);
    }
  }
}
